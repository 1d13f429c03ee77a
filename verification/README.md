# A verified model of the electronic-mail server

This project models the parts of the electronic-mail server whose correctness depends on state,
concurrency or formats that several functions share, and proves what those parts promise.
`dafny verify dfyconfig.toml` checks everything.

* **Advisory locks** (`AdvisoryLocks`, `LockSystem`, `LockProgress`, `AdvisorySession`). Provider scopes hold
  shared session locks on one connection and open guarded transactions on another; destructive
  work takes locks exclusively. Callers are trees of nested scopes; each compiles to lock
  requests, guard checks, uses of mail state and releases. Any number of such processes run
  interleaved, and requests queue first in, first out, behind waiting exclusive requests.
  Proved for every reachable state: no deadlock, every run ends, and guarded work runs under a
  true guard and guard changes run alone, except exactly when the server dropped a session and
  its process has not noticed. Left alone, every process performs exactly the uses its work asks
  for, unless a guard check of its own meets a closed guard. The session's own loops are methods:
  a scope leaves the session as it found it, or discards it.
* **Mail store** (`Messages`, `MailStore`, `MailEffects`, `MailRepository`, `SyncProgress`,
  `Reconciliation`, `RevisionToken`, `Revisions`, `Backfill`). One row's merge rules, the tables
  of one account and the repository functions that write them, each as one atomic step at a
  non-decreasing clock; `MailEffects` says what each of them means for rows, windows and progress,
  and the class `MailRepository.Repository` carries them out statement by statement. The theorems
  quantify over all runs of all these steps; the published progress counters are shown to be
  exact.
* **Mailbox paging** (`ThreadOrder`). Generations of Gmail's conversation order, cursors, and a
  reader that pages on while messages and orders change.
* **AI matters** (`Matters`, `SubgoalRecords`, `MatterRepository`, `MatterMembership`). Membership,
  locks, separate decisions, subgoals and their evidence, merges and rebuilt generations.
* **Job queue** (`JobQueue`), **rate limiter** (`RateLimiter`), **auth cache** (`AuthCache`).
* **Lock files** (`LockText`, `LockFile`, `LockScripts`): one printer and three separately
  written readers.
* **Backups** (`BackupCodec`): chunked encryption and decryption over an abstract AEAD.

`Basics` holds shared notions.

## Where the code does not do what one might expect

Each of these is proved together with the exact condition or a concrete run.

* With one lock namespace instead of two, or with a guarded write inside a destructive scope, the
  lock system deadlocks (`OneNamespaceDeadlocks`, `GuardedWriteInDestructiveScopeDeadlocks`). The
  first is what the docstring of `exclusive_user_mail_lock` argues.
* A session lock ends with its session, and the scope that holds it learns of that only at its
  next statement on the connection. A provider scope whose session is dropped during provider
  work can go on while a destructive scope takes its locks and closes the guard
  (`LostSessionOutlivesGuard`). `UsesAreGuarded` gives the exact condition, and
  `NoticedLossesAreSafe` says that nothing else can break the guard.
* `initial_window_complete` can fall: exactly when a non-empty discovery is accepted while the flag
  is set, which takes an empty window and a phase of none, discovering or failed
  (`WindowCompletionFalls`, `EmptyDiscoveryIsUndone`).
* A finalized scan without a progressive generation claims `complete` and later unfinished mail
  does not withdraw it (`CompletionWithoutGeneration`).
* Replayed upserts agree exactly when stamps that tie for the highest history id carry the same
  labels (`RegisterConfluence`).
* The thread token is faithful for identifiers without colons; with colons two threads can share
  one text (`ColonsCollide`). A deletion and re-insertion restarts a message's revision
  (`ReinsertionReusesRevision`).
* `list_mailbox_thread_page` resolves the generation and reads the page in two transactions. A page
  in Gmail's order, the first or a later one, is whole exactly when the generation outlives the
  time between them or nothing is left; otherwise the reader gets an empty last page and is told
  it has seen everything (`DelayedReadIsWhole`, `DelayedReadTruncates`).
* The automatic matter merge looks only at separate decisions of its own generation. It recombines
  separated messages exactly when a decision of another generation crosses the two matters
  (`MergeForgetsOtherGenerations`, `RebuildRecombines`), while assignment looks at all of them
  (`AssignmentSparesEverySeparation`). Reassignment can empty a visible matter
  (`ReassignmentEmpties`).
* A subgoal keeps at most twenty evidence messages of an item, cited ones first. An item that cites
  twenty other members leaves out the message it was read from (`EvidenceIsBrought`,
  `TwentyOthersCrowdOut`).
* `fail_job` judges by the job as the worker remembers it. A worker that claims a job again and
  then fails it with the older snapshot requeues it beyond its limit
  (`StaleSnapshotEscapesLimit`, `StaleSnapshotExample`). This is a property of the function: the
  worker loop (`backend/app/workers/main.py:125-216`) works on one claim at a time and passes
  what that claim returned.
* `_cleanup` sweeps every rule's deque with the window of the current rule. The limiter decides by
  the sliding count exactly when all rules share one window (`CommonWindowNeeded`); the API's
  rules do (`ApiRulesDecideByCount`).
* The limiter's class comment speaks of fixed windows; the code counts a sliding window, and the
  model follows the code.
* The backup script refuses a line that is only a continuation mark and the verifier does not; the
  verifier refuses an empty file and the backup script does not (`ReadersAgree`). The refresh
  script accepts versions the two readers refuse (`VerifierReadsPrinted`).

## Model

| member | source | states |
|---|---|---|
| AdvisoryLocks.WorkIsDisciplined | backend/app/db/user_mail_guard.py:381-441 | every nesting of scopes callers may write compiles to code that requests locks in rank order, checks the guard before it uses mail state, and gives everything back |
| AdvisoryLocks.TaskIsDisciplined | backend/app/db/user_mail_guard.py:92-194 | the same for whole tasks: provider scopes, linked-account scopes, guarded writes, draft adoption and destructive work |
| LockSystem.StepKeepsInv | backend/app/db/user_mail_guard.py:316-344 | every request, grant, guard check, use, release, timeout, discarded connection and silently dropped session of any process keeps the lock table consistent with what each process holds and will still do |
| LockSystem.BlockerOutranks | backend/app/db/user_mail_guard.py:426-433 | whoever blocks a waiter waits for a higher rank itself or can run |
| LockSystem.DeadlockFree | backend/app/db/user_mail_guard.py:426-441 | in every reachable state with an unfinished process some process can run, with requests queueing behind waiting exclusive ones |
| LockSystem.RunUsesUpWork | backend/app/db/user_mail_guard.py:316-344 | every move of a run without timeouts uses up work of a fixed amount |
| LockSystem.RunsFinish | backend/app/db/user_mail_guard.py:316-344 | a run that cannot be continued has finished every process, holds no lock and keeps nobody waiting |
| LockSystem.ReachableSystemsFinish | backend/app/db/user_mail_guard.py:316-344 | deadlock freedom and termination of every reachable system |
| LockSystem.UsesAreGuarded | backend/app/db/user_mail_guard.py:92-147 | in every reachable state a process about to use mail state acts under a false guard if and only if the guard was closed after its check, and not opened since, while the session hold of that check, or the session of the closing scope, had been dropped unnoticed |
| LockSystem.GuardChangesAreAlone | backend/app/db/user_mail_guard.py:426-441 | while a destructive scope that has its session changes a guard, no lock that keeps the change out is really held by anyone else: whoever is still inside a provider scope or guarded write of that user has lost its session |
| LockSystem.NoticedLossesAreSafe | backend/app/db/user_mail_guard.py:292-313 | over every run in which no session is dropped unnoticed, timeouts, exceptions and discarded connections included, every use is under a true guard and guard changes are alone |
| LockSystem.LostSessionOutlivesGuard | backend/app/db/user_mail_guard.py:380-397 | a reachable state in which a provider scope that lost its session is about to use mail state after a destructive scope closed the guard |
| LockProgress.WorkIsPerformed | backend/app/db/user_mail_guard.py:92-194 | over every run without timeouts or losses a process performs, in order, a prefix of the uses its work asks for, and once nobody can run all of them if and only if none of its guard checks met a closed guard |
| LockProgress.OpenGuardsLetWorkHappen | backend/app/db/user_mail_guard.py:128-194 | with the guards of all users open and no work that closes one, every interleaving performs for every process exactly what its work asks for |
| LockProgress.WaitersAreNotOvertaken | backend/app/db/user_mail_guard.py:426-433 | a request is not granted ahead of a conflicting one that waits before it, unless its session already holds the lock |
| LockProgress.WritesOutliveSession | backend/app/db/user_mail_guard.py:92-147 | a guarded write passes its check under an open guard even when the session of its process was dropped |
| LockSystem.OneNamespaceDeadlocks | backend/app/db/user_mail_guard.py:426-433 | with one namespace for provider scopes and guarded writes, three statements of two processes that hold nothing end in a deadlock |
| LockSystem.GuardedWriteInDestructiveScopeDeadlocks | backend/app/db/user_mail_guard.py:181-194 | a guarded write inside the exclusive scope waits for its own process |
| AdvisorySession.Connection.ReleaseLocks | backend/app/db/user_mail_guard.py:292-313 | without a fault the locks are released in reverse order and the other locks of the session stay; any fault, or a lock the session does not hold, discards the whole session |
| AdvisorySession.Connection.AcquireLocks | backend/app/db/user_mail_guard.py:316-344 | without a fault all locks are requested in order and held; otherwise the session holds what it held before or is discarded |
| AdvisorySession.Connection.RunNested | backend/app/db/user_mail_guard.py:316-344 | nested scopes without a fault request and release their locks inside out and restore the session; with any faults the session is restored or discarded |
| AdvisorySession.DraftLockHandle.Acquire | backend/app/db/mail_groups.py:251-258 | the draft handle owns the locks of its identity or nothing |
| AdvisorySession.DraftLockHandle.Release | backend/app/db/mail_groups.py:268-273 | without a fault the draft locks are given back once, in reverse order, and a repeated release does nothing |
| AdvisorySession.DraftLockHandle.Adopt | backend/app/db/mail_groups.py:260-266 | adoption releases the old draft locks and then requests the provider lock before the client lock, leaving the rest of the session, and ends without draft locks only after a fault |
| AdvisorySession.ProgramsTakeScopeLocks | backend/app/db/user_mail_guard.py:353-441 | the processes of the lock system request exactly the locks the scopes list, in order |
| Messages.RevisionCountsChange | backend/app/db/mail_groups.py:2260-2341 | one statement of any writer raises the revision by one exactly when it changes visible content or a reported body state |
| Messages.RevisionIdentifiesContent | backend/app/db/mail_groups.py:2260-2447 | over any sequence of writes the revision never falls, and an unmoved revision means unmoved content |
| Messages.BodyStateOnlyRises | backend/app/db/mail_groups.py:2424-2447 | fetched is absorbing and unavailable yields only to it, under every writer |
| Messages.UpsertsJoinStamps | backend/app/db/mail_groups.py:2168-2256 | upserts act on history and labels as joins of their stamps |
| Messages.JoinAllIsFirstMaximum | backend/app/db/mail_groups.py:2168-2256 | the register ends with the first stamp of the highest numeric history |
| Messages.RegisterConfluence | backend/app/db/mail_groups.py:2168-2256 | any order and repetition of upserts converges if and only if the stamps that tie for the highest history agree |
| Messages.OptimisticLabels | backend/app/db/mail_groups.py:2370-2407 | an optimistic label write survives replays exactly until an upsert with a strictly newer history, then the newest labels show |
| Messages.UpsertsShowLatest | backend/app/db/mail_groups.py:2168-2367 | after any sequence of upserts a stored row shows the metadata of the last, the body parts of the last that brought them, the highest body state and its first title |
| MailEffects.EachMessageAlone | backend/app/db/mail_groups.py:2168-2367 | a batch acts on each message as the sequence of its own records, whatever the other rows are |
| MailEffects.TitlesTaken | backend/app/db/mail_groups.py:2754-2786 | titles are set on exactly the named rows and change neither content nor revision |
| MailRepository.Repository.UpsertOnConnection | backend/app/db/mail_groups.py:2168-2367 | the loop over rows leaves every row merged in order and reopens a finished history when open bodies appear |
| MailRepository.Repository.UpsertMessages | backend/app/db/mail_groups.py:2155-2165 | exactly the listed rows are stored or merged, no revision falls and no terminal body opens, and the progress changes only to withdraw a claim of completion when an open body is stored |
| MailRepository.Repository.ForceUpdateLabels | backend/app/db/mail_groups.py:2370-2407 | exactly the named stored rows get the given labels, and only a change raises their revision |
| MailRepository.Repository.UpdateMessageBodies | backend/app/db/mail_groups.py:2410-2495 | each listed row that was not fetched has the body of its first record and is otherwise the old one, all other rows stay, and window entries have their bodies once every message of their thread does; any record without a body changes nothing |
| MailRepository.Repository.RefreshBodyProgress | backend/app/db/mail_groups.py:2498-2571 | counters take exactly the larger of their value and the recount, the body-complete flag is set exactly on complete metadata with terminal bodies, the phase follows from both, and a second refresh changes nothing |
| MailEffects.ReadyThreadsMean | backend/app/db/mail_groups.py:2498-2571 | a thread counts as ready exactly when it has stored messages and all of them have terminal bodies |
| MailRepository.Repository.MarkBodyFetchState | backend/app/db/mail_groups.py:2787-2864 | the named rows have the state unless their body was terminal before, all others are untouched, and exactly then the window entries of their threads settle |
| MailRepository.Repository.DeleteMessages | backend/app/db/mail_groups.py:3604-3746 | exactly the named rows go, and of the window entries exactly those of their threads change: emptied ones are ready without messages, others have their bodies once every message left does |
| MailEffects.DeleteSparesProgress | backend/app/db/mail_groups.py:3604-3746 | a deletion that settles no window entry changes nothing but the rows |
| MailRepository.Repository.MarkImportStarted | backend/app/db/mail_groups.py:645-669 | only the phase changes, and once metadata is complete no window can be discovered again |
| MailRepository.Repository.MarkImportError | backend/app/db/mail_groups.py:784-805 | only the phase changes, and a discovery is accepted again exactly while the window is empty |
| MailRepository.Repository.MarkHistoryDeltaCompleted | backend/app/db/mail_groups.py:733-781 | a trusted cursor moves to the larger of its value and the new one, any other is replaced and trusted, completion is claimed exactly with complete bodies, and a text that is not numeric changes nothing |
| MailRepository.Repository.StartProgress | backend/app/db/mail_groups.py:1068-1124 | progress is bound to the active scan and only its window is kept, a new generation starts from zero, an old one keeps its progress, and a repeated call changes nothing |
| MailRepository.Repository.InitializeWindow | backend/app/db/mail_groups.py:1127-1230 | a window lists exactly the first hundred different threads, each at the rank of its first occurrence, and a later discovery changes nothing |
| MailRepository.Repository.CommitWindowBatch | backend/app/db/mail_groups.py:1321-1477 | exactly the named entries become ready, with the stored number of messages and with bodies exactly when those are all terminal, the rows are upserted, and a refused batch changes nothing |
| MailRepository.Repository.StartReconciliation | backend/app/db/mail_groups.py:1480-1546 | an active scan is never replaced, only identities of the active scan stay, a new scan has the given cursor and baseline and the time of the call, and no second start changes anything |
| MailRepository.Repository.RecordReconciliationPage | backend/app/db/mail_groups.py:1549-1600 | an accepted page makes exactly the next cursor acceptable, and its messages are spared by every sweep of the scan; a refused one changes nothing |
| MailRepository.Repository.CommitReconciliationPage | backend/app/db/mail_groups.py:1603-1706 | an accepted page stores and records exactly its rows, makes exactly the next cursor acceptable, is spared by every sweep, and counts the threads seen; a refused one changes nothing |
| MailRepository.Repository.RecordReconciliationSeen | backend/app/db/mail_groups.py:1709-1750 | final identities are accepted exactly when no page is expected any more, and are spared by every sweep |
| MailRepository.Repository.SweepAbsent | backend/app/db/mail_groups.py:1753-1834 | exactly the rows no page recorded and that are not newer than the scan are deleted, and counted |
| MailRepository.Repository.FinalizeReconciliation | backend/app/db/mail_groups.py:1753-1941 | the new history cursor is trusted and never lower than a trusted one was, metadata is complete, bodies are complete exactly when every row left is terminal, and the rows swept are counted; or nothing happens |
| MailRepository.Repository.ResetReconciliation | backend/app/db/mail_groups.py:1944-1979 | afterwards no page of the generation is accepted, it cannot be finalized, and none of its identities is left; another scan is untouched |
| MailRepository.Repository.BackfillDescriptorsPage | backend/app/db/mail_groups.py:2604-2737 | exactly the rows of the page that were not ready take their descriptors, the reported remainder and cursor are those of the new state |
| MailEffects.CursorHandedBack | backend/app/db/mail_groups.py:2604-2737 | the cursor names the last row of the page unless every row that is still not ready lies before it |
| SyncProgress.StepKeeps | backend/app/db/mail_groups.py:878-1230 | every repository function keeps published progress honest and monotone |
| SyncProgress.ProgressIsHonest | backend/app/db/mail_groups.py:878-1477 | in every reachable state with a generation: metadata count <= target, body-ready <= body target <= 25, history bodies <= history metadata, and complete implies complete bodies implies complete metadata and terminal bodies |
| SyncProgress.Pigeonhole | backend/app/db/mail_groups.py:1127-1230 | entries at distinct positions in a range are no more than the range |
| SyncProgress.CountersRise | backend/app/db/mail_groups.py:1321-1477 | no counter falls while the generation stays |
| SyncProgress.ProgressIsExact | backend/app/db/mail_groups.py:1321-1477 | in every reachable state the published counters of the initial window equal the number of entries with metadata and of first entries with bodies, and the window is complete exactly when all its entries have metadata |
| SyncProgress.CommittedPhase | backend/app/db/mail_groups.py:1416-1477 | a committed batch publishes the usable phase exactly when every entry has its metadata and the first 25 have their bodies |
| SyncProgress.RefreshedPhase | backend/app/db/mail_groups.py:2498-2571 | a refresh publishes it under the same condition, unless the history is complete or the phase has moved on |
| MailEffects.ActivationAdopts | backend/app/db/mail_groups.py:878-1066 | activation lists the newest hundred stored threads in order with what is stored of them, and claims completion exactly as far as it is true |
| MailEffects.WindowOrderIsTotal | backend/app/db/mail_groups.py:878-1066 | the order of the adopted window is total: newer threads first, dated before undated ones, the greater identifier on a tie |
| MailEffects.MilestonesStay | backend/app/db/mail_groups.py:672-730 | milestones are kept, and a finished backfill is withdrawn only by a new cursor |
| SyncProgress.WindowCompletionFalls | backend/app/db/mail_groups.py:1127-1230 | the window-complete flag falls within a generation exactly when a non-empty discovery is accepted, that is, while the window is empty and the phase is none, discovering or failed |
| SyncProgress.EmptyDiscoveryIsUndone | backend/app/db/mail_groups.py:1127-1230 | a reachable run where it falls |
| SyncProgress.CompletionWithoutGeneration | backend/app/db/mail_groups.py:1753-1941 | without a generation a finalized scan claims completion that later mail does not withdraw |
| Reconciliation.ScanKeeps | backend/app/db/mail_groups.py:1480-1979 | every scan step keeps the accepted pages and the stored cursor in agreement |
| Reconciliation.SweepIsExact | backend/app/db/mail_groups.py:1753-1941 | finalize takes effect only after accepted pages chain from the initial cursor to the end, and deletes exactly the rows no page or delta recorded that are not newer than the scan |
| Reconciliation.RecordedStayStored | backend/app/db/mail_groups.py:1753-1941 | over every run whose deletions stay outside the provider set, recorded messages of that set stay stored until the sweep |
| Reconciliation.SweepReachesProvider | backend/app/db/mail_groups.py:1753-1941 | when pages and deltas cover the provider set and deletions stay outside it, the stored ids equal it after the sweep if and only if no other stored row was listed or is newer than the scan |
| Reconciliation.TrustedCursorAdvances | backend/app/db/mail_groups.py:733-781 | while it is trusted the published history cursor never goes back |
| RevisionToken.TokenInjective | backend/app/db/mail_groups.py:4055-4069 | the text hashed into the token determines the ids and revisions, although nothing separates a revision from the next length |
| RevisionToken.TokenFaithful | backend/app/db/mail_groups.py:4378-4392 | two threads have the same text if and only if they hold the same messages at the same revisions |
| RevisionToken.ColonsCollide | backend/app/db/mail_groups.py:4055-4069 | with colons in ids two different threads share a text |
| Revisions.LifetimeRevision | backend/app/db/mail_groups.py:2168-2864 | over any run that does not delete the message, an unmoved revision means unmoved content and no revision falls |
| Revisions.ThreadTokenIsFaithful | backend/app/db/mail_groups.py:4055-4069 | over any run that deletes none of a thread, equal tokens mean the same messages with the same content |
| Revisions.ReinsertionReusesRevision | backend/app/db/mail_groups.py:3604-3746 | after deletion and re-insertion the same revision carries other content |
| Revisions.HistoryIsItsNumber | backend/app/db/mail_groups.py:2190-2213 | history identifiers compare as the numbers they print |
| Revisions.LeadingZero | backend/app/db/mail_groups.py:2190-2213 | leading zeros do not change the number |
| Backfill.PageProgresses | backend/app/db/mail_groups.py:2604-2737 | while rows remain every call leaves fewer unready rows, or as many and no cursor |
| Backfill.BackfillEnds | backend/app/db/mail_groups.py:2604-2737 | a chain of calls by the returned cursors is bounded by the unready rows at its start |
| Backfill.CompletionIsGlobal | backend/app/db/mail_groups.py:2604-2737 | a page publishes completion whenever no unready row is left anywhere; completion is claimed beside an unready row exactly when it was claimed before and unready rows lie beyond the cursor |
| Backfill.PageExists | backend/app/db/mail_groups.py:2604-2737 | a page can be taken in every state |
| ThreadOrder.MatchingRises | backend/app/db/mail_groups.py:4254-4281 | a page lists eligible entries behind its cursor in rising order positions |
| ThreadOrder.MatchingMissesNone | backend/app/db/mail_groups.py:4254-4281 | it misses none of them |
| ThreadOrder.PageIsSlice | backend/app/db/mail_groups.py:4254-4457 | a page holds exactly the eligible rows between its cursor and the next one, is as full as the limit allows, and has a next cursor exactly when more follow |
| ThreadOrder.PagingSurvivesRefresh | backend/app/db/mail_groups.py:2001-2152 | over every run of requests and refreshes no thread comes twice, rows come in the order of one generation, and a finished reader was given every thread eligible throughout exactly once |
| ThreadOrder.CursorExpiresOnSecondRefresh | backend/app/db/mail_groups.py:2094-2122 | a cursor is refused exactly after the second refresh since the first page and is otherwise served from the complete order |
| ThreadOrder.PromptReadIsListPage | backend/app/db/mail_groups.py:4219-4240 | without a delay between resolving and reading, the two transactions give the page of one moment |
| ThreadOrder.DelayedReadIsWhole | backend/app/db/mail_groups.py:4219-4240 | a first or later page resolved before and read after refreshes, with any change of eligible threads in between, is whole if and only if it is not read in Gmail order, fewer than two refreshes of its mailbox came since its generation was published, or nothing is left; otherwise it is an empty last page |
| ThreadOrder.DelayedReadTruncates | backend/app/db/mail_groups.py:4219-4240 | a run where the first page comes back empty and final, and one where the second does, although eligible threads were never returned |
| ThreadOrder.OrderTables.PublishMailbox | backend/app/db/mail_groups.py:2022-2090 | the new generation lists the named threads once each, the former active one is read as before, and nothing is left of any other |
| ThreadOrder.OrderTables.Replace | backend/app/db/mail_groups.py:2001-2091 | all mailboxes of a request are published together, or none when one is unknown |
| ThreadOrder.OrderTables.List | backend/app/db/mail_groups.py:4198-4457 | the scanning loop gives the page of the request: a cursor is refused exactly when its generation or mailbox does not match, and a first page uses the order exactly when that ranks every eligible thread |
| MatterMembership.NeverRecombined | backend/app/db/ai_inbox.py:1762-1791 | over every run without a user move no pair of an accepted separate decision shares a matter in its generation |
| MatterMembership.AssignApart | backend/app/db/ai_inbox.py:2035-2069 | assignment keeps separated messages apart |
| MatterMembership.ReconcileApart | backend/app/db/ai_inbox.py:1756-1791 | an automatic merge keeps separated messages apart within the generation |
| MatterMembership.MoveRecombines | backend/app/db/ai_inbox.py:2760-2773 | a user move recombines a separated pair if and only if it brings a message to a matter that holds one separated from it |
| MatterMembership.AssignmentSparesEverySeparation | backend/app/db/ai_inbox.py:2035-2069 | assignment respects the separations of every generation |
| MatterMembership.SeparatedFromIsExact | backend/app/db/ai_inbox.py:2035-2069 | assignment avoids exactly the matters that hold a message parted from this one by a decision of any generation |
| MatterMembership.MergeForgetsOtherGenerations | backend/app/db/ai_inbox.py:1756-1791 | an automatic merge recombines a pair exactly when a decision of another generation crosses the two matters |
| MatterMembership.RebuildRecombines | backend/app/db/ai_inbox.py:1756-1791 | a run from an empty inbox by consent, assignments, a separation, a confirmation and a rebuild, after which the allowed merge puts the separated messages together |
| MatterMembership.UserLocksHold | backend/app/db/ai_inbox.py:2096-2117 | no run of assignments, merges, confirmations and rebuilds moves or unlocks a locked member |
| MatterMembership.RebuildKeepsPartition | backend/app/db/ai_inbox.py:127-213 | a rebuilt generation holds exactly the locked messages of its source, all locked, with the same ones together |
| MatterMembership.RebuildCopiesMatters | backend/app/db/ai_inbox.py:127-213 | it has a matter of the same status and visibility for exactly the matters that hold a locked message |
| MatterMembership.HidesOnly | backend/app/db/ai_inbox.py:2594-2620 | hiding a matter changes nothing but its visibility |
| MatterMembership.ForgetsOnly | backend/migrations/versions/20260827_0033_ai_inbox_matters.py:182-183 | deleted messages leave every generation, and nothing else changes |
| MatterMembership.ReachableInbox | backend/app/db/ai_inbox.py:249-408 | in every reachable state exactly the generation the profile names is active and every matter with subgoals has the derived status |
| MatterMembership.StepActive | backend/app/db/ai_inbox.py:328-408 | every function keeps the active generation and the profile in agreement |
| MatterMembership.StepStatuses | backend/app/db/ai_inbox.py:2313-2343 | every function keeps matter statuses derived from the subgoals |
| MatterMembership.DerivedIsMostUrgent | backend/app/db/ai_inbox.py:53-70 | the derived status is the most urgent open one, and once none is open it tells complete, partly complete, failed and cancelled apart |
| MatterMembership.DerivedOfUnion | backend/app/db/ai_inbox.py:53-70 | sets of subgoals that agree on a status keep it when put together |
| MatterMembership.SubgoalsStayWork | backend/app/db/ai_inbox.py:2246-2259 | in every reachable state no subgoal has a status that only whole matters have |
| MatterMembership.MergeConserves | backend/app/db/ai_inbox.py:1794-1994 | an accepted merge keeps every message, empties and hides the source, gives the target all messages and all subgoal keys, and changes nothing else |
| MatterMembership.MergeKeepsEvidence | backend/app/db/ai_inbox.py:1826-1897 | a merged subgoal has the evidence of both and the later state, the source's on a tie |
| MatterMembership.ReassignmentEmpties | backend/app/db/ai_inbox.py:2179-2205 | assignment empties a visible matter exactly by taking its one unlocked message |
| MatterRepository.Repository.RecordSubgoals | backend/app/db/ai_inbox.py:2206-2312 | the loop over the first twelve items leaves the subgoals as these items tell, state and evidence |
| SubgoalRecords.RecordingTells | backend/app/db/ai_inbox.py:2237-2312 | subgoals no item addresses stay, every other has the state of the last item that addresses it and the evidence its items bring |
| SubgoalRecords.EvidenceIsBrought | backend/app/db/ai_inbox.py:2266-2272 | an item brings the first twenty different members it cites, and its own message exactly when that is among them or there is room |
| SubgoalRecords.AcceptedIs | backend/app/db/ai_inbox.py:2246-2259 | an item is recorded only when complete and with one of six statuses |
| SubgoalRecords.TwentyOthersCrowdOut | backend/app/db/ai_inbox.py:2266-2306 | an item that cites twenty other members leaves out the message it was read from |
| MatterRepository.Repository.ApplyAssignment | backend/app/db/ai_inbox.py:2072-2343 | the message is in its locked, selected or new matter and no other membership changes; unless tentative, the subgoals of that matter are as the items tell and its status follows them; other matters stay |
| MatterRepository.Repository.MoveSubgoals | backend/app/db/ai_inbox.py:1811-1897 | moving subgoals one by one, in any order, gives the declared union |
| MatterRepository.Repository.MergeReconciled | backend/app/db/ai_inbox.py:1669-2032 | the merge happens exactly when both matters are shown and have members, the source holds nothing locked and no decision of the generation parts their members; otherwise nothing changes |
| MatterRepository.Repository.ConfirmMembers | backend/app/db/ai_inbox.py:2645-2701 | exactly the chosen members, by default all proposed ones, are locked where they are, and every other row stays |
| MatterRepository.Repository.SeparateMembers | backend/app/db/ai_inbox.py:2702-2759 | exactly the chosen members leave, the matter is shown exactly while it has some, and the decision separates the chosen from the rest |
| MatterRepository.Repository.MoveMembers | backend/app/db/ai_inbox.py:2760-2773 | exactly the taken members are locked in the target, every other row stays, and the source is shown exactly while it has some |
| MatterRepository.Repository.NewGeneration | backend/app/db/ai_inbox.py:92-213 | the loop over protected matters copies exactly the locked membership |
| MatterRepository.Repository.ChangeProfile | backend/app/db/ai_inbox.py:216-325 | the profile is enabled exactly with consent, wish and deployment, a generation is built exactly on the first enabling or a wanted change of style, an active one stays, and nothing changes while a shadow awaits promotion |
| MatterRepository.Repository.NewShadow | backend/app/db/ai_inbox.py:440-521 | exactly one generation is a shadow, the profile changes only in style and mode, and without consent nothing changes |
| MatterRepository.Repository.PromoteGeneration | backend/app/db/ai_inbox.py:328-408 | a building or shadow generation becomes the only active one, which the profile names, and no generation, matter or member is lost |
| JobQueue.ReachableQueues | backend/app/db/jobs.py:305-341 | in every reachable queue a lease exists exactly while a job runs, at most one job is active per account, kind and key, and attempts exceed the limit only by leases that ran out since the job last left the queue |
| JobQueue.OnlyLatestClaimerActs | backend/app/db/jobs.py:389-487 | complete, fail and cancel act on a job exactly when it runs and the worker's claim was the latest |
| JobQueue.FinishedJobsStayFinished | backend/app/db/jobs.py:389-487 | a finished job never changes until it is deleted, and its id never comes back |
| JobQueue.EnqueueAnswers | backend/app/db/jobs.py:90-185 | enqueue answers with an active job of the same account, kind and key; an empty key that is taken changes nothing |
| JobQueue.RetryWaits | backend/app/db/jobs.py:410-464 | a retried job is not claimed before it is due unless a duplicate request wakes it |
| JobQueue.RetriesBackOff | backend/app/db/jobs.py:705-710 | a failure that is not final waits at least its backoff, which grows with the attempts, and the worker's own delay |
| JobQueue.DrainingTakesAll | backend/app/db/jobs.py:305-341 | claims at one moment take every due or lapsed job exactly once, none before one that is ahead of it |
| JobQueue.SettledAreDone | backend/app/db/jobs.py:490-502 | settling ends exactly the named jobs that are active |
| JobQueue.CleanupKeepsRecent | backend/app/db/jobs.py:565-640 | cleanup deletes exactly the jobs that finished longer ago than their retention |
| JobQueue.StaleSnapshotEscapesLimit | backend/app/db/jobs.py:410-421 | a failure by a remembered attempt count requeues a job beyond its limit exactly when the count is stale |
| JobQueue.StaleSnapshotExample | backend/app/db/jobs.py:410-464 | a sequence of calls by which a job with limit two is claimed a third time without a lapse |
| JobQueue.JobTable.EnqueueJob | backend/app/db/jobs.py:58-185 | without a rival a job with the requested values is queued; a queued rival takes the higher priority and, when woken, the earlier time, a running one stays, and nothing else changes; a taken empty key is refused |
| JobQueue.JobTable.ClaimJob | backend/app/db/jobs.py:305-341 | the claimed job is due or lapsed, none due is ahead of it in priority, time and age, it runs under the new lease with one attempt more, and none is claimed only if none is due |
| JobQueue.JobTable.RenewLease | backend/app/db/jobs.py:374-386 | a renewed job runs until the new end of its lease and cannot be claimed before, ownership of every job stays, and others renew nothing |
| JobQueue.JobTable.CompleteJob | backend/app/db/jobs.py:389-407 | only the owner of a running job completes it; it then has no owner and can never be claimed |
| JobQueue.JobTable.FailJob | backend/app/db/jobs.py:410-464 | only the owner of a running job fails it; attempts stay, an exhausted job is over, and any other waits exactly the longer of the backoff and the delay the worker asks for |
| JobQueue.JobTable.CancelClaimedJob | backend/app/db/jobs.py:467-487 | only the owner of a running job cancels it; it then has no owner and can never be claimed |
| RateLimiter.StateRepresents | backend/app/core/rate_limit.py:108-128 | over every history with a rising clock and one window the deques decide exactly as fewer than the maximum in (now - window, now] |
| RateLimiter.ApiRulesDecideByCount | backend/app/core/rate_limit.py:143-176 | the table of API rules shares one window, so the limiter decides every history by the count |
| RateLimiter.CommonWindowNeeded | backend/app/core/rate_limit.py:125-128 | the deques decide every history by the count if and only if all rules share one window |
| RateLimiter.RetryAfterSuffices | backend/app/core/rate_limit.py:108-123 | retry-after lies in 1..window+1, and a denied caller who waits it out with nothing admitted in between is admitted |
| RateLimiter.RetryAfterIsTight | backend/app/core/rate_limit.py:108-123 | a caller who is more than a second early is denied again |
| RateLimiter.Buckets.Admit | backend/app/core/rate_limit.py:108-123 | the popping loop, the append and the sweep leave the declared deques and decision |
| RateLimiter.Buckets.Cleanup | backend/app/core/rate_limit.py:125-128 | exactly the stale deques are removed |
| AuthCache.RememberIsSound | web/lib/api-auth.ts:66-83 | the cache holds at most 512 answers, one per key |
| AuthCache.AnswersSurvive | web/lib/api-auth.ts:66-83 | a remembered answer is given until it expires unless 512 other keys are remembered first |
| AuthCache.CacheNeverLies | web/lib/api-auth.ts:19-51 | in every run at most one backend call per key is open, and a cached answer was given by a call for that key that ended within the last five seconds |
| AuthCache.BeginningShares | web/lib/api-auth.ts:27-46 | a request with an unexpired answer asks nobody, any other waits for an open call for its key and starts one only when there is none |
| AuthCache.ResumingRemembers | web/lib/api-auth.ts:43-51 | the answer of a call is given for five seconds from the start of the request that remembers it, a failed call leaves the cache |
| AuthCache.AnswersExpire | web/lib/api-auth.ts:31-34 | no answer is given after five seconds without a request |
| AuthCache.States.RememberState | web/lib/api-auth.ts:66-83 | deleting, purging and evicting in place leave the youngest unexpired answers and the new one |
| AuthCache.States.Purge | web/lib/api-auth.ts:66-74 | exactly the key and the expired answers go, the order stays |
| LockText.SplitJoin | scripts/verify-reproducibility.py:314-314 | joined words split into the same words |
| LockText.SplitPinText | scripts/refresh-python-lock-hashes.py:25-26 | a printed name and version split at the first equals signs |
| LockText.SplitPinIsExact | scripts/verify-reproducibility.py:64-66 | a pin is split exactly from the text that prints it |
| LockText.VersionPatterns | scripts/verify-reproducibility.py:64-66 | versions that both patterns accept, that only the refresh script accepts, and that neither accepts |
| LockText.HashDigestIsExact | scripts/verify-reproducibility.py:67-67 | a hash option is read exactly from 64 lower-case hexadecimal digits |
| LockText.CutIsFirst | scripts/refresh-python-lock-hashes.py:45-45 | a requirement ends at the first hash option on its line, or is all of it |
| LockText.NormalIsNormal | scripts/verify-reproducibility.py:332-332 | a normalised name of PEP 503 is its own normal form |
| LockText.NormalKeepsText | scripts/verify-reproducibility.py:332-332 | normalising keeps the lower-case text between the separators |
| LockText.NormalForm | scripts/verify-reproducibility.py:332-332 | a normalised name has single hyphens as its only separators and nothing in upper case |
| LockFile.ReadersAgree | scripts/postgres-backup-crypto.py:35-72 | the backup script accepts a non-empty set of pins exactly when the verifier accepts the same and no line is a bare continuation mark |
| LockFile.LoosePinIsExact | scripts/refresh-python-lock-hashes.py:25-25 | the refresh script reads a pin exactly from its text, alone or with white space and a continuation mark behind it |
| LockFile.HashTokensAreHashes | scripts/verify-reproducibility.py:317-331 | the tokens behind a pin are accepted exactly when they are the options of one or more distinct well-formed hashes |
| LockFile.CommentsAreSkipped | scripts/verify-reproducibility.py:299-302 | comment lines between requirements tell no reader anything, and inside a requirement both readers refuse them |
| LockFile.HashLinesAreSkipped | scripts/refresh-python-lock-hashes.py:43-44 | lines that begin with a hash option tell the refresh script nothing |
| LockFile.VerifierReadsPrinted | scripts/verify-reproducibility.py:294-336 | the verifier reads a printed file back to the same versions by normalised name if and only if all versions are strict and no names normalise alike |
| LockFile.VersionsKept | scripts/verify-reproducibility.py:332-334 | when names normalise to different ones every pin keeps its version under its normalised name |
| LockFile.BackupReadsPrinted | scripts/postgres-backup-crypto.py:35-72 | the backup script reads a printed file exactly as the verifier does |
| LockFile.RefreshReadsPrinted | scripts/refresh-python-lock-hashes.py:33-53 | the refresh script reads its own output back to the same pins |
| LockFile.RefreshTwice | scripts/refresh-python-lock-hashes.py:89-101 | refreshing twice with the same hashes changes nothing the second time |
| LockScripts.ReadPinLines | scripts/refresh-python-lock-hashes.py:33-53 | the loop returns header and pins, or refuses |
| LockScripts.PrintPins | scripts/refresh-python-lock-hashes.py:89-101 | the nested loops print header, pins and hash lines |
| LockScripts.PrintHashes | scripts/refresh-python-lock-hashes.py:97-99 | the hash lines of one pin, every one but the last continued |
| LockScripts.ReadVerifierPins | scripts/verify-reproducibility.py:294-336 | the continuation loop and the pin loop return the verifier's pins or refuse |
| LockScripts.ReadBackupPins | scripts/postgres-backup-crypto.py:35-72 | the continuation loop and the pin loop return the backup script's pins or refuse |
| LockScripts.CollectPins | scripts/verify-reproducibility.py:312-336 | one pin per requirement with distinct normalised names |
| LockScripts.CheckHashes | scripts/verify-reproducibility.py:317-331 | the hash loop accepts exactly one or more distinct well-formed hashes |
| BackupCodec.CryptJoins | scripts/postgres-backup-crypto.py:162-163 | chunk by chunk is the same as at once |
| BackupCodec.OpensExactlyEncryptions | scripts/postgres-backup-crypto.py:184-221 | an archive opens to a plaintext if and only if it is the encryption of that plaintext under some nonce |
| BackupCodec.EncryptStream | scripts/postgres-backup-crypto.py:151-169 | for every pattern of short reads the archive of the whole input is written |
| BackupCodec.EncryptedLayout | scripts/postgres-backup-crypto.py:184-197 | the layout of a file, or a refusal |
| BackupCodec.DecryptPass | scripts/postgres-backup-crypto.py:200-221 | for every pattern of short reads the tag is checked over the whole ciphertext and the written plaintext is its decryption |
| BackupCodec.Decrypt | scripts/postgres-backup-crypto.py:224-244 | an output file exists exactly for an authentic archive and holds its plaintext |
| BackupCodec.DecryptStdout | scripts/postgres-backup-crypto.py:247-282 | nothing is written unless the expected digest matches and the whole archive is authentic, and then exactly the plaintext |
| BackupCodec.RoundTrip | scripts/postgres-backup-crypto.py:151-282 | what one run encrypts another decrypts, however the reads are cut up |

## Left out

- SQL, SQLAlchemy, connection pools and READ COMMITTED interleavings: every repository function of the mail store, the matters and the job queue is one atomic step; the lock system and the split page read are the places with interleaving.
- Gmail, OpenAI and PyPI calls: their answers are parameters of the steps that use them.
- Hashes: SHA-256 of subgoal goals, of the thread token's text and of cookies are taken as the hashed text itself; the 24-character truncation of the token and JSON encoding are not modelled.
- The base64 and JSON form of mailbox cursors, and pages in date order: a request that does not read Gmail's order ends in `ByDate` with no rows.
- Gmail's label JSON: which threads a mailbox shows is an arbitrary set at each request.
- `body_fetched_at`, error texts, embeddings, titles, summaries, confidence states and usage records: columns no modelled branch depends on.
- Mail group membership removed by `delete_gmail_messages`, and user-visible groups: not part of this model.
- Guarded writes have no body: a guarded write nested in another one, on a second transaction connection, is not part of the lock system.
- `delete_ai_data`, which removes every generation, matter and decision of a user at once, is not a step of the matters.
- `expected_revision` and the idempotency key of `apply_user_decision`: a decision is modelled after these checks let it through.
- `activate_existing_gmail_progressive_sync`, `mark_import_completed` and `update_gmail_message_ai_titles` are steps of the store without a method in `Repository`; `cancel_user_jobs`, token revocation and `cleanup_old_jobs` are steps of the queue without a method in `JobTable`.
- The job cancellations inside `promote_generation` and `start_shadow_generation` are `Settle` steps of the queue model.
- Matters and messages that vanish between the choice of a target and the assignment: the target is a matter of the generation at the time of the step.
- The persistent rate-limit buckets in the database and the request identity: not part of this model.
- Requests without a cookie, which the web server answers without cache or backend.
- Start and update times of jobs, trace ids and job events: columns no modelled branch depends on.
- The order of Node's microtasks: a request waiting for a shared backend call may resume at any time after the call ends.
- `str.splitlines` and file encoding: a lock file is the list of its lines; wheel policy checks and atomic replacement are not modelled.
- File permissions, `fsync`, and links in the backup script; headers and tags are read whole, as a buffered file reads them, while the chunk loops accept every short read.
- AES-GCM itself: the key stream and the tag are arbitrary functions of their arguments.
