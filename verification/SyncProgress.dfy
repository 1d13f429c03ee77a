/** Progress published to the client during a progressive sync: what its counters and phase
    may claim in every reachable state, whatever the order of the repository functions. */
module SyncProgress {
  import opened Basics
  import opened Messages
  import opened MailStore

  predicate DistinctPositions(w: Window) {
    forall t, u :: t in w && u in w && t != u ==> w[t].position != w[u].position
  }

  /** The claims of an active generation. */
  predicate Honest(s: Store) {
    var w := ActiveWindow(s);
    && s.sync.metadata <= s.sync.target == |w|
    && s.sync.bodyReady <= s.sync.bodyTarget == Min(25, s.sync.target)
    && s.sync.historyBody <= s.sync.historyMetadata
    && (s.sync.bodyComplete ==> s.sync.metadataComplete && AllTerminal(s.messages))
    && (s.sync.phase == Some(Complete) ==> s.sync.bodyComplete)
  }

  predicate Inv(s: Store) {
    && (s.sync.generation.None? ==> s.windows == map[])
    && (s.sync.generation.Some? ==> s.windows.Keys <= {s.sync.generation.value} && Honest(s))
    && DistinctPositions(ActiveWindow(s))
  }

  /** Within one generation no counter falls, and complete metadata stays complete. */
  predicate Advances(s: Store, t: Store) {
    s.sync.generation.Some? && s.sync.generation == t.sync.generation ==>
      && s.sync.target <= t.sync.target
      && s.sync.metadata <= t.sync.metadata
      && s.sync.bodyTarget <= t.sync.bodyTarget
      && s.sync.bodyReady <= t.sync.bodyReady
      && s.sync.historyMetadata <= t.sync.historyMetadata
      && s.sync.historyBody <= t.sync.historyBody
      && s.sync.estimated <= t.sync.estimated
      && (s.sync.metadataComplete ==> t.sync.metadataComplete)
  }

  // ---------------------------------------------------------------------------------
  // Counting

  /** Entries at distinct positions from `low` and below `n` are at most `n - low`. */
  lemma {:induction false} Pigeonhole(w: Window, a: set<string>, low: nat, n: nat)
    requires DistinctPositions(w) && low <= n && (forall t :: t in a ==> t in w && low <= w[t].position < n)
    ensures |a| <= n - low
    decreases n
  {
    if low < n {
      if t :| t in a && w[t].position == n - 1 {
        assert forall u :: u in a - {t} ==> u in w && w[u].position != n - 1;
        Pigeonhole(w, a - {t}, low, n - 1);
      } else {
        Pigeonhole(w, a, low, n - 1);
      }
    } else {
      assert a == {};
    }
  }

  lemma WindowCounts(w: Window, n: nat)
    requires DistinctPositions(w)
    ensures |MetadataReady(w)| <= |w| && |BodiesReady(w, n)| <= Min(n, |w|)
  {
    SubsetCount(MetadataReady(w), w.Keys);
    SubsetCount(BodiesReady(w, n), w.Keys);
    Pigeonhole(w, BodiesReady(w, n), 0, n);
  }

  lemma ReadyCount(m: map<string, Row>)
    ensures |ReadyThreads(m)| <= |Threads(m)|
  {
    SubsetCount(ReadyThreads(m), Threads(m));
  }

  /** Same threads at the same positions. */
  predicate SamePlaces(w: Window, v: Window) {
    w.Keys == v.Keys && forall t :: t in w ==> w[t].position == v[t].position
  }

  lemma SamePlacesCount(w: Window, v: Window)
    requires SamePlaces(w, v)
    ensures |w| == |v| && (DistinctPositions(w) ==> DistinctPositions(v))
  {
    assert |w.Keys| == |w| && |v.Keys| == |v|;
  }

  // ---------------------------------------------------------------------------------
  // Message writers

  /** A write that keeps terminal bodies terminal and adds no open one. */
  predicate KeepsTerminal(m: map<string, Row>, n: map<string, Row>) {
    forall id :: id in n ==> id in m && (Terminal(m[id].status) ==> Terminal(n[id].status))
  }

  lemma KeepsTerminalAll(m: map<string, Row>, n: map<string, Row>)
    requires KeepsTerminal(m, n) && AllTerminal(m)
    ensures AllTerminal(n)
  {
  }

  lemma MessagesOnly(s: Store, n: map<string, Row>)
    requires Inv(s) && KeepsTerminal(s.messages, n)
    ensures Inv(s.(messages := n)) && Advances(s, s.(messages := n))
  {
    if AllTerminal(s.messages) {
      KeepsTerminalAll(s.messages, n);
    }
  }

  lemma UpsertOnKeeps(s: Store, rows: seq<(string, Row)>)
    requires Inv(s)
    ensures Inv(UpsertOn(s, rows)) && Advances(s, UpsertOn(s, rows))
    ensures UpsertOn(s, rows).windows == s.windows && UpsertOn(s, rows).sync.generation == s.sync.generation
  {
  }

  lemma BodyProgressKeeps(s: Store)
    requires Inv(s)
    ensures Inv(BodyProgress(s)) && Advances(s, BodyProgress(s))
  {
    if s.sync.generation.Some? {
      WindowCounts(ActiveWindow(s), s.sync.bodyTarget);
      assert ActiveWindow(BodyProgress(s)) == ActiveWindow(s);
    }
  }

  /** Replacing the active window by one with the same places keeps the invariant. */
  lemma PlacesKeep(s: Store, v: Window)
    requires Inv(s) && s.sync.generation.Some? && SamePlaces(ActiveWindow(s), v)
    ensures var t := WithWindow(s, s.sync.generation.value, v); Inv(t) && Advances(s, t) && ActiveWindow(t) == v
  {
    SamePlacesCount(ActiveWindow(s), v);
  }

  lemma SettleKeeps(s: Store, threads: set<string>)
    requires Inv(s)
    ensures Inv(SettleBodies(s, threads)) && Advances(s, SettleBodies(s, threads))
    ensures SettleBodies(s, threads).sync == s.sync
  {
    if s.sync.generation.Some? {
      var w := ActiveWindow(s);
      PlacesKeep(s, map t | t in w ::
        if t in threads && ThreadReady(s.messages, t) then w[t].(bodyReady := true) else w[t]);
    }
  }

  lemma AdvancesTransitive(s: Store, t: Store, u: Store)
    requires Advances(s, t) && Advances(t, u) && s.sync.generation == t.sync.generation
    ensures Advances(s, u)
  {
  }

  lemma {:induction false} BodyRowsTerminal(m: map<string, Row>, rows: seq<(string, Row)>)
    ensures KeepsTerminal(m, BodyRows(m, rows))
    decreases |rows|
  {
    if rows != [] {
      BodyRowsTerminal(m, rows[..|rows| - 1]);
    }
  }

  lemma UpdateBodiesKeeps(s: Store, rows: seq<(string, Row)>)
    requires Inv(s)
    ensures Inv(UpdateBodies(s, rows)) && Advances(s, UpdateBodies(s, rows))
  {
    if rows != [] && AllFetched(rows) {
      var t := s.(messages := BodyRows(s.messages, rows));
      BodyRowsTerminal(s.messages, rows);
      MessagesOnly(s, t.messages);
      var u := if RecordThreads(rows) == {} then t else SettleBodies(t, RecordThreads(rows));
      SettleKeeps(t, RecordThreads(rows));
      BodyProgressKeeps(u);
      AdvancesTransitive(s, u, BodyProgress(u));
    }
  }

  lemma MarkBodiesKeeps(s: Store, ids: set<string>, status: BodyStatus)
    requires Inv(s)
    ensures Inv(MarkBodies(s, ids, status)) && Advances(s, MarkBodies(s, ids, status))
  {
    var named := ids - {""};
    if named != {} {
      var t := s.(messages := MarkedRows(s.messages, named, status));
      MessagesOnly(s, t.messages);
      var threads := set id | id in t.messages && id in named :: Key(id, t.messages[id]);
      var u := SettleBodies(t, threads);
      SettleKeeps(t, threads);
      BodyProgressKeeps(u);
      AdvancesTransitive(s, u, BodyProgress(u));
    }
  }

  lemma CountedKeeps(s: Store)
    requires Inv(s) && s.sync.generation.Some?
    ensures Inv(Counted(s)) && Advances(s, Counted(s))
  {
    WindowCounts(ActiveWindow(s), 25);
    assert ActiveWindow(Counted(s)) == ActiveWindow(s);
  }

  /** Settling entries, recounting and refreshing body progress keep the invariant. */
  lemma SettledKeeps(s: Store, t: Store, v: Window)
    requires Inv(t) && Advances(s, t) && t.sync.generation == s.sync.generation && t.sync.generation.Some?
    requires SamePlaces(ActiveWindow(t), v)
    ensures var u := BodyProgress(Counted(WithWindow(t, t.sync.generation.value, v))); Inv(u) && Advances(s, u)
  {
    var u := WithWindow(t, t.sync.generation.value, v);
    PlacesKeep(t, v);
    CountedKeeps(u);
    BodyProgressKeeps(Counted(u));
    AdvancesTransitive(s, t, u);
    AdvancesTransitive(s, u, Counted(u));
    AdvancesTransitive(s, Counted(u), BodyProgress(Counted(u)));
  }

  lemma DeleteKeeps(s: Store, ids: set<string>)
    requires Inv(s)
    ensures Inv(Delete(s, ids)) && Advances(s, Delete(s, ids))
  {
    var named := ids - {""};
    var gone := set id | id in s.messages && id in named :: Key(id, s.messages[id]);
    var t := s.(messages := map id | id in s.messages && id !in named :: s.messages[id]);
    MessagesOnly(s, t.messages);
    if s.sync.generation.Some? {
      SettledKeeps(s, t, Vacated(t.messages, ActiveWindow(t), gone));
    }
  }

  // ---------------------------------------------------------------------------------
  // Lifecycle and reconciliation

  lemma {:induction false} RankedPlaces(m: map<string, Row>, ranked: seq<string>)
    ensures var w := Ranked(m, map[], ranked);
      DistinctPositions(w) && forall t :: t in w ==> w[t].position < |ranked| && w[t].metadataReady
    decreases |ranked|
  {
    if ranked != [] {
      RankedPlaces(m, ranked[..|ranked| - 1]);
    }
  }

  lemma ActivateKeeps(s: Store, g: string, complete: bool, ranked: seq<string>)
    requires Inv(s)
    ensures Inv(Activate(s, g, complete, ranked)) && Advances(s, Activate(s, g, complete, ranked))
  {
    if g != "" && s.sync.generation.None? && s.marks.firstBatch {
      var top := ranked[..Min(100, |ranked|)];
      var w := Ranked(s.messages, map[], top);
      RankedPlaces(s.messages, top);
      assert ActiveWindow(Activate(s, g, complete, ranked)) == w;
    }
  }

  lemma StartSyncKeeps(s: Store, g: string)
    requires Inv(s)
    ensures Inv(StartSync(s, g)) && Advances(s, StartSync(s, g))
  {
    if g != "" && s.recon.generation == Some(g) {
      var t := StartSync(s, g);
      if s.sync.generation == Some(g) {
        assert t.windows == s.windows;
      } else {
        assert t.windows == map[];
      }
    }
  }

  lemma {:induction false} EnumeratedPlaces(threads: seq<string>)
    requires Distinct(threads)
    ensures var w := Enumerated(threads); DistinctPositions(w) && |w| == |threads| && forall t :: t in w ==> w[t].position < |threads|
    decreases |threads|
  {
    if threads != [] {
      var n := |threads| - 1;
      EnumeratedPlaces(threads[..n]);
      assert threads[n] !in threads[..n];
    }
  }

  lemma InitWindowKeeps(s: Store, g: string, threads: seq<string>, estimate: int)
    requires Inv(s)
    ensures Inv(InitWindow(s, g, threads, estimate)) && Advances(s, InitWindow(s, g, threads, estimate))
  {
    if s.sync.generation == Some(g) && !AlreadyDiscovered(s, g) {
      var u := FirstHundred(threads);
      FirstHundredDistinct(threads);
      EnumeratedPlaces(u);
      assert ActiveWindow(InitWindow(s, g, threads, estimate)) == Enumerated(u);
      assert |ActiveWindow(s)| == 0;
    }
  }

  lemma FirstHundredDistinct(threads: seq<string>)
    ensures Distinct(FirstHundred(threads)) && |FirstHundred(threads)| <= 100
  {
    var all := Unique(Named(threads));
    var u := all[..Min(100, |all|)];
    assert forall i, j :: 0 <= i < j < |u| ==> u[i] == all[i] && u[j] == all[j];
  }

  lemma CommitWindowKeeps(s: Store, g: string, threads: seq<string>, rows: seq<(string, Row)>, missing: seq<string>)
    requires Inv(s)
    ensures Inv(CommitWindow(s, g, threads, rows, missing)) && Advances(s, CommitWindow(s, g, threads, rows, missing))
  {
    if s.sync.generation == Some(g) && !BatchRejected(threads, missing) {
      var s1 := WithWindow(s, g, TerminallyMissing(WindowOf(s, g), missing));
      PlacesKeep(s, TerminallyMissing(WindowOf(s, g), missing));
      var s2 := UpsertOn(s1, rows);
      UpsertOnKeeps(s1, rows);
      var w := Hydrated(s2.messages, WindowOf(s2, g), threads);
      var s3 := WithWindow(s2, g, w);
      PlacesKeep(s2, w);
      CountedKeeps(s3);
      AdvancesTransitive(s, s1, s2);
      AdvancesTransitive(s, s2, s3);
      AdvancesTransitive(s, s3, Counted(s3));
      PhaseOnly(Counted(s3), CommitWindow(s, g, threads, rows, missing));
    }
  }

  /** A new phase other than completion changes nothing the invariant speaks of. */
  lemma PhaseOnly(s: Store, t: Store)
    requires Inv(s) && t.sync == s.sync.(phase := t.sync.phase) && t.messages == s.messages && t.windows == s.windows
    requires t.sync.phase == Some(Complete) ==> s.sync.phase == Some(Complete) || s.sync.bodyComplete
    ensures Inv(t) && Advances(s, t)
  {
    assert ActiveWindow(t) == ActiveWindow(s);
  }

  lemma HistoryMetadataOnly(s: Store, t: Store)
    requires Inv(s) && t == s.(seen := t.seen, sync := s.sync.(historyMetadata := t.sync.historyMetadata))
    requires s.sync.historyMetadata <= t.sync.historyMetadata
    ensures Inv(t) && Advances(s, t)
  {
    assert ActiveWindow(t) == ActiveWindow(s);
  }

  lemma CommitPageKeeps(s: Store, g: string, expected: string, next: Option<string>, rows: seq<(string, Row)>, count: int, estimate: int)
    requires Inv(s)
    ensures var t := CommitPage(s, g, expected, next, rows, count, estimate); Inv(t) && Advances(s, t)
  {
    if !(count > 100 || !NextPage(s, g, expected) || s.sync.generation != Some(g)) {
      var s1 := s.(
        recon := s.recon.(cursor := next),
        sync := s.sync.(
          phase :=
            if s.sync.phase in {Some(Complete), Some(FailedPhase)} then s.sync.phase
            else if s.sync.windowComplete && s.sync.bodyReady >= Min(25, s.sync.bodyTarget) then Some(SyncingHistory)
            else s.sync.phase,
          estimated := Max(s.sync.estimated, Max(0, estimate))));
      assert ActiveWindow(s1) == ActiveWindow(s);
      assert Inv(s1) && Advances(s, s1);
      UpsertOnKeeps(s1, rows);
      var s2 := UpsertOn(s1, rows);
      AdvancesTransitive(s, s1, s2);
      var t := CommitPage(s, g, expected, next, rows, count, estimate);
      HistoryMetadataOnly(s2, t);
      AdvancesTransitive(s, s2, t);
    }
  }

  lemma FinalizeKeeps(s: Store, g: string, final: string)
    requires Inv(s)
    ensures Inv(Finalize(s, g, final)) && Advances(s, Finalize(s, g, final))
  {
    if MayFinalize(s, g, final) {
      var t := Finalize(s, g, final);
      ReadyCount(t.messages);
      assert ActiveWindow(t) == ActiveWindow(s);
      if s.sync.generation.Some? && s.sync.phase == Some(Complete) {
        KeepsTerminalAll(s.messages, t.messages);
      }
    }
  }

  lemma DescribePageKeeps(s: Store, after: Option<string>, page: seq<string>, descriptors: map<string, string>)
    requires Inv(s)
    ensures var t := DescribePage(s, after, page, descriptors); Inv(t) && Advances(s, t)
  {
    var t := DescribePage(s, after, page, descriptors);
    MessagesOnly(s, t.messages);
    PhaseOnly(s.(messages := t.messages), t);
  }

  lemma MailOpKeeps(s: Store, op: MailOp)
    requires Inv(s)
    ensures Inv(PerformMail(s, op)) && Advances(s, PerformMail(s, op))
  {
    match op
    case DoUpsert(rows) => UpsertOnKeeps(s, rows);
    case DoForceLabels(labels) => MessagesOnly(s, ForceLabels(s, labels).messages);
    case DoAiTitles(titles) => MessagesOnly(s, AiTitles(s, titles).messages);
    case DoUpdateBodies(rows) => UpdateBodiesKeeps(s, rows);
    case DoMarkBodies(ids, status) => MarkBodiesKeeps(s, ids, status);
    case DoDelete(ids) => DeleteKeeps(s, ids);
    case DoDescribePage(after, page, descriptors) => DescribePageKeeps(s, after, page, descriptors);
  }

  lemma LifeOpKeeps(s: Store, op: LifeOp)
    requires Inv(s)
    ensures Inv(PerformLife(s, op)) && Advances(s, PerformLife(s, op))
  {
    match op
    case DoRecheckBodies => BodyProgressKeeps(s);
    case DoImportStarted => PhaseOnly(s, ImportStarted(s));
    case DoImportFailed => PhaseOnly(s, ImportFailed(s));
    case DoImportCompleted(first, cursor, finished) => PhaseOnly(s, ImportCompleted(s, first, cursor, finished));
    case DoHistoryDelta(h) => PhaseOnly(s, HistoryDelta(s, h));
    case DoActivate(g, complete, ranked) => ActivateKeeps(s, g, complete, ranked);
    case DoStartSync(g) => StartSyncKeeps(s, g);
    case DoInitWindow(g, threads, estimate) => InitWindowKeeps(s, g, threads, estimate);
    case DoCommitWindow(g, threads, rows, missing) => CommitWindowKeeps(s, g, threads, rows, missing);
  }

  lemma ScanOpKeeps(s: Store, op: ScanOp)
    requires Inv(s)
    ensures Inv(PerformScan(s, op)) && Advances(s, PerformScan(s, op))
  {
    match op
    case DoStartRecon(g, baseline, cursor) => PhaseOnly(s, StartRecon(s, g, baseline, cursor));
    case DoRecordPage(g, expected, next, ids) => PhaseOnly(s, RecordPage(s, g, expected, next, ids));
    case DoCommitPage(g, expected, next, rows, count, estimate) => CommitPageKeeps(s, g, expected, next, rows, count, estimate);
    case DoRecordSeen(g, ids) => PhaseOnly(s, RecordSeen(s, g, ids));
    case DoFinalize(g, h) => FinalizeKeeps(s, g, h);
    case DoReset(g) => PhaseOnly(s, Reset(s, g));
  }

  lemma LaterKeeps(s: Store, elapsed: nat)
    requires Inv(s)
    ensures Inv(Later(s, elapsed))
  {
    assert ActiveWindow(Later(s, elapsed)) == ActiveWindow(s);
  }

  /** Every repository function keeps the published progress honest and monotone. */
  lemma StepKeeps(s: Store, e: Event)
    requires Inv(s)
    ensures Inv(Step(s, e)) && Advances(Later(s, e.elapsed), Step(s, e))
  {
    LaterKeeps(s, e.elapsed);
    match e.op
    case Mail(o) => MailOpKeeps(Later(s, e.elapsed), o);
    case Life(o) => LifeOpKeeps(Later(s, e.elapsed), o);
    case Scan(o) => ScanOpKeeps(Later(s, e.elapsed), o);
  }

  /** In every reachable state the published progress is honest. */
  lemma {:induction false} ProgressIsHonest(s: Store, run: seq<Event>)
    requires Inv(s)
    ensures Inv(Exec(s, run))
    decreases |run|
  {
    if run != [] {
      StepKeeps(s, run[0]);
      ProgressIsHonest(Step(s, run[0]), run[1..]);
    }
  }

  /** The active generation is `g` at every point of the run. */
  predicate Throughout(s: Store, run: seq<Event>, g: string)
    decreases |run|
  {
    s.sync.generation == Some(g) && (run != [] ==> Throughout(Step(s, run[0]), run[1..], g))
  }

  /** Over any run that stays in one generation, no counter falls. */
  lemma {:induction false} CountersRise(s: Store, run: seq<Event>, g: string)
    requires Inv(s) && Throughout(s, run, g)
    ensures Advances(s, Exec(s, run)) && Exec(s, run).sync.generation == Some(g)
    decreases |run|
  {
    if run != [] {
      StepKeeps(s, run[0]);
      CountersRise(Step(s, run[0]), run[1..], g);
      FromLater(s, run[0].elapsed, Step(s, run[0]));
      AdvancesTransitive(s, Step(s, run[0]), Exec(s, run));
    }
  }

  lemma FromLater(s: Store, elapsed: nat, t: Store)
    requires Advances(Later(s, elapsed), t)
    ensures Advances(s, t)
  {
  }

  // ---------------------------------------------------------------------------------
  // The counters of the initial window are exact

  /** How many entries of the window have their metadata. */
  function MetadataCount(w: Window): nat {
    |set t | t in w && w[t].metadataReady|
  }

  /** How many of the first 25 entries have their bodies. */
  function BodyCount(w: Window): nat {
    |set t | t in w && w[t].bodyReady && w[t].position < 25|
  }

  predicate AllDescribed(w: Window) {
    forall t :: t in w ==> w[t].metadataReady
  }

  /** Positions run below the size of the window, and the window counts as complete exactly when
      all its entries have their metadata, once it has any. */
  predicate Placed(s: Store) {
    var w := ActiveWindow(s);
    && (forall t :: t in w ==> w[t].position < |w|)
    && (s.sync.windowComplete ==> AllDescribed(w)) && (w != map[] && AllDescribed(w) ==> s.sync.windowComplete)
  }

  predicate Exact(s: Store) {
    s.sync.generation.Some? ==>
      Placed(s) && s.sync.metadata == MetadataCount(ActiveWindow(s)) && s.sync.bodyReady == BodyCount(ActiveWindow(s))
  }

  lemma CountsOfSets(w: Window)
    ensures MetadataCount(w) == |MetadataReady(w)| && BodyCount(w) == |BodiesReady(w, 25)|
  {
    assert MetadataReady(w) == set t | t in w && w[t].metadataReady;
    assert BodiesReady(w, 25) == set t | t in w && w[t].bodyReady && w[t].position < 25;
  }

  lemma SameCounters(s: Store, t: Store)
    requires Exact(s) && t.windows == s.windows && t.sync.generation == s.sync.generation
    requires t.sync.metadata == s.sync.metadata && t.sync.bodyReady == s.sync.bodyReady && t.sync.windowComplete == s.sync.windowComplete
    ensures Exact(t)
  {
    assert ActiveWindow(t) == ActiveWindow(s);
  }

  /** A window with the same places where no entry lost anything. */
  predicate Grows(w: Window, v: Window) {
    SamePlaces(w, v) && forall t :: t in w ==> (w[t].metadataReady ==> v[t].metadataReady) && (w[t].bodyReady ==> v[t].bodyReady)
  }

  lemma GrowsCounts(w: Window, v: Window)
    requires Grows(w, v)
    ensures |v| == |w| && MetadataCount(w) <= MetadataCount(v) && BodyCount(w) <= BodyCount(v)
  {
    SamePlacesCount(w, v);
    SubsetCount((set t | t in w && w[t].metadataReady), (set t | t in v && v[t].metadataReady));
    SubsetCount((set t | t in w && w[t].bodyReady && w[t].position < 25), (set t | t in v && v[t].bodyReady && v[t].position < 25));
  }

  /** Counters that were exact before the window grew. */
  predicate Behind(s: Store) {
    && s.sync.generation.Some?
    && (forall t :: t in ActiveWindow(s) ==> ActiveWindow(s)[t].position < |ActiveWindow(s)|)
    && s.sync.metadata <= MetadataCount(ActiveWindow(s)) && s.sync.bodyReady <= BodyCount(ActiveWindow(s))
    && s.sync.bodyTarget == Min(25, |ActiveWindow(s)|)
  }

  /** Refreshing body progress makes the body counter exact again. */
  lemma RefreshIsExact(s: Store)
    requires Behind(s) && Placed(s) && s.sync.metadata == MetadataCount(ActiveWindow(s))
    ensures Exact(BodyProgress(s))
  {
    var w := ActiveWindow(s);
    assert ActiveWindow(BodyProgress(s)) == w;
    assert BodiesReady(w, s.sync.bodyTarget) == set t | t in w && w[t].bodyReady && w[t].position < 25;
  }

  lemma AllDescribedCount(w: Window)
    ensures |MetadataReady(w)| >= |w| <==> AllDescribed(w)
  {
    SubsetCount(MetadataReady(w), w.Keys);
    assert |w.Keys| == |w|;
    assert AllDescribed(w) <==> MetadataReady(w) == w.Keys;
  }

  /** Counting makes both counters exact, and the window complete when it is. */
  lemma CountingIsExact(s: Store)
    requires Behind(s) && (s.sync.windowComplete ==> AllDescribed(ActiveWindow(s)))
    ensures Exact(Counted(s)) && Behind(Counted(s))
  {
    var w := ActiveWindow(s);
    assert ActiveWindow(Counted(s)) == w;
    AllDescribedCount(w);
    CountsOfSets(w);
  }

  /** A grown window leaves exact counters behind. */
  lemma GrownIsBehind(s: Store, v: Window)
    requires Inv(s) && Exact(s) && s.sync.generation.Some? && Grows(ActiveWindow(s), v)
    ensures var t := WithWindow(s, s.sync.generation.value, v);
      Behind(t) && ActiveWindow(t) == v && (t.sync.windowComplete ==> AllDescribed(v))
  {
    GrowsCounts(ActiveWindow(s), v);
  }

  lemma SettledGrows(w: Window, v: Window)
    requires SamePlaces(w, v) && forall t :: t in w ==> v[t] == w[t].(bodyReady := v[t].bodyReady) && (w[t].bodyReady ==> v[t].bodyReady)
    ensures Grows(w, v) && MetadataCount(v) == MetadataCount(w) && (AllDescribed(w) <==> AllDescribed(v)) && (w == map[] <==> v == map[])
  {
    assert (set k | k in v && v[k].metadataReady) == (set k | k in w && w[k].metadataReady);
  }

  lemma SettledIsExact(s: Store, threads: set<string>)
    requires Inv(s) && Exact(s)
    ensures Exact(BodyProgress(SettleBodies(s, threads)))
  {
    if s.sync.generation.Some? {
      var v := ActiveWindow(SettleBodies(s, threads));
      SettledGrows(ActiveWindow(s), v);
      GrownIsBehind(s, v);
      RefreshIsExact(WithWindow(s, s.sync.generation.value, v));
    }
  }

  lemma RefreshKeepsExact(s: Store)
    requires Inv(s) && Exact(s)
    ensures Exact(BodyProgress(s))
  {
    if s.sync.generation.Some? {
      RefreshIsExact(s);
    }
  }

  lemma RecountedIsExact(s: Store, v: Window)
    requires Inv(s) && Exact(s) && s.sync.generation.Some? && Grows(ActiveWindow(s), v)
    ensures Exact(BodyProgress(Counted(WithWindow(s, s.sync.generation.value, v))))
  {
    var u := WithWindow(s, s.sync.generation.value, v);
    GrownIsBehind(s, v);
    CountingIsExact(u);
    RefreshIsExact(Counted(u));
  }

  lemma DeleteIsExact(s: Store, ids: set<string>)
    requires Inv(s) && Exact(s)
    ensures Exact(Delete(s, ids))
  {
    var named := ids - {""};
    var gone := set id | id in s.messages && id in named :: Key(id, s.messages[id]);
    var t := s.(messages := map id | id in s.messages && id !in named :: s.messages[id]);
    MessagesOnly(s, t.messages);
    SameCounters(s, t);
    if s.sync.generation.Some? {
      RecountedIsExact(t, Vacated(t.messages, ActiveWindow(t), gone));
    }
  }

  lemma BatchGrows(w: Window, m: map<string, Row>, threads: seq<string>, missing: seq<string>)
    ensures Grows(w, Hydrated(m, TerminallyMissing(w, missing), threads))
  {
  }

  lemma SettledBatchIsExact(s: Store, g: string, threads: seq<string>)
    requires s.sync.generation == Some(g)
    requires var t := WithWindow(s, g, Hydrated(s.messages, WindowOf(s, g), threads));
      Behind(t) && (t.sync.windowComplete ==> AllDescribed(ActiveWindow(t)))
    ensures Exact(SettleBatch(s, g, threads))
  {
    var t := WithWindow(s, g, Hydrated(s.messages, WindowOf(s, g), threads));
    CountingIsExact(t);
    SameCounters(Counted(t), SettleBatch(s, g, threads));
  }

  lemma CommitIsExact(s: Store, g: string, threads: seq<string>, rows: seq<(string, Row)>, missing: seq<string>)
    requires Inv(s) && Exact(s)
    ensures Exact(CommitWindow(s, g, threads, rows, missing))
  {
    if s.sync.generation == Some(g) && !BatchRejected(threads, missing) {
      var s1 := WithWindow(s, g, TerminallyMissing(WindowOf(s, g), missing));
      var s2 := UpsertOn(s1, rows);
      assert s2.windows == s1.windows && s2.sync == s.sync.(bodyComplete := s2.sync.bodyComplete, phase := s2.sync.phase);
      var v := Hydrated(s2.messages, WindowOf(s2, g), threads);
      BatchGrows(WindowOf(s, g), s2.messages, threads, missing);
      GrownIsBehind(s, v);
      assert ActiveWindow(WithWindow(s2, g, v)) == v;
      SettledBatchIsExact(s2, g, threads);
    }
  }

  lemma DiscoveryIsExact(s: Store, g: string, threads: seq<string>, estimate: int)
    requires Inv(s) && Exact(s)
    ensures Exact(InitWindow(s, g, threads, estimate))
  {
    if s.sync.generation == Some(g) && !AlreadyDiscovered(s, g) {
      var u := FirstHundred(threads);
      var t := InitWindow(s, g, threads, estimate);
      FirstHundredDistinct(threads);
      EnumeratedPlaces(u);
      EnumeratedIsUnready(u);
      assert ActiveWindow(t) == Enumerated(u);
      CountsOfSets(Enumerated(u));
      assert MetadataReady(Enumerated(u)) == {} && BodiesReady(Enumerated(u), 25) == {};
      if u != [] {
        assert u[0] in Enumerated(u);
      } else {
        assert Enumerated(u) == map[];
      }
    }
  }

  lemma {:induction false} EnumeratedIsUnready(u: seq<string>)
    ensures forall t :: t in Enumerated(u) ==> !Enumerated(u)[t].metadataReady && !Enumerated(u)[t].bodyReady
    decreases |u|
  {
    if u != [] {
      EnumeratedIsUnready(u[..|u| - 1]);
    }
  }

  lemma {:induction false} RankedSize(m: map<string, Row>, ranked: seq<string>)
    requires Distinct(ranked)
    ensures var w := Ranked(m, map[], ranked); |w| == |ranked| && forall t :: t in w <==> t in ranked
    decreases |ranked|
  {
    if ranked != [] {
      var n := |ranked| - 1;
      RankedSize(m, ranked[..n]);
      assert ranked == ranked[..n] + [ranked[n]];
      assert ranked[n] !in ranked[..n];
    }
  }

  lemma ActivationIsExact(s: Store, g: string, complete: bool, ranked: seq<string>)
    requires Inv(s) && Exact(s) && Distinct(ranked)
    ensures Exact(Activate(s, g, complete, ranked))
  {
    if g != "" && s.sync.generation.None? && s.marks.firstBatch {
      var top := ranked[..Min(100, |ranked|)];
      var w, t := Ranked(s.messages, map[], top), Activate(s, g, complete, ranked);
      RankedPlaces(s.messages, top);
      RankedSize(s.messages, top);
      assert ActiveWindow(t) == w;
      assert (set k | k in w && w[k].metadataReady) == w.Keys && |w.Keys| == |w|;
      assert BodiesReady(w, 25) == set k | k in w && w[k].bodyReady && w[k].position < 25;
      WindowCounts(w, 25);
    }
  }

  lemma StartIsExact(s: Store, g: string)
    requires Inv(s) && Exact(s)
    ensures Exact(StartSync(s, g))
  {
    if g != "" && s.recon.generation == Some(g) {
      var t := StartSync(s, g);
      if s.sync.generation == Some(g) {
        assert t.windows == s.windows;
        SameCounters(s, t);
      } else {
        assert t.windows == map[];
      }
    }
  }

  /** New bodies or body states, then the entries they settle. */
  lemma BodyWriteIsExact(s: Store, n: map<string, Row>, threads: set<string>)
    requires Inv(s) && Exact(s) && KeepsTerminal(s.messages, n)
    ensures var t := s.(messages := n); Exact(t) && Exact(BodyProgress(t)) && Exact(BodyProgress(SettleBodies(t, threads)))
  {
    var t := s.(messages := n);
    MessagesOnly(s, n);
    SameCounters(s, t);
    RefreshKeepsExact(t);
    SettledIsExact(t, threads);
  }

  lemma UpdateIsExact(s: Store, rows: seq<(string, Row)>)
    requires Inv(s) && Exact(s)
    ensures Exact(UpdateBodies(s, rows))
  {
    BodyRowsTerminal(s.messages, rows);
    BodyWriteIsExact(s, BodyRows(s.messages, rows), RecordThreads(rows));
  }

  lemma MarkIsExact(s: Store, ids: set<string>, status: BodyStatus)
    requires Inv(s) && Exact(s)
    ensures Exact(MarkBodies(s, ids, status))
  {
    var n := MarkedRows(s.messages, ids - {""}, status);
    BodyWriteIsExact(s, n, set id | id in n && id in ids - {""} :: Key(id, n[id]));
  }

  lemma MailOpIsExact(s: Store, op: MailOp)
    requires Inv(s) && Exact(s)
    ensures Exact(PerformMail(s, op))
  {
    match op
    case DoUpdateBodies(rows) => UpdateIsExact(s, rows);
    case DoMarkBodies(ids, status) => MarkIsExact(s, ids, status);
    case DoDelete(ids) => DeleteIsExact(s, ids);
    case _ => SameCounters(s, PerformMail(s, op));
  }

  lemma LifeOpIsExact(s: Store, op: LifeOp)
    requires Inv(s) && Exact(s) && Legal(s, Life(op))
    ensures Exact(PerformLife(s, op))
  {
    match op
    case DoRecheckBodies => RefreshKeepsExact(s);
    case DoActivate(g, complete, ranked) => ActivationIsExact(s, g, complete, ranked);
    case DoStartSync(g) => StartIsExact(s, g);
    case DoInitWindow(g, threads, estimate) => DiscoveryIsExact(s, g, threads, estimate);
    case DoCommitWindow(g, threads, rows, missing) => CommitIsExact(s, g, threads, rows, missing);
    case _ => SameCounters(s, PerformLife(s, op));
  }

  lemma ScanOpIsExact(s: Store, op: ScanOp)
    requires Exact(s)
    ensures Exact(PerformScan(s, op))
  {
    SameCounters(s, PerformScan(s, op));
  }

  /** In every reachable state the published counters of the initial window are not only bounded
      but exact: as many entries have metadata, and as many of the first 25 have bodies, as they
      say, and the window is complete exactly when all of its entries have metadata. */
  lemma {:induction false} ProgressIsExact(s: Store, run: seq<Event>)
    requires Inv(s) && Exact(s) && LegalRun(s, run)
    ensures Inv(Exec(s, run)) && Exact(Exec(s, run))
    decreases |run|
  {
    if run != [] {
      var l := Later(s, run[0].elapsed);
      LaterKeeps(s, run[0].elapsed);
      SameCounters(s, l);
      match run[0].op {
        case Mail(o) => MailOpIsExact(l, o);
        case Life(o) => LifeOpIsExact(l, o);
        case Scan(o) => ScanOpIsExact(l, o);
      }
      StepKeeps(s, run[0]);
      ProgressIsExact(Step(s, run[0]), run[1..]);
    }
  }

  /** The first 25 entries all have their bodies. */
  predicate FirstBodies(w: Window) {
    forall t :: t in w && w[t].position < 25 ==> w[t].bodyReady
  }

  function Front(w: Window): set<string> {
    set t | t in w && w[t].position < 25
  }

  /** The positions of a window run from zero without a gap. */
  lemma FrontCount(w: Window)
    requires DistinctPositions(w) && forall t :: t in w ==> w[t].position < |w|
    ensures |Front(w)| == Min(25, |w|)
  {
    var back := w.Keys - Front(w);
    assert |w.Keys| == |w| && Front(w) <= w.Keys;
    Pigeonhole(w, Front(w), 0, Min(25, |w|));
    Pigeonhole(w, back, Min(25, |w|), |w|);
  }

  /** So counting the first 25 bodies tells whether they are all there. */
  lemma FirstBodiesCount(w: Window)
    requires DistinctPositions(w) && forall t :: t in w ==> w[t].position < |w|
    ensures |BodiesReady(w, 25)| >= Min(25, |w|) <==> FirstBodies(w)
  {
    FrontCount(w);
    SubsetCount(BodiesReady(w, 25), Front(w));
    if BodiesReady(w, 25) == Front(w) {
      forall t | t in w && w[t].position < 25 ensures w[t].bodyReady {
        assert t in Front(w) && t in BodiesReady(w, 25);
      }
    }
  }

  /** A committed batch publishes `Usable` exactly when all entries have their metadata and the
      first 25 their bodies, and until then says which of the two is missing. */
  lemma CommittedPhase(s: Store, g: string, threads: seq<string>, rows: seq<(string, Row)>, missing: seq<string>)
    requires Inv(s) && Exact(s) && s.sync.generation == Some(g) && !BatchRejected(threads, missing)
    ensures var t := CommitWindow(s, g, threads, rows, missing);
      t.sync.phase == Some(
        if !AllDescribed(ActiveWindow(t)) then ImportingMetadata
        else if FirstBodies(ActiveWindow(t)) then Usable
        else HydratingPriorityContent)
  {
    var s2 := UpsertOn(WithWindow(s, g, TerminallyMissing(WindowOf(s, g), missing)), rows);
    var w, t := Hydrated(s2.messages, WindowOf(s2, g), threads), CommitWindow(s, g, threads, rows, missing);
    CommitIsExact(s, g, threads, rows, missing);
    CommitWindowKeeps(s, g, threads, rows, missing);
    assert t == SettleBatch(s2, g, threads) && t.sync.generation == Some(g) && ActiveWindow(t) == w;
    AllDescribedCount(w);
    FirstBodiesCount(w);
  }

  /** A refresh of body progress publishes `Usable` exactly when the window is complete and the
      first 25 entries have their bodies, unless the whole history is complete or the phase has
      moved past the initial window. */
  lemma RefreshedPhase(s: Store)
    requires Inv(s) && Exact(s) && s.sync.generation.Some? && !(s.sync.metadataComplete && AllTerminal(s.messages))
    requires s.sync.phase in {Some(DiscoveringRecent), Some(ImportingMetadata), Some(HydratingPriorityContent)}
    ensures BodyProgress(s).sync.phase == if s.sync.windowComplete && FirstBodies(ActiveWindow(s)) then Some(Usable) else s.sync.phase
  {
    var w := ActiveWindow(s);
    assert BodiesReady(w, s.sync.bodyTarget) == BodiesReady(w, 25);
    FirstBodiesCount(w);
  }

  // ---------------------------------------------------------------------------------
  // Where the published flags are weaker than they look

  /** The window-complete flag falls within a generation exactly when a discovery that finds a
      thread is accepted while it is set: the window is empty, and the phase is none, discovering
      or failed. */
  lemma WindowCompletionFalls(s: Store, op: Op)
    requires Inv(s) && s.sync.generation.Some? && s.sync.windowComplete
    requires Perform(s, op).sync.generation == s.sync.generation
    ensures !Perform(s, op).sync.windowComplete <==>
      && op.Life? && op.life.DoInitWindow? && Some(op.life.generation) == s.sync.generation
      && !AlreadyDiscovered(s, op.life.generation) && FirstHundred(op.life.threads) != []
  {
    match op
    case Mail(o) => MailKeepsWindowComplete(s, o);
    case Life(o) => LifeKeepsWindowComplete(s, o);
    case Scan(o) => ScanKeepsWindowComplete(s, o);
  }

  lemma MailKeepsWindowComplete(s: Store, op: MailOp)
    requires s.sync.windowComplete
    ensures PerformMail(s, op).sync.windowComplete
  {
  }

  lemma ScanKeepsWindowComplete(s: Store, op: ScanOp)
    requires s.sync.windowComplete && PerformScan(s, op).sync.generation == s.sync.generation
    ensures PerformScan(s, op).sync.windowComplete
  {
  }

  lemma LifeKeepsWindowComplete(s: Store, op: LifeOp)
    requires s.sync.windowComplete && s.sync.generation.Some? && PerformLife(s, op).sync.generation == s.sync.generation
    ensures !PerformLife(s, op).sync.windowComplete <==>
      && op.DoInitWindow? && Some(op.generation) == s.sync.generation
      && !AlreadyDiscovered(s, op.generation) && FirstHundred(op.threads) != []
  {
  }

  /** A reachable fall: an empty discovery, a failure, then a discovery that finds a thread. */
  lemma EmptyDiscoveryIsUndone(g: string, t: string)
    requires g != "" && t != ""
    ensures var s2 := StartSync(StartRecon(FRESH, g, "1", "c"), g);
      var s3 := InitWindow(s2, g, [], 0);
      var s5 := InitWindow(ImportFailed(s3), g, [t], 0);
      s3.sync.windowComplete && s5.sync.generation == s3.sync.generation == Some(g) && !s5.sync.windowComplete
  {
    assert Named([t]) == [t] by {
      assert [t][..0] == [];
    }
    assert t in Unique([t]);
    var s3 := InitWindow(StartSync(StartRecon(FRESH, g, "1", "c"), g), g, [], 0);
    assert Enumerated([]) == map[];
    assert WindowOf(ImportFailed(s3), g) == map[];
  }

  /** Without a progressive generation, a finalized scan claims completion, and unfinished
      mail that arrives later does not take the claim back. */
  lemma CompletionWithoutGeneration(g: string, id: string, r: Row)
    requires g != "" && !Terminal(r.status)
    ensures var done := Finalize(RecordPage(StartRecon(FRESH, g, "1", "c"), g, "c", None, []), g, "1");
      var late := Upsert(done, [(id, r)]);
      late.sync.phase == Some(Complete) && late.sync.bodyComplete && !AllTerminal(late.messages)
  {
    var done := Finalize(RecordPage(StartRecon(FRESH, g, "1", "c"), g, "c", None, []), g, "1");
    assert done.messages == map[];
    assert [(id, r)][..0] == [];
    assert UpsertRows(done.messages, [(id, r)], done.clock) == UpsertRow(done.messages, id, r, done.clock);
    var late := Upsert(done, [(id, r)]);
    assert late.messages[id].status == r.status;
  }
}
