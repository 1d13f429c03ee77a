/** What the repository functions mean to their callers, said about the states before and after
    and without the statements in between. */
module MailEffects {
  import opened Basics
  import opened Messages
  import opened MailStore
  import SyncProgress

  /** Progress is still honest, and no counter of the generation fell. */
  predicate ProgressKept(s: Store, t: Store) {
    SyncProgress.Inv(s) ==> SyncProgress.Inv(t) && SyncProgress.Advances(s, t)
  }

  lemma KeepsProgress(s: Store, op: Op)
    ensures ProgressKept(s, Perform(s, op))
  {
    if SyncProgress.Inv(s) {
      match op
      case Mail(o) => SyncProgress.MailOpKeeps(s, o);
      case Life(o) => SyncProgress.LifeOpKeeps(s, o);
      case Scan(o) => SyncProgress.ScanOpKeeps(s, o);
    }
  }

  /** A row after any number of upserts: no revision falls and no terminal body opens again. */
  predicate Succeeds(was: Row, now: Row) {
    && now.revision >= was.revision
    && (Terminal(was.status) ==> Terminal(now.status)) && (was.status.Fetched? ==> now.status.Fetched?)
  }

  function Listed(rows: seq<(string, Row)>): set<string> {
    set i | 0 <= i < |rows| :: rows[i].0
  }

  lemma {:induction false} UpsertedRows(m: map<string, Row>, rows: seq<(string, Row)>, now: nat)
    ensures var n := UpsertRows(m, rows, now);
      && n.Keys == m.Keys + Listed(rows)
      && forall id :: id in m ==> Succeeds(m[id], n[id]) && (id !in Listed(rows) ==> n[id] == m[id])
    decreases |rows|
  {
    if rows != [] {
      var prior := rows[..|rows| - 1];
      UpsertedRows(m, prior, now);
      assert Listed(rows) == Listed(prior) + {rows[|rows| - 1].0} by {
        assert forall i :: 0 <= i < |prior| ==> rows[i] == prior[i];
      }
    }
  }

  /** The stored row took the body of the record and nothing else of it. */
  predicate TookBody(was: Row, now: Row, ex: Row) {
    && now.status.Fetched? && now.descriptorsReady
    && now.payload == ex.payload && now.html == ex.html && now.render == ex.render && now.text == ex.text
    && now.descriptors == ex.descriptors && now.signals == ex.signals && now.bodyHash == ex.bodyHash
    && now.thread == was.thread && now.history == was.history && now.labels == was.labels && now.date == was.date
    && now.subject == was.subject && now.sender == was.sender && now.recipients == was.recipients
    && now.headers == was.headers && now.snippet == was.snippet && now.aiTitle == was.aiTitle
    && now.revision == was.revision + 1 && now.renderBytes == Max(was.renderBytes, ex.renderBytes)
  }

  /** The first record of a message. */
  predicate FirstOfMessage(rows: seq<(string, Row)>, i: nat) {
    i < |rows| && forall j :: 0 <= j < i ==> rows[j].0 != rows[i].0
  }

  /** Downloaded bodies are stored once: every listed row that was not fetched took the body of
      its first record, and every other row is as it was. */
  ghost predicate BodiesTaken(m: map<string, Row>, n: map<string, Row>, rows: seq<(string, Row)>) {
    && n.Keys == m.Keys
    && (forall i: nat :: FirstOfMessage(rows, i) && rows[i].0 in m && !m[rows[i].0].status.Fetched? ==> TookBody(m[rows[i].0], n[rows[i].0], rows[i].1))
    && (forall id :: id in m && (m[id].status.Fetched? || id !in Listed(rows)) ==> n[id] == m[id])
  }

  lemma FirstStays(rows: seq<(string, Row)>, i: nat)
    requires FirstOfMessage(rows, i)
    ensures i + 1 < |rows| ==> FirstOfMessage(rows[..|rows| - 1], i)
    ensures i + 1 == |rows| ==> rows[i].0 !in Listed(rows[..i])
  {
  }

  lemma BodyTaken(was: Row, ex: Row)
    requires !was.status.Fetched?
    ensures TookBody(was, WithBody(was, Params(ex)), ex)
  {
  }

  lemma {:induction false} OtherBodiesStay(m: map<string, Row>, rows: seq<(string, Row)>, id: string)
    requires id in m && (m[id].status.Fetched? || id !in Listed(rows))
    ensures id in BodyRows(m, rows) && BodyRows(m, rows)[id] == m[id]
    decreases |rows|
  {
    if rows != [] {
      var prior := rows[..|rows| - 1];
      if id !in Listed(rows) {
        assert rows[|rows| - 1].0 in Listed(rows);
        assert forall k :: 0 <= k < |prior| ==> prior[k] == rows[k];
      }
      OtherBodiesStay(m, prior, id);
    }
  }

  lemma {:induction false} FirstBodyTaken(m: map<string, Row>, rows: seq<(string, Row)>, i: nat)
    requires FirstOfMessage(rows, i) && rows[i].0 in m && !m[rows[i].0].status.Fetched?
    ensures rows[i].0 in BodyRows(m, rows) && TookBody(m[rows[i].0], BodyRows(m, rows)[rows[i].0], rows[i].1)
    decreases |rows|
  {
    var id, prior := rows[i].0, rows[..|rows| - 1];
    FirstStays(rows, i);
    if i < |prior| {
      assert prior[i] == rows[i];
      FirstBodyTaken(m, prior, i);
    } else {
      OtherBodiesStay(m, prior, id);
      BodyTaken(m[id], rows[i].1);
    }
  }

  lemma BodyRowsTaken(m: map<string, Row>, rows: seq<(string, Row)>)
    ensures BodiesTaken(m, BodyRows(m, rows), rows)
  {
    BodyRowsKeys(m, rows);
    forall i: nat | FirstOfMessage(rows, i) && rows[i].0 in m && !m[rows[i].0].status.Fetched?
      ensures TookBody(m[rows[i].0], BodyRows(m, rows)[rows[i].0], rows[i].1)
    {
      FirstBodyTaken(m, rows, i);
    }
    forall id | id in m && (m[id].status.Fetched? || id !in Listed(rows)) ensures BodyRows(m, rows)[id] == m[id] {
      OtherBodiesStay(m, rows, id);
    }
  }

  /** A scan that ends now does not delete these rows. */
  ghost predicate Spared(s: Store, g: string, ids: set<string>) {
    forall final :: forall id :: id in ids && id in s.messages ==> id in Finalize(s, g, final).messages
  }

  lemma RecordedAreSpared(s: Store, g: string, ids: set<string>)
    requires forall id :: id in ids ==> (g, id) in s.seen
    ensures Spared(s, g, ids)
  {
  }

  lemma ListedIds(rows: seq<(string, Row)>)
    ensures forall id :: id in Ids(rows) <==> id in Listed(rows)
  {
    forall id | id in Listed(rows) ensures id in Ids(rows) {
      var i :| 0 <= i < |rows| && rows[i].0 == id;
      assert Ids(rows)[i] == id;
    }
  }

  /** A page is next exactly when it is the one this cursor names. */
  ghost predicate Expects(s: Store, g: string, next: Option<string>) {
    forall e :: NextPage(s, g, e) <==> next == Some(e)
  }

  lemma StartsOnce(s: Store, g: string)
    ensures StartSync(StartSync(s, g), g) == StartSync(s, g)
  {
  }

  lemma RefreshSettles(s: Store)
    ensures BodyProgress(BodyProgress(s)) == BodyProgress(s)
  {
  }

  /** A batch of the initial window: the named entries are ready, the others stay. */
  predicate Readied(w: Window, v: Window, threads: seq<string>, missing: seq<string>) {
    && v.Keys == w.Keys
    && forall k :: k in v ==> if k != "" && (k in threads || k in missing) then v[k].metadataReady else v[k] == w[k]
  }

  /** The window lists the first hundred different threads, each at the position its first
      occurrence gives it, with nothing ready yet. */
  ghost predicate ListsFirst(w: Window, threads: seq<string>) {
    var named := set t | t in threads && t != "";
    && (forall t :: t in w <==> t in named && RankIn(threads, named, t) < 100)
    && (forall t :: t in w ==> w[t] == Entry(RankIn(threads, named, t), false, false, 0))
  }

  /** What an accepted discovery publishes. */
  ghost predicate Discovered(s: Store, t: Store, g: string, threads: seq<string>, estimate: int) {
    var none := WindowOf(t, g) == map[];
    && ListsFirst(WindowOf(t, g), threads)
    && (t.sync.windowComplete <==> none) && (t.marks.firstBatch <==> s.marks.firstBatch || none)
    && t.sync.phase == (if none then Some(SyncingHistory) else Some(ImportingMetadata))
    && t.sync.estimated == Max(s.sync.estimated, Max(0, estimate))
  }

  lemma DiscoveryPublishes(s: Store, g: string, threads: seq<string>, estimate: int)
    requires s.sync.generation == Some(g) && !AlreadyDiscovered(s, g)
    ensures Discovered(s, InitWindow(s, g, threads, estimate), g, threads, estimate)
  {
    var u, t := FirstHundred(threads), InitWindow(s, g, threads, estimate);
    DiscoveryListsFirst(threads);
    assert WindowOf(t, g) == Enumerated(u);
    if u != [] {
      assert u[0] in Enumerated(u);
    }
  }

  lemma {:induction false} EnumeratedAt(u: seq<string>, i: nat)
    requires Distinct(u) && i < |u|
    ensures u[i] in Enumerated(u) && Enumerated(u)[u[i]] == Entry(i, false, false, 0)
    decreases |u|
  {
    var n := |u| - 1;
    if i < n {
      EnumeratedAt(u[..n], i);
    }
    assert u[n] !in u[..n];
  }

  lemma ListedFirst(threads: seq<string>, t: string)
    ensures var named := set x | x in threads && x != "";
      t in FirstHundred(threads) <==> t in named && RankIn(threads, named, t) < 100
  {
    var named, all, u := (set x | x in threads && x != ""), Unique(Named(threads)), FirstHundred(threads);
    NamedInOrder(threads);
    assert named == set x | x in all;
    if t in named {
      var i :| 0 <= i < |all| && all[i] == t;
      RankIsPlace(all, threads, i);
      if i < |u| {
        assert u[i] == t;
      }
    }
  }

  lemma PlacedFirst(threads: seq<string>, i: nat)
    requires i < |FirstHundred(threads)|
    ensures var named, t := (set x | x in threads && x != ""), FirstHundred(threads)[i];
      t in threads && RankIn(threads, named, t) == i && t in Enumerated(FirstHundred(threads))
      && Enumerated(FirstHundred(threads))[t] == Entry(i, false, false, 0)
  {
    var named, all, u := (set x | x in threads && x != ""), Unique(Named(threads)), FirstHundred(threads);
    NamedInOrder(threads);
    assert named == set x | x in all;
    assert all[i] == u[i];
    RankIsPlace(all, threads, i);
    SyncProgress.FirstHundredDistinct(threads);
    EnumeratedAt(u, i);
  }

  lemma DiscoveryListsFirst(threads: seq<string>)
    ensures ListsFirst(Enumerated(FirstHundred(threads)), threads)
  {
    var named, u := (set t | t in threads && t != ""), FirstHundred(threads);
    var w := Enumerated(u);
    forall t ensures t in w <==> t in named && RankIn(threads, named, t) < 100 {
      ListedFirst(threads, t);
    }
    forall t | t in w ensures w[t] == Entry(RankIn(threads, named, t), false, false, 0) {
      var i :| 0 <= i < |u| && u[i] == t;
      PlacedFirst(threads, i);
    }
  }

  /** What the batch says about the bodies and sizes of its entries. */
  predicate Measured(w: Window, v: Window, m: map<string, Row>, threads: seq<string>, missing: seq<string>) {
    forall k :: k in v && k in w && k != "" ==>
      && (k in missing ==> v[k].bodyReady && v[k].messages == 0)
      && (k in threads ==>
            && v[k].messages == |MessagesOf(m, k)|
            && (v[k].bodyReady <==> w[k].bodyReady || (MessagesOf(m, k) != {} && ThreadReady(m, k))))
  }

  /** A batch names at most 25 different threads, none of them both found and missing. */
  predicate FitsBatch(threads: seq<string>, missing: seq<string>) {
    && (forall t :: t in threads && t in missing ==> t == "")
    && |set t | t in threads + missing && t != ""| <= 25
  }

  lemma FitsUnlessRejected(threads: seq<string>, missing: seq<string>)
    ensures BatchRejected(threads, missing) <==> !FitsBatch(threads, missing)
  {
    assert (set t | t in threads + missing && t != "") == (set t | t in threads && t != "") + (set t | t in missing && t != "");
  }

  predicate AllReady(w: Window) {
    forall k :: k in w ==> w[k].metadataReady
  }

  /** The first batch is imported once something is ready, or nothing has to be. */
  predicate Imports(s: Store, t: Store) {
    t.marks.firstBatch <==>
      s.marks.firstBatch || ActiveWindow(t) == map[] || exists k :: k in ActiveWindow(t) && ActiveWindow(t)[k].metadataReady
  }

  lemma BatchImports(s: Store, g: string, threads: seq<string>, rows: seq<(string, Row)>, missing: seq<string>)
    requires s.sync.generation == Some(g) && !BatchRejected(threads, missing)
    ensures var t := CommitWindow(s, g, threads, rows, missing);
      && t.messages == UpsertRows(s.messages, rows, s.clock) && ActiveWindow(t) == WindowOf(t, g) && Imports(s, t)
  {
    var s2 := UpsertOn(WithWindow(s, g, TerminallyMissing(WindowOf(s, g), missing)), rows);
    assert s2.messages == UpsertRows(s.messages, rows, s.clock) && s2.marks == s.marks && s2.sync.generation == Some(g);
    SettledImports(s2, g, threads);
  }

  lemma SettledImports(s: Store, g: string, threads: seq<string>)
    requires s.sync.generation == Some(g)
    ensures var t := MailStore.SettleBatch(s, g, threads);
      t.messages == s.messages && ActiveWindow(t) == WindowOf(t, g) && Imports(s, t)
  {
    var w, t := Hydrated(s.messages, WindowOf(s, g), threads), MailStore.SettleBatch(s, g, threads);
    assert ActiveWindow(t) == w;
    assert forall k :: k in MetadataReady(w) <==> k in w && w[k].metadataReady;
  }

  lemma BatchReadies(s: Store, g: string, threads: seq<string>, rows: seq<(string, Row)>, missing: seq<string>)
    requires s.sync.generation == Some(g) && !BatchRejected(threads, missing)
    ensures var t := CommitWindow(s, g, threads, rows, missing);
      && Readied(WindowOf(s, g), WindowOf(t, g), threads, missing)
      && Measured(WindowOf(s, g), WindowOf(t, g), t.messages, threads, missing)
  {
    var s1 := WithWindow(s, g, TerminallyMissing(WindowOf(s, g), missing));
    var s2 := UpsertOn(s1, rows);
    var w := Hydrated(s2.messages, WindowOf(s2, g), threads);
    assert s2.windows == s1.windows;
    assert WindowOf(CommitWindow(s, g, threads, rows, missing), g) == w;
  }

  lemma ReadyPhase(s: Store, g: string, threads: seq<string>)
    requires s.sync.generation == Some(g)
    ensures var t := MailStore.SettleBatch(s, g, threads);
      t.sync.phase in {Some(Usable), Some(HydratingPriorityContent)} <==> AllReady(WindowOf(t, g))
  {
    var w := Hydrated(s.messages, WindowOf(s, g), threads);
    SubsetCount(MetadataReady(w), w.Keys);
    assert |w.Keys| == |w|;
    assert AllReady(w) <==> MetadataReady(w) == w.Keys;
    assert WindowOf(MailStore.SettleBatch(s, g, threads), g) == w;
  }

  /** The cursor is trusted now: a trusted one moved to the later of the two, any other was
      replaced. */
  predicate MovedTo(was: Marks, now: Marks, h: string) {
    && IsDigits(h) && now.authoritative && Numeric(now.lastHistory)
    && Value(now.lastHistory.value) ==
         (if was.authoritative && Numeric(was.lastHistory) then Max(Value(was.lastHistory.value), Value(h)) else Value(h))
    && (now.lastHistory != Some(h) ==> now.lastHistory == was.lastHistory && Value(was.lastHistory.value) > Value(h))
  }

  lemma HistoryMoves(s: Store, h: string)
    ensures IsDigits(h) ==> MovedTo(s.marks, HistoryDelta(s, h).marks, h)
  {
  }

  lemma FinalizeMoves(s: Store, g: string, final: string)
    ensures MayFinalize(s, g, final) ==> MovedTo(s.marks, Finalize(s, g, final).marks, final) && Finalize(s, g, final).marks.backfilled
  {
  }

  /** What marking leaves of each row: the status, unless the body was already terminal. */
  predicate MarkedOnly(m: map<string, Row>, n: map<string, Row>, ids: set<string>, status: BodyStatus) {
    && n.Keys == m.Keys
    && forall id :: id in n ==>
         && Succeeds(m[id], n[id])
         && (id !in ids || id == "" ==> n[id] == m[id])
         && (id in ids && id != "" ==> n[id].status == status || (Terminal(n[id].status) && n[id] == m[id]))
  }

  lemma MarksOnly(m: map<string, Row>, ids: set<string>, status: BodyStatus)
    ensures MarkedOnly(m, MarkedRows(m, ids - {""}, status), ids, status)
  {
  }

  // ---------------------------------------------------------------------------------
  // Upserts

  /** The records of one message, in order. */
  function RecordsOf(rows: seq<(string, Row)>, id: string): seq<Row> {
    if rows == [] then []
    else
      var last := rows[|rows| - 1];
      RecordsOf(rows[..|rows| - 1], id) + if last.0 == id then [last.1] else []
  }

  /** A new row is its record, with a revision of at least one. */
  predicate Inserted(ex: Row, now: Row, time: nat) {
    && now == ex.(revision := now.revision, descriptorsReady := now.descriptorsReady, updatedAt := time)
    && now.revision >= 1 && now.revision in {1, ex.revision} && (now.descriptorsReady <==> ex.descriptorsReady || ex.status.Fetched?)
  }

  lemma UpsertsGrow(exs: seq<Row>, ex: Row)
    ensures Upserts(exs + [ex]) == Upserts(exs) + [Merging(ex)] && Upserts(exs + [ex])[..|exs|] == Upserts(exs)
  {
  }

  /** A batch acts on every message as the sequence of its own records: the first one inserts it
      unless it is stored, the others are merged into it. */
  lemma {:induction false} EachMessageAlone(m: map<string, Row>, rows: seq<(string, Row)>, now: nat, id: string)
    ensures var n, own := UpsertRows(m, rows, now), RecordsOf(rows, id);
      && (id in n <==> id in m || own != [])
      && (id in m ==> n[id] == Replay(m[id], Upserts(own), now))
      && (id !in m && own != [] ==>
            Inserted(own[0], Params(own[0]).(updatedAt := now), now) && n[id] == Replay(Params(own[0]).(updatedAt := now), Upserts(own[1..]), now))
    decreases |rows|
  {
    if rows != [] {
      var prior, last := rows[..|rows| - 1], rows[|rows| - 1];
      var own := RecordsOf(prior, id);
      EachMessageAlone(m, prior, now, id);
      if last.0 == id {
        UpsertsGrow(own, last.1);
        if own != [] {
          assert (own + [last.1])[1..] == own[1..] + [last.1];
          UpsertsGrow(own[1..], last.1);
        } else {
          assert (own + [last.1])[1..] == [];
        }
      } else {
        assert own + [] == own;
      }
    }
  }

  /** Open bodies withdraw a claim of completion; nothing else about the progress changes. */
  predicate Reopened(was: Sync, now: Sync, m: map<string, Row>) {
    if was.generation.Some? && was.metadataComplete && exists id :: id in m && !Terminal(m[id].status) then
      now == was.(bodyComplete := false, phase := if was.phase == Some(Complete) then Some(SyncingRecent) else was.phase)
    else now == was
  }

  // ---------------------------------------------------------------------------------
  // Window entries

  /** Entries of these threads have their bodies once every message of the thread does. */
  predicate SettledBy(w: Window, v: Window, m: map<string, Row>, threads: set<string>) {
    && v.Keys == w.Keys
    && forall k :: k in v ==>
         && v[k] == w[k].(bodyReady := v[k].bodyReady)
         && (v[k].bodyReady <==> w[k].bodyReady || (k in threads && forall id :: id in m && Key(id, m[id]) == k ==> Terminal(m[id].status)))
  }

  /** Entries of threads that lost messages: an emptied one is ready without any, another has its
      bodies once every message left does. */
  predicate VacatedBy(w: Window, v: Window, m: map<string, Row>, gone: set<string>) {
    && v.Keys == w.Keys
    && forall k :: k in v ==>
         if k !in gone then v[k] == w[k]
         else if forall id :: id in m ==> Key(id, m[id]) != k then v[k] == Entry(w[k].position, true, true, 0)
         else
           && v[k] == w[k].(bodyReady := v[k].bodyReady)
           && (v[k].bodyReady <==> w[k].bodyReady || forall id :: id in m && Key(id, m[id]) == k ==> Terminal(m[id].status))
  }

  lemma SettlingSettles(s: Store, threads: set<string>)
    ensures SettledBy(ActiveWindow(s), ActiveWindow(BodyProgress(SettleBodies(s, threads))), s.messages, threads)
  {
    var t := SettleBodies(s, threads);
    assert ActiveWindow(BodyProgress(t)) == ActiveWindow(t);
  }

  function ThreadsOf(rows: seq<(string, Row)>): set<string> {
    set i | 0 <= i < |rows| && Key(rows[i].0, rows[i].1) != "" :: Key(rows[i].0, rows[i].1)
  }

  lemma UpdateSettles(s: Store, rows: seq<(string, Row)>)
    requires AllFetched(rows)
    ensures SettledBy(ActiveWindow(s), ActiveWindow(UpdateBodies(s, rows)), UpdateBodies(s, rows).messages, ThreadsOf(rows))
  {
    if rows != [] {
      var t := s.(messages := BodyRows(s.messages, rows));
      assert ActiveWindow(t) == ActiveWindow(s) && ActiveWindow(BodyProgress(t)) == ActiveWindow(t);
      SettlingSettles(t, ThreadsOf(rows));
    }
  }

  /** Threads of the named messages. */
  function ThreadsNamed(m: map<string, Row>, ids: set<string>): set<string> {
    set id | id in m && id in ids && id != "" :: Key(id, m[id])
  }

  lemma MarkedIs(s: Store, ids: set<string>, status: BodyStatus)
    ensures var named := ids - {""}; var t := s.(messages := MarkedRows(s.messages, named, status));
      MarkBodies(s, ids, status) ==
        if Terminal(status) && Markable(s.messages, named, status) != {} then BodyProgress(SettleBodies(t, ThreadsNamed(t.messages, ids)))
        else t
  {
    var named := ids - {""};
    var t := s.(messages := MarkedRows(s.messages, named, status));
    assert ThreadsNamed(t.messages, ids) == set id | id in t.messages && id in named :: Key(id, t.messages[id]);
    if named == {} {
      assert MarkedRows(s.messages, named, status) == s.messages;
    }
  }

  lemma MarkSettles(s: Store, ids: set<string>, status: BodyStatus)
    ensures var t := MarkBodies(s, ids, status);
      if Terminal(status) && exists id :: id in s.messages && id in ids && id != "" && MayMark(s.messages[id], status)
      then SettledBy(ActiveWindow(s), ActiveWindow(t), t.messages, ThreadsNamed(t.messages, ids))
      else t.sync == s.sync && t.windows == s.windows
  {
    var t := s.(messages := MarkedRows(s.messages, ids - {""}, status));
    MarkedIs(s, ids, status);
    SettlingSettles(t, ThreadsNamed(t.messages, ids));
    assert ActiveWindow(t) == ActiveWindow(s);
    if id :| id in s.messages && id in ids && id != "" && MayMark(s.messages[id], status) {
      assert id in Markable(s.messages, ids - {""}, status);
    }
  }

  /** Exactly the named rows are deleted. */
  predicate DeletedOnly(m: map<string, Row>, n: map<string, Row>, ids: set<string>) {
    && (forall id :: id in m ==> (id in n <==> id !in ids || id == ""))
    && (forall id :: id in n ==> id in m && n[id] == m[id])
  }

  lemma Emptied(m: map<string, Row>, k: string)
    ensures MessagesOf(m, k) == {} <==> forall id :: id in m ==> Key(id, m[id]) != k
  {
    assert forall id :: id in m && Key(id, m[id]) == k ==> id in MessagesOf(m, k);
  }

  lemma VacatedEntries(w: Window, m: map<string, Row>, gone: set<string>)
    ensures VacatedBy(w, Vacated(m, w, gone), m, gone)
    ensures (forall k :: k in gone ==> k !in w || !ThreadReady(m, k)) ==> VacatedBy(w, w, m, gone)
  {
    forall k | k in w ensures MessagesOf(m, k) == {} <==> forall id :: id in m ==> Key(id, m[id]) != k {
      Emptied(m, k);
    }
  }

  /** Nothing but the rows changes when no entry of theirs is settled by the deletion. */
  lemma DeleteSparesProgress(s: Store, ids: set<string>)
    requires forall k :: k in ThreadsNamed(s.messages, ids) && k in ActiveWindow(s) ==>
      exists id :: id in s.messages && (id !in ids || id == "") && Key(id, s.messages[id]) == k && !Terminal(s.messages[id].status)
    ensures Delete(s, ids) == s.(messages := Delete(s, ids).messages)
  {
    var t := s.(messages := map id | id in s.messages && id !in ids - {""} :: s.messages[id]);
    var gone := set id | id in s.messages && id in ids - {""} :: Key(id, s.messages[id]);
    forall k | k in gone && k in ActiveWindow(s) ensures !ThreadReady(t.messages, k) {
      assert k in ThreadsNamed(s.messages, ids);
      var id :| id in s.messages && (id !in ids || id == "") && Key(id, s.messages[id]) == k && !Terminal(s.messages[id].status);
      assert id in t.messages && t.messages[id] == s.messages[id];
    }
  }

  /** Exactly the titled rows take their titles, which are not content. */
  lemma TitlesTaken(s: Store, titles: map<string, string>)
    ensures var t := AiTitles(s, titles);
      && t == s.(messages := t.messages) && t.messages.Keys == s.messages.Keys
      && forall id :: id in t.messages ==>
           && ContentOf(t.messages[id]) == ContentOf(s.messages[id]) && t.messages[id].revision == s.messages[id].revision
           && (id in titles ==> t.messages[id].aiTitle == Some(titles[id])) && (id !in titles ==> t.messages[id] == s.messages[id])
  {
  }

  /** The window after a deletion: vacated when some entry is settled, and as it was otherwise. */
  lemma DeletedWindow(s: Store, ids: set<string>)
    ensures var t, gone := Delete(s, ids), ThreadsNamed(s.messages, ids);
      && t.messages == (map id | id in s.messages && id !in ids - {""} :: s.messages[id])
      && (ActiveWindow(t) == Vacated(t.messages, ActiveWindow(s), gone)
          || (ActiveWindow(t) == ActiveWindow(s) && forall k :: k in gone ==> k !in ActiveWindow(s) || !ThreadReady(t.messages, k)))
  {
    var gone := ThreadsNamed(s.messages, ids);
    assert gone == set id | id in s.messages && id in ids - {""} :: Key(id, s.messages[id]);
    var t := s.(messages := map id | id in s.messages && id !in ids - {""} :: s.messages[id]);
    if s.sync.generation.None? || forall k :: k in gone ==> k !in ActiveWindow(s) || !ThreadReady(t.messages, k) {
      assert Delete(s, ids) == t;
    } else {
      var v := Vacated(t.messages, ActiveWindow(s), gone);
      VacatedWindow(t, v);
      assert Delete(s, ids) == BodyProgress(Counted(WithWindow(t, s.sync.generation.value, v)));
    }
  }

  lemma VacatedWindow(t: Store, v: Window)
    requires t.sync.generation.Some?
    ensures var u := BodyProgress(Counted(WithWindow(t, t.sync.generation.value, v))); u.messages == t.messages && ActiveWindow(u) == v
  {
  }

  lemma DeleteVacates(s: Store, ids: set<string>)
    ensures var t := Delete(s, ids);
      && DeletedOnly(s.messages, t.messages, ids)
      && VacatedBy(ActiveWindow(s), ActiveWindow(t), t.messages, ThreadsNamed(s.messages, ids))
  {
    DeletedWindow(s, ids);
    VacatedEntries(ActiveWindow(s), Delete(s, ids).messages, ThreadsNamed(s.messages, ids));
  }

  // ---------------------------------------------------------------------------------
  // Phases

  /** What a refresh of body progress does to phase and counters. */
  predicate Refreshed(s: Store, t: Store) {
    var ready := |set k | k in ActiveWindow(s) && ActiveWindow(s)[k].bodyReady && ActiveWindow(s)[k].position < s.sync.bodyTarget|;
    if s.sync.generation.None? then t == s
    else
      && t == s.(sync := s.sync.(
           bodyReady := t.sync.bodyReady, historyBody := t.sync.historyBody, phase := t.sync.phase, bodyComplete := t.sync.bodyComplete))
      && t.sync.bodyReady >= s.sync.bodyReady && t.sync.bodyReady >= ready && t.sync.bodyReady in {s.sync.bodyReady, ready}
      && t.sync.historyBody >= s.sync.historyBody && t.sync.historyBody >= Min(s.sync.historyMetadata, |ReadyThreads(s.messages)|)
      && t.sync.historyBody in {s.sync.historyBody, Min(s.sync.historyMetadata, |ReadyThreads(s.messages)|)}
      && (t.sync.bodyComplete <==> s.sync.bodyComplete || (s.sync.metadataComplete && AllTerminal(s.messages)))
      && (s.sync.metadataComplete && AllTerminal(s.messages) ==> t.sync.phase == Some(Complete))
      && (!(s.sync.metadataComplete && AllTerminal(s.messages)) ==>
            t.sync.phase ==
              if s.sync.windowComplete && ready >= s.sync.bodyTarget
                && s.sync.phase in {Some(DiscoveringRecent), Some(ImportingMetadata), Some(HydratingPriorityContent)}
              then Some(Usable) else s.sync.phase)
  }

  /** Ready threads are those with stored messages, all with terminal bodies. */
  lemma ReadyThreadsMean(m: map<string, Row>, t: string)
    ensures t in ReadyThreads(m) <==>
      && (exists id :: id in m && Key(id, m[id]) == t)
      && (forall id :: id in m && Key(id, m[id]) == t ==> Terminal(m[id].status))
  {
  }

  lemma RefreshRefreshes(s: Store)
    ensures Refreshed(s, BodyProgress(s))
  {
    if s.sync.generation.Some? {
      assert BodiesReady(ActiveWindow(s), s.sync.bodyTarget) ==
        set k | k in ActiveWindow(s) && ActiveWindow(s)[k].bodyReady && ActiveWindow(s)[k].position < s.sync.bodyTarget;
    }
  }

  /** A page of the history scan: what it says about progress. */
  predicate PageCounted(s: Store, t: Store, g: string, count: int, estimate: int) {
    var seen := |set id | id in t.messages && (g, id) in t.seen :: Key(id, t.messages[id])|;
    && t.sync.historyMetadata >= s.sync.historyMetadata && t.sync.historyMetadata >= seen && t.sync.historyMetadata >= count
    && t.sync.historyMetadata in {s.sync.historyMetadata, seen, count}
    && t.sync.estimated == Max(s.sync.estimated, Max(0, estimate))
    && (s.sync.phase != Some(Complete) ==>
          t.sync.phase ==
            if s.sync.phase != Some(FailedPhase) && s.sync.windowComplete && s.sync.bodyReady >= Min(25, s.sync.bodyTarget)
            then Some(SyncingHistory) else s.sync.phase)
  }

  /** An accepted page: exactly its rows are stored and recorded, and the next page is expected. */
  ghost predicate PageCommitted(s: Store, t: Store, g: string, next: Option<string>, rows: seq<(string, Row)>, count: int, estimate: int) {
    && t.messages == UpsertRows(s.messages, rows, s.clock) && t.messages.Keys == s.messages.Keys + Listed(rows)
    && t.seen == s.seen + (set id | id in Listed(rows) && id != "" :: (g, id)) && Spared(t, g, Listed(rows) - {""})
    && t.recon == s.recon.(cursor := next) && Expects(t, g, next)
    && PageCounted(s, t, g, count, estimate)
  }

  lemma PageStores(s: Store, g: string, expected: string, next: Option<string>, rows: seq<(string, Row)>, count: int, estimate: int)
    requires count <= 100 && NextPage(s, g, expected) && s.sync.generation == Some(g)
    ensures var t := CommitPage(s, g, expected, next, rows, count, estimate);
      && t.messages == UpsertRows(s.messages, rows, s.clock) && t.recon == s.recon.(cursor := next)
      && t.seen == s.seen + set id | id in Listed(rows) && id != "" :: (g, id)
  {
    ListedIds(rows);
    assert (set id | id in Listed(rows) && id != "" :: (g, id)) == set id | id in Ids(rows) && id != "" :: (g, id);
  }

  lemma PageCounts(s: Store, g: string, expected: string, next: Option<string>, rows: seq<(string, Row)>, count: int, estimate: int)
    requires count <= 100 && NextPage(s, g, expected) && s.sync.generation == Some(g)
    ensures PageCounted(s, CommitPage(s, g, expected, next, rows, count, estimate), g, count, estimate)
  {
    var t := CommitPage(s, g, expected, next, rows, count, estimate);
    assert SeenThreads(t, g) == set id | id in t.messages && (g, id) in t.seen :: Key(id, t.messages[id]);
  }

  lemma PageCommits(s: Store, g: string, expected: string, next: Option<string>, rows: seq<(string, Row)>, count: int, estimate: int)
    requires count <= 100 && NextPage(s, g, expected) && s.sync.generation == Some(g)
    ensures PageCommitted(s, CommitPage(s, g, expected, next, rows, count, estimate), g, next, rows, count, estimate)
  {
    var t := CommitPage(s, g, expected, next, rows, count, estimate);
    PageStores(s, g, expected, next, rows, count, estimate);
    PageCounts(s, g, expected, next, rows, count, estimate);
    UpsertedRows(s.messages, rows, s.clock);
    assert forall id :: id in Listed(rows) - {""} ==> (g, id) in t.seen;
    RecordedAreSpared(t, g, Listed(rows) - {""});
  }

  // ---------------------------------------------------------------------------------
  // Descriptors

  /** Rows of the page that were not ready have the given descriptors; all others stay. */
  predicate DescribedOnly(m: map<string, Row>, n: map<string, Row>, page: seq<string>, descriptors: map<string, string>, now: nat) {
    && n.Keys == m.Keys
    && forall id :: id in n ==>
         var given := if id in descriptors then descriptors[id] else "[]";
         if id !in page || m[id].descriptorsReady then n[id] == m[id]
         else n[id] == m[id].(
           descriptors := given, descriptorsReady := true, updatedAt := now,
           revision := m[id].revision + if m[id].descriptors == given then 0 else 1)
  }

  lemma PageDescribes(s: Store, after: Option<string>, page: seq<string>, descriptors: map<string, string>)
    ensures DescribedOnly(s.messages, DescribePage(s, after, page, descriptors).messages, page, descriptors, s.clock)
  {
    assert DescribePage(s, after, page, descriptors).messages == Described(s.messages, page, descriptors, s.clock);
  }

  predicate SomeUnready(m: map<string, Row>) {
    exists id :: id in m && !m[id].descriptorsReady
  }

  /** The cursor handed back names the last row of the page, unless every row that is still not
      ready lies before it: then the next pass starts from the beginning. */
  lemma CursorHandedBack(s: Store, after: Option<string>, page: seq<string>, descriptors: map<string, string>)
    ensures var m, last := DescribePage(s, after, page, descriptors).messages, if page == [] then after else Some(page[|page| - 1]);
      NextCursor(s, after, page, descriptors) ==
        if SomeUnready(m) && (forall id :: id in m && !m[id].descriptorsReady ==> last.Some? && !Less(last.value, id)) then None else last
  {
    var m, last := DescribePage(s, after, page, descriptors).messages, PageCursor(after, page);
    assert forall id :: id in Unready(m) <==> id in m && !m[id].descriptorsReady;
    assert Unready(m) != {} <==> SomeUnready(m);
    assert forall id :: id in Beyond(Unready(m), last) <==> id in Unready(m) && (last.Some? ==> Less(last.value, id));
    if SomeUnready(m) && forall id :: id in m && !m[id].descriptorsReady ==> last.Some? && !Less(last.value, id) {
      assert Beyond(Unready(m), last) == {};
    }
  }

  /** Exactly the named rows take their labels; only a change raises the revision. */
  predicate LabelledOnly(m: map<string, Row>, n: map<string, Row>, labels: map<string, string>, now: nat) {
    && n.Keys == m.Keys
    && forall id :: id in n ==>
         if id !in labels || id == "" then n[id] == m[id]
         else n[id] == m[id].(labels := labels[id], updatedAt := now, revision := m[id].revision + if m[id].labels == labels[id] then 0 else 1)
  }

  /** Some of the rows relabelled. */
  function Relabelled(m: map<string, Row>, labels: map<string, string>, ids: set<string>, now: nat): map<string, Row> {
    map id | id in m :: if id in ids && id in labels then WithLabels(m[id], labels[id], now) else m[id]
  }

  lemma RelabelOne(m: map<string, Row>, labels: map<string, string>, ids: set<string>, id: string, now: nat)
    requires id in labels && id !in ids
    ensures var done := Relabelled(m, labels, ids, now);
      Relabelled(m, labels, ids + {id}, now) == if id in m then done[id := WithLabels(done[id], labels[id], now)] else done
  {
  }

  lemma ForcedLabels(s: Store, labels: map<string, string>)
    ensures LabelledOnly(s.messages, ForceLabels(s, labels).messages, labels, s.clock)
    ensures ForceLabels(s, labels) == s.(messages := Relabelled(s.messages, labels, labels.Keys - {""}, s.clock))
  {
  }

  // ---------------------------------------------------------------------------------
  // Milestones and activation

  /** An import milestone is kept, and a finished backfill is withdrawn only by a new cursor. */
  lemma MilestonesStay(s: Store, first: bool, cursor: bool, finished: bool)
    ensures var t := ImportCompleted(s, first, cursor, finished);
      && t == s.(marks := s.marks.(firstBatch := t.marks.firstBatch, backfilled := t.marks.backfilled))
      && (t.marks.firstBatch <==> s.marks.firstBatch || first)
      && (t.marks.backfilled != s.marks.backfilled <==> if s.marks.backfilled then cursor && !finished else finished)
  {
  }

  /** The order of the initial window is total: of two threads the newer comes first, a dated one
      before an undated one, and otherwise the one with the greater identifier. */
  lemma WindowOrderIsTotal(a: string, da: Option<nat>, b: string, db: Option<nat>)
    requires a != b
    ensures Precedes(a, da, b, db) <==> !Precedes(b, db, a, da)
    ensures da.Some? && (db.None? || db.value < da.value) ==> Precedes(a, da, b, db)
    ensures da == db ==> (Precedes(a, da, b, db) <==> Less(b, a))
  {
    LessTotal(a, b);
  }

  lemma {:induction false} RankedAt(m: map<string, Row>, ranked: seq<string>, i: nat)
    requires Distinct(ranked) && i < |ranked|
    ensures var w := Ranked(m, map[], ranked);
      && (forall t :: t in w <==> t in ranked)
      && w[ranked[i]] == Entry(i, true, ThreadReady(m, ranked[i]), |MessagesOf(m, ranked[i])|)
    decreases |ranked|
  {
    var n := |ranked| - 1;
    SyncProgress.RankedSize(m, ranked);
    SyncProgress.RankedSize(m, ranked[..n]);
    assert ranked[n] !in ranked[..n];
    if i < n {
      RankedAt(m, ranked[..n], i);
    }
  }

  /** Activation adopts an imported mailbox once: its window lists the newest hundred threads in
      order with what is stored of them, and completion is claimed as far as it is true. */
  lemma ActivationAdopts(s: Store, g: string, complete: bool, ranked: seq<string>, i: nat)
    requires SyncProgress.Inv(s) && Distinct(ranked) && i < Min(100, |ranked|)
    ensures var t := Activate(s, g, complete, ranked);
      if g == "" || s.sync.generation.Some? || !s.marks.firstBatch then t == s
      else
        && t.sync.generation == Some(g) && |ActiveWindow(t)| == Min(100, |ranked|)
        && ranked[i] in ActiveWindow(t)
        && ActiveWindow(t)[ranked[i]] == Entry(i, true, ThreadReady(s.messages, ranked[i]), |MessagesOf(s.messages, ranked[i])|)
        && (t.sync.metadataComplete <==> complete || s.marks.backfilled)
        && (t.sync.bodyComplete <==> t.sync.metadataComplete && AllTerminal(s.messages))
        && t.sync.historyMetadata == |Threads(s.messages)| && t.sync.historyBody == |ReadyThreads(s.messages)|
        && t.sync.estimated >= s.sync.estimated && t.sync.estimated >= |Threads(s.messages)|
        && t.sync.phase == Some(if t.sync.bodyComplete then Complete else if t.sync.metadataComplete then SyncingHistory else Usable)
        && t.messages == s.messages && t.recon == s.recon && t.marks == s.marks
  {
    var top := ranked[..Min(100, |ranked|)];
    if !(g == "" || s.sync.generation.Some? || !s.marks.firstBatch) {
      RankedAt(s.messages, top, i);
      SyncProgress.RankedSize(s.messages, top);
      SyncProgress.ReadyCount(s.messages);
      assert ActiveWindow(Activate(s, g, complete, ranked)) == Ranked(s.messages, map[], top);
    }
  }
}
