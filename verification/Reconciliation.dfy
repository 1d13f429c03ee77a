/** The authoritative Gmail scan: generation-fenced pages advance by compare-and-swap, and the
    final sweep deletes what no page listed. Runs are tracked beside the store so that the
    sweep can be compared with everything the scan accepted. */
module Reconciliation {
  import opened Basics
  import opened Messages
  import opened MailStore

  datatype Page = Page(expected: string, next: Option<string>, ids: set<string>)

  /** The store, and what the active scan has accepted since it started. */
  datatype Tracked = Tracked(store: Store, initial: string, pages: seq<Page>, recorded: set<string>)

  function NamedSet(ids: seq<string>): set<string> {
    set id | id in ids && id != ""
  }

  predicate Starts(s: Store, op: ScanOp) {
    op.DoStartRecon? && op.generation != "" && op.cursor != "" && IsDigits(op.baseline) && s.recon.generation.None?
  }

  predicate AcceptsPage(s: Store, op: ScanOp) {
    || (op.DoRecordPage? && NextPage(s, op.generation, op.expected))
    || (op.DoCommitPage? && op.count <= 100 && NextPage(s, op.generation, op.expected) && s.sync.generation == Some(op.generation))
  }

  predicate AcceptsDelta(s: Store, op: ScanOp) {
    op.DoRecordSeen? && s.recon.generation == Some(op.generation) && s.recon.cursor == None
  }

  predicate Ends(s: Store, op: ScanOp) {
    || (op.DoFinalize? && MayFinalize(s, op.generation, op.history))
    || (op.DoReset? && s.recon.generation == Some(op.generation))
  }

  function PageIds(op: ScanOp): set<string>
    requires op.DoRecordPage? || op.DoCommitPage?
  {
    if op.DoRecordPage? then NamedSet(op.ids) else NamedSet(Ids(op.rows))
  }

  function TrackScan(x: Tracked, op: ScanOp): Tracked {
    var s := x.store;
    var t := PerformScan(s, op);
    if Starts(s, op) then Tracked(t, op.cursor, [], {})
    else if AcceptsPage(s, op) then
      Tracked(t, x.initial, x.pages + [Page(op.expected, op.next, PageIds(op))], x.recorded + PageIds(op))
    else if AcceptsDelta(s, op) then Tracked(t, x.initial, x.pages, x.recorded + NamedSet(op.ids))
    else if Ends(s, op) then Tracked(t, "", [], {})
    else Tracked(t, x.initial, x.pages, x.recorded)
  }

  function Track(x: Tracked, e: Event): Tracked {
    var y := x.(store := Later(x.store, e.elapsed));
    if e.op.Scan? then TrackScan(y, e.op.scan) else y.(store := Perform(y.store, e.op))
  }

  function TrackAll(x: Tracked, run: seq<Event>): Tracked
    decreases |run|
  {
    if run == [] then x else TrackAll(Track(x, run[0]), run[1..])
  }

  /** Tracking never disturbs the store it watches. */
  lemma {:induction false} TrackingOnlyWatches(x: Tracked, run: seq<Event>)
    ensures TrackAll(x, run).store == Exec(x.store, run)
    decreases |run|
  {
    if run != [] {
      TrackingOnlyWatches(Track(x, run[0]), run[1..]);
    }
  }

  /** The accepted pages lead from the initial cursor to the current one. */
  ghost predicate Chain(initial: string, pages: seq<Page>, cursor: Option<string>) {
    && (pages == [] ==> cursor == Some(initial))
    && (pages != [] ==> pages[0].expected == initial && pages[|pages| - 1].next == cursor)
    && (forall i :: 0 <= i < |pages| - 1 ==> pages[i].next == Some(pages[i + 1].expected))
  }

  ghost predicate Inv(x: Tracked) {
    var r := x.store.recon;
    match r.generation
    case None => r.cursor.None? && r.startedAt.None? && x.store.seen == {}
    case Some(g) =>
      && Chain(x.initial, x.pages, r.cursor)
      && (forall i :: 0 <= i < |x.pages| ==> x.pages[i].ids <= x.recorded)
      && x.store.seen == (set id | id in x.recorded :: (g, id))
      && r.startedAt.Some? && r.startedAt.value <= x.store.clock
  }

  lemma SeenGrows(g: string, recorded: set<string>, ids: seq<string>)
    ensures (set id | id in recorded :: (g, id)) + (set id | id in ids && id != "" :: (g, id))
         == (set id | id in recorded + NamedSet(ids) :: (g, id))
  {
  }

  lemma ChainGrows(initial: string, pages: seq<Page>, p: Page)
    requires Chain(initial, pages, Some(p.expected))
    ensures Chain(initial, pages + [p], p.next)
  {
  }

  lemma PageKeeps(x: Tracked, op: ScanOp)
    requires Inv(x) && AcceptsPage(x.store, op)
    ensures Inv(TrackScan(x, op))
  {
    var s := x.store;
    var ids := if op.DoRecordPage? then op.ids else Ids(op.rows);
    var p := Page(op.expected, op.next, NamedSet(ids));
    ChainGrows(x.initial, x.pages, p);
    SeenGrows(op.generation, x.recorded, ids);
    var y := TrackScan(x, op);
    assert y.store.seen == s.seen + (set id | id in ids && id != "" :: (op.generation, id));
    assert y.pages == x.pages + [p] && y.recorded == x.recorded + NamedSet(ids);
  }

  /** Every scan step keeps the record of the scan and the stored one in agreement. */
  lemma ScanKeeps(x: Tracked, op: ScanOp)
    requires Inv(x)
    ensures Inv(TrackScan(x, op))
  {
    var s := x.store;
    if AcceptsPage(s, op) {
      PageKeeps(x, op);
    } else if AcceptsDelta(s, op) {
      SeenGrows(op.generation, x.recorded, op.ids);
    } else if Starts(s, op) {
      assert TrackScan(x, op).store.seen == {};
    } else {
      OtherwiseKeeps(x, op);
    }
  }

  lemma OtherwiseKeeps(x: Tracked, op: ScanOp)
    requires Inv(x) && !AcceptsPage(x.store, op) && !AcceptsDelta(x.store, op) && !Starts(x.store, op)
    ensures Inv(TrackScan(x, op))
  {
    var s := x.store;
    match op
    case DoStartRecon(g, baseline, cursor) => assert PerformScan(s, op).seen == s.seen;
    case DoReset(g) =>
      if s.recon.generation == Some(g) {
        assert PerformScan(s, op).seen == {};
      } else {
        assert PerformScan(s, op).seen == s.seen;
      }
    case DoFinalize(g, h) =>
      if Ends(s, op) {
        assert PerformScan(s, op).seen == {};
      }
    case _ =>
  }

  lemma MailLeavesScan(s: Store, op: MailOp)
    ensures PerformMail(s, op).recon == s.recon && PerformMail(s, op).seen == s.seen && PerformMail(s, op).clock == s.clock
  {
  }

  lemma BatchLeavesScan(s: Store, g: string, threads: seq<string>, rows: seq<(string, Row)>, missing: seq<string>)
    ensures var t := CommitWindow(s, g, threads, rows, missing); t.recon == s.recon && t.seen == s.seen && t.clock == s.clock
  {
    var t := UpsertOn(WithWindow(s, g, TerminallyMissing(WindowOf(s, g), missing)), rows);
    assert t.recon == s.recon && t.seen == s.seen && t.clock == s.clock;
  }

  lemma LifeLeavesScan(s: Store, op: LifeOp)
    ensures PerformLife(s, op).recon == s.recon && PerformLife(s, op).seen == s.seen && PerformLife(s, op).clock == s.clock
  {
    if op.DoCommitWindow? {
      BatchLeavesScan(s, op.generation, op.threads, op.rows, op.missing);
    }
  }

  lemma TrackKeeps(x: Tracked, e: Event)
    requires Inv(x)
    ensures Inv(Track(x, e))
  {
    var y := x.(store := Later(x.store, e.elapsed));
    match e.op
    case Mail(o) => MailLeavesScan(y.store, o);
    case Life(o) => LifeLeavesScan(y.store, o);
    case Scan(o) => ScanKeeps(y, o);
  }

  lemma {:induction false} RunKeeps(x: Tracked, run: seq<Event>)
    requires Inv(x)
    ensures Inv(TrackAll(x, run))
    decreases |run|
  {
    if run != [] {
      TrackKeeps(x, run[0]);
      RunKeeps(Track(x, run[0]), run[1..]);
    }
  }

  // ---------------------------------------------------------------------------------
  // The sweep

  /** A stored row the sweep must spare although no page listed it. */
  predicate TooNew(s: Store, id: string, final: string)
    requires id in s.messages && IsDigits(final) && s.recon.startedAt.Some?
  {
    var r := s.messages[id];
    if Numeric(r.history) then Value(r.history.value) > Value(final) else r.updatedAt > s.recon.startedAt.value
  }

  /** Sweep safety over every run: a finalize takes effect only after the accepted pages form
      a complete cursor chain from the initial cursor to none, and it deletes exactly the rows
      that no accepted page or final delta recorded and that are not newer than the scan. */
  lemma SweepIsExact(x: Tracked, run: seq<Event>, g: string, final: string)
    requires Inv(x) && MayFinalize(TrackAll(x, run).store, g, final)
    ensures var y := TrackAll(x, run);
      && y.pages != [] && Chain(y.initial, y.pages, None)
      && (forall i :: 0 <= i < |y.pages| ==> y.pages[i].ids <= y.recorded)
      && var after := Finalize(y.store, g, final).messages;
         forall id :: id in y.store.messages ==>
           && (id in after <==> id in y.recorded || TooNew(y.store, id, final))
           && (id in after ==> after[id] == y.store.messages[id])
  {
    RunKeeps(x, run);
    var y := TrackAll(x, run);
    forall id | id in y.store.messages ensures (g, id) in y.store.seen <==> id in y.recorded {
      if id in y.recorded {
        assert (g, id) in (set k | k in y.recorded :: (g, k));
      }
    }
  }

  /** The importer upserts what the provider still holds and deletes only what it no longer does:
      identities of the provider's set that are recorded without their rows are already stored. */
  predicate Upserting(s: Store, op: Op, provider: set<string>) {
    && (op.Mail? && op.mail.DoDelete? ==> op.mail.targets !! provider)
    && (op.Scan? && op.scan.DoRecordPage? ==> NamedSet(op.scan.ids) * provider <= s.messages.Keys)
    && (op.Scan? && op.scan.DoRecordSeen? ==> NamedSet(op.scan.ids) * provider <= s.messages.Keys)
    && (op.Scan? ==> !op.scan.DoFinalize?)
  }

  predicate AllUpserting(x: Tracked, run: seq<Event>, provider: set<string>)
    decreases |run|
  {
    run != [] ==> Upserting(x.store, run[0].op, provider) && AllUpserting(Track(x, run[0]), run[1..], provider)
  }

  lemma {:induction false} UpsertStores(m: map<string, Row>, rows: seq<(string, Row)>, now: nat)
    ensures m.Keys <= UpsertRows(m, rows, now).Keys
    ensures forall i :: 0 <= i < |rows| ==> rows[i].0 in UpsertRows(m, rows, now)
    decreases |rows|
  {
    if rows != [] {
      UpsertStores(m, rows[..|rows| - 1], now);
    }
  }

  lemma MailStores(s: Store, op: MailOp, kept: set<string>)
    requires kept <= s.messages.Keys && (op.DoDelete? ==> op.targets !! kept)
    ensures kept <= PerformMail(s, op).messages.Keys
  {
    match op
    case DoUpsert(rows) => UpsertStores(s.messages, rows, s.clock);
    case DoUpdateBodies(rows) => BodyRowsKeys(s.messages, rows);
    case _ =>
  }

  lemma LifeStores(s: Store, op: LifeOp)
    ensures s.messages.Keys <= PerformLife(s, op).messages.Keys
  {
    if op.DoCommitWindow? {
      UpsertStores(s.messages, op.rows, s.clock);
    }
  }

  lemma ScanStores(x: Tracked, op: ScanOp, provider: set<string>)
    requires Upserting(x.store, Op.Scan(op), provider) && x.recorded * provider <= x.store.messages.Keys
    ensures TrackScan(x, op).recorded * provider <= TrackScan(x, op).store.messages.Keys
  {
    if op.DoCommitPage? {
      UpsertStores(x.store.messages, op.rows, x.store.clock);
      if AcceptsPage(x.store, op) {
        forall id | id in NamedSet(Ids(op.rows)) ensures id in TrackScan(x, op).store.messages {
          var i :| 0 <= i < |op.rows| && op.rows[i].0 == id;
        }
      }
    }
  }

  /** Recorded messages the provider still holds stay stored until the sweep. */
  lemma {:induction false} RecordedStayStored(x: Tracked, run: seq<Event>, provider: set<string>)
    requires AllUpserting(x, run, provider) && x.recorded * provider <= x.store.messages.Keys
    ensures TrackAll(x, run).recorded * provider <= TrackAll(x, run).store.messages.Keys
    decreases |run|
  {
    if run != [] {
      var y := x.(store := Later(x.store, run[0].elapsed));
      match run[0].op {
        case Mail(o) => MailStores(y.store, o, x.recorded * provider);
        case Life(o) => LifeStores(y.store, o);
        case Scan(o) => ScanStores(y, o, provider);
      }
      RecordedStayStored(Track(x, run[0]), run[1..], provider);
    }
  }

  /** A stored row outside the provider's set that the sweep has to spare. */
  predicate Survives(x: Tracked, id: string, final: string)
    requires id in x.store.messages && IsDigits(final) && x.store.recon.startedAt.Some?
  {
    id in x.recorded || TooNew(x.store, id, final)
  }

  /** Exactness over every run: when the accepted pages and deltas cover the provider's set, and
      upserts and deletions follow the provider, the stored identities equal that set after the
      sweep if and only if no other stored row was listed or is newer than the scan. */
  lemma SweepReachesProvider(x: Tracked, run: seq<Event>, g: string, final: string, provider: set<string>)
    requires Inv(x) && x.recorded == {} && AllUpserting(x, run, provider)
    requires MayFinalize(TrackAll(x, run).store, g, final) && provider <= TrackAll(x, run).recorded
    ensures var y := TrackAll(x, run);
      Finalize(y.store, g, final).messages.Keys == provider <==>
        forall id :: id in y.store.messages && id !in provider ==> !Survives(y, id, final)
  {
    SweepIsExact(x, run, g, final);
    RecordedStayStored(x, run, provider);
    var y := TrackAll(x, run);
    var after := Finalize(y.store, g, final).messages;
    assert forall id :: id in after ==> id in y.store.messages;
    if forall id :: id in y.store.messages && id !in provider ==> !Survives(y, id, final) {
      assert forall id :: id in after.Keys <==> id in provider;
    } else {
      var id :| id in y.store.messages && id !in provider && Survives(y, id, final);
      assert id in after;
    }
  }

  // ---------------------------------------------------------------------------------
  // The published history cursor

  predicate Trusted(m: Marks) {
    m.authoritative && Numeric(m.lastHistory)
  }

  lemma MailMarks(s: Store, op: MailOp)
    ensures PerformMail(s, op).marks.lastHistory == s.marks.lastHistory
  {
  }

  lemma LifeMarks(s: Store, op: LifeOp)
    ensures PerformLife(s, op).marks.lastHistory ==
      if op.DoHistoryDelta? && IsDigits(op.history) then NextHistory(s.marks, op.history) else s.marks.lastHistory
  {
  }

  lemma ScanMarks(s: Store, op: ScanOp)
    ensures PerformScan(s, op).marks.lastHistory ==
      if op.DoFinalize? && MayFinalize(s, op.generation, op.history) then NextHistory(s.marks, op.history) else s.marks.lastHistory
  {
  }

  lemma MarksMove(s: Store, op: Op)
    ensures var t := Perform(s, op);
      t.marks.lastHistory == s.marks.lastHistory
      || exists h :: IsDigits(h) && t.marks.lastHistory == NextHistory(s.marks, h)
  {
    match op
    case Mail(o) => MailMarks(s, o);
    case Life(o) => LifeMarks(s, o);
    case Scan(o) => ScanMarks(s, o);
  }

  predicate TrustedThroughout(s: Store, run: seq<Event>)
    decreases |run|
  {
    Trusted(s.marks) && (run != [] ==> TrustedThroughout(Step(s, run[0]), run[1..]))
  }

  /** While it is trusted, the published history cursor never goes back. */
  lemma {:induction false} TrustedCursorAdvances(s: Store, run: seq<Event>)
    requires TrustedThroughout(s, run)
    ensures Trusted(Exec(s, run).marks) && Value(Exec(s, run).marks.lastHistory.value) >= Value(s.marks.lastHistory.value)
    decreases |run|
  {
    if run != [] {
      MarksMove(Later(s, run[0].elapsed), run[0].op);
      TrustedCursorAdvances(Step(s, run[0]), run[1..]);
    }
  }
}
