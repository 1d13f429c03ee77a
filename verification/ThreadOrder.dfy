/** Mailbox pages in Gmail's own conversation order (backend/app/db/mail_groups.py). A refresh
    publishes a new generation of the order and keeps the one before it; a cursor names the
    generation it started in, so a reader can page on while messages and orders change. */
module ThreadOrder {
  import opened Basics

  /** Order state and entries of one mailbox; a generation lists its threads by position. */
  datatype LabelOrder = LabelOrder(active: string, previous: Option<string>, entries: map<string, seq<string>>)

  type Orders = map<string, LabelOrder>

  datatype Cursor = Cursor(mailbox: string, generation: string, position: nat, thread: string)

  datatype Entry = Entry(position: nat, thread: string)

  datatype Page =
    | Ranked(generation: string, rows: seq<Entry>, next: Option<Cursor>)
    | ByDate
    | Rejected

  // ---------------------------------------------------------------------------------
  // Publishing

  predicate Retains(o: LabelOrder, g: string) {
    g == o.active || o.previous == Some(g)
  }

  function EntriesOf(o: LabelOrder, g: string): seq<string> {
    if g in o.entries then o.entries[g] else []
  }

  /** A new active generation; the former active one is kept and every other one dropped. */
  function Publish(was: Option<LabelOrder>, g: string, ids: seq<string>): LabelOrder {
    var all := (if was.Some? then was.value.entries else map[])[g := Unique(Named(ids))];
    LabelOrder(
      g,
      if was.Some? then Some(was.value.active) else None,
      map k | k in all && (k == g || (was.Some? && k == was.value.active)) :: all[k])
  }

  function At(o: Orders, mailbox: string): Option<LabelOrder> {
    if mailbox in o then Some(o[mailbox]) else None
  }

  /** All labels of one refresh are published together. */
  function Refresh(o: Orders, orders: map<string, seq<string>>, ids: map<string, string>): Orders
    requires orders.Keys <= ids.Keys
  {
    map mailbox | mailbox in o.Keys + orders.Keys ::
      if mailbox in orders then Publish(At(o, mailbox), ids[mailbox], orders[mailbox]) else o[mailbox]
  }

  // ---------------------------------------------------------------------------------
  // Reading a page

  /** Position and thread of the row come after the cursor's. */
  predicate Behind(e: Entry, after: Option<Cursor>) {
    after.None? || e.position > after.value.position || (e.position == after.value.position && Less(after.value.thread, e.thread))
  }

  /** The eligible entries among the first `n` positions that come after the cursor. */
  function Matching(order: seq<string>, eligible: set<string>, after: Option<Cursor>, n: nat): (rows: seq<Entry>)
    requires n <= |order|
    ensures |rows| <= n
  {
    if n == 0 then []
    else
      var e := Entry(n - 1, order[n - 1]);
      var rows := Matching(order, eligible, after, n - 1);
      if e.thread in eligible && Behind(e, after) then rows + [e] else rows
  }

  /** The first `limit` matching rows and a cursor when more follow. */
  function Cut(mailbox: string, g: string, rows: seq<Entry>, limit: int): Page {
    var size := Max(1, limit);
    if |rows| <= size then Ranked(g, rows, None)
    else Ranked(g, rows[..size], Some(Cursor(mailbox, g, rows[size - 1].position, rows[size - 1].thread)))
  }

  function ReadPage(o: LabelOrder, mailbox: string, g: string, eligible: set<string>, limit: int, after: Option<Cursor>): Page {
    var order := EntriesOf(o, g);
    Cut(mailbox, g, Matching(order, eligible, after, |order|), limit)
  }

  predicate Covers(o: LabelOrder, eligible: set<string>) {
    forall t :: t in eligible ==> t in EntriesOf(o, o.active)
  }

  /** The generation a request reads: its cursor's while retained, else the active one when it
      ranks every eligible thread. `Some(None)` asks for the date order, `None` is a refusal. */
  function Resolve(o: Orders, mailbox: string, eligible: set<string>, cursor: Option<Cursor>, filtered: bool): Option<Option<string>> {
    if cursor.Some? then
      if filtered || cursor.value.mailbox != mailbox || mailbox !in o || !Retains(o[mailbox], cursor.value.generation) then None
      else Some(Some(cursor.value.generation))
    else if !filtered && mailbox in o && Covers(o[mailbox], eligible) then Some(Some(o[mailbox].active))
    else Some(None)
  }

  /** A page request, resolved and read at one moment. */
  function ListPage(o: Orders, mailbox: string, eligible: set<string>, limit: int, cursor: Option<Cursor>, filtered: bool): Page {
    match Resolve(o, mailbox, eligible, cursor, filtered)
    case None => Rejected
    case Some(None) => ByDate
    case Some(Some(g)) => ReadPage(o[mailbox], mailbox, g, eligible, limit, cursor)
  }

  predicate Rising(rows: seq<Entry>) {
    forall i, j :: 0 <= i < j < |rows| ==> rows[i].position < rows[j].position
  }

  predicate FromOrder(rows: seq<Entry>, order: seq<string>) {
    forall i :: 0 <= i < |rows| ==> rows[i].position < |order| && order[rows[i].position] == rows[i].thread
  }

  predicate Lists(rows: seq<Entry>, p: nat) {
    exists i :: 0 <= i < |rows| && rows[i].position == p
  }

  lemma {:induction false} MatchingRises(order: seq<string>, eligible: set<string>, after: Option<Cursor>, n: nat)
    requires n <= |order|
    ensures var rows := Matching(order, eligible, after, n);
      && Rising(rows) && FromOrder(rows, order)
      && (forall i :: 0 <= i < |rows| ==> rows[i].position < n && rows[i].thread in eligible && Behind(rows[i], after))
  {
    if n > 0 {
      MatchingRises(order, eligible, after, n - 1);
    }
  }

  lemma {:induction false} MatchingMissesNone(order: seq<string>, eligible: set<string>, after: Option<Cursor>, n: nat, p: nat)
    requires p < n <= |order| && order[p] in eligible && Behind(Entry(p, order[p]), after)
    ensures Lists(Matching(order, eligible, after, n), p)
  {
    var all := Matching(order, eligible, after, n);
    if p < n - 1 {
      MatchingMissesNone(order, eligible, after, n - 1, p);
      var rows := Matching(order, eligible, after, n - 1);
      var i :| 0 <= i < |rows| && rows[i].position == p;
      assert all[i] == rows[i];
    } else {
      assert all[|all| - 1].position == p;
    }
  }

  // ---------------------------------------------------------------------------------
  // A reader that follows its cursors

  datatype Phase = Opening | Following(cursor: Cursor) | Finished | Expired | Dated

  /** The reader of one mailbox, the orders it reads from, and what it may be judged by: the order
      its first page was cut from, every row it was given, the threads eligible at each of its
      requests, and the refreshes of its mailbox since the first. */
  datatype Reader = Reader(
    mailbox: string,
    orders: Orders,
    issued: set<string>,
    phase: Phase,
    generation: string,
    order: seq<string>,
    got: seq<Entry>,
    always: set<string>,
    refreshes: nat)

  datatype Event =
    | Refreshed(orders: map<string, seq<string>>, ids: map<string, string>)
    | Fetched(eligible: set<string>, limit: int)

  function Take(r: Reader, page: Page, eligible: set<string>): Reader {
    match page
    case Rejected => r.(phase := Expired)
    case ByDate => r.(phase := Dated)
    case Ranked(g, rows, next) =>
      var opening := r.phase.Opening?;
      r.(phase := if next.Some? then Following(next.value) else Finished,
         generation := if opening then g else r.generation,
         order := if opening && r.mailbox in r.orders then EntriesOf(r.orders[r.mailbox], g) else r.order,
         got := r.got + rows,
         always := if opening then eligible else r.always * eligible,
         refreshes := if opening then 0 else r.refreshes)
  }

  /** Generation identifiers are never issued twice. */
  predicate Legal(r: Reader, e: Event) {
    e.Refreshed? ==> e.orders.Keys <= e.ids.Keys && forall mailbox :: mailbox in e.ids ==> e.ids[mailbox] !in r.issued
  }

  function Step(r: Reader, e: Event): Reader
    requires Legal(r, e)
  {
    match e
    case Refreshed(orders, ids) =>
      r.(orders := Refresh(r.orders, orders, ids), issued := r.issued + ids.Values,
         refreshes := if r.mailbox in orders then r.refreshes + 1 else r.refreshes)
    case Fetched(eligible, limit) =>
      match r.phase
      case Opening => Take(r, ListPage(r.orders, r.mailbox, eligible, limit, None, false), eligible)
      case Following(c) => Take(r, ListPage(r.orders, r.mailbox, eligible, limit, Some(c), false), eligible)
      case _ => r
  }

  predicate LegalRun(r: Reader, run: seq<Event>)
    decreases |run|
  {
    run != [] ==> Legal(r, run[0]) && LegalRun(Step(r, run[0]), run[1..])
  }

  function Exec(r: Reader, run: seq<Event>): Reader
    requires LegalRun(r, run)
    decreases |run|
  {
    if run == [] then r else Exec(Step(r, run[0]), run[1..])
  }

  /** Orders as the refreshes leave them. */
  predicate Sound(o: Orders, issued: set<string>) {
    forall mailbox :: mailbox in o ==>
      && o[mailbox].active in issued
      && (o[mailbox].previous.Some? ==> o[mailbox].previous.value in issued && o[mailbox].previous.value != o[mailbox].active)
      && (forall g :: g in o[mailbox].entries ==> Retains(o[mailbox], g) && Distinct(o[mailbox].entries[g]))
  }

  /** A reader about to ask for its first page. */
  predicate Opens(r: Reader) {
    Sound(r.orders, r.issued) && r.phase == Opening && r.got == []
  }

  /** The generation is still there exactly until the second refresh. */
  predicate Holds(r: Reader) {
    && r.generation in r.issued && r.mailbox in r.orders
    && (Retains(r.orders[r.mailbox], r.generation) <==> r.refreshes < 2)
    && (r.refreshes == 0 <==> r.orders[r.mailbox].active == r.generation)
    && (r.refreshes < 2 ==> EntriesOf(r.orders[r.mailbox], r.generation) == r.order)
  }

  /** Every row up to `end` that stayed eligible was given. */
  predicate Complete(r: Reader, end: Option<Cursor>) {
    forall p :: 0 <= p < |r.order| && r.order[p] in r.always && UpTo(p, end) ==> Lists(r.got, p)
  }

  /** Where the reader stands: it has been given, in order, distinct rows of its generation, and
      every row up to its position that stayed eligible. */
  predicate Inv(r: Reader) {
    && Sound(r.orders, r.issued)
    && Distinct(r.order) && Rising(r.got) && FromOrder(r.got, r.order)
    && (r.phase.Opening? ==> r.got == [])
    && (r.phase.Following? || r.phase.Finished? ==> Holds(r) && forall t :: t in r.always ==> t in r.order)
    && (r.phase.Following? ==>
          && r.phase.cursor.mailbox == r.mailbox && r.phase.cursor.generation == r.generation
          && Points(r.order, r.phase.cursor)
          && (forall i :: 0 <= i < |r.got| ==> UpTo(r.got[i].position, Some(r.phase.cursor)))
          && Complete(r, Some(r.phase.cursor)))
    && (r.phase.Finished? ==> Complete(r, None))
  }

  lemma PublishIsSound(was: Option<LabelOrder>, g: string, ids: seq<string>)
    requires was.Some? ==> forall k :: k in was.value.entries ==> Distinct(was.value.entries[k])
    ensures var o := Publish(was, g, ids); forall k :: k in o.entries ==> Retains(o, k) && Distinct(o.entries[k])
  {
  }

  lemma RefreshKeeps(r: Reader, orders: map<string, seq<string>>, ids: map<string, string>)
    requires Inv(r) && Legal(r, Refreshed(orders, ids))
    ensures Inv(Step(r, Refreshed(orders, ids)))
  {
    var n := Step(r, Refreshed(orders, ids));
    forall mailbox | mailbox in n.orders
      ensures Sound(map[mailbox := n.orders[mailbox]], n.issued)
    {
      if mailbox in orders {
        PublishIsSound(At(r.orders, mailbox), ids[mailbox], orders[mailbox]);
        assert ids[mailbox] in ids.Values;
      }
    }
    assert forall mailbox :: mailbox in n.orders ==> mailbox in map[mailbox := n.orders[mailbox]];
    if r.mailbox in orders {
      assert ids[r.mailbox] in ids.Values;
    }
  }

  /** Positions after the cursor's. */
  predicate Past(p: nat, after: Option<Cursor>) {
    after.Some? ==> p > after.value.position
  }

  /** Positions up to the one where a page ends. */
  predicate UpTo(p: nat, next: Option<Cursor>) {
    next.Some? ==> p <= next.value.position
  }

  /** The cursor points at its thread in this order. */
  predicate Points(order: seq<string>, c: Cursor) {
    c.position < |order| && order[c.position] == c.thread
  }

  /** A page holds the eligible rows between its cursor and the next one. */
  predicate Slice(order: seq<string>, eligible: set<string>, after: Option<Cursor>, rows: seq<Entry>, next: Option<Cursor>) {
    && Rising(rows) && FromOrder(rows, order)
    && (forall i :: 0 <= i < |rows| ==> rows[i].thread in eligible && Past(rows[i].position, after) && UpTo(rows[i].position, next))
    && (forall p :: 0 <= p < |order| && order[p] in eligible && Past(p, after) && UpTo(p, next) ==> Lists(rows, p))
  }

  /** A page is the front of the matching rows, and its cursor names the last of them. */
  lemma CutIsFront(mailbox: string, g: string, rows: seq<Entry>, limit: int)
    ensures var page := Cut(mailbox, g, rows, limit);
      && |page.rows| <= |rows| && page.rows == rows[..|page.rows|]
      && (page.next.None? ==> page.rows == rows)
      && (page.next.Some? ==> page.rows != [] && var last := page.rows[|page.rows| - 1]; page.next.value == Cursor(mailbox, g, last.position, last.thread))
  {
  }

  lemma MatchesArePast(order: seq<string>, eligible: set<string>, after: Option<Cursor>, i: nat)
    requires (after.Some? ==> Points(order, after.value)) && i < |Matching(order, eligible, after, |order|)|
    ensures Past(Matching(order, eligible, after, |order|)[i].position, after)
  {
    MatchingRises(order, eligible, after, |order|);
    var e := Matching(order, eligible, after, |order|)[i];
    assert Behind(e, after);
    if after.Some? {
      LessTotal(after.value.thread, e.thread);
    }
  }

  lemma PageRows(mailbox: string, g: string, order: seq<string>, eligible: set<string>, limit: int, after: Option<Cursor>)
    requires after.Some? ==> Points(order, after.value)
    ensures var page := Cut(mailbox, g, Matching(order, eligible, after, |order|), limit);
      && Rising(page.rows) && FromOrder(page.rows, order)
      && (forall i :: 0 <= i < |page.rows| ==> page.rows[i].thread in eligible && Past(page.rows[i].position, after) && UpTo(page.rows[i].position, page.next))
      && (page.next.Some? ==> Points(order, page.next.value) && Past(page.next.value.position, after))
  {
    var rows := Matching(order, eligible, after, |order|);
    MatchingRises(order, eligible, after, |order|);
    CutIsFront(mailbox, g, rows, limit);
    forall i | 0 <= i < |rows| ensures Past(rows[i].position, after) {
      MatchesArePast(order, eligible, after, i);
    }
  }

  /** An eligible thread stands behind the end of the page. */
  predicate MoreFollow(order: seq<string>, eligible: set<string>, next: Option<Cursor>) {
    exists p :: 0 <= p < |order| && order[p] in eligible && Past(p, next)
  }

  /** A page has a cursor only when it is full and more follows. */
  lemma FullPage(mailbox: string, g: string, order: seq<string>, eligible: set<string>, limit: int, after: Option<Cursor>)
    ensures var page := Cut(mailbox, g, Matching(order, eligible, after, |order|), limit);
      && |page.rows| <= Max(1, limit)
      && (page.next.Some? ==> |page.rows| == Max(1, limit) && MoreFollow(order, eligible, page.next))
  {
    var rows, size := Matching(order, eligible, after, |order|), Max(1, limit);
    MatchingRises(order, eligible, after, |order|);
    if |rows| > size {
      assert rows[size].position > rows[size - 1].position;
      var p := rows[size].position;
      assert order[p] in eligible;
    }
  }

  /** A page holds exactly the eligible rows between its cursor and the next one; it is as full as
      the limit allows, and has a next cursor exactly when more follow. */
  lemma PageIsSlice(mailbox: string, g: string, order: seq<string>, eligible: set<string>, limit: int, after: Option<Cursor>)
    requires after.Some? ==> Points(order, after.value)
    ensures var page := Cut(mailbox, g, Matching(order, eligible, after, |order|), limit);
      && Slice(order, eligible, after, page.rows, page.next)
      && (page.next.Some? ==> Points(order, page.next.value) && Past(page.next.value.position, after))
      && |page.rows| <= Max(1, limit)
      && (page.next.Some? ==> |page.rows| == Max(1, limit) && MoreFollow(order, eligible, page.next))
  {
    PageRows(mailbox, g, order, eligible, limit, after);
    FullPage(mailbox, g, order, eligible, limit, after);
    MatchingRises(order, eligible, after, |order|);
    var rows := Matching(order, eligible, after, |order|);
    var page := Cut(mailbox, g, rows, limit);
    forall p | 0 <= p < |order| && order[p] in eligible && Past(p, after) && UpTo(p, page.next) ensures Lists(page.rows, p) {
      MatchingMissesNone(order, eligible, after, |order|, p);
      CutKeeps(mailbox, g, rows, limit, p);
    }
  }

  lemma CutKeeps(mailbox: string, g: string, rows: seq<Entry>, limit: int, p: nat)
    requires Rising(rows) && Lists(rows, p) && UpTo(p, Cut(mailbox, g, rows, limit).next)
    ensures Lists(Cut(mailbox, g, rows, limit).rows, p)
  {
    var i :| 0 <= i < |rows| && rows[i].position == p;
    assert Cut(mailbox, g, rows, limit).rows[i] == rows[i];
  }

  lemma RowsJoin(got: seq<Entry>, rows: seq<Entry>, order: seq<string>, after: Option<Cursor>)
    requires Rising(got) && FromOrder(got, order) && Rising(rows) && FromOrder(rows, order)
    requires forall i :: 0 <= i < |got| ==> after.Some? && UpTo(got[i].position, after)
    requires forall i :: 0 <= i < |rows| ==> Past(rows[i].position, after)
    ensures Rising(got + rows) && FromOrder(got + rows, order)
  {
  }

  lemma ListsMore(a: seq<Entry>, b: seq<Entry>, p: nat)
    requires Lists(a, p) || Lists(b, p)
    ensures Lists(a + b, p)
  {
    if i :| 0 <= i < |a| && a[i].position == p {
      assert (a + b)[i].position == p;
    } else {
      var i :| 0 <= i < |b| && b[i].position == p;
      assert (a + b)[|a| + i].position == p;
    }
  }

  /** A reader that was just given a page. */
  lemma PageInv(n: Reader, next: Option<Cursor>)
    requires Sound(n.orders, n.issued) && Distinct(n.order) && Rising(n.got) && FromOrder(n.got, n.order) && Holds(n)
    requires forall t :: t in n.always ==> t in n.order
    requires n.phase == if next.Some? then Following(next.value) else Finished
    requires next.Some? ==> next.value.mailbox == n.mailbox && next.value.generation == n.generation && Points(n.order, next.value)
    requires Complete(n, next) && forall i :: 0 <= i < |n.got| ==> UpTo(n.got[i].position, next)
    ensures Inv(n)
  {
  }

  lemma FirstFetchKeeps(r: Reader, eligible: set<string>, limit: int)
    requires Inv(r) && r.phase.Opening?
    ensures Inv(Step(r, Fetched(eligible, limit)))
  {
    var page := ListPage(r.orders, r.mailbox, eligible, limit, None, false);
    if page.Ranked? {
      var o, n := r.orders[r.mailbox], Step(r, Fetched(eligible, limit));
      var order := EntriesOf(o, o.active);
      PageIsSlice(r.mailbox, o.active, order, eligible, limit, None);
      assert n.got == page.rows && n.order == order && n.always == eligible;
      assert Holds(n) && Covers(o, eligible);
      PageInv(n, page.next);
    }
  }

  lemma NextFetchKeeps(r: Reader, eligible: set<string>, limit: int)
    requires Inv(r) && r.phase.Following?
    ensures Inv(Step(r, Fetched(eligible, limit)))
  {
    var after := Some(r.phase.cursor);
    var page := ListPage(r.orders, r.mailbox, eligible, limit, after, false);
    if page.Ranked? {
      PageIsSlice(r.mailbox, r.generation, r.order, eligible, limit, after);
      RowsJoin(r.got, page.rows, r.order, after);
      var n := Step(r, Fetched(eligible, limit));
      forall p | 0 <= p < |r.order| && r.order[p] in n.always && UpTo(p, page.next) ensures Lists(n.got, p) {
        ListsMore(r.got, page.rows, p);
      }
      PageInv(n, page.next);
    }
  }

  lemma StepKeeps(r: Reader, e: Event)
    requires Inv(r) && Legal(r, e)
    ensures Inv(Step(r, e)) && Step(r, e).mailbox == r.mailbox
  {
    match e
    case Refreshed(orders, ids) => RefreshKeeps(r, orders, ids);
    case Fetched(eligible, limit) =>
      match r.phase
      case Opening => FirstFetchKeeps(r, eligible, limit);
      case Following(_) => NextFetchKeeps(r, eligible, limit);
      case _ =>
  }

  lemma {:induction false} RunKeeps(r: Reader, run: seq<Event>)
    requires Inv(r) && LegalRun(r, run)
    ensures Inv(Exec(r, run))
    decreases |run|
  {
    if run != [] {
      StepKeeps(r, run[0]);
      RunKeeps(Step(r, run[0]), run[1..]);
    }
  }

  predicate ReturnsOnce(got: seq<Entry>, t: string) {
    exists i :: 0 <= i < |got| && got[i].thread == t && forall j :: 0 <= j < |got| && got[j].thread == t ==> j == i
  }

  lemma GivenOnce(got: seq<Entry>, order: seq<string>, p: nat)
    requires Rising(got) && FromOrder(got, order) && Distinct(order) && p < |order| && Lists(got, p)
    ensures ReturnsOnce(got, order[p])
  {
    var i :| 0 <= i < |got| && got[i].position == p;
    forall j | 0 <= j < |got| && got[j].thread == order[p] ensures j == i {
      assert order[got[j].position] == order[p];
      assert got[j].position == p;
    }
  }

  /** Over every run of page requests and order refreshes, with any set of threads eligible at
      each request: rows come in the order of the generation the reader started in, no thread
      comes twice, and a reader that reaches the last page was given every thread that was
      eligible throughout, exactly once. */
  lemma PagingSurvivesRefresh(r: Reader, run: seq<Event>)
    requires Opens(r) && r.order == [] && LegalRun(r, run)
    ensures var end := Exec(r, run);
      && Rising(end.got) && FromOrder(end.got, end.order)
      && (forall i, j :: 0 <= i < j < |end.got| ==> end.got[i].thread != end.got[j].thread)
      && (end.phase.Finished? ==> forall t :: t in end.always ==> ReturnsOnce(end.got, t))
  {
    RunKeeps(r, run);
    var end := Exec(r, run);
    if end.phase.Finished? {
      forall t | t in end.always ensures ReturnsOnce(end.got, t) {
        var p :| 0 <= p < |end.order| && end.order[p] == t;
        GivenOnce(end.got, end.order, p);
      }
    }
  }

  /** The next page is refused exactly when the mailbox was refreshed twice since the first page,
      and is otherwise cut from the complete order the reader started in. */
  lemma CursorExpiresOnSecondRefresh(r: Reader, run: seq<Event>, eligible: set<string>, limit: int)
    requires Opens(r) && r.order == [] && LegalRun(r, run) && Exec(r, run).phase.Following?
    ensures var end := Exec(r, run);
      var page := ListPage(end.orders, end.mailbox, eligible, limit, Some(end.phase.cursor), false);
      if end.refreshes >= 2 then page == Rejected
      else page == Cut(end.mailbox, end.generation, Matching(end.order, eligible, Some(end.phase.cursor), |end.order|), limit)
  {
    RunKeeps(r, run);
  }

  // ---------------------------------------------------------------------------------
  // Resolving and reading at two moments

  /** The code resolves the generation in one transaction and reads the page in a later one;
      orders and eligible threads may change in between. */
  function SplitPage(first: Orders, later: Orders, mailbox: string, before: set<string>, now: set<string>, limit: int, cursor: Option<Cursor>): Page {
    match Resolve(first, mailbox, before, cursor, false)
    case None => Rejected
    case Some(None) => ByDate
    case Some(Some(g)) => if mailbox in later then ReadPage(later[mailbox], mailbox, g, now, limit, cursor) else Cut(mailbox, g, [], limit)
  }

  /** Without a delay this is the page of one moment. */
  lemma PromptReadIsListPage(o: Orders, mailbox: string, eligible: set<string>, limit: int, cursor: Option<Cursor>)
    ensures SplitPage(o, o, mailbox, eligible, eligible, limit, cursor) == ListPage(o, mailbox, eligible, limit, cursor, false)
  {
  }

  predicate OnlyRefreshes(run: seq<Event>) {
    forall i :: 0 <= i < |run| ==> run[i].Refreshed?
  }

  /** The cursor of the reader's next request. */
  function CursorOf(r: Reader): Option<Cursor> {
    if r.phase.Following? then Some(r.phase.cursor) else None
  }

  /** Refreshes of the mailbox since the generation was published that the next request reads. */
  function Age(r: Reader): nat {
    if r.phase.Following? then r.refreshes else 0
  }

  /** A reader of the generation that the next request of this one resolves to. */
  function Pinned(r: Reader, g: string): Reader
    requires r.mailbox in r.orders
  {
    r.(phase := Finished, generation := g, order := EntriesOf(r.orders[r.mailbox], g), got := [], always := {}, refreshes := Age(r))
  }

  /** Refreshes act on the orders alone. */
  lemma {:induction false} SameRefreshes(r: Reader, q: Reader, run: seq<Event>)
    requires LegalRun(r, run) && OnlyRefreshes(run)
    requires q.mailbox == r.mailbox && q.orders == r.orders && q.issued == r.issued
    ensures LegalRun(q, run)
    ensures var a, b := Exec(r, run), Exec(q, run);
      && b == q.(orders := a.orders, issued := a.issued, refreshes := b.refreshes)
      && a.refreshes - r.refreshes == b.refreshes - q.refreshes >= 0
    decreases |run|
  {
    if run != [] {
      SameRefreshes(Step(r, run[0]), Step(q, run[0]), run[1..]);
    }
  }

  lemma PinnedHolds(r: Reader, before: set<string>, g: string)
    requires Inv(r) && (r.phase.Opening? || r.phase.Following?)
    requires Resolve(r.orders, r.mailbox, before, CursorOf(r), false) == Some(Some(g))
    ensures r.mailbox in r.orders && Inv(Pinned(r, g))
  {
  }

  /** A generation read after some refreshes is as it was resolved, or gone. */
  lemma PinnedKeptOrGone(r: Reader, run: seq<Event>, before: set<string>, g: string)
    requires Inv(r) && (r.phase.Opening? || r.phase.Following?) && LegalRun(r, run) && OnlyRefreshes(run)
    requires Resolve(r.orders, r.mailbox, before, CursorOf(r), false) == Some(Some(g))
    ensures var later := Exec(r, run);
      && r.mailbox in r.orders && r.mailbox in later.orders
      && EntriesOf(later.orders[r.mailbox], g) ==
           if Age(r) + later.refreshes - r.refreshes < 2 then EntriesOf(r.orders[r.mailbox], g) else []
  {
    PinnedHolds(r, before, g);
    var q := Pinned(r, g);
    SameRefreshes(r, q, run);
    RunKeeps(q, run);
    assert Holds(Exec(q, run));
  }

  /** A page whose reading is delayed past refreshes, the first page or a later one, is the page
      the reader should get if and only if it is not read in Gmail's order, its generation
      outlived the refreshes, or there was nothing left to read. Otherwise it is an empty last
      page. */
  lemma DelayedReadIsWhole(r: Reader, run: seq<Event>, before: set<string>, now: set<string>, limit: int)
    requires Inv(r) && (r.phase.Opening? || r.phase.Following?) && LegalRun(r, run) && OnlyRefreshes(run)
    ensures var c, later := CursorOf(r), Exec(r, run);
      var whole := SplitPage(r.orders, r.orders, r.mailbox, before, now, limit, c);
      var page := SplitPage(r.orders, later.orders, r.mailbox, before, now, limit, c);
      if !whole.Ranked? then page == whole
      else
        var order := EntriesOf(r.orders[r.mailbox], whole.generation);
        && (page == whole <==> Age(r) + later.refreshes - r.refreshes < 2 || Matching(order, now, c, |order|) == [])
        && (page != whole ==> page == Ranked(whole.generation, [], None))
  {
    var c, later := CursorOf(r), Exec(r, run);
    var whole := SplitPage(r.orders, r.orders, r.mailbox, before, now, limit, c);
    if whole.Ranked? {
      PinnedKeptOrGone(r, run, before, whole.generation);
      assert Matching([], now, c, 0) == [];
    }
  }

  /** A reader of a mailbox that ranks `a` before `b`. */
  const TWO_THREADS: Reader :=
    Reader("inbox", map["inbox" := LabelOrder("1", None, map["1" := ["a", "b"]])], {"1"}, Opening, "", [], [], {}, 0)

  lemma TwoThreadsOpens()
    ensures Opens(TWO_THREADS) && Inv(TWO_THREADS)
    ensures Resolve(TWO_THREADS.orders, "inbox", {"a", "b"}, None, false) == Some(Some("1"))
  {
    assert Retains(TWO_THREADS.orders["inbox"], "1");
  }

  lemma FirstOfTwo() returns (r: Reader)
    ensures r == Step(TWO_THREADS, Fetched({"a", "b"}, 1)) && Inv(r)
    ensures r == TWO_THREADS.(phase := Following(Cursor("inbox", "1", 0, "a")),
      generation := "1", order := ["a", "b"], got := [Entry(0, "a")], always := {"a", "b"})
  {
    TwoThreadsOpens();
    r := FirstPageOfTwo(TWO_THREADS);
    FirstFetchKeeps(TWO_THREADS, {"a", "b"}, 1);
  }

  /** Otherwise the reader is told, with an empty last page, that it has seen everything. Here two
      refreshes come between resolving and reading: on the first page neither thread is returned,
      on the second thread `b` is not. */
  lemma DelayedReadTruncates() returns (r: Reader, run: seq<Event>)
    ensures Opens(TWO_THREADS) && r == Step(TWO_THREADS, Fetched({"a", "b"}, 1))
    ensures r.phase.Following? && r.got == [Entry(0, "a")] && r.order == ["a", "b"] && r.always == {"a", "b"}
    ensures LegalRun(TWO_THREADS, run) && LegalRun(r, run) && |run| == 2
    ensures SplitPage(TWO_THREADS.orders, Exec(TWO_THREADS, run).orders, "inbox", {"a", "b"}, {"a", "b"}, 1, None) == Ranked("1", [], None)
    ensures SplitPage(r.orders, Exec(r, run).orders, "inbox", {"a", "b"}, {"a", "b"}, 1, Some(r.phase.cursor)) == Ranked("1", [], None)
  {
    TwoThreadsOpens();
    r := FirstOfTwo();
    run := TwoRefreshes(r);
    Truncated(r, run);
    SameRefreshes(r, TWO_THREADS, run);
    Truncated(TWO_THREADS, run);
  }

  lemma Truncated(r: Reader, run: seq<Event>)
    requires Inv(r) && (r.phase.Opening? || r.phase.Following?) && r.refreshes == 0 && LegalRun(r, run) && OnlyRefreshes(run)
    requires Resolve(r.orders, r.mailbox, {"a", "b"}, CursorOf(r), false) == Some(Some("1")) && Exec(r, run).refreshes == 2
    ensures SplitPage(r.orders, Exec(r, run).orders, r.mailbox, {"a", "b"}, {"a", "b"}, 1, CursorOf(r)) == Ranked("1", [], None)
  {
    PinnedKeptOrGone(r, run, {"a", "b"}, "1");
    assert Matching([], {"a", "b"}, CursorOf(r), 0) == [];
  }

  lemma TwoRefreshes(r: Reader) returns (run: seq<Event>)
    requires r.issued == {"1"}
    ensures LegalRun(r, run) && |run| == 2 && run[0].Refreshed? && run[1].Refreshed?
    ensures Exec(r, run).refreshes == r.refreshes + 2
  {
    var e1, e2 := Refreshed(map[r.mailbox := []], map[r.mailbox := "2"]), Refreshed(map[r.mailbox := []], map[r.mailbox := "3"]);
    run := [e1, e2];
    assert Step(r, e1).issued == {"1"} + {"2"};
    TwoSteps(r, e1, e2);
  }

  lemma FirstPageOfTwo(start: Reader) returns (r: Reader)
    requires start.phase.Opening? && start.got == [] && start.mailbox in start.orders
    requires EntriesOf(start.orders[start.mailbox], start.orders[start.mailbox].active) == ["a", "b"]
    ensures r == Step(start, Fetched({"a", "b"}, 1))
    ensures r == start.(phase := Following(Cursor(start.mailbox, start.orders[start.mailbox].active, 0, "a")),
      generation := start.orders[start.mailbox].active, order := ["a", "b"], got := [Entry(0, "a")], always := {"a", "b"}, refreshes := 0)
  {
    r := Step(start, Fetched({"a", "b"}, 1));
    var order, both := ["a", "b"], {"a", "b"};
    assert Matching(order, both, None, 1) == [Entry(0, "a")];
    assert Matching(order, both, None, 2) == [Entry(0, "a"), Entry(1, "b")];
    assert start.got + [Entry(0, "a")] == [Entry(0, "a")];
  }

  lemma TwoSteps(r: Reader, e1: Event, e2: Event)
    requires Legal(r, e1) && Legal(Step(r, e1), e2)
    ensures LegalRun(r, [e1, e2]) && Exec(r, [e1, e2]) == Step(Step(r, e1), e2)
  {
    assert [e1, e2][1..] == [e2];
    assert [e2][1..] == [];
    assert LegalRun(Step(Step(r, e1), e2), []);
    assert LegalRun(Step(r, e1), [e2]);
    assert Exec(Step(r, e1), [e2]) == Exec(Step(Step(r, e1), e2), []);
  }

  // ---------------------------------------------------------------------------------
  // The tables

  const MAILBOXES: set<string> := {"inbox", "sent", "drafts", "spam", "trash", "archive", "starred", "all"}

  class OrderTables {
    var orders: Orders

    constructor ()
      ensures orders == map[]
    {
      orders := map[];
    }

    method PublishMailbox(mailbox: string, id: string, threads: seq<string>)
      modifies this
      ensures orders == old(orders)[mailbox := Publish(At(old(orders), mailbox), id, threads)]
      ensures orders[mailbox].active == id && EntriesOf(orders[mailbox], id) == Unique(Named(threads))
      ensures mailbox in old(orders) && old(orders)[mailbox].active != id ==>
        var was := old(orders)[mailbox];
        Retains(orders[mailbox], was.active) && EntriesOf(orders[mailbox], was.active) == EntriesOf(was, was.active)
      ensures forall g :: g != id && Some(g) != orders[mailbox].previous ==> !Retains(orders[mailbox], g) && EntriesOf(orders[mailbox], g) == []
    {
      var previous := if mailbox in orders then Some(orders[mailbox].active) else None;
      var entries := if mailbox in orders then orders[mailbox].entries else map[];
      entries := entries[id := Unique(Named(threads))];
      orders := orders[mailbox := LabelOrder(id, previous, entries)];
      entries := map k | k in entries && (k == id || Some(k) == previous) :: entries[k];
      assert entries == Publish(At(old(orders), mailbox), id, threads).entries;
      orders := orders[mailbox := orders[mailbox].(entries := entries)];
    }

    /** Publishes every mailbox of the request, or none when one is not known. */
    method Replace(requests: map<string, seq<string>>, ids: map<string, string>) returns (ok: bool)
      requires requests.Keys <= ids.Keys
      modifies this
      ensures ok <==> requests.Keys <= MAILBOXES
      ensures orders == if ok then Refresh(old(orders), requests, ids) else old(orders)
    {
      ok := requests.Keys <= MAILBOXES;
      if !ok {
        return;
      }
      var rest := requests.Keys;
      while rest != {}
        invariant rest <= requests.Keys
        invariant orders.Keys == old(orders).Keys + (requests.Keys - rest)
        invariant forall m :: m in orders ==>
          orders[m] == (if m in requests && m !in rest then Publish(At(old(orders), m), ids[m], requests[m]) else old(orders)[m])
        decreases rest
      {
        var mailbox :| mailbox in rest;
        rest := rest - {mailbox};
        PublishMailbox(mailbox, ids[mailbox], requests[mailbox]);
      }
    }

    /** Scans the order for one row more than the page shows. */
    method List(mailbox: string, eligible: set<string>, limit: int, cursor: Option<Cursor>, filtered: bool) returns (page: Page)
      ensures page == ListPage(orders, mailbox, eligible, limit, cursor, filtered)
      ensures cursor.Some? ==> !page.ByDate?
      ensures cursor.Some? ==> (page.Rejected? <==>
        || filtered || cursor.value.mailbox != mailbox || mailbox !in orders
        || (cursor.value.generation != orders[mailbox].active && orders[mailbox].previous != Some(cursor.value.generation)))
      ensures cursor.None? ==> !page.Rejected?
      ensures cursor.None? ==> (page.ByDate? <==>
        filtered || mailbox !in orders || exists t :: t in eligible && t !in EntriesOf(orders[mailbox], orders[mailbox].active))
      ensures page.Ranked? ==> page.generation == if cursor.Some? then cursor.value.generation else orders[mailbox].active
    {
      var g := Resolve(orders, mailbox, eligible, cursor, filtered);
      if g.None? {
        return Rejected;
      } else if g.value.None? {
        return ByDate;
      }
      var order, size := EntriesOf(orders[mailbox], g.value.value), Max(1, limit);
      var rows: seq<Entry> := [];
      var p := 0;
      while p < |order| && |rows| <= size
        invariant 0 <= p <= |order| && |rows| <= size + 1
        invariant rows == Matching(order, eligible, cursor, p)
      {
        var e := Entry(p, order[p]);
        if e.thread in eligible && Behind(e, cursor) {
          rows := rows + [e];
        }
        p := p + 1;
      }
      MatchingGrows(order, eligible, cursor, p, |order|);
      var shown := if |rows| > size then rows[..size] else rows;
      var next := None;
      if |rows| > size {
        next := Some(Cursor(mailbox, g.value.value, shown[size - 1].position, shown[size - 1].thread));
      }
      page := Ranked(g.value.value, shown, next);
    }
  }

  lemma {:induction false} MatchingGrows(order: seq<string>, eligible: set<string>, after: Option<Cursor>, p: nat, n: nat)
    requires p <= n <= |order|
    ensures Matching(order, eligible, after, p) <= Matching(order, eligible, after, n)
  {
    if p < n {
      MatchingGrows(order, eligible, after, p, n - 1);
    }
  }
}
