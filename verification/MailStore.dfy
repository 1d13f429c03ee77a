/** The mail tables of one account and every repository function that changes them
    (backend/app/db/mail_groups.py), each as one atomic step. The import-state row is always
    present; a missing row behaves like the default one. */
module MailStore {
  import opened Basics
  import opened Messages

  datatype Phase =
    | DiscoveringRecent | ImportingMetadata | HydratingPriorityContent | Usable
    | SyncingHistory | SyncingRecent | Complete | FailedPhase

  /** Progressive-sync columns of `gmail_import_state`. */
  datatype Sync = Sync(
    generation: Option<string>,
    phase: Option<Phase>,
    target: nat,
    metadata: nat,
    bodyTarget: nat,
    bodyReady: nat,
    historyMetadata: nat,
    historyBody: nat,
    estimated: nat,
    windowComplete: bool,
    metadataComplete: bool,
    bodyComplete: bool)

  /** Reconciliation columns of `gmail_import_state`. */
  datatype Recon = Recon(generation: Option<string>, cursor: Option<string>, baseline: Option<string>, startedAt: Option<nat>)

  /** Cursor and milestone columns of `gmail_import_state`. */
  datatype Marks = Marks(lastHistory: Option<string>, authoritative: bool, firstBatch: bool, backfilled: bool, descriptorsComplete: bool)

  datatype Entry = Entry(position: nat, metadataReady: bool, bodyReady: bool, messages: nat)

  type Window = map<string, Entry>

  datatype Store = Store(
    clock: nat,
    sync: Sync,
    recon: Recon,
    marks: Marks,
    seen: set<(string, string)>,
    windows: map<string, Window>,
    messages: map<string, Row>)

  const FRESH: Store := Store(
    0, Sync(None, None, 0, 0, 0, 0, 0, 0, 0, false, false, false), Recon(None, None, None, None),
    Marks(None, false, false, false, false), {}, map[], map[])

  // ---------------------------------------------------------------------------------
  // Derived values

  /** The thread of a message, or the message itself when it has none. */
  function Key(id: string, r: Row): string {
    if r.thread.Some? && r.thread.value != "" then r.thread.value else id
  }

  function Threads(m: map<string, Row>): set<string> {
    set id | id in m :: Key(id, m[id])
  }

  /** Every message of the thread has a terminal body. */
  predicate ThreadReady(m: map<string, Row>, t: string) {
    forall id :: id in m && Key(id, m[id]) == t ==> Terminal(m[id].status)
  }

  function ReadyThreads(m: map<string, Row>): set<string> {
    set t | t in Threads(m) && ThreadReady(m, t)
  }

  predicate AllTerminal(m: map<string, Row>) {
    forall id :: id in m ==> Terminal(m[id].status)
  }

  function MessagesOf(m: map<string, Row>, t: string): set<string> {
    set id | id in m && Key(id, m[id]) == t
  }

  function WindowOf(s: Store, g: string): Window {
    if g in s.windows then s.windows[g] else map[]
  }

  /** The window of the active progressive generation. */
  function ActiveWindow(s: Store): Window {
    if s.sync.generation.Some? then WindowOf(s, s.sync.generation.value) else map[]
  }

  function WithWindow(s: Store, g: string, w: Window): Store {
    s.(windows := s.windows[g := w])
  }

  function MetadataReady(w: Window): set<string> {
    set t | t in w && w[t].metadataReady
  }

  function BodiesReady(w: Window, below: nat): set<string> {
    set t | t in w && w[t].bodyReady && w[t].position < below
  }

  // ---------------------------------------------------------------------------------
  // Message writes

  function UpsertRow(m: map<string, Row>, id: string, ex: Row, now: nat): map<string, Row> {
    m[id := if id in m then Merge(m[id], Params(ex), now) else Params(ex).(updatedAt := now)]
  }

  function UpsertRows(m: map<string, Row>, rows: seq<(string, Row)>, now: nat): map<string, Row> {
    if rows == [] then m
    else
      var last := rows[|rows| - 1];
      UpsertRow(UpsertRows(m, rows[..|rows| - 1], now), last.0, last.1, now)
  }

  /** New unfinished bodies reopen a finished history. */
  function Reopen(s: Store): Store {
    if s.sync.generation.Some? && s.sync.metadataComplete && !AllTerminal(s.messages) then
      s.(sync := s.sync.(
        bodyComplete := false,
        phase := if s.sync.phase == Some(Complete) then Some(SyncingRecent) else s.sync.phase))
    else s
  }

  function UpsertOn(s: Store, rows: seq<(string, Row)>): Store {
    if rows == [] then s else Reopen(s.(messages := UpsertRows(s.messages, rows, s.clock)))
  }

  function Upsert(s: Store, rows: seq<(string, Row)>): Store {
    UpsertOn(s, rows)
  }

  function ForceLabels(s: Store, labels: map<string, string>): Store {
    s.(messages := map id | id in s.messages ::
      if id in labels && id != "" then WithLabels(s.messages[id], labels[id], s.clock) else s.messages[id])
  }

  function AiTitles(s: Store, titles: map<string, string>): Store {
    s.(messages := map id | id in s.messages ::
      if id in titles then WithTitle(s.messages[id], titles[id], s.clock) else s.messages[id])
  }

  /** Body progress of the active generation, recomputed from window and messages. */
  function BodyProgress(s: Store): Store {
    if s.sync.generation.None? then s
    else
      var ready := |BodiesReady(ActiveWindow(s), s.sync.bodyTarget)|;
      var done := s.sync.metadataComplete && AllTerminal(s.messages);
      s.(sync := s.sync.(
        bodyReady := Max(s.sync.bodyReady, ready),
        historyBody := Max(s.sync.historyBody, Min(s.sync.historyMetadata, |ReadyThreads(s.messages)|)),
        phase :=
          if done then Some(Complete)
          else if s.sync.windowComplete && ready >= s.sync.bodyTarget
            && s.sync.phase in {Some(DiscoveringRecent), Some(ImportingMetadata), Some(HydratingPriorityContent)}
          then Some(Usable)
          else s.sync.phase,
        bodyComplete := s.sync.bodyComplete || done))
  }

  /** Marks window entries of the listed threads whose bodies are all terminal. */
  function SettleBodies(s: Store, threads: set<string>): Store {
    if s.sync.generation.None? then s
    else
      var w := ActiveWindow(s);
      WithWindow(s, s.sync.generation.value, map t | t in w ::
        if t in threads && ThreadReady(s.messages, t) then w[t].(bodyReady := true) else w[t])
  }

  function BodyRows(m: map<string, Row>, rows: seq<(string, Row)>): map<string, Row> {
    if rows == [] then m
    else
      var prior := BodyRows(m, rows[..|rows| - 1]);
      var last := rows[|rows| - 1];
      if last.0 in prior then prior[last.0 := WithBody(prior[last.0], Params(last.1))] else prior
  }

  lemma {:induction false} BodyRowsKeys(m: map<string, Row>, rows: seq<(string, Row)>)
    ensures BodyRows(m, rows).Keys == m.Keys
    decreases |rows|
  {
    if rows != [] {
      BodyRowsKeys(m, rows[..|rows| - 1]);
    }
  }

  function RecordThreads(rows: seq<(string, Row)>): set<string> {
    set i | 0 <= i < |rows| && Key(rows[i].0, rows[i].1) != "" :: Key(rows[i].0, rows[i].1)
  }

  predicate AllFetched(rows: seq<(string, Row)>) {
    forall i :: 0 <= i < |rows| ==> rows[i].1.status.Fetched?
  }

  /** Downloaded bodies; rejected as a whole unless every record is fetched. */
  function UpdateBodies(s: Store, rows: seq<(string, Row)>): Store {
    if rows == [] || !AllFetched(rows) then s
    else
      var t := s.(messages := BodyRows(s.messages, rows));
      BodyProgress(if RecordThreads(rows) == {} then t else SettleBodies(t, RecordThreads(rows)))
  }

  function MarkedRows(m: map<string, Row>, ids: set<string>, status: BodyStatus): map<string, Row> {
    map id | id in m :: if id in ids then WithStatus(m[id], status) else m[id]
  }

  function Markable(m: map<string, Row>, ids: set<string>, status: BodyStatus): set<string> {
    set id | id in m && id in ids && MayMark(m[id], status)
  }

  function MarkBodies(s: Store, ids: set<string>, status: BodyStatus): Store {
    var named := ids - {""};
    if named == {} then s
    else
      var t := s.(messages := MarkedRows(s.messages, named, status));
      if Markable(s.messages, named, status) != {} && Terminal(status)
      then BodyProgress(SettleBodies(t, set id | id in t.messages && id in named :: Key(id, t.messages[id])))
      else t
  }

  function RecheckBodies(s: Store): Store {
    BodyProgress(s)
  }

  function Counted(s: Store): Store {
    var w := ActiveWindow(s);
    s.(sync := s.sync.(
      target := Max(s.sync.target, |w|),
      metadata := Max(s.sync.metadata, |MetadataReady(w)|),
      bodyTarget := Max(s.sync.bodyTarget, Min(25, |w|)),
      bodyReady := Max(s.sync.bodyReady, |BodiesReady(w, 25)|),
      windowComplete := s.sync.windowComplete || |MetadataReady(w)| >= |w|))
  }

  /** Window entries of the listed threads once some of their messages are gone. */
  function Vacated(m: map<string, Row>, w: Window, gone: set<string>): Window {
    map k | k in w ::
      if k in gone && MessagesOf(m, k) == {} then w[k].(metadataReady := true, bodyReady := true, messages := 0)
      else if k in gone && ThreadReady(m, k) then w[k].(bodyReady := true)
      else w[k]
  }

  /** Deleting messages settles the window entries they leave empty or complete. */
  function Delete(s: Store, ids: set<string>): Store {
    var named := ids - {""};
    var gone := set id | id in s.messages && id in named :: Key(id, s.messages[id]);
    var t := s.(messages := map id | id in s.messages && id !in named :: s.messages[id]);
    if s.sync.generation.None? || forall k :: k in gone ==> k !in ActiveWindow(s) || !ThreadReady(t.messages, k) then t
    else
      BodyProgress(Counted(WithWindow(t, s.sync.generation.value, Vacated(t.messages, ActiveWindow(s), gone))))
  }

  // ---------------------------------------------------------------------------------
  // Import lifecycle

  function ImportStarted(s: Store): Store {
    if s.sync.generation.Some? && s.sync.metadataComplete then s.(sync := s.sync.(phase := Some(SyncingRecent))) else s
  }

  function ImportFailed(s: Store): Store {
    if s.sync.generation.Some? then s.(sync := s.sync.(phase := Some(FailedPhase))) else s
  }

  /** Milestones of an import; a new backfill cursor withdraws an earlier completion. */
  function ImportCompleted(s: Store, first: bool, cursor: bool, finished: bool): Store {
    s.(marks := s.marks.(
      firstBatch := s.marks.firstBatch || first,
      backfilled := finished || (s.marks.backfilled && !cursor)))
  }

  /** A trusted cursor only moves forward; an untrusted one is replaced. */
  function NextHistory(m: Marks, h: string): Option<string>
    requires IsDigits(h)
  {
    if !m.authoritative then Some(h)
    else if !Numeric(m.lastHistory) then Some(h)
    else if Value(h) >= Value(m.lastHistory.value) then Some(h)
    else m.lastHistory
  }

  function HistoryDelta(s: Store, h: string): Store {
    if !IsDigits(h) then s
    else s.(
      marks := s.marks.(lastHistory := NextHistory(s.marks, h), authoritative := true),
      sync := s.sync.(phase :=
        if s.sync.generation.None? then s.sync.phase
        else if s.sync.bodyComplete then Some(Complete)
        else Some(Usable)))
  }

  predicate MaxDate(m: map<string, Row>, t: string, n: Option<nat>) {
    && (n.None? ==> forall id :: id in m && Key(id, m[id]) == t ==> m[id].date.None?)
    && (n.Some? ==> exists id :: id in m && Key(id, m[id]) == t && m[id].date == n)
    && (n.Some? ==> forall id :: id in m && Key(id, m[id]) == t && m[id].date.Some? ==> m[id].date.value <= n.value)
  }

  /** `a` is listed before `b`: newer, dated before undated, the greater thread id on a tie. */
  predicate Precedes(a: string, da: Option<nat>, b: string, db: Option<nat>) {
    || (da.Some? && db.None?)
    || (da.Some? && db.Some? && da.value > db.value)
    || (da == db && Less(b, a))
  }

  /** `ranked` lists the stored threads, newest first. */
  ghost predicate RanksThreads(m: map<string, Row>, ranked: seq<string>) {
    && Distinct(ranked)
    && (forall t :: t in ranked <==> exists id :: id in m && m[id].thread == Some(t) && t != "")
    && (forall i, j, da, db :: 0 <= i < j < |ranked| && MaxDate(m, ranked[i], da) && MaxDate(m, ranked[j], db) ==>
          Precedes(ranked[i], da, ranked[j], db))
  }

  /** Window rows for the listed threads by rank; existing rows stay. */
  function Ranked(m: map<string, Row>, w: Window, ranked: seq<string>): Window {
    if ranked == [] then w
    else
      var n := |ranked| - 1;
      var prior := Ranked(m, w, ranked[..n]);
      if ranked[n] in prior then prior
      else prior[ranked[n] := Entry(n, true, ThreadReady(m, ranked[n]), |MessagesOf(m, ranked[n])|)]
  }

  /** Adopts a mailbox that was imported before progressive sync existed. */
  function Activate(s: Store, g: string, complete: bool, ranked: seq<string>): Store {
    if g == "" || s.sync.generation.Some? || !s.marks.firstBatch then s
    else
      var w := Ranked(s.messages, WindowOf(s, g), ranked[..Min(100, |ranked|)]);
      var metadataComplete := complete || s.marks.backfilled;
      var bodyComplete := metadataComplete && AllTerminal(s.messages);
      var threads := |Threads(s.messages)|;
      WithWindow(s, g, w).(sync := s.sync.(
        generation := Some(g),
        target := |w|,
        metadata := |w|,
        bodyTarget := Min(25, |w|),
        bodyReady := Min(Min(25, |w|), |BodiesReady(w, 25)|),
        historyMetadata := threads,
        historyBody := Min(threads, |ReadyThreads(s.messages)|),
        estimated := Max(s.sync.estimated, threads),
        windowComplete := true,
        metadataComplete := metadataComplete,
        bodyComplete := bodyComplete,
        phase := if bodyComplete then Some(Complete) else if metadataComplete then Some(SyncingHistory) else Some(Usable)))
  }

  /** Binds progress to the active reconciliation generation; a new one starts from zero. */
  function StartSync(s: Store, g: string): Store {
    if g == "" || s.recon.generation != Some(g) then s
    else
      var sync :=
        if s.sync.generation == Some(g) then
          s.sync.(phase := if s.sync.phase.Some? then s.sync.phase else Some(DiscoveringRecent))
        else
          Sync(Some(g), Some(DiscoveringRecent), 0, 0, 0, 0, 0, 0, 0, false, false, false);
      s.(sync := sync, windows := map k | k in s.windows && k == g :: s.windows[k])
  }

  function Enumerated(threads: seq<string>): (w: Window)
    ensures forall t :: t in w <==> t in threads
  {
    if threads == [] then map[]
    else
      var n := |threads| - 1;
      assert threads == threads[..n] + [threads[n]];
      var w := Enumerated(threads[..n]);
      if threads[n] in w then w else w[threads[n] := Entry(n, false, false, 0)]
  }

  predicate AlreadyDiscovered(s: Store, g: string) {
    || WindowOf(s, g) != map[]
    || s.sync.phase !in {None, Some(DiscoveringRecent), Some(FailedPhase)}
  }

  function FirstHundred(threads: seq<string>): seq<string> {
    var u := Unique(Named(threads));
    u[..Min(100, |u|)]
  }

  /** Persists one provider discovery; a later one changes nothing. */
  function InitWindow(s: Store, g: string, threads: seq<string>, estimate: int): Store {
    if s.sync.generation != Some(g) || AlreadyDiscovered(s, g) then s
    else
      var u := FirstHundred(threads);
      WithWindow(s, g, Enumerated(u)).(
        marks := s.marks.(firstBatch := s.marks.firstBatch || u == []),
        sync := s.sync.(
          target := |u|,
          bodyTarget := Min(25, |u|),
          estimated := Max(s.sync.estimated, Max(0, estimate)),
          windowComplete := u == [],
          phase := if u == [] then Some(SyncingHistory) else Some(ImportingMetadata)))
  }

  predicate BatchRejected(threads: seq<string>, missing: seq<string>) {
    || (exists t :: t in threads && t != "" && t in missing)
    || |(set t | t in threads && t != "") + (set t | t in missing && t != "")| > 25
  }

  function Hydrated(m: map<string, Row>, w: Window, threads: seq<string>): Window {
    map t | t in w ::
      if t in threads && t != "" then
        w[t].(metadataReady := true, messages := |MessagesOf(m, t)|,
              bodyReady := w[t].bodyReady || (MessagesOf(m, t) != {} && ThreadReady(m, t)))
      else w[t]
  }

  function TerminallyMissing(w: Window, missing: seq<string>): Window {
    map t | t in w ::
      if t in missing && t != "" then w[t].(metadataReady := true, bodyReady := true, messages := 0) else w[t]
  }

  /** Window entries, counters and phase after a published batch. */
  function SettleBatch(s: Store, g: string, threads: seq<string>): Store {
    var w := Hydrated(s.messages, WindowOf(s, g), threads);
    var complete := |MetadataReady(w)| >= |w|;
    var t := Counted(WithWindow(s, g, w));
    t.(
      marks := t.marks.(firstBatch := t.marks.firstBatch || MetadataReady(w) != {} || w == map[]),
      sync := t.sync.(phase :=
        if complete && |BodiesReady(w, 25)| >= Min(25, |w|) then Some(Usable)
        else if complete then Some(HydratingPriorityContent)
        else Some(ImportingMetadata)))
  }

  /** Publishes at most 25 conversations of the initial window with their progress. */
  function CommitWindow(s: Store, g: string, threads: seq<string>, rows: seq<(string, Row)>, missing: seq<string>): Store {
    if s.sync.generation != Some(g) || BatchRejected(threads, missing) then s
    else SettleBatch(UpsertOn(WithWindow(s, g, TerminallyMissing(WindowOf(s, g), missing)), rows), g, threads)
  }

  // ---------------------------------------------------------------------------------
  // Reconciliation

  function StartRecon(s: Store, g: string, baseline: string, cursor: string): Store {
    if g == "" || cursor == "" || !IsDigits(baseline) then s
    else
      var t :=
        if s.recon.generation.None? then
          s.(recon := Recon(Some(g), Some(cursor), Some(baseline), Some(s.clock)), marks := s.marks.(authoritative := false))
        else s;
      t.(seen := (set x | x in t.seen && x.0 == t.recon.generation.value))
  }

  /** The page is the next one of the active scan. */
  predicate NextPage(s: Store, g: string, expected: string) {
    s.recon.generation == Some(g) && s.recon.cursor == Some(expected)
  }

  function Record(s: Store, g: string, ids: seq<string>): Store {
    s.(seen := s.seen + (set id | id in ids && id != "" :: (g, id)))
  }

  function RecordPage(s: Store, g: string, expected: string, next: Option<string>, ids: seq<string>): Store {
    if !NextPage(s, g, expected) then s
    else Record(s.(recon := s.recon.(cursor := next)), g, ids)
  }

  function Ids(rows: seq<(string, Row)>): seq<string> {
    seq(|rows|, i requires 0 <= i < |rows| => rows[i].0)
  }

  function SeenThreads(s: Store, g: string): set<string> {
    set id | id in s.messages && (g, id) in s.seen :: Key(id, s.messages[id])
  }

  /** A page of a history scan together with its conversations and progress. */
  function CommitPage(s: Store, g: string, expected: string, next: Option<string>, rows: seq<(string, Row)>, count: int, estimate: int): Store {
    if count > 100 || !NextPage(s, g, expected) || s.sync.generation != Some(g) then s
    else
      var s1 := s.(
        recon := s.recon.(cursor := next),
        sync := s.sync.(
          phase :=
            if s.sync.phase in {Some(Complete), Some(FailedPhase)} then s.sync.phase
            else if s.sync.windowComplete && s.sync.bodyReady >= Min(25, s.sync.bodyTarget) then Some(SyncingHistory)
            else s.sync.phase,
          estimated := Max(s.sync.estimated, Max(0, estimate))));
      var s2 := Record(UpsertOn(s1, rows), g, Ids(rows));
      s2.(sync := s2.sync.(historyMetadata := Max(s2.sync.historyMetadata, Max(|SeenThreads(s2, g)|, Max(0, count)))))
  }

  /** Identities of the final delta, accepted only after the last page. */
  function RecordSeen(s: Store, g: string, ids: seq<string>): Store {
    if s.recon.generation == Some(g) && s.recon.cursor == None then Record(s, g, ids) else s
  }

  /** The row is absent from the scan and not newer than it. */
  predicate Swept(s: Store, g: string, final: string, id: string)
    requires id in s.messages && IsDigits(final) && s.recon.startedAt.Some?
  {
    var r := s.messages[id];
    && (g, id) !in s.seen
    && (if Numeric(r.history) then Value(r.history.value) <= Value(final) else r.updatedAt <= s.recon.startedAt.value)
  }

  predicate MayFinalize(s: Store, g: string, final: string) {
    IsDigits(final) && s.recon.generation == Some(g) && s.recon.cursor == None && s.recon.startedAt.Some?
  }

  /** Sweeps absent rows and publishes the new cursor and progress. */
  function Finalize(s: Store, g: string, final: string): Store {
    if !MayFinalize(s, g, final) then s
    else
      var m := map id | id in s.messages && !Swept(s, g, final, id) :: s.messages[id];
      var threads := |Threads(m)|;
      s.(
        messages := m,
        recon := Recon(None, None, None, None),
        marks := s.marks.(lastHistory := NextHistory(s.marks, final), authoritative := true, backfilled := true),
        seen := (set x | x in s.seen && x.0 != g),
        sync := s.sync.(
          historyMetadata := Max(s.sync.historyMetadata, threads),
          historyBody := Max(s.sync.historyBody, |ReadyThreads(m)|),
          estimated := Max(s.sync.estimated, threads),
          metadataComplete := true,
          bodyComplete := AllTerminal(m),
          phase :=
            if AllTerminal(m) then Some(Complete)
            else if s.sync.windowComplete && s.sync.bodyReady >= Min(25, s.sync.bodyTarget) then Some(SyncingHistory)
            else s.sync.phase))
  }

  function Reset(s: Store, g: string): Store {
    var t := if s.recon.generation == Some(g) then
      s.(recon := Recon(None, None, None, None), marks := s.marks.(authoritative := false)) else s;
    t.(seen := (set x | x in t.seen && x.0 != g))
  }

  // ---------------------------------------------------------------------------------
  // Descriptor backfill

  function Unready(m: map<string, Row>): set<string> {
    set id | id in m && !m[id].descriptorsReady
  }

  function Beyond(ids: set<string>, after: Option<string>): set<string> {
    set id | id in ids && (after.Some? ==> Less(after.value, id))
  }

  /** `page` holds the first `limit` of the ids in text order. */
  ghost predicate FirstOf(ids: set<string>, limit: nat, page: seq<string>) {
    && |page| == Min(limit, |ids|)
    && (forall i :: 0 <= i < |page| ==> page[i] in ids)
    && (forall i, j :: 0 <= i < j < |page| ==> Less(page[i], page[j]))
    && (forall id :: id in ids && id !in page ==> forall i :: 0 <= i < |page| ==> Less(page[i], id))
  }

  function Described(m: map<string, Row>, page: seq<string>, descriptors: map<string, string>, now: nat): map<string, Row> {
    map id | id in m ::
      if id in page then WithDescriptors(m[id], if id in descriptors then descriptors[id] else "[]", now) else m[id]
  }

  /** The rows of the page become ready; completion is published only when none is left. */
  function DescribePage(s: Store, after: Option<string>, page: seq<string>, descriptors: map<string, string>): Store {
    var t := s.(messages := Described(s.messages, page, descriptors, s.clock));
    var cursor := PageCursor(after, page);
    if Beyond(Unready(t.messages), cursor) != {} then t
    else t.(marks := t.marks.(descriptorsComplete := Unready(t.messages) == {}))
  }

  function PageCursor(after: Option<string>, page: seq<string>): Option<string> {
    if page == [] then after else Some(page[|page| - 1])
  }

  /** The cursor handed back: none when the pass restarts from the beginning. */
  function NextCursor(s: Store, after: Option<string>, page: seq<string>, descriptors: map<string, string>): Option<string> {
    var left := Unready(DescribePage(s, after, page, descriptors).messages);
    var cursor := PageCursor(after, page);
    if Beyond(left, cursor) == {} && left != {} then None else cursor
  }

  // ---------------------------------------------------------------------------------
  // One step of the store

  /** Writers of stored messages. */
  datatype MailOp =
    | DoUpsert(rows: seq<(string, Row)>)
    | DoForceLabels(labels: map<string, string>)
    | DoAiTitles(titles: map<string, string>)
    | DoUpdateBodies(rows: seq<(string, Row)>)
    | DoMarkBodies(targets: set<string>, status: BodyStatus)
    | DoDelete(targets: set<string>)
    | DoDescribePage(after: Option<string>, page: seq<string>, descriptors: map<string, string>)

  /** Writers of the import lifecycle. */
  datatype LifeOp =
    | DoRecheckBodies
    | DoImportStarted
    | DoImportFailed
    | DoImportCompleted(first: bool, cursor: bool, finished: bool)
    | DoHistoryDelta(history: string)
    | DoActivate(generation: string, complete: bool, ranked: seq<string>)
    | DoStartSync(generation: string)
    | DoInitWindow(generation: string, threads: seq<string>, estimate: int)
    | DoCommitWindow(generation: string, threads: seq<string>, rows: seq<(string, Row)>, missing: seq<string>)

  /** The reconciliation scan. */
  datatype ScanOp =
    | DoStartRecon(generation: string, baseline: string, cursor: string)
    | DoRecordPage(generation: string, expected: string, next: Option<string>, ids: seq<string>)
    | DoCommitPage(generation: string, expected: string, next: Option<string>, rows: seq<(string, Row)>, count: int, estimate: int)
    | DoRecordSeen(generation: string, ids: seq<string>)
    | DoFinalize(generation: string, history: string)
    | DoReset(generation: string)

  datatype Op = Mail(mail: MailOp) | Life(life: LifeOp) | Scan(scan: ScanOp)

  /** What the database itself guarantees about the values a step is given. */
  ghost predicate Legal(s: Store, op: Op) {
    match op
    case Life(DoActivate(_, _, ranked)) => RanksThreads(s.messages, ranked)
    case Mail(DoDescribePage(after, page, _)) =>
      exists limit: nat :: 1 <= limit <= 25 && FirstOf(Beyond(Unready(s.messages), after), limit, page)
    case _ => true
  }

  function PerformMail(s: Store, op: MailOp): Store {
    match op
    case DoUpsert(rows) => Upsert(s, rows)
    case DoForceLabels(labels) => ForceLabels(s, labels)
    case DoAiTitles(titles) => AiTitles(s, titles)
    case DoUpdateBodies(rows) => UpdateBodies(s, rows)
    case DoMarkBodies(ids, status) => MarkBodies(s, ids, status)
    case DoDelete(ids) => Delete(s, ids)
    case DoDescribePage(after, page, descriptors) => DescribePage(s, after, page, descriptors)
  }

  function PerformLife(s: Store, op: LifeOp): Store {
    match op
    case DoRecheckBodies => RecheckBodies(s)
    case DoImportStarted => ImportStarted(s)
    case DoImportFailed => ImportFailed(s)
    case DoImportCompleted(first, cursor, finished) => ImportCompleted(s, first, cursor, finished)
    case DoHistoryDelta(h) => HistoryDelta(s, h)
    case DoActivate(g, complete, ranked) => Activate(s, g, complete, ranked)
    case DoStartSync(g) => StartSync(s, g)
    case DoInitWindow(g, threads, estimate) => InitWindow(s, g, threads, estimate)
    case DoCommitWindow(g, threads, rows, missing) => CommitWindow(s, g, threads, rows, missing)
  }

  function PerformScan(s: Store, op: ScanOp): Store {
    match op
    case DoStartRecon(g, baseline, cursor) => StartRecon(s, g, baseline, cursor)
    case DoRecordPage(g, expected, next, ids) => RecordPage(s, g, expected, next, ids)
    case DoCommitPage(g, expected, next, rows, count, estimate) => CommitPage(s, g, expected, next, rows, count, estimate)
    case DoRecordSeen(g, ids) => RecordSeen(s, g, ids)
    case DoFinalize(g, h) => Finalize(s, g, h)
    case DoReset(g) => Reset(s, g)
  }

  function Perform(s: Store, op: Op): Store {
    match op
    case Mail(o) => PerformMail(s, o)
    case Life(o) => PerformLife(s, o)
    case Scan(o) => PerformScan(s, o)
  }

  /** A step at a later time: the transaction clock never goes back. */
  datatype Event = At(elapsed: nat, op: Op)

  function Later(s: Store, elapsed: nat): Store {
    s.(clock := s.clock + elapsed)
  }

  function Step(s: Store, e: Event): Store {
    Perform(Later(s, e.elapsed), e.op)
  }

  ghost predicate LegalRun(s: Store, run: seq<Event>)
    decreases |run|
  {
    run != [] ==> Legal(Later(s, run[0].elapsed), run[0].op) && LegalRun(Step(s, run[0]), run[1..])
  }

  function Exec(s: Store, run: seq<Event>): Store
    decreases |run|
  {
    if run == [] then s else Exec(Step(s, run[0]), run[1..])
  }
}
