/** One stored Gmail message and every statement that writes it
    (backend/app/db/mail_groups.py). Times and JSON columns are opaque values. */
module Messages {
  import opened Basics

  datatype BodyStatus = Missing | Pending | Failed | Fetched | Unavailable

  datatype Row = Row(
    thread: Option<string>,
    history: Option<string>,
    labels: string,
    date: Option<nat>,
    subject: Option<string>,
    sender: Option<string>,
    recipients: string,
    headers: string,
    snippet: Option<string>,
    payload: string,
    html: Option<string>,
    render: Option<string>,
    text: Option<string>,
    descriptors: string,
    descriptorsReady: bool,
    signals: string,
    bodyHash: string,
    status: BodyStatus,
    renderBytes: nat,
    aiTitle: Option<string>,
    revision: nat,
    updatedAt: nat)

  /** Everything a reader sees of a message, body state and AI title aside. */
  datatype Content = Content(
    thread: Option<string>,
    history: Option<string>,
    labels: string,
    date: Option<nat>,
    subject: Option<string>,
    sender: Option<string>,
    recipients: string,
    headers: string,
    snippet: Option<string>,
    payload: string,
    html: Option<string>,
    render: Option<string>,
    text: Option<string>,
    descriptors: string,
    bodyHash: string)

  function ContentOf(r: Row): Content {
    Content(r.thread, r.history, r.labels, r.date, r.subject, r.sender, r.recipients, r.headers,
            r.snippet, r.payload, r.html, r.render, r.text, r.descriptors, r.bodyHash)
  }

  predicate Terminal(s: BodyStatus) {
    s.Fetched? || s.Unavailable?
  }

  predicate IsDigits(s: string) {
    s != "" && forall i :: 0 <= i < |s| ==> '0' <= s[i] <= '9'
  }

  predicate Numeric(h: Option<string>) {
    h.Some? && IsDigits(h.value)
  }

  function Value(s: string): nat
    requires forall i :: 0 <= i < |s| ==> '0' <= s[i] <= '9'
  {
    if s == "" then 0 else 10 * Value(s[..|s| - 1]) + (s[|s| - 1] as int - '0' as int)
  }

  /** The column values built from a fetched record. */
  function Params(r: Row): Row {
    r.(revision := Max(1, r.revision), descriptorsReady := r.descriptorsReady || r.status.Fetched?)
  }

  /** The incoming history replaces the stored one only when it is strictly newer. */
  predicate Newer(was: Row, ex: Row) {
    Numeric(ex.history) && (Numeric(was.history) ==> Value(ex.history.value) > Value(was.history.value))
  }

  predicate CarriesBody(ex: Row) {
    ex.status.Fetched? || ex.render.Some? || ex.html.Some? || ex.text.Some?
  }

  function Coalesce<T>(a: Option<T>, b: Option<T>): Option<T> {
    if a.Some? then a else b
  }

  function MergedStatus(was: BodyStatus, ex: BodyStatus): BodyStatus {
    if ex.Fetched? then Fetched else if Terminal(was) then was else ex
  }

  /** The revision test of the upsert, column by column as the statement spells it. */
  predicate Revises(was: Row, ex: Row) {
    || ex.thread != was.thread
    || ex.date != was.date
    || ex.subject != was.subject
    || ex.sender != was.sender
    || ex.recipients != was.recipients
    || ex.headers != was.headers
    || ex.snippet != was.snippet
    || ex.bodyHash != was.bodyHash
    || (if Newer(was, ex) then ex.history else was.history) != was.history
    || (if Newer(was, ex) then ex.labels else was.labels) != was.labels
    || (if CarriesBody(ex) then ex.payload else was.payload) != was.payload
    || Coalesce(ex.render, was.render) != was.render
    || Coalesce(ex.html, was.html) != was.html
    || Coalesce(ex.text, was.text) != was.text
    || (if ex.descriptorsReady then ex.descriptors else was.descriptors) != was.descriptors
    || MergedStatus(was.status, ex.status) != was.status
    || (ex.status.Fetched? && !was.status.Fetched?)
    || (ex.render.Some? && ex.render != was.render)
    || (ex.html.Some? && ex.html != was.html)
    || (ex.text.Some? && ex.text != was.text)
  }

  /** ON CONFLICT (account, message) DO UPDATE of the message upsert. */
  function Merge(was: Row, ex: Row, now: nat): Row {
    Row(
      ex.thread,
      if Newer(was, ex) then ex.history else was.history,
      if Newer(was, ex) then ex.labels else was.labels,
      ex.date,
      ex.subject,
      ex.sender,
      ex.recipients,
      ex.headers,
      ex.snippet,
      if CarriesBody(ex) then ex.payload else was.payload,
      Coalesce(ex.html, was.html),
      Coalesce(ex.render, was.render),
      Coalesce(ex.text, was.text),
      if ex.descriptorsReady then ex.descriptors else was.descriptors,
      was.descriptorsReady || ex.descriptorsReady,
      ex.signals,
      ex.bodyHash,
      MergedStatus(was.status, ex.status),
      Max(was.renderBytes, ex.renderBytes),
      Coalesce(was.aiTitle, ex.aiTitle),
      if Revises(was, ex) then was.revision + 1 else was.revision,
      now)
  }

  /** Optimistic or rollback labels of a local action. */
  function WithLabels(r: Row, labels: string, now: nat): Row {
    r.(labels := labels, revision := if r.labels != labels then r.revision + 1 else r.revision, updatedAt := now)
  }

  /** A downloaded body; a message that is already fetched is left alone. */
  function WithBody(r: Row, ex: Row): Row {
    if r.status.Fetched? then r
    else r.(payload := ex.payload, html := ex.html, render := ex.render, text := ex.text,
            descriptors := ex.descriptors, descriptorsReady := true, signals := ex.signals,
            bodyHash := ex.bodyHash, status := Fetched, renderBytes := Max(r.renderBytes, ex.renderBytes),
            revision := r.revision + 1)
  }

  predicate MayMark(r: Row, status: BodyStatus) {
    status.Fetched? || !Terminal(r.status)
  }

  /** Bookkeeping of a body download. */
  function WithStatus(r: Row, status: BodyStatus): Row {
    if !MayMark(r, status) then r
    else r.(status := status,
            revision := if status.Unavailable? && !Terminal(r.status) then r.revision + 1 else r.revision)
  }

  /** One row of the attachment-descriptor backfill. */
  function WithDescriptors(r: Row, descriptors: string, now: nat): Row {
    if r.descriptorsReady then r
    else r.(descriptors := descriptors, descriptorsReady := true,
            revision := if r.descriptors != descriptors then r.revision + 1 else r.revision, updatedAt := now)
  }

  function WithTitle(r: Row, title: string, now: nat): Row {
    r.(aiTitle := Some(title), updatedAt := now)
  }

  // ---------------------------------------------------------------------------------
  // Every statement on one stored row

  datatype Write =
    | Merging(row: Row)
    | Labelling(labels: string)
    | Hydrating(row: Row)
    | Marking(status: BodyStatus)
    | Describing(descriptors: string)
    | Titling(title: string)

  function Apply(r: Row, w: Write, now: nat): Row {
    match w
    case Merging(ex) => Merge(r, Params(ex), now)
    case Labelling(l) => WithLabels(r, l, now)
    case Hydrating(ex) => WithBody(r, Params(ex))
    case Marking(s) => WithStatus(r, s)
    case Describing(d) => WithDescriptors(r, d, now)
    case Titling(t) => WithTitle(r, t, now)
  }

  /** A change of body state that the revision reports too. */
  predicate ShowsStatus(was: Row, end: Row, w: Write) {
    was.status != end.status && !(w.Marking? && !w.status.Unavailable?)
  }

  /** One statement raises the revision by one exactly when it changes the content or a
      reported body state, and otherwise leaves it. */
  lemma RevisionCountsChange(r: Row, w: Write, now: nat)
    ensures var n := Apply(r, w, now);
      n.revision == r.revision + (if ContentOf(n) != ContentOf(r) || ShowsStatus(r, n, w) then 1 else 0)
  {
    match w
    case Merging(ex) =>
      var e := Params(ex);
      var n := Merge(r, e, now);
      assert Revises(r, e) <==> ContentOf(n) != ContentOf(r) || n.status != r.status;
    case _ =>
  }

  function Replay(r: Row, ws: seq<Write>, now: nat): Row
    decreases |ws|
  {
    if ws == [] then r else Apply(Replay(r, ws[..|ws| - 1], now), ws[|ws| - 1], now)
  }

  /** Over any sequence of writes to a stored row, the revision never falls, and a revision
      that did not move means the content did not either. */
  lemma {:induction false} RevisionIdentifiesContent(r: Row, ws: seq<Write>, now: nat)
    ensures Replay(r, ws, now).revision >= r.revision
    ensures Replay(r, ws, now).revision == r.revision ==> ContentOf(Replay(r, ws, now)) == ContentOf(r)
    decreases |ws|
  {
    if ws != [] {
      var n := |ws| - 1;
      RevisionIdentifiesContent(r, ws[..n], now);
      RevisionCountsChange(Replay(r, ws[..n], now), ws[n], now);
    }
  }

  function BodyRank(s: BodyStatus): nat {
    if s.Fetched? then 2 else if s.Unavailable? then 1 else 0
  }

  lemma StatusRises(r: Row, w: Write, now: nat)
    ensures BodyRank(Apply(r, w, now).status) >= BodyRank(r.status)
  {
    match w
    case Merging(ex) => assert Apply(r, w, now).status == MergedStatus(r.status, ex.status);
    case _ =>
  }

  /** `Fetched` is absorbing and `Unavailable` yields only to it, under every writer. */
  lemma {:induction false} BodyStateOnlyRises(r: Row, ws: seq<Write>, now: nat)
    ensures BodyRank(Replay(r, ws, now).status) >= BodyRank(r.status)
    decreases |ws|
  {
    if ws != [] {
      BodyStateOnlyRises(r, ws[..|ws| - 1], now);
      StatusRises(Replay(r, ws[..|ws| - 1], now), ws[|ws| - 1], now);
    }
  }

  // ---------------------------------------------------------------------------------
  // History and labels as one register

  /** What an upsert carries for the register. */
  datatype Stamp = Stamp(history: Option<string>, labels: string)

  function StampOf(r: Row): Stamp {
    Stamp(r.history, r.labels)
  }

  /** The numeric value of a history, below every value when it is not numeric. */
  function Height(h: Option<string>): (n: int)
    ensures n >= -1 && (n >= 0 <==> Numeric(h))
  {
    if Numeric(h) then Value(h.value) else -1
  }

  function Join(a: Stamp, b: Stamp): Stamp {
    if Beats(b, a) then b else a
  }

  function JoinAll(a: Stamp, bs: seq<Stamp>): Stamp {
    if bs == [] then a else Join(JoinAll(a, bs[..|bs| - 1]), bs[|bs| - 1])
  }

  function Stamps(exs: seq<Row>): seq<Stamp> {
    seq(|exs|, i requires 0 <= i < |exs| => StampOf(exs[i]))
  }

  function Upserts(exs: seq<Row>): seq<Write> {
    seq(|exs|, i requires 0 <= i < |exs| => Merging(exs[i]))
  }

  /** Upserts act on history and labels as joins of their stamps. */
  lemma {:induction false} UpsertsJoinStamps(r: Row, exs: seq<Row>, now: nat)
    ensures StampOf(Replay(r, Upserts(exs), now)) == JoinAll(StampOf(r), Stamps(exs))
    decreases |exs|
  {
    if exs != [] {
      var n := |exs| - 1;
      assert Upserts(exs)[..n] == Upserts(exs[..n]) && Stamps(exs)[..n] == Stamps(exs[..n]);
      UpsertsJoinStamps(r, exs[..n], now);
    }
  }

  /** The stamp outranks the register. */
  predicate Beats(b: Stamp, a: Stamp) {
    Height(b.history) > Height(a.history)
  }

  lemma {:induction false} JoinAllKeepsStart(a: Stamp, bs: seq<Stamp>)
    requires forall i :: 0 <= i < |bs| ==> !Beats(bs[i], a)
    ensures JoinAll(a, bs) == a
  {
    if bs != [] {
      JoinAllKeepsStart(a, bs[..|bs| - 1]);
    }
  }

  /** The register ends with the first stamp of the highest history, or keeps its start when
      nothing is newer. */
  lemma {:induction false} JoinAllIsFirstMaximum(a: Stamp, bs: seq<Stamp>) returns (i: nat)
    requires exists k :: 0 <= k < |bs| && Beats(bs[k], a)
    ensures i < |bs| && FirstMaximum(a, bs, i) && JoinAll(a, bs) == bs[i]
  {
    var n := |bs| - 1;
    if exists k :: 0 <= k < n && Beats(bs[k], a) {
      var k :| 0 <= k < n && Beats(bs[k], a);
      assert bs[..n][k] == bs[k];
      i := JoinAllIsFirstMaximum(a, bs[..n]);
      assert forall j :: 0 <= j < n ==> bs[..n][j] == bs[j];
      if Beats(bs[n], bs[i]) {
        i := n;
      }
    } else {
      JoinAllKeepsStart(a, bs[..n]);
      i := n;
    }
  }

  predicate FirstMaximum(a: Stamp, bs: seq<Stamp>, i: nat)
    requires i < |bs|
  {
    && Beats(bs[i], a)
    && (forall j :: 0 <= j < |bs| ==> Height(bs[j].history) <= Height(bs[i].history))
    && (forall j :: 0 <= j < i ==> Height(bs[j].history) < Height(bs[i].history))
  }

  predicate Top(a: Stamp, bs: seq<Stamp>, x: Stamp) {
    x in bs && Beats(x, a) && forall b :: b in bs ==> Height(b.history) <= Height(x.history)
  }

  /** Stamps that outrank the start and tie for the highest history agree. */
  ghost predicate TopAgrees(a: Stamp, bs: seq<Stamp>) {
    forall x, y :: Top(a, bs, x) && Top(a, bs, y) ==> x == y
  }

  ghost predicate SameStamps(bs: seq<Stamp>, cs: seq<Stamp>) {
    forall x :: x in bs <==> x in cs
  }

  lemma AgreeingOrdersJoin(a: Stamp, bs: seq<Stamp>, cs: seq<Stamp>)
    requires SameStamps(bs, cs) && TopAgrees(a, bs)
    ensures JoinAll(a, bs) == JoinAll(a, cs)
  {
    if exists i :: 0 <= i < |bs| && Beats(bs[i], a) {
      var k :| 0 <= k < |bs| && Beats(bs[k], a);
      assert bs[k] in cs;
      var i := JoinAllIsFirstMaximum(a, bs);
      var j := JoinAllIsFirstMaximum(a, cs);
      assert cs[j] in bs && bs[i] in cs;
      assert Top(a, bs, bs[i]) && Top(a, bs, cs[j]);
    } else {
      forall i | 0 <= i < |cs| ensures !Beats(cs[i], a) {
        assert cs[i] in bs;
      }
      JoinAllKeepsStart(a, bs);
      JoinAllKeepsStart(a, cs);
    }
  }

  /** Replayed and reordered upserts converge if and only if the stamps that tie for the
      highest history agree. */
  lemma RegisterConfluence(a: Stamp, bs: seq<Stamp>)
    ensures TopAgrees(a, bs) <==>
      forall cs, ds :: SameStamps(bs, cs) && SameStamps(bs, ds) ==> JoinAll(a, cs) == JoinAll(a, ds)
  {
    if TopAgrees(a, bs) {
      forall cs, ds | SameStamps(bs, cs) && SameStamps(bs, ds) ensures JoinAll(a, cs) == JoinAll(a, ds) {
        AgreeingOrdersJoin(a, bs, cs);
        AgreeingOrdersJoin(a, bs, ds);
      }
    } else {
      var x, y :| Top(a, bs, x) && Top(a, bs, y) && x != y;
      TopFirstWins(a, bs, x);
      TopFirstWins(a, bs, y);
      assert SameStamps(bs, [x] + bs) && SameStamps(bs, [y] + bs);
    }
  }

  lemma TopFirstWins(a: Stamp, bs: seq<Stamp>, x: Stamp)
    requires Top(a, bs, x)
    ensures JoinAll(a, [x] + bs) == x
  {
    var cs := [x] + bs;
    assert cs[0] == x && Beats(cs[0], a);
    assert forall k :: 0 <= k < |cs| ==> cs[k] == x || cs[k] in bs;
    var m := JoinAllIsFirstMaximum(a, cs);
  }

  // ---------------------------------------------------------------------------------
  // The other columns after any number of upserts

  /** The column has the value of the last upsert that brings one, or its former value. */
  ghost predicate Latest<T>(was: T, exs: seq<Row>, now: T, brings: Row -> bool, value: Row -> T) {
    || (now == was && forall i :: 0 <= i < |exs| ==> !brings(exs[i]))
    || (exists i :: 0 <= i < |exs| && brings(exs[i]) && now == value(exs[i]) && forall j :: i < j < |exs| ==> !brings(exs[j]))
  }

  lemma LatestGrows<T>(was: T, exs: seq<Row>, mid: T, ex: Row, brings: Row -> bool, value: Row -> T)
    requires Latest(was, exs, mid, brings, value)
    ensures Latest(was, exs + [ex], if brings(ex) then value(ex) else mid, brings, value)
  {
    var all := exs + [ex];
    assert all[|exs|] == ex && forall i :: 0 <= i < |exs| ==> all[i] == exs[i];
    if !brings(ex) {
      if i :| 0 <= i < |exs| && brings(exs[i]) && mid == value(exs[i]) && forall j :: i < j < |exs| ==> !brings(exs[j]) {
        assert brings(all[i]) && mid == value(all[i]);
      }
    }
  }

  /** A fetched record or one with any form of the body brings its payload. */
  predicate BringsBody(ex: Row) {
    ex.status.Fetched? || ex.html.Some? || ex.render.Some? || ex.text.Some?
  }

  /** The stored title, or else the first one an upsert brings. */
  ghost predicate FirstTitle(was: Row, exs: seq<Row>, title: Option<string>) {
    if was.aiTitle.Some? then title == was.aiTitle
    else
      || (title.None? && forall i :: 0 <= i < |exs| ==> exs[i].aiTitle.None?)
      || (exists i :: 0 <= i < |exs| && exs[i].aiTitle.Some? && title == exs[i].aiTitle && forall j :: 0 <= j < i ==> exs[j].aiTitle.None?)
  }

  predicate BringsDescriptors(ex: Row) {
    ex.descriptorsReady || ex.status.Fetched?
  }

  /** What a stored row shows of the upserts made to it. */
  ghost predicate Shows(was: Row, exs: seq<Row>, now: Row, time: nat) {
    && (exs != [] ==>
          var last := exs[|exs| - 1];
          && now.thread == last.thread && now.date == last.date && now.subject == last.subject && now.sender == last.sender
          && now.recipients == last.recipients && now.headers == last.headers && now.snippet == last.snippet
          && now.signals == last.signals && now.bodyHash == last.bodyHash && now.updatedAt == time)
    && Latest(was.html, exs, now.html, (r: Row) => r.html.Some?, (r: Row) => r.html)
    && Latest(was.render, exs, now.render, (r: Row) => r.render.Some?, (r: Row) => r.render)
    && Latest(was.text, exs, now.text, (r: Row) => r.text.Some?, (r: Row) => r.text)
    && Latest(was.payload, exs, now.payload, (r: Row) => BringsBody(r), (r: Row) => r.payload)
    && Latest(was.descriptors, exs, now.descriptors, (r: Row) => BringsDescriptors(r), (r: Row) => r.descriptors)
    && (now.status.Fetched? <==> was.status.Fetched? || exists i :: 0 <= i < |exs| && exs[i].status.Fetched?)
    && (now.status.Unavailable? <==> !now.status.Fetched? && (was.status.Unavailable? || exists i :: 0 <= i < |exs| && exs[i].status.Unavailable?))
    && (!Terminal(now.status) ==> now.status == if exs == [] then was.status else exs[|exs| - 1].status)
    && (now.descriptorsReady <==> was.descriptorsReady || exists i :: 0 <= i < |exs| && BringsDescriptors(exs[i]))
    && FirstTitle(was, exs, now.aiTitle)
    && now.renderBytes >= was.renderBytes && (forall i :: 0 <= i < |exs| ==> now.renderBytes >= exs[i].renderBytes)
    && (now.renderBytes == was.renderBytes || exists i :: 0 <= i < |exs| && now.renderBytes == exs[i].renderBytes)
  }

  lemma FirstTitleGrows(was: Row, exs: seq<Row>, title: Option<string>, ex: Row)
    requires FirstTitle(was, exs, title)
    ensures FirstTitle(was, exs + [ex], if title.Some? then title else ex.aiTitle)
  {
    var all := exs + [ex];
    assert all[|exs|] == ex && forall i :: 0 <= i < |exs| ==> all[i] == exs[i];
    if i :| 0 <= i < |exs| && exs[i].aiTitle.Some? && title == exs[i].aiTitle && forall j :: 0 <= j < i ==> exs[j].aiTitle.None? {
      assert all[i].aiTitle.Some? && title == all[i].aiTitle;
    }
  }

  lemma {:induction false} ShowsMore(was: Row, exs: seq<Row>, mid: Row, ex: Row, now: nat)
    requires Shows(was, exs, mid, now)
    ensures Shows(was, exs + [ex], Merge(mid, Params(ex), now), now)
  {
    var all, end := exs + [ex], Merge(mid, Params(ex), now);
    assert all[|exs|] == ex && forall i :: 0 <= i < |exs| ==> all[i] == exs[i];
    FirstTitleGrows(was, exs, mid.aiTitle, ex);
    LatestGrows(was.html, exs, mid.html, ex, (r: Row) => r.html.Some?, (r: Row) => r.html);
    LatestGrows(was.render, exs, mid.render, ex, (r: Row) => r.render.Some?, (r: Row) => r.render);
    LatestGrows(was.text, exs, mid.text, ex, (r: Row) => r.text.Some?, (r: Row) => r.text);
    LatestGrows(was.payload, exs, mid.payload, ex, (r: Row) => BringsBody(r), (r: Row) => r.payload);
    LatestGrows(was.descriptors, exs, mid.descriptors, ex, (r: Row) => BringsDescriptors(r), (r: Row) => r.descriptors);
  }

  /** After any sequence of upserts a stored row shows the metadata of the last one, the parts of
      the body from the last one that brought them, the highest body state, and its first title. */
  lemma {:induction false} UpsertsShowLatest(r: Row, exs: seq<Row>, now: nat)
    ensures Shows(r, exs, Replay(r, Upserts(exs), now), now)
    decreases |exs|
  {
    if exs != [] {
      var n := |exs| - 1;
      assert Upserts(exs)[..n] == Upserts(exs[..n]) && exs == exs[..n] + [exs[n]];
      UpsertsShowLatest(r, exs[..n], now);
      ShowsMore(r, exs[..n], Replay(r, Upserts(exs[..n]), now), exs[n], now);
    }
  }

  /** An optimistic label write survives any replays exactly until an upsert with a strictly
      newer history, and then the newest history's labels are shown. */
  lemma OptimisticLabels(r: Row, labels: string, exs: seq<Row>, now: nat)
    ensures var end := Replay(WithLabels(r, labels, now), Upserts(exs), now);
      if forall i :: 0 <= i < |exs| ==> !Newer(r, exs[i])
      then end.labels == labels && end.history == r.history
      else exists i :: 0 <= i < |exs| && FirstMaximum(Stamp(r.history, labels), Stamps(exs), i) && StampOf(end) == StampOf(exs[i])
  {
    var f := WithLabels(r, labels, now);
    UpsertsJoinStamps(f, exs, now);
    if i :| 0 <= i < |exs| && Newer(r, exs[i]) {
      assert Beats(Stamps(exs)[i], StampOf(f));
      var m := JoinAllIsFirstMaximum(StampOf(f), Stamps(exs));
    } else {
      forall i | 0 <= i < |exs| ensures !Beats(Stamps(exs)[i], StampOf(f)) {
        assert !Newer(r, exs[i]);
      }
      JoinAllKeepsStart(StampOf(f), Stamps(exs));
    }
  }
}
