/** Content revisions over the whole life of stored messages, and what an unchanged thread
    token says about a thread. */
module Revisions {
  import opened Basics
  import opened Messages
  import opened MailStore
  import opened RevisionToken

  /** The later row has a greater revision, or the same revision and the same content. */
  predicate Succeeds(r: Row, q: Row) {
    q.revision >= r.revision && (q.revision == r.revision ==> ContentOf(q) == ContentOf(r))
  }

  /** Every row stored before and after moves forward. */
  ghost predicate RowsSucceed(m: map<string, Row>, n: map<string, Row>) {
    forall id :: id in m && id in n ==> Succeeds(m[id], n[id])
  }

  lemma WriteSucceeds(r: Row, w: Write, now: nat)
    ensures Succeeds(r, Apply(r, w, now))
  {
    RevisionCountsChange(r, w, now);
  }

  lemma {:induction false} UpsertsSucceed(m: map<string, Row>, rows: seq<(string, Row)>, now: nat)
    ensures m.Keys <= UpsertRows(m, rows, now).Keys && RowsSucceed(m, UpsertRows(m, rows, now))
    decreases |rows|
  {
    if rows != [] {
      var last := rows[|rows| - 1];
      var prior := UpsertRows(m, rows[..|rows| - 1], now);
      UpsertsSucceed(m, rows[..|rows| - 1], now);
      if last.0 in prior {
        WriteSucceeds(prior[last.0], Merging(last.1), now);
      }
    }
  }

  lemma {:induction false} BodiesSucceed(m: map<string, Row>, rows: seq<(string, Row)>)
    ensures m.Keys == BodyRows(m, rows).Keys && RowsSucceed(m, BodyRows(m, rows))
    decreases |rows|
  {
    if rows != [] {
      var last := rows[|rows| - 1];
      var prior := BodyRows(m, rows[..|rows| - 1]);
      BodiesSucceed(m, rows[..|rows| - 1]);
      if last.0 in prior {
        WriteSucceeds(prior[last.0], Hydrating(last.1), 0);
      }
    }
  }

  lemma MailSucceeds(s: Store, op: MailOp)
    ensures RowsSucceed(s.messages, PerformMail(s, op).messages)
  {
    match op
    case DoUpsert(rows) => UpsertsSucceed(s.messages, rows, s.clock);
    case DoUpdateBodies(rows) => BodiesSucceed(s.messages, rows);
    case DoDescribePage(_, page, descriptors) => DescribedSucceed(s.messages, page, descriptors, s.clock);
    case DoMarkBodies(ids, status) => MarkedSucceed(s.messages, ids - {""}, status);
    case _ =>
  }

  lemma DescribedSucceed(m: map<string, Row>, page: seq<string>, descriptors: map<string, string>, now: nat)
    ensures RowsSucceed(m, Described(m, page, descriptors, now))
  {
  }

  lemma MarkedSucceed(m: map<string, Row>, ids: set<string>, status: BodyStatus)
    ensures RowsSucceed(m, MarkedRows(m, ids, status))
  {
  }

  lemma LifeSucceeds(s: Store, op: LifeOp)
    ensures RowsSucceed(s.messages, PerformLife(s, op).messages)
  {
    if op.DoCommitWindow? {
      UpsertsSucceed(s.messages, op.rows, s.clock);
    }
  }

  lemma ScanSucceeds(s: Store, op: ScanOp)
    ensures RowsSucceed(s.messages, PerformScan(s, op).messages)
  {
    if op.DoCommitPage? {
      UpsertsSucceed(s.messages, op.rows, s.clock);
    }
  }

  predicate StaysStored(s: Store, run: seq<Event>, id: string)
    decreases |run|
  {
    id in s.messages && (run != [] ==> StaysStored(Step(s, run[0]), run[1..], id))
  }

  /** From any state, over any run of repository functions that does not delete the message, a
      revision that did not move means the content did not either, and no revision falls. */
  lemma {:induction false} LifetimeRevision(s: Store, run: seq<Event>, id: string)
    requires StaysStored(s, run, id)
    ensures id in Exec(s, run).messages && Succeeds(s.messages[id], Exec(s, run).messages[id])
    decreases |run|
  {
    if run != [] {
      var t := Later(s, run[0].elapsed);
      match run[0].op {
        case Mail(o) => MailSucceeds(t, o);
        case Life(o) => LifeSucceeds(t, o);
        case Scan(o) => ScanSucceeds(t, o);
      }
      LifetimeRevision(Step(s, run[0]), run[1..], id);
    }
  }

  function ThreadItems(m: map<string, Row>, t: string): map<string, nat> {
    map id | id in MessagesOf(m, t) :: m[id].revision
  }

  /** An unchanged token means an unchanged thread: over any run that deletes none of its
      messages, equal tokens mean the same messages with the same content. */
  lemma ThreadTokenIsFaithful(s: Store, run: seq<Event>, t: string, xs: seq<Item>, ys: seq<Item>)
    requires Lists(xs, ThreadItems(s.messages, t)) && Lists(ys, ThreadItems(Exec(s, run).messages, t))
    requires Plain(xs) && Plain(ys)
    requires forall id :: id in MessagesOf(s.messages, t) ==> StaysStored(s, run, id)
    ensures Token(xs) == Token(ys) ==>
      && MessagesOf(s.messages, t) == MessagesOf(Exec(s, run).messages, t)
      && forall id :: id in MessagesOf(s.messages, t) ==> ContentOf(s.messages[id]) == ContentOf(Exec(s, run).messages[id])
  {
    var e := Exec(s, run);
    TokenFaithful(xs, ThreadItems(s.messages, t), ys, ThreadItems(e.messages, t));
    forall id | id in MessagesOf(s.messages, t) ensures id in e.messages && Succeeds(s.messages[id], e.messages[id]) {
      LifetimeRevision(s, run, id);
    }
    if Token(xs) == Token(ys) {
      SameItemsSameContent(s.messages, e.messages, t);
    }
  }

  lemma SameItemsSameContent(m: map<string, Row>, n: map<string, Row>, t: string)
    requires ThreadItems(m, t) == ThreadItems(n, t)
    requires forall id :: id in MessagesOf(m, t) ==> id in n && Succeeds(m[id], n[id])
    ensures MessagesOf(m, t) == MessagesOf(n, t)
    ensures forall id :: id in MessagesOf(m, t) ==> ContentOf(m[id]) == ContentOf(n[id])
  {
    assert ThreadItems(m, t).Keys == MessagesOf(m, t) && ThreadItems(n, t).Keys == MessagesOf(n, t);
    forall id | id in MessagesOf(m, t) ensures ContentOf(m[id]) == ContentOf(n[id]) {
      assert ThreadItems(m, t)[id] == m[id].revision && ThreadItems(n, t)[id] == n[id].revision;
    }
  }

  /** A deletion ends the lifetime: the same revision can then carry other content. */
  lemma ReinsertionReusesRevision(id: string, r: Row, labels: string)
    requires id != "" && r.labels != labels && r.revision == 1
    ensures var a := Upsert(FRESH, [(id, r)]);
      var b := Upsert(Delete(a, {id}), [(id, r.(labels := labels))]);
      id in a.messages && id in b.messages
      && a.messages[id].revision == b.messages[id].revision && a.messages[id].labels != b.messages[id].labels
  {
    assert forall x: (string, Row) :: [x][..0] == [];
    var a := Upsert(FRESH, [(id, r)]);
    assert UpsertRows(map[], [(id, r)], 0) == UpsertRow(map[], id, r, 0);
    var gone := Delete(a, {id});
    assert gone.messages == map[];
    var q := r.(labels := labels);
    assert UpsertRows(gone.messages, [(id, q)], gone.clock) == UpsertRow(gone.messages, id, q, gone.clock);
  }

  // ---------------------------------------------------------------------------------
  // History identifiers

  /** A history identifier stands for the number it prints. */
  lemma {:induction false} HistoryIsItsNumber(n: nat)
    ensures IsDigits(Decimal(n)) && Value(Decimal(n)) == n
    decreases n
  {
    var s := Decimal(n);
    if n >= 10 {
      HistoryIsItsNumber(n / 10);
      assert s[..|s| - 1] == Decimal(n / 10) && s[|s| - 1] == Digit(n % 10);
    } else {
      assert s[..0] == "";
    }
  }

  /** Leading zeros do not change it. */
  lemma {:induction false} LeadingZero(s: string)
    requires IsDigits(s)
    ensures IsDigits("0" + s) && Value("0" + s) == Value(s)
    decreases |s|
  {
    var t := "0" + s;
    assert t[..|t| - 1] == "0" + s[..|s| - 1];
    if |s| > 1 {
      LeadingZero(s[..|s| - 1]);
    } else {
      assert s[..0] == "" && "0" + "" == "0" && "0"[..0] == "";
    }
  }
}
