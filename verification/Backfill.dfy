/** Convergence of the attachment-descriptor backfill: repeated pages, each given the cursor
    the last one returned, reach every row, also rows that appear behind the cursor. */
module Backfill {
  import opened Basics
  import opened Messages
  import opened MailStore

  /** One call of the page function: the state it meets and the rows it takes. */
  datatype Call = Call(before: Store, page: seq<string>, descriptors: map<string, string>)

  function After(c: Call, cursor: Option<string>): Store {
    DescribePage(c.before, cursor, c.page, c.descriptors)
  }

  function Returned(c: Call, cursor: Option<string>): Option<string> {
    NextCursor(c.before, cursor, c.page, c.descriptors)
  }

  /** Calls chained by their cursors. Other writers may run in between as long as they add no
      unready row; every call but the last reports rows that remain. */
  ghost predicate Chained(cursor: Option<string>, calls: seq<Call>)
    decreases |calls|
  {
    calls != [] ==>
      && (exists limit: nat :: 1 <= limit <= 25 && FirstOf(Beyond(Unready(calls[0].before.messages), cursor), limit, calls[0].page))
      && (|calls| > 1 ==>
            && Unready(After(calls[0], cursor).messages) != {}
            && Unready(calls[1].before.messages) <= Unready(After(calls[0], cursor).messages)
            && Chained(Returned(calls[0], cursor), calls[1..]))
  }

  function Work(s: Store, cursor: Option<string>): nat {
    2 * |Unready(s.messages)| + if cursor.Some? then 1 else 0
  }

  lemma PageMakesReady(s: Store, cursor: Option<string>, page: seq<string>, descriptors: map<string, string>)
    requires forall i :: 0 <= i < |page| ==> page[i] in Unready(s.messages)
    ensures Unready(DescribePage(s, cursor, page, descriptors).messages) == Unready(s.messages) - (set id | id in page)
  {
  }

  /** While rows remain, every call leaves less to do. */
  lemma PageProgresses(c: Call, cursor: Option<string>, limit: nat)
    requires 1 <= limit && FirstOf(Beyond(Unready(c.before.messages), cursor), limit, c.page)
    requires Unready(After(c, cursor).messages) != {}
    ensures Work(After(c, cursor), Returned(c, cursor)) < Work(c.before, cursor)
  {
    var ids := Unready(c.before.messages);
    PageMakesReady(c.before, cursor, c.page, c.descriptors);
    var left := Unready(After(c, cursor).messages);
    if c.page == [] {
      assert Beyond(ids, cursor) == {};
      assert left == ids;
      assert cursor.None? ==> Beyond(ids, cursor) == ids;
    } else {
      assert c.page[0] in ids && c.page[0] !in left;
      SubsetCount(left, ids);
    }
  }

  /** The backfill ends: chained calls are bounded by the unready rows at the start. */
  lemma {:induction false} BackfillEnds(cursor: Option<string>, calls: seq<Call>)
    requires Chained(cursor, calls) && calls != []
    ensures |calls| <= Work(calls[0].before, cursor) + 1
    decreases |calls|
  {
    if |calls| > 1 {
      var c := calls[0];
      var limit: nat :| 1 <= limit <= 25 && FirstOf(Beyond(Unready(c.before.messages), cursor), limit, c.page);
      PageProgresses(c, cursor, limit);
      BackfillEnds(Returned(c, cursor), calls[1..]);
      SubsetCount(Unready(calls[1].before.messages), Unready(After(c, cursor).messages));
    }
  }

  /** A page publishes completion only in a state where no row is unready anywhere, behind the
      cursor or beyond it, and always in such a state. A claim made earlier outlives rows that
      became unready exactly while some of them lie beyond the cursor. */
  lemma CompletionIsGlobal(c: Call, cursor: Option<string>)
    ensures var t := After(c, cursor);
      && (Unready(t.messages) == {} ==> t.marks.descriptorsComplete)
      && (t.marks.descriptorsComplete && Unready(t.messages) != {} <==>
            c.before.marks.descriptorsComplete && Beyond(Unready(t.messages), PageCursor(cursor, c.page)) != {})
      && (Returned(c, cursor).None? && c.page != [] ==> !t.marks.descriptorsComplete)
  {
    var t := After(c, cursor);
    assert Unready(t.messages) == {} ==> Beyond(Unready(t.messages), PageCursor(cursor, c.page)) == {};
  }

  /** The least identifier of a set. */
  lemma {:induction false} Least(ids: set<string>) returns (x: string)
    requires ids != {}
    ensures x in ids && forall y :: y in ids && y != x ==> Less(x, y)
    decreases |ids|
  {
    x :| x in ids;
    if ids != {x} {
      var y := Least(ids - {x});
      LessTotal(x, y);
      if Less(y, x) {
        x := y;
      } else {
        forall z | z in ids && z != x ensures Less(x, z) {
          if z != y {
            LessTransitive(x, y, z);
          }
        }
      }
    }
  }

  /** A page can always be taken: the statement's ORDER BY and LIMIT are total. */
  lemma {:induction false} PageExists(ids: set<string>, limit: nat) returns (page: seq<string>)
    ensures FirstOf(ids, limit, page)
    decreases limit
  {
    if limit == 0 || ids == {} {
      page := [];
    } else {
      var x := Least(ids);
      var rest := PageExists(ids - {x}, limit - 1);
      page := [x] + rest;
      forall id | id in ids && id !in page ensures forall i :: 0 <= i < |page| ==> Less(page[i], id) {
        assert id != x && id !in rest;
      }
    }
  }
}
