/** Notions shared by the other modules: optional values, the text order of identifiers, and
    Python's order-preserving removal of duplicates. */
module Basics {

  datatype Option<+T> = None | Some(value: T)

  function Max(a: int, b: int): int {
    if a >= b then a else b
  }

  function Min(a: int, b: int): int {
    if a <= b then a else b
  }

  /** The text order the database sorts identifiers by. */
  predicate Less(a: string, b: string)
    decreases |a|
  {
    b != [] && (a == [] || a[0] < b[0] || (a[0] == b[0] && Less(a[1..], b[1..])))
  }

  lemma {:induction false} LessTotal(a: string, b: string)
    ensures Less(a, b) || a == b || Less(b, a)
    ensures !(Less(a, b) && Less(b, a)) && (a == b ==> !Less(a, b))
    decreases |a|
  {
    if a != [] && b != [] && a[0] == b[0] {
      LessTotal(a[1..], b[1..]);
      assert a == [a[0]] + a[1..] && b == [b[0]] + b[1..];
    }
  }

  lemma {:induction false} LessTransitive(a: string, b: string, c: string)
    requires Less(a, b) && Less(b, c)
    ensures Less(a, c)
    decreases |a|
  {
    if a != [] && a[0] == b[0] && b[0] == c[0] {
      LessTransitive(a[1..], b[1..], c[1..]);
    }
  }

  /** First occurrences, in order. */
  function Unique(xs: seq<string>): (r: seq<string>)
    ensures forall x :: x in r <==> x in xs
    ensures Distinct(r)
  {
    if xs == [] then []
    else
      var last := |xs| - 1;
      var r := Unique(xs[..last]);
      assert xs == xs[..last] + [xs[last]];
      if xs[last] in xs[..last] then r else r + [xs[last]]
  }

  predicate Distinct<T(==)>(xs: seq<T>) {
    forall i, j :: 0 <= i < j < |xs| ==> xs[i] != xs[j]
  }

  /** The non-empty ones among the first occurrences. */
  function Named(xs: seq<string>): (r: seq<string>)
    ensures forall x :: x in r <==> x in xs && x != ""
  {
    if xs == [] then []
    else
      var last := |xs| - 1;
      assert xs == xs[..last] + [xs[last]];
      Named(xs[..last]) + (if xs[last] == "" then [] else [xs[last]])
  }

  /** Where a text occurs first. */
  function FirstAt(xs: seq<string>, x: string): (n: nat)
    requires x in xs
    ensures n < |xs| && xs[n] == x && forall i :: 0 <= i < n ==> xs[i] != x
  {
    if xs[0] == x then 0 else 1 + FirstAt(xs[1..], x)
  }

  /** How many different texts of the set occur before this one does. */
  function RankIn(xs: seq<string>, among: set<string>, x: string): nat
    requires x in xs
  {
    |set y | y in among && y in xs && FirstAt(xs, y) < FirstAt(xs, x)|
  }

  lemma FirstInPrefix(xs: seq<string>, last: string)
    ensures forall x :: x in xs ==> FirstAt(xs + [last], x) == FirstAt(xs, x)
    ensures last !in xs ==> FirstAt(xs + [last], last) == |xs|
  {
    forall x | x in xs ensures FirstAt(xs + [last], x) == FirstAt(xs, x) {
      var n := FirstAt(xs, x);
      assert (xs + [last])[n] == x && forall i :: 0 <= i < n ==> (xs + [last])[i] == xs[i];
    }
    if last !in xs {
      assert (xs + [last])[|xs|] == last && forall i :: 0 <= i < |xs| ==> (xs + [last])[i] == xs[i];
    }
  }

  /** The texts are listed in the order of their first occurrences in `xs`. */
  predicate InOrderOf(r: seq<string>, xs: seq<string>) {
    (forall i :: 0 <= i < |r| ==> r[i] in xs) && forall i, j :: 0 <= i < j < |r| ==> FirstAt(xs, r[i]) < FirstAt(xs, r[j])
  }

  lemma OrderGrows(r: seq<string>, xs: seq<string>, last: string)
    requires InOrderOf(r, xs)
    ensures InOrderOf(r, xs + [last]) && (last !in xs ==> InOrderOf(r + [last], xs + [last]))
  {
    FirstInPrefix(xs, last);
    assert forall i :: 0 <= i < |r| ==> (r + [last])[i] == r[i];
  }

  lemma {:induction false} UniqueInOrder(xs: seq<string>)
    ensures InOrderOf(Unique(xs), xs)
    decreases |xs|
  {
    if xs != [] {
      var n := |xs| - 1;
      UniqueInOrder(xs[..n]);
      OrderGrows(Unique(xs[..n]), xs[..n], xs[n]);
      assert xs == xs[..n] + [xs[n]];
    }
  }

  lemma UniqueGrows(xs: seq<string>, last: string)
    ensures Unique(xs + [last]) == Unique(xs) + if last in xs then [] else [last]
  {
    assert (xs + [last])[..|xs|] == xs;
  }

  lemma NamedGrows(xs: seq<string>, last: string)
    ensures Named(xs + [last]) == Named(xs) + if last == "" then [] else [last]
  {
    assert (xs + [last])[..|xs|] == xs;
  }

  /** One more text, given the order so far. */
  lemma OneMoreUnique(r: seq<string>, xs: seq<string>, last: string, unseen: bool)
    requires InOrderOf(r, xs) && (unseen ==> last !in xs)
    ensures InOrderOf(if unseen then r + [last] else r, xs + [last])
  {
    OrderGrows(r, xs, last);
  }

  lemma NamedUnique(xs: seq<string>, last: string)
    ensures Unique(Named(xs + [last])) == if last != "" && last !in xs then Unique(Named(xs)) + [last] else Unique(Named(xs))
  {
    NamedGrows(xs, last);
    if last == "" {
      assert Named(xs + [last]) == Named(xs);
    } else {
      UniqueGrows(Named(xs), last);
    }
  }

  lemma {:induction false} NamedInOrder(xs: seq<string>)
    ensures InOrderOf(Unique(Named(xs)), xs)
    decreases |xs|
  {
    if xs != [] {
      var n := |xs| - 1;
      NamedInOrder(xs[..n]);
      assert xs == xs[..n] + [xs[n]];
      NamedUnique(xs[..n], xs[n]);
      OneMoreUnique(Unique(Named(xs[..n])), xs[..n], xs[n], xs[n] != "" && xs[n] !in xs[..n]);
    }
  }

  lemma {:induction false} DistinctCount(xs: seq<string>)
    requires Distinct(xs)
    ensures |set x | x in xs| == |xs|
    decreases |xs|
  {
    if xs != [] {
      var n := |xs| - 1;
      DistinctCount(xs[..n]);
      assert (set x | x in xs) == (set x | x in xs[..n]) + {xs[n]} by {
        assert xs == xs[..n] + [xs[n]];
      }
      assert xs[n] !in xs[..n];
    }
  }

  /** A text stands where its rank says. */
  lemma RankIsPlace(r: seq<string>, xs: seq<string>, i: nat)
    requires InOrderOf(r, xs) && i < |r|
    ensures RankIn(xs, (set x | x in r), r[i]) == i
  {
    var among, front := (set x | x in r), r[..i];
    var earlier := set y | y in among && y in xs && FirstAt(xs, y) < FirstAt(xs, r[i]);
    DistinctCount(front);
    forall y ensures y in earlier <==> y in front {
      if y in earlier {
        var j :| 0 <= j < |r| && r[j] == y;
        assert front[j] == y;
      }
    }
    assert earlier == set y | y in front;
  }

  lemma SubsetCount<T>(a: set<T>, b: set<T>)
    requires a <= b
    ensures |a| <= |b| && (a != b ==> |a| < |b|)
  {
    assert b == a + (b - a);
    assert a != b ==> b - a != {};
  }
}
