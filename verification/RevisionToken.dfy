/** The text a thread's cache identity is hashed from: one `length:id:revision` item per
    message, in id order, with nothing between one revision and the next length
    (backend/app/db/mail_groups.py). The digest itself is taken to be injective. */
module RevisionToken {
  import opened Basics

  function Digit(n: nat): char
    requires n < 10
  {
    ('0' as int + n) as char
  }

  function Decimal(n: nat): (s: string)
    ensures s != "" && ':' !in s && (|s| == 1 <==> n < 10)
  {
    if n < 10 then [Digit(n)] else Decimal(n / 10) + [Digit(n % 10)]
  }

  lemma {:induction false} DecimalInjective(m: nat, n: nat)
    requires Decimal(m) == Decimal(n)
    ensures m == n
  {
    var s, t := Decimal(m), Decimal(n);
    assert s[|s| - 1] == Digit(m % 10) && t[|t| - 1] == Digit(n % 10);
    if m >= 10 && n >= 10 {
      assert s[..|s| - 1] == Decimal(m / 10) && t[..|t| - 1] == Decimal(n / 10);
      DecimalInjective(m / 10, n / 10);
    }
  }

  type Item = (string, nat)

  function Token(xs: seq<Item>): (s: string)
    ensures s == "" <==> xs == []
  {
    if xs == [] then ""
    else Decimal(|xs[0].0|) + ":" + xs[0].0 + ":" + Decimal(Max(xs[0].1, 1)) + Token(xs[1..])
  }

  /** No identifier contains the separator, and revisions count from one. */
  predicate Plain(xs: seq<Item>) {
    forall i :: 0 <= i < |xs| ==> ':' !in xs[i].0 && xs[i].1 >= 1
  }

  /** Two texts agree up to their first colon and after it. */
  lemma FirstColon(p: string, u: string, q: string, v: string)
    requires ':' !in p && ':' !in q && p + ":" + u == q + ":" + v
    ensures p == q && u == v
  {
    var s, t := p + ":" + u, q + ":" + v;
    assert s[|p|] == ':' && t[|q|] == ':';
    assert forall i :: 0 <= i < |p| ==> s[i] == p[i] && p[i] in p;
    assert forall i :: 0 <= i < |q| ==> t[i] == q[i] && q[i] in q;
    assert s[..|p|] == p && t[..|q|] == q;
    assert s[|p| + 1..] == u && t[|q| + 1..] == v;
  }

  function AfterId(r: nat, xs: seq<Item>): string {
    Decimal(r) + Token(xs)
  }

  lemma TokenHead(x: Item, rest: seq<Item>)
    requires x.1 >= 1
    ensures Token([x] + rest) == Decimal(|x.0|) + ":" + (x.0 + ":" + AfterId(x.1, rest))
  {
    assert ([x] + rest)[1..] == rest;
    assert Token([x] + rest) == Decimal(|x.0|) + ":" + x.0 + ":" + Decimal(x.1) + Token(rest);
  }

  /** The digits of a revision and of the next length can only be cut in one way, because the
      next identifier fixes its own length. */
  lemma {:induction false} AfterIdInjective(r: nat, xs: seq<Item>, s: nat, ys: seq<Item>)
    requires r >= 1 && s >= 1 && Plain(xs) && Plain(ys) && AfterId(r, xs) == AfterId(s, ys)
    ensures r == s && xs == ys
    decreases |xs|
  {
    if xs == [] && ys == [] {
      assert Decimal(r) + "" == Decimal(r) && Decimal(s) + "" == Decimal(s);
      DecimalInjective(r, s);
    } else if xs == [] || ys == [] {
      OneSideEmpty(r, xs, s, ys);
    } else {
      var x, y := xs[0], ys[0];
      assert xs == [x] + xs[1..] && ys == [y] + ys[1..];
      HeadsAgree(r, x, xs[1..], s, y, ys[1..]);
      AfterIdInjective(x.1, xs[1..], y.1, ys[1..]);
    }
  }

  lemma HeadsAgree(r: nat, x: Item, xs: seq<Item>, s: nat, y: Item, ys: seq<Item>)
    requires x.1 >= 1 && y.1 >= 1 && ':' !in x.0 && ':' !in y.0
    requires AfterId(r, [x] + xs) == AfterId(s, [y] + ys)
    ensures r == s && x.0 == y.0 && AfterId(x.1, xs) == AfterId(y.1, ys)
  {
    TokenHead(x, xs);
    TokenHead(y, ys);
    var p, q := Decimal(r) + Decimal(|x.0|), Decimal(s) + Decimal(|y.0|);
    var u, v := x.0 + ":" + AfterId(x.1, xs), y.0 + ":" + AfterId(y.1, ys);
    assert AfterId(r, [x] + xs) == p + ":" + u && AfterId(s, [y] + ys) == q + ":" + v;
    FirstColon(p, u, q, v);
    FirstColon(x.0, AfterId(x.1, xs), y.0, AfterId(y.1, ys));
    SameSuffix(Decimal(r), Decimal(s), Decimal(|x.0|));
    DecimalInjective(r, s);
  }

  lemma SameSuffix(a: string, b: string, c: string)
    requires a + c == b + c
    ensures a == b
  {
    assert |a| == |b|;
    assert a == (a + c)[..|a|] && b == (b + c)[..|b|];
  }

  /** Only the text of further items holds a colon. */
  lemma OneSideEmpty(r: nat, xs: seq<Item>, s: nat, ys: seq<Item>)
    requires Plain(xs) && Plain(ys) && (xs == []) != (ys == [])
    ensures AfterId(r, xs) != AfterId(s, ys)
  {
    var zs, n := if xs == [] then ys else xs, if xs == [] then s else r;
    assert zs == [zs[0]] + zs[1..];
    TokenHead(zs[0], zs[1..]);
    var text := AfterId(n, zs);
    assert text[|Decimal(n)| + |Decimal(|zs[0].0|)|] == ':';
    assert ':' in text;
    assert AfterId(if xs == [] then r else s, []) == Decimal(if xs == [] then r else s);
  }

  /** The token determines the messages of the thread and their revisions. */
  lemma TokenInjective(xs: seq<Item>, ys: seq<Item>)
    requires Plain(xs) && Plain(ys) && Token(xs) == Token(ys)
    ensures xs == ys
  {
    if xs != [] && ys != [] {
      var x, y := xs[0], ys[0];
      assert xs == [x] + xs[1..] && ys == [y] + ys[1..];
      TokenHead(x, xs[1..]);
      TokenHead(y, ys[1..]);
      FirstColon(Decimal(|x.0|), x.0 + ":" + AfterId(x.1, xs[1..]), Decimal(|y.0|), y.0 + ":" + AfterId(y.1, ys[1..]));
      FirstColon(x.0, AfterId(x.1, xs[1..]), y.0, AfterId(y.1, ys[1..]));
      AfterIdInjective(x.1, xs[1..], y.1, ys[1..]);
    }
  }

  // ---------------------------------------------------------------------------------
  // Tokens of sets of messages

  /** The items of the map in id order. */
  ghost predicate Lists(xs: seq<Item>, m: map<string, nat>) {
    && (forall i, j :: 0 <= i < j < |xs| ==> Less(xs[i].0, xs[j].0))
    && (forall i :: 0 <= i < |xs| ==> xs[i].0 in m && m[xs[i].0] == xs[i].1)
    && (forall id :: id in m ==> exists i :: 0 <= i < |xs| && xs[i].0 == id)
  }

  lemma {:induction false} ListingUnique(xs: seq<Item>, ys: seq<Item>, m: map<string, nat>)
    requires Lists(xs, m) && Lists(ys, m)
    ensures xs == ys
    decreases |xs|
  {
    ListingEmpty(xs, m);
    ListingEmpty(ys, m);
    if xs != [] {
      SameHead(xs, ys, m);
      ListingTail(xs, m);
      ListingTail(ys, m);
      ListingUnique(xs[1..], ys[1..], m - {xs[0].0});
      assert xs == [xs[0]] + xs[1..] && ys == [ys[0]] + ys[1..];
    }
  }

  lemma SameHead(xs: seq<Item>, ys: seq<Item>, m: map<string, nat>)
    requires Lists(xs, m) && Lists(ys, m) && xs != [] && ys != []
    ensures xs[0] == ys[0]
  {
    HeadLeast(xs, m);
    HeadLeast(ys, m);
    LessTotal(xs[0].0, ys[0].0);
  }

  lemma HeadLeast(xs: seq<Item>, m: map<string, nat>)
    requires Lists(xs, m) && xs != []
    ensures xs[0].0 in m && m[xs[0].0] == xs[0].1
    ensures forall id :: id in m ==> id == xs[0].0 || Less(xs[0].0, id)
  {
  }

  lemma ListingEmpty(xs: seq<Item>, m: map<string, nat>)
    requires Lists(xs, m)
    ensures xs == [] <==> m == map[]
  {
    assert xs != [] ==> xs[0].0 in m;
  }

  lemma ListingTail(xs: seq<Item>, m: map<string, nat>)
    requires Lists(xs, m) && xs != []
    ensures Lists(xs[1..], m - {xs[0].0})
  {
    var t := xs[1..];
    forall i | 0 <= i < |t| ensures t[i].0 in m - {xs[0].0} {
      assert t[i] == xs[i + 1] && Less(xs[0].0, xs[i + 1].0);
      LessTotal(xs[0].0, xs[i + 1].0);
    }
    forall id | id in m - {xs[0].0} ensures exists i :: 0 <= i < |t| && t[i].0 == id {
      var i :| 0 <= i < |xs| && xs[i].0 == id;
      assert t[i - 1] == xs[i];
    }
  }

  /** Two threads have the same token exactly when they hold the same messages at the same
      revisions. */
  lemma TokenFaithful(xs: seq<Item>, m: map<string, nat>, ys: seq<Item>, n: map<string, nat>)
    requires Lists(xs, m) && Lists(ys, n) && Plain(xs) && Plain(ys)
    ensures Token(xs) == Token(ys) <==> m == n
  {
    if m == n {
      ListingUnique(xs, ys, m);
    }
    if Token(xs) == Token(ys) {
      TokenInjective(xs, ys);
      assert forall id :: id in m ==> id in n && n[id] == m[id];
      assert forall id :: id in n ==> id in m;
    }
  }

  /** With colons in identifiers, different threads can share a token: a revision 1 before a
      length 11 reads like a revision 11 before a length 1. */
  lemma ColonsCollide(e: string)
    requires |e| == 6
    ensures Token([("a", 1), ("b:16:" + e, 1)]) == Token([("a", 11), ("b", 1), (e, 1)])
  {
    var a, b, c, d, f := ("a", 1), ("b:16:" + e, 1), ("a", 11), ("b", 1), (e, 1);
    var last := e + (":" + "1");
    OneItem(b, "11");
    OneItem(f, "6");
    assert [d] + [f] == [d, f] && [a] + [b] == [a, b] && [c] + [d, f] == [c, d, f];
    TokenHead(d, [f]);
    assert Token([d, f]) == "1:b:1" + Token([f]);
    assert Token([d, f]) == ("1:b:1" + "6:") + last;
    assert Token([b]) == ("11:" + "b:16:") + last;
    assert "1" + ("11:" + "b:16:") == "11" + ("1:b:1" + "6:");
    assert AfterId(1, [b]) == ("1" + ("11:" + "b:16:")) + last;
    assert AfterId(11, [d, f]) == ("11" + ("1:b:1" + "6:")) + last by {
      assert Decimal(11) == Decimal(1) + "1";
    }
    TokenHead(a, [b]);
    TokenHead(c, [d, f]);
  }

  lemma OneItem(x: Item, len: string)
    requires x.1 == 1 && Decimal(|x.0|) == len
    ensures Token([x]) == (len + ":") + (x.0 + (":" + "1"))
  {
    TokenHead(x, []);
    assert [x] + [] == [x];
    assert AfterId(1, []) == "1";
    assert len + ":" + (x.0 + ":" + "1") == (len + ":") + (x.0 + (":" + "1"));
  }
}
