/** What recording the items of a classified message means for the subgoals of its matter, said
    without the steps that record them. */
module SubgoalRecords {
  import opened Basics
  import opened Matters

  // ---------------------------------------------------------------------------------
  // Evidence of one item

  /** The members of the matter an item cites. */
  function Cited(it: Item, allowed: set<string>): set<string> {
    set x | x in it.evidence && x in allowed
  }

  /** The item brings this message as evidence: one of the first twenty different members it
      cites, or its own message, when that is not cited and there is room for it. */
  predicate Brings(it: Item, allowed: set<string>, message: string, x: string) {
    if x in Cited(it, allowed) then RankIn(it.evidence, Cited(it, allowed), x) < 20
    else x == message && |Cited(it, allowed)| < 20
  }

  lemma OneMoreInOrder(r: seq<string>, xs: seq<string>, last: string)
    requires InOrderOf(r, xs) && last in xs && forall i :: 0 <= i < |r| ==> FirstAt(xs, r[i]) < FirstAt(xs, last)
    ensures InOrderOf(r + [last], xs) && InOrderOf(r + [], xs)
  {
    assert r + [] == r;
  }

  lemma FilterGrows(r: seq<string>, last: string, allowed: set<string>)
    ensures Filtered(r + [last], allowed) == Filtered(r, allowed) + if last in allowed then [last] else []
  {
    assert (r + [last])[..|r|] == r;
  }

  lemma FilterStep(r: seq<string>, last: string, allowed: set<string>, xs: seq<string>)
    requires InOrderOf(r + [last], xs) && InOrderOf(Filtered(r, allowed), xs)
    requires forall x :: x in Filtered(r, allowed) <==> x in r && x in allowed
    ensures InOrderOf(Filtered(r + [last], allowed), xs)
    ensures forall x :: x in Filtered(r + [last], allowed) <==> x in r + [last] && x in allowed
  {
    var kept := Filtered(r, allowed);
    FilterGrows(r, last, allowed);
    assert (r + [last])[|r|] == last;
    forall i | 0 <= i < |kept| ensures FirstAt(xs, kept[i]) < FirstAt(xs, last) {
      assert kept[i] in r;
      var j :| 0 <= j < |r| && r[j] == kept[i];
      assert (r + [last])[j] == kept[i];
    }
    OneMoreInOrder(kept, xs, last);
  }

  lemma {:induction false} FilteredInOrder(r: seq<string>, allowed: set<string>, xs: seq<string>)
    requires InOrderOf(r, xs)
    ensures InOrderOf(Filtered(r, allowed), xs)
    ensures forall x :: x in Filtered(r, allowed) <==> x in r && x in allowed
    decreases |r|
  {
    if r != [] {
      var n := |r| - 1;
      assert r == r[..n] + [r[n]];
      FilteredInOrder(r[..n], allowed, xs);
      FilterStep(r[..n], r[n], allowed, xs);
    }
  }

  /** The cited members stand at their ranks. */
  lemma CitedPlaces(it: Item, allowed: set<string>)
    ensures var cited := Filtered(Unique(it.evidence), allowed);
      && Cited(it, allowed) == (set x | x in cited) && |Cited(it, allowed)| == |cited|
      && forall i :: 0 <= i < |cited| ==> cited[i] in Cited(it, allowed) && RankIn(it.evidence, Cited(it, allowed), cited[i]) == i
  {
    var cited := Filtered(Unique(it.evidence), allowed);
    UniqueInOrder(it.evidence);
    FilteredInOrder(Unique(it.evidence), allowed, it.evidence);
    assert Cited(it, allowed) == set x | x in cited;
    DistinctCount(cited);
    forall i | 0 <= i < |cited| ensures RankIn(it.evidence, Cited(it, allowed), cited[i]) == i {
      RankIsPlace(cited, it.evidence, i);
    }
  }

  lemma TopTwenty(cited: seq<string>, message: string, x: string)
    requires Distinct(cited)
    ensures var all := if message in cited then cited else cited + [message];
      x in all[..Min(20, |all|)] <==>
        if x in cited then exists i :: 0 <= i < |cited| && cited[i] == x && i < 20 else x == message && |cited| < 20
  {
    var all := if message in cited then cited else cited + [message];
    var top := all[..Min(20, |all|)];
    assert forall i :: 0 <= i < |cited| ==> all[i] == cited[i];
    if x !in cited && x == message && |cited| < 20 {
      assert top[|cited|] == x;
    }
    if i :| 0 <= i < |cited| && cited[i] == x && i < 20 {
      assert top[i] == x;
    }
  }

  lemma EvidenceIsBrought(it: Item, allowed: set<string>, message: string)
    ensures forall x :: x in EvidenceOf(it, allowed, message) <==> Brings(it, allowed, message, x)
  {
    var cited := Filtered(Unique(it.evidence), allowed);
    CitedPlaces(it, allowed);
    UniqueInOrder(it.evidence);
    FilteredInOrder(Unique(it.evidence), allowed, it.evidence);
    forall x ensures x in EvidenceOf(it, allowed, message) <==> Brings(it, allowed, message, x) {
      TopTwenty(cited, message, x);
    }
  }

  function Letters(n: nat): string {
    seq(n, i => 'x')
  }

  /** An item that cites twenty other members leaves out the very message it was read from. */
  lemma TwentyOthersCrowdOut() returns (it: Item, allowed: set<string>)
    ensures Accepted(it) && |it.evidence| == 20 && "m" in allowed && "m" !in EvidenceOf(it, allowed, "m")
  {
    var evidence := seq(20, i requires 0 <= i < 20 => Letters(i + 2));
    it := Item(true, Some(NeedsYou), None, "k", evidence);
    allowed := (set x | x in evidence) + {"m"};
    assert forall i :: 0 <= i < 20 ==> |evidence[i]| == i + 2;
    assert Distinct(evidence);
    DistinctCount(evidence);
    assert forall x :: x in evidence ==> |x| >= 2;
    assert Cited(it, allowed) == set x | x in evidence;
    EvidenceIsBrought(it, allowed, "m");
  }

  // ---------------------------------------------------------------------------------
  // All items

  /** What an item needs to be recorded. */
  lemma AcceptedIs(it: Item)
    ensures Accepted(it) <==>
      it.complete && it.status.Some? && it.status.value in {NeedsYou, WaitingOnOthers, InProgress, Completed, Failed, Cancelled}
  {
    if it.status.Some? {
      match it.status.value
      case NeedsYou =>
      case _ =>
    }
  }

  /** Item `i` is the first accepted one of its key. */
  predicate Leads(items: seq<Item>, i: nat) {
    i < |items| && Accepted(items[i]) && forall j :: 0 <= j < i && Accepted(items[j]) ==> items[j].key != items[i].key
  }

  /** Item `i` tells of this subgoal: the existing one it names, or else the one of its key. */
  predicate Speaks(was: Subgoals, items: seq<Item>, i: nat, key: string) {
    && Leads(items, i)
    && key == if items[i].names.Some? && items[i].names.value in was then items[i].names.value else items[i].key
  }

  predicate HasLastWord(was: Subgoals, items: seq<Item>, i: nat, key: string) {
    Speaks(was, items, i, key) && forall j :: i < j < |items| ==> !Speaks(was, items, j, key)
  }

  predicate Mentioned(was: Subgoals, items: seq<Item>, key: string) {
    exists i :: 0 <= i < |items| && Speaks(was, items, i, key)
  }

  predicate BroughtBySome(was: Subgoals, items: seq<Item>, allowed: set<string>, message: string, key: string, x: string) {
    exists i :: 0 <= i < |items| && Speaks(was, items, i, key) && Brings(items[i], allowed, message, x)
  }

  /** Subgoals no item tells of stay. Every other has the state of the last item that tells of it,
      and besides its former evidence exactly what its items bring. */
  ghost predicate Told(was: Subgoals, now: Subgoals, items: seq<Item>, allowed: set<string>, message: string, clock: nat) {
    && (forall k :: k in now <==> k in was || Mentioned(was, items, k))
    && (forall k :: k in was && !Mentioned(was, items, k) ==> now[k] == was[k])
    && (forall i, k :: 0 <= i < |items| && HasLastWord(was, items, i, k) && k in now ==>
          now[k].status == items[i].status.value && now[k].updatedAt == clock)
    && (forall k, x :: k in now ==>
          (x in now[k].evidence <==> (k in was && x in was[k].evidence) || BroughtBySome(was, items, allowed, message, k, x)))
  }

  lemma PrefixSpeaks(was: Subgoals, items: seq<Item>, n: nat)
    requires n < |items|
    ensures forall i, k :: 0 <= i < n ==> (Speaks(was, items, i, k) <==> Speaks(was, items[..n], i, k))
    ensures Leads(items, n) <==> Accepted(items[n]) && items[n].key !in AcceptedKeys(items[..n])
  {
    var prior := items[..n];
    assert forall i :: 0 <= i < n ==> prior[i] == items[i];
    forall i | 0 <= i < n ensures Leads(items, i) <==> Leads(prior, i) {
    }
    if Accepted(items[n]) && items[n].key in AcceptedKeys(prior) {
      var j :| 0 <= j < |prior| && Accepted(prior[j]) && prior[j].key == items[n].key;
      assert Accepted(items[j]) && items[j].key == items[n].key;
    }
  }

  lemma MentionedGrows(was: Subgoals, items: seq<Item>, n: nat, k: string)
    requires n + 1 == |items|
    ensures Mentioned(was, items, k) <==> Mentioned(was, items[..n], k) || Speaks(was, items, n, k)
  {
    PrefixSpeaks(was, items, n);
    if i :| 0 <= i < n && Speaks(was, items[..n], i, k) {
      assert Speaks(was, items, i, k);
    }
  }

  lemma LastWordGrows(was: Subgoals, items: seq<Item>, n: nat, i: nat, k: string)
    requires n + 1 == |items| && HasLastWord(was, items, i, k)
    ensures i == n || (i < n && !Speaks(was, items, n, k) && HasLastWord(was, items[..n], i, k))
  {
    PrefixSpeaks(was, items, n);
  }

  lemma LeadIsRecorded(was: Subgoals, p: Subgoals, items: seq<Item>, n: nat, allowed: set<string>, message: string, clock: nat)
    requires n + 1 == |items| && Told(was, p, items[..n], allowed, message, clock) && Leads(items, n)
    ensures Told(was, Record(p, KeyFor(was, items[n]), items[n].status.value, EvidenceOf(items[n], allowed, message), clock),
      items, allowed, message, clock)
  {
    var key, evidence := KeyFor(was, items[n]), EvidenceOf(items[n], allowed, message);
    var now := Record(p, key, items[n].status.value, evidence, clock);
    assert Speaks(was, items, n, key);
    forall k ensures Mentioned(was, items, k) <==> k == key || Mentioned(was, items[..n], k) {
      MentionedGrows(was, items, n, k);
    }
    forall i, k | 0 <= i < |items| && HasLastWord(was, items, i, k) && k in now
      ensures now[k].status == items[i].status.value && now[k].updatedAt == clock
    {
      LastWordGrows(was, items, n, i, k);
    }
    forall k, x | k in now
      ensures x in now[k].evidence <==> (k in was && x in was[k].evidence) || BroughtBySome(was, items, allowed, message, k, x)
    {
      EvidenceIsBrought(items[n], allowed, message);
      SomeBrings(was, items, n, allowed, message, k, x);
    }
  }

  lemma SomeBrings(was: Subgoals, items: seq<Item>, n: nat, allowed: set<string>, message: string, k: string, x: string)
    requires n + 1 == |items|
    ensures BroughtBySome(was, items, allowed, message, k, x) <==>
      BroughtBySome(was, items[..n], allowed, message, k, x) || (Speaks(was, items, n, k) && Brings(items[n], allowed, message, x))
  {
    var prior := items[..n];
    assert forall i :: 0 <= i < n ==> prior[i] == items[i];
    PrefixSpeaks(was, items, n);
    if i :| 0 <= i < |prior| && Speaks(was, prior, i, k) && Brings(prior[i], allowed, message, x) {
      assert Speaks(was, items, i, k) && Brings(items[i], allowed, message, x);
    }
    if i :| 0 <= i < |items| && Speaks(was, items, i, k) && Brings(items[i], allowed, message, x) {
      assert i < n ==> Speaks(was, prior, i, k) && Brings(prior[i], allowed, message, x);
    }
  }

  /** An item that is not accepted, or not the first of its key, tells nothing. */
  lemma OtherIsSkipped(was: Subgoals, p: Subgoals, items: seq<Item>, n: nat, allowed: set<string>, message: string, clock: nat)
    requires n + 1 == |items| && Told(was, p, items[..n], allowed, message, clock) && !Leads(items, n)
    ensures Told(was, p, items, allowed, message, clock)
  {
    forall k ensures Mentioned(was, items, k) <==> Mentioned(was, items[..n], k) {
      MentionedGrows(was, items, n, k);
    }
    forall i, k | 0 <= i < |items| && HasLastWord(was, items, i, k) ensures i < n && HasLastWord(was, items[..n], i, k) {
      LastWordGrows(was, items, n, i, k);
    }
    forall k, x ensures BroughtBySome(was, items, allowed, message, k, x) <==> BroughtBySome(was, items[..n], allowed, message, k, x) {
      SomeBrings(was, items, n, allowed, message, k, x);
    }
  }

  /** Recording the items leaves the subgoals as told. */
  lemma {:induction false} RecordingTells(was: Subgoals, items: seq<Item>, allowed: set<string>, message: string, clock: nat)
    ensures Told(was, RecordAll(was, items, allowed, message, clock), items, allowed, message, clock)
    decreases |items|
  {
    if items != [] {
      var n := |items| - 1;
      RecordingTells(was, items[..n], allowed, message, clock);
      PrefixSpeaks(was, items, n);
      var p := RecordAll(was, items[..n], allowed, message, clock);
      if Leads(items, n) {
        LeadIsRecorded(was, p, items, n, allowed, message, clock);
      } else {
        OtherIsSkipped(was, p, items, n, allowed, message, clock);
      }
    }
  }
}
