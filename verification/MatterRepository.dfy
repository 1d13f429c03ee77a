/** The matter functions as they run: statement by statement on the tables of one account. Each
    leaves the tables in the state `Matters` names, and says what its callers may rely on
    afterwards. */
module MatterRepository {
  import opened Basics
  import opened Matters
  import opened SubgoalRecords

  lemma KeysGrow(items: seq<Item>, i: nat)
    requires i < |items|
    ensures AcceptedKeys(items[..i + 1]) == AcceptedKeys(items[..i]) + if Accepted(items[i]) then {items[i].key} else {}
  {
    var now, then_ := items[..i], items[..i + 1];
    assert forall j :: 0 <= j < i ==> now[j] == then_[j] == items[j];
    forall key | key in AcceptedKeys(now) ensures key in AcceptedKeys(then_) {
      var j :| 0 <= j < |now| && Accepted(now[j]) && now[j].key == key;
      assert Accepted(then_[j]) && then_[j].key == key;
    }
    assert then_[i] == items[i];
  }

  lemma RecordNext(existing: Subgoals, items: seq<Item>, i: nat, allowed: set<string>, message: string, now: nat)
    requires i < |items|
    ensures RecordAll(existing, items[..i + 1], allowed, message, now)
      == var prior, it := RecordAll(existing, items[..i], allowed, message, now), items[i];
         if !Accepted(it) || it.key in AcceptedKeys(items[..i]) then prior
         else Record(prior, KeyFor(existing, it), it.status.value, EvidenceOf(it, allowed, message), now)
  {
    assert items[..i + 1][..i] == items[..i];
  }

  lemma UpdateTwice(m: map<string, Subgoals>, t: string, a: Subgoals, b: Subgoals)
    ensures m[t := a][t := b] == m[t := b]
  {
  }

  function Only(subs: Subgoals, keys: set<string>): Subgoals {
    map k | k in subs && k in keys :: subs[k]
  }

  lemma MergeOne(from: Subgoals, into: Subgoals, rest: set<string>, key: string, now: nat)
    requires rest <= from.Keys && key in rest
    ensures var held := MergedSubgoals(from - rest, into, now);
      held[key := if key in held then Combined(from[key], held[key], now) else from[key].(updatedAt := now)]
      == MergedSubgoals(from - (rest - {key}), into, now)
    ensures Only(from, rest) - {key} == Only(from, rest - {key})
  {
  }

  lemma AllCopied(s: Inbox, g: string, h: string, copy: Renaming, newMatters: map<string, Matter>, newMembers: map<(string, string), Member>)
    requires Copies(s, h, copy) && forall k :: k in s.members ==> s.members[k].matter in s.matters
    requires forall n :: n in newMatters <==> n in copy.from && copy.from[n] in Protected(s, h)
    requires forall n :: n in newMatters ==> copy.from[n] in s.matters && newMatters[n] == s.matters[copy.from[n]].(generation := g)
    requires forall k :: k in newMembers <==> k in CopyKeys(s, g, h) && s.members[(h, k.1)].matter in Protected(s, h)
    requires forall k :: k in newMembers ==> newMembers[k] == Member(copy.to[s.members[(h, k.1)].matter], true, false)
    ensures newMatters == CopiedMatters(s, g, copy, Protected(s, h)) && newMembers == CopiedMembers(s, g, h, copy, Protected(s, h))
  {
  }

  /** The copies do not depend on the generations. */
  lemma SameCopies(s: Inbox, t: Inbox, g: string, h: string, copy: Renaming)
    requires t == s.(generations := t.generations) && Copies(s, h, copy)
    ensures Copies(t, h, copy) && Protected(t, h) == Protected(s, h) && CopyKeys(t, g, h) == CopyKeys(s, g, h)
    ensures CopiedMatters(t, g, copy, Protected(t, h)) == CopiedMatters(s, g, copy, Protected(s, h))
    ensures CopiedMembers(t, g, h, copy, Protected(t, h)) == CopiedMembers(s, g, h, copy, Protected(s, h))
  {
  }

  function GenerationsIn(generations: map<string, GenerationStatus>, status: GenerationStatus): set<string> {
    set g | g in generations && generations[g] == status
  }

  /** Members of the matter that a decision speaks of: the selected ones, or all proposed ones. */
  predicate Affected(s: Inbox, matter: string, selected: set<string>, k: (string, string)) {
    && k in s.members && matter in s.matters && k.0 == s.matters[matter].generation && s.members[k].matter == matter
    && (k.1 in selected || (selected == {} && s.members[k].provisional))
  }

  /** Members a move or merge takes along. */
  predicate Carried(s: Inbox, matter: string, selected: set<string>, whole: bool, k: (string, string)) {
    && k in s.members && matter in s.matters && k.0 == s.matters[matter].generation && s.members[k].matter == matter
    && (whole || selected == {} || k.1 in selected)
  }

  predicate Holds(s: Inbox, g: string, matter: string, x: string) {
    (g, x) in s.members && s.members[(g, x)].matter == matter
  }

  /** The automatic merge is allowed: both matters are shown and have members, the source holds
      nothing the user locked, and no decision of the generation parted a member of one from a
      member of the other. */
  ghost predicate Allowed(s: Inbox, g: string, source: string, target: string) {
    && source != target
    && source in s.matters && s.matters[source].generation == g && s.matters[source].visible
    && target in s.matters && s.matters[target].generation == g && s.matters[target].visible
    && (exists x :: Holds(s, g, source, x)) && (exists x :: Holds(s, g, target, x))
    && (forall x :: Holds(s, g, source, x) ==> !s.members[(g, x)].locked)
    && (forall d, x, y | d in s.apart && d.generation == g && Holds(s, g, source, x) && Holds(s, g, target, y) :: !Parted(d, x, y))
  }

  lemma CrossesParts(d: Apart, from: set<string>, into: set<string>)
    ensures Crosses(d, from, into) <==> exists x, y :: x in from && y in into && Parted(d, x, y)
  {
    if d.selected * from != {} && d.others * into != {} {
      var x, y :| x in d.selected * from && y in d.others * into;
      assert Parted(d, x, y);
    } else if d.selected * into != {} && d.others * from != {} {
      var y, x :| y in d.selected * into && x in d.others * from;
      assert Parted(d, x, y);
    }
    forall x, y | x in from && y in into && Parted(d, x, y) ensures Crosses(d, from, into) {
      if x in d.selected && y in d.others {
        assert x in d.selected * from && y in d.others * into;
      } else {
        assert y in d.selected * into && x in d.others * from;
      }
    }
  }

  lemma MessagesAreHeld(s: Inbox, g: string, matter: string)
    ensures forall x :: x in MessagesOf(s.members, g, matter) <==> Holds(s, g, matter, x)
    ensures MessagesOf(s.members, g, matter) != {} <==> exists x :: Holds(s, g, matter, x)
    ensures HoldsLocked(s, g, matter) <==> exists x :: Holds(s, g, matter, x) && s.members[(g, x)].locked
  {
    forall x | Holds(s, g, matter, x) ensures x in MessagesOf(s.members, g, matter) {
      assert (g, x).1 == x;
    }
    if k :| k in s.members && k.0 == g && s.members[k].matter == matter && s.members[k].locked {
      assert k == (g, k.1) && Holds(s, g, matter, k.1);
    }
  }

  lemma AllowedMayMerge(s: Inbox, g: string, source: string, target: string)
    ensures MayMerge(s, g, source, target) <==> Allowed(s, g, source, target)
  {
    MessagesAreHeld(s, g, source);
    MessagesAreHeld(s, g, target);
    forall d ensures Crosses(d, MessagesOf(s.members, g, source), MessagesOf(s.members, g, target)) <==>
      exists x, y :: Holds(s, g, source, x) && Holds(s, g, target, y) && Parted(d, x, y)
    {
      CrossesParts(d, MessagesOf(s.members, g, source), MessagesOf(s.members, g, target));
    }
  }

  /** The matter is shown exactly while it has members. */
  predicate VisibleWithMembers(s: Inbox, matter: string) {
    matter in s.matters && (s.matters[matter].visible <==> MessagesOf(s.members, s.matters[matter].generation, matter) != {})
  }

  lemma SeparateParts(s: Inbox, matter: string, selected: set<string>)
    requires matter in s.matters && Chosen(s, matter, selected) != {}
    ensures var n, g, ids := Separate(s, matter, selected), s.matters[matter].generation, Chosen(s, matter, selected);
      && MessagesOf(n.members, g, matter) == MessagesOf(s.members, g, matter) - ids
      && VisibleWithMembers(n, matter)
      && Apart(g, ids, MessagesOf(n.members, g, matter)) in n.apart
      && (forall k :: k in s.members && !Picks(s, matter, ids, k) ==> k in n.members && n.members[k] == s.members[k])
  {
    var n, g, ids := Separate(s, matter, selected), s.matters[matter].generation, Chosen(s, matter, selected);
    assert n.members == Removed(s, matter, ids);
    assert MessagesOf(n.members, g, matter) == MessagesOf(s.members, g, matter) - ids;
  }

  lemma MoveTakes(s: Inbox, matter: string, target: string, selected: set<string>, whole: bool)
    requires matter in s.matters && target in s.matters && s.matters[target].generation == s.matters[matter].generation && matter != target
    ensures var n, g, taken := Move(s, matter, target, selected, whole), s.matters[matter].generation, Taken(s, matter, selected, whole);
      && n.members.Keys == s.members.Keys
      && MessagesOf(n.members, g, target) == MessagesOf(s.members, g, target) + taken
      && MessagesOf(n.members, g, matter) == MessagesOf(s.members, g, matter) - taken
      && (forall x :: x in taken ==> Locked(n, g, x))
  {
    var n, g, taken := Move(s, matter, target, selected, whole), s.matters[matter].generation, Taken(s, matter, selected, whole);
    forall x | x in MessagesOf(s.members, g, target) + taken ensures x in MessagesOf(n.members, g, target) {
      assert (g, x) in n.members && n.members[(g, x)].matter == target;
    }
    forall x | x in MessagesOf(s.members, g, matter) - taken ensures x in MessagesOf(n.members, g, matter) {
      assert (g, x) in n.members && n.members[(g, x)].matter == matter;
    }
  }

  lemma OnlyShadow(was: map<string, GenerationStatus>, g: string)
    ensures var now := Superseding(was, Shadow)[g := Shadow];
      && GenerationsIn(now, Shadow) == {g}
      && (g !in was ==> GenerationsIn(now, Active) == GenerationsIn(was, Active))
  {
    var now := Superseding(was, Shadow)[g := Shadow];
    forall h | g !in was ensures h in GenerationsIn(now, Active) <==> h in GenerationsIn(was, Active) {
    }
  }

  /** A new matter is shown, an old one stays as it was but for its status, which follows the
      subgoals unless the assignment is tentative. */
  predicate AssignedMatter(s: Inbox, n: Inbox, g: string, t: string, status: Status, tentative: bool) {
    && t in n.matters
    && n.matters == s.matters[t := if t in s.matters then s.matters[t].(status := n.matters[t].status) else Matter(g, true, n.matters[t].status)]
    && n.matters[t].status ==
         if !tentative then Derived(Statuses(SubgoalsOf(n, t)), status) else if t in s.matters then s.matters[t].status else status
  }

  lemma AssignShows(s: Inbox, g: string, message: string, selected: Option<string>, spare: string, status: Status, items: seq<Item>, provisional: bool)
    ensures AssignedMatter(s, Assign(s, g, message, selected, spare, status, items, provisional), g,
      Destination(s, g, message, selected, spare), status, provisional && !Locked(s, g, message))
  {
    var t, tentative := Destination(s, g, message, selected, spare), provisional && !Locked(s, g, message);
    var p := Placed(s, g, message, t, status, tentative);
    PlacedShows(s, g, message, t, status, tentative);
    if !tentative {
      var subs := RecordAll(SubgoalsOf(s, t), FirstTwelve(items), MessagesOf(p.members, g, t), message, s.clock);
      RefreshShows(s, p, g, t, subs, status);
      assert Assign(s, g, message, selected, spare, status, items, provisional) == WithSubgoals(p, t, subs, status);
    }
  }

  lemma PlacedShows(s: Inbox, g: string, message: string, t: string, status: Status, provisional: bool)
    ensures var p := Placed(s, g, message, t, status, provisional);
      && t in p.matters && p.matters == s.matters[t := if t in s.matters then s.matters[t].(status := p.matters[t].status) else Matter(g, true, status)]
      && (provisional && t in s.matters ==> p.matters[t] == s.matters[t])
  {
  }

  lemma RefreshShows(s: Inbox, p: Inbox, g: string, t: string, subs: Subgoals, status: Status)
    requires t in p.matters
    requires p.matters == s.matters[t := if t in s.matters then s.matters[t].(status := p.matters[t].status) else Matter(g, true, status)]
    ensures AssignedMatter(s, WithSubgoals(p, t, subs, status), g, t, status, false)
  {
  }

  lemma AssignTells(s: Inbox, g: string, message: string, selected: Option<string>, spare: string, status: Status, items: seq<Item>, provisional: bool)
    requires !(provisional && !Locked(s, g, message))
    ensures var n, t := Assign(s, g, message, selected, spare, status, items, provisional), Destination(s, g, message, selected, spare);
      Told(SubgoalsOf(s, t), SubgoalsOf(n, t), FirstTwelve(items), MessagesOf(n.members, g, t), message, s.clock)
  {
    var t := Destination(s, g, message, selected, spare);
    var p := Placed(s, g, message, t, status, false);
    RecordingTells(SubgoalsOf(s, t), FirstTwelve(items), MessagesOf(p.members, g, t), message, s.clock);
  }

  class Repository {
    var clock: nat
    var profile: Option<Profile>
    var generations: map<string, GenerationStatus>
    var matters: map<string, Matter>
    var members: map<(string, string), Member>
    var subgoals: map<string, Subgoals>
    var apart: set<Apart>

    ghost function Tables(): Inbox
      reads this
    {
      Inbox(clock, profile, generations, matters, members, subgoals, apart)
    }

    constructor ()
      ensures Tables() == EMPTY
    {
      clock, profile, generations, matters, members, subgoals, apart := 0, None, map[], map[], map[], map[], {};
    }

    // -------------------------------------------------------------------------------
    // Automatic assignment

    /** Upserts the matter and the membership of a message. */
    method PlaceMessage(g: string, message: string, t: string, status: Status, provisional: bool)
      modifies this`matters, this`members
      ensures Tables() == Placed(old(Tables()), g, message, t, status, provisional)
    {
      if t !in matters {
        matters := matters[t := Matter(g, true, status)];
      } else if !provisional {
        matters := matters[t := matters[t].(status := status)];
      }
      if (g, message) !in members || !members[(g, message)].locked {
        members := members[(g, message) := Member(t, false, provisional)];
      }
    }

    /** Upserts the subgoals of the first twelve items. */
    method RecordSubgoals(t: string, items: seq<Item>, allowed: set<string>, message: string)
      modifies this`subgoals
      ensures subgoals == old(subgoals)[t := RecordAll(SubgoalsOf(old(Tables()), t), FirstTwelve(items), allowed, message, clock)]
      ensures Told(SubgoalsOf(old(Tables()), t), subgoals[t], FirstTwelve(items), allowed, message, clock)
    {
      RecordingTells(SubgoalsOf(Tables(), t), FirstTwelve(items), allowed, message, clock);
      var existing := if t in subgoals then subgoals[t] else map[];
      subgoals := subgoals[t := existing];
      var processed: set<string> := {};
      var first := FirstTwelve(items);
      ghost var current := existing;
      var i := 0;
      while i < |first|
        invariant 0 <= i <= |first|
        invariant processed == AcceptedKeys(first[..i])
        invariant current == RecordAll(existing, first[..i], allowed, message, clock)
        invariant subgoals == old(subgoals)[t := current]
      {
        var it := first[i];
        KeysGrow(first, i);
        RecordNext(existing, first, i, allowed, message, clock);
        if Accepted(it) && it.key !in processed {
          processed := processed + {it.key};
          var recorded := Record(subgoals[t], KeyFor(existing, it), it.status.value, EvidenceOf(it, allowed, message), clock);
          UpdateTwice(old(subgoals), t, current, recorded);
          current := recorded;
          subgoals := subgoals[t := recorded];
        }
        i := i + 1;
      }
      assert first[..|first|] == first;
    }

    method RefreshMatter(g: string, t: string, items: seq<Item>, message: string, status: Status)
      requires t in matters
      modifies this`matters, this`subgoals
      ensures Tables() == WithSubgoals(old(Tables()), t,
        RecordAll(SubgoalsOf(old(Tables()), t), FirstTwelve(items), Matters.MessagesOf(members, g, t), message, clock), status)
    {
      RecordSubgoals(t, items, Matters.MessagesOf(members, g, t), message);
      matters := matters[t := matters[t].(status := Derived(Statuses(subgoals[t]), status))];
    }

    method ChooseMatter(g: string, message: string, selected: Option<string>, spare: string, provisional: bool)
      returns (matter: string, tentative: bool)
      ensures matter == Destination(Tables(), g, message, selected, spare) && tentative == (provisional && !Locked(Tables(), g, message))
    {
      matter, tentative := if selected.Some? then selected.value else spare, provisional;
      if (g, message) in members && members[(g, message)].locked {
        matter, tentative := members[(g, message)].matter, false;
      }
    }

    method ApplyAssignment(g: string, message: string, selected: Option<string>, spare: string, status: Status, items: seq<Item>, provisional: bool)
      returns (matter: string)
      modifies this`matters, this`members, this`subgoals
      ensures Tables() == Assign(old(Tables()), g, message, selected, spare, status, items, provisional)
      ensures matter == if Locked(old(Tables()), g, message) then old(members)[(g, message)].matter else if selected.Some? then selected.value else spare
      ensures matter in matters && (g, message) in members && members[(g, message)] ==
        if Locked(old(Tables()), g, message) then old(members)[(g, message)] else Member(matter, false, provisional)
      ensures forall k :: k != (g, message) ==> (k in members <==> k in old(members)) && (k in members ==> members[k] == old(members)[k])
      ensures if provisional && !Locked(old(Tables()), g, message) then subgoals == old(subgoals)
        else Told(SubgoalsOf(old(Tables()), matter), SubgoalsOf(Tables(), matter), FirstTwelve(items), MessagesOf(members, g, matter), message, clock)
      ensures forall m :: m != matter ==> SubgoalsOf(Tables(), m) == SubgoalsOf(old(Tables()), m)
      ensures AssignedMatter(old(Tables()), Tables(), g, matter, status, provisional && !Locked(old(Tables()), g, message))
    {
      AssignShows(Tables(), g, message, selected, spare, status, items, provisional);
      if !(provisional && !Locked(Tables(), g, message)) {
        AssignTells(Tables(), g, message, selected, spare, status, items, provisional);
      }
      var tentative;
      matter, tentative := ChooseMatter(g, message, selected, spare, provisional);
      PlaceMessage(g, message, matter, status, tentative);
      assert Tables() == Placed(old(Tables()), g, message, matter, status, tentative);
      if !tentative {
        RefreshMatter(g, matter, items, message, status);
      }
    }

    // -------------------------------------------------------------------------------
    // Automatic merge

    /** Moves the source's subgoals over one by one. */
    method MoveSubgoals(source: string, target: string)
      requires source != target
      modifies this`subgoals
      ensures subgoals == old(subgoals)[source := map[]][target :=
        MergedSubgoals(SubgoalsOf(old(Tables()), source), SubgoalsOf(old(Tables()), target), clock)]
    {
      var from, into := if source in subgoals then subgoals[source] else map[], if target in subgoals then subgoals[target] else map[];
      subgoals := subgoals[source := from][target := into];
      var rest := from.Keys;
      assert Only(from, rest) == from && MergedSubgoals(from - rest, into, clock) == into;
      ghost var held := into;
      while rest != {}
        invariant rest <= from.Keys && held == MergedSubgoals(from - rest, into, clock)
        invariant subgoals == old(subgoals)[source := Only(from, rest)][target := held]
        decreases rest
      {
        var key :| key in rest;
        MergeOne(from, into, rest, key, clock);
        rest := rest - {key};
        var subgoal, there := subgoals[source][key], subgoals[target];
        var next := there[key := if key in there then Combined(subgoal, there[key], clock) else subgoal.(updatedAt := clock)];
        held := next;
        subgoals := subgoals[target := next][source := subgoals[source] - {key}];
      }
      assert Only(from, {}) == map[] && from - {} == from;
    }

    method MergeReconciled(g: string, source: string, target: string, status: Status) returns (merged: bool)
      modifies this`matters, this`members, this`subgoals
      ensures Tables() == Reconcile(old(Tables()), g, source, target, status)
      ensures merged == MayMerge(old(Tables()), g, source, target)
      ensures merged <==> Allowed(old(Tables()), g, source, target)
      ensures !merged ==> Tables() == old(Tables())
    {
      AllowedMayMerge(Tables(), g, source, target);
      if source == target || !IsVisible(g, source) || !IsVisible(g, target) {
        return false;
      }
      var sourceIds, targetIds := Matters.MessagesOf(members, g, source), Matters.MessagesOf(members, g, target);
      if sourceIds == {} || targetIds == {} {
        return false;
      }
      if exists k :: k in members && k.0 == g && members[k].matter == source && members[k].locked {
        return false;
      }
      if exists d :: d in apart && d.generation == g && Crosses(d, sourceIds, targetIds) {
        return false;
      }
      members := Moved(members, g, source, target);
      MoveSubgoals(source, target);
      matters := matters[target := matters[target].(status := Derived(Statuses(subgoals[target]), status))];
      matters := matters[source := matters[source].(visible := false)];
      merged := true;
    }

    predicate IsVisible(g: string, matter: string)
      reads this
    {
      matter in matters && matters[matter].generation == g && matters[matter].visible
    }

    // -------------------------------------------------------------------------------
    // User decisions

    method Relocate(matter: string, ids: set<string>, target: string)
      requires matter in matters
      modifies this`members
      ensures members == Relocated(old(Tables()), matter, ids, target)
    {
      var g := matters[matter].generation;
      members := map k | k in members ::
        if k.0 == g && members[k].matter == matter && k.1 in ids then Member(target, true, false) else members[k];
    }

    method Remove(matter: string, ids: set<string>)
      requires matter in matters
      modifies this`members
      ensures members == Removed(old(Tables()), matter, ids)
    {
      var g := matters[matter].generation;
      members := map k | k in members && !(k.0 == g && members[k].matter == matter && k.1 in ids) :: members[k];
    }

    function ChosenIn(matter: string, selected: set<string>): (r: set<string>)
      requires matter in matters
      reads this
      ensures r == Chosen(Tables(), matter, selected)
    {
      if selected == {} then
        set k | k in members && k.0 == matters[matter].generation && members[k].matter == matter && members[k].provisional :: k.1
      else selected
    }

    method ConfirmMembers(matter: string, selected: set<string>) returns (ok: bool)
      modifies this`members
      ensures Tables() == Confirm(old(Tables()), matter, selected)
      ensures ok == (matter in matters && Chosen(old(Tables()), matter, selected) != {})
      ensures members.Keys == old(members).Keys && forall k :: k in members ==>
        members[k] == if Affected(old(Tables()), matter, selected, k) then Member(matter, true, false) else old(members)[k]
    {
      if matter !in matters {
        return false;
      }
      var ids := ChosenIn(matter, selected);
      ok := ids != {};
      if ok {
        Relocate(matter, ids, matter);
      }
      assert !ok ==> members == Relocated(old(Tables()), matter, ids, matter);
    }

    method SeparateMembers(matter: string, selected: set<string>) returns (ok: bool)
      modifies this`members, this`matters, this`apart
      ensures Tables() == Separate(old(Tables()), matter, selected)
      ensures ok == (matter in old(matters) && Chosen(old(Tables()), matter, selected) != {})
      ensures ok ==> VisibleWithMembers(Tables(), matter)
      ensures ok ==> forall k :: k in old(members) ==>
        (k in members <==> !Affected(old(Tables()), matter, selected, k)) && (k in members ==> members[k] == old(members)[k])
      ensures members.Keys <= old(members).Keys && (!ok ==> Tables() == old(Tables()))
      ensures ok ==> matters == old(matters)[matter := old(matters)[matter].(visible := matters[matter].visible)]
      ensures ok ==> var g, ids := matters[matter].generation, Chosen(old(Tables()), matter, selected);
        && MessagesOf(members, g, matter) == MessagesOf(old(members), g, matter) - ids
        && Apart(g, ids, MessagesOf(members, g, matter)) in apart
    {
      if matter !in matters {
        return false;
      }
      var ids := ChosenIn(matter, selected);
      if ids == {} {
        return false;
      }
      SeparateParts(Tables(), matter, selected);
      var g := matters[matter].generation;
      var others := Matters.MessagesOf(members, g, matter) - ids;
      Remove(matter, ids);
      matters := matters[matter := matters[matter].(visible := Matters.MessagesOf(members, g, matter) != {})];
      apart := apart + {Apart(g, ids, others)};
      ok := true;
    }

    method MoveMembers(matter: string, target: string, selected: set<string>, whole: bool) returns (ok: bool)
      modifies this`members, this`matters
      ensures Tables() == Move(old(Tables()), matter, target, selected, whole)
      ensures ok == (matter in old(matters) && target in old(matters) && old(matters)[target].generation == old(matters)[matter].generation)
      ensures members.Keys == old(members).Keys && (!ok ==> Tables() == old(Tables()))
      ensures ok ==> forall k :: k in members ==>
        members[k] == if Carried(old(Tables()), matter, selected, whole, k) then Member(target, true, false) else old(members)[k]
      ensures ok ==> matters == old(matters)[matter := old(matters)[matter].(visible := matters[matter].visible)]
      ensures ok ==> (matters[matter].visible <==> exists k :: k in members && members[k].matter == matter)
      ensures ok && matter != target ==>
        var g, taken := matters[matter].generation, Taken(old(Tables()), matter, selected, whole);
        && MessagesOf(members, g, target) == MessagesOf(old(members), g, target) + taken
        && MessagesOf(members, g, matter) == MessagesOf(old(members), g, matter) - taken
        && forall x :: x in taken ==> Locked(Tables(), g, x)
    {
      ok := matter in matters && target in matters && matters[target].generation == matters[matter].generation;
      if !ok {
        return;
      }
      if matter != target { MoveTakes(Tables(), matter, target, selected, whole); }
      var g := matters[matter].generation;
      var ids := if selected == {} || whole then Matters.MessagesOf(members, g, matter) else selected;
      Relocate(matter, ids, target);
      matters := matters[matter := matters[matter].(visible := exists k :: k in members && members[k].matter == matter)];
    }

    method PromoteGeneration(g: string)
      modifies this`generations, this`profile
      ensures Tables() == Promote(old(Tables()), g)
      ensures g in old(generations) && old(generations)[g] in {Building, Shadow} ==>
        GenerationsIn(generations, Active) == {g} && (profile.Some? ==> profile == Some(old(profile).value.(active := Some(g), enabled := true, mode := Live)))
      ensures old(Tables()) != Tables() ==> g in old(generations) && old(generations)[g] in {Building, Shadow}
      ensures forall h :: h in generations && h != g ==> generations[h] == old(generations)[h] || (old(generations)[h].Active? && generations[h].Superseded?)
      ensures generations.Keys == old(generations).Keys && members == old(members) && matters == old(matters)
    {
      if g !in generations || generations[g] !in {Building, Shadow} {
        return;
      }
      generations := map h | h in generations :: if generations[h].Active? then Superseded else generations[h];
      generations := generations[g := Active];
      if profile.Some? {
        profile := Some(profile.value.(active := Some(g), enabled := true, mode := Live));
      }
      assert generations == Promote(old(Tables()), g).generations;
    }

    // -------------------------------------------------------------------------------
    // Generations

    method NewGeneration(g: string, status: GenerationStatus, source: Option<string>, copy: Renaming)
      requires source.Some? ==> Copies(Tables(), source.value, copy)
      requires forall k :: k in members ==> members[k].matter in matters
      modifies this`generations, this`matters, this`members
      ensures Tables() == CreateGeneration(old(Tables()), g, status, source, copy)
    {
      generations := generations[g := status];
      if source.Some? {
        SameCopies(old(Tables()), Tables(), g, source.value, copy);
        var newMatters, newMembers := CopyProtected(g, source.value, copy);
        Extend(newMatters, newMembers);
      }
    }

    method ChangeProfile(r: Request, g: string, copy: Renaming) returns (built: Option<string>)
      requires Before(Tables()).active.Some? ==> Copies(Tables(), Before(Tables()).active.value, copy)
      requires forall k :: k in members ==> members[k].matter in matters
      modifies this`profile, this`generations, this`matters, this`members
      ensures Tables() == UpdateProfile(old(Tables()), r, g, copy)
      ensures built.Some? ==> built == Some(g) && g in generations && generations[g] == if Before(old(Tables())).active.Some? then Building else Active
      ensures Refused(old(Tables()), r) ==> Tables() == old(Tables()) && built.None?
      ensures !Refused(old(Tables()), r) ==>
        var was := Before(old(Tables()));
        var on := Or(r.consent, was.consented) && Or(r.enabled, was.enabled) && r.available;
        && profile == Some(Profile(Or(r.consent, was.consented), on, Or(r.style, was.style), if on then Live else Disabled,
             if was.active.None? && on then Some(g) else was.active))
        && (built.Some? <==> on && (was.active.None? || (Or(r.style, was.style) != was.style && r.rebuild)))
      ensures profile.Some? && profile.value.enabled && !Refused(old(Tables()), r) ==>
        profile.value.consented && profile.value.active.Some? && (Before(old(Tables())).active.Some? ==> profile.value.active == Before(old(Tables())).active)
    {
      var was := if profile.Some? then profile.value else Profile(false, false, "focused", Disabled, None);
      var consented, style := Or(r.consent, was.consented), Or(r.style, was.style);
      var on := consented && Or(r.enabled, was.enabled) && r.available;
      built := None;
      if on && was.active.None? && was.mode == Shadowing {
        return;
      }
      var active := was.active;
      if on && was.active.None? {
        NewGeneration(g, Active, None, copy);
        built, active := Some(g), Some(g);
      } else if on && style != was.style && r.rebuild {
        NewGeneration(g, Building, was.active, copy);
        built := Some(g);
      }
      profile := Some(Profile(consented, on, style, if on then Live else Disabled, active));
    }

    method NewShadow(style: string, g: string, copy: Renaming) returns (ok: bool)
      requires Before(Tables()).active.Some? ==> Copies(Tables(), Before(Tables()).active.value, copy)
      requires forall k :: k in members ==> members[k].matter in matters
      modifies this`profile, this`generations, this`matters, this`members
      ensures Tables() == StartShadow(old(Tables()), style, g, copy)
      ensures ok == (old(profile).Some? && old(profile).value.consented)
      ensures ok ==> GenerationsIn(generations, Shadow) == {g}
      ensures ok && g !in old(generations) ==> GenerationsIn(generations, Active) == GenerationsIn(old(generations), Active)
      ensures ok ==> profile == Some(old(profile).value.(style := style, mode := Shadowing))
      ensures !ok ==> Tables() == old(Tables())
    {
      ok := profile.Some? && profile.value.consented;
      if !ok {
        return;
      }
      OnlyShadow(generations, g);
      generations := map h | h in generations :: if generations[h].Shadow? then Superseded else generations[h];
      assert generations == Superseding(old(generations), Shadow);
      NewGeneration(g, Shadow, profile.value.active, copy);
      profile := Some(profile.value.(style := style, mode := Shadowing));
    }

    method Extend(newMatters: map<string, Matter>, newMembers: map<(string, string), Member>)
      modifies this`matters, this`members
      ensures Tables() == Extended(old(Tables()), newMatters, newMembers)
    {
      matters := matters + newMatters;
      members := members + newMembers;
    }

    /** Rows for the locked members of one matter. */
    method CopyRows(rows: map<(string, string), Member>, h: string, keys: set<(string, string)>, m: string, id: string)
      returns (r: map<(string, string), Member>)
      requires forall k :: k in keys ==> (h, k.1) in members
      ensures r.Keys == rows.Keys + set k | k in keys && members[(h, k.1)].matter == m
      ensures forall k :: k in r ==> r[k] == if k in keys && members[(h, k.1)].matter == m then Member(id, true, false) else rows[k]
    {
      r := map k | k in rows.Keys + keys && (k in rows || members[(h, k.1)].matter == m) ::
        if k in keys && members[(h, k.1)].matter == m then Member(id, true, false) else rows[k];
    }

    /** Copies the protected matters of the source one by one. */
    method CopyProtected(g: string, h: string, copy: Renaming)
      returns (newMatters: map<string, Matter>, newMembers: map<(string, string), Member>)
      requires Copies(Tables(), h, copy)
      requires forall k :: k in members ==> members[k].matter in matters
      ensures newMatters == CopiedMatters(Tables(), g, copy, Protected(Tables(), h))
      ensures newMembers == CopiedMembers(Tables(), g, h, copy, Protected(Tables(), h))
    {
      var s := Inbox(clock, profile, generations, matters, members, subgoals, apart);
      var all, keys := Protected(s, h), CopyKeys(s, g, h);
      var rest := all;
      newMatters, newMembers := map[], map[];
      while rest != {}
        invariant rest <= all
        invariant forall n :: n in newMatters <==> n in copy.from && copy.from[n] in all - rest
        invariant forall n :: n in newMatters ==> newMatters[n] == matters[copy.from[n]].(generation := g)
        invariant forall k :: k in newMembers <==> k in keys && members[(h, k.1)].matter in all - rest
        invariant forall k :: k in newMembers ==> newMembers[k] == Member(copy.to[members[(h, k.1)].matter], true, false)
        decreases rest
      {
        var m :| m in rest;
        rest := rest - {m};
        newMatters := newMatters[copy.to[m] := matters[m].(generation := g)];
        newMembers := CopyRows(newMembers, h, keys, m, copy.to[m]);
      }
      AllCopied(s, g, h, copy, newMatters, newMembers);
    }
  }
}
