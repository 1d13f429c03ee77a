/** What every run of assignments, merges, user decisions and rebuilds keeps: separated messages
    stay apart, user locks hold, matter states follow their subgoals, and the profile names the
    one active generation. */
module MatterMembership {
  import opened Basics
  import opened Matters

  /** Members, subgoals and matters refer to what exists. */
  predicate Linked(s: Inbox) {
    && (forall k :: k in s.members ==>
          s.members[k].matter in s.matters && s.matters[s.members[k].matter].generation == k.0)
    && (forall m :: m in s.matters ==> s.matters[m].generation in s.generations)
    && s.subgoals.Keys <= s.matters.Keys
  }

  predicate KeepsApart(s: Inbox, d: Apart) {
    forall a, b :: a in d.selected && b in d.others ==> !Together(s, d.generation, a, b)
  }

  /** No separated pair shares a matter in the generation of its decision. */
  predicate KeptApart(s: Inbox) {
    forall d :: d in s.apart ==> d.generation in s.generations && d.selected !! d.others && KeepsApart(s, d)
  }

  predicate Follows(m: Matter, subs: Subgoals) {
    subs != map[] ==> m.status == Derived(Statuses(subs), m.status)
  }

  /** A matter with subgoals has the status derived from theirs. */
  predicate StatusesFollow(s: Inbox) {
    forall m :: m in s.matters ==> Follows(s.matters[m], SubgoalsOf(s, m))
  }

  /** The active generations are exactly the one the profile names. */
  predicate ActiveNamed(s: Inbox) {
    && (s.profile.None? ==> s.generations == map[])
    && (s.profile.Some? && s.profile.value.active.Some? ==> s.profile.value.active.value in s.generations)
    && (forall g :: g in s.generations ==> (s.generations[g].Active? <==> s.profile.Some? && s.profile.value.active == Some(g)))
  }

  // ---------------------------------------------------------------------------------
  // References

  /** Where an assignment puts a message, and what it leaves alone. */
  lemma AssignPlaces(s: Inbox, op: Op)
    requires op.DoAssign? && Legal(s, op)
    ensures var n, t := Perform(s, op), Destination(s, op.g, op.message, op.selection, op.spare);
      && n.members == (if Locked(s, op.g, op.message) then s.members
                       else s.members[(op.g, op.message) := Member(t, false, op.provisional)])
      && n.matters.Keys == s.matters.Keys + {t} && n.generations == s.generations && n.apart == s.apart
      && n.subgoals.Keys <= s.subgoals.Keys + {t}
      && (t !in s.matters ==> n.matters[t].generation == op.g)
      && (forall m :: m in s.matters ==> n.matters[m].generation == s.matters[m].generation && n.matters[m].visible == s.matters[m].visible)
  {
  }

  lemma AssignLinked(s: Inbox, op: Op)
    requires Linked(s) && op.DoAssign? && Legal(s, op)
    ensures Linked(Perform(s, op))
  {
    AssignPlaces(s, op);
    var t := Destination(s, op.g, op.message, op.selection, op.spare);
    assert t in s.matters ==> s.matters[t].generation == op.g;
  }

  lemma CopiesLinked(s: Inbox, g: string, source: string, copy: Renaming)
    requires Linked(s) && Copies(s, source, copy)
    ensures var some := Protected(s, source);
      var matters, members := CopiedMatters(s, g, copy, some), CopiedMembers(s, g, source, copy, some);
      && (forall k :: k in members ==> k.0 == g && members[k].matter in matters)
      && (forall m :: m in matters ==> m !in s.matters && matters[m].generation == g)
  {
    var some := Protected(s, source);
    var matters, members := CopiedMatters(s, g, copy, some), CopiedMembers(s, g, source, copy, some);
    forall k | k in members ensures members[k].matter in matters {
      assert copy.from[members[k].matter] == s.members[(source, k.1)].matter;
    }
  }

  lemma ExtendedLinked(s: Inbox, g: string, matters: map<string, Matter>, members: map<(string, string), Member>)
    requires Linked(s) && g in s.generations
    requires forall k :: k in members ==> k.0 == g && members[k].matter in matters
    requires forall m :: m in matters ==> m !in s.matters && matters[m].generation == g
    ensures Linked(Extended(s, matters, members))
  {
  }

  lemma CreateLinked(s: Inbox, g: string, status: GenerationStatus, source: Option<string>, copy: Renaming)
    requires Linked(s) && g !in s.generations && (source.Some? ==> Copies(s, source.value, copy))
    ensures Linked(CreateGeneration(s, g, status, source, copy))
  {
    if source.Some? {
      var some := Protected(s, source.value);
      CopiesLinked(s, g, source.value, copy);
      ExtendedLinked(s.(generations := s.generations[g := status]), g, CopiedMatters(s, g, copy, some), CopiedMembers(s, g, source.value, copy, some));
    }
  }

  lemma UpdateProfileLinked(s: Inbox, r: Request, g: string, copy: Renaming)
    requires Linked(s) && Legal(s, DoUpdateProfile(r, g, copy))
    ensures Linked(UpdateProfile(s, r, g, copy))
  {
    if Enables(s, r) && Before(s).active.None? {
      CreateLinked(s, g, Active, None, copy);
    } else {
      CreateLinked(s, g, Building, Before(s).active, copy);
    }
  }

  lemma StartShadowLinked(s: Inbox, style: string, g: string, copy: Renaming)
    requires Linked(s) && Legal(s, DoStartShadow(style, g, copy))
    ensures Linked(StartShadow(s, style, g, copy))
  {
    CreateLinked(s.(generations := Superseding(s.generations, Shadow)), g, Shadow, Before(s).active, copy);
  }

  lemma DecisionLinked(s: Inbox, op: Op)
    requires Linked(s) && (op.DoConfirm? || op.DoSeparate? || op.DoMove?)
    ensures Linked(Perform(s, op))
  {
  }

  lemma StepLinked(s: Inbox, op: Op)
    requires Linked(s) && Legal(s, op)
    ensures Linked(Perform(s, op))
  {
    match op
    case DoAssign(_, _, _, _, _, _, _) => AssignLinked(s, op);
    case DoConfirm(_, _) => DecisionLinked(s, op);
    case DoSeparate(_, _) => DecisionLinked(s, op);
    case DoMove(_, _, _, _) => DecisionLinked(s, op);
    case DoUpdateProfile(r, g, copy) => UpdateProfileLinked(s, r, g, copy);
    case DoStartShadow(style, g, copy) => StartShadowLinked(s, style, g, copy);
    case _ =>
  }

  // ---------------------------------------------------------------------------------
  // Separated messages

  lemma PartedCrosses(d: Apart, a: set<string>, b: set<string>, x: string, y: string)
    ensures x in a && y in b && Parted(d, x, y) ==> Crosses(d, a, b)
  {
    if x in a && y in b && Parted(d, x, y) {
      if x in d.selected && y in d.others {
        assert x in d.selected * a && y in d.others * b;
      } else {
        assert y in d.selected * b && x in d.others * a;
      }
    }
  }

  lemma CrossesParted(d: Apart, a: set<string>, b: set<string>) returns (x: string, y: string)
    requires Crosses(d, a, b)
    ensures x in a && y in b && Parted(d, x, y)
  {
    if d.selected * a != {} && d.others * b != {} {
      x :| x in d.selected * a;
      y :| y in d.others * b;
    } else {
      y :| y in d.selected * b;
      x :| x in d.others * a;
    }
  }

  lemma InMessages(s: Inbox, g: string, x: string)
    ensures (g, x) in s.members ==> x in MessagesOf(s.members, g, s.members[(g, x)].matter)
  {
  }

  lemma PartnerIsSeparated(s: Inbox, d: Apart, g: string, x: string, y: string)
    requires d in s.apart && Parted(d, x, y)
    ensures (g, y) in s.members ==> s.members[(g, y)].matter in SeparatedFrom(s, g, x)
  {
    if (g, y) in s.members {
      var k := (g, y);
      assert k in s.members && k.0 == g && k.1 == y;
    }
  }

  /** A message may not go to exactly those matters that hold one it was parted from, by a decision
      of whatever generation. */
  lemma SeparatedFromIsExact(s: Inbox, g: string, message: string, matter: string)
    ensures matter in SeparatedFrom(s, g, message) <==>
      exists d, k :: d in s.apart && k in s.members && k.0 == g && s.members[k].matter == matter && Parted(d, message, k.1)
  {
    if d, k :| d in s.apart && k in s.members && k.0 == g && s.members[k].matter == matter && Parted(d, message, k.1) {
      PartnerIsSeparated(s, d, g, message, k.1);
    }
  }

  lemma AssignApart(s: Inbox, op: Op)
    requires Linked(s) && KeptApart(s) && op.DoAssign? && Legal(s, op)
    ensures KeptApart(Perform(s, op))
  {
    AssignPlaces(s, op);
    var n := Perform(s, op);
    if !Locked(s, op.g, op.message) {
      forall d, a, b | d in s.apart && a in d.selected && b in d.others ensures !Together(n, d.generation, a, b) {
        assert !Together(s, d.generation, a, b);
        if a == op.message {
          PartnerIsSeparated(s, d, op.g, a, b);
        } else if b == op.message {
          PartnerIsSeparated(s, d, op.g, b, a);
        }
      }
    }
  }

  lemma ReconcileApart(s: Inbox, g: string, source: string, target: string, status: Status)
    requires Linked(s) && KeptApart(s)
    ensures KeptApart(Reconcile(s, g, source, target, status))
  {
    if MayMerge(s, g, source, target) {
      var n := Reconcile(s, g, source, target, status);
      var from, into := MessagesOf(s.members, g, source), MessagesOf(s.members, g, target);
      forall d, a, b | d in s.apart && a in d.selected && b in d.others ensures !Together(n, d.generation, a, b) {
        assert !Together(s, d.generation, a, b);
        InMessages(s, g, a);
        InMessages(s, g, b);
        PartedCrosses(d, from, into, a, b);
        PartedCrosses(d, from, into, b, a);
      }
    }
  }

  lemma SeparateApart(s: Inbox, matter: string, selected: set<string>)
    requires Linked(s) && KeptApart(s)
    ensures KeptApart(Separate(s, matter, selected))
  {
    if matter in s.matters && Chosen(s, matter, selected) != {} {
      var n := Separate(s, matter, selected);
      forall d, a, b | d in n.apart && a in d.selected && b in d.others ensures !Together(n, d.generation, a, b) {
        if d in s.apart {
          assert !Together(s, d.generation, a, b);
        } else {
          var k :| k in s.members && k.0 == d.generation && s.members[k].matter == matter && k.1 == b;
        }
      }
    }
  }

  /** Members and decisions alone determine who is kept apart. */
  lemma SamePairs(s: Inbox, n: Inbox)
    requires KeptApart(s) && n.apart == s.apart && s.generations.Keys <= n.generations.Keys
    requires forall g, a, b :: g in s.generations && Together(n, g, a, b) ==> Together(s, g, a, b)
    ensures KeptApart(n)
  {
    forall d | d in n.apart ensures KeepsApart(n, d) {
      assert KeepsApart(s, d);
    }
  }

  lemma CreatePairs(s: Inbox, g: string, status: GenerationStatus, source: Option<string>, copy: Renaming)
    requires Linked(s) && g !in s.generations && (source.Some? ==> Copies(s, source.value, copy))
    ensures var n := CreateGeneration(s, g, status, source, copy);
      && n.apart == s.apart && s.generations.Keys <= n.generations.Keys
      && forall h, a, b :: h in s.generations ==> (Together(n, h, a, b) <==> Together(s, h, a, b))
  {
  }

  lemma UpdateProfileApart(s: Inbox, r: Request, g: string, copy: Renaming)
    requires Linked(s) && KeptApart(s) && Legal(s, DoUpdateProfile(r, g, copy))
    ensures KeptApart(UpdateProfile(s, r, g, copy))
  {
    if Enables(s, r) && Before(s).active.None? {
      CreatePairs(s, g, Active, None, copy);
    } else {
      CreatePairs(s, g, Building, Before(s).active, copy);
    }
    SamePairs(s, UpdateProfile(s, r, g, copy));
  }

  lemma StartShadowApart(s: Inbox, style: string, g: string, copy: Renaming)
    requires Linked(s) && KeptApart(s) && Legal(s, DoStartShadow(style, g, copy))
    ensures KeptApart(StartShadow(s, style, g, copy))
  {
    CreatePairs(s.(generations := Superseding(s.generations, Shadow)), g, Shadow, Before(s).active, copy);
    SamePairs(s, StartShadow(s, style, g, copy));
  }

  lemma OthersApart(s: Inbox, op: Op)
    requires Linked(s) && KeptApart(s) && (op.DoConfirm? || op.DoHide? || op.DoForget? || op.DoPromote?)
    ensures KeptApart(Perform(s, op))
  {
    SamePairs(s, Perform(s, op));
  }

  lemma StepApart(s: Inbox, op: Op)
    requires Linked(s) && KeptApart(s) && Legal(s, op) && !op.DoMove?
    ensures KeptApart(Perform(s, op))
  {
    match op
    case DoAssign(_, _, _, _, _, _, _) => AssignApart(s, op);
    case DoReconcile(g, source, target, status) => ReconcileApart(s, g, source, target, status);
    case DoSeparate(matter, selected) => SeparateApart(s, matter, selected);
    case DoUpdateProfile(r, g, copy) => UpdateProfileApart(s, r, g, copy);
    case DoStartShadow(style, g, copy) => StartShadowApart(s, style, g, copy);
    case _ => OthersApart(s, op);
  }

  predicate NoMoves(run: seq<Event>) {
    forall i :: 0 <= i < |run| ==> !run[i].op.DoMove?
  }

  /** Never recombine: over every run without a user move, no pair of an accepted separate
      decision, old or made on the way, shares a matter in the decision's generation. */
  lemma {:induction false} NeverRecombined(s: Inbox, run: seq<Event>)
    requires Linked(s) && KeptApart(s) && LegalRun(s, run) && NoMoves(run)
    ensures Linked(Exec(s, run)) && KeptApart(Exec(s, run)) && s.apart <= Exec(s, run).apart
    decreases |run|
  {
    if run != [] {
      var l := Later(s, run[0].elapsed);
      SamePairs(s, l);
      StepLinked(l, run[0].op);
      StepApart(l, run[0].op);
      NeverRecombined(Step(s, run[0]), run[1..]);
    }
  }

  /** Only the user can override a separation: a move does so exactly when it brings a message
      to a matter that holds one separated from it. */
  lemma MoveRecombines(s: Inbox, matter: string, target: string, selected: set<string>, whole: bool)
    requires Linked(s) && KeptApart(s) && matter in s.matters && target in s.matters && matter != target
    requires s.matters[target].generation == s.matters[matter].generation
    ensures KeptApart(Move(s, matter, target, selected, whole)) <==>
      !Prohibited(s, s.matters[matter].generation, Taken(s, matter, selected, whole), MessagesOf(s.members, s.matters[matter].generation, target))
  {
    var g := s.matters[matter].generation;
    var n, taken, held := Move(s, matter, target, selected, whole), Taken(s, matter, selected, whole), MessagesOf(s.members, g, target);
    if Prohibited(s, g, taken, held) {
      var d :| d in s.apart && d.generation == g && Crosses(d, taken, held);
      var x, y := CrossesParted(d, taken, held);
      MovedTogether(s, matter, target, selected, whole, x, y);
    } else {
      forall d, a, b | d in s.apart && a in d.selected && b in d.others ensures !Together(n, d.generation, a, b) {
        assert !Together(s, d.generation, a, b);
        InMessages(s, g, a);
        InMessages(s, g, b);
        PartedCrosses(d, taken, held, a, b);
        PartedCrosses(d, taken, held, b, a);
      }
    }
  }

  lemma MovedTogether(s: Inbox, matter: string, target: string, selected: set<string>, whole: bool, x: string, y: string)
    requires Linked(s) && matter in s.matters && target in s.matters && matter != target
    requires s.matters[target].generation == s.matters[matter].generation
    requires x in Taken(s, matter, selected, whole) && y in MessagesOf(s.members, s.matters[matter].generation, target)
    ensures Together(Move(s, matter, target, selected, whole), s.matters[matter].generation, x, y)
    ensures Together(Move(s, matter, target, selected, whole), s.matters[matter].generation, y, x)
  {
  }

  // ---------------------------------------------------------------------------------
  // Separations made in another generation

  /** No pair separated in any generation shares a matter in this one. */
  predicate ApartIn(s: Inbox, g: string) {
    forall d, a, b :: d in s.apart && a in d.selected && b in d.others ==> a != b && !Together(s, g, a, b)
  }

  /** Automatic assignment respects the separations of every generation. */
  lemma AssignmentSparesEverySeparation(s: Inbox, op: Op)
    requires Linked(s) && op.DoAssign? && Legal(s, op) && ApartIn(s, op.g)
    ensures ApartIn(Perform(s, op), op.g)
  {
    AssignPlaces(s, op);
    var n := Perform(s, op);
    if !Locked(s, op.g, op.message) {
      forall d, a, b | d in s.apart && a in d.selected && b in d.others ensures !Together(n, op.g, a, b) {
        assert !Together(s, op.g, a, b) && a != b;
        if a == op.message {
          PartnerIsSeparated(s, d, op.g, a, b);
        } else if b == op.message {
          PartnerIsSeparated(s, d, op.g, b, a);
        }
      }
    }
  }

  predicate CrossedElsewhere(s: Inbox, g: string, from: set<string>, into: set<string>) {
    exists d :: d in s.apart && d.generation != g && Crosses(d, from, into)
  }

  /** The automatic merge looks at its own generation only: it recombines separated messages
      exactly when a decision of another generation separates the two matters. */
  lemma MergeForgetsOtherGenerations(s: Inbox, g: string, source: string, target: string, status: Status)
    requires Linked(s) && ApartIn(s, g) && MayMerge(s, g, source, target)
    ensures ApartIn(Reconcile(s, g, source, target, status), g) <==>
      !CrossedElsewhere(s, g, MessagesOf(s.members, g, source), MessagesOf(s.members, g, target))
  {
    var n, from, into := Reconcile(s, g, source, target, status), MessagesOf(s.members, g, source), MessagesOf(s.members, g, target);
    if CrossedElsewhere(s, g, from, into) {
      var d :| d in s.apart && d.generation != g && Crosses(d, from, into);
      var x, y := CrossesParted(d, from, into);
      assert Together(n, g, x, y) && Together(n, g, y, x);
    } else {
      forall d, a, b | d in s.apart && a in d.selected && b in d.others ensures a != b && !Together(n, g, a, b) {
        assert a != b && !Together(s, g, a, b);
        InMessages(s, g, a);
        InMessages(s, g, b);
        PartedCrosses(d, from, into, a, b);
        PartedCrosses(d, from, into, b, a);
      }
    }
  }

  const GROUPED: Matter := Matter("1", true, Informational)
  const COPY: Renaming := Renaming(map["m" := "y"], map["y" := "m"])

  /** Consent creates generation 1, which groups the messages `a` and `b` together; the user
      separates `a` and confirms `b`; a change of style rebuilds the groups as generation 2, and
      `a` gets a matter of its own there. */
  const REBUILD: seq<Op> := [
    DoUpdateProfile(Request(Some(true), Some(true), None, false, true), "1", COPY),
    DoAssign("1", "a", None, "m", Informational, [], true),
    DoAssign("1", "b", Some("m"), "n", Informational, [], true),
    DoSeparate("m", {"a"}),
    DoConfirm("m", {"b"}),
    DoUpdateProfile(Request(None, None, Some("brief"), true, true), "2", COPY),
    DoAssign("2", "a", None, "x", Informational, [], true)]

  /** The inbox after the first `n` of these steps. */
  function Rebuilding(n: nat): Inbox {
    if n == 0 then EMPTY
    else if n <= 5 then EMPTY.(
      profile := Some(Profile(true, true, "focused", Live, Some("1"))),
      generations := map["1" := Active],
      matters := if n == 1 then map[] else map["m" := GROUPED],
      members :=
        if n == 1 then map[]
        else if n == 2 then map[("1", "a") := Member("m", false, true)]
        else if n == 3 then map[("1", "a") := Member("m", false, true), ("1", "b") := Member("m", false, true)]
        else if n == 4 then map[("1", "b") := Member("m", false, true)]
        else map[("1", "b") := Member("m", true, false)],
      apart := if n <= 3 then {} else {Apart("1", {"a"}, {"b"})})
    else EMPTY.(
      profile := Some(Profile(true, true, "brief", Live, Some("1"))),
      generations := map["1" := Active, "2" := Building],
      matters := if n == 6 then map["m" := GROUPED, "y" := GROUPED.(generation := "2")]
                 else map["m" := GROUPED, "y" := GROUPED.(generation := "2"), "x" := GROUPED.(generation := "2")],
      members := if n == 6 then map[("1", "b") := Member("m", true, false), ("2", "b") := Member("y", true, false)]
                 else map[("1", "b") := Member("m", true, false), ("2", "b") := Member("y", true, false), ("2", "a") := Member("x", false, true)],
      apart := {Apart("1", {"a"}, {"b"})})
  }

  predicate Rebuilds(n: nat)
    requires n < 7
  {
    Legal(Rebuilding(n), REBUILD[n]) && Perform(Rebuilding(n), REBUILD[n]) == Rebuilding(n + 1)
  }

  lemma RebuildStarts()
    ensures Rebuilds(0) && Rebuilds(1) && Rebuilds(2)
  {
  }

  lemma RebuildSeparates()
    ensures Rebuilds(3)
  {
    var s := Rebuilding(3);
    assert MessagesOf(s.members, "1", "m") == {"a", "b"};
    assert Removed(s, "m", {"a"}) == Rebuilding(4).members;
    assert MessagesOf(Rebuilding(4).members, "1", "m") == {"b"};
    assert {"a", "b"} - {"a"} == {"b"};
  }

  lemma RebuildConfirms()
    ensures Rebuilds(4)
  {
    assert Relocated(Rebuilding(4), "m", {"b"}, "m") == Rebuilding(5).members;
  }

  /** What a change of style with a rebuild amounts to. */
  lemma Restyled(s: Inbox, t: Inbox, was: Profile, r: Request, g: string, copy: Renaming)
    requires s.profile == Some(was) && was.consented && was.enabled && was.active.Some? && g !in s.generations
    requires r.consent.None? && r.enabled.None? && r.style.Some? && r.style.value != was.style && r.rebuild && r.available
    requires Copies(s, was.active.value, copy)
    requires CreateGeneration(s, g, Building, was.active, copy)
      .(profile := Some(Profile(true, true, r.style.value, Live, was.active))) == t
    ensures Legal(s, DoUpdateProfile(r, g, copy)) && Perform(s, DoUpdateProfile(r, g, copy)) == t
  {
    assert Before(s) == was && Enables(s, r) && !Refused(s, r) && Or(r.style, was.style) == r.style.value;
    var built := CreateGeneration(s, g, Building, was.active, copy);
    assert UpdateProfile(s, r, g, copy) == built.(profile := Some(Profile(true, true, r.style.value, Live, was.active)));
  }

  lemma RebuildCopies()
    ensures Rebuilds(5)
  {
    var s, t, r := Rebuilding(5), Rebuilding(6), REBUILD[5].request;
    assert Legal(s, DoUpdateProfile(r, "2", COPY)) && Perform(s, DoUpdateProfile(r, "2", COPY)) == t by {
      CopiedGeneration();
      Restyled(s, t, Profile(true, true, "focused", Live, Some("1")), r, "2", COPY);
    }
  }

  lemma CopiedGeneration()
    ensures Copies(Rebuilding(5), "1", COPY)
    ensures CreateGeneration(Rebuilding(5), "2", Building, Some("1"), COPY)
      .(profile := Some(Profile(true, true, "brief", Live, Some("1")))) == Rebuilding(6)
  {
    CopiedRows();
  }

  lemma CopiedRows()
    ensures var s := Rebuilding(5);
      && Protected(s, "1") == {"m"} && Copies(s, "1", COPY)
      && CopiedMatters(s, "2", COPY, {"m"}) == map["y" := GROUPED.(generation := "2")]
      && CopiedMembers(s, "2", "1", COPY, {"m"}) == map[("2", "b") := Member("y", true, false)]
  {
    var s := Rebuilding(5);
    assert ("1", "b") in s.members && s.members[("1", "b")].locked;
    assert Protected(s, "1") == {"m"};
    assert CopyKeys(s, "2", "1") == {("2", "b")};
  }

  lemma RebuildAssigns()
    ensures Rebuilds(6)
  {
  }

  /** A run that ends where the merge of two matters is allowed and puts separated messages
      together again. */
  lemma RebuildRecombines()
    ensures Rebuilding(0) == EMPTY && Rebuilds(0) && Rebuilds(1) && Rebuilds(2) && Rebuilds(3) && Rebuilds(4) && Rebuilds(5) && Rebuilds(6)
    ensures var s := Rebuilding(7);
      && Linked(s) && KeptApart(s) && ApartIn(s, "2") && ActiveNamed(s)
      && MayMerge(s, "2", "x", "y") && Together(Reconcile(s, "2", "x", "y", Informational), "2", "a", "b")
  {
    RebuildStarts();
    RebuildSeparates();
    RebuildConfirms();
    RebuildCopies();
    RebuildAssigns();
    RebuiltMerges();
  }

  lemma RebuiltMerges()
    ensures var s := Rebuilding(7);
      && Linked(s) && KeptApart(s) && ApartIn(s, "2") && ActiveNamed(s)
      && MayMerge(s, "2", "x", "y") && Together(Reconcile(s, "2", "x", "y", Informational), "2", "a", "b")
  {
    var s := Rebuilding(7);
    assert KeepsApart(s, Apart("1", {"a"}, {"b"}));
    InMessages(s, "2", "a");
    InMessages(s, "2", "b");
  }

  // ---------------------------------------------------------------------------------
  // Locks

  /** Steps that may change a membership the user locked: the user's own, and message deletion. */
  predicate Unlocks(op: Op) {
    op.DoSeparate? || op.DoMove? || op.DoForget?
  }

  predicate LocksHold(s: Inbox, n: Inbox) {
    forall k :: k in s.members && s.members[k].locked ==> k in n.members && n.members[k].locked && n.members[k].matter == s.members[k].matter
  }

  lemma CreateLocks(s: Inbox, g: string, status: GenerationStatus, source: Option<string>, copy: Renaming)
    requires Linked(s) && g !in s.generations && (source.Some? ==> Copies(s, source.value, copy))
    ensures LocksHold(s, CreateGeneration(s, g, status, source, copy))
  {
    forall k | k in s.members ensures k.0 != g {
      assert s.members[k].matter in s.matters;
    }
  }

  lemma GenerationLocks(s: Inbox, op: Op)
    requires Linked(s) && Legal(s, op) && (op.DoUpdateProfile? || op.DoStartShadow?)
    ensures LocksHold(s, Perform(s, op))
  {
    var active := Before(s).active;
    if op.DoStartShadow? {
      CreateLocks(s.(generations := Superseding(s.generations, Shadow)), op.g, Shadow, active, op.copy);
    } else if Enables(s, op.request) && active.None? {
      CreateLocks(s, op.g, Active, None, op.copy);
    } else {
      CreateLocks(s, op.g, Building, active, op.copy);
    }
  }

  lemma StepLocks(s: Inbox, op: Op)
    requires Linked(s) && Legal(s, op) && !Unlocks(op)
    ensures LocksHold(s, Perform(s, op))
  {
    match op
    case DoAssign(_, _, _, _, _, _, _) => AssignPlaces(s, op);
    case DoUpdateProfile(_, _, _) => GenerationLocks(s, op);
    case DoStartShadow(_, _, _) => GenerationLocks(s, op);
    case _ =>
  }

  predicate NeverUnlocks(run: seq<Event>) {
    forall i :: 0 <= i < |run| ==> !Unlocks(run[i].op)
  }

  /** No run of assignments, merges, confirmations and rebuilds moves or unlocks a member the
      user locked. */
  lemma {:induction false} UserLocksHold(s: Inbox, run: seq<Event>)
    requires Linked(s) && LegalRun(s, run) && NeverUnlocks(run)
    ensures LocksHold(s, Exec(s, run))
    decreases |run|
  {
    if run != [] {
      var l := Later(s, run[0].elapsed);
      StepLinked(l, run[0].op);
      StepLocks(l, run[0].op);
      UserLocksHold(Step(s, run[0]), run[1..]);
    }
  }

  /** A rebuilt generation holds exactly the locked messages of its source, all locked, with the
      same ones together, and leaves every other membership alone. */
  lemma RebuildKeepsPartition(s: Inbox, g: string, status: GenerationStatus, source: string, copy: Renaming)
    requires Linked(s) && g !in s.generations && Copies(s, source, copy)
    ensures var n := CreateGeneration(s, g, status, Some(source), copy);
      && (forall m :: (g, m) in n.members <==> Locked(s, source, m))
      && (forall m :: Locked(s, source, m) ==> Locked(n, g, m))
      && (forall a, b :: Together(n, g, a, b) <==> Locked(s, source, a) && Locked(s, source, b) && Together(s, source, a, b))
      && (forall k :: k in s.members ==> k in n.members && n.members[k] == s.members[k])
      && (forall k :: k in n.members && k.0 != g ==> k in s.members)
  {
    var copied := CopiedMembers(s, g, source, copy, Protected(s, source));
    forall m ensures (g, m) in copied <==> Locked(s, source, m) {
      if Locked(s, source, m) {
        assert (source, m) in s.members && s.members[(source, m)].matter in Protected(s, source);
      }
    }
    forall k | k in s.members ensures k !in copied {
      assert k.0 != g;
    }
  }

  /** The rebuilt generation has a matter of the same status and visibility for every matter that
      holds a locked message, and no other; nothing else changes. */
  lemma RebuildCopiesMatters(s: Inbox, g: string, status: GenerationStatus, source: string, copy: Renaming)
    requires Linked(s) && g !in s.generations && Copies(s, source, copy)
    ensures var n := CreateGeneration(s, g, status, Some(source), copy);
      && n == s.(generations := s.generations[g := status], matters := n.matters, members := n.members)
      && (forall m :: m in s.matters ==> m in n.matters && n.matters[m] == s.matters[m])
      && (forall m :: m in n.matters && m !in s.matters ==>
            exists x :: Locked(s, source, x) && copy.to[s.members[(source, x)].matter] == m)
      && (forall x :: Locked(s, source, x) ==>
            var m := s.members[(source, x)].matter; copy.to[m] in n.matters && n.matters[copy.to[m]] == s.matters[m].(generation := g))
  {
    forall m | m in CopiedMatters(s, g, copy, Protected(s, source)) ensures exists x :: Locked(s, source, x) && copy.to[s.members[(source, x)].matter] == m {
      var k :| k in s.members && k.0 == source && s.members[k].locked && s.members[k].matter == copy.from[m];
      assert Locked(s, source, k.1) && k == (source, k.1);
    }
    forall x | Locked(s, source, x) ensures s.members[(source, x)].matter in Protected(s, source) {
    }
  }

  /** Hiding a matter hides it and changes nothing else. */
  lemma HidesOnly(s: Inbox, matter: string)
    ensures var n := Hide(s, matter);
      && n == s.(matters := n.matters) && n.matters.Keys == s.matters.Keys
      && forall m :: m in n.matters ==> n.matters[m] == s.matters[m].(visible := m != matter && s.matters[m].visible)
  {
  }

  /** Deleted messages leave every generation, and nothing else changes. */
  lemma ForgetsOnly(s: Inbox, messages: set<string>)
    ensures var n := Forget(s, messages);
      && n == s.(members := n.members)
      && (forall g, x :: (g, x) in n.members <==> (g, x) in s.members && x !in messages)
      && forall k :: k in n.members ==> n.members[k] == s.members[k]
  {
    var n := Forget(s, messages);
    forall g, x ensures (g, x) in n.members <==> (g, x) in s.members && x !in messages {
      var k := (g, x);
      assert k.1 == x;
    }
  }

  // ---------------------------------------------------------------------------------
  // Active generation and statuses

  lemma UpdateProfileActive(s: Inbox, r: Request, g: string, copy: Renaming)
    requires ActiveNamed(s) && Legal(s, DoUpdateProfile(r, g, copy))
    ensures ActiveNamed(UpdateProfile(s, r, g, copy))
  {
  }

  lemma GenerationActive(s: Inbox, op: Op)
    requires ActiveNamed(s) && Legal(s, op) && (op.DoStartShadow? || op.DoPromote?)
    ensures ActiveNamed(Perform(s, op))
  {
  }

  lemma StepActive(s: Inbox, op: Op)
    requires ActiveNamed(s) && Legal(s, op)
    ensures ActiveNamed(Perform(s, op))
  {
    match op
    case DoUpdateProfile(r, g, copy) => UpdateProfileActive(s, r, g, copy);
    case DoAssign(_, _, _, _, _, _, _) => AssignActive(s, op);
    case DoStartShadow(_, _, _) => GenerationActive(s, op);
    case DoPromote(_) => GenerationActive(s, op);
    case _ =>
  }

  lemma AssignActive(s: Inbox, op: Op)
    requires op.DoAssign? && Legal(s, op)
    ensures Perform(s, op).generations == s.generations && Perform(s, op).profile == s.profile
  {
  }

  lemma SomeStatus(subs: Subgoals)
    ensures subs != map[] ==> Statuses(subs) != {}
  {
    if subs != map[] {
      assert subs.Keys != {};
      var k :| k in subs.Keys;
      assert subs[k].status in Statuses(subs);
    }
  }

  lemma RecordedStatus(subs: Subgoals, status: Status)
    ensures subs != map[] ==> Derived(Statuses(subs), status) == Derived(Statuses(subs), Derived(Statuses(subs), status))
  {
    SomeStatus(subs);
  }

  /** Steps other than assignment and merge leave subgoals and the statuses of their matters. */
  lemma SameStatuses(s: Inbox, n: Inbox)
    requires Linked(s) && StatusesFollow(s) && n.subgoals == s.subgoals
    requires forall m :: m in s.matters ==> m in n.matters && n.matters[m].status == s.matters[m].status
    ensures StatusesFollow(n)
  {
    forall m | m in n.matters ensures Follows(n.matters[m], SubgoalsOf(n, m)) {
      if m in s.matters {
        assert Follows(s.matters[m], SubgoalsOf(s, m));
      }
    }
  }

  lemma AssignStatuses(s: Inbox, op: Op)
    requires Linked(s) && StatusesFollow(s) && op.DoAssign? && Legal(s, op)
    ensures StatusesFollow(Perform(s, op))
  {
    var t := Destination(s, op.g, op.message, op.selection, op.spare);
    var n := Perform(s, op);
    RecordedStatus(SubgoalsOf(n, t), op.status);
    forall m | m in n.matters ensures Follows(n.matters[m], SubgoalsOf(n, m)) {
      assert m in s.matters ==> Follows(s.matters[m], SubgoalsOf(s, m));
    }
  }

  lemma ReconcileStatuses(s: Inbox, g: string, source: string, target: string, status: Status)
    requires Linked(s) && StatusesFollow(s)
    ensures StatusesFollow(Reconcile(s, g, source, target, status))
  {
    var n := Reconcile(s, g, source, target, status);
    RecordedStatus(MergedSubgoals(SubgoalsOf(s, source), SubgoalsOf(s, target), s.clock), status);
    forall m | m in n.matters ensures Follows(n.matters[m], SubgoalsOf(n, m)) {
      assert Follows(s.matters[m], SubgoalsOf(s, m));
    }
  }

  lemma CreateKeepsMatters(s: Inbox, g: string, status: GenerationStatus, source: Option<string>, copy: Renaming)
    requires source.Some? ==> Copies(s, source.value, copy)
    ensures var n := CreateGeneration(s, g, status, source, copy);
      n.subgoals == s.subgoals && forall m :: m in s.matters ==> m in n.matters && n.matters[m] == s.matters[m]
  {
  }

  lemma GenerationStatuses(s: Inbox, op: Op)
    requires Linked(s) && StatusesFollow(s) && Legal(s, op) && (op.DoUpdateProfile? || op.DoStartShadow?)
    ensures StatusesFollow(Perform(s, op))
  {
    var active := Before(s).active;
    if op.DoStartShadow? {
      CreateKeepsMatters(s.(generations := Superseding(s.generations, Shadow)), op.g, Shadow, active, op.copy);
    } else if Enables(s, op.request) && active.None? {
      CreateKeepsMatters(s, op.g, Active, None, op.copy);
    } else {
      CreateKeepsMatters(s, op.g, Building, active, op.copy);
    }
    SameStatuses(s, Perform(s, op));
  }

  lemma OtherStatuses(s: Inbox, op: Op)
    requires Linked(s) && StatusesFollow(s) && (op.DoConfirm? || op.DoSeparate? || op.DoMove? || op.DoHide? || op.DoForget? || op.DoPromote?)
    ensures StatusesFollow(Perform(s, op))
  {
    SameStatuses(s, Perform(s, op));
  }

  lemma StepStatuses(s: Inbox, op: Op)
    requires Linked(s) && StatusesFollow(s) && Legal(s, op)
    ensures StatusesFollow(Perform(s, op))
  {
    match op
    case DoAssign(_, _, _, _, _, _, _) => AssignStatuses(s, op);
    case DoReconcile(g, source, target, status) => ReconcileStatuses(s, g, source, target, status);
    case DoUpdateProfile(_, _, _) => GenerationStatuses(s, op);
    case DoStartShadow(_, _, _) => GenerationStatuses(s, op);
    case _ => OtherStatuses(s, op);
  }

  /** In every reachable state exactly the generation the profile names is active, and every
      matter with subgoals shows the status derived from them. */
  lemma {:induction false} ReachableInbox(s: Inbox, run: seq<Event>)
    requires Linked(s) && ActiveNamed(s) && StatusesFollow(s) && LegalRun(s, run)
    ensures Linked(Exec(s, run)) && ActiveNamed(Exec(s, run)) && StatusesFollow(Exec(s, run))
    decreases |run|
  {
    if run != [] {
      var l, op := Later(s, run[0].elapsed), run[0].op;
      SameStatuses(s, l);
      StepLinked(l, op);
      StepActive(l, op);
      StepStatuses(l, op);
      ReachableInbox(Step(s, run[0]), run[1..]);
    }
  }

  /** How soon a status asks for attention. */
  function Urgency(s: Status): nat {
    match s
    case NeedsYou => 3
    case WaitingOnOthers => 2
    case InProgress => 1
    case _ => 0
  }

  /** A matter shows its most urgent open subgoal; once none is open, it is complete only if all
      are, partly complete if some are, failed if none is complete and some failed, and cancelled
      otherwise. */
  lemma DerivedIsMostUrgent(values: set<Status>, fallback: Status)
    requires values != {}
    ensures var d := Derived(values, fallback);
      && (forall v :: v in values ==> Urgency(v) <= Urgency(d)) && (Urgency(d) > 0 ==> d in values)
      && (Urgency(d) == 0 ==>
            && (d == Completed <==> values == {Completed})
            && (d == PartiallyCompleted <==> Completed in values && values != {Completed})
            && (d == Failed <==> Completed !in values && Failed in values)
            && (d == Cancelled <==> Completed !in values && Failed !in values))
  {
    if forall v :: v in values ==> v == Completed {
      var v :| v in values;
      assert values == {Completed};
    }
    if forall v :: v in values ==> v == Cancelled {
      var v :| v in values;
      assert values == {Cancelled};
    }
    if forall v :: v in values ==> v == Failed {
      var v :| v in values;
      assert values == {Failed};
    }
  }

  /** Sets of subgoals that agree on a status still do when they are put together. */
  lemma DerivedOfUnion(a: set<Status>, b: set<Status>, x: Status, y: Status)
    requires a != {} && b != {} && Derived(a, x) == Derived(b, y)
    ensures Derived(a + b, x) == Derived(a, x)
  {
    var v, w :| v in a && w in b;
    assert v in a + b && w in a + b;
  }

  /** A subgoal has a status of its own work, never one that only a whole matter can have. */
  predicate OfWork(subs: Subgoals) {
    forall k :: k in subs ==> subs[k].status !in {PartiallyCompleted, Informational}
  }

  predicate SubgoalsOfWork(s: Inbox) {
    forall m :: m in s.subgoals ==> OfWork(s.subgoals[m])
  }

  lemma {:induction false} RecordedOfWork(existing: Subgoals, items: seq<Item>, allowed: set<string>, message: string, now: nat)
    requires OfWork(existing)
    ensures OfWork(RecordAll(existing, items, allowed, message, now))
    decreases |items|
  {
    if items != [] {
      RecordedOfWork(existing, items[..|items| - 1], allowed, message, now);
    }
  }

  lemma StepOfWork(s: Inbox, op: Op)
    requires SubgoalsOfWork(s) && Legal(s, op)
    ensures SubgoalsOfWork(Perform(s, op))
  {
    if op.DoAssign? {
      var t := Destination(s, op.g, op.message, op.selection, op.spare);
      var p := Placed(s, op.g, op.message, t, op.status, false);
      RecordedOfWork(SubgoalsOf(s, t), FirstTwelve(op.items), MessagesOf(p.members, op.g, t), op.message, s.clock);
    }
  }

  /** In every reachable state. */
  lemma {:induction false} SubgoalsStayWork(s: Inbox, run: seq<Event>)
    requires SubgoalsOfWork(s) && LegalRun(s, run)
    ensures SubgoalsOfWork(Exec(s, run))
    decreases |run|
  {
    if run != [] {
      StepOfWork(Later(s, run[0].elapsed), run[0].op);
      SubgoalsStayWork(Step(s, run[0]), run[1..]);
    }
  }

  // ---------------------------------------------------------------------------------
  // Merge and reassignment

  lemma MergeMoves(s: Inbox, g: string, source: string, target: string, status: Status)
    requires Linked(s) && MayMerge(s, g, source, target)
    ensures var n := Reconcile(s, g, source, target, status);
      && n.members.Keys == s.members.Keys
      && MessagesOf(n.members, g, source) == {}
      && MessagesOf(n.members, g, target) == MessagesOf(s.members, g, source) + MessagesOf(s.members, g, target)
  {
    var n := Reconcile(s, g, source, target, status);
    forall x | x in MessagesOf(s.members, g, source) ensures x in MessagesOf(n.members, g, target) {
      assert (g, x) in s.members && n.members[(g, x)].matter == target;
    }
    forall x | x in MessagesOf(s.members, g, target) ensures x in MessagesOf(n.members, g, target) {
      assert (g, x) in s.members && n.members[(g, x)].matter == target;
    }
  }

  /** An accepted merge keeps every message, empties and hides the source, and gives the target
      all messages, all subgoal keys and all their evidence; nothing else changes. */
  lemma MergeConserves(s: Inbox, g: string, source: string, target: string, status: Status)
    requires Linked(s) && MayMerge(s, g, source, target)
    ensures var n := Reconcile(s, g, source, target, status);
      && n.members.Keys == s.members.Keys
      && MessagesOf(n.members, g, source) == {} && !n.matters[source].visible
      && MessagesOf(n.members, g, target) == MessagesOf(s.members, g, source) + MessagesOf(s.members, g, target)
      && (forall k :: k in s.members && (k.0 != g || s.members[k].matter != source) ==> n.members[k] == s.members[k])
      && (forall k :: k in s.members ==> n.members[k].locked == s.members[k].locked)
      && SubgoalsOf(n, source) == map[]
      && SubgoalsOf(n, target).Keys == SubgoalsOf(s, source).Keys + SubgoalsOf(s, target).Keys
      && (forall m :: m in s.matters && m != source && m != target ==> n.matters[m] == s.matters[m] && SubgoalsOf(n, m) == SubgoalsOf(s, m))
  {
    MergeMoves(s, g, source, target, status);
  }

  /** Of a subgoal held by both matters the later state stays, the source's on a tie. */
  lemma MergeKeepsEvidence(s: Inbox, g: string, source: string, target: string, status: Status, key: string)
    requires MayMerge(s, g, source, target)
    ensures var a, b, c := SubgoalsOf(s, source), SubgoalsOf(s, target), SubgoalsOf(Reconcile(s, g, source, target, status), target);
      key in c ==>
        && c[key].evidence == (if key in a then a[key].evidence else {}) + (if key in b then b[key].evidence else {})
        && ((key in a && c[key].status == a[key].status && (key in b ==> a[key].updatedAt >= b[key].updatedAt))
            || (key in b && c[key].status == b[key].status && (key in a ==> a[key].updatedAt < b[key].updatedAt)))
  {
  }

  /** A visible matter can become empty without being hidden: assignment does it exactly by
      taking away its one unlocked message. */
  lemma ReassignmentEmpties(s: Inbox, op: Op, m: string)
    requires Linked(s) && op.DoAssign? && Legal(s, op) && VisibleIn(s, op.g, m) && MessagesOf(s.members, op.g, m) != {}
    ensures var n := Perform(s, op);
      VisibleIn(n, op.g, m) && (MessagesOf(n.members, op.g, m) == {} <==>
        && MessagesOf(s.members, op.g, m) == {op.message} && !Locked(s, op.g, op.message)
        && (op.selection.None? || op.selection.value != m))
  {
    AssignPlaces(s, op);
    var n := Perform(s, op);
    InMessages(n, op.g, op.message);
    forall x | x in MessagesOf(s.members, op.g, m) && x != op.message ensures x in MessagesOf(n.members, op.g, m) {
      InMessages(n, op.g, x);
    }
    forall x | x in MessagesOf(n.members, op.g, m) && x != op.message ensures x in MessagesOf(s.members, op.g, m) {
      InMessages(s, op.g, x);
    }
  }
}
