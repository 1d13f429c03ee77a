/** AI matters of one account (backend/app/db/ai_inbox.py): which messages belong together, in
    every generation of the grouping, and the functions that change it, each as one step.
    A subgoal is identified by its matter and canonical key, which the schema keeps unique. */
module Matters {
  import opened Basics

  datatype Status =
    | NeedsYou | WaitingOnOthers | InProgress
    | Completed | PartiallyCompleted | Failed | Cancelled | Informational

  datatype Matter = Matter(generation: string, visible: bool, status: Status)

  datatype Member = Member(matter: string, locked: bool, provisional: bool)

  datatype Subgoal = Subgoal(status: Status, evidence: set<string>, updatedAt: nat)

  type Subgoals = map<string, Subgoal>

  /** An accepted decision that the selected messages do not belong with the others. */
  datatype Apart = Apart(generation: string, selected: set<string>, others: set<string>)

  datatype GenerationStatus = Shadow | Building | Active | Superseded

  /** `Shadowing` stands for the shadow and preview modes. */
  datatype Mode = Disabled | Shadowing | Live

  datatype Profile = Profile(consented: bool, enabled: bool, style: string, mode: Mode, active: Option<string>)

  /** Members are unique per generation and message. */
  datatype Inbox = Inbox(
    clock: nat,
    profile: Option<Profile>,
    generations: map<string, GenerationStatus>,
    matters: map<string, Matter>,
    members: map<(string, string), Member>,
    subgoals: map<string, Subgoals>,
    apart: set<Apart>)

  const EMPTY: Inbox := Inbox(0, None, map[], map[], map[], map[], {})

  // ---------------------------------------------------------------------------------
  // Derived values

  function Derived(values: set<Status>, fallback: Status): Status {
    if values == {} then fallback
    else if NeedsYou in values then NeedsYou
    else if WaitingOnOthers in values then WaitingOnOthers
    else if InProgress in values then InProgress
    else if forall v :: v in values ==> v == Completed then Completed
    else if forall v :: v in values ==> v == Cancelled then Cancelled
    else if forall v :: v in values ==> v == Failed then Failed
    else if Completed in values then PartiallyCompleted
    else if Failed in values then Failed
    else Cancelled
  }

  function Statuses(subs: Subgoals): set<Status> {
    set k | k in subs :: subs[k].status
  }

  function SubgoalsOf(s: Inbox, matter: string): Subgoals {
    if matter in s.subgoals then s.subgoals[matter] else map[]
  }

  /** Messages of a matter in a generation. */
  function MessagesOf(members: map<(string, string), Member>, g: string, matter: string): set<string> {
    set k | k in members && k.0 == g && members[k].matter == matter :: k.1
  }

  predicate Locked(s: Inbox, g: string, message: string) {
    (g, message) in s.members && s.members[(g, message)].locked
  }

  predicate Together(s: Inbox, g: string, a: string, b: string) {
    (g, a) in s.members && (g, b) in s.members && s.members[(g, a)].matter == s.members[(g, b)].matter
  }

  /** Matters of the generation that hold a message the user separated from this one, in any
      generation. */
  function SeparatedFrom(s: Inbox, g: string, message: string): set<string> {
    set d, k | d in s.apart && k in s.members && k.0 == g
      && ((message in d.selected && k.1 in d.others) || (message in d.others && k.1 in d.selected)) :: s.members[k].matter
  }

  /** One of the two was separated from the other. */
  predicate Parted(d: Apart, x: string, y: string) {
    (x in d.selected && y in d.others) || (y in d.selected && x in d.others)
  }

  predicate Crosses(d: Apart, a: set<string>, b: set<string>) {
    (d.selected * a != {} && d.others * b != {}) || (d.selected * b != {} && d.others * a != {})
  }

  predicate Prohibited(s: Inbox, g: string, source: set<string>, target: set<string>) {
    exists d :: d in s.apart && d.generation == g && Crosses(d, source, target)
  }

  // ---------------------------------------------------------------------------------
  // Automatic assignment

  /** A subgoal of a classified message: the existing one it names, if any, and its own key.
      Incomplete ones lack a goal or development text. */
  datatype Item = Item(complete: bool, status: Option<Status>, names: Option<string>, key: string, evidence: seq<string>)

  predicate Accepted(it: Item) {
    it.complete && it.status.Some? && it.status.value !in {PartiallyCompleted, Informational}
  }

  function AcceptedKeys(items: seq<Item>): set<string> {
    set i | 0 <= i < |items| && Accepted(items[i]) :: items[i].key
  }

  function Filtered(xs: seq<string>, allowed: set<string>): seq<string> {
    if xs == [] then []
    else
      var n := |xs| - 1;
      Filtered(xs[..n], allowed) + (if xs[n] in allowed then [xs[n]] else [])
  }

  /** At most twenty messages: cited members of the matter, then the message itself. */
  function EvidenceOf(it: Item, allowed: set<string>, message: string): set<string> {
    var cited := Filtered(Unique(it.evidence), allowed);
    var all := if message in cited then cited else cited + [message];
    set x | x in all[..Min(20, |all|)]
  }

  function KeyFor(existing: Subgoals, it: Item): string {
    if it.names.Some? && it.names.value in existing then it.names.value else it.key
  }

  function Record(subs: Subgoals, key: string, status: Status, evidence: set<string>, now: nat): Subgoals {
    subs[key := Subgoal(status, (if key in subs then subs[key].evidence else {}) + evidence, now)]
  }

  /** Accepted items in order; the first of each key counts. */
  function RecordAll(existing: Subgoals, items: seq<Item>, allowed: set<string>, message: string, now: nat): Subgoals {
    if items == [] then existing
    else
      var n := |items| - 1;
      var prior := RecordAll(existing, items[..n], allowed, message, now);
      if !Accepted(items[n]) || items[n].key in AcceptedKeys(items[..n]) then prior
      else Record(prior, KeyFor(existing, items[n]), items[n].status.value, EvidenceOf(items[n], allowed, message), now)
  }

  function FirstTwelve(items: seq<Item>): seq<Item> {
    items[..Min(12, |items|)]
  }

  /** The matter a message goes to: a locked one stays, others follow the selection. */
  function Destination(s: Inbox, g: string, message: string, selected: Option<string>, spare: string): string {
    if Locked(s, g, message) then s.members[(g, message)].matter
    else if selected.Some? then selected.value
    else spare
  }

  function Placed(s: Inbox, g: string, message: string, t: string, status: Status, provisional: bool): Inbox {
    s.(
      matters := s.matters[t :=
        if t !in s.matters then Matter(g, true, status)
        else if provisional then s.matters[t]
        else s.matters[t].(status := status)],
      members := if Locked(s, g, message) then s.members else s.members[(g, message) := Member(t, false, provisional)])
  }

  function WithSubgoals(s: Inbox, t: string, subs: Subgoals, status: Status): Inbox
    requires t in s.matters
  {
    s.(subgoals := s.subgoals[t := subs],
       matters := s.matters[t := s.matters[t].(status := Derived(Statuses(subs), status))])
  }

  function Assign(s: Inbox, g: string, message: string, selected: Option<string>, spare: string, status: Status, items: seq<Item>, provisional: bool): Inbox {
    var t := Destination(s, g, message, selected, spare);
    var tentative := provisional && !Locked(s, g, message);
    var p := Placed(s, g, message, t, status, tentative);
    if tentative then p
    else WithSubgoals(p, t, RecordAll(SubgoalsOf(s, t), FirstTwelve(items), MessagesOf(p.members, g, t), message, s.clock), status)
  }

  // ---------------------------------------------------------------------------------
  // Automatic merge

  predicate VisibleIn(s: Inbox, g: string, matter: string) {
    matter in s.matters && s.matters[matter].generation == g && s.matters[matter].visible
  }

  predicate HoldsLocked(s: Inbox, g: string, matter: string) {
    exists k :: k in s.members && k.0 == g && s.members[k].matter == matter && s.members[k].locked
  }

  predicate MayMerge(s: Inbox, g: string, source: string, target: string) {
    && source != target && VisibleIn(s, g, source) && VisibleIn(s, g, target)
    && MessagesOf(s.members, g, source) != {} && MessagesOf(s.members, g, target) != {}
    && !HoldsLocked(s, g, source)
    && !Prohibited(s, g, MessagesOf(s.members, g, source), MessagesOf(s.members, g, target))
  }

  /** The same subgoal in two matters: the newer state, all evidence. */
  function Combined(source: Subgoal, target: Subgoal, now: nat): Subgoal {
    Subgoal(if source.updatedAt >= target.updatedAt then source.status else target.status, target.evidence + source.evidence, now)
  }

  function MergedSubgoals(source: Subgoals, target: Subgoals, now: nat): Subgoals {
    map k | k in source.Keys + target.Keys ::
      if k !in source then target[k]
      else if k !in target then source[k].(updatedAt := now)
      else Combined(source[k], target[k], now)
  }

  function Moved(members: map<(string, string), Member>, g: string, source: string, target: string): map<(string, string), Member> {
    map k | k in members ::
      if k.0 == g && members[k].matter == source && !members[k].locked then members[k].(matter := target) else members[k]
  }

  function Reconcile(s: Inbox, g: string, source: string, target: string, status: Status): Inbox {
    if !MayMerge(s, g, source, target) then s
    else
      var subs := MergedSubgoals(SubgoalsOf(s, source), SubgoalsOf(s, target), s.clock);
      s.(
        members := Moved(s.members, g, source, target),
        subgoals := s.subgoals[source := map[]][target := subs],
        matters := s.matters[target := s.matters[target].(status := Derived(Statuses(subs), status))]
                            [source := s.matters[source].(visible := false)])
  }

  // ---------------------------------------------------------------------------------
  // User decisions

  function Proposed(s: Inbox, g: string, matter: string): set<string> {
    set k | k in s.members && k.0 == g && s.members[k].matter == matter && s.members[k].provisional :: k.1
  }

  function Chosen(s: Inbox, matter: string, selected: set<string>): set<string>
    requires matter in s.matters
  {
    if selected == {} then Proposed(s, s.matters[matter].generation, matter) else selected
  }

  /** The decision applies to this row. */
  predicate Picks(s: Inbox, matter: string, selected: set<string>, k: (string, string))
    requires matter in s.matters && k in s.members
  {
    k.0 == s.matters[matter].generation && s.members[k].matter == matter && k.1 in selected
  }

  /** The picked members, locked by the user, in the target matter. */
  function Relocated(s: Inbox, matter: string, ids: set<string>, target: string): map<(string, string), Member>
    requires matter in s.matters
  {
    map k | k in s.members :: if Picks(s, matter, ids, k) then Member(target, true, false) else s.members[k]
  }

  function Removed(s: Inbox, matter: string, ids: set<string>): map<(string, string), Member>
    requires matter in s.matters
  {
    map k | k in s.members && !Picks(s, matter, ids, k) :: s.members[k]
  }

  function Confirm(s: Inbox, matter: string, selected: set<string>): Inbox {
    if matter !in s.matters then s
    else s.(members := Relocated(s, matter, Chosen(s, matter, selected), matter))
  }

  function Separate(s: Inbox, matter: string, selected: set<string>): Inbox {
    if matter !in s.matters || Chosen(s, matter, selected) == {} then s
    else
      var g, ids := s.matters[matter].generation, Chosen(s, matter, selected);
      var left := Removed(s, matter, ids);
      s.(
        members := left,
        apart := s.apart + {Apart(g, ids, MessagesOf(s.members, g, matter) - ids)},
        matters := s.matters[matter := s.matters[matter].(visible := MessagesOf(left, g, matter) != {})])
  }

  /** `merge` takes every member along, `move` the selected ones. */
  function Move(s: Inbox, matter: string, target: string, selected: set<string>, whole: bool): Inbox {
    if matter !in s.matters || target !in s.matters || s.matters[target].generation != s.matters[matter].generation then s
    else
      var ids := if selected == {} || whole then MessagesOf(s.members, s.matters[matter].generation, matter) else selected;
      var moved := Relocated(s, matter, ids, target);
      s.(
        members := moved,
        matters := s.matters[matter := s.matters[matter].(visible := exists k :: k in moved && moved[k].matter == matter)])
  }

  /** The messages a user move takes along. */
  function Taken(s: Inbox, matter: string, selected: set<string>, whole: bool): set<string>
    requires matter in s.matters
  {
    var all := MessagesOf(s.members, s.matters[matter].generation, matter);
    if selected == {} || whole then all else all * selected
  }

  function Hide(s: Inbox, matter: string): Inbox {
    if matter in s.matters then s.(matters := s.matters[matter := s.matters[matter].(visible := false)]) else s
  }

  /** Deleted messages leave every matter. */
  function Forget(s: Inbox, messages: set<string>): Inbox {
    s.(members := map k | k in s.members && k.1 !in messages :: s.members[k])
  }

  // ---------------------------------------------------------------------------------
  // Generations

  function Protected(s: Inbox, g: string): set<string> {
    set k | k in s.members && k.0 == g && s.members[k].locked :: s.members[k].matter
  }

  /** New identifiers for copied matters, and back. */
  datatype Renaming = Renaming(to: map<string, string>, from: map<string, string>)

  /** Every protected matter gets an unused identifier of its own. */
  predicate Copies(s: Inbox, source: string, copy: Renaming) {
    && Protected(s, source) <= copy.to.Keys
    && (forall m :: m in copy.to ==> copy.to[m] !in s.matters && copy.to[m] in copy.from && copy.from[copy.to[m]] == m)
    && (forall n :: n in copy.from ==> copy.from[n] in copy.to && copy.to[copy.from[n]] == n)
  }

  function CopyKeys(s: Inbox, g: string, source: string): (keys: set<(string, string)>)
    ensures forall k :: k in keys <==> k.0 == g && Locked(s, source, k.1)
  {
    var locked := set k | k in s.members && k.0 == source && s.members[k].locked;
    assert forall m :: Locked(s, source, m) <==> (source, m) in locked;
    set k | k in locked :: (g, k.1)
  }

  /** Copies of some of the protected matters. */
  function CopiedMatters(s: Inbox, g: string, copy: Renaming, some: set<string>): map<string, Matter> {
    map n | n in copy.from && copy.from[n] in some && copy.from[n] in s.matters :: s.matters[copy.from[n]].(generation := g)
  }

  /** Their locked members, locked again. */
  function CopiedMembers(s: Inbox, g: string, source: string, copy: Renaming, some: set<string>): map<(string, string), Member>
    requires some <= copy.to.Keys
  {
    map k | k in CopyKeys(s, g, source) && s.members[(source, k.1)].matter in some :: Member(copy.to[s.members[(source, k.1)].matter], true, false)
  }

  function Extended(s: Inbox, matters: map<string, Matter>, members: map<(string, string), Member>): Inbox {
    s.(matters := s.matters + matters, members := s.members + members)
  }

  /** A rebuild starts from the user-locked membership of its source. */
  function CreateGeneration(s: Inbox, g: string, status: GenerationStatus, source: Option<string>, copy: Renaming): Inbox
    requires source.Some? ==> Copies(s, source.value, copy)
  {
    var t := s.(generations := s.generations[g := status]);
    if source.None? then t
    else
      var some := Protected(s, source.value);
      Extended(t, CopiedMatters(s, g, copy, some), CopiedMembers(s, g, source.value, copy, some))
  }

  /** A request to change the profile; `available` is the deployment's own switch. */
  datatype Request = Request(consent: Option<bool>, enabled: Option<bool>, style: Option<string>, rebuild: bool, available: bool)

  function Before(s: Inbox): Profile {
    if s.profile.Some? then s.profile.value else Profile(false, false, "focused", Disabled, None)
  }

  function Or<T>(x: Option<T>, default: T): T {
    if x.Some? then x.value else default
  }

  predicate Enables(s: Inbox, r: Request) {
    Or(r.consent, Before(s).consented) && Or(r.enabled, Before(s).enabled) && r.available
  }

  predicate Refused(s: Inbox, r: Request) {
    Enables(s, r) && Before(s).active.None? && Before(s).mode == Shadowing
  }

  function UpdateProfile(s: Inbox, r: Request, g: string, copy: Renaming): Inbox
    requires Before(s).active.Some? ==> Copies(s, Before(s).active.value, copy)
  {
    if Refused(s, r) then s
    else
      var was, on, style := Before(s), Enables(s, r), Or(r.style, Before(s).style);
      var t :=
        if on && was.active.None? then CreateGeneration(s, g, Active, None, copy)
        else if on && style != was.style && r.rebuild then CreateGeneration(s, g, Building, was.active, copy)
        else s;
      t.(profile := Some(Profile(
        Or(r.consent, was.consented), on, style, if on then Live else Disabled,
        if was.active.Some? then was.active else if on then Some(g) else None)))
  }

  function Superseding(generations: map<string, GenerationStatus>, status: GenerationStatus): map<string, GenerationStatus> {
    map g | g in generations :: if generations[g] == status then Superseded else generations[g]
  }

  function StartShadow(s: Inbox, style: string, g: string, copy: Renaming): Inbox
    requires Before(s).active.Some? ==> Copies(s, Before(s).active.value, copy)
  {
    if s.profile.None? || !s.profile.value.consented then s
    else
      var t := s.(generations := Superseding(s.generations, Shadow));
      CreateGeneration(t, g, Shadow, s.profile.value.active, copy)
        .(profile := Some(s.profile.value.(style := style, mode := Shadowing)))
  }

  function Promote(s: Inbox, g: string): Inbox {
    if g !in s.generations || s.generations[g] !in {Building, Shadow} then s
    else s.(
      generations := Superseding(s.generations, Active)[g := Active],
      profile := if s.profile.Some? then Some(s.profile.value.(active := Some(g), enabled := true, mode := Live)) else None)
  }

  // ---------------------------------------------------------------------------------
  // Steps

  datatype Op =
    | DoAssign(g: string, message: string, selection: Option<string>, spare: string, status: Status, items: seq<Item>, provisional: bool)
    | DoReconcile(g: string, source: string, target: string, status: Status)
    | DoConfirm(matter: string, selected: set<string>)
    | DoSeparate(matter: string, selected: set<string>)
    | DoMove(matter: string, target: string, selected: set<string>, whole: bool)
    | DoHide(matter: string)
    | DoForget(messages: set<string>)
    | DoUpdateProfile(request: Request, g: string, copy: Renaming)
    | DoStartShadow(style: string, g: string, copy: Renaming)
    | DoPromote(g: string)

  /** What callers and the database guarantee: unused identifiers, and an assignment chosen among
      the matters of its generation that hold nothing separated from the message. */
  predicate Legal(s: Inbox, op: Op) {
    match op
    case DoAssign(g, message, selection, spare, _, _, _) =>
      && g in s.generations && spare !in s.matters
      && (selection.Some? ==>
            && selection.value in s.matters && s.matters[selection.value].generation == g
            && selection.value !in SeparatedFrom(s, g, message))
    case DoUpdateProfile(_, g, copy) =>
      g !in s.generations && (Before(s).active.Some? ==> Copies(s, Before(s).active.value, copy))
    case DoStartShadow(_, g, copy) =>
      g !in s.generations && (Before(s).active.Some? ==> Copies(s, Before(s).active.value, copy))
    case _ => true
  }

  function Perform(s: Inbox, op: Op): Inbox
    requires Legal(s, op)
  {
    match op
    case DoAssign(g, message, selection, spare, status, items, provisional) => Assign(s, g, message, selection, spare, status, items, provisional)
    case DoReconcile(g, source, target, status) => Reconcile(s, g, source, target, status)
    case DoConfirm(matter, selected) => Confirm(s, matter, selected)
    case DoSeparate(matter, selected) => Separate(s, matter, selected)
    case DoMove(matter, target, selected, whole) => Move(s, matter, target, selected, whole)
    case DoHide(matter) => Hide(s, matter)
    case DoForget(messages) => Forget(s, messages)
    case DoUpdateProfile(request, g, copy) => UpdateProfile(s, request, g, copy)
    case DoStartShadow(style, g, copy) => StartShadow(s, style, g, copy)
    case DoPromote(g) => Promote(s, g)
  }

  datatype Event = At(elapsed: nat, op: Op)

  function Later(s: Inbox, elapsed: nat): Inbox {
    s.(clock := s.clock + elapsed)
  }

  predicate LegalEvent(s: Inbox, e: Event) {
    Legal(Later(s, e.elapsed), e.op)
  }

  function Step(s: Inbox, e: Event): Inbox
    requires LegalEvent(s, e)
  {
    Perform(Later(s, e.elapsed), e.op)
  }

  predicate LegalRun(s: Inbox, run: seq<Event>)
    decreases |run|
  {
    run != [] ==> LegalEvent(s, run[0]) && LegalRun(Step(s, run[0]), run[1..])
  }

  function Exec(s: Inbox, run: seq<Event>): Inbox
    requires LegalRun(s, run)
    decreases |run|
  {
    if run == [] then s else Exec(Step(s, run[0]), run[1..])
  }
}
