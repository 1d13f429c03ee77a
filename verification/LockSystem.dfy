/** Any number of processes running lock programs against one lock table, with timeouts,
    exceptions and lost sessions. Shows that the fixed namespace order cannot deadlock and
    that destructive work drains every user of Gmail-derived state first. */
module LockSystem {
  import opened AdvisoryLocks
  import opened Basics

  /** A process. Once the server has dropped its session (`gone`), the session locks in `held`
      are held no more, although the process does not know it yet. `overtaken` lists the users
      whose guard was closed past a lost session after this process had checked it. */
  datatype Proc = Proc(code: Code, held: seq<Hold>, gone: bool, overtaken: set<nat>)

  /** `queue` lists the waiting processes in arrival order; a process waits for the request
      at the head of its code. `open` is the set of users whose durable guard is true. */
  datatype System = System(procs: seq<Proc>, queue: seq<nat>, open: set<nat>)

  datatype Move =
    | Run(p: nat)
    | Interrupt(p: nat, code: Code)
    | NoticeLoss(p: nat, code: Code)
    | DropSession(p: nat)

  predicate Requests(r: Proc) {
    r.code.Do? && r.code.op.Acquire?
  }

  predicate Finished(r: Proc) {
    r.code.Stop?
  }

  /** The server still grants this hold to the process. */
  predicate Real(r: Proc, h: Hold) {
    !(r.gone && h.conn.Session?)
  }

  /** Another session holds the key in a conflicting mode. */
  predicate Blocked(s: System, p: nat, c: Conn, k: Key, m: Mode) {
    exists q, i :: 0 <= q < |s.procs| && 0 <= i < |s.procs[q].held| && Real(s.procs[q], s.procs[q].held[i])
      && s.procs[q].held[i].key == k && Conflict(s.procs[q].held[i].mode, m)
      && (q != p || s.procs[q].held[i].conn != c)
  }

  predicate WellQueued(s: System) {
    && (forall i :: 0 <= i < |s.queue| ==> s.queue[i] < |s.procs| && Requests(s.procs[s.queue[i]]))
    && (forall i, j :: 0 <= i < j < |s.queue| ==> s.queue[i] != s.queue[j])
  }

  /** A conflicting request for the same key stands before position `n` of the queue. */
  predicate Behind(s: System, k: Key, m: Mode, n: nat)
    requires WellQueued(s) && n <= |s.queue|
  {
    exists i :: 0 <= i < n && var a := s.procs[s.queue[i]].code.op; a.key == k && Conflict(a.mode, m)
  }

  predicate Owns(r: Proc, c: Conn, k: Key) {
    exists i :: 0 <= i < |r.held| && Real(r, r.held[i]) && r.held[i].conn == c && r.held[i].key == k
  }

  /** PostgreSQL's rule: no conflicting holder, and no conflicting waiter ahead unless the
      session already holds the lock. */
  predicate Grantable(s: System, p: nat, n: nat)
    requires WellQueued(s) && p < |s.procs| && Requests(s.procs[p]) && n <= |s.queue|
  {
    var a := s.procs[p].code.op;
    !Blocked(s, p, a.conn, a.key, a.mode) && (Owns(s.procs[p], a.conn, a.key) || !Behind(s, a.key, a.mode, n))
  }

  /** Position of a waiting process, or the end of the queue. */
  function Place(q: seq<nat>, p: nat): (n: nat)
    ensures n <= |q| && (n < |q| ==> q[n] == p) && (n == |q| <==> p !in q)
    ensures forall i :: 0 <= i < n ==> q[i] != p
  {
    if q == [] || q[0] == p then 0 else 1 + Place(q[1..], p)
  }

  predicate Enabled(s: System, p: nat)
    requires WellQueued(s)
  {
    p < |s.procs| && !Finished(s.procs[p]) && (p in s.queue ==> Grantable(s, p, Place(s.queue, p)))
  }

  function Drop(q: seq<nat>, p: nat): seq<nat> {
    var n := Place(q, p);
    if n == |q| then q else q[..n] + q[n + 1..]
  }

  /** The innermost hold that protects the user. */
  function TopHold(held: seq<Hold>, user: nat): Hold
    requires HasTop(held, user)
    decreases |held|
  {
    var last := held[|held| - 1];
    if Protects(last.key, user) then last else TopHold(held[..|held| - 1], user)
  }

  /** The next statement runs on the session connection. */
  predicate UsesSession(r: Proc) {
    r.code.Do? &&
    match r.code.op
    case Acquire(c, _, _) => c.Session?
    case Check(u) => HasTop(r.held, u) && TopHold(r.held, u).conn.Session?
    case Pop => r.held != [] && r.held[|r.held| - 1].conn.Session?
    case _ => false
  }

  /** A lost session shows at the next statement on it, and fails every scope of the process. */
  predicate Notices(r: Proc) {
    r.gone && UsesSession(r)
  }

  function Unwound(r: Proc): Proc {
    Proc(Pops(|TxnOnly(r.held)|, Stop), TxnOnly(r.held), false, r.overtaken)
  }

  /** A check of the user's guard that rests on a lost session. */
  predicate LostCheck(r: Proc, u: nat) {
    exists i :: 0 <= i < |r.held| && !Real(r, r.held[i]) && r.held[i].checked && Protects(r.held[i].key, u)
  }

  /** What a change of a guard means for a process that checked it: it is overtaken when its own
      check rests on a lost session, or when the exclusive locks of the changing process do. */
  function Overtake(r: Proc, u: nat, open: bool, unlocked: bool): Proc {
    if open then r.(overtaken := r.overtaken - {u})
    else if LostCheck(r, u) || (unlocked && HoldsChecked(r.held, u)) then r.(overtaken := r.overtaken + {u})
    else r
  }

  /** The processes after `p` changed a guard. */
  function GuardChanged(s: System, p: nat, u: nat, open: bool): seq<Proc>
    requires p < |s.procs| && s.procs[p].code.Do?
  {
    seq(|s.procs|, q requires 0 <= q < |s.procs| =>
      Overtake(if q == p then s.procs[q].(code := s.procs[q].code.next) else s.procs[q], u, open, s.procs[p].gone))
  }

  /** One statement of process `p`: a request is granted or joins the queue; a failed guard
      check unwinds every scope of the process. */
  function RunStep(s: System, p: nat): System
    requires WellQueued(s) && Enabled(s, p)
  {
    var r := s.procs[p];
    if Notices(r) then s.(procs := s.procs[p := Unwound(r)], queue := Drop(s.queue, p))
    else
      match r.code.op
      case Acquire(c, k, m) =>
        if Grantable(s, p, Place(s.queue, p)) then
          s.(procs := s.procs[p := r.(code := r.code.next, held := r.held + [Hold(c, k, m, false)])], queue := Drop(s.queue, p))
        else
          s.(queue := s.queue + [p])
      case Check(u) =>
        if u in s.open && HasTop(r.held, u) then
          s.(procs := s.procs[p := r.(code := r.code.next, held := MarkTop(r.held, u))])
        else s.(procs := s.procs[p := r.(code := Pops(|r.held|, Stop))])
      case Use(_) => s.(procs := s.procs[p := r.(code := r.code.next)])
      case SetGuard(u, b) =>
        s.(procs := GuardChanged(s, p, u, b), open := if b then s.open + {u} else s.open - {u})
      case Pop =>
        s.(procs := s.procs[p := r.(code := r.code.next, held := if r.held == [] then [] else r.held[..|r.held| - 1])])
  }

  /** The holds that survive when the server drops the session connection. */
  function TxnOnly(held: seq<Hold>): (r: seq<Hold>)
    ensures |r| <= |held| && forall i :: 0 <= i < |r| ==> r[i] in held && r[i].conn.Txn?
  {
    if held == [] then [] else (if held[0].conn.Txn? then [held[0]] else []) + TxnOnly(held[1..])
  }

  /** `Interrupt` is a timeout or any exception: the process leaves the queue and goes on with
      any code that releases what it still holds in order. `NoticeLoss` is a connection the
      process discards; `DropSession` is one the server drops while no statement runs on it,
      which leaves the process running. */
  predicate CanMove(s: System, m: Move)
    requires WellQueued(s)
  {
    match m
    case Run(p) => Enabled(s, p)
    case Interrupt(p, code) => p < |s.procs| && Disciplined(s.procs[p].held, code)
    case NoticeLoss(p, code) => p < |s.procs| && Disciplined(TxnOnly(s.procs[p].held), code)
    case DropSession(p) =>
      && p < |s.procs| && !s.procs[p].gone && (exists i :: 0 <= i < |s.procs[p].held| && s.procs[p].held[i].conn.Session?)
      && (p in s.queue ==> Requests(s.procs[p]) && s.procs[p].code.op.conn.Txn?)
  }

  function Step(s: System, m: Move): System
    requires WellQueued(s) && CanMove(s, m)
  {
    match m
    case Run(p) => RunStep(s, p)
    case Interrupt(p, code) => s.(procs := s.procs[p := s.procs[p].(code := code)], queue := Drop(s.queue, p))
    case NoticeLoss(p, code) =>
      s.(procs := s.procs[p := Proc(code, TxnOnly(s.procs[p].held), false, s.procs[p].overtaken)], queue := Drop(s.queue, p))
    case DropSession(p) => s.(procs := s.procs[p := s.procs[p].(gone := true)])
  }

  /** A reachable picture of the system: every process is disciplined, conflicting real holds
      belong to one session, and a checked hold protects an open guard unless the process was
      overtaken. */
  ghost predicate Inv(s: System) {
    && WellQueued(s)
    && (forall p :: 0 <= p < |s.procs| ==> Disciplined(s.procs[p].held, s.procs[p].code))
    && Compatible(s)
    && ChecksHold(s)
    && OvertakenClosed(s)
    && LinkedShared(s)
    && QueueLives(s)
  }

  ghost predicate Compatible(s: System) {
    forall p, i, q, j ::
      0 <= p < |s.procs| && 0 <= i < |s.procs[p].held| && 0 <= q < |s.procs| && 0 <= j < |s.procs[q].held|
      && Real(s.procs[p], s.procs[p].held[i]) && Real(s.procs[q], s.procs[q].held[j])
      && s.procs[p].held[i].key == s.procs[q].held[j].key
      && Conflict(s.procs[p].held[i].mode, s.procs[q].held[j].mode)
      ==> p == q && s.procs[p].held[i].conn == s.procs[q].held[j].conn
  }

  ghost predicate ChecksHold(s: System) {
    forall p, i, u | 0 <= p < |s.procs| && 0 <= i < |s.procs[p].held| && s.procs[p].held[i].checked ::
      Protects(s.procs[p].held[i].key, u) ==> u in s.open || u in s.procs[p].overtaken
  }

  /** A guard that is opened again overtakes nobody. */
  ghost predicate OvertakenClosed(s: System) {
    forall p :: 0 <= p < |s.procs| ==> s.procs[p].overtaken !! s.open
  }

  /** Nobody waits on a lost session. */
  ghost predicate QueueLives(s: System) {
    forall p :: p in s.queue ==> p < |s.procs| && !Notices(s.procs[p])
  }

  ghost predicate LinkedShared(s: System) {
    forall p, i | 0 <= p < |s.procs| && 0 <= i < |s.procs[p].held| ::
      s.procs[p].held[i].key.Provider? && s.procs[p].held[i].key.id.Linked? ==> s.procs[p].held[i].mode.Shared?
  }

  /** Processes that have not started, each with work nested the way the callers nest it. */
  ghost predicate Initial(s: System) {
    && s.queue == []
    && forall p :: 0 <= p < |s.procs| ==>
         s.procs[p].held == [] && !s.procs[p].gone && s.procs[p].overtaken == {}
         && exists w: Work, u: nat :: NestsWork(w, Context(0, u, false)) && s.procs[p].code == EmitWork(w, Stop)
  }

  lemma InitialInv(s: System)
    requires Initial(s)
    ensures Inv(s)
  {
    forall p | 0 <= p < |s.procs| ensures Disciplined(s.procs[p].held, s.procs[p].code) {
      var w: Work, u: nat :| NestsWork(w, Context(0, u, false)) && s.procs[p].code == EmitWork(w, Stop);
      WorkIsDisciplined(w, Context(0, u, false), [], Stop);
    }
  }

  lemma DropKeeps(q: seq<nat>, p: nat)
    requires forall i, j :: 0 <= i < j < |q| ==> q[i] != q[j]
    ensures forall i, j :: 0 <= i < j < |Drop(q, p)| ==> Drop(q, p)[i] != Drop(q, p)[j]
    ensures forall x :: x in Drop(q, p) <==> x in q && x != p
  {
    var n := Place(q, p);
    if n < |q| {
      assert q == q[..n] + [p] + q[n + 1..];
    }
  }

  lemma {:induction false} PopsAreDisciplined(held: seq<Hold>)
    ensures Disciplined(held, Pops(|held|, Stop))
    decreases |held|
  {
    if held != [] {
      PopsAreDisciplined(held[..|held| - 1]);
    }
  }

  /** Replacing one process keeps the table when its new holds are among its old ones up to
      a passed guard check. */
  lemma SmallerHolds(s: System, t: System, p: nat)
    requires Inv(s) && p < |s.procs| == |t.procs| && t.procs == s.procs[p := t.procs[p]] && t.open == s.open
    requires t.procs[p].overtaken == s.procs[p].overtaken
    requires forall h :: h in t.procs[p].held ==>
      && (exists g :: g in s.procs[p].held && Weaker(h, g, s.open)) && (Real(t.procs[p], h) ==> Real(s.procs[p], h))
    ensures Compatible(t) && ChecksHold(t) && OvertakenClosed(t) && LinkedShared(t)
  {
    forall q, i | 0 <= q < |t.procs| && 0 <= i < |t.procs[q].held|
      ensures Real(t.procs[q], t.procs[q].held[i]) ==> Real(s.procs[q], t.procs[q].held[i])
      ensures exists j :: 0 <= j < |s.procs[q].held| && Weaker(t.procs[q].held[i], s.procs[q].held[j], s.open)
    {
      var h := t.procs[q].held[i];
      if q == p {
        assert h in t.procs[p].held;
        var g :| g in s.procs[p].held && Weaker(h, g, s.open);
        var j :| 0 <= j < |s.procs[p].held| && s.procs[p].held[j] == g;
      } else {
        assert s.procs[q].held[i] == h && Weaker(h, h, s.open);
      }
    }
  }

  /** Same lock, and checked only if it was, or if every user it protects is open. */
  ghost predicate Weaker(h: Hold, g: Hold, open: set<nat>) {
    && h.conn == g.conn && h.key == g.key && h.mode == g.mode
    && (h.checked ==> g.checked || forall u :: Protects(h.key, u) ==> u in open)
  }

  lemma QueueAfter(s: System, t: System, p: nat)
    requires WellQueued(s) && QueueLives(s) && p < |s.procs| == |t.procs| && t.procs == s.procs[p := t.procs[p]]
    requires t.queue == Drop(s.queue, p)
    ensures WellQueued(t) && QueueLives(t)
  {
    DropKeeps(s.queue, p);
    forall i | 0 <= i < |t.queue| ensures t.queue[i] < |t.procs| && Requests(t.procs[t.queue[i]]) {
      assert t.queue[i] in s.queue && t.queue[i] != p;
    }
  }

  /** Granting adds one hold that conflicts with nobody's. */
  lemma GrantCompatible(s: System, t: System, p: nat, h: Hold)
    requires Inv(s) && p < |s.procs| == |t.procs| && !Blocked(s, p, h.conn, h.key, h.mode)
    requires t.procs == s.procs[p := t.procs[p]] && t.procs[p].held == s.procs[p].held + [h] && t.procs[p].gone == s.procs[p].gone
    ensures Compatible(t)
  {
    forall q, i | 0 <= q < |t.procs| && 0 <= i < |t.procs[q].held|
      ensures (q == p && i == |s.procs[p].held| && t.procs[q].held[i] == h) || (i < |s.procs[q].held| && t.procs[q].held[i] == s.procs[q].held[i])
    {
    }
    assert forall q, i | 0 <= q < |s.procs| && 0 <= i < |s.procs[q].held| && s.procs[q].held[i].key == h.key ::
      Real(s.procs[q], s.procs[q].held[i]) && Conflict(s.procs[q].held[i].mode, h.mode) ==> q == p && s.procs[q].held[i].conn == h.conn;
  }

  lemma GrantKeepsInv(s: System, p: nat)
    requires Inv(s) && Enabled(s, p) && Requests(s.procs[p]) && !Notices(s.procs[p]) && Grantable(s, p, Place(s.queue, p))
    ensures Inv(RunStep(s, p))
  {
    var t := RunStep(s, p);
    var r := s.procs[p];
    var a := r.code.op;
    QueueAfter(s, t, p);
    assert Disciplined(t.procs[p].held, t.procs[p].code);
    GrantCompatible(s, t, p, Hold(a.conn, a.key, a.mode, false));
  }

  /** A destructive scope that still has its session is alone: every real hold that protects the
      user is its own. */
  lemma RealHoldsAreOwn(s: System, p: nat, q: nat, i: nat)
    requires Inv(s) && p < |s.procs| && s.procs[p].code.Do? && s.procs[p].code.op.SetGuard? && !s.procs[p].gone
    requires q < |s.procs| && i < |s.procs[q].held| && Real(s.procs[q], s.procs[q].held[i])
    requires Protects(s.procs[q].held[i].key, s.procs[p].code.op.user)
    ensures p == q && s.procs[q].held[i].conn.Session? && !s.procs[q].held[i].checked
  {
    assert Disciplined(s.procs[p].held, s.procs[p].code);
    var j :| 0 <= j < |s.procs[p].held| && s.procs[p].held[j].conn.Session?
      && s.procs[p].held[j].key == s.procs[q].held[i].key && s.procs[p].held[j].mode.Exclusive?;
    assert Real(s.procs[p], s.procs[p].held[j]);
    assert Conflict(s.procs[p].held[j].mode, s.procs[q].held[i].mode);
  }

  /** Closing a guard overtakes every check of it that no longer keeps the change out. */
  lemma ClosingOvertakes(s: System, p: nat, q: nat, i: nat)
    requires Inv(s) && p < |s.procs| && s.procs[p].code.Do? && s.procs[p].code.op.SetGuard?
    requires q < |s.procs| && i < |s.procs[q].held| && s.procs[q].held[i].checked
    requires Protects(s.procs[q].held[i].key, s.procs[p].code.op.user)
    ensures LostCheck(s.procs[q], s.procs[p].code.op.user) || (s.procs[p].gone && HoldsChecked(s.procs[q].held, s.procs[p].code.op.user))
  {
    if !s.procs[p].gone && Real(s.procs[q], s.procs[q].held[i]) {
      RealHoldsAreOwn(s, p, q, i);
    }
  }

  lemma GuardKeepsHolds(s: System, p: nat)
    requires Inv(s) && Enabled(s, p) && s.procs[p].code.op.SetGuard?
    ensures var t := RunStep(s, p);
      && |t.procs| == |s.procs| && t.queue == s.queue
      && (forall q :: 0 <= q < |t.procs| ==> t.procs[q].held == s.procs[q].held && t.procs[q].gone == s.procs[q].gone)
      && (forall q :: 0 <= q < |t.procs| && q != p ==> t.procs[q].code == s.procs[q].code)
      && t.procs[p].code == s.procs[p].code.next
  {
  }

  lemma GuardKeepsQueue(s: System, p: nat)
    requires Inv(s) && Enabled(s, p) && s.procs[p].code.op.SetGuard?
    ensures WellQueued(RunStep(s, p)) && QueueLives(RunStep(s, p))
  {
    var t := RunStep(s, p);
    GuardKeepsHolds(s, p);
    NotQueued(s, p);
    forall q | q in s.queue ensures q < |t.procs| && Requests(t.procs[q]) && !Notices(t.procs[q]) {
      var i :| 0 <= i < |s.queue| && s.queue[i] == q;
      assert Requests(s.procs[s.queue[i]]) && !Notices(s.procs[q]);
    }
  }

  lemma GuardKeepsChecks(s: System, p: nat)
    requires Inv(s) && Enabled(s, p) && s.procs[p].code.op.SetGuard?
    ensures ChecksHold(RunStep(s, p)) && OvertakenClosed(RunStep(s, p))
  {
    var t := RunStep(s, p);
    GuardKeepsHolds(s, p);
    forall q, i, v | 0 <= q < |t.procs| && 0 <= i < |t.procs[q].held| && t.procs[q].held[i].checked
      && Protects(t.procs[q].held[i].key, v) ensures v in t.open || v in t.procs[q].overtaken
    {
      assert v in s.open || v in s.procs[q].overtaken;
      if v == s.procs[p].code.op.user {
        ClosingOvertakes(s, p, q, i);
      }
    }
  }

  lemma GuardKeepsInv(s: System, p: nat)
    requires Inv(s) && Enabled(s, p) && s.procs[p].code.op.SetGuard?
    ensures Inv(RunStep(s, p))
  {
    var t := RunStep(s, p);
    GuardKeepsHolds(s, p);
    GuardKeepsQueue(s, p);
    GuardKeepsChecks(s, p);
    forall q | 0 <= q < |t.procs| ensures Disciplined(t.procs[q].held, t.procs[q].code) {
      assert Disciplined(s.procs[q].held, s.procs[q].code);
    }
  }

  lemma NotQueued(s: System, p: nat)
    requires WellQueued(s) && p < |s.procs| && !Requests(s.procs[p])
    ensures p !in s.queue && Drop(s.queue, p) == s.queue
  {
  }

  lemma PassedCheckKeepsInv(s: System, p: nat)
    requires Inv(s) && Enabled(s, p) && s.procs[p].code.op.Check? && !Notices(s.procs[p])
    requires s.procs[p].code.op.user in s.open && HasTop(s.procs[p].held, s.procs[p].code.op.user)
    ensures Inv(RunStep(s, p))
  {
    var t := RunStep(s, p);
    var r := s.procs[p];
    NotQueued(s, p);
    QueueAfter(s, t, p);
    assert Disciplined(r.held, r.code);
    forall h | h in t.procs[p].held ensures (exists g :: g in r.held && Weaker(h, g, s.open)) && (Real(t.procs[p], h) ==> Real(r, h)) {
      var i :| 0 <= i < |t.procs[p].held| && t.procs[p].held[i] == h;
      assert Weaker(h, r.held[i], s.open);
    }
    SmallerHolds(s, t, p);
  }

  lemma CheckKeepsInv(s: System, p: nat)
    requires Inv(s) && Enabled(s, p) && s.procs[p].code.op.Check? && !Notices(s.procs[p])
    ensures Inv(RunStep(s, p))
  {
    var r := s.procs[p];
    if r.code.op.user in s.open && HasTop(r.held, r.code.op.user) {
      PassedCheckKeepsInv(s, p);
    } else {
      NotQueued(s, p);
      PopsAreDisciplined(r.held);
      ReleaseKeepsInv(s, RunStep(s, p), p);
    }
  }

  lemma ReleaseKeepsInv(s: System, t: System, p: nat)
    requires Inv(s) && p < |s.procs| == |t.procs|
    requires t == s.(procs := s.procs[p := t.procs[p]], queue := Drop(s.queue, p))
    requires t.procs[p].overtaken == s.procs[p].overtaken
    requires forall h :: h in t.procs[p].held ==> h in s.procs[p].held && (Real(t.procs[p], h) ==> Real(s.procs[p], h))
    requires Disciplined(t.procs[p].held, t.procs[p].code)
    ensures Inv(t)
  {
    QueueAfter(s, t, p);
    assert forall h :: h in t.procs[p].held ==> Weaker(h, h, s.open);
    SmallerHolds(s, t, p);
  }

  lemma DropKeepsInv(s: System, p: nat)
    requires Inv(s) && CanMove(s, DropSession(p))
    ensures Inv(Step(s, DropSession(p)))
  {
    var t := Step(s, DropSession(p));
    DropKeepsQueue(s, p);
    forall h | h in t.procs[p].held ensures exists g :: g in s.procs[p].held && Weaker(h, g, s.open) {
      assert Weaker(h, h, s.open);
    }
    SmallerHolds(s, t, p);
    forall q | 0 <= q < |t.procs| ensures Disciplined(t.procs[q].held, t.procs[q].code) {
      assert Disciplined(s.procs[q].held, s.procs[q].code);
    }
  }

  lemma DropKeepsQueue(s: System, p: nat)
    requires Inv(s) && CanMove(s, DropSession(p))
    ensures WellQueued(Step(s, DropSession(p))) && QueueLives(Step(s, DropSession(p)))
  {
    var t := Step(s, DropSession(p));
    forall i | 0 <= i < |t.queue| ensures t.queue[i] < |t.procs| && Requests(t.procs[t.queue[i]]) {
      assert Requests(s.procs[s.queue[i]]);
    }
    assert forall q :: q in t.queue && q != p ==> t.procs[q] == s.procs[q];
  }

  lemma EnqueueKeepsInv(s: System, p: nat)
    requires Inv(s) && Enabled(s, p) && Requests(s.procs[p]) && !Notices(s.procs[p]) && !Grantable(s, p, Place(s.queue, p))
    ensures Inv(RunStep(s, p))
  {
    assert p !in s.queue;
  }

  /** Every move keeps the invariant. */
  lemma StepKeepsInv(s: System, m: Move)
    requires Inv(s) && CanMove(s, m)
    ensures Inv(Step(s, m))
  {
    match m
    case Interrupt(p, code) => ReleaseKeepsInv(s, Step(s, m), p);
    case NoticeLoss(p, code) => ReleaseKeepsInv(s, Step(s, m), p);
    case DropSession(p) => DropKeepsInv(s, p);
    case Run(p) => RunKeepsInv(s, p);
  }

  lemma RunKeepsInv(s: System, p: nat)
    requires Inv(s) && Enabled(s, p)
    ensures Inv(RunStep(s, p))
  {
    if Notices(s.procs[p]) {
      PopsAreDisciplined(TxnOnly(s.procs[p].held));
      ReleaseKeepsInv(s, RunStep(s, p), p);
    } else {
      match s.procs[p].code.op
      case Acquire(_, _, _) =>
        if Grantable(s, p, Place(s.queue, p)) { GrantKeepsInv(s, p); } else { EnqueueKeepsInv(s, p); }
      case Check(_) => CheckKeepsInv(s, p);
      case SetGuard(_, _) => GuardKeepsInv(s, p);
      case Use(_) => NotQueued(s, p); ReleaseKeepsInv(s, RunStep(s, p), p);
      case Pop => NotQueued(s, p); ReleaseKeepsInv(s, RunStep(s, p), p);
    }
  }

  ghost predicate ValidRun(s: System, moves: seq<Move>)
    requires Inv(s)
    decreases |moves|
  {
    moves != [] ==>
      CanMove(s, moves[0]) && (StepKeepsInv(s, moves[0]); ValidRun(Step(s, moves[0]), moves[1..]))
  }

  ghost function Exec(s: System, moves: seq<Move>): (t: System)
    requires Inv(s) && ValidRun(s, moves)
    ensures Inv(t)
    decreases |moves|
  {
    if moves == [] then s else (StepKeepsInv(s, moves[0]); Exec(Step(s, moves[0]), moves[1..]))
  }

  // ---------------------------------------------------------------------------------
  // Deadlock freedom

  function Wanted(s: System, i: nat): Key
    requires WellQueued(s) && i < |s.queue|
  {
    s.procs[s.queue[i]].code.op.key
  }

  /** The first waiter among those that want a key of the highest rank. */
  lemma {:induction false} HighestWaiter(s: System, n: nat) returns (b: nat)
    requires WellQueued(s) && 0 < n <= |s.queue|
    ensures b < n
    ensures forall i :: 0 <= i < n ==> Rank(Wanted(s, i)) <= Rank(Wanted(s, b))
    ensures forall i :: 0 <= i < b ==> Rank(Wanted(s, i)) < Rank(Wanted(s, b))
    ensures forall q :: q in s.queue[..n] ==> Rank(s.procs[q].code.op.key) <= Rank(Wanted(s, b))
  {
    if n == 1 {
      b := 0;
    } else {
      b := HighestWaiter(s, n - 1);
      if Rank(Wanted(s, b)) < Rank(Wanted(s, n - 1)) {
        b := n - 1;
      }
    }
  }

  /** A re-entrant request, or one for a linked account, is never kept waiting. */
  lemma FreeRequest(s: System, p: nat, n: nat)
    requires Inv(s) && p < |s.procs| && Requests(s.procs[p]) && !Notices(s.procs[p]) && n <= |s.queue|
    requires var a := s.procs[p].code.op;
      Covered(s.procs[p].held, a.conn, a.key, a.mode) || (a.key.Provider? && a.key.id.Linked?)
    ensures Grantable(s, p, n)
  {
    var a := s.procs[p].code.op;
    if a.key.Provider? && a.key.id.Linked? {
      assert a.mode.Shared?;
      forall i | 0 <= i < n ensures var b := s.procs[s.queue[i]].code.op; !(b.key == a.key && Conflict(b.mode, a.mode)) {
        var q := s.queue[i];
        assert Disciplined(s.procs[q].held, s.procs[q].code);
      }
    } else {
      var i :| 0 <= i < |s.procs[p].held| && s.procs[p].held[i].conn == a.conn && s.procs[p].held[i].key == a.key
        && (s.procs[p].held[i].mode == a.mode || s.procs[p].held[i].mode.Exclusive?);
      assert Owns(s.procs[p], a.conn, a.key);
    }
  }

  /** Whatever blocks a waiter is held by a process that waits for a higher rank or can run. */
  lemma BlockerOutranks(s: System, p: nat, q: nat, i: nat)
    requires Inv(s) && p < |s.procs| && q < |s.procs| && i < |s.procs[q].held| && Requests(s.procs[p])
    requires s.procs[q].held[i].key == s.procs[p].code.op.key && Real(s.procs[q], s.procs[q].held[i])
    requires !Enabled(s, p) && !Enabled(s, q)
    requires q != p || s.procs[q].held[i].conn != s.procs[p].code.op.conn
    ensures q in s.queue && Requests(s.procs[q]) && Rank(s.procs[q].code.op.key) > Rank(s.procs[p].code.op.key)
  {
    assert Disciplined(s.procs[q].held, s.procs[q].code);
    assert q in s.queue;
    var n := Place(s.queue, q);
    assert Requests(s.procs[s.queue[n]]);
    var a := s.procs[q].code.op;
    if Covered(s.procs[q].held, a.conn, a.key, a.mode) || (a.key.Provider? && a.key.id.Linked?) {
      FreeRequest(s, q, n);
    }
  }

  /** In every reachable state, if some process is unfinished then some process can run:
      the lock order has no wait cycle, with or without queueing behind exclusive waiters. */
  lemma DeadlockFree(s: System) returns (p: nat)
    requires Inv(s) && exists q :: 0 <= q < |s.procs| && !Finished(s.procs[q])
    ensures Enabled(s, p)
  {
    p :| 0 <= p < |s.procs| && !Finished(s.procs[p]);
    if !Enabled(s, p) {
      var b := HighestWaiter(s, |s.queue|);
      assert s.queue[..|s.queue|] == s.queue;
      p := s.queue[b];
      assert Requests(s.procs[p]) && s.procs[p].code.Do?;
      var a := s.procs[p].code.op;
      assert Place(s.queue, p) == b;
      if !Enabled(s, p) {
        assert !Behind(s, a.key, a.mode, b) by {
          forall i | 0 <= i < b ensures s.procs[s.queue[i]].code.op.key != a.key {
            assert Rank(Wanted(s, i)) < Rank(Wanted(s, b));
          }
        }
        var q, i :| 0 <= q < |s.procs| && 0 <= i < |s.procs[q].held| && Real(s.procs[q], s.procs[q].held[i]) && s.procs[q].held[i].key == a.key
          && Conflict(s.procs[q].held[i].mode, a.mode) && (q != p || s.procs[q].held[i].conn != a.conn);
        if Enabled(s, q) {
          p := q;
        } else {
          BlockerOutranks(s, p, q, i);
          assert false;
        }
      }
    }
  }

  function Length(c: Code): nat {
    if c.Stop? then 0 else 1 + Length(c.next)
  }

  /** Work left: two for each statement, less one while queued for it. */
  function Left(s: System, n: nat): nat
    requires n <= |s.procs|
  {
    if n == 0 then 0
    else Left(s, n - 1) + 2 * Length(s.procs[n - 1].code) + (if n - 1 in s.queue || Finished(s.procs[n - 1]) then 0 else 1)
  }

  lemma {:induction false} LeftChanges(s: System, t: System, p: nat, n: nat)
    requires |s.procs| == |t.procs| && n <= |s.procs| && p < |s.procs|
    requires forall q :: 0 <= q < |s.procs| && q != p ==> s.procs[q].code == t.procs[q].code && (q in s.queue <==> q in t.queue)
    requires 2 * Length(t.procs[p].code) + (if p in t.queue || Finished(t.procs[p]) then 0 else 1)
           < 2 * Length(s.procs[p].code) + (if p in s.queue || Finished(s.procs[p]) then 0 else 1)
    ensures p < n ==> Left(t, n) < Left(s, n)
    ensures p >= n ==> Left(t, n) == Left(s, n)
  {
    if n > 0 {
      LeftChanges(s, t, p, n - 1);
    }
  }

  lemma {:induction false} CodeCoversHolds(held: seq<Hold>, code: Code)
    requires Disciplined(held, code)
    ensures Length(code) >= |held|
    decreases code
  {
    match code
    case Stop =>
    case Do(Acquire(c, k, m), next) => CodeCoversHolds(held + [Hold(c, k, m, false)], next);
    case Do(Check(u), next) => CodeCoversHolds(MarkTop(held, u), next);
    case Do(Pop, next) => CodeCoversHolds(held[..|held| - 1], next);
    case Do(_, next) => CodeCoversHolds(held, next);
  }

  lemma {:induction false} PopsLength(n: nat)
    ensures Length(Pops(n, Stop)) == n
  {
    if n > 0 { PopsLength(n - 1); }
  }

  lemma {:induction false} TxnOnlyDrops(held: seq<Hold>)
    requires held != [] && held[|held| - 1].conn.Session?
    ensures |TxnOnly(held)| < |held|
  {
    if |held| > 1 {
      TxnOnlyDrops(held[1..]);
    }
  }

  /** Unwinding takes less than the code it replaces. */
  lemma NoticingIsShort(r: Proc)
    requires Disciplined(r.held, r.code) && Notices(r)
    ensures Length(Unwound(r).code) < Length(r.code)
  {
    PopsLength(|TxnOnly(r.held)|);
    match r.code.op
    case Acquire(c, k, m) => CodeCoversHolds(r.held + [Hold(c, k, m, false)], r.code.next);
    case Check(u) => CodeCoversHolds(MarkTop(r.held, u), r.code.next);
    case Pop =>
      TxnOnlyDrops(r.held);
      CodeCoversHolds(r.held, r.code);
  }

  lemma RunUsesUpWork(s: System, p: nat)
    requires Inv(s) && Enabled(s, p)
    ensures Left(RunStep(s, p), |s.procs|) < Left(s, |s.procs|)
  {
    var t := RunStep(s, p);
    var r := s.procs[p];
    DropKeeps(s.queue, p);
    if Notices(r) {
      NoticingIsShort(r);
    } else if r.code.op.Check? {
      CodeCoversHolds(MarkTop(r.held, r.code.op.user), r.code.next);
      PopsLength(|r.held|);
    }
    if !Requests(r) {
      NotQueued(s, p);
    }
    LeftChanges(s, t, p, |s.procs|);
  }

  ghost predicate OnlyRuns(moves: seq<Move>) {
    forall i :: 0 <= i < |moves| ==> moves[i].Run?
  }

  lemma WaiterUnfinished(s: System) returns (p: nat)
    requires WellQueued(s) && s.queue != []
    ensures p < |s.procs| && !Finished(s.procs[p])
  {
    p := s.queue[0];
  }

  /** Left alone, the processes of any reachable state finish: every run without timeouts is
      bounded by the work left, and it can only stop when every process is done, nothing is
      held and nobody waits. */
  lemma {:induction false} RunsFinish(s: System, moves: seq<Move>)
    requires Inv(s) && ValidRun(s, moves) && OnlyRuns(moves)
    ensures |moves| <= Left(s, |s.procs|)
    ensures var t := Exec(s, moves);
      (forall p :: 0 <= p < |t.procs| ==> !Enabled(t, p)) ==>
        t.queue == [] && forall p :: 0 <= p < |t.procs| ==> Finished(t.procs[p]) && t.procs[p].held == []
    decreases |moves|
  {
    if moves == [] {
      if forall p :: 0 <= p < |s.procs| ==> !Enabled(s, p) {
        if exists q :: 0 <= q < |s.procs| && !Finished(s.procs[q]) {
          var p := DeadlockFree(s);
          assert false;
        }
        forall p | 0 <= p < |s.procs| ensures s.procs[p].held == [] {
          assert Disciplined(s.procs[p].held, s.procs[p].code);
        }
        if s.queue != [] {
          var p := WaiterUnfinished(s);
          assert false;
        }
      }
    } else {
      StepKeepsInv(s, moves[0]);
      RunUsesUpWork(s, moves[0].p);
      assert OnlyRuns(moves[1..]);
      RunsFinish(Step(s, moves[0]), moves[1..]);
    }
  }

  ghost predicate Reachable(t: System) {
    exists s, moves :: Initial(s) && (InitialInv(s); ValidRun(s, moves) && Exec(s, moves) == t)
  }

  lemma ReachableInv(t: System)
    requires Reachable(t)
    ensures Inv(t)
  {
    var s, moves :| Initial(s) && (InitialInv(s); ValidRun(s, moves) && Exec(s, moves) == t);
    InitialInv(s);
  }

  /** Drain safety: in every reachable state a process about to use Gmail-derived state acts for
      a user whose durable guard is true, with one exception: it was overtaken, that is, the
      guard was closed after its check, and not opened since, while either the session hold it
      had checked under, or the exclusive locks of the closing process, had been lost unnoticed. */
  lemma UsesAreGuarded(t: System, p: nat)
    requires Reachable(t) && p < |t.procs| && t.procs[p].code.Do? && t.procs[p].code.op.Use?
    ensures t.procs[p].code.op.user !in t.open <==> t.procs[p].code.op.user in t.procs[p].overtaken
  {
    ReachableInv(t);
    assert Disciplined(t.procs[p].held, t.procs[p].code);
    var u := t.procs[p].code.op.user;
    var i :| 0 <= i < |t.procs[p].held| && t.procs[p].held[i].checked && Protects(t.procs[p].held[i].key, u);
    assert u in t.open || u in t.procs[p].overtaken;
  }

  /** When a destructive scope with its session changes a guard, nobody else is inside a provider
      scope or a guarded write of that user, except a process whose session was lost. */
  lemma GuardChangesAreAlone(t: System, p: nat, q: nat, i: nat)
    requires Reachable(t) && p < |t.procs| && t.procs[p].code.Do? && t.procs[p].code.op.SetGuard? && !t.procs[p].gone
    requires q < |t.procs| && i < |t.procs[q].held| && Protects(t.procs[q].held[i].key, t.procs[p].code.op.user)
    ensures (p == q && t.procs[q].held[i].conn.Session? && !t.procs[q].held[i].checked) || !Real(t.procs[q], t.procs[q].held[i])
  {
    ReachableInv(t);
    if Real(t.procs[q], t.procs[q].held[i]) {
      RealHoldsAreOwn(t, p, q, i);
    }
  }

  /** No session was dropped unnoticed. */
  predicate Intact(s: System) {
    forall p :: 0 <= p < |s.procs| ==> !s.procs[p].gone && s.procs[p].overtaken == {}
  }

  lemma StepStaysIntact(s: System, m: Move)
    requires Inv(s) && Intact(s) && CanMove(s, m) && !m.DropSession?
    ensures Intact(Step(s, m))
  {
    if m.Run? && s.procs[m.p].code.op.SetGuard? {
      forall q | 0 <= q < |s.procs| ensures !LostCheck(s.procs[q], s.procs[m.p].code.op.user) {
      }
    }
  }

  lemma {:induction false} RunStaysIntact(s: System, moves: seq<Move>)
    requires Inv(s) && Intact(s) && ValidRun(s, moves) && forall i :: 0 <= i < |moves| ==> !moves[i].DropSession?
    ensures Intact(Exec(s, moves))
    decreases |moves|
  {
    if moves != [] {
      StepKeepsInv(s, moves[0]);
      StepStaysIntact(s, moves[0]);
      RunStaysIntact(Step(s, moves[0]), moves[1..]);
    }
  }

  /** As long as lost sessions are noticed at once, through any timeouts, exceptions and discarded
      connections, every use is guarded and guard changes are alone. */
  lemma NoticedLossesAreSafe(s: System, moves: seq<Move>, p: nat)
    requires Initial(s) && (InitialInv(s); ValidRun(s, moves) && p < |Exec(s, moves).procs|)
    requires forall i :: 0 <= i < |moves| ==> !moves[i].DropSession?
    ensures (InitialInv(s); var t := Exec(s, moves);
      && (t.procs[p].code.Do? && t.procs[p].code.op.Use? ==> t.procs[p].code.op.user in t.open)
      && (t.procs[p].code.Do? && t.procs[p].code.op.SetGuard? ==>
            forall q, i :: 0 <= q < |t.procs| && 0 <= i < |t.procs[q].held| && Protects(t.procs[q].held[i].key, t.procs[p].code.op.user) ==> q == p))
  {
    InitialInv(s);
    RunStaysIntact(s, moves);
    var t := Exec(s, moves);
    assert Reachable(t);
    if t.procs[p].code.Do? && t.procs[p].code.op.Use? {
      UsesAreGuarded(t, p);
    }
    if t.procs[p].code.Do? && t.procs[p].code.op.SetGuard? {
      forall q, i | 0 <= q < |t.procs| && 0 <= i < |t.procs[q].held| && Protects(t.procs[q].held[i].key, t.procs[p].code.op.user) ensures q == p {
        GuardChangesAreAlone(t, p, q, i);
      }
    }
  }

  /** A reachable system never deadlocks, and left alone it finishes. */
  lemma ReachableSystemsFinish(t: System, moves: seq<Move>)
    requires Reachable(t) && (ReachableInv(t); ValidRun(t, moves)) && OnlyRuns(moves)
    requires (ReachableInv(t); forall p :: 0 <= p < |Exec(t, moves).procs| ==> !Enabled(Exec(t, moves), p))
    ensures (ReachableInv(t);
      forall p :: 0 <= p < |Exec(t, moves).procs| ==> Finished(Exec(t, moves).procs[p]) && Exec(t, moves).procs[p].held == [])
  {
    ReachableInv(t);
    RunsFinish(t, moves);
  }

  // ---------------------------------------------------------------------------------
  // A session lost unnoticed

  lemma {:induction false} RunAppend(s: System, moves: seq<Move>, m: Move)
    requires Inv(s) && ValidRun(s, moves) && CanMove(Exec(s, moves), m)
    ensures ValidRun(s, moves + [m]) && Exec(s, moves + [m]) == Step(Exec(s, moves), m)
    decreases |moves|
  {
    if moves == [] {
      assert [m][1..] == [];
      StepKeepsInv(s, m);
      assert ValidRun(Step(s, m), []);
      assert moves + [m] == [m];
    } else {
      StepKeepsInv(s, moves[0]);
      assert (moves + [m])[1..] == moves[1..] + [m];
      RunAppend(Step(s, moves[0]), moves[1..], m);
    }
  }

  lemma ReachableStep(s: System, m: Move)
    requires Reachable(s) && (ReachableInv(s); CanMove(s, m))
    ensures (ReachableInv(s); Reachable(Step(s, m)))
  {
    var start, moves :| Initial(start) && (InitialInv(start); ValidRun(start, moves) && Exec(start, moves) == s);
    InitialInv(start);
    RunAppend(start, moves, m);
  }

  const SHARED: Hold := Hold(Session, Provider(Primary(0)), Shared, true)
  const DRAIN: Hold := Hold(Session, Provider(Primary(0)), Exclusive, false)
  const WRITES: Hold := Hold(Session, UserMail(0), Exclusive, false)

  /** A provider scope: about to be entered, to check the guard, to use mail state, and without
      its session. */
  const IN_PROVIDER: Code := Do(Use(0), Do(Use(0), Do(Pop, Stop)))
  const OUTSIDE: Proc := Live(Do(Acquire(Session, Provider(Primary(0)), Shared), Do(Check(0), IN_PROVIDER)), [])
  const ENTERED: Proc := Live(Do(Check(0), IN_PROVIDER), [SHARED.(checked := false)])
  const CHECKED: Proc := Live(IN_PROVIDER, [SHARED])
  const LOST: Proc := CHECKED.(gone := true)

  /** A destructive scope that closes the guard, with its first locks. */
  const IN_CLOSING: Code := Do(SetGuard(0, false), Do(Pop, Do(Pop, Stop)))
  const BEFORE: Proc := Live(Do(Acquire(Session, Provider(Primary(0)), Exclusive), Do(Acquire(Session, UserMail(0), Exclusive), IN_CLOSING)), [])
  const DRAINED: Proc := Live(Do(Acquire(Session, UserMail(0), Exclusive), IN_CLOSING), [DRAIN])
  const ALONE: Proc := Live(IN_CLOSING, [DRAIN, WRITES])

  function TwoScopes(scope: Proc, closing: Proc): System {
    System([scope, closing], [], {0})
  }

  /** Entering a scope takes its lock when nobody waits and no real hold conflicts. */
  lemma FreeStep(s: System, p: nat)
    requires p < |s.procs| && s.queue == [] && Requests(s.procs[p]) && !s.procs[p].gone
    requires forall q, i | 0 <= q < |s.procs| && 0 <= i < |s.procs[q].held| && Real(s.procs[q], s.procs[q].held[i]) ::
      s.procs[q].held[i].key == s.procs[p].code.op.key ==> !Conflict(s.procs[q].held[i].mode, s.procs[p].code.op.mode)
    ensures WellQueued(s) && Enabled(s, p)
    ensures var r := s.procs[p]; var a := r.code.op;
      RunStep(s, p) == s.(procs := s.procs[p := r.(code := r.code.next, held := r.held + [Hold(a.conn, a.key, a.mode, false)])])
  {
  }

  lemma ScopeCode()
    ensures NestsWork(Then(ProviderScope(0, None, Done), Done), Context(0, 0, false))
    ensures EmitWork(Then(ProviderScope(0, None, Done), Done), Stop) == OUTSIDE.code
  {
  }

  lemma ClosingCode()
    ensures NestsWork(Then(DestructiveScope(0, Then(ChangeGuard(0, false), Done)), Done), Context(0, 0, false))
    ensures EmitWork(Then(DestructiveScope(0, Then(ChangeGuard(0, false), Done)), Done), Stop) == BEFORE.code
  {
    assert EmitWork(Done, Do(Pop, Do(Pop, Stop))) == Do(Pop, Do(Pop, Stop));
  }

  lemma ScopesStart()
    ensures Reachable(TwoScopes(OUTSIDE, BEFORE))
  {
    var s := TwoScopes(OUTSIDE, BEFORE);
    ScopeCode();
    ClosingCode();
    InitialInv(s);
    assert ValidRun(s, []) && Exec(s, []) == s;
  }

  lemma ScopeStep()
    ensures WellQueued(TwoScopes(OUTSIDE, BEFORE)) && CanMove(TwoScopes(OUTSIDE, BEFORE), Run(0))
    ensures Step(TwoScopes(OUTSIDE, BEFORE), Run(0)) == TwoScopes(ENTERED, BEFORE)
  {
    FreeStep(TwoScopes(OUTSIDE, BEFORE), 0);
    assert [] + ENTERED.held == ENTERED.held;
    assert [OUTSIDE, BEFORE][0 := ENTERED] == [ENTERED, BEFORE];
  }

  lemma CheckStep()
    ensures WellQueued(TwoScopes(ENTERED, BEFORE)) && CanMove(TwoScopes(ENTERED, BEFORE), Run(0))
    ensures Step(TwoScopes(ENTERED, BEFORE), Run(0)) == TwoScopes(CHECKED, BEFORE)
  {
    assert MarkTop(ENTERED.held, 0) == [SHARED];
  }

  lemma DropStep()
    ensures WellQueued(TwoScopes(CHECKED, BEFORE)) && CanMove(TwoScopes(CHECKED, BEFORE), DropSession(0))
    ensures Step(TwoScopes(CHECKED, BEFORE), DropSession(0)) == TwoScopes(LOST, BEFORE)
  {
    assert CHECKED.held[0].conn.Session?;
  }

  lemma DrainStep()
    ensures WellQueued(TwoScopes(LOST, BEFORE)) && CanMove(TwoScopes(LOST, BEFORE), Run(1))
    ensures Step(TwoScopes(LOST, BEFORE), Run(1)) == TwoScopes(LOST, DRAINED)
  {
    FreeStep(TwoScopes(LOST, BEFORE), 1);
    assert [] + DRAINED.held == DRAINED.held;
    assert [LOST, BEFORE][1 := DRAINED] == [LOST, DRAINED];
  }

  lemma WritesStep()
    ensures WellQueued(TwoScopes(LOST, DRAINED)) && CanMove(TwoScopes(LOST, DRAINED), Run(1))
    ensures Step(TwoScopes(LOST, DRAINED), Run(1)) == TwoScopes(LOST, ALONE)
  {
    FreeStep(TwoScopes(LOST, DRAINED), 1);
    assert [DRAIN] + [WRITES] == [DRAIN, WRITES];
  }

  lemma CloseStep()
    ensures WellQueued(TwoScopes(LOST, ALONE)) && CanMove(TwoScopes(LOST, ALONE), Run(1))
    ensures Step(TwoScopes(LOST, ALONE), Run(1))
         == System([LOST.(overtaken := {0}), ALONE.(code := ALONE.code.next)], [], {})
  {
    assert LOST.held[0].checked && !Real(LOST, LOST.held[0]);
    assert LostCheck(LOST, 0) && Overtake(LOST, 0, false, false) == LOST.(overtaken := {0});
    assert !LostCheck(ALONE.(code := ALONE.code.next), 0);
    var procs := GuardChanged(TwoScopes(LOST, ALONE), 1, 0, false);
    assert procs == [procs[0], procs[1]];
    assert {0} - {0} == {};
  }

  /** The exception occurs: a provider scope whose session the server drops runs on while a
      destructive scope takes its locks and closes the guard. */
  lemma LostSessionOutlivesGuard()
    ensures Reachable(System([LOST.(overtaken := {0}), ALONE.(code := ALONE.code.next)], [], {}))
    ensures LOST.code.op == Use(0)
  {
    ScopesStart();
    ScopeStep(); ReachableStep(TwoScopes(OUTSIDE, BEFORE), Run(0));
    CheckStep(); ReachableStep(TwoScopes(ENTERED, BEFORE), Run(0));
    DropStep(); ReachableStep(TwoScopes(CHECKED, BEFORE), DropSession(0));
    DrainStep(); ReachableStep(TwoScopes(LOST, BEFORE), Run(1));
    WritesStep(); ReachableStep(TwoScopes(LOST, DRAINED), Run(1));
    CloseStep(); ReachableStep(TwoScopes(LOST, ALONE), Run(1));
  }

  // ---------------------------------------------------------------------------------
  // Why the order is needed

  ghost predicate Deadlocked(s: System) {
    && WellQueued(s)
    && (exists p :: 0 <= p < |s.procs| && !Finished(s.procs[p]))
    && forall p :: 0 <= p < |s.procs| ==> !Enabled(s, p)
  }

  const SECOND_SHARED: Code := Do(Acquire(Txn, UserMail(0), Shared), Do(Pop, Do(Pop, Stop)))
  const PURGE: Code := Do(Acquire(Session, UserMail(0), Exclusive), Do(Pop, Stop))

  /** A process with its session. */
  function Live(code: Code, held: seq<Hold>): Proc {
    Proc(code, held, false, {})
  }

  /** One process about to enter a provider scope that shares the write namespace, one that
      purges, and nothing held. */
  const ONE_NAMESPACE: System :=
    System([Live(Do(Acquire(Session, UserMail(0), Shared), SECOND_SHARED), []), Live(PURGE, [])], [], {0})

  /** The first process is inside its scope. */
  function OneNamespace(queue: seq<nat>): System {
    System([Live(SECOND_SHARED, [Hold(Session, UserMail(0), Shared, false)]), Live(PURGE, [])], queue, {0})
  }

  lemma ScopeEnters()
    ensures WellQueued(ONE_NAMESPACE) && Enabled(ONE_NAMESPACE, 0) && RunStep(ONE_NAMESPACE, 0) == OneNamespace([])
  {
    assert [] + [Hold(Session, UserMail(0), Shared, false)] == [Hold(Session, UserMail(0), Shared, false)];
  }

  lemma PurgeQueues()
    ensures WellQueued(OneNamespace([])) && Enabled(OneNamespace([]), 1)
    ensures RunStep(OneNamespace([]), 1) == OneNamespace([1])
  {
    var s := OneNamespace([]);
    assert s.procs[0].held[0].key == UserMail(0) && Real(s.procs[0], s.procs[0].held[0]);
    assert Blocked(s, 1, Session, UserMail(0), Exclusive);
  }

  lemma ScopeQueuesBehindPurge()
    ensures WellQueued(OneNamespace([1])) && Enabled(OneNamespace([1]), 0)
    ensures RunStep(OneNamespace([1]), 0) == OneNamespace([1, 0])
  {
    var s := OneNamespace([1]);
    assert s.procs[s.queue[0]].code.op == Acquire(Session, UserMail(0), Exclusive);
    assert Behind(s, UserMail(0), Shared, 1) && !Owns(s.procs[0], Txn, UserMail(0));
  }

  /** With one namespace for provider scopes and guarded writes, a destructive request that
      queues between the two shared acquisitions of a provider scope stops both processes. */
  lemma OneNamespaceDeadlocks()
    ensures ONE_NAMESPACE.queue == [] && forall p :: 0 <= p < |ONE_NAMESPACE.procs| ==> ONE_NAMESPACE.procs[p].held == []
    ensures WellQueued(ONE_NAMESPACE) && Enabled(ONE_NAMESPACE, 0) && RunStep(ONE_NAMESPACE, 0) == OneNamespace([])
    ensures WellQueued(OneNamespace([])) && Enabled(OneNamespace([]), 1) && RunStep(OneNamespace([]), 1) == OneNamespace([1])
    ensures WellQueued(OneNamespace([1])) && Enabled(OneNamespace([1]), 0) && RunStep(OneNamespace([1]), 0) == OneNamespace([1, 0])
    ensures Deadlocked(OneNamespace([1, 0]))
  {
    ScopeEnters();
    PurgeQueues();
    ScopeQueuesBehindPurge();
    BothWait();
  }

  lemma BothWait()
    ensures Deadlocked(OneNamespace([1, 0]))
  {
    PurgeWaits();
    ScopeWaits();
  }

  lemma PurgeWaits()
    ensures WellQueued(OneNamespace([1, 0])) && !Enabled(OneNamespace([1, 0]), 1)
  {
    var s := OneNamespace([1, 0]);
    assert s.procs[0].held[0].key == UserMail(0) && Real(s.procs[0], s.procs[0].held[0]);
    assert Blocked(s, 1, Session, UserMail(0), Exclusive);
  }

  lemma ScopeWaits()
    ensures WellQueued(OneNamespace([1, 0])) && !Enabled(OneNamespace([1, 0]), 0) && !Finished(OneNamespace([1, 0]).procs[0])
  {
    var s := OneNamespace([1, 0]);
    assert Place(s.queue, 0) == 1;
    assert s.procs[s.queue[0]].code.op == Acquire(Session, UserMail(0), Exclusive);
    assert Behind(s, UserMail(0), Shared, 1) && !Owns(s.procs[0], Txn, UserMail(0));
  }

  /** One process about to make a guarded write while it holds the exclusive user-mail lock. */
  function SelfBlocked(queue: seq<nat>): System {
    var held := [Hold(Session, Provider(Primary(0)), Exclusive, false), Hold(Session, UserMail(0), Exclusive, false)];
    System([Live(Emit(GuardedWrite(0), Do(Pop, Do(Pop, Stop))), held)], queue, {0})
  }

  lemma WriteQueues()
    ensures WellQueued(SelfBlocked([])) && Enabled(SelfBlocked([]), 0) && RunStep(SelfBlocked([]), 0) == SelfBlocked([0])
  {
    var s := SelfBlocked([]);
    assert s.procs[0].held[1].key == UserMail(0) && Real(s.procs[0], s.procs[0].held[1]);
    assert Blocked(s, 0, Txn, UserMail(0), Shared);
  }

  lemma WriteWaits()
    ensures Deadlocked(SelfBlocked([0]))
  {
    var t := SelfBlocked([0]);
    assert Place(t.queue, 0) == 0;
    assert t.procs[0].held[1].key == UserMail(0) && Real(t.procs[0], t.procs[0].held[1]);
    assert Blocked(t, 0, Txn, UserMail(0), Shared);
    assert !Finished(t.procs[0]);
  }

  /** A guarded write inside a destructive scope waits for its own process. */
  lemma GuardedWriteInDestructiveScopeDeadlocks()
    ensures Emit(DestructiveScope(0, Then(GuardedWrite(0), Done)), Stop).next.next == SelfBlocked([]).procs[0].code
    ensures WellQueued(SelfBlocked([])) && Enabled(SelfBlocked([]), 0) && Deadlocked(RunStep(SelfBlocked([]), 0))
  {
    assert EmitWork(Done, Do(Pop, Do(Pop, Stop))) == Do(Pop, Do(Pop, Stop));
    WriteQueues();
    WriteWaits();
  }
}
