/** What the processes of the lock system get done: left alone, each performs exactly the uses of
    mail state its work asks for, unless one of its guard checks meets a closed guard. */
module LockProgress {
  import opened Basics
  import opened AdvisoryLocks
  import opened LockSystem

  // ---------------------------------------------------------------------------------
  // What work asks for

  /** The users for whom the work is to use mail state, in order: a guarded write once, a provider
      scope before and after its body. */
  function Asked(w: Work): seq<nat>
    decreases w
  {
    if w.Done? then [] else AskedTask(w.task) + Asked(w.rest)
  }

  function AskedTask(t: Task): seq<nat>
    decreases t
  {
    match t
    case GuardedWrite(u) => [u]
    case ProviderScope(u, _, body) => [u] + Asked(body) + [u]
    case DraftScope(_, _, phases) => AskedPhases(phases)
    case BodyFetchScope(_, body) => Asked(body)
    case SubjectScope(_, body) => Asked(body)
    case DestructiveScope(_, body) => Asked(body)
    case ChangeGuard(_, _) => []
  }

  function AskedPhases(p: Phases): seq<nat>
    decreases p
  {
    Asked(p.body) + if p.Last? then [] else AskedPhases(p.next)
  }

  /** The work closes some guard. */
  predicate Closes(w: Work)
    decreases w
  {
    w.Then? && (ClosesTask(w.task) || Closes(w.rest))
  }

  predicate ClosesTask(t: Task)
    decreases t
  {
    match t
    case GuardedWrite(_) => false
    case ProviderScope(_, _, body) => Closes(body)
    case DraftScope(_, _, phases) => ClosesPhases(phases)
    case BodyFetchScope(_, body) => Closes(body)
    case SubjectScope(_, body) => Closes(body)
    case DestructiveScope(_, body) => Closes(body)
    case ChangeGuard(_, open) => !open
  }

  predicate ClosesPhases(p: Phases)
    decreases p
  {
    Closes(p.body) || (p.Adopt? && ClosesPhases(p.next))
  }

  // ---------------------------------------------------------------------------------
  // What flat code does

  function UsesOf(op: Instr): seq<nat> {
    if op.Use? then [op.user] else []
  }

  predicate ClosesNow(op: Instr) {
    op.SetGuard? && !op.open
  }

  function UsesIn(c: Code): seq<nat> {
    if c.Stop? then [] else UsesOf(c.op) + UsesIn(c.next)
  }

  predicate ClosesIn(c: Code) {
    c.Do? && (ClosesNow(c.op) || ClosesIn(c.next))
  }

  /** Every check is made for the use that follows it. */
  predicate ChecksForUse(c: Code) {
    c.Do? ==> (c.op.Check? ==> c.next.Do? && c.next.op == Use(c.op.user)) && ChecksForUse(c.next)
  }

  /** What compiled work does before `k` goes on. */
  predicate Compiles(c: Code, asked: seq<nat>, closes: bool, k: Code) {
    UsesIn(c) == asked + UsesIn(k) && (ClosesIn(c) <==> closes || ClosesIn(k)) && (ChecksForUse(k) ==> ChecksForUse(c))
  }

  lemma Before(op: Instr, c: Code, asked: seq<nat>, closes: bool, k: Code)
    requires Compiles(c, asked, closes, k) && (op.Check? ==> c.Do? && c.op == Use(op.user))
    ensures Compiles(Do(op, c), UsesOf(op) + asked, ClosesNow(op) || closes, k)
  {
    assert UsesOf(op) + (asked + UsesIn(k)) == (UsesOf(op) + asked) + UsesIn(k);
  }

  lemma InTurn(c: Code, asked: seq<nat>, closes: bool, mid: Code, later: seq<nat>, closesLater: bool, k: Code)
    requires Compiles(c, asked, closes, mid) && Compiles(mid, later, closesLater, k)
    ensures Compiles(c, asked + later, closes || closesLater, k)
  {
    assert asked + (later + UsesIn(k)) == (asked + later) + UsesIn(k);
  }

  lemma PopsCompile(k: Code)
    ensures Compiles(Do(Pop, k), [], false, k) && Compiles(Do(Pop, Do(Pop, k)), [], false, k)
  {
    Before(Pop, k, [], false, k);
    Before(Pop, Do(Pop, k), [], false, k);
  }

  lemma {:induction false} WorkCompiles(w: Work, k: Code)
    ensures Compiles(EmitWork(w, k), Asked(w), Closes(w), k)
    decreases w, 0
  {
    if w.Then? {
      WorkCompiles(w.rest, k);
      TaskCompiles(w.task, EmitWork(w.rest, k));
      InTurn(EmitWork(w, k), AskedTask(w.task), ClosesTask(w.task), EmitWork(w.rest, k), Asked(w.rest), Closes(w.rest), k);
    }
  }

  /** A body between its lock statements. */
  lemma {:induction false} BodyCompiles(body: Work, after: Code, k: Code)
    requires Compiles(after, [], false, k)
    ensures Compiles(EmitWork(body, after), Asked(body), Closes(body), k)
    decreases body, 1
  {
    WorkCompiles(body, after);
    InTurn(EmitWork(body, after), Asked(body), Closes(body), after, [], false, k);
    assert Asked(body) + [] == Asked(body);
  }

  /** The body of a provider scope between its two uses, after the guard check. */
  lemma {:induction false} CheckedBodyCompiles(u: nat, body: Work, after: Code, k: Code)
    requires Compiles(after, [], false, k)
    ensures Compiles(Do(Check(u), Do(Use(u), EmitWork(body, Do(Use(u), after)))), [u] + Asked(body) + [u], Closes(body), k)
    decreases body, 1
  {
    var inner := EmitWork(body, Do(Use(u), after));
    Before(Use(u), after, [], false, k);
    WorkCompiles(body, Do(Use(u), after));
    assert [u] + [] == [u];
    InTurn(inner, Asked(body), Closes(body), Do(Use(u), after), [u], false, k);
    Before(Use(u), inner, Asked(body) + [u], Closes(body), k);
    Before(Check(u), Do(Use(u), inner), [u] + (Asked(body) + [u]), Closes(body), k);
    assert [] + ([u] + (Asked(body) + [u])) == [u] + Asked(body) + [u];
  }

  lemma Entered(c: Conn, key: Key, m: Mode, code: Code, asked: seq<nat>, closes: bool, k: Code)
    requires Compiles(code, asked, closes, k)
    ensures Compiles(Do(Acquire(c, key, m), code), asked, closes, k)
  {
    Before(Acquire(c, key, m), code, asked, closes, k);
    assert [] + asked == asked;
  }

  lemma WriteCompiles(u: nat, k: Code)
    ensures Compiles(Emit(GuardedWrite(u), k), [u], false, k)
  {
    PopsCompile(k);
    Before(Use(u), Do(Pop, k), [], false, k);
    assert [u] + [] == [u];
    Before(Check(u), Do(Use(u), Do(Pop, k)), [u], false, k);
    assert [] + [u] == [u];
    Entered(Txn, UserMail(u), Shared, Do(Check(u), Do(Use(u), Do(Pop, k))), [u], false, k);
  }

  lemma {:induction false} ProviderCompiles(u: nat, a: Option<Identity>, body: Work, k: Code)
    ensures Compiles(Emit(ProviderScope(u, a, body), k), [u] + Asked(body) + [u], Closes(body), k)
    decreases body, 2
  {
    PopsCompile(k);
    var after := if a.None? then Do(Pop, k) else Do(Pop, Do(Pop, k));
    var code := Do(Check(u), Do(Use(u), EmitWork(body, Do(Use(u), after))));
    CheckedBodyCompiles(u, body, after, k);
    if a.Some? {
      Entered(Session, Provider(a.value), Shared, code, [u] + Asked(body) + [u], Closes(body), k);
      code := Do(Acquire(Session, Provider(a.value), Shared), code);
    }
    Entered(Session, Provider(Primary(u)), Shared, code, [u] + Asked(body) + [u], Closes(body), k);
  }

  lemma {:induction false} TaskCompiles(t: Task, k: Code)
    ensures Compiles(Emit(t, k), AskedTask(t), ClosesTask(t), k)
    decreases t
  {
    PopsCompile(k);
    match t
    case GuardedWrite(u) => WriteCompiles(u, k);
    case ProviderScope(u, a, body) => ProviderCompiles(u, a, body, k);
    case DraftScope(u, c, phases) => PhasesCompile(u, c, phases, k);
    case BodyFetchScope(u, body) =>
      BodyCompiles(body, Do(Pop, k), k);
      Entered(Session, BodyFetch(u), Exclusive, EmitWork(body, Do(Pop, k)), Asked(body), Closes(body), k);
    case SubjectScope(h, body) =>
      BodyCompiles(body, Do(Pop, k), k);
      Entered(Session, Subject(h), Exclusive, EmitWork(body, Do(Pop, k)), Asked(body), Closes(body), k);
    case DestructiveScope(u, body) =>
      var inner := EmitWork(body, Do(Pop, Do(Pop, k)));
      BodyCompiles(body, Do(Pop, Do(Pop, k)), k);
      Entered(Session, UserMail(u), Exclusive, inner, Asked(body), Closes(body), k);
      Entered(Session, Provider(Primary(u)), Exclusive, Do(Acquire(Session, UserMail(u), Exclusive), inner), Asked(body), Closes(body), k);
    case ChangeGuard(u, open) =>
      Before(SetGuard(u, open), k, [], false, k);
  }

  lemma {:induction false} PhasesCompile(u: nat, c: nat, p: Phases, k: Code)
    ensures Compiles(EmitPhases(u, c, p, k), AskedPhases(p), ClosesPhases(p), k)
    decreases p
  {
    var after, later, closes := k, [], false;
    if p.Adopt? {
      PhasesCompile(u, c, p.next, k);
      after, later, closes := EmitPhases(u, c, p.next, k), AskedPhases(p.next), ClosesPhases(p.next);
    }
    PopsCompile(after);
    var pops := if p.gmail.None? then Do(Pop, after) else Do(Pop, Do(Pop, after));
    var code := EmitWork(p.body, pops);
    BodyCompiles(p.body, pops, after);
    Entered(Session, ClientDraft(u, c), Exclusive, code, Asked(p.body), Closes(p.body), after);
    code := Do(Acquire(Session, ClientDraft(u, c), Exclusive), code);
    if p.gmail.Some? {
      Entered(Session, GmailDraft(u, p.gmail.value), Exclusive, code, Asked(p.body), Closes(p.body), after);
      code := Do(Acquire(Session, GmailDraft(u, p.gmail.value), Exclusive), code);
    }
    InTurn(code, Asked(p.body), Closes(p.body), after, later, closes, k);
  }

  // ---------------------------------------------------------------------------------
  // What a run performs

  /** The uses of mail state that process `p` performs, in order. */
  ghost function Performed(s: System, moves: seq<Move>, p: nat): seq<nat>
    requires Inv(s) && ValidRun(s, moves) && p < |s.procs|
    decreases |moves|
  {
    if moves == [] then []
    else
      var c := s.procs[p].code;
      StepKeepsInv(s, moves[0]);
      (if moves[0] == Run(p) && c.Do? then UsesOf(c.op) else []) + Performed(Step(s, moves[0]), moves[1..], p)
  }

  /** Some guard check of process `p` meets a closed guard. */
  ghost predicate Refused(s: System, moves: seq<Move>, p: nat)
    requires Inv(s) && ValidRun(s, moves) && p < |s.procs|
    decreases |moves|
  {
    moves != [] &&
      var c := s.procs[p].code;
      StepKeepsInv(s, moves[0]);
      (moves[0] == Run(p) && c.Do? && c.op.Check? && c.op.user !in s.open) || Refused(Step(s, moves[0]), moves[1..], p)
  }

  lemma {:induction false} PopsUseNothing(n: nat)
    ensures UsesIn(Pops(n, Stop)) == [] && ChecksForUse(Pops(n, Stop)) && !ClosesIn(Pops(n, Stop))
  {
    if n > 0 {
      PopsUseNothing(n - 1);
    }
  }

  /** One statement: a process goes on to its next statement, waits where it stands, or is
      refused by a closed guard. */
  lemma RunMoves(s: System, q: nat, p: nat)
    requires Inv(s) && Intact(s) && Enabled(s, q) && p < |s.procs|
    ensures var c, t := s.procs[p].code, RunStep(s, q);
      && |t.procs| == |s.procs|
      && (p != q ==> t.procs[p].code == c)
      && (p == q ==>
            if c.op.Check? && c.op.user !in s.open then t.procs[p].code == Pops(|s.procs[p].held|, Stop)
            else t.procs[p].code == c.next || (c.op.Acquire? && t.procs[p].code == c))
  {
    assert Disciplined(s.procs[q].held, s.procs[q].code);
  }

  /** What one statement of some process performs of what `p` has left. */
  lemma StepAdvances(s: System, q: nat, p: nat)
    requires Inv(s) && Intact(s) && Enabled(s, q) && p < |s.procs| && ChecksForUse(s.procs[p].code)
    ensures p < |RunStep(s, q).procs|
    ensures var c, n := s.procs[p].code, RunStep(s, q).procs[p].code;
      && ChecksForUse(n)
      && (if q == p && c.op.Check? && c.op.user !in s.open then UsesIn(n) == [] && UsesIn(c) != []
          else (if q == p then UsesOf(c.op) else []) + UsesIn(n) == UsesIn(c))
  {
    RunMoves(s, q, p);
    PopsUseNothing(|s.procs[p].held|);
  }

  /** The first move and the rest of a run. */
  lemma FirstMove(s: System, moves: seq<Move>, p: nat)
    requires Inv(s) && Intact(s) && ValidRun(s, moves) && OnlyRuns(moves) && moves != [] && p < |s.procs|
    ensures var t, c, q := Step(s, moves[0]), s.procs[p].code, moves[0].p;
      && Inv(t) && Intact(t) && ValidRun(t, moves[1..]) && OnlyRuns(moves[1..]) && |t.procs| == |s.procs|
      && Enabled(s, q) && t == RunStep(s, q) && Exec(s, moves) == Exec(t, moves[1..])
      && Performed(s, moves, p) == (if q == p then UsesOf(c.op) else []) + Performed(t, moves[1..], p)
      && (Refused(s, moves, p) <==> (q == p && c.op.Check? && c.op.user !in s.open) || Refused(t, moves[1..], p))
  {
    StepKeepsInv(s, moves[0]);
    StepStaysIntact(s, moves[0]);
    RunMoves(s, moves[0].p, p);
  }

  /** `done` of `asked` is performed and `left` is still to come, unless a refusal cut it short. */
  predicate Accounts(done: seq<nat>, left: seq<nat>, asked: seq<nat>, refused: bool) {
    done <= asked && if refused then done != asked else done + left == asked
  }

  lemma AccountsOn(now: seq<nat>, done: seq<nat>, left: seq<nat>, next: seq<nat>, asked: seq<nat>, refused: bool)
    requires Accounts(done, left, next, refused) && now + next == asked
    ensures Accounts(now + done, left, asked, refused)
  {
    assert (now + done)[|now|..] == done && asked[|now|..] == next;
    assert (now + done) + left == now + (done + left);
  }

  lemma {:induction false} UsesAdvance(s: System, moves: seq<Move>, p: nat)
    requires Inv(s) && Intact(s) && ValidRun(s, moves) && OnlyRuns(moves)
    requires p < |s.procs| && ChecksForUse(s.procs[p].code)
    ensures p < |Exec(s, moves).procs|
    ensures Accounts(Performed(s, moves, p), UsesIn(Exec(s, moves).procs[p].code), UsesIn(s.procs[p].code), Refused(s, moves, p))
    decreases |moves|
  {
    if moves != [] {
      var q, t, c := moves[0].p, Step(s, moves[0]), s.procs[p].code;
      FirstMove(s, moves, p);
      StepAdvances(s, q, p);
      UsesAdvance(t, moves[1..], p);
      if !(q == p && c.op.Check? && c.op.user !in s.open) {
        AccountsOn(if q == p then UsesOf(c.op) else [], Performed(t, moves[1..], p), UsesIn(Exec(s, moves).procs[p].code),
          UsesIn(t.procs[p].code), UsesIn(c), Refused(t, moves[1..], p));
      }
    }
  }

  /** Nobody can run any more. */
  predicate Stuck(s: System)
    requires WellQueued(s)
  {
    forall p :: 0 <= p < |s.procs| ==> !Enabled(s, p)
  }

  /** Left alone, a process performs a prefix of what its work asks for, and once nobody can run
      it has performed all of it, if and only if no guard check of it met a closed guard. */
  lemma WorkIsPerformed(s: System, moves: seq<Move>, p: nat, w: Work)
    requires Initial(s) && (InitialInv(s); ValidRun(s, moves)) && OnlyRuns(moves)
    requires p < |s.procs| && s.procs[p].code == EmitWork(w, Stop)
    ensures (InitialInv(s);
      && Performed(s, moves, p) <= Asked(w)
      && (Stuck(Exec(s, moves)) ==> (Performed(s, moves, p) == Asked(w) <==> !Refused(s, moves, p))))
  {
    InitialInv(s);
    WorkCompiles(w, Stop);
    UsesAdvance(s, moves, p);
    if Stuck(Exec(s, moves)) {
      RunsFinish(s, moves);
    }
  }

  /** The users of all work are open, and no work closes a guard. */
  ghost predicate AllOpen(s: System) {
    forall p :: 0 <= p < |s.procs| ==> exists w: Work ::
      s.procs[p].code == EmitWork(w, Stop) && !Closes(w) && forall i :: 0 <= i < |Asked(w)| ==> Asked(w)[i] in s.open
  }

  /** At the level of code: the same for what is left to do. */
  predicate StaysOpen(s: System) {
    forall p :: 0 <= p < |s.procs| ==>
      var c := s.procs[p].code;
      ChecksForUse(c) && !ClosesIn(c) && forall i :: 0 <= i < |UsesIn(c)| ==> UsesIn(c)[i] in s.open
  }

  lemma OpenStep(s: System, q: nat)
    requires Inv(s) && Intact(s) && StaysOpen(s) && Enabled(s, q)
    ensures StaysOpen(RunStep(s, q))
  {
    var t := RunStep(s, q);
    forall p | 0 <= p < |t.procs| ensures
      var c := t.procs[p].code;
      ChecksForUse(c) && !ClosesIn(c) && forall i :: 0 <= i < |UsesIn(c)| ==> UsesIn(c)[i] in t.open
    {
      RunMoves(s, q, p);
      PopsUseNothing(|s.procs[p].held|);
      var c := s.procs[p].code;
      assert c.Do? ==> forall i :: 0 <= i < |UsesIn(c.next)| ==> UsesIn(c.next)[i] in UsesIn(c);
    }
  }

  lemma {:induction false} NobodyIsRefused(s: System, moves: seq<Move>, p: nat)
    requires Inv(s) && Intact(s) && StaysOpen(s) && ValidRun(s, moves) && OnlyRuns(moves) && p < |s.procs|
    ensures !Refused(s, moves, p)
    decreases |moves|
  {
    if moves != [] {
      var c := s.procs[p].code;
      if c.Do? && c.op.Check? {
        assert UsesIn(c) == UsesIn(c.next) && UsesIn(c.next)[0] == c.op.user;
      }
      FirstMove(s, moves, p);
      OpenStep(s, moves[0].p);
      NobodyIsRefused(Step(s, moves[0]), moves[1..], p);
    }
  }

  /** With the guards open and kept open, every process performs exactly what its work asks for,
      in order, whatever the interleaving. */
  lemma OpenGuardsLetWorkHappen(s: System, moves: seq<Move>, p: nat, w: Work)
    requires Initial(s) && AllOpen(s) && (InitialInv(s); ValidRun(s, moves)) && OnlyRuns(moves)
    requires p < |s.procs| && s.procs[p].code == EmitWork(w, Stop)
    ensures (InitialInv(s); Stuck(Exec(s, moves)) ==> Performed(s, moves, p) == Asked(w))
  {
    InitialInv(s);
    forall q | 0 <= q < |s.procs| ensures
      var c := s.procs[q].code;
      ChecksForUse(c) && !ClosesIn(c) && forall i :: 0 <= i < |UsesIn(c)| ==> UsesIn(c)[i] in s.open
    {
      var v: Work :| s.procs[q].code == EmitWork(v, Stop) && !Closes(v) && forall i :: 0 <= i < |Asked(v)| ==> Asked(v)[i] in s.open;
      WorkCompiles(v, Stop);
    }
    NobodyIsRefused(s, moves, p);
    WorkIsPerformed(s, moves, p, w);
  }

  // ---------------------------------------------------------------------------------
  // Waiting and lost sessions

  /** A request is not granted before a conflicting one that waits ahead of it, unless the session
      already holds the lock: an exclusive request is not starved by later shared ones. */
  lemma WaitersAreNotOvertaken(s: System, p: nat, i: nat)
    requires Inv(s) && Enabled(s, p) && Requests(s.procs[p]) && RunStep(s, p).procs[p].held == s.procs[p].held + [Hold(
      s.procs[p].code.op.conn, s.procs[p].code.op.key, s.procs[p].code.op.mode, false)]
    requires i < |s.queue| && forall j :: 0 <= j <= i ==> s.queue[j] != p
    requires var a, b := s.procs[p].code.op, s.procs[s.queue[i]].code.op; a.key == b.key && (a.mode.Exclusive? || b.mode.Exclusive?)
    ensures var r := s.procs[p];
      exists j :: 0 <= j < |r.held| && r.held[j].conn == r.code.op.conn && r.held[j].key == r.code.op.key && !(r.gone && r.held[j].conn.Session?)
  {
    var a := s.procs[p].code.op;
    var n := Place(s.queue, p);
    assert n > i;
    assert !Owns(s.procs[p], a.conn, a.key) ==> Behind(s, a.key, a.mode, n);
  }

  /** A guarded write runs on its own connection: it passes under an open guard even when the
      session of its process has been dropped. */
  lemma WritesOutliveSession(s: System, p: nat, user: nat)
    requires Inv(s) && p < |s.procs| && s.procs[p].code.Do? && s.procs[p].code.op == Check(user) && user in s.open
    requires s.procs[p].held != [] && s.procs[p].held[|s.procs[p].held| - 1] == Hold(Txn, UserMail(user), Shared, false)
    ensures Enabled(s, p) && RunStep(s, p).procs[p].code == s.procs[p].code.next
  {
    NotQueued(s, p);
  }
}
