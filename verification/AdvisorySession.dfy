/** The advisory session of one process: acquiring a scope lock by lock, releasing it in
    reverse, and discarding the connection when ownership is no longer certain
    (backend/app/db/user_mail_guard.py), and the draft handle that rebinds its locks
    (backend/app/db/mail_groups.py). Faults of the database are method parameters. */
module AdvisorySession {
  import opened AdvisoryLocks
  import opened Basics

  datatype Lock = Lock(mode: Mode, key: Key)

  datatype Outcome = Ready | Unavailable

  /** One lock scope and the faults it meets: the statement at which acquiring fails, and the
      statements at which the clean-up after that failure and the final release fail. */
  datatype ScopePlan = ScopePlan(locks: seq<Lock>, acquireFault: nat, cleanupFault: nat, releaseFault: nat)

  /** What the session asks of the server. */
  datatype Statement = Take(lock: Lock) | Give(lock: Lock)

  /** Requests for the locks in order. */
  function Takes(locks: seq<Lock>): seq<Statement> {
    seq(|locks|, i requires 0 <= i < |locks| => Take(locks[i]))
  }

  /** Releases of the locks in reverse order. */
  function Gives(locks: seq<Lock>): seq<Statement> {
    seq(|locks|, i requires 0 <= i < |locks| => Give(locks[|locks| - 1 - i]))
  }

  /** Scopes inside one another, innermost last. */
  function Nest(scopes: seq<ScopePlan>): seq<Statement> {
    if scopes == [] then [] else Takes(scopes[0].locks) + Nest(scopes[1..]) + Gives(scopes[0].locks)
  }

  /** The scope meets no fault: acquiring has one statement before and one after the locks, and
      releasing a rollback before them and a commit after them. */
  predicate Faultless(p: ScopePlan) {
    p.acquireFault > |p.locks| + 1 && p.releaseFault > |p.locks| + 1
  }

  /** One more lock to give back, ahead of those given back already. */
  lemma UnlockNext(before: seq<Statement>, held: multiset<Lock>, lock: Lock, rest: seq<Lock>)
    requires multiset(rest) <= held
    ensures before + Gives(rest) + [Give(lock)] == before + Gives([lock] + rest)
    ensures lock in held - multiset(rest) <==> multiset([lock] + rest) <= held
    ensures held - multiset(rest) - multiset{lock} == held - multiset([lock] + rest)
  {
    assert multiset([lock] + rest) == multiset{lock} + multiset(rest);
    assert Gives([lock] + rest) == Gives(rest) + [Give(lock)];
  }

  lemma NotAllReleased(acquired: seq<Lock>, i: nat, held: multiset<Lock>)
    requires i <= |acquired|
    ensures multiset(acquired) <= held ==> multiset(acquired[i..]) <= held
  {
    assert acquired == acquired[..i] + acquired[i..];
    assert multiset(acquired) == multiset(acquired[..i]) + multiset(acquired[i..]);
  }

  lemma LockNext(locks: seq<Lock>, n: nat)
    requires n < |locks|
    ensures multiset(locks[..n + 1]) == multiset(locks[..n]) + multiset{locks[n]}
  {
    assert locks[..n + 1] == locks[..n] + [locks[n]];
  }

  class Connection {
    /** The session locks the server records for this connection, with multiplicity. */
    var held: multiset<Lock>
    var invalidated: bool
    /** The lock statements sent, in order. */
    var sent: seq<Statement>

    ghost predicate Valid()
      reads this
    {
      invalidated ==> held == multiset{}
    }

    constructor ()
      ensures Valid() && held == multiset{} && !invalidated && sent == []
    {
      held, invalidated, sent := multiset{}, false, [];
    }

    method Discard()
      modifies this`held, this`invalidated
      ensures Valid() && invalidated
    {
      invalidated := true;
      held := multiset{};
    }

    /** One unlock statement; the server answers whether the session held the lock. */
    method UnlockOne(lock: Lock, fails: bool) returns (ok: bool)
      modifies this`held, this`sent
      ensures ok <==> !fails && lock in old(held)
      ensures held == old(held) - (if ok then multiset{lock} else multiset{}) && sent == old(sent) + [Give(lock)]
    {
      sent := sent + [Give(lock)];
      ok := !fails && lock in held;
      if ok {
        held := held - multiset{lock};
      }
    }

    /** Sends the unlock statements in reverse order until one fails. */
    method Unlock(acquired: seq<Lock>, fault: nat) returns (ok: bool)
      requires fault > 0
      modifies this`held, this`sent
      ensures ok <==> multiset(acquired) <= old(held) && fault > |acquired|
      ensures ok ==> held == old(held) - multiset(acquired) && sent == old(sent) + Gives(acquired)
      ensures old(sent) <= sent
    {
      var i := |acquired|;
      ghost var start, rest: seq<Lock> := held, [];
      ok := true;
      while i > 0
        invariant 0 <= i <= |acquired| && fault > |acquired| - i && rest == acquired[i..]
        invariant start == old(held) && multiset(rest) <= start && held == start - multiset(rest)
        invariant sent == old(sent) + Gives(rest) && ok
      {
        i := i - 1;
        UnlockNext(old(sent), start, acquired[i], rest);
        ok := UnlockOne(acquired[i], fault == |acquired| - i);
        assert acquired[i..] == [acquired[i]] + rest;
        rest := acquired[i..];
        if !ok {
          NotAllReleased(acquired, i, start);
          return;
        }
      }
      assert rest == acquired;
    }

    /** Releases the locks in reverse order; any fault discards the whole session. */
    method ReleaseLocks(acquired: seq<Lock>, fault: nat) returns (outcome: Outcome)
      requires Valid() && !invalidated
      modifies this
      ensures Valid()
      ensures outcome.Ready? <==> !invalidated
      ensures outcome.Ready? <==>
        multiset(acquired) <= old(held) && (fault > |acquired| + 1 || (fault == |acquired| + 1 && acquired == []))
      ensures outcome.Ready? ==> held == old(held) - multiset(acquired) && sent == old(sent) + Gives(acquired)
      ensures old(sent) <= sent
    {
      if fault == 0 {
        Discard();
        return Unavailable;
      }
      var ok := Unlock(acquired, fault);
      if !ok || (acquired != [] && fault == |acquired| + 1) {
        Discard();
        return Unavailable;
      }
      outcome := Ready;
    }

    /** Acquires the locks in order; on a timeout or fault everything acquired is given back
        or the session is discarded. */
    method AcquireLocks(locks: seq<Lock>, acquireFault: nat, cleanupFault: nat) returns (outcome: Outcome)
      requires Valid()
      modifies this
      ensures Valid()
      ensures outcome.Ready? <==> !old(invalidated) && acquireFault > |locks| + 1
      ensures outcome.Ready? ==> !invalidated && held == old(held) + multiset(locks) && sent == old(sent) + Takes(locks)
      ensures old(sent) <= sent
      ensures outcome.Unavailable? ==> invalidated || held == old(held)
      ensures old(invalidated) ==> invalidated
    {
      if invalidated {
        return Unavailable;
      }
      var n, ok := 0, acquireFault != 0;
      while ok && n < |locks|
        invariant 0 <= n <= |locks| && !invalidated
        invariant held == old(held) + multiset(locks[..n])
        invariant old(sent) <= sent && (ok ==> sent == old(sent) + Takes(locks[..n]))
        invariant ok ==> acquireFault > n
        invariant !ok ==> acquireFault <= |locks|
        decreases ok, |locks| - n
      {
        sent := sent + [Take(locks[n])];
        assert Takes(locks[..n + 1]) == Takes(locks[..n]) + [Take(locks[n])];
        if acquireFault == n + 1 {
          ok := false;
        } else {
          LockNext(locks, n);
          held := held + multiset{locks[n]};
          n := n + 1;
        }
      }
      if ok && acquireFault != |locks| + 1 {
        assert locks[..n] == locks;
        return Ready;
      }
      var cleanup := ReleaseLocks(locks[..n], cleanupFault);
      assert old(held) + multiset(locks[..n]) - multiset(locks[..n]) == old(held);
      outcome := Unavailable;
    }

    /** Nested scopes on one session, innermost last, with arbitrary faults: afterwards the
        session holds what it held before, or it was discarded and holds nothing. */
    method RunNested(scopes: seq<ScopePlan>) returns (outcome: Outcome)
      requires Valid()
      modifies this
      ensures Valid()
      ensures invalidated || held == old(held)
      ensures old(invalidated) ==> invalidated
      ensures outcome.Ready? ==> !invalidated
      ensures outcome.Ready? ==> forall i :: 0 <= i < |scopes| ==> scopes[i].acquireFault > |scopes[i].locks| + 1
      ensures outcome.Ready? ==> sent == old(sent) + Nest(scopes)
      ensures !old(invalidated) && (forall i :: 0 <= i < |scopes| ==> Faultless(scopes[i])) ==> outcome.Ready?
      decreases |scopes|
    {
      if scopes == [] {
        return if invalidated then Unavailable else Ready;
      }
      var s := scopes[0];
      outcome := AcquireLocks(s.locks, s.acquireFault, s.cleanupFault);
      if outcome.Unavailable? {
        return;
      }
      assert forall i :: 0 <= i < |scopes| - 1 ==> scopes[1..][i] == scopes[i + 1];
      outcome := RunNested(scopes[1..]);
      if invalidated {
        outcome := Unavailable;
        return;
      }
      assert multiset(s.locks) <= held;
      assert outcome.Ready? ==> sent == old(sent) + (Takes(s.locks) + Nest(scopes[1..]));
      var released := ReleaseLocks(s.locks, s.releaseFault);
      assert old(held) + multiset(s.locks) - multiset(s.locks) == old(held);
      if released.Unavailable? {
        outcome := Unavailable;
      }
      assert scopes == [s] + scopes[1..];
    }
  }

  function DraftLocks(user: nat, client: nat, gmail: Option<nat>): seq<Lock> {
    (if gmail.Some? then [Lock(Exclusive, GmailDraft(user, gmail.value))] else [])
    + [Lock(Exclusive, ClientDraft(user, client))]
  }

  /** Rebinds a client-only draft lock once the provider identity is known. */
  class DraftLockHandle {
    const user: nat
    const client: nat
    var gmail: Option<nat>
    var scope: Option<seq<Lock>>

    constructor (user: nat, client: nat, gmail: Option<nat>)
      ensures this.user == user && this.client == client && this.gmail == gmail && scope == None
    {
      this.user, this.client, this.gmail, scope := user, client, gmail, None;
    }

    ghost predicate Bound(c: Connection)
      reads this, c
    {
      c.Valid() && (scope.Some? ==> scope.value == DraftLocks(user, client, gmail) && multiset(scope.value) <= c.held)
    }

    method Acquire(c: Connection, plan: ScopePlan) returns (outcome: Outcome)
      requires c.Valid() && scope == None
      modifies this`scope, c
      ensures Bound(c) && (outcome.Ready? <==> scope.Some?)
      ensures outcome.Ready? ==> !c.invalidated && c.held == old(c.held) + multiset(DraftLocks(user, client, gmail))
      ensures outcome.Ready? ==> c.sent == old(c.sent) + Takes(DraftLocks(user, client, gmail))
      ensures outcome.Unavailable? ==> c.invalidated || c.held == old(c.held)
      ensures outcome.Ready? <==> !old(c.invalidated) && plan.acquireFault > |DraftLocks(user, client, gmail)| + 1
    {
      var locks := DraftLocks(user, client, gmail);
      outcome := c.AcquireLocks(locks, plan.acquireFault, plan.cleanupFault);
      if outcome.Ready? {
        scope := Some(locks);
      }
    }

    method Release(c: Connection, fault: nat) returns (outcome: Outcome)
      requires Bound(c) && (scope.Some? ==> !c.invalidated)
      modifies this`scope, c
      ensures c.Valid() && scope == None
      ensures outcome.Ready? ==> c.invalidated == old(c.invalidated)
      ensures outcome.Ready? ==> c.held == old(c.held) - (if old(scope).Some? then multiset(old(scope).value) else multiset{})
      ensures outcome.Ready? ==> c.sent == old(c.sent) + if old(scope).Some? then Gives(old(scope).value) else []
      ensures outcome.Unavailable? ==> c.invalidated
      ensures old(scope).None? || fault > |old(scope).value| + 1 ==> outcome.Ready?
    {
      var s := scope;
      scope := None;
      outcome := Ready;
      if s.Some? {
        outcome := c.ReleaseLocks(s.value, fault);
      }
    }

    /** Adoption ends with the provider lock taken before the client lock, the rest of the
        session unchanged, or with no draft lock at all. */
    method Adopt(c: Connection, id: nat, plan: ScopePlan) returns (outcome: Outcome)
      requires Bound(c) && scope.Some? && !c.invalidated
      modifies this, c
      ensures Bound(c)
      ensures old(gmail) == Some(id) ==> outcome.Ready? && unchanged(this) && unchanged(c)
      ensures outcome.Ready? ==> gmail == Some(id) && scope == Some(DraftLocks(user, client, Some(id)))
      ensures outcome.Ready? ==> c.held == old(c.held) - multiset(old(scope).value) + multiset(DraftLocks(user, client, Some(id)))
      ensures outcome.Ready? && old(gmail) != Some(id) ==>
        c.sent == old(c.sent) + Gives(old(scope).value) + Takes([Lock(Exclusive, GmailDraft(user, id)), Lock(Exclusive, ClientDraft(user, client))])
      ensures plan.releaseFault > |old(scope).value| + 1 && plan.acquireFault > 3 ==> outcome.Ready?
      ensures outcome.Unavailable? ==> scope == None && (c.invalidated || c.held == old(c.held) - multiset(old(scope).value))
    {
      if gmail == Some(id) {
        assert c.held - multiset(scope.value) + multiset(scope.value) == c.held;
        return Ready;
      }
      outcome := Release(c, plan.releaseFault);
      if outcome.Unavailable? {
        return;
      }
      gmail := Some(id);
      assert DraftLocks(user, client, gmail) == [Lock(Exclusive, GmailDraft(user, id)), Lock(Exclusive, ClientDraft(user, client))];
      outcome := Acquire(c, plan);
    }
  }

  /** The locks each scope asks for, in order. */
  function ScopeLocks(t: Task): seq<Lock> {
    match t
    case GuardedWrite(u) => [Lock(Shared, UserMail(u))]
    case ProviderScope(u, a, _) =>
      [Lock(Shared, Provider(Primary(u)))] + (if a.Some? then [Lock(Shared, Provider(a.value))] else [])
    case DraftScope(u, c, p) => DraftLocks(u, c, p.gmail)
    case BodyFetchScope(u, _) => [Lock(Exclusive, BodyFetch(u))]
    case SubjectScope(h, _) => [Lock(Exclusive, Subject(h))]
    case DestructiveScope(u, _) => [Lock(Exclusive, Provider(Primary(u))), Lock(Exclusive, UserMail(u))]
    case ChangeGuard(_, _) => []
  }

  predicate StartsWith(code: Code, locks: seq<Lock>)
    decreases |locks|
  {
    locks == [] || (code.Do? && code.op.Acquire? && Lock(code.op.mode, code.op.key) == locks[0] && StartsWith(code.next, locks[1..]))
  }

  /** A process of the lock system requests exactly the locks its scopes list, in order. */
  lemma ProgramsTakeScopeLocks(t: Task, k: Code)
    ensures StartsWith(Emit(t, k), ScopeLocks(t))
  {
    match t
    case ProviderScope(u, a, body) =>
      assert ScopeLocks(t)[1..] == if a.Some? then [Lock(Shared, Provider(a.value))] else [];
    case DraftScope(u, c, p) =>
      assert p.gmail.Some? ==> ScopeLocks(t)[1..] == [Lock(Exclusive, ClientDraft(u, c))];
    case DestructiveScope(u, _) =>
      assert ScopeLocks(t)[1..] == [Lock(Exclusive, UserMail(u))];
    case _ =>
  }
}
