/** Advisory-lock protocol of the mail repository (backend/app/db/user_mail_guard.py and
    the draft lock of backend/app/db/mail_groups.py).

    Every process runs a program compiled from the lock scopes the code base offers. Session
    locks live on one reused advisory connection; the lock of a guarded write lives on a
    second connection. A request that cannot be granted joins one FIFO queue, and a later
    request waits behind an earlier conflicting one, as PostgreSQL does. */
module AdvisoryLocks {
  import opened Basics

  /** A Gmail account. The primary account of a user carries the user's own id, so both
      provider keys of its scope are the same key. */
  datatype Identity = Primary(user: nat) | Linked(user: nat, account: nat)

  /** Lock keys by namespace. The 64-bit digest of the source is taken to be injective. */
  datatype Key =
    | Subject(hash: nat)
    | BodyFetch(user: nat)
    | Provider(id: Identity)
    | GmailDraft(user: nat, draft: nat)
    | ClientDraft(user: nat, draft: nat)
    | UserMail(user: nat)

  datatype Mode = Shared | Exclusive

  /** The two connections of a process: the reused session and the write transaction. */
  datatype Conn = Session | Txn

  /** One granted lock. It is `checked` once the durable guard was re-read under it. */
  datatype Hold = Hold(conn: Conn, key: Key, mode: Mode, checked: bool)

  datatype Instr =
    | Acquire(conn: Conn, key: Key, mode: Mode)
    | Check(user: nat)
    | Use(user: nat)
    | SetGuard(user: nat, open: bool)
    | Pop

  datatype Code = Stop | Do(op: Instr, next: Code)

  function Rank(k: Key): nat {
    match k
    case Subject(_) => 1
    case BodyFetch(_) => 2
    case Provider(Primary(_)) => 3
    case Provider(Linked(_, _)) => 4
    case GmailDraft(_, _) => 5
    case ClientDraft(_, _) => 6
    case UserMail(_) => 7
  }

  predicate Conflict(a: Mode, b: Mode) {
    a.Exclusive? || b.Exclusive?
  }

  /** A hold on this key keeps every guard change of the user out. */
  predicate Protects(k: Key, user: nat) {
    k == Provider(Primary(user)) || k == UserMail(user)
  }

  // ---------------------------------------------------------------------------------
  // Programs

  /** Work of one process, written with the scopes of the code base. */
  datatype Work = Done | Then(task: Task, rest: Work)

  datatype Task =
    | GuardedWrite(user: nat)
    | ProviderScope(user: nat, account: Option<Identity>, body: Work)
    | DraftScope(user: nat, client: nat, phases: Phases)
    | BodyFetchScope(user: nat, body: Work)
    | SubjectScope(hash: nat, body: Work)
    | DestructiveScope(user: nat, body: Work)
    | ChangeGuard(user: nat, open: bool)

  /** A draft scope runs under one provider identity until it adopts another one, which
      releases and reacquires both draft locks. */
  datatype Phases =
    | Last(gmail: Option<nat>, body: Work)
    | Adopt(gmail: Option<nat>, body: Work, next: Phases)

  function Pops(n: nat, k: Code): Code {
    if n == 0 then k else Do(Pop, Pops(n - 1, k))
  }

  /** The lock statements of a task, followed by `k`. */
  function Emit(t: Task, k: Code): Code
    decreases t
  {
    match t
    case GuardedWrite(u) =>
      Do(Acquire(Txn, UserMail(u), Shared), Do(Check(u), Do(Use(u), Do(Pop, k))))
    case ProviderScope(u, None, body) =>
      Do(Acquire(Session, Provider(Primary(u)), Shared),
         Do(Check(u), Do(Use(u), EmitWork(body, Do(Use(u), Do(Pop, k))))))
    case ProviderScope(u, Some(a), body) =>
      Do(Acquire(Session, Provider(Primary(u)), Shared),
         Do(Acquire(Session, Provider(a), Shared),
            Do(Check(u), Do(Use(u), EmitWork(body, Do(Use(u), Do(Pop, Do(Pop, k))))))))
    case DraftScope(u, c, phases) => EmitPhases(u, c, phases, k)
    case BodyFetchScope(u, body) =>
      Do(Acquire(Session, BodyFetch(u), Exclusive), EmitWork(body, Do(Pop, k)))
    case SubjectScope(h, body) =>
      Do(Acquire(Session, Subject(h), Exclusive), EmitWork(body, Do(Pop, k)))
    case DestructiveScope(u, body) =>
      Do(Acquire(Session, Provider(Primary(u)), Exclusive),
         Do(Acquire(Session, UserMail(u), Exclusive), EmitWork(body, Do(Pop, Do(Pop, k)))))
    case ChangeGuard(u, open) => Do(SetGuard(u, open), k)
  }

  function EmitWork(w: Work, k: Code): Code
    decreases w
  {
    match w
    case Done => k
    case Then(t, rest) => Emit(t, EmitWork(rest, k))
  }

  function EmitPhases(u: nat, c: nat, p: Phases, k: Code): Code
    decreases p
  {
    var after := if p.Last? then k else EmitPhases(u, c, p.next, k);
    match p.gmail
    case None =>
      Do(Acquire(Session, ClientDraft(u, c), Exclusive), EmitWork(p.body, Do(Pop, after)))
    case Some(g) =>
      Do(Acquire(Session, GmailDraft(u, g), Exclusive),
         Do(Acquire(Session, ClientDraft(u, c), Exclusive),
            EmitWork(p.body, Do(Pop, Do(Pop, after)))))
  }

  /** Where a task may stand: `level` is the rank reached by the enclosing scopes, `user` the
      user they belong to, `destructive` that the innermost scope is a destructive one. */
  datatype Context = Context(level: nat, user: nat, destructive: bool)

  /** The nesting the callers keep: subject before user, body download before provider,
      provider before drafts, drafts before the transaction lock, one user at a time, and no
      guarded write while the process holds the exclusive user-mail lock. */
  predicate NestsTask(t: Task, x: Context)
    decreases t
  {
    match t
    case GuardedWrite(u) => x.level < 7
    case ProviderScope(u, a, body) =>
      && (x.level < 3 || (x.level >= 4 && u == x.user))
      && (a.Some? ==> a.value.user == u)
      && NestsWork(body, Context(if x.level < 4 then 4 else x.level, u, false))
    case DraftScope(u, c, phases) => x.level == 4 && u == x.user && NestsPhases(phases, x)
    case BodyFetchScope(u, body) => x.level < 2 && NestsWork(body, Context(2, u, false))
    case SubjectScope(h, body) => x.level < 1 && NestsWork(body, Context(1, x.user, false))
    case DestructiveScope(u, body) => x.level < 3 && NestsWork(body, Context(7, u, true))
    case ChangeGuard(u, open) => x.destructive && u == x.user
  }

  predicate NestsWork(w: Work, x: Context)
    decreases w
  {
    w.Then? ==> NestsTask(w.task, x) && NestsWork(w.rest, x)
  }

  predicate NestsPhases(p: Phases, x: Context)
    decreases p
  {
    && NestsWork(p.body, x.(level := 6, destructive := false))
    && (p.Adopt? ==> NestsPhases(p.next, x))
  }

  // ---------------------------------------------------------------------------------
  // Lock discipline of flat code

  /** The session already holds the key at least as strongly. */
  predicate Covered(held: seq<Hold>, c: Conn, k: Key, m: Mode) {
    exists i :: 0 <= i < |held| && held[i].conn == c && held[i].key == k
             && (held[i].mode == m || held[i].mode.Exclusive?)
  }

  predicate MayAcquire(held: seq<Hold>, c: Conn, k: Key, m: Mode) {
    && (k.Provider? && k.id.Linked? ==> m.Shared?)
    && (|| Covered(held, c, k, m)
        || (k.Provider? && k.id.Linked?)
        || forall i :: 0 <= i < |held| ==> Rank(held[i].key) < Rank(k))
  }

  /** The innermost hold that protects the user is a shared one. */
  predicate HasTop(held: seq<Hold>, user: nat)
    decreases |held|
  {
    && held != []
    && var last := held[|held| - 1];
       if Protects(last.key, user) then last.mode.Shared? else HasTop(held[..|held| - 1], user)
  }

  /** Records a passed guard check on the innermost hold that protects the user. */
  function MarkTop(held: seq<Hold>, user: nat): (r: seq<Hold>)
    requires HasTop(held, user)
    ensures |r| == |held|
    ensures forall i :: 0 <= i < |held| ==>
      r[i] == held[i] || (r[i] == held[i].(checked := true) && Protects(held[i].key, user) && held[i].mode.Shared?)
    ensures exists i :: 0 <= i < |r| && r[i].checked && Protects(r[i].key, user)
    decreases |held|
  {
    var n := |held| - 1;
    if Protects(held[n].key, user) then held[n := held[n].(checked := true)]
    else
      var r := MarkTop(held[..n], user);
      assert forall i :: 0 <= i < n ==> (r + [held[n]])[i] == r[i];
      r + [held[n]]
  }

  predicate HoldsExclusive(held: seq<Hold>, k: Key) {
    exists i :: 0 <= i < |held| && held[i].conn.Session? && held[i].key == k && held[i].mode.Exclusive?
  }

  predicate HoldsChecked(held: seq<Hold>, user: nat) {
    exists i :: 0 <= i < |held| && held[i].checked && Protects(held[i].key, user)
  }

  /** Code that, from these holds, only takes locks in rank order, uses Gmail-derived state
      only under a checked hold, changes a guard only under both exclusive locks, and ends
      with nothing held. */
  predicate Disciplined(held: seq<Hold>, code: Code)
    decreases code
  {
    match code
    case Stop => held == []
    case Do(Acquire(c, k, m), next) =>
      MayAcquire(held, c, k, m) && Disciplined(held + [Hold(c, k, m, false)], next)
    case Do(Check(u), next) => HasTop(held, u) && Disciplined(MarkTop(held, u), next)
    case Do(Use(u), next) => HoldsChecked(held, u) && Disciplined(held, next)
    case Do(SetGuard(u, open), next) =>
      && HoldsExclusive(held, Provider(Primary(u))) && HoldsExclusive(held, UserMail(u))
      && (forall i :: 0 <= i < |held| ==> !held[i].checked)
      && Disciplined(held, next)
    case Do(Pop, next) => held != [] && Disciplined(held[..|held| - 1], next)
  }

  /** What the holds of a process look like at a place of the nesting. */
  ghost predicate Fits(held: seq<Hold>, x: Context) {
    && (forall i :: 0 <= i < |held| ==> Rank(held[i].key) <= x.level)
    && (x.level >= 4 ==>
          exists i :: 0 <= i < |held| && held[i].conn.Session? && held[i].key == Provider(Primary(x.user)))
    && (x.destructive ==>
          && HoldsExclusive(held, Provider(Primary(x.user))) && HoldsExclusive(held, UserMail(x.user))
          && (forall i :: 0 <= i < |held| ==> !held[i].checked))
    && (x.level < 3 ==> forall i :: 0 <= i < |held| ==> !held[i].checked)
  }

  lemma MarkedAtPush(held: seq<Hold>, h: Hold, user: nat)
    requires Protects(h.key, user) && h.mode.Shared?
    ensures HasTop(held + [h], user) && MarkTop(held + [h], user) == held + [h.(checked := true)]
  {
    assert (held + [h])[..|held|] == held;
  }

  lemma MarkedBelowPush(held: seq<Hold>, h: Hold, top: Hold, user: nat)
    requires Protects(h.key, user) && h.mode.Shared? && !Protects(top.key, user)
    ensures HasTop(held + [h] + [top], user)
    ensures MarkTop(held + [h] + [top], user) == held + [h.(checked := true)] + [top]
  {
    MarkedAtPush(held, h, user);
    assert (held + [h] + [top])[..|held| + 1] == held + [h];
  }

  lemma PopPushed(held: seq<Hold>, h: Hold, k: Code)
    ensures Disciplined(held + [h], Do(Pop, k)) == Disciplined(held, k)
  {
    assert (held + [h])[..|held|] == held;
  }

  lemma PopTwice(held: seq<Hold>, h: Hold, g: Hold, k: Code)
    ensures Disciplined(held + [h] + [g], Do(Pop, Do(Pop, k))) == Disciplined(held, k)
  {
    PopPushed(held + [h], g, Do(Pop, k));
    PopPushed(held, h, k);
  }

  /** Pushing a lock that is not above the new level keeps the picture of the holds. */
  lemma FitsPush(held: seq<Hold>, h: Hold, x: Context, y: Context)
    requires Fits(held, x) && x.level <= y.level && Rank(h.key) <= y.level && !y.destructive
    requires h.checked ==> y.level >= 3
    requires y.level >= 4 ==> (h.conn.Session? && h.key == Provider(Primary(y.user))) || (x.level >= 4 && x.user == y.user)
    ensures Fits(held + [h], y)
  {
    var inner := held + [h];
    assert inner[|held|] == h;
    assert forall i :: 0 <= i < |held| ==> inner[i] == held[i];
    if x.level >= 4 && x.user == y.user {
      var i :| 0 <= i < |held| && held[i].conn.Session? && held[i].key == Provider(Primary(x.user));
      assert inner[i].conn.Session? && inner[i].key == Provider(Primary(y.user));
    }
  }

  /** Every nesting of scopes the callers may write compiles to disciplined code. */
  lemma {:induction false} WorkIsDisciplined(w: Work, x: Context, held: seq<Hold>, k: Code)
    requires NestsWork(w, x) && Fits(held, x) && Disciplined(held, k)
    ensures Disciplined(held, EmitWork(w, k))
    decreases w, 0
  {
    if w.Then? {
      WorkIsDisciplined(w.rest, x, held, k);
      TaskIsDisciplined(w.task, x, held, EmitWork(w.rest, k));
    }
  }

  lemma {:induction false} TaskIsDisciplined(t: Task, x: Context, held: seq<Hold>, k: Code)
    requires NestsTask(t, x) && Fits(held, x) && Disciplined(held, k)
    ensures Disciplined(held, Emit(t, k))
    decreases t
  {
    match t
    case GuardedWrite(u) => GuardedWriteIsDisciplined(u, x, held, k);
    case ProviderScope(u, a, body) =>
      if a.None? {
        ProviderIsDisciplined(u, body, x, held, k);
      } else {
        AccountIsDisciplined(u, a.value, body, x, held, k);
      }
    case DraftScope(u, c, phases) => PhasesAreDisciplined(u, c, phases, x, held, k);
    case BodyFetchScope(u, body) =>
      ScopeIsDisciplined(BodyFetch(u), body, Context(2, u, false), x, held, k);
    case SubjectScope(h, body) =>
      ScopeIsDisciplined(Subject(h), body, Context(1, x.user, false), x, held, k);
    case DestructiveScope(u, body) => DestructiveIsDisciplined(u, body, x, held, k);
    case ChangeGuard(u, open) =>
  }

  lemma {:induction false} GuardedWriteIsDisciplined(u: nat, x: Context, held: seq<Hold>, k: Code)
    requires x.level < 7 && Fits(held, x) && Disciplined(held, k)
    ensures Disciplined(held, Emit(GuardedWrite(u), k))
  {
    var h := Hold(Txn, UserMail(u), Shared, false);
    var marked := held + [h.(checked := true)];
    MarkedAtPush(held, h, u);
    PopPushed(held, h.(checked := true), k);
    MarkedIsChecked(held, h, u);
    UseThen(marked, u, Do(Pop, k));
    CheckThen(held + [h], u, Do(Use(u), Do(Pop, k)));
    assert MayAcquire(held, Txn, UserMail(u), Shared);
    AcquireThen(held, Txn, UserMail(u), Shared, Do(Check(u), Do(Use(u), Do(Pop, k))));
  }

  lemma UseThen(held: seq<Hold>, u: nat, k: Code)
    requires HoldsChecked(held, u) && Disciplined(held, k)
    ensures Disciplined(held, Do(Use(u), k))
  {
  }

  lemma CheckThen(held: seq<Hold>, u: nat, k: Code)
    requires HasTop(held, u) && Disciplined(MarkTop(held, u), k)
    ensures Disciplined(held, Do(Check(u), k))
  {
  }

  lemma AcquireThen(held: seq<Hold>, c: Conn, key: Key, m: Mode, k: Code)
    requires MayAcquire(held, c, key, m) && Disciplined(held + [Hold(c, key, m, false)], k)
    ensures Disciplined(held, Do(Acquire(c, key, m), k))
  {
  }

  lemma MarkedIsChecked(held: seq<Hold>, h: Hold, u: nat)
    requires Protects(h.key, u)
    ensures HoldsChecked(held + [h.(checked := true)], u)
  {
    var marked := held + [h.(checked := true)];
    assert marked[|held|].checked && Protects(marked[|held|].key, u);
  }

  lemma {:induction false} DestructiveIsDisciplined(u: nat, body: Work, x: Context, held: seq<Hold>, k: Code)
    requires NestsTask(DestructiveScope(u, body), x) && Fits(held, x) && Disciplined(held, k)
    ensures Disciplined(held, Emit(DestructiveScope(u, body), k))
    decreases body, 1
  {
    var h, g := Hold(Session, Provider(Primary(u)), Exclusive, false), Hold(Session, UserMail(u), Exclusive, false);
    var one := held + [h];
    var inner := one + [g];
    PopTwice(held, h, g, k);
    assert one[|held|] == h && forall i :: 0 <= i < |held| ==> one[i] == held[i];
    assert inner[|held|] == h && inner[|held| + 1] == g;
    assert forall i :: 0 <= i < |held| ==> inner[i] == held[i];
    assert Fits(inner, Context(7, u, true));
    WorkIsDisciplined(body, Context(7, u, true), inner, Do(Pop, Do(Pop, k)));
  }

  lemma {:induction false} ScopeIsDisciplined(key: Key, body: Work, y: Context, x: Context, held: seq<Hold>, k: Code)
    requires Rank(key) == y.level < 3 && !y.destructive && x.level < y.level
    requires Fits(held, x) && NestsWork(body, y) && Disciplined(held, k)
    ensures Disciplined(held, Do(Acquire(Session, key, Exclusive), EmitWork(body, Do(Pop, k))))
    decreases body, 1
  {
    var h := Hold(Session, key, Exclusive, false);
    PopPushed(held, h, k);
    FitsPush(held, h, x, y);
    WorkIsDisciplined(body, y, held + [h], Do(Pop, k));
  }

  /** The user's provider key is free in rank order or already held by this session. */
  lemma ProviderKeyMayBeAcquired(u: nat, x: Context, held: seq<Hold>)
    requires Fits(held, x) && (x.level < 3 || (x.level >= 4 && u == x.user))
    ensures MayAcquire(held, Session, Provider(Primary(u)), Shared)
  {
    if x.level >= 4 {
      var i :| 0 <= i < |held| && held[i].conn.Session? && held[i].key == Provider(Primary(u));
      assert Covered(held, Session, Provider(Primary(u)), Shared);
    }
  }

  lemma {:induction false} ProviderIsDisciplined(u: nat, body: Work, x: Context, held: seq<Hold>, k: Code)
    requires NestsTask(ProviderScope(u, None, body), x) && Fits(held, x) && Disciplined(held, k)
    ensures Disciplined(held, Emit(ProviderScope(u, None, body), k))
    decreases body, 1
  {
    var h := Hold(Session, Provider(Primary(u)), Shared, false);
    var y := Context(if x.level < 4 then 4 else x.level, u, false);
    var marked := held + [h.(checked := true)];
    var after := Do(Use(u), Do(Pop, k));
    MarkedAtPush(held, h, u);
    PopPushed(held, h.(checked := true), k);
    FitsPush(held, h.(checked := true), x, y);
    MarkedIsChecked(held, h, u);
    UseThen(marked, u, Do(Pop, k));
    WorkIsDisciplined(body, y, marked, after);
    UseThen(marked, u, EmitWork(body, after));
    CheckThen(held + [h], u, Do(Use(u), EmitWork(body, after)));
    ProviderKeyMayBeAcquired(u, x, held);
    AcquireThen(held, Session, Provider(Primary(u)), Shared, Do(Check(u), Do(Use(u), EmitWork(body, after))));
  }

  /** The holds of an account scope once its guard check passed: the check marks the inner
      hold when the account is the primary one, and the outer hold otherwise. */
  function AccountHolds(held: seq<Hold>, u: nat, id: Identity): seq<Hold> {
    var h, g := Hold(Session, Provider(Primary(u)), Shared, false), Hold(Session, Provider(id), Shared, false);
    if id == Primary(u) then held + [h] + [g.(checked := true)] else held + [h.(checked := true)] + [g]
  }

  lemma AccountHoldsAreMarked(held: seq<Hold>, u: nat, id: Identity, x: Context, y: Context, k: Code)
    requires Fits(held, x) && y.user == u && id.user == u && !y.destructive && y.level >= 4 && x.level <= y.level
    ensures var two := held + [Hold(Session, Provider(Primary(u)), Shared, false)] + [Hold(Session, Provider(id), Shared, false)];
      HasTop(two, u) && MarkTop(two, u) == AccountHolds(held, u, id)
    ensures Fits(AccountHolds(held, u, id), y) && HoldsChecked(AccountHolds(held, u, id), u)
    ensures Disciplined(AccountHolds(held, u, id), Do(Pop, Do(Pop, k))) == Disciplined(held, k)
  {
    var h, g := Hold(Session, Provider(Primary(u)), Shared, false), Hold(Session, Provider(id), Shared, false);
    var marked := AccountHolds(held, u, id);
    if id == Primary(u) {
      MarkedAtPush(held + [h], g, u);
      PopTwice(held, h, g.(checked := true), k);
      FitsPush(held, h, x, y);
      FitsPush(held + [h], g.(checked := true), y, y);
      assert marked[|held| + 1].checked && Protects(marked[|held| + 1].key, u);
    } else {
      MarkedBelowPush(held, h, g, u);
      PopTwice(held, h.(checked := true), g, k);
      FitsPush(held, h.(checked := true), x, y);
      FitsPush(held + [h.(checked := true)], g, y, y);
      assert marked[|held|].checked && Protects(marked[|held|].key, u);
    }
  }

  lemma {:induction false} AccountIsDisciplined(u: nat, id: Identity, body: Work, x: Context, held: seq<Hold>, k: Code)
    requires NestsTask(ProviderScope(u, Some(id), body), x) && Fits(held, x) && Disciplined(held, k)
    ensures Disciplined(held, Emit(ProviderScope(u, Some(id), body), k))
    decreases body, 1
  {
    var y := Context(if x.level < 4 then 4 else x.level, u, false);
    var marked := AccountHolds(held, u, id);
    var after := Do(Use(u), Do(Pop, Do(Pop, k)));
    AccountHoldsAreMarked(held, u, id, x, y, k);
    UseThen(marked, u, Do(Pop, Do(Pop, k)));
    WorkIsDisciplined(body, y, marked, after);
    UseThen(marked, u, EmitWork(body, after));
    EnterAccount(u, id, x, held, Do(Use(u), EmitWork(body, after)));
  }

  lemma EnterAccount(u: nat, id: Identity, x: Context, held: seq<Hold>, k: Code)
    requires Fits(held, x) && (x.level < 3 || (x.level >= 4 && u == x.user)) && id.user == u
    requires var two := held + [Hold(Session, Provider(Primary(u)), Shared, false)] + [Hold(Session, Provider(id), Shared, false)];
      HasTop(two, u) && Disciplined(MarkTop(two, u), k)
    ensures Disciplined(held, Do(Acquire(Session, Provider(Primary(u)), Shared), Do(Acquire(Session, Provider(id), Shared), Do(Check(u), k))))
  {
    var h, g := Hold(Session, Provider(Primary(u)), Shared, false), Hold(Session, Provider(id), Shared, false);
    assert (held + [h])[|held|] == h;
    assert Covered(held + [h], Session, Provider(Primary(u)), Shared);
    assert MayAcquire(held + [h], Session, Provider(id), Shared);
    CheckThen(held + [h] + [g], u, k);
    AcquireThen(held + [h], Session, Provider(id), Shared, Do(Check(u), k));
    ProviderKeyMayBeAcquired(u, x, held);
    AcquireThen(held, Session, Provider(Primary(u)), Shared, Do(Acquire(Session, Provider(id), Shared), Do(Check(u), k)));
  }

  lemma {:induction false} PhasesAreDisciplined(u: nat, c: nat, p: Phases, x: Context, held: seq<Hold>, k: Code)
    requires x.level == 4 && u == x.user && NestsPhases(p, x) && Fits(held, x) && Disciplined(held, k)
    ensures Disciplined(held, EmitPhases(u, c, p, k))
    decreases p
  {
    if p.Adopt? {
      PhasesAreDisciplined(u, c, p.next, x, held, k);
    }
    var after := if p.Last? then k else EmitPhases(u, c, p.next, k);
    var y := x.(level := 6, destructive := false);
    var h := Hold(Session, ClientDraft(u, c), Exclusive, false);
    match p.gmail
    case None =>
      PopPushed(held, h, after);
      FitsPush(held, h, x, y);
      WorkIsDisciplined(p.body, y, held + [h], Do(Pop, after));
    case Some(d) =>
      var g := Hold(Session, GmailDraft(u, d), Exclusive, false);
      PopTwice(held, g, h, after);
      FitsPush(held, g, x, x.(level := 5, destructive := false));
      FitsPush(held + [g], h, x.(level := 5, destructive := false), y);
      WorkIsDisciplined(p.body, y, held + [g] + [h], Do(Pop, Do(Pop, after)));
  }
}
