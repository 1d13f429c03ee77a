/** The durable job queue (backend/app/db/jobs.py): leases, retries and deduplication, each
    function as one step at the database's clock. */
module JobQueue {
  import opened Basics

  datatype Status = Queued | Running | Succeeded | Cancelled | Dead

  datatype Job = Job(
    kind: string,
    queue: string,
    account: Option<string>,
    dedupe: Option<string>,
    status: Status,
    priority: int,
    attempts: nat,
    maxAttempts: int,
    runAfter: int,
    createdAt: nat,
    owner: Option<string>,
    expires: Option<int>,
    completedAt: Option<nat>)

  type Jobs = map<string, Job>

  predicate Active(j: Job) {
    j.status.Queued? || j.status.Running?
  }

  // ---------------------------------------------------------------------------------
  // Enqueue

  /** A request for a job; `wake` lets it hurry an equal one that is queued. */
  datatype Request = Request(
    kind: string, queue: string, account: Option<string>, dedupe: Option<string>,
    priority: int, maxAttempts: int, delay: int, wake: bool)

  /** The active job the request duplicates. */
  predicate Duplicates(j: Job, r: Request) {
    Active(j) && j.account == r.account && j.kind == r.kind && r.dedupe.Some? && j.dedupe == r.dedupe
  }

  function NewJob(r: Request, now: nat): Job {
    Job(r.kind, r.queue, r.account, r.dedupe, Queued, r.priority, 0, r.maxAttempts, now + Max(0, r.delay), now, None, None, None)
  }

  function Hurried(j: Job, r: Request, now: nat): Job {
    if !j.status.Queued? then j
    else if r.wake then j.(runAfter := Min(j.runAfter, now + Max(0, r.delay)), priority := Max(j.priority, r.priority))
    else if r.priority > j.priority then j.(priority := r.priority)
    else j
  }

  /** `found` is the duplicate the lookup meets, `id` the identifier of a new job. An empty
      dedupe key is not looked up, but the unique index still sees it. */
  function Enqueue(jobs: Jobs, r: Request, id: string, found: Option<string>, now: nat): Jobs {
    if r.dedupe.Some? && r.dedupe.value != "" && found.Some? && found.value in jobs then
      jobs[found.value := Hurried(jobs[found.value], r, now)]
    else if exists k :: k in jobs && Duplicates(jobs[k], r) then jobs
    else jobs[id := NewJob(r, now)]
  }

  /** The lookup returns a duplicate if there is one. */
  predicate Finds(jobs: Jobs, r: Request, found: Option<string>) {
    match found
    case Some(k) => k in jobs && Duplicates(jobs[k], r)
    case None => forall k :: k in jobs ==> !Duplicates(jobs[k], r)
  }

  // ---------------------------------------------------------------------------------
  // Claim

  predicate Lapsed(j: Job, now: nat) {
    j.status.Running? && j.expires.Some? && j.expires.value < now
  }

  /** Due, or running on a lease that ran out; attempts play no part. */
  predicate Claimable(j: Job, queues: set<string>, now: nat) {
    j.queue in queues && ((j.status.Queued? && j.runAfter <= now) || Lapsed(j, now))
  }

  /** Strictly ahead in the claim order. */
  predicate Ahead(a: Job, b: Job) {
    || a.priority > b.priority
    || (a.priority == b.priority && (a.runAfter < b.runAfter || (a.runAfter == b.runAfter && a.createdAt < b.createdAt)))
  }

  predicate Picks(jobs: Jobs, queues: set<string>, now: nat, pick: Option<string>) {
    match pick
    case Some(k) => k in jobs && Claimable(jobs[k], queues, now) && forall i :: i in jobs && Claimable(jobs[i], queues, now) ==> !Ahead(jobs[i], jobs[k])
    case None => forall i :: i in jobs ==> !Claimable(jobs[i], queues, now)
  }

  function Claimed(j: Job, worker: string, lease: int, now: nat): Job {
    j.(status := Running, owner := Some(worker), expires := Some(now + lease), attempts := j.attempts + 1)
  }

  function Claim(jobs: Jobs, worker: string, pick: Option<string>, lease: int, now: nat): Jobs {
    if pick.Some? && pick.value in jobs then jobs[pick.value := Claimed(jobs[pick.value], worker, lease, now)] else jobs
  }

  // ---------------------------------------------------------------------------------
  // What the owner of a lease may do

  predicate Owns(jobs: Jobs, id: string, worker: string) {
    id in jobs && jobs[id].status.Running? && jobs[id].owner == Some(worker)
  }

  function Ended(j: Job, status: Status, now: nat): Job {
    j.(status := status, owner := None, expires := None, completedAt := Some(now))
  }

  function Renew(jobs: Jobs, id: string, worker: string, lease: int, now: nat): Jobs {
    if Owns(jobs, id, worker) then jobs[id := jobs[id].(expires := Some(now + lease))] else jobs
  }

  function Complete(jobs: Jobs, id: string, worker: string, now: nat): Jobs {
    if Owns(jobs, id, worker) then jobs[id := Ended(jobs[id], Succeeded, now)] else jobs
  }

  function CancelClaimed(jobs: Jobs, id: string, worker: string, now: nat): Jobs {
    if Owns(jobs, id, worker) then jobs[id := Ended(jobs[id], Cancelled, now)] else jobs
  }

  const BACKOFF: seq<int> := [0, 30, 120, 600, 3600]

  function Backoff(attempts: int): (d: int)
    ensures 0 <= d <= 3600
  {
    BACKOFF[Min(Max(attempts, 0), 4)]
  }

  function Delay(attempts: int, retry: Option<int>): int {
    if retry.Some? then Max(Backoff(attempts), Max(0, retry.value)) else Backoff(attempts)
  }

  /** The worker judges by the job as its claim returned it. */
  function Fail(jobs: Jobs, id: string, attempts: int, maxAttempts: int, worker: string, retry: Option<int>, now: nat): Jobs {
    if !Owns(jobs, id, worker) then jobs
    else if attempts >= maxAttempts then jobs[id := Ended(jobs[id], Dead, now)]
    else jobs[id := jobs[id].(status := Queued, runAfter := now + Delay(attempts, retry), owner := None, expires := None)]
  }

  // ---------------------------------------------------------------------------------
  // Administration

  /** Cancels a user's jobs, or settles revocations, by identifier. */
  function Settle(jobs: Jobs, ids: set<string>, status: Status, now: nat): Jobs {
    map k | k in jobs :: if k in ids && Active(jobs[k]) then Ended(jobs[k], status, now) else jobs[k]
  }

  predicate Expired(j: Job, succeededSeconds: int, deadSeconds: int, now: nat) {
    j.completedAt.Some? && (
      ((j.status.Succeeded? || j.status.Cancelled?) && j.completedAt.value < now - succeededSeconds)
      || (j.status.Dead? && j.completedAt.value < now - deadSeconds))
  }

  function Cleanup(jobs: Jobs, succeededSeconds: int, deadSeconds: int, now: nat): Jobs {
    map k | k in jobs && !Expired(jobs[k], succeededSeconds, deadSeconds, now) :: jobs[k]
  }

  // ---------------------------------------------------------------------------------
  // Runs

  /** What a worker holds: the job as its latest claim returned it. */
  datatype Hold = Hold(id: string, attempts: nat, maxAttempts: int)

  /** The queue, what each worker holds, the worker of each job's latest claim, and how often the
      job's lease ran out since it last left the queue. */
  datatype World = World(
    now: nat,
    jobs: Jobs,
    issued: set<string>,
    holds: map<string, Hold>,
    claimant: map<string, string>,
    lapses: map<string, nat>)

  datatype Op =
    | DoEnqueue(request: Request, id: string, found: Option<string>)
    | DoClaim(worker: string, queues: set<string>, pick: Option<string>, lease: int)
    | DoRenew(worker: string, id: string, lease: int)
    | DoComplete(worker: string, id: string)
    | DoCancel(worker: string, id: string)
    | DoFail(worker: string, retry: Option<int>)
    | DoSettle(ids: set<string>, outcome: Status)
    | DoCleanup(succeededSeconds: int, deadSeconds: int)

  predicate Legal(w: World, op: Op) {
    match op
    case DoEnqueue(r, id, found) => id !in w.issued && Finds(w.jobs, r, found)
    case DoClaim(_, queues, pick, _) => Picks(w.jobs, queues, w.now, pick)
    case DoSettle(_, outcome) => outcome.Succeeded? || outcome.Cancelled?
    case _ => true
  }

  function CountLapse(w: World, id: string): nat
    requires id in w.jobs
  {
    if w.jobs[id].status.Running? then (if id in w.lapses then w.lapses[id] else 0) + 1 else 0
  }

  function Perform(w: World, op: Op): World {
    match op
    case DoEnqueue(r, id, found) => w.(jobs := Enqueue(w.jobs, r, id, found, w.now), issued := w.issued + {id})
    case DoClaim(worker, _, pick, lease) =>
      if pick.None? || pick.value !in w.jobs then w
      else
        var j := w.jobs[pick.value];
        w.(jobs := Claim(w.jobs, worker, pick, lease, w.now),
           holds := w.holds[worker := Hold(pick.value, j.attempts + 1, j.maxAttempts)],
           claimant := w.claimant[pick.value := worker],
           lapses := w.lapses[pick.value := CountLapse(w, pick.value)])
    case DoRenew(worker, id, lease) => w.(jobs := Renew(w.jobs, id, worker, lease, w.now))
    case DoComplete(worker, id) => w.(jobs := Complete(w.jobs, id, worker, w.now))
    case DoCancel(worker, id) => w.(jobs := CancelClaimed(w.jobs, id, worker, w.now))
    case DoFail(worker, retry) =>
      if worker !in w.holds then w
      else
        var h := w.holds[worker];
        w.(jobs := Fail(w.jobs, h.id, h.attempts, h.maxAttempts, worker, retry, w.now))
    case DoSettle(ids, outcome) => w.(jobs := Settle(w.jobs, ids, outcome, w.now))
    case DoCleanup(a, b) => w.(jobs := Cleanup(w.jobs, a, b, w.now))
  }

  datatype Event = At(elapsed: nat, op: Op)

  function Later(w: World, elapsed: nat): World {
    w.(now := w.now + elapsed)
  }

  predicate LegalRun(w: World, run: seq<Event>)
    decreases |run|
  {
    run != [] ==> Legal(Later(w, run[0].elapsed), run[0].op) && LegalRun(Step(w, run[0]), run[1..])
  }

  function Step(w: World, e: Event): World {
    Perform(Later(w, e.elapsed), e.op)
  }

  function Exec(w: World, run: seq<Event>): World
    decreases |run|
  {
    if run == [] then w else Exec(Step(w, run[0]), run[1..])
  }

  const IDLE: World := World(0, map[], {}, map[], map[], map[])

  // ---------------------------------------------------------------------------------
  // The invariant

  /** A lease exists exactly while the job runs, and is the latest claimer's. */
  predicate Leased(w: World, id: string)
    requires id in w.jobs
  {
    var j := w.jobs[id];
    && (j.status.Running? <==> j.owner.Some?) && (j.owner.Some? <==> j.expires.Some?)
    && (j.owner.Some? ==> id in w.claimant && w.claimant[id] == j.owner.value)
    && (Active(j) <==> j.completedAt.None?)
  }

  predicate Unrivalled(jobs: Jobs) {
    forall a, b :: a in jobs && b in jobs && a != b && Active(jobs[a]) && Active(jobs[b]) && jobs[a].dedupe.Some? ==>
      !(jobs[a].account == jobs[b].account && jobs[a].kind == jobs[b].kind && jobs[a].dedupe == jobs[b].dedupe)
  }

  function Lapses(w: World, id: string): nat {
    if id in w.lapses then w.lapses[id] else 0
  }

  /** Attempts stay within the limit but for leases that ran out. */
  predicate Bounded(w: World, id: string)
    requires id in w.jobs
  {
    var j := w.jobs[id];
    && (j.status.Queued? ==> j.attempts < Max(1, j.maxAttempts))
    && (j.status.Running? ==> j.attempts <= Max(1, j.maxAttempts) + Lapses(w, id))
  }

  /** A worker that still owns the job it holds knows its attempt count. */
  predicate Current(w: World, worker: string)
    requires worker in w.holds
  {
    var h := w.holds[worker];
    Owns(w.jobs, h.id, worker) ==> w.jobs[h.id].attempts == h.attempts && w.jobs[h.id].maxAttempts == h.maxAttempts
  }

  predicate Inv(w: World) {
    && w.jobs.Keys <= w.issued
    && (forall id :: id in w.jobs ==> Leased(w, id) && Bounded(w, id))
    && Unrivalled(w.jobs)
    && (forall worker :: worker in w.holds ==> Current(w, worker))
  }

  lemma EnqueueLeases(w: World, op: Op)
    requires Inv(w) && op.DoEnqueue? && Legal(w, op)
    ensures var n := Perform(w, op); forall id :: id in n.jobs ==> Leased(n, id) && Bounded(n, id)
  {
    var n := Perform(w, op);
    forall id | id in n.jobs ensures Leased(n, id) && Bounded(n, id) {
      assert id in w.jobs ==> Leased(w, id) && Bounded(w, id);
    }
  }

  lemma EnqueueKeeps(w: World, op: Op)
    requires Inv(w) && op.DoEnqueue? && Legal(w, op)
    ensures Inv(Perform(w, op))
  {
    var n := Perform(w, op);
    EnqueueLeases(w, op);
    forall worker | worker in n.holds ensures Current(n, worker) {
      assert Current(w, worker);
    }
  }

  lemma ClaimKeeps(w: World, op: Op)
    requires Inv(w) && op.DoClaim? && Legal(w, op)
    ensures Inv(Perform(w, op))
  {
    var n := Perform(w, op);
    forall id | id in n.jobs ensures Leased(n, id) && Bounded(n, id) {
      assert Leased(w, id) && Bounded(w, id);
    }
    forall worker | worker in n.holds ensures Current(n, worker) {
      assert worker in w.holds ==> Current(w, worker);
    }
  }

  /** Steps that leave or end leases and start none. */
  lemma EndingKeeps(w: World, n: World)
    requires Inv(w) && n == w.(now := n.now, jobs := n.jobs) && n.jobs.Keys <= w.jobs.Keys
    requires forall id :: id in n.jobs ==> n.jobs[id] == w.jobs[id] || Releases(w.jobs[id], n.jobs[id])
    ensures Inv(n)
  {
    forall id | id in n.jobs ensures Leased(n, id) && Bounded(n, id) {
      assert Leased(w, id) && Bounded(w, id);
    }
    forall worker | worker in n.holds ensures Current(n, worker) {
      assert Current(w, worker);
    }
  }

  predicate Releases(a: Job, b: Job) {
    && Active(a) && b == a.(status := b.status, owner := b.owner, expires := b.expires, completedAt := b.completedAt, runAfter := b.runAfter)
    && (b.status.Running? ==> a.status.Running? && b.owner == a.owner && b.expires.Some? && b.completedAt.None?)
    && (!b.status.Running? ==> b.owner.None? && b.expires.None? && (b.status.Queued? <==> b.completedAt.None?))
    && (b.status.Queued? ==> b.attempts < Max(1, b.maxAttempts))
  }

  lemma FailKeeps(w: World, op: Op)
    requires Inv(w) && op.DoFail?
    ensures Inv(Perform(w, op))
  {
    if op.worker in w.holds {
      assert Current(w, op.worker);
      var h := w.holds[op.worker];
      if Owns(w.jobs, h.id, op.worker) {
        assert Leased(w, h.id) && Bounded(w, h.id);
      }
    }
    EndingKeeps(w, Perform(w, op));
  }

  lemma StepKeeps(w: World, op: Op)
    requires Inv(w) && Legal(w, op)
    ensures Inv(Perform(w, op))
  {
    forall id | id in w.jobs ensures Leased(w, id) {
    }
    match op
    case DoEnqueue(_, _, _) => EnqueueKeeps(w, op);
    case DoClaim(_, _, _, _) => ClaimKeeps(w, op);
    case DoFail(_, _) => FailKeeps(w, op);
    case _ => EndingKeeps(w, Perform(w, op));
  }

  lemma LaterKeeps(w: World, elapsed: nat)
    requires Inv(w)
    ensures Inv(Later(w, elapsed))
  {
    EndingKeeps(w, Later(w, elapsed));
  }

  lemma {:induction false} RunKeeps(w: World, run: seq<Event>)
    requires Inv(w) && LegalRun(w, run)
    ensures Inv(Exec(w, run))
    decreases |run|
  {
    if run != [] {
      LaterKeeps(w, run[0].elapsed);
      StepKeeps(Later(w, run[0].elapsed), run[0].op);
      RunKeeps(Step(w, run[0]), run[1..]);
    }
  }

  // ---------------------------------------------------------------------------------
  // What follows in every run

  /** In every reachable queue: a job has a lease exactly while it runs, at most one job is active
      per account, kind and dedupe key, and attempts never exceed the limit by more than the
      leases that ran out since the job last left the queue. */
  lemma ReachableQueues(run: seq<Event>)
    requires LegalRun(IDLE, run)
    ensures var w := Exec(IDLE, run);
      && Unrivalled(w.jobs)
      && forall id :: id in w.jobs ==>
        && (w.jobs[id].status.Running? <==> w.jobs[id].owner.Some?)
        && (Active(w.jobs[id]) ==> w.jobs[id].attempts <= Max(1, w.jobs[id].maxAttempts) + Lapses(w, id))
  {
    RunKeeps(IDLE, run);
    var w := Exec(IDLE, run);
    forall id | id in w.jobs ensures
      && (w.jobs[id].status.Running? <==> w.jobs[id].owner.Some?)
      && (Active(w.jobs[id]) ==> w.jobs[id].attempts <= Max(1, w.jobs[id].maxAttempts) + Lapses(w, id))
    {
      assert Leased(w, id) && Bounded(w, id);
    }
  }

  /** A worker's own operations touch a job exactly when it runs and the worker's claim of it was
      the latest one. */
  lemma OnlyLatestClaimerActs(w: World, op: Op, id: string)
    requires Inv(w) && id in w.jobs
    requires (op.DoComplete? && op.id == id) || (op.DoCancel? && op.id == id) || (op.DoFail? && op.worker in w.holds && w.holds[op.worker].id == id)
    ensures Perform(w, op).jobs != w.jobs <==> w.jobs[id].status.Running? && id in w.claimant && w.claimant[id] == op.worker
    ensures Perform(w, op).jobs != w.jobs ==> id in Perform(w, op).jobs && !Perform(w, op).jobs[id].status.Running?
  {
    assert Leased(w, id);
  }

  predicate Final(w: World, id: string, j: Job) {
    id in w.issued && (id in w.jobs ==> w.jobs[id] == j)
  }

  /** A finished job stays as it is until it is deleted, and its identifier never comes back. */
  lemma {:induction false} FinishedJobsStayFinished(w: World, run: seq<Event>, id: string, j: Job)
    requires Inv(w) && LegalRun(w, run) && !Active(j) && Final(w, id, j)
    ensures Final(Exec(w, run), id, j)
    decreases |run|
  {
    if run != [] {
      var l := Later(w, run[0].elapsed);
      LaterKeeps(w, run[0].elapsed);
      StepKeeps(l, run[0].op);
      FinalStep(l, run[0].op, id, j);
      FinishedJobsStayFinished(Step(w, run[0]), run[1..], id, j);
    }
  }

  lemma FinalStep(w: World, op: Op, id: string, j: Job)
    requires Inv(w) && Legal(w, op) && !Active(j) && Final(w, id, j)
    ensures Final(Perform(w, op), id, j)
  {
  }

  /** Enqueueing answers with an active job of the request's account, kind and key, unless the
      key is the empty string and taken: then the insert is refused. */
  lemma EnqueueAnswers(w: World, r: Request, id: string, found: Option<string>)
    requires Inv(w) && Legal(w, DoEnqueue(r, id, found))
    ensures var n := Enqueue(w.jobs, r, id, found, w.now);
      var answer := if found.Some? then found.value else id;
      && (answer in n && Active(n[answer]) && n[answer].kind == r.kind && n[answer].account == r.account && n[answer].dedupe == r.dedupe)
      && (found.None? <==> id in n)
      && (found.Some? && r.dedupe == Some("") ==> n == w.jobs)
  {
  }

  /** A retried job is claimed no earlier than its delay after the failure, whatever else
      happens, unless a duplicate request wakes it. */
  lemma {:induction false} RetryWaits(w: World, run: seq<Event>, id: string, due: int)
    requires Inv(w) && LegalRun(w, run) && id in w.issued && NotBefore(w, id, due) && Exec(w, run).now < due
    requires forall i :: 0 <= i < |run| && run[i].op.DoEnqueue? ==> run[i].op.found != Some(id)
    ensures NotBefore(Exec(w, run), id, due)
    decreases |run|
  {
    if run != [] {
      var l := Later(w, run[0].elapsed);
      LaterKeeps(w, run[0].elapsed);
      StepKeeps(l, run[0].op);
      ClockRises(Step(w, run[0]), run[1..]);
      WaitStep(l, run[0].op, id, due);
      RetryWaits(Step(w, run[0]), run[1..], id, due);
    }
  }

  /** The job is gone, finished, or waits in the queue until then. */
  predicate NotBefore(w: World, id: string, due: int) {
    id in w.jobs ==> !Active(w.jobs[id]) || (w.jobs[id].status.Queued? && w.jobs[id].runAfter >= due)
  }

  /** A failure that is not final puts the job back for at least its backoff, which grows with the
      attempts, and for at least what the worker asked. */
  lemma RetriesBackOff(w: World, id: string, attempts: nat, fewer: nat, worker: string, retry: Option<int>)
    requires Inv(w) && Owns(w.jobs, id, worker) && attempts < w.jobs[id].maxAttempts && fewer <= attempts
    ensures var n := w.(jobs := Fail(w.jobs, id, attempts, w.jobs[id].maxAttempts, worker, retry, w.now));
      && NotBefore(n, id, w.now + Backoff(attempts)) && (retry.Some? ==> NotBefore(n, id, w.now + retry.value))
      && n.jobs[id].status.Queued? && n.jobs[id].attempts == w.jobs[id].attempts
    ensures Backoff(fewer) <= Backoff(attempts)
  {
  }

  lemma WaitStep(w: World, op: Op, id: string, due: int)
    requires Inv(w) && Legal(w, op) && id in w.issued && NotBefore(w, id, due) && w.now < due
    requires op.DoEnqueue? ==> op.found != Some(id)
    ensures NotBefore(Perform(w, op), id, due)
  {
    assert id in w.jobs ==> Leased(w, id);
  }

  lemma {:induction false} ClockRises(w: World, run: seq<Event>)
    ensures Exec(w, run).now >= w.now
    decreases |run|
  {
    if run != [] {
      ClockRises(Step(w, run[0]), run[1..]);
    }
  }

  // ---------------------------------------------------------------------------------
  // Administration

  /** Settling ends exactly the named jobs that are active. */
  lemma SettledAreDone(w: World, ids: set<string>, outcome: Status)
    requires Inv(w) && Legal(w, DoSettle(ids, outcome))
    ensures var n := Settle(w.jobs, ids, outcome, w.now);
      && n.Keys == w.jobs.Keys
      && (forall k :: k in n && k in ids ==> !Active(n[k]))
      && (forall k :: k in n && n[k] != w.jobs[k] ==> k in ids && Active(w.jobs[k]) && n[k].status == outcome && n[k].completedAt == Some(w.now))
  {
  }

  /** Cleanup deletes exactly the jobs that finished longer ago than their retention, which
      differs for dead ones, and changes no other. */
  lemma CleanupKeepsRecent(w: World, succeededSeconds: int, deadSeconds: int)
    requires Inv(w)
    ensures var n := Cleanup(w.jobs, succeededSeconds, deadSeconds, w.now);
      && (forall k :: k in n ==> k in w.jobs && n[k] == w.jobs[k])
      && (forall k :: k in w.jobs ==> (k !in n <==>
            && !Active(w.jobs[k])
            && w.now - w.jobs[k].completedAt.value > if w.jobs[k].status.Dead? then deadSeconds else succeededSeconds))
  {
    forall k | k in w.jobs ensures Leased(w, k) {
    }
  }

  // ---------------------------------------------------------------------------------
  // Draining

  /** Jobs a claim may return. */
  function Due(jobs: Jobs, queues: set<string>, now: nat): set<string> {
    set k | k in jobs && Claimable(jobs[k], queues, now)
  }

  /** Claims at one moment, one after the other, until none is claimable. */
  predicate Drains(jobs: Jobs, worker: string, queues: set<string>, picks: seq<string>, lease: nat, now: nat)
    decreases |picks|
  {
    if picks == [] then Picks(jobs, queues, now, None)
    else Picks(jobs, queues, now, Some(picks[0])) && Drains(Claim(jobs, worker, Some(picks[0]), lease, now), worker, queues, picks[1..], lease, now)
  }

  predicate Precedes(jobs: Jobs, a: string, b: string) {
    a in jobs && b in jobs && Ahead(jobs[a], jobs[b])
  }

  lemma ClaimTakesOne(jobs: Jobs, worker: string, queues: set<string>, pick: string, lease: nat, now: nat)
    requires Picks(jobs, queues, now, Some(pick))
    ensures var n := Claim(jobs, worker, Some(pick), lease, now);
      && pick in Due(jobs, queues, now) && Due(n, queues, now) == Due(jobs, queues, now) - {pick}
      && n.Keys == jobs.Keys && forall k :: k in jobs && k != pick ==> n[k] == jobs[k]
  {
  }

  /** Draining takes every claimable job, lapsed ones included, exactly once, and none before one
      that is ahead of it. */
  lemma {:induction false} DrainingTakesAll(jobs: Jobs, worker: string, queues: set<string>, picks: seq<string>, lease: nat, now: nat)
    requires Drains(jobs, worker, queues, picks, lease, now)
    ensures Distinct(picks) && forall k :: k in picks <==> k in Due(jobs, queues, now)
    ensures forall i, j :: 0 <= i < j < |picks| ==> !Precedes(jobs, picks[j], picks[i])
    decreases |picks|
  {
    if picks != [] {
      var n, rest := Claim(jobs, worker, Some(picks[0]), lease, now), picks[1..];
      ClaimTakesOne(jobs, worker, queues, picks[0], lease, now);
      DrainingTakesAll(n, worker, queues, rest, lease, now);
      assert picks == [picks[0]] + rest;
      forall i, j | 0 <= i < j < |picks| ensures picks[i] != picks[j] && !Precedes(jobs, picks[j], picks[i]) {
        assert picks[j] == rest[j - 1] && picks[j] in Due(n, queues, now);
        if i > 0 {
          assert picks[i] == rest[i - 1] && picks[i] in Due(n, queues, now);
        }
      }
    }
  }

  // ---------------------------------------------------------------------------------
  // Stale snapshots

  /** A failure judged by attempts as the worker remembers them requeues a job beyond its limit
      exactly when the worker remembers fewer than the job has: the bound needs one live claim
      per worker. */
  lemma StaleSnapshotEscapesLimit(jobs: Jobs, id: string, attempts: nat, worker: string, retry: Option<int>, now: nat)
    requires Owns(jobs, id, worker)
    ensures var n := Fail(jobs, id, attempts, jobs[id].maxAttempts, worker, retry, now);
      n[id].status.Queued? && n[id].attempts >= Max(1, n[id].maxAttempts)
      <==> attempts < jobs[id].maxAttempts <= jobs[id].attempts
  {
  }

  /** Such a call: one worker claims a job twice, the first lease having run out, and then reports
      the failure of its first try; the job is claimed a third time although its limit is two. The
      worker loop works on one claim at a time and passes what that claim returned, so it does not
      make this call itself. */
  lemma StaleSnapshotExample() returns (start: Jobs, end: Jobs)
    ensures start == map["1" := NewJob(Request("sync", "default", None, None, 0, 2, 0, true), 0)]
    ensures var twice := Claim(Claim(start, "w", Some("1"), 10, 0), "w", Some("1"), 10, 11);
      && Lapsed(Claim(start, "w", Some("1"), 10, 0)["1"], 11)
      && end == Claim(Fail(twice, "1", 1, 2, "w", None, 12), "w", Some("1"), 10, 42)
      && Fail(twice, "1", 1, 2, "w", None, 12)["1"].status.Queued?
    ensures end["1"].attempts == 3 && end["1"].maxAttempts == 2
  {
    start := map["1" := NewJob(Request("sync", "default", None, None, 0, 2, 0, true), 0)];
    end := Claim(Fail(Claim(Claim(start, "w", Some("1"), 10, 0), "w", Some("1"), 10, 11), "1", 1, 2, "w", None, 12), "w", Some("1"), 10, 42);
  }

  // ---------------------------------------------------------------------------------
  // The table

  /** What an enqueue returns; an empty key that is taken is an error. */
  function Answer(r: Request, id: string, found: Option<string>): Option<string> {
    if found.None? then Some(id) else if r.dedupe == Some("") then None else found
  }

  /** An active job with the account, kind and key of the request. */
  predicate Rivals(j: Job, r: Request) {
    (j.status.Queued? || j.status.Running?) && r.dedupe.Some? && j.dedupe == r.dedupe && j.account == r.account && j.kind == r.kind
  }

  /** What a duplicate request does to the job it meets: a running one stays, a queued one has the
      higher priority, and if it is woken the earlier of the two times. */
  predicate Hastened(was: Job, now: Job, r: Request, time: nat) {
    && now == was.(runAfter := now.runAfter, priority := now.priority)
    && (was.status.Running? ==> now == was)
    && (was.status.Queued? ==>
          && now.priority >= was.priority && now.priority >= r.priority && now.priority in {was.priority, r.priority}
          && (!r.wake ==> now.runAfter == was.runAfter)
          && (r.wake ==>
                && now.runAfter <= was.runAfter && now.runAfter <= time + Max(0, r.delay)
                && now.runAfter in {was.runAfter, time + Max(0, r.delay)}))
  }

  /** A job as it is first queued. */
  predicate Fresh(j: Job, r: Request, time: nat) {
    && j.status.Queued? && j.attempts == 0 && j.owner.None? && j.expires.None? && j.completedAt.None?
    && j.kind == r.kind && j.queue == r.queue && j.account == r.account && j.dedupe == r.dedupe
    && j.priority == r.priority && j.maxAttempts == r.maxAttempts
    && j.runAfter == time + Max(0, r.delay) && j.createdAt == time
  }

  /** The job waits to be run: its time has come, or its lease is over. */
  predicate Waits(j: Job, queues: set<string>, time: nat) {
    && j.queue in queues
    && (j.status.Queued? ==> j.runAfter <= time)
    && (j.status.Running? ==> j.expires.Some? && j.expires.value < time)
    && (j.status.Queued? || j.status.Running?)
  }

  function Or(x: Option<int>, default: int): int {
    if x.Some? then x.value else default
  }

  /** At most this job is new or changed. */
  predicate OnlyTouches(was: Jobs, now: Jobs, id: string) {
    was.Keys <= now.Keys <= was.Keys + {id} && forall k :: k in was && k != id ==> now[k] == was[k]
  }

  /** Nobody can claim the job before this time. */
  ghost predicate Unclaimable(j: Job, before: int) {
    forall queues, now: nat :: now < before ==> !Claimable(j, queues, now)
  }

  /** The job is over: nobody owns it, and nobody will. */
  ghost predicate Over(jobs: Jobs, id: string) {
    && id in jobs && !Active(jobs[id])
    && (forall worker :: !Owns(jobs, id, worker)) && forall before :: Unclaimable(jobs[id], before)
  }

  class JobTable {
    var jobs: Jobs

    constructor ()
      ensures jobs == map[]
    {
      jobs := map[];
    }

    /** Answers with the identifier of the new or existing job, or with none when the insert is
        refused. */
    method EnqueueJob(r: Request, id: string, now: nat) returns (answer: Option<string>)
      requires id !in jobs
      modifies this
      ensures exists found :: Finds(old(jobs), r, found) && jobs == Enqueue(old(jobs), r, id, found, now) && answer == Answer(r, id, found)
      ensures answer.Some? ==>
        && answer.value in jobs && OnlyTouches(old(jobs), jobs, answer.value)
        && Active(jobs[answer.value]) && jobs[answer.value].kind == r.kind
        && jobs[answer.value].account == r.account && jobs[answer.value].dedupe == r.dedupe
      ensures answer.None? ==> jobs == old(jobs) && r.dedupe == Some("") && !Finds(jobs, r, None)
      ensures answer == Some(id) <==> forall k :: k in old(jobs) ==> !Rivals(old(jobs)[k], r)
      ensures answer == Some(id) ==> Fresh(jobs[id], r, now)
      ensures answer.Some? && answer != Some(id) ==>
        answer.value in old(jobs) && Rivals(old(jobs)[answer.value], r) && Hastened(old(jobs)[answer.value], jobs[answer.value], r, now)
      ensures Unrivalled(old(jobs)) ==> Unrivalled(jobs)
    {
      var rivals := set k | k in jobs && Duplicates(jobs[k], r);
      if r.dedupe.Some? && r.dedupe.value != "" && rivals != {} {
        var k :| k in rivals;
        if jobs[k].status.Queued? {
          if r.wake {
            jobs := jobs[k := jobs[k].(runAfter := Min(jobs[k].runAfter, now + Max(0, r.delay)), priority := Max(jobs[k].priority, r.priority))];
          } else if r.priority > jobs[k].priority {
            jobs := jobs[k := jobs[k].(priority := r.priority)];
          }
        }
        assert Finds(old(jobs), r, Some(k));
        assert jobs == Enqueue(old(jobs), r, id, Some(k), now);
        return Some(k);
      }
      if rivals != {} {
        var k :| k in rivals;
        assert Finds(old(jobs), r, Some(k));
        assert jobs == Enqueue(old(jobs), r, id, Some(k), now);
        return None;
      }
      jobs := jobs[id := NewJob(r, now)];
      assert forall k :: k in old(jobs) && Duplicates(old(jobs)[k], r) ==> k in rivals;
      assert Finds(old(jobs), r, None);
      assert jobs == Enqueue(old(jobs), r, id, None, now);
      answer := Some(id);
    }

    /** Scans for a claimable job that none is ahead of. */
    method ClaimJob(worker: string, queues: set<string>, lease: int, now: nat) returns (claimed: Option<string>)
      modifies this
      ensures Picks(old(jobs), queues, now, claimed) && jobs == Claim(old(jobs), worker, claimed, lease, now)
      ensures claimed.None? <==> forall k :: k in old(jobs) ==> !Waits(old(jobs)[k], queues, now)
      ensures claimed.Some? ==> claimed.value in old(jobs) && Waits(old(jobs)[claimed.value], queues, now)
      ensures claimed.Some? ==> forall k :: k in old(jobs) && Waits(old(jobs)[k], queues, now) ==>
        var a, b := old(jobs)[claimed.value], old(jobs)[k];
        && a.priority >= b.priority
        && (a.priority == b.priority ==> a.runAfter <= b.runAfter)
        && (a.priority == b.priority && a.runAfter == b.runAfter ==> a.createdAt <= b.createdAt)
      ensures claimed.Some? ==> OnlyTouches(old(jobs), jobs, claimed.value)
      ensures claimed.Some? ==> jobs[claimed.value] == old(jobs)[claimed.value].(
        status := Running, owner := Some(worker), expires := Some(now + lease), attempts := old(jobs)[claimed.value].attempts + 1)
      ensures claimed.None? ==> jobs == old(jobs)
    {
      claimed := None;
      var rest := jobs.Keys;
      while rest != {}
        invariant rest <= jobs.Keys && jobs == old(jobs)
        invariant claimed.Some? ==> claimed.value in jobs && Claimable(jobs[claimed.value], queues, now)
        invariant forall i :: i in jobs && i !in rest && Claimable(jobs[i], queues, now) ==>
          claimed.Some? && !Ahead(jobs[i], jobs[claimed.value])
        decreases rest
      {
        var i :| i in rest;
        rest := rest - {i};
        if Claimable(jobs[i], queues, now) && (claimed.None? || Ahead(jobs[i], jobs[claimed.value])) {
          claimed := Some(i);
        }
      }
      if claimed.Some? {
        var j := jobs[claimed.value];
        jobs := jobs[claimed.value := j.(status := Running, owner := Some(worker), expires := Some(now + lease), attempts := j.attempts + 1)];
      }
    }

    method RenewLease(id: string, worker: string, lease: int, now: nat)
      modifies this
      ensures jobs == Renew(old(jobs), id, worker, lease, now) && OnlyTouches(old(jobs), jobs, id)
      ensures forall k, w :: Owns(jobs, k, w) <==> Owns(old(jobs), k, w)
      ensures if Owns(old(jobs), id, worker) then Unclaimable(jobs[id], now + lease + 1) else jobs == old(jobs)
      ensures Owns(old(jobs), id, worker) ==> jobs[id] == old(jobs)[id].(expires := Some(now + lease))
    {
      if Owns(jobs, id, worker) {
        jobs := jobs[id := jobs[id].(expires := Some(now + lease))];
      }
    }

    method CompleteJob(id: string, worker: string, now: nat) returns (done: bool)
      modifies this
      ensures jobs == Complete(old(jobs), id, worker, now) && done == Owns(old(jobs), id, worker)
      ensures OnlyTouches(old(jobs), jobs, id) && (!done ==> jobs == old(jobs))
      ensures done ==> Over(jobs, id) && jobs[id] == old(jobs)[id].(status := Succeeded, owner := None, expires := None, completedAt := Some(now))
    {
      done := Owns(jobs, id, worker);
      if done {
        jobs := jobs[id := jobs[id].(status := Succeeded, completedAt := Some(now), owner := None, expires := None)];
      }
    }

    /** `job` is what the claim returned. */
    method FailJob(id: string, job: Job, worker: string, retry: Option<int>, now: nat) returns (done: bool)
      modifies this
      ensures jobs == Fail(old(jobs), id, job.attempts, job.maxAttempts, worker, retry, now) && done == Owns(old(jobs), id, worker)
      ensures OnlyTouches(old(jobs), jobs, id) && (!done ==> jobs == old(jobs))
      ensures done ==> jobs[id].attempts == old(jobs)[id].attempts && forall w :: !Owns(jobs, id, w)
      ensures done && job.attempts >= job.maxAttempts ==>
        Over(jobs, id) && jobs[id] == old(jobs)[id].(status := Dead, owner := None, expires := None, completedAt := Some(now))
      ensures done && job.attempts < job.maxAttempts ==>
        && jobs[id].status.Queued? && Unclaimable(jobs[id], now + Backoff(job.attempts))
        && (retry.Some? ==> Unclaimable(jobs[id], now + retry.value))
        && jobs[id].runAfter in {now + Backoff(job.attempts), now + Or(retry, 0)}
        && jobs[id] == old(jobs)[id].(status := Queued, owner := None, expires := None, runAfter := jobs[id].runAfter)
    {
      var final := job.attempts >= job.maxAttempts;
      var delay := Backoff(job.attempts);
      if retry.Some? {
        delay := Max(delay, Max(0, retry.value));
      }
      done := Owns(jobs, id, worker);
      if done && final {
        jobs := jobs[id := jobs[id].(status := Dead, completedAt := Some(now), owner := None, expires := None)];
      } else if done {
        jobs := jobs[id := jobs[id].(status := Queued, runAfter := now + delay, owner := None, expires := None)];
      }
    }

    method CancelClaimedJob(id: string, worker: string, now: nat) returns (done: bool)
      modifies this
      ensures jobs == CancelClaimed(old(jobs), id, worker, now) && done == Owns(old(jobs), id, worker)
      ensures OnlyTouches(old(jobs), jobs, id) && (!done ==> jobs == old(jobs))
      ensures done ==> Over(jobs, id) && jobs[id] == old(jobs)[id].(status := Cancelled, owner := None, expires := None, completedAt := Some(now))
    {
      done := Owns(jobs, id, worker);
      if done {
        jobs := jobs[id := jobs[id].(status := Cancelled, completedAt := Some(now), owner := None, expires := None)];
      }
    }
  }
}
