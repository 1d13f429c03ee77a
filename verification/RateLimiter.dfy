/** The per-process sliding-window limiter (backend/app/core/rate_limit.py): deques that are
    trimmed and swept in place decide like a count over the whole history. */
module RateLimiter {
  import opened Basics

  datatype Rule = Rule(maximum: nat, window: nat)

  datatype Key = Key(rule: string, identity: string)

  datatype Request = Request(key: Key, time: real)

  datatype Decision = Allowed | Denied(retryAfter: int)

  datatype Limiter = Limiter(events: map<Key, seq<real>>, lastCleanup: real)

  const START: Limiter := Limiter(map[], 0.0)

  type Rules = map<string, Rule>

  /** The table of the API's rules. */
  const RULES: Rules := map[
    "oauth" := Rule(20, 60),
    "mobile-exchange" := Rule(20, 60),
    "mobile-handoff" := Rule(180, 60),
    "gmail-pubsub-verification" := Rule(60, 60),
    "mailbox-sync" := Rule(12, 60),
    "mailbox-write" := Rule(90, 60),
    "attachment-download" := Rule(120, 60),
    "mailbox-search" := Rule(120, 60),
    "mailbox-sse" := Rule(12, 60)]

  /** Every rule admits something and looks back some time. */
  predicate Usable(rules: Rules) {
    forall name :: name in rules ==> rules[name].maximum >= 1 && rules[name].window >= 1
  }

  predicate CommonWindow(rules: Rules) {
    forall a, b :: a in rules && b in rules ==> rules[a].window == rules[b].window
  }

  // ---------------------------------------------------------------------------------
  // One request

  function Deque(s: Limiter, key: Key): seq<real> {
    if key in s.events then s.events[key] else []
  }

  function Expire(q: seq<real>, cutoff: real): seq<real> {
    if q != [] && q[0] <= cutoff then Expire(q[1..], cutoff) else q
  }

  predicate Stale(q: seq<real>, cutoff: real) {
    q == [] || q[|q| - 1] <= cutoff
  }

  function Swept(events: map<Key, seq<real>>, cutoff: real): map<Key, seq<real>> {
    map k | k in events && !Stale(events[k], cutoff) :: events[k]
  }

  /** Whole seconds until the oldest counted event leaves the window. */
  function RetryAfter(window: nat, now: real, oldest: real): int {
    Max(1, (window as real - (now - oldest)).Floor + 1)
  }

  function Consume(s: Limiter, rule: Rule, r: Request): (Limiter, Decision)
    requires rule.maximum >= 1
  {
    var cutoff := r.time - rule.window as real;
    var q := Expire(Deque(s, r.key), cutoff);
    if |q| >= rule.maximum then (s.(events := s.events[r.key := q]), Denied(RetryAfter(rule.window, r.time, q[0])))
    else
      var events := s.events[r.key := q + [r.time]];
      if r.time - s.lastCleanup > 300.0 then (Limiter(Swept(events, cutoff), r.time), Allowed)
      else (s.(events := events), Allowed)
  }

  // ---------------------------------------------------------------------------------
  // Histories

  predicate Known(rules: Rules, h: seq<Request>) {
    Usable(rules) && forall i :: 0 <= i < |h| ==> h[i].key.rule in rules
  }

  predicate Timely(h: seq<Request>) {
    forall i, j :: 0 <= i < j < |h| ==> h[i].time <= h[j].time
  }

  function State(rules: Rules, h: seq<Request>): Limiter
    requires Known(rules, h)
  {
    if h == [] then START
    else
      var r := h[|h| - 1];
      Consume(State(rules, h[..|h| - 1]), rules[r.key.rule], r).0
  }

  /** The limiter's decision on the last request. */
  function Decide(rules: Rules, h: seq<Request>): Decision
    requires Known(rules, h) && h != []
  {
    var r := h[|h| - 1];
    Consume(State(rules, h[..|h| - 1]), rules[r.key.rule], r).1
  }

  /** The requests that were let through. */
  function Admitted(rules: Rules, h: seq<Request>): seq<Request>
    requires Known(rules, h)
  {
    if h == [] then []
    else Logged(Admitted(rules, h[..|h| - 1]), h[|h| - 1], Decide(rules, h))
  }

  function Logged(log: seq<Request>, r: Request, d: Decision): seq<Request> {
    if d.Allowed? then log + [r] else log
  }

  /** Times at which a caller was let through. */
  function Times(log: seq<Request>, key: Key): seq<real> {
    if log == [] then []
    else
      var last := log[|log| - 1];
      Times(log[..|log| - 1], key) + (if last.key == key then [last.time] else [])
  }

  /** How many of the times fall into the window that ends now. */
  function CountIn(ts: seq<real>, window: nat, now: real): nat {
    if ts == [] then 0
    else
      CountIn(ts[..|ts| - 1], window, now)
        + (if now - window as real < ts[|ts| - 1] <= now then 1 else 0)
  }

  /** What the limiter is for: a request passes exactly when fewer than the maximum passed in the
      window before it. */
  predicate DecidesByCount(rules: Rules, h: seq<Request>)
    requires Known(rules, h) && h != []
  {
    var r := h[|h| - 1];
    var rule := rules[r.key.rule];
    Decide(rules, h).Allowed? <==> CountIn(Times(Admitted(rules, h[..|h| - 1]), r.key), rule.window, r.time) < rule.maximum
  }

  // ---------------------------------------------------------------------------------
  // Refinement

  /** The deque is what is left of the admissions once some that left the window are dropped. */
  predicate Tracks(q: seq<real>, ts: seq<real>, rule: Rule, now: real) {
    && |q| <= |ts| && q == ts[|ts| - |q|..] && |q| <= rule.maximum
    && (forall i :: 0 <= i < |ts| - |q| ==> ts[i] <= now - rule.window as real)
    && (forall i, j :: 0 <= i < j < |ts| ==> ts[i] <= ts[j])
    && (forall i :: 0 <= i < |ts| ==> ts[i] <= now)
  }

  ghost predicate Represents(rules: Rules, s: Limiter, log: seq<Request>, now: real) {
    forall key: Key :: key.rule in rules ==> Tracks(Deque(s, key), Times(log, key), rules[key.rule], now)
  }

  lemma {:induction false} CountOld(ts: seq<real>, window: nat, now: real)
    requires forall i :: 0 <= i < |ts| ==> ts[i] <= now - window as real
    ensures CountIn(ts, window, now) == 0
  {
    if ts != [] {
      CountOld(ts[..|ts| - 1], window, now);
    }
  }

  lemma {:induction false} CountSplit(a: seq<real>, b: seq<real>, window: nat, now: real)
    ensures CountIn(a + b, window, now) == CountIn(a, window, now) + CountIn(b, window, now)
  {
    if b == [] {
      assert a + b == a;
    } else {
      CountSplit(a, b[..|b| - 1], window, now);
      assert (a + b)[..|a + b| - 1] == a + b[..|b| - 1];
    }
  }

  lemma {:induction false} CountRecent(ts: seq<real>, window: nat, now: real)
    requires forall i :: 0 <= i < |ts| ==> now - window as real < ts[i] <= now
    ensures CountIn(ts, window, now) == |ts|
  {
    if ts != [] {
      CountRecent(ts[..|ts| - 1], window, now);
    }
  }

  /** Trimming drops exactly the front that left the window. */
  lemma {:induction false} ExpireTrims(q: seq<real>, cutoff: real)
    requires forall i, j :: 0 <= i < j < |q| ==> q[i] <= q[j]
    ensures var e := Expire(q, cutoff);
      && |e| <= |q| && e == q[|q| - |e|..]
      && (forall i :: 0 <= i < |q| - |e| ==> q[i] <= cutoff)
      && (forall i :: 0 <= i < |e| ==> e[i] > cutoff)
  {
    if q != [] && q[0] <= cutoff {
      ExpireTrims(q[1..], cutoff);
      var e := Expire(q, cutoff);
      assert forall i :: 0 < i < |q| - |e| ==> q[i] == q[1..][i - 1];
    }
  }

  lemma TrimmedTracks(q: seq<real>, ts: seq<real>, rule: Rule, earlier: real, now: real)
    requires Tracks(q, ts, rule, earlier) && earlier <= now
    ensures var e := Expire(q, now - rule.window as real);
      Tracks(e, ts, rule, now) && forall i :: 0 <= i < |e| ==> now - rule.window as real < e[i] <= now
  {
    var cutoff := now - rule.window as real;
    ExpireTrims(q, cutoff);
    var e := Expire(q, cutoff);
    forall i | 0 <= i < |ts| - |e| ensures ts[i] <= cutoff {
      if i >= |ts| - |q| {
        assert ts[i] == q[i - (|ts| - |q|)];
      }
    }
  }

  /** Trimmed at a later time, the deque holds exactly the counted admissions. */
  lemma TrimmedCounts(q: seq<real>, ts: seq<real>, rule: Rule, earlier: real, now: real)
    requires Tracks(q, ts, rule, earlier) && earlier <= now
    ensures |Expire(q, now - rule.window as real)| == CountIn(ts, rule.window, now)
  {
    TrimmedTracks(q, ts, rule, earlier, now);
    var e := Expire(q, now - rule.window as real);
    var n := |ts| - |e|;
    assert ts == ts[..n] + e;
    CountOld(ts[..n], rule.window, now);
    CountRecent(e, rule.window, now);
    CountSplit(ts[..n], e, rule.window, now);
  }

  lemma {:induction false} TimesAppend(log: seq<Request>, r: Request, key: Key)
    ensures Times(log + [r], key) == if r.key == key then Times(log, key) + [r.time] else Times(log, key)
  {
    assert (log + [r])[..|log|] == log;
  }

  /** The window only moves on. */
  lemma TracksLater(q: seq<real>, ts: seq<real>, rule: Rule, earlier: real, now: real)
    requires Tracks(q, ts, rule, earlier) && earlier <= now
    ensures Tracks(q, ts, rule, now)
  {
  }

  /** A deque that is swept away held nothing the window still counts. */
  lemma SweptTracks(q: seq<real>, ts: seq<real>, rule: Rule, now: real)
    requires Tracks(q, ts, rule, now) && Stale(q, now - rule.window as real)
    ensures Tracks([], ts, rule, now)
  {
    forall i | 0 <= i < |ts| ensures ts[i] <= now - rule.window as real {
      if i >= |ts| - |q| {
        assert ts[|ts| - 1] == q[|q| - 1];
      }
    }
  }

  lemma AppendedTracks(q: seq<real>, ts: seq<real>, rule: Rule, now: real)
    requires Tracks(q, ts, rule, now) && |q| < rule.maximum
    ensures Tracks(q + [now], ts + [now], rule, now)
  {
  }

  /** What one request does to the deque of a key. */
  lemma ConsumeDeque(s: Limiter, rule: Rule, r: Request, key: Key)
    requires rule.maximum >= 1 && rule.window >= 1
    ensures var (n, d) := Consume(s, rule, r);
      var cutoff := r.time - rule.window as real;
      var q, e := Deque(s, key), Expire(Deque(s, r.key), cutoff);
      && (d.Allowed? <==> |e| < rule.maximum)
      && (key == r.key ==> Deque(n, key) == if d.Allowed? then e + [r.time] else e)
      && (key != r.key ==> Deque(n, key) == q || (Deque(n, key) == [] && Stale(q, cutoff)))
  {
  }

  lemma ConsumeTracks(rules: Rules, s: Limiter, r: Request, key: Key, ts: seq<real>, earlier: real)
    requires Usable(rules) && CommonWindow(rules) && r.key.rule in rules && key.rule in rules
    requires Tracks(Deque(s, key), ts, rules[key.rule], earlier) && earlier <= r.time
    ensures var (n, d) := Consume(s, rules[r.key.rule], r);
      Tracks(Deque(n, key), if d.Allowed? && r.key == key then ts + [r.time] else ts, rules[key.rule], r.time)
  {
    var rule := rules[key.rule];
    var q, e := Deque(s, key), Expire(Deque(s, r.key), r.time - rule.window as real);
    ConsumeDeque(s, rules[r.key.rule], r, key);
    if key == r.key {
      TrimmedTracks(q, ts, rule, earlier, r.time);
      if |e| < rule.maximum {
        AppendedTracks(e, ts, rule, r.time);
      }
    } else {
      TracksLater(q, ts, rule, earlier, r.time);
      if Stale(q, r.time - rule.window as real) {
        SweptTracks(q, ts, rule, r.time);
      }
    }
  }

  lemma LoggedTimes(log: seq<Request>, r: Request, d: Decision, key: Key)
    ensures Times(Logged(log, r, d), key) == if d.Allowed? && r.key == key then Times(log, key) + [r.time] else Times(log, key)
  {
    if d.Allowed? {
      TimesAppend(log, r, key);
    }
  }

  /** One request keeps the representation. */
  lemma ConsumeRepresents(rules: Rules, s: Limiter, log: seq<Request>, r: Request, earlier: real, n: Limiter, d: Decision)
    requires Usable(rules) && CommonWindow(rules) && r.key.rule in rules && (n, d) == Consume(s, rules[r.key.rule], r)
    requires Represents(rules, s, log, earlier) && earlier <= r.time
    ensures Represents(rules, n, Logged(log, r, d), r.time)
  {
    forall key: Key | key.rule in rules ensures Tracks(Deque(n, key), Times(Logged(log, r, d), key), rules[key.rule], r.time) {
      LoggedTimes(log, r, d, key);
      ConsumeTracks(rules, s, r, key, Times(log, key), earlier);
    }
  }

  /** It is decided by the count. */
  lemma ConsumeCounts(rule: Rule, s: Limiter, ts: seq<real>, r: Request, earlier: real)
    requires rule.maximum >= 1 && rule.window >= 1 && Tracks(Deque(s, r.key), ts, rule, earlier) && earlier <= r.time
    ensures Consume(s, rule, r).1.Allowed? <==> CountIn(ts, rule.window, r.time) < rule.maximum
  {
    TrimmedCounts(Deque(s, r.key), ts, rule, earlier, r.time);
  }

  lemma {:induction false} StateRepresents(rules: Rules, h: seq<Request>)
    requires Known(rules, h) && CommonWindow(rules) && Timely(h)
    ensures h != [] ==> Represents(rules, State(rules, h), Admitted(rules, h), h[|h| - 1].time) && DecidesByCount(rules, h)
    ensures h == [] ==> forall t: real :: Represents(rules, State(rules, h), Admitted(rules, h), t)
  {
    if h != [] {
      var before, r := h[..|h| - 1], h[|h| - 1];
      StateRepresents(rules, before);
      var s, log := State(rules, before), Admitted(rules, before);
      var earlier := if before == [] then r.time else before[|before| - 1].time;
      ConsumeRepresents(rules, s, log, r, earlier, State(rules, h), Decide(rules, h));
      ConsumeCounts(rules[r.key.rule], s, Times(log, r.key), r, earlier);
    }
  }

  /** The API's own rules share one window, so the limiter decides every history by the count. */
  lemma ApiRulesDecideByCount(h: seq<Request>)
    requires Known(RULES, h) && Timely(h) && h != []
    ensures DecidesByCount(RULES, h)
  {
    assert forall name :: name in RULES ==> RULES[name].window == 60;
    StateRepresents(RULES, h);
  }

  // ---------------------------------------------------------------------------------
  // Different windows

  ghost predicate AlwaysDecidesByCount(rules: Rules)
    requires Usable(rules)
  {
    forall h :: Known(rules, h) && Timely(h) && h != [] ==> DecidesByCount(rules, h)
  }

  /** A sweep at 1000, then `k` requests of one caller of rule `a` at 1300. */
  function Filling(a: string, b: string, k: nat): seq<Request> {
    if k == 0 then [Request(Key(b, "z"), 1000.0)] else Filling(a, b, k - 1) + [Request(Key(a, "x"), 1300.0)]
  }

  function Same(k: nat): (ts: seq<real>)
    ensures |ts| == k && forall i :: 0 <= i < k ==> ts[i] == 1300.0
  {
    if k == 0 then [] else Same(k - 1) + [1300.0]
  }

  function Filled(a: string, b: string, k: nat): Limiter {
    var swept := map[Key(b, "z") := [1000.0]];
    Limiter(if k == 0 then swept else swept[Key(a, "x") := Same(k)], 1000.0)
  }

  lemma FillOne(rules: Rules, a: string, b: string, k: nat)
    requires Usable(rules) && a in rules && b in rules && a != b && k < rules[a].maximum
    ensures Consume(Filled(a, b, k), rules[a], Request(Key(a, "x"), 1300.0)) == (Filled(a, b, k + 1), Allowed)
  {
    assert Deque(Filled(a, b, k), Key(a, "x")) == Same(k);
    assert Expire(Same(k), 1300.0 - rules[a].window as real) == Same(k);
    assert Filled(a, b, k).events[Key(a, "x") := Same(k + 1)] == Filled(a, b, k + 1).events;
  }

  lemma FirstSweep(rules: Rules, a: string, b: string)
    requires Usable(rules) && b in rules
    ensures Consume(START, rules[b], Request(Key(b, "z"), 1000.0)) == (Filled(a, b, 0), Allowed)
  {
    var events := map[Key(b, "z") := [1000.0]];
    assert [] + [1000.0] == [1000.0];
    assert Swept(events, 1000.0 - rules[b].window as real) == events;
  }

  /** All of them pass and none is swept. */
  lemma {:induction false} FillingPasses(rules: Rules, a: string, b: string, k: nat)
    requires Usable(rules) && a in rules && b in rules && a != b && k <= rules[a].maximum
    ensures Known(rules, Filling(a, b, k)) && State(rules, Filling(a, b, k)) == Filled(a, b, k)
    ensures Admitted(rules, Filling(a, b, k)) == Filling(a, b, k) && Times(Filling(a, b, k), Key(a, "x")) == Same(k)
  {
    var h := Filling(a, b, k);
    if k == 0 {
      assert h[..0] == [];
      FirstSweep(rules, a, b);
    } else {
      FillingPasses(rules, a, b, k - 1);
      assert h[..|h| - 1] == Filling(a, b, k - 1);
      FillOne(rules, a, b, k - 1);
      TimesAppend(Filling(a, b, k - 1), Request(Key(a, "x"), 1300.0), Key(a, "x"));
    }
  }

  lemma {:induction false} FillingIsTimely(a: string, b: string, k: nat)
    ensures Timely(Filling(a, b, k)) && forall i :: 0 <= i < |Filling(a, b, k)| ==> Filling(a, b, k)[i].time <= 1300.0
  {
    if k > 0 {
      FillingIsTimely(a, b, k - 1);
    }
  }

  /** Then, once the window of `b` is over, a caller of `b`, and the first caller once more. */
  function Forgetting(rules: Rules, a: string, b: string): seq<Request>
    requires a in rules && b in rules
  {
    var t := 1300.0 + rules[b].window as real;
    Filling(a, b, rules[a].maximum) + [Request(Key(b, "y"), t)] + [Request(Key(a, "x"), t)]
  }

  lemma ForgettingIsTimely(rules: Rules, a: string, b: string)
    requires Usable(rules) && a in rules && b in rules && a != b
    ensures Timely(Forgetting(rules, a, b)) && Known(rules, Forgetting(rules, a, b))
  {
    FillingIsTimely(a, b, rules[a].maximum);
    FillingPasses(rules, a, b, rules[a].maximum);
  }

  /** The caller of `b` sweeps by its shorter window; the first caller, at its limit, then passes
      once more. */
  lemma ShorterWindowForgets(rules: Rules, a: string, b: string)
    requires Usable(rules) && a in rules && b in rules && rules[b].window < rules[a].window
    ensures Known(rules, Forgetting(rules, a, b)) && Timely(Forgetting(rules, a, b)) && !DecidesByCount(rules, Forgetting(rules, a, b))
  {
    var m, t, h := rules[a].maximum, 1300.0 + rules[b].window as real, Forgetting(rules, a, b);
    var first, sweep, again := Filling(a, b, m), Request(Key(b, "y"), t), Request(Key(a, "x"), t);
    ForgettingIsTimely(rules, a, b);
    FillingPasses(rules, a, b, m);
    SweepForgets(rules, a, b, m, t);
    var n := |first|;
    assert h[..n] == first && h[n] == sweep && h[n + 1] == again && h[..n + 2] == h;
    PrefixStep(rules, h, n);
    PrefixStep(rules, h, n + 1);
    LoggedTimes(first, sweep, Allowed, again.key);
    CountRecent(Same(m), rules[a].window, t);
    assert h[..n + 1][..n] == first && h[..|h| - 1] == h[..n + 1];
  }

  lemma SweepForgets(rules: Rules, a: string, b: string, m: nat, t: real)
    requires Usable(rules) && a in rules && b in rules && a != b && m >= 1 && t == 1300.0 + rules[b].window as real
    ensures var (n, d) := Consume(Filled(a, b, m), rules[b], Request(Key(b, "y"), t));
      d == Allowed && Deque(n, Key(a, "x")) == []
  {
  }

  /** The deques decide every history by the count if and only if all rules share one window. */
  lemma CommonWindowNeeded(rules: Rules)
    requires Usable(rules)
    ensures AlwaysDecidesByCount(rules) <==> CommonWindow(rules)
  {
    if CommonWindow(rules) {
      forall h | Known(rules, h) && Timely(h) && h != [] ensures DecidesByCount(rules, h) {
        StateRepresents(rules, h);
      }
    } else {
      var a, b :| a in rules && b in rules && rules[b].window < rules[a].window;
      ShorterWindowForgets(rules, a, b);
      assert Forgetting(rules, a, b) != [];
    }
  }

  // ---------------------------------------------------------------------------------
  // Retrying

  /** The decision on one request of a history. */
  function Outcome(rules: Rules, h: seq<Request>, i: nat): Decision
    requires Known(rules, h) && i < |h|
  {
    Decide(rules, h[..i + 1])
  }

  lemma PrefixStep(rules: Rules, h: seq<Request>, i: nat)
    requires Known(rules, h) && i < |h|
    ensures Admitted(rules, h[..i + 1]) == Logged(Admitted(rules, h[..i]), h[i], Outcome(rules, h, i))
    ensures Outcome(rules, h, i) == Consume(State(rules, h[..i]), rules[h[i].key.rule], h[i]).1
  {
    assert h[..i + 1][..i] == h[..i];
  }

  lemma {:induction false} DeniedKeepTimes(rules: Rules, h: seq<Request>, d: nat, e: nat, key: Key)
    requires Known(rules, h) && d <= e <= |h|
    requires forall i :: d <= i < e && h[i].key == key ==> Outcome(rules, h, i).Denied?
    ensures Times(Admitted(rules, h[..e]), key) == Times(Admitted(rules, h[..d]), key)
    decreases e
  {
    if d < e {
      DeniedKeepTimes(rules, h, d, e - 1, key);
      PrefixStep(rules, h, e - 1);
      LoggedTimes(Admitted(rules, h[..e - 1]), h[e - 1], Outcome(rules, h, e - 1), key);
    }
  }

  lemma {:induction false} CountShrinks(ts: seq<real>, window: nat, now: real, i: nat)
    requires i < |ts| && ts[i] <= now - window as real && forall a, b :: 0 <= a < b < |ts| ==> ts[a] <= ts[b]
    ensures CountIn(ts, window, now) <= |ts| - 1 - i
  {
    CountOld(ts[..i + 1], window, now);
    CountSplit(ts[..i + 1], ts[i + 1..], window, now);
    assert ts == ts[..i + 1] + ts[i + 1..];
    CountAtMost(ts[i + 1..], window, now);
  }

  lemma {:induction false} CountAtMost(ts: seq<real>, window: nat, now: real)
    ensures CountIn(ts, window, now) <= |ts|
  {
    if ts != [] {
      CountAtMost(ts[..|ts| - 1], window, now);
    }
  }

  /** The front of a full deque is what its caller waits for. */
  lemma FullDeque(s: Limiter, rule: Rule, r: Request, ts: seq<real>, earlier: real)
    requires rule.maximum >= 1 && rule.window >= 1 && Tracks(Deque(s, r.key), ts, rule, earlier) && earlier <= r.time
    requires Consume(s, rule, r).1.Denied?
    ensures |ts| >= rule.maximum && r.time - rule.window as real < ts[|ts| - rule.maximum] <= r.time
    ensures Consume(s, rule, r).1 == Denied(RetryAfter(rule.window, r.time, ts[|ts| - rule.maximum]))
  {
    TrimmedTracks(Deque(s, r.key), ts, rule, earlier, r.time);
    var e := Expire(Deque(s, r.key), r.time - rule.window as real);
    assert |e| == rule.maximum && e[0] == ts[|ts| - |e|];
  }

  lemma Waiting(window: nat, now: real, oldest: real)
    requires now - window as real < oldest <= now
    ensures 1 <= RetryAfter(window, now, oldest) <= window + 1
    ensures oldest <= now + RetryAfter(window, now, oldest) as real - window as real <= oldest + 1.0
  {
  }

  lemma PrefixTracks(rules: Rules, h: seq<Request>, i: nat, now: real)
    requires Known(rules, h) && CommonWindow(rules) && Timely(h) && i < |h| && now == if i == 0 then h[i].time else h[i - 1].time
    ensures Tracks(Deque(State(rules, h[..i]), h[i].key), Times(Admitted(rules, h[..i]), h[i].key), rules[h[i].key.rule], now)
  {
    StateRepresents(rules, h[..i]);
    assert Represents(rules, State(rules, h[..i]), Admitted(rules, h[..i]), now);
  }

  lemma DenialTells(rules: Rules, h: seq<Request>, d: nat)
    requires Known(rules, h) && CommonWindow(rules) && Timely(h) && d < |h| && Outcome(rules, h, d).Denied?
    ensures var ts, rule, wait := Times(Admitted(rules, h[..d]), h[d].key), rules[h[d].key.rule], Outcome(rules, h, d).retryAfter;
      && 1 <= wait <= rule.window + 1 && |ts| >= rule.maximum
      && ts[|ts| - rule.maximum] <= h[d].time + wait as real - rule.window as real <= ts[|ts| - rule.maximum] + 1.0
      && forall i :: 0 <= i < |ts| ==> ts[i] <= h[d].time
  {
    var ts, rule := Times(Admitted(rules, h[..d]), h[d].key), rules[h[d].key.rule];
    var before := if d == 0 then h[d].time else h[d - 1].time;
    PrefixTracks(rules, h, d, before);
    PrefixStep(rules, h, d);
    FullDeque(State(rules, h[..d]), rule, h[d], ts, before);
    Waiting(rule.window, h[d].time, ts[|ts| - rule.maximum]);
  }

  lemma PrefixCounts(rules: Rules, h: seq<Request>, i: nat)
    requires Known(rules, h) && CommonWindow(rules) && Timely(h) && i < |h|
    ensures var ts, rule := Times(Admitted(rules, h[..i]), h[i].key), rules[h[i].key.rule];
      && (forall a, b :: 0 <= a < b < |ts| ==> ts[a] <= ts[b])
      && (Outcome(rules, h, i).Allowed? <==> CountIn(ts, rule.window, h[i].time) < rule.maximum)
  {
    var now := if i == 0 then h[i].time else h[i - 1].time;
    PrefixTracks(rules, h, i, now);
    PrefixStep(rules, h, i);
    ConsumeCounts(rules[h[i].key.rule], State(rules, h[..i]), Times(Admitted(rules, h[..i]), h[i].key), h[i], now);
  }

  /** A denied caller is told to wait between one second and one more than the window; if it does,
      and none of its requests passes in between, it is admitted. */
  lemma RetryAfterSuffices(rules: Rules, h: seq<Request>, d: nat, e: nat)
    requires Known(rules, h) && CommonWindow(rules) && Timely(h) && d < e < |h| && h[d].key == h[e].key
    requires Outcome(rules, h, d).Denied? && h[e].time >= h[d].time + Outcome(rules, h, d).retryAfter as real
    requires forall i :: d < i < e && h[i].key == h[d].key ==> Outcome(rules, h, i).Denied?
    ensures 1 <= Outcome(rules, h, d).retryAfter <= rules[h[d].key.rule].window + 1
    ensures Outcome(rules, h, e).Allowed?
  {
    var ts, rule := Times(Admitted(rules, h[..d]), h[d].key), rules[h[d].key.rule];
    DenialTells(rules, h, d);
    DeniedKeepTimes(rules, h, d, e, h[d].key);
    PrefixCounts(rules, h, e);
    CountShrinks(ts, rule.window, h[e].time, |ts| - rule.maximum);
  }

  lemma {:induction false} CountAll(ts: seq<real>, window: nat, now: real)
    requires forall i :: 0 <= i < |ts| ==> now - window as real < ts[i] <= now
    ensures CountIn(ts, window, now) == |ts|
  {
    if ts != [] {
      CountAll(ts[..|ts| - 1], window, now);
    }
  }

  /** The delay is at most a second longer than it has to be: a caller who is more than a second
      early is denied again. */
  lemma RetryAfterIsTight(rules: Rules, h: seq<Request>, d: nat, e: nat)
    requires Known(rules, h) && CommonWindow(rules) && Timely(h) && d < e < |h| && h[d].key == h[e].key
    requires Outcome(rules, h, d).Denied? && h[e].time + 1.0 < h[d].time + Outcome(rules, h, d).retryAfter as real
    requires forall i :: d < i < e && h[i].key == h[d].key ==> Outcome(rules, h, i).Denied?
    ensures Outcome(rules, h, e).Denied?
  {
    var ts, rule := Times(Admitted(rules, h[..d]), h[d].key), rules[h[d].key.rule];
    var n := |ts| - rule.maximum;
    DenialTells(rules, h, d);
    DeniedKeepTimes(rules, h, d, e, h[d].key);
    PrefixCounts(rules, h, e);
    CountSplit(ts[..n], ts[n..], rule.window, h[e].time);
    assert ts == ts[..n] + ts[n..];
    CountAll(ts[n..], rule.window, h[e].time);
  }

  // ---------------------------------------------------------------------------------
  // The deques in place

  class Buckets {
    var events: map<Key, seq<real>>
    var lastCleanup: real

    ghost function Contents(): Limiter
      reads this
    {
      Limiter(events, lastCleanup)
    }

    constructor ()
      ensures Contents() == START
    {
      events, lastCleanup := map[], 0.0;
    }

    method Admit(key: Key, maximum: nat, window: nat, now: real) returns (allowed: bool, retryAfter: int)
      requires maximum >= 1
      modifies this
      ensures var (n, d) := Consume(old(Contents()), Rule(maximum, window), Request(key, now));
        Contents() == n && allowed == d.Allowed? && retryAfter == if d.Allowed? then 0 else d.retryAfter
      ensures allowed && now - old(lastCleanup) > 300.0 ==>
        lastCleanup == now && forall k :: k in events ==> events[k] != [] && events[k][|events[k]| - 1] > now - window as real
    {
      var cutoff := now - window as real;
      var q := if key in events then events[key] else [];
      while q != [] && q[0] <= cutoff
        invariant Expire(q, cutoff) == Expire(Deque(old(Contents()), key), cutoff)
        decreases |q|
      {
        q := q[1..];
      }
      assert q == Expire(q, cutoff);
      events := events[key := q];
      if |q| >= maximum {
        return false, Max(1, (window as real - (now - q[0])).Floor + 1);
      }
      events := events[key := q + [now]];
      if now - lastCleanup > 300.0 {
        Cleanup(cutoff);
        lastCleanup := now;
      }
      return true, 0;
    }

    method Cleanup(cutoff: real)
      modifies this`events
      ensures events == Swept(old(events), cutoff)
    {
      var rest := events.Keys;
      while rest != {}
        invariant rest <= old(events).Keys
        invariant forall k :: k in events <==> k in old(events) && (k in rest || !Stale(old(events)[k], cutoff))
        invariant forall k :: k in events ==> events[k] == old(events)[k]
        decreases rest
      {
        var key :| key in rest;
        rest := rest - {key};
        if events[key] == [] || events[key][|events[key]| - 1] <= cutoff {
          events := events - {key};
        }
      }
    }
  }
}
