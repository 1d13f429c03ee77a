/** The web server's cache of Google connection states (web/lib/api-auth.ts): an
    insertion-ordered map of at most 512 answers, each good for five seconds from the start of the
    request that asked, and the backend calls that requests share. */
module AuthCache {
  import opened Basics

  const CACHE_MS := 5000
  const MAX_ENTRIES := 512

  datatype Entry = Entry(key: string, connected: bool, expiresAt: int)

  /** Entries in insertion order, one per key. */
  type Cache = seq<Entry>

  predicate OnePerKey(c: Cache) {
    forall i, j :: 0 <= i < j < |c| ==> c[i].key != c[j].key
  }

  /** The entries other than this key's that have not expired. */
  function Live(c: Cache, key: string, now: int): Cache {
    if c == [] then []
    else
      var last := c[|c| - 1];
      Live(c[..|c| - 1], key, now) + (if last.key != key && last.expiresAt > now then [last] else [])
  }

  /** What is left after the oldest make room for one more. */
  function Youngest(c: Cache): Cache {
    c[Max(0, |c| - (MAX_ENTRIES - 1))..]
  }

  function Remember(c: Cache, e: Entry, now: int): Cache {
    Youngest(Live(c, e.key, now)) + [e]
  }

  /** The unexpired answer for a key. */
  function Lookup(c: Cache, key: string, now: int): Option<bool> {
    if c == [] then None
    else
      var last := c[|c| - 1];
      if last.key == key then (if last.expiresAt > now then Some(last.connected) else None)
      else Lookup(c[..|c| - 1], key, now)
  }

  predicate Sound(c: Cache) {
    |c| <= MAX_ENTRIES && OnePerKey(c)
  }

  /** `Live` keeps exactly the unexpired entries of other keys, in their order. */
  lemma {:induction false} LiveKeeps(c: Cache, key: string, now: int)
    requires OnePerKey(c)
    ensures var l := Live(c, key, now);
      && |l| <= |c| && OnePerKey(l)
      && (forall e :: e in l <==> e in c && e.key != key && e.expiresAt > now)
  {
    if c != [] {
      LiveKeeps(c[..|c| - 1], key, now);
      assert c == c[..|c| - 1] + [c[|c| - 1]];
    }
  }

  /** The cache never exceeds its bound, and remembers every key once. */
  lemma RememberIsSound(c: Cache, e: Entry, now: int)
    requires Sound(c)
    ensures Sound(Remember(c, e, now))
  {
    LiveKeeps(c, e.key, now);
    var l := Live(c, e.key, now);
    forall i | 0 <= i < |Youngest(l)| ensures Youngest(l)[i].key != e.key {
      assert Youngest(l)[i] in l;
    }
  }

  lemma {:induction false} LookupFinds(c: Cache, key: string, now: int)
    requires OnePerKey(c)
    ensures Lookup(c, key, now).Some? <==> exists e :: e in c && e.key == key && e.expiresAt > now
    ensures forall e :: e in c && e.key == key && e.expiresAt > now ==> Lookup(c, key, now) == Some(e.connected)
  {
    if c != [] {
      var n := |c| - 1;
      LookupFinds(c[..n], key, now);
      assert c == c[..n] + [c[n]];
      if c[n].key != key {
        assert forall e :: e in c && e.key == key ==> e in c[..n];
      }
    }
  }

  // ---------------------------------------------------------------------------------
  // What is forgotten

  datatype Write = Write(entry: Entry, now: int)

  function RememberAll(c: Cache, ws: seq<Write>): Cache {
    if ws == [] then c else Remember(RememberAll(c, ws[..|ws| - 1]), ws[|ws| - 1].entry, ws[|ws| - 1].now)
  }

  function KeysOf(ws: seq<Write>): set<string> {
    set w | w in ws :: w.entry.key
  }

  function KeysFrom(c: Cache, i: nat): set<string> {
    set j | i <= j < |c| :: c[j].key
  }

  /** The entry is in the cache, and everything behind it was written by these keys. */
  predicate Stands(c: Cache, e: Entry, others: set<string>) {
    exists i :: 0 <= i < |c| && c[i] == e && KeysFrom(c, i + 1) <= others
  }

  lemma {:induction false} KeyCount(c: Cache, i: nat)
    requires OnePerKey(c) && i <= |c|
    ensures |KeysFrom(c, i)| == |c| - i
    decreases |c| - i
  {
    if i < |c| {
      KeyCount(c, i + 1);
      assert KeysFrom(c, i) == {c[i].key} + KeysFrom(c, i + 1);
      assert c[i].key !in KeysFrom(c, i + 1);
    } else {
      assert KeysFrom(c, i) == {};
    }
  }

  /** An unexpired entry stays in line when the cache is purged. */
  lemma {:induction false} LiveStands(c: Cache, e: Entry, others: set<string>, key: string, now: int)
    requires Stands(c, e, others) && e.key != key && e.expiresAt > now
    ensures Stands(Live(c, key, now), e, others)
  {
    var i :| 0 <= i < |c| && c[i] == e && KeysFrom(c, i + 1) <= others;
    var n := |c| - 1;
    var l := Live(c, key, now);
    if i == n {
      assert l[|l| - 1] == e && KeysFrom(l, |l|) == {};
    } else {
      assert c[..n][i] == e && KeysFrom(c[..n], i + 1) <= KeysFrom(c, i + 1);
      LiveStands(c[..n], e, others, key, now);
      var m := Live(c[..n], key, now);
      var k :| 0 <= k < |m| && m[k] == e && KeysFrom(m, k + 1) <= others;
      assert c[n].key in KeysFrom(c, i + 1);
      assert l[k] == e && KeysFrom(l, k + 1) <= KeysFrom(m, k + 1) + {c[n].key};
    }
  }

  /** Fewer keys stand behind an entry than were written. */
  lemma BehindIsFew(l: Cache, i: nat, others: set<string>, key: string)
    requires OnePerKey(l) && i < |l| && KeysFrom(l, i + 1) <= others && forall j :: 0 <= j < |l| ==> l[j].key != key
    ensures |l| - i <= |others + {key}|
  {
    KeyCount(l, i + 1);
    SubsetCount(KeysFrom(l, i + 1) + {key}, others + {key});
    assert key !in KeysFrom(l, i + 1);
  }

  lemma ShiftStands(l: Cache, i: nat, cut: nat, e: Entry, entry: Entry, others: set<string>)
    requires cut <= i < |l| && l[i] == e && KeysFrom(l, i + 1) <= others
    ensures Stands(l[cut..] + [entry], e, others + {entry.key})
  {
    var r := l[cut..] + [entry];
    assert r[i - cut] == e;
    forall j | i - cut + 1 <= j < |r| ensures r[j].key in others + {entry.key} {
      if j < |r| - 1 {
        assert r[j] == l[j + cut] && l[j + cut].key in KeysFrom(l, i + 1);
      }
    }
  }

  lemma RememberStands(c: Cache, e: Entry, others: set<string>, w: Write)
    requires Sound(c) && Stands(c, e, others) && e.key != w.entry.key && e.expiresAt > w.now && |others + {w.entry.key}| < MAX_ENTRIES
    ensures Stands(Remember(c, w.entry, w.now), e, others + {w.entry.key})
  {
    LiveStands(c, e, others, w.entry.key, w.now);
    LiveKeeps(c, w.entry.key, w.now);
    var l := Live(c, w.entry.key, w.now);
    var i :| 0 <= i < |l| && l[i] == e && KeysFrom(l, i + 1) <= others;
    forall j | 0 <= j < |l| ensures l[j].key != w.entry.key {
      assert l[j] in l;
    }
    BehindIsFew(l, i, others, w.entry.key);
    ShiftStands(l, i, Max(0, |l| - (MAX_ENTRIES - 1)), e, w.entry, others);
  }

  lemma {:induction false} WritesStand(c: Cache, e: Entry, ws: seq<Write>)
    requires Sound(c) && c != [] && c[|c| - 1] == e
    requires forall i :: 0 <= i < |ws| ==> ws[i].entry.key != e.key && ws[i].now < e.expiresAt
    requires |KeysOf(ws)| < MAX_ENTRIES
    ensures Sound(RememberAll(c, ws)) && Stands(RememberAll(c, ws), e, KeysOf(ws))
  {
    if ws == [] {
      assert KeysFrom(c, |c|) == {};
    } else {
      var n := |ws| - 1;
      assert ws == ws[..n] + [ws[n]];
      assert KeysOf(ws) == KeysOf(ws[..n]) + {ws[n].entry.key};
      SubsetCount(KeysOf(ws[..n]), KeysOf(ws));
      WritesStand(c, e, ws[..n]);
      RememberStands(RememberAll(c, ws[..n]), e, KeysOf(ws[..n]), ws[n]);
      RememberIsSound(RememberAll(c, ws[..n]), ws[n].entry, ws[n].now);
    }
  }

  /** A remembered answer is given until it expires unless 512 other keys are remembered first. */
  lemma AnswersSurvive(c: Cache, e: Entry, now: int, ws: seq<Write>, at: int)
    requires Sound(c) && at < e.expiresAt && |KeysOf(ws)| < MAX_ENTRIES
    requires forall i :: 0 <= i < |ws| ==> ws[i].entry.key != e.key && ws[i].now < e.expiresAt
    ensures Lookup(RememberAll(Remember(c, e, now), ws), e.key, at) == Some(e.connected)
  {
    RememberIsSound(c, e, now);
    WritesStand(Remember(c, e, now), e, ws);
    LookupFinds(RememberAll(Remember(c, e, now), ws), e.key, at);
  }

  // ---------------------------------------------------------------------------------
  // Requests and shared backend calls

  /** A backend call for a key; `answer` is none when it failed. */
  datatype Call = Open(key: string) | Closed(key: string, answer: Option<bool>, at: int)

  /** A request that waits for a call since it began. */
  datatype Waiting = Waiting(key: string, began: int, call: nat)

  datatype Server = Server(now: int, cache: Cache, pending: map<string, nat>, calls: seq<Call>, waiting: map<nat, Waiting>)

  const IDLE: Server := Server(0, [], map[], [], map[])

  datatype Event =
    | Begin(id: nat, key: string)
    | Finish(call: nat, answer: Option<bool>)
    | Resume(id: nat)
    | Tick(elapsed: nat)

  predicate Legal(s: Server, e: Event) {
    match e
    case Begin(id, _) => id !in s.waiting
    case Finish(call, _) => call < |s.calls| && s.calls[call].Open?
    case Resume(id) => id in s.waiting && s.waiting[id].call < |s.calls| && s.calls[s.waiting[id].call].Closed?
    case Tick(_) => true
  }

  /** A request starts: a cached answer, a call to share, or a call of its own. */
  function Started(s: Server, id: nat, key: string): Server {
    if Lookup(s.cache, key, s.now).Some? then s
    else if key in s.pending then s.(waiting := s.waiting[id := Waiting(key, s.now, s.pending[key])])
    else s.(calls := s.calls + [Open(key)], pending := s.pending[key := |s.calls|],
            waiting := s.waiting[id := Waiting(key, s.now, |s.calls|)])
  }

  function Resumed(s: Server, id: nat): Server
    requires Legal(s, Resume(id))
  {
    var w := s.waiting[id];
    var t := s.(waiting := s.waiting - {id});
    match s.calls[w.call].answer
    case None => t
    case Some(connected) => t.(cache := Remember(s.cache, Entry(w.key, connected, w.began + CACHE_MS), w.began))
  }

  function Step(s: Server, e: Event): Server
    requires Legal(s, e)
  {
    match e
    case Begin(id, key) => Started(s, id, key)
    case Finish(call, answer) =>
      s.(calls := s.calls[call := Closed(s.calls[call].key, answer, s.now)], pending := s.pending - {s.calls[call].key})
    case Resume(id) => Resumed(s, id)
    case Tick(elapsed) => s.(now := s.now + elapsed)
  }

  predicate LegalRun(s: Server, run: seq<Event>)
    decreases |run|
  {
    run != [] ==> Legal(s, run[0]) && LegalRun(Step(s, run[0]), run[1..])
  }

  function Exec(s: Server, run: seq<Event>): Server
    requires LegalRun(s, run)
    decreases |run|
  {
    if run == [] then s else Exec(Step(s, run[0]), run[1..])
  }

  /** A call for the key gave this answer in the time after `since`. */
  predicate Attested(s: Server, key: string, connected: bool, since: int) {
    exists c :: 0 <= c < |s.calls| && s.calls[c].Closed? && s.calls[c].key == key && s.calls[c].answer == Some(connected)
      && since <= s.calls[c].at <= s.now
  }

  /** A waiting request's call is for its key and was open when the request began. */
  predicate Awaits(s: Server, w: Waiting) {
    && w.call < |s.calls| && s.calls[w.call].key == w.key && w.began <= s.now
    && (s.calls[w.call].Closed? ==> w.began <= s.calls[w.call].at <= s.now)
  }

  predicate Inv(s: Server) {
    && Sound(s.cache)
    && CacheAttested(s, s.cache)
    && (forall id :: id in s.waiting ==> Awaits(s, s.waiting[id]))
    && Shared(s.calls, s.pending)
  }

  /** The open calls are exactly the pending ones. */
  predicate Shared(calls: seq<Call>, pending: map<string, nat>) {
    && (forall c :: 0 <= c < |calls| ==> (calls[c].Open? <==> calls[c].key in pending && pending[calls[c].key] == c))
    && (forall k :: k in pending ==> pending[k] < |calls| && calls[pending[k]] == Open(k))
  }

  /** Closed calls and passing time keep what was attested. */
  lemma StillAttested(s: Server, t: Server, key: string, connected: bool, since: int)
    requires Attested(s, key, connected, since) && s.now <= t.now && |s.calls| <= |t.calls|
    requires forall c :: 0 <= c < |s.calls| && s.calls[c].Closed? ==> t.calls[c] == s.calls[c]
    ensures Attested(t, key, connected, since)
  {
    var c :| 0 <= c < |s.calls| && s.calls[c].Closed? && s.calls[c].key == key && s.calls[c].answer == Some(connected)
      && since <= s.calls[c].at <= s.now;
    assert t.calls[c] == s.calls[c];
  }

  predicate CacheAttested(s: Server, c: Cache) {
    forall e :: e in c ==> Attested(s, e.key, e.connected, e.expiresAt - CACHE_MS)
  }

  lemma CacheStillAttested(s: Server, t: Server, c: Cache)
    requires CacheAttested(s, c) && s.now <= t.now && |s.calls| <= |t.calls|
    requires forall i :: 0 <= i < |s.calls| && s.calls[i].Closed? ==> t.calls[i] == s.calls[i]
    ensures CacheAttested(t, c)
  {
    forall e | e in c ensures Attested(t, e.key, e.connected, e.expiresAt - CACHE_MS) {
      StillAttested(s, t, e.key, e.connected, e.expiresAt - CACHE_MS);
    }
  }

  lemma RememberAttested(s: Server, w: Waiting, connected: bool)
    requires Sound(s.cache) && CacheAttested(s, s.cache) && Awaits(s, w)
    requires s.calls[w.call].Closed? && s.calls[w.call].answer == Some(connected)
    ensures CacheAttested(s, Remember(s.cache, Entry(w.key, connected, w.began + CACHE_MS), w.began))
  {
    var entry := Entry(w.key, connected, w.began + CACHE_MS);
    LiveKeeps(s.cache, w.key, w.began);
    assert Attested(s, entry.key, entry.connected, entry.expiresAt - CACHE_MS);
    forall e | e in Remember(s.cache, entry, w.began) ensures e == entry || e in s.cache {
      if e != entry {
        assert e in Live(s.cache, w.key, w.began);
      }
    }
  }

  lemma ResumedCache(s: Server, id: nat)
    requires Inv(s) && Legal(s, Resume(id))
    ensures Sound(Resumed(s, id).cache) && CacheAttested(s, Resumed(s, id).cache)
  {
    var w := s.waiting[id];
    if s.calls[w.call].answer.Some? {
      var connected := s.calls[w.call].answer.value;
      RememberIsSound(s.cache, Entry(w.key, connected, w.began + CACHE_MS), w.began);
      RememberAttested(s, w, connected);
    }
  }

  /** A smaller waiting room and another sound cache. */
  lemma SmallerKeeps(s: Server, t: Server)
    requires Inv(s) && t == s.(cache := t.cache, waiting := t.waiting) && Sound(t.cache) && CacheAttested(s, t.cache)
    requires forall id :: id in t.waiting ==> id in s.waiting && t.waiting[id] == s.waiting[id]
    ensures Inv(t)
  {
    CacheStillAttested(s, t, t.cache);
    forall id | id in t.waiting ensures Awaits(t, t.waiting[id]) {
      assert Awaits(s, s.waiting[id]);
    }
  }

  lemma ResumeKeeps(s: Server, id: nat)
    requires Inv(s) && Legal(s, Resume(id))
    ensures Inv(Resumed(s, id))
  {
    ResumedCache(s, id);
    SmallerKeeps(s, Resumed(s, id));
  }

  lemma CallKeeps(s: Server, e: Event)
    requires Inv(s) && Legal(s, e) && !e.Resume?
    ensures Inv(Step(s, e))
  {
    var t := Step(s, e);
    CacheStillAttested(s, t, s.cache);
    CallsStayShared(s, e);
    forall id | id in t.waiting ensures Awaits(t, t.waiting[id]) {
      assert id in s.waiting ==> Awaits(s, s.waiting[id]);
    }
  }

  lemma CallsStayShared(s: Server, e: Event)
    requires Shared(s.calls, s.pending) && Legal(s, e) && !e.Resume?
    ensures Shared(Step(s, e).calls, Step(s, e).pending)
  {
  }

  lemma StepKeeps(s: Server, e: Event)
    requires Inv(s) && Legal(s, e)
    ensures Inv(Step(s, e))
  {
    if e.Resume? {
      ResumeKeeps(s, e.id);
    } else {
      CallKeeps(s, e);
    }
  }

  lemma {:induction false} RunKeeps(s: Server, run: seq<Event>)
    requires Inv(s) && LegalRun(s, run)
    ensures Inv(Exec(s, run))
    decreases |run|
  {
    if run != [] {
      StepKeeps(s, run[0]);
      RunKeeps(Step(s, run[0]), run[1..]);
    }
  }

  /** In every run the cache holds at most 512 answers, at most one call per key is open, and an
      answer from the cache was given by a backend call for that very key that ended within the
      last five seconds. */
  lemma CacheNeverLies(run: seq<Event>)
    requires LegalRun(IDLE, run)
    ensures var s := Exec(IDLE, run);
      && |s.cache| <= MAX_ENTRIES
      && (forall c, d :: 0 <= c < d < |s.calls| && s.calls[c].Open? && s.calls[d].Open? ==> s.calls[c].key != s.calls[d].key)
      && forall key :: Lookup(s.cache, key, s.now).Some? ==> Attested(s, key, Lookup(s.cache, key, s.now).value, s.now - CACHE_MS + 1)
  {
    RunKeeps(IDLE, run);
    var s := Exec(IDLE, run);
    forall key | Lookup(s.cache, key, s.now).Some? ensures Attested(s, key, Lookup(s.cache, key, s.now).value, s.now - CACHE_MS + 1) {
      LookupFinds(s.cache, key, s.now);
      var e :| e in s.cache && e.key == key && e.expiresAt > s.now;
      assert Attested(s, e.key, e.connected, e.expiresAt - CACHE_MS);
    }
  }

  predicate OpenFor(calls: seq<Call>, key: string) {
    exists c :: 0 <= c < |calls| && calls[c] == Open(key)
  }

  /** A request with an unexpired answer asks nobody. Any other waits for an open call for its key,
      and starts one only when there is none. */
  lemma BeginningShares(s: Server, id: nat, key: string)
    requires Inv(s) && Legal(s, Begin(id, key))
    ensures var n := Step(s, Begin(id, key));
      && n.cache == s.cache && n.now == s.now
      && (if exists e :: e in s.cache && e.key == key && e.expiresAt > s.now then n == s
          else
            && id in n.waiting && n.waiting == s.waiting[id := n.waiting[id]] && n.waiting[id].key == key && n.waiting[id].began == s.now
            && n.waiting[id].call < |n.calls| && n.calls[n.waiting[id].call] == Open(key)
            && n.calls == s.calls + if OpenFor(s.calls, key) then [] else [Open(key)])
  {
    LookupFinds(s.cache, key, s.now);
    if c :| 0 <= c < |s.calls| && s.calls[c] == Open(key) {
      assert key in s.pending;
    }
    if key in s.pending {
      assert s.calls[s.pending[key]] == Open(key);
    }
  }

  /** A request whose call answered leaves the answer in the cache, good for five seconds from the
      request's own start; a failed call leaves the cache alone. */
  lemma ResumingRemembers(s: Server, id: nat, at: int)
    requires Inv(s) && Legal(s, Resume(id))
    ensures var n, w := Step(s, Resume(id)), s.waiting[id];
      && n.waiting == s.waiting - {id} && n.calls == s.calls && n.pending == s.pending && n.now == s.now
      && match s.calls[w.call].answer {
           case None => n.cache == s.cache
           case Some(connected) => Lookup(n.cache, w.key, at) == if at < w.began + CACHE_MS then Some(connected) else None
         }
  {
    var w := s.waiting[id];
    if s.calls[w.call].answer.Some? {
      var e := Entry(w.key, s.calls[w.call].answer.value, w.began + CACHE_MS);
      RememberIsSound(s.cache, e, w.began);
      var c := Remember(s.cache, e, w.began);
      assert c[|c| - 1] == e;
    }
  }

  /** Five seconds without a request for a key forget its answer. */
  lemma AnswersExpire(s: Server, key: string, elapsed: nat)
    requires Inv(s) && elapsed >= CACHE_MS
    ensures Lookup(s.cache, key, Step(s, Tick(elapsed)).now) == None
  {
    var now := Step(s, Tick(elapsed)).now;
    LookupFinds(s.cache, key, now);
    forall e | e in s.cache ensures e.expiresAt <= now {
      assert Attested(s, e.key, e.connected, e.expiresAt - CACHE_MS);
    }
  }

  // ---------------------------------------------------------------------------------
  // The map in place

  class States {
    var entries: Cache

    constructor ()
      ensures entries == []
    {
      entries := [];
    }

    method RememberState(key: string, connected: bool, expiresAt: int, now: int)
      requires OnePerKey(entries)
      modifies this
      ensures entries == Remember(old(entries), Entry(key, connected, expiresAt), now)
    {
      Purge(key, now);
      while |entries| >= MAX_ENTRIES
        invariant |entries| <= |Live(old(entries), key, now)|
        invariant entries == Live(old(entries), key, now)[|Live(old(entries), key, now)| - |entries|..]
        invariant |entries| >= Min(MAX_ENTRIES - 1, |Live(old(entries), key, now)|)
        decreases |entries|
      {
        entries := entries[1..];
      }
      entries := entries + [Entry(key, connected, expiresAt)];
    }

    /** Deletes the key and everything that has expired. */
    method Purge(key: string, now: int)
      modifies this
      ensures entries == Live(old(entries), key, now)
    {
      var i, n := 0, |entries|;
      ghost var all := entries;
      while i < |entries|
        invariant 0 <= i <= |entries| <= n
        invariant entries[..i] == Live(all[..n - (|entries| - i)], key, now)
        invariant entries[i..] == all[n - (|entries| - i)..]
        decreases |entries| - i
      {
        ghost var done := n - (|entries| - i);
        assert entries[i] == all[done] && all[..done + 1][..done] == all[..done];
        assert entries[i + 1..] == all[done + 1..];
        if entries[i].key == key || entries[i].expiresAt <= now {
          ghost var kept := entries[..i];
          entries := entries[..i] + entries[i + 1..];
          assert entries[..i] == kept && entries[i..] == all[done + 1..];
        } else {
          assert entries[..i + 1] == entries[..i] + [entries[i]];
          i := i + 1;
        }
      }
      assert entries[..i] == entries && all[..n] == all;
    }
  }
}
