/** The token-bucket limiter of the HTTP API: a map of buckets that refill with
    time, with an eviction pass over idle buckets.

    Time and tokens are reals. The reference the limiter is measured against is
    `Permits`: a request is allowed exactly when, counting it, no window of time
    that ends now holds more grants than a full bucket plus the refill over that
    window. It mentions neither buckets nor eviction. */
module RateLimiting {
  const WINDOW_SECS: real := 60.0
  const STALE_SECS: real := 300.0
  const EVICTION_THRESHOLD: nat := 100

  datatype Bucket = Bucket(tokens: real, lastRefill: real)

  datatype Request = Request(key: string, at: real)

  type Buckets = map<string, Bucket>

  /** Per key, the times of its granted requests, oldest first. */
  type History = map<string, seq<real>>

  function Min(a: real, b: real): real {
    if a <= b then a else b
  }

  function Rate(max: nat): real {
    max as real / WINDOW_SECS
  }

  // ----- The limiter -----

  function Evict(m: Buckets, now: real): Buckets {
    if |m| > EVICTION_THRESHOLD
    then map k | k in m && now - m[k].lastRefill < STALE_SECS :: m[k]
    else m
  }

  function Refill(max: nat, b: Bucket, now: real): Bucket {
    Bucket(Min(b.tokens + (now - b.lastRefill) * Rate(max), max as real), now)
  }

  /** The key's tokens after refilling its bucket, a full one if it has none. */
  function Refilled(max: nat, m: Buckets, r: Request): real {
    Refill(max, if r.key in m then m[r.key] else Bucket(max as real, r.at), r.at).tokens
  }

  function Take(max: nat, m: Buckets, r: Request): (Buckets, bool) {
    var tokens := Refilled(max, m, r);
    if tokens >= 1.0
    then (m[r.key := Bucket(tokens - 1.0, r.at)], true)
    else (m[r.key := Bucket(tokens, r.at)], false)
  }

  /** One call; with `evict` false it is the limiter that never forgets a key. */
  function Acquire(max: nat, m: Buckets, r: Request, evict: bool): (Buckets, bool) {
    Take(max, if evict then Evict(m, r.at) else m, r)
  }

  /** The map and the answers after a run of requests, starting from no buckets. */
  function Run(max: nat, reqs: seq<Request>, evict: bool): (res: (Buckets, seq<bool>))
    ensures |res.1| == |reqs|
  {
    if reqs == [] then (map[], []) else
      var n := |reqs| - 1;
      var (m, answers) := Run(max, reqs[..n], evict);
      var (m', ok) := Acquire(max, m, reqs[n], evict);
      (m', answers + [ok])
  }

  function Answers(max: nat, reqs: seq<Request>): (res: seq<bool>)
    ensures |res| == |reqs|
  {
    Run(max, reqs, true).1
  }

  // ----- The reference -----

  /** Grants from the i-th one up to and including a grant now, against a full
      bucket plus what 60 s refill it with in the time since the i-th grant. */
  ghost predicate Fits(max: nat, g: seq<real>, t: real, i: nat)
    requires i < |g|
  {
    ((|g| - i + 1) as real - max as real) * 60.0 <= (t - g[i]) * max as real
  }

  ghost predicate Permits(max: nat, g: seq<real>, t: real) {
    1 <= max && forall i | 0 <= i < |g| :: Fits(max, g, t, i)
  }

  /** The times at which key k was granted, given the answers to a run. */
  function Grants(reqs: seq<Request>, answers: seq<bool>, k: string): seq<real>
    requires |reqs| == |answers|
  {
    if reqs == [] then [] else
      var n := |reqs| - 1;
      var g := Grants(reqs[..n], answers[..n], k);
      if answers[n] && reqs[n].key == k then g + [reqs[n].at] else g
  }

  ghost predicate Monotone(reqs: seq<Request>) {
    forall i, j | 0 <= i <= j < |reqs| :: reqs[i].at <= reqs[j].at
  }

  ghost predicate Sorted(g: seq<real>) {
    forall i, j | 0 <= i <= j < |g| :: g[i] <= g[j]
  }

  // ----- Token level as a function of the grants alone -----

  /** Time measured in tokens: what an uncapped bucket would have earned by t. */
  function Earned(max: nat, t: real): real {
    t * Rate(max)
  }

  function EarnedAll(max: nat, g: seq<real>): (e: seq<real>)
    ensures |e| == |g|
  {
    seq(|g|, i requires 0 <= i < |g| => Earned(max, g[i]))
  }

  lemma RefillIsEarned(max: nat, s: real, t: real)
    ensures (t - s) * Rate(max) == Earned(max, t) - Earned(max, s)
    ensures s <= t ==> Earned(max, s) <= Earned(max, t)
  {
    if s <= t {
      assert (t - s) * Rate(max) >= 0.0;
    }
  }

  /** A bucket idle for STALE_SECS has earned five times its capacity. */
  lemma IdleBucketIsFull(max: nat, s: real, t: real)
    requires STALE_SECS <= t - s
    ensures max as real <= Earned(max, t) - Earned(max, s)
  {
    assert (t - s - STALE_SECS) * Rate(max) >= 0.0;
    assert (t - s - STALE_SECS) * Rate(max) == (t - s) * Rate(max) - 5.0 * (max as real);
    RefillIsEarned(max, s, t);
  }

  /** Tokens in a bucket of capacity c at earned time t, after grants at earned times e. */
  ghost function Level(c: real, e: seq<real>, t: real): real {
    if e == [] then c else
      var n := |e| - 1;
      Min(c, Level(c, e[..n], e[n]) - 1.0 + (t - e[n]))
  }

  ghost predicate Holds(c: real, e: seq<real>, t: real, i: nat, x: real)
    requires i < |e|
  {
    c - (|e| - i) as real + (t - e[i]) >= x
  }

  /** The recursion "refill, cap, spend" unfolds to a minimum over all past grants. */
  lemma {:induction false} LevelAtLeast(c: real, e: seq<real>, t: real, x: real)
    ensures Level(c, e, t) >= x <==> c >= x && forall i | 0 <= i < |e| :: Holds(c, e, t, i, x)
  {
    if e != [] {
      var n := |e| - 1;
      var x' := x + 1.0 - (t - e[n]);
      LevelAtLeast(c, e[..n], e[n], x');
      forall i | 0 <= i < n
        ensures Holds(c, e[..n], e[n], i, x') <==> Holds(c, e, t, i, x)
      {
      }
      assert c >= x' <==> Holds(c, e, t, n, x);
    }
  }

  lemma FitsInTokens(max: nat, g: seq<real>, t: real, i: nat)
    requires i < |g|
    ensures Fits(max, g, t, i) <==> (|g| - i + 1) as real <= max as real + (t - g[i]) * Rate(max)
  {
    var x, y := (|g| - i + 1) as real - max as real, t - g[i];
    assert y * Rate(max) * 60.0 == y * (max as real);
  }

  lemma FitsIsHolds(max: nat, g: seq<real>, t: real, i: nat)
    requires i < |g|
    ensures Fits(max, g, t, i) <==> Holds(max as real, EarnedAll(max, g), Earned(max, t), i, 1.0)
  {
    FitsInTokens(max, g, t, i);
    RefillIsEarned(max, g[i], t);
  }

  lemma PermitsIsOneToken(max: nat, g: seq<real>, t: real)
    ensures Permits(max, g, t) <==> Level(max as real, EarnedAll(max, g), Earned(max, t)) >= 1.0
  {
    var c, e, now := max as real, EarnedAll(max, g), Earned(max, t);
    LevelAtLeast(c, e, now, 1.0);
    forall i | 0 <= i < |g|
      ensures Fits(max, g, t, i) <==> Holds(c, e, now, i, 1.0)
    {
      FitsIsHolds(max, g, t, i);
    }
    if Level(c, e, now) >= 1.0 {
      forall i | 0 <= i < |g|
        ensures Fits(max, g, t, i)
      {
        assert Holds(c, e, now, i, 1.0);
      }
    }
    if Permits(max, g, t) {
      forall i | 0 <= i < |e|
        ensures Holds(c, e, now, i, 1.0)
      {
        assert Fits(max, g, t, i);
      }
    }
  }

  /** Refilling in two steps is refilling once over the sum. */
  lemma RefillInTwoSteps(c: real, e: seq<real>, s: real, t: real)
    requires s <= t
    ensures Level(c, e, t) == Min(c, Level(c, e, s) + (t - s))
  {
  }

  // ----- The invariant tying the buckets to the grants -----

  function GrantsOf(h: History, k: string): seq<real> {
    if k in h then h[k] else []
  }

  ghost function LevelOf(max: nat, h: History, k: string, t: real): real {
    Level(max as real, EarnedAll(max, GrantsOf(h, k)), Earned(max, t))
  }

  ghost predicate Tracks(max: nat, m: Buckets, h: History, k: string, now: real) {
    if k in m
    then m[k].lastRefill <= now && 0.0 <= m[k].tokens <= max as real &&
         m[k].tokens == LevelOf(max, h, k, m[k].lastRefill)
    else LevelOf(max, h, k, now) == max as real
  }

  ghost predicate Consistent(max: nat, m: Buckets, h: History, now: real) {
    forall k: string :: Tracks(max, m, h, k, now)
  }

  lemma LevelRefills(max: nat, h: History, k: string, s: real, t: real)
    requires s <= t
    ensures LevelOf(max, h, k, t) == Min(max as real, LevelOf(max, h, k, s) + (Earned(max, t) - Earned(max, s)))
    ensures Earned(max, s) <= Earned(max, t)
  {
    RefillIsEarned(max, s, t);
    RefillInTwoSteps(max as real, EarnedAll(max, GrantsOf(h, k)), Earned(max, s), Earned(max, t));
  }

  lemma TimePasses(max: nat, m: Buckets, h: History, s: real, t: real)
    requires Consistent(max, m, h, s) && s <= t
    ensures Consistent(max, m, h, t)
  {
    forall k: string
      ensures Tracks(max, m, h, k, t)
    {
      assert Tracks(max, m, h, k, s);
      LevelRefills(max, h, k, s, t);
    }
  }

  lemma EvictionKeepsConsistency(max: nat, m: Buckets, h: History, now: real)
    requires Consistent(max, m, h, now)
    ensures Consistent(max, Evict(m, now), h, now)
  {
    forall k: string
      ensures Tracks(max, Evict(m, now), h, k, now)
    {
      assert Tracks(max, m, h, k, now);
      if k in m && k !in Evict(m, now) {
        LevelRefills(max, h, k, m[k].lastRefill, now);
        IdleBucketIsFull(max, m[k].lastRefill, now);
      }
    }
  }

  function Record(h: History, k: string, at: real, ok: bool): History {
    if ok then h[k := GrantsOf(h, k) + [at]] else h
  }

  /** The refilled bucket holds what the grants alone determine. */
  lemma RefilledBucket(max: nat, m: Buckets, h: History, r: Request)
    requires Tracks(max, m, h, r.key, r.at)
    ensures Refilled(max, m, r) == LevelOf(max, h, r.key, r.at)
    ensures 0.0 <= LevelOf(max, h, r.key, r.at) <= max as real
  {
    var b := if r.key in m then m[r.key] else Bucket(max as real, r.at);
    RefillIsEarned(max, b.lastRefill, r.at);
    LevelRefills(max, h, r.key, b.lastRefill, r.at);
  }

  lemma GrantSpendsOneToken(max: nat, h: History, k: string, t: real)
    requires LevelOf(max, h, k, t) <= max as real
    ensures LevelOf(max, Record(h, k, t, true), k, t) == LevelOf(max, h, k, t) - 1.0
  {
    var g := GrantsOf(h, k);
    assert EarnedAll(max, g + [t])[..|g|] == EarnedAll(max, g);
  }

  lemma TakeTracksOwnKey(max: nat, m: Buckets, h: History, r: Request)
    requires Tracks(max, m, h, r.key, r.at)
    ensures Take(max, m, r).1 <==> Permits(max, GrantsOf(h, r.key), r.at)
    ensures Tracks(max, Take(max, m, r).0, Record(h, r.key, r.at, Take(max, m, r).1), r.key, r.at)
  {
    RefilledBucket(max, m, h, r);
    PermitsIsOneToken(max, GrantsOf(h, r.key), r.at);
    GrantSpendsOneToken(max, h, r.key, r.at);
  }

  lemma TakeIsPermits(max: nat, m: Buckets, h: History, r: Request)
    requires Consistent(max, m, h, r.at)
    ensures Take(max, m, r).1 <==> Permits(max, GrantsOf(h, r.key), r.at)
    ensures Consistent(max, Take(max, m, r).0, Record(h, r.key, r.at, Take(max, m, r).1), r.at)
  {
    assert Tracks(max, m, h, r.key, r.at);
    TakeTracksOwnKey(max, m, h, r);
    var (m', ok) := Take(max, m, r);
    var h' := Record(h, r.key, r.at, ok);
    forall k: string
      ensures Tracks(max, m', h', k, r.at)
    {
      assert Tracks(max, m, h, k, r.at);
      if k != r.key {
        assert GrantsOf(h', k) == GrantsOf(h, k);
      }
    }
  }

  /** One call of the evicting limiter, from any earlier time. */
  lemma AcquireIsPermits(max: nat, m: Buckets, h: History, s: real, r: Request)
    requires Consistent(max, m, h, s) && s <= r.at
    ensures Acquire(max, m, r, true).1 <==> Permits(max, GrantsOf(h, r.key), r.at)
    ensures Consistent(max, Acquire(max, m, r, true).0,
                       Record(h, r.key, r.at, Acquire(max, m, r, true).1), r.at)
  {
    TimePasses(max, m, h, s, r.at);
    EvictionKeepsConsistency(max, m, h, r.at);
    TakeIsPermits(max, Evict(m, r.at), h, r);
  }

  // ----- Whole runs -----

  ghost function HistoryOf(reqs: seq<Request>, answers: seq<bool>): (h: History)
    requires |reqs| == |answers|
    ensures forall k: string :: GrantsOf(h, k) == Grants(reqs, answers, k)
  {
    if reqs == [] then map[] else
      var n := |reqs| - 1;
      Record(HistoryOf(reqs[..n], answers[..n]), reqs[n].key, reqs[n].at, answers[n])
  }

  /** Each answer is the reference's verdict on the key's own earlier grants. */
  ghost predicate Exact(max: nat, reqs: seq<Request>, answers: seq<bool>)
    requires |reqs| == |answers|
  {
    forall i | 0 <= i < |reqs| :: ExactAt(max, reqs, answers, i)
  }

  ghost predicate ExactAt(max: nat, reqs: seq<Request>, answers: seq<bool>, i: nat)
    requires i < |reqs| == |answers|
  {
    answers[i] <==> Permits(max, Grants(reqs[..i], answers[..i], reqs[i].key), reqs[i].at)
  }

  lemma ExactPrefix(max: nat, reqs: seq<Request>, answers: seq<bool>, n: nat)
    requires n <= |reqs| == |answers|
    ensures Exact(max, reqs, answers) ==> Exact(max, reqs[..n], answers[..n])
    ensures n == |reqs| - 1 && Exact(max, reqs[..n], answers[..n]) && ExactAt(max, reqs, answers, n)
            ==> Exact(max, reqs, answers)
  {
    forall i | 0 <= i < n
      ensures ExactAt(max, reqs[..n], answers[..n], i) <==> ExactAt(max, reqs, answers, i)
    {
      assert reqs[..n][..i] == reqs[..i] && answers[..n][..i] == answers[..i];
    }
  }

  lemma {:induction false} RunStaysConsistent(max: nat, reqs: seq<Request>, evict: bool, now: real)
    requires Monotone(reqs) && (reqs != [] ==> reqs[|reqs| - 1].at <= now)
    ensures Consistent(max, Run(max, reqs, evict).0, HistoryOf(reqs, Run(max, reqs, evict).1), now)
    ensures Exact(max, reqs, Run(max, reqs, evict).1)
  {
    if reqs == [] {
      forall k: string
        ensures Tracks(max, map[], map[], k, now)
      {
      }
    } else {
      var n := |reqs| - 1;
      var r := reqs[n];
      RunStaysConsistent(max, reqs[..n], evict, r.at);
      var (m, answers) := Run(max, reqs[..n], evict);
      var h := HistoryOf(reqs[..n], answers);
      EvictionKeepsConsistency(max, m, h, r.at);
      TakeIsPermits(max, if evict then Evict(m, r.at) else m, h, r);
      var (m', all) := Run(max, reqs, evict);
      assert all[..n] == answers;
      TimePasses(max, m', HistoryOf(reqs, all), r.at, now);
      ExactPrefix(max, reqs, all, n);
    }
  }

  /** Exactness over every run, with or without eviction. */
  lemma RunIsExact(max: nat, reqs: seq<Request>, evict: bool)
    requires Monotone(reqs)
    ensures Exact(max, reqs, Run(max, reqs, evict).1)
  {
    RunStaysConsistent(max, reqs, evict, if reqs == [] then 0.0 else reqs[|reqs| - 1].at);
  }

  lemma {:induction false} ExactIsUnique(max: nat, reqs: seq<Request>, a: seq<bool>, b: seq<bool>)
    requires |reqs| == |a| == |b| && Exact(max, reqs, a) && Exact(max, reqs, b)
    ensures a == b
  {
    if reqs != [] {
      var n := |reqs| - 1;
      ExactPrefix(max, reqs, a, n);
      ExactPrefix(max, reqs, b, n);
      ExactIsUnique(max, reqs[..n], a[..n], b[..n]);
      assert ExactAt(max, reqs, a, n) && ExactAt(max, reqs, b, n);
    }
  }

  /** Eviction is invisible: the answers are those of a limiter that never forgets. */
  lemma EvictionInvisible(max: nat, reqs: seq<Request>)
    requires Monotone(reqs)
    ensures Run(max, reqs, true).1 == Run(max, reqs, false).1
  {
    RunIsExact(max, reqs, true);
    RunIsExact(max, reqs, false);
    ExactIsUnique(max, reqs, Run(max, reqs, true).1, Run(max, reqs, false).1);
  }

  lemma {:induction false} GrantsAreSorted(reqs: seq<Request>, answers: seq<bool>, k: string)
    requires Monotone(reqs) && |reqs| == |answers|
    ensures Sorted(Grants(reqs, answers, k))
    ensures forall i | 0 <= i < |Grants(reqs, answers, k)| :: Grants(reqs, answers, k)[i] <= reqs[|reqs| - 1].at
  {
    if reqs != [] {
      var n := |reqs| - 1;
      GrantsAreSorted(reqs[..n], answers[..n], k);
      assert n > 0 ==> reqs[n - 1].at <= reqs[n].at;
    }
  }

  /** Every stretch of consecutive grants to one key stays within the limit. */
  lemma {:induction false} StretchBound(max: nat, reqs: seq<Request>, answers: seq<bool>, k: string, i: nat, j: nat)
    requires |reqs| == |answers| && Exact(max, reqs, answers)
    requires i < j <= |Grants(reqs, answers, k)|
    ensures var g := Grants(reqs, answers, k);
            (j - i) as real <= max as real + (Earned(max, g[j - 1]) - Earned(max, g[i]))
  {
    var n := |reqs| - 1;
    var g, g' := Grants(reqs, answers, k), Grants(reqs[..n], answers[..n], k);
    if j <= |g'| {
      ExactPrefix(max, reqs, answers, n);
      StretchBound(max, reqs[..n], answers[..n], k, i, j);
    } else {
      assert ExactAt(max, reqs, answers, n);
      if i < |g'| {
        assert Fits(max, g', reqs[n].at, i);
        FitsInTokens(max, g', reqs[n].at, i);
        RefillIsEarned(max, g[i], reqs[n].at);
      }
    }
  }

  function CountIn(g: seq<real>, from: real, to: real): nat {
    if g == [] then 0 else
      var n := |g| - 1;
      CountIn(g[..n], from, to) + if from <= g[n] <= to then 1 else 0
  }

  lemma {:induction false} CountIsAStretch(g: seq<real>, from: real, to: real) returns (i: nat, j: nat)
    requires Sorted(g) && from <= to
    ensures i <= j <= |g| && CountIn(g, from, to) == j - i
    ensures forall x | i <= x < j :: from <= g[x] <= to
    ensures j < |g| ==> to < g[j]
  {
    i, j := 0, 0;
    if g != [] {
      var n := |g| - 1;
      i, j := CountIsAStretch(g[..n], from, to);
      assert j < n ==> to < g[j] <= g[n];
      assert i < n ==> g[i] <= g[n];
      if from <= g[n] <= to {
        j := n + 1;
      } else if g[n] < from {
        i, j := n + 1, n + 1;
      }
    }
  }

  lemma EarnedWithin(max: nat, from: real, d: real, a: real, b: real)
    requires from <= a <= b <= from + d
    ensures Earned(max, b) - Earned(max, a) <= d * (max as real / 60.0)
  {
    RefillIsEarned(max, from, a);
    RefillIsEarned(max, b, from + d);
    RefillIsEarned(max, from, from + d);
  }

  /** The rate bound: in any interval of d seconds a key is granted at most
      max + d * max / 60 requests, evictions included. */
  lemma RateBound(max: nat, reqs: seq<Request>, k: string, from: real, d: real)
    requires Monotone(reqs) && 0.0 <= d
    ensures CountIn(Grants(reqs, Answers(max, reqs), k), from, from + d) as real
            <= max as real + d * (max as real / 60.0)
  {
    var answers := Answers(max, reqs);
    GrantsAreSorted(reqs, answers, k);
    var g := Grants(reqs, answers, k);
    var i, j := CountIsAStretch(g, from, from + d);
    RunIsExact(max, reqs, true);
    if i < j {
      StretchBound(max, reqs, answers, k, i, j);
      EarnedWithin(max, from, d, g[i], g[j - 1]);
    } else {
      EarnedWithin(max, from, d, from, from);
    }
  }

  // ----- A key's answers depend on its own grants only -----

  function Keep<T>(s: seq<T>, mask: seq<bool>): seq<T>
    requires |s| == |mask|
  {
    if s == [] then [] else
      var n := |s| - 1;
      Keep(s[..n], mask[..n]) + if mask[n] then [s[n]] else []
  }

  lemma {:induction false} KeepIsMonotone(reqs: seq<Request>, mask: seq<bool>)
    requires Monotone(reqs) && |reqs| == |mask|
    ensures Monotone(Keep(reqs, mask))
    ensures forall r | r in Keep(reqs, mask) :: r.at <= reqs[|reqs| - 1].at
  {
    if reqs != [] {
      KeepIsMonotone(reqs[..|reqs| - 1], mask[..|reqs| - 1]);
    }
  }

  function OfKey(reqs: seq<Request>, answers: seq<bool>, mask: seq<bool>, k: string): seq<bool>
    requires |reqs| == |answers| == |mask|
  {
    if reqs == [] then [] else
      var n := |reqs| - 1;
      OfKey(reqs[..n], answers[..n], mask[..n], k) +
      if mask[n] && reqs[n].key == k then [answers[n]] else []
  }

  function AllOfKey(reqs: seq<Request>, answers: seq<bool>, k: string): seq<bool>
    requires |reqs| == |answers|
  {
    OfKey(reqs, answers, seq(|reqs|, i => true), k)
  }

  lemma LastKept(reqs: seq<Request>, answers: seq<bool>, k: string)
    requires |reqs| == |answers| && reqs != []
    ensures var n := |reqs| - 1;
            AllOfKey(reqs, answers, k) ==
            AllOfKey(reqs[..n], answers[..n], k) + if reqs[n].key == k then [answers[n]] else []
  {
    var n := |reqs| - 1;
    assert seq(|reqs|, i => true)[..n] == seq(n, i => true);
  }

  lemma {:induction false} KeptAnswers(max: nat, reqs: seq<Request>, answers: seq<bool>, mask: seq<bool>,
                                       k: string, some: seq<bool>)
    requires |reqs| == |answers| == |mask| && |Keep(reqs, mask)| == |some|
    requires Exact(max, reqs, answers) && Exact(max, Keep(reqs, mask), some)
    requires forall i | 0 <= i < |reqs| && reqs[i].key == k && answers[i] :: mask[i]
    ensures AllOfKey(Keep(reqs, mask), some, k) == OfKey(reqs, answers, mask, k)
    ensures Grants(Keep(reqs, mask), some, k) == Grants(reqs, answers, k)
  {
    if reqs != [] {
      var n := |reqs| - 1;
      var kept, kept' := Keep(reqs, mask), Keep(reqs[..n], mask[..n]);
      var m := |kept'|;
      ExactPrefix(max, reqs, answers, n);
      ExactPrefix(max, kept, some, m);
      assert kept[..m] == kept';
      KeptAnswers(max, reqs[..n], answers[..n], mask[..n], k, some[..m]);
      assert ExactAt(max, reqs, answers, n);
      if mask[n] {
        assert kept == kept' + [reqs[n]];
        assert ExactAt(max, kept, some, m);
        LastKept(kept, some, k);
      } else {
        assert kept == kept' && some[..m] == some;
      }
    }
  }

  /** Deleting any denied requests of a key and any requests of other keys leaves
      every remaining answer to that key as it was. */
  lemma OnlyOwnGrantsMatter(max: nat, reqs: seq<Request>, mask: seq<bool>, k: string)
    requires Monotone(reqs) && |reqs| == |mask|
    requires forall i | 0 <= i < |reqs| && reqs[i].key == k && Answers(max, reqs)[i] :: mask[i]
    ensures var kept := Keep(reqs, mask);
            AllOfKey(kept, Answers(max, kept), k) == OfKey(reqs, Answers(max, reqs), mask, k)
  {
    KeepIsMonotone(reqs, mask);
    RunIsExact(max, reqs, true);
    RunIsExact(max, Keep(reqs, mask), true);
    KeptAnswers(max, reqs, Answers(max, reqs), mask, k, Answers(max, Keep(reqs, mask)));
  }

  // ----- A burst -----

  lemma BurstPermits(max: nat, g: seq<real>, t: real)
    requires forall x | x in g :: x == t
    ensures Permits(max, g, t) <==> |g| < max
  {
    forall i | 0 <= i < |g|
      ensures Fits(max, g, t, i) <==> |g| - i + 1 <= max
    {
      assert g[i] in g;
      assert (t - g[i]) * (max as real) == 0.0;
    }
    if g != [] && Permits(max, g, t) {
      assert Fits(max, g, t, 0);
    }
  }

  /** Requests for one key at one instant are allowed exactly up to the maximum. */
  lemma {:induction false} BurstIsCut(max: nat, reqs: seq<Request>, k: string, t: real)
    requires forall r | r in reqs :: r == Request(k, t)
    ensures forall i | 0 <= i < |reqs| :: Answers(max, reqs)[i] <==> i < max
    ensures |Grants(reqs, Answers(max, reqs), k)| == if |reqs| <= max then |reqs| else max
    ensures forall x | x in Grants(reqs, Answers(max, reqs), k) :: x == t
  {
    if reqs != [] {
      var n := |reqs| - 1;
      assert forall i | 0 <= i < |reqs| :: reqs[i] in reqs;
      BurstIsCut(max, reqs[..n], k, t);
      RunIsExact(max, reqs, true);
      var all := Answers(max, reqs);
      assert all[..n] == Answers(max, reqs[..n]);
      assert ExactAt(max, reqs, all, n);
      BurstPermits(max, Grants(reqs[..n], all[..n], k), t);
    }
  }

  // ----- How fast a bucket refills -----

  /** n grants at the same instant. */
  function Repeated(t: real, n: nat): (g: seq<real>)
    ensures |g| == n && forall i | 0 <= i < n :: g[i] == t
  {
    if n == 0 then [] else Repeated(t, n - 1) + [t]
  }

  lemma PermitsWhenUsedUp(max: nat, g: seq<real>, s: real, t: real)
    requires 1 <= max == |g| && s <= t && forall j | 0 <= j < |g| :: g[j] == s
    ensures Permits(max, g, t) <==> (t - s) * max as real >= 60.0
  {
    assert Fits(max, g, t, 0) <==> 60.0 <= (t - s) * max as real;
    forall j | 0 <= j < |g|
      ensures 60.0 <= (t - s) * max as real ==> Fits(max, g, t, j)
    {
      assert t - g[j] == t - s;
    }
  }

  /** Once a key has used up its maximum at one instant, its next request is allowed
      exactly when the time since then, at max tokens per 60 s, makes up one token. */
  lemma NextTokenAt(max: nat, reqs: seq<Request>, i: nat, k: string, s: real, d: real)
    requires 1 <= max && 0.0 <= d && Monotone(reqs) && i < |reqs| && reqs[i] == Request(k, s + d)
    requires Grants(reqs[..i], Answers(max, reqs)[..i], k) == Repeated(s, max)
    ensures Answers(max, reqs)[i] <==> d * max as real >= 60.0
  {
    RunIsExact(max, reqs, true);
    assert ExactAt(max, reqs, Answers(max, reqs), i);
    PermitsWhenUsedUp(max, Repeated(s, max), s, s + d);
    assert s + d - s == d;
  }

  lemma AllAtOnce(g: seq<real>, s: real)
    requires forall x | x in g :: x == s
    ensures g == Repeated(s, |g|)
  {
    forall j | 0 <= j < |g|
      ensures g[j] == s
    {
      assert g[j] in g;
    }
  }

  lemma {:induction false} AnswersPrefix(max: nat, reqs: seq<Request>, n: nat)
    requires n <= |reqs|
    ensures Answers(max, reqs)[..n] == Answers(max, reqs[..n])
  {
    if n < |reqs| {
      var m := |reqs| - 1;
      AnswersPrefix(max, reqs[..m], n);
      assert reqs[..m][..n] == reqs[..n];
      assert Answers(max, reqs)[..m] == Answers(max, reqs[..m]);
      assert Answers(max, reqs)[..n] == Answers(max, reqs)[..m][..n];
    } else {
      assert reqs[..n] == reqs;
    }
  }

  /** So for a fresh key: max requests at once are allowed, and then one more at s + d
      exactly when d * max >= 60. */
  lemma NextTokenAfterBurst(max: nat, reqs: seq<Request>, k: string, s: real, d: real)
    requires 1 <= max && 0.0 <= d && |reqs| == max + 1
    requires reqs[max] == Request(k, s + d) && forall i | 0 <= i < max :: reqs[i] == Request(k, s)
    ensures forall i | 0 <= i < max :: Answers(max, reqs)[i]
    ensures Answers(max, reqs)[max] <==> d * max as real >= 60.0
  {
    BurstIsCut(max, reqs[..max], k, s);
    AnswersPrefix(max, reqs, max);
    AllAtOnce(Grants(reqs[..max], Answers(max, reqs)[..max], k), s);
    assert forall i | 0 <= i < max :: Answers(max, reqs)[i] == Answers(max, reqs)[..max][i];
    NextTokenAt(max, reqs, max, k, s, d);
  }

  lemma SixtySecondsFill(max: nat, a: real, t: real)
    requires a <= t - 60.0
    ensures max as real <= Earned(max, t) - Earned(max, a)
  {
    RefillIsEarned(max, a, t);
    RefillIsEarned(max, a, t - 60.0);
    assert Earned(max, t) == Earned(max, t - 60.0) + 60.0 * Rate(max);
  }

  lemma PermitsAfterWindow(max: nat, reqs: seq<Request>, k: string, t: real, j: nat)
    requires Monotone(reqs) && j < max
    requires forall x | x in Grants(reqs, Answers(max, reqs), k) :: x <= t - 60.0
    ensures Permits(max, Grants(reqs, Answers(max, reqs), k) + Repeated(t, j), t)
  {
    var answers := Answers(max, reqs);
    var g := Grants(reqs, answers, k);
    RunIsExact(max, reqs, true);
    var all := g + Repeated(t, j);
    forall i | 0 <= i < |all|
      ensures Fits(max, all, t, i)
    {
      FitsInTokens(max, all, t, i);
      RefillIsEarned(max, all[i], t);
      if i < |g| {
        assert g[|g| - 1] in g;
        StretchBound(max, reqs, answers, k, i, |g|);
        SixtySecondsFill(max, g[|g| - 1], t);
      }
    }
  }

  lemma GrantRecorded(max: nat, reqs: seq<Request>, k: string)
    requires reqs != [] && reqs[|reqs| - 1].key == k && Answers(max, reqs)[|reqs| - 1]
    ensures var m := |reqs| - 1;
            Grants(reqs, Answers(max, reqs), k) == Grants(reqs[..m], Answers(max, reqs[..m]), k) + [reqs[m].at]
  {
    AnswersPrefix(max, reqs, |reqs| - 1);
  }

  lemma OneMore(all: seq<real>, g: seq<real>, j: nat, t: real)
    requires all == g + Repeated(t, j)
    ensures all + [t] == g + Repeated(t, j + 1)
  {
  }

  /** A key with no grant in the last 60 s has a full burst allowed, whatever happened
      before. `n`: where the burst starts. */
  lemma {:induction false} FullBurstAfterWindow(max: nat, reqs: seq<Request>, n: nat, k: string, t: real)
    requires Monotone(reqs) && n <= |reqs| <= n + max
    requires forall i | n <= i < |reqs| :: reqs[i] == Request(k, t)
    requires forall x | x in Grants(reqs[..n], Answers(max, reqs[..n]), k) :: x <= t - 60.0
    ensures forall i | n <= i < |reqs| :: Answers(max, reqs)[i]
    ensures Grants(reqs, Answers(max, reqs), k) ==
            Grants(reqs[..n], Answers(max, reqs[..n]), k) + Repeated(t, |reqs| - n)
  {
    if |reqs| == n {
      assert reqs[..n] == reqs;
    } else {
      var m := |reqs| - 1;
      assert reqs[..m][..n] == reqs[..n];
      FullBurstAfterWindow(max, reqs[..m], n, k, t);
      BurstStep(max, reqs, n, k, t);
      AnswersPrefix(max, reqs, m);
      AllTrueUpTo(Answers(max, reqs), Answers(max, reqs[..m]), n);
    }
  }

  lemma BurstStep(max: nat, reqs: seq<Request>, n: nat, k: string, t: real)
    requires Monotone(reqs) && n < |reqs| <= n + max && reqs[|reqs| - 1] == Request(k, t)
    requires forall x | x in Grants(reqs[..n], Answers(max, reqs[..n]), k) :: x <= t - 60.0
    requires var m := |reqs| - 1;
             Grants(reqs[..m], Answers(max, reqs[..m]), k) ==
             Grants(reqs[..n], Answers(max, reqs[..n]), k) + Repeated(t, m - n)
    ensures Answers(max, reqs)[|reqs| - 1]
    ensures Grants(reqs, Answers(max, reqs), k) ==
            Grants(reqs[..n], Answers(max, reqs[..n]), k) + Repeated(t, |reqs| - n)
  {
    var m := |reqs| - 1;
    AnswersPrefix(max, reqs, m);
    OneMoreInBurst(max, reqs, n, k, t);
    GrantRecorded(max, reqs, k);
    OneMore(Grants(reqs[..m], Answers(max, reqs[..m]), k), Grants(reqs[..n], Answers(max, reqs[..n]), k), m - n, t);
  }

  lemma AllTrueUpTo(all: seq<bool>, before: seq<bool>, n: nat)
    requires |all| == |before| + 1 && all[..|before|] == before && all[|before|]
    requires forall i | n <= i < |before| :: before[i]
    ensures forall i | n <= i < |all| :: all[i]
  {
    assert forall i | 0 <= i < |before| :: all[i] == before[i];
  }

  lemma OneMoreInBurst(max: nat, reqs: seq<Request>, n: nat, k: string, t: real)
    requires Monotone(reqs) && n < |reqs| <= n + max && reqs[|reqs| - 1] == Request(k, t)
    requires forall x | x in Grants(reqs[..n], Answers(max, reqs[..n]), k) :: x <= t - 60.0
    requires var m := |reqs| - 1;
             Grants(reqs[..m], Answers(max, reqs)[..m], k) ==
             Grants(reqs[..n], Answers(max, reqs[..n]), k) + Repeated(t, m - n)
    ensures Answers(max, reqs)[|reqs| - 1]
  {
    LastIsExact(max, reqs);
    PermitsAfterWindow(max, reqs[..n], k, t, |reqs| - 1 - n);
  }

  lemma LastIsExact(max: nat, reqs: seq<Request>)
    requires Monotone(reqs) && reqs != []
    ensures var m := |reqs| - 1;
            Answers(max, reqs)[m] <==> Permits(max, Grants(reqs[..m], Answers(max, reqs)[..m], reqs[m].key), reqs[m].at)
  {
    RunIsExact(max, reqs, true);
    assert ExactAt(max, reqs, Answers(max, reqs), |reqs| - 1);
  }

  /** Another key's bucket survives a call exactly if at most 100 are stored or it was
      used within 300 s. */
  lemma EvictsExactly(max: nat, m: Buckets, r: Request, k: string)
    requires k != r.key
    ensures k in Acquire(max, m, r, true).0 <==> k in m && (|m| <= 100 || r.at - m[k].lastRefill < 300.0)
    ensures k in Acquire(max, m, r, true).0 ==> Acquire(max, m, r, true).0[k] == m[k]
  {
  }

  // ----- The limiter object -----

  ghost predicate SmallOrRecent(m: Buckets, now: real) {
    |m| <= 101 || forall k | k in m :: now - m[k].lastRefill < 300.0
  }

  lemma StaysSmall(max: nat, m: Buckets, r: Request)
    ensures SmallOrRecent(Acquire(max, m, r, true).0, r.at)
  {
    var kept := Evict(m, r.at);
    assert Acquire(max, m, r, true).0.Keys == kept.Keys + {r.key};
  }

  /** `grants` records what the limiter has allowed so far and `clock` the time of
      its last call; both exist for the specification only. */
  class RateLimiter {
    const maxTokens: nat
    var buckets: Buckets
    ghost var grants: History
    ghost var clock: real

    ghost predicate Valid()
      reads this
    {
      Consistent(maxTokens, buckets, grants, clock)
    }

    constructor (requestsPerMinute: nat, ghost now: real)
      ensures Valid() && maxTokens == requestsPerMinute && clock == now
      ensures grants == map[]
    {
      maxTokens := requestsPerMinute;
      buckets, grants, clock := map[], map[], now;
      new;
      forall k: string
        ensures Tracks(maxTokens, buckets, grants, k, clock)
      {
      }
    }

    method EvictStale(now: real)
      modifies `buckets
      ensures buckets == Evict(old(buckets), now)
    {
      if |buckets| > EVICTION_THRESHOLD {
        buckets := map k | k in buckets && now - buckets[k].lastRefill < STALE_SECS :: buckets[k];
      }
    }

    method TryAcquire(key: string, now: real) returns (allowed: bool)
      requires Valid() && clock <= now
      modifies this
      ensures Valid() && clock == now
      ensures allowed <==> Permits(maxTokens, GrantsOf(old(grants), key), now)
      ensures grants == Record(old(grants), key, now, allowed)
      ensures (buckets, allowed) == Acquire(maxTokens, old(buckets), Request(key, now), true)
      ensures SmallOrRecent(buckets, now)
    {
      AcquireIsPermits(maxTokens, buckets, grants, clock, Request(key, now));
      StaysSmall(maxTokens, buckets, Request(key, now));
      EvictStale(now);
      allowed := Spend(key, now);
      clock, grants := now, Record(grants, key, now, allowed);
    }

    method Spend(key: string, now: real) returns (allowed: bool)
      modifies `buckets
      ensures (buckets, allowed) == Take(maxTokens, old(buckets), Request(key, now))
    {
      if key !in buckets {
        buckets := buckets[key := Bucket(maxTokens as real, now)];
      }
      var bucket := Refill(maxTokens, buckets[key], now);
      allowed := bucket.tokens >= 1.0;
      if allowed {
        bucket := bucket.(tokens := bucket.tokens - 1.0);
      }
      buckets := buckets[key := bucket];
      assert buckets == old(buckets)[key := bucket];
    }
  }
}
