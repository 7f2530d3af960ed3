/** The evaluator's per-caller token bucket with idle reaping (internal/aclapi/api.go). Seconds and
    tokens are reals; now never runs backward. */
module Bucket {
  import opened Common

  const SWEEP_INTERVAL := 60.0
  const IDLE_TTL := 600.0

  /** reaps says whether idle buckets are dropped, as the code does; a limiter that never reaps is what
      it is compared with. newRateLimiter disables the limiter unless both are positive. */
  datatype Params = Params(rps: real, burst: nat, reaps: bool)
  datatype Tokens = Tokens(tokens: real, last: real)
  datatype Limiter = Limiter(bkts: map<string, Tokens>, lastSweep: real)
  datatype Call = Call(key: string, now: real)

  predicate Enabled(p: Params) {
    p.rps > 0.0 && p.burst > 0
  }

  const FRESH := Limiter(map[], -1000000.0)

  function MinReal(a: real, b: real): real { if a <= b then a else b }

  function Ceil(x: real): (n: int)
    ensures n as real >= x
  {
    -((-x).Floor)
  }

  /** What d idle seconds earn. */
  function Gain(p: Params, d: real): real {
    p.rps * d
  }

  lemma GainGrows(p: Params, a: real, b: real)
    requires Enabled(p)
    ensures Gain(p, a + b) == Gain(p, a) + Gain(p, b)
    ensures a <= b ==> Gain(p, a) <= Gain(p, b)
    ensures Gain(p, 0.0) == 0.0
  {
    assert a <= b ==> p.rps * (b - a) >= 0.0;
  }

  // ---------- allow ----------

  function Sweep(p: Params, l: Limiter, now: real): Limiter {
    if p.reaps && now - l.lastSweep >= SWEEP_INTERVAL then
      Limiter(map k | k in l.bkts && now - l.bkts[k].last < IDLE_TTL :: l.bkts[k], now)
    else l
  }

  /** The bucket as of now. */
  function Filled(p: Params, l: Limiter, key: string, now: real): Tokens {
    if key !in l.bkts then Tokens(p.burst as real, now)
    else
      var b := l.bkts[key];
      if now - b.last > 0.0 then Tokens(MinReal(b.tokens + Gain(p, now - b.last), p.burst as real), now) else b
  }

  function Retry(p: Params, b: Tokens): int
    requires Enabled(p)
  {
    Max(1, Ceil((1.0 - b.tokens) / p.rps))
  }

  /** allow: the limiter afterwards, the decision, the Retry-After hint. */
  function AllowStep(p: Params, l: Limiter, c: Call): (Limiter, bool, int)
    requires Enabled(p)
  {
    var s := Sweep(p, l, c.now);
    var b := Filled(p, s, c.key, c.now);
    if b.tokens < 1.0 then (s.(bkts := s.bkts[c.key := b]), false, Retry(p, b))
    else (s.(bkts := s.bkts[c.key := b.(tokens := b.tokens - 1.0)]), true, 0)
  }

  function After(p: Params, l: Limiter, calls: seq<Call>): Limiter
    requires Enabled(p)
    decreases |calls|
  {
    if calls == [] then l else After(p, AllowStep(p, l, calls[0]).0, calls[1..])
  }

  function Decisions(p: Params, l: Limiter, calls: seq<Call>): seq<bool>
    requires Enabled(p)
    decreases |calls|
  {
    if calls == [] then [] else [AllowStep(p, l, calls[0]).1] + Decisions(p, AllowStep(p, l, calls[0]).0, calls[1..])
  }

  /** Times start no earlier than from, end no later than until, and never run backward. */
  predicate Ordered(calls: seq<Call>, from: real, until: real)
    decreases |calls|
  {
    if calls == [] then from <= until else from <= calls[0].now && Ordered(calls[1..], calls[0].now, until)
  }

  // ---------- the invariant ----------

  predicate BucketOk(p: Params, b: Tokens, now: real) {
    0.0 <= b.tokens <= p.burst as real && b.last <= now
  }

  ghost predicate Ok(p: Params, l: Limiter, now: real) {
    l.lastSweep <= now && forall k | k in l.bkts :: BucketOk(p, l.bkts[k], now)
  }

  lemma FilledOk(p: Params, l: Limiter, key: string, now: real)
    requires Enabled(p) && (key in l.bkts ==> BucketOk(p, l.bkts[key], now))
    ensures BucketOk(p, Filled(p, l, key, now), now) && Filled(p, l, key, now).last == now
  {
    if key in l.bkts { GainGrows(p, 0.0, now - l.bkts[key].last); }
  }

  lemma AllowOk(p: Params, l: Limiter, c: Call, from: real)
    requires Enabled(p) && Ok(p, l, from) && from <= c.now
    ensures Ok(p, AllowStep(p, l, c).0, c.now)
  {
    FilledOk(p, Sweep(p, l, c.now), c.key, c.now);
  }

  // ---------- the rate bound ----------

  /** What the key could spend at a moment. */
  function Available(p: Params, l: Limiter, key: string, at: real): real {
    if key !in l.bkts then p.burst as real
    else MinReal(l.bkts[key].tokens + Gain(p, at - l.bkts[key].last), p.burst as real)
  }

  function Allows(p: Params, l: Limiter, calls: seq<Call>, key: string): nat
    requires Enabled(p)
    decreases |calls|
  {
    if calls == [] then 0
    else
      (if calls[0].key == key && AllowStep(p, l, calls[0]).1 then 1 else 0) + Allows(p, AllowStep(p, l, calls[0]).0, calls[1..], key)
  }

  /** No sweep of the run drops the key's bucket. */
  predicate NotReaped(p: Params, l: Limiter, calls: seq<Call>, key: string)
    requires Enabled(p)
    decreases |calls|
  {
    calls == [] || ((key in l.bkts ==> key in Sweep(p, l, calls[0].now).bkts) && NotReaped(p, AllowStep(p, l, calls[0]).0, calls[1..], key))
  }

  lemma AvailableGrows(p: Params, l: Limiter, key: string, s: real, t: real)
    requires Enabled(p) && s <= t
    ensures Available(p, l, key, t) <= Available(p, l, key, s) + Gain(p, t - s)
  {
    GainGrows(p, 0.0, t - s);
    if key in l.bkts { GainGrows(p, s - l.bkts[key].last, t - s); }
  }

  lemma AvailableStep(p: Params, l: Limiter, c: Call, key: string, from: real)
    requires Enabled(p) && Ok(p, l, from) && from <= c.now && (key in l.bkts ==> key in Sweep(p, l, c.now).bkts)
    ensures Available(p, AllowStep(p, l, c).0, key, c.now)
         <= Available(p, l, key, c.now) - if c.key == key && AllowStep(p, l, c).1 then 1.0 else 0.0
  {
    GainGrows(p, 0.0, 0.0);
    FilledOk(p, Sweep(p, l, c.now), c.key, c.now);
    if key in l.bkts { GainGrows(p, 0.0, c.now - l.bkts[key].last); }
  }

  /** In any stretch of d seconds in which its bucket is not reaped, a caller is allowed at most
      burst + rps * d calls. */
  lemma {:induction false} RateBound(p: Params, l: Limiter, calls: seq<Call>, key: string, from: real, until: real)
    requires Enabled(p) && Ok(p, l, from) && Ordered(calls, from, until) && NotReaped(p, l, calls, key)
    ensures from <= until && Allows(p, l, calls, key) as real <= Available(p, l, key, from) + Gain(p, until - from)
    ensures Allows(p, l, calls, key) as real <= p.burst as real + Gain(p, until - from)
    decreases |calls|
  {
    GainGrows(p, 0.0, until - from);
    AvailableNonNegative(p, l, key, from);
    if calls != [] {
      var c := calls[0];
      AllowOk(p, l, c, from);
      AvailableStep(p, l, c, key, from);
      AvailableGrows(p, l, key, from, c.now);
      RateBound(p, AllowStep(p, l, c).0, calls[1..], key, c.now, until);
      GainGrows(p, c.now - from, until - c.now);
    }
  }

  lemma AvailableNonNegative(p: Params, l: Limiter, key: string, at: real)
    requires Enabled(p) && Ok(p, l, at)
    ensures 0.0 <= Available(p, l, key, at) <= p.burst as real
  {
    if key in l.bkts { GainGrows(p, 0.0, at - l.bkts[key].last); }
  }

  // ---------- Retry-After ----------

  /** Other callers' calls leave the bucket alone or reap it. */
  lemma {:induction false} OthersKeep(p: Params, l: Limiter, calls: seq<Call>, key: string)
    requires Enabled(p) && forall i :: 0 <= i < |calls| ==> calls[i].key != key
    ensures var l' := After(p, l, calls); key in l'.bkts ==> key in l.bkts && l'.bkts[key] == l.bkts[key]
    decreases |calls|
  {
    if calls != [] { OthersKeep(p, AllowStep(p, l, calls[0]).0, calls[1..], key); }
  }

  lemma DivBack(a: real, b: real)
    requires b > 0.0
    ensures b * (a / b) == a
  {}

  lemma WaitedEnough(p: Params, l: Limiter, key: string, b: Tokens, again: real)
    requires Enabled(p) && b.tokens < 1.0 && (key in l.bkts ==> l.bkts[key] == b)
    requires again >= b.last + Retry(p, b) as real
    ensures AllowStep(p, l, Call(key, again)).1
  {
    var wait := (1.0 - b.tokens) / p.rps;
    DivBack(1.0 - b.tokens, p.rps);
    GainGrows(p, wait, again - b.last);
  }

  /** After a denial, a call at least the hint later, with none by the same caller in between, is allowed. */
  lemma RetryIsEnough(p: Params, l: Limiter, c: Call, between: seq<Call>, again: real)
    requires Enabled(p) && Ok(p, l, c.now) && !AllowStep(p, l, c).1
    requires forall i :: 0 <= i < |between| ==> between[i].key != c.key
    requires again >= c.now + AllowStep(p, l, c).2 as real
    ensures AllowStep(p, After(p, AllowStep(p, l, c).0, between), Call(c.key, again)).1
  {
    var denied := AllowStep(p, l, c).0;
    FilledOk(p, Sweep(p, l, c.now), c.key, c.now);
    OthersKeep(p, denied, between, c.key);
    WaitedEnough(p, After(p, denied, between), c.key, denied.bkts[c.key], again);
  }

  /** A waiting bucket holds a token again exactly when the missing part has been earned. */
  lemma EarnedIff(p: Params, b: Tokens, wait: real)
    requires Enabled(p) && b.tokens < 1.0
    ensures Gain(p, wait) >= 1.0 - b.tokens <==> wait >= (1.0 - b.tokens) / p.rps
  {
    var need := (1.0 - b.tokens) / p.rps;
    DivBack(1.0 - b.tokens, p.rps);
    if wait >= need { GainGrows(p, need, wait - need); } else { StrictGain(p, wait, need); }
  }

  lemma StrictGain(p: Params, a: real, b: real)
    requires Enabled(p) && a < b
    ensures Gain(p, a) < Gain(p, b)
  {
    assert p.rps * (b - a) > 0.0;
    GainGrows(p, a, b - a);
  }

  lemma HintIs(p: Params, b: Tokens, n: nat)
    requires Enabled(p) && b.tokens < 1.0 && n >= 1
    ensures n >= Retry(p, b) <==> n as real >= (1.0 - b.tokens) / p.rps
  {
    var need := (1.0 - b.tokens) / p.rps;
    CeilLeast(need, n);
  }

  lemma CeilLeast(x: real, n: int)
    ensures n >= Ceil(x) <==> n as real >= x
  {
    var f := (-x).Floor;
    assert f as real <= -x < f as real + 1.0;
    if n < -f { assert n + 1 <= -f; assert (n + 1) as real <= (-f) as real; }
  }

  /** The hint is the least: after any whole number of seconds, at least one, the denied caller is let in if
      and only if the hint is over, or its bucket has been reaped meanwhile. */
  lemma RetryIsLeast(p: Params, l: Limiter, c: Call, n: nat)
    requires Enabled(p) && Ok(p, l, c.now) && !AllowStep(p, l, c).1 && n >= 1
    ensures var denied := AllowStep(p, l, c).0;
      var again := c.now + n as real;
      AllowStep(p, denied, Call(c.key, again)).1 <==> n >= AllowStep(p, l, c).2 || c.key !in Sweep(p, denied, again).bkts
  {
    var denied := AllowStep(p, l, c).0;
    var b := denied.bkts[c.key];
    FilledOk(p, Sweep(p, l, c.now), c.key, c.now);
    assert b.last == c.now;
    HintIs(p, b, n);
    EarnedIff(p, b, n as real);
  }

  // ---------- one call ----------

  /** A call that finds the bucket is let in exactly when a token is there, and takes exactly one; a caller
      without a bucket starts with the whole burst. Nobody else's tokens change. */
  lemma AllowTakesOne(p: Params, l: Limiter, c: Call, key: string)
    requires Enabled(p) && Ok(p, l, c.now) && (key in l.bkts ==> key in Sweep(p, l, c.now).bkts)
    requires c.key in l.bkts ==> c.key in Sweep(p, l, c.now).bkts
    ensures var (after, ok, _) := AllowStep(p, l, c);
      && (ok <==> Available(p, l, c.key, c.now) >= 1.0)
      && Available(p, after, key, c.now) == Available(p, l, key, c.now) - if key == c.key && ok then 1.0 else 0.0
  {
    GainGrows(p, 0.0, 0.0);
    FilledOk(p, Sweep(p, l, c.now), c.key, c.now);
    if c.key in l.bkts { GainGrows(p, 0.0, c.now - l.bkts[c.key].last); }
  }

  // ---------- reaping ----------

  /** The same bucket, or one that was dropped although it would be full again by now. */
  predicate Twin(p: Params, reaped: Limiter, kept: Limiter, now: real, k: string) {
    if k in reaped.bkts then k in kept.bkts && kept.bkts[k] == reaped.bkts[k]
    else k in kept.bkts ==> now - kept.bkts[k].last > 0.0 && kept.bkts[k].tokens + Gain(p, now - kept.bkts[k].last) >= p.burst as real
  }

  /** Twins are filled to the same level. */
  lemma TwinFilled(p: Params, q: Params, reaped: Limiter, kept: Limiter, now: real, k: string)
    requires Enabled(p) && q == p.(reaps := false) && Twin(p, reaped, kept, now, k)
    ensures Filled(p, reaped, k, now) == Filled(q, kept, k, now)
  {
    assert forall d :: Gain(p, d) == Gain(q, d);
  }

  lemma TwinStep(p: Params, q: Params, reaped: Limiter, kept: Limiter, c: Call, from: real, k: string)
    requires Enabled(p) && p.reaps && q == p.(reaps := false) && p.burst as real <= Gain(p, IDLE_TTL)
    requires Ok(p, reaped, from) && Ok(q, kept, from) && from <= c.now
    requires Twin(p, reaped, kept, from, k) && Twin(p, reaped, kept, from, c.key)
    ensures Twin(p, AllowStep(p, reaped, c).0, AllowStep(q, kept, c).0, c.now, k)
    ensures AllowStep(p, reaped, c).1 == AllowStep(q, kept, c).1
  {
    var swept := Sweep(p, reaped, c.now);
    SweepTwin(p, reaped, kept, c.now, from, k);
    SweepTwin(p, reaped, kept, c.now, from, c.key);
    TwinFilled(p, q, swept, kept, c.now, c.key);
    assert Sweep(q, kept, c.now) == kept;
  }

  lemma SweepTwin(p: Params, reaped: Limiter, kept: Limiter, now: real, from: real, k: string)
    requires Enabled(p) && p.reaps && p.burst as real <= Gain(p, IDLE_TTL) && from <= now
    requires Ok(p, reaped, from) && Twin(p, reaped, kept, from, k)
    ensures Twin(p, Sweep(p, reaped, now), kept, now, k)
  {
    if k in kept.bkts {
      GainGrows(p, from - kept.bkts[k].last, now - from);
      GainGrows(p, 0.0, now - from);
      GainGrows(p, IDLE_TTL, now - kept.bkts[k].last);
    }
  }

  lemma {:induction false} SameWithoutReaping(p: Params, q: Params, reaped: Limiter, kept: Limiter, calls: seq<Call>, from: real, until: real)
    requires Enabled(p) && p.reaps && q == p.(reaps := false) && p.burst as real <= Gain(p, IDLE_TTL)
    requires Ok(p, reaped, from) && Ok(q, kept, from) && Ordered(calls, from, until)
    requires forall k {:trigger Twin(p, reaped, kept, from, k)} :: Twin(p, reaped, kept, from, k)
    ensures Decisions(p, reaped, calls) == Decisions(q, kept, calls)
    decreases |calls|
  {
    if calls != [] {
      var c := calls[0];
      var r, k := AllowStep(p, reaped, c).0, AllowStep(q, kept, c).0;
      forall x ensures Twin(p, r, k, c.now, x) {
        assert Twin(p, reaped, kept, from, x) && Twin(p, reaped, kept, from, c.key);
        TwinStep(p, q, reaped, kept, c, from, x);
      }
      assert Twin(p, reaped, kept, from, c.key);
      TwinStep(p, q, reaped, kept, c, from, c.key);
      AllowOk(p, reaped, c, from);
      AllowOk(q, kept, c, from);
      SameWithoutReaping(p, q, r, k, calls[1..], c.now, until);
    }
  }

  // ---------- exactly when reaping shows ----------

  function Repeat(c: Call, n: nat): seq<Call> {
    if n == 0 then [] else [c] + Repeat(c, n - 1)
  }

  predicate AllTrue(ds: seq<bool>) {
    forall i :: 0 <= i < |ds| ==> ds[i]
  }

  /** The limiter with n tokens of one bucket gone. */
  function Spent(p: Params, l: Limiter, c: Call, n: nat): Limiter {
    var s := Sweep(p, l, c.now);
    s.(bkts := s.bkts[c.key := Tokens(Filled(p, s, c.key, c.now).tokens - n as real, c.now)])
  }

  /** n calls at one moment are all allowed when the bucket holds n tokens. */
  lemma {:induction false} Drains(p: Params, l: Limiter, c: Call, n: nat)
    requires Enabled(p) && Filled(p, Sweep(p, l, c.now), c.key, c.now).tokens >= n as real
    requires c.key in l.bkts ==> l.bkts[c.key].last <= c.now
    ensures AllTrue(Decisions(p, l, Repeat(c, n))) && |Decisions(p, l, Repeat(c, n))| == n
    ensures n > 0 ==> After(p, l, Repeat(c, n)) == Spent(p, l, c, n)
    decreases n
  {
    if n > 0 {
      var next := AllowStep(p, l, c).0;
      assert Sweep(p, next, c.now) == next;
      assert Repeat(c, n)[1..] == Repeat(c, n - 1);
      Drains(p, next, c, n - 1);
    }
  }

  lemma {:induction false} DecisionsConcat(p: Params, l: Limiter, a: seq<Call>, b: seq<Call>)
    requires Enabled(p)
    ensures Decisions(p, l, a + b) == Decisions(p, l, a) + Decisions(p, After(p, l, a), b)
    decreases |a|
  {
    if a == [] {
      assert a + b == b;
    } else {
      assert (a + b)[1..] == a[1..] + b;
      DecisionsConcat(p, AllowStep(p, l, a[0]).0, a[1..], b);
    }
  }

  lemma {:induction false} AllTrueCounts(p: Params, l: Limiter, c: Call, n: nat)
    requires Enabled(p) && AllTrue(Decisions(p, l, Repeat(c, n)))
    ensures Allows(p, l, Repeat(c, n), c.key) == n
    decreases n
  {
    if n > 0 {
      var ds := Decisions(p, l, Repeat(c, n));
      assert Repeat(c, n)[1..] == Repeat(c, n - 1);
      assert ds[0] && ds[1..] == Decisions(p, AllowStep(p, l, c).0, Repeat(c, n - 1));
      AllTrueCounts(p, AllowStep(p, l, c).0, c, n - 1);
    }
  }

  lemma {:induction false} RepeatOrdered(c: Call, n: nat, from: real)
    requires from <= c.now
    ensures Ordered(Repeat(c, n), from, c.now)
  {
    if n > 0 {
      assert Repeat(c, n)[1..] == Repeat(c, n - 1);
      RepeatOrdered(c, n - 1, c.now);
    }
  }

  lemma {:induction false} OrderedConcat(a: seq<Call>, b: seq<Call>, from: real, mid: real, until: real)
    requires Ordered(a, from, mid) && Ordered(b, mid, until)
    ensures Ordered(a + b, from, until)
    decreases |a|
  {
    if a == [] {
      assert a + b == b;
    } else {
      assert (a + b)[1..] == a[1..] + b;
      OrderedConcat(a[1..], b, a[0].now, mid, until);
    }
  }

  lemma {:induction false} NeverReaped(p: Params, l: Limiter, calls: seq<Call>, key: string)
    requires Enabled(p) && !p.reaps
    ensures NotReaped(p, l, calls, key)
    decreases |calls|
  {
    if calls != [] { NeverReaped(p, AllowStep(p, l, calls[0]).0, calls[1..], key); }
  }

  const DRAIN := Call("a", 0.0)
  const LATER := Call("a", 600.0)

  /** A drained bucket that is reaped before it would have refilled hands out a second full burst. */
  lemma EarlyReapShows(p: Params, q: Params)
    requires Enabled(p) && p.reaps && q == p.(reaps := false) && p.burst as real > Gain(p, IDLE_TTL)
    ensures Ordered(Repeat(DRAIN, p.burst) + Repeat(LATER, p.burst), 0.0, 600.0)
    ensures Decisions(p, FRESH, Repeat(DRAIN, p.burst) + Repeat(LATER, p.burst))
         != Decisions(q, FRESH, Repeat(DRAIN, p.burst) + Repeat(LATER, p.burst))
  {
    var n := p.burst;
    var first, second := Repeat(DRAIN, n), Repeat(LATER, n);
    RepeatOrdered(DRAIN, n, 0.0);
    RepeatOrdered(LATER, n, 0.0);
    OrderedConcat(first, second, 0.0, 0.0, 600.0);
    Drains(p, FRESH, DRAIN, n);
    Drains(q, FRESH, DRAIN, n);
    DecisionsConcat(p, FRESH, first, second);
    DecisionsConcat(q, FRESH, first, second);
    Drains(p, After(p, FRESH, first), LATER, n);
    SecondBurstDenied(q, After(q, FRESH, first));
    assert |Decisions(p, FRESH, first)| == |Decisions(q, FRESH, first)| == n;
    var dp, dq := Decisions(p, After(p, FRESH, first), second), Decisions(q, After(q, FRESH, first), second);
    assert dp != dq;
    assert (Decisions(p, FRESH, first) + dp)[n..] == dp && (Decisions(q, FRESH, first) + dq)[n..] == dq;
  }

  lemma SecondBurstDenied(q: Params, l: Limiter)
    requires Enabled(q) && !q.reaps && q.burst as real > Gain(q, IDLE_TTL)
    requires l.bkts == map["a" := Tokens(0.0, 0.0)] && l.lastSweep <= 600.0
    ensures !AllTrue(Decisions(q, l, Repeat(LATER, q.burst)))
  {
    RepeatOrdered(LATER, q.burst, 600.0);
    NeverReaped(q, l, Repeat(LATER, q.burst), "a");
    RateBound(q, l, Repeat(LATER, q.burst), "a", 600.0, 600.0);
    GainGrows(q, 0.0, 0.0);
    if AllTrue(Decisions(q, l, Repeat(LATER, q.burst))) { AllTrueCounts(q, l, LATER, q.burst); }
  }

  /** Allowed calls are counted off the decisions. */
  lemma {:induction false} SameAllows(p: Params, l: Limiter, q: Params, m: Limiter, calls: seq<Call>, key: string)
    requires Enabled(p) && Enabled(q) && Decisions(p, l, calls) == Decisions(q, m, calls)
    ensures Allows(p, l, calls, key) == Allows(q, m, calls, key)
    decreases |calls|
  {
    if calls != [] {
      var dp, dq := Decisions(p, l, calls), Decisions(q, m, calls);
      assert dp[0] == dq[0] && dp[1..] == dq[1..];
      SameAllows(p, AllowStep(p, l, calls[0]).0, q, AllowStep(q, m, calls[0]).0, calls[1..], key);
    }
  }

  lemma {:induction false} AfterOk(p: Params, l: Limiter, calls: seq<Call>, from: real, until: real)
    requires Enabled(p) && Ok(p, l, from) && Ordered(calls, from, until)
    ensures from <= until && Ok(p, After(p, l, calls), until)
    decreases |calls|
  {
    if calls != [] {
      AllowOk(p, l, calls[0], from);
      AfterOk(p, AllowStep(p, l, calls[0]).0, calls[1..], calls[0].now, until);
    }
  }

  /** The rest of a run is decided as without reaping too. */
  lemma SameAfterwards(p: Params, q: Params, before: seq<Call>, calls: seq<Call>, from: real, until: real)
    requires Enabled(p) && p.reaps && q == p.(reaps := false) && p.burst as real <= Gain(p, IDLE_TTL)
    requires Ordered(before, 0.0, from) && Ordered(calls, from, until)
    ensures Decisions(p, After(p, FRESH, before), calls) == Decisions(q, After(q, FRESH, before), calls)
  {
    OrderedConcat(before, calls, 0.0, from, until);
    SameWithoutReaping(p, q, FRESH, FRESH, before + calls, 0.0, until);
    DecisionsSplit(p, FRESH, before, calls);
    DecisionsSplit(q, FRESH, before, calls);
  }

  lemma DecisionsSplit(p: Params, l: Limiter, a: seq<Call>, b: seq<Call>)
    requires Enabled(p)
    ensures |a| <= |Decisions(p, l, a + b)| && Decisions(p, l, a + b)[|a|..] == Decisions(p, After(p, l, a), b)
  {
    DecisionsConcat(p, l, a, b);
    DecisionsLength(p, l, a);
  }

  lemma BoundOfRun(p: Params, before: seq<Call>, calls: seq<Call>, key: string, from: real, until: real)
    requires Enabled(p) && !p.reaps && Ordered(before, 0.0, from) && Ordered(calls, from, until)
    ensures from <= until && Allows(p, After(p, FRESH, before), calls, key) as real <= p.burst as real + Gain(p, until - from)
  {
    AfterOk(p, FRESH, before, 0.0, from);
    NeverReaped(p, After(p, FRESH, before), calls, key);
    RateBound(p, After(p, FRESH, before), calls, key, from, until);
  }

  lemma BoundOfReaped(p: Params, q: Params, before: seq<Call>, calls: seq<Call>, key: string, from: real, until: real)
    requires Enabled(p) && p.reaps && q == p.(reaps := false) && p.burst as real <= Gain(p, IDLE_TTL)
    requires Ordered(before, 0.0, from) && Ordered(calls, from, until)
    ensures from <= until && Allows(p, After(p, FRESH, before), calls, key) as real <= p.burst as real + Gain(p, until - from)
  {
    var l, m := After(p, FRESH, before), After(q, FRESH, before);
    SameAfterwards(p, q, before, calls, from, until);
    SameAllows(p, l, q, m, calls, key);
    BoundOfRun(q, before, calls, key, from, until);
    SameGain(p, q, until - from);
  }

  lemma SameGain(p: Params, q: Params, d: real)
    requires p.rps == q.rps
    ensures Gain(p, d) == Gain(q, d)
  {}

  lemma {:induction false} AllowsConcat(p: Params, l: Limiter, a: seq<Call>, b: seq<Call>, key: string)
    requires Enabled(p)
    ensures Allows(p, l, a + b, key) == Allows(p, l, a, key) + Allows(p, After(p, l, a), b, key)
    decreases |a|
  {
    if a == [] {
      assert a + b == b;
    } else {
      assert (a + b)[1..] == a[1..] + b;
      AllowsConcat(p, AllowStep(p, l, a[0]).0, a[1..], b, key);
    }
  }

  /** A bucket reaped early allows two full bursts within one idle period. */
  lemma TwoBursts(p: Params)
    requires Enabled(p) && p.reaps
    ensures Ordered(Repeat(DRAIN, p.burst) + Repeat(LATER, p.burst), 0.0, 600.0)
    ensures Allows(p, FRESH, Repeat(DRAIN, p.burst) + Repeat(LATER, p.burst), "a") == p.burst + p.burst
  {
    var n := p.burst;
    var first, second := Repeat(DRAIN, n), Repeat(LATER, n);
    RepeatOrdered(DRAIN, n, 0.0);
    RepeatOrdered(LATER, n, 0.0);
    OrderedConcat(first, second, 0.0, 0.0, 600.0);
    Drains(p, FRESH, DRAIN, n);
    Drains(p, After(p, FRESH, first), LATER, n);
    AllTrueCounts(p, FRESH, DRAIN, n);
    AllTrueCounts(p, After(p, FRESH, first), LATER, n);
    AllowsConcat(p, FRESH, first, second, "a");
  }

  /** The calls of a key in one stretch of a run are within burst + rps * d. */
  ghost predicate Bounded(p: Params, before: seq<Call>, calls: seq<Call>, key: string, from: real, until: real)
    requires Enabled(p)
  {
    Ordered(before, 0.0, from) && Ordered(calls, from, until) ==>
      Allows(p, After(p, FRESH, before), calls, key) as real <= p.burst as real + Gain(p, until - from)
  }

  /** With reaping, a caller is allowed at most burst + rps * d calls in every stretch of d seconds of every
      run, exactly when an idle period refills the bucket. */
  lemma RateBoundIff(p: Params)
    requires Enabled(p) && p.reaps
    ensures (forall before, calls, key, from, until :: Bounded(p, before, calls, key, from, until)) <==> p.burst as real <= p.rps * IDLE_TTL
  {
    if p.burst as real <= Gain(p, IDLE_TTL) {
      forall before, calls, key, from, until ensures Bounded(p, before, calls, key, from, until) {
        if Ordered(before, 0.0, from) && Ordered(calls, from, until) {
          BoundOfReaped(p, p.(reaps := false), before, calls, key, from, until);
        }
      }
    } else {
      TwoBursts(p);
      assert !Bounded(p, [], Repeat(DRAIN, p.burst) + Repeat(LATER, p.burst), "a", 0.0, 600.0);
    }
  }

  ghost predicate ReapingInvisible(p: Params)
    requires Enabled(p)
  {
    forall calls: seq<Call>, until: real {:trigger Ordered(calls, 0.0, until)} | Ordered(calls, 0.0, until) ::
      Decisions(p, FRESH, calls) == Decisions(p.(reaps := false), FRESH, calls)
  }

  /** Reaping changes no decision, on any sequence of calls, exactly when an idle period refills the bucket. */
  lemma ReapingInvisibleIff(p: Params)
    requires Enabled(p) && p.reaps
    ensures ReapingInvisible(p) <==> p.burst as real <= p.rps * IDLE_TTL
  {
    var q := p.(reaps := false);
    if p.burst as real <= Gain(p, IDLE_TTL) {
      forall calls: seq<Call>, until: real | Ordered(calls, 0.0, until) ensures Decisions(p, FRESH, calls) == Decisions(q, FRESH, calls) {
        SameWithoutReaping(p, q, FRESH, FRESH, calls, 0.0, until);
      }
    } else {
      EarlyReapShows(p, q);
    }
  }

  // ---------- and exactly when it can be stricter ----------

  /** Everything the first list allows, the second allows too. */
  predicate Allowed(strict: seq<bool>, lax: seq<bool>) {
    |strict| == |lax| && forall i :: 0 <= i < |strict| && strict[i] ==> lax[i]
  }

  /** Reaping never denies a call that the limiter without it allows. */
  ghost predicate NeverStricter(p: Params)
    requires Enabled(p)
  {
    forall calls: seq<Call>, until: real {:trigger Ordered(calls, 0.0, until)} | Ordered(calls, 0.0, until) ::
      Allowed(Decisions(p.(reaps := false), FRESH, calls), Decisions(p, FRESH, calls))
  }

  lemma {:induction false} DecisionsLength(p: Params, l: Limiter, calls: seq<Call>)
    requires Enabled(p)
    ensures |Decisions(p, l, calls)| == |calls|
    decreases |calls|
  {
    if calls != [] { DecisionsLength(p, AllowStep(p, l, calls[0]).0, calls[1..]); }
  }

  lemma {:induction false} AfterConcat(p: Params, l: Limiter, a: seq<Call>, b: seq<Call>)
    requires Enabled(p)
    ensures After(p, l, a + b) == After(p, After(p, l, a), b)
    decreases |a|
  {
    if a == [] {
      assert a + b == b;
    } else {
      assert (a + b)[1..] == a[1..] + b;
      AfterConcat(p, AllowStep(p, l, a[0]).0, a[1..], b);
    }
  }

  /** The decision on a call made after others. */
  lemma LastDecision(p: Params, l: Limiter, calls: seq<Call>, c: Call)
    requires Enabled(p)
    ensures |Decisions(p, l, calls + [c])| == |calls| + 1
    ensures Decisions(p, l, calls + [c])[|calls|] == AllowStep(p, After(p, l, calls), c).1
  {
    DecisionsConcat(p, l, calls, [c]);
    DecisionsLength(p, l, calls);
    assert [c][1..] == [];
  }

  /** n calls at one moment on a bucket with m whole tokens and a fraction leave the fraction, when n >= m. */
  lemma {:induction false} LeavesFraction(q: Params, l: Limiter, c: Call, n: nat, m: nat, f: real)
    requires Enabled(q) && !q.reaps && 0.0 <= f < 1.0 && n >= m
    requires Filled(q, l, c.key, c.now) == Tokens(m as real + f, c.now)
    ensures Filled(q, After(q, l, Repeat(c, n)), c.key, c.now) == Tokens(f, c.now)
    ensures n > 0 ==> c.key in After(q, l, Repeat(c, n)).bkts && After(q, l, Repeat(c, n)).bkts[c.key] == Tokens(f, c.now)
    decreases n
  {
    if n > 0 {
      assert Repeat(c, n)[1..] == Repeat(c, n - 1);
      LeavesFraction(q, AllowStep(q, l, c).0, c, n - 1, if m > 0 then m - 1 else 0, f);
    }
  }

  /** A moment at which a drained bucket is due to be reaped and, without reaping, holds a whole number
      of tokens and all but eps of another; earning eps takes less than the TTL. */
  predicate Moment(p: Params, m: nat, eps: real, at: real, wait: real) {
    && m < p.burst && 0.0 < eps < 1.0 && at >= IDLE_TTL && 0.0 < wait < IDLE_TTL
    && Gain(p, at) == m as real + 1.0 - eps && Gain(p, wait) == eps
  }

  /** The time that earns x, and how it compares with another time. */
  lemma TimeToEarn(p: Params, x: real, d: real)
    requires Enabled(p)
    ensures Gain(p, x / p.rps) == x
    ensures Gain(p, d) < x ==> d < x / p.rps
    ensures x < Gain(p, d) ==> x / p.rps < d
  {
    DivBack(x, p.rps);
    if x / p.rps <= d { GainGrows(p, x / p.rps, d - x / p.rps); GainGrows(p, 0.0, d - x / p.rps); }
    if d <= x / p.rps { GainGrows(p, d, x / p.rps - d); GainGrows(p, 0.0, x / p.rps - d); }
  }

  /** The fraction: half the way to the next whole number above g, or half of g. */
  lemma FindFraction(g: real) returns (m: nat, eps: real)
    requires g > 0.0
    ensures m as real <= g && 0.0 < eps < 1.0 && eps < g < m as real + 1.0 - eps
  {
    m := g.Floor;
    eps := MinReal(m as real + 1.0 - g, g) / 2.0;
  }

  lemma FindMoment(p: Params) returns (m: nat, eps: real, at: real, wait: real)
    requires Enabled(p) && p.burst as real > Gain(p, IDLE_TTL)
    ensures Moment(p, m, eps, at, wait)
  {
    GainGrows(p, 0.0, IDLE_TTL);
    assert Gain(p, IDLE_TTL) > 0.0;
    m, eps := FindFraction(Gain(p, IDLE_TTL));
    at, wait := (m as real + 1.0 - eps) / p.rps, eps / p.rps;
    TimeToEarn(p, m as real + 1.0 - eps, IDLE_TTL);
    TimeToEarn(p, eps, IDLE_TTL);
    TimeToEarn(p, eps, 0.0);
  }

  /** Drain at 0, burst again at the moment, then one call after the wait. */
  function Stricter(p: Params, at: real, wait: real): seq<Call> {
    Repeat(DRAIN, p.burst) + Repeat(Call("a", at), p.burst) + [Call("a", at + wait)]
  }

  lemma StricterOrdered(p: Params, at: real, wait: real)
    requires at >= 0.0 && wait >= 0.0
    ensures Ordered(Stricter(p, at, wait), 0.0, at + wait)
  {
    var c, last := Call("a", at), Call("a", at + wait);
    RepeatOrdered(DRAIN, p.burst, 0.0);
    RepeatOrdered(c, p.burst, 0.0);
    OrderedConcat(Repeat(DRAIN, p.burst), Repeat(c, p.burst), 0.0, 0.0, at);
    assert [last][1..] == [];
    OrderedConcat(Repeat(DRAIN, p.burst) + Repeat(c, p.burst), [last], 0.0, at, at + wait);
  }

  /** With reaping the second burst is handed out whole, and the last call finds less than a token. */
  lemma ReapedDenies(p: Params, m: nat, eps: real, at: real, wait: real)
    requires Enabled(p) && p.reaps && Moment(p, m, eps, at, wait)
    ensures var two := Repeat(DRAIN, p.burst) + Repeat(Call("a", at), p.burst);
      !AllowStep(p, After(p, FRESH, two), Call("a", at + wait)).1
  {
    var c := Call("a", at);
    Drains(p, FRESH, DRAIN, p.burst);
    var drained := After(p, FRESH, Repeat(DRAIN, p.burst));
    Drains(p, drained, c, p.burst);
    AfterConcat(p, FRESH, Repeat(DRAIN, p.burst), Repeat(c, p.burst));
    assert After(p, drained, Repeat(c, p.burst)).bkts["a"] == Tokens(0.0, at);
  }

  /** Without it the second burst stops at the fraction, and the last call finds a whole token. */
  lemma KeptAllows(q: Params, m: nat, eps: real, at: real, wait: real)
    requires Enabled(q) && !q.reaps && Moment(q, m, eps, at, wait)
    ensures var two := Repeat(DRAIN, q.burst) + Repeat(Call("a", at), q.burst);
      AllowStep(q, After(q, FRESH, two), Call("a", at + wait)).1
  {
    var c := Call("a", at);
    Drains(q, FRESH, DRAIN, q.burst);
    var drained := After(q, FRESH, Repeat(DRAIN, q.burst));
    LeavesFraction(q, drained, c, q.burst, m, 1.0 - eps);
    AfterConcat(q, FRESH, Repeat(DRAIN, q.burst), Repeat(c, q.burst));
  }

  /** Whenever an idle period does not refill the bucket, some run has its last call denied with
      reaping and allowed without: the burst handed out early is spent early. */
  lemma ReapingCanDeny(p: Params) returns (calls: seq<Call>, until: real)
    requires Enabled(p) && p.reaps && p.burst as real > p.rps * IDLE_TTL
    ensures Ordered(calls, 0.0, until) && |calls| > 0
    ensures |Decisions(p, FRESH, calls)| == |Decisions(p.(reaps := false), FRESH, calls)| == |calls|
    ensures !Decisions(p, FRESH, calls)[|calls| - 1] && Decisions(p.(reaps := false), FRESH, calls)[|calls| - 1]
  {
    var q := p.(reaps := false);
    var m, eps, at, wait := FindMoment(p);
    var two, last := Repeat(DRAIN, p.burst) + Repeat(Call("a", at), p.burst), Call("a", at + wait);
    calls, until := Stricter(p, at, wait), at + wait;
    StricterOrdered(p, at, wait);
    assert Moment(q, m, eps, at, wait) by { assert Gain(q, at) == Gain(p, at) && Gain(q, wait) == Gain(p, wait); }
    ReapedDenies(p, m, eps, at, wait);
    KeptAllows(q, m, eps, at, wait);
    LastDecision(p, FRESH, two, last);
    LastDecision(q, FRESH, two, last);
  }

  /** "Never stricter" holds exactly when an idle period refills the bucket. */
  lemma NeverStricterIff(p: Params)
    requires Enabled(p) && p.reaps
    ensures NeverStricter(p) <==> p.burst as real <= p.rps * IDLE_TTL
  {
    var q := p.(reaps := false);
    if p.burst as real <= p.rps * IDLE_TTL {
      ReapingInvisibleIff(p);
      forall calls: seq<Call>, until: real | Ordered(calls, 0.0, until)
        ensures Allowed(Decisions(q, FRESH, calls), Decisions(p, FRESH, calls))
      {
        assert Decisions(p, FRESH, calls) == Decisions(q, FRESH, calls);
      }
    } else {
      var calls, until := ReapingCanDeny(p);
      assert Ordered(calls, 0.0, until) && !Allowed(Decisions(q, FRESH, calls), Decisions(p, FRESH, calls));
    }
  }

  // ---------- the limiter as it runs ----------

  class RateLimiter {
    const p: Params
    var bkts: map<string, Tokens>
    var lastSweep: real

    function State(): Limiter
      reads this
    {
      Limiter(bkts, lastSweep)
    }

    constructor (rps: real, burst: nat)
      requires rps > 0.0 && burst > 0
      ensures State() == FRESH && p == Params(rps, burst, true)
    {
      p := Params(rps, burst, true);
      bkts, lastSweep := map[], FRESH.lastSweep;
    }

    /** Drop what has been idle for the TTL. */
    method Reap(now: real)
      modifies this`bkts
      ensures bkts == map k | k in old(bkts) && now - old(bkts)[k].last < IDLE_TTL :: old(bkts)[k]
    {
      ghost var was := bkts;
      var todo := bkts.Keys;
      while todo != {}
        invariant todo <= was.Keys
        invariant bkts == map k | k in was && (k in todo || now - was[k].last < IDLE_TTL) :: was[k]
        decreases |todo|
      {
        var k :| k in todo;
        if now - bkts[k].last >= IDLE_TTL { bkts := bkts - {k}; }
        todo := todo - {k};
      }
    }

    method Allow(key: string, now: real) returns (ok: bool, retry: int)
      requires Enabled(p) && p.reaps
      modifies this
      ensures (State(), ok, retry) == AllowStep(p, old(State()), Call(key, now))
    {
      if now - lastSweep >= SWEEP_INTERVAL {
        Reap(now);
        lastSweep := now;
      }
      var b := if key in bkts then bkts[key] else Tokens(p.burst as real, now);
      var elapsed := now - b.last;
      if elapsed > 0.0 {
        var tokens := b.tokens + Gain(p, elapsed);
        if tokens > p.burst as real { tokens := p.burst as real; }
        b := Tokens(tokens, now);
      }
      if b.tokens < 1.0 {
        bkts := bkts[key := b];
        retry := Ceil((1.0 - b.tokens) / p.rps);
        if retry < 1 { retry := 1; }
        return false, retry;
      }
      bkts := bkts[key := b.(tokens := b.tokens - 1.0)];
      return true, 0;
    }
  }
}
