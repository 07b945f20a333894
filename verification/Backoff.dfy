/** Exponential backoff (mq.go) and the copies of it inside both adapters. Durations are in
    nanoseconds; the factor is a real number. */
module Backoff {
  import opened Options
  import opened Decimal
  import opened Messages

  datatype Retry = Retry(base: int, factor: real, maxRetries: int)

  /** The guard both adapters put in front: one second and a factor of two when unset. */
  function Guarded(r: Retry): (g: Retry)
    ensures g.base > 0 && g.factor > 0.0 && g.maxRetries == r.maxRetries
    ensures r.base > 0 && r.factor > 0.0 ==> g == r
    ensures g.base == (if r.base > 0 then r.base else 1_000_000_000) && g.factor == (if r.factor > 0.0 then r.factor else 2.0)
  {
    r.(base := if r.base <= 0 then 1_000_000_000 else r.base,
       factor := if r.factor <= 0.0 then 2.0 else r.factor)
  }

  /** The retry settings of a client configuration (client.go). */
  class RetrySettings {
    var job: Retry
    var mq: Retry

    constructor (job: Retry, mq: Retry)
      ensures this.job == job && this.mq == mq
    {
      this.job, this.mq := job, mq;
    }

    /** Unset job values get defaults; unset MQ values fall back to the job's. Afterwards every
        value is usable, what was set is kept, and the adapters' own guard changes nothing. */
    method ApplyDefaults()
      modifies this
      ensures job.base == (if old(job).base > 0 then old(job).base else 1_000_000_000)
      ensures job.factor == (if old(job).factor > 0.0 then old(job).factor else 2.0)
      ensures job.maxRetries == (if old(job).maxRetries > 0 then old(job).maxRetries else 3)
      ensures mq.base == (if old(mq).base > 0 then old(mq).base else job.base)
      ensures mq.factor == (if old(mq).factor > 0.0 then old(mq).factor else job.factor)
      ensures mq.maxRetries == (if old(mq).maxRetries > 0 then old(mq).maxRetries else job.maxRetries)
      ensures mq.maxRetries >= 1 && Guarded(mq) == mq
    {
      if job.base <= 0 { job := job.(base := 1_000_000_000); }
      if job.factor <= 0.0 { job := job.(factor := 2.0); }
      if job.maxRetries <= 0 { job := job.(maxRetries := 3); }
      if mq.base <= 0 { mq := mq.(base := job.base); }
      if mq.factor <= 0.0 { mq := mq.(factor := job.factor); }
      if mq.maxRetries <= 0 { mq := mq.(maxRetries := job.maxRetries); }
    }
  }

  function Pow(f: real, n: nat): (p: real)
    requires f > 0.0
    ensures p > 0.0
  {
    if n == 0 then 1.0 else f * Pow(f, n - 1)
  }

  function PowInt(f: real, k: int): (p: real)
    requires f > 0.0
    ensures p > 0.0
  {
    if k >= 0 then Pow(f, k) else 1.0 / Pow(f, -k)
  }

  /** The delay before a try, cut to whole nanoseconds. */
  function Delay(r: Retry, attempt: int): (d: int)
    requires r.base > 0 && r.factor > 0.0
    ensures 0 <= d && d as real <= r.base as real * PowInt(r.factor, attempt) < d as real + 1.0
  {
    (r.base as real * PowInt(r.factor, attempt)).Floor
  }

  function NextBackoff(r: Retry, attempt: int): Option<int>
    requires r.base > 0 && r.factor > 0.0
  {
    if attempt >= r.maxRetries then None else Some(Delay(r, attempt))
  }

  /** What the adapters compute for a message whose header says `attempt`: the stop test on the
      next count, and the power of the next count less one. */
  function AdapterBackoff(r: Retry, attempt: int): Option<int>
    requires r.base > 0 && r.factor > 0.0
  {
    var next := NextAttempt(attempt);
    if next <= r.maxRetries then Some(Delay(r, next - 1)) else None
  }

  /** The adapters follow the policy for every readable count but one: at the largest int the
      next count wraps around to the smallest, and the adapter retries where the policy stops. */
  lemma AdapterFollowsPolicy(r: Retry, attempt: int)
    requires r.base > 0 && r.factor > 0.0
    requires MIN_INT <= attempt <= MAX_INT && MIN_INT <= r.maxRetries <= MAX_INT
    ensures AdapterBackoff(r, attempt) == NextBackoff(r, attempt) <==> attempt != MAX_INT
  {
  }

  // ---------------------------------------------------------------- what a delay is

  /** `p` are the powers of `f`. */
  ghost predicate ArePowers(p: nat -> real, f: real) {
    p(0) == 1.0 && forall n: nat :: p(n + 1) == f * p(n)
  }

  lemma {:induction false} PowIsThePower(p: nat -> real, f: real, n: nat)
    requires f > 0.0 && ArePowers(p, f)
    ensures Pow(f, n) == p(n)
    decreases n
  {
    if n > 0 {
      PowIsThePower(p, f, n - 1);
      assert p(n - 1 + 1) == f * p(n - 1);
    }
  }

  /** The delay of a try is base times the factor to the power of the attempt, less the fraction
      of a nanosecond that is cut off. */
  lemma DelayIsThePower(r: Retry, p: nat -> real, attempt: nat)
    requires r.base > 0 && r.factor > 0.0 && ArePowers(p, r.factor)
    ensures r.base as real * p(attempt) - 1.0 < Delay(r, attempt) as real <= r.base as real * p(attempt)
  {
    PowIsThePower(p, r.factor, attempt);
  }

  /** At negative attempts, which only foreign headers produce, the base is divided instead. */
  lemma NegativeAttempt(r: Retry, p: nat -> real, attempt: int)
    requires r.base > 0 && r.factor > 0.0 && attempt < 0 && ArePowers(p, r.factor)
    ensures p(-attempt) > 0.0
    ensures
      var wait := r.base as real * (1.0 / p(-attempt));
      wait - 1.0 < Delay(r, attempt) as real <= wait
  {
    PowIsThePower(p, r.factor, -attempt);
  }

  function WholePower(f: nat, n: nat): nat {
    if n == 0 then 1 else f * WholePower(f, n - 1)
  }

  lemma {:induction false} PowOfWhole(f: nat, n: nat)
    requires f > 0
    ensures Pow(f as real, n) == WholePower(f, n) as real
  {
    if n > 0 {
      PowOfWhole(f, n - 1);
      ProductOfWholes(f, WholePower(f, n - 1));
    }
  }

  lemma ProductOfWholes(a: nat, b: nat)
    ensures (a * b) as real == a as real * b as real
  {
  }

  /** With a whole factor nothing is cut off: the delay is exactly base times the power. */
  lemma WholeFactorDelay(base: int, f: nat, max: int, attempt: nat)
    requires base > 0 && f > 0
    ensures Delay(Retry(base, f as real, max), attempt) == base * WholePower(f, attempt)
  {
    PowOfWhole(f, attempt);
    ProductOfWholes(base, WholePower(f, attempt));
    FloorOfWhole(base * WholePower(f, attempt));
  }

  lemma FloorOfWhole(x: int)
    ensures (x as real).Floor == x
  {
  }

  /** The defaults wait one, two and four seconds, and then give up; policy and adapters alike. */
  lemma DefaultDelays(attempt: nat)
    ensures
      var r := Retry(1_000_000_000, 2.0, 3);
      var expected :=
        if attempt == 0 then Some(1_000_000_000)
        else if attempt == 1 then Some(2_000_000_000)
        else if attempt == 2 then Some(4_000_000_000)
        else None;
      && NextBackoff(r, attempt) == expected
      && (attempt < MAX_INT ==> AdapterBackoff(r, attempt) == expected)
  {
    WholeFactorDelay(1_000_000_000, 2, 3, attempt);
    assert WholePower(2, 1) == 2 && WholePower(2, 2) == 2 * WholePower(2, 1);
  }

  // ---------------------------------------------------------------- arithmetic of delays

  lemma TimesAtLeastOne(f: real, x: real)
    requires f >= 1.0 && x > 0.0
    ensures f * x >= x
  {
  }

  lemma {:induction false} PowGrows(f: real, i: nat, j: nat)
    requires f >= 1.0 && i <= j
    ensures Pow(f, i) <= Pow(f, j)
    decreases j
  {
    if i < j {
      PowGrows(f, i, j - 1);
      TimesAtLeastOne(f, Pow(f, j - 1));
      assert Pow(f, j) == f * Pow(f, j - 1);
    }
  }

  lemma Scale(b: real, x: real, y: real)
    requires b > 0.0 && x <= y
    ensures b * x <= b * y
  {
  }

  /** With a factor of at least one, later tries never wait less. */
  lemma DelaysGrow(r: Retry, i: nat, j: nat)
    requires r.base > 0 && r.factor >= 1.0 && i <= j
    ensures Delay(r, i) <= Delay(r, j)
  {
    PowGrows(r.factor, i, j);
    Scale(r.base as real, Pow(r.factor, i), Pow(r.factor, j));
    FloorGrows(r.base as real * Pow(r.factor, i), r.base as real * Pow(r.factor, j));
  }

  lemma FloorGrows(x: real, y: real)
    requires x <= y
    ensures x.Floor <= y.Floor
  {
  }

  /** All waiting of a message that fails `n` times. */
  function TotalDelay(r: Retry, n: nat): int
    requires r.base > 0 && r.factor > 0.0
  {
    if n == 0 then 0 else TotalDelay(r, n - 1) + Delay(r, n - 1)
  }

  /** t is at most b * (p - 1) / (f - 1). */
  ghost predicate WithinGeometric(b: real, f: real, p: real, t: real) {
    (f - 1.0) * t <= b * (p - 1.0)
  }

  lemma GeometricStep(b: real, f: real, p: real, t: real, d: real)
    requires f > 1.0 && WithinGeometric(b, f, p, t) && d <= b * p
    ensures WithinGeometric(b, f, f * p, t + d)
  {
    Scale(f - 1.0, d, b * p);
    assert (f - 1.0) * (b * p) == b * (f * p) - b * p;
    assert (f - 1.0) * (t + d) == (f - 1.0) * t + (f - 1.0) * d;
  }

  lemma OneMoreDelay(r: Retry, n: nat)
    requires r.base > 0 && r.factor > 1.0 && n > 0
    ensures TotalDelay(r, n) as real == TotalDelay(r, n - 1) as real + Delay(r, n - 1) as real
    ensures Delay(r, n - 1) as real <= r.base as real * Pow(r.factor, n - 1) < Delay(r, n - 1) as real + 1.0
    ensures Pow(r.factor, n) == r.factor * Pow(r.factor, n - 1)
  {
  }

  /** The total is bounded by the geometric sum: (F - 1) * total <= base * (F^n - 1). */
  lemma {:induction false} TotalDelayBound(r: Retry, n: nat)
    requires r.base > 0 && r.factor > 1.0
    ensures WithinGeometric(r.base as real, r.factor, Pow(r.factor, n), TotalDelay(r, n) as real)
  {
    if n > 0 {
      TotalDelayBound(r, n - 1);
      OneMoreDelay(r, n);
      GeometricStep(r.base as real, r.factor, Pow(r.factor, n - 1), TotalDelay(r, n - 1) as real, Delay(r, n - 1) as real);
    } else {
      NoDelayYet(r);
    }
  }

  /** u is at least b * (p - 1) / (f - 1). */
  ghost predicate CoversGeometric(b: real, f: real, p: real, u: real) {
    b * (p - 1.0) <= (f - 1.0) * u
  }

  lemma CoverStep(b: real, f: real, p: real, u: real, d: real)
    requires f > 1.0 && CoversGeometric(b, f, p, u) && b * p <= d
    ensures CoversGeometric(b, f, f * p, u + d)
  {
    Scale(f - 1.0, b * p, d);
    assert (f - 1.0) * (b * p) == b * (f * p) - b * p;
    assert (f - 1.0) * (u + d) == (f - 1.0) * u + (f - 1.0) * d;
  }

  /** All waiting, with the nanosecond that is cut off at most each time put back. */
  function PaddedDelay(r: Retry, n: nat): real
    requires r.base > 0 && r.factor > 0.0
  {
    TotalDelay(r, n) as real + n as real
  }

  lemma OneMorePadded(r: Retry, n: nat)
    requires r.base > 0 && r.factor > 0.0 && n > 0
    ensures PaddedDelay(r, n) == PaddedDelay(r, n - 1) + (Delay(r, n - 1) + 1) as real
    ensures r.base as real * Pow(r.factor, n - 1) <= (Delay(r, n - 1) + 1) as real
  {
  }

  /** The total is not much less either: base * (F^n - 1) <= (F - 1) * (total + n). */
  lemma {:induction false} TotalDelayCovers(r: Retry, n: nat)
    requires r.base > 0 && r.factor > 1.0
    ensures CoversGeometric(r.base as real, r.factor, Pow(r.factor, n), PaddedDelay(r, n))
  {
    if n > 0 {
      TotalDelayCovers(r, n - 1);
      OneMoreDelay(r, n);
      OneMorePadded(r, n);
      CoverStep(r.base as real, r.factor, Pow(r.factor, n - 1), PaddedDelay(r, n - 1), (Delay(r, n - 1) + 1) as real);
    } else {
      NoDelayYet(r);
      CoversNothing(r.base as real, r.factor, PaddedDelay(r, 0));
    }
  }

  lemma CoversNothing(b: real, f: real, u: real)
    requires u == 0.0
    ensures CoversGeometric(b, f, 1.0, u)
  {
  }

  lemma NoDelayYet(r: Retry)
    requires r.base > 0 && r.factor > 1.0
    ensures TotalDelay(r, 0) == 0 && Pow(r.factor, 0) == 1.0 && PaddedDelay(r, 0) == 0.0
  {
  }

  /** If the last delay fits a 64-bit duration, so does every one before it. */
  lemma DelaysFit(r: Retry, attempt: nat)
    requires r.base > 0 && r.factor >= 1.0 && attempt < r.maxRetries
    requires r.base as real * Pow(r.factor, r.maxRetries - 1) < (MAX_INT + 1) as real
    ensures Delay(r, attempt) <= MAX_INT
  {
    PowGrows(r.factor, attempt, r.maxRetries - 1);
    DelayAtMost(r, attempt);
    BelowLast(r.base as real, Pow(r.factor, attempt), Pow(r.factor, r.maxRetries - 1), Delay(r, attempt), MAX_INT + 1);
  }

  lemma DelayAtMost(r: Retry, attempt: nat)
    requires r.base > 0 && r.factor > 0.0
    ensures Delay(r, attempt) as real <= r.base as real * Pow(r.factor, attempt)
  {
  }

  lemma BelowLast(b: real, p: real, q: real, d: int, bound: int)
    requires b > 0.0 && p <= q && d as real <= b * p && b * q < bound as real
    ensures d < bound
  {
    Scale(b, p, q);
  }
}
