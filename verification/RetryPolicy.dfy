/** jobs/retry_policy.go: retry policies and the interval before the next attempt.
    Durations are integers (nanoseconds) and float64 values are reals. */
module RetryPolicies {
  /** The three named policy types; any other string reaches the `default` branch. */
  datatype PolicyType = Exponential | Fixed | NoRetry | Other(name: string)

  datatype RetryPolicy = RetryPolicy(
    kind: PolicyType,
    maxRetries: int,
    initialInterval: int,
    maxInterval: int,
    multiplier: real,
    randomizationFactor: real)

  predicate ShouldRetry(policy: RetryPolicy, retryCount: int)
  {
    !policy.kind.NoRetry? && retryCount <= policy.maxRetries
  }

  /** Conversion of a float64 to time.Duration: truncation toward zero. */
  function Truncate(x: real): (d: int)
    ensures x >= 0.0 ==> d as real <= x < (d + 1) as real
    ensures x < 0.0 ==> (d - 1) as real < x <= d as real
  {
    if x >= 0.0 then x.Floor else -((-x).Floor)
  }

  function Power(base: real, n: nat): real
  {
    if n == 0 then 1.0 else base * Power(base, n - 1)
  }

  function Min(x: real, y: real): real { if x <= y then x else y }

  /** initial * factor^(n-1) */
  function Grown(initial: int, factor: real, n: int): real
    requires n >= 1
  {
    initial as real * Power(factor, n - 1)
  }

  /** The interval before jitter: min(initial * multiplier^(n-1), maxInterval). */
  function CappedInterval(policy: RetryPolicy, retryCount: int): real
    requires retryCount >= 1
  {
    Min(Grown(policy.initialInterval, policy.multiplier, retryCount), policy.maxInterval as real)
  }

  function Between(low: real, high: real, draw: real): real { low + draw * (high - low) }

  /** Jitter replaces x by a point of [x - r*x, x + r*x] chosen by a draw from [0, 1). */
  function Jitter(x: real, factor: real, draw: real): real
  {
    if factor > 0.0 then Between(x - factor * x, x + factor * x, draw) else x
  }

  /** What CalculateBackoff returns, in closed form. */
  function Backoff(policy: RetryPolicy, retryCount: int, draw: real): int
  {
    if retryCount <= 0 || policy.kind.NoRetry? || policy.maxRetries < retryCount then 0
    else match policy.kind
      case Fixed => policy.initialInterval
      case Exponential => Truncate(Jitter(CappedInterval(policy, retryCount), policy.randomizationFactor, draw))
      case _ => 0
  }

  /** The loop that multiplies the interval, one retry at a time. `draw` is the value of rand.Float64(). */
  method CalculateBackoff(policy: RetryPolicy, retryCount: int, draw: real) returns (interval: int)
    ensures interval == Backoff(policy, retryCount, draw)
  {
    if retryCount <= 0 || policy.kind.NoRetry? || policy.maxRetries < retryCount {
      return 0;
    }
    if policy.kind.Fixed? {
      return policy.initialInterval;
    }
    if !policy.kind.Exponential? {
      return 0;
    }
    var x := policy.initialInterval as real;
    var i := 1;
    while i < retryCount
      invariant 1 <= i <= retryCount
      invariant x == Grown(policy.initialInterval, policy.multiplier, i)
    {
      PowerStep(policy.initialInterval as real, policy.multiplier, i);
      x := x * policy.multiplier;
      i := i + 1;
    }
    if x > policy.maxInterval as real {
      x := policy.maxInterval as real;
    }
    ghost var capped := x;
    assert capped == CappedInterval(policy, retryCount);
    if policy.randomizationFactor > 0.0 {
      var delta := policy.randomizationFactor * x;
      var low, high := x - delta, x + delta;
      x := Between(low, high, draw);
    }
    assert x == Jitter(capped, policy.randomizationFactor, draw);
    interval := Truncate(x);
  }

  lemma PowerStep(x: real, base: real, n: nat)
    requires n >= 1
    ensures x * Power(base, n - 1) * base == x * Power(base, n)
  {
    var p := Power(base, n - 1);
    assert Power(base, n) == base * p;
    assert x * p * base == x * (base * p);
  }

  lemma {:induction false} PowerMonotone(base: real, m: nat, n: nat)
    requires base >= 1.0 && m <= n
    ensures 1.0 <= Power(base, m) <= Power(base, n)
    decreases n
  {
    if n == 0 {
    } else if m < n {
      PowerMonotone(base, m, n - 1);
      Grow(Power(base, n - 1), base);
    } else {
      PowerMonotone(base, n - 1, n - 1);
      Grow(Power(base, n - 1), base);
    }
  }

  lemma Grow(p: real, base: real)
    requires p >= 1.0 && base >= 1.0
    ensures base * p >= p
  {
    assert base * p - p == (base - 1.0) * p;
  }

  lemma Scale(x: real, p: real, q: real)
    requires x >= 0.0 && p <= q
    ensures x * p <= x * q
  {
    assert x * q - x * p == x * (q - p);
  }

  lemma TruncateMonotone(x: real, y: real)
    requires x <= y
    ensures Truncate(x) <= Truncate(y)
  {
  }

  lemma GrownMonotone(initial: int, factor: real, m: int, n: int)
    requires 1 <= m <= n && factor >= 1.0 && initial >= 0
    ensures Grown(initial, factor, m) <= Grown(initial, factor, n)
  {
    PowerMonotone(factor, m - 1, n - 1);
    Scale(initial as real, Power(factor, m - 1), Power(factor, n - 1));
  }

  lemma MinMonotone(x: real, y: real, cap: real)
    requires x <= y
    ensures Min(x, cap) <= Min(y, cap)
  {
  }

  /** Within the retry limit a later retry never waits less. */
  lemma BackoffMonotone(policy: RetryPolicy, m: int, n: int, drawM: real, drawN: real)
    requires 1 <= m <= n <= policy.maxRetries
    requires policy.multiplier >= 1.0 && policy.initialInterval >= 0 && policy.randomizationFactor <= 0.0
    ensures Backoff(policy, m, drawM) <= Backoff(policy, n, drawN)
  {
    GrownMonotone(policy.initialInterval, policy.multiplier, m, n);
    MinMonotone(Grown(policy.initialInterval, policy.multiplier, m),
                Grown(policy.initialInterval, policy.multiplier, n), policy.maxInterval as real);
    TruncateMonotone(CappedInterval(policy, m), CappedInterval(policy, n));
  }

  lemma BetweenBounds(low: real, high: real, draw: real)
    requires low <= high && 0.0 <= draw <= 1.0
    ensures low <= Between(low, high, draw) <= high
  {
    Scale(high - low, 0.0, draw);
    Scale(high - low, draw, 1.0);
  }

  lemma JitterBounds(x: real, r: real, draw: real)
    requires x >= 0.0 && r >= 0.0 && 0.0 <= draw <= 1.0
    ensures WithinJitter(x, r, Truncate(Jitter(x, r, draw)))
  {
    Scale(x, 0.0, r);
    assert (1.0 - r) * x == x - r * x && (1.0 + r) * x == x + r * x;
    BetweenBounds(x - r * x, x + r * x, draw);
    TruncateMonotone((1.0 - r) * x, Jitter(x, r, draw));
    TruncateMonotone(Jitter(x, r, draw), (1.0 + r) * x);
  }

  predicate WithinJitter(x: real, r: real, d: int)
  {
    Truncate((1.0 - r) * x) <= d <= Truncate((1.0 + r) * x)
  }

  /** With jitter r the interval stays between (1 - r) and (1 + r) times the capped interval, up to truncation. */
  lemma BackoffJitterBounds(policy: RetryPolicy, n: int, draw: real)
    requires policy.kind.Exponential? && 1 <= n <= policy.maxRetries
    requires 0.0 <= policy.randomizationFactor && 0.0 <= draw < 1.0 && CappedInterval(policy, n) >= 0.0
    ensures WithinJitter(CappedInterval(policy, n), policy.randomizationFactor, Backoff(policy, n, draw))
  {
    JitterBounds(CappedInterval(policy, n), policy.randomizationFactor, draw);
  }

  /** From (1 - r) times x at draw 0 linearly towards (1 + r) times x at draw 1. */
  function Swept(x: real, r: real, draw: real): real { x * (1.0 - r + 2.0 * (r * draw)) }

  lemma SweepsLinearly(x: real, r: real, draw: real)
    ensures Between(x - r * x, x + r * x, draw) == Swept(x, r, draw)
    ensures Swept(x, 0.0, draw) == x
  {
    var d := r * x;
    assert (x + d) - (x - d) == 2.0 * d;
    assert draw * (2.0 * d) == x * (2.0 * (r * draw)) by {
      assert draw * (2.0 * d) == 2.0 * (draw * d);
      assert draw * d == draw * (r * x) == (r * draw) * x;
    }
    assert x * (1.0 - r + 2.0 * (r * draw)) == x - r * x + x * (2.0 * (r * draw));
    assert 0.0 * draw == 0.0;
  }

  lemma JitterSweeps(x: real, factor: real, draw: real)
    ensures Jitter(x, factor, draw) == Swept(x, if factor > 0.0 then factor else 0.0, draw)
  {
    SweepsLinearly(x, factor, draw);
  }

  /** No interval outside the limit or without retries, and the same one for every retry of a fixed policy. */
  lemma BackoffByPolicy(policy: RetryPolicy, n: int, draw: real)
    ensures n <= 0 || n > policy.maxRetries || policy.kind.NoRetry? || policy.kind.Other? ==>
              Backoff(policy, n, draw) == 0
    ensures 1 <= n <= policy.maxRetries && policy.kind.Fixed? ==> Backoff(policy, n, draw) == policy.initialInterval
  {
  }

  /** The exponential interval: the capped power, swept linearly by the draw from (1 - r) to (1 + r) times, and
      truncated. */
  lemma ExponentialBackoff(policy: RetryPolicy, n: int, draw: real)
    requires 1 <= n <= policy.maxRetries && policy.kind.Exponential?
    ensures var r := if policy.randomizationFactor > 0.0 then policy.randomizationFactor else 0.0;
            Backoff(policy, n, draw) == Truncate(Swept(CappedInterval(policy, n), r, draw))
  {
    JitterSweeps(CappedInterval(policy, n), policy.randomizationFactor, draw);
  }

  function TruncateThenCap(x: real, cap: int): (d: int)
    ensures d <= cap
  {
    var d := Truncate(x);
    if d > cap then cap else d
  }

  /** messaging/relay.go calculateBackoff: truncates first and caps afterwards. */
  function RelayBackoff(initialBackoff: int, maxBackoff: int, backoffFactor: real, retryCount: int): (backoff: int)
    requires retryCount >= 1
    ensures backoff <= maxBackoff
  {
    TruncateThenCap(Grown(initialBackoff, backoffFactor, retryCount), maxBackoff)
  }

  /** Capping before truncating and capping after truncating give the same duration. */
  lemma CapCommutesWithTruncate(x: real, cap: int)
    ensures Truncate(Min(x, cap as real)) == TruncateThenCap(x, cap)
  {
    if x <= cap as real {
      TruncateMonotone(x, cap as real);
    } else {
      TruncateMonotone(cap as real, x);
    }
  }

  /** Without jitter the job queues and the outbox relay wait equally long for the same parameters. */
  lemma BackoffMatchesRelay(policy: RetryPolicy, n: int, draw: real)
    requires policy.kind.Exponential? && 1 <= n <= policy.maxRetries && policy.randomizationFactor <= 0.0
    ensures Backoff(policy, n, draw)
         == RelayBackoff(policy.initialInterval, policy.maxInterval, policy.multiplier, n)
  {
    CapCommutesWithTruncate(Grown(policy.initialInterval, policy.multiplier, n), policy.maxInterval);
  }
}
