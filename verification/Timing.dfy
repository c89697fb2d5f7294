/** Retry horizon arithmetic: the backoff curve, the sampled backoff, and the startup gate
    that compares the worst-case horizon with the broker's duplicate window.
    Seconds are modelled as `real`; rounding is not part of the argument. */
module Timing {

  datatype RetryPolicy = RetryPolicy(maxAttempts: int, baseSeconds: real, capSeconds: real, jitterRatio: real)

  datatype Delays = Delays(dbLockWait: real, brokerConnect: real, publishTimeout: real,
                           processRestart: real, pollInterval: real)
  {
    function PerAttempt(): real {
      dbLockWait + brokerConnect + publishTimeout + processRestart + pollInterval
    }
  }

  datatype Gate = Utilisation(ratio: real) | WindowTooSmall | ZeroWindow

  // The floor under every sampled backoff.
  const BACKOFF_FLOOR: real := 0.1

  function Min(a: real, b: real): real { if a <= b then a else b }

  function Max(a: real, b: real): real { if a <= b then b else a }

  function Pow2(n: nat): (r: nat)
    ensures r >= 1
  {
    if n == 0 then 1 else 2 * Pow2(n - 1)
  }

  function Doublings(attempt: int): (r: real)
    ensures r >= 1.0
  {
    Pow2(if attempt > 1 then attempt - 1 else 0) as real
  }

  function Doubled(baseSeconds: real, attempt: int): real {
    baseSeconds * Doublings(attempt)
  }

  /** The delay after `attempt` failures, before jitter. */
  function Raw(p: RetryPolicy, attempt: int): real {
    Min(Doubled(p.baseSeconds, attempt), p.capSeconds)
  }

  function BackoffFor(p: RetryPolicy, attempt: int): real {
    Raw(p, attempt) * (1.0 + p.jitterRatio)
  }

  /** The delay actually scheduled. `draw` in [0, 1] is the generator's output, so the jitter
      term ranges over the whole interval from -jitter to +jitter. */
  function ComputeBackoff(p: RetryPolicy, attempts: int, draw: real): real {
    var jitter := Raw(p, attempts) * p.jitterRatio;
    Max(BACKOFF_FLOOR, Raw(p, attempts) + (-jitter + (jitter + jitter) * draw))
  }

  /** Does `backoff_for` bound every delay that can be sampled? Only above the floor. */
  ghost predicate FloorCovered(p: RetryPolicy) {
    Min(p.baseSeconds, p.capSeconds) * (1.0 + p.jitterRatio) >= BACKOFF_FLOOR
  }

  lemma NonPositiveProduct(a: real, b: real)
    requires b >= 0.0
    ensures a <= 0.0 ==> a * b <= 0.0
  {
  }

  lemma RawIsAtLeastFirst(p: RetryPolicy, attempt: int)
    requires p.baseSeconds >= 0.0
    ensures Raw(p, attempt) >= Min(p.baseSeconds, p.capSeconds)
  {
    var factor := Doublings(attempt);
    assert p.baseSeconds * factor >= p.baseSeconds * 1.0;
  }

  lemma ProductMonotone(a: real, b: real, c: real)
    requires a <= b && c >= 0.0
    ensures a * c <= b * c
  {
  }

  lemma JitterStaysBelow(raw: real, ratio: real, draw: real)
    requires raw >= 0.0 && ratio >= 0.0 && 0.0 <= draw <= 1.0
    ensures raw + (-(raw * ratio) + (raw * ratio + raw * ratio) * draw) <= raw * (1.0 + ratio)
  {
    var jitter := raw * ratio;
    ProductMonotone(0.0, raw, ratio);
    ProductMonotone(draw, 1.0, jitter + jitter);
    assert raw * (1.0 + ratio) == raw + jitter;
  }

  lemma SampledBackoffBound(p: RetryPolicy, attempt: int, draw: real)
    requires p.jitterRatio >= 0.0 && 0.0 <= draw <= 1.0
    requires FloorCovered(p)
    ensures BACKOFF_FLOOR <= ComputeBackoff(p, attempt, draw) <= BackoffFor(p, attempt)
  {
    var first, raw := Min(p.baseSeconds, p.capSeconds), Raw(p, attempt);
    NonPositiveProduct(first, 1.0 + p.jitterRatio);
    RawIsAtLeastFirst(p, attempt);
    ProductMonotone(first, raw, 1.0 + p.jitterRatio);
    JitterStaysBelow(raw, p.jitterRatio, draw);
  }

  /** The bound used by the horizon covers every sample exactly when the first delay clears the floor. */
  lemma SampledBackoffBoundedIff(p: RetryPolicy)
    requires p.jitterRatio >= 0.0
    ensures FloorCovered(p) <==>
            forall attempt: int, draw: real | 0.0 <= draw <= 1.0 ::
              ComputeBackoff(p, attempt, draw) <= BackoffFor(p, attempt)
  {
    if FloorCovered(p) {
      forall attempt: int, draw: real | 0.0 <= draw <= 1.0
        ensures ComputeBackoff(p, attempt, draw) <= BackoffFor(p, attempt)
      {
        SampledBackoffBound(p, attempt, draw);
      }
    } else {
      assert Pow2(0) == 1;
      assert Raw(p, 1) == Min(p.baseSeconds, p.capSeconds);
      assert ComputeBackoff(p, 1, 0.0) >= BACKOFF_FLOOR;
    }
  }

  lemma DrawFor(low: real, width: real, x: real) returns (draw: real)
    requires width > 0.0 && low <= x <= low + width
    ensures 0.0 <= draw <= 1.0 && low + width * draw == x
  {
    draw := (x - low) / width;
    assert width * draw == x - low;
    assert draw < 0.0 ==> width * draw < 0.0;
    assert draw > 1.0 ==> width * draw > width * 1.0;
  }

  lemma DrawWithin(low: real, width: real, draw: real)
    requires width >= 0.0 && 0.0 <= draw <= 1.0
    ensures low <= low + width * draw <= low + width
  {
    ProductMonotone(0.0, draw, width);
    ProductMonotone(draw, 1.0, width);
  }

  // What is sampled, by the least delay before the floor and the width of the jitter.
  function Sample(low: real, width: real, draw: real): real { Max(0.1, low + width * draw) }

  lemma SampleWithin(low: real, width: real, draw: real)
    requires width >= 0.0 && 0.0 <= draw <= 1.0
    ensures Max(0.1, low) <= Sample(low, width, draw) <= Max(0.1, low + width)
  {
    DrawWithin(low, width, draw);
  }

  lemma SampleFor(low: real, width: real, x: real) returns (draw: real)
    requires width >= 0.0 && Max(0.1, low) <= x <= Max(0.1, low + width)
    ensures 0.0 <= draw <= 1.0 && Sample(low, width, draw) == x
  {
    draw := 0.0;
    if Max(0.1, low) < x {
      draw := DrawFor(low, width, x);
    }
  }

  lemma JitterIsNotNegative(raw: real, ratio: real)
    requires raw >= 0.0 && ratio >= 0.0
    ensures raw * ratio >= 0.0
  {
  }

  lemma BackoffIsSample(p: RetryPolicy, attempt: int, jitter: real, draw: real)
    requires jitter == Raw(p, attempt) * p.jitterRatio
    ensures ComputeBackoff(p, attempt, draw) == Sample(Raw(p, attempt) - jitter, jitter + jitter, draw)
  {
  }

  lemma BackoffWithin(p: RetryPolicy, attempt: int, jitter: real, draw: real)
    requires jitter == Raw(p, attempt) * p.jitterRatio >= 0.0 && 0.0 <= draw <= 1.0
    ensures Max(0.1, Raw(p, attempt) - jitter) <= ComputeBackoff(p, attempt, draw) <= Max(0.1, Raw(p, attempt) + jitter)
  {
    BackoffIsSample(p, attempt, jitter, draw);
    SampleWithin(Raw(p, attempt) - jitter, jitter + jitter, draw);
  }

  lemma BackoffReaches(p: RetryPolicy, attempt: int, jitter: real, x: real) returns (draw: real)
    requires jitter == Raw(p, attempt) * p.jitterRatio >= 0.0
    requires Max(0.1, Raw(p, attempt) - jitter) <= x <= Max(0.1, Raw(p, attempt) + jitter)
    ensures 0.0 <= draw <= 1.0 && ComputeBackoff(p, attempt, draw) == x
  {
    draw := SampleFor(Raw(p, attempt) - jitter, jitter + jitter, x);
    BackoffIsSample(p, attempt, jitter, draw);
  }

  /** The delays that can be scheduled after `attempt` failures are exactly those within the jitter of the
      doubled and capped delay, a tenth of a second being the least. */
  lemma SampledDelaysAre(p: RetryPolicy, attempt: int, x: real)
    requires p.jitterRatio >= 0.0 && Raw(p, attempt) >= 0.0
    ensures (exists draw | 0.0 <= draw <= 1.0 :: ComputeBackoff(p, attempt, draw) == x)
            <==> var jitter := Raw(p, attempt) * p.jitterRatio;
                 Max(0.1, Raw(p, attempt) - jitter) <= x <= Max(0.1, Raw(p, attempt) + jitter)
  {
    var jitter := Raw(p, attempt) * p.jitterRatio;
    JitterIsNotNegative(Raw(p, attempt), p.jitterRatio);
    forall draw | 0.0 <= draw <= 1.0
      ensures Max(0.1, Raw(p, attempt) - jitter) <= ComputeBackoff(p, attempt, draw)
      ensures ComputeBackoff(p, attempt, draw) <= Max(0.1, Raw(p, attempt) + jitter)
    {
      BackoffWithin(p, attempt, jitter, draw);
    }
    if Max(0.1, Raw(p, attempt) - jitter) <= x <= Max(0.1, Raw(p, attempt) + jitter) {
      var draw := BackoffReaches(p, attempt, jitter, x);
    }
  }

  lemma TopSampleIsTheBound(p: RetryPolicy, attempt: int)
    requires p.jitterRatio >= 0.0 && FloorCovered(p)
    ensures ComputeBackoff(p, attempt, 1.0) == BackoffFor(p, attempt)
  {
    SampledBackoffBound(p, attempt, 1.0);
    var raw := Raw(p, attempt);
    assert raw * (1.0 + p.jitterRatio) == raw + raw * p.jitterRatio;
  }

  /** The gaps after attempts 1 to n. */
  function GapSum(p: RetryPolicy, n: int): real
    decreases if n > 0 then n else 0
  {
    if n <= 0 then 0.0 else GapSum(p, n - 1) + BackoffFor(p, n)
  }

  function Horizon(p: RetryPolicy, d: Delays): real {
    p.maxAttempts as real * d.PerAttempt() + GapSum(p, p.maxAttempts - 1)
  }

  method WorstCaseRetryHorizon(p: RetryPolicy, d: Delays) returns (total: real)
    ensures total == Horizon(p, d)
  {
    total := p.maxAttempts as real * d.PerAttempt();
    var attempt := 1;
    while attempt < p.maxAttempts
      invariant 1 <= attempt && (attempt <= p.maxAttempts || attempt == 1)
      invariant total == p.maxAttempts as real * d.PerAttempt() + GapSum(p, attempt - 1)
    {
      total := total + BackoffFor(p, attempt);
      attempt := attempt + 1;
    }
    assert p.maxAttempts < 1 ==> GapSum(p, p.maxAttempts - 1) == GapSum(p, 0);
  }

  /** How many of the first n delays are below the cap. */
  function Uncapped(p: RetryPolicy, n: nat): (u: nat)
    ensures u <= n
    ensures u > 0 ==> Doubled(p.baseSeconds, u) <= p.capSeconds
    ensures u < n ==> Doubled(p.baseSeconds, n) > p.capSeconds
  {
    if n == 0 then 0
    else if Doubled(p.baseSeconds, n) <= p.capSeconds then n
    else Uncapped(p, n - 1)
  }

  /** One more doubling: b(2x - 1) = b(x - 1) + bx, under a common factor. */
  lemma GeometricStep(scale: real, b: real, x: real)
    ensures scale * (b * (2.0 * x - 1.0)) == scale * (b * (x - 1.0)) + (b * x) * scale
  {
    assert b * (2.0 * x - 1.0) == b * (x - 1.0) + b * x;
  }

  lemma LinearStep(scale: real, head: real, m: real, c: real)
    ensures scale * (head + (m + 1.0) * c) == scale * (head + m * c) + c * scale
  {
    assert (m + 1.0) * c == m * c + c;
  }

  lemma UncappedBefore(p: RetryPolicy, n: nat)
    requires p.baseSeconds >= 0.0 && n > 1
    requires Doubled(p.baseSeconds, n) <= p.capSeconds
    ensures Doubled(p.baseSeconds, n - 1) <= p.capSeconds
  {
    var low := Pow2(n - 2) as real;
    assert Pow2(n - 1) as real == 2.0 * low;
    assert p.baseSeconds * (2.0 * low) == p.baseSeconds * low + p.baseSeconds * low;
    assert p.baseSeconds * low >= 0.0;
  }

  function Geometric(p: RetryPolicy, u: nat): real {
    p.baseSeconds * (Pow2(u) as real - 1.0)
  }

  lemma {:induction false} UncappedGaps(p: RetryPolicy, n: nat)
    requires p.baseSeconds >= 0.0
    requires n > 0 ==> Doubled(p.baseSeconds, n) <= p.capSeconds
    ensures GapSum(p, n) == ClosedGaps(p, n, n)
  {
    if n > 0 {
      if n > 1 { UncappedBefore(p, n); }
      UncappedGaps(p, n - 1);
      var half := Pow2(n - 1);
      assert Pow2(n) as real == 2.0 * half as real;
      GeometricStep(1.0 + p.jitterRatio, p.baseSeconds, half as real);
      assert Raw(p, n) == p.baseSeconds * half as real;
    }
  }

  function ClosedGaps(p: RetryPolicy, u: nat, n: nat): real {
    (1.0 + p.jitterRatio) * (Geometric(p, u) + (n - u) as real * p.capSeconds)
  }

  lemma CappedGap(p: RetryPolicy, n: nat, u: nat)
    requires u < n && Raw(p, n) == p.capSeconds
    ensures ClosedGaps(p, u, n - 1) + BackoffFor(p, n) == ClosedGaps(p, u, n)
  {
    LinearStep(1.0 + p.jitterRatio, Geometric(p, u), (n - 1 - u) as real, p.capSeconds);
    assert (n - u) as real == (n - 1 - u) as real + 1.0;
  }

  /** The horizon's gaps in closed form: geometric up to the cap, linear after it. */
  lemma {:induction false} GapSumClosedForm(p: RetryPolicy, n: nat)
    requires p.baseSeconds >= 0.0
    ensures GapSum(p, n) == ClosedGaps(p, Uncapped(p, n), n)
  {
    var u := Uncapped(p, n);
    if u == n {
      UncappedGaps(p, n);
    } else {
      GapSumClosedForm(p, n - 1);
      CappedGap(p, n, u);
    }
  }

  ghost predicate NonNegative(p: RetryPolicy) {
    p.baseSeconds >= 0.0 && p.capSeconds >= 0.0 && p.jitterRatio >= 0.0
  }

  lemma MulMonotone(a: real, b: real, c: real, d: real)
    requires 0.0 <= a <= c && 0.0 <= b <= d
    ensures 0.0 <= a * b <= c * d
  {
    assert a * b <= c * b;
    assert c * b <= c * d;
  }

  lemma BackoffMonotone(p: RetryPolicy, q: RetryPolicy, attempt: int)
    requires NonNegative(p)
    requires p.baseSeconds <= q.baseSeconds && p.capSeconds <= q.capSeconds && p.jitterRatio <= q.jitterRatio
    ensures 0.0 <= BackoffFor(p, attempt) <= BackoffFor(q, attempt)
  {
    var factor := Doublings(attempt);
    MulMonotone(p.baseSeconds, factor, q.baseSeconds, factor);
    assert 0.0 <= Doubled(p.baseSeconds, attempt) <= Doubled(q.baseSeconds, attempt);
    MulMonotone(Raw(p, attempt), 1.0 + p.jitterRatio, Raw(q, attempt), 1.0 + q.jitterRatio);
  }

  lemma {:induction false} GapSumMonotone(p: RetryPolicy, q: RetryPolicy, m: int, n: int)
    requires NonNegative(p) && m <= n
    requires p.baseSeconds <= q.baseSeconds && p.capSeconds <= q.capSeconds && p.jitterRatio <= q.jitterRatio
    ensures 0.0 <= GapSum(p, m) <= GapSum(q, n)
    decreases if n > 0 then n else 0
  {
    if n > 0 {
      BackoffMonotone(p, q, n);
      GapSumMonotone(p, q, if m == n then m - 1 else m, n - 1);
    }
  }

  /** A policy that is no more patient in any parameter has no longer a horizon. */
  lemma HorizonMonotone(p: RetryPolicy, d: Delays, q: RetryPolicy, e: Delays)
    requires NonNegative(p) && 0 <= p.maxAttempts <= q.maxAttempts
    requires p.baseSeconds <= q.baseSeconds && p.capSeconds <= q.capSeconds && p.jitterRatio <= q.jitterRatio
    requires 0.0 <= d.PerAttempt() <= e.PerAttempt()
    ensures Horizon(p, d) <= Horizon(q, e)
  {
    GapSumMonotone(p, q, p.maxAttempts - 1, q.maxAttempts - 1);
    MulMonotone(p.maxAttempts as real, d.PerAttempt(), q.maxAttempts as real, e.PerAttempt());
  }

  /** Each of the five operational delays counts once for every attempt. */
  lemma EveryDelayCounts(p: RetryPolicy, d: Delays, e: Delays)
    ensures Horizon(p, e) - Horizon(p, d) ==
            p.maxAttempts as real * ((e.dbLockWait - d.dbLockWait) + (e.brokerConnect - d.brokerConnect)
                                     + (e.publishTimeout - d.publishTimeout) + (e.processRestart - d.processRestart)
                                     + (e.pollInterval - d.pollInterval))
  {
    Distribute(p.maxAttempts as real, e.PerAttempt(), d.PerAttempt());
  }

  lemma Distribute(n: real, a: real, b: real)
    ensures n * a - n * b == n * (a - b)
  {
  }

  method ValidateDuplicateWindow(p: RetryPolicy, d: Delays, window: real, margin: real) returns (gate: Gate)
    ensures gate == GateFor(p, d, window, margin)
    ensures gate.Utilisation? <==> Horizon(p, d) <= window * margin && window != 0.0
    ensures gate.WindowTooSmall? <==> Horizon(p, d) > window * margin
    ensures gate.Utilisation? && window > 0.0 ==> gate.ratio <= margin && gate.ratio * window == Horizon(p, d)
  {
    var horizon := WorstCaseRetryHorizon(p, d);
    var limit := window * margin;
    if horizon > limit {
      return WindowTooSmall;
    }
    gate := if window == 0.0 then ZeroWindow else Utilisation(horizon / window);
    if window > 0.0 {
      DivideByWindow(horizon, window, margin);
    }
  }

  /** The startup gate. Both refusals stop the service from starting. */
  function GateFor(p: RetryPolicy, d: Delays, window: real, margin: real): Gate {
    if Horizon(p, d) > window * margin then WindowTooSmall
    else if window == 0.0 then ZeroWindow
    else Utilisation(Horizon(p, d) / window)
  }

  lemma DivideByWindow(h: real, window: real, margin: real)
    requires window > 0.0 && h <= window * margin
    ensures h / window <= margin
  {
    assert h / window <= (window * margin) / window;
  }

  /** Passing the gate puts the whole horizon inside the window. */
  lemma GateBoundsHorizon(p: RetryPolicy, d: Delays, window: real, margin: real)
    requires window >= 0.0 && margin <= 1.0
    requires GateFor(p, d, window, margin).Utilisation?
    ensures Horizon(p, d) <= window
    ensures GateFor(p, d, window, margin).ratio <= margin
  {
    assert window * margin <= window * 1.0;
    var h := Horizon(p, d);
    DivideByWindow(h, window, margin);
  }
}
