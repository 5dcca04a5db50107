/** Backoff arithmetic: the immutable retry strategy, its constructor bounds and its delay formulas.
    Numbers are exact: a delay in milliseconds is a real, and every random draw is an argument in [0, 1). */
module RetryStrategies {
  import opened Prelude

  // Any type string other than the three known ones behaves like Fixed in CalculateDelay.
  datatype StrategyKind = Exponential | Linear | Fixed | Unrecognised

  datatype RetryConfig = RetryConfig(
    initialDelayMs: real, maxDelayMs: real, jitterFactor: real, maxRetries: Option<nat>)

  datatype ConfigError = NegativeDelay | InitialAboveMax | JitterOutOfRange

  datatype RetryStrategy = RetryStrategy(kind: StrategyKind, config: RetryConfig)
  {
    predicate Valid() {
      && 0.0 <= config.initialDelayMs <= config.maxDelayMs
      && 0.0 <= config.jitterFactor <= 1.0
    }

    /** initialDelayMs times the given power of two; BaseIsPower gives the closed form. */
    function Base(power: nat): real {
      if power == 0 then config.initialDelayMs else 2.0 * Base(power - 1)
    }

    /** initialDelayMs times the attempt number; LinearBaseIsProduct gives the closed form. */
    function LinearBase(attempt: nat): real {
      if attempt == 0 then 0.0 else LinearBase(attempt - 1) + config.initialDelayMs
    }

    function Jittered(base: real, draw: real): real {
      base + (if config.jitterFactor > 0.0 then base * config.jitterFactor * draw else 0.0)
    }

    function Saturated(delay: real): real {
      MinR(delay.Floor as real, config.maxDelayMs)
    }

    function CalculateDelay(attemptNumber: int, draw: real): real {
      var attempt := Max(1, attemptNumber);
      match kind
      case Exponential => Saturated(Jittered(Base(attempt - 1), draw))
      case Linear => Saturated(Jittered(LinearBase(attempt), draw))
      case _ => Saturated(config.initialDelayMs)
    }

    function CalculateBackoff(attemptNumber: int, draw: real): real {
      if attemptNumber <= 1 then CalculateDelay(1, draw)
      else Saturated(Jittered(Base(attemptNumber), draw))
    }

    predicate IsMaxRetriesExceeded(attemptCount: int) {
      attemptCount >= (if config.maxRetries.Some? then config.maxRetries.value else 5)
    }

    predicate CanRetry(attemptCount: int) {
      !IsMaxRetriesExceeded(attemptCount)
    }
  }

  /** The constructor: a strategy is built exactly when its configuration is valid. */
  function Create(kind: StrategyKind, config: RetryConfig): (r: Result<RetryStrategy, ConfigError>)
    ensures r.Ok? <==> RetryStrategy(kind, config).Valid()
    ensures r.Ok? ==> r.value.kind == kind && r.value.config == config
  {
    if config.initialDelayMs < 0.0 || config.maxDelayMs < 0.0 then Err(NegativeDelay)
    else if config.initialDelayMs > config.maxDelayMs then Err(InitialAboveMax)
    else if config.jitterFactor < 0.0 || config.jitterFactor > 1.0 then Err(JitterOutOfRange)
    else Ok(RetryStrategy(kind, config))
  }

  ghost predicate IsDraw(draw: real) {
    0.0 <= draw < 1.0
  }

  /** What every lemma below asks of a strategy: one the constructor accepted, of type EXPONENTIAL. */
  ghost predicate Backoff(s: RetryStrategy) {
    s.kind.Exponential? && s.Valid()
  }

  lemma FloorMonotone(a: real, b: real)
    requires a <= b
    ensures a.Floor <= b.Floor
  {
  }

  lemma ScaleLess(a: real, b: real, c: real)
    requires a <= b && 0.0 <= c
    ensures a * c <= b * c
  {
  }

  lemma Shrinks(x: real, factor: real)
    requires 0.0 <= x && 0.0 <= factor <= 1.0
    ensures 0.0 <= x * factor <= x
  {
  }

  lemma {:induction false} BaseIsPower(s: RetryStrategy, power: nat)
    ensures s.Base(power) == s.config.initialDelayMs * Pow2(power) as real
    ensures s.Valid() ==> 0.0 <= s.Base(power)
  {
    if power > 0 {
      BaseIsPower(s, power - 1);
      assert Pow2(power) as real == 2.0 * (Pow2(power - 1) as real);
    }
  }

  /** Jitter adds something between nothing and the base delay itself. */
  lemma JitterBounds(s: RetryStrategy, base: real, draw: real)
    requires s.Valid() && IsDraw(draw) && 0.0 <= base
    ensures base <= s.Jittered(base, draw) <= 2.0 * base
  {
    Shrinks(base, s.config.jitterFactor);
    Shrinks(base * s.config.jitterFactor, draw);
  }

  /** Every delay lies between the saturated unjittered delay and the maximum, and below twice its base. */
  lemma DelayBounds(s: RetryStrategy, n: nat, draw: real)
    requires Backoff(s) && n >= 1 && IsDraw(draw)
    ensures 0.0 <= s.CalculateDelay(n, draw)
    ensures MinR(s.Base(n - 1).Floor as real, s.config.maxDelayMs) <= s.CalculateDelay(n, draw)
    ensures s.CalculateDelay(n, draw) <= s.config.maxDelayMs
    ensures s.CalculateDelay(n, draw) <= s.Base(n)
  {
    BaseIsPower(s, n - 1);
    JitterBounds(s, s.Base(n - 1), draw);
    FloorMonotone(s.Base(n - 1), s.Jittered(s.Base(n - 1), draw));
  }

  /** Retries stay ordered whatever the two draws are: jitter never lets a later delay undercut an earlier one. */
  lemma DelayOrdered(s: RetryStrategy, n: nat, drawNow: real, drawNext: real)
    requires Backoff(s) && n >= 1 && IsDraw(drawNow) && IsDraw(drawNext)
    ensures s.CalculateDelay(n, drawNow) <= s.CalculateDelay(n + 1, drawNext)
  {
    BaseIsPower(s, n - 1);
    JitterBounds(s, s.Base(n - 1), drawNow);
    JitterBounds(s, s.Base(n), drawNext);
    FloorMonotone(s.Jittered(s.Base(n - 1), drawNow), s.Jittered(s.Base(n), drawNext));
  }

  /** The first |draws| delays, with one draw each. */
  function Delays(s: RetryStrategy, draws: seq<real>): (delays: seq<real>)
    ensures |delays| == |draws|
  {
    seq(|draws|, i requires 0 <= i < |draws| => s.CalculateDelay(i + 1, draws[i]))
  }

  function Sum(delays: seq<real>): real {
    if delays == [] then 0.0 else Sum(delays[..|delays| - 1]) + delays[|delays| - 1]
  }

  /** Each delay is below the maximum and below the base of its own number. */
  ghost predicate Bounded(s: RetryStrategy, delays: seq<real>) {
    forall i :: 0 <= i < |delays| ==> delays[i] <= s.config.maxDelayMs && delays[i] <= s.Base(i + 1)
  }

  lemma DelaysBounded(s: RetryStrategy, draws: seq<real>)
    requires Backoff(s) && forall draw <- draws :: IsDraw(draw)
    ensures Bounded(s, Delays(s, draws))
  {
    forall i | 0 <= i < |draws|
      ensures Delays(s, draws)[i] <= s.config.maxDelayMs && Delays(s, draws)[i] <= s.Base(i + 1)
    {
      DelayBounds(s, i + 1, draws[i]);
    }
  }

  lemma {:induction false} SumBelowMax(s: RetryStrategy, delays: seq<real>, m: nat)
    requires m == |delays| && Bounded(s, delays)
    ensures Sum(delays) <= s.config.maxDelayMs * m as real
  {
    if m > 0 {
      SumBelowMax(s, delays[..m - 1], m - 1);
      OneMoreTimes(s.config.maxDelayMs, (m - 1) as real, m as real);
    }
  }

  lemma {:induction false} SumBelowBases(s: RetryStrategy, delays: seq<real>, m: nat)
    requires m == |delays| && Bounded(s, delays)
    ensures Sum(delays) <= 2.0 * s.Base(m) - 2.0 * s.Base(0)
  {
    if m > 0 {
      SumBelowBases(s, delays[..m - 1], m - 1);
    }
  }

  lemma FirstDelaysBelowMax(s: RetryStrategy, draws: seq<real>)
    requires Backoff(s) && forall draw <- draws :: IsDraw(draw)
    ensures Sum(Delays(s, draws)) <= s.config.maxDelayMs * |draws| as real
  {
    DelaysBounded(s, draws);
    SumBelowMax(s, Delays(s, draws), |draws|);
  }

  lemma FirstDelaysBelowGrowth(s: RetryStrategy, draws: seq<real>)
    requires Backoff(s) && forall draw <- draws :: IsDraw(draw)
    ensures Sum(Delays(s, draws)) <= s.config.initialDelayMs * (Pow2(|draws| + 1) - 2) as real
  {
    DelaysBounded(s, draws);
    BoundedSum(s, Delays(s, draws), |draws|);
  }

  /** The first |draws| delays together stay below both bounds of the design. */
  lemma FirstDelaysBounded(s: RetryStrategy, draws: seq<real>)
    requires Backoff(s) && forall draw <- draws :: IsDraw(draw)
    ensures Sum(Delays(s, draws)) <= s.config.maxDelayMs * |draws| as real
    ensures Sum(Delays(s, draws)) <= s.config.initialDelayMs * (Pow2(|draws| + 1) - 2) as real
  {
    FirstDelaysBelowMax(s, draws);
    FirstDelaysBelowGrowth(s, draws);
  }

  lemma BoundedSum(s: RetryStrategy, delays: seq<real>, m: nat)
    requires m == |delays| && Bounded(s, delays)
    ensures Sum(delays) <= s.config.maxDelayMs * m as real
    ensures Sum(delays) <= s.config.initialDelayMs * (Pow2(m + 1) - 2) as real
  {
    SumBelowMax(s, delays, m);
    SumBelowBases(s, delays, m);
    PowerGap(s, m);
  }

  lemma PowerGap(s: RetryStrategy, n: nat)
    ensures 2.0 * s.Base(n) - 2.0 * s.Base(0) == s.config.initialDelayMs * (Pow2(n + 1) - 2) as real
  {
    BaseIsPower(s, n);
    GapProduct(s.config.initialDelayMs, Pow2(n), Pow2(n + 1));
  }

  lemma GapProduct(d: real, p: int, q: int)
    requires q == 2 * p
    ensures 2.0 * (d * p as real) - 2.0 * d == d * (q - 2) as real
  {
    assert (q - 2) as real == 2.0 * (p as real) - 2.0;
  }

  /** The two backoff formulas differ by one in the exponent, except at the first attempt. */
  lemma BackoffIsNextDelay(s: RetryStrategy, n: int, draw: real)
    requires s.kind.Exponential?
    ensures n >= 2 ==> s.CalculateBackoff(n, draw) == s.CalculateDelay(n + 1, draw)
    ensures n <= 1 ==> s.CalculateBackoff(n, draw) == s.CalculateDelay(1, draw)
  {
  }

  lemma {:induction false} LinearBaseIsProduct(s: RetryStrategy, n: nat)
    ensures s.LinearBase(n) == s.config.initialDelayMs * n as real
  {
    if n > 0 {
      LinearBaseIsProduct(s, n - 1);
      OneMoreTimes(s.config.initialDelayMs, (n - 1) as real, n as real);
    }
  }

  lemma OneMoreTimes(d: real, x: real, y: real)
    requires y == x + 1.0
    ensures d * y == d * x + d
  {
  }

  /** The most that jitter can add to a LINEAR delay, which no draw reaches. */
  function LinearSpread(s: RetryStrategy, n: nat): real {
    s.LinearBase(n) * s.config.jitterFactor
  }

  /** The guard at attempt n: the longest jittered delay does not pass the next unjittered one, or that one is saturated
      already. */
  predicate LinearSteady(s: RetryStrategy, n: nat) {
    var next := s.LinearBase(n + 1).Floor as real;
    s.LinearBase(n) + LinearSpread(s, n) <= next + 1.0 || s.config.maxDelayMs <= next
  }

  ghost predicate LinearOrdered(s: RetryStrategy, n: nat) {
    forall now: real, next: real :: IsDraw(now) && IsDraw(next) ==> s.CalculateDelay(n, now) <= s.CalculateDelay(n + 1, next)
  }

  lemma LinearForm(s: RetryStrategy, n: nat, draw: real)
    requires s.kind.Linear? && n >= 1
    ensures s.CalculateDelay(n, draw) == s.Saturated(s.Jittered(s.LinearBase(n), draw))
  {
    assert Max(1, n) == n;
  }

  lemma JitterForm(s: RetryStrategy, base: real, draw: real)
    requires s.Valid()
    ensures s.Jittered(base, draw) == base + base * s.config.jitterFactor * draw
  {
    if s.config.jitterFactor == 0.0 {
      assert base * s.config.jitterFactor == 0.0;
      assert 0.0 * draw == 0.0;
    }
  }

  lemma {:induction false} LinearBases(s: RetryStrategy, n: nat)
    requires s.Valid()
    ensures 0.0 <= s.LinearBase(n) <= s.LinearBase(n + 1) && 0.0 <= LinearSpread(s, n)
  {
    if n > 0 {
      LinearBases(s, n - 1);
    }
    ScaleLess(0.0, s.LinearBase(n), s.config.jitterFactor);
  }

  /** A draw takes a part of the spread, and never all of it. */
  lemma ProperPart(spread: real, draw: real, part: real)
    requires 0.0 <= spread && IsDraw(draw) && part == spread * draw
    ensures 0.0 <= part && (part < spread || spread == 0.0 == part)
  {
    if spread == 0.0 {
      assert 0.0 * draw == 0.0;
    } else {
      ScaleLess(0.0, draw, spread);
      ProductBelow(spread, draw);
    }
  }

  lemma ProductBelow(x: real, y: real)
    requires x > 0.0 && y < 1.0
    ensures x * y < x
  {
    var z := 1.0 - y;
    assert x * z > 0.0;
    assert x * y == x * (1.0 - z) == x - x * z;
  }

  /** Jitter adds a proper part of its spread. */
  lemma JitterPart(s: RetryStrategy, base: real, draw: real, spread: real)
    requires s.Valid() && IsDraw(draw) && 0.0 <= base && spread == base * s.config.jitterFactor
    ensures var part := s.Jittered(base, draw) - base;
            0.0 <= part && (part < spread || spread == 0.0 == part)
  {
    if s.config.jitterFactor > 0.0 {
      Shrinks(base, s.config.jitterFactor);
      ProperPart(spread, draw, spread * draw);
    }
  }

  lemma BelowNext(a: real, spread: real, part: real, b: real)
    requires 0.0 <= a <= b && (part < spread || spread == 0.0 == part)
    requires a + spread <= b.Floor as real + 1.0
    ensures (a + part).Floor <= b.Floor
  {
    if spread == 0.0 == part {
      FloorMonotone(a, b);
    }
  }

  lemma LinearStep(a: real, spread: real, now: real, b: real, next: real, max: real)
    requires 0.0 <= a <= b <= next && (now - a < spread || spread == 0.0 == now - a)
    requires a + spread <= b.Floor as real + 1.0 || max <= b.Floor as real
    ensures MinR(now.Floor as real, max) <= MinR(next.Floor as real, max)
  {
    FloorMonotone(b, next);
    if a + spread <= b.Floor as real + 1.0 {
      BelowNext(a, spread, now - a, b);
    }
  }

  lemma SteadyIsOrdered(s: RetryStrategy, n: nat, now: real, next: real)
    requires s.kind.Linear? && s.Valid() && n >= 1 && LinearSteady(s, n) && IsDraw(now) && IsDraw(next)
    ensures s.CalculateDelay(n, now) <= s.CalculateDelay(n + 1, next)
  {
    var x := JitteredDelay(s, n, now);
    var y := JitteredDelay(s, n + 1, next);
    LinearBases(s, n);
    LinearStep(s.LinearBase(n), LinearSpread(s, n), x, s.LinearBase(n + 1), y, s.config.maxDelayMs);
  }

  lemma JitteredDelay(s: RetryStrategy, n: nat, draw: real) returns (delay: real)
    requires s.kind.Linear? && s.Valid() && n >= 1 && IsDraw(draw)
    ensures s.CalculateDelay(n, draw) == MinR(delay.Floor as real, s.config.maxDelayMs)
    ensures var part, spread := delay - s.LinearBase(n), LinearSpread(s, n);
            0.0 <= part && (part < spread || spread == 0.0 == part)
  {
    delay := s.Jittered(s.LinearBase(n), draw);
    LinearForm(s, n, draw);
    LinearBases(s, n);
    JitterPart(s, s.LinearBase(n), draw, LinearSpread(s, n));
  }

  /** The draw that lifts a jittered delay to a given value within its reach. */
  lemma NegativePart(spread: real, draw: real)
    ensures spread > 0.0 && draw < 0.0 ==> spread * draw < 0.0
  {
    if spread > 0.0 && draw < 0.0 {
      assert spread * (0.0 - draw) > 0.0;
    }
  }

  lemma DrawFor(base: real, spread: real, target: real) returns (draw: real)
    requires base <= target < base + spread
    ensures IsDraw(draw) && base + spread * draw == target
  {
    draw := (target - base) / spread;
    assert spread * draw == target - base;
    NegativePart(spread, draw);
    if draw >= 1.0 {
      ScaleLess(1.0, draw, spread);
    }
  }

  lemma JitterTo(s: RetryStrategy, base: real, spread: real, target: real) returns (draw: real)
    requires s.Valid() && spread == base * s.config.jitterFactor && base <= target < base + spread
    ensures IsDraw(draw) && s.Jittered(base, draw) == target
  {
    draw := DrawFor(base, spread, target);
    JitterForm(s, base, draw);
  }

  lemma UnsteadyIsNotOrdered(s: RetryStrategy, n: nat)
    requires s.kind.Linear? && s.Valid() && n >= 1 && !LinearSteady(s, n)
    ensures !LinearOrdered(s, n)
  {
    var a, b := s.LinearBase(n), s.LinearBase(n + 1);
    var target := b.Floor as real + 1.0;
    LinearBases(s, n);
    var now := JitterTo(s, a, LinearSpread(s, n), target);
    JitterForm(s, b, 0.0);
    LinearForm(s, n, now);
    LinearForm(s, n + 1, 0.0);
    assert target.Floor == b.Floor + 1;
    assert IsDraw(now) && IsDraw(0.0) && !(s.CalculateDelay(n, now) <= s.CalculateDelay(n + 1, 0.0));
  }

  /** Ordering under jitter is special to the exponential type: a LINEAR strategy keeps it at attempt n exactly when
      its guard holds. */
  lemma LinearOrderedExactly(s: RetryStrategy, n: nat)
    requires s.kind.Linear? && s.Valid() && n >= 1
    ensures LinearOrdered(s, n) <==> LinearSteady(s, n)
  {
    if LinearSteady(s, n) {
      forall now: real, next: real | IsDraw(now) && IsDraw(next)
        ensures s.CalculateDelay(n, now) <= s.CalculateDelay(n + 1, next)
      {
        SteadyIsOrdered(s, n, now, next);
      }
    } else {
      UnsteadyIsNotOrdered(s, n);
    }
  }

  // ---- The delays in closed form; attempts count from 1 ----

  lemma SaturatedForm(s: RetryStrategy, own: real, base: real, draw: real, delay: real)
    requires s.Valid() && own == base && delay == base + base * s.config.jitterFactor * draw
    ensures s.Saturated(s.Jittered(own, draw)) == MinR(delay.Floor as real, s.config.maxDelayMs)
  {
    JitterForm(s, base, draw);
    SameJitter(s, own, base, draw);
    SaturatedAt(s, s.Jittered(own, draw), delay);
  }

  lemma SameJitter(s: RetryStrategy, own: real, base: real, draw: real)
    requires own == base
    ensures s.Jittered(own, draw) == s.Jittered(base, draw)
  {
  }

  lemma SaturatedAt(s: RetryStrategy, x: real, y: real)
    requires x == y
    ensures s.Saturated(x) == MinR(y.Floor as real, s.config.maxDelayMs)
  {
  }

  lemma ExponentialForm(s: RetryStrategy, power: nat, n: int, draw: real)
    requires s.kind.Exponential? && power == Max(1, n) - 1
    ensures s.CalculateDelay(n, draw) == s.Saturated(s.Jittered(s.Base(power), draw))
  {
  }

  lemma ExponentialInNumbers(s: RetryStrategy, n: int, draw: real, base: real, delay: real)
    requires s.Valid() && s.kind.Exponential?
    requires base == s.config.initialDelayMs * Pow2(if n < 1 then 0 else n - 1) as real
    requires delay == base + base * s.config.jitterFactor * draw
    ensures s.CalculateDelay(n, draw) == MinR(delay.Floor as real, s.config.maxDelayMs)
  {
    var power := if n < 1 then 0 else n - 1;
    BaseIsPower(s, power);
    ExponentialForm(s, power, n, draw);
    SaturatedForm(s, s.Base(power), base, draw, delay);
  }

  lemma LinearAttempts(s: RetryStrategy, attempt: nat, n: int, draw: real)
    requires s.kind.Linear? && attempt == Max(1, n)
    ensures s.CalculateDelay(n, draw) == s.Saturated(s.Jittered(s.LinearBase(attempt), draw))
  {
  }

  lemma LinearInNumbers(s: RetryStrategy, n: int, draw: real, base: real, delay: real)
    requires s.Valid() && s.kind.Linear?
    requires base == s.config.initialDelayMs * (if n < 1 then 1 else n) as real
    requires delay == base + base * s.config.jitterFactor * draw
    ensures s.CalculateDelay(n, draw) == MinR(delay.Floor as real, s.config.maxDelayMs)
  {
    var attempt := if n < 1 then 1 else n;
    LinearBaseIsProduct(s, attempt);
    LinearAttempts(s, attempt, n, draw);
    SaturatedForm(s, s.LinearBase(attempt), base, draw, delay);
  }

  /** A strategy of any other type waits the initial delay, whatever the attempt and the draw. */
  lemma FixedInNumbers(s: RetryStrategy, n: int, draw: real)
    requires s.kind.Fixed? || s.kind.Unrecognised?
    ensures s.CalculateDelay(n, draw) == MinR(s.config.initialDelayMs.Floor as real, s.config.maxDelayMs)
  {
  }
}
