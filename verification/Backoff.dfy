/** Retrying with exponential backoff (internal/llm/retry.go). Durations are 64-bit integers that wrap. */
module Backoff {
  import opened Prelude
  import opened Decimal

  const TWO_62: int := 0x4000_0000_0000_0000

  datatype Retry = Retry(maxAttempts: Int64, baseDelay: Int64, maxDelay: Int64)

  /** NewRetry's defaults, in nanoseconds; the decorator is used when maxAttempts exceeds 1. */
  function Normalized(cfg: Retry): (r: Retry)
    ensures r.baseDelay > 0 && r.maxDelay > 0 && r.maxAttempts == cfg.maxAttempts
    ensures r.baseDelay == (if cfg.baseDelay > 0 then cfg.baseDelay else 250_000_000)
    ensures r.maxDelay == (if cfg.maxDelay > 0 then cfg.maxDelay else 5_000_000_000)
  {
    cfg.(baseDelay := if cfg.baseDelay <= 0 then 250_000_000 else cfg.baseDelay,
         maxDelay := if cfg.maxDelay <= 0 then 5_000_000_000 else cfg.maxDelay)
  }

  function Pow2(n: nat): (r: nat)
    ensures r >= 1
  {
    if n == 0 then 1 else 2 * Pow2(n - 1)
  }

  function Min(a: int, b: int): int { if a <= b then a else b }

  /** The doubling loop: n doublings of d, stopping at the first that reaches max. */
  function Doubled(d: Int64, max: Int64, n: nat): Int64
    decreases n
  {
    if n == 0 then d
    else
      var next := Wrap64(2 * d);
      if next >= max then max else Doubled(next, max, n - 1)
  }

  /** The delay of one attempt before jitter. */
  function Delay(base: Int64, max: Int64, attempt: nat): Int64
    requires attempt >= 1
  {
    Doubled(base, max, attempt - 1)
  }

  method BackoffDelay(base: Int64, max: Int64, attempt: nat) returns (d: Int64)
    requires attempt >= 1
    ensures d == Delay(base, max, attempt)
  {
    d := base;
    var i := 1;
    while i < attempt
      invariant 1 <= i <= attempt
      invariant Delay(base, max, attempt) == Doubled(d, max, attempt - i)
    {
      d := Wrap64(2 * d);
      if d >= max {
        d := max;
        break;
      }
      i := i + 1;
    }
  }

  /** The delay with jitter; rand.Int64N(half + 1) is `roll` reduced into range. */
  function WaitTime(base: Int64, max: Int64, attempt: nat, roll: nat): (w: Int64)
    requires attempt >= 1
    ensures var d := Delay(base, max, attempt); if d <= 0 then w == 0 else d / 2 <= w <= 2 * (d / 2) <= d
  {
    var d := Delay(base, max, attempt);
    if d <= 0 then 0 else d / 2 + roll % (d / 2 + 1)
  }

  /** The wait lies in [d/2, d], both ends possible. */
  method Wait(base: Int64, max: Int64, attempt: nat, roll: nat) returns (w: Int64)
    requires attempt >= 1
    ensures w == WaitTime(base, max, attempt, roll)
    ensures var d := Delay(base, max, attempt); if d <= 0 then w == 0 else d / 2 <= w <= 2 * (d / 2) <= d
    ensures var d := Delay(base, max, attempt); d > 0 && roll <= d / 2 ==> w == d / 2 + roll
  {
    var d := BackoffDelay(base, max, attempt);
    if d <= 0 { return 0; }
    var half := d / 2;
    w := half + roll % (half + 1);
  }

  // ------------------------------------------------ when the loop is exact

  /** `d` doubled until one more doubling would overflow. */
  function Top(d: int): (t: int)
    requires d > 0
    ensures t >= d && t >= TWO_62
    decreases TWO_62 - d
  {
    if d >= TWO_62 then d else Top(2 * d)
  }

  /** A delay configuration for which no doubling overflows before the cap stops it. */
  predicate Sane(base: Int64, max: Int64)
    requires base > 0
  {
    base <= max && base < TWO_62 && max <= Top(base)
  }

  lemma SaneStep(d: Int64, max: Int64)
    requires d > 0 && Sane(d, max) && 2 * d < max
    ensures Sane(2 * d, max)
  {
    assert Top(d) == Top(2 * d);
  }

  lemma AtLeast(a: int, b: int)
    requires a >= 1 && b >= 1
    ensures a * b >= a
  {
  }

  lemma {:induction false} DoubledExact(d: Int64, max: Int64, n: nat)
    requires d > 0 && Sane(d, max)
    ensures Doubled(d, max, n) == Min(d * Pow2(n), max)
    decreases n
  {
    if n != 0 {
      assert d * Pow2(n) == 2 * d * Pow2(n - 1);
      if 2 * d >= max {
        AtLeast(2 * d, Pow2(n - 1));
      } else {
        SaneStep(d, max);
        DoubledExact(2 * d, max, n - 1);
      }
    }
  }

  lemma {:induction false} DoubledOverflows(d: Int64, max: Int64) returns (n: nat)
    requires 0 < d < TWO_62 && Top(d) < max
    ensures Doubled(d, max, n) < 0
    decreases TWO_62 - d
  {
    if 2 * d >= TWO_62 {
      n := 2;
      OverflowStep(2 * d, max);
    } else {
      var m := DoubledOverflows(2 * d, max);
      n := m + 1;
    }
  }

  lemma OverflowStep(d: Int64, max: Int64)
    requires TWO_62 <= d && 0 < max
    ensures Doubled(d, max, 1) < 0
  {
    assert Doubled(Wrap64(2 * d), max, 0) == Wrap64(2 * d);
  }

  /** The delay of an attempt. */
  ghost predicate ExactAt(base: Int64, max: Int64, attempt: nat)
    requires attempt >= 1
  {
    Delay(base, max, attempt) == Min(base * Pow2(attempt - 1), max)
  }

  /** Every attempt waits min(base * 2^(attempt-1), max) exactly when base does not exceed max and no
      doubling below max leaves 64 bits. */
  lemma BackoffExactIff(base: Int64, max: Int64)
    requires base > 0 && max > 0
    ensures (forall attempt: nat :: attempt >= 1 ==> ExactAt(base, max, attempt)) <==> Sane(base, max)
  {
    if Sane(base, max) {
      forall attempt: nat | attempt >= 1 ensures ExactAt(base, max, attempt) {
        DoubledExact(base, max, attempt - 1);
      }
    } else if base > max {
      assert !ExactAt(base, max, 1);
    } else {
      var n := 1;
      if base >= TWO_62 {
        OverflowStep(base, max);
      } else {
        n := DoubledOverflows(base, max);
      }
      AtLeast(base, Pow2(n));
      assert !ExactAt(base, max, n + 1);
    }
  }

  /** A configuration that is not clamped on the first attempt: a base of 10s under the default cap of 5s. */
  lemma FirstAttemptUnclamped()
    ensures var cfg := Normalized(Retry(3, 10_000_000_000, 0));
            Delay(cfg.baseDelay, cfg.maxDelay, 1) == 2 * cfg.maxDelay as int
  {
  }

  // ---------------------------------------------------------------- the attempts

  datatype Error = Canceled | DeadlineExceeded | Http(code: int) | Transport

  predicate Retryable(e: Error) {
    match e
    case Canceled => false
    case DeadlineExceeded => false
    case Http(code) => code == 429 || code >= 500
    case Transport => true
  }

  /** Worth another call: a transport failure, HTTP status 429, or one from 500 on. Cancellation, an
      exceeded deadline and every other HTTP status are final. */
  ghost predicate Transient(e: Error) {
    e == Transport || e == Http(429) || (e.Http? && e.code >= 500)
  }

  /** What the surroundings do: the answer to call i, the jitter after it, and whether that sleep is cut short. */
  datatype World<!R> = World(answer: nat -> Result<R, Error>, roll: nat -> nat, cut: nat -> Option<Error>)

  /** How the sleep after call i ends; a sleep of no length is never cut short. */
  function Sleep<R>(cfg: Retry, world: World<R>, i: nat): Option<Error>
    requires i >= 1
  {
    if WaitTime(cfg.baseDelay, cfg.maxDelay, i, world.roll(i)) <= 0 then None else world.cut(i)
  }

  /** Calls 1 to n all failed in a way worth retrying and their sleeps ran to the end. */
  ghost predicate KeptTrying<R>(cfg: Retry, world: World<R>, n: nat) {
    forall i :: 1 <= i <= n ==> world.answer(i).Err? && Transient(world.answer(i).error) && Sleep(cfg, world, i).None?
  }

  /** The capped delays of the first n retries, added up. */
  function TotalDelay(base: Int64, max: Int64, n: nat): int {
    if n == 0 then 0 else TotalDelay(base, max, n - 1) + Min(base * Pow2(n - 1), max)
  }

  lemma {:induction false} TotalDelayGrows(base: Int64, max: Int64, n: nat, m: nat)
    requires n <= m && base > 0 && max > 0
    ensures TotalDelay(base, max, n) <= TotalDelay(base, max, m)
    decreases m
  {
    if n < m {
      AtLeast(base, Pow2(m - 1));
      TotalDelayGrows(base, max, n, m - 1);
    }
  }

  lemma WaitWithin(base: Int64, max: Int64, attempt: nat, w: Int64)
    requires base > 0 && max > 0 && attempt >= 1 && (0 < Delay(base, max, attempt) ==> w <= Delay(base, max, attempt))
    requires Delay(base, max, attempt) <= 0 ==> w == 0
    ensures Sane(base, max) ==> w <= Min(base * Pow2(attempt - 1), max)
  {
    AtLeast(base, Pow2(attempt - 1));
    if Sane(base, max) { DoubledExact(base, max, attempt - 1); }
  }

  /** The outcome is the first answer that is a success, a permanent failure or the last allowed, unless
      a sleep before it is cut short. At most maxAttempts calls are made, and the waits add up to at most
      the capped delays of maxAttempts - 1 retries. */
  method Complete<R>(cfg: Retry, world: World<R>) returns (r: Result<R, Error>, calls: nat, waited: int)
    requires cfg.maxAttempts > 1 && cfg.baseDelay > 0 && cfg.maxDelay > 0
    ensures 1 <= calls <= cfg.maxAttempts && KeptTrying(cfg, world, calls - 1)
    ensures var last := world.answer(calls);
            || (r == last && (last.Err? && Transient(last.error) ==> calls == cfg.maxAttempts))
            || (last.Err? && Transient(last.error) && calls < cfg.maxAttempts && Sleep(cfg, world, calls).Some? && r == Err(Sleep(cfg, world, calls).value))
    ensures 0 <= waited
    ensures Sane(cfg.baseDelay, cfg.maxDelay) ==> waited <= TotalDelay(cfg.baseDelay, cfg.maxDelay, cfg.maxAttempts - 1)
  {
    waited := 0;
    var attempt := 1;
    while attempt <= cfg.maxAttempts
      invariant 1 <= attempt <= cfg.maxAttempts && KeptTrying(cfg, world, attempt - 1)
      invariant 0 <= waited
      invariant Sane(cfg.baseDelay, cfg.maxDelay) ==> waited <= TotalDelay(cfg.baseDelay, cfg.maxDelay, attempt - 1)
    {
      var resp := world.answer(attempt);
      if resp.Ok? || !Retryable(resp.error) || attempt == cfg.maxAttempts {
        TotalDelayGrows(cfg.baseDelay, cfg.maxDelay, attempt - 1, cfg.maxAttempts - 1);
        return resp, attempt, waited;
      }
      var w := Wait(cfg.baseDelay, cfg.maxDelay, attempt, world.roll(attempt));
      WaitWithin(cfg.baseDelay, cfg.maxDelay, attempt, w);
      waited := waited + w;
      if w > 0 && world.cut(attempt).Some? {
        TotalDelayGrows(cfg.baseDelay, cfg.maxDelay, attempt, cfg.maxAttempts - 1);
        return Err(world.cut(attempt).value), attempt, waited;
      }
      attempt := attempt + 1;
    }
    assert false;
  }
}
