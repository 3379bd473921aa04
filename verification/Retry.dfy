/** Retrying with exponential backoff. */
module Retry {
  import opened Wrappers

  datatype RetryConfig = RetryConfig(
    maxAttempts: int,
    baseDelay: real,
    maxDelay: real,
    backoffMultiplier: real,
    jitter: bool)

  /** The parts of an error the retry looks at. */
  datatype CallError = CallError(code: string, status: Option<int>)

  /** What one call of the operation came back with. */
  datatype Attempt<V> = Returned(value: V) | Threw(error: CallError)

  const RETRYABLE_CODES := {
    "ECONNRESET", "ENOTFOUND", "ESOCKETTIMEDOUT", "ETIMEDOUT",
    "ECONNREFUSED", "EHOSTUNREACH", "EPIPE", "EAI_AGAIN"}

  predicate IsGenericRetryable(e: CallError) {
    || e.code in RETRYABLE_CODES
    || (e.status.Some? && (e.status.value >= 500 || e.status.value == 408 || e.status.value == 429))
  }

  predicate ShouldRetry(e: CallError, custom: Option<CallError -> bool>) {
    (custom.Some? && custom.value(e)) || IsGenericRetryable(e)
  }

  /** Call number k was the last one: it succeeded, must not be retried, or was the last allowed. */
  predicate Stops<V>(a: Attempt<V>, k: int, cfg: RetryConfig, custom: Option<CallError -> bool>) {
    a.Returned? || k == cfg.maxAttempts || !ShouldRetry(a.error, custom)
  }

  /** Exactly the outcomes one execution can collect: it stops at the first call that stops
      it, and makes no call at all when no attempt is allowed. */
  predicate RetryRun<V>(calls: seq<Attempt<V>>, cfg: RetryConfig, custom: Option<CallError -> bool>) {
    if cfg.maxAttempts <= 0 then calls == []
    else
      && 1 <= |calls| <= cfg.maxAttempts
      && Stops(calls[|calls| - 1], |calls|, cfg, custom)
      && NoneStops(calls[..|calls| - 1], cfg, custom)
  }

  predicate NoneStops<V>(calls: seq<Attempt<V>>, cfg: RetryConfig, custom: Option<CallError -> bool>) {
    forall k :: 0 <= k < |calls| ==> !Stops(calls[k], k + 1, cfg, custom)
  }

  // ---- Delays ----

  function Pow(b: real, n: nat): real {
    if n == 0 then 1.0 else b * Pow(b, n - 1)
  }

  function Round(x: real): int {
    (x + 0.5).Floor
  }

  function Least(x: real, y: real): real {
    if x < y then x else y
  }

  function Exponential(attempt: nat, cfg: RetryConfig): real
    requires attempt >= 1
  {
    cfg.baseDelay * Pow(cfg.backoffMultiplier, attempt - 1)
  }

  function Backoff(attempt: nat, cfg: RetryConfig): real
    requires attempt >= 1
  {
    Least(Exponential(attempt, cfg), cfg.maxDelay)
  }

  /** random is the number in [0, 1) drawn for this delay. */
  function Delay(attempt: nat, cfg: RetryConfig, random: real): int
    requires attempt >= 1
  {
    var delay := Backoff(attempt, cfg);
    Round(if cfg.jitter then delay + delay * 0.2 * (random - 0.5) else delay)
  }

  predicate NonNegative(cfg: RetryConfig) {
    cfg.baseDelay >= 0.0 && cfg.maxDelay >= 0.0 && cfg.backoffMultiplier >= 0.0
  }

  lemma ProductNonNegative(x: real, y: real)
    requires x >= 0.0 && y >= 0.0
    ensures x * y >= 0.0
  {
  }

  lemma {:induction false} PowNonNegative(b: real, n: nat)
    requires b >= 0.0
    ensures Pow(b, n) >= 0.0
  {
    if n > 0 {
      PowNonNegative(b, n - 1);
    }
  }

  lemma JitterBounds(d: real, random: real)
    requires d >= 0.0 && 0.0 <= random < 1.0
    ensures 0.9 * d <= d + d * 0.2 * (random - 0.5) <= 1.1 * d
  {
    var j := 0.2 * (random - 0.5);
    assert -0.1 <= j <= 0.1;
    assert d * 0.2 * (random - 0.5) == d * j;
    assert -0.1 * d <= d * j <= 0.1 * d;
  }

  lemma RoundMonotone(x: real, y: real)
    requires x <= y
    ensures Round(x) <= Round(y)
  {
  }

  /** A delay is within ten per cent of the capped backoff, before rounding, and so never
      above round(1.1 * maxDelay). */
  lemma DelayBounds(attempt: nat, cfg: RetryConfig, random: real)
    requires attempt >= 1 && NonNegative(cfg) && 0.0 <= random < 1.0
    ensures Round(0.9 * Backoff(attempt, cfg)) <= Delay(attempt, cfg, random) <= Round(1.1 * Backoff(attempt, cfg))
    ensures 0 <= Delay(attempt, cfg, random) <= Round(1.1 * cfg.maxDelay)
  {
    var d := Backoff(attempt, cfg);
    ExponentialNonNegative(attempt, cfg);
    assert 0.0 <= d <= cfg.maxDelay;
    JitterBounds(d, random);
    RoundMonotone(1.1 * d, 1.1 * cfg.maxDelay);
    RoundMonotone(0.0, 0.9 * d);
    RoundMonotone(0.9 * d, d);
    RoundMonotone(d, 1.1 * d);
    if cfg.jitter {
      RoundMonotone(0.9 * d, d + d * 0.2 * (random - 0.5));
      RoundMonotone(d + d * 0.2 * (random - 0.5), 1.1 * d);
    }
  }

  lemma Stretch(p: real, factor: real)
    requires p >= 0.0 && factor >= 1.0
    ensures p <= factor * p
  {
    ProductNonNegative(factor - 1.0, p);
    assert (factor - 1.0) * p == factor * p - p;
  }

  lemma ExponentialMultiplies(attempt: nat, cfg: RetryConfig)
    requires attempt >= 1
    ensures Exponential(1, cfg) == cfg.baseDelay
    ensures Exponential(attempt + 1, cfg) == cfg.backoffMultiplier * Exponential(attempt, cfg)
  {
    var p := Pow(cfg.backoffMultiplier, attempt - 1);
    assert Pow(cfg.backoffMultiplier, 0) == 1.0;
    assert Pow(cfg.backoffMultiplier, attempt) == cfg.backoffMultiplier * p;
    Regroup(cfg.baseDelay, cfg.backoffMultiplier, p);
  }

  lemma Regroup(x: real, y: real, z: real)
    ensures x * (y * z) == y * (x * z)
  {
  }

  lemma ExponentialNonNegative(attempt: nat, cfg: RetryConfig)
    requires attempt >= 1 && NonNegative(cfg)
    ensures Exponential(attempt, cfg) >= 0.0
  {
    PowNonNegative(cfg.backoffMultiplier, attempt - 1);
    ProductNonNegative(cfg.baseDelay, Pow(cfg.backoffMultiplier, attempt - 1));
  }

  lemma CapTwice(x: real, factor: real, cap: real)
    requires x >= 0.0 && cap >= 0.0 && factor >= 1.0
    ensures Least(factor * x, cap) == Least(factor * Least(x, cap), cap) >= Least(x, cap)
  {
    Stretch(x, factor);
    Stretch(cap, factor);
  }

  /** The first delay is the base, each further one the multiplier times as long, up to the cap. */
  lemma BackoffMultiplies(attempt: nat, cfg: RetryConfig)
    requires attempt >= 1 && NonNegative(cfg) && cfg.backoffMultiplier >= 1.0
    ensures Backoff(1, cfg) == Least(cfg.baseDelay, cfg.maxDelay)
    ensures Backoff(attempt + 1, cfg) == Least(cfg.backoffMultiplier * Backoff(attempt, cfg), cfg.maxDelay)
  {
    ExponentialNonNegative(attempt, cfg);
    ExponentialMultiplies(attempt, cfg);
    CapTwice(Exponential(attempt, cfg), cfg.backoffMultiplier, cfg.maxDelay);
  }

  /** Backoffs never shrink from one attempt to the next when the multiplier is at least 1. */
  lemma BackoffGrows(attempt: nat, cfg: RetryConfig)
    requires attempt >= 1 && NonNegative(cfg) && cfg.backoffMultiplier >= 1.0
    ensures Backoff(attempt, cfg) <= Backoff(attempt + 1, cfg)
  {
    ExponentialNonNegative(attempt, cfg);
    ExponentialMultiplies(attempt, cfg);
    CapTwice(Exponential(attempt, cfg), cfg.backoffMultiplier, cfg.maxDelay);
  }

  function Total(slept: seq<int>): int {
    if slept == [] then 0 else Total(slept[..|slept| - 1]) + slept[|slept| - 1]
  }

  lemma {:induction false} TotalBound(slept: seq<int>, each: int)
    requires each >= 0 && forall k :: 0 <= k < |slept| ==> slept[k] <= each
    ensures Total(slept) <= |slept| * each
  {
    if slept != [] {
      var n := |slept| - 1;
      TotalBound(slept[..n], each);
      assert (n + 1) * each == n * each + each;
    }
  }

  // ---- The loop ----

  /** What the first n calls come back with; call(k) is the k-th. */
  function Calls<V>(call: nat -> Attempt<V>, n: nat): seq<Attempt<V>> {
    seq(n, k requires 0 <= k < n => call(k + 1))
  }

  /** random(k) is the number drawn after the k-th call. When no attempt is allowed nothing is
      called and the result is nothing at all. */
  method ExecuteWithRetry<V>(call: nat -> Attempt<V>, cfg: RetryConfig, custom: Option<CallError -> bool>,
                             random: nat -> real)
    returns (result: Option<Attempt<V>>, attempts: nat, slept: seq<int>)
    ensures RetryRun(Calls(call, attempts), cfg, custom)
    ensures result == if attempts == 0 then None else Some(call(attempts))
    ensures |slept| == if attempts == 0 then 0 else attempts - 1
    ensures forall k :: 0 <= k < |slept| ==> slept[k] == Delay(k + 1, cfg, random(k + 1))
  {
    attempts := 0;
    slept := [];
    result := None;
    while attempts < cfg.maxAttempts
      invariant cfg.maxAttempts >= 1 ==> attempts <= cfg.maxAttempts
      invariant cfg.maxAttempts <= 0 ==> attempts == 0
      invariant NoneStops(Calls(call, attempts), cfg, custom)
      invariant |slept| == attempts
      invariant forall k :: 0 <= k < |slept| ==> slept[k] == Delay(k + 1, cfg, random(k + 1))
    {
      ghost var before := Calls(call, attempts);
      attempts := attempts + 1;
      var outcome := call(attempts);
      assert Calls(call, attempts) == before + [outcome];
      if outcome.Returned? {
        return Some(outcome), attempts, slept;
      }
      if attempts == cfg.maxAttempts || !ShouldRetry(outcome.error, custom) {
        return Some(outcome), attempts, slept;
      }
      slept := slept + [Delay(attempts, cfg, random(attempts))];
    }
    assert cfg.maxAttempts >= 1 ==> !Stops(Calls(call, attempts)[attempts - 1], attempts, cfg, custom);
  }

  lemma NotOverYet<V>(call: nat -> Attempt<V>, cfg: RetryConfig, custom: Option<CallError -> bool>, m: nat, n: nat)
    requires m < n && RetryRun(Calls(call, n), cfg, custom)
    ensures !RetryRun(Calls(call, m), cfg, custom)
  {
    if m > 0 {
      assert !Stops(Calls(call, n)[..n - 1][m - 1], m, cfg, custom);
      assert Calls(call, n)[m - 1] == Calls(call, m)[m - 1];
    }
  }

  /** The number of calls is determined by what they come back with. */
  lemma AttemptsUnique<V>(call: nat -> Attempt<V>, cfg: RetryConfig, custom: Option<CallError -> bool>, m: nat, n: nat)
    requires RetryRun(Calls(call, m), cfg, custom) && RetryRun(Calls(call, n), cfg, custom)
    ensures m == n
  {
    if m < n {
      NotOverYet(call, cfg, custom, m, n);
    } else if n < m {
      NotOverYet(call, cfg, custom, n, m);
    }
  }

  /** Without a predicate of the caller, an answer with a status is tried again exactly for
      server errors, time-outs and too many requests, unless its code alone says so. */
  lemma RetriedStatuses<V>(e: CallError, k: int, cfg: RetryConfig)
    requires e.code !in RETRYABLE_CODES && k < cfg.maxAttempts
    ensures e.status.None? ==> Stops<V>(Threw(e), k, cfg, None)
    ensures e.status.Some? && e.status.value < 500 ==>
      (!Stops<V>(Threw(e), k, cfg, None) <==> e.status.value == 408 || e.status.value == 429)
    ensures e.status.Some? && e.status.value >= 500 ==> !Stops<V>(Threw(e), k, cfg, None)
  {
  }

  /** And a broken connection by its code, whatever the status. */
  lemma RetriedCodes<V>(e: CallError, k: int, cfg: RetryConfig)
    requires e.status.None? && k < cfg.maxAttempts
    ensures !Stops<V>(Threw(e), k, cfg, None) <==>
            || e.code == "ECONNRESET" || e.code == "ENOTFOUND" || e.code == "ESOCKETTIMEDOUT" || e.code == "ETIMEDOUT"
            || e.code == "ECONNREFUSED" || e.code == "EHOSTUNREACH" || e.code == "EPIPE" || e.code == "EAI_AGAIN"
  {
  }

  /** So an execution whose calls all fail makes a single call when the first error is not of
      these kinds, and maxAttempts when all are. */
  lemma CallsOfFailures<V>(calls: seq<Attempt<V>>, cfg: RetryConfig)
    requires RetryRun(calls, cfg, None) && cfg.maxAttempts >= 1
    requires forall k :: 0 <= k < |calls| ==> calls[k].Threw?
    ensures !IsGenericRetryable(calls[0].error) ==> |calls| == 1
    ensures (forall k :: 0 <= k < |calls| ==> IsGenericRetryable(calls[k].error)) ==> |calls| == cfg.maxAttempts
  {
    var front := calls[..|calls| - 1];
    if |calls| > 1 {
      assert !Stops(front[0], 1, cfg, None);
    }
  }

  /** A predicate of the caller can only add errors that are tried again. */
  lemma CustomOnlyAdds<V>(e: CallError, k: int, cfg: RetryConfig, custom: CallError -> bool)
    requires k < cfg.maxAttempts
    ensures Stops<V>(Threw(e), k, cfg, Some(custom)) <==> Stops<V>(Threw(e), k, cfg, None) && !custom(e)
  {
  }

  /** The delay is the whole number of milliseconds nearest to the backoff, or with jitter to
      a point between nine and eleven tenths of it that moves up with the random number. */
  lemma DelayIsNearest(attempt: nat, cfg: RetryConfig, random: real)
    requires attempt >= 1
    ensures var b, delay := Backoff(attempt, cfg), Delay(attempt, cfg, random) as real;
      && (!cfg.jitter ==> -0.5 < delay - b <= 0.5)
      && (cfg.jitter ==> -0.5 < delay - (0.9 * b + 0.2 * (b * random)) <= 0.5)
  {
    var b := Backoff(attempt, cfg);
    JitterSplits(b, random);
    RoundsToNearest(b);
    RoundsToNearest(b + b * 0.2 * (random - 0.5));
  }

  lemma JitterSplits(b: real, random: real)
    ensures b + b * 0.2 * (random - 0.5) == 0.9 * b + 0.2 * (b * random)
  {
  }

  lemma RoundsToNearest(x: real)
    ensures -0.5 < Round(x) as real - x <= 0.5
  {
  }

  /** All the sleeping of one execution together. */
  lemma SleepBound(cfg: RetryConfig, random: nat -> real, slept: seq<int>)
    requires NonNegative(cfg) && forall k :: 0.0 <= random(k) < 1.0
    requires |slept| < cfg.maxAttempts
    requires forall k :: 0 <= k < |slept| ==> slept[k] == Delay(k + 1, cfg, random(k + 1))
    ensures Total(slept) <= (cfg.maxAttempts - 1) * Round(1.1 * cfg.maxDelay)
  {
    var each := Round(1.1 * cfg.maxDelay);
    forall k | 0 <= k < |slept| ensures slept[k] <= each {
      DelayBounds(k + 1, cfg, random(k + 1));
    }
    RoundMonotone(0.0, 1.1 * cfg.maxDelay);
    TotalBound(slept, each);
    TimesLe(|slept|, cfg.maxAttempts - 1, each);
  }

  lemma TimesLe(m: int, n: int, each: int)
    requires m <= n && each >= 0
    ensures m * each <= n * each
  {
  }
}
