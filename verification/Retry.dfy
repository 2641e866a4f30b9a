/** Backoff arithmetic and the HTTP retry loop. Delays are exact reals; only the final floor rounds. */
module Retry {
  datatype Config = Config(enabled: bool, initialDelayMs: real, maxDelayMs: real, maxRetries: int)

  function Pow2(n: nat): (p: real)
    ensures p >= 1.0
  {
    if n == 0 then 1.0 else 2.0 * Pow2(n - 1)
  }

  function Min(x: real, y: real): real { if x <= y then x else y }

  function Base(attempt: int, cfg: Config): real {
    Min(cfg.maxDelayMs, cfg.initialDelayMs * Pow2(if attempt < 0 then 0 else attempt))
  }

  /** `random` is the draw in [0, 1). */
  function ComputeBackoffMs(attempt: int, cfg: Config, random: real): (ms: int)
    ensures ms >= 0
  {
    Jittered(Base(attempt, cfg), random)
  }

  function Jittered(base: real, random: real): (ms: int)
    ensures ms >= 0
  {
    var jitter := base * 0.2;
    var ms := (base - jitter + random * jitter * 2.0).Floor;
    if ms < 0 then 0 else ms
  }

  predicate Draw(random: real) { 0.0 <= random < 1.0 }

  predicate NonNegative(cfg: Config) { cfg.initialDelayMs >= 0.0 && cfg.maxDelayMs >= 0.0 }

  lemma BaseIsNonNegative(attempt: int, cfg: Config)
    requires NonNegative(cfg)
    ensures Base(attempt, cfg) >= 0.0
  {
    var p := Pow2(if attempt < 0 then 0 else attempt);
    assert cfg.initialDelayMs * p >= 0.0;
  }

  /** The base of the waits starts with the initial delay and doubles from one attempt to the next, up to the cap. */
  lemma BaseDoubles(attempt: int, cfg: Config)
    requires NonNegative(cfg)
    ensures attempt <= 0 ==> Base(attempt, cfg)
                             == if cfg.initialDelayMs > cfg.maxDelayMs then cfg.maxDelayMs else cfg.initialDelayMs
    ensures attempt >= 0 ==> var twice := Base(attempt, cfg) + Base(attempt, cfg);
                             Base(attempt + 1, cfg) == if twice > cfg.maxDelayMs then cfg.maxDelayMs else twice
  {
    BaseIsNonNegative(attempt, cfg);
    if attempt >= 0 {
      BaseIsNonNegative(attempt + 1, cfg);
      Twice(cfg.initialDelayMs, Pow2(attempt), Pow2(attempt + 1));
    } else {
      assert cfg.initialDelayMs * 1.0 == cfg.initialDelayMs;
    }
  }

  lemma ScaleMonotone(b: real, x: real, y: real)
    requires b >= 0.0 && x <= y
    ensures b * x <= b * y
  {
  }

  lemma JitteredAsScale(base: real, random: real)
    ensures var ms := (base * (0.8 + 0.4 * random)).Floor; Jittered(base, random) == if ms < 0 then 0 else ms
  {
    assert base - base * 0.2 + random * (base * 0.2) * 2.0 == base * (0.8 + 0.4 * random);
  }

  predicate WithinTwentyPercent(ms: int, base: real) {
    (base * 0.8).Floor <= ms <= (base * 1.2).Floor && ms as real <= base * 1.2
  }

  lemma JitterStaysInRange(base: real, random: real)
    requires base >= 0.0 && Draw(random)
    ensures WithinTwentyPercent(Jittered(base, random), base)
  {
    var jitter := base * 0.2;
    var part := Portion(jitter, random);
    FloorsBetween(base, jitter, part);
  }

  lemma Portion(whole: real, random: real) returns (part: real)
    requires whole >= 0.0 && Draw(random)
    ensures 0.0 <= part <= whole && part == random * whole
  {
    part := random * whole;
    Product(random, whole);
    Product(1.0 - random, whole);
    assert part + (1.0 - random) * whole == whole;
  }

  lemma Product(x: real, y: real)
    requires x >= 0.0 && y >= 0.0
    ensures x * y >= 0.0
  {
  }

  lemma FloorsBetween(base: real, jitter: real, part: real)
    requires 0.0 <= part <= jitter == base * 0.2
    ensures 0 <= (base * 0.8).Floor <= (base - jitter + part * 2.0).Floor <= (base * 1.2).Floor
    ensures (base - jitter + part * 2.0).Floor as real <= base * 1.2
  {
  }

  /** A wait stays within twenty percent of its base. */
  lemma BackoffStaysInRange(attempt: int, cfg: Config, random: real)
    requires NonNegative(cfg) && Draw(random)
    ensures WithinTwentyPercent(ComputeBackoffMs(attempt, cfg, random), Base(attempt, cfg))
  {
    BaseIsNonNegative(attempt, cfg);
    JitterStaysInRange(Base(attempt, cfg), random);
  }

  /** And every whole number of the range below its upper end is some draw's wait: the bounds are exact. */
  lemma EveryWaitInRangeOccurs(attempt: int, cfg: Config, ms: int) returns (random: real)
    requires NonNegative(cfg)
    requires (Base(attempt, cfg) * 0.8).Floor <= ms && ms as real < Base(attempt, cfg) * 1.2
    ensures Draw(random) && ComputeBackoffMs(attempt, cfg, random) == ms
  {
    BaseIsNonNegative(attempt, cfg);
    random := DrawFor(Base(attempt, cfg), ms);
    JitteredAsScale(Base(attempt, cfg), random);
  }

  lemma DrawFor(base: real, ms: int) returns (random: real)
    requires base >= 0.0 && (base * 0.8).Floor <= ms && ms as real < base * 1.2
    ensures Draw(random) && (base * (0.8 + 0.4 * random)).Floor == ms
  {
    var low := base * 0.8;
    if ms as real <= low {
      random := 0.0;
    } else {
      random := (ms as real - low) / (base * 0.4);
      DivisionInUnit(ms as real - low, base * 0.4);
      Expand(base, random);
    }
  }

  lemma Expand(b: real, q: real)
    ensures b * (0.8 + 0.4 * q) == b * 0.8 + q * (b * 0.4)
  {
  }

  lemma DivisionInUnit(x: real, y: real)
    requires 0.0 <= x < y
    ensures 0.0 <= x / y < 1.0 && (x / y) * y == x
  {
    var q := x / y;
    assert q * y == x;
    if q >= 1.0 {
      ScaleMonotone(y, 1.0, q);
    } else if q < 0.0 {
      ScaleMonotone(y, q, 0.0);
    }
  }

  // ---------- many waits ----------

  function Waits(cfg: Config, draws: seq<real>): seq<int> {
    seq(|draws|, k requires 0 <= k < |draws| => ComputeBackoffMs(k, cfg, draws[k]))
  }

  function Sum(waits: seq<int>): int {
    if waits == [] then 0 else Sum(waits[..|waits| - 1]) + waits[|waits| - 1]
  }

  ghost predicate AllDraws(draws: seq<real>) { forall k | 0 <= k < |draws| :: Draw(draws[k]) }

  /** n waits add up to at most 1.2 times n caps, and at most 1.2 times the geometric sum of the first delay. */
  ghost predicate WithinBounds(total: int, cfg: Config, n: nat) {
    && total as real <= 1.2 * (n as real * cfg.maxDelayMs)
    && total as real <= 1.2 * (cfg.initialDelayMs * (Pow2(n) - 1.0))
  }

  /** The n-th delay before the cap. */
  function Uncapped(first: real, n: nat): real {
    if n == 0 then first else 2.0 * Uncapped(first, n - 1)
  }

  lemma {:induction false} UncappedIsPower(first: real, n: nat)
    ensures Uncapped(first, n) == first * Pow2(n)
  {
    if n > 0 {
      UncappedIsPower(first, n - 1);
      Twice(first, Pow2(n - 1), Pow2(n));
    }
  }

  lemma Twice(first: real, p: real, twice: real)
    requires twice == 2.0 * p
    ensures first * twice == 2.0 * (first * p)
  {
  }

  /** The sum of the first n uncapped delays: all that comes before the n-th doubles to it, less one. */
  function Geometric(first: real, n: nat): real {
    if n == 0 then 0.0 else Geometric(first, n - 1) + Uncapped(first, n - 1)
  }

  lemma {:induction false} GeometricIsUncapped(first: real, n: nat)
    ensures Geometric(first, n) == Uncapped(first, n) - first
  {
    if n > 0 {
      GeometricIsUncapped(first, n - 1);
    }
  }

  lemma GeometricSum(first: real, n: nat)
    ensures Geometric(first, n) == first * (Pow2(n) - 1.0)
  {
    GeometricIsUncapped(first, n);
    UncappedIsPower(first, n);
    LessOne(first, Pow2(n));
  }

  lemma LessOne(first: real, p: real)
    ensures first * p - first == first * (p - 1.0)
  {
  }

  function Linear(cap: real, n: nat): real {
    if n == 0 then 0.0 else Linear(cap, n - 1) + cap
  }

  lemma {:induction false} LinearSum(cap: real, n: nat)
    ensures Linear(cap, n) == n as real * cap
  {
    if n > 0 {
      LinearSum(cap, n - 1);
      OneMore((n - 1) as real, cap);
    }
  }

  lemma OneMore(n: real, cap: real)
    ensures (n + 1.0) * cap == n * cap + cap
  {
  }

  lemma WaitUnderBoth(n: nat, cfg: Config, random: real)
    requires NonNegative(cfg) && Draw(random)
    ensures ComputeBackoffMs(n, cfg, random) as real <= 1.2 * cfg.maxDelayMs
    ensures ComputeBackoffMs(n, cfg, random) as real <= 1.2 * Uncapped(cfg.initialDelayMs, n)
  {
    BackoffAtMost(n, cfg, random);
    BaseAtMost(n, cfg);
    Raise(ComputeBackoffMs(n, cfg, random) as real, Base(n, cfg), cfg.maxDelayMs);
    Raise(ComputeBackoffMs(n, cfg, random) as real, Base(n, cfg), Uncapped(cfg.initialDelayMs, n));
  }

  lemma BackoffAtMost(n: nat, cfg: Config, random: real)
    requires NonNegative(cfg) && Draw(random)
    ensures ComputeBackoffMs(n, cfg, random) as real <= Base(n, cfg) * 1.2
  {
    BackoffStaysInRange(n, cfg, random);
  }

  lemma BaseAtMost(n: nat, cfg: Config)
    ensures Base(n, cfg) <= cfg.maxDelayMs && Base(n, cfg) <= Uncapped(cfg.initialDelayMs, n)
  {
    UncappedIsPower(cfg.initialDelayMs, n);
  }

  lemma Raise(wait: real, base: real, high: real)
    requires wait <= base * 1.2 && base <= high
    ensures wait <= 1.2 * high
  {
  }

  lemma {:induction false} TotalWaitIsLinear(cfg: Config, draws: seq<real>)
    requires NonNegative(cfg) && AllDraws(draws)
    ensures Sum(Waits(cfg, draws)) as real <= 1.2 * Linear(cfg.maxDelayMs, |draws|)
  {
    if draws != [] {
      var n := |draws| - 1;
      TotalWaitIsLinear(cfg, draws[..n]);
      WaitsSnoc(cfg, draws);
      WaitUnderBoth(n, cfg, draws[n]);
    }
  }

  lemma {:induction false} TotalWaitIsGeometric(cfg: Config, draws: seq<real>)
    requires NonNegative(cfg) && AllDraws(draws)
    ensures Sum(Waits(cfg, draws)) as real <= 1.2 * Geometric(cfg.initialDelayMs, |draws|)
  {
    if draws != [] {
      var n := |draws| - 1;
      TotalWaitIsGeometric(cfg, draws[..n]);
      WaitsSnoc(cfg, draws);
      WaitUnderBoth(n, cfg, draws[n]);
      AddWait(Sum(Waits(cfg, draws[..n])), ComputeBackoffMs(n, cfg, draws[n]),
              Geometric(cfg.initialDelayMs, n), Uncapped(cfg.initialDelayMs, n), Geometric(cfg.initialDelayMs, n + 1));
    }
  }

  lemma AddWait(total: int, wait: int, before: real, term: real, after: real)
    requires total as real <= 1.2 * before && wait as real <= 1.2 * term && after == before + term
    ensures (total + wait) as real <= 1.2 * after
  {
  }

  /** The first n waits together stay below both bounds. */
  lemma TotalWaitIsBounded(cfg: Config, draws: seq<real>)
    requires NonNegative(cfg) && AllDraws(draws)
    ensures WithinBounds(Sum(Waits(cfg, draws)), cfg, |draws|)
  {
    TotalWaitIsLinear(cfg, draws);
    TotalWaitIsGeometric(cfg, draws);
    BoundsAre(Sum(Waits(cfg, draws)), cfg, |draws|);
  }

  lemma BoundsAre(total: int, cfg: Config, n: nat)
    requires total as real <= 1.2 * Linear(cfg.maxDelayMs, n) && total as real <= 1.2 * Geometric(cfg.initialDelayMs, n)
    ensures WithinBounds(total, cfg, n)
  {
    LinearSum(cfg.maxDelayMs, n);
    GeometricSum(cfg.initialDelayMs, n);
  }

  lemma WaitsSnoc(cfg: Config, draws: seq<real>)
    requires draws != []
    ensures var n := |draws| - 1;
            Waits(cfg, draws) == Waits(cfg, draws[..n]) + [ComputeBackoffMs(n, cfg, draws[n])]
            && Sum(Waits(cfg, draws)) == Sum(Waits(cfg, draws[..n])) + ComputeBackoffMs(n, cfg, draws[n])
  {
    var n := |draws| - 1;
    assert Waits(cfg, draws)[..n] == Waits(cfg, draws[..n]);
  }

  // ---------- the HTTP loop ----------

  /** How one call would end: an answer, a status that is not a success, a TypeError as the fetch
      function throws on network failure, or any other error. */
  datatype Outcome<T> = Answer(value: T) | Status(code: int) | NetworkError | OtherError

  /** What the caller gets; `NoCallMade` is the error thrown below the loop. */
  datatype Result<T> = Success(value: T) | HttpFailure(code: int) | NetworkFailure | OtherFailure | NoCallMade

  predicate IsRetryableStatus(code: int) { 500 <= code < 600 }

  predicate Retryable<T>(cfg: Config, outcome: Outcome<T>) {
    cfg.enabled && (outcome.NetworkError? || (outcome.Status? && IsRetryableStatus(outcome.code)))
  }

  function Final<T>(outcome: Outcome<T>): Result<T> {
    match outcome
    case Answer(value) => Success(value)
    case Status(code) => HttpFailure(code)
    case NetworkError => NetworkFailure
    case OtherError => OtherFailure
  }

  /** Call number k is reached and gives the final result. */
  ghost predicate EndsAt<T>(cfg: Config, outcomes: seq<Outcome<T>>, k: nat)
    requires k < |outcomes|
  {
    && k <= cfg.maxRetries
    && (forall i | 0 <= i < k :: Retryable(cfg, outcomes[i]))
    && (k == cfg.maxRetries || !Retryable(cfg, outcomes[k]))
  }

  /** Both fetch methods: call k ends with `outcomes[k]`, and `draws[k]` is the random number of the
      wait after it. */
  method Fetch<T>(cfg: Config, outcomes: seq<Outcome<T>>, draws: seq<real>)
    returns (result: Result<T>, calls: nat, waits: seq<int>)
    requires |outcomes| == |draws| > cfg.maxRetries && AllDraws(draws)
    ensures cfg.maxRetries < 0 ==> calls == 0 && result.NoCallMade?
    ensures cfg.maxRetries >= 0 ==> 1 <= calls <= cfg.maxRetries + 1 && EndsAt(cfg, outcomes, calls - 1)
    ensures cfg.maxRetries >= 0 ==> result == Final(outcomes[calls - 1])
    ensures cfg.maxRetries >= 0 ==> (result.Success? <==> Answerable(cfg, outcomes))
    ensures cfg.maxRetries >= 0 && !cfg.enabled ==> calls == 1
    ensures waits == if calls == 0 then [] else Waits(cfg, draws[..calls - 1])
    ensures NonNegative(cfg) && cfg.maxRetries >= 0
            ==> WithinBounds(Sum(waits), cfg, calls - 1)
  {
    calls, waits := 0, [];
    var attempt := 0;
    while attempt <= cfg.maxRetries
      invariant 0 <= attempt && (attempt == 0 || attempt <= cfg.maxRetries)
      invariant calls == attempt && waits == Waits(cfg, draws[..attempt])
      invariant attempt > 0 ==> cfg.enabled
      invariant forall i | 0 <= i < attempt :: Retryable(cfg, outcomes[i])
      decreases cfg.maxRetries + 1 - attempt
    {
      calls := calls + 1;
      var outcome := outcomes[attempt];
      if Retryable(cfg, outcome) && attempt < cfg.maxRetries {
        waits := waits + [ComputeBackoffMs(attempt, cfg, draws[attempt])];
        attempt := attempt + 1;
        assert draws[..attempt][..attempt - 1] == draws[..attempt - 1];
        WaitsSnoc(cfg, draws[..attempt]);
      } else {
        if NonNegative(cfg) { TotalWaitIsBounded(cfg, draws[..attempt]); }
        SucceedsIff(cfg, outcomes, attempt);
        return Final(outcome), calls, waits;
      }
    }
    result := NoCallMade;
  }

  /** A call is worth retrying when retrying is on and the network failed or the server was at fault. */
  lemma WorthRetrying<T>(cfg: Config, outcome: Outcome<T>)
    ensures Retryable(cfg, outcome)
            <==> cfg.enabled && (outcome == NetworkError || exists code | 500 <= code <= 599 :: outcome == Status(code))
  {
  }

  /** Every outcome is told apart in the result. */
  lemma ResultTells<T>(outcome: Outcome<T>, value: T, code: int)
    ensures Final(outcome) == Success(value) <==> outcome == Answer(value)
    ensures Final(outcome) == HttpFailure(code) <==> outcome == Status(code)
    ensures Final(outcome) == NetworkFailure <==> outcome == NetworkError
    ensures Final(outcome) == OtherFailure <==> outcome == OtherError
  {
  }

  /** The ending call is unique, so the contract of `Fetch` fixes its whole result. */
  lemma EndIsUnique<T>(cfg: Config, outcomes: seq<Outcome<T>>, j: nat, k: nat)
    requires j < |outcomes| && k < |outcomes| && EndsAt(cfg, outcomes, j) && EndsAt(cfg, outcomes, k)
    ensures j == k
  {
  }

  /** One of the allowed calls would be answered, and every earlier one fails in a way worth retrying. */
  ghost predicate Answerable<T>(cfg: Config, outcomes: seq<Outcome<T>>) {
    exists k | 0 <= k < |outcomes| && k <= cfg.maxRetries ::
      outcomes[k].Answer? && forall i | 0 <= i < k :: Retryable(cfg, outcomes[i])
  }

  lemma SucceedsIff<T>(cfg: Config, outcomes: seq<Outcome<T>>, end: nat)
    requires end < |outcomes| && EndsAt(cfg, outcomes, end)
    ensures Final(outcomes[end]).Success? <==> Answerable(cfg, outcomes)
  {
    if k :| 0 <= k < |outcomes| && k <= cfg.maxRetries && outcomes[k].Answer?
            && forall i | 0 <= i < k :: Retryable(cfg, outcomes[i]) {
      EndIsUnique(cfg, outcomes, end, k);
    }
  }
}
