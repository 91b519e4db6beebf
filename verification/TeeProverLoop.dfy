/**
 The retry loop of the TEE prover (core/bin/zksync_tee_prover/src/tee_prover.rs:137-218).

 A run sees a finite stream of step outcomes and then the stop signal, unless it ends earlier with an error.
 Durations are numbers of seconds. How a duration is scaled is part of the configuration, so that the loop is
 specified whatever the rounding of the multiplication is; closed forms are given for exact multiplication.
 */
module TeeProverLoop {

  type Duration = x: real | 0.0 <= x

  // `scale` multiplies by the backoff multiplier. A negative multiplier is excluded: scaling by it panics.
  datatype Config = Config(maxRetries: nat, initialRetryBackoff: Duration, scale: Duration -> Duration,
                           maxBackoff: Duration)

  function DefaultConfig(): Config {
    Config(5, 1.0, (x: Duration) => x * 2.0, 128.0)
  }

  datatype Outcome =
    | Proved(batch: nat)
    | NoJob
    | RetriableError
    | FatalError

  datatype Ending = NotRegistered | Stopped | GaveUp(error: Outcome)

  function Min(a: Duration, b: Duration): Duration {
    if a <= b then a else b
  }

  // ---------- Consecutive failures ----------

  // Number of retriable failures in a row right before outcome `i`.
  function Streak(outcomes: seq<Outcome>, i: nat): nat
    requires i <= |outcomes|
  {
    if i > 0 && outcomes[i - 1].RetriableError? then Streak(outcomes, i - 1) + 1 else 0
  }

  // Outcomes `i - k` up to `i` are retriable failures.
  predicate FailsInARow(outcomes: seq<Outcome>, i: nat, k: nat)
    requires i < |outcomes|
  {
    k <= i && forall j :: i - k <= j <= i ==> outcomes[j].RetriableError?
  }

  // The loop gives up at outcome `i`: the failure cannot be retried, or it is failure number `maxRetries + 1` in a row.
  predicate GivesUpAt(config: Config, outcomes: seq<Outcome>, i: nat)
    requires i < |outcomes|
  {
    outcomes[i].FatalError? || FailsInARow(outcomes, i, config.maxRetries)
  }

  lemma {:induction false} StreakCounts(outcomes: seq<Outcome>, i: nat, k: nat)
    requires i < |outcomes|
    ensures outcomes[i].RetriableError? && Streak(outcomes, i) >= k <==> FailsInARow(outcomes, i, k)
  {
    if i > 0 && k > 0 {
      StreakCounts(outcomes, i - 1, k - 1);
      if FailsInARow(outcomes, i, k) {
        assert FailsInARow(outcomes, i - 1, k - 1);
      }
    }
  }

  // ---------- Backoff ----------

  // Backoff after `k` failures in a row, as the loop computes it.
  function Backoff(config: Config, k: nat): Duration {
    if k == 0 then config.initialRetryBackoff else Min(config.scale(Backoff(config, k - 1)), config.maxBackoff)
  }

  // The initial backoff scaled `k` times, without a maximum.
  function Uncapped(config: Config, k: nat): Duration {
    if k == 0 then config.initialRetryBackoff else config.scale(Uncapped(config, k - 1))
  }

  ghost predicate MultipliesBy(config: Config, m: Duration) {
    forall x: Duration :: config.scale(x) == x * m
  }

  ghost predicate Monotone(config: Config) {
    forall x: Duration, y: Duration :: x <= y ==> config.scale(x) <= config.scale(y)
  }

  ghost predicate Grows(config: Config) {
    forall x: Duration :: x <= config.scale(x)
  }

  ghost predicate Shrinks(config: Config) {
    forall x: Duration :: config.scale(x) <= x
  }

  // With a multiplier below one, a maximum that already cuts off the first step is forgotten in the next one.
  ghost predicate CapIsKept(config: Config, m: Duration) {
    m >= 1.0 || config.scale(config.initialRetryBackoff) <= config.maxBackoff || config.maxBackoff == 0.0
  }

  lemma Scale(x: Duration, y: Duration, m: Duration)
    requires x <= y
    ensures x * m <= y * m
  {
  }

  lemma ScaleOne(x: Duration, m: Duration)
    ensures m >= 1.0 ==> x <= x * m
    ensures m <= 1.0 ==> x * m <= x
  {
    var more := m - 1.0;
    assert x * m == x + x * more;
  }

  lemma MultiplicationScales(config: Config, m: Duration)
    requires MultipliesBy(config, m)
    ensures Monotone(config)
    ensures m >= 1.0 ==> Grows(config)
    ensures m <= 1.0 ==> Shrinks(config)
  {
    forall x: Duration, y: Duration | x <= y ensures config.scale(x) <= config.scale(y) {
      Scale(x, y, m);
      assert config.scale(x) == x * m && config.scale(y) == y * m;
    }
    forall x: Duration ensures (m >= 1.0 ==> x <= config.scale(x)) && (m <= 1.0 ==> config.scale(x) <= x) {
      ScaleOne(x, m);
      assert config.scale(x) == x * m;
    }
  }

  lemma {:induction false} UncappedShrinks(config: Config, k: nat)
    requires Shrinks(config) && 1 <= k
    ensures Uncapped(config, k) <= config.scale(config.initialRetryBackoff)
  {
    if k > 1 {
      UncappedShrinks(config, k - 1);
    }
  }

  lemma {:induction false} BackoffIsCapped(config: Config, k: nat)
    requires Monotone(config) && 1 <= k
    requires || Grows(config)
             || (Shrinks(config) && config.scale(config.initialRetryBackoff) <= config.maxBackoff)
             || config.maxBackoff == 0.0
    ensures Backoff(config, k) == Min(Uncapped(config, k), config.maxBackoff)
  {
    if k == 1 {
      assert Backoff(config, 0) == Uncapped(config, 0);
    } else {
      BackoffIsCapped(config, k - 1);
      if !Grows(config) && config.maxBackoff != 0.0 {
        UncappedShrinks(config, k - 1);
      }
    }
  }

  lemma {:induction false} CapIsForgotten(config: Config, m: Duration)
    requires MultipliesBy(config, m) && !CapIsKept(config, m)
    ensures Backoff(config, 2) < Min(Uncapped(config, 2), config.maxBackoff)
  {
    var first, cap := config.scale(config.initialRetryBackoff), config.maxBackoff;
    assert Backoff(config, 0) == Uncapped(config, 0) == config.initialRetryBackoff;
    assert Backoff(config, 1) == cap && Uncapped(config, 1) == first;
    StrictlyBetween(config, m, cap, first);
    MultiplicationScales(config, m);
  }

  lemma StrictlyBetween(config: Config, m: Duration, cap: Duration, first: Duration)
    requires MultipliesBy(config, m) && first == config.scale(config.initialRetryBackoff)
    requires m < 1.0 && 0.0 < cap < first
    ensures config.scale(cap) < cap && config.scale(cap) < config.scale(first)
  {
    assert m != 0.0;
  }

  // After every number of failures in a row the backoff is min(initial * m^k, max).
  ghost predicate FollowsPowers(config: Config, m: Duration) {
    forall k: nat :: 1 <= k ==> BackoffIsPower(config, m, k)
  }

  ghost predicate BackoffIsPower(config: Config, m: Duration, k: nat) {
    Backoff(config, k) == CappedPower(config, m, k)
  }

  function CappedPower(config: Config, m: Duration, k: nat): Duration {
    Min(Multiplied(config.initialRetryBackoff, m, k), config.maxBackoff)
  }

  // `x`, multiplied `k` times by `m`.
  function Multiplied(x: Duration, m: Duration, k: nat): Duration {
    if k == 0 then x else Multiplied(x, m, k - 1) * m
  }

  function Power(m: Duration, k: nat): Duration {
    if k == 0 then 1.0 else Power(m, k - 1) * m
  }

  lemma Regroup(x: Duration, y: Duration, z: Duration)
    ensures (x * y) * z == x * (y * z)
  {
  }

  /** Multiplying `k` times by `m` is multiplying by m^k. */
  lemma {:induction false} MultipliedIsPower(x: Duration, m: Duration, k: nat)
    ensures Multiplied(x, m, k) == x * Power(m, k)
  {
    if k > 0 {
      MultipliedIsPower(x, m, k - 1);
      Regroup(x, Power(m, k - 1), m);
    }
  }

  lemma {:induction false} UncappedIsMultiplied(config: Config, m: Duration, k: nat)
    requires MultipliesBy(config, m)
    ensures Uncapped(config, k) == Multiplied(config.initialRetryBackoff, m, k)
  {
    if k > 0 {
      UncappedIsMultiplied(config, m, k - 1);
    }
  }

  lemma KeptCapGivesPower(config: Config, m: Duration, k: nat)
    requires MultipliesBy(config, m) && CapIsKept(config, m) && 1 <= k
    ensures BackoffIsPower(config, m, k)
  {
    MultiplicationScales(config, m);
    BackoffIsCapped(config, k);
    UncappedIsMultiplied(config, m, k);
  }

  lemma ForgottenCapGivesNoPower(config: Config, m: Duration)
    requires MultipliesBy(config, m) && !CapIsKept(config, m)
    ensures !BackoffIsPower(config, m, 2)
  {
    CapIsForgotten(config, m);
    UncappedIsMultiplied(config, m, 2);
  }

  /** The backoff after `k` failures in a row is min(initial * multiplier^k, max) for every `k`, if and only if the
      multiplier is at least one, or the maximum does not cut off the first step, or the maximum is zero. */
  lemma BackoffIsPowerIff(config: Config, m: Duration)
    requires MultipliesBy(config, m)
    ensures FollowsPowers(config, m) <==> CapIsKept(config, m)
  {
    if CapIsKept(config, m) {
      forall k: nat | 1 <= k ensures BackoffIsPower(config, m, k) {
        KeptCapGivesPower(config, m, k);
      }
    } else {
      ForgottenCapGivesNoPower(config, m);
    }
  }

  // The schedule that the configuration documents: retry number `k` waits initial * m^(k - 1), at most the maximum.
  ghost predicate FollowsDocumentation(config: Config, m: Duration) {
    forall k: nat :: 1 <= k ==> IsDocumented(config, m, k)
  }

  ghost predicate IsDocumented(config: Config, m: Duration, k: nat)
    requires 1 <= k
  {
    Backoff(config, k) == CappedPower(config, m, k - 1)
  }

  // One multiplication more makes no difference.
  predicate StartsConstant(config: Config, m: Duration) {
    || config.initialRetryBackoff == 0.0 || config.maxBackoff == 0.0 || m == 1.0
    || (m > 1.0 && config.initialRetryBackoff >= config.maxBackoff)
  }

  lemma {:induction false} UncappedGrows(config: Config, k: nat)
    requires Grows(config)
    ensures Uncapped(config, k) >= config.initialRetryBackoff
  {
    if k > 0 {
      UncappedGrows(config, k - 1);
    }
  }

  lemma {:induction false} UncappedStays(config: Config, k: nat)
    requires config.scale(config.initialRetryBackoff) == config.initialRetryBackoff
    ensures Uncapped(config, k) == config.initialRetryBackoff
  {
    if k > 0 {
      UncappedStays(config, k - 1);
    }
  }

  // The same in terms of scaling.
  ghost predicate WaitsOneScalingLess(config: Config, k: nat)
    requires 1 <= k
  {
    Backoff(config, k) == Min(Uncapped(config, k - 1), config.maxBackoff)
  }

  lemma DocumentedIff(config: Config, m: Duration, k: nat)
    requires MultipliesBy(config, m) && 1 <= k
    ensures IsDocumented(config, m, k) <==> WaitsOneScalingLess(config, k)
  {
    UncappedIsMultiplied(config, m, k - 1);
  }

  lemma {:induction false} FixedStartWaitsLess(config: Config, k: nat)
    requires config.scale(config.initialRetryBackoff) == config.initialRetryBackoff && 1 <= k
    requires config.scale(config.maxBackoff) == config.maxBackoff || config.initialRetryBackoff <= config.maxBackoff
    ensures WaitsOneScalingLess(config, k)
  {
    UncappedStays(config, k - 1);
    if k > 1 {
      UncappedStays(config, k - 2);
      FixedStartWaitsLess(config, k - 1);
    } else {
      assert Backoff(config, 0) == config.initialRetryBackoff;
    }
  }

  lemma CappedStartWaitsLess(config: Config, k: nat)
    requires Monotone(config) && Grows(config) && config.initialRetryBackoff >= config.maxBackoff && 1 <= k
    ensures WaitsOneScalingLess(config, k)
  {
    BackoffIsCapped(config, k);
    UncappedGrows(config, k);
    UncappedGrows(config, k - 1);
  }

  lemma ConstantStartWaitsLess(config: Config, m: Duration, k: nat)
    requires MultipliesBy(config, m) && StartsConstant(config, m) && 1 <= k
    ensures WaitsOneScalingLess(config, k)
  {
    MultiplicationScales(config, m);
    if config.maxBackoff > 0.0 {
      if m > 1.0 && config.initialRetryBackoff >= config.maxBackoff {
        CappedStartWaitsLess(config, k);
      } else {
        FixedStartWaitsLess(config, k);
      }
    }
  }

  lemma StrictScaling(config: Config, m: Duration, x: Duration)
    requires MultipliesBy(config, m) && 0.0 < x
    ensures m > 1.0 ==> config.scale(x) > x
    ensures m < 1.0 ==> config.scale(x) < x
  {
  }

  // One of the first two retries waits too long or too short.
  lemma OtherStartsDiffer(config: Config, m: Duration)
    requires MultipliesBy(config, m) && !StartsConstant(config, m)
    ensures !WaitsOneScalingLess(config, 1) || !WaitsOneScalingLess(config, 2)
  {
    StrictScaling(config, m, config.initialRetryBackoff);
    StrictScaling(config, m, config.maxBackoff);
    assert Backoff(config, 0) == Uncapped(config, 0) == config.initialRetryBackoff;
    assert Uncapped(config, 1) == config.scale(config.initialRetryBackoff);
    assert Backoff(config, 2) == Min(config.scale(Backoff(config, 1)), config.maxBackoff);
  }

  /** The waits follow the documentation of the configuration, if and only if there is nothing to multiply: the initial
      backoff or the maximum is zero, the multiplier is one, or the initial backoff is at the maximum from the start. */
  lemma FollowsDocumentationIff(config: Config, m: Duration)
    requires MultipliesBy(config, m)
    ensures FollowsDocumentation(config, m) <==> StartsConstant(config, m)
  {
    if StartsConstant(config, m) {
      forall k: nat | 1 <= k ensures IsDocumented(config, m, k) {
        ConstantStartWaitsLess(config, m, k);
        DocumentedIff(config, m, k);
      }
    } else {
      OtherStartsDiffer(config, m);
      DocumentedIff(config, m, 1);
      DocumentedIff(config, m, 2);
    }
  }

  /** A multiplier of one half and a cap below the first step: after two failures the loop waits half the cap. */
  lemma BackoffIsNotAlwaysGeometric()
    ensures var config := Config(5, 8.0, (x: Duration) => x * 0.5, 2.0);
            Backoff(config, 2) == 1.0 && Min(8.0 * Power(0.5, 2), 2.0) == 2.0
  {
    var config := Config(5, 8.0, (x: Duration) => x * 0.5, 2.0);
    assert Backoff(config, 1) == 2.0;
    assert Power(0.5, 1) == 0.5;
  }

  // ---------- The loop ----------

  // Outcome `i` is failure number `k` in a row.
  predicate IsFailure(outcomes: seq<Outcome>, i: nat, k: nat)
    requires i < |outcomes|
  {
    1 <= k && FailsInARow(outcomes, i, k - 1) && !FailsInARow(outcomes, i, k)
  }

  // How long the loop waits after outcome `i`: the initial backoff without a job, and the backoff of the number of
  // failures in a row after a failure.
  ghost predicate IsWaitAfter(config: Config, outcomes: seq<Outcome>, i: nat, wait: Duration)
    requires i < |outcomes|
  {
    && (outcomes[i].NoJob? ==> wait == config.initialRetryBackoff)
    && (forall k :: IsFailure(outcomes, i, k) ==> wait == Backoff(config, k))
  }

  // How many of the first `n` outcomes are followed by a wait: all but the proofs.
  function Pauses(outcomes: seq<Outcome>, n: nat): nat
    requires n <= |outcomes|
  {
    if n == 0 then 0 else Pauses(outcomes, n - 1) + if outcomes[n - 1].Proved? then 0 else 1
  }

  // The waits of a run over the first `n` outcomes, in order.
  ghost predicate AreWaits(config: Config, outcomes: seq<Outcome>, n: nat, waits: seq<Duration>)
    requires n <= |outcomes|
  {
    && |waits| == Pauses(outcomes, n)
    && forall i :: 0 <= i < n ==> HasWait(config, outcomes, i, waits)
  }

  ghost predicate HasWait(config: Config, outcomes: seq<Outcome>, i: nat, waits: seq<Duration>)
    requires i < |outcomes|
  {
    !outcomes[i].Proved? ==>
      Pauses(outcomes, i) < |waits| && IsWaitAfter(config, outcomes, i, waits[Pauses(outcomes, i)])
  }

  lemma {:induction false} StreakIsNumber(outcomes: seq<Outcome>, i: nat, k: nat)
    requires i < |outcomes|
    ensures IsFailure(outcomes, i, k) <==> outcomes[i].RetriableError? && k == Streak(outcomes, i) + 1
  {
    StreakCounts(outcomes, i, k);
    if k > 0 {
      StreakCounts(outcomes, i, k - 1);
    }
  }

  // The wait that the loop computes from the failures before outcome `i`.
  lemma {:induction false} WaitIsRight(config: Config, outcomes: seq<Outcome>, i: nat, wait: Duration)
    requires i < |outcomes|
    requires outcomes[i].NoJob? ==> wait == config.initialRetryBackoff
    requires outcomes[i].RetriableError? ==> wait == Backoff(config, Streak(outcomes, i) + 1)
    ensures IsWaitAfter(config, outcomes, i, wait)
  {
    forall k | IsFailure(outcomes, i, k) ensures wait == Backoff(config, k) {
      StreakIsNumber(outcomes, i, k);
    }
  }

  lemma NextWait(config: Config, outcomes: seq<Outcome>, n: nat, waits: seq<Duration>, wait: Duration)
    requires n < |outcomes| && AreWaits(config, outcomes, n, waits)
    requires !outcomes[n].Proved? && IsWaitAfter(config, outcomes, n, wait)
    ensures AreWaits(config, outcomes, n + 1, waits + [wait])
  {
    forall i | 0 <= i < n + 1 ensures HasWait(config, outcomes, i, waits + [wait]) {
      if i < n {
        assert HasWait(config, outcomes, i, waits);
      }
    }
  }

  // The waits as the loop collects them.
  function Waits(config: Config, outcomes: seq<Outcome>, n: nat): seq<Duration>
    requires n <= |outcomes|
  {
    if n == 0 then []
    else
      Waits(config, outcomes, n - 1) +
      match outcomes[n - 1]
      case Proved(_) => []
      case NoJob => [config.initialRetryBackoff]
      case _ => [Backoff(config, Streak(outcomes, n))]
  }

  lemma {:induction false} WaitsAreRight(config: Config, outcomes: seq<Outcome>, n: nat)
    requires n <= |outcomes|
    ensures AreWaits(config, outcomes, n, Waits(config, outcomes, n))
  {
    if n > 0 {
      var waits := Waits(config, outcomes, n - 1);
      WaitsAreRight(config, outcomes, n - 1);
      if outcomes[n - 1].Proved? {
        assert Waits(config, outcomes, n) == waits;
      } else {
        var wait := if outcomes[n - 1].NoJob? then config.initialRetryBackoff else Backoff(config, Streak(outcomes, n));
        WaitIsRight(config, outcomes, n - 1, wait);
        NextWait(config, outcomes, n - 1, waits, wait);
      }
    }
  }

  // Outcome `n` is the first one at which the loop gives up.
  ghost predicate EndsAt(config: Config, outcomes: seq<Outcome>, n: nat)
    requires n < |outcomes|
  {
    GivesUpAt(config, outcomes, n) && forall i :: 0 <= i < n ==> !GivesUpAt(config, outcomes, i)
  }

  /** Over every stream of outcomes the loop ends with an error exactly at the first failure that cannot be retried
      or is number `maxRetries + 1` in a row. Until then it waits once after every outcome but a proof: the initial
      backoff without a job, and the backoff of `k` after failure number `k` in a row. */
  method Run(config: Config, registered: bool, outcomes: seq<Outcome>)
    returns (ending: Ending, steps: nat, waits: seq<Duration>)
    ensures ending.NotRegistered? <==> !registered
    ensures !registered ==> steps == 0 && waits == []
    ensures ending.GaveUp? <==> registered && exists i :: 0 <= i < |outcomes| && GivesUpAt(config, outcomes, i)
    ensures ending.GaveUp? ==>
              && 0 < steps <= |outcomes|
              && EndsAt(config, outcomes, steps - 1)
              && ending.error == outcomes[steps - 1]
              && AreWaits(config, outcomes, steps - 1, waits)
    ensures ending.Stopped? ==> steps == |outcomes| && AreWaits(config, outcomes, steps, waits)
  {
    steps, waits := 0, [];
    if !registered {
      return NotRegistered, steps, waits;
    }
    var retries, backoff := 1, config.initialRetryBackoff;
    while steps < |outcomes|
      invariant steps <= |outcomes|
      invariant retries == Streak(outcomes, steps) + 1
      invariant backoff == Backoff(config, Streak(outcomes, steps))
      invariant waits == Waits(config, outcomes, steps)
      invariant forall i :: 0 <= i < steps ==> !GivesUpAt(config, outcomes, i)
    {
      var result := outcomes[steps];
      StreakCounts(outcomes, steps, config.maxRetries);
      steps := steps + 1;
      var needToSleep;
      if result.Proved? || result.NoJob? {
        retries, backoff := 1, config.initialRetryBackoff;
        needToSleep := result.NoJob?;
      } else {
        if !result.RetriableError? || retries > config.maxRetries {
          assert GivesUpAt(config, outcomes, steps - 1);
          WaitsAreRight(config, outcomes, steps - 1);
          return GaveUp(result), steps, waits;
        }
        retries := retries + 1;
        backoff := Min(config.scale(backoff), config.maxBackoff);
        needToSleep := true;
      }
      if needToSleep {
        waits := waits + [backoff];
      }
    }
    ending := Stopped;
    WaitsAreRight(config, outcomes, steps);
  }

  /** Under the condition for it, the wait after failure number `k` in a row of a run is min(initial * multiplier^k,
      max). */
  lemma {:induction false} WaitIsPower(config: Config, m: Duration, outcomes: seq<Outcome>, n: nat,
                                       waits: seq<Duration>, i: nat, k: nat)
    requires n <= |outcomes| && AreWaits(config, outcomes, n, waits)
    requires MultipliesBy(config, m) && CapIsKept(config, m)
    requires i < n && IsFailure(outcomes, i, k)
    ensures Pauses(outcomes, i) < |waits| && waits[Pauses(outcomes, i)] == CappedPower(config, m, k)
  {
    assert HasWait(config, outcomes, i, waits);
    assert waits[Pauses(outcomes, i)] == Backoff(config, k);
    KeptCapGivesPower(config, m, k);
  }

  lemma {:induction false} FailuresPause(outcomes: seq<Outcome>, n: nat)
    requires n <= |outcomes| && forall i :: 0 <= i < n ==> outcomes[i].RetriableError?
    ensures Pauses(outcomes, n) == n
  {
    if n > 0 {
      FailuresPause(outcomes, n - 1);
    }
  }

  // Failure number `k` of a run of failures.
  lemma {:induction false} FailureWaits(config: Config, outcomes: seq<Outcome>, n: nat, waits: seq<Duration>, k: nat)
    requires 1 <= k <= n <= |outcomes| && AreWaits(config, outcomes, n, waits)
    requires forall i :: 0 <= i < n ==> outcomes[i].RetriableError?
    ensures |waits| == n && waits[k - 1] == Backoff(config, k)
  {
    FailuresPause(outcomes, n);
    FailuresPause(outcomes, k - 1);
    assert HasWait(config, outcomes, k - 1, waits);
    assert IsFailure(outcomes, k - 1, k);
  }

  lemma DefaultBackoffs()
    ensures var b := (k: nat) => Backoff(DefaultConfig(), k);
            b(1) == 2.0 && b(2) == 4.0 && b(3) == 8.0 && b(4) == 16.0 && b(5) == 32.0
  {
    var config := DefaultConfig();
    assert Backoff(config, 1) == 2.0;
    assert Backoff(config, 2) == 4.0;
    assert Backoff(config, 3) == 8.0;
    assert Backoff(config, 4) == 16.0;
  }

  /** By default no wait is longer than 128 seconds, and from failure number seven on every wait would be that long. */
  lemma {:induction false} DefaultBackoffIsCapped(k: nat)
    ensures Backoff(DefaultConfig(), k) <= 128.0
    ensures k >= 7 ==> Backoff(DefaultConfig(), k) == 128.0
  {
    if k > 7 {
      DefaultBackoffIsCapped(k - 1);
    } else {
      DefaultBackoffs();
      assert Backoff(DefaultConfig(), 6) == 64.0;
      assert Backoff(DefaultConfig(), 7) == 128.0;
      assert Backoff(DefaultConfig(), 0) == 1.0;
    }
  }

  /** The default configuration does not follow its documentation: a run that only fails waits 2, 4, 8, 16 and 32
      seconds instead of 1, 2, 4, 8 and 16, and then gives up at failure number six. */
  lemma DefaultBackoff(outcomes: seq<Outcome>, waits: seq<Duration>)
    requires |outcomes| == 6 && forall i :: 0 <= i < 6 ==> outcomes[i].RetriableError?
    requires AreWaits(DefaultConfig(), outcomes, 5, waits)
    ensures waits == [2.0, 4.0, 8.0, 16.0, 32.0]
    ensures EndsAt(DefaultConfig(), outcomes, 5)
  {
    DefaultBackoffs();
    forall k | 1 <= k <= 5 ensures |waits| == 5 && waits[k - 1] == Backoff(DefaultConfig(), k) {
      FailureWaits(DefaultConfig(), outcomes, 5, waits, k);
    }
    assert |waits| == 5 && waits[0] == 2.0 && waits[1] == 4.0 && waits[2] == 8.0 && waits[3] == 16.0;
    assert waits[4] == 32.0;
  }

  /** A success makes the loop forget all earlier failures: whether and how it waits or gives up later depends only
      on the outcomes after the success. */
  lemma {:induction false} SuccessForgets(config: Config, before: seq<Outcome>, success: Outcome, after: seq<Outcome>,
                                          i: nat)
    requires success.Proved? || success.NoJob?
    requires i < |after|
    ensures var outcomes := before + [success] + after;
            var at := |before| + 1 + i;
            && Streak(outcomes, at) == Streak(after, i)
            && (GivesUpAt(config, outcomes, at) <==> GivesUpAt(config, after, i))
            && (forall k :: IsFailure(outcomes, at, k) <==> IsFailure(after, i, k))
  {
    var outcomes := before + [success] + after;
    var at := |before| + 1 + i;
    if i > 0 {
      SuccessForgets(config, before, success, after, i - 1);
    }
    StreakCounts(outcomes, at, config.maxRetries);
    StreakCounts(after, i, config.maxRetries);
    forall k: nat ensures IsFailure(outcomes, at, k) <==> IsFailure(after, i, k) {
      StreakIsNumber(outcomes, at, k);
      StreakIsNumber(after, i, k);
    }
  }
}
