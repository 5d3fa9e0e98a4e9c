/**
 * `withRetry` of packages/core/src/retry.ts: call an asynchronous operation,
 * and after each rejection either rethrow or wait and call it again, as the
 * retry configuration decides.
 *
 * The operation is an oracle: `fn(k)` is how the `k`-th call (counting from 0)
 * settles. The waits are not taken; the model records the delay each wait asks
 * `setTimeout` for.
 */
module Retry {
  import opened Outcomes

  datatype Backoff = Fixed | Linear | Exponential | Custom(f: int -> int)

  /** `RetryConfig`; `retryCondition` is asked about every rejection that may be retried. */
  datatype RetryConfig<!E> = RetryConfig(
    attempts: int,
    delay: int,
    backoff: Backoff,
    retryCondition: Option<E -> bool>)

  /** How a `withRetry` call ends: how it settles, how often `fn` ran, the waits in between,
      and the calls (by index) whose rejection was handed to `retryCondition`. */
  datatype Run<+T, +E> = Run(result: Outcome<T, E>, calls: nat, delays: seq<int>, asked: seq<nat>)

  function Pow2(n: nat): (r: nat)
    ensures r >= 1
  {
    if n == 0 then 1 else 2 * Pow2(n - 1)
  }

  /** The wait before the call that follows the `attempt`-th rejection (counting from 1). */
  function Delay(cfg: RetryConfig, attempt: nat): int
    requires attempt >= 1
  {
    match cfg.backoff
    case Exponential => cfg.delay * Pow2(attempt - 1)
    case Custom(f) => f(attempt)
    case Linear => cfg.delay * attempt
    case Fixed => cfg.delay
  }

  /** After the `attempt`-th rejection, with error `e`, another call is made. */
  predicate Retries<E>(cfg: RetryConfig<E>, attempt: nat, e: E)
  {
    attempt <= cfg.attempts && (cfg.retryCondition.None? || cfg.retryCondition.value(e))
  }

  /** The rest of the loop once `attempt` calls have been rejected. */
  function RunFrom<T, E>(fn: nat -> Outcome<T, E>, cfg: RetryConfig<E>, attempt: nat): Run<T, E>
    decreases cfg.attempts - attempt
  {
    match fn(attempt)
    case Ok(v) => Run(Ok(v), attempt + 1, [], [])
    case Err(e) =>
      var asked := if attempt + 1 <= cfg.attempts && cfg.retryCondition.Some? then [attempt] else [];
      if !Retries(cfg, attempt + 1, e) then Run(Err(e), attempt + 1, [], asked)
      else
        var rest := RunFrom(fn, cfg, attempt + 1);
        rest.(delays := [Delay(cfg, attempt + 1)] + rest.delays, asked := asked + rest.asked)
  }

  /** What `withRetry(fn, config)` does; `None` stands for `false` and `undefined`. */
  function RetrySpec<T, E>(fn: nat -> Outcome<T, E>, config: Option<RetryConfig<E>>): Run<T, E>
  {
    match config
    case None => Run(fn(0), 1, [], [])
    case Some(cfg) => RunFrom(fn, cfg, 0)
  }

  /** The retry loop itself. */
  method WithRetry<T, E>(fn: nat -> Outcome<T, E>, config: Option<RetryConfig<E>>)
    returns (result: Outcome<T, E>, calls: nat, delays: seq<int>, asked: seq<nat>)
    ensures Run(result, calls, delays, asked) == RetrySpec(fn, config)
  {
    if config.None? {
      return fn(0), 1, [], [];
    }
    result, calls, delays, asked := RetryLoop(fn, config.value);
  }

  /** The `while (true)` loop of `withRetry` under a retry configuration. */
  method RetryLoop<T, E>(fn: nat -> Outcome<T, E>, cfg: RetryConfig<E>)
    returns (result: Outcome<T, E>, calls: nat, delays: seq<int>, asked: seq<nat>)
    ensures Run(result, calls, delays, asked) == RunFrom(fn, cfg, 0)
  {
    var attempt: nat := 0;
    result, delays, asked := fn(0), [], [];
    // Each turn: the call numbered `attempt` was rejected, the budget allows another call
    // and `retryCondition` (if any) agreed, so wait and call again.
    while result.Err? && Retries(cfg, attempt + 1, result.error)
      invariant result == fn(attempt)
      invariant attempt == 0 || attempt <= cfg.attempts
      invariant |delays| == attempt && DelaysConfigured(cfg, 0, delays)
      invariant RetriedBefore(fn, cfg, attempt)
      invariant cfg.retryCondition.None? ==> asked == []
      invariant cfg.retryCondition.Some? ==> AskedRange(asked, 0, attempt)
      decreases cfg.attempts - attempt
    {
      if cfg.retryCondition.Some? {
        asked := asked + [attempt];
      }
      delays := delays + [Delay(cfg, attempt + 1)];
      attempt := attempt + 1;
      result := fn(attempt);
    }
    // The last call settled it: fulfilled, out of budget, or refused by `retryCondition`,
    // which was asked only if the budget allowed another call.
    if result.Err? && attempt + 1 <= cfg.attempts && cfg.retryCondition.Some? {
      asked := asked + [attempt];
    }
    calls := attempt + 1;
    WellFormedRunUnique(fn, cfg, 0, Run(result, calls, delays, asked));
  }

  /** The calls before call `n` were all rejected, and each rejection was retried. */
  ghost predicate RetriedBefore<T, E>(fn: nat -> Outcome<T, E>, cfg: RetryConfig<E>, n: nat)
  {
    forall k :: 0 <= k < n ==> fn(k).Err? && Retries(cfg, k + 1, fn(k).error)
  }

  /** One retried rejection: the run from there is the wait, then the run from the next call. */
  lemma RunFromStep<T, E>(fn: nat -> Outcome<T, E>, cfg: RetryConfig<E>, attempt: nat)
    requires fn(attempt).Err? && Retries(cfg, attempt + 1, fn(attempt).error)
    ensures var next := RunFrom(fn, cfg, attempt + 1);
      RunFrom(fn, cfg, attempt) == next.(
        delays := [Delay(cfg, attempt + 1)] + next.delays,
        asked := (if cfg.retryCondition.Some? then [attempt] else []) + next.asked)
  {
  }

  // ---------------------------------------------------------------- properties

  /** `retryCondition` was asked about the calls numbered `from` up to but not including `to`. */
  ghost predicate AskedRange(asked: seq<nat>, from: nat, to: int)
  {
    |asked| + from == to && forall i :: 0 <= i < |asked| ==> asked[i] == from + i
  }

  /** The calls before the last one were all rejected, and each rejection was retried. */
  ghost predicate EarlierCallsRetried<T, E>(fn: nat -> Outcome<T, E>, cfg: RetryConfig<E>, from: nat, r: Run<T, E>)
  {
    forall k :: from <= k < r.calls - 1 ==> fn(k).Err? && Retries(cfg, k + 1, fn(k).error)
  }

  /** Each wait is the configured delay for its attempt. */
  ghost predicate DelaysConfigured(cfg: RetryConfig, from: nat, delays: seq<int>)
  {
    forall i :: 0 <= i < |delays| ==> delays[i] == Delay(cfg, from + i + 1)
  }

  /** `retryCondition` was asked about each rejection, in order, exactly while the budget
      allowed another call. */
  ghost predicate AskedWhileBudget<T, E>(cfg: RetryConfig<E>, from: nat, r: Run<T, E>)
  {
    (cfg.retryCondition.None? ==> r.asked == []) &&
    (cfg.retryCondition.Some? ==>
      AskedRange(r.asked, from, if r.result.Err? && r.calls <= cfg.attempts then r.calls else r.calls - 1))
  }

  /** Everything about a run, stated without the recursion: the earlier calls were retried,
      the waits are the configured ones, the last call settled in a way that ends the loop,
      and the condition was asked as the budget allowed. */
  ghost predicate WellFormedRun<T, E>(fn: nat -> Outcome<T, E>, cfg: RetryConfig<E>, from: nat, r: Run<T, E>)
  {
    r.calls >= from + 1 &&
    |r.delays| == r.calls - from - 1 &&
    r.result == fn(r.calls - 1) &&
    EarlierCallsRetried(fn, cfg, from, r) &&
    DelaysConfigured(cfg, from, r.delays) &&
    (r.result.Ok? || !Retries(cfg, r.calls, r.result.error)) &&
    AskedWhileBudget(cfg, from, r)
  }

  lemma {:induction false} RunFromWellFormed<T, E>(fn: nat -> Outcome<T, E>, cfg: RetryConfig<E>, from: nat)
    ensures WellFormedRun(fn, cfg, from, RunFrom(fn, cfg, from))
    decreases cfg.attempts - from
  {
    if fn(from).Err? && Retries(cfg, from + 1, fn(from).error) {
      RunFromWellFormed(fn, cfg, from + 1);
      RunFromStep(fn, cfg, from);
      WellFormedPrepend(fn, cfg, from, RunFrom(fn, cfg, from + 1));
    }
  }

  /** A retried rejection in front of a well-formed run makes a well-formed run. */
  lemma WellFormedPrepend<T, E>(fn: nat -> Outcome<T, E>, cfg: RetryConfig<E>, from: nat, rest: Run<T, E>)
    requires fn(from).Err? && Retries(cfg, from + 1, fn(from).error)
    requires WellFormedRun(fn, cfg, from + 1, rest)
    ensures WellFormedRun(fn, cfg, from, rest.(
      delays := [Delay(cfg, from + 1)] + rest.delays,
      asked := (if cfg.retryCondition.Some? then [from] else []) + rest.asked))
  {
    var r := rest.(
      delays := [Delay(cfg, from + 1)] + rest.delays,
      asked := (if cfg.retryCondition.Some? then [from] else []) + rest.asked);
    assert EarlierCallsRetried(fn, cfg, from, r) by {
      assert EarlierCallsRetried(fn, cfg, from + 1, rest);
    }
    assert DelaysConfigured(cfg, from, r.delays) by {
      assert DelaysConfigured(cfg, from + 1, rest.delays);
    }
    assert AskedWhileBudget(cfg, from, r) by {
      assert AskedWhileBudget(cfg, from + 1, rest);
    }
  }

  /** The run is the only one of that shape: a well-formed run is the one `withRetry` makes. */
  lemma {:induction false} WellFormedRunUnique<T, E>(fn: nat -> Outcome<T, E>, cfg: RetryConfig<E>, from: nat, r: Run<T, E>)
    requires WellFormedRun(fn, cfg, from, r)
    ensures r == RunFrom(fn, cfg, from)
    decreases cfg.attempts - from
  {
    if r.calls == from + 1 {
      assert r.delays == [];
      if cfg.retryCondition.Some? {
        assert r.asked == if r.result.Err? && r.calls <= cfg.attempts then [from] else [];
      }
    } else {
      assert fn(from).Err? && Retries(cfg, from + 1, fn(from).error);
      var asked := if cfg.retryCondition.Some? then r.asked[1..] else r.asked;
      var rest := Run(r.result, r.calls, r.delays[1..], asked);
      assert WellFormedRun(fn, cfg, from + 1, rest) by {
        assert forall i :: 0 <= i < |rest.delays| ==> rest.delays[i] == r.delays[i + 1];
        if cfg.retryCondition.Some? {
          assert forall i :: 0 <= i < |rest.asked| ==> rest.asked[i] == r.asked[i + 1];
        }
      }
      WellFormedRunUnique(fn, cfg, from + 1, rest);
      assert r.delays == [r.delays[0]] + rest.delays;
      if cfg.retryCondition.Some? {
        assert r.asked == [from] + rest.asked;
      }
    }
  }

  /** `false` or `undefined` as the configuration: `fn` runs once and its outcome is returned as is. */
  lemma Disabled<T, E>(fn: nat -> Outcome<T, E>)
    ensures RetrySpec(fn, None) == Run(fn(0), 1, [], [])
  {
  }

  /** A first call that succeeds is never retried, whatever the configuration. */
  lemma FirstSuccess<T, E>(fn: nat -> Outcome<T, E>, config: Option<RetryConfig<E>>)
    requires fn(0).Ok?
    ensures RetrySpec(fn, config) == Run(fn(0), 1, [], [])
  {
  }

  /** `fn` runs at most `attempts + 1` times, and there is exactly one wait between each two
      calls and none after the last. */
  lemma CallBounds<T, E>(fn: nat -> Outcome<T, E>, config: Option<RetryConfig<E>>)
    ensures var r := RetrySpec(fn, config);
      1 <= r.calls && |r.delays| == r.calls - 1 &&
      (config.Some? && r.calls > 1 ==> r.calls <= config.value.attempts + 1)
  {
    if config.Some? {
      var r := RetrySpec(fn, config);
      RunFromWellFormed(fn, config.value, 0);
      if r.calls > 1 {
        assert Retries(config.value, r.calls - 1, fn(r.calls - 2).error);
      }
    }
  }

  /** The budget is checked before the predicate: `retryCondition` is asked only about
      rejections after which the budget still allowed another call, in call order, and never
      about a success. */
  lemma ConditionAskedWithinBudget<T, E>(fn: nat -> Outcome<T, E>, cfg: RetryConfig<E>)
    ensures var r := RetrySpec(fn, Some(cfg));
      forall i :: 0 <= i < |r.asked| ==> r.asked[i] == i && i + 1 <= cfg.attempts && fn(i).Err?
  {
    var r := RetrySpec(fn, Some(cfg));
    RunFromWellFormed(fn, cfg, 0);
    if cfg.retryCondition.Some? {
      forall i | 0 <= i < |r.asked|
        ensures r.asked[i] == i && i + 1 <= cfg.attempts && fn(i).Err?
      {
        if i < r.calls - 1 {
          assert Retries(cfg, i + 1, fn(i).error);
        }
      }
    }
  }

  /** An operation that always rejects and a condition that never refuses: all `attempts + 1`
      calls are made, each retry waits its configured delay, and the last rejection is thrown. */
  lemma AlwaysFails<T, E>(fn: nat -> Outcome<T, E>, cfg: RetryConfig<E>)
    requires cfg.attempts >= 0 && cfg.retryCondition.None?
    requires forall k :: fn(k).Err?
    ensures var r := RetrySpec(fn, Some(cfg));
      r.calls == cfg.attempts + 1 && r.result == fn(cfg.attempts) &&
      |r.delays| == cfg.attempts &&
      forall i :: 0 <= i < |r.delays| ==> r.delays[i] == Delay(cfg, i + 1)
  {
    var r := RetrySpec(fn, Some(cfg));
    RunFromWellFormed(fn, cfg, 0);
    CallBounds(fn, Some(cfg));
    if r.calls < cfg.attempts + 1 {
      assert Retries(cfg, r.calls, r.result.error);
    }
  }

  /** A retry condition that refuses the first rejection stops the loop after one call. */
  lemma ConditionRefuses<T, E>(fn: nat -> Outcome<T, E>, cfg: RetryConfig<E>)
    requires cfg.attempts >= 1
    requires fn(0).Err? && cfg.retryCondition.Some? && !cfg.retryCondition.value(fn(0).error)
    ensures RetrySpec(fn, Some(cfg)) == Run(fn(0), 1, [], [0])
  {
  }

  /** Retrying ends at the first success that comes within the allowed attempts. */
  lemma SucceedsAfterRetries<T, E>(fn: nat -> Outcome<T, E>, cfg: RetryConfig<E>, n: nat)
    requires n <= cfg.attempts && cfg.retryCondition.None?
    requires forall k :: 0 <= k < n ==> fn(k).Err?
    requires fn(n).Ok?
    ensures RetrySpec(fn, Some(cfg)).result == fn(n) && RetrySpec(fn, Some(cfg)).calls == n + 1
  {
    var r := RetrySpec(fn, Some(cfg));
    RunFromWellFormed(fn, cfg, 0);
    if r.calls - 1 < n {
      assert Retries(cfg, r.calls, r.result.error);
    }
  }

  /** Exponential backoff doubles the wait, linear backoff adds the base delay each time. */
  lemma BackoffDelays(cfg: RetryConfig, attempt: nat)
    requires attempt >= 1
    ensures cfg.backoff.Exponential? ==> Delay(cfg, attempt + 1) == 2 * Delay(cfg, attempt)
    ensures cfg.backoff.Linear? ==> Delay(cfg, attempt + 1) == Delay(cfg, attempt) + cfg.delay
    ensures cfg.backoff.Fixed? ==> Delay(cfg, attempt) == cfg.delay
  {
  }

  /** Three retries with base delay 100 and exponential backoff wait 100, 200 and 400. */
  lemma ExponentialExample<T, E>(fn: nat -> Outcome<T, E>)
    requires forall k :: fn(k).Err?
    ensures RetrySpec(fn, Some(RetryConfig(3, 100, Exponential, None))) == Run(fn(3), 4, [100, 200, 400], [])
  {
  }
}
