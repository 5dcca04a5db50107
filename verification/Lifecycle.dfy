/** The guarded lifecycle of one delivery: what markAsProcessing, markAsCompleted and markAsFailed can do in a row. */
module Lifecycle {
  import opened Prelude
  import opened RetryStrategies
  import opened DeliveryEntity

  datatype Call =
    | Start(now: int)
    | Complete(at: int)
    | Fail(error: DeliveryError, strategy: Option<RetryStrategy>, draw: real, maxRetries: nat, now: int)

  /** The state after one call, or None when the call throws. */
  function Apply(s: DeliveryState, call: Call): Option<DeliveryState> {
    match call
    case Start(now) => if s.MayStart() then Some(s.Started(now)) else None
    case Complete(at) => if s.status.Processing? then Some(s.Finished(at)) else None
    case Fail(error, strategy, draw, maxRetries, now) =>
      if s.status.Processing? then Some(s.Failed(error, strategy, draw, maxRetries, now)) else None
  }

  /** The state after a sequence of calls, or None as soon as one throws. */
  function Run(s: DeliveryState, calls: seq<Call>): Option<DeliveryState>
    decreases |calls|
  {
    if calls == [] then Some(s)
    else
      var next := Apply(s, calls[0]);
      if next.None? then None else Run(next.value, calls[1..])
  }

  ghost predicate WithLimit(calls: seq<Call>, limit: nat) {
    forall i :: 0 <= i < |calls| && calls[i].Fail? ==> calls[i].maxRetries == limit
  }

  /** How many more calls a delivery can take. */
  function Budget(s: DeliveryState, limit: nat): int {
    if s.status.IsFinal() then 0
    else if s.status.Processing? then 2 * (limit - s.retryCount) - 1
    else 2 * (limit - s.retryCount)
  }

  ghost predicate UnderLimit(s: DeliveryState, limit: nat) {
    !s.status.IsFinal() ==> s.retryCount < limit
  }

  lemma {:induction false} CallsWithinBudget(s: DeliveryState, calls: seq<Call>, limit: nat)
    requires UnderLimit(s, limit) && WithLimit(calls, limit) && Run(s, calls).Some?
    ensures |calls| <= Budget(s, limit)
    decreases |calls|
  {
    if calls != [] {
      var next := Apply(s, calls[0]).value;
      assert Budget(next, limit) < Budget(s, limit);
      CallsWithinBudget(next, calls[1..], limit);
    }
  }

  /** A fresh delivery accepts at most two calls per allowed attempt. */
  lemma LifecycleTerminates(calls: seq<Call>, limit: nat, now: int)
    requires limit >= 1 && WithLimit(calls, limit) && Run(Created(now), calls).Some?
    ensures |calls| <= 2 * limit
  {
    CallsWithinBudget(Created(now), calls, limit);
  }

  /** Finished states absorb: every guarded call on them throws. */
  lemma FinishedAbsorbs(s: DeliveryState, calls: seq<Call>)
    requires s.status.IsFinal()
    ensures Run(s, calls).Some? <==> calls == []
  {
  }

  function WorstCase(attempts: nat, limit: nat, now: int): seq<Call> {
    if attempts == 0 then []
    else
      [Start(now), Fail(DeliveryError(Timeout, "timeout"), None, 0.0, limit, now)]
      + WorstCase(attempts - 1, limit, now)
  }

  lemma {:induction false} WorstCaseRuns(s: DeliveryState, attempts: nat, limit: nat, now: int)
    requires 1 <= attempts <= limit && s.MayStart() && s.retryCount == limit - attempts
    ensures |WorstCase(attempts, limit, now)| == 2 * attempts
    ensures var end := Run(s, WorstCase(attempts, limit, now));
            end.Some? && end.value.status.FailedDlq? && end.value.retryCount == limit
    decreases attempts
  {
    var calls := WorstCase(attempts, limit, now);
    var failed := Apply(s.Started(now), calls[1]).value;
    assert calls[1..][1..] == WorstCase(attempts - 1, limit, now);
    assert Run(s, calls) == Run(s.Started(now), calls[1..]) == Run(failed, calls[1..][1..]);
    if attempts > 1 {
      WorstCaseRuns(failed, attempts - 1, limit, now);
    } else {
      assert calls[1..][1..] == [];
    }
  }

  /** The bound is exact: a delivery that times out every time takes 2 * limit calls and ends in the dead letter queue. */
  lemma LifecycleBoundReached(limit: nat, now: int)
    requires limit >= 1
    ensures exists calls :: WithLimit(calls, limit) && |calls| == 2 * limit && Run(Created(now), calls).Some?
  {
    var calls := WorstCase(limit, limit, now);
    WorstCaseRuns(Created(now), limit, limit, now);
    WorstCaseLimit(limit, limit, now);
  }

  lemma WorstCaseLimit(attempts: nat, limit: nat, now: int)
    ensures WithLimit(WorstCase(attempts, limit, now), limit)
  {
  }

  /** The waits a run schedules, added up. */
  function Waits(s: DeliveryState, calls: seq<Call>): int
    requires Run(s, calls).Some?
    decreases |calls|
  {
    if calls == [] then 0
    else
      var next := Apply(s, calls[0]).value;
      (if calls[0].Fail? && next.status.ScheduledRetry? && next.nextRetryAt.Some?
       then next.nextRetryAt.value - calls[0].now else 0)
      + Waits(next, calls[1..])
  }

  ghost predicate Uses(calls: seq<Call>, strategy: RetryStrategy) {
    forall i :: 0 <= i < |calls| && calls[i].Fail? ==> calls[i].strategy == Some(strategy) && IsDraw(calls[i].draw)
  }

  /** One scheduled wait is at most the strategy's delay for the new count. */
  lemma WaitBound(s: DeliveryState, call: Call, strategy: RetryStrategy)
    requires Backoff(strategy) && call.Fail? && call.strategy == Some(strategy) && IsDraw(call.draw)
    requires Apply(s, call).Some? && Apply(s, call).value.status.ScheduledRetry?
    ensures var next := Apply(s, call).value;
            && next.nextRetryAt.Some? && next.retryCount == s.retryCount + 1
            && (next.nextRetryAt.value - call.now) as real <= strategy.config.maxDelayMs
            && (next.nextRetryAt.value - call.now) as real <= strategy.Base(s.retryCount + 1)
  {
    DelayBounds(strategy, s.retryCount + 1, call.draw);
  }

  ghost predicate WaitsFit(waits: int, strategy: RetryStrategy, from: int, limit: nat)
    requires 0 <= from < limit
  {
    && waits as real <= (limit - 1 - from) as real * strategy.config.maxDelayMs
    && waits as real <= 2.0 * strategy.Base(limit - 1) - 2.0 * strategy.Base(from)
  }

  lemma NoWaitFits(strategy: RetryStrategy, from: nat, limit: nat)
    requires Backoff(strategy) && from < limit
    ensures WaitsFit(0, strategy, from, limit)
  {
    BaseGrows(strategy, from, limit - 1);
  }

  lemma {:induction false} BaseGrows(strategy: RetryStrategy, a: nat, b: nat)
    requires strategy.Valid() && a <= b
    ensures 0.0 <= strategy.Base(a) <= strategy.Base(b)
  {
    BaseIsPower(strategy, a);
    if a < b {
      BaseGrows(strategy, a, b - 1);
    }
  }

  lemma OneMoreWait(wait: int, rest: int, strategy: RetryStrategy, from: nat, limit: nat)
    requires Backoff(strategy) && from + 1 < limit && WaitsFit(rest, strategy, from + 1, limit)
    requires wait as real <= strategy.config.maxDelayMs && wait as real <= strategy.Base(from + 1)
    ensures WaitsFit(wait + rest, strategy, from, limit)
  {
    assert (limit - 1 - from) as real == (limit - 1 - (from + 1)) as real + 1.0;
  }

  lemma {:induction false} WaitsBounded(s: DeliveryState, calls: seq<Call>, strategy: RetryStrategy, limit: nat)
    requires UnderLimit(s, limit) && WithLimit(calls, limit) && Run(s, calls).Some?
    requires Backoff(strategy) && Uses(calls, strategy)
    ensures s.status.IsFinal() ==> Waits(s, calls) == 0
    ensures !s.status.IsFinal() ==> WaitsFit(Waits(s, calls), strategy, s.retryCount, limit)
    decreases |calls|
  {
    if calls == [] || s.status.IsFinal() {
      if !s.status.IsFinal() {
        NoWaitFits(strategy, s.retryCount, limit);
      }
    } else {
      var next := Apply(s, calls[0]).value;
      WaitsBounded(next, calls[1..], strategy, limit);
      if next.status.IsFinal() {
        NoWaitFits(strategy, s.retryCount, limit);
      } else if calls[0].Fail? {
        WaitBound(s, calls[0], strategy);
        OneMoreWait(next.nextRetryAt.value - calls[0].now, Waits(next, calls[1..]), strategy, s.retryCount, limit);
      }
    }
  }

  /** All waits of a delivery together, under an exponential strategy and a limit of m attempts. */
  lemma LifecycleWaitsBounded(calls: seq<Call>, strategy: RetryStrategy, limit: nat, now: int)
    requires limit >= 1 && WithLimit(calls, limit) && Run(Created(now), calls).Some?
    requires Backoff(strategy) && Uses(calls, strategy)
    ensures Waits(Created(now), calls) as real <= (limit - 1) as real * strategy.config.maxDelayMs
    ensures Waits(Created(now), calls) as real <= strategy.config.initialDelayMs * (Pow2(limit) - 2) as real
  {
    WaitsBounded(Created(now), calls, strategy, limit);
    FromTheStart(Waits(Created(now), calls), strategy, limit);
  }

  lemma FromTheStart(waits: int, strategy: RetryStrategy, limit: nat)
    requires limit >= 1 && WaitsFit(waits, strategy, 0, limit)
    ensures waits as real <= (limit - 1) as real * strategy.config.maxDelayMs
    ensures waits as real <= strategy.config.initialDelayMs * (Pow2(limit) - 2) as real
  {
    PowerGap(strategy, limit - 1);
  }

  // ---- The transitions, in numbers ----

  lemma StartInNumbers(s: DeliveryState, now: int)
    ensures var after := Apply(s, Start(now));
            if s.status == Pending || s.status == ScheduledRetry
            then after == Some(s.(status := Processing, lastAttemptAt := Some(now), updatedAt := now))
            else after == None
  {
  }

  lemma CompletionInNumbers(s: DeliveryState, at: int)
    ensures var after := Apply(s, Complete(at));
            if s.status == Processing
            then after == Some(s.(status := Completed, completedAt := Some(at), nextRetryAt := None, updatedAt := at))
            else after == None
  {
  }

  /** A failure counts itself. It is final for a permanent or unknown error and at the limit; otherwise it waits by the
      strategy, or 2^count seconds without one. */
  lemma FailureInNumbers(s: DeliveryState, call: Call)
    requires call.Fail? && s.status == Processing
    ensures var after := Apply(s, call);
            var count := s.retryCount + 1;
            && after.Some? && after.value.retryCount == count && after.value.lastError == Some(call.error)
            && if call.error.category == Permanent || call.error.category == UnknownError || count >= call.maxRetries
               then after.value.status == FailedDlq && after.value.nextRetryAt == None
               else
                 && after.value.status == ScheduledRetry
                 && after.value.nextRetryAt
                    == Some(call.now + if call.strategy.Some?
                                       then Max(0, call.strategy.value.CalculateDelay(count, call.draw).Floor)
                                       else 1000 * Pow2(count))
  {
  }

  /** markFailed: the count moves from 0 to 1 and no further, and no time is set. */
  lemma MarkFailedInNumbers(s: DeliveryState, error: DeliveryError, choice: RetryChoice, limit: nat, now: int)
    ensures var after := s.FlaggedFailed(error, choice, limit, now);
            var count := if s.retryCount == 0 then 1 else s.retryCount;
            var allowed := choice == Unspecified || choice == Flag(true)
                           || (choice.ByStrategy?
                               && count < if choice.strategy.config.maxRetries.Some?
                                          then choice.strategy.config.maxRetries.value else 5);
            && after.retryCount == count && after.lastError == Some(error) && after.updatedAt == now
            && if allowed && count < limit then after.status == ScheduledRetry && after.nextRetryAt == s.nextRetryAt
               else after.status == FailedDlq && after.nextRetryAt == None
  {
  }
}
