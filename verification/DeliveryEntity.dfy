/** The delivery entity: its fields, its guarded and unguarded transitions, and the lifecycle they allow.
    Times are milliseconds; a transition receives the clock reading it would take. */
module DeliveryEntity {
  import opened Prelude
  import opened RetryStrategies

  datatype Status = Pending | Processing | Completed | ScheduledRetry | FailedDlq
  {
    predicate IsFinal() {
      Completed? || FailedDlq?
    }
  }

  datatype ErrorCategory = Transient | Permanent | Network | Timeout | Server | UnknownError

  datatype DeliveryError = DeliveryError(category: ErrorCategory, message: string)
  {
    predicate IsRetryable() {
      category.Transient? || category.Network? || category.Timeout? || category.Server?
    }
  }

  // The second argument of markFailed: a flag, a strategy, or nothing at all.
  datatype RetryChoice = Flag(retry: bool) | ByStrategy(strategy: RetryStrategy) | Unspecified
  {
    predicate Allows(retryCount: nat) {
      match this
      case Flag(retry) => retry
      case ByStrategy(strategy) => strategy.CanRetry(retryCount)
      case Unspecified => true
    }
  }

  const DEFAULT_MAX_RETRIES: nat := 5

  /** The mutable fields of a delivery, as a value. */
  datatype DeliveryState = DeliveryState(
    status: Status,
    retryCount: nat,
    nextRetryAt: Option<int>,
    lastAttemptAt: Option<int>,
    lastError: Option<DeliveryError>,
    completedAt: Option<int>,
    updatedAt: int)
  {
    predicate MayStart() {
      status.Pending? || status.ScheduledRetry?
    }

    function Started(now: int): DeliveryState {
      this.(status := Processing, lastAttemptAt := Some(now), updatedAt := now)
    }

    function Finished(at: int): DeliveryState {
      this.(status := Completed, completedAt := Some(at), nextRetryAt := None, updatedAt := at)
    }

    function DeadLettered(reason: string, now: int): DeliveryState {
      this.(status := FailedDlq,
            lastError := if lastError.None? then Some(DeliveryError(Permanent, reason)) else lastError,
            nextRetryAt := None, updatedAt := now)
    }

    function ScheduledAt(at: int, now: int): DeliveryState {
      this.(status := ScheduledRetry, nextRetryAt := Some(at), updatedAt := now)
    }

    /** A numeric delay: never negative, and cut to whole milliseconds by the date type. */
    function ScheduledIn(delay: real, now: int): DeliveryState {
      ScheduledAt(now + Max(0, delay.Floor), now)
    }

    /** markAsFailed after its guard. */
    function Failed(error: DeliveryError, strategy: Option<RetryStrategy>, draw: real, maxRetries: nat, now: int)
      : DeliveryState
    {
      var counted := this.(lastError := Some(error), retryCount := retryCount + 1);
      if !error.IsRetryable() || counted.retryCount >= maxRetries then counted.DeadLettered(error.message, now)
      else if strategy.Some? then
        counted.ScheduledIn(strategy.value.CalculateDelay(counted.retryCount, draw), now)
      else counted.ScheduledIn((1000 * Pow2(counted.retryCount)) as real, now)
    }

    /** markFailed: no status guard, and the count only moves from 0 to 1. */
    function FlaggedFailed(error: DeliveryError, choice: RetryChoice, maxRetries: nat, now: int): DeliveryState {
      var counted := this.(lastError := Some(error), retryCount := if retryCount == 0 then 1 else retryCount);
      if !choice.Allows(counted.retryCount) || counted.retryCount >= maxRetries
      then counted.DeadLettered(error.message, now)
      else counted.(status := ScheduledRetry, updatedAt := now)
    }

    predicate CanRetry(maxRetries: nat) {
      !status.IsFinal() && retryCount < maxRetries
    }

    /** What every saved row promises its readers: a scheduled row says when, a finished row never does. */
    predicate Timed() {
      && (status.ScheduledRetry? ==> nextRetryAt.Some?)
      && (status.IsFinal() ==> nextRetryAt.None?)
    }

    /** The same at the moment of a save: the retry is not already in the past. */
    predicate TimedFrom(now: int) {
      Timed() && (status.ScheduledRetry? ==> now <= nextRetryAt.value)
    }
  }

  function Created(now: int): DeliveryState {
    DeliveryState(Pending, 0, None, None, None, None, now)
  }

  /** One result bound for one destination. A refused transition reports false and changes nothing. */
  class Delivery {
    const id: string
    const taskResultId: string
    const destinationId: string
    var status: Status
    var retryCount: nat
    var nextRetryAt: Option<int>
    var lastAttemptAt: Option<int>
    var lastError: Option<DeliveryError>
    var completedAt: Option<int>
    var updatedAt: int

    function State(): DeliveryState
      reads this
    {
      DeliveryState(status, retryCount, nextRetryAt, lastAttemptAt, lastError, completedAt, updatedAt)
    }

    constructor Restore(id: string, taskResultId: string, destinationId: string, state: DeliveryState)
      ensures this.id == id && this.taskResultId == taskResultId && this.destinationId == destinationId
      ensures State() == state
    {
      this.id, this.taskResultId, this.destinationId := id, taskResultId, destinationId;
      status, retryCount, nextRetryAt := state.status, state.retryCount, state.nextRetryAt;
      lastAttemptAt, lastError := state.lastAttemptAt, state.lastError;
      completedAt, updatedAt := state.completedAt, state.updatedAt;
    }

    method MarkAsProcessing(now: int) returns (ok: bool)
      modifies this
      ensures ok == old(State()).MayStart()
      ensures State() == if ok then old(State()).Started(now) else old(State())
    {
      ok := status.Pending? || status.ScheduledRetry?;
      if ok {
        status := Processing;
        lastAttemptAt := Some(now);
        updatedAt := now;
      }
    }

    method MarkAsCompleted(at: int) returns (ok: bool)
      modifies this
      ensures ok == old(status).Processing?
      ensures State() == if ok then old(State()).Finished(at) else old(State())
    {
      ok := status.Processing?;
      if ok {
        status := Completed;
        completedAt := Some(at);
        nextRetryAt := None;
        updatedAt := at;
      }
    }

    method MarkAsFailed(
      error: DeliveryError, strategy: Option<RetryStrategy>, draw: real, maxRetries: nat, now: int)
      returns (ok: bool)
      modifies this
      ensures ok == old(status).Processing?
      ensures State() == if ok then old(State()).Failed(error, strategy, draw, maxRetries, now) else old(State())
    {
      ok := status.Processing?;
      if ok {
        lastError := Some(error);
        retryCount := retryCount + 1;
        if !error.IsRetryable() || retryCount >= maxRetries {
          MoveToDeadLetterQueue(error.message, now);
        } else if strategy.Some? {
          ScheduleRetryIn(strategy.value.CalculateDelay(retryCount, draw), now);
        } else {
          ScheduleRetryIn((1000 * Pow2(retryCount)) as real, now);
        }
      }
    }

    method MarkFailed(error: DeliveryError, choice: RetryChoice, maxRetries: nat, now: int)
      modifies this
      ensures State() == old(State()).FlaggedFailed(error, choice, maxRetries, now)
    {
      lastError := Some(error);
      if retryCount == 0 {
        retryCount := 1;
      }
      if !choice.Allows(retryCount) || retryCount >= maxRetries {
        MoveToDeadLetterQueue(error.message, now);
      } else {
        status := ScheduledRetry;
        updatedAt := now;
      }
    }

    method IncrementRetryCount(now: int)
      modifies this
      ensures State() == old(State()).(retryCount := old(retryCount) + 1, updatedAt := now)
    {
      retryCount := retryCount + 1;
      updatedAt := now;
    }

    method ScheduleRetryIn(delay: real, now: int)
      modifies this
      ensures State() == old(State()).ScheduledIn(delay, now)
    {
      ScheduleRetryAt(now + Max(0, delay.Floor), now);
    }

    method ScheduleRetryAt(at: int, now: int)
      modifies this
      ensures State() == old(State()).ScheduledAt(at, now)
    {
      status := ScheduledRetry;
      nextRetryAt := Some(at);
      updatedAt := now;
    }

    method MoveToDeadLetterQueue(reason: string, now: int)
      modifies this
      ensures State() == old(State()).DeadLettered(reason, now)
    {
      status := FailedDlq;
      if lastError.None? {
        lastError := Some(DeliveryError(Permanent, reason));
      }
      nextRetryAt := None;
      updatedAt := now;
    }
  }
}
