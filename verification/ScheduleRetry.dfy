/** The service that schedules a retry on request: limit check, delay choice, save, enqueue. */
module ScheduleRetry {
  import opened Prelude
  import opened RetryStrategies
  import opened DeliveryEntity
  import opened DeliveryStore
  import P = ProcessDelivery

  // A number below 100 is an attempt number, one from 100 on a delay in milliseconds.
  datatype CountOrStrategy = Number(n: nat) | CountStrategy(strategy: RetryStrategy) | NoCount

  datatype LimitOrStrategy = Limit(limit: nat) | LimitStrategy(strategy: RetryStrategy) | NoLimit

  datatype Request = Request(count: CountOrStrategy, limit: LimitOrStrategy, draw: real)
  {
    function MaxAllowed(): nat {
      match limit
      case Limit(n) => n
      case LimitStrategy(s) => if s.config.maxRetries.Some? then s.config.maxRetries.value else 5
      case NoLimit => 5
    }

    function AttemptNumber(retryCount: nat): nat {
      if count.Number? && count.n < 100 then count.n else retryCount
    }

    function Strategy(): Option<RetryStrategy> {
      if limit.LimitStrategy? then Some(limit.strategy)
      else if count.CountStrategy? then Some(count.strategy)
      else None
    }

    function Delay(retryCount: nat): real {
      if Strategy().Some? then Strategy().value.CalculateDelay(AttemptNumber(retryCount) + 1, draw)
      else if count.Number? && count.n >= 100 then count.n as real
      else (1000 * Pow2(AttemptNumber(retryCount))) as real
    }
  }

  datatype RetryError = DeliveryNotFound | MaxRetriesExceeded | EnqueueFailed

  predicate Exhausted(s: DeliveryState, request: Request) {
    s.retryCount >= request.MaxAllowed()
  }

  function Scheduled(s: DeliveryState, request: Request, now: int): DeliveryState {
    if Exhausted(s, request) then s.DeadLettered("Max retries exceeded", now)
    else (if s.MayStart() then s.Started(now) else s).ScheduledIn(request.Delay(s.retryCount), now)
  }

  function RetryJob(row: Row, request: Request, id: nat, now: int): Job {
    NewJob(id, DeliveryJob(row.taskResultId, row.destinationId, request.AttemptNumber(row.retryCount) + 1),
           request.Delay(row.retryCount).Floor, now)
  }

  class ScheduleRetryService {
    const table: DeliveryTable
    const queue: JobQueue

    constructor (table: DeliveryTable, queue: JobQueue)
      ensures this.table == table && this.queue == queue
    {
      this.table, this.queue := table, queue;
    }

    method Schedule(id: string, request: Request, enqueueThrows: bool, now: int) returns (r: Option<RetryError>)
      requires queue.Valid()
      modifies table, queue
      ensures queue.Valid()
      ensures var row := P.Loaded(old(table.rows), id);
        if row.None? then
          r == Some(DeliveryNotFound) && table.rows == old(table.rows) && queue.jobs == old(queue.jobs)
        else
          var s := row.value.Restored();
          && table.rows == Overwritten(old(table.rows), row.value.Updated(Scheduled(s, request, now), now))
          && r == (if Exhausted(s, request) then Some(MaxRetriesExceeded)
                   else if enqueueThrows then Some(EnqueueFailed) else None)
          && queue.jobs == old(queue.jobs) + (if r.None? then [RetryJob(row.value, request, old(queue.nextId), now)] else [])
    {
      var loaded := P.Loaded(table.rows, id);
      if loaded.None? {
        return Some(DeliveryNotFound);
      }
      var row := loaded.value;
      var delivery := new Delivery.Restore(row.id, row.taskResultId, row.destinationId, row.Restored());
      var currentRetryCount := delivery.retryCount;
      if currentRetryCount >= request.MaxAllowed() {
        delivery.MoveToDeadLetterQueue("Max retries exceeded", now);
        table.Save(row, delivery, now);
        return Some(MaxRetriesExceeded);
      }
      var attempt := request.AttemptNumber(currentRetryCount);
      var delay := request.Delay(currentRetryCount);
      if delivery.status.Pending? || delivery.status.ScheduledRetry? {
        var _ := delivery.MarkAsProcessing(now);
      }
      delivery.ScheduleRetryIn(delay, now);
      table.Save(row, delivery, now);
      if enqueueThrows {
        return Some(EnqueueFailed);
      }
      queue.EnqueueDelivery(row.taskResultId, row.destinationId, attempt + 1, delay.Floor, now);
      return None;
    }
  }

  /** The job and the row agree on when the retry is due, whichever way the delay was chosen. */
  lemma JobDueWithRow(row: Row, request: Request, id: nat, now: int)
    requires !Exhausted(row.Restored(), request)
    ensures Scheduled(row.Restored(), request, now).nextRetryAt == Some(RetryJob(row, request, id, now).due)
  {
  }

  /** The limit is read off the stored count alone: a finished delivery below it is reopened. */
  lemma ReopensFinished(s: DeliveryState, request: Request, now: int)
    requires s.status.IsFinal()
    ensures Scheduled(s, request, now).status.IsFinal() <==> Exhausted(s, request)
  {
  }

  /** What a request leaves of the row, in numbers. A number below 100 is an attempt and one from 100 on a delay; the limit
      is the number given, the strategy's own, or 5. */
  lemma ScheduledInNumbers(s: DeliveryState, request: Request, now: int)
    ensures var after := Scheduled(s, request, now);
            var limit := if request.limit.Limit? then request.limit.limit
                         else if request.limit.LimitStrategy? && request.limit.strategy.config.maxRetries.Some?
                         then request.limit.strategy.config.maxRetries.value else 5;
            var attempt := if request.count.Number? && request.count.n < 100 then request.count.n else s.retryCount;
            && after.retryCount == s.retryCount
            && if s.retryCount >= limit then after.status == FailedDlq && after.nextRetryAt == None
               else
                 && after.status == ScheduledRetry && after.nextRetryAt.Some?
                 && (if request.limit.LimitStrategy? then
                       after.nextRetryAt.value
                       == now + Max(0, request.limit.strategy.CalculateDelay(attempt + 1, request.draw).Floor)
                     else if request.count.CountStrategy? then
                       after.nextRetryAt.value
                       == now + Max(0, request.count.strategy.CalculateDelay(attempt + 1, request.draw).Floor)
                     else if request.count.Number? && request.count.n >= 100 then
                       after.nextRetryAt.value == now + request.count.n
                     else after.nextRetryAt.value == now + 1000 * Pow2(attempt))
  {
  }

  /** The job is one for the row, and for the attempt after the one asked for. */
  lemma JobIsTheRows(row: Row, request: Request, id: nat, now: int)
    ensures var data := RetryJob(row, request, id, now).data;
            && data.taskResultId == row.taskResultId && data.destinationId == row.destinationId
            && data.attempt == 1 + if request.count.Number? && request.count.n < 100 then request.count.n
                                   else row.retryCount
  {
  }
}
