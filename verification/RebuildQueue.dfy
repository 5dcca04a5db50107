/** Clearing the queue and reconstructing it from the table. */
module RebuildQueue {
  import opened Prelude
  import opened DeliveryEntity
  import opened DeliveryStore

  const CLEAN_LIMIT: nat := 1000

  function RetryDelay(row: Row, now: int): int {
    if row.nextRetryAt.Some? then Max(0, row.nextRetryAt.value - now) else 5000
  }

  function RebuiltJob(row: Row, id: nat, now: int): Job {
    NewJob(id, DeliveryJob(row.taskResultId, row.destinationId, row.retryCount + 1),
           if row.status.ScheduledRetry? then RetryDelay(row, now) else 0, now)
  }

  /** The queue after the first n of the three clean calls; an error among them skips the rest. */
  function Emptied(jobs: seq<Job>, cleans: nat): seq<Job> {
    var waiting := if cleans >= 1 then Cleaned(jobs, CLEAN_LIMIT, Waiting) else jobs;
    var active := if cleans >= 2 then Cleaned(waiting, CLEAN_LIMIT, Active) else waiting;
    if cleans >= 3 then Cleaned(active, CLEAN_LIMIT, Delayed) else active
  }

  /** The queue being refilled; aborted once an enqueue has thrown, after `left` more successes. */
  datatype Refill = Refill(jobs: seq<Job>, nextId: nat, left: nat, aborted: bool)

  function RefillOne(q: Refill, row: Row, now: int): Refill {
    if q.aborted then q
    else if q.left == 0 then q.(aborted := true)
    else Refill(q.jobs + [RebuiltJob(row, q.nextId, now)], q.nextId + 1, q.left - 1, false)
  }

  function RefillAll(q: Refill, rows: seq<Row>, now: int): Refill
    decreases |rows|
  {
    if rows == [] then q else RefillAll(RefillOne(q, rows[0], now), rows[1..], now)
  }

  lemma {:induction false} AbortedStays(q: Refill, rows: seq<Row>, now: int)
    requires q.aborted
    ensures RefillAll(q, rows, now) == q
    decreases |rows|
  {
    if rows != [] {
      AbortedStays(q, rows[1..], now);
    }
  }

  /** The rebuild gives up when the n-th table query throws: the queue stays as filled so far. */
  function Queried(q: Refill, queries: nat, n: nat): Refill {
    if queries < n then q.(aborted := true) else q
  }

  /** A whole rebuild, in which the first `cleans` clean calls, `queries` table queries and `enqueues` enqueues work. */
  function Rebuilt(s: Stores, cleans: nat, queries: nat, enqueues: nat, now: int): Refill {
    var start := Queried(Refill(Emptied(s.jobs, cleans), s.nextId, enqueues, false), queries, 1);
    var main := Queried(RefillAll(start, Select(s.rows, WithStatus(Pending)), now), queries, 2);
    Queried(RefillAll(main, Select(s.rows, WithStatus(ScheduledRetry)), now), queries, 3)
  }

  datatype RebuildResult = RebuildResult(main: nat, delayed: nat, dlq: nat)

  datatype RebuildError = EnqueueFailed | QueryFailed

  class RebuildQueueService {
    const table: DeliveryTable
    const queue: JobQueue

    constructor (table: DeliveryTable, queue: JobQueue)
      ensures this.table == table && this.queue == queue
    {
      this.table, this.queue := table, queue;
    }

    function Current(left: nat, aborted: bool): Refill
      reads queue
    {
      Refill(queue.jobs, queue.nextId, left, aborted)
    }

    method Rebuild(cleans: nat, queries: nat, enqueues: nat, now: int) returns (r: Result<RebuildResult, RebuildError>)
      requires queue.Valid()
      modifies queue
      ensures queue.Valid()
      ensures var after := Rebuilt(old(Stores(table.rows, queue.jobs, queue.nextId)), cleans, queries, enqueues, now);
              && queue.jobs == after.jobs && queue.nextId == after.nextId && r.Err? == after.aborted
      ensures r.Ok? ==> r.value == RebuildResult(|Select(table.rows, WithStatus(Pending))|,
        |Select(table.rows, WithStatus(ScheduledRetry))|, |Select(table.rows, WithStatus(FailedDlq))|)
    {
      if cleans >= 1 {
        queue.Clean(CLEAN_LIMIT, Waiting);
      }
      if cleans >= 2 {
        queue.Clean(CLEAN_LIMIT, Active);
      }
      if cleans >= 3 {
        queue.Clean(CLEAN_LIMIT, Delayed);
      }
      if queries < 1 {
        AbortedStays(Current(enqueues, true), Select(table.rows, WithStatus(Pending)), now);
        AbortedStays(Current(enqueues, true), Select(table.rows, WithStatus(ScheduledRetry)), now);
        return Err(QueryFailed);
      }
      var pending := table.Find(WithStatus(Pending));
      var main, ok, left := EnqueueRows(pending, enqueues, now);
      if !ok || queries < 2 {
        AbortedStays(Current(left, true), Select(table.rows, WithStatus(ScheduledRetry)), now);
        return Err(if ok then QueryFailed else EnqueueFailed);
      }
      var retrying := table.Find(WithStatus(ScheduledRetry));
      var delayed;
      delayed, ok, left := EnqueueRows(retrying, left, now);
      if !ok || queries < 3 {
        return Err(if ok then QueryFailed else EnqueueFailed);
      }
      var dlq := table.Find(WithStatus(FailedDlq));
      r := Ok(RebuildResult(main, delayed, |dlq|));
    }

    /** One of the two enqueueing loops; it stops at the first error. */
    method EnqueueRows(rows: seq<Row>, enqueues: nat, now: int) returns (count: nat, ok: bool, left: nat)
      requires queue.Valid()
      requires forall row <- rows :: row.status.Pending? || row.status.ScheduledRetry?
      modifies queue
      ensures queue.Valid()
      ensures Current(left, !ok) == RefillAll(old(Current(enqueues, false)), rows, now)
      ensures ok ==> count == |rows|
    {
      count, left, ok := 0, enqueues, true;
      for i := 0 to |rows|
        invariant queue.Valid() && count == i
        invariant RefillAll(Current(left, false), rows[i..], now) == RefillAll(old(Current(enqueues, false)), rows, now)
      {
        var row := rows[i];
        assert rows[i..][0] == row && rows[i..][1..] == rows[i + 1..];
        if left == 0 {
          AbortedStays(Current(left, true), rows[i + 1..], now);
          ok := false;
          return;
        }
        var delay := if row.status.ScheduledRetry? then RetryDelay(row, now) else 0;
        queue.EnqueueDelivery(row.taskResultId, row.destinationId, row.retryCount + 1, delay, now);
        left := left - 1;
        count := count + 1;
      }
    }
  }

  // ---- What a rebuild without errors leaves in the queue ----

  function JobsFor(rows: seq<Row>, nextId: nat, now: int): (jobs: seq<Job>)
    ensures |jobs| == |rows|
    ensures forall i :: 0 <= i < |rows| ==> jobs[i] == RebuiltJob(rows[i], nextId + i, now)
  {
    seq(|rows|, i requires 0 <= i < |rows| => RebuiltJob(rows[i], nextId + i, now))
  }

  /** The rows a rebuild turns into jobs, in the order it does so. */
  function WaitingRows(rows: seq<Row>): seq<Row> {
    Select(rows, WithStatus(Pending)) + Select(rows, WithStatus(ScheduledRetry))
  }

  lemma {:induction false} RefillJobs(q: Refill, rows: seq<Row>, now: int)
    requires !q.aborted && q.left >= |rows|
    ensures RefillAll(q, rows, now)
         == Refill(q.jobs + JobsFor(rows, q.nextId, now), q.nextId + |rows|, q.left - |rows|, false)
    decreases |rows|
  {
    if rows == [] {
      assert q.jobs + JobsFor(rows, q.nextId, now) == q.jobs;
    } else {
      var next := RefillOne(q, rows[0], now);
      RefillJobs(next, rows[1..], now);
      assert next.jobs + JobsFor(rows[1..], next.nextId, now) == q.jobs + JobsFor(rows, q.nextId, now);
    }
  }

  lemma CleanRebuild(s: Stores, enqueues: nat, now: int)
    requires enqueues >= |WaitingRows(s.rows)|
    ensures var r := Rebuilt(s, 3, 3, enqueues, now);
            && !r.aborted
            && r.jobs == Emptied(s.jobs, 3) + JobsFor(WaitingRows(s.rows), s.nextId, now)
            && r.nextId == s.nextId + |WaitingRows(s.rows)|
  {
    var start := Refill(Emptied(s.jobs, 3), s.nextId, enqueues, false);
    var pending, retrying := Select(s.rows, WithStatus(Pending)), Select(s.rows, WithStatus(ScheduledRetry));
    RefillJobs(start, pending, now);
    RefillJobs(RefillAll(start, pending, now), retrying, now);
    JobsForSplit(start.jobs, pending, retrying, s.nextId, now);
  }

  lemma JobsForSplit(jobs: seq<Job>, a: seq<Row>, b: seq<Row>, nextId: nat, now: int)
    ensures jobs + JobsFor(a, nextId, now) + JobsFor(b, nextId + |a|, now) == jobs + JobsFor(a + b, nextId, now)
  {
    assert JobsFor(a + b, nextId, now) == JobsFor(a, nextId, now) + JobsFor(b, nextId + |a|, now);
  }

  function Count(jobs: seq<Job>, state: JobState): nat {
    if jobs == [] then 0 else (if jobs[0].state == state then 1 else 0) + Count(jobs[1..], state)
  }

  lemma {:induction false} CleanedCount(jobs: seq<Job>, limit: nat, cleaned: JobState, state: JobState)
    ensures Count(Cleaned(jobs, limit, cleaned), state)
         == if state == cleaned then Max(0, Count(jobs, state) - limit) else Count(jobs, state)
  {
    if jobs != [] && limit > 0 {
      CleanedCount(jobs[1..], if jobs[0].state == cleaned then limit - 1 else limit, cleaned, state);
    }
  }

  lemma {:induction false} LiveCount(jobs: seq<Job>)
    ensures |Live(jobs)| == Count(jobs, Waiting) + Count(jobs, Active) + Count(jobs, Delayed) + Count(jobs, Paused)
  {
    if jobs != [] {
      LiveCount(jobs[1..]);
    }
  }

  /** Whether the three clean calls reach every live job. */
  predicate FullyCleanable(jobs: seq<Job>) {
    && Count(jobs, Waiting) <= CLEAN_LIMIT && Count(jobs, Active) <= CLEAN_LIMIT && Count(jobs, Delayed) <= CLEAN_LIMIT
    && Count(jobs, Paused) == 0
  }

  lemma EmptiedLive(jobs: seq<Job>)
    ensures Live(Emptied(jobs, 3)) == [] <==> FullyCleanable(jobs)
  {
    var a := Cleaned(jobs, CLEAN_LIMIT, Waiting);
    var b := Cleaned(a, CLEAN_LIMIT, Active);
    forall state: JobState
      ensures Count(Emptied(jobs, 3), state)
           == if state.Waiting? || state.Active? || state.Delayed? then Max(0, Count(jobs, state) - CLEAN_LIMIT)
              else Count(jobs, state)
    {
      CleanedCount(jobs, CLEAN_LIMIT, Waiting, state);
      CleanedCount(a, CLEAN_LIMIT, Active, state);
      CleanedCount(b, CLEAN_LIMIT, Delayed, state);
    }
    LiveCount(Emptied(jobs, 3));
  }

  lemma {:induction false} AllLive(jobs: seq<Job>)
    requires forall job <- jobs :: job.state.IsLive()
    ensures Live(jobs) == jobs
  {
    if jobs != [] {
      AllLive(jobs[1..]);
    }
  }

  /** A rebuild without errors is exact, one job per waiting row and nothing else, exactly when the queue held at
      most 1000 jobs in each state it cleans and none paused. */
  lemma RebuildIsExact(s: Stores, enqueues: nat, now: int)
    requires enqueues >= |WaitingRows(s.rows)|
    ensures Live(Rebuilt(s, 3, 3, enqueues, now).jobs) == JobsFor(WaitingRows(s.rows), s.nextId, now)
       <==> FullyCleanable(s.jobs)
  {
    var kept, added := Emptied(s.jobs, 3), JobsFor(WaitingRows(s.rows), s.nextId, now);
    CleanRebuild(s, enqueues, now);
    LiveAppend(kept, added);
    AllLive(added);
    EmptiedLive(s.jobs);
    if Live(kept) + added == added {
      assert |Live(kept) + added| == |Live(kept)| + |added|;
    }
    if Live(kept) == [] {
      assert Live(kept) + added == added;
    }
  }

  /** The job of a waiting row, for its own pair and next attempt: immediate for PENDING, and never due before nextRetryAt for SCHEDULED_RETRY. */
  lemma RebuiltJobIsTimely(row: Row, id: nat, now: int)
    requires row.status.Pending? || row.status.ScheduledRetry?
    ensures var job := RebuiltJob(row, id, now);
            && job.data.taskResultId == row.taskResultId && job.data.destinationId == row.destinationId
            && job.data.attempt == row.retryCount + 1
            && now <= job.due
            && (row.status.ScheduledRetry? && row.nextRetryAt.None? ==> job.due == now + 5000)
            && (row.status.Pending? ==> job.state.Waiting? && job.due == now)
            && (row.status.ScheduledRetry? && row.nextRetryAt.Some? ==>
                  row.nextRetryAt.value <= job.due && (job.due == now || job.due == row.nextRetryAt.value))
  {
  }

  /** Rows whose job a rebuild at this time parks as delayed. */
  predicate Parked(row: Row, now: int) {
    row.status.ScheduledRetry? && RetryDelay(row, now) > 0
  }

  function CountParked(rows: seq<Row>, now: int): nat {
    if rows == [] then 0 else (if Parked(rows[0], now) then 1 else 0) + CountParked(rows[1..], now)
  }

  lemma {:induction false} RebuiltCounts(rows: seq<Row>, nextId: nat, now: int)
    ensures Count(JobsFor(rows, nextId, now), Delayed) == CountParked(rows, now)
    ensures Count(JobsFor(rows, nextId, now), Waiting) == |rows| - CountParked(rows, now)
    ensures Count(JobsFor(rows, nextId, now), Active) == 0 && Count(JobsFor(rows, nextId, now), Paused) == 0
  {
    if rows != [] {
      assert JobsFor(rows, nextId, now)[1..] == JobsFor(rows[1..], nextId + 1, now);
      RebuiltCounts(rows[1..], nextId + 1, now);
    }
  }

  /** Live jobs count the same in the whole queue and in its live part. */
  lemma {:induction false} CountLive(jobs: seq<Job>, state: JobState)
    requires state.IsLive()
    ensures Count(jobs, state) == Count(Live(jobs), state)
  {
    if jobs != [] {
      CountLive(jobs[1..], state);
    }
  }

  /** Repeating an exact rebuild stays exact, exactly when the first one produced at most 1000 immediate and at most
      1000 delayed jobs: the bound on the old queue alone is not enough. The repeated jobs carry the same data. */
  lemma RebuildIsIdempotent(s: Stores, enqueues: nat, now: int, later: int)
    requires enqueues >= |WaitingRows(s.rows)| && FullyCleanable(s.jobs)
    ensures var rows, first := WaitingRows(s.rows), Rebuilt(s, 3, 3, enqueues, now);
            var second := Rebuilt(Stores(s.rows, first.jobs, first.nextId), 3, 3, enqueues, later);
            && (Live(second.jobs) == JobsFor(rows, first.nextId, later)
                <==> CountParked(rows, now) <= CLEAN_LIMIT && |rows| - CountParked(rows, now) <= CLEAN_LIMIT)
            && (forall i :: 0 <= i < |rows| ==>
                  var again, before := JobsFor(rows, first.nextId, later)[i], JobsFor(rows, s.nextId, now)[i];
                  again.data == before.data && (later == now ==> again.due == before.due && again.state == before.state))
  {
    var rows, first := WaitingRows(s.rows), Rebuilt(s, 3, 3, enqueues, now);
    RebuildIsExact(s, enqueues, now);
    RebuiltCounts(rows, s.nextId, now);
    CountLive(first.jobs, Waiting);
    CountLive(first.jobs, Active);
    CountLive(first.jobs, Delayed);
    CountLive(first.jobs, Paused);
    RebuildIsExact(Stores(s.rows, first.jobs, first.nextId), enqueues, later);
  }
}
