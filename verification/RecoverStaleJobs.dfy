/** The sweep over deliveries stuck in PROCESSING after a worker crash. */
module RecoverStaleJobs {
  import opened Prelude
  import opened DeliveryEntity
  import opened DeliveryStore

  const CRASH_MESSAGE := "Worker crash / processing timeout detected"
  const MAX_RECOVERIES: nat := 5

  // A storage error while one row is handled; the sweep counts it and goes on with the next row.
  datatype RowFault = NoFault | EnqueueFails | SaveFails

  function AfterCrash(row: Row, now: int): DeliveryState {
    row.Restored().FlaggedFailed(DeliveryError(UnknownError, CRASH_MESSAGE), Flag(true), DEFAULT_MAX_RETRIES, now)
  }

  function CountedRetries(row: Row): nat {
    if row.retryCount == 0 then 1 else row.retryCount
  }

  predicate Requeues(row: Row) {
    CountedRetries(row) <= MAX_RECOVERIES
  }

  function RecoveryDelay(retryCount: nat): nat {
    Pow2(Max(0, retryCount - 1)) * 1000
  }

  /** The state a stuck delivery is saved in. */
  function RecoveredState(row: Row, now: int): DeliveryState {
    if Requeues(row) then AfterCrash(row, now).ScheduledIn(RecoveryDelay(CountedRetries(row)) as real, now)
    else AfterCrash(row, now).DeadLettered(CRASH_MESSAGE, now)
  }

  predicate Enqueues(row: Row, fault: RowFault) {
    Requeues(row) && !fault.EnqueueFails?
  }

  predicate Saves(row: Row, fault: RowFault) {
    fault.NoFault? || (fault.EnqueueFails? && !Requeues(row))
  }

  function RecoveredRow(row: Row, fault: RowFault, now: int): Row {
    if Saves(row, fault) then row.Updated(RecoveredState(row, now), now) else row
  }

  lemma KeepsItsKeys(row: Row, fault: RowFault, now: int)
    ensures RecoveredRow(row, fault, now).id == row.id && RecoveredRow(row, fault, now).SamePair(row)
  {
  }

  /** The whole table after a sweep, row by row. */
  function RecoveredTable(rows: seq<Row>, timeout: int, faults: string -> RowFault, now: int): (r: seq<Row>)
    ensures |r| == |rows|
    ensures forall i :: 0 <= i < |rows| ==>
      r[i] == if StaleBefore(now - timeout).Matches(rows[i])
              then RecoveredRow(rows[i], faults(rows[i].id), now) else rows[i]
  {
    seq(|rows|, i requires 0 <= i < |rows| =>
      if StaleBefore(now - timeout).Matches(rows[i])
      then RecoveredRow(rows[i], faults(rows[i].id), now) else rows[i])
  }

  /** The queue and the two counters a sweep reports, as the sweep goes through the stale rows. */
  datatype Sweep = Sweep(jobs: seq<Job>, nextId: nat, recovered: int, failed: int)

  /** One row. A row that is requeued but cannot be saved counts as recovered and as failed;
      a dead-lettered row that cannot be saved counts as failed twice. */
  function Handle(s: Sweep, row: Row, fault: RowFault, now: int): Sweep {
    var failures := (if Requeues(row) then 0 else 1) + (if Saves(row, fault) then 0 else 1);
    if Enqueues(row, fault)
    then Sweep(s.jobs + [RecoveryJob(row, s.nextId, now)], s.nextId + 1, s.recovered + 1, s.failed + failures)
    else s.(failed := s.failed + failures)
  }

  function RecoveryJob(row: Row, id: nat, now: int): Job {
    NewJob(id, DeliveryJob(row.taskResultId, row.destinationId, CountedRetries(row)),
           RecoveryDelay(CountedRetries(row)), now)
  }

  function HandleAll(s: Sweep, stale: seq<Row>, faults: string -> RowFault, now: int): Sweep
    decreases |stale|
  {
    if stale == [] then s
    else HandleAll(Handle(s, stale[0], faults(stale[0].id), now), stale[1..], faults, now)
  }

  class RecoverStaleJobsService {
    const table: DeliveryTable
    const queue: JobQueue

    constructor (table: DeliveryTable, queue: JobQueue)
      ensures this.table == table && this.queue == queue
    {
      this.table, this.queue := table, queue;
    }

    function Counted(recovered: int, failed: int): Sweep
      reads queue
    {
      Sweep(queue.jobs, queue.nextId, recovered, failed)
    }

    /** Resets and re-enqueues every delivery that has been PROCESSING for at least timeout milliseconds. */
    method RecoverStale(timeout: int, faults: string -> RowFault, now: int) returns (recovered: int, failed: int)
      requires Unique(table.rows) && queue.Valid()
      modifies table, queue
      ensures queue.Valid()
      ensures table.rows == RecoveredTable(old(table.rows), timeout, faults, now)
      ensures Counted(recovered, failed)
           == HandleAll(old(Counted(0, 0)), Select(old(table.rows), StaleBefore(now - timeout)), faults, now)
    {
      ghost var rows0 := table.rows;
      ghost var f := (r: Row) => RecoveredRow(r, faults(r.id), now);
      forall r ensures f(r).id == r.id {
        KeepsItsKeys(r, faults(r.id), now);
      }
      var stale := table.Find(StaleBefore(now - timeout));
      recovered, failed := 0, 0;
      if |stale| == 0 {
        return;
      }
      for i := 0 to |stale|
        invariant queue.Valid() && forall r :: f(r).id == r.id
        invariant table.rows == Swept(rows0, stale[..i], f)
        invariant HandleAll(Counted(recovered, failed), stale[i..], faults, now)
               == HandleAll(old(Counted(0, 0)), stale, faults, now)
      {
        var row := stale[i];
        assert stale[..i + 1] == stale[..i] + [row];
        assert stale[i..][1..] == stale[i + 1..];
        SweptStep(rows0, stale[..i], row, f);
        recovered, failed := RecoverOne(row, faults(row.id), now, recovered, failed);
      }
      assert stale[..|stale|] == stale;
    }

    /** The body of the sweep's loop for one stale row. */
    method RecoverOne(row: Row, fault: RowFault, now: int, recovered0: int, failed0: int)
      returns (recovered: int, failed: int)
      requires queue.Valid()
      modifies table, queue
      ensures queue.Valid()
      ensures table.rows == if Saves(row, fault) then Overwritten(old(table.rows), RecoveredRow(row, fault, now))
                            else old(table.rows)
      ensures Counted(recovered, failed) == Handle(old(Counted(recovered0, failed0)), row, fault, now)
    {
      recovered, failed := recovered0, failed0;
      var delivery := new Delivery.Restore(row.id, row.taskResultId, row.destinationId, row.Restored());
      delivery.MarkFailed(DeliveryError(UnknownError, CRASH_MESSAGE), Flag(true), DEFAULT_MAX_RETRIES, now);
      var retryCount := delivery.retryCount;
      if retryCount <= MAX_RECOVERIES {
        var delay := Pow2(Max(0, retryCount - 1)) * 1000;
        delivery.ScheduleRetryIn(delay as real, now);
        if fault.EnqueueFails? {
          failed := failed + 1;
          return;
        }
        queue.EnqueueDelivery(delivery.taskResultId, delivery.destinationId, retryCount, delay, now);
        recovered := recovered + 1;
      } else {
        delivery.MoveToDeadLetterQueue(CRASH_MESSAGE, now);
        failed := failed + 1;
      }
      if fault.SaveFails? {
        failed := failed + 1;
        return;
      }
      table.Save(row, delivery, now);
    }
  }

  /** markFailed alone gives up at the fifth failure; the sweep overrides that and still requeues it. */
  lemma SweepOverridesTheLimit(row: Row, now: int)
    ensures AfterCrash(row, now).status.FailedDlq? <==> row.retryCount >= 5
    ensures RecoveredState(row, now).status.FailedDlq? <==> row.retryCount > 5
  {
  }

  // ---- What a sweep does, in numbers ----

  /** The wait before recovery number n: 2^(n-1) seconds, and one second for the first. */
  function Wait(n: nat): nat {
    if n <= 1 then 1000 else 1000 * Pow2(n - 1)
  }

  /** The job is one for this row, delayed by the row's wait. */
  predicate RecoversRow(job: Job, row: Row, now: int) {
    && job.data.taskResultId == row.taskResultId && job.data.destinationId == row.destinationId
    && job.data.attempt == (if row.retryCount == 0 then 1 else row.retryCount)
    && job.state == Delayed && job.due == now + Wait(row.retryCount)
  }

  lemma DelayIsWait(row: Row, id: nat, now: int)
    ensures RecoveryDelay(CountedRetries(row)) == Wait(row.retryCount) && Wait(row.retryCount) >= 1000
    ensures RecoversRow(RecoveryJob(row, id, now), row, now)
  {
    assert Pow2(0) == 1;
  }

  /** The row a sweep leaves for a stuck one whose queue and table work. */
  lemma RecoveredInNumbers(row: Row, now: int)
    ensures var after := RecoveredRow(row, NoFault, now);
            && after.id == row.id && after.SamePair(row) && after.updatedAt == now
            && after.retryCount == (if row.retryCount == 0 then 1 else row.retryCount)
            && if row.retryCount <= 5
               then after.status == ScheduledRetry && after.nextRetryAt == Some(now + Wait(row.retryCount))
               else after.status == FailedDlq && after.nextRetryAt == None
  {
    DelayIsWait(row, 0, now);
  }

  /** The rows among the stale ones that get a job: at most five recoveries, and an enqueue that works. */
  function Requeued(stale: seq<Row>, faults: string -> RowFault): seq<Row> {
    if stale == [] then []
    else (if stale[0].retryCount <= 5 && !faults(stale[0].id).EnqueueFails? then [stale[0]] else [])
         + Requeued(stale[1..], faults)
  }

  /** The sweep adds exactly one job for each of those rows, in their order, each for its own row and due when its row
      is, and keeps the jobs that were there; it reports as many as recovered. */
  lemma {:induction false} SweepAddsTheirJobs(s: Sweep, stale: seq<Row>, faults: string -> RowFault, now: int)
    ensures var after, rows := HandleAll(s, stale, faults, now), Requeued(stale, faults);
            && |after.jobs| == |s.jobs| + |rows| && after.jobs[..|s.jobs|] == s.jobs
            && after.recovered == s.recovered + |rows|
            && forall i :: 0 <= i < |rows| ==> RecoversRow(after.jobs[|s.jobs| + i], rows[i], now)
    decreases |stale|
  {
    if stale != [] {
      var row := stale[0];
      var next := Handle(s, row, faults(row.id), now);
      DelayIsWait(row, s.nextId, now);
      SweepAddsTheirJobs(next, stale[1..], faults, now);
      var after, rest := HandleAll(s, stale, faults, now), Requeued(stale[1..], faults);
      assert after.jobs[..|s.jobs|] == after.jobs[..|next.jobs|][..|s.jobs|];
      if |next.jobs| > |s.jobs| {
        assert after.jobs[|s.jobs|] == after.jobs[..|next.jobs|][|s.jobs|];
        forall i | 0 <= i < |rest|
          ensures RecoversRow(after.jobs[|s.jobs| + (i + 1)], rest[i], now)
        {
          assert after.jobs[|next.jobs| + i] == after.jobs[|s.jobs| + (i + 1)];
        }
      }
    }
  }
}
