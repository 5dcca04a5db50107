/** The daemon pass that turns overdue SCHEDULED_RETRY rows back into PENDING rows with a job. */
module DelayedQueueProcessors {
  import opened Prelude
  import opened DeliveryEntity
  import opened DeliveryStore

  /** An update of the status column leaves nextRetryAt and retryCount as they were. */
  function PromotedRow(row: Row, now: int): Row {
    row.(status := Pending, updatedAt := now)
  }

  function PromotionJob(row: Row, id: nat, now: int): Job {
    NewJob(id, DeliveryJob(row.taskResultId, row.destinationId, row.retryCount), 0, now)
  }

  /** The loop over the overdue rows, cut short by an error once budget storage calls have succeeded. */
  function Promote(s: Stores, overdue: seq<Row>, budget: nat, now: int): Stores
    decreases |overdue|
  {
    if overdue == [] || budget == 0 then s
    else
      var moved := PromoteOne(s, overdue[0], budget, now);
      Promote(moved.0, overdue[1..], moved.1, now)
  }

  /** One row, with what is left of the budget. */
  function PromoteOne(s: Stores, row: Row, budget: nat, now: int): (Stores, nat)
    requires budget > 0
  {
    var moved := s.(rows := Overwritten(s.rows, PromotedRow(row, now)));
    if budget == 1 then (moved, 0)
    else (moved.(jobs := s.jobs + [PromotionJob(row, s.nextId, now)], nextId := s.nextId + 1), budget - 2)
  }

  class DelayedQueueProcessor {
    const table: DeliveryTable
    const queue: JobQueue
    var processing: bool

    constructor (table: DeliveryTable, queue: JobQueue)
      ensures this.table == table && this.queue == queue && !processing
    {
      this.table, this.queue, processing := table, queue, false;
    }

    function Contents(): Stores
      reads table, queue
    {
      Stores(table.rows, queue.jobs, queue.nextId)
    }

    /** The count returned is the number of overdue rows found, even when an error cut the pass short. */
    method ProcessScheduledRetries(queryThrows: bool, budget: nat, now: int) returns (count: nat)
      requires queue.Valid()
      modifies this`processing, table, queue
      ensures queue.Valid() && processing == old(processing)
      ensures old(processing) || queryThrows ==> count == 0 && Contents() == old(Contents())
      ensures !old(processing) && !queryThrows ==>
        && count == |Select(old(table.rows), OverdueAt(now))|
        && Contents() == Promote(old(Contents()), Select(old(table.rows), OverdueAt(now)), budget, now)
    {
      if processing {
        return 0;
      }
      processing := true;
      if queryThrows {
        processing := false;
        return 0;
      }
      var overdue := table.Find(OverdueAt(now));
      count := |overdue|;
      var left := budget;
      var i := 0;
      while i < |overdue| && left > 0
        invariant 0 <= i <= |overdue| && queue.Valid()
        invariant Promote(Contents(), overdue[i..], left, now) == Promote(old(Contents()), overdue, budget, now)
      {
        assert overdue[i..][0] == overdue[i] && overdue[i..][1..] == overdue[i + 1..];
        left := PromoteRow(overdue[i], left, now);
        i := i + 1;
      }
      processing := false;
    }

    method PromoteRow(row: Row, budget: nat, now: int) returns (left: nat)
      requires queue.Valid() && budget > 0
      modifies table, queue
      ensures queue.Valid() && (Contents(), left) == PromoteOne(old(Contents()), row, budget, now)
    {
      table.UpdateStatus(row, Pending, now);
      if budget == 1 {
        return 0;
      }
      queue.Add(DeliveryJob(row.taskResultId, row.destinationId, row.retryCount), 0, now);
      left := budget - 2;
    }
  }

  /** The table after a pass in which nothing failed. */
  function PromotedTable(rows: seq<Row>, now: int): (r: seq<Row>)
    ensures |r| == |rows|
    ensures forall i :: 0 <= i < |rows| ==>
      r[i] == if OverdueAt(now).Matches(rows[i]) then PromotedRow(rows[i], now) else rows[i]
  {
    seq(|rows|, i requires 0 <= i < |rows| =>
      if OverdueAt(now).Matches(rows[i]) then PromotedRow(rows[i], now) else rows[i])
  }

  function PromotionJobs(overdue: seq<Row>, nextId: nat, now: int): (added: seq<Job>)
    ensures |added| == |overdue|
    ensures forall i :: 0 <= i < |overdue| ==> added[i] == PromotionJob(overdue[i], nextId + i, now)
  {
    seq(|overdue|, i requires 0 <= i < |overdue| => PromotionJob(overdue[i], nextId + i, now))
  }

  lemma {:induction false} PromoteTail(
    rows: seq<Row>, done: seq<Row>, s: Stores, overdue: seq<Row>, budget: nat, now: int, f: Row -> Row)
    requires Unique(rows) && (forall r <- overdue :: r in rows) && (forall r :: f(r) == PromotedRow(r, now))
    requires s.rows == Swept(rows, done, f) && budget >= 2 * |overdue|
    ensures Promote(s, overdue, budget, now)
         == Stores(Swept(rows, done + overdue, f), s.jobs + PromotionJobs(overdue, s.nextId, now), s.nextId + |overdue|)
    decreases |overdue|
  {
    if overdue == [] {
      assert done + overdue == done;
    } else {
      var row := overdue[0];
      SweptStep(rows, done, row, f);
      var next := Stores(Swept(rows, done + [row], f), s.jobs + [PromotionJob(row, s.nextId, now)], s.nextId + 1);
      PromoteTail(rows, done + [row], next, overdue[1..], budget - 2, now, f);
      assert done + [row] + overdue[1..] == done + overdue;
      PromotionJobsSplit(s.jobs, overdue, s.nextId, now);
    }
  }

  lemma PromotionJobsSplit(jobs: seq<Job>, overdue: seq<Row>, nextId: nat, now: int)
    requires overdue != []
    ensures jobs + PromotionJobs(overdue, nextId, now)
         == jobs + [PromotionJob(overdue[0], nextId, now)] + PromotionJobs(overdue[1..], nextId + 1, now)
  {
  }

  /** A clean pass promotes every overdue row, touches no other row, and adds one job per promoted row. */
  lemma CleanPass(s: Stores, budget: nat, now: int)
    requires Unique(s.rows) && budget >= 2 * |Select(s.rows, OverdueAt(now))|
    ensures var overdue := Select(s.rows, OverdueAt(now));
            Promote(s, overdue, budget, now)
            == Stores(PromotedTable(s.rows, now), s.jobs + PromotionJobs(overdue, s.nextId, now), s.nextId + |overdue|)
  {
    var overdue := Select(s.rows, OverdueAt(now));
    var f := (r: Row) => PromotedRow(r, now);
    assert s.rows == Swept(s.rows, [], f);
    PromoteTail(s.rows, [], s, overdue, budget, now, f);
    assert [] + overdue == overdue;
    assert Swept(s.rows, overdue, f) == PromotedTable(s.rows, now);
  }

  /** What a clean pass leaves of a row that was overdue, and of one that was not. */
  lemma PromotedInNumbers(s: Stores, budget: nat, now: int, i: nat)
    requires Unique(s.rows) && budget >= 2 * |Select(s.rows, OverdueAt(now))| && i < |s.rows|
    ensures var row, after := s.rows[i], Promote(s, Select(s.rows, OverdueAt(now)), budget, now);
            && |after.rows| == |s.rows|
            && after.rows[i].id == row.id && after.rows[i].SamePair(row)
            && after.rows[i].retryCount == row.retryCount && after.rows[i].nextRetryAt == row.nextRetryAt
            && if row.status == ScheduledRetry && row.nextRetryAt.Some? && row.nextRetryAt.value <= now
               then after.rows[i].status == Pending && after.rows[i].updatedAt == now && ServedBy(row, after.jobs, now)
               else after.rows[i] == row
  {
    var row, overdue := s.rows[i], Select(s.rows, OverdueAt(now));
    CleanPass(s, budget, now);
    if OverdueAt(now).Matches(row) {
      assert row in overdue;
      var k :| 0 <= k < |overdue| && overdue[k] == row;
      var added := PromotionJobs(overdue, s.nextId, now);
      assert added[k] == PromotionJob(row, s.nextId + k, now);
      assert added[k] in s.jobs + added;
    }
  }

  /** The queue holds a job for the row, due at once. */
  ghost predicate ServedBy(row: Row, jobs: seq<Job>, now: int) {
    exists job <- jobs ::
      && job.data.taskResultId == row.taskResultId && job.data.destinationId == row.destinationId
      && job.data.attempt == row.retryCount && job.state == Waiting && job.due == now
  }
}
