/** The two-pass audit of PENDING rows against queue jobs. */
module SyncState {
  import opened Prelude
  import opened DeliveryEntity
  import opened DeliveryStore

  function RowKey(row: Row): string {
    Joined(row.taskResultId, row.destinationId)
  }

  /** The key the audit reads off a job; an absent id prints as "undefined". */
  function JobKey(data: JobData): string {
    Joined(if data.taskResultId != "" then data.taskResultId
           else if data.deliveryId != "" then data.deliveryId
           else "undefined",
           data.destinationId)
  }

  predicate CarriesBothIds(data: JobData) {
    data.taskResultId != "" && data.destinationId != ""
  }

  // The storage errors one run may meet, by row id and by job id.
  datatype Faults = Faults(enqueueFails: string -> bool, lookupFails: nat -> bool, removeFails: nat -> bool)

  function NoFaults(): Faults {
    Faults(_ => false, _ => false, _ => false)
  }

  /** The first row of the job's result that goes to the job's destination. */
  function RecordFor(rows: seq<Row>, data: JobData): (r: Option<Row>)
    ensures r.Some? ==>
      && r.value in rows
      && r.value.taskResultId == data.taskResultId && r.value.destinationId == data.destinationId
    ensures r.None? ==> forall row <- rows ::
      !(row.taskResultId == data.taskResultId && row.destinationId == data.destinationId)
  {
    if rows == [] then None
    else if rows[0].taskResultId == data.taskResultId && rows[0].destinationId == data.destinationId then Some(rows[0])
    else RecordFor(rows[1..], data)
  }

  predicate HasLiveRow(rows: seq<Row>, data: JobData) {
    var record := RecordFor(rows, data);
    record.Some? && !record.value.status.IsFinal()
  }

  /** The queue and the counters as the audit proceeds; the program does not count failed removals. */
  datatype Audit = Audit(jobs: seq<Job>, nextId: nat, synced: int, errors: int, discrepancies: int, failedRemovals: int)

  function MissingJob(row: Row, id: nat, now: int): Job {
    NewJob(id, DeliveryJob(row.taskResultId, row.destinationId, row.retryCount + 1), 0, now)
  }

  function CheckRow(a: Audit, row: Row, keys: set<string>, f: Faults, now: int): Audit {
    if RowKey(row) in keys then a
    else if f.enqueueFails(row.id) then a.(discrepancies := a.discrepancies + 1, errors := a.errors + 1)
    else a.(discrepancies := a.discrepancies + 1, synced := a.synced + 1,
            jobs := a.jobs + [MissingJob(row, a.nextId, now)], nextId := a.nextId + 1)
  }

  function CheckRows(a: Audit, pending: seq<Row>, keys: set<string>, f: Faults, now: int): Audit
    decreases |pending|
  {
    if pending == [] then a
    else CheckRows(CheckRow(a, pending[0], keys, f, now), pending[1..], keys, f, now)
  }

  function CheckJob(a: Audit, job: Job, rows: seq<Row>, f: Faults): Audit {
    if !CarriesBothIds(job.data) || f.lookupFails(job.id) || HasLiveRow(rows, job.data) then a
    else if f.removeFails(job.id) then
      a.(discrepancies := a.discrepancies + 1, failedRemovals := a.failedRemovals + 1)
    else
      a.(discrepancies := a.discrepancies + 1, synced := a.synced + 1, jobs := Without(a.jobs, {job.id}))
  }

  function CheckJobs(a: Audit, active: seq<Job>, rows: seq<Row>, f: Faults): Audit
    decreases |active|
  {
    if active == [] then a
    else CheckJobs(CheckJob(a, active[0], rows, f), active[1..], rows, f)
  }

  function Keys(jobs: seq<Job>): set<string> {
    set j <- jobs :: JobKey(j.data)
  }

  /** One whole run over the given stores. */
  function Synced(s: Stores, f: Faults, now: int): Audit {
    var active := Live(s.jobs);
    var checked := CheckRows(Audit(s.jobs, s.nextId, 0, 0, 0, 0), Select(s.rows, WithStatus(Pending)), Keys(active), f, now);
    CheckJobs(checked, active, s.rows, f)
  }

  datatype SyncResult = SyncResult(synced: int, errors: int, discrepancies: int)

  class SyncStateService {
    const table: DeliveryTable
    const queue: JobQueue

    constructor (table: DeliveryTable, queue: JobQueue)
      ensures this.table == table && this.queue == queue
    {
      this.table, this.queue := table, queue;
    }

    function Counted(r: SyncResult, failedRemovals: int): Audit
      reads queue
    {
      Audit(queue.jobs, queue.nextId, r.synced, r.errors, r.discrepancies, failedRemovals)
    }

    method Sync(f: Faults, now: int) returns (r: SyncResult, ghost failedRemovals: int)
      requires queue.Valid()
      modifies queue
      ensures queue.Valid()
      ensures Counted(r, failedRemovals) == Synced(old(Stores(table.rows, queue.jobs, queue.nextId)), f, now)
      ensures r.discrepancies == r.synced + r.errors + failedRemovals
    {
      var pending := table.Find(WithStatus(Pending));
      var active := queue.GetLiveJobs();
      var keys := Keys(active);
      r := EnqueueMissing(pending, keys, f, now);
      r, failedRemovals := RemoveDead(active, r, f);
    }

    /** First pass: a PENDING row whose key no job carried at the time of the scan gets a job. */
    method EnqueueMissing(pending: seq<Row>, keys: set<string>, f: Faults, now: int) returns (r: SyncResult)
      requires queue.Valid()
      modifies queue
      ensures queue.Valid()
      ensures Counted(r, 0) == CheckRows(old(Counted(SyncResult(0, 0, 0), 0)), pending, keys, f, now)
      ensures r.discrepancies == r.synced + r.errors
    {
      var synced, errors, discrepancies := 0, 0, 0;
      for i := 0 to |pending|
        invariant queue.Valid() && discrepancies == synced + errors
        invariant CheckRows(Counted(SyncResult(synced, errors, discrepancies), 0), pending[i..], keys, f, now)
               == CheckRows(old(Counted(SyncResult(0, 0, 0), 0)), pending, keys, f, now)
      {
        var row := pending[i];
        assert pending[i..][0] == row && pending[i..][1..] == pending[i + 1..];
        if RowKey(row) !in keys {
          discrepancies := discrepancies + 1;
          if f.enqueueFails(row.id) {
            errors := errors + 1;
          } else {
            queue.EnqueueDelivery(row.taskResultId, row.destinationId, row.retryCount + 1, 0, now);
            synced := synced + 1;
          }
        }
      }
      r := SyncResult(synced, errors, discrepancies);
    }

    /** Second pass: a scanned job without a row, or with a finished one, is removed. */
    method RemoveDead(active: seq<Job>, r0: SyncResult, f: Faults) returns (r: SyncResult, ghost failedRemovals: int)
      requires queue.Valid()
      modifies queue
      ensures queue.Valid()
      ensures Counted(r, failedRemovals) == CheckJobs(old(Counted(r0, 0)), active, table.rows, f)
      ensures r.discrepancies - r0.discrepancies == (r.synced - r0.synced) + failedRemovals && r.errors == r0.errors
    {
      r, failedRemovals := r0, 0;
      for i := 0 to |active|
        invariant queue.Valid() && r.errors == r0.errors
        invariant r.discrepancies - r0.discrepancies == (r.synced - r0.synced) + failedRemovals
        invariant CheckJobs(Counted(r, failedRemovals), active[i..], table.rows, f)
               == CheckJobs(old(Counted(r0, 0)), active, table.rows, f)
      {
        assert active[i..][0] == active[i] && active[i..][1..] == active[i + 1..];
        r, failedRemovals := CheckOne(active[i], r, failedRemovals, f);
      }
    }

    method CheckOne(job: Job, r0: SyncResult, ghost failed0: int, f: Faults) returns (r: SyncResult, ghost failed: int)
      requires queue.Valid()
      modifies queue
      ensures queue.Valid() && Counted(r, failed) == CheckJob(old(Counted(r0, failed0)), job, table.rows, f)
      ensures r.discrepancies - r0.discrepancies == (r.synced - r0.synced) + (failed - failed0) && r.errors == r0.errors
    {
      r, failed := r0, failed0;
      if CarriesBothIds(job.data) && !f.lookupFails(job.id) {
        var record := RecordFor(table.rows, job.data);
        if record.None? || record.value.status.IsFinal() {
          if f.removeFails(job.id) {
            r, failed := r.(discrepancies := r.discrepancies + 1), failed + 1;
          } else {
            queue.Remove(job.id);
            r := r.(discrepancies := r.discrepancies + 1, synced := r.synced + 1);
          }
        }
      }
    }
  }
}
