/** What one run of the audit achieves, and why a second run finds nothing to do. */
module SyncCorrectness {
  import opened Prelude
  import opened DeliveryEntity
  import opened DeliveryStore
  import opened SyncState

  /** The jobs the first pass adds. */
  function MissingJobs(pending: seq<Row>, keys: set<string>, f: Faults, nextId: nat, now: int): seq<Job> {
    if pending == [] then []
    else if RowKey(pending[0]) in keys || f.enqueueFails(pending[0].id) then
      MissingJobs(pending[1..], keys, f, nextId, now)
    else
      [MissingJob(pending[0], nextId, now)] + MissingJobs(pending[1..], keys, f, nextId + 1, now)
  }

  predicate IsDead(rows: seq<Row>, job: Job, f: Faults) {
    CarriesBothIds(job.data) && !f.lookupFails(job.id) && !HasLiveRow(rows, job.data)
  }

  /** The jobs the second pass takes out. */
  function RemovedIds(active: seq<Job>, rows: seq<Row>, f: Faults): set<nat> {
    set j <- active | IsDead(rows, j, f) && !f.removeFails(j.id) :: j.id
  }

  lemma {:induction false} FirstPass(a: Audit, pending: seq<Row>, keys: set<string>, f: Faults, now: int)
    ensures var r := CheckRows(a, pending, keys, f, now);
            && r.jobs == a.jobs + MissingJobs(pending, keys, f, a.nextId, now)
            && r.nextId == a.nextId + |MissingJobs(pending, keys, f, a.nextId, now)|
            && r.failedRemovals == a.failedRemovals
    decreases |pending|
  {
    if pending != [] {
      var next := CheckRow(a, pending[0], keys, f, now);
      FirstPass(next, pending[1..], keys, f, now);
    }
  }

  lemma {:induction false} SecondPass(a: Audit, active: seq<Job>, rows: seq<Row>, f: Faults)
    ensures var r := CheckJobs(a, active, rows, f);
            r.jobs == Without(a.jobs, RemovedIds(active, rows, f)) && r.nextId == a.nextId
    decreases |active|
  {
    if active == [] {
      assert RemovedIds(active, rows, f) == {};
      WithoutNone(a.jobs, {});
    } else {
      var next := CheckJob(a, active[0], rows, f);
      SecondPass(next, active[1..], rows, f);
      var later := RemovedIds(active[1..], rows, f);
      if IsDead(rows, active[0], f) && !f.removeFails(active[0].id) {
        WithoutTwice(a.jobs, {active[0].id}, later);
        assert RemovedIds(active, rows, f) == {active[0].id} + later;
      } else {
        assert RemovedIds(active, rows, f) == later;
      }
    }
  }

  /** The queue after any run, failures included: the added jobs, less the removed ones. */
  lemma SyncedJobs(s: Stores, f: Faults, now: int)
    ensures var active := Live(s.jobs);
            Synced(s, f, now).jobs
            == Without(s.jobs + MissingJobs(Select(s.rows, WithStatus(Pending)), Keys(active), f, s.nextId, now),
                       RemovedIds(active, s.rows, f))
  {
    var active, pending := Live(s.jobs), Select(s.rows, WithStatus(Pending));
    var start := Audit(s.jobs, s.nextId, 0, 0, 0, 0);
    FirstPass(start, pending, Keys(active), f, now);
    SecondPass(CheckRows(start, pending, Keys(active), f, now), active, s.rows, f);
  }

  lemma {:induction false} MissingJobOrigin(pending: seq<Row>, keys: set<string>, f: Faults, nextId: nat, now: int, job: Job)
    requires job in MissingJobs(pending, keys, f, nextId, now)
    ensures job.id >= nextId && job.state.IsLive()
    ensures exists row :: row in pending && RowKey(row) !in keys && job == MissingJob(row, job.id, now)
  {
    if RowKey(pending[0]) in keys || f.enqueueFails(pending[0].id) {
      MissingJobOrigin(pending[1..], keys, f, nextId, now, job);
    } else if job != MissingJob(pending[0], nextId, now) {
      MissingJobOrigin(pending[1..], keys, f, nextId + 1, now, job);
    }
  }

  lemma {:induction false} MissingJobFor(pending: seq<Row>, keys: set<string>, f: Faults, nextId: nat, now: int, row: Row)
    requires row in pending && RowKey(row) !in keys && !f.enqueueFails(row.id)
    ensures exists id :: id >= nextId && MissingJob(row, id, now) in MissingJobs(pending, keys, f, nextId, now)
  {
    if pending[0] == row {
      assert MissingJob(row, nextId, now) in MissingJobs(pending, keys, f, nextId, now);
    } else if RowKey(pending[0]) in keys || f.enqueueFails(pending[0].id) {
      MissingJobFor(pending[1..], keys, f, nextId, now, row);
    } else {
      MissingJobFor(pending[1..], keys, f, nextId + 1, now, row);
      var id :| id >= nextId + 1 && MissingJob(row, id, now) in MissingJobs(pending[1..], keys, f, nextId + 1, now);
      assert MissingJob(row, id, now) in MissingJobs(pending, keys, f, nextId, now);
    }
  }

  /** A job that belongs to a row: it carries the row's two ids and some scan of the queue will see it. */
  predicate Serves(job: Job, row: Row) {
    job.state.IsLive() && job.data.taskResultId == row.taskResultId && job.data.destinationId == row.destinationId
  }

  ghost predicate HasJob(jobs: seq<Job>, row: Row) {
    exists job :: job in jobs && Serves(job, row)
  }

  /** Ids as the entity requires them, and no colon where the keys are joined. */
  predicate PlainIds(taskResultId: string, destinationId: string) {
    taskResultId != "" && destinationId != "" && ':' !in taskResultId
  }

  /** The table and queue the shipped services produce: one row per pair, and jobs in the shape of enqueueDelivery. */
  ghost predicate Shaped(s: Stores) {
    && Unique(s.rows) && ValidJobs(s.jobs, s.nextId)
    && (forall row <- s.rows :: PlainIds(row.taskResultId, row.destinationId))
    && (forall job <- s.jobs :: PlainIds(job.data.taskResultId, job.data.destinationId))
  }

  lemma RecordIsTheRow(rows: seq<Row>, row: Row, data: JobData)
    requires Unique(rows) && row in rows
    requires data.taskResultId == row.taskResultId && data.destinationId == row.destinationId
    ensures RecordFor(rows, data) == Some(row)
  {
    var found := RecordFor(rows, data).value;
    var i :| 0 <= i < |rows| && rows[i] == row;
    var j :| 0 <= j < |rows| && rows[j] == found;
    assert i < j ==> !rows[i].SamePair(rows[j]);
    assert j < i ==> !rows[j].SamePair(rows[i]);
  }

  lemma SameIdSameJob(jobs: seq<Job>, nextId: nat, a: Job, b: Job)
    requires ValidJobs(jobs, nextId) && a in jobs && b in jobs && a.id == b.id
    ensures a == b
  {
    var i :| 0 <= i < |jobs| && jobs[i] == a;
    var j :| 0 <= j < |jobs| && jobs[j] == b;
  }

  /** Which jobs a clean run keeps and which it adds. */
  lemma CleanRunJobs(s: Stores, now: int, job: Job)
    requires ValidJobs(s.jobs, s.nextId)
    ensures var pending, keys := Select(s.rows, WithStatus(Pending)), Keys(Live(s.jobs));
            job in Synced(s, NoFaults(), now).jobs
            <==> (job in s.jobs && !(job.state.IsLive() && IsDead(s.rows, job, NoFaults())))
                 || job in MissingJobs(pending, keys, NoFaults(), s.nextId, now)
  {
    var f := NoFaults();
    var pending, keys := Select(s.rows, WithStatus(Pending)), Keys(Live(s.jobs));
    SyncedJobs(s, f, now);
    var removed := RemovedIds(Live(s.jobs), s.rows, f);
    if job in s.jobs && job.id in removed {
      var dead :| dead in Live(s.jobs) && IsDead(s.rows, dead, f) && dead.id == job.id;
      SameIdSameJob(s.jobs, s.nextId, job, dead);
    }
    if job in MissingJobs(pending, keys, f, s.nextId, now) {
      MissingJobOrigin(pending, keys, f, s.nextId, now, job);
      assert job.id !in removed;
    }
  }

  /** Exactly which PENDING rows end a clean run with a job of their own: those that had one, and those
      whose joined key no scanned job happened to share. */
  lemma SyncServesRow(s: Stores, now: int, row: Row)
    requires Unique(s.rows) && ValidJobs(s.jobs, s.nextId) && row in s.rows && row.status.Pending?
    ensures HasJob(Synced(s, NoFaults(), now).jobs, row)
       <==> HasJob(s.jobs, row) || RowKey(row) !in Keys(Live(s.jobs))
  {
    var f := NoFaults();
    var pending, keys := Select(s.rows, WithStatus(Pending)), Keys(Live(s.jobs));
    var after := Synced(s, f, now).jobs;
    if job :| job in s.jobs && Serves(job, row) {
      RecordIsTheRow(s.rows, row, job.data);
      CleanRunJobs(s, now, job);
      assert job in after;
    } else if RowKey(row) !in keys {
      MissingJobFor(pending, keys, f, s.nextId, now, row);
      var id :| MissingJob(row, id, now) in MissingJobs(pending, keys, f, s.nextId, now);
      CleanRunJobs(s, now, MissingJob(row, id, now));
      assert Serves(MissingJob(row, id, now), row);
    } else {
      forall job | job in after
        ensures !Serves(job, row)
      {
        CleanRunJobs(s, now, job);
        if job !in s.jobs {
          NewJobServesOnlyItsRow(s, now, job, row);
        }
      }
    }
  }

  lemma NewJobServesOnlyItsRow(s: Stores, now: int, job: Job, row: Row)
    requires Unique(s.rows) && row in s.rows && RowKey(row) in Keys(Live(s.jobs))
    requires job in MissingJobs(Select(s.rows, WithStatus(Pending)), Keys(Live(s.jobs)), NoFaults(), s.nextId, now)
    ensures !Serves(job, row)
  {
    var pending, keys := Select(s.rows, WithStatus(Pending)), Keys(Live(s.jobs));
    MissingJobOrigin(pending, keys, NoFaults(), s.nextId, now, job);
    var other :| other in pending && RowKey(other) !in keys && job == MissingJob(other, job.id, now);
    if Serves(job, row) {
      RecordIsTheRow(s.rows, row, job.data);
      RecordIsTheRow(s.rows, other, job.data);
    }
  }

  /** With ids the services produce, a shared key means shared ids, so every PENDING row ends with a job. */
  lemma EveryPendingRowServed(s: Stores, now: int, row: Row)
    requires Shaped(s) && row in s.rows && row.status.Pending?
    ensures HasJob(Synced(s, NoFaults(), now).jobs, row)
  {
    if RowKey(row) in Keys(Live(s.jobs)) {
      var job :| job in Live(s.jobs) && JobKey(job.data) == RowKey(row);
      JoinedInjective(job.data.taskResultId, job.data.destinationId, row.taskResultId, row.destinationId);
      assert Serves(job, row);
    }
    SyncServesRow(s, now, row);
  }

  /** After a clean run, whatever the queue held, a live job carrying both ids has a row that is not finished. */
  lemma EveryJobHasLiveRow(s: Stores, now: int, job: Job)
    requires Unique(s.rows) && ValidJobs(s.jobs, s.nextId)
    requires job in Synced(s, NoFaults(), now).jobs && job.state.IsLive() && CarriesBothIds(job.data)
    ensures HasLiveRow(s.rows, job.data)
  {
    CleanRunJobs(s, now, job);
    if !HasLiveRow(s.rows, job.data) {
      NewJobHasLiveRow(s, now, job);
    }
  }

  lemma NewJobHasLiveRow(s: Stores, now: int, job: Job)
    requires Unique(s.rows)
    requires job in MissingJobs(Select(s.rows, WithStatus(Pending)), Keys(Live(s.jobs)), NoFaults(), s.nextId, now)
    ensures HasLiveRow(s.rows, job.data)
  {
    var pending, keys := Select(s.rows, WithStatus(Pending)), Keys(Live(s.jobs));
    MissingJobOrigin(pending, keys, NoFaults(), s.nextId, now, job);
    var row :| row in pending && RowKey(row) !in keys && job == MissingJob(row, job.id, now);
    RecordIsTheRow(s.rows, row, job.data);
  }

  lemma {:induction false} NothingMissing(a: Audit, pending: seq<Row>, keys: set<string>, f: Faults, now: int)
    requires forall row <- pending :: RowKey(row) in keys
    ensures CheckRows(a, pending, keys, f, now) == a
    decreases |pending|
  {
    if pending != [] {
      NothingMissing(a, pending[1..], keys, f, now);
    }
  }

  lemma {:induction false} NothingDead(a: Audit, active: seq<Job>, rows: seq<Row>, f: Faults)
    requires forall job <- active :: CarriesBothIds(job.data) ==> HasLiveRow(rows, job.data)
    ensures CheckJobs(a, active, rows, f) == a
    decreases |active|
  {
    if active != [] {
      NothingDead(a, active[1..], rows, f);
    }
  }

  /** A second run, at any later time and even with storage errors, reports zero and changes nothing. */
  lemma SyncIsIdempotent(s: Stores, now: int, f: Faults, later: int)
    requires Shaped(s)
    ensures var first := Synced(s, NoFaults(), now);
            Synced(Stores(s.rows, first.jobs, first.nextId), f, later) == Audit(first.jobs, first.nextId, 0, 0, 0, 0)
  {
    var first := Synced(s, NoFaults(), now);
    var pending, active := Select(s.rows, WithStatus(Pending)), Live(first.jobs);
    forall row | row in pending
      ensures RowKey(row) in Keys(active)
    {
      EveryPendingRowServed(s, now, row);
      var job :| job in first.jobs && Serves(job, row);
      assert job in active && JobKey(job.data) == RowKey(row);
    }
    forall job | job in active && CarriesBothIds(job.data)
      ensures HasLiveRow(s.rows, job.data)
    {
      EveryJobHasLiveRow(s, now, job);
    }
    var start := Audit(first.jobs, first.nextId, 0, 0, 0, 0);
    NothingMissing(start, pending, Keys(active), f, later);
    NothingDead(start, active, s.rows, f);
  }

  /** Why colons matter: ("a:b", "c") and ("a", "b:c") share a key, so the PENDING row below is left without a job
      although the run reports no error. */
  lemma ColonsCollide() returns (s: Stores, row: Row)
    ensures Unique(s.rows) && ValidJobs(s.jobs, s.nextId) && row in s.rows && row.status.Pending?
    ensures forall now :: Synced(s, NoFaults(), now).errors == 0 && !HasJob(Synced(s, NoFaults(), now).jobs, row)
  {
    row := Row("r1", "a:b", "c", Pending, 0, None, 0);
    var other := Row("r2", "a", "b:c", Pending, 0, None, 0);
    var job := Job(0, DeliveryJob("a", "b:c", 1), Waiting, 0);
    s := Stores([row, other], [job], 1);
    assert Live(s.jobs) == [job];
    assert JobKey(job.data) == RowKey(row) == RowKey(other) == "a:b:c";
    forall now
      ensures Synced(s, NoFaults(), now).errors == 0 && !HasJob(Synced(s, NoFaults(), now).jobs, row)
    {
      assert !Serves(job, row);
      assert RowKey(row) in Keys(Live(s.jobs)) by {
        assert job in Live(s.jobs);
      }
      SyncServesRow(s, now, row);
      NoErrors(s, now);
    }
  }

  lemma NoErrors(s: Stores, now: int)
    ensures Synced(s, NoFaults(), now).errors == 0
  {
    var active, pending := Live(s.jobs), Select(s.rows, WithStatus(Pending));
    var start := Audit(s.jobs, s.nextId, 0, 0, 0, 0);
    NoErrorsInRows(start, pending, Keys(active), now);
    NoErrorsInJobs(CheckRows(start, pending, Keys(active), NoFaults(), now), active, s.rows);
  }

  lemma {:induction false} NoErrorsInRows(a: Audit, pending: seq<Row>, keys: set<string>, now: int)
    ensures CheckRows(a, pending, keys, NoFaults(), now).errors == a.errors
    decreases |pending|
  {
    if pending != [] {
      NoErrorsInRows(CheckRow(a, pending[0], keys, NoFaults(), now), pending[1..], keys, now);
    }
  }

  lemma {:induction false} NoErrorsInJobs(a: Audit, active: seq<Job>, rows: seq<Row>)
    ensures CheckJobs(a, active, rows, NoFaults()).errors == a.errors
    decreases |active|
  {
    if active != [] {
      NoErrorsInJobs(CheckJob(a, active[0], rows, NoFaults()), active[1..], rows);
    }
  }

  /** Every discrepancy a run reports is synced, an error, or a removal that failed silently. */
  lemma SyncAccounts(s: Stores, f: Faults, now: int)
    ensures var a := Synced(s, f, now);
            a.discrepancies == a.synced + a.errors + a.failedRemovals && 0 <= a.failedRemovals
  {
    var active, pending := Live(s.jobs), Select(s.rows, WithStatus(Pending));
    var start := Audit(s.jobs, s.nextId, 0, 0, 0, 0);
    AccountRows(start, pending, Keys(active), f, now);
    AccountJobs(CheckRows(start, pending, Keys(active), f, now), active, s.rows, f);
  }

  function Unexplained(a: Audit): int {
    a.discrepancies - a.synced - a.errors - a.failedRemovals
  }

  lemma {:induction false} AccountRows(a: Audit, pending: seq<Row>, keys: set<string>, f: Faults, now: int)
    ensures var r := CheckRows(a, pending, keys, f, now);
            Unexplained(r) == Unexplained(a) && r.failedRemovals == a.failedRemovals
    decreases |pending|
  {
    if pending != [] {
      AccountRows(CheckRow(a, pending[0], keys, f, now), pending[1..], keys, f, now);
    }
  }

  lemma {:induction false} AccountJobs(a: Audit, active: seq<Job>, rows: seq<Row>, f: Faults)
    ensures var r := CheckJobs(a, active, rows, f);
            Unexplained(r) == Unexplained(a) && r.failedRemovals >= a.failedRemovals
    decreases |active|
  {
    if active != [] {
      AccountJobs(CheckJob(a, active[0], rows, f), active[1..], rows, f);
    }
  }

  /** A PENDING row whose key no scanned job shares gets a job for its next attempt, due at once. */
  lemma SyncAddsDueJob(s: Stores, now: int, row: Row)
    requires Unique(s.rows) && ValidJobs(s.jobs, s.nextId) && row in s.rows && row.status.Pending?
    requires RowKey(row) !in Keys(Live(s.jobs))
    ensures exists job <- Synced(s, NoFaults(), now).jobs ::
              && job.data.taskResultId == row.taskResultId && job.data.destinationId == row.destinationId
              && job.data.attempt == row.retryCount + 1 && job.state == Waiting && job.due == now
  {
    var pending, keys := Select(s.rows, WithStatus(Pending)), Keys(Live(s.jobs));
    MissingJobFor(pending, keys, NoFaults(), s.nextId, now, row);
    var id :| id >= s.nextId && MissingJob(row, id, now) in MissingJobs(pending, keys, NoFaults(), s.nextId, now);
    CleanRunJobs(s, now, MissingJob(row, id, now));
  }

  function CountDead(active: seq<Job>, rows: seq<Row>): nat {
    if active == [] then 0
    else (if CarriesBothIds(active[0].data) && !HasLiveRow(rows, active[0].data) then 1 else 0)
         + CountDead(active[1..], rows)
  }

  function CountMissing(pending: seq<Row>, keys: set<string>): nat {
    if pending == [] then 0 else (if RowKey(pending[0]) !in keys then 1 else 0) + CountMissing(pending[1..], keys)
  }

  lemma {:induction false} CountsRows(a: Audit, pending: seq<Row>, keys: set<string>, now: int)
    ensures var r := CheckRows(a, pending, keys, NoFaults(), now);
            && r.synced == a.synced + CountMissing(pending, keys)
            && r.discrepancies == a.discrepancies + CountMissing(pending, keys)
    decreases |pending|
  {
    if pending != [] {
      CountsRows(CheckRow(a, pending[0], keys, NoFaults(), now), pending[1..], keys, now);
    }
  }

  lemma {:induction false} CountsJobs(a: Audit, active: seq<Job>, rows: seq<Row>)
    ensures var r := CheckJobs(a, active, rows, NoFaults());
            && r.synced == a.synced + CountDead(active, rows)
            && r.discrepancies == a.discrepancies + CountDead(active, rows)
    decreases |active|
  {
    if active != [] {
      CountsJobs(CheckJob(a, active[0], rows, NoFaults()), active[1..], rows);
    }
  }

  /** A clean run reports exactly the PENDING rows without a job of their key and the jobs without a live row. */
  lemma SyncCounts(s: Stores, now: int)
    ensures var audit, active := Synced(s, NoFaults(), now), Live(s.jobs);
            var found := CountMissing(Select(s.rows, WithStatus(Pending)), Keys(active)) + CountDead(active, s.rows);
            audit.synced == found && audit.discrepancies == found && audit.errors == 0
  {
    var active := Live(s.jobs);
    var a := Audit(s.jobs, s.nextId, 0, 0, 0, 0);
    var pending := Select(s.rows, WithStatus(Pending));
    CountsRows(a, pending, Keys(active), now);
    CountsJobs(CheckRows(a, pending, Keys(active), NoFaults(), now), active, s.rows);
    NoErrors(s, now);
  }
}
