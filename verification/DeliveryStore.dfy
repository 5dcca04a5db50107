/** The two stores that must agree: the delivery table and the delivery queue, as the services use them. */
module DeliveryStore {
  import opened Prelude
  import opened DeliveryEntity

  /** A stored delivery. The table has a primary key and one row per (taskResultId, destinationId). */
  datatype Row = Row(
    id: string, taskResultId: string, destinationId: string,
    status: Status, retryCount: nat, nextRetryAt: Option<int>, updatedAt: int)
  {
    /** Reading a row back: only these fields survive storage. */
    function Restored(): DeliveryState {
      DeliveryState(status, retryCount, nextRetryAt, None, None, None, updatedAt)
    }

    /** Writing a delivery over this row; the store stamps its own update time. */
    function Updated(state: DeliveryState, now: int): Row {
      this.(status := state.status, retryCount := state.retryCount, nextRetryAt := state.nextRetryAt, updatedAt := now)
    }

    predicate SamePair(other: Row) {
      taskResultId == other.taskResultId && destinationId == other.destinationId
    }
  }

  ghost predicate Unique(rows: seq<Row>) {
    forall i, j :: 0 <= i < j < |rows| ==> rows[i].id != rows[j].id && !rows[i].SamePair(rows[j])
  }

  datatype Query = WithStatus(status: Status) | StaleBefore(threshold: int) | OverdueAt(now: int) | OfTaskResult(id: string)
  {
    predicate Matches(row: Row) {
      match this
      case WithStatus(s) => row.status == s
      case StaleBefore(threshold) => row.status.Processing? && row.updatedAt <= threshold
      case OverdueAt(now) => row.status.ScheduledRetry? && row.nextRetryAt.Some? && row.nextRetryAt.value <= now
      case OfTaskResult(id) => row.taskResultId == id
    }
  }

  /** The rows a query returns, in table order. */
  function Select(rows: seq<Row>, q: Query): (found: seq<Row>)
    ensures forall r :: r in found <==> r in rows && q.Matches(r)
  {
    if rows == [] then []
    else if q.Matches(rows[0]) then [rows[0]] + Select(rows[1..], q)
    else Select(rows[1..], q)
  }

  lemma HeadApart(rows: seq<Row>)
    requires Unique(rows) && rows != []
    ensures Unique(rows[1..]) && forall r <- rows[1..] :: r.id != rows[0].id && !rows[0].SamePair(r)
  {
    forall r | r in rows[1..]
      ensures r.id != rows[0].id && !rows[0].SamePair(r)
    {
      var k :| 0 <= k < |rows[1..]| && rows[1..][k] == r;
      assert rows[k + 1] == r;
    }
  }

  lemma PrependUnique(first: Row, rest: seq<Row>)
    requires Unique(rest) && forall r <- rest :: r.id != first.id && !first.SamePair(r)
    ensures Unique([first] + rest)
  {
    var all := [first] + rest;
    forall i, j | 0 <= i < j < |all|
      ensures all[i].id != all[j].id && !all[i].SamePair(all[j])
    {
      assert all[j] == rest[j - 1] && (i > 0 ==> all[i] == rest[i - 1]);
    }
  }

  lemma {:induction false} SelectUnique(rows: seq<Row>, q: Query)
    requires Unique(rows)
    ensures Unique(Select(rows, q))
  {
    if rows != [] {
      HeadApart(rows);
      SelectUnique(rows[1..], q);
      PrependUnique(rows[0], Select(rows[1..], q));
    }
  }

  /** A query filters: it keeps the table's order and its repeats. */
  lemma {:induction false} SelectInOrder(a: seq<Row>, b: seq<Row>, q: Query)
    ensures Select(a + b, q) == Select(a, q) + Select(b, q)
    ensures forall r :: Select([r], q) == if q.Matches(r) then [r] else []
  {
    if a == [] {
      assert a + b == b;
    } else {
      assert (a + b)[1..] == a[1..] + b;
      SelectInOrder(a[1..], b, q);
    }
  }

  /** The table after an upsert by id: a new row is refused when another already has its pair. */
  function Upserted(rows: seq<Row>, row: Row): Option<seq<Row>> {
    if exists r <- rows :: r.id == row.id then Some(Overwritten(rows, row))
    else if exists r <- rows :: r.SamePair(row) then None
    else Some(rows + [row])
  }

  /** An upsert that leaves a stored row its pair keeps the table's two constraints, stores the row, and touches no
      other; it is refused exactly for a new id with a stored pair. */
  lemma UpsertKeepsUnique(rows: seq<Row>, row: Row)
    requires Unique(rows) && forall r <- rows :: r.id == row.id ==> r.SamePair(row)
    ensures Upserted(rows, row).None? <==> (exists r <- rows :: r.SamePair(row)) && forall r <- rows :: r.id != row.id
    ensures var after := Upserted(rows, row);
            after.Some? ==>
              && Unique(after.value) && row in after.value
              && forall r: Row :: r.id != row.id ==> (r in after.value <==> r in rows)
  {
    var after := Upserted(rows, row);
    if r :| r in rows && r.id == row.id {
      var k :| 0 <= k < |rows| && rows[k] == r;
      OverwrittenUnique(rows, row, k);
    }
  }

  lemma OverwrittenUnique(rows: seq<Row>, row: Row, k: nat)
    requires Unique(rows) && k < |rows| && rows[k].id == row.id && rows[k].SamePair(row)
    ensures Unique(Overwritten(rows, row)) && row in Overwritten(rows, row)
    ensures forall r: Row :: r.id != row.id ==> (r in Overwritten(rows, row) <==> r in rows)
  {
    var after := Overwritten(rows, row);
    assert after[k] == row;
    forall i | 0 <= i < |rows|
      ensures after[i].id == rows[i].id && after[i].SamePair(rows[i])
    {
      assert rows[i].id == row.id ==> i == k;
    }
    forall r: Row | r.id != row.id
      ensures r in after <==> r in rows
    {
      if r in rows {
        var i :| 0 <= i < |rows| && rows[i] == r;
        assert after[i] == r;
      }
    }
  }

  /** The table with one row, found by its id, overwritten. */
  function Overwritten(rows: seq<Row>, row: Row): (r: seq<Row>)
    ensures |r| == |rows|
    ensures forall i :: 0 <= i < |rows| ==> r[i] == if rows[i].id == row.id then row else rows[i]
  {
    seq(|rows|, i requires 0 <= i < |rows| => if rows[i].id == row.id then row else rows[i])
  }

  lemma OverwrittenTwice(rows: seq<Row>, a: Row, b: Row)
    requires a.id == b.id
    ensures Overwritten(Overwritten(rows, a), b) == Overwritten(rows, b)
  {
  }

  /** The table part way through a sweep: the rows already handled are rewritten by f, the others are untouched. */
  function Swept(rows: seq<Row>, done: seq<Row>, f: Row -> Row): (r: seq<Row>)
    ensures |r| == |rows|
    ensures forall i :: 0 <= i < |rows| ==> r[i] == if rows[i] in done then f(rows[i]) else rows[i]
  {
    seq(|rows|, i requires 0 <= i < |rows| => if rows[i] in done then f(rows[i]) else rows[i])
  }

  lemma SweptStep(rows: seq<Row>, done: seq<Row>, row: Row, f: Row -> Row)
    requires Unique(rows) && row in rows && forall r :: f(r).id == r.id
    ensures Overwritten(Swept(rows, done, f), f(row)) == Swept(rows, done + [row], f)
    ensures f(row) == row ==> Swept(rows, done, f) == Swept(rows, done + [row], f)
  {
    var k :| 0 <= k < |rows| && rows[k] == row;
    forall i | 0 <= i < |rows|
      ensures rows[i].id == row.id <==> i == k
      ensures rows[i] in done + [row] <==> rows[i] in done || i == k
    {
      assert i < k ==> rows[i].id != rows[k].id;
      assert k < i ==> rows[k].id != rows[i].id;
    }
  }

  class DeliveryTable {
    var rows: seq<Row>

    constructor (rows: seq<Row>)
      ensures this.rows == rows
    {
      this.rows := rows;
    }

    method Find(q: Query) returns (found: seq<Row>)
      ensures found == Select(rows, q)
    {
      found := Select(rows, q);
    }

    /** Saving a delivery whose row is already stored: the update branch of the upsert. */
    method Save(row: Row, delivery: Delivery, now: int)
      requires row.id == delivery.id
      modifies this
      ensures rows == Overwritten(old(rows), row.Updated(delivery.State(), now))
    {
      rows := Overwritten(rows, row.Updated(delivery.State(), now));
    }

    method UpdateStatus(row: Row, status: Status, now: int)
      modifies this
      ensures rows == Overwritten(old(rows), row.(status := status, updatedAt := now))
    {
      rows := Overwritten(rows, row.(status := status, updatedAt := now));
    }

    method UpdateRetryCount(row: Row, retryCount: nat, now: int)
      modifies this
      ensures rows == Overwritten(old(rows), row.(retryCount := retryCount, updatedAt := now))
    {
      rows := Overwritten(rows, row.(retryCount := retryCount, updatedAt := now));
    }
  }

  datatype JobState = Waiting | Active | Delayed | Paused | JobCompleted | JobFailed
  {
    /** The states a scan of the queue asks for. */
    predicate IsLive() {
      Waiting? || Active? || Delayed? || Paused?
    }
  }

  // A missing field is the empty string: both are falsy, and the services test nothing else.
  datatype JobData = JobData(taskResultId: string, destinationId: string, deliveryId: string, attempt: int)

  datatype Job = Job(id: nat, data: JobData, state: JobState, due: int)

  function DeliveryJob(taskResultId: string, destinationId: string, attempt: int): JobData {
    JobData(taskResultId, destinationId, "", attempt)
  }

  /** What the queue builds from an add: a positive delay parks the job until it is due. */
  function NewJob(id: nat, data: JobData, delay: int, now: int): Job {
    Job(id, data, if delay > 0 then Delayed else Waiting, now + Max(0, delay))
  }

  ghost predicate ValidJobs(jobs: seq<Job>, nextId: nat) {
    && (forall i :: 0 <= i < |jobs| ==> jobs[i].id < nextId)
    && forall i, j :: 0 <= i < j < |jobs| ==> jobs[i].id != jobs[j].id
  }

  function Live(jobs: seq<Job>): (live: seq<Job>)
    ensures forall j :: j in live <==> j in jobs && j.state.IsLive()
  {
    if jobs == [] then []
    else if jobs[0].state.IsLive() then [jobs[0]] + Live(jobs[1..])
    else Live(jobs[1..])
  }

  function Without(jobs: seq<Job>, ids: set<nat>): (kept: seq<Job>)
    ensures forall j :: j in kept <==> j in jobs && j.id !in ids
  {
    if jobs == [] then []
    else if jobs[0].id in ids then Without(jobs[1..], ids)
    else [jobs[0]] + Without(jobs[1..], ids)
  }

  class JobQueue {
    var jobs: seq<Job>
    var nextId: nat

    ghost predicate Valid()
      reads this
    {
      ValidJobs(jobs, nextId)
    }

    constructor (jobs: seq<Job>, nextId: nat)
      requires ValidJobs(jobs, nextId)
      ensures this.jobs == jobs && this.nextId == nextId && Valid()
    {
      this.jobs, this.nextId := jobs, nextId;
    }

    method Add(data: JobData, delay: int, now: int)
      requires Valid()
      modifies this
      ensures Valid()
      ensures jobs == old(jobs) + [NewJob(old(nextId), data, delay, now)] && nextId == old(nextId) + 1
    {
      jobs := jobs + [NewJob(nextId, data, delay, now)];
      nextId := nextId + 1;
    }

    method EnqueueDelivery(taskResultId: string, destinationId: string, attempt: int, delay: int, now: int)
      requires Valid()
      modifies this
      ensures Valid()
      ensures jobs == old(jobs) + [NewJob(old(nextId), DeliveryJob(taskResultId, destinationId, attempt), delay, now)]
      ensures nextId == old(nextId) + 1
    {
      Add(DeliveryJob(taskResultId, destinationId, attempt), delay, now);
    }

    method GetLiveJobs() returns (live: seq<Job>)
      ensures live == Live(jobs)
    {
      live := Live(jobs);
    }

    method Remove(id: nat)
      requires Valid()
      modifies this
      ensures Valid()
      ensures jobs == Without(old(jobs), {id}) && nextId == old(nextId)
    {
      WithoutValid(jobs, {id}, nextId);
      jobs := Without(jobs, {id});
    }

    /** Drops the oldest jobs of one state, at most limit of them. */
    method Clean(limit: nat, state: JobState)
      requires Valid()
      modifies this
      ensures Valid()
      ensures jobs == Cleaned(old(jobs), limit, state) && nextId == old(nextId)
    {
      CleanedValid(jobs, limit, state, nextId);
      jobs := Cleaned(jobs, limit, state);
    }
  }

  function Cleaned(jobs: seq<Job>, limit: nat, state: JobState): (kept: seq<Job>)
    ensures forall j :: j in kept ==> j in jobs
  {
    if jobs == [] || limit == 0 then jobs
    else if jobs[0].state == state then Cleaned(jobs[1..], limit - 1, state)
    else [jobs[0]] + Cleaned(jobs[1..], limit, state)
  }

  /** Jobs taken out of a valid queue behind its first job leave it valid. */
  lemma KeptValid(first: Job, rest: seq<Job>, kept: seq<Job>, nextId: nat)
    requires ValidJobs([first] + rest, nextId) && ValidJobs(kept, nextId)
    requires forall j <- kept :: j in rest
    ensures ValidJobs([first] + kept, nextId)
  {
    var jobs := [first] + rest;
    forall k | 0 <= k < |kept|
      ensures kept[k].id != first.id
    {
      assert kept[k] in rest;
      var i :| 0 <= i < |rest| && rest[i] == kept[k];
      assert jobs[0] == first && jobs[i + 1] == rest[i];
    }
    var all := [first] + kept;
    assert all[0] == jobs[0];
    forall i, j | 0 <= i < j < |all|
      ensures all[i].id != all[j].id
    {
      assert all[j] == kept[j - 1] && (i > 0 ==> all[i] == kept[i - 1]);
    }
  }

  lemma TailValid(jobs: seq<Job>, nextId: nat)
    requires ValidJobs(jobs, nextId) && jobs != []
    ensures ValidJobs(jobs[1..], nextId) && jobs == [jobs[0]] + jobs[1..]
  {
  }

  lemma {:induction false} WithoutValid(jobs: seq<Job>, ids: set<nat>, nextId: nat)
    requires ValidJobs(jobs, nextId)
    ensures ValidJobs(Without(jobs, ids), nextId)
  {
    if jobs != [] {
      TailValid(jobs, nextId);
      WithoutValid(jobs[1..], ids, nextId);
      KeptValid(jobs[0], jobs[1..], Without(jobs[1..], ids), nextId);
    }
  }

  lemma {:induction false} CleanedValid(jobs: seq<Job>, limit: nat, state: JobState, nextId: nat)
    requires ValidJobs(jobs, nextId)
    ensures ValidJobs(Cleaned(jobs, limit, state), nextId)
  {
    if jobs != [] && limit > 0 {
      TailValid(jobs, nextId);
      if jobs[0].state == state {
        CleanedValid(jobs[1..], limit - 1, state, nextId);
      } else {
        CleanedValid(jobs[1..], limit, state, nextId);
        KeptValid(jobs[0], jobs[1..], Cleaned(jobs[1..], limit, state), nextId);
      }
    }
  }

  lemma {:induction false} WithoutTwice(jobs: seq<Job>, a: set<nat>, b: set<nat>)
    ensures Without(Without(jobs, a), b) == Without(jobs, a + b)
  {
    if jobs != [] {
      WithoutTwice(jobs[1..], a, b);
    }
  }

  lemma {:induction false} WithoutNone(jobs: seq<Job>, ids: set<nat>)
    requires forall j <- jobs :: j.id !in ids
    ensures Without(jobs, ids) == jobs
  {
    if jobs != [] {
      WithoutNone(jobs[1..], ids);
    }
  }

  lemma {:induction false} WithoutAppend(a: seq<Job>, b: seq<Job>, ids: set<nat>)
    ensures Without(a + b, ids) == Without(a, ids) + Without(b, ids)
  {
    if a == [] {
      assert a + b == b;
    } else {
      assert (a + b)[1..] == a[1..] + b;
      WithoutAppend(a[1..], b, ids);
    }
  }

  lemma {:induction false} LiveAppend(a: seq<Job>, b: seq<Job>)
    ensures Live(a + b) == Live(a) + Live(b)
  {
    if a == [] {
      assert a + b == b;
    } else {
      assert (a + b)[1..] == a[1..] + b;
      LiveAppend(a[1..], b);
    }
  }

  /** Both stores at once, as the specifications of the sweeps see them. */
  datatype Stores = Stores(rows: seq<Row>, jobs: seq<Job>, nextId: nat)

  /** A join of two ids by a colon is read back unambiguously when the first holds no colon. */
  function Joined(a: string, b: string): string {
    a + ":" + b
  }

  lemma {:induction false} JoinedInjective(a: string, b: string, c: string, d: string)
    requires ':' !in a && ':' !in c && Joined(a, b) == Joined(c, d)
    ensures a == c && b == d
  {
    var s, t := Joined(a, b), Joined(c, d);
    assert s[|a|] == ':' && t[|c|] == ':';
    assert a == s[..|a|] && c == t[..|c|];
    assert b == s[|a| + 1..] && d == t[|c| + 1..];
  }
}
