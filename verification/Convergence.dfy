/** One clean pass of the three repair sweeps, run after the timeouts it waits for, brings table and queue back
    into agreement from any state a run with crashes can leave behind. */
module Convergence {
  import opened Prelude
  import opened DeliveryEntity
  import opened DeliveryStore
  import opened SyncCorrectness
  import R = RecoverStaleJobs
  import D = DelayedQueueProcessors
  import SyncState
  import P = DeliveryProtocol

  // The longest backoff a sweep hands out: the fifth retry waits 2^4 seconds.
  const LONGEST_RECOVERY_DELAY: int := 16000

  function NoRowFaults(): string -> R.RowFault {
    _ => R.NoFault
  }

  function AfterRecovery(s: Stores, timeout: int, at: int): Stores {
    var swept := R.HandleAll(R.Sweep(s.jobs, s.nextId, 0, 0), Select(s.rows, StaleBefore(at - timeout)), NoRowFaults(), at);
    Stores(R.RecoveredTable(s.rows, timeout, NoRowFaults(), at), swept.jobs, swept.nextId)
  }

  function AfterRetries(s: Stores, at: int): Stores {
    var overdue := Select(s.rows, OverdueAt(at));
    Stores(D.PromotedTable(s.rows, at), s.jobs + D.PromotionJobs(overdue, s.nextId, at), s.nextId + |overdue|)
  }

  function AfterSync(s: Stores, at: int): Stores {
    var audit := SyncState.Synced(s, SyncState.NoFaults(), at);
    Stores(s.rows, audit.jobs, audit.nextId)
  }

  function Repaired(s: Stores, timeout: int, recoverAt: int, retriesAt: int, syncAt: int): Stores {
    AfterSync(AfterRetries(AfterRecovery(s, timeout, recoverAt), retriesAt), syncAt)
  }

  /** The three functions above are the protocol's own steps when no storage call fails. */
  lemma CleanSteps(w: P.World, timeout: int, at: int, budget: nat)
    requires Unique(w.stores.rows) && budget >= 2 * |Select(w.stores.rows, OverdueAt(at))|
    ensures P.Next(w, P.Recover(timeout, NoRowFaults(), at)).stores == AfterRecovery(w.stores, timeout, at)
    ensures P.Next(w, P.Retries(budget, at)).stores == AfterRetries(w.stores, at)
    ensures P.Next(w, P.Sync(SyncState.NoFaults(), at)).stores == AfterSync(w.stores, at)
  {
    D.CleanPass(w.stores, budget, at);
  }

  /** When a pass can finish its work: every stuck row has timed out, and every retry has come due. */
  ghost predicate Waited(s: Stores, timeout: int, recoverAt: int, retriesAt: int) {
    && recoverAt + LONGEST_RECOVERY_DELAY <= retriesAt
    && forall row <- s.rows ::
         && (row.status.Processing? ==> row.updatedAt + timeout <= recoverAt)
         && (row.status.ScheduledRetry? ==> row.nextRetryAt.Some? && row.nextRetryAt.value <= retriesAt)
  }

  /** The first two sweeps, seen by one row. */
  function SettledRow(row: Row, timeout: int, recoverAt: int, retriesAt: int): Row {
    var recovered :=
      if StaleBefore(recoverAt - timeout).Matches(row) then R.RecoveredRow(row, R.NoFault, recoverAt) else row;
    if OverdueAt(retriesAt).Matches(recovered) then D.PromotedRow(recovered, retriesAt) else recovered
  }

  lemma RecoveryDelayBound(retryCount: nat)
    requires retryCount <= R.MAX_RECOVERIES
    ensures R.RecoveryDelay(retryCount) <= LONGEST_RECOVERY_DELAY
  {
    Pow2Monotone(Max(0, retryCount - 1), 4);
    assert Pow2(4) == 16;
  }

  /** Every waiting row ends PENDING or finished; finished rows are untouched and no count falls. */
  lemma RowSettles(row: Row, timeout: int, recoverAt: int, retriesAt: int)
    requires recoverAt + LONGEST_RECOVERY_DELAY <= retriesAt
    requires row.status.Processing? ==> row.updatedAt + timeout <= recoverAt
    requires row.status.ScheduledRetry? ==> row.nextRetryAt.Some? && row.nextRetryAt.value <= retriesAt
    ensures var settled := SettledRow(row, timeout, recoverAt, retriesAt);
            && settled.id == row.id && settled.SamePair(row)
            && (settled.status.Pending? || settled.status.IsFinal())
            && (row.status.IsFinal() ==> settled == row)
            && row.retryCount <= settled.retryCount
  {
    if row.status.Processing? && R.Requeues(row) {
      RecoveryDelayBound(R.CountedRetries(row));
    }
  }

  lemma SettledTable(s: Stores, timeout: int, recoverAt: int, retriesAt: int)
    ensures var settled := AfterRetries(AfterRecovery(s, timeout, recoverAt), retriesAt).rows;
            && |settled| == |s.rows|
            && forall i :: 0 <= i < |s.rows| ==> settled[i] == SettledRow(s.rows[i], timeout, recoverAt, retriesAt)
  {
  }

  /** A valid queue whose jobs carry plain ids. */
  ghost predicate PlainQueue(jobs: seq<Job>, nextId: nat) {
    ValidJobs(jobs, nextId) && forall job <- jobs :: PlainIds(job.data.taskResultId, job.data.destinationId)
  }

  ghost predicate PlainRows(rows: seq<Row>) {
    forall row <- rows :: PlainIds(row.taskResultId, row.destinationId)
  }

  lemma AddedPlain(jobs: seq<Job>, nextId: nat, job: Job)
    requires PlainQueue(jobs, nextId)
    requires job.id == nextId && PlainIds(job.data.taskResultId, job.data.destinationId)
    ensures PlainQueue(jobs + [job], nextId + 1)
  {
  }

  lemma {:induction false} RecoveryKeepsShape(s: R.Sweep, stale: seq<Row>, faults: string -> R.RowFault, at: int)
    requires PlainQueue(s.jobs, s.nextId) && PlainRows(stale)
    ensures PlainQueue(R.HandleAll(s, stale, faults, at).jobs, R.HandleAll(s, stale, faults, at).nextId)
    decreases |stale|
  {
    if stale != [] {
      AddedPlain(s.jobs, s.nextId, R.RecoveryJob(stale[0], s.nextId, at));
      RecoveryKeepsShape(R.Handle(s, stale[0], faults(stale[0].id), at), stale[1..], faults, at);
    }
  }

  lemma RecoveryShaped(s: Stores, timeout: int, at: int)
    requires Shaped(s)
    ensures Shaped(AfterRecovery(s, timeout, at))
  {
    var stale := Select(s.rows, StaleBefore(at - timeout));
    RecoveryKeepsShape(R.Sweep(s.jobs, s.nextId, 0, 0), stale, NoRowFaults(), at);
    RowsKeepShape(s.rows, AfterRecovery(s, timeout, at).rows);
  }

  lemma RetriesShaped(s: Stores, at: int)
    requires Shaped(s)
    ensures Shaped(AfterRetries(s, at))
  {
    RowsKeepShape(s.rows, AfterRetries(s, at).rows);
  }

  lemma RowsKeepShape(before: seq<Row>, after: seq<Row>)
    requires Unique(before) && |after| == |before|
    requires forall i :: 0 <= i < |before| ==> after[i].id == before[i].id && after[i].SamePair(before[i])
    requires forall row <- before :: PlainIds(row.taskResultId, row.destinationId)
    ensures Unique(after) && forall row <- after :: PlainIds(row.taskResultId, row.destinationId)
  {
    forall i, j | 0 <= i < j < |after|
      ensures after[i].id != after[j].id && !after[i].SamePair(after[j])
    {
      assert before[i].id != before[j].id && !before[i].SamePair(before[j]);
    }
    forall row | row in after
      ensures PlainIds(row.taskResultId, row.destinationId)
    {
      var k :| 0 <= k < |after| && after[k] == row;
      assert before[k] in before;
    }
  }

  /** A row and the queue agree: a PENDING row has a job of its own, a finished row has none. */
  ghost predicate Agrees(row: Row, jobs: seq<Job>) {
    if row.status.Pending? then HasJob(jobs, row)
    else row.status.IsFinal() && !HasJob(jobs, row)
  }

  lemma SyncAgrees(s: Stores, at: int, row: Row)
    requires Shaped(s) && row in s.rows && (row.status.Pending? || row.status.IsFinal())
    ensures Agrees(row, AfterSync(s, at).jobs)
  {
    if row.status.Pending? {
      EveryPendingRowServed(s, at, row);
    } else {
      forall job | job in AfterSync(s, at).jobs
        ensures !Serves(job, row)
      {
        if Serves(job, row) {
          EveryJobHasLiveRow(s, at, job);
          RecordIsTheRow(s.rows, row, job.data);
        }
      }
    }
  }

  /** The convergence theorem, for any table and queue of the services' own shape. */
  lemma CrashRepairConverges(s: Stores, timeout: int, recoverAt: int, retriesAt: int, syncAt: int)
    requires Shaped(s) && Waited(s, timeout, recoverAt, retriesAt)
    ensures var end := Repaired(s, timeout, recoverAt, retriesAt, syncAt);
            && |end.rows| == |s.rows|
            && forall i :: 0 <= i < |s.rows| ==>
                 && end.rows[i].id == s.rows[i].id && end.rows[i].SamePair(s.rows[i])
                 && Agrees(end.rows[i], end.jobs)
                 && (s.rows[i].status.IsFinal() ==> end.rows[i] == s.rows[i])
                 && s.rows[i].retryCount <= end.rows[i].retryCount
  {
    var recovered := AfterRecovery(s, timeout, recoverAt);
    var settled := AfterRetries(recovered, retriesAt);
    RecoveryShaped(s, timeout, recoverAt);
    RetriesShaped(recovered, retriesAt);
    SettledTable(s, timeout, recoverAt, retriesAt);
    forall i | 0 <= i < |s.rows|
      ensures settled.rows[i].id == s.rows[i].id && settled.rows[i].SamePair(s.rows[i])
      ensures Agrees(settled.rows[i], AfterSync(settled, syncAt).jobs)
      ensures s.rows[i].status.IsFinal() ==> settled.rows[i] == s.rows[i]
      ensures s.rows[i].retryCount <= settled.rows[i].retryCount
    {
      assert s.rows[i] in s.rows;
      RowSettles(s.rows[i], timeout, recoverAt, retriesAt);
      SyncAgrees(settled, syncAt, settled.rows[i]);
    }
  }

  // ---- Runs keep the shape ----

  lemma {:induction false} PromotionKeepsShape(s: Stores, overdue: seq<Row>, budget: nat, at: int)
    requires PlainQueue(s.jobs, s.nextId) && PlainRows(overdue)
    ensures PlainQueue(D.Promote(s, overdue, budget, at).jobs, D.Promote(s, overdue, budget, at).nextId)
    decreases |overdue|
  {
    if overdue != [] && budget > 0 {
      AddedPlain(s.jobs, s.nextId, D.PromotionJob(overdue[0], s.nextId, at));
      var pair := D.PromoteOne(s, overdue[0], budget, at);
      var next, left := pair.0, pair.1;
      PromotionKeepsShape(next, overdue[1..], left, at);
    }
  }

  lemma {:induction false} FirstPassKeepsShape(
    a: SyncState.Audit, pending: seq<Row>, keys: set<string>, f: SyncState.Faults, at: int)
    requires PlainQueue(a.jobs, a.nextId) && PlainRows(pending)
    ensures var r := SyncState.CheckRows(a, pending, keys, f, at);
            PlainQueue(r.jobs, r.nextId)
    decreases |pending|
  {
    if pending != [] {
      AddedPlain(a.jobs, a.nextId, SyncState.MissingJob(pending[0], a.nextId, at));
      FirstPassKeepsShape(SyncState.CheckRow(a, pending[0], keys, f, at), pending[1..], keys, f, at);
    }
  }

  lemma SecondPassKeepsShape(a: SyncState.Audit, active: seq<Job>, rows: seq<Row>, f: SyncState.Faults)
    requires PlainQueue(a.jobs, a.nextId)
    ensures var r := SyncState.CheckJobs(a, active, rows, f);
            PlainQueue(r.jobs, r.nextId)
  {
    SecondPass(a, active, rows, f);
    WithoutValid(a.jobs, RemovedIds(active, rows, f), a.nextId);
  }

  lemma SyncKeepsShape(s: Stores, f: SyncState.Faults, at: int)
    requires Shaped(s)
    ensures PlainQueue(SyncState.Synced(s, f, at).jobs, SyncState.Synced(s, f, at).nextId)
  {
    var a := SyncState.Audit(s.jobs, s.nextId, 0, 0, 0, 0);
    var pending := Select(s.rows, WithStatus(Pending));
    FirstPassKeepsShape(a, pending, SyncState.Keys(Live(s.jobs)), f, at);
    SecondPassKeepsShape(
      SyncState.CheckRows(a, pending, SyncState.Keys(Live(s.jobs)), f, at), Live(s.jobs), s.rows, f);
  }

  /** Whatever the queue does of its own, the jobs it then holds have the services' shape. */
  ghost predicate PlainStep(step: P.Step) {
    step.Queue? ==> PlainQueue(step.jobs, step.nextId)
  }

  lemma StepKeepsShape(w: P.World, step: P.Step)
    requires Shaped(w.stores) && PlainStep(step)
    ensures Shaped(P.Next(w, step).stores)
  {
    var s := w.stores;
    P.StepContinues(w, step);
    match step {
      case Recover(timeout, faults, at) =>
        RecoveryKeepsShape(R.Sweep(s.jobs, s.nextId, 0, 0), Select(s.rows, StaleBefore(at - timeout)), faults, at);
      case Retries(budget, at) =>
        PromotionKeepsShape(s, Select(s.rows, OverdueAt(at)), budget, at);
      case Sync(faults, at) =>
        SyncKeepsShape(s, faults, at);
      case _ =>
    }
    var after := P.Next(w, step).stores.rows;
    forall i | 0 <= i < |s.rows|
      ensures after[i].id == s.rows[i].id && after[i].SamePair(s.rows[i])
    {
      assert P.Continues(s.rows[i], after[i]);
    }
    RowsKeepShape(s.rows, after);
  }

  lemma {:induction false} RunKeepsShape(w: P.World, steps: seq<P.Step>)
    requires Shaped(w.stores) && forall step <- steps :: PlainStep(step)
    ensures Shaped(P.Run(w, steps).stores)
    decreases |steps|
  {
    if steps != [] {
      StepKeepsShape(w, steps[0]);
      RunKeepsShape(P.Next(w, steps[0]), steps[1..]);
    }
  }

  /** Every retry time in a table lies before some instant, so waiting long enough is always possible. */
  ghost predicate DueBy(rows: seq<Row>, timeout: int, recoverAt: int, retriesAt: int) {
    forall row <- rows ::
      && (row.status.Processing? ==> row.updatedAt + timeout <= recoverAt)
      && (row.nextRetryAt.Some? ==> row.nextRetryAt.value <= retriesAt)
  }

  /** Any run with crashes, storage errors and a queue that duplicates, loses or invents jobs of the services' shape, from
      any stores of that shape; then one clean pass once everything has timed out. */
  lemma AnyRunThenRepair(
    w: P.World, steps: seq<P.Step>, timeout: int, recoverAt: int, retriesAt: int, syncAt: int)
    requires Shaped(w.stores) && forall row <- w.stores.rows :: row.Restored().Timed()
    requires forall step <- steps :: PlainStep(step)
    requires DueBy(P.Run(w, steps).stores.rows, timeout, recoverAt, retriesAt)
    requires recoverAt + LONGEST_RECOVERY_DELAY <= retriesAt
    ensures var end := Repaired(P.Run(w, steps).stores, timeout, recoverAt, retriesAt, syncAt);
            && |end.rows| == |w.stores.rows|
            && forall i :: 0 <= i < |w.stores.rows| ==>
                 && end.rows[i].id == w.stores.rows[i].id && end.rows[i].SamePair(w.stores.rows[i])
                 && Agrees(end.rows[i], end.jobs)
                 && w.stores.rows[i].retryCount <= end.rows[i].retryCount
                 && (w.stores.rows[i].status.IsFinal() ==> end.rows[i] == w.stores.rows[i])
  {
    var crashed := P.Run(w, steps).stores;
    P.RunContinues(w, steps);
    RunKeepsShape(w, steps);
    forall row | row in crashed.rows
      ensures row.Restored().Timed()
    {
      var k :| 0 <= k < |crashed.rows| && crashed.rows[k] == row;
      assert P.Continues(w.stores.rows[k], crashed.rows[k]);
      assert w.stores.rows[k] in w.stores.rows;
    }
    CrashRepairConverges(crashed, timeout, recoverAt, retriesAt, syncAt);
    forall i | 0 <= i < |w.stores.rows|
      ensures P.Continues(w.stores.rows[i], crashed.rows[i])
    {
    }
  }
}
