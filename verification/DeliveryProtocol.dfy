/** Whole runs of the delivery protocol: attempts with crashes, the repair sweeps with storage errors, and a queue
    that may duplicate, lose or invent jobs at any moment. Each service call is one step. */
module DeliveryProtocol {
  import opened Prelude
  import opened DeliveryEntity
  import opened DeliveryStore
  import opened ProcessDelivery
  import RecoverStaleJobs
  import DelayedQueueProcessors
  import SyncState

  /** The stores, every POST sent so far, and the deliveries whose successful POST was not followed by its save. */
  datatype World = World(stores: Stores, posts: seq<Post>, lost: seq<string>)

  datatype Step =
    | Process(id: string, c: Circumstances)
    | Recover(timeout: int, rowFaults: string -> RecoverStaleJobs.RowFault, at: int)
    | Retries(budget: nat, at: int)
    | Sync(syncFaults: SyncState.Faults, at: int)
    | Queue(jobs: seq<Job>, nextId: nat)

  function Next(w: World, step: Step): World {
    var s := w.stores;
    match step
    case Process(id, c) =>
      var row := Loaded(s.rows, id);
      if row.None? then w
      else
        World(s.(rows := Overwritten(s.rows, AttemptedRow(id, row.value, c))),
              w.posts + PostsOf(row.value, c),
              w.lost + (if LosesSuccess(id, row.value, c) then [row.value.id] else []))
    case Recover(timeout, faults, at) =>
      var stale := Select(s.rows, StaleBefore(at - timeout));
      var swept := RecoverStaleJobs.HandleAll(RecoverStaleJobs.Sweep(s.jobs, s.nextId, 0, 0), stale, faults, at);
      w.(stores := Stores(RecoverStaleJobs.RecoveredTable(s.rows, timeout, faults, at), swept.jobs, swept.nextId))
    case Retries(budget, at) =>
      w.(stores := DelayedQueueProcessors.Promote(s, Select(s.rows, OverdueAt(at)), budget, at))
    case Sync(faults, at) =>
      var audit := SyncState.Synced(s, faults, at);
      w.(stores := Stores(s.rows, audit.jobs, audit.nextId))
    case Queue(jobs, nextId) =>
      w.(stores := Stores(s.rows, jobs, nextId))
  }

  function Run(w: World, steps: seq<Step>): World
    decreases |steps|
  {
    if steps == [] then w else Run(Next(w, steps[0]), steps[1..])
  }

  function Successes(posts: seq<Post>, id: string): int {
    if posts == [] then 0
    else Successes(posts[..|posts| - 1], id)
         + (if posts[|posts| - 1] == Post(id, true) then 1 else 0)
  }

  function Sent(posts: seq<Post>, id: string): int {
    if posts == [] then 0
    else Sent(posts[..|posts| - 1], id) + (if posts[|posts| - 1].deliveryId == id then 1 else 0)
  }

  function Losses(lost: seq<string>, id: string): int {
    if lost == [] then 0
    else Losses(lost[..|lost| - 1], id) + (if lost[|lost| - 1] == id then 1 else 0)
  }

  /** What one step may do to one row: keep its identity, lower no count, and leave a finished row exactly as it is. */
  predicate Continues(before: Row, after: Row) {
    && after.id == before.id && after.SamePair(before)
    && (before.status.IsFinal() ==> after == before)
    && (before.Restored().Timed() ==> after.Restored().Timed())
    && before.retryCount <= after.retryCount
  }

  ghost predicate TableContinues(before: seq<Row>, after: seq<Row>) {
    |after| == |before| && forall i :: 0 <= i < |before| ==> Continues(before[i], after[i])
  }

  lemma AttemptContinues(id: string, row: Row, c: Circumstances)
    ensures Continues(row, AttemptedRow(id, row, c))
    ensures AttemptedRow(id, row, c).status.Completed? && !row.status.Completed?
       <==> Posts(row, c) && c.outcome.Succeeded() && !LosesSuccess(id, row, c)
  {
  }

  lemma RecoveryContinues(row: Row, timeout: int, fault: RecoverStaleJobs.RowFault, at: int)
    requires StaleBefore(at - timeout).Matches(row)
    ensures Continues(row, RecoverStaleJobs.RecoveredRow(row, fault, at))
    ensures !RecoverStaleJobs.RecoveredRow(row, fault, at).status.Completed?
  {
  }

  lemma {:induction false} PromotionOrigin(s: Stores, overdue: seq<Row>, budget: nat, at: int)
    ensures var after := DelayedQueueProcessors.Promote(s, overdue, budget, at).rows;
            && |after| == |s.rows|
            && forall i :: 0 <= i < |s.rows| ==>
                 after[i].id == s.rows[i].id
                 && (after[i] == s.rows[i]
                     || exists r :: r in overdue && r.id == s.rows[i].id && after[i] == DelayedQueueProcessors.PromotedRow(r, at))
    decreases |overdue|
  {
    if overdue != [] && budget > 1 {
      var row := overdue[0];
      var next := Stores(Overwritten(s.rows, DelayedQueueProcessors.PromotedRow(row, at)),
                         s.jobs + [DelayedQueueProcessors.PromotionJob(row, s.nextId, at)], s.nextId + 1);
      PromotionOrigin(next, overdue[1..], budget - 2, at);
    }
  }

  lemma PromotionContinues(s: Stores, budget: nat, at: int)
    requires Unique(s.rows)
    ensures var after := DelayedQueueProcessors.Promote(s, Select(s.rows, OverdueAt(at)), budget, at).rows;
            && TableContinues(s.rows, after)
            && forall i :: 0 <= i < |s.rows| ==> after[i] == s.rows[i] || !after[i].status.Completed?
  {
    var overdue := Select(s.rows, OverdueAt(at));
    var after := DelayedQueueProcessors.Promote(s, overdue, budget, at).rows;
    PromotionOrigin(s, overdue, budget, at);
    forall i | 0 <= i < |s.rows| && after[i] != s.rows[i]
      ensures Continues(s.rows[i], after[i]) && !after[i].status.Completed?
    {
      var r :| r in overdue && r.id == s.rows[i].id && after[i] == DelayedQueueProcessors.PromotedRow(r, at);
      OnlyOneRow(s.rows, i, r);
    }
  }

  /** Every step keeps every row: its identity, its finished state, and its retry time where one is due. */
  lemma StepContinues(w: World, step: Step)
    requires Unique(w.stores.rows)
    ensures TableContinues(w.stores.rows, Next(w, step).stores.rows)
    ensures Unique(Next(w, step).stores.rows)
  {
    var rows := w.stores.rows;
    match step {
      case Process(id, c) =>
        var row := Loaded(rows, id);
        if row.Some? {
          AttemptContinues(id, row.value, c);
          AloneOverwritten(rows, row.value, AttemptedRow(id, row.value, c));
        }
      case Recover(timeout, faults, at) =>
        forall i | 0 <= i < |rows| && StaleBefore(at - timeout).Matches(rows[i])
          ensures Continues(rows[i], RecoverStaleJobs.RecoveredRow(rows[i], faults(rows[i].id), at))
        {
          RecoveryContinues(rows[i], timeout, faults(rows[i].id), at);
        }
      case Retries(budget, at) =>
        PromotionContinues(w.stores, budget, at);
      case _ =>
    }
    ContinuesUnique(rows, Next(w, step).stores.rows);
  }

  lemma AloneOverwritten(rows: seq<Row>, row: Row, after: Row)
    requires Unique(rows) && row in rows && after.id == row.id
    ensures forall i :: 0 <= i < |rows| ==>
      Overwritten(rows, after)[i] == if rows[i] == row then after else rows[i]
  {
    var k :| 0 <= k < |rows| && rows[k] == row;
    assert forall i :: 0 <= i < |rows| && rows[i].id == row.id ==> i == k;
  }

  lemma ContinuesUnique(before: seq<Row>, after: seq<Row>)
    requires Unique(before) && TableContinues(before, after)
    ensures Unique(after)
  {
    forall i, j | 0 <= i < j < |after|
      ensures after[i].id != after[j].id && !after[i].SamePair(after[j])
    {
      assert Continues(before[i], after[i]) && Continues(before[j], after[j]);
    }
  }

  function Indicator(b: bool): int {
    if b then 1 else 0
  }

  /** One step's balance for one delivery: a successful POST is either recorded by COMPLETED or counted as lost. */
  lemma StepBalance(w: World, step: Step, i: nat)
    requires Unique(w.stores.rows) && i < |w.stores.rows|
    ensures i < |Next(w, step).stores.rows|
    ensures var id, w' := w.stores.rows[i].id, Next(w, step);
            var before, after := w.stores.rows[i].status, w'.stores.rows[i].status;
            && Successes(w'.posts, id) - Successes(w.posts, id)
               == Losses(w'.lost, id) - Losses(w.lost, id) + Indicator(after.Completed? && !before.Completed?)
            && (before.IsFinal() ==> Sent(w'.posts, id) == Sent(w.posts, id))
  {
    StepContinues(w, step);
    var rows, w' := w.stores.rows, Next(w, step);
    match step {
      case Process(id, c) =>
        var row := Loaded(rows, id);
        if row.Some? {
          AttemptContinues(id, row.value, c);
          AloneOverwritten(rows, row.value, AttemptedRow(id, row.value, c));
          PostBalance(w.posts, row.value, c, rows[i].id);
          LossBalance(w.lost, LosesSuccess(id, row.value, c), row.value.id, rows[i].id);
          assert rows[i] == row.value <==> rows[i].id == row.value.id by {
            OnlyOneRow(rows, i, row.value);
          }
        }
      case Recover(timeout, faults, at) =>
        if StaleBefore(at - timeout).Matches(rows[i]) {
          RecoveryContinues(rows[i], timeout, faults(rows[i].id), at);
        }
      case Retries(budget, at) =>
        PromotionContinues(w.stores, budget, at);
      case _ =>
    }
  }

  lemma OnlyOneRow(rows: seq<Row>, i: nat, row: Row)
    requires Unique(rows) && i < |rows| && row in rows
    ensures rows[i] == row <==> rows[i].id == row.id
  {
    var k :| 0 <= k < |rows| && rows[k] == row;
  }

  lemma PostBalance(posts: seq<Post>, row: Row, c: Circumstances, id: string)
    ensures var after := posts + PostsOf(row, c);
            && Successes(after, id) == Successes(posts, id) + Indicator(Posts(row, c) && row.id == id && c.outcome.Succeeded())
            && Sent(after, id) == Sent(posts, id) + Indicator(Posts(row, c) && row.id == id)
  {
    if Posts(row, c) {
      var last := Post(row.id, c.outcome.Succeeded());
      assert (posts + [last])[..|posts|] == posts;
    } else {
      assert posts + PostsOf(row, c) == posts;
    }
  }

  lemma LossBalance(lost: seq<string>, loses: bool, id: string, of: string)
    ensures Losses(lost + (if loses then [id] else []), of) == Losses(lost, of) + Indicator(loses && id == of)
  {
    if loses {
      assert (lost + [id])[..|lost|] == lost;
    } else {
      assert lost + [] == lost;
    }
  }

  /** Over every run, finished rows are frozen, identities are kept, retry times stay in place and no count falls. */
  lemma {:induction false} RunContinues(w: World, steps: seq<Step>)
    requires Unique(w.stores.rows)
    ensures TableContinues(w.stores.rows, Run(w, steps).stores.rows) && Unique(Run(w, steps).stores.rows)
    decreases |steps|
  {
    if steps != [] {
      StepContinues(w, steps[0]);
      var w' := Next(w, steps[0]);
      RunContinues(w', steps[1..]);
      forall i | 0 <= i < |w.stores.rows|
        ensures Continues(w.stores.rows[i], Run(w, steps).stores.rows[i])
      {
        assert Continues(w.stores.rows[i], w'.stores.rows[i]);
        assert Continues(w'.stores.rows[i], Run(w', steps[1..]).stores.rows[i]);
      }
    }
  }

  /** The balance of a whole run, for every delivery of the table and any queue behaviour: the successful POSTs are
      the lost ones plus one if the run completed the delivery. */
  lemma {:induction false} RunBalance(w: World, steps: seq<Step>, i: nat)
    requires Unique(w.stores.rows) && i < |w.stores.rows|
    ensures i < |Run(w, steps).stores.rows|
    ensures var id, end := w.stores.rows[i].id, Run(w, steps);
            Successes(end.posts, id) - Successes(w.posts, id)
            == Losses(end.lost, id) - Losses(w.lost, id)
               + Indicator(end.stores.rows[i].status.Completed? && !w.stores.rows[i].status.Completed?)
    decreases |steps|
  {
    if steps != [] {
      var w' := Next(w, steps[0]);
      StepContinues(w, steps[0]);
      StepBalance(w, steps[0], i);
      RunContinues(w', steps[1..]);
      RunBalance(w', steps[1..], i);
      assert Continues(w.stores.rows[i], w'.stores.rows[i]);
      assert Continues(w'.stores.rows[i], Run(w', steps[1..]).stores.rows[i]);
    }
  }

  /** However often the queue repeats a job, a delivery succeeds at most once more than it lost a success to a crash. */
  lemma DuplicateJobsDeliverOnce(stores: Stores, steps: seq<Step>, i: nat)
    requires Unique(stores.rows) && i < |stores.rows|
    ensures var id, end := stores.rows[i].id, Run(World(stores, [], []), steps);
            Successes(end.posts, id) <= 1 + Losses(end.lost, id)
  {
    RunBalance(World(stores, [], []), steps, i);
  }

  /** A finished delivery is never POSTed again, whatever runs afterwards. */
  lemma {:induction false} FinishedNeverPosted(w: World, steps: seq<Step>, i: nat)
    requires Unique(w.stores.rows) && i < |w.stores.rows| && w.stores.rows[i].status.IsFinal()
    ensures Sent(Run(w, steps).posts, w.stores.rows[i].id) == Sent(w.posts, w.stores.rows[i].id)
    decreases |steps|
  {
    if steps != [] {
      StepContinues(w, steps[0]);
      StepBalance(w, steps[0], i);
      FinishedNeverPosted(Next(w, steps[0]), steps[1..], i);
    }
  }
}
