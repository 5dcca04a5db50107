/** The use case the queue worker runs, and the whole life of one job: attempts, saved rows and POSTs. */
module OneShotUseCase {
  import opened Prelude
  import opened DeliveryEntity
  import opened ProcessDelivery
  import DeliveryStore

  const RETRY_DELAY: int := 5000

  // What the repositories hold when an attempt starts; only an enabled webhook destination is delivered to.
  datatype Target = Target(resultFound: bool, destinationFound: bool, enabled: bool, webhook: bool)
  {
    predicate Deliverable() {
      resultFound && destinationFound && enabled && webhook
    }
  }

  /** Unlike processDelivery, a missing status is no success here. */
  predicate Succeeds(outcome: PostOutcome) {
    outcome.Responded? && 200 <= outcome.status < 300
  }

  /** The row for one attempt is always a new delivery, taken through its whole life at once. On success the
      response status is passed where the completion time belongs. */
  function AttemptState(outcome: PostOutcome, attempt: nat, maxRetries: nat, now: int): DeliveryState {
    var counted := Created(now).Started(now).(retryCount := 1, updatedAt := now);
    if Succeeds(outcome) then counted.Finished(outcome.status)
    else
      var failed := counted.FlaggedFailed(
        DeliveryError(UnknownError, "Delivery failed"), Flag(attempt < maxRetries), DEFAULT_MAX_RETRIES, now);
      if attempt >= maxRetries then failed.DeadLettered("Max retries reached", now)
      else failed.ScheduledAt(now + RETRY_DELAY, now)
  }

  // What an attempt can see and change: the saved rows of its (taskResultId, destinationId) pair, and the POSTs sent.
  // With unique set, the table refuses a second row for the pair, as its schema demands.
  datatype Log = Log(saved: seq<DeliveryState>, posts: nat, unique: bool)
  {
    predicate Accepts() {
      !unique || saved == []
    }
  }

  /** The log accepts a save exactly when the table's upsert takes a row with a new id for the pair. */
  lemma AcceptsAsTheTable(rows: seq<DeliveryStore.Row>, row: DeliveryStore.Row, log: Log)
    requires log.unique && forall r <- rows :: r.id != row.id
    requires log.saved == [] <==> forall r <- rows :: !r.SamePair(row)
    ensures log.Accepts() <==> DeliveryStore.Upserted(rows, row).Some?
  {
  }

  function Attempt(log: Log, target: Target, outcome: PostOutcome, attempt: nat, maxRetries: nat, now: int): Log {
    if !target.Deliverable() then log
    else
      log.(posts := log.posts + 1,
           saved := log.saved + (if log.Accepts() then [AttemptState(outcome, attempt, maxRetries, now)] else []))
  }

  /** A thrown error, whatever its cause, makes the queue run the job again. */
  predicate Throws(log: Log, target: Target, outcome: PostOutcome) {
    if !target.Deliverable() then !(target.resultFound && target.destinationFound && !target.enabled)
    else !log.Accepts() || !Succeeds(outcome)
  }

  class DeliverTaskResultUseCase {
    const taskResultId: string
    const destinationId: string
    const unique: bool
    var saved: seq<DeliveryState>
    var posts: nat

    constructor (taskResultId: string, destinationId: string, log: Log)
      ensures this.taskResultId == taskResultId && this.destinationId == destinationId && CurrentLog() == log
    {
      this.taskResultId, this.destinationId := taskResultId, destinationId;
      saved, posts, unique := log.saved, log.posts, log.unique;
    }

    function CurrentLog(): Log
      reads this
    {
      Log(saved, posts, unique)
    }

    method Execute(id: string, target: Target, outcome: PostOutcome, attempt: nat, maxRetries: nat, now: int)
      returns (thrown: bool)
      modifies this
      ensures CurrentLog() == Attempt(old(CurrentLog()), target, outcome, attempt, maxRetries, now)
      ensures thrown == Throws(old(CurrentLog()), target, outcome)
    {
      if !target.resultFound || !target.destinationFound {
        return true;
      }
      if !target.enabled {
        return false;
      }
      if !target.webhook {
        return true;
      }
      posts := posts + 1;
      var success := Succeeds(outcome);
      var delivery := new Delivery.Restore(id, taskResultId, destinationId, Created(now));
      var _ := delivery.MarkAsProcessing(now);
      delivery.IncrementRetryCount(now);
      if success {
        var _ := delivery.MarkAsCompleted(outcome.status);
      } else {
        delivery.MarkFailed(DeliveryError(UnknownError, "Delivery failed"), Flag(attempt < maxRetries),
                            DEFAULT_MAX_RETRIES, now);
        if attempt >= maxRetries {
          delivery.MoveToDeadLetterQueue("Max retries reached", now);
        } else {
          delivery.ScheduleRetryAt(now + RETRY_DELAY, now);
        }
      }
      var accepted := !unique || saved == [];
      if accepted {
        saved := saved + [delivery.State()];
      }
      thrown := !accepted || !success;
    }

    /** The worker callback under a queue that re-runs a throwing job until its attempts are used up. */
    method RunJob(
      ids: nat -> string, target: Target, outcomes: nat -> PostOutcome, maxRetries: nat, clock: nat -> int)
      requires maxRetries >= 1
      modifies this
      ensures CurrentLog() == Job(old(CurrentLog()), target, outcomes, 1, maxRetries, clock)
    {
      var attemptsMade := 0;
      var again := true;
      while again
        invariant again ==> attemptsMade < maxRetries
        invariant Job(old(CurrentLog()), target, outcomes, 1, maxRetries, clock)
               == if again then Job(CurrentLog(), target, outcomes, attemptsMade + 1, maxRetries, clock) else CurrentLog()
        decreases maxRetries - attemptsMade, again
      {
        var attempt := attemptsMade + 1;
        var thrown := Execute(ids(attempt), target, outcomes(attempt), attempt, maxRetries, clock(attempt));
        attemptsMade := attempt;
        again := thrown && attemptsMade < maxRetries;
      }
    }
  }

  /** The log once the job has run from the given attempt to its end. */
  function Job(
    log: Log, target: Target, outcomes: nat -> PostOutcome, attempt: nat, maxRetries: nat, clock: nat -> int): Log
    requires 1 <= attempt <= maxRetries
    decreases maxRetries - attempt
  {
    var after := Attempt(log, target, outcomes(attempt), attempt, maxRetries, clock(attempt));
    if Throws(log, target, outcomes(attempt)) && attempt < maxRetries
    then Job(after, target, outcomes, attempt + 1, maxRetries, clock)
    else after
  }

  function Statuses(saved: seq<DeliveryState>): (r: seq<Status>)
    ensures |r| == |saved| && forall i :: 0 <= i < |saved| ==> r[i] == saved[i].status
  {
    seq(|saved|, i requires 0 <= i < |saved| => saved[i].status)
  }

  function Retries(n: nat): (r: seq<Status>)
    ensures |r| == n && forall i :: 0 <= i < n ==> r[i] == ScheduledRetry
  {
    seq(n, _ => ScheduledRetry)
  }

  /** The trace the design promises when attempt k is the first success, or when none up to the limit succeeds. */
  ghost predicate TraceOf(added: seq<Status>, posts: nat, outcomes: nat -> PostOutcome, maxRetries: nat)
    requires maxRetries >= 1
  {
    if exists k :: 1 <= k <= maxRetries && Succeeds(outcomes(k)) then
      exists k :: 1 <= k <= maxRetries && Succeeds(outcomes(k)) && (forall j :: 1 <= j < k ==> !Succeeds(outcomes(j)))
                  && added == Retries(k - 1) + [Completed] && posts == k
    else
      added == Retries(maxRetries - 1) + [FailedDlq] && posts == maxRetries
  }

  /** An attempt that fails below the limit saves a scheduled retry, the last one a dead letter. */
  lemma AttemptStatus(outcome: PostOutcome, attempt: nat, maxRetries: nat, now: int)
    requires 1 <= attempt <= maxRetries
    ensures AttemptState(outcome, attempt, maxRetries, now).status
         == if Succeeds(outcome) then Completed else if attempt < maxRetries then ScheduledRetry else FailedDlq
    ensures AttemptState(outcome, attempt, maxRetries, now).retryCount == 1
  {
  }

  /** From attempt `attempt` on, with every earlier attempt failed and `last` the attempt the job ends with. */
  lemma {:induction false} JobTail(
    log: Log, target: Target, outcomes: nat -> PostOutcome, attempt: nat, last: nat, maxRetries: nat, clock: nat -> int)
    requires target.Deliverable() && !log.unique && 1 <= attempt <= last <= maxRetries
    requires forall j :: attempt <= j < last ==> !Succeeds(outcomes(j))
    requires Succeeds(outcomes(last)) || last == maxRetries
    ensures var end := Job(log, target, outcomes, attempt, maxRetries, clock);
            && Statuses(end.saved) == Statuses(log.saved) + Retries(last - attempt)
                                      + [if Succeeds(outcomes(last)) then Completed else FailedDlq]
            && end.posts == log.posts + (last - attempt) + 1
    decreases last - attempt
  {
    var after := Attempt(log, target, outcomes(attempt), attempt, maxRetries, clock(attempt));
    AttemptStatus(outcomes(attempt), attempt, maxRetries, clock(attempt));
    var status := after.saved[|log.saved|].status;
    assert Statuses(after.saved) == Statuses(log.saved) + [status];
    if attempt == last {
      assert Statuses(log.saved) + Retries(0) == Statuses(log.saved);
    } else {
      JobTail(after, target, outcomes, attempt + 1, last, maxRetries, clock);
      assert [ScheduledRetry] + Retries(last - attempt - 1) == Retries(last - attempt);
      assert Statuses(log.saved) + [status] + Retries(last - attempt - 1) == Statuses(log.saved) + Retries(last - attempt);
    }
  }

  function FirstSuccess(outcomes: nat -> PostOutcome, from: nat, maxRetries: nat): (k: nat)
    requires 1 <= from <= maxRetries
    ensures from <= k <= maxRetries && (Succeeds(outcomes(k)) || k == maxRetries)
    ensures forall j :: from <= j < k ==> !Succeeds(outcomes(j))
    decreases maxRetries - from
  {
    if Succeeds(outcomes(from)) || from == maxRetries then from else FirstSuccess(outcomes, from + 1, maxRetries)
  }

  /** The whole job, when the store takes every row it is given. */
  lemma WholeJobTrace(target: Target, outcomes: nat -> PostOutcome, maxRetries: nat, clock: nat -> int)
    requires target.Deliverable() && maxRetries >= 1
    ensures var end := Job(Log([], 0, false), target, outcomes, 1, maxRetries, clock);
            TraceOf(Statuses(end.saved), end.posts, outcomes, maxRetries)
  {
    var last := FirstSuccess(outcomes, 1, maxRetries);
    JobTail(Log([], 0, false), target, outcomes, 1, last, maxRetries, clock);
    assert Statuses([]) + Retries(last - 1) == Retries(last - 1);
  }

  /** With one row per pair, the first row blocks every later save, so each later attempt throws even when its POST
      succeeded: the job goes on POSTing until its attempts are used up. */
  lemma {:induction false} BlockedTail(
    log: Log, target: Target, outcomes: nat -> PostOutcome, attempt: nat, maxRetries: nat, clock: nat -> int)
    requires target.Deliverable() && log.unique && log.saved != [] && 1 <= attempt <= maxRetries
    ensures Job(log, target, outcomes, attempt, maxRetries, clock) == log.(posts := log.posts + (maxRetries - attempt) + 1)
    decreases maxRetries - attempt
  {
    if attempt < maxRetries {
      var after := Attempt(log, target, outcomes(attempt), attempt, maxRetries, clock(attempt));
      assert after == log.(posts := log.posts + 1);
      BlockedTail(after, target, outcomes, attempt + 1, maxRetries, clock);
    }
  }

  /** After ingestion has stored the pair's row, no attempt is ever saved and every attempt POSTs. */
  lemma StoredRowBlocksEverySave(
    log: Log, target: Target, outcomes: nat -> PostOutcome, maxRetries: nat, clock: nat -> int)
    requires target.Deliverable() && log.unique && log.saved != [] && maxRetries >= 1
    ensures Job(log, target, outcomes, 1, maxRetries, clock) == log.(posts := log.posts + maxRetries)
  {
    BlockedTail(log, target, outcomes, 1, maxRetries, clock);
  }

  /** Under the schema's constraint and with no row yet, the promised trace holds exactly when the first attempt is
      also the last one it needs. */
  lemma UniqueTraceExactly(target: Target, outcomes: nat -> PostOutcome, maxRetries: nat, clock: nat -> int)
    requires target.Deliverable() && maxRetries >= 1
    ensures var end := Job(Log([], 0, true), target, outcomes, 1, maxRetries, clock);
            TraceOf(Statuses(end.saved), end.posts, outcomes, maxRetries)
            <==> Succeeds(outcomes(1)) || maxRetries == 1
  {
    var start := Log([], 0, true);
    var first := Attempt(start, target, outcomes(1), 1, maxRetries, clock(1));
    AttemptStatus(outcomes(1), 1, maxRetries, clock(1));
    assert first.saved == [AttemptState(outcomes(1), 1, maxRetries, clock(1))];
    var end := Job(start, target, outcomes, 1, maxRetries, clock);
    if Succeeds(outcomes(1)) || maxRetries == 1 {
      assert end == first;
      assert Statuses(end.saved) == Retries(0) + [first.saved[0].status];
    } else {
      BlockedTail(first, target, outcomes, 2, maxRetries, clock);
      assert |Statuses(end.saved)| == 1 && end.posts == maxRetries;
    }
  }

  /** The row one attempt saves, in numbers: only a response from 200 to 299 completes it. */
  lemma AttemptInNumbers(outcome: PostOutcome, attempt: nat, maxRetries: nat, now: int)
    ensures var s := AttemptState(outcome, attempt, maxRetries, now);
            && s.retryCount == 1
            && if outcome.Responded? && 200 <= outcome.status <= 299 then
                 s.status == Completed && s.completedAt == Some(outcome.status) && s.nextRetryAt == None
               else if attempt >= maxRetries then s.status == FailedDlq && s.nextRetryAt == None
               else s.status == ScheduledRetry && s.nextRetryAt == Some(now + 5000)
  {
  }

  /** When an attempt throws and what it sends: a missing result or destination and a destination of another type throw
      without a POST, a disabled one ends quietly, and every other attempt POSTs once. */
  lemma AttemptEffects(log: Log, target: Target, outcome: PostOutcome, attempt: nat, maxRetries: nat, now: int)
    ensures var ready := target.resultFound && target.destinationFound && target.enabled && target.webhook;
            var after := Attempt(log, target, outcome, attempt, maxRetries, now);
            && after.posts == log.posts + (if ready then 1 else 0)
            && |after.saved| == |log.saved| + (if ready && !(log.unique && log.saved != []) then 1 else 0)
            && (Throws(log, target, outcome)
                <==> if !target.resultFound || !target.destinationFound then true
                     else if !target.enabled then false
                     else if !target.webhook then true
                     else (log.unique && log.saved != [])
                          || !(outcome.Responded? && 200 <= outcome.status <= 299))
  {
  }
}
