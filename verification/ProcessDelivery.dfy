/** One attempt at a delivery: guarded start, POST, attempt record, classification, final save. */
module ProcessDelivery {
  import opened Prelude
  import opened DeliveryEntity
  import opened DeliveryStore

  // What came back from the destination: a response, or an exception whose status is 0 when it carries none.
  datatype PostOutcome = Responded(status: int) | Threw(status: int)
  {
    /** A missing response status counts as 200. */
    function Status(): int {
      if Responded? && status == 0 then 200 else status
    }

    predicate Succeeded() {
      Responded? && 200 <= Status() < 300
    }

    predicate Retryable() {
      Status() >= 500 || Status() == 0 || Status() == 429 || Status() == 408
    }
  }

  // Where the worker dies, or an awaited storage call throws.
  datatype CrashPoint = NoCrash | AfterProcessingSave | AfterPost | AfterAttempt

  datatype Post = Post(deliveryId: string, success: bool)

  datatype ProcessError = DeliveryNotFound | DestinationNotFound | InvalidState | Crashed

  datatype ProcessResult = ProcessResult(deliveryId: string, status: Status, success: bool, nextRetryAt: Option<int>)

  // The circumstances of one call: what the destination answers, what fails, and two clock readings.
  // With recorder set, attempts go through the attempt repository.
  datatype Circumstances = Circumstances(
    destinationFound: bool, outcome: PostOutcome, crash: CrashPoint, recorder: bool, startedAt: int, endedAt: int)
  {
    /** The attempt repository refuses a status outside the HTTP range, and its fallback call throws too. It records
        under the id the job names: when that is the result's id, the stored attempt would refer to no delivery. */
    predicate RecordingThrows(id: string, row: Row) {
      recorder && (row.id != id || !(100 <= outcome.Status() <= 599))
    }

    predicate StopsAfterPost(id: string, row: Row) {
      crash.AfterPost? || RecordingThrows(id, row)
    }
  }

  /** A delivery already PROCESSING is taken up again without a transition. */
  predicate Accepts(row: Row) {
    row.status.Processing? || row.Restored().MayStart()
  }

  function StartedState(row: Row, now: int): DeliveryState {
    if row.status.Processing? then row.Restored() else row.Restored().Started(now)
  }

  /** The last transition of an attempt that got its answer. */
  function Concluded(s: DeliveryState, outcome: PostOutcome, now: int): DeliveryState {
    if outcome.Succeeded() then s.Finished(now)
    else if outcome.Retryable() && s.CanRetry(DEFAULT_MAX_RETRIES) then
      s.ScheduledIn((1000 * Pow2(s.retryCount)) as real, now)
    else s.DeadLettered("Delivery failed permanently", now)
  }

  function StartedRow(row: Row, c: Circumstances): Row {
    row.Updated(StartedState(row, c.startedAt), c.startedAt)
  }

  /** Recording an attempt raises the stored retry count until the final save puts it back. */
  function RecordedRow(row: Row, c: Circumstances): Row {
    if c.recorder then
      StartedRow(row, c).(retryCount := row.retryCount + 1, updatedAt := c.endedAt)
    else StartedRow(row, c)
  }

  /** The row one attempt leaves behind. */
  function AttemptedRow(id: string, row: Row, c: Circumstances): Row {
    if !c.destinationFound || !Accepts(row) then row
    else if c.crash.AfterProcessingSave? || c.StopsAfterPost(id, row) then StartedRow(row, c)
    else if c.crash.AfterAttempt? then RecordedRow(row, c)
    else row.Updated(Concluded(StartedState(row, c.startedAt), c.outcome, c.endedAt), c.endedAt)
  }

  predicate Posts(row: Row, c: Circumstances) {
    c.destinationFound && Accepts(row) && !c.crash.AfterProcessingSave?
  }

  function PostsOf(row: Row, c: Circumstances): seq<Post> {
    if Posts(row, c) then [Post(row.id, c.outcome.Succeeded())] else []
  }

  /** A successful POST whose COMPLETED save never happens. */
  predicate LosesSuccess(id: string, row: Row, c: Circumstances) {
    Posts(row, c) && c.outcome.Succeeded() && (c.StopsAfterPost(id, row) || c.crash.AfterAttempt?)
  }

  /** The row a call works on: the one with this id, else the first one of the result with this id. */
  function Loaded(rows: seq<Row>, id: string): (r: Option<Row>)
    ensures r.Some? ==> r.value in rows
  {
    var byId := RowById(rows, id);
    if byId.Some? then byId
    else
      var ofResult := Select(rows, OfTaskResult(id));
      if ofResult == [] then None else Some(ofResult[0])
  }

  function RowById(rows: seq<Row>, id: string): (r: Option<Row>)
    ensures r.Some? ==> r.value in rows && r.value.id == id
    ensures r.None? ==> forall row <- rows :: row.id != id
  {
    if rows == [] then None
    else if rows[0].id == id then Some(rows[0])
    else RowById(rows[1..], id)
  }

  class ProcessDeliveryService {
    const table: DeliveryTable
    var posts: seq<Post>

    constructor (table: DeliveryTable)
      ensures this.table == table && posts == []
    {
      this.table, posts := table, [];
    }

    method LoadDelivery(id: string) returns (row: Option<Row>)
      ensures row == Loaded(table.rows, id)
    {
      for i := 0 to |table.rows|
        invariant RowById(table.rows, id) == RowById(table.rows[i..], id)
      {
        assert table.rows[i..][0] == table.rows[i] && table.rows[i..][1..] == table.rows[i + 1..];
        if table.rows[i].id == id {
          return Some(table.rows[i]);
        }
      }
      var ofResult := table.Find(OfTaskResult(id));
      return if ofResult == [] then None else Some(ofResult[0]);
    }

    method ProcessDelivery(id: string, c: Circumstances) returns (r: Result<ProcessResult, ProcessError>)
      requires Unique(table.rows)
      modifies this, table
      ensures var row := Loaded(old(table.rows), id);
        if row.None? then
          r == Err(DeliveryNotFound) && table.rows == old(table.rows) && posts == old(posts)
        else
          && table.rows == Overwritten(old(table.rows), AttemptedRow(id, row.value, c))
          && posts == old(posts) + PostsOf(row.value, c)
          && (r.Ok? ==> r.value.deliveryId == id && r.value.success == c.outcome.Succeeded() && r.value.status == AttemptedRow(id, row.value, c).status)
          && (r.Ok? <==> Posts(row.value, c) && !c.StopsAfterPost(id, row.value) && !c.crash.AfterAttempt?)
    {
      ghost var rows0 := table.rows;
      var loaded := LoadDelivery(id);
      if loaded.None? {
        return Err(DeliveryNotFound);
      }
      var row := loaded.value;
      OverwrittenSelf(rows0, row);
      if !c.destinationFound {
        return Err(DestinationNotFound);
      }
      var delivery := new Delivery.Restore(row.id, row.taskResultId, row.destinationId, row.Restored());
      if !delivery.status.Processing? {
        var ok := delivery.MarkAsProcessing(c.startedAt);
        if !ok {
          return Err(InvalidState);
        }
      }
      table.Save(row, delivery, c.startedAt);
      if c.crash.AfterProcessingSave? {
        return Err(Crashed);
      }
      posts := posts + [Post(row.id, c.outcome.Succeeded())];
      if c.StopsAfterPost(id, row) {
        return Err(Crashed);
      }
      if c.recorder {
        table.UpdateRetryCount(StartedRow(row, c), row.retryCount + 1, c.endedAt);
        OverwrittenTwice(rows0, StartedRow(row, c), RecordedRow(row, c));
      }
      if c.crash.AfterAttempt? {
        return Err(Crashed);
      }
      r := Conclude(id, row, delivery, c);
      OverwrittenTwice(rows0, RecordedRow(row, c), AttemptedRow(id, row, c));
    }

    method Conclude(id: string, row: Row, delivery: Delivery, c: Circumstances) returns (r: Result<ProcessResult, ProcessError>)
      requires row.id == delivery.id && delivery.status.Processing?
      modifies table, delivery
      ensures var last := Concluded(old(delivery.State()), c.outcome, c.endedAt);
              && table.rows == Overwritten(old(table.rows), row.Updated(last, c.endedAt))
              && r == Ok(ProcessResult(id, last.status, c.outcome.Succeeded(), last.nextRetryAt))
    {
      if c.outcome.Succeeded() {
        var _ := delivery.MarkAsCompleted(c.endedAt);
      } else if c.outcome.Retryable() && delivery.State().CanRetry(DEFAULT_MAX_RETRIES) {
        delivery.ScheduleRetryIn((1000 * Pow2(delivery.retryCount)) as real, c.endedAt);
      } else {
        delivery.MoveToDeadLetterQueue("Delivery failed permanently", c.endedAt);
      }
      table.Save(row, delivery, c.endedAt);
      r := Ok(ProcessResult(id, delivery.status, c.outcome.Succeeded(), delivery.nextRetryAt));
    }
  }

  lemma OverwrittenSelf(rows: seq<Row>, row: Row)
    requires Unique(rows) && row in rows
    ensures Overwritten(rows, row) == rows
  {
    var k :| 0 <= k < |rows| && rows[k] == row;
    assert forall i :: 0 <= i < |rows| && rows[i].id == row.id ==> i == k;
  }

  /** Exactly when an attempt strands its row in PROCESSING until a sweep finds it: the worker died, or recording threw,
      which it does for every status outside 100 to 599 and for every job that names its delivery by the result. */
  lemma StrandsRowExactly(id: string, row: Row, c: Circumstances)
    requires c.destinationFound && Accepts(row)
    ensures AttemptedRow(id, row, c).status.Processing? <==> !c.crash.NoCrash? || c.RecordingThrows(id, row)
    ensures c.outcome == Threw(0) && c.recorder ==> AttemptedRow(id, row, c).status.Processing?
    ensures c.crash.NoCrash? && c.RecordingThrows(id, row) ==> AttemptedRow(id, row, c).retryCount == row.retryCount
  {
  }

  /** What an attempt that gets as far as its last save leaves behind, in numbers. n is the status it goes by: a response
      without one counts as 200, an exception without one as 0. */
  lemma AnswerDecides(id: string, row: Row, c: Circumstances, n: int)
    requires c.destinationFound && c.crash.NoCrash?
    requires row.status.Pending? || row.status.ScheduledRetry? || row.status.Processing?
    requires n == if c.outcome == Responded(0) then 200 else c.outcome.status
    requires c.recorder ==> row.id == id && 100 <= n <= 599
    ensures var after := AttemptedRow(id, row, c);
            && after.id == row.id && after.SamePair(row)
            && after.retryCount == row.retryCount && after.updatedAt == c.endedAt
            && PostsOf(row, c) == [Post(row.id, c.outcome.Responded? && 200 <= n < 300)]
            && if c.outcome.Responded? && 200 <= n < 300 then after.status == Completed && after.nextRetryAt == None
               else if (n >= 500 || n == 0 || n == 429 || n == 408) && row.retryCount < 5 then
                 after.status == ScheduledRetry && after.nextRetryAt == Some(c.endedAt + 1000 * Pow2(row.retryCount))
               else after.status == FailedDlq && after.nextRetryAt == None
  {
  }

  ghost predicate FirstOfResult(rows: seq<Row>, id: string, i: nat)
    requires i < |rows|
  {
    rows[i].taskResultId == id && forall j :: 0 <= j < i ==> rows[j].taskResultId != id
  }

  /** The row a job works on: the one with the id it names if there is one, else the first of that result. */
  lemma {:induction false} LoadedFirst(rows: seq<Row>, id: string, i: nat)
    requires i < |rows|
    ensures rows[i].id == id && (forall j :: 0 <= j < i ==> rows[j].id != id) ==> Loaded(rows, id) == Some(rows[i])
    ensures (forall r <- rows :: r.id != id) && FirstOfResult(rows, id, i) ==> Loaded(rows, id) == Some(rows[i])
  {
    if i > 0 {
      LoadedFirst(rows[1..], id, i - 1);
    }
  }
}
