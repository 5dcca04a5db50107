/** The service that turns a reported failure into a scheduled retry or a dead letter. */
module HandleFailure {
  import opened Prelude
  import opened DeliveryEntity
  import opened DeliveryStore
  import P = ProcessDelivery

  // The optional third argument: an HTTP status, a verdict, or nothing.
  datatype Hint = Code(status: int) | Verdict(retryable: bool) | NoHint

  /** What the reported error carries: its own status (0 when absent) and its own verdict. */
  datatype Report = Report(error: DeliveryError, status: int, retryable: Option<bool>)
  {
    function StatusCode(hint: Hint): int {
      if hint.Code? then hint.status else if status != 0 then status else 500
    }

    predicate IsRetryable(hint: Hint) {
      if hint.Verdict? then hint.retryable
      else if retryable.Some? then retryable.value
      else StatusCode(hint) >= 500 || StatusCode(hint) == 0 || StatusCode(hint) == 429
    }
  }

  datatype FailureError = DeliveryNotFound | Interrupted

  function Begun(s: DeliveryState, now: int): DeliveryState {
    if s.MayStart() then s.Started(now) else s
  }

  /** The state right after markFailed. */
  function Marked(s: DeliveryState, report: Report, hint: Hint, now: int): DeliveryState {
    Begun(s, now).FlaggedFailed(report.error, Flag(report.IsRetryable(hint)), DEFAULT_MAX_RETRIES, now)
  }

  predicate TakesRetryBranch(s: DeliveryState, report: Report, hint: Hint, now: int) {
    report.IsRetryable(hint) && Marked(s, report, hint, now).CanRetry(DEFAULT_MAX_RETRIES)
  }

  function Handled(s: DeliveryState, report: Report, hint: Hint, now: int): DeliveryState {
    var marked := Marked(s, report, hint, now);
    if TakesRetryBranch(s, report, hint, now) then marked.ScheduledIn((Pow2(marked.retryCount) * 1000) as real, now)
    else marked.DeadLettered(report.error.message, now)
  }

  /** Whether a call gets as far as its save. The service passes the attempt repository two arguments; the repository
      takes three and reads the missing one, so with a recorder every call ends there. */
  predicate Saves(recorder: bool, publishingThrows: bool) {
    !recorder && !publishingThrows
  }

  /** The row a call leaves behind. */
  function HandledRow(row: Row, report: Report, hint: Hint, recorder: bool, publishingThrows: bool, now: int): Row {
    if Saves(recorder, publishingThrows) then row.Updated(Handled(row.Restored(), report, hint, now), now) else row
  }

  class HandleFailureService {
    const table: DeliveryTable
    // Whether an attempt repository is wired in.
    const recorder: bool

    constructor (table: DeliveryTable, recorder: bool)
      ensures this.table == table && this.recorder == recorder
    {
      this.table, this.recorder := table, recorder;
    }

    method Handle(id: string, report: Report, hint: Hint, publishingThrows: bool, now: int)
        returns (r: Option<FailureError>)
      requires Unique(table.rows)
      modifies table
      ensures var row := P.Loaded(old(table.rows), id);
        if row.None? then r == Some(DeliveryNotFound) && table.rows == old(table.rows)
        else
          && r == (if Saves(recorder, publishingThrows) then None else Some(Interrupted))
          && table.rows == Overwritten(old(table.rows), HandledRow(row.value, report, hint, recorder, publishingThrows, now))
    {
      var loaded := P.Loaded(table.rows, id);
      if loaded.None? {
        return Some(DeliveryNotFound);
      }
      var row := loaded.value;
      var delivery := new Delivery.Restore(row.id, row.taskResultId, row.destinationId, row.Restored());
      var isRetryable := report.IsRetryable(hint);
      P.OverwrittenSelf(table.rows, row);
      if recorder {
        return Some(Interrupted);
      }
      if delivery.status.Pending? || delivery.status.ScheduledRetry? {
        var _ := delivery.MarkAsProcessing(now);
      }
      delivery.MarkFailed(report.error, Flag(isRetryable), DEFAULT_MAX_RETRIES, now);
      if isRetryable && delivery.State().CanRetry(DEFAULT_MAX_RETRIES) {
        delivery.ScheduleRetryIn((Pow2(delivery.retryCount) * 1000) as real, now);
      } else {
        delivery.MoveToDeadLetterQueue(report.error.message, now);
      }
      if publishingThrows {
        return Some(Interrupted);
      }
      table.Save(row, delivery, now);
      return None;
    }
  }

  /** The second decision never contradicts the first: a retry is scheduled exactly when markFailed chose one,
      and that happens exactly for a retryable failure of a delivery counted at most four times. */
  lemma BranchFollowsMarkFailed(s: DeliveryState, report: Report, hint: Hint, now: int)
    ensures TakesRetryBranch(s, report, hint, now) <==> Marked(s, report, hint, now).status.ScheduledRetry?
    ensures Handled(s, report, hint, now).status.ScheduledRetry? <==> report.IsRetryable(hint) && s.retryCount < 5
    ensures Handled(s, report, hint, now).status.ScheduledRetry? || Handled(s, report, hint, now).status.FailedDlq?
  {
  }

  /** There is no status guard: a finished delivery is reopened exactly by a retryable report below the limit, on a
      call that reaches its save, and that none does with an attempt repository. */
  lemma ReopensFinished(row: Row, report: Report, hint: Hint, recorder: bool, publishingThrows: bool, now: int)
    requires row.status.IsFinal()
    ensures !HandledRow(row, report, hint, recorder, publishingThrows, now).status.IsFinal()
       <==> !recorder && !publishingThrows && report.IsRetryable(hint) && row.retryCount < 5
  {
    BranchFollowsMarkFailed(row.Restored(), report, hint, now);
  }

  /** What a call that reaches its save leaves behind, in numbers. The verdict is the caller's, else the error's own, else
      that of the status: 500 and above, 0 or 429, where a missing status counts as 500. */
  lemma HandledInNumbers(row: Row, report: Report, hint: Hint, now: int)
    ensures var after := HandledRow(row, report, hint, false, false, now);
            var code := if hint.Code? then hint.status else if report.status == 0 then 500 else report.status;
            var retryable := if hint.Verdict? then hint.retryable
                             else if report.retryable.Some? then report.retryable.value
                             else code >= 500 || code == 0 || code == 429;
            var count := if row.retryCount == 0 then 1 else row.retryCount;
            && after.id == row.id && after.SamePair(row) && after.retryCount == count && after.updatedAt == now
            && if retryable && count < 5
               then after.status == ScheduledRetry && after.nextRetryAt == Some(now + 1000 * Pow2(count))
               else after.status == FailedDlq && after.nextRetryAt == None
  {
  }
}
