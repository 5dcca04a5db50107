/** The one promise every service makes about the rows it saves. */
module SavedRows {
  import opened DeliveryEntity
  import opened DeliveryStore
  import P = ProcessDelivery
  import H = HandleFailure
  import S = ScheduleRetry
  import R = RecoverStaleJobs
  import U = OneShotUseCase

  /** Whatever row a service starts from, it saves a scheduled retry with a time that is not past, and a finished
      delivery with none. The two saves of an attempt are listed separately. */
  lemma EverySaveIsTimed(
    row: Row, c: P.Circumstances, report: H.Report, hint: H.Hint, request: S.Request, attempt: nat, limit: nat, now: int)
    ensures P.Accepts(row) ==> P.StartedState(row, now).TimedFrom(now)
    ensures P.Accepts(row) ==> P.Concluded(P.StartedState(row, c.startedAt), c.outcome, now).TimedFrom(now)
    ensures H.Handled(row.Restored(), report, hint, now).TimedFrom(now)
    ensures S.Scheduled(row.Restored(), request, now).TimedFrom(now)
    ensures R.RecoveredState(row, now).TimedFrom(now)
    ensures U.AttemptState(c.outcome, attempt, limit, now).TimedFrom(now)
  {
    H.BranchFollowsMarkFailed(row.Restored(), report, hint, now);
  }

  /** The markFailed call alone does not keep the promise: it can leave a scheduled retry without a time, which is
      why every service that uses it schedules or dead-letters before it saves. */
  lemma MarkFailedAloneMayBreakIt(now: int)
    ensures var s := Created(now).Started(now).FlaggedFailed(DeliveryError(Timeout, "timeout"), Unspecified, 5, now);
            s.status.ScheduledRetry? && !s.Timed()
  {
  }
}
