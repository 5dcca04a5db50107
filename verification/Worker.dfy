/** The worker's counters and the executor's bulkhead tickets, over every interleaving of executions. The program runs
    on one thread, so what happens between two awaits is one step. */
module Worker {
  import opened Prelude

  // ---- Job counters ----

  datatype Counters = Counters(active: int, processed: nat, failed: nat, totalLatencyMs: nat)

  // How a started job ends: the executor's answer, or an exception on the way to it. logThrows says that the logger
  // throws on the line that reports the answer.
  datatype Outcome = Answer(success: bool, logThrows: bool) | Exception

  /** The counters when a job ends. A logger that throws after an answer has been counted sends the job through the
      exception handler, which counts it again. */
  function Settled(c: Counters, outcome: Outcome, latency: nat): Counters {
    var answered :=
      if outcome.Exception? then c
      else if outcome.success then c.(processed := c.processed + 1, totalLatencyMs := c.totalLatencyMs + latency)
      else c.(failed := c.failed + 1, totalLatencyMs := c.totalLatencyMs + latency);
    var handled :=
      if outcome.Exception? || outcome.logThrows
      then answered.(failed := answered.failed + 1, totalLatencyMs := answered.totalLatencyMs + latency)
      else answered;
    handled.(active := Max(0, handled.active - 1))
  }

  class JobProcessor {
    var activeJobsCount: int
    var jobsProcessedCount: nat
    var jobsFailedCount: nat
    var totalLatencyMs: nat

    constructor ()
      ensures Stats() == Counters(0, 0, 0, 0)
    {
      activeJobsCount, jobsProcessedCount, jobsFailedCount, totalLatencyMs := 0, 0, 0, 0;
    }

    function Stats(): Counters
      reads this
    {
      Counters(activeJobsCount, jobsProcessedCount, jobsFailedCount, totalLatencyMs)
    }

    /** From the end of validation to the first await. The debug line comes before the try: if it throws, the job is
        over and nothing takes the count back. */
    method Begin(debugThrows: bool) returns (running: bool)
      modifies this
      ensures Stats() == old(Stats()).(active := old(activeJobsCount) + 1)
      ensures running == !debugThrows
    {
      activeJobsCount := activeJobsCount + 1;
      running := !debugThrows;
    }

    /** From the executor's answer, or an exception, to the end of the call. */
    method Settle(outcome: Outcome, latency: nat)
      modifies this
      ensures Stats() == Settled(old(Stats()), outcome, latency)
    {
      var threw := outcome.Exception?;
      if !threw {
        totalLatencyMs := totalLatencyMs + latency;
        if outcome.success {
          jobsProcessedCount := jobsProcessedCount + 1;
        } else {
          jobsFailedCount := jobsFailedCount + 1;
        }
        threw := outcome.logThrows;
      }
      if threw {
        jobsFailedCount := jobsFailedCount + 1;
        totalLatencyMs := totalLatencyMs + latency;
      }
      activeJobsCount := Max(0, activeJobsCount - 1);
    }
  }

  // started counts validated jobs; running are those that have begun and not ended.
  datatype Pool = Pool(counters: Counters, started: nat, running: set<nat>)

  datatype JobStep = Begin(job: nat, debugThrows: bool) | Settle(job: nat, outcome: Outcome, latency: nat)

  predicate JobEnabled(p: Pool, step: JobStep) {
    match step
    case Begin(job, _) => job !in p.running
    case Settle(job, _, _) => job in p.running
  }

  function JobNext(p: Pool, step: JobStep): Pool {
    match step
    case Begin(job, debugThrows) =>
      Pool(p.counters.(active := p.counters.active + 1), p.started + 1, if debugThrows then p.running else p.running + {job})
    case Settle(job, outcome, latency) =>
      Pool(Settled(p.counters, outcome, latency), p.started, p.running - {job})
  }

  predicate PossibleJobs(p: Pool, steps: seq<JobStep>)
    decreases |steps|
  {
    steps == [] || (JobEnabled(p, steps[0]) && PossibleJobs(JobNext(p, steps[0]), steps[1..]))
  }

  function RunJobs(p: Pool, steps: seq<JobStep>): Pool
    decreases |steps|
  {
    if steps == [] then p else RunJobs(JobNext(p, steps[0]), steps[1..])
  }

  /** Jobs whose debug line threw before they ran. */
  function Leaks(steps: seq<JobStep>): nat {
    if steps == [] then 0
    else (if steps[0].Begin? && steps[0].debugThrows then 1 else 0) + Leaks(steps[1..])
  }

  /** Jobs whose answer was counted and then counted as failed too. */
  function DoubleCounts(steps: seq<JobStep>): nat {
    if steps == [] then 0
    else (if steps[0].Settle? && steps[0].outcome.Answer? && steps[0].outcome.logThrows then 1 else 0)
         + DoubleCounts(steps[1..])
  }

  /** No settle of the run meets a count that the clamp at zero would alter. */
  predicate ClampIdle(p: Pool, steps: seq<JobStep>)
    decreases |steps|
  {
    steps == [] || ((steps[0].Settle? ==> p.counters.active >= 1) && ClampIdle(JobNext(p, steps[0]), steps[1..]))
  }

  function Imbalance(p: Pool): int {
    p.counters.processed + p.counters.failed + p.counters.active - p.started
  }

  lemma JobStepCounts(p: Pool, step: JobStep)
    requires JobEnabled(p, step) && p.counters.active >= |p.running|
    ensures step.Settle? ==> p.counters.active >= 1
    ensures var p' := JobNext(p, step);
            && p'.counters.active - |p'.running| == p.counters.active - |p.running| + Leaks([step])
            && Imbalance(p') == Imbalance(p) + DoubleCounts([step])
  {
    if step.Settle? {
      assert |p.running - {step.job}| == |p.running| - 1;
    }
    assert [step][1..] == [];
  }

  lemma {:induction false} JobRunCounts(p: Pool, steps: seq<JobStep>)
    requires PossibleJobs(p, steps) && p.counters.active >= |p.running|
    ensures var end := RunJobs(p, steps);
            && end.counters.active - |end.running| == p.counters.active - |p.running| + Leaks(steps)
            && Imbalance(end) == Imbalance(p) + DoubleCounts(steps)
    ensures ClampIdle(p, steps)
    decreases |steps|
  {
    if steps != [] {
      JobStepCounts(p, steps[0]);
      assert [steps[0]][1..] == [];
      JobRunCounts(JobNext(p, steps[0]), steps[1..]);
    }
  }

  /** In every interleaving, whatever throws, the clamp never takes effect. The three counters add up to the validated
      jobs exactly when no logger threw on an answer; the active count is the number of jobs running exactly when none
      threw before the job ran. */
  lemma CountersBalance(steps: seq<JobStep>)
    requires PossibleJobs(Pool(Counters(0, 0, 0, 0), 0, {}), steps)
    ensures var end := RunJobs(Pool(Counters(0, 0, 0, 0), 0, {}), steps);
            var c := end.counters;
            && (c.processed + c.failed + c.active == end.started <==> DoubleCounts(steps) == 0)
            && (c.active == |end.running| <==> Leaks(steps) == 0)
    ensures ClampIdle(Pool(Counters(0, 0, 0, 0), 0, {}), steps)
  {
    JobRunCounts(Pool(Counters(0, 0, 0, 0), 0, {}), steps);
  }

  /** What the end of a job does to the counters, in numbers. */
  lemma SettledInNumbers(c: Counters, outcome: Outcome, latency: nat)
    requires c.active >= 1
    ensures var after := Settled(c, outcome, latency);
            var threw := outcome.Exception? || outcome.logThrows;
            && after.active == c.active - 1
            && after.processed == c.processed + (if outcome.Answer? && outcome.success then 1 else 0)
            && after.failed == c.failed + (if outcome.Answer? && !outcome.success then 1 else 0) + (if threw then 1 else 0)
            && after.totalLatencyMs == c.totalLatencyMs + (if outcome.Answer? then latency else 0)
                                       + (if threw then latency else 0)
  {
  }

  // ---- Bulkhead tickets ----

  // Where an execution is: waiting for its ticket, in the body of the try, or in its catch, with or without a ticket.
  datatype Phase = Acquiring | Body(ticket: nat) | Handling(kept: Option<nat>)

  datatype Executor = Executor(outstanding: set<nat>, executions: map<nat, Phase>)

  datatype ExecStep =
    | Arrive(id: nat)
    | Acquired(id: nat, ticket: nat)
    | AcquireThrows(id: nat)
    | BodyReturns(id: nat, releaseThrows: bool)
    | BodyThrows(id: nat)
    | HandlerEnds(id: nat, releaseThrows: bool)   // by returning or by throwing again

  predicate ExecEnabled(e: Executor, step: ExecStep) {
    match step
    case Arrive(id) => id !in e.executions
    case Acquired(id, ticket) => id in e.executions && e.executions[id].Acquiring? && ticket !in e.outstanding
    case AcquireThrows(id) => id in e.executions && e.executions[id].Acquiring?
    case BodyReturns(id, _) => id in e.executions && e.executions[id].Body?
    case BodyThrows(id) => id in e.executions && e.executions[id].Body?
    case HandlerEnds(id, _) => id in e.executions && e.executions[id].Handling?
  }

  /** The ticket an execution holds, if any. */
  function TicketOf(phase: Phase): Option<nat> {
    match phase
    case Acquiring => None
    case Body(ticket) => Some(ticket)
    case Handling(kept) => kept
  }

  /** The finally block: a ticket that was taken is given back, and an error from giving it back is swallowed. */
  function Released(e: Executor, id: nat, ticket: Option<nat>, releaseThrows: bool): Executor {
    Executor(if ticket.Some? && !releaseThrows then e.outstanding - {ticket.value} else e.outstanding, e.executions - {id})
  }

  function ExecNext(e: Executor, step: ExecStep): Executor
    requires ExecEnabled(e, step)
  {
    match step
    case Arrive(id) => e.(executions := e.executions[id := Acquiring])
    case Acquired(id, ticket) => Executor(e.outstanding + {ticket}, e.executions[id := Body(ticket)])
    case AcquireThrows(id) => e.(executions := e.executions[id := Handling(None)])
    case BodyReturns(id, releaseThrows) => Released(e, id, TicketOf(e.executions[id]), releaseThrows)
    case BodyThrows(id) => e.(executions := e.executions[id := Handling(Some(e.executions[id].ticket))])
    case HandlerEnds(id, releaseThrows) => Released(e, id, TicketOf(e.executions[id]), releaseThrows)
  }

  /** Each ticket is held by one execution at most. */
  ghost predicate TicketsApart(e: Executor) {
    forall i, j :: i in e.executions && j in e.executions && i != j && TicketOf(e.executions[i]).Some? ==>
                     TicketOf(e.executions[i]) != TicketOf(e.executions[j])
  }

  function Held(e: Executor): set<nat> {
    set id <- e.executions | TicketOf(e.executions[id]).Some? :: TicketOf(e.executions[id]).value
  }

  ghost predicate TicketsAccounted(e: Executor, lost: set<nat>) {
    TicketsApart(e) && e.outstanding == Held(e) + lost && Held(e) !! lost
  }

  /** Tickets that a step loses: those whose release threw. */
  function LostBy(e: Executor, step: ExecStep): set<nat>
    requires ExecEnabled(e, step)
  {
    if (step.BodyReturns? || step.HandlerEnds?) && step.releaseThrows && TicketOf(e.executions[step.id]).Some?
    then {TicketOf(e.executions[step.id]).value}
    else {}
  }

  lemma HeldAfter(e: Executor, step: ExecStep)
    requires ExecEnabled(e, step) && TicketsApart(e)
    ensures var e' := ExecNext(e, step);
            match step
            case Acquired(id, ticket) => Held(e') == Held(e) + {ticket}
            case BodyReturns(id, _) => Held(e') == Held(e) - {e.executions[id].ticket}
            case HandlerEnds(id, _) =>
              Held(e') == Held(e) - (if e.executions[id].kept.Some? then {e.executions[id].kept.value} else {})
            case _ => Held(e') == Held(e)
  {
    var e' := ExecNext(e, step);
    forall t
      ensures t in Held(e') <==> exists id :: id in e'.executions && TicketOf(e'.executions[id]) == Some(t)
      ensures t in Held(e) <==> exists id :: id in e.executions && TicketOf(e.executions[id]) == Some(t)
    {
    }
    forall id | id in e.executions && id != step.id
      ensures id in e'.executions && e'.executions[id] == e.executions[id]
    {
    }
    if step.Acquired? || step.BodyThrows? {
      assert step.id in e'.executions;
    }
  }

  lemma TicketStep(e: Executor, step: ExecStep, lost: set<nat>)
    requires ExecEnabled(e, step) && TicketsAccounted(e, lost)
    ensures TicketsAccounted(ExecNext(e, step), lost + LostBy(e, step))
  {
    HeldAfter(e, step);
  }

  predicate PossibleExecs(e: Executor, steps: seq<ExecStep>)
    decreases |steps|
  {
    steps == [] || (ExecEnabled(e, steps[0]) && PossibleExecs(ExecNext(e, steps[0]), steps[1..]))
  }

  function RunExecs(e: Executor, steps: seq<ExecStep>): Executor
    requires PossibleExecs(e, steps)
    decreases |steps|
  {
    if steps == [] then e else RunExecs(ExecNext(e, steps[0]), steps[1..])
  }

  function Lost(e: Executor, steps: seq<ExecStep>): set<nat>
    requires PossibleExecs(e, steps)
    decreases |steps|
  {
    if steps == [] then {} else LostBy(e, steps[0]) + Lost(ExecNext(e, steps[0]), steps[1..])
  }

  lemma {:induction false} TicketRun(e: Executor, steps: seq<ExecStep>, lost: set<nat>)
    requires PossibleExecs(e, steps) && TicketsAccounted(e, lost)
    ensures TicketsAccounted(RunExecs(e, steps), lost + Lost(e, steps))
    decreases |steps|
  {
    if steps == [] {
      assert lost + Lost(e, steps) == lost;
    } else {
      TicketStep(e, steps[0], lost);
      TicketRun(ExecNext(e, steps[0]), steps[1..], lost + LostBy(e, steps[0]));
      assert lost + LostBy(e, steps[0]) + Lost(ExecNext(e, steps[0]), steps[1..]) == lost + Lost(e, steps);
    }
  }

  /** In every interleaving, whatever the bodies and handlers throw: no two executions share a ticket, and the tickets
      outstanding are those of the executions between their acquire and their finally, exactly when no release threw. */
  lemma TicketsBalance(steps: seq<ExecStep>)
    requires PossibleExecs(Executor({}, map[]), steps)
    ensures var e := RunExecs(Executor({}, map[]), steps);
            TicketsApart(e) && (e.outstanding == Held(e) <==> Lost(Executor({}, map[]), steps) == {})
  {
    TicketRun(Executor({}, map[]), steps, {});
    assert {} + Lost(Executor({}, map[]), steps) == Lost(Executor({}, map[]), steps);
  }

  // ---- One execution, as the program writes it ----

  // How an execution gets to its bulkhead: a lookup or the breaker throws, the delivery is not found or the circuit is
  // open, or it goes on to acquire.
  datatype Entry = EntryThrows | TurnedAway | Proceeds

  // What throws during one execution that nothing else interrupts.
  datatype Script = Script(entry: Entry, acquireThrows: bool, bodyThrows: bool, handlerThrows: bool, releaseThrows: bool)

  /** The execution's steps in the interleaving model. */
  function Undisturbed(s: Script, id: nat, ticket: nat): seq<ExecStep> {
    if !s.entry.Proceeds? then []
    else if s.acquireThrows then [Arrive(id), AcquireThrows(id), HandlerEnds(id, s.releaseThrows)]
    else if s.bodyThrows then [Arrive(id), Acquired(id, ticket), BodyThrows(id), HandlerEnds(id, s.releaseThrows)]
    else [Arrive(id), Acquired(id, ticket), BodyReturns(id, s.releaseThrows)]
  }

  /** The tickets outstanding after the execution: those before it, and its own if giving that back threw. */
  function OutstandingAfter(outstanding: set<nat>, s: Script, ticket: nat): set<nat> {
    if s.entry.Proceeds? && !s.acquireThrows && s.releaseThrows then outstanding + {ticket} else outstanding
  }

  /** Whether the caller sees an exception. */
  predicate Rejects(s: Script) {
    s.entry.EntryThrows? || (s.entry.Proceeds? && (s.acquireThrows || s.bodyThrows) && s.handlerThrows)
  }

  ghost predicate ExecReaches(e: Executor, steps: seq<ExecStep>, end: Executor) {
    PossibleExecs(e, steps) && RunExecs(e, steps) == end
  }

  lemma ExecThen(e: Executor, step: ExecStep, rest: seq<ExecStep>, end: Executor)
    requires ExecEnabled(e, step) && ExecReaches(ExecNext(e, step), rest, end)
    ensures ExecReaches(e, [step] + rest, end)
  {
    assert ([step] + rest)[1..] == rest;
  }

  /** Run without a break, the interleaving model's steps leave the tickets as the method does, and no execution. */
  lemma UndisturbedExecution(e: Executor, s: Script, id: nat, ticket: nat)
    requires id !in e.executions && ticket !in e.outstanding
    ensures ExecReaches(e, Undisturbed(s, id, ticket),
                        Executor(OutstandingAfter(e.outstanding, s, ticket), e.executions))
  {
    if s.entry.Proceeds? {
      var end := Executor(OutstandingAfter(e.outstanding, s, ticket), e.executions);
      var e1 := ExecNext(e, Arrive(id));
      var ends := HandlerEnds(id, s.releaseThrows);
      if s.acquireThrows {
        var e2 := ExecNext(e1, AcquireThrows(id));
        assert ExecNext(e2, ends) == end;
        ExecThen(e2, ends, [], end);
        ExecThen(e1, AcquireThrows(id), [ends], end);
      } else {
        var e2 := ExecNext(e1, Acquired(id, ticket));
        if s.bodyThrows {
          var e3 := ExecNext(e2, BodyThrows(id));
          assert ExecNext(e3, ends) == end;
          ExecThen(e3, ends, [], end);
          ExecThen(e2, BodyThrows(id), [ends], end);
          ExecThen(e1, Acquired(id, ticket), [BodyThrows(id), ends], end);
        } else {
          var back := BodyReturns(id, s.releaseThrows);
          assert ExecNext(e2, back) == end;
          ExecThen(e2, back, [], end);
          ExecThen(e1, Acquired(id, ticket), [back], end);
        }
      }
      ExecThen(e, Arrive(id), Undisturbed(s, id, ticket)[1..], end);
    }
  }

  class Bulkhead {
    var outstanding: set<nat>
    var next: nat

    ghost predicate Valid()
      reads this
    {
      forall t <- outstanding :: t < next
    }

    method Acquire() returns (ticket: nat)
      requires Valid()
      modifies this
      ensures Valid() && ticket == old(next) && outstanding == old(outstanding) + {ticket}
    {
      ticket := next;
      next := next + 1;
      outstanding := outstanding + {ticket};
    }

    method Release(ticket: nat)
      requires Valid()
      modifies this
      ensures Valid() && outstanding == old(outstanding) - {ticket}
    {
      outstanding := outstanding - {ticket};
    }
  }

  class DeliveryExecutor {
    const bulkhead: Bulkhead

    constructor (bulkhead: Bulkhead)
      ensures this.bulkhead == bulkhead
    {
      this.bulkhead := bulkhead;
    }

    /** Every path gives back the ticket it took, unless giving it back throws; the caller sees an exception only from
        before the acquire or from the handler. */
    method ExecuteWithResilience(s: Script) returns (rejected: bool)
      requires bulkhead.Valid()
      modifies bulkhead
      ensures bulkhead.Valid() && rejected == Rejects(s)
      ensures bulkhead.outstanding == OutstandingAfter(old(bulkhead.outstanding), s, old(bulkhead.next))
    {
      if s.entry.EntryThrows? {
        return true;
      }
      if s.entry.TurnedAway? {
        return false;
      }
      var ticketId: Option<nat> := None;
      var threw := s.acquireThrows;
      if !threw {
        var t := bulkhead.Acquire();
        ticketId := Some(t);
        threw := s.bodyThrows;
      }
      rejected := threw && s.handlerThrows;
      if ticketId.Some? && !s.releaseThrows {
        bulkhead.Release(ticketId.value);
      }
    }
  }
}
