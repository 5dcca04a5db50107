/** A leader that refreshes on its timer keeps the lease until it resigns, for as long as its Redis calls succeed, neither
    its timer nor its calls are late enough to eat the two intervals of slack in the lease, and it did not ask twice at
    once before it led. */
module LeaseRetention {
  import opened Prelude
  import opened LeaderElection

  // How late the refresh timer may fire and how long one participate may take, in milliseconds, and whether a node that
  // does not lead may start a second participate while one is in flight.
  datatype Conduct = Conduct(timer: nat, call: nat, overlap: bool)
  {
    predicate WithinSlack() {
      2 * call + timer < LEASE_TTL - REFRESH_INTERVAL
    }
  }

  /** Node n's timer and calls keep within the delays, and its Redis commands succeed. While it leads it may start any
      number of participates at once; before it leads, more than one only where overlap is allowed. */
  predicate Timely(c: Cluster, step: Step, n: nat, d: Conduct)
    requires Enabled(c, step)
  {
    match step
    case Tick(to) =>
      && (n < |c.nodes| && c.nodes[n].refreshAt.Some? ==> to <= c.nodes[n].refreshAt.value + d.timer)
      && (forall id <- c.calls :: c.calls[id].node == n && !c.calls[id].Resigns() ==> to <= c.calls[id].start + d.call)
    case StartParticipate(_, m) => m == n ==> d.overlap || Leads(c, n) || Idle(c, n)
    case Throw(id) => c.calls[id].node != n
    case _ => true
  }

  /** Node n leads and is not on its way out. */
  predicate Leads(c: Cluster, n: nat) {
    n < |c.nodes| && c.nodes[n].isLeader && !Resigning(c, n)
  }

  /** Call id is a participate of node n that has still to write the key, and will do so before the lease ends. */
  ghost predicate WritesInTime(c: Cluster, id: nat, n: nat, d: Conduct) {
    && id in c.calls && c.calls[id].node == n
    && (c.calls[id].Setting? || c.calls[id].Getting? || c.calls[id].Refreshing?)
    && c.key.Some? && c.calls[id].start + d.call < c.key.value.expiresAt
  }

  /** The next write of the key by node n comes before its lease ends, by the timer or by a call under way. */
  ghost predicate Covered(c: Cluster, n: nat, d: Conduct)
    requires n < |c.nodes|
  {
    && c.key.Some? && c.key.value.holder == n
    && c.nodes[n].refreshAt.Some?
    && c.now <= c.nodes[n].refreshAt.value + d.timer
    && c.nodes[n].refreshAt.value <= c.now + REFRESH_INTERVAL
    && (|| c.nodes[n].refreshAt.value + d.timer + d.call < c.key.value.expiresAt
        || exists id :: WritesInTime(c, id, n, d))
  }

  ghost predicate CallsOnTime(c: Cluster, n: nat, d: Conduct) {
    forall id <- c.calls :: c.calls[id].node == n && !c.calls[id].Resigns() ==>
      && c.calls[id].start <= c.now <= c.calls[id].start + d.call
      && (c.calls[id].Settled? && c.calls[id].acquired ==> c.calls[id].start <= c.calls[id].stamp)
      && (Leads(c, n) && c.calls[id].Settled? ==> c.calls[id].acquired)
  }

  ghost predicate OneAttempt(c: Cluster, n: nat) {
    n < |c.nodes| && !c.nodes[n].isLeader ==>
      forall i, j :: i in c.calls && j in c.calls && c.calls[i].node == n && c.calls[j].node == n ==> i == j
  }

  ghost predicate ResignsOnlyLeaders(c: Cluster, n: nat) {
    Resigning(c, n) ==> forall id <- c.calls :: c.calls[id].node == n ==> c.calls[id].Resigns()
  }

  ghost predicate Retained(c: Cluster, n: nat, d: Conduct) {
    && CallsOnTime(c, n, d) && OneAttempt(c, n) && ResignsOnlyLeaders(c, n)
    && (Leads(c, n) ==> Covered(c, n, d))
  }

  /** A covered leader's lease is alive. */
  lemma CoveredIsHeld(c: Cluster, n: nat, d: Conduct)
    requires n < |c.nodes| && Covered(c, n, d) && CallsOnTime(c, n, d)
    ensures c.HeldBy(n)
  {
    if !(c.nodes[n].refreshAt.value + d.timer + d.call < c.key.value.expiresAt) {
      var id :| WritesInTime(c, id, n, d);
      assert c.calls[id].node == n && !c.calls[id].Resigns();
    }
  }

  ghost predicate Orderly(c: Cluster, step: Step, n: nat, d: Conduct) {
    Enabled(c, step) && Prompt(c, step) && Disciplined(c, step) && Timely(c, step, n, d)
  }

  /** A leader stays one through every step but the start of its own resign. */
  lemma LeaderStays(c: Cluster, step: Step, n: nat, d: Conduct)
    requires Orderly(c, step, n, d) && Safe(c) && Retained(c, n, d) && Leads(c, n)
    requires !(step.StartResign? && step.n == n)
    ensures Leads(Next(c, step), n)
  {
    ResigningStep(c, step, n);
    if step.Finish? && c.calls[step.id].node == n {
      assert c.calls[step.id].acquired;
    }
  }

  lemma BecomesLeader(c: Cluster, step: Step, n: nat)
    requires Enabled(c, step) && Disciplined(c, step) && ResignsAlone(c) && FlagFollowsTimer(c)
    requires n < |c.nodes| && !Leads(c, n) && Leads(Next(c, step), n)
    ensures step.Finish? && c.calls[step.id].node == n && c.calls[step.id].acquired
    ensures !c.nodes[n].isLeader && c.nodes[n].refreshAt.None?
  {
    ResigningStep(c, step, n);
  }

  lemma CallsStayOnTime(c: Cluster, step: Step, n: nat, d: Conduct)
    requires Orderly(c, step, n, d) && Safe(c) && FlagFollowsTimer(c) && Retained(c, n, d)
    ensures CallsOnTime(Next(c, step), n, d)
  {
    var c' := Next(c, step);
    if Leads(c, n) {
      CoveredIsHeld(c, n, d);
    } else if Leads(c', n) {
      BecomesLeader(c, step, n);
    }
    forall id | id in c'.calls && c'.calls[id].node == n && !c'.calls[id].Resigns()
      ensures && c'.calls[id].start <= c'.now <= c'.calls[id].start + d.call
              && (c'.calls[id].Settled? && c'.calls[id].acquired ==> c'.calls[id].start <= c'.calls[id].stamp)
              && (Leads(c', n) && c'.calls[id].Settled? ==> c'.calls[id].acquired)
    {
      if id in c.calls {
        assert c.calls[id].node == n && !c.calls[id].Resigns();
      }
    }
  }

  lemma AttemptsStaySingle(c: Cluster, step: Step, n: nat, d: Conduct)
    requires !d.overlap
    requires Orderly(c, step, n, d) && Safe(c) && FlagFollowsTimer(c) && Retained(c, n, d)
    ensures OneAttempt(Next(c, step), n)
  {
    var c' := Next(c, step);
    if n < |c.nodes| && !c'.nodes[n].isLeader {
      ResigningStep(c, step, n);
      if Leads(c, n) && !(step.StartResign? && step.n == n) {
        LeaderStays(c, step, n, d);
      }
      if c.nodes[n].isLeader {
        NothingAfterResign(c, step, n);
      }
    }
  }

  lemma NothingAfterResign(c: Cluster, step: Step, n: nat)
    requires Enabled(c, step) && ResignsAlone(c) && step.ResignFinish? && c.calls[step.id].node == n
    ensures Idle(Next(c, step), n)
  {
  }

  lemma ResignsStayLeaders(c: Cluster, step: Step, n: nat, d: Conduct)
    requires Orderly(c, step, n, d) && Safe(c) && FlagFollowsTimer(c) && Retained(c, n, d)
    ensures ResignsOnlyLeaders(Next(c, step), n)
  {
    if n < |c.nodes| {
      ResigningStep(c, step, n);
    }
  }

  /** Nobody else touches a live lease, and its holder can only renew it. */
  lemma HeldKeyLasts(c: Cluster, step: Step, n: nat)
    requires Enabled(c, step) && Prompt(c, step) && Safe(c) && c.HeldBy(n) && n < |c.nodes|
    requires Leads(c, n) && Leads(Next(c, step), n)
    ensures Next(c, step).key == if step.PExpire? then Some(Lease(n, c.now + LEASE_TTL)) else c.key
  {
    if step.PExpire? || step.ResignDel? {
      assert CallKnows(c, c.calls[step.id]);
    }
  }

  lemma TimerLasts(c: Cluster, step: Step, n: nat, d: Conduct)
    requires Orderly(c, step, n, d) && Safe(c) && Retained(c, n, d)
    requires Leads(c, n) && Leads(Next(c, step), n)
    requires !(step.TimerFires? && step.n == n)
    ensures Next(c, step).nodes[n].refreshAt == c.nodes[n].refreshAt
  {
    ResigningStep(c, step, n);
    if step.Finish? && c.calls[step.id].node == n {
      assert c.calls[step.id].acquired;
    }
  }

  /** The write in time moves on, or it happens and opens a fresh lease. */
  lemma PendingWriteContinues(c: Cluster, step: Step, n: nat, d: Conduct, id: nat)
    requires d.WithinSlack()
    requires Orderly(c, step, n, d) && Safe(c) && Retained(c, n, d)
    requires Leads(c, n) && Leads(Next(c, step), n) && WritesInTime(c, id, n, d)
    ensures Covered(Next(c, step), n, d)
  {
    var c' := Next(c, step);
    CoveredIsHeld(c, n, d);
    HeldKeyLasts(c, step, n);
    if step == PExpire(id) {
      assert c'.key == Some(Lease(n, c.now + LEASE_TTL));
    } else {
      assert WritesInTime(c', id, n, d);
    }
  }

  lemma CoverageContinues(c: Cluster, step: Step, n: nat, d: Conduct)
    requires d.WithinSlack()
    requires Orderly(c, step, n, d) && Safe(c) && FlagFollowsTimer(c) && Retained(c, n, d)
    requires Leads(c, n) && Leads(Next(c, step), n)
    ensures Covered(Next(c, step), n, d)
  {
    var c' := Next(c, step);
    if c.nodes[n].refreshAt.value + d.timer + d.call < c.key.value.expiresAt {
      CoveredIsHeld(c, n, d);
      HeldKeyLasts(c, step, n);
      if step.TimerFires? && step.n == n {
        assert c'.nodes[n].refreshAt == Some(c.now + REFRESH_INTERVAL);
        assert WritesInTime(c', step.id, n, d);
      } else {
        TimerLasts(c, step, n, d);
      }
    } else {
      var id :| WritesInTime(c, id, n, d);
      PendingWriteContinues(c, step, n, d, id);
    }
  }

  /** A new leader's first timer leaves enough of the lease it has just taken. */
  lemma CoverageBegins(c: Cluster, step: Step, n: nat, d: Conduct)
    requires d.WithinSlack()
    requires Orderly(c, step, n, d) && Safe(c) && FlagFollowsTimer(c) && Retained(c, n, d)
    requires !Leads(c, n) && Leads(Next(c, step), n)
    ensures Covered(Next(c, step), n, d)
  {
    if n < |c.nodes| {
      BecomesLeader(c, step, n);
      assert CallKnows(c, c.calls[step.id]);
    }
  }

  lemma RetainedStep(c: Cluster, step: Step, n: nat, d: Conduct)
    requires !d.overlap
    requires d.WithinSlack()
    requires Orderly(c, step, n, d) && Safe(c) && FlagFollowsTimer(c) && Retained(c, n, d)
    ensures Retained(Next(c, step), n, d)
    ensures Leads(c, n) && !(step.StartResign? && step.n == n) ==> Leads(Next(c, step), n)
  {
    CallsStayOnTime(c, step, n, d);
    AttemptsStaySingle(c, step, n, d);
    ResignsStayLeaders(c, step, n, d);
    if Leads(c, n) {
      if !(step.StartResign? && step.n == n) {
        LeaderStays(c, step, n, d);
      }
      if Leads(Next(c, step), n) {
        CoverageContinues(c, step, n, d);
      }
    } else if Leads(Next(c, step), n) {
      CoverageBegins(c, step, n, d);
    }
  }

  ghost predicate OrderlyRun(c: Cluster, steps: seq<Step>, n: nat, d: Conduct)
    decreases |steps|
  {
    steps == [] || (Orderly(c, steps[0], n, d) && OrderlyRun(Next(c, steps[0]), steps[1..], n, d))
  }

  predicate NeverResigns(steps: seq<Step>, n: nat) {
    forall s <- steps :: s.StartResign? ==> s.n != n
  }

  lemma {:induction false} RetainedRun(c: Cluster, steps: seq<Step>, n: nat, d: Conduct)
    requires !d.overlap
    requires d.WithinSlack() && OrderlyRun(c, steps, n, d)
    requires Safe(c) && FlagFollowsTimer(c) && Retained(c, n, d)
    ensures Legal(c, steps) && Possible(c, steps)
    ensures Safe(Run(c, steps)) && FlagFollowsTimer(Run(c, steps)) && Retained(Run(c, steps), n, d)
    ensures Leads(c, n) && NeverResigns(steps, n) ==> Leads(Run(c, steps), n)
    decreases |steps|
  {
    if steps != [] {
      SafeStep(c, steps[0]);
      FlagStep(c, steps[0]);
      RetainedStep(c, steps[0], n, d);
      RetainedRun(Next(c, steps[0]), steps[1..], n, d);
    }
  }

  /** From an idle cluster, whatever the other nodes do: once node n leads it still leads, with the key in its name
      and alive, after any further steps up to its own resign. */
  lemma LeaderKeepsLease(size: nat, start: int, before: seq<Step>, after: seq<Step>, n: nat, d: Conduct)
    requires !d.overlap
    requires d.WithinSlack()
    requires OrderlyRun(Start(size, start), before, n, d)
    ensures Possible(Start(size, start), before)
    ensures var c := Run(Start(size, start), before);
            Leads(c, n) && OrderlyRun(c, after, n, d) && NeverResigns(after, n) ==>
              Possible(c, after) && Leads(Run(c, after), n) && Run(c, after).HeldBy(n)
  {
    RetainedRun(Start(size, start), before, n, d);
    var c := Run(Start(size, start), before);
    if Leads(c, n) && OrderlyRun(c, after, n, d) && NeverResigns(after, n) {
      RetainedRun(c, after, n, d);
      CoveredIsHeld(Run(c, after), n, d);
    }
  }

  /** What it means for some conduct that a refreshing leader never loses its lease before it resigns. */
  ghost predicate KeepsLease(d: Conduct) {
    forall size: nat, start: int, before: seq<Step>, led: Cluster, after: seq<Step>, end: Cluster, n: nat ::
      Holds(size, start, before, led, n, d) && Goes(led, after, end, n, d) ==> Leads(end, n) && end.HeldBy(n)
  }

  /** Node n leads after an orderly run from an idle cluster. */
  ghost predicate Holds(size: nat, start: int, before: seq<Step>, led: Cluster, n: nat, d: Conduct) {
    Reaches(Start(size, start), before, led) && OrderlyRun(Start(size, start), before, n, d) && Leads(led, n)
  }

  /** An orderly continuation without a resign of node n. */
  ghost predicate Goes(led: Cluster, after: seq<Step>, end: Cluster, n: nat, d: Conduct) {
    Reaches(led, after, end) && OrderlyRun(led, after, n, d) && NeverResigns(after, n)
  }

  lemma SlackSuffices(d: Conduct)
    requires d.WithinSlack() && !d.overlap
    ensures KeepsLease(d)
  {
    forall size: nat, start: int, before: seq<Step>, led: Cluster, after: seq<Step>, end: Cluster, n: nat |
      Holds(size, start, before, led, n, d) && Goes(led, after, end, n, d)
      ensures Leads(end, n) && end.HeldBy(n)
    {
      LeaderKeepsLease(size, start, before, after, n, d);
    }
  }
}
