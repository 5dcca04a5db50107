/** Runs that show what each assumption on the lease is for: drop it, and the conclusion fails. */
module LeaseRaces {
  import opened Prelude
  import opened LeaderElection
  import opened LeaseRetention

  /** One more step at the end of an orderly run. */
  lemma {:induction false} OrderlyThen(c: Cluster, steps: seq<Step>, end: Cluster, step: Step, n: nat, d: Conduct)
      returns (longer: seq<Step>)
    requires Reaches(c, steps, end) && OrderlyRun(c, steps, n, d) && Orderly(end, step, n, d)
    ensures longer == steps + [step] && Reaches(c, longer, Next(end, step)) && OrderlyRun(c, longer, n, d)
    decreases |steps|
  {
    longer := Then(c, steps, end, step);
    if steps == [] {
      assert longer[1..] == [];
    } else {
      var rest := OrderlyThen(Next(c, steps[0]), steps[1..], end, step, n, d);
      assert longer[1..] == rest;
    }
  }

  ghost predicate TwoLeaders(c: Cluster) {
    |c.nodes| == 2 && ActsAsLeader(c, 0) && ActsAsLeader(c, 1)
  }

  /** Node 0 of two has just taken the free key. */
  function Led(): Cluster {
    Cluster(0, Some(Lease(0, 30000)), [Node(true, Some(10000), 0), Node(false, None, -30000)], map[])
  }

  // The two assumptions on a run, one at a time.
  datatype Assumption = Promptness | Discipline

  /** The run is possible, and every step keeps the given one of the two assumptions. */
  ghost predicate Keeps(c: Cluster, steps: seq<Step>, what: Assumption)
    decreases |steps|
  {
    steps == []
    || (&& Enabled(c, steps[0])
        && (if what.Promptness? then Prompt(c, steps[0]) else Disciplined(c, steps[0]))
        && Keeps(Next(c, steps[0]), steps[1..], what))
  }

  /** One more step at the end of such a run. */
  lemma {:induction false} KeepsThen(c: Cluster, steps: seq<Step>, end: Cluster, step: Step, what: Assumption)
      returns (longer: seq<Step>)
    requires Reaches(c, steps, end) && Keeps(c, steps, what) && Enabled(end, step)
    requires if what.Promptness? then Prompt(end, step) else Disciplined(end, step)
    ensures longer == steps + [step] && Reaches(c, longer, Next(end, step)) && Keeps(c, longer, what)
    decreases |steps|
  {
    longer := Then(c, steps, end, step);
    if steps == [] {
      assert longer[1..] == [];
    } else {
      var rest := KeepsThen(Next(c, steps[0]), steps[1..], end, step, what);
      assert longer[1..] == rest;
    }
  }

  lemma FirstLeaderLeads(what: Assumption) returns (steps: seq<Step>)
    ensures Reaches(Start(2, 0), steps, Led()) && Keeps(Start(2, 0), steps, what)
    ensures forall s <- steps :: !s.Tick? && !s.StartResign?
  {
    var c := Start(2, 0);
    steps := KeepsThen(c, [], c, StartParticipate(0, 0), what);
    var c1 := Next(c, StartParticipate(0, 0));
    steps := KeepsThen(c, steps, c1, SetNx(0), what);
    var c2 := Next(c1, SetNx(0));
    steps := KeepsThen(c, steps, c2, Finish(0), what);
    assert Next(c2, Finish(0)).nodes == Led().nodes;
  }

  /** A node asks for a key that has gone, and gets it. */
  lemma Takeover(c: Cluster, steps: seq<Step>, end: Cluster, id: nat, n: nat, what: Assumption)
      returns (longer: seq<Step>, c': Cluster)
    requires Reaches(c, steps, end) && Keeps(c, steps, what)
    requires n < |end.nodes| && id !in end.calls && !end.Held() && !Resigning(end, n)
    ensures longer == steps + [StartParticipate(id, n), SetNx(id), Finish(id)]
    ensures Reaches(c, longer, c') && Keeps(c, longer, what)
    ensures c' == end.(key := Some(Lease(n, end.now + LEASE_TTL)), nodes := c'.nodes)
    ensures |c'.nodes| == |end.nodes| && c'.nodes[n].isLeader && c'.nodes[n].stamp == end.now
    ensures forall m :: 0 <= m < |end.nodes| && m != n ==> c'.nodes[m] == end.nodes[m]
  {
    longer := KeepsThen(c, steps, end, StartParticipate(id, n), what);
    var c1 := Next(end, StartParticipate(id, n));
    longer := KeepsThen(c, longer, c1, SetNx(id), what);
    var c2 := Next(c1, SetNx(id));
    longer := KeepsThen(c, longer, c2, Finish(id), what);
    c' := Next(c2, Finish(id));
    assert c'.calls == end.calls;
  }

  /** For PEXPIRE the assumption is exact: from a safe state, the step stays safe only if it holds. */
  lemma ExpireGuardIsExact(c: Cluster, id: nat)
    requires Enabled(c, PExpire(id)) && Safe(c)
    ensures Safe(Next(c, PExpire(id))) <==> Prompt(c, PExpire(id))
  {
    if Prompt(c, PExpire(id)) {
      SafeStep(c, PExpire(id));
    } else {
      var c' := Next(c, PExpire(id));
      assert id in c'.calls && c'.calls[id] == Settled(c.calls[id].node, c.calls[id].start, true, c.now);
      assert !CallKnows(c', c'.calls[id]);
    }
  }

  /** The lease expires between node 0's GET and its PEXPIRE, which extends the lease node 1 took in between: both
      nodes lead, though neither ever resigned and every step is disciplined. */
  lemma ExpiryDuringRefreshMakesTwoLeaders() returns (steps: seq<Step>, end: Cluster)
    ensures Reaches(Start(2, 0), steps, end) && TwoLeaders(end)
    ensures Keeps(Start(2, 0), steps, Discipline)
    ensures forall s <- steps :: !s.StartResign?
  {
    var c := Start(2, 0);
    var c4: Cluster;
    steps, c4 := RefreshUnderWay();
    steps := KeepsThen(c, steps, c4, Tick(30000), Discipline);
    var c5: Cluster;
    steps, c5 := Takeover(c, steps, Next(c4, Tick(30000)), 1, 1, Discipline);
    steps := KeepsThen(c, steps, c5, PExpire(0), Discipline);
    var c6 := Next(c5, PExpire(0));
    steps := KeepsThen(c, steps, c6, Finish(0), Discipline);
    end := Next(c6, Finish(0));
  }

  /** Node 0's timer has fired, and its refresh has read its own id. */
  lemma RefreshUnderWay() returns (steps: seq<Step>, end: Cluster)
    ensures Reaches(Start(2, 0), steps, end) && Keeps(Start(2, 0), steps, Discipline)
    ensures forall s <- steps :: !s.StartResign?
    ensures end == Cluster(10000, Some(Lease(0, 30000)), [Node(true, Some(20000), 0), Node(false, None, -30000)],
                           map[0 := Refreshing(0, 10000)])
  {
    var c := Start(2, 0);
    steps := FirstLeaderLeads(Discipline);
    steps := KeepsThen(c, steps, Led(), Tick(10000), Discipline);
    var c1 := Next(Led(), Tick(10000));
    steps := KeepsThen(c, steps, c1, TimerFires(0, 0), Discipline);
    var c2 := Next(c1, TimerFires(0, 0));
    steps := KeepsThen(c, steps, c2, SetNx(0), Discipline);
    var c3 := Next(c2, SetNx(0));
    steps := KeepsThen(c, steps, c3, Get(0), Discipline);
    end := Next(c3, Get(0));
  }

  /** The lease expires between the GET and the DEL of node 0's resign: the DEL removes the lease node 1 took in between,
      and the next to ask, node 0 itself, leads beside node 1. Every step is disciplined. */
  lemma ExpiryDuringResignMakesTwoLeaders() returns (steps: seq<Step>, end: Cluster)
    ensures Reaches(Start(2, 0), steps, end) && TwoLeaders(end)
    ensures Keeps(Start(2, 0), steps, Discipline)
  {
    var c := Start(2, 0);
    var c4: Cluster;
    steps, c4 := ResignOvertaken();
    steps := KeepsThen(c, steps, c4, ResignDel(0), Discipline);
    var c5 := Next(c4, ResignDel(0));
    steps := KeepsThen(c, steps, c5, ResignFinish(0), Discipline);
    var c6 := Next(c5, ResignFinish(0));
    assert c6.calls == map[];
    steps, end := Takeover(c, steps, c6, 2, 0, Discipline);
  }

  /** Node 1 has taken the expired key while node 0's resign was about to delete its own. */
  lemma ResignOvertaken() returns (steps: seq<Step>, end: Cluster)
    ensures Reaches(Start(2, 0), steps, end) && Keeps(Start(2, 0), steps, Discipline)
    ensures end == Cluster(30000, Some(Lease(1, 60000)), end.nodes, map[0 := ResignDeleting(0, 0)])
    ensures |end.nodes| == 2 && end.nodes[0] == Node(true, None, 0)
    ensures end.nodes[1].isLeader && end.nodes[1].stamp == 30000
  {
    var c := Start(2, 0);
    steps := FirstLeaderLeads(Discipline);
    steps := KeepsThen(c, steps, Led(), StartResign(0, 0), Discipline);
    var c1 := Next(Led(), StartResign(0, 0));
    steps := KeepsThen(c, steps, c1, ResignGet(0), Discipline);
    var c2 := Next(c1, ResignGet(0));
    steps := KeepsThen(c, steps, c2, Tick(30000), Discipline);
    steps, end := Takeover(c, steps, Next(c2, Tick(30000)), 1, 1, Discipline);
  }

  /** A participate that overlaps the node's own resign sets the flag again after the key is gone, so the next node to
      ask leads too. No time passes at all in the run, and every step is prompt. */
  lemma ParticipateOverResignMakesTwoLeaders() returns (steps: seq<Step>, end: Cluster)
    ensures Reaches(Start(2, 0), steps, end) && TwoLeaders(end)
    ensures Keeps(Start(2, 0), steps, Promptness)
    ensures forall s <- steps :: !s.Tick?
  {
    var c := Start(2, 0);
    var c1: Cluster;
    steps, c1 := ResignedDuringParticipate();
    steps := KeepsThen(c, steps, c1, Finish(0), Promptness);
    var c2 := Next(c1, Finish(0));
    assert c2.calls == map[];
    steps, end := Takeover(c, steps, c2, 1, 1, Promptness);
  }

  /** A whole resign of node 0 has run while its refresh was about to return. */
  lemma ResignedDuringParticipate() returns (steps: seq<Step>, end: Cluster)
    ensures Reaches(Start(2, 0), steps, end) && Keeps(Start(2, 0), steps, Promptness)
    ensures forall s <- steps :: !s.Tick?
    ensures end == Cluster(0, None, [Node(false, None, 0), Node(false, None, -30000)], map[0 := Settled(0, 0, true, 0)])
  {
    var c := Start(2, 0);
    var c1: Cluster;
    steps, c1 := RefreshWritten();
    steps := KeepsThen(c, steps, c1, StartResign(1, 0), Promptness);
    var c2 := Next(c1, StartResign(1, 0));
    steps := KeepsThen(c, steps, c2, ResignGet(1), Promptness);
    var c3 := Next(c2, ResignGet(1));
    steps := KeepsThen(c, steps, c3, ResignDel(1), Promptness);
    var c4 := Next(c3, ResignDel(1));
    steps := KeepsThen(c, steps, c4, ResignFinish(1), Promptness);
    end := Next(c4, ResignFinish(1));
    assert end.calls == map[0 := Settled(0, 0, true, 0)];
  }

  /** Node 0 has refreshed its lease, and the call has still to return. */
  lemma RefreshWritten() returns (steps: seq<Step>, end: Cluster)
    ensures Reaches(Start(2, 0), steps, end) && Keeps(Start(2, 0), steps, Promptness)
    ensures forall s <- steps :: !s.Tick?
    ensures end == Led().(calls := map[0 := Settled(0, 0, true, 0)])
  {
    var c := Start(2, 0);
    steps := FirstLeaderLeads(Promptness);
    steps := KeepsThen(c, steps, Led(), StartParticipate(0, 0), Promptness);
    var c1 := Next(Led(), StartParticipate(0, 0));
    steps := KeepsThen(c, steps, c1, SetNx(0), Promptness);
    var c2 := Next(c1, SetNx(0));
    steps := KeepsThen(c, steps, c2, Get(0), Promptness);
    var c3 := Next(c2, Get(0));
    steps := KeepsThen(c, steps, c3, PExpire(0), Promptness);
    end := Next(c3, PExpire(0));
  }

  /** Between its DEL and the end of its resign a node is still flagged and fresh, while the next node has already
      taken the key. The run keeps every assumption. */
  lemma ResignLeavesTwoFlags() returns (steps: seq<Step>, end: Cluster)
    ensures Legal(Start(2, 0), steps) && Reaches(Start(2, 0), steps, end)
    ensures |end.nodes| == 2 && FreshlyFlagged(end, 0) && FreshlyFlagged(end, 1) && HasDeleted(end, 0)
  {
    var c := Start(2, 0);
    assert c.nodes == [Node(false, None, -30000), Node(false, None, -30000)];
    var c1 := Next(c, StartParticipate(0, 0));
    var c2 := Next(c1, SetNx(0));
    var c3 := Next(c2, Finish(0));
    assert c3 == Led();
    var c4 := Next(c3, StartResign(0, 0));
    var c5 := Next(c4, ResignGet(0));
    var c6 := Next(c5, ResignDel(0));
    assert c6 == Cluster(0, None, [Node(true, None, 0), Node(false, None, -30000)], map[0 := ResignLeaving(0, 0, true)]);
    var rest;
    rest, end := TakeoverDuringResign(c6);
    rest := Prefix(c5, ResignDel(0), rest, end);
    rest := Prefix(c4, ResignGet(0), rest, end);
    rest := Prefix(c3, StartResign(0, 0), rest, end);
    rest := Prefix(c2, Finish(0), rest, end);
    rest := Prefix(c1, SetNx(0), rest, end);
    steps := Prefix(c, StartParticipate(0, 0), rest, end);
  }

  lemma TakeoverDuringResign(c: Cluster) returns (steps: seq<Step>, end: Cluster)
    requires c == Cluster(0, None, [Node(true, None, 0), Node(false, None, -30000)], map[0 := ResignLeaving(0, 0, true)])
    ensures Legal(c, steps) && Reaches(c, steps, end)
    ensures |end.nodes| == 2 && FreshlyFlagged(end, 0) && FreshlyFlagged(end, 1) && HasDeleted(end, 0)
  {
    var c1 := Next(c, StartParticipate(1, 1));
    var c2 := Next(c1, SetNx(1));
    end := Next(c2, Finish(1));
    assert 0 in end.calls && end.calls[0] == ResignLeaving(0, 0, true);
    steps := Prefix(c2, Finish(1), [], end);
    steps := Prefix(c1, SetNx(1), steps, end);
    steps := Prefix(c, StartParticipate(1, 1), steps, end);
  }

  /** One more step at the start of a legal run. */
  lemma Prefix(c: Cluster, step: Step, rest: seq<Step>, end: Cluster) returns (longer: seq<Step>)
    requires Enabled(c, step) && Prompt(c, step) && Disciplined(c, step)
    requires Legal(Next(c, step), rest) && Reaches(Next(c, step), rest, end)
    ensures longer == [step] + rest && Legal(c, longer) && Reaches(c, longer, end)
  {
    longer := [step] + rest;
    assert longer[1..] == rest;
  }

  // ---- Outside the slack ----

  /** For any delays outside the slack there is a run in which nothing exceeds them and a leader, alone in the cluster
      and not resigning, is left with an expired key. */
  lemma SlackIsNecessary(d: Conduct)
    requires !d.WithinSlack()
    ensures !KeepsLease(d)
  {
    var call := Min(d.call, REFRESH_INTERVAL);
    var before, led := LateLeader(d, call);
    var after, fired := LateTimer(d, call, led);
    after := OrderlyThen(led, after, fired, Tick(30000), 0, d);
    var end := Next(fired, Tick(30000));
    assert Holds(1, 0, before, led, 0, d) && Goes(led, after, end, 0, d) && !end.HeldBy(0);
  }

  /** Retention holds exactly within the slack and without a node asking twice at once before it leads. */
  lemma LeaseKeptExactly(d: Conduct)
    ensures KeepsLease(d) <==> d.WithinSlack() && !d.overlap
  {
    if !d.WithinSlack() {
      SlackIsNecessary(d);
    } else if d.overlap {
      OverlapIsHarmful(d);
    } else {
      SlackSuffices(d);
    }
  }

  // ---- A node that asks twice at once before it leads ----

  /** Node 1 asks while node 0 leads, and is turned down; before that call returns it asks again, node 0 resigns, and
      the second call wins the key. Then the first one returns, drops the flag and stops the timer. No time passes, no
      command fails, and node 1 never resigns. */
  lemma OverlapIsHarmful(d: Conduct)
    requires d.overlap
    ensures !KeepsLease(d)
  {
    var asked, c1 := TurnedDown(d);
    var steps, c2 := ResignedMeanwhile(d, asked, c1);
    var before := OrderlyThen(Start(2, 0), steps, c2, SetNx(1), 1, d);
    var c3 := Next(c2, SetNx(1));
    before := OrderlyThen(Start(2, 0), before, c3, Finish(1), 1, d);
    var led := Next(c3, Finish(1));
    assert led == Cluster(0, Some(Lease(1, 30000)), [Node(false, None, 0), Node(true, Some(10000), 0)],
                          map[0 := Settled(1, 0, false, 0)]);
    var after := OrderlyThen(led, [], led, Finish(0), 1, d);
    var end := Next(led, Finish(0));
    assert Holds(2, 0, before, led, 1, d) && Goes(led, after, end, 1, d) && !Leads(end, 1);
  }

  lemma TurnedDown(d: Conduct) returns (steps: seq<Step>, end: Cluster)
    ensures Reaches(Start(2, 0), steps, end) && OrderlyRun(Start(2, 0), steps, 1, d)
    ensures end == Led().(calls := map[0 := Settled(1, 0, false, 0)])
  {
    var c := Start(2, 0);
    steps := OrderlyThen(c, [], c, StartParticipate(0, 0), 1, d);
    var c1 := Next(c, StartParticipate(0, 0));
    steps := OrderlyThen(c, steps, c1, SetNx(0), 1, d);
    var c2 := Next(c1, SetNx(0));
    steps := OrderlyThen(c, steps, c2, Finish(0), 1, d);
    assert Next(c2, Finish(0)) == Led();
    steps := OrderlyThen(c, steps, Led(), StartParticipate(0, 1), 1, d);
    var c3 := Next(Led(), StartParticipate(0, 1));
    steps := OrderlyThen(c, steps, c3, SetNx(0), 1, d);
    var c4 := Next(c3, SetNx(0));
    steps := OrderlyThen(c, steps, c4, Get(0), 1, d);
    end := Next(c4, Get(0));
  }

  lemma ResignedMeanwhile(d: Conduct, steps: seq<Step>, c: Cluster) returns (longer: seq<Step>, end: Cluster)
    requires d.overlap && Reaches(Start(2, 0), steps, c) && OrderlyRun(Start(2, 0), steps, 1, d)
    requires c == Led().(calls := map[0 := Settled(1, 0, false, 0)])
    ensures Reaches(Start(2, 0), longer, end) && OrderlyRun(Start(2, 0), longer, 1, d)
    ensures end == Cluster(0, None, [Node(false, None, 0), Node(false, None, -30000)],
                           map[0 := Settled(1, 0, false, 0), 1 := Setting(1, 0)])
  {
    var s := Start(2, 0);
    longer := OrderlyThen(s, steps, c, StartParticipate(1, 1), 1, d);
    var c1 := Next(c, StartParticipate(1, 1));
    longer := OrderlyThen(s, longer, c1, StartResign(2, 0), 1, d);
    var c2 := Next(c1, StartResign(2, 0));
    assert c2 == Cluster(0, Some(Lease(0, 30000)), [Node(true, None, 0), Node(false, None, -30000)],
                         map[0 := Settled(1, 0, false, 0), 1 := Setting(1, 0), 2 := ResignReading(0, 0)]);
    longer, end := ResignCompletes(d, longer, c2);
  }

  lemma ResignCompletes(d: Conduct, steps: seq<Step>, c: Cluster) returns (longer: seq<Step>, end: Cluster)
    requires Reaches(Start(2, 0), steps, c) && OrderlyRun(Start(2, 0), steps, 1, d)
    requires c == Cluster(0, Some(Lease(0, 30000)), [Node(true, None, 0), Node(false, None, -30000)],
                          map[0 := Settled(1, 0, false, 0), 1 := Setting(1, 0), 2 := ResignReading(0, 0)])
    ensures Reaches(Start(2, 0), longer, end) && OrderlyRun(Start(2, 0), longer, 1, d)
    ensures end == Cluster(0, None, [Node(false, None, 0), Node(false, None, -30000)],
                           map[0 := Settled(1, 0, false, 0), 1 := Setting(1, 0)])
  {
    var s := Start(2, 0);
    longer := OrderlyThen(s, steps, c, ResignGet(2), 1, d);
    var c1 := Next(c, ResignGet(2));
    longer := OrderlyThen(s, longer, c1, ResignDel(2), 1, d);
    var c2 := Next(c1, ResignDel(2));
    longer := OrderlyThen(s, longer, c2, ResignFinish(2), 1, d);
    end := Next(c2, ResignFinish(2));
    assert end.calls == map[0 := Settled(1, 0, false, 0), 1 := Setting(1, 0)];
  }

  /** If calls take any time at all, such a leader even drops its flag: its refresh finds the key gone. */
  lemma LateLeaderDropsFlag(d: Conduct) returns (before: seq<Step>, led: Cluster, after: seq<Step>, end: Cluster)
    requires !d.WithinSlack() && d.call > 0
    ensures Holds(1, 0, before, led, 0, d) && Goes(led, after, end, 0, d) && !Leads(end, 0)
  {
    var call := Min(d.call, REFRESH_INTERVAL);
    before, led := LateLeader(d, call);
    var fired;
    after, fired := LateTimer(d, call, led);
    after := OrderlyThen(led, after, fired, SetNx(0), 0, d);
    var c1 := Next(fired, SetNx(0));
    after := OrderlyThen(led, after, c1, Tick(30000), 0, d);
    var c2 := Next(c1, Tick(30000));
    assert c2 == Cluster(30000, Some(Lease(0, 30000)), [Node(true, Some(40000 - call), 0)],
                         map[0 := Getting(0, 30000 - call)]);
    after, end := RefreshFails(led, after, c2, d, call);
  }

  lemma RefreshFails(led: Cluster, before: seq<Step>, c: Cluster, d: Conduct, call: nat)
      returns (after: seq<Step>, end: Cluster)
    requires 0 < call <= d.call && call <= REFRESH_INTERVAL
    requires c == Cluster(30000, Some(Lease(0, 30000)), [Node(true, Some(40000 - call), 0)],
                          map[0 := Getting(0, 30000 - call)])
    requires Goes(led, before, c, 0, d)
    ensures Goes(led, after, end, 0, d) && !Leads(end, 0)
  {
    after := OrderlyThen(led, before, c, Get(0), 0, d);
    var c1 := Next(c, Get(0));
    after := OrderlyThen(led, after, c1, Finish(0), 0, d);
    end := Next(c1, Finish(0));
  }

  /** The first participate takes `call` to return, and the timer starts only then. */
  lemma LateLeader(d: Conduct, call: nat) returns (before: seq<Step>, led: Cluster)
    requires call <= d.call && call <= REFRESH_INTERVAL
    ensures led == Cluster(call, Some(Lease(0, 30000)), [Node(true, Some(call + 10000), 0)], map[])
    ensures Holds(1, 0, before, led, 0, d)
  {
    var c := Start(1, 0);
    assert c.nodes == [Node(false, None, -30000)];
    before := OrderlyThen(c, [], c, StartParticipate(0, 0), 0, d);
    var c1 := Next(c, StartParticipate(0, 0));
    before := OrderlyThen(c, before, c1, SetNx(0), 0, d);
    var c2 := Next(c1, SetNx(0));
    before := OrderlyThen(c, before, c2, Tick(call), 0, d);
    var c3 := Next(c2, Tick(call));
    before := OrderlyThen(c, before, c3, Finish(0), 0, d);
    led := Next(c3, Finish(0));
    assert led == Cluster(call, Some(Lease(0, 30000)), [Node(true, Some(call + 10000), 0)], map[]);
  }

  /** The timer fires so late that the lease ends just as its call may still be under way. */
  lemma LateTimer(d: Conduct, call: nat, led: Cluster) returns (after: seq<Step>, fired: Cluster)
    requires !d.WithinSlack() && call == Min(d.call, REFRESH_INTERVAL)
    requires led == Cluster(call, Some(Lease(0, 30000)), [Node(true, Some(call + 10000), 0)], map[])
    ensures fired == Cluster(30000 - call, Some(Lease(0, 30000)), [Node(true, Some(40000 - call), 0)],
                             map[0 := Setting(0, 30000 - call)])
    ensures Goes(led, after, fired, 0, d)
  {
    after := OrderlyThen(led, [], led, Tick(30000 - call), 0, d);
    var c1 := Next(led, Tick(30000 - call));
    after := OrderlyThen(led, after, c1, TimerFires(0, 0), 0, d);
    fired := Next(c1, TimerFires(0, 0));
    assert fired == Cluster(30000 - call, Some(Lease(0, 30000)), [Node(true, Some(40000 - call), 0)],
                            map[0 := Setting(0, 30000 - call)]);
  }
}
