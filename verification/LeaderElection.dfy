/** Leader election over one expiring Redis key, as an interleaving of the Redis commands of any number of nodes.
    A node is an index, so ids are distinct; times are milliseconds. */
module LeaderElection {
  import opened Prelude

  const LEASE_TTL: int := 30000
  const REFRESH_INTERVAL: int := 10000

  datatype Lease = Lease(holder: nat, expiresAt: int)

  // stamp is the time at which the last successful participate wrote the key.
  datatype Node = Node(isLeader: bool, refreshAt: Option<int>, stamp: int)

  // A call in flight, by the Redis command it issues next.
  datatype Call =
    | Setting(node: nat, start: int)
    | Getting(node: nat, start: int)
    | Refreshing(node: nat, start: int)
    | Settled(node: nat, start: int, acquired: bool, stamp: int)
    | ResignReading(node: nat, start: int)
    | ResignDeleting(node: nat, start: int)
    | ResignLeaving(node: nat, start: int, deleted: bool)
  {
    predicate Resigns() {
      ResignReading? || ResignDeleting? || ResignLeaving?
    }
  }

  datatype Cluster = Cluster(now: int, key: Option<Lease>, nodes: seq<Node>, calls: map<nat, Call>)
  {
    predicate Held() {
      key.Some? && now < key.value.expiresAt
    }

    predicate HeldBy(n: nat) {
      Held() && key.value.holder == n
    }

    function With(id: nat, call: Call): Cluster {
      this.(calls := calls[id := call])
    }

    function Without(id: nat): Cluster {
      this.(calls := calls - {id})
    }

    function SetNode(n: nat, node: Node): Cluster
      requires n < |nodes|
    {
      this.(nodes := nodes[n := node])
    }

    /** The end of participate: the flag follows the outcome, and the timer starts or stops with it. */
    function Conclude(n: nat, acquired: bool, stamp: int): Cluster
      requires n < |nodes|
    {
      var node := nodes[n];
      SetNode(n,
        if !acquired then Node(false, None, node.stamp)
        else Node(true, if node.refreshAt.Some? then node.refreshAt else Some(now + REFRESH_INTERVAL), stamp))
    }
  }

  datatype Step =
    | Tick(to: int)
    | StartParticipate(id: nat, n: nat)
    | TimerFires(id: nat, n: nat)
    | SetNx(id: nat)
    | Get(id: nat)
    | PExpire(id: nat)
    | Finish(id: nat)
    | Throw(id: nat)
    | StartResign(id: nat, n: nat)
    | ResignGet(id: nat)
    | ResignDel(id: nat)
    | ResignFinish(id: nat)

  predicate Enabled(c: Cluster, step: Step) {
    match step
    case Tick(to) => c.now <= to
    case StartParticipate(id, n) => id !in c.calls && n < |c.nodes|
    case TimerFires(id, n) => id !in c.calls && n < |c.nodes| && c.nodes[n].refreshAt.Some?
                               && c.nodes[n].refreshAt.value <= c.now
    case SetNx(id) => id in c.calls && c.calls[id].Setting?
    case Get(id) => id in c.calls && c.calls[id].Getting?
    case PExpire(id) => id in c.calls && c.calls[id].Refreshing?
    case Finish(id) => id in c.calls && c.calls[id].Settled? && c.calls[id].node < |c.nodes|
    case Throw(id) => id in c.calls && !c.calls[id].Resigns() && c.calls[id].node < |c.nodes|
    case StartResign(id, n) => id !in c.calls && n < |c.nodes|
    case ResignGet(id) => id in c.calls && c.calls[id].ResignReading?
    case ResignDel(id) => id in c.calls && c.calls[id].ResignDeleting?
    // An error in resign is swallowed, so it can end after any of its commands.
    case ResignFinish(id) => id in c.calls && c.calls[id].Resigns() && c.calls[id].node < |c.nodes|
  }

  function Next(c: Cluster, step: Step): Cluster
    requires Enabled(c, step)
  {
    match step
    case Tick(to) => c.(now := to)
    case StartParticipate(id, n) => c.With(id, Setting(n, c.now))
    case TimerFires(id, n) =>
      c.SetNode(n, c.nodes[n].(refreshAt := Some(c.now + REFRESH_INTERVAL))).With(id, Setting(n, c.now))
    case SetNx(id) =>
      var call := c.calls[id];
      if c.Held() then c.With(id, Getting(call.node, call.start))
      else c.(key := Some(Lease(call.node, c.now + LEASE_TTL))).With(id, Settled(call.node, call.start, true, c.now))
    case Get(id) =>
      var call := c.calls[id];
      if c.HeldBy(call.node) then c.With(id, Refreshing(call.node, call.start))
      else c.With(id, Settled(call.node, call.start, false, 0))
    case PExpire(id) =>
      // PEXPIRE extends whatever lease is there, and the caller does not look at its reply.
      var call := c.calls[id];
      c.(key := if c.Held() then Some(c.key.value.(expiresAt := c.now + LEASE_TTL)) else c.key)
       .With(id, Settled(call.node, call.start, true, c.now))
    case Finish(id) =>
      var call := c.calls[id];
      c.Conclude(call.node, call.acquired, call.stamp).Without(id)
    case Throw(id) => c.Conclude(c.calls[id].node, false, 0).Without(id)
    case StartResign(id, n) =>
      var stopped := c.SetNode(n, c.nodes[n].(refreshAt := None));
      if c.nodes[n].isLeader then stopped.With(id, ResignReading(n, c.now)) else stopped
    case ResignGet(id) =>
      var call := c.calls[id];
      if c.HeldBy(call.node) then c.With(id, ResignDeleting(call.node, call.start))
      else c.With(id, ResignLeaving(call.node, call.start, false))
    case ResignDel(id) =>
      var call := c.calls[id];
      c.(key := None).With(id, ResignLeaving(call.node, call.start, true))
    case ResignFinish(id) =>
      var n := c.calls[id].node;
      c.SetNode(n, c.nodes[n].(isLeader := false)).Without(id)
  }

  // ---- The assumptions under which the lease is safe ----

  /** The key still holds the caller's id when its PEXPIRE or DEL arrives: the lease its GET saw has not run out since,
      or was renewed in time. */
  predicate Prompt(c: Cluster, step: Step)
    requires Enabled(c, step)
  {
    match step
    case PExpire(id) => c.HeldBy(c.calls[id].node)
    case ResignDel(id) => c.HeldBy(c.calls[id].node)
    case _ => true
  }

  predicate Idle(c: Cluster, n: nat) {
    forall id <- c.calls :: c.calls[id].node != n
  }

  predicate Resigning(c: Cluster, n: nat) {
    exists id <- c.calls :: c.calls[id].node == n && c.calls[id].Resigns()
  }

  /** A node does not resign while another of its own calls is in flight, nor participate while it resigns. */
  predicate Disciplined(c: Cluster, step: Step)
    requires Enabled(c, step)
  {
    match step
    case StartParticipate(_, n) => !Resigning(c, n)
    case TimerFires(_, n) => !Resigning(c, n)
    case StartResign(_, n) => Idle(c, n)
    case _ => true
  }

  // ---- Safety ----

  /** The leader flag is set and the last successful write is under one lease old. */
  predicate FreshlyFlagged(c: Cluster, n: nat)
    requires n < |c.nodes|
  {
    c.nodes[n].isLeader && c.now < c.nodes[n].stamp + LEASE_TTL
  }

  /** A resign of the node is in flight and has deleted the key. */
  predicate HasDeleted(c: Cluster, n: nat) {
    exists id <- c.calls :: c.calls[id].node == n && c.calls[id].ResignLeaving? && c.calls[id].deleted
  }

  predicate ActsAsLeader(c: Cluster, n: nat)
    requires n < |c.nodes|
  {
    FreshlyFlagged(c, n) && !HasDeleted(c, n)
  }

  ghost predicate HeldUntil(c: Cluster, n: nat, time: int) {
    c.key.Some? && c.key.value.holder == n && time <= c.key.value.expiresAt
  }

  /** What a call in flight knows about the key. */
  ghost predicate CallKnows(c: Cluster, call: Call) {
    match call
    case Settled(n, _, acquired, stamp) =>
      acquired ==> stamp <= c.now && (c.now < stamp + LEASE_TTL ==> HeldUntil(c, n, stamp + LEASE_TTL))
    // A resign that has deleted the key: nobody writes it back in the caller's name before the resign ends.
    case ResignLeaving(n, _, deleted) => deleted ==> !(c.key.Some? && c.key.value.holder == n)
    case _ => true
  }

  ghost predicate KeyBounded(c: Cluster) {
    c.key.Some? ==> c.key.value.expiresAt <= c.now + LEASE_TTL
  }

  ghost predicate CallsSound(c: Cluster) {
    forall id <- c.calls :: c.calls[id].node < |c.nodes| && CallKnows(c, c.calls[id])
  }

  ghost predicate LeadersSound(c: Cluster) {
    forall n :: 0 <= n < |c.nodes| && ActsAsLeader(c, n) ==> HeldUntil(c, n, c.nodes[n].stamp + LEASE_TTL)
  }

  ghost predicate ResignsAlone(c: Cluster) {
    forall i, j :: i in c.calls && j in c.calls && i != j && c.calls[i].Resigns() ==> c.calls[i].node != c.calls[j].node
  }

  ghost predicate Safe(c: Cluster) {
    KeyBounded(c) && CallsSound(c) && LeadersSound(c) && ResignsAlone(c)
  }

  /** Only the end of a participate makes a leader: a node on its way out stays so until its resign ends, and that
      clears the flag. */
  lemma LeadershipComesFromFinish(c: Cluster, step: Step, n: nat)
    requires Enabled(c, step) && n < |c.nodes|
    requires !(step.Finish? && c.calls[step.id].node == n)
    ensures n < |Next(c, step).nodes|
    ensures ActsAsLeader(Next(c, step), n) ==> ActsAsLeader(c, n) && Next(c, step).nodes[n].stamp == c.nodes[n].stamp
  {
    var c' := Next(c, step);
    if id :| id in c.calls && c.calls[id].node == n && c.calls[id].ResignLeaving? && c.calls[id].deleted {
      if step != ResignFinish(id) {
        assert id in c'.calls && c'.calls[id] == c.calls[id];
      }
    }
  }

  lemma ResignsStayAlone(c: Cluster, step: Step)
    requires Enabled(c, step) && Disciplined(c, step) && ResignsAlone(c)
    ensures ResignsAlone(Next(c, step))
  {
  }

  /** What an unfinished call knows stays true under every step it does not take itself. */
  lemma KnowledgeLasts(c: Cluster, step: Step, id: nat)
    requires Enabled(c, step) && Prompt(c, step) && Safe(c)
    requires id in c.calls && id in Next(c, step).calls && Next(c, step).calls[id] == c.calls[id]
    ensures CallKnows(Next(c, step), c.calls[id])
  {
    assert CallKnows(c, c.calls[id]);
    if step.PExpire? || step.ResignDel? {
      assert CallKnows(c, c.calls[step.id]);
    }
  }

  lemma CallsStaySound(c: Cluster, step: Step)
    requires Enabled(c, step) && Prompt(c, step) && Safe(c)
    ensures KeyBounded(Next(c, step)) && CallsSound(Next(c, step))
  {
    var c' := Next(c, step);
    forall id | id in c'.calls
      ensures c'.calls[id].node < |c'.nodes| && CallKnows(c', c'.calls[id])
    {
      if id in c.calls {
        assert c.calls[id].node < |c.nodes|;
        if c'.calls[id] == c.calls[id] {
          KnowledgeLasts(c, step, id);
        } else {
          assert CallKnows(c, c.calls[id]);
        }
      }
    }
  }

  lemma LeadersStaySound(c: Cluster, step: Step)
    requires Enabled(c, step) && Prompt(c, step) && Safe(c)
    ensures LeadersSound(Next(c, step))
  {
    var c' := Next(c, step);
    if step.ResignDel? {
      assert step.id in c'.calls && c'.calls[step.id].ResignLeaving? && c'.calls[step.id].deleted;
      assert CallKnows(c, c.calls[step.id]);
    }
    if step.PExpire? {
      assert CallKnows(c, c.calls[step.id]);
    }
    forall n | 0 <= n < |c'.nodes| && ActsAsLeader(c', n)
      ensures HeldUntil(c', n, c'.nodes[n].stamp + LEASE_TTL)
    {
      if step.Finish? && c.calls[step.id].node == n {
        assert CallKnows(c, c.calls[step.id]);
      } else {
        LeadershipComesFromFinish(c, step, n);
      }
    }
  }

  lemma SafeStep(c: Cluster, step: Step)
    requires Enabled(c, step) && Prompt(c, step) && Disciplined(c, step) && Safe(c)
    ensures Safe(Next(c, step))
  {
    ResignsStayAlone(c, step);
    CallsStaySound(c, step);
    LeadersStaySound(c, step);
  }

  // ---- Runs ----

  function Start(size: nat, now: int): Cluster {
    Cluster(now, None, seq(size, _ => Node(false, None, now - LEASE_TTL)), map[])
  }

  /** The run is possible and keeps both assumptions at every step. */
  ghost predicate Legal(c: Cluster, steps: seq<Step>)
    decreases |steps|
  {
    steps == []
    || (Enabled(c, steps[0]) && Prompt(c, steps[0]) && Disciplined(c, steps[0]) && Legal(Next(c, steps[0]), steps[1..]))
  }

  ghost function Run(c: Cluster, steps: seq<Step>): Cluster
    requires Possible(c, steps)
    decreases |steps|
  {
    if steps == [] then c else Run(Next(c, steps[0]), steps[1..])
  }

  ghost predicate Possible(c: Cluster, steps: seq<Step>)
    decreases |steps|
  {
    steps == [] || (Enabled(c, steps[0]) && Possible(Next(c, steps[0]), steps[1..]))
  }

  ghost predicate Reaches(c: Cluster, steps: seq<Step>, end: Cluster) {
    Possible(c, steps) && Run(c, steps) == end
  }

  /** One more step at the end of a run. */
  lemma {:induction false} Then(c: Cluster, steps: seq<Step>, end: Cluster, step: Step) returns (longer: seq<Step>)
    requires Reaches(c, steps, end) && Enabled(end, step)
    ensures longer == steps + [step] && Reaches(c, longer, Next(end, step))
    decreases |steps|
  {
    longer := steps + [step];
    if steps == [] {
      assert longer[1..] == [];
    } else {
      var rest := Then(Next(c, steps[0]), steps[1..], end, step);
      assert longer[0] == steps[0] && longer[1..] == rest;
    }
  }

  /** The flag is set exactly while the timer runs, except between the start and the end of a resign. */
  ghost predicate FlagFollowsTimer(c: Cluster) {
    forall n :: 0 <= n < |c.nodes| ==>
      if Resigning(c, n) then c.nodes[n].isLeader && c.nodes[n].refreshAt.None?
      else c.nodes[n].isLeader <==> c.nodes[n].refreshAt.Some?
  }

  lemma ResigningStep(c: Cluster, step: Step, n: nat)
    requires Enabled(c, step) && Disciplined(c, step) && n < |c.nodes| && ResignsAlone(c)
    ensures Resigning(Next(c, step), n)
       <==> (Resigning(c, n) && !(step.ResignFinish? && c.calls[step.id].node == n))
            || (step.StartResign? && step.n == n && c.nodes[n].isLeader)
  {
    var c' := Next(c, step);
    if id :| id in c.calls && c.calls[id].node == n && c.calls[id].Resigns() {
      if !(step.ResignFinish? && c.calls[step.id].node == n) {
        assert id in c'.calls && c'.calls[id].node == n && c'.calls[id].Resigns();
      }
    }
    if step.StartResign? && step.n == n && c.nodes[n].isLeader {
      assert step.id in c'.calls && c'.calls[step.id] == ResignReading(n, c.now);
    }
  }

  lemma FlagStep(c: Cluster, step: Step)
    requires Enabled(c, step) && Disciplined(c, step) && ResignsAlone(c) && FlagFollowsTimer(c)
    ensures FlagFollowsTimer(Next(c, step))
  {
    var c' := Next(c, step);
    forall n | 0 <= n < |c'.nodes|
      ensures if Resigning(c', n) then c'.nodes[n].isLeader && c'.nodes[n].refreshAt.None?
              else c'.nodes[n].isLeader <==> c'.nodes[n].refreshAt.Some?
    {
      ResigningStep(c, step, n);
    }
  }

  lemma {:induction false} LegalRunsAreSafe(c: Cluster, steps: seq<Step>)
    requires Safe(c) && FlagFollowsTimer(c) && Legal(c, steps)
    ensures Possible(c, steps) && Safe(Run(c, steps)) && FlagFollowsTimer(Run(c, steps))
    decreases |steps|
  {
    if steps != [] {
      SafeStep(c, steps[0]);
      FlagStep(c, steps[0]);
      LegalRunsAreSafe(Next(c, steps[0]), steps[1..]);
    }
  }

  /** In every legal run: a node whose flag is set and fresh holds the live key, unless and only unless a resign of
      its own has deleted the key and not yet cleared the flag. */
  lemma FlagMatchesKey(size: nat, start: int, steps: seq<Step>, n: nat)
    requires Legal(Start(size, start), steps)
    ensures Possible(Start(size, start), steps)
    ensures var end := Run(Start(size, start), steps);
            n < |end.nodes| && FreshlyFlagged(end, n) ==> (end.HeldBy(n) <==> !HasDeleted(end, n))
  {
    LegalRunsAreSafe(Start(size, start), steps);
    var end := Run(Start(size, start), steps);
    if id :| id in end.calls && end.calls[id].node == n && end.calls[id].ResignLeaving? && end.calls[id].deleted {
      assert CallKnows(end, end.calls[id]);
    }
  }

  /** In every legal run there is at most one acting leader, and the key holds that node's id and is still alive. */
  lemma AtMostOneLeader(size: nat, start: int, steps: seq<Step>, n: nat, m: nat)
    requires Legal(Start(size, start), steps)
    ensures Possible(Start(size, start), steps)
    ensures var end := Run(Start(size, start), steps);
            && FlagFollowsTimer(end)
            && (n < |end.nodes| && ActsAsLeader(end, n) ==> end.HeldBy(n))
            && (n < |end.nodes| && m < |end.nodes| && ActsAsLeader(end, n) && ActsAsLeader(end, m) ==> n == m)
  {
    LegalRunsAreSafe(Start(size, start), steps);
  }
}
