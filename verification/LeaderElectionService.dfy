/** One node's participate and resign as the program writes them, when no other node's command falls between theirs;
    the interleaving model of LeaderElection runs the same commands one at a time. */
module LeaderElectionService {
  import opened Prelude
  import opened LeaderElection

  /** What an undisturbed attempt leaves in the key, and whether the caller got it. */
  function Attempt(key: Option<Lease>, now: int, n: nat): (r: (bool, Option<Lease>)) {
    if key.Some? && now < key.value.expiresAt && key.value.holder != n then (false, key)
    else (true, Some(Lease(n, now + LEASE_TTL)))
  }

  /** The shared key, with the clock the Redis server reads. */
  class RedisKey {
    var lease: Option<Lease>
    var now: int

    predicate Held()
      reads this
    {
      lease.Some? && now < lease.value.expiresAt
    }

    /** SET key id PX ttl NX */
    method SetNx(id: nat, ttl: int) returns (ok: bool)
      modifies this`lease
      ensures ok == !old(Held())
      ensures lease == if ok then Some(Lease(id, now + ttl)) else old(lease)
    {
      ok := !Held();
      if ok {
        lease := Some(Lease(id, now + ttl));
      }
    }

    method Get() returns (holder: Option<nat>)
      ensures holder == if Held() then Some(lease.value.holder) else None
    {
      holder := if Held() then Some(lease.value.holder) else None;
    }

    method PExpire(ttl: int)
      modifies this`lease
      ensures lease == if old(Held()) then Some(old(lease).value.(expiresAt := now + ttl)) else old(lease)
    {
      if Held() {
        lease := Some(lease.value.(expiresAt := now + ttl));
      }
    }

    method Del()
      modifies this`lease
      ensures lease == None
    {
      lease := None;
    }
  }

  class LeaderElectionNode {
    const daemonId: nat
    const redis: RedisKey
    var isLeaderFlag: bool
    var refreshTimer: Option<int>

    constructor (daemonId: nat, redis: RedisKey)
      ensures this.daemonId == daemonId && this.redis == redis
      ensures !isLeaderFlag && refreshTimer == None
    {
      this.daemonId := daemonId;
      this.redis := redis;
      isLeaderFlag := false;
      refreshTimer := None;
    }

    /** fault is the command that throws, counted from 0, if it is issued at all. */
    method Participate(fault: Option<nat>) returns (acquired: bool)
      modifies this, redis`lease
      ensures var heldBefore := old(redis.Held());
              var mine := heldBefore && old(redis.lease).value.holder == daemonId;
              var issued := if !heldBefore then 1 else if mine then 3 else 2;
              if fault.Some? && fault.value < issued then !acquired && redis.lease == old(redis.lease)
              else (acquired, redis.lease) == Attempt(old(redis.lease), redis.now, daemonId)
      ensures isLeaderFlag == acquired
      ensures refreshTimer == if !acquired then None
                              else if old(refreshTimer).Some? then old(refreshTimer)
                              else Some(redis.now + REFRESH_INTERVAL)
    {
      acquired := false;
      if fault == Some(0) {
        Fail();
        return;
      }
      var ok := redis.SetNx(daemonId, LEASE_TTL);
      if ok {
        acquired := true;
      } else {
        if fault == Some(1) {
          Fail();
          return;
        }
        var currentLeader := redis.Get();
        if currentLeader == Some(daemonId) {
          if fault == Some(2) {
            Fail();
            return;
          }
          redis.PExpire(LEASE_TTL);
          acquired := true;
        }
      }
      isLeaderFlag := acquired;
      if acquired {
        StartRefreshTimer();
      } else {
        StopRefreshTimer();
      }
    }

    method Fail()
      modifies this
      ensures !isLeaderFlag && refreshTimer == None
    {
      isLeaderFlag := false;
      StopRefreshTimer();
    }

    method StartRefreshTimer()
      modifies this`refreshTimer
      ensures refreshTimer == if old(refreshTimer).Some? then old(refreshTimer) else Some(redis.now + REFRESH_INTERVAL)
    {
      if refreshTimer.Some? {
        return;
      }
      refreshTimer := Some(redis.now + REFRESH_INTERVAL);
    }

    method StopRefreshTimer()
      modifies this`refreshTimer
      ensures refreshTimer == None
    {
      if refreshTimer.Some? {
        refreshTimer := None;
      }
    }

    /** The key goes only if this node led and still holds it; no fault keeps the flag. */
    method Resign(fault: Option<nat>)
      modifies this, redis`lease
      ensures !isLeaderFlag && refreshTimer == None
      ensures redis.lease == if old(isLeaderFlag) && old(redis.Held()) && old(redis.lease).value.holder == daemonId
                                && (fault.None? || fault.value >= 2)
                             then None else old(redis.lease)
    {
      StopRefreshTimer();
      if !isLeaderFlag {
        return;
      }
      if fault != Some(0) {
        var currentLeader := redis.Get();
        if currentLeader == Some(daemonId) && fault != Some(1) {
          redis.Del();
        }
      }
      isLeaderFlag := false;
    }
  }

  /** The commands of an undisturbed participate, in the interleaving model. */
  function Undisturbed(c: Cluster, id: nat, n: nat): seq<Step> {
    if !c.Held() then [StartParticipate(id, n), SetNx(id), Finish(id)]
    else if c.HeldBy(n) then [StartParticipate(id, n), SetNx(id), Get(id), PExpire(id), Finish(id)]
    else [StartParticipate(id, n), SetNx(id), Get(id), Finish(id)]
  }

  /** Run without a break, the interleaving model's commands have the effect that Participate promises. */
  lemma UndisturbedParticipate(c: Cluster, id: nat, n: nat)
    requires n < |c.nodes| && id !in c.calls
    ensures var r := Attempt(c.key, c.now, n);
            Reaches(c, Undisturbed(c, id, n), c.(key := r.1).Conclude(n, r.0, c.now))
  {
    var c1 := Next(c, StartParticipate(id, n));
    var steps := Then(c, [], c, StartParticipate(id, n));
    var c2 := Next(c1, SetNx(id));
    steps := Then(c, steps, c1, SetNx(id));
    if c.Held() {
      var end: Cluster;
      steps, end := SecondThoughts(c, steps, c2, id);
      assert end.calls == c.calls;
    } else {
      steps := Then(c, steps, c2, Finish(id));
      assert Next(c2, Finish(id)).calls == c.calls;
    }
    assert steps == Undisturbed(c, id, n);
  }

  /** The commands after a SET that found the key taken. */
  lemma SecondThoughts(c: Cluster, steps: seq<Step>, end: Cluster, id: nat) returns (longer: seq<Step>, c': Cluster)
    requires Reaches(c, steps, end) && id in end.calls && end.calls[id].Getting?
    requires end.calls[id].node < |end.nodes| && end.Held()
    ensures var n := end.calls[id].node;
            var r := Attempt(end.key, end.now, n);
            && longer == steps + (if end.HeldBy(n) then [Get(id), PExpire(id), Finish(id)] else [Get(id), Finish(id)])
            && Reaches(c, longer, c') && c' == end.(key := r.1).Conclude(n, r.0, end.now).Without(id)
  {
    longer := Then(c, steps, end, Get(id));
    c' := Next(end, Get(id));
    if end.HeldBy(end.calls[id].node) {
      longer := Then(c, longer, c', PExpire(id));
      c' := Next(c', PExpire(id));
    }
    longer := Then(c, longer, c', Finish(id));
    c' := Next(c', Finish(id));
  }

  /** How many commands an undisturbed participate issues. */
  function Issued(c: Cluster, n: nat): nat {
    if !c.Held() then 1 else if c.HeldBy(n) then 3 else 2
  }

  /** The commands up to the one that throws. */
  function Interrupted(id: nat, n: nat, fault: nat): seq<Step> {
    if fault == 0 then [StartParticipate(id, n), Throw(id)]
    else if fault == 1 then [StartParticipate(id, n), SetNx(id), Throw(id)]
    else [StartParticipate(id, n), SetNx(id), Get(id), Throw(id)]
  }

  /** A command that throws leaves the key alone, drops the flag and stops the timer, as in Participate. */
  lemma InterruptedParticipate(c: Cluster, id: nat, n: nat, fault: nat)
    requires n < |c.nodes| && id !in c.calls && fault < Issued(c, n)
    ensures Reaches(c, Interrupted(id, n, fault), c.(nodes := c.nodes[n := Node(false, None, c.nodes[n].stamp)]))
  {
    var at := Next(c, StartParticipate(id, n));
    var steps := Then(c, [], c, StartParticipate(id, n));
    if fault >= 1 {
      steps := Then(c, steps, at, SetNx(id));
      at := Next(at, SetNx(id));
    }
    if fault >= 2 {
      steps := Then(c, steps, at, Get(id));
      at := Next(at, Get(id));
    }
    steps := Then(c, steps, at, Throw(id));
    assert steps == Interrupted(id, n, fault);
    assert Next(at, Throw(id)).calls == c.calls;
  }

  /** The commands of an undisturbed resign, up to the one that throws if one does. */
  function ResignSteps(c: Cluster, id: nat, n: nat, fault: Option<nat>): seq<Step>
    requires n < |c.nodes|
  {
    if !c.nodes[n].isLeader then [StartResign(id, n)]
    else if fault == Some(0) then [StartResign(id, n), ResignFinish(id)]
    else if !c.HeldBy(n) || fault == Some(1) then [StartResign(id, n), ResignGet(id), ResignFinish(id)]
    else [StartResign(id, n), ResignGet(id), ResignDel(id), ResignFinish(id)]
  }

  /** The commands of a resign by a leader, after its start. */
  lemma ResignCommands(c: Cluster, steps: seq<Step>, end: Cluster, id: nat, fault: Option<nat>)
      returns (longer: seq<Step>, c': Cluster)
    requires Reaches(c, steps, end) && id in end.calls && end.calls[id].ResignReading?
    requires end.calls[id].node < |end.nodes| && end.nodes[end.calls[id].node].refreshAt.None?
    ensures var n := end.calls[id].node;
            var deletes := end.HeldBy(n) && (fault.None? || fault.value >= 2);
            && longer == steps + (if fault == Some(0) then [ResignFinish(id)]
                                  else if !end.HeldBy(n) || fault == Some(1) then [ResignGet(id), ResignFinish(id)]
                                  else [ResignGet(id), ResignDel(id), ResignFinish(id)])
            && Reaches(c, longer, c')
            && c' == end.(key := if deletes then None else end.key,
                          nodes := end.nodes[n := Node(false, None, end.nodes[n].stamp)]).Without(id)
  {
    longer, c' := steps, end;
    if fault != Some(0) {
      longer := Then(c, longer, c', ResignGet(id));
      c' := Next(c', ResignGet(id));
      if end.HeldBy(end.calls[id].node) && fault != Some(1) {
        longer := Then(c, longer, c', ResignDel(id));
        c' := Next(c', ResignDel(id));
      }
    }
    longer := Then(c, longer, c', ResignFinish(id));
    c' := Next(c', ResignFinish(id));
  }

  /** Run without a break, the resign's commands have the effect that Resign promises, faults included. */
  lemma UndisturbedResign(c: Cluster, id: nat, n: nat, fault: Option<nat>)
    requires n < |c.nodes| && id !in c.calls
    ensures var deletes := c.nodes[n].isLeader && c.HeldBy(n) && (fault.None? || fault.value >= 2);
            Reaches(c, ResignSteps(c, id, n, fault),
                    c.(key := if deletes then None else c.key,
                       nodes := c.nodes[n := Node(false, None, c.nodes[n].stamp)]))
  {
    var steps := Then(c, [], c, StartResign(id, n));
    if c.nodes[n].isLeader {
      var end: Cluster;
      steps, end := ResignCommands(c, steps, Next(c, StartResign(id, n)), id, fault);
      assert end.calls == c.calls;
    }
    assert steps == ResignSteps(c, id, n, fault);
  }
}
