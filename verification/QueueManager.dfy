/** Jobs moving between the main, delayed and dead-letter queues. A move takes the job out before it puts the copy in,
    so whatever stops the second half loses the job. */
module QueueManagers {
  import opened Prelude
  import opened JobSerializer
  import IsoDate

  type Fields = map<string, Value>

  // A queue numbers its own jobs; a caller may choose an id, which is never a number.
  datatype Id = Auto(n: nat) | Chosen(text: string)

  datatype Stored = Stored(id: Id, data: Fields, delay: int)

  datatype Lane = Lane(jobs: seq<Stored>, next: nat)
  {
    predicate Holds(id: Id) {
      exists job <- jobs :: job.id == id
    }

    /** Adding under an id already taken changes nothing. */
    function Added(chosen: Option<string>, data: Fields, delay: int): Lane {
      match chosen
      case None => Lane(jobs + [Stored(Auto(next), data, delay)], next + 1)
      case Some(text) => if Holds(Chosen(text)) then this else Lane(jobs + [Stored(Chosen(text), data, delay)], next)
    }

    function Removed(i: nat): Lane
      requires i < |jobs|
    {
      Lane(jobs[..i] + jobs[i + 1..], next)
    }
  }

  /** Index of the first job with the id, or the length if there is none. */
  function IndexOf(jobs: seq<Stored>, id: Id): (i: nat)
    ensures i <= |jobs|
    ensures i < |jobs| ==> jobs[i].id == id
    ensures forall k :: 0 <= k < i ==> jobs[k].id != id
  {
    if jobs == [] then 0
    else if jobs[0].id == id then 0
    else 1 + IndexOf(jobs[1..], id)
  }

  // The three lanes, in the order findJob looks: main, delayed, dead-letter.
  type Lanes = s: seq<Lane> | |s| == 3 witness [Lane([], 0), Lane([], 0), Lane([], 0)]

  const MAIN := 0
  const DELAYED := 1
  const DLQ := 2

  /** The first lane at or after k that holds the id, and the job's place in it. */
  function Find(lanes: Lanes, id: Id, k: nat := 0): (r: Option<(nat, nat)>)
    requires k <= 3
    ensures r.Some? ==> k <= r.value.0 < 3 && r.value.1 < |lanes[r.value.0].jobs|
                        && lanes[r.value.0].jobs[r.value.1].id == id
                        && (forall l :: k <= l < r.value.0 ==> !lanes[l].Holds(id))
    ensures r.None? ==> forall l :: k <= l < 3 ==> !lanes[l].Holds(id)
    decreases 3 - k
  {
    if k == 3 then None
    else
      var i := IndexOf(lanes[k].jobs, id);
      if i < |lanes[k].jobs| then Some((k, i)) else Find(lanes, id, k + 1)
  }

  // Backend and InvalidInstant are errors passed on as they came; enqueueing wraps them as Infrastructure.
  datatype Failure = NotFound | Validation | Infrastructure | Backend | InvalidInstant

  // The queue backend may refuse to remove a job, or fail to add one.
  datatype Fault = NoFault | RemoveFails | AddFails

  /** What enqueueing makes of job data, before it reaches the backend. */
  function Accept(data: Value): Result<Fields, Failure> {
    if !ValidJobData(data) then Err(Validation)
    else
      match Serialize(data)
      case Ok(serialized) => if serialized.Obj? then Ok(serialized.fields) else Err(Infrastructure)
      case Err(_) => Err(Infrastructure)
  }

  function DeadLettered(serialized: Fields, reason: string, now: int): Fields {
    serialized["dlqReason" := Str(reason)]["dlqAt" := Str(IsoDate.Text(now))]
  }

  datatype Move = ToDelayed(id: Id, delayMs: int) | ToDlq(id: Id, reason: string, now: int)

  /** What a move puts in, given the data read from the job it took out. */
  function Incoming(move: Move, data: Value): Result<Fields, Failure> {
    match move
    case ToDelayed(_, _) => Accept(data)
    case ToDlq(_, reason, now) =>
      match Serialize(data)
      case Ok(serialized) =>
        if serialized.Obj? then Ok(DeadLettered(serialized.fields, reason, now)) else Err(InvalidInstant)
      case Err(_) => Err(InvalidInstant)
  }

  /** The effect of one move on the three lanes, and what the caller is told. */
  function Moved(lanes: Lanes, move: Move, fault: Fault, outOfRange: string -> IsoDate.Time)
      : (r: (Lanes, Result<(), Failure>))
  {
    match Find(lanes, move.id)
    case None => (lanes, Err(NotFound))
    case Some((l, i)) =>
      if fault.RemoveFails? then (lanes, Err(Backend))
      else
        var data := ParseDates(Obj(lanes[l].jobs[i].data), outOfRange);
        Finished(lanes[l := lanes[l].Removed(i)], move, Incoming(move, data), fault)
  }

  /** The second half of a move, once the job is out. */
  function Finished(without: Lanes, move: Move, incoming: Result<Fields, Failure>, fault: Fault)
      : (r: (Lanes, Result<(), Failure>))
  {
    if incoming.Err? then (without, Err(incoming.error))
    else if fault.AddFails? then (without, Err(if move.ToDelayed? then Infrastructure else Backend))
    else
      var target := if move.ToDelayed? then DELAYED else DLQ;
      var delay := if move.ToDelayed? then move.delayMs else 0;
      (without[target := without[target].Added(None, incoming.value, delay)], Ok(()))
  }

  // ---- The program ----

  class BullQueue {
    var jobs: seq<Stored>
    var next: nat

    constructor ()
      ensures Snapshot() == Lane([], 0)
    {
      jobs := [];
      next := 0;
    }

    function Snapshot(): Lane
      reads this
    {
      Lane(jobs, next)
    }

    method FromId(id: Id) returns (place: Option<nat>)
      ensures place == if IndexOf(jobs, id) < |jobs| then Some(IndexOf(jobs, id)) else None
    {
      var i := IndexOf(jobs, id);
      place := if i < |jobs| then Some(i) else None;
    }

    method Remove(i: nat)
      requires i < |jobs|
      modifies this
      ensures Snapshot() == old(Snapshot()).Removed(i)
    {
      jobs := jobs[..i] + jobs[i + 1..];
    }

    method Add(chosen: Option<string>, data: Fields, delay: int)
      modifies this
      ensures Snapshot() == old(Snapshot()).Added(chosen, data, delay)
    {
      match chosen
      case None =>
        jobs := jobs + [Stored(Auto(next), data, delay)];
        next := next + 1;
      case Some(text) =>
        if !Snapshot().Holds(Chosen(text)) {
          jobs := jobs + [Stored(Chosen(text), data, delay)];
        }
    }
  }

  class QueueManager {
    const mainQueue: BullQueue
    const delayedQueue: BullQueue
    const dlqQueue: BullQueue
    const outOfRange: string -> IsoDate.Time

    constructor (outOfRange: string -> IsoDate.Time)
      ensures Valid() && fresh(mainQueue) && fresh(delayedQueue) && fresh(dlqQueue)
      ensures Snapshot() == [Lane([], 0), Lane([], 0), Lane([], 0)] && this.outOfRange == outOfRange
    {
      mainQueue := new BullQueue();
      delayedQueue := new BullQueue();
      dlqQueue := new BullQueue();
      this.outOfRange := outOfRange;
    }

    predicate Valid() {
      mainQueue != delayedQueue && mainQueue != dlqQueue && delayedQueue != dlqQueue
    }

    function Snapshot(): Lanes
      reads mainQueue, delayedQueue, dlqQueue
    {
      [mainQueue.Snapshot(), delayedQueue.Snapshot(), dlqQueue.Snapshot()]
    }

    method FindJob(id: Id) returns (found: Option<(nat, nat)>)
      ensures found == Find(Snapshot(), id)
    {
      var queues := [mainQueue, delayedQueue, dlqQueue];
      var k := 0;
      while k < 3
        invariant 0 <= k <= 3
        invariant Find(Snapshot(), id) == Find(Snapshot(), id, k)
      {
        assert queues[k].Snapshot() == Snapshot()[k];
        var place := queues[k].FromId(id);
        if place.Some? {
          return Some((k, place.value));
        }
        k := k + 1;
      }
      found := None;
    }

    method EnqueueJob(data: Value, chosen: Option<string>, fault: Fault) returns (r: Result<(), Failure>)
      requires Valid()
      modifies mainQueue
      ensures match Accept(data)
              case Err(e) => r == Err(e) && Snapshot() == old(Snapshot())
              case Ok(fields) =>
                if fault.AddFails? then r == Err(Infrastructure) && Snapshot() == old(Snapshot())
                else r == Ok(()) && Snapshot() == old(Snapshot())[MAIN := old(Snapshot())[MAIN].Added(chosen, fields, 0)]
    {
      if !ValidJobData(data) {
        return Err(Validation);
      }
      var serialized := Serialize(data);
      if serialized.Err? || !serialized.value.Obj? || fault.AddFails? {
        return Err(Infrastructure);
      }
      mainQueue.Add(chosen, serialized.value.fields, 0);
      r := Ok(());
    }

    method EnqueueDelayedJob(data: Value, delayMs: int, chosen: Option<string>, fault: Fault)
        returns (r: Result<(), Failure>)
      requires Valid()
      modifies delayedQueue
      ensures match Accept(data)
              case Err(e) => r == Err(e) && Snapshot() == old(Snapshot())
              case Ok(fields) =>
                if fault.AddFails? then r == Err(Infrastructure) && Snapshot() == old(Snapshot())
                else r == Ok(())
                     && Snapshot() == old(Snapshot())[DELAYED := old(Snapshot())[DELAYED].Added(chosen, fields, delayMs)]
    {
      if !ValidJobData(data) {
        return Err(Validation);
      }
      var serialized := Serialize(data);
      if serialized.Err? || !serialized.value.Obj? || fault.AddFails? {
        return Err(Infrastructure);
      }
      delayedQueue.Add(chosen, serialized.value.fields, delayMs);
      r := Ok(());
    }

    method TakeOut(id: Id, fault: Fault) returns (r: Result<Value, Failure>)
      requires Valid()
      modifies mainQueue, delayedQueue, dlqQueue
      ensures match Find(old(Snapshot()), id)
              case None => r == Err(NotFound) && Snapshot() == old(Snapshot())
              case Some((l, i)) =>
                if fault.RemoveFails? then r == Err(Backend) && Snapshot() == old(Snapshot())
                else r == Ok(ParseDates(Obj(old(Snapshot())[l].jobs[i].data), outOfRange))
                     && Snapshot() == old(Snapshot())[l := old(Snapshot())[l].Removed(i)]
    {
      var found := FindJob(id);
      if found.None? {
        return Err(NotFound);
      }
      var pair := found.value;
      var l, i := pair.0, pair.1;
      var queue := [mainQueue, delayedQueue, dlqQueue][l];
      assert queue.Snapshot() == Snapshot()[l];
      var data := Deserialize(Obj(queue.jobs[i].data), outOfRange);
      if fault.RemoveFails? {
        return Err(Backend);
      }
      queue.Remove(i);
      r := Ok(data.value);
    }

    method MoveToDelayed(id: Id, delayMs: int, fault: Fault) returns (r: Result<(), Failure>)
      requires Valid()
      modifies mainQueue, delayedQueue, dlqQueue
      ensures (Snapshot(), r) == Moved(old(Snapshot()), ToDelayed(id, delayMs), fault, outOfRange)
    {
      var data := TakeOut(id, fault);
      if data.Err? {
        return Err(data.error);
      }
      r := EnqueueDelayedJob(data.value, delayMs, None, fault);
    }

    method AddToDlq(data: Value, reason: string, now: int, fault: Fault) returns (r: Result<(), Failure>)
      requires Valid()
      modifies dlqQueue
      ensures match Incoming(ToDlq(Auto(0), reason, now), data)
              case Err(e) => r == Err(e) && Snapshot() == old(Snapshot())
              case Ok(fields) =>
                if fault.AddFails? then r == Err(Backend) && Snapshot() == old(Snapshot())
                else r == Ok(()) && Snapshot() == old(Snapshot())[DLQ := old(Snapshot())[DLQ].Added(None, fields, 0)]
    {
      var serialized := Serialize(data);
      if serialized.Err? || !serialized.value.Obj? {
        return Err(InvalidInstant);
      }
      if fault.AddFails? {
        return Err(Backend);
      }
      dlqQueue.Add(None, DeadLettered(serialized.value.fields, reason, now), 0);
      r := Ok(());
    }

    method MoveToDlq(id: Id, reason: string, now: int, fault: Fault) returns (r: Result<(), Failure>)
      requires Valid()
      modifies mainQueue, delayedQueue, dlqQueue
      ensures (Snapshot(), r) == Moved(old(Snapshot()), ToDlq(id, reason, now), fault, outOfRange)
    {
      var data := TakeOut(id, fault);
      if data.Err? {
        return Err(data.error);
      }
      r := AddToDlq(data.value, reason, now, fault);
    }
  }

  // ---- Conservation ----

  /** The data of a job without the two keys that dead-lettering sets. */
  function Core(data: Fields): Fields {
    map k <- data | k != "dlqReason" && k != "dlqAt" :: data[k]
  }

  function Whole(data: Fields): Fields {
    data
  }

  /** How many jobs of a queue look like x through view. */
  function Count(jobs: seq<Stored>, view: Fields -> Fields, x: Fields): nat {
    if jobs == [] then 0 else (if view(jobs[0].data) == x then 1 else 0) + Count(jobs[1..], view, x)
  }

  function CountAll(lanes: Lanes, view: Fields -> Fields, x: Fields): nat {
    Count(lanes[0].jobs, view, x) + Count(lanes[1].jobs, view, x) + Count(lanes[2].jobs, view, x)
  }

  function Size(lanes: Lanes): nat {
    |lanes[0].jobs| + |lanes[1].jobs| + |lanes[2].jobs|
  }

  /** The two states hold the same job data through view, with multiplicity, over all three queues. */
  ghost predicate SameJobs(a: Lanes, b: Lanes, view: Fields -> Fields) {
    forall x :: CountAll(a, view, x) == CountAll(b, view, x)
  }

  lemma {:induction false} CountSplit(a: seq<Stored>, b: seq<Stored>, view: Fields -> Fields, x: Fields)
    ensures Count(a + b, view, x) == Count(a, view, x) + Count(b, view, x)
  {
    if a == [] {
      assert a + b == b;
    } else {
      assert (a + b)[1..] == a[1..] + b;
      CountSplit(a[1..], b, view, x);
    }
  }

  lemma CountRemoved(lane: Lane, i: nat, view: Fields -> Fields, x: Fields)
    requires i < |lane.jobs|
    ensures Count(lane.jobs, view, x)
         == Count(lane.Removed(i).jobs, view, x) + if view(lane.jobs[i].data) == x then 1 else 0
  {
    CountSplit(lane.jobs[..i], lane.jobs[i..], view, x);
    CountSplit(lane.jobs[..i], lane.jobs[i + 1..], view, x);
    assert lane.jobs == lane.jobs[..i] + lane.jobs[i..];
    assert lane.jobs[i..][1..] == lane.jobs[i + 1..];
  }

  lemma CountAdded(lane: Lane, data: Fields, delay: int, view: Fields -> Fields, x: Fields)
    ensures Count(lane.Added(None, data, delay).jobs, view, x)
         == Count(lane.jobs, view, x) + if view(data) == x then 1 else 0
  {
    var job := Stored(Auto(lane.next), data, delay);
    CountSplit(lane.jobs, [job], view, x);
    assert [job][1..] == [];
  }

  lemma TakenOut(lanes: Lanes, l: nat, i: nat, view: Fields -> Fields, x: Fields)
    requires l < 3 && i < |lanes[l].jobs|
    ensures CountAll(lanes, view, x)
         == CountAll(lanes[l := lanes[l].Removed(i)], view, x) + if view(lanes[l].jobs[i].data) == x then 1 else 0
    ensures Size(lanes) == Size(lanes[l := lanes[l].Removed(i)]) + 1
  {
    CountRemoved(lanes[l], i, view, x);
  }

  lemma PutIn(lanes: Lanes, l: nat, data: Fields, delay: int, view: Fields -> Fields, x: Fields)
    requires l < 3
    ensures CountAll(lanes[l := lanes[l].Added(None, data, delay)], view, x)
         == CountAll(lanes, view, x) + if view(data) == x then 1 else 0
    ensures Size(lanes[l := lanes[l].Added(None, data, delay)]) == Size(lanes) + 1
  {
    CountAdded(lanes[l], data, delay, view, x);
  }

  function DataOf(lanes: Lanes, id: Id): Fields
    requires Find(lanes, id).Some?
  {
    var place := Find(lanes, id).value;
    lanes[place.0].jobs[place.1].data
  }

  /** What a faultless move that finds its job does to the count: the old data leaves, the new data, if any, enters. */
  lemma MoveCount(lanes: Lanes, move: Move, view: Fields -> Fields, x: Fields, outOfRange: string -> IsoDate.Time)
    requires Find(lanes, move.id).Some?
    ensures var data := DataOf(lanes, move.id);
            var moved := Moved(lanes, move, NoFault, outOfRange);
            var incoming := Incoming(move, ParseDates(Obj(data), outOfRange));
            && moved.1 == (if incoming.Ok? then Ok(()) else Err(incoming.error))
            && CountAll(moved.0, view, x) + (if view(data) == x then 1 else 0)
               == CountAll(lanes, view, x) + (if incoming.Ok? && view(incoming.value) == x then 1 else 0)
            && Size(moved.0) + 1 == Size(lanes) + if incoming.Ok? then 1 else 0
  {
    var pair := Find(lanes, move.id).value;
    var l, i := pair.0, pair.1;
    TakenOut(lanes, l, i, view, x);
    FinishedCount(lanes[l := lanes[l].Removed(i)], move, Incoming(move, ParseDates(Obj(lanes[l].jobs[i].data), outOfRange)),
                  view, x);
  }

  lemma FinishedCount(without: Lanes, move: Move, incoming: Result<Fields, Failure>, view: Fields -> Fields, x: Fields)
    ensures var finished := Finished(without, move, incoming, NoFault);
            && finished.1 == (if incoming.Ok? then Ok(()) else Err(incoming.error))
            && CountAll(finished.0, view, x)
               == CountAll(without, view, x) + (if incoming.Ok? && view(incoming.value) == x then 1 else 0)
            && Size(finished.0) == Size(without) + if incoming.Ok? then 1 else 0
  {
    if incoming.Ok? {
      var target := if move.ToDelayed? then DELAYED else DLQ;
      var delay := if move.ToDelayed? then move.delayMs else 0;
      PutIn(without, target, incoming.value, delay, view, x);
    }
  }

  /** Seen through view, a faultless move conserves the jobs exactly when what goes in looks like what came out. */
  lemma MoveKeepsJobs(lanes: Lanes, move: Move, view: Fields -> Fields, outOfRange: string -> IsoDate.Time)
    requires Find(lanes, move.id).Some?
    ensures var data := DataOf(lanes, move.id);
            var incoming := Incoming(move, ParseDates(Obj(data), outOfRange));
            SameJobs(Moved(lanes, move, NoFault, outOfRange).0, lanes, view)
            <==> incoming.Ok? && view(incoming.value) == view(data)
  {
    var data := DataOf(lanes, move.id);
    var incoming := Incoming(move, ParseDates(Obj(data), outOfRange));
    forall x
      ensures CountAll(Moved(lanes, move, NoFault, outOfRange).0, view, x) + (if view(data) == x then 1 else 0)
           == CountAll(lanes, view, x) + (if incoming.Ok? && view(incoming.value) == x then 1 else 0)
    {
      MoveCount(lanes, move, view, x, outOfRange);
    }
    if !(incoming.Ok? && view(incoming.value) == view(data)) {
      assert CountAll(Moved(lanes, move, NoFault, outOfRange).0, view, view(data)) + 1 == CountAll(lanes, view, view(data));
    }
  }

  /** Reading the job and taking it in again gives the same data exactly when every instant-shaped string in it is
      canonical and the delivery id is not of that shape, in which case it would come back as an instant. */
  lemma AcceptedAgain(data: Fields, outOfRange: string -> IsoDate.Time)
    requires ValidJobData(Obj(data))
    ensures Accept(ParseDates(Obj(data), outOfRange)) == Ok(data)
       <==> Leaves(Obj(data), SurvivesReading) && !IsoDate.IsoShaped(data["deliveryId"].s)
  {
    SerializeDeserialize(Obj(data), outOfRange);
    var parsed := ParseDates(Obj(data), outOfRange);
    assert parsed.fields.Keys == data.Keys;
  }

  /** A faultless move to the delayed queue conserves the job data over the three queues exactly when the data survives
      reading; otherwise the job is altered on the way or, when the move fails, lost. */
  lemma MoveToDelayedConserves(lanes: Lanes, id: Id, delayMs: int, outOfRange: string -> IsoDate.Time)
    requires Find(lanes, id).Some? && ValidJobData(Obj(DataOf(lanes, id)))
    ensures var data := DataOf(lanes, id);
            var moved := Moved(lanes, ToDelayed(id, delayMs), NoFault, outOfRange);
            && (SameJobs(moved.0, lanes, Whole)
                <==> Leaves(Obj(data), SurvivesReading) && !IsoDate.IsoShaped(data["deliveryId"].s))
            && Size(moved.0) == Size(lanes) - (if moved.1.Ok? then 0 else 1)
  {
    var data := DataOf(lanes, id);
    MoveCount(lanes, ToDelayed(id, delayMs), Whole, data, outOfRange);
    MoveKeepsJobs(lanes, ToDelayed(id, delayMs), Whole, outOfRange);
    AcceptedAgain(data, outOfRange);
  }

  /** The value can be read and written again, though perhaps not to the same text. */
  predicate Rewritable(v: Value, outOfRange: string -> IsoDate.Time) {
    Serialize(ParseDates(v, outOfRange)).Ok?
  }

  /** The keys that dead-lettering overwrites need only be writable; the others must survive reading. */
  predicate SurvivesDeadLettering(data: Fields, outOfRange: string -> IsoDate.Time) {
    forall k <- data ::
      if k == "dlqReason" || k == "dlqAt" then Rewritable(data[k], outOfRange) else Leaves(data[k], SurvivesReading)
  }

  /** A faultless move to the dead-letter queue conserves the jobs, apart from the two keys it sets, exactly when the
      rest of the data survives reading and what it overwrites can be written at all. */
  lemma MoveToDlqConserves(lanes: Lanes, id: Id, reason: string, now: int, outOfRange: string -> IsoDate.Time)
    requires Find(lanes, id).Some?
    ensures var data := DataOf(lanes, id);
            var moved := Moved(lanes, ToDlq(id, reason, now), NoFault, outOfRange);
            && (SameJobs(moved.0, lanes, Core) <==> SurvivesDeadLettering(data, outOfRange))
            && Size(moved.0) == Size(lanes) - (if moved.1.Ok? then 0 else 1)
  {
    var data := DataOf(lanes, id);
    MoveCount(lanes, ToDlq(id, reason, now), Core, Core(data), outOfRange);
    MoveKeepsJobs(lanes, ToDlq(id, reason, now), Core, outOfRange);
    DeadLetteredCore(data, reason, now, outOfRange);
  }

  /** Rereading an object works key by key. */
  lemma RereadFields(data: Fields, outOfRange: string -> IsoDate.Time)
    ensures var serialized := Serialize(ParseDates(Obj(data), outOfRange));
            && (serialized.Ok? <==> forall k <- data :: Rewritable(data[k], outOfRange))
            && (serialized.Ok? ==>
                  && serialized.value.Obj? && serialized.value.fields.Keys == data.Keys
                  && forall k <- data :: Serialize(ParseDates(data[k], outOfRange)) == Ok(serialized.value.fields[k]))
  {
    var parsed := ParseDates(Obj(data), outOfRange).fields;
    assert parsed.Keys == data.Keys;
    assert forall k <- data :: parsed[k] == ParseDates(data[k], outOfRange);
  }

  lemma CoresAgree(a: Fields, b: Fields)
    requires a.Keys == b.Keys
    ensures Core(a) == Core(b) <==> forall k <- b | k != "dlqReason" && k != "dlqAt" :: a[k] == b[k]
  {
    if Core(a) == Core(b) {
      forall k <- b | k != "dlqReason" && k != "dlqAt"
        ensures a[k] == b[k]
      {
        assert Core(a)[k] == Core(b)[k];
      }
    }
  }

  lemma DeadLetteringHidden(back: Fields, reason: string, now: int)
    ensures Core(DeadLettered(back, reason, now)) == Core(back)
  {
  }

  lemma DeadLetteredCore(data: Fields, reason: string, now: int, outOfRange: string -> IsoDate.Time)
    ensures var incoming := Incoming(ToDlq(Auto(0), reason, now), ParseDates(Obj(data), outOfRange));
            incoming.Ok? && Core(incoming.value) == Core(data) <==> SurvivesDeadLettering(data, outOfRange)
  {
    RereadFields(data, outOfRange);
    var serialized := Serialize(ParseDates(Obj(data), outOfRange));
    if serialized.Ok? {
      var back := serialized.value.fields;
      DeadLetteringHidden(back, reason, now);
      CoresAgree(back, data);
      RereadKeys(data, back, outOfRange);
    } else {
      var k :| k in data && !Rewritable(data[k], outOfRange);
      SerializeDeserialize(data[k], outOfRange);
    }
  }

  lemma RereadKeys(data: Fields, back: Fields, outOfRange: string -> IsoDate.Time)
    requires back.Keys == data.Keys
    requires forall k <- data :: Serialize(ParseDates(data[k], outOfRange)) == Ok(back[k])
    ensures (forall k <- data | k != "dlqReason" && k != "dlqAt" :: back[k] == data[k])
       <==> SurvivesDeadLettering(data, outOfRange)
  {
    forall k <- data
      ensures back[k] == data[k] <==> Leaves(data[k], SurvivesReading)
    {
      SerializeDeserialize(data[k], outOfRange);
    }
  }

  /** Exactly what enqueueing refuses as invalid, and what as a failure of the infrastructure. */
  lemma AcceptExactly(data: Value)
    ensures Accept(data) == Err(Validation)
       <==> !(data.Obj? && "deliveryId" in data.fields && data.fields["deliveryId"].Str?
              && (exists c <- data.fields["deliveryId"].s :: !TrimmedAway(c)) && "payload" in data.fields)
    ensures Accept(data) == Err(Infrastructure)
       <==> Accept(data) != Err(Validation) && !Leaves(data, ValidInstant)
    ensures Accept(data).Ok? || Accept(data) == Err(Validation) || Accept(data) == Err(Infrastructure)
  {
    SerializeSucceeds(data);
  }

  // ---- Where a moved job goes ----

  /** The lanes before and after a move that took the job from lane `from` to lane `to`: the lane it left is one
      shorter, the lane it entered one longer and ends with the job, and every other job stays in its lane. */
  ghost predicate Shifted(before: Lanes, after: Lanes, id: Id, from: nat, to: nat, fields: Fields, delay: int)
    requires from < 3 && to < 3
  {
    && (forall l :: 0 <= l < 3 ==>
          |after[l].jobs| == |before[l].jobs| - (if l == from then 1 else 0) + (if l == to then 1 else 0))
    && |after[to].jobs| > 0 && after[to].jobs[|after[to].jobs| - 1] == Stored(Auto(before[to].next), fields, delay)
    && (forall l :: 0 <= l < 3 ==> forall job <- before[l].jobs :: job.id != id ==> job in after[l].jobs)
  }

  lemma OthersStay(lane: Lane, i: nat, job: Stored)
    requires i < |lane.jobs| && job in lane.jobs && job.id != lane.jobs[i].id
    ensures job in lane.Removed(i).jobs
  {
    var k :| 0 <= k < |lane.jobs| && lane.jobs[k] == job;
    assert k < i ==> lane.Removed(i).jobs[k] == job;
    assert k > i ==> lane.Removed(i).jobs[k - 1] == job;
  }

  lemma Shift(before: Lanes, without: Lanes, from: nat, i: nat, to: nat, fields: Fields, delay: int)
    requires from < 3 && i < |before[from].jobs| && to < 3 && without == before[from := before[from].Removed(i)]
    ensures var after := without[to := without[to].Added(None, fields, delay)];
            Shifted(before, after, before[from].jobs[i].id, from, to, fields, delay)
  {
    forall l, job | 0 <= l < 3 && job in before[l].jobs && job.id != before[from].jobs[i].id
      ensures job in without[l].jobs
    {
      if l == from {
        OthersStay(before[from], i, job);
      }
    }
  }

  /** A faultless move that succeeds puts the job at the end of the delayed queue with the given delay, or of the
      dead-letter queue without one, and takes it out of the queue it was found in. */
  lemma MoveGoesWhere(lanes: Lanes, move: Move, outOfRange: string -> IsoDate.Time)
    requires Find(lanes, move.id).Some? && Moved(lanes, move, NoFault, outOfRange).1.Ok?
    ensures var moved := Moved(lanes, move, NoFault, outOfRange);
            var from := Find(lanes, move.id).value.0;
            var incoming := Incoming(move, ParseDates(Obj(DataOf(lanes, move.id)), outOfRange));
            && incoming.Ok?
            && match move
               case ToDelayed(_, delayMs) => Shifted(lanes, moved.0, move.id, from, 1, incoming.value, delayMs)
               case ToDlq(_, _, _) => Shifted(lanes, moved.0, move.id, from, 2, incoming.value, 0)
  {
    var from, i := Find(lanes, move.id).value.0, Find(lanes, move.id).value.1;
    var without: Lanes := lanes[from := lanes[from].Removed(i)];
    var fields := Incoming(move, ParseDates(Obj(DataOf(lanes, move.id)), outOfRange)).value;
    match move
    case ToDelayed(_, delayMs) => Shift(lanes, without, from, i, DELAYED, fields, delayMs);
    case ToDlq(_, _, _) => Shift(lanes, without, from, i, DLQ, fields, 0);
  }

  /** A dead-lettered job says why and when. */
  lemma DeadLetterSays(lanes: Lanes, id: Id, reason: string, now: int, outOfRange: string -> IsoDate.Time)
    requires Find(lanes, id).Some? && Moved(lanes, ToDlq(id, reason, now), NoFault, outOfRange).1.Ok?
    ensures var dlq := Moved(lanes, ToDlq(id, reason, now), NoFault, outOfRange).0[2].jobs;
            && |dlq| > 0
            && var data := dlq[|dlq| - 1].data;
               && "dlqReason" in data && data["dlqReason"] == Str(reason)
               && "dlqAt" in data && data["dlqAt"] == Str(IsoDate.Text(now))
  {
    MoveGoesWhere(lanes, ToDlq(id, reason, now), outOfRange);
  }

  // ---- Runs ----

  /** Job data that any move carries over whole. */
  predicate Sound(data: Fields) {
    ValidJobData(Obj(data)) && Leaves(Obj(data), SurvivesReading) && !IsoDate.IsoShaped(data["deliveryId"].s)
  }

  predicate AllSound(lanes: Lanes) {
    forall lane <- lanes, job <- lane.jobs :: Sound(job.data)
  }

  /** A reason that reads as text, given at a time of the years 0 to 9999. */
  predicate PlainMove(move: Move) {
    move.ToDlq? ==> SurvivesReading(Str(move.reason)) && IsoDate.InCommonYears(move.now)
  }

  lemma DeadLetteredSound(data: Fields, reason: string, now: int)
    requires Sound(data) && SurvivesReading(Str(reason)) && IsoDate.InCommonYears(now)
    ensures Sound(DeadLettered(data, reason, now))
  {
    IsoDate.ParseOfText(now, _ => IsoDate.Invalid);
    assert SurvivesReading(Str(IsoDate.Text(now)));
    StaysSound(data, "dlqReason", Str(reason));
    StaysSound(data["dlqReason" := Str(reason)], "dlqAt", Str(IsoDate.Text(now)));
  }

  lemma StaysSound(data: Fields, key: string, v: Value)
    requires Sound(data) && key != "deliveryId" && v.Str? && SurvivesReading(v)
    ensures Sound(data[key := v])
  {
  }

  lemma IncomingSound(move: Move, data: Fields, outOfRange: string -> IsoDate.Time)
    requires Sound(data) && PlainMove(move)
    ensures var incoming := Incoming(move, ParseDates(Obj(data), outOfRange));
            incoming.Ok? && Sound(incoming.value) && Core(incoming.value) == Core(data)
  {
    match move
    case ToDelayed(_, _) => AcceptedAgain(data, outOfRange);
    case ToDlq(_, reason, now) =>
      SerializeDeserialize(Obj(data), outOfRange);
      DeadLetteredSound(data, reason, now);
      DeadLetteringHidden(data, reason, now);
  }

  lemma FinishedSound(without: Lanes, move: Move, incoming: Result<Fields, Failure>)
    requires AllSound(without) && (incoming.Ok? ==> Sound(incoming.value))
    ensures AllSound(Finished(without, move, incoming, NoFault).0)
  {
  }

  /** What a faultless move of a sound job puts in, seen from the lanes. */
  lemma FoundSound(lanes: Lanes, move: Move, outOfRange: string -> IsoDate.Time)
    requires AllSound(lanes) && PlainMove(move) && Find(lanes, move.id).Some?
    ensures var data := DataOf(lanes, move.id);
            var incoming := Incoming(move, ParseDates(Obj(data), outOfRange));
            incoming.Ok? && Sound(incoming.value) && Core(incoming.value) == Core(data)
  {
    var pair := Find(lanes, move.id).value;
    var l, i := pair.0, pair.1;
    assert lanes[l].jobs[i] in lanes[l].jobs;
    IncomingSound(move, DataOf(lanes, move.id), outOfRange);
  }

  lemma RemovedSound(lanes: Lanes, l: nat, i: nat)
    requires AllSound(lanes) && l < 3 && i < |lanes[l].jobs|
    ensures AllSound(lanes[l := lanes[l].Removed(i)])
  {
    var without := lanes[l := lanes[l].Removed(i)];
    forall lane <- without, job <- lane.jobs
      ensures Sound(job.data)
    {
      assert lane in lanes || (lane == lanes[l].Removed(i) && job in lanes[l].jobs);
    }
  }

  lemma MoveKeepsSound(lanes: Lanes, move: Move, outOfRange: string -> IsoDate.Time)
    requires AllSound(lanes) && PlainMove(move)
    ensures AllSound(Moved(lanes, move, NoFault, outOfRange).0)
  {
    var found := Find(lanes, move.id);
    if found.Some? {
      var pair := found.value;
      var l, i := pair.0, pair.1;
      FoundSound(lanes, move, outOfRange);
      RemovedSound(lanes, l, i);
      FinishedSound(lanes[l := lanes[l].Removed(i)], move,
                    Incoming(move, ParseDates(Obj(DataOf(lanes, move.id)), outOfRange)));
    }
  }

  lemma MoveKeepsCores(lanes: Lanes, move: Move, outOfRange: string -> IsoDate.Time)
    requires AllSound(lanes) && PlainMove(move)
    ensures var lanes' := Moved(lanes, move, NoFault, outOfRange).0;
            SameJobs(lanes', lanes, Core) && Size(lanes') == Size(lanes)
  {
    if Find(lanes, move.id).Some? {
      FoundSound(lanes, move, outOfRange);
      MoveKeepsJobs(lanes, move, Core, outOfRange);
      MoveCount(lanes, move, Core, DataOf(lanes, move.id), outOfRange);
    }
  }

  function RunMoves(lanes: Lanes, moves: seq<Move>, outOfRange: string -> IsoDate.Time): Lanes
    decreases |moves|
  {
    if moves == [] then lanes
    else RunMoves(Moved(lanes, moves[0], NoFault, outOfRange).0, moves[1..], outOfRange)
  }

  /** Over any run of faultless moves, to and fro and of ids that are not there, no job is lost, duplicated or altered
      apart from the two keys of dead-lettering. */
  lemma {:induction false} MovesConserveJobs(lanes: Lanes, moves: seq<Move>, outOfRange: string -> IsoDate.Time)
    requires AllSound(lanes) && forall m <- moves :: PlainMove(m)
    ensures var end := RunMoves(lanes, moves, outOfRange);
            AllSound(end) && SameJobs(end, lanes, Core) && Size(end) == Size(lanes)
    decreases |moves|
  {
    if moves != [] {
      MoveKeepsSound(lanes, moves[0], outOfRange);
      MoveKeepsCores(lanes, moves[0], outOfRange);
      MovesConserveJobs(Moved(lanes, moves[0], NoFault, outOfRange).0, moves[1..], outOfRange);
    }
  }
}
