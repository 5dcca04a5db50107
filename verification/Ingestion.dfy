/** Ingesting one result: the writes to the result table, the delivery table, the queue and the idempotency cache, in
    that order, with a failure possible at each. */
module Ingestion {
  import opened Prelude
  import opened JobSerializer
  import opened Validation

  const CACHE_TTL: int := 86400000

  type Filters = Option<seq<(string, Value)>>

  datatype Destination = Destination(id: string, enabled: bool, eventFilters: Filters)

  datatype Response = Response(resultId: string, deliveryCount: nat, timestamp: int)

  datatype Entry = Entry(response: Response, expiresAt: int)

  datatype ResultRow = ResultRow(emailId: string, agentId: string, agentVersion: string, payload: Value)

  // A delivery or a job of one result for one destination.
  datatype Pair = Pair(resultId: string, destinationId: string)

  datatype Store = Store(
    results: map<string, ResultRow>, deliveries: seq<Pair>, jobs: seq<Pair>, cache: map<string, Entry>)

  datatype Effect =
    | SaveResult(id: string, row: ResultRow)
    | SaveDelivery(pair: Pair)
    | Enqueue(pair: Pair)
    | CacheSet(key: string, entry: Entry)

  // After(k): the first k writes take hold and the call throws, whether the next one failed or only its reply was lost.
  datatype Fault = NoFault | ReadFails | After(k: nat)

  datatype Error = Invalid | Failed

  // ---- Routing ----

  /** What the filters see: the result's own fields, overridden by the payload's. */
  function Event(r: Request): map<string, Value>
    requires ValidRequest(r)
  {
    map["emailId" := Str(Trim(r.emailId)), "agentId" := Str(Trim(r.agentId)),
        "confidenceScore" := Num(r.confidenceScore.value)] + r.resultPayload.fields
  }

  /** What a filter key sees: the payload's field of that name if it has one, else the result's own. */
  lemma EventFields(r: Request, key: string)
    requires ValidRequest(r)
    ensures var event, payload := Event(r), r.resultPayload.fields;
            if key in payload then key in event && event[key] == payload[key]
            else if key == "emailId" then key in event && event[key] == Str(Trim(r.emailId))
            else if key == "agentId" then key in event && event[key] == Str(Trim(r.agentId))
            else if key == "confidenceScore" then key in event && event[key] == Num(r.confidenceScore.value)
            else key !in event
  {
  }

  /** Strict equality with a filter value: an array, an object or an instant equals nothing. */
  predicate StrictlyEqual(event: map<string, Value>, key: string, filter: Value) {
    key in event && event[key] == filter && !filter.Arr? && !filter.Obj? && !filter.Date?
  }

  predicate Matches(filters: Filters, event: map<string, Value>) {
    filters.Some? ==> forall f <- filters.value :: StrictlyEqual(event, f.0, f.1)
  }

  method MatchesEventFilter(filters: Filters, event: map<string, Value>) returns (ok: bool)
    ensures ok <==> Matches(filters, event)
  {
    if filters.None? || |filters.value| == 0 {
      return true;
    }
    for i := 0 to |filters.value|
      invariant forall j :: 0 <= j < i ==> StrictlyEqual(event, filters.value[j].0, filters.value[j].1)
    {
      var pair := filters.value[i];
      var key, filterValue := pair.0, pair.1;
      if !StrictlyEqual(event, key, filterValue) {
        return false;
      }
    }
    ok := true;
  }

  /** The destination's id if it is enabled and its filters match. */
  function Routed(d: Destination, event: map<string, Value>): seq<string> {
    if d.enabled && Matches(d.eventFilters, event) then [d.id] else []
  }

  function MatchedIds(destinations: seq<Destination>, event: map<string, Value>): (ids: seq<string>)
    ensures forall id :: id in ids <==>
              exists d <- destinations :: d.id == id && d.enabled && Matches(d.eventFilters, event)
  {
    if destinations == [] then [] else Routed(destinations[0], event) + MatchedIds(destinations[1..], event)
  }

  /** Routing filters: it keeps the order of the destinations, and names each as often as it is listed. */
  lemma {:induction false} MatchedInOrder(a: seq<Destination>, d: Destination, b: seq<Destination>, event: map<string, Value>)
    ensures MatchedIds(a + [d] + b, event) == MatchedIds(a, event) + Routed(d, event) + MatchedIds(b, event)
  {
    var all := a + [d] + b;
    if a == [] {
      assert all[0] == d && all[1..] == b;
    } else {
      MatchedInOrder(a[1..], d, b, event);
      assert all[0] == a[0] && all[1..] == a[1..] + [d] + b;
      Regroup(Routed(a[0], event), MatchedIds(a[1..], event), Routed(d, event), MatchedIds(b, event));
    }
  }

  lemma Regroup(w: seq<string>, x: seq<string>, y: seq<string>, z: seq<string>)
    ensures w + (x + y + z) == w + x + y + z
  {
  }

  // ---- The writes ----

  function Perform(s: Store, effect: Effect): Store {
    match effect
    case SaveResult(id, row) => s.(results := s.results[id := row])
    case SaveDelivery(pair) => s.(deliveries := s.deliveries + [pair])
    case Enqueue(pair) => s.(jobs := s.jobs + [pair])
    case CacheSet(key, entry) => s.(cache := s.cache[key := entry])
  }

  function PerformAll(s: Store, effects: seq<Effect>): Store {
    if effects == [] then s else Perform(PerformAll(s, effects[..|effects| - 1]), effects[|effects| - 1])
  }

  lemma OneMore(s: Store, plan: seq<Effect>, k: nat)
    requires k < |plan|
    ensures PerformAll(s, plan[..k + 1]) == Perform(PerformAll(s, plan[..k]), plan[k])
  {
    assert plan[..k + 1][..k] == plan[..k];
  }

  function RowOf(r: Request): ResultRow {
    ResultRow(Trim(r.emailId), Trim(r.agentId), r.agentVersion, r.resultPayload)
  }

  /** The writes of a fresh ingestion, in the program's order. */
  function Plan(r: Request, id: string, matched: seq<string>, now: int): (plan: seq<Effect>)
    ensures |plan| == 2 * |matched| + 2
  {
    [SaveResult(id, RowOf(r))]
    + seq(|matched|, i requires 0 <= i < |matched| => SaveDelivery(Pair(id, matched[i])))
    + seq(|matched|, i requires 0 <= i < |matched| => Enqueue(Pair(id, matched[i])))
    + [CacheSet(Key(TripleOf(r)), Entry(Response(id, |matched|, now), now + CACHE_TTL))]
  }

  lemma PlanShape(r: Request, id: string, matched: seq<string>, now: int)
    ensures Planned(Plan(r, id, matched, now), r, id, matched, now)
  {
  }

  /** The plan, write by write. */
  ghost predicate Planned(plan: seq<Effect>, r: Request, id: string, matched: seq<string>, now: int) {
    var n := |matched|;
    && |plan| == 2 * n + 2 && plan[0] == SaveResult(id, RowOf(r))
    && (forall i :: 0 <= i < n ==> plan[1 + i] == SaveDelivery(Pair(id, matched[i])))
    && (forall i :: 0 <= i < n ==> plan[1 + n + i] == Enqueue(Pair(id, matched[i])))
    && plan[2 * n + 1] == CacheSet(Key(TripleOf(r)), Entry(Response(id, n, now), now + CACHE_TTL))
  }

  function Cached(s: Store, key: string, now: int): Option<Response> {
    if key in s.cache && now < s.cache[key].expiresAt then Some(s.cache[key].response) else None
  }

  // One call of ingest: id is the identifier a new result would get.
  datatype Call = Call(request: Request, destinations: seq<Destination>, id: string, now: int, fault: Fault)
  {
    function Matched(): seq<string>
      requires ValidRequest(request)
    {
      MatchedIds(destinations, Event(request))
    }

    function Writes(): seq<Effect>
      requires ValidRequest(request)
    {
      Plan(request, id, Matched(), now)
    }
  }

  function Ingested(s: Store, c: Call): (Store, Result<Response, Error>) {
    if !ValidRequest(c.request) then (s, Err(Invalid))
    else if c.fault.ReadFails? then (s, Err(Failed))
    else
      var hit := Cached(s, Key(TripleOf(c.request)), c.now);
      var plan := c.Writes();
      if hit.Some? then (s, Ok(hit.value))
      else if c.fault.After? then (PerformAll(s, plan[..Min(c.fault.k, |plan|)]), Err(Failed))
      else (PerformAll(s, plan), Ok(Response(c.id, |c.Matched()|, c.now)))
  }

  // ---- The program ----

  class IngestResultService {
    var results: map<string, ResultRow>
    var deliveries: seq<Pair>
    var jobs: seq<Pair>
    var cache: map<string, Entry>

    function Snapshot(): Store
      reads this
    {
      Store(results, deliveries, jobs, cache)
    }

    constructor ()
      ensures Snapshot() == Store(map[], [], [], map[])
    {
      results := map[];
      deliveries := [];
      jobs := [];
      cache := map[];
    }

    /** The fault, if any, does not come before this many writes. */
    predicate Reaches(fault: Fault, done: nat) {
      fault.After? ==> done <= fault.k
    }

    method SaveDeliveries(id: string, matched: seq<string>, fault: Fault, done: nat,
                          ghost before: Store, ghost plan: seq<Effect>)
        returns (ok: bool)
      requires done + |matched| <= |plan|
      requires forall i :: 0 <= i < |matched| ==> plan[done + i] == SaveDelivery(Pair(id, matched[i]))
      requires Snapshot() == PerformAll(before, plan[..done]) && Reaches(fault, done)
      modifies this
      ensures ok ==> Snapshot() == PerformAll(before, plan[..done + |matched|]) && Reaches(fault, done + |matched|)
      ensures !ok ==> fault.After? && fault.k < done + |matched| && Snapshot() == PerformAll(before, plan[..fault.k])
    {
      for i := 0 to |matched|
        invariant Snapshot() == PerformAll(before, plan[..done + i]) && Reaches(fault, done + i)
      {
        if fault == After(done + i) {
          return false;
        }
        deliveries := deliveries + [Pair(id, matched[i])];
        OneMore(before, plan, done + i);
      }
      ok := true;
    }

    method EnqueueDeliveries(id: string, matched: seq<string>, fault: Fault, done: nat,
                             ghost before: Store, ghost plan: seq<Effect>)
        returns (ok: bool)
      requires done + |matched| <= |plan|
      requires forall i :: 0 <= i < |matched| ==> plan[done + i] == Enqueue(Pair(id, matched[i]))
      requires Snapshot() == PerformAll(before, plan[..done]) && Reaches(fault, done)
      modifies this
      ensures ok ==> Snapshot() == PerformAll(before, plan[..done + |matched|]) && Reaches(fault, done + |matched|)
      ensures !ok ==> fault.After? && fault.k < done + |matched| && Snapshot() == PerformAll(before, plan[..fault.k])
    {
      for i := 0 to |matched|
        invariant Snapshot() == PerformAll(before, plan[..done + i]) && Reaches(fault, done + i)
      {
        if fault == After(done + i) {
          return false;
        }
        jobs := jobs + [Pair(id, matched[i])];
        OneMore(before, plan, done + i);
      }
      ok := true;
    }

    method Ingest(c: Call) returns (r: Result<Response, Error>)
      modifies this
      ensures (Snapshot(), r) == Ingested(old(Snapshot()), c)
    {
      if !ValidRequest(c.request) {
        return Err(Invalid);
      }
      if c.fault.ReadFails? {
        return Err(Failed);
      }
      var key := Key(TripleOf(c.request));
      var hit := Cached(Snapshot(), key, c.now);
      if hit.Some? {
        return Ok(hit.value);
      }
      PlanShape(c.request, c.id, c.Matched(), c.now);
      r := Persist(c, c.Matched(), c.Writes());
      assert c.Writes()[..|c.Writes()|] == c.Writes();
    }

    /** The database part: the result, then its deliveries. */
    method SaveRows(c: Call, matched: seq<string>, ghost plan: seq<Effect>) returns (ok: bool)
      requires Planned(plan, c.request, c.id, matched, c.now)
      modifies this
      ensures ok ==> Snapshot() == PerformAll(old(Snapshot()), plan[..1 + |matched|]) && Reaches(c.fault, 1 + |matched|)
      ensures !ok ==> c.fault.After? && c.fault.k < 1 + |matched|
                      && Snapshot() == PerformAll(old(Snapshot()), plan[..c.fault.k])
    {
      ghost var before := Snapshot();
      if c.fault == After(0) {
        return false;
      }
      results := results[c.id := RowOf(c.request)];
      OneMore(before, plan, 0);
      ok := SaveDeliveries(c.id, matched, c.fault, 1, before, plan);
    }

    method Persist(c: Call, matched: seq<string>, ghost plan: seq<Effect>) returns (r: Result<Response, Error>)
      requires Planned(plan, c.request, c.id, matched, c.now)
      modifies this
      ensures r == if c.fault.After? then Err(Failed) else Ok(Response(c.id, |matched|, c.now))
      ensures Snapshot() == PerformAll(old(Snapshot()),
                                       plan[..if c.fault.After? then Min(c.fault.k, |plan|) else |plan|])
    {
      ghost var before := Snapshot();
      var n := |matched|;
      var ok := SaveRows(c, matched, plan);
      if ok {
        ok := EnqueueDeliveries(c.id, matched, c.fault, 1 + n, before, plan);
      }
      if !ok || c.fault == After(1 + n + n) {
        return Err(Failed);
      }
      var response := Response(c.id, n, c.now);
      cache := cache[Key(TripleOf(c.request)) := Entry(response, c.now + CACHE_TTL)];
      OneMore(before, plan, 1 + n + n);
      r := if c.fault.After? then Err(Failed) else Ok(response);
    }
  }
}
