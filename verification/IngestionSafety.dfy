/** What holds of the ingestion stores over any sequential run: with a failure at any write, a cache entry is backed by
    everything it promises; without failures, each request is ingested once. */
module IngestionSafety {
  import opened Prelude
  import opened Validation
  import opened Ingestion

  /** Destinations of a result among some pairs, in order. */
  function Of(pairs: seq<Pair>, id: string): seq<string> {
    if pairs == [] then []
    else Of(pairs[..|pairs| - 1], id)
         + (if pairs[|pairs| - 1].resultId == id then [pairs[|pairs| - 1].destinationId] else [])
  }

  function Pairs(id: string, ids: seq<string>): seq<Pair> {
    seq(|ids|, i requires 0 <= i < |ids| => Pair(id, ids[i]))
  }

  lemma {:induction false} OfAppended(pairs: seq<Pair>, id: string, ids: seq<string>, other: string)
    ensures Of(pairs + Pairs(id, ids), other) == Of(pairs, other) + if id == other then ids else []
  {
    var all := pairs + Pairs(id, ids);
    if ids == [] {
      assert all == pairs;
    } else {
      assert all[..|all| - 1] == pairs + Pairs(id, ids[..|ids| - 1]);
      OfAppended(pairs, id, ids[..|ids| - 1], other);
      assert ids == ids[..|ids| - 1] + [ids[|ids| - 1]];
    }
  }

  lemma {:induction false} OfNone(pairs: seq<Pair>, id: string)
    requires forall p <- pairs :: p.resultId != id
    ensures Of(pairs, id) == []
  {
    if pairs != [] {
      OfNone(pairs[..|pairs| - 1], id);
    }
  }

  /** The stores after the first k writes of a fresh ingestion. */
  function Written(s: Store, c: Call, k: nat): Store
    requires ValidRequest(c.request)
  {
    var matched := c.Matched();
    var n := |matched|;
    if k == 0 then s
    else Store(
      s.results[c.id := RowOf(c.request)],
      s.deliveries + Pairs(c.id, matched[..Min(k - 1, n)]),
      s.jobs + Pairs(c.id, matched[..Max(0, Min(k - 1 - n, n))]),
      if k < 2 * n + 2 then s.cache
      else s.cache[Key(TripleOf(c.request)) := Entry(Response(c.id, n, c.now), c.now + CACHE_TTL)])
  }

  lemma PairsSnoc(s: seq<Pair>, id: string, ids: seq<string>, i: nat)
    requires i < |ids|
    ensures s + Pairs(id, ids[..i + 1]) == s + Pairs(id, ids[..i]) + [Pair(id, ids[i])]
  {
  }

  lemma GrowsByDelivery(s: Store, c: Call, k: nat)
    requires ValidRequest(c.request) && 1 <= k <= |c.Matched()|
    ensures Perform(Written(s, c, k), SaveDelivery(Pair(c.id, c.Matched()[k - 1]))) == Written(s, c, k + 1)
  {
    PairsSnoc(s.deliveries, c.id, c.Matched(), k - 1);
  }

  lemma GrowsByJob(s: Store, c: Call, i: nat)
    requires ValidRequest(c.request) && i < |c.Matched()|
    ensures var k := 1 + |c.Matched()| + i;
            Perform(Written(s, c, k), Enqueue(Pair(c.id, c.Matched()[i]))) == Written(s, c, k + 1)
  {
    PairsSnoc(s.jobs, c.id, c.Matched(), i);
  }

  function WriteAt(c: Call, k: nat): Effect
    requires ValidRequest(c.request) && k <= 2 * |c.Matched()| + 1
  {
    var n := |c.Matched()|;
    if k == 0 then SaveResult(c.id, RowOf(c.request))
    else if k <= n then SaveDelivery(Pair(c.id, c.Matched()[k - 1]))
    else if k <= 2 * n then Enqueue(Pair(c.id, c.Matched()[k - 1 - n]))
    else CacheSet(Key(TripleOf(c.request)), Entry(Response(c.id, n, c.now), c.now + CACHE_TTL))
  }

  lemma WritesAt(c: Call, k: nat)
    requires ValidRequest(c.request) && k < |c.Writes()|
    ensures c.Writes()[k] == WriteAt(c, k)
  {
  }

  lemma GrowsByResult(s: Store, c: Call)
    requires ValidRequest(c.request)
    ensures Perform(s, SaveResult(c.id, RowOf(c.request))) == Written(s, c, 1)
  {
    assert s.deliveries + Pairs(c.id, c.Matched()[..0]) == s.deliveries;
    assert s.jobs + Pairs(c.id, c.Matched()[..0]) == s.jobs;
  }

  lemma WrittenGrows(s: Store, c: Call, k: nat)
    requires ValidRequest(c.request) && k <= 2 * |c.Matched()| + 1
    ensures Perform(Written(s, c, k), WriteAt(c, k)) == Written(s, c, k + 1)
  {
    var n := |c.Matched()|;
    if k == 0 {
      GrowsByResult(s, c);
    } else if k <= n {
      GrowsByDelivery(s, c, k);
    } else if k <= 2 * n {
      GrowsByJob(s, c, k - 1 - n);
    }
  }

  lemma {:induction false} WritesTakeHold(s: Store, c: Call, k: nat)
    requires ValidRequest(c.request) && k <= |c.Writes()|
    ensures PerformAll(s, c.Writes()[..k]) == Written(s, c, k)
  {
    if k > 0 {
      WritesTakeHold(s, c, k - 1);
      OneMore(s, c.Writes(), k - 1);
      WritesAt(c, k - 1);
      WrittenGrows(s, c, k - 1);
    }
  }

  // ---- Crash safety ----

  /** The cache entry under key was made by call c, and everything it promises is in the stores: the result, exactly
      the deliveries to the destinations matched by then, and a job for each. */
  ghost predicate Backed(s: Store, key: string, c: Call) {
    && key in s.cache && ValidRequest(c.request) && key == Key(TripleOf(c.request))
    && c.id in s.results && s.results[c.id] == RowOf(c.request)
    && s.cache[key].response == Response(c.id, |c.Matched()|, c.now)
    && Of(s.deliveries, c.id) == c.Matched()
    && Of(s.jobs, c.id) == c.Matched()
  }

  /** Deliveries and jobs belong to stored results. */
  ghost predicate Rooted(s: Store) {
    && (forall p <- s.deliveries :: p.resultId in s.results)
    && (forall p <- s.jobs :: p.resultId in s.results)
  }

  ghost predicate CrashSafe(s: Store, history: seq<Call>) {
    Rooted(s) && forall key <- s.cache :: exists c <- history :: Backed(s, key, c)
  }

  lemma BackedLasts(s: Store, c: Call, k: nat, key: string, earlier: Call)
    requires ValidRequest(c.request) && k <= |c.Writes()|
    requires Rooted(s) && c.id !in s.results && Backed(s, key, earlier)
    requires k < |c.Writes()| || key != Key(TripleOf(c.request))
    ensures Backed(Written(s, c, k), key, earlier)
  {
    if k > 0 {
      var n := |c.Matched()|;
      OfAppended(s.deliveries, c.id, c.Matched()[..Min(k - 1, n)], earlier.id);
      OfAppended(s.jobs, c.id, c.Matched()[..Max(0, Min(k - 1 - n, n))], earlier.id);
    }
  }

  lemma BackedBegins(s: Store, c: Call)
    requires ValidRequest(c.request) && Rooted(s) && c.id !in s.results
    ensures Backed(Written(s, c, |c.Writes()|), Key(TripleOf(c.request)), c)
  {
    var matched := c.Matched();
    assert matched[..|matched|] == matched;
    OfNone(s.deliveries, c.id);
    OfNone(s.jobs, c.id);
    OfAppended(s.deliveries, c.id, matched, c.id);
    OfAppended(s.jobs, c.id, matched, c.id);
  }

  lemma WrittenIsRooted(s: Store, c: Call, k: nat)
    requires ValidRequest(c.request) && Rooted(s)
    ensures Rooted(Written(s, c, k))
  {
  }

  lemma EntryIsBacked(s: Store, history: seq<Call>, c: Call, k: nat, key: string)
    requires ValidRequest(c.request) && k <= |c.Writes()| && CrashSafe(s, history) && c.id !in s.results
    requires key in Written(s, c, k).cache
    ensures exists e <- history + [c] :: Backed(Written(s, c, k), key, e)
  {
    if k == |c.Writes()| && key == Key(TripleOf(c.request)) {
      BackedBegins(s, c);
      assert c in history + [c];
    } else {
      var e :| e in history && Backed(s, key, e);
      BackedLasts(s, c, k, key, e);
      assert e in history + [c];
    }
  }

  lemma WrittenIsCrashSafe(s: Store, history: seq<Call>, c: Call, k: nat)
    requires ValidRequest(c.request) && k <= |c.Writes()| && CrashSafe(s, history) && c.id !in s.results
    ensures CrashSafe(Written(s, c, k), history + [c])
  {
    WrittenIsRooted(s, c, k);
    forall key <- Written(s, c, k).cache
      ensures exists e <- history + [c] :: Backed(Written(s, c, k), key, e)
    {
      EntryIsBacked(s, history, c, k, key);
    }
  }

  lemma HistoryGrows(s: Store, history: seq<Call>, c: Call)
    requires CrashSafe(s, history)
    ensures CrashSafe(s, history + [c])
  {
    forall key <- s.cache
      ensures exists e <- history + [c] :: Backed(s, key, e)
    {
      var e :| e in history && Backed(s, key, e);
      assert e in history + [c];
    }
  }

  /** A call changes nothing, or leaves the stores after some prefix of its writes. */
  lemma EffectOfCall(s: Store, c: Call)
    ensures var s' := Ingested(s, c).0;
            s' == s || (ValidRequest(c.request) && exists k: nat :: k <= |c.Writes()| && s' == Written(s, c, k))
  {
    if ValidRequest(c.request) {
      var plan := c.Writes();
      assert plan[..|plan|] == plan;
      var k: nat := if c.fault.After? then Min(c.fault.k, |plan|) else |plan|;
      WritesTakeHold(s, c, k);
    }
  }

  lemma CallIsCrashSafe(s: Store, history: seq<Call>, c: Call)
    requires CrashSafe(s, history) && c.id !in s.results
    ensures CrashSafe(Ingested(s, c).0, history + [c])
  {
    EffectOfCall(s, c);
    if Ingested(s, c).0 == s {
      HistoryGrows(s, history, c);
    } else {
      var k: nat :| k <= |c.Writes()| && Ingested(s, c).0 == Written(s, c, k);
      WrittenIsCrashSafe(s, history, c, k);
    }
  }

  function Run(s: Store, calls: seq<Call>): Store
    decreases |calls|
  {
    if calls == [] then s else Run(Ingested(s, calls[0]).0, calls[1..])
  }

  /** No call's new identifier is that of a result already stored. */
  predicate FreshIds(s: Store, calls: seq<Call>)
    decreases |calls|
  {
    calls == [] || (calls[0].id !in s.results && FreshIds(Ingested(s, calls[0]).0, calls[1..]))
  }

  /** In every sequential run, with a failure allowed at every read and write, each cache entry is backed by one of the
      calls made. */
  lemma {:induction false} RunsAreCrashSafe(s: Store, history: seq<Call>, calls: seq<Call>)
    requires CrashSafe(s, history) && FreshIds(s, calls)
    ensures CrashSafe(Run(s, calls), history + calls)
    decreases |calls|
  {
    if calls == [] {
      assert history + calls == history;
    } else {
      CallIsCrashSafe(s, history, calls[0]);
      RunsAreCrashSafe(Ingested(s, calls[0]).0, history + [calls[0]], calls[1..]);
      assert history + [calls[0]] + calls[1..] == history + calls;
    }
  }

  const EMPTY: Store := Store(map[], [], [], map[])

  /** The same from empty stores, for one entry: the number a caller is given on a hit is the number of deliveries
      stored for that result. */
  lemma CacheEntriesAreBacked(calls: seq<Call>, key: string)
    requires FreshIds(EMPTY, calls) && key in Run(EMPTY, calls).cache
    ensures exists c <- calls :: Backed(Run(EMPTY, calls), key, c)
    ensures var end := Run(EMPTY, calls);
            var response := end.cache[key].response;
            response.resultId in end.results && |Of(end.deliveries, response.resultId)| == response.deliveryCount
  {
    RunsAreCrashSafe(EMPTY, [], calls);
    assert [] + calls == calls;
  }

  // ---- Deduplication ----

  /** Valid requests, no failures, all inside one cache window. */
  predicate SmoothCall(c: Call, start: int) {
    ValidRequest(c.request) && c.fault.NoFault? && start <= c.now < start + CACHE_TTL
  }

  predicate Smooth(calls: seq<Call>, start: int) {
    forall c <- calls :: SmoothCall(c, start)
  }

  /** The cache knows exactly the requests seen, for the rest of the window, and there is one result for each. */
  ghost predicate Deduplicated(s: Store, seen: set<Triple>, start: int) {
    && Remembers(s, seen) && KnowsOnly(s, seen, start) && |s.results| == |seen|
  }

  ghost predicate Remembers(s: Store, seen: set<Triple>) {
    forall t <- seen :: ColonFree(t) && Key(t) in s.cache
  }

  ghost predicate KnowsOnly(s: Store, seen: set<Triple>, start: int) {
    forall key <- s.cache :: start + CACHE_TTL <= s.cache[key].expiresAt && IsKeyOf(key, seen)
  }

  ghost predicate IsKeyOf(key: string, seen: set<Triple>) {
    exists t <- seen :: key == Key(t)
  }

  /** A request seen before hits the cache; one not seen misses, since its key is its own. */
  lemma HitIffSeen(s: Store, seen: set<Triple>, start: int, t: Triple, now: int)
    requires Deduplicated(s, seen, start) && ColonFree(t) && now < start + CACHE_TTL
    ensures Cached(s, Key(t), now).Some? <==> t in seen
  {
    if Key(t) in s.cache {
      assert IsKeyOf(Key(t), seen);
      var u :| u in seen && Key(t) == Key(u);
      ColonFreeKeys(t, u);
    }
  }

  /** The stores after a fresh ingestion, as far as deduplication sees them. */
  lemma MissEffect(s: Store, c: Call)
    requires ValidRequest(c.request) && c.fault.NoFault?
    requires Cached(s, Key(TripleOf(c.request)), c.now).None?
    ensures var response := Response(c.id, |c.Matched()|, c.now);
            var after := Ingested(s, c);
            && after.1 == Ok(response)
            && after.0.results == s.results[c.id := RowOf(c.request)]
            && after.0.cache == s.cache[Key(TripleOf(c.request)) := Entry(response, c.now + CACHE_TTL)]
  {
    var plan := c.Writes();
    assert plan[..|plan|] == plan;
    WritesTakeHold(s, c, |plan|);
  }

  lemma FreshKey(s: Store, seen: set<Triple>, start: int, t: Triple)
    requires Deduplicated(s, seen, start) && ColonFree(t) && t !in seen
    ensures Key(t) !in s.cache
  {
    if Key(t) in s.cache {
      assert IsKeyOf(Key(t), seen);
      var u :| u in seen && Key(t) == Key(u);
      ColonFreeKeys(t, u);
    }
  }

  lemma SeenFirst(s: Store, s': Store, seen: set<Triple>, start: int, t: Triple, id: string, row: ResultRow, e: Entry)
    requires Deduplicated(s, seen, start) && ColonFree(t) && t !in seen
    requires id !in s.results && start + CACHE_TTL <= e.expiresAt
    requires s'.results == s.results[id := row] && s'.cache == s.cache[Key(t) := e]
    ensures Deduplicated(s', seen + {t}, start) && CacheKept(s, s')
  {
    FreshKey(s, seen, start, t);
    KnowsOneMore(s, s', seen, start, t, e);
    OneMoreKey(s.results, id, row);
    OneMoreElement(seen, t);
  }

  lemma OneMoreKey(m: map<string, ResultRow>, key: string, row: ResultRow)
    requires key !in m
    ensures |m[key := row]| == |m| + 1
  {
    assert m[key := row].Keys == m.Keys + {key};
  }

  lemma OneMoreElement(seen: set<Triple>, t: Triple)
    requires t !in seen
    ensures |seen + {t}| == |seen| + 1
  {
  }

  lemma KnowsOneMore(s: Store, s': Store, seen: set<Triple>, start: int, t: Triple, e: Entry)
    requires Remembers(s, seen) && KnowsOnly(s, seen, start) && ColonFree(t) && start + CACHE_TTL <= e.expiresAt
    requires s'.cache == s.cache[Key(t) := e]
    ensures Remembers(s', seen + {t}) && KnowsOnly(s', seen + {t}, start)
  {
    forall key <- s'.cache
      ensures IsKeyOf(key, seen + {t})
    {
      assert key == Key(t) || IsKeyOf(key, seen);
    }
  }

  /** The call succeeds, and the cache then holds its answer. */
  ghost predicate Answered(s: Store, c: Call) {
    var after := Ingested(s, c);
    var key := Key(TripleOf(c.request));
    after.1.Ok? && key in after.0.cache && after.0.cache[key].response == after.1.value
  }

  ghost predicate CacheKept(s: Store, s': Store) {
    forall k <- s.cache :: k in s'.cache && s'.cache[k] == s.cache[k]
  }

  lemma SmoothStep(s: Store, seen: set<Triple>, start: int, c: Call)
    requires Deduplicated(s, seen, start) && SmoothCall(c, start) && c.id !in s.results
    ensures Deduplicated(Ingested(s, c).0, seen + {TripleOf(c.request)}, start)
    ensures Answered(s, c) && (TripleOf(c.request) in seen ==> Ingested(s, c).0 == s)
    ensures CacheKept(s, Ingested(s, c).0)
  {
    var t := TripleOf(c.request);
    ValidIsColonFree(c.request);
    HitIffSeen(s, seen, start, t, c.now);
    if t in seen {
      assert seen + {t} == seen;
    } else {
      MissEffect(s, c);
      SeenFirst(s, Ingested(s, c).0, seen, start, t, c.id, RowOf(c.request),
                Entry(Response(c.id, |c.Matched()|, c.now), c.now + CACHE_TTL));
    }
  }

  function Triples(calls: seq<Call>): set<Triple> {
    set c <- calls :: TripleOf(c.request)
  }

  lemma TriplesSplit(seen: set<Triple>, calls: seq<Call>)
    requires calls != []
    ensures seen + {TripleOf(calls[0].request)} + Triples(calls[1..]) == seen + Triples(calls)
  {
    assert calls == [calls[0]] + calls[1..];
  }

  lemma {:induction false} SmoothRun(s: Store, seen: set<Triple>, start: int, calls: seq<Call>)
    requires Deduplicated(s, seen, start) && Smooth(calls, start) && FreshIds(s, calls)
    ensures Deduplicated(Run(s, calls), seen + Triples(calls), start)
    ensures CacheKept(s, Run(s, calls))
    decreases |calls|
  {
    if calls == [] {
      assert seen + Triples(calls) == seen;
    } else {
      SmoothStep(s, seen, start, calls[0]);
      SmoothRun(Ingested(s, calls[0]).0, seen + {TripleOf(calls[0].request)}, start, calls[1..]);
      TriplesSplit(seen, calls);
    }
  }

  function Responses(s: Store, calls: seq<Call>): (r: seq<Result<Response, Error>>)
    ensures |r| == |calls|
    decreases |calls|
  {
    if calls == [] then [] else [Ingested(s, calls[0]).1] + Responses(Ingested(s, calls[0]).0, calls[1..])
  }

  /** Each answer is what the cache holds for the request at the end of the run. */
  lemma {:induction false} AnswersAgree(s: Store, seen: set<Triple>, start: int, calls: seq<Call>, i: nat)
    requires Deduplicated(s, seen, start) && Smooth(calls, start) && FreshIds(s, calls) && i < |calls|
    ensures var key := Key(TripleOf(calls[i].request));
            key in Run(s, calls).cache && Responses(s, calls)[i] == Ok(Run(s, calls).cache[key].response)
    decreases |calls|
  {
    var next := Ingested(s, calls[0]).0;
    var seen' := seen + {TripleOf(calls[0].request)};
    SmoothStep(s, seen, start, calls[0]);
    if i == 0 {
      SmoothRun(next, seen', start, calls[1..]);
    } else {
      AnswersAgree(next, seen', start, calls[1..], i - 1);
    }
  }

  lemma FromEmpty(start: int, calls: seq<Call>)
    requires Smooth(calls, start) && FreshIds(EMPTY, calls)
    ensures Deduplicated(Run(EMPTY, calls), Triples(calls), start)
  {
    SmoothRun(EMPTY, {}, start, calls);
    assert {} + Triples(calls) == Triples(calls);
  }

  lemma AnswerFromEmpty(start: int, calls: seq<Call>, i: nat)
    requires Smooth(calls, start) && FreshIds(EMPTY, calls) && i < |calls|
    ensures var key := Key(TripleOf(calls[i].request));
            key in Run(EMPTY, calls).cache && Responses(EMPTY, calls)[i] == Ok(Run(EMPTY, calls).cache[key].response)
  {
    AnswersAgree(EMPTY, {}, start, calls, i);
  }

  /** Over any failure-free run of valid requests inside one cache window, from empty stores: the stored results number
      exactly the distinct (emailId, agentId, agentVersion) triples, and equal triples get equal answers. */
  lemma IngestionDeduplicates(start: int, calls: seq<Call>, i: nat, j: nat)
    requires Smooth(calls, start) && FreshIds(EMPTY, calls) && i < |calls| && j < |calls|
    ensures |Run(EMPTY, calls).results| == |Triples(calls)|
    ensures Responses(EMPTY, calls)[i].Ok?
    ensures TripleOf(calls[i].request) == TripleOf(calls[j].request)
       ==> Responses(EMPTY, calls)[i] == Responses(EMPTY, calls)[j]
  {
    FromEmpty(start, calls);
    AnswerFromEmpty(start, calls, i);
    AnswerFromEmpty(start, calls, j);
  }

  lemma RepeatWritesNothing(s: Store, seen: set<Triple>, start: int, repeat: Call)
    requires Deduplicated(s, seen, start) && SmoothCall(repeat, start) && TripleOf(repeat.request) in seen
    ensures Ingested(s, repeat).0 == s
  {
    ValidIsColonFree(repeat.request);
    HitIffSeen(s, seen, start, TripleOf(repeat.request), repeat.now);
  }

  /** A repeat anywhere in such a run writes nothing. */
  lemma RepeatsWriteNothing(start: int, calls: seq<Call>, repeat: Call)
    requires Smooth(calls, start) && SmoothCall(repeat, start) && FreshIds(EMPTY, calls)
    requires TripleOf(repeat.request) in Triples(calls)
    ensures Ingested(Run(EMPTY, calls), repeat).0 == Run(EMPTY, calls)
  {
    FromEmpty(start, calls);
    RepeatWritesNothing(Run(EMPTY, calls), Triples(calls), start, repeat);
  }

  // ---- After the window ----

  /** The key is not in the cache, or its entry has run out. */
  predicate Forgotten(s: Store, c: Call) {
    var key := Key(TripleOf(c.request));
    key !in s.cache || s.cache[key].expiresAt <= c.now
  }

  /** A valid call whose key is absent or expired is ingested anew, and its entry lives for 24 hours. */
  lemma ForgottenIsIngested(s: Store, c: Call)
    requires ValidRequest(c.request) && c.fault.NoFault? && Forgotten(s, c)
    ensures var after := Ingested(s, c);
            var key := Key(TripleOf(c.request));
            && after.1.Ok? && after.1.value.resultId == c.id && after.1.value.timestamp == c.now
            && after.0.results.Keys == s.results.Keys + {c.id}
            && key in after.0.cache && after.0.cache[key].expiresAt == c.now + 24 * 3600 * 1000
            && after.0.cache[key].response.resultId == c.id
  {
    MissEffect(s, c);
  }

  /** Exactly the calls whose key is cached and live are answered from the cache. */
  lemma HitExactly(s: Store, c: Call)
    requires ValidRequest(c.request) && c.fault.NoFault? && c.id !in s.results
    ensures Ingested(s, c).0 == s <==> !Forgotten(s, c)
  {
    if Forgotten(s, c) {
      ForgottenIsIngested(s, c);
      assert c.id in Ingested(s, c).0.results;
    }
  }

  lemma TwoCalls(s: Store, a: Call, b: Call)
    ensures Run(s, [a, b]) == Ingested(Ingested(s, a).0, b).0
    ensures Responses(s, [a, b]) == [Ingested(s, a).1, Ingested(Ingested(s, a).0, b).1]
  {
    assert [a, b][1..] == [b] && [b][1..] == [];
    assert Run(Ingested(s, a).0, [b]) == Ingested(Ingested(s, a).0, b).0;
    assert Responses(Ingested(s, a).0, [b]) == [Ingested(Ingested(s, a).0, b).1];
  }

  /** The same triple again once its entry has run out leaves a second result: from any stores that have forgotten it,
      two calls at least 24 hours apart store two results and answer with one each. */
  lemma RepeatAfterWindow(s: Store, first: Call, second: Call)
    requires ValidRequest(first.request) && first.fault.NoFault? && Forgotten(s, first)
    requires ValidRequest(second.request) && second.fault.NoFault? && TripleOf(second.request) == TripleOf(first.request)
    requires second.now >= first.now + 24 * 3600 * 1000
    ensures Run(s, [first, second]).results.Keys == s.results.Keys + {first.id, second.id}
    ensures var answers := Responses(s, [first, second]);
            && answers[0].Ok? && answers[0].value.resultId == first.id
            && answers[1].Ok? && answers[1].value.resultId == second.id
  {
    ForgottenIsIngested(s, first);
    ForgottenIsIngested(Ingested(s, first).0, second);
    TwoCalls(s, first, second);
  }

  /** What is stored of a request: the trimmed ids, the version and the payload as they came. */
  lemma StoredFields(s: Store, c: Call)
    requires ValidRequest(c.request) && c.fault.NoFault? && Forgotten(s, c)
    ensures var results := Ingested(s, c).0.results;
            && c.id in results
            && results[c.id].emailId == Trim(c.request.emailId) && results[c.id].agentId == Trim(c.request.agentId)
            && results[c.id].agentVersion == c.request.agentVersion && results[c.id].payload == c.request.resultPayload
  {
    MissEffect(s, c);
  }
}
