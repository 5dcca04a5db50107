/** The dead-letter report: how often each error, destination and agent occurs, and the five most frequent of each. */
module FailureRanking {
  import opened Prelude

  datatype DeadLetter = DeadLetter(
    failureReason: Option<string>, lastError: Option<string>, destinationId: Option<string>, agentId: Option<string>)

  /** The first of the two that is a non-empty string, or else the default. */
  function Or(a: Option<string>, b: Option<string>, default: string): string {
    if a.Some? && a.value != "" then a.value
    else if b.Some? && b.value != "" then b.value
    else default
  }

  function ErrorOf(d: DeadLetter): string { Or(d.failureReason, d.lastError, "Unknown Error") }
  function DestinationOf(d: DeadLetter): string { Or(d.destinationId, None, "unknown") }
  function AgentOf(d: DeadLetter): string { Or(d.agentId, None, "unknown") }

  // Counts in the order in which their keys were first met.
  type Histogram = seq<(string, nat)>

  function Bump(h: Histogram, key: string): (r: Histogram) {
    if h == [] then [(key, 1)]
    else if h[0].0 == key then [(key, h[0].1 + 1)] + h[1..]
    else [h[0]] + Bump(h[1..], key)
  }

  function Tally(rows: seq<DeadLetter>, key: DeadLetter -> string): Histogram {
    if rows == [] then [] else Bump(Tally(rows[..|rows| - 1], key), key(rows[|rows| - 1]))
  }

  /** The count under key, or 0. */
  function At(h: Histogram, key: string): nat {
    if h == [] then 0 else if h[0].0 == key then h[0].1 else At(h[1..], key)
  }

  function Occurrences(rows: seq<DeadLetter>, key: DeadLetter -> string, k: string): nat {
    if rows == [] then 0
    else Occurrences(rows[..|rows| - 1], key, k) + if key(rows[|rows| - 1]) == k then 1 else 0
  }

  function Total(h: Histogram): nat {
    if h == [] then 0 else h[0].1 + Total(h[1..])
  }

  predicate Has(h: Histogram, key: string) {
    exists e <- h :: e.0 == key
  }

  ghost predicate Distinct(h: Histogram) {
    forall i, j :: 0 <= i < j < |h| ==> h[i].0 != h[j].0
  }

  // ---- Sorting: a stable sort by falling count ----

  function Insert(e: (string, nat), h: Histogram): Histogram {
    if h == [] || h[0].1 <= e.1 then [e] + h else [h[0]] + Insert(e, h[1..])
  }

  function SortByCount(h: Histogram): Histogram {
    if h == [] then [] else Insert(h[0], SortByCount(h[1..]))
  }

  function Top(h: Histogram): Histogram {
    SortByCount(h)[..Min(5, |SortByCount(h)|)]
  }

  ghost predicate Falling(h: Histogram) {
    forall i, j :: 0 <= i < j < |h| ==> h[i].1 >= h[j].1
  }

  class DlqMonitor {
    const rows: seq<DeadLetter>

    constructor (rows: seq<DeadLetter>)
      ensures this.rows == rows
    {
      this.rows := rows;
    }

    method AnalyzeFailures() returns (topErrors: Histogram, topDestinations: Histogram, topAgents: Histogram)
      ensures topErrors == Top(Tally(rows, ErrorOf))
      ensures topDestinations == Top(Tally(rows, DestinationOf))
      ensures topAgents == Top(Tally(rows, AgentOf))
    {
      var errors: Histogram, destinations: Histogram, agents: Histogram := [], [], [];
      for i := 0 to |rows|
        invariant errors == Tally(rows[..i], ErrorOf)
        invariant destinations == Tally(rows[..i], DestinationOf)
        invariant agents == Tally(rows[..i], AgentOf)
      {
        assert rows[..i + 1][..i] == rows[..i];
        errors := Bump(errors, ErrorOf(rows[i]));
        destinations := Bump(destinations, DestinationOf(rows[i]));
        agents := Bump(agents, AgentOf(rows[i]));
      }
      assert rows[..|rows|] == rows;
      topErrors, topDestinations, topAgents := Top(errors), Top(destinations), Top(agents);
    }
  }

  // ---- Counting ----

  lemma {:induction false} BumpCounts(h: Histogram, key: string, k: string)
    ensures At(Bump(h, key), k) == At(h, k) + if k == key then 1 else 0
    ensures Total(Bump(h, key)) == Total(h) + 1
    ensures Has(Bump(h, key), k) <==> Has(h, k) || k == key
  {
    if h != [] && h[0].0 != key {
      BumpCounts(h[1..], key, k);
      assert Bump(h, key)[1..] == Bump(h[1..], key);
      HasSplit(h, k);
      HasSplit(Bump(h, key), k);
    } else if h != [] {
      assert Bump(h, key)[1..] == h[1..];
      HasSplit(h, k);
      HasSplit(Bump(h, key), k);
    }
  }

  lemma HasSplit(h: Histogram, k: string)
    requires h != []
    ensures Has(h, k) <==> h[0].0 == k || Has(h[1..], k)
  {
    assert h == [h[0]] + h[1..];
  }

  lemma {:induction false} BumpDistinct(h: Histogram, key: string)
    requires Distinct(h)
    ensures Distinct(Bump(h, key))
  {
    if h != [] && h[0].0 != key {
      BumpDistinct(h[1..], key);
      BumpCounts(h[1..], key, h[0].0);
      assert forall j :: 0 <= j < |h[1..]| ==> h[1..][j] == h[j + 1];
      var b := Bump(h[1..], key);
      assert forall j :: 0 <= j < |b| ==> b[j].0 != h[0].0;
    }
  }

  lemma {:induction false} BumpSize(h: Histogram, key: string)
    ensures |Bump(h, key)| == |h| + if Has(h, key) then 0 else 1
  {
    if h != [] {
      HasSplit(h, key);
      if h[0].0 != key {
        BumpSize(h[1..], key);
      }
    }
  }

  function Keys(rows: seq<DeadLetter>, key: DeadLetter -> string): set<string> {
    set r <- rows :: key(r)
  }

  /** There is one entry for each distinct key. */
  lemma {:induction false} TallySize(rows: seq<DeadLetter>, key: DeadLetter -> string)
    ensures |Tally(rows, key)| == |Keys(rows, key)|
    ensures forall k :: Has(Tally(rows, key), k) <==> k in Keys(rows, key)
  {
    if rows != [] {
      var rest, last := rows[..|rows| - 1], key(rows[|rows| - 1]);
      TallySize(rest, key);
      BumpSize(Tally(rest, key), last);
      forall k
        ensures Has(Tally(rows, key), k) <==> Has(Tally(rest, key), k) || k == last
      {
        BumpCounts(Tally(rest, key), last, k);
      }
      assert rows == rest + [rows[|rows| - 1]];
      assert Keys(rows, key) == Keys(rest, key) + {last};
    }
  }

  /** The histogram is right: distinct keys, true counts, and every row counted once. */
  lemma {:induction false} TallyCounts(rows: seq<DeadLetter>, key: DeadLetter -> string, k: string)
    ensures var h := Tally(rows, key);
            && Distinct(h) && Total(h) == |rows|
            && At(h, k) == Occurrences(rows, key, k) && (Has(h, k) <==> At(h, k) > 0)
  {
    if rows != [] {
      var rest := rows[..|rows| - 1];
      TallyCounts(rest, key, k);
      BumpCounts(Tally(rest, key), key(rows[|rows| - 1]), k);
      BumpDistinct(Tally(rest, key), key(rows[|rows| - 1]));
    }
  }

  lemma {:induction false} EntryIsAt(h: Histogram, e: (string, nat))
    requires Distinct(h) && e in h
    ensures At(h, e.0) == e.1
  {
    if h[0] != e {
      assert h == [h[0]] + h[1..];
      var j :| 0 <= j < |h| && h[j] == e;
      assert h[0].0 != h[j].0;
      EntryIsAt(h[1..], e);
    }
  }

  // ---- Ranking ----

  lemma {:induction false} InsertKeeps(e: (string, nat), h: Histogram)
    ensures multiset(Insert(e, h)) == multiset(h) + multiset{e}
  {
    if h != [] && h[0].1 > e.1 {
      InsertKeeps(e, h[1..]);
      assert h == [h[0]] + h[1..];
    }
  }

  lemma {:induction false} InsertSorts(e: (string, nat), h: Histogram)
    requires Falling(h)
    ensures Falling(Insert(e, h)) && multiset(Insert(e, h)) == multiset(h) + multiset{e}
  {
    InsertKeeps(e, h);
    if h != [] && h[0].1 > e.1 {
      InsertSorts(e, h[1..]);
      var rest := Insert(e, h[1..]);
      forall i | 0 <= i < |rest|
        ensures rest[i].1 <= h[0].1
      {
        assert rest[i] in multiset(rest);
      }
    }
  }

  lemma {:induction false} SortSorts(h: Histogram)
    ensures Falling(SortByCount(h)) && multiset(SortByCount(h)) == multiset(h)
  {
    if h != [] {
      SortSorts(h[1..]);
      InsertSorts(h[0], SortByCount(h[1..]));
      assert h == [h[0]] + h[1..];
    }
  }

  lemma {:induction false} SortDistinct(h: Histogram)
    requires Distinct(h)
    ensures Distinct(SortByCount(h))
  {
    if h != [] {
      SortDistinct(h[1..]);
      SortSorts(h[1..]);
      var rest := SortByCount(h[1..]);
      forall e <- rest
        ensures e.0 != h[0].0
      {
        assert e in multiset(rest);
        assert e in h[1..];
      }
      InsertDistinct(h[0], rest);
    }
  }

  lemma {:induction false} InsertDistinct(e: (string, nat), h: Histogram)
    requires Distinct(h) && forall x <- h :: x.0 != e.0
    ensures Distinct(Insert(e, h))
  {
    if h != [] && h[0].1 > e.1 {
      InsertDistinct(e, h[1..]);
      InsertKeeps(e, h[1..]);
      var rest := Insert(e, h[1..]);
      forall i | 0 <= i < |rest|
        ensures rest[i].0 != h[0].0
      {
        assert rest[i] in multiset(rest);
        assert rest[i] in h[1..] || rest[i] == e;
      }
    }
  }

  lemma PrefixHas(h: Histogram, n: nat, i: nat)
    requires n <= |h| && i < |h|
    ensures i >= n || Has(h[..n], h[i].0)
  {
    if i < n {
      assert h[..n][i] == h[i];
    }
  }

  lemma LeftOutIsLower(h: Histogram, k: string, e: (string, nat))
    requires Distinct(h) && Has(h, k) && e in Top(h) && !Has(Top(h), k)
    ensures At(h, k) <= e.1
  {
    var sorted := SortByCount(h);
    SortSorts(h);
    var x :| x in h && x.0 == k;
    EntryIsAt(h, x);
    assert x in multiset(sorted);
    var i :| 0 <= i < |sorted| && sorted[i] == x;
    var j :| 0 <= j < |Top(h)| && Top(h)[j] == e;
    PrefixHas(sorted, |Top(h)|, i);
  }

  lemma EntriesAreTrue(rows: seq<DeadLetter>, key: DeadLetter -> string, e: (string, nat))
    requires e in SortByCount(Tally(rows, key))
    ensures e.1 == Occurrences(rows, key, e.0) && e.1 > 0
  {
    var h := Tally(rows, key);
    SortSorts(h);
    assert e in multiset(SortByCount(h));
    TallyCounts(rows, key, e.0);
    EntryIsAt(h, e);
  }

  lemma TopShape(rows: seq<DeadLetter>, key: DeadLetter -> string)
    ensures var top := Top(Tally(rows, key));
            |top| == Min(5, |Keys(rows, key)|) && Falling(top) && Distinct(top)
  {
    var h := Tally(rows, key);
    SortSorts(h);
    TallySize(rows, key);
    TallyCounts(rows, key, "");
    SortDistinct(h);
    assert |SortByCount(h)| == |multiset(SortByCount(h))| == |multiset(h)| == |h|;
  }

  /** The report is right for every dead-letter list and each of its three keys: min(5, distinct) entries, with true
      counts that fall, no key twice, and nothing left out that occurs more often than something reported. */
  lemma RankingIsRight(rows: seq<DeadLetter>, key: DeadLetter -> string)
    ensures var top := Top(Tally(rows, key));
            && |top| == Min(5, |Keys(rows, key)|) && Falling(top) && Distinct(top)
            && (forall e <- top :: e.1 == Occurrences(rows, key, e.0) && e.1 > 0)
            && (forall k, e :: e in top && !Has(top, k) ==> Occurrences(rows, key, k) <= e.1)
  {
    var h := Tally(rows, key);
    TopShape(rows, key);
    forall e | e in Top(h)
      ensures e.1 == Occurrences(rows, key, e.0) && e.1 > 0
    {
      EntriesAreTrue(rows, key, e);
    }
    forall k, e | e in Top(h) && !Has(Top(h), k)
      ensures Occurrences(rows, key, k) <= e.1
    {
      TallyCounts(rows, key, k);
      if Has(h, k) {
        LeftOutIsLower(h, k, e);
      }
    }
  }

  /** What each report counts under: the failure reason, else the last error; the destination; the agent. */
  lemma KeysOf(d: DeadLetter)
    ensures ErrorOf(d) == if d.failureReason.Some? && d.failureReason.value != "" then d.failureReason.value
                          else if d.lastError.Some? && d.lastError.value != "" then d.lastError.value
                          else "Unknown Error"
    ensures DestinationOf(d) == if d.destinationId.Some? && d.destinationId.value != "" then d.destinationId.value
                                else "unknown"
    ensures AgentOf(d) == if d.agentId.Some? && d.agentId.value != "" then d.agentId.value else "unknown"
  {
  }
}
