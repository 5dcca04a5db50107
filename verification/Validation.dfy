/** What the ingestion service accepts, and the key it files a request under. */
module Validation {
  import opened Prelude
  import opened JobSerializer

  // metadataValid stands for the checks on the optional LLM metadata, payloadBytes for the length of the payload's JSON.
  datatype Request = Request(
    emailId: string, agentId: string, agentVersion: string, confidenceScore: Option<real>,
    resultPayload: Value, payloadBytes: nat, metadataValid: bool)

  const MAX_PAYLOAD_BYTES: nat := 10 * 1024 * 1024

  // ---- Character classes ----

  predicate Letter(c: char) {
    'a' <= c <= 'z' || 'A' <= c <= 'Z'
  }

  predicate Digit(c: char) {
    '0' <= c <= '9'
  }

  predicate AlphaNum(c: char) {
    Letter(c) || Digit(c)
  }

  predicate All(s: string, p: char -> bool) {
    forall c <- s :: p(c)
  }

  function TrimStart(s: string): string {
    if s != "" && TrimmedAway(s[0]) then TrimStart(s[1..]) else s
  }

  function TrimEnd(s: string): string {
    if s != "" && TrimmedAway(s[|s| - 1]) then TrimEnd(s[..|s| - 1]) else s
  }

  function Trim(s: string): string {
    TrimEnd(TrimStart(s))
  }

  lemma {:induction false} TrimStartDrops(s: string, c: char)
    requires c in s && !TrimmedAway(c)
    ensures c in TrimStart(s)
  {
    if s != "" && TrimmedAway(s[0]) {
      assert s == [s[0]] + s[1..];
      TrimStartDrops(s[1..], c);
    }
  }

  lemma {:induction false} TrimEndDrops(s: string, c: char)
    requires c in s && !TrimmedAway(c)
    ensures c in TrimEnd(s)
  {
    if s != "" && TrimmedAway(s[|s| - 1]) {
      assert s == s[..|s| - 1] + [s[|s| - 1]];
      TrimEndDrops(s[..|s| - 1], c);
    }
  }

  // ---- The identifiers ----

  predicate LocalPart(c: char) {
    AlphaNum(c) || c in ".!#$%&'*+/=?^_`{|}~-"
  }

  predicate LabelChar(c: char) {
    AlphaNum(c) || c == '-'
  }

  /** A domain label: letters, digits and inner hyphens, at most 63 characters. */
  predicate Label(s: string) {
    1 <= |s| <= 63 && All(s, LabelChar) && AlphaNum(s[0]) && AlphaNum(s[|s| - 1])
  }

  predicate Domain(s: string) {
    || Label(s)
    || exists dot: nat :: dot < |s| && s[dot] == '.' && Label(s[..dot]) && Domain(s[dot + 1..])
  }

  predicate Email(s: string) {
    exists at: nat :: 0 < at < |s| && s[at] == '@' && All(s[..at], LocalPart) && Domain(s[at + 1..])
  }

  predicate AgentChar(c: char) {
    AlphaNum(c) || c == '-' || c == '_' || c == '.'
  }

  predicate EmailId(s: string) {
    s != "" && Email(Trim(s))
  }

  predicate AgentId(s: string) {
    s != "" && 1 <= |Trim(s)| <= 255 && All(Trim(s), AgentChar)
  }

  predicate Numeral(s: string) {
    s != "" && All(s, Digit)
  }

  predicate TagChar(c: char) {
    AlphaNum(c) || c == '.'
  }

  predicate Core(s: string) {
    exists i: nat, j: nat :: i < j < |s| && s[i] == '.' == s[j]
                             && Numeral(s[..i]) && Numeral(s[i + 1..j]) && Numeral(s[j + 1..])
  }

  /** Three numbers joined by dots, then perhaps a hyphen and a tag. */
  predicate SemanticVersion(s: string) {
    || Core(s)
    || exists k: nat :: k + 1 < |s| && s[k] == '-' && Core(s[..k]) && All(s[k + 1..], TagChar)
  }

  predicate ValidRequest(r: Request) {
    && EmailId(r.emailId) && AgentId(r.agentId) && SemanticVersion(r.agentVersion)
    && r.confidenceScore.Some? && 0.0 <= r.confidenceScore.value <= 1.0
    && r.resultPayload.Obj? && r.payloadBytes <= MAX_PAYLOAD_BYTES && r.metadataValid
  }

  // ---- The key ----

  type Triple = (string, string, string)

  function TripleOf(r: Request): Triple {
    (r.emailId, r.agentId, r.agentVersion)
  }

  function Key(t: Triple): string {
    "idem:result:" + (t.0 + ":" + (t.1 + ":" + t.2))
  }

  lemma LabelHasNoColon(s: string)
    requires Label(s)
    ensures ':' !in s
  {
    assert forall c <- s :: LabelChar(c);
  }

  lemma {:induction false} DomainHasNoColon(s: string)
    requires Domain(s)
    ensures ':' !in s
    decreases |s|
  {
    if Label(s) {
      LabelHasNoColon(s);
    } else {
      var dot: nat :| dot < |s| && s[dot] == '.' && Label(s[..dot]) && Domain(s[dot + 1..]);
      DomainHasNoColon(s[dot + 1..]);
      LabelHasNoColon(s[..dot]);
      NoneAround(s, dot, ':');
    }
  }

  lemma NoneAround(s: string, at: nat, c: char)
    requires at < |s| && s[at] != c && c !in s[..at] && c !in s[at + 1..]
    ensures c !in s
  {
    assert s == s[..at] + [s[at]] + s[at + 1..];
  }

  lemma EmailIdHasNoColon(s: string)
    requires EmailId(s)
    ensures ':' !in s
  {
    var t := Trim(s);
    var at: nat :| 0 < at < |t| && t[at] == '@' && All(t[..at], LocalPart) && Domain(t[at + 1..]);
    DomainHasNoColon(t[at + 1..]);
    assert forall c <- t[..at] :: LocalPart(c);
    NoneAround(t, at, ':');
    ColonSurvivesTrim(s);
  }

  lemma AgentIdHasNoColon(s: string)
    requires AgentId(s)
    ensures ':' !in s
  {
    assert forall c <- Trim(s) :: AgentChar(c);
    ColonSurvivesTrim(s);
  }

  lemma ColonSurvivesTrim(s: string)
    ensures ':' in s ==> ':' in Trim(s)
  {
    if ':' in s {
      TrimStartDrops(s, ':');
      TrimEndDrops(TrimStart(s), ':');
    }
  }

  lemma ColonNotBefore(a: string, b: string, c: string, d: string)
    requires a + ":" + b == c + ":" + d && ':' !in c
    ensures |c| <= |a|
  {
    var s := a + ":" + b;
    assert s[|a|] == ':';
    assert s[..|c|] == c;
    assert forall k :: 0 <= k < |c| ==> s[k] == c[k];
  }

  lemma SplitUnique(a: string, b: string, c: string, d: string)
    requires a + ":" + b == c + ":" + d && ':' !in a && ':' !in c
    ensures a == c && b == d
  {
    var s := a + ":" + b;
    ColonNotBefore(a, b, c, d);
    ColonNotBefore(c, d, a, b);
    assert a == s[..|a|] && c == s[..|c|];
    assert b == s[|a| + 1..] && d == s[|c| + 1..];
  }

  predicate ColonFree(t: Triple) {
    ':' !in t.0 && ':' !in t.1
  }

  lemma ValidIsColonFree(r: Request)
    requires ValidRequest(r)
    ensures ColonFree(TripleOf(r))
  {
    EmailIdHasNoColon(r.emailId);
    AgentIdHasNoColon(r.agentId);
  }

  lemma ColonFreeKeys(t: Triple, u: Triple)
    requires ColonFree(t) && ColonFree(u) && Key(t) == Key(u)
    ensures t == u
  {
    var prefix := "idem:result:";
    var x := t.1 + ":" + t.2;
    var y := u.1 + ":" + u.2;
    assert Key(t)[|prefix|..] == t.0 + ":" + x;
    assert Key(u)[|prefix|..] == u.0 + ":" + y;
    SplitUnique(t.0, x, u.0, y);
    SplitUnique(t.1, t.2, u.1, u.2);
  }

  /** Over the accepted requests the key is injective: the ids it is joined from hold no colon. */
  lemma KeyInjective(r: Request, q: Request)
    requires ValidRequest(r) && ValidRequest(q)
    ensures Key(TripleOf(r)) == Key(TripleOf(q)) <==> TripleOf(r) == TripleOf(q)
  {
    ValidIsColonFree(r);
    ValidIsColonFree(q);
    if Key(TripleOf(r)) == Key(TripleOf(q)) {
      ColonFreeKeys(TripleOf(r), TripleOf(q));
    }
  }
}
