/** Quote validation: locating a quote in its block and sorting the claims of a
    proposal into accepted and rejected ones. */
module Quotes {
  import opened Options
  import opened Words

  /** A code-point range of a text, end excluded. */
  datatype Span = Span(start: nat, end: nat)

  /** `text.find(quote, from)`: the first occurrence from there on. */
  function Find(text: string, quote: string, from: nat): (at: Option<nat>)
    ensures at.Some? ==> from <= at.value <= |text| - |quote| && OccursAt(text, at.value, quote)
    ensures forall k :: from <= k && OccursAt(text, k, quote) ==> at.Some? && at.value <= k
    decreases |text| - from
  {
    if from > |text| then None
    else if OccursAt(text, from, quote) then Some(from)
    else if from == |text| then None
    else Find(text, quote, from + 1)
  }

  /** The spans found from there on, each search starting after the last hit. */
  function SpansFrom(text: string, quote: string, from: nat): seq<Span>
    requires quote != ""
    decreases |text| - from
  {
    match Find(text, quote, from)
    case None => []
    case Some(at) => [Span(at, at + |quote|)] + SpansFrom(text, quote, at + |quote|)
  }

  function Spans(text: string, quote: string): seq<Span> {
    if quote == "" then [] else SpansFrom(text, quote, 0)
  }

  ghost function SpansAfter(text: string, quote: string, hit: Option<nat>): seq<Span>
    requires quote != ""
  {
    match hit
    case None => []
    case Some(at) => [Span(at, at + |quote|)] + SpansFrom(text, quote, at + |quote|)
  }

  /** The spans collected so far, and those from the pending hit on, are all. */
  ghost predicate Collected(text: string, quote: string, spans: seq<Span>, hit: Option<nat>)
    requires quote != ""
  {
    Spans(text, quote) == spans + SpansAfter(text, quote, hit)
  }

  lemma OneMoreCollected(text: string, quote: string, spans: seq<Span>, at: nat)
    requires quote != "" && Collected(text, quote, spans, Some(at))
    ensures Collected(text, quote, spans + [Span(at, at + |quote|)], Find(text, quote, at + |quote|))
  {
    hide Find, OccursAt, Spans, SpansFrom, SpansAfter;
    NextSpan(text, quote, at);
    var rest := SpansAfter(text, quote, Find(text, quote, at + |quote|));
    assert spans + ([Span(at, at + |quote|)] + rest) == (spans + [Span(at, at + |quote|)]) + rest;
  }

  method LocateQuote(text: string, quote: string) returns (spans: seq<Span>)
    ensures spans == Spans(text, quote)
  {
    if quote == "" {
      return [];
    }
    spans := [];
    hide *;
    NoneCollected(text, quote);
    var start := Find(text, quote, 0);
    while start.Some?
      invariant start.Some? ==> start.value <= |text| - |quote|
      invariant Collected(text, quote, spans, start)
      decreases if start.Some? then |text| + 1 - start.value else 0
    {
      var at := start.value;
      OneMoreCollected(text, quote, spans, at);
      spans := spans + [Span(at, at + |quote|)];
      start := Find(text, quote, at + |quote|);
    }
    AllCollected(text, quote, spans);
  }

  lemma NoneCollected(text: string, quote: string)
    requires quote != ""
    ensures Collected(text, quote, [], Find(text, quote, 0))
  {
    hide Find;
  }

  lemma AllCollected(text: string, quote: string, spans: seq<Span>)
    requires quote != "" && Collected(text, quote, spans, None)
    ensures spans == Spans(text, quote)
  {
    hide Spans;
    assert spans + SpansAfter(text, quote, None) == spans;
  }

  lemma NextSpan(text: string, quote: string, at: nat)
    requires quote != ""
    ensures SpansAfter(text, quote, Some(at))
         == [Span(at, at + |quote|)] + SpansAfter(text, quote, Find(text, quote, at + |quote|))
  {
    hide Find, OccursAt;
  }

  ghost predicate Exact(text: string, quote: string, spans: seq<Span>) {
    forall i :: 0 <= i < |spans| ==> spans[i].end == spans[i].start + |quote| && OccursAt(text, spans[i].start, quote)
  }

  ghost predicate Disjoint(spans: seq<Span>) {
    forall i, j :: 0 <= i < j < |spans| ==> spans[i].end <= spans[j].start
  }

  predicate Inside(s: Span, k: int) { s.start <= k < s.end }

  ghost predicate Covered(text: string, quote: string, from: nat, spans: seq<Span>) {
    forall k :: from <= k && OccursAt(text, k, quote) ==> exists i :: 0 <= i < |spans| && Inside(spans[i], k)
  }

  lemma {:induction false} SpansFromAreExact(text: string, quote: string, from: nat)
    requires quote != ""
    ensures var spans := SpansFrom(text, quote, from);
            && Exact(text, quote, spans) && Disjoint(spans)
            && forall i :: 0 <= i < |spans| ==> spans[i].start >= from
    decreases |text| - from
  {
    hide OccursAt;
    var at := Find(text, quote, from);
    hide Find;
    if at.Some? { SpansFromAreExact(text, quote, at.value + |quote|); }
  }

  lemma {:induction false} SpansFromCover(text: string, quote: string, from: nat)
    requires quote != ""
    ensures Covered(text, quote, from, SpansFrom(text, quote, from))
    decreases |text| - from
  {
    var at := Find(text, quote, from);
    hide Find, OccursAt;
    if at.Some? {
      var stop := at.value + |quote|;
      SpansFromCover(text, quote, stop);
      var spans, rest := SpansFrom(text, quote, from), SpansFrom(text, quote, stop);
      assert spans == [Span(at.value, stop)] + rest;
      hide SpansFrom;
      forall k | from <= k && OccursAt(text, k, quote) ensures exists i :: 0 <= i < |spans| && Inside(spans[i], k) {
        if k < stop {
          assert Inside(spans[0], k);
        } else {
          var i :| 0 <= i < |rest| && Inside(rest[i], k);
          assert spans[i + 1] == rest[i];
        }
      }
    }
  }

  /** The spans reproduce the quote, do not overlap, and every occurrence starts
      inside one of them. */
  lemma SpansAreGreedy(text: string, quote: string)
    requires quote != ""
    ensures Exact(text, quote, Spans(text, quote)) && Disjoint(Spans(text, quote)) && Covered(text, quote, 0, Spans(text, quote))
  {
    SpansFromAreExact(text, quote, 0);
    SpansFromCover(text, quote, 0);
    hide SpansFrom, Exact, Covered, Disjoint;
  }

  /** These three properties leave no other list of spans. */
  lemma {:induction false} SpansAreTheOnlyOnes(text: string, quote: string, from: nat, a: seq<Span>, b: seq<Span>)
    requires quote != ""
    requires Exact(text, quote, a) && Disjoint(a) && Covered(text, quote, from, a)
    requires Exact(text, quote, b) && Disjoint(b) && Covered(text, quote, from, b)
    requires forall i :: 0 <= i < |a| ==> a[i].start >= from
    requires forall i :: 0 <= i < |b| ==> b[i].start >= from
    ensures a == b
    decreases |a|
  {
    hide OccursAt, Covered, Exact, Disjoint;
    if a != [] {
      FirstIsFirst(text, quote, from, a, b);
      FirstIsFirst(text, quote, from, b, a);
      RestIsGreedy(text, quote, from, a);
      RestIsGreedy(text, quote, from, b);
      SpansAreTheOnlyOnes(text, quote, a[0].end, a[1..], b[1..]);
      assert a == [a[0]] + a[1..] && b == [b[0]] + b[1..];
    } else if b != [] {
      FirstIsFirst(text, quote, from, b, a);
    }
  }

  lemma RestIsGreedy(text: string, quote: string, from: nat, a: seq<Span>)
    requires quote != "" && a != []
    requires Exact(text, quote, a) && Disjoint(a) && Covered(text, quote, from, a) && a[0].start >= from
    ensures Exact(text, quote, a[1..]) && Disjoint(a[1..]) && Covered(text, quote, a[0].end, a[1..])
    ensures a[0] == Span(a[0].start, a[0].start + |quote|)
    ensures forall i :: 0 <= i < |a[1..]| ==> a[1..][i].start >= a[0].end
  {
    hide *;
    RestIsExact(text, quote, a);
    RestIsCovered(text, quote, from, a);
    RestIsDisjoint(a);
  }

  lemma RestIsDisjoint(a: seq<Span>)
    requires a != [] && Disjoint(a)
    ensures Disjoint(a[1..]) && forall i :: 0 <= i < |a[1..]| ==> a[1..][i].start >= a[0].end
  {
    assert forall i :: 0 <= i < |a[1..]| ==> a[1..][i] == a[i + 1];
  }

  lemma RestIsExact(text: string, quote: string, a: seq<Span>)
    requires a != [] && Exact(text, quote, a)
    ensures Exact(text, quote, a[1..]) && a[0] == Span(a[0].start, a[0].start + |quote|)
  {
    hide OccursAt;
  }

  lemma FirstIsFirst(text: string, quote: string, from: nat, a: seq<Span>, b: seq<Span>)
    requires quote != "" && a != [] && Exact(text, quote, a) && a[0].start >= from
    requires Exact(text, quote, b) && Disjoint(b) && Covered(text, quote, from, b)
    ensures b != [] && b[0].start <= a[0].start
  {
    hide OccursAt;
    assert OccursAt(text, a[0].start, quote);
    var i :| 0 <= i < |b| && Inside(b[i], a[0].start);
    hide Covered;
    assert i > 0 ==> b[0].end <= b[i].start;
  }

  lemma RestIsCovered(text: string, quote: string, from: nat, a: seq<Span>)
    requires a != [] && Covered(text, quote, from, a) && a[0].end >= from
    ensures Covered(text, quote, a[0].end, a[1..])
  {
    hide OccursAt;
    forall k | a[0].end <= k && OccursAt(text, k, quote) ensures exists i :: 0 <= i < |a[1..]| && Inside(a[1..][i], k) {
      var i :| 0 <= i < |a| && Inside(a[i], k);
      hide Covered;
      assert i > 0 && a[1..][i - 1] == a[i];
    }
  }

  // ---- one span and one occurrence ----

  ghost predicate OccursOnce(text: string, quote: string) {
    exists k :: OccursAt(text, k, quote) && forall l :: OccursAt(text, l, quote) ==> l == k
  }

  /** A proper suffix of the quote is a prefix of it. */
  ghost predicate OverlapsItself(quote: string) {
    exists d :: 0 < d < |quote| && quote[d..] == quote[..|quote| - d]
  }

  lemma TwoSpansTwoOccurrences(text: string, quote: string)
    requires quote != ""
    ensures |Spans(text, quote)| > 1 ==> exists k, l :: k != l && OccursAt(text, k, quote) && OccursAt(text, l, quote)
  {
    SpansAreGreedy(text, quote);
    var spans := Spans(text, quote);
    hide Covered, Spans, OccursAt;
    if |spans| > 1 {
      assert spans[0].end <= spans[1].start;
      assert OccursAt(text, spans[0].start, quote) && OccursAt(text, spans[1].start, quote);
    }
  }

  lemma OneOccurrenceOneSpan(text: string, quote: string)
    requires quote != "" && OccursOnce(text, quote)
    ensures |Spans(text, quote)| == 1
  {
    SpansAreGreedy(text, quote);
    TwoSpansTwoOccurrences(text, quote);
    var k :| OccursAt(text, k, quote) && forall l :: OccursAt(text, l, quote) ==> l == k;
    hide Spans, Exact, Disjoint;
  }

  lemma OneSpanOneOccurrence(text: string, quote: string)
    requires quote != "" && !OverlapsItself(quote) && |Spans(text, quote)| == 1
    ensures OccursOnce(text, quote)
  {
    SpansAreGreedy(text, quote);
    var spans := Spans(text, quote);
    var k := spans[0].start;
    hide Spans, OccursAt, Disjoint;
    assert OccursAt(text, k, quote);
    hide Exact;
    forall l | OccursAt(text, l, quote) ensures l == k {
      var at := OccursAtIsNat(text, l, quote);
      assert exists i :: 0 <= i < |spans| && Inside(spans[i], l);
      assert Inside(spans[0], l);
      if at > k { Overlap(text, quote, k, at); }
    }
  }

  lemma Overlap(text: string, quote: string, k: nat, l: nat)
    requires OccursAt(text, k, quote) && OccursAt(text, l, quote) && k < l < k + |quote|
    ensures OverlapsItself(quote)
  {
    var d := l - k;
    assert quote[d..] == text[l..k + |quote|] by { assert text[k..k + |quote|][d..] == text[l..k + |quote|]; }
    assert quote[..|quote| - d] == text[l..k + |quote|] by { assert text[l..l + |quote|][..|quote| - d] == text[l..k + |quote|]; }
  }

  lemma OccursAtIsNat(text: string, l: int, quote: string) returns (at: nat)
    requires OccursAt(text, l, quote)
    ensures at == l
  {
    at := l;
  }

  /** One span stands for one occurrence, and one occurrence for one span, in
      every text if and only if the quote cannot overlap itself. */
  lemma OneSpanIsUniqueExactlyWhen(quote: string)
    requires quote != ""
    ensures (forall text :: |Spans(text, quote)| == 1 <==> OccursOnce(text, quote)) <==> !OverlapsItself(quote)
  {
    hide *;
    if OverlapsItself(quote) {
      var text := FooledText(quote);
      assert !(|Spans(text, quote)| == 1 <==> OccursOnce(text, quote));
    } else {
      forall text ensures |Spans(text, quote)| == 1 <==> OccursOnce(text, quote) {
        if OccursOnce(text, quote) { OneOccurrenceOneSpan(text, quote); }
        if |Spans(text, quote)| == 1 { OneSpanOneOccurrence(text, quote); }
      }
    }
  }

  lemma FooledText(quote: string) returns (text: string)
    requires OverlapsItself(quote)
    ensures |Spans(text, quote)| == 1 && !OccursOnce(text, quote)
  {
    hide Spans, OccursOnce;
    var d :| 0 < d < |quote| && quote[d..] == quote[..|quote| - d];
    OverlapFools(quote, d);
    text := quote[..d] + quote;
  }

  /** The text that fools the locator: the quote twice, overlapping. */
  lemma OverlapFools(quote: string, d: nat)
    requires 0 < d < |quote| && quote[d..] == quote[..|quote| - d]
    ensures |Spans(quote[..d] + quote, quote)| == 1 && !OccursOnce(quote[..d] + quote, quote)
  {
    var text := quote[..d] + quote;
    assert text[..|quote|] == quote by {
      assert text[..|quote|] == quote[..d] + quote[..|quote| - d];
      assert quote == quote[..d] + quote[d..];
    }
    assert OccursAt(text, 0, quote) && OccursAt(text, d, quote) by { assert text[d..d + |quote|] == quote; }
    assert SpansFrom(text, quote, |quote|) == [];
  }

  // ---- claims ----

  datatype Code = NoEvidence | BlockMissing | QuoteNotFound | QuoteAmbiguous | QuoteTooShort | NumericUnsupported

  datatype Evidence = Evidence(blockId: string, quote: string)

  datatype Claim = Claim(text: string, kind: string, attribution: Option<string>, evidence: seq<Evidence>)

  datatype Location = Location(blockId: string, span: Span, quote: string)

  datatype Validated = Validated(claim: Claim, locations: seq<Location>, downgraded: bool)

  datatype Outcome = Accepted(validated: Validated) | Rejected(code: Code)

  /** The numbers of a text; the pattern for them is the library's. */
  type Numbers = string -> set<string>

  /** Blocks of the parse, by id. */
  type Blocks = map<string, string>

  function Fault(blocks: Blocks, e: Evidence, minChars: int): Option<Code> {
    if e.blockId !in blocks then Some(BlockMissing)
    else if |Strip(e.quote)| < minChars then Some(QuoteTooShort)
    else if |Spans(blocks[e.blockId], e.quote)| == 0 then Some(QuoteNotFound)
    else if |Spans(blocks[e.blockId], e.quote)| > 1 then Some(QuoteAmbiguous)
    else None
  }

  /** The fault of the first piece of evidence that has one. */
  function FirstFault(blocks: Blocks, evidence: seq<Evidence>, minChars: int): Option<Code> {
    if evidence == [] then None
    else if Fault(blocks, evidence[0], minChars).Some? then Fault(blocks, evidence[0], minChars)
    else FirstFault(blocks, evidence[1..], minChars)
  }

  ghost predicate Supported(numbers: Numbers, claim: Claim) {
    forall n :: n in numbers(claim.text) ==> exists i :: 0 <= i < |claim.evidence| && n in numbers(claim.evidence[i].quote)
  }

  /** Each location is its evidence's, and the block reads the quote there. */
  ghost predicate Reproduces(blocks: Blocks, claim: Claim, locations: seq<Location>) {
    && |locations| == |claim.evidence|
    && forall i :: 0 <= i < |locations| ==>
         var (e, l) := (claim.evidence[i], locations[i]);
         && l.blockId == e.blockId && l.quote == e.quote && e.blockId in blocks
         && Spans(blocks[e.blockId], e.quote) == [l.span]
         && l.span.end <= |blocks[e.blockId]| && l.span.start <= l.span.end
         && blocks[e.blockId][l.span.start..l.span.end] == e.quote
  }

  predicate Unattributed(claim: Claim) {
    claim.kind == "source_statement" && (claim.attribution.None? || Strip(claim.attribution.value) == "")
  }

  ghost predicate Judged(numbers: Numbers, claim: Claim, blocks: Blocks, minChars: int, outcome: Outcome) {
    match outcome
    case Rejected(code) =>
      if claim.evidence == [] then code == NoEvidence
      else
        var fault := FirstFault(blocks, claim.evidence, minChars);
        if fault.Some? then code == fault.value else code == NumericUnsupported && !Supported(numbers, claim)
    case Accepted(v) =>
      && claim.evidence != [] && FirstFault(blocks, claim.evidence, minChars).None? && Supported(numbers, claim)
      && v.claim == claim && v.downgraded == Unattributed(claim) && Reproduces(blocks, claim, v.locations)
  }

  lemma OneMoreReproduced(blocks: Blocks, claim: Claim, i: nat, locations: seq<Location>, spans: seq<Span>)
    requires i < |claim.evidence| && Reproduces(blocks, claim.(evidence := claim.evidence[..i]), locations)
    requires claim.evidence[i].blockId in blocks && |spans| == 1
    requires spans == Spans(blocks[claim.evidence[i].blockId], claim.evidence[i].quote)
    ensures Reproduces(blocks, claim.(evidence := claim.evidence[..i + 1]),
                       locations + [Location(claim.evidence[i].blockId, spans[0], claim.evidence[i].quote)])
  {
    var e := claim.evidence[i];
    if e.quote != "" { SpansAreGreedy(blocks[e.blockId], e.quote); }
    assert OccursAt(blocks[e.blockId], spans[0].start, e.quote);
    assert spans == [spans[0]];
    hide Spans;
  }

  method ValidateClaim(numbers: Numbers, claim: Claim, blocks: Blocks, minChars: int) returns (outcome: Outcome)
    ensures Judged(numbers, claim, blocks, minChars, outcome)
  {
    if claim.evidence == [] {
      return Rejected(NoEvidence);
    }
    var locations: seq<Location> := [];
    var quoted: set<string> := {};
    for i := 0 to |claim.evidence|
      invariant FirstFault(blocks, claim.evidence, minChars) == FirstFault(blocks, claim.evidence[i..], minChars)
      invariant Reproduces(blocks, claim.(evidence := claim.evidence[..i]), locations)
      invariant forall n :: n in quoted <==> exists j :: 0 <= j < i && n in numbers(claim.evidence[j].quote)
    {
      hide Spans, Strip, Reproduces;
      var e := claim.evidence[i];
      assert claim.evidence[i..][0] == e && claim.evidence[i..][1..] == claim.evidence[i + 1..];
      if e.blockId !in blocks {
        return Rejected(BlockMissing);
      }
      if |Strip(e.quote)| < minChars {
        return Rejected(QuoteTooShort);
      }
      var spans := LocateQuote(blocks[e.blockId], e.quote);
      if spans == [] {
        return Rejected(QuoteNotFound);
      }
      if |spans| > 1 {
        return Rejected(QuoteAmbiguous);
      }
      OneMoreReproduced(blocks, claim, i, locations, spans);
      locations := locations + [Location(e.blockId, spans[0], e.quote)];
      quoted := quoted + numbers(e.quote);
    }
    assert claim.evidence[..|claim.evidence|] == claim.evidence;
    assert claim.(evidence := claim.evidence) == claim;
    if !(numbers(claim.text) <= quoted) {
      ghost var n :| n in numbers(claim.text) && n !in quoted;
      assert !Supported(numbers, claim);
      return Rejected(NumericUnsupported);
    }
    outcome := Accepted(Validated(claim, locations, Unattributed(claim)));
  }

  /** A claim is judged in one way only. */
  lemma JudgedOneWay(numbers: Numbers, claim: Claim, blocks: Blocks, minChars: int, a: Outcome, b: Outcome)
    requires Judged(numbers, claim, blocks, minChars, a) && Judged(numbers, claim, blocks, minChars, b)
    ensures a == b
  {
    if a.Accepted? && b.Accepted? {
      var p, q := a.validated.locations, b.validated.locations;
      forall i | 0 <= i < |p| ensures p[i] == q[i] {
        assert [p[i].span] == [q[i].span];
        assert p[i].span == [p[i].span][0];
      }
    }
  }

  /** Evidence that is accepted is the one place of its quote, unless the quote
      can overlap itself. */
  lemma AcceptedQuotesAreUnique(numbers: Numbers, claim: Claim, blocks: Blocks, minChars: int, outcome: Outcome, i: nat)
    requires Judged(numbers, claim, blocks, minChars, outcome) && outcome.Accepted?
    requires i < |claim.evidence| && !OverlapsItself(claim.evidence[i].quote)
    ensures claim.evidence[i].blockId in blocks && OccursOnce(blocks[claim.evidence[i].blockId], claim.evidence[i].quote)
  {
    var e, l := claim.evidence[i], outcome.validated.locations[i];
    assert Spans(blocks[e.blockId], e.quote) == [l.span];
    OneSpanOneOccurrence(blocks[e.blockId], e.quote);
  }

  // ---- what a judgement says, over the texts ----

  /** The quote stands in the text, and no two places of it are apart. */
  ghost predicate InOnePlace(text: string, quote: string) {
    && quote != ""
    && (exists k: nat :: OccursAt(text, k, quote))
    && (forall k: nat, l: nat :: OccursAt(text, k, quote) && OccursAt(text, l, quote) ==> l < k + |quote|)
  }

  ghost predicate InTwoPlaces(text: string, quote: string) {
    quote != "" && exists k: nat, l: nat :: OccursAt(text, k, quote) && OccursAt(text, l, quote) && k + |quote| <= l
  }

  ghost predicate InNoPlace(text: string, quote: string) {
    quote == "" || forall k: nat :: !OccursAt(text, k, quote)
  }

  lemma PlacesBySpans(text: string, quote: string)
    ensures |Spans(text, quote)| == 0 <==> InNoPlace(text, quote)
    ensures |Spans(text, quote)| == 1 <==> InOnePlace(text, quote)
    ensures |Spans(text, quote)| > 1 <==> InTwoPlaces(text, quote)
  {
    hide OccursAt;
    if quote != "" {
      var spans := Spans(text, quote);
      SpansAreGreedy(text, quote);
      hide Spans;
      if spans != [] { assert OccursAt(text, spans[0].start, quote); }
      if |spans| > 1 { assert OccursAt(text, spans[1].start, quote); }
      if |spans| == 1 {
        forall k: nat, l: nat | OccursAt(text, k, quote) && OccursAt(text, l, quote) ensures l < k + |quote| {
          assert Inside(spans[0], k) && Inside(spans[0], l);
        }
      }
    }
  }

  /** Why a piece of evidence is refused. */
  ghost predicate Refuses(blocks: Blocks, e: Evidence, minChars: int, code: Code) {
    match code
    case BlockMissing => e.blockId !in blocks
    case QuoteTooShort => e.blockId in blocks && |Strip(e.quote)| < minChars
    case QuoteNotFound => e.blockId in blocks && |Strip(e.quote)| >= minChars && InNoPlace(blocks[e.blockId], e.quote)
    case QuoteAmbiguous => e.blockId in blocks && |Strip(e.quote)| >= minChars && InTwoPlaces(blocks[e.blockId], e.quote)
    case _ => false
  }

  /** Evidence that stands: its block is there, its quote has the characters
      asked for once stripped, and is in one place of the block. */
  ghost predicate Stands(blocks: Blocks, e: Evidence, minChars: int) {
    e.blockId in blocks && |Strip(e.quote)| >= minChars && InOnePlace(blocks[e.blockId], e.quote)
  }

  ghost predicate AllStand(blocks: Blocks, evidence: seq<Evidence>, minChars: int) {
    forall i :: 0 <= i < |evidence| ==> Stands(blocks, evidence[i], minChars)
  }

  lemma FaultMeans(blocks: Blocks, e: Evidence, minChars: int)
    ensures Fault(blocks, e, minChars).None? <==> Stands(blocks, e, minChars)
    ensures Fault(blocks, e, minChars).Some? ==> Refuses(blocks, e, minChars, Fault(blocks, e, minChars).value)
  {
    hide Spans, InNoPlace, InOnePlace, InTwoPlaces, Strip;
    if e.blockId in blocks { PlacesBySpans(blocks[e.blockId], e.quote); }
  }

  lemma {:induction false} FirstFaultMeans(blocks: Blocks, evidence: seq<Evidence>, minChars: int) returns (i: nat)
    ensures var fault := FirstFault(blocks, evidence, minChars);
      && (fault.None? <==> AllStand(blocks, evidence, minChars))
      && (fault.Some? ==> i < |evidence| && Refuses(blocks, evidence[i], minChars, fault.value) && AllStand(blocks, evidence[..i], minChars))
  {
    hide Fault, Refuses, Stands;
    i := 0;
    if evidence != [] {
      FaultMeans(blocks, evidence[0], minChars);
      if Fault(blocks, evidence[0], minChars).None? {
        i := FirstFaultMeans(blocks, evidence[1..], minChars);
        assert forall k :: 1 <= k < |evidence| ==> evidence[k] == evidence[1..][k - 1];
        i := i + 1;
        if i <= |evidence| { assert forall k :: 1 <= k < i ==> evidence[..i][k] == evidence[1..][..i - 1][k - 1]; }
      }
    }
  }

  /** A claim is accepted if and only if it has evidence, all of which stands,
      and its every number is in some quote. A rejected one names why its first
      evidence that does not stand is refused, or else the missing number. Only
      a statement of the source without anybody to attribute it to is downgraded. */
  lemma JudgementMeans(numbers: Numbers, claim: Claim, blocks: Blocks, minChars: int, outcome: Outcome) returns (i: nat)
    requires Judged(numbers, claim, blocks, minChars, outcome)
    ensures outcome.Accepted? <==>
      && claim.evidence != [] && AllStand(blocks, claim.evidence, minChars)
      && (forall n :: n in numbers(claim.text) ==> exists k :: 0 <= k < |claim.evidence| && n in numbers(claim.evidence[k].quote))
    ensures outcome.Accepted? ==>
      (outcome.validated.downgraded <==>
         claim.kind == "source_statement" && (claim.attribution == None || Split(claim.attribution.value) == []))
    ensures outcome.Rejected? ==>
      match outcome.code
      case NoEvidence => claim.evidence == []
      case NumericUnsupported => claim.evidence != [] && AllStand(blocks, claim.evidence, minChars)
      case code => i < |claim.evidence| && Refuses(blocks, claim.evidence[i], minChars, code) && AllStand(blocks, claim.evidence[..i], minChars)
  {
    hide FirstFault, Refuses, AllStand, Reproduces, Strip, Split;
    i := FirstFaultMeans(blocks, claim.evidence, minChars);
    if claim.attribution.Some? { BlankHasNoWords(claim.attribution.value); }
    if outcome.Rejected? { NoSuchFault(blocks, claim.evidence, minChars); }
  }

  lemma {:induction false} NoSuchFault(blocks: Blocks, evidence: seq<Evidence>, minChars: int)
    ensures FirstFault(blocks, evidence, minChars) != Some(NoEvidence)
    ensures FirstFault(blocks, evidence, minChars) != Some(NumericUnsupported)
  {
    if evidence != [] { NoSuchFault(blocks, evidence[1..], minChars); }
  }

  // ---- proposals ----

  datatype Rejection = Rejection(index: nat, code: Code)

  datatype Extraction = Extraction(accepted: seq<Validated>, rejected: seq<Rejection>)

  /** Reading the claims back from the last one uses both lists up, in order. */
  ghost predicate Sorts(numbers: Numbers, claims: seq<Claim>, blocks: Blocks, minChars: int, r: Extraction) {
    if claims == [] then r == Extraction([], [])
    else
      var init, last := claims[..|claims| - 1], claims[|claims| - 1];
      var a, f := |r.accepted|, |r.rejected|;
      || (a > 0 && Judged(numbers, last, blocks, minChars, Accepted(r.accepted[a - 1]))
          && Sorts(numbers, init, blocks, minChars, Extraction(r.accepted[..a - 1], r.rejected)))
      || (f > 0 && r.rejected[f - 1].index == |init|
          && Judged(numbers, last, blocks, minChars, Rejected(r.rejected[f - 1].code))
          && Sorts(numbers, init, blocks, minChars, Extraction(r.accepted, r.rejected[..f - 1])))
  }

  method ValidateProposal(numbers: Numbers, claims: seq<Claim>, blocks: Blocks, minChars: int) returns (r: Extraction)
    ensures Sorts(numbers, claims, blocks, minChars, r)
  {
    r := Extraction([], []);
    for i := 0 to |claims|
      invariant Sorts(numbers, claims[..i], blocks, minChars, r)
    {
      hide Judged;
      var outcome := ValidateClaim(numbers, claims[i], blocks, minChars);
      ghost var before := r;
      match outcome {
        case Rejected(code) =>
          r := Extraction(r.accepted, r.rejected + [Rejection(i, code)]);
          assert r.rejected[..|r.rejected| - 1] == before.rejected;
        case Accepted(validated) =>
          r := Extraction(r.accepted + [validated], r.rejected);
          assert r.accepted[..|r.accepted| - 1] == before.accepted;
      }
      assert claims[..i + 1][..i] == claims[..i] && claims[..i + 1][i] == claims[i];
    }
    assert claims[..|claims|] == claims;
  }

  /** How many rejections come before a claim. */
  function Before(rejected: seq<Rejection>, index: nat): nat {
    if rejected == [] then 0
    else Before(rejected[..|rejected| - 1], index) + if rejected[|rejected| - 1].index < index then 1 else 0
  }

  ghost predicate RejectedAt(numbers: Numbers, claims: seq<Claim>, blocks: Blocks, minChars: int, r: Extraction, i: nat)
    requires i < |claims|
  {
    exists j :: 0 <= j < |r.rejected| && r.rejected[j].index == i
      && Judged(numbers, claims[i], blocks, minChars, Rejected(r.rejected[j].code))
  }

  ghost predicate AcceptedAt(numbers: Numbers, claims: seq<Claim>, blocks: Blocks, minChars: int, r: Extraction, i: nat)
    requires i < |claims|
  {
    0 <= i - Before(r.rejected, i) < |r.accepted|
    && Judged(numbers, claims[i], blocks, minChars, Accepted(r.accepted[i - Before(r.rejected, i)]))
  }

  lemma {:induction false} BeforeAll(rejected: seq<Rejection>, index: nat)
    requires forall j :: 0 <= j < |rejected| ==> rejected[j].index < index
    ensures Before(rejected, index) == |rejected|
  {
    if rejected != [] { BeforeAll(rejected[..|rejected| - 1], index); }
  }

  /** Every claim is in exactly one list: a rejection carries its number, and the
      accepted ones keep their order around the rejected. */
  lemma {:induction false} EveryClaimIsSorted(numbers: Numbers, claims: seq<Claim>, blocks: Blocks, minChars: int, r: Extraction)
    requires Sorts(numbers, claims, blocks, minChars, r)
    ensures |r.accepted| + |r.rejected| == |claims|
    ensures forall j :: 0 <= j < |r.rejected| ==> r.rejected[j].index < |claims|
    ensures forall j, l :: 0 <= j < l < |r.rejected| ==> r.rejected[j].index < r.rejected[l].index
    ensures forall i :: 0 <= i < |claims| ==>
      (RejectedAt(numbers, claims, blocks, minChars, r, i) || AcceptedAt(numbers, claims, blocks, minChars, r, i))
  {
    hide Judged;
    if claims != [] {
      var init, last := claims[..|claims| - 1], claims[|claims| - 1];
      var a, f := |r.accepted|, |r.rejected|;
      if a > 0 && Judged(numbers, last, blocks, minChars, Accepted(r.accepted[a - 1]))
         && Sorts(numbers, init, blocks, minChars, Extraction(r.accepted[..a - 1], r.rejected)) {
        var less := Extraction(r.accepted[..a - 1], r.rejected);
        EveryClaimIsSorted(numbers, init, blocks, minChars, less);
        BeforeAll(r.rejected, |init|);
        hide Sorts;
        assert AcceptedAt(numbers, claims, blocks, minChars, r, |init|);
        hide RejectedAt, AcceptedAt;
        forall i | 0 <= i < |init|
          ensures RejectedAt(numbers, claims, blocks, minChars, r, i) || AcceptedAt(numbers, claims, blocks, minChars, r, i)
        {
          KeptByAcceptance(numbers, claims, blocks, minChars, r, less, i);
        }
      } else {
        var less := Extraction(r.accepted, r.rejected[..f - 1]);
        EveryClaimIsSorted(numbers, init, blocks, minChars, less);
        hide Sorts;
        assert r.rejected[f - 1].index == |init|;
        assert RejectedAt(numbers, claims, blocks, minChars, r, |init|);
        hide RejectedAt, AcceptedAt;
        forall i | 0 <= i < |init|
          ensures RejectedAt(numbers, claims, blocks, minChars, r, i) || AcceptedAt(numbers, claims, blocks, minChars, r, i)
        {
          KeptByRejection(numbers, claims, blocks, minChars, r, less, i);
        }
      }
    }
  }

  lemma KeptByAcceptance(numbers: Numbers, claims: seq<Claim>, blocks: Blocks, minChars: int, r: Extraction, less: Extraction, i: nat)
    requires i < |claims| - 1 && r.accepted != [] && less == Extraction(r.accepted[..|r.accepted| - 1], r.rejected)
    requires var init := claims[..|claims| - 1];
             RejectedAt(numbers, init, blocks, minChars, less, i) || AcceptedAt(numbers, init, blocks, minChars, less, i)
    ensures RejectedAt(numbers, claims, blocks, minChars, r, i) || AcceptedAt(numbers, claims, blocks, minChars, r, i)
  {
    hide Judged;
    assert claims[..|claims| - 1][i] == claims[i];
  }

  lemma KeptByRejection(numbers: Numbers, claims: seq<Claim>, blocks: Blocks, minChars: int, r: Extraction, less: Extraction, i: nat)
    requires i < |claims| - 1 && r.rejected != [] && less == Extraction(r.accepted, r.rejected[..|r.rejected| - 1])
    requires r.rejected[|r.rejected| - 1].index == |claims| - 1
    requires var init := claims[..|claims| - 1];
             RejectedAt(numbers, init, blocks, minChars, less, i) || AcceptedAt(numbers, init, blocks, minChars, less, i)
    ensures RejectedAt(numbers, claims, blocks, minChars, r, i) || AcceptedAt(numbers, claims, blocks, minChars, r, i)
  {
    hide Judged;
    assert claims[..|claims| - 1][i] == claims[i];
    assert Before(r.rejected, i) == Before(less.rejected, i);
    if RejectedAt(numbers, claims[..|claims| - 1], blocks, minChars, less, i) {
      var j :| 0 <= j < |less.rejected| && less.rejected[j].index == i
        && Judged(numbers, claims[i], blocks, minChars, Rejected(less.rejected[j].code));
      assert r.rejected[j] == less.rejected[j];
    }
  }
}
