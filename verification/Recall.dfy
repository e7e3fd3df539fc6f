/** Topic recall: the rank fusion over four channels and its paging. */
module Recall {
  import opened Options

  /** A document id; ids compare as the numbers their text stands for. */
  type DocId = nat

  datatype RawHit = RawHit(
    channel: string,
    doc: DocId,
    parseId: nat,
    chunkId: Option<nat>,
    blockIds: seq<string>,
    score: real,
    reason: string)

  /** The evidence one raw hit leaves; `rank` counts from 1 in its channel. */
  datatype Provenance = Provenance(hit: RawHit, rank: nat)

  datatype DocumentHit = DocumentHit(doc: DocId, rrfScore: real, channels: seq<Provenance>)

  function RrfContrib(rank: nat, k: nat): real
    requires k + rank != 0
  {
    1.0 / (k + rank) as real
  }

  // ---- what a hit contributes ----

  /** How many of the first `n` hits are in the channel. */
  function CountIn(hits: seq<RawHit>, n: nat, channel: string): nat
    requires n <= |hits|
  {
    if n == 0 then 0 else CountIn(hits, n - 1, channel) + if hits[n - 1].channel == channel then 1 else 0
  }

  /** Position of hit `i` within its channel, from 0. */
  function RankOf(hits: seq<RawHit>, i: nat): nat
    requires i < |hits|
  {
    CountIn(hits, i, hits[i].channel)
  }

  function ScoreOf(hits: seq<RawHit>, n: nat, k: nat, doc: DocId): real
    requires n <= |hits| && k > 0
  {
    if n == 0 then 0.0
    else ScoreOf(hits, n - 1, k, doc) + if hits[n - 1].doc == doc then RrfContrib(RankOf(hits, n - 1), k) else 0.0
  }

  function ProvenanceOf(hits: seq<RawHit>, n: nat, doc: DocId): seq<Provenance>
    requires n <= |hits|
  {
    if n == 0 then []
    else ProvenanceOf(hits, n - 1, doc)
         + if hits[n - 1].doc == doc then [Provenance(hits[n - 1], RankOf(hits, n - 1) + 1)] else []
  }

  predicate HasDoc(hits: seq<RawHit>, n: nat, doc: DocId)
    requires n <= |hits|
  {
    n > 0 && (hits[n - 1].doc == doc || HasDoc(hits, n - 1, doc))
  }

  function SumOf(hits: seq<RawHit>, n: nat, k: nat): real
    requires n <= |hits| && k > 0
  {
    if n == 0 then 0.0 else SumOf(hits, n - 1, k) + RrfContrib(RankOf(hits, n - 1), k)
  }

  // ---- the ranking ----

  /** Higher score first, smaller id on a tie. */
  predicate Before(a: DocumentHit, b: DocumentHit) {
    a.rrfScore > b.rrfScore || (a.rrfScore == b.rrfScore && a.doc < b.doc)
  }

  ghost predicate Sorted(docs: seq<DocumentHit>) {
    forall i, j :: 0 <= i < j < |docs| ==> Before(docs[i], docs[j])
  }

  ghost function Merged(hits: seq<RawHit>, k: nat, doc: DocId): (merged: DocumentHit)
    requires k > 0
    ensures merged.doc == doc
  {
    DocumentHit(doc, ScoreOf(hits, |hits|, k, doc), ProvenanceOf(hits, |hits|, doc))
  }

  /** One entry for every document with a hit, its evidence merged, in order. */
  ghost predicate IsRanking(hits: seq<RawHit>, k: nat, ranked: seq<DocumentHit>)
    requires k > 0
  {
    && Sorted(ranked)
    && (forall h :: h in ranked <==> HasDoc(hits, |hits|, h.doc) && h == Merged(hits, k, h.doc))
  }

  /** Stands for `sorted` on (-score, id): the least remaining document next. */
  method SortDocs(scores: map<DocId, real>, provenance: map<DocId, seq<Provenance>>) returns (docs: seq<DocumentHit>)
    requires scores.Keys == provenance.Keys
    ensures Sorted(docs)
    ensures forall h :: h in docs <==> h.doc in scores && h == DocumentHit(h.doc, scores[h.doc], provenance[h.doc])
  {
    docs := [];
    var rest := set d | d in scores :: DocumentHit(d, scores[d], provenance[d]);
    ghost var all := rest;
    while rest != {}
      invariant rest <= all
      invariant forall h :: h in docs <==> h in all && h !in rest
      invariant Sorted(docs)
      invariant forall h, e :: h in docs && e in rest ==> Before(h, e)
      decreases |rest|
    {
      var least :| least in rest;
      var others := rest - {least};
      while others != {}
        invariant others <= rest && least in rest
        invariant forall e :: e in rest && e !in others && e != least ==> Before(least, e)
        decreases |others|
      {
        var e :| e in others;
        others := others - {e};
        if e != least && Before(e, least) {
          least := e;
        }
      }
      docs := docs + [least];
      rest := rest - {least};
    }
  }

  ghost predicate ScoresAre(hits: seq<RawHit>, n: nat, k: nat, scores: map<DocId, real>)
    requires n <= |hits| && k > 0
  {
    forall d :: (d in scores <==> HasDoc(hits, n, d)) && ScoreOf(hits, n, k, d) == if d in scores then scores[d] else 0.0
  }

  ghost predicate ProvenancesAre(hits: seq<RawHit>, n: nat, provenance: map<DocId, seq<Provenance>>)
    requires n <= |hits|
  {
    forall d :: (d in provenance <==> HasDoc(hits, n, d)) && ProvenanceOf(hits, n, d) == if d in provenance then provenance[d] else []
  }

  ghost predicate RanksAre(hits: seq<RawHit>, n: nat, ranks: map<string, nat>)
    requires n <= |hits|
  {
    forall c :: CountIn(hits, n, c) == if c in ranks then ranks[c] else 0
  }

  lemma NextRank(hits: seq<RawHit>, n: nat, ranks: map<string, nat>)
    requires n < |hits| && RanksAre(hits, n, ranks)
    ensures var channel := hits[n].channel;
            var rank := if channel in ranks then ranks[channel] else 0;
            rank == RankOf(hits, n) && RanksAre(hits, n + 1, ranks[channel := rank + 1])
  {
  }

  lemma NextScore(hits: seq<RawHit>, n: nat, k: nat, scores: map<DocId, real>)
    requires n < |hits| && k > 0 && ScoresAre(hits, n, k, scores)
    ensures var doc := hits[n].doc;
            ScoresAre(hits, n + 1, k, scores[doc := (if doc in scores then scores[doc] else 0.0) + RrfContrib(RankOf(hits, n), k)])
  {
  }

  lemma NextProvenance(hits: seq<RawHit>, n: nat, provenance: map<DocId, seq<Provenance>>)
    requires n < |hits| && ProvenancesAre(hits, n, provenance)
    ensures var doc := hits[n].doc;
            ProvenancesAre(hits, n + 1, provenance[doc := (if doc in provenance then provenance[doc] else []) + [Provenance(hits[n], RankOf(hits, n) + 1)]])
  {
  }

  /** Union by document: scores and evidence accumulate hit by hit, then the
      documents are ordered. No document is dropped. */
  method RankHits(hits: seq<RawHit>, k: nat) returns (ranked: seq<DocumentHit>)
    requires k > 0
    ensures IsRanking(hits, k, ranked)
  {
    hide *;
    var scores: map<DocId, real> := map[];
    var provenance: map<DocId, seq<Provenance>> := map[];
    var channelRank: map<string, nat> := map[];
    NothingRanked(hits, k);
    for i := 0 to |hits|
      invariant ScoresAre(hits, i, k, scores)
      invariant ProvenancesAre(hits, i, provenance)
      invariant RanksAre(hits, i, channelRank)
    {
      var hit := hits[i];
      var rank := if hit.channel in channelRank then channelRank[hit.channel] else 0;
      NextRank(hits, i, channelRank);
      channelRank := channelRank[hit.channel := rank + 1];
      NextScore(hits, i, k, scores);
      scores := scores[hit.doc := (if hit.doc in scores then scores[hit.doc] else 0.0) + RrfContrib(rank, k)];
      NextProvenance(hits, i, provenance);
      provenance := provenance[hit.doc := (if hit.doc in provenance then provenance[hit.doc] else []) + [Provenance(hit, rank + 1)]];
    }
    SameKeys(hits, k, scores, provenance);
    ranked := SortDocs(scores, provenance);
    SortedIsRanking(hits, k, scores, provenance, ranked);
  }

  lemma NothingRanked(hits: seq<RawHit>, k: nat)
    requires k > 0
    ensures ScoresAre(hits, 0, k, map[]) && ProvenancesAre(hits, 0, map[]) && RanksAre(hits, 0, map[])
  {
  }

  lemma SameKeys(hits: seq<RawHit>, k: nat, scores: map<DocId, real>, provenance: map<DocId, seq<Provenance>>)
    requires k > 0 && ScoresAre(hits, |hits|, k, scores) && ProvenancesAre(hits, |hits|, provenance)
    ensures scores.Keys == provenance.Keys
  {
    hide HasDoc, ScoreOf, ProvenanceOf;
  }

  lemma SortedIsRanking(hits: seq<RawHit>, k: nat, scores: map<DocId, real>, provenance: map<DocId, seq<Provenance>>, ranked: seq<DocumentHit>)
    requires k > 0 && ScoresAre(hits, |hits|, k, scores) && ProvenancesAre(hits, |hits|, provenance)
    requires scores.Keys == provenance.Keys && Sorted(ranked)
    requires forall h :: h in ranked <==> h.doc in scores && h == DocumentHit(h.doc, scores[h.doc], provenance[h.doc])
    ensures IsRanking(hits, k, ranked)
  {
    hide HasDoc, ScoreOf, ProvenanceOf, Sorted;
    forall h ensures h in ranked <==> HasDoc(hits, |hits|, h.doc) && h == Merged(hits, k, h.doc) {
      if h.doc in scores { assert Merged(hits, k, h.doc) == DocumentHit(h.doc, scores[h.doc], provenance[h.doc]); }
    }
  }

  /** Unchanged candidates rank the same way each time. */
  lemma RankingIsUnique(hits: seq<RawHit>, k: nat, a: seq<DocumentHit>, b: seq<DocumentHit>)
    requires k > 0 && IsRanking(hits, k, a) && IsRanking(hits, k, b)
    ensures a == b
  {
    SameSorted(a, b);
  }

  lemma {:induction false} SameSorted(a: seq<DocumentHit>, b: seq<DocumentHit>)
    requires Sorted(a) && Sorted(b)
    requires forall h :: h in a <==> h in b
    ensures a == b
  {
    BothEmpty(a, b);
    if a != [] {
      assert a[0] in b && b[0] in a;
      var i :| 0 <= i < |b| && b[i] == a[0];
      var j :| 0 <= j < |a| && a[j] == b[0];
      assert a[0] == b[0];
      forall h ensures h in a[1..] <==> h in b[1..] {
        assert h in a[1..] <==> h in a && h != a[0];
        assert h in b[1..] <==> h in b && h != b[0];
      }
      SameSorted(a[1..], b[1..]);
    }
  }

  lemma BothEmpty(a: seq<DocumentHit>, b: seq<DocumentHit>)
    requires forall h :: h in a <==> h in b
    ensures a == [] <==> b == []
  {
    if a != [] { assert a[0] in a; }
    if b != [] { assert b[0] in b; }
  }

  // ---- the law of the ranking ----

  /** A hit contributes the inverse of its rank behind `k`: more than nothing,
      and less the further back it stands. */
  lemma ContribFalls(rank: nat, k: nat)
    requires k > 0
    ensures RrfContrib(rank, k) > 0.0
    ensures RrfContrib(rank, k) * (k + rank) as real == 1.0
    ensures RrfContrib(rank + 1, k) < RrfContrib(rank, k)
  {
    var a, b := (k + rank) as real, (k + rank + 1) as real;
    InverseFalls(a, b);
  }

  lemma InverseFalls(a: real, b: real)
    requires 0.0 < a < b
    ensures 0.0 < 1.0 / b < 1.0 / a
  {
    var x, y := 1.0 / a, 1.0 / b;
    assert x * a == 1.0 && y * b == 1.0;
    assert x > 0.0 && x * b > x * a;
    assert (x - y) * b == x * b - y * b;
  }

  lemma {:induction false} ContribOrder(a: nat, b: nat, k: nat)
    requires k > 0 && a < b
    ensures RrfContrib(b, k) < RrfContrib(a, k)
    decreases b
  {
    ContribFalls(b - 1, k);
    if a < b - 1 { ContribOrder(a, b - 1, k); }
  }

  ghost predicate StandsBefore(ranked: seq<DocumentHit>, d: DocId, e: DocId) {
    exists i, j :: 0 <= i < j < |ranked| && ranked[i].doc == d && ranked[j].doc == e
  }

  /** Two documents stand by their scores, a tie going to the smaller id. */
  lemma StandingIsScore(hits: seq<RawHit>, k: nat, ranked: seq<DocumentHit>, d: DocId, e: DocId)
    requires k > 0 && IsRanking(hits, k, ranked)
    ensures StandsBefore(ranked, d, e) <==>
      && HasDoc(hits, |hits|, d) && HasDoc(hits, |hits|, e)
      && (ScoreOf(hits, |hits|, k, d) > ScoreOf(hits, |hits|, k, e)
          || (ScoreOf(hits, |hits|, k, d) == ScoreOf(hits, |hits|, k, e) && d < e))
  {
    hide HasDoc, ScoreOf, ProvenanceOf;
    var x, y := Merged(hits, k, d), Merged(hits, k, e);
    if StandsBefore(ranked, d, e) {
      var i, j :| 0 <= i < j < |ranked| && ranked[i].doc == d && ranked[j].doc == e;
      assert ranked[i] in ranked && ranked[j] in ranked;
      assert Before(ranked[i], ranked[j]);
    }
    if HasDoc(hits, |hits|, d) && HasDoc(hits, |hits|, e) && Before(x, y) {
      assert x in ranked && y in ranked;
      var i :| 0 <= i < |ranked| && ranked[i] == x;
      var j :| 0 <= j < |ranked| && ranked[j] == y;
      assert i < j by { assert j < i ==> Before(y, x); }
    }
  }

  /** Hit `i` stands ahead of hit `j` in one channel. */
  predicate Ahead(hits: seq<RawHit>, i: nat, j: nat) {
    i < j < |hits| && hits[i].channel == hits[j].channel
  }

  /** Every hit of `e` has a hit of `d` of its own ahead of it. */
  ghost predicate Outdoes(hits: seq<RawHit>, d: DocId, e: DocId, pairs: map<nat, nat>) {
    && (forall j :: 0 <= j < |hits| && hits[j].doc == e ==> j in pairs && Ahead(hits, pairs[j], j) && hits[pairs[j]].doc == d)
    && (forall i, j :: 0 <= i < j < |hits| && hits[i].doc == e && hits[j].doc == e ==> pairs[i] != pairs[j])
  }

  /** The contributions of the chosen ones among the first `n` hits. */
  ghost function SumOn(hits: seq<RawHit>, n: nat, k: nat, chosen: set<nat>): real
    requires n <= |hits| && k > 0
  {
    if n == 0 then 0.0 else SumOn(hits, n - 1, k, chosen) + if n - 1 in chosen then RrfContrib(RankOf(hits, n - 1), k) else 0.0
  }

  lemma {:induction false} OneMoreChosen(hits: seq<RawHit>, n: nat, k: nat, chosen: set<nat>, i: nat)
    requires n <= |hits| && k > 0 && i < |hits| && i !in chosen
    ensures SumOn(hits, n, k, chosen + {i}) == SumOn(hits, n, k, chosen) + if i < n then RrfContrib(RankOf(hits, i), k) else 0.0
  {
    if n > 0 { OneMoreChosen(hits, n - 1, k, chosen, i); }
  }

  lemma {:induction false} ChosenAtMost(hits: seq<RawHit>, n: nat, k: nat, chosen: set<nat>, d: DocId)
    requires n <= |hits| && k > 0 && forall i :: i in chosen && i < |hits| ==> hits[i].doc == d
    ensures SumOn(hits, n, k, chosen) <= ScoreOf(hits, n, k, d)
  {
    if n > 0 {
      ChosenAtMost(hits, n - 1, k, chosen, d);
      ContribFalls(RankOf(hits, n - 1), k);
    }
  }

  lemma {:induction false} CountsGrow(hits: seq<RawHit>, i: nat, j: nat, channel: string)
    requires i <= j <= |hits|
    ensures CountIn(hits, i, channel) <= CountIn(hits, j, channel)
    ensures i < j && hits[i].channel == channel ==> CountIn(hits, i, channel) < CountIn(hits, j, channel)
    decreases j - i
  {
    if i < j { CountsGrow(hits, i + 1, j, channel); }
  }

  lemma AheadContributesMore(hits: seq<RawHit>, i: nat, j: nat, k: nat)
    requires k > 0 && Ahead(hits, i, j)
    ensures RrfContrib(RankOf(hits, j), k) < RrfContrib(RankOf(hits, i), k)
  {
    CountsGrow(hits, i, j, hits[j].channel);
    ContribOrder(RankOf(hits, i), RankOf(hits, j), k);
  }

  /** What the first `n` hits give `e` is no more than their matches give. */
  lemma {:induction false} MatchesGiveMore(hits: seq<RawHit>, n: nat, k: nat, d: DocId, e: DocId, pairs: map<nat, nat>) returns (used: set<nat>)
    requires n <= |hits| && k > 0 && Outdoes(hits, d, e, pairs)
    ensures forall i :: i in used <==> exists j :: 0 <= j < n && hits[j].doc == e && pairs[j] == i
    ensures ScoreOf(hits, n, k, e) <= SumOn(hits, |hits|, k, used)
    ensures HasDoc(hits, n, e) ==> ScoreOf(hits, n, k, e) < SumOn(hits, |hits|, k, used)
  {
    hide RrfContrib, CountIn;
    used := {};
    if n == 0 {
      NothingChosen(hits, |hits|, k);
    } else {
      used := MatchesGiveMore(hits, n - 1, k, d, e, pairs);
      if hits[n - 1].doc == e {
        var i := pairs[n - 1];
        AheadContributesMore(hits, i, n - 1, k);
        OneMoreChosen(hits, |hits|, k, used, i);
        used := used + {i};
      }
    }
  }

  lemma {:induction false} NothingChosen(hits: seq<RawHit>, n: nat, k: nat)
    requires n <= |hits| && k > 0
    ensures SumOn(hits, n, k, {}) == 0.0
  {
    if n > 0 { NothingChosen(hits, n - 1, k); }
  }

  /** The law of the ranking: a document outdone hit for hit, each of its hits
      by another one ahead in the same channel, stands behind. */
  lemma OutdoneStandsBehind(hits: seq<RawHit>, k: nat, ranked: seq<DocumentHit>, d: DocId, e: DocId, pairs: map<nat, nat>)
    requires k > 0 && IsRanking(hits, k, ranked) && Outdoes(hits, d, e, pairs)
    requires exists j :: 0 <= j < |hits| && hits[j].doc == e
    ensures StandsBefore(ranked, d, e)
  {
    var j :| 0 <= j < |hits| && hits[j].doc == e;
    HitIsKept(hits, |hits|, j);
    HitIsKept(hits, |hits|, pairs[j]);
    var used := MatchesGiveMore(hits, |hits|, k, d, e, pairs);
    hide ScoreOf, SumOn, IsRanking, ProvenanceOf;
    ChosenAtMost(hits, |hits|, k, used, d);
    StandingIsScore(hits, k, ranked, d, e);
  }

  /** With equal scores the smaller id stands first. */
  lemma TiesGoById(hits: seq<RawHit>, k: nat, ranked: seq<DocumentHit>, i: nat, j: nat)
    requires k > 0 && IsRanking(hits, k, ranked) && i < j < |ranked|
    ensures ranked[i].rrfScore >= ranked[j].rrfScore
    ensures ranked[i].rrfScore == ranked[j].rrfScore ==> ranked[i].doc < ranked[j].doc
  {
    hide ScoreOf, ProvenanceOf, HasDoc;
    assert Before(ranked[i], ranked[j]);
  }

  function Inserted(hits: seq<RawHit>, at: nat, hit: RawHit): seq<RawHit>
    requires at <= |hits|
  {
    hits[..at] + [hit] + hits[at..]
  }

  lemma {:induction false} BeforeTheInsert(hits: seq<RawHit>, at: nat, hit: RawHit, n: nat, k: nat, doc: DocId, channel: string)
    requires n <= at <= |hits| && k > 0
    ensures var more := Inserted(hits, at, hit);
      && CountIn(more, n, channel) == CountIn(hits, n, channel)
      && ScoreOf(more, n, k, doc) == ScoreOf(hits, n, k, doc)
      && HasDoc(more, n, doc) == HasDoc(hits, n, doc)
  {
    if n > 0 {
      BeforeTheInsert(hits, at, hit, n - 1, k, doc, channel);
      BeforeTheInsert(hits, at, hit, n - 1, k, doc, hits[n - 1].channel);
      assert Inserted(hits, at, hit)[n - 1] == hits[n - 1];
    }
  }

  lemma {:induction false} CountsShift(hits: seq<RawHit>, at: nat, hit: RawHit, n: nat, channel: string)
    requires at <= n <= |hits|
    ensures CountIn(Inserted(hits, at, hit), n + 1, channel) == CountIn(hits, n, channel) + if channel == hit.channel then 1 else 0
    decreases n
  {
    var more := Inserted(hits, at, hit);
    if n == at {
      BeforeTheInsert(hits, at, hit, at, 1, 0, channel);
      assert more[at] == hit;
    } else {
      CountsShift(hits, at, hit, n - 1, channel);
      assert more[n] == hits[n - 1];
    }
  }

  /** One more hit gives its document at least what the last place of its
      channel is worth, and gives nothing to any other. */
  lemma {:induction false} InsertGives(hits: seq<RawHit>, at: nat, hit: RawHit, n: nat, k: nat, e: DocId)
    requires at <= n <= |hits| && k > 0 && e != hit.doc
    ensures var more := Inserted(hits, at, hit);
      && ScoreOf(more, n + 1, k, hit.doc) >= ScoreOf(hits, n, k, hit.doc) + RrfContrib(CountIn(hits, n, hit.channel), k)
      && ScoreOf(more, n + 1, k, e) <= ScoreOf(hits, n, k, e)
      && HasDoc(more, n + 1, hit.doc)
      && HasDoc(more, n + 1, e) == HasDoc(hits, n, e)
    decreases n
  {
    var more := Inserted(hits, at, hit);
    if n == at {
      BeforeTheInsert(hits, at, hit, at, k, e, hit.channel);
      BeforeTheInsert(hits, at, hit, at, k, hit.doc, hit.channel);
      assert more[at] == hit;
    } else {
      InsertGives(hits, at, hit, n - 1, k, e);
      var x := hits[n - 1];
      assert more[n] == x;
      CountsShift(hits, at, hit, n - 1, x.channel);
      hide RrfContrib;
      ContribFalls(CountIn(hits, n - 1, x.channel), k);
    }
  }

  /** Another hit, wherever its channel takes it in, never costs its document a
      place: whatever the document stood before, it still stands before. */
  lemma AnotherHitHelps(hits: seq<RawHit>, at: nat, hit: RawHit, k: nat, ranked: seq<DocumentHit>, after: seq<DocumentHit>, e: DocId)
    requires k > 0 && at <= |hits|
    requires IsRanking(hits, k, ranked) && IsRanking(Inserted(hits, at, hit), k, after)
    requires StandsBefore(ranked, hit.doc, e)
    ensures StandsBefore(after, hit.doc, e)
  {
    hide ScoreOf, ProvenanceOf, HasDoc, IsRanking, RrfContrib;
    StandingIsScore(hits, k, ranked, hit.doc, e);
    StandingIsScore(Inserted(hits, at, hit), k, after, hit.doc, e);
    InsertGives(hits, at, hit, |hits|, k, e);
    ContribFalls(CountIn(hits, |hits|, hit.channel), k);
  }

  // ---- conservation ----

  function SumOfScores(docs: seq<DocumentHit>): real {
    if docs == [] then 0.0 else SumOfScores(docs[..|docs| - 1]) + docs[|docs| - 1].rrfScore
  }

  function CountOfEvidence(docs: seq<DocumentHit>): nat {
    if docs == [] then 0 else CountOfEvidence(docs[..|docs| - 1]) + |docs[|docs| - 1].channels|
  }

  /** The ranking redistributes the score of the hits and keeps every hit's
      evidence: nothing is lost, nothing counted twice. */
  lemma RankingConserves(hits: seq<RawHit>, k: nat, ranked: seq<DocumentHit>)
    requires k > 0 && IsRanking(hits, k, ranked)
    ensures SumOfScores(ranked) == SumOf(hits, |hits|, k)
    ensures CountOfEvidence(ranked) == |hits|
    ensures forall i :: 0 <= i < |hits| ==>
      exists h :: h in ranked && h.doc == hits[i].doc && Provenance(hits[i], RankOf(hits, i) + 1) in h.channels
    ensures forall h, p :: h in ranked && p in h.channels ==>
      exists i :: 0 <= i < |hits| && hits[i].doc == h.doc && p == Provenance(hits[i], RankOf(hits, i) + 1)
  {
    var docs := seq(|ranked|, j requires 0 <= j < |ranked| => ranked[j].doc);
    SumsAgree(hits, |hits|, k, docs, ranked);
    forall i | 0 <= i < |hits| ensures hits[i].doc in docs {
      var j := EntryOf(hits, k, ranked, i);
      assert docs[j] == ranked[j].doc;
    }
    PartialSums(hits, |hits|, k, docs);
    forall i | 0 <= i < |hits|
      ensures exists h :: h in ranked && h.doc == hits[i].doc && Provenance(hits[i], RankOf(hits, i) + 1) in h.channels
    {
      HitIsKept(hits, |hits|, i);
      assert Merged(hits, k, hits[i].doc) in ranked;
    }
    forall h, p | h in ranked && p in h.channels
      ensures exists i :: 0 <= i < |hits| && hits[i].doc == h.doc && p == Provenance(hits[i], RankOf(hits, i) + 1)
    {
      EvidenceIsAHit(hits, |hits|, h.doc, p);
    }
  }

  lemma EntryOf(hits: seq<RawHit>, k: nat, ranked: seq<DocumentHit>, i: nat) returns (j: nat)
    requires k > 0 && IsRanking(hits, k, ranked) && i < |hits|
    ensures j < |ranked| && ranked[j].doc == hits[i].doc
  {
    HitIsKept(hits, |hits|, i);
    var entry := Merged(hits, k, hits[i].doc);
    assert entry in ranked;
    j :| 0 <= j < |ranked| && ranked[j] == entry;
  }

  lemma {:induction false} HitIsKept(hits: seq<RawHit>, n: nat, i: nat)
    requires i < n <= |hits|
    ensures HasDoc(hits, n, hits[i].doc)
    ensures Provenance(hits[i], RankOf(hits, i) + 1) in ProvenanceOf(hits, n, hits[i].doc)
  {
    if i < n - 1 { HitIsKept(hits, n - 1, i); }
  }

  lemma {:induction false} EvidenceIsAHit(hits: seq<RawHit>, n: nat, doc: DocId, p: Provenance)
    requires n <= |hits| && p in ProvenanceOf(hits, n, doc)
    ensures exists i :: 0 <= i < n && hits[i].doc == doc && p == Provenance(hits[i], RankOf(hits, i) + 1)
  {
    if hits[n - 1].doc != doc || p != Provenance(hits[n - 1], RankOf(hits, n - 1) + 1) {
      EvidenceIsAHit(hits, n - 1, doc, p);
    }
  }

  function PartialScore(hits: seq<RawHit>, n: nat, k: nat, docs: seq<DocId>): real
    requires n <= |hits| && k > 0
  {
    if docs == [] then 0.0
    else PartialScore(hits, n, k, docs[..|docs| - 1]) + ScoreOf(hits, n, k, docs[|docs| - 1])
  }

  function PartialCount(hits: seq<RawHit>, n: nat, docs: seq<DocId>): nat
    requires n <= |hits|
  {
    if docs == [] then 0
    else PartialCount(hits, n, docs[..|docs| - 1]) + |ProvenanceOf(hits, n, docs[|docs| - 1])|
  }

  lemma {:induction false} SumsAgree(hits: seq<RawHit>, n: nat, k: nat, docs: seq<DocId>, ranked: seq<DocumentHit>)
    requires k > 0 && n == |hits| && |docs| == |ranked|
    requires forall j :: 0 <= j < |ranked| ==> ranked[j].doc == docs[j] && ranked[j] == Merged(hits, k, docs[j])
    ensures SumOfScores(ranked) == PartialScore(hits, n, k, docs)
    ensures CountOfEvidence(ranked) == PartialCount(hits, n, docs)
  {
    if docs != [] { SumsAgree(hits, n, k, docs[..|docs| - 1], ranked[..|docs| - 1]); }
  }

  /** Each hit adds its contribution to the one entry of its document. */
  lemma {:induction false} PartialStep(hits: seq<RawHit>, n: nat, k: nat, docs: seq<DocId>)
    requires 0 < n <= |hits| && k > 0
    requires forall i, j :: 0 <= i < j < |docs| ==> docs[i] != docs[j]
    ensures PartialScore(hits, n, k, docs)
         == PartialScore(hits, n - 1, k, docs) + if hits[n - 1].doc in docs then RrfContrib(RankOf(hits, n - 1), k) else 0.0
    ensures PartialCount(hits, n, docs)
         == PartialCount(hits, n - 1, docs) + if hits[n - 1].doc in docs then 1 else 0
  {
    if docs != [] {
      PartialStep(hits, n, k, docs[..|docs| - 1]);
      assert docs == docs[..|docs| - 1] + [docs[|docs| - 1]];
    }
  }

  lemma {:induction false} PartialSums(hits: seq<RawHit>, n: nat, k: nat, docs: seq<DocId>)
    requires n <= |hits| && k > 0
    requires forall i, j :: 0 <= i < j < |docs| ==> docs[i] != docs[j]
    requires forall i :: 0 <= i < n ==> hits[i].doc in docs
    ensures PartialScore(hits, n, k, docs) == SumOf(hits, n, k)
    ensures PartialCount(hits, n, docs) == n
  {
    hide PartialScore, PartialCount, RankOf, RrfContrib;
    if n == 0 {
      NothingYet(hits, k, docs);
    } else {
      PartialSums(hits, n - 1, k, docs);
      PartialStep(hits, n, k, docs);
    }
  }

  lemma {:induction false} NothingYet(hits: seq<RawHit>, k: nat, docs: seq<DocId>)
    requires k > 0
    ensures PartialScore(hits, 0, k, docs) == 0.0 && PartialCount(hits, 0, docs) == 0
  {
    if docs != [] { NothingYet(hits, k, docs[..|docs| - 1]); }
  }

  /** Within a channel of n hits the ranks are exactly 0..n-1, in input order. */
  lemma {:induction false} RanksAreConsecutive(hits: seq<RawHit>, n: nat, channel: string, rank: nat)
    requires n <= |hits|
    ensures rank < CountIn(hits, n, channel) <==>
      exists i :: 0 <= i < n && hits[i].channel == channel && RankOf(hits, i) == rank
    ensures forall i, j :: 0 <= i < j < n && hits[i].channel == channel && hits[j].channel == channel ==> RankOf(hits, i) < RankOf(hits, j)
  {
    if n > 0 {
      RanksAreConsecutive(hits, n - 1, channel, rank);
      forall i | 0 <= i < n - 1 && hits[i].channel == channel ensures RankOf(hits, i) < CountIn(hits, n - 1, channel) {
        RanksAreConsecutive(hits, n - 1, channel, RankOf(hits, i));
      }
    }
  }

  // ---- paging ----

  /** Where the next page starts in the ordering, and what was delivered. */
  datatype Cursor = Cursor(offset: nat, seen: set<DocId>)

  function Docs(hits: seq<DocumentHit>): set<DocId> { set h | h in hits :: h.doc }

  ghost predicate Distinct(hits: seq<DocumentHit>) {
    forall i, j :: 0 <= i < j < |hits| ==> hits[i].doc != hits[j].doc
  }

  /** The unseen hits from an index on: what is left to deliver. */
  function Left(ordered: seq<DocumentHit>, from: nat, seen: set<DocId>): seq<DocumentHit>
    decreases |ordered| - from
  {
    if from >= |ordered| then []
    else (if ordered[from].doc in seen then [] else [ordered[from]]) + Left(ordered, from + 1, seen)
  }

  /** What one page delivers and the cursor it hands back. */
  ghost predicate Page(ordered: seq<DocumentHit>, cursor: Cursor, batch: nat, page: seq<DocumentHit>, next: Option<Cursor>) {
    exists end: nat :: PageTo(ordered, cursor, batch, page, next, end)
  }

  ghost predicate PageTo(ordered: seq<DocumentHit>, cursor: Cursor, batch: nat, page: seq<DocumentHit>, next: Option<Cursor>, end: nat) {
    var left := Left(ordered, cursor.offset, cursor.seen);
    && |page| == (if |left| < batch then |left| else batch)
    && cursor.offset <= end
    && left == page + Left(ordered, end, cursor.seen)
    && (if page == [] then end == cursor.offset else 0 < end <= |ordered| && ordered[end - 1] == page[|page| - 1])
    && next == (if |page| < |left| then Some(Cursor(end, cursor.seen + Docs(page))) else None)
  }

  lemma LeftAt(ordered: seq<DocumentHit>, from: nat, seen: set<DocId>)
    requires from < |ordered|
    ensures Left(ordered, from, seen) == (if ordered[from].doc in seen then [] else [ordered[from]]) + Left(ordered, from + 1, seen)
  {
  }

  lemma LeftPast(ordered: seq<DocumentHit>, from: nat, seen: set<DocId>)
    requires from >= |ordered|
    ensures Left(ordered, from, seen) == []
  {
  }

  method RecallPage(ordered: seq<DocumentHit>, cursor: Cursor, batch: nat)
    returns (page: seq<DocumentHit>, next: Option<Cursor>)
    ensures Page(ordered, cursor, batch, page, next)
  {
    hide Left, Docs;
    page := [];
    var end := cursor.offset;
    var index := 0;
    ghost var left := Left(ordered, cursor.offset, cursor.seen);
    ghost var rest := left;
    while index < |ordered|
      invariant index <= |ordered|
      invariant |page| <= batch && cursor.offset <= end
      invariant index <= cursor.offset ==> page == [] && end == cursor.offset
      invariant if page == [] then end == cursor.offset else 0 < end <= index && ordered[end - 1] == page[|page| - 1]
      invariant left == page + rest && rest == Left(ordered, end, cursor.seen)
      invariant rest == Left(ordered, if index < cursor.offset then cursor.offset else index, cursor.seen)
    {
      LeftAt(ordered, index, cursor.seen);
      var hit := ordered[index];
      if index < cursor.offset || hit.doc in cursor.seen {
        index := index + 1;
        continue;
      }
      if |page| >= batch {
        break;
      }
      rest := Left(ordered, index + 1, cursor.seen);
      assert left == (page + [hit]) + rest;
      page := page + [hit];
      end := index + 1;
      index := index + 1;
    }
    if index >= |ordered| { LeftPast(ordered, if index < cursor.offset then cursor.offset else index, cursor.seen); }
    var remaining := CountUnseen(ordered, end, cursor.seen);
    next := if remaining > 0 then Some(Cursor(end, cursor.seen + Docs(page))) else None;
    assert PageTo(ordered, cursor, batch, page, next, end);
  }

  method CountUnseen(ordered: seq<DocumentHit>, end: nat, seen: set<DocId>) returns (remaining: nat)
    ensures remaining == |Left(ordered, end, seen)|
  {
    hide Left;
    remaining := 0;
    var i := end;
    while i < |ordered|
      invariant end <= i
      invariant remaining + |Left(ordered, i, seen)| == |Left(ordered, end, seen)|
    {
      LeftAt(ordered, i, seen);
      if ordered[i].doc !in seen { remaining := remaining + 1; }
      i := i + 1;
    }
    LeftPast(ordered, i, seen);
  }

  // ---- following cursors ----

  /** Pages fetched one after another, each from the cursor the last one gave,
      each over whatever the ordering then was. */
  ghost predicate Walk(orders: seq<seq<DocumentHit>>, start: Cursor, batch: nat, pages: seq<seq<DocumentHit>>, end: Option<Cursor>) {
    |orders| == |pages| &&
    if pages == [] then end == Some(start)
    else
      exists next ::
        && Page(orders[0], start, batch, pages[0], next)
        && (match next
            case None => |pages| == 1 && end == None
            case Some(cursor) => Walk(orders[1..], cursor, batch, pages[1..], end))
  }

  lemma FirstPage(orders: seq<seq<DocumentHit>>, start: Cursor, batch: nat, pages: seq<seq<DocumentHit>>, end: Option<Cursor>) returns (next: Option<Cursor>)
    requires Walk(orders, start, batch, pages, end) && pages != []
    ensures orders != [] && Page(orders[0], start, batch, pages[0], next)
    ensures match next
            case None => |pages| == 1 && end == None
            case Some(cursor) => Walk(orders[1..], cursor, batch, pages[1..], end)
  {
    next :| Page(orders[0], start, batch, pages[0], next)
      && match next
         case None => |pages| == 1 && end == None
         case Some(cursor) => Walk(orders[1..], cursor, batch, pages[1..], end);
  }

  function Delivered(pages: seq<seq<DocumentHit>>): seq<DocumentHit> {
    if pages == [] then [] else pages[0] + Delivered(pages[1..])
  }

  lemma LeftIsSuffix(ordered: seq<DocumentHit>, from: nat, seen: set<DocId>)
    requires Distinct(ordered)
    ensures Distinct(Left(ordered, from, seen))
    ensures forall h :: h in Left(ordered, from, seen) <==> exists i :: from <= i < |ordered| && ordered[i] == h && h.doc !in seen
  {
    LeftHolds(ordered, from, seen);
    LeftIsDistinct(ordered, from, seen);
  }

  lemma {:induction false} LeftIsDistinct(ordered: seq<DocumentHit>, from: nat, seen: set<DocId>)
    requires Distinct(ordered)
    ensures Distinct(Left(ordered, from, seen))
    decreases |ordered| - from
  {
    if from < |ordered| {
      LeftIsDistinct(ordered, from + 1, seen);
      var here, rest := ordered[from], Left(ordered, from + 1, seen);
      forall h | h in rest ensures h.doc != here.doc { BehindDiffers(ordered, from, seen, h); }
      FirstOfDistinct(here, rest);
      assert Left(ordered, from, seen) == if here.doc in seen then rest else [here] + rest;
    }
  }

  lemma BehindDiffers(ordered: seq<DocumentHit>, from: nat, seen: set<DocId>, h: DocumentHit)
    requires Distinct(ordered) && from < |ordered| && h in Left(ordered, from + 1, seen)
    ensures h.doc != ordered[from].doc
  {
    LeftHolds(ordered, from + 1, seen);
    hide Left;
    var i :| from + 1 <= i < |ordered| && ordered[i] == h;
  }

  lemma FirstOfDistinct(here: DocumentHit, rest: seq<DocumentHit>)
    requires Distinct(rest) && forall h :: h in rest ==> h.doc != here.doc
    ensures Distinct([here] + rest)
  {
  }

  lemma {:induction false} LeftHolds(ordered: seq<DocumentHit>, from: nat, seen: set<DocId>)
    ensures forall h :: h in Left(ordered, from, seen) <==> exists i :: from <= i < |ordered| && ordered[i] == h && h.doc !in seen
    decreases |ordered| - from
  {
    if from < |ordered| {
      LeftHolds(ordered, from + 1, seen);
      var here, rest := ordered[from], Left(ordered, from + 1, seen);
      var left := Left(ordered, from, seen);
      assert left == (if here.doc in seen then [] else [here]) + rest;
      hide Left;
      forall h ensures h in left <==> exists i :: from <= i < |ordered| && ordered[i] == h && h.doc !in seen {
        assert h in left <==> (h == here && here.doc !in seen) || h in rest;
        if h == here && here.doc !in seen { assert ordered[from] == h; }
      }
    }
  }

  /** What is left does not depend on documents that only stand earlier. */
  lemma {:induction false} LeftIgnores(ordered: seq<DocumentHit>, from: nat, seen: set<DocId>, more: set<DocId>)
    requires forall i :: from <= i < |ordered| ==> ordered[i].doc !in more
    ensures Left(ordered, from, seen + more) == Left(ordered, from, seen)
    decreases |ordered| - from
  {
    if from < |ordered| { LeftIgnores(ordered, from + 1, seen, more); }
  }

  /** A page of an ordering leaves exactly the rest of it to the next. */
  lemma PageLeavesRest(ordered: seq<DocumentHit>, cursor: Cursor, batch: nat, page: seq<DocumentHit>, next: Option<Cursor>)
    requires Distinct(ordered) && Page(ordered, cursor, batch, page, next)
    ensures Left(ordered, cursor.offset, cursor.seen)
         == page + match next case None => [] case Some(c) => Left(ordered, c.offset, c.seen)
    ensures next.None? <==> |Left(ordered, cursor.offset, cursor.seen)| <= batch
    ensures next.Some? ==> |page| == batch
  {
    var end: nat :| PageTo(ordered, cursor, batch, page, next, end);
    var left := Left(ordered, cursor.offset, cursor.seen);
    var rest := Left(ordered, end, cursor.seen);
    hide Left;
    LeftIsSuffix(ordered, cursor.offset, cursor.seen);
    assert left[..|page|] == page;
    forall i | end <= i < |ordered| ensures ordered[i].doc !in Docs(page) {
      LeftIsSuffix(ordered, end, cursor.seen);
      if ordered[i].doc in cursor.seen {
        assert forall h :: h in page ==> h in left;
      } else {
        var q :| 0 <= q < |rest| && rest[q] == ordered[i];
        assert left[|page| + q] == ordered[i];
        assert forall p :: 0 <= p < |page| ==> left[p] == page[p];
      }
    }
    LeftIgnores(ordered, end, cursor.seen, Docs(page));
  }

  /** Candidates unchanged: the pages, put together, are the ranking from the
      first cursor on, all but the last of them full. */
  lemma {:induction false} PagesAreTheRanking(ordered: seq<DocumentHit>, orders: seq<seq<DocumentHit>>, start: Cursor, batch: nat, pages: seq<seq<DocumentHit>>, end: Option<Cursor>)
    requires Distinct(ordered) && Walk(orders, start, batch, pages, end)
    requires forall i :: 0 <= i < |orders| ==> orders[i] == ordered
    ensures Left(ordered, start.offset, start.seen)
         == Delivered(pages) + match end case None => [] case Some(c) => Left(ordered, c.offset, c.seen)
    ensures end.Some? ==> |Delivered(pages)| == |pages| * batch
    ensures end.Some? && pages != [] ==> |pages| * batch < |Left(ordered, start.offset, start.seen)|
  {
    hide Left, Page;
    if pages != [] {
      var next := FirstPage(orders, start, batch, pages, end);
      PageLeavesRest(ordered, start, batch, pages[0], next);
      if next.Some? {
        PagesAreTheRanking(ordered, orders[1..], next.value, batch, pages[1..], end);
        ghost var more := |pages[1..]|;
        assert |pages| * batch == (more + 1) * batch == batch + more * batch;
      } else {
        assert pages == [pages[0]] && Delivered(pages[1..]) == [];
      }
    }
  }

  lemma {:induction false} AllIsLeft(ordered: seq<DocumentHit>, from: nat)
    requires from <= |ordered|
    ensures Left(ordered, from, {}) == ordered[from..]
    decreases |ordered| - from
  {
    if from < |ordered| { AllIsLeft(ordered, from + 1); }
  }

  /** A whole recall over unchanged candidates: every page ranks the same hits,
      so the concatenation is the one ranking, and it ends. */
  lemma RecallDeliversTheRanking(hits: seq<RawHit>, k: nat, ranked: seq<DocumentHit>, orders: seq<seq<DocumentHit>>, batch: nat, pages: seq<seq<DocumentHit>>, end: Option<Cursor>)
    requires k > 0 && IsRanking(hits, k, ranked)
    requires Walk(orders, Cursor(0, {}), batch, pages, end)
    requires forall i :: 0 <= i < |orders| ==> IsRanking(hits, k, orders[i])
    ensures Delivered(pages) <= ranked
    ensures end.None? ==> Delivered(pages) == ranked
    ensures pages != [] && |pages| * batch >= |ranked| ==> end.None?
  {
    forall i | 0 <= i < |orders| ensures orders[i] == ranked { RankingIsUnique(hits, k, orders[i], ranked); }
    RankedAreDistinct(hits, k, ranked);
    PagesAreTheRanking(ranked, orders, Cursor(0, {}), batch, pages, end);
    AllIsLeft(ranked, 0);
  }

  lemma RankedAreDistinct(hits: seq<RawHit>, k: nat, ranked: seq<DocumentHit>)
    requires k > 0 && IsRanking(hits, k, ranked)
    ensures Distinct(ranked)
  {
    forall i, j | 0 <= i < j < |ranked| ensures ranked[i].doc != ranked[j].doc {
      assert ranked[i] in ranked && ranked[j] in ranked && Before(ranked[i], ranked[j]);
    }
  }

  /** Candidates changing at will between pages: no document comes twice, and
      the cursor remembers exactly what was delivered. */
  lemma {:induction false} NoDocumentTwice(orders: seq<seq<DocumentHit>>, start: Cursor, batch: nat, pages: seq<seq<DocumentHit>>, end: Option<Cursor>)
    requires Walk(orders, start, batch, pages, end)
    requires forall i :: 0 <= i < |orders| ==> Distinct(orders[i])
    ensures Distinct(Delivered(pages))
    ensures Docs(Delivered(pages)) !! start.seen
    ensures end.Some? ==> end.value.seen == start.seen + Docs(Delivered(pages))
  {
    if pages != [] {
      hide Left;
      var next := FirstPage(orders, start, batch, pages, end);
      PageIsFresh(orders[0], start, batch, pages[0], next);
      var page, rest := pages[0], Delivered(pages[1..]);
      assert Delivered(pages) == page + rest;
      DocsOfBoth(page, rest);
      if next.Some? {
        NoDocumentTwice(orders[1..], next.value, batch, pages[1..], end);
      } else {
        assert pages[1..] == [] && rest == [];
      }
    }
  }

  lemma DocsOfBoth(page: seq<DocumentHit>, rest: seq<DocumentHit>)
    ensures Docs(page + rest) == Docs(page) + Docs(rest)
    ensures Distinct(page) && Distinct(rest) && Docs(page) !! Docs(rest) ==> Distinct(page + rest)
  {
    assert forall h :: h in page + rest <==> h in page || h in rest;
    if Distinct(page) && Distinct(rest) && Docs(page) !! Docs(rest) {
      forall i, j | 0 <= i < j < |page + rest| ensures (page + rest)[i].doc != (page + rest)[j].doc {
        if i < |page| <= j {
          assert (page + rest)[i] in page && (page + rest)[j] in rest;
          assert (page + rest)[i].doc in Docs(page) && (page + rest)[j].doc in Docs(rest);
        }
      }
    }
  }

  lemma PageIsFresh(ordered: seq<DocumentHit>, cursor: Cursor, batch: nat, page: seq<DocumentHit>, next: Option<Cursor>)
    requires Distinct(ordered) && Page(ordered, cursor, batch, page, next)
    ensures Distinct(page) && Docs(page) !! cursor.seen
    ensures next.Some? ==> next.value.seen == cursor.seen + Docs(page)
  {
    LeftIsSuffix(ordered, cursor.offset, cursor.seen);
    var left := Left(ordered, cursor.offset, cursor.seen);
    assert left[..|page|] == page;
    assert forall h :: h in page ==> h in left;
  }

  /** A page takes or keeps ahead of the cursor exactly the unseen documents
      that its ordering puts at the offset or after it. */
  lemma PagePassesOver(ordered: seq<DocumentHit>, cursor: Cursor, batch: nat, page: seq<DocumentHit>, next: Option<Cursor>, at: nat)
    requires Distinct(ordered) && Page(ordered, cursor, batch, page, next)
    requires at < |ordered| && ordered[at].doc !in cursor.seen
    ensures (ordered[at].doc in Docs(page) || (next.Some? && at >= next.value.offset)) <==> at >= cursor.offset
  {
    LeftIsSuffix(ordered, cursor.offset, cursor.seen);
    PageLeavesRest(ordered, cursor, batch, page, next);
    var left := Left(ordered, cursor.offset, cursor.seen);
    if at >= cursor.offset {
      assert ordered[at] in left;
      if next.Some? { LeftIsSuffix(ordered, next.value.offset, next.value.seen); }
    } else {
      forall h | h in page ensures h.doc != ordered[at].doc { assert h in left; }
    }
  }

  /** A document is only ever missed by moving towards the front: one that never
      does is delivered by every recall that comes to its end. */
  lemma {:induction false} SteadyDocumentIsDelivered(orders: seq<seq<DocumentHit>>, start: Cursor, batch: nat, pages: seq<seq<DocumentHit>>, doc: DocId, at: seq<nat>)
    requires Walk(orders, start, batch, pages, None)
    requires forall i :: 0 <= i < |orders| ==> Distinct(orders[i])
    requires |at| == |orders| && forall i :: 0 <= i < |at| ==> at[i] < |orders[i]| && orders[i][at[i]].doc == doc
    requires forall i :: 0 < i < |at| ==> at[i - 1] <= at[i]
    requires doc !in start.seen && at != [] && at[0] >= start.offset
    ensures doc in Docs(Delivered(pages))
  {
    var next := FirstPage(orders, start, batch, pages, None);
    PagePassesOver(orders[0], start, batch, pages[0], next, at[0]);
    if doc in Docs(pages[0]) {
      var h :| h in pages[0] && h.doc == doc;
      assert h in Delivered(pages);
    } else {
      assert pages[1..] != [];
      SteadyDocumentIsDelivered(orders[1..], next.value, batch, pages[1..], doc, at[1..]);
      var h :| h in Delivered(pages[1..]) && h.doc == doc;
      assert h in Delivered(pages);
    }
  }

  /** The cursors that the pages of a completed recall were fetched from. */
  ghost predicate Trail(orders: seq<seq<DocumentHit>>, start: Cursor, batch: nat, pages: seq<seq<DocumentHit>>, trail: seq<Cursor>) {
    && |trail| == |pages| == |orders| && trail != [] && trail[0] == start
    && forall i :: 0 <= i < |trail| ==> Page(orders[i], trail[i], batch, pages[i], NextOf(trail, i))
  }

  function NextOf(trail: seq<Cursor>, i: nat): Option<Cursor>
    requires i < |trail|
  {
    if i + 1 < |trail| then Some(trail[i + 1]) else None
  }

  lemma {:induction false} TrailOf(orders: seq<seq<DocumentHit>>, start: Cursor, batch: nat, pages: seq<seq<DocumentHit>>) returns (trail: seq<Cursor>)
    requires Walk(orders, start, batch, pages, None)
    ensures Trail(orders, start, batch, pages, trail)
  {
    hide Page;
    var next := FirstPage(orders, start, batch, pages, None);
    if next.None? {
      trail := [start];
    } else {
      var more := TrailOf(orders[1..], next.value, batch, pages[1..]);
      trail := [start] + more;
      forall i | 0 <= i < |trail| ensures Page(orders[i], trail[i], batch, pages[i], NextOf(trail, i)) {
        if i > 0 {
          assert Page(orders[1..][i - 1], more[i - 1], batch, pages[1..][i - 1], NextOf(more, i - 1));
        }
      }
    }
  }

  /** The ordering of page `i` has the document from the page's offset up to the
      next one's, or to the end for the last page. */
  ghost predicate StandsIn(orders: seq<seq<DocumentHit>>, trail: seq<Cursor>, i: nat, doc: DocId)
    requires i < |trail| == |orders|
  {
    StandsBetween(orders[i], trail[i], NextOf(trail, i), doc)
  }

  ghost predicate StandsBetween(ordered: seq<DocumentHit>, cursor: Cursor, next: Option<Cursor>, doc: DocId) {
    exists at :: cursor.offset <= at < |ordered| && (next.Some? ==> at < next.value.offset) && ordered[at].doc == doc
  }

  lemma PageStandsBefore(ordered: seq<DocumentHit>, cursor: Cursor, batch: nat, page: seq<DocumentHit>, next: Option<Cursor>, at: nat)
    requires Distinct(ordered) && Page(ordered, cursor, batch, page, next)
    requires at < |ordered| && ordered[at].doc in Docs(page)
    ensures next.Some? ==> at < next.value.offset
  {
    LeftIsDistinct(ordered, cursor.offset, cursor.seen);
    PageIsFresh(ordered, cursor, batch, page, next);
    var end: nat :| PageTo(ordered, cursor, batch, page, next, end);
    var left, rest := Left(ordered, cursor.offset, cursor.seen), Left(ordered, end, cursor.seen);
    assert left == page + rest && (next.Some? ==> next.value.offset == end);
    hide Page, PageTo;
    if next.Some? && at >= end {
      LeftHolds(ordered, end, cursor.seen);
      hide Left;
      var h :| h in page && h.doc == ordered[at].doc;
      assert h.doc in Docs(page);
      assert ordered[at] in rest;
      PartsDiffer(page, rest, h, ordered[at]);
    }
  }

  lemma PartsDiffer(page: seq<DocumentHit>, rest: seq<DocumentHit>, h: DocumentHit, x: DocumentHit)
    requires Distinct(page + rest) && h in page && x in rest
    ensures h.doc != x.doc
  {
    var i :| 0 <= i < |page| && page[i] == h;
    var j :| 0 <= j < |rest| && rest[j] == x;
    assert (page + rest)[i] == h && (page + rest)[|page| + j] == x;
  }

  /** A page delivers an unseen document if and only if it stands there. */
  lemma PageHolds(ordered: seq<DocumentHit>, cursor: Cursor, batch: nat, page: seq<DocumentHit>, next: Option<Cursor>, doc: DocId)
    requires Distinct(ordered) && Page(ordered, cursor, batch, page, next) && doc !in cursor.seen
    ensures doc in Docs(page) <==> StandsBetween(ordered, cursor, next, doc)
  {
    hide Page;
    if doc in Docs(page) {
      var at := PlaceOfTaken(ordered, cursor, batch, page, next, doc);
      PagePassesOver(ordered, cursor, batch, page, next, at);
      PageStandsBefore(ordered, cursor, batch, page, next, at);
    }
    hide Docs;
    if StandsBetween(ordered, cursor, next, doc) {
      var at :| cursor.offset <= at < |ordered| && (next.Some? ==> at < next.value.offset) && ordered[at].doc == doc;
      PagePassesOver(ordered, cursor, batch, page, next, at);
    }
  }

  lemma PlaceOfTaken(ordered: seq<DocumentHit>, cursor: Cursor, batch: nat, page: seq<DocumentHit>, next: Option<Cursor>, doc: DocId) returns (at: nat)
    requires Distinct(ordered) && Page(ordered, cursor, batch, page, next) && doc in Docs(page)
    ensures at < |ordered| && ordered[at].doc == doc
  {
    PageLeavesRest(ordered, cursor, batch, page, next);
    LeftHolds(ordered, cursor.offset, cursor.seen);
    hide Page, Left;
    var h :| h in page && h.doc == doc;
    assert h in Left(ordered, cursor.offset, cursor.seen);
    at :| 0 <= at < |ordered| && ordered[at] == h;
  }

  /** A completed recall delivers a document if and only if the ordering of some
      page has it from that page's offset up to the next. */
  lemma {:induction false} DeliveredExactlyWhen(orders: seq<seq<DocumentHit>>, start: Cursor, batch: nat, pages: seq<seq<DocumentHit>>, trail: seq<Cursor>, doc: DocId)
    requires Trail(orders, start, batch, pages, trail) && doc !in start.seen
    requires forall i :: 0 <= i < |orders| ==> Distinct(orders[i])
    ensures doc in Docs(Delivered(pages)) <==> exists i :: 0 <= i < |trail| && StandsIn(orders, trail, i, doc)
    decreases |pages|
  {
    hide Page, StandsBetween;
    var next := NextOf(trail, 0);
    assert Page(orders[0], start, batch, pages[0], next);
    PageHolds(orders[0], start, batch, pages[0], next, doc);
    assert Delivered(pages) == pages[0] + Delivered(pages[1..]);
    DocsOfBoth(pages[0], Delivered(pages[1..]));
    if doc in Docs(pages[0]) {
      assert StandsIn(orders, trail, 0, doc);
    } else if next.None? {
      assert pages[1..] == [] && Delivered(pages[1..]) == [];
    } else {
      PageIsFresh(orders[0], start, batch, pages[0], next);
      TrailTail(orders, start, batch, pages, trail);
      hide Delivered, Docs;
      DeliveredExactlyWhen(orders[1..], trail[1], batch, pages[1..], trail[1..], doc);
      LaterStands(orders, trail, doc);
    }
  }

  lemma TrailTail(orders: seq<seq<DocumentHit>>, start: Cursor, batch: nat, pages: seq<seq<DocumentHit>>, trail: seq<Cursor>)
    requires Trail(orders, start, batch, pages, trail) && |trail| > 1
    ensures Trail(orders[1..], trail[1], batch, pages[1..], trail[1..])
  {
    hide Page;
    forall i | 0 <= i < |trail| - 1
      ensures Page(orders[1..][i], trail[1..][i], batch, pages[1..][i], NextOf(trail[1..], i))
    {
      assert Page(orders[i + 1], trail[i + 1], batch, pages[i + 1], NextOf(trail, i + 1));
    }
  }

  lemma LaterStands(orders: seq<seq<DocumentHit>>, trail: seq<Cursor>, doc: DocId)
    requires |trail| == |orders| && |trail| > 1 && !StandsIn(orders, trail, 0, doc)
    ensures (exists i :: 0 <= i < |trail| && StandsIn(orders, trail, i, doc))
       <==> exists i :: 0 <= i < |trail[1..]| && StandsIn(orders[1..], trail[1..], i, doc)
  {
    hide StandsBetween;
    forall i | 0 <= i < |trail| - 1 ensures StandsIn(orders[1..], trail[1..], i, doc) <==> StandsIn(orders, trail, i + 1, doc) {
      assert NextOf(trail[1..], i) == NextOf(trail, i + 1);
    }
    hide StandsIn;
    if exists i :: 0 <= i < |trail| && StandsIn(orders, trail, i, doc) {
      var i :| 0 <= i < |trail| && StandsIn(orders, trail, i, doc);
      assert StandsIn(orders[1..], trail[1..], i - 1, doc);
    }
  }

  /** One that does can be missed: two documents swap between two pages. */
  lemma SwappedDocumentIsMissed(a: DocumentHit, b: DocumentHit)
    requires a.doc != b.doc
    ensures Walk([[a, b], [b, a]], Cursor(0, {}), 1, [[a], []], None)
  {
    var next := Cursor(1, {a.doc});
    var one, two := [a, b], [b, a];
    assert Left(one, 2, {}) == [] && Left(one, 1, {}) == [b] && Left(one, 0, {}) == [a, b];
    assert Docs([a]) == {a.doc} by { assert a in [a]; }
    assert {} + Docs([a]) == {a.doc};
    assert PageTo(one, Cursor(0, {}), 1, [a], Some(next), 1);
    assert Left(two, 2, {a.doc}) == [] && Left(two, 1, {a.doc}) == [];
    assert PageTo(two, next, 1, [], None, 1);
    assert Page(two, next, 1, [], None);
    var rest: seq<seq<DocumentHit>> := [[]];
    assert Walk([two], next, 1, rest, None) by {
      assert rest[0] == [] && [two][0] == two;
      assert Page([two][0], next, 1, rest[0], None);
    }
    assert [one, two][1..] == [two] && [[a], []][1..] == rest;
    assert Page([one, two][0], Cursor(0, {}), 1, [[a], []][0], Some(next));
  }

  /** With a page size of zero the cursor never moves and the recall never ends. */
  lemma ZeroBatchNeverEnds(ordered: seq<DocumentHit>, cursor: Cursor, next: Option<Cursor>)
    requires Page(ordered, cursor, 0, [], next) && Left(ordered, cursor.offset, cursor.seen) != []
    ensures next == Some(cursor)
  {
    var end: nat :| PageTo(ordered, cursor, 0, [], next, end);
    assert cursor.seen + Docs([]) == cursor.seen;
  }
}
