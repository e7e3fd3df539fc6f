/** What the overlap repeats, how large a chunk can get, and where every word
    of a unit ends up. */
module ChunkSizes {
  import opened Options
  import opened Words
  import opened ChunkWindows
  import opened ChunkFlow
  import ChunkTables

  // ---- the overlap is a word suffix ----

  lemma {:induction false} TaggedWords(parts: seq<Part>)
    ensures WordsOf(Tagged(parts)) == SplitAll(Texts(parts))
  {
    if parts == [] {
      assert Texts(parts) == [];
    } else {
      var init, last := parts[..|parts| - 1], parts[|parts| - 1];
      TaggedWords(init);
      assert Texts(parts) == Texts(init) + [last.text];
      SplitAllConcat(Texts(init), [last.text]);
      assert SplitAll([last.text]) == Split(last.text) + [];
      assert WordsOf(Tag(Split(last.text), last.ids)) == Split(last.text);
      assert WordsOf(Tagged(parts)) == WordsOf(Tagged(init)) + WordsOf(Tag(Split(last.text), last.ids));
    }
  }

  lemma WordsOfText(parts: seq<Part>)
    ensures Split(TextOf(parts)) == WordsOf(Tagged(parts))
  {
    TaggedWords(parts);
    WordsOfJoin('\n', Texts(parts));
  }

  lemma {:induction false} TailLenLeast(words: seq<string>, n: nat, k: nat)
    requires n <= |words| && n <= k < TailLen(words, n)
    ensures Cost(words, |words| - k, |words|) < OVERLAP
    decreases |words| - n
  {
    if n < k { TailLenLeast(words, n + 1, k); }
  }

  lemma {:induction false} TailLenEnough(words: seq<string>, n: nat)
    requires n <= |words|
    ensures var m := TailLen(words, n); m == |words| || Cost(words, |words| - m, |words|) >= OVERLAP
    decreases |words| - n
  {
    if n != TailLen(words, n) { TailLenEnough(words, n + 1); }
  }

  /** The overlap repeats the last words of the chunk's text: the fewest that
      cost the overlap budget, or all of them. */
  lemma TailIsSuffix(parts: seq<Part>) returns (from: nat)
    ensures var words := Split(TextOf(parts));
      && from <= |words|
      && Split(Tail(parts).text) == words[from..]
      && (from == 0 || Cost(words, from, |words|) >= OVERLAP)
      && (from < |words| ==> Cost(words, from + 1, |words|) < OVERLAP)
  {
    var words := Split(TextOf(parts));
    from := |words| - TailLen(words, 0);
    TailIsJoin(parts);
    SplitGivesWords("", TextOf(parts));
    assert forall w :: w in words ==> IsWord(w);
    hide Tail, TextOf, WordsFrom, TailLen, Cost, IsWord, Join;
    assert forall i :: 0 <= i < |words[from..]| ==> words[from..][i] in words;
    JoinThenSplit(' ', words[from..]);
    TailLenEnough(words, 0);
    if from < |words| { TailLenLeast(words, 0, |words| - from - 1); }
  }

  /** Words of the first `n` parts. */
  ghost function WordsBefore(parts: seq<Part>, n: nat): nat
    requires n <= |parts|
  {
    |SplitAll(Texts(parts[..n]))|
  }

  /** Part `i` has a word at or behind position `from`. */
  ghost predicate Reaches(parts: seq<Part>, from: nat, i: nat)
    requires i < |parts|
  {
    Split(parts[i].text) != [] && from < WordsBefore(parts, i + 1)
  }

  /** And it lists, each once, exactly the blocks it takes words from. */
  lemma TailIds(parts: seq<Part>)
    ensures Distinct(Tail(parts).ids)
    ensures var words := Split(TextOf(parts));
      forall x :: x in Tail(parts).ids <==>
        exists i :: 0 <= i < |parts| && x in parts[i].ids && Reaches(parts, |words| - TailLen(words, 0), i)
  {
    var tagged := Tagged(parts);
    var words := WordsOf(tagged);
    var from := |words| - TailLen(words, 0);
    WordsOfText(parts);
    CollectIds(tagged[from..]);
    ReverseSet(Collect(tagged[from..]));
    assert Tail(parts).ids == Reverse(Collect(tagged[from..]));
    hide Tail, TextOf, Reaches, TailLen, Tagged, Split, Reverse, Collect, Carries;
    forall x ensures x in Tail(parts).ids <==> exists i :: 0 <= i < |parts| && x in parts[i].ids && Reaches(parts, from, i) {
      TaggedFrom(parts, from, x);
    }
  }

  lemma ReverseSet(ids: seq<string>)
    requires Distinct(ids)
    ensures Distinct(Reverse(ids)) && forall x :: x in Reverse(ids) <==> x in ids
  {
    forall x | x in ids ensures x in Reverse(ids) {
      var k :| 0 <= k < |ids| && ids[k] == x;
      assert Reverse(ids)[|ids| - 1 - k] == x;
    }
  }

  ghost predicate Carries(tagged: seq<(string, seq<string>)>, x: string) {
    exists k :: 0 <= k < |tagged| && x in tagged[k].1
  }

  lemma {:induction false} CollectIds(tagged: seq<(string, seq<string>)>)
    ensures Distinct(Collect(tagged))
    ensures forall x :: x in Collect(tagged) <==> Carries(tagged, x)
  {
    if tagged != [] {
      CollectIds(tagged[1..]);
      AddIdsSet(Collect(tagged[1..]), tagged[0].1);
      forall x ensures Carries(tagged, x) <==> x in tagged[0].1 || Carries(tagged[1..], x) {
        CarriesOver(tagged[..1], tagged[1..], x);
        assert tagged == tagged[..1] + tagged[1..];
      }
    }
  }

  lemma CarriesOver(a: seq<(string, seq<string>)>, b: seq<(string, seq<string>)>, x: string)
    ensures Carries(a + b, x) <==> Carries(a, x) || Carries(b, x)
  {
    if Carries(a, x) { var k :| 0 <= k < |a| && x in a[k].1; assert x in (a + b)[k].1; }
    if Carries(b, x) { var k :| 0 <= k < |b| && x in b[k].1; assert x in (a + b)[|a| + k].1; }
  }

  lemma {:induction false} TaggedFrom(parts: seq<Part>, from: nat, x: string)
    requires from <= |Tagged(parts)|
    ensures Carries(Tagged(parts)[from..], x) <==> exists i :: 0 <= i < |parts| && x in parts[i].ids && Reaches(parts, from, i)
  {
    if parts != [] {
      var init, last := parts[..|parts| - 1], parts[|parts| - 1];
      var before, own := Tagged(init), Tag(Split(last.text), last.ids);
      assert Tagged(parts) == before + own;
      ReachesInTwo(parts, from);
      hide Carries, Split, Reaches, Tagged, Tag;
      TagCarries(Split(last.text), last.ids, from - |before|, x);
      if from <= |before| {
        TaggedFrom(init, from, x);
        assert (before + own)[from..] == before[from..] + own;
        CarriesOver(before[from..], own, x);
      } else {
        assert (before + own)[from..] == own[from - |before|..];
      }
    }
  }

  lemma ReachesInTwo(parts: seq<Part>, from: nat)
    requires parts != []
    ensures var init, last := parts[..|parts| - 1], parts[|parts| - 1];
      && (forall i :: 0 <= i < |init| ==> (Reaches(parts, from, i) <==> Reaches(init, from, i)))
      && (from > |Tagged(init)| ==> forall i :: 0 <= i < |init| ==> !Reaches(parts, from, i))
      && (Reaches(parts, from, |init|) <==> Split(last.text) != [] && from < |Tagged(parts)|)
  {
    hide Split, Tagged, SplitAll;
    var init := parts[..|parts| - 1];
    TaggedWords(init);
    TaggedWords(parts);
    assert parts[..|parts|] == parts;
    forall i | 0 <= i < |init|
      ensures Reaches(parts, from, i) <==> Reaches(init, from, i)
      ensures from > |Tagged(init)| ==> !Reaches(parts, from, i)
    {
      assert parts[..i + 1] == init[..i + 1];
      WordsGrow(init, i + 1);
    }
  }

  lemma TagCarries(words: seq<string>, ids: seq<string>, from: int, x: string)
    requires from <= |words|
    ensures var rest := if from <= 0 then Tag(words, ids) else Tag(words, ids)[from..];
      Carries(rest, x) <==> x in ids && words != [] && from < |words|
  {
    var rest := if from <= 0 then Tag(words, ids) else Tag(words, ids)[from..];
    if x in ids && rest != [] { assert x in rest[0].1; }
  }

  lemma WordsGrow(parts: seq<Part>, n: nat)
    requires n <= |parts|
    ensures WordsBefore(parts, n) <= |SplitAll(Texts(parts))|
  {
    SplitAllConcat(Texts(parts[..n]), Texts(parts[n..]));
    assert Texts(parts) == Texts(parts[..n]) + Texts(parts[n..]);
  }

  // ---- size ----

  /** Characters a text within the maximum estimate can have. */
  const MAX_CHARS: nat := MAX_TOKENS * TOKEN_CHARS + TOKEN_CHARS - 1
  /** The word length up to which the size bound is claimed. */
  const WORD_LIMIT: nat := (MAX_TOKENS - OVERLAP_TOKENS) * TOKEN_CHARS

  predicate AllShort(words: seq<string>) {
    forall w :: w in words ==> |w| <= WORD_LIMIT
  }

  predicate ShortWords(text: string) {
    AllShort(Split(text))
  }

  predicate Small(text: string) {
    |text| <= MAX_CHARS && ShortWords(text)
  }

  lemma TailIsSmall(parts: seq<Part>)
    requires ShortWords(TextOf(parts))
    ensures Small(Tail(parts).text)
  {
    var from := TailIsSuffix(parts);
    var words := Split(TextOf(parts));
    hide Tail, TextOf, Split, TailLen, Cost, Join, AllShort;
    SameTailStart(words, from);
    TailIsJoin(parts);
    SuffixIsSmall(words, from);
  }

  lemma TailIsJoin(parts: seq<Part>)
    ensures var words := Split(TextOf(parts)); Tail(parts).text == Join(' ', words[|words| - TailLen(words, 0)..])
  {
    WordsOfText(parts);
    hide Join, TailLen, TextOf, WordsFrom, Tagged;
  }

  lemma SuffixIsSmall(words: seq<string>, from: nat)
    requires from <= |words| && AllShort(words)
    requires from < |words| ==> Cost(words, from + 1, |words|) < OVERLAP
    ensures |Join(' ', words[from..])| <= MAX_CHARS && AllShort(words[from..])
  {
    if from < |words| {
      JoinCost(words, from, |words|);
      CostFront(words, from, |words|);
      assert words[from] in words;
      assert words[from..|words|] == words[from..];
    }
  }

  /** The start found by TailIsSuffix is the one Tail uses. */
  lemma SameTailStart(words: seq<string>, from: nat)
    requires from <= |words|
    requires from == 0 || Cost(words, from, |words|) >= OVERLAP
    requires from < |words| ==> Cost(words, from + 1, |words|) < OVERLAP
    ensures from == |words| - TailLen(words, 0)
  {
    var m := TailLen(words, 0);
    TailLenEnough(words, 0);
    if |words| - m < from {
      TailLenLeast(words, 0, |words| - from);
    } else if |words| - m > from {
      CostMonotone(words, from + 1, |words| - m);
    }
  }

  lemma {:induction false} CostMonotone(words: seq<string>, a: nat, b: nat)
    requires a <= b <= |words|
    ensures Cost(words, b, |words|) <= Cost(words, a, |words|)
    decreases b - a
  {
    if a < b {
      CostFront(words, a, |words|);
      CostMonotone(words, a + 1, b);
    }
  }

  lemma TextShort(parts: seq<Part>)
    requires forall i :: 0 <= i < |parts| ==> ShortWords(parts[i].text)
    ensures ShortWords(TextOf(parts))
  {
    WordsOfJoin('\n', Texts(parts));
    forall w | w in Split(TextOf(parts)) ensures |w| <= WORD_LIMIT {
      ChunkTables.WordInSome(Texts(parts), w);
      var i :| 0 <= i < |Texts(parts)| && w in Split(Texts(parts)[i]);
      assert ShortWords(parts[i].text);
    }
  }

  lemma {:induction false} TextSnoc(parts: seq<Part>, p: Part)
    ensures |TextOf(parts + [p])| == if parts == [] then |p.text| else |TextOf(parts)| + 1 + |p.text|
    decreases |parts|
  {
    assert Texts(parts + [p]) == Texts(parts) + [p.text];
    JoinSnoc(Texts(parts), p.text);
  }

  lemma {:induction false} JoinSnoc(lines: seq<string>, l: string)
    ensures |Join('\n', lines + [l])| == if lines == [] then |l| else |Join('\n', lines)| + 1 + |l|
  {
    if |lines| >= 1 {
      assert (lines + [l])[1..] == lines[1..] + [l];
      JoinSnoc(lines[1..], l);
    }
  }

  ghost predicate SizesOk(f: Flow) {
    && (f.pending.Some? ==> Small(f.pending.value.text))
    && (f.overlap.Some? ==> Small(f.overlap.value.text))
    && (forall i :: 0 <= i < |f.units| ==> Small(f.units[i].text))
    && (forall i :: 0 <= i < |f.made| && !f.made[i].table ==> Estimate(f.made[i].chunk.text) <= 2 * MAX_TOKENS + 1)
  }

  lemma PartsShort(f: Flow)
    requires SizesOk(f)
    ensures ShortWords(TextOf(PartsIn(f)))
  {
    TextShort(PartsIn(f));
  }

  lemma FlushSizes(f: Flow, continueFlow: bool, guard: bool)
    requires SizesOk(f) && Estimate(TextOf(PartsIn(f))) <= 2 * MAX_TOKENS + 1
    ensures SizesOk(Flush(f, continueFlow, guard))
  {
    hide Small, Tail, BlockIds, TextOf, ShortWords, Texts;
    PartsShort(f);
    TailIsSmall(PartsIn(f));
    hide PartsIn, Estimate;
  }

  lemma PrepareSizes(f: Flow, u: Unit)
    requires Settled(f) && SizesOk(f) && !u.isTable
    ensures SizesOk(Prepare(f, u))
    ensures |TextOf(PartsIn(Prepare(f, u)))| <= MAX_CHARS
  {
    hide LinkOk, Tail, BlockIds, ShortWords;
    var a := if u.startsSection then Flush(f, false, false) else f;
    FlushSizes(f, false, false);
    FlushEmpties(f, false, false);
    EmptyEstimate();
    AtMost(TextOf(PartsIn(f)));
    assert Estimate(TextOf(PartsIn(a))) <= MAX_TOKENS by {
      if u.startsSection { NothingHeld(a); }
    }
    var b := if Overflows(a, u) then Flush(a, true, false) else a;
    FlushSizes(a, true, false);
    FlushEmpties(a, true, false);
    AtMost(TextOf(PartsIn(a)));
    if Overflows(a, u) { NothingHeld(b); }
    if b.pending.Some? && PartsIn(b) == [] {
      OverlapOnly(b, b.pending.value);
    }
  }

  lemma NothingHeld(f: Flow)
    requires f.units == [] && f.overlap.None?
    ensures PartsIn(f) == [] && TextOf(PartsIn(f)) == ""
  {}

  lemma OverlapOnly(f: Flow, p: Part)
    requires PartsIn(f) == []
    ensures TextOf(PartsIn(f.(overlap := Some(p)))) == p.text
  {
    assert PartsIn(f.(overlap := Some(p))) == [p];
  }

  lemma AtMost(text: string)
    requires Estimate(text) <= MAX_TOKENS
    ensures |text| <= MAX_CHARS
  {}

  lemma AddedSize(f: Flow, u: Unit)
    requires |TextOf(PartsIn(f))| <= MAX_CHARS && |u.text| <= MAX_CHARS
    ensures Estimate(TextOf(PartsIn(AddUnit(f, u)))) <= 2 * MAX_TOKENS + 1
  {
    assert PartsIn(AddUnit(f, u)) == PartsIn(f) + [PartOf(u)];
    TextSnoc(PartsIn(f), PartOf(u));
  }

  lemma FeedSizes(f: Flow, u: Unit)
    requires Settled(f) && SizesOk(f) && (!u.isTable ==> Small(u.text))
    ensures SizesOk(Feed(f, u))
  {
    hide LinkOk, Tail, BlockIds, ShortWords, Prepare, PartsIn;
    if u.isTable {
      FlushSizes(f, false, false);
      FlushEmpties(f, false, false);
    } else {
      PrepareSizes(f, u);
      AddedSize(Prepare(f, u), u);
      var added := AddUnit(Prepare(f, u), u);
      assert SizesOk(added);
      FlushSizes(added, true, true);
    }
  }

  ghost predicate SmallUnits(units: seq<Unit>) {
    forall i :: 0 <= i < |units| ==> units[i].isTable || Small(units[i].text)
  }

  lemma {:induction false} FeedAllSizes(units: seq<Unit>)
    requires SmallUnits(units)
    ensures SizesOk(FeedAll(EMPTY_FLOW, units))
  {
    hide Feed, Small;
    if units != [] {
      var init := units[..|units| - 1];
      FeedAllSizes(init);
      FeedAllOk(init);
      FeedSizes(FeedAll(EMPTY_FLOW, init), units[|units| - 1]);
    }
  }

  /** When no prose unit is larger than the maximum and no word longer than the
      limit, no prose chunk estimates above twice the maximum plus one. */
  lemma ChunksAreBounded(units: seq<Unit>, i: nat)
    requires SmallUnits(units) && i < |ChunkAll(units).made| && !ChunkAll(units).made[i].table
    ensures Estimate(ChunkAll(units).made[i].chunk.text) <= 2 * MAX_TOKENS + 1
  {
    FeedAllSizes(units);
    FeedAllOk(units);
    FlushSizes(FeedAll(EMPTY_FLOW, units), false, false);
  }

  // ---- coverage ----

  lemma {:induction false} UnitInSomeChunk(made: seq<Made>, u: Unit)
    requires u in UnitsMade(made)
    ensures exists i :: 0 <= i < |made| && u in made[i].units
  {
    var init := made[..|made| - 1];
    if u in UnitsMade(init) {
      UnitInSomeChunk(init, u);
      var i :| 0 <= i < |init| && u in init[i].units;
      assert u in made[i].units;
    } else {
      assert u in made[|made| - 1].units;
    }
  }

  lemma PartIsKept(parts: seq<Part>, at: nat)
    requires at < |parts|
    ensures forall id :: id in parts[at].ids ==> id in BlockIds(parts)
    ensures forall w :: w in Split(parts[at].text) ==> w in Split(TextOf(parts))
  {
    BlockIdsSet(parts);
    WordsOfJoin('\n', Texts(parts));
    forall w | w in Split(parts[at].text) ensures w in Split(TextOf(parts)) {
      ChunkTables.PieceWords(Texts(parts), at, w);
    }
  }

  /** `chunk` lists the blocks of `u` and holds every word of it. */
  ghost predicate Holds(chunk: Chunk, u: Unit) {
    && (forall id :: id in u.blockIds ==> id in chunk.blockIds)
    && (forall w :: w in Split(u.text) ==> w in Split(chunk.text))
  }

  lemma ChunkHoldsItsUnits(made: seq<Made>, i: nat, u: Unit)
    requires i < |made| && LinkOk(made, i) && u in made[i].units
    ensures Holds(made[i].chunk, u)
  {
    var m := made[i];
    if !m.table {
      var parts := PartsFrom(m.overlap, m.units);
      assert m.chunk.blockIds == BlockIds(parts) && m.chunk.text == TextOf(parts);
      hide LinkOk, BlockIds, TextOf;
      var at := PartOfUnit(m.overlap, m.units, u);
      PartIsKept(parts, at);
    }
  }

  lemma PartOfUnit(overlap: Option<Part>, units: seq<Unit>, u: Unit) returns (at: nat)
    requires u in units
    ensures var parts := PartsFrom(overlap, units); at < |parts| && parts[at] == PartOf(u)
  {
    var k :| 0 <= k < |units| && units[k] == u;
    at := k + if overlap.Some? then 1 else 0;
  }

  /** Every unit is whole in some chunk, and that chunk lists its blocks. */
  lemma UnitIsKept(units: seq<Unit>, u: Unit) returns (i: nat)
    requires u in units
    ensures i < |ChunkAll(units).made| && Holds(ChunkAll(units).made[i].chunk, u)
  {
    hide ChunkAll, Holds, LinkOk;
    ChunksAccount(units);
    var made := ChunkAll(units).made;
    UnitInSomeChunk(made, u);
    i :| 0 <= i < |made| && u in made[i].units;
    ChunkHoldsItsUnits(made, i, u);
  }

  ghost predicate FromUnits(units: seq<Unit>, ids: seq<string>) {
    forall id :: id in ids ==> exists k :: 0 <= k < |units| && id in units[k].blockIds
  }

  /** The overlap lists only what the chunk it repeats lists. */
  lemma OverlapFromUnits(units: seq<Unit>, before: seq<Part>)
    requires FromUnits(units, BlockIds(before))
    ensures FromUnits(units, Tail(before).ids)
  {
    hide Tail, BlockIds;
    BlockIdsSet(before);
    TailIds(before);
    hide Reaches;
    forall id | id in Tail(before).ids ensures exists k :: 0 <= k < |units| && id in units[k].blockIds {
      assert id in BlockIds(before);
    }
  }

  lemma PartsFromUnits(units: seq<Unit>, overlap: Option<Part>, own: seq<Unit>)
    requires forall u :: u in own ==> u in units
    requires overlap.Some? ==> FromUnits(units, overlap.value.ids)
    ensures Distinct(BlockIds(PartsFrom(overlap, own))) && FromUnits(units, BlockIds(PartsFrom(overlap, own)))
  {
    var parts := PartsFrom(overlap, own);
    BlockIdsSet(parts);
    hide BlockIds;
    forall id | id in BlockIds(parts) ensures exists k :: 0 <= k < |units| && id in units[k].blockIds {
      var p :| 0 <= p < |parts| && id in parts[p].ids;
      if p > 0 || overlap.None? {
        var u := own[if overlap.Some? then p - 1 else p];
        assert parts[p] == PartOf(u) && u in own;
        var k :| 0 <= k < |units| && units[k] == u;
      }
    }
  }

  /** A chunk lists each block once, and only blocks of the units. */
  lemma {:induction false} ChunkIdsFromUnits(units: seq<Unit>, made: seq<Made>, i: nat)
    requires UnitsMade(made) == units && forall k :: 0 <= k < |made| ==> LinkOk(made, k)
    requires forall k :: 0 <= k < |units| ==> Distinct(units[k].blockIds)
    requires i < |made|
    ensures Distinct(made[i].chunk.blockIds) && FromUnits(units, made[i].chunk.blockIds)
    decreases i
  {
    hide Tail, TextOf, BlockIds, HeadingsFirst, UnitsMade, PartsFrom, Distinct;
    forall u | u in made[i].units ensures u in units { MadeFromUnits(made, i, u); }
    assert LinkOk(made, i);
    if made[i].table {
      assert made[i].units[0] in made[i].units;
    } else {
      if made[i].overlap.Some? {
        ChunkIdsFromUnits(units, made, i - 1);
        assert LinkOk(made, i - 1);
        OverlapFromUnits(units, PartsFrom(made[i - 1].overlap, made[i - 1].units));
      }
      PartsFromUnits(units, made[i].overlap, made[i].units);
    }
  }

  lemma {:induction false} MadeFromUnits(made: seq<Made>, i: nat, u: Unit)
    requires i < |made| && u in made[i].units
    ensures u in UnitsMade(made)
  {
    if i < |made| - 1 { MadeFromUnits(made[..|made| - 1], i, u); }
  }
}
