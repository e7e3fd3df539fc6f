/** Blocks to retrieval chunks: the assembler that updates its state in place,
    and what the whole function promises of every list of blocks. */
module Chunker {
  import opened Options
  import opened Words
  import opened ChunkWindows
  import opened ChunkTables
  import opened ChunkFlow
  import opened ChunkSizes
  import opened ChunkBoundaries

  datatype Block = Block(blockId: string, kind: string, text: string)

  function ChunksOf(made: seq<Made>): seq<Chunk> {
    seq(|made|, i requires 0 <= i < |made| => made[i].chunk)
  }

  /** The chunk under construction and what the next one may repeat. */
  class Assembler {
    var chunks: seq<Chunk>
    var parts: seq<Part>
    var sawContent: bool
    var pendingOverlap: Option<Part>
    var carryOverlap: bool
    ghost var flow: Flow

    constructor ()
      ensures Valid() && flow == EMPTY_FLOW
    {
      chunks, parts, sawContent, pendingOverlap, carryOverlap := [], [], false, None, false;
      flow := EMPTY_FLOW;
    }

    /** The fields are those of the recorded history. */
    ghost predicate Valid()
      reads this
    {
      && Settled(flow)
      && chunks == ChunksOf(flow.made)
      && parts == PartsIn(flow)
      && sawContent == SawContent(flow.units)
      && pendingOverlap == flow.pending
      && carryOverlap == flow.pending.Some?
    }

    /** The fields match a history that is between two steps of one unit. */
    ghost predicate Matches(f: Flow)
      reads this
    {
      && (f.units == [] ==> f.overlap.None?)
      && chunks == ChunksOf(f.made)
      && parts == PartsIn(f)
      && sawContent == SawContent(f.units)
      && pendingOverlap == f.pending
      && carryOverlap == f.pending.Some?
    }

    method Flush(continueFlow: bool, ghost guard: bool, ghost f: Flow)
      requires Matches(f)
      modifies this
      ensures Matches(ChunkFlow.Flush(f, continueFlow, guard)) && flow == old(flow)
    {
      PartsEmpty(f);
      if parts == [] {
        return;
      }
      ghost var made := ChunkFlow.Flush(f, continueFlow, guard).made;
      var ids := ListBlockIds(parts);
      chunks := chunks + [Chunk(|chunks|, ids, TextOf(parts))];
      assert chunks == ChunksOf(made);
      carryOverlap := continueFlow;
      if continueFlow {
        var tail := OverlapTail(parts);
        pendingOverlap := Some(tail);
      } else {
        pendingOverlap := None;
      }
      parts := [];
      sawContent := false;
    }

    /** Tables never merge with prose; each row group is a chunk of its own. */
    method AddTable(unit: Unit, ghost f: Flow)
      requires Matches(f)
      modifies this
      ensures Matches(FeedTable(f, unit)) && flow == old(flow)
    {
      Flush(false, false, f);
      ghost var flushed := ChunkFlow.Flush(f, false, false);
      FlushEmpties(f, false, false);
      chunks := chunks + [Chunk(|chunks|, unit.blockIds, unit.text)];
      assert chunks == ChunksOf(FeedTable(f, unit).made);
      pendingOverlap := None;
      carryOverlap := false;
    }

    method Prepare(unit: Unit, ghost f: Flow)
      requires Matches(f)
      modifies this
      ensures var p := ChunkFlow.Prepare(f, unit);
        && chunks == ChunksOf(p.made) && parts == PartsIn(p) && sawContent == SawContent(p.units)
        && pendingOverlap == p.pending && carryOverlap == p.pending.Some?
      ensures flow == old(flow)
    {
      hide ChunkFlow.Flush, TextOf, Estimate, SawContent;
      ghost var a := f;
      if unit.startsSection {
        Flush(false, false, f);
        a := ChunkFlow.Flush(f, false, false);
      }
      var projected := Estimate(TextOf(parts)) + Estimate(unit.text) + 1;
      ghost var b := a;
      if parts != [] && sawContent && projected > TARGET_TOKENS {
        Flush(true, false, a);
        b := ChunkFlow.Flush(a, true, false);
      }
      PartsEmpty(b);
      if pendingOverlap.Some? && carryOverlap && parts == [] {
        parts := parts + [pendingOverlap.value];
      }
    }

    method AddUnit(unit: Unit)
      requires Valid()
      modifies this
      ensures Valid() && flow == Feed(old(flow), unit)
    {
      hide ChunkFlow.Flush, ChunkFlow.Prepare, FeedTable, TextOf, Settled;
      SettledIdle(flow);
      FeedOk(flow, unit);
      if unit.isTable {
        AddTable(unit, flow);
        flow := FeedTable(flow, unit);
        return;
      }
      Prepare(unit, flow);
      ghost var added := ChunkFlow.AddUnit(ChunkFlow.Prepare(flow, unit), unit);
      parts := parts + [Part(unit.blockIds, unit.text)];
      if !unit.startsSection {
        sawContent := true;
      }
      assert parts == PartsIn(added);
      SawMore(ChunkFlow.Prepare(flow, unit).units, unit);
      if Estimate(TextOf(parts)) > MAX_TOKENS {
        Flush(true, true, added);
      }
      flow := Feed(flow, unit);
    }
  }

  lemma SettledIdle(f: Flow)
    requires Settled(f)
    ensures f.units == [] ==> f.overlap.None?
  {}

  lemma SawMore(units: seq<Unit>, u: Unit)
    ensures SawContent(units + [u]) <==> SawContent(units) || !u.startsSection
  {
    if SawContent(units) {
      var i :| 0 <= i < |units| && !units[i].startsSection;
      assert !(units + [u])[i].startsSection;
    }
    if !u.startsSection { assert !(units + [u])[|units|].startsSection; }
  }

  /** The walk over the parts that lists their blocks, as a loop. */
  method ListBlockIds(parts: seq<Part>) returns (ids: seq<string>)
    ensures ids == BlockIds(parts)
  {
    ids := [];
    for i := 0 to |parts|
      invariant ids == BlockIds(parts[..i])
    {
      assert parts[..i + 1][..i] == parts[..i];
      ids := AddIds(ids, parts[i].ids);
    }
    assert parts[..|parts|] == parts;
  }

  /** The walk back over the words that collects the overlap. */
  method OverlapTail(parts: seq<Part>) returns (tail: Part)
    ensures tail == Tail(parts)
  {
    var wordsWithIds: seq<(string, seq<string>)> := [];
    for i := 0 to |parts|
      invariant wordsWithIds == Tagged(parts[..i])
    {
      assert parts[..i + 1][..i] == parts[..i];
      wordsWithIds := wordsWithIds + Tag(Split(parts[i].text), parts[i].ids);
    }
    assert parts[..|parts|] == parts;
    tail := WalkBack(wordsWithIds);
  }

  method WalkBack(tagged: seq<(string, seq<string>)>) returns (tail: Part)
    ensures var words := WordsOf(tagged);
      var from := |words| - TailLen(words, 0);
      tail == Part(Reverse(Collect(tagged[from..])), Join(' ', words[from..]))
  {
    ghost var words := WordsOf(tagged);
    var from := |tagged|;
    var taken: seq<string> := [];
    var ids: seq<string> := [];
    var used := 0;
    while from > 0 && used < OVERLAP
      invariant 0 <= from <= |tagged| && used == Cost(words, from, |words|)
      invariant taken == words[from..] && ids == Collect(tagged[from..])
      invariant TailLen(words, |words| - from) == TailLen(words, 0)
      decreases from
    {
      from := from - 1;
      CostFront(words, from, |words|);
      taken := [tagged[from].0] + taken;
      used := used + |tagged[from].0| + 1;
      assert tagged[from..][1..] == tagged[from + 1..];
      ids := AddIds(ids, tagged[from].1);
    }
    tail := Part(Reverse(ids), Join(' ', taken));
  }

  // ---- blocks to units ----

  /** The pieces of one prose text: itself, or its windows when oversized. */
  ghost predicate ProseUnits(unit: Unit, units: seq<Unit>) {
    if Estimate(unit.text) <= MAX_TOKENS then units == [unit]
    else exists ws :: Tiled(Split(unit.text), ws) && PiecesOf(unit, Split(unit.text), units, ws)
  }

  function ProseUnit(b: Block): Unit {
    Unit([b.blockId], Strip(b.text), b.kind == "heading", false)
  }

  ghost predicate BlockUnits(b: Block, units: seq<Unit>) {
    if Strip(b.text) == "" then units == []
    else if b.kind == "table" then TableUnits(b.blockId, b.text, units)
    else ProseUnits(ProseUnit(b), units)
  }

  method UnitsOfBlock(b: Block) returns (units: seq<Unit>)
    ensures BlockUnits(b, units)
  {
    if Strip(b.text) == "" {
      return [];
    }
    if b.kind == "table" {
      units := SplitTables(b.blockId, b.text);
    } else {
      ghost var ws;
      units, ws := SplitOversized(Unit([b.blockId], Strip(b.text), b.kind == "heading", false));
    }
  }

  /** Every word of the block is in one of its units, and they list the block. */
  lemma BlockWordsKept(b: Block, units: seq<Unit>, w: string) returns (k: nat)
    requires BlockUnits(b, units) && w in Split(b.text)
    ensures k < |units| && w in Split(units[k].text) && units[k].blockIds == [b.blockId]
  {
    BlankHasNoWords(b.text);
    WordsOfStrip(b.text);
    if b.kind == "table" {
      k := TableKeepsWords(b.blockId, b.text, units, w);
    } else {
      k := ProseWordsKept(ProseUnit(b), units, w);
    }
  }

  lemma ProseWordsKept(unit: Unit, units: seq<Unit>, w: string) returns (k: nat)
    requires ProseUnits(unit, units) && w in Split(unit.text)
    ensures k < |units| && w in Split(units[k].text) && units[k].blockIds == unit.blockIds
  {
    k := 0;
    if Estimate(unit.text) > MAX_TOKENS {
      hide Estimate, Join, Cost;
      var words := Split(unit.text);
      var ws: seq<Window> :| Tiled(words, ws) && PiecesOf(unit, words, units, ws);
      var at :| 0 <= at < |words| && words[at] == w;
      LastWindow(words, ws);
      WindowsCover(words, ws, |ws|, at);
      k :| 0 <= k < |ws| && ws[k].0 <= at < ws[k].1;
      WindowHasWord(unit, words, ws[k].0, ws[k].1, at);
    }
  }

  lemma LastWindow(words: seq<string>, ws: seq<Window>)
    requires Tiled(words, ws) && words != []
    ensures ws != [] && ws[|ws| - 1].1 == |words|
  {}

  lemma WindowHasWord(unit: Unit, words: seq<string>, s: nat, e: nat, at: nat)
    requires words == Split(unit.text) && s <= at < e <= |words|
    ensures words[at] in Split(Piece(unit, words, s, e).text)
  {
    SplitGivesWords("", unit.text);
    JoinThenSplit(' ', words[s..e]);
    assert words[s..e][at - s] == words[at];
  }

  lemma BlockIdsKept(b: Block, units: seq<Unit>)
    requires BlockUnits(b, units)
    ensures forall k :: 0 <= k < |units| ==> units[k].blockIds == [b.blockId]
  {}

  /** With no word over the limit, the prose pieces of a block are small. */
  lemma BlockUnitsSmall(b: Block, units: seq<Unit>)
    requires BlockUnits(b, units) && b.kind != "table" && ShortWords(b.text)
    ensures SmallUnits(units)
  {
    WordsOfStrip(b.text);
    var unit := ProseUnit(b);
    if Strip(b.text) != "" {
      if Estimate(unit.text) <= MAX_TOKENS {
        assert Small(unit.text);
      } else {
        var words := Split(unit.text);
        var ws: seq<Window> :| Tiled(words, ws) && PiecesOf(unit, words, units, ws);
        forall k | 0 <= k < |units| ensures Small(units[k].text) { WindowIsSmall(unit, words, ws, k); }
      }
    }
  }

  lemma WindowIsSmall(unit: Unit, words: seq<string>, ws: seq<Window>, k: nat)
    requires words == Split(unit.text) && ShortWords(unit.text) && Tiled(words, ws) && k < |ws|
    ensures ws[k].0 <= ws[k].1 <= |words| && Small(Piece(unit, words, ws[k].0, ws[k].1).text)
  {
    var s, e := ws[k].0, ws[k].1;
    assert IsWindow(words, s, e);
    SplitGivesWords("", unit.text);
    JoinThenSplit(' ', words[s..e]);
    forall w | w in words[s..e] ensures |w| <= WORD_LIMIT { assert w in words; }
    WindowSize(words, ws, k);
    if e == s + 1 {
      assert words[s..e] == [words[s]];
      assert words[s] in words;
    }
  }

  // ---- the whole function ----

  /** `per` gives the units of each block. */
  ghost predicate UnitsPerBlock(blocks: seq<Block>, per: seq<seq<Unit>>) {
    |per| == |blocks| && forall i :: 0 <= i < |blocks| ==> BlockUnits(blocks[i], per[i])
  }

  lemma {:induction false} InFlatten<T>(ss: seq<seq<T>>, i: nat, x: T)
    requires i < |ss| && x in ss[i]
    ensures x in Flatten(ss)
  {
    if i > 0 { InFlatten(ss[1..], i - 1, x); }
  }

  lemma {:induction false} FromFlatten<T>(ss: seq<seq<T>>, x: T) returns (i: nat)
    requires x in Flatten(ss)
    ensures i < |ss| && x in ss[i]
  {
    if x in ss[0] { i := 0; } else { i := FromFlatten(ss[1..], x); i := i + 1; }
  }

  /** The chunks of the blocks, cut into some units block by block. */
  ghost predicate IsChunking(blocks: seq<Block>, chunks: seq<Chunk>) {
    exists per :: UnitsPerBlock(blocks, per) && chunks == ChunksOf(ChunkAll(Flatten(per)).made)
  }

  method ChunkBlocks(blocks: seq<Block>) returns (chunks: seq<Chunk>)
    ensures IsChunking(blocks, chunks)
  {
    hide ChunkAll, BlockUnits;
    var units: seq<Unit> := [];
    ghost var per: seq<seq<Unit>> := [];
    for i := 0 to |blocks|
      invariant UnitsPerBlock(blocks[..i], per) && units == Flatten(per)
    {
      var more := UnitsOfBlock(blocks[i]);
      FlattenSnoc(per, more);
      units := units + more;
      per := per + [more];
    }
    assert blocks[..|blocks|] == blocks;
    chunks := Assemble(units);
    assert UnitsPerBlock(blocks, per) && chunks == ChunksOf(ChunkAll(Flatten(per)).made);
  }

  method Assemble(units: seq<Unit>) returns (chunks: seq<Chunk>)
    ensures chunks == ChunksOf(ChunkAll(units).made)
  {
    hide ChunkFlow.Flush, Feed, Settled;
    var assembler := new Assembler();
    for i := 0 to |units|
      invariant assembler.Valid() && assembler.flow == FeedAll(EMPTY_FLOW, units[..i])
      invariant fresh(assembler)
    {
      assert units[..i + 1][..i] == units[..i];
      assembler.AddUnit(units[i]);
    }
    assert units[..|units|] == units;
    SettledIdle(assembler.flow);
    assembler.Flush(false, false, assembler.flow);
    chunks := assembler.chunks;
  }

  /** Nothing is lost: ordinals run from 0, and every word of every block is in
      a chunk that lists the block. */
  lemma EveryWordIsKept(blocks: seq<Block>, per: seq<seq<Unit>>, i: nat, w: string) returns (c: nat)
    requires UnitsPerBlock(blocks, per) && i < |blocks| && w in Split(blocks[i].text)
    ensures var chunks := ChunksOf(ChunkAll(Flatten(per)).made);
      c < |chunks| && chunks[c].ordinal == c && blocks[i].blockId in chunks[c].blockIds && w in Split(chunks[c].text)
  {
    hide ChunkAll;
    var k := BlockWordsKept(blocks[i], per[i], w);
    InFlatten(per, i, per[i][k]);
    c := UnitIsKept(Flatten(per), per[i][k]);
    ChunksAccount(Flatten(per));
    assert LinkOk(ChunkAll(Flatten(per)).made, c);
  }

  /** Only a heading block opens a section, and only with its first unit; the
      units of a table block, and no others, are tables. */
  lemma UnitsOfKinds(b: Block, units: seq<Unit>, k: nat)
    requires BlockUnits(b, units) && k < |units|
    ensures units[k].startsSection <==> b.kind == "heading" && k == 0
    ensures units[k].isTable <==> b.kind == "table"
  {
    hide Estimate, Join, Split, IsWindow, IsNext;
    var unit := ProseUnit(b);
    if b.kind != "table" && Estimate(unit.text) > MAX_TOKENS {
      var words := Split(unit.text);
      var ws: seq<Window> :| Tiled(words, ws) && PiecesOf(unit, words, units, ws);
      WindowStarts(words, ws, k);
    }
  }

  lemma WindowStarts(words: seq<string>, ws: seq<Window>, k: nat)
    requires Tiled(words, ws) && k < |ws|
    ensures ws[k].0 == 0 <==> k == 0
  {
    if k > 0 { assert IsNext(words, ws[k - 1].0, ws[k - 1].1, ws[k].0); }
  }

  /** A chunk's text begins with `text`, or with the tail of a chunk that had
      passed the maximum and then `text`. */
  ghost predicate OpensWith(chunks: seq<Chunk>, c: nat, text: string)
    requires c < |chunks|
  {
    || text <= chunks[c].text
    || (c > 0 && PassesMaximum(chunks[c - 1].text)
        && exists tail :: IsTail(tail, chunks[c - 1].text) && tail + "\n" + text <= chunks[c].text)
  }

  /** Every heading that fits one unit stands at the opening of a chunk that
      lists it, where nothing but the tail of an overgrown chunk precedes it. */
  lemma HeadingOpensChunk(blocks: seq<Block>, chunks: seq<Chunk>, i: nat) returns (c: nat)
    requires IsChunking(blocks, chunks) && i < |blocks| && blocks[i].kind == "heading"
    requires Strip(blocks[i].text) != "" && !PassesMaximum(Strip(blocks[i].text))
    ensures c < |chunks| && OpensWith(chunks, c, Strip(blocks[i].text)) && blocks[i].blockId in chunks[c].blockIds
  {
    hide ChunkAll, BlockUnits, IsTail, PassesMaximum, LinkOk, Estimate;
    var per :| UnitsPerBlock(blocks, per) && chunks == ChunksOf(ChunkAll(Flatten(per)).made);
    var units, text := Flatten(per), Strip(blocks[i].text);
    var made := ChunkAll(units).made;
    OneUnit(blocks[i], per[i]);
    var u := per[i][0];
    InFlatten(per, i, u);
    ChunksAccount(units);
    UnitInSomeChunk(made, u);
    c :| 0 <= c < |made| && u in made[c].units;
    ChunkHoldsItsUnits(made, c, u);
    SectionIsFirst(made, c, u);
    OpeningUnit(units, c, u);
  }

  lemma OneUnit(b: Block, units: seq<Unit>)
    requires BlockUnits(b, units) && b.kind == "heading" && Strip(b.text) != "" && !PassesMaximum(Strip(b.text))
    ensures units == [Unit([b.blockId], Strip(b.text), true, false)]
  {
    MaximumMeans(Strip(b.text));
  }

  lemma SectionIsFirst(made: seq<Made>, c: nat, u: Unit)
    requires c < |made| && LinkOk(made, c) && u in made[c].units && u.startsSection && !u.isTable
    ensures !made[c].table && made[c].units != [] && made[c].units[0] == u
  {
    hide BlockIds, TextOf, Tail, Unbroken, Closed;
    var k :| 0 <= k < |made[c].units| && made[c].units[k] == u;
  }

  lemma OpeningUnit(units: seq<Unit>, c: nat, u: Unit)
    requires c < |ChunkAll(units).made|
    requires var m := ChunkAll(units).made[c]; !m.table && m.units != [] && m.units[0] == u && u.startsSection
    ensures OpensWith(ChunksOf(ChunkAll(units).made), c, u.text)
  {
    hide ChunkAll, IsTail, PassesMaximum, PassesTarget;
    var made := ChunkAll(units).made;
    var own := Join('\n', UnitTexts(made[c].units));
    assert u.text <= own by { assert UnitTexts(made[c].units)[0] == u.text; }
    if c > 0 && !made[c - 1].table {
      var tail := ClosedExactlyFor(units, c - 1);
      if PassesMaximum(made[c - 1].chunk.text) {
        assert tail + "\n" + u.text <= tail + "\n" + own;
      }
    } else {
      OpensFresh(units, c);
    }
  }

  /** Nothing is made up: a chunk lists each block once, and only given blocks. */
  lemma ListedBlocksAreGiven(blocks: seq<Block>, per: seq<seq<Unit>>, c: nat)
    requires UnitsPerBlock(blocks, per) && c < |ChunkAll(Flatten(per)).made|
    ensures var ids := ChunkAll(Flatten(per)).made[c].chunk.blockIds;
      Distinct(ids) && forall id :: id in ids ==> exists i :: 0 <= i < |blocks| && blocks[i].blockId == id
  {
    hide ChunkAll;
    var units := Flatten(per);
    forall u | u in units ensures exists i :: 0 <= i < |blocks| && u.blockIds == [blocks[i].blockId] {
      var i := FromFlatten(per, u);
      BlockIdsKept(blocks[i], per[i]);
    }
    ChunksAccount(units);
    ChunkIdsFromUnits(units, ChunkAll(units).made, c);
    forall id | id in ChunkAll(units).made[c].chunk.blockIds
      ensures exists i :: 0 <= i < |blocks| && blocks[i].blockId == id
    {
      var k :| 0 <= k < |units| && id in units[k].blockIds;
      assert units[k] in units;
    }
  }

  ghost predicate HoldsWord(chunks: seq<Chunk>, id: string, w: string) {
    exists c :: 0 <= c < |chunks| && id in chunks[c].blockIds && w in Split(chunks[c].text)
  }

  /** The promise of the whole function: ordinals run from 0, every word of every
      block is in a chunk that lists the block, and a chunk lists each of its
      blocks once and no other. */
  lemma ChunkingLosesNothing(blocks: seq<Block>, chunks: seq<Chunk>)
    requires IsChunking(blocks, chunks)
    ensures forall c :: 0 <= c < |chunks| ==> chunks[c].ordinal == c && Distinct(chunks[c].blockIds)
    ensures forall i, w :: 0 <= i < |blocks| && w in Split(blocks[i].text) ==> HoldsWord(chunks, blocks[i].blockId, w)
    ensures forall c, id :: 0 <= c < |chunks| && id in chunks[c].blockIds ==> exists i :: 0 <= i < |blocks| && blocks[i].blockId == id
  {
    hide ChunkAll, BlockUnits, Distinct;
    var per :| UnitsPerBlock(blocks, per) && chunks == ChunksOf(ChunkAll(Flatten(per)).made);
    ChunksAccount(Flatten(per));
    forall c | 0 <= c < |chunks| ensures chunks[c].ordinal == c && Distinct(chunks[c].blockIds) {
      ListedBlocksAreGiven(blocks, per, c);
      assert LinkOk(ChunkAll(Flatten(per)).made, c);
    }
    forall c, id | 0 <= c < |chunks| && id in chunks[c].blockIds ensures exists i :: 0 <= i < |blocks| && blocks[i].blockId == id {
      ListedBlocksAreGiven(blocks, per, c);
    }
    forall i, w | 0 <= i < |blocks| && w in Split(blocks[i].text) ensures HoldsWord(chunks, blocks[i].blockId, w) {
      var c := EveryWordIsKept(blocks, per, i, w);
    }
  }

  /** With no prose word over the limit, no prose chunk estimates above twice
      the maximum plus one. */
  lemma ProseChunksAreBounded(blocks: seq<Block>, per: seq<seq<Unit>>, c: nat)
    requires UnitsPerBlock(blocks, per)
    requires forall i :: 0 <= i < |blocks| && blocks[i].kind != "table" ==> ShortWords(blocks[i].text)
    requires c < |ChunkAll(Flatten(per)).made| && !ChunkAll(Flatten(per)).made[c].table
    ensures Estimate(ChunkAll(Flatten(per)).made[c].chunk.text) <= 2 * MAX_TOKENS + 1
  {
    hide ChunkAll, Small, ShortWords;
    var units := Flatten(per);
    forall k | 0 <= k < |units| ensures units[k].isTable || Small(units[k].text) {
      var i := FromFlatten(per, units[k]);
      var m :| 0 <= m < |per[i]| && per[i][m] == units[k];
      if blocks[i].kind != "table" {
        BlockUnitsSmall(blocks[i], per[i]);
      } else {
        TableUnitsAreTables(blocks[i], per[i]);
      }
    }
    ChunksAreBounded(units, c);
  }

  lemma TableUnitsAreTables(b: Block, units: seq<Unit>)
    requires BlockUnits(b, units) && b.kind == "table"
    ensures forall k :: 0 <= k < |units| ==> units[k].isTable
  {}
}
