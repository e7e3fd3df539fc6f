/** The assembler as a function of its history: which units each chunk was
    made of, what it repeated from the chunk before, and why it was closed. */
module ChunkFlow {
  import opened Options
  import opened Words
  import opened ChunkWindows

  /** One text of a chunk with the blocks it came from. */
  datatype Part = Part(ids: seq<string>, text: string)

  datatype Chunk = Chunk(ordinal: nat, blockIds: seq<string>, text: string)

  function PartOf(u: Unit): Part {
    Part(u.blockIds, u.text)
  }

  function Texts(parts: seq<Part>): seq<string> {
    seq(|parts|, i requires 0 <= i < |parts| => parts[i].text)
  }

  function TextOf(parts: seq<Part>): string {
    Join('\n', Texts(parts))
  }

  // ---- block ids ----

  function AddIds(ids: seq<string>, more: seq<string>): seq<string>
    decreases |more|
  {
    if more == [] then ids
    else AddIds(if more[0] in ids then ids else ids + [more[0]], more[1..])
  }

  function BlockIds(parts: seq<Part>): seq<string> {
    if parts == [] then [] else AddIds(BlockIds(parts[..|parts| - 1]), parts[|parts| - 1].ids)
  }

  predicate Distinct(ids: seq<string>) {
    forall i, j :: 0 <= i < j < |ids| ==> ids[i] != ids[j]
  }

  lemma {:induction false} AddIdsSet(ids: seq<string>, more: seq<string>)
    requires Distinct(ids)
    ensures Distinct(AddIds(ids, more))
    ensures forall x :: x in AddIds(ids, more) <==> x in ids || x in more
    decreases |more|
  {
    if more != [] { AddIdsSet(if more[0] in ids then ids else ids + [more[0]], more[1..]); }
  }

  /** A chunk lists the blocks of its parts, each once. */
  lemma {:induction false} BlockIdsSet(parts: seq<Part>)
    ensures Distinct(BlockIds(parts))
    ensures forall x :: x in BlockIds(parts) <==> exists i :: 0 <= i < |parts| && x in parts[i].ids
  {
    if parts != [] {
      var init := parts[..|parts| - 1];
      BlockIdsSet(init);
      AddIdsSet(BlockIds(init), parts[|parts| - 1].ids);
      forall x | exists i :: 0 <= i < |parts| && x in parts[i].ids ensures x in BlockIds(parts) {
        var i :| 0 <= i < |parts| && x in parts[i].ids;
        if i < |init| { assert x in init[i].ids; }
      }
    }
  }

  // ---- the overlap tail ----

  /** Every word of the parts with the blocks of its part. */
  function Tagged(parts: seq<Part>): seq<(string, seq<string>)> {
    if parts == [] then []
    else Tagged(parts[..|parts| - 1]) + Tag(Split(parts[|parts| - 1].text), parts[|parts| - 1].ids)
  }

  function Tag(words: seq<string>, ids: seq<string>): seq<(string, seq<string>)> {
    seq(|words|, i requires 0 <= i < |words| => (words[i], ids))
  }

  function WordsOf(tagged: seq<(string, seq<string>)>): seq<string> {
    seq(|tagged|, i requires 0 <= i < |tagged| => tagged[i].0)
  }

  /** How many trailing words the overlap takes: as few as cost its budget. */
  function TailLen(words: seq<string>, n: nat): (m: nat)
    requires n <= |words|
    ensures n <= m <= |words|
    decreases |words| - n
  {
    if n == |words| || Cost(words, |words| - n, |words|) >= OVERLAP then n else TailLen(words, n + 1)
  }

  function Collect(tagged: seq<(string, seq<string>)>): seq<string> {
    if tagged == [] then [] else AddIds(Collect(tagged[1..]), tagged[0].1)
  }

  function Reverse<T>(s: seq<T>): seq<T> {
    seq(|s|, i requires 0 <= i < |s| => s[|s| - 1 - i])
  }

  function Tail(parts: seq<Part>): Part {
    var tagged := Tagged(parts);
    var words := WordsOf(tagged);
    var from := |words| - TailLen(words, 0);
    Part(Reverse(Collect(tagged[from..])), Join(' ', words[from..]))
  }

  // ---- the history ----

  /** A finished chunk: the units it was made of, the overlap it opened with,
      whether the flow continues into the next chunk, and whether the size
      guard closed it. */
  datatype Made = Made(
    chunk: Chunk,
    units: seq<Unit>,
    table: bool,
    overlap: Option<Part>,
    continues: bool,
    guard: bool)

  datatype Flow = Flow(made: seq<Made>, units: seq<Unit>, overlap: Option<Part>, pending: Option<Part>)

  const EMPTY_FLOW := Flow([], [], None, None)

  function PartsFrom(overlap: Option<Part>, units: seq<Unit>): seq<Part> {
    (if overlap.Some? then [overlap.value] else []) + seq(|units|, i requires 0 <= i < |units| => PartOf(units[i]))
  }

  function PartsIn(f: Flow): seq<Part> {
    PartsFrom(f.overlap, f.units)
  }

  function SawContent(units: seq<Unit>): bool {
    exists i :: 0 <= i < |units| && !units[i].startsSection
  }

  function Flush(f: Flow, continueFlow: bool, guard: bool): Flow {
    var parts := PartsIn(f);
    if parts == [] then f
    else
      Flow(f.made + [Made(Chunk(|f.made|, BlockIds(parts), TextOf(parts)), f.units, false, f.overlap, continueFlow, guard)],
           [], None, if continueFlow then Some(Tail(parts)) else None)
  }

  function FeedTable(f: Flow, u: Unit): Flow {
    var flushed := Flush(f, false, false);
    flushed.(made := flushed.made + [Made(Chunk(|flushed.made|, u.blockIds, u.text), [u], true, None, false, false)],
             pending := None)
  }

  predicate Overflows(f: Flow, u: Unit) {
    PartsIn(f) != [] && SawContent(f.units) && Estimate(TextOf(PartsIn(f))) + Estimate(u.text) + 1 > TARGET_TOKENS
  }

  /** Make room for a prose unit, then open with the overlap if a flow continues. */
  function Prepare(f: Flow, u: Unit): Flow {
    var a := if u.startsSection then Flush(f, false, false) else f;
    var b := if Overflows(a, u) then Flush(a, true, false) else a;
    if b.pending.Some? && PartsIn(b) == [] then b.(overlap := b.pending) else b
  }

  function AddUnit(f: Flow, u: Unit): Flow {
    f.(units := f.units + [u])
  }

  function Guard(f: Flow): Flow {
    if Estimate(TextOf(PartsIn(f))) > MAX_TOKENS then Flush(f, true, true) else f
  }

  function Feed(f: Flow, u: Unit): Flow {
    if u.isTable then FeedTable(f, u) else Guard(AddUnit(Prepare(f, u), u))
  }

  function FeedAll(f: Flow, units: seq<Unit>): Flow {
    if units == [] then f else Feed(FeedAll(f, units[..|units| - 1]), units[|units| - 1])
  }

  function ChunkAll(units: seq<Unit>): Flow {
    Flush(FeedAll(EMPTY_FLOW, units), false, false)
  }

  // ---- what holds of every history ----

  ghost predicate HeadingsFirst(units: seq<Unit>) {
    forall i :: 1 <= i < |units| ==> !units[i].startsSection
  }

  /** The held units have content and leave no room for `next` in the target. */
  ghost predicate Full(text: string, units: seq<Unit>, next: Unit) {
    SawContent(units) && Estimate(text) + Estimate(next.text) + 1 > TARGET_TOKENS
  }

  /** A prose chunk has a reason to end where `next` follows, and the flow
      continues unless the only reason is the heading. */
  ghost predicate Closed(m: Made, next: Unit) {
    var full := Full(m.chunk.text, m.units, next);
    && (m.guard || next.startsSection || full)
    && (m.continues <==> m.guard || (full && !next.startsSection))
  }

  /** Before each of its units but the first, the text so far had no reason to
      end there. */
  ghost predicate Unbroken(overlap: Option<Part>, units: seq<Unit>) {
    forall k :: 1 <= k < |units| ==> RoomBefore(overlap, units, k)
  }

  ghost predicate RoomBefore(overlap: Option<Part>, units: seq<Unit>, k: nat)
    requires k < |units|
  {
    var text := TextOf(PartsFrom(overlap, units[..k]));
    !units[k].startsSection && Estimate(text) <= MAX_TOKENS && !Full(text, units[..k], units[k])
  }

  /** How chunk `i` relates to its units and to the chunk before it. */
  ghost predicate LinkOk(made: seq<Made>, i: nat)
    requires i < |made|
  {
    var m := made[i];
    && m.chunk.ordinal == i
    && m.units != []
    && (m.table ==>
          && |m.units| == 1 && m.units[0].isTable && m.overlap.None? && !m.continues && !m.guard
          && m.chunk.blockIds == m.units[0].blockIds && m.chunk.text == m.units[0].text)
    && (!m.table ==>
          && (forall k :: 0 <= k < |m.units| ==> !m.units[k].isTable)
          && HeadingsFirst(m.units)
          && Unbroken(m.overlap, m.units)
          && (i > 0 && !made[i - 1].table ==> Closed(made[i - 1], m.units[0]))
          && m.chunk.blockIds == BlockIds(PartsFrom(m.overlap, m.units))
          && m.chunk.text == TextOf(PartsFrom(m.overlap, m.units))
          && (m.guard <==> Estimate(m.chunk.text) > MAX_TOKENS) && (m.guard ==> m.continues)
          && (m.overlap.Some? <==> i > 0 && made[i - 1].continues)
          && (m.overlap.Some? ==> m.overlap.value == Tail(PartsFrom(made[i - 1].overlap, made[i - 1].units)))
          && (m.overlap.Some? && m.units[0].startsSection ==> made[i - 1].guard))
  }

  ghost predicate FlowOk(f: Flow) {
    && (forall i :: 0 <= i < |f.made| ==> LinkOk(f.made, i))
    && (f.pending.Some? <==> f.made != [] && f.made[|f.made| - 1].continues)
    && (f.pending.Some? ==> f.pending.value == Tail(PartsFrom(f.made[|f.made| - 1].overlap, f.made[|f.made| - 1].units)))
    && (forall k :: 0 <= k < |f.units| ==> !f.units[k].isTable)
    && HeadingsFirst(f.units)
    && Unbroken(f.overlap, f.units)
    && (f.units != [] && f.made != [] && !f.made[|f.made| - 1].table ==> Closed(f.made[|f.made| - 1], f.units[0]))
    && (f.units != [] ==> f.overlap == f.pending)
    && (f.units != [] && f.overlap.Some? && f.units[0].startsSection ==> f.made[|f.made| - 1].guard)
    && (f.units == [] ==> f.overlap.None?)
  }

  /** Between units: the text under construction is within the maximum, and a
      flow that continues with nothing under construction was cut by the guard. */
  ghost predicate Settled(f: Flow) {
    && FlowOk(f)
    && Estimate(TextOf(PartsIn(f))) <= MAX_TOKENS
    && (f.made != [] && f.units == [] ==> f.made[|f.made| - 1].guard || f.made[|f.made| - 1].table)
  }

  lemma LinksKept(made: seq<Made>, m: Made)
    requires forall i :: 0 <= i < |made| ==> LinkOk(made, i)
    requires LinkOk(made + [m], |made|)
    ensures forall i :: 0 <= i < |made + [m]| ==> LinkOk(made + [m], i)
  {
    forall i | 0 <= i < |made| ensures LinkOk(made + [m], i) {
      assert LinkOk(made, i);
      assert (made + [m])[i] == made[i];
      if i > 0 { assert (made + [m])[i - 1] == made[i - 1]; }
    }
  }

  lemma FlushOk(f: Flow, continueFlow: bool, guard: bool)
    requires FlowOk(f)
    requires guard <==> Estimate(TextOf(PartsIn(f))) > MAX_TOKENS
    requires guard ==> continueFlow
    ensures FlowOk(Flush(f, continueFlow, guard))
    ensures Flush(f, continueFlow, guard).units == []
    ensures f.units == [] ==> Flush(f, continueFlow, guard) == f
  {
    if f.units == [] {
      assert PartsIn(f) == [];
    } else {
      var parts := PartsIn(f);
      assert parts != [];
      var m := Made(Chunk(|f.made|, BlockIds(parts), TextOf(parts)), f.units, false, f.overlap, continueFlow, guard);
      var made := f.made + [m];
      if f.made != [] { assert made[|f.made| - 1] == f.made[|f.made| - 1]; }
      assert made[|f.made|] == m;
      assert LinkOk(made, |f.made|) by { hide Tail, BlockIds, TextOf, PartsFrom; }
      LinksKept(f.made, m);
    }
  }

  lemma TableOk(f: Flow, u: Unit)
    requires Settled(f) && u.isTable
    ensures Settled(FeedTable(f, u))
  {
    FlushOk(f, false, false);
    var flushed := Flush(f, false, false);
    var m := Made(Chunk(|flushed.made|, u.blockIds, u.text), [u], true, None, false, false);
    assert LinkOk(flushed.made + [m], |flushed.made|) by { assert (flushed.made + [m])[|flushed.made|] == m; }
    LinksKept(flushed.made, m);
    EmptyEstimate();
  }

  lemma EmptyEstimate()
    ensures PartsFrom(None, []) == [] && TextOf([]) == "" && Estimate("") == 0
  {}

  lemma FlushMakes(f: Flow, continueFlow: bool, guard: bool)
    requires f.units != []
    ensures var g := Flush(f, continueFlow, guard);
      && g.made != [] && g.pending.Some? == continueFlow
      && var m := g.made[|g.made| - 1];
      m.chunk.text == TextOf(PartsIn(f)) && m.units == f.units && !m.table && m.continues == continueFlow && m.guard == guard
  {
    PartsEmpty(f);
  }

  /** A first unit opens with what is pending. */
  lemma StartOk(f: Flow, u: Unit)
    requires FlowOk(f) && f.units == [] && !u.isTable
    requires f.made != [] && !f.made[|f.made| - 1].table ==> Closed(f.made[|f.made| - 1], u)
    requires f.pending.Some? && u.startsSection ==> f.made[|f.made| - 1].guard
    ensures FlowOk(AddUnit(f.(overlap := f.pending), u))
  {
    hide LinkOk, Closed, Tail;
    assert f.units + [u] == [u];
  }

  /** A further unit finds room. */
  lemma ExtendOk(f: Flow, u: Unit)
    requires FlowOk(f) && f.units != [] && !u.isTable && !u.startsSection
    requires Estimate(TextOf(PartsIn(f))) <= MAX_TOKENS && !Full(TextOf(PartsIn(f)), f.units, u)
    ensures FlowOk(AddUnit(f, u))
  {
    hide LinkOk, Closed, Tail, Full, TextOf, PartsFrom;
    var longer := f.units + [u];
    forall k | 1 <= k < |longer| ensures RoomBefore(f.overlap, longer, k) {
      if k < |f.units| {
        assert RoomBefore(f.overlap, f.units, k);
        assert longer[..k] == f.units[..k];
      } else {
        assert longer[..k] == f.units;
      }
    }
  }

  lemma PrepareOk(f: Flow, u: Unit)
    requires Settled(f) && !u.isTable
    ensures var p := Prepare(f, u);
      && (forall i :: 0 <= i < |p.made| ==> LinkOk(p.made, i))
      && FlowOk(AddUnit(p, u))
  {
    hide Flush, Tail, TextOf, BlockIds, LinkOk, Unbroken, SawContent;
    EmptyEstimate();
    PartsEmpty(f);
    if f.units == [] {
      FlushOk(f, false, false);
      NoContent(f, u);
      StartOk(f, u);
    } else if u.startsSection {
      FlushOk(f, false, false);
      FlushMakes(f, false, false);
      var a := Flush(f, false, false);
      PartsEmpty(a);
      StartOk(a, u);
    } else if Overflows(f, u) {
      FlushOk(f, true, false);
      FlushMakes(f, true, false);
      var b := Flush(f, true, false);
      PartsEmpty(b);
      StartOk(b, u);
    } else {
      ExtendOk(f, u);
    }
  }

  lemma NoContent(f: Flow, u: Unit)
    requires Settled(f) && f.units == []
    ensures !SawContent(f.units)
    ensures f.made != [] && !f.made[|f.made| - 1].table ==> Closed(f.made[|f.made| - 1], u)
    ensures f.pending.Some? ==> f.made[|f.made| - 1].guard
  {
    hide Tail, TextOf, BlockIds, Unbroken, Estimate;
    if f.made != [] { assert LinkOk(f.made, |f.made| - 1); }
  }

  lemma PartsEmpty(f: Flow)
    requires f.units == [] ==> f.overlap.None?
    ensures PartsIn(f) == [] <==> f.units == []
  {}

  lemma FeedOk(f: Flow, u: Unit)
    requires Settled(f)
    ensures Settled(Feed(f, u))
  {
    if u.isTable {
      TableOk(f, u);
    } else {
      PrepareOk(f, u);
      var added := AddUnit(Prepare(f, u), u);
      hide Prepare, LinkOk, Tail, BlockIds;
      EmptyEstimate();
      if Estimate(TextOf(PartsIn(added))) > MAX_TOKENS {
        FlushOk(added, true, true);
        GuardedFlush(added);
      }
    }
  }

  lemma GuardedFlush(f: Flow)
    requires f.units != []
    ensures var g := Flush(f, true, true);
      g.made != [] && g.made[|g.made| - 1].guard && g.units == [] && g.overlap.None?
  {
    PartsEmpty(f);
  }

  lemma {:induction false} FeedAllOk(units: seq<Unit>)
    ensures Settled(FeedAll(EMPTY_FLOW, units))
  {
    if units == [] {
      EmptyEstimate();
    } else {
      FeedAllOk(units[..|units| - 1]);
      FeedOk(FeedAll(EMPTY_FLOW, units[..|units| - 1]), units[|units| - 1]);
    }
  }

  // ---- nothing is lost, added or reordered ----

  function UnitsMade(made: seq<Made>): seq<Unit> {
    if made == [] then [] else UnitsMade(made[..|made| - 1]) + made[|made| - 1].units
  }

  function UnitsHeld(f: Flow): seq<Unit> {
    UnitsMade(f.made) + f.units
  }

  lemma UnitsMadeSnoc(made: seq<Made>, m: Made)
    ensures UnitsMade(made + [m]) == UnitsMade(made) + m.units
  {
    assert (made + [m])[..|made|] == made;
  }

  lemma FlushHolds(f: Flow, continueFlow: bool, guard: bool)
    requires f.units == [] ==> f.overlap.None?
    ensures UnitsHeld(Flush(f, continueFlow, guard)) == UnitsHeld(f)
  {
    PartsEmpty(f);
    if PartsIn(f) != [] {
      UnitsMadeSnoc(f.made, Flush(f, continueFlow, guard).made[|f.made|]);
    }
  }

  lemma TableHolds(f: Flow, u: Unit)
    requires f.units == [] ==> f.overlap.None?
    ensures UnitsHeld(FeedTable(f, u)) == UnitsHeld(f) + [u]
  {
    hide Flush, TextOf, Tail, BlockIds, PartsIn;
    FlushHolds(f, false, false);
    FlushEmpties(f, false, false);
    var flushed := Flush(f, false, false);
    UnitsMadeSnoc(flushed.made, Made(Chunk(|flushed.made|, u.blockIds, u.text), [u], true, None, false, false));
  }

  lemma PrepareHolds(f: Flow, u: Unit)
    requires f.units == [] ==> f.overlap.None?
    ensures UnitsHeld(Prepare(f, u)) == UnitsHeld(f)
  {
    hide Flush, TextOf, Tail, BlockIds, PartsIn, Overflows;
    var a := if u.startsSection then Flush(f, false, false) else f;
    FlushHolds(f, false, false);
    FlushEmpties(f, false, false);
    FlushHolds(a, true, false);
  }

  lemma FeedHolds(f: Flow, u: Unit)
    requires f.units == [] ==> f.overlap.None?
    ensures UnitsHeld(Feed(f, u)) == UnitsHeld(f) + [u]
  {
    hide Flush, TextOf, Tail, BlockIds, PartsIn, Prepare, FeedTable;
    if u.isTable {
      TableHolds(f, u);
    } else {
      PrepareHolds(f, u);
      var added := AddUnit(Prepare(f, u), u);
      assert UnitsHeld(added) == UnitsHeld(Prepare(f, u)) + [u];
      FlushHolds(added, true, true);
    }
  }

  lemma FlushEmpties(f: Flow, continueFlow: bool, guard: bool)
    requires f.units == [] ==> f.overlap.None?
    ensures Flush(f, continueFlow, guard).units == [] && Flush(f, continueFlow, guard).overlap.None?
  {
    PartsEmpty(f);
  }

  lemma IdleHasNoOverlap(units: seq<Unit>)
    ensures var f := FeedAll(EMPTY_FLOW, units); f.units == [] ==> f.overlap.None?
  {
    FeedAllOk(units);
  }

  lemma {:induction false} FeedAllHolds(units: seq<Unit>)
    ensures UnitsHeld(FeedAll(EMPTY_FLOW, units)) == units
  {
    hide Feed;
    if units != [] {
      var init := units[..|units| - 1];
      IdleHasNoOverlap(init);
      FeedAllHolds(init);
      FeedHolds(FeedAll(EMPTY_FLOW, init), units[|units| - 1]);
      assert units == init + [units[|units| - 1]];
    }
  }

  /** The chunks are made of exactly the units, in order, with ordinals from 0;
      a chunk opens with an overlap exactly when the flow continued from the
      one before, the overlap is then that chunk's tail, and it reaches into a
      new section only past a chunk the size guard closed. */
  lemma ChunksAccount(units: seq<Unit>)
    ensures var made := ChunkAll(units).made;
      && UnitsMade(made) == units
      && forall i :: 0 <= i < |made| ==> LinkOk(made, i)
  {
    FeedAllOk(units);
    FeedAllHolds(units);
    var f := FeedAll(EMPTY_FLOW, units);
    FlushOk(f, false, false);
    FlushHolds(f, false, false);
    FlushEmpties(f, false, false);
  }

  /** Overlap across boundaries: a table chunk neither takes nor gives one, and a
      chunk that opens a section repeats the one before exactly when that one
      had grown past the maximum estimate. */
  lemma OverlapBoundaries(units: seq<Unit>, i: nat)
    requires var made := ChunkAll(units).made; 0 < i < |made| && !made[i].table
    ensures var made := ChunkAll(units).made; var before := made[i - 1];
      && (made[i].overlap.Some? ==> !before.table && made[i].overlap.value == Tail(PartsFrom(before.overlap, before.units)))
      && (made[i].units != [] && made[i].units[0].startsSection ==>
            (made[i].overlap.Some? <==> !before.table && Estimate(before.chunk.text) > MAX_TOKENS))
  {
    ChunksAccount(units);
    var made := ChunkAll(units).made;
    assert LinkOk(made, i) && LinkOk(made, i - 1);
    hide ChunkAll, TextOf, BlockIds, Tail, HeadingsFirst, PartsFrom;
  }
}
