/** Where one prose chunk ends and how the next one opens, told of the units and
    the texts of the chunks alone. */
module ChunkBoundaries {
  import opened Options
  import opened Words
  import opened ChunkWindows
  import opened ChunkFlow
  import opened ChunkSizes

  ghost function UnitTexts(units: seq<Unit>): (texts: seq<string>)
    ensures |texts| == |units|
  {
    seq(|units|, i requires 0 <= i < |units| => units[i].text)
  }

  /** The last words of a text, one space apart: the fewest that fill 400
      characters with a separator after each, or all of them. */
  ghost predicate IsTail(tail: string, text: string) {
    var words := Split(text);
    exists from :: 0 <= from <= |words| && tail == Join(' ', words[from..]) && LeastFrom(words, from)
  }

  ghost predicate LeastFrom(words: seq<string>, from: nat)
    requires from <= |words|
  {
    && (from == 0 || |Join(' ', words[from..])| + 1 >= 400)
    && (from + 1 < |words| ==> |Join(' ', words[from + 1..])| + 1 < 400)
  }

  ghost predicate HasContent(units: seq<Unit>) {
    exists k :: 0 <= k < |units| && !units[k].startsSection
  }

  /** `text` holds content, and with `next` it would pass the target. */
  ghost predicate PassesTarget(text: string, units: seq<Unit>, next: Unit) {
    HasContent(units) && Estimate(text) + Estimate(next.text) + 1 > 800
  }

  /** A text is over the maximum from 4804 characters on. */
  ghost predicate PassesMaximum(text: string) {
    |text| >= 4804
  }

  lemma MaximumMeans(text: string)
    ensures Estimate(text) > MAX_TOKENS <==> PassesMaximum(text)
  {}

  lemma OverlapIsTail(parts: seq<Part>)
    ensures IsTail(Tail(parts).text, TextOf(parts))
  {
    var words := Split(TextOf(parts));
    var from := |words| - TailLen(words, 0);
    TailIsJoin(parts);
    TailLenEnough(words, 0);
    if from < |words| { TailLenLeast(words, 0, |words| - from - 1); }
    hide Tail, TextOf, Split, TailLen;
    LeastByLength(words, from);
  }

  lemma LeastByLength(words: seq<string>, from: nat)
    requires from <= |words| && (from == 0 || Cost(words, from, |words|) >= OVERLAP)
    requires from < |words| ==> Cost(words, from + 1, |words|) < OVERLAP
    ensures LeastFrom(words, from)
  {
    hide Join;
    EmptyCost(words);
    assert words[from..|words|] == words[from..];
    if from < |words| { JoinCost(words, from, |words|); }
    if from + 1 < |words| {
      JoinCost(words, from + 1, |words|);
      assert words[from + 1..|words|] == words[from + 1..];
    }
  }

  lemma EmptyCost(words: seq<string>)
    ensures Cost(words, |words|, |words|) == 0
  {}

  /** Whatever a chunk opens with stands above its own units. */
  lemma TextOfParts(overlap: Option<Part>, units: seq<Unit>)
    requires units != []
    ensures TextOf(PartsFrom(overlap, units))
         == (if overlap.Some? then overlap.value.text + "\n" else "") + Join('\n', UnitTexts(units))
  {
    assert Texts(PartsFrom(None, units)) == UnitTexts(units);
    if overlap.Some? {
      var all := Texts(PartsFrom(overlap, units));
      assert all == [overlap.value.text] + UnitTexts(units);
      assert all[1..] == UnitTexts(units);
    }
  }

  /** Between two prose chunks there is a reason to close the first: a heading
      follows, it passed the maximum, or it holds content and the unit that
      follows would take it past the target. The second then opens with the
      tail of the first if and only if the maximum closed it, or the target
      with no heading at hand; otherwise it is its own units and no more. */
  lemma ClosedExactlyFor(units: seq<Unit>, i: nat) returns (tail: string)
    requires var made := ChunkAll(units).made; i + 1 < |made| && !made[i].table && !made[i + 1].table
    ensures var made := ChunkAll(units).made;
      && made[i + 1].units != []
      && var text, next := made[i].chunk.text, made[i + 1].units[0];
      var own := Join('\n', UnitTexts(made[i + 1].units));
      var target := PassesTarget(text, made[i].units, next);
      && (next.startsSection || PassesMaximum(text) || target)
      && IsTail(tail, text)
      && made[i + 1].chunk.text
         == if PassesMaximum(text) || (target && !next.startsSection) then tail + "\n" + own else own
  {
    hide ChunkAll, TextOf, BlockIds, Tail, HeadingsFirst, PartsFrom, Unbroken, IsTail, Split, Estimate;
    ChunksAccount(units);
    var made := ChunkAll(units).made;
    var before, m := made[i], made[i + 1];
    assert LinkOk(made, i) && LinkOk(made, i + 1);
    tail := Tail(PartsFrom(before.overlap, before.units)).text;
    OverlapIsTail(PartsFrom(before.overlap, before.units));
    MaximumMeans(before.chunk.text);
    TextOfParts(m.overlap, m.units);
  }

  /** The first chunk and a prose chunk behind a table open with nothing. */
  lemma OpensFresh(units: seq<Unit>, i: nat)
    requires var made := ChunkAll(units).made; i < |made| && !made[i].table && (i > 0 ==> made[i - 1].table)
    ensures var made := ChunkAll(units).made; made[i].chunk.text == Join('\n', UnitTexts(made[i].units))
  {
    hide ChunkAll, TextOf, BlockIds, Tail, HeadingsFirst, PartsFrom, Unbroken;
    ChunksAccount(units);
    var made := ChunkAll(units).made;
    assert LinkOk(made, i);
    if i > 0 { assert LinkOk(made, i - 1); }
    TextOfParts(made[i].overlap, made[i].units);
  }

  /** And no prose chunk ends later than the first reason to: before each unit
      it goes on with, the text held so far is within the maximum, the unit is
      no heading, and it fits the target or nothing but headings is held. */
  lemma NotClosedLater(units: seq<Unit>, i: nat, k: nat) returns (held: string)
    requires var made := ChunkAll(units).made; i < |made| && !made[i].table && 0 < k < |made[i].units|
    ensures var m := ChunkAll(units).made[i];
      && m.chunk.text == held + "\n" + Join('\n', UnitTexts(m.units[k..]))
      && !m.units[k].isTable && !m.units[k].startsSection
      && !PassesMaximum(held) && !PassesTarget(held, m.units[..k], m.units[k])
  {
    hide ChunkAll, TextOf, BlockIds, Tail, HeadingsFirst, PartsFrom, Split, Estimate;
    ChunksAccount(units);
    var made := ChunkAll(units).made;
    var m := made[i];
    assert LinkOk(made, i);
    assert RoomBefore(m.overlap, m.units, k);
    held := TextOf(PartsFrom(m.overlap, m.units[..k]));
    MaximumMeans(held);
    TextOfParts(m.overlap, m.units);
    TextOfParts(m.overlap, m.units[..k]);
    assert UnitTexts(m.units) == UnitTexts(m.units[..k]) + UnitTexts(m.units[k..]);
    JoinOfTwo(UnitTexts(m.units[..k]), UnitTexts(m.units[k..]));
  }

  lemma {:induction false} JoinOfTwo(a: seq<string>, b: seq<string>)
    requires a != [] && b != []
    ensures Join('\n', a + b) == Join('\n', a) + "\n" + Join('\n', b)
  {
    assert (a + b)[1..] == a[1..] + b;
    if |a| > 1 {
      JoinOfTwo(a[1..], b);
    } else {
      assert a[1..] + b == b;
    }
  }

  /** A table's group is a chunk alone, as it stands, and prose chunks hold no
      table. */
  lemma TablesStandAlone(units: seq<Unit>, i: nat)
    requires i < |ChunkAll(units).made|
    ensures var m := ChunkAll(units).made[i];
      && m.units != []
      && (m.table <==> exists k :: 0 <= k < |m.units| && m.units[k].isTable)
      && (m.table ==> |m.units| == 1 && m.chunk.text == m.units[0].text && m.chunk.blockIds == m.units[0].blockIds)
  {
    hide ChunkAll, TextOf, BlockIds, Tail, HeadingsFirst, PartsFrom, Unbroken;
    ChunksAccount(units);
    assert LinkOk(ChunkAll(units).made, i);
  }
}
