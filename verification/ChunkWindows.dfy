/** Splitting one oversized text into overlapping windows of words. */
module ChunkWindows {
  import opened Words

  const TARGET_TOKENS: nat := 800
  const MAX_TOKENS: nat := 1200
  const OVERLAP_TOKENS: nat := 100
  const TOKEN_CHARS: nat := 4

  /** Characters a window may cost, each word counted with its separator. */
  const WINDOW: nat := TARGET_TOKENS * TOKEN_CHARS
  const OVERLAP: nat := OVERLAP_TOKENS * TOKEN_CHARS

  function Estimate(text: string): nat {
    if text == "" then 0 else if |text| / TOKEN_CHARS >= 1 then |text| / TOKEN_CHARS else 1
  }

  datatype Unit = Unit(blockIds: seq<string>, text: string, startsSection: bool, isTable: bool)

  function Cost(words: seq<string>, a: nat, b: nat): nat
    requires a <= b <= |words|
    decreases b - a
  {
    if a == b then 0 else Cost(words, a, b - 1) + |words[b - 1]| + 1
  }

  /** A window: as many words from `s` as the budget allows, at least one. */
  ghost predicate IsWindow(words: seq<string>, s: nat, e: nat) {
    && s < e <= |words|
    && (e == s + 1 || Cost(words, s, e) <= WINDOW)
    && (e == |words| || Cost(words, s, e + 1) > WINDOW)
  }

  /** The next window starts where the shared words first cost the overlap,
      stepping back from `e`, and always past `s`. */
  ghost predicate IsNext(words: seq<string>, s: nat, e: nat, next: nat) {
    && s < next <= e <= |words|
    && (next == s + 1 || Cost(words, next, e) >= OVERLAP)
    && (next == e || Cost(words, next + 1, e) < OVERLAP)
  }

  type Window = (nat, nat)

  ghost predicate Chained(words: seq<string>, ws: seq<Window>) {
    && (ws != [] ==> ws[0].0 == 0)
    && (forall i :: 0 <= i < |ws| ==> IsWindow(words, ws[i].0, ws[i].1))
    && (forall i :: 0 <= i < |ws| - 1 ==> IsNext(words, ws[i].0, ws[i].1, ws[i + 1].0))
  }

  /** Windows until the step after the last one would start past the end. */
  ghost predicate Tiled(words: seq<string>, ws: seq<Window>) {
    && Chained(words, ws)
    && (words == [] <==> ws == [])
    && (ws != [] ==> IsNext(words, ws[|ws| - 1].0, ws[|ws| - 1].1, |words|))
  }

  function Piece(unit: Unit, words: seq<string>, s: nat, e: nat): Unit
    requires s <= e <= |words|
  {
    Unit(unit.blockIds, Join(' ', words[s..e]), unit.startsSection && s == 0, false)
  }

  lemma {:induction false} CostFront(words: seq<string>, a: nat, b: nat)
    requires a < b <= |words|
    ensures Cost(words, a, b) == |words[a]| + 1 + Cost(words, a + 1, b)
    decreases b
  {
    if a < b - 1 { CostFront(words, a, b - 1); }
  }

  /** The inner loop that fills one window. */
  method FillWindow(words: seq<string>, start: nat) returns (piece: seq<string>)
    requires start < |words|
    ensures start + |piece| <= |words| && piece == words[start..start + |piece|]
    ensures IsWindow(words, start, start + |piece|)
  {
    piece := [];
    var used := 0;
    while start + |piece| < |words| && !(used > 0 && used + |words[start + |piece|]| + 1 > WINDOW)
      invariant start + |piece| <= |words| && piece == words[start..start + |piece|]
      invariant used == Cost(words, start, start + |piece|)
      invariant |piece| > 1 ==> used <= WINDOW
      invariant used > 0 <==> piece != []
      decreases |words| - |piece|
    {
      var word := words[start + |piece|];
      piece := piece + [word];
      used := used + |word| + 1;
    }
  }

  /** The inner loop that steps back over the words the next window repeats. */
  method StepBack(words: seq<string>, start: nat, consumed: nat) returns (stepBack: nat)
    requires 0 < consumed && start + consumed <= |words|
    ensures stepBack < consumed && IsNext(words, start, start + consumed, start + consumed - stepBack)
  {
    var end := start + consumed;
    stepBack := 0;
    var backChars := 0;
    while start + consumed - stepBack - 1 > start && backChars < OVERLAP
      invariant 0 <= stepBack < consumed
      invariant backChars == Cost(words, end - stepBack, end)
      invariant stepBack > 0 ==> Cost(words, end - stepBack + 1, end) < OVERLAP
      decreases consumed - stepBack
    {
      stepBack := stepBack + 1;
      CostFront(words, end - stepBack, end);
      backChars := backChars + |words[start + consumed - stepBack]| + 1;
    }
  }

  ghost predicate PiecesOf(unit: Unit, words: seq<string>, units: seq<Unit>, ws: seq<Window>) {
    && |units| == |ws|
    && forall i :: 0 <= i < |ws| ==> ws[i].0 <= ws[i].1 <= |words| && units[i] == Piece(unit, words, ws[i].0, ws[i].1)
  }

  lemma AddWindow(words: seq<string>, ws: seq<Window>, start: nat, end: nat)
    requires Chained(words, ws) && IsWindow(words, start, end)
    requires ws == [] ==> start == 0
    requires ws != [] ==> IsNext(words, ws[|ws| - 1].0, ws[|ws| - 1].1, start)
    ensures Chained(words, ws + [(start, end)])
  {
    var longer := ws + [(start, end)];
    forall i | 0 <= i < |longer| - 1 ensures IsNext(words, longer[i].0, longer[i].1, longer[i + 1].0) {
      if i < |ws| - 1 { assert IsNext(words, ws[i].0, ws[i].1, ws[i + 1].0); }
    }
  }

  method SplitOversized(unit: Unit) returns (units: seq<Unit>, ghost ws: seq<Window>)
    ensures Estimate(unit.text) <= MAX_TOKENS ==> units == [unit]
    ensures Estimate(unit.text) > MAX_TOKENS ==> Tiled(Split(unit.text), ws) && PiecesOf(unit, Split(unit.text), units, ws)
  {
    hide IsWindow, IsNext, Chained, Estimate;
    var words := Split(unit.text);
    units, ws := [], [];
    if Estimate(unit.text) <= MAX_TOKENS {
      return [unit], [];
    }
    var start := 0;
    NoWindows(words);
    while start < |words|
      invariant start <= |words| && (start == 0 <==> ws == [])
      invariant Chained(words, ws) && PiecesOf(unit, words, units, ws)
      invariant ws != [] ==> IsNext(words, ws[|ws| - 1].0, ws[|ws| - 1].1, start)
      decreases |words| - start
    {
      var piece := FillWindow(words, start);
      WindowShape(words, start, start + |piece|);
      units := units + [Unit(unit.blockIds, Join(' ', piece), unit.startsSection && start == 0, false)];
      var stepBack := StepBack(words, start, |piece|);
      AddWindow(words, ws, start, start + |piece|);
      ws := ws + [(start, start + |piece|)];
      start := start + |piece| - stepBack;
    }
  }

  lemma NoWindows(words: seq<string>)
    ensures Chained(words, [])
  {}

  lemma WindowShape(words: seq<string>, s: nat, e: nat)
    requires IsWindow(words, s, e)
    ensures s < e <= |words|
  {}

  // ---- what the windows give ----

  /** Starts rise strictly, consecutive windows leave no gap, and the last
      window ends with the last word. */
  lemma {:induction false} WindowsAdvance(words: seq<string>, ws: seq<Window>, i: nat, k: nat)
    requires Tiled(words, ws) && i < k < |ws|
    ensures ws[i].0 < ws[k].0
    ensures ws[i + 1].0 <= ws[i].1
    ensures ws[|ws| - 1].1 == |words|
    decreases k
  {
    assert IsNext(words, ws[i].0, ws[i].1, ws[i + 1].0);
    if i < k - 1 {
      WindowsAdvance(words, ws, i, k - 1);
      assert IsNext(words, ws[k - 1].0, ws[k - 1].1, ws[k - 1 + 1].0);
    }
  }

  /** Every word lies in some window. */
  lemma {:induction false} WindowsCover(words: seq<string>, ws: seq<Window>, n: nat, k: nat)
    requires Chained(words, ws) && 0 < n <= |ws| && k < ws[n - 1].1
    ensures exists i :: 0 <= i < n && ws[i].0 <= k < ws[i].1
    decreases n
  {
    if k < ws[n - 1].0 {
      assert IsNext(words, ws[n - 2].0, ws[n - 2].1, ws[n - 2 + 1].0);
      WindowsCover(words, ws, n - 1, k);
    }
  }

  lemma {:induction false} JoinCost(words: seq<string>, a: nat, b: nat)
    requires a < b <= |words|
    ensures |Join(' ', words[a..b])| + 1 == Cost(words, a, b)
    decreases b - a
  {
    CostFront(words, a, b);
    if b - a > 1 {
      JoinCost(words, a + 1, b);
      assert words[a..b][1..] == words[a + 1..b];
    }
  }

  /** A window's text stays below the target budget unless it is one word. */
  lemma WindowSize(words: seq<string>, ws: seq<Window>, i: nat)
    requires Tiled(words, ws) && i < |ws|
    ensures ws[i].1 == ws[i].0 + 1 || |Join(' ', words[ws[i].0..ws[i].1])| <= WINDOW - 1
  {
    JoinCost(words, ws[i].0, ws[i].1);
  }

  lemma {:induction false} CostGrows(words: seq<string>, a: nat, b: nat, c: nat)
    requires a <= b <= c <= |words|
    ensures Cost(words, a, b) <= Cost(words, a, c)
    decreases c - b
  {
    if b < c { CostGrows(words, a, b, c - 1); }
  }

  lemma {:induction false} CostShrinks(words: seq<string>, a: nat, b: nat, c: nat)
    requires a <= b <= c <= |words|
    ensures Cost(words, b, c) <= Cost(words, a, c)
    decreases b - a
  {
    if a < b {
      CostFront(words, a, c);
      CostShrinks(words, a + 1, b, c);
    }
  }

  /** No window ends before the one it follows. */
  lemma EndsNeverRetreat(words: seq<string>, ws: seq<Window>, i: nat)
    requires Tiled(words, ws) && i + 1 < |ws|
    ensures ws[i].0 < ws[i + 1].0 <= ws[i].1 <= ws[i + 1].1 <= |words|
  {
    var (s, e) := ws[i];
    var (next, end) := ws[i + 1];
    assert IsWindow(words, s, e) && IsNext(words, s, e, next) && IsWindow(words, next, end);
    if end < e {
      CostShrinks(words, s, next, end + 1);
      CostGrows(words, s, end + 1, e);
    }
  }

  /** Once a window ends with the last word the split goes on with shorter and
      shorter suffixes of it, word by word as soon as what is left costs less than
      the overlap, down to the last word alone. */
  lemma {:induction false} EndsInSuffixes(words: seq<string>, ws: seq<Window>, i: nat, j: nat)
    requires Tiled(words, ws) && i < j < |ws| && ws[i].1 == |words|
    ensures ws[j].1 == |words| && ws[j - 1].0 < ws[j].0
    ensures Cost(words, ws[j - 1].0 + 1, |words|) < OVERLAP ==> ws[j].0 == ws[j - 1].0 + 1
    ensures ws[|ws| - 1] == (|words| - 1, |words|)
    decreases j
  {
    if i < j - 1 { EndsInSuffixes(words, ws, i, j - 1); }
    EndsNeverRetreat(words, ws, j - 1);
    var (s, e) := ws[j - 1];
    assert IsNext(words, s, e, ws[j - 1 + 1].0);
    CostShrinks(words, s + 1, ws[j].0, |words|);
    LastIsOneWord(words, ws);
  }

  /** The last window is the last word. */
  lemma LastIsOneWord(words: seq<string>, ws: seq<Window>)
    requires Tiled(words, ws) && ws != []
    ensures ws[|ws| - 1] == (|words| - 1, |words|)
  {
    var (s, e) := ws[|ws| - 1];
    assert IsWindow(words, s, e) && IsNext(words, s, e, |words|);
    assert Cost(words, |words|, |words|) == 0;
  }

  /** What two consecutive pieces have in common: the last words of the one are
      the first words of the next. They are the fewest that cost the overlap, or
      all words of the first piece but one. */
  lemma PiecesShareWords(unit: Unit, units: seq<Unit>, ws: seq<Window>, i: nat) returns (shared: seq<string>)
    requires Tiled(Split(unit.text), ws) && PiecesOf(unit, Split(unit.text), units, ws) && i + 1 < |ws|
    ensures var one, two := Split(units[i].text), Split(units[i + 1].text);
      && |shared| < |one| && one == one[..|one| - |shared|] + shared
      && shared <= two
      && (|shared| == |one| - 1 || |Join(' ', shared)| + 1 >= OVERLAP)
      && (|shared| > 1 ==> |Join(' ', shared[1..])| + 1 < OVERLAP)
  {
    var words := Split(unit.text);
    EndsNeverRetreat(words, ws, i);
    var (s, e) := ws[i];
    var (next, end) := ws[i + 1];
    assert IsNext(words, s, e, next);
    hide Tiled, IsNext, IsWindow;
    WordsOfPiece(unit, words, s, e);
    WordsOfPiece(unit, words, next, end);
    shared := words[next..e];
    assert words[s..e] == words[s..next] + shared && words[next..end] == shared + words[e..end];
    if next < e { JoinCost(words, next, e); }
    if next + 1 < e {
      JoinCost(words, next + 1, e);
      assert shared[1..] == words[next + 1..e];
    }
  }

  lemma WordsOfPiece(unit: Unit, words: seq<string>, s: nat, e: nat)
    requires words == Split(unit.text) && s <= e <= |words|
    ensures Split(Piece(unit, words, s, e).text) == words[s..e]
  {
    SplitGivesWords("", unit.text);
    JoinThenSplit(' ', words[s..e]);
  }
}
