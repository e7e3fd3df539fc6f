/** Canonical document text and the block diff: what re-segmentation by another
    parser can and cannot change. */
module CanonicalText {
  import opened Integers
  import opened Words

  // ---- normalization of one text ----

  /** `replace("\r\n", "\n")` */
  function FoldPairs(s: string): string {
    if s == "" then ""
    else if |s| > 1 && s[0] == '\r' && s[1] == '\n' then "\n" + FoldPairs(s[2..])
    else [s[0]] + FoldPairs(s[1..])
  }

  /** `replace("\r", "\n")` */
  function FoldReturns(s: string): string {
    if s == "" then "" else [if s[0] == '\r' then '\n' else s[0]] + FoldReturns(s[1..])
  }

  /** Control characters go, tab and line feed stay. */
  function DropControls(s: string): string {
    if s == "" then ""
    else (if s[0] < '\U{20}' && s[0] != '\t' && s[0] != '\n' then "" else [s[0]]) + DropControls(s[1..])
  }

  function Folded(s: string): string {
    DropControls(FoldReturns(FoldPairs(s)))
  }

  /** Unicode composition is the library's; any function may stand for it. */
  type Nfc = string -> string

  function NormalizeText(nfc: Nfc, text: string): string {
    nfc(Folded(text))
  }

  /** White space that survives the normalization before composition. */
  predicate IsBlank(c: char) {
    IsSpace(c) && (c >= ' ' || c == '\t' || c == '\n')
  }

  /** Composition never reaches across white space, which stays one white space. */
  ghost predicate KeepsBlanks(nfc: Nfc) {
    && nfc("") == ""
    && (forall c :: IsBlank(c) ==> |nfc([c])| == 1 && IsSpace(nfc([c])[0]))
    && forall a: string, c: char, b: string :: IsBlank(c) ==> nfc(a + [c] + b) == nfc(a) + nfc([c]) + nfc(b)
  }

  /** Texts that are already composed: leaving them alone is such a function. */
  lemma IdentityKeepsBlanks(nfc: Nfc)
    requires forall s :: nfc(s) == s
    ensures KeepsBlanks(nfc)
  {
  }

  // ---- the canonical text of a document ----

  function NonEmpty(pieces: seq<string>): seq<string> {
    if pieces == [] then [] else (if pieces[0] == "" then [] else [pieces[0]]) + NonEmpty(pieces[1..])
  }

  function Stripped(nfc: Nfc, texts: seq<string>): seq<string> {
    if texts == [] then [] else [Strip(NormalizeText(nfc, texts[0]))] + Stripped(nfc, texts[1..])
  }

  /** `re.sub(r"\s+", " ", s)` */
  function CollapseRuns(s: string): string
    decreases |s|
  {
    if s == "" then ""
    else if IsSpace(s[0]) then ShorterWhenSpace(s); " " + CollapseRuns(LStrip(s))
    else [s[0]] + CollapseRuns(s[1..])
  }

  lemma ShorterWhenSpace(s: string)
    requires s != "" && IsSpace(s[0])
    ensures |LStrip(s)| < |s|
  {
    LStripIsShorter(s[1..]);
  }

  function CanonicalDocumentText(nfc: Nfc, texts: seq<string>): string {
    Strip(CollapseRuns(Join(' ', NonEmpty(Stripped(nfc, texts)))))
  }

  /** The words of a document, block after block. */
  function DocumentWords(nfc: Nfc, texts: seq<string>): seq<string> {
    if texts == [] then [] else Split(NormalizeText(nfc, texts[0])) + DocumentWords(nfc, texts[1..])
  }

  // ---- collapsing leaves the words apart by one space each ----

  lemma {:induction false} CollapseIsSingleSpaced(s: string)
    ensures SingleSpaced(CollapseRuns(s))
    ensures s != "" && !IsSpace(s[0]) ==> CollapseRuns(s) != "" && CollapseRuns(s)[0] == s[0]
    ensures s == "" ==> CollapseRuns(s) == ""
    decreases |s|
  {
    if s != "" {
      if IsSpace(s[0]) {
        ShorterWhenSpace(s);
        WordsOfLStrip(s);
        CollapseIsSingleSpaced(LStrip(s));
      } else {
        CollapseIsSingleSpaced(s[1..]);
      }
    }
  }

  lemma {:induction false} CollapseKeepsWords(cur: string, s: string)
    ensures WordsFrom(cur, CollapseRuns(s)) == WordsFrom(cur, s)
    decreases |s|
  {
    if s != "" {
      if IsSpace(s[0]) {
        ShorterWhenSpace(s);
        CollapseKeepsWords("", LStrip(s));
        WordsOfLStrip(s[1..]);
        assert LStrip(s) == LStrip(s[1..]);
        assert CollapseRuns(s)[0] == ' ' && CollapseRuns(s)[1..] == CollapseRuns(LStrip(s));
      } else {
        CollapseKeepsWords(cur + [s[0]], s[1..]);
        assert CollapseRuns(s)[0] == s[0] && CollapseRuns(s)[1..] == CollapseRuns(s[1..]);
      }
    }
  }

  lemma {:induction false} StripKeepsSpacing(s: string)
    requires SingleSpaced(s)
    ensures SingleSpaced(Strip(s))
  {
    LStripKeepsSpacing(s);
    WordsOfRStrip(LStrip(s));
    var t := LStrip(s);
    assert Strip(s) == t[..|Strip(s)|];
  }

  lemma {:induction false} LStripKeepsSpacing(s: string)
    requires SingleSpaced(s)
    ensures SingleSpaced(LStrip(s))
  {
    if s != "" && IsSpace(s[0]) {
      assert forall i :: 0 <= i < |s[1..]| ==> s[1..][i] == s[i + 1];
      LStripKeepsSpacing(s[1..]);
    }
  }

  lemma CollapsedIsJoin(s: string)
    ensures Strip(CollapseRuns(s)) == Join(' ', Split(s))
  {
    hide Strip, CollapseRuns, SingleSpaced, Join, WordsFrom, IsSpace;
    CollapseIsSingleSpaced(s);
    CollapseKeepsWords("", s);
    StripKeepsSpacing(CollapseRuns(s));
    WordsOfStrip(CollapseRuns(s));
    SpacedIsJoin(Strip(CollapseRuns(s)));
  }

  lemma {:induction false} WordsOfPieces(nfc: Nfc, texts: seq<string>)
    ensures SplitAll(NonEmpty(Stripped(nfc, texts))) == DocumentWords(nfc, texts)
  {
    if texts != [] {
      WordsOfPieces(nfc, texts[1..]);
      var text := NormalizeText(nfc, texts[0]);
      WordsOfStrip(text);
      BlankHasNoWords(text);
      assert Stripped(nfc, texts)[1..] == Stripped(nfc, texts[1..]);
      SplitAllConcat(if Strip(text) == "" then [] else [Strip(text)], NonEmpty(Stripped(nfc, texts[1..])));
    }
  }

  /** The canonical text is the document's words, one space apart. */
  lemma CanonicalIsItsWords(nfc: Nfc, texts: seq<string>)
    ensures CanonicalDocumentText(nfc, texts) == Join(' ', DocumentWords(nfc, texts))
  {
    var pieces := NonEmpty(Stripped(nfc, texts));
    CollapsedIsJoin(Join(' ', pieces));
    WordsOfJoin(' ', pieces);
    WordsOfPieces(nfc, texts);
  }

  lemma {:induction false} DocumentWordsAreWords(nfc: Nfc, texts: seq<string>)
    ensures forall i :: 0 <= i < |DocumentWords(nfc, texts)| ==> IsWord(DocumentWords(nfc, texts)[i])
  {
    if texts != [] {
      SplitGivesWords("", NormalizeText(nfc, texts[0]));
      DocumentWordsAreWords(nfc, texts[1..]);
    }
  }

  /** Two documents have one canonical text exactly when they read the same,
      word for word. */
  lemma SameTextExactlyWhen(nfc: Nfc, a: seq<string>, b: seq<string>)
    ensures CanonicalDocumentText(nfc, a) == CanonicalDocumentText(nfc, b) <==> DocumentWords(nfc, a) == DocumentWords(nfc, b)
  {
    CanonicalIsItsWords(nfc, a);
    CanonicalIsItsWords(nfc, b);
    DocumentWordsAreWords(nfc, a);
    DocumentWordsAreWords(nfc, b);
    JoinThenSplit(' ', DocumentWords(nfc, a));
    JoinThenSplit(' ', DocumentWords(nfc, b));
  }

  // ---- splitting a block ----

  lemma Assoc(a: string, b: string, c: string)
    ensures a + (b + c) == (a + b) + c
  {
  }

  predicate StartsWithPair(s: string) {
    |s| > 1 && s[0] == '\r' && s[1] == '\n'
  }

  /** The two ways a text starts for the pair fold: a pair, or one character. */
  lemma FoldPairsHead(s: string)
    requires s != ""
    ensures FoldPairs(s) == if StartsWithPair(s) then "\n" + FoldPairs(s[2..]) else [s[0]] + FoldPairs(s[1..])
  {
  }

  lemma PairFirst(a: string, b: string)
    requires StartsWithPair(a)
    requires FoldPairs(a[2..] + b) == FoldPairs(a[2..]) + FoldPairs(b)
    ensures FoldPairs(a + b) == FoldPairs(a) + FoldPairs(b)
  {
    hide *;
    var both := a + b;
    LongerStartsWithPair(a, b);
    FoldPairsHead(a);
    FoldPairsHead(both);
    Assoc("\n", FoldPairs(a[2..]), FoldPairs(b));
  }

  lemma LongerStartsWithPair(a: string, b: string)
    requires StartsWithPair(a)
    ensures a != "" && |a| > 1 && StartsWithPair(a + b) && (a + b)[2..] == a[2..] + b
  {
  }

  lemma OneFirst(a: string, b: string)
    requires a != "" && !StartsWithPair(a) && !StartsWithPair(a + b)
    requires FoldPairs(a[1..] + b) == FoldPairs(a[1..]) + FoldPairs(b)
    ensures FoldPairs(a + b) == FoldPairs(a) + FoldPairs(b)
  {
    hide FoldPairs, StartsWithPair;
    var both := a + b;
    FoldPairsHead(a);
    FoldPairsHead(both);
    assert both[1..] == a[1..] + b && both[0] == a[0];
    Assoc([a[0]], FoldPairs(a[1..]), FoldPairs(b));
  }

  lemma {:induction false} FoldPairsConcat(a: string, b: string)
    requires a == "" || b == "" || a[|a| - 1] != '\r' || b[0] != '\n'
    ensures FoldPairs(a + b) == FoldPairs(a) + FoldPairs(b)
    decreases |a|
  {
    if a == "" {
      assert a + b == b;
    } else if b == "" {
      assert a + b == a;
    } else if StartsWithPair(a) {
      hide FoldPairs;
      FoldPairsConcat(a[2..], b);
      PairFirst(a, b);
    } else {
      hide FoldPairs;
      FoldPairsConcat(a[1..], b);
      OneFirst(a, b);
    }
  }

  lemma {:induction false} FoldReturnsConcat(a: string, b: string)
    ensures FoldReturns(a + b) == FoldReturns(a) + FoldReturns(b)
  {
    if a == "" {
      assert a + b == b;
    } else {
      assert (a + b)[1..] == a[1..] + b && (a + b)[0] == a[0];
      FoldReturnsConcat(a[1..], b);
      var head := [if a[0] == '\r' then '\n' else a[0]];
      assert FoldReturns(a + b) == head + FoldReturns(a[1..] + b) && FoldReturns(a) == head + FoldReturns(a[1..]);
      hide FoldReturns;
      Assoc(head, FoldReturns(a[1..]), FoldReturns(b));
    }
  }

  lemma {:induction false} DropControlsConcat(a: string, b: string)
    ensures DropControls(a + b) == DropControls(a) + DropControls(b)
  {
    if a == "" {
      assert a + b == b;
    } else {
      assert (a + b)[1..] == a[1..] + b && (a + b)[0] == a[0];
      DropControlsConcat(a[1..], b);
      var head := if a[0] < '\U{20}' && a[0] != '\t' && a[0] != '\n' then "" else [a[0]];
      assert DropControls(a + b) == head + DropControls(a[1..] + b) && DropControls(a) == head + DropControls(a[1..]);
      hide DropControls;
      Assoc(head, DropControls(a[1..]), DropControls(b));
    }
  }

  lemma FoldedConcat(a: string, b: string)
    requires a == "" || b == "" || a[|a| - 1] != '\r' || b[0] != '\n'
    ensures Folded(a + b) == Folded(a) + Folded(b)
  {
    FoldPairsConcat(a, b);
    FoldReturnsConcat(FoldPairs(a), FoldPairs(b));
    DropControlsConcat(FoldReturns(FoldPairs(a)), FoldReturns(FoldPairs(b)));
  }

  /** A control character that normalization drops. */
  predicate IsDropped(c: char) {
    c < ' ' && c != '\t' && c != '\n' && c != '\r'
  }

  /** White space at which a text can be split: all of it that is not dropped. */
  predicate IsSeparator(c: char) {
    IsSpace(c) && !IsDropped(c)
  }

  lemma FoldedOne(c: char)
    ensures Folded([c]) == if IsDropped(c) then "" else if c == '\r' then "\n" else [c]
  {
    var d := if c == '\r' then '\n' else c;
    assert [c][1..] == "" && [d][1..] == "";
    assert FoldPairs([c]) == [c];
    assert FoldReturns([c]) == [d] + FoldReturns("") == [d];
    assert DropControls([d]) == if IsDropped(c) then "" else [d];
  }

  lemma FoldedPair()
    ensures Folded("\r\n") == "\n"
  {
    assert "\r\n"[2..] == "" && "\n"[1..] == "";
    assert FoldPairs("\r\n") == "\n" && FoldReturns("\n") == "\n" && DropControls("\n") == "\n";
  }

  function TextWords(nfc: Nfc, text: string): seq<string> { Split(NormalizeText(nfc, text)) }

  lemma WordsAround(nfc: Nfc, x: string, c: char, y: string)
    requires KeepsBlanks(nfc) && IsBlank(c)
    ensures Split(nfc(x + [c] + y)) == Split(nfc(x)) + Split(nfc(y))
  {
    var d := nfc([c])[0];
    assert nfc([c]) == [d];
    WordsAtSpace("", nfc(x), d, nfc(y));
  }

  /** The words of a text are those before a separator and those after it. */
  lemma WordsAtSeparator(nfc: Nfc, a: string, c: char, b: string)
    requires KeepsBlanks(nfc) && IsSeparator(c)
    ensures TextWords(nfc, a + [c] + b) == TextWords(nfc, a) + TextWords(nfc, b)
  {
    hide TextWords, KeepsBlanks;
    if c == '\n' && a != "" && a[|a| - 1] == '\r' {
      PairAtBreak(nfc, a[..|a| - 1], b);
      assert a == a[..|a| - 1] + "\r" && a + [c] + b == a[..|a| - 1] + "\r\n" + b;
      BreakAtEnd(nfc, a[..|a| - 1]);
    } else if c == '\r' && b != "" && b[0] == '\n' {
      PairAtBreak(nfc, a, b[1..]);
      assert b == "\n" + b[1..] && a + [c] + b == a + "\r\n" + b[1..];
      BreakAtStart(nfc, b[1..]);
    } else {
      WordsAtOne(nfc, a, c, b);
    }
  }

  /** At a separator that is no part of a return and feed pair. */
  lemma WordsAtOne(nfc: Nfc, a: string, c: char, b: string)
    requires KeepsBlanks(nfc) && IsSeparator(c)
    requires !(c == '\n' && a != "" && a[|a| - 1] == '\r') && !(c == '\r' && b != "" && b[0] == '\n')
    ensures TextWords(nfc, a + [c] + b) == TextWords(nfc, a) + TextWords(nfc, b)
  {
    hide Folded, KeepsBlanks;
    FoldedOne(c);
    FoldedConcat(a, [c]);
    FoldedConcat(a + [c], b);
    WordsAround(nfc, Folded(a), if c == '\r' then '\n' else c, Folded(b));
  }

  lemma PairAtBreak(nfc: Nfc, a: string, b: string)
    requires KeepsBlanks(nfc)
    ensures TextWords(nfc, a + "\r\n" + b) == TextWords(nfc, a) + TextWords(nfc, b)
  {
    FoldedPair();
    FoldedConcat(a, "\r\n");
    FoldedConcat(a + "\r\n", b);
    hide Folded, KeepsBlanks;
    WordsAround(nfc, Folded(a), '\n', Folded(b));
  }

  lemma BreakAtEnd(nfc: Nfc, a: string)
    requires KeepsBlanks(nfc)
    ensures TextWords(nfc, a + "\r") == TextWords(nfc, a)
  {
    FoldedOne('\r');
    FoldedConcat(a, "\r");
    WordsAround(nfc, Folded(a), '\n', "");
    hide Folded;
    assert Folded(a) + "\n" == Folded(a) + ['\n'] + "";
  }

  lemma BreakAtStart(nfc: Nfc, b: string)
    requires KeepsBlanks(nfc)
    ensures TextWords(nfc, "\n" + b) == TextWords(nfc, b)
  {
    FoldedOne('\n');
    FoldedConcat("\n", b);
    WordsAround(nfc, "", '\n', Folded(b));
    hide Folded;
    assert "\n" + Folded(b) == "" + ['\n'] + Folded(b);
  }

  lemma {:induction false} DocumentWordsConcat(nfc: Nfc, a: seq<string>, b: seq<string>)
    ensures DocumentWords(nfc, a + b) == DocumentWords(nfc, a) + DocumentWords(nfc, b)
  {
    if a == [] {
      assert a + b == b;
    } else {
      assert (a + b)[1..] == a[1..] + b;
      DocumentWordsConcat(nfc, a[1..], b);
    }
  }

  /** One block split in two at a separator; read the other way, two blocks merged
      with one in between. */
  ghost predicate SplitAtSeparator(whole: seq<string>, parts: seq<string>) {
    exists pre: seq<string>, a: string, c: char, b: string, post: seq<string> ::
      IsSeparator(c) && whole == pre + [a + [c] + b] + post && parts == pre + [a, b] + post
  }

  lemma SplitKeepsWords(nfc: Nfc, whole: seq<string>, parts: seq<string>)
    requires KeepsBlanks(nfc) && SplitAtSeparator(whole, parts)
    ensures DocumentWords(nfc, whole) == DocumentWords(nfc, parts)
  {
    var pre: seq<string>, a: string, c: char, b: string, post: seq<string> :|
      IsSeparator(c) && whole == pre + [a + [c] + b] + post && parts == pre + [a, b] + post;
    WordsAtSeparator(nfc, a, c, b);
    DocumentWordsConcat(nfc, pre, [a + [c] + b]);
    DocumentWordsConcat(nfc, pre + [a + [c] + b], post);
    DocumentWordsConcat(nfc, pre, [a, b]);
    DocumentWordsConcat(nfc, pre + [a, b], post);
    assert [a, b][1..] == [b] && [a + [c] + b][1..] == [] && [b][1..] == [];
    assert DocumentWords(nfc, [b]) == TextWords(nfc, b);
    assert DocumentWords(nfc, [a, b]) == TextWords(nfc, a) + TextWords(nfc, b);
    assert DocumentWords(nfc, [a + [c] + b]) == TextWords(nfc, a + [c] + b);
  }

  /** Any series of such splits and merges. */
  ghost predicate Resegmented(versions: seq<seq<string>>) {
    versions != [] && forall i :: 0 <= i < |versions| - 1 ==>
      SplitAtSeparator(versions[i], versions[i + 1]) || SplitAtSeparator(versions[i + 1], versions[i])
  }

  lemma {:induction false} ResegmentingKeepsWords(nfc: Nfc, versions: seq<seq<string>>)
    requires KeepsBlanks(nfc) && Resegmented(versions)
    ensures DocumentWords(nfc, versions[0]) == DocumentWords(nfc, versions[|versions| - 1])
  {
    if |versions| > 1 {
      if SplitAtSeparator(versions[0], versions[0 + 1]) {
        SplitKeepsWords(nfc, versions[0], versions[1]);
      } else {
        SplitKeepsWords(nfc, versions[1], versions[0]);
      }
      assert forall i :: 0 <= i < |versions[1..]| ==> versions[1..][i] == versions[i + 1];
      ResegmentingKeepsWords(nfc, versions[1..]);
    }
  }

  lemma DroppedJoinsLetters(nfc: Nfc, c: char)
    requires (forall s :: nfc(s) == s) && IsDropped(c)
    ensures TextWords(nfc, "x" + [c] + "y") == ["xy"]
    ensures TextWords(nfc, "x") == ["x"] && TextWords(nfc, "y") == ["y"]
  {
    FoldedOne('x');
    FoldedOne('y');
    FoldedOne(c);
    FoldedConcat("x", [c]);
    FoldedConcat("x" + [c], "y");
    hide Folded;
    assert "x" + "" + "y" == "xy";
    assert "" + "xy" == "xy" && "" + "x" == "x" && "" + "y" == "y";
    WordsOfWord("", "xy");
    WordsOfWord("", "x");
    WordsOfWord("", "y");
  }

  lemma LetterIsAWord(nfc: Nfc, c: char)
    requires (forall s :: nfc(s) == s) && !IsDropped(c) && !IsSpace(c)
    ensures TextWords(nfc, "" + [c] + "") == [[c]] && TextWords(nfc, "") == []
  {
    FoldedOne(c);
    assert "" + [c] + "" == [c] && "" + [c] == [c];
    WordsOfWord("", [c]);
  }

  /** For texts that are already composed, splitting at a character is harmless
      in every text if and only if it is white space and not dropped. */
  lemma SeparatesExactlyWhen(nfc: Nfc, c: char)
    requires forall s :: nfc(s) == s
    ensures (forall a, b :: TextWords(nfc, a + [c] + b) == TextWords(nfc, a) + TextWords(nfc, b)) <==> IsSeparator(c)
  {
    if IsSeparator(c) {
      IdentityKeepsBlanks(nfc);
      forall a, b ensures TextWords(nfc, a + [c] + b) == TextWords(nfc, a) + TextWords(nfc, b) {
        WordsAtSeparator(nfc, a, c, b);
      }
    } else if IsDropped(c) {
      DroppedJoinsLetters(nfc, c);
      assert |["x"] + ["y"]| == 2;
      assert TextWords(nfc, "x" + [c] + "y") != TextWords(nfc, "x") + TextWords(nfc, "y");
    } else {
      LetterIsAWord(nfc, c);
      assert TextWords(nfc, "" + [c] + "") != TextWords(nfc, "") + TextWords(nfc, "");
    }
  }

  /** So not every white space is a place to split: a form feed is dropped, and
      the letters around it were one word. */
  lemma FormFeedIsNoSeparator(nfc: Nfc)
    requires forall s :: nfc(s) == s
    ensures IsSpace('\U{c}')
    ensures exists a, b :: TextWords(nfc, a + ['\U{c}'] + b) != TextWords(nfc, a) + TextWords(nfc, b)
  {
    SeparatesExactlyWhen(nfc, '\U{c}');
  }

  // ---- the kind of a diff ----

  datatype Kind = ContentChange | ParserChange | Mixed

  type Hash = string -> seq<bv8>

  function Classify(oldHash: seq<bv8>, newHash: seq<bv8>, fieldChanges: seq<string>, fromVersion: string, toVersion: string): Kind {
    if oldHash == newHash then
      if fromVersion == toVersion then (if fieldChanges != [] then ContentChange else ParserChange) else ParserChange
    else if fieldChanges != [] then Mixed else ContentChange
  }

  function DocumentTextHash(hash: Hash, nfc: Nfc, texts: seq<string>): seq<bv8> {
    hash(CanonicalDocumentText(nfc, texts))
  }

  /** Re-segmentation by another parser version is never a content change. */
  lemma ResegmentingIsParserChange(hash: Hash, nfc: Nfc, versions: seq<seq<string>>, fieldChanges: seq<string>, fromVersion: string, toVersion: string)
    requires KeepsBlanks(nfc) && Resegmented(versions) && fromVersion != toVersion
    ensures Classify(DocumentTextHash(hash, nfc, versions[0]), DocumentTextHash(hash, nfc, versions[|versions| - 1]),
                     fieldChanges, fromVersion, toVersion) == ParserChange
  {
    ResegmentingKeepsWords(nfc, versions);
    SameTextExactlyWhen(nfc, versions[0], versions[|versions| - 1]);
  }

  /** The kind of a diff, as long as the digests of the two texts do not collide:
      the same words are a parser change, unless one parser version read changed
      fields; other words are a content change, mixed when fields changed too. */
  lemma KindExactlyWhen(hash: Hash, nfc: Nfc, a: seq<string>, b: seq<string>, fieldChanges: seq<string>, fromVersion: string, toVersion: string)
    requires hash(CanonicalDocumentText(nfc, a)) == hash(CanonicalDocumentText(nfc, b)) ==> CanonicalDocumentText(nfc, a) == CanonicalDocumentText(nfc, b)
    ensures var kind := Classify(DocumentTextHash(hash, nfc, a), DocumentTextHash(hash, nfc, b), fieldChanges, fromVersion, toVersion);
      var same, edited := DocumentWords(nfc, a) == DocumentWords(nfc, b), fieldChanges != [];
      && (kind == ParserChange <==> same && !(edited && fromVersion == toVersion))
      && (kind == Mixed <==> !same && edited)
      && (kind == ContentChange <==> (!same && !edited) || (same && edited && fromVersion == toVersion))
  {
    SameTextExactlyWhen(nfc, a, b);
  }

  // ---- the blocks of a diff ----

  datatype Tag = Equal | Delete | Insert | Replace

  datatype Opcode = Opcode(tag: Tag, i1: nat, i2: nat, j1: nat, j2: nat)

  datatype Entry = Removed(was: nat) | Added(now: nat) | Changed(was: nat, now: nat)

  /** What the sequence matcher promises of its opcodes: they tile both sides. */
  ghost predicate Tiles(ops: seq<Opcode>, n: nat, m: nat) {
    if ops == [] then n == 0 && m == 0
    else
      var last := ops[|ops| - 1];
      && last.i1 <= last.i2 == n && last.j1 <= last.j2 == m
      && (last.tag == Delete ==> last.j1 == last.j2) && (last.tag == Insert ==> last.i1 == last.i2)
      && Tiles(ops[..|ops| - 1], last.i1, last.j1)
  }

  function Range(a: nat, b: nat): seq<nat> {
    if a >= b then [] else Range(a, b - 1) + [b - 1]
  }

  /** Old blocks outside the equal stretches, in order. */
  function OldOutside(ops: seq<Opcode>): seq<nat> {
    if ops == [] then []
    else OldOutside(ops[..|ops| - 1]) + var o := ops[|ops| - 1]; if o.tag == Equal then [] else Range(o.i1, o.i2)
  }

  function NewOutside(ops: seq<Opcode>): seq<nat> {
    if ops == [] then []
    else NewOutside(ops[..|ops| - 1]) + var o := ops[|ops| - 1]; if o.tag == Equal then [] else Range(o.j1, o.j2)
  }

  function OldsOf(entries: seq<Entry>): seq<nat> {
    if entries == [] then []
    else OldsOf(entries[..|entries| - 1]) + var e := entries[|entries| - 1]; if e.Added? then [] else [e.was]
  }

  function NewsOf(entries: seq<Entry>): seq<nat> {
    if entries == [] then []
    else NewsOf(entries[..|entries| - 1]) + var e := entries[|entries| - 1]; if e.Removed? then [] else [e.now]
  }

  lemma OneMoreEntry(entries: seq<Entry>, e: Entry)
    ensures OldsOf(entries + [e]) == OldsOf(entries) + if e.Added? then [] else [e.was]
    ensures NewsOf(entries + [e]) == NewsOf(entries) + if e.Removed? then [] else [e.now]
  {
    assert (entries + [e])[..|entries|] == entries;
  }

  lemma OneMoreOpcode(ops: seq<Opcode>, k: nat)
    requires k < |ops|
    ensures OldOutside(ops[..k + 1]) == OldOutside(ops[..k]) + if ops[k].tag == Equal then [] else Range(ops[k].i1, ops[k].i2)
    ensures NewOutside(ops[..k + 1]) == NewOutside(ops[..k]) + if ops[k].tag == Equal then [] else Range(ops[k].j1, ops[k].j2)
  {
    assert ops[..k + 1][..k] == ops[..k];
  }

  function Removals(a: nat, b: nat): seq<Entry> {
    if a >= b then [] else Removals(a, b - 1) + [Removed(b - 1)]
  }

  function Additions(a: nat, b: nat): seq<Entry> {
    if a >= b then [] else Additions(a, b - 1) + [Added(b - 1)]
  }

  lemma {:induction false} RemovalsCount(entries: seq<Entry>, a: nat, b: nat)
    ensures OldsOf(entries + Removals(a, b)) == OldsOf(entries) + Range(a, b)
    ensures NewsOf(entries + Removals(a, b)) == NewsOf(entries)
    ensures forall e :: e in Removals(a, b) ==> e.Removed?
  {
    if a < b {
      RemovalsCount(entries, a, b - 1);
      hide OldsOf, NewsOf;
      OneMoreEntry(entries + Removals(a, b - 1), Removed(b - 1));
      assert entries + Removals(a, b) == entries + Removals(a, b - 1) + [Removed(b - 1)];
    } else {
      assert entries + [] == entries;
    }
  }

  lemma {:induction false} AdditionsCount(entries: seq<Entry>, a: nat, b: nat)
    ensures OldsOf(entries + Additions(a, b)) == OldsOf(entries)
    ensures NewsOf(entries + Additions(a, b)) == NewsOf(entries) + Range(a, b)
    ensures forall e :: e in Additions(a, b) ==> e.Added?
  {
    if a < b {
      AdditionsCount(entries, a, b - 1);
      hide OldsOf, NewsOf;
      OneMoreEntry(entries + Additions(a, b - 1), Added(b - 1));
      assert entries + Additions(a, b) == entries + Additions(a, b - 1) + [Added(b - 1)];
    } else {
      assert entries + [] == entries;
    }
  }

  /** Blocks that stand at one offset of a replaced stretch. */
  predicate Opposite(op: Opcode, was: nat, now: nat) {
    op.tag == Replace && op.i1 <= was < op.i2 && op.j1 <= now < op.j2 && was - op.i1 == now - op.j1
  }

  /** Exactly the pairs at one offset of a replaced stretch that read alike are
      reported as one changed block. */
  ghost predicate PairsOf(ops: seq<Opcode>, alike: (nat, nat) -> bool, entries: seq<Entry>) {
    forall was: nat, now: nat :: Changed(was, now) in entries <==> alike(was, now) && SomeOpposite(ops, was, now)
  }

  ghost predicate SomeOpposite(ops: seq<Opcode>, was: nat, now: nat) {
    exists k :: 0 <= k < |ops| && Opposite(ops[k], was, now)
  }

  lemma OneMoreOpposite(ops: seq<Opcode>, k: nat, was: nat, now: nat)
    requires k < |ops|
    ensures SomeOpposite(ops[..k + 1], was, now) <==> SomeOpposite(ops[..k], was, now) || Opposite(ops[k], was, now)
  {
    hide Opposite;
    if SomeOpposite(ops[..k], was, now) {
      var i :| 0 <= i < k && Opposite(ops[..k][i], was, now);
      assert ops[..k + 1][i] == ops[..k][i];
    }
    if Opposite(ops[k], was, now) { assert Opposite(ops[..k + 1][k], was, now); }
  }

  lemma OneMorePaired(ops: seq<Opcode>, k: nat, alike: (nat, nat) -> bool, before: seq<Entry>, after: seq<Entry>)
    requires k < |ops| && PairsOf(ops[..k], alike, before)
    requires forall was: nat, now: nat :: Changed(was, now) in after <==>
      Changed(was, now) in before || (alike(was, now) && Opposite(ops[k], was, now))
    ensures PairsOf(ops[..k + 1], alike, after)
  {
    hide Opposite, SomeOpposite;
    forall was: nat, now: nat ensures Changed(was, now) in after <==> alike(was, now) && SomeOpposite(ops[..k + 1], was, now) {
      OneMoreOpposite(ops, k, was, now);
    }
  }

  /** The changed blocks: `alike` says which replaced pairs read as one edited
      block. Whatever it says, each block outside the equal stretches is in
      exactly one entry, both sides keep their order, and the pairs joined are
      exactly those alike at one offset of a replaced stretch. */
  method ChangedBlocks(ops: seq<Opcode>, n: nat, m: nat, alike: (nat, nat) -> bool) returns (changed: seq<Entry>)
    requires Tiles(ops, n, m)
    ensures OldsOf(changed) == OldOutside(ops) && NewsOf(changed) == NewOutside(ops)
    ensures PairsOf(ops, alike, changed)
  {
    changed := [];
    for k := 0 to |ops|
      invariant OldsOf(changed) == OldOutside(ops[..k]) && NewsOf(changed) == NewOutside(ops[..k])
      invariant PairsOf(ops[..k], alike, changed)
    {
      hide OldsOf, NewsOf, OldOutside, NewOutside, Tiles, Removals, Additions, Range, PairsOf;
      var op := ops[k];
      ghost var before := changed;
      TileAt(ops, n, m, k);
      OneMoreOpcode(ops, k);
      if op.tag == Equal {
        OneMorePaired(ops, k, alike, before, changed);
        continue;
      }
      if op.tag == Delete {
        RemovalsCount(changed, op.i1, op.i2);
        changed := changed + Removals(op.i1, op.i2);
      } else if op.tag == Insert {
        AdditionsCount(changed, op.j1, op.j2);
        changed := changed + Additions(op.j1, op.j2);
      } else {
        changed := ReplacedBlocks(changed, op, alike);
      }
      OneMorePaired(ops, k, alike, before, changed);
    }
    assert ops[..|ops|] == ops;
  }

  lemma {:induction false} TileAt(ops: seq<Opcode>, n: nat, m: nat, k: nat)
    requires Tiles(ops, n, m) && k < |ops|
    ensures ops[k].i1 <= ops[k].i2 && ops[k].j1 <= ops[k].j2
    ensures (ops[k].tag == Delete ==> ops[k].j1 == ops[k].j2) && (ops[k].tag == Insert ==> ops[k].i1 == ops[k].i2)
  {
    var last := ops[|ops| - 1];
    if k < |ops| - 1 { TileAt(ops[..|ops| - 1], last.i1, last.j1, k); }
  }

  method ReplacedBlocks(before: seq<Entry>, op: Opcode, alike: (nat, nat) -> bool) returns (changed: seq<Entry>)
    requires op.i1 <= op.i2 && op.j1 <= op.j2 && op.tag == Replace
    ensures OldsOf(changed) == OldsOf(before) + Range(op.i1, op.i2)
    ensures NewsOf(changed) == NewsOf(before) + Range(op.j1, op.j2)
    ensures forall was: nat, now: nat :: Changed(was, now) in changed <==>
      Changed(was, now) in before || (alike(was, now) && Opposite(op, was, now))
  {
    hide OldsOf, NewsOf;
    changed := before;
    var olds, news := op.i2 - op.i1, op.j2 - op.j1;
    for offset := 0 to if olds >= news then olds else news
      invariant OldsOf(changed) == OldsOf(before) + Range(op.i1, op.i1 + Min(offset, olds))
      invariant NewsOf(changed) == NewsOf(before) + Range(op.j1, op.j1 + Min(offset, news))
      invariant forall was: nat, now: nat :: Changed(was, now) in changed <==>
        Changed(was, now) in before || (alike(was, now) && Opposite(op, was, now) && was < op.i1 + offset)
    {
      if offset < olds && offset < news && alike(op.i1 + offset, op.j1 + offset) {
        OneMoreEntry(changed, Changed(op.i1 + offset, op.j1 + offset));
        changed := changed + [Changed(op.i1 + offset, op.j1 + offset)];
        continue;
      }
      if offset < olds {
        OneMoreEntry(changed, Removed(op.i1 + offset));
        changed := changed + [Removed(op.i1 + offset)];
      }
      if offset < news {
        OneMoreEntry(changed, Added(op.j1 + offset));
        changed := changed + [Added(op.j1 + offset)];
      }
    }
  }
}
