/** Whitespace, words and joins over strings of code points. */
module Words {

  /** What `str.split()` and `str.strip()` take for whitespace. */
  predicate IsSpace(c: char) {
    || '\U{9}' <= c <= '\U{d}'
    || '\U{1c}' <= c <= '\U{20}'
    || c == '\U{85}' || c == '\U{a0}' || c == '\U{1680}'
    || '\U{2000}' <= c <= '\U{200a}'
    || c == '\U{2028}' || c == '\U{2029}' || c == '\U{202f}' || c == '\U{205f}' || c == '\U{3000}'
  }

  predicate SpaceFree(s: string) {
    forall i :: 0 <= i < |s| ==> !IsSpace(s[i])
  }

  predicate StartsInSpace(s: string) { s != "" && IsSpace(s[0]) }

  predicate EndsInSpace(s: string) { s != "" && IsSpace(s[|s| - 1]) }

  predicate IsWord(s: string) {
    s != "" && SpaceFree(s)
  }

  function Ended(cur: string): seq<string> {
    if cur == "" then [] else [cur]
  }

  /** The words of `cur + s`, where `cur` is the space-free text just read. */
  function WordsFrom(cur: string, s: string): seq<string>
    decreases |s|
  {
    if s == "" then Ended(cur)
    else if IsSpace(s[0]) then Ended(cur) + WordsFrom("", s[1..])
    else WordsFrom(cur + [s[0]], s[1..])
  }

  /** `s.split()` */
  function Split(s: string): seq<string> {
    WordsFrom("", s)
  }

  predicate OccursAt(s: string, i: int, m: string) {
    0 <= i <= |s| - |m| && s[i..i + |m|] == m
  }

  function Flatten<T>(ss: seq<seq<T>>): seq<T> {
    if ss == [] then [] else ss[0] + Flatten(ss[1..])
  }

  function SplitAll(pieces: seq<string>): seq<string> {
    if pieces == [] then [] else Split(pieces[0]) + SplitAll(pieces[1..])
  }

  /** `sep.join(pieces)` for a one-character separator. */
  function Join(sep: char, pieces: seq<string>): string {
    if pieces == [] then ""
    else if |pieces| == 1 then pieces[0]
    else pieces[0] + [sep] + Join(sep, pieces[1..])
  }

  lemma {:induction false} WordsAtSpace(cur: string, a: string, c: char, b: string)
    requires IsSpace(c)
    ensures WordsFrom(cur, a + [c] + b) == WordsFrom(cur, a) + Split(b)
    decreases |a|
  {
    var s := a + [c] + b;
    if a == "" {
      assert s[0] == c && s[1..] == b;
    } else {
      assert s[0] == a[0] && s[1..] == a[1..] + [c] + b;
      if IsSpace(a[0]) {
        WordsAtSpace("", a[1..], c, b);
        assert Ended(cur) + (WordsFrom("", a[1..]) + Split(b)) == Ended(cur) + WordsFrom("", a[1..]) + Split(b);
      } else {
        WordsAtSpace(cur + [a[0]], a[1..], c, b);
      }
    }
  }

  lemma {:induction false} WordsOfWord(cur: string, w: string)
    requires SpaceFree(w)
    ensures WordsFrom(cur, w) == Ended(cur + w)
    decreases |w|
  {
    if w == "" {
      assert cur + w == cur;
    } else {
      assert cur + [w[0]] + w[1..] == cur + w;
      WordsOfWord(cur + [w[0]], w[1..]);
    }
  }

  /** Joining at a whitespace character keeps every word, in order. */
  lemma {:induction false} WordsOfJoin(sep: char, pieces: seq<string>)
    requires IsSpace(sep)
    ensures Split(Join(sep, pieces)) == SplitAll(pieces)
  {
    if |pieces| == 1 {
      assert SplitAll(pieces) == Split(pieces[0]) + [];
    } else if |pieces| > 1 {
      WordsAtSpace("", pieces[0], sep, Join(sep, pieces[1..]));
      WordsOfJoin(sep, pieces[1..]);
    }
  }

  lemma {:induction false} SplitAllOfWords(ws: seq<string>)
    requires forall i :: 0 <= i < |ws| ==> IsWord(ws[i])
    ensures SplitAll(ws) == ws
  {
    if ws != [] {
      WordsOfWord("", ws[0]);
      assert "" + ws[0] == ws[0];
      SplitAllOfWords(ws[1..]);
      assert ws == [ws[0]] + ws[1..];
    }
  }

  /** Splitting a space-joined list of words gives the list back. */
  lemma JoinThenSplit(sep: char, ws: seq<string>)
    requires IsSpace(sep) && forall i :: 0 <= i < |ws| ==> IsWord(ws[i])
    ensures Split(Join(sep, ws)) == ws
  {
    WordsOfJoin(sep, ws);
    SplitAllOfWords(ws);
  }

  lemma {:induction false} SplitGivesWords(cur: string, s: string)
    requires SpaceFree(cur)
    ensures forall i :: 0 <= i < |WordsFrom(cur, s)| ==> IsWord(WordsFrom(cur, s)[i])
    decreases |s|
  {
    if s != "" {
      if IsSpace(s[0]) { SplitGivesWords("", s[1..]); } else { SplitGivesWords(cur + [s[0]], s[1..]); }
    }
  }

  lemma {:induction false} SplitAllConcat(a: seq<string>, b: seq<string>)
    ensures SplitAll(a + b) == SplitAll(a) + SplitAll(b)
  {
    hide Split;
    if a == [] {
      assert a + b == b;
    } else {
      SplitAllConcat(a[1..], b);
      assert (a + b)[1..] == a[1..] + b;
      assert SplitAll(a + b) == Split(a[0]) + SplitAll(a[1..] + b);
    }
  }

  // ---- strip ----

  function LStrip(s: string): string {
    if s != "" && IsSpace(s[0]) then LStrip(s[1..]) else s
  }

  function RStrip(s: string): string {
    if s != "" && IsSpace(s[|s| - 1]) then RStrip(s[..|s| - 1]) else s
  }

  /** `s.strip()` */
  function Strip(s: string): string {
    RStrip(LStrip(s))
  }

  lemma {:induction false} LStripIsShorter(s: string)
    ensures |LStrip(s)| <= |s|
  {
    if s != "" && IsSpace(s[0]) { LStripIsShorter(s[1..]); }
  }

  lemma {:induction false} WordsOfLStrip(s: string)
    ensures Split(LStrip(s)) == Split(s)
    ensures LStrip(s) != "" ==> !IsSpace(LStrip(s)[0])
  {
    if s != "" && IsSpace(s[0]) { WordsOfLStrip(s[1..]); }
  }

  lemma {:induction false} WordsOfRStrip(s: string)
    ensures Split(RStrip(s)) == Split(s)
    ensures RStrip(s) <= s
    ensures RStrip(s) != "" ==> !IsSpace(RStrip(s)[|RStrip(s)| - 1])
  {
    if s != "" && IsSpace(s[|s| - 1]) {
      var init := s[..|s| - 1];
      WordsOfRStrip(init);
      WordsAtSpace("", init, s[|s| - 1], "");
      assert init + [s[|s| - 1]] + "" == s;
    }
  }

  /** Stripping loses no word, and leaves no space at either end. */
  lemma WordsOfStrip(s: string)
    ensures Split(Strip(s)) == Split(s)
    ensures Strip(s) != "" ==> !IsSpace(Strip(s)[0]) && !IsSpace(Strip(s)[|Strip(s)| - 1])
  {
    WordsOfLStrip(s);
    WordsOfRStrip(LStrip(s));
  }

  lemma {:induction false} NoWordsIsBlank(cur: string, s: string)
    ensures WordsFrom(cur, s) == [] <==> cur == "" && forall i :: 0 <= i < |s| ==> IsSpace(s[i])
    decreases |s|
  {
    if s != "" {
      if IsSpace(s[0]) {
        NoWordsIsBlank("", s[1..]);
        if forall i :: 0 <= i < |s[1..]| ==> IsSpace(s[1..][i]) {
          forall i | 0 <= i < |s| ensures IsSpace(s[i]) { if i > 0 { assert s[i] == s[1..][i - 1]; } }
        } else {
          var i :| 0 <= i < |s[1..]| && !IsSpace(s[1..][i]);
          assert !IsSpace(s[i + 1]);
        }
      } else {
        NoWordsIsBlank(cur + [s[0]], s[1..]);
      }
    }
  }

  /** A text is blank (strips to nothing) exactly when it has no words. */
  lemma BlankHasNoWords(s: string)
    ensures Strip(s) == "" <==> Split(s) == []
  {
    WordsOfStrip(s);
    NoWordsIsBlank("", Strip(s));
  }

  // ---- words one space apart ----

  predicate SingleSpaced(s: string) {
    forall i :: 0 <= i < |s| && IsSpace(s[i]) ==> s[i] == ' ' && (i + 1 < |s| ==> !IsSpace(s[i + 1]))
  }

  /** Where the first word ends. */
  function FirstEnd(s: string): nat {
    if s == "" || IsSpace(s[0]) then 0 else 1 + FirstEnd(s[1..])
  }

  lemma {:induction false} FirstEndIsFirst(s: string)
    ensures FirstEnd(s) <= |s| && SpaceFree(s[..FirstEnd(s)])
    ensures FirstEnd(s) < |s| ==> IsSpace(s[FirstEnd(s)])
  {
    if s != "" && !IsSpace(s[0]) {
      FirstEndIsFirst(s[1..]);
      var n := FirstEnd(s);
      forall i | 0 <= i < n ensures !IsSpace(s[..n][i]) {
        if i > 0 { assert s[1..][..n - 1][i - 1] == s[i]; }
      }
    }
  }

  /** Words one space apart, and none at the ends, are their own join. */
  lemma {:induction false} SpacedIsJoin(s: string)
    requires SingleSpaced(s)
    requires s != "" ==> !IsSpace(s[0]) && !IsSpace(s[|s| - 1])
    ensures s == Join(' ', Split(s))
    decreases |s|
  {
    if s != "" {
      FirstEndIsFirst(s);
      var n := FirstEnd(s);
      var word := s[..n];
      if n == |s| {
        assert word == s && "" + word == word;
        WordsOfWord("", word);
      } else {
        var rest := s[n + 1..];
        RestIsSpaced(s, n);
        FirstWord(word, s[n], rest);
        hide WordsFrom, FirstEnd, IsSpace, SingleSpaced, Join;
        SpacedIsJoin(rest);
        SomeWord(rest);
        JoinAfter(word, Split(rest));
      }
    }
  }

  lemma RestIsSpaced(s: string, n: nat)
    requires SingleSpaced(s) && 0 < n < |s| && IsSpace(s[n]) && !IsSpace(s[|s| - 1])
    ensures n < |s| - 1 && s[n] == ' ' && s == s[..n] + [' '] + s[n + 1..]
    ensures var rest := s[n + 1..]; rest != "" && SingleSpaced(rest) && !IsSpace(rest[0]) && !IsSpace(rest[|rest| - 1])
  {
    hide IsSpace;
    var rest := s[n + 1..];
    assert !IsSpace(s[n + 1]) && s[n + 1] == rest[0];
    assert s[|s| - 1] == rest[|rest| - 1];
    assert forall i :: 0 <= i < |rest| ==> rest[i] == s[n + 1 + i];
  }

  lemma FirstWord(word: string, c: char, rest: string)
    requires IsWord(word) && IsSpace(c)
    ensures Split(word + [c] + rest) == [word] + Split(rest)
  {
    WordsAtSpace("", word, c, rest);
    WordsOfWord("", word);
    assert "" + word == word;
  }

  lemma JoinAfter(word: string, more: seq<string>)
    requires more != []
    ensures Join(' ', [word] + more) == word + [' '] + Join(' ', more)
  {
    assert ([word] + more)[1..] == more;
  }

  lemma SomeWord(s: string)
    requires s != "" && !IsSpace(s[0])
    ensures Split(s) != []
  {
    NoWordsIsBlank("", s);
  }
}
