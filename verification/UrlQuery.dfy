/** Query strings: the filter that deletes tracking parameters. */
module UrlQuery {
  import opened Options
  import opened Words

  /** What is taken from the language's library: lower-casing of a character,
      percent-decoding, integer parsing, and the checks on an address in
      brackets and on an authority. */
  datatype Library = Library(
    lower: char -> char,
    unquote: string -> string,
    parseInt: string -> Option<int>,
    addressOk: string -> bool,
    authorityOk: string -> bool)

  function Lower(lib: Library, s: string): (t: string)
    ensures |t| == |s| && forall i :: 0 <= i < |s| ==> t[i] == lib.lower(s[i])
  {
    seq(|s|, i requires 0 <= i < |s| => lib.lower(s[i]))
  }

  /** First position of a character, or the length. */
  function IndexOf(s: string, c: char): (i: nat)
    ensures i <= |s| && (i < |s| ==> s[i] == c) && forall j :: 0 <= j < i ==> s[j] != c
  {
    if s == "" || s[0] == c then 0 else 1 + IndexOf(s[1..], c)
  }

  /** `s.split(c)`: one piece more than separators. */
  function SplitOn(s: string, c: char): (pieces: seq<string>)
    ensures pieces != []
  {
    if s == "" then [""]
    else
      var rest := SplitOn(s[1..], c);
      if s[0] == c then [""] + rest else [[s[0]] + rest[0]] + rest[1..]
  }

  lemma {:induction false} SplitPiecesAreFree(s: string, c: char)
    ensures forall p :: p in SplitOn(s, c) ==> c !in p
  {
    if s != "" {
      SplitPiecesAreFree(s[1..], c);
      var rest := SplitOn(s[1..], c);
      assert rest[0] in rest && forall p :: p in rest[1..] ==> p in rest;
    }
  }

  lemma {:induction false} SplitOfPiece(p: string, c: char, rest: string)
    requires c !in p
    ensures SplitOn(p, c) == [p]
    ensures SplitOn(p + [c] + rest, c) == [p] + SplitOn(rest, c)
  {
    if p == "" {
      assert p + [c] + rest == [c] + rest;
      assert ([c] + rest)[1..] == rest;
    } else {
      SplitOfPiece(p[1..], c, rest);
      assert (p + [c] + rest)[1..] == p[1..] + [c] + rest;
      assert (p + [c] + rest)[0] == p[0] && p[0] != c;
      assert [p[0]] + p[1..] == p;
    }
  }

  lemma {:induction false} SplitOfJoin(pieces: seq<string>, c: char)
    requires pieces != [] && forall p :: p in pieces ==> c !in p
    ensures SplitOn(Join(c, pieces), c) == pieces
  {
    var first := pieces[0];
    assert first in pieces;
    if |pieces| == 1 {
      SplitOfPiece(first, c, "");
      assert pieces == [first];
    } else {
      SplitOfPiece(first, c, Join(c, pieces[1..]));
      SplitOfJoin(pieces[1..], c);
    }
  }

  // ---- the filter ----

  function TrackingParams(): set<string> {
    {"fbclid", "gclid", "msclkid", "twclid", "igshid", "yclid", "mc_cid", "mc_eid", "_ga", "_gl"}
  }

  predicate IsTrackingParam(lib: Library, name: string) {
    var lowered := Lower(lib, name);
    lowered in TrackingParams() || "utm_" <= lowered
  }

  function KeyOf(segment: string): string {
    segment[..IndexOf(segment, '=')]
  }

  predicate Keeps(lib: Library, segment: string) {
    segment != "" && !IsTrackingParam(lib, lib.unquote(KeyOf(segment)))
  }

  function Kept(lib: Library, segments: seq<string>): seq<string> {
    if segments == [] then []
    else Kept(lib, segments[..|segments| - 1]) + var last := segments[|segments| - 1]; if Keeps(lib, last) then [last] else []
  }

  function Filtered(lib: Library, query: string): string {
    Join('&', Kept(lib, SplitOn(query, '&')))
  }

  method FilterQuery(lib: Library, query: string) returns (filtered: string)
    ensures filtered == Filtered(lib, query)
  {
    if query == "" {
      FilterOfNothing(lib);
      return "";
    }
    var kept: seq<string> := [];
    var segments := SplitOn(query, '&');
    for i := 0 to |segments|
      invariant kept == Kept(lib, segments[..i])
    {
      assert segments[..i + 1][..i] == segments[..i];
      var segment := segments[i];
      if segment == "" {
        continue;
      }
      if IsTrackingParam(lib, lib.unquote(KeyOf(segment))) {
        continue;
      }
      kept := kept + [segment];
    }
    assert segments[..|segments|] == segments;
    filtered := Join('&', kept);
  }

  lemma {:induction false} KeptAreKept(lib: Library, segments: seq<string>)
    ensures forall p :: p in Kept(lib, segments) <==> p in segments && Keeps(lib, p)
    ensures (forall p :: p in segments ==> Keeps(lib, p)) ==> Kept(lib, segments) == segments
    ensures |Kept(lib, segments)| <= |segments|
  {
    if segments != [] {
      var init, last := segments[..|segments| - 1], segments[|segments| - 1];
      assert segments == init + [last];
      KeptAreKept(lib, init);
      hide Keeps;
    }
  }

  /** The filter deletes segment by segment: what it keeps of a query is what it
      keeps of its parts, in order. */
  lemma {:induction false} KeptOfParts(lib: Library, a: seq<string>, b: seq<string>)
    ensures Kept(lib, a + b) == Kept(lib, a) + Kept(lib, b)
  {
    hide Keeps;
    if b == [] {
      assert a + b == a;
    } else {
      assert (a + b)[..|a + b| - 1] == a + b[..|b| - 1];
      KeptOfParts(lib, a, b[..|b| - 1]);
    }
  }

  /** Segments of the result: the segments of the query that are neither empty
      nor tracking, in their order, and no others. */
  lemma FilterDeletesOnlyTracking(lib: Library, query: string)
    ensures var segments := SplitOn(query, '&');
            && (Filtered(lib, query) == "" <==> forall p :: p in segments ==> !Keeps(lib, p))
            && (Filtered(lib, query) != "" ==> SplitOn(Filtered(lib, query), '&') == Kept(lib, segments))
  {
    var segments := SplitOn(query, '&');
    var kept := Kept(lib, segments);
    SplitPiecesAreFree(query, '&');
    KeptAreKept(lib, segments);
    if kept != [] {
      SplitOfJoin(kept, '&');
      assert kept[0] in kept && kept[0] != "";
      assert Join('&', kept) != "";
    } else {
      forall p | p in segments ensures !Keeps(lib, p) { assert p !in kept; }
    }
  }

  // ---- which segments go, told of their names ----

  /** The names of tracking parameters, in any case and percent-encoded or not. */
  ghost predicate Tracks(lib: Library, name: string) {
    var lowered := Lower(lib, lib.unquote(name));
    || lowered in {"fbclid", "gclid", "msclkid", "twclid", "igshid", "yclid", "mc_cid", "mc_eid", "_ga", "_gl"}
    || "utm_" <= lowered
  }

  function Segment(name: string, value: Option<string>): string {
    name + if value.Some? then "=" + value.value else ""
  }

  lemma KeyOfSegment(name: string, value: Option<string>)
    requires '=' !in name
    ensures KeyOf(Segment(name, value)) == name
  {
    var segment := Segment(name, value);
    var i := IndexOf(segment, '=');
    assert forall j :: 0 <= j < |name| ==> segment[j] == name[j] && name[j] in name;
    if value.Some? { assert segment[|name|] == '='; }
    assert i == |name|;
  }

  /** Every segment is a name free of `=`, with or without a value. */
  lemma NameOfSegment(segment: string) returns (name: string, value: Option<string>)
    ensures '=' !in name && segment == Segment(name, value)
  {
    var i := IndexOf(segment, '=');
    name := segment[..i];
    value := if i < |segment| then Some(segment[i + 1..]) else None;
  }

  /** A segment that is not empty is in the result if and only if it is in the
      query and its name is not that of a tracking parameter. */
  lemma FilteredHasExactly(lib: Library, query: string, name: string, value: Option<string>)
    requires '=' !in name && Segment(name, value) != ""
    ensures var segment := Segment(name, value);
      segment in SplitOn(Filtered(lib, query), '&') <==> segment in SplitOn(query, '&') && !Tracks(lib, name)
  {
    hide *;
    KeptByName(lib, name, value);
    SegmentStays(lib, query, Segment(name, value));
  }

  lemma KeptByName(lib: Library, name: string, value: Option<string>)
    requires '=' !in name && Segment(name, value) != ""
    ensures Keeps(lib, Segment(name, value)) <==> !Tracks(lib, name)
  {
    hide Segment, Tracks, IsTrackingParam, KeyOf;
    KeyOfSegment(name, value);
    TrackingMeans(lib, name);
  }

  lemma TrackingMeans(lib: Library, name: string)
    ensures Tracks(lib, name) <==> IsTrackingParam(lib, lib.unquote(name))
  {
    hide Lower;
    var listed: set<string> := {"fbclid", "gclid", "msclkid", "twclid", "igshid", "yclid", "mc_cid", "mc_eid", "_ga", "_gl"};
    assert TrackingParams() == listed;
  }

  lemma SegmentStays(lib: Library, query: string, segment: string)
    requires segment != ""
    ensures segment in SplitOn(Filtered(lib, query), '&') <==> segment in SplitOn(query, '&') && Keeps(lib, segment)
  {
    hide Keeps, Filtered, SplitOn;
    FilterDeletesOnlyTracking(lib, query);
    KeptAreKept(lib, SplitOn(query, '&'));
    SplitOfPiece("", '&', "");
  }

  /** No segment of the result is empty, unless the result itself is. */
  lemma FilteredHasNoBlank(lib: Library, query: string)
    ensures "" in SplitOn(Filtered(lib, query), '&') ==> Filtered(lib, query) == ""
  {
    FilterDeletesOnlyTracking(lib, query);
    KeptAreKept(lib, SplitOn(query, '&'));
  }

  lemma FilterIsIdempotent(lib: Library, query: string)
    ensures Filtered(lib, Filtered(lib, query)) == Filtered(lib, query)
  {
    var once := Filtered(lib, query);
    FilterDeletesOnlyTracking(lib, query);
    KeptAreKept(lib, SplitOn(query, '&'));
    if once == "" {
      FilterOfNothing(lib);
    } else {
      KeptAreKept(lib, SplitOn(once, '&'));
    }
  }

  lemma FilterOfNothing(lib: Library)
    ensures Filtered(lib, "") == ""
  {
    var one: seq<string> := [""];
    assert SplitOn("", '&') == one && one[..|one| - 1] == [];
    assert !Keeps(lib, one[0]);
    assert Kept(lib, one) == Kept(lib, []) + [];
  }

  function Length(pieces: seq<string>): nat {
    if pieces == [] then 0 else Length(pieces[..|pieces| - 1]) + |pieces[|pieces| - 1]| + 1
  }

  lemma {:induction false} KeptIsShorter(lib: Library, segments: seq<string>)
    ensures Length(Kept(lib, segments)) <= Length(segments)
  {
    hide Keeps;
    if segments != [] {
      var init, last := segments[..|segments| - 1], segments[|segments| - 1];
      KeptIsShorter(lib, init);
      if Keeps(lib, last) {
        var kept := Kept(lib, init) + [last];
        assert kept == Kept(lib, segments) && kept[..|kept| - 1] == Kept(lib, init);
      } else {
        assert Kept(lib, segments) == Kept(lib, init) + [] == Kept(lib, init);
      }
    }
  }

  lemma {:induction false} LengthOfFront(pieces: seq<string>)
    requires pieces != []
    ensures Length(pieces) == |pieces[0]| + 1 + Length(pieces[1..])
  {
    if |pieces| > 1 {
      var init := pieces[..|pieces| - 1];
      LengthOfFront(init);
      assert init[1..] == pieces[1..][..|pieces| - 2];
    } else {
      assert pieces[..0] == [] && pieces[1..] == [];
    }
  }

  lemma {:induction false} JoinLength(c: char, pieces: seq<string>)
    requires pieces != []
    ensures |Join(c, pieces)| + 1 == Length(pieces)
  {
    LengthOfFront(pieces);
    if |pieces| > 1 { JoinLength(c, pieces[1..]); } else { assert pieces[1..] == []; }
  }

  lemma {:induction false} SplitLength(s: string, c: char)
    ensures Length(SplitOn(s, c)) == |s| + 1
  {
    var pieces := SplitOn(s, c);
    LengthOfFront(pieces);
    if s != "" {
      SplitLength(s[1..], c);
      LengthOfFront(SplitOn(s[1..], c));
      assert pieces[1..] == if s[0] == c then SplitOn(s[1..], c) else SplitOn(s[1..], c)[1..];
    } else {
      assert pieces[1..] == [];
    }
  }

  lemma FilterIsShorter(lib: Library, query: string)
    ensures |Filtered(lib, query)| <= |query|
  {
    var segments := SplitOn(query, '&');
    SplitLength(query, '&');
    KeptIsShorter(lib, segments);
    if Kept(lib, segments) != [] { JoinLength('&', Kept(lib, segments)); }
  }

  /** The result is made of characters of the query. */
  lemma {:induction false} JoinHasPieces(c: char, pieces: seq<string>, x: char)
    requires x in Join(c, pieces)
    ensures (x == c && |pieces| > 1) || exists p :: p in pieces && x in p
  {
    if |pieces| > 1 {
      assert pieces[0] in pieces && forall p :: p in pieces[1..] ==> p in pieces;
      if x !in pieces[0] && x != c { JoinHasPieces(c, pieces[1..], x); }
    } else if |pieces| == 1 {
      assert pieces[0] in pieces;
    }
  }

  lemma {:induction false} SplitHasOnly(s: string, c: char)
    ensures forall p, x :: p in SplitOn(s, c) && x in p ==> x in s
    ensures |SplitOn(s, c)| > 1 ==> c in s
  {
    if s != "" {
      SplitHasOnly(s[1..], c);
      var rest := SplitOn(s[1..], c);
      assert rest[0] in rest && forall p :: p in rest[1..] ==> p in rest;
      assert forall x :: x in s <==> x == s[0] || x in s[1..];
    }
  }

  lemma FilterAddsNothing(lib: Library, query: string)
    ensures forall x :: x in Filtered(lib, query) ==> x in query
  {
    var segments := SplitOn(query, '&');
    SplitHasOnly(query, '&');
    KeptAreKept(lib, segments);
    forall x | x in Filtered(lib, query) ensures x in query {
      JoinHasPieces('&', Kept(lib, segments), x);
    }
  }
}
