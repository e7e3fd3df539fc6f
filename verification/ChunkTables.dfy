/** Splitting one table text into row groups that repeat its header line. */
module ChunkTables {
  import opened Integers
  import opened Words
  import opened ChunkWindows

  /** The line boundaries of `str.splitlines()`. */
  predicate IsLineBoundary(c: char) {
    '\U{a}' <= c <= '\U{d}' || '\U{1c}' <= c <= '\U{1e}' || c == '\U{85}' || c == '\U{2028}' || c == '\U{2029}'
  }

  function LinesFrom(cur: string, s: string): seq<string>
    decreases |s|
  {
    if s == "" then Ended(cur)
    else if s[0] == '\r' && |s| > 1 && s[1] == '\n' then [cur] + LinesFrom("", s[2..])
    else if IsLineBoundary(s[0]) then [cur] + LinesFrom("", s[1..])
    else LinesFrom(cur + [s[0]], s[1..])
  }

  function SplitLines(s: string): seq<string> {
    LinesFrom("", s)
  }

  function NonBlank(lines: seq<string>): seq<string> {
    if lines == [] then []
    else (if Strip(lines[0]) == "" then [] else [lines[0]]) + NonBlank(lines[1..])
  }

  function RowCost(rows: seq<string>): nat {
    if rows == [] then 0 else Max(RowCost(rows[..|rows| - 1]), Estimate(rows[|rows| - 1]))
  }

  /** How many rows a group takes: what the target leaves beside the header,
      each row at the price of the dearest. */
  function RowsFor(headerCost: nat, rowCost: nat): nat {
    Max(1, (TARGET_TOKENS - (headerCost + 1)) / Max(1, rowCost))
  }

  function GroupRows(header: string, body: seq<string>): nat {
    RowsFor(Estimate(header), RowCost(body))
  }

  function Body(lines: seq<string>): seq<string>
    requires lines != []
  {
    if lines[1..] == [] then lines else lines[1..]
  }

  function Group(body: seq<string>, rows: nat, k: nat): seq<string> {
    body[Min(k * rows, |body|)..Min(k * rows + rows, |body|)]
  }

  function Groups(body: seq<string>, rows: nat, k: nat): seq<seq<string>> {
    seq(k, i requires 0 <= i < k => Group(body, rows, i))
  }

  function GroupUnit(blockId: string, header: string, body: seq<string>, rows: nat, k: nat): Unit {
    Unit([blockId], Join('\n', [header] + Group(body, rows, k)), false, true)
  }

  /** One unit per row group, just enough of them to hold every row. */
  ghost predicate GroupUnits(blockId: string, header: string, body: seq<string>, rows: nat, units: seq<Unit>) {
    && rows >= 1
    && (|units| - 1) * rows < |body| <= |units| * rows
    && forall k :: 0 <= k < |units| ==> units[k] == GroupUnit(blockId, header, body, rows, k)
  }

  ghost predicate TableUnits(blockId: string, text: string, units: seq<Unit>) {
    var lines := NonBlank(SplitLines(text));
    if lines == [] then units == []
    else GroupUnits(blockId, lines[0], Body(lines), GroupRows(lines[0], Body(lines)), units)
  }

  method MakeGroups(blockId: string, header: string, body: seq<string>, rows: nat) returns (units: seq<Unit>)
    requires rows >= 1 && body != []
    ensures GroupUnits(blockId, header, body, rows, units)
  {
    units := [];
    var start := 0;
    while start < |body|
      invariant start == |units| * rows
      invariant start == 0 || (|units| - 1) * rows < |body|
      invariant forall k :: 0 <= k < |units| ==> units[k] == GroupUnit(blockId, header, body, rows, k)
      decreases |body| - start
    {
      var group := body[start..Min(start + rows, |body|)];
      assert group == Group(body, rows, |units|);
      units := units + [Unit([blockId], Join('\n', [header] + group), false, true)];
      assert (|units| - 1) * rows + rows == |units| * rows;
      start := start + rows;
    }
  }

  method SplitTables(blockId: string, text: string) returns (units: seq<Unit>)
    ensures TableUnits(blockId, text, units)
  {
    var lines := NonBlank(SplitLines(text));
    if lines == [] {
      return [];
    }
    var header := lines[0];
    var body := Body(lines);
    var headerCost := Estimate(header) + 1;
    var rowCost := 0;
    for i := 0 to |body|
      invariant rowCost == RowCost(body[..i])
    {
      assert body[..i + 1][..i] == body[..i];
      rowCost := Max(rowCost, Estimate(body[i]));
    }
    assert body[..|body|] == body;
    var groupRows := Max(1, (TARGET_TOKENS - headerCost) / Max(1, rowCost));
    units := MakeGroups(blockId, header, body, groupRows);
  }

  // ---- the groups partition the rows ----

  lemma {:induction false} FlattenSnoc<T>(ss: seq<seq<T>>, s: seq<T>)
    ensures Flatten(ss + [s]) == Flatten(ss) + s
  {
    if ss == [] {
      assert ss + [s] == [s];
    } else {
      FlattenSnoc(ss[1..], s);
      assert (ss + [s])[1..] == ss[1..] + [s];
    }
  }

  /** The first `k` groups laid end to end are the rows they cover, in order. */
  lemma {:induction false} GroupsPartition(body: seq<string>, rows: nat, k: nat)
    requires rows >= 1
    ensures Flatten(Groups(body, rows, k)) == body[..Min(k * rows, |body|)]
  {
    if k > 0 {
      GroupsPartition(body, rows, k - 1);
      NextGroup(body, rows, k - 1);
      hide Group, Flatten;
      var last := Group(body, rows, k - 1);
      assert Groups(body, rows, k) == Groups(body, rows, k - 1) + [last];
      hide Groups;
      FlattenSnoc(Groups(body, rows, k - 1), last);
    } else {
      assert Groups(body, rows, 0) == [];
    }
  }

  lemma NextGroup(body: seq<string>, rows: nat, k: nat)
    ensures body[..Min(k * rows, |body|)] + Group(body, rows, k) == body[..Min((k + 1) * rows, |body|)]
  {
    var from := k * rows;
    assert (k + 1) * rows == from + rows;
    Joined(body, Min(from, |body|), Min(from + rows, |body|));
  }

  lemma Joined(body: seq<string>, a: nat, b: nat)
    requires a <= b <= |body|
    ensures body[..a] + body[a..b] == body[..b]
  {}

  // ---- group size ----

  lemma {:induction false} RowCostBounds(rows: seq<string>, row: string)
    requires row in rows
    ensures Estimate(row) <= RowCost(rows)
  {
    var init := rows[..|rows| - 1];
    if row in init { RowCostBounds(init, row); }
  }

  lemma {:induction false} DearestRow(rows: seq<string>) returns (dearest: string)
    requires rows != []
    ensures dearest in rows && Estimate(dearest) == RowCost(rows)
    ensures forall row :: row in rows ==> Estimate(row) <= Estimate(dearest)
  {
    var init, last := rows[..|rows| - 1], rows[|rows| - 1];
    dearest := last;
    if init != [] {
      var other := DearestRow(init);
      if Estimate(other) > Estimate(last) { dearest := other; }
    }
    forall row | row in rows ensures Estimate(row) <= Estimate(dearest) { RowCostBounds(rows, row); }
  }

  lemma MostMultiples(room: int, cost: nat)
    requires cost >= 1
    ensures var n := Max(1, room / cost); (n == 1 || n * cost <= room) && (n + 1) * cost > room
  {
    var q := room / cost;
    assert q * cost <= room < (q + 1) * cost by { assert (q + 1) * cost == q * cost + cost; }
    if q < 1 {
      assert (q + 1) * cost <= 2 * cost by { assert (q + 1) * cost == q * cost + cost; assert q * cost <= 0; }
    }
  }

  /** A group takes as many rows as fit the target beside the header, were each
      as dear as the dearest, and one row where not even two fit. */
  lemma GroupsFillTheTarget(header: string, body: seq<string>) returns (dearest: string)
    requires body != [] && forall row :: row in body ==> row != ""
    ensures dearest in body && forall row :: row in body ==> Estimate(row) <= Estimate(dearest)
    ensures var rows := GroupRows(header, body);
      && rows >= 1
      && (rows == 1 || Estimate(header) + 1 + rows * Estimate(dearest) <= 800)
      && Estimate(header) + 1 + (rows + 1) * Estimate(dearest) > 800
  {
    dearest := DearestRow(body);
    hide RowCost;
    assert Estimate(dearest) >= 1 by { assert dearest != ""; }
    MostMultiples(TARGET_TOKENS - (Estimate(header) + 1), Estimate(dearest));
  }

  /** Length of lines joined with newlines, each line costing at most `top`. */
  lemma {:induction false} LinesLength(lines: seq<string>, top: nat)
    requires lines != [] && forall l :: l in lines ==> |l| <= top
    ensures |Join('\n', lines)| + 1 <= |lines| * (top + 1)
  {
    if |lines| > 1 {
      LinesLength(lines[1..], top);
      assert |lines| * (top + 1) == (top + 1) + |lines[1..]| * (top + 1);
    }
  }

  lemma EstimateBounds(text: string)
    ensures |text| <= 4 * Estimate(text) + 3
    ensures text != "" ==> 4 * (Estimate(text) - 1) <= |text|
  {}

  lemma MulMonotone(a: nat, b: nat, c: nat)
    requires a <= b
    ensures a * c <= b * c && c * a <= c * b
  {}

  lemma Distribute(n: nat, cost: nat)
    ensures n * (4 * cost + 4) == 4 * (n * cost) + 4 * n
  {}

  lemma GroupArithmetic(header: nat, cost: nat, rows: nat, n: nat)
    requires cost >= 1 && 2 <= rows && n <= rows
    requires rows == (800 - (header + 1)) / cost
    ensures (4 * header + 3) + 1 + n * (4 * cost + 3 + 1) < 6400
  {
    var product := n * cost;
    assert rows * cost <= 799 - header;
    MulMonotone(n, rows, cost);
    assert product <= 799 - header;
    MulMonotone(1, cost, n);
    assert n <= product;
    assert n * (4 * cost + 4) == 4 * product + 4 * n by { Distribute(n, cost); }
  }

  /** A group of several rows estimates below twice the target. */
  lemma MultiRowGroupSize(header: string, body: seq<string>, k: nat)
    requires body != [] && GroupRows(header, body) >= 2
    requires forall row :: row in body ==> row != ""
    requires Group(body, GroupRows(header, body), k) != []
    ensures Estimate(Join('\n', [header] + Group(body, GroupRows(header, body), k))) < 2 * TARGET_TOKENS
  {
    var rows := GroupRows(header, body);
    var group := Group(body, rows, k);
    var cost := RowCost(body);
    assert body[0] in body;
    RowCostBounds(body, body[0]);
    forall l | l in group ensures |l| <= 4 * cost + 3 {
      assert l in body;
      RowCostBounds(body, l);
      EstimateBounds(l);
    }
    LinesLength(group, 4 * cost + 3);
    EstimateBounds(header);
    GroupArithmetic(Estimate(header), cost, rows, |group|);
    assert ([header] + group)[1..] == group;
    assert |Join('\n', [header] + group)| == |header| + 1 + |Join('\n', group)|;
  }

  lemma Distributes(n: nat, size: nat)
    ensures (n + 1) * size == size + n * size
  {}

  /** Length of lines joined with newlines, all of one length. */
  lemma {:induction false} EvenLinesLength(lines: seq<string>, size: nat)
    requires lines != [] && forall l :: l in lines ==> |l| == size
    ensures |Join('\n', lines)| + 1 == |lines| * (size + 1)
  {
    if |lines| > 1 {
      EvenLinesLength(lines[1..], size);
      assert lines[0] in lines;
      Distributes(|lines[1..]|, size + 1);
    }
  }

  lemma {:induction false} EvenRowCost(rows: seq<string>, cost: nat)
    requires rows != [] && forall r :: r in rows ==> Estimate(r) == cost
    ensures RowCost(rows) == cost
  {
    var init := rows[..|rows| - 1];
    assert rows[|rows| - 1] in rows && forall r :: r in init ==> r in rows;
    if init != [] { EvenRowCost(init, cost); }
  }

  // ---- when the groups keep the maximum ----

  lemma EstimateAtMost(text: string, m: nat)
    requires m >= 1 && |text| <= 4 * m + 3
    ensures Estimate(text) <= m
    ensures |text| == 4 * m + 3 ==> Estimate(text) == m
  {}

  lemma HeaderAndLines(header: string, group: seq<string>)
    requires group != []
    ensures |Join('\n', [header] + group)| == |header| + 1 + |Join('\n', group)|
  {
    assert ([header] + group)[1..] == group;
  }

  lemma FourTimes(n: nat, cost: nat)
    ensures n * (4 * cost + 3 + 1) == 4 * (n * (cost + 1)) && n * (cost + 1) >= 0
  {}

  /** A group costs at most its header and, row for row, the dearest row and its
      line end: the remainders the estimates drop add up to no more. */
  lemma GroupEstimate(header: string, group: seq<string>, cost: nat)
    requires forall r :: r in group ==> Estimate(r) <= cost
    requires header != ""
    ensures Estimate(Join('\n', [header] + group)) <= Estimate(header) + |group| * (cost + 1)
  {
    EstimateBounds(header);
    assert Estimate(header) >= 1;
    FourTimes(|group|, cost);
    var product := |group| * (cost + 1);
    if group == [] {
      assert [header] + group == [header];
    } else {
      forall r | r in group ensures |r| <= 4 * cost + 3 { EstimateBounds(r); }
      LinesLength(group, 4 * cost + 3);
      HeaderAndLines(header, group);
      hide Estimate, Join;
      EstimateAtMost(Join('\n', [header] + group), Estimate(header) + product);
    }
  }

  function Xs(n: nat): string {
    seq(n, i requires 0 <= i < n => 'x')
  }

  lemma XsIsPlain(n: nat)
    requires n >= 1
    ensures Strip(Xs(n)) != "" && forall c :: c in Xs(n) ==> !IsLineBoundary(c)
    ensures n >= 4 ==> Estimate(Xs(n)) == n / 4
  {
    assert Xs(n)[0] == 'x';
  }

  lemma {:induction false} LinesOfLine(cur: string, line: string, rest: string)
    requires forall c :: c in line ==> !IsLineBoundary(c)
    ensures LinesFrom(cur, line) == Ended(cur + line)
    ensures LinesFrom(cur, line + ['\n'] + rest) == [cur + line] + LinesFrom("", rest)
    decreases line
  {
    if line == "" {
      assert cur + line == cur;
      assert line + ['\n'] + rest == ['\n'] + rest;
      assert (['\n'] + rest)[1..] == rest;
    } else {
      var more := line[1..];
      assert line[0] in line && forall c :: c in more ==> c in line;
      LinesOfLine(cur + [line[0]], more, rest);
      assert cur + [line[0]] + more == cur + line;
      var all := line + ['\n'] + rest;
      assert all[0] == line[0] && all[1..] == more + ['\n'] + rest;
      assert !IsLineBoundary('\r') || line[0] != '\r';
    }
  }

  lemma {:induction false} LinesOfJoin(lines: seq<string>)
    requires forall l, c :: l in lines && c in l ==> !IsLineBoundary(c)
    requires forall l :: l in lines ==> Strip(l) != ""
    ensures NonBlank(SplitLines(Join('\n', lines))) == lines
  {
    if lines != [] {
      var first, more := lines[0], lines[1..];
      assert first in lines && forall l :: l in more ==> l in lines;
      assert "" + first == first;
      LinesOfJoin(more);
      if more == [] {
        LinesOfLine("", first, "");
        assert lines == [first];
        assert first != "" by { assert Strip("") == ""; }
        assert SplitLines(first) == [first];
      } else {
        LinesOfLine("", first, Join('\n', more));
        assert SplitLines(Join('\n', lines)) == [first] + SplitLines(Join('\n', more));
        assert ([first] + SplitLines(Join('\n', more)))[1..] == SplitLines(Join('\n', more));
      }
      assert lines == [first] + more;
    }
  }

  /** A table text by the estimates of its header and of its dearest row. */
  ghost predicate TableOf(text: string, headerCost: nat, rowCost: nat) {
    var lines := NonBlank(SplitLines(text));
    lines != [] && Estimate(lines[0]) == headerCost && RowCost(Body(lines)) == rowCost
  }

  ghost predicate AllFit(units: seq<Unit>) {
    forall k :: 0 <= k < |units| ==> Estimate(units[k].text) <= MAX_TOKENS
  }

  lemma {:induction false} NonBlankLines(lines: seq<string>)
    ensures forall l :: l in NonBlank(lines) ==> l != ""
  {
    if lines != [] {
      NonBlankLines(lines[1..]);
      assert Strip("") == "";
    }
  }

  lemma GroupsFit(blockId: string, text: string, units: seq<Unit>, headerCost: nat, rowCost: nat)
    requires TableOf(text, headerCost, rowCost) && TableUnits(blockId, text, units)
    requires headerCost + RowsFor(headerCost, rowCost) * (rowCost + 1) <= MAX_TOKENS
    ensures AllFit(units)
  {
    var lines := NonBlank(SplitLines(text));
    NonBlankLines(SplitLines(text));
    var header, body := lines[0], Body(lines);
    assert header in lines;
    var rows := GroupRows(header, body);
    hide SplitLines, NonBlank, RowsFor, Estimate;
    forall k | 0 <= k < |units| ensures Estimate(units[k].text) <= MAX_TOKENS {
      GroupFits(header, body, rows, k, rowCost);
    }
  }

  lemma GroupFits(header: string, body: seq<string>, rows: nat, k: nat, rowCost: nat)
    requires header != "" && RowCost(body) == rowCost
    requires Estimate(header) + rows * (rowCost + 1) <= MAX_TOKENS
    ensures Estimate(Join('\n', [header] + Group(body, rows, k))) <= MAX_TOKENS
  {
    hide Estimate, RowCost, Join;
    var group := Group(body, rows, k);
    assert |group| <= rows;
    forall r | r in group ensures Estimate(r) <= rowCost {
      assert r in body;
      RowCostBounds(body, r);
    }
    GroupEstimate(header, group, rowCost);
    MulMonotone(|group|, rows, rowCost + 1);
  }

  /** A table that fills its first group to the last character. */
  lemma FullTable(blockId: string, headerCost: nat, rowCost: nat) returns (text: string, units: seq<Unit>)
    requires headerCost >= 1 && rowCost >= 1
    ensures TableOf(text, headerCost, rowCost) && TableUnits(blockId, text, units) && units != []
    ensures Estimate(units[0].text) == headerCost + RowsFor(headerCost, rowCost) * (rowCost + 1)
  {
    var n := RowsFor(headerCost, rowCost);
    var header, row := Xs(4 * headerCost + 3), Xs(4 * rowCost + 3);
    XsIsPlain(4 * headerCost + 3);
    XsIsPlain(4 * rowCost + 3);
    var body := seq(n, i requires 0 <= i < n => row);
    assert |header| == 4 * headerCost + 3 && |row| == 4 * rowCost + 3;
    assert (4 * headerCost + 3) / 4 == headerCost && (4 * rowCost + 3) / 4 == rowCost;
    hide *;
    assert forall l :: l in body ==> l == row;
    assert forall l :: l in [header] + body ==> l == header || l == row;
    EvenRowCost(body, rowCost);
    EnoughRows(header, body);
    text, units := TableText(blockId, header, body);
    EvenGroupLength(header, body, headerCost, rowCost);
  }

  lemma EnoughRows(header: string, body: seq<string>)
    ensures GroupRows(header, body) == RowsFor(Estimate(header), RowCost(body)) >= 1
  {}

  lemma TableText(blockId: string, header: string, body: seq<string>) returns (text: string, units: seq<Unit>)
    requires body != [] && |body| == GroupRows(header, body)
    requires forall l, c :: l in [header] + body && c in l ==> !IsLineBoundary(c)
    requires forall l :: l in [header] + body ==> Strip(l) != ""
    ensures TableOf(text, Estimate(header), RowCost(body)) && TableUnits(blockId, text, units)
    ensures units != [] && units[0].text == Join('\n', [header] + body)
  {
    var lines := [header] + body;
    LinesOfJoin(lines);
    text := Join('\n', lines);
    assert lines[1..] == body;
    hide SplitLines, NonBlank, Estimate, Join, GroupRows, RowCost;
    var n := |body|;
    units := [GroupUnit(blockId, header, body, n, 0)];
    assert Group(body, n, 0) == body;
    assert (|units| - 1) * n == 0 && |units| * n == n;
  }

  lemma EvenGroupLength(header: string, body: seq<string>, headerCost: nat, rowCost: nat)
    requires headerCost >= 1 && |header| == 4 * headerCost + 3
    requires body != [] && forall r :: r in body ==> |r| == 4 * rowCost + 3
    ensures Estimate(Join('\n', [header] + body)) == headerCost + |body| * (rowCost + 1)
  {
    var text := Join('\n', [header] + body);
    EvenLinesLength(body, 4 * rowCost + 3);
    HeaderAndLines(header, body);
    FourTimes(|body|, rowCost);
    hide Estimate, Join;
    var product := |body| * (rowCost + 1);
    EstimateAtMost(text, headerCost + product);
  }

  /** Every group of every table with these two estimates keeps the maximum if
      and only if a full group of such rows does. */
  lemma GroupsFitExactlyWhen(headerCost: nat, rowCost: nat)
    requires headerCost >= 1 && rowCost >= 1
    ensures (forall blockId, text, units :: TableOf(text, headerCost, rowCost) && TableUnits(blockId, text, units) ==> AllFit(units))
       <==> headerCost + RowsFor(headerCost, rowCost) * (rowCost + 1) <= MAX_TOKENS
  {
    hide TableOf, TableUnits, RowsFor;
    if headerCost + RowsFor(headerCost, rowCost) * (rowCost + 1) <= MAX_TOKENS {
      forall blockId, text, units | TableOf(text, headerCost, rowCost) && TableUnits(blockId, text, units) ensures AllFit(units) {
        GroupsFit(blockId, text, units, headerCost, rowCost);
      }
    } else {
      var text, units := FullTable("", headerCost, rowCost);
      assert !AllFit(units);
    }
  }

  /** So short rows, whose estimates round down the most, do pass it: with a
      header and rows of one token each a group takes 798 rows. */
  lemma ShortRowsPassTheMaximum()
    ensures RowsFor(1, 1) == 798
    ensures exists blockId, text, units :: TableOf(text, 1, 1) && TableUnits(blockId, text, units) && !AllFit(units)
  {
    hide TableOf, TableUnits;
    GroupsFitExactlyWhen(1, 1);
  }

  // ---- no word is lost ----

  lemma {:induction false} WordsOfLines(cur: string, s: string)
    ensures SplitAll(LinesFrom(cur, s)) == Split(cur + s)
    decreases |s|
  {
    if s == "" {
      assert cur + s == cur;
      if cur != "" { assert SplitAll([cur]) == Split(cur) + []; }
    } else if s[0] == '\r' && |s| > 1 && s[1] == '\n' {
      WordsOfLines("", s[2..]);
      assert "" + s[2..] == s[2..];
      assert cur + s == cur + [s[0]] + s[1..];
      WordsAtSpace("", cur, s[0], s[1..]);
      assert Split(s[1..]) == Split(s[1..][1..]) && s[1..][1..] == s[2..];
      LinesHead(cur, LinesFrom("", s[2..]));
    } else if IsLineBoundary(s[0]) {
      WordsOfLines("", s[1..]);
      assert "" + s[1..] == s[1..];
      assert cur + s == cur + [s[0]] + s[1..];
      WordsAtSpace("", cur, s[0], s[1..]);
      LinesHead(cur, LinesFrom("", s[1..]));
    } else {
      WordsOfLines(cur + [s[0]], s[1..]);
      assert cur + [s[0]] + s[1..] == cur + s;
    }
  }

  lemma LinesHead(line: string, rest: seq<string>)
    ensures SplitAll([line] + rest) == Split(line) + SplitAll(rest)
  {
    assert ([line] + rest)[1..] == rest;
  }

  lemma {:induction false} WordsOfNonBlank(lines: seq<string>)
    ensures SplitAll(NonBlank(lines)) == SplitAll(lines)
    ensures forall l :: l in NonBlank(lines) ==> l != ""
  {
    if lines != [] {
      WordsOfNonBlank(lines[1..]);
      BlankHasNoWords(lines[0]);
      if Strip(lines[0]) != "" {
        LinesHead(lines[0], NonBlank(lines[1..]));
      } else {
        assert SplitAll(lines) == [] + SplitAll(lines[1..]);
        assert NonBlank(lines) == NonBlank(lines[1..]);
      }
    }
  }

  lemma {:induction false} WordInSome(lines: seq<string>, w: string)
    requires w in SplitAll(lines)
    ensures exists i :: 0 <= i < |lines| && w in Split(lines[i])
  {
    if w !in Split(lines[0]) {
      WordInSome(lines[1..], w);
      var i :| 0 <= i < |lines[1..]| && w in Split(lines[1..][i]);
      assert w in Split(lines[i + 1]);
    }
  }

  lemma {:induction false} PieceWords(lines: seq<string>, i: nat, w: string)
    requires i < |lines| && w in Split(lines[i])
    ensures w in SplitAll(lines)
  {
    if i > 0 { PieceWords(lines[1..], i - 1, w); }
  }

  lemma InSomeGroup(body: seq<string>, rows: nat, n: nat, r: nat) returns (k: nat)
    requires rows >= 1 && r < |body| <= n * rows
    ensures k < n && body[r] in Group(body, rows, k)
  {
    k := r / rows;
    assert k * rows <= r < k * rows + rows;
    if k >= n { MulMonotone(n, k, rows); }
    InGroup(body, rows, k, r);
  }

  lemma InGroup(body: seq<string>, rows: nat, k: nat, r: nat)
    requires k * rows <= r < k * rows + rows && r < |body|
    ensures body[r] in Group(body, rows, k)
  {
    var start := k * rows;
    assert Group(body, rows, k)[r - start] == body[r];
  }

  /** Every word of the table is in the text of one of its groups. */
  lemma TableKeepsWords(blockId: string, text: string, units: seq<Unit>, w: string) returns (k: nat)
    requires w in Split(text)
    requires TableUnits(blockId, text, units)
    ensures k < |units| && w in Split(units[k].text)
  {
    var lines := NonBlank(SplitLines(text));
    WordsOfLines("", text);
    assert "" + text == text;
    WordsOfNonBlank(SplitLines(text));
    WordInSome(lines, w);
    var i :| 0 <= i < |lines| && w in Split(lines[i]);
    var body := Body(lines);
    var rows := GroupRows(lines[0], body);
    hide SplitLines, NonBlank, SplitAll, WordsFrom;
    k := InSomeGroup(body, rows, |units|, if i == 0 then 0 else i - 1);
    assert i > 0 ==> body[i - 1] == lines[i];
    var all := [lines[0]] + Group(body, rows, k);
    assert lines[i] in all;
    var r :| 0 <= r < |all| && all[r] == lines[i];
    hide GroupRows, Group, Body;
    PieceWords(all, r, w);
    WordsOfJoin('\n', all);
  }
}
