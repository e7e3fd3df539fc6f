/** Timeline reading: the keyset pages over sort key and event id, and the
    revision a past view shows. */
module Timeline {
  import opened Options
  import Lexicographic

  /** Group 0 holds the dated events, group 1 the undated ones; the event id
      breaks ties on its text. */
  datatype Position = Position(group: int, start: string, id: string)

  datatype Entry = Entry(pos: Position, payload: string)

  predicate Less(a: Position, b: Position) {
    || a.group < b.group
    || (a.group == b.group && Lexicographic.Less(a.start, b.start))
    || (a.group == b.group && a.start == b.start && Lexicographic.Less(a.id, b.id))
  }

  lemma LessTransitive(a: Position, b: Position, c: Position)
    requires Less(a, b) && Less(b, c)
    ensures Less(a, c)
  {
    if a.group == b.group == c.group {
      if Lexicographic.Less(a.start, b.start) && Lexicographic.Less(b.start, c.start) {
        Lexicographic.Transitive(a.start, b.start, c.start);
      } else if a.start == b.start == c.start {
        Lexicographic.Transitive(a.id, b.id, c.id);
      }
    }
  }

  lemma LessTrichotomy(a: Position, b: Position)
    ensures a == b || Less(a, b) || Less(b, a)
    ensures !(Less(a, b) && Less(b, a))
    ensures !Less(a, a)
  {
    Lexicographic.Trichotomy(a.start, b.start);
    Lexicographic.Trichotomy(a.id, b.id);
    Lexicographic.Irreflexive(a.start);
    Lexicographic.Irreflexive(a.id);
    if Lexicographic.Less(a.start, b.start) { Lexicographic.Asymmetric(a.start, b.start); }
    if Lexicographic.Less(a.id, b.id) { Lexicographic.Asymmetric(a.id, b.id); }
  }

  // ---- sorting ----

  ghost predicate Ascending(s: seq<Entry>) {
    forall i, j :: 0 <= i < j < |s| ==> Less(s[i].pos, s[j].pos)
  }

  ghost predicate DistinctKeys(s: seq<Entry>) {
    forall i, j :: 0 <= i < j < |s| ==> s[i].pos != s[j].pos
  }

  function Insert(e: Entry, s: seq<Entry>): seq<Entry> {
    if s == [] then [e]
    else if Less(s[0].pos, e.pos) then [s[0]] + Insert(e, s[1..])
    else [e] + s
  }

  /** A stable sort by position. */
  function Sort(s: seq<Entry>): seq<Entry> {
    if s == [] then [] else Insert(s[0], Sort(s[1..]))
  }

  lemma Prepended(e: Entry, s: seq<Entry>)
    requires Ascending(s) && forall x :: x in s ==> Less(e.pos, x.pos)
    ensures Ascending([e] + s) && forall x :: x in [e] + s <==> x == e || x in s
  {
    hide Less;
    assert forall i :: 0 <= i < |s| ==> s[i] in s;
  }

  lemma {:induction false} InsertKeepsOrder(e: Entry, s: seq<Entry>)
    requires Ascending(s) && forall x :: x in s ==> x.pos != e.pos
    ensures Ascending(Insert(e, s))
    ensures forall x :: x in Insert(e, s) <==> x == e || x in s
  {
    hide Less;
    if s != [] {
      var first, more := s[0], s[1..];
      assert first in s && s == [first] + more && forall x :: x in more ==> x in s && Less(first.pos, x.pos);
      LessTrichotomy(first.pos, e.pos);
      if Less(first.pos, e.pos) {
        InsertKeepsOrder(e, more);
        assert Insert(e, s) == [first] + Insert(e, more);
        hide Insert;
        Prepended(first, Insert(e, more));
      } else {
        forall x | x in s ensures Less(e.pos, x.pos) {
          if x != first { LessTransitive(e.pos, first.pos, x.pos); }
        }
        assert Insert(e, s) == [e] + s;
        hide Insert;
        Prepended(e, s);
      }
    }
  }

  lemma {:induction false} SortSorts(s: seq<Entry>)
    requires DistinctKeys(s)
    ensures Ascending(Sort(s))
    ensures forall x :: x in Sort(s) <==> x in s
  {
    if s != [] {
      SortSorts(s[1..]);
      forall x | x in s[1..] ensures x.pos != s[0].pos {
        var i :| 1 <= i < |s| && s[i] == x;
      }
      InsertKeepsOrder(s[0], Sort(s[1..]));
    }
  }

  // ---- one page ----

  predicate After(cursor: Option<Position>, e: Entry) {
    cursor.None? || Less(cursor.value, e.pos)
  }

  function AfterOnly(cursor: Option<Position>, s: seq<Entry>): seq<Entry> {
    if s == [] then [] else (if After(cursor, s[0]) then [s[0]] else []) + AfterOnly(cursor, s[1..])
  }

  /** The slice `s[:limit]`; a negative limit counts from the end. */
  function Upto(s: seq<Entry>, limit: int): seq<Entry> {
    if limit >= |s| then s
    else if limit >= 0 then s[..limit]
    else if limit + |s| >= 0 then s[..limit + |s|]
    else []
  }

  datatype Page = Page(entries: seq<Entry>, next: Option<Position>)

  function PageEvents(entries: seq<Entry>, cursor: Option<Position>, limit: int): Page {
    var ordered := AfterOnly(cursor, Sort(entries));
    var page := Upto(ordered, limit);
    Page(page, if |ordered| > limit && page != [] then Some(page[|page| - 1].pos) else None)
  }

  lemma {:induction false} AfterOnlyKeeps(cursor: Option<Position>, s: seq<Entry>)
    requires Ascending(s)
    ensures Ascending(AfterOnly(cursor, s))
    ensures forall x :: x in AfterOnly(cursor, s) <==> x in s && After(cursor, x)
  {
    hide Less, After;
    if s != [] {
      AfterOnlyKeeps(cursor, s[1..]);
      var rest := AfterOnly(cursor, s[1..]);
      assert forall x :: x in s <==> x == s[0] || x in s[1..];
      assert forall x :: x in s[1..] ==> Less(s[0].pos, x.pos);
      assert AfterOnly(cursor, s) == if After(cursor, s[0]) then [s[0]] + rest else rest;
    }
  }

  /** The positions a page answers for: after its cursor, up to its next one. */
  predicate Covers(cursor: Option<Position>, next: Option<Position>, pos: Position) {
    && (cursor.None? || Less(cursor.value, pos))
    && (next.None? || pos == next.value || Less(pos, next.value))
  }

  /** A page is the entries at the positions it answers for, in order. */
  lemma PageIsInterval(entries: seq<Entry>, cursor: Option<Position>, limit: int)
    requires DistinctKeys(entries) && limit >= 1
    ensures var page := PageEvents(entries, cursor, limit);
            && Ascending(page.entries)
            && (forall e :: e in page.entries <==> e in entries && Covers(cursor, page.next, e.pos))
            && (page.next.Some? ==> page.entries != [] && page.next.value == page.entries[|page.entries| - 1].pos)
  {
    hide Sort, AfterOnly, Less, DistinctKeys;
    SortSorts(entries);
    AfterOnlyKeeps(cursor, Sort(entries));
    var ordered := AfterOnly(cursor, Sort(entries));
    var page := PageEvents(entries, cursor, limit);
    if page.next.Some? {
      assert page.entries == ordered[..limit] && page.next.value == ordered[limit - 1].pos;
      PrefixByLast(ordered, limit);
      hide PageEvents, Ascending;
      assert forall e :: e in page.entries ==> e in ordered;
    }
  }

  /** A page reads by group, in a group by start, and on one start by id. */
  lemma PageReadsInOrder(entries: seq<Entry>, cursor: Option<Position>, limit: int, i: nat, j: nat)
    requires DistinctKeys(entries) && limit >= 1
    requires i < j < |PageEvents(entries, cursor, limit).entries|
    ensures var page := PageEvents(entries, cursor, limit).entries;
      var a, b := page[i].pos, page[j].pos;
      && a.group <= b.group
      && (a.group == b.group ==> !Lexicographic.Less(b.start, a.start))
      && (a.group == b.group && a.start == b.start ==> Lexicographic.Less(a.id, b.id))
  {
    PageIsInterval(entries, cursor, limit);
    hide PageEvents;
    var page := PageEvents(entries, cursor, limit).entries;
    var a, b := page[i].pos, page[j].pos;
    assert Less(a, b);
    if Lexicographic.Less(b.start, a.start) { Lexicographic.Asymmetric(b.start, a.start); }
    Lexicographic.Irreflexive(a.start);
  }

  lemma PrefixByLast(ordered: seq<Entry>, limit: nat)
    requires Ascending(ordered) && 1 <= limit <= |ordered|
    ensures forall e :: e in ordered ==>
      (e in ordered[..limit] <==> e.pos == ordered[limit - 1].pos || Less(e.pos, ordered[limit - 1].pos))
  {
    hide Less;
    var last := ordered[limit - 1];
    forall e | e in ordered
      ensures e in ordered[..limit] <==> e.pos == last.pos || Less(e.pos, last.pos)
    {
      var i :| 0 <= i < |ordered| && ordered[i] == e;
      LessTrichotomy(e.pos, last.pos);
      if i < limit {
        assert ordered[..limit][i] == e;
      } else {
        assert Less(last.pos, e.pos);
        forall j | 0 <= j < limit ensures ordered[j] != e {
          if j < limit - 1 { assert Less(ordered[j].pos, last.pos); }
        }
      }
    }
  }

  // ---- following cursors ----

  /** Requests one after another; `polls` holds what the store held at each. */
  ghost predicate Walk(polls: seq<seq<Entry>>, start: Option<Position>, limit: int, pages: seq<Page>) {
    |polls| == |pages| &&
    (pages != [] ==>
      && pages[0] == PageEvents(polls[0], start, limit)
      && (if pages[0].next.None? then |pages| == 1 else Walk(polls[1..], pages[0].next, limit, pages[1..])))
  }

  /** No poll finds two entries at one position. */
  ghost predicate AllDistinct(polls: seq<seq<Entry>>) {
    forall i :: 0 <= i < |polls| ==> DistinctKeys(polls[i])
  }

  ghost predicate Complete(pages: seq<Page>) {
    pages != [] && pages[|pages| - 1].next.None?
  }

  function Delivered(pages: seq<Page>): seq<Entry> {
    if pages == [] then [] else pages[0].entries + Delivered(pages[1..])
  }

  /** Whatever is inserted or removed between requests, delivery only ascends:
      no position comes twice. */
  lemma {:induction false} DeliveryAscends(polls: seq<seq<Entry>>, start: Option<Position>, limit: int, pages: seq<Page>)
    requires AllDistinct(polls) && Walk(polls, start, limit, pages) && limit >= 1
    ensures Ascending(Delivered(pages))
    ensures forall e :: e in Delivered(pages) ==> After(start, e)
  {
    if pages != [] {
      PageIsInterval(polls[0], start, limit);
      var page := pages[0].entries;
      hide PageEvents, Less;
      if pages[0].next.Some? {
        var last := pages[0].next.value;
        DeliveryAscends(polls[1..], pages[0].next, limit, pages[1..]);
        var rest := Delivered(pages[1..]);
        forall a, b | a in page && b in rest ensures Less(a.pos, b.pos) {
          if a.pos != last { LessTransitive(a.pos, last, b.pos); }
        }
        forall e | e in rest ensures After(start, e) {
          if start.Some? {
            assert page[|page| - 1] in page;
            LessTransitive(start.value, last, e.pos);
          }
        }
      } else {
        assert pages[1..] == [] && Delivered(pages) == page;
      }
    }
  }

  ghost predicate CoveredAt(start: Option<Position>, pages: seq<Page>, i: nat, pos: Position)
    requires i < |pages|
  {
    Covers(if i == 0 then start else pages[i - 1].next, pages[i].next, pos)
  }

  /** In a completed run every position belongs to exactly one request. */
  lemma {:induction false} EachPositionIsCoveredOnce(polls: seq<seq<Entry>>, start: Option<Position>, limit: int, pages: seq<Page>, pos: Position)
    requires AllDistinct(polls) && Walk(polls, start, limit, pages) && limit >= 1 && Complete(pages)
    requires start.None? || Less(start.value, pos)
    ensures exists i :: 0 <= i < |pages| && CoveredAt(start, pages, i, pos)
    ensures forall i, j :: 0 <= i < j < |pages| && CoveredAt(start, pages, i, pos) ==> !CoveredAt(start, pages, j, pos)
  {
    var next := pages[0].next;
    hide PageEvents, Less;
    if next.None? {
      assert CoveredAt(start, pages, 0, pos);
    } else {
      LessTrichotomy(pos, next.value);
      if Less(next.value, pos) {
        var rest := pages[1..];
        assert forall i :: 0 <= i < |rest| ==> CoveredAt(next, rest, i, pos) == CoveredAt(start, pages, i + 1, pos);
        EachPositionIsCoveredOnce(polls[1..], next, limit, rest, pos);
        var k :| 0 <= k < |rest| && CoveredAt(next, rest, k, pos);
        assert CoveredAt(start, pages, k + 1, pos);
        forall i, j | 0 <= i < j < |pages| && CoveredAt(start, pages, i, pos) ensures !CoveredAt(start, pages, j, pos) {
          assert i > 0;
          assert CoveredAt(next, rest, i - 1, pos);
          assert !CoveredAt(next, rest, j - 1, pos);
        }
      } else {
        assert CoveredAt(start, pages, 0, pos);
        LaterPagesAreAhead(polls, start, limit, pages, pos);
      }
    }
  }

  lemma {:induction false} LaterPagesAreAhead(polls: seq<seq<Entry>>, start: Option<Position>, limit: int, pages: seq<Page>, pos: Position)
    requires AllDistinct(polls) && Walk(polls, start, limit, pages) && limit >= 1 && pages != []
    requires pages[0].next.Some? && !Less(pages[0].next.value, pos)
    ensures forall j :: 1 <= j < |pages| ==> !CoveredAt(start, pages, j, pos)
  {
    hide PageEvents, Less;
    var next, rest := pages[0].next, pages[1..];
    if rest != [] && rest[0].next.Some? {
      PageIsInterval(polls[1], next, limit);
      var page := rest[0].entries;
      assert page[|page| - 1] in page;
      if Less(rest[0].next.value, pos) { LessTransitive(next.value, rest[0].next.value, pos); }
      LaterPagesAreAhead(polls[1..], next, limit, rest, pos);
      assert forall j :: 1 <= j < |rest| ==> CoveredAt(next, rest, j, pos) == CoveredAt(start, pages, j + 1, pos);
      forall j | 1 <= j < |pages| ensures !CoveredAt(start, pages, j, pos) {
        if j > 1 { assert !CoveredAt(next, rest, j - 1, pos); }
      }
    }
  }

  /** An entry is delivered exactly when the store held it at a request that
      answers for its position. */
  lemma {:induction false} DeliveredExactlyWhen(polls: seq<seq<Entry>>, start: Option<Position>, limit: int, pages: seq<Page>, e: Entry)
    requires AllDistinct(polls) && Walk(polls, start, limit, pages) && limit >= 1
    ensures e in Delivered(pages) <==> exists i :: 0 <= i < |pages| && CoveredAt(start, pages, i, e.pos) && e in polls[i]
  {
    if pages != [] {
      PageIsInterval(polls[0], start, limit);
      hide PageEvents, Less;
      var next, rest := pages[0].next, pages[1..];
      assert CoveredAt(start, pages, 0, e.pos) == Covers(start, next, e.pos);
      assert Delivered(pages) == pages[0].entries + Delivered(rest);
      if next.None? {
        assert rest == [] && Delivered(rest) == [];
      } else {
        DeliveredExactlyWhen(polls[1..], next, limit, rest, e);
        hide Walk, Covers, Delivered;
        HeldLater(polls, start, pages, e);
      }
    }
  }

  lemma HeldLater(polls: seq<seq<Entry>>, start: Option<Position>, pages: seq<Page>, e: Entry)
    requires |polls| == |pages| && pages != []
    ensures (exists i :: 0 <= i < |pages| && CoveredAt(start, pages, i, e.pos) && e in polls[i])
       <==> ((CoveredAt(start, pages, 0, e.pos) && e in polls[0])
             || (exists i :: 0 <= i < |pages[1..]| && CoveredAt(pages[0].next, pages[1..], i, e.pos) && e in polls[1..][i]))
  {
    hide Covers;
    var next, rest := pages[0].next, pages[1..];
    assert forall i :: 0 <= i < |rest| ==> CoveredAt(next, rest, i, e.pos) == CoveredAt(start, pages, i + 1, e.pos) && polls[1..][i] == polls[i + 1];
    if i :| 0 < i < |pages| && CoveredAt(start, pages, i, e.pos) && e in polls[i] {
      assert CoveredAt(next, rest, i - 1, e.pos) && e in polls[1..][i - 1];
    }
    if i :| 0 <= i < |rest| && CoveredAt(next, rest, i, e.pos) && e in polls[1..][i] {
      assert CoveredAt(start, pages, i + 1, e.pos) && e in polls[i + 1];
    }
  }

  /** An entry present throughout a completed run is delivered, exactly once. */
  lemma PresentThroughoutIsDelivered(polls: seq<seq<Entry>>, start: Option<Position>, limit: int, pages: seq<Page>, e: Entry)
    requires AllDistinct(polls) && Walk(polls, start, limit, pages) && limit >= 1 && Complete(pages)
    requires After(start, e) && forall i :: 0 <= i < |polls| ==> e in polls[i]
    ensures exists k :: 0 <= k < |Delivered(pages)| && Delivered(pages)[k] == e
    ensures forall k, l :: 0 <= k < l < |Delivered(pages)| && Delivered(pages)[k] == e ==> Delivered(pages)[l] != e
  {
    EachPositionIsCoveredOnce(polls, start, limit, pages, e.pos);
    DeliveredExactlyWhen(polls, start, limit, pages, e);
    DeliveryAscends(polls, start, limit, pages);
    assert e in Delivered(pages);
    LessTrichotomy(e.pos, e.pos);
  }

  /** A store that does not change is delivered whole and in order. */
  lemma {:induction false} UnchangedStoreIsDelivered(entries: seq<Entry>, polls: seq<seq<Entry>>, limit: int, pages: seq<Page>)
    requires AllDistinct(polls) && Walk(polls, None, limit, pages) && limit >= 1
    requires forall i :: 0 <= i < |polls| ==> polls[i] == entries
    requires Complete(pages)
    ensures Delivered(pages) == Sort(entries)
  {
    DeliveryAscends(polls, None, limit, pages);
    assert polls[0] == entries;
    SortSorts(entries);
    forall e ensures e in Delivered(pages) <==> e in Sort(entries) {
      if e in Sort(entries) {
        PresentThroughoutIsDelivered(polls, None, limit, pages, e);
      }
      DeliveredExactlyWhen(polls, None, limit, pages, e);
    }
    SameAscending(Delivered(pages), Sort(entries));
  }

  lemma {:induction false} SameAscending(a: seq<Entry>, b: seq<Entry>)
    requires Ascending(a) && Ascending(b)
    requires forall e :: e in a <==> e in b
    ensures a == b
  {
    hide Less;
    BothEmpty(a, b);
    if a != [] {
      assert a[0] in b && b[0] in a;
      LessTrichotomy(a[0].pos, b[0].pos);
      LessTrichotomy(a[0].pos, a[0].pos);
      assert a[0] == b[0];
      forall e ensures e in a[1..] <==> e in b[1..] {
        assert e in a[1..] <==> e in a && e != a[0];
        assert e in b[1..] <==> e in b && e != b[0];
      }
      SameAscending(a[1..], b[1..]);
    }
  }

  lemma BothEmpty(a: seq<Entry>, b: seq<Entry>)
    requires forall e :: e in a <==> e in b
    ensures a == [] <==> b == []
  {
    if a != [] { assert a[0] in a; }
    if b != [] { assert b[0] in b; }
  }

  /** Each request that does not end the run hands out `limit` entries. */
  lemma {:induction false} PagesAreFull(polls: seq<seq<Entry>>, start: Option<Position>, limit: int, pages: seq<Page>)
    requires Walk(polls, start, limit, pages) && limit >= 1 && pages != [] && !Complete(pages)
    ensures |Delivered(pages)| == |pages| * limit
  {
    assert |pages[0].entries| == limit && Delivered(pages) == pages[0].entries + Delivered(pages[1..]);
    hide PageEvents;
    if |pages| == 1 {
      assert Delivered(pages[1..]) == [];
    } else {
      PagesAreFull(polls[1..], pages[0].next, limit, pages[1..]);
      OneMore(|pages| - 1, limit);
    }
  }

  lemma OneMore(n: int, limit: int)
    ensures (n + 1) * limit == n * limit + limit
  {
  }

  // ---- a store that does not change, whatever it holds ----

  ghost predicate NeverDescends(s: seq<Entry>) {
    forall i, j :: 0 <= i < j < |s| ==> !Less(s[j].pos, s[i].pos)
  }

  lemma NotLessTransitive(a: Position, b: Position, c: Position)
    requires !Less(b, a) && !Less(c, b)
    ensures !Less(c, a)
  {
    LessTrichotomy(a, b);
    LessTrichotomy(b, c);
    if Less(a, b) && Less(b, c) { LessTransitive(a, b, c); }
    LessTrichotomy(a, c);
  }

  lemma {:induction false} InsertNeverDescends(e: Entry, s: seq<Entry>)
    requires NeverDescends(s)
    ensures NeverDescends(Insert(e, s)) && |Insert(e, s)| == |s| + 1
    ensures forall x :: x in Insert(e, s) <==> x == e || x in s
  {
    hide Less;
    if s != [] {
      var first, more := s[0], s[1..];
      assert s == [first] + more;
      LessTrichotomy(first.pos, e.pos);
      if Less(first.pos, e.pos) {
        InsertNeverDescends(e, more);
        assert Insert(e, s) == [first] + Insert(e, more);
        hide Insert;
        forall x | x in Insert(e, more) ensures !Less(x.pos, first.pos) {
          if x != e { var i :| 0 <= i < |more| && more[i] == x; assert s[i + 1] == x; }
        }
        FrontNeverDescends(first, Insert(e, more));
      } else {
        assert Insert(e, s) == [e] + s;
        hide Insert;
        forall x | x in s ensures !Less(x.pos, e.pos) {
          var i :| 0 <= i < |s| && s[i] == x;
          LessTrichotomy(first.pos, first.pos);
          NotLessTransitive(e.pos, first.pos, x.pos);
        }
        FrontNeverDescends(e, s);
      }
    }
  }

  lemma FrontNeverDescends(e: Entry, s: seq<Entry>)
    requires NeverDescends(s) && forall x :: x in s ==> !Less(x.pos, e.pos)
    ensures NeverDescends([e] + s) && forall x :: x in [e] + s <==> x == e || x in s
  {
    hide Less;
    assert forall i :: 0 <= i < |s| ==> s[i] in s;
  }

  lemma {:induction false} SortNeverDescends(s: seq<Entry>)
    ensures NeverDescends(Sort(s)) && |Sort(s)| == |s| && forall x :: x in Sort(s) <==> x in s
  {
    if s != [] {
      SortNeverDescends(s[1..]);
      InsertNeverDescends(s[0], Sort(s[1..]));
      assert s == [s[0]] + s[1..];
    }
  }

  /** What is after a cursor is the end of the sorted entries. */
  lemma {:induction false} AfterIsSuffix(cursor: Option<Position>, s: seq<Entry>) returns (k: nat)
    requires NeverDescends(s)
    ensures k <= |s| && AfterOnly(cursor, s) == s[k..]
    ensures forall i :: 0 <= i < |s| ==> (After(cursor, s[i]) <==> i >= k)
  {
    hide Less, After;
    if s == [] {
      k := 0;
    } else {
      AfterFirst(cursor, s);
      hide AfterOnly, NeverDescends;
      TailNeverDescends(s);
      var rest := AfterIsSuffix(cursor, s[1..]);
      if After(cursor, s[0]) {
        AllAfter(cursor, s, rest);
        k := 0;
      } else {
        NoneBefore(cursor, s, rest);
        k := rest + 1;
      }
    }
  }

  lemma TailNeverDescends(s: seq<Entry>)
    requires NeverDescends(s) && s != []
    ensures NeverDescends(s[1..])
  {
    hide Less;
  }

  lemma AllAfter(cursor: Option<Position>, s: seq<Entry>, rest: nat)
    requires NeverDescends(s) && s != [] && After(cursor, s[0]) && rest <= |s[1..]|
    requires forall i :: 0 <= i < |s[1..]| ==> (After(cursor, s[1..][i]) <==> i >= rest)
    ensures (forall i :: 0 <= i < |s| ==> After(cursor, s[i])) && [s[0]] + s[1..][rest..] == s[0..]
  {
    forall i | 0 <= i < |s| ensures After(cursor, s[i]) { AllStayAfter(cursor, s, i); }
    hide After, NeverDescends;
    if rest > 0 { assert After(cursor, s[1..][0]) <==> 0 >= rest; }
  }

  lemma NoneBefore(cursor: Option<Position>, s: seq<Entry>, rest: nat)
    requires s != [] && !After(cursor, s[0]) && rest <= |s[1..]|
    requires forall i :: 0 <= i < |s[1..]| ==> (After(cursor, s[1..][i]) <==> i >= rest)
    ensures forall i :: 0 <= i < |s| ==> (After(cursor, s[i]) <==> i >= rest + 1)
    ensures s[1..][rest..] == s[rest + 1..]
  {
    hide After;
    forall i | 0 < i < |s| ensures After(cursor, s[i]) <==> i >= rest + 1 {
      assert s[1..][i - 1] == s[i];
    }
  }

  lemma AfterFirst(cursor: Option<Position>, s: seq<Entry>)
    requires s != []
    ensures AfterOnly(cursor, s) == if After(cursor, s[0]) then [s[0]] + AfterOnly(cursor, s[1..]) else AfterOnly(cursor, s[1..])
  {
    hide After;
  }

  lemma AllStayAfter(cursor: Option<Position>, s: seq<Entry>, i: nat)
    requires NeverDescends(s) && i < |s| && After(cursor, s[0])
    ensures After(cursor, s[i])
  {
    hide Less;
    if cursor.Some? && i > 0 { StaysAfter(cursor.value, s[0].pos, s[i].pos); }
  }

  lemma StaysAfter(cursor: Position, a: Position, b: Position)
    requires Less(cursor, a) && !Less(b, a)
    ensures Less(cursor, b)
  {
    LessTrichotomy(a, b);
    if Less(a, b) { LessTransitive(cursor, a, b); }
  }

  /** What the store holds after a cursor, in order. */
  function Ahead(entries: seq<Entry>, cursor: Option<Position>): seq<Entry> {
    AfterOnly(cursor, Sort(entries))
  }

  /** The page ends inside a position that more entries share. */
  predicate EndsInside(entries: seq<Entry>, cursor: Option<Position>, limit: int)
    requires limit >= 1
  {
    var ahead := Ahead(entries, cursor);
    limit < |ahead| && ahead[limit].pos == ahead[limit - 1].pos
  }

  /** Cutting sorted entries behind some entry: what is no longer ahead of its
      position are the entries up to there and those that share it. */
  lemma CutBehind(all: seq<Entry>, at: nat) returns (m: nat)
    requires NeverDescends(all) && at < |all|
    ensures at < m <= |all| && AfterOnly(Some(all[at].pos), all) == all[m..]
    ensures forall i :: at < i < m ==> all[i].pos == all[at].pos
    ensures forall i :: m <= i < |all| ==> Less(all[at].pos, all[i].pos)
    ensures m > at + 1 <==> at + 1 < |all| && all[at + 1].pos == all[at].pos
  {
    var pos := all[at].pos;
    m := AfterIsSuffix(Some(pos), all);
    LessTrichotomy(pos, pos);
    hide Less, AfterOnly;
    assert !After(Some(pos), all[at]);
    forall i | at < i < m ensures all[i].pos == pos {
      assert !After(Some(pos), all[i]);
      LessTrichotomy(all[i].pos, pos);
    }
    assert forall i :: m <= i < |all| ==> After(Some(pos), all[i]);
    if at + 1 < |all| && m <= at + 1 { assert After(Some(pos), all[at + 1]); }
  }

  /** A page and its cursor leave exactly the entries of later positions to the
      requests that follow: what else stood behind the page shares its last
      position, and is lost. */
  lemma SharedPositionIsLost(entries: seq<Entry>, cursor: Option<Position>, limit: int) returns (lost: seq<Entry>)
    requires limit >= 1 && PageEvents(entries, cursor, limit).next.Some?
    ensures var page := PageEvents(entries, cursor, limit);
      && Ahead(entries, cursor) == page.entries + lost + Ahead(entries, page.next)
      && |page.entries| == limit
      && (forall e :: e in lost ==> e.pos == page.next.value)
      && (forall e :: e in Ahead(entries, page.next) ==> Less(page.next.value, e.pos))
    ensures lost != [] <==> EndsInside(entries, cursor, limit)
  {
    hide *;
    var all := Sort(entries);
    SortNeverDescends(entries);
    var page := PageEvents(entries, cursor, limit);
    var k := PageCut(entries, cursor, limit);
    assert all[k..][limit - 1] == all[k + limit - 1] && all[k..][limit] == all[k + limit];
    var m := CutBehind(all, k + limit - 1);
    lost := all[k + limit..m];
    ThreeParts(all, k, limit, m);
    assert Ahead(entries, page.next) == all[m..] by { AheadOf(entries, page.next); }
    InsideWhen(entries, cursor, limit);
    assert forall e :: e in lost ==> e.pos == page.next.value;
  }

  /** Where in the sorted store a page that hands out a cursor lies. */
  lemma PageCut(entries: seq<Entry>, cursor: Option<Position>, limit: int) returns (k: nat)
    requires limit >= 1 && PageEvents(entries, cursor, limit).next.Some?
    ensures var all, page := Sort(entries), PageEvents(entries, cursor, limit);
      && k <= |all| && Ahead(entries, cursor) == all[k..] && limit < |all[k..]|
      && page.entries == all[k..][..limit] && page.next == Some(all[k..][limit - 1].pos)
  {
    SortNeverDescends(entries);
    hide Sort, NeverDescends, Less;
    k := AfterIsSuffix(cursor, Sort(entries));
  }

  lemma ThreeParts(all: seq<Entry>, k: nat, n: nat, m: nat)
    requires k + n <= m <= |all|
    ensures all[k..] == all[k..][..n] + all[k + n..m] + all[m..]
  {
  }

  lemma AheadOf(entries: seq<Entry>, cursor: Option<Position>)
    ensures Ahead(entries, cursor) == AfterOnly(cursor, Sort(entries))
  {
  }

  lemma InsideWhen(entries: seq<Entry>, cursor: Option<Position>, limit: int)
    requires limit >= 1
    ensures EndsInside(entries, cursor, limit)
       <==> limit < |Ahead(entries, cursor)| && Ahead(entries, cursor)[limit].pos == Ahead(entries, cursor)[limit - 1].pos
  {
  }

  ghost predicate NeverInside(entries: seq<Entry>, cursor: Option<Position>, limit: int, pages: seq<Page>)
    requires limit >= 1
    decreases |pages|
  {
    pages == []
    || (!EndsInside(entries, cursor, limit)
        && (pages[0].next.None? || NeverInside(entries, pages[0].next, limit, pages[1..])))
  }

  ghost predicate Unchanged(entries: seq<Entry>, polls: seq<seq<Entry>>) {
    forall i :: 0 <= i < |polls| ==> polls[i] == entries
  }

  /** With a limit of one or more, a completed run leaves out exactly what pages
      cut off inside a position. */
  lemma {:induction false} CutOffIsLost(entries: seq<Entry>, polls: seq<seq<Entry>>, cursor: Option<Position>, limit: int, pages: seq<Page>)
    requires Walk(polls, cursor, limit, pages) && Unchanged(entries, polls) && Complete(pages) && limit >= 1
    ensures |Delivered(pages)| <= |Ahead(entries, cursor)|
    ensures |Delivered(pages)| == |Ahead(entries, cursor)| <==> NeverInside(entries, cursor, limit, pages)
    ensures NeverInside(entries, cursor, limit, pages) ==> Delivered(pages) == Ahead(entries, cursor)
    decreases |pages|
  {
    hide PageEvents, Ahead, EndsInside;
    var page := pages[0];
    assert polls[0] == entries && page == PageEvents(entries, cursor, limit);
    assert Delivered(pages) == page.entries + Delivered(pages[1..]);
    if page.next.None? {
      assert pages[1..] == [] && Delivered(pages[1..]) == [];
      LastPageIsRest(entries, cursor, limit);
    } else {
      var lost := SharedPositionIsLost(entries, cursor, limit);
      hide Delivered;
      assert Unchanged(entries, polls[1..]);
      CutOffIsLost(entries, polls[1..], page.next, limit, pages[1..]);
      assert lost == [] ==> page.entries + lost == page.entries;
    }
  }

  lemma LastPageIsRest(entries: seq<Entry>, cursor: Option<Position>, limit: int)
    requires limit >= 1 && PageEvents(entries, cursor, limit).next.None?
    ensures PageEvents(entries, cursor, limit).entries == Ahead(entries, cursor)
    ensures |Ahead(entries, cursor)| <= limit && !EndsInside(entries, cursor, limit)
  {
    hide Sort, AfterOnly;
  }

  lemma ShortPage(entries: seq<Entry>, cursor: Option<Position>, limit: int)
    requires limit < 1
    ensures var page, ahead := PageEvents(entries, cursor, limit), Ahead(entries, cursor);
      && (ahead == [] ==> page.entries == [])
      && (ahead != [] ==> |page.entries| < |ahead|)
      && (page.next.Some? ==> |page.entries| + |Ahead(entries, page.next)| <= |ahead|)
  {
    var all := Sort(entries);
    SortNeverDescends(entries);
    var page := PageEvents(entries, cursor, limit);
    var k := AfterIsSuffix(cursor, all);
    if page.next.Some? {
      hide Sort, AfterOnly, Less;
      var n := |page.entries|;
      assert page.next == Some(all[k..][n - 1].pos) && all[k..][n - 1] == all[k + n - 1];
      var m := CutBehind(all, k + n - 1);
    }
  }

  /** A limit below one never delivers all of what is ahead. */
  lemma {:induction false} NoLimitNoDelivery(entries: seq<Entry>, polls: seq<seq<Entry>>, cursor: Option<Position>, limit: int, pages: seq<Page>)
    requires Walk(polls, cursor, limit, pages) && Unchanged(entries, polls) && limit < 1
    ensures Ahead(entries, cursor) == [] ==> Delivered(pages) == []
    ensures Ahead(entries, cursor) != [] ==> |Delivered(pages)| < |Ahead(entries, cursor)|
    decreases |pages|
  {
    if pages != [] {
      var page := pages[0];
      assert polls[0] == entries && page == PageEvents(entries, cursor, limit);
      assert Delivered(pages) == page.entries + Delivered(pages[1..]);
      ShortPage(entries, cursor, limit);
      if page.next.None? {
        assert pages[1..] == [] && Delivered(pages[1..]) == [];
      } else {
        hide PageEvents, Ahead, Delivered;
        assert Unchanged(entries, polls[1..]);
        NoLimitNoDelivery(entries, polls[1..], page.next, limit, pages[1..]);
      }
    }
  }

  /** Two entries share a position across this cut. */
  predicate SharedAt(s: seq<Entry>, at: int) {
    0 < at < |s| && s[at - 1].pos == s[at].pos
  }

  function Multiple(k: int, limit: int): int { k * limit }

  /** Cut into pages of `limit`, no position is cut in two. */
  ghost predicate CutsClean(s: seq<Entry>, limit: int) {
    forall k :: k >= 1 ==> !SharedAt(s, Multiple(k, limit))
  }

  lemma CutsFront(s: seq<Entry>, limit: int)
    requires 1 <= limit < |s|
    ensures CutsClean(s, limit) <==> s[limit].pos != s[limit - 1].pos && CutsClean(s[limit..], limit)
  {
    var rest := s[limit..];
    assert Multiple(1, limit) == limit;
    assert SharedAt(s, Multiple(1, limit)) <==> s[limit].pos == s[limit - 1].pos;
    forall k | k >= 1 ensures SharedAt(rest, Multiple(k, limit)) <==> SharedAt(s, Multiple(k + 1, limit)) {
      NextMultiple(k, limit);
    }
    hide SharedAt, Multiple;
    if CutsClean(rest, limit) && !SharedAt(s, Multiple(1, limit)) {
      forall k | k >= 1 ensures !SharedAt(s, Multiple(k, limit)) {
        if k > 1 { assert !SharedAt(rest, Multiple(k - 1, limit)); }
      }
    }
    if CutsClean(s, limit) {
      forall k | k >= 1 ensures !SharedAt(rest, Multiple(k, limit)) {
        assert !SharedAt(s, Multiple(k + 1, limit));
      }
    }
  }

  lemma NextMultiple(k: int, limit: int)
    requires k >= 1 && limit >= 1
    ensures Multiple(k + 1, limit) == Multiple(k, limit) + limit && Multiple(k, limit) >= 1
  {
  }

  lemma CutsNothing(s: seq<Entry>, limit: int)
    requires limit >= 1 && |s| <= limit
    ensures CutsClean(s, limit)
  {
    forall k | k >= 1 ensures Multiple(k, limit) >= limit { if k > 1 { NextMultiple(k - 1, limit); } }
  }

  /** Whether pages end inside positions can be read off the store. */
  lemma {:induction false} NeverInsideExactlyWhen(entries: seq<Entry>, polls: seq<seq<Entry>>, cursor: Option<Position>, limit: int, pages: seq<Page>)
    requires Walk(polls, cursor, limit, pages) && Unchanged(entries, polls) && Complete(pages) && limit >= 1
    ensures NeverInside(entries, cursor, limit, pages) <==> CutsClean(Ahead(entries, cursor), limit)
    decreases |pages|
  {
    var page, ahead := pages[0], Ahead(entries, cursor);
    assert polls[0] == entries && page == PageEvents(entries, cursor, limit);
    InsideWhen(entries, cursor, limit);
    if page.next.None? {
      CutsNothing(ahead, limit);
    } else {
      var lost := SharedPositionIsLost(entries, cursor, limit);
      assert limit < |ahead|;
      CutsFront(ahead, limit);
      hide PageEvents, Ahead, EndsInside, CutsClean;
      assert Unchanged(entries, polls[1..]);
      NeverInsideExactlyWhen(entries, polls[1..], page.next, limit, pages[1..]);
      if lost == [] {
        assert ahead == page.entries + Ahead(entries, page.next);
        assert ahead[limit..] == Ahead(entries, page.next);
      }
    }
  }

  /** A completed run over a store that does not change delivers all of it if and
      only if the limit is at least one and the sorted store, cut at each multiple
      of the limit, has no position cut in two. Nothing else is asked of it. */
  lemma AllDeliveredExactlyWhen(entries: seq<Entry>, polls: seq<seq<Entry>>, limit: int, pages: seq<Page>)
    requires entries != [] && Walk(polls, None, limit, pages) && Unchanged(entries, polls) && Complete(pages)
    ensures Delivered(pages) == Sort(entries) <==> limit >= 1 && CutsClean(Sort(entries), limit)
  {
    SortNeverDescends(entries);
    NoCursor(Sort(entries));
    hide CutsClean, Sort, Less;
    if limit >= 1 {
      CutOffIsLost(entries, polls, None, limit, pages);
      NeverInsideExactlyWhen(entries, polls, None, limit, pages);
    } else {
      NoLimitNoDelivery(entries, polls, None, limit, pages);
    }
  }

  lemma {:induction false} Unfinished(entries: seq<Entry>, polls: seq<seq<Entry>>, cursor: Option<Position>, limit: int, pages: seq<Page>)
    requires Walk(polls, cursor, limit, pages) && Unchanged(entries, polls) && limit >= 1
    requires pages != [] && !Complete(pages)
    ensures Multiple(|pages|, limit) < |Ahead(entries, cursor)|
    decreases |pages|
  {
    var page := pages[0];
    assert polls[0] == entries && page == PageEvents(entries, cursor, limit);
    var lost := SharedPositionIsLost(entries, cursor, limit);
    if |pages| > 1 {
      hide PageEvents, Ahead;
      assert Unchanged(entries, polls[1..]);
      Unfinished(entries, polls[1..], page.next, limit, pages[1..]);
      NextMultiple(|pages| - 1, limit);
    }
  }

  /** A run over a store that does not change ends: it is complete once it has
      asked for as many entries as the store holds. */
  lemma RunEnds(entries: seq<Entry>, polls: seq<seq<Entry>>, limit: int, pages: seq<Page>)
    requires Walk(polls, None, limit, pages) && Unchanged(entries, polls) && limit >= 1
    requires pages != [] && |pages| * limit >= |entries|
    ensures Complete(pages)
  {
    SortNeverDescends(entries);
    NoCursor(Sort(entries));
    hide Sort, AfterOnly;
    if !Complete(pages) { Unfinished(entries, polls, None, limit, pages); }
  }

  lemma {:induction false} NoCursor(s: seq<Entry>)
    ensures AfterOnly(None, s) == s
  {
    if s != [] { NoCursor(s[1..]); }
  }

  // ---- past views ----

  type Time = int

  datatype Revision = Revision(id: nat, recordedAt: Time, text: string)

  predicate Later(a: Revision, b: Revision) {
    a.recordedAt > b.recordedAt || (a.recordedAt == b.recordedAt && a.id > b.id)
  }

  /** The first of the latest revisions recorded by then; ids break ties. */
  function SelectRevision(revisions: seq<Revision>, asOf: Time): Option<Revision> {
    if revisions == [] then None
    else
      var best := SelectRevision(revisions[..|revisions| - 1], asOf);
      var last := revisions[|revisions| - 1];
      if last.recordedAt <= asOf && (best.None? || Later(last, best.value)) then Some(last) else best
  }

  lemma {:induction false} SelectedIsLatest(revisions: seq<Revision>, asOf: Time)
    ensures SelectRevision(revisions, asOf).None? <==> forall r :: r in revisions ==> r.recordedAt > asOf
    ensures var chosen := SelectRevision(revisions, asOf);
            chosen.Some? ==>
              && chosen.value in revisions && chosen.value.recordedAt <= asOf
              && forall r :: r in revisions && r.recordedAt <= asOf ==>
                   r.recordedAt < chosen.value.recordedAt || (r.recordedAt == chosen.value.recordedAt && r.id <= chosen.value.id)
  {
    if revisions != [] {
      var init, last := revisions[..|revisions| - 1], revisions[|revisions| - 1];
      SelectedIsLatest(init, asOf);
      assert forall r :: r in revisions <==> r in init || r == last;
    }
  }

  /** A correction recorded after a past date leaves the view of that date alone. */
  lemma {:induction false} CorrectionsKeepPastViews(revisions: seq<Revision>, corrections: seq<Revision>, asOf: Time)
    requires forall r :: r in corrections ==> r.recordedAt > asOf
    ensures SelectRevision(revisions + corrections, asOf) == SelectRevision(revisions, asOf)
  {
    if corrections == [] {
      assert revisions + corrections == revisions;
    } else {
      var init := corrections[..|corrections| - 1];
      CorrectionsKeepPastViews(revisions, init, asOf);
      assert (revisions + corrections)[..|revisions + corrections| - 1] == revisions + init;
    }
  }
}
