/** Which keys can be built from fields, and when the stored text of a built key
    stands for that key alone among all keys that can be built. */
module BuiltKeys {
  import opened Options
  import opened Words
  import opened Identity

  // ---- values in normal form ----

  /** Words one space apart, none at the ends. */
  predicate Spaced(s: string) {
    SingleSpaced(s) && !StartsInSpace(s) && !EndsInSpace(s)
  }

  /** What is asked of case folding: parts of folded text are left alone, so are
      folded texts with a marker between them, and spacing stays as it is. */
  ghost predicate CaseFolds(fold: Fold) {
    LeavesParts(fold) && LeavesJoins(fold) && KeepsSpacing(fold)
  }

  ghost predicate LeavesParts(fold: Fold) {
    forall s: string, i: nat, j: nat :: i <= j <= |fold(s)| ==> fold(fold(s)[i..j]) == fold(s)[i..j]
  }

  ghost predicate LeavesJoins(fold: Fold) {
    forall x, y, t, name :: fold(x) == x && fold(y) == y && name in Names(t) ==> Fixed(fold, x + Marker(name) + y)
  }

  ghost predicate KeepsSpacing(fold: Fold) {
    forall s :: Spaced(s) ==> Spaced(fold(s)) && (fold(s) == "" <==> s == "")
  }

  predicate Fixed(fold: Fold, s: string) { fold(s) == s }

  lemma PartIsFixed(fold: Fold, s: string, i: nat, j: nat)
    requires CaseFolds(fold) && fold(s) == s && i <= j <= |s|
    ensures fold(s[i..j]) == s[i..j]
  {
    hide Spaced, Names;
    assert fold(fold(s)[i..j]) == fold(s)[i..j];
  }

  lemma JoinedIsFixed(fold: Fold, x: string, y: string, t: string, name: string)
    requires CaseFolds(fold) && fold(x) == x && fold(y) == y && name in Names(t)
    ensures fold(x + Marker(name) + y) == x + Marker(name) + y
  {
    hide Spaced, Names;
    assert Fixed(fold, x + Marker(name) + y);
  }

  lemma FoldedIsFixed(fold: Fold, s: string)
    requires CaseFolds(fold)
    ensures fold(fold(s)) == fold(s)
  {
    hide Spaced, Names;
    assert fold(s)[0..|fold(s)|] == fold(s);
  }

  lemma FoldKeepsSpacing(fold: Fold, s: string)
    requires CaseFolds(fold) && Spaced(s)
    ensures Spaced(fold(s)) && (fold(s) == "" <==> s == "")
  {
    hide Spaced, Names;
  }

  // ---- spacing of parts and joins ----

  lemma FrontIsSpaced(s: string, k: nat)
    requires Spaced(s) && k <= |s| && !EndsInSpace(s[..k])
    ensures Spaced(s[..k])
  {
    assert forall i :: 0 <= i < k ==> s[..k][i] == s[i];
  }

  lemma BackIsSpaced(s: string, k: nat)
    requires Spaced(s) && k <= |s| && !StartsInSpace(s[k..])
    ensures Spaced(s[k..])
  {
    assert forall i :: 0 <= i < |s| - k ==> s[k..][i] == s[k + i];
  }

  lemma JoinedIsSpaced(x: string, m: string, y: string)
    requires Spaced(x) && Spaced(y) && IsWord(m)
    ensures Spaced(x + m + y)
  {
    var all := x + m + y;
    assert forall i :: |x| <= i < |x| + |m| ==> all[i] == m[i - |x|] && !IsSpace(all[i]);
    forall i | 0 <= i < |all| && IsSpace(all[i]) ensures all[i] == ' ' && (i + 1 < |all| ==> !IsSpace(all[i + 1])) {
      if i < |x| {
        assert all[i] == x[i] && (i + 1 < |x| ==> all[i + 1] == x[i + 1]) && (i + 1 == |x| ==> EndsInSpace(x));
      } else {
        assert i >= |x| + |m|;
        var k := i - |x| - |m|;
        assert all[i] == y[k] && (k + 1 < |y| ==> all[i + 1] == y[k + 1]);
      }
    }
    assert all[0] == if x != "" then x[0] else m[0];
    assert all[|all| - 1] == if y != "" then y[|y| - 1] else m[|m| - 1];
  }

  lemma {:induction false} JoinIsSpaced(ws: seq<string>)
    requires forall w :: w in ws ==> IsWord(w)
    ensures Spaced(Join(' ', ws)) && (Join(' ', ws) == "" <==> ws == [])
  {
    if ws != [] {
      var first, more := ws[0], ws[1..];
      assert first in ws && forall w :: w in more ==> w in ws;
      assert Spaced(first);
      if more != [] {
        JoinIsSpaced(more);
        SpaceBetween(first, Join(' ', more));
      }
    }
  }

  lemma SpaceBetween(x: string, y: string)
    requires Spaced(x) && Spaced(y) && x != "" && y != ""
    ensures Spaced(x + [' '] + y)
  {
    var all := x + [' '] + y;
    assert forall i :: 0 <= i < |x| ==> all[i] == x[i];
    assert all[|x|] == ' ' && forall i :: 0 <= i < |y| ==> all[|x| + 1 + i] == y[i];
    assert all[|x| + 1] == y[0];
    forall i | 0 <= i < |all| && IsSpace(all[i]) ensures all[i] == ' ' && (i + 1 < |all| ==> !IsSpace(all[i + 1])) {
      if i > |x| { assert all[i] == y[i - |x| - 1]; }
    }
  }

  lemma SpacedIsStripped(s: string)
    requires Spaced(s)
    ensures Strip(s) == s && s == Join(' ', Split(s))
  {
    SpacedIsJoin(s);
  }

  // ---- the keys that can be built ----

  ghost predicate IsBuilt(fold: Fold, key: StrongKey) {
    exists fields :: KeyOf(fold, key.eventType, fields) == Keyed(key)
  }

  function RequiredCount(eventType: string): nat {
    match SpecOf(eventType)
    case None => 0
    case Some(spec) => |spec.required|
  }

  /** Values are well spaced, and required ones not blank. */
  ghost predicate Filled(cs: seq<Component>, required: nat) {
    forall i :: 0 <= i < |cs| ==> Spaced(cs[i].value) && (i < required ==> cs[i].value != "")
  }

  ghost predicate AllFixed(fold: Fold, cs: seq<Component>) {
    forall i :: 0 <= i < |cs| ==> fold(cs[i].value) == cs[i].value
  }

  lemma NamesDiffer(eventType: string)
    ensures forall i, j :: 0 <= i < j < |Names(eventType)| ==> Names(eventType)[i] != Names(eventType)[j]
  {
    assert "work_id"[1] == 'o' && "version"[1] == 'e' && "action"[0] == 'a' && "release_ref"[2] == 'l' && "product"[0] == 'p';
    assert |"phase"| == 5 && |"region"| == 6 && |"product"| == 7 && |"version"| == 7 && |"release_ref"| == 11;
    assert |"attribute"| == 9 && |"change_ref"| == 10 && |"effective_window"| == 16 && |"announcement_ref"| == 16;
    assert |"counterparty"| == 12 && |"action"| == 6 && |"result_key"| == 10 && |"conditions"| == 10 && |"work_id"| == 7;
    assert "result_key"[0] == 'r' && "conditions"[0] == 'c' && |"correction_ref"| == 14 && |"target_ref"| == 10;
  }

  lemma NormalOfRaw(fold: Fold, raw: string)
    requires CaseFolds(fold)
    ensures var v := Normalize(fold, raw); Spaced(v) && fold(v) == v && (v == "" <==> Strip(raw) == "")
  {
    var words := Split(Strip(raw));
    SplitGivesWords("", Strip(raw));
    assert forall w :: w in words ==> IsWord(w);
    JoinIsSpaced(words);
    WordsOfStrip(raw);
    BlankHasNoWords(raw);
    hide CaseFolds, Spaced, IsWord, Strip, Split, Join;
    FoldKeepsSpacing(fold, Join(' ', words));
    FoldedIsFixed(fold, Join(' ', words));
  }

  /** A key can be built from some fields if and only if it has the names of its
      type, every value is in normal form, and no required value is blank. */
  lemma BuiltExactlyWhen(fold: Fold, key: StrongKey)
    requires CaseFolds(fold)
    ensures IsBuilt(fold, key) <==>
      WellFormed(key) && Filled(key.components, RequiredCount(key.eventType)) && AllFixed(fold, key.components)
  {
    hide CaseFolds, Spaced, Normalize, Strip;
    if IsBuilt(fold, key) {
      var fields :| KeyOf(fold, key.eventType, fields) == Keyed(key);
      BuiltIsFilled(fold, key, fields);
    }
    if WellFormed(key) && Filled(key.components, RequiredCount(key.eventType)) && AllFixed(fold, key.components) {
      var fields := FieldsFor(fold, key);
    }
  }

  lemma BuiltIsFilled(fold: Fold, key: StrongKey, fields: map<string, string>)
    requires CaseFolds(fold) && KeyOf(fold, key.eventType, fields) == Keyed(key)
    ensures WellFormed(key) && Filled(key.components, RequiredCount(key.eventType)) && AllFixed(fold, key.components)
  {
    hide CaseFolds, Spaced, Normalize, Strip;
    BuiltKeysAreWellFormed(fold, key.eventType, fields);
    var cs := key.components;
    forall i | 0 <= i < |cs|
      ensures Spaced(cs[i].value) && fold(cs[i].value) == cs[i].value
      ensures i < RequiredCount(key.eventType) ==> cs[i].value != ""
    {
      var name := Names(key.eventType)[i];
      NormalOfRaw(fold, Raw(fields, name));
      if i < RequiredCount(key.eventType) {
        assert SpecOf(key.eventType).value.required[i] == name;
        assert !Missing(fields, name);
      }
    }
  }

  lemma FieldsFor(fold: Fold, key: StrongKey) returns (fields: map<string, string>)
    requires WellFormed(key) && Filled(key.components, RequiredCount(key.eventType)) && AllFixed(fold, key.components)
    ensures KeyOf(fold, key.eventType, fields) == Keyed(key)
  {
    var names, cs := Names(key.eventType), key.components;
    NamesDiffer(key.eventType);
    fields := FieldMap(cs);
    FieldMapHolds(cs);
    assert key.eventType != "other";
    hide Spaced, SpecOf, Names;
    forall i | 0 <= i < |cs| ensures names[i] in fields && fields[names[i]] == cs[i].value && Normalize(fold, cs[i].value) == cs[i].value {
      SpacedIsStripped(cs[i].value);
    }
    KeyFromFields(fold, key, fields);
  }

  function FieldMap(cs: seq<Component>): map<string, string> {
    if cs == [] then map[] else FieldMap(cs[..|cs| - 1])[cs[|cs| - 1].name := cs[|cs| - 1].value]
  }

  lemma {:induction false} FieldMapHolds(cs: seq<Component>)
    requires forall i, j :: 0 <= i < j < |cs| ==> cs[i].name != cs[j].name
    ensures forall i :: 0 <= i < |cs| ==> cs[i].name in FieldMap(cs) && FieldMap(cs)[cs[i].name] == cs[i].value
  {
    if cs != [] { FieldMapHolds(cs[..|cs| - 1]); }
  }

  lemma KeyFromFields(fold: Fold, key: StrongKey, fields: map<string, string>)
    requires WellFormed(key) && Filled(key.components, RequiredCount(key.eventType)) && key.eventType != "other"
    requires forall i :: 0 <= i < |key.components| ==>
      var name := Names(key.eventType)[i];
      && name in fields && fields[name] == key.components[i].value
      && Normalize(fold, key.components[i].value) == key.components[i].value
    ensures KeyOf(fold, key.eventType, fields) == Keyed(key)
  {
    var t, cs := key.eventType, key.components;
    var spec := SpecOf(t).value;
    forall i | 0 <= i < |spec.required| ensures !Missing(fields, spec.required[i]) {
      assert Names(t)[i] == spec.required[i] && cs[i].value != "";
      SpacedIsStripped(cs[i].value);
    }
    hide Spaced, Normalize, Strip, SpecOf;
    assert Components(fold, fields, Names(t)) == cs;
  }

  // ---- where the text of a key can be read in another way ----

  /** A marker in the value, at a cut that leaves well spaced parts. */
  predicate CutAt(v: string, k: int, m: string) {
    OccursAt(v, k, m) && !EndsInSpace(v[..k]) && !StartsInSpace(v[k + |m|..])
  }

  predicate EndsAt(cs: seq<Component>, required: nat, i: nat, k: int)
    requires i + 1 < |cs|
  {
    CutAt(cs[i].value, k, Marker(cs[i + 1].name)) && (i < required ==> k > 0)
  }

  predicate StartsAt(cs: seq<Component>, required: nat, i: nat, k: int)
    requires i < |cs|
  {
    var m := Marker(cs[i].name);
    CutAt(cs[i].value, k, m) && (i < required ==> k + |m| < |cs[i].value|)
  }

  /** Component `i` can end before a marker of the next one that it holds. */
  ghost predicate CutsNext(cs: seq<Component>, required: nat, i: nat) {
    i + 1 < |cs| && exists k :: EndsAt(cs, required, i, k)
  }

  /** Component `i` can start after a marker of its own that it holds. */
  ghost predicate CutsOwn(cs: seq<Component>, required: nat, i: nat) {
    i < |cs| && exists k :: StartsAt(cs, required, i, k)
  }

  /** Some component can hand text to its neighbour, no required one being left
      blank. The first component has nothing before it to hand text to. */
  ghost predicate HasCut(cs: seq<Component>, required: nat) {
    exists i: nat :: CutsNext(cs, required, i) || (i > 0 && CutsOwn(cs, required, i))
  }

  function OneLess(required: nat): nat { if required > 0 then required - 1 else 0 }

  lemma LaterCuts(cs: seq<Component>, required: nat, i: nat)
    requires cs != []
    ensures CutsNext(cs[1..], OneLess(required), i) ==> CutsNext(cs, required, i + 1)
    ensures CutsOwn(cs[1..], OneLess(required), i) ==> CutsOwn(cs, required, i + 1)
  {
    var ds := cs[1..];
    assert forall i :: 0 <= i < |ds| ==> ds[i] == cs[i + 1];
    hide CutAt;
    if CutsNext(ds, OneLess(required), i) {
      var k :| EndsAt(ds, OneLess(required), i, k);
      assert EndsAt(cs, required, i + 1, k);
    }
    if CutsOwn(ds, OneLess(required), i) {
      var k :| StartsAt(ds, OneLess(required), i, k);
      assert StartsAt(cs, required, i + 1, k);
    }
  }

  /** Where the marker at the shifted start lies, and what is on its two sides. */
  datatype Place = Inside(k: nat) | Behind(shift: string)

  lemma MarkerPlace(m: string, v: string, rest: string, shift: string, w: string, more: string) returns (place: Place)
    requires IsWord(m) && m[0] == '|' && Plain(m[1..]) && (rest == "" || rest[0] == '|')
    requires shift != "" && m + v + rest == shift + (m + w + more)
    ensures match place
      case Inside(k) => OccursAt(v, k, m) && shift == m + v[..k] && v[k + |m|..] + rest == w + more
      case Behind(x) => rest != "" && rest == x + more && x != "" && |x| >= |m + w| && x[|x| - |m + w|..] == m + w
  {
    var text := m + v + rest;
    var at, stop := |shift|, |m| + |v|;
    assert text[at..] == m + w + more;
    assert OccursAt(text, at, m) && OccursAt(text, 0, m);
    assert text[stop..] == rest;
    hide IsWord;
    BarSplits(text, 0, m, at);
    BarSplits(text, at, m, stop);
    hide Plain;
    if at + |m| <= stop {
      PlaceInside(m, v, rest, shift, w, more);
      place := Inside(at - |m|);
    } else {
      place := Behind(PlaceBehind(m, v, rest, shift, w, more));
    }
  }

  lemma PlaceInside(m: string, v: string, rest: string, shift: string, w: string, more: string)
    requires m + v + rest == shift + (m + w + more) && |m| <= |shift| && |shift| <= |v|
    ensures var k := |shift| - |m|; OccursAt(v, k, m) && shift == m + v[..k] && v[k + |m|..] + rest == w + more
  {
    var text := m + v + rest;
    var k := |shift| - |m|;
    assert v == text[|m|..|m| + |v|];
    assert text[|shift|..] == m + w + more;
    assert text[|shift|..|shift| + |m|] == m;
    assert v[k..k + |m|] == text[|shift|..|shift| + |m|];
    assert shift == text[..|shift|] == m + v[..k];
    assert text[|shift| + |m|..] == w + more;
    assert v[k + |m|..] + rest == text[|shift| + |m|..];
  }

  function PlaceBehind(m: string, v: string, rest: string, shift: string, w: string, more: string): (x: string)
    requires m + v + rest == shift + (m + w + more) && |m| + |v| <= |shift| && m != ""
    ensures rest != "" && rest == x + more && x != "" && |x| >= |m + w| && x[|x| - |m + w|..] == m + w
  {
    var text := m + v + rest;
    var stop := |m| + |v|;
    var x := text[stop..|shift|] + (m + w);
    assert text[|shift|..] == m + w + more;
    assert rest == text[stop..] == text[stop..|shift|] + text[|shift|..];
    assert rest == x + more;
    x
  }

  /** A part of a value is followed by what another reading starts with there: no
      space, as that reading is well spaced too. */
  lemma StartsTogether(q: string, rest: string, w: string, more: string)
    requires q + rest == w + more && !StartsInSpace(w)
    requires (rest == "" || rest[0] == '|') && (more == "" || more[0] == '|')
    ensures !StartsInSpace(q)
  {
    if q != "" {
      assert (q + rest)[0] == q[0];
      assert (w + more)[0] == if w != "" then w[0] else more[0];
    }
  }

  /** The first component can start after its own marker, or the rest fits in the
      same way. */
  lemma ShiftedStep(a: seq<Component>, b: seq<Component>, shift: string, required: nat) returns (further: Option<string>)
    requires a != [] && SameNames(a, b) && NamesAreWords(a)
    requires Spaced(b[0].value) && (required > 0 ==> b[0].value != "")
    requires shift != "" && !EndsInSpace(shift) && Tail(a) == shift + Tail(b)
    ensures match further
      case None => CutsOwn(a, required, 0)
      case Some(x) => x != "" && !EndsInSpace(x) && Tail(a[1..]) == x + Tail(b[1..])
  {
    FirstAlike(a, b);
    FirstTail(a);
    FirstTail(b);
    WellSpaced(b[0].value);
    hide *;
    var m, w := Marker(a[0].name), b[0].value;
    var place := MarkerPlace(m, a[0].value, Tail(a[1..]), shift, w, Tail(b[1..]));
    match place {
      case Inside(k) => further := ShiftedInside(a, shift, w, Tail(b[1..]), required, k);
      case Behind(x) =>
        EndsWithValue(x, m, w);
        further := Some(x);
    }
  }

  lemma FirstAlike(a: seq<Component>, b: seq<Component>)
    requires a != [] && SameNames(a, b) && NamesAreWords(a)
    ensures b != [] && b[0].name == a[0].name
    ensures var m := Marker(a[0].name); IsWord(m) && m[0] == '|' && Plain(m[1..])
  {
    MarkerIsWord(a[0].name);
  }

  lemma FirstTail(cs: seq<Component>)
    requires cs != []
    ensures Tail(cs) == Marker(cs[0].name) + cs[0].value + Tail(cs[1..])
         == Marker(cs[0].name) + (cs[0].value + Tail(cs[1..]))
    ensures var rest := Tail(cs[1..]); rest == "" || rest[0] == '|'
  {
    TailStartsWithBar(cs[1..]);
  }

  lemma ShiftedInside(a: seq<Component>, shift: string, w: string, more: string, required: nat, k: nat)
    returns (further: Option<string>)
    requires a != [] && OccursAt(a[0].value, k, Marker(a[0].name)) && (more == "" || more[0] == '|')
    requires !StartsInSpace(w) && !EndsInSpace(w) && (required > 0 ==> w != "") && !EndsInSpace(shift)
    requires var m, v := Marker(a[0].name), a[0].value;
      shift == m + v[..k] && v[k + |m|..] + Tail(a[1..]) == w + more
    ensures match further
      case None => CutsOwn(a, required, 0)
      case Some(x) => x != "" && !EndsInSpace(x) && Tail(a[1..]) == x + more
  {
    var m, v, rest := Marker(a[0].name), a[0].value, Tail(a[1..]);
    FirstTail(a);
    EndsTogether(shift, m, v[..k]);
    StartsTogether(v[k + |m|..], rest, w, more);
    hide *;
    if 0 < required && k + |m| == |v| {
      assert v[k + |m|..] == "" && "" + rest == rest;
      further := Some(w);
    } else {
      StartHere(a, required, k);
      further := None;
    }
  }

  /** Well spaced components that fit into a text later than where it starts: one
      of them can start after a marker of its own. */
  lemma {:induction false} ShiftedCut(a: seq<Component>, b: seq<Component>, shift: string, required: nat) returns (i: nat)
    requires a != [] && SameNames(a, b) && NamesAreWords(a)
    requires Filled(a, required) && Filled(b, required)
    requires shift != "" && !EndsInSpace(shift) && Tail(a) == shift + Tail(b)
    ensures CutsOwn(a, required, i)
  {
    var ra, rb := a[1..], b[1..];
    RestIsAlike(a, b);
    RestIsFilled(a, required);
    RestIsFilled(b, required);
    hide *;
    var further := ShiftedStep(a, b, shift, required);
    match further {
      case None => i := 0;
      case Some(x) =>
        NotEmptyTail(ra, x, Tail(rb));
        var j := ShiftedCut(ra, rb, x, OneLess(required));
        LaterCuts(a, required, j);
        i := j + 1;
    }
  }

  lemma RestIsAlike(a: seq<Component>, b: seq<Component>)
    requires a != [] && SameNames(a, b) && NamesAreWords(a)
    ensures SameNames(a[1..], b[1..]) && NamesAreWords(a[1..])
  {
  }

  lemma NotEmptyTail(cs: seq<Component>, x: string, more: string)
    requires Tail(cs) == x + more && x != ""
    ensures cs != []
  {
  }

  lemma StartHere(cs: seq<Component>, required: nat, k: nat)
    requires cs != [] && OccursAt(cs[0].value, k, Marker(cs[0].name))
    requires var m := Marker(cs[0].name);
      && !EndsInSpace(cs[0].value[..k]) && !StartsInSpace(cs[0].value[k + |m|..])
      && (0 < required ==> k + |m| != |cs[0].value|)
    ensures CutsOwn(cs, required, 0)
  {
    hide EndsInSpace, StartsInSpace;
    assert StartsAt(cs, required, 0, k);
  }

  lemma EndsWithValue(x: string, m: string, w: string)
    requires |x| >= |m + w| && x[|x| - |m + w|..] == m + w && IsWord(m) && !EndsInSpace(w)
    ensures !EndsInSpace(x)
  {
    assert x[|x| - 1] == (m + w)[|m + w| - 1];
    assert (m + w)[|m + w| - 1] == if w != "" then w[|w| - 1] else m[|m| - 1];
  }

  predicate NamesAreWords(cs: seq<Component>) {
    forall i :: 0 <= i < |cs| ==> SpaceFree(cs[i].name) && Plain(cs[i].name)
  }

  lemma MarkerIsWord(name: string)
    requires SpaceFree(name) && Plain(name)
    ensures IsWord(Marker(name)) && Marker(name)[0] == '|' && Plain(Marker(name)[1..])
  {
    var m := Marker(name);
    assert forall i :: 1 <= i <= |name| ==> m[i] == name[i - 1];
    assert m[|m| - 1] == '=';
  }

  lemma RestIsFilled(cs: seq<Component>, required: nat)
    requires cs != [] && Filled(cs, required)
    ensures Filled(cs[1..], OneLess(required)) && Spaced(cs[0].value) && (required > 0 ==> cs[0].value != "")
  {
    hide Spaced;
    assert forall i :: 0 <= i < |cs[1..]| ==> cs[1..][i] == cs[i + 1];
  }

  lemma WellSpaced(s: string)
    requires Spaced(s)
    ensures !StartsInSpace(s) && !EndsInSpace(s)
  {
  }

  lemma EndsTogether(shift: string, m: string, p: string)
    requires shift == m + p && !EndsInSpace(shift)
    ensures !EndsInSpace(p)
  {
    if p != "" { assert shift[|shift| - 1] == p[|p| - 1]; }
  }

  /** Two well spaced readings of one text: the first one has a cut. */
  lemma {:induction false} TwinHasCut(a: seq<Component>, b: seq<Component>, required: nat)
    requires SameNames(a, b) && NamesAreWords(a) && Filled(a, required) && Filled(b, required)
    requires Tail(a) == Tail(b) && a != b
    ensures HasCut(a, required)
  {
    assert a != [];
    var v, w := a[0].value, b[0].value;
    var ra, rb := a[1..], b[1..];
    FrontsAgree(a, b);
    RestIsFilled(a, required);
    RestIsFilled(b, required);
    RestIsAlike(a, b);
    assert a[0].name == b[0].name && a[0] == Component(a[0].name, v) && b[0] == Component(b[0].name, w);
    assert a == [a[0]] + ra && b == [b[0]] + rb;
    hide *;
    if |v| == |w| {
      SameFront(v, Tail(ra), w, Tail(rb));
      TwinHasCut(ra, rb, OneLess(required));
      LaterHasCut(a, required);
    } else if |w| < |v| {
      LongerCutsNext(a, b, required);
      CutIsCut(a, required, 0);
    } else {
      LongerFront(w, Tail(rb), v, Tail(ra));
      EndOfPart(w, |v|);
      NotEmptyTail(ra, w[|v|..], Tail(rb));
      var j := ShiftedCut(ra, rb, w[|v|..], OneLess(required));
      LaterCuts(a, required, j);
      CutIsCut(a, required, j + 1);
    }
  }

  lemma FrontsAgree(a: seq<Component>, b: seq<Component>)
    requires a != [] && SameNames(a, b) && Tail(a) == Tail(b)
    ensures a[0].value + Tail(a[1..]) == b[0].value + Tail(b[1..])
  {
    assert b[0].name == a[0].name;
    FirstTail(a);
    FirstTail(b);
    hide *;
    BehindSame(Marker(a[0].name), a[0].value + Tail(a[1..]), b[0].value + Tail(b[1..]));
  }

  lemma BehindSame(m: string, x: string, y: string)
    requires m + x == m + y
    ensures x == y
  {
    assert (m + x)[|m|..] == x && (m + y)[|m|..] == y;
  }

  lemma EndOfPart(s: string, k: nat)
    requires Spaced(s) && k < |s|
    ensures !EndsInSpace(s[k..])
  {
    assert s[k..][|s| - k - 1] == s[|s| - 1];
  }

  lemma CutIsCut(cs: seq<Component>, required: nat, i: nat)
    requires CutsNext(cs, required, i) || (i > 0 && CutsOwn(cs, required, i))
    ensures HasCut(cs, required)
  {
  }

  lemma LaterHasCut(cs: seq<Component>, required: nat)
    requires cs != [] && HasCut(cs[1..], OneLess(required))
    ensures HasCut(cs, required)
  {
    hide CutsNext, CutsOwn;
    var i: nat :| CutsNext(cs[1..], OneLess(required), i) || (i > 0 && CutsOwn(cs[1..], OneLess(required), i));
    LaterCuts(cs, required, i);
    CutIsCut(cs, required, i + 1);
  }

  lemma LongerCutsNext(a: seq<Component>, b: seq<Component>, required: nat)
    requires a != [] && SameNames(a, b) && NamesAreWords(a) && Spaced(b[0].value) && (required > 0 ==> b[0].value != "")
    requires Filled(b[1..], OneLess(required))
    requires a[0].value + Tail(a[1..]) == b[0].value + Tail(b[1..]) && |b[0].value| < |a[0].value|
    ensures CutsNext(a, required, 0)
  {
    var v, w := a[0].value, b[0].value;
    var ta, tb := Tail(a[1..]), Tail(b[1..]);
    TailStartsWithBar(a[1..]);
    TailStartsWithBar(b[1..]);
    LongerFront(v, ta, w, tb);
    var x := v[|w|..];
    var m := Marker(b[1].name);
    assert b[1].name == a[1].name && b[1..][0] == b[1];
    MarkerIsWord(a[1].name);
    SecondTail(b);
    var w2, more := b[1].value, Tail(b[2..]);
    TailStartsWithBar(b[2..]);
    WellSpaced(w);
    WellSpaced(w2);
    hide *;
    MarkerAtFront(x, ta, m, w2 + more);
    StartsTogether(x[|m|..], ta, w2, more);
    CutHere(a, required, w, m);
  }

  /** A text that starts with the marker runs on past it. */
  lemma MarkerAtFront(x: string, ta: string, m: string, tail: string)
    requires x != "" && x + ta == m + tail && IsWord(m) && Plain(m[1..]) && (ta == "" || ta[0] == '|')
    ensures |m| <= |x| && x[..|m|] == m && x[|m|..] + ta == tail
  {
    var text := m + tail;
    assert OccursAt(text, 0, m);
    hide IsWord;
    assert text[|x|..] == ta;
    BarSplits(text, 0, m, |x|);
    hide Plain;
    assert x == text[..|x|];
    assert x[..|m|] == text[..|m|] == m;
    assert text[|m|..] == tail && (x + ta)[|m|..] == x[|m|..] + ta;
  }

  lemma CutHere(cs: seq<Component>, required: nat, w: string, m: string)
    requires |cs| > 1 && m == Marker(cs[1].name) && |w| + |m| <= |cs[0].value|
    requires var v := cs[0].value; v[..|w|] == w && v[|w|..][..|m|] == m && !StartsInSpace(v[|w|..][|m|..])
    requires !EndsInSpace(w) && (required > 0 ==> w != "")
    ensures CutsNext(cs, required, 0)
  {
    var v := cs[0].value;
    assert v[|w|..|w| + |m|] == v[|w|..][..|m|];
    assert v[|w| + |m|..] == v[|w|..][|m|..];
    hide StartsInSpace, EndsInSpace;
    assert EndsAt(cs, required, 0, |w|);
  }

  lemma SecondTail(b: seq<Component>)
    requires |b| > 1
    ensures Tail(b[1..]) == Marker(b[1].name) + (b[1].value + Tail(b[2..]))
  {
    assert b[1..][0] == b[1] && b[1..][1..] == b[2..];
  }

  // ---- a cut gives another key ----

  /** The two components after text has moved from one to the other. */
  function Moved(cs: seq<Component>, i: nat, v: string, w: string): seq<Component>
    requires i + 1 < |cs|
  {
    cs[i := cs[i].(value := v)][i + 1 := cs[i + 1].(value := w)]
  }

  ghost predicate Twin(fold: Fold, a: seq<Component>, b: seq<Component>, required: nat) {
    SameNames(a, b) && a != b && Tail(a) == Tail(b) && Filled(b, required) && AllFixed(fold, b)
  }

  lemma MovedIsTwin(fold: Fold, cs: seq<Component>, required: nat, i: nat, v: string, w: string)
    requires i + 1 < |cs| && Filled(cs, required) && AllFixed(fold, cs) && Fits(fold, cs, required, i, v, w)
    ensures Twin(fold, cs, Moved(cs, i, v, w), required)
  {
    hide Tail, Spaced;
    MoveBetween(cs, i, v, w);
    assert Moved(cs, i, v, w)[i].value != cs[i].value;
  }

  /** A normal value taken apart at a cut: the parts are normal again. */
  lemma CutParts(fold: Fold, name: string, v: string, k: int)
    requires CaseFolds(fold) && Spaced(v) && fold(v) == v && CutAt(v, k, Marker(name))
    ensures var p, q := v[..k], v[k + |Marker(name)|..];
      && Spaced(p) && Spaced(q) && fold(p) == p && fold(q) == q && v == p + Marker(name) + q
  {
    var m := Marker(name);
    assert OccursAt(v, k, m) && 0 <= k <= |v| - |m|;
    CutIsSpaced(v, k, m);
    hide Spaced, CaseFolds, CutAt, Marker;
    SplitAt(v, k, m);
    hide *;
    PartIsFixed(fold, v, 0, k);
    PartIsFixed(fold, v, k + |m|, |v|);
    assert v[0..k] == v[..k] && v[k + |m|..|v|] == v[k + |m|..];
  }

  lemma CutIsSpaced(v: string, k: int, m: string)
    requires Spaced(v) && CutAt(v, k, m)
    ensures Spaced(v[..k]) && Spaced(v[k + |m|..])
  {
    FrontIsSpaced(v, k);
    BackIsSpaced(v, k + |m|);
  }

  lemma JoinedIsNormal(fold: Fold, t: string, name: string, x: string, y: string)
    requires CaseFolds(fold) && name in Names(t) && SpaceFree(name) && Plain(name)
    requires Spaced(x) && Spaced(y) && fold(x) == x && fold(y) == y
    ensures var joined := x + Marker(name) + y; Spaced(joined) && fold(joined) == joined && joined != ""
  {
    hide CaseFolds, Spaced, Names;
    MarkerIsWord(name);
    JoinedIsSpaced(x, Marker(name), y);
    JoinedIsFixed(fold, x, y, t, name);
  }

  lemma Regroup(a: string, m: string, b: string, n: string, c: string)
    ensures a + m + (b + n + c) == (a + m + b) + n + c
  {
  }

  /** What a value of a well-formed list is. */
  lemma ValueIsNormal(fold: Fold, cs: seq<Component>, required: nat, i: nat)
    requires i < |cs| && Filled(cs, required) && AllFixed(fold, cs) && NamesAreWords(cs)
    ensures Spaced(cs[i].value) && fold(cs[i].value) == cs[i].value && SpaceFree(cs[i].name) && Plain(cs[i].name)
    ensures i < required ==> cs[i].value != ""
  {
  }

  lemma NextCut(cs: seq<Component>, required: nat, i: nat) returns (k: nat)
    requires CutsNext(cs, required, i)
    ensures var m := Marker(cs[i + 1].name);
      |m| > 0 && k + |m| <= |cs[i].value| && CutAt(cs[i].value, k, m) && (i < required ==> k > 0)
  {
    k :| EndsAt(cs, required, i, k);
  }

  lemma OwnCut(cs: seq<Component>, required: nat, i: nat) returns (k: nat)
    requires CutsOwn(cs, required, i)
    ensures var m := Marker(cs[i].name);
      |m| > 0 && k + |m| <= |cs[i].value| && CutAt(cs[i].value, k, m) && (i < required ==> k + |m| < |cs[i].value|)
  {
    k :| StartsAt(cs, required, i, k);
  }

  /** Two neighbours' texts that may take the places of theirs. */
  ghost predicate Fits(fold: Fold, cs: seq<Component>, required: nat, i: nat, v: string, w: string)
    requires i + 1 < |cs|
  {
    var m := Marker(cs[i + 1].name);
    && v + m + w == cs[i].value + m + cs[i + 1].value
    && v != cs[i].value && Spaced(v) && Spaced(w) && fold(v) == v && fold(w) == w
    && (i < required ==> v != "") && (i + 1 < required ==> w != "")
  }

  lemma NextCutFits(fold: Fold, t: string, cs: seq<Component>, required: nat, i: nat) returns (p: string, joined: string)
    requires CaseFolds(fold) && Filled(cs, required) && AllFixed(fold, cs) && NamesAreWords(cs)
    requires i + 1 < |cs| && CutsNext(cs, required, i) && cs[i + 1].name in Names(t)
    ensures Fits(fold, cs, required, i, p, joined)
  {
    var name, v, u := cs[i + 1].name, cs[i].value, cs[i + 1].value;
    hide CaseFolds, Filled, AllFixed, NamesAreWords, CutsNext, Names, Marker, CutAt, Spaced, SpaceFree, Plain;
    var m := Marker(name);
    var k := NextCut(cs, required, i);
    ValueIsNormal(fold, cs, required, i);
    ValueIsNormal(fold, cs, required, i + 1);
    CutParts(fold, name, v, k);
    var q := v[k + |m|..];
    p := v[..k];
    JoinedIsNormal(fold, t, name, q, u);
    Regroup(p, m, q, m, u);
    joined := q + m + u;
  }

  lemma OwnCutFits(fold: Fold, t: string, cs: seq<Component>, required: nat, i: nat) returns (joined: string, q: string)
    requires CaseFolds(fold) && Filled(cs, required) && AllFixed(fold, cs) && NamesAreWords(cs)
    requires i + 1 < |cs| && CutsOwn(cs, required, i + 1) && cs[i + 1].name in Names(t)
    ensures Fits(fold, cs, required, i, joined, q)
  {
    var name, u, v := cs[i + 1].name, cs[i].value, cs[i + 1].value;
    hide CaseFolds, Filled, AllFixed, NamesAreWords, CutsOwn, Names, Marker, CutAt, Spaced, SpaceFree, Plain;
    var m := Marker(name);
    var k := OwnCut(cs, required, i + 1);
    ValueIsNormal(fold, cs, required, i);
    ValueIsNormal(fold, cs, required, i + 1);
    CutParts(fold, name, v, k);
    var p := v[..k];
    q := v[k + |m|..];
    JoinedIsNormal(fold, t, name, u, p);
    Regroup(u, m, p, m, q);
    joined := u + m + p;
    Longer(u, m, p);
  }

  lemma Longer(u: string, m: string, p: string)
    requires m != ""
    ensures u + m + p != u
  {
    assert |u + m + p| > |u|;
  }

  // ---- the theorem ----

  lemma NamesAreSpaceFree(eventType: string)
    ensures forall i :: 0 <= i < |Names(eventType)| ==> SpaceFree(Names(eventType)[i])
  {
    FirstNames();
    MoreNames();
    hide SpaceFree;
  }

  lemma FirstNames()
    ensures SpaceFree("work_id") && SpaceFree("version") && SpaceFree("action") && SpaceFree("release_ref") && SpaceFree("product")
    ensures SpaceFree("phase") && SpaceFree("region") && SpaceFree("attribute") && SpaceFree("change_ref")
  {
  }

  lemma MoreNames()
    ensures SpaceFree("effective_window") && SpaceFree("announcement_ref") && SpaceFree("counterparty")
    ensures SpaceFree("result_key") && SpaceFree("conditions") && SpaceFree("correction_ref") && SpaceFree("target_ref")
  {
  }

  lemma WellFormedNames(key: StrongKey)
    requires WellFormed(key)
    ensures NamesAreWords(key.components)
    ensures forall i :: 0 <= i < |key.components| ==> key.components[i].name in Names(key.eventType)
  {
    TableIsPlain(key.eventType);
    NamesAreSpaceFree(key.eventType);
    hide Names, SpecOf, SpaceFree, Plain;
  }

  /** Some component of the key can hand text to its neighbour. */
  ghost predicate Splittable(key: StrongKey) {
    HasCut(key.components, RequiredCount(key.eventType))
  }

  /** Among the keys that can be built from fields, the stored text of a key
      stands for that key alone if and only if no value holds its own marker, or
      that of the next component, at a cut that leaves well spaced parts and no
      required component blank. */
  lemma BuiltTextIsFaithfulExactlyWhen(fold: Fold, key: StrongKey)
    requires CaseFolds(fold) && IsBuilt(fold, key)
    ensures (forall other :: IsBuilt(fold, other) && KeyString(other) == KeyString(key) ==> CanAutoMerge(key, other))
       <==> !Splittable(key)
  {
    var cs, required := key.components, RequiredCount(key.eventType);
    BuiltExactlyWhen(fold, key);
    WellFormedNames(key);
    hide CaseFolds, IsBuilt, RequiredCount, WellFormed, CutsNext, CutsOwn, Filled, AllFixed, KeyString;
    if Splittable(key) {
      var b := SplittableHasTwin(fold, key);
      var other := StrongKey(key.eventType, b);
      TwinIsBuilt(fold, key, other);
      assert IsBuilt(fold, other) && KeyString(other) == KeyString(key) && !CanAutoMerge(key, other);
    } else {
      forall other | IsBuilt(fold, other) && KeyString(other) == KeyString(key) ensures CanAutoMerge(key, other) {
        BuiltExactlyWhen(fold, other);
        TextSplits(key, other);
        SameTypeSameNames(key, other);
        if cs != other.components { TwinHasCut(cs, other.components, required); }
      }
    }
  }

  lemma SplittableHasTwin(fold: Fold, key: StrongKey) returns (b: seq<Component>)
    requires CaseFolds(fold) && IsBuilt(fold, key) && Splittable(key)
    ensures Twin(fold, key.components, b, RequiredCount(key.eventType))
  {
    var cs, required := key.components, RequiredCount(key.eventType);
    hide CaseFolds, IsBuilt, Filled, AllFixed, CutsNext, CutsOwn, WellFormed, RequiredCount, Names, NamesAreWords, Twin;
    BuiltExactlyWhen(fold, key);
    WellFormedNames(key);
    var i: nat :| CutsNext(cs, required, i) || (i > 0 && CutsOwn(cs, required, i));
    hide HasCut;
    CutInRange(cs, required, i);
    if CutsNext(cs, required, i) {
      var p, joined := NextCutFits(fold, key.eventType, cs, required, i);
      MovedIsTwin(fold, cs, required, i, p, joined);
      b := Moved(cs, i, p, joined);
    } else {
      var joined, q := OwnCutFits(fold, key.eventType, cs, required, i - 1);
      MovedIsTwin(fold, cs, required, i - 1, joined, q);
      b := Moved(cs, i - 1, joined, q);
    }
  }

  lemma CutInRange(cs: seq<Component>, required: nat, i: nat)
    ensures CutsNext(cs, required, i) ==> i + 1 < |cs|
    ensures CutsOwn(cs, required, i) ==> i < |cs|
  {
  }

  lemma TwinIsBuilt(fold: Fold, key: StrongKey, other: StrongKey)
    requires CaseFolds(fold) && WellFormed(key) && other.eventType == key.eventType
    requires Twin(fold, key.components, other.components, RequiredCount(key.eventType))
    ensures IsBuilt(fold, other) && KeyString(other) == KeyString(key) && !CanAutoMerge(key, other)
  {
    hide CaseFolds, Filled, AllFixed, Tail, KeyString;
    assert WellFormed(other);
    BuiltExactlyWhen(fold, other);
    TextSplits(key, other);
  }

  lemma SameTypeSameNames(a: StrongKey, b: StrongKey)
    requires WellFormed(a) && WellFormed(b) && a.eventType == b.eventType
    ensures SameNames(a.components, b.components)
  {
  }

  // ---- examples ----

  function FoldWith(f: char -> char, s: string): (t: string)
    ensures |t| == |s| && forall i :: 0 <= i < |s| ==> t[i] == f(s[i])
  {
    seq(|s|, i requires 0 <= i < |s| => f(s[i]))
  }

  predicate IsLower(c: char) { 'a' <= c <= 'z' || c == '_' }

  predicate AllLower(s: string) { forall i :: 0 <= i < |s| ==> IsLower(s[i]) }

  lemma FirstNamesAreLower()
    ensures AllLower("work_id") && AllLower("version") && AllLower("action") && AllLower("release_ref") && AllLower("product")
    ensures AllLower("phase") && AllLower("region") && AllLower("attribute") && AllLower("change_ref")
  {
  }

  lemma MoreNamesAreLower()
    ensures AllLower("effective_window") && AllLower("announcement_ref") && AllLower("counterparty")
    ensures AllLower("result_key") && AllLower("conditions") && AllLower("correction_ref") && AllLower("target_ref")
  {
  }

  lemma NamesAreLower(t: string, name: string)
    requires name in Names(t)
    ensures AllLower(name)
  {
    FirstNamesAreLower();
    MoreNamesAreLower();
    hide AllLower;
  }

  /** Folding that settles at once. */
  ghost predicate SettlesAtOnce(f: char -> char) {
    forall c :: f(f(c)) == f(c)
  }

  /** It leaves space and the characters of markers alone. */
  ghost predicate LeavesAlone(f: char -> char) {
    forall c :: (IsSpace(c) || IsSpace(f(c)) || IsLower(c) || c == '|' || c == '=') ==> f(c) == c
  }

  /** Folding character by character is such a folding, if it settles at once and
      leaves space and the characters of markers alone. */
  lemma CharactersFold(f: char -> char)
    requires SettlesAtOnce(f) && LeavesAlone(f)
    ensures CaseFolds(s => FoldWith(f, s))
  {
    var fold: Fold := s => FoldWith(f, s);
    hide SettlesAtOnce, LeavesAlone, LeavesParts, LeavesJoins, KeepsSpacing;
    PartsStay(f, fold);
    JoinsStay(f, fold);
    SpacingsStay(f, fold);
  }

  ghost predicate FoldsWith(f: char -> char, fold: Fold) {
    forall s :: fold(s) == FoldWith(f, s)
  }

  lemma PartsStay(f: char -> char, fold: Fold)
    requires SettlesAtOnce(f) && FoldsWith(f, fold)
    ensures LeavesParts(fold)
  {
    hide SettlesAtOnce, FoldWith;
    forall s: string, i: nat, j: nat | i <= j <= |fold(s)| ensures fold(fold(s)[i..j]) == fold(s)[i..j] {
      PartStays(f, s, i, j);
    }
  }

  lemma JoinsStay(f: char -> char, fold: Fold)
    requires LeavesAlone(f) && FoldsWith(f, fold)
    ensures LeavesJoins(fold)
  {
    hide LeavesAlone, FoldWith, Names, AllLower, Marker;
    forall x, y, t, name | fold(x) == x && fold(y) == y && name in Names(t) ensures Fixed(fold, x + Marker(name) + y) {
      NamesAreLower(t, name);
      JoinedStays(f, x, name, y);
    }
  }

  lemma SpacingsStay(f: char -> char, fold: Fold)
    requires LeavesAlone(f) && FoldsWith(f, fold)
    ensures KeepsSpacing(fold)
  {
    hide LeavesAlone, FoldWith, Spaced;
    forall s | Spaced(s) ensures Spaced(fold(s)) && (fold(s) == "" <==> s == "") {
      SpacingStays(f, s);
    }
  }

  lemma PartStays(f: char -> char, s: string, i: nat, j: nat)
    requires SettlesAtOnce(f) && i <= j <= |s|
    ensures FoldWith(f, FoldWith(f, s)[i..j]) == FoldWith(f, s)[i..j]
  {
    assert forall k :: 0 <= k < j - i ==> FoldWith(f, s)[i..j][k] == f(s[i + k]);
  }

  lemma SpacingStays(f: char -> char, s: string)
    requires LeavesAlone(f) && Spaced(s)
    ensures Spaced(FoldWith(f, s)) && (FoldWith(f, s) == "" <==> s == "")
  {
    var t := FoldWith(f, s);
    assert forall i :: 0 <= i < |s| ==> (IsSpace(t[i]) <==> IsSpace(s[i])) && (IsSpace(s[i]) ==> t[i] == s[i]);
    hide IsSpace;
  }

  lemma JoinedStays(f: char -> char, x: string, name: string, y: string)
    requires LeavesAlone(f) && AllLower(name) && FoldWith(f, x) == x && FoldWith(f, y) == y
    ensures FoldWith(f, x + Marker(name) + y) == x + Marker(name) + y
  {
    var m := Marker(name);
    var all := x + m + y;
    forall i | 0 <= i < |m| ensures f(m[i]) == m[i] {
      if 0 < i <= |name| { assert m[i] == name[i - 1]; }
    }
    forall i | 0 <= i < |all| ensures f(all[i]) == all[i] {
      if i < |x| {
        assert FoldWith(f, x)[i] == x[i];
      } else if i >= |x| + |m| {
        assert all[i] == y[i - |x| - |m|] && FoldWith(f, y)[i - |x| - |m|] == y[i - |x| - |m|];
      }
    }
  }

  /** A marker at the very front of a required first value is no cut: nothing
      would be left before it. So this key, ambiguous as it looks, stands alone. */
  lemma BlankFrontIsNoCut(fold: Fold, u: string, key: StrongKey)
    requires CaseFolds(fold) && IsBuilt(fold, key) && key.eventType == "correction"
    requires key.components == [Component("correction_ref", "|target_ref=x"), Component("target_ref", u)] && Plain(u)
    ensures Ambiguous(key.components) && !Splittable(key)
    ensures forall other :: IsBuilt(fold, other) && KeyString(other) == KeyString(key) ==> CanAutoMerge(key, other)
  {
    assert RequiredCount("correction") == 2;
    hide CaseFolds, IsBuilt, KeyString, RequiredCount, Ambiguous, HasCut;
    LooksAmbiguous(key.components, u);
    NoCutThere(key.components, u);
    BuiltTextIsFaithfulExactlyWhen(fold, key);
  }

  lemma LooksAmbiguous(cs: seq<Component>, u: string)
    requires cs == [Component("correction_ref", "|target_ref=x"), Component("target_ref", u)]
    ensures Ambiguous(cs)
  {
    var v, m := cs[0].value, Marker("target_ref");
    assert m == "|target_ref=" && |m| == 12 && |v| == 13;
    assert OccursAt(v, 0, m) && Contains(v, m);
    assert Marker(cs[0 + 1].name) == m;
  }

  lemma PlainHasNoCut(u: string, m: string)
    requires Plain(u) && m != "" && m[0] == '|'
    ensures forall k :: !OccursAt(u, k, m)
  {
    forall k ensures !OccursAt(u, k, m) {
      if 0 <= k <= |u| - |m| { assert u[k..k + |m|][0] == u[k]; }
    }
  }

  lemma NoCutThere(cs: seq<Component>, u: string)
    requires cs == [Component("correction_ref", "|target_ref=x"), Component("target_ref", u)] && Plain(u)
    ensures !HasCut(cs, 2)
  {
    var v, m := cs[0].value, Marker("target_ref");
    assert m[0] == '|' && |m| == 12 && |v| == 13 && v[1] != '|';
    PlainHasNoCut(u, m);
    forall k ensures OccursAt(v, k, m) ==> k == 0 {
      if 0 <= k <= |v| - |m| { assert v[k..k + |m|][0] == v[k]; }
    }
    assert cs[1].value == u && Marker(cs[1].name) == m;
    hide Marker;
    assert forall k :: !EndsAt(cs, 2, 0, k) && !StartsAt(cs, 2, 1, k);
  }
}
