/** Event identity: the strong key of a proposal, the merge gate, and when the
    stored text of a key stands for that key alone. */
module Identity {
  import opened Options
  import opened Words

  /** Component names of one event type, in the order of its key. */
  datatype Spec = Spec(required: seq<string>, optional: seq<string>)

  function SpecOf(eventType: string): Option<Spec> {
    match eventType
    case "paper_version" => Some(Spec(["work_id", "version", "action"], []))
    case "product_release" => Some(Spec(["release_ref", "product", "phase"], ["version", "region"]))
    case "product_change" => Some(Spec(["product", "attribute", "change_ref"], ["effective_window"]))
    case "commercial_announcement" => Some(Spec(["announcement_ref", "counterparty", "action"], []))
    case "research_result" => Some(Spec(["work_id", "result_key"], ["conditions"]))
    case "correction" => Some(Spec(["correction_ref", "target_ref"], []))
    case "retraction" => Some(Spec(["correction_ref", "target_ref"], []))
    case _ => None
  }

  function Names(eventType: string): seq<string> {
    match SpecOf(eventType)
    case None => []
    case Some(spec) => spec.required + spec.optional
  }

  datatype Component = Component(name: string, value: string)

  datatype StrongKey = StrongKey(eventType: string, components: seq<Component>)

  datatype KeyResult = Keyed(key: StrongKey) | Unkeyed | UnknownType

  /** Case folding is the library's; any function may stand for it. */
  type Fold = string -> string

  function Normalize(fold: Fold, value: string): string {
    fold(Join(' ', Split(Strip(value))))
  }

  function Raw(fields: map<string, string>, name: string): string {
    if name in fields then fields[name] else ""
  }

  predicate Missing(fields: map<string, string>, name: string) {
    name !in fields || Strip(fields[name]) == ""
  }

  function Components(fold: Fold, fields: map<string, string>, names: seq<string>): (cs: seq<Component>)
    ensures |cs| == |names|
    ensures forall i :: 0 <= i < |cs| ==> cs[i] == Component(names[i], Normalize(fold, Raw(fields, names[i])))
  {
    seq(|names|, i requires 0 <= i < |names| => Component(names[i], Normalize(fold, Raw(fields, names[i]))))
  }

  /** `cs` are the components of these names, in order. */
  ghost predicate AreComponents(fold: Fold, fields: map<string, string>, names: seq<string>, cs: seq<Component>) {
    |cs| <= |names| && forall i :: 0 <= i < |cs| ==> cs[i] == Component(names[i], Normalize(fold, Raw(fields, names[i])))
  }

  lemma NoComponents(fold: Fold, fields: map<string, string>, names: seq<string>)
    ensures AreComponents(fold, fields, names, [])
  {
  }

  lemma OneMoreComponent(fold: Fold, fields: map<string, string>, names: seq<string>, cs: seq<Component>)
    requires AreComponents(fold, fields, names, cs) && |cs| < |names|
    ensures AreComponents(fold, fields, names, cs + [Component(names[|cs|], Normalize(fold, Raw(fields, names[|cs|])))])
  {
  }

  function KeyOf(fold: Fold, eventType: string, fields: map<string, string>): KeyResult {
    if eventType == "other" then Unkeyed
    else match SpecOf(eventType)
      case None => UnknownType
      case Some(spec) =>
        if exists i :: 0 <= i < |spec.required| && Missing(fields, spec.required[i]) then Unkeyed
        else Keyed(StrongKey(eventType, Components(fold, fields, Names(eventType))))
  }

  /** The first `n` of these names have a value. */
  ghost predicate Given(fields: map<string, string>, names: seq<string>, n: nat) {
    n <= |names| && forall i :: 0 <= i < n ==> !Missing(fields, names[i])
  }

  lemma NoneGiven(fields: map<string, string>, names: seq<string>)
    ensures Given(fields, names, 0)
  {
  }

  lemma OneMoreGiven(fields: map<string, string>, names: seq<string>, n: nat)
    requires Given(fields, names, n) && n < |names| && !Missing(fields, names[n])
    ensures Given(fields, names, n + 1)
    ensures names[n] in fields && Raw(fields, names[n]) == fields[names[n]]
  {
  }

  lemma MissingIsUnkeyed(fold: Fold, eventType: string, fields: map<string, string>, i: nat)
    requires eventType != "other" && SpecOf(eventType).Some?
    requires i < |SpecOf(eventType).value.required| && Missing(fields, SpecOf(eventType).value.required[i])
    ensures KeyOf(fold, eventType, fields) == Unkeyed
  {
    hide SpecOf, Missing;
  }

  lemma PresentIsKeyed(fold: Fold, eventType: string, fields: map<string, string>)
    requires eventType != "other" && SpecOf(eventType).Some?
    requires var required := SpecOf(eventType).value.required; Given(fields, required, |required|)
    ensures var spec := SpecOf(eventType).value;
      forall cs :: AreComponents(fold, fields, spec.required + spec.optional, cs) && |cs| == |spec.required + spec.optional| ==>
        KeyOf(fold, eventType, fields) == Keyed(StrongKey(eventType, cs))
  {
    var names := Names(eventType);
    assert KeyOf(fold, eventType, fields) == Keyed(StrongKey(eventType, Components(fold, fields, names)));
    forall cs | AreComponents(fold, fields, names, cs) && |cs| == |names| ensures cs == Components(fold, fields, names) {
    }
    hide SpecOf, Missing, Components;
  }

  method BuildIdentityKey(fold: Fold, eventType: string, fields: map<string, string>) returns (r: KeyResult)
    ensures r == KeyOf(fold, eventType, fields)
  {
    if eventType == "other" {
      return Unkeyed;
    }
    var found := SpecOf(eventType);
    if found.None? {
      return UnknownType;
    }
    var spec := found.value;
    ghost var names := spec.required + spec.optional;
    hide *;
    var components: seq<Component> := [];
    NoComponents(fold, fields, names);
    NoneGiven(fields, spec.required);
    for i := 0 to |spec.required|
      invariant Given(fields, spec.required, i)
      invariant |components| == i && AreComponents(fold, fields, names, components)
    {
      var name := spec.required[i];
      if Missing(fields, name) {
        MissingIsUnkeyed(fold, eventType, fields, i);
        return Unkeyed;
      }
      OneMoreGiven(fields, spec.required, i);
      OneMoreComponent(fold, fields, names, components);
      components := components + [Component(name, Normalize(fold, fields[name]))];
    }
    PresentIsKeyed(fold, eventType, fields);
    for i := 0 to |spec.optional|
      invariant |components| == |spec.required| + i && AreComponents(fold, fields, names, components)
    {
      var name := spec.optional[i];
      OneMoreComponent(fold, fields, names, components);
      components := components + [Component(name, Normalize(fold, Raw(fields, name)))];
    }
    r := Keyed(StrongKey(eventType, components));
  }

  /** The merge gate: same type, every component equal. */
  predicate CanAutoMerge(a: StrongKey, b: StrongKey) {
    a.eventType == b.eventType && a.components == b.components
  }

  /** Two proposals pass the gate exactly when both are fully evidenced, of one
      type, and agree on every component up to spacing and case; an optional
      component left out agrees only with one left out or blank. */
  lemma GateOnFields(fold: Fold, s: string, f: map<string, string>, t: string, g: map<string, string>)
    ensures (KeyOf(fold, s, f).Keyed? && KeyOf(fold, t, g).Keyed? && CanAutoMerge(KeyOf(fold, s, f).key, KeyOf(fold, t, g).key))
       <==> (s == t && s != "other" && SpecOf(s).Some?
             && (forall name :: name in SpecOf(s).value.required ==> !Missing(f, name) && !Missing(g, name))
             && forall name :: name in Names(s) ==> Normalize(fold, Raw(f, name)) == Normalize(fold, Raw(g, name)))
  {
    hide Normalize, Missing, Raw;
    if s == t && SpecOf(s).Some? {
      var a, b := Components(fold, f, Names(s)), Components(fold, g, Names(s));
      assert a == b <==> forall i :: 0 <= i < |a| ==> a[i] == b[i];
    }
  }

  // ---- what each type of event asks for before a merge ----

  /** Both give the required names words, and both agree on all of the names. */
  ghost predicate Agree(fold: Fold, f: map<string, string>, g: map<string, string>, required: seq<string>, optional: seq<string>) {
    && (forall name :: name in required ==>
          name in f && name in g && Split(f[name]) != [] && Split(g[name]) != [])
    && (forall name :: name in required || name in optional ==>
          Normalize(fold, Raw(f, name)) == Normalize(fold, Raw(g, name)))
  }

  ghost predicate SameFacts(fold: Fold, eventType: string, f: map<string, string>, g: map<string, string>) {
    match eventType
    case "paper_version" => Agree(fold, f, g, ["work_id", "version", "action"], [])
    case "product_release" => Agree(fold, f, g, ["release_ref", "product", "phase"], ["version", "region"])
    case "product_change" => Agree(fold, f, g, ["product", "attribute", "change_ref"], ["effective_window"])
    case "commercial_announcement" => Agree(fold, f, g, ["announcement_ref", "counterparty", "action"], [])
    case "research_result" => Agree(fold, f, g, ["work_id", "result_key"], ["conditions"])
    case "correction" => Agree(fold, f, g, ["correction_ref", "target_ref"], [])
    case "retraction" => Agree(fold, f, g, ["correction_ref", "target_ref"], [])
    case _ => false
  }

  lemma MissingIsBlank(fields: map<string, string>, name: string)
    ensures !Missing(fields, name) <==> name in fields && Split(fields[name]) != []
  {
    if name in fields { BlankHasNoWords(fields[name]); }
  }

  lemma RequiredHaveWords(f: map<string, string>, g: map<string, string>, required: seq<string>)
    ensures (forall name :: name in required ==> !Missing(f, name) && !Missing(g, name))
       <==> (forall name :: name in required ==> name in f && name in g && Split(f[name]) != [] && Split(g[name]) != [])
  {
    forall name | name in required
      ensures (!Missing(f, name) <==> name in f && Split(f[name]) != []) && (!Missing(g, name) <==> name in g && Split(g[name]) != [])
    {
      MissingIsBlank(f, name);
      MissingIsBlank(g, name);
    }
    hide Missing, Split;
  }

  lemma SpecIsAgreed(fold: Fold, s: string, f: map<string, string>, g: map<string, string>)
    ensures SameFacts(fold, s, f, g)
       <==> s != "other" && SpecOf(s).Some? && Agree(fold, f, g, SpecOf(s).value.required, SpecOf(s).value.optional)
  {
    hide Agree;
  }

  lemma AgreeOnNames(fold: Fold, f: map<string, string>, g: map<string, string>, required: seq<string>, optional: seq<string>)
    ensures (forall name :: name in required + optional ==> Normalize(fold, Raw(f, name)) == Normalize(fold, Raw(g, name)))
       <==> (forall name :: name in required || name in optional ==> Normalize(fold, Raw(f, name)) == Normalize(fold, Raw(g, name)))
  {
    hide Normalize, Raw;
  }

  /** Two proposals may merge if and only if they are of one type and agree on
      what that type lists, with words for all it requires. */
  lemma MergesExactlyWhen(fold: Fold, s: string, f: map<string, string>, t: string, g: map<string, string>)
    ensures (KeyOf(fold, s, f).Keyed? && KeyOf(fold, t, g).Keyed? && CanAutoMerge(KeyOf(fold, s, f).key, KeyOf(fold, t, g).key))
       <==> s == t && SameFacts(fold, s, f, g)
  {
    hide *;
    GateOnFields(fold, s, f, t, g);
    SpecIsAgreed(fold, s, f, g);
    if SpecOf(s).Some? {
      var spec := SpecOf(s).value;
      RequiredHaveWords(f, g, spec.required);
      AgreeOnNames(fold, f, g, spec.required, spec.optional);
      NamesOf(s);
      AgreeMeans(fold, f, g, spec.required, spec.optional);
    }
  }

  lemma NamesOf(s: string)
    requires SpecOf(s).Some?
    ensures Names(s) == SpecOf(s).value.required + SpecOf(s).value.optional
  {}

  lemma AgreeMeans(fold: Fold, f: map<string, string>, g: map<string, string>, required: seq<string>, optional: seq<string>)
    ensures Agree(fold, f, g, required, optional) <==>
      && (forall name :: name in required ==> name in f && name in g && Split(f[name]) != [] && Split(g[name]) != [])
      && (forall name :: name in required || name in optional ==> Normalize(fold, Raw(f, name)) == Normalize(fold, Raw(g, name)))
  {
    hide Normalize, Raw, Split;
  }

  /** A proposal has a key if and only if its type is listed and it gives words
      for all the type requires; an unlisted type other than `other` is an error. */
  lemma KeyedExactlyWhen(fold: Fold, eventType: string, fields: map<string, string>)
    ensures KeyOf(fold, eventType, fields).Keyed? <==> SameFacts(fold, eventType, fields, fields)
    ensures KeyOf(fold, eventType, fields).UnknownType? <==>
      eventType !in {"paper_version", "product_release", "product_change", "commercial_announcement", "research_result",
                     "correction", "retraction", "other"}
  {
    MergesExactlyWhen(fold, eventType, fields, eventType, fields);
    hide SameFacts, Missing, Normalize;
  }

  /** What tells two events apart: versions and actions on a paper, products,
      phases and regions of a release, attributes of a product, parties of a
      deal, conditions of a result. */
  predicate TellsApart(eventType: string, name: string) {
    match eventType
    case "paper_version" => name in {"version", "action"}
    case "product_release" => name in {"product", "phase", "region"}
    case "product_change" => name in {"product", "attribute"}
    case "commercial_announcement" => name == "counterparty"
    case "research_result" => name == "conditions"
    case _ => false
  }

  /** So proposals that differ there, beyond spacing and case, never merge. */
  lemma DifferencesBlock(fold: Fold, eventType: string, f: map<string, string>, g: map<string, string>, name: string)
    requires TellsApart(eventType, name) && Normalize(fold, Raw(f, name)) != Normalize(fold, Raw(g, name))
    requires KeyOf(fold, eventType, f).Keyed? && KeyOf(fold, eventType, g).Keyed?
    ensures !CanAutoMerge(KeyOf(fold, eventType, f).key, KeyOf(fold, eventType, g).key)
  {
    MergesExactlyWhen(fold, eventType, f, eventType, g);
    hide KeyOf, Normalize, Raw, Split;
    assert "version" == ["work_id", "version", "action"][1] && "action" == ["work_id", "version", "action"][2];
    assert "product" == ["release_ref", "product", "phase"][1] && "phase" == ["release_ref", "product", "phase"][2];
    assert "region" == ["version", "region"][1];
    assert "product" == ["product", "attribute", "change_ref"][0] && "attribute" == ["product", "attribute", "change_ref"][1];
    assert "counterparty" == ["announcement_ref", "counterparty", "action"][1];
    assert "conditions" == ["conditions"][0];
  }

  /** The words of a value decide its normal form: spacing never blocks a merge. */
  lemma SpacingNeverBlocks(fold: Fold, a: string, b: string)
    requires Split(a) == Split(b)
    ensures Normalize(fold, a) == Normalize(fold, b)
  {
    WordsOfStrip(a);
    WordsOfStrip(b);
  }

  // ---- the stored text of a key ----

  function Marker(name: string): string { "|" + name + "=" }

  function Pieces(cs: seq<Component>): seq<string> {
    seq(|cs|, i requires 0 <= i < |cs| => cs[i].name + "=" + cs[i].value)
  }

  function KeyString(key: StrongKey): string {
    key.eventType + "|" + Join('|', Pieces(key.components))
  }

  /** The text of a key after its type, component by component. */
  function Tail(cs: seq<Component>): string {
    if cs == [] then "" else Marker(cs[0].name) + cs[0].value + Tail(cs[1..])
  }

  lemma {:induction false} TailIsJoin(cs: seq<Component>)
    requires cs != []
    ensures "|" + Join('|', Pieces(cs)) == Tail(cs)
  {
    var head := cs[0].name + "=" + cs[0].value;
    assert Pieces(cs) == [head] + Pieces(cs[1..]);
    assert Marker(cs[0].name) + cs[0].value == "|" + head;
    if |cs| > 1 {
      TailIsJoin(cs[1..]);
      assert Pieces(cs)[1..] == Pieces(cs[1..]);
      assert "|" + Join('|', Pieces(cs)) == "|" + head + ("|" + Join('|', Pieces(cs[1..])));
    } else {
      assert Pieces(cs) == [head];
    }
  }

  predicate Plain(s: string) { '|' !in s }

  predicate SameNames(a: seq<Component>, b: seq<Component>) {
    |a| == |b| && forall i :: 0 <= i < |a| ==> a[i].name == b[i].name
  }

  predicate PlainNames(a: seq<Component>) {
    forall i :: 0 <= i < |a| ==> Plain(a[i].name)
  }

  ghost predicate Contains(s: string, m: string) {
    exists i :: OccursAt(s, i, m)
  }

  /** A value holds the marker of its own component, the first one apart. */
  ghost predicate HoldsOwn(cs: seq<Component>, from: nat) {
    exists i :: from <= i < |cs| && Contains(cs[i].value, Marker(cs[i].name))
  }

  ghost predicate HoldsNext(cs: seq<Component>) {
    exists i :: 0 <= i < |cs| - 1 && Contains(cs[i].value, Marker(cs[i + 1].name))
  }

  ghost predicate Ambiguous(cs: seq<Component>) {
    HoldsOwn(cs, 1) || HoldsNext(cs)
  }

  /** A marker has one bar, at its start: it cannot run across another one. */
  lemma BarSplits(text: string, at: nat, m: string, stop: nat)
    requires OccursAt(text, at, m) && m != "" && Plain(m[1..])
    requires stop <= |text| && (stop < |text| ==> text[stop] == '|')
    ensures at + |m| <= stop || stop <= at
  {
    forall j | at < j < at + |m| ensures text[j] != '|' {
      assert text[j] == text[at..at + |m|][j - at] == m[1..][j - at - 1];
    }
  }

  lemma TailStartsWithBar(cs: seq<Component>)
    ensures Tail(cs) != "" <==> cs != []
    ensures cs != [] ==> Tail(cs)[0] == '|' && Marker(cs[0].name) <= Tail(cs)
  {
  }

  /** Components that fit into a text later than where it starts leave one of
      its values holding its own marker. */
  lemma {:induction false} ShiftedFit(a: seq<Component>, b: seq<Component>, shift: string)
    requires a != [] && SameNames(a, b) && PlainNames(a)
    requires shift != "" && Tail(a) == shift + Tail(b)
    ensures HoldsOwn(a, 0)
  {
    var m, v, w := Marker(a[0].name), a[0].value, b[0].value;
    var rest, more := Tail(a[1..]), Tail(b[1..]);
    TailStartsWithBar(a[1..]);
    assert Tail(a) == m + v + rest && Tail(b) == m + w + more;
    hide Tail;
    var next := MarkerMoves(m, v, rest, shift, w, more);
    match next {
      case Some(longer) =>
        assert rest == longer + more;
        ShiftedFit(a[1..], b[1..], longer);
        var i :| 0 <= i < |a[1..]| && Contains(a[1..][i].value, Marker(a[1..][i].name));
        assert a[1..][i] == a[i + 1];
      case None =>
        assert Contains(a[0].value, Marker(a[0].name));
    }
  }

  /** The marker at the shifted start lies in the first value, or behind it. */
  lemma MarkerMoves(m: string, v: string, rest: string, shift: string, w: string, more: string) returns (longer: Option<string>)
    requires m != "" && m[0] == '|' && Plain(m[1..]) && (rest == "" || rest[0] == '|')
    requires shift != "" && m + v + rest == shift + (m + w + more)
    ensures match longer
            case None => Contains(v, m)
            case Some(x) => x != "" && rest == x + more && rest != ""
  {
    var text := m + v + rest;
    var at, stop := |shift|, |m| + |v|;
    assert OccursAt(text, at, m) by { assert text[at..] == m + w + more; }
    assert OccursAt(text, 0, m);
    assert text[stop..] == rest;
    BarSplits(text, 0, m, at);
    BarSplits(text, at, m, stop);
    if at + |m| <= stop {
      assert v == text[|m|..stop];
      assert v[at - |m|..at] == text[at..at + |m|];
      assert OccursAt(v, at - |m|, m);
      longer := None;
    } else {
      assert text[stop..] == text[stop..at] + text[at..];
      assert rest == text[stop..at] + m + w + more;
      longer := Some(text[stop..at] + m + w);
    }
  }

  /** Two keys of one type with the same text: the first one is ambiguous. */
  lemma {:induction false} TwinIsAmbiguous(a: seq<Component>, b: seq<Component>)
    requires SameNames(a, b) && PlainNames(a)
    requires Tail(a) == Tail(b) && a != b
    ensures Ambiguous(a)
  {
    assert a != [];
    var v, w := a[0].value, b[0].value;
    assert v + Tail(a[1..]) == w + Tail(b[1..]) by {
      assert Tail(a)[|Marker(a[0].name)|..] == v + Tail(a[1..]);
      assert Tail(b)[|Marker(b[0].name)|..] == w + Tail(b[1..]);
    }
    assert forall i :: 0 <= i < |a[1..]| ==> a[1..][i] == a[i + 1];
    hide Tail, Ambiguous;
    if |v| == |w| {
      SameFront(v, Tail(a[1..]), w, Tail(b[1..]));
      assert a == [a[0]] + a[1..] && b == [b[0]] + b[1..];
      TwinIsAmbiguous(a[1..], b[1..]);
      LaterAmbiguity(a);
    } else if |w| < |v| {
      LongerHoldsNext(a, b);
    } else {
      ShorterLeavesShift(a, b);
    }
  }

  lemma SameFront(v: string, x: string, w: string, y: string)
    requires v + x == w + y && |v| == |w|
    ensures v == w && x == y
  {
    assert v == (v + x)[..|v|] && w == (w + y)[..|v|] && x == (v + x)[|v|..] && y == (w + y)[|v|..];
  }

  lemma LongerFront(v: string, x: string, w: string, y: string)
    requires v + x == w + y && |w| < |v|
    ensures v == w + v[|w|..] && v[|w|..] + x == y
  {
    assert v == (w + y)[..|v|];
    assert (v + x)[|w|..] == v[|w|..] + x && (w + y)[|w|..] == y;
  }

  lemma LongerHoldsNext(a: seq<Component>, b: seq<Component>)
    requires a != [] && SameNames(a, b) && PlainNames(a)
    requires a[0].value + Tail(a[1..]) == b[0].value + Tail(b[1..]) && |b[0].value| < |a[0].value|
    ensures Ambiguous(a)
  {
    var v, w := a[0].value, b[0].value;
    var ra, rb := Tail(a[1..]), Tail(b[1..]);
    TailStartsWithBar(a[1..]);
    TailStartsWithBar(b[1..]);
    hide Tail;
    LongerFront(v, ra, w, rb);
    var x := v[|w|..];
    var m := Marker(b[1].name);
    assert m == Marker(b[1..][0].name);
    assert OccursAt(rb, 0, m) && Plain(m[1..]);
    BarSplits(rb, 0, m, |x|);
    assert x[..|m|] == rb[..|m|];
    assert OccursAt(v, |w|, m);
    assert Contains(a[0].value, Marker(a[0 + 1].name));
  }

  lemma ShorterLeavesShift(a: seq<Component>, b: seq<Component>)
    requires a != [] && SameNames(a, b) && PlainNames(a)
    requires a[0].value + Tail(a[1..]) == b[0].value + Tail(b[1..]) && |a[0].value| < |b[0].value|
    ensures Ambiguous(a)
  {
    var v, w := a[0].value, b[0].value;
    TailStartsWithBar(a[1..]);
    LongerFront(w, Tail(b[1..]), v, Tail(a[1..]));
    ShiftedFit(a[1..], b[1..], w[|v|..]);
    var i :| 0 <= i < |a[1..]| && Contains(a[1..][i].value, Marker(a[1..][i].name));
    assert a[1..][i] == a[i + 1];
  }

  lemma LaterAmbiguity(a: seq<Component>)
    requires a != [] && Ambiguous(a[1..])
    ensures Ambiguous(a)
  {
    var rest := a[1..];
    if HoldsOwn(rest, 1) {
      var i :| 1 <= i < |rest| && Contains(rest[i].value, Marker(rest[i].name));
      assert rest[i] == a[i + 1];
    } else {
      var i :| 0 <= i < |rest| - 1 && Contains(rest[i].value, Marker(rest[i + 1].name));
      assert rest[i] == a[i + 1] && rest[i + 1] == a[i + 2];
    }
  }

  lemma {:induction false} TailConcat(a: seq<Component>, b: seq<Component>)
    ensures Tail(a + b) == Tail(a) + Tail(b)
  {
    if a == [] {
      assert a + b == b;
    } else {
      assert (a + b)[1..] == a[1..] + b;
      TailConcat(a[1..], b);
    }
  }

  /** Two neighbours may hand text over when their joint text stays the same. */
  lemma MoveBetween(a: seq<Component>, i: nat, v: string, w: string)
    requires i + 1 < |a|
    requires var m := Marker(a[i + 1].name); v + m + w == a[i].value + m + a[i + 1].value
    ensures var b := a[i := a[i].(value := v)][i + 1 := a[i + 1].(value := w)];
            SameNames(a, b) && Tail(b) == Tail(a)
  {
    hide Tail, Marker;
    var b := a[i := a[i].(value := v)][i + 1 := a[i + 1].(value := w)];
    var pa, pb := [a[i], a[i + 1]], [b[i], b[i + 1]];
    assert a == a[..i] + pa + a[i + 2..];
    assert b == a[..i] + pb + a[i + 2..];
    TailConcat(a[..i], pa);
    TailConcat(a[..i], pb);
    TailConcat(a[..i] + pa, a[i + 2..]);
    TailConcat(a[..i] + pb, a[i + 2..]);
    PairTail(a[i], a[i + 1]);
    PairTail(b[i], b[i + 1]);
  }

  lemma PairTail(c: Component, d: Component)
    ensures Tail([c, d]) == Marker(c.name) + (c.value + Marker(d.name) + d.value)
  {
    assert [c, d][1..] == [d] && [d][1..] == [];
    assert Tail([d]) == Marker(d.name) + d.value;
  }

  lemma SplitAt(v: string, k: int, m: string)
    requires OccursAt(v, k, m)
    ensures v == v[..k] + m + v[k + |m|..]
  {
  }

  lemma NextHasTwin(a: seq<Component>, i: nat) returns (b: seq<Component>)
    requires i < |a| - 1 && Contains(a[i].value, Marker(a[i + 1].name))
    ensures SameNames(a, b) && b != a && Tail(b) == Tail(a)
  {
    hide Tail;
    var m, v := Marker(a[i + 1].name), a[i].value;
    var k :| OccursAt(v, k, m);
    SplitAt(v, k, m);
    var w := v[k + |m|..] + m + a[i + 1].value;
    assert v[..k] + m + w == v + m + a[i + 1].value;
    MoveBetween(a, i, v[..k], w);
    b := a[i := a[i].(value := v[..k])][i + 1 := a[i + 1].(value := w)];
    assert b[i].value != a[i].value;
  }

  lemma OwnHasTwin(a: seq<Component>, i: nat) returns (b: seq<Component>)
    requires i < |a| - 1 && Contains(a[i + 1].value, Marker(a[i + 1].name))
    ensures SameNames(a, b) && b != a && Tail(b) == Tail(a)
  {
    hide Tail;
    var m, v := Marker(a[i + 1].name), a[i + 1].value;
    var k :| OccursAt(v, k, m);
    SplitAt(v, k, m);
    var w := a[i].value + m + v[..k];
    assert w + m + v[k + |m|..] == a[i].value + m + v;
    MoveBetween(a, i, w, v[k + |m|..]);
    b := a[i := a[i].(value := w)][i + 1 := a[i + 1].(value := v[k + |m|..])];
    assert b[i + 1].value != a[i + 1].value;
  }

  /** An ambiguous key shares its text with another key of its type. */
  lemma AmbiguousHasTwin(a: seq<Component>) returns (b: seq<Component>)
    requires Ambiguous(a)
    ensures SameNames(a, b) && b != a && Tail(b) == Tail(a)
  {
    hide Tail, Contains;
    if HoldsNext(a) {
      var i :| 0 <= i < |a| - 1 && Contains(a[i].value, Marker(a[i + 1].name));
      b := NextHasTwin(a, i);
    } else {
      var j :| 1 <= j < |a| && Contains(a[j].value, Marker(a[j].name));
      b := OwnHasTwin(a, j - 1);
    }
  }

  // ---- keys of the table ----

  predicate WellFormed(key: StrongKey) {
    && SpecOf(key.eventType).Some?
    && |key.components| == |Names(key.eventType)|
    && forall i :: 0 <= i < |key.components| ==> key.components[i].name == Names(key.eventType)[i]
  }

  lemma BuiltKeysAreWellFormed(fold: Fold, eventType: string, fields: map<string, string>)
    requires KeyOf(fold, eventType, fields).Keyed?
    ensures WellFormed(KeyOf(fold, eventType, fields).key)
    ensures KeyOf(fold, eventType, fields).key.eventType == eventType
  {
  }

  lemma PlainTypes()
    ensures Plain("paper_version") && Plain("product_release") && Plain("product_change")
    ensures Plain("commercial_announcement") && Plain("research_result") && Plain("correction") && Plain("retraction")
  {
  }

  lemma PlainComponents()
    ensures Plain("work_id") && Plain("version") && Plain("action") && Plain("release_ref") && Plain("product") && Plain("phase")
    ensures Plain("region") && Plain("attribute") && Plain("change_ref")
  {
  }

  lemma PlainMoreComponents()
    ensures Plain("effective_window") && Plain("announcement_ref") && Plain("counterparty")
    ensures Plain("result_key") && Plain("conditions") && Plain("correction_ref") && Plain("target_ref")
  {
  }

  lemma TableIsPlain(eventType: string)
    requires SpecOf(eventType).Some?
    ensures Plain(eventType) && Names(eventType) != []
    ensures forall i :: 0 <= i < |Names(eventType)| ==> Plain(Names(eventType)[i])
  {
    hide Plain;
    PlainTypes();
    PlainComponents();
    PlainMoreComponents();
  }

  lemma TextSplits(a: StrongKey, b: StrongKey)
    requires WellFormed(a) && WellFormed(b)
    ensures KeyString(a) == KeyString(b) <==> a.eventType == b.eventType && Tail(a.components) == Tail(b.components)
  {
    TableIsPlain(a.eventType);
    TableIsPlain(b.eventType);
    TailIsJoin(a.components);
    TailIsJoin(b.components);
    var s, t := a.eventType, b.eventType;
    var x, y := Tail(a.components), Tail(b.components);
    assert KeyString(a) == s + x by { assert KeyString(a) == s + ("|" + Join('|', Pieces(a.components))); }
    assert KeyString(b) == t + y by { assert KeyString(b) == t + ("|" + Join('|', Pieces(b.components))); }
    hide *;
    SplitAtBar(s, x, t, y);
  }

  lemma SplitAtBar(s: string, x: string, t: string, y: string)
    requires '|' !in s && '|' !in t && x != "" && y != "" && x[0] == '|' && y[0] == '|'
    ensures s + x == t + y <==> s == t && x == y
  {
    if s + x == t + y {
      assert (s + x)[|s|] == '|' && (t + y)[|t|] == '|';
      assert forall i :: 0 <= i < |s| ==> (s + x)[i] == s[i];
      assert forall i :: 0 <= i < |t| ==> (t + y)[i] == t[i];
      assert |s| == |t|;
      SameFront(s, x, t, y);
    }
  }

  /** The stored text stands for its key alone exactly when no value holds its
      own marker (from the second component on) or that of the next. */
  lemma KeyTextIsFaithfulExactlyWhen(key: StrongKey)
    requires WellFormed(key)
    ensures (forall other :: WellFormed(other) && KeyString(other) == KeyString(key) ==> CanAutoMerge(key, other))
       <==> !Ambiguous(key.components)
  {
    TableIsPlain(key.eventType);
    if Ambiguous(key.components) {
      var twin := AmbiguousHasTwin(key.components);
      var other := StrongKey(key.eventType, twin);
      TextSplits(key, other);
      assert WellFormed(other) && KeyString(other) == KeyString(key) && !CanAutoMerge(key, other);
    } else {
      forall other | WellFormed(other) && KeyString(other) == KeyString(key) ensures CanAutoMerge(key, other) {
        TextSplits(key, other);
        if key.components != other.components { TwinIsAmbiguous(key.components, other.components); }
      }
    }
  }

  ghost predicate PlainValues(key: StrongKey) {
    forall i :: 0 <= i < |key.components| ==> Plain(key.components[i].value)
  }

  /** Values free of `|`: equal text is the merge gate. */
  lemma PlainKeysAgreeWithGate(a: StrongKey, b: StrongKey)
    requires WellFormed(a) && WellFormed(b) && PlainValues(a)
    ensures KeyString(a) == KeyString(b) <==> CanAutoMerge(a, b)
  {
    forall i, name | 0 <= i < |a.components| ensures !Contains(a.components[i].value, Marker(name)) {
      var v := a.components[i].value;
      forall k ensures !OccursAt(v, k, Marker(name)) {
        if 0 <= k <= |v| - |Marker(name)| { assert v[k..k + |Marker(name)|][0] == v[k]; }
      }
    }
    KeyTextIsFaithfulExactlyWhen(a);
  }

  lemma WordIsNormal(fold: Fold, w: string)
    requires IsWord(w)
    ensures Strip(w) == w && Normalize(fold, w) == fold(w)
  {
    WordsOfWord("", w);
    assert "" + w == w;
    assert Split(w) == [w];
    assert Join(' ', [w]) == w;
  }

  lemma ReleaseKey(fold: Fold, ref: string, product: string, phase: string, fields: map<string, string>)
    requires IsWord(ref) && IsWord(product) && IsWord(phase)
    requires "release_ref" in fields && "product" in fields && "phase" in fields
    requires fields["release_ref"] == ref && fields["product"] == product && fields["phase"] == phase
    ensures KeyOf(fold, "product_release", fields) == Keyed(StrongKey("product_release", [
              Component("release_ref", fold(ref)), Component("product", fold(product)), Component("phase", fold(phase)),
              Component("version", Normalize(fold, Raw(fields, "version"))), Component("region", Normalize(fold, Raw(fields, "region")))]))
  {
    WordIsNormal(fold, ref);
    WordIsNormal(fold, product);
    WordIsNormal(fold, phase);
    var spec := SpecOf("product_release").value;
    assert spec == Spec(["release_ref", "product", "phase"], ["version", "region"]);
    hide SpecOf, Strip, Normalize;
    var cs := Components(fold, fields, Names("product_release"));
    assert Names("product_release") == ["release_ref", "product", "phase", "version", "region"];
    assert cs == [cs[0], cs[1], cs[2], cs[3], cs[4]];
  }

  /** Two releases that the gate keeps apart under one stored text. */
  lemma TwoReleasesOneText(fold: Fold, ref: string, product: string, phase: string, f: map<string, string>, g: map<string, string>)
    requires IsWord(ref) && IsWord(product) && IsWord(phase) && forall s :: fold(s) == s
    requires f.Keys == {"release_ref", "product", "phase", "version"} && g.Keys == f.Keys + {"region"}
    requires f["release_ref"] == ref && f["product"] == product && f["phase"] == phase && f["version"] == "1|region=2"
    requires g["release_ref"] == ref && g["product"] == product && g["phase"] == phase && g["version"] == "1" && g["region"] == "2|region="
    ensures var a, b := KeyOf(fold, "product_release", f), KeyOf(fold, "product_release", g);
            a.Keyed? && b.Keyed? && !CanAutoMerge(a.key, b.key) && KeyString(a.key) == KeyString(b.key)
  {
    hide *;
    NoRegion(f);
    ReleaseKey(fold, ref, product, phase, f);
    ReleaseKey(fold, ref, product, phase, g);
    ReleaseValues(fold);
    BuiltKeysAreWellFormed(fold, "product_release", f);
    BuiltKeysAreWellFormed(fold, "product_release", g);
    var a, b := KeyOf(fold, "product_release", f).key, KeyOf(fold, "product_release", g).key;
    RawValues(f, g);
    var front := [Component("release_ref", ref), Component("product", product), Component("phase", phase)];
    assert a.components == front + [Component("version", "1|region=2"), Component("region", "")];
    assert b.components == front + [Component("version", "1"), Component("region", "2|region=")];
    SameTail(front, a.components, b.components);
    TextSplits(a, b);
    DifferentVersions();
    assert a.components[3].value != b.components[3].value;
    GateNeedsAll(a, b, 3);
  }

  lemma NoRegion(f: map<string, string>)
    requires f.Keys == {"release_ref", "product", "phase", "version"}
    ensures "region" !in f
  {
    assert |"region"| == 6 && |"phase"| == 5 && |"product"| == 7;
  }

  lemma RawValues(f: map<string, string>, g: map<string, string>)
    requires "region" !in f && "version" in f && "version" in g && "region" in g
    ensures Raw(f, "region") == "" && Raw(f, "version") == f["version"] && Raw(g, "version") == g["version"] && Raw(g, "region") == g["region"]
  {
  }

  lemma GateNeedsAll(a: StrongKey, b: StrongKey, i: nat)
    requires i < |a.components| && i < |b.components| && a.components[i].value != b.components[i].value
    ensures !CanAutoMerge(a, b)
  {
  }

  lemma DifferentVersions()
    ensures "1|region=2" != "1"
  {
    assert |"1|region=2"| == 10 && |"1"| == 1;
  }

  lemma SameTail(front: seq<Component>, a: seq<Component>, b: seq<Component>)
    requires |front| == 3
    requires a == front + [Component("version", "1|region=2"), Component("region", "")]
    requires b == front + [Component("version", "1"), Component("region", "2|region=")]
    ensures Tail(a) == Tail(b)
  {
    assert Marker("region") == "|region=";
    assert b == a[3 := a[3].(value := "1")][4 := a[4].(value := "2|region=")];
    hide Tail;
    MoveBetween(a, 3, "1", "2|region=");
  }

  lemma ReleaseValues(fold: Fold)
    requires forall s :: fold(s) == s
    ensures Normalize(fold, "1|region=2") == "1|region=2" && Normalize(fold, "1") == "1"
    ensures Normalize(fold, "2|region=") == "2|region=" && Normalize(fold, "") == ""
  {
    assert Normalize(fold, "") == "";
    hide Normalize, Strip;
    AreWords();
    hide IsWord;
    WordIsNormal(fold, "1|region=2");
    WordIsNormal(fold, "1");
    WordIsNormal(fold, "2|region=");
  }

  lemma AreWords()
    ensures IsWord("1|region=2") && IsWord("1") && IsWord("2|region=")
  {
  }
}
