/** Event resolution: proposals merge into the event of their strong key or
    open a new one. Over any run this is a grouping by key. */
module Events {
  import opened Options
  import opened Identity
  import BuiltKeys

  type Id = nat
  type ClaimId = nat

  datatype EventRow = EventRow(eventType: string, rowVersion: nat, mergedInto: Option<Id>, currentRevision: Id)

  datatype RevisionRow = RevisionRow(event: Id, version: nat, title: string, summary: string, identityKey: Option<string>)

  datatype Duplicate = Duplicate(event: Id, candidate: Id)

  datatype Proposal = Proposal(
    eventType: string,
    title: string,
    summary: string,
    fields: map<string, string>,
    claims: seq<ClaimId>)

  datatype Resolution = Resolution(event: Id, created: bool, revision: Option<Id>, flagged: bool)

  datatype Outcome = Resolved(resolution: Resolution) | UnknownEventType

  datatype Knowledge = Knowledge(
    events: map<Id, EventRow>,
    revisions: map<Id, RevisionRow>,
    keys: map<string, Id>,
    claims: map<Id, seq<ClaimId>>,
    duplicates: seq<Duplicate>)

  const EMPTY_KNOWLEDGE := Knowledge(map[], map[], map[], map[], [])

  // ---- the store ----

  function ClaimsAt(claims: map<Id, seq<ClaimId>>, event: Id): seq<ClaimId> {
    if event in claims then claims[event] else []
  }

  class InMemoryKnowledgeStore {
    var events: map<Id, EventRow>
    var eventRevisions: map<Id, RevisionRow>
    var eventKeys: map<string, Id>
    var eventClaims: map<Id, seq<ClaimId>>
    var duplicates: seq<Duplicate>

    constructor ()
      ensures View() == EMPTY_KNOWLEDGE
    {
      events, eventRevisions, eventKeys, eventClaims, duplicates := map[], map[], map[], map[], [];
    }

    ghost function View(): Knowledge
      reads this
    {
      Knowledge(events, eventRevisions, eventKeys, eventClaims, duplicates)
    }

    method FindEventByKey(key: string) returns (found: Option<Id>)
      ensures found == if key in eventKeys then Some(eventKeys[key]) else None
    {
      found := if key in eventKeys then Some(eventKeys[key]) else None;
    }

    /** The ids are those the store draws for the event and its revision. */
    method InsertEventWithRevision(eventType: string, title: string, summary: string, key: Option<string>, event: Id, revision: Id)
      modifies this
      ensures View() == old(View()).(
        events := old(events)[event := EventRow(eventType, 1, None, revision)],
        revisions := old(eventRevisions)[revision := RevisionRow(event, 1, title, summary, key)],
        keys := if key.Some? then old(eventKeys)[key.value := event] else old(eventKeys))
    {
      events := events[event := EventRow(eventType, 1, None, revision)];
      eventRevisions := eventRevisions[revision := RevisionRow(event, 1, title, summary, key)];
      if key.Some? {
        eventKeys := eventKeys[key.value := event];
      }
    }

    method LinkEventClaims(event: Id, claims: seq<ClaimId>)
      modifies this`eventClaims
      ensures eventClaims == old(eventClaims)[event := ClaimsAt(old(eventClaims), event) + claims]
    {
      eventClaims := eventClaims[event := (if event in eventClaims then eventClaims[event] else []) + claims];
    }

    method RecordPossibleDuplicate(event: Id, candidate: Id)
      modifies this`duplicates
      ensures duplicates == old(duplicates) + [Duplicate(event, candidate)]
    {
      duplicates := duplicates + [Duplicate(event, candidate)];
    }
  }

  /** What a proposal is filed under: nothing, itself alone, or a key's text. */
  datatype Filing = Refused | Alone | Under(text: string)

  function FilingOf(fold: Fold, p: Proposal): Filing {
    match KeyOf(fold, p.eventType, p.fields)
    case UnknownType => Refused
    case Unkeyed => Alone
    case Keyed(key) => Under(KeyString(key))
  }

  /** One resolution: the proposal, a similar event if one was suggested, and
      the ids drawn should a new event be needed. */
  datatype Step = Step(proposal: Proposal, similar: Option<Id>, event: Id, revision: Id)

  function NewEvent(k: Knowledge, step: Step, key: Option<string>): Knowledge {
    k.(events := k.events[step.event := EventRow(step.proposal.eventType, 1, None, step.revision)],
       revisions := k.revisions[step.revision := RevisionRow(step.event, 1, step.proposal.title, step.proposal.summary, key)],
       keys := if key.Some? then k.keys[key.value := step.event] else k.keys)
  }

  function Link(k: Knowledge, event: Id, claims: seq<ClaimId>): Knowledge {
    k.(claims := k.claims[event := ClaimsAt(k.claims, event) + claims])
  }

  function Resolve(fold: Fold, k: Knowledge, step: Step): (r: (Knowledge, Outcome)) {
    match FilingOf(fold, step.proposal)
    case Refused => (k, UnknownEventType)
    case Alone =>
      var grown := Link(NewEvent(k, step, None), step.event, step.proposal.claims);
      (if step.similar.Some? then grown.(duplicates := k.duplicates + [Duplicate(step.event, step.similar.value)]) else grown,
       Resolved(Resolution(step.event, true, Some(step.revision), step.similar.Some?)))
    case Under(text) =>
      if text in k.keys then
        (Link(k, k.keys[text], step.proposal.claims), Resolved(Resolution(k.keys[text], false, None, false)))
      else
        (Link(NewEvent(k, step, Some(text)), step.event, step.proposal.claims),
         Resolved(Resolution(step.event, true, Some(step.revision), false)))
  }

  method ResolveEvent(store: InMemoryKnowledgeStore, fold: Fold, p: Proposal, similar: Option<Id>, event: Id, revision: Id)
    returns (outcome: Outcome)
    modifies store
    ensures (store.View(), outcome) == Resolve(fold, old(store.View()), Step(p, similar, event, revision))
  {
    var key := BuildIdentityKey(fold, p.eventType, p.fields);
    if key.UnknownType? {
      return UnknownEventType;
    }
    var canonical := if key.Keyed? then Some(KeyString(key.key)) else None;
    if canonical.Some? {
      var existing := store.FindEventByKey(canonical.value);
      if existing.Some? {
        store.LinkEventClaims(existing.value, p.claims);
        return Resolved(Resolution(existing.value, false, None, false));
      }
    }
    store.InsertEventWithRevision(p.eventType, p.title, p.summary, canonical, event, revision);
    store.LinkEventClaims(event, p.claims);
    var flagged := false;
    if canonical.None? && similar.Some? {
      store.RecordPossibleDuplicate(event, similar.value);
      flagged := true;
    }
    outcome := Resolved(Resolution(event, true, Some(revision), flagged));
  }

  // ---- runs ----

  ghost predicate FreshIds(steps: seq<Step>) {
    forall i, j :: 0 <= i < j < |steps| ==> steps[i].event != steps[j].event && steps[i].revision != steps[j].revision
  }

  /** The store after the first `n` proposals. */
  function After(fold: Fold, steps: seq<Step>, n: nat): Knowledge
    requires n <= |steps|
  {
    if n == 0 then EMPTY_KNOWLEDGE else Resolve(fold, After(fold, steps, n - 1), steps[n - 1]).0
  }

  function OutcomeAt(fold: Fold, steps: seq<Step>, i: nat): Outcome
    requires i < |steps|
  {
    Resolve(fold, After(fold, steps, i), steps[i]).1
  }

  function FilingAt(fold: Fold, steps: seq<Step>, i: nat): Filing
    requires i < |steps|
  {
    FilingOf(fold, steps[i].proposal)
  }

  /** Proposals belong together when they share the text of a strong key. */
  predicate SameGroup(fold: Fold, steps: seq<Step>, i: nat, j: nat)
    requires i < |steps| && j < |steps|
  {
    match FilingAt(fold, steps, i)
    case Refused => false
    case Alone => i == j
    case Under(text) => FilingAt(fold, steps, j) == Under(text)
  }

  /** The first proposal of its group. */
  predicate Leads(fold: Fold, steps: seq<Step>, i: nat)
    requires i < |steps|
  {
    SameGroup(fold, steps, i, i) && forall j :: 0 <= j < i ==> !SameGroup(fold, steps, i, j)
  }

  /** Claims of a proposal's group among the first `n`, in proposal order. */
  function ClaimsOf(fold: Fold, steps: seq<Step>, i: nat, n: nat): seq<ClaimId>
    requires i < |steps| && n <= |steps|
  {
    if n == 0 then []
    else ClaimsOf(fold, steps, i, n - 1) + if SameGroup(fold, steps, i, n - 1) then steps[n - 1].proposal.claims else []
  }

  /** The duplicate flags of the keyless proposals that came with a candidate. */
  function Flags(fold: Fold, steps: seq<Step>, n: nat): seq<Duplicate>
    requires n <= |steps|
  {
    if n == 0 then []
    else Flags(fold, steps, n - 1)
         + if FilingAt(fold, steps, n - 1) == Alone && steps[n - 1].similar.Some?
           then [Duplicate(steps[n - 1].event, steps[n - 1].similar.value)] else []
  }

  function TextOf(filing: Filing): Option<string> {
    if filing.Under? then Some(filing.text) else None
  }

  /** The event of a group: opened by its first proposal, holding its claims. */
  ghost predicate HoldsGroup(fold: Fold, steps: seq<Step>, n: nat, k: Knowledge, i: nat)
    requires i < n <= |steps|
  {
    var step := steps[i];
    && step.event in k.events && k.events[step.event] == EventRow(step.proposal.eventType, 1, None, step.revision)
    && step.revision in k.revisions
    && k.revisions[step.revision] == RevisionRow(step.event, 1, step.proposal.title, step.proposal.summary, TextOf(FilingAt(fold, steps, i)))
    && step.event in k.claims && k.claims[step.event] == ClaimsOf(fold, steps, i, n)
    && (FilingAt(fold, steps, i).Under? ==> FilingAt(fold, steps, i).text in k.keys && k.keys[FilingAt(fold, steps, i).text] == step.event)
  }

  ghost predicate LedBy(fold: Fold, steps: seq<Step>, n: nat, i: nat, e: Id)
    requires n <= |steps|
  {
    i < n && Leads(fold, steps, i) && steps[i].event == e
  }

  ghost predicate HasLeader(fold: Fold, steps: seq<Step>, n: nat, e: Id)
    requires n <= |steps|
  {
    exists i :: LedBy(fold, steps, n, i, e)
  }

  ghost predicate RevisionLed(fold: Fold, steps: seq<Step>, n: nat, r: Id)
    requires n <= |steps|
  {
    exists i :: 0 <= i < n && Leads(fold, steps, i) && steps[i].revision == r
  }

  ghost predicate TextLed(fold: Fold, steps: seq<Step>, n: nat, text: string)
    requires n <= |steps|
  {
    exists i :: 0 <= i < n && Leads(fold, steps, i) && FilingAt(fold, steps, i) == Under(text)
  }

  ghost predicate Held(fold: Fold, steps: seq<Step>, n: nat, k: Knowledge)
    requires n <= |steps|
  {
    forall i :: 0 <= i < n && Leads(fold, steps, i) ==> HoldsGroup(fold, steps, n, k, i)
  }

  /** Nothing is stored but for a group. */
  ghost predicate NothingElse(fold: Fold, steps: seq<Step>, n: nat, k: Knowledge)
    requires n <= |steps|
  {
    && (forall e :: e in k.events ==> HasLeader(fold, steps, n, e))
    && (forall r :: r in k.revisions ==> RevisionLed(fold, steps, n, r))
    && (forall text :: text in k.keys ==> TextLed(fold, steps, n, text))
    && k.claims.Keys == k.events.Keys
  }

  ghost predicate Grouped(fold: Fold, steps: seq<Step>, n: nat, k: Knowledge)
    requires n <= |steps|
  {
    Held(fold, steps, n, k) && NothingElse(fold, steps, n, k) && k.duplicates == Flags(fold, steps, n)
  }

  lemma {:induction false} LeaderHasNoMates(fold: Fold, steps: seq<Step>, i: nat, n: nat)
    requires n <= i < |steps| && Leads(fold, steps, i)
    ensures ClaimsOf(fold, steps, i, n) == []
  {
    hide FilingAt;
    if n > 0 {
      assert !SameGroup(fold, steps, i, n - 1);
      hide SameGroup;
      LeaderHasNoMates(fold, steps, i, n - 1);
    }
  }

  lemma LedStays(fold: Fold, steps: seq<Step>, n: nat)
    requires n < |steps|
    ensures forall e :: HasLeader(fold, steps, n, e) ==> HasLeader(fold, steps, n + 1, e)
    ensures forall r :: RevisionLed(fold, steps, n, r) ==> RevisionLed(fold, steps, n + 1, r)
    ensures forall text :: TextLed(fold, steps, n, text) ==> TextLed(fold, steps, n + 1, text)
  {
    hide Leads, FilingAt;
    forall e | HasLeader(fold, steps, n, e) ensures HasLeader(fold, steps, n + 1, e) {
      var i :| LedBy(fold, steps, n, i, e);
      assert LedBy(fold, steps, n + 1, i, e);
    }
  }

  lemma FreshIsNew(fold: Fold, steps: seq<Step>, n: nat)
    requires n < |steps| && FreshIds(steps)
    ensures !HasLeader(fold, steps, n, steps[n].event) && !RevisionLed(fold, steps, n, steps[n].revision)
  {
    hide Leads, FilingAt;
    forall i ensures !LedBy(fold, steps, n, i, steps[n].event) {}
  }

  lemma KnownTextIsLed(fold: Fold, steps: seq<Step>, n: nat, k: Knowledge)
    requires n < |steps| && Grouped(fold, steps, n, k)
    ensures match FilingAt(fold, steps, n)
            case Refused => !Leads(fold, steps, n)
            case Alone => Leads(fold, steps, n)
            case Under(text) => Leads(fold, steps, n) <==> text !in k.keys
  {
    hide FilingAt, Flags, HasLeader, RevisionLed;
    if FilingAt(fold, steps, n).Under? {
      var text := FilingAt(fold, steps, n).text;
      if text in k.keys {
        assert TextLed(fold, steps, n, text);
        var i :| 0 <= i < n && Leads(fold, steps, i) && FilingAt(fold, steps, i) == Under(text);
        assert SameGroup(fold, steps, n, i);
      } else {
        hide TextLed;
        forall j | 0 <= j < n ensures !SameGroup(fold, steps, n, j) {
          if FilingAt(fold, steps, j) == Under(text) {
            var i := LeaderOf(fold, steps, j);
            assert HoldsGroup(fold, steps, n, k, i);
          }
        }
      }
    }
  }

  /** Every accepted proposal has a first of its group. */
  lemma {:induction false} LeaderOf(fold: Fold, steps: seq<Step>, i: nat) returns (first: nat)
    requires i < |steps| && SameGroup(fold, steps, i, i)
    ensures first <= i && Leads(fold, steps, first) && SameGroup(fold, steps, i, first)
  {
    if Leads(fold, steps, i) {
      first := i;
    } else {
      var j :| 0 <= j < i && SameGroup(fold, steps, i, j);
      first := LeaderOf(fold, steps, j);
    }
  }

  lemma OpenedGroup(fold: Fold, steps: seq<Step>, n: nat, k: Knowledge, next: Knowledge)
    requires n < |steps| && FreshIds(steps) && Grouped(fold, steps, n, k) && Leads(fold, steps, n)
    requires next == Link(NewEvent(k, steps[n], TextOf(FilingAt(fold, steps, n))), steps[n].event, steps[n].proposal.claims).(duplicates := next.duplicates)
    requires next.duplicates == Flags(fold, steps, n + 1)
    ensures Grouped(fold, steps, n + 1, next)
  {
    hide Held, Leads, FilingAt, Flags;
    NothingButNew(fold, steps, n, k, next);
    NewIdIsUnused(fold, steps, n, k);
    hide NothingElse;
    OpenedIsHeld(fold, steps, n, k, next);
  }

  lemma NewIdIsUnused(fold: Fold, steps: seq<Step>, n: nat, k: Knowledge)
    requires n < |steps| && FreshIds(steps) && NothingElse(fold, steps, n, k)
    ensures steps[n].event !in k.events && steps[n].event !in k.claims && steps[n].revision !in k.revisions
  {
    FreshIsNew(fold, steps, n);
    hide HasLeader, RevisionLed, TextLed;
  }

  lemma NothingButNew(fold: Fold, steps: seq<Step>, n: nat, k: Knowledge, next: Knowledge)
    requires n < |steps| && NothingElse(fold, steps, n, k) && Leads(fold, steps, n)
    requires next == Link(NewEvent(k, steps[n], TextOf(FilingAt(fold, steps, n))), steps[n].event, steps[n].proposal.claims).(duplicates := next.duplicates)
    ensures NothingElse(fold, steps, n + 1, next)
  {
    LedStays(fold, steps, n);
    OpenedIsLed(fold, steps, n);
    hide HasLeader, RevisionLed, TextLed, FilingAt, Leads;
  }

  lemma OpenedIsHeld(fold: Fold, steps: seq<Step>, n: nat, k: Knowledge, next: Knowledge)
    requires n < |steps| && Held(fold, steps, n, k) && Leads(fold, steps, n)
    requires steps[n].event !in k.events && steps[n].revision !in k.revisions && steps[n].event !in k.claims
    requires next == Link(NewEvent(k, steps[n], TextOf(FilingAt(fold, steps, n))), steps[n].event, steps[n].proposal.claims).(duplicates := next.duplicates)
    ensures Held(fold, steps, n + 1, next)
  {
    hide FilingAt;
    forall i | 0 <= i < n && Leads(fold, steps, i) ensures HoldsGroup(fold, steps, n + 1, next, i) {
      hide HoldsGroup;
      GroupStays(fold, steps, n, k, next, i);
    }
    NewGroupIsHeld(fold, steps, n, k, next);
    hide HoldsGroup, Leads;
  }

  lemma NewGroupIsHeld(fold: Fold, steps: seq<Step>, n: nat, k: Knowledge, next: Knowledge)
    requires n < |steps| && Leads(fold, steps, n) && steps[n].event !in k.claims
    requires next == Link(NewEvent(k, steps[n], TextOf(FilingAt(fold, steps, n))), steps[n].event, steps[n].proposal.claims).(duplicates := next.duplicates)
    ensures HoldsGroup(fold, steps, n + 1, next, n)
  {
    hide FilingAt;
    LeaderHasNoMates(fold, steps, n, n);
    assert SameGroup(fold, steps, n, n);
    hide Leads, SameGroup;
  }

  lemma GroupStays(fold: Fold, steps: seq<Step>, n: nat, k: Knowledge, next: Knowledge, i: nat)
    requires i < n < |steps| && Leads(fold, steps, n) && Leads(fold, steps, i) && HoldsGroup(fold, steps, n, k, i)
    requires steps[n].event !in k.events && steps[n].revision !in k.revisions && steps[n].event !in k.claims
    requires next == Link(NewEvent(k, steps[n], TextOf(FilingAt(fold, steps, n))), steps[n].event, steps[n].proposal.claims).(duplicates := next.duplicates)
    ensures HoldsGroup(fold, steps, n + 1, next, i)
  {
    SameGroupBothWays(fold, steps, n, i);
    hide FilingAt;
    assert !SameGroup(fold, steps, i, n) && SameGroup(fold, steps, i, i);
    assert FilingAt(fold, steps, i).Under? ==> FilingAt(fold, steps, i) != FilingAt(fold, steps, n);
    hide Leads, SameGroup;
  }

  lemma SameGroupBothWays(fold: Fold, steps: seq<Step>, i: nat, j: nat)
    requires i < |steps| && j < |steps|
    ensures SameGroup(fold, steps, i, j) <==> SameGroup(fold, steps, j, i)
  {
    hide FilingAt;
  }

  lemma OpenedIsLed(fold: Fold, steps: seq<Step>, n: nat)
    requires n < |steps| && Leads(fold, steps, n)
    ensures HasLeader(fold, steps, n + 1, steps[n].event) && RevisionLed(fold, steps, n + 1, steps[n].revision)
    ensures FilingAt(fold, steps, n).Under? ==> TextLed(fold, steps, n + 1, FilingAt(fold, steps, n).text)
  {
    hide Leads, FilingAt;
    assert LedBy(fold, steps, n + 1, n, steps[n].event);
  }

  lemma JoinedGroup(fold: Fold, steps: seq<Step>, n: nat, k: Knowledge, text: string, next: Knowledge)
    requires n < |steps| && FreshIds(steps) && Grouped(fold, steps, n, k)
    requires FilingAt(fold, steps, n) == Under(text) && text in k.keys
    requires next == Link(k, k.keys[text], steps[n].proposal.claims)
    ensures Grouped(fold, steps, n + 1, next)
  {
    hide *;
    GroupedParts(fold, steps, n, k);
    KnownTextIsLed(fold, steps, n, k);
    var l := LeaderOfText(fold, steps, n, k, text);
    JoinedIsNothingNew(fold, steps, n, k, l);
    JoinedIsHeld(fold, steps, n, k, l);
    NoNewFlag(fold, steps, n, k, steps[l].event);
    AreGrouped(fold, steps, n + 1, next);
  }

  lemma NoNewFlag(fold: Fold, steps: seq<Step>, n: nat, k: Knowledge, event: Id)
    requires n < |steps| && FilingAt(fold, steps, n).Under?
    ensures Flags(fold, steps, n + 1) == Flags(fold, steps, n)
    ensures Link(k, event, steps[n].proposal.claims).duplicates == k.duplicates
  {
  }

  lemma GroupedParts(fold: Fold, steps: seq<Step>, n: nat, k: Knowledge)
    requires n <= |steps| && Grouped(fold, steps, n, k)
    ensures Held(fold, steps, n, k) && NothingElse(fold, steps, n, k) && k.duplicates == Flags(fold, steps, n)
  {
  }

  lemma AreGrouped(fold: Fold, steps: seq<Step>, n: nat, k: Knowledge)
    requires n <= |steps| && Held(fold, steps, n, k) && NothingElse(fold, steps, n, k) && k.duplicates == Flags(fold, steps, n)
    ensures Grouped(fold, steps, n, k)
  {
  }

  lemma JoinedIsNothingNew(fold: Fold, steps: seq<Step>, n: nat, k: Knowledge, l: nat)
    requires l < n < |steps| && NothingElse(fold, steps, n, k) && steps[l].event in k.claims
    ensures NothingElse(fold, steps, n + 1, Link(k, steps[l].event, steps[n].proposal.claims))
  {
    NothingNew(fold, steps, n, k);
    hide HasLeader, RevisionLed, TextLed;
    var next := Link(k, steps[l].event, steps[n].proposal.claims);
    assert next.claims.Keys == k.claims.Keys;
  }

  lemma LeaderOfText(fold: Fold, steps: seq<Step>, n: nat, k: Knowledge, text: string) returns (l: nat)
    requires n <= |steps| && Held(fold, steps, n, k) && NothingElse(fold, steps, n, k) && text in k.keys
    ensures l < n && Leads(fold, steps, l) && FilingAt(fold, steps, l) == Under(text)
    ensures k.keys[text] == steps[l].event && steps[l].event in k.events && steps[l].event in k.claims
  {
    assert TextLed(fold, steps, n, text);
    hide FilingAt, Leads, HasLeader, RevisionLed;
    l :| 0 <= l < n && Leads(fold, steps, l) && FilingAt(fold, steps, l) == Under(text);
    assert HoldsGroup(fold, steps, n, k, l);
  }

  lemma JoinedIsHeld(fold: Fold, steps: seq<Step>, n: nat, k: Knowledge, l: nat)
    requires l < n < |steps| && FreshIds(steps) && Held(fold, steps, n, k)
    requires Leads(fold, steps, l) && !Leads(fold, steps, n)
    requires FilingAt(fold, steps, n).Under? && FilingAt(fold, steps, l) == FilingAt(fold, steps, n)
    ensures Held(fold, steps, n + 1, Link(k, steps[l].event, steps[n].proposal.claims))
  {
    hide FilingAt;
    var next := Link(k, steps[l].event, steps[n].proposal.claims);
    forall i | 0 <= i < n && Leads(fold, steps, i) ensures HoldsGroup(fold, steps, n + 1, next, i) {
      assert HoldsGroup(fold, steps, n, k, i);
      OneLeaderEach(fold, steps, i, l);
      assert SameGroup(fold, steps, i, n) <==> SameGroup(fold, steps, i, l);
      hide Leads, Held, SameGroup;
      if i != l { assert steps[i].event != steps[l].event; }
    }
  }

  lemma OneLeaderEach(fold: Fold, steps: seq<Step>, i: nat, j: nat)
    requires i < |steps| && j < |steps| && Leads(fold, steps, i) && Leads(fold, steps, j)
    ensures SameGroup(fold, steps, i, j) <==> i == j
  {
    hide FilingAt;
    SameGroupBothWays(fold, steps, i, j);
  }

  lemma IgnoredStep(fold: Fold, steps: seq<Step>, n: nat, k: Knowledge)
    requires n < |steps| && Grouped(fold, steps, n, k) && FilingAt(fold, steps, n) == Refused
    ensures Grouped(fold, steps, n + 1, k)
  {
    NothingNew(fold, steps, n, k);
    hide NothingElse;
    IgnoredIsHeld(fold, steps, n, k);
    hide Held;
  }

  lemma NothingNew(fold: Fold, steps: seq<Step>, n: nat, k: Knowledge)
    requires n < |steps| && NothingElse(fold, steps, n, k)
    ensures NothingElse(fold, steps, n + 1, k)
  {
    LedStays(fold, steps, n);
    hide HasLeader, RevisionLed, TextLed;
  }

  lemma IgnoredIsHeld(fold: Fold, steps: seq<Step>, n: nat, k: Knowledge)
    requires n < |steps| && Held(fold, steps, n, k) && FilingAt(fold, steps, n) == Refused
    ensures Held(fold, steps, n + 1, k)
  {
    hide FilingAt;
    forall i | 0 <= i < n && Leads(fold, steps, i) ensures HoldsGroup(fold, steps, n + 1, k, i) {
      assert HoldsGroup(fold, steps, n, k, i);
      assert !SameGroup(fold, steps, i, n) && SameGroup(fold, steps, i, i);
      hide Held, Leads, SameGroup;
    }
    assert !Leads(fold, steps, n);
  }

  /** After any proposals there is one event for each group, and nothing else:
      opened by the first of the group, holding the group's claims in order. */
  lemma {:induction false} ResolutionGroupsByKey(fold: Fold, steps: seq<Step>, n: nat)
    requires n <= |steps| && FreshIds(steps)
    ensures Grouped(fold, steps, n, After(fold, steps, n))
  {
    hide FilingAt, Leads, Resolve, Grouped;
    if n > 0 {
      ResolutionGroupsByKey(fold, steps, n - 1);
      GroupingStep(fold, steps, n - 1, After(fold, steps, n - 1));
    } else {
      NothingYet(fold, steps);
    }
  }

  lemma NothingYet(fold: Fold, steps: seq<Step>)
    ensures Grouped(fold, steps, 0, EMPTY_KNOWLEDGE)
  {
  }

  lemma GroupingStep(fold: Fold, steps: seq<Step>, n: nat, k: Knowledge)
    requires n < |steps| && FreshIds(steps) && Grouped(fold, steps, n, k)
    ensures Grouped(fold, steps, n + 1, Resolve(fold, k, steps[n]).0)
  {
    hide Grouped, Leads, FilingOf;
    KnownTextIsLed(fold, steps, n, k);
    FlagsSoFar(fold, steps, n, k);
    var next := Resolve(fold, k, steps[n]).0;
    match FilingAt(fold, steps, n) {
      case Refused => IgnoredStep(fold, steps, n, k);
      case Alone => OpenedGroup(fold, steps, n, k, next);
      case Under(text) =>
        if text in k.keys {
          JoinedGroup(fold, steps, n, k, text, next);
        } else {
          OpenedGroup(fold, steps, n, k, next);
        }
    }
  }

  lemma FlagsSoFar(fold: Fold, steps: seq<Step>, n: nat, k: Knowledge)
    requires n <= |steps| && Grouped(fold, steps, n, k)
    ensures k.duplicates == Flags(fold, steps, n)
  {
  }

  /** Proposals resolve to one event exactly when they share a key's text. */
  lemma SameEventExactlyWhen(fold: Fold, steps: seq<Step>, i: nat, j: nat)
    requires i < |steps| && j < |steps| && FreshIds(steps)
    requires OutcomeAt(fold, steps, i).Resolved? && OutcomeAt(fold, steps, j).Resolved?
    ensures OutcomeAt(fold, steps, i).resolution.event == OutcomeAt(fold, steps, j).resolution.event
       <==> SameGroup(fold, steps, i, j)
  {
    var a := ResolvedToLeader(fold, steps, i);
    var b := ResolvedToLeader(fold, steps, j);
    hide Resolve, After, KeyOf;
    assert a == b || SameGroup(fold, steps, a, b) ==> a == b by {
      if a < b { assert !SameGroup(fold, steps, b, a); } else if b < a { assert !SameGroup(fold, steps, a, b); }
    }
    assert a != b ==> steps[a].event != steps[b].event;
  }

  /** Only a proposal of an unlisted type is refused, and it changes nothing. */
  lemma RefusedExactlyWhen(fold: Fold, k: Knowledge, step: Step)
    ensures Resolve(fold, k, step).1 == UnknownEventType <==>
      step.proposal.eventType !in {"paper_version", "product_release", "product_change", "commercial_announcement",
                                   "research_result", "correction", "retraction", "other"}
    ensures Resolve(fold, k, step).1 == UnknownEventType ==> Resolve(fold, k, step).0 == k
  {
    hide KeyOf;
    KeyedExactlyWhen(fold, step.proposal.eventType, step.proposal.fields);
  }

  /** A revision is told of exactly with a new event, and a possible duplicate
      exactly for a keyless proposal that came with a candidate. */
  lemma ResolutionTells(fold: Fold, k: Knowledge, step: Step)
    requires Resolve(fold, k, step).1.Resolved?
    ensures var r := Resolve(fold, k, step).1.resolution;
      && r.revision == (if r.created then Some(step.revision) else None)
      && (r.flagged <==> KeyOf(fold, step.proposal.eventType, step.proposal.fields).Unkeyed? && step.similar.Some?)
  {
    hide KeyOf;
  }

  lemma ResolvedToLeader(fold: Fold, steps: seq<Step>, i: nat) returns (first: nat)
    requires i < |steps| && FreshIds(steps) && OutcomeAt(fold, steps, i).Resolved?
    ensures first <= i && Leads(fold, steps, first) && SameGroup(fold, steps, i, first)
    ensures OutcomeAt(fold, steps, i).resolution.event == steps[first].event
    ensures OutcomeAt(fold, steps, i).resolution.created <==> Leads(fold, steps, i)
  {
    var k := After(fold, steps, i);
    ResolutionGroupsByKey(fold, steps, i);
    KnownTextIsLed(fold, steps, i, k);
    first := LeaderOf(fold, steps, i);
    hide NothingElse;
    if first < i { assert HoldsGroup(fold, steps, i, k, first); }
  }

  /** The stored text of the proposal's key, if it has one, stands for it alone:
      it is not ambiguous at all, or only for keys that cannot be built. */
  ghost predicate KeyStandsAlone(fold: Fold, p: Proposal) {
    var key := KeyOf(fold, p.eventType, p.fields);
    key.Keyed? ==> !Ambiguous(key.key.components) || (BuiltKeys.CaseFolds(fold) && !BuiltKeys.Splittable(key.key))
  }

  /** Two proposals of a run, the key of one standing alone, resolve to one event
      if and only if both have a strong key and the keys pass the merge gate. */
  lemma MergedExactlyWhenGatePasses(fold: Fold, steps: seq<Step>, i: nat, j: nat)
    requires i < |steps| && j < |steps| && i != j && FreshIds(steps)
    requires OutcomeAt(fold, steps, i).Resolved? && OutcomeAt(fold, steps, j).Resolved?
    requires KeyStandsAlone(fold, steps[i].proposal)
    ensures OutcomeAt(fold, steps, i).resolution.event == OutcomeAt(fold, steps, j).resolution.event
       <==> (var a := KeyOf(fold, steps[i].proposal.eventType, steps[i].proposal.fields);
             var b := KeyOf(fold, steps[j].proposal.eventType, steps[j].proposal.fields);
             a.Keyed? && b.Keyed? && CanAutoMerge(a.key, b.key))
  {
    SameEventExactlyWhen(fold, steps, i, j);
    SameTextIsGate(fold, steps[i].proposal, steps[j].proposal);
    hide OutcomeAt, KeyOf, KeyStandsAlone, KeyString, CanAutoMerge;
  }

  lemma SameTextIsGate(fold: Fold, p: Proposal, q: Proposal)
    requires KeyStandsAlone(fold, p)
    ensures var a, b := KeyOf(fold, p.eventType, p.fields), KeyOf(fold, q.eventType, q.fields);
      a.Keyed? && b.Keyed? ==> (KeyString(a.key) == KeyString(b.key) <==> CanAutoMerge(a.key, b.key))
  {
    var a, b := KeyOf(fold, p.eventType, p.fields), KeyOf(fold, q.eventType, q.fields);
    if a.Keyed? && b.Keyed? {
      BuiltKeysAreWellFormed(fold, p.eventType, p.fields);
      BuiltKeysAreWellFormed(fold, q.eventType, q.fields);
      assert BuiltKeys.IsBuilt(fold, a.key) && BuiltKeys.IsBuilt(fold, b.key);
      hide KeyOf, WellFormed, KeyString, Ambiguous, BuiltKeys.CaseFolds, BuiltKeys.Splittable, BuiltKeys.IsBuilt;
      if Ambiguous(a.key.components) {
        BuiltKeys.BuiltTextIsFaithfulExactlyWhen(fold, a.key);
      } else {
        KeyTextIsFaithfulExactlyWhen(a.key);
      }
      if CanAutoMerge(a.key, b.key) { SameKeySameText(a.key, b.key); }
    }
  }

  lemma SameKeySameText(a: StrongKey, b: StrongKey)
    requires CanAutoMerge(a, b)
    ensures KeyString(a) == KeyString(b)
  {
  }

  // ---- how many events ----

  function Texts(fold: Fold, steps: seq<Step>, n: nat): set<string>
    requires n <= |steps|
  {
    set i | 0 <= i < n && FilingAt(fold, steps, i).Under? :: FilingAt(fold, steps, i).text
  }

  function LoneCount(fold: Fold, steps: seq<Step>, n: nat): nat
    requires n <= |steps|
  {
    if n == 0 then 0 else LoneCount(fold, steps, n - 1) + if FilingAt(fold, steps, n - 1) == Alone then 1 else 0
  }

  /** One event for each distinct key and one for each keyless proposal. */
  lemma {:induction false} EventsAreCounted(fold: Fold, steps: seq<Step>, n: nat)
    requires n <= |steps| && FreshIds(steps)
    ensures |After(fold, steps, n).events.Keys| == |Texts(fold, steps, n)| + LoneCount(fold, steps, n)
    ensures After(fold, steps, n).keys.Keys == Texts(fold, steps, n)
  {
    hide Grouped, Resolve, Texts, LoneCount;
    if n > 0 {
      EventsAreCounted(fold, steps, n - 1);
      ResolutionGroupsByKey(fold, steps, n - 1);
      CountGrows(fold, steps, n - 1, After(fold, steps, n - 1));
    } else {
      NoneToCount(fold, steps);
    }
  }

  lemma NoneToCount(fold: Fold, steps: seq<Step>)
    ensures Texts(fold, steps, 0) == {} && LoneCount(fold, steps, 0) == 0
  {
    hide FilingOf;
  }

  lemma CountGrows(fold: Fold, steps: seq<Step>, n: nat, k: Knowledge)
    requires n < |steps| && FreshIds(steps) && Grouped(fold, steps, n, k)
    requires |k.events.Keys| == |Texts(fold, steps, n)| + LoneCount(fold, steps, n) && k.keys.Keys == Texts(fold, steps, n)
    ensures var next := Resolve(fold, k, steps[n]).0;
            && |next.events.Keys| == |Texts(fold, steps, n + 1)| + LoneCount(fold, steps, n + 1)
            && next.keys.Keys == Texts(fold, steps, n + 1)
  {
    hide FilingOf, Grouped, Resolve, Texts;
    FreshIsUnused(fold, steps, n, k);
    EventsGrow(fold, k, steps[n]);
    TextsGrow(fold, steps, n);
  }

  lemma TextsGrow(fold: Fold, steps: seq<Step>, n: nat)
    requires n < |steps|
    ensures Texts(fold, steps, n + 1)
         == Texts(fold, steps, n) + match FilingAt(fold, steps, n) case Under(text) => {text} case _ => {}
  {
    hide FilingOf;
  }

  lemma FreshIsUnused(fold: Fold, steps: seq<Step>, n: nat, k: Knowledge)
    requires n < |steps| && FreshIds(steps) && Grouped(fold, steps, n, k)
    ensures steps[n].event !in k.events
  {
    hide NothingElse;
    NewIdIsUnused(fold, steps, n, k);
  }

  lemma EventsGrow(fold: Fold, k: Knowledge, step: Step)
    requires step.event !in k.events
    ensures var next, filing := Resolve(fold, k, step).0, FilingOf(fold, step.proposal);
            && |next.events.Keys| - |next.keys.Keys| == |k.events.Keys| - |k.keys.Keys| + (if filing == Alone then 1 else 0)
            && next.keys.Keys == k.keys.Keys + match filing case Under(text) => {text} case _ => {}
  {
    var next, filing := Resolve(fold, k, step).0, FilingOf(fold, step.proposal);
    hide *;
    ResolveCases(fold, k, step);
    match filing
    case Refused =>
    case Alone => NewEventIsOneMore(k, step, None);
    case Under(text) =>
      NewEventIsOneMore(k, step, Some(text));
      if text in k.keys { assert k.keys.Keys + {text} == k.keys.Keys; }
  }

  lemma ResolveCases(fold: Fold, k: Knowledge, step: Step)
    ensures var next, filing := Resolve(fold, k, step).0, FilingOf(fold, step.proposal);
            match filing
            case Refused => next == k
            case Alone => next.events == NewEvent(k, step, None).events && next.keys == NewEvent(k, step, None).keys
            case Under(text) =>
              if text in k.keys then next.events == k.events && next.keys == k.keys
              else next.events == NewEvent(k, step, Some(text)).events && next.keys == NewEvent(k, step, Some(text)).keys
  {
    hide FilingOf, NewEvent;
  }

  lemma NewEventIsOneMore(k: Knowledge, step: Step, key: Option<string>)
    requires step.event !in k.events
    ensures |NewEvent(k, step, key).events.Keys| == |k.events.Keys| + 1
    ensures match key
            case None => NewEvent(k, step, key).keys == k.keys
            case Some(text) =>
              && NewEvent(k, step, key).keys.Keys == k.keys.Keys + {text}
              && (text !in k.keys ==> |NewEvent(k, step, key).keys.Keys| == |k.keys.Keys| + 1)
  {
    var event := EventRow(step.proposal.eventType, 1, None, step.revision);
    var next := NewEvent(k, step, key);
    assert next.events == k.events[step.event := event];
    assert key.Some? ==> next.keys == k.keys[key.value := step.event];
    hide NewEvent;
    Put(k.events, step.event, event);
    if key.Some? { Put(k.keys, key.value, step.event); }
  }

  lemma Put<K, V>(m: map<K, V>, k: K, v: V)
    ensures m[k := v].Keys == m.Keys + {k}
    ensures k !in m ==> |m[k := v].Keys| == |m.Keys| + 1
  {
  }
}
