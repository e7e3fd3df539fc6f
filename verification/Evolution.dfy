/** Evolution graphs: the edge gates, the cycle rejection and the build. */
module Evolution {
  import opened Options
  import Lexicographic

  datatype EdgeDraft = EdgeDraft(
    fromNode: string,
    toNode: string,
    relation: string,
    basis: string,
    evidenceRefs: seq<string>)

  type EdgeKey = (string, string, string)

  datatype Reason = SelfLoop | NoBasis | InferredWithoutEvidence | Duplicate

  datatype Dropped = Dropped(edge: EdgeDraft, reason: Reason)

  predicate CycleRelation(relation: string) {
    relation in {"updates", "replaces", "extends"}
  }

  predicate EvidenceRequired(relation: string) {
    relation in {"validates", "refutes", "applies"}
  }

  /** The undirected endpoints of a parallel edge, smaller first. */
  function NormalizeParallel(a: string, b: string): (string, string) {
    if Lexicographic.Less(b, a) then (b, a) else (a, b)
  }

  function Normalized(e: EdgeDraft): EdgeKey {
    if e.relation == "parallel" then
      var (low, high) := NormalizeParallel(e.fromNode, e.toNode);
      (low, high, e.relation)
    else (e.fromNode, e.toNode, e.relation)
  }

  /** Two drafts have one key exactly when they are the same relation between
      the same endpoints, in either order if it is `parallel`. */
  lemma KeysIdentifyEdges(d: EdgeDraft, e: EdgeDraft)
    ensures Normalized(d) == Normalized(e) <==>
      d.relation == e.relation &&
      ((d.fromNode == e.fromNode && d.toNode == e.toNode)
       || (d.relation == "parallel" && d.fromNode == e.toNode && d.toNode == e.fromNode))
  {
    Lexicographic.Trichotomy(d.fromNode, d.toNode);
    Lexicographic.Trichotomy(e.fromNode, e.toNode);
    if Lexicographic.Less(d.fromNode, d.toNode) { Lexicographic.Asymmetric(d.fromNode, d.toNode); }
    if Lexicographic.Less(e.fromNode, e.toNode) { Lexicographic.Asymmetric(e.fromNode, e.toNode); }
  }

  // ---- the gates ----

  /** The first gate a draft fails on its own, if any. */
  function GateFailure(d: EdgeDraft): Option<Reason> {
    if d.fromNode == d.toNode then Some(SelfLoop)
    else if d.basis != "explicit" && d.basis != "inferred" then Some(NoBasis)
    else if d.basis == "inferred" && EvidenceRequired(d.relation) && d.evidenceRefs == [] then Some(InferredWithoutEvidence)
    else None
  }

  /** Draft `i` repeats the edge of an earlier draft that passes the gates. */
  predicate Repeats(drafts: seq<EdgeDraft>, i: nat)
    requires i < |drafts|
  {
    exists j :: 0 <= j < i && GateFailure(drafts[j]).None? && Normalized(drafts[j]) == Normalized(drafts[i])
  }

  /** What happens to draft `i`: `None` keeps it. */
  function Verdict(drafts: seq<EdgeDraft>, i: nat): Option<Reason>
    requires i < |drafts|
  {
    if GateFailure(drafts[i]).Some? then GateFailure(drafts[i])
    else if Repeats(drafts, i) then Some(Duplicate)
    else None
  }

  function KeptOf(drafts: seq<EdgeDraft>, n: nat): seq<EdgeDraft>
    requires n <= |drafts|
  {
    if n == 0 then []
    else KeptOf(drafts, n - 1) + (if Verdict(drafts, n - 1).None? then [drafts[n - 1]] else [])
  }

  function DroppedOf(drafts: seq<EdgeDraft>, n: nat): seq<Dropped>
    requires n <= |drafts|
  {
    if n == 0 then []
    else DroppedOf(drafts, n - 1)
         + (if Verdict(drafts, n - 1).Some? then [Dropped(drafts[n - 1], Verdict(drafts, n - 1).value)] else [])
  }

  /** Every draft is kept or dropped by its verdict, in the order given. */
  ghost predicate Gated(drafts: seq<EdgeDraft>, kept: seq<EdgeDraft>, dropped: seq<Dropped>) {
    kept == KeptOf(drafts, |drafts|) && dropped == DroppedOf(drafts, |drafts|)
  }

  /** The gates in one pass. */
  method ValidateEdges(drafts: seq<EdgeDraft>) returns (kept: seq<EdgeDraft>, dropped: seq<Dropped>)
    ensures Gated(drafts, kept, dropped)
  {
    kept, dropped := [], [];
    var seen: set<EdgeKey> := {};
    for i := 0 to |drafts|
      invariant kept == KeptOf(drafts, i) && dropped == DroppedOf(drafts, i)
      invariant forall k :: k in seen <==>
        exists j :: 0 <= j < i && GateFailure(drafts[j]).None? && Normalized(drafts[j]) == k
    {
      var draft := drafts[i];
      if draft.fromNode == draft.toNode {
        dropped := dropped + [Dropped(draft, SelfLoop)];
      } else if draft.basis != "explicit" && draft.basis != "inferred" {
        dropped := dropped + [Dropped(draft, NoBasis)];
      } else if draft.basis == "inferred" && EvidenceRequired(draft.relation) && draft.evidenceRefs == [] {
        dropped := dropped + [Dropped(draft, InferredWithoutEvidence)];
      } else if Normalized(draft) in seen {
        dropped := dropped + [Dropped(draft, Duplicate)];
      } else {
        seen := seen + {Normalized(draft)};
        kept := kept + [draft];
      }
    }
  }

  ghost function Edges(dropped: seq<Dropped>): seq<EdgeDraft> {
    seq(|dropped|, i requires 0 <= i < |dropped| => dropped[i].edge)
  }

  /** Kept and dropped together are the drafts, no draft lost or added. */
  lemma {:induction false} GatesAccount(drafts: seq<EdgeDraft>, n: nat)
    requires n <= |drafts|
    ensures multiset(KeptOf(drafts, n)) + multiset(Edges(DroppedOf(drafts, n))) == multiset(drafts[..n])
  {
    if n == 0 {
      assert Edges([]) == [];
    } else {
      GatesAccount(drafts, n - 1);
      var d := drafts[n - 1];
      var kept, dropped := KeptOf(drafts, n - 1), DroppedOf(drafts, n - 1);
      assert drafts[..n] == drafts[..n - 1] + [d];
      OneMoreDraft(kept, Edges(dropped), drafts[..n - 1], d);
      var verdict := Verdict(drafts, n - 1);
      if verdict.Some? {
        assert KeptOf(drafts, n) == kept && DroppedOf(drafts, n) == dropped + [Dropped(d, verdict.value)];
        hide *;
        EdgesOfOneMore(dropped, d, verdict.value);
      } else {
        assert KeptOf(drafts, n) == kept + [d] && DroppedOf(drafts, n) == dropped;
      }
    }
  }

  lemma OneMoreDraft(kept: seq<EdgeDraft>, dropped: seq<EdgeDraft>, all: seq<EdgeDraft>, d: EdgeDraft)
    requires multiset(kept) + multiset(dropped) == multiset(all)
    ensures multiset(kept + [d]) + multiset(dropped) == multiset(all + [d])
    ensures multiset(kept) + multiset(dropped + [d]) == multiset(all + [d])
  {}

  lemma EdgesOfOneMore(dropped: seq<Dropped>, d: EdgeDraft, reason: Reason)
    ensures Edges(dropped + [Dropped(d, reason)]) == Edges(dropped) + [d]
  {}

  // ---- what the gates let through, over the fields of the drafts ----

  /** What a draft needs on its own: two different endpoints, a stated basis,
      and evidence where a judgement is only inferred. */
  predicate Grounded(d: EdgeDraft) {
    && d.fromNode != d.toNode
    && d.basis in {"explicit", "inferred"}
    && (d.basis == "inferred" && d.relation in {"validates", "refutes", "applies"} ==> d.evidenceRefs != [])
  }

  /** One relation between the same endpoints, `parallel` in either order. */
  predicate SameEdge(d: EdgeDraft, e: EdgeDraft) {
    && d.relation == e.relation
    && ((d.fromNode == e.fromNode && d.toNode == e.toNode)
        || (d.relation == "parallel" && d.fromNode == e.toNode && d.toNode == e.fromNode))
  }

  /** Draft `i` is grounded and no grounded draft before it is the same edge. */
  ghost predicate Admitted(drafts: seq<EdgeDraft>, i: nat)
    requires i < |drafts|
  {
    Grounded(drafts[i]) && forall j :: 0 <= j < i && Grounded(drafts[j]) ==> !SameEdge(drafts[j], drafts[i])
  }

  /** `reason` is the first condition that draft `i` fails. */
  ghost predicate FirstFault(drafts: seq<EdgeDraft>, i: nat, reason: Reason)
    requires i < |drafts|
  {
    var d := drafts[i];
    match reason
    case SelfLoop => d.fromNode == d.toNode
    case NoBasis => d.fromNode != d.toNode && d.basis !in {"explicit", "inferred"}
    case InferredWithoutEvidence =>
      && d.fromNode != d.toNode && d.basis == "inferred"
      && d.relation in {"validates", "refutes", "applies"} && d.evidenceRefs == []
    case Duplicate => Grounded(d) && exists j :: 0 <= j < i && Grounded(drafts[j]) && SameEdge(drafts[j], d)
  }

  ghost predicate Rising(at: seq<nat>, n: nat) {
    && (forall k :: 0 <= k < |at| ==> at[k] < n)
    && (forall k, m :: 0 <= k < m < |at| ==> at[k] < at[m])
  }

  lemma GroundedPasses(d: EdgeDraft)
    ensures GateFailure(d).None? <==> Grounded(d)
  {}

  lemma VerdictMeans(drafts: seq<EdgeDraft>, i: nat)
    requires i < |drafts|
    ensures Verdict(drafts, i).None? <==> Admitted(drafts, i)
    ensures Verdict(drafts, i).Some? ==> FirstFault(drafts, i, Verdict(drafts, i).value)
  {
    hide Normalized, NormalizeParallel;
    GroundedPasses(drafts[i]);
    forall j | 0 <= j < i
      ensures (GateFailure(drafts[j]).None? <==> Grounded(drafts[j]))
           && (Normalized(drafts[j]) == Normalized(drafts[i]) <==> SameEdge(drafts[j], drafts[i]))
    {
      GroundedPasses(drafts[j]);
      KeysIdentifyEdges(drafts[j], drafts[i]);
    }
  }

  /** A draft is kept, in its place, if and only if its endpoints differ, it has
      a basis, an inferred judgement has evidence, and no earlier draft meeting
      these three is the same edge. */
  lemma {:induction false} KeptExactlyWhen(drafts: seq<EdgeDraft>, n: nat) returns (at: seq<nat>)
    requires n <= |drafts|
    ensures Rising(at, n) && |at| == |KeptOf(drafts, n)|
    ensures forall k :: 0 <= k < |at| ==> KeptOf(drafts, n)[k] == drafts[at[k]]
    ensures forall i :: 0 <= i < n ==> (i in at <==> Admitted(drafts, i))
  {
    hide Verdict, Admitted;
    at := [];
    if n > 0 {
      at := KeptExactlyWhen(drafts, n - 1);
      VerdictMeans(drafts, n - 1);
      if Verdict(drafts, n - 1).None? { at := at + [n - 1]; }
    }
  }

  /** Every other draft is dropped, in its place, with the first condition it
      fails. */
  lemma {:induction false} DroppedExactlyWhen(drafts: seq<EdgeDraft>, n: nat) returns (at: seq<nat>)
    requires n <= |drafts|
    ensures Rising(at, n) && |at| == |DroppedOf(drafts, n)|
    ensures forall k :: 0 <= k < |at| ==>
      DroppedOf(drafts, n)[k].edge == drafts[at[k]] && FirstFault(drafts, at[k], DroppedOf(drafts, n)[k].reason)
    ensures forall i :: 0 <= i < n ==> (i in at <==> !Admitted(drafts, i))
  {
    hide Verdict, Admitted, FirstFault;
    at := [];
    if n > 0 {
      at := DroppedExactlyWhen(drafts, n - 1);
      VerdictMeans(drafts, n - 1);
      if Verdict(drafts, n - 1).Some? { at := at + [n - 1]; }
    }
  }

  /** No draft has two first faults, and an admitted one has none. */
  lemma FaultsAreExclusive(drafts: seq<EdgeDraft>, i: nat, reason: Reason, other: Reason)
    requires i < |drafts| && FirstFault(drafts, i, reason)
    ensures !Admitted(drafts, i)
    ensures FirstFault(drafts, i, other) ==> other == reason
  {}

  /** The chain over all grounded drafts, whether kept or repeated. */
  ghost predicate DraftArrow(drafts: seq<EdgeDraft>, a: string, b: string) {
    exists i :: 0 <= i < |drafts| && Grounded(drafts[i]) && drafts[i].relation in {"updates", "replaces", "extends"}
                && drafts[i].fromNode == a && drafts[i].toNode == b
  }

  ghost predicate DraftCycle(drafts: seq<EdgeDraft>, p: seq<string>) {
    |p| >= 2 && p[0] == p[|p| - 1] && forall i :: 0 <= i < |p| - 1 ==> DraftArrow(drafts, p[i], p[i + 1])
  }

  lemma {:induction false} FirstOfItsEdge(drafts: seq<EdgeDraft>, i: nat) returns (j: nat)
    requires i < |drafts| && Grounded(drafts[i])
    ensures j <= i && Admitted(drafts, j) && SameEdge(drafts[j], drafts[i])
    decreases i
  {
    j := i;
    if !Admitted(drafts, i) {
      var k :| 0 <= k < i && Grounded(drafts[k]) && SameEdge(drafts[k], drafts[i]);
      j := FirstOfItsEdge(drafts, k);
    }
  }

  lemma KeptArrows(drafts: seq<EdgeDraft>, a: string, b: string)
    ensures ChainEdge(KeptOf(drafts, |drafts|), a, b) <==> DraftArrow(drafts, a, b)
  {
    var kept := KeptOf(drafts, |drafts|);
    var at := KeptExactlyWhen(drafts, |drafts|);
    hide KeptOf;
    if ChainEdge(kept, a, b) {
      var k :| 0 <= k < |kept| && CycleRelation(kept[k].relation) && kept[k].fromNode == a && kept[k].toNode == b;
      assert at[k] in at && Admitted(drafts, at[k]);
    }
    if DraftArrow(drafts, a, b) {
      var i :| 0 <= i < |drafts| && Grounded(drafts[i]) && drafts[i].relation in {"updates", "replaces", "extends"}
               && drafts[i].fromNode == a && drafts[i].toNode == b;
      var j := FirstOfItsEdge(drafts, i);
      var k :| 0 <= k < |at| && at[k] == j;
      assert kept[k] == drafts[j];
    }
  }

  /** The kept edges close a cycle exactly where the grounded drafts do. */
  lemma KeptCycles(drafts: seq<EdgeDraft>, p: seq<string>)
    ensures ChainCycle(KeptOf(drafts, |drafts|), p) <==> DraftCycle(drafts, p)
  {
    hide ChainEdge, DraftArrow, KeptOf;
    forall i | 0 <= i < |p| - 1
      ensures ChainEdge(KeptOf(drafts, |drafts|), p[i], p[i + 1]) <==> DraftArrow(drafts, p[i], p[i + 1])
    {
      KeptArrows(drafts, p[i], p[i + 1]);
    }
  }

  /** Every kept edge is grounded and no two of them are the same edge. */
  lemma KeptAreSound(drafts: seq<EdgeDraft>)
    ensures var kept := KeptOf(drafts, |drafts|);
      && (forall e :: e in kept ==> Grounded(e))
      && (forall i, k :: 0 <= i < k < |kept| ==> !SameEdge(kept[i], kept[k]))
      && (kept == [] <==> forall i :: 0 <= i < |drafts| ==> !Grounded(drafts[i]))
  {
    hide KeptOf, Grounded, SameEdge, Admitted;
    var kept := KeptOf(drafts, |drafts|);
    var at := KeptExactlyWhen(drafts, |drafts|);
    forall k | 0 <= k < |kept| ensures Grounded(kept[k]) {
      AdmittedAt(drafts, at, k, k);
    }
    forall i, k | 0 <= i < k < |kept| ensures !SameEdge(kept[i], kept[k]) {
      AdmittedAt(drafts, at, i, i);
      AdmittedAt(drafts, at, i, k);
    }
    forall i | 0 <= i < |drafts| && Grounded(drafts[i]) ensures kept != [] {
      var j := FirstOfItsEdge(drafts, i);
    }
    if kept != [] { assert Grounded(drafts[at[0]]); }
  }

  lemma AdmittedAt(drafts: seq<EdgeDraft>, at: seq<nat>, i: nat, k: nat)
    requires Rising(at, |drafts|) && i <= k < |at|
    requires forall m :: 0 <= m < |drafts| ==> (m in at ==> Admitted(drafts, m))
    ensures Grounded(drafts[at[k]])
    ensures i < k && Grounded(drafts[at[i]]) ==> !SameEdge(drafts[at[i]], drafts[at[k]])
  {
    hide Grounded, SameEdge;
    assert at[k] in at;
  }

  // ---- the chain graph ----

  type Graph = map<string, seq<string>>

  function Neighbours(g: Graph, node: string): seq<string> {
    if node in g then g[node] else []
  }

  ghost predicate ChainEdge(edges: seq<EdgeDraft>, a: string, b: string) {
    exists i :: 0 <= i < |edges| && CycleRelation(edges[i].relation) && edges[i].fromNode == a && edges[i].toNode == b
  }

  ghost predicate IsGraph(g: Graph, edges: seq<EdgeDraft>) {
    && (forall a, b :: b in Neighbours(g, a) <==> ChainEdge(edges, a, b))
    && (forall a :: a in g ==> g[a] != [])
  }

  method BuildGraph(edges: seq<EdgeDraft>) returns (g: Graph)
    ensures IsGraph(g, edges)
  {
    g := map[];
    for i := 0 to |edges|
      invariant IsGraph(g, edges[..i])
    {
      var e := edges[i];
      ghost var g0 := g;
      if CycleRelation(e.relation) {
        g := g[e.fromNode := Neighbours(g, e.fromNode) + [e.toNode]];
      }
      GraphStep(edges, i, g0, g);
    }
    assert edges[..|edges|] == edges;
  }

  lemma GraphStep(edges: seq<EdgeDraft>, i: nat, g: Graph, g': Graph)
    requires i < |edges| && IsGraph(g, edges[..i])
    requires g' == if CycleRelation(edges[i].relation)
                   then g[edges[i].fromNode := Neighbours(g, edges[i].fromNode) + [edges[i].toNode]] else g
    ensures IsGraph(g', edges[..i + 1])
  {
    forall a, b
      ensures ChainEdge(edges[..i + 1], a, b) <==>
        ChainEdge(edges[..i], a, b) || (CycleRelation(edges[i].relation) && edges[i].fromNode == a && edges[i].toNode == b)
    {
      if ChainEdge(edges[..i], a, b) {
        var k :| 0 <= k < i && CycleRelation(edges[..i][k].relation) && edges[..i][k].fromNode == a && edges[..i][k].toNode == b;
        assert edges[..i + 1][k] == edges[..i][k];
      }
      if CycleRelation(edges[i].relation) && edges[i].fromNode == a && edges[i].toNode == b {
        assert edges[..i + 1][i] == edges[i];
      }
    }
    forall a, b
      ensures b in Neighbours(g', a) <==>
        b in Neighbours(g, a) || (CycleRelation(edges[i].relation) && edges[i].fromNode == a && edges[i].toNode == b)
    {
    }
  }

  /** Consecutive nodes are joined by an edge. */
  ghost predicate IsPath(g: Graph, p: seq<string>) {
    forall i :: 0 <= i < |p| - 1 ==> p[i + 1] in Neighbours(g, p[i])
  }

  ghost predicate IsCycle(g: Graph, p: seq<string>) {
    |p| >= 2 && p[0] == p[|p| - 1] && IsPath(g, p)
  }

  ghost predicate Acyclic(g: Graph) {
    forall p :: !IsCycle(g, p)
  }

  /** A finishing order: every edge out of a listed node goes to a node listed
      earlier. */
  ghost predicate Topological(g: Graph, order: seq<string>) {
    && (forall i, j :: 0 <= i < j < |order| ==> order[i] != order[j])
    && (forall i, b :: 0 <= i < |order| && b in Neighbours(g, order[i]) ==> exists k :: 0 <= k < i && order[k] == b)
  }

  lemma {:induction false} PathsDescend(g: Graph, order: seq<string>, p: seq<string>, i: nat)
    requires Topological(g, order) && IsPath(g, p) && |p| >= 2
    requires i < |order| && order[i] == p[0]
    ensures exists k :: 0 <= k < i && order[k] == p[|p| - 1]
    decreases |p|
  {
    assert p[1] in Neighbours(g, p[0]);
    var k :| 0 <= k < i && order[k] == p[1];
    if |p| > 2 {
      assert IsPath(g, p[1..]) by {
        forall m | 0 <= m < |p[1..]| - 1 ensures p[1..][m + 1] in Neighbours(g, p[1..][m]) {
          assert p[m + 1 + 1] in Neighbours(g, p[m + 1]);
        }
      }
      PathsDescend(g, order, p[1..], k);
      assert p[1..][|p[1..]| - 1] == p[|p| - 1];
    }
  }

  /** A finishing order that lists every source node rules out cycles. */
  lemma OrderedIsAcyclic(g: Graph, order: seq<string>)
    requires Topological(g, order) && forall a :: a in g ==> a in order
    ensures Acyclic(g)
  {
    forall p ensures !IsCycle(g, p) {
      if IsCycle(g, p) {
        assert p[1] in Neighbours(g, p[0]);
        var i :| 0 <= i < |order| && order[i] == p[0];
        PathsDescend(g, order, p, i);
      }
    }
  }

  // ---- depth-first cycle rejection ----

  ghost function NodesOf(g: Graph): set<string> {
    g.Keys + set a, b | a in g && b in g[a] :: b
  }

  /** The traversal's state: 1 marks a node on the stack, 2 a node done. The
      stack is a path, and `order` is a finishing order of the nodes done. */
  ghost predicate Consistent(g: Graph, state: map<string, nat>, stack: seq<string>, order: seq<string>) {
    && (forall n :: n in state ==> state[n] == 1 || state[n] == 2)
    && (forall n :: n in stack <==> n in state && state[n] == 1)
    && (forall n :: n in order <==> n in state && state[n] == 2)
    && (forall i, j :: 0 <= i < j < |stack| ==> stack[i] != stack[j])
    && IsPath(g, stack)
    && Topological(g, order)
  }

  lemma Push(g: Graph, state: map<string, nat>, stack: seq<string>, order: seq<string>, node: string)
    requires Consistent(g, state, stack, order) && node !in state
    requires stack == [] || node in Neighbours(g, stack[|stack| - 1])
    ensures Consistent(g, state[node := 1], stack + [node], order)
  {
    var longer := stack + [node];
    forall i | 0 <= i < |longer| - 1 ensures longer[i + 1] in Neighbours(g, longer[i]) {}
  }

  lemma Pop(g: Graph, state: map<string, nat>, stack: seq<string>, order: seq<string>, node: string)
    requires Consistent(g, state, stack + [node], order)
    requires forall b :: b in Neighbours(g, node) ==> b in order
    ensures Consistent(g, state[node := 2], stack, order + [node])
  {
    var longer := stack + [node];
    assert longer[|stack|] == node;
    FinishNode(g, order, node);
    forall i | 0 <= i < |stack| ensures stack[i] == longer[i] && stack[i] != node {}
    forall i | 0 <= i < |stack| - 1 ensures stack[i + 1] in Neighbours(g, stack[i]) {
      assert longer[i + 1] in Neighbours(g, longer[i]);
    }
    assert forall n :: n in stack ==> n in longer;
    assert forall n :: n in longer ==> n in stack || n == node;
  }

  class CycleDetector {
    const graph: Graph
    var state: map<string, nat>
    var stack: seq<string>
    ghost var order: seq<string>

    constructor (graph: Graph)
      ensures this.graph == graph && Valid() && stack == [] && order == [] && state == map[]
    {
      this.graph := graph;
      state, stack, order := map[], [], [];
    }

    ghost predicate Valid()
      reads this
    {
      Consistent(graph, state, stack, order)
    }

    /** Searches from `node`. Returning normally it leaves the stack as it was,
        `node` done, and every node visited before with its old mark. */
    method Visit(node: string) returns (cycle: Option<seq<string>>)
      requires Valid() && node !in state && node in NodesOf(graph)
      requires stack == [] || node in Neighbours(graph, stack[|stack| - 1])
      modifies this
      ensures cycle.None? ==> Valid() && stack == old(stack) && node in order
      ensures cycle.None? ==> forall n :: n in old(state) ==> n in state && state[n] == old(state)[n]
      ensures cycle.Some? ==> IsCycle(graph, cycle.value)
      decreases NodesOf(graph) - state.Keys
    {
      hide Consistent, IsCycle, NodesOf;
      Push(graph, state, stack, order, node);
      state := state[node := 1];
      stack := stack + [node];
      var neighbours := Neighbours(graph, node);
      for i := 0 to |neighbours|
        invariant Valid()
        invariant stack == old(stack) + [node]
        invariant node in state && state[node] == 1
        invariant forall n :: n in old(state) ==> n in state && state[n] == old(state)[n]
        invariant forall k :: 0 <= k < i ==> neighbours[k] in state && state[neighbours[k]] == 2
      {
        var next := neighbours[i];
        Marks(graph, state, stack, order, next);
        if next in state && state[next] == 1 {
          var at := IndexOf(stack, next);
          ClosesCycle(graph, stack, at, next);
          return Some(stack[at..] + [next]);
        }
        if next !in state {
          NeighbourIsNode(graph, node, next);
          cycle := Visit(next);
          if cycle.Some? {
            return;
          }
          Marks(graph, state, stack, order, next);
        }
      }
      AllDone(graph, state, stack, order, node);
      Pop(graph, state, old(stack), order, node);
      stack := stack[..|stack| - 1];
      state := state[node := 2];
      order := order + [node];
      assert stack == old(stack);
      cycle := None;
    }
  }

  lemma Marks(g: Graph, state: map<string, nat>, stack: seq<string>, order: seq<string>, n: string)
    requires Consistent(g, state, stack, order)
    ensures IsPath(g, stack)
    ensures n in stack <==> n in state && state[n] == 1
    ensures n in order <==> n in state && state[n] == 2
    ensures n in state ==> state[n] == 1 || state[n] == 2
  {}

  lemma AllDone(g: Graph, state: map<string, nat>, stack: seq<string>, order: seq<string>, node: string)
    requires Consistent(g, state, stack, order)
    requires forall k :: 0 <= k < |Neighbours(g, node)| ==>
      Neighbours(g, node)[k] in state && state[Neighbours(g, node)[k]] == 2
    ensures forall b :: b in Neighbours(g, node) ==> b in order
  {}

  lemma NeighbourIsNode(g: Graph, node: string, next: string)
    requires next in Neighbours(g, node)
    ensures next in NodesOf(g)
  {
    assert node in g && next in g[node];
  }

  method IndexOf(s: seq<string>, x: string) returns (i: nat)
    requires x in s
    ensures i < |s| && s[i] == x && x !in s[..i]
  {
    i := 0;
    while s[i] != x
      invariant i < |s| && x in s[i..] && x !in s[..i]
      decreases |s| - i
    {
      i := i + 1;
    }
  }

  lemma ClosesCycle(g: Graph, stack: seq<string>, at: nat, next: string)
    requires IsPath(g, stack) && at < |stack| && stack[at] == next
    requires next in Neighbours(g, stack[|stack| - 1])
    ensures IsCycle(g, stack[at..] + [next])
  {
    var p := stack[at..] + [next];
    forall i | 0 <= i < |p| - 1 ensures p[i + 1] in Neighbours(g, p[i]) {
      if i < |p| - 2 { assert stack[at + i + 1] in Neighbours(g, stack[at + i]); }
    }
  }

  lemma FinishNode(g: Graph, order: seq<string>, node: string)
    requires Topological(g, order) && node !in order
    requires forall b :: b in Neighbours(g, node) ==> b in order
    ensures Topological(g, order + [node])
  {
    var longer := order + [node];
    forall i, b | 0 <= i < |longer| && b in Neighbours(g, longer[i])
      ensures exists k :: 0 <= k < i && longer[k] == b
    {
      if i < |order| {
        var k :| 0 <= k < i && order[k] == b;
        assert longer[k] == b;
      } else {
        var k :| 0 <= k < |order| && order[k] == b;
        assert longer[k] == b;
      }
    }
  }

  /** The chain of updates, replaces and extends closes no cycle. */
  ghost predicate ChainAcyclic(edges: seq<EdgeDraft>) {
    forall p :: !ChainCycle(edges, p)
  }

  ghost predicate ChainCycle(edges: seq<EdgeDraft>, p: seq<string>) {
    |p| >= 2 && p[0] == p[|p| - 1] && forall i :: 0 <= i < |p| - 1 ==> ChainEdge(edges, p[i], p[i + 1])
  }

  /** Returns normally (`None`) exactly when the chain has no cycle; a reported
      list is a cycle of the given edges. */
  method DetectCycles(edges: seq<EdgeDraft>) returns (cycle: Option<seq<string>>)
    ensures cycle.None? <==> ChainAcyclic(edges)
    ensures cycle.Some? ==> ChainCycle(edges, cycle.value)
  {
    var graph := BuildGraph(edges);
    var detector := new CycleDetector(graph);
    var rest := graph.Keys;
    while rest != {}
      invariant detector.Valid() && detector.stack == [] && detector.graph == graph
      invariant rest <= graph.Keys
      invariant forall a :: a in graph && a !in rest ==> a in detector.state
      invariant fresh(detector)
    {
      var node :| node in rest;
      rest := rest - {node};
      if node !in detector.state {
        cycle := detector.Visit(node);
        if cycle.Some? {
          GraphCycles(edges, graph);
          return;
        }
      }
    }
    assert forall a :: a in graph ==> a in detector.order;
    OrderedIsAcyclic(graph, detector.order);
    GraphCycles(edges, graph);
    cycle := None;
  }

  lemma GraphCycles(edges: seq<EdgeDraft>, g: Graph)
    requires IsGraph(g, edges)
    ensures forall p :: IsCycle(g, p) <==> ChainCycle(edges, p)
  {
  }

  // ---- the build ----

  datatype Status = BuildOk | InsufficientEvidence

  datatype BuildResult =
    | Built(status: Status, edges: seq<EdgeDraft>, dropped: seq<Dropped>)
    | CycleRejected(cycle: seq<string>)

  /** A build is rejected exactly when the grounded drafts close a cycle, and
      the report is such a cycle. Otherwise its edges are the gated drafts in
      order: without loops, repeats or cycles, each with its basis, and judged
      insufficient exactly when no draft is grounded or coverage is under the
      floor. */
  method BuildEvolution(drafts: seq<EdgeDraft>, coverage: real, minCoverage: real) returns (r: BuildResult)
    ensures r.Built? <==> forall p :: !DraftCycle(drafts, p)
    ensures r.CycleRejected? ==> DraftCycle(drafts, r.cycle)
    ensures r.Built? ==>
      && Gated(drafts, r.edges, r.dropped)
      && ChainAcyclic(r.edges)
      && (forall e :: e in r.edges ==> Grounded(e))
      && (forall i, k :: 0 <= i < k < |r.edges| ==> !SameEdge(r.edges[i], r.edges[k]))
      && (r.status == InsufficientEvidence <==>
            (forall i :: 0 <= i < |drafts| ==> !Grounded(drafts[i])) || coverage < minCoverage)
  {
    var edges, dropped := ValidateEdges(drafts);
    var cycle := DetectCycles(edges);
    hide Grounded, SameEdge, ChainCycle, DraftCycle, KeptOf, DroppedOf;
    forall p ensures ChainCycle(edges, p) <==> DraftCycle(drafts, p) { KeptCycles(drafts, p); }
    if cycle.Some? {
      return CycleRejected(cycle.value);
    }
    var verified := ExplicitEdges(edges);
    var insufficient := (verified == [] && edges == []) || coverage < minCoverage;
    KeptAreSound(drafts);
    r := Built(if insufficient then InsufficientEvidence else BuildOk, edges, dropped);
  }

  function ExplicitEdges(edges: seq<EdgeDraft>): seq<EdgeDraft> {
    if edges == [] then []
    else (if edges[0].basis == "explicit" then [edges[0]] else []) + ExplicitEdges(edges[1..])
  }
}
