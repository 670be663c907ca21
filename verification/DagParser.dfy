// WorkflowDAGParser.parseAndValidate: structural checks, graph construction and
// the layered Kahn sort.
module DagParser {
  import opened Collections
  import opened Graph
  import opened WorkflowTypes

  datatype ErrorCode =
    | InvalidWorkflowId
    | EmptyWorkflow
    | DagTooLarge
    | InvalidNodeId
    | DuplicateNodeId
    | InvalidCapabilityId
    | InvalidNodeDependency
    | InvalidEdge
    | DagCycleDetected

  datatype Validation =
    | Valid(topologicalOrder: seq<string>, executionTiers: seq<seq<string>>)
    | Invalid(errorCode: ErrorCode)

  // ---- What a workflow means as a graph ----

  function NodeIds(nodes: seq<Node>): set<string> {
    set node | node in nodes :: node.nodeId
  }

  function ArcsInto(deps: seq<string>, id: string): seq<Arc> {
    if deps == [] then [] else ArcsInto(deps[..|deps| - 1], id) + [Arc(Last(deps), id)]
  }

  function DependencyArcs(nodes: seq<Node>): seq<Arc> {
    if nodes == [] then []
    else DependencyArcs(nodes[..|nodes| - 1]) + ArcsInto(DependenciesOf(Last(nodes)), Last(nodes).nodeId)
  }

  function EdgeArcs(edges: seq<Edge>): seq<Arc> {
    if edges == [] then []
    else EdgeArcs(edges[..|edges| - 1]) + [Arc(Last(edges).fromNodeId, Last(edges).toNodeId)]
  }

  /** The union of `dependencies` and `edges`, repeats kept. */
  function Arcs(dag: Dag): seq<Arc> {
    DependencyArcs(dag.nodes) + EdgeArcs(dag.edges)
  }

  /** Some edge leads from one node to the other. */
  predicate EdgeBetween(dag: Dag, source: string, target: string) {
    exists e :: e in dag.edges && e.fromNodeId == source && e.toNodeId == target
  }

  /** The node with the target id lists the source among its dependencies. */
  predicate DependsOn(dag: Dag, target: string, source: string) {
    exists node :: node in dag.nodes && node.nodeId == target && node.dependencies.Some? && source in node.dependencies.value
  }

  lemma ArcsIntoMeaning(deps: seq<string>, id: string, a: Arc)
    ensures a in ArcsInto(deps, id) <==> a.to == id && a.from in deps
  {
    if deps != [] {
      ArcsIntoMeaning(deps[..|deps| - 1], id, a);
      assert deps == deps[..|deps| - 1] + [Last(deps)];
    }
  }

  lemma DependencyArcsMeaning(nodes: seq<Node>, a: Arc)
    ensures a in DependencyArcs(nodes) <==>
      exists node :: node in nodes && node.nodeId == a.to && node.dependencies.Some? && a.from in node.dependencies.value
  {
    if nodes != [] {
      DependencyArcsMeaning(nodes[..|nodes| - 1], a);
      ArcsIntoMeaning(DependenciesOf(Last(nodes)), Last(nodes).nodeId, a);
      assert nodes == nodes[..|nodes| - 1] + [Last(nodes)];
    }
  }

  lemma EdgeArcsMeaning(edges: seq<Edge>, a: Arc)
    ensures a in EdgeArcs(edges) <==> exists e :: e in edges && e.fromNodeId == a.from && e.toNodeId == a.to
  {
    if edges != [] {
      EdgeArcsMeaning(edges[..|edges| - 1], a);
      assert edges == edges[..|edges| - 1] + [Last(edges)];
    }
  }

  /** An arc of the graph is an edge read from source to target, or a dependency read from the listed node to the lister. */
  lemma ArcMeaning(dag: Dag, a: Arc)
    ensures a in Arcs(dag) <==> EdgeBetween(dag, a.from, a.to) || DependsOn(dag, a.to, a.from)
  {
    DependencyArcsMeaning(dag.nodes, a);
    EdgeArcsMeaning(dag.edges, a);
  }

  // ---- What a plan means for the workflow ----

  /** One node runs in a strictly earlier tier than the other. */
  predicate Before(tiers: seq<seq<string>>, m: string, n: string) {
    exists i, j :: 0 <= i < j < |tiers| && m in tiers[i] && n in tiers[j]
  }

  /** Edges lead to later tiers, dependencies come from earlier ones. */
  ghost predicate RespectsOrder(dag: Dag, tiers: seq<seq<string>>) {
    && (forall e :: e in dag.edges ==> Before(tiers, e.fromNodeId, e.toNodeId))
    && (forall node, d :: node in dag.nodes && node.dependencies.Some? && d in node.dependencies.value ==> Before(tiers, d, node.nodeId))
  }

  /** Every node past the first tier is held back by a node of the tier just before. */
  ghost predicate NoSlack(dag: Dag, tiers: seq<seq<string>>) {
    forall i, j, n :: 0 <= i < j < |tiers| && j == i + 1 && n in tiers[j] ==> HeldBack(dag, tiers[i], n)
  }

  predicate HeldBack(dag: Dag, before: seq<string>, n: string) {
    exists m :: m in before && (EdgeBetween(dag, m, n) || DependsOn(dag, n, m))
  }

  lemma ArcIsBefore(nodes: set<string>, arcs: seq<Arc>, tiers: seq<seq<string>>, a: Arc)
    requires Closed(nodes, arcs) && Plan(nodes, arcs, tiers) && a in arcs
    ensures Before(tiers, a.from, a.to)
  {
    var j := CoveredTier(tiers, a.to);
    var i := ParentTier(nodes, arcs, tiers, a, j);
  }

  lemma PlanRespectsOrder(dag: Dag, nodes: set<string>, tiers: seq<seq<string>>)
    requires Closed(nodes, Arcs(dag)) && Plan(nodes, Arcs(dag), tiers)
    ensures RespectsOrder(dag, tiers)
  {
    forall e | e in dag.edges ensures Before(tiers, e.fromNodeId, e.toNodeId) {
      ArcMeaning(dag, Arc(e.fromNodeId, e.toNodeId));
      ArcIsBefore(nodes, Arcs(dag), tiers, Arc(e.fromNodeId, e.toNodeId));
    }
    forall node, d | node in dag.nodes && node.dependencies.Some? && d in node.dependencies.value
      ensures Before(tiers, d, node.nodeId)
    {
      ArcMeaning(dag, Arc(d, node.nodeId));
      ArcIsBefore(nodes, Arcs(dag), tiers, Arc(d, node.nodeId));
    }
  }

  lemma PlanHasNoSlack(dag: Dag, nodes: set<string>, tiers: seq<seq<string>>)
    requires Plan(nodes, Arcs(dag), tiers)
    ensures NoSlack(dag, tiers)
  {
    forall i, j, n | 0 <= i < j < |tiers| && j == i + 1 && n in tiers[j] ensures HeldBack(dag, tiers[i], n) {
      var m := BlockingParent(nodes, Arcs(dag), tiers, j, n);
      ArcMeaning(dag, Arc(m, n));
    }
  }

  // ---- Structural errors: the first one in reading order ----

  function FirstNodeError(nodes: seq<Node>): Option<ErrorCode> {
    if nodes == [] then None
    else
      var earlier := nodes[..|nodes| - 1];
      var node := Last(nodes);
      if FirstNodeError(earlier).Some? then FirstNodeError(earlier)
      else if node.nodeId == "" then Some(InvalidNodeId)
      else if node.nodeId in NodeIds(earlier) then Some(DuplicateNodeId)
      else if node.capabilityId == "" then Some(InvalidCapabilityId)
      else None
  }

  function ArcError(ids: set<string>, a: Arc, missing: ErrorCode): Option<ErrorCode> {
    if a.from !in ids || a.to !in ids then Some(missing)
    else if a.from == a.to then Some(DagCycleDetected)
    else None
  }

  function FirstArcError(ids: set<string>, arcs: seq<Arc>, missing: ErrorCode): Option<ErrorCode> {
    if arcs == [] then None
    else
      var earlier := FirstArcError(ids, arcs[..|arcs| - 1], missing);
      if earlier.Some? then earlier else ArcError(ids, Last(arcs), missing)
  }

  function StructuralError(dag: Dag, maxNodes: nat): Option<ErrorCode> {
    if dag.workflowId == "" then Some(InvalidWorkflowId)
    else if dag.nodes == [] then Some(EmptyWorkflow)
    else if |dag.nodes| > maxNodes then Some(DagTooLarge)
    else if FirstNodeError(dag.nodes).Some? then FirstNodeError(dag.nodes)
    else
      var ids := NodeIds(dag.nodes);
      var depError := FirstArcError(ids, DependencyArcs(dag.nodes), InvalidNodeDependency);
      if depError.Some? then depError
      else FirstArcError(ids, EdgeArcs(dag.edges), InvalidEdge)
  }

  /** Both ends are nodes of the workflow, and they differ. */
  predicate ProperArc(ids: set<string>, source: string, target: string) {
    source in ids && target in ids && source != target
  }

  /** What a workflow needs to get past the structural checks. */
  ghost predicate Sound(dag: Dag, maxNodes: nat) {
    && dag.workflowId != "" && 0 < |dag.nodes| <= maxNodes
    && (forall node :: node in dag.nodes ==> node.nodeId != "" && node.capabilityId != "")
    && (forall i, j :: 0 <= i < j < |dag.nodes| ==> dag.nodes[i].nodeId != dag.nodes[j].nodeId)
    && (forall e :: e in dag.edges ==> ProperArc(NodeIds(dag.nodes), e.fromNodeId, e.toNodeId))
    && (forall node, d :: node in dag.nodes && node.dependencies.Some? && d in node.dependencies.value ==>
          ProperArc(NodeIds(dag.nodes), d, node.nodeId))
  }

  lemma {:induction false} NodeErrorMeaning(nodes: seq<Node>)
    ensures FirstNodeError(nodes).None? <==>
      && (forall node :: node in nodes ==> node.nodeId != "" && node.capabilityId != "")
      && forall i, j :: 0 <= i < j < |nodes| ==> nodes[i].nodeId != nodes[j].nodeId
  {
    if nodes != [] {
      var init := nodes[..|nodes| - 1];
      NodeErrorMeaning(init);
      assert nodes == init + [Last(nodes)];
      if Last(nodes).nodeId in NodeIds(init) {
        var node :| node in init && node.nodeId == Last(nodes).nodeId;
        var i :| 0 <= i < |init| && init[i] == node;
        assert nodes[i].nodeId == nodes[|nodes| - 1].nodeId;
      } else {
        assert forall i :: 0 <= i < |init| ==> nodes[i] in init;
      }
    }
  }

  lemma ArcErrorMeaning(ids: set<string>, arcs: seq<Arc>, missing: ErrorCode)
    ensures FirstArcError(ids, arcs, missing).None? <==> forall a :: a in arcs ==> ProperArc(ids, a.from, a.to)
  {
    if arcs != [] {
      ArcErrorMeaning(ids, arcs[..|arcs| - 1], missing);
      assert arcs == arcs[..|arcs| - 1] + [Last(arcs)];
    }
  }

  /** The structural checks pass exactly the sound workflows. */
  lemma StructureMeaning(dag: Dag, maxNodes: nat)
    ensures StructuralError(dag, maxNodes).None? <==> Sound(dag, maxNodes)
  {
    var ids := NodeIds(dag.nodes);
    NodeErrorMeaning(dag.nodes);
    ArcErrorMeaning(ids, DependencyArcs(dag.nodes), InvalidNodeDependency);
    ArcErrorMeaning(ids, EdgeArcs(dag.edges), InvalidEdge);
    DependenciesProper(dag, ids);
    EdgesProper(dag, ids);
  }

  lemma DependenciesProper(dag: Dag, ids: set<string>)
    ensures (forall a :: a in DependencyArcs(dag.nodes) ==> ProperArc(ids, a.from, a.to)) <==>
      forall node, d :: node in dag.nodes && node.dependencies.Some? && d in node.dependencies.value ==> ProperArc(ids, d, node.nodeId)
  {
    forall a ensures a in DependencyArcs(dag.nodes) <==>
      exists node :: node in dag.nodes && node.nodeId == a.to && node.dependencies.Some? && a.from in node.dependencies.value
    {
      DependencyArcsMeaning(dag.nodes, a);
    }
    if forall a :: a in DependencyArcs(dag.nodes) ==> ProperArc(ids, a.from, a.to) {
      forall node, d | node in dag.nodes && node.dependencies.Some? && d in node.dependencies.value
        ensures ProperArc(ids, d, node.nodeId)
      {
        assert Arc(d, node.nodeId) in DependencyArcs(dag.nodes);
      }
    }
  }

  lemma EdgesProper(dag: Dag, ids: set<string>)
    ensures (forall a :: a in EdgeArcs(dag.edges) ==> ProperArc(ids, a.from, a.to)) <==>
      forall e :: e in dag.edges ==> ProperArc(ids, e.fromNodeId, e.toNodeId)
  {
    forall a ensures a in EdgeArcs(dag.edges) <==> exists e :: e in dag.edges && e.fromNodeId == a.from && e.toNodeId == a.to {
      EdgeArcsMeaning(dag.edges, a);
    }
    if forall a :: a in EdgeArcs(dag.edges) ==> ProperArc(ids, a.from, a.to) {
      forall e | e in dag.edges ensures ProperArc(ids, e.fromNodeId, e.toNodeId) {
        assert Arc(e.fromNodeId, e.toNodeId) in EdgeArcs(dag.edges);
      }
    }
  }

  /** Each structural error code tells the truth about the workflow. */
  ghost predicate TrueOf(dag: Dag, maxNodes: nat, code: ErrorCode) {
    match code
    case InvalidWorkflowId => dag.workflowId == ""
    case EmptyWorkflow => dag.nodes == []
    case DagTooLarge => |dag.nodes| > maxNodes
    case InvalidNodeId => exists node :: node in dag.nodes && node.nodeId == ""
    case DuplicateNodeId => exists i, j :: 0 <= i < j < |dag.nodes| && dag.nodes[i].nodeId == dag.nodes[j].nodeId
    case InvalidCapabilityId => exists node :: node in dag.nodes && node.capabilityId == ""
    case InvalidNodeDependency => exists m, n :: DependsOn(dag, n, m) && m !in NodeIds(dag.nodes)
    case InvalidEdge => exists m, n :: EdgeBetween(dag, m, n) && (m !in NodeIds(dag.nodes) || n !in NodeIds(dag.nodes))
    case DagCycleDetected => !Acyclic(Arcs(dag))
  }

  lemma {:induction false} NodeErrorIsTrue(nodes: seq<Node>)
    requires FirstNodeError(nodes).Some?
    ensures match FirstNodeError(nodes).value
      case InvalidNodeId => exists node :: node in nodes && node.nodeId == ""
      case DuplicateNodeId => exists i, j :: 0 <= i < j < |nodes| && nodes[i].nodeId == nodes[j].nodeId
      case InvalidCapabilityId => exists node :: node in nodes && node.capabilityId == ""
      case _ => false
  {
    var init, last := nodes[..|nodes| - 1], Last(nodes);
    assert nodes == init + [last];
    if FirstNodeError(init).Some? {
      NodeErrorIsTrue(init);
      if FirstNodeError(init).value == DuplicateNodeId {
        var i, j :| 0 <= i < j < |init| && init[i].nodeId == init[j].nodeId;
        assert nodes[i].nodeId == nodes[j].nodeId;
      }
    } else if last.nodeId in NodeIds(init) {
      var node :| node in init && node.nodeId == last.nodeId;
      var i :| 0 <= i < |init| && init[i] == node;
      assert nodes[i].nodeId == nodes[|nodes| - 1].nodeId;
    }
  }

  lemma ArcErrorIsTrue(ids: set<string>, arcs: seq<Arc>, missing: ErrorCode)
    requires missing != DagCycleDetected && FirstArcError(ids, arcs, missing) == Some(missing)
    ensures exists a :: a in arcs && (a.from !in ids || a.to !in ids)
  {
    var init := arcs[..|arcs| - 1];
    assert arcs == init + [Last(arcs)];
    if FirstArcError(ids, init, missing).Some? {
      ArcErrorIsTrue(ids, init, missing);
      var a :| a in init && (a.from !in ids || a.to !in ids);
      assert a in arcs;
    } else {
      assert Last(arcs) in arcs;
    }
  }

  lemma ArcErrorCodes(ids: set<string>, arcs: seq<Arc>, missing: ErrorCode)
    ensures FirstArcError(ids, arcs, missing) in {None, Some(missing), Some(DagCycleDetected)}
  {
  }

  lemma StructuralErrorIsTrue(dag: Dag, maxNodes: nat)
    requires StructuralError(dag, maxNodes).Some?
    ensures TrueOf(dag, maxNodes, StructuralError(dag, maxNodes).value)
  {
    var ids, deps, edges := NodeIds(dag.nodes), DependencyArcs(dag.nodes), EdgeArcs(dag.edges);
    if FirstNodeError(dag.nodes).Some? {
      NodeErrorIsTrue(dag.nodes);
    }
    ArcErrorCodes(ids, deps, InvalidNodeDependency);
    ArcErrorCodes(ids, edges, InvalidEdge);
    if StructuralError(dag, maxNodes).value == DagCycleDetected {
      StructuralCycleIsReal(dag, maxNodes);
    } else if StructuralError(dag, maxNodes).value == InvalidNodeDependency {
      ArcErrorIsTrue(ids, deps, InvalidNodeDependency);
      var a :| a in deps && (a.from !in ids || a.to !in ids);
      DependencyArcsMeaning(dag.nodes, a);
      assert DependsOn(dag, a.to, a.from);
    } else if StructuralError(dag, maxNodes).value == InvalidEdge {
      ArcErrorIsTrue(ids, edges, InvalidEdge);
      var a :| a in edges && (a.from !in ids || a.to !in ids);
      EdgeArcsMeaning(dag.edges, a);
      assert EdgeBetween(dag, a.from, a.to);
    }
  }

  // ---- Adjacency lists and in-degrees ----

  function Children(arcs: seq<Arc>, n: string): seq<string> {
    if arcs == [] then []
    else Children(arcs[..|arcs| - 1], n) + (if Last(arcs).from == n then [Last(arcs).to] else [])
  }

  /** Arcs into n whose parent has not been processed. */
  function Waiting(arcs: seq<Arc>, done: set<string>, n: string): nat {
    if arcs == [] then 0
    else Waiting(arcs[..|arcs| - 1], done, n) + (if Last(arcs).to == n && Last(arcs).from !in done then 1 else 0)
  }

  ghost predicate Represents(ids: set<string>, arcs: seq<Arc>, adjacency: map<string, seq<string>>, inDegree: map<string, int>) {
    && adjacency.Keys == ids
    && inDegree.Keys == ids
    && forall n :: n in ids ==> adjacency[n] == Children(arcs, n) && inDegree[n] == Waiting(arcs, {}, n)
  }

  lemma WaitingZero(arcs: seq<Arc>, done: set<string>, n: string)
    ensures Waiting(arcs, done, n) == 0 <==> Ready(arcs, done, n)
  {
    if arcs != [] {
      WaitingZero(arcs[..|arcs| - 1], done, n);
      assert arcs == arcs[..|arcs| - 1] + [Last(arcs)];
    }
  }

  /** Processing a parent releases one unit per arc to the child. */
  lemma WaitingStep(arcs: seq<Arc>, done: set<string>, parent: string, n: string)
    requires parent !in done
    ensures Waiting(arcs, done, n) == Waiting(arcs, done + {parent}, n) + Count(Children(arcs, parent), n)
  {
    if arcs != [] {
      var init := arcs[..|arcs| - 1];
      WaitingStep(init, done, parent, n);
      if Last(arcs).from == parent {
        var cs := Children(arcs, parent);
        assert cs[..|cs| - 1] == Children(init, parent);
      } else {
        assert Children(arcs, parent) == Children(init, parent);
      }
    }
  }

  lemma ChildIsNode(ids: set<string>, arcs: seq<Arc>, parent: string, child: string)
    requires Closed(ids, arcs) && child in Children(arcs, parent)
    ensures child in ids
  {
    var init := arcs[..|arcs| - 1];
    assert arcs == init + [Last(arcs)];
    if child in Children(init, parent) {
      ChildIsNode(ids, init, parent, child);
    }
  }

  lemma NoArcErrorMeansClosed(ids: set<string>, arcs: seq<Arc>, missing: ErrorCode)
    requires FirstArcError(ids, arcs, missing).None?
    ensures Closed(ids, arcs)
  {
    if arcs != [] {
      NoArcErrorMeansClosed(ids, arcs[..|arcs| - 1], missing);
      assert arcs == arcs[..|arcs| - 1] + [Last(arcs)];
    }
  }

  /** An error is settled by the first offending arc, whatever follows. */
  lemma ErrorPersists(ids: set<string>, arcs: seq<Arc>, more: seq<Arc>, missing: ErrorCode)
    requires FirstArcError(ids, arcs, missing).Some?
    ensures FirstArcError(ids, arcs + more, missing) == FirstArcError(ids, arcs, missing)
  {
    if more != [] {
      ErrorPersists(ids, arcs, more[..|more| - 1], missing);
      assert (arcs + more)[..|arcs + more| - 1] == arcs + more[..|more| - 1];
    } else {
      assert arcs + more == arcs;
    }
  }

  /** A cycle error found while reading arcs is a real self-loop. */
  lemma CycleErrorIsCycle(ids: set<string>, arcs: seq<Arc>, missing: ErrorCode)
    requires missing != DagCycleDetected
    requires FirstArcError(ids, arcs, missing) == Some(DagCycleDetected)
    ensures exists n :: IsCycle(arcs, [n, n])
  {
    var init := arcs[..|arcs| - 1];
    assert arcs == init + [Last(arcs)];
    if FirstArcError(ids, init, missing).Some? {
      CycleErrorIsCycle(ids, init, missing);
      var n :| IsCycle(init, [n, n]);
      assert Arc([n, n][0], [n, n][1]) in init;
      assert IsCycle(arcs, [n, n]);
    } else {
      var n := Last(arcs).from;
      assert IsCycle(arcs, [n, n]);
    }
  }

  lemma CycleExtends(arcs: seq<Arc>, all: seq<Arc>, p: seq<string>)
    requires IsCycle(arcs, p)
    requires Elems(arcs) <= Elems(all)
    ensures IsCycle(all, p)
  {
    forall i | 0 <= i < |p| - 1
      ensures Arc(p[i], p[i + 1]) in all
    {
      assert Arc(p[i], p[i + 1]) in Elems(arcs);
    }
  }

  /** A structural cycle report is never a false alarm. */
  lemma StructuralCycleIsReal(dag: Dag, maxNodes: nat)
    requires StructuralError(dag, maxNodes) == Some(DagCycleDetected)
    ensures !Acyclic(Arcs(dag))
  {
    NodeErrorIsNotCycle(dag.nodes);
    var ids := NodeIds(dag.nodes);
    var deps, edges := DependencyArcs(dag.nodes), EdgeArcs(dag.edges);
    var part, missing :=
      if FirstArcError(ids, deps, InvalidNodeDependency).Some? then deps else edges,
      if FirstArcError(ids, deps, InvalidNodeDependency).Some? then InvalidNodeDependency else InvalidEdge;
    CycleErrorIsCycle(ids, part, missing);
    var n :| IsCycle(part, [n, n]);
    CycleExtends(part, Arcs(dag), [n, n]);
  }

  lemma NodeErrorIsNotCycle(nodes: seq<Node>)
    ensures FirstNodeError(nodes) != Some(DagCycleDetected)
  {
  }

  lemma {:induction false} NodesDistinct(nodes: seq<Node>)
    requires FirstNodeError(nodes).None?
    ensures |NodeIds(nodes)| == |nodes|
  {
    if nodes != [] {
      NodesDistinct(nodes[..|nodes| - 1]);
      PrefixIds(nodes, |nodes| - 1);
      assert nodes[..|nodes|] == nodes;
    }
  }

  // ---- The parser ----

  method CheckNodes(nodes: seq<Node>) returns (error: Option<ErrorCode>, ids: set<string>)
    ensures error == FirstNodeError(nodes)
    ensures error.None? ==> ids == NodeIds(nodes)
  {
    ids := {};
    for i := 0 to |nodes|
      invariant FirstNodeError(nodes[..i]).None?
      invariant ids == NodeIds(nodes[..i])
    {
      var node := nodes[i];
      assert nodes[..i + 1][..i] == nodes[..i];
      ghost var e := FirstNodeError(nodes[..i + 1]);
      if node.nodeId == "" {
        NodeErrorPersists(nodes, i + 1);
        return Some(InvalidNodeId), ids;
      }
      if node.nodeId in ids {
        NodeErrorPersists(nodes, i + 1);
        return Some(DuplicateNodeId), ids;
      }
      if node.capabilityId == "" {
        NodeErrorPersists(nodes, i + 1);
        return Some(InvalidCapabilityId), ids;
      }
      ids := ids + {node.nodeId};
    }
    assert nodes[..|nodes|] == nodes;
    error := None;
  }

  lemma NodeErrorPersists(nodes: seq<Node>, k: nat)
    requires k <= |nodes| && FirstNodeError(nodes[..k]).Some?
    ensures FirstNodeError(nodes) == FirstNodeError(nodes[..k])
  {
    if k < |nodes| {
      var init := nodes[..|nodes| - 1];
      assert init[..k] == nodes[..k];
      NodeErrorPersists(init, k);
    } else {
      assert nodes[..k] == nodes;
    }
  }

  /** Adds one arc to the adjacency lists and in-degrees, or reports what is wrong with it. */
  method AddArc(ghost arcs: seq<Arc>, ids: set<string>, a: Arc, missing: ErrorCode, adjacency: map<string, seq<string>>, inDegree: map<string, int>)
    returns (error: Option<ErrorCode>, adjacency': map<string, seq<string>>, inDegree': map<string, int>)
    requires Represents(ids, arcs, adjacency, inDegree)
    ensures error == ArcError(ids, a, missing)
    ensures error.None? ==> Represents(ids, arcs + [a], adjacency', inDegree')
  {
    adjacency', inDegree' := adjacency, inDegree;
    if a.from !in ids || a.to !in ids {
      return Some(missing), adjacency', inDegree';
    }
    if a.from == a.to {
      return Some(DagCycleDetected), adjacency', inDegree';
    }
    assert (arcs + [a])[..|arcs|] == arcs;
    adjacency' := adjacency[a.from := adjacency[a.from] + [a.to]];
    inDegree' := inDegree[a.to := inDegree[a.to] + 1];
    error := None;
  }

  /** Reads every `dependencies` array, in node order. */
  method AddDependencies(nodes: seq<Node>, ids: set<string>, adjacency: map<string, seq<string>>, inDegree: map<string, int>)
    returns (error: Option<ErrorCode>, adjacency': map<string, seq<string>>, inDegree': map<string, int>)
    requires Represents(ids, [], adjacency, inDegree)
    ensures error == FirstArcError(ids, DependencyArcs(nodes), InvalidNodeDependency)
    ensures error.None? ==> Represents(ids, DependencyArcs(nodes), adjacency', inDegree')
  {
    adjacency', inDegree' := adjacency, inDegree;
    for i := 0 to |nodes|
      invariant FirstArcError(ids, DependencyArcs(nodes[..i]), InvalidNodeDependency).None?
      invariant Represents(ids, DependencyArcs(nodes[..i]), adjacency', inDegree')
    {
      ghost var rest := DependencyPrefix(nodes, i + 1);
      DependencyNext(nodes, i);
      error, adjacency', inDegree' :=
        AddDependenciesOf(nodes[i], DependencyArcs(nodes[..i]), ids, adjacency', inDegree');
      if error.Some? {
        ErrorPersists(ids, DependencyArcs(nodes[..i + 1]), rest, InvalidNodeDependency);
        return;
      }
    }
    assert nodes[..|nodes|] == nodes;
    error := None;
  }

  /** Reads the `dependencies` array of one node. */
  method AddDependenciesOf(node: Node, ghost before: seq<Arc>, ids: set<string>, adjacency: map<string, seq<string>>, inDegree: map<string, int>)
    returns (error: Option<ErrorCode>, adjacency': map<string, seq<string>>, inDegree': map<string, int>)
    requires Represents(ids, before, adjacency, inDegree)
    requires FirstArcError(ids, before, InvalidNodeDependency).None?
    ensures error == FirstArcError(ids, before + ArcsInto(DependenciesOf(node), node.nodeId), InvalidNodeDependency)
    ensures error.None? ==> Represents(ids, before + ArcsInto(DependenciesOf(node), node.nodeId), adjacency', inDegree')
  {
    adjacency', inDegree' := adjacency, inDegree;
    var deps := DependenciesOf(node);
    assert before + ArcsInto(deps[..0], node.nodeId) == before;
    for j := 0 to |deps|
      invariant FirstArcError(ids, before + ArcsInto(deps[..j], node.nodeId), InvalidNodeDependency).None?
      invariant Represents(ids, before + ArcsInto(deps[..j], node.nodeId), adjacency', inDegree')
    {
      ghost var soFar := before + ArcsInto(deps[..j], node.nodeId);
      NextDependency(ids, before, deps, node.nodeId, j);
      error, adjacency', inDegree' := AddArc(soFar, ids, Arc(deps[j], node.nodeId), InvalidNodeDependency, adjacency', inDegree');
      if error.Some? {
        return;
      }
    }
    assert deps[..|deps|] == deps;
    error := None;
  }

  /** One more arc of a node, and the verdict on the whole list if that arc is wrong. */
  lemma NextDependency(ids: set<string>, before: seq<Arc>, deps: seq<string>, id: string, j: nat)
    requires j < |deps|
    requires FirstArcError(ids, before + ArcsInto(deps[..j], id), InvalidNodeDependency).None?
    ensures before + ArcsInto(deps[..j + 1], id) == before + ArcsInto(deps[..j], id) + [Arc(deps[j], id)]
    ensures var error := ArcError(ids, Arc(deps[j], id), InvalidNodeDependency);
      && FirstArcError(ids, before + ArcsInto(deps[..j + 1], id), InvalidNodeDependency) == error
      && (error.Some? ==> FirstArcError(ids, before + ArcsInto(deps, id), InvalidNodeDependency) == error)
  {
    var soFar := before + ArcsInto(deps[..j], id);
    var next := before + ArcsInto(deps[..j + 1], id);
    assert deps[..j + 1][..j] == deps[..j];
    assert next == soFar + [Arc(deps[j], id)];
    assert next[..|next| - 1] == soFar;
    if ArcError(ids, Arc(deps[j], id), InvalidNodeDependency).Some? {
      var rest := ArcsIntoPrefix(deps, id, j + 1);
      assert next + rest == before + ArcsInto(deps, id);
      ErrorPersists(ids, next, rest, InvalidNodeDependency);
    }
  }

  /** The arcs of one more node. */
  lemma DependencyNext(nodes: seq<Node>, i: nat)
    requires i < |nodes|
    ensures DependencyArcs(nodes[..i + 1]) == DependencyArcs(nodes[..i]) + ArcsInto(DependenciesOf(nodes[i]), nodes[i].nodeId)
  {
    assert nodes[..i + 1][..i] == nodes[..i];
  }

  /** The arcs read so far begin the whole list of dependency arcs. */
  lemma {:induction false} DependencyPrefix(nodes: seq<Node>, i: nat) returns (rest: seq<Arc>)
    requires i <= |nodes|
    ensures DependencyArcs(nodes) == DependencyArcs(nodes[..i]) + rest
  {
    if i < |nodes| {
      var init := nodes[..|nodes| - 1];
      assert init[..i] == nodes[..i];
      var r := DependencyPrefix(init, i);
      rest := r + ArcsInto(DependenciesOf(Last(nodes)), Last(nodes).nodeId);
    } else {
      assert nodes[..i] == nodes;
      rest := [];
    }
  }

  lemma {:induction false} ArcsIntoPrefix(deps: seq<string>, id: string, j: nat) returns (rest: seq<Arc>)
    requires j <= |deps|
    ensures ArcsInto(deps, id) == ArcsInto(deps[..j], id) + rest
  {
    if j < |deps| {
      var init := deps[..|deps| - 1];
      assert init[..j] == deps[..j];
      var r := ArcsIntoPrefix(init, id, j);
      rest := r + [Arc(Last(deps), id)];
    } else {
      assert deps[..j] == deps;
      rest := [];
    }
  }

  /** Reads the explicit `edges` array after the dependencies. */
  method AddEdges(edges: seq<Edge>, ghost deps: seq<Arc>, ids: set<string>, adjacency: map<string, seq<string>>, inDegree: map<string, int>)
    returns (error: Option<ErrorCode>, adjacency': map<string, seq<string>>, inDegree': map<string, int>)
    requires Represents(ids, deps, adjacency, inDegree)
    ensures error == FirstArcError(ids, EdgeArcs(edges), InvalidEdge)
    ensures error.None? ==> Represents(ids, deps + EdgeArcs(edges), adjacency', inDegree')
  {
    adjacency', inDegree' := adjacency, inDegree;
    assert deps + EdgeArcs(edges[..0]) == deps;
    for i := 0 to |edges|
      invariant FirstArcError(ids, EdgeArcs(edges[..i]), InvalidEdge).None?
      invariant Represents(ids, deps + EdgeArcs(edges[..i]), adjacency', inDegree')
    {
      var a := Arc(edges[i].fromNodeId, edges[i].toNodeId);
      ghost var next := EdgeArcs(edges[..i + 1]);
      assert edges[..i + 1][..i] == edges[..i];
      assert next[..|next| - 1] == EdgeArcs(edges[..i]);
      assert deps + next == deps + EdgeArcs(edges[..i]) + [a];
      error, adjacency', inDegree' := AddArc(deps + EdgeArcs(edges[..i]), ids, a, InvalidEdge, adjacency', inDegree');
      if error.Some? {
        ghost var rest := EdgeArcsPrefix(edges, i + 1);
        ErrorPersists(ids, next, rest, InvalidEdge);
        return;
      }
    }
    assert edges[..|edges|] == edges;
    error := None;
  }

  lemma EdgeArcsPrefix(edges: seq<Edge>, k: nat) returns (rest: seq<Arc>)
    requires k <= |edges|
    ensures EdgeArcs(edges) == EdgeArcs(edges[..k]) + rest
  {
    if k < |edges| {
      var init := edges[..|edges| - 1];
      assert init[..k] == edges[..k];
      var r := EdgeArcsPrefix(init, k);
      rest := r + [Arc(Last(edges).fromNodeId, Last(edges).toNodeId)];
    } else {
      assert edges[..k] == edges;
      rest := [];
    }
  }

  /** Takes one off each child's in-degree; children that reach zero join the queue, once each. */
  method Release(children: seq<string>, inDegree: map<string, int>, queue: seq<string>)
    returns (inDegree': map<string, int>, queue': seq<string>)
    requires Elems(children) <= inDegree.Keys
    requires forall n :: n in inDegree ==> inDegree[n] >= Count(children, n)
    requires Distinct(queue)
    requires forall n :: n in queue ==> n in inDegree && inDegree[n] == 0
    ensures inDegree'.Keys == inDegree.Keys
    ensures forall n :: n in inDegree ==> inDegree'[n] == inDegree[n] - Count(children, n)
    ensures Distinct(queue')
    ensures forall n :: n in queue' <==> n in queue || (n in inDegree && inDegree[n] > 0 && inDegree'[n] == 0)
  {
    inDegree', queue' := inDegree, queue;
    for k := 0 to |children|
      invariant inDegree'.Keys == inDegree.Keys
      invariant forall n :: n in inDegree ==> inDegree'[n] == inDegree[n] - Count(children[..k], n)
      invariant Distinct(queue')
      invariant forall n :: n in queue' <==> n in queue || (n in inDegree && inDegree[n] > 0 && inDegree'[n] == 0)
    {
      var child := children[k];
      assert child in Elems(children);
      assert children[..k + 1][..k] == children[..k];
      CountPrefix(children, k + 1, child);
      var newDegree := inDegree'[child] - 1;
      assert child !in queue';
      inDegree' := inDegree'[child := newDegree];
      if newDegree == 0 {
        queue' := queue' + [child];
      }
    }
    assert children[..|children|] == children;
  }

  /** Runs one tier: releases the children of each of its nodes and collects the next tier. */
  method ProcessTier(ids: set<string>, ghost arcs: seq<Arc>, ghost done: set<string>, adjacency: map<string, seq<string>>, inDegree: map<string, int>, tier: seq<string>)
    returns (inDegree': map<string, int>, next: seq<string>)
    requires Closed(ids, arcs) && adjacency.Keys == inDegree.Keys == ids
    requires forall n :: n in ids ==> adjacency[n] == Children(arcs, n) && inDegree[n] == Waiting(arcs, done, n)
    requires Distinct(tier) && Elems(tier) == Frontier(ids, arcs, done)
    requires forall n :: n in done ==> Ready(arcs, done, n)
    ensures inDegree'.Keys == ids
    ensures forall n :: n in ids ==> inDegree'[n] == Waiting(arcs, done + Elems(tier), n)
    ensures Distinct(next) && Elems(next) == Frontier(ids, arcs, done + Elems(tier))
  {
    inDegree', next := inDegree, [];
    assert done + Elems(tier[..0]) == done;
    for i := 0 to |tier|
      invariant inDegree'.Keys == ids
      invariant forall n :: n in ids ==> inDegree'[n] == Waiting(arcs, done + Elems(tier[..i]), n)
      invariant forall n :: n in ids ==> inDegree'[n] <= inDegree[n]
      invariant Distinct(next)
      invariant forall n :: n in next <==> n in ids && inDegree[n] > 0 && inDegree'[n] == 0
    {
      var current := tier[i];
      TierStep(ids, arcs, done, tier, i);
      var children := adjacency[current];
      inDegree', next := Release(children, inDegree', next);
    }
    assert tier[..|tier|] == tier;
    NextFrontier(ids, arcs, done, Elems(tier), inDegree, inDegree', next);
  }

  /** What processing one node of a tier does to the waiting counts. */
  lemma TierStep(ids: set<string>, arcs: seq<Arc>, done: set<string>, tier: seq<string>, i: nat)
    requires Closed(ids, arcs) && Distinct(tier) && Elems(tier) == Frontier(ids, arcs, done) && i < |tier|
    ensures tier[i] in ids && Elems(Children(arcs, tier[i])) <= ids
    ensures forall n :: n in ids ==>
      Waiting(arcs, done + Elems(tier[..i]), n) == Waiting(arcs, done + Elems(tier[..i + 1]), n) + Count(Children(arcs, tier[i]), n)
  {
    var current, before := tier[i], done + Elems(tier[..i]);
    assert current in Elems(tier);
    assert tier[..i + 1] == tier[..i] + [current];
    assert done + Elems(tier[..i + 1]) == before + {current};
    forall n | n in ids
      ensures Waiting(arcs, before, n) == Waiting(arcs, before + {current}, n) + Count(Children(arcs, current), n)
    {
      WaitingStep(arcs, before, current, n);
    }
    forall n | n in Children(arcs, current) ensures n in ids {
      ChildIsNode(ids, arcs, current, n);
    }
  }

  lemma NextFrontier(ids: set<string>, arcs: seq<Arc>, done: set<string>, tier: set<string>, before: map<string, int>, after: map<string, int>, next: seq<string>)
    requires before.Keys == after.Keys == ids
    requires tier == Frontier(ids, arcs, done)
    requires forall n :: n in done ==> Ready(arcs, done, n)
    requires forall n :: n in ids ==> before[n] == Waiting(arcs, done, n) && after[n] == Waiting(arcs, done + tier, n)
    requires forall n :: n in next <==> n in ids && before[n] > 0 && after[n] == 0
    ensures Elems(next) == Frontier(ids, arcs, done + tier)
  {
    forall n | n in ids
      ensures n in next <==> n in Frontier(ids, arcs, done + tier)
    {
      WaitingZero(arcs, done, n);
      WaitingZero(arcs, done + tier, n);
    }
  }

  /** The layered Kahn sort: repeats tiers until none is left. */
  method KahnSort(nodes: seq<Node>, ids: set<string>, ghost arcs: seq<Arc>, adjacency: map<string, seq<string>>, inDegree0: map<string, int>)
    returns (order: seq<string>, tiers: seq<seq<string>>)
    requires ids == NodeIds(nodes) && FirstNodeError(nodes).None?
    requires Closed(ids, arcs) && Represents(ids, arcs, adjacency, inDegree0)
    ensures Layered(ids, arcs, tiers)
    ensures Frontier(ids, arcs, Covered(tiers)) == {}
    ensures order == Flatten(tiers)
  {
    var inDegree := inDegree0;
    var queue := InitialQueue(nodes, ids, arcs, inDegree);
    order, tiers := [], [];
    while |queue| > 0
      invariant inDegree.Keys == ids
      invariant Layered(ids, arcs, tiers)
      invariant forall n :: n in ids ==> inDegree[n] == Waiting(arcs, Covered(tiers), n)
      invariant Distinct(queue) && Elems(queue) == Frontier(ids, arcs, Covered(tiers))
      invariant Covered(tiers) <= ids
      invariant order == Flatten(tiers)
      decreases ids - Covered(tiers)
    {
      var currentTier := queue;
      ghost var done := Covered(tiers);
      forall n | n in done ensures Ready(arcs, done, n) {
        CoveredIsReady(ids, arcs, tiers, n);
      }
      assert currentTier[0] in Elems(currentTier);
      inDegree, queue := ProcessTier(ids, arcs, done, adjacency, inDegree, currentTier);
      order := order + currentTier;
      tiers := ExtendPlan(ids, arcs, tiers, currentTier);
    }
    assert Elems(queue) == {};
  }

  function ExtendPlan(ids: set<string>, ghost arcs: seq<Arc>, tiers: seq<seq<string>>, tier: seq<string>): (tiers': seq<seq<string>>)
    requires Layered(ids, arcs, tiers)
    requires tier != [] && Distinct(tier) && Elems(tier) == Frontier(ids, arcs, Covered(tiers))
    ensures Layered(ids, arcs, tiers') && Covered(tiers') == Covered(tiers) + Elems(tier)
    ensures Flatten(tiers') == Flatten(tiers) + tier
  {
    var tiers' := tiers + [tier];
    assert tiers'[..|tiers|] == tiers;
    assert forall i :: 0 <= i < |tiers| ==> tiers'[..i] == tiers[..i];
    tiers'
  }

  /** The nodes whose in-degree starts at zero, in node order. */
  method InitialQueue(nodes: seq<Node>, ids: set<string>, ghost arcs: seq<Arc>, inDegree: map<string, int>)
    returns (queue: seq<string>)
    requires ids == NodeIds(nodes) == inDegree.Keys && FirstNodeError(nodes).None?
    requires forall n :: n in ids ==> inDegree[n] == Waiting(arcs, {}, n)
    ensures Distinct(queue) && Elems(queue) == Frontier(ids, arcs, {})
  {
    queue := [];
    for i := 0 to |nodes|
      invariant Distinct(queue)
      invariant Elems(queue) == set n | n in NodeIds(nodes[..i]) && n in ids && inDegree[n] == 0
    {
      var id := nodes[i].nodeId;
      NextNodeIsNew(nodes, i);
      if inDegree[id] == 0 {
        DistinctConcat(queue, [id]);
        queue := queue + [id];
      }
    }
    assert nodes[..|nodes|] == nodes;
    forall n | n in ids ensures n in Elems(queue) <==> n in Frontier(ids, arcs, {}) {
      WaitingZero(arcs, {}, n);
    }
  }

  lemma NextNodeIsNew(nodes: seq<Node>, i: nat)
    requires i < |nodes| && FirstNodeError(nodes).None?
    ensures NodeIds(nodes[..i + 1]) == NodeIds(nodes[..i]) + {nodes[i].nodeId}
    ensures nodes[i].nodeId in NodeIds(nodes) && nodes[i].nodeId !in NodeIds(nodes[..i])
  {
    var next := nodes[..i + 1];
    NoErrorInPrefix(nodes, i + 1);
    assert next[..i] == nodes[..i] && Last(next) == nodes[i];
    PrefixIds(nodes, i);
  }

  lemma PrefixIds(nodes: seq<Node>, i: nat)
    requires i < |nodes|
    ensures NodeIds(nodes[..i + 1]) == NodeIds(nodes[..i]) + {nodes[i].nodeId}
    ensures nodes[i].nodeId in NodeIds(nodes)
  {
    assert nodes[..i + 1] == nodes[..i] + [nodes[i]];
    assert nodes[i] in nodes;
  }

  lemma NoErrorInPrefix(nodes: seq<Node>, k: nat)
    requires k <= |nodes| && FirstNodeError(nodes).None?
    ensures FirstNodeError(nodes[..k]).None?
  {
    if FirstNodeError(nodes[..k]).Some? {
      NodeErrorPersists(nodes, k);
    }
  }

  /**
   * The whole parser. A workflow that passes the structural checks is accepted exactly
   * when its dependencies and edges together have no cycle; an accepted workflow comes
   * with the one layering of its graph.
   */
  method ParseAndValidate(dag: Dag, maxNodes: nat) returns (r: Validation)
    ensures StructuralError(dag, maxNodes).Some? ==> r == Invalid(StructuralError(dag, maxNodes).value)
    ensures r.Valid? <==> Sound(dag, maxNodes) && Acyclic(Arcs(dag))
    ensures r.Valid? ==> RespectsOrder(dag, r.executionTiers) && NoSlack(dag, r.executionTiers)
    ensures r.Valid? ==> Plan(NodeIds(dag.nodes), Arcs(dag), r.executionTiers)
    ensures r.Valid? ==> r.topologicalOrder == Flatten(r.executionTiers)
    ensures r.Valid? ==> Distinct(r.topologicalOrder) && Elems(r.topologicalOrder) == NodeIds(dag.nodes)
    ensures r.Invalid? ==> TrueOf(dag, maxNodes, r.errorCode)
  {
    StructureMeaning(dag, maxNodes);
    if StructuralError(dag, maxNodes).Some? {
      StructuralErrorIsTrue(dag, maxNodes);
    }
    if dag.workflowId == "" {
      return Invalid(InvalidWorkflowId);
    }
    if |dag.nodes| == 0 {
      return Invalid(EmptyWorkflow);
    }
    if |dag.nodes| > maxNodes {
      return Invalid(DagTooLarge);
    }
    var error, ids := CheckNodes(dag.nodes);
    if error.Some? {
      return Invalid(error.value);
    }
    var adjacency: map<string, seq<string>> := map id | id in ids :: [];
    var inDegree: map<string, int> := map id | id in ids :: 0;
    error, adjacency, inDegree := AddDependencies(dag.nodes, ids, adjacency, inDegree);
    if error.Some? {
      return Invalid(error.value);
    }
    error, adjacency, inDegree := AddEdges(dag.edges, DependencyArcs(dag.nodes), ids, adjacency, inDegree);
    if error.Some? {
      return Invalid(error.value);
    }
    NoArcErrorMeansClosed(ids, DependencyArcs(dag.nodes), InvalidNodeDependency);
    NoArcErrorMeansClosed(ids, EdgeArcs(dag.edges), InvalidEdge);
    r := SortOrReject(dag.nodes, ids, Arcs(dag), adjacency, inDegree);
    if r.Valid? {
      PlanRespectsOrder(dag, ids, r.executionTiers);
      PlanHasNoSlack(dag, ids, r.executionTiers);
    }
  }

  /** Sorts, and rejects when some node was never reached. */
  method SortOrReject(nodes: seq<Node>, ids: set<string>, ghost arcs: seq<Arc>, adjacency: map<string, seq<string>>, inDegree: map<string, int>)
    returns (r: Validation)
    requires ids == NodeIds(nodes) && FirstNodeError(nodes).None?
    requires Closed(ids, arcs) && Represents(ids, arcs, adjacency, inDegree)
    ensures r.Valid? <==> Acyclic(arcs)
    ensures r.Valid? || r == Invalid(DagCycleDetected)
    ensures r.Valid? ==> Plan(ids, arcs, r.executionTiers)
    ensures r.Valid? ==> r.topologicalOrder == Flatten(r.executionTiers)
    ensures r.Valid? ==> Distinct(r.topologicalOrder) && Elems(r.topologicalOrder) == ids
  {
    var order, tiers := KahnSort(nodes, ids, arcs, adjacency, inDegree);
    NodesDistinct(nodes);
    OrderIsDistinct(ids, arcs, tiers);
    CountDecides(ids, arcs, tiers);
    if |order| != |nodes| {
      return Invalid(DagCycleDetected);
    }
    r := Valid(order, tiers);
  }

  /** Comparing the number of sorted nodes with the number of nodes decides acyclicity. */
  lemma CountDecides(ids: set<string>, arcs: seq<Arc>, tiers: seq<seq<string>>)
    requires Closed(ids, arcs) && Layered(ids, arcs, tiers)
    requires Frontier(ids, arcs, Covered(tiers)) == {}
    ensures |Flatten(tiers)| == |ids| <==> Acyclic(arcs)
    ensures |Flatten(tiers)| == |ids| <==> Covered(tiers) == ids
  {
    OrderIsDistinct(ids, arcs, tiers);
    DistinctCardinality(Flatten(tiers));
    SubsetCardinality(Covered(tiers), ids);
    if Covered(tiers) == ids {
      PlanIsAcyclic(ids, arcs, tiers);
    } else {
      var cycle := LeftoverHasCycle(ids, arcs, Covered(tiers));
    }
  }

  /** Reading the tiers one after the other visits each covered node once. */
  lemma {:induction false} OrderIsDistinct(ids: set<string>, arcs: seq<Arc>, tiers: seq<seq<string>>)
    requires Layered(ids, arcs, tiers)
    ensures Distinct(Flatten(tiers))
    ensures Elems(Flatten(tiers)) == Covered(tiers) <= ids
  {
    if tiers != [] {
      var init := tiers[..|tiers| - 1];
      assert Elems(Last(tiers)) == Frontier(ids, arcs, Covered(init)) && Distinct(Last(tiers));
      LayeredPrefix(ids, arcs, tiers, |tiers| - 1);
      OrderIsDistinct(ids, arcs, init);
      DistinctConcat(Flatten(init), Last(tiers));
    }
  }

  lemma DistinctConcat(a: seq<string>, b: seq<string>)
    requires Distinct(a) && Distinct(b) && Elems(a) !! Elems(b)
    ensures Distinct(a + b) && Elems(a + b) == Elems(a) + Elems(b)
  {
    forall i, j | 0 <= i < j < |a + b| ensures (a + b)[i] != (a + b)[j] {
      if i < |a| <= j {
        assert a[i] in Elems(a) && b[j - |a|] in Elems(b);
      }
    }
  }
}
