// From an accepted workflow to its runs: what the parser establishes is what the engine's
// theorems ask for.
module WorkflowPipeline {
  import opened Collections
  import opened Graph
  import opened WorkflowTypes
  import opened StepContext
  import opened Templates
  import opened Payloads
  import opened DagParser
  import opened WorkflowEngine
  import opened WorkflowConfluence

  /** The nodes by id, as the engine looks them up. */
  function NodeMap(nodes: seq<Node>): (m: map<string, Node>)
    ensures m.Keys == NodeIds(nodes)
    ensures forall id :: id in m ==> m[id] in nodes && m[id].nodeId == id
  {
    if nodes == [] then map[]
    else
      assert nodes == nodes[..|nodes| - 1] + [Last(nodes)];
      NodeMap(nodes[..|nodes| - 1])[Last(nodes).nodeId := Last(nodes)]
  }

  /** Every template that names a node of the workflow names one of an earlier tier. */
  ghost predicate TemplatesLookBack(nodes: map<string, Node>, tiers: seq<seq<string>>) {
    forall id, r, j :: id in nodes && r in Refs(Obj(RawPayload(nodes[id]))) && r in nodes && 0 <= j < |tiers| && id in tiers[j]
      ==> exists i :: 0 <= i < j && r in tiers[i]
  }

  lemma {:induction false} ArcIsThere(nodes: seq<Node>, node: Node, dep: string)
    requires node in nodes && dep in DependenciesOf(node)
    ensures Arc(dep, node.nodeId) in DependencyArcs(nodes)
  {
    var init := nodes[..|nodes| - 1];
    assert nodes == init + [Last(nodes)];
    if node in init {
      ArcIsThere(init, node, dep);
    } else {
      ArcOfDependency(DependenciesOf(node), node.nodeId, dep);
    }
  }

  lemma ArcOfDependency(deps: seq<string>, id: string, dep: string)
    requires dep in deps
    ensures Arc(dep, id) in ArcsInto(deps, id)
  {
    var init := deps[..|deps| - 1];
    assert deps == init + [Last(deps)];
    if dep in init {
      ArcOfDependency(init, id, dep);
    }
  }

  lemma AcceptedIsClosed(dag: Dag, maxNodes: nat)
    requires StructuralError(dag, maxNodes).None?
    ensures Closed(NodeIds(dag.nodes), Arcs(dag))
  {
    NoArcErrorMeansClosed(NodeIds(dag.nodes), DependencyArcs(dag.nodes), InvalidNodeDependency);
    NoArcErrorMeansClosed(NodeIds(dag.nodes), EdgeArcs(dag.edges), InvalidEdge);
  }

  /** The ids in the order they start out as pending. */
  function PendingIds(nodes: seq<Node>): (ids: seq<string>)
    ensures Elems(ids) == NodeIds(nodes)
  {
    if nodes == [] then []
    else
      var init := PendingIds(nodes[..|nodes| - 1]);
      assert nodes == nodes[..|nodes| - 1] + [Last(nodes)];
      assert forall id :: id in init + [Last(nodes).nodeId] <==> id in Elems(init) || id == Last(nodes).nodeId;
      init + [Last(nodes).nodeId]
  }

  /** Dependencies are earlier by the plan, templates by the assumption. */
  lemma ReadIsEarlier(dag: Dag, nodes: map<string, Node>, tiers: seq<seq<string>>, rank: map<string, nat>, n: string, r: string)
    requires nodes == NodeMap(dag.nodes) && n in nodes && r in nodes && r in Reads(nodes[n], RawPayload(nodes[n]))
    requires TemplatesLookBack(nodes, tiers) && Ranks(nodes.Keys, Arcs(dag), tiers, rank)
    ensures rank[r] < rank[n]
  {
    if r in DependenciesOf(nodes[n]) {
      ArcIsThere(dag.nodes, nodes[n], r);
      assert Arc(r, n) in Arcs(dag);
    } else {
      assert r in Refs(Obj(RawPayload(nodes[n])));
      assert n in tiers[rank[n]];
      var i :| 0 <= i < rank[n] && r in tiers[i];
    }
  }

  lemma AssemblyReadsEarlier(dag: Dag, tiers: seq<seq<string>>, rank: map<string, nat>, expiresAt: int, pf: Platform)
    requires Ranks(NodeMap(dag.nodes).Keys, Arcs(dag), tiers, rank)
    requires TemplatesLookBack(NodeMap(dag.nodes), tiers)
    ensures ReadsEarlier(Assemble(NodeMap(dag.nodes), Arcs(dag), tiers, rank, expiresAt, pf))
  {
    var nodes := NodeMap(dag.nodes);
    forall n, r | n in nodes && r in Reads(nodes[n], RawPayload(nodes[n])) && r in nodes
      ensures rank[r] < rank[n]
    {
      ReadIsEarlier(dag, nodes, tiers, rank, n, r);
    }
  }

  /** An accepted workflow, assembled with the real template code, meets the engine's assumptions. */
  lemma AcceptedWorkflow(dag: Dag, maxNodes: nat, tiers: seq<seq<string>>, expiresAt: int, pf: Platform) returns (w: Workflow)
    requires StructuralError(dag, maxNodes).None? && Plan(NodeIds(dag.nodes), Arcs(dag), tiers)
    ensures w == Assemble(NodeMap(dag.nodes), Arcs(dag), tiers, w.rank, expiresAt, pf)
    ensures Ranked(w) && NoEmptyTiers(w) && UndoIsFixed(w) && BuildIsFixed(w) && BuildReadsOnly(w)
    ensures TemplatesLookBack(NodeMap(dag.nodes), tiers) ==> ReadsEarlier(w)
  {
    AcceptedIsClosed(dag, maxNodes);
    var nodes := NodeMap(dag.nodes);
    var rank := TierNumbers(nodes.Keys, Arcs(dag), tiers);
    w := Assemble(nodes, Arcs(dag), tiers, rank, expiresAt, pf);
    TemplatesReadOnlyTheirRefs(nodes, Arcs(dag), tiers, rank, expiresAt, pf);
    CompensationIsFixed(nodes, Arcs(dag), tiers, rank, expiresAt, pf);
    BuildingIsFixed(nodes, Arcs(dag), tiers, rank, expiresAt, pf);
    if TemplatesLookBack(nodes, tiers) {
      AssemblyReadsEarlier(dag, tiers, rank, expiresAt, pf);
    }
  }

  function Start(dag: Dag, w: Workflow): State {
    Initial(w, PendingIds(dag.nodes))
  }

  /** Every dispatch of the run came after all its parents, by dependency or edge. */
  ghost predicate DependencySafe(dag: Dag, s: State) {
    forall d, m :: d in s.dispatched && (EdgeBetween(dag, m, d.node) || DependsOn(dag, d.node, m)) ==> m in d.completedThen
  }

  /** The assembled workflow builds, undoes and stores what the nodes themselves say. */
  lemma AssembledFaithfully(nodes: map<string, Node>, arcs: seq<Arc>, tiers: seq<seq<string>>, rank: map<string, nat>, expiresAt: int, pf: Platform, n: string, outputs: Outputs)
    requires n in nodes
    ensures var w := Assemble(nodes, arcs, tiers, rank, expiresAt, pf);
      && (nodes[n].compensationPayload.None? ==> w.undo(outputs, n).None?)
      && (nodes[n].compensationPayload.Some? ==> IsPayload(pf, outputs, nodes[n], nodes[n].compensationPayload.value, w.undo(outputs, n)))
      && (nodes[n].payload.None? ==> IsPayload(pf, outputs, nodes[n], [], w.build(outputs, n)))
      && (nodes[n].payload.Some? ==> IsPayload(pf, outputs, nodes[n], nodes[n].payload.value, w.build(outputs, n)))
  {
    var node := nodes[n];
    PayloadIsPayload(pf, outputs, node, []);
    if node.payload.Some? {
      PayloadIsPayload(pf, outputs, node, node.payload.value);
    }
    if node.compensationPayload.Some? {
      PayloadIsPayload(pf, outputs, node, node.compensationPayload.value);
    }
  }

  /** A successful result without an output is stored as an empty object; one that is not an object is not stored. */
  lemma StoredFaithfully(nodes: map<string, Node>, arcs: seq<Arc>, tiers: seq<seq<string>>, rank: map<string, nat>, expiresAt: int, pf: Platform, s: State, n: string, output: Value)
    ensures var s' := RecordReply(Assemble(nodes, arcs, tiers, rank, expiresAt, pf), s, n, Success(output));
      && (output in {Null, Bool(false), Num(0), Str("")} && pf.store(Obj([])).Some? ==>
            s'.outputs == s.outputs[n := pf.store(Obj([])).value] && s'.completed == s.completed + [n])
      && (output == Bool(true) || (output.Num? && output.n != 0) || (output.Str? && output.s != "") ==>
            s'.outputs == s.outputs && s'.completed == s.completed + [n])
      && (output.Arr? && pf.store(output).Some? ==>
            s'.outputs == s.outputs[n := pf.store(output).value] && s'.completed == s.completed + [n])
      && (output.Obj? && (exists f :: f in output.fields && !IsHarmless(f.key)) ==> s'.phase == Rejected && s'.outputs == s.outputs)
      && (output.Obj? && (forall f :: f in output.fields ==> IsHarmless(f.key)) && pf.store(output).Some? ==>
            s'.outputs == s.outputs[n := pf.store(output).value] && s'.completed == s.completed + [n])
  {
  }

  lemma PayloadIsPayload(pf: Platform, outputs: Outputs, node: Node, raw: seq<Field>)
    ensures IsPayload(pf, outputs, node, raw, BuildPayload(pf, outputs, node, raw))
  {
    if BuildPayload(pf, outputs, node, raw).Some? {
      forall key ensures FieldIsPayload(pf, outputs, node, raw, BuildPayload(pf, outputs, node, raw).value, key) {
        PayloadHolds(pf, outputs, node, raw, key);
      }
    }
    if Plain(Obj(raw)) {
      PlainPayloadHolds(pf, outputs, node, raw);
    }
  }

  /** One field of a payload: the parents' outputs, or the raw field with its templates filled in. */
  ghost predicate FieldIsPayload(pf: Platform, outputs: Outputs, node: Node, raw: seq<Field>, p: Value, key: string) {
    && p.Obj?
    && if key == PARENTS && node.dependencies.Some?
       then HoldsParents(FieldOf(p.fields, key), outputs, node.dependencies.value)
       else HoldsResolved(pf, outputs, FieldOf(p.fields, key), FieldOf(raw, key))
  }

  /** The raw payload was built into p: always if it is plain, and then with exactly its own fields. */
  ghost predicate IsPayload(pf: Platform, outputs: Outputs, node: Node, raw: seq<Field>, p: Option<Value>) {
    && (p.Some? ==> forall key :: FieldIsPayload(pf, outputs, node, raw, p.value, key))
    && (Plain(Obj(raw)) ==>
          && p.Some? && p.value.Obj?
          && (node.dependencies.None? ==> p.value == Obj(raw))
          && forall key :: key != PARENTS ==> FieldOf(p.value.fields, key) == FieldOf(raw, key))
  }

  /** Every payload handed over for a node is that node's payload, built against the outputs at that moment. */
  ghost predicate DispatchedFaithfully(pf: Platform, nodes: map<string, Node>, s: State) {
    forall d :: d in s.dispatched ==>
      && d.node in nodes
      && IsPayload(pf, d.outputsThen, nodes[d.node], if nodes[d.node].payload.Some? then nodes[d.node].payload.value else [], Some(d.payload))
  }

  /**
   * A finished failed run compensated completed nodes that carry a compensation payload, with that
   * payload built against the final outputs; and every such node whose payload is plain, exactly once.
   */
  ghost predicate CompensatedFaithfully(pf: Platform, nodes: map<string, Node>, s: State) {
    && (forall u :: u in s.compensated ==>
          && u.node in nodes && u.node in s.completed && nodes[u.node].compensationPayload.Some?
          && IsPayload(pf, s.outputs, nodes[u.node], nodes[u.node].compensationPayload.value, Some(u.payload)))
    && (forall i, j :: 0 <= i < j < |s.compensated| ==> s.compensated[i].node != s.compensated[j].node)
    && (forall n :: n in s.completed && n in nodes && nodes[n].compensationPayload.Some? && Plain(Obj(nodes[n].compensationPayload.value))
          ==> exists u :: u in s.compensated && u.node == n)
  }

  lemma FilterKeepsDistinct(s: seq<string>, p: string -> bool)
    requires Distinct(s)
    ensures Distinct(Filter(s, p))
  {
    var at := FilterIsStable(s, p);
  }

  lemma CompensationIsFaithful(nodes: map<string, Node>, arcs: seq<Arc>, tiers: seq<seq<string>>, rank: map<string, nat>, expiresAt: int, pf: Platform, s: State)
    requires var w := Assemble(nodes, arcs, tiers, rank, expiresAt, pf);
      UndoIsFixed(w) && ListInv(s) && UndoInv(w, s) && s.pc.Keys == nodes.Keys && s.phase.Finished? && s.status == Failed
    ensures CompensatedFaithfully(pf, nodes, s)
  {
    var w := Assemble(nodes, arcs, tiers, rank, expiresAt, pf);
    FinishedIsExact(w, s);
    forall u | u in s.compensated
      ensures u.node in nodes && nodes[u.node].compensationPayload.Some?
        && IsPayload(pf, s.outputs, nodes[u.node], nodes[u.node].compensationPayload.value, Some(u.payload))
    {
      assert u.node in Elems(s.completed);
      AssembledFaithfully(nodes, arcs, tiers, rank, expiresAt, pf, u.node, s.outputs);
    }
    FilterKeepsDistinct(s.undone, CompensableIn(w));
    forall n | n in s.completed && n in nodes && nodes[n].compensationPayload.Some? && Plain(Obj(nodes[n].compensationPayload.value))
      ensures exists u :: u in s.compensated && u.node == n
    {
      PlainIsScheduled(nodes, arcs, tiers, rank, expiresAt, pf, s, n);
    }
  }

  lemma PlainIsScheduled(nodes: map<string, Node>, arcs: seq<Arc>, tiers: seq<seq<string>>, rank: map<string, nat>, expiresAt: int, pf: Platform, s: State, n: string)
    requires ExactlyCompensated(Assemble(nodes, arcs, tiers, rank, expiresAt, pf), s)
    requires n in s.completed && n in nodes && nodes[n].compensationPayload.Some? && Plain(Obj(nodes[n].compensationPayload.value))
    ensures exists u :: u in s.compensated && u.node == n
  {
    var w := Assemble(nodes, arcs, tiers, rank, expiresAt, pf);
    AssembledFaithfully(nodes, arcs, tiers, rank, expiresAt, pf, n, map[]);
    ReverseElements(s.completed);
    FilterMember(Reverse(s.completed), CompensableIn(w), n);
    assert n in NodesOf(s.compensated);
    var k :| 0 <= k < |NodesOf(s.compensated)| && NodesOf(s.compensated)[k] == n;
    assert s.compensated[k] in s.compensated;
  }

  /** What every run of an accepted workflow keeps to. */
  ghost predicate RunsFaithfully(dag: Dag, pf: Platform, s: State) {
    && DependencySafe(dag, s)
    && DispatchedFaithfully(pf, NodeMap(dag.nodes), s)
    && (s.phase.Finished? && s.status == Failed ==> CompensatedFaithfully(pf, NodeMap(dag.nodes), s))
    && (s.phase.Finished? && s.status != Failed ==> s.compensated == [])
  }

  lemma DispatchIsFaithful(dag: Dag, w: Workflow, pf: Platform, expiresAt: int, events: seq<Event>)
    requires w == Assemble(NodeMap(dag.nodes), Arcs(dag), w.tiers, w.rank, expiresAt, pf)
    requires Ranked(w) && UndoIsFixed(w) && CanRun(w, Start(dag, w), events)
    ensures var s := Run(w, Start(dag, w), events); DependencySafe(dag, s) && DispatchedFaithfully(pf, NodeMap(dag.nodes), s)
  {
    var nodes, s := NodeMap(dag.nodes), Run(w, Start(dag, w), events);
    forall d, m | d in s.dispatched && (EdgeBetween(dag, m, d.node) || DependsOn(dag, d.node, m))
      ensures m in d.completedThen
    {
      DependencySafety(w, PendingIds(dag.nodes), events, d);
      ArcMeaning(dag, Arc(m, d.node));
    }
    forall d | d in s.dispatched
      ensures d.node in nodes && IsPayload(pf, d.outputsThen, nodes[d.node],
        if nodes[d.node].payload.Some? then nodes[d.node].payload.value else [], Some(d.payload))
    {
      DependencySafety(w, PendingIds(dag.nodes), events, d);
      AssembledFaithfully(nodes, Arcs(dag), w.tiers, w.rank, expiresAt, pf, d.node, d.outputsThen);
    }
  }

  lemma AcceptedRunIsFaithful(dag: Dag, w: Workflow, pf: Platform, expiresAt: int, events: seq<Event>)
    requires w == Assemble(NodeMap(dag.nodes), Arcs(dag), w.tiers, w.rank, expiresAt, pf)
    requires Ranked(w) && UndoIsFixed(w) && CanRun(w, Start(dag, w), events)
    ensures RunsFaithfully(dag, pf, Run(w, Start(dag, w), events))
  {
    var s := Run(w, Start(dag, w), events);
    DispatchIsFaithful(dag, w, pf, expiresAt, events);
    EveryRunKeepsInv(w, PendingIds(dag.nodes), events);
    if s.phase.Finished? && s.status == Failed {
      CompensationIsFaithful(NodeMap(dag.nodes), Arcs(dag), w.tiers, w.rank, expiresAt, pf, s);
    } else {
      CompensationIsExact(w, PendingIds(dag.nodes), events);
    }
  }

  /**
   * Planner to runtime: whatever the parser accepts, the engine runs faithfully on every
   * interleaving: dependencies first, each node with its own payload, and after a failure the
   * completed nodes undone with their own compensation payloads. If its templates look back, every
   * two interleavings against the same node behaviour agree on payloads, verdict and outputs.
   */
  lemma PlannerToRuntime(dag: Dag, maxNodes: nat, tiers: seq<seq<string>>, expiresAt: int, pf: Platform) returns (w: Workflow)
    requires StructuralError(dag, maxNodes).None? && Plan(NodeIds(dag.nodes), Arcs(dag), tiers)
    ensures w == Assemble(NodeMap(dag.nodes), Arcs(dag), tiers, w.rank, expiresAt, pf)
    ensures forall events :: CanRun(w, Start(dag, w), events) ==> RunsFaithfully(dag, pf, Run(w, Start(dag, w), events))
    ensures TemplatesLookBack(NodeMap(dag.nodes), tiers) ==>
      forall run, left, right :: FaithfulRun(w, run, PendingIds(dag.nodes), left) && FaithfulRun(w, run, PendingIds(dag.nodes), right) ==>
        SameOutcome(Run(w, Start(dag, w), left), Run(w, Start(dag, w), right))
  {
    w := AcceptedWorkflow(dag, maxNodes, tiers, expiresAt, pf);
    var order := PendingIds(dag.nodes);
    forall events | CanRun(w, Start(dag, w), events)
      ensures RunsFaithfully(dag, pf, Run(w, Start(dag, w), events))
    {
      AcceptedRunIsFaithful(dag, w, pf, expiresAt, events);
    }
    if TemplatesLookBack(NodeMap(dag.nodes), tiers) {
      forall run, left, right | FaithfulRun(w, run, order, left) && FaithfulRun(w, run, order, right)
        ensures SameOutcome(Run(w, Start(dag, w), left), Run(w, Start(dag, w), right))
      {
        Confluence(w, run, order, left, right);
      }
    }
  }
}
