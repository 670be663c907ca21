// WorkflowEngine.executeDAGTiers, executeSingleNode, executeCompensation and
// cancelWorkflow as atomic steps cut at the awaits; every interleaving of the steps is a run.
module WorkflowEngine {
  import opened Collections
  import opened Graph
  import opened WorkflowTypes
  import opened StepContext

  /**
   * A planned workflow as the engine sees it: the graph, the parser's tiers, the tier number of
   * each node, and the three things the step context does for it. `build` makes the payload of
   * a node, `undo` the payload of its compensation (None also when it has none), where None stands
   * for a thrown error; `store` says what becomes of an output.
   */
  datatype Workflow = Workflow(
    nodes: set<string>,
    arcs: seq<Arc>,
    tiers: seq<seq<string>>,
    rank: map<string, nat>,
    readSet: map<string, set<string>>,
    expiresAt: int,
    build: (Outputs, string) -> Option<Value>,
    undo: (Outputs, string) -> Option<Value>,
    store: Value -> Storing)

  ghost predicate Ranked(w: Workflow) {
    Ranks(w.nodes, w.arcs, w.tiers, w.rank)
  }

  /** Whether a compensation payload can be built does not depend on the outputs. */
  ghost predicate UndoIsFixed(w: Workflow) {
    forall n, a, b :: w.undo(a, n).Some? <==> w.undo(b, n).Some?
  }

  /** Nor does whether the payload of a node can be built. */
  ghost predicate BuildIsFixed(w: Workflow) {
    forall n, a, b :: w.build(a, n).Some? <==> w.build(b, n).Some?
  }

  ghost predicate NoEmptyTiers(w: Workflow) {
    forall i :: 0 <= i < |w.tiers| ==> w.tiers[i] != []
  }

  datatype Status = Running | Canceled | Expired | Failed | Completed

  /** Where one executeSingleNode call is suspended. */
  datatype NodePc =
    | Idle
    | Starting                  // first checkpoint is being written
    | Scheduled(payload: Value) // handed to the scheduler
    | Recording(ok: bool)       // second checkpoint is being written
    | Returned(ok: bool)
    | ThrewActive               // the call rejected before the node left the active list,
    | ThrewUnlisted             // after it left the list without completing,
    | ThrewCompleted            // or after it completed

  /** Where executeDAGTiers is. Rejected: some node threw, so the whole call rejected. */
  datatype Phase = AtTier | Leasing | Waiting | Compensating(rest: seq<string>) | Finished | Rejected

  /** A compensation handed to the scheduler. */
  datatype Undo = Undo(node: string, payload: Value)

  /** A node handed to the scheduler, with what had completed by then. */
  datatype Dispatch = Dispatch(node: string, completedThen: seq<string>, outputsThen: Outputs, payload: Value)

  datatype State = State(
    tier: nat,
    phase: Phase,
    status: Status,
    pc: map<string, NodePc>,
    pending: seq<string>,
    active: seq<string>,
    completed: seq<string>,
    outputs: Outputs,
    dispatched: seq<Dispatch>,
    undone: seq<string>,       // nodes the compensation loop has visited
    compensated: seq<Undo>)    // the compensations scheduled

  datatype Reply = Success(output: Value) | Failure

  datatype Event =
    | TierCheck(now: int)
    | LeaseReply(valid: bool)
    | Submit(node: string)
    | SchedulerReply(node: string, reply: Reply)
    | Return(node: string)
    | Throw(node: string)       // a checkpoint write or the scheduler rejects
    | LeaseThrows               // the lease check, or the checkpoint write before it, rejects
    | Join
    | Compensate
    | Cancel

  function Initial(w: Workflow, order: seq<string>): State {
    State(0, AtTier, Running, map n | n in w.nodes :: Idle, order, [], [], map[], [], [], [])
  }

  function Reverse<T>(s: seq<T>): (r: seq<T>)
    ensures |r| == |s|
    ensures forall i :: 0 <= i < |s| ==> r[i] == s[|s| - 1 - i]
  {
    if s == [] then [] else [Last(s)] + Reverse(s[..|s| - 1])
  }

  function OutsideOf(xs: seq<string>): string -> bool {
    (n: string) => n !in xs
  }

  predicate TierReturned(w: Workflow, s: State) {
    s.tier < |w.tiers| && forall n :: n in w.tiers[s.tier] ==> n in s.pc && s.pc[n].Returned?
  }

  predicate TierFailed(w: Workflow, s: State)
    requires TierReturned(w, s)
  {
    exists n :: n in w.tiers[s.tier] && !s.pc[n].ok
  }

  predicate InFlight(pc: NodePc) {
    pc.Starting? || pc.Scheduled? || pc.Recording?
  }

  predicate Enabled(w: Workflow, s: State, event: Event) {
    match event
    case TierCheck(_) => s.phase.AtTier? && s.tier <= |w.tiers|
    case LeaseReply(_) => s.phase.Leasing? && s.tier < |w.tiers|
    case Submit(n) => n in s.pc && s.pc[n].Starting?
    case SchedulerReply(n, _) => n in s.pc && s.pc[n].Scheduled?
    case Return(n) => n in s.pc && s.pc[n].Recording?
    case Throw(n) => n in s.pc && InFlight(s.pc[n])
    case LeaseThrows => s.phase.Leasing? || (s.phase.AtTier? && s.tier == 0)
    case Join => s.phase.Waiting? && TierReturned(w, s)
    case Compensate => s.phase.Compensating?
    case Cancel => true
  }

  function CheckTier(w: Workflow, s: State, now: int): State
    requires s.tier <= |w.tiers|
  {
    if s.tier == |w.tiers| then s.(status := Completed, phase := Finished)
    else if s.status == Canceled || now > w.expiresAt then
      s.(status := if now > w.expiresAt then Expired else Canceled, phase := Finished)
    else s.(phase := Leasing)
  }

  function Begun(pc: map<string, NodePc>, nodes: seq<string>): map<string, NodePc> {
    map n | n in pc :: if n in nodes then Starting else pc[n]
  }

  lemma BegunSnoc(pc: map<string, NodePc>, nodes: seq<string>, n: string)
    requires n in pc
    ensures Begun(pc, nodes + [n]) == Begun(pc, nodes)[n := Starting]
  {
  }

  /** All nodes of the tier start in one go: Promise.all over the tier. */
  function BeginTier(w: Workflow, s: State): State
    requires s.tier < |w.tiers|
  {
    var tier := w.tiers[s.tier];
    s.(phase := Waiting,
       pc := Begun(s.pc, tier),
       active := s.active + tier,
       pending := Filter(s.pending, OutsideOf(tier)))
  }

  function SubmitNode(w: Workflow, s: State, n: string): State {
    var payload := w.build(s.outputs, n);
    if payload.None? then s.(pc := s.pc[n := ThrewActive], phase := Rejected)
    else s.(pc := s.pc[n := Scheduled(payload.value)],
            dispatched := s.dispatched + [Dispatch(n, s.completed, s.outputs, payload.value)])
  }

  /** A result without an output counts as the empty object. */
  function OrEmpty(output: Value): Value {
    if output in {Null, Bool(false), Num(0), Str("")} then Obj([]) else output
  }

  function RecordReply(w: Workflow, s: State, n: string, reply: Reply): State {
    var s' := s.(active := Filter(s.active, OutsideOf([n])));
    match reply
    case Failure => s'.(pc := s.pc[n := Recording(false)])
    case Success(output) =>
      match w.store(OrEmpty(output))
      case Refused => s'.(pc := s.pc[n := ThrewUnlisted], phase := Rejected)
      case Ignored => s'.(pc := s.pc[n := Recording(true)], completed := s.completed + [n])
      case Kept(stored) =>
        s'.(pc := s.pc[n := Recording(true)],
            outputs := s.outputs[n := stored],
            completed := s.completed + [n])
  }

  /** The call of one node rejects, and with it the whole engine call; its siblings go on. */
  function ThrowNode(s: State, n: string): State
    requires n in s.pc && InFlight(s.pc[n])
  {
    var pc := s.pc[n];
    s.(pc := s.pc[n := if !pc.Recording? then ThrewActive else if pc.ok then ThrewCompleted else ThrewUnlisted],
       phase := Rejected)
  }

  function JoinTier(w: Workflow, s: State): State
    requires TierReturned(w, s)
  {
    if TierFailed(w, s) then s.(status := Failed, phase := Compensating(Reverse(s.completed)))
    else s.(tier := s.tier + 1, phase := AtTier)
  }

  /** One round of the compensation loop; a payload that throws is skipped. */
  function CompensateOne(w: Workflow, s: State): State
    requires s.phase.Compensating?
  {
    if s.phase.rest == [] then s.(phase := Finished)
    else
      var n := s.phase.rest[0];
      var s' := s.(phase := Compensating(s.phase.rest[1..]), undone := s.undone + [n]);
      var payload := w.undo(s.outputs, n);
      if payload.Some? then s'.(compensated := s.compensated + [Undo(n, payload.value)]) else s'
  }

  /** The compensations of some nodes, one after the other. */
  function Undos(w: Workflow, outputs: Outputs, nodes: seq<string>): seq<Undo> {
    if nodes == [] then []
    else
      var payload := w.undo(outputs, Last(nodes));
      Undos(w, outputs, nodes[..|nodes| - 1]) + (if payload.Some? then [Undo(Last(nodes), payload.value)] else [])
  }

  function NodesOf(undos: seq<Undo>): (nodes: seq<string>)
    ensures |nodes| == |undos| && forall k :: 0 <= k < |undos| ==> nodes[k] == undos[k].node
  {
    if undos == [] then [] else NodesOf(undos[..|undos| - 1]) + [Last(undos).node]
  }

  function Step(w: Workflow, s: State, event: Event): State
    requires Enabled(w, s, event)
  {
    match event
    case TierCheck(now) => CheckTier(w, s, now)
    case LeaseReply(valid) => if valid then BeginTier(w, s) else s.(status := Expired, phase := Finished)
    case Submit(n) => SubmitNode(w, s, n)
    case SchedulerReply(n, reply) => RecordReply(w, s, n, reply)
    case Return(n) => s.(pc := s.pc[n := Returned(s.pc[n].ok)])
    case Throw(n) => ThrowNode(s, n)
    case LeaseThrows => s.(phase := Rejected)
    case Join => JoinTier(w, s)
    case Compensate => CompensateOne(w, s)
    case Cancel => if s.status == Running then s.(status := Canceled) else s
  }

  predicate CanRun(w: Workflow, s: State, events: seq<Event>)
    decreases |events|
  {
    events == [] || (Enabled(w, s, events[0]) && CanRun(w, Step(w, s, events[0]), events[1..]))
  }

  function Run(w: Workflow, s: State, events: seq<Event>): State
    requires CanRun(w, s, events)
    decreases |events|
  {
    if events == [] then s else Run(w, Step(w, s, events[0]), events[1..])
  }

  // ---- The invariant ----

  /** Tiers below the current one are done, tiers above it untouched, and only the current one moves. */
  ghost predicate TierInv(w: Workflow, s: State) {
    && s.pc.Keys == w.nodes == w.rank.Keys
    && s.tier <= |w.tiers|
    && (s.phase.Leasing? || s.phase.Waiting? ==> s.tier < |w.tiers|)
    && (s.status == Completed ==> s.phase.Finished? && s.tier == |w.tiers|)
    && (forall n :: n in w.nodes ==>
          && (w.rank[n] < s.tier ==> s.pc[n] == Returned(true))
          && (w.rank[n] > s.tier ==> s.pc[n] == Idle)
          && (w.rank[n] == s.tier && (s.phase.AtTier? || s.phase.Leasing?) ==> s.pc[n] == Idle)
          && (w.rank[n] == s.tier && s.phase.Waiting? ==> InFlight(s.pc[n]) || s.pc[n].Returned?))
    && (s.phase.Compensating? || s.phase.Finished? ==> forall n :: n in s.pc ==> !InFlight(s.pc[n]))
  }

  /** The node has been recorded as completed. */
  predicate Won(pc: NodePc) {
    pc == Recording(true) || pc == Returned(true) || pc.ThrewCompleted?
  }

  /** The lists of the workflow state say exactly where each node is. */
  ghost predicate ListInv(s: State) {
    && Distinct(s.completed)
    && Elems(s.completed) <= s.pc.Keys && Elems(s.pending) <= s.pc.Keys && Elems(s.active) <= s.pc.Keys
    && s.outputs.Keys <= Elems(s.completed)
    && forall n :: n in s.pc ==>
         && (n in s.pending <==> s.pc[n].Idle?)
         && (n in s.active <==> s.pc[n].Starting? || s.pc[n].Scheduled? || s.pc[n].ThrewActive?)
         && (n in s.completed <==> Won(s.pc[n]))
  }

  /** Nodes complete in tier order. */
  ghost predicate OrderInv(w: Workflow, s: State) {
    forall i, j :: 0 <= i < j < |s.completed| && s.completed[i] in w.rank && s.completed[j] in w.rank
      ==> w.rank[s.completed[i]] <= w.rank[s.completed[j]]
  }

  /** Whatever was handed to the scheduler had all its parents completed by then, and its payload built from their outputs. */
  ghost predicate DispatchInv(w: Workflow, s: State) {
    forall d :: d in s.dispatched ==>
      && d.node in w.nodes && Ready(w.arcs, Elems(d.completedThen), d.node)
      && d.outputsThen.Keys <= Elems(d.completedThen) && w.build(d.outputsThen, d.node) == Some(d.payload)
  }

  /** Compensation follows a failure, and its loop walks the completed nodes backwards. */
  ghost predicate UndoInv(w: Workflow, s: State) {
    && (s.phase.Compensating? ==> s.status == Failed && s.undone + s.phase.rest == Reverse(s.completed))
    && (s.phase.Finished? ==> s.undone == if s.status == Failed then Reverse(s.completed) else [])
    && (!s.phase.Compensating? && !s.phase.Finished? ==> s.undone == [])
    && s.compensated == Undos(w, s.outputs, s.undone)
  }

  function CompensableIn(w: Workflow): string -> bool {
    (n: string) => w.undo(map[], n).Some?
  }

  ghost predicate Inv(w: Workflow, s: State) {
    TierInv(w, s) && ListInv(s) && OrderInv(w, s) && DispatchInv(w, s) && UndoInv(w, s)
  }

  /** A node in flight belongs to the current tier, and that tier has been begun. */
  lemma InFlightInTier(w: Workflow, s: State, n: string)
    requires Ranked(w) && TierInv(w, s) && n in s.pc && InFlight(s.pc[n])
    ensures w.rank[n] == s.tier < |w.tiers|
    ensures s.phase.Waiting? || s.phase.Rejected?
  {
  }

  lemma MovingOneNodeKeepsTiers(w: Workflow, s: State, s': State, n: string)
    requires Ranked(w) && TierInv(w, s) && n in s.pc && InFlight(s.pc[n])
    requires s'.pc.Keys == s.pc.Keys && (forall m :: m in s.pc && m != n ==> s'.pc[m] == s.pc[m])
    requires s'.tier == s.tier && s'.status == s.status
    requires s'.phase.Rejected? || (s'.phase == s.phase && (InFlight(s'.pc[n]) || s'.pc[n].Returned?))
    ensures TierInv(w, s')
  {
    InFlightInTier(w, s, n);
  }

  lemma QuietBetweenTiers(w: Workflow, s: State)
    requires Ranked(w) && TierInv(w, s)
    requires s.phase.AtTier? || s.phase.Leasing? || (s.phase.Waiting? && TierReturned(w, s))
    ensures forall n :: n in s.pc ==> !InFlight(s.pc[n])
  {
    forall n | n in s.pc ensures !InFlight(s.pc[n]) {
      if w.rank[n] == s.tier && s.phase.Waiting? {
        assert n in w.tiers[s.tier];
      }
    }
  }

  lemma JoinKeepsTiers(w: Workflow, s: State)
    requires Ranked(w) && TierInv(w, s) && s.phase.Waiting? && TierReturned(w, s)
    ensures TierInv(w, JoinTier(w, s))
  {
    QuietBetweenTiers(w, s);
    forall n | n in w.nodes && w.rank[n] == s.tier
      ensures s.pc[n].Returned? && (!TierFailed(w, s) ==> s.pc[n].ok)
    {
      assert n in w.tiers[s.tier];
    }
  }

  lemma BeginKeepsTiers(w: Workflow, s: State)
    requires Ranked(w) && TierInv(w, s) && s.phase.Leasing?
    ensures TierInv(w, BeginTier(w, s))
  {
  }

  lemma LeaseKeepsTiers(w: Workflow, s: State, valid: bool)
    requires Ranked(w) && TierInv(w, s) && s.phase.Leasing?
    ensures TierInv(w, Step(w, s, LeaseReply(valid)))
  {
    if valid {
      BeginKeepsTiers(w, s);
    } else {
      QuietBetweenTiers(w, s);
    }
  }

  lemma CheckKeepsTiers(w: Workflow, s: State, now: int)
    requires Ranked(w) && TierInv(w, s) && s.phase.AtTier?
    ensures TierInv(w, CheckTier(w, s, now))
  {
    QuietBetweenTiers(w, s);
  }

  lemma TierStep(w: Workflow, s: State, event: Event)
    requires Ranked(w) && TierInv(w, s) && Enabled(w, s, event)
    ensures TierInv(w, Step(w, s, event))
  {
    match event
    case TierCheck(now) => CheckKeepsTiers(w, s, now);
    case LeaseReply(valid) => LeaseKeepsTiers(w, s, valid);
    case Join => JoinKeepsTiers(w, s);
    case LeaseThrows => LeaseThrowsKeepsTiers(w, s);
    case Compensate => SamePositionsKeepTiers(w, s, CompensateOne(w, s));
    case Cancel => SamePositionsKeepTiers(w, s, Step(w, s, event));
    case _ => NodeStepKeepsTiers(w, s, event);
  }

  lemma LeaseThrowsKeepsTiers(w: Workflow, s: State)
    requires TierInv(w, s) && Enabled(w, s, LeaseThrows)
    ensures TierInv(w, Step(w, s, LeaseThrows))
  {
  }

  lemma NodeStepKeepsTiers(w: Workflow, s: State, event: Event)
    requires Ranked(w) && TierInv(w, s) && Enabled(w, s, event)
    requires event.Submit? || event.SchedulerReply? || event.Return? || event.Throw?
    ensures TierInv(w, Step(w, s, event))
  {
    match event
    case Submit(n) => MovingOneNodeKeepsTiers(w, s, SubmitNode(w, s, n), n);
    case SchedulerReply(n, reply) => MovingOneNodeKeepsTiers(w, s, RecordReply(w, s, n, reply), n);
    case Return(n) => MovingOneNodeKeepsTiers(w, s, Step(w, s, event), n);
    case Throw(n) => MovingOneNodeKeepsTiers(w, s, ThrowNode(s, n), n);
  }

  lemma SamePositionsKeepTiers(w: Workflow, s: State, s': State)
    requires TierInv(w, s) && s'.tier == s.tier && s'.pc == s.pc
    requires s'.phase == s.phase || (s.phase.Compensating? && (s'.phase.Compensating? || s'.phase.Finished?))
    requires s'.status == s.status || s'.status == Canceled
    ensures TierInv(w, s')
  {
  }

  lemma FilterOutside(s: seq<string>, xs: seq<string>)
    ensures forall n :: n in Filter(s, OutsideOf(xs)) <==> n in s && n !in xs
  {
    forall n {
      FilterMember(s, OutsideOf(xs), n);
    }
  }

  lemma BeginTierKeepsLists(w: Workflow, s: State)
    requires Ranked(w) && TierInv(w, s) && ListInv(s) && s.phase.Leasing?
    ensures ListInv(BeginTier(w, s))
  {
    FilterOutside(s.pending, w.tiers[s.tier]);
  }

  lemma CompletingKeepsLists(s: State, s': State, n: string)
    requires ListInv(s) && n in s.pc && s.pc[n].Scheduled?
    requires s'.pc == s.pc[n := Recording(true)] && s'.completed == s.completed + [n] && s'.pending == s.pending
    requires s'.active == Filter(s.active, OutsideOf([n])) && s'.outputs.Keys <= s.outputs.Keys + {n}
    ensures ListInv(s')
  {
    FilterOutside(s.active, [n]);
    assert Elems(s'.completed) == Elems(s.completed) + {n};
  }

  lemma FailingKeepsLists(s: State, s': State, n: string)
    requires ListInv(s) && n in s.pc && s.pc[n].Scheduled?
    requires s'.pc == s.pc[n := Recording(false)] || s'.pc == s.pc[n := ThrewUnlisted]
    requires s'.completed == s.completed && s'.pending == s.pending && s'.outputs == s.outputs
    requires s'.active == Filter(s.active, OutsideOf([n]))
    ensures ListInv(s')
  {
    FilterOutside(s.active, [n]);
  }

  lemma ReplyKeepsLists(w: Workflow, s: State, n: string, reply: Reply)
    requires ListInv(s) && n in s.pc && s.pc[n].Scheduled?
    ensures ListInv(RecordReply(w, s, n, reply))
  {
    var s' := RecordReply(w, s, n, reply);
    if reply.Success? && !w.store(OrEmpty(reply.output)).Refused? {
      CompletingKeepsLists(s, s', n);
    } else {
      FailingKeepsLists(s, s', n);
    }
  }

  lemma SameGroupKeepsLists(s: State, s': State, n: string)
    requires ListInv(s) && n in s.pc
    requires s'.pc.Keys == s.pc.Keys && forall m :: m in s.pc && m != n ==> s'.pc[m] == s.pc[m]
    requires ((s.pc[n].Starting? || s.pc[n].Scheduled?) && (s'.pc[n].Scheduled? || s'.pc[n].ThrewActive?))
          || (s.pc[n].Recording? && s'.pc[n] == Returned(s.pc[n].ok))
          || (s.pc[n] == Recording(true) && s'.pc[n].ThrewCompleted?)
          || (s.pc[n] == Recording(false) && s'.pc[n].ThrewUnlisted?)
    requires s'.completed == s.completed && s'.pending == s.pending && s'.outputs == s.outputs && s'.active == s.active
    ensures ListInv(s')
  {
  }

  lemma UntouchedLists(s: State, s': State)
    requires ListInv(s)
    requires s'.pc == s.pc && s'.completed == s.completed && s'.pending == s.pending && s'.outputs == s.outputs && s'.active == s.active
    ensures ListInv(s')
  {
  }

  lemma ListStep(w: Workflow, s: State, event: Event)
    requires Ranked(w) && TierInv(w, s) && ListInv(s) && Enabled(w, s, event)
    ensures ListInv(Step(w, s, event))
  {
    match event
    case LeaseReply(valid) => LeaseKeepsLists(w, s, valid);
    case Submit(n) => SubmitKeepsLists(w, s, n);
    case SchedulerReply(n, reply) => ReplyKeepsLists(w, s, n, reply);
    case Return(n) => ReturnKeepsLists(w, s, n);
    case Throw(n) => ThrowKeepsLists(w, s, n);
    case _ => CallStepKeepsLists(w, s, event);
  }

  /** Steps of the engine call itself move no node. */
  lemma CallStepKeepsLists(w: Workflow, s: State, event: Event)
    requires ListInv(s) && Enabled(w, s, event)
    requires event.TierCheck? || event.LeaseThrows? || event.Join? || event.Compensate? || event.Cancel?
    ensures ListInv(Step(w, s, event))
  {
    UntouchedLists(s, Step(w, s, event));
  }

  lemma LeaseKeepsLists(w: Workflow, s: State, valid: bool)
    requires Ranked(w) && TierInv(w, s) && ListInv(s) && s.phase.Leasing?
    ensures ListInv(Step(w, s, LeaseReply(valid)))
  {
    if valid {
      BeginTierKeepsLists(w, s);
    } else {
      UntouchedLists(s, Step(w, s, LeaseReply(valid)));
    }
  }

  lemma SubmitKeepsLists(w: Workflow, s: State, n: string)
    requires ListInv(s) && n in s.pc && s.pc[n].Starting?
    ensures ListInv(SubmitNode(w, s, n))
  {
    SameGroupKeepsLists(s, SubmitNode(w, s, n), n);
  }

  lemma ThrowKeepsLists(w: Workflow, s: State, n: string)
    requires ListInv(s) && Enabled(w, s, Throw(n))
    ensures ListInv(Step(w, s, Throw(n)))
  {
    SameGroupKeepsLists(s, ThrowNode(s, n), n);
  }

  lemma ReturnKeepsLists(w: Workflow, s: State, n: string)
    requires ListInv(s) && n in s.pc && s.pc[n].Recording?
    ensures ListInv(Step(w, s, Return(n)))
  {
    SameGroupKeepsLists(s, Step(w, s, Return(n)), n);
  }

  lemma CompletingKeepsOrder(w: Workflow, s: State, s': State, n: string)
    requires Ranked(w) && TierInv(w, s) && ListInv(s) && OrderInv(w, s)
    requires n in s.pc && InFlight(s.pc[n]) && s'.completed == s.completed + [n]
    ensures OrderInv(w, s')
  {
    InFlightInTier(w, s, n);
    forall i | 0 <= i < |s.completed| ensures w.rank[s.completed[i]] <= s.tier {
      assert s.completed[i] in Elems(s.completed);
    }
  }

  lemma OrderStep(w: Workflow, s: State, event: Event)
    requires Ranked(w) && TierInv(w, s) && ListInv(s) && OrderInv(w, s) && Enabled(w, s, event)
    ensures OrderInv(w, Step(w, s, event))
  {
    var s' := Step(w, s, event);
    if event.SchedulerReply? && s'.completed != s.completed {
      CompletingKeepsOrder(w, s, s', event.node);
    } else {
      assert s'.completed == s.completed;
    }
  }

  /** A node about to be submitted has every parent completed. */
  lemma ParentsCompleted(w: Workflow, s: State, n: string)
    requires Ranked(w) && TierInv(w, s) && ListInv(s) && n in s.pc && s.pc[n].Starting?
    ensures Ready(w.arcs, Elems(s.completed), n)
  {
    InFlightInTier(w, s, n);
  }

  lemma DispatchStep(w: Workflow, s: State, event: Event)
    requires Ranked(w) && TierInv(w, s) && ListInv(s) && DispatchInv(w, s) && Enabled(w, s, event)
    ensures DispatchInv(w, Step(w, s, event))
  {
    if event.Submit? {
      ParentsCompleted(w, s, event.node);
    }
  }

  lemma CompensableAnyTime(w: Workflow, outputs: Outputs, n: string)
    requires UndoIsFixed(w)
    ensures w.undo(outputs, n).Some? <==> CompensableIn(w)(n)
  {
  }

  lemma CompensateKeepsUndo(w: Workflow, s: State)
    requires UndoInv(w, s) && s.phase.Compensating?
    ensures UndoInv(w, CompensateOne(w, s))
  {
    if s.phase.rest != [] {
      MoveFirst(s.undone, s.phase.rest);
      UndosSnoc(w, s.outputs, s.undone, s.phase.rest[0]);
    } else {
      assert s.undone + [] == s.undone;
    }
  }

  lemma MoveFirst(done: seq<string>, rest: seq<string>)
    requires rest != []
    ensures done + [rest[0]] + rest[1..] == done + rest
  {
  }

  lemma UndosSnoc(w: Workflow, outputs: Outputs, nodes: seq<string>, n: string)
    ensures Undos(w, outputs, nodes + [n]) == Undos(w, outputs, nodes)
      + if w.undo(outputs, n).Some? then [Undo(n, w.undo(outputs, n).value)] else []
  {
    assert (nodes + [n])[..|nodes|] == nodes;
  }

  /** The compensated nodes are the compensable ones, in the order of the visits, each with its payload. */
  lemma {:induction false} UndosAreCompensable(w: Workflow, outputs: Outputs, nodes: seq<string>)
    requires UndoIsFixed(w)
    ensures NodesOf(Undos(w, outputs, nodes)) == Filter(nodes, CompensableIn(w))
    ensures forall u :: u in Undos(w, outputs, nodes) ==> u.node in nodes && w.undo(outputs, u.node) == Some(u.payload)
  {
    if nodes != [] {
      var init, n := nodes[..|nodes| - 1], Last(nodes);
      UndosAreCompensable(w, outputs, init);
      CompensableAnyTime(w, outputs, n);
      assert nodes == init + [n];
      var undos := Undos(w, outputs, nodes);
      if w.undo(outputs, n).Some? {
        assert undos[..|undos| - 1] == Undos(w, outputs, init);
      }
    }
  }

  lemma UndoStep(w: Workflow, s: State, event: Event)
    requires Ranked(w) && UndoIsFixed(w) && TierInv(w, s) && UndoInv(w, s) && Enabled(w, s, event)
    ensures UndoInv(w, Step(w, s, event))
  {
    match event
    case Join => assert [] + Reverse(s.completed) == Reverse(s.completed);
    case Compensate => CompensateKeepsUndo(w, s);
    case TierCheck(_) =>
    case LeaseReply(_) =>
    case LeaseThrows =>
    case Cancel =>
    case _ => NodeStepKeepsUndo(w, s, event);
  }

  lemma NodeStepKeepsUndo(w: Workflow, s: State, event: Event)
    requires Ranked(w) && TierInv(w, s) && UndoInv(w, s) && Enabled(w, s, event)
    requires event.Submit? || event.SchedulerReply? || event.Return? || event.Throw?
    ensures UndoInv(w, Step(w, s, event))
  {
    InFlightInTier(w, s, event.node);
  }

  lemma StepKeepsInv(w: Workflow, s: State, event: Event)
    requires Ranked(w) && UndoIsFixed(w) && Inv(w, s) && Enabled(w, s, event)
    ensures Inv(w, Step(w, s, event))
  {
    TierStep(w, s, event);
    ListStep(w, s, event);
    OrderStep(w, s, event);
    DispatchStep(w, s, event);
    UndoStep(w, s, event);
  }

  lemma {:induction false} RunKeepsInv(w: Workflow, s: State, events: seq<Event>)
    requires Ranked(w) && UndoIsFixed(w) && Inv(w, s) && CanRun(w, s, events)
    ensures Inv(w, Run(w, s, events))
    decreases |events|
  {
    if events != [] {
      StepKeepsInv(w, s, events[0]);
      RunKeepsInv(w, Step(w, s, events[0]), events[1..]);
    }
  }

  lemma InitialInv(w: Workflow, order: seq<string>)
    requires Ranked(w) && Elems(order) == w.nodes
    ensures Inv(w, Initial(w, order))
  {
    assert forall n :: n in order <==> n in Elems(order);
  }

  // ---- Dependency safety, compensation, partition ----

  /** Every state of every run satisfies the invariant. */
  lemma EveryRunKeepsInv(w: Workflow, order: seq<string>, events: seq<Event>)
    requires Ranked(w) && UndoIsFixed(w) && Elems(order) == w.nodes
    requires CanRun(w, Initial(w, order), events)
    ensures Inv(w, Run(w, Initial(w, order), events))
  {
    InitialInv(w, order);
    RunKeepsInv(w, Initial(w, order), events);
  }

  /** On every interleaving a node reaches the scheduler only after all its parents completed. */
  lemma DependencySafety(w: Workflow, order: seq<string>, events: seq<Event>, d: Dispatch)
    requires Ranked(w) && UndoIsFixed(w) && Elems(order) == w.nodes
    requires CanRun(w, Initial(w, order), events)
    requires d in Run(w, Initial(w, order), events).dispatched
    ensures d.node in w.nodes && Ready(w.arcs, Elems(d.completedThen), d.node)
    ensures d.outputsThen.Keys <= Elems(d.completedThen) && w.build(d.outputsThen, d.node) == Some(d.payload)
  {
    EveryRunKeepsInv(w, order, events);
  }

  lemma {:induction false} RankClimbs(w: Workflow, p: seq<string>)
    requires Ranked(w) && IsPath(w.arcs, p) && |p| >= 2
    ensures p[0] in w.rank && Last(p) in w.rank && w.rank[p[0]] < w.rank[Last(p)]
    decreases |p|
  {
    assert Arc(p[|p| - 2], p[|p| - 2 + 1]) in w.arcs;
    if |p| > 2 {
      RankClimbs(w, p[..|p| - 1]);
    }
  }

  /** Whenever the loop has visited the start of a path, it visited the completed end of it before. */
  ghost predicate DescendantsFirst(w: Workflow, s: State) {
    forall p, k :: IsPath(w.arcs, p) && |p| >= 2 && 0 <= k < |s.undone| && s.undone[k] == p[0] && Last(p) in s.completed
      ==> Last(p) in s.undone[..k]
  }

  /**
   * Compensation order: on every interleaving, when the loop reaches a node, every completed
   * descendant of it has been visited before.
   */
  lemma CompensatedAfterDescendants(w: Workflow, order: seq<string>, events: seq<Event>)
    requires Ranked(w) && UndoIsFixed(w) && Elems(order) == w.nodes
    requires CanRun(w, Initial(w, order), events)
    ensures DescendantsFirst(w, Run(w, Initial(w, order), events))
  {
    EveryRunKeepsInv(w, order, events);
    var s := Run(w, Initial(w, order), events);
    forall p, k | IsPath(w.arcs, p) && |p| >= 2 && 0 <= k < |s.undone| && s.undone[k] == p[0] && Last(p) in s.completed
      ensures Last(p) in s.undone[..k]
    {
      DescendantBefore(w, s, p, k);
    }
  }

  lemma DescendantBefore(w: Workflow, s: State, p: seq<string>, k: nat)
    requires Ranked(w) && Inv(w, s) && IsPath(w.arcs, p) && |p| >= 2
    requires k < |s.undone| && s.undone[k] == p[0] && Last(p) in s.completed
    ensures Last(p) in s.undone[..k]
  {
    RankClimbs(w, p);
    UndoneIsReversePrefix(w, s);
    HigherIsUndoneEarlier(w, s, k, Last(p));
  }

  lemma HigherIsUndoneEarlier(w: Workflow, s: State, k: nat, m: string)
    requires OrderInv(w, s) && s.undone <= Reverse(s.completed)
    requires k < |s.undone| && s.undone[k] in w.rank && m in w.rank && w.rank[s.undone[k]] < w.rank[m]
    requires m in s.completed
    ensures m in s.undone[..k]
  {
    var j :| 0 <= j < |s.completed| && s.completed[j] == m;
    assert s.undone[k] == s.completed[|s.completed| - 1 - k];
    LaterIsUndoneEarlier(s.completed, s.undone, k, j);
  }

  lemma UndoneIsReversePrefix(w: Workflow, s: State)
    requires UndoInv(w, s)
    ensures s.undone <= Reverse(s.completed)
  {
  }

  lemma LaterIsUndoneEarlier(completed: seq<string>, undone: seq<string>, k: nat, j: nat)
    requires undone <= Reverse(completed) && k < |undone| && |completed| - 1 - k < j < |completed|
    ensures completed[j] in undone[..k]
  {
    assert undone[..k][|completed| - 1 - j] == completed[j];
  }

  lemma ReverseElements(s: seq<string>)
    ensures forall n :: n in Reverse(s) <==> n in s
  {
    forall n ensures n in Reverse(s) <==> n in s {
      if n in s {
        var i :| 0 <= i < |s| && s[i] == n;
        assert Reverse(s)[|s| - 1 - i] == n;
      }
    }
  }

  /** The completed nodes with a compensation payload were compensated, each once, last completed first. */
  ghost predicate ExactlyCompensated(w: Workflow, s: State) {
    && NodesOf(s.compensated) == Filter(Reverse(s.completed), CompensableIn(w))
    && Distinct(s.undone) && Elems(s.undone) == Elems(s.completed)
    && (forall n :: n in s.pc && s.pc[n] == Returned(false) ==> n !in NodesOf(s.compensated))
    && (forall u :: u in s.compensated ==> u.node in s.completed && w.undo(s.outputs, u.node) == Some(u.payload))
  }

  /**
   * On every interleaving: when compensation has run to its end, exactly the completed nodes
   * with a compensation payload were compensated, each once, last completed first, and no failed
   * node was; and a run that did not fail compensates nothing.
   */
  lemma CompensationIsExact(w: Workflow, order: seq<string>, events: seq<Event>)
    requires Ranked(w) && UndoIsFixed(w) && Elems(order) == w.nodes
    requires CanRun(w, Initial(w, order), events)
    ensures var s := Run(w, Initial(w, order), events);
      s.phase.Finished? ==> if s.status == Failed then ExactlyCompensated(w, s) else s.compensated == []
  {
    EveryRunKeepsInv(w, order, events);
    var s := Run(w, Initial(w, order), events);
    if s.phase.Finished? && s.status == Failed {
      FinishedIsExact(w, s);
    }
  }

  lemma FinishedIsExact(w: Workflow, s: State)
    requires UndoIsFixed(w) && ListInv(s) && UndoInv(w, s) && s.phase.Finished? && s.status == Failed
    ensures ExactlyCompensated(w, s)
  {
    ReverseElements(s.completed);
    UndosAreCompensable(w, s.outputs, s.undone);
    forall n | n in NodesOf(s.compensated) ensures n in s.completed {
      FilterMember(s.undone, CompensableIn(w), n);
    }
  }

  function AsNat(b: bool): nat {
    if b then 1 else 0
  }

  /** Pending, active, completed and failed: a node that has not thrown is in exactly one group. */
  ghost predicate Partitioned(w: Workflow, s: State) {
    forall n :: n in w.nodes ==>
      && n in s.pc
      && (!s.pc[n].ThrewActive? && !s.pc[n].ThrewUnlisted? && !s.pc[n].ThrewCompleted? ==>
            AsNat(n in s.pending) + AsNat(n in s.active) + AsNat(n in s.completed)
            + AsNat(s.pc[n] == Recording(false) || s.pc[n] == Returned(false)) == 1)
  }

  /** At every suspension point of every run, the nodes are partitioned. */
  lemma NodesArePartitioned(w: Workflow, order: seq<string>, events: seq<Event>)
    requires Ranked(w) && UndoIsFixed(w) && Elems(order) == w.nodes
    requires CanRun(w, Initial(w, order), events)
    ensures Partitioned(w, Run(w, Initial(w, order), events))
  {
    EveryRunKeepsInv(w, order, events);
  }

  // ---- What lets a tier start ----

  /** A node leaves the idle state only on a valid lease reply for its own tier. */
  lemma StartsOnlyWithLease(w: Workflow, s: State, event: Event, n: string)
    requires Enabled(w, s, event) && n in s.pc && s.pc[n].Idle?
    ensures n in Step(w, s, event).pc && (!Step(w, s, event).pc[n].Idle? ==> event == LeaseReply(true) && n in w.tiers[s.tier])
  {
  }

  /** The lease is asked for only after a check in time of a workflow that is not cancelled. */
  lemma LeasesOnlyInTime(w: Workflow, s: State, event: Event)
    requires Enabled(w, s, event) && !s.phase.Leasing? && Step(w, s, event).phase.Leasing?
    ensures event.TierCheck? && event.now <= w.expiresAt && s.status != Canceled && s.tier < |w.tiers|
  {
  }

  /** Before the last tier is done, a late check expires the workflow, a check after a cancel stops it, and any other goes on. */
  lemma CheckDecides(w: Workflow, s: State, now: int)
    requires s.phase.AtTier? && s.tier < |w.tiers|
    ensures var s' := Step(w, s, TierCheck(now));
      && (w.expiresAt < now ==> s'.status == Expired && s'.phase == Finished)
      && (now <= w.expiresAt && s.status == Canceled ==> s'.status == Canceled && s'.phase == Finished)
      && (now <= w.expiresAt && s.status != Canceled ==> s'.status == s.status && s'.phase == Leasing)
  {
  }

  // ---- Cancellation ----

  /** Tiers from here on have not passed their check. */
  function Cutoff(s: State): nat {
    if s.phase.AtTier? then s.tier else s.tier + 1
  }

  /** Once the status is past Running, no later tier passes its check. */
  ghost predicate Stopped(s: State, cutoff: nat) {
    && (s.status == Running ==> !s.phase.AtTier? && !s.phase.Leasing? && !s.phase.Waiting?)
    && (s.phase.AtTier? || s.phase.Leasing? || s.phase.Waiting? ==> s.status == Canceled && Cutoff(s) <= cutoff)
    && s.tier <= cutoff
  }

  lemma CancelStops(w: Workflow, s: State, event: Event, cutoff: nat)
    requires Ranked(w) && TierInv(w, s) && Stopped(s, cutoff) && Enabled(w, s, event)
    ensures Stopped(Step(w, s, event), cutoff)
  {
  }

  lemma LaterTiersStayIdle(w: Workflow, s: State, event: Event, cutoff: nat, n: string)
    requires Ranked(w) && TierInv(w, s) && Stopped(s, cutoff) && Enabled(w, s, event)
    requires n in s.pc && n in w.rank && cutoff <= w.rank[n] && s.pc[n] == Idle
    ensures n in Step(w, s, event).pc && Step(w, s, event).pc[n] == Idle
  {
  }

  /**
   * Cancel cutoff: after a cancel has taken effect, no node of a tier beyond the one that
   * already passed its check ever starts, whatever happens next.
   */
  lemma {:induction false} CancelCutoff(w: Workflow, s: State, events: seq<Event>, cutoff: nat, n: string)
    requires Ranked(w) && UndoIsFixed(w) && Inv(w, s) && Stopped(s, cutoff) && CanRun(w, s, events)
    requires n in w.nodes && cutoff <= w.rank[n] && n in s.pc && s.pc[n] == Idle
    ensures n in Run(w, s, events).pc && Run(w, s, events).pc[n] == Idle
    decreases |events|
  {
    if events != [] {
      CancelStops(w, s, events[0], cutoff);
      LaterTiersStayIdle(w, s, events[0], cutoff, n);
      StepKeepsInv(w, s, events[0]);
      CancelCutoff(w, Step(w, s, events[0]), events[1..], cutoff, n);
    }
  }

  /** A cancel of a running workflow takes effect at once. */
  lemma CancelTakesEffect(w: Workflow, s: State)
    requires Ranked(w) && Inv(w, s) && (s.phase.AtTier? || s.phase.Leasing? || s.phase.Waiting?)
    requires s.status == Running || s.status == Canceled
    ensures Stopped(Step(w, s, Cancel), Cutoff(s))
    ensures forall n :: n in w.nodes && Cutoff(s) <= w.rank[n] ==> n in s.pc && s.pc[n] == Idle
  {
  }

  /**
   * Cancel cutoff, whole run: cancel a running workflow at any point before it stops. Whatever
   * happens before and after, no node of a tier that had not passed its check ever starts.
   */
  lemma CancelIsFinalForLaterTiers(w: Workflow, order: seq<string>, before: seq<Event>, after: seq<Event>)
    requires Ranked(w) && UndoIsFixed(w) && Elems(order) == w.nodes
    requires CanRun(w, Initial(w, order), before)
    requires var s := Run(w, Initial(w, order), before);
      && (s.phase.AtTier? || s.phase.Leasing? || s.phase.Waiting?) && s.status == Running
      && CanRun(w, Step(w, s, Cancel), after)
    ensures var s := Run(w, Initial(w, order), before);
      var end := Run(w, Step(w, s, Cancel), after);
      forall n :: n in w.nodes && (if s.phase.AtTier? then s.tier else s.tier + 1) <= w.rank[n] ==> n in end.pc && end.pc[n] == Idle
  {
    EveryRunKeepsInv(w, order, before);
    var s := Run(w, Initial(w, order), before);
    CancelTakesEffect(w, s);
    StepKeepsInv(w, s, Cancel);
    forall n | n in w.nodes && Cutoff(s) <= w.rank[n]
      ensures var end := Run(w, Step(w, s, Cancel), after); n in end.pc && end.pc[n] == Idle
    {
      CancelCutoff(w, Step(w, s, Cancel), after, Cutoff(s), n);
    }
  }

  // ---- The engine's fields, and the synchronous stretches between its awaits ----

  lemma FilterInTwoSteps(s: seq<string>, xs: seq<string>, x: string)
    ensures Filter(Filter(s, OutsideOf(xs)), OutsideOf([x])) == Filter(s, OutsideOf(xs + [x]))
  {
    if s != [] {
      var init := s[..|s| - 1];
      FilterInTwoSteps(init, xs, x);
      if Last(s) in xs {
        assert Filter(s, OutsideOf(xs)) == Filter(init, OutsideOf(xs));
      } else {
        assert Filter(s, OutsideOf(xs))[..|Filter(s, OutsideOf(xs))| - 1] == Filter(init, OutsideOf(xs));
      }
    }
  }

  lemma FilterNothing(s: seq<string>)
    ensures Filter(s, OutsideOf([])) == s
  {
    if s != [] {
      FilterNothing(s[..|s| - 1]);
    }
  }

  class WorkflowExecution {
    const w: Workflow
    const tenantId: string
    var tier: nat
    var phase: Phase
    var status: Status
    var pc: map<string, NodePc>
    var pendingNodes: seq<string>
    var activeNodes: seq<string>
    var completedNodes: seq<string>
    var outputs: Outputs
    ghost var dispatched: seq<Dispatch>
    ghost var undone: seq<string>
    ghost var compensated: seq<Undo>

    constructor (w: Workflow, tenantId: string, order: seq<string>)
      ensures this.w == w && this.tenantId == tenantId && View() == Initial(w, order)
    {
      this.w := w;
      this.tenantId := tenantId;
      tier, phase, status := 0, AtTier, Running;
      pc := map n | n in w.nodes :: Idle;
      pendingNodes, activeNodes, completedNodes := order, [], [];
      outputs, dispatched, undone, compensated := map[], [], [], [];
    }

    ghost function View(): State
      reads this
    {
      State(tier, phase, status, pc, pendingNodes, activeNodes, completedNodes, outputs, dispatched, undone, compensated)
    }

    /**
     * A foreign tenant is refused. Otherwise the answer is true when the workflow is canceled
     * afterwards; any other terminal status stays as it is.
     */
    method CancelWorkflow(tenant: string) returns (canceled: bool)
      modifies this`status
      ensures tenant != "" && tenant != tenantId ==> !canceled && status == old(status)
      ensures tenant == "" || tenant == tenantId ==> View() == Step(w, old(View()), Cancel) && (canceled <==> status == Canceled)
    {
      if tenant != "" && tenant != tenantId {
        return false;
      }
      if status == Running {
        status := Canceled;
      }
      canceled := status == Canceled;
    }

    /** The synchronous first stretch of every executeSingleNode call of the tier. */
    method StartTier()
      requires phase.Leasing? && tier < |w.tiers| && pc.Keys == w.nodes
      requires forall n :: n in w.tiers[tier] ==> n in w.nodes
      modifies this`phase, this`pc, this`activeNodes, this`pendingNodes
      ensures View() == BeginTier(w, old(View()))
    {
      var nodes := w.tiers[tier];
      ghost var s := View();
      FilterNothing(s.pending);
      assert s.active + nodes[..0] == s.active && Begun(s.pc, nodes[..0]) == s.pc;
      for i := 0 to |nodes|
        invariant pc == Begun(s.pc, nodes[..i])
        invariant activeNodes == s.active + nodes[..i]
        invariant pendingNodes == Filter(s.pending, OutsideOf(nodes[..i]))
      {
        assert nodes[i] in w.tiers[tier];
        assert nodes[..i + 1] == nodes[..i] + [nodes[i]];
        FilterInTwoSteps(s.pending, nodes[..i], nodes[i]);
        BegunSnoc(s.pc, nodes[..i], nodes[i]);
        pc := pc[nodes[i] := Starting];
        activeNodes := activeNodes + [nodes[i]];
        pendingNodes := Filter(pendingNodes, OutsideOf([nodes[i]]));
      }
      assert nodes[..|nodes|] == nodes;
      phase := Waiting;
    }

    /** The second stretch of executeSingleNode: build the payload and hand it to the scheduler. */
    method Submit(n: string) returns (payload: Option<Value>)
      requires Enabled(w, View(), Event.Submit(n))
      modifies this`pc, this`phase, this`dispatched
      ensures View() == Step(w, old(View()), Event.Submit(n))
      ensures payload == w.build(outputs, n)
    {
      payload := w.build(outputs, n);
      if payload.None? {
        pc := pc[n := ThrewActive];
        phase := Rejected;
      } else {
        pc := pc[n := Scheduled(payload.value)];
        dispatched := dispatched + [Dispatch(n, completedNodes, outputs, payload.value)];
      }
    }

    /** The third stretch: record what the scheduler answered. */
    method Record(n: string, reply: Reply)
      requires Enabled(w, View(), SchedulerReply(n, reply))
      modifies this`pc, this`phase, this`activeNodes, this`completedNodes, this`outputs
      ensures View() == Step(w, old(View()), SchedulerReply(n, reply))
    {
      activeNodes := Filter(activeNodes, OutsideOf([n]));
      match reply {
        case Failure =>
          pc := pc[n := Recording(false)];
        case Success(output) =>
          var stored := w.store(OrEmpty(output));
          if stored.Refused? {
            pc := pc[n := ThrewUnlisted];
            phase := Rejected;
          } else {
            if stored.Kept? {
              outputs := outputs[n := stored.value];
            }
            pc := pc[n := Recording(true)];
            completedNodes := completedNodes + [n];
          }
      }
    }

    /** The whole compensation loop, one scheduled undo after the other. */
    method ExecuteCompensation()
      requires phase == Compensating(Reverse(completedNodes)) && undone == [] && compensated == []
      modifies this`phase, this`undone, this`compensated
      ensures phase == Finished && undone == Reverse(completedNodes)
      ensures compensated == Undos(w, outputs, Reverse(completedNodes))
    {
      var ids := Reverse(completedNodes);
      for i := 0 to |ids|
        invariant undone == ids[..i] && compensated == Undos(w, outputs, ids[..i])
      {
        assert ids[..i + 1][..i] == ids[..i];
        var n := ids[i];
        var payload := w.undo(outputs, n);
        if payload.Some? {
          compensated := compensated + [Undo(n, payload.value)];
        }
        undone := undone + [n];
      }
      assert ids[..|ids|] == ids;
      phase := Finished;
    }
  }
}
