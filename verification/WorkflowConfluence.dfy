// Schedule independence: with node results that are functions of their payload, every
// interleaving computes what a tier-by-tier sequential evaluation computes.
module WorkflowConfluence {
  import opened Collections
  import opened Graph
  import opened WorkflowTypes
  import opened StepContext
  import opened WorkflowEngine

  type Behaviour = (string, Value) -> Reply

  /** A payload is determined by the outputs of the nodes it reads. */
  ghost predicate BuildReadsOnly(w: Workflow) {
    && w.readSet.Keys == w.nodes
    && forall n, a, b :: n in w.nodes && Agree(w.readSet[n], a, b) ==> w.build(a, n) == w.build(b, n)
  }

  /** Whatever workflow node a payload reads lies in a strictly earlier tier. */
  ghost predicate ReadsEarlier(w: Workflow) {
    && w.readSet.Keys == w.nodes == w.rank.Keys
    && forall n, r :: n in w.nodes && r in w.readSet[n] && r in w.nodes ==> w.rank[r] < w.rank[n]
  }

  // ---- Sequential reference ----

  /** A node run against given outputs fails or throws, succeeds without a stored output, or yields one. */
  datatype Evaluation = Fails | Silent | Yields(value: Value)

  function Evaluate(w: Workflow, run: Behaviour, outputs: Outputs, n: string): Evaluation {
    var payload := w.build(outputs, n);
    if payload.None? then Fails
    else
      match run(n, payload.value)
      case Failure => Fails
      case Success(output) =>
        match w.store(OrEmpty(output))
        case Refused => Fails
        case Ignored => Silent
        case Kept(stored) => Yields(stored)
  }

  /** The outputs after the first i tiers, evaluated one tier after the other. */
  function Reference(w: Workflow, run: Behaviour, i: nat): Outputs
    requires i <= |w.tiers|
  {
    if i == 0 then map[]
    else
      var before := Reference(w, run, i - 1);
      before + (map n | n in w.tiers[i - 1] && Evaluate(w, run, before, n).Yields? :: Evaluate(w, run, before, n).value)
  }

  /** Some node of the tier fails against the outputs of the tiers before it. */
  predicate FailsAt(w: Workflow, run: Behaviour, i: nat)
    requires i < |w.tiers|
  {
    exists n :: n in w.tiers[i] && Evaluate(w, run, Reference(w, run, i), n).Fails?
  }

  /** How a sequential evaluation from tier i on ends, and with what outputs: a tier with a failure is the last. */
  function SequentialEnd(w: Workflow, run: Behaviour, i: nat): (Status, Outputs)
    requires i <= |w.tiers|
    decreases |w.tiers| - i
  {
    if i == |w.tiers| then (Completed, Reference(w, run, i))
    else if FailsAt(w, run, i) then (Failed, Reference(w, run, i + 1))
    else SequentialEnd(w, run, i + 1)
  }

  lemma {:induction false} ReferenceKeys(w: Workflow, run: Behaviour, i: nat, n: string)
    requires Ranked(w) && i <= |w.tiers| && n in Reference(w, run, i)
    ensures n in w.nodes && w.rank[n] < i
  {
    if n in Reference(w, run, i - 1) {
      ReferenceKeys(w, run, i - 1, n);
    }
  }

  /** One more tier adds what its own nodes yield and leaves the earlier outputs alone. */
  lemma ReferenceStep(w: Workflow, run: Behaviour, i: nat, n: string)
    requires Ranked(w) && i < |w.tiers| && n in w.nodes
    ensures var base, next := Reference(w, run, i), Reference(w, run, i + 1);
      && (w.rank[n] < i ==> (n in next <==> n in base) && (n in base ==> next[n] == base[n]))
      && (w.rank[n] == i ==> (n in next <==> Evaluate(w, run, base, n).Yields?))
      && (w.rank[n] == i && n in next ==> Evaluate(w, run, base, n) == Yields(next[n]))
  {
    if n in Reference(w, run, i) {
      ReferenceKeys(w, run, i, n);
    }
  }

  // ---- Runs whose scheduler replies follow the behaviour ----

  predicate Follows(run: Behaviour, s: State, event: Event) {
    (event.SchedulerReply? && event.node in s.pc && s.pc[event.node].Scheduled?) ==>
      event.reply == run(event.node, s.pc[event.node].payload)
  }

  ghost predicate RunFollows(w: Workflow, run: Behaviour, s: State, events: seq<Event>)
    requires CanRun(w, s, events)
    decreases |events|
  {
    events != [] ==> Follows(run, s, events[0]) && RunFollows(w, run, Step(w, s, events[0]), events[1..])
  }

  predicate Lost(pc: NodePc) {
    pc == Recording(false) || pc == Returned(false)
  }

  /** Against the reference outputs `base` of the tiers before: what is stored, scheduled, lost and won. */
  ghost predicate MatchesBase(w: Workflow, run: Behaviour, s: State, base: Outputs) {
    && (forall n :: n in w.rank && w.rank[n] < s.tier ==> (n in s.outputs <==> n in base) && (n in base ==> s.outputs[n] == base[n]))
    && (forall n :: n in s.outputs && n in w.rank && w.rank[n] == s.tier ==> Evaluate(w, run, base, n) == Yields(s.outputs[n]))
    && (forall n :: n in s.pc && s.pc[n].Scheduled? ==> w.build(base, n) == Some(s.pc[n].payload))
    && (forall n :: n in s.pc && n in w.rank && w.rank[n] == s.tier && Lost(s.pc[n]) ==> Evaluate(w, run, base, n).Fails?)
    && (forall n :: n in s.pc && n in w.rank && w.rank[n] == s.tier && Won(s.pc[n]) && n !in s.outputs ==> Evaluate(w, run, base, n).Silent?)
  }

  /** A failed run stopped at a tier that has returned with a failure. */
  ghost predicate VerdictInv(w: Workflow, s: State) {
    s.status == Failed ==> (s.phase.Compensating? || s.phase.Finished?) && TierReturned(w, s) && TierFailed(w, s)
  }

  ghost predicate DataInv(w: Workflow, run: Behaviour, s: State) {
    && s.tier <= |w.tiers|
    && (forall i :: 0 <= i < s.tier ==> !FailsAt(w, run, i))
    && MatchesBase(w, run, s, Reference(w, run, s.tier))
  }

  ghost predicate PayloadInv(w: Workflow, run: Behaviour, s: State) {
    forall d :: d in s.dispatched ==>
      d.node in w.rank && w.rank[d.node] <= |w.tiers| && w.build(Reference(w, run, w.rank[d.node]), d.node) == Some(d.payload)
  }

  lemma ReadsAgree(w: Workflow, run: Behaviour, s: State, n: string)
    requires Ranked(w) && ReadsEarlier(w) && TierInv(w, s) && ListInv(s) && DataInv(w, run, s)
    requires n in w.nodes && w.rank[n] == s.tier
    ensures Agree(w.readSet[n], s.outputs, Reference(w, run, s.tier))
  {
    var base := Reference(w, run, s.tier);
    forall r | r in w.readSet[n]
      ensures (r in s.outputs <==> r in base) && (r in s.outputs ==> s.outputs[r] == base[r])
    {
      if r in base {
        ReferenceKeys(w, run, s.tier, r);
      }
    }
  }

  lemma SubmitFollowsReference(w: Workflow, run: Behaviour, s: State, n: string)
    requires Ranked(w) && BuildReadsOnly(w) && ReadsEarlier(w) && TierInv(w, s) && ListInv(s) && DataInv(w, run, s)
    requires n in s.pc && s.pc[n].Starting?
    ensures w.rank[n] == s.tier && w.build(s.outputs, n) == w.build(Reference(w, run, s.tier), n)
  {
    InFlightInTier(w, s, n);
    ReadsAgree(w, run, s, n);
  }

  lemma SubmitMatchesBase(w: Workflow, run: Behaviour, s: State, base: Outputs, n: string)
    requires MatchesBase(w, run, s, base) && w.build(s.outputs, n) == w.build(base, n)
    ensures MatchesBase(w, run, SubmitNode(w, s, n), base)
  {
  }

  lemma SubmitKeepsPayloads(w: Workflow, run: Behaviour, s: State, n: string)
    requires PayloadInv(w, run, s) && n in w.rank && w.rank[n] == s.tier <= |w.tiers|
    requires w.build(s.outputs, n) == w.build(Reference(w, run, s.tier), n)
    ensures PayloadInv(w, run, SubmitNode(w, s, n))
  {
  }

  lemma ReplyMatchesBase(w: Workflow, run: Behaviour, s: State, base: Outputs, n: string, reply: Reply)
    requires MatchesBase(w, run, s, base) && n in w.rank && w.rank[n] == s.tier
    requires n in s.pc && s.pc[n].Scheduled? && reply == run(n, s.pc[n].payload)
    ensures MatchesBase(w, run, RecordReply(w, s, n, reply), base)
  {
    var s' := RecordReply(w, s, n, reply);
    match Evaluate(w, run, base, n)
    case Fails => LosingMatches(w, run, s, s', base, n);
    case Silent => SilenceMatches(w, run, s, s', base, n);
    case Yields(v) => YieldingMatches(w, run, s, s', base, n);
  }

  lemma LosingMatches(w: Workflow, run: Behaviour, s: State, s': State, base: Outputs, n: string)
    requires MatchesBase(w, run, s, base) && n in s.pc && Evaluate(w, run, base, n).Fails?
    requires s'.tier == s.tier && s'.outputs == s.outputs
    requires s'.pc == s.pc[n := Recording(false)] || s'.pc == s.pc[n := ThrewUnlisted]
    ensures MatchesBase(w, run, s', base)
  {
  }

  lemma SilenceMatches(w: Workflow, run: Behaviour, s: State, s': State, base: Outputs, n: string)
    requires MatchesBase(w, run, s, base) && n in s.pc && Evaluate(w, run, base, n).Silent?
    requires s'.tier == s.tier && s'.outputs == s.outputs && s'.pc == s.pc[n := Recording(true)]
    ensures MatchesBase(w, run, s', base)
  {
  }

  lemma YieldingMatches(w: Workflow, run: Behaviour, s: State, s': State, base: Outputs, n: string)
    requires MatchesBase(w, run, s, base) && n in s.pc && n in w.rank && w.rank[n] == s.tier && Evaluate(w, run, base, n).Yields?
    requires s'.tier == s.tier && s'.outputs == s.outputs[n := Evaluate(w, run, base, n).value] && s'.pc == s.pc[n := Recording(true)]
    ensures MatchesBase(w, run, s', base)
  {
  }

  lemma StoredIsNotAhead(w: Workflow, s: State, n: string)
    requires TierInv(w, s) && ListInv(s) && n in s.outputs
    ensures n in w.rank && w.rank[n] <= s.tier
  {
    assert n in Elems(s.completed);
  }

  /** Whatever is stored is what the reference computes up to and including the current tier. */
  lemma StoredIsReference(w: Workflow, run: Behaviour, s: State, n: string)
    requires Ranked(w) && TierInv(w, s) && ListInv(s) && DataInv(w, run, s) && s.tier < |w.tiers|
    requires n in s.outputs
    ensures var next := Reference(w, run, s.tier + 1); n in next && s.outputs[n] == next[n]
  {
    StoredIsNotAhead(w, s, n);
    ReferenceStep(w, run, s.tier, n);
  }

  lemma ReferenceIsStored(w: Workflow, run: Behaviour, s: State, n: string)
    requires Ranked(w) && TierInv(w, s) && DataInv(w, run, s) && TierReturned(w, s)
    requires n in Reference(w, run, s.tier + 1)
    ensures n in s.outputs
  {
    ReferenceKeys(w, run, s.tier + 1, n);
    ReferenceStep(w, run, s.tier, n);
    if w.rank[n] == s.tier {
      assert n in w.tiers[s.tier];
      assert Lost(s.pc[n]) || Won(s.pc[n]);
    }
  }

  /** Once a tier has returned, failed or not, the outputs are those of all nodes that succeeded so far. */
  lemma ReturnedOutputsAreReference(w: Workflow, run: Behaviour, s: State)
    requires Ranked(w) && TierInv(w, s) && ListInv(s) && DataInv(w, run, s) && TierReturned(w, s)
    ensures s.outputs == Reference(w, run, s.tier + 1)
  {
    var next := Reference(w, run, s.tier + 1);
    forall n | n in s.outputs ensures n in next && s.outputs[n] == next[n] {
      StoredIsReference(w, run, s, n);
    }
    forall n | n in next ensures n in s.outputs {
      ReferenceIsStored(w, run, s, n);
    }
  }

  /** A tier joined without a failure does not fail in the sequential evaluation. */
  lemma JoinedDidNotFail(w: Workflow, run: Behaviour, s: State)
    requires Ranked(w) && DataInv(w, run, s) && TierReturned(w, s) && !TierFailed(w, s)
    ensures !FailsAt(w, run, s.tier)
  {
    forall n | n in w.tiers[s.tier] ensures !Evaluate(w, run, Reference(w, run, s.tier), n).Fails? {
      assert Won(s.pc[n]) && w.rank[n] == s.tier;
    }
  }

  lemma FreshTierMatches(w: Workflow, run: Behaviour, s: State, base: Outputs)
    requires s.outputs == base && forall n :: n in base && n in w.rank ==> w.rank[n] < s.tier
    requires forall n :: n in s.pc ==> !s.pc[n].Scheduled?
    requires forall n :: n in s.pc && n in w.rank && w.rank[n] == s.tier ==> s.pc[n] == Idle
    ensures MatchesBase(w, run, s, base)
  {
  }

  lemma JoinFollowsReference(w: Workflow, run: Behaviour, s: State)
    requires Ranked(w) && TierInv(w, s) && ListInv(s) && DataInv(w, run, s)
    requires s.phase.Waiting? && TierReturned(w, s) && !TierFailed(w, s)
    ensures DataInv(w, run, JoinTier(w, s))
  {
    var s' := JoinTier(w, s);
    var next := Reference(w, run, s'.tier);
    ReturnedOutputsAreReference(w, run, s);
    JoinedDidNotFail(w, run, s);
    QuietBetweenTiers(w, s);
    JoinKeepsTiers(w, s);
    forall n | n in next && n in w.rank ensures w.rank[n] < s'.tier {
      ReferenceKeys(w, run, s'.tier, n);
    }
    FreshTierMatches(w, run, s', next);
  }

  /** Steps that store nothing and schedule nothing leave the data alone. */
  lemma UntouchedMatches(w: Workflow, run: Behaviour, s: State, s': State)
    requires DataInv(w, run, s) && s'.tier == s.tier && s'.outputs == s.outputs
    requires forall n :: n in s'.pc && s'.pc[n].Scheduled? ==> n in s.pc && s'.pc[n] == s.pc[n]
    requires forall n :: n in s'.pc && Lost(s'.pc[n]) ==> n in s.pc && Lost(s.pc[n])
    requires forall n :: n in s'.pc && Won(s'.pc[n]) ==> n in s.pc && Won(s.pc[n])
    ensures DataInv(w, run, s')
  {
  }

  lemma QuietEventMatches(w: Workflow, run: Behaviour, s: State, event: Event)
    requires DataInv(w, run, s) && Enabled(w, s, event)
    requires !event.Submit? && !event.SchedulerReply? && (event.Join? ==> TierFailed(w, s))
    ensures DataInv(w, run, Step(w, s, event))
  {
    if event.Return? {
      ReturnMatches(w, run, s, event.node);
    } else if event.Throw? {
      ThrowMatches(w, run, s, event.node);
    } else if event.LeaseReply? {
      LeaseMatches(w, run, s, event.valid);
    } else {
      CallStepMatches(w, run, s, event);
    }
  }

  lemma CallStepMatches(w: Workflow, run: Behaviour, s: State, event: Event)
    requires DataInv(w, run, s) && Enabled(w, s, event)
    requires event.TierCheck? || event.LeaseThrows? || event.Compensate? || event.Cancel? || (event.Join? && TierFailed(w, s))
    ensures DataInv(w, run, Step(w, s, event))
  {
    CallStepFrame(w, s, event);
    UntouchedMatches(w, run, s, Step(w, s, event));
  }

  lemma CallStepFrame(w: Workflow, s: State, event: Event)
    requires Enabled(w, s, event)
    requires event.TierCheck? || event.LeaseThrows? || event.Compensate? || event.Cancel? || (event.Join? && TierFailed(w, s))
    ensures var s' := Step(w, s, event); s'.tier == s.tier && s'.pc == s.pc && s'.outputs == s.outputs
  {
  }

  lemma ReturnMatches(w: Workflow, run: Behaviour, s: State, n: string)
    requires DataInv(w, run, s) && Enabled(w, s, Return(n))
    ensures DataInv(w, run, Step(w, s, Return(n)))
  {
    UntouchedMatches(w, run, s, Step(w, s, Return(n)));
  }

  lemma ThrowMatches(w: Workflow, run: Behaviour, s: State, n: string)
    requires DataInv(w, run, s) && Enabled(w, s, Throw(n))
    ensures DataInv(w, run, Step(w, s, Throw(n)))
  {
    UntouchedMatches(w, run, s, Step(w, s, Throw(n)));
  }

  lemma LeaseMatches(w: Workflow, run: Behaviour, s: State, valid: bool)
    requires DataInv(w, run, s) && Enabled(w, s, LeaseReply(valid))
    ensures DataInv(w, run, Step(w, s, LeaseReply(valid)))
  {
    UntouchedMatches(w, run, s, Step(w, s, LeaseReply(valid)));
  }

  lemma ReplyFollowsReference(w: Workflow, run: Behaviour, s: State, n: string, reply: Reply)
    requires Ranked(w) && TierInv(w, s) && DataInv(w, run, s)
    requires n in s.pc && s.pc[n].Scheduled? && reply == run(n, s.pc[n].payload)
    ensures DataInv(w, run, RecordReply(w, s, n, reply))
  {
    InFlightInTier(w, s, n);
    ReplyMatchesBase(w, run, s, Reference(w, run, s.tier), n, reply);
  }

  lemma DataStep(w: Workflow, run: Behaviour, s: State, event: Event)
    requires Ranked(w) && BuildReadsOnly(w) && ReadsEarlier(w) && TierInv(w, s) && ListInv(s) && DataInv(w, run, s)
    requires Enabled(w, s, event) && Follows(run, s, event)
    ensures DataInv(w, run, Step(w, s, event))
  {
    if event.Submit? {
      SubmitFollowsReference(w, run, s, event.node);
      SubmitMatchesBase(w, run, s, Reference(w, run, s.tier), event.node);
    } else if event.SchedulerReply? {
      ReplyFollowsReference(w, run, s, event.node, event.reply);
    } else if event.Join? && !TierFailed(w, s) {
      JoinFollowsReference(w, run, s);
    } else {
      QuietEventMatches(w, run, s, event);
    }
  }

  lemma PayloadStep(w: Workflow, run: Behaviour, s: State, event: Event)
    requires Ranked(w) && BuildReadsOnly(w) && ReadsEarlier(w) && TierInv(w, s) && ListInv(s) && DataInv(w, run, s)
    requires PayloadInv(w, run, s) && Enabled(w, s, event)
    ensures PayloadInv(w, run, Step(w, s, event))
  {
    if event.Submit? {
      SubmitFollowsReference(w, run, s, event.node);
      SubmitKeepsPayloads(w, run, s, event.node);
    } else {
      OnlySubmitDispatches(w, s, event);
    }
  }

  lemma OnlySubmitDispatches(w: Workflow, s: State, event: Event)
    requires Enabled(w, s, event) && !event.Submit?
    ensures Step(w, s, event).dispatched == s.dispatched
  {
  }

  lemma VerdictStep(w: Workflow, s: State, event: Event)
    requires Ranked(w) && TierInv(w, s) && VerdictInv(w, s) && Enabled(w, s, event)
    ensures VerdictInv(w, Step(w, s, event))
  {
  }

  lemma {:induction false} RunFollowsReference(w: Workflow, run: Behaviour, s: State, events: seq<Event>)
    requires Ranked(w) && UndoIsFixed(w) && BuildReadsOnly(w) && ReadsEarlier(w)
    requires Inv(w, s) && DataInv(w, run, s) && PayloadInv(w, run, s) && VerdictInv(w, s)
    requires CanRun(w, s, events) && RunFollows(w, run, s, events)
    ensures var s' := Run(w, s, events); Inv(w, s') && DataInv(w, run, s') && PayloadInv(w, run, s') && VerdictInv(w, s')
    decreases |events|
  {
    if events != [] {
      StepKeepsInv(w, s, events[0]);
      DataStep(w, run, s, events[0]);
      PayloadStep(w, run, s, events[0]);
      VerdictStep(w, s, events[0]);
      RunFollowsReference(w, run, Step(w, s, events[0]), events[1..]);
    }
  }

  ghost predicate FaithfulRun(w: Workflow, run: Behaviour, order: seq<string>, events: seq<Event>) {
    && Elems(order) == w.nodes
    && CanRun(w, Initial(w, order), events)
    && RunFollows(w, run, Initial(w, order), events)
  }

  /**
   * Every faithful run that completes or fails ends as the sequential evaluation does, with
   * its outputs; and whatever any run dispatches has the payload of the sequential evaluation.
   */
  lemma RefinesReference(w: Workflow, run: Behaviour, order: seq<string>, events: seq<Event>)
    requires Ranked(w) && UndoIsFixed(w) && BuildReadsOnly(w) && ReadsEarlier(w)
    requires FaithfulRun(w, run, order, events)
    ensures var s := Run(w, Initial(w, order), events);
      && PayloadInv(w, run, s)
      && (s.status == Completed || s.status == Failed ==> (s.status, s.outputs) == SequentialEnd(w, run, 0))
  {
    InitialInv(w, order);
    RunFollowsReference(w, run, Initial(w, order), events);
    var s := Run(w, Initial(w, order), events);
    EarlierTiersSucceeded(w, run, s, 0);
    if s.status == Completed {
      OutputsAreReference(w, run, s);
    } else if s.status == Failed {
      ReturnedOutputsAreReference(w, run, s);
      FailureIsReal(w, run, s);
    }
  }

  /** The sequential evaluation gets as far as the run did. */
  lemma {:induction false} EarlierTiersSucceeded(w: Workflow, run: Behaviour, s: State, i: nat)
    requires DataInv(w, run, s) && i <= s.tier
    ensures SequentialEnd(w, run, i) == SequentialEnd(w, run, s.tier)
    decreases s.tier - i
  {
    if i < s.tier {
      EarlierTiersSucceeded(w, run, s, i + 1);
    }
  }

  lemma OutputsAreReference(w: Workflow, run: Behaviour, s: State)
    requires Ranked(w) && TierInv(w, s) && ListInv(s) && DataInv(w, run, s) && s.tier == |w.tiers|
    ensures s.outputs == Reference(w, run, |w.tiers|)
  {
    var base := Reference(w, run, |w.tiers|);
    forall n | n in s.outputs ensures n in w.rank && w.rank[n] < s.tier {
      StoredIsNotAhead(w, s, n);
    }
    forall n | n in base ensures n in w.rank && w.rank[n] < s.tier {
      ReferenceKeys(w, run, |w.tiers|, n);
    }
  }

  /** A failure seen at the join is a failure of the sequential evaluation. */
  lemma FailureIsReal(w: Workflow, run: Behaviour, s: State)
    requires Ranked(w) && DataInv(w, run, s) && TierReturned(w, s) && TierFailed(w, s)
    ensures FailsAt(w, run, s.tier)
  {
    var n :| n in w.tiers[s.tier] && !s.pc[n].ok;
    assert Lost(s.pc[n]) && n in w.rank;
  }

  /** Equal payloads for equal nodes; and of two runs that each complete or fail, equal verdicts and outputs. */
  ghost predicate SameOutcome(l: State, r: State) {
    && (forall d, e :: d in l.dispatched && e in r.dispatched && d.node == e.node ==> d.payload == e.payload)
    && ((l.status == Completed || l.status == Failed) && (r.status == Completed || r.status == Failed)
        ==> l.status == r.status && l.outputs == r.outputs)
  }

  /**
   * Confluence: any two interleavings give a node that both dispatch the same payload; and two
   * runs that each complete or fail agree on which of the two, and on the final output map.
   */
  lemma Confluence(w: Workflow, run: Behaviour, order: seq<string>, left: seq<Event>, right: seq<Event>)
    requires Ranked(w) && UndoIsFixed(w) && BuildReadsOnly(w) && ReadsEarlier(w)
    requires FaithfulRun(w, run, order, left) && FaithfulRun(w, run, order, right)
    ensures SameOutcome(Run(w, Initial(w, order), left), Run(w, Initial(w, order), right))
  {
    RefinesReference(w, run, order, left);
    RefinesReference(w, run, order, right);
  }

  // ---- The step context meets the engine's assumptions ----

  /** The engine's view of a parsed workflow with the real template code. */
  function Assemble(nodes: map<string, Node>, arcs: seq<Arc>, tiers: seq<seq<string>>, rank: map<string, nat>, expiresAt: int, pf: Platform): Workflow {
    Workflow(
      nodes.Keys, arcs, tiers, rank,
      map n | n in nodes :: Reads(nodes[n], RawPayload(nodes[n])),
      expiresAt,
      (outputs: Outputs, n: string) =>
        if n in nodes then BuildPayload(pf, outputs, nodes[n], RawPayload(nodes[n])) else None,
      (outputs: Outputs, n: string) =>
        if n in nodes && nodes[n].compensationPayload.Some?
        then BuildPayload(pf, outputs, nodes[n], nodes[n].compensationPayload.value)
        else None,
      (output: Value) => Stored(pf, output))
  }

  lemma TemplatesReadOnlyTheirRefs(nodes: map<string, Node>, arcs: seq<Arc>, tiers: seq<seq<string>>, rank: map<string, nat>, expiresAt: int, pf: Platform)
    ensures BuildReadsOnly(Assemble(nodes, arcs, tiers, rank, expiresAt, pf))
  {
    var w := Assemble(nodes, arcs, tiers, rank, expiresAt, pf);
    forall n, a, b | n in w.nodes && Agree(w.readSet[n], a, b)
      ensures w.build(a, n) == w.build(b, n)
    {
      PayloadReadsOnly(pf, a, b, nodes[n], RawPayload(nodes[n]));
    }
  }

  lemma CompensationIsFixed(nodes: map<string, Node>, arcs: seq<Arc>, tiers: seq<seq<string>>, rank: map<string, nat>, expiresAt: int, pf: Platform)
    ensures UndoIsFixed(Assemble(nodes, arcs, tiers, rank, expiresAt, pf))
  {
    var w := Assemble(nodes, arcs, tiers, rank, expiresAt, pf);
    forall n, a, b
      ensures w.undo(a, n).Some? <==> w.undo(b, n).Some?
    {
      if n in nodes && nodes[n].compensationPayload.Some? {
        RejectionIgnoresOutputs(pf, a, b, Obj(nodes[n].compensationPayload.value));
      }
    }
  }

  lemma BuildingIsFixed(nodes: map<string, Node>, arcs: seq<Arc>, tiers: seq<seq<string>>, rank: map<string, nat>, expiresAt: int, pf: Platform)
    ensures BuildIsFixed(Assemble(nodes, arcs, tiers, rank, expiresAt, pf))
  {
    var w := Assemble(nodes, arcs, tiers, rank, expiresAt, pf);
    forall n, a, b
      ensures w.build(a, n).Some? <==> w.build(b, n).Some?
    {
      if n in nodes {
        RejectionIgnoresOutputs(pf, a, b, Obj(RawPayload(nodes[n])));
      }
    }
  }
}
