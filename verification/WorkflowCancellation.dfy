// When a cancelled workflow stays cancelled: executeDAGTiers looks at the status only before a
// tier, so a tier that has passed its check can still end the workflow as Failed or Completed.
module WorkflowCancellation {
  import opened Collections
  import opened Graph
  import opened WorkflowTypes
  import opened StepContext
  import opened WorkflowEngine

  predicate Buildable(w: Workflow, n: string) {
    w.build(map[], n).Some?
  }

  /** The call of the node can still return. */
  predicate CanReturn(w: Workflow, n: string, pc: NodePc) {
    pc.Scheduled? || pc.Recording? || pc.Returned? || (pc.Starting? && Buildable(w, n))
  }

  /** The call of the node returns a failure if whatever is still to be scheduled gets this reply. */
  predicate EndsLost(pc: NodePc, reply: Reply) {
    pc == Recording(false) || pc == Returned(false) || ((pc.Starting? || pc.Scheduled?) && reply.Failure?)
  }

  predicate TierEndsLost(w: Workflow, s: State, reply: Reply)
    requires s.tier < |w.tiers|
  {
    exists n :: n in w.tiers[s.tier] && n in s.pc && EndsLost(s.pc[n], reply)
  }

  /** A tier that has passed its check can still reach its join, and the join can end the workflow. */
  predicate Overwritable(w: Workflow, s: State) {
    match s.phase
    case AtTier => s.tier == |w.tiers|
    case Leasing => s.tier < |w.tiers| && forall n :: n in w.tiers[s.tier] ==> Buildable(w, n)
    case Waiting =>
      && s.tier < |w.tiers|
      && (forall n :: n in w.tiers[s.tier] ==> n in s.pc && CanReturn(w, n, s.pc[n]))
      && (s.tier + 1 == |w.tiers| || TierEndsLost(w, s, Failure))
    case _ => false
  }

  ghost predicate StaysCanceled(w: Workflow, s: State) {
    forall events :: CanRun(w, s, events) ==> Run(w, s, events).status == Canceled || Run(w, s, events).status == Expired
  }

  // ---- Not overwritable: it stays ----

  ghost predicate Settled(w: Workflow, s: State) {
    && (s.status == Canceled || (s.status == Expired && s.phase.Finished?))
    && !s.phase.Compensating?
    && !Overwritable(w, s)
  }

  lemma BuildsTheSame(w: Workflow, outputs: Outputs, n: string)
    requires BuildIsFixed(w)
    ensures w.build(outputs, n).Some? <==> Buildable(w, n)
  {
  }

  /** In a waiting tier one node moves on: it can return if it could, and cannot fail if it could not. */
  lemma MovingOnOpensNothing(w: Workflow, s: State, s': State, n: string)
    requires s.phase.Waiting? && s'.phase.Waiting? && s'.tier == s.tier
    requires n in s.pc && n in s'.pc && s'.pc == s.pc[n := s'.pc[n]] && MovesOn(w, n, s.pc[n], s'.pc[n])
    ensures Overwritable(w, s') ==> Overwritable(w, s)
  {
    if Overwritable(w, s') {
      assert forall m :: m in w.tiers[s.tier] ==> m in s.pc && CanReturn(w, m, s.pc[m]);
      if TierEndsLost(w, s', Failure) {
        var m :| m in w.tiers[s.tier] && m in s'.pc && EndsLost(s'.pc[m], Failure);
        assert EndsLost(s.pc[m], Failure);
      }
    }
  }

  predicate MovesOn(w: Workflow, n: string, from: NodePc, to: NodePc) {
    (CanReturn(w, n, to) ==> CanReturn(w, n, from)) && (EndsLost(to, Failure) ==> EndsLost(from, Failure))
  }

  lemma NodeEventStaysSettled(w: Workflow, s: State, event: Event)
    requires Ranked(w) && BuildIsFixed(w) && TierInv(w, s) && Settled(w, s) && Enabled(w, s, event)
    requires event.Submit? || event.SchedulerReply? || event.Return? || event.Throw?
    ensures Settled(w, Step(w, s, event))
  {
    var n, s' := event.node, Step(w, s, event);
    InFlightInTier(w, s, n);
    if s.phase.Waiting? {
      BuildsTheSame(w, s.outputs, n);
      if s'.phase.Waiting? {
        MovingOnOpensNothing(w, s, s', n);
      }
    }
  }

  lemma LeaseStaysSettled(w: Workflow, s: State, valid: bool)
    requires Ranked(w) && TierInv(w, s) && Settled(w, s) && Enabled(w, s, LeaseReply(valid))
    ensures Settled(w, Step(w, s, LeaseReply(valid)))
  {
    if valid {
      var n :| n in w.tiers[s.tier] && !Buildable(w, n);
      assert !CanReturn(w, n, BeginTier(w, s).pc[n]);
    }
  }

  lemma JoinStaysSettled(w: Workflow, s: State)
    requires Settled(w, s) && Enabled(w, s, Join)
    ensures Settled(w, Step(w, s, Join))
  {
    FailedEndsLost(w, s);
  }

  lemma FailedEndsLost(w: Workflow, s: State)
    requires TierReturned(w, s)
    ensures TierFailed(w, s) ==> TierEndsLost(w, s, Failure)
    ensures forall n :: n in w.tiers[s.tier] ==> CanReturn(w, n, s.pc[n])
  {
    if TierFailed(w, s) {
      var n :| n in w.tiers[s.tier] && !s.pc[n].ok;
      assert EndsLost(s.pc[n], Failure);
    }
  }

  lemma SettledStep(w: Workflow, s: State, event: Event)
    requires Ranked(w) && BuildIsFixed(w) && TierInv(w, s) && Settled(w, s) && Enabled(w, s, event)
    ensures Settled(w, Step(w, s, event))
  {
    match event
    case LeaseReply(valid) => LeaseStaysSettled(w, s, valid);
    case Join => JoinStaysSettled(w, s);
    case TierCheck(_) =>
    case LeaseThrows =>
    case Compensate =>
    case Cancel =>
    case _ => NodeEventStaysSettled(w, s, event);
  }

  lemma {:induction false} SettledRun(w: Workflow, s: State, events: seq<Event>)
    requires Ranked(w) && BuildIsFixed(w) && TierInv(w, s) && Settled(w, s) && CanRun(w, s, events)
    ensures Settled(w, Run(w, s, events))
    decreases |events|
  {
    if events != [] {
      TierStep(w, s, events[0]);
      SettledStep(w, s, events[0]);
      SettledRun(w, Step(w, s, events[0]), events[1..]);
    }
  }

  // ---- Overwritable: some continuation overwrites it ----

  ghost predicate CanReach(w: Workflow, s: State, status: Status) {
    exists events :: CanRun(w, s, events) && Run(w, s, events).status == status
  }

  lemma ReachedNow(w: Workflow, s: State)
    ensures CanReach(w, s, s.status)
  {
    assert CanRun(w, s, []) && Run(w, s, []) == s;
  }

  lemma Prepend(w: Workflow, s: State, event: Event, status: Status)
    requires Enabled(w, s, event) && CanReach(w, Step(w, s, event), status)
    ensures CanReach(w, s, status)
  {
    var rest :| CanRun(w, Step(w, s, event), rest) && Run(w, Step(w, s, event), rest).status == status;
    var events := [event] + rest;
    assert events[1..] == rest;
    assert CanRun(w, s, events) && Run(w, s, events).status == status;
  }

  /** The next event of a node that is not through yet. */
  function NextEvent(n: string, pc: NodePc, reply: Reply): Event
    requires InFlight(pc)
  {
    match pc
    case Starting => Submit(n)
    case Scheduled(_) => SchedulerReply(n, reply)
    case Recording(_) => Return(n)
  }

  function Remaining(pc: NodePc): nat {
    match pc
    case Starting => 3
    case Scheduled(_) => 2
    case Recording(_) => 1
    case _ => 0
  }

  predicate Acceptable(w: Workflow, reply: Reply) {
    reply.Success? ==> !w.store(OrEmpty(reply.output)).Refused?
  }

  /** The step of such a node: only that node moves, and its fate is the one foreseen. */
  lemma NextStep(w: Workflow, s: State, n: string, reply: Reply)
    requires BuildIsFixed(w) && Acceptable(w, reply)
    requires n in s.pc && InFlight(s.pc[n]) && CanReturn(w, n, s.pc[n])
    ensures var e := NextEvent(n, s.pc[n], reply);
      && Enabled(w, s, e)
      && var s' := Step(w, s, e);
        && s'.phase == s.phase && s'.tier == s.tier && s'.status == s.status
        && n in s'.pc && s'.pc == s.pc[n := s'.pc[n]]
        && CanReturn(w, n, s'.pc[n]) && Remaining(s'.pc[n]) < Remaining(s.pc[n])
        && (EndsLost(s'.pc[n], reply) <==> EndsLost(s.pc[n], reply))
  {
    BuildsTheSame(w, s.outputs, n);
  }

  ghost predicate Drivable(w: Workflow, s: State, i: nat) {
    && s.phase.Waiting? && s.tier < |w.tiers| && i <= |w.tiers[s.tier]|
    && (forall n :: n in w.tiers[s.tier] ==> n in s.pc && CanReturn(w, n, s.pc[n]))
    && (forall j :: 0 <= j < i ==> s.pc[w.tiers[s.tier][j]].Returned?)
  }

  lemma NextStaysDrivable(w: Workflow, s: State, i: nat, reply: Reply)
    requires BuildIsFixed(w) && Acceptable(w, reply) && Drivable(w, s, i) && i < |w.tiers[s.tier]|
    requires InFlight(s.pc[w.tiers[s.tier][i]])
    ensures var n := w.tiers[s.tier][i]; var e := NextEvent(n, s.pc[n], reply);
      && Enabled(w, s, e)
      && var s' := Step(w, s, e);
        && Drivable(w, s', i) && s'.tier == s.tier && s'.status == s.status
        && Remaining(s'.pc[n]) < Remaining(s.pc[n])
        && (TierEndsLost(w, s', reply) <==> TierEndsLost(w, s, reply))
  {
    var tier := w.tiers[s.tier];
    var n := tier[i];
    NextStep(w, s, n, reply);
    var s' := Step(w, s, NextEvent(n, s.pc[n], reply));
    forall m | m in tier ensures EndsLost(s'.pc[m], reply) <==> EndsLost(s.pc[m], reply) {
    }
  }

  /** The tier of s when all its nodes have returned, with the fate foreseen in s. */
  ghost predicate Driven(w: Workflow, s: State, s': State, reply: Reply) {
    && s.tier < |w.tiers| && s'.tier == s.tier && s'.status == s.status
    && Drivable(w, s', |w.tiers[s.tier]|)
    && (TierEndsLost(w, s', reply) <==> TierEndsLost(w, s, reply))
  }

  /** Drives every node of the tier to its return, always with the same scheduler reply; then the tier joins. */
  lemma {:induction false} DriveTier(w: Workflow, s: State, i: nat, reply: Reply, status: Status)
    requires BuildIsFixed(w) && Acceptable(w, reply) && Drivable(w, s, i)
    requires forall s' :: Driven(w, s, s', reply) ==> CanReach(w, s', status)
    ensures CanReach(w, s, status)
    decreases |w.tiers[s.tier]| - i, if i < |w.tiers[s.tier]| then Remaining(s.pc[w.tiers[s.tier][i]]) else 0
  {
    if i < |w.tiers[s.tier]| {
      var n := w.tiers[s.tier][i];
      if s.pc[n].Returned? {
        DriveTier(w, s, i + 1, reply, status);
      } else {
        var e := NextEvent(n, s.pc[n], reply);
        NextStaysDrivable(w, s, i, reply);
        forall s' | Driven(w, Step(w, s, e), s', reply) ensures CanReach(w, s', status) {
          assert Driven(w, s, s', reply);
        }
        DriveTier(w, Step(w, s, e), i, reply, status);
        Prepend(w, s, e, status);
      }
    }
  }

  /** When all nodes have returned, the join decides. */
  lemma JoinDecides(w: Workflow, s: State, reply: Reply)
    requires s.tier < |w.tiers| && Drivable(w, s, |w.tiers[s.tier]|)
    ensures TierEndsLost(w, s, reply) ==> CanReach(w, s, Failed)
    ensures !TierEndsLost(w, s, reply) && s.tier + 1 == |w.tiers| ==> CanReach(w, s, Completed)
  {
    var tier := w.tiers[s.tier];
    forall n | n in tier ensures s.pc[n].Returned? {
      var j :| 0 <= j < |tier| && tier[j] == n;
    }
    assert TierReturned(w, s);
    assert TierFailed(w, s) <==> TierEndsLost(w, s, reply);
    var s' := Step(w, s, Join);
    if TierFailed(w, s) {
      ReachedNow(w, s');
      Prepend(w, s, Join, Failed);
    } else if s.tier + 1 == |w.tiers| {
      ReachedNow(w, Step(w, s', TierCheck(0)));
      Prepend(w, s', TierCheck(0), Completed);
      Prepend(w, s, Join, Completed);
    }
  }

  /** From a waiting tier whose nodes can all return. */
  lemma WaitingReaches(w: Workflow, s: State, reply: Reply)
    requires BuildIsFixed(w) && Acceptable(w, reply) && Drivable(w, s, 0)
    ensures TierEndsLost(w, s, reply) ==> CanReach(w, s, Failed)
    ensures !TierEndsLost(w, s, reply) && s.tier + 1 == |w.tiers| ==> CanReach(w, s, Completed)
  {
    forall s' | Driven(w, s, s', reply)
      ensures TierEndsLost(w, s, reply) ==> CanReach(w, s', Failed)
      ensures !TierEndsLost(w, s, reply) && s.tier + 1 == |w.tiers| ==> CanReach(w, s', Completed)
    {
      JoinDecides(w, s', reply);
    }
    if TierEndsLost(w, s, reply) {
      DriveTier(w, s, 0, reply, Failed);
    } else if s.tier + 1 == |w.tiers| {
      DriveTier(w, s, 0, reply, Completed);
    }
  }

  /** A valid lease reply starts the tier. */
  lemma BegunIsDrivable(w: Workflow, s: State)
    requires Ranked(w) && TierInv(w, s) && s.phase.Leasing?
    requires w.tiers[s.tier] != [] && forall n :: n in w.tiers[s.tier] ==> Buildable(w, n)
    ensures var s' := BeginTier(w, s); Drivable(w, s', 0) && forall reply :: TierEndsLost(w, s', reply) <==> reply.Failure?
  {
    var s' := BeginTier(w, s);
    assert w.tiers[s.tier][0] in w.tiers[s.tier];
    assert s'.pc[w.tiers[s.tier][0]].Starting?;
  }

  lemma OverwritableReaches(w: Workflow, s: State)
    requires Ranked(w) && NoEmptyTiers(w) && BuildIsFixed(w) && TierInv(w, s) && Overwritable(w, s)
    ensures CanReach(w, s, Failed) || CanReach(w, s, Completed)
  {
    match s.phase
    case AtTier =>
      ReachedNow(w, Step(w, s, TierCheck(0)));
      Prepend(w, s, TierCheck(0), Completed);
    case Leasing =>
      BegunIsDrivable(w, s);
      WaitingReaches(w, BeginTier(w, s), Failure);
      Prepend(w, s, LeaseReply(true), Failed);
    case Waiting => WaitingReaches(w, s, Failure);
  }

  /**
   * A cancelled workflow stays Canceled (or becomes Expired) over every continuation if and only
   * if no tier that has passed its check can still reach a join that ends the workflow.
   */
  lemma CanceledIsFinalExactly(w: Workflow, s: State)
    requires Ranked(w) && NoEmptyTiers(w) && BuildIsFixed(w) && Inv(w, s) && s.status == Canceled
    ensures StaysCanceled(w, s) <==> !Overwritable(w, s)
  {
    if Overwritable(w, s) {
      OverwritableReaches(w, s);
    } else {
      forall events | CanRun(w, s, events)
        ensures Run(w, s, events).status == Canceled || Run(w, s, events).status == Expired
      {
        SettledRun(w, s, events);
      }
    }
  }

  /** A cancel that succeeds, after which both verdicts are still possible. */
  ghost predicate CancelLeavesBothEnds(w: Workflow, s: State) {
    var s' := Step(w, s, Cancel);
    s.status == Running && s'.status == Canceled && CanReach(w, s', Failed) && CanReach(w, s', Completed)
  }

  lemma BothEndsReachable(w: Workflow, s: State, output: Value)
    requires BuildIsFixed(w) && |w.tiers| == 1 && s.status == Running && Drivable(w, s, 0)
    requires !w.store(OrEmpty(output)).Refused? && forall reply :: TierEndsLost(w, s, reply) <==> reply.Failure?
    ensures CancelLeavesBothEnds(w, s)
  {
    var s' := Step(w, s, Cancel);
    assert Drivable(w, s', 0);
    assert TierEndsLost(w, s', Failure) <==> TierEndsLost(w, s, Failure);
    assert TierEndsLost(w, s', Success(output)) <==> TierEndsLost(w, s, Success(output));
    WaitingReaches(w, s', Failure);
    WaitingReaches(w, s', Success(output));
  }

  /** The lease before the first tier is valid. */
  lemma FirstTierStarts(w: Workflow, order: seq<string>) returns (events: seq<Event>)
    requires |w.tiers| > 0
    ensures CanRun(w, Initial(w, order), events)
    ensures Run(w, Initial(w, order), events) == BeginTier(w, Initial(w, order).(phase := Leasing))
  {
    var s0 := Initial(w, order);
    var s1 := s0.(phase := Leasing);
    events := [TierCheck(w.expiresAt), LeaseReply(true)];
    assert Step(w, s0, events[0]) == s1;
    assert events[1..] == [LeaseReply(true)] && [LeaseReply(true)][1..] == [];
    assert Run(w, s1, [LeaseReply(true)]) == Run(w, BeginTier(w, s1), []);
  }

  /**
   * Such workflows and runs exist: with a single tier of buildable nodes, cancel as soon as the
   * tier has started. The run can still end Failed, and it can still end Completed.
   */
  lemma CancelCanBeOverwritten(w: Workflow, order: seq<string>, output: Value)
    requires Ranked(w) && BuildIsFixed(w) && |w.tiers| == 1 && w.tiers[0] != []
    requires forall n :: n in w.tiers[0] ==> Buildable(w, n)
    requires !w.store(OrEmpty(output)).Refused? && Elems(order) == w.nodes
    ensures exists events :: CanRun(w, Initial(w, order), events) && CancelLeavesBothEnds(w, Run(w, Initial(w, order), events))
  {
    var events := FirstTierStarts(w, order);
    InitialInv(w, order);
    TierStep(w, Initial(w, order), TierCheck(w.expiresAt));
    BegunIsDrivable(w, Initial(w, order).(phase := Leasing));
    BothEndsReachable(w, Run(w, Initial(w, order), events), output);
  }
}
