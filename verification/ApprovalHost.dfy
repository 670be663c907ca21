// NativeApprovalHost: submit, cancel, expiry, abort and shutdown racing on one prompt.
// Each method is cut at its await; every order of the resulting steps is a run.
module ApprovalHost {
  import opened Collections

  datatype PromptState = Pending | Approved | Denied | Expired | Cancelled

  datatype Decision = Allow | Deny

  /** How a waiting executor is answered. */
  datatype Answer = Resolve(decision: Decision) | Reject

  /** Where one submitDecision call is: in its lease check, returned, or thrown. */
  datatype SubPhase = InLease | Returned | Threw

  /** A submission with what was checked: its nonce, the time of the expiry check, and the lease reply. */
  datatype Submission = Submission(decision: Decision, nonce: string, tenantId: string, checkedAt: int, leaseValid: bool, phase: SubPhase)

  datatype Prompt = Prompt(
    state: PromptState,
    nonce: string,
    tenantId: string,
    expiresAt: int,
    hasLeaseBoundary: bool,
    timer: bool,
    waiter: Option<nat>,       // the registered decision waiter
    listening: set<nat>,       // waiters whose abort listener is installed
    resolving: Option<nat>,    // the submission inside the resolving section
    subs: map<nat, Submission>,
    waiters: set<nat>,         // all waiters so far
    answers: seq<(nat, Answer)>)

  function Present(nonce: string, tenantId: string, expiresAt: int, hasLeaseBoundary: bool): Prompt {
    Prompt(Pending, nonce, tenantId, expiresAt, hasLeaseBoundary, true, None, {}, None, map[], {}, [])
  }

  datatype Event =
    | Wait(w: nat, hasSignal: bool, aborted: bool)
    | Submit(sub: nat, decision: Decision, nonce: string, tenantId: string, now: int)
    | LeaseReply(sub: nat, valid: bool)
    | Cancel
    | Expire
    | Abort(w: nat)
    | Shutdown

  predicate Enabled(p: Prompt, e: Event) {
    match e
    case Wait(w, _, _) => w !in p.waiters
    case Submit(sub, _, _, _, _) => sub !in p.subs
    case LeaseReply(sub, _) => sub in p.subs && p.subs[sub].phase.InLease?
    case Expire => p.timer
    case Abort(w) => w in p.listening
    case _ => true
  }

  /** Answers the registered waiter, if any; its abort listener goes with it. */
  function Settle(p: Prompt, a: Answer): Prompt {
    if p.waiter.None? then p
    else p.(waiter := None, listening := p.listening - {p.waiter.value}, answers := p.answers + [(p.waiter.value, a)])
  }

  function CancelPrompt(p: Prompt): Prompt {
    if p.state == Pending then Settle(p.(state := Cancelled, timer := false), Reject) else p
  }

  function DecisionOf(s: PromptState): Decision {
    if s == Approved then Allow else Deny
  }

  function WaitForDecision(p: Prompt, w: nat, hasSignal: bool, aborted: bool): Prompt {
    var q := p.(waiters := p.waiters + {w});
    if p.state == Approved || p.state == Denied || p.state == Expired then
      q.(answers := q.answers + [(w, Resolve(DecisionOf(p.state)))])
    else if p.state == Cancelled then q.(answers := q.answers + [(w, Reject)])
    else if hasSignal && aborted then
      var c := CancelPrompt(q);
      c.(answers := c.answers + [(w, Reject)])
    else q.(waiter := Some(w), listening := if hasSignal then q.listening + {w} else q.listening)
  }

  /** The atomic end of a submission: the state follows the decision and the waiter is told. */
  function Conclude(p: Prompt, sub: nat, s: Submission): Prompt {
    Settle(p.(state := if s.decision == Allow then Approved else Denied,
              resolving := None,
              subs := p.subs[sub := s.(phase := Returned)]),
           Resolve(s.decision))
  }

  function SubmitDecision(p: Prompt, sub: nat, decision: Decision, nonce: string, tenantId: string, now: int): Prompt {
    var s := Submission(decision, nonce, tenantId, now, false, Threw);
    var refused := p.(subs := p.subs[sub := s]);
    if tenantId != "" && tenantId != p.tenantId then refused
    else if p.state != Pending || p.resolving.Some? then refused
    else if nonce != p.nonce then refused
    else if now > p.expiresAt then Settle(refused.(timer := false, state := Expired), Resolve(Deny))
    else if p.hasLeaseBoundary then
      p.(timer := false, resolving := Some(sub), subs := p.subs[sub := s.(phase := InLease)])
    else Conclude(p.(timer := false), sub, s)
  }

  /** A lease that no longer validates denies the prompt; its waiter is not told. */
  function ReceiveLease(p: Prompt, sub: nat, valid: bool): Prompt
    requires sub in p.subs
  {
    var s := p.subs[sub].(leaseValid := valid);
    if valid then Conclude(p, sub, s)
    else p.(state := Denied, resolving := None, subs := p.subs[sub := s.(phase := Threw)])
  }

  function Step(p: Prompt, e: Event): Prompt
    requires Enabled(p, e)
  {
    match e
    case Wait(w, hasSignal, aborted) => WaitForDecision(p, w, hasSignal, aborted)
    case Submit(sub, decision, nonce, tenantId, now) => SubmitDecision(p, sub, decision, nonce, tenantId, now)
    case LeaseReply(sub, valid) => ReceiveLease(p, sub, valid)
    case Cancel => CancelPrompt(p)
    case Expire =>
      var q := p.(timer := false);
      if p.state == Pending then Settle(q.(state := Expired), Resolve(Deny)) else q
    case Abort(w) =>
      var c := CancelPrompt(p.(waiter := None, listening := p.listening - {w}));
      c.(answers := c.answers + [(w, Reject)])
    case Shutdown =>
      var q := Settle(p.(timer := false), Reject);
      if p.state == Pending then q.(state := Cancelled) else q
  }

  predicate CanRun(p: Prompt, events: seq<Event>)
    decreases |events|
  {
    events == [] || (Enabled(p, events[0]) && CanRun(Step(p, events[0]), events[1..]))
  }

  function Run(p: Prompt, events: seq<Event>): Prompt
    requires CanRun(p, events)
    decreases |events|
  {
    if events == [] then p else Run(Step(p, events[0]), events[1..])
  }

  // ---- The invariant ----

  function Answered(p: Prompt): set<nat> {
    set a | a in p.answers :: a.0
  }

  /** No waiter is answered twice, and whoever can still be answered has not been. */
  ghost predicate WaiterInv(p: Prompt) {
    && Answered(p) <= p.waiters && p.listening <= p.waiters
    && (p.waiter.Some? ==> p.waiter.value in p.waiters && p.waiter.value !in Answered(p))
    && p.listening !! Answered(p)
    && (forall i, j :: 0 <= i < j < |p.answers| ==> p.answers[i].0 != p.answers[j].0)
  }

  /** The submission passed tenant, nonce and expiry checks, and the lease check where there is one. */
  predicate Vetted(p: Prompt, s: Submission) {
    s.nonce == p.nonce && (s.tenantId == "" || s.tenantId == p.tenantId) && s.checkedAt <= p.expiresAt && (s.phase.Returned? && p.hasLeaseBoundary ==> s.leaseValid)
  }

  ghost predicate SubInv(p: Prompt) {
    && (forall i :: i in p.subs && (p.subs[i].phase.InLease? || p.subs[i].phase.Returned?) ==> Vetted(p, p.subs[i]))
    && (forall i :: i in p.subs && p.subs[i].phase.InLease? <==> p.resolving == Some(i))
    && (forall i, j :: i in p.subs && j in p.subs && p.subs[i].phase.Returned? && p.subs[j].phase.Returned? ==> i == j)
    && (forall i :: i in p.subs && p.subs[i].phase.Returned? ==>
          p.resolving.None? && p.state == if p.subs[i].decision == Allow then Approved else Denied)
    && (p.state == Approved ==> exists i :: i in p.subs && p.subs[i].phase.Returned? && p.subs[i].decision == Allow)
    && (p.resolving.Some? ==> p.state == Pending || p.state == Cancelled)
    && (p.resolving.Some? ==> !p.timer)
  }

  /** Whoever was told Allow was told so by an approved prompt. */
  ghost predicate AllowInv(p: Prompt) {
    forall a :: a in p.answers && a.1 == Resolve(Allow) ==> p.state == Approved
  }

  ghost predicate Inv(p: Prompt) {
    WaiterInv(p) && SubInv(p) && AllowInv(p)
  }

  lemma AnswerOne(p: Prompt, w: nat, a: Answer)
    requires WaiterInv(p) && w in p.waiters && w !in Answered(p)
    requires p.waiter != Some(w) && w !in p.listening
    ensures WaiterInv(p.(answers := p.answers + [(w, a)]))
  {
    var q := p.(answers := p.answers + [(w, a)]);
    forall x | x in Answered(q) ensures x in Answered(p) + {w} {
      var b :| b in q.answers && b.0 == x;
      if b in p.answers {
        assert x in Answered(p);
      }
    }
    forall i | 0 <= i < |p.answers| ensures p.answers[i].0 in Answered(p) {
      assert p.answers[i] in p.answers;
    }
  }

  lemma SettleKeepsWaiters(p: Prompt, a: Answer)
    requires WaiterInv(p)
    ensures WaiterInv(Settle(p, a)) && Settle(p, a).waiter.None?
    ensures forall w :: w in p.waiters && w !in Answered(p) && p.waiter != Some(w) ==> w !in Answered(Settle(p, a))
  {
    if p.waiter.Some? {
      var w := p.waiter.value;
      AnswerOne(p.(waiter := None, listening := p.listening - {w}), w, a);
      forall x | x in Answered(Settle(p, a)) && x != w ensures x in Answered(p) {
        var b :| b in Settle(p, a).answers && b.0 == x;
        assert b in p.answers;
      }
    }
  }

  lemma SameWaiters(p: Prompt, q: Prompt)
    requires WaiterInv(p) && q.waiter == p.waiter && q.waiters == p.waiters && q.listening == p.listening && q.answers == p.answers
    ensures WaiterInv(q)
  {
  }

  lemma CancelKeepsWaiters(p: Prompt)
    requires WaiterInv(p)
    ensures WaiterInv(CancelPrompt(p))
    ensures forall w :: w in p.waiters && w !in Answered(p) && p.waiter != Some(w) ==> w !in Answered(CancelPrompt(p))
    ensures CancelPrompt(p).listening <= p.listening && CancelPrompt(p).waiters == p.waiters
    ensures CancelPrompt(p).waiter == p.waiter || CancelPrompt(p).waiter.None?
  {
    var q := p.(state := Cancelled, timer := false);
    SameWaiters(p, q);
    SettleKeepsWaiters(q, Reject);
  }

  lemma WaitKeepsWaiters(p: Prompt, w: nat, hasSignal: bool, aborted: bool)
    requires WaiterInv(p) && w !in p.waiters
    ensures WaiterInv(WaitForDecision(p, w, hasSignal, aborted))
  {
    var q := p.(waiters := p.waiters + {w});
    assert Answered(q) == Answered(p);
    if p.state != Pending {
      AnswerOne(q, w, if p.state == Cancelled then Reject else Resolve(DecisionOf(p.state)));
    } else if hasSignal && aborted {
      CancelKeepsWaiters(q);
      AnswerOne(CancelPrompt(q), w, Reject);
    } else {
      assert Answered(WaitForDecision(p, w, hasSignal, aborted)) == Answered(p);
    }
  }

  lemma ConcludeKeepsWaiters(p: Prompt, sub: nat, s: Submission)
    requires WaiterInv(p)
    ensures WaiterInv(Conclude(p, sub, s))
  {
    var q := p.(state := if s.decision == Allow then Approved else Denied, resolving := None, subs := p.subs[sub := s.(phase := Returned)]);
    SameWaiters(p, q);
    SettleKeepsWaiters(q, Resolve(s.decision));
  }

  lemma SubmitKeepsWaiters(p: Prompt, sub: nat, decision: Decision, nonce: string, tenantId: string, now: int)
    requires WaiterInv(p)
    ensures WaiterInv(SubmitDecision(p, sub, decision, nonce, tenantId, now))
  {
    var s := Submission(decision, nonce, tenantId, now, false, Threw);
    var expired := p.(subs := p.subs[sub := s], timer := false, state := Expired);
    SameWaiters(p, expired);
    SettleKeepsWaiters(expired, Resolve(Deny));
    SameWaiters(p, p.(timer := false));
    ConcludeKeepsWaiters(p.(timer := false), sub, s);
  }

  lemma AbortKeepsWaiters(p: Prompt, w: nat)
    requires WaiterInv(p) && w in p.listening
    ensures WaiterInv(Step(p, Abort(w)))
  {
    var q := p.(waiter := None, listening := p.listening - {w});
    assert Answered(q) == Answered(p);
    CancelKeepsWaiters(q);
    AnswerOne(CancelPrompt(q), w, Reject);
  }

  lemma WaiterStep(p: Prompt, e: Event)
    requires WaiterInv(p) && Enabled(p, e)
    ensures WaiterInv(Step(p, e))
  {
    match e
    case Wait(w, hasSignal, aborted) => WaitKeepsWaiters(p, w, hasSignal, aborted);
    case Submit(sub, decision, nonce, tenantId, now) => SubmitKeepsWaiters(p, sub, decision, nonce, tenantId, now);
    case LeaseReply(sub, valid) =>
      if valid {
        ConcludeKeepsWaiters(p, sub, p.subs[sub].(leaseValid := true));
      }
    case Cancel => CancelKeepsWaiters(p);
    case Expire =>
      var q := p.(timer := false, state := Expired);
      SameWaiters(p, q);
      SettleKeepsWaiters(q, Resolve(Deny));
    case Abort(w) => AbortKeepsWaiters(p, w);
    case Shutdown =>
      var q := p.(timer := false);
      SameWaiters(p, q);
      SettleKeepsWaiters(q, Reject);
  }

  /** A vetted submission may conclude while no other one has. */
  lemma ConcludeKeepsSubs(p: Prompt, sub: nat, s: Submission)
    requires SubInv(p) && Vetted(p, s.(phase := Returned)) && (p.resolving == Some(sub) || p.resolving.None?)
    requires forall i :: i in p.subs ==> !p.subs[i].phase.Returned?
    ensures SubInv(Conclude(p, sub, s))
  {
    var q := Conclude(p, sub, s);
    assert q.subs[sub].phase.Returned? && q.subs[sub].decision == s.decision;
  }

  predicate OnlyCloses(p: Prompt, q: Prompt) {
    && q.subs == p.subs && q.resolving == p.resolving && (q.timer ==> p.timer)
    && q.nonce == p.nonce && q.tenantId == p.tenantId && q.expiresAt == p.expiresAt && q.hasLeaseBoundary == p.hasLeaseBoundary
    && (q.state == p.state || (p.state == Pending && (q.state == Cancelled || (q.state == Expired && p.resolving.None?))))
  }

  lemma OthersOnlyClose(p: Prompt, e: Event)
    requires Enabled(p, e) && !e.Submit? && !e.LeaseReply? && (p.resolving.Some? ==> !p.timer)
    ensures OnlyCloses(p, Step(p, e))
  {
  }

  /** Steps that leave the submissions alone and only close a pending prompt keep them in order. */
  lemma ClosingKeepsSubs(p: Prompt, q: Prompt)
    requires SubInv(p) && OnlyCloses(p, q)
    ensures SubInv(q)
  {
  }

  /** A submission that is refused changes nothing for the others. */
  lemma RefusingKeepsSubs(p: Prompt, sub: nat, s: Submission)
    requires SubInv(p) && sub !in p.subs && s.phase.Threw?
    ensures SubInv(p.(subs := p.subs[sub := s]))
  {
    var q := p.(subs := p.subs[sub := s]);
    if p.state == Approved {
      var i :| i in p.subs && p.subs[i].phase.Returned? && p.subs[i].decision == Allow;
      assert q.subs[i] == p.subs[i];
    }
  }

  lemma EnteringKeepsSubs(p: Prompt, sub: nat, s: Submission)
    requires SubInv(p) && sub !in p.subs && s.phase.InLease? && Vetted(p, s) && p.state == Pending && p.resolving.None?
    ensures SubInv(p.(timer := false, resolving := Some(sub), subs := p.subs[sub := s]))
  {
  }

  lemma SubmitKeepsSubs(p: Prompt, sub: nat, decision: Decision, nonce: string, tenantId: string, now: int)
    requires SubInv(p) && sub !in p.subs
    ensures SubInv(SubmitDecision(p, sub, decision, nonce, tenantId, now))
  {
    var s, q := Submission(decision, nonce, tenantId, now, false, Threw), SubmitDecision(p, sub, decision, nonce, tenantId, now);
    var refused := p.(subs := p.subs[sub := s]);
    RefusingKeepsSubs(p, sub, s);
    if q.subs == refused.subs {
      ClosingKeepsSubs(refused, q);
    } else if p.hasLeaseBoundary {
      EnteringKeepsSubs(p, sub, s.(phase := InLease));
    } else {
      ClosingKeepsSubs(p, p.(timer := false));
      ConcludeKeepsSubs(p.(timer := false), sub, s);
    }
  }

  lemma DenyingKeepsSubs(p: Prompt, sub: nat)
    requires SubInv(p) && sub in p.subs && p.subs[sub].phase.InLease?
    ensures SubInv(ReceiveLease(p, sub, false))
  {
  }

  lemma LeaseKeepsSubs(p: Prompt, sub: nat, valid: bool)
    requires SubInv(p) && sub in p.subs && p.subs[sub].phase.InLease?
    ensures SubInv(ReceiveLease(p, sub, valid))
  {
    if valid {
      ConcludeKeepsSubs(p, sub, p.subs[sub].(leaseValid := true));
    } else {
      DenyingKeepsSubs(p, sub);
    }
  }

  lemma SubStep(p: Prompt, e: Event)
    requires SubInv(p) && Enabled(p, e)
    ensures SubInv(Step(p, e))
  {
    match e
    case Submit(sub, decision, nonce, tenantId, now) => SubmitKeepsSubs(p, sub, decision, nonce, tenantId, now);
    case LeaseReply(sub, valid) => LeaseKeepsSubs(p, sub, valid);
    case _ =>
      OthersOnlyClose(p, e);
      ClosingKeepsSubs(p, Step(p, e));
  }

  lemma AnswerKeepsAllow(p: Prompt, w: nat, a: Answer)
    requires AllowInv(p) && (a == Resolve(Allow) ==> p.state == Approved)
    ensures AllowInv(p.(answers := p.answers + [(w, a)]))
  {
  }

  lemma SettleKeepsAllow(p: Prompt, a: Answer)
    requires AllowInv(p) && (a == Resolve(Allow) ==> p.state == Approved)
    ensures AllowInv(Settle(p, a))
  {
    if p.waiter.Some? {
      AnswerKeepsAllow(p, p.waiter.value, a);
    }
  }

  /** Before approval nobody has been told Allow, so the state may still change. */
  lemma StateChangeKeepsAllow(p: Prompt, q: Prompt)
    requires AllowInv(p) && q.answers == p.answers && (p.state == Approved ==> q.state == Approved)
    ensures AllowInv(q)
  {
  }

  lemma CancelKeepsAllow(p: Prompt)
    requires AllowInv(p)
    ensures AllowInv(CancelPrompt(p))
  {
    if p.state == Pending {
      StateChangeKeepsAllow(p, p.(state := Cancelled, timer := false));
      SettleKeepsAllow(p.(state := Cancelled, timer := false), Reject);
    }
  }

  lemma ConcludeKeepsAllow(p: Prompt, sub: nat, s: Submission)
    requires AllowInv(p) && p.state != Approved
    ensures AllowInv(Conclude(p, sub, s))
  {
    var q := p.(state := if s.decision == Allow then Approved else Denied, resolving := None, subs := p.subs[sub := s.(phase := Returned)]);
    StateChangeKeepsAllow(p, q);
    SettleKeepsAllow(q, Resolve(s.decision));
  }

  lemma SubmitKeepsAllow(p: Prompt, sub: nat, decision: Decision, nonce: string, tenantId: string, now: int)
    requires AllowInv(p)
    ensures AllowInv(SubmitDecision(p, sub, decision, nonce, tenantId, now))
  {
    var s := Submission(decision, nonce, tenantId, now, false, Threw);
    if p.state == Pending {
      var expired := p.(subs := p.subs[sub := s], timer := false, state := Expired);
      StateChangeKeepsAllow(p, expired);
      SettleKeepsAllow(expired, Resolve(Deny));
      ConcludeKeepsAllow(p.(timer := false), sub, s);
    }
    StateChangeKeepsAllow(p, p.(timer := false, resolving := Some(sub), subs := p.subs[sub := s.(phase := InLease)]));
  }

  lemma WaitKeepsAllow(p: Prompt, w: nat, hasSignal: bool, aborted: bool)
    requires AllowInv(p)
    ensures AllowInv(WaitForDecision(p, w, hasSignal, aborted))
  {
    var q := p.(waiters := p.waiters + {w});
    if p.state == Pending {
      CancelKeepsAllow(q);
      AnswerKeepsAllow(CancelPrompt(q), w, Reject);
    } else {
      AnswerKeepsAllow(q, w, if p.state == Cancelled then Reject else Resolve(DecisionOf(p.state)));
    }
  }

  lemma AllowStep(p: Prompt, e: Event)
    requires SubInv(p) && AllowInv(p) && Enabled(p, e)
    ensures AllowInv(Step(p, e))
  {
    match e
    case Wait(w, hasSignal, aborted) => WaitKeepsAllow(p, w, hasSignal, aborted);
    case Submit(sub, decision, nonce, tenantId, now) => SubmitKeepsAllow(p, sub, decision, nonce, tenantId, now);
    case LeaseReply(sub, valid) =>
      if valid {
        ConcludeKeepsAllow(p, sub, p.subs[sub].(leaseValid := true));
      } else {
        StateChangeKeepsAllow(p, Step(p, e));
      }
    case Cancel => CancelKeepsAllow(p);
    case Expire =>
      if p.state == Pending {
        SettleKeepsAllow(p.(timer := false, state := Expired), Resolve(Deny));
      }
    case Abort(w) =>
      CancelKeepsAllow(p.(waiter := None, listening := p.listening - {w}));
      AnswerKeepsAllow(CancelPrompt(p.(waiter := None, listening := p.listening - {w})), w, Reject);
    case Shutdown => SettleKeepsAllow(p.(timer := false), Reject);
  }

  lemma StepKeepsInv(p: Prompt, e: Event)
    requires Inv(p) && Enabled(p, e)
    ensures Inv(Step(p, e))
  {
    WaiterStep(p, e);
    SubStep(p, e);
    AllowStep(p, e);
  }

  lemma {:induction false} RunKeepsInv(p: Prompt, events: seq<Event>)
    requires Inv(p) && CanRun(p, events)
    ensures Inv(Run(p, events))
    ensures p.state != Pending ==> Run(p, events).state != Pending
    decreases |events|
  {
    if events != [] {
      StepKeepsInv(p, events[0]);
      if p.state != Pending {
        NeverPendingAgain(p, events[0]);
      }
      RunKeepsInv(Step(p, events[0]), events[1..]);
    }
  }

  lemma NeverPendingAgain(p: Prompt, e: Event)
    requires Enabled(p, e) && p.state != Pending
    ensures Step(p, e).state != Pending
  {
  }

  // ---- Single decision ----

  /**
   * On every interleaving: at most one submitDecision returns; no waiter is answered twice; and
   * whoever is answered Allow, or sees the prompt approved, owes it to one submission that matched
   * the nonce, was in time when checked, and passed the lease check where one is configured.
   */
  lemma SingleDecision(nonce: string, tenantId: string, expiresAt: int, hasLease: bool, events: seq<Event>)
    requires CanRun(Present(nonce, tenantId, expiresAt, hasLease), events)
    ensures var p := Run(Present(nonce, tenantId, expiresAt, hasLease), events);
      && (forall i, j :: i in p.subs && j in p.subs && p.subs[i].phase.Returned? && p.subs[j].phase.Returned? ==> i == j)
      && (forall i, j :: 0 <= i < j < |p.answers| ==> p.answers[i].0 != p.answers[j].0)
      && ((exists a :: a in p.answers && a.1 == Resolve(Allow)) || p.state == Approved ==>
            exists i :: i in p.subs && p.subs[i].phase.Returned? && p.subs[i].decision == Allow && Vetted(p, p.subs[i]))
  {
    RunKeepsInv(Present(nonce, tenantId, expiresAt, hasLease), events);
  }

  /** A submission is heard exactly when the prompt is pending and free, and tenant, nonce and time are right. */
  lemma HeardExactly(p: Prompt, sub: nat, decision: Decision, nonce: string, tenantId: string, now: int)
    requires sub !in p.subs
    ensures var q := Step(p, Submit(sub, decision, nonce, tenantId, now));
      && sub in q.subs
      && (!q.subs[sub].phase.Threw? <==>
            p.state == Pending && p.resolving.None? && nonce == p.nonce && now <= p.expiresAt && (tenantId == "" || tenantId == p.tenantId))
      && (!q.subs[sub].phase.Threw? ==> (q.subs[sub].phase.InLease? <==> p.hasLeaseBoundary))
  {
  }

  /** A submission that concludes decides the prompt, and the registered waiter hears its decision. */
  lemma ConclusionIsHeard(p: Prompt, sub: nat, w: nat)
    requires sub in p.subs && p.subs[sub].phase.InLease? && p.waiter == Some(w)
    ensures var q := Step(p, LeaseReply(sub, true));
      && q.state == (if p.subs[sub].decision == Allow then Approved else Denied)
      && q.answers == p.answers + [(w, Resolve(p.subs[sub].decision))]
  {
  }

  // ---- When a final state is final ----

  lemma {:induction false} QuietStaysFinal(p: Prompt, events: seq<Event>)
    requires Inv(p) && p.state != Pending && p.resolving.None? && CanRun(p, events)
    ensures Run(p, events).state == p.state
    decreases |events|
  {
    if events != [] {
      StepKeepsInv(p, events[0]);
      FinalStep(p, events[0]);
      QuietStaysFinal(Step(p, events[0]), events[1..]);
    }
  }

  lemma FinalStep(p: Prompt, e: Event)
    requires SubInv(p) && p.state != Pending && p.resolving.None? && Enabled(p, e)
    ensures Step(p, e).state == p.state && Step(p, e).resolving.None?
  {
  }

  ghost predicate Final(p: Prompt) {
    forall events :: CanRun(p, events) ==> Run(p, events).state == p.state
  }

  /**
   * A decided, expired or cancelled prompt keeps its state for good exactly when no submission is
   * waiting for its lease check. A cancel that lands during the check can still be followed by
   * Approved.
   */
  lemma FinalExactlyWhenQuiet(p: Prompt)
    requires Inv(p) && p.state != Pending
    ensures Final(p) <==> p.resolving.None?
  {
    if p.resolving.None? {
      forall events | CanRun(p, events) ensures Run(p, events).state == p.state {
        QuietStaysFinal(p, events);
      }
    } else {
      var e := LeaseReply(p.resolving.value, true);
      assert Enabled(p, e);
      var rest: seq<Event> := [];
      assert [e][1..] == rest;
      assert CanRun(Step(p, e), rest) && Run(Step(p, e), rest) == Step(p, e);
      assert CanRun(p, [e]) && Run(p, [e]) == Step(p, e);
    }
  }

  lemma ThreeSteps(p: Prompt, a: Event, b: Event, c: Event)
    requires Enabled(p, a) && Enabled(Step(p, a), b) && Enabled(Step(Step(p, a), b), c)
    ensures CanRun(p, [a, b, c]) && Run(p, [a, b, c]) == Step(Step(Step(p, a), b), c)
  {
    assert [a, b, c][1..] == [b, c] && [b, c][1..] == [c] && [c][1..] == [];
    assert Run(Step(Step(p, a), b), [c]) == Step(Step(Step(p, a), b), c);
  }

  /** Not final indeed: for every prompt with a lease boundary, a cancel during the lease check is followed by Approved. */
  lemma CancelledCanBecomeApproved(nonce: string, tenantId: string, expiresAt: int, sub: nat, now: int)
    requires now <= expiresAt
    ensures var p := Present(nonce, tenantId, expiresAt, true);
      var events := [Submit(sub, Allow, nonce, "", now), Cancel, LeaseReply(sub, true)];
      && CanRun(p, events) && Run(p, events).state == Approved
      && Step(Step(p, events[0]), events[1]).state == Cancelled
  {
    ThreeSteps(Present(nonce, tenantId, expiresAt, true), Submit(sub, Allow, nonce, "", now), Cancel, LeaseReply(sub, true));
  }

  // ---- Waiters that nobody answers ----

  /**
   * The waiter aborts, or the host shuts down before some other waiter's abort has taken the
   * registration away.
   */
  predicate Rescued(events: seq<Event>, w: nat) {
    events != [] &&
      if events[0].Abort? then Abort(w) in events
      else events[0].Shutdown? || Rescued(events[1..], w)
  }

  lemma {:induction false} AnsweredStays(p: Prompt, events: seq<Event>, w: nat)
    requires w in Answered(p) && CanRun(p, events)
    ensures w in Answered(Run(p, events))
    decreases |events|
  {
    if events != [] {
      AnswersGrow(p, events[0], w);
      AnsweredStays(Step(p, events[0]), events[1..], w);
    }
  }

  lemma AnswersGrow(p: Prompt, e: Event, w: nat)
    requires Enabled(p, e) && w in Answered(p)
    ensures w in Answered(Step(p, e))
  {
    var k :| 0 <= k < |p.answers| && p.answers[k].0 == w;
    assert Step(p, e).answers[k] == p.answers[k];
  }

  /** A quiet settled prompt, in which the waiter w is known and has no answer. */
  ghost predicate Owed(p: Prompt, w: nat) {
    Inv(p) && p.state != Pending && p.resolving.None? && w in p.waiters && w !in Answered(p)
  }

  /** One event: who is answered, and who stays registered. */
  lemma OwedStep(p: Prompt, e: Event, w: nat)
    requires Owed(p, w) && Enabled(p, e)
    ensures var q := Step(p, e);
      && (w in Answered(q) <==> e == Abort(w) || (e.Shutdown? && p.waiter == Some(w)))
      && (w !in Answered(q) ==> Owed(q, w))
      && q.waiter == if e.Abort? || e.Shutdown? then None else p.waiter
  {
    StepKeepsInv(p, e);
    FinalStep(p, e);
    NewAnswers(p, e);
  }

  lemma NewAnswers(p: Prompt, e: Event)
    requires SubInv(p) && p.state != Pending && p.resolving.None? && Enabled(p, e)
    ensures var q := Step(p, e);
      && p.waiters <= q.waiters
      && q.waiter == (if e.Abort? || e.Shutdown? then None else p.waiter)
      && match e
         case Wait(v, _, _) => exists a :: q.answers == p.answers + [(v, a)]
         case Abort(v) => q.answers == p.answers + [(v, Reject)]
         case Shutdown => q.answers == if p.waiter.Some? then p.answers + [(p.waiter.value, Reject)] else p.answers
         case _ => q.answers == p.answers
  {
  }

  /** Once it is no longer registered, only its own abort answers a waiter. */
  lemma {:induction false} ForgottenWaiter(p: Prompt, events: seq<Event>, w: nat)
    requires Owed(p, w) && p.waiter != Some(w) && CanRun(p, events)
    ensures w in Answered(Run(p, events)) <==> Abort(w) in events
    decreases |events|
  {
    if events != [] {
      OwedStep(p, events[0], w);
      if events[0] == Abort(w) {
        AnsweredStays(Step(p, events[0]), events[1..], w);
      } else {
        ForgottenWaiter(Step(p, events[0]), events[1..], w);
        assert events == [events[0]] + events[1..];
      }
    }
  }

  /**
   * A waiter still registered when the prompt has left Pending and nothing is resolving stays
   * unanswered, over every continuation, until it aborts itself or the host shuts down. Newer
   * waiters do not displace it; another waiter's abort takes even the shutdown away from it.
   */
  lemma {:induction false} StrandedWaiter(p: Prompt, events: seq<Event>, w: nat)
    requires Owed(p, w) && p.waiter == Some(w) && CanRun(p, events)
    ensures w in Answered(Run(p, events)) <==> Rescued(events, w)
    decreases |events|
  {
    if events != [] {
      var q, rest := Step(p, events[0]), events[1..];
      OwedStep(p, events[0], w);
      assert events == [events[0]] + rest;
      if events[0] == Abort(w) || events[0].Shutdown? {
        AnsweredStays(q, rest, w);
      } else if events[0].Abort? {
        ForgottenWaiter(q, rest, w);
      } else {
        StrandedWaiter(q, rest, w);
      }
    }
  }

  /** Such waiters exist: after a failed lease check the registered waiter is left without an answer. */
  lemma FailedLeaseStrandsWaiter(nonce: string, tenantId: string, expiresAt: int, w: nat, hasSignal: bool, sub: nat, decision: Decision, now: int)
    requires now <= expiresAt
    ensures var p := Present(nonce, tenantId, expiresAt, true);
      var events := [Wait(w, hasSignal, false), Submit(sub, decision, nonce, "", now), LeaseReply(sub, false)];
      CanRun(p, events) && Owed(Run(p, events), w) && Run(p, events).waiter == Some(w)
  {
    var p := Present(nonce, tenantId, expiresAt, true);
    var events := [Wait(w, hasSignal, false), Submit(sub, decision, nonce, "", now), LeaseReply(sub, false)];
    ThreeSteps(p, events[0], events[1], events[2]);
    RunKeepsInv(p, events);
  }

  // ---- The prompt's fields ----

  /** One prompt of the host; `subs`, `waiters` and `answers` record the calls made on it. */
  class ApprovalPrompt {
    const nonce: string
    const tenantId: string
    const expiresAt: int
    const hasLeaseBoundary: bool
    var state: PromptState
    var timer: bool
    var waiter: Option<nat>
    var listening: set<nat>
    var resolving: Option<nat>
    ghost var subs: map<nat, Submission>
    ghost var waiters: set<nat>
    ghost var answers: seq<(nat, Answer)>

    constructor (nonce: string, tenantId: string, expiresAt: int, hasLeaseBoundary: bool)
      ensures View() == Present(nonce, tenantId, expiresAt, hasLeaseBoundary)
    {
      this.nonce, this.tenantId, this.expiresAt, this.hasLeaseBoundary := nonce, tenantId, expiresAt, hasLeaseBoundary;
      state, timer, waiter, listening, resolving := Pending, true, None, {}, None;
      subs, waiters, answers := map[], {}, [];
    }

    ghost function View(): Prompt
      reads this
    {
      Prompt(state, nonce, tenantId, expiresAt, hasLeaseBoundary, timer, waiter, listening, resolving, subs, waiters, answers)
    }

    method NotifyWaiter(a: Answer)
      modifies this`waiter, this`listening, this`answers
      ensures View() == Settle(old(View()), a)
    {
      if waiter.Some? {
        listening := listening - {waiter.value};
        answers := answers + [(waiter.value, a)];
        waiter := None;
      }
    }

    method Cancel() returns (ok: bool)
      modifies this
      ensures View() == Step(old(View()), Event.Cancel)
      ensures ok <==> old(state) == Pending
    {
      if state == Pending {
        state := Cancelled;
        timer := false;
        NotifyWaiter(Reject);
        return true;
      }
      return false;
    }

    method PerformAutoExpire()
      requires timer
      modifies this
      ensures View() == Step(old(View()), Expire)
    {
      timer := false;
      if state == Pending {
        state := Expired;
        NotifyWaiter(Resolve(Deny));
      }
    }

    /** submitDecision up to its await; the answer says whether it must go on to the lease check. */
    method SubmitDecision(sub: nat, decision: Decision, nonce: string, tenantId: string, now: int) returns (phase: SubPhase)
      requires Enabled(View(), Submit(sub, decision, nonce, tenantId, now))
      modifies this
      ensures View() == Step(old(View()), Submit(sub, decision, nonce, tenantId, now))
      ensures sub in subs && phase == subs[sub].phase
    {
      ghost var s := Submission(decision, nonce, tenantId, now, false, Threw);
      if (tenantId != "" && tenantId != this.tenantId) || state != Pending || resolving.Some? || nonce != this.nonce {
        subs := subs[sub := s];
        return Threw;
      }
      timer := false;
      if now > expiresAt {
        subs := subs[sub := s];
        state := Expired;
        NotifyWaiter(Resolve(Deny));
        return Threw;
      }
      if hasLeaseBoundary {
        resolving := Some(sub);
        subs := subs[sub := s.(phase := InLease)];
        return InLease;
      }
      state := if decision == Allow then Approved else Denied;
      subs := subs[sub := s.(phase := Returned)];
      NotifyWaiter(Resolve(decision));
      return Returned;
    }

    /** submitDecision after its await. */
    method FinishSubmit(sub: nat, decision: Decision, valid: bool) returns (phase: SubPhase)
      requires Enabled(View(), LeaseReply(sub, valid)) && subs[sub].decision == decision
      modifies this
      ensures View() == Step(old(View()), LeaseReply(sub, valid))
      ensures phase == if valid then Returned else Threw
    {
      resolving := None;
      ghost var s := subs[sub].(leaseValid := valid);
      if !valid {
        state := Denied;
        subs := subs[sub := s.(phase := Threw)];
        return Threw;
      }
      state := if decision == Allow then Approved else Denied;
      subs := subs[sub := s.(phase := Returned)];
      NotifyWaiter(Resolve(decision));
      return Returned;
    }
  }
}
