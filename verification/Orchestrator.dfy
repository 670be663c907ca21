// The promise-chain mutex of AgentOrchestrator.withTaskStateLock.
module TaskStateLock {
  import opened Collections

  /** One withTaskStateLock call: waiting for its predecessor, inside its critical section, or done. */
  datatype Ticket = Waiting | Inside | Released

  datatype Event = Request | Enter(i: nat) | Leave(i: nat)

  /** A call may enter when the promise it chained on, its predecessor's, has resolved. */
  predicate Enabled(tickets: seq<Ticket>, e: Event) {
    match e
    case Request => true
    case Enter(i) => i < |tickets| && tickets[i].Waiting? && (i > 0 ==> tickets[i - 1].Released?)
    case Leave(i) => i < |tickets| && tickets[i].Inside?
  }

  function Step(tickets: seq<Ticket>, e: Event): seq<Ticket>
    requires Enabled(tickets, e)
  {
    match e
    case Request => tickets + [Waiting]
    case Enter(i) => tickets[i := Inside]
    case Leave(i) => tickets[i := Released]
  }

  /** Whatever is not waiting has only finished calls before it. */
  ghost predicate InOrder(tickets: seq<Ticket>) {
    forall i, j :: 0 <= i < j < |tickets| && !tickets[j].Waiting? ==> tickets[i].Released?
  }

  predicate CanRun(tickets: seq<Ticket>, events: seq<Event>)
    decreases |events|
  {
    events == [] || (Enabled(tickets, events[0]) && CanRun(Step(tickets, events[0]), events[1..]))
  }

  function Run(tickets: seq<Ticket>, events: seq<Event>): seq<Ticket>
    requires CanRun(tickets, events)
    decreases |events|
  {
    if events == [] then tickets else Run(Step(tickets, events[0]), events[1..])
  }

  lemma {:induction false} RunInOrder(tickets: seq<Ticket>, events: seq<Event>)
    requires InOrder(tickets) && CanRun(tickets, events)
    ensures InOrder(Run(tickets, events))
    decreases |events|
  {
    if events != [] {
      RunInOrder(Step(tickets, events[0]), events[1..]);
    }
  }

  /** Mutual exclusion, in arrival order: two critical sections never overlap and never overtake. */
  lemma FifoMutualExclusion(events: seq<Event>, i: nat, j: nat)
    requires CanRun([], events)
    requires i < j < |Run([], events)| && !Run([], events)[j].Waiting?
    ensures Run([], events)[i].Released?
  {
    RunInOrder([], events);
  }
}

// AgentOrchestrator.executeTask from the concurrency reservation on, and cancelTask, as atomic
// steps cut at the awaits. Each critical section under the status lock is one step.
module TaskExecution {
  import opened Collections

  const MAX_CONCURRENCY: nat := 5

  datatype Status = Running | AwaitingApproval | Completed | Failed | Canceled

  datatype TaskRecord = TaskRecord(status: Status, tenantId: string)

  /**
   * How an execution ends. Refusal: turned away before the runtime was asked. Crash: a checkpoint
   * write or the approval prompt threw, so that the call rejects with nothing more recorded. A throw
   * after the last critical section recorded its outcome changes no state, and is not told apart.
   */
  datatype Outcome = Success | Failure | Cancellation | Refusal | Crash

  datatype Phase =
    | Arrived                      // validating, no slot yet
    | Reserved                     // slot taken, waiting for the lock
    | Marked                       // Running recorded, checkpoint being written
    | Armed                        // abort controller and timer installed
    | Asking                       // AwaitingApproval recorded, checkpoint written and prompt presented
    | Prompted                     // prompt open
    | Approved                     // waiting for the lock to record Running again
    | Denied                       // waiting for the lock to record Failed
    | Working                      // the runtime is executing
    | Worked(error: bool)          // runtime done, controller removed, waiting for the lock
    | Resolved(outcome: Outcome)   // result known, slot still held
    | Ended(outcome: Outcome)

  datatype Exec = Exec(
    task: string,
    tenantId: string,
    needsApproval: bool,
    phase: Phase,
    aborted: bool,
    timedOut: bool)

  datatype State = State(
    activeCount: int,
    records: map<string, TaskRecord>,
    execs: map<nat, Exec>,
    controllers: map<string, nat>,
    prompts: map<string, nat>,  // tasks with an open approval prompt, and whose it is
    canceled: set<string>)      // tasks for which some cancelTask returned true

  const INITIAL: State := State(0, map[], map[], map[], map[], {})

  datatype Event =
    | Arrive(id: nat, task: string, tenantId: string, needsApproval: bool)
    | Reject(id: nat)
    | Reserve(id: nat)
    | Mark(id: nat)
    | Arm(id: nat)
    | NoHost(id: nat)
    | Begin(id: nat)
    | Ask(id: nat)
    | Present(id: nat)
    | Decide(id: nat, allow: bool)
    | AbortAsk(id: nat)
    | Resume(id: nat)
    | Deny(id: nat)
    | Throw(id: nat)
    | Timeout(id: nat)
    | Finish(id: nat, error: bool)
    | Resolve(id: nat)
    | Release(id: nat)
    | Cancel(task: string, tenantId: string)

  predicate Holds(p: Phase) {
    !p.Arrived? && !p.Ended?
  }

  predicate TimerRuns(p: Phase) {
    p.Armed? || p.Asking? || p.Prompted? || p.Approved? || p.Denied? || p.Working?
  }

  /** Where an awaited call can throw past everything but the finally block. */
  predicate MayThrow(p: Phase) {
    p.Marked? || p.Asking? || p.Prompted?
  }

  predicate Enabled(s: State, e: Event) {
    match e
    case Arrive(id, _, _, _) => id !in s.execs
    case Reject(id) => id in s.execs && s.execs[id].phase.Arrived?
    case Reserve(id) => id in s.execs && s.execs[id].phase.Arrived?
    case Mark(id) => id in s.execs && s.execs[id].phase.Reserved?
    case Arm(id) => id in s.execs && s.execs[id].phase.Marked?
    case NoHost(id) => id in s.execs && s.execs[id].phase.Armed? && s.execs[id].needsApproval
    case Begin(id) => id in s.execs && s.execs[id].phase.Armed? && !s.execs[id].needsApproval
    case Ask(id) => id in s.execs && s.execs[id].phase.Armed? && s.execs[id].needsApproval
    case Present(id) => id in s.execs && s.execs[id].phase.Asking?
    case Decide(id, _) => id in s.execs && s.execs[id].phase.Prompted?
    case AbortAsk(id) => id in s.execs && s.execs[id].phase.Prompted? && s.execs[id].aborted
    case Throw(id) => id in s.execs && MayThrow(s.execs[id].phase)
    case Resume(id) => id in s.execs && s.execs[id].phase.Approved?
    case Deny(id) => id in s.execs && s.execs[id].phase.Denied?
    case Timeout(id) => id in s.execs && TimerRuns(s.execs[id].phase)
    case Finish(id, _) => id in s.execs && s.execs[id].phase.Working?
    case Resolve(id) => id in s.execs && s.execs[id].phase.Worked?
    case Release(id) => id in s.execs && s.execs[id].phase.Resolved?
    case Cancel(_, _) => true
  }

  function Put(s: State, id: nat, x: Exec): State {
    s.(execs := s.execs[id := x])
  }

  function Move(s: State, id: nat, p: Phase): State
    requires id in s.execs
  {
    Put(s, id, s.execs[id].(phase := p))
  }

  function WithStatus(s: State, id: nat, status: Status): State
    requires id in s.execs
  {
    s.(records := s.records[s.execs[id].task := TaskRecord(status, s.execs[id].tenantId)])
  }

  /** The duplicate check at the top of executeTask. */
  predicate Duplicate(s: State, task: string) {
    task in s.records && s.records[task].status == Running
  }

  function ClosePrompt(s: State, id: nat): State
    requires id in s.execs
  {
    s.(prompts := s.prompts - {s.execs[id].task})
  }

  /** The deterministic resolution of cancellation, timeout, error and success. */
  function Verdict(s: State, id: nat): Outcome
    requires id in s.execs && s.execs[id].phase.Worked?
  {
    var x := s.execs[id];
    if (x.task in s.records && s.records[x.task].status == Canceled) || (x.aborted && !x.timedOut) then Cancellation
    else if x.timedOut || x.phase.error then Failure
    else Success
  }

  function StatusOf(o: Outcome): Status {
    match o
    case Success => Completed
    case Cancellation => Canceled
    case _ => Failed
  }

  /** The second argument of cancelTask names a tenant when it contains a dash; otherwise it is a reason. */
  function TargetTenant(tenantIdOrReason: string): string {
    if '-' in tenantIdOrReason then tenantIdOrReason else ""
  }

  predicate IsOpen(status: Status) {
    status == Running || status == AwaitingApproval
  }

  /** cancelTask returns true. */
  predicate CancelSucceeds(s: State, task: string, tenantId: string) {
    && task in s.records
    && (tenantId != "" ==> s.records[task].tenantId == tenantId)
    && IsOpen(s.records[task].status)
  }

  function CancelTask(s: State, task: string, tenantId: string): State {
    if !CancelSucceeds(s, task, tenantId) then s
    else
      s.(records := s.records[task := TaskRecord(Canceled, s.records[task].tenantId)],
         canceled := s.canceled + {task},
         prompts := s.prompts - {task},
         execs := map id | id in s.execs ::
           if task in s.controllers && s.controllers[task] == id then s.execs[id].(aborted := true) else s.execs[id])
  }

  function Step(s: State, e: Event): State
    requires Enabled(s, e)
  {
    match e
    case Arrive(id, task, tenantId, needsApproval) =>
      Put(s, id, Exec(task, tenantId, needsApproval, if Duplicate(s, task) then Ended(Refusal) else Arrived, false, false))
    case Reject(id) => Move(s, id, Ended(Refusal))
    case Reserve(id) =>
      if s.activeCount >= MAX_CONCURRENCY then Move(s, id, Ended(Refusal))
      else Move(s.(activeCount := s.activeCount + 1), id, Reserved)
    case Mark(id) => WithStatus(Move(s, id, Marked), id, Running)
    case Arm(id) => Move(s.(controllers := s.controllers[s.execs[id].task := id]), id, Armed)
    case NoHost(id) => Move(s, id, Resolved(Refusal))
    case Begin(id) => Move(s, id, Working)
    case Ask(id) => WithStatus(Move(s, id, Asking), id, AwaitingApproval)
    case Present(id) => Move(s.(prompts := s.prompts[s.execs[id].task := id]), id, Prompted)
    case Decide(id, allow) => Move(ClosePrompt(s, id), id, if allow then Approved else Denied)
    case AbortAsk(id) => Move(ClosePrompt(s, id), id, Resolved(if s.execs[id].timedOut then Failure else Cancellation))
    case Resume(id) => WithStatus(Move(s, id, Working), id, Running)
    case Deny(id) => WithStatus(Move(s, id, Resolved(Refusal)), id, Failed)
    case Throw(id) => Move(if s.execs[id].phase.Prompted? then ClosePrompt(s, id) else s, id, Resolved(Crash))
    case Timeout(id) => Put(s, id, s.execs[id].(timedOut := true, aborted := true))
    case Finish(id, error) => Move(s.(controllers := s.controllers - {s.execs[id].task}), id, Worked(error))
    case Resolve(id) => WithStatus(Move(s, id, Resolved(Verdict(s, id))), id, StatusOf(Verdict(s, id)))
    case Release(id) =>
      Move(s.(activeCount := if s.activeCount - 1 < 0 then 0 else s.activeCount - 1), id, Ended(s.execs[id].phase.outcome))
    case Cancel(task, tenantId) => CancelTask(s, task, tenantId)
  }

  predicate CanRun(s: State, events: seq<Event>)
    decreases |events|
  {
    events == [] || (Enabled(s, events[0]) && CanRun(Step(s, events[0]), events[1..]))
  }

  function Run(s: State, events: seq<Event>): State
    requires CanRun(s, events)
    decreases |events|
  {
    if events == [] then s else Run(Step(s, events[0]), events[1..])
  }

  // ---- Slots ----

  function Holders(s: State): set<nat> {
    set id | id in s.execs && Holds(s.execs[id].phase)
  }

  /** activeCount counts the executions that hold a reservation, and there are at most five. */
  ghost predicate SlotInv(s: State) {
    s.activeCount == |Holders(s)| && s.activeCount <= MAX_CONCURRENCY
  }

  lemma SameHolders(s: State, s': State)
    requires s'.execs.Keys == s.execs.Keys
    requires forall id :: id in s.execs ==> (Holds(s'.execs[id].phase) <==> Holds(s.execs[id].phase))
    ensures Holders(s') == Holders(s)
  {
  }

  lemma ReserveSlot(s: State, id: nat)
    requires SlotInv(s) && id in s.execs && s.execs[id].phase.Arrived?
    ensures SlotInv(Step(s, Reserve(id)))
  {
    if s.activeCount >= MAX_CONCURRENCY {
      SameHolders(s, Step(s, Reserve(id)));
    } else {
      OneMoreHolder(s, Step(s, Reserve(id)), id);
    }
  }

  lemma OneMoreHolder(s: State, s': State, id: nat)
    requires s'.execs.Keys == s.execs.Keys && id in s.execs && !Holds(s.execs[id].phase) && Holds(s'.execs[id].phase)
    requires forall other :: other in s.execs && other != id ==> s'.execs[other] == s.execs[other]
    ensures |Holders(s')| == |Holders(s)| + 1
  {
    assert Holders(s') == Holders(s) + {id};
  }

  lemma ReleaseSlot(s: State, id: nat)
    requires SlotInv(s) && id in s.execs && s.execs[id].phase.Resolved?
    ensures SlotInv(Step(s, Release(id))) && s.activeCount >= 1
  {
    assert id in Holders(s);
    assert Holders(Step(s, Release(id))) == Holders(s) - {id};
  }

  lemma ArriveSlot(s: State, e: Event)
    requires SlotInv(s) && e.Arrive? && Enabled(s, e)
    ensures SlotInv(Step(s, e))
  {
    assert Holders(Step(s, e)) == Holders(s);
  }

  lemma MoveSlot(s: State, e: Event)
    requires SlotInv(s) && Enabled(s, e)
    requires !e.Reserve? && !e.Release? && !e.Arrive? && !e.Cancel?
    ensures SlotInv(Step(s, e))
  {
    var s' := Step(s, e);
    MoveFrame(s, e);
    MoveHolds(s, e);
    SameHolders(s, s');
  }

  lemma MoveFrame(s: State, e: Event)
    requires Enabled(s, e)
    requires !e.Reserve? && !e.Release? && !e.Arrive? && !e.Cancel?
    ensures var s' := Step(s, e);
      && s'.activeCount == s.activeCount && s'.execs.Keys == s.execs.Keys
      && forall id :: id in s.execs && id != e.id ==> s'.execs[id] == s.execs[id]
  {
  }

  lemma MoveHolds(s: State, e: Event)
    requires Enabled(s, e)
    requires !e.Reserve? && !e.Release? && !e.Arrive? && !e.Cancel?
    ensures var s' := Step(s, e);
      e.id in s.execs && e.id in s'.execs && (Holds(s'.execs[e.id].phase) <==> Holds(s.execs[e.id].phase))
  {
  }

  lemma SlotStep(s: State, e: Event)
    requires SlotInv(s) && Enabled(s, e)
    ensures SlotInv(Step(s, e))
    ensures e.Release? ==> s.activeCount >= 1
  {
    if e.Reserve? {
      ReserveSlot(s, e.id);
    } else if e.Release? {
      ReleaseSlot(s, e.id);
    } else if e.Arrive? {
      ArriveSlot(s, e);
    } else if e.Cancel? {
      SameHolders(s, Step(s, e));
    } else {
      MoveSlot(s, e);
    }
  }

  /** On every interleaving activeCount is exact and at most 5; the clamp at 0 never takes effect. */
  lemma {:induction false} SlotsAreExact(s: State, events: seq<Event>)
    requires SlotInv(s) && CanRun(s, events)
    ensures SlotInv(Run(s, events)) && Run(s, events).activeCount <= 5
    ensures forall k :: 0 <= k < |events| && events[k].Release? && CanRun(s, events[..k]) ==> Run(s, events[..k]).activeCount >= 1
    decreases |events|
  {
    if events != [] {
      SlotStep(s, events[0]);
      var s', rest := Step(s, events[0]), events[1..];
      SlotsAreExact(s', rest);
      forall k | 0 <= k < |events| && events[k].Release? && CanRun(s, events[..k])
        ensures Run(s, events[..k]).activeCount >= 1
      {
        if k > 0 {
          assert events[..k][1..] == rest[..k - 1];
          assert rest[k - 1] == events[k];
        }
      }
    }
  }

  /** Which outcome the last critical section settles on: a cancel before a timeout, a timeout before an error. */
  lemma VerdictMeaning(s: State, id: nat)
    requires id in s.execs && s.execs[id].phase.Worked?
    ensures var x := s.execs[id];
      var canceled := x.task in s.records && s.records[x.task].status == Canceled;
      && (Verdict(s, id) == Cancellation <==> canceled || (x.aborted && !x.timedOut))
      && (Verdict(s, id) == Success <==> !canceled && !x.aborted && !x.timedOut && !x.phase.error)
      && Verdict(s, id) in {Cancellation, Failure, Success}
  {
  }

  /** What each step of the approval detour records, and where it leads. */
  lemma DetourMeaning(s: State, e: Event)
    requires Enabled(s, e) && (e.Ask? || e.Decide? || e.AbortAsk? || e.Resume? || e.Deny?)
    ensures var x, s' := s.execs[e.id], Step(s, e);
      && e.id in s'.execs
      && match e
         case Ask(id) => s'.records == s.records[x.task := TaskRecord(AwaitingApproval, x.tenantId)] && s'.execs[id].phase == Asking
         case Decide(id, allow) => s'.records == s.records && (if allow then s'.execs[id].phase == Approved else s'.execs[id].phase == Denied)
         case AbortAsk(id) => s'.records == s.records && (if x.timedOut then EndsWith(s'.execs[id].phase, Failure) else EndsWith(s'.execs[id].phase, Cancellation))
         case Resume(id) => s'.records == s.records[x.task := TaskRecord(Running, x.tenantId)] && s'.execs[id].phase == Working
         case _ => s'.records == s.records[x.task := TaskRecord(Failed, x.tenantId)] && s'.execs[e.id].phase == Resolved(Refusal)
  {
  }

  /** The last critical section records what it settles on. */
  lemma OutcomeIsRecorded(s: State, id: nat)
    requires Enabled(s, Resolve(id))
    ensures var x, s' := s.execs[id], Step(s, Resolve(id));
      && id in s'.execs && x.task in s'.records
      && (s'.execs[id].phase == Resolved(Success) <==> s'.records[x.task] == TaskRecord(Completed, x.tenantId))
      && (s'.execs[id].phase == Resolved(Failure) <==> s'.records[x.task] == TaskRecord(Failed, x.tenantId))
      && (s'.execs[id].phase == Resolved(Cancellation) <==> s'.records[x.task] == TaskRecord(Canceled, x.tenantId))
  {
  }

  /** A reservation is taken below five holders, and refused at five. */
  lemma ReservationMeaning(s: State, id: nat)
    requires SlotInv(s) && id in s.execs && s.execs[id].phase.Arrived?
    ensures var s' := Step(s, Reserve(id));
      id in s'.execs && s'.execs[id].phase == if |Holders(s)| < 5 then Reserved else Ended(Refusal)
  {
  }

  /** A call for a task that is recorded as running is refused on arrival; any other goes on to validation. */
  lemma DuplicateIsRefused(s: State, id: nat, task: string, tenantId: string, needsApproval: bool)
    requires id !in s.execs
    ensures var s' := Step(s, Arrive(id, task, tenantId, needsApproval));
      id in s'.execs && s'.execs[id].phase ==
        if task in s.records && s.records[task].status == Running then Ended(Refusal) else Arrived
  {
  }

  // ---- Cancel against complete ----

  /** The only execution that ever named its task. */
  predicate Solo(s: State, id: nat) {
    id in s.execs && forall other :: other in s.execs && s.execs[other].task == s.execs[id].task ==> other == id
  }

  function Tasks(s: State): set<string> {
    set id | id in s.execs :: s.execs[id].task
  }

  /** Every entry of the shared maps belongs to a task that some execution named. */
  ghost predicate KnownTasks(s: State) {
    && s.records.Keys <= Tasks(s) && s.canceled <= Tasks(s)
    && forall t :: t in s.controllers ==> s.controllers[t] in s.execs && s.execs[s.controllers[t]].task == t
  }

  /** What is recorded under the task id of a solo execution x, and how x can still end. */
  ghost predicate Sound(x: Exec, record: Option<TaskRecord>, controller: Option<nat>, canceled: bool, id: nat) {
    && (x.phase.Arrived? || x.phase.Reserved? ==> record.None? && !canceled)
    && (x.phase.Arrived? || x.phase.Reserved? || x.phase.Marked? ==> !x.aborted && !x.timedOut)
    && (x.phase.Arrived? || x.phase.Reserved? || x.phase.Marked? || x.phase.Worked? ==> controller.None?)
    && (TimerRuns(x.phase) ==> controller == Some(id))
    && (x.phase.Marked? || TimerRuns(x.phase) || x.phase.Worked? ==> record.Some?)
    && (record.Some? ==> record.value.tenantId == x.tenantId)
    && (x.aborted ==> !EndsWith(x.phase, Success))
    && (EndsWith(x.phase, Success) ==> record.Some? && record.value.status == Completed)
    && (!x.needsApproval ==> PlainSound(x.phase, record, canceled))
  }

  /** Without an approval detour the record is Running or Canceled until the outcome is recorded. */
  ghost predicate PlainSound(p: Phase, record: Option<TaskRecord>, canceled: bool) {
    && !p.Asking? && !p.Prompted? && !p.Approved? && !p.Denied?
    && (p.Marked? || p.Armed? || p.Working? || p.Worked? || EndsWith(p, Crash) ==>
          record.Some? && record.value.status == if canceled then Canceled else Running)
    && ((p.Resolved? || p.Ended?) && !EndsWith(p, Crash) ==> record.None? || !IsOpen(record.value.status))
  }

  predicate EndsWith(p: Phase, o: Outcome) {
    p == Resolved(o) || p == Ended(o)
  }

  function Lookup<K, V>(m: map<K, V>, k: K): Option<V> {
    if k in m then Some(m[k]) else None
  }

  ghost predicate SoloInv(s: State, id: nat)
    requires id in s.execs
  {
    var x := s.execs[id];
    Sound(x, Lookup(s.records, x.task), Lookup(s.controllers, x.task), x.task in s.canceled, id)
  }

  ghost predicate Inv(s: State) {
    KnownTasks(s) && forall id :: Solo(s, id) ==> SoloInv(s, id)
  }

  /** Executions come and never go, and keep their task. */
  lemma TasksStay(s: State, e: Event)
    requires Enabled(s, e)
    ensures forall id :: id in s.execs ==> id in Step(s, e).execs && Step(s, e).execs[id].task == s.execs[id].task
    ensures Tasks(s) <= Tasks(Step(s, e))
  {
    var s' := Step(s, e);
    assert forall id :: id in s.execs ==> id in s'.execs && s'.execs[id].task == s.execs[id].task;
    forall task | task in Tasks(s) ensures task in Tasks(s') {
      var id :| id in s.execs && s.execs[id].task == task;
      assert s'.execs[id].task == task;
    }
  }

  lemma RecordsKnown(s: State, e: Event)
    requires KnownTasks(s) && Enabled(s, e)
    ensures var s' := Step(s, e); s'.records.Keys <= Tasks(s') && s'.canceled <= Tasks(s')
  {
    TasksStay(s, e);
    NoNewTasks(s, e);
  }

  lemma NoNewTasks(s: State, e: Event)
    requires KnownTasks(s) && Enabled(s, e)
    ensures var s' := Step(s, e); s'.records.Keys <= Tasks(s) && s'.canceled <= Tasks(s)
  {
    if Actor(e).Some? && !e.Arrive? {
      assert s.execs[e.id].task in Tasks(s);
    }
  }

  lemma ControllersKnown(s: State, e: Event)
    requires KnownTasks(s) && Enabled(s, e)
    ensures var s' := Step(s, e);
      forall t :: t in s'.controllers ==> s'.controllers[t] in s'.execs && s'.execs[s'.controllers[t]].task == t
  {
    TasksStay(s, e);
    if !e.Arm? {
      assert forall t :: t in Step(s, e).controllers ==> t in s.controllers && Step(s, e).controllers[t] == s.controllers[t];
    }
  }

  lemma KnownStep(s: State, e: Event)
    requires KnownTasks(s) && Enabled(s, e)
    ensures KnownTasks(Step(s, e))
  {
    RecordsKnown(s, e);
    ControllersKnown(s, e);
  }

  /** The execution an event belongs to, if any. */
  function Actor(e: Event): Option<nat> {
    match e
    case Cancel(_, _) => None
    case _ => Some(e.id)
  }

  /** An event of another execution leaves a solo execution and its task alone. */
  lemma OthersKeepOut(s: State, e: Event, id: nat)
    requires Enabled(s, e) && id in s.execs && Actor(e).Some? && Actor(e).value != id
    requires Solo(Step(s, e), id)
    ensures var s', t := Step(s, e), s.execs[id].task;
      && s'.execs[id] == s.execs[id]
      && Lookup(s'.records, t) == Lookup(s.records, t)
      && Lookup(s'.controllers, t) == Lookup(s.controllers, t)
      && s'.canceled == s.canceled
  {
    assert Actor(e).value in Step(s, e).execs;
  }

  predicate IsEarly(e: Event) {
    e.Reject? || e.Reserve? || e.Mark? || e.Arm? || e.Begin? || e.Ask?
  }

  lemma EarlyStep(s: State, e: Event, id: nat)
    requires Enabled(s, e) && IsEarly(e) && e.id == id && id in s.execs && SoloInv(s, id)
    ensures SoloInv(Step(s, e), id)
  {
  }

  predicate IsDetour(e: Event) {
    e.Present? || e.Decide? || e.AbortAsk? || e.Resume? || e.Deny?
  }

  lemma DetourStep(s: State, e: Event, id: nat)
    requires Enabled(s, e) && IsDetour(e) && e.id == id && id in s.execs && SoloInv(s, id)
    ensures SoloInv(Step(s, e), id)
  {
  }

  lemma LateStep(s: State, e: Event, id: nat)
    requires Enabled(s, e) && !IsEarly(e) && !IsDetour(e) && !e.Arrive? && !e.Cancel? && !e.Resolve? && e.id == id && id in s.execs && SoloInv(s, id)
    ensures SoloInv(Step(s, e), id)
  {
  }

  lemma ResolveStep(s: State, id: nat)
    requires Enabled(s, Resolve(id)) && SoloInv(s, id)
    ensures SoloInv(Step(s, Resolve(id)), id)
  {
  }

  lemma CancelStep(s: State, task: string, tenantId: string, id: nat)
    requires KnownTasks(s) && id in s.execs && SoloInv(s, id)
    ensures SoloInv(CancelTask(s, task, tenantId), id)
  {
  }

  lemma ArriveStep(s: State, e: Event)
    requires Enabled(s, e) && e.Arrive? && KnownTasks(s) && Solo(Step(s, e), e.id)
    ensures SoloInv(Step(s, e), e.id)
  {
    forall other | other in s.execs ensures s.execs[other].task != e.task {
      assert Step(s, e).execs[other] == s.execs[other];
    }
    assert e.task !in Tasks(s);
  }

  lemma SoloBefore(s: State, e: Event, id: nat)
    requires Enabled(s, e) && Solo(Step(s, e), id) && id in s.execs
    ensures Solo(s, id) && Step(s, e).execs[id].task == s.execs[id].task
  {
    TasksStay(s, e);
  }

  lemma StepKeepsInv(s: State, e: Event)
    requires Inv(s) && Enabled(s, e)
    ensures Inv(Step(s, e))
  {
    KnownStep(s, e);
    var s' := Step(s, e);
    forall id | Solo(s', id) ensures SoloInv(s', id) {
      if id !in s.execs {
        ArriveStep(s, e);
      } else {
        SoloBefore(s, e, id);
        if e.Cancel? {
          CancelStep(s, e.task, e.tenantId, id);
        } else if e.id == id {
          if IsEarly(e) {
            EarlyStep(s, e, id);
          } else if IsDetour(e) {
            DetourStep(s, e, id);
          } else if e.Resolve? {
            ResolveStep(s, id);
          } else {
            LateStep(s, e, id);
          }
        } else {
          OthersKeepOut(s, e, id);
        }
      }
    }
  }

  lemma {:induction false} RunKeepsInv(s: State, events: seq<Event>)
    requires Inv(s) && CanRun(s, events)
    ensures Inv(Run(s, events))
    decreases |events|
  {
    if events != [] {
      StepKeepsInv(s, events[0]);
      RunKeepsInv(Step(s, events[0]), events[1..]);
    }
  }

  // ---- The orchestrator's own fields ----

  /** The shared fields; `execs` stands for the suspended executeTask calls. */
  class AgentOrchestrator {
    var activeCount: int
    var taskStateMap: map<string, TaskRecord>
    var activeCancellations: map<string, nat>
    var taskPendingPrompts: map<string, nat>
    ghost var execs: map<nat, Exec>
    ghost var canceled: set<string>

    constructor ()
      ensures View() == INITIAL
    {
      activeCount, taskStateMap, activeCancellations, taskPendingPrompts := 0, map[], map[], map[];
      execs, canceled := map[], {};
    }

    ghost function View(): State
      reads this
    {
      State(activeCount, taskStateMap, execs, activeCancellations, taskPendingPrompts, canceled)
    }

    /** The synchronous check-and-increment before anything else is awaited. */
    method TryReserve(id: nat) returns (ok: bool)
      requires Enabled(View(), Reserve(id)) && SlotInv(View())
      modifies this`activeCount, this`execs
      ensures View() == Step(old(View()), Reserve(id)) && SlotInv(View())
      ensures ok <==> |Holders(old(View()))| < MAX_CONCURRENCY
    {
      ReserveSlot(View(), id);
      if activeCount >= MAX_CONCURRENCY {
        execs := execs[id := execs[id].(phase := Ended(Refusal))];
        return false;
      }
      activeCount := activeCount + 1;
      execs := execs[id := execs[id].(phase := Reserved)];
      return true;
    }

    /** The finally block. */
    method ReleaseReservation(id: nat)
      requires Enabled(View(), Release(id)) && SlotInv(View())
      modifies this`activeCount, this`execs
      ensures View() == Step(old(View()), Release(id)) && SlotInv(View())
      ensures activeCount == old(activeCount) - 1
    {
      ReleaseSlot(View(), id);
      activeCount := if activeCount - 1 < 0 then 0 else activeCount - 1;
      execs := execs[id := execs[id].(phase := Ended(execs[id].phase.outcome))];
    }

    /** Answers whether the cancel took effect, and which open approval prompt is to be cancelled with it. */
    method CancelTask(taskId: string, tenantIdOrReason: string) returns (ok: bool, prompt: Option<nat>)
      modifies this`taskStateMap, this`taskPendingPrompts, this`execs, this`canceled
      ensures View() == Step(old(View()), Cancel(taskId, TargetTenant(tenantIdOrReason)))
      ensures ok <==> CancelSucceeds(old(View()), taskId, TargetTenant(tenantIdOrReason))
      ensures prompt == if ok then Lookup(old(taskPendingPrompts), taskId) else None
    {
      var tenantId := if '-' in tenantIdOrReason then tenantIdOrReason else "";
      ghost var s := View();
      prompt := None;
      if taskId !in taskStateMap {
        return false, None;
      }
      var record := taskStateMap[taskId];
      if tenantId != "" && record.tenantId != tenantId {
        return false, None;
      }
      if record.status == Completed || record.status == Failed || record.status == Canceled {
        return false, None;
      }
      taskStateMap := taskStateMap[taskId := TaskRecord(Canceled, record.tenantId)];
      execs := Step(s, Cancel(taskId, tenantId)).execs;
      canceled := canceled + {taskId};
      if taskId in taskPendingPrompts {
        prompt := Some(taskPendingPrompts[taskId]);
        taskPendingPrompts := taskPendingPrompts - {taskId};
      }
      assert taskPendingPrompts == s.prompts - {taskId};
      ok := true;
    }

    /** The last critical section: decides between canceled, timed out, failed and completed. */
    method ResolveTask(id: nat, task: string, tenantId: string, aborted: bool, timedOut: bool, error: bool) returns (outcome: Outcome)
      requires Enabled(View(), Resolve(id))
      requires var x := execs[id]; x.task == task && x.tenantId == tenantId && x.aborted == aborted && x.timedOut == timedOut && x.phase.error == error
      modifies this`taskStateMap, this`execs
      ensures View() == Step(old(View()), Resolve(id))
      ensures outcome == Verdict(old(View()), id)
      ensures outcome == Success <==>
        !error && !timedOut && !aborted && !(task in old(taskStateMap) && old(taskStateMap)[task].status == Canceled)
      ensures outcome == Failure ==> error || timedOut
      ensures aborted && !timedOut ==> outcome == Cancellation
    {
      var isCanceled := (task in taskStateMap && taskStateMap[task].status == Canceled) || (aborted && !timedOut);
      if isCanceled {
        outcome := Cancellation;
      } else if timedOut {
        outcome := Failure;
      } else if error {
        outcome := Failure;
      } else {
        outcome := Success;
      }
      taskStateMap := taskStateMap[task := TaskRecord(StatusOf(outcome), tenantId)];
      execs := execs[id := execs[id].(phase := Resolved(outcome))];
    }
  }
}
