// cancelTask against executeTask: what a cancel that succeeds rules out, and when an execution
// that has ended can still be cancelled.
module CancelRace {
  import opened Collections
  import opened TaskExecution

  /** The only execution of a task id ends with success after some continuation in which it stays the only one. */
  ghost predicate CanSucceed(s: State, id: nat) {
    exists events :: CanRun(s, events) && Solo(Run(s, events), id) && Run(s, events).execs[id].phase == Ended(Success)
  }

  /** Aborted, or past every step that would overwrite a Canceled record, or ended otherwise. */
  predicate Doomed(x: Exec, record: Option<TaskRecord>) {
    || x.aborted
    || (record.Some? && record.value.status == Canceled
        && (x.phase.Worked? || (!x.needsApproval && (x.phase.Marked? || x.phase.Armed? || x.phase.Working?))))
    || ((x.phase.Resolved? || x.phase.Ended?) && x.phase.outcome != Success)
  }

  predicate DoomedIn(s: State, id: nat)
    requires id in s.execs
  {
    Doomed(s.execs[id], Lookup(s.records, s.execs[id].task))
  }

  lemma DoomedByOwnStep(s: State, e: Event, id: nat)
    requires Enabled(s, e) && !e.Cancel? && e.id == id && id in s.execs && SoloInv(s, id) && DoomedIn(s, id)
    ensures DoomedIn(Step(s, e), id)
  {
  }

  lemma DoomedByCancel(s: State, task: string, tenantId: string, id: nat)
    requires id in s.execs && DoomedIn(s, id)
    ensures DoomedIn(CancelTask(s, task, tenantId), id)
  {
  }

  lemma DoomedStep(s: State, e: Event, id: nat)
    requires Inv(s) && Enabled(s, e) && Solo(Step(s, e), id) && id in s.execs && DoomedIn(s, id)
    ensures DoomedIn(Step(s, e), id)
  {
    SoloBefore(s, e, id);
    if e.Cancel? {
      DoomedByCancel(s, e.task, e.tenantId, id);
    } else if e.id == id {
      DoomedByOwnStep(s, e, id);
    } else {
      OthersKeepOut(s, e, id);
    }
  }

  lemma {:induction false} SoloFromEnd(s: State, events: seq<Event>, id: nat)
    requires CanRun(s, events) && Solo(Run(s, events), id) && id in s.execs
    ensures Solo(s, id)
    decreases |events|
  {
    if events != [] {
      TasksStay(s, events[0]);
      SoloFromEnd(Step(s, events[0]), events[1..], id);
      SoloBefore(s, events[0], id);
    }
  }

  lemma {:induction false} DoomedRun(s: State, events: seq<Event>, id: nat)
    requires Inv(s) && CanRun(s, events) && Solo(Run(s, events), id) && id in s.execs && DoomedIn(s, id)
    ensures Run(s, events).execs[id].phase != Ended(Success)
    decreases |events|
  {
    SoloFromEnd(s, events, id);
    if events == [] {
      assert SoloInv(s, id);
    } else {
      var s' := Step(s, events[0]);
      TasksStay(s, events[0]);
      SoloFromEnd(s', events[1..], id);
      StepKeepsInv(s, events[0]);
      DoomedStep(s, events[0], id);
      DoomedRun(s', events[1..], id);
    }
  }

  /** One more event in front of a continuation that succeeds. */
  lemma Prepend(s: State, e: Event, id: nat)
    requires Enabled(s, e) && CanSucceed(Step(s, e), id)
    ensures CanSucceed(s, id)
  {
    var rest :| CanRun(Step(s, e), rest) && Solo(Run(Step(s, e), rest), id) && Run(Step(s, e), rest).execs[id].phase == Ended(Success);
    var events := [e] + rest;
    assert events[1..] == rest;
    assert CanRun(s, events) && Run(s, events) == Run(Step(s, e), rest);
  }

  /** The execution x is the only one of its task, in the given phase, and nothing has aborted it. */
  predicate OnCourse(s: State, id: nat, p: Phase) {
    Solo(s, id) && s.execs[id].phase == p && !s.execs[id].aborted && !s.execs[id].timedOut
  }

  lemma OwnStepKeepsSolo(s: State, e: Event, id: nat)
    requires Enabled(s, e) && Solo(s, id) && Actor(e) == Some(id)
    ensures Solo(Step(s, e), id)
  {
    TasksStay(s, e);
    assert Step(s, e).execs.Keys == s.execs.Keys;
  }

  lemma WorkedSucceeds(s: State, id: nat)
    requires OnCourse(s, id, Worked(false)) && Lookup(s.records, s.execs[id].task) == Some(TaskRecord(Running, s.execs[id].tenantId))
    ensures CanSucceed(s, id)
  {
    var t := Step(s, Resolve(id));
    OwnStepKeepsSolo(s, Resolve(id), id);
    OwnStepKeepsSolo(t, Release(id), id);
    assert CanRun(Step(t, Release(id)), []) && Run(Step(t, Release(id)), []).execs[id].phase == Ended(Success);
    Prepend(t, Release(id), id);
    Prepend(s, Resolve(id), id);
  }

  lemma ApprovedSucceeds(s: State, id: nat)
    requires OnCourse(s, id, Approved)
    ensures CanSucceed(s, id)
  {
    var t := Step(s, Resume(id));
    OwnStepKeepsSolo(s, Resume(id), id);
    OwnStepKeepsSolo(t, Finish(id, false), id);
    WorkedSucceeds(Step(t, Finish(id, false)), id);
    Prepend(t, Finish(id, false), id);
    Prepend(s, Resume(id), id);
  }

  lemma ArmedSucceeds(s: State, id: nat)
    requires OnCourse(s, id, Armed) && s.execs[id].needsApproval
    ensures CanSucceed(s, id)
  {
    var t := Step(s, Ask(id));
    var u := Step(t, Present(id));
    OwnStepKeepsSolo(s, Ask(id), id);
    OwnStepKeepsSolo(t, Present(id), id);
    OwnStepKeepsSolo(u, Decide(id, true), id);
    ApprovedSucceeds(Step(u, Decide(id, true)), id);
    Prepend(u, Decide(id, true), id);
    Prepend(t, Present(id), id);
    Prepend(s, Ask(id), id);
  }

  /** Whatever the record says: the approval detour overwrites it. */
  lemma MarkedSucceeds(s: State, id: nat)
    requires OnCourse(s, id, Marked) && s.execs[id].needsApproval
    ensures CanSucceed(s, id)
  {
    OwnStepKeepsSolo(s, Arm(id), id);
    ArmedSucceeds(Step(s, Arm(id)), id);
    Prepend(s, Arm(id), id);
  }

  /**
   * Cancel against complete, exactly. At any point of any run, let cancelTask succeed for a task
   * with one execution. That execution can still end with success if and only if it is writing its
   * first checkpoint (no abort controller installed) and will take the approval detour.
   */
  lemma CancelRulesOutCompleted(events: seq<Event>, id: nat, tenantId: string)
    requires CanRun(INITIAL, events) && Solo(Run(INITIAL, events), id)
    requires CancelSucceeds(Run(INITIAL, events), Run(INITIAL, events).execs[id].task, tenantId)
    ensures var s := Run(INITIAL, events); var x := s.execs[id];
      CanSucceed(Step(s, Cancel(x.task, tenantId)), id) <==> x.phase.Marked? && x.needsApproval
  {
    RunKeepsInv(INITIAL, events);
    var s := Run(INITIAL, events);
    var x := s.execs[id];
    assert SoloInv(s, id);
    var s' := Step(s, Cancel(x.task, tenantId));
    StepKeepsInv(s, Cancel(x.task, tenantId));
    if x.phase.Marked? && x.needsApproval {
      assert OnCourse(s', id, Marked);
      MarkedSucceeds(s', id);
    } else {
      CancelDooms(s, id, tenantId);
      if CanSucceed(s', id) {
        var rest :| CanRun(s', rest) && Solo(Run(s', rest), id) && Run(s', rest).execs[id].phase == Ended(Success);
        DoomedRun(s', rest, id);
        assert false;
      }
    }
  }

  lemma CancelDooms(s: State, id: nat, tenantId: string)
    requires id in s.execs && SoloInv(s, id) && CancelSucceeds(s, s.execs[id].task, tenantId)
    requires !s.execs[id].phase.Marked? || !s.execs[id].needsApproval
    ensures DoomedIn(CancelTask(s, s.execs[id].task, tenantId), id)
  {
  }

  /** Running is recorded and the first checkpoint is being written. */
  lemma MarkedRun(id: nat, task: string, tenantId: string, needsApproval: bool) returns (events: seq<Event>)
    ensures CanRun(INITIAL, events)
    ensures Run(INITIAL, events) ==
      State(1, map[task := TaskRecord(Running, tenantId)], map[id := Exec(task, tenantId, needsApproval, Marked, false, false)], map[], map[], {})
  {
    var x := Exec(task, tenantId, needsApproval, Arrived, false, false);
    var a := State(0, map[], map[id := x], map[], map[], {});
    var b := State(1, map[], map[id := x.(phase := Reserved)], map[], map[], {});
    events := [Arrive(id, task, tenantId, needsApproval), Reserve(id), Mark(id)];
    assert Step(INITIAL, events[0]) == a;
    assert Step(a, events[1]) == b;
    assert events[3..] == [];
    RunBack(b, events, 2);
    RunBack(a, events, 1);
    RunBack(INITIAL, events, 0);
    assert events[0..] == events;
  }

  lemma RunBack(s: State, events: seq<Event>, k: nat)
    requires k < |events| && Enabled(s, events[k]) && CanRun(Step(s, events[k]), events[k + 1..])
    ensures CanRun(s, events[k..]) && Run(s, events[k..]) == Run(Step(s, events[k]), events[k + 1..])
  {
    assert events[k..][1..] == events[k + 1..];
  }

  lemma TwoSteps(s: State, e: Event, f: Event)
    requires Enabled(s, e) && Enabled(Step(s, e), f)
    ensures CanRun(s, [e, f]) && Run(s, [e, f]) == Step(Step(s, e), f)
  {
    assert [e, f][2..] == [];
    RunBack(Step(s, e), [e, f], 1);
    RunBack(s, [e, f], 0);
    assert [e, f][0..] == [e, f];
  }

  /** Running, not aborted, and without an approval detour. */
  predicate PlainIn(s: State, id: nat, task: string, tenantId: string, p: Phase) {
    && id in s.execs && s.execs[id] == Exec(task, tenantId, false, p, false, false)
    && task in s.records && s.records[task] == TaskRecord(Running, tenantId)
  }

  lemma MarkedWorks(s: State, id: nat, task: string, tenantId: string)
    requires PlainIn(s, id, task, tenantId, Marked)
    ensures CanRun(s, [Arm(id), Begin(id)]) && PlainIn(Run(s, [Arm(id), Begin(id)]), id, task, tenantId, Working)
  {
    TwoSteps(s, Arm(id), Begin(id));
  }

  lemma WorkingFinishes(s: State, id: nat, task: string, tenantId: string)
    requires PlainIn(s, id, task, tenantId, Working)
    ensures CanRun(s, [Finish(id, false), Resolve(id)]) && CompletedFor(Run(s, [Finish(id, false), Resolve(id)]), id, task, tenantId)
  {
    TwoSteps(s, Finish(id, false), Resolve(id));
  }

  /** Left alone, an execution that needs no approval completes: for every execution, task and tenant. */
  lemma PlainExecutionSucceeds(id: nat, task: string, tenantId: string)
    ensures exists events :: CanRun(INITIAL, events) && CompletedFor(Run(INITIAL, events), id, task, tenantId)
  {
    var first := MarkedRun(id, task, tenantId, false);
    var start, end := [Arm(id), Begin(id)], [Finish(id, false), Resolve(id)];
    MarkedWorks(Run(INITIAL, first), id, task, tenantId);
    RunConcat(INITIAL, first, start);
    WorkingFinishes(Run(INITIAL, first + start), id, task, tenantId);
    RunConcat(INITIAL, first + start, end);
    assert CanRun(INITIAL, first + start + end);
  }

  predicate CompletedFor(s: State, id: nat, task: string, tenantId: string) {
    && id in s.execs && s.execs[id].task == task && !s.execs[id].needsApproval && s.execs[id].phase == Resolved(Success)
    && task in s.records && s.records[task] == TaskRecord(Completed, tenantId)
  }

  /** The same, and then cancelTask succeeds. */
  lemma CanceledRun(id: nat, task: string, tenantId: string) returns (events: seq<Event>)
    ensures CanRun(INITIAL, events)
    ensures var t := Run(INITIAL, events);
      OnCourse(t, id, Marked) && t.execs[id].needsApproval && t.execs[id].task == task && task in t.canceled
  {
    var first := MarkedRun(id, task, tenantId, true);
    var s, e := Run(INITIAL, first), Cancel(task, "");
    assert CanRun(Step(s, e), []) && Run(Step(s, e), []) == Step(s, e);
    assert [e][1..] == [];
    RunConcat(INITIAL, first, [e]);
    events := first + [e];
  }

  /** The exception is real: such a run exists for every execution, task and tenant. */
  lemma ApprovalCanOverwriteCancel(id: nat, task: string, tenantId: string)
    ensures exists events :: CanRun(INITIAL, events) && CompletedDespiteCancel(Run(INITIAL, events), id, task)
  {
    var canceled := CanceledRun(id, task, tenantId);
    var t := Run(INITIAL, canceled);
    MarkedSucceeds(t, id);
    var rest :| CanRun(t, rest) && Solo(Run(t, rest), id) && Run(t, rest).execs[id].phase == Ended(Success);
    CanceledStays(t, rest, id);
    RunConcat(INITIAL, canceled, rest);
    assert CanRun(INITIAL, canceled + rest);
  }

  predicate CompletedDespiteCancel(s: State, id: nat, task: string) {
    id in s.execs && s.execs[id].task == task && s.execs[id].phase == Ended(Success) && task in s.canceled
  }

  lemma {:induction false} CanceledStays(s: State, events: seq<Event>, id: nat)
    requires CanRun(s, events) && id in s.execs
    ensures s.canceled <= Run(s, events).canceled
    ensures id in Run(s, events).execs && Run(s, events).execs[id].task == s.execs[id].task
    decreases |events|
  {
    if events != [] {
      TasksStay(s, events[0]);
      CanceledStays(Step(s, events[0]), events[1..], id);
    }
  }

  /**
   * Once the only execution of a task has ended without an approval detour, cancelTask succeeds
   * exactly when that execution crashed between recording Running and recording its outcome, no
   * cancel came before, and the tenant (if named) is the owner.
   */
  lemma EndedCannotBeCanceled(events: seq<Event>, id: nat, tenantId: string)
    requires CanRun(INITIAL, events) && Solo(Run(INITIAL, events), id)
    requires var x := Run(INITIAL, events).execs[id]; !x.needsApproval && x.phase.Ended?
    ensures var s := Run(INITIAL, events); var x := s.execs[id];
      CancelSucceeds(s, x.task, tenantId) <==>
        x.phase.outcome == Crash && x.task !in s.canceled && (tenantId == "" || tenantId == x.tenantId)
  {
    RunKeepsInv(INITIAL, events);
    assert SoloInv(Run(INITIAL, events), id);
  }

  /** The exception is real: when the first checkpoint write throws, the record stays Running after the end. */
  lemma CrashLeavesCancellable(id: nat, task: string, tenantId: string)
    ensures exists events :: CanRun(INITIAL, events) && EndedYetCancellable(Run(INITIAL, events), id, task)
  {
    var first := MarkedRun(id, task, tenantId, false);
    var s := Run(INITIAL, first);
    var crash := [Throw(id), Release(id)];
    assert crash[2..] == [];
    RunBack(Step(s, Throw(id)), crash, 1);
    RunBack(s, crash, 0);
    assert crash[0..] == crash;
    RunConcat(INITIAL, first, crash);
    assert CanRun(INITIAL, first + crash);
  }

  predicate EndedYetCancellable(s: State, id: nat, task: string) {
    id in s.execs && s.execs[id].task == task && !s.execs[id].needsApproval && s.execs[id].phase.Ended? && CancelSucceeds(s, task, "")
  }

  lemma {:induction false} RunConcat(s: State, first: seq<Event>, second: seq<Event>)
    requires CanRun(s, first) && CanRun(Run(s, first), second)
    ensures CanRun(s, first + second) && Run(s, first + second) == Run(Run(s, first), second)
    decreases |first|
  {
    if first == [] {
      assert first + second == second;
    } else {
      assert (first + second)[1..] == first[1..] + second;
      RunConcat(Step(s, first[0]), first[1..], second);
    }
  }
}
