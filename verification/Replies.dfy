/**
 Who is answered and what is charged: the exact moments at which a finished
 program goes without its answer, and a round without a single time unit.
 */
module Replies {
  import opened Wrappers
  import opened Tasks
  import opened Selection
  import opened SchedulerCore
  import opened Executor
  import opened System
  import opened Invariants
  import opened Accounting
  import opened Theorems
  import opened Liveness

  // ----- replies ----------------------------------------------------------

  /** The round of a program has reported, its return will finish the task, and its client has no answer. */
  predicate FinishesUnanswered(s: State) {
    && Enabled(s, Return) && s.core.current.value.kind.Program?
    && !GoesBack(s.core.current.value, s.thread.phase.result)
    && Ending(s.core.current.value, s.thread.phase.result) == Finished
    && !s.contexts[s.core.current.value.id].done
  }

  /**
   The guard of the branch that does it: the poll behind the last time unit
   finds a preempt request, the child's exit went unnoticed just before, the
   pause drains its output, and no drain had failed earlier.
   */
  predicate YieldsOnLastUnit(s: State, step: Step) {
    && step.Execute? && s.thread.Executing? && s.core.current.Some?
    && var t := s.core.current.value;
       && t.kind.Program? && s.thread.phase.Check?
       && t.remaining == 0 && t.preempt && !t.cancel
       && step.input.drained && t.id !in s.history.undrained
  }

  /** Over every step of every reachable state, that guard and nothing else leaves a finished program unanswered. */
  lemma FinishedIsAnswered(s: State, step: Step)
    requires Reachable(s) && Enabled(s, step)
    ensures !FinishesUnanswered(s) && FinishesUnanswered(Next(s, step)) <==> YieldsOnLastUnit(s, step)
  {
    RepliesAround(s, step);
    if step.Execute? {
      UnansweredExecute(s, step.input);
    } else {
      UnansweredElsewhere(s, step);
    }
  }

  lemma RepliesAround(s: State, step: Step)
    requires Reachable(s) && Enabled(s, step)
    ensures RoundSound(s) && Replied(s) && Conserved(s) && Indexed(s) && Replied(Next(s, step))
  {
    ReachableInv(s);
    RepliedStep(s, step);
  }

  lemma UnansweredExecute(s: State, input: Input)
    requires RoundSound(s) && Replied(s) && Enabled(s, Execute(input)) && Replied(DoExecute(s, input))
    ensures FinishesUnanswered(DoExecute(s, input)) <==> YieldsOnLastUnit(s, Execute(input))
  {
  }

  /** No other step brings it about; a cancellation can only turn the ending into a cancelled one. */
  lemma UnansweredElsewhere(s: State, step: Step)
    requires Enabled(s, step) && !step.Execute? && Conserved(s) && Indexed(s)
    ensures FinishesUnanswered(Next(s, step)) ==> FinishesUnanswered(s)
  {
    IssuedIds(s);
  }

  // ----- replies over whole runs ------------------------------------------

  /** Somewhere in the run the task yields on its last time unit. */
  ghost predicate YieldedOnLastUnit(s: State, steps: seq<Step>, id: int)
    decreases |steps|
  {
    steps != [] && Enabled(s, steps[0])
    && ((YieldsOnLastUnit(s, steps[0]) && s.core.current.value.id == id)
        || YieldedOnLastUnit(Next(s, steps[0]), steps[1..], id))
  }

  /** What it means for the running task that it has, or has not, yielded on its last time unit. */
  ghost predicate TracedRunning(s: State, id: int, yielded: bool) {
    s.core.current.Some? && s.core.current.value.id == id && s.core.current.value.kind.Program?
    && s.thread.Executing? && id in s.contexts ==>
      var t := s.core.current.value;
      if !s.thread.phase.Report? then !yielded
      else
        && (yielded ==> t.remaining == 0)
        && (!t.cancel ==> (yielded <==> s.thread.phase == Report(Requeue) && t.remaining == 0 && !s.contexts[id].done))
  }

  ghost predicate TracedFinished(s: State, id: int, yielded: bool) {
    forall t :: t in s.cleaned && t.id == id && t.kind.Program? && t.state.Finished? ==>
      id in s.contexts && (!s.contexts[id].done <==> yielded)
  }

  /** A task that has yielded so is not queued any more; once finished it is the unanswered one. */
  ghost predicate Traced(s: State, id: int, yielded: bool) {
    && (yielded ==> id < s.core.nextId && forall t :: t in s.core.waiting ==> t.id != id)
    && TracedRunning(s, id, yielded)
    && TracedFinished(s, id, yielded)
  }

  /** What a step adds to the trace of one task. */
  ghost predicate YieldsNow(s: State, step: Step, id: int) {
    YieldsOnLastUnit(s, step) && s.core.current.value.id == id
  }

  lemma CleanedIsNotRunning(s: State)
    requires Conserved(s) && s.core.current.Some?
    ensures forall t :: t in s.cleaned ==> t.id != s.core.current.value.id
  {
    GoneIsNotHeld(s);
    assert s.core.current.value in Held(s.core);
  }

  lemma TracedExecute(s: State, input: Input, id: int, yielded: bool)
    requires Conserved(s) && Indexed(s) && RoundSound(s) && Replied(s)
    requires Traced(s, id, yielded) && Enabled(s, Execute(input))
    ensures Traced(DoExecute(s, input), id, yielded || YieldsNow(s, Execute(input), id))
  {
    CleanedIsNotRunning(s);
    CurrentIsNotQueued(s);
    IssuedIds(s);
  }

  lemma TracedReturn(s: State, id: int, yielded: bool)
    requires Conserved(s) && Indexed(s) && RoundSound(s) && Replied(s) && Traced(s, id, yielded) && Enabled(s, Return)
    ensures Traced(DoReturn(s), id, yielded)
  {
    IssuedIds(s);
    if s.core.current.value.id == id {
      CleanedIsNotRunning(s);
    }
  }

  lemma TracedTurn(s: State, id: int, yielded: bool)
    requires Conserved(s) && Traced(s, id, yielded) && Enabled(s, Turn)
    ensures Traced(DoTurn(s), id, yielded)
  {
    if Dispatches(s) {
      DispatchTurn(s);
    } else {
      IdleTurnHoldsTheSame(s);
    }
  }

  lemma TracedStep(s: State, step: Step, id: int, yielded: bool)
    requires Conserved(s) && Indexed(s) && RoundSound(s) && Replied(s) && Traced(s, id, yielded) && Enabled(s, step)
    ensures Traced(Next(s, step), id, yielded || YieldsNow(s, step, id))
  {
    match step
    case Submit(_, _, _) => IssuedIds(s);
    case Cancel(client) => FilterMembers(s.core.waiting, client);
    case Turn => TracedTurn(s, id, yielded);
    case Execute(input) => TracedExecute(s, input, id, yielded);
    case Return => TracedReturn(s, id, yielded);
    case _ =>
  }

  lemma {:induction false} TracedRun(s: State, steps: seq<Step>, id: int, yielded: bool)
    requires Reachable(s) && Traced(s, id, yielded) && Run(s, steps).Some?
    ensures Traced(Run(s, steps).value, id, yielded || YieldedOnLastUnit(s, steps, id))
    decreases |steps|
  {
    if steps != [] {
      RepliesAround(s, steps[0]);
      TracedStep(s, steps[0], id, yielded);
      ReachableNext(s, steps[0]);
      TracedRun(Next(s, steps[0]), steps[1..], id, yielded || YieldsNow(s, steps[0], id));
    }
  }

  /**
   Over every run: of the programs that have finished, exactly those have no
   answer that yielded on their last time unit.
   */
  lemma {:induction false} FinishedAreAnswered(config: Option<Config>, steps: seq<Step>, t: Task)
    requires Run(Init(config), steps).Some?
    requires t in Run(Init(config), steps).value.cleaned && t.kind.Program? && t.state.Finished?
    ensures t.id in Run(Init(config), steps).value.contexts
    ensures !Run(Init(config), steps).value.contexts[t.id].done <==> YieldedOnLastUnit(Init(config), steps, t.id)
  {
    assert Run(Init(config), []) == Some(Init(config));
    TracedRun(Init(config), steps, t.id, false);
  }

  // ----- runs -------------------------------------------------------------

  const Fine := Input(true, false, true, false, false)

  /** A one-second program is submitted and dispatched. */
  const Dispatching := [Submit(Program, 1, 1), Turn]

  /** Its child is started, and the round comes to its first second. */
  const Starting := [Execute(Fine), Execute(Fine)]
  const Started := Dispatching + Starting

  /** Before its second is over a shell arrives; the program yields to it at the next poll. */
  const Yielded := [Submit(Shell, 2, -1), Execute(Fine), Execute(Fine), Execute(Fine)]

  const DispatchedState :=
    var t := NewTask(Program, 1, 1).(id := 1, arrival := 1);
    State(InitialCore(None).(current := Some(t.(state := Running)), active := 1,
                             nextId := 2, lastSelected := 1, nextArrival := 2),
          Executing(3, 0, Begin), map[1 := Context(Absent, false)], [], [],
          History([Dispatched(t, [t], -1, 2)], 1, 0, map[1 := 0], {}, {}))

  const WorkingState := DispatchedState.(thread := Executing(3, 0, Work), contexts := map[1 := Context(Active, false)])

  lemma ReachesDispatched()
    ensures Run(Init(None), Dispatching) == Some(DispatchedState)
  {
    var s1 := Next(Init(None), Dispatching[0]);
    assert s1.core.waiting == [NewTask(Program, 1, 1).(id := 1, arrival := 1)];
    assert Shortest(s1.core.waiting, 1, {-1}) == Some(0);
    var s2 := Next(s1, Dispatching[1]);
    assert s2.core.waiting == [];
    assert s2 == DispatchedState;
    assert Run(s1, Dispatching[1..]) == Some(s2);
  }

  lemma ReachesWorking()
    ensures Run(Init(None), Started) == Some(WorkingState)
  {
    ReachesDispatched();
    RunConcat(Init(None), Dispatching, Starting);
    var s1 := Next(DispatchedState, Starting[0]);
    var s2 := Next(s1, Starting[1]);
    assert s2 == WorkingState;
    assert Run(s1, Starting[1..]) == Some(s2);
  }

  lemma YieldsAtZero()
    ensures var end := Run(WorkingState, Yielded);
            && end.Some?
            && end.value.core.current == Some(WorkingState.core.current.value.(remaining := 0, preempt := true))
            && end.value.thread == Executing(3, 1, Report(Requeue))
            && 1 in end.value.contexts && end.value.contexts[1] == Context(Stopped, false)
            && end.value.cleaned == []
  {
    var s1 := Next(WorkingState, Yielded[0]);
    var s2 := Next(s1, Yielded[1]);
    var s3 := Next(s2, Yielded[2]);
    var s4 := Next(s3, Yielded[3]);
    assert Run(s3, Yielded[3..]) == Some(s4);
    assert Run(s2, Yielded[2..]) == Some(s4);
    assert Run(s1, Yielded[1..]) == Some(s4);
  }

  /** It does happen: a program finishes without an answer when a shell arrives during its last second. */
  lemma SomeFinishedProgramsAreNotAnswered()
    ensures var end := Run(Init(None), Started + Yielded + [Return]);
            && end.Some? && |end.value.cleaned| == 1
            && end.value.cleaned[0].id == 1 && end.value.cleaned[0].state == Finished
            && 1 in end.value.contexts && !end.value.contexts[1].done
  {
    ReachesWorking();
    YieldsAtZero();
    RunConcat(Init(None), Started, Yielded);
    RunConcat(Init(None), Started + Yielded, [Return]);
    var s := Run(WorkingState, Yielded).value;
    assert Run(s, [Return]) == Some(Next(s, Return));
  }

  // ----- rounds that charge nothing ---------------------------------------

  /** A program's round has reported, whatever the report, without having charged a time unit. */
  predicate Free(s: State) {
    && s.thread.Executing? && s.core.current.Some? && s.core.current.value.kind.Program?
    && s.thread.phase.Report? && s.thread.ticked == 0
  }

  /** The three ways there: the child does not start or resume, a cancellation comes first, or the first drain fails. */
  predicate GoesFree(s: State, step: Step) {
    && step.Execute? && s.thread.Executing? && s.core.current.Some? && s.core.current.value.kind.Program?
    && s.thread.ticked == 0
    && match s.thread.phase
       case Begin => !step.input.started
       case Loop => s.core.current.value.cancel
       case Work => !step.input.drained
       case _ => false
  }

  /** Over every step of every reachable state, a round comes to charge nothing in those three ways and no other. */
  lemma RoundIsFreeExactlyWhen(s: State, step: Step)
    requires Reachable(s) && Enabled(s, step)
    ensures !Free(s) && Free(Next(s, step)) <==> GoesFree(s, step)
  {
    RepliesAround(s, step);
    if step.Execute? {
      FreeExecute(s, step.input);
    } else {
      FreeElsewhere(s, step);
    }
  }

  lemma FreeExecute(s: State, input: Input)
    requires RoundSound(s) && Enabled(s, Execute(input))
    ensures Free(DoExecute(s, input)) <==> GoesFree(s, Execute(input))
    ensures Stalled(DoExecute(s, input)) <==> GoesFree(s, Execute(input)) && s.thread.phase.Work?
  {
  }

  lemma FreeElsewhere(s: State, step: Step)
    requires Enabled(s, step) && !step.Execute?
    ensures Free(Next(s, step)) ==> Free(s)
    ensures Stalled(Next(s, step)) ==> Stalled(s)
  {
  }

  /** A program's round asks for a requeue without having charged anything. */
  predicate Stalled(s: State) {
    Free(s) && s.thread.phase.result.Requeue?
  }

  /** Of the three ways only the failing drain sends the task back to the queue uncharged. */
  lemma RoundStallsExactlyWhen(s: State, step: Step)
    requires Reachable(s) && Enabled(s, step)
    ensures !Stalled(s) && Stalled(Next(s, step)) <==> GoesFree(s, step) && s.thread.phase.Work?
  {
    RepliesAround(s, step);
    if step.Execute? {
      FreeExecute(s, step.input);
    } else {
      FreeElsewhere(s, step);
    }
  }

  /** Rounds are wasted only by failing drains. */
  ghost predicate StallsAreFailures(s: State) {
    s.history.stalls > 0 ==> s.history.undrained != {}
  }

  /** A round that reports a requeue with nothing charged has told the client that its drain failed. */
  lemma StallIsRecorded(s: State)
    requires RoundSound(s) && Replied(s) && Stalled(s) && s.core.current.value.id in s.contexts
    ensures s.core.current.value.id in s.history.undrained
  {
  }

  lemma StallsAreFailuresStep(s: State, step: Step)
    requires StallsAreFailures(s) && RoundSound(s) && Replied(s) && Enabled(s, step)
    ensures StallsAreFailures(Next(s, step))
  {
    if step.Return? && Stalled(s) {
      StallIsRecorded(s);
    }
  }

  lemma {:induction false} StallsAreFailuresRun(s: State, steps: seq<Step>)
    requires Inv(s) && StallsAreFailures(s) && Run(s, steps).Some?
    ensures StallsAreFailures(Run(s, steps).value)
    decreases |steps|
  {
    if steps != [] {
      InvStep(s, steps[0]);
      StallsAreFailuresStep(s, steps[0]);
      StallsAreFailuresRun(Next(s, steps[0]), steps[1..]);
    }
  }

  /** In every run whose drains succeed, dispatches are at most the shells and the program bursts submitted. */
  lemma DispatchesWithoutFailures(s: State)
    requires Reachable(s)
    ensures s.history.stalls > 0 ==> s.history.undrained != {}
    ensures s.history.undrained == {} ==> |s.history.dispatches| <= s.history.work
  {
    var config, steps :| Run(Init(config), steps) == Some(s);
    InvInit(config);
    StallsAreFailuresRun(Init(config), steps);
    DispatchesAreBounded(s);
  }

  /** The first drain fails, and the program goes back to the queue with its whole burst. */
  const FailedDrain := [Execute(Input(true, false, false, false, false)), Return]

  lemma SomeRoundsStall()
    ensures var end := Run(Init(None), Started + FailedDrain);
            && end.Some? && end.value.history.stalls == 1
            && |end.value.core.waiting| == 1 && end.value.core.waiting[0].id == 1
            && end.value.core.waiting[0].remaining == end.value.core.waiting[0].predicted == 1
            && end.value.core.waiting[0].rounds == 1
  {
    ReachesWorking();
    RunConcat(Init(None), Started, FailedDrain);
    var s1 := Next(WorkingState, FailedDrain[0]);
    assert Run(s1, FailedDrain[1..]) == Some(Next(s1, Return));
  }

  /** The client cancels before the first second; no drain has failed. */
  const EarlyCancel := [Execute(Fine), Cancel(1), Execute(Fine)]

  lemma SomeCancelledRoundsAreFree()
    ensures var end := Run(Init(None), Dispatching + EarlyCancel);
            && end.Some? && Free(end.value) && end.value.thread.phase == Report(Abandoned)
            && end.value.core.current.value.remaining == 1 && end.value.history.undrained == {}
  {
    ReachesDispatched();
    RunConcat(Init(None), Dispatching, EarlyCancel);
    var s1 := Next(DispatchedState, EarlyCancel[0]);
    var s2 := Next(s1, EarlyCancel[1]);
    var s3 := Next(s2, EarlyCancel[2]);
    assert Run(s2, EarlyCancel[2..]) == Some(s3);
    assert Run(s1, EarlyCancel[1..]) == Some(s3);
  }

  /** The child cannot be started. */
  const NoStart := [Execute(Input(false, false, true, false, false))]

  lemma SomeUnstartedRoundsAreFree()
    ensures var end := Run(Init(None), Dispatching + NoStart);
            && end.Some? && Free(end.value) && end.value.thread.phase == Report(Failed)
            && end.value.core.current.value.remaining == 1 && end.value.history.undrained == {}
  {
    ReachesDispatched();
    RunConcat(Init(None), Dispatching, NoStart);
    assert Run(DispatchedState, NoStart) == Some(Next(DispatchedState, NoStart[0]));
  }
}
