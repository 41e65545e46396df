/**
 Which tasks are served: every maximal run after a stop request ends in the
 thread's exit, and over whole runs a task is dispatched or given up exactly
 when it came before that exit or was withdrawn.
 */
module Shutdown {
  import opened Wrappers
  import opened Tasks
  import opened Selection
  import opened SchedulerCore
  import opened Executor
  import opened System
  import opened Invariants
  import opened Policy
  import opened Accounting
  import opened Theorems
  import opened Liveness

  // ----- after a stop request ---------------------------------------------

  lemma {:induction false} OnlyThreadSteps(steps: seq<Step>)
    requires ThreadOnly(steps)
    ensures ThreadSteps(steps) == |steps|
  {
    if steps != [] {
      OnlyThreadSteps(steps[1..]);
    }
  }

  lemma StopStays(s: State, step: Step)
    requires Enabled(s, step) && s.core.stop
    ensures Next(s, step).core.stop
  {
  }

  lemma {:induction false} StopStaysOverRuns(s: State, steps: seq<Step>)
    requires s.core.stop && Run(s, steps).Some?
    ensures Run(s, steps).value.core.stop
    decreases |steps|
  {
    if steps != [] {
      StopStays(s, steps[0]);
      StopStaysOverRuns(Next(s, steps[0]), steps[1..]);
    }
  }

  lemma ExitHoldsNothing(s: State, step: Step)
    requires Accounted(s) && Enabled(s, step) && !s.thread.Exited? && Next(s, step).thread.Exited?
    ensures step.Turn? && Held(Next(s, step).core) == []
    ensures Next(s, step).core.nextId == s.core.nextId && Next(s, step).history == s.history
    ensures Next(s, step).detached == s.detached && Next(s, step).cleaned == s.cleaned
  {
    if step.Turn? {
      if !Dispatches(s) {
        IdleTurnHoldsTheSame(s);
      }
    }
  }

  lemma {:induction false} ThreadRunToExit(s: State, steps: seq<Step>)
    requires Reachable(s) && !s.thread.Exited? && ThreadOnly(steps) && Run(s, steps).Some?
    ensures Run(s, steps).value.thread.Exited? ==> Held(Run(s, steps).value.core) == []
    decreases |steps|
  {
    if steps != [] {
      var s1 := Next(s, steps[0]);
      assert ThreadStep(steps[0]);
      if s1.thread.Exited? {
        SleepsOnlyWhenIdle(s);
        AccountedWhenReachable(s);
        ExitHoldsNothing(s, steps[0]);
        assert |steps| > 1 ==> ThreadStep(steps[1]);
        ExitedThreadIsStill(s1, steps[1..]);
      } else {
        ReachableNext(s, steps[0]);
        ThreadRunToExit(s1, steps[1..]);
      }
    }
  }

  lemma {:induction false} ExitedThreadIsStill(s: State, steps: seq<Step>)
    requires s.thread.Exited? && Run(s, steps).Some?
    ensures steps == [] || !ThreadStep(steps[0])
  {
  }

  /**
   Shutdown, for every run: left to itself after a stop request, with drains
   that succeed, the thread takes no more steps than its potential, and when it
   can take none it has exited with nothing queued or running left.
   */
  lemma {:induction false} EveryStoppedRunExits(s: State, steps: seq<Step>)
    requires Reachable(s) && s.core.stop && !s.thread.Exited?
    requires ThreadOnly(steps) && Run(s, steps).Some? && TotalCredit(s, steps) == 0
    ensures |steps| <= Potential(s)
    ensures var end := Run(s, steps).value;
            Quiescent(end) ==> end.thread.Exited? && Held(end.core) == []
  {
    RunsQuiesce(s, steps);
    OnlyThreadSteps(steps);
    StopStaysOverRuns(s, steps);
    ReachableRun(s, steps);
    ThreadRunToExit(s, steps);
    if Quiescent(Run(s, steps).value) {
      QuiescentMeansDone(Run(s, steps).value);
    }
  }

  lemma {:induction false} ReachableRun(s: State, steps: seq<Step>)
    requires Reachable(s) && Run(s, steps).Some?
    ensures Reachable(Run(s, steps).value)
  {
    var config, before :| Run(Init(config), before) == Some(s);
    RunConcat(Init(config), before, steps);
    assert Run(Init(config), before + steps) == Some(Run(s, steps).value);
  }

  // ----- which tasks are served -------------------------------------------

  /** A task has been given the CPU, or the scheduler has let go of it. */
  ghost predicate Served(s: State, id: int) {
    DispatchCount(id, s.history.dispatches) > 0 || Gone(s, id)
  }

  /** A cancellation that takes the task out of the queue. */
  ghost predicate Withdraws(s: State, step: Step, id: int) {
    step.Cancel? && exists t :: t in s.core.waiting && t.id == id && t.client == step.client
  }

  /** Somewhere in the run the task is taken out of the queue by a cancellation. */
  ghost predicate Withdrawn(s: State, steps: seq<Step>, id: int)
    decreases |steps|
  {
    steps != [] && Enabled(s, steps[0])
    && (Withdraws(s, steps[0], id) || Withdrawn(Next(s, steps[0]), steps[1..], id))
  }

  /** Somewhere in the run the task is submitted while the thread has not exited. */
  ghost predicate SubmittedInTime(s: State, steps: seq<Step>, id: int)
    decreases |steps|
  {
    steps != [] && Enabled(s, steps[0])
    && ((steps[0].Submit? && s.core.nextId == id && !s.thread.Exited?)
        || SubmittedInTime(Next(s, steps[0]), steps[1..], id))
  }

  lemma {:induction false} CountedIsMember(id: int, s: seq<Task>)
    requires Count(id, s) > 0
    ensures exists t :: t in s && t.id == id
  {
    if s[0].id == id {
      assert s[0] in s;
    } else {
      CountedIsMember(id, s[1..]);
      var t :| t in s[1..] && t.id == id;
      assert t in s;
    }
  }

  /** When nothing is held, exactly the issued ids are gone. */
  lemma GoneIsIssued(s: State, id: int)
    requires Conserved(s) && Held(s.core) == []
    ensures Gone(s, id) <==> 1 <= id < s.core.nextId
  {
    var gone := s.detached + s.cleaned;
    assert Everything(s) == gone;
    if Gone(s, id) {
      var t :| t in gone && t.id == id;
      var i :| 0 <= i < |gone| && gone[i] == t;
      CountMember(gone, i);
    }
    if 1 <= id < s.core.nextId {
      assert Count(id, Everything(s)) == 1;
      CountedIsMember(id, gone);
    }
  }

  /** After the exit a task goes when it is withdrawn, and only then. */
  lemma GoneAfterExit(s: State, step: Step, id: int)
    requires s.thread.Exited? && Enabled(s, step)
    ensures Gone(Next(s, step), id) <==> Gone(s, id) || Withdraws(s, step, id)
    ensures Next(s, step).thread.Exited? && Next(s, step).history.dispatches == s.history.dispatches
  {
    var s' := Next(s, step);
    match step
    case Cancel(client) =>
      var owned := Owned(s.core.waiting, client);
      FilterMembers(s.core.waiting, client);
      ReverseMembers(owned);
      assert s'.detached == s.detached + Reverse(owned);
      assert forall t :: t in s'.detached + s'.cleaned <==> t in s.detached + s.cleaned || t in owned;
    case CleanUp(i) =>
      if Gone(s, id) {
        GoneAfter(s, step, id);
      }
      if Gone(s', id) {
        var t :| t in s'.detached + s'.cleaned && t.id == id;
        if t !in s.detached + s.cleaned {
          assert s.detached[i] in s.detached + s.cleaned;
        }
      }
    case _ =>
  }

  lemma {:induction false} GoneAfterExitRun(s: State, steps: seq<Step>, id: int)
    requires s.thread.Exited? && Run(s, steps).Some?
    ensures var s' := Run(s, steps).value;
            && (Gone(s', id) <==> Gone(s, id) || Withdrawn(s, steps, id))
            && s'.history.dispatches == s.history.dispatches
    ensures !SubmittedInTime(s, steps, id)
    decreases |steps|
  {
    if steps != [] {
      GoneAfterExit(s, steps[0], id);
      GoneAfterExitRun(Next(s, steps[0]), steps[1..], id);
    }
  }

  lemma {:induction false} NotYetDispatched(s: State, id: int)
    requires Reachable(s) && id >= s.core.nextId
    ensures DispatchCount(id, s.history.dispatches) == 0
  {
    ReachableInv(s);
  }

  lemma ConservedWhenReachable(s: State)
    requires Reachable(s)
    ensures Conserved(s)
  {
    ReachableInv(s);
  }

  /** From the exit on. */
  lemma {:induction false} ServedFromExit(s: State, steps: seq<Step>, id: int)
    requires Reachable(s) && s.thread.Exited? && Held(s.core) == [] && Run(s, steps).Some? && id >= 1
    ensures Served(Run(s, steps).value, id) <==> id < s.core.nextId || Withdrawn(s, steps, id)
    ensures Gone(Run(s, steps).value, id) <==> id < s.core.nextId || Withdrawn(s, steps, id)
    ensures !SubmittedInTime(s, steps, id)
  {
    GoneAfterExitRun(s, steps, id);
    ConservedWhenReachable(s);
    GoneIsIssued(s, id);
    if id >= s.core.nextId {
      NotYetDispatched(s, id);
    }
  }

  lemma WithdrawnWasIssued(s: State, step: Step, id: int)
    requires Reachable(s) && Withdraws(s, step, id)
    ensures id < s.core.nextId
  {
    ConservedWhenReachable(s);
    var t :| t in s.core.waiting && t.id == id && t.client == step.client;
    assert t in Everything(s);
    InRange(s, t);
  }

  lemma {:induction false} ServedFrom(s: State, steps: seq<Step>, id: int)
    requires Reachable(s) && !s.thread.Exited? && Run(s, steps).Some? && Quiescent(Run(s, steps).value)
    requires 1 <= id < Run(s, steps).value.core.nextId
    ensures Served(Run(s, steps).value, id)
            <==> id < s.core.nextId || SubmittedInTime(s, steps, id) || Withdrawn(s, steps, id)
    ensures Gone(Run(s, steps).value, id)
            <==> id < s.core.nextId || SubmittedInTime(s, steps, id) || Withdrawn(s, steps, id)
    decreases |steps|
  {
    if steps == [] {
      QuiescentMeansDone(s);
      ConservedWhenReachable(s);
      GoneIsIssued(s, id);
    } else {
      var s1, rest := Next(s, steps[0]), steps[1..];
      ReachableNext(s, steps[0]);
      IdsAfter(s, steps[0]);
      if Withdraws(s, steps[0], id) {
        WithdrawnWasIssued(s, steps[0], id);
      }
      if s1.thread.Exited? {
        AccountedWhenReachable(s);
        ExitHoldsNothing(s, steps[0]);
        ServedFromExit(s1, rest, id);
      } else {
        ServedFrom(s1, rest, id);
      }
    }
  }

  /** A step by which the scheduler lets go of a task either withdraws it or ends a round of it. */
  lemma {:induction false} GoneAfterDispatchOnly(s: State, step: Step, id: int)
    requires Ledgered(s) && Enabled(s, step)
    ensures Gone(Next(s, step), id) ==>
              Gone(s, id) || Withdraws(s, step, id) || DispatchCount(id, s.history.dispatches) > 0
  {
    var s' := Next(s, step);
    if t :| t in s'.detached + s'.cleaned && t.id == id {
      match step
      case Cancel(client) =>
        FilterMembers(s.core.waiting, client);
        ReverseMembers(Owned(s.core.waiting, client));
        assert t in s.detached + s.cleaned || t in Owned(s.core.waiting, client);
      case CleanUp(i) =>
        assert s.detached[i] in s.detached + s.cleaned;
        assert t in s.detached + s.cleaned || t.id == s.detached[i].id;
      case Return => assert t in s.detached + s.cleaned || t.id == s.core.current.value.id;
      case _ =>
    }
  }

  lemma {:induction false} DispatchesStay(s: State, step: Step, id: int)
    requires Enabled(s, step)
    ensures DispatchCount(id, Next(s, step).history.dispatches) >= DispatchCount(id, s.history.dispatches)
  {
    if step.Turn? && Dispatches(s) {
      DispatchTurn(s);
      DispatchCountSnoc(id, s.history.dispatches, Latest(AfterDispatch(s, Chosen(s))));
    } else {
      DispatchesAfter(s, step);
    }
  }

  lemma LedgeredWhenReachable(s: State)
    requires Reachable(s)
    ensures Ledgered(s)
  {
    ReachableInv(s);
  }

  /** Over a run a task goes only by a withdrawal or after it has had the CPU. */
  lemma {:induction false} GoneWasDispatched(s: State, steps: seq<Step>, id: int)
    requires Reachable(s) && Run(s, steps).Some?
    ensures var end := Run(s, steps).value;
            && DispatchCount(id, end.history.dispatches) >= DispatchCount(id, s.history.dispatches)
            && (Gone(end, id) ==>
                  Gone(s, id) || Withdrawn(s, steps, id) || DispatchCount(id, end.history.dispatches) > 0)
    decreases |steps|
  {
    if steps != [] {
      var s1 := Next(s, steps[0]);
      ReachableNext(s, steps[0]);
      DispatchesStay(s, steps[0], id);
      GoneWasDispatched(s1, steps[1..], id);
      LedgeredWhenReachable(s);
      GoneAfterDispatchOnly(s, steps[0], id);
    }
  }

  /**
   Over every run that leaves the thread nothing to do, the scheduler is done
   with a submitted task, and has served it at all, exactly when the task was
   submitted before the thread exited or a cancellation took it out of the
   queue. Unless one did, it was dispatched exactly when submitted in time.
   */
  lemma {:induction false} ServedExactlyWhen(config: Option<Config>, steps: seq<Step>, id: int)
    requires Run(Init(config), steps).Some? && Quiescent(Run(Init(config), steps).value)
    requires 1 <= id < Run(Init(config), steps).value.core.nextId
    ensures Served(Run(Init(config), steps).value, id)
            <==> SubmittedInTime(Init(config), steps, id) || Withdrawn(Init(config), steps, id)
    ensures Gone(Run(Init(config), steps).value, id)
            <==> SubmittedInTime(Init(config), steps, id) || Withdrawn(Init(config), steps, id)
    ensures !Withdrawn(Init(config), steps, id) ==>
              (DispatchCount(id, Run(Init(config), steps).value.history.dispatches) > 0
               <==> SubmittedInTime(Init(config), steps, id))
  {
    assert Run(Init(config), []) == Some(Init(config));
    ServedFrom(Init(config), steps, id);
    GoneWasDispatched(Init(config), steps, id);
    assert Init(config).detached + Init(config).cleaned == [];
  }

  // ----- tasks that are not -----------------------------------------------

  /** Stopped before it has work, the thread exits; a program comes after that. */
  const Stranding := [Stop, Turn, Submit(Program, 1, 5)]

  lemma SomeTasksAreStranded()
    ensures var end := Run(Init(None), Stranding);
            && end.Some? && Quiescent(end.value) && end.value.core.nextId == 2
            && |end.value.core.waiting| == 1 && end.value.core.waiting[0].id == 1 && !Served(end.value, 1)
  {
    var s1 := Next(Init(None), Stranding[0]);
    var s2 := Next(s1, Stranding[1]);
    var s3 := Next(s2, Stranding[2]);
    assert Run(s2, Stranding[2..]) == Some(s3);
    assert Run(s1, Stranding[1..]) == Some(s3);
    assert s3.core.waiting == [Admit(s2.core, NewTask(Program, 1, 5))];
    assert s3.detached + s3.cleaned == [];
  }

  /** Only programs wait and the thread is about to take its turn. */
  ghost predicate ProgramsWait(s: State) {
    && s.thread.Top? && s.core.current.None? && s.core.active >= 0
    && forall t :: t in s.core.waiting ==> t.kind.Program?
  }

  /** A shell comes, is dispatched, runs and is gone. */
  const ShellRound := [Submit(Shell, 2, -1), Turn, Execute(Input(true, false, true, false, false)), Return]

  lemma ShellPassesPrograms(w: seq<Task>, shell: Task, last: int)
    requires (forall t :: t in w ==> t.kind.Program?) && shell.kind.Shell?
    ensures Choice(w + [shell], last) == Some(|w|) && Without(w + [shell], |w|) == w
  {
    assert forall j :: 0 <= j < |w| ==> w[j] in w;
    FirstShellIs(w + [shell], |w|);
  }

  /** One shell round leaves the waiting programs where they were. */
  lemma {:induction false} ShellRoundPasses(s: State)
    requires ProgramsWait(s)
    ensures var end := Run(s, ShellRound);
            && end.Some? && ProgramsWait(end.value)
            && end.value.core.waiting == s.core.waiting && end.value.core.nextId == s.core.nextId + 1
            && end.value.history.dispatches[..|end.value.history.dispatches| - 1] == s.history.dispatches
            && |end.value.history.dispatches| == |s.history.dispatches| + 1
            && end.value.history.dispatches[|s.history.dispatches|].task.id == s.core.nextId
  {
    var s1 := Next(s, ShellRound[0]);
    var shell := Admit(s.core, NewTask(Shell, 2, -1));
    assert s1.core.waiting == s.core.waiting + [shell];
    ShellPassesPrograms(s.core.waiting, shell, s1.core.lastSelected);
    var s2 := Next(s1, ShellRound[1]);
    var s3 := Next(s2, ShellRound[2]);
    var s4 := Next(s3, ShellRound[3]);
    assert Run(s3, ShellRound[3..]) == Some(s4);
    assert Run(s2, ShellRound[2..]) == Some(s4);
    assert Run(s1, ShellRound[1..]) == Some(s4);
  }

  lemma {:induction false} ShellsPass(s: State, n: nat, id: int) returns (steps: seq<Step>)
    requires ProgramsWait(s) && id < s.core.nextId
    ensures var end := Run(s, steps);
            && end.Some? && ProgramsWait(end.value)
            && end.value.core.waiting == s.core.waiting
            && |end.value.history.dispatches| == |s.history.dispatches| + n
            && DispatchCount(id, end.value.history.dispatches) == DispatchCount(id, s.history.dispatches)
    decreases n
  {
    if n == 0 {
      steps := [];
    } else {
      ShellRoundPasses(s);
      var s1 := Run(s, ShellRound).value;
      var rest := ShellsPass(s1, n - 1, id);
      RunConcat(s, ShellRound, rest);
      steps := ShellRound + rest;
    }
  }

  /**
   Coming in time does not bound the wait: for every `n` there is a run in which
   `n` shells are dispatched while the first program submitted is not.
   */
  lemma {:induction false} ShellsCanStarveAProgram(n: nat)
    ensures exists steps ::
              var end := Run(Init(None), steps);
              && end.Some? && |end.value.history.dispatches| == n
              && |end.value.core.waiting| == 1 && end.value.core.waiting[0].id == 1
              && DispatchCount(1, end.value.history.dispatches) == 0
  {
    var first := [Submit(Program, 1, 5)];
    var s := Next(Init(None), first[0]);
    assert Run(s, first[1..]) == Some(s) && Run(Init(None), first) == Some(s);
    assert s.core.waiting == [Admit(InitialCore(None), NewTask(Program, 1, 5))];
    var rest := ShellsPass(s, n, 1);
    RunConcat(Init(None), first, rest);
    assert Run(Init(None), first + rest).Some?;
  }
}
