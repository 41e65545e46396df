/**
 One scheduled round of the server's executor. A round is a small program whose
 steps are separated wherever another thread may act: between the poll of the
 cancel flag, the one-second tick, the reaping of the child and the poll of the
 preempt flag.
 */
module Executor {
  import opened Wrappers
  import opened Tasks
  import opened SchedulerClass

  /** The child process behind a program task: none (pid not positive), stopped, or running. */
  datatype Child = Absent | Stopped | Active

  /** The executor's own record of a task; `done` releases the client waiting for the reply. */
  datatype Context = Context(child: Child, done: bool)

  datatype Phase = Begin | Loop | Work | Reap | Check | Close | Report(result: RunResult)

  /** A round in progress; `ticked` counts the time units it has charged to the task. */
  datatype Round = Round(kind: Kind, remaining: int, context: Context, quantum: int, ticked: nat, phase: Phase)

  /**
   What the round learns from outside: whether the child could be started or
   resumed, the two polled flags, whether draining the pipe succeeded, and
   whether the child was found to have exited.
   */
  datatype Input = Input(started: bool, cancel: bool, drained: bool, exited: bool, preempt: bool)

  function Halt(child: Child): Child {
    if child.Active? then Stopped else child
  }

  function FailureReply(context: Context, drained: bool): Context {
    context.(done := context.done || !drained)
  }

  function Advance(e: Round, input: Input): Round
    requires !e.phase.Report?
  {
    match e.phase
    case Begin =>
      if e.kind.Shell? then e.(context := e.context.(done := true), phase := Report(Complete))
      else if input.started then e.(context := e.context.(child := Active), phase := Loop)
      else e.(context := e.context.(done := true), phase := Report(Failed))
    case Loop =>
      if !(e.ticked < e.quantum && e.remaining > 0) then e.(phase := Close)
      else if input.cancel then e.(context := e.context.(child := Absent), phase := Report(Abandoned))
      else e.(phase := Work)
    case Work =>
      if !input.drained then e.(context := Context(Absent, true), phase := Report(Requeue))
      else e.(remaining := if e.remaining > 0 then e.remaining - 1 else e.remaining,
              ticked := e.ticked + 1, phase := Reap)
    case Reap =>
      if !e.context.child.Absent? && input.exited then
        e.(remaining := 0, context := Context(Absent, true),
           phase := Report(if input.drained then Complete else Failed))
      else e.(phase := Check)
    case Check =>
      if input.preempt then
        e.(context := FailureReply(e.context.(child := Halt(e.context.child)), input.drained), phase := Report(Requeue))
      else e.(phase := Loop)
    case Close =>
      if e.remaining > 0 then
        e.(context := FailureReply(e.context.(child := Halt(e.context.child)), input.drained), phase := Report(Requeue))
      else
        e.(context := Context(Absent, true), phase := Report(if input.drained then Complete else Failed))
  }

  function Rank(phase: Phase): nat {
    match phase
    case Begin => 6
    case Reap => 5
    case Check => 4
    case Loop => 3
    case Work => 2
    case Close => 1
    case Report(_) => 0
  }

  predicate InStep(e: Round) {
    (e.phase.Work? ==> e.ticked < e.quantum) && (e.phase.Reap? || e.phase.Check? ==> 0 < e.ticked <= e.quantum)
  }

  /** Runs a round to its report; `env(k)` is what the round learns while `k` time units are charged. */
  function RunRound(e: Round, env: nat -> Input): (r: Round)
    requires InStep(e)
    ensures r.phase.Report?
    decreases if e.phase.Report? || e.quantum <= e.ticked then 0 else e.quantum - e.ticked, Rank(e.phase)
  {
    if e.phase.Report? then e else RunRound(Advance(e, env(e.ticked)), env)
  }

  function StartOfRound(t: Task, context: Context, quantum: int): Round {
    Round(t.kind, t.remaining, context, quantum, 0, Begin)
  }

  /**
   What every reachable moment of a round looks like: the child runs exactly
   while the round is under way, so it is never left running by a report.
   */
  ghost predicate Sound(e: Round) {
    && InStep(e)
    && 0 < e.quantum && e.ticked <= e.quantum
    && (e.context.child.Active? <==> !e.phase.Begin? && !e.phase.Report?)
    && (e.kind.Shell? ==> e.phase.Begin? || e.phase == Report(Complete))
    && (e.kind.Program? ==>
          && (e.phase.Begin? ==> e.ticked == 0)
          && 0 <= e.remaining
          && (e.ticked == 0 || e.phase.Work? ==> 0 < e.remaining)
          && (e.phase.Close? ==> e.remaining == 0 || e.ticked == e.quantum)
          && (e.phase == Report(Requeue) && e.ticked == 0 ==> e.context.done)
          && (e.phase == Report(Complete) || e.phase == Report(Failed) ==> e.context.done)
          && (e.phase == Report(Complete) ==> e.remaining == 0))
  }

  lemma AdvanceKeepsSound(e: Round, input: Input)
    requires Sound(e) && !e.phase.Report?
    ensures Sound(Advance(e, input))
  {
  }

  /** A round that starts with its child idle ends with its child idle. */
  lemma {:induction false} RunRoundIsSound(e: Round, env: nat -> Input)
    requires Sound(e)
    ensures Sound(RunRound(e, env))
    decreases if e.phase.Report? || e.quantum <= e.ticked then 0 else e.quantum - e.ticked, Rank(e.phase)
  {
    if !e.phase.Report? {
      AdvanceKeepsSound(e, env(e.ticked));
      RunRoundIsSound(Advance(e, env(e.ticked)), env);
    }
  }

  /** One turn of the executor's loop, run to the next loop head, to the closing phase, or to a report. */
  function Iteration(e: Round, env: nat -> Input): Round
    requires e.phase.Loop?
  {
    var polled := Advance(e, env(e.ticked));
    if !polled.phase.Work? then polled
    else
      var worked := Advance(polled, env(polled.ticked));
      if !worked.phase.Reap? then worked
      else
        var reaped := Advance(worked, env(worked.ticked));
        if !reaped.phase.Check? then reaped else Advance(reaped, env(reaped.ticked))
  }

  lemma {:induction false} RunIteration(e: Round, env: nat -> Input)
    requires e.phase.Loop?
    ensures InStep(Iteration(e, env)) && RunRound(e, env) == RunRound(Iteration(e, env), env)
  {
    var polled := Advance(e, env(e.ticked));
    assert RunRound(e, env) == RunRound(polled, env);
    if polled.phase.Work? {
      var worked := Advance(polled, env(polled.ticked));
      assert RunRound(polled, env) == RunRound(worked, env);
      if worked.phase.Reap? {
        var reaped := Advance(worked, env(worked.ticked));
        assert RunRound(worked, env) == RunRound(reaped, env);
      }
    }
  }

  // ----- what a round of a program promises -------------------------------

  /** Everything that can end a round of a program. */
  datatype Cause = NotStarted | Cancellation | DrainFailure | ChildGone | Yield | QuantumUsed | BurstUsed

  /** Time unit `k` is begun: quantum and burst leave room for it, no cancellation is seen, and its drain succeeds. */
  ghost predicate Works(burst: int, quantum: int, env: nat -> Input, k: nat) {
    k < quantum && k < burst && !env(k).cancel && env(k).drained
  }

  /** The round gets through its first `n` time units: behind none of them is the child gone or a yield asked for. */
  ghost predicate Lasts(burst: int, quantum: int, env: nat -> Input, n: nat) {
    && env(0).started
    && forall k: nat :: k < n ==> Works(burst, quantum, env, k) && !env(k + 1).exited && !env(k + 1).preempt
  }

  /** The round ends for this cause with `n` time units charged. */
  ghost predicate Ends(burst: int, quantum: int, env: nat -> Input, n: nat, cause: Cause) {
    match cause
    case NotStarted => n == 0 && !env(0).started
    case Cancellation => Lasts(burst, quantum, env, n) && n < quantum && n < burst && env(n).cancel
    case DrainFailure =>
      Lasts(burst, quantum, env, n) && n < quantum && n < burst && !env(n).cancel && !env(n).drained
    case ChildGone =>
      n > 0 && Lasts(burst, quantum, env, n - 1) && Works(burst, quantum, env, n - 1) && env(n).exited
    case Yield =>
      && n > 0 && Lasts(burst, quantum, env, n - 1) && Works(burst, quantum, env, n - 1)
      && !env(n).exited && env(n).preempt
    case QuantumUsed => Lasts(burst, quantum, env, n) && quantum <= n < burst
    case BurstUsed => Lasts(burst, quantum, env, n) && burst <= n
  }

  /**
   What is reported then, the burst left, the child and the reply. A child that
   is found gone ends its task however much burst is left; one that is to go on
   is stopped; every other one is done away with.
   */
  function Upshot(burst: int, context: Context, env: nat -> Input, n: nat, cause: Cause): (RunResult, int, Context) {
    match cause
    case NotStarted => (Failed, burst, context.(done := true))
    case Cancellation => (Abandoned, burst - n, Context(Absent, context.done))
    case DrainFailure => (Requeue, burst - n, Context(Absent, true))
    case ChildGone => (if env(n).drained then Complete else Failed, 0, Context(Absent, true))
    case Yield => (Requeue, burst - n, Context(Stopped, context.done || !env(n).drained))
    case QuantumUsed => (Requeue, burst - n, Context(Stopped, context.done || !env(n).drained))
    case BurstUsed => (if env(n).drained then Complete else Failed, burst - n, Context(Absent, true))
  }

  /** In front of its end a round has worked through every time unit. */
  lemma UnitsBefore(burst: int, quantum: int, env: nat -> Input, n: nat, cause: Cause, k: nat)
    requires Ends(burst, quantum, env, n, cause) && k < n
    ensures env(0).started && Works(burst, quantum, env, k)
    ensures k + 1 < n ==> !env(k + 1).exited && !env(k + 1).preempt
  {
  }

  lemma NotAfterwards(burst: int, quantum: int, env: nat -> Input, n: nat, cause: Cause, n': nat, cause': Cause)
    requires Ends(burst, quantum, env, n, cause) && Ends(burst, quantum, env, n', cause')
    ensures n' <= n
  {
    if n < n' {
      UnitsBefore(burst, quantum, env, n', cause', if cause.ChildGone? || cause.Yield? then n - 1 else n);
    }
  }

  /** A round ends in one way only, whatever its surroundings do. */
  lemma EndsOnce(burst: int, quantum: int, env: nat -> Input, n: nat, cause: Cause, n': nat, cause': Cause)
    requires Ends(burst, quantum, env, n, cause) && Ends(burst, quantum, env, n', cause')
    ensures n == n' && cause == cause'
  {
    NotAfterwards(burst, quantum, env, n, cause, n', cause');
    NotAfterwards(burst, quantum, env, n', cause', n, cause);
  }

  lemma OneMoreUnit(burst: int, quantum: int, env: nat -> Input, k: nat)
    requires Lasts(burst, quantum, env, k) && Works(burst, quantum, env, k)
    requires !env(k + 1).exited && !env(k + 1).preempt
    ensures Lasts(burst, quantum, env, k + 1)
  {
  }

  /** And it does end: `k` units on, some cause is at hand by the end of the quantum. */
  lemma {:induction false} EndsAtLast(burst: int, quantum: int, env: nat -> Input, k: nat)
    returns (n: nat, cause: Cause)
    requires Lasts(burst, quantum, env, k)
    ensures Ends(burst, quantum, env, n, cause)
    decreases quantum - k
  {
    if burst <= k {
      n, cause := k, BurstUsed;
    } else if quantum <= k {
      n, cause := k, QuantumUsed;
    } else if !Works(burst, quantum, env, k) {
      n, cause := k, if env(k).cancel then Cancellation else DrainFailure;
    } else if env(k + 1).exited || env(k + 1).preempt {
      n, cause := k + 1, if env(k + 1).exited then ChildGone else Yield;
    } else {
      OneMoreUnit(burst, quantum, env, k);
      n, cause := EndsAtLast(burst, quantum, env, k + 1);
    }
  }

  /** A time unit that does not end the round leads to the next loop head. */
  lemma UnitGoesOn(burst: int, done: bool, quantum: int, env: nat -> Input, k: nat)
    requires Works(burst, quantum, env, k) && !env(k + 1).exited && !env(k + 1).preempt
    ensures RunRound(LoopHead(burst - k, Context(Active, done), quantum, k), env)
            == RunRound(LoopHead(burst - (k + 1), Context(Active, done), quantum, k + 1), env)
  {
    RunIteration(LoopHead(burst - k, Context(Active, done), quantum, k), env);
  }

  /** The last turn of the loop, or the phase behind it. */
  lemma UnitEnds(burst: int, done: bool, quantum: int, env: nat -> Input, k: nat, n: nat, cause: Cause)
    requires Lasts(burst, quantum, env, k) && Ends(burst, quantum, env, n, cause) && !cause.NotStarted?
    requires k == if cause.ChildGone? || cause.Yield? then n - 1 else n
    ensures var e := RunRound(LoopHead(burst - k, Context(Active, done), quantum, k), env);
            && (e.phase.result, e.remaining, e.context) == Upshot(burst, Context(Active, done), env, n, cause)
            && e.ticked == n
  {
    RunIteration(LoopHead(burst - k, Context(Active, done), quantum, k), env);
  }

  /** From a loop head on. */
  lemma {:induction false} LoopEnds(burst: int, done: bool, quantum: int, env: nat -> Input, k: nat,
                                    n: nat, cause: Cause)
    requires Lasts(burst, quantum, env, k) && Ends(burst, quantum, env, n, cause) && !cause.NotStarted?
    requires k <= if cause.ChildGone? || cause.Yield? then n - 1 else n
    ensures var e := RunRound(LoopHead(burst - k, Context(Active, done), quantum, k), env);
            && (e.phase.result, e.remaining, e.context) == Upshot(burst, Context(Active, done), env, n, cause)
            && e.ticked == n
    decreases n - k
  {
    if k == if cause.ChildGone? || cause.Yield? then n - 1 else n {
      UnitEnds(burst, done, quantum, env, k, n, cause);
    } else {
      UnitsBefore(burst, quantum, env, n, cause, k);
      OneMoreUnit(burst, quantum, env, k);
      UnitGoesOn(burst, done, quantum, env, k);
      LoopEnds(burst, done, quantum, env, k + 1, n, cause);
    }
  }

  /** And from the start: the whole round ends as its cause says. */
  lemma {:induction false} RoundEnds(t: Task, context: Context, quantum: int, env: nat -> Input, n: nat, cause: Cause)
    requires t.kind.Program? && Ends(t.remaining, quantum, env, n, cause)
    ensures var e := RunRound(StartOfRound(t, context, quantum), env);
            && (e.phase.result, e.remaining, e.context) == Upshot(t.remaining, context, env, n, cause)
            && e.ticked == n
  {
    var e := StartOfRound(t, context, quantum);
    assert RunRound(e, env) == RunRound(Advance(e, env(0)), env);
    if !cause.NotStarted? {
      LoopEnds(t.remaining, context.done, quantum, env, 0, n, cause);
    }
  }

  /** So every round of a program ends as exactly one cause says: what the executor promises, whatever happens. */
  lemma {:induction false} RoundContract(t: Task, context: Context, quantum: int, env: nat -> Input)
    requires t.kind.Program?
    ensures exists n: nat, cause ::
              && Ends(t.remaining, quantum, env, n, cause)
              && (forall n': nat, cause' :: Ends(t.remaining, quantum, env, n', cause') ==> n' == n && cause' == cause)
              && var e := RunRound(StartOfRound(t, context, quantum), env);
                 && e.ticked == n
                 && (e.phase.result, e.remaining, e.context) == Upshot(t.remaining, context, env, n, cause)
  {
    var n, cause := 0, NotStarted;
    if env(0).started {
      n, cause := EndsAtLast(t.remaining, quantum, env, 0);
    }
    forall n': nat, cause' | Ends(t.remaining, quantum, env, n', cause') ensures n' == n && cause' == cause {
      EndsOnce(t.remaining, quantum, env, n', cause', n, cause);
    }
    RoundEnds(t, context, quantum, env, n, cause);
  }

  class TaskContext {
    var childPid: int
    var childRunning: bool
    var done: bool

    constructor ()
      ensures Abs() == Context(Absent, false)
    {
      childPid, childRunning, done := 0, false, false;
    }

    function Abs(): Context
      reads this
    {
      Context(if childPid <= 0 then Absent else if childRunning then Active else Stopped, done)
    }

    method SetDone()
      modifies this`done
      ensures done
    {
      done := true;
    }

    method StartChild(ok: bool, pid: int) returns (started: bool)
      requires pid > 0
      modifies this`childPid, this`childRunning
      ensures started == ok
      ensures Abs() == if ok then old(Abs()).(child := Active) else old(Abs())
    {
      if !ok {
        return false;
      }
      childPid := pid;
      childRunning := true;
      return true;
    }

    method ResumeChild(ok: bool) returns (resumed: bool)
      modifies this`childRunning
      ensures resumed == (ok || !old(Abs()).child.Stopped?)
      ensures Abs() == if ok && old(Abs()).child.Stopped? then old(Abs()).(child := Active) else old(Abs())
    {
      if childPid > 0 && !childRunning {
        if !ok {
          return false;
        }
        childRunning := true;
      }
      return true;
    }

    method StopChild()
      modifies this`childRunning
      ensures Abs() == old(Abs()).(child := Halt(old(Abs()).child))
    {
      if childPid > 0 && childRunning {
        childRunning := false;
      }
    }

    method TerminateChild()
      modifies this`childPid, this`childRunning
      ensures Abs() == old(Abs()).(child := Absent)
    {
      childPid := -1;
      childRunning := false;
    }
  }

  function LoopHead(remaining: int, context: Context, quantum: int, ticked: nat): Round {
    Round(Program, remaining, context, quantum, ticked, Loop)
  }

  method StartOrResume(context: TaskContext, ok: bool, pid: int) returns (started: bool)
    requires pid > 0 && !context.Abs().child.Active?
    modifies context
    ensures started == ok
    ensures context.Abs() == if ok then old(context.Abs()).(child := Active) else old(context.Abs()).(done := true)
  {
    if context.childPid <= 0 {
      started := context.StartChild(ok, pid);
    } else {
      started := context.ResumeChild(ok);
    }
    if !started {
      context.SetDone();
    }
  }

  /** Pauses an unfinished child, with a failure reply when its last output cannot be drained. */
  method PauseChild(context: TaskContext, drained: bool)
    modifies context
    ensures context.Abs() == FailureReply(old(context.Abs()).(child := Halt(old(context.Abs()).child)), drained)
  {
    context.StopChild();
    if !drained {
      context.SetDone();
    }
  }

  /** Forgets a collected child and replies to the client. */
  method CollectChild(context: TaskContext)
    modifies context
    ensures context.Abs() == Context(Absent, true)
  {
    if context.childPid > 0 {
      context.childPid := -1;
      context.childRunning := false;
    }
    context.SetDone();
  }

  /**
   One loop iteration: poll, work for a second, reap, poll again. It ends the
   round for one of the causes, or has charged one time unit more.
   */
  method RunTimeUnit(node: TaskNode, quantum: int, context: TaskContext, slice: nat, env: nat -> Input,
                     ghost burst: int)
    returns (ended: Option<RunResult>, ghost n: nat, ghost cause: Cause)
    requires slice < quantum && node.task.remaining > 0 && context.Abs().child.Active?
    requires node.task.remaining == burst - slice && Lasts(burst, quantum, env, slice)
    modifies node`task, context
    ensures node.task == old(node.task).(remaining := node.task.remaining)
    ensures ended.Some? ==>
              && Ends(burst, quantum, env, n, cause)
              && (ended.value, node.task.remaining, context.Abs()) == Upshot(burst, old(context.Abs()), env, n, cause)
              && !cause.NotStarted? && slice == if cause.ChildGone? || cause.Yield? then n - 1 else n
    ensures ended.None? ==>
              && Lasts(burst, quantum, env, slice + 1)
              && node.task.remaining == burst - (slice + 1) && context.Abs() == old(context.Abs())
  {
    n, cause := slice + 1, Yield;
    if env(slice).cancel {
      context.TerminateChild();
      return Some(Abandoned), slice, Cancellation;
    }
    if !env(slice).drained {
      context.TerminateChild();
      context.SetDone();
      return Some(Requeue), slice, DrainFailure;
    }
    if node.task.remaining > 0 {
      node.task := node.task.(remaining := node.task.remaining - 1);
    }
    assert Works(burst, quantum, env, slice);
    if context.childPid > 0 && env(slice + 1).exited {
      node.task := node.task.(remaining := 0);
      CollectChild(context);
      return Some(if env(slice + 1).drained then Complete else Failed), n, ChildGone;
    }
    if env(slice + 1).preempt {
      PauseChild(context, env(slice + 1).drained);
      return Some(Requeue), n, cause;
    }
    OneMoreUnit(burst, quantum, env, slice);
    return None, n, cause;
  }

  /**
   The round of a program task as the server runs it: start or resume the
   child, then one loop iteration per time unit, then pause or collect it.
   */
  method ExecuteProgramTask(node: TaskNode, quantum: int, context: TaskContext, env: nat -> Input, pid: int)
    returns (result: RunResult, ghost n: nat, ghost cause: Cause)
    requires pid > 0 && node.task.kind.Program? && !context.Abs().child.Active?
    modifies node`task, context
    ensures Ends(old(node.task.remaining), quantum, env, n, cause)
    ensures (result, node.task.remaining, context.Abs())
            == Upshot(old(node.task.remaining), old(context.Abs()), env, n, cause)
    ensures var e := RunRound(StartOfRound(old(node.task), old(context.Abs()), quantum), env);
            && result == e.phase.result
            && node.task == old(node.task).(remaining := e.remaining)
            && context.Abs() == e.context
  {
    ghost var t, was := node.task, context.Abs();
    var started := StartOrResume(context, env(0).started, pid);
    if !started {
      n, cause := 0, NotStarted;
      RoundEnds(t, was, quantum, env, n, cause);
      return Failed, n, cause;
    }
    var slice: nat := 0;
    while slice < quantum && node.task.remaining > 0
      invariant node.task == t.(remaining := t.remaining - slice)
      invariant context.Abs() == Context(Active, was.done) && Lasts(t.remaining, quantum, env, slice)
      decreases quantum - slice
    {
      var ended;
      ended, n, cause := RunTimeUnit(node, quantum, context, slice, env, t.remaining);
      if ended.Some? {
        RoundEnds(t, was, quantum, env, n, cause);
        return ended.value, n, cause;
      }
      slice := slice + 1;
    }
    n, cause := slice, if node.task.remaining > 0 then QuantumUsed else BurstUsed;
    RoundEnds(t, was, quantum, env, n, cause);
    if node.task.remaining > 0 {
      PauseChild(context, env(slice).drained);
      return Requeue, n, cause;
    }
    CollectChild(context);
    return if env(slice).drained then Complete else Failed, n, cause;
  }
}
