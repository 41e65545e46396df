/**
 The scheduler thread with its executor: one pass of its loop on the real
 objects, and the flags it polls on the way.
 */
module SchedulerThread {
  import opened Wrappers
  import opened Tasks
  import opened SchedulerCore
  import opened SchedulerClass
  import opened Executor
  import opened System

  /** The two polls hand the round exactly the flags the transition system hands it. */
  lemma PollsAreTheFlags(scheduler: Scheduler, node: TaskNode, input: Input)
    requires scheduler.currentTask == node
    ensures scheduler.Abs().current.Some?
    ensures Polled(scheduler.Abs().current.value, input)
            == input.(cancel := scheduler.TaskShouldCancel(node), preempt := scheduler.TaskShouldPreempt(node))
  {
  }

  /** A round charges time units and changes nothing that identifies a task. */
  lemma ChargingKeepsNumbers(c: Core, remaining: int)
    requires Numbered(c) && c.current.Some?
    ensures Numbered(c.(current := Some(c.current.value.(remaining := remaining))))
  {
    var c' := c.(current := Some(c.current.value.(remaining := remaining)));
    forall id ensures Count(id, Held(c')) == Count(id, Held(c)) {
      CountHeld(id, c);
      CountHeld(id, c');
    }
    assert c.current.value in Held(c);
  }

  /** What a round makes of the shared state when nobody else takes a step meanwhile. */
  function RoundAlone(c: Core, context: Context, quantum: int, env: nat -> Input): (r: (Core, Context, RunResult))
    requires c.current.Some?
  {
    var t := c.current.value;
    var e := RunRound(StartOfRound(t, context, quantum), env);
    (c.(current := Some(t.(remaining := e.remaining))), e.context, e.phase.result)
  }

  /** And a whole pass: turn, round, return. */
  function PassAlone(c: Core, context: Context, env: nat -> Input): (r: (Core, Context, Outcome))
    requires c.current.None?
  {
    var (dispatched, outcome) := Pass(c);
    if !outcome.Dispatch? then (dispatched, context, outcome)
    else
      var (charged, after, result) := RoundAlone(dispatched, context, outcome.quantum, env);
      (Finish(charged, result).0, after, outcome)
  }

  /** The executor proper: a shell is run to its end at once, a program for at most its quantum. */
  method Execute(node: TaskNode, quantum: int, context: TaskContext, env: nat -> Input, pid: int)
    returns (result: RunResult)
    requires pid > 0 && !context.Abs().child.Active?
    modifies node`task, context
    ensures var e := RunRound(StartOfRound(old(node.task), old(context.Abs()), quantum), env);
            && result == e.phase.result
            && node.task == old(node.task).(remaining := e.remaining)
            && context.Abs() == e.context
    ensures old(node.task.kind).Shell? ==>
              result == Complete && node.task == old(node.task) && context.Abs() == old(context.Abs()).(done := true)
  {
    if node.task.kind.Shell? {
      ghost var start := StartOfRound(node.task, context.Abs(), quantum);
      assert RunRound(start, env) == RunRound(Advance(start, env(0)), env);
      context.SetDone();
      return Complete;
    }
    ghost var n, cause;
    result, n, cause := ExecuteProgramTask(node, quantum, context, env, pid);
  }

  /** The round of the running record, between the two locked regions. */
  method RunCurrent(scheduler: Scheduler, quantum: int, context: TaskContext, env: nat -> Input, pid: int)
    returns (result: RunResult)
    requires scheduler.Valid() && scheduler.currentTask != null
    requires pid > 0 && !context.Abs().child.Active?
    modifies scheduler.currentTask`task, context
    ensures scheduler.Valid()
    ensures (scheduler.Abs(), context.Abs(), result)
            == RoundAlone(old(scheduler.Abs()), old(context.Abs()), quantum, env)
  {
    ghost var before := scheduler.Abs();
    ghost var queued := Values(scheduler.queue);
    result := Execute(scheduler.currentTask, quantum, context, env, pid);
    assert Values(scheduler.queue) == queued;
    ChargingKeepsNumbers(before, scheduler.currentTask.task.remaining);
  }

  /** One pass of the thread's loop: turn, round, return. */
  method RunPass(scheduler: Scheduler, context: TaskContext, env: nat -> Input, pid: int) returns (outcome: Outcome)
    requires scheduler.Valid() && scheduler.currentTask == null
    requires pid > 0 && !context.Abs().child.Active?
    modifies scheduler, scheduler.queue, context
    ensures scheduler.Valid() && scheduler.currentTask == null
    ensures (scheduler.Abs(), context.Abs(), outcome) == PassAlone(old(scheduler.Abs()), old(context.Abs()), env)
  {
    outcome := scheduler.BeginPass();
    if outcome.Dispatch? {
      ShortenedIsPart(old(scheduler.queue), scheduler.queue);
      var result := RunCurrent(scheduler, outcome.quantum, context, env, pid);
      scheduler.FinishRound(result);
    }
  }
}
