/**
 The executor of the scheduler's own test harness: the contract the scheduler
 was written against, and how the server's executor relates to it.
 */
module TestExecutor {
  import opened Tasks
  import opened SchedulerClass
  import opened Executor

  /**
   The surroundings in which the server's executor behaves like the harness:
   children start, drains succeed, and a child exits exactly when its burst is
   used up.
   */
  function Punctual(burst: int, cancel: nat -> bool, preempt: nat -> bool): nat -> Input {
    (k: nat) => Input(true, cancel(k), true, k == burst, preempt(k))
  }

  /** A round of the server's executor in punctual surroundings, begun without a child. */
  function PunctualRound(t: Task, quantum: int, cancel: nat -> bool, preempt: nat -> bool): (r: Round)
    ensures r.phase.Report?
  {
    RunRound(StartOfRound(t, Context(Absent, false), quantum), Punctual(t.remaining, cancel, preempt))
  }

  /**
   What a round promises the scheduler, without saying how it is run. `n` is
   the number of time units charged. The completion test comes before the
   preemption test, so a round that yields has work left.
   */
  ghost predicate KeepsContract(before: Task, after: Task, quantum: int, cancel: nat -> bool, preempt: nat -> bool,
                                result: RunResult)
  {
    var n := before.remaining - after.remaining;
    && after == before.(remaining := after.remaining)
    && (before.kind.Shell? ==> n == 0 && result == Complete)
    && (before.kind.Program? ==>
          && 0 <= n && (n == 0 || (n <= quantum && 0 <= after.remaining))
          && (forall k: nat :: k < n ==> !cancel(k))
          && (forall k: nat :: 0 < k < n ==> !preempt(k))
          && !result.Failed?
          && (result.Complete? <==> after.remaining <= 0)
          && (result.Abandoned? <==> after.remaining > 0 && n < quantum && !(n > 0 && preempt(n)) && cancel(n))
          && (result.Requeue? <==> after.remaining > 0 && (n >= quantum || (n > 0 && preempt(n)))))
  }

  /** The contract leaves no choice: it fixes the result and the burst left over. */
  lemma ContractDetermines(t: Task, a: Task, b: Task, quantum: int, cancel: nat -> bool, preempt: nat -> bool,
                           ra: RunResult, rb: RunResult)
    requires KeepsContract(t, a, quantum, cancel, preempt, ra)
    requires KeepsContract(t, b, quantum, cancel, preempt, rb)
    ensures a == b && ra == rb
  {
  }

  lemma PunctualStart(t: Task, quantum: int, cancel: nat -> bool, preempt: nat -> bool)
    ensures var e := PunctualRound(t, quantum, cancel, preempt);
            if t.kind.Shell? then e.phase == Report(Complete) && e.remaining == t.remaining
            else e == RunRound(LoopHead(t.remaining, Context(Active, false), quantum, 0),
                               Punctual(t.remaining, cancel, preempt))
  {
    var env := Punctual(t.remaining, cancel, preempt);
    var e := StartOfRound(t, Context(Absent, false), quantum);
    assert RunRound(e, env) == RunRound(Advance(e, env(0)), env);
  }

  /** One time unit of the server's executor in punctual surroundings. */
  lemma PunctualUnit(burst: int, quantum: int, slice: nat, cancel: nat -> bool, preempt: nat -> bool)
    requires slice < quantum && slice < burst
    ensures var env := Punctual(burst, cancel, preempt);
            var e := RunRound(LoopHead(burst - slice, Context(Active, false), quantum, slice), env);
            if cancel(slice) then e.phase == Report(Abandoned) && e.remaining == burst - slice
            else if burst - slice == 1 then e.phase == Report(Complete) && e.remaining == 0
            else if preempt(slice + 1) then e.phase == Report(Requeue) && e.remaining == burst - slice - 1
            else e == RunRound(LoopHead(burst - slice - 1, Context(Active, false), quantum, slice + 1), env)
  {
    RunIteration(LoopHead(burst - slice, Context(Active, false), quantum, slice), Punctual(burst, cancel, preempt));
  }

  lemma PunctualClose(burst: int, quantum: int, slice: nat, cancel: nat -> bool, preempt: nat -> bool)
    requires !(slice < quantum && slice < burst)
    ensures var e := RunRound(LoopHead(burst - slice, Context(Active, false), quantum, slice),
                              Punctual(burst, cancel, preempt));
            e.phase == Report(if slice < burst then Requeue else Complete) && e.remaining == burst - slice
  {
    RunIteration(LoopHead(burst - slice, Context(Active, false), quantum, slice), Punctual(burst, cancel, preempt));
  }

  /** The harness executor: one loop turn per time unit, polling the two flags as it goes. */
  method FakeExecutor(node: TaskNode, quantum: int, cancel: nat -> bool, preempt: nat -> bool)
    returns (result: RunResult)
    modifies node`task
    ensures KeepsContract(old(node.task), node.task, quantum, cancel, preempt, result)
    ensures var e := PunctualRound(old(node.task), quantum, cancel, preempt);
            result == e.phase.result && node.task.remaining == e.remaining
  {
    ghost var burst := node.task.remaining;
    ghost var env := Punctual(burst, cancel, preempt);
    ghost var whole := PunctualRound(node.task, quantum, cancel, preempt);
    PunctualStart(node.task, quantum, cancel, preempt);
    if node.task.kind.Shell? {
      return Complete;
    }
    var slice: nat := 0;
    while slice < quantum && node.task.remaining > 0
      invariant node.task == old(node.task).(remaining := burst - slice)
      invariant slice == 0 || (slice <= quantum && slice < burst)
      invariant forall k: nat :: k < slice ==> !cancel(k)
      invariant forall k: nat :: 0 < k <= slice ==> !preempt(k)
      invariant whole == RunRound(LoopHead(node.task.remaining, Context(Active, false), quantum, slice), env)
      decreases quantum - slice
    {
      PunctualUnit(burst, quantum, slice, cancel, preempt);
      if cancel(slice) {
        return Abandoned;
      }
      node.task := node.task.(remaining := node.task.remaining - 1);
      if node.task.remaining <= 0 {
        return Complete;
      }
      if preempt(slice + 1) {
        return Requeue;
      }
      slice := slice + 1;
    }
    PunctualClose(burst, quantum, slice, cancel, preempt);
    return if node.task.remaining > 0 then Requeue else Complete;
  }
}
