/** What every step of the system keeps, one concern at a time. */
module Invariants {
  import opened Wrappers
  import opened Tasks
  import opened Selection
  import opened SchedulerCore
  import opened Executor
  import opened System

  // ----- where a task can be ----------------------------------------------

  /** Every task record in the system: queued, running, detached, or cleaned up. */
  function Everything(s: State): seq<Task> {
    Held(s.core) + s.detached + s.cleaned
  }

  /** Each id issued so far names exactly one record in exactly one place; no other id names any. */
  ghost predicate Conserved(s: State) {
    && 1 <= s.core.nextId == s.core.nextArrival
    && forall id :: Count(id, Everything(s)) == if 1 <= id < s.core.nextId then 1 else 0
  }

  /** Arrival numbers run along with the ids. */
  ghost predicate Stamped(s: State) {
    && (forall t :: t in s.core.waiting ==> t.arrival == t.id)
    && (s.core.current.Some? ==> s.core.current.value.arrival == s.core.current.value.id)
    && (forall t :: t in s.detached ==> t.arrival == t.id)
    && (forall t :: t in s.cleaned ==> t.arrival == t.id)
  }

  /** Every id issued has its executor record. */
  ghost predicate Indexed(s: State) {
    && (forall id :: id in s.contexts <==> 1 <= id < s.core.nextId)
    && s.history.cuts.Keys == s.contexts.Keys
  }

  lemma {:induction false} CountEverything(id: int, s: State)
    ensures Count(id, Everything(s)) ==
            Count(id, s.core.waiting) + (if s.core.current.Some? && s.core.current.value.id == id then 1 else 0)
            + Count(id, s.detached) + Count(id, s.cleaned)
  {
    CountConcat(id, Held(s.core) + s.detached, s.cleaned);
    CountConcat(id, Held(s.core), s.detached);
    CountHeld(id, s.core);
  }

  /** A queued task of the next state was queued before, was just submitted, or was just put back. */
  lemma WaitingAfter(s: State, step: Step)
    requires Enabled(s, step)
    ensures forall t :: t in Next(s, step).core.waiting ==>
              || t in s.core.waiting
              || (step.Submit? && t == Admit(s.core, NewTask(step.kind, step.client, step.predicted)))
              || (step.Return? && GoesBack(s.core.current.value, s.thread.phase.result)
                  && t == PutBack(s.core.current.value))
  {
    if step.Cancel? {
      FilterMembers(s.core.waiting, step.client);
    }
  }

  predicate Dispatches(s: State) {
    s.thread.Top? && Pass(s.core).1.Dispatch?
  }

  function Chosen(s: State): nat
    requires s.core.waiting != []
  {
    Choice(s.core.waiting, s.core.lastSelected).value
  }

  /** The state after dispatching the task at position `i`, written out. */
  function AfterDispatch(s: State, i: nat): State
    requires i < |s.core.waiting|
  {
    var t := s.core.waiting[i];
    s.(core := s.core.(waiting := Without(s.core.waiting, i),
                       current := Some(t.(state := Running, preempt := false)),
                       signals := if s.core.signals > 0 then s.core.signals - 1 else 0,
                       lastSelected := t.id),
       thread := Executing(QuantumFor(s.core.config, t), 0, Begin),
       history := s.history.(dispatches := s.history.dispatches +
                               [Dispatched(t, s.core.waiting, s.core.lastSelected, s.core.nextArrival)]))
  }

  lemma DispatchTurn(s: State)
    requires Dispatches(s)
    ensures s.core.waiting != [] && Chosen(s) < |s.core.waiting| && s.core.signals > 0
    ensures DoTurn(s) == AfterDispatch(s, Chosen(s))
    ensures s.core.waiting[Chosen(s)] in s.core.waiting
  {
  }

  /** A turn that dispatches nothing holds the same tasks after as before. */
  lemma IdleTurnHoldsTheSame(s: State)
    requires s.thread.Top? && !Dispatches(s)
    ensures DoTurn(s).core == s.core.(signals := DoTurn(s).core.signals)
    ensures DoTurn(s).core.signals == if s.core.signals > 0 then s.core.signals - 1 else 0
    ensures DoTurn(s).history == s.history
    ensures DoTurn(s).thread.Top? ==> s.core.signals > 0 && s.core.waiting == []
    ensures DoTurn(s).thread.Exited? <==> s.core.stop && s.core.active == 0
    ensures DoTurn(s).thread.Asleep? <==> MustSleep(s.core)
    ensures !DoTurn(s).thread.Executing?
  {
  }

  lemma {:induction false} CountsAfterCancel(s: State, client: int, id: int)
    ensures Count(id, Everything(DoCancel(s, client))) == Count(id, Everything(s))
  {
    CountEverything(id, s);
    CountEverything(id, DoCancel(s, client));
    CountFilters(id, s.core.waiting, client);
    CountReverse(id, Owned(s.core.waiting, client));
    CountConcat(id, s.detached, Reverse(Owned(s.core.waiting, client)));
  }

  lemma {:induction false} CountsAfterDispatch(s: State, i: nat, id: int)
    requires i < |s.core.waiting| && s.core.current.None?
    ensures Count(id, Everything(AfterDispatch(s, i))) == Count(id, Everything(s))
  {
    CountEverything(id, s);
    CountEverything(id, AfterDispatch(s, i));
    CountWithout(id, s.core.waiting, i);
  }

  lemma {:induction false} CountsAfterTurn(s: State, id: int)
    requires Enabled(s, Turn)
    ensures Count(id, Everything(DoTurn(s))) == Count(id, Everything(s))
  {
    if Dispatches(s) {
      DispatchTurn(s);
      CountsAfterDispatch(s, Chosen(s), id);
    } else {
      IdleTurnHoldsTheSame(s);
    }
  }

  lemma {:induction false} CountsAfterReturn(s: State, id: int)
    requires Enabled(s, Return)
    ensures Count(id, Everything(DoReturn(s))) == Count(id, Everything(s))
  {
    var s' := DoReturn(s);
    CountEverything(id, s);
    CountEverything(id, s');
    if GoesBack(s.core.current.value, s.thread.phase.result) {
      assert s'.cleaned == s.cleaned;
      CountConcat(id, s.core.waiting, [PutBack(s.core.current.value)]);
    } else {
      CountConcat(id, s.cleaned, s'.cleaned[|s.cleaned|..]);
      assert s'.cleaned == s.cleaned + s'.cleaned[|s.cleaned|..];
    }
  }

  lemma {:induction false} CountsAfterSubmit(s: State, t: Task, id: int)
    ensures Count(id, Everything(DoSubmit(s, t))) == Count(id, Everything(s)) + if id == s.core.nextId then 1 else 0
  {
    CountEverything(id, s);
    CountEverything(id, DoSubmit(s, t));
    CountConcat(id, s.core.waiting, [Admit(s.core, t)]);
  }

  lemma {:induction false} CountsAfterCleanUp(s: State, i: nat, id: int)
    requires i < |s.detached|
    ensures Count(id, Everything(DoCleanUp(s, i))) == Count(id, Everything(s))
  {
    CountEverything(id, s);
    CountEverything(id, DoCleanUp(s, i));
    CountWithout(id, s.detached, i);
    CountConcat(id, s.cleaned, [s.detached[i].(state := Cancelled)]);
  }

  lemma {:induction false} CountsAfterExecute(s: State, input: Input, id: int)
    requires Enabled(s, Execute(input))
    ensures Count(id, Everything(DoExecute(s, input))) == Count(id, Everything(s))
  {
    CountEverything(id, s);
    CountEverything(id, DoExecute(s, input));
  }

  /** No step loses, duplicates or invents a record; only a submission adds one. */
  lemma {:induction false} CountsAfter(s: State, step: Step, id: int)
    requires Enabled(s, step)
    ensures Count(id, Everything(Next(s, step))) ==
            Count(id, Everything(s)) + if step.Submit? && id == s.core.nextId then 1 else 0
  {
    match step
    case Submit(kind, client, predicted) => CountsAfterSubmit(s, NewTask(kind, client, predicted), id);
    case Cancel(client) => CountsAfterCancel(s, client, id);
    case CleanUp(i) => CountsAfterCleanUp(s, i, id);
    case Turn => CountsAfterTurn(s, id);
    case Execute(input) => CountsAfterExecute(s, input, id);
    case Return => CountsAfterReturn(s, id);
    case Stop =>
    case Wake =>
  }

  /** Only a submission issues a number. */
  lemma IdsAfter(s: State, step: Step)
    requires Enabled(s, step)
    ensures Next(s, step).core.nextId == s.core.nextId + if step.Submit? then 1 else 0
    ensures Next(s, step).core.nextArrival == s.core.nextArrival + if step.Submit? then 1 else 0
  {
    if step.Turn? && !Dispatches(s) {
      IdleTurnHoldsTheSame(s);
    }
  }

  lemma ConservedStep(s: State, step: Step)
    requires Conserved(s) && Enabled(s, step)
    ensures Conserved(Next(s, step))
  {
    IdsAfter(s, step);
    forall id
      ensures Count(id, Everything(Next(s, step))) == if 1 <= id < Next(s, step).core.nextId then 1 else 0
    {
      CountsAfter(s, step, id);
    }
  }

  lemma StampedCancel(s: State, client: int)
    requires Stamped(s)
    ensures Stamped(DoCancel(s, client))
  {
    FilterMembers(s.core.waiting, client);
    ReverseMembers(Owned(s.core.waiting, client));
  }

  lemma StampedTurn(s: State)
    requires Stamped(s) && Enabled(s, Turn)
    ensures Stamped(DoTurn(s))
  {
    if Dispatches(s) {
      DispatchTurn(s);
    } else {
      IdleTurnHoldsTheSame(s);
    }
  }

  lemma StampedReturn(s: State)
    requires Stamped(s) && Enabled(s, Return)
    ensures Stamped(DoReturn(s))
  {
  }

  lemma StampedStep(s: State, step: Step)
    requires Stamped(s) && s.core.nextId == s.core.nextArrival && Enabled(s, step)
    ensures Stamped(Next(s, step))
  {
    match step
    case Cancel(client) => StampedCancel(s, client);
    case CleanUp(i) => assert s.detached[i] in s.detached;
    case Turn => StampedTurn(s);
    case Return => StampedReturn(s);
    case _ =>
  }

  lemma IndexedStep(s: State, step: Step)
    requires Conserved(s) && Indexed(s) && Enabled(s, step)
    ensures Indexed(Next(s, step))
  {
    if s.core.current.Some? {
      assert s.core.current.value in Everything(s);
      InRange(s, s.core.current.value);
    }
  }

  lemma InRange(s: State, t: Task)
    requires Conserved(s) && t in Everything(s)
    ensures 1 <= t.id < s.core.nextId
  {
    var i :| 0 <= i < |Everything(s)| && Everything(s)[i] == t;
    CountMember(Everything(s), i);
  }

  // ----- counters, wake-ups and the scheduler thread ----------------------

  /**
   The counters agree with the lists, a wake-up token exists for every queued
   task, and the thread is in cond_wait only while its wait condition holds.
   */
  ghost predicate Accounted(s: State) {
    && s.core.active == |Held(s.core)|
    && |s.core.waiting| <= s.core.signals
    && (s.thread.Asleep? ==> MustSleep(s.core))
    && (s.thread.Exited? ==> s.core.stop)
  }

  lemma AccountedTurn(s: State)
    requires Accounted(s) && Enabled(s, Turn)
    ensures Accounted(DoTurn(s))
  {
    if Dispatches(s) {
      DispatchTurn(s);
    } else {
      IdleTurnHoldsTheSame(s);
    }
  }

  lemma AccountedStep(s: State, step: Step)
    requires Accounted(s) && Enabled(s, step)
    ensures Accounted(Next(s, step))
  {
    match step
    case Cancel(client) => FilterLengths(s.core.waiting, client);
    case Turn => AccountedTurn(s);
    case _ =>
  }

  // ----- what a task looks like in the queue and in a round ---------------

  /** A queued task carries no flags; a program still has work, a shell has not run yet. */
  predicate Ready(t: Task) {
    && t.state == Waiting && !t.preempt && !t.cancel
    && (t.kind.Shell? ==> t.predicted == t.remaining == -1 && t.rounds == 0)
    && (t.kind.Program? ==> 0 < t.remaining <= t.predicted)
  }

  predicate InRound(t: Task) {
    && t.state == Running
    && (t.kind.Shell? ==> t.predicted == t.remaining == -1 && t.rounds == 0)
    && (t.kind.Program? ==> t.remaining <= t.predicted)
  }

  ghost predicate QueueReady(s: State) {
    && s.core.config.firstQuantum > 0 && s.core.config.laterQuantum > 0 && s.core.config.defaultBurst > 0
    && forall t :: t in s.core.waiting ==> Ready(t)
  }

  /** The scheduler thread is in a round exactly when a task runs, and the round is sound. */
  ghost predicate RoundSound(s: State) {
    && Furnished(s)
    && (s.core.current.Some? ==>
          && InRound(s.core.current.value)
          && s.thread.quantum == QuantumFor(s.core.config, s.core.current.value)
          && Sound(RoundOf(s)))
  }

  /** At most one child process runs, and it is the one of the running task. */
  ghost predicate OneChildRuns(s: State) {
    forall id :: id in s.contexts && s.contexts[id].child.Active? ==>
      s.core.current.Some? && s.core.current.value.id == id
  }

  lemma QueueReadyStep(s: State, step: Step)
    requires QueueReady(s) && Enabled(s, step)
    requires s.core.current.Some? ==> InRound(s.core.current.value)
    ensures QueueReady(Next(s, step))
  {
    WaitingAfter(s, step);
  }

  lemma RoundSoundDispatch(s: State, i: nat)
    requires Conserved(s) && Indexed(s) && QueueReady(s) && OneChildRuns(s)
    requires i < |s.core.waiting| && s.core.current.None?
    ensures RoundSound(AfterDispatch(s, i)) && OneChildRuns(AfterDispatch(s, i))
  {
    var t := s.core.waiting[i];
    assert t in s.core.waiting && t in Everything(s);
    InRange(s, t);
  }

  lemma RoundSoundTurn(s: State)
    requires Conserved(s) && Indexed(s) && QueueReady(s) && OneChildRuns(s) && RoundSound(s) && Enabled(s, Turn)
    ensures RoundSound(DoTurn(s)) && OneChildRuns(DoTurn(s))
  {
    if Dispatches(s) {
      DispatchTurn(s);
      RoundSoundDispatch(s, Chosen(s));
    } else {
      IdleTurnHoldsTheSame(s);
    }
  }

  lemma RoundSoundExecute(s: State, input: Input)
    requires RoundSound(s) && OneChildRuns(s) && Enabled(s, Execute(input))
    ensures RoundSound(DoExecute(s, input)) && OneChildRuns(DoExecute(s, input))
  {
    AdvanceKeepsSound(RoundOf(s), Polled(s.core.current.value, input));
  }

  lemma RoundSoundStep(s: State, step: Step)
    requires Conserved(s) && Indexed(s) && QueueReady(s) && OneChildRuns(s) && RoundSound(s) && Enabled(s, step)
    ensures RoundSound(Next(s, step)) && OneChildRuns(Next(s, step))
  {
    match step
    case Submit(_, _, _) =>
      if s.core.current.Some? {
        assert s.core.current.value in Everything(s);
        InRange(s, s.core.current.value);
      }
    case Turn => RoundSoundTurn(s);
    case Execute(input) => RoundSoundExecute(s, input);
    case _ =>
  }
}
