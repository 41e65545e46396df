/**
 How tasks leave the scheduler: what a returned round does to its task, and over
 whole runs which tasks end cancelled, which finished, and which not at all.
 */
module Endings {
  import opened Wrappers
  import opened Tasks
  import opened SchedulerCore
  import opened Executor
  import opened System
  import opened Invariants
  import opened Policy
  import opened Accounting
  import opened Theorems
  import opened Liveness
  import opened Shutdown

  // ----- the return from a round ------------------------------------------

  /**
   A round that asks for a requeue with burst left, uncancelled, puts its task
   back at the tail with one round more and a wake-up token. Any other round
   ends it: cancelled when it was cancelled, gave up or failed with burst left,
   finished otherwise. Nothing else changes.
   */
  lemma ReturnsOrEnds(s: State)
    requires Reachable(s) && Enabled(s, Return)
    ensures var t, r, s' := s.core.current.value, s.thread.phase.result, Next(s, Return);
            if r == Requeue && !t.cancel && t.remaining > 0 then
              && s'.core == s.core.(current := None, signals := s.core.signals + 1,
                                    waiting := s.core.waiting
                                      + [t.(rounds := t.rounds + 1, state := Waiting, preempt := false)])
              && s'.cleaned == s.cleaned
            else
              && s'.core == s.core.(current := None, active := s.core.active - 1)
              && s'.cleaned == s.cleaned
                 + [t.(state := if t.cancel || r == Abandoned || (r == Failed && t.remaining > 0)
                                then Cancelled else Finished)]
  {
    AccountedWhenReachable(s);
  }

  // ----- cancelled or finished --------------------------------------------

  /** What gives a task up: its client cancels it while it is queued or running, or its child does not start. */
  ghost predicate GivesUp(s: State, step: Step, id: int) {
    || (step.Cancel? && exists t :: t in Held(s.core) && t.id == id && t.client == step.client)
    || (&& step.Execute? && s.thread.Executing? && s.thread.phase.Begin? && !step.input.started
        && s.core.current.Some? && s.core.current.value.id == id && s.core.current.value.kind.Program?)
  }

  /** Somewhere in the run the task is given up. */
  ghost predicate GivenUp(s: State, steps: seq<Step>, id: int)
    decreases |steps|
  {
    steps != [] && Enabled(s, steps[0])
    && (GivesUp(s, steps[0], id) || GivenUp(Next(s, steps[0]), steps[1..], id))
  }

  ghost predicate MarkedRunning(s: State, id: int, given: bool) {
    s.core.current.Some? && s.core.current.value.id == id && s.thread.Executing? ==>
      var t := s.core.current.value;
      && (given <==> t.cancel || (s.thread.phase == Report(Failed) && t.remaining > 0))
      && (s.thread.phase == Report(Abandoned) ==> t.cancel)
  }

  /** Wherever the task is, it shows whether it has been given up. */
  ghost predicate Marked(s: State, id: int, given: bool) {
    && (given ==> id < s.core.nextId)
    && (forall t :: t in s.core.waiting && t.id == id ==> !given)
    && MarkedRunning(s, id, given)
    && (forall t :: t in s.detached && t.id == id ==> given && t.state != Finished)
    && (forall t :: t in s.cleaned && t.id == id ==> t.state == if given then Cancelled else Finished)
  }

  lemma MarkedSubmit(s: State, t: Task, id: int, given: bool)
    requires Marked(s, id, given)
    ensures Marked(DoSubmit(s, t), id, given)
  {
  }

  /** A cancelled task is held once: it leaves the queue, or it is running and flagged. */
  lemma MarkedCancel(s: State, client: int, id: int, given: bool)
    requires Conserved(s) && Indexed(s) && QueueReady(s) && Marked(s, id, given) && Enabled(s, Cancel(client))
    ensures Marked(DoCancel(s, client), id, given || GivesUp(s, Cancel(client), id))
  {
    FilterMembers(s.core.waiting, client);
    ReverseMembers(Owned(s.core.waiting, client));
    IssuedIds(s);
    GoneIsNotHeld(s);
    if s.core.current.Some? {
      CurrentIsNotQueued(s);
    }
    QueueIsDistinct(s);
  }

  lemma MarkedCleanUp(s: State, i: nat, id: int, given: bool)
    requires Marked(s, id, given) && i < |s.detached|
    ensures Marked(DoCleanUp(s, i), id, given)
  {
    assert s.detached[i] in s.detached;
  }

  lemma MarkedTurn(s: State, id: int, given: bool)
    requires QueueReady(s) && Marked(s, id, given) && Enabled(s, Turn)
    ensures Marked(DoTurn(s), id, given)
  {
    if Dispatches(s) {
      DispatchTurn(s);
      assert Ready(s.core.waiting[Chosen(s)]);
    } else {
      IdleTurnHoldsTheSame(s);
    }
  }

  lemma MarkedExecute(s: State, input: Input, id: int, given: bool)
    requires Conserved(s) && Indexed(s) && RoundSound(s) && Marked(s, id, given) && Enabled(s, Execute(input))
    ensures Marked(DoExecute(s, input), id, given || GivesUp(s, Execute(input), id))
  {
    IssuedIds(s);
    CurrentIsNotQueued(s);
    GoneIsNotHeld(s);
    assert s.core.current.value in Held(s.core);
  }

  lemma MarkedReturn(s: State, id: int, given: bool)
    requires Conserved(s) && RoundSound(s) && Marked(s, id, given) && Enabled(s, Return)
    ensures Marked(DoReturn(s), id, given)
  {
  }

  lemma MarkedStep(s: State, step: Step, id: int, given: bool)
    requires Conserved(s) && Indexed(s) && QueueReady(s) && RoundSound(s) && Marked(s, id, given) && Enabled(s, step)
    ensures Marked(Next(s, step), id, given || GivesUp(s, step, id))
  {
    match step
    case Submit(kind, client, predicted) => MarkedSubmit(s, NewTask(kind, client, predicted), id, given);
    case Cancel(client) => MarkedCancel(s, client, id, given);
    case CleanUp(i) => MarkedCleanUp(s, i, id, given);
    case Turn => MarkedTurn(s, id, given);
    case Execute(input) => MarkedExecute(s, input, id, given);
    case Return => MarkedReturn(s, id, given);
    case Stop =>
    case Wake =>
  }

  lemma MarkedWhenReachable(s: State)
    requires Reachable(s)
    ensures Conserved(s) && Indexed(s) && QueueReady(s) && RoundSound(s)
  {
    ReachableInv(s);
  }

  lemma {:induction false} MarkedRun(s: State, steps: seq<Step>, id: int, given: bool)
    requires Reachable(s) && Marked(s, id, given) && Run(s, steps).Some?
    ensures Marked(Run(s, steps).value, id, given || GivenUp(s, steps, id))
    decreases |steps|
  {
    if steps != [] {
      MarkedWhenReachable(s);
      MarkedStep(s, steps[0], id, given);
      ReachableNext(s, steps[0]);
      MarkedRun(Next(s, steps[0]), steps[1..], id, given || GivesUp(s, steps[0], id));
    }
  }

  /** A program that has finished has no burst left. */
  ghost predicate FinishedIsUsedUp(s: State) {
    forall t :: t in s.cleaned && t.kind.Program? && t.state == Finished ==> t.remaining == 0
  }

  lemma {:induction false} FinishedIsUsedUpRun(s: State, steps: seq<Step>)
    requires Reachable(s) && FinishedIsUsedUp(s) && Run(s, steps).Some?
    ensures FinishedIsUsedUp(Run(s, steps).value)
    decreases |steps|
  {
    if steps != [] {
      MarkedWhenReachable(s);
      FinishedIsUsedUpStep(s, steps[0]);
      ReachableNext(s, steps[0]);
      FinishedIsUsedUpRun(Next(s, steps[0]), steps[1..]);
    }
  }

  lemma FinishedIsUsedUpStep(s: State, step: Step)
    requires RoundSound(s) && FinishedIsUsedUp(s) && Enabled(s, step)
    ensures FinishedIsUsedUp(Next(s, step))
  {
    if step.Turn? && !Dispatches(s) {
      IdleTurnHoldsTheSame(s);
    }
  }

  /**
   Over every run: of the tasks handed to the cleanup, exactly those are
   cancelled that were given up; all others are finished, and a finished
   program has no burst left. So no unfinished work is dropped.
   */
  lemma {:induction false} CancelledExactlyWhen(config: Option<Config>, steps: seq<Step>, t: Task)
    requires Run(Init(config), steps).Some? && t in Run(Init(config), steps).value.cleaned
    ensures t.state == Cancelled <==> GivenUp(Init(config), steps, t.id)
    ensures t.state == Finished <==> !GivenUp(Init(config), steps, t.id)
    ensures t.state == Finished && t.kind.Program? ==> t.remaining == 0
  {
    assert Run(Init(config), []) == Some(Init(config));
    MarkedRun(Init(config), steps, t.id, false);
    FinishedIsUsedUpRun(Init(config), steps);
  }

  // ----- finished, if and only if -----------------------------------------

  lemma {:induction false} WithdrawnIsGivenUp(s: State, steps: seq<Step>, id: int)
    requires Withdrawn(s, steps, id)
    ensures GivenUp(s, steps, id)
    decreases |steps|
  {
    if Withdraws(s, steps[0], id) {
      var t :| t in s.core.waiting && t.id == id && t.client == steps[0].client;
      assert t in Held(s.core);
    } else {
      WithdrawnIsGivenUp(Next(s, steps[0]), steps[1..], id);
    }
  }

  /** With nothing running, an issued task is queued or gone. */
  lemma {:induction false} QueuedOrGone(s: State, id: int)
    requires Conserved(s) && s.core.current.None? && 1 <= id < s.core.nextId
    ensures Gone(s, id) || exists t :: t in s.core.waiting && t.id == id
  {
    CountEverything(id, s);
    CountConcat(id, s.detached, s.cleaned);
    if Count(id, s.core.waiting) > 0 {
      CountedIsMember(id, s.core.waiting);
    } else {
      CountedIsMember(id, s.detached + s.cleaned);
    }
  }

  /**
   Over every run that leaves the thread nothing to do: a task has finished
   exactly when it was submitted in time and never given up, and it has been
   taken away unfinished exactly when it was given up.
   */
  lemma {:induction false} FinishedExactlyWhen(config: Option<Config>, steps: seq<Step>, id: int)
    requires Run(Init(config), steps).Some? && Quiescent(Run(Init(config), steps).value)
    requires 1 <= id < Run(Init(config), steps).value.core.nextId
    ensures (exists t :: t in Run(Init(config), steps).value.cleaned && t.id == id && t.state == Finished)
            <==> SubmittedInTime(Init(config), steps, id) && !GivenUp(Init(config), steps, id)
    ensures (exists t :: t in Run(Init(config), steps).value.detached + Run(Init(config), steps).value.cleaned
                         && t.id == id && t.state != Finished)
            <==> GivenUp(Init(config), steps, id)
  {
    var end, given := Run(Init(config), steps).value, GivenUp(Init(config), steps, id);
    assert Run(Init(config), []) == Some(Init(config));
    MarkedRun(Init(config), steps, id, false);
    ServedExactlyWhen(config, steps, id);
    QuiescentMeansDone(end);
    MarkedWhenReachable(end);
    QueuedOrGone(end, id);
    if Withdrawn(Init(config), steps, id) {
      WithdrawnIsGivenUp(Init(config), steps, id);
    }
    if Gone(end, id) {
      var t :| t in end.detached + end.cleaned && t.id == id;
      assert t in end.detached || t in end.cleaned;
      assert t.state != Finished <==> given;
    }
  }
}
