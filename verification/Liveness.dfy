/**
 Termination: every step of the scheduler thread uses up a potential that only
 the outside world can raise, and the thread never stops short of being done.
 */
module Liveness {
  import opened Wrappers
  import opened Tasks
  import opened SchedulerCore
  import opened Executor
  import opened System
  import opened Invariants
  import opened Policy
  import opened Theorems

  /** Steps the scheduler thread takes by itself. */
  predicate ThreadStep(step: Step) {
    step.Turn? || step.Execute? || step.Return?
  }

  /** Ten steps cover one time unit of a program with its share of the round around it. */
  function QueuePotential(w: seq<Task>): nat {
    if w == [] then 0 else (if w[0].kind.Shell? then 2 else 10 * Weight(w[0])) + QueuePotential(w[1..])
  }

  function PhasePotential(ticked: nat, phase: Phase): int {
    match phase
    case Begin => 1
    case Loop => if ticked == 0 then 0 else 6
    case Work => if ticked == 0 then -1 else 5
    case Reap => 8
    case Check => 7
    case Close => 5
    case Report(_) => 4
  }

  function ThreadPotential(s: State): int {
    match s.thread
    case Top => 1
    case Asleep => 0
    case Exited => 0
    case Executing(_, ticked, phase) =>
      if s.core.current.None? then 0
      else if s.core.current.value.kind.Shell? then (if phase.Begin? then 3 else 2)
      else if phase.Report? && !phase.result.Requeue? then 2
      else 10 * s.core.current.value.remaining + PhasePotential(ticked, phase)
  }

  /** How many steps the scheduler thread can still take without help from outside. */
  function Potential(s: State): int {
    QueuePotential(s.core.waiting) + s.core.signals + ThreadPotential(s)
  }

  /** What a step from outside adds: new work, a wake-up, or a drain that fails before the first time unit. */
  function Credit(s: State, step: Step): nat
    requires Enabled(s, step)
  {
    match step
    case Submit(kind, client, predicted) => 2 + 10 * Weight(Admit(s.core, NewTask(kind, client, predicted)))
    case Stop => 1
    case Wake => 1
    case Execute(input) => if s.thread.phase.Work? && s.thread.ticked == 0 && !input.drained then 6 else 0
    case _ => 0
  }

  lemma {:induction false} QueuePotentialConcat(a: seq<Task>, b: seq<Task>)
    ensures QueuePotential(a + b) == QueuePotential(a) + QueuePotential(b)
  {
    if a == [] {
      assert a + b == b;
    } else {
      assert (a + b)[0] == a[0] && (a + b)[1..] == a[1..] + b;
      QueuePotentialConcat(a[1..], b);
    }
  }

  lemma {:induction false} QueuePotentialWithout(w: seq<Task>, i: nat)
    requires i < |w|
    ensures QueuePotential(w) ==
            QueuePotential(Without(w, i)) + if w[i].kind.Shell? then 2 else 10 * Weight(w[i])
  {
    var rest := w[i..];
    assert w == w[..i] + rest && rest[1..] == w[i + 1..];
    QueuePotentialConcat(w[..i], rest);
    QueuePotentialConcat(w[..i], rest[1..]);
  }

  lemma {:induction false} QueuePotentialOthers(w: seq<Task>, client: int)
    ensures QueuePotential(Others(w, client)) <= QueuePotential(w)
  {
    if w != [] {
      QueuePotentialOthers(w[1..], client);
      QueuePotentialConcat([w[0]], Others(w[1..], client));
    }
  }

  lemma PotentialIsNatural(s: State)
    requires RoundSound(s)
    ensures Potential(s) >= 0
  {
  }

  lemma PotentialExecute(s: State, input: Input)
    requires RoundSound(s) && Enabled(s, Execute(input))
    ensures Potential(DoExecute(s, input)) + 1 <= Potential(s) + Credit(s, Execute(input))
  {
  }

  lemma PotentialReturn(s: State)
    requires RoundSound(s) && Enabled(s, Return)
    ensures Potential(DoReturn(s)) + 1 <= Potential(s)
  {
    QueuePotentialConcat(s.core.waiting, [PutBack(s.core.current.value)]);
  }

  lemma PotentialTurn(s: State)
    requires RoundSound(s) && QueueReady(s) && Enabled(s, Turn)
    ensures Potential(DoTurn(s)) + 1 <= Potential(s)
  {
    if Dispatches(s) {
      DispatchTurn(s);
      assert Ready(s.core.waiting[Chosen(s)]);
      QueuePotentialWithout(s.core.waiting, Chosen(s));
    } else {
      IdleTurnHoldsTheSame(s);
    }
  }

  lemma PotentialStep(s: State, step: Step)
    requires RoundSound(s) && QueueReady(s) && Enabled(s, step)
    ensures Potential(Next(s, step)) + (if ThreadStep(step) then 1 else 0) <= Potential(s) + Credit(s, step)
  {
    match step
    case Submit(kind, client, predicted) =>
      QueuePotentialConcat(s.core.waiting, [Admit(s.core, NewTask(kind, client, predicted))]);
    case Cancel(client) => QueuePotentialOthers(s.core.waiting, client);
    case Turn => PotentialTurn(s);
    case Execute(input) => PotentialExecute(s, input);
    case Return => PotentialReturn(s);
    case _ =>
  }

  function ThreadSteps(steps: seq<Step>): nat {
    if steps == [] then 0 else (if ThreadStep(steps[0]) then 1 else 0) + ThreadSteps(steps[1..])
  }

  function TotalCredit(s: State, steps: seq<Step>): nat
    requires Run(s, steps).Some?
    decreases |steps|
  {
    if steps == [] then 0 else Credit(s, steps[0]) + TotalCredit(Next(s, steps[0]), steps[1..])
  }

  /**
   In every run the steps of the scheduler thread are paid for: by the
   potential it started with and by what the outside world added since.
   */
  lemma {:induction false} ThreadStepsArePaidFor(s: State, steps: seq<Step>)
    requires Inv(s) && Run(s, steps).Some?
    ensures ThreadSteps(steps) + Potential(Run(s, steps).value) <= Potential(s) + TotalCredit(s, steps)
    decreases |steps|
  {
    if steps != [] {
      InvStep(s, steps[0]);
      PotentialStep(s, steps[0]);
      ThreadStepsArePaidFor(Next(s, steps[0]), steps[1..]);
    }
  }

  /** In particular a reachable state cannot run the thread for longer than its potential on its own. */
  lemma {:induction false} RunsQuiesce(s: State, steps: seq<Step>)
    requires Reachable(s) && Run(s, steps).Some?
    ensures ThreadSteps(steps) <= Potential(s) + TotalCredit(s, steps)
  {
    ReachableInv(s);
    ThreadStepsArePaidFor(s, steps);
    InvRun(s, steps);
    PotentialIsNatural(Run(s, steps).value);
  }

  /** The thread can take no step of its own. */
  ghost predicate Quiescent(s: State) {
    forall step :: ThreadStep(step) ==> !Enabled(s, step)
  }

  lemma AccountedWhenReachable(s: State)
    requires Reachable(s)
    ensures Accounted(s) && RoundSound(s) && Furnished(s)
  {
    ReachableInv(s);
  }

  /**
   The thread is stuck only when it has exited or sleeps with nothing to do; a
   sleeping thread has seen no stop request. So a run that quiesces after a stop
   request has exited, and nothing submitted before the exit is left.
   */
  lemma QuiescentMeansDone(s: State)
    requires Reachable(s) && Quiescent(s)
    ensures s.thread.Exited? || (s.thread.Asleep? && Held(s.core) == [] && !s.core.stop)
  {
    AccountedWhenReachable(s);
    assert !Enabled(s, Turn) && !Enabled(s, Return);
    assert !Enabled(s, Execute(Input(true, false, true, false, false)));
  }

  ghost predicate ThreadOnly(steps: seq<Step>) {
    forall i :: 0 <= i < |steps| ==> ThreadStep(steps[i])
  }

  /** A step the thread takes when the outside world does no harm. */
  function OwnStep(s: State): Step {
    if s.thread.Top? then Turn
    else if s.thread.Executing? && s.thread.phase.Report? then Return
    else Execute(Input(true, false, true, false, false))
  }

  lemma OwnStepIsEnabled(s: State)
    requires Accounted(s) && RoundSound(s) && s.core.stop && !s.thread.Exited?
    ensures Enabled(s, OwnStep(s)) && ThreadStep(OwnStep(s)) && Credit(s, OwnStep(s)) == 0
    ensures Next(s, OwnStep(s)).core.stop
    ensures Next(s, OwnStep(s)).thread.Exited? ==> Held(Next(s, OwnStep(s)).core) == []
  {
  }

  lemma {:induction false} RunConcat(s: State, a: seq<Step>, b: seq<Step>)
    requires Run(s, a).Some?
    ensures Run(s, a + b) == Run(Run(s, a).value, b)
    decreases |a|
  {
    if a == [] {
      assert a + b == b;
    } else {
      assert (a + b)[0] == a[0] && (a + b)[1..] == a[1..] + b;
      RunConcat(Next(s, a[0]), a[1..], b);
    }
  }

  lemma ReachableNext(s: State, step: Step)
    requires Reachable(s) && Enabled(s, step)
    ensures Reachable(Next(s, step))
  {
    var config, steps :| Run(Init(config), steps) == Some(s);
    RunConcat(Init(config), steps, [step]);
    assert Run(s, [step]) == Run(Next(s, step), []);
    assert Run(Init(config), steps + [step]) == Some(Next(s, step));
  }

  /** A stopped thread that has not exited takes a step of its own and is closer to its exit. */
  lemma OwnStepProgress(s: State)
    requires Reachable(s) && s.core.stop && !s.thread.Exited?
    ensures Enabled(s, OwnStep(s)) && ThreadStep(OwnStep(s))
    ensures var s' := Next(s, OwnStep(s));
            && Reachable(s') && s'.core.stop && 0 <= Potential(s') < Potential(s)
            && (s'.thread.Exited? ==> Held(s'.core) == [])
  {
    ReachableInv(s);
    OwnStepIsEnabled(s);
    PotentialStep(s, OwnStep(s));
    ReachableNext(s, OwnStep(s));
    ReachableInv(Next(s, OwnStep(s)));
    PotentialIsNatural(Next(s, OwnStep(s)));
  }

  lemma {:induction false} StoppedThreadFinishes(s: State) returns (steps: seq<Step>)
    requires Reachable(s) && s.core.stop && !s.thread.Exited?
    ensures ThreadOnly(steps) && |steps| <= Potential(s) && Run(s, steps).Some?
    ensures Run(s, steps).value.thread.Exited? && Held(Run(s, steps).value.core) == []
    decreases Potential(s)
  {
    var step := OwnStep(s);
    OwnStepProgress(s);
    var rest := [];
    if !Next(s, step).thread.Exited? {
      rest := StoppedThreadFinishes(Next(s, step));
    }
    steps := [step] + rest;
    assert steps[0] == step && steps[1..] == rest;
  }

  /**
   Shutdown: from every state reached after a stop request the thread can get to
   its exit by itself, within its potential, with nothing queued or running left.
   */
  lemma {:induction false} StopLeadsToExit(s: State)
    requires Reachable(s) && s.core.stop && !s.thread.Exited?
    ensures exists steps :: ThreadOnly(steps) && |steps| <= Potential(s) && Run(s, steps).Some?
                            && Run(s, steps).value.thread.Exited? && Held(Run(s, steps).value.core) == []
  {
    var steps := StoppedThreadFinishes(s);
  }

  /** After the exit nothing is dispatched any more: a later submission waits for ever unless it is cancelled. */
  lemma {:induction false} ExitIsFinal(s: State, steps: seq<Step>)
    requires Inv(s) && s.thread.Exited? && Run(s, steps).Some?
    ensures var s' := Run(s, steps).value;
            && s'.thread.Exited? && s'.history.dispatches == s.history.dispatches
            && forall t :: t in s.core.waiting ==> t in s'.core.waiting || Gone(s', t.id)
    decreases |steps|
  {
    if steps != [] {
      var s1, rest := Next(s, steps[0]), steps[1..];
      InvStep(s, steps[0]);
      ExitIsFinal(s1, rest);
      forall t | t in s.core.waiting
        ensures t in Run(s, steps).value.core.waiting || Gone(Run(s, steps).value, t.id)
      {
        StaysOrGoes(s, steps[0], t);
        if t !in s1.core.waiting {
          GoneStays(s1, rest, t.id);
        }
      }
    }
  }

  lemma {:induction false} GoneStays(s: State, steps: seq<Step>, id: int)
    requires Gone(s, id) && Run(s, steps).Some?
    ensures Gone(Run(s, steps).value, id)
    decreases |steps|
  {
    if steps != [] {
      GoneAfter(s, steps[0], id);
      GoneStays(Next(s, steps[0]), steps[1..], id);
    }
  }
}
