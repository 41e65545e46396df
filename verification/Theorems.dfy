/** The invariant of the whole system, and what it means for every run. */
module Theorems {
  import opened Wrappers
  import opened Tasks
  import opened SchedulerCore
  import opened Executor
  import opened System
  import opened Invariants
  import opened Policy
  import opened Accounting

  // ----- replies ----------------------------------------------------------

  /** A client has its answer exactly when the round completed or failed, or a drain has failed before. */
  ghost predicate Replied(s: State) {
    && (forall t :: t in s.core.waiting && t.id in s.contexts ==>
          (s.contexts[t.id].done <==> t.id in s.history.undrained))
    && (s.core.current.Some? && s.core.current.value.id in s.contexts && s.thread.Executing? ==>
          var id := s.core.current.value.id;
          (s.contexts[id].done <==>
             id in s.history.undrained || s.thread.phase == Report(Complete) || s.thread.phase == Report(Failed)))
    && (forall id :: id in s.history.undrained ==> id < s.core.nextId)
  }

  lemma RepliedExecute(s: State, input: Input)
    requires Replied(s) && Conserved(s) && Indexed(s) && RoundSound(s) && Enabled(s, Execute(input))
    ensures Replied(DoExecute(s, input))
  {
    IssuedIds(s);
    CurrentIsNotQueued(s);
  }

  lemma RepliedTurn(s: State)
    requires Replied(s) && Conserved(s) && Indexed(s) && Enabled(s, Turn)
    ensures Replied(DoTurn(s))
  {
    IssuedIds(s);
    if Dispatches(s) {
      DispatchTurn(s);
    } else {
      IdleTurnHoldsTheSame(s);
    }
  }

  lemma RepliedStep(s: State, step: Step)
    requires Replied(s) && Conserved(s) && Indexed(s) && RoundSound(s) && Enabled(s, step)
    ensures Replied(Next(s, step))
  {
    IssuedIds(s);
    match step
    case Cancel(client) => FilterMembers(s.core.waiting, client);
    case Turn => RepliedTurn(s);
    case Execute(input) => RepliedExecute(s, input);
    case _ =>
  }

  // ----- every step, every run --------------------------------------------

  ghost predicate Inv(s: State) {
    && Conserved(s) && Stamped(s) && Indexed(s)
    && Accounted(s) && QueueReady(s) && RoundSound(s) && OneChildRuns(s)
    && ShellsInOrder(s.core.waiting) && Chronicled(s) && NearShortest(s) && ShellsServedInOrder(s) && Carried(s)
    && WithinBudget(s) && Ledgered(s) && Settled(s) && Replied(s)
  }

  lemma InitHoldsNothing(config: Option<Config>)
    ensures var s := Init(config);
            && Everything(s) == [] && Conserved(s) && Stamped(s) && Indexed(s)
            && Accounted(s) && QueueReady(s) && RoundSound(s) && OneChildRuns(s)
  {
  }

  lemma InitHasNoPast(config: Option<Config>)
    ensures var s := Init(config);
            && ShellsInOrder(s.core.waiting) && Chronicled(s) && NearShortest(s) && ShellsServedInOrder(s) && Carried(s)
            && WithinBudget(s) && Ledgered(s) && Settled(s) && Replied(s)
  {
  }

  lemma InvInit(config: Option<Config>)
    ensures Inv(Init(config))
  {
    InitHoldsNothing(config);
    InitHasNoPast(config);
  }

  lemma InvStep(s: State, step: Step)
    requires Inv(s) && Enabled(s, step)
    ensures Inv(Next(s, step))
  {
    ConservedStep(s, step);
    StampedStep(s, step);
    IndexedStep(s, step);
    AccountedStep(s, step);
    QueueReadyStep(s, step);
    RoundSoundStep(s, step);
    ShellsInOrderStep(s, step);
    ChronicledStep(s, step);
    NearShortestStep(s, step);
    ShellsServedStep(s, step);
    CarriedStep(s, step);
    WithinBudgetStep(s, step);
    LedgeredStep(s, step);
    SettledStep(s, step);
    RepliedStep(s, step);
  }

  lemma {:induction false} InvRun(s: State, steps: seq<Step>)
    requires Inv(s) && Run(s, steps).Some?
    ensures Inv(Run(s, steps).value)
    decreases |steps|
  {
    if steps != [] {
      InvStep(s, steps[0]);
      InvRun(Next(s, steps[0]), steps[1..]);
    }
  }

  lemma ReachableInv(s: State)
    requires Reachable(s)
    ensures Inv(s)
  {
    var config, steps :| Run(Init(config), steps) == Some(s);
    InvInit(config);
    InvRun(Init(config), steps);
  }

  // ----- conservation -----------------------------------------------------

  /**
   Every task submitted is in exactly one of: queued, running, detached for
   cleanup, cleaned up. Ids never issued are nowhere.
   */
  lemma {:induction false} EveryTaskInOnePlace(s: State, id: int)
    requires Reachable(s)
    ensures Count(id, s.core.waiting) + (if s.core.current.Some? && s.core.current.value.id == id then 1 else 0)
            + Count(id, s.detached) + Count(id, s.cleaned)
            == if 1 <= id < s.core.nextId then 1 else 0
  {
    ReachableInv(s);
    CountEverything(id, s);
    assert Count(id, Everything(s)) <= 1;
  }

  /** Cleanup runs at most once per task, and never for one the scheduler still holds. */
  lemma CleanedUpOnce(s: State)
    requires Reachable(s)
    ensures DistinctIds(s.cleaned)
    ensures forall t, u :: t in s.cleaned && u in Held(s.core) + s.detached ==> t.id != u.id
  {
    ReachableInv(s);
    var rest := Held(s.core) + s.detached;
    forall i | 0 <= i < |s.cleaned| ensures Count(s.cleaned[i].id, s.cleaned) <= 1 {
      CountConcat(s.cleaned[i].id, rest, s.cleaned);
      assert Count(s.cleaned[i].id, Everything(s)) <= 1;
    }
    CountedOnceIsDistinct(s.cleaned);
    forall t, u | t in s.cleaned && u in rest ensures t.id != u.id {
      var i :| 0 <= i < |s.cleaned| && s.cleaned[i] == t;
      var j :| 0 <= j < |rest| && rest[j] == u;
      CountMember(s.cleaned, i);
      CountMember(rest, j);
      CountConcat(t.id, rest, s.cleaned);
      assert Count(t.id, Everything(s)) <= 1;
    }
  }

  /** No flag survives in the queue: whatever is dispatched is uncancelled, unflagged and has work left. */
  lemma FlagsNeverWait(s: State)
    requires Reachable(s)
    ensures forall t :: t in s.core.waiting ==> !t.cancel && !t.preempt
    ensures forall i :: 0 <= i < |s.history.dispatches| ==> Ready(s.history.dispatches[i].task)
  {
    ReachableInv(s);
    forall t | t in s.core.waiting ensures !t.cancel && !t.preempt {
      assert Ready(t);
    }
    forall i | 0 <= i < |s.history.dispatches| ensures Ready(s.history.dispatches[i].task) {
      assert Picked(s.history.dispatches[i]);
    }
  }

  // ----- policy -----------------------------------------------------------

  /**
   While a program runs and nobody has asked it to yield, no shell waits, and
   no waiting program is shorter except possibly the one dispatched just before.
   */
  lemma NearShortestFirst(s: State, t: Task)
    requires Reachable(s) && t in s.core.waiting
    requires s.core.current.Some? && s.core.current.value.kind.Program? && !s.core.current.value.preempt
    ensures t.kind.Program?
    ensures var ds := s.history.dispatches;
            (|ds| >= 2 && t.id == ds[|ds| - 2].task.id) || s.core.current.value.remaining <= t.remaining
  {
    ReachableInv(s);
    assert t in Everything(s);
    InRange(s, t);
  }

  /** The same task is never dispatched twice running while anything else waits. */
  lemma NoWastedPreemption(s: State, i: nat)
    requires Reachable(s) && i + 1 < |s.history.dispatches|
    ensures var d, e := s.history.dispatches[i], s.history.dispatches[i + 1];
            d.task.id == e.task.id ==> e.waiting == [e.task]
  {
    ReachableInv(s);
    var d, e := s.history.dispatches[i], s.history.dispatches[i + 1];
    assert Picked(d) && Picked(e) && e.last == d.task.id;
    assert HandedOn(s, d, e.waiting);
    assert Continues(d, e.task);
  }

  /**
   Shells are served first come, first served, once each, before any program
   that waits with them: dispatched shells have increasing arrival numbers, no
   shell still queued is older than one already dispatched, and a program is
   dispatched only from a queue without shells.
   */
  lemma ShellsFirstComeFirstServed(s: State)
    requires Reachable(s)
    ensures var ds := s.history.dispatches;
            && (forall i, j :: 0 <= i < j < |ds| && ds[i].task.kind.Shell? && ds[j].task.kind.Shell? ==>
                  ds[i].task.arrival < ds[j].task.arrival && ds[i].task.id != ds[j].task.id)
            && (forall i, t :: 0 <= i < |ds| && ds[i].task.kind.Shell? && t in s.core.waiting && t.kind.Shell? ==>
                  ds[i].task.arrival < t.arrival)
            && (forall i, t :: 0 <= i < |ds| && ds[i].task.kind.Program? && t in ds[i].waiting ==> t.kind.Program?)
  {
    ReachableInv(s);
    var ds := s.history.dispatches;
    forall i | 0 <= i < |ds| ensures Picked(ds[i]) && ds[i].task.id == ds[i].task.arrival {
      assert Picked(ds[i]);
    }
  }

  /**
   Bounded wait. Take the shortest program `m` at one dispatch, with no shell
   waiting. If it was passed over it is dispatched next, provided it was not
   cancelled, no shell came, and no program that came is shorter. The program
   that ran in between does not delay it further, however short it has become.
   */
  lemma ShortestWaitsAtMostOneRound(s: State, i: nat, m: Task)
    requires Reachable(s) && i + 1 < |s.history.dispatches|
    requires var d := s.history.dispatches[i];
             && m in d.waiting && m.id != d.task.id
             && (forall t :: t in d.waiting ==> t.kind.Program? && (t == m || Before(m, t)))
    requires var d, e := s.history.dispatches[i], s.history.dispatches[i + 1];
             && !Gone(s, m.id)
             && (forall t :: t in e.waiting ==> t.kind.Program?)
             && (forall t :: t in e.waiting && d.horizon <= t.arrival ==> m.remaining <= t.remaining)
    ensures s.history.dispatches[i + 1].task == m
  {
    ReachableInv(s);
    var d, e := s.history.dispatches[i], s.history.dispatches[i + 1];
    assert Picked(d) && Picked(e) && e.last == d.task.id;
    assert HandedOn(s, d, e.waiting);
    assert m in e.waiting && m.id != e.last;
    assert !Before(m, e.task);
    assert e.task.id != e.last;
    assert Continues(d, e.task);
  }

  // ----- sleeping, stopping -----------------------------------------------

  /**
   No lost wake-up: the thread sits in cond_wait only when nothing is queued,
   nothing runs and no stop is requested, although a cancellation never signals.
   */
  lemma SleepsOnlyWhenIdle(s: State)
    requires Reachable(s)
    ensures s.core.active == |Held(s.core)|
    ensures |s.core.waiting| <= s.core.signals
    ensures s.thread.Asleep? ==> Held(s.core) == [] && s.core.active == 0 && !s.core.stop
  {
    ReachableInv(s);
  }

  /** The thread exits only after a stop was requested and every task submitted so far was detached or cleaned up. */
  lemma ExitsOnlyWhenDone(s: State)
    requires Reachable(s) && Enabled(s, Turn) && DoTurn(s).thread.Exited?
    ensures s.core.stop
    ensures forall id :: 1 <= id < s.core.nextId ==> Count(id, s.detached) + Count(id, s.cleaned) == 1
  {
    ReachableInv(s);
    if Dispatches(s) {
      DispatchTurn(s);
    } else {
      IdleTurnHoldsTheSame(s);
    }
    assert Held(s.core) == [];
    forall id | 1 <= id < s.core.nextId ensures Count(id, s.detached) + Count(id, s.cleaned) == 1 {
      CountEverything(id, s);
      assert Count(id, Everything(s)) == 1;
    }
  }

  // ----- dispatch bounds --------------------------------------------------

  /** Dispatches are at most the shells and program bursts submitted plus the rounds a failing drain wasted. */
  lemma DispatchesAreBounded(s: State)
    requires Reachable(s)
    ensures |s.history.dispatches| <= s.history.work + s.history.stalls
  {
    ReachableInv(s);
  }

  function CeilDiv(a: int, b: int): int
    requires b > 0
  {
    (a + b - 1) / b
  }

  /** The rounds a burst needs when every round uses up its quantum. */
  function RoundsNeeded(c: Config, burst: int): int
    requires c.laterQuantum > 0
  {
    1 + CeilDiv(if burst > c.firstQuantum then burst - c.firstQuantum else 0, c.laterQuantum)
  }

  lemma {:induction false} FullRoundsClosed(c: Config, n: nat)
    ensures FullRounds(c, n + 1) == c.firstQuantum + n * c.laterQuantum
  {
    if n > 0 {
      FullRoundsClosed(c, n - 1);
    }
  }

  lemma SmallerFactor(k: int, m: int, d: int)
    requires d > 0 && k * d < m * d
    ensures k < m
  {
    assert (m - k) * d == m * d - k * d;
  }

  lemma QuotientAtLeast(k: nat, y: int, d: int)
    requires d > 0 && k * d <= y
    ensures k <= y / d
  {
    assert (y / d + 1) * d == (y / d) * d + d;
    SmallerFactor(k, y / d + 1, d);
  }

  lemma QuotientBelow(k: nat, y: int, d: int)
    requires d > 0 && 0 <= y < k * d
    ensures y / d < k
  {
    assert (y / d) * d <= y;
    SmallerFactor(y / d, k, d);
  }

  lemma {:induction false} FullRoundsFit(c: Config, n: nat, burst: int)
    requires c.firstQuantum > 0 && c.laterQuantum > 0
    requires FullRounds(c, n) < burst
    ensures n + 1 <= RoundsNeeded(c, burst)
  {
    var x := if burst > c.firstQuantum then burst - c.firstQuantum else 0;
    if n > 0 {
      FullRoundsClosed(c, n - 1);
      assert (n - 1) * c.laterQuantum < x;
      assert n * c.laterQuantum == (n - 1) * c.laterQuantum + c.laterQuantum;
      QuotientAtLeast(n, x + c.laterQuantum - 1, c.laterQuantum);
    } else {
      QuotientAtLeast(0, x + c.laterQuantum - 1, c.laterQuantum);
    }
  }

  lemma FullRoundsSuffice(c: Config, n: nat, burst: int)
    requires c.firstQuantum > 0 && c.laterQuantum > 0
    requires burst <= FullRounds(c, n + 1)
    ensures RoundsNeeded(c, burst) <= n + 1
  {
    var x := if burst > c.firstQuantum then burst - c.firstQuantum else 0;
    FullRoundsClosed(c, n);
    assert (n + 1) * c.laterQuantum == n * c.laterQuantum + c.laterQuantum;
    assert 0 <= n * c.laterQuantum;
    QuotientBelow(n + 1, x + c.laterQuantum - 1, c.laterQuantum);
  }

  lemma RecordIsNotOvercharged(s: State, t: Task)
    requires Ledgered(s) && Settled(s) && QueueReady(s) && RoundSound(s) && t in Everything(s)
    ensures NotOvercharged(s.core.config, s.history, t)
  {
    if t in s.core.waiting {
      QueuedIsNotOvercharged(s, t);
    } else if t !in s.detached + s.cleaned {
      assert t == s.core.current.value;
      RunningIsNotOvercharged(s, t);
    }
  }

  /** The parts of the invariant that speak of charges. */
  lemma ChargesWhenReachable(s: State)
    requires Reachable(s)
    ensures Ledgered(s) && Settled(s) && QueueReady(s) && RoundSound(s)
    ensures s.core.config.firstQuantum > 0 && s.core.config.laterQuantum > 0
    ensures forall t :: t in Everything(s) ==> t.id in s.history.cuts
  {
    ReachableInv(s);
    forall t | t in Everything(s) ensures t.id in s.history.cuts {
      InRange(s, t);
    }
  }

  /**
   Round bound: with a first quantum no longer than the later one, a program
   is dispatched at most as often as its burst needs full rounds, plus once for
   every round that was cut short.
   */
  lemma RoundBound(s: State, t: Task)
    requires Reachable(s) && t in Everything(s) && t.kind.Program?
    requires s.core.config.firstQuantum <= s.core.config.laterQuantum
    ensures s.core.config.laterQuantum > 0 && t.id in s.history.cuts
    ensures DispatchCount(t.id, s.history.dispatches) <= RoundsNeeded(s.core.config, t.predicted) + s.history.cuts[t.id]
  {
    ChargesWhenReachable(s);
    RecordIsNotOvercharged(s, t);
    FullRoundsFit(s.core.config, t.rounds - s.history.cuts[t.id], t.predicted);
  }

  /** Exactly that often, when no round was cut short and the child did not exit early. */
  lemma RoundCountExact(s: State, t: Task)
    requires Reachable(s) && t in s.cleaned && t.kind.Program? && t.state.Finished?
    requires t.id in s.history.cuts && s.history.cuts[t.id] == 0 && t.id !in s.history.early
    ensures s.core.config.laterQuantum > 0
    ensures DispatchCount(t.id, s.history.dispatches) == RoundsNeeded(s.core.config, t.predicted)
  {
    ReachableInv(s);
    assert t in s.detached + s.cleaned;
    FullRoundsFit(s.core.config, t.rounds, t.predicted);
    FullRoundsSuffice(s.core.config, t.rounds, t.predicted);
  }

  // ----- the simulated CPU ------------------------------------------------

  /** At most one child runs, its task is the running one, and a round that reports leaves none running. */
  lemma SingleSimulatedCpu(s: State)
    requires Reachable(s)
    ensures forall id :: id in s.contexts && s.contexts[id].child.Active? ==>
              && s.core.current.Some? && s.core.current.value.id == id
              && s.thread.Executing? && !s.thread.phase.Report?
  {
    ReachableInv(s);
  }
}
