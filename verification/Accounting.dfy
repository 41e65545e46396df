/** How often tasks are dispatched: the bound over a whole run and the bound per program. */
module Accounting {
  import opened Tasks
  import opened SchedulerCore
  import opened Executor
  import opened System
  import opened Invariants
  import opened Policy

  // ----- dispatches of the whole run --------------------------------------

  function TotalWeight(w: seq<Task>): nat {
    if w == [] then 0 else Weight(w[0]) + TotalWeight(w[1..])
  }

  lemma {:induction false} TotalWeightConcat(a: seq<Task>, b: seq<Task>)
    ensures TotalWeight(a + b) == TotalWeight(a) + TotalWeight(b)
  {
    if a == [] {
      assert a + b == b;
    } else {
      assert (a + b)[0] == a[0] && (a + b)[1..] == a[1..] + b;
      TotalWeightConcat(a[1..], b);
    }
  }

  lemma {:induction false} TotalWeightWithout(w: seq<Task>, i: nat)
    requires i < |w|
    ensures TotalWeight(w) == TotalWeight(Without(w, i)) + Weight(w[i])
  {
    var rest := w[i..];
    assert w == w[..i] + rest && rest[1..] == w[i + 1..];
    TotalWeightConcat(w[..i], rest);
    TotalWeightConcat(w[..i], rest[1..]);
  }

  lemma {:induction false} TotalWeightOthers(w: seq<Task>, client: int)
    ensures TotalWeight(Others(w, client)) <= TotalWeight(w)
  {
    if w != [] {
      TotalWeightOthers(w[1..], client);
      TotalWeightConcat([w[0]], Others(w[1..], client));
    }
  }

  /** What the running round may still cost: its own dispatch is paid for by its first time unit. */
  function WeightInRound(s: State): int {
    if s.core.current.None? || s.core.current.value.kind.Shell? || !s.thread.Executing? then 0
    else s.core.current.value.remaining - if s.thread.ticked == 0 then 1 else 0
  }

  /** Dispatches made plus dispatches still possible never exceed the work submitted plus the stalled rounds. */
  ghost predicate WithinBudget(s: State) {
    |s.history.dispatches| + TotalWeight(s.core.waiting) + WeightInRound(s) <= s.history.work + s.history.stalls
  }

  lemma WithinBudgetDispatch(s: State, i: nat)
    requires WithinBudget(s) && QueueReady(s) && s.core.current.None? && i < |s.core.waiting|
    ensures WithinBudget(AfterDispatch(s, i))
  {
    assert Ready(s.core.waiting[i]);
    TotalWeightWithout(s.core.waiting, i);
  }

  lemma WithinBudgetSubmit(s: State, t: Task)
    requires WithinBudget(s)
    ensures WithinBudget(DoSubmit(s, t))
  {
    TotalWeightConcat(s.core.waiting, [Admit(s.core, t)]);
  }

  lemma WithinBudgetReturn(s: State)
    requires WithinBudget(s) && RoundSound(s) && Enabled(s, Return)
    ensures WithinBudget(DoReturn(s))
  {
    TotalWeightConcat(s.core.waiting, [PutBack(s.core.current.value)]);
  }

  lemma WithinBudgetStep(s: State, step: Step)
    requires WithinBudget(s) && QueueReady(s) && RoundSound(s) && Enabled(s, step)
    ensures WithinBudget(Next(s, step))
  {
    match step
    case Submit(kind, client, predicted) => WithinBudgetSubmit(s, NewTask(kind, client, predicted));
    case Cancel(client) => TotalWeightOthers(s.core.waiting, client);
    case Turn =>
      if Dispatches(s) {
        DispatchTurn(s);
        WithinBudgetDispatch(s, Chosen(s));
      } else {
        IdleTurnHoldsTheSame(s);
      }
    case Return => WithinBudgetReturn(s);
    case _ =>
  }

  // ----- rounds of one program --------------------------------------------

  /** The time units `n` full quanta add up to. */
  function FullRounds(c: Config, n: nat): int {
    if n == 0 then 0 else if n == 1 then c.firstQuantum else FullRounds(c, n - 1) + c.laterQuantum
  }

  function DispatchCount(id: int, ds: seq<Dispatched>): nat {
    if ds == [] then 0
    else DispatchCount(id, ds[..|ds| - 1]) + if ds[|ds| - 1].task.id == id then 1 else 0
  }

  lemma {:induction false} DispatchCountSnoc(id: int, ds: seq<Dispatched>, d: Dispatched)
    ensures DispatchCount(id, ds + [d]) == DispatchCount(id, ds) + if d.task.id == id then 1 else 0
  {
    assert (ds + [d])[..|ds|] == ds;
  }

  /** What a program has been charged, given `extra` time units in a round still running. */
  ghost predicate Charged(c: Config, h: History, t: Task, extra: nat) {
    t.kind.Program? && t.id in h.cuts ==>
      && h.cuts[t.id] <= t.rounds
      && (c.firstQuantum <= c.laterQuantum ==>
            FullRounds(c, t.rounds - h.cuts[t.id]) + extra <= t.predicted - t.remaining)
      && (h.cuts[t.id] == 0 && t.id !in h.early ==> FullRounds(c, t.rounds) + extra == t.predicted - t.remaining)
  }

  /** The same said of a task wherever it ends up: before its last round it was not used up. */
  ghost predicate NotOvercharged(c: Config, h: History, t: Task) {
    t.kind.Program? && t.id in h.cuts ==>
      && h.cuts[t.id] <= t.rounds
      && (c.firstQuantum <= c.laterQuantum ==> FullRounds(c, t.rounds - h.cuts[t.id]) < t.predicted)
      && DispatchCount(t.id, h.dispatches) <= t.rounds + 1
      && (t.state.Finished? && h.cuts[t.id] == 0 && t.id !in h.early ==>
            && DispatchCount(t.id, h.dispatches) == t.rounds + 1
            && FullRounds(c, t.rounds) < t.predicted <= FullRounds(c, t.rounds + 1))
  }

  ghost predicate ChargedInQueue(c: Config, h: History, t: Task) {
    Charged(c, h, t, 0) && DispatchCount(t.id, h.dispatches) == t.rounds
  }

  ghost predicate Ledgered(s: State) {
    && (forall t :: t in s.core.waiting ==> ChargedInQueue(s.core.config, s.history, t))
    && (s.core.current.Some? && s.thread.Executing? ==>
          && Charged(s.core.config, s.history, s.core.current.value, s.thread.ticked)
          && DispatchCount(s.core.current.value.id, s.history.dispatches) == s.core.current.value.rounds + 1)
    && (forall id :: id >= s.core.nextId ==> DispatchCount(id, s.history.dispatches) == 0)
  }

  lemma CurrentIsNotQueued(s: State)
    requires Conserved(s) && s.core.current.Some?
    ensures forall t :: t in s.core.waiting ==> t.id != s.core.current.value.id
  {
    forall t | t in s.core.waiting ensures t.id != s.core.current.value.id {
      var i :| 0 <= i < |s.core.waiting| && s.core.waiting[i] == t;
      CountMember(s.core.waiting, i);
      CountEverything(t.id, s);
    }
  }

  lemma IssuedIds(s: State)
    requires Conserved(s) && Indexed(s)
    ensures forall t :: t in s.core.waiting ==> 1 <= t.id < s.core.nextId && t.id in s.history.cuts
    ensures s.core.current.Some? ==> var t := s.core.current.value; 1 <= t.id < s.core.nextId && t.id in s.history.cuts
  {
    forall t | t in Held(s.core) ensures 1 <= t.id < s.core.nextId {
      assert t in Everything(s);
      InRange(s, t);
    }
  }

  /** Recording a dispatch counts it for its own task and for no other. */
  lemma RecordingDispatch(c: Config, h: History, d: Dispatched)
    ensures var h' := h.(dispatches := h.dispatches + [d]);
            && (forall id :: DispatchCount(id, h'.dispatches) ==
                             DispatchCount(id, h.dispatches) + if d.task.id == id then 1 else 0)
            && (forall t :: ChargedInQueue(c, h, t) && t.id != d.task.id ==> ChargedInQueue(c, h', t))
  {
    forall id ensures DispatchCount(id, h.dispatches + [d]) ==
                      DispatchCount(id, h.dispatches) + if d.task.id == id then 1 else 0 {
      DispatchCountSnoc(id, h.dispatches, d);
    }
  }

  /** What a dispatch does to the ledger of the tasks left queued, of the one it takes, and of ids still to come. */
  lemma LedgeredDispatch(s: State, i: nat)
    requires Ledgered(s) && Conserved(s) && Indexed(s) && i < |s.core.waiting|
    ensures Ledgered(AfterDispatch(s, i))
  {
    var s', d := AfterDispatch(s, i), Latest(AfterDispatch(s, i));
    var c, h, h' := s.core.config, s.history, s'.history;
    QueueIsDistinct(s);
    IssuedIds(s);
    WithoutMembers(s.core.waiting, i);
    RecordingDispatch(c, h, d);
    assert s.core.waiting[i] in s.core.waiting;
    assert ChargedInQueue(c, h, s.core.waiting[i]);
    forall t | t in s'.core.waiting ensures ChargedInQueue(c, h', t) {
      assert ChargedInQueue(c, h, t) && t.id != d.task.id;
    }
    var t := s'.core.current.value;
    assert Charged(c, h', t, 0);
    assert DispatchCount(t.id, h'.dispatches) == DispatchCount(t.id, h.dispatches) + 1;
  }

  lemma LedgeredSubmit(s: State, t: Task)
    requires Ledgered(s) && Conserved(s) && Indexed(s) && t.rounds == 0 && t.remaining == t.predicted
    ensures Ledgered(DoSubmit(s, t))
  {
    IssuedIds(s);
    var s' := DoSubmit(s, t);
    var c, h, h' := s.core.config, s.history, s'.history;
    assert DispatchCount(s.core.nextId, h.dispatches) == 0;
    forall u | u in s'.core.waiting ensures ChargedInQueue(c, h', u) {
      if u in s.core.waiting {
        assert ChargedInQueue(c, h, u);
      } else {
        assert u == Admit(s.core, t);
      }
    }
  }

  lemma LedgeredCancel(s: State, client: int)
    requires Ledgered(s)
    ensures Ledgered(DoCancel(s, client))
  {
    FilterMembers(s.core.waiting, client);
    forall t | t in DoCancel(s, client).core.waiting ensures ChargedInQueue(s.core.config, s.history, t) {
      assert t in s.core.waiting;
    }
  }

  /** A round cut short is written down as a cut; one that was not has used up its quantum. */
  lemma ChargedPutBack(s: State)
    requires Ledgered(s) && Indexed(s) && RoundSound(s) && Enabled(s, Return)
    requires GoesBack(s.core.current.value, s.thread.phase.result)
    requires s.core.current.value.id in s.history.cuts
    ensures ChargedInQueue(s.core.config, DoReturn(s).history, PutBack(s.core.current.value))
  {
  }

  lemma LedgeredReturn(s: State)
    requires Ledgered(s) && Conserved(s) && Indexed(s) && RoundSound(s) && Enabled(s, Return)
    ensures Ledgered(DoReturn(s))
  {
    IssuedIds(s);
    CurrentIsNotQueued(s);
    var s', t := DoReturn(s), s.core.current.value;
    forall u | u in s'.core.waiting ensures ChargedInQueue(s.core.config, s'.history, u) {
      if u in s.core.waiting {
        assert ChargedInQueue(s.core.config, s.history, u) && u.id != t.id;
      } else {
        assert GoesBack(t, s.thread.phase.result) && u == PutBack(t);
        ChargedPutBack(s);
      }
    }
  }

  lemma LedgeredExecute(s: State, input: Input)
    requires Ledgered(s) && Conserved(s) && Indexed(s) && RoundSound(s) && Enabled(s, Execute(input))
    ensures Ledgered(DoExecute(s, input))
  {
    CurrentIsNotQueued(s);
    forall t | t in s.core.waiting ensures ChargedInQueue(s.core.config, DoExecute(s, input).history, t) {
      assert ChargedInQueue(s.core.config, s.history, t);
    }
  }

  lemma LedgeredTurn(s: State)
    requires Ledgered(s) && Conserved(s) && Indexed(s) && Enabled(s, Turn)
    ensures Ledgered(DoTurn(s))
  {
    if Dispatches(s) {
      DispatchTurn(s);
      LedgeredDispatch(s, Chosen(s));
    } else {
      IdleTurnHoldsTheSame(s);
    }
  }

  lemma LedgeredStep(s: State, step: Step)
    requires Ledgered(s) && Conserved(s) && Indexed(s) && QueueReady(s) && RoundSound(s) && Enabled(s, step)
    ensures Ledgered(Next(s, step))
  {
    match step
    case Submit(kind, client, predicted) => LedgeredSubmit(s, NewTask(kind, client, predicted));
    case Cancel(client) => LedgeredCancel(s, client);
    case Turn => LedgeredTurn(s);
    case Execute(input) => LedgeredExecute(s, input);
    case Return => LedgeredReturn(s);
    case _ =>
  }

  /** Nothing that left the queue for good was dispatched more often than its burst allows. */
  ghost predicate Settled(s: State) {
    forall t :: t in s.detached + s.cleaned ==> NotOvercharged(s.core.config, s.history, t)
  }

  lemma QueuedIsNotOvercharged(s: State, t: Task)
    requires Ledgered(s) && QueueReady(s) && t in s.core.waiting
    ensures NotOvercharged(s.core.config, s.history, t)
  {
    assert Ready(t) && ChargedInQueue(s.core.config, s.history, t);
  }

  lemma RunningIsNotOvercharged(s: State, t: Task)
    requires Ledgered(s) && RoundSound(s) && s.core.current.Some?
    requires t == s.core.current.value.(state := t.state)
    requires t.state.Finished? && t.kind.Program? ==> t.remaining == 0
    ensures NotOvercharged(s.core.config, s.history, t)
  {
  }

  /** A record that has left shares its id with nothing the scheduler still holds. */
  lemma GoneIsNotHeld(s: State)
    requires Conserved(s)
    ensures forall t, u :: t in s.detached + s.cleaned && u in Held(s.core) ==> t.id != u.id
  {
    forall t, u | t in s.detached + s.cleaned && u in Held(s.core) ensures t.id != u.id {
      var gone := s.detached + s.cleaned;
      var i :| 0 <= i < |gone| && gone[i] == t;
      var j :| 0 <= j < |Held(s.core)| && Held(s.core)[j] == u;
      CountMember(gone, i);
      CountMember(Held(s.core), j);
      CountConcat(t.id, Held(s.core), gone);
      assert Everything(s) == Held(s.core) + gone;
    }
  }

  /** The entries of the history a gone record depends on. */
  ghost predicate SameEntries(h: History, h': History, id: int) {
    && id in h.cuts && id in h'.cuts && h'.cuts[id] == h.cuts[id]
    && (id in h'.early <==> id in h.early)
    && DispatchCount(id, h'.dispatches) == DispatchCount(id, h.dispatches)
  }

  lemma DispatchKeepsEntries(s: State, i: nat, id: int)
    requires i < |s.core.waiting| && s.core.waiting[i].id != id && id in s.history.cuts
    ensures SameEntries(s.history, AfterDispatch(s, i).history, id)
  {
    DispatchCountSnoc(id, s.history.dispatches, Latest(AfterDispatch(s, i)));
  }

  /** No step changes them once the record has gone. */
  lemma GoneRecordsAreFinal(s: State, step: Step, t: Task)
    requires Conserved(s) && Indexed(s) && Enabled(s, step) && t in s.detached + s.cleaned
    ensures SameEntries(s.history, Next(s, step).history, t.id)
  {
    assert t in Everything(s);
    InRange(s, t);
    GoneIsNotHeld(s);
    assert s.core.current.Some? ==> s.core.current.value in Held(s.core);
    if step.Turn? && Dispatches(s) {
      DispatchTurn(s);
      assert s.core.waiting[Chosen(s)] in Held(s.core);
      DispatchKeepsEntries(s, Chosen(s), t.id);
    } else {
      DispatchesAfter(s, step);
    }
  }

  lemma SettledReturn(s: State, t: Task)
    requires Settled(s) && Ledgered(s) && RoundSound(s) && Enabled(s, Return)
    requires t in DoReturn(s).cleaned && t !in s.cleaned
    ensures NotOvercharged(s.core.config, s.history, t) && DoReturn(s).history == s.history
  {
    RunningIsNotOvercharged(s, t);
  }

  lemma StillSettled(s: State, step: Step, t: Task)
    requires Settled(s) && Conserved(s) && Indexed(s) && Enabled(s, step) && t in s.detached + s.cleaned
    ensures NotOvercharged(Next(s, step).core.config, Next(s, step).history, t)
  {
    GoneRecordsAreFinal(s, step, t);
  }

  lemma NewlySettled(s: State, step: Step, t: Task)
    requires Settled(s) && Ledgered(s) && QueueReady(s) && RoundSound(s) && Enabled(s, step)
    requires t in Next(s, step).detached + Next(s, step).cleaned && t !in s.detached + s.cleaned
    ensures NotOvercharged(Next(s, step).core.config, Next(s, step).history, t)
  {
    match step
    case Cancel(client) =>
      FilterMembers(s.core.waiting, client);
      ReverseMembers(Owned(s.core.waiting, client));
      QueuedIsNotOvercharged(s, t);
    case CleanUp(i) => assert s.detached[i] in s.detached + s.cleaned;
    case Return => SettledReturn(s, t);
    case _ =>
  }

  lemma SettledStep(s: State, step: Step)
    requires Settled(s) && Ledgered(s) && QueueReady(s) && RoundSound(s)
    requires Conserved(s) && Indexed(s) && Enabled(s, step)
    ensures Settled(Next(s, step))
  {
    forall t | t in Next(s, step).detached + Next(s, step).cleaned
      ensures NotOvercharged(Next(s, step).core.config, Next(s, step).history, t)
    {
      if t in s.detached + s.cleaned {
        StillSettled(s, step, t);
      } else {
        NewlySettled(s, step, t);
      }
    }
  }
}
