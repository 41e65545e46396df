/**
 The whole system as a state machine: client threads submit and cancel, one
 thread stops the scheduler, and the scheduler thread takes turns and runs
 rounds. One step is one region that no other thread can interleave with.
 */
module System {
  import opened Wrappers
  import opened Tasks
  import opened Selection
  import opened SchedulerCore
  import opened Executor

  /** Where the scheduler thread is: before its locked turn, in cond_wait, in a round, or gone. */
  datatype Thread = Top | Asleep | Executing(quantum: int, ticked: nat, phase: Phase) | Exited

  /** One selection: the queue it was made from, the task selected before, and the next arrival number then. */
  datatype Dispatched = Dispatched(task: Task, waiting: seq<Task>, last: int, horizon: int)

  /** The rounds a task can need at most: one for a shell, one per time unit for a program. */
  function Weight(t: Task): nat {
    if t.kind.Shell? then 1 else if t.remaining > 0 then t.remaining else 0
  }

  /** What the run so far has done; nothing in the system reads it. */
  datatype History = History(
    dispatches: seq<Dispatched>,
    work: nat,              // the weight of everything submitted
    stalls: nat,            // rounds requeued without a single time unit charged
    cuts: map<int, nat>,    // per task, the rounds requeued before their quantum was used up
    early: set<int>,        // tasks whose child exited before its burst was used up
    undrained: set<int>)    // tasks for which draining the child's output has failed

  datatype State = State(
    core: Core,
    thread: Thread,
    contexts: map<int, Context>,
    detached: seq<Task>,    // removed by a cancellation, cleanup still to come
    cleaned: seq<Task>,     // handed to the cleanup callback
    history: History)

  function Init(config: Option<Config>): State {
    State(InitialCore(config), Top, map[], [], [], History([], 0, 0, map[], {}, {}))
  }

  datatype Step =
    | Submit(kind: Kind, client: int, predicted: int)
    | Cancel(client: int)
    | CleanUp(index: nat)
    | Stop
    | Wake
    | Turn
    | Execute(input: Input)
    | Return

  /** The running round as the executor sees it. */
  function RoundOf(s: State): Round
    requires s.core.current.Some? && s.core.current.value.id in s.contexts && s.thread.Executing?
  {
    var t := s.core.current.value;
    Round(t.kind, t.remaining, s.contexts[t.id], s.thread.quantum, s.thread.ticked, s.thread.phase)
  }

  /** The thread in a round has a task and a context to run it with; every reachable state is furnished. */
  predicate Furnished(s: State) {
    && (s.thread.Executing? <==> s.core.current.Some?)
    && (s.core.current.Some? ==> s.core.current.value.id in s.contexts)
  }

  predicate Enabled(s: State, step: Step) {
    && Furnished(s)
    && match step
       case Submit(_, _, _) => true
       case Cancel(_) => true
       case CleanUp(i) => i < |s.detached|
       case Stop => true
       case Wake => s.thread.Asleep?
       case Turn => s.thread.Top?
       case Execute(_) => s.thread.Executing? && !s.thread.phase.Report?
       case Return => s.thread.Executing? && s.thread.phase.Report?
  }

  function Signal(thread: Thread): Thread {
    if thread.Asleep? then Top else thread
  }

  function DoSubmit(s: State, t: Task): State {
    var t' := Admit(s.core, t);
    s.(core := SchedulerCore.Submit(s.core, t),
       thread := Signal(s.thread),
       contexts := s.contexts[t'.id := Context(Absent, false)],
       history := s.history.(work := s.history.work + Weight(t'),
                             cuts := s.history.cuts[t'.id := 0]))
  }

  /** A cancellation does not signal the scheduler thread. */
  function DoCancel(s: State, client: int): State {
    var (core, removed) := Detach(s.core, client);
    s.(core := core, detached := s.detached + removed)
  }

  function DoCleanUp(s: State, i: nat): State
    requires i < |s.detached|
  {
    s.(detached := Without(s.detached, i), cleaned := s.cleaned + [s.detached[i].(state := Cancelled)])
  }

  function DoTurn(s: State): State {
    var (core, outcome) := Pass(s.core);
    match outcome
    case Sleep => s.(thread := Asleep)
    case Exit => s.(core := core, thread := Exited)
    case Idle => s.(core := core)
    case Dispatch(quantum) =>
      var i := Choice(s.core.waiting, s.core.lastSelected).value;
      var d := Dispatched(s.core.waiting[i], s.core.waiting, s.core.lastSelected, s.core.nextArrival);
      s.(core := core, thread := Executing(quantum, 0, Begin),
         history := s.history.(dispatches := s.history.dispatches + [d]))
  }

  /** The flags the round polls are the task's own; everything else the environment decides. */
  function Polled(t: Task, input: Input): Input {
    input.(cancel := t.cancel, preempt := t.preempt)
  }

  predicate DrainFailed(e: Round, input: Input)
    requires !e.phase.Report?
  {
    && !input.drained
    && match e.phase
       case Work => true
       case Reap => !e.context.child.Absent? && input.exited
       case Check => input.preempt
       case Close => true
       case _ => false
  }

  function DoExecute(s: State, input: Input): State
    requires Enabled(s, Execute(input))
  {
    var t := s.core.current.value;
    var e := RoundOf(s);
    var polled := Polled(t, input);
    var e' := Advance(e, polled);
    s.(core := s.core.(current := Some(t.(remaining := e'.remaining))),
       thread := Executing(e'.quantum, e'.ticked, e'.phase),
       contexts := s.contexts[t.id := e'.context],
       history := s.history.(
         early := s.history.early + if e.phase.Reap? && e'.phase.Report? && e.remaining > 0 then {t.id} else {},
         undrained := s.history.undrained + if DrainFailed(e, polled) then {t.id} else {}))
  }

  function DoReturn(s: State): State
    requires Enabled(s, Return)
  {
    var t := s.core.current.value;
    var (core, ended) := Finish(s.core, s.thread.phase.result);
    var h := s.history;
    s.(core := core,
       thread := Top,
       cleaned := s.cleaned + (if ended.Some? then [ended.value] else []),
       history := if ended.Some? then h
                  else h.(stalls := h.stalls + if s.thread.ticked == 0 then 1 else 0,
                          cuts := if t.id in h.cuts && s.thread.ticked < s.thread.quantum
                                  then h.cuts[t.id := h.cuts[t.id] + 1] else h.cuts))
  }

  function Next(s: State, step: Step): State
    requires Enabled(s, step)
  {
    match step
    case Submit(kind, client, predicted) => DoSubmit(s, NewTask(kind, client, predicted))
    case Cancel(client) => DoCancel(s, client)
    case CleanUp(i) => DoCleanUp(s, i)
    case Stop => s.(core := RequestStop(s.core), thread := Signal(s.thread))
    case Wake => s.(thread := Top)
    case Turn => DoTurn(s)
    case Execute(input) => DoExecute(s, input)
    case Return => DoReturn(s)
  }

  /** The state a run leads to, when every step of it is possible. */
  function Run(s: State, steps: seq<Step>): Option<State>
    decreases |steps|
  {
    if steps == [] then Some(s)
    else if Enabled(s, steps[0]) then Run(Next(s, steps[0]), steps[1..])
    else None
  }

  ghost predicate Reachable(s: State) {
    exists config, steps :: Run(Init(config), steps) == Some(s)
  }
}
