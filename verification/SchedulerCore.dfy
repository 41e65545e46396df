/**
 The scheduler's shared state as a value, and each region of the scheduler that
 runs under its mutex as one function on that value.
 */
module SchedulerCore {
  import opened Wrappers
  import opened Tasks
  import opened Selection

  const DEFAULT_FIRST_ROUND_QUANTUM := 3
  const DEFAULT_LATER_ROUND_QUANTUM := 7
  const DEFAULT_PROGRAM_BURST := 5

  datatype Config = Config(firstQuantum: int, laterQuantum: int, defaultBurst: int)

  datatype Core = Core(
    config: Config,
    waiting: seq<Task>,
    current: Option<Task>,
    active: int,
    signals: nat,
    stop: bool,
    nextId: int,
    lastSelected: int,
    nextArrival: int)

  /** Values that are not positive fall back to the defaults. */
  function Configure(requested: Option<Config>): (c: Config)
    ensures c.firstQuantum > 0 && c.laterQuantum > 0 && c.defaultBurst > 0
  {
    match requested
    case None => Config(DEFAULT_FIRST_ROUND_QUANTUM, DEFAULT_LATER_ROUND_QUANTUM, DEFAULT_PROGRAM_BURST)
    case Some(r) =>
      Config(if r.firstQuantum > 0 then r.firstQuantum else DEFAULT_FIRST_ROUND_QUANTUM,
             if r.laterQuantum > 0 then r.laterQuantum else DEFAULT_LATER_ROUND_QUANTUM,
             if r.defaultBurst > 0 then r.defaultBurst else DEFAULT_PROGRAM_BURST)
  }

  const DEFAULTS := Config(DEFAULT_FIRST_ROUND_QUANTUM, DEFAULT_LATER_ROUND_QUANTUM, DEFAULT_PROGRAM_BURST)

  /**
   A request is honoured field by field: it is kept whole exactly when all of it
   is positive, each positive field is kept whatever the others are, and each
   other field is that of the defaults, which stand when nothing is requested.
   */
  lemma ConfigureHonoursRequests(r: Config)
    ensures Configure(Some(r)) == r <==> r.firstQuantum > 0 && r.laterQuantum > 0 && r.defaultBurst > 0
    ensures Configure(Some(r)).firstQuantum in {r.firstQuantum, DEFAULTS.firstQuantum}
    ensures Configure(Some(r)).firstQuantum == r.firstQuantum <==> r.firstQuantum > 0
    ensures Configure(Some(r)).laterQuantum in {r.laterQuantum, DEFAULTS.laterQuantum}
    ensures Configure(Some(r)).laterQuantum == r.laterQuantum <==> r.laterQuantum > 0
    ensures Configure(Some(r)).defaultBurst in {r.defaultBurst, DEFAULTS.defaultBurst}
    ensures Configure(Some(r)).defaultBurst == r.defaultBurst <==> r.defaultBurst > 0
    ensures Configure(None) == DEFAULTS == Config(3, 7, 5) && Configure(Some(Configure(Some(r)))) == Configure(Some(r))
  {
  }

  function InitialCore(requested: Option<Config>): Core {
    Core(Configure(requested), [], None, 0, 0, false, 1, -1, 1)
  }

  /** Shells carry burst -1; a program without a positive estimate gets the default one. */
  function Admit(c: Core, t: Task): Task {
    var named := t.(id := c.nextId, arrival := c.nextArrival, state := Waiting);
    if t.kind.Shell? then named.(predicted := -1, remaining := -1)
    else if t.predicted <= 0 then named.(predicted := c.config.defaultBurst, remaining := c.config.defaultBurst)
    else named
  }

  predicate ShouldPreempt(current: Option<Task>, incoming: Task) {
    && current.Some?
    && current.value.kind.Program?
    && (incoming.kind.Shell? || incoming.remaining < current.value.remaining)
  }

  function Append(c: Core, t: Task): Core {
    c.(waiting := c.waiting + [Admit(c, t)],
       active := c.active + 1,
       signals := c.signals + 1,
       nextId := c.nextId + 1,
       nextArrival := c.nextArrival + 1)
  }

  function Interrupt(c: Core, incoming: Task): Core {
    if ShouldPreempt(c.current, incoming) then c.(current := Some(c.current.value.(preempt := true))) else c
  }

  /** The locked region of a submission. */
  function Submit(c: Core, t: Task): Core {
    Interrupt(Append(c, t), Admit(c, t))
  }

  predicate OwnsCurrent(c: Core, client: int) {
    c.current.Some? && c.current.value.client == client
  }

  /** The locked half of a cancellation; the removed tasks come back most recent first. */
  function Detach(c: Core, client: int): (Core, seq<Task>) {
    var owned := Owned(c.waiting, client);
    (c.(waiting := Others(c.waiting, client),
        active := c.active - |owned|,
        current := if OwnsCurrent(c, client)
                   then Some(c.current.value.(cancel := true, preempt := true)) else c.current),
     Reverse(owned))
  }

  /** Detached tasks as the cleanup callback sees them. */
  function MarkCancelled(s: seq<Task>): seq<Task> {
    seq(|s|, i requires 0 <= i < |s| => s[i].(state := Cancelled))
  }

  function CancelledCount(c: Core, client: int): nat {
    |Owned(c.waiting, client)| + if OwnsCurrent(c, client) then 1 else 0
  }

  function RequestStop(c: Core): Core {
    c.(stop := true)
  }

  predicate MustSleep(c: Core) {
    c.signals == 0 && !(c.stop && c.active == 0)
  }

  datatype Outcome = Sleep | Exit | Idle | Dispatch(quantum: int)

  function QuantumFor(c: Config, t: Task): int {
    if t.rounds == 0 then c.firstQuantum else c.laterQuantum
  }

  /** Takes the chosen task out of the queue and makes it the running one. */
  function DispatchNext(c: Core): (Core, Outcome) {
    match Choice(c.waiting, c.lastSelected)
    case None => (c, Idle)
    case Some(i) =>
      var t := c.waiting[i];
      (c.(waiting := Without(c.waiting, i),
          current := Some(t.(state := Running, preempt := false)),
          lastSelected := t.id),
       Dispatch(QuantumFor(c.config, t)))
  }

  /** One turn of the scheduler thread's locked region, from the wait loop to the dispatch. */
  function Pass(c: Core): (Core, Outcome) {
    if MustSleep(c) then (c, Sleep)
    else
      var woken := c.(signals := if c.signals > 0 then c.signals - 1 else 0);
      if woken.stop && woken.active == 0 then (woken, Exit) else DispatchNext(woken)
  }

  predicate GoesBack(t: Task, result: RunResult) {
    result.Requeue? && !t.cancel && t.remaining > 0
  }

  function Ending(t: Task, result: RunResult): TaskState {
    if result.Abandoned? || t.cancel then Cancelled
    else if t.remaining <= 0 || result.Complete? then Finished
    else Cancelled
  }

  function PutBack(t: Task): Task {
    t.(rounds := t.rounds + 1, state := Waiting, preempt := false)
  }

  /** The locked region after the executor returns: requeue the task or finalise it. */
  function Finish(c: Core, result: RunResult): (Core, Option<Task>)
    requires c.current.Some?
  {
    var t := c.current.value;
    if GoesBack(t, result) then
      (c.(current := None,
          waiting := c.waiting + [PutBack(t)],
          signals := c.signals + 1),
       None)
    else
      (c.(current := None, active := c.active - 1), Some(t.(state := Ending(t, result))))
  }

  /** Everything the scheduler holds: the queue and then the running task. */
  function Held(c: Core): seq<Task> {
    c.waiting + if c.current.Some? then [c.current.value] else []
  }

  /** No id is held twice or held before it was issued, and arrival numbers run along with the ids. */
  ghost predicate Numbered(c: Core) {
    && (forall id :: Count(id, Held(c)) <= if 1 <= id < c.nextId then 1 else 0)
    && 1 <= c.nextId == c.nextArrival
    && forall t :: t in Held(c) ==> t.arrival == t.id
  }

  lemma QueueIsNumbered(c: Core)
    requires Numbered(c)
    ensures DistinctIds(c.waiting) && DistinctArrivals(c.waiting)
  {
    CountedOnceIsDistinct(Held(c));
    assert forall i :: 0 <= i < |c.waiting| ==> Held(c)[i] == c.waiting[i];
  }

  lemma SubmitNumbered(c: Core, t: Task)
    requires Numbered(c)
    ensures Numbered(Submit(c, t))
  {
    var c' := Submit(c, t);
    forall id ensures Count(id, Held(c')) == Count(id, Held(c)) + if id == c.nextId then 1 else 0 {
      CountConcat(id, c.waiting, [Admit(c, t)]);
      CountConcat(id, c'.waiting, Held(c')[|c'.waiting|..]);
      CountConcat(id, c.waiting, Held(c)[|c.waiting|..]);
    }
    forall t' | t' in Held(c') ensures t'.arrival == t'.id {
      assert t' in Held(c) || t' == Admit(c, t)
             || (c.current.Some? && c.current.value in Held(c) && t'.id == c.current.value.id);
    }
  }

  lemma {:induction false} CountHeld(id: int, c: Core)
    ensures Count(id, Held(c)) == Count(id, c.waiting) + if c.current.Some? && c.current.value.id == id then 1 else 0
  {
    CountConcat(id, c.waiting, if c.current.Some? then [c.current.value] else []);
  }

  lemma PassNumbered(c: Core)
    requires Numbered(c) && c.current.None?
    ensures Numbered(Pass(c).0)
  {
    var c' := Pass(c).0;
    if Pass(c).1.Dispatch? {
      var i := Choice(c.waiting, c.lastSelected).value;
      assert c.waiting[i] in Held(c);
      forall id ensures Count(id, Held(c')) == Count(id, Held(c)) {
        CountHeld(id, c);
        CountHeld(id, c');
        CountWithout(id, c.waiting, i);
      }
    }
  }

  lemma FinishNumbered(c: Core, result: RunResult)
    requires Numbered(c) && c.current.Some?
    ensures Numbered(Finish(c, result).0)
  {
    var c' := Finish(c, result).0;
    assert c.current.value in Held(c);
    forall id ensures Count(id, Held(c')) <= Count(id, Held(c)) {
      CountHeld(id, c);
      CountHeld(id, c');
      CountConcat(id, c.waiting, c'.waiting[|c.waiting|..]);
      if GoesBack(c.current.value, result) {
        assert c'.waiting == c.waiting + c'.waiting[|c.waiting|..];
      }
    }
  }

  lemma DetachNumbered(c: Core, client: int)
    requires Numbered(c)
    ensures Numbered(Detach(c, client).0)
  {
    var c' := Detach(c, client).0;
    assert c.current.Some? ==> c.current.value in Held(c);
    FilterMembers(c.waiting, client);
    forall id ensures Count(id, Held(c')) <= Count(id, Held(c)) {
      CountHeld(id, c);
      CountHeld(id, c');
      CountFilters(id, c.waiting, client);
    }
  }
}
