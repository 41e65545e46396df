/** What the selection policy guarantees over a whole run: order, preemption and waiting. */
module Policy {
  import opened Wrappers
  import opened Tasks
  import opened Selection
  import opened SchedulerCore
  import opened System
  import opened Invariants

  // ----- shells stand in arrival order ------------------------------------

  ghost predicate ShellsInOrder(w: seq<Task>) {
    forall i, j :: 0 <= i < j < |w| && w[i].kind.Shell? && w[j].kind.Shell? ==> w[i].arrival < w[j].arrival
  }

  lemma {:induction false} OthersKeepShellsInOrder(w: seq<Task>, client: int)
    requires ShellsInOrder(w)
    ensures ShellsInOrder(Others(w, client))
  {
    if w != [] {
      OthersKeepShellsInOrder(w[1..], client);
      FilterMembers(w[1..], client);
      var rest := Others(w[1..], client);
      forall j | 0 <= j < |rest| && w[0].kind.Shell? && rest[j].kind.Shell?
        ensures w[0].arrival < rest[j].arrival
      {
        assert rest[j] in w[1..];
      }
    }
  }

  lemma ArrivalsAreIssued(s: State)
    requires Conserved(s) && Stamped(s)
    ensures forall t :: t in s.core.waiting ==> 1 <= t.id == t.arrival < s.core.nextArrival
  {
    forall t | t in s.core.waiting ensures 1 <= t.id == t.arrival < s.core.nextArrival {
      assert t in Everything(s);
      InRange(s, t);
    }
  }

  lemma WithoutKeepsShellsInOrder(w: seq<Task>, i: nat)
    requires ShellsInOrder(w) && i < |w|
    ensures ShellsInOrder(Without(w, i))
  {
  }

  lemma AppendKeepsShellsInOrder(w: seq<Task>, t: Task)
    requires ShellsInOrder(w)
    requires t.kind.Program? || forall u :: u in w ==> u.arrival < t.arrival
    ensures ShellsInOrder(w + [t])
  {
    forall i | 0 <= i < |w| && t.kind.Shell?
      ensures w[i].arrival < t.arrival
    {
      assert w[i] in w;
    }
  }

  /** Programs put back at the tail never come between shells in the wrong order. */
  lemma ShellsInOrderStep(s: State, step: Step)
    requires ShellsInOrder(s.core.waiting) && Enabled(s, step)
    requires Conserved(s) && Stamped(s)
    requires s.core.current.Some? ==> InRound(s.core.current.value)
    ensures ShellsInOrder(Next(s, step).core.waiting)
  {
    match step
    case Cancel(client) => OthersKeepShellsInOrder(s.core.waiting, client);
    case Submit(kind, client, predicted) =>
      ArrivalsAreIssued(s);
      AppendKeepsShellsInOrder(s.core.waiting, Admit(s.core, NewTask(kind, client, predicted)));
    case Turn =>
      if Dispatches(s) {
        DispatchTurn(s);
        WithoutKeepsShellsInOrder(s.core.waiting, Chosen(s));
      } else {
        IdleTurnHoldsTheSame(s);
      }
    case Return =>
      if GoesBack(s.core.current.value, s.thread.phase.result) {
        AppendKeepsShellsInOrder(s.core.waiting, PutBack(s.core.current.value));
      }
    case _ =>
  }

  // ----- the record of dispatches -----------------------------------------

  /**
   The policy in its own words: the oldest shell; if there is none, the
   shortest program other than the one selected last, ties going to the older;
   and that one only when it waits alone.
   */
  ghost predicate Deserves(t: Task, w: seq<Task>, last: int) {
    && t in w
    && (t.kind.Shell? ==> forall u :: u in w && u.kind.Shell? ==> t.arrival <= u.arrival)
    && (t.kind.Program? ==> forall u :: u in w ==>
          && u.kind.Program?
          && (u.id != last ==>
                t.remaining < u.remaining || (t.remaining == u.remaining && t.arrival <= u.arrival)))
    && (t.kind.Program? && t.id == last ==> w == [t])
  }

  lemma ChoiceIsDeserved(w: seq<Task>, last: int)
    requires w != [] && DistinctIds(w) && ShellsInOrder(w)
    ensures Deserves(w[Choice(w, last).value], w, last)
  {
    var i := Choice(w, last).value;
    RepeatOnlyWhenAlone(w, last);
    ShortestIsMinimal(w, |w|, {last});
    if w[i].kind.Program? {
      assert forall j :: 0 <= j < |w| ==> w[j].kind.Program? && (w[j].id != last ==> Eligible(w[j], {last}));
    }
  }

  /** With distinct arrivals the policy leaves no choice. */
  lemma DeservedIsUnique(t: Task, u: Task, w: seq<Task>, last: int)
    requires DistinctArrivals(w) && Deserves(t, w, last) && Deserves(u, w, last)
    ensures t == u
  {
    var i :| 0 <= i < |w| && w[i] == t;
    var j :| 0 <= j < |w| && w[j] == u;
  }

  /**
   One turn of the thread: it sleeps exactly without a wake-up token and
   without a finished shutdown, exits exactly in a finished shutdown, and
   otherwise dispatches what the policy names, if anything waits: in its first
   round for the first quantum, later for the later one.
   */
  lemma TurnFollowsThePolicy(c: Core)
    requires DistinctIds(c.waiting) && ShellsInOrder(c.waiting)
    ensures var (c', outcome) := Pass(c);
            && (outcome == Sleep <==> c.signals == 0 && !(c.stop && c.active == 0))
            && (outcome == Exit <==> c.stop && c.active == 0)
            && (outcome == Idle <==> outcome != Sleep && outcome != Exit && c.waiting == [])
            && (outcome == Sleep ==> c' == c)
            && (outcome != Sleep ==> c'.signals == if c.signals > 0 then c.signals - 1 else 0)
            && (outcome.Dispatch? ==> exists t ::
                  && Deserves(t, c.waiting, c.lastSelected)
                  && c' == c.(current := Some(t.(state := Running, preempt := false)), lastSelected := t.id,
                              waiting := c'.waiting, signals := c.signals - 1)
                  && (forall u :: u in c'.waiting <==> u in c.waiting && u.id != t.id)
                  && outcome.quantum == if t.rounds == 0 then c.config.firstQuantum else c.config.laterQuantum)
  {
    if Pass(c).1.Dispatch? {
      var i := Choice(c.waiting, c.lastSelected).value;
      ChoiceIsDeserved(c.waiting, c.lastSelected);
      WithoutMembers(c.waiting, i);
    }
  }

  ghost predicate Picked(d: Dispatched) {
    && Deserves(d.task, d.waiting, d.last)
    && DistinctIds(d.waiting)
    && forall t :: t in d.waiting ==> t.id == t.arrival < d.horizon && Ready(t)
  }

  function Latest(s: State): Dispatched
    requires s.history.dispatches != []
  {
    s.history.dispatches[|s.history.dispatches| - 1]
  }

  /** The dispatches form a chain in which each remembers the one before, and the running task is the latest. */
  ghost predicate Chronicled(s: State) {
    var ds := s.history.dispatches;
    && (forall i :: 0 <= i < |ds| ==> Picked(ds[i]))
    && (forall i :: 0 < i < |ds| ==> ds[i].last == ds[i - 1].task.id)
    && (if ds == [] then s.core.lastSelected == -1 else ds[0].last == -1)
    && (ds != [] ==> s.core.lastSelected == Latest(s).task.id && Latest(s).horizon <= s.core.nextArrival)
    && (s.core.current.Some? ==> ds != [] && s.core.current.value.id == Latest(s).task.id
                                 && s.core.current.value.kind == Latest(s).task.kind)
  }

  /** Only a dispatch writes to the record. */
  lemma DispatchesAfter(s: State, step: Step)
    requires Enabled(s, step) && !(step.Turn? && Dispatches(s))
    ensures var s' := Next(s, step);
            && s'.history.dispatches == s.history.dispatches
            && s'.core.lastSelected == s.core.lastSelected
            && s.core.nextArrival <= s'.core.nextArrival
            && (s'.core.current.Some? ==>
                  && s.core.current.Some?
                  && s'.core.current.value.id == s.core.current.value.id
                  && s'.core.current.value.kind == s.core.current.value.kind)
  {
    if step.Turn? {
      IdleTurnHoldsTheSame(s);
    }
  }

  lemma ChronicledDispatch(s: State, i: nat)
    requires Chronicled(s) && Conserved(s) && Stamped(s) && QueueReady(s)
    requires i < |s.core.waiting| && Deserves(s.core.waiting[i], s.core.waiting, s.core.lastSelected)
    ensures Chronicled(AfterDispatch(s, i))
  {
    QueueIsDistinct(s);
    ArrivalsAreIssued(s);
    assert Picked(Latest(AfterDispatch(s, i)));
  }

  lemma ChronicledStep(s: State, step: Step)
    requires Chronicled(s) && ShellsInOrder(s.core.waiting) && Conserved(s) && Stamped(s) && QueueReady(s)
    requires Enabled(s, step)
    ensures Chronicled(Next(s, step))
  {
    if step.Turn? && Dispatches(s) {
      DispatchDeserved(s);
      ChronicledDispatch(s, Chosen(s));
    } else {
      DispatchesAfter(s, step);
    }
  }

  lemma DispatchDeserved(s: State)
    requires Conserved(s) && ShellsInOrder(s.core.waiting) && Dispatches(s)
    ensures s.core.waiting != [] && Chosen(s) < |s.core.waiting| && DoTurn(s) == AfterDispatch(s, Chosen(s))
    ensures Deserves(s.core.waiting[Chosen(s)], s.core.waiting, s.core.lastSelected)
  {
    DispatchTurn(s);
    QueueIsDistinct(s);
    ChoiceIsDeserved(s.core.waiting, s.core.lastSelected);
  }

  lemma QueueIsDistinct(s: State)
    requires Conserved(s)
    ensures DistinctIds(s.core.waiting)
  {
    forall i | 0 <= i < |s.core.waiting| ensures Count(s.core.waiting[i].id, s.core.waiting) <= 1 {
      CountEverything(s.core.waiting[i].id, s);
    }
    CountedOnceIsDistinct(s.core.waiting);
  }

  // ----- near-shortest-first ----------------------------------------------

  /**
   While a program runs with no preemption requested, no shell waits, and no
   waiting program is shorter except possibly the one dispatched just before.
   */
  ghost predicate NearShortest(s: State) {
    s.core.current.Some? && s.core.current.value.kind.Program? && !s.core.current.value.preempt ==>
      && s.history.dispatches != []
      && forall t :: t in s.core.waiting ==>
           t.kind.Program? && (t.id != Latest(s).last ==> s.core.current.value.remaining <= t.remaining)
  }

  lemma NearShortestDispatch(s: State, i: nat)
    requires Conserved(s) && i < |s.core.waiting|
    requires Deserves(s.core.waiting[i], s.core.waiting, s.core.lastSelected)
    ensures NearShortest(AfterDispatch(s, i))
  {
    QueueIsDistinct(s);
    WithoutMembers(s.core.waiting, i);
  }

  lemma NearShortestStep(s: State, step: Step)
    requires NearShortest(s) && RoundSound(s) && Conserved(s) && ShellsInOrder(s.core.waiting) && Enabled(s, step)
    ensures NearShortest(Next(s, step))
  {
    match step
    case Turn =>
      if Dispatches(s) {
        DispatchDeserved(s);
        NearShortestDispatch(s, Chosen(s));
      } else {
        IdleTurnHoldsTheSame(s);
      }
    case Cancel(client) => FilterMembers(s.core.waiting, client);
    case _ =>
  }

  // ----- shells: first come, first served, one round each -----------------

  ghost predicate ShellsServedInOrder(s: State) {
    var ds := s.history.dispatches;
    && (forall i :: 0 <= i < |ds| ==> ds[i].task.arrival < s.core.nextArrival)
    && (forall i, j :: 0 <= i < j < |ds| && ds[i].task.kind.Shell? && ds[j].task.kind.Shell? ==>
          ds[i].task.arrival < ds[j].task.arrival)
    && (forall i, t :: 0 <= i < |ds| && t in s.core.waiting && ds[i].task.kind.Shell? && t.kind.Shell? ==>
          ds[i].task.arrival < t.arrival)
  }

  lemma ShellsServedDispatch(s: State, i: nat)
    requires ShellsServedInOrder(s) && Conserved(s) && Stamped(s) && i < |s.core.waiting|
    requires Deserves(s.core.waiting[i], s.core.waiting, s.core.lastSelected)
    ensures ShellsServedInOrder(AfterDispatch(s, i))
  {
    QueueIsDistinct(s);
    ArrivalsAreIssued(s);
    WithoutMembers(s.core.waiting, i);
  }

  lemma ShellsServedStep(s: State, step: Step)
    requires ShellsServedInOrder(s) && Conserved(s) && Stamped(s) && ShellsInOrder(s.core.waiting) && Enabled(s, step)
    requires s.core.current.Some? ==> InRound(s.core.current.value)
    ensures ShellsServedInOrder(Next(s, step))
  {
    if step.Turn? && Dispatches(s) {
      DispatchDeserved(s);
      ShellsServedDispatch(s, Chosen(s));
    } else {
      DispatchesAfter(s, step);
      WaitingAfter(s, step);
    }
  }

  // ----- from one dispatch to the next ------------------------------------

  /** A task waiting after dispatch `d`: left over from its queue, the program it ran, or a later arrival. */
  ghost predicate Continues(d: Dispatched, t: Task) {
    || (t in d.waiting && t.id != d.task.id)
    || (t.id == d.task.id && t.kind.Program?)
    || d.horizon <= t.arrival
  }

  ghost predicate Gone(s: State, id: int) {
    exists u :: u in s.detached + s.cleaned && u.id == id
  }

  /**
   `w` is a queue that dispatch `d` handed on: it holds nothing but what
   continues from `d`, and what `d` left behind is in it unless it was cancelled.
   */
  ghost predicate HandedOn(s: State, d: Dispatched, w: seq<Task>) {
    && (forall t :: t in w ==> Continues(d, t))
    && (forall t :: t in d.waiting ==> t.id == d.task.id || t in w || Gone(s, t.id))
  }

  ghost predicate Carried(s: State) {
    var ds := s.history.dispatches;
    && (forall i :: 0 < i < |ds| ==> HandedOn(s, ds[i - 1], ds[i].waiting))
    && (ds != [] ==> HandedOn(s, Latest(s), s.core.waiting))
  }

  lemma GoneAfter(s: State, step: Step, id: int)
    requires Enabled(s, step) && Gone(s, id)
    ensures Gone(Next(s, step), id)
  {
    var s' := Next(s, step);
    var u :| u in s.detached + s.cleaned && u.id == id;
    if u !in s'.detached + s'.cleaned {
      assert s'.cleaned[|s.cleaned|] in s'.detached + s'.cleaned;
    }
  }

  /** A queued task stays queued until it is dispatched or detached. */
  lemma StaysOrGoes(s: State, step: Step, t: Task)
    requires Enabled(s, step) && !(step.Turn? && Dispatches(s)) && t in s.core.waiting
    ensures t in Next(s, step).core.waiting || Gone(Next(s, step), t.id)
  {
    if step.Turn? {
      IdleTurnHoldsTheSame(s);
    } else if step.Cancel? {
      FilterMembers(s.core.waiting, step.client);
      ReverseMembers(Owned(s.core.waiting, step.client));
      assert t.client == step.client ==> t in Next(s, step).detached + Next(s, step).cleaned;
    }
  }

  lemma HandedOnStep(s: State, step: Step, d: Dispatched, w: seq<Task>)
    requires Enabled(s, step) && HandedOn(s, d, w)
    ensures HandedOn(Next(s, step), d, w)
  {
    forall t | t in d.waiting && t.id != d.task.id && t !in w ensures Gone(Next(s, step), t.id) {
      GoneAfter(s, step, t.id);
    }
  }

  lemma HandedOnAtDispatch(s: State, i: nat)
    requires Conserved(s) && i < |s.core.waiting|
    ensures var s' := AfterDispatch(s, i); HandedOn(s', Latest(s'), s'.core.waiting)
  {
    QueueIsDistinct(s);
    WithoutMembers(s.core.waiting, i);
  }

  lemma HandedOnQueue(s: State, step: Step)
    requires s.history.dispatches != [] && HandedOn(s, Latest(s), s.core.waiting)
    requires Chronicled(s) && Enabled(s, step) && !(step.Turn? && Dispatches(s))
    requires s.core.current.Some? ==> InRound(s.core.current.value)
    ensures HandedOn(Next(s, step), Latest(s), Next(s, step).core.waiting)
  {
    WaitingAfter(s, step);
    forall t | t in Latest(s).waiting && t.id != Latest(s).task.id
      ensures t in Next(s, step).core.waiting || Gone(Next(s, step), t.id)
    {
      if Gone(s, t.id) {
        GoneAfter(s, step, t.id);
      } else {
        StaysOrGoes(s, step, t);
      }
    }
  }

  lemma CarriedDispatch(s: State, i: nat)
    requires Carried(s) && Conserved(s) && i < |s.core.waiting|
    ensures Carried(AfterDispatch(s, i))
  {
    var s', ds := AfterDispatch(s, i), s.history.dispatches;
    HandedOnAtDispatch(s, i);
    assert s'.detached + s'.cleaned == s.detached + s.cleaned;
    forall k | 0 < k <= |ds| ensures HandedOn(s', s'.history.dispatches[k - 1], s'.history.dispatches[k].waiting) {
      assert HandedOn(s, s'.history.dispatches[k - 1], s'.history.dispatches[k].waiting);
    }
  }

  lemma CarriedElsewhere(s: State, step: Step)
    requires Carried(s) && Chronicled(s) && Enabled(s, step) && !(step.Turn? && Dispatches(s))
    requires s.core.current.Some? ==> InRound(s.core.current.value)
    ensures Carried(Next(s, step))
  {
    var ds := s.history.dispatches;
    DispatchesAfter(s, step);
    forall i | 0 < i < |ds| ensures HandedOn(Next(s, step), ds[i - 1], ds[i].waiting) {
      HandedOnStep(s, step, ds[i - 1], ds[i].waiting);
    }
    if ds != [] {
      HandedOnQueue(s, step);
    }
  }

  lemma CarriedStep(s: State, step: Step)
    requires Carried(s) && Chronicled(s) && Conserved(s) && Enabled(s, step)
    requires s.core.current.Some? ==> InRound(s.core.current.value)
    ensures Carried(Next(s, step))
  {
    if step.Turn? && Dispatches(s) {
      DispatchTurn(s);
      CarriedDispatch(s, Chosen(s));
    } else {
      CarriedElsewhere(s, step);
    }
  }
}
