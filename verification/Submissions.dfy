/** Every record in the system, at whatever place and time, is the task its own submission asked for. */
module Submissions {
  import opened Wrappers
  import opened Tasks
  import opened SchedulerCore
  import opened System
  import opened Invariants

  /** The submission that was given this id in the run, if one was. */
  function Asked(s: State, steps: seq<Step>, id: int): (r: Option<Step>)
    ensures r.Some? ==> r.value.Submit?
    decreases |steps|
  {
    if steps == [] || !Enabled(s, steps[0]) then None
    else if steps[0].Submit? && s.core.nextId == id then Some(steps[0])
    else Asked(Next(s, steps[0]), steps[1..], id)
  }

  /**
   Kind and client are those asked for. So is a positive burst estimate of a
   program; one that is not positive is replaced by the default, and a shell's by -1.
   */
  ghost predicate Fits(c: Config, t: Task, asked: Option<Step>) {
    && asked.Some? && asked.value.Submit?
    && t.kind == asked.value.kind && t.client == asked.value.client
    && (t.kind.Shell? ==> t.predicted == -1)
    && (t.kind.Program? && asked.value.predicted > 0 ==> t.predicted == asked.value.predicted)
    && (t.kind.Program? && asked.value.predicted <= 0 ==> t.predicted == c.defaultBurst)
  }

  /** A task that has had no round yet has its whole burst ahead. */
  ghost predicate Untouched(t: Task) {
    t.rounds == 0 ==> t.remaining == t.predicted
  }

  /** What is known of a task wherever it is, and of every dispatch of it. */
  ghost predicate Known(s: State, c: Config, id: int, asked: Option<Step>) {
    && s.core.config == c && (asked.Some? ==> id < s.core.nextId)
    && (forall t :: t in s.core.waiting && t.id == id ==> Fits(c, t, asked) && Untouched(t))
    && (s.core.current.Some? && s.core.current.value.id == id ==> Fits(c, s.core.current.value, asked))
    && (forall t :: t in s.detached && t.id == id ==> Fits(c, t, asked))
    && (forall t :: t in s.cleaned && t.id == id ==> Fits(c, t, asked))
    && (forall d :: d in s.history.dispatches && d.task.id == id ==> Fits(c, d.task, asked) && Untouched(d.task))
  }

  lemma KnownSubmit(s: State, kind: Kind, client: int, predicted: int, c: Config, id: int, asked: Option<Step>)
    requires Known(s, c, id, asked) && Enabled(s, Submit(kind, client, predicted))
    ensures Known(Next(s, Submit(kind, client, predicted)), c, id,
                  if s.core.nextId == id then Some(Submit(kind, client, predicted)) else asked)
  {
  }

  lemma KnownTurn(s: State, c: Config, id: int, asked: Option<Step>)
    requires Known(s, c, id, asked) && Enabled(s, Turn)
    ensures Known(DoTurn(s), c, id, asked)
  {
    if Dispatches(s) {
      DispatchTurn(s);
    } else {
      IdleTurnHoldsTheSame(s);
    }
  }

  lemma KnownStep(s: State, step: Step, c: Config, id: int, asked: Option<Step>)
    requires Known(s, c, id, asked) && Enabled(s, step)
    ensures Known(Next(s, step), c, id, if step.Submit? && s.core.nextId == id then Some(step) else asked)
  {
    match step
    case Submit(kind, client, predicted) => KnownSubmit(s, kind, client, predicted, c, id, asked);
    case Cancel(client) =>
      FilterMembers(s.core.waiting, client);
      ReverseMembers(Owned(s.core.waiting, client));
    case CleanUp(i) => assert s.detached[i] in s.detached;
    case Turn => KnownTurn(s, c, id, asked);
    case _ =>
  }

  /** Ids are issued once, so what was asked first under an id stays what was asked. */
  lemma {:induction false} KnownRun(s: State, steps: seq<Step>, c: Config, id: int, asked: Option<Step>)
    requires Known(s, c, id, asked) && Run(s, steps).Some?
    ensures Known(Run(s, steps).value, c, id, if asked.Some? then asked else Asked(s, steps, id))
    ensures asked.Some? ==> Asked(s, steps, id).None?
    decreases |steps|
  {
    if steps != [] {
      KnownStep(s, steps[0], c, id, asked);
      KnownRun(Next(s, steps[0]), steps[1..], c, id,
               if steps[0].Submit? && s.core.nextId == id then Some(steps[0]) else asked);
    }
  }

  /**
   Over every run: whatever the scheduler holds, has let go of or has dispatched
   has the kind, the client and the burst estimate of the submission that was
   given its id.
   */
  lemma {:induction false} RecordsAreAsAsked(config: Option<Config>, steps: seq<Step>, t: Task)
    requires Run(Init(config), steps).Some?
    requires var end := Run(Init(config), steps).value;
             t in Everything(end) || exists d :: d in end.history.dispatches && d.task == t
    ensures Asked(Init(config), steps, t.id).Some?
    ensures var asked := Asked(Init(config), steps, t.id).value;
            && t.kind == asked.kind && t.client == asked.client
            && t.predicted == if asked.kind.Shell? then -1
                              else if asked.predicted > 0 then asked.predicted
                              else Configure(config).defaultBurst
  {
    KnownRun(Init(config), steps, Configure(config), t.id, None);
  }

  /** And a program's first dispatch finds the whole burst it asked for still ahead of it. */
  lemma {:induction false} FirstDispatchHasWholeBurst(config: Option<Config>, steps: seq<Step>, d: Dispatched)
    requires Run(Init(config), steps).Some? && d in Run(Init(config), steps).value.history.dispatches
    requires d.task.kind.Program? && d.task.rounds == 0
    ensures Asked(Init(config), steps, d.task.id).Some?
    ensures var asked := Asked(Init(config), steps, d.task.id).value;
            d.task.remaining == if asked.predicted > 0 then asked.predicted else Configure(config).defaultBurst
  {
    KnownRun(Init(config), steps, Configure(config), d.task.id, None);
  }
}
