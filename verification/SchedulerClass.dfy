/**
 The scheduler object itself: task records linked through `next`, spliced in
 place. Every method is tied to the function of module SchedulerCore that specifies it.
 */
module SchedulerClass {
  import opened Wrappers
  import opened Tasks
  import opened Selection
  import opened SchedulerCore

  /** One queue record: the task's data fields and the link that the queue threads through it. */
  class TaskNode {
    var task: Task
    var next: TaskNode?

    constructor (kind: Kind, client: int, predicted: int)
      ensures task == NewTask(kind, client, predicted) && next == null
    {
      task := NewTask(kind, client, predicted);
      next := null;
    }
  }

  ghost predicate Records(s: seq<TaskNode>, v: seq<Task>)
    reads s`task
  {
    |v| == |s| && forall i {:trigger v[i]} :: 0 <= i < |s| ==> v[i] == s[i].task
  }

  lemma RecordsExist(s: seq<TaskNode>)
    ensures exists v :: Records(s, v)
  {
    assert Records(s, seq(|s|, i requires 0 <= i < |s| reads s => s[i].task));
  }

  /** The records behind a sequence of nodes; only their data fields are read, not their links. */
  ghost function Values(s: seq<TaskNode>): (v: seq<Task>)
    reads s`task
    ensures |v| == |s|
    ensures forall i {:trigger v[i]} :: 0 <= i < |s| ==> v[i] == s[i].task
  {
    RecordsExist(s);
    var v :| Records(s, v);
    v
  }

  ghost function At(s: seq<TaskNode>, i: int): TaskNode? {
    if 0 <= i < |s| then s[i] else null
  }

  /** The record at an optional position, and the one in front of it. */
  ghost function NodeAt(s: seq<TaskNode>, i: Option<nat>): TaskNode? {
    if i.None? then null else At(s, i.value)
  }

  ghost function PreviousOf(s: seq<TaskNode>, i: Option<nat>): TaskNode? {
    if i.None? then null else At(s, i.value - 1)
  }

  /** The links of `s` follow the sequence and end in null. */
  ghost predicate Chained(s: seq<TaskNode>)
    reads s
  {
    forall i {:trigger s[i].next} :: 0 <= i < |s| ==> s[i].next == At(s, i + 1)
  }

  /** A null-terminated chain cannot visit a record twice. */
  lemma {:induction false} ChainHasNoRepeats(s: seq<TaskNode>, i: nat, j: nat)
    requires Chained(s) && i < j < |s|
    ensures s[i] != s[j]
    decreases |s| - j
  {
    if s[i] == s[j] {
      assert s[i].next == At(s, i + 1) && s[j].next == At(s, j + 1);
      if j + 1 < |s| {
        ChainHasNoRepeats(s, i + 1, j + 1);
      }
    }
  }

  lemma OccursOnce(s: seq<TaskNode>, i: nat)
    requires Chained(s) && i < |s|
    ensures forall k :: 0 <= k < |s| && k != i ==> s[k] != s[i]
  {
    forall k | 0 <= k < |s| && k != i
      ensures s[k] != s[i]
    {
      if k < i {
        ChainHasNoRepeats(s, k, i);
      } else {
        ChainHasNoRepeats(s, i, k);
      }
    }
  }

  lemma ValuesWithout(s: seq<TaskNode>, i: nat)
    requires i < |s|
    ensures Values(Without(s, i)) == Without(Values(s), i)
  {
  }

  /** Around a record that is skipped by its predecessor's link, the rest is a chain. */
  lemma ChainWithout(s: seq<TaskNode>, i: nat)
    requires i < |s| && (i > 0 ==> s[i - 1].next == At(s, i + 1))
    requires forall k {:trigger s[k].next} :: 0 <= k < |s| && k != i && k != i - 1 ==> s[k].next == At(s, k + 1)
    ensures Chained(Without(s, i))
  {
    var r := Without(s, i);
    forall k | 0 <= k < |r|
      ensures r[k].next == At(r, k + 1)
    {
      var m := if k < i then k else k + 1;
      assert r[k] == s[m] && s[m].next == At(s, if m == i - 1 then i + 1 else m + 1);
    }
  }

  /** One record fewer, in the same order. */
  ghost predicate Shortened(before: seq<TaskNode>, after: seq<TaskNode>) {
    exists i: nat :: i < |before| && after == Without(before, i)
  }

  lemma ShortenedIsPart(before: seq<TaskNode>, after: seq<TaskNode>)
    requires Shortened(before, after)
    ensures forall k :: 0 <= k < |after| ==> after[k] in before
  {
  }

  class Scheduler {
    var waitingHead: TaskNode?
    var waitingTail: TaskNode?
    var currentTask: TaskNode?
    var stopRequested: bool
    var activeTaskCount: int
    var queuedSignalCount: nat
    var nextTaskId: int
    var lastSelectedTaskId: int
    var nextArrivalOrder: int
    var config: Config
    ghost var queue: seq<TaskNode>
    ghost var cleaned: seq<Task>  // every record handed to the cleanup callback, in order

    /** Head, tail and links spell out exactly the ghost queue. */
    ghost predicate Linked()
      reads this, queue
    {
      && Chained(queue)
      && waitingHead == At(queue, 0)
      && waitingTail == At(queue, |queue| - 1)
    }

    /** The running record is not also in the queue. */
    ghost predicate Placed()
      reads this, queue
    {
      Linked() && currentTask !in queue
    }

    /** Between two locked regions: the records are in place and numbered, each id held once. */
    ghost predicate Valid()
      reads this, queue, currentTask
    {
      Placed() && Numbered(Abs())
    }

    ghost function Abs(): Core
      reads this, queue, currentTask
    {
      Core(config, Values(queue), if currentTask == null then None else Some(currentTask.task),
           activeTaskCount, queuedSignalCount, stopRequested, nextTaskId, lastSelectedTaskId, nextArrivalOrder)
    }

    constructor (requested: Option<Config>)
      ensures Valid() && Abs() == InitialCore(requested)
      ensures queue == [] && currentTask == null && cleaned == [] && !stopRequested
      ensures activeTaskCount == queuedSignalCount == 0 && nextTaskId == nextArrivalOrder == 1
      ensures lastSelectedTaskId == -1 && config == Configure(requested)
    {
      waitingHead, waitingTail, currentTask := null, null, null;
      stopRequested := false;
      activeTaskCount, queuedSignalCount := 0, 0;
      config := Configure(requested);
      nextTaskId, lastSelectedTaskId, nextArrivalOrder := 1, -1, 1;
      queue, cleaned := [], [];
    }

    /** Appends one record to the waiting queue. */
    method Enqueue(node: TaskNode)
      requires Linked() && node !in queue
      modifies this`waitingHead, this`waitingTail, this`queue, node`next, queue`next
      ensures Linked() && queue == old(queue) + [node]
      ensures Values(queue) == old(Values(queue)) + [old(node.task)]
    {
      node.next := null;
      if queue != [] {
        OccursOnce(queue, |queue| - 1);
      }
      queue := queue + [node];
      if waitingTail == null {
        waitingHead := node;
        waitingTail := node;
        return;
      }
      waitingTail.next := node;
      waitingTail := node;
    }

    /** Splices out the record at position `i`, whose predecessor is `previous`. */
    method Unlink(node: TaskNode, previous: TaskNode?, ghost i: nat)
      requires Linked() && i < |queue| && queue[i] == node
      requires previous == At(queue, i - 1)
      modifies this`waitingHead, this`waitingTail, this`queue, queue`next
      ensures Linked() && queue == Without(old(queue), i) && node !in queue
      ensures node.next == null
    {
      ghost var was := queue;
      OccursOnce(queue, i);
      if i > 0 {
        OccursOnce(queue, i - 1);
      }
      if previous == null {
        waitingHead := node.next;
      } else {
        previous.next := node.next;
      }
      if waitingTail == node {
        waitingTail := previous;
      }
      node.next := null;
      ChainWithout(was, i);
      queue := Without(was, i);
      assert waitingHead == At(queue, 0);
    }

    /** One pass over the queue that keeps the two shortest programs and their predecessors. */
    method ScanPrograms()
      returns (best: TaskNode?, bestPrev: TaskNode?, bestAlt: TaskNode?, bestAltPrev: TaskNode?,
               ghost b: Option<nat>, ghost a: Option<nat>)
      requires Linked() && DistinctIds(Values(queue))
      ensures best == NodeAt(queue, Shortest(Values(queue), |queue|, {}))
      ensures TwoMinima(Values(queue), |queue|, b, a)
      ensures best == NodeAt(queue, b) && bestPrev == PreviousOf(queue, b)
      ensures bestAlt == NodeAt(queue, a) && bestAltPrev == PreviousOf(queue, a)
    {
      ghost var w := Values(queue);
      ghost var n: nat := 0;
      var cursor, previous: TaskNode? := waitingHead, null;
      b, a := None, None;
      best, bestPrev, bestAlt, bestAltPrev := null, null, null, null;
      while cursor != null
        invariant n <= |queue|
        invariant cursor == At(queue, n) && previous == At(queue, n - 1)
        invariant TwoMinima(w, n, b, a)
        invariant best == NodeAt(queue, b) && bestPrev == PreviousOf(queue, b)
        invariant bestAlt == NodeAt(queue, a) && bestAltPrev == PreviousOf(queue, a)
        decreases |queue| - n
      {
        ScanStepKeepsTwoMinima(w, n, b, a);
        if cursor.task.kind.Program? {
          if best == null || Before(cursor.task, best.task) {
            bestAlt, bestAltPrev, a := best, bestPrev, b;
            best, bestPrev, b := cursor, previous, Some(n);
          } else if bestAlt == null || Before(cursor.task, bestAlt.task) {
            bestAlt, bestAltPrev, a := cursor, previous, Some(n);
          }
        }
        assert queue[n].next == At(queue, n + 1);
        previous := cursor;
        cursor := cursor.next;
        n := n + 1;
      }
    }

    /** The two-minimum scan, the fairness rule, and the splice. */
    method ChooseShortestProgram() returns (best: TaskNode?)
      requires Linked() && DistinctIds(Values(queue))
      modifies this`waitingHead, this`waitingTail, this`queue, queue`next
      ensures Linked()
      ensures var r := ProgramChoice(old(Values(queue)), lastSelectedTaskId);
              if r.None? then best == null && queue == old(queue)
              else
                && best == old(queue[r.value])
                && best.next == null && best !in queue
                && queue == Without(old(queue), r.value)
    {
      var bestPrev, bestAlt, bestAltPrev;
      ghost var b, a;
      best, bestPrev, bestAlt, bestAltPrev, b, a := ScanPrograms();
      TwoMinimaRule(Values(queue), lastSelectedTaskId, b, a);
      if best != null && best.task.id == lastSelectedTaskId && bestAlt != null {
        best, bestPrev, b := bestAlt, bestAltPrev, a;
      }
      if best == null {
        return;
      }
      Unlink(best, bestPrev, b.value);
    }

    /** The combined policy: the first shell in the queue, otherwise a program. */
    method DequeueNext() returns (task: TaskNode?)
      requires Linked() && DistinctIds(Values(queue))
      modifies this`waitingHead, this`waitingTail, this`queue, queue`next
      ensures Linked()
      ensures var r := Choice(old(Values(queue)), lastSelectedTaskId);
              if r.None? then task == null && queue == old(queue)
              else
                && task == old(queue[r.value])
                && task.next == null && task !in queue
                && queue == Without(old(queue), r.value)
    {
      ghost var w := Values(queue);
      ghost var n: nat := 0;
      var cursor, previous: TaskNode? := waitingHead, null;
      while cursor != null
        invariant n <= |queue| && queue == old(queue)
        invariant cursor == At(queue, n) && previous == At(queue, n - 1)
        invariant forall j :: 0 <= j < n ==> w[j].kind.Program?
        decreases |queue| - n
      {
        if cursor.task.kind.Shell? {
          FirstShellIs(w, n);
          Unlink(cursor, previous, n);
          return cursor;
        }
        previous := cursor;
        cursor := cursor.next;
        n := n + 1;
      }
      FirstShellIs(w, n);
      task := ChooseShortestProgram();
    }

    /** Numbers a task and settles its burst estimate. */
    method Stamp(node: TaskNode)
      modifies this`nextTaskId, this`nextArrivalOrder, node
      ensures node.task == Admit(old(Abs()), old(node.task))
      ensures nextTaskId == old(nextTaskId) + 1 && nextArrivalOrder == old(nextArrivalOrder) + 1
    {
      node.task := node.task.(id := nextTaskId);
      nextTaskId := nextTaskId + 1;
      node.task := node.task.(arrival := nextArrivalOrder);
      nextArrivalOrder := nextArrivalOrder + 1;
      node.task := node.task.(state := Waiting);
      node.next := null;
      if node.task.kind.Shell? {
        node.task := node.task.(predicted := -1, remaining := -1);
      } else if node.task.predicted <= 0 {
        node.task := node.task.(predicted := config.defaultBurst);
        node.task := node.task.(remaining := node.task.predicted);
      }
    }

    /** Stamps a task, queues it, and issues its wake-up token. */
    method AppendStamped(node: TaskNode)
      requires Linked() && currentTask !in queue && node !in queue && node != currentTask
      modifies this`waitingHead, this`waitingTail, this`queue, this`nextTaskId, this`nextArrivalOrder,
               this`activeTaskCount, this`queuedSignalCount, node, queue`next
      ensures Linked() && queue == old(queue) + [node]
      ensures Abs() == Append(old(Abs()), old(node.task))
      ensures node.task == Admit(old(Abs()), old(node.task))
    {
      Stamp(node);
      Announce(node);
    }

    /** Queues a stamped task and issues its wake-up token. */
    method Announce(node: TaskNode)
      requires Linked() && currentTask !in queue && node !in queue && node != currentTask
      modifies this`waitingHead, this`waitingTail, this`queue, this`activeTaskCount, this`queuedSignalCount,
               node`next, queue`next
      ensures Linked() && queue == old(queue) + [node]
      ensures var c := old(Abs());
              Abs() == c.(waiting := c.waiting + [node.task], active := c.active + 1, signals := c.signals + 1)
    {
      Enqueue(node);
      activeTaskCount := activeTaskCount + 1;
      queuedSignalCount := queuedSignalCount + 1;
    }

    /**
     Adds one task to the waiting queue and requests preemption when it should
     interrupt the running program. The task keeps its kind, client and positive
     estimate; it gets the next id and arrival number, a shell the burst -1, and
     a program without a positive estimate the default one.
     */
    method SubmitTask(node: TaskNode) returns (id: int)
      requires Valid() && node !in queue && node != currentTask
      modifies this, queue, node, currentTask
      ensures Valid() && queue == old(queue) + [node] && currentTask == old(currentTask)
      ensures Abs() == Submit(old(Abs()), old(node.task))
      ensures id == old(nextTaskId) && nextTaskId == id + 1 && cleaned == old(cleaned)
      ensures var burst := if old(node.task.kind).Shell? then -1 else old(config.defaultBurst);
              var estimated := old(node.task.kind).Program? && old(node.task.predicted) > 0;
              node.task == old(node.task).(id := id, arrival := old(nextArrivalOrder), state := Waiting,
                                           predicted := if estimated then old(node.task.predicted) else burst,
                                           remaining := if estimated then old(node.task.remaining) else burst)
      ensures old(currentTask) != null ==>
                var running := old(currentTask.task);
                currentTask.task == running.(preempt := running.preempt
                                             || (running.kind.Program?
                                                 && (node.task.kind.Shell? || node.task.remaining < running.remaining)))
      ensures activeTaskCount == old(activeTaskCount) + 1 && queuedSignalCount == old(queuedSignalCount) + 1
      ensures nextArrivalOrder == old(nextArrivalOrder) + 1 && stopRequested == old(stopRequested)
      ensures lastSelectedTaskId == old(lastSelectedTaskId) && config == old(config)
    {
      SubmitNumbered(Abs(), node.task);
      AppendStamped(node);
      if ShouldPreemptCurrent(node) {
        currentTask.task := currentTask.task.(preempt := true);
      }
      return node.task.id;
    }

    /** New shells always interrupt a running program; new programs only when they are shorter. */
    predicate ShouldPreemptCurrent(incoming: TaskNode)
      reads this, currentTask, incoming
      ensures ShouldPreemptCurrent(incoming) <==>
              ShouldPreempt(if currentTask == null then None else Some(currentTask.task), incoming.task)
    {
      if currentTask == null || !currentTask.task.kind.Program? then false
      else if incoming.task.kind.Shell? then true
      else incoming.task.kind.Program? && incoming.task.remaining < currentTask.task.remaining
    }

    method RequestStop()
      requires Valid()
      modifies this`stopRequested
      ensures Valid() && queue == old(queue) && stopRequested && Abs() == SchedulerCore.RequestStop(old(Abs()))
    {
      stopRequested := true;
    }

    /** The scheduler thread's locked turn: sleep, stop, find nothing, or dispatch. */
    method BeginPass() returns (outcome: Outcome)
      requires Valid() && currentTask == null
      modifies this, queue
      ensures Valid() && (Abs(), outcome) == Pass(old(Abs())) && cleaned == old(cleaned)
      ensures outcome.Dispatch? ==> currentTask != null && currentTask in old(queue) && Shortened(old(queue), queue)
      ensures !outcome.Dispatch? ==> currentTask == null && queue == old(queue)
    {
      QueueIsNumbered(Abs());
      PassNumbered(Abs());
      outcome := TakeTurn();
    }

    method TakeTurn() returns (outcome: Outcome)
      requires Placed() && currentTask == null && DistinctIds(Values(queue))
      modifies this, queue
      ensures Placed() && (Abs(), outcome) == Pass(old(Abs())) && cleaned == old(cleaned)
      ensures outcome.Dispatch? ==> currentTask != null && currentTask in old(queue) && Shortened(old(queue), queue)
      ensures !outcome.Dispatch? ==> currentTask == null && queue == old(queue)
    {
      var woken := WakeUp();
      if woken.Some? {
        return woken.value;
      }
      outcome := DispatchNext();
    }

    /** The wait and what follows it: a sleep or an exit, or else, with a wake-up token taken, a turn to dispatch. */
    method WakeUp() returns (outcome: Option<Outcome>)
      modifies this`queuedSignalCount
      ensures outcome.Some? ==> (Abs(), outcome.value) == Pass(old(Abs())) && !outcome.value.Dispatch?
      ensures outcome.None? ==> Pass(old(Abs())) == SchedulerCore.DispatchNext(Abs())
    {
      if queuedSignalCount == 0 && !(stopRequested && activeTaskCount == 0) {
        return Some(Sleep);
      }
      if queuedSignalCount > 0 {
        queuedSignalCount := queuedSignalCount - 1;
      }
      return if stopRequested && activeTaskCount == 0 then Some(Exit) else None;
    }

    method DispatchNext() returns (outcome: Outcome)
      requires Linked() && DistinctIds(Values(queue)) && currentTask == null
      modifies this`waitingHead, this`waitingTail, this`queue, this`currentTask, this`lastSelectedTaskId, queue
      ensures Linked() && currentTask !in queue
      ensures (Abs(), outcome) == SchedulerCore.DispatchNext(old(Abs()))
      ensures outcome.Dispatch? ==> currentTask != null && currentTask in old(queue) && Shortened(old(queue), queue)
      ensures !outcome.Dispatch? ==> currentTask == null && queue == old(queue)
    {
      ghost var was, choice := queue, Choice(Values(queue), lastSelectedTaskId);
      var task := DequeueNext();
      if task == null {
        return Idle;
      }
      ValuesWithout(was, choice.value);
      var quantum := Install(task);
      return Dispatch(quantum);
    }

    /** Makes a dequeued task the running one. */
    method Install(task: TaskNode) returns (quantum: int)
      requires Linked() && task !in queue
      modifies this`currentTask, this`lastSelectedTaskId, task`task
      ensures Linked() && Values(queue) == old(Values(queue))
      ensures currentTask == task && lastSelectedTaskId == old(task.task.id)
      ensures task.task == old(task.task).(state := Running, preempt := false)
      ensures quantum == if task.task.rounds == 0 then config.firstQuantum else config.laterQuantum
    {
      currentTask := task;
      lastSelectedTaskId := task.task.id;
      task.task := task.task.(state := Running, preempt := false);
      quantum := if task.task.rounds == 0 then config.firstQuantum else config.laterQuantum;
    }

    /**
     The locked region after the executor returns: unfinished, uncancelled work
     that asks for it goes back to the tail; anything else is cleaned up, as
     cancelled or as finished.
     */
    method FinishRound(result: RunResult)
      requires Valid() && currentTask != null
      modifies this, queue`next, currentTask
      ensures Valid() && currentTask == null
      ensures var (c, ended) := Finish(old(Abs()), result);
              && Abs() == c
              && cleaned == old(cleaned) + (if ended.Some? then [ended.value] else [])
              && queue == old(queue) + (if ended.Some? then [] else [old(currentTask)])
      ensures var node, t := old(currentTask), old(currentTask.task);
              if result == Requeue && !t.cancel && t.remaining > 0 then
                && queue == old(queue) + [node] && cleaned == old(cleaned)
                && node.task == t.(rounds := t.rounds + 1, state := Waiting, preempt := false)
                && activeTaskCount == old(activeTaskCount) && queuedSignalCount == old(queuedSignalCount) + 1
              else
                && queue == old(queue) && cleaned == old(cleaned) + [node.task]
                && node.task == t.(state :=
                     if t.cancel || result == Abandoned || (t.remaining > 0 && result != Complete)
                     then Cancelled else Finished)
                && activeTaskCount == old(activeTaskCount) - 1 && queuedSignalCount == old(queuedSignalCount)
    {
      FinishNumbered(Abs(), result);
      var node := currentTask;
      currentTask := null;
      Settle(node, result);
    }

    /** Requeues or finalises the task whose round just ended. */
    method Settle(node: TaskNode, result: RunResult)
      requires Linked() && node !in queue && currentTask == null
      modifies this`waitingHead, this`waitingTail, this`queue, this`queuedSignalCount, this`activeTaskCount,
               this`cleaned, node, queue`next
      ensures Linked()
      ensures var (c, ended) := Finish(old(Abs()).(current := Some(old(node.task))), result);
              && Abs() == c
              && cleaned == old(cleaned) + (if ended.Some? then [ended.value] else [])
              && queue == old(queue) + (if ended.Some? then [] else [node])
      ensures var t := old(node.task);
              if result == Requeue && !t.cancel && t.remaining > 0 then
                && queue == old(queue) + [node] && cleaned == old(cleaned)
                && node.task == t.(rounds := t.rounds + 1, state := Waiting, preempt := false)
                && activeTaskCount == old(activeTaskCount) && queuedSignalCount == old(queuedSignalCount) + 1
              else
                && queue == old(queue) && cleaned == old(cleaned) + [node.task]
                && node.task == t.(state :=
                     if t.cancel || result == Abandoned || (t.remaining > 0 && result != Complete)
                     then Cancelled else Finished)
                && activeTaskCount == old(activeTaskCount) - 1 && queuedSignalCount == old(queuedSignalCount)
    {
      if result == Requeue && !node.task.cancel && node.task.remaining > 0 {
        PutBack(node);
        return;
      }
      if result == Abandoned || node.task.cancel {
        Finalize(node, Cancelled);
      } else if node.task.remaining <= 0 || result == Complete {
        Finalize(node, Finished);
      } else {
        Finalize(node, Cancelled);
      }
    }

    /** Returns an unfinished task to the tail of the queue with a wake-up token. */
    method PutBack(node: TaskNode)
      requires Linked() && node !in queue
      modifies this`waitingHead, this`waitingTail, this`queue, this`queuedSignalCount, node, queue`next
      ensures Linked() && queue == old(queue) + [node] && queuedSignalCount == old(queuedSignalCount) + 1
      ensures Values(queue) == old(Values(queue)) + [SchedulerCore.PutBack(old(node.task))]
      ensures node.task == old(node.task).(rounds := old(node.task.rounds) + 1, state := Waiting, preempt := false)
    {
      node.task := node.task.(rounds := node.task.rounds + 1, state := Waiting, preempt := false);
      Enqueue(node);
      queuedSignalCount := queuedSignalCount + 1;
    }

    /** Accounts for a task that ended and hands it to the cleanup callback. */
    method Finalize(node: TaskNode, state: TaskState)
      requires Linked() && node !in queue
      modifies this`activeTaskCount, this`cleaned, node`task
      ensures Linked() && Values(queue) == old(Values(queue))
      ensures activeTaskCount == old(activeTaskCount) - 1
      ensures node.task == old(node.task).(state := state)
      ensures cleaned == old(cleaned) + [node.task]
    {
      node.task := node.task.(state := state);
      activeTaskCount := activeTaskCount - 1;
      cleaned := cleaned + [node.task];
    }

    /** Splices a record out of the queue and pushes it on the list of removed records. */
    method MoveToFreeList(node: TaskNode, previous: TaskNode?, toFree: TaskNode?,
                          ghost kept: seq<TaskNode>, ghost ahead: seq<TaskNode>, ghost freed: seq<TaskNode>)
      requires Linked() && queue == kept + ahead && ahead != [] && ahead[0] == node
      requires Chained(freed) && forall n :: n in freed ==> n !in queue
      requires previous == At(kept, |kept| - 1) && toFree == At(freed, 0)
      modifies this`waitingHead, this`waitingTail, this`queue, this`activeTaskCount, queue`next
      ensures Linked() && queue == kept + ahead[1..] && activeTaskCount == old(activeTaskCount) - 1
      ensures forall k :: 0 <= k < |queue| ==> queue[k] in old(queue)
      ensures Values(kept) == old(Values(kept)) && Values(ahead[1..]) == old(Values(ahead[1..]))
      ensures Values([node] + freed) == old(Values([node] + freed))
      ensures Chained([node] + freed) && forall n :: n in [node] + freed ==> n !in queue
    {
      activeTaskCount := activeTaskCount - 1;
      assert queue[|kept|] == node && node !in freed;
      assert Without(queue, |kept|) == kept + ahead[1..];
      forall k | 0 <= k < |freed|
        ensures freed[k] !in queue
      {
        assert freed[k] in freed;
      }
      Unlink(node, previous, |kept|);
      PushFree(node, toFree, freed);
    }

    /** Links an unlinked record in front of the list of removed records. */
    method PushFree(node: TaskNode, toFree: TaskNode?, ghost freed: seq<TaskNode>)
      requires Linked() && node !in queue && node !in freed
      requires Chained(freed) && toFree == At(freed, 0)
      modifies node`next
      ensures Linked() && Chained([node] + freed)
    {
      node.next := toFree;
      ghost var longer := [node] + freed;
      forall k | 0 <= k < |longer|
        ensures longer[k].next == At(longer, k + 1)
      {
        if k > 0 {
          assert longer[k] == freed[k - 1] && freed[k - 1] in freed;
        }
      }
    }

    /** The two lists a cancellation has built after walking past the tasks in `walked`. */
    ghost predicate Parted(client: int, walked: seq<Task>, kept: seq<TaskNode>, freed: seq<TaskNode>)
      reads kept, freed
    {
      Values(kept) == Others(walked, client) && Values(freed) == Reverse(Owned(walked, client))
    }

    lemma PartOwned(client: int, walked: seq<Task>, node: TaskNode, kept: seq<TaskNode>, freed: seq<TaskNode>)
      requires Parted(client, walked, kept, freed) && node.task.client == client
      ensures Parted(client, walked + [node.task], kept, [node] + freed)
    {
      FiltersSnoc(walked, node.task, client);
      ReverseSnoc(Owned(walked, client), node.task);
      assert Values([node] + freed) == [node.task] + Values(freed);
    }

    lemma PartOther(client: int, walked: seq<Task>, node: TaskNode, kept: seq<TaskNode>, freed: seq<TaskNode>)
      requires Parted(client, walked, kept, freed) && node.task.client != client
      ensures Parted(client, walked + [node.task], kept + [node], freed)
    {
      FiltersSnoc(walked, node.task, client);
      assert Values(kept + [node]) == Values(kept) + [node.task];
    }

    /**
     The queue while a cancellation walks it: `kept` lies behind the cursor and
     `ahead` from it on, `freed` is the list of removed records, and `nodes`
     with their `tasks` were queued when the walk began.
     */
    ghost predicate Walking(client: int, nodes: seq<TaskNode>, tasks: seq<Task>, walked: seq<Task>,
                            ahead: seq<TaskNode>, kept: seq<TaskNode>, freed: seq<TaskNode>,
                            previous: TaskNode?, toFree: TaskNode?)
      reads this, queue, kept, freed, ahead
    {
      && Linked() && queue == kept + ahead
      && Chained(freed) && (forall n :: n in freed ==> n !in queue)
      && Parted(client, walked, kept, freed)
      && walked + Values(ahead) == tasks
      && currentTask !in queue && currentTask !in freed
      && previous == At(kept, |kept| - 1) && toFree == At(freed, 0)
      && (forall k :: 0 <= k < |queue| ==> queue[k] in nodes)
      && (forall k :: 0 <= k < |freed| ==> freed[k] in nodes)
    }

    /** The loop body for a task of the client: it moves to the list of removed tasks. */
    method WalkOut(node: TaskNode, previous: TaskNode?, toFree: TaskNode?, client: int,
                   ghost nodes: seq<TaskNode>, ghost tasks: seq<Task>, ghost walked: seq<Task>,
                   ghost ahead: seq<TaskNode>, ghost kept: seq<TaskNode>, ghost freed: seq<TaskNode>)
      requires Walking(client, nodes, tasks, walked, ahead, kept, freed, previous, toFree)
      requires ahead != [] && ahead[0] == node && node.task.client == client
      modifies this`waitingHead, this`waitingTail, this`queue, this`activeTaskCount, queue`next
      ensures Walking(client, nodes, tasks, walked + [node.task], ahead[1..], kept, [node] + freed, previous, node)
      ensures activeTaskCount == old(activeTaskCount) - 1
    {
      PartOwned(client, walked, node, kept, freed);
      assert Values(ahead) == [node.task] + Values(ahead[1..]);
      assert queue[|kept|] == node;
      MoveToFreeList(node, previous, toFree, kept, ahead, freed);
    }

    /** The loop body for any other task: the cursor steps over it. */
    lemma WalkPast(node: TaskNode, previous: TaskNode?, toFree: TaskNode?, client: int,
                   nodes: seq<TaskNode>, tasks: seq<Task>, walked: seq<Task>,
                   ahead: seq<TaskNode>, kept: seq<TaskNode>, freed: seq<TaskNode>)
      requires Walking(client, nodes, tasks, walked, ahead, kept, freed, previous, toFree)
      requires ahead != [] && ahead[0] == node && node.task.client != client
      ensures Walking(client, nodes, tasks, walked + [node.task], ahead[1..], kept + [node], freed, node, toFree)
    {
      PartOther(client, walked, node, kept, freed);
      assert Values(ahead) == [node.task] + Values(ahead[1..]);
    }

    /** The link of the record under the cursor leads to the rest of the walk. */
    lemma WalkOn(client: int, nodes: seq<TaskNode>, tasks: seq<Task>, walked: seq<Task>, ahead: seq<TaskNode>,
                 kept: seq<TaskNode>, freed: seq<TaskNode>, previous: TaskNode?, toFree: TaskNode?)
      requires Walking(client, nodes, tasks, walked, ahead, kept, freed, previous, toFree) && ahead != []
      ensures ahead[0] in queue && ahead[0].next == At(ahead[1..], 0)
    {
      var k := |kept|;
      assert queue[k] == ahead[0] && queue[k].next == At(queue, k + 1);
      assert |ahead| > 1 ==> queue[k + 1] == ahead[1];
    }

    /** What a walk to the end of the queue leaves behind. */
    lemma {:induction false} Walked(client: int, nodes: seq<TaskNode>, tasks: seq<Task>, walked: seq<Task>,
                                    ahead: seq<TaskNode>, kept: seq<TaskNode>, freed: seq<TaskNode>,
                                    previous: TaskNode?, toFree: TaskNode?)
      requires Walking(client, nodes, tasks, walked, ahead, kept, freed, previous, toFree) && ahead == []
      ensures Values(queue) == Others(tasks, client) && Values(freed) == Reverse(Owned(tasks, client))
    {
      assert queue == kept && walked + Values(ahead) == walked;
    }

    /** Walks the queue once, moving the client's tasks to a list of their own, most recent first. */
    method UnlinkOwned(client: int) returns (removed: nat, toFree: TaskNode?, ghost freed: seq<TaskNode>)
      requires Linked() && currentTask !in queue
      modifies this`waitingHead, this`waitingTail, this`queue, this`activeTaskCount, queue`next
      ensures Linked()
      ensures Values(queue) == Others(old(Values(queue)), client)
      ensures Values(freed) == Reverse(Owned(old(Values(queue)), client))
      ensures Chained(freed) && toFree == At(freed, 0)
      ensures forall n :: n in freed ==> n !in queue
      ensures forall k :: 0 <= k < |freed| ==> freed[k] in old(queue)
      ensures currentTask !in queue && currentTask !in freed
      ensures removed == |freed| && activeTaskCount == old(activeTaskCount) - removed
    {
      ghost var nodes, tasks := queue, Values(queue);
      ghost var walked: seq<Task> := [];
      ghost var ahead, kept: seq<TaskNode> := queue, [];
      var cursor, previous: TaskNode? := waitingHead, null;
      removed, toFree, freed := 0, null, [];
      while cursor != null
        invariant Walking(client, nodes, tasks, walked, ahead, kept, freed, previous, toFree)
        invariant cursor == At(ahead, 0)
        invariant removed == |freed| && activeTaskCount == old(activeTaskCount) - removed
        decreases |ahead|
      {
        var node := cursor;
        WalkOn(client, nodes, tasks, walked, ahead, kept, freed, previous, toFree);
        cursor := cursor.next;
        if node.task.client == client {
          WalkOut(node, previous, toFree, client, nodes, tasks, walked, ahead, kept, freed);
          toFree, freed := node, [node] + freed;
          removed := removed + 1;
        } else {
          WalkPast(node, previous, toFree, client, nodes, tasks, walked, ahead, kept, freed);
          previous, kept := node, kept + [node];
        }
        walked, ahead := walked + [node.task], ahead[1..];
      }
      Walked(client, nodes, tasks, walked, ahead, kept, freed, previous, toFree);
    }

    /** The locked half of a cancellation: empties the queue of the client's tasks and flags the running one. */
    method DetachClientTasks(client: int)
      returns (cancelled: nat, toFree: TaskNode?, ghost freed: seq<TaskNode>)
      requires Placed()
      modifies this`waitingHead, this`waitingTail, this`queue, this`activeTaskCount, queue`next, currentTask
      ensures Placed() && currentTask == old(currentTask)
      ensures (Abs(), Values(freed)) == Detach(old(Abs()), client)
      ensures cancelled == CancelledCount(old(Abs()), client)
      ensures Chained(freed) && toFree == At(freed, 0)
      ensures forall n :: n in freed ==> n !in queue
      ensures forall k :: 0 <= k < |freed| ==> freed[k] in old(queue)
      ensures currentTask !in freed
    {
      cancelled, toFree, freed := UnlinkOwned(client);
      ghost var queued, removed := Values(queue), Values(freed);
      if currentTask != null && currentTask.task.client == client {
        currentTask.task := currentTask.task.(cancel := true, preempt := true);
        cancelled := cancelled + 1;
        assert Values(queue) == queued && Values(freed) == removed;
      }
    }

    /** Walks the list of removed records and hands each to the cleanup callback, once. */
    method CleanUpDetached(first: TaskNode?, ghost freed: seq<TaskNode>)
      requires Chained(freed) && first == At(freed, 0)
      requires Linked() && forall n :: n in freed ==> n !in queue
      modifies this`cleaned, freed`task
      ensures Linked() && Values(queue) == old(Values(queue))
      ensures cleaned == old(cleaned) + MarkCancelled(old(Values(freed)))
    {
      ghost var n: nat := 0;
      var toFree := first;
      while toFree != null
        invariant n <= |freed| && toFree == At(freed, n)
        invariant Chained(freed) && Linked() && Values(queue) == old(Values(queue))
        invariant forall k :: n <= k < |freed| ==> freed[k].task == old(freed[k].task)
        invariant cleaned == old(cleaned) + MarkCancelled(old(Values(freed)))[..n]
        decreases |freed| - n
      {
        OccursOnce(freed, n);
        assert freed[n].next == At(freed, n + 1);
        var next := toFree.next;
        assert toFree in freed;
        assert forall k :: 0 <= k < |queue| ==> queue[k] != toFree;
        toFree.task := toFree.task.(state := Cancelled);
        cleaned := cleaned + [toFree.task];
        toFree := next;
        n := n + 1;
      }
      assert MarkCancelled(old(Values(freed)))[..n] == MarkCancelled(old(Values(freed)));
    }

    /** Cancels everything a client has submitted; returns how many tasks that was. */
    method CancelClientTasks(client: int) returns (cancelled: nat)
      requires Valid()
      modifies this, queue, currentTask
      ensures Valid() && Abs() == Detach(old(Abs()), client).0
      ensures cancelled == CancelledCount(old(Abs()), client)
      ensures cleaned == old(cleaned) + MarkCancelled(Detach(old(Abs()), client).1)
      ensures Values(queue) == Others(old(Values(queue)), client)
      ensures var owned := Reverse(Owned(old(Values(queue)), client));
              && |cleaned| == |old(cleaned)| + |owned| && old(cleaned) <= cleaned
              && forall k :: 0 <= k < |owned| ==> cleaned[|old(cleaned)| + k] == owned[k].(state := Cancelled)
      ensures var hit := old(currentTask) != null && old(currentTask.task.client) == client;
              && cancelled == |Owned(old(Values(queue)), client)| + (if hit then 1 else 0)
              && (hit ==> currentTask == old(currentTask)
                          && currentTask.task == old(currentTask.task).(cancel := true, preempt := true))
    {
      DetachNumbered(Abs(), client);
      var toFree;
      ghost var freed;
      cancelled, toFree, freed := DetachClientTasks(client);
      CleanUpDetached(toFree, freed);
    }

    /** Whether the executor should yield the task it runs. */
    predicate TaskShouldPreempt(task: TaskNode)
      reads this, task
    {
      currentTask == task && task.task.preempt
    }

    /** Whether the executor should give up the task it runs. */
    predicate TaskShouldCancel(task: TaskNode)
      reads this, task
    {
      currentTask == task && task.task.cancel
    }

    /**
     What a poll of the running record finds after a submission: the request it
     had already, or a new one exactly when the arrival is a shell or a shorter
     program and the running task is a program; never a cancellation.
     */
    lemma PollsAfterSubmission(node: TaskNode, before: Core, submitted: Task)
      requires currentTask == node && Abs() == Submit(before, submitted)
      ensures before.current.Some?
      ensures var running := before.current.value;
              var burst := if submitted.predicted > 0 then submitted.remaining else before.config.defaultBurst;
              && (TaskShouldPreempt(node) <==>
                    running.preempt
                    || (running.kind.Program? && (submitted.kind.Shell? || burst < running.remaining)))
              && (TaskShouldCancel(node) <==> running.cancel)
    {
    }

    /** After a client has cancelled: both polls say so exactly when the running task is the client's. */
    lemma PollsAfterCancellation(node: TaskNode, before: Core, client: int)
      requires currentTask == node && Abs() == Detach(before, client).0
      ensures before.current.Some?
      ensures var running := before.current.value;
              && (TaskShouldPreempt(node) <==> running.preempt || running.client == client)
              && (TaskShouldCancel(node) <==> running.cancel || running.client == client)
    {
    }

    /** Right after a dispatch no preempt request is pending, and nobody but the dispatched record is told to stop. */
    lemma PollsAfterDispatch(node: TaskNode, before: Core)
      requires Abs() == Pass(before).0 && Pass(before).1.Dispatch?
      ensures !TaskShouldPreempt(node)
      ensures TaskShouldCancel(node) ==>
                node == currentTask && before.waiting[Choice(before.waiting, before.lastSelected).value].cancel
    {
    }

    /** Walks the list to count it. */
    method WaitingCount() returns (count: nat)
      requires Linked()
      ensures count == |Values(queue)|
    {
      count := 0;
      var cursor := waitingHead;
      while cursor != null
        invariant count <= |queue| && cursor == At(queue, count)
        decreases |queue| - count
      {
        assert queue[count].next == At(queue, count + 1);
        cursor := cursor.next;
        count := count + 1;
      }
    }
  }
}
