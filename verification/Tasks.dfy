/** A value that may be missing: the source's NULL results; and the one law of sequences every module leans on. */
module Wrappers {
  datatype Option<+T> = None | Some(value: T)

  lemma Assoc<T>(a: seq<T>, b: seq<T>, c: seq<T>)
    ensures (a + b) + c == a + (b + c)
  {
  }
}

/** The scheduler's task record, seen as a value, and the sequence vocabulary the queue proofs share. */
module Tasks {
  datatype Kind = Shell | Program

  datatype TaskState = Waiting | Running | Finished | Cancelled

  /** What the execution layer reports after one scheduled round. */
  datatype RunResult = Complete | Requeue | Abandoned | Failed

  datatype Task = Task(
    id: int,
    client: int,
    kind: Kind,
    state: TaskState,
    predicted: int,
    remaining: int,
    rounds: nat,
    arrival: int,
    preempt: bool,
    cancel: bool)

  /** A record as it is handed to the scheduler: the ids are assigned on submission. */
  function NewTask(kind: Kind, client: int, predicted: int): Task {
    Task(0, client, kind, Waiting, predicted, predicted, 0, 0, false, false)
  }

  /** Shorter remaining burst first, earlier arrival on a tie. */
  predicate Before(a: Task, b: Task) {
    a.remaining < b.remaining || (a.remaining == b.remaining && a.arrival < b.arrival)
  }

  function Without<T>(s: seq<T>, i: nat): seq<T>
    requires i < |s|
  {
    s[..i] + s[i + 1..]
  }

  function Reverse<T>(s: seq<T>): (r: seq<T>)
    ensures |r| == |s|
  {
    if s == [] then [] else Reverse(s[1..]) + [s[0]]
  }

  /** The tasks of every client but one, in queue order. */
  function Others(s: seq<Task>, client: int): seq<Task> {
    if s == [] then []
    else if s[0].client == client then Others(s[1..], client)
    else [s[0]] + Others(s[1..], client)
  }

  /** The tasks of one client, in queue order. */
  function Owned(s: seq<Task>, client: int): seq<Task> {
    if s == [] then []
    else if s[0].client == client then [s[0]] + Owned(s[1..], client)
    else Owned(s[1..], client)
  }

  function Count(id: int, s: seq<Task>): nat {
    if s == [] then 0 else (if s[0].id == id then 1 else 0) + Count(id, s[1..])
  }

  ghost predicate DistinctIds(s: seq<Task>) {
    forall i, j :: 0 <= i < j < |s| ==> s[i].id != s[j].id
  }

  ghost predicate DistinctArrivals(s: seq<Task>) {
    forall i, j :: 0 <= i < j < |s| ==> s[i].arrival != s[j].arrival
  }

  lemma {:induction false} CountConcat(id: int, a: seq<Task>, b: seq<Task>)
    ensures Count(id, a + b) == Count(id, a) + Count(id, b)
  {
    if a == [] {
      assert a + b == b;
    } else {
      assert (a + b)[1..] == a[1..] + b;
      CountConcat(id, a[1..], b);
    }
  }

  lemma {:induction false} CountWithout(id: int, s: seq<Task>, i: nat)
    requires i < |s|
    ensures Count(id, s) == Count(id, Without(s, i)) + Count(id, [s[i]])
  {
    assert s == s[..i] + ([s[i]] + s[i + 1..]);
    CountConcat(id, s[..i], [s[i]] + s[i + 1..]);
    CountConcat(id, [s[i]], s[i + 1..]);
    CountConcat(id, s[..i], s[i + 1..]);
  }

  /** A task in the sequence is counted under its id. */
  lemma {:induction false} CountMember(s: seq<Task>, i: nat)
    requires i < |s|
    ensures Count(s[i].id, s) >= 1
  {
    CountWithout(s[i].id, s, i);
  }

  /** When no id is counted twice, positions with the same id are the same. */
  lemma {:induction false} CountedOnceIsDistinct(s: seq<Task>)
    requires forall i :: 0 <= i < |s| ==> Count(s[i].id, s) <= 1
    ensures DistinctIds(s)
  {
    forall i, j | 0 <= i < j < |s| ensures s[i].id != s[j].id {
      CountWithout(s[i].id, s, i);
      if s[i].id == s[j].id {
        CountMember(Without(s, i), j - 1);
      }
    }
  }

  /** Taking one record out leaves exactly the records with other ids. */
  lemma WithoutMembers(s: seq<Task>, i: nat)
    requires DistinctIds(s) && i < |s|
    ensures forall t :: t in Without(s, i) <==> t in s && t.id != s[i].id
  {
    forall t | t in Without(s, i) ensures t in s && t.id != s[i].id {
      var j :| 0 <= j < |s| && j != i && s[j] == t;
    }
    forall t | t in s && t.id != s[i].id ensures t in Without(s, i) {
      var j :| 0 <= j < |s| && s[j] == t;
      assert Without(s, i)[if j < i then j else j - 1] == t;
    }
  }

  lemma {:induction false} CountReverse(id: int, s: seq<Task>)
    ensures Count(id, Reverse(s)) == Count(id, s)
  {
    if s != [] {
      CountReverse(id, s[1..]);
      CountConcat(id, Reverse(s[1..]), [s[0]]);
    }
  }

  /** A client's tasks and everybody else's partition the queue. */
  lemma {:induction false} CountFilters(id: int, s: seq<Task>, client: int)
    ensures Count(id, s) == Count(id, Others(s, client)) + Count(id, Owned(s, client))
  {
    if s != [] {
      CountFilters(id, s[1..], client);
      CountConcat(id, [s[0]], Others(s[1..], client));
      CountConcat(id, [s[0]], Owned(s[1..], client));
    }
  }

  /** The filters, seen from the end the in-place removal grows them at. */
  lemma {:induction false} FiltersSnoc(s: seq<Task>, t: Task, client: int)
    ensures t.client == client ==>
              Others(s + [t], client) == Others(s, client) && Owned(s + [t], client) == Owned(s, client) + [t]
    ensures t.client != client ==>
              Others(s + [t], client) == Others(s, client) + [t] && Owned(s + [t], client) == Owned(s, client)
  {
    if s == [] {
      assert s + [t] == [t];
    } else {
      assert (s + [t])[0] == s[0] && (s + [t])[1..] == s[1..] + [t];
      FiltersSnoc(s[1..], t, client);
    }
  }

  lemma {:induction false} FilterMembers(s: seq<Task>, client: int)
    ensures forall t :: t in Others(s, client) <==> t in s && t.client != client
    ensures forall t :: t in Owned(s, client) <==> t in s && t.client == client
  {
    if s != [] {
      FilterMembers(s[1..], client);
      assert forall t :: t in s <==> t == s[0] || t in s[1..];
    }
  }

  lemma {:induction false} FilterLengths(s: seq<Task>, client: int)
    ensures |Others(s, client)| + |Owned(s, client)| == |s|
  {
    if s != [] {
      FilterLengths(s[1..], client);
    }
  }

  lemma {:induction false} ReverseMembers(s: seq<Task>)
    ensures forall t :: t in Reverse(s) <==> t in s
  {
    if s != [] {
      ReverseMembers(s[1..]);
      assert forall t :: t in s <==> t == s[0] || t in s[1..];
    }
  }

  lemma {:induction false} ReverseSnoc<T>(s: seq<T>, t: T)
    ensures Reverse(s + [t]) == [t] + Reverse(s)
  {
    if s == [] {
      assert s + [t] == [t];
    } else {
      assert (s + [t])[1..] == s[1..] + [t];
      ReverseSnoc(s[1..], t);
    }
  }
}
