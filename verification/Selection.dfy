/** Which waiting task the simulated CPU runs next, stated without the scan that finds it. */
module Selection {
  import opened Wrappers
  import opened Tasks

  /** The position of the first shell command in the queue, or its length when there is none. */
  function FirstShell(w: seq<Task>): (i: nat)
    ensures i <= |w|
    ensures forall j :: 0 <= j < i ==> w[j].kind.Program?
    ensures i < |w| ==> w[i].kind.Shell?
  {
    if w == [] || w[0].kind.Shell? then 0 else 1 + FirstShell(w[1..])
  }

  lemma {:induction false} FirstShellIs(w: seq<Task>, n: nat)
    requires n <= |w| && forall j :: 0 <= j < n ==> w[j].kind.Program?
    requires n < |w| ==> w[n].kind.Shell?
    ensures FirstShell(w) == n
  {
    if n > 0 {
      FirstShellIs(w[1..], n - 1);
    }
  }

  /** A program that the anti-repeat rule does not bar. */
  predicate Eligible(t: Task, barred: set<int>) {
    t.kind.Program? && t.id !in barred
  }

  /** The scan for the shortest eligible program in `w[..n]`. */
  function Shortest(w: seq<Task>, n: nat, barred: set<int>): (r: Option<nat>)
    requires n <= |w|
    ensures r.Some? ==> r.value < n && Eligible(w[r.value], barred)
  {
    if n == 0 then None
    else
      var r := Shortest(w, n - 1, barred);
      if Eligible(w[n - 1], barred) && (r.None? || Before(w[n - 1], w[r.value])) then Some(n - 1) else r
  }

  /** What the scan finds: nothing when nothing is eligible, else the earliest minimal eligible program. */
  lemma {:induction false} ShortestIsMinimal(w: seq<Task>, n: nat, barred: set<int>)
    requires n <= |w|
    ensures var r := Shortest(w, n, barred);
            && (r.None? <==> forall j :: 0 <= j < n ==> !Eligible(w[j], barred))
            && (r.Some? ==> forall j :: 0 <= j < n && Eligible(w[j], barred) ==> !Before(w[j], w[r.value]))
            && (r.Some? ==> forall j :: 0 <= j < r.value && Eligible(w[j], barred) ==> Before(w[r.value], w[j]))
  {
    if n > 0 {
      ShortestIsMinimal(w, n - 1, barred);
    }
  }

  /** The shortest program other than the one selected last; otherwise that one, when it is the only program. */
  function ProgramChoice(w: seq<Task>, last: int): (r: Option<nat>)
    ensures r.None? <==> forall j :: 0 <= j < |w| ==> w[j].kind.Shell?
    ensures r.Some? ==> r.value < |w| && w[r.value].kind.Program?
  {
    var r := Shortest(w, |w|, {last});
    ShortestIsMinimal(w, |w|, {last});
    ShortestIsMinimal(w, |w|, {});
    assert forall j :: 0 <= j < |w| ==> (Eligible(w[j], {}) <==> w[j].kind.Program?);
    if r.Some? then r else Shortest(w, |w|, {})
  }

  /** The policy: the first shell wins, otherwise a program runs. */
  function Choice(w: seq<Task>, last: int): (r: Option<nat>)
    ensures r.None? <==> w == []
    ensures r.Some? ==> r.value < |w|
  {
    var s := FirstShell(w);
    if s < |w| then Some(s) else ProgramChoice(w, last)
  }

  /** A program is repeated only when nothing else waits. */
  lemma RepeatOnlyWhenAlone(w: seq<Task>, last: int)
    requires w != [] && DistinctIds(w)
    ensures var t := w[Choice(w, last).value];
            t.kind.Program? && t.id == last ==> w == [t]
  {
    var i := Choice(w, last).value;
    ShortestIsMinimal(w, |w|, {last});
    if w[i].kind.Program? && w[i].id == last {
      assert forall j :: 0 <= j < |w| ==> w[j].kind.Program? && !Eligible(w[j], {last});
      assert forall j :: 0 <= j < |w| ==> w[j].id == last;
    }
  }

  /**
   The program chosen depends on which tasks wait and not on how the list is
   ordered: any other queue of the same tasks gives the same task.
   */
  lemma ChoiceIgnoresListOrder(v: seq<Task>, w: seq<Task>, last: int)
    requires v != [] && DistinctArrivals(v)
    requires forall t :: t in v <==> t in w
    requires forall t :: t in v ==> t.kind.Program?
    ensures w != [] && v[Choice(v, last).value] == w[Choice(w, last).value]
  {
    assert v[0] in w;
    var a, b := v[Choice(v, last).value], w[Choice(w, last).value];
    assert a in v && b in w && b in v && a in w;
    var i :| 0 <= i < |v| && v[i] == b;
    var j :| 0 <= j < |w| && w[j] == a;
    forall barred ensures Shortest(v, |v|, barred).None? <==> Shortest(w, |w|, barred).None? {
      ShortestIsMinimal(v, |v|, barred);
      ShortestIsMinimal(w, |w|, barred);
      if k :| 0 <= k < |v| && Eligible(v[k], barred) {
        assert v[k] in w;
      }
      if k :| 0 <= k < |w| && Eligible(w[k], barred) {
        assert w[k] in v;
      }
    }
    ShortestIsMinimal(v, |v|, {last});
    ShortestIsMinimal(w, |w|, {last});
    ShortestIsMinimal(v, |v|, {});
    ShortestIsMinimal(w, |w|, {});
    assert !Before(a, b) && !Before(b, a);
  }

  /** `best` and `alt` are the first and second minimum of the programs in `w[..n]`. */
  ghost predicate TwoMinima(w: seq<Task>, n: nat, best: Option<nat>, alt: Option<nat>)
    requires n <= |w|
  {
    && best == Shortest(w, n, {})
    && alt == if best.None? then None else Shortest(w, n, {w[best.value].id})
  }

  /**
   The scan's own rule. `best` and `alt` are the first and second minimum of
   the whole queue; the best gives way to the alternative exactly when it is
   the task selected last and an alternative exists.
   */
  lemma TwoMinimaRule(w: seq<Task>, last: int, best: Option<nat>, alt: Option<nat>)
    requires DistinctIds(w) && TwoMinima(w, |w|, best, alt)
    ensures ProgramChoice(w, last) == if best.Some? && w[best.value].id == last && alt.Some? then alt else best
  {
    ShortestIsMinimal(w, |w|, {last});
    ShortestIsMinimal(w, |w|, {});
    if best.Some? && w[best.value].id != last {
      var r := Shortest(w, |w|, {last});
      assert Eligible(w[best.value], {last});
      assert r.Some?;
      assert Eligible(w[r.value], {});
      assert !Before(w[r.value], w[best.value]) && !Before(w[best.value], w[r.value]);
    }
  }

  /** Only the ids that occur among the scanned tasks matter to a bar. */
  lemma {:induction false} ShortestSameBar(w: seq<Task>, n: nat, a: set<int>, b: set<int>)
    requires n <= |w|
    requires forall j :: 0 <= j < n ==> (w[j].id in a <==> w[j].id in b)
    ensures Shortest(w, n, a) == Shortest(w, n, b)
  {
    if n > 0 {
      ShortestSameBar(w, n - 1, a, b);
    }
  }

  /** How one step of the scan updates the pair. */
  function ScanStep(w: seq<Task>, n: nat, best: Option<nat>, alt: Option<nat>): (r: (Option<nat>, Option<nat>))
    requires n < |w| && (best.Some? ==> best.value < |w|) && (alt.Some? ==> alt.value < |w|)
  {
    if w[n].kind.Shell? then (best, alt)
    else if best.None? || Before(w[n], w[best.value]) then (Some(n), best)
    else if alt.None? || Before(w[n], w[alt.value]) then (best, Some(n))
    else (best, alt)
  }

  /** The scan step keeps the pair equal to the two minima of the scanned part. */
  lemma ScanStepKeepsTwoMinima(w: seq<Task>, n: nat, best: Option<nat>, alt: Option<nat>)
    requires DistinctIds(w) && n < |w| && TwoMinima(w, n, best, alt)
    ensures var r := ScanStep(w, n, best, alt); TwoMinima(w, n + 1, r.0, r.1)
  {
    ShortestSameBar(w, n, {}, {w[n].id});
    ShortestIsMinimal(w, n, {});
  }
}
