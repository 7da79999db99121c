/** The parallel map (internal/compose/parallel.go) as a state machine over the
    steps of its workers: one atomic add, one locked section, one call, one store. */
module ParallelMap {
  import opened Wrappers

  datatype Outcome<T, E> = Ok(value: T) | Err(error: E)

  // Where a worker stands in its loop.
  datatype Worker<T, E> =
    | Asking
    | Holding(index: nat)
    | Running(index: nat)
    | Storing(index: nat, value: T)
    | Failing(index: nat, error: E)
    | Exhausted
    | Skipped(index: nat)
    | Failed(index: nat)

  // `calls` records the outcome of every call that returned, `begun` the indices
  // whose call was begun.
  datatype State<T, E> = State(n: nat, next: nat, workers: seq<Worker<T, E>>, out: map<nat, T>,
                               first: Option<(nat, E)>, begun: seq<nat>, calls: map<nat, Outcome<T, E>>)

  ghost predicate Start<T, E>(s: State<T, E>)
  {
    && s.next == 0 && s.out == map[] && s.first == None && s.begun == [] && s.calls == map[]
    && (s.n > 0 ==> s.workers != [])
    && forall w | 0 <= w < |s.workers| :: s.workers[w] == Asking
  }

  /** One step of one worker. */

  function Take<T, E>(s: State<T, E>, w: nat): State<T, E>
    requires w < |s.workers| && s.workers[w].Asking?
  {
    s.(next := s.next + 1, workers := s.workers[w := if s.next >= s.n then Exhausted else Holding(s.next)])
  }

  function Check<T, E>(s: State<T, E>, w: nat): State<T, E>
    requires w < |s.workers| && s.workers[w].Holding?
  {
    var i := s.workers[w].index;
    if s.first.Some? then s.(workers := s.workers[w := Skipped(i)])
    else s.(workers := s.workers[w := Running(i)], begun := s.begun + [i])
  }

  function Return<T, E>(s: State<T, E>, w: nat, r: Outcome<T, E>): State<T, E>
    requires w < |s.workers| && s.workers[w].Running?
  {
    var i := s.workers[w].index;
    s.(calls := s.calls[i := r],
       workers := s.workers[w := match r case Ok(v) => Storing(i, v) case Err(e) => Failing(i, e)])
  }

  function Store<T, E>(s: State<T, E>, w: nat): State<T, E>
    requires w < |s.workers| && s.workers[w].Storing?
  {
    s.(out := s.out[s.workers[w].index := s.workers[w].value], workers := s.workers[w := Asking])
  }

  function Record<T, E>(s: State<T, E>, w: nat): State<T, E>
    requires w < |s.workers| && s.workers[w].Failing?
  {
    var i := s.workers[w].index;
    s.(first := if s.first.None? || i < s.first.value.0 then Some((i, s.workers[w].error)) else s.first,
       workers := s.workers[w := Failed(i)])
  }

  ghost predicate Moves<T, E(!new)>(s: State<T, E>, t: State<T, E>, w: nat)
  {
    && w < |s.workers|
    && match s.workers[w]
       case Asking => t == Take(s, w)
       case Holding(_) => t == Check(s, w)
       case Running(_) => t.calls.Keys == s.calls.Keys + {s.workers[w].index}
                          && t == Return(s, w, t.calls[s.workers[w].index])
       case Storing(_, _) => t == Store(s, w)
       case Failing(_, _) => t == Record(s, w)
       case _ => false
  }

  ghost predicate Steps<T, E(!new)>(s: State<T, E>, t: State<T, E>) { exists w: nat :: Moves(s, t, w) }

  ghost predicate Run<T, E(!new)>(run: seq<State<T, E>>)
  {
    && run != [] && Start(run[0])
    && forall k | 0 <= k < |run| - 1 :: Steps(run[k], run[k + 1])
  }

  // A worker leaves its loop when the indices run out, when it sees a failure before
  // its call, or after its own.
  predicate Gone<T, E>(w: Worker<T, E>) { w.Exhausted? || w.Skipped? || w.Failed? }

  predicate Finished<T, E>(s: State<T, E>) { forall w | 0 <= w < |s.workers| :: Gone(s.workers[w]) }

  /** The invariant. */

  // It has, or had last, an index in hand.
  predicate Marked<T, E>(w: Worker<T, E>) { !w.Asking? && !w.Exhausted? }

  // The worker's index, and what has happened to it so far.
  ghost predicate Sane<T, E>(s: State<T, E>, w: Worker<T, E>)
  {
    match w
    case Asking => true
    case Holding(i) => i < s.next && i < s.n && i !in s.begun && i !in s.calls
    case Running(i) => i < s.next && i < s.n && i in s.begun && i !in s.calls
    case Storing(i, v) => i < s.next && i < s.n && i in s.begun && i in s.calls && s.calls[i] == Ok(v) && i !in s.out
    case Failing(i, e) => i < s.next && i < s.n && i in s.begun && i in s.calls && s.calls[i] == Err(e)
    case Exhausted => s.next >= s.n
    case Skipped(i) => i < s.next && i < s.n && i !in s.begun && i !in s.calls && s.first.Some?
    case Failed(i) => i < s.next && i < s.n && i in s.begun && i in s.calls && s.calls[i].Err? && s.first.Some?
  }

  // Someone has the index in hand, or gave it up, or failed with it.
  ghost predicate InHand<T, E>(s: State<T, E>, i: nat)
  {
    exists w :: 0 <= w < |s.workers| && Marked(s.workers[w]) && s.workers[w].index == i
  }

  ghost predicate OnItsWay<T, E>(s: State<T, E>, i: nat)
  {
    exists w :: 0 <= w < |s.workers| && s.workers[w].Failing? && s.workers[w].index == i
  }

  ghost predicate Inv<T, E>(s: State<T, E>)
  {
    && (forall w | 0 <= w < |s.workers| :: Sane(s, s.workers[w]))
    && (forall v, w | 0 <= v < w < |s.workers| && Marked(s.workers[v]) && Marked(s.workers[w]) ::
          s.workers[v].index != s.workers[w].index)
    && (forall i, j | 0 <= i < j < |s.begun| :: s.begun[i] != s.begun[j])
    && (forall i | i in s.begun :: i < s.next && i < s.n)
    && (forall i | i in s.calls :: i in s.begun)
    && (forall i | i in s.out :: i in s.calls && s.calls[i] == Ok(s.out[i]))
    && (s.first.Some? ==> s.first.value.0 in s.calls && s.calls[s.first.value.0] == Err(s.first.value.1))
    && (forall i | i in s.calls && s.calls[i].Err? :: OnItsWay(s, i) || (s.first.Some? && s.first.value.0 <= i))
    && (forall i: nat | i < s.next && i < s.n :: InHand(s, i) || i in s.out)
    && (s.n > 0 ==> s.workers != [])
  }

  // Only one worker changes, so the others keep what they have in hand.
  lemma HandKept<T, E>(s: State<T, E>, t: State<T, E>, w: nat, i: nat)
    requires w < |s.workers| && |t.workers| == |s.workers| && t.workers == s.workers[w := t.workers[w]]
    requires InHand(s, i)
    requires Marked(s.workers[w]) && s.workers[w].index == i ==> Marked(t.workers[w]) && t.workers[w].index == i
    ensures InHand(t, i)
  {
    var v :| 0 <= v < |s.workers| && Marked(s.workers[v]) && s.workers[v].index == i;
    assert Marked(t.workers[v]) && t.workers[v].index == i;
  }

  lemma WayKept<T, E>(s: State<T, E>, t: State<T, E>, w: nat, i: nat)
    requires w < |s.workers| && |t.workers| == |s.workers| && t.workers == s.workers[w := t.workers[w]]
    requires OnItsWay(s, i) && (s.workers[w].Failing? ==> s.workers[w].index != i)
    ensures OnItsWay(t, i)
  {
    var v :| 0 <= v < |s.workers| && s.workers[v].Failing? && s.workers[v].index == i;
    assert t.workers[v].Failing? && t.workers[v].index == i;
  }

  lemma HasIt<T, E>(t: State<T, E>, w: nat)
    requires w < |t.workers| && Marked(t.workers[w])
    ensures InHand(t, t.workers[w].index)
  {
  }

  lemma FailsWith<T, E>(t: State<T, E>, w: nat)
    requires w < |t.workers| && t.workers[w].Failing?
    ensures OnItsWay(t, t.workers[w].index)
  {
  }

  lemma TakeKeeps<T, E>(s: State<T, E>, w: nat)
    requires Inv(s) && w < |s.workers| && s.workers[w].Asking?
    ensures Inv(Take(s, w))
  {
    hide InHand, OnItsWay;
    var t := Take(s, w);
    forall i: nat | i < t.next && i < t.n
      ensures InHand(t, i) || i in t.out
    {
      if i == s.next { HasIt(t, w); } else if InHand(s, i) { HandKept(s, t, w, i); }
    }
    forall i | i in t.calls && t.calls[i].Err?
      ensures OnItsWay(t, i) || (t.first.Some? && t.first.value.0 <= i)
    {
      if OnItsWay(s, i) { WayKept(s, t, w, i); }
    }
  }

  lemma CheckKeeps<T, E>(s: State<T, E>, w: nat)
    requires Inv(s) && w < |s.workers| && s.workers[w].Holding?
    ensures Inv(Check(s, w))
  {
    hide InHand, OnItsWay;
    var t := Check(s, w);
    var h := s.workers[w].index;
    assert Sane(s, s.workers[w]) && Marked(s.workers[w]);
    forall i: nat | i < t.next && i < t.n
      ensures InHand(t, i) || i in t.out
    {
      if InHand(s, i) { HandKept(s, t, w, i); }
    }
    forall i | i in t.calls && t.calls[i].Err?
      ensures OnItsWay(t, i) || (t.first.Some? && t.first.value.0 <= i)
    {
      if OnItsWay(s, i) { WayKept(s, t, w, i); }
    }
    forall v | 0 <= v < |t.workers|
      ensures Sane(t, t.workers[v])
    {
      assert Sane(s, s.workers[v]);
      assert v != w && Marked(s.workers[v]) ==> s.workers[v].index != h;
    }
  }

  lemma ReturnKeeps<T, E>(s: State<T, E>, w: nat, r: Outcome<T, E>)
    requires Inv(s) && w < |s.workers| && s.workers[w].Running?
    ensures Inv(Return(s, w, r))
  {
    hide InHand, OnItsWay;
    var t := Return(s, w, r);
    var h := s.workers[w].index;
    assert Sane(s, s.workers[w]) && Marked(s.workers[w]) && Marked(t.workers[w]) && t.workers[w].index == h;
    forall i: nat | i < t.next && i < t.n
      ensures InHand(t, i) || i in t.out
    {
      if InHand(s, i) { HandKept(s, t, w, i); }
    }
    forall i | i in t.calls && t.calls[i].Err?
      ensures OnItsWay(t, i) || (t.first.Some? && t.first.value.0 <= i)
    {
      if i == h { FailsWith(t, w); } else if OnItsWay(s, i) { WayKept(s, t, w, i); }
    }
    forall v | 0 <= v < |t.workers|
      ensures Sane(t, t.workers[v])
    {
      assert Sane(s, s.workers[v]);
      assert v != w && Marked(s.workers[v]) ==> s.workers[v].index != h;
    }
  }

  lemma StoreKeeps<T, E>(s: State<T, E>, w: nat)
    requires Inv(s) && w < |s.workers| && s.workers[w].Storing?
    ensures Inv(Store(s, w))
  {
    hide InHand, OnItsWay;
    var t := Store(s, w);
    var h := s.workers[w].index;
    assert Sane(s, s.workers[w]) && Marked(s.workers[w]);
    forall i: nat | i < t.next && i < t.n
      ensures InHand(t, i) || i in t.out
    {
      if i != h && InHand(s, i) { HandKept(s, t, w, i); }
    }
    forall i | i in t.calls && t.calls[i].Err?
      ensures OnItsWay(t, i) || (t.first.Some? && t.first.value.0 <= i)
    {
      if OnItsWay(s, i) { WayKept(s, t, w, i); }
    }
    forall v | 0 <= v < |t.workers|
      ensures Sane(t, t.workers[v])
    {
      assert Sane(s, s.workers[v]);
      assert v != w && Marked(s.workers[v]) ==> s.workers[v].index != h;
    }
  }

  lemma RecordKeeps<T, E>(s: State<T, E>, w: nat)
    requires Inv(s) && w < |s.workers| && s.workers[w].Failing?
    ensures Inv(Record(s, w))
  {
    hide InHand, OnItsWay;
    var t := Record(s, w);
    var h := s.workers[w].index;
    assert Sane(s, s.workers[w]) && Marked(s.workers[w]) && Marked(t.workers[w]) && t.workers[w].index == h;
    forall i: nat | i < t.next && i < t.n
      ensures InHand(t, i) || i in t.out
    {
      if InHand(s, i) { HandKept(s, t, w, i); }
    }
    forall i | i in t.calls && t.calls[i].Err?
      ensures OnItsWay(t, i) || (t.first.Some? && t.first.value.0 <= i)
    {
      if i != h && OnItsWay(s, i) { WayKept(s, t, w, i); }
    }
    forall v | 0 <= v < |t.workers|
      ensures Sane(t, t.workers[v])
    {
      assert Sane(s, s.workers[v]);
    }
  }

  lemma MoveKeeps<T, E(!new)>(s: State<T, E>, t: State<T, E>, w: nat)
    requires Inv(s) && Moves(s, t, w)
    ensures Inv(t)
  {
    hide Inv;
    match s.workers[w]
    case Asking => TakeKeeps(s, w);
    case Holding(_) => CheckKeeps(s, w);
    case Running(i) => ReturnKeeps(s, w, t.calls[i]);
    case Storing(_, _) => StoreKeeps(s, w);
    case Failing(_, _) => RecordKeeps(s, w);
  }

  lemma {:induction false} RunKeeps<T, E(!new)>(run: seq<State<T, E>>, k: nat)
    requires Run(run) && k < |run|
    ensures Inv(run[k]) && run[k].n == run[0].n
  {
    hide Inv;
    if k == 0 {
      StartInv(run[0]);
    } else {
      RunKeeps(run, k - 1);
      var w: nat :| Moves(run[k - 1], run[k], w);
      MoveKeeps(run[k - 1], run[k], w);
    }
  }

  lemma StartInv<T, E>(s: State<T, E>)
    requires Start(s)
    ensures Inv(s)
  {
  }

  /** The main results. */

  // No index is ever begun twice, under any interleaving.
  lemma NoIndexTwice<T, E(!new)>(run: seq<State<T, E>>, k: nat, i: nat, j: nat)
    requires Run(run) && k < |run| && i < j < |run[k].begun|
    ensures run[k].begun[i] != run[k].begun[j] && run[k].begun[i] < run[0].n
  {
    hide InHand, OnItsWay, Sane;
    RunKeeps(run, k);
    assert run[k].begun[i] in run[k].begun;
  }

  // A run that finishes without an error has called every index, and every slot
  // holds its own call's value.
  lemma SuccessIsComplete<T, E(!new)>(run: seq<State<T, E>>, k: nat, i: nat)
    requires Run(run) && k < |run| && Finished(run[k]) && run[k].first.None? && i < run[k].n
    ensures i in run[k].calls && i in run[k].out && run[k].calls[i] == Ok(run[k].out[i])
  {
    RunKeeps(run, k);
    var s := run[k];
    assert forall w | 0 <= w < |s.workers| :: Sane(s, s.workers[w]);
    assert s.workers[0].Exhausted?;
  }

  // A run that finishes with an error reports the lowest index among the calls
  // that ran and failed, with that call's error.
  lemma FailureIsLowest<T, E(!new)>(run: seq<State<T, E>>, k: nat)
    requires Run(run) && k < |run| && Finished(run[k])
    ensures run[k].first.Some? <==> exists i :: i in run[k].calls && run[k].calls[i].Err?
    ensures run[k].first.Some? ==>
              && run[k].first.value.0 in run[k].calls && run[k].calls[run[k].first.value.0] == Err(run[k].first.value.1)
              && forall i | i in run[k].calls && run[k].calls[i].Err? :: run[k].first.value.0 <= i
  {
    hide Sane, InHand;
    RunKeeps(run, k);
    var s := run[k];
    assert forall i: nat :: !OnItsWay(s, i);
  }

  // It need not be the lowest index whose call would fail: the second worker can
  // fail at index 1 before the first has begun index 0.
  lemma LowerIndexCanBeSkipped<T, E(!new)>(e: E) returns (run: seq<State<T, E>>)
    ensures Run(run) && Finished(run[|run| - 1])
    ensures run[|run| - 1].first == Some((1, e)) && 0 !in run[|run| - 1].begun
  {
    var s0: State<T, E> := State(2, 0, [Asking, Asking], map[], None, [], map[]);
    var s1 := Take(s0, 0);
    var s2 := Take(s1, 1);
    var s3 := Check(s2, 1);
    var s4 := Return(s3, 1, Err(e));
    var s5 := Record(s4, 1);
    var s6 := Check(s5, 0);
    run := [s0, s1, s2, s3, s4, s5, s6];
    assert Moves(s0, s1, 0) && Moves(s1, s2, 1) && Moves(s2, s3, 1);
    assert s4.calls.Keys == s3.calls.Keys + {1} && s4.calls[1] == Err(e);
    assert Moves(s3, s4, 1) && Moves(s4, s5, 1) && Moves(s5, s6, 0);
    assert Steps(s0, s1) && Steps(s1, s2) && Steps(s2, s3) && Steps(s3, s4) && Steps(s4, s5) && Steps(s5, s6);
    forall k | 0 <= k < |run| - 1
      ensures Steps(run[k], run[k + 1])
    {
      assert k == 0 || k == 1 || k == 2 || k == 3 || k == 4 || k == 5;
    }
  }

  /** Every schedule ends. */

  function Weight<T, E>(w: Worker<T, E>): nat
  {
    match w
    case Exhausted => 0
    case Skipped(_) => 0
    case Failed(_) => 0
    case Asking => 1
    case Failing(_, _) => 1
    case Storing(_, _) => 2
    case Running(_) => 3
    case Holding(_) => 4
  }

  function Weights<T, E>(ws: seq<Worker<T, E>>): nat
  {
    if ws == [] then 0 else Weight(ws[0]) + Weights(ws[1..])
  }

  function Measure<T, E>(s: State<T, E>): nat
  {
    (if s.next < s.n then 5 * (s.n - s.next) else 0) + Weights(s.workers)
  }

  lemma {:induction false} WeightsUpdate<T, E>(ws: seq<Worker<T, E>>, w: nat, x: Worker<T, E>)
    requires w < |ws|
    ensures Weights(ws[w := x]) == Weights(ws) - Weight(ws[w]) + Weight(x)
  {
    if w == 0 {
      assert ws[w := x][1..] == ws[1..];
    } else {
      assert ws[w := x][1..] == ws[1..][w - 1 := x];
      WeightsUpdate(ws[1..], w - 1, x);
    }
  }

  // Each step brings the end nearer, and until the end there is a step to take.
  lemma EveryStepProgresses<T, E(!new)>(s: State<T, E>, t: State<T, E>, w: nat)
    requires Moves(s, t, w)
    ensures Measure(t) < Measure(s)
  {
    WeightsUpdate(s.workers, w, t.workers[w]);
    assert t.workers == s.workers[w := t.workers[w]];
  }

  lemma NeverStuck<T, E(!new)>(s: State<T, E>, w: nat, r: Outcome<T, E>) returns (t: State<T, E>)
    requires w < |s.workers| && !Gone(s.workers[w])
    ensures Moves(s, t, w)
  {
    match s.workers[w]
    case Asking => t := Take(s, w);
    case Holding(_) => t := Check(s, w);
    case Running(_) => t := Return(s, w, r);
    case Storing(_, _) => t := Store(s, w);
    case Failing(_, _) => t := Record(s, w);
  }
}
