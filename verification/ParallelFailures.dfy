/** Which failure a parallel map reports: exactly when repeated runs over the same
    outcomes agree (internal/compose/parallel.go). */
module ParallelFailures {
  import opened Wrappers
  import opened ParallelMap

  // The indices below i whose call fails.
  function Fails<T, E>(f: seq<Outcome<T, E>>, i: nat): set<nat>
    requires i <= |f|
  {
    set j: nat | j < i && f[j].Err?
  }

  lemma FailsNone<T, E>(f: seq<Outcome<T, E>>)
    ensures Fails(f, 0) == {}
  {
  }

  lemma FailsStep<T, E>(f: seq<Outcome<T, E>>, i: nat)
    requires i < |f|
    ensures |Fails(f, i + 1)| == |Fails(f, i)| + if f[i].Err? then 1 else 0
  {
    assert Fails(f, i + 1) == if f[i].Err? then Fails(f, i) + {i} else Fails(f, i);
  }

  lemma {:induction false} FailsGrow<T, E>(f: seq<Outcome<T, E>>, i: nat, j: nat)
    requires i <= j <= |f|
    ensures |Fails(f, i)| <= |Fails(f, j)|
    decreases j
  {
    if i < j {
      FailsGrow(f, i, j - 1);
      FailsStep(f, j - 1);
    }
  }

  // The failure with exactly m before it.
  lemma {:induction false} FailureAt<T, E>(f: seq<Outcome<T, E>>, k: nat, m: nat) returns (i: nat)
    requires k <= |f| && m < |Fails(f, k)|
    ensures i < k && f[i].Err? && |Fails(f, i)| == m
  {
    FailsNone(f);
    FailsStep(f, k - 1);
    if m < |Fails(f, k - 1)| {
      i := FailureAt(f, k - 1, m);
    } else {
      i := k - 1;
    }
  }

  // Finished runs of `workers` workers whose calls have these outcomes.
  ghost predicate Ends<T(!new), E(!new)>(run: seq<State<T, E>>, f: seq<Outcome<T, E>>, workers: nat)
  {
    && Run(run) && run[0].n == |f| && |run[0].workers| == workers && Finished(run[|run| - 1])
    && forall i | i in run[|run| - 1].calls :: i < |f| && run[|run| - 1].calls[i] == f[i]
  }

  ghost predicate Reports<T(!new), E(!new)>(run: seq<State<T, E>>, f: seq<Outcome<T, E>>, workers: nat, i: nat)
  {
    Ends(run, f, workers) && i < |f| && f[i].Err? && run[|run| - 1].first == Some((i, f[i].error))
  }

  /** What a run can report at most. */

  lemma {:induction false} SameWorkers<T(!new), E(!new)>(run: seq<State<T, E>>, k: nat)
    requires Run(run) && k < |run|
    ensures |run[k].workers| == |run[0].workers|
  {
    if k > 0 {
      SameWorkers(run, k - 1);
      var w: nat :| Moves(run[k - 1], run[k], w);
    }
  }

  function Indices<T, E>(workers: seq<Worker<T, E>>): set<nat>
  {
    set w | 0 <= w < |workers| && Marked(workers[w]) :: workers[w].index
  }

  lemma {:induction false} FewIndices<T, E>(workers: seq<Worker<T, E>>)
    ensures |Indices(workers)| <= |workers|
  {
    if workers != [] {
      var n := |workers| - 1;
      var rest, last := workers[..n], workers[n];
      FewIndices(rest);
      assert Indices(workers) == if Marked(last) then Indices(rest) + {last.index} else Indices(rest) by {
        assert forall w | 0 <= w < n :: workers[w] == rest[w];
      }
    }
  }

  lemma {:induction false} SubsetSmaller(a: set<nat>, b: set<nat>)
    requires a <= b
    ensures |a| <= |b|
  {
    if a != {} {
      var x :| x in a;
      SubsetSmaller(a - {x}, b - {x});
    }
  }

  // Every failure below the one reported was taken and skipped, each by a worker of
  // its own; one more made the call.
  lemma ReportedFailure<T(!new), E(!new)>(run: seq<State<T, E>>, f: seq<Outcome<T, E>>, workers: nat)
    requires Ends(run, f, workers) && run[|run| - 1].first.Some?
    ensures var i := run[|run| - 1].first.value.0;
      Reports(run, f, workers, i) && |Fails(f, i)| < workers
  {
    var k := |run| - 1;
    var s := run[k];
    var i := s.first.value.0;
    RunKeeps(run, k);
    SameWorkers(run, k);
    FailureIsLowest(run, k);
    FewIndices(s.workers);
    forall j | j in Fails(f, i) + {i}
      ensures j in Indices(s.workers)
    {
      TakenByOne(s, f, j, i);
    }
    SubsetSmaller(Fails(f, i) + {i}, Indices(s.workers));
  }

  lemma TakenByOne<T(!new), E(!new)>(s: State<T, E>, f: seq<Outcome<T, E>>, j: nat, i: nat)
    requires Inv(s) && s.n == |f| && s.first.Some? && s.first.value.0 == i && j <= i < |f| && f[j].Err?
    requires forall c | c in s.calls :: c < |f| && s.calls[c] == f[c]
    ensures j in Indices(s.workers)
  {
    hide Sane, OnItsWay;
    assert i in s.calls && i in s.begun;
    assert j !in s.out;
    var w :| 0 <= w < |s.workers| && Marked(s.workers[w]) && s.workers[w].index == j;
  }

  // With a failing index, every finished run reports some failure.
  lemma SomethingReported<T(!new), E(!new)>(run: seq<State<T, E>>, f: seq<Outcome<T, E>>, workers: nat, i: nat)
    requires Ends(run, f, workers) && i < |f| && f[i].Err?
    ensures run[|run| - 1].first.Some?
  {
    var k := |run| - 1;
    RunKeeps(run, k);
    if run[k].first.None? {
      SuccessIsComplete(run, k, i);
    }
  }

  /** A schedule that reports a given one. */

  ghost predicate Path<T(!new), E(!new)>(run: seq<State<T, E>>, s: State<T, E>, t: State<T, E>)
  {
    && run != [] && run[0] == s && run[|run| - 1] == t
    && forall k | 0 <= k < |run| - 1 :: Steps(run[k], run[k + 1])
  }

  lemma Joined<T(!new), E(!new)>(a: seq<State<T, E>>, b: seq<State<T, E>>, s: State<T, E>, t: State<T, E>,
                                 u: State<T, E>)
    requires Path(a, s, t) && Path(b, t, u)
    ensures Path(a + b[1..], s, u)
  {
    hide Steps;
    var run := a + b[1..];
    forall k | 0 <= k < |run| - 1
      ensures Steps(run[k], run[k + 1])
    {
      if k >= |a| - 1 { assert run[k] == b[k - |a| + 1] && run[k + 1] == b[k - |a| + 2]; }
    }
  }

  // Nothing has failed yet: the first c workers hold a failing index each, the others
  // are free, and the next index is k.
  ghost predicate Parked<T, E>(s: State<T, E>, f: seq<Outcome<T, E>>, k: nat)
  {
    && s.n == |f| && k <= |f| && s.next == k && s.first == None && |Fails(f, k)| <= |s.workers|
    && (forall w | 0 <= w < |Fails(f, k)| :: s.workers[w].Holding?)
    && (forall w | |Fails(f, k)| <= w < |s.workers| :: s.workers[w].Asking?)
    && (forall i | i in s.calls :: i < |f| && s.calls[i] == f[i])
  }

  // One more index: a success is run to its end, a failure is taken and left.
  lemma ParkOne<T(!new), E(!new)>(s: State<T, E>, f: seq<Outcome<T, E>>, k: nat)
    returns (run: seq<State<T, E>>, t: State<T, E>)
    requires Parked(s, f, k) && k < |f| && |Fails(f, k)| < |s.workers|
    ensures Path(run, s, t) && Parked(t, f, k + 1) && |t.workers| == |s.workers|
  {
    FailsStep(f, k);
    var w := |Fails(f, k)|;
    var s1 := Take(s, w);
    assert Moves(s, s1, w);
    if f[k].Err? {
      run, t := [s, s1], s1;
    } else {
      var s2 := Check(s1, w);
      var s3 := Return(s2, w, f[k]);
      t := Store(s3, w);
      assert s3.calls.Keys == s2.calls.Keys + {k};
      assert Moves(s1, s2, w) && Moves(s2, s3, w) && Moves(s3, t, w);
      run := [s, s1, s2, s3, t];
      forall j | 0 <= j < |run| - 1
        ensures Steps(run[j], run[j + 1])
      {
        assert j == 0 || j == 1 || j == 2 || j == 3;
      }
    }
  }

  lemma {:induction false} ParkTo<T(!new), E(!new)>(s: State<T, E>, f: seq<Outcome<T, E>>, k: nat, i: nat)
    returns (run: seq<State<T, E>>, t: State<T, E>)
    requires Parked(s, f, k) && k <= i <= |f| && (i == k || |Fails(f, i - 1)| < |s.workers|)
    ensures Path(run, s, t) && Parked(t, f, i) && |t.workers| == |s.workers|
    decreases i - k
  {
    hide Parked, Steps;
    if k == i {
      run, t := [s], s;
    } else {
      FailsGrow(f, k, i - 1);
      var first, u := ParkOne(s, f, k);
      var last;
      last, t := ParkTo(u, f, k + 1, i);
      Joined(first, last, s, u, t);
      run := first + last[1..];
    }
  }

  // The free worker takes the failing index and fails.
  lemma FailAt<T(!new), E(!new)>(s: State<T, E>, f: seq<Outcome<T, E>>, i: nat)
    returns (run: seq<State<T, E>>, t: State<T, E>)
    requires Parked(s, f, i) && i < |f| && f[i].Err? && |Fails(f, i)| < |s.workers|
    ensures Path(run, s, t) && |t.workers| == |s.workers| && t.first == Some((i, f[i].error)) && Leaving(t, 0)
    ensures forall c | c in t.calls :: c < |f| && t.calls[c] == f[c]
  {
    var w := |Fails(f, i)|;
    var s1 := Take(s, w);
    var s2 := Check(s1, w);
    var s3 := Return(s2, w, f[i]);
    t := Record(s3, w);
    assert s3.calls.Keys == s2.calls.Keys + {i};
    assert Moves(s, s1, w) && Moves(s1, s2, w) && Moves(s2, s3, w) && Moves(s3, t, w);
    run := [s, s1, s2, s3, t];
    forall j | 0 <= j < |run| - 1
      ensures Steps(run[j], run[j + 1])
    {
      assert j == 0 || j == 1 || j == 2 || j == 3;
    }
  }

  // A failure is recorded; the first w workers are gone, no other is in a call.
  ghost predicate Leaving<T, E>(s: State<T, E>, w: nat)
  {
    && s.first.Some? && w <= |s.workers|
    && (forall v | 0 <= v < w :: Gone(s.workers[v]))
    && (forall v | w <= v < |s.workers| :: Gone(s.workers[v]) || s.workers[v].Asking? || s.workers[v].Holding?)
  }

  lemma LeaveOne<T(!new), E(!new)>(s: State<T, E>, w: nat) returns (run: seq<State<T, E>>, t: State<T, E>)
    requires Leaving(s, w) && w < |s.workers|
    ensures Path(run, s, t) && Leaving(t, w + 1) && |t.workers| == |s.workers| && t.first == s.first
            && t.calls == s.calls
  {
    if Gone(s.workers[w]) {
      run, t := [s], s;
    } else if s.workers[w].Holding? {
      t := Check(s, w);
      assert Moves(s, t, w);
      run := [s, t];
    } else {
      var u := Take(s, w);
      assert Moves(s, u, w);
      if s.next >= s.n {
        run, t := [s, u], u;
      } else {
        t := Check(u, w);
        assert Moves(u, t, w);
        run := [s, u, t];
      }
    }
  }

  lemma {:induction false} LeaveAll<T(!new), E(!new)>(s: State<T, E>, w: nat)
    returns (run: seq<State<T, E>>, t: State<T, E>)
    requires Leaving(s, w)
    ensures Path(run, s, t) && Finished(t) && |t.workers| == |s.workers| && t.first == s.first && t.calls == s.calls
    decreases |s.workers| - w
  {
    if w == |s.workers| {
      run, t := [s], s;
    } else {
      var first, u := LeaveOne(s, w);
      hide Leaving, Steps, Finished;
      var last;
      last, t := LeaveAll(u, w + 1);
      Joined(first, last, s, u, t);
      run := first + last[1..];
    }
  }

  function Fresh<T, E>(n: nat, workers: nat): State<T, E>
  {
    State(n, 0, seq(workers, _ => Asking), map[], None, [], map[])
  }

  // Enough workers to leave every lower failure untried.
  lemma CanReport<T(!new), E(!new)>(f: seq<Outcome<T, E>>, workers: nat, i: nat) returns (run: seq<State<T, E>>)
    requires i < |f| && f[i].Err? && |Fails(f, i)| < workers
    ensures Reports(run, f, workers, i)
  {
    var s: State<T, E> := Fresh(|f|, workers);
    FailsNone(f);
    assert Parked(s, f, 0);
    if i > 0 { FailsGrow(f, i - 1, i); }
    hide Parked, Leaving, Steps, Finished;
    var first, t := ParkTo(s, f, 0, i);
    var fails, u := FailAt(t, f, i);
    var last, v := LeaveAll(u, 0);
    Joined(first, fails, s, t, u);
    Joined(first + fails[1..], last, s, u, v);
    run := first + fails[1..] + last[1..];
  }

  /** The main results. */

  // A failure is reported by some run exactly when fewer lower ones would fail than
  // there are workers.
  lemma ReportedExactly<T(!new), E(!new)>(f: seq<Outcome<T, E>>, workers: nat, i: nat)
    requires i < |f| && f[i].Err?
    ensures (exists run :: Reports(run, f, workers, i)) <==> |Fails(f, i)| < workers
  {
    hide Ends;
    if run :| Reports(run, f, workers, i) {
      ReportedFailure(run, f, workers);
    }
    if |Fails(f, i)| < workers {
      var run := CanReport(f, workers, i);
    }
  }

  // Repeated runs report the same failure exactly when there is one worker, or at
  // most one index fails.
  ghost predicate AlwaysTheSame<T(!new), E(!new)>(f: seq<Outcome<T, E>>, workers: nat)
  {
    forall a: seq<State<T, E>>, b: seq<State<T, E>> | Ends(a, f, workers) && Ends(b, f, workers) ::
      a[|a| - 1].first == b[|b| - 1].first
  }

  lemma SameFailureExactly<T(!new), E(!new)>(f: seq<Outcome<T, E>>, workers: nat)
    ensures AlwaysTheSame(f, workers) <==> workers <= 1 || |Fails(f, |f|)| <= 1
  {
    hide Start, Steps, Finished;
    if workers <= 1 || |Fails(f, |f|)| <= 1 {
      forall a: seq<State<T, E>>, b: seq<State<T, E>> | Ends(a, f, workers) && Ends(b, f, workers)
        ensures a[|a| - 1].first == b[|b| - 1].first
      {
        TheOnly(a, b, f, workers);
      }
    } else {
      var i := FailureAt(f, |f|, 0);
      var j := FailureAt(f, |f|, 1);
      var a := CanReport(f, workers, i);
      var b := CanReport(f, workers, j);
      assert a[|a| - 1].first != b[|b| - 1].first;
    }
  }

  lemma TheOnly<T(!new), E(!new)>(a: seq<State<T, E>>, b: seq<State<T, E>>, f: seq<Outcome<T, E>>, workers: nat)
    requires Ends(a, f, workers) && Ends(b, f, workers) && (workers <= 1 || |Fails(f, |f|)| <= 1)
    ensures a[|a| - 1].first == b[|b| - 1].first
  {
    hide Start, Steps, Finished;
    var x, y := a[|a| - 1].first, b[|b| - 1].first;
    if x.Some? { ReportedFailure(a, f, workers); }
    if y.Some? { ReportedFailure(b, f, workers); }
    if x.Some? {
      SomethingReported(b, f, workers, x.value.0);
      OneCandidate(f, workers, x.value.0, y.value.0);
    } else if y.Some? {
      SomethingReported(a, f, workers, y.value.0);
    }
  }

  lemma OneCandidate<T, E>(f: seq<Outcome<T, E>>, workers: nat, i: nat, j: nat)
    requires i < |f| && j < |f| && f[i].Err? && f[j].Err? && |Fails(f, i)| < workers && |Fails(f, j)| < workers
    requires workers <= 1 || |Fails(f, |f|)| <= 1
    ensures i == j
  {
    if i < j {
      FailsStep(f, i);
      FailsGrow(f, i + 1, j);
      FailsStep(f, j);
      FailsGrow(f, j + 1, |f|);
    } else if j < i {
      FailsStep(f, j);
      FailsGrow(f, j + 1, i);
      FailsStep(f, i);
      FailsGrow(f, i + 1, |f|);
    }
  }
}
