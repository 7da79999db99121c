/** No transaction is stuck: every planned one can run, step by step, to the point
    where only its database commit is left. */
module Progress {
  import opened Wrappers
  import opened TempNames
  import opened FileOps
  import opened Lookups
  import opened CreatedDirs
  import opened Undo
  import opened Metadata
  import opened Planning
  import opened Patch
  import opened Transactions
  import opened SingleRoot
  import opened SingleRootSafety

  // The steps of a transaction that change its journal rows or the disk.
  ghost predicate Proceeds(s: Root, t: Root)
  {
    || Record(s, t) || RecordDir(s, t) || StageWrite(s, t) || MakeDirs(s, t) || StartApplying(s, t)
    || ApplyOne(s, t) || ApplyFirst(s, t) || ApplySecond(s, t)
  }

  ghost predicate Path(run: seq<Root>, s: Root, t: Root)
  {
    && run != [] && run[0] == s && run[|run| - 1] == t
    && forall i | 0 <= i < |run| - 1 :: Proceeds(run[i], run[i + 1])
  }

  lemma Joined(a: seq<Root>, b: seq<Root>, s: Root, t: Root, u: Root)
    requires Path(a, s, t) && Path(b, t, u)
    ensures Path(a + b[1..], s, u)
  {
    hide Proceeds;
    var run := a + b[1..];
    forall i | 0 <= i < |run| - 1
      ensures Proceeds(run[i], run[i + 1])
    {
      if i >= |a| - 1 { assert run[i] == b[i - |a| + 1] && run[i + 1] == b[i - |a| + 2]; }
    }
  }

  /** Journal. */

  function Recorded(s: Root): Root
    requires s.journal.Some?
  {
    s.(journal := Some(s.journal.value.(rows := Rows(PendingOps(s.journal.value)), dirRows := s.journal.value.created)))
  }

  lemma {:induction false} RecordsDirs(s: Root, p: Pending) returns (run: seq<Root>)
    requires s.journal == Some(p) && s.mem == Journalling && p.rows == Rows(PendingOps(p))
    requires |p.dirRows| <= |p.created| && p.dirRows == p.created[..|p.dirRows|]
    ensures Path(run, s, Recorded(s))
    decreases |p.created| - |p.dirRows|
  {
    var n := |p.dirRows|;
    if n == |p.created| {
      assert p.created[..n] == p.created;
      run := [s];
    } else {
      var q := p.(dirRows := p.dirRows + [p.created[n]]);
      var t := s.(journal := Some(q));
      assert q.dirRows == p.created[..n + 1];
      assert RecordDir(s, t);
      var more := RecordsDirs(t, q);
      Joined([s, t], more, s, t, Recorded(s));
      run := [s, t] + more[1..];
    }
  }

  lemma {:induction false} RecordsAll(s: Root, p: Pending) returns (run: seq<Root>)
    requires s.journal == Some(p) && s.mem == Journalling
    requires |p.rows| <= |PendingOps(p)| && p.rows == Rows(PendingOps(p)[..|p.rows|]) && p.dirRows == []
    ensures Path(run, s, Recorded(s))
    decreases |PendingOps(p)| - |p.rows|
  {
    var ops, n := PendingOps(p), |p.rows|;
    if n == |ops| {
      assert ops[..n] == ops;
      assert p.dirRows == p.created[..0];
      run := RecordsDirs(s, p);
    } else {
      var q := p.(rows := p.rows + [Row(ops[n])]);
      var t := s.(journal := Some(q));
      assert q.rows == Rows(ops[..n + 1]);
      assert Record(s, t);
      var more := RecordsAll(t, q);
      Joined([s, t], more, s, t, Recorded(s));
      run := [s, t] + more[1..];
    }
  }

  /** Stage. */

  function StagedTree(t: Tree, changes: seq<Change>): Tree
  {
    if changes == [] then t
    else
      var u, x := StagedTree(t, changes[..|changes| - 1]), changes[|changes| - 1];
      if x.op.action == Remove then u else u[x.op.stagedPath := x.content]
  }

  lemma {:induction false} StagedTreeIs(t: Tree, changes: seq<Change>, n: nat)
    requires n <= |changes| && Separated(Ops(changes))
    ensures StagedOver(t, StagedTree(t, changes[..n]), Ops(changes))
    ensures forall i | 0 <= i < n && changes[i].op.action != Remove ::
              changes[i].op.stagedPath in StagedTree(t, changes[..n])
              && StagedTree(t, changes[..n])[changes[i].op.stagedPath] == changes[i].content
  {
    if n > 0 {
      StagedTreeIs(t, changes, n - 1);
      var ops, x := Ops(changes), changes[n - 1];
      assert changes[..n][..n - 1] == changes[..n - 1];
      assert ops[n - 1] in ops;
      assert x.op.action != Remove ==> x.op.stagedPath in Staged(ops[n - 1]);
      forall i | 0 <= i < n - 1 && changes[i].op.action != Remove && x.op.action != Remove
        ensures changes[i].op.stagedPath != x.op.stagedPath
      {
        assert Names(ops[i]) !! Names(ops[n - 1]);
        assert changes[i].op.stagedPath in Names(ops[i]) && x.op.stagedPath in Names(ops[n - 1]);
      }
    }
  }

  lemma StagedTreeContent(c: Context, changes: seq<Change>)
    requires Separated(Ops(changes))
    ensures StagedContent(c, StagedTree(c.tree, changes), changes)
  {
    StagedTreeIs(c.tree, changes, |changes|);
    assert changes[..|changes|] == changes;
  }

  lemma {:induction false} StagesAll(s: Root, p: Pending, n: nat) returns (run: seq<Root>)
    requires s.journal == Some(p) && s.mem == Staging && n <= |p.txn.changes|
    requires s.tree == StagedTree(p.before, p.txn.changes[..n])
    ensures Path(run, s, s.(tree := StagedTree(p.before, p.txn.changes)))
    decreases |p.txn.changes| - n
  {
    var changes, ops := p.txn.changes, PendingOps(p);
    if n == |changes| {
      assert changes[..n] == changes;
      run := [s];
    } else {
      var x := changes[n];
      assert changes[..n + 1][..n] == changes[..n];
      var t := s.(tree := StagedTree(p.before, changes[..n + 1]));
      var more := StagesAll(t, p, n + 1);
      if x.op.action == Remove {
        run := more;
      } else {
        assert ops[n] in ops && x.op.stagedPath in Staged(ops[n]);
        assert t == s.(tree := s.tree[x.op.stagedPath := t.tree[x.op.stagedPath]]);
        assert StageWrite(s, t);
        Joined([s, t], more, s, t, s.(tree := StagedTree(p.before, changes)));
        run := [s, t] + more[1..];
      }
    }
  }

  lemma {:induction false} MakesAll(s: Root, p: Pending, ds: set<string>) returns (run: seq<Root>)
    requires s.journal == Some(p) && s.mem == Staging && ds <= DirRows(p.txn.staged)
    requires forall d | d in ds :: !Blocked(s.tree, d)
    ensures Path(run, s, s.(dirs := s.dirs + Ways(ds)))
    decreases ds
  {
    hide Blocked, Way;
    if ds == {} {
      assert s.dirs + Ways(ds) == s.dirs;
      run := [s];
    } else {
      var d :| d in ds;
      var t := s.(dirs := s.dirs + Way(d));
      assert MakeDirs(s, t);
      var more := MakesAll(t, p, ds - {d});
      assert t.dirs + Ways(ds - {d}) == s.dirs + Ways(ds);
      Joined([s, t], more, s, t, s.(dirs := s.dirs + Ways(ds)));
      run := [s, t] + more[1..];
    }
  }

  /** Flip. */

  lemma {:induction false} PrefixFlips(t: Tree, ops: seq<FileOp>, k: nat)
    requires k <= |ops| && ApplyAll(t, ops).Some?
    ensures ApplyAll(t, ops[..k]).Some?
    decreases |ops|
  {
    if k < |ops| {
      PrefixFlips(t, ops[..|ops| - 1], k);
      assert ops[..|ops| - 1][..k] == ops[..k];
    } else {
      assert ops[..k] == ops;
    }
  }

  // The root when the first n operations are applied.
  function FlippedTo(s: Root, staged: Tree, n: nat): Root
    requires s.journal.Some? && n <= |PendingOps(s.journal.value)|
    requires ApplyAll(staged, PendingOps(s.journal.value)[..n]).Some?
  {
    s.(tree := ApplyAll(staged, PendingOps(s.journal.value)[..n]).value, mem := Applying(staged, n, false))
  }

  lemma AppliesOne(s: Root, staged: Tree, k: nat) returns (run: seq<Root>)
    requires s.journal.Some? && k < |PendingOps(s.journal.value)|
    requires ApplyAll(staged, PendingOps(s.journal.value)[..k + 1]).Some?
    ensures ApplyAll(staged, PendingOps(s.journal.value)[..k]).Some?
    ensures Path(run, FlippedTo(s, staged, k), FlippedTo(s, staged, k + 1))
  {
    hide Ready, Applied, CanStart, Halfway, Distinct;
    var ops := PendingOps(s.journal.value);
    var op := ops[k];
    assert ops[..k + 1][..k] == ops[..k];
    var a, b := FlippedTo(s, staged, k), FlippedTo(s, staged, k + 1);
    assert Ready(a.tree, op) && Distinct(op);
    if op.action.Create? || op.action.Remove? {
      assert ApplyOne(a, b);
      run := [a, b];
    } else {
      TwoRenames(a.tree, op);
      var m := a.(tree := Halfway(a.tree, op), mem := a.mem.(halfway := true));
      SecondCompletes(a.tree, op);
      assert ApplyFirst(a, m) && ApplySecond(m, b);
      run := [a, m, b];
    }
  }

  lemma TwoRenames(u: Tree, op: FileOp)
    requires Ready(u, op) && Distinct(op) && (op.action.Replace? || op.action.Swap?)
    ensures CanStart(u, op) && op.stagedPath in Halfway(u, op)
  {
  }

  lemma {:induction false} AppliesTo(s: Root, staged: Tree, n: nat) returns (run: seq<Root>)
    requires s.journal.Some? && n <= |PendingOps(s.journal.value)|
             && ApplyAll(staged, PendingOps(s.journal.value)).Some?
    ensures ApplyAll(staged, PendingOps(s.journal.value)[..n]).Some?
    ensures Path(run, FlippedTo(s, staged, 0), FlippedTo(s, staged, n))
  {
    hide Proceeds;
    var ops := PendingOps(s.journal.value);
    PrefixFlips(staged, ops, n);
    if n == 0 {
      run := [FlippedTo(s, staged, 0)];
    } else {
      var first := AppliesTo(s, staged, n - 1);
      var last := AppliesOne(s, staged, n - 1);
      Joined(first, last, FlippedTo(s, staged, 0), FlippedTo(s, staged, n - 1), FlippedTo(s, staged, n));
      run := first + last[1..];
    }
  }

  /** The whole. */

  function Content(p: Pending): Tree { StagedTree(p.before, p.txn.changes) }

  // With every listed directory made.
  function Made(t: Root): Root
    requires t.journal.Some?
  {
    Recorded(t).(dirs := t.dirs + Ways(DirRows(t.journal.value.txn.staged)))
  }

  // Where a transaction begun at `t` is with its first n operations applied.
  function Reached(t: Root, n: nat): Root
    requires t.journal.Some? && n <= |PendingOps(t.journal.value)|
    requires ApplyAll(Content(t.journal.value), PendingOps(t.journal.value)[..n]).Some?
  {
    FlippedTo(Made(t), Content(t.journal.value), n)
  }

  lemma Flips(s: Root, t: Root, n: nat)
    requires Inv(s) && Begin(s, t) && n <= |PendingOps(t.journal.value)|
    ensures var p := t.journal.value;
      && StagedContent(PlanContext(t.db, p), Content(p), p.txn.changes)
      && ApplyAll(Content(p), PendingOps(p)).Some? && ApplyAll(Content(p), PendingOps(p)[..n]).Some?
  {
    hide Inv, GoodTxn, Sound, Separated, AllPlanned, StagedContent, ApplyAll, Shaped, Siblings, Reachable, NoFuture;
    var p := t.journal.value;
    var c := PlanContext(t.db, p);
    AtBeginning(s, t);
    GoodTxnShaped(c, p.txn);
    StagedTreeContent(c, p.txn.changes);
    TransactionIsSound(c, p.txn, Content(p));
    PrefixFlips(Content(p), PendingOps(p), n);
  }

  lemma AtBeginning(s: Root, t: Root)
    requires Inv(s) && Begin(s, t)
    ensures Sound(PlanContext(t.db, t.journal.value)) && PlanContext(t.db, t.journal.value).tree == t.tree
  {
    hide GoodTxn, Sound, Carries, Inv;
    BeginSound(s, t.journal.value);
  }

  // The content that is staged blocks no listed directory.
  lemma ContentUnblocked(s: Root, t: Root)
    requires Inv(s) && Begin(s, t) && DirsClear(t.tree, t.journal.value.txn)
    ensures DirsMade(Content(t.journal.value), Made(t).dirs, t.journal.value.txn)
  {
    hide Inv, GoodTxn, Obstructed, Above, StagedContent, ApplyAll, NoFuture, CreatedFor, DirRows, Content;
    var p := t.journal.value;
    var c := PlanContext(t.db, p);
    AtBeginning(s, t);
    Flips(s, t, 0);
    OffDirs(c, p.txn);
    forall d | d in DirRows(p.txn.staged)
      ensures !Blocked(Content(p), d) && d + "/" in Made(t).dirs
    {
      assert d + "/" in Way(d);
      forall q | q in Content(p)
        ensures q != d && !Above(q, d)
      {
        if q !in c.tree { StagedIsName(c, p, q); } else { NotAbove(c.tree, q, d); }
      }
      NothingBlocks(Content(p), d);
    }
  }

  lemma StagedIsName(c: Context, p: Pending, q: string)
    requires StagedContent(c, Content(p), p.txn.changes) && q in Content(p) && q !in c.tree
    ensures q in AllNames(PendingOps(p))
  {
    hide Content;
    assert !SameAt(c.tree, Content(p), q);
    var op :| op in PendingOps(p) && q in Staged(op);
    assert q in Names(op);
  }

  lemma NotAbove(t: Tree, q: string, d: string)
    requires q in t && !Blocked(t, d)
    ensures q != d && !Above(q, d)
  {
    hide Above;
  }

  lemma NothingBlocks(t: Tree, d: string)
    requires forall q | q in t :: q != d && !Above(q, d)
    ensures !Blocked(t, d)
  {
    hide Above;
  }

  // From the first write of staging on.
  lemma StagesAndFlips(s: Root, t: Root, n: nat) returns (run: seq<Root>)
    requires Inv(s) && Begin(s, t) && n <= |PendingOps(t.journal.value)| && DirsClear(t.tree, t.journal.value.txn)
    ensures ApplyAll(Content(t.journal.value), PendingOps(t.journal.value)[..n]).Some?
    ensures Path(run, Recorded(t).(mem := Staging), Reached(t, n))
  {
    hide Inv, GoodTxn, StagedContent, ApplyAll, Proceeds, NoFuture, Blocked, CreatedFor, DirsMade, Ways;
    var p := t.journal.value;
    var m := Made(t);
    Flips(s, t, n);
    Flips(s, t, 0);
    ContentUnblocked(s, t);
    var staging := Recorded(t).(mem := Staging);
    var making := MakesAll(staging, staging.journal.value, DirRows(p.txn.staged));
    var made := m.(mem := Staging);
    var staged := made.(tree := Content(p));
    assert p.txn.changes[..0] == [];
    var first := StagesAll(made, m.journal.value, 0);
    var last := AppliesTo(m, Content(p), n);
    var began := FlippedTo(m, Content(p), 0);
    assert PlanContext(m.db, m.journal.value) == PlanContext(t.db, p) && Content(m.journal.value) == Content(p);
    FlipStarts(m, staged, began);
    Joined(making, first, staging, made, staged);
    Joined(making + first[1..], [staged, began], staging, staged, began);
    Joined(making + first[1..] + [staged, began][1..], last, staging, began, Reached(t, n));
    run := making + first[1..] + [staged, began][1..] + last[1..];
  }

  lemma FlipStarts(r: Root, staged: Root, began: Root)
    requires r.journal.Some?
    requires StagedContent(PlanContext(r.db, r.journal.value), Content(r.journal.value), r.journal.value.txn.changes)
    requires DirsMade(Content(r.journal.value), r.dirs, r.journal.value.txn)
    requires staged == r.(mem := Staging, tree := Content(r.journal.value))
    requires ApplyAll(Content(r.journal.value), PendingOps(r.journal.value)[..0]).Some?
    requires began == FlippedTo(r, Content(r.journal.value), 0)
    ensures Path([staged, began], staged, began)
  {
    hide StagedContent, DirsMade;
    assert PendingOps(r.journal.value)[..0] == [];
    assert StartApplying(staged, began);
  }

  // Every transaction that begins on a root at rest, with no listed directory blocked,
  // can be carried on until any number of its operations is applied; after the last
  // one nothing but the database can refuse it. With one blocked it never gets past
  // staging (StagingExactly).
  lemma EveryTransactionRuns(s: Root, t: Root, n: nat) returns (run: seq<Root>)
    requires AtRest(s) && Begin(s, t) && n <= |PendingOps(t.journal.value)| && DirsClear(s.tree, t.journal.value.txn)
    ensures ApplyAll(Content(t.journal.value), PendingOps(t.journal.value)[..n]).Some?
    ensures run != [] && Run(run) && run[0] == s && run[|run| - 1] == Reached(t, n)
    ensures n == |PendingOps(t.journal.value)| ==>
              ((exists u :: CommitDb(Reached(t, n), u)) <==>
               Commit(s.db, t.journal.value.txn.staged, t.journal.value.txn.work).Some?)
  {
    hide AtRest, Inv, Begin, ApplyAll, Proceeds, Commit, DirsClear;
    RestIsInv(s);
    SameTree(s, t);
    var first := RecordsBegun(s, t);
    var last := StagesAndFlips(s, t, n);
    StagingStarts(s, t);
    run := [s] + first + last;
    forall i | 0 <= i < |run| - 1
      ensures Next(run[i], run[i + 1])
    {
      if i == 0 {
        FirstStep(s, t);
      } else if i < |first| {
        OwnStep(first[i - 1], first[i]);
      } else if i > |first| {
        OwnStep(last[i - |first| - 1], last[i - |first|]);
      }
    }
    CommitLeft(s, t, n);
  }

  lemma RecordsBegun(s: Root, t: Root) returns (run: seq<Root>)
    requires Begin(s, t)
    ensures Path(run, t, Recorded(t))
  {
    hide GoodTxn;
    var p := t.journal.value;
    assert p.rows == Rows(PendingOps(p)[..|p.rows|]);
    run := RecordsAll(t, p);
  }

  lemma SameTree(s: Root, t: Root)
    requires Begin(s, t)
    ensures t.journal.Some? && t.tree == s.tree && t.journal.value.before == s.tree
  {
    hide GoodTxn, CreatedFor;
  }

  lemma StagingStarts(s: Root, t: Root)
    requires Begin(s, t)
    ensures Next(Recorded(t), Recorded(t).(mem := Staging))
  {
    hide GoodTxn;
    assert StartStaging(Recorded(t), Recorded(t).(mem := Staging));
  }

  lemma FirstStep(s: Root, t: Root)
    requires Begin(s, t)
    ensures Next(s, t)
  {
    hide Begin;
  }

  lemma OwnStep(s: Root, t: Root)
    requires Proceeds(s, t)
    ensures Next(s, t)
  {
    hide Record, RecordDir, StageWrite, MakeDirs, StartApplying, ApplyOne, ApplyFirst, ApplySecond;
  }

  lemma CommitLeft(s: Root, t: Root, n: nat)
    requires Begin(s, t) && n <= |PendingOps(t.journal.value)|
    requires ApplyAll(Content(t.journal.value), PendingOps(t.journal.value)[..n]).Some?
    ensures n == |PendingOps(t.journal.value)| ==>
              ((exists u :: CommitDb(Reached(t, n), u)) <==>
               Commit(s.db, t.journal.value.txn.staged, t.journal.value.txn.work).Some?)
  {
    hide GoodTxn, Commit;
    var r, p := Reached(t, n), t.journal.value;
    if n == |PendingOps(p)| && Commit(s.db, p.txn.staged, p.txn.work).Some? {
      assert CommitDb(r, Closed(t, n));
    }
  }

  // The root after the commit.
  function Closed(t: Root, n: nat): Root
    requires t.journal.Some? && n <= |PendingOps(t.journal.value)|
    requires ApplyAll(Content(t.journal.value), PendingOps(t.journal.value)[..n]).Some?
    requires Commit(t.db, t.journal.value.txn.staged, t.journal.value.txn.work).Some?
  {
    var p := t.journal.value;
    Reached(t, n).(db := Commit(t.db, p.txn.staged, p.txn.work).value, journal := None,
      mem := Discarding(PendingOps(p)))
  }

  // A run that gets past staging.
  ghost predicate PastStaging(run: seq<Root>, s: Root, t: Root)
  {
    && run != [] && Run(run) && run[0] == s && run[|run| - 1].mem.Applying? && run[|run| - 1].journal.Some?
    && t.journal.Some?
    && run[|run| - 1].journal.value.txn == t.journal.value.txn && run[|run| - 1].journal.value.before == s.tree
  }

  // What is planned gets past staging exactly when no directory its payloads list is
  // a file or symlink, or lies beneath one.
  lemma StagingExactly(s: Root, t: Root)
    requires AtRest(s) && Begin(s, t)
    ensures (exists run :: PastStaging(run, s, t)) <==> DirsClear(s.tree, t.journal.value.txn)
  {
    hide AtRest, Begin, Run, DirsClear, Next;
    SameTree(s, t);
    if run :| PastStaging(run, s, t) {
      RunKeepsInv(run, |run| - 1);
      ApplyingIsClear(run[|run| - 1]);
    }
    if DirsClear(s.tree, t.journal.value.txn) {
      var run := EveryTransactionRuns(s, t, 0);
      ReachedApplies(t);
      assert PastStaging(run, s, t);
    }
  }

  lemma ApplyingIsClear(s: Root)
    requires Inv(s) && s.journal.Some? && s.mem.Applying?
    ensures DirsClear(s.journal.value.before, s.journal.value.txn)
  {
    hide GoodTxn, Sound, NamesPast, Undoable, SoundDb, NoFuture, InDirs, CreatedFor, DirsClear;
  }

  lemma ReachedApplies(t: Root)
    requires t.journal.Some? && ApplyAll(Content(t.journal.value), PendingOps(t.journal.value)[..0]).Some?
    ensures var e := Reached(t, 0);
      && e.mem.Applying? && e.journal.Some? && e.journal.value.txn == t.journal.value.txn
      && e.journal.value.before == t.journal.value.before
  {
  }
}
