/** The one point of a transaction its rollback does not cover: between the exchange
    and the rename of a swap. What a stop there leaves of a run. */
module SwapStops {
  import opened Wrappers
  import opened TempNames
  import opened FileOps
  import opened Undo
  import opened Tables
  import opened Patch
  import opened Transactions
  import opened SingleRoot
  import opened SingleRootSafety
  import opened Progress

  // Where a run is between the two: the flip so far, and the swap under way.
  lemma MidSwapState(s: Root, p: Pending) returns (u: Tree)
    requires Inv(s) && s.journal == Some(p) && MidSwap(s)
    ensures StagedOver(p.before, s.mem.staged, PendingOps(p)) && s.mem.done < |PendingOps(p)|
    ensures ApplyAll(s.mem.staged, PendingOps(p)[..s.mem.done]) == Some(u)
    ensures var op := PendingOps(p)[s.mem.done];
      op.action == Swap && CanStart(u, op) && s.tree == Halfway(u, op) && op.finalPath in s.tree
      && s.tree[op.finalPath] == u[op.stagedPath]
    ensures p.rows == Rows(PendingOps(p)) && InDirs(s.tree, s.dirs)
  {
    hide GoodTxn, Sound, NamesPast, Undoable, SoundDb, NoFuture;
    var ops := PendingOps(p);
    u := ApplyAll(s.mem.staged, ops[..s.mem.done]).value;
    assert ops[..|ops|] == ops;
  }

  // Closing the transaction after a failure or a crash there, undone by the process
  // or by recovery: everything is back except that the link swapped in stays.
  lemma StateMidSwap(s: Root)
    requires Inv(s) && MidSwap(s)
    ensures var p := s.journal.value; var ops := PendingOps(p); var path := ops[s.mem.done].finalPath;
      && path in p.before && path in s.tree
      && (forall op | op in ops :: Distinct(op))
      && UndoAll(s.tree, ops) == p.before[path := s.tree[path]]
      && Rebuild(p.rows, s.tree, s.dirs).Some?
      && (forall op | op in Rebuild(p.rows, s.tree, s.dirs).value :: Distinct(op))
      && UndoAll(s.tree, Rebuild(p.rows, s.tree, s.dirs).value) == p.before[path := s.tree[path]]
  {
    hide Sound, GoodTxn, Undoable, NamesPast, Separated, AllPlanned, StagedOver, Rebuild, CreatedFor, DirsClear;
    hide Halfway, CanStart, Reachable, NoFuture, SoundDb, Agree, ApplyingInv, Begun, InDirs, ApplyAll;
    var p := s.journal.value;
    var ops := PendingOps(p);
    var u := MidSwapState(s, p);
    BegunShaped(PlanContext(s.db, p), p.txn);
    MidSwapUndo(p.before, s.mem.staged, ops, s.mem.done, u);
    MidSwapRecovery(p.before, s.mem.staged, ops, s.mem.done, u, s.dirs);
  }

  // So the disk still matches the rows exactly when nothing of theirs was displaced
  // or the link swapped in is the one that was there.
  lemma StateAgrees(s: Root)
    requires Inv(s) && MidSwap(s)
    ensures var p := s.journal.value; var path := PendingOps(p)[s.mem.done].finalPath;
      && path in p.before && path in s.tree
      && (Agree(p.before[path := s.tree[path]], s.db) <==> (Managed(s.db, path) ==> s.tree[path] == p.before[path]))
  {
    hide GoodTxn, Undoable, NamesPast, NoFuture, SoundDb, Begun, Agree, Managed, CreatedFor, DirsClear;
    StateMidSwap(s);
    var p := s.journal.value;
    var path := PendingOps(p)[s.mem.done].finalPath;
    OneEntryChanged(p.before, s.db, path, s.tree[path]);
  }

  // Wherever a run stops there.
  lemma StoppedMidSwap(run: seq<Root>, i: nat)
    requires Run(run) && AtRest(run[0]) && i < |run| && MidSwap(run[i])
    ensures var s := run[i]; var p := s.journal.value; var ops := PendingOps(p); var path := ops[s.mem.done].finalPath;
      && path in p.before && path in s.tree
      && (forall op | op in ops :: Distinct(op))
      && UndoAll(s.tree, ops) == p.before[path := s.tree[path]]
      && Rebuild(p.rows, s.tree, s.dirs).Some?
      && (forall op | op in Rebuild(p.rows, s.tree, s.dirs).value :: Distinct(op))
      && UndoAll(s.tree, Rebuild(p.rows, s.tree, s.dirs).value) == p.before[path := s.tree[path]]
  {
    hide Run, AtRest, Inv, Rebuild;
    RunKeepsInv(run, i);
    StateMidSwap(run[i]);
  }

  lemma MidSwapAgrees(run: seq<Root>, i: nat)
    requires Run(run) && AtRest(run[0]) && i < |run| && MidSwap(run[i])
    ensures var s := run[i]; var p := s.journal.value; var path := PendingOps(p)[s.mem.done].finalPath;
      && path in p.before && path in s.tree
      && (Agree(p.before[path := s.tree[path]], s.db) <==> (Managed(s.db, path) ==> s.tree[path] == p.before[path]))
  {
    hide Run, AtRest, Inv, Agree, Managed;
    RunKeepsInv(run, i);
    StateAgrees(run[i]);
  }

  lemma OneEntryChanged(t: Tree, db: Db, path: string, e: Entry)
    requires Agree(t, db) && path in t
    ensures Agree(t[path := e], db) <==> (Managed(db, path) ==> e == t[path])
  {
    if !Managed(db, path) {
      AgreeKept(t, t[path := e], db);
    } else if e == t[path] {
      assert t[path := e] == t;
    } else {
      assert t[path := e][path] == e;
    }
  }

  // Any swap of a transaction is such a point of one of its runs.
  lemma CanStopMidSwap(s: Root, t: Root, n: nat) returns (run: seq<Root>)
    requires AtRest(s) && Begin(s, t) && n < |t.journal.value.txn.changes|
    requires t.journal.value.txn.changes[n].op.action == Swap && DirsClear(s.tree, t.journal.value.txn)
    ensures run != [] && Run(run) && run[0] == s
    ensures var e := run[|run| - 1]; var x := t.journal.value.txn.changes[n];
      && MidSwap(e) && e.mem.done == n && e.db == s.db && e.journal.value.before == s.tree
      && PendingOps(e.journal.value) == PendingOps(t.journal.value)
      && x.op.finalPath in e.tree && e.tree[x.op.finalPath] == x.content
  {
    hide AtRest, Inv, Begin, ApplyAll, Run, Ready, Content, DirsClear;
    RestIsInv(s);
    BegunFrom(s, t);
    var first := EveryTransactionRuns(s, t, n);
    var e := SwapStarts(s, t, n);
    hide MidSwap, ApplyFirst, Reached;
    Continued(first, e);
    run := first + [e];
  }

  lemma BegunFrom(s: Root, t: Root)
    requires Begin(s, t)
    ensures t.journal.Some? && t.db == s.db && t.journal.value.before == s.tree
  {
    hide GoodTxn;
  }

  lemma Continued(run: seq<Root>, t: Root)
    requires Run(run) && ApplyFirst(run[|run| - 1], t)
    ensures Run(run + [t])
  {
    hide ApplyFirst, Begin, Refuse, Record, RecordDir, MakeDirs, StartStaging, StageWrite, StartApplying, ApplyOne;
    hide ApplySecond;
    hide Backward, CommitDb, Discard, RemoveDirs, SingleRoot.Done, Edit;
    forall i | 0 <= i < |run|
      ensures Next((run + [t])[i], (run + [t])[i + 1])
    {
      if i == |run| - 1 { assert Forward(run[i], t); }
    }
  }

  lemma SwapStarts(s: Root, t: Root, n: nat) returns (e: Root)
    requires Inv(s) && Begin(s, t) && n < |t.journal.value.txn.changes|
    requires t.journal.value.txn.changes[n].op.action == Swap
    ensures ApplyAll(Content(t.journal.value), PendingOps(t.journal.value)[..n]).Some?
    ensures ApplyFirst(Reached(t, n), e) && MidSwap(e) && e.mem.done == n && e.db == t.db
    ensures e.journal.Some? && e.journal.value.before == t.journal.value.before
    ensures PendingOps(e.journal.value) == PendingOps(t.journal.value)
    ensures var x := t.journal.value.txn.changes[n]; x.op.finalPath in e.tree && e.tree[x.op.finalPath] == x.content
  {
    hide Inv, GoodTxn, StagedContent, Ready, Content, Carries;
    var p := t.journal.value;
    var op := PendingOps(p)[n];
    Flips(s, t, n);
    Flips(s, t, n + 1);
    assert PendingOps(p)[..n + 1][..n] == PendingOps(p)[..n];
    var u := Reached(t, n);
    assert Ready(u.tree, op) && Distinct(op);
    TwoRenames(u.tree, op);
    StagedStays(s, t, n);
    e := u.(tree := Halfway(u.tree, op), mem := u.mem.(halfway := true));
  }

  // Applying earlier operations leaves what was staged for a later one.
  lemma StagedStays(s: Root, t: Root, n: nat)
    requires Inv(s) && Begin(s, t) && n < |t.journal.value.txn.changes|
    requires t.journal.value.txn.changes[n].op.action == Swap
    ensures ApplyAll(Content(t.journal.value), PendingOps(t.journal.value)[..n]).Some?
    ensures var x := t.journal.value.txn.changes[n];
      x.op.stagedPath in Reached(t, n).tree && Reached(t, n).tree[x.op.stagedPath] == x.content
  {
    hide Inv, GoodTxn, ApplyAll, NoFuture, Sound, Reachable, Shaped, Siblings, Content, AllPlanned;
    var p := t.journal.value;
    var ops, x := PendingOps(p), p.txn.changes[n];
    Flips(s, t, n);
    AtBeginning(s, t);
    GoodTxnShaped(PlanContext(t.db, p), p.txn);
    assert x in p.txn.changes && ops[n] in ops && x.op.stagedPath in Names(ops[n]);
    forall op | op in ops[..n]
      ensures x.op.stagedPath !in Names(op)
    {
      var i :| 0 <= i < n && ops[i] == op;
      assert Names(ops[i]) !! Names(ops[n]);
    }
    ApplyElsewhere(Content(p), ops[..n], x.op.stagedPath);
  }

  lemma {:induction false} ApplyElsewhere(t: Tree, ops: seq<FileOp>, q: string)
    requires ApplyAll(t, ops).Some? && forall op | op in ops :: q !in Names(op)
    ensures SameAt(t, ApplyAll(t, ops).value, q)
    decreases |ops|
  {
    if ops != [] {
      ApplyElsewhere(t, ops[..|ops| - 1], q);
      assert ops[|ops| - 1] in ops;
    }
  }

  // So a swap that changes a managed link is enough to lose agreement: stopped there
  // and rolled back, the disk keeps the new link and the database the old one.
  lemma AgreementCanBeLost(s: Root, t: Root, n: nat) returns (run: seq<Root>)
    requires AtRest(s) && Begin(s, t) && n < |t.journal.value.txn.changes|
    requires var x := t.journal.value.txn.changes[n];
      && x.op.action == Swap && Managed(s.db, x.op.finalPath)
      && x.op.finalPath in s.tree && s.tree[x.op.finalPath] != x.content
    requires DirsClear(s.tree, t.journal.value.txn)
    ensures Run(run) && run[0] == s && MidSwap(run[|run| - 1])
    ensures var e := run[|run| - 1];
      && Rebuild(e.journal.value.rows, e.tree, e.dirs).Some?
      && (forall op | op in Rebuild(e.journal.value.rows, e.tree, e.dirs).value :: Distinct(op))
      && !Agree(UndoAll(e.tree, Rebuild(e.journal.value.rows, e.tree, e.dirs).value), e.db)
  {
    hide AtRest, Begin, Run, Agree, Managed, Rebuild, MidSwap, DirsClear;
    BegunFrom(s, t);
    run := CanStopMidSwap(s, t, n);
    StoppedMidSwap(run, |run| - 1);
    MidSwapAgrees(run, |run| - 1);
  }
}
