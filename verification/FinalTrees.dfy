/** What is on the disk once a transaction is over: committed by its process, or
    completed or undone by recovery. */
module FinalTrees {
  import opened Wrappers
  import opened FileOps
  import opened Undo
  import opened Disks
  import opened Flip
  import opened Metadata
  import opened Planning
  import opened Patch
  import opened Transactions
  import opened SingleRoot
  import opened SingleRootSafety
  import opened Progress
  import opened CrossRoot
  import opened CrossRootSafety
  import opened KeptBackups

  // Every change has its content in place or its path empty, every backup is gone but
  // those to be kept, if any are, and nothing else was touched.
  ghost predicate Left(before: Tree, changes: seq<Change>, keeping: bool, t: Tree)
  {
    && (forall x | x in changes ::
          if x.op.action == Remove then x.op.finalPath !in t
          else x.op.finalPath in t && t[x.op.finalPath] == x.content)
    && (forall x | x in changes && x.op.action != Create ::
          if keeping && x.op.keepBackup
          then x.op.finalPath in before && x.op.backupPath in t && t[x.op.backupPath] == before[x.op.finalPath]
          else x.op.backupPath !in t)
    && (forall p | p !in Touched(changes) :: SameAt(before, t, p))
  }

  function Touched(changes: seq<Change>): set<string>
  {
    (set x | x in changes :: x.op.finalPath) + (set x | x in changes && x.op.action != Create :: x.op.backupPath)
  }

  // That determines the disk.
  lemma LeftOnce(before: Tree, changes: seq<Change>, keeping: bool, t: Tree, u: Tree)
    requires Left(before, changes, keeping, t) && Left(before, changes, keeping, u)
    ensures t == u
  {
    forall p
      ensures SameAt(t, u, p)
    {
      if p in Touched(changes) {
        if x :| x in changes && x.op.finalPath == p {
        } else {
          var x :| x in changes && x.op.action != Create && x.op.backupPath == p;
        }
      }
    }
    SameEverywhere(t, u);
  }

  lemma SameEverywhere(t: Tree, u: Tree)
    requires forall p :: SameAt(t, u, p)
    ensures t == u
  {
    assert forall p | p in t :: SameAt(t, u, p);
    assert forall p | p in u :: SameAt(t, u, p);
    assert t.Keys == u.Keys;
  }

  // The names that go are backups: all of them, or all but those to be kept.
  ghost predicate Clears(before: Tree, u: Tree, ops: seq<FileOp>, keeping: bool, gone: set<string>)
  {
    && (forall b | b in gone && b in u :: exists op :: op in ops && op.action != Create && op.backupPath == b)
    && (forall op | op in ops && op.action != Create && op.backupPath in u ::
          op.backupPath in gone <==> !(keeping && op.keepBackup))
    && (forall op | op in ops && op.action != Create && keeping && op.keepBackup :: op.finalPath in before)
  }

  lemma ClearedLeaves(c: Context, changes: seq<Change>, staged: Tree, u: Tree, keeping: bool, gone: set<string>)
    requires Separated(Ops(changes)) && AllPlanned(c.tree, Ops(changes)) && StagedContent(c, staged, changes)
    requires ApplyAll(staged, Ops(changes)) == Some(u) && Clears(c.tree, u, Ops(changes), keeping, gone)
    ensures Left(c.tree, changes, keeping, u - gone)
  {
    hide Separated, AllPlanned, StagedContent, ApplyAll, Flip.Done, SameAt;
    var ops, t := Ops(changes), u - gone;
    FlippedNames(c, changes, staged, u);
    forall x | x in changes
      ensures x.op in ops
    {
      var i :| 0 <= i < |changes| && changes[i] == x;
      assert ops[i] == x.op;
    }
    forall x | x in changes && x.op.finalPath in u
      ensures x.op.finalPath !in gone
    {
      if x.op.finalPath in gone {
        var op :| op in ops && op.action != Create && op.backupPath == x.op.finalPath;
        NotABackup(ops, x.op, op);
      }
    }
    forall p | p !in Touched(changes)
      ensures SameAt(c.tree, t, p)
    {
      NotGone(changes, gone, u, p, c.tree, keeping);
      SameLess(c.tree, u, gone, p);
    }
  }

  lemma SameLess(a: Tree, u: Tree, gone: set<string>, p: string)
    requires SameAt(a, u, p) && (p in u ==> p !in gone)
    ensures SameAt(a, u - gone, p)
  {
  }

  lemma NotGone(changes: seq<Change>, gone: set<string>, u: Tree, p: string, before: Tree, keeping: bool)
    requires Clears(before, u, Ops(changes), keeping, gone) && p !in Touched(changes)
    ensures p in u ==> p !in gone
  {
    forall op | op in Ops(changes) && op.action != Create
      ensures op.backupPath in Touched(changes)
    {
      var i :| 0 <= i < |changes| && Ops(changes)[i] == op;
      assert changes[i] in changes;
    }
  }

  lemma NotABackup(ops: seq<FileOp>, x: FileOp, y: FileOp)
    requires Separated(ops) && x in ops && y in ops && y.action != Create
    ensures x.finalPath != y.backupPath
  {
    var i :| 0 <= i < |ops| && ops[i] == x;
    var j :| 0 <= j < |ops| && ops[j] == y;
    assert x.finalPath in Names(ops[i]) && y.backupPath in Names(ops[j]) && Distinct(x);
  }

  // After the flip: contents, originals at the backup names, the rest as it was.
  lemma FlippedNames(c: Context, changes: seq<Change>, staged: Tree, u: Tree)
    requires Separated(Ops(changes)) && AllPlanned(c.tree, Ops(changes)) && StagedContent(c, staged, changes)
    requires ApplyAll(staged, Ops(changes)) == Some(u)
    ensures forall x | x in changes ::
              if x.op.action == Remove then x.op.finalPath !in u
              else x.op.finalPath in u && u[x.op.finalPath] == x.content
    ensures forall x | x in changes && x.op.action != Create && x.op.finalPath in c.tree ::
              x.op.backupPath in u && u[x.op.backupPath] == c.tree[x.op.finalPath]
    ensures forall p | p !in Touched(changes) :: SameAt(c.tree, u, p)
  {
    hide Separated, AllPlanned, ApplyAll, SameAt;
    var ops := Ops(changes);
    PlanStaged(c, changes, staged);
    OverStaged(c, changes, staged);
    FlipResult(c.tree, staged, ops);
    forall x | x in changes
      ensures x.op in ops && Flip.Done(c.tree, staged, u, x.op)
    {
      var i :| 0 <= i < |changes| && changes[i] == x;
      assert ops[i] == x.op;
    }
    forall p | p !in Touched(changes)
      ensures SameAt(c.tree, u, p)
    {
      if p in AllNames(ops) {
        var op :| op in ops && p in Names(op);
        var i :| 0 <= i < |ops| && ops[i] == op;
        assert changes[i] in changes && changes[i].op == op;
        StagedIsGone(c.tree, u, staged, ops, op);
        assert p == op.stagedPath;
      }
    }
  }

  lemma StagedIsGone(before: Tree, u: Tree, staged: Tree, ops: seq<FileOp>, op: FileOp)
    requires AllPlanned(before, ops) && op in ops && Flip.Done(before, staged, u, op)
    ensures op.action != Remove ==> SameAt(before, u, op.stagedPath)
  {
    assert op.action != Remove ==> op.stagedPath in Staged(op);
  }

  /** Committed by its own process. */

  // With every backup discarded that is to be.
  lemma CommitLeaves(c: Context, txn: Txn, staged: Tree, u: Tree)
    requires Sound(c) && GoodTxn(c, txn) && StagedContent(c, staged, txn.changes)
    requires ApplyAll(staged, Ops(txn.changes)) == Some(u)
    ensures Left(c.tree, txn.changes, true, u - Discardable(Ops(txn.changes)))
  {
    hide Sound, GoodTxn, StagedContent, ApplyAll, Separated, Shaped, Siblings, Reachable;
    var ops, gone := Ops(txn.changes), Discardable(Ops(txn.changes));
    GoodTxnShaped(c, txn);
    forall op | op in ops && op.action != Create
      ensures op.keepBackup ==> op.finalPath in c.tree
      ensures op.backupPath in u ==> (op.backupPath in gone <==> !op.keepBackup)
    {
      if op.keepBackup { KeptWasThere(c, txn, op); }
      BackupPinned(c, txn.changes, staged, u, op);
      if op.backupPath in gone {
        var y :| y in ops && y.action != Create && !y.keepBackup && y.pinned && y.backupPath == op.backupPath;
        OneOwner(ops, op, y);
      }
    }
    ClearedLeaves(c, txn.changes, staged, u, true, gone);
  }

  lemma BackupPinned(c: Context, changes: seq<Change>, staged: Tree, u: Tree, op: FileOp)
    requires Separated(Ops(changes)) && AllPlanned(c.tree, Ops(changes)) && StagedContent(c, staged, changes)
    requires ApplyAll(staged, Ops(changes)) == Some(u) && op in Ops(changes)
    ensures op.action != Create && op.backupPath in u ==> op.pinned
  {
    hide Separated, StagedContent, ApplyAll;
    PlanStaged(c, changes, staged);
    OverStaged(c, changes, staged);
    FlipResult(c.tree, staged, Ops(changes));
    var i :| 0 <= i < |changes| && Ops(changes)[i] == op;
    assert Flip.Done(c.tree, staged, u, Ops(changes)[i]);
    assert Planned(c.tree, op);
  }

  // One backup after the other.
  lemma {:induction false} DiscardsAll(s: Root, ds: set<string>) returns (run: seq<Root>)
    requires s.mem.Discarding? && ds <= Discardable(s.mem.ops)
    ensures run != [] && Run(run) && run[0] == s && run[|run| - 1] == s.(tree := s.tree - ds)
    decreases ds
  {
    hide Discardable;
    if ds == {} {
      assert s.tree - ds == s.tree;
      run := [s];
    } else {
      var b :| b in ds;
      var t := s.(tree := s.tree - {b});
      assert Discard(s, t);
      var more := DiscardsAll(t, ds - {b});
      assert t.tree - (ds - {b}) == s.tree - ds;
      run := [s] + more;
      OneBefore(s, more);
    }
  }

  lemma OneBefore(s: Root, more: seq<Root>)
    requires more != [] && Run(more) && Next(s, more[0])
    ensures Run([s] + more)
  {
    hide Next;
    var run := [s] + more;
    forall i | 0 <= i < |run| - 1
      ensures Next(run[i], run[i + 1])
    {
      if i > 0 { assert run[i] == more[i - 1] && run[i + 1] == more[i]; }
    }
  }

  lemma RunsJoined(a: seq<Root>, b: seq<Root>)
    requires a != [] && b != [] && Run(a) && Run(b) && Next(a[|a| - 1], b[0])
    ensures Run(a + b)
  {
    hide Next;
    var run := a + b;
    forall i | 0 <= i < |run| - 1
      ensures Next(run[i], run[i + 1])
    {
      if i < |a| - 1 {
        assert run[i] == a[i] && run[i + 1] == a[i + 1];
      } else if i > |a| - 1 {
        assert run[i] == b[i - |a|] && run[i + 1] == b[i + 1 - |a|];
      }
    }
  }

  // What is planned, with its listed directories clear and rows the database takes,
  // can run to rest: its rows are written, and the disk holds its changes, the
  // originals it was to keep, and nothing else that is new.
  lemma TransactionCompletes(s: Root, t: Root) returns (run: seq<Root>)
    requires AtRest(s) && Begin(s, t) && DirsClear(s.tree, t.journal.value.txn)
    requires Commit(s.db, t.journal.value.txn.staged, t.journal.value.txn.work).Some?
    ensures run != [] && Run(run) && run[0] == s
    ensures var e, p := run[|run| - 1], t.journal.value;
      && AtRest(e) && Commit(s.db, p.txn.staged, p.txn.work) == Some(e.db)
      && Left(s.tree, p.txn.changes, true, e.tree)
  {
    hide AtRest, Begin, Next, DirsClear, Commit, Left, ApplyAll, Discardable;
    SameTree(s, t);
    var p := t.journal.value;
    var n := |PendingOps(p)|;
    var first := EveryTransactionRuns(s, t, n);
    var d := Committed(s, t);
    var last := DiscardsAll(d, Discardable(d.mem.ops));
    RunsJoined(first, last);
    var e := last[|last| - 1].(mem := Idle);
    Finished(last[|last| - 1], e);
    RunsJoined(first + last, [e]);
    run := first + last + [e];
    RunKeepsInv(run, |run| - 1);
    Rests(e);
  }

  lemma Finished(s: Root, e: Root)
    requires s.mem.Discarding? && e == s.(mem := Idle)
    ensures Next(s, e)
  {
    assert SingleRoot.Done(s, e);
  }

  lemma Rests(e: Root)
    requires Inv(e) && e.mem == Idle && e.journal == None
    ensures AtRest(e)
  {
    hide SoundDb, Agree, NoFuture, InDirs;
  }

  lemma Committed(s: Root, t: Root) returns (d: Root)
    requires AtRest(s) && Begin(s, t) && Commit(s.db, t.journal.value.txn.staged, t.journal.value.txn.work).Some?
    ensures var p := t.journal.value; var n := |PendingOps(p)|;
      && ApplyAll(Content(p), PendingOps(p)[..n]).Some?
      && Next(Reached(t, n), d) && d.mem.Discarding? && d.journal == None
      && Commit(s.db, p.txn.staged, p.txn.work) == Some(d.db)
      && Left(s.tree, p.txn.changes, true, d.tree - Discardable(d.mem.ops))
  {
    hide Inv, GoodTxn, Commit, Discardable, Left, Sound, NoFuture, CreatedFor, StagedContent, ApplyAll, AtRest;
    RestIsInv(s);
    var p := t.journal.value;
    var n := |PendingOps(p)|;
    Flips(s, t, n);
    AtBeginning(s, t);
    assert PendingOps(p)[..n] == PendingOps(p);
    d := Closed(t, n);
    assert CommitDb(Reached(t, n), d);
    CommitLeaves(PlanContext(t.db, p), p.txn, Content(p), d.tree);
  }

  /** Completed by recovery. */

  // Every backup goes, whatever was to be kept: nothing is left at the backup name of
  // any operation, every other path is as it was before recovery, and the disk is the
  // prior one with the changes of the plan.
  lemma RecoveryLeaves(a: Part)
    requires PartInv(a) && Standing(a) && a.root.mem == Idle && Settled(a, true).Some?
    ensures var p, t := a.root.journal.value, Settled(a, true).value.root.tree;
      && (forall op | op in PendingOps(p) && op.action != Create :: op.backupPath !in t)
      && (forall q | (forall op | op in PendingOps(p) && op.action != Create :: op.backupPath != q) ::
            SameAt(a.root.tree, t, q))
      && Left(p.before, p.txn.changes, false, t)
  {
    hide PartInv, Standing, Separated, Discardable, Rebuilt, Left, StagedContent, ApplyAll, Settled, Sound, GoodTxn;
    hide AllPlanned;
    var p, staged := StandingStaged(a);
    BackupsGo(a, p, staged);
    SettledTree(a);
    ClearedLeaves(PlanContext(a.root.db, p), p.txn.changes, staged, a.root.tree, false, Discardable(Rebuilt(a.root)));
  }

  // Recovery discards every backup that is there, and nothing else that is.
  lemma BackupsGo(a: Part, p: Pending, staged: Tree)
    requires PartInv(a) && Standing(a) && a.root.mem == Idle && a.root.journal == Some(p)
    requires StagedContent(PlanContext(a.root.db, p), staged, p.txn.changes)
    requires ApplyAll(staged, PendingOps(p)) == Some(a.root.tree)
    requires Separated(PendingOps(p)) && AllPlanned(p.before, PendingOps(p))
    ensures Clears(p.before, a.root.tree, PendingOps(p), false, Discardable(Rebuilt(a.root)))
  {
    hide PartInv, Standing, Separated, FromJournal, Discardable, Rebuilt, KeptNames, StagedContent, ApplyAll;
    hide AllPlanned;
    var ops, u, gone := PendingOps(p), a.root.tree, Discardable(Rebuilt(a.root));
    RebuiltIs(a, p);
    forall op | op in ops && op.action != Create && op.backupPath in u
      ensures op.backupPath in gone
    {
      DiscardedHere(a, op.backupPath);
      BackupPinned(PlanContext(a.root.db, p), p.txn.changes, staged, u, op);
      Backed(ops, op);
    }
    forall b | b in gone && b in u
      ensures exists op :: op in ops && op.action != Create && op.backupPath == b
    {
      DiscardedHere(a, b);
      var op := BackedBy(ops, b);
    }
  }

  lemma SettledTree(a: Part)
    requires a.row == Pended && a.root.journal.Some? && Settled(a, true).Some?
    ensures Settled(a, true).value.root.tree == a.root.tree - Discardable(Rebuilt(a.root))
  {
    hide Discardable, Rebuilt, Replay;
  }

  lemma StandingStaged(a: Part) returns (p: Pending, staged: Tree)
    requires PartInv(a) && Standing(a)
    ensures a.row == Pended && a.root.journal == Some(p)
    ensures Sound(PlanContext(a.root.db, p)) && GoodTxn(PlanContext(a.root.db, p), p.txn)
    ensures StagedContent(PlanContext(a.root.db, p), staged, p.txn.changes)
    ensures ApplyAll(staged, PendingOps(p)) == Some(a.root.tree)
    ensures Separated(PendingOps(p)) && AllPlanned(p.before, PendingOps(p))
  {
    hide Inv, StagedContent, ApplyAll, GoodTxn, Sound, PayloadFor, Separated, AllPlanned, Shaped, Reachable, Siblings;
    p := a.root.journal.value;
    SoundPending(a.root, p);
    staged :| StagedContent(PlanContext(a.root.db, p), staged, p.txn.changes)
              && ApplyAll(staged, PendingOps(p)) == Some(a.root.tree);
    GoodTxnShaped(PlanContext(a.root.db, p), p.txn);
  }

  // What the participant's own commit leaves on the disk, once its backups are
  // discarded.
  function LiveTree(a: Part): Tree
    requires a.root.journal.Some?
  {
    a.root.tree - Discardable(PendingOps(a.root.journal.value))
  }

  lemma LiveLeaves(a: Part)
    requires PartInv(a) && Standing(a)
    ensures var p := a.root.journal.value; Left(p.before, p.txn.changes, true, LiveTree(a))
  {
    hide PartInv, Standing, Sound, GoodTxn, StagedContent, ApplyAll, Left, Discardable;
    var p, staged := StandingStaged(a);
    CommitLeaves(PlanContext(a.root.db, p), p.txn, staged, a.root.tree);
  }

  // Completed by recovery, a participant's disk is what its own commit would have
  // left, less the backups that were to be kept. Each of them would have been there,
  // with the original in it.
  lemma RollForwardLoses(a: Part)
    requires PartInv(a) && Standing(a) && a.root.mem == Idle && Settled(a, true).Some?
    ensures var p, t := a.root.journal.value, Settled(a, true).value.root.tree;
      && t == LiveTree(a) - KeptNames(PendingOps(p)) && KeptNames(PendingOps(p)) <= LiveTree(a).Keys
      && (forall op | op in PendingOps(p) && op.action != Create && op.keepBackup ::
            op.finalPath in p.before && op.backupPath in LiveTree(a)
            && LiveTree(a)[op.backupPath] == p.before[op.finalPath] && op.backupPath !in t)
  {
    hide PartInv, Standing, Separated, FromJournal, Discardable, Rebuilt, KeptNames, LiveTree, Left;
    hide Sound, GoodTxn, StagedContent, ApplyAll, AllPlanned;
    var p, staged := StandingStaged(a);
    var ops, t, live := PendingOps(p), Settled(a, true).value.root.tree, LiveTree(a);
    RecoveryLeaves(a);
    LiveLeaves(a);
    KeptInBoth(a, p, t, live);
    SettledTree(a);
    forall b | b in a.root.tree
      ensures b in Discardable(Rebuilt(a.root)) <==> b in Discardable(ops) + KeptNames(ops)
    {
      RebuiltIs(a, p);
      DiscardedHere(a, b);
    }
    assert live == a.root.tree - Discardable(ops) by { LiveIs(a); }
    LessTwice(a.root.tree, Discardable(ops), KeptNames(ops), Discardable(Rebuilt(a.root)));
  }

  lemma LiveIs(a: Part)
    requires a.root.journal.Some?
    ensures LiveTree(a) == a.root.tree - Discardable(PendingOps(a.root.journal.value))
  {
    hide Discardable;
  }

  lemma LessTwice(t: Tree, x: set<string>, y: set<string>, z: set<string>)
    requires forall b | b in t :: b in z <==> b in x + y
    ensures t - z == t - x - y
  {
    assert (t - z).Keys == (t - x - y).Keys;
  }

  lemma KeptInBoth(a: Part, p: Pending, t: Tree, live: Tree)
    requires Left(p.before, p.txn.changes, false, t) && Left(p.before, p.txn.changes, true, live)
    ensures KeptNames(PendingOps(p)) <= live.Keys
    ensures forall op | op in PendingOps(p) && op.action != Create && op.keepBackup ::
              op.finalPath in p.before && op.backupPath in live
              && live[op.backupPath] == p.before[op.finalPath] && op.backupPath !in t
  {
    var ops := PendingOps(p);
    forall op | op in ops && op.action != Create && op.keepBackup
      ensures op.finalPath in p.before && op.backupPath in live
              && live[op.backupPath] == p.before[op.finalPath] && op.backupPath !in t
    {
      var i :| 0 <= i < |ops| && ops[i] == op;
      assert p.txn.changes[i] in p.txn.changes;
    }
  }

  // The two disks are the same exactly when the plan displaced nothing unowned.
  lemma RollForwardKeepsExactly(a: Part)
    requires PartInv(a) && Standing(a) && a.root.mem == Idle && Settled(a, true).Some?
    ensures var p := a.root.journal.value;
      Settled(a, true).value.root.tree == LiveTree(a) <==>
      forall x | x in p.txn.changes :: !Displaces(PlanContext(a.root.db, p), x)
  {
    hide PartInv, Standing, GoodTxn, Sound, KeptNames, Displaces, LiveTree, StagedContent, ApplyAll;
    var p, staged := StandingStaged(a);
    var kept := KeptNames(PendingOps(p));
    RollForwardLoses(a);
    NothingKept(PlanContext(a.root.db, p), p.txn);
    if b :| b in kept {
      assert b in LiveTree(a) && b !in LiveTree(a) - kept;
    } else {
      assert LiveTree(a) - kept == LiveTree(a);
    }
  }

  // A recovery that reaches every participant and finishes leaves, on every disk that
  // was pending, the plan and no backup if one had committed, and the prior tree if
  // none had.
  lemma RecoveredDisks(run: seq<World>, k: nat, after: seq<Part>, reach: set<nat>, i: nat)
    requires CrossRun(run) && k < |run| && Quiescent(run[k]) && Reconciled(run[k].parts, reach, after)
    requires (forall j | 0 <= j < |run[k].parts| :: j in reach) && i < |run[k].parts| && run[k].parts[i].row == Pended
    ensures run[k].parts[i].root.journal.Some?
    ensures var p, t := run[k].parts[i].root.journal.value, after[i].root.tree;
      if SomeCommitted(run[k]) then
        && Left(p.before, p.txn.changes, false, t)
        && (forall op | op in PendingOps(p) && op.action != Create :: op.backupPath !in t)
        && (forall q | (forall op | op in PendingOps(p) && op.action != Create :: op.backupPath != q) ::
              SameAt(run[k].parts[i].root.tree, t, q))
      else t == p.before
  {
    hide CrossRun, PartInv, Settled, AtRest, OwnCommit, Left, SameAt, FullyApplied;
    CrossRunKeepsInv(run, k);
    RecoveryIsTotal(run, k, after, reach, i);
    var a := run[k].parts[i];
    assert SeesCommit(run[k].parts, reach) <==> SomeCommitted(run[k]);
    assert Settled(a, SeesCommit(run[k].parts, reach)) == Some(after[i]);
    if SomeCommitted(run[k]) {
      assert Standing(a);
      RecoveryLeaves(a);
    }
  }
}
