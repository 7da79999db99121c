/** Directories that payloads list where something else stands. The plan is accepted,
    staging refuses it, and neither the rollback nor any recovery can close it. */
module DirectoryEntries {
  import opened Wrappers
  import opened FileOps
  import opened Lookups
  import opened CreatedDirs
  import opened Undo
  import opened Planning
  import opened Patch
  import opened Transactions
  import opened SingleRoot
  import opened SingleRootSafety
  import opened Progress

  lemma AboveAbove(p: string, d: string, q: string)
    requires Above(p, d) && (d == q || Above(d, q))
    ensures Above(p, q)
  {
  }

  lemma BlockedFurther(t: Tree, d: string, q: string)
    requires Blocked(t, d) && Above(d, q)
    ensures Obstructed(t, q) && Blocked(t, q)
  {
    hide Above;
    if p :| p in t && Above(p, d) { AboveAbove(p, d, q); }
  }

  // What the process has noted can be cleaned up exactly when the directories its
  // payloads list are clear: the way to a file it installs never is blocked.
  lemma NotedExactly(c: Context, txn: Txn, created: seq<string>)
    requires GoodTxn(c, txn) && CreatedFor(c, txn, created)
    ensures (forall d | d in created :: !Blocked(c.tree, d)) <==> DirsClear(c.tree, txn)
  {
    hide GoodTxn, Blocked, Above, DirRows;
    if DirsClear(c.tree, txn) {
      forall d | d in created
        ensures !Blocked(c.tree, d)
      {
        NotedIsClear(c, txn, created, d);
      }
    }
  }

  lemma NotedIsClear(c: Context, txn: Txn, created: seq<string>, d: string)
    requires GoodTxn(c, txn) && CreatedFor(c, txn, created) && DirsClear(c.tree, txn) && d in created
    ensures !Blocked(c.tree, d)
  {
    hide GoodTxn, Above, Obstructed, DirRows, Blocked;
    if e :| e in DirRows(txn.staged) && (d == e || Above(d, e)) {
      if Blocked(c.tree, d) && d != e { BlockedFurther(c.tree, d, e); }
    } else {
      var op :| op in Ops(txn.changes) && op.action != Remove && Above(d, op.finalPath);
      GoodTxnUnobstructed(c, txn, op);
      if Blocked(c.tree, d) { BlockedFurther(c.tree, d, op.finalPath); }
    }
  }

  /** Recovery. */

  // With its journal complete, a pending transaction can be rolled back and closed
  // exactly when the directories its payloads list are clear.
  lemma RecoveryCloses(run: seq<Root>, i: nat)
    requires Run(run) && AtRest(run[0]) && i < |run| && run[i].mem == Idle && run[i].journal.Some?
    requires var p := run[i].journal.value;
      Journalled(p) && Rooted(p.created) && Solid(p.before, run[i].dirs)
    ensures var s := run[i]; var p := s.journal.value;
      CloseRolledBack(s.(tree := p.before, mem := Recovering), s.(tree := p.before, journal := None)) <==>
      DirsClear(p.before, p.txn)
  {
    hide Run, AtRest, CloseRolledBack, DirsClear, Blocked, Solid, CleansUp, CreatedFor, GoodTxn, Sound, Rooted;
    hide NamesPast, Undoable, SoundDb, NoFuture, InDirs;
    RunKeepsInv(run, i);
    var s := run[i];
    var p := s.journal.value;
    RecoveryReachesRest(run, i);
    CleansUpExactly(p.before, s.dirs, p.dirRows);
    if p.txn == NO_TXN && p.dirRows == [] {
      NothingListed(p.before);
    } else {
      NotedExactly(PlanContext(s.db, p), p.txn, p.created);
    }
  }

  lemma NothingListed(t: Tree)
    ensures DirsClear(t, NO_TXN)
  {
  }

  // Pending, its journal complete, a listed directory blocked.
  ghost predicate Doomed(s: Root, p: Pending)
  {
    && s.journal == Some(p) && Journalled(p) && !DirsClear(p.before, p.txn) && Rooted(p.created)
    && GoodTxn(PlanContext(s.db, p), p.txn) && CreatedFor(PlanContext(s.db, p), p.txn, p.created)
  }

  lemma NotClosed(s: Root, t: Root, p: Pending)
    requires Inv(s) && Doomed(s, p) && Solid(s.tree, s.dirs)
    ensures !CloseRolledBack(s, t)
  {
    hide DirsClear, Blocked, Solid, CreatedFor, GoodTxn, Sound, Rooted, NamesPast, Undoable, SoundDb, NoFuture, InDirs;
    hide Undoing, UndoAll, CleansUp;
    if CloseRolledBack(s, t) {
      UndoingRestores(s, p);
      assert s.tree == p.before && ToClean(s) == p.created;
      CleansUpExactly(s.tree, s.dirs, p.created);
      NotedExactly(PlanContext(s.db, p), p.txn, p.created);
    }
  }

  // No step gets such a transaction out of the journal.
  lemma DoomedStays(s: Root, t: Root, p: Pending)
    requires Inv(s) && Doomed(s, p) && Solid(s.tree, s.dirs) && Next(s, t)
    ensures Doomed(t, p)
  {
    hide Inv, DirsClear, CreatedFor, GoodTxn, Solid, Rooted, CloseRolledBack;
    NotClosed(s, t, p);
    if s.mem.Applying? { ApplyingIsClear(s); }
    assert s.mem == Journalling ==> |p.rows| == |PendingOps(p)|;
    hide UndoEffect, RollbackStep, Rebuild, StagedContent, DirsMade;
    assert t.journal == Some(p) && t.db == s.db;
  }

  // Once the journal is complete, a transaction with a blocked directory stays pending
  // under any further failures, crashes and recoveries, on any real disk.
  lemma {:induction false} BlockedForGood(run: seq<Root>, k: nat, m: nat)
    requires Run(run) && AtRest(run[0]) && k <= m < |run| && run[k].journal.Some?
    requires forall i | k <= i <= m :: Solid(run[i].tree, run[i].dirs)
    requires Doomed(run[k], run[k].journal.value)
    ensures run[m].journal == run[k].journal && Doomed(run[m], run[k].journal.value)
  {
    hide Doomed, Solid, AtRest, Next, Run, Inv;
    if k == m {
    } else {
      BlockedForGood(run, k, m - 1);
      RunKeepsInv(run, m - 1);
      OneStep(run, m - 1);
      DoomedStays(run[m - 1], run[m], run[k].journal.value);
    }
    assert run[m].journal == run[k].journal by { DoomedIs(run[m], run[k].journal.value); }
  }

  lemma OneStep(run: seq<Root>, i: nat)
    requires Run(run) && i + 1 < |run|
    ensures Next(run[i], run[i + 1])
  {
    hide Next;
  }

  lemma DoomedIs(s: Root, p: Pending)
    requires Doomed(s, p)
    ensures s.journal == Some(p)
  {
  }

  // And every planned transaction with a blocked directory has a run to that point.
  lemma BlockedIsReached(s: Root, t: Root) returns (run: seq<Root>)
    requires AtRest(s) && Begin(s, t) && !DirsClear(s.tree, t.journal.value.txn) && Rooted(t.journal.value.created)
    ensures run != [] && Run(run) && run[0] == s
    ensures var e := run[|run| - 1];
      && e.mem == Idle && e.tree == s.tree && e.dirs == t.dirs && e.journal == Recorded(t).journal
      && e.journal.Some? && Doomed(e, e.journal.value)
  {
    hide AtRest, Begin, Next, DirsClear, Rooted, Proceeds;
    SameTree(s, t);
    var first := RecordsBegun(s, t);
    var e := RecordedAndGone(s, t);
    FirstStep(s, t);
    run := [s] + first + [e];
    forall i | 0 <= i < |run| - 1
      ensures Next(run[i], run[i + 1])
    {
      if 0 < i < |first| { OwnStep(first[i - 1], first[i]); }
    }
  }

  lemma RecordedAndGone(s: Root, t: Root) returns (e: Root)
    requires Begin(s, t) && !DirsClear(s.tree, t.journal.value.txn) && Rooted(t.journal.value.created)
    ensures Next(Recorded(t), e) && e.mem == Idle && e.tree == s.tree && e.dirs == t.dirs
    ensures e.journal == Recorded(t).journal && e.journal.Some? && Doomed(e, e.journal.value)
  {
    hide GoodTxn, DirsClear, CreatedFor, Rooted;
    e := Recorded(t).(mem := Idle);
    assert Crash(Recorded(t), e);
    assert PlanContext(e.db, e.journal.value) == PlanContext(s.db, t.journal.value);
  }
}
