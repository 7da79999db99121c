/** Every step keeps the single-root invariant. */
module SingleRootSafety {
  import opened Wrappers
  import opened TempNames
  import opened FileOps
  import opened Lookups
  import opened CreatedDirs
  import opened Undo
  import opened Disks
  import opened Tables
  import opened Claims
  import opened Metadata
  import opened ClaimTables
  import opened RowsAfter
  import opened Upgrade
  import opened Committable
  import opened Planning
  import opened Patch
  import opened Transactions
  import opened SingleRoot

  lemma PendingShaped(s: Root, p: Pending)
    requires s.journal == Some(p) && PendingInv(s, p)
    ensures Separated(PendingOps(p)) && AllPlanned(p.before, PendingOps(p))
    ensures forall op | op in PendingOps(p) :: Siblings(op) && Distinct(op)
  {
    hide GoodTxn, Sound, NamesPast, ApplyingInv, Shaped, Reachable;
    BegunShaped(PlanContext(s.db, p), p.txn);
  }

  lemma BegunShaped(c: Context, txn: Txn)
    requires Sound(c) && Begun(c, txn)
    ensures Separated(Ops(txn.changes)) && AllPlanned(c.tree, Ops(txn.changes))
    ensures forall op | op in Ops(txn.changes) :: Siblings(op) && Distinct(op)
    ensures Reachable(c.tree, Ops(txn.changes))
  {
    hide GoodTxn, Sound, Shaped, Reachable;
    if GoodTxn(c, txn) {
      GoodTxnShaped(c, txn);
    } else {
      assert Ops(txn.changes) == [];
      NothingReachable(c.tree);
    }
  }

  lemma NothingReachable(before: Tree)
    ensures Reachable(before, [])
  {
  }

  // New names are siblings of old ones and carry no id to come.
  lemma TreeStep(s: Tree, t: Tree, op: FileOp, ops: seq<FileOp>, dirs: set<string>, n: nat)
    requires op in ops && Siblings(op) && NamesPast(ops, n) && InDirs(s, dirs) && NoFuture(s, n)
    requires t.Keys <= s.Keys + Names(op)
    requires Dir(op.finalPath) in dirs || t.Keys <= s.Keys
    ensures InDirs(t, dirs) && NoFuture(t, n)
  {
    hide Dir, Carries, Names;
  }

  lemma InTreeHasDir(t: Tree, op: FileOp, p: string, dirs: set<string>)
    requires Siblings(op) && InDirs(t, dirs) && p in Names(op) && p in t
    ensures Dir(op.finalPath) in dirs
  {
    hide Dir;
  }

  lemma BeginKeeps(s: Root, t: Root)
    requires Inv(s) && Begin(s, t)
    ensures Inv(t)
  {
    hide GoodTxn, Agree, SoundDb, Dir, Separated, AllPlanned, NoFuture, Sound, Shaped, Reachable, CreatedFor, Siblings;
    hide NamesPast, Undoable;
    var p := t.journal.value;
    var c := PlanContext(s.db, p);
    BeginSound(s, p);
    GoodTxnShaped(c, p.txn);
    StagingIsUndoable(p.before, s.tree, PendingOps(p));
    BeginNames(c, PendingOps(p), t.nextId);
    LaterId(s.tree, s.nextId);
    assert PendingOps(p)[..0] == [] && p.rows == Rows(PendingOps(p)[..0]) && p.dirRows == p.created[..0];
  }

  lemma RefuseKeeps(s: Root, t: Root)
    requires Inv(s) && Refuse(s, t)
    ensures Inv(t)
  {
    hide GoodTxn, Agree, SoundDb, Dir, Separated, AllPlanned, NoFuture;
    var p := t.journal.value;
    BeginSound(s, p);
    assert PendingOps(p) == [] && p.rows == Rows(PendingOps(p)[..|p.rows|]) && p.dirRows == p.created[..0];
    StagingIsUndoable(s.tree, s.tree, []);
    assert NoFuture(t.tree, t.nextId) by { LaterId(s.tree, s.nextId); }
  }

  lemma LaterId(t: Tree, n: nat)
    requires NoFuture(t, n)
    ensures NoFuture(t, n + 1)
  {
    hide Carries;
  }

  lemma BeginSound(s: Root, p: Pending)
    requires Inv(s) && s.journal == None
    requires p.id == s.nextId && p.before == s.tree && p.dirsBefore == s.dirs
    ensures Sound(PlanContext(s.db, p))
  {
    hide Carries, Dir;
  }

  lemma BeginNames(c: Context, ops: seq<FileOp>, n: nat)
    requires c.id < n && forall op | op in ops :: Shaped(c, op)
    requires forall op, i: TxnId | op in ops && Carries(op.finalPath, i) :: i <= c.id
    ensures NamesPast(ops, n)
  {
    hide Carries, Shaped, Names;
    forall op, p, i: TxnId | op in ops && p in Names(op) && Carries(p, i)
      ensures i < n
    {
      ShapedNames(c, op);
      if p != op.finalPath {
        CarriesOneId(p, i, c.id);
      }
    }
  }

  lemma RecordKeeps(s: Root, t: Root)
    requires Inv(s) && Record(s, t)
    ensures Inv(t)
  {
    hide GoodTxn, Sound, SoundDb, NoFuture, NamesPast, InDirs, Undoable;
    var p, q := s.journal.value, t.journal.value;
    var n := |p.rows|;
    assert PendingOps(p)[..n + 1] == PendingOps(p)[..n] + [PendingOps(p)[n]];
    assert q.rows == Rows(PendingOps(p)[..n + 1]);
    assert PlanContext(t.db, q) == PlanContext(s.db, p);
  }

  lemma RecordDirKeeps(s: Root, t: Root)
    requires Inv(s) && RecordDir(s, t)
    ensures Inv(t)
  {
    hide GoodTxn, Sound, SoundDb, NoFuture, NamesPast, InDirs, Undoable, CreatedFor;
    var p, q := s.journal.value, t.journal.value;
    var n := |p.dirRows|;
    assert p.created[..n + 1] == p.created[..n] + [p.created[n]];
    assert PlanContext(t.db, q) == PlanContext(s.db, p) && PendingOps(q) == PendingOps(p);
  }

  lemma MakeDirsKeeps(s: Root, t: Root)
    requires Inv(s) && MakeDirs(s, t)
    ensures Inv(t)
  {
    hide GoodTxn, Sound, SoundDb, NoFuture, NamesPast, Undoable, CreatedFor, Dir, Blocked;
  }

  lemma StartStagingKeeps(s: Root, t: Root)
    requires Inv(s) && StartStaging(s, t)
    ensures Inv(t)
  {
    hide GoodTxn, Sound, SoundDb, NoFuture, NamesPast, InDirs, Undoable;
  }

  lemma StageWriteKeeps(s: Root, t: Root)
    requires Inv(s) && StageWrite(s, t)
    ensures Inv(t)
  {
    hide GoodTxn, Sound, SoundDb, NoFuture, NamesPast, InDirs, Undoable, Separated, AllPlanned, Dir, Siblings;
    var p := s.journal.value;
    var ops := PendingOps(p);
    PendingShaped(s, p);
    var x :| x in AllStaged(ops) && x in t.tree && t == s.(tree := s.tree[x := t.tree[x]]);
    var op :| op in ops && x in Staged(op);
    TreeStep(s.tree, t.tree, op, ops, s.dirs, s.nextId);
    StagingIsUndoable(p.before, t.tree, ops);
  }

  lemma StartApplyingKeeps(s: Root, t: Root)
    requires Inv(s) && StartApplying(s, t)
    ensures Inv(t)
  {
    hide GoodTxn, Sound, SoundDb, NoFuture, NamesPast, InDirs, Undoable, StagedContent, Blocked, CreatedFor;
    var p := s.journal.value;
    assert PendingOps(p)[..0] == [];
    PendingShaped(s, p);
    forall d | d in DirRows(p.txn.staged)
      ensures !Blocked(p.before, d)
    {
      StagingKeepsAll(p.before, s.tree, PendingOps(p));
      FewerBlock(p.before, s.tree, d);
    }
  }

  // Staging takes nothing away.
  lemma StagingKeepsAll(before: Tree, now: Tree, ops: seq<FileOp>)
    requires AllPlanned(before, ops) && StagedOver(before, now, ops)
    ensures before.Keys <= now.Keys
  {
    forall p | p in before
      ensures p !in AllStaged(ops)
    {
      assert forall op | op in ops :: Planned(before, op);
    }
    assert forall p | p in before :: SameAt(before, now, p);
  }

  lemma FewerBlock(before: Tree, now: Tree, d: string)
    requires before.Keys <= now.Keys
    ensures Blocked(before, d) ==> Blocked(now, d)
  {
    hide Above;
  }

  // The trees of the flip, and the operations not begun.
  lemma ApplyingPrefix(s: Root, p: Pending)
    requires s.journal == Some(p) && PendingInv(s, p) && s.mem.Applying?
    ensures var u := ApplyAll(s.mem.staged, PendingOps(p)[..s.mem.done]).value;
      Undoable(p.before, u, PendingOps(p)) && InPlaceFrom(u, PendingOps(p), s.mem.done)
  {
    hide GoodTxn, Sound, NamesPast, Separated, AllPlanned, Undoable, InPlaceFrom, StagedOver, Ready;
    PendingShaped(s, p);
    PrefixKeeps(p.before, s.mem.staged, PendingOps(p), s.mem.done);
  }

  lemma ApplyOneKeeps(s: Root, t: Root)
    requires Inv(s) && ApplyOne(s, t)
    ensures Inv(t)
  {
    hide GoodTxn, Sound, SoundDb, NoFuture, NamesPast, InDirs;
    hide Undoable, Separated, AllPlanned, Dir, Siblings, StagedContent;
    var p := s.journal.value;
    var ops, k := PendingOps(p), s.mem.done;
    PendingShaped(s, p);
    ApplyingPrefix(s, p);
    ApplyKeeps(p.before, s.tree, ops, k);
    assert ops[..k + 1][..k] == ops[..k];
    assert ops[k] in ops;
    RenameInDirs(s.tree, t.tree, ops[k], ops, s.dirs, s.nextId);
  }

  lemma RenameInDirs(s: Tree, t: Tree, op: FileOp, ops: seq<FileOp>, dirs: set<string>, n: nat)
    requires op in ops && Siblings(op) && NamesPast(ops, n) && InDirs(s, dirs) && NoFuture(s, n)
    requires t.Keys <= s.Keys + Names(op)
    requires t.Keys <= s.Keys || exists p | p in Names(op) :: p in s
    ensures InDirs(t, dirs) && NoFuture(t, n)
  {
    hide Dir, Siblings, NamesPast, InDirs, NoFuture;
    if p :| p in Names(op) && p in s {
      InTreeHasDir(s, op, p, dirs);
    }
    TreeStep(s, t, op, ops, dirs, n);
  }

  lemma ApplyFirstKeeps(s: Root, t: Root)
    requires Inv(s) && ApplyFirst(s, t)
    ensures Inv(t)
  {
    hide GoodTxn, Sound, SoundDb, NoFuture, NamesPast, InDirs;
    hide Undoable, Separated, AllPlanned, Dir, Siblings, StagedContent;
    var p := s.journal.value;
    var ops, k := PendingOps(p), s.mem.done;
    PendingShaped(s, p);
    ApplyingPrefix(s, p);
    if ops[k].action == Replace {
      HalfwayKeeps(p.before, s.tree, ops, k);
    }
    assert ops[k] in ops && ops[k].finalPath in Names(ops[k]);
    RenameInDirs(s.tree, t.tree, ops[k], ops, s.dirs, s.nextId);
  }

  lemma SecondCompletes(u: Tree, op: FileOp)
    requires CanStart(u, op) && Distinct(op) && op.stagedPath in Halfway(u, op)
    ensures Ready(u, op)
    ensures Applied(u, op) ==
            Move(Halfway(u, op), op.stagedPath, if op.action == Swap then op.backupPath else op.finalPath)
  {
  }

  lemma ApplySecondKeeps(s: Root, t: Root)
    requires Inv(s) && ApplySecond(s, t)
    ensures Inv(t)
  {
    hide GoodTxn, Sound, SoundDb, NoFuture, NamesPast, InDirs, Undoable;
    hide Separated, AllPlanned, Dir, Siblings, StagedContent, Applied, Halfway;
    var p := s.journal.value;
    var ops, k := PendingOps(p), s.mem.done;
    var u := ApplyAll(s.mem.staged, ops[..k]).value;
    PendingShaped(s, p);
    ApplyingPrefix(s, p);
    assert ops[k] in ops;
    SecondCompletes(u, ops[k]);
    ApplyKeeps(p.before, u, ops, k);
    assert ops[..k + 1][..k] == ops[..k];
    assert ops[k].stagedPath in Names(ops[k]);
    RenameInDirs(s.tree, t.tree, ops[k], ops, s.dirs, s.nextId);
  }

  /** Commit and what follows it. */

  // What the new database manages never has a temporary name of the transaction.
  lemma ManagedIsNotTemp(c: Context, txn: Txn, p: string)
    requires Sound(c) && GoodTxn(c, txn) && Commit(c.db, txn.staged, txn.work).Some?
    requires Managed(Commit(c.db, txn.staged, txn.work).value, p)
    ensures !Carries(p, c.id)
  {
    hide Carries, Commit, WorkFor, IsDesired, HoldersFor, InstalledIs, InstalledAfter, Accepted, IsChange, TempPath;
    hide KindsApart, RowsCommit, JournalAccepts, RowsAre;
    var plan, installed, post, desired :| Transacts(c, plan, installed, post, desired, txn);
    CommitIsExact(c, plan, installed, post, desired, txn);
    StagedRowsNamed(plan);
    var after := Commit(c.db, txn.staged, txn.work).value;
    if p in after.links {
    } else {
      var k :| k in after.files && k.1 == p && !after.files[k].DirRow?;
      RowFrom(c.db, txn.staged, after, k);
      if k.0 in PlanNames(plan) {
        var q, e := BroughtByPlan(plan, k, after.files[k]);
      }
    }
  }

  lemma DiscardableIsTemp(c: Context, txn: Txn, p: string)
    requires Sound(c) && GoodTxn(c, txn) && p in Discardable(Ops(txn.changes))
    ensures Carries(p, c.id)
  {
    hide Carries, Sound, GoodTxn, Shaped;
    GoodTxnShaped(c, txn);
    var op :| op in Ops(txn.changes) && op.action != Create && !op.keepBackup && op.pinned && p == op.backupPath;
    ShapedNames(c, op);
    assert Distinct(op) && p in Names(op);
  }

  lemma CommitDbKeeps(s: Root, t: Root)
    requires Inv(s) && CommitDb(s, t)
    ensures Inv(t)
  {
    hide NoFuture, NamesPast, InDirs, Undoable, StagedContent, Agree;
    hide SoundDb, Sound, Managed, Discardable, Commit, GoodTxn;
    var p := s.journal.value;
    var c, ops := PlanContext(s.db, p), PendingOps(p);
    assert ops[..|ops|] == ops;
    TransactionIsSound(c, p.txn, s.mem.staged);
    forall q | Managed(t.db, q)
      ensures q !in Discardable(ops)
    {
      ManagedIsNotTemp(c, p.txn, q);
      if q in Discardable(ops) { DiscardableIsTemp(c, p.txn, q); }
    }
  }

  // A tree that keeps every managed path still matches the rows.
  lemma AgreeKept(a: Tree, b: Tree, db: Db)
    requires Agree(a, db) && forall p | Managed(db, p) :: SameAt(a, b, p)
    ensures Agree(b, db)
  {
    hide LinkEntry;
    forall k | k in db.files && !db.files[k].DirRow?
      ensures k.1 in b && b[k.1] == EntryOf(db.files[k])
    {
      assert Managed(db, k.1);
    }
    forall p | p in db.links
      ensures p in b && b[p] == LinkEntry(db.links[p])
    {
      assert Managed(db, p);
    }
  }

  lemma DiscardKeeps(s: Root, t: Root)
    requires Inv(s) && Discard(s, t)
    ensures Inv(t)
  {
    hide Agree, SoundDb, Managed, Discardable, Carries;
    AgreeKept(s.tree, t.tree, s.db);
  }

  lemma AfterwardsKeeps(s: Root, t: Root)
    requires Inv(s) && (RemoveDirs(s, t) || Done(s, t))
    ensures Inv(t)
  {
    hide Agree, SoundDb, Sound, GoodTxn, NoFuture, NamesPast, Undoable, Discardable, Managed;
  }

  lemma EditKeeps(s: Root, t: Root)
    requires Inv(s) && Edit(s, t)
    ensures Inv(t)
  {
    hide Agree, SoundDb, NoFuture, InDirs, Managed;
    AgreeKept(s.tree, t.tree, s.db);
  }

  /** Failure and recovery. */

  lemma StopKeeps(s: Root, t: Root)
    requires Inv(s) && (Fail(s, t) || Crash(s, t) || Recover(s, t) || GiveUp(s, t))
    ensures Inv(t)
  {
    hide Agree, SoundDb, Sound, GoodTxn, NoFuture, NamesPast, Undoable, Discardable, Managed, InDirs, Rebuild;
  }

  // What a refused plan had planned so far was never staged: each of its
  // operations undoes nothing, and so do all together.
  lemma AbandonChangesNothing(c: Context, plan: seq<PkgOp>, desired: seq<Link>, changes: seq<Change>)
    requires Sound(c) && NamesPlain(c, plan, desired)
    requires forall x | x in changes :: FromClaims(c, desired, x) || exists q | q in plan :: FromPackage(c, q, x)
    ensures forall op | op in Ops(changes) :: Distinct(op)
    ensures UndoAll(c.tree, Ops(changes)) == c.tree
    ensures forall next | RollbackStep(c.tree, next, Ops(changes)) :: next == c.tree
  {
    hide FromClaims, FromPackage, Sound, NamesPlain, Distinct, RollbackEffect, Unstaged;
    var ops := Ops(changes);
    forall i | 0 <= i < |ops|
      ensures Unstaged(c.tree, ops[i]) && Distinct(ops[i])
    {
      assert changes[i] in changes;
      PlannedUnstaged(c, plan, desired, changes[i]);
    }
    UnstagedAll(c.tree, ops);
    forall next | RollbackStep(c.tree, next, ops)
      ensures next == c.tree
    {
      var i :| 0 <= i < |ops| && RollbackEffect(c.tree, next, ops[i]);
      UnstagedUndo(c.tree, next, ops[i]);
    }
  }

  // Neither staged nor flipped.
  predicate Unstaged(t: Tree, op: FileOp)
  {
    && Staged(op) !! t.Keys && Backup(op) !! t.Keys
    && (op.action == Create ==> op.finalPath !in t)
  }

  lemma PlannedUnstaged(c: Context, plan: seq<PkgOp>, desired: seq<Link>, x: Change)
    requires Sound(c) && NamesPlain(c, plan, desired)
    requires FromClaims(c, desired, x) || exists q | q in plan :: FromPackage(c, q, x)
    ensures Unstaged(c.tree, x.op) && Distinct(x.op)
  {
    hide TempPath, Carries, Dir, UnownedDiffers, LinkEntry, ValidDb, LinksApart, Unstaged, Distinct;
    if l :| l in desired && ClaimChange(c, l) == Some(x) {
      OpUnstaged(c, l.path, l.path !in c.db.links && UnownedDiffers(c, l.path, LinkEntry(l)));
    } else if p :| p in c.db.links && p !in PathSet(desired) && x == Removal(c, p) {
      RemovalUnstaged(c, p);
    } else {
      var q :| q in plan && FromPackage(c, q, x);
      if e :| q.kind != OpRemove && e in q.payload && EntryChange(c, q, e) == Some(x) {
        OpUnstaged(c, e.path, UnownedDiffers(c, e.path, EntryOf(e.kind)));
      } else {
        var p :| p in Dropped(c, q) && x == Removal(c, p);
        RemovalUnstaged(c, p);
      }
    }
  }

  lemma OpUnstaged(c: Context, path: string, keep: bool)
    requires !Carries(path, c.id) && forall p | p in c.tree :: !Carries(p, c.id)
    ensures var op := PlannedOp(c, path, keep);
      && Unstaged(c.tree, op) && Distinct(op)
      && (op.action == Replace ==> Unstaged(c.tree, op.(action := Swap)) && Distinct(op.(action := Swap)))
  {
    hide TempPath, Carries, Dir, Base, Kept, Suffix;
    TempPathCarries(path, STAGED_MARKER, c.id);
    TempPathCarries(path, BACKUP_MARKER, c.id);
    StagedIsNotBackup(path, path, c.id);
  }

  lemma RemovalUnstaged(c: Context, path: string)
    requires path in c.tree && forall p | p in c.tree :: !Carries(p, c.id)
    ensures Unstaged(c.tree, Removal(c, path).op) && Distinct(Removal(c, path).op)
  {
    hide TempPath, Carries, Dir, Base, Kept, Suffix;
    TempPathCarries(path, BACKUP_MARKER, c.id);
  }

  lemma UnstagedUndo(t: Tree, next: Tree, op: FileOp)
    requires Unstaged(t, op) && Distinct(op)
    ensures UndoOp(t, op) == t
    ensures RollbackEffect(t, next, op) ==> next == t
  {
    assert op.action != Remove ==> op.stagedPath in Staged(op);
    assert op.action != Create ==> op.backupPath in Backup(op);
  }

  lemma {:induction false} UnstagedAll(t: Tree, ops: seq<FileOp>)
    requires forall i | 0 <= i < |ops| :: Unstaged(t, ops[i]) && Distinct(ops[i])
    ensures (forall op | op in ops :: Distinct(op)) && UndoAll(t, ops) == t
  {
    hide Unstaged, Distinct;
    if ops != [] {
      UnstagedUndo(t, t, ops[|ops| - 1]);
      UnstagedAll(t, ops[..|ops| - 1]);
    }
  }

  // Before anything is staged, undoing changes nothing.
  lemma NothingToUndo(before: Tree, next: Tree, op: FileOp)
    requires Planned(before, op) && RollbackEffect(before, next, op)
    ensures next == before
  {
    assert op.action != Remove ==> op.stagedPath in Staged(op);
    assert op.action != Create ==> op.backupPath in Backup(op);
  }

  // An effect of a journalled operation is an effect of the operation itself.
  lemma JournalEffect(before: Tree, now: Tree, next: Tree, op: FileOp, dirs: set<string>)
    requires Planned(before, op) && Recoverable(before, now, op) && RollbackEffect(now, next, FromRow(Row(op), dirs))
    ensures RollbackEffect(now, next, op)
  {
  }

  // Whichever list is being undone, an effect is one of the transaction's own.
  lemma EffectIsOwn(s: Root, t: Root, p: Pending)
    requires s.journal == Some(p) && PendingInv(s, p) && UndoEffect(s, t)
    ensures exists i :: 0 <= i < |PendingOps(p)| && RollbackEffect(s.tree, t.tree, PendingOps(p)[i])
  {
    hide GoodTxn, Sound, NamesPast, RollbackEffect, Separated, Planned, Recoverable;
    PendingShaped(s, p);
    var ops := PendingOps(p);
    var i :| 0 <= i < |Undoing(s)| && RollbackEffect(s.tree, t.tree, Undoing(s)[i]);
    if s.mem == Recovering {
      assert p.rows[i] == Row(ops[i]) && ops[i] in ops;
      JournalEffect(p.before, s.tree, t.tree, ops[i], s.dirs);
    }
    assert RollbackEffect(s.tree, t.tree, ops[i]);
  }

  lemma UndoEffectKeeps(s: Root, t: Root)
    requires Inv(s) && UndoEffect(s, t)
    ensures Inv(t)
  {
    hide GoodTxn, Sound, SoundDb, NoFuture, NamesPast, InDirs;
    hide Undoable, Separated, Siblings, RollbackEffect, Planned, Undoing;
    var p := s.journal.value;
    var ops := PendingOps(p);
    PendingShaped(s, p);
    EffectIsOwn(s, t, p);
    var i :| 0 <= i < |ops| && RollbackEffect(s.tree, t.tree, ops[i]);
    assert ops[i] in ops;
    RollbackStepKeeps(p.before, s.tree, t.tree, ops);
    if !Journalled(p) {
      NothingToUndo(p.before, t.tree, ops[i]);
    }
    EffectNames(s.tree, t.tree, ops[i]);
    RenameInDirs(s.tree, t.tree, ops[i], ops, s.dirs, s.nextId);
  }

  lemma EffectNames(now: Tree, next: Tree, op: FileOp)
    requires RollbackEffect(now, next, op)
    ensures next.Keys <= now.Keys + Names(op)
    ensures next.Keys <= now.Keys || exists p | p in Names(op) :: p in now
  {
    if op.action != Create && op.backupPath in now {
      assert op.backupPath in Names(op);
    }
  }

  // Undoing everything that can be undone, from memory or from the rows, gives
  // the tree the transaction began with; and from the rows it can be undone.
  lemma UndoingRestores(s: Root, p: Pending)
    requires s.journal == Some(p) && PendingInv(s, p) && InDirs(s.tree, s.dirs)
    requires s.mem in {Reverting, Recovering, Idle}
    ensures Rebuild(p.rows, s.tree, s.dirs) == Some(FromJournal(p.rows, s.dirs))
    ensures forall op | op in Undoing(s) :: Distinct(op)
    ensures UndoAll(s.tree, Undoing(s)) == p.before
  {
    hide GoodTxn, Sound, NamesPast, Separated, AllPlanned, Distinct, Siblings, Dir, Undoable, Rebuild, Reachable, Begun;
    var ops := PendingOps(p);
    BegunShaped(PlanContext(s.db, p), p.txn);
    CanRebuild(p.before, s.tree, ops, |p.rows|, s.dirs);
    if s.mem == Reverting {
      UndoRestores(p.before, s.tree, ops);
    } else {
      var part := ops[..|p.rows|];
      PartShaped(p.before, s.tree, ops, |p.rows|);
      UndoableDirsAgree(p.before, s.tree, part, s.dirs);
      JournalUndoes(s.tree, part, s.dirs);
      UndoRestores(p.before, s.tree, part);
    }
  }

  // The operations recorded so far: all of them once anything was staged.
  lemma PartShaped(before: Tree, now: Tree, ops: seq<FileOp>, n: nat)
    requires n <= |ops| && Separated(ops) && AllPlanned(before, ops) && Undoable(before, now, ops)
    requires forall op | op in ops :: Siblings(op)
    requires n < |ops| ==> now == before
    ensures Separated(ops[..n]) && AllPlanned(before, ops[..n]) && Undoable(before, now, ops[..n])
    ensures forall op | op in ops[..n] :: Siblings(op)
  {
    hide Distinct, Planned, Siblings;
    assert forall op | op in ops[..n] :: op in ops;
    if n == |ops| {
      assert ops[..n] == ops;
    } else {
      forall i, j | 0 <= i < j < n
        ensures Names(ops[..n][i]) !! Names(ops[..n][j])
      {
        assert ops[..n][i] == ops[i] && ops[..n][j] == ops[j];
      }
      StagingIsUndoable(before, now, ops[..n]);
    }
  }

  lemma CloseKeeps(s: Root, t: Root)
    requires Inv(s) && CloseRolledBack(s, t)
    ensures Inv(t)
  {
    hide GoodTxn, SoundDb, NoFuture, NamesPast, InDirs, Undoable, Carries;
    UndoingRestores(s, s.journal.value);
    assert s.tree == s.journal.value.before;
  }

  lemma StepKeeps(s: Root, t: Root)
    requires Inv(s) && Next(s, t)
    ensures Inv(t)
  {
    hide Inv, Begin, Record, StartStaging, StageWrite, StartApplying;
    hide ApplyOne, ApplyFirst, ApplySecond, CommitDb, Discard;
    hide RemoveDirs, Done, Edit, Fail, Crash, Recover, GiveUp, UndoEffect, CloseRolledBack, Refuse, RecordDir, MakeDirs;
    if Begin(s, t) { BeginKeeps(s, t); }
    else if Refuse(s, t) { RefuseKeeps(s, t); }
    else if Record(s, t) { RecordKeeps(s, t); }
    else if RecordDir(s, t) { RecordDirKeeps(s, t); }
    else if MakeDirs(s, t) { MakeDirsKeeps(s, t); }
    else if StartStaging(s, t) { StartStagingKeeps(s, t); }
    else if StageWrite(s, t) { StageWriteKeeps(s, t); }
    else if StartApplying(s, t) { StartApplyingKeeps(s, t); }
    else if ApplyOne(s, t) { ApplyOneKeeps(s, t); }
    else if ApplyFirst(s, t) { ApplyFirstKeeps(s, t); }
    else if ApplySecond(s, t) { ApplySecondKeeps(s, t); }
    else if CommitDb(s, t) { CommitDbKeeps(s, t); }
    else if Discard(s, t) { DiscardKeeps(s, t); }
    else if RemoveDirs(s, t) || Done(s, t) { AfterwardsKeeps(s, t); }
    else if Edit(s, t) { EditKeeps(s, t); }
    else if UndoEffect(s, t) { UndoEffectKeeps(s, t); }
    else if CloseRolledBack(s, t) { CloseKeeps(s, t); }
    else { StopKeeps(s, t); }
  }

  /** The main results about one root. */

  ghost predicate Run(run: seq<Root>)
  {
    run != [] && forall i | 0 <= i < |run| - 1 :: Next(run[i], run[i + 1])
  }

  // A root at rest: nothing pending, disk and database in agreement.
  ghost predicate AtRest(s: Root)
  {
    s.mem == Idle && s.journal == None && InDirs(s.tree, s.dirs) && SoundDb(s.db)
    && NoFuture(s.tree, s.nextId) && Agree(s.tree, s.db)
  }

  lemma {:induction false} RunKeepsInv(run: seq<Root>, i: nat)
    requires Run(run) && AtRest(run[0]) && i < |run|
    ensures Inv(run[i])
  {
    hide AtRest, Next, Inv;
    if i == 0 {
      RestIsInv(run[0]);
    } else {
      RunKeepsInv(run, i - 1);
      StepKeeps(run[i - 1], run[i]);
    }
  }

  lemma RestIsInv(s: Root)
    requires AtRest(s)
    ensures Inv(s)
  {
    hide Agree, SoundDb, NoFuture, InDirs;
  }

  // Under any sequence of transactions, claims, failures, crashes and recoveries:
  // whenever no transaction is pending, every owned path and every claim path
  // holds what the committed rows describe, and those rows are sound.
  lemma RunsAreSafe(run: seq<Root>, i: nat)
    requires Run(run) && AtRest(run[0]) && i < |run|
    ensures run[i].journal == None ==> Agree(run[i].tree, run[i].db)
    ensures SoundDb(run[i].db)
  {
    hide Agree, SoundDb, PendingInv, NoFuture, InDirs, Run, AtRest;
    RunKeepsInv(run, i);
  }

  // Whenever one is pending and the process is gone, its operations can be rebuilt
  // from the rows, and rolling them back reaches such a state again, with the
  // database as it was: the disk matches it. The journal then closes exactly when the
  // recorded directories can be cleaned up (DirectoryEntries).
  lemma RecoveryReachesRest(run: seq<Root>, i: nat)
    requires Run(run) && AtRest(run[0]) && i < |run|
    requires run[i].mem == Idle && run[i].journal.Some?
    ensures Rebuild(run[i].journal.value.rows, run[i].tree, run[i].dirs).Some?
    ensures var s := run[i]; var ops := Rebuild(s.journal.value.rows, s.tree, s.dirs).value;
      && (forall op | op in ops :: Distinct(op))
      && UndoAll(s.tree, ops) == s.journal.value.before
      && AtRest(s.(tree := UndoAll(s.tree, ops), journal := None))
      && (CloseRolledBack(s.(tree := UndoAll(s.tree, ops), mem := Recovering),
                          s.(tree := UndoAll(s.tree, ops), journal := None)) <==>
          CleansUp(s.journal.value.before, s.dirs, s.journal.value.dirRows))
  {
    hide Agree, SoundDb, NoFuture, Run, Distinct, GoodTxn, Undoable, NamesPast, Carries, Dir, CleansUp, CreatedFor;
    hide CloseRolledBack, DirsClear;
    RunKeepsInv(run, i);
    var s := run[i];
    UndoingRestores(s, s.journal.value);
    RestoredDirs(s, s.journal.value);
    UndoneTwice(s, s.journal.value);
  }

  // Undoing what is undone changes nothing: only the clean-up is left to refuse.
  lemma UndoneTwice(s: Root, p: Pending)
    requires Inv(s) && s.journal == Some(p) && s.mem == Idle
    ensures CloseRolledBack(s.(tree := p.before, mem := Recovering), s.(tree := p.before, journal := None)) <==>
            CleansUp(p.before, s.dirs, p.dirRows)
  {
    hide Agree, SoundDb, NoFuture, GoodTxn, Undoable, NamesPast, Carries, Dir, CleansUp, CreatedFor, DirsClear, Sound;
    hide InDirs, Begun, StagedOver, Separated, AllPlanned, Siblings;
    var t := s.(tree := p.before, mem := Recovering);
    BegunShaped(PlanContext(s.db, p), p.txn);
    StagedOverItself(p.before, PendingOps(p));
    StagingIsUndoable(p.before, p.before, PendingOps(p));
    UndoingRestores(s, p);
    RestoredDirs(s, p);
    UndoingRestores(t, p);
  }

  lemma StagedOverItself(t: Tree, ops: seq<FileOp>)
    ensures StagedOver(t, t, ops)
  {
  }

  lemma RestoredDirs(s: Root, p: Pending)
    requires Inv(s) && s.journal == Some(p)
    requires s.mem == Idle && (forall op | op in Undoing(s) :: Distinct(op)) && UndoAll(s.tree, Undoing(s)) == p.before
    ensures InDirs(p.before, s.dirs) && NoFuture(p.before, s.nextId)
  {
    hide Agree, SoundDb, GoodTxn, Undoable, Carries, Dir, Sound, Siblings, Distinct;
    PendingShaped(s, p);
    var ops, journal := PendingOps(p), Undoing(s);
    forall i | 0 <= i < |journal|
      ensures Siblings(journal[i]) && Names(journal[i]) == Names(ops[i]) && ops[i] in ops
    {
      assert p.rows[i] == Row(ops[i]) && ops[i] in ops;
      SameNames(ops[i], s.dirs);
    }
    UndoKeepsDirs(s.tree, journal, s.dirs, s.nextId);
  }

  lemma SameNames(op: FileOp, dirs: set<string>)
    requires Siblings(op)
    ensures Names(FromRow(Row(op), dirs)) == Names(op) && Siblings(FromRow(Row(op), dirs))
  {
    hide Dir;
  }

  lemma {:induction false} UndoKeepsDirs(t: Tree, ops: seq<FileOp>, dirs: set<string>, n: nat)
    requires forall op | op in ops :: Distinct(op) && Siblings(op)
    requires NamesPast(ops, n) && InDirs(t, dirs) && NoFuture(t, n)
    ensures InDirs(UndoAll(t, ops), dirs) && NoFuture(UndoAll(t, ops), n)
    decreases |ops|
  {
    hide Distinct, Siblings, NamesPast, InDirs, NoFuture, UndoOp;
    if ops != [] {
      var rest, op := ops[..|ops| - 1], ops[|ops| - 1];
      assert op in ops && forall o | o in rest :: o in ops;
      UndoOpNames(t, op);
      RenameInDirs(t, UndoOp(t, op), op, ops, dirs, n);
      assert NamesPast(rest, n) by { FewerPast(rest, ops, n); }
      UndoKeepsDirs(UndoOp(t, op), rest, dirs, n);
    }
  }

  lemma FewerPast(rest: seq<FileOp>, ops: seq<FileOp>, n: nat)
    requires NamesPast(ops, n) && forall o | o in rest :: o in ops
    ensures NamesPast(rest, n)
  {
    hide Carries, Names;
  }

  lemma UndoOpNames(t: Tree, op: FileOp)
    requires Distinct(op)
    ensures UndoOp(t, op).Keys <= t.Keys + Names(op)
    ensures UndoOp(t, op).Keys <= t.Keys || exists p | p in Names(op) :: p in t
  {
    if op.action != Create && op.backupPath in t {
      assert op.backupPath in Names(op);
    }
  }
}
