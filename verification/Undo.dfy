/** A transaction that stopped anywhere can be undone from its journal. */
module Undo {
  import opened Wrappers
  import opened FileOps
  import opened Lookups
  import opened TempNames

  // The tree differs from `before` only as `ops` may have left it: every name the
  // operations do not use is untouched, and each original is either still in
  // place or at its backup name.
  ghost predicate Undoable(before: Tree, now: Tree, ops: seq<FileOp>)
  {
    && (forall p | p !in AllNames(ops) :: SameAt(before, now, p))
    && (forall op | op in ops :: Recoverable(before, now, op))
  }

  predicate SameAt(a: Tree, b: Tree, p: string)
  {
    (p in a <==> p in b) && (p in a ==> a[p] == b[p])
  }

  predicate Recoverable(before: Tree, now: Tree, op: FileOp)
  {
    if op.action == Create then true
    else if op.backupPath in now then
      op.pinned && op.finalPath in before && now[op.backupPath] == before[op.finalPath]
    else SameAt(before, now, op.finalPath)
  }

  // Undoing one operation restores its own names and touches no others.
  lemma UndoOneOp(before: Tree, now: Tree, op: FileOp)
    requires Distinct(op) && Planned(before, op) && Recoverable(before, now, op)
    ensures forall p | p in Names(op) :: SameAt(before, UndoOp(now, op), p)
    ensures forall p | p !in Names(op) :: SameAt(now, UndoOp(now, op), p)
  {
  }

  // Undoing the last operation leaves a tree from which the others can be undone.
  lemma UndoLast(before: Tree, now: Tree, ops: seq<FileOp>)
    requires ops != [] && Separated(ops) && AllPlanned(before, ops) && Undoable(before, now, ops)
    ensures Undoable(before, UndoOp(now, ops[|ops| - 1]), ops[..|ops| - 1])
  {
    var n := |ops| - 1;
    var op, rest := ops[n], ops[..n];
    assert op in ops;
    var after := UndoOp(now, op);
    UndoOneOp(before, now, op);
    forall p | p !in AllNames(rest)
      ensures SameAt(before, after, p)
    {
      assert p !in Names(op) ==> p !in AllNames(ops);
    }
    forall q | q in rest
      ensures Recoverable(before, after, q)
    {
      var i :| 0 <= i < n && rest[i] == q;
      assert Names(ops[i]) !! Names(ops[n]);
      assert q in ops;
      assert q.finalPath in Names(q) && q.finalPath !in Names(op);
      assert q.action != Create ==> q.backupPath in Names(q) && q.backupPath !in Names(op);
    }
  }

  lemma {:induction false} UndoRestores(before: Tree, now: Tree, ops: seq<FileOp>)
    requires Separated(ops) && AllPlanned(before, ops) && Undoable(before, now, ops)
    ensures UndoAll(now, ops) == before
    decreases |ops|
  {
    if ops == [] {
      assert forall p :: p in before || p in now ==> SameAt(before, now, p);
    } else {
      UndoLast(before, now, ops);
      UndoRestores(before, UndoOp(now, ops[|ops| - 1]), ops[..|ops| - 1]);
    }
  }

  /** Every step of a transaction keeps its tree undoable. */

  // The operation has not moved its original aside.
  predicate InPlace(now: Tree, op: FileOp) { op.action == Create || op.backupPath !in now }

  ghost predicate InPlaceFrom(now: Tree, ops: seq<FileOp>, k: nat)
  {
    forall j | k <= j < |ops| :: InPlace(now, ops[j])
  }

  // Whatever staging has written so far, whole or partial.
  ghost predicate StagedOver(before: Tree, now: Tree, ops: seq<FileOp>)
  {
    forall p | p !in AllStaged(ops) :: SameAt(before, now, p)
  }

  lemma StagingIsUndoable(before: Tree, now: Tree, ops: seq<FileOp>)
    requires Separated(ops) && AllPlanned(before, ops) && StagedOver(before, now, ops)
    ensures Undoable(before, now, ops) && InPlaceFrom(now, ops, 0)
  {
    forall i | 0 <= i < |ops|
      ensures ops[i].finalPath !in AllStaged(ops) && Backup(ops[i]) !! AllStaged(ops)
    {
      NotStaged(ops, i);
    }
    forall op | op in ops
      ensures Recoverable(before, now, op) && InPlace(now, op)
    {
      var i :| 0 <= i < |ops| && ops[i] == op;
      assert Planned(before, op);
      if op.action != Create {
        assert op.backupPath in Backup(op);
        assert SameAt(before, now, op.backupPath);
      }
      assert SameAt(before, now, op.finalPath);
    }
    forall p | p in AllStaged(ops)
      ensures p in AllNames(ops)
    {
      var op :| op in ops && p in Staged(op);
      assert p in Names(op);
    }
  }

  lemma NotStaged(ops: seq<FileOp>, i: nat)
    requires i < |ops| && Separated(ops)
    ensures ops[i].finalPath !in AllStaged(ops) && Backup(ops[i]) !! AllStaged(ops)
  {
    forall q | q in ops
      ensures ops[i].finalPath !in Staged(q) && Backup(ops[i]) !! Staged(q)
    {
      var j :| 0 <= j < |ops| && ops[j] == q;
      assert i == j || Names(ops[i]) !! Names(ops[j]);
      assert ops[i] in ops;
    }
  }

  // A step on the names of one operation leaves the others recoverable.
  lemma OthersKeep(before: Tree, now: Tree, next: Tree, ops: seq<FileOp>, i: nat)
    requires i < |ops| && Separated(ops) && Undoable(before, now, ops)
    requires forall p | p !in Names(ops[i]) :: SameAt(now, next, p)
    requires Recoverable(before, next, ops[i])
    ensures Undoable(before, next, ops)
    ensures forall j | 0 <= j < |ops| && j != i :: InPlace(now, ops[j]) == InPlace(next, ops[j])
  {
    assert forall p | p in Names(ops[i]) :: ops[i] in ops && p in AllNames(ops);
    forall j | 0 <= j < |ops| && j != i
      ensures Recoverable(before, next, ops[j]) && InPlace(now, ops[j]) == InPlace(next, ops[j])
    {
      assert Names(ops[i]) !! Names(ops[j]);
      assert ops[j].finalPath in Names(ops[j]);
      assert ops[j].action != Create ==> ops[j].backupPath in Names(ops[j]);
      assert ops[j] in ops;
    }
  }

  lemma ApplyKeeps(before: Tree, now: Tree, ops: seq<FileOp>, i: nat)
    requires i < |ops| && Separated(ops) && AllPlanned(before, ops) && Undoable(before, now, ops)
    requires InPlaceFrom(now, ops, i) && Ready(now, ops[i]) && Distinct(ops[i])
    ensures Undoable(before, Applied(now, ops[i]), ops)
    ensures InPlaceFrom(Applied(now, ops[i]), ops, i + 1)
  {
    assert ops[i] in ops;
    OthersKeep(before, now, Applied(now, ops[i]), ops, i);
  }

  lemma HalfwayKeeps(before: Tree, now: Tree, ops: seq<FileOp>, i: nat)
    requires i < |ops| && Separated(ops) && AllPlanned(before, ops) && Undoable(before, now, ops)
    requires InPlaceFrom(now, ops, i) && CanStart(now, ops[i]) && ops[i].action == Replace
    ensures Undoable(before, Halfway(now, ops[i]), ops)
  {
    assert ops[i] in ops && Distinct(ops[i]);
    OthersKeep(before, now, Halfway(now, ops[i]), ops, i);
  }

  lemma {:induction false} PrefixKeeps(before: Tree, staged: Tree, ops: seq<FileOp>, k: nat)
    requires k <= |ops| && Separated(ops) && AllPlanned(before, ops) && StagedOver(before, staged, ops)
    requires ApplyAll(staged, ops[..k]).Some?
    ensures Undoable(before, ApplyAll(staged, ops[..k]).value, ops)
    ensures InPlaceFrom(ApplyAll(staged, ops[..k]).value, ops, k)
  {
    if k == 0 {
      StagingIsUndoable(before, staged, ops);
    } else {
      assert ops[..k][..k - 1] == ops[..k - 1];
      PrefixKeeps(before, staged, ops, k - 1);
      ApplyKeeps(before, ApplyAll(staged, ops[..k - 1]).value, ops, k - 1);
    }
  }

  /** The journal (writeJournal, fileOpsFromJournal). */

  datatype DbAction = FileCreate | FileReplace | FileRemove

  datatype TxnFile = TxnFile(finalPath: string, action: DbAction, stagedPath: string, backupPath: string)

  function JournalAction(a: Action): DbAction {
    match a
    case Create => FileCreate
    case Replace => FileReplace
    case Swap => FileReplace
    case Remove => FileRemove
  }

  function ActionFromDb(a: DbAction): Action {
    match a
    case FileCreate => Create
    case FileReplace => Replace
    case FileRemove => Remove
  }

  function Row(op: FileOp): TxnFile {
    TxnFile(op.finalPath, JournalAction(op.action), op.stagedPath, op.backupPath)
  }

  function Rows(ops: seq<FileOp>): seq<TxnFile> { seq(|ops|, i requires 0 <= i < |ops| => Row(ops[i])) }

  // Recovery pins what still has a parent directory; keepBackup is not recorded.
  function FromRow(row: TxnFile, dirs: set<string>): FileOp {
    FileOp(row.finalPath, ActionFromDb(row.action), row.stagedPath, row.backupPath, false, Dir(row.finalPath) in dirs)
  }

  function FromJournal(rows: seq<TxnFile>, dirs: set<string>): seq<FileOp> {
    seq(|rows|, i requires 0 <= i < |rows| => FromRow(rows[i], dirs))
  }

  // fileOpsFromJournal: one parent that cannot be resolved refuses the whole list,
  // and with it the recovery.
  function Rebuild(rows: seq<TxnFile>, now: Tree, dirs: set<string>): Option<seq<FileOp>> {
    if exists row | row in rows :: FindParent(now, dirs, row.finalPath) == Refused then None
    else Some(FromJournal(rows, dirs))
  }

  // The journal can be rebuilt exactly when no journalled path leads through
  // something that is not a directory.
  lemma RebuildIsExact(rows: seq<TxnFile>, now: Tree, dirs: set<string>)
    requires Solid(now, dirs) && forall row | row in rows :: row.finalPath != "" && row.finalPath[0] == '/'
    ensures Rebuild(rows, now, dirs).Some? <==> forall row | row in rows :: !Obstructed(now, row.finalPath)
  {
    hide FindParent, Obstructed, Solid;
    forall row | row in rows
      ensures FindParent(now, dirs, row.finalPath) == Refused <==> Obstructed(now, row.finalPath)
    {
      LookupIsExact(now, dirs, row.finalPath);
    }
  }

  // No operation's path leads through an entry the transaction can leave.
  ghost predicate Reachable(before: Tree, ops: seq<FileOp>)
  {
    forall op, p | op in ops && p in before.Keys + AllNames(ops) :: !Above(p, op.finalPath)
  }

  lemma CanRebuild(before: Tree, now: Tree, ops: seq<FileOp>, n: nat, dirs: set<string>)
    requires n <= |ops| && Undoable(before, now, ops) && Reachable(before, ops)
    ensures Rebuild(Rows(ops[..n]), now, dirs) == Some(FromJournal(Rows(ops[..n]), dirs))
  {
    hide FindParent, Above;
    var rows := Rows(ops[..n]);
    forall row | row in rows
      ensures FindParent(now, dirs, row.finalPath) != Refused
    {
      var i :| 0 <= i < n && rows[i] == row;
      assert ops[i] in ops && row.finalPath == ops[i].finalPath;
      assert forall p | p in now :: p in before.Keys + AllNames(ops) by {
        assert forall p | p !in AllNames(ops) :: SameAt(before, now, p);
      }
      NotRefused(now, dirs, row.finalPath);
    }
  }

  lemma NotRefused(now: Tree, dirs: set<string>, path: string)
    requires forall p | p in now :: !Above(p, path)
    ensures FindParent(now, dirs, path) != Refused
  {
    hide Walk;
    if FindParent(now, dirs, path) == Refused { RefusedIsObstructed(now, dirs, path, 1); }
  }

  // An operation without a parent directory, now or when it was planned, has
  // nothing at its names.
  ghost predicate DirsAgree(now: Tree, ops: seq<FileOp>, dirs: set<string>)
  {
    forall op | op in ops && (Dir(op.finalPath) !in dirs || !op.pinned) :: forall p | p in Names(op) :: p !in now
  }

  predicate Siblings(op: FileOp) { forall p | p in Names(op) :: Dir(p) == Dir(op.finalPath) }

  // Every entry has its parent directory.
  ghost predicate InDirs(now: Tree, dirs: set<string>) { forall p | p in now :: Dir(p) in dirs }

  lemma UndoableDirsAgree(before: Tree, now: Tree, ops: seq<FileOp>, dirs: set<string>)
    requires AllPlanned(before, ops) && Undoable(before, now, ops)
    requires InDirs(now, dirs) && forall op | op in ops :: Siblings(op)
    ensures DirsAgree(now, ops, dirs)
  {
    forall op, p | op in ops && (Dir(op.finalPath) !in dirs || !op.pinned) && p in Names(op)
      ensures p !in now
    {
      assert Planned(before, op) && Recoverable(before, now, op) && Siblings(op);
    }
  }

  lemma SameUndo(now: Tree, op: FileOp, dirs: set<string>)
    requires Distinct(op) && DirsAgree(now, [op], dirs)
    ensures Distinct(FromRow(Row(op), dirs))
    ensures UndoOp(now, FromRow(Row(op), dirs)) == UndoOp(now, op)
  {
    assert op in [op];
  }

  lemma JournalDistinct(ops: seq<FileOp>, dirs: set<string>)
    requires forall op | op in ops :: Distinct(op)
    ensures forall op | op in FromJournal(Rows(ops), dirs) :: Distinct(op)
  {
    var journal := FromJournal(Rows(ops), dirs);
    forall i | 0 <= i < |ops|
      ensures Distinct(journal[i])
    {
      assert ops[i] in ops;
    }
  }

  // Undoing the last operation puts nothing at the names of the others.
  lemma DirsStillAgree(now: Tree, ops: seq<FileOp>, dirs: set<string>)
    requires ops != [] && Separated(ops) && DirsAgree(now, ops, dirs)
    ensures ops[|ops| - 1] in ops && DirsAgree(UndoOp(now, ops[|ops| - 1]), ops[..|ops| - 1], dirs)
  {
    var n := |ops| - 1;
    assert ops[n] in ops;
    var next := UndoOp(now, ops[n]);
    forall op, p | op in ops[..n] && (Dir(op.finalPath) !in dirs || !op.pinned) && p in Names(op)
      ensures p !in next
    {
      var i :| 0 <= i < n && ops[i] == op;
      assert Names(ops[i]) !! Names(ops[n]);
      assert op in ops && p !in now && p !in Names(ops[n]);
    }
  }

  // The journal undoes exactly what the operations in memory would undo.
  lemma {:induction false} JournalUndoes(now: Tree, ops: seq<FileOp>, dirs: set<string>)
    requires Separated(ops) && DirsAgree(now, ops, dirs)
    ensures forall op | op in FromJournal(Rows(ops), dirs) :: Distinct(op)
    ensures UndoAll(now, FromJournal(Rows(ops), dirs)) == UndoAll(now, ops)
    decreases |ops|
  {
    hide Names, Dir;
    JournalDistinct(ops, dirs);
    if ops != [] {
      var n := |ops| - 1;
      var journal := FromJournal(Rows(ops), dirs);
      assert journal[..n] == FromJournal(Rows(ops[..n]), dirs);
      DirsStillAgree(now, ops, dirs);
      SameUndo(now, ops[n], dirs);
      JournalUndoes(UndoOp(now, ops[n]), ops[..n], dirs);
    }
  }

  /** The main results. */

  // Every tree a transaction can stop in: while staging (content may be partial),
  // between two operations, or between the two renames of a replace. The point
  // inside a swap is the only one missing; see MidSwapUndo.
  ghost predicate CrashPoint(before: Tree, ops: seq<FileOp>, now: Tree)
  {
    exists staged, k: nat :: CrashPointAt(before, ops, staged, k, now)
  }

  ghost predicate CrashPointAt(before: Tree, ops: seq<FileOp>, staged: Tree, k: nat, now: Tree)
  {
    && k <= |ops|
    && StagedOver(before, staged, ops)
    && ApplyAll(staged, ops[..k]).Some?
    && var u := ApplyAll(staged, ops[..k]).value;
      now == u || (k < |ops| && ops[k].action == Replace && CanStart(u, ops[k]) && now == Halfway(u, ops[k]))
  }

  lemma CrashPointUndoable(before: Tree, ops: seq<FileOp>, now: Tree)
    requires Separated(ops) && AllPlanned(before, ops) && CrashPoint(before, ops, now)
    ensures Undoable(before, now, ops)
  {
    var staged, k: nat :| CrashPointAt(before, ops, staged, k, now);
    PrefixKeeps(before, staged, ops, k);
    var u := ApplyAll(staged, ops[..k]).value;
    if now != u {
      HalfwayKeeps(before, u, ops, k);
    }
  }

  // Rolling back from the journal restores the exact tree the transaction began
  // with, wherever it stopped: the operations can be rebuilt, and undoing them
  // undoes everything.
  lemma UndoFromAnyCrashPoint(before: Tree, ops: seq<FileOp>, now: Tree, dirs: set<string>)
    requires Separated(ops) && AllPlanned(before, ops) && CrashPoint(before, ops, now)
    requires InDirs(now, dirs) && (forall op | op in ops :: Siblings(op)) && Reachable(before, ops)
    ensures Rebuild(Rows(ops), now, dirs).Some?
    ensures forall op | op in Rebuild(Rows(ops), now, dirs).value :: Distinct(op)
    ensures UndoAll(now, Rebuild(Rows(ops), now, dirs).value) == before
  {
    hide Rebuild, Reachable;
    assert ops[..|ops|] == ops;
    CrashPointUndoable(before, ops, now);
    CanRebuild(before, now, ops, |ops|, dirs);
    UndoableDirsAgree(before, now, ops, dirs);
    JournalUndoes(now, ops, dirs);
    UndoRestores(before, now, ops);
  }

  /** Interrupted rollbacks. */

  // One of the three effects of rolling back `op`: clear the final path for a
  // restore, restore, discard what was staged (for a create: discard both).
  ghost predicate RollbackEffect(now: Tree, next: Tree, op: FileOp)
  {
    && op.pinned
    && Distinct(op)
    && (|| (op.action == Create && next == now - {op.finalPath})
        || (op.action != Create && op.backupPath in now && next == now - {op.finalPath})
        || (op.action != Create && op.backupPath in now && op.finalPath !in now
            && next == Move(now, op.backupPath, op.finalPath))
        || (op.action != Remove && next == now - {op.stagedPath}))
  }

  ghost predicate RollbackStep(now: Tree, next: Tree, ops: seq<FileOp>)
  {
    exists i :: 0 <= i < |ops| && RollbackEffect(now, next, ops[i])
  }

  lemma EffectIsLocal(before: Tree, now: Tree, next: Tree, op: FileOp)
    requires Recoverable(before, now, op) && RollbackEffect(now, next, op)
    ensures Recoverable(before, next, op)
    ensures forall p | p !in Names(op) :: SameAt(now, next, p)
  {
  }

  lemma RollbackStepKeeps(before: Tree, now: Tree, next: Tree, ops: seq<FileOp>)
    requires Separated(ops) && AllPlanned(before, ops) && Undoable(before, now, ops)
    requires RollbackStep(now, next, ops)
    ensures Undoable(before, next, ops)
  {
    var i :| 0 <= i < |ops| && RollbackEffect(now, next, ops[i]);
    assert ops[i] in ops;
    EffectIsLocal(before, now, next, ops[i]);
    OthersKeep(before, now, next, ops, i);
  }

  // However many rollbacks were cut short, and wherever, one that finishes still
  // restores the tree the transaction began with.
  lemma {:induction false} InterruptedRollbacks(before: Tree, run: seq<Tree>, ops: seq<FileOp>)
    requires run != [] && Separated(ops) && AllPlanned(before, ops) && Undoable(before, run[0], ops)
    requires forall i | 0 <= i < |run| - 1 :: RollbackStep(run[i], run[i + 1], ops)
    ensures Undoable(before, run[|run| - 1], ops)
    ensures UndoAll(run[|run| - 1], ops) == before
  {
    if |run| == 1 {
      UndoRestores(before, run[0], ops);
    } else {
      RollbackStepKeeps(before, run[0], run[1], ops);
      InterruptedRollbacks(before, run[1..], ops);
    }
  }

  /** The exception: between the exchange and the rename of a swap. */

  // The displaced entry then sits at the staged name and there is no backup.
  // Undoing deletes it: everything else comes back, but the new entry stays. So
  // the prior tree is restored just when the swap changed nothing.
  lemma MidSwapUndo(before: Tree, staged: Tree, ops: seq<FileOp>, k: nat, u: Tree)
    requires k < |ops| && Separated(ops) && AllPlanned(before, ops) && StagedOver(before, staged, ops)
    requires ApplyAll(staged, ops[..k]) == Some(u) && ops[k].action == Swap && CanStart(u, ops[k])
    ensures ops[k].finalPath in before
    ensures UndoAll(Halfway(u, ops[k]), ops) == before[ops[k].finalPath := u[ops[k].stagedPath]]
    ensures UndoAll(Halfway(u, ops[k]), ops) == before <==> u[ops[k].stagedPath] == before[ops[k].finalPath]
  {
    var op, now := ops[k], Halfway(u, ops[k]);
    assert op in ops && Planned(before, op);
    var after := before[op.finalPath := u[op.stagedPath]];
    MidSwapUndoable(before, staged, ops, k, u);
    UndoRestores(after, now, ops);
    assert after[op.finalPath] == u[op.stagedPath];
    assert u[op.stagedPath] == before[op.finalPath] ==> after == before;
  }

  lemma MidSwapUndoable(before: Tree, staged: Tree, ops: seq<FileOp>, k: nat, u: Tree)
    requires k < |ops| && Separated(ops) && AllPlanned(before, ops) && StagedOver(before, staged, ops)
    requires ApplyAll(staged, ops[..k]) == Some(u) && ops[k].action == Swap && CanStart(u, ops[k])
    ensures var after := before[ops[k].finalPath := u[ops[k].stagedPath]];
      AllPlanned(after, ops) && Undoable(after, Halfway(u, ops[k]), ops)
  {
    var op, now := ops[k], Halfway(u, ops[k]);
    assert op in ops && Planned(before, op) && Distinct(op);
    var after := before[op.finalPath := u[op.stagedPath]];
    PrefixKeeps(before, staged, ops, k);
    MidSwapLocal(before, u, op);
    SwapPlanned(before, after, ops, k);
    SwapUndoable(before, u, after, now, ops, k);
  }

  // Recovery, with the rows alone, does the same.
  lemma MidSwapRecovery(before: Tree, staged: Tree, ops: seq<FileOp>, k: nat, u: Tree, dirs: set<string>)
    requires k < |ops| && Separated(ops) && AllPlanned(before, ops) && StagedOver(before, staged, ops)
    requires ApplyAll(staged, ops[..k]) == Some(u) && ops[k].action == Swap && CanStart(u, ops[k])
    requires InDirs(Halfway(u, ops[k]), dirs) && (forall op | op in ops :: Siblings(op)) && Reachable(before, ops)
    ensures Rebuild(Rows(ops), Halfway(u, ops[k]), dirs).Some?
    ensures var rebuilt := Rebuild(Rows(ops), Halfway(u, ops[k]), dirs).value;
      && (forall op | op in rebuilt :: Distinct(op))
      && UndoAll(Halfway(u, ops[k]), rebuilt) == before[ops[k].finalPath := u[ops[k].stagedPath]]
  {
    hide Rebuild, AllPlanned, Undoable, Separated, StagedOver, Above;
    var now := Halfway(u, ops[k]);
    var after := before[ops[k].finalPath := u[ops[k].stagedPath]];
    MidSwapUndo(before, staged, ops, k, u);
    MidSwapUndoable(before, staged, ops, k, u);
    assert Reachable(after, ops) by { assert after.Keys == before.Keys; }
    assert ops[..|ops|] == ops;
    CanRebuild(after, now, ops, |ops|, dirs);
    UndoableDirsAgree(after, now, ops, dirs);
    JournalUndoes(now, ops, dirs);
  }

  lemma MidSwapLocal(before: Tree, u: Tree, op: FileOp)
    requires op.action == Swap && Distinct(op) && Planned(before, op) && CanStart(u, op)
    requires InPlace(u, op)
    ensures Recoverable(before[op.finalPath := u[op.stagedPath]], Halfway(u, op), op)
    ensures forall p | p !in Names(op) :: SameAt(u, Halfway(u, op), p)
  {
  }

  lemma SwapPlanned(before: Tree, after: Tree, ops: seq<FileOp>, k: nat)
    requires k < |ops| && Separated(ops) && AllPlanned(before, ops) && ops[k].finalPath in before
    requires ops[k].finalPath in after && after == before[ops[k].finalPath := after[ops[k].finalPath]]
    ensures AllPlanned(after, ops)
  {
    assert after.Keys == before.Keys;
    forall op | op in ops
      ensures Planned(after, op)
    {
      assert Planned(before, op);
    }
  }

  lemma SwapUndoable(before: Tree, u: Tree, after: Tree, now: Tree, ops: seq<FileOp>, k: nat)
    requires k < |ops| && Separated(ops) && Undoable(before, u, ops)
    requires ops[k].finalPath in after && after == before[ops[k].finalPath := after[ops[k].finalPath]]
    requires Recoverable(after, now, ops[k]) && forall p | p !in Names(ops[k]) :: SameAt(u, now, p)
    ensures Undoable(after, now, ops)
  {
    hide Recoverable, AllNames, SameAt, Names;
    NamesWithin(ops, k);
    assert ops[k].finalPath in Names(ops[k]) by { HasFinal(ops[k]); }
    forall p | p !in AllNames(ops)
      ensures SameAt(after, now, p)
    {
      SameThrough(before, u, after, now, ops[k].finalPath, p);
    }
    forall op | op in ops
      ensures Recoverable(after, now, op)
    {
      var j :| 0 <= j < |ops| && ops[j] == op;
      assert j != k ==> Names(ops[j]) !! Names(ops[k]);
      if j != k { RecoverableElsewhere(before, u, after, now, op, ops[k]); }
    }
  }

  lemma NamesWithin(ops: seq<FileOp>, k: nat)
    requires k < |ops|
    ensures Names(ops[k]) <= AllNames(ops)
  {
    assert ops[k] in ops;
  }

  lemma HasFinal(op: FileOp)
    ensures op.finalPath in Names(op)
  {
  }

  lemma SameThrough(before: Tree, u: Tree, after: Tree, now: Tree, path: string, p: string)
    requires p != path && path in after && after == before[path := after[path]]
    requires SameAt(before, u, p) && SameAt(u, now, p)
    ensures SameAt(after, now, p)
  {
  }

  lemma RecoverableElsewhere(before: Tree, u: Tree, after: Tree, now: Tree, op: FileOp, swap: FileOp)
    requires Recoverable(before, u, op) && Names(op) !! Names(swap)
    requires swap.finalPath in after && after == before[swap.finalPath := after[swap.finalPath]]
    requires forall p | p !in Names(swap) :: SameAt(u, now, p)
    ensures Recoverable(after, now, op)
  {
    assert op.finalPath in Names(op) && swap.finalPath in Names(swap);
    assert op.action != Create ==> op.backupPath in Names(op);
  }
}
