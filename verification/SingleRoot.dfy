/** One installation root under any sequence of transactions, crashes and
    recoveries (Execute, Recover and Claim in internal/install). A step is one
    rename, one write, one database transaction. */
module SingleRoot {
  import opened Wrappers
  import opened TempNames
  import opened FileOps
  import opened Lookups
  import opened CreatedDirs
  import opened Undo
  import opened Disks
  import opened Tables
  import opened Metadata
  import opened Planning
  import opened Patch
  import opened Transactions

  // What the running process knows; a crash loses it.
  datatype Mem =
    | Idle
    | Journalling
    | Staging
    | Applying(staged: Tree, done: nat, halfway: bool)
    | Reverting
    | Recovering
    | Discarding(ops: seq<FileOp>)

  // The pending journal row. Only `id`, `rows` and `dirRows` are stored; the rest
  // describes how the transaction came about and no recovery step reads it. `created`
  // are the directories the process has noted as possibly its own.
  datatype Pending = Pending(id: TxnId, rows: seq<TxnFile>, dirRows: seq<string>,
                             before: Tree, dirsBefore: set<string>, overwrite: bool, txn: Txn, created: seq<string>)

  datatype Root = Root(tree: Tree, dirs: set<string>, db: Db, nextId: nat, journal: Option<Pending>, mem: Mem)

  const NO_TXN := Txn([], [], ClaimWork(map[], [], [], []))

  function PlanContext(db: Db, p: Pending): Context { Context(p.before, p.dirsBefore, db, p.id, p.overwrite) }

  function PendingOps(p: Pending): seq<FileOp> { Ops(p.txn.changes) }

  // Planning creates the directory of everything it will install.
  function NeededDirs(ops: seq<FileOp>): set<string> { set op | op in ops && op.action != Remove :: Dir(op.finalPath) }

  // What planning notes: of the way to what it will install, and of the directories
  // payloads list, at least every one that is blocked. Directories that are there
  // already are noted too, unless something of their own name is in them.
  ghost predicate CreatedFor(c: Context, txn: Txn, created: seq<string>)
  {
    && (forall d | d in created ::
          || (exists e | e in DirRows(txn.staged) :: d == e || Above(d, e))
          || (exists op | op in Ops(txn.changes) && op.action != Remove :: Above(d, op.finalPath)))
    && (forall e | e in DirRows(txn.staged) && Blocked(c.tree, e) :: e in created)
  }

  ghost predicate NoFuture(t: Tree, n: nat)
  {
    forall p, i: TxnId | p in t && Carries(p, i) :: i < n
  }

  // Every name an operation uses belongs to an id already given out.
  ghost predicate NamesPast(ops: seq<FileOp>, n: nat)
  {
    forall op, p, i: TxnId | op in ops && p in Names(op) && Carries(p, i) :: i < n
  }

  /** The steps of a transaction. */

  // The journal row is opened on a root at rest.
  ghost predicate Opens(s: Root, t: Root, mem: Mem)
  {
    && s.mem == Idle && s.journal == None && t.journal.Some?
    && var p := t.journal.value;
    && p.id == s.nextId && p.rows == [] && p.dirRows == [] && p.before == s.tree && p.dirsBefore == s.dirs
    && s.dirs + NeededDirs(PendingOps(p)) <= t.dirs
    && t == Root(s.tree, t.dirs, s.db, s.nextId + 1, Some(p), mem)
  }

  // A plan is computed. Nothing to be installed has the temporary name of a
  // transaction still to come. Whether the database will take it is left open.
  ghost predicate Begin(s: Root, t: Root)
  {
    && Opens(s, t, Journalling)
    && var p := t.journal.value;
    && GoodTxn(PlanContext(s.db, p), p.txn) && CreatedFor(PlanContext(s.db, p), p.txn, p.created)
    && forall op, i: TxnId | op in PendingOps(p) && Carries(op.finalPath, i) :: i <= p.id
  }

  // Planning refuses with the row already open: nothing is journalled and the
  // rollback starts. Undoing what was planned so far would change nothing
  // (SingleRootSafety.AbandonChangesNothing).
  ghost predicate Refuse(s: Root, t: Root) { Opens(s, t, Reverting) && t.journal.value.txn == NO_TXN }

  ghost predicate Record(s: Root, t: Root)
  {
    && s.mem == Journalling && s.journal.Some?
    && var p := s.journal.value;
    && |p.rows| < |PendingOps(p)|
    && t == s.(journal := Some(p.(rows := p.rows + [Row(PendingOps(p)[|p.rows|])])))
  }

  // The directories follow the files.
  ghost predicate RecordDir(s: Root, t: Root)
  {
    && s.mem == Journalling && s.journal.Some?
    && var p := s.journal.value;
    && p.rows == Rows(PendingOps(p)) && |p.dirRows| < |p.created|
    && t == s.(journal := Some(p.(dirRows := p.dirRows + [p.created[|p.dirRows|]])))
  }

  predicate Journalled(p: Pending) { p.rows == Rows(PendingOps(p)) && p.dirRows == p.created }

  ghost predicate StartStaging(s: Root, t: Root)
  {
    && s.mem == Journalling && s.journal.Some? && Journalled(s.journal.value)
    && t == s.(mem := Staging)
  }

  // A listed directory is made, with what is missing on the way to it.
  ghost predicate MakeDirs(s: Root, t: Root)
  {
    && s.mem == Staging && s.journal.Some?
    && (exists d | d in DirRows(s.journal.value.txn.staged) ::
          !Blocked(s.tree, d) && s.dirs <= t.dirs <= s.dirs + Way(d))
    && t == s.(dirs := t.dirs)
  }

  // A write at a staged name: whole or partial content.
  ghost predicate StageWrite(s: Root, t: Root)
  {
    && s.mem == Staging && s.journal.Some?
    && exists p | p in AllStaged(PendingOps(s.journal.value)) :: p in t.tree && t == s.(tree := s.tree[p := t.tree[p]])
  }

  // Staging goes through only if every listed directory could be opened or made.
  predicate DirsMade(t: Tree, dirs: set<string>, txn: Txn)
  {
    forall d | d in DirRows(txn.staged) :: !Blocked(t, d) && d + "/" in dirs
  }

  ghost predicate StartApplying(s: Root, t: Root)
  {
    && s.mem == Staging && s.journal.Some?
    && StagedContent(PlanContext(s.db, s.journal.value), s.tree, s.journal.value.txn.changes)
    && DirsMade(s.tree, s.dirs, s.journal.value.txn)
    && t == s.(mem := Applying(s.tree, 0, false))
  }

  // A create or a removal: one rename, or none.
  ghost predicate ApplyOne(s: Root, t: Root)
  {
    && s.mem.Applying? && s.journal.Some? && !s.mem.halfway
    && var ops := PendingOps(s.journal.value);
    && s.mem.done < |ops| && ops[s.mem.done].action in {Create, Remove}
    && Ready(s.tree, ops[s.mem.done]) && Distinct(ops[s.mem.done])
    && t == s.(tree := Applied(s.tree, ops[s.mem.done]), mem := s.mem.(done := s.mem.done + 1))
  }

  ghost predicate ApplyFirst(s: Root, t: Root)
  {
    && s.mem.Applying? && s.journal.Some? && !s.mem.halfway
    && var ops := PendingOps(s.journal.value);
    && s.mem.done < |ops| && CanStart(s.tree, ops[s.mem.done])
    && t == s.(tree := Halfway(s.tree, ops[s.mem.done]), mem := s.mem.(halfway := true))
  }

  ghost predicate ApplySecond(s: Root, t: Root)
  {
    && s.mem.Applying? && s.journal.Some? && s.mem.halfway
    && var ops := PendingOps(s.journal.value);
    && s.mem.done < |ops|
    && var op := ops[s.mem.done];
    && op.stagedPath in s.tree
    && t == s.(tree := Move(s.tree, op.stagedPath, if op.action == Swap then op.backupPath else op.finalPath),
               mem := s.mem.(done := s.mem.done + 1, halfway := false))
  }

  // The package state and the closing of the journal, in one database transaction.
  ghost predicate CommitDb(s: Root, t: Root)
  {
    && s.mem.Applying? && s.journal.Some? && !s.mem.halfway
    && var p := s.journal.value;
    && s.mem.done == |PendingOps(p)|
    && Commit(s.db, p.txn.staged, p.txn.work).Some?
    && t == s.(db := Commit(s.db, p.txn.staged, p.txn.work).value, journal := None, mem := Discarding(PendingOps(p)))
  }

  ghost predicate Discard(s: Root, t: Root)
  {
    && s.mem.Discarding?
    && exists b | b in Discardable(s.mem.ops) :: t == s.(tree := s.tree - {b})
  }

  // Empty directories may go: after a commit, or with a rollback.
  ghost predicate RemoveDirs(s: Root, t: Root)
  {
    && (s.mem.Discarding? || s.mem == Reverting || s.mem == Recovering)
    && t.dirs <= s.dirs && InDirs(s.tree, t.dirs)
    && t == s.(dirs := t.dirs)
  }

  ghost predicate Done(s: Root, t: Root) { s.mem.Discarding? && t == s.(mem := Idle) }

  /** Failure, crash, recovery. */

  // Between the exchange and the rename of a swap: the one point the undo does
  // not cover (Undo.MidSwapUndo).
  predicate MidSwap(s: Root)
  {
    && s.mem.Applying? && s.mem.halfway && s.journal.Some?
    && s.mem.done < |PendingOps(s.journal.value)|
    && PendingOps(s.journal.value)[s.mem.done].action == Swap
  }

  // Any error before the commit, or in it, starts the rollback.
  ghost predicate Fail(s: Root, t: Root)
  {
    && (s.mem in {Journalling, Staging} || s.mem.Applying?) && !MidSwap(s)
    && t == s.(mem := Reverting)
  }

  ghost predicate Crash(s: Root, t: Root) { !MidSwap(s) && t == s.(mem := Idle) }

  // Recovery needs the operations, and gives up where they cannot be rebuilt.
  ghost predicate Recover(s: Root, t: Root)
  {
    && s.mem == Idle && s.journal.Some? && Rebuild(s.journal.value.rows, s.tree, s.dirs).Some?
    && t == s.(mem := Recovering)
  }

  // The operations being undone: the process's own, or those rebuilt from rows.
  function Undoing(s: Root): seq<FileOp>
    requires s.journal.Some?
  {
    if s.mem == Reverting then PendingOps(s.journal.value) else FromJournal(s.journal.value.rows, s.dirs)
  }

  ghost predicate UndoEffect(s: Root, t: Root)
  {
    && s.mem in {Reverting, Recovering} && s.journal.Some?
    && RollbackStep(s.tree, t.tree, Undoing(s))
    && t == s.(tree := t.tree)
  }

  // A rollback that hits an error leaves the journal pending.
  ghost predicate GiveUp(s: Root, t: Root) { s.mem in {Reverting, Recovering} && t == s.(mem := Idle) }

  // The directories to clean up: those in mind, or those in the journal.
  function ToClean(s: Root): seq<string>
    requires s.journal.Some?
  {
    if s.mem == Reverting then s.journal.value.created else s.journal.value.dirRows
  }

  // Nothing is left to undo and the clean-up of directories meets no error: the
  // journal row is closed.
  ghost predicate CloseRolledBack(s: Root, t: Root)
  {
    && s.mem in {Reverting, Recovering} && s.journal.Some?
    && (forall op | op in Undoing(s) :: Distinct(op))
    && UndoAll(s.tree, Undoing(s)) == s.tree
    && CleansUp(s.tree, s.dirs, ToClean(s))
    && t == s.(journal := None, mem := Idle)
  }

  // Between transactions anyone may change what the package manager does not own.
  ghost predicate Edit(s: Root, t: Root)
  {
    && s.mem == Idle && s.journal == None
    && (forall p | Managed(s.db, p) :: SameAt(s.tree, t.tree, p))
    && InDirs(t.tree, t.dirs) && NoFuture(t.tree, s.nextId)
    && t == s.(tree := t.tree, dirs := t.dirs)
  }

  ghost predicate Forward(s: Root, t: Root)
  {
    || Begin(s, t) || Refuse(s, t) || Record(s, t) || RecordDir(s, t)
    || StartStaging(s, t) || StageWrite(s, t) || MakeDirs(s, t) || StartApplying(s, t)
    || ApplyOne(s, t) || ApplyFirst(s, t) || ApplySecond(s, t)
  }

  ghost predicate Backward(s: Root, t: Root)
  {
    || Fail(s, t) || Crash(s, t) || Recover(s, t) || UndoEffect(s, t) || GiveUp(s, t) || CloseRolledBack(s, t)
  }

  ghost predicate Next(s: Root, t: Root)
  {
    || Forward(s, t) || Backward(s, t)
    || CommitDb(s, t) || Discard(s, t) || RemoveDirs(s, t) || Done(s, t) || Edit(s, t)
  }

  /** The invariant. */

  ghost predicate Inv(s: Root)
  {
    && InDirs(s.tree, s.dirs) && SoundDb(s.db) && NoFuture(s.tree, s.nextId)
    && match s.journal
       case None =>
         && Agree(s.tree, s.db)
         && (s.mem == Idle || s.mem.Discarding?)
         && (s.mem.Discarding? ==> forall p | Managed(s.db, p) :: p !in Discardable(s.mem.ops))
       case Some(p) => PendingInv(s, p)
  }

  // A transaction that was planned, or the trace of one that was refused.
  ghost predicate Begun(c: Context, txn: Txn) { GoodTxn(c, txn) || txn == NO_TXN }

  ghost predicate PendingInv(s: Root, p: Pending)
  {
    && p.id < s.nextId && NamesPast(PendingOps(p), s.nextId)
    && Sound(PlanContext(s.db, p)) && Begun(PlanContext(s.db, p), p.txn)
    && ((p.txn == NO_TXN && p.dirRows == [] && !(s.mem in {Journalling, Staging} || s.mem.Applying?))
        || (GoodTxn(PlanContext(s.db, p), p.txn) && CreatedFor(PlanContext(s.db, p), p.txn, p.created)))
    && |p.dirRows| <= |p.created| && p.dirRows == p.created[..|p.dirRows|]
    && (s.mem == Staging || s.mem.Applying? ==> Journalled(p))
    && (s.mem.Applying? ==> DirsClear(p.before, p.txn))
    && (p.dirRows != [] ==> p.rows == Rows(PendingOps(p)))
    && |p.rows| <= |PendingOps(p)| && p.rows == Rows(PendingOps(p)[..|p.rows|])
    && (!Journalled(p) ==> s.tree == p.before && s.mem in {Journalling, Idle, Reverting, Recovering})
    && (s.mem == Journalling ==> s.tree == p.before)
    && (!MidSwap(s) ==> Undoable(p.before, s.tree, PendingOps(p)))
    && (s.mem in {Journalling, Staging} || s.mem.Applying? ==> NeededDirs(PendingOps(p)) <= s.dirs)
    && (s.mem == Staging ==> StagedOver(p.before, s.tree, PendingOps(p)))
    && (s.mem.Applying? ==> ApplyingInv(s, p))
    && !s.mem.Discarding?
  }

  ghost predicate ApplyingInv(s: Root, p: Pending)
    requires s.mem.Applying?
  {
    var ops := PendingOps(p);
    && s.mem.done <= |ops|
    && StagedContent(PlanContext(s.db, p), s.mem.staged, p.txn.changes)
    && ApplyAll(s.mem.staged, ops[..s.mem.done]).Some?
    && var u := ApplyAll(s.mem.staged, ops[..s.mem.done]).value;
    if !s.mem.halfway then s.tree == u
    else s.mem.done < |ops| && CanStart(u, ops[s.mem.done]) && s.tree == Halfway(u, ops[s.mem.done])
  }
}
