/** What a transaction does to names in a directory, and how it is undone
    (internal/install/files.go, the reconstruction in journal.go). */
module FileOps {
  import opened Wrappers

  // A digest stands for the bytes of a regular file.
  datatype Entry = File(digest: string) | Symlink(target: string)

  // Everything that is not a directory, by absolute path.
  type Tree = map<string, Entry>

  datatype Action = Create | Replace | Remove | Swap

  // The three paths are siblings. `pinned` says that the parent directory was
  // found when the operation was planned (or rebuilt from the journal).
  datatype FileOp = FileOp(finalPath: string, action: Action, stagedPath: string, backupPath: string,
                           keepBackup: bool, pinned: bool)

  function Staged(op: FileOp): set<string> {
    if op.action == Remove then {} else {op.stagedPath}
  }

  function Backup(op: FileOp): set<string> {
    if op.action == Create then {} else {op.backupPath}
  }

  function Names(op: FileOp): set<string> { {op.finalPath} + Staged(op) + Backup(op) }

  function AllNames(ops: seq<FileOp>): set<string> { set op, p | op in ops && p in Names(op) :: p }

  function AllStaged(ops: seq<FileOp>): set<string> { set op, p | op in ops && p in Staged(op) :: p }

  // No operation meets another one's names, or its own under another role.
  ghost predicate Separated(ops: seq<FileOp>)
  {
    && (forall op | op in ops :: Distinct(op))
    && (forall i, j | 0 <= i < j < |ops| :: Names(ops[i]) !! Names(ops[j]))
  }

  predicate Distinct(op: FileOp)
  {
    && op.finalPath !in Staged(op)
    && op.finalPath !in Backup(op)
    && Staged(op) !! Backup(op)
  }

  // What planning against tree `t` establishes: temporary names are new, an
  // operation is a create exactly when nothing was there, and only the removal
  // of something already gone may lack a directory.
  predicate Planned(t: Tree, op: FileOp)
  {
    && Staged(op) !! t.Keys
    && Backup(op) !! t.Keys
    && (op.action == Create ==> op.finalPath !in t)
    && (op.action in {Replace, Swap} ==> op.finalPath in t)
    && (!op.pinned ==> op.action == Remove && op.finalPath !in t)
  }

  predicate AllPlanned(t: Tree, ops: seq<FileOp>) { forall op | op in ops :: Planned(t, op) }

  /** Commit. */

  function Move(t: Tree, from: string, to: string): Tree
    requires from in t
  {
    (t - {from})[to := t[from]]
  }

  function Exchanged(t: Tree, a: string, b: string): Tree
    requires a in t && b in t
  {
    t[a := t[b]][b := t[a]]
  }

  predicate Ready(t: Tree, op: FileOp)
  {
    && (op.pinned || op.action == Remove)
    && (op.action != Remove ==> op.stagedPath in t)
    && (op.action in {Replace, Swap} ==> op.finalPath in t)
  }

  // The first of the two renames of a replace or a swap can happen.
  predicate CanStart(t: Tree, op: FileOp)
  {
    && op.pinned
    && op.action in {Replace, Swap}
    && op.finalPath in t
    && (op.action == Swap ==> op.stagedPath in t)
  }

  // The tree between those two renames.
  function Halfway(t: Tree, op: FileOp): Tree
    requires CanStart(t, op)
  {
    if op.action == Replace then Move(t, op.finalPath, op.backupPath)
    else Exchanged(t, op.stagedPath, op.finalPath)
  }

  function Applied(t: Tree, op: FileOp): Tree
    requires Ready(t, op) && Distinct(op)
  {
    match op.action
    case Create => Move(t, op.stagedPath, op.finalPath)
    case Replace => Move(Halfway(t, op), op.stagedPath, op.finalPath)
    case Swap => Move(Halfway(t, op), op.stagedPath, op.backupPath)
    case Remove => if op.pinned && op.finalPath in t then Move(t, op.finalPath, op.backupPath) else t
  }

  // The tree after the operations in order; nothing when one cannot start.
  function ApplyAll(t: Tree, ops: seq<FileOp>): Option<Tree>
  {
    if ops == [] then Some(t)
    else
      var op := ops[|ops| - 1];
      match ApplyAll(t, ops[..|ops| - 1])
      case None => None
      case Some(u) => if Ready(u, op) && Distinct(op) then Some(Applied(u, op)) else None
  }

  /** Undo. */

  // The displaced original put back, when there is a backup to put back.
  function Restored(t: Tree, op: FileOp): Tree
    requires op.finalPath != op.backupPath
  {
    if op.backupPath in t then Move(t - {op.finalPath}, op.backupPath, op.finalPath) else t
  }

  function UndoOp(t: Tree, op: FileOp): Tree
    requires Distinct(op)
  {
    if !op.pinned then t
    else match op.action
      case Create => t - {op.finalPath} - {op.stagedPath}
      case Remove => Restored(t, op)
      case _ => Restored(t, op) - {op.stagedPath}
  }

  function UndoAll(t: Tree, ops: seq<FileOp>): Tree
    requires forall op | op in ops :: Distinct(op)
    decreases |ops|
  {
    if ops == [] then t
    else UndoAll(UndoOp(t, ops[|ops| - 1]), ops[..|ops| - 1])
  }
}
