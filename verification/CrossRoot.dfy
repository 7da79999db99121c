/** One transaction over several roots: a two-phase commit, and the recovery that
    settles it after a crash (ExecuteCrossRoot and RecoverCrossRoot in
    internal/install/execute.go). */
module CrossRoot {
  import opened Wrappers
  import opened FileOps
  import opened Undo
  import opened Metadata
  import opened Patch
  import opened Transactions
  import opened SingleRoot

  // The row tagged with the cross-root id in one root's database.
  datatype RowState = NoRow | Pended | Committed | RolledBack

  // A participant: its root, its row, the forward payload stored beside the row.
  datatype Part = Part(root: Root, row: RowState, payload: Option<CommitPayload>)

  // The executor. While it lives it holds every participant's lock.
  datatype Exec = Down | Preparing(at: nat) | Unwinding(left: nat) | Committing(at: nat)

  datatype World = World(parts: seq<Part>, exec: Exec)

  /** What one participant does. */

  ghost predicate StorePayload(a: Part, b: Part)
  {
    && a.row == Pended && a.root.journal.Some? && a.root.mem == Journalling
    && Journalled(a.root.journal.value)
    && b.payload.Some?
    && PayloadFor(b.payload.value, a.root.journal.value.txn.staged, a.root.journal.value.txn.work)
    && b == a.(payload := b.payload)
  }

  // One step of the prepare phase; staging starts once the payload is stored.
  ghost predicate Prepare(a: Part, b: Part)
  {
    || (a.row == NoRow && (Begin(a.root, b.root) || Refuse(a.root, b.root)) && b == Part(b.root, Pended, None))
    || StorePayload(a, b)
    || (&& a.row == Pended && b == a.(root := b.root)
        && (|| Record(a.root, b.root) || RecordDir(a.root, b.root)
            || StageWrite(a.root, b.root) || MakeDirs(a.root, b.root) || StartApplying(a.root, b.root)
            || ApplyOne(a.root, b.root) || ApplyFirst(a.root, b.root) || ApplySecond(a.root, b.root)
            || (a.payload.Some? && StartStaging(a.root, b.root))))
  }

  // The root has voted: journal, payload and every file change are in place.
  ghost predicate Voted(a: Part)
  {
    && a.row == Pended && a.root.journal.Some? && a.root.mem.Applying? && !a.root.mem.halfway
    && a.root.mem.done == |PendingOps(a.root.journal.value)|
  }

  // Rolling one participant back; an error leaves it pending.
  ghost predicate Unwind(a: Part, b: Part)
  {
    && a.row == Pended && a.root.mem in {Reverting, Recovering}
    && (|| (b == a.(root := b.root)
            && (UndoEffect(a.root, b.root) || RemoveDirs(a.root, b.root) || GiveUp(a.root, b.root)))
        || (b == a.(root := b.root, row := RolledBack) && CloseRolledBack(a.root, b.root)))
  }

  // The commit, what follows it, or its failure: then the participant stays
  // pending with its files applied.
  ghost predicate CommitPart(a: Part, b: Part)
  {
    || (a.row == Pended && b == a.(root := b.root, row := Committed) && CommitDb(a.root, b.root))
    || (a.row == Committed && b == a.(root := b.root)
        && (Discard(a.root, b.root) || RemoveDirs(a.root, b.root) || SingleRoot.Done(a.root, b.root)))
    || (Voted(a) && b == a.(root := a.root.(mem := Idle)))
  }

  // Recovery replays the stored payload and closes the row, in one database
  // transaction. Which backups were to be kept is no longer known.
  ghost predicate ReplayPart(a: Part, b: Part)
  {
    && a.row == Pended && a.root.journal.Some? && a.root.mem == Idle
    && a.payload.Some? && a.payload.value.version == PAYLOAD_VERSION
    && Replay(a.root.db, a.payload.value).Some?
    && b == a.(root := Forwarded(a.root, Replay(a.root.db, a.payload.value).value), row := Committed)
  }

  function Forwarded(s: Root, db: Tables.Db): Root
    requires s.journal.Some?
  {
    s.(db := db, journal := None, mem := Discarding(Rebuilt(s)))
  }

  // Backups are discarded where the operations can be rebuilt; a refusal is ignored.
  function Rebuilt(s: Root): seq<FileOp>
    requires s.journal.Some?
  {
    match Rebuild(s.journal.value.rows, s.tree, s.dirs)
    case None => []
    case Some(ops) => ops
  }

  // What the participant's own commit would leave, if the database takes it.
  function OwnCommit(s: Root): Option<Tables.Db>
    requires s.journal.Some?
  {
    Commit(s.db, s.journal.value.txn.staged, s.journal.value.txn.work)
  }

  /** The steps of the whole. */

  ghost predicate Moves(w: World, v: World, i: nat)
  {
    && i < |w.parts| && |v.parts| == |w.parts|
    && forall j | 0 <= j < |w.parts| && j != i :: v.parts[j] == w.parts[j]
  }

  // Phase one, root by root.
  ghost predicate PrepareStep(w: World, v: World)
  {
    && w.exec.Preparing? && v.exec == w.exec && Moves(w, v, w.exec.at)
    && Prepare(w.parts[w.exec.at], v.parts[w.exec.at])
  }

  ghost predicate PrepareNext(w: World, v: World)
  {
    && w.exec.Preparing? && w.exec.at < |w.parts| && Voted(w.parts[w.exec.at])
    && v == w.(exec := if w.exec.at + 1 == |w.parts| then Committing(0) else Preparing(w.exec.at + 1))
  }

  // A root that cannot prepare is rolled back, then those that had voted.
  ghost predicate PrepareFails(w: World, v: World)
  {
    && w.exec.Preparing? && w.exec.at < |w.parts|
    && var a := w.parts[w.exec.at];
       if a.row == NoRow then v == w.(exec := Unwinding(w.exec.at))
       else if a.root.mem == Reverting then v == w.(exec := Unwinding(w.exec.at + 1))
       else FailPart(w, v, w.exec.at) && v.exec == Unwinding(w.exec.at + 1)
  }

  ghost predicate FailPart(w: World, v: World, i: nat)
  {
    Moves(w, v, i) && v.parts[i] == w.parts[i].(root := v.parts[i].root) && Fail(w.parts[i].root, v.parts[i].root)
  }

  ghost predicate UnwindStep(w: World, v: World)
  {
    && w.exec.Unwinding? && v.exec == w.exec && 0 < w.exec.left
    && var i := w.exec.left - 1;
       FailPart(w, v, i) || (Moves(w, v, i) && Unwind(w.parts[i], v.parts[i]))
  }

  ghost predicate UnwindNext(w: World, v: World)
  {
    && w.exec.Unwinding? && w.exec.left <= |w.parts|
    && (w.exec.left > 0 ==> w.parts[w.exec.left - 1].root.mem == Idle)
    && v == w.(exec := if w.exec.left == 0 then Down else Unwinding(w.exec.left - 1))
  }

  // Phase two, root by root, past any failure.
  ghost predicate CommitStep(w: World, v: World)
  {
    && w.exec.Committing? && v.exec == w.exec && Moves(w, v, w.exec.at)
    && CommitPart(w.parts[w.exec.at], v.parts[w.exec.at])
  }

  ghost predicate CommitNext(w: World, v: World)
  {
    && w.exec.Committing? && w.exec.at < |w.parts| && w.parts[w.exec.at].root.mem == Idle
    && v == w.(exec := if w.exec.at + 1 == |w.parts| then Down else Committing(w.exec.at + 1))
  }

  // The machine stops: every process loses its memory, disks and databases stay.
  ghost predicate CrashAll(w: World, v: World)
  {
    && |v.parts| == |w.parts| && v.exec == Down
    && forall i | 0 <= i < |w.parts| ::
         Crash(w.parts[i].root, v.parts[i].root) && v.parts[i] == w.parts[i].(root := v.parts[i].root)
  }

  // A recovery that reaches these participants and sees none committed starts
  // rolling back every pending one.
  ghost predicate DecideBack(w: World, v: World, reach: set<nat>)
  {
    && w.exec == Down && v.exec == Down && |v.parts| == |w.parts|
    && (forall i | i in reach && i < |w.parts| :: w.parts[i].row != Committed)
    && forall i | 0 <= i < |w.parts| ::
         if i in reach && w.parts[i].row == Pended
         then Recover(w.parts[i].root, v.parts[i].root) && v.parts[i] == w.parts[i].(root := v.parts[i].root)
         else v.parts[i] == w.parts[i]
  }

  ghost predicate RecoverBack(w: World, v: World, i: nat)
  {
    && w.exec == Down && v.exec == Down && Moves(w, v, i)
    && w.parts[i].root.mem == Recovering && Unwind(w.parts[i], v.parts[i])
  }

  // One that sees a committed participant completes the pending ones.
  ghost predicate RollForward(w: World, v: World, i: nat)
  {
    && w.exec == Down && v.exec == Down && Moves(w, v, i)
    && (exists j :: 0 <= j < |w.parts| && w.parts[j].row == Committed)
    && ReplayPart(w.parts[i], v.parts[i])
  }

  // Other transactions go on in roots where this one is not pending; where it is,
  // they are refused.
  ghost predicate Other(w: World, v: World, i: nat)
  {
    && w.exec == Down && v.exec == Down && Moves(w, v, i) && w.parts[i].row != Pended
    && v.parts[i] == w.parts[i].(root := v.parts[i].root) && SingleRoot.Next(w.parts[i].root, v.parts[i].root)
  }

  ghost predicate ExecStep(w: World, v: World)
  {
    || PrepareStep(w, v) || PrepareNext(w, v) || PrepareFails(w, v) || UnwindStep(w, v) || UnwindNext(w, v)
    || CommitStep(w, v) || CommitNext(w, v) || CrashAll(w, v)
  }

  ghost predicate RecoveryStep(w: World, v: World)
  {
    || (exists reach :: DecideBack(w, v, reach))
    || (exists i :: RecoverBack(w, v, i)) || (exists i :: RollForward(w, v, i)) || (exists i :: Other(w, v, i))
  }

  ghost predicate CrossNext(w: World, v: World) { ExecStep(w, v) || RecoveryStep(w, v) }

  ghost predicate SomeCommitted(w: World)
  {
    exists i :: 0 <= i < |w.parts| && w.parts[i].row == Committed
  }

  // The one dangerous step: rolling back because no committed participant is
  // within reach, although there is one.
  ghost predicate Blind(w: World, v: World)
  {
    SomeCommitted(w) && exists reach :: DecideBack(w, v, reach)
  }

  /** The invariant. */

  ghost predicate PartInv(a: Part)
  {
    && Inv(a.root)
    && (a.row == Pended ==>
          && a.root.journal.Some?
          && var p := a.root.journal.value;
          && (a.payload.Some? ==>
                && PayloadFor(a.payload.value, p.txn.staged, p.txn.work) && GoodTxn(PlanContext(a.root.db, p), p.txn)
                && Journalled(p))
          && (a.root.mem == Staging || a.root.mem.Applying? ==> a.payload.Some?))
  }

  // Every file change is in place and nothing is committed.
  ghost predicate FullyApplied(s: Root, p: Pending)
  {
    exists staged ::
      && StagedContent(PlanContext(s.db, p), staged, p.txn.changes)
      && ApplyAll(staged, PendingOps(p)) == Some(s.tree)
  }

  // Pending, complete, and not being undone.
  ghost predicate Standing(a: Part)
  {
    && a.row == Pended && a.payload.Some? && a.root.journal.Some?
    && (a.root.mem == Idle || a.root.mem.Applying?)
    && FullyApplied(a.root, a.root.journal.value)
  }

  ghost predicate Going(w: World)
  {
    forall i | 0 <= i < |w.parts| :: w.parts[i].row == Committed || Standing(w.parts[i])
  }

  ghost predicate CrossInv(w: World)
  {
    && (forall i | 0 <= i < |w.parts| :: PartInv(w.parts[i]))
    && (SomeCommitted(w) ==> Going(w))
    && match w.exec
       case Down => true
       case Preparing(k) => !SomeCommitted(w) && forall i | 0 <= i < k && i < |w.parts| :: Standing(w.parts[i])
       case Unwinding(_) => !SomeCommitted(w)
       case Committing(_) => Going(w)
  }
}
