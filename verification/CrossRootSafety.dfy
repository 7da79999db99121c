/** A transaction over several roots is all or nothing. */
module CrossRootSafety {
  import opened Wrappers
  import opened TempNames
  import opened FileOps
  import opened CreatedDirs
  import opened Undo
  import opened Disks
  import opened Metadata
  import opened Planning
  import opened Patch
  import opened Claims
  import opened Committable
  import opened Transactions
  import opened SingleRoot
  import opened SingleRootSafety
  import opened CrossRoot

  /** One participant. */

  lemma OwnStepKeeps(a: Part, b: Part)
    requires PartInv(a) && SingleRoot.Next(a.root, b.root)
    requires a.row == Pended && b.row == Pended ==>
               && b.root.journal.Some? && a.root.journal.Some? && b.payload == a.payload
               && b.root.journal.value.txn == a.root.journal.value.txn
               && PlanContext(b.root.db, b.root.journal.value) == PlanContext(a.root.db, a.root.journal.value)
               && (Journalled(a.root.journal.value) ==> Journalled(b.root.journal.value))
               && (b.root.mem == Staging || b.root.mem.Applying? ==>
                     a.root.mem == Staging || a.root.mem.Applying? || a.payload.Some?)
    requires b.row == Pended ==> a.row == Pended
    ensures PartInv(b)
  {
    hide Inv, SingleRoot.Next;
    StepKeeps(a.root, b.root);
  }

  lemma PrepareKeeps(a: Part, b: Part)
    requires PartInv(a) && Prepare(a, b)
    ensures PartInv(b) && b.row == Pended
  {
    hide Inv, GoodTxn, StagedContent, NoFuture, Agree, SoundDb, PayloadFor;
    if a.row == NoRow {
      StepKeeps(a.root, b.root);
    } else if !StorePayload(a, b) {
      OwnStepKeeps(a, b);
    } else {
      PlannedWell(a.root);
    }
  }

  lemma PlannedWell(s: Root)
    requires Inv(s) && s.journal.Some? && s.mem == Journalling
    ensures GoodTxn(PlanContext(s.db, s.journal.value), s.journal.value.txn)
  {
    hide GoodTxn, Sound, NamesPast, Undoable, SoundDb, NoFuture, InDirs;
  }

  lemma UnwindKeeps(a: Part, b: Part)
    requires PartInv(a) && Unwind(a, b)
    ensures PartInv(b) && b.row != Committed
  {
    hide Inv, UndoAll, Undoing, RollbackStep, Distinct, PayloadFor;
    OwnStepKeeps(a, b);
  }

  lemma FailKeeps(a: Part, b: Part)
    requires PartInv(a) && (Fail(a.root, b.root) || Crash(a.root, b.root) || Recover(a.root, b.root))
    requires b == a.(root := b.root)
    ensures PartInv(b)
  {
    hide Inv, PayloadFor;
    OwnStepKeeps(a, b);
  }

  lemma VotedStands(a: Part)
    requires PartInv(a) && Voted(a)
    ensures Standing(a)
  {
    hide GoodTxn, StagedContent, NoFuture, Agree, SoundDb, PayloadFor, Sound, NamesPast, Undoable, InDirs;
    var p := a.root.journal.value;
    assert PendingOps(p)[..|PendingOps(p)|] == PendingOps(p);
  }

  // Losing memory leaves a complete participant complete.
  lemma StandsAlone(a: Part, b: Part)
    requires Standing(a) && b == a.(root := a.root.(mem := Idle))
    ensures Standing(b)
  {
    hide StagedContent, ApplyAll;
    var p := a.root.journal.value;
    assert PlanContext(b.root.db, p) == PlanContext(a.root.db, p);
    assert FullyApplied(b.root, p);
  }

  // What a completed participant's disk and rows are once they are committed.
  lemma CommitMatches(s: Root, p: Pending)
    requires Inv(s) && s.journal == Some(p) && FullyApplied(s, p) && GoodTxn(PlanContext(s.db, p), p.txn)
    ensures OwnCommit(s).Some? ==> Agree(s.tree, OwnCommit(s).value) && SoundDb(OwnCommit(s).value)
  {
    hide StagedContent, ApplyAll, Sound, GoodTxn, Agree, SoundDb;
    hide NamesPast, Undoable, InDirs, NoFuture, Separated, AllPlanned, Begun, Commit;
    var c := PlanContext(s.db, p);
    var staged :| StagedContent(c, staged, p.txn.changes) && ApplyAll(staged, PendingOps(p)) == Some(s.tree);
    TransactionIsSound(c, p.txn, staged);
  }

  lemma JournalTemp(c: Context, txn: Txn, rows: seq<TxnFile>, dirs: set<string>, x: string)
    requires Sound(c) && GoodTxn(c, txn) && |rows| <= |Ops(txn.changes)| && rows == Rows(Ops(txn.changes)[..|rows|])
    requires x in Discardable(FromJournal(rows, dirs))
    ensures Carries(x, c.id)
  {
    hide Carries, Sound, GoodTxn, Shaped, Dir;
    GoodTxnShaped(c, txn);
    var journal := FromJournal(rows, dirs);
    var j :| j in journal && j.action != Create && !j.keepBackup && j.pinned && x == j.backupPath;
    var i :| 0 <= i < |journal| && journal[i] == j;
    var op := Ops(txn.changes)[i];
    assert op in Ops(txn.changes) && rows[i] == Row(op);
    ShapedNames(c, op);
    assert Distinct(op) && x in Names(op);
  }

  lemma ForwardedInv(s: Root, p: Pending)
    requires Inv(s) && s.journal == Some(p) && FullyApplied(s, p) && GoodTxn(PlanContext(s.db, p), p.txn)
    requires OwnCommit(s).Some?
    ensures Inv(Forwarded(s, OwnCommit(s).value))
    ensures forall q | Managed(OwnCommit(s).value, q) :: q !in Discardable(Rebuilt(s))
  {
    hide FullyApplied, Sound, GoodTxn, Agree, SoundDb, NamesPast, Begun, OwnCommit;
    hide Undoable, InDirs, NoFuture, Managed, Discardable, FromJournal, Rebuilt;
    CommitMatches(s, p);
    var c := PlanContext(s.db, p);
    forall q | Managed(OwnCommit(s).value, q)
      ensures q !in Discardable(Rebuilt(s))
    {
      OwnIsNotTemp(s, p, q);
      if q in Discardable(Rebuilt(s)) {
        RebuiltFrom(s, q);
        JournalTemp(c, p.txn, p.rows, s.dirs, q);
      }
    }
  }

  lemma OwnIsNotTemp(s: Root, p: Pending, q: string)
    requires s.journal == Some(p) && Sound(PlanContext(s.db, p)) && GoodTxn(PlanContext(s.db, p), p.txn)
    requires OwnCommit(s).Some? && Managed(OwnCommit(s).value, q)
    ensures !Carries(q, p.id)
  {
    hide Sound, GoodTxn, Managed, Carries, Commit;
    ManagedIsNotTemp(PlanContext(s.db, p), p.txn, q);
  }

  lemma RebuiltFrom(s: Root, q: string)
    requires s.journal.Some? && q in Discardable(Rebuilt(s))
    ensures q in Discardable(FromJournal(s.journal.value.rows, s.dirs))
  {
    hide FromJournal;
  }

  // Replaying the payload of a complete participant does to its database exactly
  // what its own commit would have done, and is refused exactly when that is.
  lemma ReplayIsCommit(a: Part)
    requires PartInv(a) && Standing(a)
    ensures Replay(a.root.db, a.payload.value) == OwnCommit(a.root)
    ensures a.payload.value.version == PAYLOAD_VERSION
    ensures OwnCommit(a.root).Some? ==> Agree(a.root.tree, OwnCommit(a.root).value) && SoundDb(OwnCommit(a.root).value)
  {
    hide FullyApplied, Inv, Replay, Commit, GoodTxn, Agree, SoundDb;
    var p := a.root.journal.value;
    CommitMatches(a.root, p);
    RollForwardRefinesCommit(a.root.db, p.txn.staged, p.txn.work, a.payload.value);
  }

  // When that is: for the plan it carries out, exactly when a row cannot go in.
  lemma ReplayIsRefused(a: Part, plan: seq<PkgOp>, installed: seq<Installed>, post: map<string, string>,
                        desired: seq<Link>)
    requires PartInv(a) && Standing(a)
    requires Transacts(PlanContext(a.root.db, a.root.journal.value), plan, installed, post, desired,
                       a.root.journal.value.txn)
    ensures Replay(a.root.db, a.payload.value).Some? <==> RowsCommit(a.root.db, plan)
  {
    hide FullyApplied, Replay, Commit, GoodTxn, Transacts, RowsCommit;
    hide PendingInv, NoFuture, InDirs, Agree, LinksDesired;
    ReplayIsCommit(a);
    CommitIsExact(PlanContext(a.root.db, a.root.journal.value), plan, installed, post, desired,
      a.root.journal.value.txn);
  }

  lemma ReplayKeeps(a: Part, b: Part)
    requires PartInv(a) && Standing(a) && ReplayPart(a, b)
    ensures PartInv(b) && OwnCommit(a.root) == Some(b.root.db)
  {
    hide FullyApplied, Inv, Replay, GoodTxn, OwnCommit, Agree, SoundDb, Rebuilt;
    ReplayIsCommit(a);
    ForwardedInv(a.root, a.root.journal.value);
  }

  lemma CommitPartKeeps(a: Part, b: Part)
    requires PartInv(a) && CommitPart(a, b) && (a.row == Committed || Standing(a))
    ensures PartInv(b) && (b.row == Committed || Standing(b))
  {
    hide Inv, FullyApplied, Commit, Discardable, PayloadFor, InDirs;
    if a.row == Pended && b.row == Pended {
      StandsAlone(a, b);
      NotMidSwap(a);
      FailKeeps(a, b);
    } else {
      OwnStepKeeps(a, b);
    }
  }

  lemma NotMidSwap(a: Part)
    requires Voted(a)
    ensures !MidSwap(a.root)
  {
  }

  /** The whole. */

  lemma MovedPart(w: World, v: World, i: nat)
    requires CrossInv(w) && Moves(w, v, i) && PartInv(v.parts[i])
    requires v.parts[i].row == Committed ==> w.parts[i].row == Committed || Going(w)
    requires Going(w) ==> v.parts[i].row == Committed || Standing(v.parts[i])
    ensures forall j | 0 <= j < |v.parts| :: PartInv(v.parts[j])
    ensures Going(w) ==> Going(v)
    ensures SomeCommitted(v) ==> Going(v)
  {
    hide PartInv, Standing;
    assert forall j | 0 <= j < |v.parts| && v.parts[j].row == Committed :: w.parts[j].row == Committed || Going(w);
  }

  lemma StillNoneCommitted(w: World, v: World, i: nat)
    requires !SomeCommitted(w) && Moves(w, v, i) && v.parts[i].row != Committed
    ensures !SomeCommitted(v)
  {
    assert forall j | 0 <= j < |w.parts| :: w.parts[j].row != Committed;
  }

  lemma SameRows(w: World, v: World)
    requires |w.parts| == |v.parts| && forall j | 0 <= j < |w.parts| :: w.parts[j].row == v.parts[j].row
    ensures SomeCommitted(w) <==> SomeCommitted(v)
  {
    assert forall j | 0 <= j < |w.parts| :: w.parts[j].row == v.parts[j].row;
  }

  lemma PrepareStepKeeps(w: World, v: World)
    requires CrossInv(w) && PrepareStep(w, v)
    ensures CrossInv(v)
  {
    hide PartInv, Standing, Prepare;
    PrepareKeeps(w.parts[w.exec.at], v.parts[w.exec.at]);
    StillNoneCommitted(w, v, w.exec.at);
  }

  lemma PrepareNextKeeps(w: World, v: World)
    requires CrossInv(w) && PrepareNext(w, v)
    ensures CrossInv(v)
  {
    hide PartInv, Standing, Voted;
    VotedStands(w.parts[w.exec.at]);
    SameRows(w, v);
  }

  lemma BackwardKeeps(w: World, v: World, i: nat)
    requires CrossInv(w) && !SomeCommitted(w) && Moves(w, v, i) && (v.exec.Unwinding? || v.exec == Down)
    requires FailPart(w, v, i) || Unwind(w.parts[i], v.parts[i])
    ensures CrossInv(v)
  {
    hide PartInv, Standing, Unwind, Fail;
    if FailPart(w, v, i) { FailKeeps(w.parts[i], v.parts[i]); } else { UnwindKeeps(w.parts[i], v.parts[i]); }
    RowNotCommitted(w, v, i);
    StillNoneCommitted(w, v, i);
  }

  lemma RowNotCommitted(w: World, v: World, i: nat)
    requires !SomeCommitted(w) && Moves(w, v, i)
    requires FailPart(w, v, i) || Unwind(w.parts[i], v.parts[i])
    ensures v.parts[i].row != Committed
  {
    hide Fail, UndoEffect, RemoveDirs, GiveUp, CloseRolledBack;
    assert w.parts[i].row != Committed;
  }

  lemma CommitStepKeeps(w: World, v: World)
    requires CrossInv(w) && CommitStep(w, v)
    ensures CrossInv(v)
  {
    hide PartInv, Standing, CommitPart;
    CommitPartKeeps(w.parts[w.exec.at], v.parts[w.exec.at]);
    MovedPart(w, v, w.exec.at);
  }

  lemma SchedulingKeeps(w: World, v: World)
    requires CrossInv(w) && v.parts == w.parts
             && (v.exec == w.exec || UnwindNext(w, v) || CommitNext(w, v) || PrepareFails(w, v))
    ensures CrossInv(v)
  {
    hide PartInv, Standing, Fail;
    SameRows(w, v);
  }

  lemma CrashAllKeeps(w: World, v: World)
    requires CrossInv(w) && CrashAll(w, v)
    ensures CrossInv(v)
  {
    hide PartInv, Standing, Crash;
    forall i | 0 <= i < |v.parts|
      ensures PartInv(v.parts[i])
      ensures v.parts[i].row == w.parts[i].row && (Standing(w.parts[i]) ==> Standing(v.parts[i]))
    {
      CrashPart(w.parts[i], v.parts[i]);
    }
    SameRows(w, v);
  }

  lemma CrashPart(a: Part, b: Part)
    requires PartInv(a) && Crash(a.root, b.root) && b == a.(root := b.root)
    ensures PartInv(b) && (Standing(a) ==> Standing(b))
  {
    hide PartInv, Standing;
    FailKeeps(a, b);
    if Standing(a) {
      StandsAlone(a, b);
    }
  }

  lemma DecideBackKeeps(w: World, v: World, reach: set<nat>)
    requires CrossInv(w) && DecideBack(w, v, reach) && !SomeCommitted(w)
    ensures CrossInv(v)
  {
    hide PartInv, Standing, Recover;
    forall i | 0 <= i < |v.parts|
      ensures PartInv(v.parts[i]) && v.parts[i].row == w.parts[i].row
    {
      if i in reach && w.parts[i].row == Pended { FailKeeps(w.parts[i], v.parts[i]); }
    }
    SameRows(w, v);
  }

  lemma RecoverBackKeeps(w: World, v: World, i: nat)
    requires CrossInv(w) && RecoverBack(w, v, i)
    ensures CrossInv(v)
  {
    hide PartInv, FullyApplied, Unwind;
    PendedNow(w.parts[i], v.parts[i]);
    assert SomeCommitted(w) ==> Standing(w.parts[i]);
    BackwardKeeps(w, v, i);
  }

  lemma PendedNow(a: Part, b: Part)
    requires Unwind(a, b)
    ensures a.row == Pended
  {
    hide UndoEffect, RemoveDirs, GiveUp, CloseRolledBack;
  }

  lemma RollForwardKeeps(w: World, v: World, i: nat)
    requires CrossInv(w) && RollForward(w, v, i)
    ensures CrossInv(v) && v.parts[i].row == Committed
    ensures w.parts[i].root.journal.Some? && OwnCommit(w.parts[i].root) == Some(v.parts[i].root.db)
  {
    hide PartInv, Standing, OwnCommit;
    assert SomeCommitted(w);
    RollsForward(w.parts[i], v.parts[i]);
    ReplayKeeps(w.parts[i], v.parts[i]);
    MovedPart(w, v, i);
  }

  lemma RollsForward(a: Part, b: Part)
    requires ReplayPart(a, b)
    ensures a.row == Pended && b.row == Committed && a.root.journal.Some?
  {
    hide Replay, Forwarded;
  }

  lemma OtherKeeps(w: World, v: World, i: nat)
    requires CrossInv(w) && Other(w, v, i)
    ensures CrossInv(v)
  {
    hide PartInv, SingleRoot.Next, FullyApplied;
    OwnStepKeeps(w.parts[i], v.parts[i]);
    assert Going(w) ==> v.parts[i].row == Committed || Standing(w.parts[i]);
    assert v.parts[i].row == Committed ==> SomeCommitted(w);
    MovedPart(w, v, i);
  }

  lemma CrossStepKeeps(w: World, v: World)
    requires CrossInv(w) && CrossNext(w, v) && !Blind(w, v)
    ensures CrossInv(v)
  {
    hide CrossInv, PrepareStep, PrepareNext, UnwindNext, CommitStep, CommitNext;
    hide CrashAll, DecideBack, RecoverBack, RollForward, Other;
    if ExecStep(w, v) {
      ExecStepKeeps(w, v);
    } else if reach :| DecideBack(w, v, reach) {
      assert !SomeCommitted(w);
      DecideBackKeeps(w, v, reach);
    } else if i :| RecoverBack(w, v, i) {
      RecoverBackKeeps(w, v, i);
    } else if i :| RollForward(w, v, i) {
      RollForwardKeeps(w, v, i);
    } else {
      var i :| Other(w, v, i);
      OtherKeeps(w, v, i);
    }
  }

  lemma ExecStepKeeps(w: World, v: World)
    requires CrossInv(w) && ExecStep(w, v)
    ensures CrossInv(v)
  {
    hide PartInv, Standing, PrepareStep, PrepareNext, CommitStep, CrashAll, Fail, Unwind, Moves, Voted;
    if PrepareStep(w, v) { PrepareStepKeeps(w, v); }
    else if PrepareNext(w, v) { PrepareNextKeeps(w, v); }
    else if CommitStep(w, v) { CommitStepKeeps(w, v); }
    else if CrashAll(w, v) { CrashAllKeeps(w, v); }
    else if UnwindNext(w, v) || CommitNext(w, v) { SchedulingKeeps(w, v); }
    else if PrepareFails(w, v) {
      if v.parts == w.parts { SchedulingKeeps(w, v); } else { BackwardKeeps(w, v, w.exec.at); }
    } else {
      BackwardKeeps(w, v, w.exec.left - 1);
    }
  }

  /** The main results. */

  // The executor has just taken every lock and settled what was pending before.
  ghost predicate CrossStart(w: World)
  {
    && w.parts != [] && w.exec == Preparing(0)
    && forall i | 0 <= i < |w.parts| :: w.parts[i].row == NoRow && AtRest(w.parts[i].root)
  }

  // No recovery along the run rolled back out of sight of a commit.
  ghost predicate CrossRun(run: seq<World>)
  {
    && run != [] && CrossStart(run[0])
    && forall i | 0 <= i < |run| - 1 :: CrossNext(run[i], run[i + 1]) && !Blind(run[i], run[i + 1])
  }

  lemma StartInv(w: World)
    requires CrossStart(w)
    ensures CrossInv(w)
  {
    hide AtRest, Inv;
    forall i | 0 <= i < |w.parts|
      ensures PartInv(w.parts[i])
    {
      RestIsInv(w.parts[i].root);
    }
  }

  lemma {:induction false} CrossRunKeepsInv(run: seq<World>, k: nat)
    requires CrossRun(run) && k < |run|
    ensures CrossInv(run[k])
  {
    hide CrossInv, CrossNext, Blind, CrossStart;
    if k == 0 {
      StartInv(run[0]);
    } else {
      CrossRunKeepsInv(run, k - 1);
      CrossStepKeeps(run[k - 1], run[k]);
    }
  }

  // In every reachable state no participant is committed while another is rolled
  // back, or was never begun; and a pending one with a committed sibling has all
  // its files in place and its payload stored.
  lemma CrossRunsAreAtomic(run: seq<World>, k: nat, i: nat, j: nat)
    requires CrossRun(run) && k < |run| && i < |run[k].parts| && j < |run[k].parts|
    requires run[k].parts[i].row == Committed
    ensures run[k].parts[j].row in {Committed, Pended}
    ensures run[k].parts[j].row == Pended ==> Standing(run[k].parts[j])
  {
    hide CrossRun, FullyApplied, PartInv;
    CrossRunKeepsInv(run, k);
  }

  // The three ways a participant's row is closed.
  ghost predicate Closes(a: Part, b: Part)
  {
    Unwind(a, b) || (Standing(a) && CommitPart(a, b)) || (Standing(a) && ReplayPart(a, b))
  }

  lemma ClosedBy(w: World, v: World, i: nat)
    requires CrossInv(w) && CrossNext(w, v) && !Blind(w, v) && i < |w.parts| && i < |v.parts|
    requires w.parts[i].row == Pended && v.parts[i].row != Pended
    ensures Closes(w.parts[i], v.parts[i])
  {
    hide PartInv, FullyApplied, Unwind, CommitPart, ReplayPart, Fail, Crash, Recover, SingleRoot.Next, Prepare, Voted;
    if PrepareStep(w, v) && i == w.exec.at {
      PrepareKeeps(w.parts[i], v.parts[i]);
    } else if j: nat :| RollForward(w, v, j) {
      RollsForward(w.parts[j], v.parts[j]);
      assert SomeCommitted(w);
    } else if j: nat :| RecoverBack(w, v, j) {
      assert i == j;
    }
  }

  lemma ClosedExactly(a: Part, b: Part)
    requires PartInv(a) && a.row == Pended && Closes(a, b) && b.row != Pended
    ensures a.root.journal.Some? && b.row in {Committed, RolledBack}
    ensures b.row == Committed ==> b.root.tree == a.root.tree && OwnCommit(a.root) == Some(b.root.db)
    ensures b.row == RolledBack ==> b.root.tree == a.root.journal.value.before && b.root.db == a.root.db
    ensures Agree(b.root.tree, b.root.db)
  {
    hide FullyApplied, Inv, Replay, Commit, Undoing, UndoAll, Agree, PayloadFor, FromJournal, GoodTxn, SoundDb, Rebuilt;
    JournalThere(a);
    var p := a.root.journal.value;
    if b.row == Committed {
      ReplayIsCommit(a);
    } else {
      ClosedWhenUndone(a.root, b.root);
      SoundBefore(a.root, p);
    }
  }

  lemma ClosedWhenUndone(s: Root, t: Root)
    requires Inv(s) && CloseRolledBack(s, t)
    ensures t.tree == s.journal.value.before && t.db == s.db
  {
    hide GoodTxn, SoundDb, NoFuture, NamesPast, Undoable, Carries;
    UndoingRestores(s, s.journal.value);
  }

  // A participant's row closes with the whole effect or none: the database of its
  // own commit over a disk that matches it, or its prior tree and database.
  lemma OutcomeIsWhole(run: seq<World>, k: nat, i: nat)
    requires CrossRun(run) && k + 1 < |run| && i < |run[k].parts| && i < |run[k + 1].parts|
    requires run[k].parts[i].row == Pended && run[k + 1].parts[i].row != Pended
    ensures var a, b := run[k].parts[i], run[k + 1].parts[i];
      && a.root.journal.Some? && b.row in {Committed, RolledBack}
      && (b.row == Committed ==> b.root.tree == a.root.tree && OwnCommit(a.root) == Some(b.root.db))
      && (b.row == RolledBack ==> b.root.tree == a.root.journal.value.before && b.root.db == a.root.db)
      && Agree(b.root.tree, b.root.db)
  {
    hide PartInv, CrossNext, Blind, Agree, Closes;
    CrossRunKeepsInv(run, k);
    ClosedBy(run[k], run[k + 1], i);
    ClosedExactly(run[k].parts[i], run[k + 1].parts[i]);
  }

  // What settling does to one participant: committed from its payload, or undone
  // from its journal. `None` is a refusal.
  function Settled(a: Part, forward: bool): Option<Part>
  {
    if a.row != Pended || a.root.journal.None? then Some(a)
    else
      if forward then
        if a.payload.None? || a.payload.value.version != PAYLOAD_VERSION then None
        else match Replay(a.root.db, a.payload.value)
          case None => None
          case Some(d) =>
            Some(a.(root := a.root.(db := d, journal := None, tree := a.root.tree - Discardable(Rebuilt(a.root))),
                    row := Committed))
      else match Rebuild(a.root.journal.value.rows, a.root.tree, a.root.dirs)
        case None => None
        case Some(ops) =>
          if (forall op | op in ops :: Distinct(op))
             && CleansUp(UndoAll(a.root.tree, ops), a.root.dirs, a.root.journal.value.dirRows)
          then Some(a.(root := a.root.(tree := UndoAll(a.root.tree, ops), journal := None), row := RolledBack))
          else None
  }

  // The participants a recovery leaves: those within reach settled one way, which
  // way depending on whether one of them is committed.
  ghost predicate Reconciled(parts: seq<Part>, reach: set<nat>, after: seq<Part>)
  {
    && |after| == |parts|
    && forall i | 0 <= i < |parts| ::
         if i in reach then Settled(parts[i], SeesCommit(parts, reach)) == Some(after[i]) else after[i] == parts[i]
  }

  predicate SeesCommit(parts: seq<Part>, reach: set<nat>)
  {
    exists i :: 0 <= i < |parts| && i in reach && parts[i].row == Committed
  }

  // RecoverCrossRoot. Any participant's database or disk may fail; the error stops
  // the loop and leaves the rest pending.
  method RecoverCrossRoot(parts: seq<Part>, reach: set<nat>) returns (ok: bool, reconciled: bool, after: seq<Part>)
    ensures ok ==> Reconciled(parts, reach, after)
    ensures |after| == |parts| && forall i | 0 <= i < |parts| ::
              after[i] == parts[i] || (i in reach && Settled(parts[i], SeesCommit(parts, reach)) == Some(after[i]))
    ensures ok ==> (reconciled <==> exists i :: 0 <= i < |parts| && i in reach && parts[i].row == Pended)
  {
    var forward := false;
    reconciled := false;
    for i := 0 to |parts|
      invariant forward <==> exists j :: 0 <= j < i && j in reach && parts[j].row == Committed
      invariant reconciled <==> exists j :: 0 <= j < i && j in reach && parts[j].row == Pended
    {
      if i in reach && parts[i].row == Committed { forward := true; }
      if i in reach && parts[i].row == Pended { reconciled := true; }
    }
    after := parts;
    for i := 0 to |parts|
      invariant |after| == |parts| && forall j | i <= j < |parts| :: after[j] == parts[j]
      invariant forall j | 0 <= j < i ::
                  if j in reach then Settled(parts[j], forward) == Some(after[j]) else after[j] == parts[j]
    {
      if i in reach {
        var fault: bool := *;
        var next := Settled(parts[i], forward);
        if fault || next.None? { return false, reconciled, after; }
        after := after[i := next.value];
      }
    }
    return true, reconciled, after;
  }

  ghost predicate Torn(parts: seq<Part>)
  {
    && (exists i :: 0 <= i < |parts| && parts[i].row == Committed)
    && (exists i :: 0 <= i < |parts| && parts[i].row == RolledBack)
  }

  ghost predicate Quiescent(w: World)
  {
    w.exec == Down && forall i | 0 <= i < |w.parts| && w.parts[i].row == Pended :: w.parts[i].root.mem == Idle
  }

  lemma SettlesBack(a: Part)
    requires PartInv(a) && a.row == Pended && a.root.mem == Idle
    ensures Settled(a, false).Some? <==>
            CleansUp(a.root.journal.value.before, a.root.dirs, a.root.journal.value.dirRows)
    ensures Settled(a, false).Some? ==>
              && Settled(a, false).value.row == RolledBack && AtRest(Settled(a, false).value.root)
              && Settled(a, false).value.root.tree == a.root.journal.value.before
              && Settled(a, false).value.root.db == a.root.db
  {
    hide Agree, SoundDb, NoFuture, Distinct, GoodTxn, Undoable, NamesPast;
    hide Carries, Dir, Sound, PayloadFor, FromJournal, UndoAll, Rebuild, Begun, CleansUp, CreatedFor, DirsClear;
    UndoingRestores(a.root, a.root.journal.value);
    RestoredDirs(a.root, a.root.journal.value);
    SoundBefore(a.root, a.root.journal.value);
  }

  lemma SoundBefore(s: Root, p: Pending)
    requires Inv(s) && s.journal == Some(p)
    ensures Agree(p.before, s.db)
  {
    hide Agree, SoundDb, NoFuture, GoodTxn, Undoable, NamesPast, Carries, Dir;
  }

  lemma SettlesForward(a: Part)
    requires PartInv(a) && Standing(a) && a.root.mem == Idle
    ensures Settled(a, true).Some? <==> OwnCommit(a.root).Some?
    ensures Settled(a, true).Some? ==>
              && Settled(a, true).value.row == Committed && AtRest(Settled(a, true).value.root)
              && OwnCommit(a.root) == Some(Settled(a, true).value.root.db)
  {
    hide FullyApplied, Replay, Inv, Agree, SoundDb, NoFuture, InDirs, Managed, Discardable, Rebuilt, GoodTxn, OwnCommit;
    var p := a.root.journal.value;
    ReplayIsCommit(a);
    if OwnCommit(a.root).Some? {
      ForwardedInv(a.root, p);
      DiscardedRest(Forwarded(a.root, OwnCommit(a.root).value));
    }
  }

  lemma DiscardedRest(s: Root)
    requires Inv(s) && s.journal == None && s.mem.Discarding?
    ensures AtRest(s.(tree := s.tree - Discardable(s.mem.ops), mem := Idle))
  {
    hide Agree, SoundDb, Managed, Discardable, Carries;
    AgreeKept(s.tree, s.tree - Discardable(s.mem.ops), s.db);
  }

  // A recovery that reaches every participant and finishes settles them all: if
  // one was committed, all are, each database as its own commit would have left
  // it; otherwise every participant is back at its prior tree and database.
  lemma RecoveryIsTotal(run: seq<World>, k: nat, after: seq<Part>, reach: set<nat>, i: nat)
    requires CrossRun(run) && k < |run| && Quiescent(run[k]) && Reconciled(run[k].parts, reach, after)
    requires forall j | 0 <= j < |run[k].parts| :: j in reach
    requires i < |run[k].parts|
    ensures after[i].row == if SomeCommitted(run[k]) then Committed
                            else if run[k].parts[i].row == Pended then RolledBack else run[k].parts[i].row
    ensures run[k].parts[i].row == Pended ==>
              && AtRest(after[i].root) && run[k].parts[i].root.journal.Some?
              && var p := run[k].parts[i].root.journal.value;
                 if SomeCommitted(run[k]) then OwnCommit(run[k].parts[i].root) == Some(after[i].root.db)
                 else after[i].root.tree == p.before && after[i].root.db == run[k].parts[i].root.db
  {
    hide CrossRun, PartInv, FullyApplied, Settled, AtRest, OwnCommit;
    CrossRunKeepsInv(run, k);
    var w := run[k];
    assert Settled(w.parts[i], SeesCommit(w.parts, reach)) == Some(after[i]);
    var a := w.parts[i];
    assert SeesCommit(w.parts, reach) <==> SomeCommitted(w);
    if a.row == Pended {
      JournalThere(a);
      if SomeCommitted(w) {
        SettlesForward(a);
      } else {
        SettlesBack(a);
      }
    } else {
      SettledStays(a, SomeCommitted(w));
    }
  }

  // And it can finish exactly when, rolling forward, every participant it has to
  // complete is one whose own commit the database would have taken, or, rolling back,
  // one whose recorded directories can be cleaned up. A pending participant whose
  // commit is refused beside a committed one stays pending.
  lemma RecoveryCanFinish(run: seq<World>, k: nat, reach: set<nat>)
    requires CrossRun(run) && k < |run| && Quiescent(run[k])
    ensures (exists after :: Reconciled(run[k].parts, reach, after)) <==>
            if SeesCommit(run[k].parts, reach) then AllTaken(run[k].parts, reach) else AllClean(run[k].parts, reach)
  {
    hide CrossRun, PartInv, FullyApplied, Settled, AtRest, OwnCommit, SeesCommit, CanSettle;
    CrossRunKeepsInv(run, k);
    var parts := run[k].parts;
    var forward := SeesCommit(parts, reach);
    forall i | 0 <= i < |parts| && i in reach
      ensures Settled(parts[i], forward).Some? <==> parts[i].row != Pended || CanSettle(parts[i], forward)
    {
      SettledWhen(run[k], i, reach);
    }
    assert (if forward then AllTaken(parts, reach) else AllClean(parts, reach)) <==>
           forall i | 0 <= i < |parts| && i in reach && parts[i].row == Pended :: CanSettle(parts[i], forward) by {
      SettleSides(parts, reach);
    }
    if forall i | 0 <= i < |parts| && i in reach && parts[i].row == Pended :: CanSettle(parts[i], forward) {
      var after := seq(|parts|, i requires 0 <= i < |parts| =>
                         if i in reach && Settled(parts[i], forward).Some?
                         then Settled(parts[i], forward).value else parts[i]);
      assert Reconciled(parts, reach, after);
    } else {
      var i :| 0 <= i < |parts| && i in reach && parts[i].row == Pended && !CanSettle(parts[i], forward);
      forall after
        ensures !Reconciled(parts, reach, after)
      {
        assert Settled(parts[i], forward) == None;
      }
    }
  }

  // Such a participant never changes again: no step of any continuation completes it
  // or undoes it.
  lemma {:induction false} RefusedStaysPending(run: seq<World>, k: nat, m: nat, j: nat)
    requires CrossRun(run) && k <= m < |run| && j < |run[k].parts|
    requires run[k].exec == Down && SomeCommitted(run[k])
    requires run[k].parts[j].row == Pended && run[k].parts[j].root.mem == Idle
    requires run[k].parts[j].root.journal.Some? && OwnCommit(run[k].parts[j].root).None?
    ensures run[m].exec == Down && SomeCommitted(run[m]) && j < |run[m].parts| && run[m].parts[j] == run[k].parts[j]
  {
    hide CrossRun, CrossInv, CrossNext, Blind, SomeCommitted, OwnCommit;
    if k < m {
      RefusedStaysPending(run, k, m - 1, j);
      RunStep(run, m - 1);
      CrossRunKeepsInv(run, m - 1);
      RefusedStays(run[m - 1], run[m], j);
    }
  }

  lemma RunStep(run: seq<World>, i: nat)
    requires CrossRun(run) && i + 1 < |run|
    ensures CrossNext(run[i], run[i + 1]) && !Blind(run[i], run[i + 1])
  {
    hide CrossStart, CrossNext, Blind;
  }

  lemma RefusedStays(w: World, v: World, j: nat)
    requires CrossInv(w) && CrossNext(w, v) && !Blind(w, v) && w.exec == Down && SomeCommitted(w) && j < |w.parts|
    requires w.parts[j].row == Pended && w.parts[j].root.mem == Idle
    requires w.parts[j].root.journal.Some? && OwnCommit(w.parts[j].root).None?
    ensures v.exec == Down && SomeCommitted(v) && j < |v.parts| && v.parts[j] == w.parts[j]
  {
    hide PartInv, FullyApplied, OwnCommit, Crash, RecoverBack, RollForward, Other, ReplayPart;
    assert Going(w);
    var c :| 0 <= c < |w.parts| && w.parts[c].row == Committed;
    if CrashAll(w, v) {
      CrashLeaves(w.parts[j], v.parts[j]);
      assert v.parts[c].row == Committed;
    } else if i: nat :| RecoverBack(w, v, i) {
      PendingAlone(w, v, i, j, c);
    } else if i: nat :| RollForward(w, v, i) {
      PendingAlone(w, v, i, j, c);
    } else {
      var i: nat :| Other(w, v, i);
      PendingAlone(w, v, i, j, c);
    }
  }

  lemma CrashLeaves(a: Part, b: Part)
    requires Crash(a.root, b.root) && b == a.(root := b.root) && a.root.mem == Idle
    ensures b == a
  {
    hide MidSwap;
  }

  // Recovery and other transactions move other participants only.
  lemma PendingAlone(w: World, v: World, i: nat, j: nat, c: nat)
    requires RecoverBack(w, v, i) || RollForward(w, v, i) || Other(w, v, i)
    requires j < |w.parts| && Standing(w.parts[j]) && PartInv(w.parts[j])
    requires c < |w.parts| && w.parts[c].row == Committed
    requires w.parts[j].row == Pended && w.parts[j].root.mem == Idle && OwnCommit(w.parts[j].root).None?
    ensures v.exec == Down && |v.parts| == |w.parts| && v.parts[j] == w.parts[j] && v.parts[c].row == Committed
  {
    hide PartInv, FullyApplied, OwnCommit, SingleRoot.Next, Unwind, Replay, Forwarded, Inv;
    ReplayIsCommit(w.parts[j]);
    if RecoverBack(w, v, i) { PendedNow(w.parts[i], v.parts[i]); }
  }

  predicate CanSettle(a: Part, forward: bool)
  {
    && a.root.journal.Some?
    && if forward then OwnCommit(a.root).Some?
       else CleansUp(a.root.journal.value.before, a.root.dirs, a.root.journal.value.dirRows)
  }

  lemma SettleSides(parts: seq<Part>, reach: set<nat>)
    ensures AllTaken(parts, reach) <==>
            forall i | 0 <= i < |parts| && i in reach && parts[i].row == Pended :: CanSettle(parts[i], true)
    ensures AllClean(parts, reach) <==>
            forall i | 0 <= i < |parts| && i in reach && parts[i].row == Pended :: CanSettle(parts[i], false)
  {
    hide OwnCommit, CleansUp;
  }

  ghost predicate AllClean(parts: seq<Part>, reach: set<nat>)
  {
    forall i | 0 <= i < |parts| && i in reach && parts[i].row == Pended ::
      && parts[i].root.journal.Some?
      && var p := parts[i].root.journal.value; CleansUp(p.before, parts[i].root.dirs, p.dirRows)
  }

  ghost predicate AllTaken(parts: seq<Part>, reach: set<nat>)
  {
    forall i | 0 <= i < |parts| && i in reach && parts[i].row == Pended ::
      parts[i].root.journal.Some? && OwnCommit(parts[i].root).Some?
  }

  lemma SettledWhen(w: World, i: nat, reach: set<nat>)
    requires CrossInv(w) && Quiescent(w) && i < |w.parts|
    ensures var a, forward := w.parts[i], SeesCommit(w.parts, reach);
      Settled(a, forward).Some? <==> a.row != Pended || CanSettle(a, forward)
  {
    hide PartInv, FullyApplied, Settled, AtRest, OwnCommit, CleansUp;
    var a, forward := w.parts[i], SeesCommit(w.parts, reach);
    if a.row == Pended {
      JournalThere(a);
      if forward {
        assert SomeCommitted(w);
        SettlesForward(a);
      } else {
        SettlesBack(a);
      }
    } else {
      SettledStays(a, forward);
    }
  }

  lemma SettledStays(a: Part, forward: bool)
    requires a.row != Pended
    ensures Settled(a, forward) == Some(a)
  {
  }

  // With some participants out of reach, a recovery that finishes tears the
  // transaction exactly when it reaches a pending participant, a commit happened,
  // and no committed participant is within reach.
  lemma TornExactly(run: seq<World>, k: nat, after: seq<Part>, reach: set<nat>)
    requires CrossRun(run) && k < |run| && Quiescent(run[k]) && Reconciled(run[k].parts, reach, after)
    ensures Torn(after) <==>
              && SomeCommitted(run[k]) && !SeesCommit(run[k].parts, reach)
              && exists i :: 0 <= i < |run[k].parts| && i in reach && run[k].parts[i].row == Pended
  {
    hide CrossRun, PartInv, FullyApplied, Settled;
    CrossRunKeepsInv(run, k);
    var w := run[k];
    var forward := SeesCommit(w.parts, reach);
    forall i | 0 <= i < |w.parts|
      ensures after[i].row == if i in reach && w.parts[i].row == Pended
                              then if forward then Committed else RolledBack else w.parts[i].row
    {
      if i in reach {
        assert Settled(w.parts[i], forward) == Some(after[i]);
        if w.parts[i].row == Pended { JournalThere(w.parts[i]); }
        SettledRow(w.parts[i], forward);
      }
    }
    if SomeCommitted(w) {
      var c :| 0 <= c < |w.parts| && w.parts[c].row == Committed;
      assert after[c].row == Committed;
    } else {
      assert forall i | 0 <= i < |w.parts| :: w.parts[i].row != Committed && after[i].row != Committed;
    }
  }

  lemma JournalThere(a: Part)
    requires PartInv(a) && a.row == Pended
    ensures a.root.journal.Some?
  {
    hide Inv;
  }

  lemma SettledRow(a: Part, forward: bool)
    requires a.row == Pended ==> a.root.journal.Some?
    requires Settled(a, forward).Some?
    ensures Settled(a, forward).value.row ==
            if a.row == Pended then if forward then Committed else RolledBack else a.row
  {
  }
}
