/** Backups that were to be kept. The journal does not say which (writeJournal in
    internal/install/journal.go), so a commit by roll-forward discards them. */
module KeptBackups {
  import opened Wrappers
  import opened TempNames
  import opened FileOps
  import opened Lookups
  import opened Undo
  import opened Disks
  import opened Flip
  import opened Claims
  import opened Metadata
  import opened ClaimTables
  import opened Planning
  import opened Patch
  import opened Transactions
  import opened SingleRoot
  import opened SingleRootSafety
  import opened CrossRoot

  // The backups a live commit leaves on purpose.
  function KeptNames(ops: seq<FileOp>): set<string>
  {
    set op | op in ops && op.action != Create && op.keepBackup && op.pinned :: op.backupPath
  }

  // Pinned exactly where the parent directory is there.
  predicate PinsAgree(ops: seq<FileOp>, dirs: set<string>)
  {
    forall op | op in ops :: op.pinned <==> Dir(op.finalPath) in dirs
  }

  lemma Backed(ops: seq<FileOp>, op: FileOp)
    requires op in ops && op.action != Create && op.pinned
    ensures op.backupPath in Discardable(ops) + KeptNames(ops)
  {
  }

  lemma BackedBy(ops: seq<FileOp>, b: string) returns (op: FileOp)
    requires b in Discardable(ops) + KeptNames(ops)
    ensures op in ops && op.action != Create && op.pinned && op.backupPath == b
  {
    op :| op in ops && op.action != Create && op.pinned && op.backupPath == b;
  }

  // The operation as recovery reads it back.
  lemma ReadBack(ops: seq<FileOp>, dirs: set<string>, op: FileOp)
    requires op in ops
    ensures FromRow(Row(op), dirs) in FromJournal(Rows(ops), dirs)
  {
    var i :| 0 <= i < |ops| && ops[i] == op;
    assert FromJournal(Rows(ops), dirs)[i] == FromRow(Row(op), dirs);
  }

  lemma ReadFrom(ops: seq<FileOp>, dirs: set<string>, j: FileOp) returns (op: FileOp)
    requires j in FromJournal(Rows(ops), dirs)
    ensures op in ops && j == FromRow(Row(op), dirs)
  {
    var i :| 0 <= i < |ops| && FromJournal(Rows(ops), dirs)[i] == j;
    op := ops[i];
  }

  // No operation read back keeps its backup.
  lemma NothingKeptBack(ops: seq<FileOp>, dirs: set<string>)
    ensures KeptNames(FromJournal(Rows(ops), dirs)) == {}
  {
    forall j | j in FromJournal(Rows(ops), dirs)
      ensures !j.keepBackup
    {
      var op := ReadFrom(ops, dirs, j);
    }
  }

  // Read back from the journal, the kept backups are discarded like the others.
  lemma JournalDiscards(ops: seq<FileOp>, dirs: set<string>)
    requires PinsAgree(ops, dirs)
    ensures Discardable(FromJournal(Rows(ops), dirs)) == Discardable(ops) + KeptNames(ops)
  {
    hide Dir, FromJournal, Rows, Discardable, KeptNames;
    var journal := FromJournal(Rows(ops), dirs);
    NothingKeptBack(ops, dirs);
    forall b | b in Discardable(journal)
      ensures b in Discardable(ops) + KeptNames(ops)
    {
      var j := BackedBy(journal, b);
      var op := ReadFrom(ops, dirs, j);
      Backed(ops, op);
    }
    forall b | b in Discardable(ops) + KeptNames(ops)
      ensures b in Discardable(journal)
    {
      var op := BackedBy(ops, b);
      ReadBack(ops, dirs, op);
      Backed(journal, FromRow(Row(op), dirs));
    }
  }

  lemma KeptApart(ops: seq<FileOp>)
    requires Separated(ops)
    ensures KeptNames(ops) !! Discardable(ops)
  {
    forall b | b in KeptNames(ops)
      ensures b !in Discardable(ops)
    {
      var x :| x in ops && x.action != Create && x.keepBackup && b == x.backupPath;
      if y :| y in ops && y.action != Create && !y.keepBackup && b == y.backupPath {
        OneOwner(ops, x, y);
      }
    }
  }

  lemma OneOwner(ops: seq<FileOp>, x: FileOp, y: FileOp)
    requires Separated(ops) && x in ops && y in ops && x.action != Create && y.action != Create
    requires x.backupPath == y.backupPath
    ensures x == y
  {
    var i :| 0 <= i < |ops| && ops[i] == x;
    var j :| 0 <= j < |ops| && ops[j] == y;
    assert x.backupPath in Names(ops[i]) && x.backupPath in Names(ops[j]);
  }

  // The journal discards the same backups exactly when none was to be kept.
  lemma DiscardsAgreeExactly(ops: seq<FileOp>, dirs: set<string>)
    requires Separated(ops) && PinsAgree(ops, dirs)
    ensures Discardable(FromJournal(Rows(ops), dirs)) == Discardable(ops) <==>
            forall op | op in ops && op.pinned && op.action != Create :: !op.keepBackup
  {
    hide Separated, PinsAgree, FromJournal;
    JournalDiscards(ops, dirs);
    KeptApart(ops);
    if op :| op in ops && op.pinned && op.action != Create && op.keepBackup {
      assert op.backupPath in KeptNames(ops);
    }
  }

  /** Which ones that are, at plan time. */

  // The change displaces something nobody owns.
  predicate Displaces(c: Context, x: Change)
  {
    x.op.action != Remove && x.op.finalPath !in c.db.links && UnownedDiffers(c, x.op.finalPath, x.content)
  }

  // An accepted plan keeps a backup exactly where it displaces something unowned, and
  // then overwriting was authorised.
  lemma KeptExactly(c: Context, plan: seq<PkgOp>, desired: seq<Link>, changes: seq<Change>, x: Change)
    requires IsPlan(c, plan, desired, changes) && x in changes
    ensures x.op.keepBackup <==> Displaces(c, x)
    ensures x.op.keepBackup ==> c.overwrite && x.op.pinned && x.op.action in {Replace, Swap}
  {
    hide NamesApart, KindsApart, JournalAccepts, FromClaims, FromPackage, ClaimsRefused, PackageRefused, Displaces;
    assert IsChange(c, plan, desired, x);
    if FromClaims(c, desired, x) {
      ClaimKeeps(c, PostOwned(c.db, plan), desired, x);
    } else {
      var q :| q in plan && FromPackage(c, q, x);
      PackageKeeps(c, plan, q, x);
    }
  }

  lemma ClaimKeeps(c: Context, owned: set<string>, desired: seq<Link>, x: Change)
    requires !ClaimsRefused(c, owned, desired) && FromClaims(c, desired, x)
    ensures x.op.keepBackup <==> Displaces(c, x)
    ensures x.op.keepBackup ==> c.overwrite && x.op.pinned && x.op.action in {Replace, Swap}
  {
    hide TempPath, LinkEntry, Owners;
    if l :| l in desired && ClaimChange(c, l) == Some(x) {
      assert !LinkRefused(c, owned, l);
    }
  }

  lemma PackageKeeps(c: Context, plan: seq<PkgOp>, q: PkgOp, x: Change)
    requires !PackageRefused(c, plan, q) && FromPackage(c, q, x)
    ensures x.op.keepBackup <==> Displaces(c, x)
    ensures x.op.keepBackup ==> c.overwrite && x.op.pinned && x.op.action in {Replace, Swap}
  {
    hide TempPath, Owners, Dropped, PlanNames, Obstructed;
    if e :| q.kind != OpRemove && e in q.payload && EntryChange(c, q, e) == Some(x) {
      assert !EntryRefused(c, plan, q, e);
    }
  }

  /** A participant that recovery may complete. */

  // In a complete participant every backup is in place, with the original in it.
  lemma BackupsInPlace(a: Part)
    requires PartInv(a) && Standing(a)
    ensures var p := a.root.journal.value;
      && Separated(PendingOps(p))
      && forall op | op in PendingOps(p) && op.action != Create ::
           && (op.finalPath in p.before ==>
                op.backupPath in a.root.tree && a.root.tree[op.backupPath] == p.before[op.finalPath])
           && (op.finalPath !in p.before ==> op.backupPath !in a.root.tree)
  {
    hide Inv, StagedContent, ApplyAll, GoodTxn, Sound, CreatedFor, PayloadFor, Separated, AllPlanned, Shaped, Reachable;
    hide Siblings;
    var p := a.root.journal.value;
    var c := PlanContext(a.root.db, p);
    SoundPending(a.root, p);
    GoodTxnShaped(c, p.txn);
    var staged :| StagedContent(c, staged, p.txn.changes) && ApplyAll(staged, PendingOps(p)) == Some(a.root.tree);
    PlanStaged(c, p.txn.changes, staged);
    OverStaged(c, p.txn.changes, staged);
    FlipResult(p.before, staged, PendingOps(p));
    forall op | op in PendingOps(p)
      ensures Flip.Done(p.before, staged, a.root.tree, op)
    {
      var i :| 0 <= i < |PendingOps(p)| && PendingOps(p)[i] == op;
    }
  }

  lemma SoundPending(s: Root, p: Pending)
    requires Inv(s) && s.journal == Some(p)
    ensures Sound(PlanContext(s.db, p)) && InDirs(s.tree, s.dirs)
  {
    hide GoodTxn, Sound, NamesPast, Undoable, SoundDb, NoFuture, InDirs, CreatedFor;
  }

  lemma OverStaged(c: Context, changes: seq<Change>, staged: Tree)
    requires StagedContent(c, staged, changes)
    ensures StagedOver(c.tree, staged, Ops(changes))
  {
  }

  // What is there of the names the journal discards: what a live commit discards, and
  // the kept backups.
  lemma DiscardedHere(a: Part, b: string)
    requires PartInv(a) && Standing(a) && b in a.root.tree
    ensures var p := a.root.journal.value;
      b in Discardable(FromJournal(Rows(PendingOps(p)), a.root.dirs)) <==>
      b in Discardable(PendingOps(p)) + KeptNames(PendingOps(p))
  {
    hide PartInv, Standing, Separated, Dir, FromJournal, Rows, Discardable, KeptNames;
    var p := StandingOps(a);
    var ops, dirs := PendingOps(p), a.root.dirs;
    var journal := FromJournal(Rows(ops), dirs);
    BackupsInPlace(a);
    NothingKeptBack(ops, dirs);
    if b in Discardable(journal) {
      var j := BackedBy(journal, b);
      var op := ReadFrom(ops, dirs, j);
      assert Planned(p.before, op);
      Backed(ops, op);
    }
    if b in Discardable(ops) + KeptNames(ops) {
      var op := BackedBy(ops, b);
      assert b in Names(op) && Dir(b) == Dir(op.finalPath) && Dir(b) in dirs;
      ReadBack(ops, dirs, op);
      Backed(journal, FromRow(Row(op), dirs));
    }
  }

  lemma StandingOps(a: Part) returns (p: Pending)
    requires PartInv(a) && Standing(a)
    ensures a.root.journal == Some(p) && AllPlanned(p.before, PendingOps(p)) && InDirs(a.root.tree, a.root.dirs)
    ensures forall op | op in PendingOps(p) :: Siblings(op)
  {
    hide Inv, FullyApplied, GoodTxn, Separated, AllPlanned, Siblings, Shaped, Reachable, Sound, PayloadFor, InDirs;
    p := a.root.journal.value;
    SoundPending(a.root, p);
    GoodTxnShaped(PlanContext(a.root.db, p), p.txn);
  }

  lemma RebuiltIs(a: Part, p: Pending)
    requires PartInv(a) && Standing(a) && a.root.mem == Idle && a.root.journal == Some(p)
    ensures Rebuilt(a.root) == FromJournal(Rows(PendingOps(p)), a.root.dirs)
  {
    hide GoodTxn, FullyApplied, Sound, Undoable, NamesPast, SoundDb, NoFuture, CreatedFor, PayloadFor, Rebuild;
    UndoingRestores(a.root, p);
  }

  lemma KeptWasThere(c: Context, txn: Txn, op: FileOp)
    requires Sound(c) && GoodTxn(c, txn) && op in Ops(txn.changes) && op.keepBackup
    ensures op.finalPath in c.tree
  {
    hide Sound, IsPlan, HoldersFor, InstalledAfter, IsDesired, WorkFor, Separated, Siblings, Displaces;
    var plan, installed, post, desired :| Transacts(c, plan, installed, post, desired, txn);
    PlanSeparated(c, plan, desired, txn.changes);
    var i :| 0 <= i < |txn.changes| && Ops(txn.changes)[i] == op;
    KeptExactly(c, plan, desired, txn.changes, txn.changes[i]);
  }

  // So nothing is lost exactly when no planned change displaces something unowned.
  lemma NothingKept(c: Context, txn: Txn)
    requires GoodTxn(c, txn)
    ensures KeptNames(Ops(txn.changes)) == {} <==> forall x | x in txn.changes :: !Displaces(c, x)
  {
    hide IsPlan, HoldersFor, InstalledAfter, IsDesired, WorkFor, Displaces;
    var plan, installed, post, desired :| Transacts(c, plan, installed, post, desired, txn);
    var ops := Ops(txn.changes);
    forall i | 0 <= i < |ops|
      ensures ops[i] in ops && (ops[i].keepBackup <==> Displaces(c, txn.changes[i]))
      ensures ops[i].keepBackup ==> ops[i].pinned && ops[i].action != Create
    {
      KeptExactly(c, plan, desired, txn.changes, txn.changes[i]);
    }
    if x :| x in txn.changes && Displaces(c, x) {
      var i :| 0 <= i < |ops| && txn.changes[i] == x;
      assert ops[i].backupPath in KeptNames(ops);
    }
    if b :| b in KeptNames(ops) {
      var op :| op in ops && op.action != Create && op.keepBackup && op.pinned && b == op.backupPath;
      var i :| 0 <= i < |ops| && ops[i] == op;
      assert txn.changes[i] in txn.changes;
    }
  }
}
