/** Claim links while a transaction is under way: a repoint is one exchange, so that
    nobody finds the path of a link empty (actionSwap in internal/install/files.go).
    That holds on the way forward, and not while it is undone. */
module LinkPaths {
  import opened Wrappers
  import opened TempNames
  import opened FileOps
  import opened Undo
  import opened Flip
  import opened Claims
  import opened Metadata
  import opened ClaimTables
  import opened Planning
  import opened Patch
  import opened Transactions
  import opened SingleRoot
  import opened SingleRootSafety
  import opened Progress
  import opened SwapStops

  // The path of a wanted link is either left alone, created, or exchanged: whatever
  // stands there is never first moved aside.
  lemma LinksAreSwapped(c: Context, plan: seq<PkgOp>, desired: seq<Link>, changes: seq<Change>, l: Link, x: Change)
    requires LinksApart(c.db) && IsPlan(c, plan, desired, changes) && DistinctPaths(desired) && l in desired
    requires x in changes && x.op.finalPath == l.path
    ensures x.op.action == if Occupied(c, l.path) then Swap else Create
    ensures x.content == LinkEntry(l)
  {
    hide TempPath, Carries, NamesApart, JournalAccepts, KindsApart, Occupied, LinkEntry, Dropped, UnownedDiffers;
    hide EntryRefused, Untouched, Owners;
    assert IsChange(c, plan, desired, x);
    assert !LinkRefused(c, PostOwned(c.db, plan), l);
    if FromClaims(c, desired, x) {
      if m :| m in desired && ClaimChange(c, m) == Some(x) {
        assert m == l;
      }
    } else {
      NotFromPackage(c, plan, desired, l, x);
    }
  }

  // No package brings anything there, and what one drops there gives way.
  lemma NotFromPackage(c: Context, plan: seq<PkgOp>, desired: seq<Link>, l: Link, x: Change)
    requires LinksApart(c.db) && !LinkRefused(c, PostOwned(c.db, plan), l) && l in desired
    requires x.op.finalPath == l.path && IsChange(c, plan, desired, x)
    ensures FromClaims(c, desired, x)
  {
    hide EntryChange, ClaimChange, Removal, Dropped, LinkEntry, FromPackage;
    assert l.path !in PostOwned(c.db, plan);
    forall q | q in plan && FromPackage(c, q, x)
      ensures x.op.action == Remove && ClaimChange(c, l).Some? && FromClaims(c, desired, ClaimChange(c, l).value)
      ensures ClaimChange(c, l).value.op.finalPath == l.path
    {
      OnlyDropped(c, plan, q, x);
      LinkedAnew(c, q, l);
    }
  }

  lemma OnlyDropped(c: Context, plan: seq<PkgOp>, q: PkgOp, x: Change)
    requires q in plan && FromPackage(c, q, x) && x.op.finalPath !in PostOwned(c.db, plan)
    ensures x.op.finalPath in Dropped(c, q) && x == Removal(c, x.op.finalPath)
  {
    hide TempPath, Occupied, UnownedDiffers, Untouched, Dropped;
    assert forall e | q.kind != OpRemove && e in q.payload :: e.path in PostOwned(c.db, plan);
  }

  lemma LinkedAnew(c: Context, q: PkgOp, l: Link)
    requires LinksApart(c.db) && l.path in Dropped(c, q)
    ensures ClaimChange(c, l).Some? && ClaimChange(c, l).value.op.finalPath == l.path
    ensures Removal(c, l.path).op.action == Remove
  {
    hide TempPath, Occupied, LinkEntry, UnownedDiffers;
    assert (q.name, l.path) in c.db.files && q.name in Owners(c.db, l.path);
  }

  /** While the flip is under way. */

  lemma FinalNotStaged(before: Tree, staged: Tree, ops: seq<FileOp>, op: FileOp)
    requires Separated(ops) && StagedOver(before, staged, ops) && op in ops
    ensures SameAt(before, staged, op.finalPath)
  {
    forall o | o in ops
      ensures op.finalPath !in Staged(o)
    {
      var i :| 0 <= i < |ops| && ops[i] == op;
      var j :| 0 <= j < |ops| && ops[j] == o;
      assert op.finalPath in Names(ops[i]) && Staged(o) <= Names(ops[j]);
    }
  }

  // In every state of the flip, the exchange included: the old entry or the new one.
  lemma SwapHolds(s: Root, p: Pending, n: nat)
    requires Inv(s) && s.journal == Some(p) && s.mem.Applying? && n < |p.txn.changes|
    requires p.txn.changes[n].op.action == Swap
    ensures var x := p.txn.changes[n];
      && x.op.finalPath in s.tree && x.op.finalPath in p.before
      && s.tree[x.op.finalPath] in {p.before[x.op.finalPath], x.content}
  {
    hide GoodTxn, Sound, NamesPast, Undoable, SoundDb, NoFuture, InDirs, CreatedFor, StagedContent, ApplyAll, DirsClear;
    hide Shaped, Siblings, Reachable, Separated;
    var c, ops, x := PlanContext(s.db, p), PendingOps(p), p.txn.changes[n];
    GoodTxnShaped(c, p.txn);
    var staged, k := s.mem.staged, s.mem.done;
    var u := ApplyAll(staged, ops[..k]).value;
    StagedTwice(c, p.txn.changes, staged, x);
    FlipIsExact(p.before, staged, ops, k);
    assert ops[n] in ops && Planned(p.before, ops[n]);
    FinalNotStaged(p.before, staged, ops, ops[n]);
    HeldAt(p.before, staged, u, ops, k, n);
    if s.mem.halfway { HeldHalfway(p.before, staged, u, ops, k, n); }
  }

  lemma StagedTwice(c: Context, changes: seq<Change>, staged: Tree, x: Change)
    requires StagedContent(c, staged, changes) && x in changes && x.op.action != Remove
    ensures FullyStaged(c.tree, staged, Ops(changes))
    ensures x.op.stagedPath in staged && staged[x.op.stagedPath] == x.content
  {
    PlanStaged(c, changes, staged);
  }

  lemma HeldAt(before: Tree, staged: Tree, u: Tree, ops: seq<FileOp>, k: nat, n: nat)
    requires Flip.Progress(before, staged, u, ops, k) && n < |ops| && k <= |ops| && ops[n].action == Swap
    requires ops[n].finalPath in before && SameAt(before, staged, ops[n].finalPath) && ops[n].stagedPath in staged
    ensures ops[n].finalPath in u
    ensures u[ops[n].finalPath] in {before[ops[n].finalPath], staged[ops[n].stagedPath]}
    ensures k <= n ==> ops[n].stagedPath in u && u[ops[n].stagedPath] == staged[ops[n].stagedPath]
  {
    if n < k {
      assert Flip.Done(before, staged, u, ops[n]);
    } else {
      assert Waiting(staged, u, ops[n]) && {ops[n].finalPath, ops[n].stagedPath} <= Names(ops[n]);
      assert SameAt(staged, u, ops[n].finalPath) && SameAt(staged, u, ops[n].stagedPath);
    }
  }

  lemma HeldHalfway(before: Tree, staged: Tree, u: Tree, ops: seq<FileOp>, k: nat, n: nat)
    requires Separated(ops) && Flip.Progress(before, staged, u, ops, k) && n < |ops| && k < |ops|
    requires CanStart(u, ops[k]) && ops[n].action == Swap
    requires ops[n].finalPath in before && SameAt(before, staged, ops[n].finalPath) && ops[n].stagedPath in staged
    ensures var h := Halfway(u, ops[k]);
      ops[n].finalPath in h && h[ops[n].finalPath] in {before[ops[n].finalPath], staged[ops[n].stagedPath]}
  {
    hide Flip.Progress, SameAt;
    HeldAt(before, staged, u, ops, k, n);
    if n != k {
      assert Names(ops[n]) !! Names(ops[k]) by {
        assert if n < k then Names(ops[n]) !! Names(ops[k]) else Names(ops[k]) !! Names(ops[n]);
      }
      assert ops[n].finalPath in Names(ops[n]) && ops[k].finalPath in Names(ops[k]);
      assert ops[k].action == Replace ==> ops[k].backupPath in Names(ops[k]);
      assert ops[k].action == Swap ==> ops[k].stagedPath in Names(ops[k]);
    }
  }

  // The pending transaction keeps a link at the path.
  ghost predicate KeepsLink(s: Root, p: Pending, path: string)
  {
    exists plan, installed, post, desired, l: Link ::
      Transacts(PlanContext(s.db, p), plan, installed, post, desired, p.txn) && l in desired && l.path == path
  }

  // The process is on its way forward, or nothing is.
  predicate Ahead(s: Root) { s.mem in {Journalling, Staging} || s.mem.Applying? }

  // Whatever the transaction does at such a path is one exchange.
  lemma KeptBySwap(s: Root, p: Pending, path: string, n: nat)
    requires Inv(s) && s.journal == Some(p) && KeepsLink(s, p, path) && path in p.before
    requires n < |p.txn.changes| && p.txn.changes[n].op.finalPath == path
    ensures p.txn.changes[n].op.action == Swap
  {
    hide GoodTxn, NamesPast, Undoable, SoundDb, NoFuture, InDirs, CreatedFor, DirsClear, IsPlan, IsDesired;
    hide HoldersFor, InstalledAfter, WorkFor;
    var c := PlanContext(s.db, p);
    var plan, installed, post, desired, l: Link :|
      Transacts(c, plan, installed, post, desired, p.txn) && l in desired && l.path == path;
    DesiredPathsDistinct(installed, post, desired);
    assert LinksApart(c.db);
    LinksAreSwapped(c, plan, desired, p.txn.changes, l, p.txn.changes[n]);
  }

  // Over every run, in every state on the way forward: a path at which a link stands
  // and is to stand holds what was there or what is to be there. Nobody finds it empty.
  lemma NeverAbsent(run: seq<Root>, i: nat, path: string)
    requires Run(run) && AtRest(run[0]) && i < |run| && run[i].journal.Some? && Ahead(run[i])
    requires KeepsLink(run[i], run[i].journal.value, path) && path in run[i].journal.value.before
    ensures var s := run[i]; var p := s.journal.value;
      && path in s.tree
      && (s.tree[path] == p.before[path]
          || exists x :: x in p.txn.changes && x.op.finalPath == path && s.tree[path] == x.content)
  {
    hide Run, AtRest, Inv, KeepsLink, GoodTxn;
    RunKeepsInv(run, i);
    StateNeverAbsent(run[i], run[i].journal.value, path);
  }

  lemma StateNeverAbsent(s: Root, p: Pending, path: string)
    requires Inv(s) && s.journal == Some(p) && Ahead(s) && KeepsLink(s, p, path) && path in p.before
    ensures path in s.tree
    ensures s.tree[path] == p.before[path]
            || exists x :: x in p.txn.changes && x.op.finalPath == path && s.tree[path] == x.content
  {
    hide Inv, KeepsLink;
    if n :| 0 <= n < |p.txn.changes| && p.txn.changes[n].op.finalPath == path {
      KeptBySwap(s, p, path, n);
      if s.mem.Applying? {
        SwapHolds(s, p, n);
      } else {
        UnderStaging(s, p, path);
      }
    } else {
      NotTouched(s, p, path);
    }
  }

  // Staging writes no final path.
  lemma UnderStaging(s: Root, p: Pending, path: string)
    requires Inv(s) && s.journal == Some(p) && s.mem in {Journalling, Staging} && path in p.before
    requires exists x :: x in p.txn.changes && x.op.finalPath == path
    ensures path in s.tree && s.tree[path] == p.before[path]
  {
    hide Sound, NamesPast, Undoable, SoundDb, NoFuture, InDirs, CreatedFor, DirsClear, Shaped, Siblings, Reachable;
    hide Separated, GoodTxn;
    if s.mem == Staging {
      GoodTxnShaped(PlanContext(s.db, p), p.txn);
      var x :| x in p.txn.changes && x.op.finalPath == path;
      var i :| 0 <= i < |p.txn.changes| && p.txn.changes[i] == x;
      assert PendingOps(p)[i] in PendingOps(p);
      FinalNotStaged(p.before, s.tree, PendingOps(p), x.op);
    }
  }

  // Neither a final path nor, being there before, a temporary name.
  lemma NotTouched(s: Root, p: Pending, path: string)
    requires Inv(s) && s.journal == Some(p) && Ahead(s) && path in p.before
    requires forall x | x in p.txn.changes :: x.op.finalPath != path
    ensures path in s.tree && s.tree[path] == p.before[path]
  {
    hide Sound, NamesPast, SoundDb, NoFuture, InDirs, CreatedFor, DirsClear, Shaped, Siblings, Reachable, Separated;
    hide GoodTxn, ApplyingInv, AllNames;
    var c, ops := PlanContext(s.db, p), PendingOps(p);
    GoodTxnShaped(c, p.txn);
    assert !Carries(path, c.id) by { SoundIds(c, path); }
    UsesOnly(c, p.txn.changes, path);
    if MidSwap(s) {
      hide Undoable;
      var u := MidSwapState(s, p);
      StagedOnly(p.before, s.mem.staged, ops, path);
      ApplyElsewhere(s.mem.staged, ops[..s.mem.done], path) by { NotInFront(ops, s.mem.done, path); }
      assert ops[s.mem.done] in ops && path !in Names(ops[s.mem.done]) by { NotInFront(ops, |ops|, path); }
    }
  }

  lemma SoundIds(c: Context, path: string)
    requires Sound(c) && path in c.tree
    ensures !Carries(path, c.id)
  {
    hide Carries;
  }

  lemma StagedOnly(before: Tree, staged: Tree, ops: seq<FileOp>, path: string)
    requires StagedOver(before, staged, ops) && path !in AllNames(ops)
    ensures SameAt(before, staged, path)
  {
    assert forall op | op in ops && path in Staged(op) :: path in Names(op);
  }

  lemma NotInFront(ops: seq<FileOp>, k: nat, path: string)
    requires k <= |ops| && path !in AllNames(ops)
    ensures forall op | op in ops[..k] :: path !in Names(op)
    ensures forall op | op in ops :: path !in Names(op)
  {
    assert forall op | op in ops[..k] :: op in ops;
  }

  /** While it is undone. */

  // The undo of a swap is two steps, and between them the path is empty: every
  // transaction that exchanges a link has a run, cut short by any failure after the
  // exchange is complete, to such a state. The old link is at its backup name.
  lemma AbsentWhileUndone(s: Root, t: Root, n: nat) returns (run: seq<Root>)
    requires AtRest(s) && Begin(s, t) && n < |t.journal.value.txn.changes|
    requires t.journal.value.txn.changes[n].op.action == Swap && DirsClear(s.tree, t.journal.value.txn)
    ensures run != [] && Run(run) && run[0] == s
    ensures var e := run[|run| - 1]; var op := t.journal.value.txn.changes[n].op;
      && e.mem == Reverting && e.db == s.db && op.finalPath in s.tree && op.finalPath !in e.tree
      && op.backupPath in e.tree && e.tree[op.backupPath] == s.tree[op.finalPath]
  {
    hide AtRest, Begin, ApplyAll, Run, DirsClear, Next;
    BegunFrom(s, t);
    run := EveryTransactionRuns(s, t, n + 1);
    var f, e := Exposes(s, t, n);
    StepOn(run, f);
    StepOn(run + [f], e);
    run := run + [f] + [e];
  }

  lemma StepOn(run: seq<Root>, e: Root)
    requires run != [] && Run(run) && Next(run[|run| - 1], e)
    ensures Run(run + [e])
  {
    hide Next;
    forall i | 0 <= i < |run|
      ensures Next((run + [e])[i], (run + [e])[i + 1])
    {
    }
  }

  lemma Exposes(s: Root, t: Root, n: nat) returns (f: Root, e: Root)
    requires AtRest(s) && Begin(s, t) && n < |t.journal.value.txn.changes|
    requires t.journal.value.txn.changes[n].op.action == Swap
    ensures ApplyAll(Content(t.journal.value), PendingOps(t.journal.value)[..n + 1]).Some?
    ensures Next(Reached(t, n + 1), f) && Next(f, e)
    ensures var op := t.journal.value.txn.changes[n].op;
      && e.mem == Reverting && e.db == t.db && op.finalPath in s.tree && op.finalPath !in e.tree
      && op.backupPath in e.tree && e.tree[op.backupPath] == s.tree[op.finalPath]
  {
    hide Inv, GoodTxn, StagedContent, ApplyAll, NoFuture, Sound, Content, AtRest, Separated, Shaped, Siblings;
    hide Reachable;
    RestIsInv(s);
    SameTree(s, t);
    var p := t.journal.value;
    var ops, c := PendingOps(p), PlanContext(t.db, p);
    Flips(s, t, n + 1);
    AtBeginning(s, t);
    GoodTxnShaped(c, p.txn);
    PlanStaged(c, p.txn.changes, Content(p));
    StagedTwice(c, p.txn.changes, Content(p), p.txn.changes[n]);
    FlipIsExact(p.before, Content(p), ops, n + 1);
    var u := Reached(t, n + 1).tree;
    assert Flip.Done(p.before, Content(p), u, ops[n]) && ops[n] in ops && Planned(p.before, ops[n]);
    DistinctOne(ops, n);
    f := Reached(t, n + 1).(mem := Reverting);
    e := f.(tree := u - {ops[n].finalPath});
    assert SingleRoot.Fail(Reached(t, n + 1), f);
    assert Undoing(f) == ops;
    assert RollbackEffect(u, e.tree, ops[n]);
    assert UndoEffect(f, e);
  }

  lemma DistinctOne(ops: seq<FileOp>, n: nat)
    requires Separated(ops) && n < |ops|
    ensures Distinct(ops[n])
  {
    assert ops[n] in ops;
  }
}
