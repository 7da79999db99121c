/** A planned transaction is a correct patch: flipping its operations turns a disk
    that matches the old rows into one that matches the new rows. */
module Patch {
  import opened Wrappers
  import opened TempNames
  import opened FileOps
  import opened Lookups
  import opened Undo
  import opened Flip
  import opened Claims
  import opened Tables
  import opened Metadata
  import opened Planning

  /** The disk matches the rows. */

  // Every owned file and symlink, and every recorded claim link, is in place.
  ghost predicate Agree(t: Tree, db: Db)
  {
    && (forall k | k in db.files && !db.files[k].DirRow? :: k.1 in t && t[k.1] == EntryOf(db.files[k]))
    && (forall p | p in db.links :: p in t && t[p] == LinkEntry(db.links[p]))
  }

  // No claim link lives at a path a package owns.
  ghost predicate LinksApart(db: Db)
  {
    forall k, p | k in db.files && p in db.links :: k.1 != p
  }

  predicate Managed(db: Db, p: string)
  {
    p in db.links || exists k | k in db.files :: k.1 == p && !db.files[k].DirRow?
  }

  /** What the journal's keys and the names establish. */

  function Ops(changes: seq<Change>): seq<FileOp>
  {
    seq(|changes|, i requires 0 <= i < |changes| => changes[i].op)
  }

  // PRIMARY KEY (txn_id, final_path) and PRIMARY KEY (txn_id, package_name).
  ghost predicate JournalAccepts(plan: seq<PkgOp>, changes: seq<Change>)
  {
    && (forall i, j | 0 <= i < j < |changes| :: changes[i].op.finalPath != changes[j].op.finalPath)
    && (forall i, j | 0 <= i < j < |plan| :: plan[i].name != plan[j].name)
  }

  ghost predicate NamesPlain(c: Context, plan: seq<PkgOp>, desired: seq<Link>)
  {
    && (forall q, e | q in plan && e in q.payload :: !Carries(e.path, c.id))
    && (forall l | l in desired :: !Carries(l.path, c.id))
  }

  // The side condition on names: no path in a payload or wanted as a claim path
  // looks like a temporary name of this transaction, and no two final paths share a
  // truncated temporary name.
  ghost predicate NamesApart(c: Context, plan: seq<PkgOp>, desired: seq<Link>, changes: seq<Change>)
  {
    && NamesPlain(c, plan, desired)
    && (forall x, y | x in changes && y in changes && x.op.finalPath != y.op.finalPath ::
          TempPath(x.op.finalPath, STAGED_MARKER, c.id) != TempPath(y.op.finalPath, STAGED_MARKER, c.id)
          && TempPath(x.op.finalPath, BACKUP_MARKER, c.id) != TempPath(y.op.finalPath, BACKUP_MARKER, c.id))
  }

  // The side condition on kinds: no operation is on a directory, and none uses a
  // name that another's path leads through, or a new one where a payload lists a
  // directory. Without it an upgrade that puts a file where a directory was cannot be
  // rolled back (KindChange).
  ghost predicate KindsApart(c: Context, plan: seq<PkgOp>, changes: seq<Change>)
  {
    && (forall x | x in changes :: x.op.finalPath + "/" !in c.dirs)
    && (forall x, y, p | x in changes && y in changes && p in Names(x.op) :: !Above(p, y.op.finalPath))
    && (forall x, p, e | x in changes && p in Names(x.op) && p !in c.tree && e in DirEntries(plan) ::
          p != e && !Above(p, e))
  }

  ghost predicate IsPlan(c: Context, plan: seq<PkgOp>, desired: seq<Link>, changes: seq<Change>)
  {
    && Accepted(c, plan, desired)
    && (forall x :: x in changes <==> IsChange(c, plan, desired, x))
    && JournalAccepts(plan, changes)
    && NamesApart(c, plan, desired, changes)
    && KindsApart(c, plan, changes)
  }

  // The state planning starts from. No leftover of an earlier run has a temporary
  // name of this transaction: ids are not reused.
  ghost predicate Sound(c: Context)
  {
    && Agree(c.tree, c.db) && ValidDb(c.db) && LinksApart(c.db) && InDirs(c.tree, c.dirs)
    && forall p | p in c.tree :: !Carries(p, c.id)
  }

  /** The operations are separated and planned. */

  predicate Shaped(c: Context, op: FileOp)
  {
    && !Carries(op.finalPath, c.id)
    && (op.action != Remove ==> op.stagedPath == TempPath(op.finalPath, STAGED_MARKER, c.id))
    && (op.action != Create ==> op.backupPath == TempPath(op.finalPath, BACKUP_MARKER, c.id))
    && (op.action == Create ==> op.finalPath !in c.tree)
    && (op.action in {Replace, Swap} ==> op.finalPath in c.tree)
    && (!op.pinned ==> op.action == Remove && op.finalPath !in c.tree)
  }

  lemma PlannedShaped(c: Context, path: string, keep: bool)
    requires !Carries(path, c.id) && path + "/" !in c.dirs
    ensures Shaped(c, PlannedOp(c, path, keep))
    ensures PlannedOp(c, path, keep).action == Replace ==> Shaped(c, PlannedOp(c, path, keep).(action := Swap))
  {
    hide TempPath, Carries, Dir, Base, Kept, Suffix;
  }

  lemma PlannedAt(c: Context, path: string, keep: bool)
    ensures PlannedOp(c, path, keep).finalPath == path
  {
    hide TempPath;
  }

  lemma RemovalShaped(c: Context, path: string)
    requires Sound(c) && !Carries(path, c.id)
    ensures Shaped(c, Removal(c, path).op)
  {
    hide TempPath, Carries, Dir, Base, Kept, Suffix;
  }

  // A claim change, and a package change, keep to paths that are not temporary.
  lemma ClaimShaped(c: Context, plan: seq<PkgOp>, desired: seq<Link>, changes: seq<Change>, x: Change)
    requires Sound(c) && NamesApart(c, plan, desired, changes) && FromClaims(c, desired, x)
    requires x.op.finalPath + "/" !in c.dirs
    ensures Shaped(c, x.op)
  {
    hide TempPath, Carries, Dir, Base, Kept, Suffix, PlannedOp, Removal, Shaped;
    if l :| l in desired && ClaimChange(c, l) == Some(x) {
      PlannedAt(c, l.path, l.path !in c.db.links && UnownedDiffers(c, l.path, LinkEntry(l)));
      PlannedShaped(c, l.path, l.path !in c.db.links && UnownedDiffers(c, l.path, LinkEntry(l)));
    } else {
      var p :| p in c.db.links && p !in PathSet(desired) && x == Removal(c, p);
      assert p in c.tree;
      RemovalShaped(c, p);
    }
  }

  lemma PackageShaped(c: Context, plan: seq<PkgOp>, desired: seq<Link>, changes: seq<Change>, q: PkgOp, x: Change)
    requires Sound(c) && NamesApart(c, plan, desired, changes) && q in plan && FromPackage(c, q, x)
    requires x.op.finalPath + "/" !in c.dirs
    ensures Shaped(c, x.op)
  {
    hide TempPath, Carries, Dir, Base, Kept, Suffix, PlannedOp, Removal, Shaped;
    if e :| q.kind != OpRemove && e in q.payload && EntryChange(c, q, e) == Some(x) {
      PlannedAt(c, e.path, UnownedDiffers(c, e.path, EntryOf(e.kind)));
      PlannedShaped(c, e.path, UnownedDiffers(c, e.path, EntryOf(e.kind)));
    } else {
      var p :| p in Dropped(c, q) && x == Removal(c, p);
      assert p in c.tree;
      RemovalShaped(c, p);
    }
  }

  lemma ChangeShaped(c: Context, plan: seq<PkgOp>, desired: seq<Link>, changes: seq<Change>, x: Change)
    requires Sound(c) && IsPlan(c, plan, desired, changes) && x in changes
    ensures Shaped(c, x.op)
  {
    hide Sound, NamesApart, FromClaims, FromPackage, Shaped, Accepted, JournalAccepts, Above;
    assert IsChange(c, plan, desired, x);
    if FromClaims(c, desired, x) {
      ClaimShaped(c, plan, desired, changes, x);
    } else {
      var q :| q in plan && FromPackage(c, q, x);
      PackageShaped(c, plan, desired, changes, q, x);
    }
  }

  // Nothing that is not a directory stands on the way to a planned path.
  lemma Unobstructed(c: Context, plan: seq<PkgOp>, desired: seq<Link>, changes: seq<Change>, x: Change)
    requires IsPlan(c, plan, desired, changes) && x in changes
    ensures !Obstructed(c.tree, x.op.finalPath)
  {
    hide Accepted, NamesApart, KindsApart, JournalAccepts, Obstructed, IsChange;
    AcceptedUnobstructed(c, plan, desired, x);
  }

  lemma AcceptedUnobstructed(c: Context, plan: seq<PkgOp>, desired: seq<Link>, x: Change)
    requires Accepted(c, plan, desired) && IsChange(c, plan, desired, x)
    ensures !Obstructed(c.tree, x.op.finalPath)
  {
    hide FromClaims, FromPackage, Obstructed, ClaimsRefused, PackageRefused;
    if FromClaims(c, desired, x) {
      ClaimUnobstructed(c, PostOwned(c.db, plan), desired, x);
    } else {
      var q :| q in plan && FromPackage(c, q, x);
      PackageUnobstructed(c, plan, q, x);
    }
  }

  lemma ClaimUnobstructed(c: Context, owned: set<string>, desired: seq<Link>, x: Change)
    requires !ClaimsRefused(c, owned, desired) && FromClaims(c, desired, x)
    ensures !Obstructed(c.tree, x.op.finalPath)
  {
    hide TempPath, Obstructed, UnownedDiffers, LinkEntry, Occupied;
    if l :| l in desired && ClaimChange(c, l) == Some(x) {
      assert !LinkRefused(c, owned, l);
    }
  }

  lemma PackageUnobstructed(c: Context, plan: seq<PkgOp>, q: PkgOp, x: Change)
    requires !PackageRefused(c, plan, q) && FromPackage(c, q, x)
    ensures !Obstructed(c.tree, x.op.finalPath)
  {
    hide TempPath, Obstructed, Untouched, UnownedDiffers, Occupied, Dropped, PlanNames;
    if e :| q.kind != OpRemove && e in q.payload && EntryChange(c, q, e) == Some(x) {
      assert !EntryRefused(c, plan, q, e);
    }
  }

  lemma ShapedNames(c: Context, op: FileOp)
    requires Shaped(c, op)
    ensures Distinct(op) && Siblings(op)
    ensures forall p | p in Names(op) && p != op.finalPath :: Carries(p, c.id)
  {
    hide TempPath, Carries, Dir, Base, Kept, Suffix;
    TempPathCarries(op.finalPath, STAGED_MARKER, c.id);
    TempPathCarries(op.finalPath, BACKUP_MARKER, c.id);
    TempPathIsSibling(op.finalPath, STAGED_MARKER, c.id);
    TempPathIsSibling(op.finalPath, BACKUP_MARKER, c.id);
    StagedIsNotBackup(op.finalPath, op.finalPath, c.id);
  }

  lemma NamesDisjoint(x: FileOp, y: FileOp, sx: string, bx: string, sy: string, b2: string)
    requires (x.action != Remove ==> x.stagedPath == sx) && (x.action != Create ==> x.backupPath == bx)
    requires (y.action != Remove ==> y.stagedPath == sy) && (y.action != Create ==> y.backupPath == b2)
    requires x.finalPath !in {y.finalPath, sy, b2} && y.finalPath !in {sx, bx} && {sx, bx} !! {sy, b2}
    ensures Names(x) !! Names(y)
  {
    assert Names(x) <= {x.finalPath, sx, bx};
    assert Names(y) <= {y.finalPath, sy, b2};
  }

  lemma ShapedApart(c: Context, x: FileOp, y: FileOp)
    requires Shaped(c, x) && Shaped(c, y) && x.finalPath != y.finalPath
    requires TempPath(x.finalPath, STAGED_MARKER, c.id) != TempPath(y.finalPath, STAGED_MARKER, c.id)
    requires TempPath(x.finalPath, BACKUP_MARKER, c.id) != TempPath(y.finalPath, BACKUP_MARKER, c.id)
    ensures Names(x) !! Names(y)
  {
    hide TempPath, Carries, Dir, Base, Kept, Suffix, Names;
    TempPathCarries(x.finalPath, STAGED_MARKER, c.id);
    TempPathCarries(x.finalPath, BACKUP_MARKER, c.id);
    TempPathCarries(y.finalPath, STAGED_MARKER, c.id);
    TempPathCarries(y.finalPath, BACKUP_MARKER, c.id);
    StagedIsNotBackup(x.finalPath, y.finalPath, c.id);
    StagedIsNotBackup(y.finalPath, x.finalPath, c.id);
    NamesDisjoint(x, y, TempPath(x.finalPath, STAGED_MARKER, c.id), TempPath(x.finalPath, BACKUP_MARKER, c.id),
                  TempPath(y.finalPath, STAGED_MARKER, c.id), TempPath(y.finalPath, BACKUP_MARKER, c.id));
  }

  lemma ShapedPlanned(c: Context, op: FileOp)
    requires Shaped(c, op) && forall p | p in c.tree :: !Carries(p, c.id)
    ensures Planned(c.tree, op)
  {
    hide TempPath, Carries, Dir, Base, Kept, Suffix;
    ShapedNames(c, op);
  }

  lemma PlanSeparated(c: Context, plan: seq<PkgOp>, desired: seq<Link>, changes: seq<Change>)
    requires Sound(c) && IsPlan(c, plan, desired, changes)
    ensures Separated(Ops(changes)) && AllPlanned(c.tree, Ops(changes))
    ensures forall op | op in Ops(changes) :: Siblings(op) && Shaped(c, op)
  {
    hide TempPath, Carries, Dir, Base, Kept, Suffix, Shaped, Names;
    hide Distinct, Siblings, Planned, Agree, ValidDb, Accepted, IsChange;
    var ops := Ops(changes);
    forall i | 0 <= i < |ops|
      ensures Shaped(c, ops[i]) && Distinct(ops[i]) && Siblings(ops[i]) && Planned(c.tree, ops[i])
    {
      assert changes[i] in changes;
      ChangeShaped(c, plan, desired, changes, changes[i]);
      ShapedNames(c, ops[i]);
      ShapedPlanned(c, ops[i]);
    }
    forall i, j | 0 <= i < j < |ops|
      ensures Names(ops[i]) !! Names(ops[j])
    {
      assert changes[i] in changes && changes[j] in changes;
      ShapedApart(c, ops[i], ops[j]);
    }
  }

  /** The flipped tree. */

  // Staging has written every change's content.
  ghost predicate StagedContent(c: Context, staged: Tree, changes: seq<Change>)
  {
    && StagedOver(c.tree, staged, Ops(changes))
    && forall x | x in changes && x.op.action != Remove ::
         x.op.stagedPath in staged && staged[x.op.stagedPath] == x.content
  }

  ghost predicate Flipped(c: Context, changes: seq<Change>, u: Tree)
  {
    && (forall x | x in changes ::
          if x.op.action == Remove then x.op.finalPath !in u
          else x.op.finalPath in u && u[x.op.finalPath] == x.content)
    && (forall p | !Carries(p, c.id) && !(exists x :: x in changes && x.op.finalPath == p) :: SameAt(c.tree, u, p))
  }

  lemma PlanStaged(c: Context, changes: seq<Change>, staged: Tree)
    requires StagedContent(c, staged, changes)
    ensures AllStaged(Ops(changes)) <= staged.Keys
  {
    var ops := Ops(changes);
    forall p | p in AllStaged(ops)
      ensures p in staged
    {
      var op :| op in ops && p in Staged(op);
      var i :| 0 <= i < |ops| && ops[i] == op;
      assert changes[i] in changes;
    }
  }

  lemma UsesOnly(c: Context, changes: seq<Change>, p: string)
    requires forall op | op in Ops(changes) :: Shaped(c, op)
    requires !Carries(p, c.id) && forall x | x in changes :: x.op.finalPath != p
    ensures p !in AllNames(Ops(changes))
  {
    hide Carries, Shaped;
    var ops := Ops(changes);
    forall op | op in ops
      ensures p !in Names(op)
    {
      var i :| 0 <= i < |ops| && ops[i] == op;
      assert changes[i] in changes;
      ShapedNames(c, op);
    }
  }

  lemma PlanFlips(c: Context, plan: seq<PkgOp>, desired: seq<Link>, changes: seq<Change>, staged: Tree)
    requires Sound(c) && IsPlan(c, plan, desired, changes) && StagedContent(c, staged, changes)
    ensures ApplyAll(staged, Ops(changes)).Some?
    ensures Flipped(c, changes, ApplyAll(staged, Ops(changes)).value)
  {
    hide Carries, Shaped, Sound, IsPlan, Separated, AllPlanned;
    var ops := Ops(changes);
    PlanSeparated(c, plan, desired, changes);
    PlanStaged(c, changes, staged);
    FlipResult(c.tree, staged, ops);
    var u := ApplyAll(staged, ops).value;
    forall x | x in changes
      ensures if x.op.action == Remove then x.op.finalPath !in u
              else x.op.finalPath in u && u[x.op.finalPath] == x.content
    {
      var i :| 0 <= i < |changes| && changes[i] == x;
      assert Done(c.tree, staged, u, ops[i]);
    }
    forall p | !Carries(p, c.id) && !(exists x :: x in changes && x.op.finalPath == p)
      ensures SameAt(c.tree, u, p)
    {
      UsesOnly(c, changes, p);
    }
  }
}
