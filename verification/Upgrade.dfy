/** The main result about planning: committing a planned transaction carries a
    disk that matches the old database to one that matches the new one. */
module Upgrade {
  import opened Wrappers
  import opened TempNames
  import opened FileOps
  import opened Undo
  import opened Claims
  import opened Tables
  import opened Metadata
  import opened ClaimTables
  import opened RowsAfter
  import opened Planning
  import opened Patch

  ghost predicate PlanNamed(plan: seq<PkgOp>)
  {
    && (forall q | q in plan :: q.pkg.name == q.name)
    && (forall i, j | 0 <= i < j < |plan| :: plan[i].name != plan[j].name)
  }

  // No path changes between directory and file across the upgrade.
  ghost predicate KindsKept(c: Context, plan: seq<PkgOp>)
  {
    forall q, e | q in plan && e in q.payload && e.kind.DirRow? && (q.name, e.path) in c.db.files ::
      c.db.files[(q.name, e.path)].DirRow?
  }

  // No path is listed both as a directory and as something else.
  ghost predicate OneKind(db: Db)
  {
    forall j, k | j in db.files && k in db.files && j.1 == k.1 :: db.files[j].DirRow? == db.files[k].DirRow?
  }

  // No other entry of the plan brings a file or symlink to the path of this one.
  ghost predicate BroughtOnce(plan: seq<PkgOp>, q: PkgOp, e: PayloadEntry)
  {
    forall r, f | r in plan && r.kind != OpRemove && f in r.payload && f.path == e.path && !f.kind.DirRow? ::
      r == q && f == e
  }

  ghost predicate Quiet(changes: seq<Change>, p: string)
  {
    forall x | x in changes :: x.op.finalPath != p
  }

  lemma StagedRowsNamed(plan: seq<PkgOp>)
    requires PlanNamed(plan)
    ensures WellNamed(StagedRows(plan)) && StagedNames(StagedRows(plan)) == PlanNames(plan)
  {
    var rows := StagedRows(plan);
    forall i | 0 <= i < |plan|
      ensures plan[i] in plan && rows[i] in rows && rows[i].name == plan[i].name
    {
    }
  }

  // What the plan brings, read back as a payload entry.
  lemma BroughtByPlan(plan: seq<PkgOp>, k: (string, string), kind: Kind) returns (q: PkgOp, e: PayloadEntry)
    requires Brings(StagedRows(plan), k, kind)
    ensures q in plan && q.kind != OpRemove && q.name == k.0
    ensures e in q.payload && e.path == k.1 && e.kind == kind
  {
    var s :| s in StagedRows(plan) && s.kind != OpRemove && PackageFile(k.0, k.1, kind) in s.files;
    var i :| 0 <= i < |plan| && StagedRows(plan)[i] == s;
    q := plan[i];
    var j :| 0 <= j < |q.payload| && RowsOf(q)[j] == PackageFile(k.0, k.1, kind);
    e := q.payload[j];
  }

  lemma PlanBrings(plan: seq<PkgOp>, q: PkgOp, e: PayloadEntry, db: Db, d: Db)
    requires q in plan && q.kind != OpRemove && e in q.payload && RowsAre(db, StagedRows(plan), d)
    ensures (q.name, e.path) in d.files && d.files[(q.name, e.path)] == e.kind
  {
    var i :| 0 <= i < |plan| && plan[i] == q;
    var s := StagedRows(plan)[i];
    assert s in StagedRows(plan);
    var j :| 0 <= j < |q.payload| && q.payload[j] == e;
    assert RowsOf(q)[j] in s.files;
  }

  // Where a change can come from.
  ghost predicate Sourced(c: Context, plan: seq<PkgOp>, desired: seq<Link>, x: Change)
  {
    || (exists l | l in desired :: l.path == x.op.finalPath && ClaimChange(c, l) == Some(x))
    || (x.op.finalPath in c.db.links && x.op.finalPath !in PathSet(desired))
    || (exists q, e | q in plan && q.kind != OpRemove && e in q.payload ::
          e.path == x.op.finalPath && EntryChange(c, q, e) == Some(x))
    || (exists q | q in plan :: x.op.finalPath in Dropped(c, q))
  }

  lemma ChangeSourced(c: Context, plan: seq<PkgOp>, desired: seq<Link>, changes: seq<Change>, x: Change)
    requires IsPlan(c, plan, desired, changes) && x in changes
    ensures Sourced(c, plan, desired, x)
  {
    hide TempPath, Carries, NamesApart, Accepted, JournalAccepts;
    assert IsChange(c, plan, desired, x);
    if FromClaims(c, desired, x) {
      if l :| l in desired && ClaimChange(c, l) == Some(x) {
        assert l.path == x.op.finalPath;
      }
    } else {
      var q :| q in plan && FromPackage(c, q, x);
      if e :| q.kind != OpRemove && e in q.payload && EntryChange(c, q, e) == Some(x) {
        assert e.path == x.op.finalPath;
      }
    }
  }

  // A row of a package outside the plan is left alone.
  lemma OtherRowQuiet(c: Context, plan: seq<PkgOp>, desired: seq<Link>, changes: seq<Change>, k: (string, string))
    requires Sound(c) && IsPlan(c, plan, desired, changes)
    requires k in c.db.files && !c.db.files[k].DirRow? && k.0 !in PlanNames(plan)
    ensures Quiet(changes, k.1)
  {
    hide TempPath, Carries, NamesApart, IsChange, ClaimChange;
    assert k.0 in Owners(c.db, k.1) && k.1 in PostOwned(c.db, plan);
    forall x | x in changes
      ensures x.op.finalPath != k.1
    {
      ChangeSourced(c, plan, desired, changes, x);
    }
  }

  // So is a payload entry found untouched, unless another one comes to its path.
  lemma UntouchedQuiet(c: Context, plan: seq<PkgOp>, desired: seq<Link>, changes: seq<Change>, q: PkgOp,
                       e: PayloadEntry)
    requires Sound(c) && IsPlan(c, plan, desired, changes) && PlanNamed(plan) && BroughtOnce(plan, q, e)
    requires q in plan && q.kind != OpRemove && e in q.payload && Untouched(c, q, e)
    ensures Quiet(changes, e.path)
  {
    hide TempPath, Carries, NamesApart, IsChange, ClaimChange, Untouched, EntryRefused, Agree;
    UntouchedRow(c, q, e);
    assert e.path in PostOwned(c.db, plan);
    forall x | x in changes
      ensures x.op.finalPath != e.path
    {
      ChangeSourced(c, plan, desired, changes, x);
      forall q', e' | q' in plan && q'.kind != OpRemove && e' in q'.payload && e'.path == e.path
        ensures EntryChange(c, q', e') == None
      {
        assert !e'.kind.DirRow? ==> q' == q && e' == e;
      }
      OnlyOwnerDrops(c, plan, q, e.path);
    }
  }

  // A path that only its own package's rows and payload name is dropped by no
  // operation of the plan.
  lemma OnlyOwnerDrops(c: Context, plan: seq<PkgOp>, q: PkgOp, path: string)
    requires ValidDb(c.db) && PlanNamed(plan) && q in plan && q.kind != OpRemove && path in PayloadPaths(q.payload)
    requires (q.name, path) in c.db.files && !c.db.files[(q.name, path)].DirRow?
    ensures forall r | r in plan :: path !in Dropped(c, r)
  {
    forall r | r in plan
      ensures path !in Dropped(c, r)
    {
      SameName(plan, q, r);
      assert (r.name, path) in c.db.files && !c.db.files[(r.name, path)].DirRow? ==> r.name == q.name;
    }
  }

  lemma RowsBringOnce(plan: seq<PkgOp>, q: PkgOp, e: PayloadEntry, db: Db, d: Db)
    requires PlanNamed(plan) && RowsAre(db, StagedRows(plan), d) && Unique(d)
    requires q in plan && q.kind != OpRemove && e in q.payload && !e.kind.DirRow?
    ensures BroughtOnce(plan, q, e)
  {
    hide RowsAre;
    forall r, f | r in plan && r.kind != OpRemove && f in r.payload && f.path == e.path && !f.kind.DirRow?
      ensures r == q && f == e
    {
      PlanBrings(plan, q, e, db, d);
      PlanBrings(plan, r, f, db, d);
      SameName(plan, q, r);
    }
  }

  lemma UntouchedRow(c: Context, q: PkgOp, e: PayloadEntry)
    requires Untouched(c, q, e)
    ensures (q.name, e.path) in c.db.files && !c.db.files[(q.name, e.path)].DirRow? && !e.kind.DirRow?
    ensures EntryChange(c, q, e) == None
  {
    hide TempPath;
  }

  lemma SameName(plan: seq<PkgOp>, q: PkgOp, r: PkgOp)
    requires PlanNamed(plan) && q in plan && r in plan
    ensures q.name == r.name ==> q == r
  {
  }

  // And a desired link that is recorded as it is, or adopted as it stands.
  lemma LinkQuiet(c: Context, plan: seq<PkgOp>, desired: seq<Link>, changes: seq<Change>, l: Link)
    requires Sound(c) && IsPlan(c, plan, desired, changes) && DistinctPaths(desired)
    requires l in desired && ClaimChange(c, l) == None
    ensures Quiet(changes, l.path)
    ensures l.path in c.tree && c.tree[l.path] == LinkEntry(l)
  {
    hide TempPath, Carries, NamesApart, IsChange, EntryChange, EntryRefused, LinkEntry;
    assert l.path !in PostOwned(c.db, plan);
    forall x | x in changes
      ensures x.op.finalPath != l.path
    {
      ChangeSourced(c, plan, desired, changes, x);
      assert forall m | m in desired && m.path == l.path :: m == l;
      assert forall q, e | q in plan && q.kind != OpRemove && e in q.payload :: e.path in PostOwned(c.db, plan);
      assert l.path in c.db.links || Owners(c.db, l.path) == {};
      assert forall q | q in plan && l.path in Dropped(c, q) :: q.name in Owners(c.db, l.path);
    }
  }

  // A payload entry's path, when it is not quiet, receives the entry.
  lemma EntryArrives(c: Context, plan: seq<PkgOp>, desired: seq<Link>, changes: seq<Change>, u: Tree, q: PkgOp,
                     e: PayloadEntry)
    requires IsPlan(c, plan, desired, changes) && Flipped(c, changes, u)
    requires q in plan && q.kind != OpRemove && e in q.payload && !e.kind.DirRow? && !Untouched(c, q, e)
    ensures e.path in u && u[e.path] == EntryOf(e.kind)
  {
    hide TempPath, Carries, NamesApart, Accepted, JournalAccepts;
    var x := EntryChange(c, q, e).value;
    assert x.op.action != Remove && x.op.finalPath == e.path;
    assert FromPackage(c, q, x);
    assert IsChange(c, plan, desired, x);
    assert x in changes;
  }

  lemma LinkArrives(c: Context, plan: seq<PkgOp>, desired: seq<Link>, changes: seq<Change>, u: Tree, l: Link)
    requires IsPlan(c, plan, desired, changes) && Flipped(c, changes, u)
    requires l in desired && ClaimChange(c, l).Some?
    ensures l.path in u && u[l.path] == LinkEntry(l)
  {
    hide TempPath, Carries, NamesApart, Accepted, JournalAccepts, LinkEntry;
    var x := ClaimChange(c, l).value;
    assert x.op.action != Remove && x.op.finalPath == l.path;
    assert FromClaims(c, desired, x);
    assert IsChange(c, plan, desired, x);
    assert x in changes;
  }

  // A quiet path that is no temporary name keeps its entry.
  lemma QuietStays(c: Context, changes: seq<Change>, u: Tree, p: string)
    requires Flipped(c, changes, u) && Quiet(changes, p) && !Carries(p, c.id)
    ensures SameAt(c.tree, u, p)
  {
  }

  lemma FileMatches(c: Context, plan: seq<PkgOp>, desired: seq<Link>, changes: seq<Change>, u: Tree, d: Db,
                    k: (string, string))
    requires Sound(c) && IsPlan(c, plan, desired, changes) && PlanNamed(plan) && Flipped(c, changes, u)
    requires RowsAre(c.db, StagedRows(plan), d) && Unique(d) && k in d.files && !d.files[k].DirRow?
    ensures k.1 in u && u[k.1] == EntryOf(d.files[k])
  {
    hide TempPath, Carries, IsChange, Accepted, ClaimChange, EntryChange, Flipped, Unique, Quiet;
    StagedRowsNamed(plan);
    if k.0 in PlanNames(plan) {
      var q, e := BroughtByPlan(plan, k, d.files[k]);
      if Untouched(c, q, e) {
        RowsBringOnce(plan, q, e, c.db, d);
        UntouchedQuiet(c, plan, desired, changes, q, e);
        QuietStays(c, changes, u, k.1);
      } else {
        EntryArrives(c, plan, desired, changes, u, q, e);
      }
    } else {
      OtherRowQuiet(c, plan, desired, changes, k);
      QuietStays(c, changes, u, k.1);
    }
  }

  lemma LinkMatches(c: Context, plan: seq<PkgOp>, desired: seq<Link>, changes: seq<Change>, u: Tree, l: Link)
    requires Sound(c) && IsPlan(c, plan, desired, changes) && DistinctPaths(desired) && Flipped(c, changes, u)
    requires l in desired
    ensures l.path in u && u[l.path] == LinkEntry(l)
  {
    hide TempPath, Carries, IsChange, Accepted, ClaimChange, Flipped, Quiet, LinkEntry;
    if ClaimChange(c, l) == None {
      LinkQuiet(c, plan, desired, changes, l);
      QuietStays(c, changes, u, l.path);
    } else {
      LinkArrives(c, plan, desired, changes, u, l);
    }
  }

  // After the flip the disk matches the rows the commit will write: every file,
  // symlink and claim link, through create, replace, swap, removal, adoption and
  // a link taking over a path freed by a removal.
  lemma FlipMatchesNewRows(c: Context, plan: seq<PkgOp>, desired: seq<Link>, changes: seq<Change>, u: Tree, after: Db)
    requires Sound(c) && IsPlan(c, plan, desired, changes) && PlanNamed(plan) && DistinctPaths(desired)
    requires Flipped(c, changes, u)
    requires RowsAre(c.db, StagedRows(plan), after) && Unique(after) && RecordsExactly(after.links, desired)
    ensures Agree(u, after) && LinksApart(after)
  {
    hide TempPath, Carries, IsChange, ClaimChange, EntryChange, Flipped, LinkEntry, NamesApart, RowsAre, Sound, IsPlan;
    hide LinksApart;
    forall k | k in after.files && !after.files[k].DirRow?
      ensures k.1 in u && u[k.1] == EntryOf(after.files[k])
    {
      FileMatches(c, plan, desired, changes, u, after, k);
    }
    forall p | p in after.links
      ensures p in u && u[p] == LinkEntry(after.links[p])
    {
      LinkMatches(c, plan, desired, changes, u, after.links[p]);
    }
    NewLinksApart(c, plan, desired, changes, after);
  }

  // No desired link is at a path that packages will own.
  lemma NewLinksApart(c: Context, plan: seq<PkgOp>, desired: seq<Link>, changes: seq<Change>, after: Db)
    requires IsPlan(c, plan, desired, changes) && PlanNamed(plan)
    requires RowsAre(c.db, StagedRows(plan), after) && RecordsExactly(after.links, desired)
    ensures LinksApart(after)
  {
    hide TempPath, IsChange, NamesApart, JournalAccepts, KindsApart, PackageRefused, UnownedDiffers;
    StagedRowsNamed(plan);
    forall k, p | k in after.files && p in after.links
      ensures k.1 != p
    {
      assert after.links[p] in desired && !LinkRefused(c, PostOwned(c.db, plan), after.links[p]);
      if k.0 in PlanNames(plan) {
        var q, e := BroughtByPlan(plan, k, after.files[k]);
        assert e.path in PostOwned(c.db, plan);
      } else {
        assert k.1 in PostOwned(c.db, plan);
      }
    }
  }

  // A file of the old database that the new one does not manage was dropped by its
  // own package.
  lemma LostWasDropped(c: Context, plan: seq<PkgOp>, after: Db, k: (string, string)) returns (q: PkgOp)
    requires ValidDb(c.db) && PlanNamed(plan) && KindsKept(c, plan) && RowsAre(c.db, StagedRows(plan), after)
    requires OneKind(c.db)
    requires forall q | q in plan && q.kind == OpInstall :: q.name !in c.db.packages
    requires k in c.db.files && !c.db.files[k].DirRow? && !Managed(after, k.1)
    ensures q in plan && k.1 in Dropped(c, q)
  {
    hide RowsAre, PlanNamed, ForeignKeys, Unique, Brings, KindsKept, OneKind, Managed;
    LostIsPlanned(c.db, plan, after, k);
    q :| q in plan && q.name == k.0;
    forall e | q.kind != OpRemove && e in q.payload
      ensures e.path != k.1
    {
      BroughtStays(c, plan, after, k, q, e);
    }
    LostAlone(c, k, q);
  }

  lemma BroughtStays(c: Context, plan: seq<PkgOp>, after: Db, k: (string, string), q: PkgOp, e: PayloadEntry)
    requires KindsKept(c, plan) && RowsAre(c.db, StagedRows(plan), after)
    requires q in plan && q.kind != OpRemove && e in q.payload && k.0 == q.name
    requires k in c.db.files && !c.db.files[k].DirRow? && !Managed(after, k.1)
    ensures e.path != k.1
  {
    PlanBrings(plan, q, e, c.db, after);
    hide RowsAre;
  }

  // A file's path has one owner.
  lemma LostAlone(c: Context, k: (string, string), q: PkgOp)
    requires ValidDb(c.db) && OneKind(c.db) && k in c.db.files && !c.db.files[k].DirRow? && k.0 == q.name
    requires q.kind == OpInstall ==> q.name !in c.db.packages
    requires q.kind != OpRemove ==> forall e | e in q.payload :: e.path != k.1
    ensures k.1 in Dropped(c, q)
  {
    assert k.0 in c.db.packages;
    assert Owners(c.db, k.1) == {k.0} by {
      assert forall j | j in c.db.files && j.1 == k.1 :: j == k;
    }
  }

  lemma LostIsPlanned(db: Db, plan: seq<PkgOp>, after: Db, k: (string, string))
    requires PlanNamed(plan) && RowsAre(db, StagedRows(plan), after)
    requires k in db.files && !db.files[k].DirRow? && !Managed(after, k.1)
    ensures k.0 in PlanNames(plan)
  {
    StagedRowsNamed(plan);
  }

  // A recorded link that is no longer desired is gone from disk.
  lemma WithdrawnLinkIsGone(c: Context, plan: seq<PkgOp>, desired: seq<Link>, changes: seq<Change>, u: Tree, p: string)
    requires IsPlan(c, plan, desired, changes) && Flipped(c, changes, u)
    requires p in c.db.links && p !in PathSet(desired)
    ensures p !in u
  {
    hide TempPath, Carries, NamesApart, KindsApart, Accepted, JournalAccepts, FromClaims, FromPackage;
    LinkRemovalPlanned(c, desired, p);
    assert IsChange(c, plan, desired, Removal(c, p));
    assert Removal(c, p) in changes;
  }

  // So is a file or symlink the new rows do not manage.
  lemma WithdrawnFileIsGone(c: Context, plan: seq<PkgOp>, desired: seq<Link>, changes: seq<Change>, u: Tree, after: Db,
                            k: (string, string))
    requires Sound(c) && IsPlan(c, plan, desired, changes) && PlanNamed(plan) && KindsKept(c, plan) && OneKind(c.db)
    requires forall q | q in plan && q.kind == OpInstall :: q.name !in c.db.packages
    requires Flipped(c, changes, u)
    requires RowsAre(c.db, StagedRows(plan), after) && RecordsExactly(after.links, desired)
    requires k in c.db.files && !c.db.files[k].DirRow? && !Managed(after, k.1)
    ensures k.1 !in u
  {
    hide TempPath, Carries, NamesApart, KindsApart, JournalAccepts, FromPackage, FromClaims, Agree, Accepted, RowsAre;
    hide KindsKept, Dropped, OneKind;
    var x := Removal(c, k.1);
    assert x.op.finalPath == k.1 && x.op.action == Remove;
    var q := LostWasDropped(c, plan, after, k);
    DroppedPlanned(c, q, k.1);
    assert k.1 !in c.db.links;
    forall y | FromClaims(c, desired, y)
      ensures y.op.finalPath != k.1
    {
      NotClaimed(c, desired, y, k.1, after);
    }
    assert IsChange(c, plan, desired, x);
    assert x in changes;
  }

  lemma LinkRemovalPlanned(c: Context, desired: seq<Link>, p: string)
    requires p in c.db.links && p !in PathSet(desired)
    ensures FromClaims(c, desired, Removal(c, p))
  {
  }

  lemma DroppedPlanned(c: Context, q: PkgOp, p: string)
    requires p in Dropped(c, q)
    ensures FromPackage(c, q, Removal(c, p))
  {
  }

  lemma NotClaimed(c: Context, desired: seq<Link>, y: Change, p: string, after: Db)
    requires FromClaims(c, desired, y) && p !in c.db.links && p !in after.links && RecordsExactly(after.links, desired)
    ensures y.op.finalPath != p
  {
    hide TempPath, Carries;
    if l :| l in desired && ClaimChange(c, l) == Some(y) {
      assert y.op.finalPath == l.path;
    }
  }
}
