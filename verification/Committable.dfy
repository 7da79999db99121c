/** When a planned transaction's database commit succeeds: the unique index on
    non-directory paths and the primary keys decide, and a caller can tell before. */
module Committable {
  import opened Wrappers
  import opened TempNames
  import opened FileOps
  import opened Lookups
  import opened Claims
  import opened Tables
  import opened Metadata
  import opened ClaimTables
  import opened RowsAfter
  import opened Planning
  import opened Patch
  import opened Upgrade

  /** One batch of file rows. */

  predicate Collides(db: Db, f: PackageFile)
  {
    !f.kind.DirRow? && exists k | k in db.files :: k.1 == f.path && !db.files[k].DirRow?
  }

  predicate Fits(db: Db, f: PackageFile)
  {
    f.owner in db.packages && (f.owner, f.path) !in db.files && !Collides(db, f)
  }

  // Rows of one owner go in exactly when each fits and no path is repeated.
  lemma {:induction false} InsertSucceeds(db: Db, files: seq<PackageFile>, owner: string)
    requires forall f | f in files :: f.owner == owner
    ensures InsertPackageFiles(db, files).Some? <==>
            && (forall f | f in files :: Fits(db, f))
            && (forall i, j | 0 <= i < j < |files| :: files[i].path != files[j].path)
    decreases |files|
  {
    if files != [] {
      var f, rest := files[0], files[1..];
      assert files == [f] + rest;
      if Fits(db, f) {
        var next := db.(files := db.files[(f.owner, f.path) := f.kind]);
        InsertSucceeds(next, rest, owner);
        FitsNext(db, next, f, rest);
        DistinctCons(files);
      } else {
        assert !CanInsertFile(db, f);
      }
    }
  }

  lemma DistinctCons(files: seq<PackageFile>)
    requires files != []
    ensures (forall i, j | 0 <= i < j < |files| :: files[i].path != files[j].path) <==>
            && (forall g | g in files[1..] :: g.path != files[0].path)
            && (forall i, j | 0 <= i < j < |files[1..]| :: files[1..][i].path != files[1..][j].path)
  {
    var rest := files[1..];
    if forall i, j | 0 <= i < j < |files| :: files[i].path != files[j].path {
      forall g | g in rest
        ensures g.path != files[0].path
      {
        var i :| 0 <= i < |rest| && rest[i] == g;
        assert files[i + 1] == g;
      }
      assert forall i | 0 <= i < |rest| :: rest[i] == files[i + 1];
    } else {
      var i, j :| 0 <= i < j < |files| && files[i].path == files[j].path;
      assert files[j] == rest[j - 1] && (i > 0 ==> files[i] == rest[i - 1]);
    }
  }

  lemma FitsNext(db: Db, next: Db, f: PackageFile, rest: seq<PackageFile>)
    requires next == db.(files := db.files[(f.owner, f.path) := f.kind]) && Fits(db, f)
    requires forall g | g in rest :: g.owner == f.owner
    ensures (forall g | g in rest :: Fits(next, g)) <==> (forall g | g in rest :: Fits(db, g) && g.path != f.path)
  {
    forall g | g in rest
      ensures Fits(next, g) <==> Fits(db, g) && g.path != f.path
    {
      assert g.path != f.path ==> (Collides(next, g) <==> Collides(db, g)) by {
        assert (f.owner, f.path) in next.files;
      }
    }
  }

  /** One operation after those before it. */

  // What can stand in the way of operation i: a package that is there already, a
  // path twice in its payload, and a file or symlink where an earlier operation
  // brings one, or where a row not yet rewritten lists one.
  ghost predicate OpCommits(db: Db, plan: seq<PkgOp>, i: nat)
    requires i < |plan|
  {
    plan[i].kind == OpRemove ||
    (&& (plan[i].kind == OpInstall ==> plan[i].name !in db.packages)
     && PathsOnce(plan[i].payload)
     && (forall e, j, f | e in plan[i].payload && 0 <= j < i && plan[j].kind != OpRemove && f in plan[j].payload
                          && f.path == e.path :: e.kind.DirRow? || f.kind.DirRow?)
     && (forall e, k | e in plan[i].payload && k in db.files && k.1 == e.path && k.0 != plan[i].name
                       && k.0 !in PlanNames(plan[..i]) :: e.kind.DirRow? || db.files[k].DirRow?))
  }

  ghost predicate PathsOnce(payload: seq<PayloadEntry>)
  {
    forall i, j | 0 <= i < j < |payload| :: payload[i].path != payload[j].path
  }

  ghost predicate RowsCommit(db: Db, plan: seq<PkgOp>) { forall i | 0 <= i < |plan| :: OpCommits(db, plan, i) }

  lemma PrefixNames(plan: seq<PkgOp>, n: nat)
    requires n <= |plan| && PlanNamed(plan)
    ensures StagedRows(plan)[..n] == StagedRows(plan[..n]) && PlanNamed(plan[..n])
    ensures StagedNames(StagedRows(plan)[..n]) == PlanNames(plan[..n]) && WellNamed(StagedRows(plan)[..n])
  {
    assert StagedRows(plan)[..n] == StagedRows(plan[..n]);
    StagedRowsNamed(plan[..n]);
  }

  // A file or symlink of another package, listed at a path.
  predicate Stands(files: map<(string, string), Kind>, path: string, name: string)
  {
    exists k | k in files :: k.1 == path && k.0 != name && !files[k].DirRow?
  }

  predicate Brought(plan: seq<PkgOp>, n: nat, path: string)
    requires n <= |plan|
  {
    exists j | 0 <= j < n ::
      plan[j].kind != OpRemove && exists f | f in plan[j].payload :: f.path == path && !f.kind.DirRow?
  }

  predicate StillListed(db: Db, plan: seq<PkgOp>, n: nat, path: string, name: string)
    requires n <= |plan|
  {
    exists k | k in db.files :: k.1 == path && k.0 != name && !db.files[k].DirRow? && k.0 !in PlanNames(plan[..n])
  }

  // What stands where after the first n operations.
  lemma StandsAfter(db: Db, plan: seq<PkgOp>, n: nat, d: Db, path: string)
    requires n < |plan| && PlanNamed(plan) && RowsAre(db, StagedRows(plan)[..n], d)
    ensures Stands(d.files, path, plan[n].name) <==>
            Brought(plan, n, path) || StillListed(db, plan, n, path, plan[n].name)
  {
    hide RowsAre, PlanNamed;
    PrefixNames(plan, n);
    var part, name := plan[..n], plan[n].name;
    if k :| k in d.files && k.1 == path && k.0 != name && !d.files[k].DirRow? {
      StandsBecause(db, plan, n, d, k);
    }
    if j :| 0 <= j < n && plan[j].kind != OpRemove
            && exists f | f in plan[j].payload :: f.path == path && !f.kind.DirRow? {
      var f :| f in plan[j].payload && f.path == path && !f.kind.DirRow?;
      assert part[j] == plan[j];
      PlanBrings(part, plan[j], f, db, d);
      OthersAreOthers(plan, n);
    }
    if k :| k in db.files && k.1 == path && k.0 != name && !db.files[k].DirRow? && k.0 !in PlanNames(part) {
      RowStays(db, plan, n, d, k);
    }
  }

  lemma StandsBecause(db: Db, plan: seq<PkgOp>, n: nat, d: Db, k: (string, string))
    requires n < |plan| && PlanNamed(plan) && RowsAre(db, StagedRows(plan)[..n], d)
    requires k in d.files && k.0 != plan[n].name && !d.files[k].DirRow?
    ensures Brought(plan, n, k.1) || StillListed(db, plan, n, k.1, plan[n].name)
  {
    hide RowsAre, PlanNamed;
    PrefixNames(plan, n);
    RowFrom(db, StagedRows(plan)[..n], d, k);
    var part := plan[..n];
    if k.0 in PlanNames(part) {
      var q, e := BroughtByPlan(part, k, d.files[k]);
      var j :| 0 <= j < n && part[j] == q;
      assert plan[j] == q && e in plan[j].payload;
    }
  }

  lemma RowFrom(db: Db, staged: seq<StagedOp>, d: Db, k: (string, string))
    requires RowsAre(db, staged, d) && k in d.files
    ensures if k.0 in StagedNames(staged) then Brings(staged, k, d.files[k])
            else k in db.files && db.files[k] == d.files[k]
  {
    hide Brings, StagedNames;
  }

  lemma RowStays(db: Db, plan: seq<PkgOp>, n: nat, d: Db, k: (string, string))
    requires n < |plan| && PlanNamed(plan) && RowsAre(db, StagedRows(plan)[..n], d)
    requires k in db.files && k.0 !in PlanNames(plan[..n])
    ensures k in d.files && d.files[k] == db.files[k]
  {
    PrefixNames(plan, n);
  }

  // The database before the rows of one operation go in.
  function Freed(d: Db, q: PkgOp): Db { if q.kind == OpInstall then d else DeletePackage(d, q.name) }

  lemma FreedRows(d: Db, q: PkgOp, e: PayloadEntry)
    requires ValidDb(d) && q.pkg.name == q.name && InsertPackage(Freed(d, q), q.pkg).Some?
    ensures var more := InsertPackage(Freed(d, q), q.pkg).value;
      Fits(more, PackageFile(q.name, e.path, e.kind)) <==>
        e.kind.DirRow? || !Stands(d.files, e.path, q.name)
  {
    var more := InsertPackage(Freed(d, q), q.pkg).value;
    assert forall k | k in more.files :: k.0 != q.name && k in d.files && more.files[k] == d.files[k];
    assert forall k | k in d.files && k.0 != q.name :: k in more.files;
  }

  lemma OpStep(db: Db, plan: seq<PkgOp>, n: nat, d: Db)
    requires n < |plan| && ValidDb(d) && PlanNamed(plan) && RowsAre(db, StagedRows(plan)[..n], d)
    ensures ApplyOp(d, StagedRows(plan)[n]).Some? <==> OpCommits(db, plan, n)
  {
    hide RowsAre, ValidDb, PlanNamed, Fits;
    var q, s := plan[n], StagedRows(plan)[n];
    OpNamed(plan, n);
    if q.kind != OpRemove {
      PackageAbsent(db, plan, n, d);
      assert InsertPackage(Freed(d, q), q.pkg).Some? <==> (q.kind == OpInstall ==> q.name !in db.packages);
      if InsertPackage(Freed(d, q), q.pkg).Some? {
        var more := InsertPackage(Freed(d, q), q.pkg).value;
        InsertSucceeds(more, RowsOf(q), q.name);
        RowsDistinct(q);
        forall e | e in q.payload
          ensures Fits(more, PackageFile(q.name, e.path, e.kind)) <==> EntryCommits(db, plan, n, e)
        {
          FreedRows(d, q, e);
          StandsAfter(db, plan, n, d, e.path);
        }
        EntriesCommit(db, plan, n);
        FitAll(more, q);
      }
    }
  }

  lemma OpNamed(plan: seq<PkgOp>, n: nat)
    requires n < |plan| && PlanNamed(plan)
    ensures plan[n].pkg.name == plan[n].name && plan[n].name !in PlanNames(plan[..n])
  {
    assert plan[n] in plan;
  }

  lemma OthersAreOthers(plan: seq<PkgOp>, n: nat)
    requires n < |plan| && PlanNamed(plan)
    ensures forall j | 0 <= j < n :: plan[j].name != plan[n].name
  {
  }

  ghost predicate EntryCommits(db: Db, plan: seq<PkgOp>, i: nat, e: PayloadEntry)
    requires i < |plan|
  {
    e.kind.DirRow? || !(Brought(plan, i, e.path) || StillListed(db, plan, i, e.path, plan[i].name))
  }

  lemma EntriesCommit(db: Db, plan: seq<PkgOp>, i: nat)
    requires i < |plan| && plan[i].kind != OpRemove
    ensures OpCommits(db, plan, i) <==>
            && (plan[i].kind == OpInstall ==> plan[i].name !in db.packages)
            && PathsOnce(plan[i].payload) && forall e | e in plan[i].payload :: EntryCommits(db, plan, i, e)
  {
  }

  lemma RowsDistinct(q: PkgOp)
    ensures (forall i, j | 0 <= i < j < |RowsOf(q)| :: RowsOf(q)[i].path != RowsOf(q)[j].path) <==> PathsOnce(q.payload)
    ensures forall f | f in RowsOf(q) :: f.owner == q.name
  {
    assert forall i | 0 <= i < |q.payload| :: RowsOf(q)[i].path == q.payload[i].path;
  }

  lemma FitAll(more: Db, q: PkgOp)
    ensures (forall f | f in RowsOf(q) :: Fits(more, f)) <==>
            forall e | e in q.payload :: Fits(more, PackageFile(q.name, e.path, e.kind))
  {
    hide Fits;
    forall e | e in q.payload
      ensures PackageFile(q.name, e.path, e.kind) in RowsOf(q)
    {
      var i :| 0 <= i < |q.payload| && q.payload[i] == e;
      assert RowsOf(q)[i] == PackageFile(q.name, e.path, e.kind);
    }
    forall f | f in RowsOf(q)
      ensures exists e | e in q.payload :: f == PackageFile(q.name, e.path, e.kind)
    {
      var i :| 0 <= i < |q.payload| && RowsOf(q)[i] == f;
      assert q.payload[i] in q.payload;
    }
  }

  lemma PackageAbsent(db: Db, plan: seq<PkgOp>, n: nat, d: Db)
    requires n < |plan| && PlanNamed(plan) && RowsAre(db, StagedRows(plan)[..n], d)
    ensures plan[n].name in d.packages <==> plan[n].name in db.packages
  {
    PrefixNames(plan, n);
    OpNamed(plan, n);
    assert forall s | s in StagedRows(plan)[..n] :: s.name in StagedNames(StagedRows(plan)[..n]);
  }

  // The package half of the commit succeeds exactly when every operation's does.
  lemma {:induction false} MetadataSucceeds(db: Db, plan: seq<PkgOp>, n: nat)
    requires ValidDb(db) && PlanNamed(plan) && n <= |plan|
    ensures ApplyMetadata(db, StagedRows(plan)[..n]).Some? <==> forall i | 0 <= i < n :: OpCommits(db, plan, i)
  {
    hide OpCommits, ValidDb, PlanNamed, ApplyOp, RowsAre, RowsOf, WellNamed;
    if n > 0 {
      MetadataSucceeds(db, plan, n - 1);
      var rows := StagedRows(plan);
      assert rows[..n][..n - 1] == rows[..n - 1];
      if ApplyMetadata(db, rows[..n - 1]).Some? {
        NextOp(db, plan, n - 1);
      }
    }
  }

  lemma NextOp(db: Db, plan: seq<PkgOp>, n: nat)
    requires ValidDb(db) && PlanNamed(plan) && n < |plan| && ApplyMetadata(db, StagedRows(plan)[..n]).Some?
    ensures ApplyOp(ApplyMetadata(db, StagedRows(plan)[..n]).value, StagedRows(plan)[n]).Some? <==>
            OpCommits(db, plan, n)
  {
    hide OpCommits, ValidDb, PlanNamed, ApplyOp, ApplyMetadata, RowsAre, RowsOf, StagedNames;
    var rows := StagedRows(plan)[..n];
    PrefixNames(plan, n);
    RowsAfterMetadata(db, rows);
    MetadataValid(db, rows);
    OpStep(db, plan, n, ApplyMetadata(db, rows).value);
  }

  /** For a plan that was accepted. */

  // What is left to check: an install of a package that is there, a path twice in a
  // payload, one file or symlink path in two payloads.
  ghost predicate PayloadsApart(db: Db, plan: seq<PkgOp>)
  {
    && (forall q | q in plan && q.kind == OpInstall :: q.name !in db.packages)
    && (forall q | q in plan && q.kind != OpRemove :: PathsOnce(q.payload))
    && (forall i, j, e, f | 0 <= i < j < |plan| && plan[i].kind != OpRemove && plan[j].kind != OpRemove
                            && e in plan[i].payload && f in plan[j].payload && e.path == f.path ::
          e.kind.DirRow? || f.kind.DirRow?)
  }

  // Where a row of a package of the plan lists a file at a path that another
  // operation fills, the journal holds two operations for it, unless it turns into
  // a directory: it is refused long before the commit.
  lemma FreedPathsClash(c: Context, plan: seq<PkgOp>, desired: seq<Link>, changes: seq<Change>, q: PkgOp,
                        e: PayloadEntry, r: PkgOp)
    requires Sound(c) && IsPlan(c, plan, desired, changes) && KindsKept(c, plan) && PayloadsApart(c.db, plan)
    requires q in plan && r in plan && q.name != r.name && q.kind != OpRemove && e in q.payload && !e.kind.DirRow?
    requires (r.name, e.path) in c.db.files
    requires OneKind(c.db)
    ensures c.db.files[(r.name, e.path)].DirRow?
  {
    hide Sound, IsPlan, OneKind, KindsKept, PayloadsApart;
    if r.kind != OpRemove && e.path in PayloadPaths(r.payload) {
      var f :| f in r.payload && f.path == e.path;
      KindFollows(c, plan, q, r, e, f);
    } else {
      DropsUnlessDir(c, plan, r, e.path);
      FreedClash(c, plan, desired, changes, q, e, r);
    }
  }

  lemma KindFollows(c: Context, plan: seq<PkgOp>, q: PkgOp, r: PkgOp, e: PayloadEntry, f: PayloadEntry)
    requires KindsKept(c, plan) && PayloadsApart(c.db, plan) && q in plan && r in plan && q.name != r.name
    requires q.kind != OpRemove && r.kind != OpRemove && e in q.payload && !e.kind.DirRow?
    requires f in r.payload && f.path == e.path && (r.name, e.path) in c.db.files
    ensures c.db.files[(r.name, e.path)].DirRow?
  {
    OneOfTwo(plan, q, r, e, f, c.db);
  }

  lemma OneOfTwo(plan: seq<PkgOp>, q: PkgOp, r: PkgOp, e: PayloadEntry, f: PayloadEntry, db: Db)
    requires PayloadsApart(db, plan) && q in plan && r in plan && q.name != r.name
    requires q.kind != OpRemove && r.kind != OpRemove && e in q.payload && f in r.payload && e.path == f.path
    ensures e.kind.DirRow? || f.kind.DirRow?
  {
    var i :| 0 <= i < |plan| && plan[i] == q;
    var j :| 0 <= j < |plan| && plan[j] == r;
    assert i != j;
  }

  lemma DropsUnlessDir(c: Context, plan: seq<PkgOp>, r: PkgOp, path: string)
    requires Sound(c) && OneKind(c.db) && PayloadsApart(c.db, plan) && r in plan && (r.name, path) in c.db.files
    requires r.kind == OpRemove || path !in PayloadPaths(r.payload)
    ensures c.db.files[(r.name, path)].DirRow? || path in Dropped(c, r)
  {
    hide Agree, Carries, LinksApart;
    var k := (r.name, path);
    assert r.name in c.db.packages;
    assert r.name in Owners(c.db, path);
    if !c.db.files[k].DirRow? {
      forall n | n in Owners(c.db, path)
        ensures n == r.name
      {
        var j :| j in c.db.files && j.1 == path && j.0 == n;
        assert j == k;
      }
    }
  }

  // Such a plan gives the journal one path twice.
  lemma FreedClash(c: Context, plan: seq<PkgOp>, desired: seq<Link>, changes: seq<Change>, q: PkgOp, e: PayloadEntry,
                   r: PkgOp)
    requires Sound(c) && q in plan && r in plan && q.name != r.name && q.kind != OpRemove && e in q.payload
    requires !e.kind.DirRow? && (r.name, e.path) in c.db.files
    ensures c.db.files[(r.name, e.path)].DirRow? || e.path !in Dropped(c, r) || !IsPlan(c, plan, desired, changes)
  {
    hide NamesApart, KindsApart, IsChange, FromClaims, Obstructed, UnownedDiffers, Dropped, Agree;
    if !c.db.files[(r.name, e.path)].DirRow? && e.path in Dropped(c, r) && Accepted(c, plan, desired)
       && forall x :: x in changes <==> IsChange(c, plan, desired, x) {
      var x := EntryComes(c, plan, q, e, r);
      var y := Removal(c, e.path);
      assert !PackageRefused(c, plan, q) && !EntryRefused(c, plan, q, e);
      assert e.path in PostOwned(c.db, plan);
      DroppedPlanned(c, r, e.path);
      forall z | FromClaims(c, desired, z)
        ensures z.op.finalPath != e.path
      {
        ClaimsElsewhere(c, plan, desired, z, e.path);
      }
      BothPlanned(c, plan, desired, q, r, x, y);
      assert x in changes && y in changes;
      var i :| 0 <= i < |changes| && changes[i] == x;
      var j :| 0 <= j < |changes| && changes[j] == y;
      assert i != j && changes[i].op.finalPath == changes[j].op.finalPath;
      assert !JournalAccepts(plan, changes);
    }
  }

  lemma BothPlanned(c: Context, plan: seq<PkgOp>, desired: seq<Link>, q: PkgOp, r: PkgOp, x: Change, y: Change)
    requires q in plan && r in plan && FromPackage(c, q, x) && FromPackage(c, r, y)
    requires x.op.action != Remove && x.op.finalPath == y.op.finalPath
    requires forall z | FromClaims(c, desired, z) :: z.op.finalPath != y.op.finalPath
    ensures IsChange(c, plan, desired, x) && IsChange(c, plan, desired, y)
  {
    hide FromPackage, FromClaims;
  }

  // A file another package owns is no untouched entry of this one.
  lemma EntryComes(c: Context, plan: seq<PkgOp>, q: PkgOp, e: PayloadEntry, r: PkgOp) returns (x: Change)
    requires ValidDb(c.db) && q in plan && q.kind != OpRemove && e in q.payload && !e.kind.DirRow? && q.name != r.name
    requires (r.name, e.path) in c.db.files && !c.db.files[(r.name, e.path)].DirRow?
    ensures FromPackage(c, q, x) && x.op.finalPath == e.path && x.op.action in {Create, Replace}
  {
    hide TempPath, UnownedDiffers, Occupied;
    assert !Untouched(c, q, e);
    x := EntryChange(c, q, e).value;
  }

  lemma ClaimsElsewhere(c: Context, plan: seq<PkgOp>, desired: seq<Link>, z: Change, path: string)
    requires !ClaimsRefused(c, PostOwned(c.db, plan), desired) && FromClaims(c, desired, z)
    requires path in PostOwned(c.db, plan) && path !in c.db.links
    ensures z.op.finalPath != path
  {
    hide TempPath, PostOwned, Obstructed, UnownedDiffers, Occupied, LinkEntry;
    if l :| l in desired && ClaimChange(c, l) == Some(z) {
      assert z.op.finalPath == l.path && !LinkRefused(c, PostOwned(c.db, plan), l);
    }
  }

  // For an accepted plan that turns no file into a directory, the package half of
  // the commit succeeds exactly when its payloads are apart.
  lemma PlannedRowsCommit(c: Context, plan: seq<PkgOp>, desired: seq<Link>, changes: seq<Change>)
    requires Sound(c) && IsPlan(c, plan, desired, changes) && KindsKept(c, plan) && OneKind(c.db)
    ensures RowsCommit(c.db, plan) <==> PayloadsApart(c.db, plan)
  {
    hide Sound, IsPlan, OneKind, KindsKept;
    if PayloadsApart(c.db, plan) {
      forall i | 0 <= i < |plan| && plan[i].kind != OpRemove
        ensures OpCommits(c.db, plan, i)
      {
        var q := plan[i];
        assert q in plan;
        forall e, k | e in q.payload && !e.kind.DirRow? && k in c.db.files && k.1 == e.path && k.0 != q.name
          ensures c.db.files[k].DirRow?
        {
          if k.0 in PlanNames(plan) {
            var r :| r in plan && r.name == k.0;
            FreedPathsClash(c, plan, desired, changes, q, e, r);
          } else {
            OwnedElsewhere(c, plan, desired, changes, q, e, k);
          }
        }
      }
    } else {
      NotApart(c.db, plan);
    }
  }

  lemma OwnedElsewhere(c: Context, plan: seq<PkgOp>, desired: seq<Link>, changes: seq<Change>, q: PkgOp,
                       e: PayloadEntry, k: (string, string))
    requires IsPlan(c, plan, desired, changes) && q in plan && q.kind != OpRemove && e in q.payload && !e.kind.DirRow?
    requires k in c.db.files && k.1 == e.path && k.0 != q.name
    ensures k.0 in PlanNames(plan)
  {
    hide NamesApart, KindsApart, IsChange, JournalAccepts, Obstructed, UnownedDiffers, Untouched, ClaimsRefused;
    assert !PackageRefused(c, plan, q) && !EntryRefused(c, plan, q, e);
    assert k.0 in Owners(c.db, e.path);
  }

  lemma NotApart(db: Db, plan: seq<PkgOp>)
    requires !PayloadsApart(db, plan)
    ensures !RowsCommit(db, plan)
  {
    if q :| q in plan && q.kind == OpInstall && q.name in db.packages {
      var i :| 0 <= i < |plan| && plan[i] == q;
      assert !OpCommits(db, plan, i);
    } else if q :| q in plan && q.kind != OpRemove && !PathsOnce(q.payload) {
      var i :| 0 <= i < |plan| && plan[i] == q;
      assert !OpCommits(db, plan, i);
    } else {
      var i, j, e, f :| 0 <= i < j < |plan| && plan[i].kind != OpRemove && plan[j].kind != OpRemove
                        && e in plan[i].payload && f in plan[j].payload && e.path == f.path
                        && !e.kind.DirRow? && !f.kind.DirRow?;
      assert !OpCommits(db, plan, j);
    }
  }
}
