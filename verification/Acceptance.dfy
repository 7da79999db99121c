/** Which plans are refused, and what is planned for an entry and a link, read off the
    rows, the disk and the plan alone (checkPayloadCollisions, unownedPolicy and
    plannedOp in internal/install/stage.go, reconcileClaims in claims.go). */
module Acceptance {
  import opened Wrappers
  import opened TempNames
  import opened FileOps
  import opened Lookups
  import opened Claims
  import opened Tables
  import opened Metadata
  import opened Planning

  /** Obstacles. */

  // A package that is no part of the plan lists the path.
  ghost predicate OutsiderLists(c: Context, plan: seq<PkgOp>, path: string)
  {
    exists n :: (n, path) in c.db.files && forall q | q in plan :: q.name != n
  }

  // A file or symlink stands at a directory of the path.
  ghost predicate CutOff(c: Context, path: string)
  {
    exists k :: 0 <= k < |path| && path[k] == '/' && path[..k] in c.tree
  }

  // What is at the path is listed by nobody and is not the content.
  ghost predicate Stranger(c: Context, path: string, content: Entry)
  {
    && (path in c.tree || path + "/" in c.dirs)
    && (forall n :: (n, path) !in c.db.files)
    && !(path in c.tree && c.tree[path] == content)
  }

  // A directory may be shared with anyone; only a recorded link keeps it out.
  ghost predicate EntryFits(c: Context, plan: seq<PkgOp>, e: PayloadEntry)
  {
    && e.path !in c.db.links
    && (!e.kind.DirRow? ==>
          && !OutsiderLists(c, plan, e.path) && !CutOff(c, e.path)
          && (Stranger(c, e.path, EntryOf(e.kind)) ==> c.overwrite))
  }

  // A link goes where no package will list anything.
  ghost predicate LinkFits(c: Context, plan: seq<PkgOp>, l: Link)
  {
    && !OutsiderLists(c, plan, l.path)
    && (forall q, e | q in plan && q.kind != OpRemove && e in q.payload :: e.path != l.path)
    && (!(l.path in c.db.links && c.db.links[l.path] == l) ==> !CutOff(c, l.path))
    && (l.path !in c.db.links && Stranger(c, l.path, LinkEntry(l)) ==> c.overwrite)
  }

  // The operation gives up a file of its package: a removal what nobody else lists, an
  // upgrade or downgrade what the new payload does not carry.
  ghost predicate GivesUp(c: Context, q: PkgOp, path: string)
  {
    && q.kind != OpInstall && (q.name, path) in c.db.files && !c.db.files[(q.name, path)].DirRow?
    && if q.kind == OpRemove then forall n | (n, path) in c.db.files :: n == q.name
       else forall e | e in q.payload :: e.path != path
  }

  ghost predicate Acceptable(c: Context, plan: seq<PkgOp>, desired: seq<Link>)
  {
    && (forall q, e | q in plan && q.kind != OpRemove && e in q.payload :: EntryFits(c, plan, e))
    && (forall q, p | q in plan && GivesUp(c, q, p) :: !CutOff(c, p))
    && (forall l | l in desired :: LinkFits(c, plan, l))
    && (forall p | p in c.db.links && (forall l | l in desired :: l.path != p) :: !CutOff(c, p))
  }

  /** The planner finds exactly these. */

  lemma CutOffIsObstructed(c: Context, path: string)
    ensures Obstructed(c.tree, path) <==> CutOff(c, path)
  {
    if p :| p in c.tree && Above(p, path) {
      assert path[|p|] == '/' && path[..|p|] == p;
    }
    if k :| 0 <= k < |path| && path[k] == '/' && path[..k] in c.tree {
      assert path[..k] + "/" == path[..k + 1] && Above(path[..k], path);
    }
  }

  lemma OwnersAre(db: Db, path: string)
    ensures forall n :: n in Owners(db, path) <==> (n, path) in db.files
  {
  }

  lemma StrangerIsUnowned(c: Context, path: string, content: Entry)
    ensures UnownedDiffers(c, path, content) <==> Stranger(c, path, content)
  {
    OwnersAre(c.db, path);
    assert Owners(c.db, path) == {} <==> forall n :: n !in Owners(c.db, path);
  }

  lemma OutsidersAre(c: Context, plan: seq<PkgOp>, path: string)
    ensures OutsiderLists(c, plan, path) <==> exists n :: n in Owners(c.db, path) && n !in PlanNames(plan)
  {
    OwnersAre(c.db, path);
    if n :| (n, path) in c.db.files && forall q | q in plan :: q.name != n {
      assert n in Owners(c.db, path) && n !in PlanNames(plan);
    }
    if n :| n in Owners(c.db, path) && n !in PlanNames(plan) {
      assert forall q | q in plan :: q.name in PlanNames(plan);
    }
  }

  lemma EntryFitsExactly(c: Context, plan: seq<PkgOp>, q: PkgOp, e: PayloadEntry)
    requires q in plan
    ensures EntryRefused(c, plan, q, e) <==> !EntryFits(c, plan, e)
  {
    hide Obstructed, CutOff, UnownedDiffers, Stranger, OutsiderLists;
    CutOffIsObstructed(c, e.path);
    OutsidersAre(c, plan, e.path);
    assert q.name in PlanNames(plan);
    if !e.kind.DirRow? {
      StrangerIsUnowned(c, e.path, EntryOf(e.kind));
      OwnersAre(c.db, e.path);
      assert Untouched(c, q, e) ==> !Stranger(c, e.path, EntryOf(e.kind)) by { NoStranger(c, q, e); }
    }
  }

  lemma NoStranger(c: Context, q: PkgOp, e: PayloadEntry)
    requires !e.kind.DirRow?
    ensures Untouched(c, q, e) ==> !Stranger(c, e.path, EntryOf(e.kind))
  {
  }

  lemma LinkFitsExactly(c: Context, plan: seq<PkgOp>, l: Link)
    ensures LinkRefused(c, PostOwned(c.db, plan), l) <==> !LinkFits(c, plan, l)
  {
    hide Obstructed, CutOff, UnownedDiffers, Stranger, OutsiderLists, LinkEntry;
    CutOffIsObstructed(c, l.path);
    OutsidersAre(c, plan, l.path);
    OwnersAre(c.db, l.path);
    StrangerIsUnowned(c, l.path, LinkEntry(l));
    PostOwnedIs(c, plan, l.path);
  }

  lemma PostOwnedIs(c: Context, plan: seq<PkgOp>, path: string)
    ensures path in PostOwned(c.db, plan) <==>
            || (exists n :: n in Owners(c.db, path) && n !in PlanNames(plan))
            || exists q, e :: q in plan && q.kind != OpRemove && e in q.payload && e.path == path
  {
    OwnersAre(c.db, path);
    if path in PostOwned(c.db, plan) {
      if k :| k in c.db.files && k.0 !in PlanNames(plan) && k.1 == path {
        assert (k.0, path) in c.db.files;
      }
    }
    if n :| n in Owners(c.db, path) && n !in PlanNames(plan) { assert (n, path) in c.db.files; }
  }

  lemma GivesUpIsDropped(c: Context, q: PkgOp)
    ensures forall p :: p in Dropped(c, q) <==> GivesUp(c, q, p)
  {
    forall p
      ensures p in Dropped(c, q) <==> GivesUp(c, q, p)
    {
      OwnersAre(c.db, p);
      assert p in PayloadPaths(q.payload) <==> exists e :: e in q.payload && e.path == p;
      if (q.name, p) in c.db.files {
        assert q.name in Owners(c.db, p);
        assert Owners(c.db, p) == {q.name} <==> forall n | n in Owners(c.db, p) :: n == q.name;
      }
    }
  }

  lemma PackageFits(c: Context, plan: seq<PkgOp>, q: PkgOp)
    requires q in plan
    ensures !PackageRefused(c, plan, q) <==>
            && (q.kind != OpRemove ==> forall e | e in q.payload :: EntryFits(c, plan, e))
            && forall p | GivesUp(c, q, p) :: !CutOff(c, p)
  {
    hide EntryRefused, EntryFits, Obstructed, CutOff, Dropped, GivesUp;
    GivesUpIsDropped(c, q);
    forall e | e in q.payload
      ensures EntryRefused(c, plan, q, e) <==> !EntryFits(c, plan, e)
    {
      EntryFitsExactly(c, plan, q, e);
    }
    forall p
      ensures Obstructed(c.tree, p) <==> CutOff(c, p)
    {
      CutOffIsObstructed(c, p);
    }
  }

  lemma ClaimsFit(c: Context, plan: seq<PkgOp>, desired: seq<Link>)
    ensures !ClaimsRefused(c, PostOwned(c.db, plan), desired) <==>
            && (forall l | l in desired :: LinkFits(c, plan, l))
            && forall p | p in c.db.links && (forall l | l in desired :: l.path != p) :: !CutOff(c, p)
  {
    hide LinkRefused, LinkFits, Obstructed, CutOff, PostOwned;
    forall l | l in desired
      ensures LinkRefused(c, PostOwned(c.db, plan), l) <==> !LinkFits(c, plan, l)
    {
      LinkFitsExactly(c, plan, l);
    }
    forall p
      ensures Obstructed(c.tree, p) <==> CutOff(c, p)
      ensures p in PathSet(desired) <==> exists l :: l in desired && l.path == p
    {
      CutOffIsObstructed(c, p);
    }
  }

  // A plan is accepted exactly when every entry fits, nothing given up or withdrawn is
  // cut off, and every wanted link fits.
  lemma AcceptedExactly(c: Context, plan: seq<PkgOp>, desired: seq<Link>)
    ensures Accepted(c, plan, desired) <==> Acceptable(c, plan, desired)
  {
    hide PackageRefused, EntryFits, CutOff, GivesUp, LinkFits, ClaimsRefused, PostOwned;
    ClaimsFit(c, plan, desired);
    forall q | q in plan
      ensures !PackageRefused(c, plan, q) <==>
              && (q.kind != OpRemove ==> forall e | e in q.payload :: EntryFits(c, plan, e))
              && forall p | GivesUp(c, q, p) :: !CutOff(c, p)
    {
      PackageFits(c, plan, q);
    }
  }

  /** What is planned. */

  // The same file in the old version and the new one, and something there.
  ghost predicate Kept(c: Context, q: PkgOp, e: PayloadEntry)
  {
    && q.kind in {OpUpgrade, OpDowngrade, OpRemove} && e.kind.FileRow? && e.kind.digest != ""
    && e.path !in q.restamped
    && (q.name, e.path) in c.db.files && c.db.files[(q.name, e.path)] == e.kind
    && (e.path in c.tree || e.path + "/" in c.dirs)
  }

  // The operation on an empty path, and on one that is not.
  predicate Installs(c: Context, op: FileOp, path: string, over: Action)
  {
    && op.finalPath == path && op.pinned && op.stagedPath == TempPath(path, ".peipkg-staged-", c.id)
    && if path in c.tree || path + "/" in c.dirs
       then op.action == over && op.backupPath == TempPath(path, ".peipkg-backup-", c.id)
       else op.action == Create
  }

  // An entry gets no operation exactly when it is a directory or kept; any other gets
  // its content, made or put in the place of what is there.
  lemma EntryPlanned(c: Context, q: PkgOp, e: PayloadEntry)
    ensures EntryChange(c, q, e) == None <==> e.kind.DirRow? || Kept(c, q, e)
    ensures EntryChange(c, q, e).Some? ==>
              var x := EntryChange(c, q, e).value;
              && Installs(c, x.op, e.path, Replace)
              && x.content == (match e.kind case FileRow(d) => File(d) case SymlinkRow(t) => Symlink(t))
  {
    hide TempPath, UnownedDiffers;
  }

  // A wanted link gets none exactly when it is recorded as it is, or nobody recorded
  // or listed the path and the very link is there; any other is made or swapped in.
  lemma LinkPlanned(c: Context, l: Link)
    ensures ClaimChange(c, l) == None <==>
            || (l.path in c.db.links && c.db.links[l.path] == l)
            || (l.path !in c.db.links && (forall n :: (n, l.path) !in c.db.files)
                && l.path in c.tree && c.tree[l.path] == LinkEntry(l))
    ensures ClaimChange(c, l).Some? ==>
              Installs(c, ClaimChange(c, l).value.op, l.path, Swap) && ClaimChange(c, l).value.content == LinkEntry(l)
  {
    hide TempPath, UnownedDiffers, LinkEntry;
    OwnersAre(c.db, l.path);
    assert Owners(c.db, l.path) == {} <==> forall n :: n !in Owners(c.db, l.path);
  }

  /** Directories are shared. */

  // Packages that list only directories are always accepted, whoever lists the same
  // ones, where no link is recorded or wanted.
  lemma DirectoriesAreShared(c: Context, plan: seq<PkgOp>)
    requires c.db.links == map[]
    requires forall q | q in plan :: q.kind == OpInstall && forall e | e in q.payload :: e.kind.DirRow?
    ensures Accepted(c, plan, [])
  {
    hide CutOff, Stranger, OutsiderLists;
    AcceptedExactly(c, plan, []);
  }

  const USR := PayloadEntry("/usr", DirRow)

  // Package b comes to a directory that package a lists already.
  lemma SharedDirectory(a: Pkg, b: Pkg)
    ensures var db := Db(map["a" := a], map[("a", "/usr") := DirRow], map[], map[]);
      Accepted(Context(map[], {"/", "/usr/"}, db, 1, false), [PkgOp(OpInstall, "b", b, [USR], {})], [])
  {
    hide Accepted;
    var db := Db(map["a" := a], map[("a", "/usr") := DirRow], map[], map[]);
    DirectoriesAreShared(Context(map[], {"/", "/usr/"}, db, 1, false), [PkgOp(OpInstall, "b", b, [USR], {})]);
  }
}
