/** From a resolved plan to file operations, database rows and claim work
    (internal/install/stage.go, claims.go, execute.go). Paths are logical; the
    installation root is the root of the tree. */
module Planning {
  import opened Wrappers
  import opened Sorting
  import opened TempNames
  import opened FileOps
  import opened Lookups
  import opened Claims
  import opened Tables
  import opened Metadata
  import RelativeLinks

  // A payload entry: what it installs where.
  datatype PayloadEntry = PayloadEntry(path: string, kind: Kind)

  // `restamped` are the paths carrying a signature or a descriptor override, which
  // are never left untouched.
  datatype PkgOp = PkgOp(kind: OpKind, name: string, pkg: Pkg, payload: seq<PayloadEntry>, restamped: set<string>)

  // What planning reads: the disk, the database, the new transaction's id.
  datatype Context = Context(tree: Tree, dirs: set<string>, db: Db, id: TxnId, overwrite: bool)

  // A file operation and the content it will stage.
  datatype Change = Change(op: FileOp, content: Entry)

  function EntryOf(k: Kind): Entry
    requires !k.DirRow?
  {
    match k
    case FileRow(digest) => File(digest)
    case SymlinkRow(target) => Symlink(target)
  }

  function LinkEntry(l: Link): Entry { Symlink(RelativeLinks.Body(l.path, l.target)) }

  function Owners(db: Db, path: string): set<string> { set k | k in db.files && k.1 == path :: k.0 }

  function PlanNames(plan: seq<PkgOp>): set<string> { set q | q in plan :: q.name }

  // The directories payloads list. Staging makes them; they are no file operation.
  function DirEntries(plan: seq<PkgOp>): set<string>
  {
    set q, e | q in plan && q.kind != OpRemove && e in q.payload && e.kind.DirRow? :: e.path
  }

  function PayloadPaths(payload: seq<PayloadEntry>): set<string> { set e | e in payload :: e.path }

  // Something is there: a file, a symlink or a directory.
  predicate Occupied(c: Context, path: string) { path in c.tree || path + "/" in c.dirs }

  /** One payload entry. */

  // Same content in both versions, and present: no operation.
  predicate Untouched(c: Context, q: PkgOp, e: PayloadEntry)
  {
    && q.kind != OpInstall
    && e.kind.FileRow? && e.kind.digest != "" && e.path !in q.restamped
    && (q.name, e.path) in c.db.files && c.db.files[(q.name, e.path)] == e.kind
    && Occupied(c, e.path)
  }

  // Something nobody owns is in the way and is not already what would be installed.
  predicate UnownedDiffers(c: Context, path: string, content: Entry)
  {
    Occupied(c, path) && Owners(c.db, path) == {} && !(path in c.tree && c.tree[path] == content)
  }

  function PlannedOp(c: Context, path: string, keep: bool): FileOp
  {
    var staged := TempPath(path, STAGED_MARKER, c.id);
    if Occupied(c, path) then FileOp(path, Replace, staged, TempPath(path, BACKUP_MARKER, c.id), keep, true)
    else FileOp(path, Create, staged, "", keep, true)
  }

  function EntryChange(c: Context, q: PkgOp, e: PayloadEntry): Option<Change>
  {
    if e.kind.DirRow? || Untouched(c, q, e) then None
    else Some(Change(PlannedOp(c, e.path, UnownedDiffers(c, e.path, EntryOf(e.kind))), EntryOf(e.kind)))
  }

  // The checks that refuse an entry: another package owns the path, a claim link
  // lives there, its directory cannot be reached, or something unowned would be
  // lost without authorisation.
  predicate EntryRefused(c: Context, plan: seq<PkgOp>, q: PkgOp, e: PayloadEntry)
  {
    || (!e.kind.DirRow? && exists n | n in Owners(c.db, e.path) :: n != q.name && n !in PlanNames(plan))
    || e.path in c.db.links
    || (!e.kind.DirRow? && Obstructed(c.tree, e.path))
    || (!e.kind.DirRow? && !Untouched(c, q, e) && UnownedDiffers(c, e.path, EntryOf(e.kind)) && !c.overwrite)
  }

  /** Files the new payload does not carry. */

  // A removal leaves what another package lists too.
  function Dropped(c: Context, q: PkgOp): set<string>
  {
    if q.kind == OpInstall then {}
    else set k | k in c.db.files && k.0 == q.name && !c.db.files[k].DirRow?
              && (if q.kind == OpRemove then Owners(c.db, k.1) == {q.name} else k.1 !in PayloadPaths(q.payload)) :: k.1
  }

  function Removal(c: Context, path: string): Change
  {
    Change(FileOp(path, Remove, "", TempPath(path, BACKUP_MARKER, c.id), false, Dir(path) in c.dirs), Symlink(""))
  }

  /** Claim links. */

  // The change one desired link needs: nothing when it is recorded as it is or
  // can be adopted as it stands; a swap when something is displaced.
  function ClaimChange(c: Context, l: Link): Option<Change>
  {
    if l.path in c.db.links && c.db.links[l.path] == l then None
    else if l.path !in c.db.links && l.path in c.tree && Owners(c.db, l.path) == {} && c.tree[l.path] == LinkEntry(l)
    then None
    else
      var keep := l.path !in c.db.links && UnownedDiffers(c, l.path, LinkEntry(l));
      var op := PlannedOp(c, l.path, keep);
      Some(Change(if op.action == Replace then op.(action := Swap) else op, LinkEntry(l)))
  }

  predicate LinkRefused(c: Context, owned: set<string>, l: Link)
  {
    || l.path in owned
    || (!(l.path in c.db.links && c.db.links[l.path] == l) && Obstructed(c.tree, l.path))
    || (l.path !in c.db.links && UnownedDiffers(c, l.path, LinkEntry(l)) && !c.overwrite)
  }

  // The paths packages will own once the transaction is committed.
  function PostOwned(db: Db, plan: seq<PkgOp>): set<string>
  {
    (set k | k in db.files && k.0 !in PlanNames(plan) :: k.1)
    + (set q, e | q in plan && q.kind != OpRemove && e in q.payload :: e.path)
  }

  /** The specification of the planned changes. */

  ghost predicate FromPackage(c: Context, q: PkgOp, x: Change)
  {
    || (q.kind != OpRemove && exists e | e in q.payload :: EntryChange(c, q, e) == Some(x))
    || exists p | p in Dropped(c, q) :: x == Removal(c, p)
  }

  ghost predicate FromClaims(c: Context, desired: seq<Link>, x: Change)
  {
    || (exists l | l in desired :: ClaimChange(c, l) == Some(x))
    || exists p | p in c.db.links && p !in PathSet(desired) :: x == Removal(c, p)
  }

  // A removal gives way when a claim operation takes over its path.
  ghost predicate IsChange(c: Context, plan: seq<PkgOp>, desired: seq<Link>, x: Change)
  {
    || FromClaims(c, desired, x)
    || ((exists q | q in plan :: FromPackage(c, q, x))
        && !(x.op.action == Remove && exists y :: FromClaims(c, desired, y) && y.op.finalPath == x.op.finalPath))
  }

  predicate Accepted(c: Context, plan: seq<PkgOp>, desired: seq<Link>)
  {
    && (forall q | q in plan :: !PackageRefused(c, plan, q))
    && !ClaimsRefused(c, PostOwned(c.db, plan), desired)
  }

  // An entry is refused, or the directory of a dropped file cannot be reached.
  predicate PackageRefused(c: Context, plan: seq<PkgOp>, q: PkgOp)
  {
    || (q.kind != OpRemove && exists e | e in q.payload :: EntryRefused(c, plan, q, e))
    || exists p | p in Dropped(c, q) :: Obstructed(c.tree, p)
  }

  predicate ClaimsRefused(c: Context, owned: set<string>, desired: seq<Link>)
  {
    || (exists l | l in desired :: LinkRefused(c, owned, l))
    || exists p | p in c.db.links && p !in PathSet(desired) :: Obstructed(c.tree, p)
  }

  function RowsOf(q: PkgOp): seq<PackageFile>
  {
    seq(|q.payload|, i requires 0 <= i < |q.payload| => PackageFile(q.name, q.payload[i].path, q.payload[i].kind))
  }

  function StagedRows(plan: seq<PkgOp>): seq<StagedOp>
  {
    seq(|plan|, i requires 0 <= i < |plan| => StagedOp(plan[i].kind, plan[i].name, plan[i].pkg, RowsOf(plan[i])))
  }

  /** The loops. */

  method PreparePackage(c: Context, plan: seq<PkgOp>, q: PkgOp) returns (r: Option<seq<Change>>)
    ensures r.None? <==> PackageRefused(c, plan, q)
    ensures r.Some? ==> forall x :: x in r.value <==> FromPackage(c, q, x)
  {
    var changes: seq<Change> := [];
    if q.kind != OpRemove {
      for i := 0 to |q.payload|
        invariant forall e | e in q.payload[..i] :: !EntryRefused(c, plan, q, e)
        invariant forall x :: x in changes <==> exists e | e in q.payload[..i] :: EntryChange(c, q, e) == Some(x)
      {
        var e := q.payload[i];
        assert q.payload[..i + 1] == q.payload[..i] + [e];
        if EntryRefused(c, plan, q, e) {
          return None;
        }
        var change := EntryChange(c, q, e);
        if change.Some? { changes := changes + [change.value]; }
      }
      assert q.payload[..|q.payload|] == q.payload;
    }
    var dropped := SortedKeys(Dropped(c, q));
    assert forall p :: p in dropped <==> p in Elements(dropped);
    var removals := Removals(c, dropped);
    if removals.None? { return None; }
    return Some(changes + removals.value);
  }

  method Removals(c: Context, paths: seq<string>) returns (r: Option<seq<Change>>)
    ensures r.None? <==> exists p | p in paths :: Obstructed(c.tree, p)
    ensures r.Some? ==> forall x :: x in r.value <==> exists p | p in paths :: x == Removal(c, p)
  {
    hide Obstructed;
    var changes: seq<Change> := [];
    for i := 0 to |paths|
      invariant forall p | p in paths[..i] :: !Obstructed(c.tree, p)
      invariant forall x :: x in changes <==> exists p | p in paths[..i] :: x == Removal(c, p)
    {
      assert paths[..i + 1] == paths[..i] + [paths[i]];
      if Obstructed(c.tree, paths[i]) { return None; }
      changes := changes + [Removal(c, paths[i])];
    }
    assert paths[..|paths|] == paths;
    return Some(changes);
  }

  method PlanClaims(c: Context, owned: set<string>, desired: seq<Link>) returns (r: Option<seq<Change>>)
    ensures r.None? <==> ClaimsRefused(c, owned, desired)
    ensures r.Some? ==> forall x :: x in r.value <==> FromClaims(c, desired, x)
  {
    var changes: seq<Change> := [];
    for i := 0 to |desired|
      invariant forall l | l in desired[..i] :: !LinkRefused(c, owned, l)
      invariant forall x :: x in changes <==> exists l | l in desired[..i] :: ClaimChange(c, l) == Some(x)
    {
      var l := desired[i];
      assert desired[..i + 1] == desired[..i] + [l];
      if LinkRefused(c, owned, l) {
        return None;
      }
      var change := ClaimChange(c, l);
      if change.Some? { changes := changes + [change.value]; }
    }
    assert desired[..|desired|] == desired;
    var gone := SortedKeys(c.db.links.Keys - PathSet(desired));
    assert forall p :: p in gone <==> p in Elements(gone);
    var removals := Removals(c, gone);
    if removals.None? { return None; }
    return Some(changes + removals.value);
  }

  // resolveClaimOverRemoval
  method ResolveClaimOverRemoval(changes: seq<Change>, claimed: seq<Change>) returns (kept: seq<Change>)
    ensures forall x :: x in kept <==>
              (x in changes && !(x.op.action == Remove && exists y :: y in claimed && y.op.finalPath == x.op.finalPath))
  {
    var paths := set y | y in claimed :: y.op.finalPath;
    kept := [];
    for i := 0 to |changes|
      invariant forall x :: x in kept <==> x in changes[..i] && !(x.op.action == Remove && x.op.finalPath in paths)
    {
      assert changes[..i + 1] == changes[..i] + [changes[i]];
      if !(changes[i].op.action == Remove && changes[i].op.finalPath in paths) {
        kept := kept + [changes[i]];
      }
    }
    assert changes[..|changes|] == changes;
  }

  method PlanTransaction(c: Context, plan: seq<PkgOp>, desired: seq<Link>) returns (r: Option<seq<Change>>)
    ensures r.Some? <==> Accepted(c, plan, desired)
    ensures r.Some? ==> forall x :: x in r.value <==> IsChange(c, plan, desired, x)
  {
    var changes: seq<Change> := [];
    for i := 0 to |plan|
      invariant forall q | q in plan[..i] :: !PackageRefused(c, plan, q)
      invariant forall x :: x in changes <==> exists q | q in plan[..i] :: FromPackage(c, q, x)
    {
      assert plan[..i + 1] == plan[..i] + [plan[i]];
      var one := PreparePackage(c, plan, plan[i]);
      if one.None? {
        assert plan[i] in plan;
        return None;
      }
      changes := changes + one.value;
    }
    assert plan[..|plan|] == plan;
    var claims := PlanClaims(c, PostOwned(c.db, plan), desired);
    if claims.None? {
      return None;
    }
    var kept := ResolveClaimOverRemoval(changes, claims.value);
    return Some(kept + claims.value);
  }
}
