/** The package database (internal/db/package.go, claim.go and the schema): rows,
    foreign keys with their cascades, and the unique indexes. */
module Tables {
  import opened Wrappers
  import opened Claims

  datatype Kind = DirRow | FileRow(digest: string) | SymlinkRow(target: string)

  datatype Pkg = Pkg(name: string, version: string, manifest: Manifest)

  datatype PackageFile = PackageFile(owner: string, path: string, kind: Kind)

  // package, package_file (keyed by package and path), claim_holder, claim_link.
  datatype Db = Db(packages: map<string, Pkg>, files: map<(string, string), Kind>,
                   holders: map<string, string>, links: map<string, Link>)

  /** What the schema guarantees of a database. */

  ghost predicate ForeignKeys(db: Db)
  {
    && (forall k | k in db.files :: k.0 in db.packages)
    && (forall r | r in db.holders :: db.holders[r] in db.packages)
    && (forall p | p in db.links :: db.links[p].role in db.holders)
  }

  ghost predicate Unique(db: Db)
  {
    && (forall j, k | j in db.files && k in db.files && j.1 == k.1 && j != k ::
       db.files[j].DirRow? || db.files[k].DirRow?)
    && (forall p | p in db.links :: db.links[p].path == p)
    && (forall n | n in db.packages :: db.packages[n].name == n)
  }

  ghost predicate ValidDb(db: Db) { ForeignKeys(db) && Unique(db) }

  /** Statements. */

  // Deleting a package cascades to its files, to the roles it holds and to
  // those roles' links.
  function DeletePackage(db: Db, name: string): Db
  {
    var freed := set r | r in db.holders && db.holders[r] == name;
    Db(db.packages - {name},
       map k | k in db.files && k.0 != name :: db.files[k],
       db.holders - freed,
       map p | p in db.links && db.links[p].role !in freed :: db.links[p])
  }

  function InsertPackage(db: Db, pkg: Pkg): Option<Db>
  {
    if pkg.name in db.packages then None else Some(db.(packages := db.packages[pkg.name := pkg]))
  }

  // The row's package exists, its key is new, and no other package owns the path.
  predicate CanInsertFile(db: Db, f: PackageFile)
  {
    && f.owner in db.packages
    && (f.owner, f.path) !in db.files
    && (f.kind.DirRow? || forall k | k in db.files && k.1 == f.path :: db.files[k].DirRow?)
  }

  function InsertPackageFiles(db: Db, files: seq<PackageFile>): Option<Db>
    decreases |files|
  {
    if files == [] then Some(db)
    else
      var f := files[0];
      if CanInsertFile(db, f) then
        InsertPackageFiles(db.(files := db.files[(f.owner, f.path) := f.kind]), files[1..])
      else None
  }

  function DeleteClaimHolder(db: Db, role: string): Db
  {
    db.(holders := db.holders - {role},
        links := map p | p in db.links && db.links[p].role != role :: db.links[p])
  }

  // An upsert: replacing the holder keeps the role's row, so nothing cascades.
  function SetClaimHolder(db: Db, role: string, holder: string): Option<Db>
  {
    if holder in db.packages then Some(db.(holders := db.holders[role := holder])) else None
  }

  function DeleteClaimLink(db: Db, path: string): Db { db.(links := db.links - {path}) }

  function InsertClaimLinks(db: Db, links: seq<Link>): Option<Db>
    decreases |links|
  {
    if links == [] then Some(db)
    else
      var l := links[0];
      if l.path !in db.links && l.role in db.holders then
        InsertClaimLinks(db.(links := db.links[l.path := l]), links[1..])
      else None
  }

  /** The statements keep what the schema guarantees. */

  lemma DeletePackageValid(db: Db, name: string)
    requires ValidDb(db)
    ensures ValidDb(DeletePackage(db, name))
  {
    var after := DeletePackage(db, name);
    forall p | p in after.links
      ensures after.links[p].role in after.holders
    {
      assert db.links[p].role in db.holders;
    }
  }

  lemma {:induction false} InsertPackageFilesValid(db: Db, files: seq<PackageFile>)
    requires ValidDb(db) && InsertPackageFiles(db, files).Some?
    ensures ValidDb(InsertPackageFiles(db, files).value)
    ensures InsertPackageFiles(db, files).value == db.(files := InsertPackageFiles(db, files).value.files)
    ensures forall k :: k in InsertPackageFiles(db, files).value.files <==>
              k in db.files || exists f | f in files :: k == (f.owner, f.path)
    ensures forall k | k in db.files :: InsertPackageFiles(db, files).value.files[k] == db.files[k]
    ensures forall f | f in files :: InsertPackageFiles(db, files).value.files[(f.owner, f.path)] == f.kind
    decreases |files|
  {
    if files != [] {
      var f := files[0];
      var next := db.(files := db.files[(f.owner, f.path) := f.kind]);
      assert ValidDb(next);
      InsertPackageFilesValid(next, files[1..]);
      assert files == [f] + files[1..];
      assert (f.owner, f.path) in next.files;
    }
  }

  lemma DeleteClaimHolderValid(db: Db, role: string)
    requires ValidDb(db)
    ensures ValidDb(DeleteClaimHolder(db, role))
  {
  }
}
