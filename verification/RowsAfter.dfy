/** Which package and file rows a transaction leaves. */
module RowsAfter {
  import opened Wrappers
  import opened Tables
  import opened Metadata
  import opened ClaimTables

  function StagedNames(staged: seq<StagedOp>): set<string> { set s | s in staged :: s.name }

  // Rows carry the name of their operation; one operation per package.
  ghost predicate WellNamed(staged: seq<StagedOp>)
  {
    && (forall s | s in staged :: s.pkg.name == s.name && forall f | f in s.files :: f.owner == s.name)
    && (forall i, j | 0 <= i < j < |staged| :: staged[i].name != staged[j].name)
  }

  ghost predicate Brings(staged: seq<StagedOp>, k: (string, string), kind: Kind)
  {
    exists s | s in staged && s.kind != OpRemove :: PackageFile(k.0, k.1, kind) in s.files
  }

  // Rows of other packages stay as they are; a package of the plan is left with
  // exactly the rows its operation brings.
  ghost predicate RowsAre(db: Db, staged: seq<StagedOp>, d: Db)
  {
    && (forall k | k in d.files :: if k.0 in StagedNames(staged) then Brings(staged, k, d.files[k])
                                   else k in db.files && db.files[k] == d.files[k])
    && (forall k | k in db.files && k.0 !in StagedNames(staged) :: k in d.files)
    && (forall s, f | s in staged && s.kind != OpRemove && f in s.files ::
          (f.owner, f.path) in d.files && d.files[(f.owner, f.path)] == f.kind)
    && (forall n :: n in d.packages <==>
          || (n in db.packages && n !in StagedNames(staged))
          || exists s | s in staged && s.kind != OpRemove :: s.name == n)
  }

  // Each package row is the operation's, or as it was.
  ghost predicate PackagesAre(db: Db, staged: seq<StagedOp>, d: Db)
  {
    forall n | n in d.packages ::
      if n in StagedNames(staged)
      then exists s | s in staged && s.kind != OpRemove :: s.name == n && s.pkg == d.packages[n]
      else n in db.packages && d.packages[n] == db.packages[n]
  }

  lemma OneOpPackages(d: Db, s: StagedOp)
    requires s.pkg.name == s.name && ApplyOp(d, s).Some?
    ensures ApplyOp(d, s).value.packages ==
            if s.kind == OpRemove then d.packages - {s.name} else d.packages[s.name := s.pkg]
  {
    if s.kind != OpRemove {
      var base := if s.kind == OpInstall then d else DeletePackage(d, s.name);
      InsertFilesKeepsClaims(InsertPackage(base, s.pkg).value, s.files);
    }
  }

  lemma {:induction false} PackagesAfterMetadata(db: Db, staged: seq<StagedOp>)
    requires WellNamed(staged) && ApplyMetadata(db, staged).Some?
    ensures PackagesAre(db, staged, ApplyMetadata(db, staged).value)
  {
    hide ApplyOp, PackagesAre, StagedNames;
    if staged == [] {
      NoPackages(db);
    } else {
      var n := |staged| - 1;
      var rest, s := staged[..n], staged[n];
      assert staged == rest + [s] && s in staged && forall t | t in rest :: t in staged;
      PackagesAfterMetadata(db, rest);
      var d := ApplyMetadata(db, rest).value;
      OneOpPackages(d, s);
      NameIsNew(rest, s);
      ExtendPackages(db, rest, s, d, ApplyOp(d, s).value);
    }
  }

  lemma NoPackages(db: Db)
    ensures PackagesAre(db, [], db)
  {
  }

  lemma NameIsNew(rest: seq<StagedOp>, s: StagedOp)
    requires forall i, j | 0 <= i < j < |rest + [s]| :: (rest + [s])[i].name != (rest + [s])[j].name
    ensures s.name !in StagedNames(rest)
  {
    forall t | t in rest
      ensures t.name != s.name
    {
      var i :| 0 <= i < |rest| && rest[i] == t;
      assert (rest + [s])[i] == t && (rest + [s])[|rest|] == s;
    }
  }

  lemma ExtendPackages(db: Db, rest: seq<StagedOp>, s: StagedOp, d: Db, a: Db)
    requires PackagesAre(db, rest, d) && s.name !in StagedNames(rest)
    requires a.packages == if s.kind == OpRemove then d.packages - {s.name} else d.packages[s.name := s.pkg]
    ensures PackagesAre(db, rest + [s], a)
  {
    var staged := rest + [s];
    assert StagedNames(staged) == StagedNames(rest) + {s.name};
    assert s in staged && forall t | t in rest :: t in staged;
  }

  lemma OneOpRows(d: Db, s: StagedOp)
    requires ValidDb(d) && s.pkg.name == s.name && forall f | f in s.files :: f.owner == s.name
    requires ApplyOp(d, s).Some?
    ensures ValidDb(ApplyOp(d, s).value)
    ensures var a := ApplyOp(d, s).value;
      && (forall k: (string, string) | k.0 != s.name :: k in a.files <==> k in d.files)
      && (forall k | k in a.files && k.0 != s.name :: a.files[k] == d.files[k])
      && (forall k | k in a.files && k.0 == s.name ::
         s.kind != OpRemove && PackageFile(k.0, k.1, a.files[k]) in s.files)
      && (s.kind != OpRemove ==> forall f | f in s.files ::
         (f.owner, f.path) in a.files && a.files[(f.owner, f.path)] == f.kind)
      && (forall n :: n in a.packages <==> if n == s.name then s.kind != OpRemove else n in d.packages)
  {
    DeletePackageValid(d, s.name);
    if s.kind != OpRemove {
      var base := if s.kind == OpInstall then d else DeletePackage(d, s.name);
      var more := InsertPackage(base, s.pkg).value;
      assert ValidDb(more);
      assert forall k | k in base.files :: k.0 != s.name;
      InsertPackageFilesValid(more, s.files);
      var a := InsertPackageFiles(more, s.files).value;
      InsertFilesKeepsClaims(more, s.files);
      forall k | k in a.files && k.0 == s.name
        ensures PackageFile(k.0, k.1, a.files[k]) in s.files
      {
        var f :| f in s.files && k == (f.owner, f.path);
        assert a.files[(f.owner, f.path)] == f.kind;
      }
    }
  }

  lemma {:induction false} RowsAfterMetadata(db: Db, staged: seq<StagedOp>)
    requires ValidDb(db) && WellNamed(staged) && ApplyMetadata(db, staged).Some?
    ensures RowsAre(db, staged, ApplyMetadata(db, staged).value)
  {
    if staged == [] {
    } else {
      var n := |staged| - 1;
      var rest, s := staged[..n], staged[n];
      assert staged == rest + [s];
      RowsAfterMetadata(db, rest);
      MetadataValid(db, rest);
      var d := ApplyMetadata(db, rest).value;
      assert s.name !in StagedNames(rest);
      OneOpRows(d, s);
      ExtendRows(db, rest, s, d, ApplyOp(d, s).value);
    }
  }

  lemma ExtendRows(db: Db, rest: seq<StagedOp>, s: StagedOp, d: Db, a: Db)
    requires RowsAre(db, rest, d) && s.name !in StagedNames(rest)
    requires forall t | t in rest :: forall f | f in t.files :: f.owner == t.name
    requires forall f | f in s.files :: f.owner == s.name
    requires forall k: (string, string) | k.0 != s.name :: k in a.files <==> k in d.files
    requires forall k | k in a.files && k.0 != s.name :: a.files[k] == d.files[k]
    requires forall k | k in a.files && k.0 == s.name ::
             s.kind != OpRemove && PackageFile(k.0, k.1, a.files[k]) in s.files
    requires s.kind != OpRemove ==> forall f | f in s.files ::
             (f.owner, f.path) in a.files && a.files[(f.owner, f.path)] == f.kind
    requires forall n :: n in a.packages <==> if n == s.name then s.kind != OpRemove else n in d.packages
    ensures RowsAre(db, rest + [s], a)
  {
    var staged := rest + [s];
    assert StagedNames(staged) == StagedNames(rest) + {s.name};
    forall k | k in a.files
      ensures if k.0 in StagedNames(staged) then Brings(staged, k, a.files[k])
              else k in db.files && db.files[k] == a.files[k]
    {
      if k.0 == s.name {
        assert s in staged;
      } else if k.0 in StagedNames(rest) {
        var t :| t in rest && t.kind != OpRemove && PackageFile(k.0, k.1, d.files[k]) in t.files;
        assert t in staged;
      }
    }
    forall t, f | t in staged && t.kind != OpRemove && f in t.files
      ensures (f.owner, f.path) in a.files && a.files[(f.owner, f.path)] == f.kind
    {
      if t in rest {
        assert f.owner != s.name;
      }
    }
    forall n
      ensures n in a.packages <==>
          (n in db.packages && n !in StagedNames(staged)) || exists t | t in staged && t.kind != OpRemove :: t.name == n
    {
      if n == s.name { assert s in staged; }
    }
  }
}
