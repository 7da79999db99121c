/** The claim tables after a commit are exactly what was planned, whatever the
    cascades of the package rows took away on the way. */
module ClaimTables {
  import opened Wrappers
  import opened Sorting
  import opened Claims
  import opened Tables
  import opened Metadata

  // The row changes reconcileClaims derives from the recorded state `db`.
  ghost predicate WorkFor(db: Db, w: ClaimWork, post: map<string, string>, desired: seq<Link>)
  {
    && w.setHolders == post
    && Elements(w.delHolders) == db.holders.Keys - post.Keys
    && Elements(w.delLinks) == db.links.Keys
    && w.insLinks == desired
  }

  ghost predicate RecordsExactly(links: map<string, Link>, desired: seq<Link>)
  {
    && links.Keys == PathSet(desired)
    && forall l | l in desired :: links[l.path] == l
  }

  ghost predicate SubMap<K, V>(a: map<K, V>, b: map<K, V>)
  {
    forall k | k in a :: k in b && a[k] == b[k]
  }

  // Package rows only ever take claim rows away.
  lemma {:induction false} MetadataShrinksClaims(db: Db, staged: seq<StagedOp>)
    requires ApplyMetadata(db, staged).Some?
    ensures SubMap(ApplyMetadata(db, staged).value.holders, db.holders)
    ensures SubMap(ApplyMetadata(db, staged).value.links, db.links)
  {
    if staged != [] {
      var n := |staged| - 1;
      MetadataShrinksClaims(db, staged[..n]);
      var d := ApplyMetadata(db, staged[..n]).value;
      var s := staged[n];
      if s.kind != OpRemove {
        var base := if s.kind == OpInstall then d else DeletePackage(d, s.name);
        InsertFilesKeepsClaims(InsertPackage(base, s.pkg).value, s.files);
      }
    }
  }

  lemma {:induction false} InsertFilesKeepsClaims(db: Db, files: seq<PackageFile>)
    requires InsertPackageFiles(db, files).Some?
    ensures InsertPackageFiles(db, files).value.holders == db.holders
    ensures InsertPackageFiles(db, files).value.links == db.links
    ensures InsertPackageFiles(db, files).value.packages == db.packages
    decreases |files|
  {
    if files != [] {
      InsertFilesKeepsClaims(db.(files := db.files[(files[0].owner, files[0].path) := files[0].kind]), files[1..]);
    }
  }

  lemma {:induction false} MetadataValid(db: Db, staged: seq<StagedOp>)
    requires ValidDb(db) && ApplyMetadata(db, staged).Some?
    ensures ValidDb(ApplyMetadata(db, staged).value)
  {
    if staged != [] {
      var n := |staged| - 1;
      MetadataValid(db, staged[..n]);
      var d := ApplyMetadata(db, staged[..n]).value;
      var s := staged[n];
      DeletePackageValid(d, s.name);
      if s.kind != OpRemove {
        var base := if s.kind == OpInstall then d else DeletePackage(d, s.name);
        var more := InsertPackage(base, s.pkg).value;
        assert ValidDb(more);
        InsertPackageFilesValid(more, s.files);
      }
    }
  }

  lemma {:induction false} DeleteHoldersClosed(db: Db, roles: seq<string>)
    ensures DeleteHolders(db, roles).packages == db.packages && DeleteHolders(db, roles).files == db.files
    ensures DeleteHolders(db, roles).holders == db.holders - Elements(roles)
    ensures SubMap(DeleteHolders(db, roles).links, db.links)
  {
    if roles != [] {
      DeleteHoldersClosed(db, roles[..|roles| - 1]);
      assert roles == roles[..|roles| - 1] + [roles[|roles| - 1]];
    }
  }

  lemma {:induction false} DeleteLinksClosed(db: Db, paths: seq<string>)
    ensures DeleteLinks(db, paths) == db.(links := db.links - Elements(paths))
  {
    if paths != [] {
      DeleteLinksClosed(db, paths[..|paths| - 1]);
      assert paths == paths[..|paths| - 1] + [paths[|paths| - 1]];
    } else {
      assert db.links - Elements(paths) == db.links;
    }
  }

  lemma {:induction false} InsertLinksClosed(db: Db, links: seq<Link>) returns (after: map<string, Link>)
    requires DistinctPaths(links)
    requires forall l | l in links :: l.path !in db.links && l.role in db.holders
    ensures InsertClaimLinks(db, links) == Some(db.(links := after))
    ensures forall p | p in db.links :: p in after && after[p] == db.links[p]
    ensures forall p :: p in after <==> p in db.links || p in PathSet(links)
    ensures forall l | l in links :: l.path in after && after[l.path] == l
    decreases |links|
  {
    after := db.links;
    if links != [] {
      var first, rest := links[0], links[1..];
      var next := db.(links := db.links[first.path := first]);
      assert links == [first] + rest;
      forall l | l in rest
        ensures l.path != first.path && l.path !in next.links && l.role in next.holders
      {
        var j :| 0 <= j < |rest| && rest[j] == l;
        assert links[j + 1] == l;
      }
      assert DistinctPaths(rest);
      after := InsertLinksClosed(next, rest);
      assert first.path in next.links && after[first.path] == first;
      assert PathSet(links) == {first.path} + PathSet(rest);
    }
  }

  // The main result: no foreign key is violated, and the tables end up exactly
  // as planned. `d` is the database after the package rows; its cascades may have
  // removed any holders and links.
  lemma ClaimTablesExact(db: Db, staged: seq<StagedOp>, w: ClaimWork, post: map<string, string>, desired: seq<Link>)
    requires ValidDb(db) && ApplyMetadata(db, staged).Some?
    requires WorkFor(db, w, post, desired) && DistinctPaths(desired)
    requires forall r | r in post :: post[r] in ApplyMetadata(db, staged).value.packages
    requires forall l | l in desired :: l.role in post
    ensures Commit(db, staged, w).Some?
    ensures var after := Commit(db, staged, w).value;
      && after.holders == post
      && RecordsExactly(after.links, desired)
      && after.packages == ApplyMetadata(db, staged).value.packages
      && after.files == ApplyMetadata(db, staged).value.files
      && ValidDb(after)
  {
    var d := ApplyMetadata(db, staged).value;
    MetadataShrinksClaims(db, staged);
    MetadataValid(db, staged);
    DeleteHoldersClosed(d, w.delHolders);
    var cleared := DeleteHolders(d, w.delHolders);
    assert cleared.holders + post == post;
    var held := SetHolders(cleared, post).value;
    DeleteLinksClosed(held, w.delLinks);
    var bare := DeleteLinks(held, w.delLinks);
    assert bare.links.Keys == {};
    var links := InsertLinksClosed(bare, desired);
    forall p | p in links
      ensures links[p].path == p && links[p].role in post
    {
      var l :| l in desired && l.path == p;
      assert links[l.path] == l;
    }
  }
}
