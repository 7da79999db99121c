/** One transaction as a whole: plan, holders, desired links, rows, operations. */
module Transactions {
  import opened Wrappers
  import opened Sorting
  import opened TempNames
  import opened FileOps
  import opened Lookups
  import opened CreatedDirs
  import opened Undo
  import opened Claims
  import opened Tables
  import opened Metadata
  import opened ClaimTables
  import opened RowsAfter
  import opened Planning
  import opened Patch
  import opened Upgrade
  import RelativeLinks
  import opened Committable
  import opened Holders

  // What a transaction in memory carries to its commit. Whether the database will
  // take it is not known before.
  datatype Txn = Txn(changes: seq<Change>, staged: seq<StagedOp>, work: ClaimWork)

  // The directories its payloads list, read off the rows.
  function DirRows(staged: seq<StagedOp>): set<string>
  {
    set s, f | s in staged && s.kind != OpRemove && f in s.files && f.kind.DirRow? :: f.path
  }

  // None of them is a file or symlink, or lies beneath one.
  predicate DirsClear(t: Tree, txn: Txn) { forall d | d in DirRows(txn.staged) :: !Blocked(t, d) }

  lemma DirRowsAre(plan: seq<PkgOp>)
    ensures DirRows(StagedRows(plan)) == DirEntries(plan)
  {
    forall d | d in DirRows(StagedRows(plan))
      ensures d in DirEntries(plan)
    {
      var s, f :| s in StagedRows(plan) && s.kind != OpRemove && f in s.files && f.kind.DirRow? && f.path == d;
      var i :| 0 <= i < |plan| && StagedRows(plan)[i] == s;
      var j :| 0 <= j < |plan[i].payload| && RowsOf(plan[i])[j] == f;
      assert plan[i] in plan && plan[i].payload[j] in plan[i].payload;
    }
    forall d | d in DirEntries(plan)
      ensures d in DirRows(StagedRows(plan))
    {
      var q, e :| q in plan && q.kind != OpRemove && e in q.payload && e.kind.DirRow? && e.path == d;
      var i :| 0 <= i < |plan| && plan[i] == q;
      var j :| 0 <= j < |q.payload| && q.payload[j] == e;
      assert StagedRows(plan)[i] in StagedRows(plan) && RowsOf(q)[j] in RowsOf(q);
    }
  }

  // The installed packages and their manifests, one entry each.
  ghost predicate InstalledIs(installed: seq<Installed>, packages: map<string, Pkg>)
  {
    && DistinctNames(installed)
    && forall n, m :: Installed(n, m) in installed <==> n in packages && packages[n].manifest == m
  }

  // postInstalledManifests: what will be installed once the plan is carried out.
  ghost predicate InstalledAfter(db: Db, plan: seq<PkgOp>, installed: seq<Installed>)
  {
    && DistinctNames(installed)
    && forall n, m :: Installed(n, m) in installed <==>
         || (n in db.packages && n !in PlanNames(plan) && db.packages[n].manifest == m)
         || exists q | q in plan :: q.kind != OpRemove && q.name == n && q.pkg.manifest == m
  }

  // The recorded links are the ones the installed packages and holders call for.
  ghost predicate LinksDesired(db: Db)
  {
    exists installed, desired ::
      && InstalledIs(installed, db.packages) && IsDesired(installed, db.holders, desired)
      && RecordsExactly(db.links, desired)
  }

  // What every committed database satisfies.
  ghost predicate SoundDb(db: Db) { ValidDb(db) && LinksApart(db) && LinksDesired(db) }

  // A standalone grant or revoke changes one role's holder.
  datatype ClaimRequest = ClaimRequest(role: string, holder: string)

  function ClaimPost(db: Db, req: ClaimRequest): Option<map<string, string>>
  {
    if req.holder != "" then
      if req.holder in db.packages && EligibleProvider(db.packages[req.holder].manifest, req.role)
      then Some(db.holders[req.role := req.holder]) else None
    else if req.role in db.holders then Some(db.holders - {req.role}) else None
  }

  // The new holders, by an install transaction or by the claim command.
  ghost predicate HoldersFor(db: Db, plan: seq<PkgOp>, post: map<string, string>)
  {
    || (exists dir :: PostHolders(db.holders, plan, dir, post))
    || (plan == [] && exists req :: ClaimPost(db, req) == Some(post))
  }

  ghost predicate Transacts(c: Context, plan: seq<PkgOp>, installed: seq<Installed>, post: map<string, string>,
                            desired: seq<Link>, txn: Txn)
  {
    && PlanNamed(plan) && txn.staged == StagedRows(plan)
    && HoldersFor(c.db, plan, post)
    && InstalledAfter(c.db, plan, installed)
    && IsDesired(installed, post, desired)
    && IsPlan(c, plan, desired, txn.changes)
    && WorkFor(c.db, txn.work, post, desired)
  }

  ghost predicate GoodTxn(c: Context, txn: Txn)
  {
    exists plan, installed, post, desired :: Transacts(c, plan, installed, post, desired, txn)
  }

  lemma DesiredPathsDistinct(installed: seq<Installed>, post: map<string, string>, desired: seq<Link>)
    requires IsDesired(installed, post, desired)
    ensures DistinctPaths(desired) && forall l | l in desired :: l.role in post
  {
    forall i, j | 0 <= i < j < |desired|
      ensures desired[i].path != desired[j].path
    {
      LessTotal(desired[i].path, desired[j].path);
    }
  }

  lemma NewHoldersInstalled(db: Db, plan: seq<PkgOp>, post: map<string, string>, d: Db)
    requires ValidDb(db) && PlanNamed(plan) && RowsAre(db, StagedRows(plan), d) && HoldersFor(db, plan, post)
    ensures forall r | r in post :: post[r] in d.packages
  {
    if dir :| PostHolders(db.holders, plan, dir, post) {
      HoldersInstalled(db, plan, dir, post, d);
    } else {
      StagedRowsNamed(plan);
      assert PlanNames(plan) == {};
    }
  }

  lemma RowsCarryOver(db: Db, staged: seq<StagedOp>, d: Db, after: Db)
    requires RowsAre(db, staged, d) && after.packages == d.packages && after.files == d.files
    ensures RowsAre(db, staged, after)
  {
  }

  // The commit succeeds exactly when every operation's rows can go in; then its
  // tables are the planned ones.
  lemma CommitIsExact(c: Context, plan: seq<PkgOp>, installed: seq<Installed>, post: map<string, string>,
                      desired: seq<Link>, txn: Txn)
    requires ValidDb(c.db) && Transacts(c, plan, installed, post, desired, txn)
    ensures Commit(c.db, txn.staged, txn.work).Some? <==> RowsCommit(c.db, plan)
    ensures Commit(c.db, txn.staged, txn.work).Some? ==>
              var after := Commit(c.db, txn.staged, txn.work).value;
              && ValidDb(after) && after.holders == post && RecordsExactly(after.links, desired)
              && RowsAre(c.db, txn.staged, after) && InstalledIs(installed, after.packages)
  {
    hide IsPlan, IsDesired, RowsAre, RecordsExactly, ValidDb, PlanNamed;
    hide HoldersFor, InstalledAfter, InstalledIs, PackagesAre;
    StagedRowsNamed(plan);
    MetadataSucceeds(c.db, plan, |plan|);
    assert txn.staged[..|plan|] == txn.staged;
    if ApplyMetadata(c.db, txn.staged).Some? {
      RowsAfterMetadata(c.db, txn.staged);
      PackagesAfterMetadata(c.db, txn.staged);
      var d := ApplyMetadata(c.db, txn.staged).value;
      DesiredPathsDistinct(installed, post, desired);
      NewHoldersInstalled(c.db, plan, post, d);
      ClaimTablesExact(c.db, txn.staged, txn.work, post, desired);
      var after := Commit(c.db, txn.staged, txn.work).value;
      RowsCarryOver(c.db, txn.staged, d, after);
      InstalledNow(c.db, plan, installed, d);
    }
  }

  lemma InstalledNow(db: Db, plan: seq<PkgOp>, installed: seq<Installed>, d: Db)
    requires PlanNamed(plan) && InstalledAfter(db, plan, installed)
    requires RowsAre(db, StagedRows(plan), d) && PackagesAre(db, StagedRows(plan), d)
    ensures InstalledIs(installed, d.packages)
  {
    hide RowsAre, PackagesAre, PlanNamed;
    forall n, m
      ensures Installed(n, m) in installed <==> n in d.packages && d.packages[n].manifest == m
    {
      if n in PlanNames(plan) {
        var q := RowOfPlan(db, plan, d, n);
      } else {
        OtherRow(db, plan, d, n);
      }
    }
  }

  lemma OtherRow(db: Db, plan: seq<PkgOp>, d: Db, n: string)
    requires PlanNamed(plan) && n !in PlanNames(plan)
    requires RowsAre(db, StagedRows(plan), d) && PackagesAre(db, StagedRows(plan), d)
    ensures n in d.packages <==> n in db.packages
    ensures n in d.packages ==> d.packages[n] == db.packages[n]
  {
    StagedRowsNamed(plan);
    assert forall s | s in StagedRows(plan) :: s.name in StagedNames(StagedRows(plan));
  }

  // The package row of an operation is the one it brings.
  lemma RowOfPlan(db: Db, plan: seq<PkgOp>, d: Db, n: string) returns (q: PkgOp)
    requires PlanNamed(plan) && n in PlanNames(plan)
    requires RowsAre(db, StagedRows(plan), d) && PackagesAre(db, StagedRows(plan), d)
    ensures q in plan && q.name == n && forall r | r in plan && r.name == n :: r == q
    ensures n in d.packages <==> q.kind != OpRemove
    ensures n in d.packages ==> d.packages[n] == q.pkg
  {
    hide RowsAre, PlanNamed;
    StagedRowsNamed(plan);
    q :| q in plan && q.name == n;
    forall r | r in plan && r.name == n
      ensures r == q
    {
      SameName(plan, q, r);
    }
    if n in d.packages {
      var s :| s in StagedRows(plan) && s.kind != OpRemove && s.name == n && s.pkg == d.packages[n];
      var j :| 0 <= j < |plan| && StagedRows(plan)[j] == s;
      assert plan[j] in plan;
    } else if q.kind != OpRemove {
      PlanInstalls(plan, q, db, d);
    }
  }

  // For plans that keep kinds: exactly when no package to install is there, no
  // payload repeats a path, and no two bring a file or symlink to one path.
  lemma CommitCondition(c: Context, plan: seq<PkgOp>, installed: seq<Installed>, post: map<string, string>,
                        desired: seq<Link>, txn: Txn)
    requires Sound(c) && Transacts(c, plan, installed, post, desired, txn) && KindsKept(c, plan) && OneKind(c.db)
    ensures Commit(c.db, txn.staged, txn.work).Some? <==> PayloadsApart(c.db, plan)
  {
    hide Sound, IsPlan, RowsAre, KindsKept, OneKind, RowsCommit, PayloadsApart, IsDesired, HoldersFor, InstalledAfter;
    SoundMeans(c);
    CommitIsExact(c, plan, installed, post, desired, txn);
    PlannedRowsCommit(c, plan, desired, txn.changes);
  }

  // A transaction planned against a sound state always flips, to a disk that matches
  // the database its commit writes, if it does; and that database is sound again.
  lemma TransactionIsSound(c: Context, txn: Txn, staged: Tree)
    requires Sound(c) && GoodTxn(c, txn) && StagedContent(c, staged, txn.changes)
    ensures Separated(Ops(txn.changes)) && AllPlanned(c.tree, Ops(txn.changes))
    ensures ApplyAll(staged, Ops(txn.changes)).Some?
    ensures Commit(c.db, txn.staged, txn.work).Some? ==>
              && Agree(ApplyAll(staged, Ops(txn.changes)).value, Commit(c.db, txn.staged, txn.work).value)
              && SoundDb(Commit(c.db, txn.staged, txn.work).value)
  {
    hide Sound, IsPlan, Flipped, StagedContent, RowsAre, Agree, ApplyAll, Separated, AllPlanned, RowsCommit;
    var plan, installed, post, desired :| Transacts(c, plan, installed, post, desired, txn);
    assert ValidDb(c.db) by { SoundMeans(c); }
    CommitIsExact(c, plan, installed, post, desired, txn);
    DesiredPathsDistinct(installed, post, desired);
    PlanSeparated(c, plan, desired, txn.changes);
    PlanFlips(c, plan, desired, txn.changes, staged);
    if Commit(c.db, txn.staged, txn.work).Some? {
      var u := ApplyAll(staged, Ops(txn.changes)).value;
      FlipMatchesNewRows(c, plan, desired, txn.changes, u, Commit(c.db, txn.staged, txn.work).value);
    }
  }

  // After a committed transaction what stands at a desired path is a link that leads,
  // from its own directory and wherever the root is mounted, to the target.
  lemma LinksLead(c: Context, plan: seq<PkgOp>, installed: seq<Installed>, post: map<string, string>,
                  desired: seq<Link>, txn: Txn, staged: Tree, l: Link,
                  mount: seq<string>, dir: seq<string>, name: string, target: seq<string>)
    requires Sound(c) && Transacts(c, plan, installed, post, desired, txn) && StagedContent(c, staged, txn.changes)
    requires Commit(c.db, txn.staged, txn.work).Some? && l in desired
    requires RelativeLinks.AllNames(dir) && RelativeLinks.Name(name) && RelativeLinks.AllNames(target)
    requires l.path == RelativeLinks.Absolute(dir + [name]) && l.target == RelativeLinks.Absolute(target)
    ensures ApplyAll(staged, Ops(txn.changes)).Some?
    ensures var u := ApplyAll(staged, Ops(txn.changes)).value;
      && l.path in u && u[l.path].Symlink? && u[l.path].target != "" && u[l.path].target[0] != '/'
      && RelativeLinks.Resolve(mount + dir, RelativeLinks.Components(u[l.path].target)) == mount + target
  {
    hide Sound, IsPlan, StagedContent, ApplyAll, RowsCommit, IsDesired, WorkFor, Commit;
    CommitIsExact(c, plan, installed, post, desired, txn) by { SoundMeans(c); }
    assert GoodTxn(c, txn);
    TransactionIsSound(c, txn, staged);
    RelativeLinks.BodyResolves(mount, dir, name, target);
  }

  // After a committed transaction nothing withdrawn is left: no link that is no
  // longer recorded, and, where kinds are kept, no file that is no longer managed.
  lemma WithdrawnIsGone(c: Context, plan: seq<PkgOp>, installed: seq<Installed>, post: map<string, string>,
                        desired: seq<Link>, txn: Txn, staged: Tree, p: string)
    requires Sound(c) && Transacts(c, plan, installed, post, desired, txn) && StagedContent(c, staged, txn.changes)
    requires Commit(c.db, txn.staged, txn.work).Some?
    ensures ApplyAll(staged, Ops(txn.changes)).Some?
    ensures var u, after := ApplyAll(staged, Ops(txn.changes)).value, Commit(c.db, txn.staged, txn.work).value;
      && (p in c.db.links && p !in after.links ==> p !in u)
      && (KindsKept(c, plan) && OneKind(c.db) && Managed(c.db, p) && !Managed(after, p) ==> p !in u)
  {
    hide Sound, IsPlan, Flipped, StagedContent, RowsAre, ApplyAll, KindsKept, OneKind, IsDesired;
    assert ValidDb(c.db) by { SoundMeans(c); }
    CommitIsExact(c, plan, installed, post, desired, txn);
    PlanFlips(c, plan, desired, txn.changes, staged);
    var u, after := ApplyAll(staged, Ops(txn.changes)).value, Commit(c.db, txn.staged, txn.work).value;
    if p in c.db.links && p !in after.links {
      WithdrawnLinkIsGone(c, plan, desired, txn.changes, u, p);
    } else if KindsKept(c, plan) && OneKind(c.db) && Managed(c.db, p) && !Managed(after, p) {
      var k :| k in c.db.files && k.1 == p && !c.db.files[k].DirRow?;
      InstallsAreNew(c.db, plan);
      WithdrawnFileIsGone(c, plan, desired, txn.changes, u, after, k);
    }
  }

  lemma InstallsAreNew(db: Db, plan: seq<PkgOp>)
    requires RowsCommit(db, plan)
    ensures forall q | q in plan && q.kind == OpInstall :: q.name !in db.packages
  {
    forall q | q in plan && q.kind == OpInstall
      ensures q.name !in db.packages
    {
      var i :| 0 <= i < |plan| && plan[i] == q;
      assert OpCommits(db, plan, i);
    }
  }

  lemma SoundMeans(c: Context)
    requires Sound(c)
    ensures ValidDb(c.db) && Agree(c.tree, c.db) && LinksApart(c.db) && InDirs(c.tree, c.dirs)
  {
    hide Carries;
  }

  lemma GoodTxnShaped(c: Context, txn: Txn)
    requires Sound(c) && GoodTxn(c, txn)
    ensures Separated(Ops(txn.changes)) && AllPlanned(c.tree, Ops(txn.changes))
    ensures forall op | op in Ops(txn.changes) :: Siblings(op) && Shaped(c, op)
    ensures Reachable(c.tree, Ops(txn.changes))
  {
    hide Sound, IsPlan, Shaped, Siblings, Reachable, Separated, AllPlanned;
    var plan, installed, post, desired :| Transacts(c, plan, installed, post, desired, txn);
    PlanSeparated(c, plan, desired, txn.changes);
    PlanReachable(c, plan, desired, txn.changes);
  }

  // No new name of its operations is, or lies on the way to, a listed directory.
  lemma OffDirs(c: Context, txn: Txn)
    requires GoodTxn(c, txn)
    ensures forall p, e | p in AllNames(Ops(txn.changes)) && p !in c.tree && e in DirRows(txn.staged) ::
              p != e && !Above(p, e)
  {
    hide Accepted, IsChange, NamesApart, JournalAccepts, Above, Names, HoldersFor, InstalledAfter, IsDesired, WorkFor;
    hide DirRows, DirEntries;
    var plan, installed, post, desired :| Transacts(c, plan, installed, post, desired, txn);
    DirRowsAre(plan);
    var ops := Ops(txn.changes);
    forall p, e | p in AllNames(ops) && p !in c.tree && e in DirRows(txn.staged)
      ensures p != e && !Above(p, e)
    {
      var op :| op in ops && p in Names(op);
      var i :| 0 <= i < |ops| && ops[i] == op;
      assert txn.changes[i] in txn.changes;
    }
  }

  // Nothing that is not a directory is on the way to what it will install.
  lemma GoodTxnUnobstructed(c: Context, txn: Txn, op: FileOp)
    requires GoodTxn(c, txn) && op in Ops(txn.changes)
    ensures !Obstructed(c.tree, op.finalPath)
  {
    hide IsPlan, Obstructed, HoldersFor, InstalledAfter, IsDesired, WorkFor;
    var plan, installed, post, desired :| Transacts(c, plan, installed, post, desired, txn);
    var i :| 0 <= i < |txn.changes| && Ops(txn.changes)[i] == op;
    Unobstructed(c, plan, desired, txn.changes, txn.changes[i]);
  }

  lemma PlanReachable(c: Context, plan: seq<PkgOp>, desired: seq<Link>, changes: seq<Change>)
    requires IsPlan(c, plan, desired, changes)
    ensures Reachable(c.tree, Ops(changes))
  {
    hide Names, Above;
    var ops := Ops(changes);
    forall op, p | op in ops && p in c.tree.Keys + AllNames(ops)
      ensures !Above(p, op.finalPath)
    {
      var i :| 0 <= i < |ops| && ops[i] == op;
      assert changes[i] in changes;
      if p in c.tree {
        Unobstructed(c, plan, desired, changes, changes[i]);
      } else {
        var o :| o in ops && p in Names(o);
        var j :| 0 <= j < |ops| && ops[j] == o;
        assert changes[j] in changes && p in Names(changes[j].op);
        assert KindsApart(c, plan, changes);
      }
    }
  }

  /** The claim command. */

  // A role is granted to a package that can hold it and revoked where it is held; all
  // other roles keep their holders.
  lemma ClaimRequestExactly(db: Db, role: string, holder: string)
    ensures var post := ClaimPost(db, ClaimRequest(role, holder));
      && (post.Some? <==>
            if holder == "" then role in db.holders
            else holder in db.packages && EligibleProvider(db.packages[holder].manifest, role))
      && (post.Some? && holder == "" ==> role !in post.value)
      && (post.Some? && holder != "" ==> role in post.value && post.value[role] == holder)
      && (post.Some? ==> forall r | r != role :: (r in post.value <==> r in db.holders)
                                              && (r in db.holders ==> post.value[r] == db.holders[r]))
  {
  }

  // Once a revocation is committed no link of the role is recorded, and none that was
  // is left on the disk unless another role wants its path.
  lemma RevokedIsGone(c: Context, installed: seq<Installed>, post: map<string, string>, desired: seq<Link>, txn: Txn,
                      staged: Tree, role: string)
    requires Sound(c) && Transacts(c, [], installed, post, desired, txn) && StagedContent(c, staged, txn.changes)
    requires ClaimPost(c.db, ClaimRequest(role, "")) == Some(post) && Commit(c.db, txn.staged, txn.work).Some?
    ensures ApplyAll(staged, Ops(txn.changes)).Some?
    ensures var u, after := ApplyAll(staged, Ops(txn.changes)).value, Commit(c.db, txn.staged, txn.work).value;
      && role !in after.holders
      && (forall p | p in after.links :: after.links[p].role != role)
      && (forall p | p in c.db.links && c.db.links[p].role == role :: p in u ==> p in after.links)
  {
    hide Sound, IsPlan, StagedContent, ApplyAll, RowsCommit, WorkFor, Commit, RowsAre, InstalledAfter, KindsKept;
    hide OneKind, Managed;
    CommitIsExact(c, [], installed, post, desired, txn) by { SoundMeans(c); }
    ClaimRequestExactly(c.db, role, "");
    var after := Commit(c.db, txn.staged, txn.work).value;
    forall p | p in after.links
      ensures after.links[p].role != role
    {
      RoleRecorded(after, p);
    }
    assert GoodTxn(c, txn);
    TransactionIsSound(c, txn, staged);
    forall p | p in c.db.links && c.db.links[p].role == role && p in ApplyAll(staged, Ops(txn.changes)).value
      ensures p in after.links
    {
      WithdrawnIsGone(c, [], installed, post, desired, txn, staged, p);
    }
  }

  lemma RoleRecorded(db: Db, p: string)
    requires ValidDb(db) && p in db.links
    ensures db.links[p].role in db.holders
  {
  }
}
