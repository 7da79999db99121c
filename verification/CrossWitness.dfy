/** Cross-root transactions that go wrong: one torn by a recovery that cannot reach
    the committed root, and one that no recovery finishes, because two packages of
    an accepted plan bring one file. */
module CrossWitness {
  import opened Wrappers
  import opened Sorting
  import opened TempNames
  import opened FileOps
  import opened Lookups
  import opened CreatedDirs
  import opened Claims
  import opened Tables
  import opened Metadata
  import opened ClaimTables
  import opened Planning
  import opened Patch
  import opened Upgrade
  import opened Committable
  import opened Holders
  import opened Transactions
  import opened SingleRoot
  import opened SingleRootSafety
  import opened CrossRoot
  import opened CrossRootSafety
  import opened CrossProgress
  import opened Witness

  /** Package b owns a file; its upgrade still ships it, and a newly installed
      package ships another one at that path. */

  const UPGRADED := Pkg("b", "2-1", EMPTY_MANIFEST)
  const SAME_FILE := PayloadEntry("/f", FileRow("d"))
  const OTHER_FILE := PayloadEntry("/f", FileRow("e"))
  const CLASH_DB := Db(map["b" := Pkg("b", "1-1", EMPTY_MANIFEST)], map[("b", "/f") := FileRow("d")], map[], map[])
  const CLASH_PLAN := [PkgOp(OpInstall, "a", PACKAGE, [OTHER_FILE], {}),
                       PkgOp(OpUpgrade, "b", UPGRADED, [SAME_FILE], {})]
  const OWNED_TREE: Tree := map["/f" := File("d")]
  const CLASH := Context(OWNED_TREE, {"/"}, CLASH_DB, 1, false)
  const CLASH_INSTALLED := [Installed("a", EMPTY_MANIFEST), Installed("b", EMPTY_MANIFEST)]

  function ClashOp(): FileOp
  {
    FileOp("/f", Replace, TempPath("/f", STAGED_MARKER, 1), TempPath("/f", BACKUP_MARKER, 1), false, true)
  }

  function ClashChanges(): seq<Change> { [Change(ClashOp(), File("e"))] }

  function ClashTxn(): Txn { Txn(ClashChanges(), StagedRows(CLASH_PLAN), NO_WORK) }

  lemma ClashClaims()
    ensures forall installed :: installed in [CLASH_INSTALLED] ==> IsDesired(installed, map[], [])
    ensures PostHolders(map[], CLASH_PLAN, Directive(false, false, []), map[])
  {
    var providers: map<string, string> := map[];
    assert FirstProviders(CLASH_PLAN, providers);
    assert PostGiven(map[], CLASH_PLAN, Directive(false, false, []), providers, map[]);
  }

  lemma ClashNames()
    ensures Dir("/f") == "/" && Ops(ClashChanges()) == [ClashOp()] && NeededDirs([ClashOp()]) == {"/"}
    ensures Names(ClashOp()) == {"/f", TempPath("/f", STAGED_MARKER, 1), TempPath("/f", BACKUP_MARKER, 1)}
    ensures forall p | p in Names(ClashOp()) :: !Above(p, "/f")
  {
    hide TempPath, Above, Base, Kept, Suffix;
    SplitSibling("/", "f");
    assert "/" + "f" == "/f";
    hide Dir;
    assert forall q | q in [ClashOp()] :: q == ClashOp();
    assert ClashOp() in [ClashOp()];
    TempPathIsSibling("/f", STAGED_MARKER, 1);
    TempPathIsSibling("/f", BACKUP_MARKER, 1);
    SiblingNotAbove("/f", "/f");
    SiblingNotAbove(TempPath("/f", STAGED_MARKER, 1), "/f");
    SiblingNotAbove(TempPath("/f", BACKUP_MARKER, 1), "/f");
  }

  // The other package is in the transaction, so its ownership refuses nothing; its
  // own entry is left alone.
  lemma ClashEntries()
    ensures EntryChange(CLASH, CLASH_PLAN[0], OTHER_FILE) == Some(ClashChanges()[0])
    ensures EntryChange(CLASH, CLASH_PLAN[1], SAME_FILE) == None
    ensures !EntryRefused(CLASH, CLASH_PLAN, CLASH_PLAN[0], OTHER_FILE)
    ensures !EntryRefused(CLASH, CLASH_PLAN, CLASH_PLAN[1], SAME_FILE)
  {
    hide TempPath, Above;
    var a, b := CLASH_PLAN[0], CLASH_PLAN[1];
    assert a in CLASH_PLAN && b in CLASH_PLAN;
    assert Owners(CLASH_DB, "/f") == {"b"} by {
      assert ("b", "/f") in CLASH_DB.files;
    }
    assert b.name in PlanNames(CLASH_PLAN);
    SiblingNotAbove("/f", "/f");
    assert Untouched(CLASH, b, SAME_FILE);
  }

  lemma NothingDropped()
    ensures Dropped(CLASH, CLASH_PLAN[0]) == {} && Dropped(CLASH, CLASH_PLAN[1]) == {}
  {
    assert SAME_FILE in CLASH_PLAN[1].payload;
    assert "/f" in PayloadPaths(CLASH_PLAN[1].payload);
  }

  // So the journal has one row.
  lemma OneReplace()
    ensures Accepted(CLASH, CLASH_PLAN, [])
    ensures forall x :: x in ClashChanges() <==> IsChange(CLASH, CLASH_PLAN, [], x)
  {
    hide TempPath, Above, EntryChange, EntryRefused, Dropped, ClashChanges;
    ClashEntries();
    NothingDropped();
    var a, b := CLASH_PLAN[0], CLASH_PLAN[1];
    assert a in CLASH_PLAN && b in CLASH_PLAN && forall q | q in CLASH_PLAN :: q == a || q == b;
    assert OTHER_FILE in a.payload && forall e | e in a.payload :: e == OTHER_FILE;
    assert forall e | e in b.payload :: e == SAME_FILE;
    OneClashChange();
    assert forall x :: FromPackage(CLASH, a, x) <==> x == ClashChanges()[0];
    assert forall x :: !FromPackage(CLASH, b, x) && !FromClaims(CLASH, [], x);
  }

  lemma OneClashChange()
    ensures |ClashChanges()| == 1 && forall x :: x in ClashChanges() <==> x == ClashChanges()[0]
  {
    hide TempPath;
  }

  lemma ClashPlanned()
    ensures IsPlan(CLASH, CLASH_PLAN, [], ClashChanges())
  {
    hide TempPath, Carries, IsChange, Accepted, Above, Dir, Base;
    OneReplace();
    ClashNames();
    ShortNamesCarryNothing("/f", 1);
    var changes := ClashChanges();
    assert forall x | x in changes :: x == changes[0];
    assert NamesApart(CLASH, CLASH_PLAN, [], changes);
  }

  lemma ClashTransacts()
    ensures Transacts(CLASH, CLASH_PLAN, CLASH_INSTALLED, map[], [], ClashTxn())
  {
    hide IsPlan, IsDesired, PostHolders, TempPath;
    ClashClaims();
    ClashPlanned();
    assert CLASH_INSTALLED in [CLASH_INSTALLED];
    var a, b := CLASH_PLAN[0], CLASH_PLAN[1];
    assert a in CLASH_PLAN && b in CLASH_PLAN && forall q | q in CLASH_PLAN :: q == a || q == b;
    assert PlanNames(CLASH_PLAN) == {"a", "b"};
    assert InstalledAfter(CLASH_DB, CLASH_PLAN, CLASH_INSTALLED);
    assert Elements<string>([]) == {};
    assert HoldersFor(CLASH_DB, CLASH_PLAN, map[]);
  }

  lemma ClashIsAtRest()
    ensures AtRest(Machine(OWNED_TREE, CLASH_DB, 1, None, Idle)) && Sound(CLASH)
  {
    hide Carries, Dir;
    assert Dir("/f") == "/" by { ClashNames(); }
    forall i: TxnId
      ensures !Carries("/f", i)
    {
      ShortNamesCarryNothing("/f", i);
    }
    var installed := [Installed("b", EMPTY_MANIFEST)];
    var links: seq<Link> := [];
    assert InstalledIs(installed, CLASH_DB.packages) && RecordsExactly(CLASH_DB.links, links);
    assert IsDesired(installed, map[], links);
  }

  lemma ClashKinds()
    ensures KindsKept(CLASH, CLASH_PLAN) && OneKind(CLASH_DB) && !PayloadsApart(CLASH_DB, CLASH_PLAN)
  {
    var a, b := CLASH_PLAN[0], CLASH_PLAN[1];
    assert OTHER_FILE in a.payload && SAME_FILE in b.payload;
    assert forall q | q in CLASH_PLAN :: q == a || q == b;
  }

  // A good transaction the database refuses: both payloads list a file at one path.
  lemma AcceptedAndRefused()
    ensures GoodTxn(CLASH, ClashTxn()) && !PayloadsApart(CLASH_DB, CLASH_PLAN)
    ensures Commit(CLASH_DB, StagedRows(CLASH_PLAN), NO_WORK) == None
  {
    hide Transacts, Sound, Commit, PayloadsApart, KindsKept, OneKind, AtRest, StagedRows;
    ClashTransacts();
    ClashIsAtRest();
    ClashKinds();
    CommitCondition(CLASH, CLASH_PLAN, CLASH_INSTALLED, map[], [], ClashTxn());
  }

  function ClashBegun(): Root
  {
    Machine(OWNED_TREE, CLASH_DB, 2, Some(Pending(1, [], [], OWNED_TREE, {"/"}, false, ClashTxn(), [])), Journalling)
  }

  lemma NoClashDirs()
    ensures DirRows(StagedRows(CLASH_PLAN)) == {}
  {
    DirRowsAre(CLASH_PLAN);
    assert forall q, e | q in CLASH_PLAN && e in q.payload :: e == SAME_FILE || e == OTHER_FILE;
  }

  lemma ClashBegins()
    ensures Begin(Machine(OWNED_TREE, CLASH_DB, 1, None, Idle), ClashBegun())
    ensures DirsClear(Machine(OWNED_TREE, CLASH_DB, 1, None, Idle).tree, ClashBegun().journal.value.txn)
  {
    hide GoodTxn, TempPath, Carries, Dir, StagedRows, Commit, DirRows, Blocked, Above;
    AcceptedAndRefused();
    ClashNames();
    NoClashDirs();
    assert PlanContext(CLASH_DB, ClashBegun().journal.value) == CLASH;
    forall i: TxnId
      ensures !Carries("/f", i)
    {
      ShortNamesCarryNothing("/f", i);
    }
  }

  /** Two roots. */

  const FRESH := Part(At(Before), NoRow, None)

  lemma FreshBegins()
    ensures AtRest(At(Before)) && Begin(At(Before), At(Begun))
    ensures DirsClear(At(Before).tree, At(Begun).journal.value.txn)
    ensures At(Begun).journal.Some? && OwnCommit(At(Begun)).Some?
  {
    EmptyIsAtRest();
    FirstBegins();
    NewCommit();
    NoDirRows();
    hide AtRest, Begin, Commit, DirRows;
  }

  // The first root commits, the machine stops, and a recovery that reaches only the
  // other one rolls it back: one is committed, one is rolled back.
  lemma TwoRootsTear() returns (run: seq<World>, after: seq<Part>)
    ensures CrossRun(run) && run != [] && Quiescent(run[|run| - 1])
    ensures Reconciled(run[|run| - 1].parts, {1}, after) && Torn(after)
  {
    hide AtRest, Begin, OwnCommit, At, CrossRun, Quiescent, Reconciled, Torn, DirsClear;
    FreshBegins();
    run, after := UnreachableCommitTears(World([FRESH, FRESH], Preparing(0)), [At(Begun), At(Begun)], 1);
  }

  // The first root commits a one-file install, the other carries the clash: it stays
  // pending beside the committed one, and no recovery that reaches both finishes.
  lemma TwoRootsBlock() returns (run: seq<World>)
    ensures CrossRun(run) && run != [] && Quiescent(run[|run| - 1])
    ensures Unfinishable(run[|run| - 1].parts, {0, 1})
  {
    hide AtRest, Begin, OwnCommit, At, CrossRun, Quiescent, Unfinishable, Machine, ClashBegun, Sound, DirsClear;
    FreshBegins();
    ClashIsAtRest();
    ClashBegins();
    ClashRefused();
    var other := Part(Machine(OWNED_TREE, CLASH_DB, 1, None, Idle), NoRow, None);
    run := RefusedCommitBlocks(World([FRESH, other], Preparing(0)), [At(Begun), ClashBegun()], 1);
    assert 0 in {0, 1} && 1 in {0, 1};
  }

  lemma ClashRefused()
    ensures ClashBegun().journal.Some? && OwnCommit(ClashBegun()).None?
  {
    hide Commit, GoodTxn;
    AcceptedAndRefused();
  }
}
