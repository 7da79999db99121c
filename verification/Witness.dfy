/** The single-root machine can run: one package with one file is installed from an
    empty root, step by step. */
module Witness {
  import opened Wrappers
  import opened Sorting
  import opened TempNames
  import opened FileOps
  import opened Lookups
  import opened CreatedDirs
  import opened Undo
  import opened Claims
  import opened Tables
  import opened Metadata
  import opened ClaimTables
  import opened Planning
  import opened Patch
  import opened Holders
  import opened Transactions
  import opened SingleRoot
  import opened SingleRootSafety

  const EMPTY_MANIFEST := Manifest([], [], [])
  const PACKAGE := Pkg("a", "1-1", EMPTY_MANIFEST)
  const NEW_FILE := PayloadEntry("/f", FileRow("d"))
  const PLAN := [PkgOp(OpInstall, "a", PACKAGE, [NEW_FILE], {})]
  const EMPTY_DB := Db(map[], map[], map[], map[])
  const FIRST := Context(map[], {"/"}, EMPTY_DB, 1, false)
  const AFTER := Db(map["a" := PACKAGE], map[("a", "/f") := FileRow("d")], map[], map[])
  const NO_WORK := ClaimWork(map[], [], [], [])

  function NewOp(): FileOp { FileOp("/f", Create, TempPath("/f", STAGED_MARKER, 1), "", false, true) }

  function NewChanges(): seq<Change> { [Change(NewOp(), File("d"))] }

  function NewTxn(): Txn { Txn(NewChanges(), StagedRows(PLAN), NO_WORK) }

  lemma NoClaims()
    ensures IsDesired([Installed("a", EMPTY_MANIFEST)], map[], [])
    ensures PostHolders(map[], PLAN, Directive(false, false, []), map[])
  {
    var providers: map<string, string> := map[];
    assert FirstProviders(PLAN, providers);
    assert PostGiven(map[], PLAN, Directive(false, false, []), providers, map[]);
  }

  lemma OneChange()
    ensures forall x :: x in NewChanges() <==> IsChange(FIRST, PLAN, [], x)
    ensures Accepted(FIRST, PLAN, [])
  {
    hide TempPath;
    var q := PLAN[0];
    assert forall r | r in PLAN :: r == q;
    assert Owners(EMPTY_DB, "/f") == {} && !Occupied(FIRST, "/f");
    assert EntryChange(FIRST, q, NEW_FILE) == Some(NewChanges()[0]);
    assert Dropped(FIRST, q) == {};
    assert NEW_FILE in q.payload;
    assert FromPackage(FIRST, q, NewChanges()[0]);
    forall x
      ensures x in NewChanges() <==> IsChange(FIRST, PLAN, [], x)
    {
    }
  }

  lemma NewPlan()
    ensures IsPlan(FIRST, PLAN, [], NewChanges())
  {
    hide TempPath, Carries, IsChange, Accepted, Above, Dir, Base;
    OneChange();
    ShortNamesCarryNothing("/f", 1);
    var changes := NewChanges();
    assert forall x | x in changes :: x == changes[0];
    assert NamesApart(FIRST, PLAN, [], changes);
    OpIs();
    TempPathIsSibling("/f", STAGED_MARKER, 1);
    SiblingNotAbove("/f", "/f");
    SiblingNotAbove(TempPath("/f", STAGED_MARKER, 1), "/f");
  }

  lemma NewCommit()
    ensures Commit(EMPTY_DB, StagedRows(PLAN), NO_WORK) == Some(AFTER)
  {
    var staged := StagedRows(PLAN);
    var s := staged[0];
    assert staged[..0] == [] && staged == [s];
    assert ApplyMetadata(EMPTY_DB, []) == Some(EMPTY_DB);
    var rows := RowsOf(PLAN[0]);
    assert s.files == rows && rows == [PackageFile("a", "/f", FileRow("d"))] && rows[1..] == [];
    var d := InsertPackage(EMPTY_DB, PACKAGE).value;
    assert InsertPackageFiles(d, rows) == InsertPackageFiles(d.(files := d.files[("a", "/f") := FileRow("d")]), []);
    assert ApplyMetadata(EMPTY_DB, staged) == Some(AFTER);
    assert DeleteHolders(AFTER, []) == AFTER && DeleteLinks(AFTER, []) == AFTER;
    assert AFTER.holders + map[] == AFTER.holders;
  }

  lemma NewTxnIsGood()
    ensures GoodTxn(FIRST, NewTxn())
  {
    hide IsPlan, IsDesired, PostHolders, TempPath;
    NoClaims();
    NewPlan();
    var installed := [Installed("a", EMPTY_MANIFEST)];
    assert PLAN[0] in PLAN && forall q | q in PLAN :: q == PLAN[0];
    assert InstalledAfter(EMPTY_DB, PLAN, installed);
    assert Elements<string>([]) == {};
    assert HoldersFor(EMPTY_DB, PLAN, map[]);
    assert Transacts(FIRST, PLAN, installed, map[], [], NewTxn());
  }

  // The stages of the installation: the root after each of its steps.
  datatype Stage = Before | Begun | Recorded | Started | Written | Flipping | Flipped | Closed | After

  function At(stage: Stage): Root
  {
    var op := NewOp();
    var staged: Tree := map[op.stagedPath := File("d")];
    var installed: Tree := map["/f" := File("d")];
    match stage
    case Before => Machine(map[], EMPTY_DB, 1, None, Idle)
    case Begun => Machine(map[], EMPTY_DB, 2, Journal([]), Journalling)
    case Recorded => Machine(map[], EMPTY_DB, 2, Journal([Row(op)]), Journalling)
    case Started => Machine(map[], EMPTY_DB, 2, Journal([Row(op)]), Staging)
    case Written => Machine(staged, EMPTY_DB, 2, Journal([Row(op)]), Staging)
    case Flipping => Machine(staged, EMPTY_DB, 2, Journal([Row(op)]), Applying(staged, 0, false))
    case Flipped => Machine(installed, EMPTY_DB, 2, Journal([Row(op)]), Applying(staged, 1, false))
    case Closed => Machine(installed, AFTER, 2, None, Discarding([op]))
    case After => Machine(installed, AFTER, 2, None, Idle)
  }

  function Machine(tree: Tree, db: Db, next: nat, journal: Option<Pending>, mem: Mem): Root
  {
    Root(tree, {"/"}, db, next, journal, mem)
  }

  function Journal(rows: seq<TxnFile>): Option<Pending>
  {
    Some(Pending(1, rows, [], map[], {"/"}, false, NewTxn(), []))
  }

  lemma OpIs()
    ensures Ops(NewChanges()) == [NewOp()] && AllStaged([NewOp()]) == {NewOp().stagedPath} && Dir("/f") == "/"
    ensures NeededDirs([NewOp()]) == {"/"} && Names(NewOp()) == {"/f", NewOp().stagedPath}
  {
    hide TempPath;
    var op := NewOp();
    assert forall q | q in [op] :: q == op;
    assert op in [op];
    SplitSibling("/", "f");
    assert "/" + "f" == "/f";
    assert op.stagedPath in Staged(op);
  }

  lemma FirstBegins()
    ensures Begin(At(Before), At(Begun))
  {
    hide TempPath, GoodTxn, Carries, StagedRows, Dir, Above, Blocked;
    OpIs();
    NewTxnIsGood();
    NoDirRows();
    assert PlanContext(EMPTY_DB, At(Begun).journal.value) == FIRST;
    forall i: TxnId
      ensures !Carries("/f", i)
    {
      ShortNamesCarryNothing("/f", i);
    }
  }

  lemma NoDirRows()
    ensures DirRows(StagedRows(PLAN)) == {}
  {
    DirRowsAre(PLAN);
    assert forall q, e | q in PLAN && e in q.payload :: e == NEW_FILE;
  }

  lemma FirstSteps()
    ensures Begin(At(Before), At(Begun)) && Record(At(Begun), At(Recorded)) && StartStaging(At(Recorded), At(Started))
    ensures StageWrite(At(Started), At(Written)) && StartApplying(At(Written), At(Flipping))
  {
    hide TempPath, GoodTxn, Carries, Commit, StagedRows, Dir, Begin, Blocked, DirRows;
    OpIs();
    FirstBegins();
    NoDirRows();
    assert [] + [Row(NewOp())] == [Row(NewOp())];
    assert Rows([NewOp()]) == [Row(NewOp())];
    assert PlanContext(EMPTY_DB, At(Written).journal.value) == FIRST;
    var staged := At(Written).tree;
    assert staged == At(Started).tree[NewOp().stagedPath := staged[NewOp().stagedPath]];
    assert StagedContent(FIRST, staged, NewChanges());
  }

  lemma LastSteps()
    ensures ApplyOne(At(Flipping), At(Flipped)) && CommitDb(At(Flipped), At(Closed))
    ensures SingleRoot.Done(At(Closed), At(After))
  {
    hide GoodTxn, Commit, StagedRows;
    OpIs();
    TempPathCarries("/f", STAGED_MARKER, 1);
    ShortNamesCarryNothing("/f", 1);
    hide TempPath, Carries, Dir;
    assert NewOp().stagedPath != "/f";
    assert Applied(At(Flipping).tree, NewOp()) == map["/f" := File("d")];
    NewCommit();
  }

  lemma AllSteps()
    ensures Next(At(Before), At(Begun)) && Next(At(Begun), At(Recorded)) && Next(At(Recorded), At(Started))
    ensures Next(At(Started), At(Written)) && Next(At(Written), At(Flipping)) && Next(At(Flipping), At(Flipped))
    ensures Next(At(Flipped), At(Closed)) && Next(At(Closed), At(After))
  {
    hide At, Begin, Record, StartStaging, StageWrite, StartApplying, ApplyOne, CommitDb, SingleRoot.Done;
    FirstSteps();
    LastSteps();
  }

  // From an empty root at rest to one that holds the file and its rows, with the
  // journal closed.
  lemma OneFileInstall() returns (run: seq<Root>)
    ensures Run(run) && AtRest(run[0]) && run[0] == At(Before) && run[|run| - 1] == At(After)
    ensures At(Before).tree == map[] && At(After) == Machine(map["/f" := File("d")], AFTER, 2, None, Idle)
  {
    hide Next, AtRest, Machine;
    AllSteps();
    EmptyIsAtRest();
    EndsAre();
    hide At;
    run := [At(Before), At(Begun), At(Recorded), At(Started), At(Written), At(Flipping), At(Flipped), At(Closed),
            At(After)];
    forall i | 0 <= i < |run| - 1
      ensures Next(run[i], run[i + 1])
    {
      assert i == 0 || i == 1 || i == 2 || i == 3 || i == 4 || i == 5 || i == 6 || i == 7;
    }
  }

  lemma EndsAre()
    ensures At(Before).tree == map[] && At(After) == Machine(map["/f" := File("d")], AFTER, 2, None, Idle)
  {
  }

  lemma EmptyIsAtRest()
    ensures AtRest(At(Before))
  {
    hide Carries, Dir;
    var none: seq<Installed> := [];
    var links: seq<Link> := [];
    assert InstalledIs(none, EMPTY_DB.packages) && RecordsExactly(EMPTY_DB.links, links);
    assert IsDesired(none, map[], links);
  }
}
