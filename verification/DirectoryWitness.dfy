/** A package lists a directory where an unowned file stands: accepted, and pending for
    good. */
module DirectoryWitness {
  import opened Wrappers
  import opened Sorting
  import opened TempNames
  import opened FileOps
  import opened Lookups
  import opened CreatedDirs
  import opened Claims
  import opened Tables
  import opened Metadata
  import opened ClaimTables
  import opened Planning
  import opened Patch
  import opened Holders
  import opened Transactions
  import opened SingleRoot
  import opened SingleRootSafety
  import opened DirectoryEntries
  import opened Witness

  const LISTED := PayloadEntry("/p", DirRow)
  const LISTS_DIR := [PkgOp(OpInstall, "a", PACKAGE, [LISTED], {})]
  const FILE_TREE: Tree := map["/p" := FileOps.File("u")]
  const FILE_THERE := Context(FILE_TREE, {"/"}, EMPTY_DB, 1, false)
  const DIR_TXN := Txn([], StagedRows(LISTS_DIR), NO_WORK)

  function FileRoot(): Root { Machine(FILE_TREE, EMPTY_DB, 1, None, Idle) }

  function DirBegun(): Root
  {
    Machine(FILE_TREE, EMPTY_DB, 2, Some(Pending(1, [], [], FILE_TREE, {"/"}, false, DIR_TXN, ["/p"])), Journalling)
  }

  lemma NothingPlanned()
    ensures IsPlan(FILE_THERE, LISTS_DIR, [], [])
  {
    hide TempPath, Carries, Above;
    var q := LISTS_DIR[0];
    assert forall r | r in LISTS_DIR :: r == q;
    assert forall e | e in q.payload :: e == LISTED;
    ShortNamesCarryNothing("/p", 1);
    assert Dropped(FILE_THERE, q) == {};
  }

  lemma ListingIsGood()
    ensures GoodTxn(FILE_THERE, DIR_TXN)
  {
    hide IsPlan, TempPath;
    NothingPlanned();
    var none: map<string, string> := map[];
    var installed := [Installed("a", EMPTY_MANIFEST)];
    assert LISTS_DIR[0] in LISTS_DIR && forall q | q in LISTS_DIR :: q == LISTS_DIR[0];
    assert FirstProviders(LISTS_DIR, none) && PostGiven(none, LISTS_DIR, Directive(false, false, []), none, none);
    assert PostHolders(none, LISTS_DIR, Directive(false, false, []), none);
    assert InstalledAfter(EMPTY_DB, LISTS_DIR, installed) && IsDesired(installed, none, []);
    assert Elements<string>([]) == {};
    assert HoldersFor(EMPTY_DB, LISTS_DIR, none) && WorkFor(EMPTY_DB, NO_WORK, none, []);
    assert Transacts(FILE_THERE, LISTS_DIR, installed, none, [], DIR_TXN);
  }

  lemma ListedIsBlocked()
    ensures DirRows(DIR_TXN.staged) == {"/p"} && Blocked(FILE_TREE, "/p")
  {
    DirRowsAre(LISTS_DIR);
    assert LISTS_DIR[0] in LISTS_DIR && LISTED in LISTS_DIR[0].payload;
    assert forall q, e | q in LISTS_DIR && e in q.payload :: e == LISTED;
    assert DirEntries(LISTS_DIR) == {"/p"};
  }

  lemma FileIsAtRest()
    ensures AtRest(FileRoot()) && Solid(FILE_TREE, {"/"})
  {
    hide Carries, Dir;
    SplitSibling("/", "p");
    assert "/" + "p" == "/p";
    forall i: TxnId
      ensures !Carries("/p", i)
    {
      ShortNamesCarryNothing("/p", i);
    }
    var none: seq<Installed> := [];
    var links: seq<Link> := [];
    assert InstalledIs(none, EMPTY_DB.packages) && RecordsExactly(EMPTY_DB.links, links);
    assert IsDesired(none, map[], links);
  }

  lemma ListingBegins()
    ensures Begin(FileRoot(), DirBegun()) && Rooted(DirBegun().journal.value.created)
    ensures !DirsClear(FILE_TREE, DIR_TXN)
  {
    hide GoodTxn, Obstructed, Carries, DirRows;
    ListingIsGood();
    ListedIsBlocked();
    assert PlanContext(EMPTY_DB, DirBegun().journal.value) == FILE_THERE;
    assert Ops([]) == [] && NeededDirs([]) == {};
    assert "/p" in ["/p"] && forall d | d in ["/p"] :: d == "/p";
  }

  // A run on a real disk to a pending transaction whose rollback cannot be closed, in
  // this state or any later one (DirectoryEntries.BlockedForGood).
  lemma FileWhereDirectory() returns (run: seq<Root>)
    ensures run != [] && Run(run) && AtRest(run[0]) && run[0] == FileRoot()
    ensures var e := run[|run| - 1];
      && e.mem == Idle && e.journal.Some? && Doomed(e, e.journal.value) && Solid(e.tree, e.dirs)
      && GoodTxn(FILE_THERE, DIR_TXN)
  {
    hide AtRest, Begin, Run, Doomed, DirsClear, Rooted, Solid, GoodTxn;
    FileIsAtRest();
    ListingBegins();
    ListingIsGood();
    run := BlockedIsReached(FileRoot(), DirBegun());
  }
}
