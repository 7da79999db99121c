/** An authorised overwrite of an unowned file, in a root that recovery completes: the
    operator's file, which a live commit keeps at its backup name, is gone. */
module KeptWitness {
  import opened Wrappers
  import opened Sorting
  import opened TempNames
  import opened FileOps
  import opened Lookups
  import opened CreatedDirs
  import opened Disks
  import opened Claims
  import opened Metadata
  import opened ClaimTables
  import opened Planning
  import opened Patch
  import opened Transactions
  import opened SingleRoot
  import opened SingleRootSafety
  import opened CrossRoot
  import opened CrossRootSafety
  import opened CrossProgress
  import opened CrossWitness
  import opened KeptBackups
  import opened FinalTrees
  import opened Witness

  const UNOWNED: Tree := map["/f" := FileOps.File("u")]
  const OVERWRITE := Context(UNOWNED, {"/"}, EMPTY_DB, 1, true)

  function KeepOp(): FileOp { ClashOp().(keepBackup := true) }

  function KeepChanges(): seq<Change> { [Change(KeepOp(), FileOps.File("d"))] }

  function KeepTxn(): Txn { Txn(KeepChanges(), StagedRows(PLAN), NO_WORK) }

  function KeepRoot(): Root { Machine(UNOWNED, EMPTY_DB, 1, None, Idle) }

  function KeepBegun(): Root
  {
    Machine(UNOWNED, EMPTY_DB, 2, Some(Pending(1, [], [], UNOWNED, {"/"}, true, KeepTxn(), [])), Journalling)
  }

  lemma KeepNames()
    ensures Ops(KeepChanges()) == [KeepOp()] && NeededDirs([KeepOp()]) == {"/"} && Dir("/f") == "/"
    ensures forall p | p in Names(KeepOp()) :: !Above(p, "/f")
  {
    hide TempPath, Above, Dir, Base;
    ClashNames();
    assert Names(KeepOp()) == Names(ClashOp());
    assert forall q | q in [KeepOp()] :: q == KeepOp();
    assert KeepOp() in [KeepOp()];
  }

  lemma OneOverwrite()
    ensures Accepted(OVERWRITE, PLAN, [])
    ensures forall x :: x in KeepChanges() <==> IsChange(OVERWRITE, PLAN, [], x)
  {
    hide TempPath, Above;
    var q := PLAN[0];
    assert forall r | r in PLAN :: r == q;
    assert Owners(EMPTY_DB, "/f") == {};
    SiblingNotAbove("/f", "/f");
    assert EntryChange(OVERWRITE, q, NEW_FILE) == Some(KeepChanges()[0]);
    assert Dropped(OVERWRITE, q) == {};
    assert NEW_FILE in q.payload;
    assert FromPackage(OVERWRITE, q, KeepChanges()[0]);
    forall x
      ensures x in KeepChanges() <==> IsChange(OVERWRITE, PLAN, [], x)
    {
      assert x in KeepChanges() <==> x == KeepChanges()[0];
    }
  }

  lemma OverwritePlanned()
    ensures IsPlan(OVERWRITE, PLAN, [], KeepChanges())
  {
    hide TempPath, Carries, IsChange, Accepted, Above, Dir, Base;
    OneOverwrite();
    KeepNames();
    ShortNamesCarryNothing("/f", 1);
    NoDirRows();
    DirRowsAre(PLAN);
    var changes := KeepChanges();
    assert forall x | x in changes :: x == changes[0];
    assert NamesApart(OVERWRITE, PLAN, [], changes);
  }

  lemma OverwriteIsGood()
    ensures GoodTxn(OVERWRITE, KeepTxn())
  {
    hide IsPlan, IsDesired, Holders.PostHolders, TempPath;
    NoClaims();
    OverwritePlanned();
    var installed := [Installed("a", EMPTY_MANIFEST)];
    assert PLAN[0] in PLAN && forall q | q in PLAN :: q == PLAN[0];
    assert InstalledAfter(EMPTY_DB, PLAN, installed);
    assert Elements<string>([]) == {};
    assert HoldersFor(EMPTY_DB, PLAN, map[]);
    assert Transacts(OVERWRITE, PLAN, installed, map[], [], KeepTxn());
  }

  lemma UnownedIsAtRest()
    ensures AtRest(KeepRoot())
  {
    hide Carries, Dir;
    assert Dir("/f") == "/" by { KeepNames(); }
    forall i: TxnId
      ensures !Carries("/f", i)
    {
      ShortNamesCarryNothing("/f", i);
    }
    var none: seq<Installed> := [];
    var links: seq<Link> := [];
    assert InstalledIs(none, EMPTY_DB.packages) && RecordsExactly(EMPTY_DB.links, links);
    assert IsDesired(none, map[], links);
  }

  lemma OverwriteBegins()
    ensures Begin(KeepRoot(), KeepBegun()) && DirsClear(KeepRoot().tree, KeepBegun().journal.value.txn)
  {
    hide GoodTxn, TempPath, Carries, Dir, StagedRows, DirRows, Blocked, Above;
    OverwriteIsGood();
    KeepNames();
    NoDirRows();
    assert PlanContext(EMPTY_DB, KeepBegun().journal.value) == OVERWRITE;
    forall i: TxnId
      ensures !Carries("/f", i)
    {
      ShortNamesCarryNothing("/f", i);
    }
  }

  // The first root commits and the machine stops. Recovery completes the other one,
  // and discards the operator's file.
  lemma OverwriteIsLost() returns (run: seq<World>)
    ensures CrossRun(run) && run != [] && Quiescent(run[|run| - 1]) && |run[|run| - 1].parts| == 2
    ensures var a := run[|run| - 1].parts[1]; var b := TempPath("/f", BACKUP_MARKER, 1);
      && a.row == Pended && Settled(a, true).Some? && Settled(a, true).value.row == Committed
      && a.root.journal.Some? && b !in Discardable(PendingOps(a.root.journal.value))
      && b in a.root.tree && a.root.tree[b] == FileOps.File("u")
      && b !in Settled(a, true).value.root.tree
  {
    hide AtRest, Begin, OwnCommit, At, CrossRun, Quiescent, Machine, KeepBegun, DirsClear, Stranded, Settled, Standing;
    hide PartInv, TempPath;
    FreshBegins();
    UnownedIsAtRest();
    OverwriteBegins();
    var other := Part(KeepRoot(), NoRow, None);
    run := CommittedOnce(World([FRESH, other], Preparing(0)), [At(Begun), KeepBegun()]);
    OthersPend(run[|run| - 1].parts, [At(Begun), KeepBegun()], 1);
    var a := run[|run| - 1].parts[1];
    ReachedStanding(run);
    StrandedKeeps(run[|run| - 1].parts, [At(Begun), KeepBegun()]);
    LostBackup(a);
  }

  lemma ReachedStanding(run: seq<World>)
    requires CrossRun(run) && run != [] && |run[|run| - 1].parts| == 2 && Quiescent(run[|run| - 1])
    requires run[|run| - 1].parts[0].row == Committed && run[|run| - 1].parts[1].row == Pended
    ensures var a := run[|run| - 1].parts[1]; PartInv(a) && Standing(a) && a.root.mem == Idle
  {
    hide CrossRun, PartInv, FullyApplied;
    CrossRunsAreAtomic(run, |run| - 1, 0, 1);
    CrossRunKeepsInv(run, |run| - 1);
  }

  lemma StrandedKeeps(parts: seq<Part>, begun: seq<Root>)
    requires Stranded(parts, begun) && |begun| == 2 && begun[1] == KeepBegun()
    ensures parts[1].root.journal.Some? && parts[1].root.journal.value.txn == KeepTxn()
    ensures parts[1].root.journal.value.before == UNOWNED && parts[1].root.db == EMPTY_DB
  {
    hide Commit, ApplyAll, PayloadOfTxn, KeepTxn;
  }

  lemma LostBackup(a: Part)
    requires PartInv(a) && Standing(a) && a.root.mem == Idle && a.row == Pended && a.root.journal.Some?
    requires a.root.journal.value.txn == KeepTxn() && a.root.journal.value.before == UNOWNED && a.root.db == EMPTY_DB
    ensures var b := TempPath("/f", BACKUP_MARKER, 1);
      && Settled(a, true).Some? && Settled(a, true).value.row == Committed
      && b !in Discardable(PendingOps(a.root.journal.value))
      && b in a.root.tree && a.root.tree[b] == FileOps.File("u")
      && b !in Settled(a, true).value.root.tree
  {
    hide Inv, FullyApplied, PayloadFor, GoodTxn, Commit, Replay, Rebuilt, Discardable, TempPath;
    KeepNames();
    NewCommit();
    SettlesForward(a);
    RollForwardLoses(a);
    ReplayIsCommit(a);
    var ops := PendingOps(a.root.journal.value);
    assert KeepOp() in ops && ops == [KeepOp()];
    assert KeepOp().backupPath in KeptNames(ops);
    NoneDiscarded();
  }

  lemma NoneDiscarded()
    ensures Discardable([KeepOp()]) == {}
  {
    assert forall op | op in [KeepOp()] :: op == KeepOp();
  }
}
