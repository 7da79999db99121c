/** A claim moved from one package to another, stopped between the exchange and the
    rename of its link: after the rollback the disk shows the new holder, the
    database the old one. */
module ClaimWitness {
  import opened Wrappers
  import opened Sorting
  import opened TempNames
  import opened FileOps
  import opened Lookups
  import opened Undo
  import opened Claims
  import opened Tables
  import opened Metadata
  import opened ClaimTables
  import opened Planning
  import opened Patch
  import opened Transactions
  import opened SingleRoot
  import opened SingleRootSafety
  import opened SwapStops
  import RelativeLinks

  function Offer(target: string): Manifest { Manifest([Provide("r", map["s" := ClaimSlot("/l", target)])], [], []) }

  const ONE := Link("/l", "r", "s", "/x")
  const OTHER := Link("/l", "r", "s", "/y")
  const BOTH := [Installed("a", Offer("/x")), Installed("b", Offer("/y"))]
  const HELD_DB := Db(map["a" := Pkg("a", "1-1", Offer("/x")), "b" := Pkg("b", "1-1", Offer("/y"))], map[],
                      map["r" := "a"], map["/l" := ONE])
  const MOVED := ClaimWork(map["r" := "b"], [], ["/l"], [OTHER])

  function HeldTree(): Tree { map["/l" := LinkEntry(ONE)] }

  function HeldContext(): Context { Context(HeldTree(), {"/"}, HELD_DB, 1, false) }

  function SwapOp(): FileOp
  {
    FileOp("/l", Swap, TempPath("/l", STAGED_MARKER, 1), TempPath("/l", BACKUP_MARKER, 1), false, true)
  }

  function SwapChanges(): seq<Change> { [Change(SwapOp(), LinkEntry(OTHER))] }

  function SwapTxn(): Txn { Txn(SwapChanges(), [], MOVED) }

  function HeldRoot(): Root { Root(HeldTree(), {"/"}, HELD_DB, 1, None, Idle) }

  function SwapBegun(): Root
  {
    Root(HeldTree(), {"/"}, HELD_DB, 2, Some(Pending(1, [], [], HeldTree(), {"/"}, false, SwapTxn(), [])), Journalling)
  }

  lemma Found(name: string)
    ensures Find(BOTH, name) ==
            if name == "a" then Some(Offer("/x")) else if name == "b" then Some(Offer("/y")) else None
  {
    var one := [Installed("a", Offer("/x"))];
    assert BOTH[..1] == one && one[..0] == [];
    assert Find(one, name) == if name == "a" then Some(Offer("/x")) else None;
  }

  // Whoever holds the role, its one link is wanted.
  lemma HeldLink(holder: string, l: Link)
    requires (holder == "a" && l == ONE) || (holder == "b" && l == OTHER)
    ensures IsDesired(BOTH, map["r" := holder], [l])
  {
    Found(holder);
    var slots := map["s" := ClaimSlot("/l", l.target)];
    assert ProvidesFor(Offer(l.target).provided, "r") == slots;
    assert forall p, role, slot | p in BOTH :: ConsumerPaths(p.manifest, role, slot) == {};
    assert forall path :: PathFor(BOTH, slots["s"], "r", "s", path) <==> path == "/l";
    forall k: Link
      ensures k in [l] <==> Wanted(BOTH, map["r" := holder], k)
    {
      assert k in [l] <==> k == l;
    }
  }

  lemma LinksDiffer()
    ensures LinkEntry(ONE) != LinkEntry(OTHER)
  {
    OneComponent('l');
    OneComponent('x');
    OneComponent('y');
    assert ["l"][..0] == [];
    hide RelativeLinks.Components;
    assert RelativeLinks.Rel([], ["x"]) == ["x"] && RelativeLinks.Rel([], ["y"]) == ["y"];
  }

  lemma OneComponent(c: char)
    requires c != '/'
    ensures RelativeLinks.Components(['/', c]) == [[c]]
  {
    assert ['/', c][1..] == [c] && [c][1..] == [] && [] + [c] == [c];
    assert RelativeLinks.ComponentsFrom([], [c]) == [[c]];
    assert RelativeLinks.ComponentsFrom([c], []) == [[c]];
  }

  lemma OneSwap()
    ensures Accepted(HeldContext(), [], [OTHER])
    ensures forall x :: x in SwapChanges() <==> IsChange(HeldContext(), [], [OTHER], x)
  {
    hide TempPath, LinkEntry;
    var c := HeldContext();
    assert Owners(HELD_DB, "/l") == {};
    assert ClaimChange(c, OTHER) == Some(SwapChanges()[0]);
    assert OTHER in [OTHER] && forall l | l in [OTHER] :: l == OTHER;
    assert PathSet([OTHER]) == {"/l"};
    assert PostOwned(HELD_DB, []) == {};
    SiblingNotAbove("/l", "/l");
    assert !LinkRefused(c, {}, OTHER);
    forall x
      ensures x in SwapChanges() <==> IsChange(c, [], [OTHER], x)
    {
      assert FromClaims(c, [OTHER], SwapChanges()[0]);
      assert x in SwapChanges() <==> x == SwapChanges()[0];
    }
  }

  lemma SwapNames()
    ensures Dir("/l") == "/" && Ops(SwapChanges()) == [SwapOp()] && NeededDirs([SwapOp()]) == {"/"}
    ensures Names(SwapOp()) == {"/l", TempPath("/l", STAGED_MARKER, 1), TempPath("/l", BACKUP_MARKER, 1)}
    ensures forall p | p in Names(SwapOp()) :: !Above(p, "/l")
  {
    hide TempPath, Above, Base, Kept, Suffix;
    SplitSibling("/", "l");
    assert "/" + "l" == "/l";
    hide Dir;
    assert forall q | q in [SwapOp()] :: q == SwapOp();
    assert SwapOp() in [SwapOp()];
    TempPathIsSibling("/l", STAGED_MARKER, 1);
    TempPathIsSibling("/l", BACKUP_MARKER, 1);
    SiblingNotAbove("/l", "/l");
    SiblingNotAbove(TempPath("/l", STAGED_MARKER, 1), "/l");
    SiblingNotAbove(TempPath("/l", BACKUP_MARKER, 1), "/l");
  }

  lemma SwapPlanned()
    ensures IsPlan(HeldContext(), [], [OTHER], SwapChanges())
  {
    hide TempPath, Carries, IsChange, Accepted, Above, Dir, Base, LinkEntry;
    OneSwap();
    SwapNames();
    ShortNamesCarryNothing("/l", 1);
    var changes := SwapChanges();
    assert forall x | x in changes :: x == changes[0];
    assert NamesApart(HeldContext(), [], [OTHER], changes);
  }

  lemma Granted()
    ensures ClaimPost(HELD_DB, ClaimRequest("r", "b")) == Some(map["r" := "b"])
  {
    var p := Offer("/y").provided[0];
    assert p in Offer("/y").provided && p.name == "r" && "s" in p.claims && p.claims["s"].target != "";
    assert HELD_DB.packages["b"].manifest == Offer("/y");
    assert HELD_DB.holders["r" := "b"] == map["r" := "b"];
  }

  lemma BothInstalled()
    ensures InstalledIs(BOTH, HELD_DB.packages) && InstalledAfter(HELD_DB, [], BOTH)
  {
    hide Offer;
    assert PlanNames([]) == {};
  }

  lemma SwapIsGood()
    ensures GoodTxn(HeldContext(), SwapTxn())
  {
    hide IsPlan, IsDesired, TempPath, LinkEntry, InstalledAfter, ClaimPost;
    HeldLink("b", OTHER);
    SwapPlanned();
    Granted();
    BothInstalled();
    var post := map["r" := "b"];
    assert HoldersFor(HELD_DB, [], post);
    assert Elements<string>([]) == {} && Elements(["/l"]) == {"/l"};
    assert WorkFor(HELD_DB, MOVED, post, [OTHER]);
    assert StagedRows([]) == [];
    assert Transacts(HeldContext(), [], BOTH, post, [OTHER], SwapTxn());
  }

  lemma HeldDesired()
    ensures LinksDesired(HELD_DB)
  {
    hide IsDesired, LinkEntry, InstalledIs, Offer;
    HeldLink("a", ONE);
    BothInstalled();
    assert PathSet([ONE]) == {"/l"};
    assert RecordsExactly(HELD_DB.links, [ONE]);
  }

  lemma HeldValid()
    ensures ValidDb(HELD_DB)
  {
    hide Offer;
  }

  lemma HeldIsAtRest()
    ensures AtRest(HeldRoot())
  {
    hide Carries, LinkEntry, Offer, Dir, LinksDesired, ValidDb;
    HeldDesired();
    HeldValid();
    assert Dir("/l") == "/" by { SwapNames(); }
    forall i: TxnId
      ensures !Carries("/l", i)
    {
      ShortNamesCarryNothing("/l", i);
    }
  }

  lemma SwapBegins()
    ensures Begin(HeldRoot(), SwapBegun())
  {
    hide GoodTxn, TempPath, Carries, LinkEntry, Dir;
    SwapIsGood();
    SwapNames();
    assert PlanContext(HELD_DB, SwapBegun().journal.value) == HeldContext();
    forall i: TxnId
      ensures !Carries("/l", i)
    {
      ShortNamesCarryNothing("/l", i);
    }
  }

  // A run that stops there: recovery closes the transaction with the new link on
  // the disk and the old holder in the database.
  lemma MovedClaimIsLost() returns (run: seq<Root>)
    ensures Run(run) && AtRest(run[0]) && MidSwap(run[|run| - 1])
    ensures var e := run[|run| - 1];
      && Rebuild(e.journal.value.rows, e.tree, e.dirs).Some?
      && (forall op | op in Rebuild(e.journal.value.rows, e.tree, e.dirs).value :: Distinct(op))
      && !Agree(UndoAll(e.tree, Rebuild(e.journal.value.rows, e.tree, e.dirs).value), e.db)
  {
    hide AtRest, Begin, Run, Agree, Rebuild, MidSwap, LinkEntry, TempPath;
    HeldIsAtRest();
    SwapBegins();
    LinksDiffer();
    assert DirsClear(HeldTree(), SwapTxn()) by { assert DirRows([]) == {}; }
    run := AgreementCanBeLost(HeldRoot(), SwapBegun(), 0);
  }
}
