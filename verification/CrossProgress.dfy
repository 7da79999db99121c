/** What a transaction over several roots can come to: every participant can vote,
    and whatever the executor has committed when it stops, recovery takes up. */
module CrossProgress {
  import opened Wrappers
  import opened FileOps
  import opened CreatedDirs
  import opened Undo
  import opened Patch
  import opened Metadata
  import opened Transactions
  import opened SingleRoot
  import opened SingleRootSafety
  import opened Progress
  import opened DirectoryEntries
  import opened SwapStops
  import opened CrossRoot
  import opened CrossRootSafety

  /** One participant. */

  function PayloadOfTxn(txn: Txn): CommitPayload
  {
    CommitPayload(PAYLOAD_VERSION,
                  seq(|txn.staged|, i requires 0 <= i < |txn.staged| => PayloadOf(txn.staged[i])), txn.work)
  }

  predicate CanFlip(t: Root)
  {
    && t.journal.Some?
    && ApplyAll(Content(t.journal.value), PendingOps(t.journal.value)[..|PendingOps(t.journal.value)|]).Some?
  }

  // A participant begun at `t`, once it has voted.
  function Voter(t: Root): Part
    requires CanFlip(t)
  {
    Part(Reached(t, |PendingOps(t.journal.value)|), Pended, Some(PayloadOfTxn(t.journal.value.txn)))
  }

  ghost predicate Prepares(run: seq<Part>, a: Part, b: Part)
  {
    && run != [] && run[0] == a && run[|run| - 1] == b
    && forall i | 0 <= i < |run| - 1 :: Prepare(run[i], run[i + 1])
  }

  // The same path with a row and, perhaps, a payload beside it.
  lemma Lifted(run: seq<Root>, s: Root, t: Root, cp: Option<CommitPayload>) returns (parts: seq<Part>)
    requires Path(run, s, t)
    ensures Prepares(parts, Part(s, Pended, cp), Part(t, Pended, cp))
  {
    hide Record, RecordDir, StageWrite, MakeDirs, StartApplying, ApplyOne, ApplyFirst, ApplySecond;
    parts := seq(|run|, i requires 0 <= i < |run| => Part(run[i], Pended, cp));
    forall i | 0 <= i < |parts| - 1
      ensures Prepare(parts[i], parts[i + 1])
    {
      assert Proceeds(run[i], run[i + 1]);
    }
  }

  lemma PreparesOn(a: seq<Part>, b: seq<Part>, x: Part, y: Part, z: Part, u: Part)
    requires Prepares(a, x, y) && Prepare(y, z) && Prepares(b, z, u)
    ensures Prepares(a + b, x, u)
  {
    hide Prepare;
    var run := a + b;
    forall i | 0 <= i < |run| - 1
      ensures Prepare(run[i], run[i + 1])
    {
      if i >= |a| { assert run[i] == b[i - |a|] && run[i + 1] == b[i - |a| + 1]; }
    }
  }

  // The four single steps between the paths: open, store, start staging.
  lemma SingleSteps(a: Part, t: Root)
    requires a.row == NoRow && Begin(a.root, t)
    ensures t.journal.Some?
    ensures var r, cp := Recorded(t), PayloadOfTxn(t.journal.value.txn);
      && Prepare(a, Part(t, Pended, None))
      && Prepare(Part(r, Pended, None), Part(r, Pended, Some(cp)))
      && Prepare(Part(r, Pended, Some(cp)), Part(r.(mem := Staging), Pended, Some(cp)))
  {
    hide GoodTxn, PayloadOf, CreatedFor;
    var r, cp := Recorded(t), PayloadOfTxn(t.journal.value.txn);
    assert PayloadFor(cp, t.journal.value.txn.staged, t.journal.value.txn.work);
    assert StorePayload(Part(r, Pended, None), Part(r, Pended, Some(cp)));
    assert StartStaging(r, r.(mem := Staging));
  }

  lemma EveryParticipantVotes(a: Part, t: Root) returns (run: seq<Part>)
    requires a.row == NoRow && AtRest(a.root) && Begin(a.root, t) && DirsClear(a.root.tree, t.journal.value.txn)
    ensures CanFlip(t) && Prepares(run, a, Voter(t)) && Voted(Voter(t))
  {
    hide AtRest, Inv, Begin, Prepare, ApplyAll, Path, PayloadOfTxn, DirsClear;
    RestIsInv(a.root);
    SameTree(a.root, t);
    SingleSteps(a, t);
    var r, cp := Recorded(t), Some(PayloadOfTxn(t.journal.value.txn));
    var n := |PendingOps(t.journal.value)|;
    var roots := RecordsBegun(a.root, t);
    var first := Lifted(roots, t, r, None);
    roots := StagesAndFlips(a.root, t, n);
    var last := Lifted(roots, r.(mem := Staging), Reached(t, n), cp);
    var b, c, d := Part(t, Pended, None), Part(r, Pended, None), Part(r, Pended, cp);
    PreparesOn([a], first, a, a, b, c);
    PreparesOn([a] + first, [d], a, c, d, d);
    PreparesOn([a] + first + [d], last, a, d, Part(r.(mem := Staging), Pended, cp), Voter(t));
    run := [a] + first + [d] + last;
  }

  /** All of them. */

  ghost predicate Course(run: seq<World>, w: World, v: World)
  {
    && run != [] && run[0] == w && run[|run| - 1] == v
    && forall i | 0 <= i < |run| - 1 :: CrossNext(run[i], run[i + 1]) && !Blind(run[i], run[i + 1])
  }

  lemma CourseOn(a: seq<World>, b: seq<World>, w: World, v: World, x: World, y: World)
    requires Course(a, w, v) && CrossNext(v, x) && !Blind(v, x) && Course(b, x, y)
    ensures Course(a + b, w, y)
  {
    hide CrossNext, Blind;
    var run := a + b;
    forall i | 0 <= i < |run| - 1
      ensures CrossNext(run[i], run[i + 1]) && !Blind(run[i], run[i + 1])
    {
      if i >= |a| { assert run[i] == b[i - |a|] && run[i + 1] == b[i - |a| + 1]; }
    }
  }

  lemma OnePrepares(run: seq<Part>, w: World, i: nat, b: Part) returns (worlds: seq<World>)
    requires w.exec == Preparing(i) && i < |w.parts| && Prepares(run, w.parts[i], b)
    ensures Course(worlds, w, w.(parts := w.parts[i := b]))
  {
    hide Prepare;
    worlds := seq(|run|, j requires 0 <= j < |run| => w.(parts := w.parts[i := run[j]]));
    assert w.parts[i := run[0]] == w.parts;
    forall j | 0 <= j < |worlds| - 1
      ensures CrossNext(worlds[j], worlds[j + 1]) && !Blind(worlds[j], worlds[j + 1])
    {
      assert PrepareStep(worlds[j], worlds[j + 1]);
    }
  }

  ghost predicate Begins(parts: seq<Part>, begun: seq<Root>, i: nat)
  {
    && |parts| == |begun| && i <= |parts|
    && (forall j | 0 <= j < i :: CanFlip(begun[j]) && parts[j] == Voter(begun[j]))
    && (forall j | i <= j < |parts| :: parts[j].row == NoRow && AtRest(parts[j].root) && Begin(parts[j].root, begun[j])
                                       && DirsClear(parts[j].root.tree, begun[j].journal.value.txn))
  }

  lemma {:induction false} AllVote(w: World, begun: seq<Root>, i: nat) returns (run: seq<World>, v: World)
    requires Begins(w.parts, begun, i) && i < |w.parts| && w.exec == Preparing(i)
    ensures Course(run, w, v) && v.exec == Committing(0) && Begins(v.parts, begun, |begun|)
    decreases |w.parts| - i
  {
    hide Course, AtRest, Begin, CrossNext, Blind, Prepares, Voted, DirsClear;
    var part := EveryParticipantVotes(w.parts[i], begun[i]);
    hide Voter, CanFlip;
    var first := OnePrepares(part, w, i, Voter(begun[i]));
    var u := w.(parts := w.parts[i := Voter(begun[i])]);
    var x := NextRoot(u, i);
    if i + 1 == |w.parts| {
      v := x;
      StandsStill(x);
      CourseOn(first, [x], w, u, x, x);
      run := first + [x];
    } else {
      var more;
      more, v := AllVote(x, begun, i + 1);
      CourseOn(first, more, w, u, x, v);
      run := first + more;
    }
  }

  lemma NextRoot(u: World, i: nat) returns (x: World)
    requires u.exec == Preparing(i) && i < |u.parts| && Voted(u.parts[i])
    ensures CrossNext(u, x) && !Blind(u, x) && x.parts == u.parts
    ensures x.exec == if i + 1 == |u.parts| then Committing(0) else Preparing(i + 1)
  {
    hide Voted;
    x := u.(exec := if i + 1 == |u.parts| then Committing(0) else Preparing(i + 1));
    assert PrepareNext(u, x);
  }

  lemma StandsStill(w: World)
    ensures Course([w], w, w)
  {
  }

  /** The executor commits the first root and dies. */

  function Orphan(t: Root): Part
    requires CanFlip(t)
  {
    Voter(t).(root := Voter(t).root.(mem := Idle))
  }

  function Survivor(t: Root): Part
    requires CanFlip(t) && OwnCommit(t).Some?
  {
    Part(Closed(t, |PendingOps(t.journal.value)|).(mem := Idle), Committed, Voter(t).payload)
  }

  ghost predicate Stranded(parts: seq<Part>, begun: seq<Root>)
  {
    && |parts| == |begun| && begun != []
    && CanFlip(begun[0]) && OwnCommit(begun[0]).Some? && parts[0] == Survivor(begun[0])
    && forall j | 0 < j < |parts| :: CanFlip(begun[j]) && parts[j] == Orphan(begun[j])
  }

  lemma CommitsAndDies(v: World, begun: seq<Root>) returns (x: World, y: World)
    requires begun != [] && Begins(v.parts, begun, |begun|) && v.exec == Committing(0) && OwnCommit(begun[0]).Some?
    ensures CrossNext(v, x) && !Blind(v, x) && CrossNext(x, y) && !Blind(x, y)
    ensures y.exec == Down && Stranded(y.parts, begun)
  {
    hide Commit, ApplyAll, PayloadOfTxn;
    var n := |PendingOps(begun[0].journal.value)|;
    var a := Part(Closed(begun[0], n), Committed, v.parts[0].payload);
    FirstCommits(begun[0]);
    x := v.(parts := v.parts[0 := a]);
    assert CommitStep(v, x);
    var parts := seq(|begun|, j requires 0 <= j < |begun| => if j == 0 then Survivor(begun[0]) else Orphan(begun[j]));
    y := World(parts, Down);
    forall j | 0 <= j < |begun|
      ensures Crash(x.parts[j].root, y.parts[j].root) && y.parts[j] == x.parts[j].(root := y.parts[j].root)
    {
    }
    assert CrashAll(x, y);
  }

  lemma FirstCommits(t: Root)
    requires CanFlip(t) && OwnCommit(t).Some?
    ensures CommitPart(Voter(t), Part(Closed(t, |PendingOps(t.journal.value)|), Committed, Voter(t).payload))
  {
    hide Commit, ApplyAll, PayloadOfTxn;
    var n := |PendingOps(t.journal.value)|;
    assert CommitDb(Reached(t, n), Closed(t, n));
  }

  // For any participants at rest and any good transactions whose listed directories
  // are clear there is a run that ends with the first one committed and every other
  // one complete and pending.
  lemma CommittedOnce(w: World, begun: seq<Root>) returns (run: seq<World>)
    requires CrossStart(w) && Begins(w.parts, begun, 0)
    requires begun[0].journal.Some? && OwnCommit(begun[0]).Some?
    ensures CrossRun(run) && run != [] && run[0] == w
    ensures run[|run| - 1].exec == Down && Stranded(run[|run| - 1].parts, begun) && Quiescent(run[|run| - 1])
  {
    hide CrossNext, Blind, Begins, CrossStart, Stranded;
    StartsThere(w);
    var first, v := AllVote(w, begun, 0);
    assert |begun| == |w.parts| by { BegunEach(w, begun); }
    var x, y := CommitsAndDies(v, begun);
    StandsStill(x);
    StandsStill(y);
    CourseOn([x], [y], x, x, y, y);
    CourseOn(first, [x] + [y], w, v, x, y);
    run := first + ([x] + [y]);
    StrandedIdle(y, begun);
  }

  lemma StartsThere(w: World)
    requires CrossStart(w)
    ensures w.parts != [] && w.exec == Preparing(0)
  {
    hide AtRest;
  }

  lemma BegunEach(w: World, begun: seq<Root>)
    requires Begins(w.parts, begun, 0)
    ensures |begun| == |w.parts|
  {
    hide AtRest, Begin, DirsClear;
  }

  lemma StrandedIdle(w: World, begun: seq<Root>)
    requires w.exec == Down && Stranded(w.parts, begun)
    ensures Quiescent(w)
  {
    hide Closed, Reached, PayloadOfTxn;
  }

  // No recovery with this reach finishes.
  ghost predicate Unfinishable(parts: seq<Part>, reach: set<nat>) { !exists after :: Reconciled(parts, reach, after) }

  // Where the database would refuse another participant, no recovery that reaches
  // it and the committed one ever finishes.
  lemma RefusedCommitBlocks(w: World, begun: seq<Root>, j: nat) returns (run: seq<World>)
    requires CrossStart(w) && Begins(w.parts, begun, 0) && 0 < j < |begun|
    requires begun[0].journal.Some? && OwnCommit(begun[0]).Some?
    requires begun[j].journal.Some? && OwnCommit(begun[j]).None?
    ensures CrossRun(run) && run != [] && run[0] == w && Quiescent(run[|run| - 1])
    ensures forall reach: set<nat> | 0 in reach && j in reach ::
              Unfinishable(run[|run| - 1].parts, reach)
  {
    hide CrossRun, Begins, CrossStart, Quiescent, Reconciled, OwnCommit;
    run := CommittedOnce(w, begun);
    var last := run[|run| - 1];
    SameCommit(last.parts, begun, j);
    forall reach: set<nat> | 0 in reach && j in reach
      ensures Unfinishable(last.parts, reach)
    {
      RecoveryCanFinish(run, |run| - 1, reach);
      assert SeesCommit(last.parts, reach) && !AllTaken(last.parts, reach);
    }
  }

  lemma SameCommit(parts: seq<Part>, begun: seq<Root>, j: nat)
    requires Stranded(parts, begun) && 0 < j < |begun|
    ensures parts[0].row == Committed && parts[j].row == Pended
    ensures parts[j].root.journal.Some? && OwnCommit(parts[j].root) == OwnCommit(begun[j])
  {
    hide Commit, Closed, PayloadOfTxn;
  }

  // And one that reaches another participant without the committed one tears the
  // transaction.
  lemma UnreachableCommitTears(w: World, begun: seq<Root>, j: nat) returns (run: seq<World>, after: seq<Part>)
    requires CrossStart(w) && Begins(w.parts, begun, 0) && 0 < j < |begun|
    requires begun[0].journal.Some? && OwnCommit(begun[0]).Some?
    ensures CrossRun(run) && run != [] && run[0] == w && Quiescent(run[|run| - 1])
    ensures Reconciled(run[|run| - 1].parts, {j}, after) && Torn(after)
  {
    hide CrossRun, Begins, CrossStart, Quiescent, OwnCommit, Torn;
    run := CommittedOnce(w, begun);
    var last := run[|run| - 1];
    OthersPend(last.parts, begun, j);
    assert |w.parts| == |begun| by { BegunEach(w, begun); }
    OtherCleans(w, begun, j, last.parts);
    RecoveryCanFinish(run, |run| - 1, {j});
    assert !SeesCommit(last.parts, {j});
    after :| Reconciled(last.parts, {j}, after);
    TornExactly(run, |run| - 1, after, {j});
  }

  // What a complete participant has noted can always be cleaned up.
  lemma OtherCleans(w: World, begun: seq<Root>, j: nat, parts: seq<Part>)
    requires CrossStart(w) && Begins(w.parts, begun, 0) && 0 < j < |begun| && Stranded(parts, begun)
    ensures AllClean(parts, {j})
  {
    hide AtRest, Begin, DirsClear, ApplyAll, PayloadOfTxn, CleansUp, OwnCommit;
    StrandedJournal(parts, begun, j);
    var s, t := w.parts[j].root, begun[j];
    CleansWhenBegun(s, t, parts[j].root.dirs);
    hide Recorded;
  }

  lemma StrandedJournal(parts: seq<Part>, begun: seq<Root>, j: nat)
    requires Stranded(parts, begun) && 0 < j < |begun|
    ensures begun[j].journal.Some? && parts[j].root.journal == Recorded(begun[j]).journal
  {
    hide Commit, ApplyAll, PayloadOfTxn;
  }

  lemma CleansWhenBegun(s: Root, t: Root, dirs: set<string>)
    requires AtRest(s) && Begin(s, t) && DirsClear(s.tree, t.journal.value.txn)
    ensures var p := Recorded(t).journal.value; CleansUp(p.before, dirs, p.dirRows)
  {
    hide AtRest, GoodTxn, DirsClear, Blocked, CleansUp, CreatedFor;
    var p := t.journal.value;
    NotedExactly(PlanContext(s.db, p), p.txn, p.created);
    UnblockedCleansUp(s.tree, dirs, p.created);
  }

  // A participant stopped inside a swap, which `CrashAll` leaves out: a recovery that
  // rolls it back gives its prior tree but for the link swapped in, and its disk
  // matches its rows exactly when nothing managed was displaced or the links are one.
  lemma ParticipantMidSwap(run: seq<World>, k: nat, i: nat)
    requires CrossRun(run) && k < |run| && i < |run[k].parts| && MidSwap(run[k].parts[i].root)
    ensures var a := run[k].parts[i]; var s := a.root; var p := s.journal.value;
      var path := PendingOps(p)[s.mem.done].finalPath; var b := Settled(a.(root := s.(mem := Idle)), false);
      && path in p.before && path in s.tree
      && (a.row == Pended && b.Some? ==>
           && b.value.row == RolledBack && b.value.root.tree == p.before[path := s.tree[path]]
           && (Agree(b.value.root.tree, b.value.root.db) <==>
               (Managed(s.db, path) ==> s.tree[path] == p.before[path])))
  {
    hide CrossRun, Inv, Agree, Managed, Rebuild, UndoAll, CleansUp, FullyApplied;
    CrossRunKeepsInv(run, k);
    var a := run[k].parts[i];
    assert PartInv(a);
    StateMidSwap(a.root);
    StateAgrees(a.root);
  }

  lemma OthersPend(parts: seq<Part>, begun: seq<Root>, j: nat)
    requires Stranded(parts, begun) && 0 < j < |begun|
    ensures parts[0].row == Committed && parts[j].row == Pended && |parts| == |begun|
  {
    hide Commit, Closed, PayloadOfTxn;
  }
}
