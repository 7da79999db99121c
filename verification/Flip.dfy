/** What a completed flip leaves at every name. */
module Flip {
  import opened Wrappers
  import opened FileOps
  import opened Undo

  // Staging has put something at every staged name.
  ghost predicate FullyStaged(before: Tree, staged: Tree, ops: seq<FileOp>)
  {
    StagedOver(before, staged, ops) && AllStaged(ops) <= staged.Keys
  }

  // The operation's effect: the new entry at its path (or nothing, for a removal),
  // the original at the backup name, no staged entry left.
  predicate Done(before: Tree, staged: Tree, now: Tree, op: FileOp)
  {
    && (if op.action == Remove then op.finalPath !in now
        else op.finalPath in now && op.stagedPath in staged
             && now[op.finalPath] == staged[op.stagedPath] && op.stagedPath !in now)
    && (op.action != Create ==>
          if op.finalPath in before then op.backupPath in now && now[op.backupPath] == before[op.finalPath]
          else op.backupPath !in now)
  }

  ghost predicate Waiting(staged: Tree, now: Tree, op: FileOp)
  {
    forall p | p in Names(op) :: SameAt(staged, now, p)
  }

  ghost predicate Progress(before: Tree, staged: Tree, now: Tree, ops: seq<FileOp>, k: nat)
  {
    && (forall j | 0 <= j < k <= |ops| :: Done(before, staged, now, ops[j]))
    && (forall j | k <= j < |ops| :: Waiting(staged, now, ops[j]))
    && (forall p | p !in AllNames(ops) :: SameAt(before, now, p))
  }

  // A separated, planned and fully staged list of operations always applies, and
  // its result is exact at every path.
  lemma {:induction false} FlipIsExact(before: Tree, staged: Tree, ops: seq<FileOp>, k: nat)
    requires k <= |ops| && Separated(ops) && AllPlanned(before, ops) && FullyStaged(before, staged, ops)
    ensures ApplyAll(staged, ops[..k]).Some?
    ensures Progress(before, staged, ApplyAll(staged, ops[..k]).value, ops, k)
  {
    if k == 0 {
      assert forall op, p | op in ops && p in Staged(op) :: p in Names(op);
    } else {
      FlipIsExact(before, staged, ops, k - 1);
      assert ops[..k][..k - 1] == ops[..k - 1];
      var u := ApplyAll(staged, ops[..k - 1]).value;
      var op := ops[k - 1];
      assert op in ops && Waiting(staged, u, op);
      StagedAtPlan(before, staged, ops, k - 1);
      assert Ready(u, op) by {
        assert op.finalPath in Names(op);
        assert op.action != Remove ==> op.stagedPath in Names(op);
      }
      OneFlip(before, staged, u, op);
      OneMore(before, staged, u, Applied(u, op), ops, k - 1);
    }
  }

  lemma OneMore(before: Tree, staged: Tree, u: Tree, v: Tree, ops: seq<FileOp>, i: nat)
    requires i < |ops| && Separated(ops) && Progress(before, staged, u, ops, i)
    requires Done(before, staged, v, ops[i]) && forall p | p !in Names(ops[i]) :: SameAt(u, v, p)
    ensures Progress(before, staged, v, ops, i + 1)
  {
    var op := ops[i];
    forall j | 0 <= j < |ops| && j != i
      ensures j < i ==> Done(before, staged, v, ops[j])
      ensures j > i ==> Waiting(staged, v, ops[j])
    {
      assert Names(ops[j]) !! Names(op);
      assert ops[j].finalPath in Names(ops[j]);
      assert ops[j].action != Remove ==> ops[j].stagedPath in Names(ops[j]);
      assert ops[j].action != Create ==> ops[j].backupPath in Names(ops[j]);
    }
    assert op in ops;
    assert forall p | p in Names(op) :: p in AllNames(ops);
  }

  // Before the flip the final path is as planned and the backup name is free.
  lemma StagedAtPlan(before: Tree, staged: Tree, ops: seq<FileOp>, i: nat)
    requires i < |ops| && Separated(ops) && AllPlanned(before, ops) && FullyStaged(before, staged, ops)
    ensures SameAt(before, staged, ops[i].finalPath)
    ensures ops[i].action != Create ==> ops[i].backupPath !in staged
    ensures ops[i].action != Remove ==> ops[i].stagedPath in staged
  {
    NotStaged(ops, i);
    var op := ops[i];
    assert op in ops && Planned(before, op);
    assert op.action != Create ==> op.backupPath in Backup(op) && SameAt(before, staged, op.backupPath);
    assert op.action != Remove ==> op.stagedPath in Staged(op) && op.stagedPath in AllStaged(ops);
  }

  lemma OneFlip(before: Tree, staged: Tree, now: Tree, op: FileOp)
    requires Distinct(op) && Planned(before, op) && Ready(now, op) && Waiting(staged, now, op)
    requires SameAt(before, staged, op.finalPath)
    requires op.action != Create ==> op.backupPath !in staged
    requires op.action != Remove ==> op.stagedPath in staged
    ensures Done(before, staged, Applied(now, op), op)
    ensures forall p | p !in Names(op) :: SameAt(now, Applied(now, op), p)
  {
    assert SameAt(staged, now, op.finalPath);
    assert op.action != Create ==> SameAt(staged, now, op.backupPath);
    assert op.action != Remove ==> SameAt(staged, now, op.stagedPath);
  }

  // The whole flip.
  lemma FlipResult(before: Tree, staged: Tree, ops: seq<FileOp>)
    requires Separated(ops) && AllPlanned(before, ops) && FullyStaged(before, staged, ops)
    ensures ApplyAll(staged, ops).Some?
    ensures Progress(before, staged, ApplyAll(staged, ops).value, ops, |ops|)
  {
    FlipIsExact(before, staged, ops, |ops|);
    assert ops[..|ops|] == ops;
  }
}
