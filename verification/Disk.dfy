/** The renames themselves, driven step by step (internal/install/files.go).
    Any of them may fail for reasons of the operating system, so success is
    a result, never a certainty. */
module Disks {
  import opened Wrappers
  import opened FileOps
  import opened Undo

  class Disk {
    var tree: Tree

    constructor (t: Tree)
      ensures tree == t
    {
      tree := t;
    }

    method Rename(from: string, to: string) returns (ok: bool)
      modifies this
      ensures ok ==> from in old(tree) && tree == Move(old(tree), from, to)
      ensures !ok ==> tree == old(tree)
    {
      if * { return false; }
      if from !in tree { return false; }
      tree := (tree - {from})[to := tree[from]];
      return true;
    }

    method Exchange(a: string, b: string) returns (ok: bool)
      modifies this
      ensures ok ==> a in old(tree) && b in old(tree) && tree == Exchanged(old(tree), a, b)
      ensures !ok ==> tree == old(tree)
    {
      if * { return false; }
      if a !in tree || b !in tree { return false; }
      tree := tree[a := tree[b]][b := tree[a]];
      return true;
    }

    method RemoveIfExists(p: string) returns (ok: bool)
      modifies this
      ensures tree == if ok then old(tree) - {p} else old(tree)
    {
      if * { return false; }
      tree := tree - {p};
      return true;
    }

    // Write a staged file: it fails when anything is there already, and when it
    // fails part way it leaves a partial file behind.
    method Stage(p: string, e: Entry) returns (ok: bool)
      modifies this
      ensures ok ==> p !in old(tree) && tree == old(tree)[p := e]
      ensures !ok ==> tree == old(tree) || (p !in old(tree) && p in tree && tree == old(tree)[p := tree[p]])
    {
      if p in tree { return false; }
      if * {
        var part: Entry := *;
        tree := tree[p := part];
        return false;
      }
      tree := tree[p := e];
      return true;
    }

    method CommitOp(op: FileOp) returns (ok: bool)
      requires Distinct(op)
      modifies this
      ensures ok ==> Ready(old(tree), op) && tree == Applied(old(tree), op)
      ensures !ok ==> tree == old(tree) || (CanStart(old(tree), op) && tree == Halfway(old(tree), op))
    {
      if !op.pinned {
        return op.action == Remove;
      }
      match op.action {
        case Create =>
          ok := Rename(op.stagedPath, op.finalPath);
        case Replace =>
          ok := Rename(op.finalPath, op.backupPath);
          if !ok { return false; }
          ok := Rename(op.stagedPath, op.finalPath);
        case Remove =>
          if op.finalPath !in tree { return true; }
          ok := Rename(op.finalPath, op.backupPath);
        case Swap =>
          ok := Exchange(op.stagedPath, op.finalPath);
          if !ok { return false; }
          ok := Rename(op.stagedPath, op.backupPath);
      }
    }

    // The atomic flip: all the operations, or a stop somewhere inside.
    method CommitOps(ops: seq<FileOp>) returns (ok: bool)
      requires forall op | op in ops :: Distinct(op)
      modifies this
      ensures ok ==> ApplyAll(old(tree), ops) == Some(tree)
      ensures !ok ==> StoppedInside(old(tree), ops, tree)
    {
      for i := 0 to |ops|
        invariant ApplyAll(old(tree), ops[..i]) == Some(tree)
      {
        ok := CommitOp(ops[i]);
        if !ok {
          assert StoppedAt(old(tree), ops, i, tree);
          return false;
        }
        assert ops[..i + 1][..i] == ops[..i];
      }
      assert ops[..|ops|] == ops;
      return true;
    }

    method RollbackOp(op: FileOp, ghost before: Tree, ghost ops: seq<FileOp>) returns (ok: bool)
      requires Distinct(op) && op in ops
      modifies this
      ensures ok ==> tree == UndoOp(old(tree), op)
      ensures KeepsUndoable(before, old(tree), tree, ops)
    {
      if !op.pinned { return true; }
      if op.action != Create && op.backupPath in tree {
        ok := Removed(op.finalPath, op, before, ops);
        if !ok { return false; }
        ghost var cleared := tree;
        ok := Rename(op.backupPath, op.finalPath);
        if !ok { return false; }
        EffectKeeps(before, cleared, tree, op, ops);
      }
      if op.action == Create {
        ok := Removed(op.finalPath, op, before, ops);
        if !ok { return false; }
      }
      if op.action != Remove {
        ok := Removed(op.stagedPath, op, before, ops);
        return ok;
      }
      return true;
    }

    method Removed(p: string, op: FileOp, ghost before: Tree, ghost ops: seq<FileOp>) returns (ok: bool)
      requires op in ops && RollbackEffect(tree, tree - {p}, op)
      modifies this
      ensures tree == if ok then old(tree) - {p} else old(tree)
      ensures KeepsUndoable(before, old(tree), tree, ops)
    {
      ok := RemoveIfExists(p);
      if ok { EffectKeeps(before, old(tree), tree, op, ops); }
    }

    // Undo in reverse, every operation attempted even when one fails. However
    // it ends, the transaction is still undoable.
    method RollbackOps(ops: seq<FileOp>, ghost before: Tree) returns (ok: bool)
      requires forall op | op in ops :: Distinct(op)
      modifies this
      ensures ok ==> tree == UndoAll(old(tree), ops)
      ensures KeepsUndoable(before, old(tree), tree, ops)
      ensures ok && Separated(ops) && AllPlanned(before, ops) && Undoable(before, old(tree), ops) ==> tree == before
    {
      ok := true;
      var i := |ops|;
      assert ops[..i] == ops;
      while i > 0
        invariant 0 <= i <= |ops|
        invariant ok ==> UndoAll(old(tree), ops) == UndoAll(tree, ops[..i])
        invariant KeepsUndoable(before, old(tree), tree, ops)
      {
        i := i - 1;
        assert ops[..i + 1][..i] == ops[..i];
        var one := RollbackOp(ops[i], before, ops);
        ok := ok && one;
      }
      if Separated(ops) && AllPlanned(before, ops) && Undoable(before, old(tree), ops) {
        UndoRestores(before, old(tree), ops);
      }
    }

    // After the commit: the backups go, except those the operator was promised.
    // A removal that fails is only a warning.
    method DiscardBackups(ops: seq<FileOp>) returns (warnings: nat)
      modifies this
      ensures forall p | p !in Discardable(ops) :: SameAt(old(tree), tree, p)
      ensures tree.Keys <= old(tree).Keys
      ensures warnings == 0 ==> tree == old(tree) - Discardable(ops)
    {
      warnings := 0;
      for i := 0 to |ops|
        invariant forall p | p !in Discardable(ops[..i]) :: SameAt(old(tree), tree, p)
        invariant tree.Keys <= old(tree).Keys
        invariant warnings == 0 ==> tree == old(tree) - Discardable(ops[..i])
      {
        assert ops[..i + 1] == ops[..i] + [ops[i]];
        DiscardableSnoc(ops[..i], ops[i]);
        if ops[i].action != Create && !ops[i].keepBackup && ops[i].pinned {
          var ok := RemoveIfExists(ops[i].backupPath);
          if !ok { warnings := warnings + 1; }
        }
      }
      assert ops[..|ops|] == ops;
    }
  }

  // Where a failed flip leaves the tree.
  ghost predicate StoppedInside(start: Tree, ops: seq<FileOp>, now: Tree)
  {
    exists i :: 0 <= i < |ops| && StoppedAt(start, ops, i, now)
  }

  ghost predicate StoppedAt(start: Tree, ops: seq<FileOp>, i: nat, now: Tree)
    requires i < |ops|
  {
    ApplyAll(start, ops[..i]).Some? &&
    var u := ApplyAll(start, ops[..i]).value;
    now == u || (CanStart(u, ops[i]) && now == Halfway(u, ops[i]))
  }

  ghost predicate KeepsUndoable(before: Tree, was: Tree, now: Tree, ops: seq<FileOp>)
  {
    Separated(ops) && AllPlanned(before, ops) && Undoable(before, was, ops) ==> Undoable(before, now, ops)
  }

  lemma EffectKeeps(before: Tree, was: Tree, now: Tree, op: FileOp, ops: seq<FileOp>)
    requires op in ops && RollbackEffect(was, now, op)
    ensures KeepsUndoable(before, was, now, ops)
  {
    if Separated(ops) && AllPlanned(before, ops) && Undoable(before, was, ops) {
      var i :| 0 <= i < |ops| && ops[i] == op;
      assert RollbackEffect(was, now, ops[i]);
      RollbackStepKeeps(before, was, now, ops);
    }
  }

  function Discardable(ops: seq<FileOp>): set<string> {
    set op | op in ops && op.action != Create && !op.keepBackup && op.pinned :: op.backupPath
  }

  lemma DiscardableSnoc(ops: seq<FileOp>, op: FileOp)
    ensures Discardable(ops + [op]) ==
            Discardable(ops) + (if op.action != Create && !op.keepBackup && op.pinned then {op.backupPath} else {})
  {
    forall p | p in Discardable(ops + [op])
      ensures p in Discardable(ops)
                   + (if op.action != Create && !op.keepBackup && op.pinned then {op.backupPath} else {})
    {
      var q :| q in ops + [op] && q.action != Create && !q.keepBackup && q.pinned && p == q.backupPath;
    }
    forall q | q in ops
      ensures q in ops + [op]
    {
    }
    assert op in ops + [op];
  }
}
