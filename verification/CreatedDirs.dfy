/** The directories a transaction may have created, and their removal when it is
    rolled back (rememberCreatedDirs in internal/install/stage.go, removeCreatedDirs in
    files.go). */
module CreatedDirs {
  import opened TempNames
  import opened FileOps
  import opened Lookups

  // Something that is not a directory stands at the path, or on the way to it.
  predicate Blocked(t: Tree, d: string) { d in t || Obstructed(t, d) }

  // Removing the directory fails: its parent cannot be resolved, or it is none. One
  // that is missing or populated is passed over.
  predicate Stuck(t: Tree, dirs: set<string>, d: string)
  {
    FindParent(t, dirs, d) == Refused || (FindParent(t, dirs, d) == Found && d in t)
  }

  predicate CleansUp(t: Tree, dirs: set<string>, recorded: seq<string>)
  {
    forall d | d in recorded :: !Stuck(t, dirs, d)
  }

  predicate Rooted(paths: seq<string>) { forall d | d in paths :: d != "" && d[0] == '/' }

  lemma StuckIsBlocked(t: Tree, dirs: set<string>, d: string)
    requires Stuck(t, dirs, d)
    ensures Blocked(t, d)
  {
    hide Walk, Obstructed;
    if FindParent(t, dirs, d) == Refused { RefusedIsObstructed(t, dirs, d, 1); }
  }

  lemma BlockedIsStuck(t: Tree, dirs: set<string>, d: string)
    requires Solid(t, dirs) && d != "" && d[0] == '/' && Blocked(t, d)
    ensures Stuck(t, dirs, d)
  {
    LookupIsExact(t, dirs, d);
    if d in t && !Obstructed(t, d) { ParentThere(t, dirs, d); }
  }

  lemma ParentThere(t: Tree, dirs: set<string>, d: string)
    requires Solid(t, dirs) && d in t
    ensures |Dir(d)| <= 1 || Dir(d) in dirs
  {
    var b := BaseStart(d);
    if b > 1 { assert d[b - 1] == '/' && d[..b - 1 + 1] == Dir(d); }
  }

  // Whatever else is on the disk, recorded directories that are not blocked go, or
  // are passed over.
  lemma UnblockedCleansUp(t: Tree, dirs: set<string>, recorded: seq<string>)
    requires forall d | d in recorded :: !Blocked(t, d)
    ensures CleansUp(t, dirs, recorded)
  {
    hide Stuck, Blocked;
    forall d | d in recorded
      ensures !Stuck(t, dirs, d)
    {
      if Stuck(t, dirs, d) { StuckIsBlocked(t, dirs, d); }
    }
  }

  // The clean-up can finish exactly when no recorded directory is, or leads through,
  // something that is not a directory.
  lemma CleansUpExactly(t: Tree, dirs: set<string>, recorded: seq<string>)
    requires Solid(t, dirs) && Rooted(recorded)
    ensures CleansUp(t, dirs, recorded) <==> forall d | d in recorded :: !Blocked(t, d)
  {
    hide Stuck, Blocked, Solid;
    forall d | d in recorded && Blocked(t, d)
      ensures Stuck(t, dirs, d)
    {
      BlockedIsStuck(t, dirs, d);
    }
    if forall d | d in recorded :: !Blocked(t, d) { UnblockedCleansUp(t, dirs, recorded); }
  }

  // A directory and every one on the way to it. A directory's name ends in a slash.
  function Way(d: string): set<string>
  {
    {d + "/"} + set k | 1 <= k < |d| && d[k] == '/' :: d[..k + 1]
  }

  function Ways(ds: set<string>): set<string> { set d, x | d in ds && x in Way(d) :: x }

  // Nothing is in it.
  predicate Empty(t: Tree, dirs: set<string>, d: string)
  {
    !(exists p | p in t :: Above(d, p)) && !(exists e | e in dirs :: Above(d, e) && e != d + "/")
  }

  lemma EmptyGoes(t: Tree, dirs: set<string>, d: string)
    requires Solid(t, dirs) && Empty(t, dirs, d)
    ensures Solid(t, dirs - {d + "/"})
  {
    var less := dirs - {d + "/"};
    forall p, k: nat | p in t && 1 <= k < |p| && p[k] == '/'
      ensures p[..k + 1] in less
    {
      assert p[..k + 1] == d + "/" ==> Above(d, p);
    }
    forall e, k: nat | e in less && 1 <= k < |e| && e[k] == '/'
      ensures e[..k + 1] in less
    {
      assert e[..k + 1] == d + "/" ==> Above(d, e);
    }
  }

  predicate NamesOne(recorded: seq<string>, e: string) { exists d | d in recorded :: e == d + "/" }

  class Place {
    var tree: Tree
    var dirs: set<string>

    // One directory: a system call may also fail for reasons of its own.
    method RemoveDir(d: string) returns (ok: bool, faulted: bool)
      requires Solid(tree, dirs) && d != "" && d[0] == '/'
      modifies this`dirs
      ensures Solid(tree, dirs)
      ensures dirs == old(dirs) || (dirs == old(dirs) - {d + "/"} && Empty(tree, old(dirs), d))
      ensures faulted ==> !ok
      ensures !faulted ==> (ok <==> !Blocked(tree, d))
      ensures ok && d + "/" in dirs ==> !Empty(tree, dirs, d)
    {
      if * { return false, true; }
      if Blocked(tree, d) { return false, false; }
      if Empty(tree, dirs, d) {
        EmptyGoes(tree, dirs, d);
        dirs := dirs - {d + "/"};
      }
      return true, false;
    }

    // In reverse order, every one attempted. Without a fault of the system the whole
    // clean-up succeeds exactly when no recorded directory is blocked.
    method RemoveCreatedDirs(recorded: seq<string>) returns (ok: bool, faulted: bool)
      requires Solid(tree, dirs) && Rooted(recorded)
      modifies this`dirs
      ensures Solid(tree, dirs) && dirs <= old(dirs)
      ensures forall e | e in old(dirs) - dirs :: NamesOne(recorded, e)
      ensures faulted ==> !ok
      ensures !faulted ==> (ok <==> CleansUp(tree, old(dirs), recorded))
    {
      CleansUpExactly(tree, dirs, recorded);
      hide Solid, Blocked, Empty, CleansUp;
      ok, faulted := true, false;
      var i := |recorded|;
      while i > 0
        invariant 0 <= i <= |recorded| && Solid(tree, dirs) && dirs <= old(dirs)
        invariant forall e | e in old(dirs) - dirs :: NamesOne(recorded, e)
        invariant faulted ==> !ok
        invariant !faulted ==> (ok <==> forall d | d in recorded[i..] :: !Blocked(tree, d))
      {
        i := i - 1;
        assert recorded[i..] == [recorded[i]] + recorded[i + 1..] && recorded[i] in recorded;
        ghost var was := dirs;
        var gone, fault := RemoveDir(recorded[i]);
        assert forall e | e in was - dirs :: NamesOne(recorded, e);
        ok, faulted := ok && gone, faulted || fault;
      }
      assert recorded[0..] == recorded;
    }
  }
}
