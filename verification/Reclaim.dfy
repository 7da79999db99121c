/** Reclaiming released directories after a commit (internal/install/reclaim.go):
    one pass, deepest first, reaches the only possible end. */
module Reclaim {
  import opened Sorting
  import opened TempNames

  // The directories and everything else there is, by clean logical path.
  datatype Fs = Fs(dirs: set<string>, others: set<string>)

  function Depth(path: string): nat
  {
    if path == "" then 0 else (if path[0] == '/' then 1 else 0) + Depth(path[1..])
  }

  predicate ChildOf(p: string, d: string) { Dir(p) == d + "/" }

  predicate IsEmpty(fs: Fs, d: string)
  {
    (forall p | p in fs.dirs :: !ChildOf(p, d)) && forall p | p in fs.others :: !ChildOf(p, d)
  }

  predicate IsRoot(d: string) { d == "" || d == "." || d == "/" }

  // Released, owned by no package, and not the root itself.
  predicate Candidate(released: seq<string>, owned: set<string>, d: string)
  {
    d in released && d !in owned && !IsRoot(d)
  }

  predicate Reclaimable(fs: Fs, released: seq<string>, owned: set<string>, d: string)
  {
    Candidate(released, owned, d) && d in fs.dirs && IsEmpty(fs, d)
  }

  // Only candidates have gone, each with nothing left inside; and no candidate
  // that is still there is empty.
  ghost predicate Reclaimed(fs: Fs, released: seq<string>, owned: set<string>, after: Fs)
  {
    && after.others == fs.others && after.dirs <= fs.dirs
    && (forall d | d in fs.dirs - after.dirs :: Candidate(released, owned, d) && IsEmpty(after, d))
    && (forall d :: !Reclaimable(after, released, owned, d))
  }

  // Read off the paths: what has gone was released and unowned, is not the root and
  // has nothing in it; what was released and is unowned, is not the root and is still
  // there has something in it.
  lemma ReclaimedExactly(fs: Fs, released: seq<string>, owned: set<string>, after: Fs)
    ensures Reclaimed(fs, released, owned, after) <==>
            && after.others == fs.others && after.dirs <= fs.dirs
            && (forall d | d in fs.dirs && d !in after.dirs ::
                  d in released && d !in owned && d !in {"", ".", "/"}
                  && forall p | p in after.dirs + after.others :: Dir(p) != d + "/")
            && forall d | d in released && d !in owned && d in after.dirs && d !in {"", ".", "/"} ::
                 exists p | p in after.dirs + after.others :: Dir(p) == d + "/"
  {
    hide Dir;
    forall d
      ensures IsEmpty(after, d) <==> forall p | p in after.dirs + after.others :: Dir(p) != d + "/"
    {
      assert forall p :: ChildOf(p, d) <==> Dir(p) == d + "/";
    }
    if Reclaimed(fs, released, owned, after) {
      forall d | d in released && d !in owned && d in after.dirs && d !in {"", ".", "/"}
        ensures exists p | p in after.dirs + after.others :: Dir(p) == d + "/"
      {
        assert !Reclaimable(after, released, owned, d);
      }
    }
  }

  lemma {:induction false} DepthAppend(a: string, b: string)
    ensures Depth(a + b) == Depth(a) + Depth(b)
  {
    if a == "" {
      assert a + b == b;
    } else {
      assert (a + b)[1..] == a[1..] + b;
      DepthAppend(a[1..], b);
    }
  }

  lemma {:induction false} NoSlash(s: string)
    requires '/' !in s
    ensures Depth(s) == 0
  {
    if s != "" { NoSlash(s[1..]); }
  }

  // A child is one deeper.
  lemma ChildDepth(p: string, d: string)
    requires ChildOf(p, d)
    ensures Depth(p) == Depth(d) + 1
  {
    assert p == (d + "/") + Base(p);
    DepthAppend(d + "/", Base(p));
    DepthAppend(d, "/");
    assert "/"[1..] == "";
    assert Depth("/") == 1;
    NoSlash(Base(p));
  }

  /** The order. */

  predicate Earlier(a: string, b: string)
  {
    Depth(a) > Depth(b) || (Depth(a) == Depth(b) && Less(b, a))
  }

  ghost predicate DeepestFirst(s: seq<string>)
  {
    forall i, j | 0 <= i < j < |s| :: Depth(s[i]) >= Depth(s[j])
  }

  method Place(s: seq<string>, x: string) returns (r: seq<string>)
    requires DeepestFirst(s)
    ensures DeepestFirst(r) && multiset(r) == multiset(s) + multiset{x}
  {
    var i := 0;
    while i < |s| && Earlier(s[i], x)
      invariant 0 <= i <= |s| && forall j | 0 <= j < i :: Depth(s[j]) >= Depth(x)
    {
      i := i + 1;
    }
    r := s[..i] + [x] + s[i..];
    assert s == s[..i] + s[i..];
  }

  // Each released path once, deepest first.
  method CollectDirs(released: seq<string>) returns (dirs: seq<string>)
    ensures DeepestFirst(dirs) && forall d :: d in dirs <==> d in released
  {
    dirs := [];
    for i := 0 to |released|
      invariant DeepestFirst(dirs) && forall d :: d in dirs <==> d in released[..i]
    {
      assert released[..i + 1] == released[..i] + [released[i]];
      if released[i] !in dirs {
        var more := Place(dirs, released[i]);
        assert forall d :: d in more <==> d in multiset(more);
        assert forall d :: d in dirs <==> d in multiset(dirs);
        dirs := more;
      }
    }
    assert released[..|released|] == released;
  }

  /** The pass. Any removal can fail for reasons of the operating system; then it
      is warned about, and the directory stays. */
  class Tree {
    var fs: Fs

    method RemoveDir(d: string) returns (failed: bool)
      modifies this
      ensures failed ==> fs == old(fs)
      ensures !failed ==>
                fs == if d in old(fs).dirs && IsEmpty(old(fs), d) then old(fs).(dirs := old(fs).dirs - {d}) else old(fs)
    {
      if * { return true; }
      if d in fs.dirs && IsEmpty(fs, d) { fs := fs.(dirs := fs.dirs - {d}); }
      return false;
    }

    method ReclaimDirectories(released: seq<string>, owned: set<string>) returns (warnings: nat)
      modifies this
      ensures fs.others == old(fs).others && fs.dirs <= old(fs).dirs
      ensures forall d | d in old(fs).dirs - fs.dirs :: Candidate(released, owned, d) && IsEmpty(fs, d)
      ensures warnings == 0 ==> Reclaimed(old(fs), released, owned, fs)
    {
      hide Depth, Dir, IsRoot;
      var dirs := CollectDirs(released);
      warnings := 0;
      for i := 0 to |dirs|
        invariant fs.others == old(fs).others && fs.dirs <= old(fs).dirs
        invariant forall d | d in old(fs).dirs - fs.dirs :: Candidate(released, owned, d) && IsEmpty(fs, d)
        invariant warnings == 0 ==> forall j | 0 <= j < i :: !Reclaimable(fs, released, owned, dirs[j])
      {
        var d := dirs[i];
        ghost var was := fs;
        assert d in dirs && d in released;
        if d !in owned && !IsRoot(d) {
          var failed := RemoveDir(d);
          if failed { warnings := warnings + 1; }
        }
        forall x | x in old(fs).dirs - fs.dirs
          ensures Candidate(released, owned, x) && IsEmpty(fs, x)
        {
          assert x in old(fs).dirs - was.dirs || (x == d && fs != was);
        }
        if warnings == 0 {
          forall j | 0 <= j <= i
            ensures !Reclaimable(fs, released, owned, dirs[j])
          {
            if j < i { StaysDone(was, fs, released, owned, dirs[j], d); }
          }
        }
      }
    }
  }

  // Removing a directory that is no deeper empties no directory already passed.
  lemma StaysDone(was: Fs, now: Fs, released: seq<string>, owned: set<string>, passed: string, d: string)
    requires !Reclaimable(was, released, owned, passed) && Depth(passed) >= Depth(d)
    requires now == was || now == was.(dirs := was.dirs - {d})
    ensures !Reclaimable(now, released, owned, passed)
  {
    hide Depth, Dir;
    if ChildOf(d, passed) { ChildDepth(d, passed); }
  }

  // Whatever the order, there is only one end a pass without warnings can reach.
  lemma ReclaimIsDetermined(fs: Fs, released: seq<string>, owned: set<string>, a: Fs, b: Fs)
    requires Reclaimed(fs, released, owned, a) && Reclaimed(fs, released, owned, b)
    ensures a == b
  {
    forall d | d in fs.dirs
      ensures d in a.dirs <==> d in b.dirs
    {
      var top := Deepest(fs.dirs);
      if d in a.dirs { SameFate(fs, released, owned, a, b, d, top); }
      if d in b.dirs { SameFate(fs, released, owned, b, a, d, top); }
    }
    assert a.dirs == b.dirs;
  }

  lemma {:induction false} Deepest(dirs: set<string>) returns (top: nat)
    ensures forall d | d in dirs :: Depth(d) <= top
  {
    if dirs == {} {
      top := 0;
    } else {
      var x :| x in dirs;
      var rest := Deepest(dirs - {x});
      top := if Depth(x) > rest then Depth(x) else rest;
      assert forall d | d in dirs :: d == x || d in dirs - {x};
    }
  }

  lemma {:induction false} SameFate(fs: Fs, released: seq<string>, owned: set<string>, a: Fs, b: Fs, d: string,
                                    top: nat)
    requires Reclaimed(fs, released, owned, a) && Reclaimed(fs, released, owned, b)
    requires (forall x | x in fs.dirs :: Depth(x) <= top) && d in a.dirs
    ensures d in b.dirs
    decreases top - Depth(d)
  {
    hide Depth, Dir;
    if d !in b.dirs {
      assert d in fs.dirs - b.dirs;
      assert !Reclaimable(a, released, owned, d) && IsEmpty(b, d) && Candidate(released, owned, d);
      var c :| c in a.dirs && ChildOf(c, d);
      ChildDepth(c, d);
      SameFate(fs, released, owned, a, b, c, top);
      assert false;
    }
  }
}
