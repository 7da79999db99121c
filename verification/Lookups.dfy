/** Finding the parent directory of a path again (internal/safepath/safepath.go,
    existingDirFor in internal/install/pinned.go). */
module Lookups {
  import opened TempNames
  import opened FileOps

  // The path `q` leads through `p`.
  predicate Above(p: string, q: string) { p + "/" <= q }

  // Something that is not a directory stands where `path` needs one.
  predicate Obstructed(t: Tree, path: string) { exists p | p in t :: Above(p, path) }

  // The parent was found, a component is missing, or one is not a directory.
  datatype Lookup = Found | Missing | Refused

  function NextSlash(path: string, i: nat): (j: nat)
    requires i <= |path|
    ensures i <= j <= |path|
    ensures j < |path| ==> path[j] == '/'
    ensures forall k | i <= k < j :: path[k] != '/'
    decreases |path| - i
  {
    if i == |path| || path[i] == '/' then i else NextSlash(path, i + 1)
  }

  // The walk from component i on, one component at a time, never through anything
  // but a directory. A directory's name here ends in a slash.
  function Walk(t: Tree, dirs: set<string>, path: string, i: nat): Lookup
    requires i <= |path|
    decreases |path| - i
  {
    var j := NextSlash(path, i);
    if j == |path| then Found
    else if path[..j + 1] in dirs then Walk(t, dirs, path, j + 1)
    else if path[..j] in t then Refused
    else Missing
  }

  // The parent directory of an absolute path.
  function FindParent(t: Tree, dirs: set<string>, path: string): Lookup
  {
    if path == "" then Found else Walk(t, dirs, path, 1)
  }

  // Everything on the way to an entry or a directory is a directory, and no name
  // is both.
  ghost predicate Solid(t: Tree, dirs: set<string>)
  {
    && (forall p, k: nat | p in t && 1 <= k < |p| && p[k] == '/' :: p[..k + 1] in dirs)
    && (forall d, k: nat | d in dirs && 1 <= k < |d| && d[k] == '/' :: d[..k + 1] in dirs)
    && (forall p | p in t :: p + "/" !in dirs)
    && (forall p | p in t :: p != "" && p[0] == '/')
  }

  // Only an obstruction refuses the walk, in any file system.
  lemma {:induction false} RefusedIsObstructed(t: Tree, dirs: set<string>, path: string, i: nat)
    requires i <= |path| && Walk(t, dirs, path, i) == Refused
    ensures Obstructed(t, path)
    decreases |path| - i
  {
    var j := NextSlash(path, i);
    if path[..j + 1] in dirs {
      RefusedIsObstructed(t, dirs, path, j + 1);
    } else {
      assert path[..j] + "/" == path[..j + 1];
      assert Above(path[..j], path);
    }
  }

  // In a solid one, an obstruction further on is always met.
  lemma {:induction false} ObstructedIsRefused(t: Tree, dirs: set<string>, path: string, i: nat, p: string)
    requires Solid(t, dirs) && 1 <= i <= |path| && p in t && Above(p, path) && i <= |p|
    ensures Walk(t, dirs, path, i) == Refused
    decreases |path| - i
  {
    var j := NextSlash(path, i);
    assert path[..|p| + 1] == p + "/" && path[|p|] == '/';
    if j < |p| {
      assert p[j] == path[j] && p[..j + 1] == path[..j + 1];
      ObstructedIsRefused(t, dirs, path, j + 1, p);
    } else {
      assert path[..j] == p;
    }
  }

  // The walk from i on reaches the end exactly when the parent is a directory.
  lemma {:induction false} WalkFinds(t: Tree, dirs: set<string>, path: string, i: nat)
    requires Solid(t, dirs) && 1 <= i <= |path| && path[i - 1] == '/'
    requires i > 1 ==> path[..i] in dirs
    ensures Walk(t, dirs, path, i) == Found <==> |Dir(path)| <= 1 || Dir(path) in dirs
    decreases |path| - i
  {
    var j := NextSlash(path, i);
    var b := BaseStart(path);
    if j == |path| {
      assert b == i by { LastSlash(path, i); }
    } else {
      assert forall k | b <= k < |path| :: path[k] != '/';
      if path[..j + 1] in dirs {
        WalkFinds(t, dirs, path, j + 1);
      } else {
        assert Dir(path)[j] == '/' && Dir(path)[..j + 1] == path[..j + 1];
      }
    }
  }

  lemma LastSlash(path: string, i: nat)
    requires 1 <= i <= |path| && path[i - 1] == '/' && forall k | i <= k < |path| :: path[k] != '/'
    ensures BaseStart(path) == i
  {
    var b := BaseStart(path);
    assert (b == 0 || path[b - 1] == '/') && forall k | b <= k < |path| :: path[k] != '/';
  }

  // Refused exactly when an entry stands on the way; found exactly when the parent
  // is a directory. Otherwise something is missing.
  lemma LookupIsExact(t: Tree, dirs: set<string>, path: string)
    requires Solid(t, dirs) && path != "" && path[0] == '/'
    ensures FindParent(t, dirs, path) == Refused <==> Obstructed(t, path)
    ensures FindParent(t, dirs, path) == Found <==> |Dir(path)| <= 1 || Dir(path) in dirs
  {
    if FindParent(t, dirs, path) == Refused { RefusedIsObstructed(t, dirs, path, 1); }
    if p :| p in t && Above(p, path) { ObstructedIsRefused(t, dirs, path, 1, p); }
    WalkFinds(t, dirs, path, 1);
  }

  // What a path leads through is further up; so names of one directory never lead
  // through each other.
  lemma AboveIsShorter(p: string, q: string)
    requires Above(p, q)
    ensures |Dir(p)| <= |p| < |Dir(q)|
  {
    assert q[|p|] == '/';
  }

  lemma SiblingNotAbove(p: string, q: string)
    requires Dir(p) == Dir(q)
    ensures !Above(p, q)
  {
    if Above(p, q) { AboveIsShorter(p, q); }
  }
}
