/** Why planned operations must keep off directories: an upgrade that puts a file
    where a directory was can be planned and applied, and then not be recovered. */
module KindChange {
  import opened Wrappers
  import opened TempNames
  import opened FileOps
  import opened Lookups
  import opened CreatedDirs
  import opened Undo
  import opened Claims
  import opened Tables
  import opened Metadata
  import opened Planning
  import opened Patch
  import opened Upgrade

  // Everything `IsPlan` asks for but that operations keep off directories.
  ghost predicate PlannedAnyway(c: Context, plan: seq<PkgOp>, desired: seq<Link>, changes: seq<Change>)
  {
    && Accepted(c, plan, desired)
    && (forall x :: x in changes <==> IsChange(c, plan, desired, x))
    && JournalAccepts(plan, changes)
    && NamesApart(c, plan, desired, changes)
  }

  // A payload brings a file or symlink where a directory is, and drops a file
  // beneath it.
  ghost predicate ReplacesDirectory(c: Context, q: PkgOp, e: PayloadEntry, child: string)
  {
    && q.kind != OpRemove && e in q.payload && !e.kind.DirRow?
    && e.path + "/" in c.dirs && !Untouched(c, q, e)
    && child in Dropped(c, q) && Above(e.path, child)
  }

  // The directory is then renamed aside as a whole, the file beneath is removed, and
  // from the moment the new entry is there the journal cannot be rebuilt: whatever
  // else the disk holds, every recovery is refused.
  lemma ReplacedDirectoryIsStuck(c: Context, plan: seq<PkgOp>, desired: seq<Link>, changes: seq<Change>,
                                 q: PkgOp, e: PayloadEntry, child: string)
    requires PlannedAnyway(c, plan, desired, changes) && q in plan && ReplacesDirectory(c, q, e, child)
    requires child !in PathSet(desired) && e.path != "" && e.path[0] == '/'
    ensures exists x :: x in changes && x.op.finalPath == e.path && x.op.action == Replace
    ensures Removal(c, child) in changes && !KindsApart(c, plan, changes)
    ensures forall now: Tree, dirs | Solid(now, dirs) && e.path in now :: Rebuild(Rows(Ops(changes)), now, dirs) == None
  {
    hide TempPath, JournalAccepts, NamesApart, UnownedDiffers, Untouched, Dropped, Above, Accepted, FindParent, Solid;
    var x := EntryChange(c, q, e).value;
    assert FromPackage(c, q, x) && FromPackage(c, q, Removal(c, child));
    assert x in changes by { assert IsChange(c, plan, desired, x); }
    RemovalStays(c, plan, desired, q, child);
    var i :| 0 <= i < |changes| && changes[i] == Removal(c, child);
    forall now: Tree, dirs | Solid(now, dirs) && e.path in now
      ensures Rebuild(Rows(Ops(changes)), now, dirs) == None
    {
      var row := Rows(Ops(changes))[i];
      assert row in Rows(Ops(changes)) && row.finalPath == child;
      BeneathIsRooted(e.path, child);
      LookupIsExact(now, dirs, child);
    }
  }

  lemma BeneathIsRooted(p: string, q: string)
    requires Above(p, q) && p != "" && p[0] == '/'
    ensures q != "" && q[0] == '/'
  {
  }

  // No claim takes the child over.
  lemma RemovalStays(c: Context, plan: seq<PkgOp>, desired: seq<Link>, q: PkgOp, child: string)
    requires q in plan && child in Dropped(c, q) && child !in PathSet(desired)
    ensures IsChange(c, plan, desired, Removal(c, child))
  {
    hide TempPath, UnownedDiffers, Occupied, LinkEntry, Dropped;
    assert FromPackage(c, q, Removal(c, child));
    if y :| FromClaims(c, desired, y) && y.op.finalPath == child {
      if l :| l in desired && ClaimChange(c, l) == Some(y) {
        assert l.path in PathSet(desired);
      }
    }
  }

  /** Exactly when. */

  // Where renaming `from` to `to` takes a name: a directory takes all beneath it
  // along.
  function Along(p: string, from: string, to: string): string
  {
    if p == from then to else if Above(from, p) then to + p[|from|..] else p
  }

  ghost predicate Renamed(t: Tree, dirs: set<string>, from: string, to: string, u: Tree, moved: set<string>)
  {
    && u.Keys == (set p | p in t :: Along(p, from, to)) && (forall p | p in t :: u[Along(p, from, to)] == t[p])
    && moved == set d | d in dirs :: Along(d, from, to)
  }

  // The two renames of a replace, directories taken along.
  ghost predicate Replaced(t: Tree, dirs: set<string>, op: FileOp, u: Tree, moved: set<string>)
  {
    exists mid, between ::
      && Renamed(t, dirs, op.finalPath, op.backupPath, mid, between)
      && Renamed(mid, between, op.stagedPath, op.finalPath, u, moved)
  }

  // No name an operation uses is on the way to another's path, except `d`.
  ghost predicate OffPathsBut(changes: seq<Change>, d: string)
  {
    forall x, y, p | x in changes && y in changes && p in Names(x.op) && Above(p, y.op.finalPath) :: p == d
  }

  lemma AlongIsAbove(p: string, from: string, to: string, q: string)
    requires Above(from, p) && Above(Along(p, from, to), q)
    ensures Above(to, q)
  {
    var m := Along(p, from, to);
    assert p[|from|] == '/' && m[|to|] == '/' && m[..|to|] == to;
    assert q[..|m|] == m;
  }

  // What stands in somebody's way after the replace is the new entry, or an entry that
  // stood there before.
  lemma InTheWay(c: Context, plan: seq<PkgOp>, desired: seq<Link>, changes: seq<Change>, x: Change,
                 t: Tree, dirs: set<string>, u: Tree, moved: set<string>, p: string, y: Change)
    requires PlannedAnyway(c, plan, desired, changes) && x in changes && y in changes && x.op.action == Replace
    requires OffPathsBut(changes, x.op.finalPath) && StagedOver(c.tree, t, Ops(changes))
    requires Replaced(t, dirs, x.op, u, moved) && p in u && Above(p, y.op.finalPath)
    ensures Above(x.op.finalPath, y.op.finalPath)
  {
    hide Accepted, IsChange, JournalAccepts, NamesApart, Above, Along, Names;
    var op, q := x.op, y.op.finalPath;
    var mid, between :| Renamed(t, dirs, op.finalPath, op.backupPath, mid, between)
                        && Renamed(mid, between, op.stagedPath, op.finalPath, u, moved);
    var m :| m in mid && Along(m, op.stagedPath, op.finalPath) == p;
    var o :| o in t && Along(o, op.finalPath, op.backupPath) == m;
    OwnNames(op);
    if m == op.stagedPath {
      AlongSame(m, op.finalPath);
    } else if Above(op.stagedPath, m) {
      AlongIsAbove(m, op.stagedPath, op.finalPath, q);
    } else {
      AlongElse(m, op.stagedPath, op.finalPath);
      if o == op.finalPath {
        AlongSame(o, op.backupPath);
      } else if Above(op.finalPath, o) {
        AlongIsAbove(o, op.finalPath, op.backupPath, q);
      } else {
        AlongElse(o, op.finalPath, op.backupPath);
        if o in c.tree {
          AcceptedUnobstructed(c, plan, desired, y);
        } else {
          StagedByOne(c, changes, t, o);
        }
      }
    }
  }

  lemma AlongSame(from: string, to: string)
    ensures Along(from, from, to) == to
  {
  }

  lemma AlongElse(p: string, from: string, to: string)
    requires p != from && !Above(from, p)
    ensures Along(p, from, to) == p
  {
  }

  lemma OwnNames(op: FileOp)
    requires op.action == Replace
    ensures {op.finalPath, op.stagedPath, op.backupPath} <= Names(op)
  {
  }

  lemma StagedByOne(c: Context, changes: seq<Change>, t: Tree, o: string)
    requires StagedOver(c.tree, t, Ops(changes)) && o in t && o !in c.tree
    ensures exists w :: w in changes && o in Names(w.op)
  {
    assert !SameAt(c.tree, t, o);
    var op :| op in Ops(changes) && o in Staged(op);
    var i :| 0 <= i < |changes| && Ops(changes)[i] == op;
    assert changes[i] in changes && o in Names(changes[i].op);
  }

  // A directory replaced: the journal of the plan can be rebuilt from then on exactly
  // when none of its operations is beneath the directory.
  lemma ReplacedDirectoryExactly(c: Context, plan: seq<PkgOp>, desired: seq<Link>, changes: seq<Change>, x: Change,
                                 t: Tree, dirs: set<string>, u: Tree, moved: set<string>)
    requires PlannedAnyway(c, plan, desired, changes) && x in changes && x.op.action == Replace
    requires OffPathsBut(changes, x.op.finalPath) && StagedOver(c.tree, t, Ops(changes))
    requires Replaced(t, dirs, x.op, u, moved) && x.op.finalPath in u && Solid(u, moved)
    requires forall y | y in changes :: y.op.finalPath != "" && y.op.finalPath[0] == '/'
    ensures Rebuild(Rows(Ops(changes)), u, moved).Some? <==>
            forall y | y in changes :: !Above(x.op.finalPath, y.op.finalPath)
  {
    hide PlannedAnyway, OffPathsBut, Replaced, Solid, Rebuild, Above, StagedOver;
    var rows := Rows(Ops(changes));
    forall i | 0 <= i < |changes|
      ensures changes[i] in changes && rows[i] in rows && rows[i].finalPath == changes[i].op.finalPath
    {
    }
    assert forall row | row in rows :: row.finalPath != "" && row.finalPath[0] == '/';
    RebuildIsExact(rows, u, moved);
    forall y | y in changes && Obstructed(u, y.op.finalPath)
      ensures Above(x.op.finalPath, y.op.finalPath)
    {
      var p :| p in u && Above(p, y.op.finalPath);
      InTheWay(c, plan, desired, changes, x, t, dirs, u, moved, p, y);
    }
    if y :| y in changes && Above(x.op.finalPath, y.op.finalPath) {
      var i :| 0 <= i < |changes| && changes[i] == y;
      assert Obstructed(u, rows[i].finalPath);
    }
  }

  /** A file where a payload lists a directory. */

  // Once staging has made the listed directories, one of them, or one on the way, has
  // the name an operation is to give a file exactly when that path is listed, or leads
  // to one that is; no rename puts a file there.
  lemma MeetsExactly(plan: seq<PkgOp>, path: string)
    requires path != "" && path[0] == '/'
    ensures path + "/" in Ways(DirEntries(plan)) <==>
            exists e | e in DirEntries(plan) :: path == e || Above(path, e)
  {
    hide DirEntries;
    if e :| e in DirEntries(plan) && path + "/" in Way(e) {
      OnTheWay(path, e);
    }
    if e :| e in DirEntries(plan) && (path == e || Above(path, e)) {
      OnTheWay(path, e);
      assert path + "/" in Way(e);
    }
  }

  lemma OnTheWay(path: string, e: string)
    requires path != "" && path[0] == '/'
    ensures path + "/" in Way(e) <==> path == e || Above(path, e)
  {
    if Above(path, e) {
      assert e[|path|] == '/' && e[..|path| + 1] == path + "/";
    }
    if path + "/" == e + "/" {
      assert (path + "/")[..|path|] == (e + "/")[..|e|];
    }
  }

  /** One such upgrade. */

  // Package q owns a directory and a file in it; its upgrade is a file where the
  // directory was.
  const OLD := Pkg("q", "1-1", Manifest([], [], []))
  const NEW := Pkg("q", "2-1", Manifest([], [], []))
  const NEW_FILE := PayloadEntry("/d", FileRow("n"))
  const DIR_DB := Db(map["q" := OLD], map[("q", "/d") := DirRow, ("q", "/d/x") := FileRow("x")], map[], map[])
  const DIR_TREE: Tree := map["/d/x" := File("x")]
  const DIRS := {"/", "/d/"}
  const WITH_DIR := Context(DIR_TREE, DIRS, DIR_DB, 1, false)
  const TO_FILE := PkgOp(OpUpgrade, "q", NEW, [NEW_FILE], {})

  function Backup1(): string { TempPath("/d", BACKUP_MARKER, 1) }

  function Staged1(): string { TempPath("/d", STAGED_MARKER, 1) }

  function ToFileChanges(): seq<Change>
  {
    [Change(FileOp("/d", Replace, Staged1(), Backup1(), false, true), File("n")), Removal(WITH_DIR, "/d/x")]
  }

  lemma DirNames()
    ensures Dir("/d/x") == "/d/" && Dir("/d") == "/" && Above("/d", "/d/x") && !Above("/d/x", "/d")
    ensures !Above("/d/x", "/d/x")
  {
    SplitSibling("/d/", "x");
    SplitSibling("/", "d");
    assert "/d/" + "x" == "/d/x" && "/" + "d" == "/d";
  }

  lemma ToFileEntry()
    ensures EntryChange(WITH_DIR, TO_FILE, NEW_FILE) == Some(ToFileChanges()[0])
    ensures !EntryRefused(WITH_DIR, [TO_FILE], TO_FILE, NEW_FILE) && !Untouched(WITH_DIR, TO_FILE, NEW_FILE)
  {
    hide TempPath, Dir, Above;
    DirNames();
    assert TO_FILE in [TO_FILE] && "/d" + "/" == "/d/";
    assert Owners(DIR_DB, "/d") == {"q"} by { assert ("q", "/d") in DIR_DB.files; }
  }

  lemma ToFileDrops()
    ensures Dropped(WITH_DIR, TO_FILE) == {"/d/x"} && !Obstructed(DIR_TREE, "/d/x")
  {
    hide Above, Dir;
    DirNames();
    assert PayloadPaths(TO_FILE.payload) == {"/d"} by { assert NEW_FILE in TO_FILE.payload; }
    assert ("q", "/d/x") in DIR_DB.files;
  }

  lemma TwoToFileChanges()
    ensures |ToFileChanges()| == 2 && ToFileChanges()[1] == Removal(WITH_DIR, "/d/x")
    ensures forall x :: x in ToFileChanges() <==> x == ToFileChanges()[0] || x == ToFileChanges()[1]
    ensures ToFileChanges()[0].op.action == Replace
  {
    hide TempPath, Dir;
  }

  lemma ToFilePlanned()
    ensures Accepted(WITH_DIR, [TO_FILE], [])
    ensures forall x :: x in ToFileChanges() <==> IsChange(WITH_DIR, [TO_FILE], [], x)
    ensures ReplacesDirectory(WITH_DIR, TO_FILE, NEW_FILE, "/d/x")
  {
    hide TempPath, Dir, Above, EntryChange, EntryRefused, Dropped, Untouched, ToFileChanges, Removal, Obstructed;
    DirNames();
    ToFileEntry();
    ToFileDrops();
    TwoToFileChanges();
    var c, changes := WITH_DIR, ToFileChanges();
    assert TO_FILE in [TO_FILE] && NEW_FILE in TO_FILE.payload && forall e | e in TO_FILE.payload :: e == NEW_FILE;
    assert "/d" + "/" == "/d/";
    assert forall x :: FromPackage(c, TO_FILE, x) <==> x == changes[0] || x == changes[1];
    assert forall x :: !FromClaims(c, [], x);
  }

  // Two names at the top do not meet beneath each other.
  lemma TopNamesApart(p: string, q: string)
    requires Dir(p) == "/" && Dir(q) == "/" && p != q && |q| > 1
    ensures |p| >= 1 && p[0] == '/' && forall k | 1 <= k < |p| :: p[k] != '/'
    ensures !Above(q, p + "/x") && !Above(q, p + "/") && q != p + "/x" && q != p + "/"
  {
    assert forall k | 1 <= k < |q| :: q[k] != '/';
    OneSlash(p, q, p + "/x");
    OneSlash(p, q, p + "/");
    assert |p| < |p + "/x"| && (p + "/x")[|p|] == '/' && (p + "/")[|p|] == '/';
  }

  // The only slash of `r` after its first is where `p` ends.
  lemma OneSlash(p: string, q: string, r: string)
    requires |p| >= 1 && |q| > 1 && p + "/" <= r && (forall k | 1 <= k < |r| && k != |p| :: r[k] != '/') && q != p
    ensures !Above(q, r)
  {
    SlashAt(p, r);
    if Above(q, r) { SlashAt(q, r); }
  }

  lemma SlashAt(p: string, q: string)
    requires Above(p, q)
    ensures |p| < |q| && q[|p|] == '/' && q[..|p|] == p
  {
    assert (p + "/")[|p|] == '/' && (p + "/")[..|p|] == p;
  }

  lemma TempNamesAtTop()
    ensures var b, s := Backup1(), Staged1();
      && Dir(b) == "/" && Dir(s) == "/" && b != s && b != "/d" && s != "/d" && |b| > 2 && |s| > 2
      && Above("/d", "/d/") && !Above("/d", s) && s !in {"/d/x", "/d/", "/"}
  {
    hide TempPath, Base, Kept, Suffix;
    SplitSibling("/", "d");
    assert "/" + "d" == "/d";
    TempPathIsSibling("/d", BACKUP_MARKER, 1);
    TempPathIsSibling("/d", STAGED_MARKER, 1);
    StagedIsNotBackup("/d", "/d", 1);
    TempPathCarries("/d", BACKUP_MARKER, 1);
    TempPathCarries("/d", STAGED_MARKER, 1);
    ShortNamesCarryNothing("/d", 1);
    ShortNamesCarryNothing("/d/x", 1);
    ShortNamesCarryNothing("/d/", 1);
    ShortNamesCarryNothing("/", 1);
    LongEnough(Backup1());
    LongEnough(Staged1());
    hide Carries;
    SiblingNotAbove("/d", Staged1());
  }

  lemma LongEnough(p: string)
    requires Carries(p, 1)
    ensures |p| > 2
  {
  }

  // The disk after the two renames: the old directory, with its file, is at the
  // backup name, and a file where it was.
  lemma DirectoryMovedAside() returns (mid: Tree, between: set<string>, now: Tree, dirs: set<string>)
    ensures Renamed(DIR_TREE[Staged1() := File("n")], DIRS, "/d", Backup1(), mid, between)
    ensures Renamed(mid, between, Staged1(), "/d", now, dirs)
    ensures Solid(now, dirs) && now == map[Backup1() + "/x" := File("x"), "/d" := File("n")]
  {
    hide TempPath, Backup1, Staged1, Dir, Renamed, Solid, Above;
    TempNamesAtTop();
    mid, between, now, dirs := MovedAside(Backup1(), Staged1());
  }

  lemma TooLong(s: string)
    requires |s| > 2
    ensures !Above(s, "/")
  {
  }

  lemma MovedAside(b: string, s: string) returns (mid: Tree, between: set<string>, now: Tree, dirs: set<string>)
    requires Dir(b) == "/" && Dir(s) == "/" && b != s && b != "/d" && s != "/d" && |b| > 2 && |s| > 2
    requires !Above("/d", s) && s !in {"/d/x", "/d/", "/"}
    ensures Renamed(DIR_TREE[s := File("n")], DIRS, "/d", b, mid, between)
    ensures Renamed(mid, between, s, "/d", now, dirs)
    ensures Solid(now, dirs) && now == map[b + "/x" := File("x"), "/d" := File("n")]
  {
    hide Dir, Renamed, Solid, Above, Along;
    TopNamesApart(b, s);
    mid := map[b + "/x" := File("x"), s := File("n")];
    between := {"/", b + "/"};
    now := map[b + "/x" := File("x"), "/d" := File("n")];
    dirs := between;
    FirstRename(b, s, mid);
    assert !Above(s, "/") by { TooLong(s); }
    SecondRename(b, s, mid, now);
    SolidAfter(b, now, dirs);
  }

  lemma FirstRename(b: string, s: string, mid: Tree)
    requires b != s && s !in {"/d", "/d/x"} && !Above("/d", s) && s != b + "/x"
    requires mid == map[b + "/x" := File("x"), s := File("n")]
    ensures Renamed(DIR_TREE[s := File("n")], DIRS, "/d", b, mid, {"/", b + "/"})
  {
    var t := DIR_TREE[s := File("n")];
    assert Along("/d/x", "/d", b) == b + "/x" by { assert "/d/x"[|"/d"|..] == "/x" && Above("/d", "/d/x"); }
    assert Along("/d/", "/d", b) == b + "/" by { assert "/d/"[|"/d"|..] == "/" && Above("/d", "/d/"); }
    assert Along(s, "/d", b) == s && Along("/", "/d", b) == "/";
    hide Along, Above;
    assert t.Keys == {"/d/x", s} && mid.Keys == {b + "/x", s};
    assert (set p | p in t :: Along(p, "/d", b)) == {b + "/x", s};
    assert (set d | d in DIRS :: Along(d, "/d", b)) == {"/", b + "/"} by { assert "/" in DIRS && "/d/" in DIRS; }
  }

  lemma SecondRename(b: string, s: string, mid: Tree, now: Tree)
    requires s !in {b + "/x", b + "/", "/"} && !Above(s, b + "/x") && !Above(s, b + "/") && !Above(s, "/")
    requires mid == map[b + "/x" := File("x"), s := File("n")]
    requires now == map[b + "/x" := File("x"), "/d" := File("n")] && |b| > 1
    ensures Renamed(mid, {"/", b + "/"}, s, "/d", now, {"/", b + "/"})
  {
    hide Along, Above;
    var dirs := {"/", b + "/"};
    AlongElse(b + "/x", s, "/d");
    AlongElse(b + "/", s, "/d");
    AlongElse("/", s, "/d");
    assert Along(s, s, "/d") == "/d" by { AlongSame(s, "/d"); }
    assert mid.Keys == {b + "/x", s};
    assert (set p | p in mid :: Along(p, s, "/d")) == {b + "/x", "/d"};
    assert (set d | d in dirs :: Along(d, s, "/d")) == dirs by { assert "/" in dirs && b + "/" in dirs; }
  }

  lemma SolidAfter(b: string, now: Tree, dirs: set<string>)
    requires |b| > 2 && b[0] == '/' && b != "/d" && forall k | 1 <= k < |b| :: b[k] != '/'
    requires now.Keys == {b + "/x", "/d"} && dirs == {"/", b + "/"}
    ensures Solid(now, dirs)
  {
    assert (b + "/x")[..|b| + 1] == b + "/" && (b + "/")[..|b| + 1] == b + "/";
    assert "/d" + "/" != "/" && "/d" + "/" != b + "/" by { assert (b + "/")[..|b|] == b && ("/d" + "/")[..2] == "/d"; }
    assert b + "/x" + "/" != "/" && b + "/x" + "/" != b + "/";
  }

  lemma ToFileSound()
    ensures Sound(WITH_DIR) && KindsKept(WITH_DIR, [TO_FILE]) && OneKind(DIR_DB)
  {
    hide Carries, Dir;
    DirNames();
    ShortNamesCarryNothing("/d/x", 1);
  }

  lemma ToFileNames()
    ensures NamesApart(WITH_DIR, [TO_FILE], [], ToFileChanges()) && JournalAccepts([TO_FILE], ToFileChanges())
  {
    hide TempPath, Carries, Dir, Base;
    DirNames();
    ShortNamesCarryNothing("/d", 1);
    forall m | m in {STAGED_MARKER, BACKUP_MARKER}
      ensures TempPath("/d", m, 1) != TempPath("/d/x", m, 1)
    {
      TempPathIsSibling("/d", m, 1);
      TempPathIsSibling("/d/x", m, 1);
    }
    var changes := ToFileChanges();
    assert changes[0].op.finalPath == "/d" && changes[1].op.finalPath == "/d/x";
    assert forall x | x in changes :: x == changes[0] || x == changes[1];
    assert forall q, e | q in [TO_FILE] && e in q.payload :: e.path == "/d";
  }

  lemma ToFileReachable()
    ensures Rebuild(Rows(Ops(ToFileChanges())), DIR_TREE, DIRS).Some?
  {
    hide TempPath, Above, Dir, FindParent;
    DirNames();
    var rows := Rows(Ops(ToFileChanges()));
    forall row | row in rows
      ensures FindParent(DIR_TREE, DIRS, row.finalPath) != Refused
    {
      assert row == rows[0] || row == rows[1];
      NotRefused(DIR_TREE, DIRS, row.finalPath);
    }
  }

  // A sound state, an accepted plan, an accepted journal: before the flip the
  // transaction could be recovered, and after it no recovery can even start.
  lemma AcceptedAndStuck() returns (now: Tree, dirs: set<string>)
    ensures Sound(WITH_DIR) && PlannedAnyway(WITH_DIR, [TO_FILE], [], ToFileChanges())
    ensures now == map[Backup1() + "/x" := File("x"), "/d" := File("n")] && Solid(now, dirs)
    ensures Rebuild(Rows(Ops(ToFileChanges())), now, dirs) == None
    ensures Rebuild(Rows(Ops(ToFileChanges())), DIR_TREE, DIRS).Some?
  {
    var mid, between;
    mid, between, now, dirs := DirectoryMovedAside();
    ToFileSound();
    ToFilePlanned();
    ToFileNames();
    var changes := ToFileChanges();
    hide TempPath, Sound, Accepted, IsChange, NamesApart, ReplacesDirectory, Solid, Renamed, ToFileChanges;
    assert "/d"[0] == '/';
    ReplacedDirectoryIsStuck(WITH_DIR, [TO_FILE], [], changes, TO_FILE, NEW_FILE, "/d/x");
    ToFileReachable();
  }
}
