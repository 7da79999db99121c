/** Publishing a repository (internal/repopub/publish.go, state.go): the next pair
    of indexes, and the ordered writes that put it in place. */
module Publisher {
  import opened Wrappers
  import opened Sorting
  import opened Versions

  datatype Package = Package(name: string, version: Version, arch: string, hash: string)

  datatype Entry = Entry(name: string, version: Version, arch: string, url: string, hash: string)

  datatype Index = Index(version: int, stamp: int, entries: seq<Entry>)

  // The state directory: package files by path, as digests, and the two indexes.
  datatype Site = Site(files: map<string, string>, archive: Index, active: Index)

  const MAX_INDEX_VERSION := 0x7FFF_FFFF_FFFF_FFFF

  /** Identities and URLs. */

  function Identity(e: Entry): string { e.name + " " + e.version.text + " (" + e.arch + ")" }

  // A replacer over the four placeholders: leftmost match, results not rescanned.
  function Expand(template: string, name: string, version: string, arch: string): string
  {
    if template == "" then ""
    else if "{name}" <= template then name + Expand(template[6..], name, version, arch)
    else if "{version}" <= template then version + Expand(template[9..], name, version, arch)
    else if "{arch}" <= template then arch + Expand(template[6..], name, version, arch)
    else if "{filename}" <= template then Filename(name, version, arch) + Expand(template[10..], name, version, arch)
    else [template[0]] + Expand(template[1..], name, version, arch)
  }

  function Filename(name: string, version: string, arch: string): string
  {
    name + "_" + version + "_" + arch + ".peipkg"
  }

  predicate StandsAt(s: string, i: int, part: string) { 0 <= i <= |s| - |part| && s[i..i + |part|] == part }

  predicate Contains(s: string, part: string) { exists i | 0 <= i <= |s| :: StandsAt(s, i, part) }

  predicate ValidTemplate(template: string)
  {
    && template != ""
    && (Contains(template, "{name}") || Contains(template, "{filename}"))
    && (Contains(template, "{version}") || Contains(template, "{filename}"))
  }

  predicate RepoRelative(url: string) { url != "" && url[0] == '/' }

  function EntryFor(template: string, p: Package): Entry
  {
    Entry(p.name, p.version, p.arch, Expand(template, p.name, p.version.text, p.arch), p.hash)
  }

  function Added(template: string, packages: seq<Package>): seq<Entry>
  {
    seq(|packages|, i requires 0 <= i < |packages| => EntryFor(template, packages[i]))
  }

  /** The active index. */

  // Entry j ties with entry i, the best of its name among the entries before j.
  ghost predicate TieAt(entries: seq<Entry>, i: int, j: int)
  {
    && 0 <= i < j < |entries| && entries[i].name == entries[j].name
    && Compare(entries[i].version, entries[j].version) == 0
    && forall m | 0 <= m < j && entries[m].name == entries[j].name ::
       Compare(entries[m].version, entries[i].version) <= 0
  }

  ghost predicate TieMet(entries: seq<Entry>) { exists i, j :: TieAt(entries, i, j) }

  predicate Supersedes(a: Entry, e: Entry) { a.name == e.name && (e == a || Compare(e.version, a.version) < 0) }

  // One entry for each name, above every other entry of that name.
  ghost predicate Derives(entries: seq<Entry>, active: seq<Entry>)
  {
    && (forall a | a in active :: a in entries)
    && (forall a, e | a in active && e in entries && e.name == a.name :: Supersedes(a, e))
    && (forall e | e in entries :: exists a :: a in active && a.name == e.name)
    && (forall i, j | 0 <= i < j < |active| :: Less(active[i].name, active[j].name))
  }

  // The best entry of each name so far, and where it stands.
  ghost predicate BestSoFar(entries: seq<Entry>, n: nat, byName: map<string, Entry>, at: map<string, nat>)
    requires n <= |entries|
  {
    && at.Keys == byName.Keys
    && (forall m | 0 <= m < n :: entries[m].name in byName)
    && (forall x | x in byName :: at[x] < n && entries[at[x]] == byName[x] && byName[x].name == x)
    && (forall m | 0 <= m < n && m != at[entries[m].name] ::
       Compare(entries[m].version, byName[entries[m].name].version) < 0)
  }

  method DeriveActive(entries: seq<Entry>) returns (r: Option<seq<Entry>>)
    ensures r.None? <==> TieMet(entries)
    ensures r.Some? ==> Derives(entries, r.value)
  {
    hide Compare, Less, BestSoFar, TieAt, Derives;
    var byName: map<string, Entry> := map[];
    ghost var at: map<string, nat> := map[];
    NothingYet(entries);
    for n := 0 to |entries|
      invariant BestSoFar(entries, n, byName, at)
      invariant forall i, j | j < n :: !TieAt(entries, i, j)
    {
      var e := entries[n];
      NamesSoFar(entries, n, byName, at);
      if e.name in byName {
        var c := Compare(e.version, byName[e.name].version);
        if c == 0 {
          MeetsTie(entries, n, byName, at);
          return None;
        }
        MeetsNoTie(entries, n, byName, at);
        if c > 0 {
          Overtakes(entries, n, byName, at);
          byName, at := byName[e.name := e], at[e.name := n];
        } else {
          StaysBest(entries, n, byName, at);
        }
      } else {
        MeetsNoTie(entries, n, byName, at);
        FirstOfName(entries, n, byName, at);
        byName, at := byName[e.name := e], at[e.name := n];
      }
    }
    var names := SortedKeys(byName.Keys);
    var active: seq<Entry> := [];
    for i := 0 to |names|
      invariant |active| == i && forall j | 0 <= j < i :: names[j] in byName && active[j] == byName[names[j]]
    {
      assert names[i] in Elements(names);
      active := active + [byName[names[i]]];
    }
    NoTieMet(entries);
    BestDerives(entries, byName, at, names, active);
    return Some(active);
  }

  lemma NothingYet(entries: seq<Entry>)
    ensures BestSoFar(entries, 0, map[], map[]) && forall i, j | j < 0 :: !TieAt(entries, i, j)
  {
  }

  lemma NoTieMet(entries: seq<Entry>)
    requires forall i, j | j < |entries| :: !TieAt(entries, i, j)
    ensures !TieMet(entries)
  {
    hide Compare;
  }

  lemma NamesSoFar(entries: seq<Entry>, n: nat, byName: map<string, Entry>, at: map<string, nat>)
    requires n <= |entries| && BestSoFar(entries, n, byName, at)
    ensures forall x | x in byName :: byName[x].name == x
  {
    hide Compare;
  }

  lemma StaysBest(entries: seq<Entry>, n: nat, byName: map<string, Entry>, at: map<string, nat>)
    requires n < |entries| && BestSoFar(entries, n, byName, at) && entries[n].name in byName
    requires Compare(entries[n].version, byName[entries[n].name].version) < 0
    ensures BestSoFar(entries, n + 1, byName, at)
  {
    hide Compare;
  }

  lemma FirstOfName(entries: seq<Entry>, n: nat, byName: map<string, Entry>, at: map<string, nat>)
    requires n < |entries| && BestSoFar(entries, n, byName, at) && entries[n].name !in byName
    ensures BestSoFar(entries, n + 1, byName[entries[n].name := entries[n]], at[entries[n].name := n])
  {
    hide Compare;
  }

  lemma MeetsTie(entries: seq<Entry>, n: nat, byName: map<string, Entry>, at: map<string, nat>)
    requires n < |entries| && BestSoFar(entries, n, byName, at) && entries[n].name in byName
    requires Compare(entries[n].version, byName[entries[n].name].version) == 0
    ensures TieMet(entries)
  {
    hide Compare;
    var i := at[entries[n].name];
    CompareIsTotalPreorder(entries[n].version, entries[i].version, entries[i].version);
    CompareIsTotalPreorder(entries[i].version, entries[i].version, entries[i].version);
    assert TieAt(entries, i, n);
  }

  lemma MeetsNoTie(entries: seq<Entry>, n: nat, byName: map<string, Entry>, at: map<string, nat>)
    requires n < |entries| && BestSoFar(entries, n, byName, at)
    requires entries[n].name in byName ==> Compare(entries[n].version, byName[entries[n].name].version) != 0
    ensures forall i :: !TieAt(entries, i, n)
  {
    hide Compare;
    forall i | TieAt(entries, i, n)
      ensures false
    {
      var b := at[entries[n].name];
      CompareIsTotalPreorder(entries[i].version, entries[b].version, entries[n].version);
      CompareIsTotalPreorder(entries[i].version, entries[n].version, entries[n].version);
    }
  }

  lemma Overtakes(entries: seq<Entry>, n: nat, byName: map<string, Entry>, at: map<string, nat>)
    requires n < |entries| && BestSoFar(entries, n, byName, at) && entries[n].name in byName
    requires Compare(entries[n].version, byName[entries[n].name].version) > 0
    ensures BestSoFar(entries, n + 1, byName[entries[n].name := entries[n]], at[entries[n].name := n])
  {
    hide Compare;
    var e, b := entries[n], byName[entries[n].name];
    CompareIsTotalPreorder(e.version, b.version, b.version);
    forall m | 0 <= m < n && entries[m].name == e.name
      ensures Compare(entries[m].version, e.version) < 0
    {
      CompareIsTotalPreorder(entries[m].version, b.version, e.version);
    }
  }

  lemma BestDerives(entries: seq<Entry>, byName: map<string, Entry>, at: map<string, nat>, names: seq<string>,
                    active: seq<Entry>)
    requires BestSoFar(entries, |entries|, byName, at) && Lists(names, byName.Keys)
    requires |active| == |names| && forall j | 0 <= j < |names| :: names[j] in byName && active[j] == byName[names[j]]
    ensures Derives(entries, active)
  {
    hide Compare, Less;
    forall e | e in entries
      ensures exists a :: a in active && a.name == e.name
    {
      assert e.name in Elements(names);
      var j :| 0 <= j < |names| && names[j] == e.name;
      assert active[j] in active;
    }
    forall i | 0 <= i < |active|
      ensures active[i] in entries && active[i].name == names[i]
    {
      assert entries[at[names[i]]] == active[i];
    }
    forall a, e | a in active && e in entries && e.name == a.name
      ensures Supersedes(a, e)
    {
      var m :| 0 <= m < |entries| && entries[m] == e;
      assert a == byName[a.name];
    }
  }

  /** The transition. */

  datatype Release = Release(archive: Index, active: Index, added: seq<Entry>)

  function NextVersion(s: Site): int
  {
    (if s.archive.version > s.active.version then s.archive.version else s.active.version) + 1
  }

  // One past both: above either version, and nothing between.
  lemma NextVersionIsLeast(s: Site, v: int)
    ensures NextVersion(s) <= v <==> s.archive.version < v && s.active.version < v
  {
  }

  // An identity already archived, or given twice.
  ghost predicate Repeats(existing: seq<Entry>, added: seq<Entry>)
  {
    || (exists e, a :: e in existing && a in added && Identity(e) == Identity(a))
    || (exists i, j :: 0 <= i < j < |added| && Identity(added[i]) == Identity(added[j]))
  }

  // The order of the archive index: by name, then newest first, then by architecture.
  predicate Before(a: Entry, b: Entry)
  {
    if a.name != b.name then Less(a.name, b.name)
    else
      var c := Compare(a.version, b.version);
      if c != 0 then c > 0 else Less(a.arch, b.arch)
  }

  function InsertEntry(e: Entry, s: seq<Entry>): seq<Entry>
  {
    if s == [] || !Before(s[0], e) then [e] + s else [s[0]] + InsertEntry(e, s[1..])
  }

  // A stable sort.
  function SortArchive(s: seq<Entry>): seq<Entry>
  {
    if s == [] then [] else InsertEntry(s[0], SortArchive(s[1..]))
  }

  ghost predicate Publishes(s: Site, packages: seq<Package>, template: string, stamp: int, rel: Release)
  {
    var all := s.archive.entries + Added(template, packages);
    && packages != [] && ValidTemplate(template) && NextVersion(s) <= MAX_INDEX_VERSION
    && !Repeats(s.archive.entries, Added(template, packages))
    && !TieMet(all)
    && rel.added == Added(template, packages)
    && rel.archive == Index(NextVersion(s), stamp, SortArchive(all))
    && rel.active.version == NextVersion(s) && rel.active.stamp == stamp && Derives(all, rel.active.entries)
  }

  method Publish(s: Site, packages: seq<Package>, template: string, stamp: int) returns (r: Option<Release>)
    ensures r.Some? ==> Publishes(s, packages, template, stamp, r.value)
    ensures r.None? ==> forall rel :: !Publishes(s, packages, template, stamp, rel)
  {
    hide Compare, Less, Expand, Identity;
    if !ValidTemplate(template) || packages == [] { return None; }
    // Past the largest 64-bit version the counter wraps, and is refused.
    if NextVersion(s) > MAX_INDEX_VERSION { return None; }
    var seen := set e | e in s.archive.entries :: Identity(e);
    var added: seq<Entry> := [];
    for i := 0 to |packages|
      invariant added == Added(template, packages[..i])
      invariant !Repeats(s.archive.entries, added)
      invariant seen == (set e | e in s.archive.entries :: Identity(e)) + (set e | e in added :: Identity(e))
    {
      var e := EntryFor(template, packages[i]);
      assert Added(template, packages[..i + 1]) == added + [e];
      Repeat(s.archive.entries, added, e);
      if Identity(e) in seen {
        AddedPrefix(s.archive.entries, template, packages, i + 1);
        return None;
      }
      ghost var was := added;
      added := added + [e];
      assert (set x | x in added :: Identity(x)) == (set x | x in was :: Identity(x)) + {Identity(e)} by {
        assert forall x :: x in added <==> x in was || x == e;
      }
      seen := seen + {Identity(e)};
    }
    assert packages[..|packages|] == packages;
    var active := DeriveActive(s.archive.entries + added);
    if active.None? { return None; }
    return Some(Release(Index(NextVersion(s), stamp, SortArchive(s.archive.entries + added)),
                        Index(NextVersion(s), stamp, active.value), added));
  }

  lemma Repeat(existing: seq<Entry>, added: seq<Entry>, e: Entry)
    requires !Repeats(existing, added)
    ensures Repeats(existing, added + [e]) <==>
            Identity(e) in (set x | x in existing :: Identity(x)) + (set x | x in added :: Identity(x))
  {
    hide Identity;
    var more := added + [e];
    if x :| x in existing && Identity(x) == Identity(e) {
      assert e in more;
    } else if x :| x in added && Identity(x) == Identity(e) {
      var i :| 0 <= i < |added| && added[i] == x;
      assert more[i] == x && more[|added|] == e;
    } else {
      assert forall i | 0 <= i < |added| :: more[i] == added[i] && added[i] in added;
      assert forall x | x in more :: x in added || x == e;
    }
  }

  lemma AddedPrefix(existing: seq<Entry>, template: string, packages: seq<Package>, k: nat)
    requires k <= |packages| && Repeats(existing, Added(template, packages[..k]))
    ensures Repeats(existing, Added(template, packages))
  {
    hide Identity, EntryFor;
    var part, all := Added(template, packages[..k]), Added(template, packages);
    assert part == all[..k];
    assert forall a | a in part :: a in all;
    if i, j :| 0 <= i < j < |part| && Identity(part[i]) == Identity(part[j]) {
      assert all[i] == part[i] && all[j] == part[j];
    }
  }

  /** The writes, in order: package files, the archive index, the active index. */

  datatype Write = Place(path: string, hash: string) | PutArchive(index: Index) | PutActive(index: Index)

  function Places(added: seq<Entry>): seq<Write>
  {
    if added == [] then []
    else (if RepoRelative(added[0].url) then [Place(added[0].url[1..], added[0].hash)] else []) + Places(added[1..])
  }

  function Writes(rel: Release): seq<Write> { Places(rel.added) + [PutArchive(rel.archive), PutActive(rel.active)] }

  function Renamed(s: Site, w: Write): Site
  {
    match w
    case Place(path, hash) => s.(files := s.files[path := hash])
    case PutArchive(index) => s.(archive := index)
    case PutActive(index) => s.(active := index)
  }

  function Written(s: Site, writes: seq<Write>): Site
  {
    if writes == [] then s else Renamed(Written(s, writes[..|writes| - 1]), writes[|writes| - 1])
  }

  class Host {
    var site: Site

    // Everything is written beside its destination first; then the renames, one
    // by one. The ones already done stand when one fails.
    method Commit(writes: seq<Write>) returns (ok: bool)
      modifies this
      ensures ok ==> site == Written(old(site), writes)
      ensures exists k :: 0 <= k <= |writes| && site == Written(old(site), writes[..k])
    {
      if * {
        assert writes[..0] == [];
        return false;
      }
      for k := 0 to |writes|
        invariant site == Written(old(site), writes[..k])
      {
        if * { return false; }
        assert writes[..k + 1][..k] == writes[..k];
        site := Renamed(site, writes[k]);
      }
      assert writes[..|writes|] == writes;
      return true;
    }
  }
}
