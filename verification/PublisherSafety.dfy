/** Over all publishes, whole or torn, nothing archived is lost and everything
    advertised is served (internal/repopub, internal/repository/freshness.go). */
module PublisherSafety {
  import opened Sorting
  import opened Versions
  import opened Publisher
  import opened PublishedUrls

  /** The archive listing. */

  ghost predicate Unrepeated(entries: seq<Entry>)
  {
    && (forall e | e in entries :: multiset(entries)[e] == 1)
    && (forall e, f | e in entries && f in entries && Identity(e) == Identity(f) :: e == f)
  }

  ghost predicate SortedArchive(s: seq<Entry>)
  {
    forall i, j | 0 <= i < j < |s| :: !Before(s[j], s[i])
  }

  // "Not after" is transitive.
  lemma NotAfterChains(a: Entry, b: Entry, c: Entry)
    requires !Before(b, a) && !Before(c, b)
    ensures !Before(c, a) && (Before(a, b) ==> !Before(b, a))
  {
    hide Less, Compare;
    LessTotal(a.name, b.name);
    LessTotal(b.name, c.name);
    LessTotal(a.name, c.name);
    LessTotal(a.arch, b.arch);
    LessTotal(b.arch, c.arch);
    LessTotal(a.arch, c.arch);
    if Less(a.name, b.name) && Less(b.name, c.name) { LessTransitive(a.name, b.name, c.name); }
    if Less(a.arch, b.arch) && Less(b.arch, c.arch) { LessTransitive(a.arch, b.arch, c.arch); }
    CompareIsTotalPreorder(a.version, b.version, c.version);
    CompareIsTotalPreorder(c.version, b.version, a.version);
  }

  lemma BeforeIsNotAfter(a: Entry, b: Entry)
    requires Before(a, b)
    ensures !Before(b, a)
  {
    hide Less, Compare;
    LessTotal(a.name, b.name);
    LessTotal(a.arch, b.arch);
    CompareIsTotalPreorder(a.version, b.version, b.version);
  }

  lemma {:induction false} InsertSorts(e: Entry, s: seq<Entry>)
    requires SortedArchive(s)
    ensures SortedArchive(InsertEntry(e, s)) && multiset(InsertEntry(e, s)) == multiset(s) + multiset{e}
  {
    hide Before;
    if s == [] {
    } else if !Before(s[0], e) {
      forall j | 0 <= j < |s|
        ensures !Before(s[j], e)
      {
        if j > 0 { NotAfterChains(e, s[0], s[j]); }
      }
    } else {
      var rest := InsertEntry(e, s[1..]);
      InsertSorts(e, s[1..]);
      assert s == [s[0]] + s[1..];
      BeforeIsNotAfter(s[0], e);
      forall x | x in rest
        ensures !Before(x, s[0])
      {
        assert x in multiset(s[1..]) + multiset{e};
      }
    }
  }

  lemma NothingSorted()
    ensures SortedArchive([])
  {
  }

  lemma {:induction false} SortArchiveSorts(s: seq<Entry>)
    ensures SortedArchive(SortArchive(s)) && multiset(SortArchive(s)) == multiset(s)
    ensures forall e :: e in SortArchive(s) <==> e in s
  {
    hide Before, InsertEntry, SortedArchive;
    NothingSorted();
    if s != [] {
      SortArchiveSorts(s[1..]);
      InsertSorts(s[0], SortArchive(s[1..]));
      assert s == [s[0]] + s[1..];
    }
    assert forall e :: e in SortArchive(s) <==> e in multiset(SortArchive(s));
    assert forall e :: e in s <==> e in multiset(s);
  }

  // On a sorted archive the derivation fails exactly when some name's greatest
  // version is not unique.
  lemma SortedTie(entries: seq<Entry>)
    requires SortedArchive(entries)
    ensures TieMet(entries) <==> exists i, j :: GreatestTwice(entries, i, j)
  {
    hide Compare, Less;
    if i, j :| TieAt(entries, i, j) {
      forall m | 0 <= m < |entries| && entries[m].name == entries[i].name
        ensures Compare(entries[m].version, entries[i].version) <= 0
      {
        if m >= j {
          CompareIsTotalPreorder(entries[j].version, entries[j].version, entries[j].version);
          CompareIsTotalPreorder(entries[m].version, entries[j].version, entries[i].version);
          CompareIsTotalPreorder(entries[j].version, entries[i].version, entries[i].version);
        }
      }
      assert GreatestTwice(entries, i, j);
    }
    if i, j :| GreatestTwice(entries, i, j) {
      assert TieAt(entries, i, j);
    }
  }

  ghost predicate GreatestTwice(entries: seq<Entry>, i: int, j: int)
  {
    && 0 <= i < j < |entries| && entries[i].name == entries[j].name
    && Compare(entries[i].version, entries[j].version) == 0
    && forall m | 0 <= m < |entries| && entries[m].name == entries[i].name ::
       Compare(entries[m].version, entries[i].version) <= 0
  }

  // In any other order it can also fail on a version that is superseded later.
  lemma DerivationDependsOnOrder(a: Entry, b: Entry, c: Entry)
    requires a.name == b.name == c.name && Compare(a.version, b.version) == 0 && Compare(a.version, c.version) < 0
    ensures TieMet([a, b, c]) && !TieMet([c, a, b])
  {
    hide Compare;
    CompareIsTotalPreorder(a.version, b.version, c.version);
    CompareIsTotalPreorder(a.version, a.version, c.version);
    CompareIsTotalPreorder(c.version, b.version, a.version);
    CompareIsTotalPreorder(c.version, a.version, a.version);
    assert TieAt([a, b, c], 0, 1);
    var t := [c, a, b];
    assert t[0] == c && t[1] == a && t[2] == b;
    forall i, j
      ensures !TieAt(t, i, j)
    {
      assert t[0].name == a.name;
    }
  }

  lemma DerivedFor(entries: seq<Entry>, active: seq<Entry>, e: Entry) returns (a: Entry)
    requires Derives(entries, active) && e in entries
    ensures a in active && a in entries && a.name == e.name && Supersedes(a, e)
  {
    hide Supersedes, Less;
    a :| a in active && a.name == e.name;
  }

  // An entry no other of its name exceeds is the one in the derived view.
  lemma GreatestIsDerived(entries: seq<Entry>, active: seq<Entry>, i: nat) returns (a: Entry)
    requires i < |entries| && Derives(entries, active)
    requires forall m | 0 <= m < |entries| && entries[m].name == entries[i].name ::
             Compare(entries[m].version, entries[i].version) <= 0
    ensures a in active && a.name == entries[i].name && entries[i] == a
  {
    hide Compare, Less, Derives;
    a := DerivedFor(entries, active, entries[i]);
    CompareIsTotalPreorder(entries[i].version, a.version, a.version);
  }

  // Entries that are all different and have a derived view are not tied once sorted.
  lemma SortedDerives(entries: seq<Entry>, active: seq<Entry>)
    requires SortedArchive(entries) && Unrepeated(entries) && Derives(entries, active)
    ensures !TieMet(entries)
  {
    hide Compare, Less, Before, Derives, Identity;
    SortedTie(entries);
    if i, j :| GreatestTwice(entries, i, j) {
      var a := GreatestIsDerived(entries, active, i);
      forall m | 0 <= m < |entries| && entries[m].name == entries[j].name
        ensures Compare(entries[m].version, entries[j].version) <= 0
      {
        CompareIsTotalPreorder(entries[m].version, entries[i].version, entries[j].version);
      }
      var b := GreatestIsDerived(entries, active, j);
      OnePerName(entries, active, a, b);
      TwiceCounts(entries, i, j);
      assert false;
    }
  }

  lemma OnePerName(entries: seq<Entry>, active: seq<Entry>, a: Entry, b: Entry)
    requires Derives(entries, active) && a in active && b in active && a.name == b.name
    ensures a == b
  {
    hide Compare, Less;
    assert Supersedes(a, b) && Supersedes(b, a);
    CompareIsTotalPreorder(a.version, b.version, b.version);
  }

  lemma TwiceCounts(s: seq<Entry>, i: nat, j: nat)
    requires i < j < |s| && s[i] == s[j]
    ensures multiset(s)[s[i]] >= 2
  {
    assert s == s[..j] + s[j..] && s[..j][i] == s[i] && s[j..][0] == s[i];
    assert s[i] in multiset(s[..j]) && s[i] in multiset(s[j..]);
  }

  lemma {:induction false} OnceEach(s: seq<Entry>)
    requires forall i, j | 0 <= i < j < |s| :: s[i] != s[j]
    ensures forall e | e in s :: multiset(s)[e] == 1
  {
    if s != [] {
      var t := s[1..];
      OnceEach(t);
      assert s == [s[0]] + t;
      assert s[0] !in t;
      assert forall e | e in t :: e in multiset(t);
    }
  }

  lemma UnrepeatedAppend(existing: seq<Entry>, added: seq<Entry>)
    requires Unrepeated(existing) && !Repeats(existing, added)
    ensures Unrepeated(existing + added) && Unrepeated(SortArchive(existing + added))
  {
    hide Identity, Before;
    var all := existing + added;
    forall i, j | 0 <= i < j < |added|
      ensures added[i] != added[j]
    {
    }
    OnceEach(added);
    forall e | e in all
      ensures multiset(all)[e] == 1
    {
      assert !(e in existing && e in added);
    }
    SortArchiveSorts(all);
  }

  /** What holds on disk at every moment. */

  ghost predicate Served(s: Site, e: Entry)
  {
    WellNamed(e) && Conventional(e) && RepoRelative(e.url) && e.url[1..] in s.files && s.files[e.url[1..]] == e.hash
  }

  ghost predicate Consistent(s: Site)
  {
    && 1 <= s.active.version <= s.archive.version
    && s.active.stamp <= s.archive.stamp
    && Unrepeated(s.archive.entries)
    && (forall e | e in s.active.entries :: e in s.archive.entries)
    && (forall e | e in s.archive.entries :: Served(s, e))
  }

  // What holds between whole publishes.
  ghost predicate Settled(s: Site)
  {
    && Consistent(s)
    && s.active.version == s.archive.version && s.active.stamp == s.archive.stamp
    && SortedArchive(s.archive.entries) && Derives(s.archive.entries, s.active.entries)
  }

  // One run of the publisher: it stops after `done` of its renames.
  datatype Attempt = Attempt(packages: seq<Package>, stamp: int, release: Release, done: nat)

  ghost predicate Attempted(s: Site, t: Site, a: Attempt)
  {
    && Publishes(s, a.packages, DEFAULT_TEMPLATE, a.stamp, a.release)
    && (forall e | e in a.release.added :: WellNamed(e))
    && s.archive.stamp <= a.stamp
    && a.done <= |Writes(a.release)| && t == Written(s, Writes(a.release)[..a.done])
  }

  predicate Whole(a: Attempt) { a.done == |Writes(a.release)| }

  lemma {:induction false} PlacesAll(added: seq<Entry>)
    requires forall e | e in added :: RepoRelative(e.url)
    ensures |Places(added)| == |added|
    ensures forall i | 0 <= i < |added| ::
              RepoRelative(added[i].url) && Places(added)[i] == Place(added[i].url[1..], added[i].hash)
  {
    if added != [] {
      assert added == [added[0]] + added[1..];
      PlacesAll(added[1..]);
    }
  }

  // The package files alone: both indexes stand, no advertised file changes.
  lemma {:induction false} PlacesOnly(s: Site, added: seq<Entry>, k: nat)
    requires k <= |added| && (forall e | e in added :: WellNamed(e) && Conventional(e))
    requires forall e | e in s.archive.entries :: Served(s, e)
    requires !Repeats(s.archive.entries, added)
    ensures |Places(added)| == |added|
    ensures var t := Written(s, Places(added)[..k]);
      && t == s.(files := t.files)
      && (forall e | e in s.archive.entries :: Served(t, e))
      && (forall i | 0 <= i < k :: Served(t, added[i]))
  {
    hide Identity, Expand, Conventional, WellNamed;
    forall e | e in added
      ensures RepoRelative(e.url)
    {
      DefaultInjective(e, e);
    }
    PlacesAll(added);
    var w := Places(added);
    if k > 0 {
      assert w[..k][..k - 1] == w[..k - 1];
      PlacesOnly(s, added, k - 1);
      var e := added[k - 1];
      assert e in added;
      forall f | f in s.archive.entries || exists i :: 0 <= i < k - 1 && added[i] == f
        ensures f.url[1..] != e.url[1..]
      {
        assert Identity(f) != Identity(e);
        DefaultInjective(f, e);
      }
    }
  }

  lemma AddedConventional(template: string, packages: seq<Package>)
    ensures forall e | e in Added(DEFAULT_TEMPLATE, packages) :: Conventional(e)
  {
    hide Expand;
  }

  lemma WrittenSnoc(s: Site, writes: seq<Write>, w: Write)
    ensures Written(s, writes + [w]) == Renamed(Written(s, writes), w)
  {
    assert (writes + [w])[..|writes|] == writes;
  }

  lemma WritesPrefix(rel: Release, done: nat)
    requires |Places(rel.added)| == |rel.added| && done <= |Writes(rel)|
    ensures |Writes(rel)| == |rel.added| + 2
    ensures done <= |rel.added| ==> Writes(rel)[..done] == Places(rel.added)[..done]
    ensures done == |rel.added| + 1 ==> Writes(rel)[..done] == Places(rel.added) + [PutArchive(rel.archive)]
    ensures done == |rel.added| + 2 ==>
              Writes(rel)[..done] == Places(rel.added) + [PutArchive(rel.archive)] + [PutActive(rel.active)]
  {
    assert Places(rel.added) + [PutArchive(rel.archive)] + [PutActive(rel.active)] == Writes(rel);
  }

  // Where an attempt leaves the indexes and the files.
  lemma AttemptShape(s: Site, t: Site, a: Attempt)
    requires Consistent(s) && Attempted(s, t, a)
    ensures |Writes(a.release)| == |a.release.added| + 2
    ensures t.archive == (if a.done > |a.release.added| then a.release.archive else s.archive)
    ensures t.active == (if a.done > |a.release.added| + 1 then a.release.active else s.active)
    ensures forall e | e in s.archive.entries :: Served(t, e)
    ensures a.done > |a.release.added| ==> forall e | e in a.release.added :: Served(t, e)
  {
    hide Expand, Identity, Repeats, Unrepeated, Derives, TieMet, SortArchive;
    hide ValidTemplate, Conventional, WellNamed, Places, Writes, Written;
    var added := a.release.added;
    var n := |added|;
    var p := Places(added);
    AddedConventional(DEFAULT_TEMPLATE, a.packages);
    var k := if a.done < n then a.done else n;
    PlacesOnly(s, added, k);
    WritesPrefix(a.release, a.done);
    assert p[..n] == p;
    WrittenSnoc(s, p, PutArchive(a.release.archive));
    WrittenSnoc(s, p + [PutArchive(a.release.archive)], PutActive(a.release.active));
    var u := Written(s, p[..k]);
    assert t.files == u.files;
    forall e | Served(u, e)
      ensures Served(t, e)
    {
    }
  }

  // What an attempt is made of.
  lemma AttemptMeans(s: Site, t: Site, a: Attempt)
    requires Attempted(s, t, a)
    ensures !Repeats(s.archive.entries, a.release.added) && s.archive.stamp <= a.stamp && a.done <= |Writes(a.release)|
    ensures a.release.archive == Index(NextVersion(s), a.stamp, SortArchive(s.archive.entries + a.release.added))
    ensures a.release.active.version == NextVersion(s) && a.release.active.stamp == a.stamp
    ensures Derives(s.archive.entries + a.release.added, a.release.active.entries)
  {
    hide Expand, Repeats, SortArchive, Derives, TieMet, ValidTemplate, Writes, Written, WellNamed;
  }

  lemma NextIsAbove(s: Site)
    ensures NextVersion(s) > s.archive.version && NextVersion(s) > s.active.version
  {
  }

  // Every prefix of the renames leaves a consistent site: nothing archived goes
  // or changes, and versions never go back.
  lemma AttemptKeeps(s: Site, t: Site, a: Attempt)
    requires Consistent(s) && Attempted(s, t, a)
    ensures Consistent(t)
    ensures forall e | e in s.archive.entries :: e in t.archive.entries
    ensures s.archive.version <= t.archive.version && s.active.version <= t.active.version
    ensures s.archive.stamp <= t.archive.stamp && s.active.stamp <= t.active.stamp
    ensures Whole(a) ==> Settled(t) && t.archive.version == NextVersion(s) && t.archive.stamp == a.stamp
  {
    hide Attempted, Served, Repeats, Unrepeated, SortArchive, SortedArchive, Derives, Writes, NextVersion;
    AttemptShape(s, t, a);
    AttemptMeans(s, t, a);
    NextIsAbove(s);
    var all := s.archive.entries + a.release.added;
    SortArchiveSorts(all);
    UnrepeatedAppend(s.archive.entries, a.release.added);
    assert forall e :: e in all <==> e in s.archive.entries || e in a.release.added;
    DerivedListed(all, a.release.active.entries);
    if Whole(a) {
      SameEntries(all, t.archive.entries, t.active.entries);
    }
  }

  // The entry a package gets: its own fields, and the place of its file.
  predicate EntryOfPackage(e: Entry, p: Package)
  {
    && e.name == p.name && e.version == p.version && e.arch == p.arch && e.hash == p.hash
    && e.url == "/p/" + p.name + "/" + p.version.text + "/" + p.name + "_" + p.version.text + "_" + p.arch + ".peipkg"
  }

  // Its file is there, with its bytes.
  ghost predicate InPlace(t: Site, p: Package)
  {
    exists e | e in t.archive.entries ::
      EntryOfPackage(e, p) && e.url != "" && e.url[1..] in t.files && t.files[e.url[1..]] == p.hash
  }

  // After a whole publish the archive is what it was and one such entry for every
  // package, each file is there with the bytes of its package, and the version is the
  // least above both old ones.
  lemma PublishedIsServed(s: Site, t: Site, a: Attempt, v: int)
    requires Consistent(s) && Attempted(s, t, a) && Whole(a)
    ensures forall e :: e in t.archive.entries ==>
              e in s.archive.entries || exists p | p in a.packages :: EntryOfPackage(e, p)
    ensures forall e | e in s.archive.entries :: e in t.archive.entries
    ensures forall p | p in a.packages :: InPlace(t, p)
    ensures t.archive.version <= v <==> s.archive.version < v && s.active.version < v
  {
    hide Expand, Served, Repeats, Unrepeated, SortArchive, Derives, Writes, NextVersion, Identity, TieMet;
    hide EntryOfPackage, Consistent, Written, InPlace;
    AttemptKeeps(s, t, a);
    AttemptShape(s, t, a);
    NextVersionIsLeast(s, v);
    SortArchiveSorts(s.archive.entries + a.release.added);
    assert forall e :: e in t.archive.entries <==> e in s.archive.entries || e in a.release.added;
    AddedAre(a.packages);
    forall p | p in a.packages
      ensures InPlace(t, p)
    {
      var i :| 0 <= i < |a.packages| && a.packages[i] == p;
      assert a.release.added[i] in a.release.added;
      ServedBytes(t, a.release.added[i], p);
    }
  }

  lemma AddedAre(packages: seq<Package>)
    ensures |Added(DEFAULT_TEMPLATE, packages)| == |packages|
    ensures forall i | 0 <= i < |packages| :: EntryOfPackage(Added(DEFAULT_TEMPLATE, packages)[i], packages[i])
    ensures forall e | e in Added(DEFAULT_TEMPLATE, packages) :: exists p | p in packages :: EntryOfPackage(e, p)
  {
    hide EntryOfPackage, EntryFor;
    var added := Added(DEFAULT_TEMPLATE, packages);
    forall i | 0 <= i < |packages|
      ensures EntryOfPackage(added[i], packages[i]) && packages[i] in packages
    {
      OnePackage(packages[i]);
    }
  }

  lemma ServedBytes(t: Site, e: Entry, p: Package)
    requires Served(t, e) && EntryOfPackage(e, p) && e in t.archive.entries
    ensures InPlace(t, p)
  {
  }

  lemma OnePackage(p: Package)
    ensures EntryOfPackage(EntryFor(DEFAULT_TEMPLATE, p), p)
  {
    hide Expand;
    ExpandDefault(p.name, p.version.text, p.arch);
    var v := p.version.text;
    assert "/p/" + p.name + "/" + v + "/" + Filename(p.name, v, p.arch) ==
           "/p/" + p.name + "/" + v + "/" + p.name + "_" + v + "_" + p.arch + ".peipkg";
  }

  lemma DerivedListed(entries: seq<Entry>, active: seq<Entry>)
    requires Derives(entries, active)
    ensures forall e | e in active :: e in entries
  {
    hide Less, Supersedes;
  }

  lemma SameEntries(a: seq<Entry>, b: seq<Entry>, active: seq<Entry>)
    requires Derives(a, active) && forall e :: e in a <==> e in b
    ensures Derives(b, active)
  {
    hide Less, Compare;
  }

  /** Histories. */

  ghost predicate History(sites: seq<Site>, attempts: seq<Attempt>)
  {
    && |sites| == |attempts| + 1 && Consistent(sites[0])
    && forall i | 0 <= i < |attempts| :: Attempted(sites[i], sites[i + 1], attempts[i])
  }

  lemma InitIsSettled(stamp: int)
    ensures Settled(Site(map[], Index(1, stamp, []), Index(1, stamp, [])))
  {
  }

  // At every moment of every history, torn or not: nothing archived before is
  // lost, duplicated or changed; the active index lists archived entries only;
  // every listed file is there with its listed bytes; versions never go back.
  lemma {:induction false} HistoryKeeps(sites: seq<Site>, attempts: seq<Attempt>, i: nat, j: nat)
    requires History(sites, attempts) && i <= j < |sites|
    ensures Consistent(sites[i]) && Consistent(sites[j])
    ensures forall e | e in sites[i].archive.entries :: e in sites[j].archive.entries
    ensures sites[i].archive.version <= sites[j].archive.version && sites[i].active.version <= sites[j].active.version
    ensures sites[i].archive.stamp <= sites[j].archive.stamp && sites[i].active.stamp <= sites[j].active.stamp
    decreases j
  {
    hide Consistent, Attempted;
    if j > 0 {
      HistoryKeeps(sites, attempts, if i < j then i else j - 1, j - 1);
      AttemptKeeps(sites[j - 1], sites[j], attempts[j - 1]);
    }
  }

  // A whole publish settles the repository whatever was torn before it, at a
  // version above every earlier one.
  lemma WholePublishHeals(sites: seq<Site>, attempts: seq<Attempt>, i: nat, k: nat)
    requires History(sites, attempts) && i <= k < |attempts| && Whole(attempts[k])
    ensures Settled(sites[k + 1])
    ensures sites[i].archive.version < sites[k + 1].archive.version
    ensures sites[i].active.version < sites[k + 1].active.version
  {
    hide Consistent, Attempted;
    HistoryKeeps(sites, attempts, i, k);
    AttemptKeeps(sites[k], sites[k + 1], attempts[k]);
  }

  // Trying the same packages again after a tear between the two indexes is
  // refused: their identities are archived. Another publish heals it.
  lemma RetryIsRefused(s: Site, t: Site, a: Attempt, stamp: int, rel: Release)
    requires Consistent(s) && Attempted(s, t, a) && a.done == |Writes(a.release)| - 1
    ensures t.active == s.active && t.archive == a.release.archive
    ensures !Publishes(t, a.packages, DEFAULT_TEMPLATE, stamp, rel)
  {
    hide Expand, Identity, Before, Served, Unrepeated, TieMet, ValidTemplate, Written, Derives;
    AttemptShape(s, t, a);
    SortArchiveSorts(s.archive.entries + a.release.added);
    var e := a.release.added[0];
    assert e in a.release.added && e in t.archive.entries;
  }

  /** Consumers. */

  datatype Freshness = Rejected | NoProgress | Progress

  function CheckFreshness(index: Index, version: int, stamp: int): Freshness
  {
    if index.version < version then Rejected
    else if index.stamp < stamp then Rejected
    else if index.version == version && index.stamp == stamp then NoProgress
    else Progress
  }

  // Behind in either is a rollback, the very floor is a freeze, and progress is ahead
  // in one and behind in neither.
  lemma FreshnessExactly(index: Index, version: int, stamp: int)
    ensures CheckFreshness(index, version, stamp) == Rejected <==> index.version < version || index.stamp < stamp
    ensures CheckFreshness(index, version, stamp) == NoProgress <==> (index.version, index.stamp) == (version, stamp)
    ensures CheckFreshness(index, version, stamp) == Progress <==>
            && version <= index.version && stamp <= index.stamp && (version < index.version || stamp < index.stamp)
  {
  }

  // With a whole publish between them, a consumer floored at the earlier of two
  // settled states takes both indexes of the later one as progress, and one
  // floored at the later rejects both indexes of the earlier.
  lemma LaterIsAccepted(sites: seq<Site>, attempts: seq<Attempt>, i: nat, k: nat, j: nat)
    requires History(sites, attempts) && i <= k < j < |sites| && Whole(attempts[k])
    requires Settled(sites[i]) && Settled(sites[j])
    ensures var s, t := sites[i], sites[j];
      && CheckFreshness(t.archive, s.archive.version, s.archive.stamp) == Progress
      && CheckFreshness(t.active, s.archive.version, s.archive.stamp) == Progress
      && CheckFreshness(s.archive, t.archive.version, t.archive.stamp) == Rejected
      && CheckFreshness(s.active, t.archive.version, t.archive.stamp) == Rejected
  {
    hide Consistent, Attempted, Derives, SortedArchive, Whole;
    WholePublishHeals(sites, attempts, i, k);
    HistoryKeeps(sites, attempts, k + 1, j);
    HistoryKeeps(sites, attempts, i, j);
  }

  predicate IndexesAgree(s: Site) { s.active.version == s.archive.version && s.active.stamp == s.archive.stamp }

  // At any moment, a consumer that has taken the archive index can take the active
  // one exactly when the two agree: that is what a tear between them costs.
  lemma AgreementIsAcceptance(sites: seq<Site>, attempts: seq<Attempt>, i: nat)
    requires History(sites, attempts) && i < |sites|
    ensures var s := sites[i];
      CheckFreshness(s.active, s.archive.version, s.archive.stamp) != Rejected <==> IndexesAgree(s)
  {
    hide Attempted, Unrepeated, Served;
    HistoryKeeps(sites, attempts, i, i);
  }
}
