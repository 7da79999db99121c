/** The audit of the two indexes (internal/repopub/verify.go) passes exactly on
    settled repositories. */
module PublicationAudit {
  import opened Wrappers
  import opened Sorting
  import opened Versions
  import opened Publisher
  import opened PublisherSafety

  // What the active index says of a name: its last entry.
  function Advertised(active: seq<Entry>, name: string): Option<Version>
  {
    if active == [] then None
    else if active[|active| - 1].name == name then Some(active[|active| - 1].version)
    else Advertised(active[..|active| - 1], name)
  }

  // A version no archived entry of the name exceeds, and one has.
  ghost predicate IsCurrent(archive: seq<Entry>, name: string, v: Version)
  {
    && (exists a :: a in archive && a.name == name && Compare(a.version, v) == 0)
    && forall a | a in archive && a.name == name :: Compare(a.version, v) <= 0
  }

  ghost predicate KnownIdentity(archive: seq<Entry>, e: Entry)
  {
    exists a :: a in archive && Identity(a) == Identity(e)
  }

  ghost predicate KnownName(archive: seq<Entry>, name: string) { exists a :: a in archive && a.name == name }

  ghost predicate CurrentEverywhere(archive: seq<Entry>, active: seq<Entry>)
  {
    forall e | e in archive ::
      Advertised(active, e.name).Some? && IsCurrent(archive, e.name, Advertised(active, e.name).value)
  }

  ghost predicate AuditClean(s: Site)
  {
    && (forall e | e in s.active.entries :: KnownIdentity(s.archive.entries, e))
    && !TieMet(s.archive.entries)
    && CurrentEverywhere(s.archive.entries, s.active.entries)
    && (forall e | e in s.active.entries :: KnownName(s.archive.entries, e.name))
  }

  method HaveVersions(active: seq<Entry>) returns (have: map<string, Version>)
    ensures forall name ::
              if name in have then Advertised(active, name) == Some(have[name]) else Advertised(active, name) == None
    ensures forall name :: name in have <==> exists e :: e in active && e.name == name
  {
    have := map[];
    for i := 0 to |active|
      invariant forall name :: if name in have then Advertised(active[..i], name) == Some(have[name])
                               else Advertised(active[..i], name) == None
      invariant forall name :: name in have <==> exists e :: e in active[..i] && e.name == name
    {
      assert active[..i + 1] == active[..i] + [active[i]];
      assert active[..i + 1][..i] == active[..i];
      have := have[active[i].name := active[i].version];
    }
    assert active[..|active|] == active;
  }

  method VerifyActiveDerivation(s: Site) returns (problems: nat)
    ensures problems == 0 <==> AuditClean(s)
  {
    hide Compare, Identity, Less;
    var archive, active := s.archive.entries, s.active.entries;
    var known := set e | e in archive :: Identity(e);
    problems := 0;
    for i := 0 to |active|
      invariant problems == 0 <==> forall e | e in active[..i] :: KnownIdentity(archive, e)
    {
      assert active[..i + 1] == active[..i] + [active[i]];
      assert KnownIdentity(archive, active[i]) <==> Identity(active[i]) in known;
      assert forall e | e in active[..i] :: e in active[..i + 1];
      if Identity(active[i]) !in known { problems := problems + 1; }
    }
    assert active[..|active|] == active;
    var derived := DeriveActive(archive);
    if derived.None? {
      return problems + 1;
    }
    var want := derived.value;
    var have := HaveVersions(active);
    var stale := WrongVersions(archive, want, active, have);
    var unknown := UnknownNames(archive, want, have.Keys);
    problems := problems + stale + unknown;
  }

  method UnknownNames(archive: seq<Entry>, want: seq<Entry>, names: set<string>) returns (n: nat)
    requires Derives(archive, want)
    ensures n == 0 <==> forall name | name in names :: KnownName(archive, name)
  {
    hide Derives, KnownName;
    n := 0;
    var left := names;
    while left != {}
      invariant left <= names && (n == 0 <==> forall name | name in names - left :: KnownName(archive, name))
      decreases left
    {
      var name :| name in left;
      WantedName(archive, want, name);
      var found := exists e | e in want :: e.name == name;
      if !found { n := n + 1; }
      ghost var was := left;
      left := left - {name};
      assert names - left == (names - was) + {name};
    }
    assert names - left == names;
  }

  lemma WantedName(archive: seq<Entry>, want: seq<Entry>, name: string)
    requires Derives(archive, want)
    ensures (exists e | e in want :: e.name == name) <==> KnownName(archive, name)
  {
    hide Compare, Less, Supersedes;
  }

  method WrongVersions(archive: seq<Entry>, want: seq<Entry>, active: seq<Entry>, have: map<string, Version>)
    returns (n: nat)
    requires Derives(archive, want)
    requires forall name ::
               if name in have then Advertised(active, name) == Some(have[name]) else Advertised(active, name) == None
    ensures n == 0 <==> CurrentEverywhere(archive, active)
  {
    hide Compare, Less, Derives, Advertised, IsCurrent;
    n := 0;
    for i := 0 to |want|
      invariant n == 0 <==> forall j | 0 <= j < i ::
                want[j].name in have && IsCurrent(archive, want[j].name, have[want[j].name])
    {
      if want[i].name !in have {
        n := n + 1;
      } else {
        CurrentWhenEqual(archive, want, want[i], have[want[i].name]);
        if Compare(have[want[i].name], want[i].version) != 0 { n := n + 1; }
      }
    }
    if n == 0 {
      forall e | e in archive
        ensures Advertised(active, e.name).Some? && IsCurrent(archive, e.name, Advertised(active, e.name).value)
      {
        var a := DerivedFor(archive, want, e);
        var j :| 0 <= j < |want| && want[j] == a;
      }
    } else {
      ghost var j :| 0 <= j < |want| && !(want[j].name in have && IsCurrent(archive, want[j].name, have[want[j].name]));
      WantIsArchived(archive, want, want[j]);
    }
  }

  lemma WantIsArchived(archive: seq<Entry>, want: seq<Entry>, w: Entry)
    requires Derives(archive, want) && w in want
    ensures w in archive
  {
    hide Compare, Less, Supersedes;
  }

  lemma WantSupersedes(archive: seq<Entry>, want: seq<Entry>, w: Entry)
    requires Derives(archive, want) && w in want
    ensures forall a | a in archive && a.name == w.name :: Supersedes(w, a)
  {
    hide Supersedes, Less;
  }

  lemma CurrentWhenEqual(archive: seq<Entry>, want: seq<Entry>, w: Entry, v: Version)
    requires Derives(archive, want) && w in want
    ensures Compare(v, w.version) == 0 <==> IsCurrent(archive, w.name, v)
  {
    hide Compare, Less, Derives;
    WantIsArchived(archive, want, w);
    WantSupersedes(archive, want, w);
    CompareIsTotalPreorder(v, w.version, v);
    if Compare(v, w.version) == 0 {
      forall a | a in archive && a.name == w.name
        ensures Compare(a.version, v) <= 0
      {
        assert Supersedes(w, a);
        CompareIsTotalPreorder(a.version, w.version, v);
      }
    } else if IsCurrent(archive, w.name, v) {
      var a :| a in archive && a.name == w.name && Compare(a.version, v) == 0;
      assert Supersedes(w, a);
      CompareIsTotalPreorder(a.version, w.version, v);
      CompareIsTotalPreorder(v, a.version, w.version);
      CompareIsTotalPreorder(w.version, v, v);
    }
  }

  /** What passing the audit means. */

  ghost predicate NamesAscend(active: seq<Entry>)
  {
    forall i, j | 0 <= i < j < |active| :: Less(active[i].name, active[j].name)
  }

  lemma {:induction false} AdvertisedIs(active: seq<Entry>, a: Entry)
    requires NamesAscend(active) && a in active
    ensures Advertised(active, a.name) == Some(a.version)
  {
    hide Less;
    var n := |active| - 1;
    if a == active[n] {
    } else {
      var i :| 0 <= i < |active| && active[i] == a;
      LessTotal(active[i].name, active[n].name);
      assert active[..n][i] == a;
      AdvertisedIs(active[..n], a);
    }
  }

  lemma DerivedNames(archive: seq<Entry>, active: seq<Entry>)
    requires Derives(archive, active)
    ensures NamesAscend(active)
  {
    hide Less, Supersedes;
  }

  lemma DerivesIsClean(s: Site)
    requires Settled(s)
    ensures AuditClean(s)
  {
    hide Compare, Less, Identity, Before, Served, Advertised, Derives, Unrepeated, IsCurrent, SortedArchive, TieMet;
    var archive, active := s.archive.entries, s.active.entries;
    SortedDerives(archive, active);
    DerivedNames(archive, active);
    forall e | e in archive
      ensures Advertised(active, e.name).Some? && IsCurrent(archive, e.name, Advertised(active, e.name).value)
    {
      var a := DerivedFor(archive, active, e);
      AdvertisedIs(active, a);
      CompareIsTotalPreorder(a.version, a.version, a.version);
      CurrentWhenEqual(archive, active, a, a.version);
    }
  }

  lemma CleanDerives(s: Site)
    requires Consistent(s) && SortedArchive(s.archive.entries) && NamesAscend(s.active.entries) && AuditClean(s)
    ensures Derives(s.archive.entries, s.active.entries)
  {
    hide Compare, Less, Identity, Before, Served, Unrepeated, TieMet, Advertised, IsCurrent;
    var archive, active := s.archive.entries, s.active.entries;
    forall a, e | a in active && e in archive && e.name == a.name
      ensures Supersedes(a, e)
    {
      AdvertisedIs(active, a);
      NotTied(archive, a, e);
    }
    forall e | e in archive
      ensures exists a :: a in active && a.name == e.name
    {
      AdvertisedEntry(active, e.name);
    }
  }

  lemma {:induction false} AdvertisedEntry(active: seq<Entry>, name: string)
    requires Advertised(active, name).Some?
    ensures exists a :: a in active && a.name == name
  {
    if active[|active| - 1].name != name {
      AdvertisedEntry(active[..|active| - 1], name);
    }
  }

  // Of two archived entries, the current one is strictly above the other.
  lemma NotTied(archive: seq<Entry>, a: Entry, e: Entry)
    requires SortedArchive(archive) && !TieMet(archive) && a in archive && e in archive && e.name == a.name
    requires IsCurrent(archive, a.name, a.version)
    ensures Supersedes(a, e)
  {
    hide Compare, Less, Before;
    if e != a && Compare(e.version, a.version) == 0 {
      var i :| 0 <= i < |archive| && archive[i] == a;
      var j :| 0 <= j < |archive| && archive[j] == e;
      var lo, hi := if i < j then i else j, if i < j then j else i;
      CompareIsTotalPreorder(a.version, e.version, e.version);
      forall m | 0 <= m < |archive| && archive[m].name == archive[lo].name
        ensures Compare(archive[m].version, archive[lo].version) <= 0
      {
        CompareIsTotalPreorder(archive[m].version, a.version, archive[lo].version);
        CompareIsTotalPreorder(a.version, a.version, a.version);
      }
      assert GreatestTwice(archive, lo, hi);
      SortedTie(archive);
      assert false;
    }
  }

  // On what can be found on disk, both audits pass exactly when the repository is
  // settled: the versions agree and the active index is the derived view.
  lemma AuditIsExact(s: Site)
    requires Consistent(s) && SortedArchive(s.archive.entries) && NamesAscend(s.active.entries)
    ensures IndexesAgree(s) && AuditClean(s) <==> Settled(s)
  {
    hide Consistent, AuditClean, Derives, SortedArchive, NamesAscend;
    if Settled(s) { DerivesIsClean(s); }
    if AuditClean(s) { CleanDerives(s); }
  }

  // What an index on disk is always like.
  ghost predicate Ordered(s: Site) { SortedArchive(s.archive.entries) && NamesAscend(s.active.entries) }

  lemma AttemptOrders(s: Site, t: Site, a: Attempt)
    requires Consistent(s) && Ordered(s) && Attempted(s, t, a)
    ensures Ordered(t)
  {
    hide Served, Unrepeated, Writes, Written, NextVersion, Identity, Before;
    hide Less, Compare, TieMet, Repeats, NamesAscend;
    AttemptShape(s, t, a);
    SortArchiveSorts(s.archive.entries + a.release.added);
    DerivedNames(s.archive.entries + a.release.added, a.release.active.entries);
  }

  lemma {:induction false} HistoryOrders(sites: seq<Site>, attempts: seq<Attempt>, i: nat)
    requires History(sites, attempts) && Settled(sites[0]) && i < |sites|
    ensures Ordered(sites[i])
  {
    hide Attempted, Consistent, SortedArchive, Derives;
    if i == 0 {
      DerivedNames(sites[0].archive.entries, sites[0].active.entries);
    } else {
      HistoryOrders(sites, attempts, i - 1);
      HistoryKeeps(sites, attempts, i - 1, i - 1);
      AttemptOrders(sites[i - 1], sites[i], attempts[i - 1]);
    }
  }

  // So at every moment of every history that starts settled, torn or not, the audits
  // tell exactly whether the repository is settled.
  lemma AuditsTellSettled(sites: seq<Site>, attempts: seq<Attempt>, i: nat)
    requires History(sites, attempts) && Settled(sites[0]) && i < |sites|
    ensures IndexesAgree(sites[i]) && AuditClean(sites[i]) <==> Settled(sites[i])
  {
    hide History, AuditClean, Settled, IndexesAgree, SortedArchive, NamesAscend, Consistent;
    HistoryOrders(sites, attempts, i);
    HistoryKeeps(sites, attempts, i, i);
    AuditIsExact(sites[i]);
  }
}
