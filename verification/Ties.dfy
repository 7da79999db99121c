/** Entries of one package that no version order separates (DeriveActive and Publish
    in internal/repopub): they need not differ in architecture. */
module Ties {
  import opened Wrappers
  import opened Versions
  import opened Publisher
  import opened PublishedUrls

  // Two different entries of one name share an architecture only when their versions
  // are spelled apart; one spelling forces two architectures.
  lemma TiedApart(a: Entry, b: Entry)
    requires a.name == b.name && Identity(a) != Identity(b)
    ensures a.arch == b.arch ==> a.version.text != b.version.text
    ensures a.version.text == b.version.text ==> a.arch != b.arch
  {
  }

  // Whatever ties with the newest archived version of its name cannot be published:
  // for any architecture, and any spelling.
  lemma TieIsRefused(s: Site, packages: seq<Package>, template: string, stamp: int, i: nat, p: Package)
    requires i < |s.archive.entries| && s.archive.entries[i].name == p.name && p in packages
    requires Compare(s.archive.entries[i].version, p.version) == 0
    requires forall e | e in s.archive.entries + Added(template, packages) && e.name == p.name ::
               Compare(e.version, p.version) <= 0
    ensures TieMet(s.archive.entries + Added(template, packages))
    ensures forall rel :: !Publishes(s, packages, template, stamp, rel)
  {
    hide Compare, Expand, Identity;
    var all := s.archive.entries + Added(template, packages);
    var j :| 0 <= j < |packages| && packages[j] == p;
    var n := |s.archive.entries| + j;
    assert all[n] == Added(template, packages)[j] && all[n].version == p.version && all[n].name == p.name;
    forall m | 0 <= m < n && all[m].name == p.name
      ensures Compare(all[m].version, all[i].version) <= 0
    {
      assert all[m] in all;
      CompareIsTotalPreorder(all[m].version, p.version, all[i].version);
      CompareIsTotalPreorder(all[i].version, p.version, p.version);
    }
    assert TieAt(all, i, n);
  }

  function Spelled(word: string): Package
    requires Parse(Snapshot(word)).Some?
  {
    Package("aa", Parse(Snapshot(word)).value, "x86", word)
  }

  function HoldingOne(p: Package): Site
  {
    var index := Index(1, 0, [EntryFor(DEFAULT_TEMPLATE, p)]);
    Site(map[], index, index)
  }

  // One name, one architecture, two spellings of one version: both are identities of
  // their own, and publishing the second beside the first is refused as a tie.
  lemma SecondSpellingIsRefused(stamp: int)
    ensures Parse(Snapshot("alpha")).Some? && Parse(Snapshot("a")).Some?
    ensures var s, p := HoldingOne(Spelled("alpha")), Spelled("a");
      && p.name == s.archive.entries[0].name && p.arch == s.archive.entries[0].arch
      && !Repeats(s.archive.entries, Added(DEFAULT_TEMPLATE, [p]))
      && TieMet(s.archive.entries + Added(DEFAULT_TEMPLATE, [p]))
      && forall rel :: !Publishes(s, [p], DEFAULT_TEMPLATE, stamp, rel)
  {
    hide Expand, Parse, Compare, PreReleaseRank, Publishes, TieMet;
    TwoSpellings();
    AliasesTie("alpha", "a");
    var s, p := HoldingOne(Spelled("alpha")), Spelled("a");
    var e, f := s.archive.entries[0], EntryFor(DEFAULT_TEMPLATE, p);
    ParsedText(Snapshot("alpha"));
    ParsedText(Snapshot("a"));
    DifferentTexts(e, f);
    assert Added(DEFAULT_TEMPLATE, [p]) == [f];
    CompareIsTotalPreorder(p.version, p.version, p.version);
    assert s.archive.entries + [f] == [e, f];
    TieIsRefused(s, [p], DEFAULT_TEMPLATE, stamp, 0, p);
  }

  lemma DifferentTexts(e: Entry, f: Entry)
    requires e.name == f.name == "aa" && e.arch == f.arch == "x86" && e.version.text != f.version.text
    ensures Identity(e) != Identity(f)
  {
    var x, y := Identity(e), Identity(f);
    assert x == "aa " + e.version.text + " (x86)" && y == "aa " + f.version.text + " (x86)";
    assert x[3..|x| - 6] == e.version.text && y[3..|y| - 6] == f.version.text;
  }
}
