/** The conventional URL template tells every two identities apart; not every
    template that is accepted does. */
module PublishedUrls {
  import opened Publisher

  const DEFAULT_TEMPLATE := "/p/{name}/{version}/{filename}"

  // The name and version grammars leave out these separators.
  predicate WellNamed(e: Entry)
  {
    '/' !in e.name && '/' !in e.version.text && ' ' !in e.name && ' ' !in e.version.text
  }

  // Text up to the first occurrence of a separator.
  lemma SplitAt(a: string, b: string, c: string, d: string, sep: char)
    requires a + [sep] + b == c + [sep] + d && sep !in a && sep !in c
    ensures a == c && b == d
  {
    var s, t := a + [sep] + b, c + [sep] + d;
    assert s[|a|] == sep && t[|c|] == sep;
    assert forall i | 0 <= i < |a| :: s[i] == a[i] && s[i] != sep;
    assert forall i | 0 <= i < |c| :: t[i] == c[i] && t[i] != sep;
    assert s[..|a|] == a && t[..|c|] == c;
    assert s[|a| + 1..] == b && t[|c| + 1..] == d;
  }

  lemma IdentityInjective(a: Entry, b: Entry)
    requires WellNamed(a) && WellNamed(b) && Identity(a) == Identity(b)
    ensures a.name == b.name && a.version.text == b.version.text && a.arch == b.arch
  {
    var x, y := a.version.text + " (" + a.arch + ")", b.version.text + " (" + b.arch + ")";
    assert Identity(a) == a.name + [' '] + x && Identity(b) == b.name + [' '] + y;
    SplitAt(a.name, x, b.name, y, ' ');
    var p, q := "(" + a.arch + ")", "(" + b.arch + ")";
    assert x == a.version.text + [' '] + p && y == b.version.text + [' '] + q;
    SplitAt(a.version.text, p, b.version.text, q, ' ');
    assert p[1..|p| - 1] == a.arch && q[1..|q| - 1] == b.arch;
  }

  predicate Literal(s: string) { '{' !in s }

  lemma {:induction false} ExpandLiteral(s: string, rest: string, name: string, version: string, arch: string)
    requires Literal(s)
    ensures Expand(s + rest, name, version, arch) == s + Expand(rest, name, version, arch)
  {
    if s == "" {
      assert s + rest == rest;
    } else {
      var t := s + rest;
      assert t[0] == s[0] && t[1..] == s[1..] + rest && t[0] != '{';
      ExpandLiteral(s[1..], rest, name, version, arch);
      assert s == [s[0]] + s[1..];
    }
  }

  lemma ExpandName(rest: string, name: string, version: string, arch: string)
    ensures Expand("{name}" + rest, name, version, arch) == name + Expand(rest, name, version, arch)
  {
    assert ("{name}" + rest)[6..] == rest;
  }

  lemma ExpandVersion(rest: string, name: string, version: string, arch: string)
    ensures Expand("{version}" + rest, name, version, arch) == version + Expand(rest, name, version, arch)
  {
    var t := "{version}" + rest;
    assert t[9..] == rest && t[1] == 'v' && "{name}"[1] == 'n';
  }

  lemma ExpandFilename(rest: string, name: string, version: string, arch: string)
    ensures Expand("{filename}" + rest, name, version, arch) ==
            Filename(name, version, arch) + Expand(rest, name, version, arch)
  {
    var t := "{filename}" + rest;
    assert t[10..] == rest && t[1] == 'f' && "{name}"[1] == 'n' && "{version}"[1] == 'v' && "{arch}"[1] == 'a';
  }

  lemma ExpandDefault(name: string, version: string, arch: string)
    ensures Expand(DEFAULT_TEMPLATE, name, version, arch) ==
            "/p/" + name + "/" + version + "/" + Filename(name, version, arch)
  {
    hide Filename, Expand;
    var file := "{filename}" + "";
    var onVersion := "{version}" + ("/" + file);
    var onName := "{name}" + ("/" + onVersion);
    assert DEFAULT_TEMPLATE == "/p/" + onName;
    ExpandLiteral("/p/", onName, name, version, arch);
    ExpandName("/" + onVersion, name, version, arch);
    ExpandLiteral("/", onVersion, name, version, arch);
    ExpandVersion("/" + file, name, version, arch);
    ExpandLiteral("/", file, name, version, arch);
    ExpandFilename("", name, version, arch);
    ExpandEmpty(name, version, arch);
    assert "/" + file == "/{filename}" && file == "{filename}";
    var f := Filename(name, version, arch);
    assert f + "" == f;
    assert "/p/" + (name + ("/" + (version + ("/" + f)))) == "/p/" + name + "/" + version + "/" + f;
  }

  lemma ExpandEmpty(name: string, version: string, arch: string)
    ensures Expand("", name, version, arch) == ""
  {
  }

  predicate Conventional(e: Entry) { e.url == Expand(DEFAULT_TEMPLATE, e.name, e.version.text, e.arch) }

  // Two entries share a URL, or a file, only when they share an identity.
  lemma DefaultInjective(a: Entry, b: Entry)
    requires WellNamed(a) && WellNamed(b) && Conventional(a) && Conventional(b)
    ensures RepoRelative(a.url) && RepoRelative(b.url)
    ensures a.url[1..] == b.url[1..] <==> Identity(a) == Identity(b)
  {
    hide Expand, Filename, Identity;
    ExpandDefault(a.name, a.version.text, a.arch);
    ExpandDefault(b.name, b.version.text, b.arch);
    UrlParts(a);
    UrlParts(b);
    if Identity(a) == Identity(b) { IdentityInjective(a, b); }
    if a.url[1..] == b.url[1..] { SameParts(a, b); }
  }

  lemma SameParts(a: Entry, b: Entry)
    requires WellNamed(a) && WellNamed(b)
    requires a.name + ['/'] + Tail(a) == b.name + ['/'] + Tail(b)
    ensures Identity(a) == Identity(b)
  {
    SplitAt(a.name, Tail(a), b.name, Tail(b), '/');
    SplitAt(a.version.text, File(a), b.version.text, File(b), '/');
    var p := a.name + "_" + a.version.text + "_";
    assert File(a) == p + a.arch + ".peipkg" && File(b) == p + b.arch + ".peipkg";
    assert File(a)[|p|..|File(a)| - 7] == a.arch && File(b)[|p|..|File(b)| - 7] == b.arch;
  }

  function File(e: Entry): string { Filename(e.name, e.version.text, e.arch) }

  function Tail(e: Entry): string { e.version.text + ['/'] + File(e) }

  lemma UrlParts(e: Entry)
    requires e.url == "/p/" + e.name + "/" + e.version.text + "/" + File(e)
    ensures |e.url| > 3 && RepoRelative(e.url) && e.url[1..][2..] == e.name + ['/'] + Tail(e)
  {
    assert e.url == "/p/" + (e.name + ['/'] + Tail(e));
  }

  // An accepted template that forgets the architecture: two packages, one URL.
  lemma AcceptedTemplateCollides(name: string, version: string, a: string, b: string)
    ensures var template := "/{name}/{version}";
      ValidTemplate(template) && Expand(template, name, version, a) == Expand(template, name, version, b)
  {
    hide Expand;
    var template := "/{name}/{version}";
    assert StandsAt(template, 1, "{name}") && StandsAt(template, 8, "{version}");
    forall arch: string
      ensures Expand(template, name, version, arch) == "/" + (name + ("/" + (version + "")))
    {
      var onName := "{name}" + ("/" + ("{version}" + ""));
      assert template == "/" + onName;
      ExpandLiteral("/", onName, name, version, arch);
      ExpandName("/" + ("{version}" + ""), name, version, arch);
      ExpandLiteral("/", "{version}" + "", name, version, arch);
      ExpandVersion("", name, version, arch);
      ExpandEmpty(name, version, arch);
    }
  }
}
