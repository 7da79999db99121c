/** Which URL templates tell every two identities apart (expandURLTemplate and
    validateURLTemplate in internal/repopub/state.go). */
module Templates {
  import opened Wrappers
  import opened Versions
  import opened Publisher

  /** What the grammars allow. */

  predicate LowerOrDigit(c: char) { 'a' <= c <= 'z' || '0' <= c <= '9' }

  predicate NameChar(c: char) { LowerOrDigit(c) || c in {'-', '.', '+'} }

  predicate ValidName(s: string)
  {
    && 2 <= |s| <= 64 && (forall c | c in s :: NameChar(c))
    && LowerOrDigit(s[0]) && (LowerOrDigit(s[|s| - 1]) || s[|s| - 1] == '+')
    && forall i | 0 < i < |s| :: !(s[i] in {'-', '.'} && s[i - 1] in {'-', '.'})
  }

  predicate ArchChar(c: char) { LowerOrDigit(c) || c == '_' }

  predicate ValidArch(s: string)
  {
    1 <= |s| <= 16 && 'a' <= s[0] <= 'z' && forall c | c in s :: ArchChar(c)
  }

  // What identifies a package: a valid name, a version that parses, a valid
  // architecture.
  datatype Triple = Triple(name: string, version: string, arch: string)

  predicate Valid(t: Triple) { ValidName(t.name) && Parse(t.version).Some? && ValidArch(t.arch) }

  function Url(template: string, t: Triple): string { Expand(template, t.name, t.version, t.arch) }

  // The template gives no two valid identities one URL.
  ghost predicate Distinguishes(template: string)
  {
    forall x, y | Valid(x) && Valid(y) && Url(template, x) == Url(template, y) :: x == y
  }

  /** Templates as parts: a file name is a name, a version and an architecture. */

  datatype Part = Text(c: char) | Name | Ver | Arch

  function Parts(template: string): seq<Part>
  {
    if template == "" then []
    else if "{name}" <= template then [Name] + Parts(template[6..])
    else if "{version}" <= template then [Ver] + Parts(template[9..])
    else if "{arch}" <= template then [Arch] + Parts(template[6..])
    else if "{filename}" <= template then [Name, Text('_'), Ver, Text('_'), Arch] + Extension() + Parts(template[10..])
    else [Text(template[0])] + Parts(template[1..])
  }

  function Extension(): seq<Part>
  {
    [Text('.'), Text('p'), Text('e'), Text('i'), Text('p'), Text('k'), Text('g')]
  }

  function Value(p: Part, t: Triple): string
  {
    match p
    case Text(c) => [c]
    case Name => t.name
    case Ver => t.version
    case Arch => t.arch
  }

  function Render(parts: seq<Part>, t: Triple): string
  {
    if parts == [] then "" else Value(parts[0], t) + Render(parts[1..], t)
  }

  lemma {:induction false} RenderJoin(a: seq<Part>, b: seq<Part>, t: Triple)
    ensures Render(a + b, t) == Render(a, t) + Render(b, t)
  {
    if a == [] {
      assert a + b == b;
    } else {
      assert (a + b)[1..] == a[1..] + b;
      RenderJoin(a[1..], b, t);
    }
  }

  lemma RenderFile(t: Triple)
    ensures Render([Name, Text('_'), Ver, Text('_'), Arch] + Extension(), t) == Filename(t.name, t.version, t.arch)
  {
    RenderJoin([Name, Text('_'), Ver, Text('_'), Arch], Extension(), t);
    RenderExtension(t);
    RenderFive(t);
  }

  lemma RenderFive(t: Triple)
    ensures Render([Name, Text('_'), Ver, Text('_'), Arch], t) == t.name + "_" + t.version + "_" + t.arch
  {
    assert [Name, Text('_'), Ver, Text('_'), Arch][1..] == [Text('_'), Ver, Text('_'), Arch];
    assert [Text('_'), Ver, Text('_'), Arch][1..] == [Ver, Text('_'), Arch];
    assert [Ver, Text('_'), Arch][1..] == [Text('_'), Arch];
    assert [Text('_'), Arch][1..] == [Arch] && [Arch][1..] == [];
    assert Render([Arch], t) == t.arch;
    assert Render([Text('_'), Arch], t) == "_" + t.arch;
    assert Render([Ver, Text('_'), Arch], t) == t.version + ("_" + t.arch);
    assert Render([Text('_'), Ver, Text('_'), Arch], t) == "_" + (t.version + ("_" + t.arch));
    assert t.name + ("_" + (t.version + ("_" + t.arch))) == t.name + "_" + t.version + "_" + t.arch;
  }

  lemma {:induction false} RenderTexts(parts: seq<Part>, s: string, t: Triple)
    requires |parts| == |s| && forall i | 0 <= i < |s| :: parts[i] == Text(s[i])
    ensures Render(parts, t) == s
  {
    if s != "" {
      RenderTexts(parts[1..], s[1..], t);
      assert s == [s[0]] + s[1..];
    }
  }

  lemma RenderExtension(t: Triple)
    ensures Render(Extension(), t) == ".peipkg"
  {
    RenderTexts(Extension(), ".peipkg", t);
  }

  lemma {:induction false} ExpandIsRender(template: string, t: Triple)
    ensures Url(template, t) == Render(Parts(template), t)
    decreases |template|
  {
    hide Extension, Filename;
    if template == "" {
    } else if "{name}" <= template {
      ExpandIsRender(template[6..], t);
      RenderJoin([Name], Parts(template[6..]), t);
      assert Render([Name], t) == t.name;
    } else if "{version}" <= template {
      ExpandIsRender(template[9..], t);
      RenderJoin([Ver], Parts(template[9..]), t);
      assert Render([Ver], t) == t.version;
    } else if "{arch}" <= template {
      ExpandIsRender(template[6..], t);
      RenderJoin([Arch], Parts(template[6..]), t);
      assert Render([Arch], t) == t.arch;
    } else if "{filename}" <= template {
      ExpandIsRender(template[10..], t);
      RenderJoin([Name, Text('_'), Ver, Text('_'), Arch] + Extension(), Parts(template[10..]), t);
      RenderFile(t);
    } else {
      ExpandIsRender(template[1..], t);
      RenderJoin([Text(template[0])], Parts(template[1..]), t);
      assert Render([Text(template[0])], t) == [template[0]];
    }
  }

  /** What a template mentions. */

  // No occurrence begins strictly inside the first n characters.
  lemma ContainsStep(t: string, part: string, n: nat)
    requires 1 <= n <= |t| && part != "" && part[0] == '{' && forall i | 0 < i < n :: t[i] != '{'
    ensures Contains(t, part) <==> part <= t || Contains(t[n..], part)
  {
    if i :| 0 <= i <= |t| && StandsAt(t, i, part) {
      assert t[i] == '{';
      if i > 0 { assert StandsAt(t[n..], i - n, part); }
    }
    if part <= t { assert StandsAt(t, 0, part); }
    if i :| 0 <= i <= |t[n..]| && StandsAt(t[n..], i, part) {
      assert StandsAt(t, i + n, part);
    }
  }

  lemma AllSteps(t: string, n: nat)
    requires 1 <= n <= |t| && forall i | 0 < i < n :: t[i] != '{'
    ensures Contains(t, "{name}") <==> "{name}" <= t || Contains(t[n..], "{name}")
    ensures Contains(t, "{version}") <==> "{version}" <= t || Contains(t[n..], "{version}")
    ensures Contains(t, "{arch}") <==> "{arch}" <= t || Contains(t[n..], "{arch}")
    ensures Contains(t, "{filename}") <==> "{filename}" <= t || Contains(t[n..], "{filename}")
  {
    hide Contains;
    ContainsStep(t, "{name}", n);
    ContainsStep(t, "{version}", n);
    ContainsStep(t, "{arch}", n);
    ContainsStep(t, "{filename}", n);
  }

  // At most one of them begins a string.
  lemma OneFirst(t: string)
    ensures "{name}" <= t ==> !("{version}" <= t) && !("{arch}" <= t) && !("{filename}" <= t)
    ensures "{version}" <= t ==> !("{arch}" <= t) && !("{filename}" <= t)
    ensures "{arch}" <= t ==> !("{filename}" <= t)
  {
    assert "{name}"[1] == 'n' && "{version}"[1] == 'v' && "{arch}"[1] == 'a' && "{filename}"[1] == 'f';
  }

  lemma EmptyContains(part: string)
    requires part != ""
    ensures !Contains("", part)
  {
  }

  // strings.Contains finds a placeholder just where the replacer does: none of them
  // begins inside another.
  lemma {:induction false} MentionsExactly(template: string)
    ensures Name in Parts(template) <==> Contains(template, "{name}") || Contains(template, "{filename}")
    ensures Ver in Parts(template) <==> Contains(template, "{version}") || Contains(template, "{filename}")
    ensures Arch in Parts(template) <==> Contains(template, "{arch}") || Contains(template, "{filename}")
    decreases |template|
  {
    hide Contains;
    if template == "" {
      EmptyContains("{name}");
      EmptyContains("{version}");
      EmptyContains("{arch}");
      EmptyContains("{filename}");
    } else {
      OneFirst(template);
      var n := FirstLength(template);
      FirstIsWhole(template);
      AllSteps(template, n);
      MentionsExactly(template[n..]);
    }
  }

  function FirstLength(t: string): nat
    requires t != ""
  {
    if "{name}" <= t || "{arch}" <= t then 6 else if "{version}" <= t then 9 else if "{filename}" <= t then 10 else 1
  }

  lemma FirstIsWhole(t: string)
    requires t != ""
    ensures 1 <= FirstLength(t) <= |t| && forall i | 0 < i < FirstLength(t) :: t[i] != '{'
  {
    if "{name}" <= t { assert t[..6] == "{name}"; }
    else if "{arch}" <= t { assert t[..6] == "{arch}"; }
    else if "{version}" <= t { assert t[..9] == "{version}"; }
    else if "{filename}" <= t { assert t[..10] == "{filename}"; }
  }

  // What a template does not mention makes no difference to the URL.
  lemma {:induction false} Forgets(parts: seq<Part>, x: Triple, y: Triple)
    requires Name in parts ==> x.name == y.name
    requires Ver in parts ==> x.version == y.version
    requires Arch in parts ==> x.arch == y.arch
    ensures Render(parts, x) == Render(parts, y)
  {
    if parts != [] {
      assert parts[0] in parts && forall p | p in parts[1..] :: p in parts;
      Forgets(parts[1..], x, y);
    }
  }

  // A template without {arch} and {filename} gives any two architectures of a
  // version one URL; and likewise for names and for versions. The check refuses the
  // last two and lets the first one pass.
  lemma ForgottenCollides(template: string, x: Triple, y: Triple)
    ensures !Contains(template, "{arch}") && !Contains(template, "{filename}")
            && x.name == y.name && x.version == y.version
            ==> Url(template, x) == Url(template, y)
    ensures !Contains(template, "{name}") && !Contains(template, "{filename}")
            && x.version == y.version && x.arch == y.arch
            ==> Url(template, x) == Url(template, y)
    ensures !Contains(template, "{version}") && !Contains(template, "{filename}")
            && x.name == y.name && x.arch == y.arch
            ==> Url(template, x) == Url(template, y)
  {
    hide Contains, Expand;
    MentionsExactly(template);
    ExpandIsRender(template, x);
    ExpandIsRender(template, y);
    if (Name in Parts(template) ==> x.name == y.name) && (Ver in Parts(template) ==> x.version == y.version)
       && (Arch in Parts(template) ==> x.arch == y.arch) {
      Forgets(Parts(template), x, y);
    }
  }

  predicate MentionsAll(template: string)
  {
    || Contains(template, "{filename}")
    || (Contains(template, "{name}") && Contains(template, "{version}") && Contains(template, "{arch}"))
  }

  /** Valid identities to tell apart. */

  const FIRST := Triple("aa", "1-1", "x86")
  const OTHER_NAME := Triple("bb", "1-1", "x86")
  const OTHER_VERSION := Triple("aa", "2-1", "x86")
  const OTHER_ARCH := Triple("aa", "1-1", "arm")

  lemma ValidTriples()
    ensures Valid(FIRST) && Valid(OTHER_NAME) && Valid(OTHER_VERSION) && Valid(OTHER_ARCH)
  {
    hide Parse, ValidName, ValidArch;
    ShortNames();
    ShortVersions();
  }

  lemma ShortNames()
    ensures ValidName("aa") && ValidName("bb") && ValidArch("x86") && ValidArch("arm")
  {
  }

  lemma ShortVersions()
    ensures Parse("1-1").Some? && Parse("2-1").Some?
  {
    hide Parse, Tokenize;
    assert "1" + "-1" == "1-1" && "2" + "-1" == "2-1";
    ParseParts("1");
    ParseParts("2");
  }

  // So every template that distinguishes mentions all three.
  lemma DistinguishingMentions(template: string)
    requires Distinguishes(template)
    ensures MentionsAll(template)
  {
    hide Contains, Expand, Parse;
    ValidTriples();
    ForgottenCollides(template, FIRST, OTHER_NAME);
    ForgottenCollides(template, FIRST, OTHER_VERSION);
    ForgottenCollides(template, FIRST, OTHER_ARCH);
    assert "aa" != "bb" && "1-1" != "2-1" && "x86" != "arm";
  }

  /** Delimited templates. */

  predicate CharOf(p: Part, c: char)
  {
    match p
    case Text(_) => false
    case Name => NameChar(c)
    case Ver => VersionChar(c)
    case Arch => ArchChar(c)
  }

  // Each placeholder is the last thing, or text follows that cannot belong to it.
  predicate DelimitedParts(parts: seq<Part>)
  {
    forall i | 0 <= i < |parts| - 1 && !parts[i].Text? :: parts[i + 1].Text? && !CharOf(parts[i], parts[i + 1].c)
  }

  predicate Delimited(template: string) { DelimitedParts(Parts(template)) }

  predicate OwnChars(p: Part, s: string) { p.Text? || forall c | c in s :: CharOf(p, c) }

  lemma ValidChars(t: Triple, p: Part)
    requires Valid(t)
    ensures OwnChars(p, Value(p, t))
  {
    hide Parse;
    ParsedText(t.version);
  }

  // Text up to where its alphabet ends.
  lemma SameRun(p: Part, a: string, b: string, c: string, d: string)
    requires !p.Text? && a + b == c + d && OwnChars(p, a) && OwnChars(p, c)
    requires (b == "" || !CharOf(p, b[0])) && (d == "" || !CharOf(p, d[0]))
    ensures a == c && b == d
  {
    var s := a + b;
    HeadAfter(a, b);
    HeadAfter(c, d);
    OwnPrefix(p, a, b);
    OwnPrefix(p, c, d);
    assert s[..|a|] == a && s[|a|..] == b;
    assert |a| == |c| ==> s[..|a|] == c && s[|a|..] == d;
  }

  lemma HeadAfter(a: string, b: string)
    ensures b != "" ==> (a + b)[|a|] == b[0]
  {
  }

  lemma OwnPrefix(p: Part, a: string, b: string)
    requires !p.Text? && OwnChars(p, a)
    ensures forall i | 0 <= i < |a| :: CharOf(p, (a + b)[i])
  {
    assert forall i | 0 <= i < |a| :: (a + b)[i] == a[i] && a[i] in a;
  }

  lemma RestDelimits(parts: seq<Part>, t: Triple)
    requires parts != [] && !parts[0].Text? && DelimitedParts(parts)
    ensures Render(parts[1..], t) == "" || !CharOf(parts[0], Render(parts[1..], t)[0])
  {
    if |parts| > 1 {
      assert parts[1].Text? && parts[1..][0] == parts[1];
    }
  }

  lemma TailDelimited(parts: seq<Part>)
    requires parts != [] && DelimitedParts(parts)
    ensures DelimitedParts(parts[1..])
  {
  }

  // A delimited template can be read back, part by part.
  lemma {:induction false} ReadBack(parts: seq<Part>, x: Triple, y: Triple)
    requires DelimitedParts(parts) && Valid(x) && Valid(y) && Render(parts, x) == Render(parts, y)
    ensures forall p | p in parts :: Value(p, x) == Value(p, y)
  {
    hide Valid, CharOf;
    if parts != [] {
      var p, rest := parts[0], parts[1..];
      TailDelimited(parts);
      if p.Text? {
        assert Render(parts, x)[1..] == Render(rest, x) && Render(parts, y)[1..] == Render(rest, y);
      } else {
        ValidChars(x, p);
        ValidChars(y, p);
        RestDelimits(parts, x);
        RestDelimits(parts, y);
        SameRun(p, Value(p, x), Render(rest, x), Value(p, y), Render(rest, y));
      }
      ReadBack(rest, x, y);
      assert forall q | q in parts :: q == p || q in rest;
    }
  }

  // Among delimited templates exactly those that mention all three distinguish.
  lemma DelimitedExactly(template: string)
    requires Delimited(template)
    ensures Distinguishes(template) <==> MentionsAll(template)
  {
    hide Contains, Expand, Valid;
    if Distinguishes(template) { DistinguishingMentions(template); }
    if MentionsAll(template) {
      MentionsExactly(template);
      forall x, y | Valid(x) && Valid(y) && Url(template, x) == Url(template, y)
        ensures x == y
      {
        ExpandIsRender(template, x);
        ExpandIsRender(template, y);
        ReadBack(Parts(template), x, y);
        assert Value(Name, x) == Value(Name, y) && Value(Ver, x) == Value(Ver, y) && Value(Arch, x) == Value(Arch, y);
      }
    }
  }

  /** Examples. */

  lemma PartsText(c: char, rest: string)
    requires c != '{'
    ensures Parts([c] + rest) == [Text(c)] + Parts(rest)
  {
    assert ([c] + rest)[1..] == rest && ([c] + rest)[0] == c;
    assert "{name}"[0] == '{' && "{version}"[0] == '{' && "{arch}"[0] == '{' && "{filename}"[0] == '{';
  }

  lemma PartsPlaceholders(rest: string)
    ensures Parts("{name}" + rest) == [Name] + Parts(rest)
    ensures Parts("{version}" + rest) == [Ver] + Parts(rest)
    ensures Parts("{arch}" + rest) == [Arch] + Parts(rest)
    ensures Parts("{filename}" + rest) == [Name, Text('_'), Ver, Text('_'), Arch] + Extension() + Parts(rest)
  {
    OneFirst("{version}" + rest);
    OneFirst("{arch}" + rest);
    OneFirst("{filename}" + rest);
    assert ("{name}" + rest)[6..] == rest && ("{version}" + rest)[9..] == rest;
    assert ("{arch}" + rest)[6..] == rest && ("{filename}" + rest)[10..] == rest;
  }

  // Text followed by a file name, with nothing after it, distinguishes.
  lemma {:induction false} FilenameLast(text: string)
    requires forall c | c in text :: c != '{'
    ensures Delimited(text + "{filename}") && MentionsAll(text + "{filename}") && Distinguishes(text + "{filename}")
  {
    hide Contains, Expand, Valid;
    var template := text + "{filename}";
    FilenameParts(text);
    MentionsExactly(template);
    assert template[|text|..|text| + 10] == "{filename}" && StandsAt(template, |text|, "{filename}");
    assert Contains(template, "{filename}") by { Stands(template, |text|, "{filename}"); }
    DelimitedExactly(template);
  }

  lemma Stands(s: string, i: nat, part: string)
    requires StandsAt(s, i, part)
    ensures Contains(s, part)
  {
  }

  lemma {:induction false} FilenameParts(text: string)
    requires forall c | c in text :: c != '{'
    ensures Delimited(text + "{filename}")
  {
    if text == "" {
      PartsPlaceholders("");
      assert "{filename}" + "" == text + "{filename}";
      assert Parts(text + "{filename}") == [Name, Text('_'), Ver, Text('_'), Arch] + Extension();
    } else {
      var c, rest := text[0], text[1..];
      assert c in text && forall d | d in rest :: d in text;
      FilenameParts(rest);
      assert text + "{filename}" == [c] + (rest + "{filename}");
      PartsText(c, rest + "{filename}");
      TextFirst(c, Parts(rest + "{filename}"));
    }
  }

  lemma TextFirst(c: char, parts: seq<Part>)
    requires DelimitedParts(parts)
    ensures DelimitedParts([Text(c)] + parts)
  {
    var more := [Text(c)] + parts;
    forall i | 0 <= i < |more| - 1 && !more[i].Text?
      ensures more[i + 1].Text? && !CharOf(more[i], more[i + 1].c)
    {
      assert more[i] == parts[i - 1] && more[i + 1] == parts[i];
    }
  }

  const RUN_TOGETHER := "/{name}{version}{arch}"

  // Mentioning all three is not enough: run together, they share URLs.
  lemma RunTogetherCollides()
    ensures ValidTemplate(RUN_TOGETHER) && MentionsAll(RUN_TOGETHER)
    ensures !Delimited(RUN_TOGETHER) && !Distinguishes(RUN_TOGETHER)
  {
    hide Expand, Valid, ValidTemplate, MentionsAll;
    RunTogetherMentions();
    RunTogetherParts();
    var parts := [Text('/'), Name, Ver, Arch];
    assert !Delimited(RUN_TOGETHER) by { assert !parts[1].Text? && !parts[2].Text?; }
    SharedUrl();
    assert |LONGER.version| != |SHORTER.version|;
  }

  const LONGER := Triple("aa", "11-1", "x86")
  const SHORTER := Triple("aa1", "1-1", "x86")

  lemma SharedUrl()
    ensures Valid(LONGER) && Valid(SHORTER) && Url(RUN_TOGETHER, LONGER) == Url(RUN_TOGETHER, SHORTER)
  {
    hide Expand, Valid, Render, Parts;
    LongerShorter();
    RunTogetherParts();
    ExpandIsRender(RUN_TOGETHER, LONGER);
    ExpandIsRender(RUN_TOGETHER, SHORTER);
    RenderFour(LONGER);
    RenderFour(SHORTER);
    assert "aa" + ("11-1" + "x86") == "aa1" + ("1-1" + "x86");
  }

  lemma LongerShorter()
    ensures Valid(LONGER) && Valid(SHORTER)
  {
    hide Parse, Tokenize, ValidName, ValidArch;
    ShortNames();
    ShortVersions();
    ParseParts("11");
    assert "11" + "-1" == "11-1";
    assert ValidName("aa1") by { OneLonger(); }
  }

  lemma OneLonger()
    ensures ValidName("aa1")
  {
  }

  lemma RenderFour(t: Triple)
    ensures Render([Text('/'), Name, Ver, Arch], t) == "/" + (t.name + (t.version + t.arch))
  {
    assert [Text('/'), Name, Ver, Arch][1..] == [Name, Ver, Arch] && [Name, Ver, Arch][1..] == [Ver, Arch];
    assert [Ver, Arch][1..] == [Arch] && [Arch][1..] == [];
    assert Render([Arch], t) == t.arch;
    assert Render([Ver, Arch], t) == t.version + t.arch;
    assert Render([Name, Ver, Arch], t) == t.name + (t.version + t.arch);
  }

  lemma RunTogetherMentions()
    ensures ValidTemplate(RUN_TOGETHER) && MentionsAll(RUN_TOGETHER)
  {
    assert StandsAt(RUN_TOGETHER, 1, "{name}") && StandsAt(RUN_TOGETHER, 7, "{version}");
    assert StandsAt(RUN_TOGETHER, 16, "{arch}");
  }

  lemma RunTogetherParts()
    ensures Parts(RUN_TOGETHER) == [Text('/'), Name, Ver, Arch]
  {
    hide Parts;
    var onArch := "{arch}" + "";
    var onVersion := "{version}" + onArch;
    PartsPlaceholders("");
    PartsPlaceholders(onArch);
    PartsPlaceholders(onVersion);
    assert RUN_TOGETHER == ['/'] + ("{name}" + onVersion);
    PartsText('/', "{name}" + onVersion);
    NoParts();
  }

  lemma NoParts()
    ensures Parts("") == []
  {
  }
}
