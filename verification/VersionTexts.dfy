/** The order of versions as they are spelled (internal/version/version.go), and what it
    means for the active index. */
module VersionTexts {
  import opened Wrappers
  import opened Sorting
  import opened TempNames
  import opened Versions
  import opened Ordering
  import opened Publisher
  import opened PublisherSafety

  /** The grammar. */

  predicate AlphaNumeric(c: char) { '0' <= c <= '9' || 'a' <= c <= 'z' || 'A' <= c <= 'Z' }

  predicate UpstreamText(s: string)
  {
    s != "" && AlphaNumeric(s[0]) && forall c | c in s :: AlphaNumeric(c) || c in {'.', '+', '-', '~'}
  }

  lemma UpstreamChecked(s: string)
    ensures UpstreamText(s) <==> ValidUpstream(s)
  {
  }

  // Epoch, upstream version and revision, the epoch left out or not. Numbers are
  // written as they are rendered, and the revision is not zero.
  ghost predicate Spelling(s: string, epoch: string, upstream: string, revision: string)
  {
    && s == (if epoch == "" then "" else epoch + ":") + upstream + "-" + revision
    && (epoch == "" || exists n :: epoch == Decimal(n))
    && UpstreamText(upstream)
    && exists n :: n > 0 && revision == Decimal(n)
  }

  predicate Checked(epoch: string, upstream: string, revision: string)
  {
    && (epoch == "" || CanonicalDecimal(epoch)) && ValidUpstream(upstream)
    && CanonicalDecimal(revision) && revision != "0"
  }

  // What the parser checks about the parts.
  lemma SpellingChecked(s: string, epoch: string, upstream: string, revision: string)
    ensures Spelling(s, epoch, upstream, revision) <==>
            s == (if epoch == "" then "" else epoch + ":") + upstream + "-" + revision
            && Checked(epoch, upstream, revision)
  {
    hide Decimal, CanonicalDecimal, Digits, UpstreamText, ValidUpstream;
    UpstreamChecked(upstream);
    NumberChecked(epoch);
    NotZero(revision);
    if Spelling(s, epoch, upstream, revision) {
      var n: nat :| n > 0 && revision == Decimal(n);
      DecimalIsCanonical(n);
      DecimalIsCanonical(0);
      Zero();
      if epoch != "" {
        var m: nat :| epoch == Decimal(m);
        DecimalIsCanonical(m);
      }
    }
  }

  lemma Zero()
    ensures Decimal(0) == "0"
  {
  }

  lemma NotZero(s: string)
    ensures CanonicalDecimal(s) && s != "0" <==> exists n :: n > 0 && s == Decimal(n)
  {
    hide Decimal, CanonicalDecimal;
    NumberChecked(s);
    Zero();
    if n: nat :| n > 0 && s == Decimal(n) {
      DecimalIsCanonical(n);
      DecimalIsCanonical(0);
    }
    if CanonicalDecimal(s) && s != "0" {
      var n: nat :| s == Decimal(n);
      assert n > 0;
    }
  }

  lemma NumberChecked(s: string)
    ensures CanonicalDecimal(s) <==> exists n :: s == Decimal(n)
  {
    hide Decimal;
    if CanonicalDecimal(s) { CanonicalIsDecimal(s); }
    if n: nat :| s == Decimal(n) { DecimalIsCanonical(n); }
  }

  lemma FirstIs(a: string, c: char, b: string)
    requires c !in a
    ensures var s := a + [c] + b; IndexOf(s, c) == |a| && s[..|a|] == a && s[|a| + 1..] == b
  {
    var s := a + [c] + b;
    assert s[|a|] == c && forall k | 0 <= k < |a| :: s[k] in a;
  }

  lemma LastIs(a: string, c: char, b: string)
    requires c !in b
    ensures var s := a + [c] + b; LastIndexOf(s, c) == |a| && s[..|a|] == a && s[|a| + 1..] == b
  {
    var s := a + [c] + b;
    assert s[|a|] == c && forall k | |a| < k < |s| :: s[k] == b[k - |a| - 1] && s[k] in b;
  }

  lemma Foreign(epoch: string, upstream: string, revision: string)
    requires (epoch == "" || CanonicalDecimal(epoch)) && ValidUpstream(upstream) && CanonicalDecimal(revision)
    ensures ':' !in epoch && ':' !in upstream + "-" + revision && '-' !in revision
  {
  }

  // What is spelled so parses into just these parts.
  lemma SpellingParses(s: string, epoch: string, upstream: string, revision: string)
    requires Spelling(s, epoch, upstream, revision)
    ensures Parse(s) == Some(Version(s, epoch, Tokenize(upstream, false), revision))
  {
    hide Tokenize, IndexOf, LastIndexOf, CanonicalDecimal, ValidUpstream, Spelling;
    var rest := upstream + "-" + revision;
    SpellingChecked(s, epoch, upstream, revision);
    Foreign(epoch, upstream, revision);
    LastIs(upstream, '-', revision);
    if epoch == "" {
      assert s == rest && IndexOf(s, ':') == |s|;
    } else {
      FirstIs(epoch, ':', rest);
      assert s == epoch + ":" + rest && epoch != "";
    }
  }

  // Exactly what is spelled so parses.
  lemma ParseIsExact(s: string)
    ensures Parse(s).Some? <==> exists epoch, upstream, revision :: Spelling(s, epoch, upstream, revision)
  {
    hide Tokenize, CanonicalDecimal, ValidUpstream, Spelling;
    if epoch, upstream, revision :| Spelling(s, epoch, upstream, revision) {
      SpellingParses(s, epoch, upstream, revision);
    }
    if Parse(s).Some? {
      var epoch, upstream, revision := PartsOf(s);
    }
  }

  lemma PartsOf(s: string) returns (epoch: string, upstream: string, revision: string)
    requires Parse(s).Some?
    ensures Spelling(s, epoch, upstream, revision)
  {
    hide Tokenize, IndexOf, LastIndexOf, CanonicalDecimal, ValidUpstream, Spelling;
    var k := IndexOf(s, ':');
    var rest := if k < |s| then s[k + 1..] else s;
    var d := LastIndexOf(rest, '-');
    epoch, upstream, revision := if k < |s| then s[..k] else "", rest[..d], rest[d + 1..];
    NotEmpty(s[..k]);
    SplitAt(rest, d);
    if k < |s| { SplitAt(s, k); }
    Joined(s, epoch, rest, upstream, revision);
    SpellingChecked(s, epoch, upstream, revision);
  }

  lemma NotEmpty(s: string)
    ensures CanonicalDecimal(s) ==> s != ""
  {
  }

  lemma SplitAt(s: string, k: nat)
    requires k < |s|
    ensures s == s[..k] + [s[k]] + s[k + 1..]
  {
  }

  lemma Joined(s: string, epoch: string, rest: string, upstream: string, revision: string)
    requires rest == upstream + "-" + revision && s == if epoch == "" then rest else epoch + ":" + rest
    ensures s == (if epoch == "" then "" else epoch + ":") + upstream + "-" + revision
  {
  }

  lemma {:induction false} TokensPlain(s: string, tail: bool)
    requires forall c | c in s :: UpstreamChar(c)
    ensures AllPlain(Tokenize(s, tail))
    decreases |s|
  {
    hide PreReleaseRank;
    if s == "" {
    } else if s[0] in {'~', '.', '+', '-'} {
      TokensPlain(s[1..], if s[0] == '~' then true else tail);
    } else {
      assert s[0] in s;
      var n := Run(s, Digit(s[0]));
      var next := tail || (Letter(s[0]) && PreReleaseRank(s[..n]) < RANK_OTHER);
      TokensPlain(s[n..], next);
      assert Digit(s[0]) ==> forall c | c in s[..n] :: Digit(c);
    }
  }

  lemma SpellingIsParsed(s: string, epoch: string, upstream: string, revision: string)
    requires Spelling(s, epoch, upstream, revision)
    ensures Parse(s).Some? && Parsed(Parse(s).value) && Parse(s).value.epoch == epoch
    ensures Parse(s).value.segments == Tokenize(upstream, false) && Parse(s).value.revision == revision
  {
    hide Tokenize, AllPlain, Spelling;
    SpellingParses(s, epoch, upstream, revision);
    SpellingChecked(s, epoch, upstream, revision);
    TokensPlain(upstream, false);
  }

  /** Which text is the older. */

  ghost predicate OlderText(s: string, t: string)
  {
    Parse(s).Some? && Parse(t).Some? && Compare(Parse(s).value, Parse(t).value) < 0
  }

  // The greater epoch is the newer, whatever follows it.
  lemma EpochDecides(s: string, e: string, u: string, r: string, t: string, f: string, v: string, q: string)
    requires Spelling(s, e, u, r) && Spelling(t, f, v, q)
    ensures Value(e) < Value(f) ==> OlderText(s, t)
  {
    hide Tokenize, Compare, Value, Parse, Spelling;
    SpellingIsParsed(s, e, u, r);
    SpellingIsParsed(t, f, v, q);
    CompareIsOlder(Parse(s).value, Parse(t).value);
  }

  // The revision decides where the rest is the same.
  lemma RevisionDecides(s: string, t: string, e: string, u: string, r: string, q: string)
    requires Spelling(s, e, u, r) && Spelling(t, e, u, q)
    ensures OlderText(s, t) <==> Value(r) < Value(q)
  {
    hide Tokenize, Compare, Value, Parse, Spelling, Below;
    SpellingIsParsed(s, e, u, r);
    SpellingIsParsed(t, e, u, q);
    CompareIsOlder(Parse(s).value, Parse(t).value);
    NotBeforeItself(Parse(s).value.segments);
  }

  lemma NotBeforeItself(segments: seq<Segment>)
    requires AllPlain(segments)
    ensures !OlderSegments(segments, segments) && SameKeys(segments, segments)
  {
    hide Below;
    forall i: nat | i <= |segments|
      ensures !DecidedAt(segments, segments, i)
    {
      BelowItself(KeyAt(segments, i));
    }
  }

  lemma UpstreamDecides(s: string, t: string, e: string, u: string, v: string, r: string, q: string)
    requires Spelling(s, e, u, r) && Spelling(t, e, v, q)
    requires CompareSegments(Tokenize(u, false), Tokenize(v, false)) < 0
    ensures OlderText(s, t)
  {
    hide Tokenize, CompareSegments, CompareNumeric, Parse, Spelling;
    SpellingIsParsed(s, e, u, r);
    SpellingIsParsed(t, e, v, q);
    NumericOrder(e, e, e);
  }

  lemma {:induction false} SamePrefix(p: seq<Segment>, a: seq<Segment>, b: seq<Segment>)
    ensures CompareSegments(p + a, p + b) == CompareSegments(a, b)
  {
    hide CompareSegment;
    if p == [] {
      assert p + a == a && p + b == b;
    } else {
      assert (p + a)[1..] == p[1..] + a && (p + b)[1..] == p[1..] + b;
      SamePrefix(p[1..], a, b);
      SegmentOrder(p[0], p[0], p[0]);
    }
  }

  /** Numbers. */

  predicate Numbers(p: string) { (forall c | c in p :: Digit(c) || c == '.') && (p != "" ==> p[|p| - 1] == '.') }

  // Nothing, or something that does not go on with the number.
  predicate Breaks(x: string) { x == "" || !Digit(x[0]) }

  predicate Upstream(s: string) { forall c | c in s :: UpstreamChar(c) }

  lemma {:induction false} RunOf(m: string, x: string)
    requires Digits(m) && Breaks(x)
    ensures Run(m + x, true) == |m|
  {
    if m == "" {
      assert m + x == x;
    } else {
      assert m[0] in m && (m + x)[1..] == m[1..] + x && forall c | c in m[1..] :: c in m;
      RunOf(m[1..], x);
    }
  }

  lemma {:induction false} NumberThen(m: string, x: string)
    requires m != "" && Digits(m) && Breaks(x) && Upstream(x)
    ensures Upstream(m + x)
    ensures Tokenize(m + x, false) == [Segment(true, m, false)] + Tokenize(x, false)
  {
    RunOf(m, x);
    assert m[0] in m && (m + x)[0] == m[0];
    assert (m + x)[..|m|] == m && (m + x)[|m|..] == x;
  }

  // Digits and dots in front are read on their own.
  lemma {:induction false} NumbersThen(p: string, s: string)
    requires Numbers(p) && Upstream(s)
    ensures Upstream(p) && Upstream(p + s)
    ensures Tokenize(p + s, false) == Tokenize(p, false) + Tokenize(s, false)
    decreases |p|
  {
    hide Tokenize, Run;
    if p == "" {
      assert p + s == s && p + s == [] + s;
      NoTokens();
    } else if p[0] == '.' {
      var x := p[1..];
      OneDot(p, s);
      NumbersThen(x, s);
    } else {
      var m, x := NumberOff(p);
      NumbersThen(x, s);
      assert p == m + x && p + s == m + (x + s);
      NumberThen(m, x);
      NumberThen(m, x + s);
      assert [Segment(true, m, false)] + (Tokenize(x, false) + Tokenize(s, false)) ==
             [Segment(true, m, false)] + Tokenize(x, false) + Tokenize(s, false);
    }
  }

  lemma NoTokens()
    ensures Tokenize("", false) == []
  {
  }

  lemma OneDot(p: string, s: string)
    requires Numbers(p) && p != "" && p[0] == '.' && Upstream(s)
    ensures Numbers(p[1..]) && Upstream(p) && Upstream(p[1..]) && Upstream(p[1..] + s) && Upstream(p + s)
    ensures Tokenize(p, false) == Tokenize(p[1..], false) && Tokenize(p + s, false) == Tokenize(p[1..] + s, false)
  {
    hide Run;
    assert (p + s)[1..] == p[1..] + s && (forall c | c in p[1..] :: c in p);
    if |p| > 1 { assert p[1..][|p| - 2] == p[|p| - 1]; }
  }

  lemma NumberOff(p: string) returns (m: string, x: string)
    requires Numbers(p) && p != "" && p[0] != '.'
    ensures p == m + x && m != "" && x != "" && Digits(m) && Breaks(x) && Numbers(x)
  {
    assert p[0] in p;
    var n := Run(p, true);
    assert !Digit(p[|p| - 1]);
    m, x := p[..n], p[n..];
    assert (forall c | c in x :: c in p) && x[|x| - 1] == p[|p| - 1];
  }

  // Where two versions first differ in a number the greater number is the newer,
  // whatever follows.
  lemma NumberDecides(p: string, m: string, n: string, x: string, y: string,
                      s: string, t: string, e: string, r: string, q: string)
    requires Numbers(p) && m != "" && n != "" && Digits(m) && Digits(n) && Breaks(x) && Breaks(y)
    requires Spelling(s, e, p + m + x, r) && Spelling(t, e, p + n + y, q)
    ensures Value(m) < Value(n) ==> OlderText(s, t)
  {
    hide Tokenize, Parse, CompareNumeric, Value, Spelling, Numbers, Digits, Breaks, CompareSegments, OlderText;
    var a := ReadMore(p, m, x, s, e, r);
    var b := ReadMore(p, n, y, t, e, q);
    if Value(m) < Value(n) {
      FirstNumbers(Tokenize(p, false), m, n, a, b);
      UpstreamDecides(s, t, e, p + m + x, p + n + y, r, q);
    }
  }

  lemma FirstNumbers(front: seq<Segment>, m: string, n: string, a: seq<Segment>, b: seq<Segment>)
    requires Digits(m) && Digits(n) && Value(m) < Value(n)
    ensures CompareSegments(front + ([Segment(true, m, false)] + a), front + ([Segment(true, n, false)] + b)) < 0
  {
    hide Value, CompareNumeric;
    SamePrefix(front, [Segment(true, m, false)] + a, [Segment(true, n, false)] + b);
    NumericByValue(m, n);
  }

  // A number after any separator but a tilde makes the version newer: a hyphen opens
  // no tail.
  lemma LongerIsNewer(p: string, m: string, sep: char, n: string, x: string,
                      s: string, t: string, e: string, r: string, q: string)
    requires Numbers(p) && m != "" && Digits(m) && sep in {'.', '+', '-'} && n != "" && Digits(n) && Breaks(x)
    requires Spelling(s, e, p + m + ([sep] + (n + x)), r) && Spelling(t, e, p + m, q)
    ensures OlderText(t, s)
  {
    hide Tokenize, Parse, Spelling, Numbers, CompareSegments, OlderText;
    var w := [sep] + (n + x);
    assert p + m + "" == p + m;
    var a := ReadMore(p, m, w, s, e, r);
    var b := ReadMore(p, m, "", t, e, q);
    SeparatorThen(sep, n, x);
    NoTokens();
    var one := [Segment(true, m, false)];
    assert one + [] == one;
    SamePrefix(Tokenize(p, false), one, one + a);
    SamePrefix(one, [], a);
    EndsBefore(a);
    UpstreamDecides(t, s, e, p + m, p + m + w, q, r);
  }

  lemma EndsBefore(a: seq<Segment>)
    requires a != [] && !a[0].preRelease
    ensures CompareSegments([], a) < 0
  {
  }

  lemma ReadMore(p: string, m: string, x: string, s: string, e: string, r: string) returns (more: seq<Segment>)
    requires Numbers(p) && m != "" && Digits(m) && Breaks(x) && Spelling(s, e, p + m + x, r)
    ensures Upstream(p) && Upstream(p + m + x) && Upstream(x) && more == Tokenize(x, false)
    ensures Tokenize(p + m + x, false) == Tokenize(p, false) + ([Segment(true, m, false)] + more)
  {
    hide Tokenize, Numbers, Digits, Breaks;
    SpellingChecked(s, e, p + m + x, r);
    assert p + m + x == p + (m + x);
    Pieces(p + m, x);
    Pieces(p, m);
    NumberThen(m, x);
    NumbersThen(p, m + x);
    more := Tokenize(x, false);
  }

  lemma SeparatorThen(sep: char, n: string, x: string)
    requires sep in {'.', '+', '-'} && n != "" && Digits(n) && Breaks(x) && Upstream([sep] + (n + x))
    ensures Tokenize([sep] + (n + x), false) != [] && !Tokenize([sep] + (n + x), false)[0].preRelease
  {
    var w := [sep] + (n + x);
    assert w[1..] == n + x;
    Pieces([sep], n + x);
    Pieces(n, x);
    NumberThen(n, x);
  }

  lemma Pieces(a: string, b: string)
    requires Upstream(a + b)
    ensures Upstream(a) && Upstream(b)
  {
    assert (forall c | c in a :: c in a + b) && forall c | c in b :: c in a + b;
  }

  /** Tails. */

  // Once a tilde is read every segment is of the tail.
  lemma {:induction false} TildeThen(u: string, w: string, tail: bool)
    requires Upstream(u) && Upstream(w)
    ensures Upstream(u + "~" + w)
    ensures Tokenize(u + "~" + w, tail) == Tokenize(u, tail) + Tokenize(w, true)
    decreases |u|
  {
    hide PreReleaseRank, Tokenize, Run;
    var s := u + "~" + w;
    if u == "" {
      assert s == "~" + w && s[1..] == w;
      OneTilde(w, tail);
    } else {
      var n, next := FirstPiece(u, "~" + w, tail);
      assert s == u + ("~" + w) && u[n..] + "~" + w == u[n..] + ("~" + w);
      TildeThen(u[n..], w, next);
      var one := Piece(u, n, next);
      assert one + (Tokenize(u[n..], next) + Tokenize(w, true)) == one + Tokenize(u[n..], next) + Tokenize(w, true);
    }
  }

  lemma OneTilde(w: string, tail: bool)
    requires Upstream(w)
    ensures Upstream("~" + w) && Tokenize("~" + w, tail) == Tokenize(w, true) && Tokenize("", tail) == []
  {
    assert ("~" + w)[1..] == w;
  }

  function Piece(u: string, n: nat, next: bool): seq<Segment>
    requires u != "" && n <= |u|
  {
    if u[0] in {'~', '.', '+', '-'} then [] else [Segment(Digit(u[0]), u[..n], next)]
  }

  // What is read first, where something that is no letter or digit follows.
  lemma FirstPiece(u: string, x: string, tail: bool) returns (n: nat, next: bool)
    requires u != "" && x != "" && !Digit(x[0]) && !Letter(x[0]) && Upstream(u) && Upstream(x)
    ensures 0 < n <= |u| && Upstream(u[n..]) && Upstream(u[n..] + x) && Upstream(u + x)
    ensures Tokenize(u, tail) == Piece(u, n, next) + Tokenize(u[n..], next)
    ensures Tokenize(u + x, tail) == Piece(u, n, next) + Tokenize(u[n..] + x, next)
  {
    hide PreReleaseRank;
    assert u[0] in u && (u + x)[0] == u[0];
    if u[0] in {'~', '.', '+', '-'} {
      n, next := 1, u[0] == '~' || tail;
    } else {
      n := Run(u, Digit(u[0]));
      next := tail || (Letter(u[0]) && PreReleaseRank(u[..n]) < RANK_OTHER);
      RunStops(u, x, Digit(u[0]));
    }
    assert (forall c | c in u[n..] :: c in u) && (u + x)[..n] == u[..n] && (u + x)[n..] == u[n..] + x;
  }

  lemma {:induction false} RunStops(u: string, x: string, digits: bool)
    requires x != "" && !Digit(x[0]) && !Letter(x[0])
    ensures Run(u + x, digits) == Run(u, digits)
  {
    if u == "" {
      assert u + x == x;
    } else {
      assert (u + x)[1..] == u[1..] + x;
      RunStops(u[1..], x, digits);
    }
  }

  // A pre-release is older than what it leads up to, numbers and words alike.
  lemma TildeIsOlder(u: string, w: string, s: string, t: string, e: string, r: string, q: string)
    requires ValidUpstream(w) && Spelling(s, e, u + "~" + w, r) && Spelling(t, e, u, q)
    ensures OlderText(s, t)
  {
    hide Parse, PreReleaseRank, CompareSegment, Spelling;
    SpellingChecked(s, e, u + "~" + w, r);
    SpellingChecked(t, e, u, q);
    TildeThen(u, w, false);
    assert w[0] in w;
    var tail := Tokenize(w, true);
    assert tail != [] && tail[0].preRelease;
    SamePrefix(Tokenize(u, false), tail, []);
    assert Tokenize(u, false) + [] == Tokenize(u, false);
    UpstreamDecides(s, t, e, u + "~" + w, u, r, q);
  }

  predicate Letters(w: string) { forall c | c in w :: Letter(c) }

  lemma {:induction false} RunOfLetters(w: string, x: string)
    requires Letters(w) && (x == "" || !Letter(x[0]))
    ensures Run(w + x, false) == |w|
  {
    if w == "" {
      assert w + x == x;
    } else {
      assert w[0] in w && (w + x)[1..] == w[1..] + x && forall c | c in w[1..] :: c in w;
      RunOfLetters(w[1..], x);
    }
  }

  // A token opens the tail, for itself and for all that follows.
  lemma WordThen(w: string, x: string, tail: bool)
    requires w != "" && Letters(w) && (x == "" || !Letter(x[0])) && Upstream(x)
    ensures Upstream(w + x)
    ensures var next := tail || Stage(w) < |STAGES|;
      Tokenize(w + x, tail) == [Segment(false, w, next)] + Tokenize(x, next)
  {
    hide PreReleaseRank, Stage;
    RunOfLetters(w, x);
    StageIsRank(w);
    assert w[0] in w && (w + x)[0] == w[0];
    assert (w + x)[..|w|] == w && (w + x)[|w|..] == x;
  }

  // So does a token without a tilde: 2.0rc1 is older than 2.0.
  lemma TokenIsOlder(p: string, m: string, w: string, x: string, s: string, t: string, e: string, r: string, q: string)
    requires Numbers(p) && m != "" && Digits(m) && w != "" && Letters(w) && Stage(w) < |STAGES|
    requires x == "" || !Letter(x[0])
    requires Spelling(s, e, p + m + (w + x), r) && Spelling(t, e, p + m, q)
    ensures OlderText(s, t)
  {
    hide Tokenize, Parse, CompareNumeric, Stage, CompareSegment, Spelling;
    SpellingChecked(s, e, p + m + (w + x), r);
    assert w[0] in w && !Digit(w[0]);
    assert p + m + (w + x) == p + (m + (w + x));
    Pieces(p + m, w + x);
    Pieces(w, x);
    WordThen(w, x, false);
    NumberThen(m, w + x);
    assert m + "" == m && Upstream("");
    NumberThen(m, "");
    NoTokens();
    NumbersThen(p, m + (w + x));
    NumbersThen(p, m);
    var one := [Segment(true, m, false)];
    SamePrefix(Tokenize(p, false), one + Tokenize(w + x, false), one);
    SamePrefix(one, Tokenize(w + x, false), []);
    assert one + [] == one;
    UpstreamDecides(s, t, e, p + m + (w + x), p + m, r, q);
  }

  /** The active index. */

  // No entry is advertised beside a newer one of its name.
  lemma OlderIsNotAdvertised(entries: seq<Entry>, active: seq<Entry>, a: Entry, b: Entry)
    requires Derives(entries, active) && a in entries && b in entries && a.name == b.name
    requires Parsed(a.version) && Parsed(b.version) && Older(a.version, b.version)
    ensures a !in active
  {
    hide Compare, Older, Less, AllPlain, Digits;
    CompareIsOlder(a.version, b.version);
    CompareIsTotalPreorder(a.version, b.version, a.version);
    assert a in active ==> Supersedes(a, b);
  }

  // The archive lists names in byte order, and of one name the newer versions first.
  lemma ArchiveIsOrdered(s: seq<Entry>, i: nat, j: nat)
    requires SortedArchive(s) && i < j < |s| && Parsed(s[i].version) && Parsed(s[j].version)
    ensures s[i].name == s[j].name || Less(s[i].name, s[j].name)
    ensures s[i].name == s[j].name ==>
              !Older(s[i].version, s[j].version) && (Older(s[j].version, s[i].version) || !Less(s[j].arch, s[i].arch))
  {
    hide Compare, Older, Less, AllPlain, Digits;
    CompareIsOlder(s[i].version, s[j].version);
    CompareIsTotalPreorder(s[i].version, s[j].version, s[i].version);
    LessTotal(s[i].name, s[j].name);
    assert !Before(s[j], s[i]);
  }

  lemma TenAndNine()
    ensures Spelling("1.9-1", "", "1.9", "1") && Spelling("1.10-1", "", "1.10", "1")
    ensures OlderText("1.9-1", "1.10-1")
  {
    assert Decimal(1) == "1";
    assert "1.9" + "-" + "1" == "1.9-1" && "1.10" + "-" + "1" == "1.10-1";
    assert "" + ("1.9" + "-" + "1") == "1.9-1" && "" + ("1.10" + "-" + "1") == "1.10-1";
    assert Value("9") == 9 && Value("10") == 10 by {
      assert "10"[..1] == "1" && "1"[..0] == "" && "9"[..0] == "" && Value("1") == 1;
    }
    assert "1." + "9" + "" == "1.9" && "1." + "10" + "" == "1.10";
    NumberDecides("1.", "9", "10", "", "", "1.9-1", "1.10-1", "", "1", "1");
  }
}
