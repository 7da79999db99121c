/** Parsing and ordering of versions (internal/version/version.go, compare.go). */
module Versions {
  import opened Wrappers
  import opened Sorting

  datatype Segment = Segment(numeric: bool, text: string, preRelease: bool)

  // `text` is the string as it was parsed; equal versions may be spelled apart.
  datatype Version = Version(text: string, epoch: string, segments: seq<Segment>, revision: string)

  const RANK_OTHER := 5

  function Lower(s: string): string
  {
    seq(|s|, i requires 0 <= i < |s| => if 'A' <= s[i] <= 'Z' then (s[i] as int + 32) as char else s[i])
  }

  function PreReleaseRank(s: string): int
  {
    var t := Lower(s);
    if t == "dev" then 0
    else if t == "alpha" || t == "a" then 1
    else if t == "beta" || t == "b" then 2
    else if t == "pre" then 3
    else if t == "rc" then 4
    else RANK_OTHER
  }

  /** Parsing. */

  predicate Digit(c: char) { '0' <= c <= '9' }

  predicate Letter(c: char) { 'a' <= c <= 'z' || 'A' <= c <= 'Z' }

  predicate UpstreamChar(c: char) { Digit(c) || Letter(c) || c in {'.', '+', '-', '~'} }

  // Digits without a leading zero; zero itself is one digit.
  predicate CanonicalDecimal(s: string)
  {
    s != "" && (forall c | c in s :: Digit(c)) && (|s| > 1 ==> s[0] != '0')
  }

  predicate ValidUpstream(s: string)
  {
    s != "" && (Digit(s[0]) || Letter(s[0])) && forall c | c in s :: UpstreamChar(c)
  }

  // The first occurrence, or the length.
  function IndexOf(s: string, c: char): (i: nat)
    ensures i <= |s| && (i < |s| ==> s[i] == c) && forall k | 0 <= k < i :: s[k] != c
  {
    if s == "" || s[0] == c then 0 else 1 + IndexOf(s[1..], c)
  }

  // The last occurrence, or the length.
  function LastIndexOf(s: string, c: char): (i: nat)
    ensures i <= |s| && (i < |s| ==> s[i] == c && forall k | i < k < |s| :: s[k] != c)
    ensures i == |s| ==> c !in s
  {
    if s == "" then 0
    else if s[|s| - 1] == c then |s| - 1
    else
      var i := LastIndexOf(s[..|s| - 1], c);
      if i == |s| - 1 then |s| else i
  }

  function Run(s: string, digits: bool): (n: nat)
    ensures n <= |s| && (forall k | 0 <= k < n :: if digits then Digit(s[k]) else Letter(s[k]))
    ensures n < |s| ==> if digits then !Digit(s[n]) else !Letter(s[n])
    ensures s != "" && (if digits then Digit(s[0]) else Letter(s[0])) ==> n > 0
  {
    if s != "" && (if digits then Digit(s[0]) else Letter(s[0])) then 1 + Run(s[1..], digits) else 0
  }

  // Runs of digits and runs of letters. A tilde, or a recognised token, starts the
  // pre-release tail.
  function Tokenize(s: string, tail: bool): seq<Segment>
    requires forall c | c in s :: UpstreamChar(c)
    decreases |s|
  {
    if s == "" then []
    else if s[0] == '~' then Tokenize(s[1..], true)
    else if s[0] in {'.', '+', '-'} then Tokenize(s[1..], tail)
    else
      assert s[0] in s;
      var n := Run(s, Digit(s[0]));
      var next := tail || (Letter(s[0]) && PreReleaseRank(s[..n]) < RANK_OTHER);
      [Segment(Digit(s[0]), s[..n], next)] + Tokenize(s[n..], next)
  }

  // A complete version: an epoch before the first colon, a revision after the last
  // hyphen, the upstream version between them.
  function Parse(s: string): Option<Version>
  {
    var k := IndexOf(s, ':');
    var rest := if k < |s| then s[k + 1..] else s;
    var d := LastIndexOf(rest, '-');
    if (k < |s| && !CanonicalDecimal(s[..k])) || d == |rest| || !CanonicalDecimal(rest[d + 1..])
       || rest[d + 1..] == "0" || !ValidUpstream(rest[..d])
    then None
    else Some(Version(s, if k < |s| then s[..k] else "", Tokenize(rest[..d], false), rest[d + 1..]))
  }

  predicate VersionChar(c: char) { UpstreamChar(c) || c == ':' }

  lemma ParsedText(s: string)
    requires Parse(s).Some?
    ensures Parse(s).value.text == s && forall c | c in s :: VersionChar(c)
  {
    var k := IndexOf(s, ':');
    var rest := if k < |s| then s[k + 1..] else s;
    var d := LastIndexOf(rest, '-');
    forall i | 0 <= i < |s|
      ensures VersionChar(s[i])
    {
      if k < |s| && i < k {
        assert s[..k][i] in s[..k];
      } else if k == |s| || i > k {
        var j := if k == |s| then i else i - k - 1;
        assert s[i] == rest[j];
        if j < d {
          assert rest[..d][j] in rest[..d];
        } else if j > d {
          assert rest[d + 1..][j - d - 1] in rest[d + 1..];
        }
      }
    }
  }

  /** Comparing. */

  function CompareInt(a: int, b: int): int { if a < b then -1 else if a > b then 1 else 0 }

  function CompareText(a: string, b: string): int { if a == b then 0 else if Less(a, b) then -1 else 1 }

  function TrimZeros(s: string): string
  {
    if s != "" && s[0] == '0' then TrimZeros(s[1..]) else s
  }

  function CompareNumeric(a: string, b: string): int
  {
    var x, y := TrimZeros(a), TrimZeros(b);
    if |x| != |y| then CompareInt(|x|, |y|) else CompareText(x, y)
  }

  function CompareSegment(a: Segment, b: Segment): int
  {
    if a.preRelease != b.preRelease then if a.preRelease then -1 else 1
    else if a.numeric && b.numeric then CompareNumeric(a.text, b.text)
    else if !a.numeric && !b.numeric then
      var ra, rb := PreReleaseRank(a.text), PreReleaseRank(b.text);
      if ra != rb then CompareInt(ra, rb)
      else if ra == RANK_OTHER then CompareText(a.text, b.text) else 0
    else if a.numeric then if b.preRelease then 1 else -1
    else if a.preRelease then -1 else 1
  }

  // Past the common part the next segment decides: a pre-release tail makes the
  // longer version older.
  function CompareSegments(a: seq<Segment>, b: seq<Segment>): int
  {
    if a == [] && b == [] then 0
    else if a == [] then if b[0].preRelease then 1 else -1
    else if b == [] then if a[0].preRelease then -1 else 1
    else
      var c := CompareSegment(a[0], b[0]);
      if c != 0 then c else CompareSegments(a[1..], b[1..])
  }

  function Compare(a: Version, b: Version): int
  {
    var e := CompareNumeric(a.epoch, b.epoch);
    if e != 0 then e
    else
      var c := CompareSegments(a.segments, b.segments);
      if c != 0 then c else CompareNumeric(a.revision, b.revision)
  }

  /** Comparison is a total preorder. */

  // The sign of the other direction, and of two comparisons in a row.
  predicate Chains(ab: int, bc: int, ac: int)
  {
    && (ab <= 0 && bc <= 0 ==> ac <= 0)
    && (ab <= 0 && bc < 0 ==> ac < 0)
    && (ab < 0 && bc <= 0 ==> ac < 0)
  }

  lemma TextOrder(a: string, b: string, c: string)
    ensures CompareText(a, b) == -CompareText(b, a)
    ensures Chains(CompareText(a, b), CompareText(b, c), CompareText(a, c))
  {
    LessTotal(a, b);
    LessTotal(b, c);
    LessTotal(a, c);
    if Less(a, b) && Less(b, c) { LessTransitive(a, b, c); }
  }

  lemma NumericOrder(a: string, b: string, c: string)
    ensures CompareNumeric(a, b) == -CompareNumeric(b, a)
    ensures Chains(CompareNumeric(a, b), CompareNumeric(b, c), CompareNumeric(a, c))
  {
    TextOrder(TrimZeros(a), TrimZeros(b), TrimZeros(c));
  }

  lemma SegmentOrder(a: Segment, b: Segment, c: Segment)
    ensures CompareSegment(a, b) == -CompareSegment(b, a)
    ensures Chains(CompareSegment(a, b), CompareSegment(b, c), CompareSegment(a, c))
  {
    hide PreReleaseRank, CompareNumeric, CompareText;
    NumericOrder(a.text, b.text, c.text);
    TextOrder(a.text, b.text, c.text);
  }

  lemma {:induction false} SegmentsOrder(a: seq<Segment>, b: seq<Segment>, c: seq<Segment>)
    ensures CompareSegments(a, b) == -CompareSegments(b, a)
    ensures Chains(CompareSegments(a, b), CompareSegments(b, c), CompareSegments(a, c))
  {
    hide CompareSegment;
    if a != [] && b != [] {
      SegmentFlags(a[0], b[0]);
      SegmentOrder(a[0], b[0], if c == [] then a[0] else c[0]);
      SegmentsOrder(a[1..], b[1..], if c == [] then [] else c[1..]);
    }
    if b != [] && c != [] { SegmentFlags(b[0], c[0]); }
    if a != [] && c != [] {
      SegmentFlags(a[0], c[0]);
      SegmentOrder(c[0], a[0], c[0]);
    }
  }

  // A pre-release segment never follows an ordinary one.
  lemma SegmentFlags(a: Segment, b: Segment)
    ensures CompareSegment(a, b) <= 0 && b.preRelease ==> a.preRelease
    ensures CompareSegment(a, b) >= 0 && a.preRelease ==> b.preRelease
  {
  }

  lemma CompareIsTotalPreorder(a: Version, b: Version, c: Version)
    ensures Compare(a, a) == 0
    ensures Compare(a, b) == -Compare(b, a)
    ensures Compare(a, b) <= 0 && Compare(b, c) <= 0 ==> Compare(a, c) <= 0
    ensures Chains(Compare(a, b), Compare(b, c), Compare(a, c))
  {
    hide CompareNumeric, CompareSegments;
    NumericOrder(a.epoch, b.epoch, c.epoch);
    NumericOrder(a.revision, b.revision, c.revision);
    SegmentsOrder(a.segments, b.segments, c.segments);
    NumericOrder(a.epoch, a.epoch, a.epoch);
    NumericOrder(a.revision, a.revision, a.revision);
    SegmentsOrder(a.segments, a.segments, a.segments);
  }

  /** Which versions compare equal. */

  // Numbers of one value, or words that are the same or aliases of one token.
  predicate SameSegment(a: Segment, b: Segment)
  {
    && a.preRelease == b.preRelease && a.numeric == b.numeric
    && if a.numeric then TrimZeros(a.text) == TrimZeros(b.text)
       else a.text == b.text || PreReleaseRank(a.text) == PreReleaseRank(b.text) < RANK_OTHER
  }

  lemma NumericTie(a: string, b: string)
    ensures CompareNumeric(a, b) == 0 <==> TrimZeros(a) == TrimZeros(b)
  {
  }

  lemma SegmentTie(a: Segment, b: Segment)
    ensures CompareSegment(a, b) == 0 <==> SameSegment(a, b)
  {
    hide CompareNumeric, TrimZeros, Less;
    NumericTie(a.text, b.text);
  }

  lemma {:induction false} SegmentsTie(a: seq<Segment>, b: seq<Segment>)
    ensures CompareSegments(a, b) == 0 <==> |a| == |b| && forall i | 0 <= i < |a| :: SameSegment(a[i], b[i])
  {
    hide CompareSegment, SameSegment;
    if a != [] && b != [] {
      SegmentTie(a[0], b[0]);
      SegmentsTie(a[1..], b[1..]);
      assert forall i | 0 < i < |a| :: a[i] == a[1..][i - 1];
      assert forall i | 0 < i < |b| :: b[i] == b[1..][i - 1];
    }
  }

  // Two versions compare equal exactly when epoch and revision have one value and
  // the upstream versions are the same up to leading zeros, separators and aliases.
  lemma TieIsExact(a: Version, b: Version)
    ensures Compare(a, b) == 0 <==>
            && TrimZeros(a.epoch) == TrimZeros(b.epoch) && TrimZeros(a.revision) == TrimZeros(b.revision)
            && |a.segments| == |b.segments|
            && forall i | 0 <= i < |a.segments| :: SameSegment(a.segments[i], b.segments[i])
  {
    hide CompareNumeric, CompareSegments, SameSegment;
    NumericTie(a.epoch, b.epoch);
    NumericTie(a.revision, b.revision);
    SegmentsTie(a.segments, b.segments);
  }

  lemma ParseParts(upstream: string)
    requires ValidUpstream(upstream)
    ensures Parse(upstream + "-1") == Some(Version(upstream + "-1", "", Tokenize(upstream, false), "1"))
  {
    var s := upstream + "-1";
    assert ':' !in s && IndexOf(s, ':') == |s| by {
      assert forall k | 0 <= k < |s| :: s[k] in upstream || s[k] in "-1";
    }
    assert s[|upstream|] == '-' && s[|upstream| + 1] == '1';
    assert LastIndexOf(s, '-') == |upstream|;
    assert s[..|upstream|] == upstream && s[|upstream| + 1..] == "1";
  }

  lemma OneWord(word: string, tail: bool)
    requires word != "" && forall c | c in word :: Letter(c)
    ensures Tokenize(word, tail) == [Segment(false, word, tail || PreReleaseRank(word) < RANK_OTHER)]
  {
    var n := Run(word, false);
    assert forall k | 0 <= k < |word| :: word[k] in word;
    assert word[..n] == word && word[n..] == "" && Letter(word[0]);
  }

  lemma TildeWord(word: string)
    requires word != "" && forall c | c in word :: Letter(c)
    ensures forall c | c in "1~" + word :: UpstreamChar(c)
    ensures Tokenize("1~" + word, false) == [Segment(true, "1", false), Segment(false, word, true)]
  {
    var s := "1~" + word;
    OneWord(word, true);
    assert s[1..] == "~" + word && ("~" + word)[1..] == word;
    assert Run(s, true) == 1 && s[..1] == "1";
    assert Tokenize("~" + word, false) == Tokenize(word, true);
  }

  // A pre-release of version 1, first revision.
  function Snapshot(word: string): string { "1~" + word + "-1" }

  // It does not tell spellings apart: for any two spellings of one token there are
  // two versions that parse, with different texts, and compare equal.
  lemma AliasesTie(x: string, y: string)
    requires x != y && PreReleaseRank(x) == PreReleaseRank(y) < RANK_OTHER
    requires x != "" && y != "" && (forall c | c in x :: Letter(c)) && (forall c | c in y :: Letter(c))
    ensures Snapshot(x) != Snapshot(y) && Parse(Snapshot(x)).Some? && Parse(Snapshot(y)).Some?
    ensures Compare(Parse(Snapshot(x)).value, Parse(Snapshot(y)).value) == 0
  {
    hide PreReleaseRank, Parse, Tokenize, Compare, TrimZeros;
    TildeWord(x);
    TildeWord(y);
    ParseParts("1~" + x);
    ParseParts("1~" + y);
    TieIsExact(Parse(Snapshot(x)).value, Parse(Snapshot(y)).value);
    assert Snapshot(x)[2..|Snapshot(x)| - 2] == x && Snapshot(y)[2..|Snapshot(y)| - 2] == y;
  }

  lemma TwoSpellings()
    ensures PreReleaseRank("alpha") == PreReleaseRank("a") < RANK_OTHER && "alpha" != "a"
  {
    assert Lower("alpha") == "alpha" && Lower("a") == "a";
    assert |"alpha"| != |"a"|;
  }
}
