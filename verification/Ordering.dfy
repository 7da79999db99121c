/** Which of two versions is the greater (internal/version/compare.go), in terms of the
    numbers and words they are written with. */
module Ordering {
  import opened Sorting
  import opened TempNames
  import opened Versions

  /** Numbers. */

  predicate Digits(s: string) { forall c | c in s :: Digit(c) }

  function Power(k: nat): nat { if k == 0 then 1 else 10 * Power(k - 1) }

  // The number a string of digits denotes; none is zero.
  function Value(s: string): nat
    requires Digits(s)
  {
    if s == "" then 0
    else
      FrontDigits(s);
      10 * Value(s[..|s| - 1]) + (s[|s| - 1] as int - '0' as int)
  }

  lemma FrontDigits(s: string)
    requires Digits(s) && s != ""
    ensures Digits(s[..|s| - 1]) && Digit(s[|s| - 1]) && Digit(s[0])
  {
    assert s[|s| - 1] in s && s[0] in s && forall c | c in s[..|s| - 1] :: c in s;
  }

  lemma {:induction false} ValueBound(s: string)
    requires Digits(s)
    ensures Value(s) < Power(|s|)
    ensures s != "" && s[0] != '0' ==> Power(|s| - 1) <= Value(s)
  {
    if s != "" {
      FrontDigits(s);
      ValueBound(s[..|s| - 1]);
    }
  }

  lemma {:induction false} PowerGrows(j: nat, k: nat)
    requires j <= k
    ensures Power(j) <= Power(k)
    decreases k
  {
    if j < k { PowerGrows(j, k - 1); }
  }

  lemma {:induction false} LeadingZero(s: string)
    requires Digits(s) && s != "" && s[0] == '0'
    ensures Digits(s[1..]) && Value(s[1..]) == Value(s)
  {
    FrontDigits(s);
    assert forall c | c in s[1..] :: c in s;
    if |s| > 1 {
      LeadingZero(s[..|s| - 1]);
      assert s[..|s| - 1][1..] == s[1..][..|s| - 2];
    }
  }

  lemma {:induction false} TrimKeeps(s: string)
    requires Digits(s)
    ensures var t := TrimZeros(s); Digits(t) && Value(t) == Value(s) && (t != "" ==> t[0] != '0')
  {
    if s != "" && s[0] == '0' {
      LeadingZero(s);
      TrimKeeps(s[1..]);
    }
  }

  // In texts of one length the first difference decides, so the last character only
  // where the rest is the same.
  lemma {:induction false} LessByLast(a: string, b: string)
    requires |a| == |b| > 0
    ensures var n := |a| - 1; Less(a, b) <==> Less(a[..n], b[..n]) || (a[..n] == b[..n] && a[n] < b[n])
  {
    var n := |a| - 1;
    if n > 0 {
      LessByLast(a[1..], b[1..]);
      assert a[1..][..n - 1] == a[..n][1..] && b[1..][..n - 1] == b[..n][1..];
      assert a[..n] == [a[0]] + a[..n][1..] && b[..n] == [b[0]] + b[..n][1..];
    }
  }

  // Digit strings of one length: the order of the text is that of the numbers.
  lemma {:induction false} TextByValue(a: string, b: string)
    requires Digits(a) && Digits(b) && |a| == |b|
    ensures Less(a, b) <==> Value(a) < Value(b)
    ensures a == b <==> Value(a) == Value(b)
  {
    if a != "" {
      var n := |a| - 1;
      FrontDigits(a);
      FrontDigits(b);
      TextByValue(a[..n], b[..n]);
      LessByLast(a, b);
      assert a == a[..n] + [a[n]] && b == b[..n] + [b[n]];
    }
  }

  lemma TrimmedByValue(x: string, y: string)
    requires Digits(x) && Digits(y) && (x != "" ==> x[0] != '0') && (y != "" ==> y[0] != '0')
    ensures Value(x) < Value(y) <==> |x| < |y| || (|x| == |y| && Less(x, y))
    ensures Value(x) == Value(y) <==> x == y
  {
    ValueBound(x);
    ValueBound(y);
    if |x| == |y| {
      TextByValue(x, y);
    } else if |x| < |y| {
      PowerGrows(|x|, |y| - 1);
    } else {
      PowerGrows(|y|, |x| - 1);
    }
  }

  // Numbers compare by what they denote, whatever their lengths and leading zeros.
  lemma NumericByValue(a: string, b: string)
    requires Digits(a) && Digits(b)
    ensures CompareNumeric(a, b) < 0 <==> Value(a) < Value(b)
    ensures CompareNumeric(a, b) == 0 <==> Value(a) == Value(b)
  {
    hide Value, Less;
    TrimKeeps(a);
    TrimKeeps(b);
    TrimmedByValue(TrimZeros(a), TrimZeros(b));
  }

  // Numbers as they are written: a canonical decimal is what some number renders as.
  lemma {:induction false} DecimalIsCanonical(n: nat)
    ensures CanonicalDecimal(Decimal(n)) && Digits(Decimal(n)) && Value(Decimal(n)) == n
    ensures n > 0 ==> Decimal(n)[0] != '0'
  {
    var s := Decimal(n);
    FrontDigits(s);
    if n >= 10 {
      DecimalIsCanonical(n / 10);
      assert s[..|s| - 1] == Decimal(n / 10) && s[0] == Decimal(n / 10)[0];
    } else {
      assert s[..|s| - 1] == "";
    }
  }

  lemma {:induction false} CanonicalIsDecimal(s: string)
    requires CanonicalDecimal(s)
    ensures Digits(s) && Decimal(Value(s)) == s
  {
    FrontDigits(s);
    if |s| > 1 {
      var front := s[..|s| - 1];
      CanonicalIsDecimal(front);
      ValueBound(front);
      assert Power(|front| - 1) >= 1 by { PowerGrows(0, |front| - 1); }
      assert Value(s) / 10 == Value(front) && s == front + [s[|s| - 1]];
    } else {
      assert s[..0] == "" && Value(s) == s[0] as int - '0' as int && s == [s[0]];
    }
  }

  /** Words. */

  // The pre-release tokens, from the oldest stage to the newest.
  const STAGES: seq<seq<string>> := [["dev"], ["alpha", "a"], ["beta", "b"], ["pre"], ["rc"]]

  // The word, in capitals or not.
  predicate Spells(word: string, token: string)
  {
    |word| == |token| && forall i | 0 <= i < |word| :: word[i] == token[i] || word[i] as int + 32 == token[i] as int
  }

  // The stage a word names; every other word comes after all of them.
  function StageFrom(word: string, i: nat): (stage: nat)
    requires i <= |STAGES|
    ensures i <= stage <= |STAGES|
    decreases |STAGES| - i
  {
    if i == |STAGES| || exists t | t in STAGES[i] :: Spells(word, t) then i else StageFrom(word, i + 1)
  }

  function Stage(word: string): (stage: nat)
    ensures stage <= |STAGES|
  {
    StageFrom(word, 0)
  }

  predicate LowerWord(token: string) { forall i | 0 <= i < |token| :: 'a' <= token[i] <= 'z' }

  lemma SpellsIsLower(word: string, token: string)
    requires LowerWord(token)
    ensures Spells(word, token) <==> Lower(word) == token
  {
    var low := Lower(word);
    assert |low| == |word|;
    if Spells(word, token) {
      assert forall i | 0 <= i < |low| :: low[i] == token[i];
    }
    if low == token {
      assert forall i | 0 <= i < |low| :: low[i] == token[i];
    }
  }

  lemma StageIsRank(word: string)
    ensures Stage(word) == PreReleaseRank(word)
  {
    hide Lower, Spells;
    SpellsIsLower(word, "dev");
    SpellsIsLower(word, "alpha");
    SpellsIsLower(word, "a");
    SpellsIsLower(word, "beta");
    SpellsIsLower(word, "b");
    SpellsIsLower(word, "pre");
    SpellsIsLower(word, "rc");
    StagesUnfold(word);
  }

  lemma StagesUnfold(word: string)
    ensures Stage(word) ==
            if Spells(word, "dev") then 0
            else if Spells(word, "alpha") || Spells(word, "a") then 1
            else if Spells(word, "beta") || Spells(word, "b") then 2
            else if Spells(word, "pre") then 3
            else if Spells(word, "rc") then 4 else 5
  {
    hide Spells;
    assert STAGES[0] == ["dev"] && STAGES[1] == ["alpha", "a"] && STAGES[2] == ["beta", "b"];
    assert STAGES[3] == ["pre"] && STAGES[4] == ["rc"] && |STAGES| == 5;
    assert StageFrom(word, 5) == 5;
    assert StageFrom(word, 4) == if Spells(word, "rc") then 4 else 5;
    assert StageFrom(word, 3) == if Spells(word, "pre") then 3 else StageFrom(word, 4);
    assert StageFrom(word, 2) == if Spells(word, "beta") || Spells(word, "b") then 2 else StageFrom(word, 3);
    assert StageFrom(word, 1) == if Spells(word, "alpha") || Spells(word, "a") then 1 else StageFrom(word, 2);
  }

  /** Segments: a version orders as the list of its keys, closed by an end mark. */

  // The mark stands above everything in a pre-release tail and below everything else.
  // In a tail words come before numbers, elsewhere after them. A token counts by its
  // stage alone, any other word by its spelling too.
  datatype Key = TailWord(stage: nat, word: string) | TailNumber(n: nat) | EndMark
               | Number(n: nat) | Word(stage: nat, word: string)

  function Place(k: Key): nat
  {
    match k
    case TailWord(_, _) => 0
    case TailNumber(_) => 1
    case EndMark => 2
    case Number(_) => 3
    case Word(_, _) => 4
  }

  predicate WordBelow(i: nat, a: string, j: nat, b: string) { i < j || (i == j && Less(a, b)) }

  predicate Below(a: Key, b: Key)
  {
    if Place(a) != Place(b) then Place(a) < Place(b)
    else match a
      case TailWord(i, x) => WordBelow(i, x, b.stage, b.word)
      case TailNumber(n) => n < b.n
      case EndMark => false
      case Number(n) => n < b.n
      case Word(i, x) => WordBelow(i, x, b.stage, b.word)
  }

  predicate Plain(s: Segment) { s.numeric ==> Digits(s.text) }

  predicate AllPlain(segments: seq<Segment>) { forall i | 0 <= i < |segments| :: Plain(segments[i]) }

  function KeyOf(s: Segment): Key
    requires Plain(s)
  {
    var stage := Stage(s.text);
    var word := if stage < |STAGES| then "" else s.text;
    if s.numeric then if s.preRelease then TailNumber(Value(s.text)) else Number(Value(s.text))
    else if s.preRelease then TailWord(stage, word) else Word(stage, word)
  }

  function KeyAt(segments: seq<Segment>, i: nat): Key
    requires AllPlain(segments)
  {
    if i < |segments| then KeyOf(segments[i]) else EndMark
  }

  // Two segments compare as their keys.
  lemma SegmentByKey(a: Segment, b: Segment)
    requires Plain(a) && Plain(b)
    ensures CompareSegment(a, b) < 0 <==> Below(KeyOf(a), KeyOf(b))
    ensures CompareSegment(a, b) == 0 <==> KeyOf(a) == KeyOf(b)
  {
    hide Stage, PreReleaseRank, CompareNumeric, Value, Less, Digits;
    StageIsRank(a.text);
    StageIsRank(b.text);
    if a.numeric && b.numeric {
      NumericByValue(a.text, b.text);
    }
    LessTotal(a.text, b.text);
    LessTotal(b.text, b.text);
    LessTotal("", "");
    assert |STAGES| == RANK_OTHER;
  }

  // The first position at which the keys differ decides.
  ghost predicate DecidedAt(a: seq<Segment>, b: seq<Segment>, i: nat)
    requires AllPlain(a) && AllPlain(b)
  {
    i <= |a| && i <= |b| && (forall j: nat | j < i :: KeyAt(a, j) == KeyAt(b, j)) && Below(KeyAt(a, i), KeyAt(b, i))
  }

  ghost predicate OlderSegments(a: seq<Segment>, b: seq<Segment>)
    requires AllPlain(a) && AllPlain(b)
  {
    exists i: nat :: DecidedAt(a, b, i)
  }

  ghost predicate SameKeys(a: seq<Segment>, b: seq<Segment>)
    requires AllPlain(a) && AllPlain(b)
  {
    |a| == |b| && forall i | 0 <= i < |a| :: KeyOf(a[i]) == KeyOf(b[i])
  }

  lemma {:induction false} SegmentsByKeys(a: seq<Segment>, b: seq<Segment>)
    requires AllPlain(a) && AllPlain(b)
    ensures CompareSegments(a, b) < 0 <==> OlderSegments(a, b)
    ensures CompareSegments(a, b) == 0 <==> SameKeys(a, b)
  {
    hide CompareSegment, KeyOf;
    if a == [] || b == [] {
      AtTheEnd(a, b);
    } else {
      SegmentByKey(a[0], b[0]);
      SegmentsByKeys(a[1..], b[1..]);
      OneKeyOn(a, b);
    }
  }

  lemma AtTheEnd(a: seq<Segment>, b: seq<Segment>)
    requires AllPlain(a) && AllPlain(b) && (a == [] || b == [])
    ensures CompareSegments(a, b) < 0 <==> OlderSegments(a, b)
    ensures CompareSegments(a, b) == 0 <==> SameKeys(a, b)
  {
    hide Value, Stage;
    if OlderSegments(a, b) {
      var i: nat :| DecidedAt(a, b, i);
      assert i == 0;
    }
    if a != [] || b != [] {
      assert CompareSegments(a, b) < 0 <==> Below(KeyAt(a, 0), KeyAt(b, 0));
      assert Below(KeyAt(a, 0), KeyAt(b, 0)) <==> DecidedAt(a, b, 0);
    }
  }

  lemma OneKeyOn(a: seq<Segment>, b: seq<Segment>)
    requires AllPlain(a) && AllPlain(b) && a != [] && b != []
    ensures Below(KeyOf(a[0]), KeyOf(b[0])) ==> OlderSegments(a, b) && !SameKeys(a, b)
    ensures KeyOf(a[0]) == KeyOf(b[0]) ==>
              && (OlderSegments(a, b) <==> OlderSegments(a[1..], b[1..]))
              && (SameKeys(a, b) <==> SameKeys(a[1..], b[1..]))
    ensures KeyOf(a[0]) != KeyOf(b[0]) && !Below(KeyOf(a[0]), KeyOf(b[0])) ==>
              !OlderSegments(a, b) && !SameKeys(a, b)
  {
    hide KeyOf;
    var x, y := a[1..], b[1..];
    BelowItself(KeyOf(a[0]));
    assert KeyAt(a, 0) == KeyOf(a[0]) && KeyAt(b, 0) == KeyOf(b[0]);
    assert forall j: nat :: KeyAt(x, j) == KeyAt(a, j + 1) && KeyAt(y, j) == KeyAt(b, j + 1);
    if Below(KeyOf(a[0]), KeyOf(b[0])) { assert DecidedAt(a, b, 0); }
    if KeyOf(a[0]) == KeyOf(b[0]) {
      if i: nat :| DecidedAt(a, b, i) {
        assert i > 0;
        assert DecidedAt(x, y, i - 1);
      }
      if i: nat :| DecidedAt(x, y, i) {
        forall j: nat | j < i + 1
          ensures KeyAt(a, j) == KeyAt(b, j)
        {
          if j > 0 { assert KeyAt(x, j - 1) == KeyAt(y, j - 1); }
        }
        assert DecidedAt(a, b, i + 1);
      }
      if SameKeys(x, y) { assert forall i | 0 < i < |a| :: a[i] == x[i - 1] && b[i] == y[i - 1]; }
    }
  }

  lemma BelowItself(k: Key)
    ensures !Below(k, k)
  {
    if k.Word? || k.TailWord? { LessTotal(k.word, k.word); }
  }

  /** Versions. */

  predicate Parsed(v: Version) { Digits(v.epoch) && Digits(v.revision) && AllPlain(v.segments) }

  // The epoch first, then the upstream version, then the revision.
  ghost predicate Older(a: Version, b: Version)
    requires Parsed(a) && Parsed(b)
  {
    || Value(a.epoch) < Value(b.epoch)
    || (Value(a.epoch) == Value(b.epoch)
        && (|| OlderSegments(a.segments, b.segments)
            || (SameKeys(a.segments, b.segments) && Value(a.revision) < Value(b.revision))))
  }

  lemma CompareIsOlder(a: Version, b: Version)
    requires Parsed(a) && Parsed(b)
    ensures Compare(a, b) < 0 <==> Older(a, b)
    ensures Compare(a, b) > 0 <==> Older(b, a)
  {
    hide CompareNumeric, CompareSegments, Value, OlderSegments, SameKeys, Digits;
    NumericByValue(a.epoch, b.epoch);
    NumericByValue(b.epoch, a.epoch);
    NumericByValue(a.revision, b.revision);
    NumericByValue(b.revision, a.revision);
    SegmentsByKeys(a.segments, b.segments);
    SegmentsByKeys(b.segments, a.segments);
    NumericOrder(a.epoch, b.epoch, b.epoch);
    NumericOrder(a.revision, b.revision, b.revision);
    SegmentsOrder(a.segments, b.segments, b.segments);
  }
}
