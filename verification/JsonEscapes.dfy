/** The escape scan (checkEscapes and hex4 in internal/jsonguard/jsonguard.go) against
    the grammar of strings in section 7 of RFC 8259. */
module JsonEscapes {
  import opened Wrappers

  /** The grammar: what a string literal is made of. */

  datatype Unit = Plain(c: char) | Short(c: char) | Code(digits: string)

  // Text outside strings, string literals, and a last string left open.
  datatype Doc = End | Outside(c: char, rest: Doc) | Literal(units: seq<Unit>, rest: Doc) | Unclosed(units: seq<Unit>)

  predicate IsHex(c: char) { '0' <= c <= '9' || 'a' <= c <= 'f' || 'A' <= c <= 'F' }

  predicate AllHex(s: string) { forall i | 0 <= i < |s| :: IsHex(s[i]) }

  predicate ProperUnit(u: Unit)
  {
    match u
    case Plain(c) => c != '"' && c != '\\'
    case Short(c) => c != 'u'
    case Code(digits) => |digits| == 4 && AllHex(digits)
  }

  function RenderUnit(u: Unit): string
  {
    match u
    case Plain(c) => [c]
    case Short(c) => ['\\', c]
    case Code(digits) => "\\u" + digits
  }

  function RenderUnits(us: seq<Unit>): string
  {
    if us == [] then "" else RenderUnit(us[0]) + RenderUnits(us[1..])
  }

  function Render(d: Doc): string
  {
    match d
    case End => ""
    case Outside(c, rest) => [c] + Render(rest)
    case Literal(units, rest) => "\"" + RenderUnits(units) + "\"" + Render(rest)
    case Unclosed(units) => "\"" + RenderUnits(units)
  }

  function Digit(c: char): int
    requires IsHex(c)
  {
    if '0' <= c <= '9' then c as int - '0' as int
    else if 'a' <= c <= 'f' then c as int - 'a' as int + 10
    else c as int - 'A' as int + 10
  }

  function HexValue(s: string): int
    requires AllHex(s)
  {
    if s == "" then 0 else HexValue(s[..|s| - 1]) * 16 + Digit(s[|s| - 1])
  }

  predicate IsHighSurrogate(r: int) { 0xD800 <= r <= 0xDBFF }

  predicate IsLowSurrogate(r: int) { 0xDC00 <= r <= 0xDFFF }

  predicate High(u: Unit) { u.Code? && ProperUnit(u) && IsHighSurrogate(HexValue(u.digits)) }

  predicate Low(u: Unit) { u.Code? && ProperUnit(u) && IsLowSurrogate(HexValue(u.digits)) }

  // Every high surrogate stands right before a low one, and every low one right
  // after a high one.
  ghost predicate Paired(us: seq<Unit>)
  {
    && (forall i | 0 <= i < |us| && High(us[i]) :: i + 1 < |us| && Low(us[i + 1]))
    && (forall i | 0 <= i < |us| && Low(us[i]) :: i > 0 && High(us[i - 1]))
  }

  ghost predicate ProperUnits(us: seq<Unit>) { Paired(us) && forall i | 0 <= i < |us| :: ProperUnit(us[i]) }

  ghost predicate Proper(d: Doc)
  {
    match d
    case End => true
    case Outside(c, rest) => c != '"' && Proper(rest)
    case Literal(units, rest) => ProperUnits(units) && Proper(rest)
    case Unclosed(units) => ProperUnits(units)
  }

  /** The scan. */

  function Hex4(data: string, off: nat): Option<int>
  {
    if off + 4 > |data| || !AllHex(data[off..off + 4]) then None else Some(HexValue(data[off..off + 4]))
  }

  // The source accumulates the digits one by one.
  method ReadHex4(data: string, off: nat) returns (r: Option<int>)
    ensures r == Hex4(data, off)
  {
    hide Digit, IsHex;
    if off + 4 > |data| { return None; }
    var v := 0;
    for i := 0 to 4
      invariant AllHex(data[off..off + i]) && v == HexValue(data[off..off + i])
    {
      OneMoreDigit(data, off, i);
      if !IsHex(data[off + i]) { return None; }
      v := v * 16 + Digit(data[off + i]);
    }
    return Some(v);
  }

  lemma OneMoreDigit(data: string, off: nat, i: nat)
    requires i < 4 && off + 4 <= |data| && AllHex(data[off..off + i])
    ensures !IsHex(data[off + i]) ==> !AllHex(data[off..off + 4])
    ensures IsHex(data[off + i]) ==>
              && AllHex(data[off..off + i + 1])
              && HexValue(data[off..off + i + 1]) == HexValue(data[off..off + i]) * 16 + Digit(data[off + i])
  {
    hide Digit, IsHex;
    var all, more := data[off..off + 4], data[off..off + i + 1];
    assert more[..i] == data[off..off + i] && more[i] == data[off + i] == all[i];
    assert forall j | 0 <= j < i :: more[j] == data[off..off + i][j];
  }

  // What the scan says of the rest of the data.
  predicate Scan(data: string, inString: bool)
    decreases |data|
  {
    if data == "" then true
    else if !inString then Scan(data[1..], data[0] == '"')
    else if data[0] == '"' then Scan(data[1..], false)
    else if data[0] != '\\' then Scan(data[1..], true)
    else if |data| < 2 then false
    else if data[1] != 'u' then Scan(data[2..], true)
    else match Hex4(data, 2)
      case None => false
      case Some(r) =>
        if IsHighSurrogate(r) then
          && |data| > 7 && data[6] == '\\' && data[7] == 'u' && Hex4(data, 8).Some?
          && IsLowSurrogate(Hex4(data, 8).value) && Scan(data[12..], true)
        else !IsLowSurrogate(r) && Scan(data[6..], true)
  }

  method CheckEscapes(data: string) returns (ok: bool)
    ensures ok <==> Scan(data, false)
  {
    hide Hex4;
    var inString := false;
    var i := 0;
    while i < |data|
      invariant 0 <= i <= |data|
      invariant Scan(data, false) == Scan(data[i..], inString)
    {
      ghost var rest := data[i..];
      assert data[i + 1..] == rest[1..];
      if !inString {
        inString := data[i] == '"';
        i := i + 1;
      } else if data[i] == '"' {
        inString := false;
        i := i + 1;
      } else if data[i] != '\\' {
        i := i + 1;
      } else {
        if i + 1 >= |data| { return false; }
        if data[i + 1] != 'u' {
          assert data[i + 2..] == rest[2..];
          i := i + 2;
        } else {
          Hex4Shift(data, i, 2);
          Hex4Shift(data, i, 8);
          Hex4Fits(data, i + 2);
          Hex4Fits(data, i + 8);
          var r := ReadHex4(data, i + 2);
          if r.None? { return false; }
          if IsHighSurrogate(r.value) {
            var lo := ReadHex4(data, i + 8);
            if i + 7 >= |data| || data[i + 6] != '\\' || data[i + 7] != 'u' || lo.None? || !IsLowSurrogate(lo.value) {
              return false;
            }
            assert data[i + 12..] == rest[12..];
            i := i + 12;
          } else if IsLowSurrogate(r.value) {
            return false;
          } else {
            assert data[i + 6..] == rest[6..];
            i := i + 6;
          }
        }
      }
    }
    return true;
  }

  lemma Hex4Shift(data: string, i: nat, off: nat)
    requires i <= |data|
    ensures Hex4(data[i..], off) == Hex4(data, i + off)
  {
    if i + off + 4 <= |data| {
      assert data[i..][off..off + 4] == data[i + off..i + off + 4];
    }
  }

  lemma Hex4Fits(data: string, off: nat)
    ensures Hex4(data, off).Some? ==> off + 4 <= |data|
  {
  }

  /** The scan accepts what the grammar and the pairing allow. */

  lemma {:induction false} PairedTail(us: seq<Unit>, n: nat)
    requires ProperUnits(us) && n <= |us| && (n < |us| ==> !Low(us[n]))
    ensures ProperUnits(us[n..])
  {
    hide High, Low;
    var t := us[n..];
    forall i | 0 <= i < |t| && High(t[i])
      ensures i + 1 < |t| && Low(t[i + 1])
    {
      assert High(us[n + i]);
    }
    forall i | 0 <= i < |t| && Low(t[i])
      ensures i > 0 && High(t[i - 1])
    {
      assert Low(us[n + i]);
    }
  }

  // Inside a string, the scan runs through properly paired units to what follows.
  lemma {:induction false} ScanUnits(us: seq<Unit>, rest: string)
    requires ProperUnits(us) && (rest == "" || rest[0] == '"')
    ensures Scan(RenderUnits(us) + rest, true) == Scan(rest, true)
    decreases |us|
  {
    hide High, Low, ProperUnit, Scan, RenderUnit;
    if us == [] {
      assert RenderUnits(us) + rest == rest;
    } else {
      FirstUnit(us);
      if High(us[0]) {
        var after := RenderUnits(us[2..]) + rest;
        assert us[1..][0] == us[1] && us[1..][1..] == us[2..];
        assert RenderUnits(us) + rest == RenderUnit(us[0]) + (RenderUnit(us[1]) + after);
        PairedTail(us, 2);
        ScanPair(us[0], us[1], after);
        ScanUnits(us[2..], rest);
      } else {
        var tail := RenderUnits(us[1..]) + rest;
        assert RenderUnits(us) + rest == RenderUnit(us[0]) + tail;
        PairedTail(us, 1);
        ScanUnit(us[0], tail);
        ScanUnits(us[1..], rest);
      }
    }
  }

  // What can stand first, and what follows it.
  lemma FirstUnit(us: seq<Unit>)
    requires ProperUnits(us) && us != []
    ensures !Low(us[0])
    ensures if High(us[0]) then |us| > 1 && Low(us[1]) && (|us| > 2 ==> !Low(us[2])) else |us| > 1 ==> !Low(us[1])
  {
    hide ProperUnit, HexValue;
    assert High(us[0]) ==> Low(us[1]) && !High(us[1]);
    assert |us| > 2 && Low(us[2]) ==> High(us[1]);
    assert |us| > 1 && Low(us[1]) ==> High(us[0]);
  }

  lemma ScanUnit(u: Unit, tail: string)
    requires ProperUnit(u) && !High(u) && !Low(u)
    ensures Scan(RenderUnit(u) + tail, true) == Scan(tail, true)
  {
    hide HexValue, AllHex;
    var data := RenderUnit(u) + tail;
    match u
    case Plain(c) => assert data[1..] == tail;
    case Short(c) => assert data[2..] == tail;
    case Code(digits) =>
      assert data[2..6] == digits && data[6..] == tail && data[0] == '\\' && data[1] == 'u';
  }

  lemma ScanPair(u: Unit, v: Unit, tail: string)
    requires High(u) && Low(v)
    ensures Scan(RenderUnit(u) + (RenderUnit(v) + tail), true) == Scan(tail, true)
  {
    hide HexValue, AllHex;
    var data := RenderUnit(u) + (RenderUnit(v) + tail);
    assert data[0] == '\\' && data[1] == 'u' && data[6] == '\\' && data[7] == 'u' && data[12..] == tail;
    assert data[2..6] == u.digits && data[8..12] == v.digits;
  }

  // A quote opens a string, whose units are followed by a quote or by the end.
  lemma LiteralScans(units: seq<Unit>, after: string)
    requires ProperUnits(units) && (after == "" || (after[0] == '"' && Scan(after[1..], false)))
    ensures Scan("\"" + RenderUnits(units) + after, false)
  {
    hide Scan, RenderUnits, ProperUnits;
    var inner := RenderUnits(units) + after;
    assert "\"" + RenderUnits(units) + after == "\"" + inner;
    ScanUnits(units, after);
    CloseScans(after);
    OpenScans(inner);
  }

  lemma OpenScans(inner: string)
    requires Scan(inner, true)
    ensures Scan("\"" + inner, false)
  {
    hide Hex4;
    assert ("\"" + inner)[1..] == inner;
  }

  lemma CloseScans(after: string)
    requires after == "" || (after[0] == '"' && Scan(after[1..], false))
    ensures Scan(after, true)
  {
    hide Hex4;
  }

  lemma OutsideScans(c: char, rest: string)
    requires c != '"' && Scan(rest, false)
    ensures Scan([c] + rest, false)
  {
    hide Hex4;
    assert ([c] + rest)[1..] == rest;
  }

  lemma {:induction false} ProperIsScanned(d: Doc)
    requires Proper(d)
    ensures Scan(Render(d), false)
  {
    hide Scan, RenderUnits, ProperUnits;
    match d
    case End =>
      EmptyScans();
    case Outside(c, rest) =>
      ProperIsScanned(rest);
      OutsideScans(c, Render(rest));
    case Literal(units, rest) =>
      ProperIsScanned(rest);
      var after := "\"" + Render(rest);
      assert after[1..] == Render(rest);
      LiteralScans(units, after);
      assert Render(d) == "\"" + RenderUnits(units) + after;
    case Unclosed(units) =>
      LiteralScans(units, "");
      assert Render(d) == "\"" + RenderUnits(units) + "";
  }

  lemma EmptyScans()
    ensures Scan("", false)
  {
  }

  /** And nothing else. */

  // One unit, or a pair, in front of properly paired units.
  lemma PairedCons(u: Unit, us: seq<Unit>)
    requires ProperUnit(u) && !High(u) && !Low(u) && ProperUnits(us)
    ensures ProperUnits([u] + us) && RenderUnits([u] + us) == RenderUnit(u) + RenderUnits(us)
  {
    var all := [u] + us;
    assert all[1..] == us && forall i | 0 < i < |all| :: all[i] == us[i - 1];
    forall i | 0 <= i < |all| && High(all[i])
      ensures i + 1 < |all| && Low(all[i + 1])
    {
      assert all[i] == us[i - 1] && all[i + 1] == us[i];
    }
  }

  lemma PairCons(u: Unit, v: Unit, us: seq<Unit>)
    requires High(u) && Low(v) && ProperUnits(us)
    ensures ProperUnits([u, v] + us) && RenderUnits([u, v] + us) == RenderUnit(u) + RenderUnit(v) + RenderUnits(us)
  {
    var all := [u, v] + us;
    assert all[1..] == [v] + us && ([v] + us)[1..] == us;
    assert !High(v) && !Low(u);
    forall i | 0 <= i < |all| && High(all[i])
      ensures i + 1 < |all| && Low(all[i + 1])
    {
      assert i >= 2 ==> all[i] == us[i - 2] && i - 1 < |us| && all[i + 1] == us[i - 1];
    }
    forall i | 0 <= i < |all| && Low(all[i])
      ensures i > 0 && High(all[i - 1])
    {
      assert i >= 2 ==> all[i] == us[i - 2] && i > 2 && all[i - 1] == us[i - 3];
    }
  }

  lemma CodeAt(data: string, off: nat)
    requires off + 6 <= |data| && data[off] == '\\' && data[off + 1] == 'u'
    ensures data[off..] == RenderUnit(Code(data[off + 2..off + 6])) + data[off + 6..]
  {
  }

  lemma ScanEscape(data: string)
    requires Scan(data, true) && |data| >= 2 && data[0] == '\\' && data[1] == 'u'
    ensures Hex4(data, 2).Some? && !IsLowSurrogate(Hex4(data, 2).value)
    ensures if IsHighSurrogate(Hex4(data, 2).value) then
              && |data| > 7 && data[6] == '\\' && data[7] == 'u' && Hex4(data, 8).Some?
              && IsLowSurrogate(Hex4(data, 8).value) && |data| >= 12 && Scan(data[12..], true)
            else |data| >= 6 && Scan(data[6..], true)
  {
    Hex4Fits(data, 2);
    Hex4Fits(data, 8);
    hide Hex4;
  }

  lemma CodeIs(data: string, off: nat)
    requires Hex4(data, off).Some?
    ensures off + 4 <= |data| && ProperUnit(Code(data[off..off + 4]))
    ensures High(Code(data[off..off + 4])) <==> IsHighSurrogate(Hex4(data, off).value)
    ensures Low(Code(data[off..off + 4])) <==> IsLowSurrogate(Hex4(data, off).value)
  {
    hide HexValue, AllHex;
  }

  lemma ScanCode(data: string)
    requires Scan(data, true) && |data| >= 2 && data[0] == '\\' && data[1] == 'u'
    ensures |data| >= 6
    ensures var u := Code(data[2..6]);
      && ProperUnit(u) && !Low(u) && data == RenderUnit(u) + data[6..]
      && if High(u) then
           && |data| >= 12 && Low(Code(data[8..12])) && Scan(data[12..], true)
           && data[6..] == RenderUnit(Code(data[8..12])) + data[12..]
         else Scan(data[6..], true)
  {
    hide Scan, Hex4, High, Low, ProperUnit, RenderUnit;
    ScanEscape(data);
    CodeIs(data, 2);
    CodeAt(data, 0);
    assert data[0..] == data;
    if IsHighSurrogate(Hex4(data, 2).value) {
      CodeIs(data, 8);
      CodeAt(data, 6);
    }
  }

  // The units and the remainder of data that scans inside a string.
  lemma {:induction false} ParseString(data: string) returns (us: seq<Unit>, rest: string)
    requires Scan(data, true)
    ensures ProperUnits(us) && data == RenderUnits(us) + rest
    ensures rest == "" || (rest[0] == '"' && Scan(rest[1..], false))
    ensures |rest| <= |data|
    decreases |data|
  {
    hide High, Low, Hex4, RenderUnits, ProperUnits;
    if data == "" || data[0] == '"' {
      us, rest := [], data;
      NoUnits();
      assert data == "" + rest;
    } else if data[0] != '\\' {
      us, rest := ParseString(data[1..]);
      NotSurrogate(Plain(data[0]));
      PairedCons(Plain(data[0]), us);
      us := [Plain(data[0])] + us;
    } else if data[1] != 'u' {
      us, rest := ParseString(data[2..]);
      NotSurrogate(Short(data[1]));
      PairedCons(Short(data[1]), us);
      us := [Short(data[1])] + us;
    } else {
      us, rest := ParseCode(data);
    }
  }

  lemma {:induction false} ParseCode(data: string) returns (us: seq<Unit>, rest: string)
    requires Scan(data, true) && |data| >= 2 && data[0] == '\\' && data[1] == 'u'
    ensures ProperUnits(us) && data == RenderUnits(us) + rest
    ensures rest == "" || (rest[0] == '"' && Scan(rest[1..], false))
    ensures |rest| <= |data|
    decreases |data|, 0
  {
    hide High, Low, Hex4, RenderUnits, ProperUnits, Scan, RenderUnit, ProperUnit;
    ScanCode(data);
    var u := Code(data[2..6]);
    if High(u) {
      us, rest := ParseString(data[12..]);
      PairCons(u, Code(data[8..12]), us);
      us := [u, Code(data[8..12])] + us;
    } else {
      us, rest := ParseString(data[6..]);
      PairedCons(u, us);
      us := [u] + us;
    }
  }

  lemma NoUnits()
    ensures ProperUnits([]) && RenderUnits([]) == ""
  {
  }

  lemma NotSurrogate(u: Unit)
    requires !u.Code?
    ensures !High(u) && !Low(u)
  {
  }

  lemma {:induction false} ScannedIsProper(data: string) returns (d: Doc)
    requires Scan(data, false)
    ensures Proper(d) && data == Render(d)
    decreases |data|
  {
    hide ProperUnits, RenderUnits;
    if data == "" {
      d := End;
    } else if data[0] != '"' {
      var rest := ScannedIsProper(data[1..]);
      d := Outside(data[0], rest);
    } else {
      hide Scan;
      var us, after := ParseString(data[1..]) by { assert Scan(data[1..], true) by { QuoteOpens(data); } }
      if after == "" {
        d := Unclosed(us);
        assert data == "\"" + RenderUnits(us);
      } else {
        var rest := ScannedIsProper(after[1..]);
        d := Literal(us, rest);
        assert data == "\"" + (RenderUnits(us) + ("\"" + after[1..]));
      }
    }
  }

  lemma QuoteOpens(data: string)
    requires Scan(data, false) && data != "" && data[0] == '"'
    ensures Scan(data[1..], true)
  {
  }

  // The scan accepts exactly the texts whose strings are made of proper units with
  // every surrogate paired.
  lemma EscapesAreExact(data: string)
    ensures Scan(data, false) <==> exists d :: Proper(d) && data == Render(d)
  {
    if Scan(data, false) {
      var d := ScannedIsProper(data);
    }
    if d :| Proper(d) && data == Render(d) {
      ProperIsScanned(d);
    }
  }

  /** What the digits and the surrogates stand for. */

  const LOWER_HEX := "0123456789abcdef"
  const UPPER_HEX := "0123456789ABCDEF"

  lemma TablePlaces(i: nat)
    requires i < 16
    ensures LOWER_HEX[i] as int == if i < 10 then '0' as int + i else 'a' as int + i - 10
    ensures UPPER_HEX[i] as int == if i < 10 then '0' as int + i else 'A' as int + i - 10
  {
    if i < 4 {
      assert i in {0, 1, 2, 3};
    } else if i < 8 {
      assert i in {4, 5, 6, 7};
    } else if i < 12 {
      assert i in {8, 9, 10, 11};
    } else {
      assert i in {12, 13, 14, 15};
    }
  }

  // The digits are those of either table, and count by their place in it.
  lemma DigitsAreExact(c: char)
    ensures IsHex(c) <==> exists i :: 0 <= i < 16 && c in {LOWER_HEX[i], UPPER_HEX[i]}
    ensures forall i | 0 <= i < 16 && c in {LOWER_HEX[i], UPPER_HEX[i]} :: IsHex(c) && Digit(c) == i
  {
    forall i | 0 <= i < 16
      ensures LOWER_HEX[i] as int == if i < 10 then '0' as int + i else 'a' as int + i - 10
      ensures UPPER_HEX[i] as int == if i < 10 then '0' as int + i else 'A' as int + i - 10
    {
      TablePlaces(i);
    }
    if IsHex(c) {
      var i := Digit(c);
      assert 0 <= i < 16 && c in {LOWER_HEX[i], UPPER_HEX[i]};
    }
  }

  lemma FourDigits(s: string)
    requires AllHex(s) && |s| == 4
    ensures HexValue(s) == 0x1000 * Digit(s[0]) + 0x100 * Digit(s[1]) + 0x10 * Digit(s[2]) + Digit(s[3])
  {
    var x, y, z := s[..3], s[..2], s[..1];
    assert x[..2] == y && y[..1] == z && z[..0] == "";
    assert HexValue(z) == Digit(s[0]) && HexValue(y) == 16 * HexValue(z) + Digit(s[1]);
    assert HexValue(x) == 16 * HexValue(y) + Digit(s[2]);
  }

  // The halves UTF-16 splits a code point beyond the first 65536 into.
  function HighHalf(c: int): int { 0xD800 + (c - 0x1_0000) / 0x400 }

  function LowHalf(c: int): int { 0xDC00 + (c - 0x1_0000) % 0x400 }

  // Exactly these are surrogates, and a pair of them stands for one code point.
  lemma SurrogatesAreExact(h: int, l: int)
    ensures IsHighSurrogate(h) <==> exists c :: 0x1_0000 <= c <= 0x10_FFFF && HighHalf(c) == h
    ensures IsLowSurrogate(l) <==> exists c :: 0x1_0000 <= c <= 0x10_FFFF && LowHalf(c) == l
    ensures IsHighSurrogate(h) && IsLowSurrogate(l) ==>
              exists c :: 0x1_0000 <= c <= 0x10_FFFF && HighHalf(c) == h && LowHalf(c) == l
  {
    if IsHighSurrogate(h) { assert HighHalf(0x1_0000 + (h - 0xD800) * 0x400) == h; }
    if IsLowSurrogate(l) { assert LowHalf(0x1_0000 + (l - 0xDC00)) == l; }
    if IsHighSurrogate(h) && IsLowSurrogate(l) {
      var c := 0x1_0000 + (h - 0xD800) * 0x400 + (l - 0xDC00);
      assert HighHalf(c) == h && LowHalf(c) == l;
    }
  }
}
