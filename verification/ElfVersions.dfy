/** GNU symbol version tables (pack/elfversiontable.go; "Symbol Versioning" in the
    Linux Standard Base Core): what is accepted is laid out without overlap. */
module ElfVersions {
  import opened Wrappers

  type Byte = b: int | 0 <= b < 256

  datatype Kind = Need | Def

  // A section: its bytes, its entry count (a 32-bit field), its address, and the
  // bytes of its string table when its link names one.
  datatype Section = Section(data: seq<Byte>, info: nat, address: nat, strings: Option<seq<Byte>>)

  // What the checks of one section read.
  datatype Table = Table(kind: Kind, big: bool, data: seq<Byte>, info: nat, strings: seq<Byte>)

  function HeaderSize(k: Kind): nat { if k == Need then 16 else 20 }
  function AuxSize(k: Kind): nat { if k == Need then 16 else 8 }
  function CountOffset(k: Kind): nat { if k == Need then 2 else 6 }
  function AuxOffset(k: Kind): nat { if k == Need then 8 else 12 }
  function NextOffset(k: Kind): nat { if k == Need then 12 else 16 }
  function NameOffset(k: Kind): nat { if k == Need then 8 else 0 }

  /** Reads. */

  function Value(s: seq<Byte>, big: bool): nat
  {
    if s == [] then 0
    else if big then Value(s[..|s| - 1], big) * 256 + s[|s| - 1]
    else s[0] + 256 * Value(s[1..], big)
  }

  // A field of n bytes; nothing is read outside the data.
  function Field(t: Table, off: nat, n: nat): nat
  {
    if off + n <= |t.data| then Value(t.data[off..off + n], t.big) else 0
  }

  // The same read where the source performs it: it must be in range.
  function Read(t: Table, off: nat, n: nat): (v: nat)
    requires off + n <= |t.data|
    ensures v == Field(t, off, n)
  {
    Value(t.data[off..off + n], t.big)
  }

  lemma {:induction false} ValueBound2(s: seq<Byte>, big: bool)
    requires |s| == 2
    ensures Value(s, big) < 0x1_0000
  {
    if big {
      assert s[..1][..0] == [] && Value(s[..1], big) == s[0];
    } else {
      assert s[1..][1..] == [] && Value(s[1..], big) == s[1];
    }
  }

  lemma {:induction false} ValueBound4(s: seq<Byte>, big: bool)
    requires |s| == 4
    ensures Value(s, big) < 0x1_0000_0000
  {
    if big {
      assert s[..3][..2] == s[..2] && s[..3][2] == s[2];
      ValueBound2(s[..2], big);
    } else {
      assert s[1..][1..] == s[2..] && s[1..][0] == s[1];
      ValueBound2(s[2..], big);
    }
  }

  lemma FieldBounds(t: Table, off: nat)
    ensures Field(t, off, 2) < 0x1_0000 && Field(t, off, 4) < 0x1_0000_0000
  {
    if off + 2 <= |t.data| { ValueBound2(t.data[off..off + 2], t.big); }
    if off + 4 <= |t.data| { ValueBound4(t.data[off..off + 4], t.big); }
  }

  // Unsigned 64-bit addition.
  const TWO64 := 0x1_0000_0000_0000_0000

  function Add64(a: nat, b: nat): nat { (a + b) % TWO64 }

  lemma NoWrap(a: nat, b: nat)
    requires a + b < TWO64
    ensures Add64(a, b) == a + b
  {
  }

  // A non-empty string with its terminator inside the table.
  predicate ValidString(strings: seq<Byte>, off: nat)
  {
    off < |strings| && strings[off] != 0 && exists k | off < k < |strings| :: strings[k] == 0
  }

  method CheckString(strings: seq<Byte>, off: nat) returns (ok: bool)
    ensures ok <==> ValidString(strings, off)
  {
    if off >= |strings| { return false; }
    var k := off;
    while k < |strings| && strings[k] != 0
      invariant off <= k <= |strings| && forall j | off <= j < k :: strings[j] != 0
    {
      k := k + 1;
    }
    return k < |strings| && k > off;
  }

  /** The layout the fields describe. */

  function Next(t: Table, h: nat): nat { Field(t, h + NextOffset(t.kind), 4) }

  function Count(t: Table, h: nat): nat { Field(t, h + CountOffset(t.kind), 2) }

  function FirstAux(t: Table, h: nat): nat { h + Field(t, h + AuxOffset(t.kind), 4) }

  function AuxStep(t: Table, c: nat): nat
  {
    if AuxSize(t.kind) <= |t.data| then Field(t, c + AuxSize(t.kind) - 4, 4) else 0
  }

  // Where header i stands, and auxiliary j of the header at h.
  function HeaderAt(t: Table, i: nat): nat
  {
    if i == 0 then 0 else HeaderAt(t, i - 1) + Next(t, HeaderAt(t, i - 1))
  }

  function AuxAt(t: Table, h: nat, j: nat): nat
  {
    if j == 0 then FirstAux(t, h) else AuxAt(t, h, j - 1) + AuxStep(t, AuxAt(t, h, j - 1))
  }

  // The auxiliaries of entry i end before the next header, or the section's end.
  function Limit(t: Table, i: nat): nat
  {
    if i + 1 < t.info then HeaderAt(t, i + 1) else |t.data|
  }

  predicate HeaderOk(t: Table, i: nat)
  {
    var h, hs := HeaderAt(t, i), HeaderSize(t.kind);
    && h + hs <= |t.data|
    && Field(t, h, 2) == 1
    && (if i + 1 < t.info then hs <= Next(t, h) && h + Next(t, h) + hs <= |t.data| else Next(t, h) == 0)
    && 0 < Count(t, h) <= |t.data| / AuxSize(t.kind)
    && h + hs <= FirstAux(t, h)
    && (t.kind == Need ==> ValidString(t.strings, Field(t, h + 4, 4)))
  }

  predicate AuxOk(t: Table, i: nat, j: nat)
  {
    var h := HeaderAt(t, i);
    var c := AuxAt(t, h, j);
    && c + AuxSize(t.kind) <= Limit(t, i)
    && ValidString(t.strings, Field(t, c + NameOffset(t.kind), 4))
    && (if j + 1 < Count(t, h) then AuxSize(t.kind) <= AuxStep(t, c) else AuxStep(t, c) == 0)
  }

  predicate EntryOk(t: Table, i: nat)
  {
    HeaderOk(t, i) && forall j | 0 <= j < Count(t, HeaderAt(t, i)) :: AuxOk(t, i, j)
  }

  predicate TableOk(t: Table)
  {
    0 < t.info <= |t.data| / HeaderSize(t.kind) && forall i | 0 <= i < t.info :: EntryOk(t, i)
  }

  /** The check. */

  // One auxiliary, and where the next one stands. Nothing wraps: every sum stays
  // far below 2^64.
  method CheckAuxiliary(t: Table, i: nat, j: nat, limit: nat, cursor: nat) returns (ok: bool, after: nat)
    requires limit == Limit(t, i) <= |t.data| < 0x8000_0000_0000_0000
    requires j < Count(t, HeaderAt(t, i))
    requires cursor == AuxAt(t, HeaderAt(t, i), j) <= |t.data| + 0x1_0000_0000
    ensures ok <==> AuxOk(t, i, j)
    ensures ok && j + 1 < Count(t, HeaderAt(t, i)) ==>
              after == AuxAt(t, HeaderAt(t, i), j + 1) <= |t.data| + 0x1_0000_0000
  {
    hide ValidString, Limit, Value, Count, HeaderAt;
    var auxSize := AuxSize(t.kind);
    if Add64(cursor, auxSize) > limit { return false, cursor; }
    var okName := CheckString(t.strings, Read(t, cursor + NameOffset(t.kind), 4));
    if !okName { return false, cursor; }
    var step := Read(t, cursor + auxSize - 4, 4);
    FieldBounds(t, cursor + auxSize - 4);
    if j + 1 < Count(t, HeaderAt(t, i)) {
      if step < auxSize { return false, cursor; }
      return true, Add64(cursor, step);
    }
    return step == 0, cursor;
  }

  method CheckAuxiliaries(t: Table, i: nat, limit: nat) returns (ok: bool)
    requires |t.data| < 0x8000_0000_0000_0000 && HeaderOk(t, i) && limit == Limit(t, i) <= |t.data|
    ensures ok <==> forall j | 0 <= j < Count(t, HeaderAt(t, i)) :: AuxOk(t, i, j)
  {
    hide ValidString, HeaderOk, Limit, Value, AuxOk;
    var h := HeaderAt(t, i);
    HeaderFits(t, i);
    FieldBounds(t, h + AuxOffset(t.kind));
    var cursor := Add64(h, Field(t, h + AuxOffset(t.kind), 4));
    for j := 0 to Count(t, h)
      invariant forall m | 0 <= m < j :: AuxOk(t, i, m)
      invariant j < Count(t, h) ==> cursor == AuxAt(t, h, j) <= |t.data| + 0x1_0000_0000
    {
      var good, after := CheckAuxiliary(t, i, j, limit, cursor);
      if !good { return false; }
      cursor := after;
    }
    return true;
  }

  lemma HeaderFits(t: Table, i: nat)
    requires HeaderOk(t, i)
    ensures HeaderAt(t, i) + HeaderSize(t.kind) <= |t.data|
  {
  }

  lemma LimitIs(t: Table, i: nat)
    ensures Limit(t, i) == if i + 1 < t.info then HeaderAt(t, i) + Next(t, HeaderAt(t, i)) else |t.data|
  {
  }

  method CheckHeader(t: Table, i: nat, offset: nat) returns (ok: bool, limit: nat)
    requires |t.data| < 0x8000_0000_0000_0000 && i < t.info && offset == HeaderAt(t, i) <= |t.data|
    ensures ok <==> HeaderOk(t, i)
    ensures ok ==> limit == Limit(t, i) <= |t.data|
  {
    hide ValidString, Value, HeaderAt, Limit, Add64;
    var hs := HeaderSize(t.kind);
    LimitIs(t, i);
    FieldBounds(t, offset + NextOffset(t.kind));
    NoWrap(offset, hs);
    NoWrap(offset, Field(t, offset + NextOffset(t.kind), 4));
    NoWrap(offset + Field(t, offset + NextOffset(t.kind), 4), hs);
    limit := |t.data|;
    if Add64(offset, hs) > |t.data| { return false, limit; }
    if Read(t, offset, 2) != 1 { return false, limit; }
    var count := Read(t, offset + CountOffset(t.kind), 2);
    var aux := Read(t, offset + AuxOffset(t.kind), 4);
    var next := Read(t, offset + NextOffset(t.kind), 4);
    if i + 1 < t.info {
      if next < hs || Add64(Add64(offset, next), hs) > |t.data| { return false, limit; }
      limit := Add64(offset, next);
    } else if next != 0 {
      return false, limit;
    }
    if count == 0 || aux < hs || count > |t.data| / AuxSize(t.kind) { return false, limit; }
    if t.kind == Need {
      var okName := CheckString(t.strings, Read(t, offset + 4, 4));
      return okName, limit;
    }
    return true, limit;
  }

  // One entry: its header, then its auxiliaries.
  method CheckEntry(t: Table, i: nat, offset: nat) returns (ok: bool)
    requires |t.data| < 0x8000_0000_0000_0000 && i < t.info && offset == HeaderAt(t, i) <= |t.data|
    ensures ok <==> EntryOk(t, i)
  {
    hide HeaderOk, AuxOk, Limit;
    var good, limit := CheckHeader(t, i, offset);
    if !good { return false; }
    ok := CheckAuxiliaries(t, i, limit);
  }

  method CheckTable(t: Table) returns (ok: bool)
    requires |t.data| < 0x8000_0000_0000_0000
    ensures ok <==> TableOk(t)
  {
    hide EntryOk;
    if t.info == 0 || t.info > |t.data| / HeaderSize(t.kind) { return false; }
    var offset := 0;
    for i := 0 to t.info
      invariant forall m | 0 <= m < i :: EntryOk(t, m)
      invariant i < t.info ==> offset == HeaderAt(t, i) <= |t.data|
    {
      ok := CheckEntry(t, i, offset);
      if !ok { return false; }
      EntryNext(t, i);
      FieldBounds(t, offset + NextOffset(t.kind));
      offset := Add64(offset, Read(t, offset + NextOffset(t.kind), 4));
    }
    return true;
  }

  lemma EntryNext(t: Table, i: nat)
    requires EntryOk(t, i)
    ensures HeaderAt(t, i) + HeaderSize(t.kind) <= |t.data|
    ensures i + 1 < t.info ==> HeaderAt(t, i + 1) == HeaderAt(t, i) + Next(t, HeaderAt(t, i)) <= |t.data|
  {
    hide ValidString, Field;
  }

  // The whole validation: no section and no dynamic metadata, or exactly one of
  // each that agree, and a table that checks.
  method ValidateElfVersionTable(kind: Kind, big: bool, pointers: seq<nat>, counts: seq<nat>, section: Option<Section>)
    returns (ok: bool)
    requires section.Some? ==> |section.value.data| < 0x8000_0000_0000_0000
    ensures ok <==> match section
      case None => pointers == [] && counts == []
      case Some(s) =>
        && pointers == [s.address] && counts == [s.info] && s.strings.Some?
        && TableOk(Table(kind, big, s.data, s.info, s.strings.value))
  {
    if section.None? { return |pointers| + |counts| == 0; }
    var s := section.value;
    if |pointers| != 1 || |counts| != 1 || counts[0] != s.info || pointers[0] != s.address { return false; }
    if s.strings.None? { return false; }
    ok := CheckTable(Table(kind, big, s.data, s.info, s.strings.value));
  }

  /** What acceptance guarantees. */

  // A stretch of the section.
  datatype Range = Range(start: int, end: int)

  predicate Apart(a: Range, b: Range) { a.end <= b.start || b.end <= a.start }

  // The j-th thing of entry i: its header, then its auxiliaries.
  function Piece(t: Table, i: nat, j: nat): Range
  {
    var h := HeaderAt(t, i);
    if j == 0 then Range(h, h + HeaderSize(t.kind))
    else Range(AuxAt(t, h, j - 1), AuxAt(t, h, j - 1) + AuxSize(t.kind))
  }

  // Auxiliaries follow one another, after their header and before the limit.
  lemma {:induction false} AuxChain(t: Table, i: nat, j: nat, m: nat)
    requires EntryOk(t, i) && j < m <= Count(t, HeaderAt(t, i))
    ensures Piece(t, i, j).end <= Piece(t, i, m).start
    decreases m
  {
    hide ValidString, Field;
    var h := HeaderAt(t, i);
    if m > 1 {
      assert AuxOk(t, i, m - 2);
      if j < m - 1 { AuxChain(t, i, j, m - 1); }
    }
  }

  lemma PieceInside(t: Table, i: nat, j: nat)
    requires EntryOk(t, i) && j <= Count(t, HeaderAt(t, i)) && i < t.info
    ensures HeaderAt(t, i) <= Piece(t, i, j).start <= Piece(t, i, j).end <= Limit(t, i) <= |t.data|
  {
    hide ValidString, Field;
    if j > 0 {
      assert AuxOk(t, i, j - 1);
      AuxChain(t, i, 0, j);
    }
  }

  lemma {:induction false} HeadersAscend(t: Table, i: nat, m: nat)
    requires TableOk(t) && i < m < t.info
    ensures Limit(t, i) <= HeaderAt(t, m)
    decreases m
  {
    hide ValidString, Field;
    if i < m - 1 {
      HeadersAscend(t, i, m - 1);
      assert EntryOk(t, m - 1);
    }
  }

  // Every header and auxiliary that is visited lies inside the section, and no two
  // of them overlap.
  lemma PiecesAreDisjoint(t: Table, i: nat, j: nat, k: nat, m: nat)
    requires TableOk(t) && i < t.info && k < t.info && (i, j) != (k, m)
    requires j <= Count(t, HeaderAt(t, i)) && m <= Count(t, HeaderAt(t, k))
    ensures 0 <= Piece(t, i, j).start < Piece(t, i, j).end <= |t.data|
    ensures Apart(Piece(t, i, j), Piece(t, k, m))
  {
    hide EntryOk, Limit;
    assert EntryOk(t, i) && EntryOk(t, k);
    PieceInside(t, i, j);
    PieceInside(t, k, m);
    if i == k {
      if j < m { AuxChain(t, i, j, m); } else { AuxChain(t, i, m, j); }
    } else if i < k {
      HeadersAscend(t, i, k);
    } else {
      HeadersAscend(t, k, i);
    }
  }

  // The bytes of everything visited in the first n entries.
  function Visited(t: Table, n: nat): nat
  {
    if n == 0 then 0
    else Visited(t, n - 1) + HeaderSize(t.kind) + Count(t, HeaderAt(t, n - 1)) * AuxSize(t.kind)
  }

  lemma {:induction false} AuxBytes(t: Table, i: nat, j: nat)
    requires EntryOk(t, i) && 0 < j <= Count(t, HeaderAt(t, i))
    ensures Piece(t, i, j).end >= HeaderAt(t, i) + HeaderSize(t.kind) + j * AuxSize(t.kind)
  {
    hide ValidString, Field;
    AuxChain(t, i, j - 1, j);
    if j > 1 { AuxBytes(t, i, j - 1); }
  }

  // So the work is linear in the section: what is visited adds up to no more than
  // its size.
  lemma {:induction false} WorkIsLinear(t: Table, n: nat)
    requires TableOk(t) && 0 < n <= t.info
    ensures Visited(t, n) <= Limit(t, n - 1) <= |t.data|
  {
    hide EntryOk;
    var h := HeaderAt(t, n - 1);
    assert EntryOk(t, n - 1);
    HeaderCounts(t, n - 1);
    AuxBytes(t, n - 1, Count(t, h));
    PieceInside(t, n - 1, Count(t, h));
    if n > 1 { WorkIsLinear(t, n - 1); }
  }

  lemma HeaderCounts(t: Table, i: nat)
    requires EntryOk(t, i)
    ensures Count(t, HeaderAt(t, i)) > 0
  {
    hide ValidString, Field;
  }

  /** The records as the standard lays them out. */

  function Half(n: nat, big: bool): seq<Byte>
    requires n < 0x1_0000
  {
    if big then [n / 256, n % 256] else [n % 256, n / 256]
  }

  // The most significant half comes first or last.
  function Word(n: nat, big: bool): seq<Byte>
    requires n < 0x1_0000_0000
  {
    if big then Half(n / 0x1_0000, big) + Half(n % 0x1_0000, big)
    else Half(n % 0x1_0000, big) + Half(n / 0x1_0000, big)
  }

  lemma ValueOfHalf(n: nat, big: bool)
    requires n < 0x1_0000
    ensures Value(Half(n, big), big) == n
  {
    var s := Half(n, big);
    if big {
      assert s[..1][..0] == [] && Value(s[..1], big) == s[0];
    } else {
      assert s[1..][1..] == [] && Value(s[1..], big) == s[1];
    }
  }

  lemma ValueOfWord(n: nat, big: bool)
    requires n < 0x1_0000_0000
    ensures Value(Word(n, big), big) == n
  {
    var s := Word(n, big);
    ValueOfHalf(n / 0x1_0000, big);
    ValueOfHalf(n % 0x1_0000, big);
    if big {
      assert s[..3][..2] == Half(n / 0x1_0000, big) && s[..3][2] == s[2];
      assert Value(s, big) == Value(s[..3], big) * 256 + s[3];
    } else {
      assert s[1..][1..] == Half(n / 0x1_0000, big) && s[1..][0] == s[1];
      assert Value(s, big) == s[0] + 256 * Value(s[1..], big);
    }
  }

  // The record stands at the offset.
  predicate StandsAt(t: Table, off: nat, record: seq<Byte>)
  {
    off + |record| <= |t.data| && t.data[off..off + |record|] == record
  }

  lemma Slice(t: Table, off: nat, front: seq<Byte>, mid: seq<Byte>, back: seq<Byte>)
    requires StandsAt(t, off, front + mid + back)
    ensures off + |front| + |mid| <= |t.data| && t.data[off + |front|..off + |front| + |mid|] == mid
  {
    var r := front + mid + back;
    assert r[|front|..|front| + |mid|] == mid;
    assert t.data[off..off + |r|][|front|..|front| + |mid|] == t.data[off + |front|..off + |front| + |mid|];
  }

  lemma ReadsHalf(t: Table, off: nat, front: seq<Byte>, n: nat, back: seq<Byte>)
    requires n < 0x1_0000 && StandsAt(t, off, front + Half(n, t.big) + back)
    ensures Field(t, off + |front|, 2) == n
  {
    hide Value, StandsAt;
    ValueOfHalf(n, t.big);
    Slice(t, off, front, Half(n, t.big), back);
  }

  lemma ReadsWord(t: Table, off: nat, front: seq<Byte>, n: nat, back: seq<Byte>)
    requires n < 0x1_0000_0000 && StandsAt(t, off, front + Word(n, t.big) + back)
    ensures Field(t, off + |front|, 4) == n
  {
    hide Value, StandsAt;
    ValueOfWord(n, t.big);
    Slice(t, off, front, Word(n, t.big), back);
  }

  // A needed version, in either byte order: version, count, file, auxiliary, next.
  lemma NeedFields(t: Table, h: nat, version: nat, count: nat, file: nat, aux: nat, next: nat)
    requires t.kind == Need && version < 0x1_0000 && count < 0x1_0000
    requires file < 0x1_0000_0000 && aux < 0x1_0000_0000 && next < 0x1_0000_0000
    requires StandsAt(t, h, Half(version, t.big) + Half(count, t.big) + Word(file, t.big) + Word(aux, t.big)
                            + Word(next, t.big))
    ensures Field(t, h, 2) == version && Count(t, h) == count && Field(t, h + 4, 4) == file
    ensures FirstAux(t, h) == h + aux && Next(t, h) == next
  {
    hide Value, Half, Word;
    Lengths(version, count, file, aux, next, t.big);
    var v, c, f, a, n :=
      Half(version, t.big), Half(count, t.big), Word(file, t.big), Word(aux, t.big), Word(next, t.big);
    var r := v + c + f + a + n;
    assert r == [] + v + (c + f + a + n) == v + c + (f + a + n) == v + c + f + (a + n) == v + c + f + a + n + [];
    ReadsHalf(t, h, [], version, c + f + a + n);
    ReadsHalf(t, h, v, count, f + a + n);
    ReadsWord(t, h, v + c, file, a + n);
    ReadsWord(t, h, v + c + f, aux, n);
    ReadsWord(t, h, v + c + f + a, next, []);
  }

  lemma Lengths(a: nat, b: nat, c: nat, d: nat, e: nat, big: bool)
    requires a < 0x1_0000 && b < 0x1_0000 && c < 0x1_0000_0000 && d < 0x1_0000_0000 && e < 0x1_0000_0000
    ensures |Half(a, big)| == |Half(b, big)| == 2 && |Word(c, big)| == |Word(d, big)| == |Word(e, big)| == 4
  {
  }

  // Its auxiliary: hash, flags, other, name, next.
  lemma NeedAuxFields(t: Table, h: nat, hash: nat, flags: nat, other: nat, name: nat, next: nat)
    requires t.kind == Need && flags < 0x1_0000 && other < 0x1_0000
    requires hash < 0x1_0000_0000 && name < 0x1_0000_0000 && next < 0x1_0000_0000
    requires StandsAt(t, h, Word(hash, t.big) + Half(flags, t.big) + Half(other, t.big) + Word(name, t.big)
                            + Word(next, t.big))
    ensures Field(t, h + NameOffset(t.kind), 4) == name && AuxStep(t, h) == next
  {
    hide Value, Half, Word;
    Lengths(flags, other, hash, name, next, t.big);
    var x, f, o, m, n :=
      Word(hash, t.big), Half(flags, t.big), Half(other, t.big), Word(name, t.big), Word(next, t.big);
    assert x + f + o + m + n == x + f + o + m + (n) == x + f + o + m + n + [];
    ReadsWord(t, h, x + f + o, name, n);
    ReadsWord(t, h, x + f + o + m, next, []);
  }

  // A version definition: version, flags, index, count, hash, auxiliary, next.
  lemma DefFields(t: Table, h: nat, version: nat, flags: nat, index: nat, count: nat, hash: nat, aux: nat, next: nat)
    requires t.kind == Def && version < 0x1_0000 && flags < 0x1_0000 && index < 0x1_0000 && count < 0x1_0000
    requires hash < 0x1_0000_0000 && aux < 0x1_0000_0000 && next < 0x1_0000_0000
    requires StandsAt(t, h, Half(version, t.big) + Half(flags, t.big) + Half(index, t.big) + Half(count, t.big)
                            + Word(hash, t.big) + Word(aux, t.big) + Word(next, t.big))
    ensures Field(t, h, 2) == version && Count(t, h) == count && FirstAux(t, h) == h + aux && Next(t, h) == next
  {
    hide Value, Half, Word;
    Lengths(version, flags, hash, aux, next, t.big);
    Lengths(index, count, hash, aux, next, t.big);
    var v, front := Half(version, t.big), Half(version, t.big) + Half(flags, t.big) + Half(index, t.big);
    var c, x, a, n := Half(count, t.big), Word(hash, t.big), Word(aux, t.big), Word(next, t.big);
    var back := Half(flags, t.big) + Half(index, t.big) + c + x + a + n;
    assert front + c + x + a + n == [] + v + back == front + c + (x + a + n) == front + c + x + a + n + [];
    ReadsHalf(t, h, [], version, back);
    ReadsHalf(t, h, front, count, x + a + n);
    ReadsWord(t, h, front + c + x, aux, n);
    ReadsWord(t, h, front + c + x + a, next, []);
  }

  // Its auxiliary: name, next.
  lemma DefAuxFields(t: Table, h: nat, name: nat, next: nat)
    requires t.kind == Def && name < 0x1_0000_0000 && next < 0x1_0000_0000
    requires StandsAt(t, h, Word(name, t.big) + Word(next, t.big))
    ensures Field(t, h + NameOffset(t.kind), 4) == name && AuxStep(t, h) == next
  {
    hide Value, Half, Word;
    Lengths(0, 0, name, next, next, t.big);
    var m, n := Word(name, t.big), Word(next, t.big);
    assert m + n == [] + m + n == m + n + [];
    ReadsWord(t, h, [], name, n);
    ReadsWord(t, h, m, next, []);
  }
}
