/** Sibling temporary names (internal/install/files.go). Strings are byte
    strings: one `char` stands for one byte. */
module TempNames {
  const STAGED_MARKER := ".peipkg-staged-"
  const BACKUP_MARKER := ".peipkg-backup-"
  const MAX_COMPONENT := 255

  // A journal row id: a positive 64-bit integer.
  type TxnId = n: nat | n < 0x8000_0000_0000_0000

  predicate IsDigit(c: char) { '0' <= c <= '9' }

  function Decimal(n: nat): (s: string)
    ensures s != "" && forall c | c in s :: IsDigit(c)
  {
    var digit := ['0' + (n % 10) as char];
    if n < 10 then digit else Decimal(n / 10) + digit
  }

  // The index of the first byte of the final path component.
  function BaseStart(path: string): (i: nat)
    ensures i <= |path|
    ensures i == 0 || path[i - 1] == '/'
    ensures forall k | i <= k < |path| :: path[k] != '/'
  {
    if path == "" then 0
    else if path[|path| - 1] == '/' then |path|
    else BaseStart(path[..|path| - 1])
  }

  function Dir(path: string): string { path[..BaseStart(path)] }

  function Base(path: string): string { path[BaseStart(path)..] }

  // A marker and an id take at most 34 bytes, so some of the base name always
  // survives.
  function Suffix(marker: string, id: TxnId): (s: string)
    ensures |marker| == 15 ==> 16 <= |s| <= 34
    ensures forall c | c in s :: c in marker || IsDigit(c)
  {
    assert Pow10(5) == 100_000;
    assert Pow10(10) == 10_000_000_000;
    assert Pow10(15) == 1_000_000_000_000_000;
    DecimalLength(id, 19);
    marker + Decimal(id)
  }

  // How many bytes of the base name survive in front of `suffix`.
  function Room(suffix: string): int { MAX_COMPONENT - |suffix| }

  // The part of a base name that survives in front of `suffix`.
  function Kept(base: string, suffix: string): string
    requires |suffix| <= MAX_COMPONENT
  {
    if |base| + |suffix| > MAX_COMPONENT then base[..Room(suffix)] else base
  }

  lemma {:induction false} DecimalLength(n: nat, width: nat)
    requires 1 <= width && n < Pow10(width)
    ensures |Decimal(n)| <= width
    decreases width
  {
    if n >= 10 {
      assert n / 10 < Pow10(width - 1);
      DecimalLength(n / 10, width - 1);
    }
  }

  function Pow10(width: nat): nat
  { if width == 0 then 1 else 10 * Pow10(width - 1)
  }

  // tempPath: a sibling of finalPath whose name carries a marker and the
  // transaction id, its base cut so that the component stays within 255 bytes.
  function TempPath(finalPath: string, marker: string, id: TxnId): string
    requires marker == STAGED_MARKER || marker == BACKUP_MARKER
  {
    Dir(finalPath) + (Kept(Base(finalPath), Suffix(marker, id)) + Suffix(marker, id))
  }

  // A temporary name is a sibling within the component limit.
  lemma TempPathIsSibling(finalPath: string, marker: string, id: TxnId)
    requires marker == STAGED_MARKER || marker == BACKUP_MARKER
    ensures Dir(TempPath(finalPath, marker, id)) == Dir(finalPath)
    ensures Base(TempPath(finalPath, marker, id)) == Kept(Base(finalPath), Suffix(marker, id)) + Suffix(marker, id)
    ensures |Base(TempPath(finalPath, marker, id))| <= MAX_COMPONENT
  {
    SplitSibling(Dir(finalPath), Kept(Base(finalPath), Suffix(marker, id)) + Suffix(marker, id));
  }

  // Splitting a directory joined to one component gives both back.
  lemma {:induction false} SplitSibling(dir: string, base: string)
    requires dir == "" || dir[|dir| - 1] == '/'
    requires forall c | c in base :: c != '/'
    ensures Dir(dir + base) == dir && Base(dir + base) == base
  {
    if base == "" {
      assert dir + base == dir;
    } else {
      var front := base[..|base| - 1];
      assert (dir + base)[..|dir + base| - 1] == dir + front;
      assert base[|base| - 1] in base;
      assert forall c | c in front :: c in base;
      SplitSibling(dir, front);
      assert BaseStart(dir + base) == |dir| by {
        assert |Dir(dir + front)| == |dir|;
      }
    }
  }

  // The exact collision condition of the truncating rule: two paths get the same
  // temporary name just when they are in one directory and agree in as many
  // leading bytes of the base name as fit in front of the suffix.
  lemma TempPathCollision(a: string, b: string, marker: string, id: TxnId)
    requires marker == STAGED_MARKER || marker == BACKUP_MARKER
    ensures TempPath(a, marker, id) == TempPath(b, marker, id) <==>
            Dir(a) == Dir(b) &&
            Prefix(Base(a), Room(Suffix(marker, id))) == Prefix(Base(b), Room(Suffix(marker, id)))
  {
    var suffix := Suffix(marker, id);
    TempPathIsSibling(a, marker, id);
    TempPathIsSibling(b, marker, id);
    assert Kept(Base(a), suffix) == Prefix(Base(a), Room(suffix));
    assert Kept(Base(b), suffix) == Prefix(Base(b), Room(suffix));
    if TempPath(a, marker, id) == TempPath(b, marker, id) {
      SuffixCancels(Kept(Base(a), suffix), Kept(Base(b), suffix), suffix);
    }
  }

  function Prefix(s: string, n: int): string
    requires 0 <= n
  {
    if |s| <= n then s else s[..n]
  }

  lemma SuffixCancels(x: string, y: string, suffix: string)
    requires x + suffix == y + suffix
    ensures x == y
  {
    assert |x| == |y|;
    assert x == (x + suffix)[..|x|] && y == (y + suffix)[..|y|];
  }

  // Long names do collide: two files of one directory that differ only
  // past the cut get one backup name.
  lemma LongNamesCollide()
    ensures exists a, b :: a != b && |Base(a)| == |Base(b)| == MAX_COMPONENT &&
              TempPath(a, BACKUP_MARKER, 7) == TempPath(b, BACKUP_MARKER, 7)
  {
    var stem := seq(254, i => 'x');
    var a, b := stem + "a", stem + "b";
    assert a[254] != b[254];
    SplitSibling("", a);
    SplitSibling("", b);
    assert "" + a == a && "" + b == b;
    var n := Room(Suffix(BACKUP_MARKER, 7));
    assert n < 254 by { assert |BACKUP_MARKER| == 15; }
    assert a[..n] == stem[..n] == b[..n];
    TempPathCollision(a, b, BACKUP_MARKER, 7);
  }

  // A staged name and a backup name of one transaction never meet, whatever
  // they are temporary names of.
  lemma StagedIsNotBackup(a: string, b: string, id: TxnId)
    ensures TempPath(a, STAGED_MARKER, id) != TempPath(b, BACKUP_MARKER, id)
  {
    var x, y := TempPath(a, STAGED_MARKER, id), TempPath(b, BACKUP_MARKER, id);
    var n := |Decimal(id)|;
    assert x == Dir(a) + Kept(Base(a), Suffix(STAGED_MARKER, id)) + Suffix(STAGED_MARKER, id);
    assert y == Dir(b) + Kept(Base(b), Suffix(BACKUP_MARKER, id)) + Suffix(BACKUP_MARKER, id);
    assert x[|x| - n - 2] == STAGED_MARKER[13] == 'd';
    assert y[|y| - n - 2] == BACKUP_MARKER[13] == 'p';
  }

  /** The id a temporary name carries. */

  // The path ends in a marker followed by the decimal form of `id`.
  predicate Carries(path: string, id: TxnId)
  {
    EndsWith(path, Suffix(STAGED_MARKER, id)) || EndsWith(path, Suffix(BACKUP_MARKER, id))
  }

  predicate EndsWith(s: string, t: string) { |t| <= |s| && s[|s| - |t|..] == t }

  lemma TempPathCarries(path: string, marker: string, id: TxnId)
    requires marker == STAGED_MARKER || marker == BACKUP_MARKER
    ensures Carries(TempPath(path, marker, id), id)
  {
    var t := TempPath(path, marker, id);
    assert t == Dir(path) + Kept(Base(path), Suffix(marker, id)) + Suffix(marker, id);
    assert t[|t| - |Suffix(marker, id)|..] == Suffix(marker, id);
  }

  lemma {:induction false} DecimalInjective(m: nat, n: nat)
    requires Decimal(m) == Decimal(n)
    ensures m == n
  {
    assert Decimal(m)[|Decimal(m)| - 1] == '0' + (m % 10) as char;
    assert Decimal(n)[|Decimal(n)| - 1] == '0' + (n % 10) as char;
    assert m % 10 == n % 10;
    assert m >= 10 ==> Decimal(m / 10) == Decimal(m)[..|Decimal(m)| - 1];
    assert n >= 10 ==> Decimal(n / 10) == Decimal(n)[..|Decimal(n)| - 1];
    if m >= 10 && n >= 10 {
      DecimalInjective(m / 10, n / 10);
    }
  }

  // How many digits the name ends in.
  function DigitRun(path: string): nat
  {
    if path == "" || !IsDigit(path[|path| - 1]) then 0 else 1 + DigitRun(path[..|path| - 1])
  }

  lemma {:induction false} DigitRunIs(stem: string, digits: string)
    requires forall c | c in digits :: IsDigit(c)
    ensures DigitRun(stem + "-" + digits) == |digits|
    decreases |digits|
  {
    var path := stem + "-" + digits;
    if digits == "" {
      assert path[|path| - 1] == '-';
    } else {
      var front := digits[..|digits| - 1];
      assert path[|path| - 1] == digits[|digits| - 1];
      assert digits[|digits| - 1] in digits;
      assert path[..|path| - 1] == stem + "-" + front;
      assert forall c | c in front :: c in digits;
      DigitRunIs(stem, front);
    }
  }

  // A name carries at most one transaction id, so leftovers of one
  // transaction never stand in another's way.
  lemma CarriesOneId(path: string, i: TxnId, j: TxnId)
    requires Carries(path, i) && Carries(path, j)
    ensures i == j
  {
    DigitTail(path, i);
    DigitTail(path, j);
    DecimalInjective(i, j);
  }

  // The digits of the id, behind the hyphen of the marker.
  lemma DigitTail(path: string, id: TxnId)
    requires Carries(path, id)
    ensures DigitRun(path) == |Decimal(id)| <= |path|
    ensures path[|path| - DigitRun(path)..] == Decimal(id)
  {
    hide EndsWith, DigitRun;
    assert STAGED_MARKER[14] == '-' && BACKUP_MARKER[14] == '-';
    if EndsWith(path, STAGED_MARKER + Decimal(id)) {
      DigitsBehind(path, STAGED_MARKER, Decimal(id));
    } else {
      DigitsBehind(path, BACKUP_MARKER, Decimal(id));
    }
  }

  lemma DigitsBehind(path: string, marker: string, digits: string)
    requires |marker| == 15 && marker[14] == '-' && EndsWith(path, marker + digits)
    requires forall c | c in digits :: IsDigit(c)
    ensures DigitRun(path) == |digits| <= |path|
    ensures path[|path| - DigitRun(path)..] == digits
  {
    hide DigitRun, IsDigit;
    var head, tail := path[..|path| - |marker + digits|], "-" + digits;
    MarkerSplits(marker, digits);
    assert path == head + (marker[..14] + tail);
    Associates(head, marker[..14], tail);
    SuffixRun(head + marker[..14], digits, path);
  }

  lemma MarkerSplits(marker: string, digits: string)
    requires |marker| == 15 && marker[14] == '-'
    ensures marker + digits == marker[..14] + ("-" + digits)
  {
  }

  lemma Associates(a: string, b: string, c: string)
    ensures a + (b + c) == (a + b) + c
  {
  }

  lemma SuffixRun(stem: string, digits: string, path: string)
    requires forall c | c in digits :: IsDigit(c)
    requires path == stem + ("-" + digits)
    ensures DigitRun(path) == |digits| <= |path|
    ensures path[|path| - |digits|..] == digits
  {
    assert path == stem + "-" + digits;
    DigitRunIs(stem, digits);
  }

  // A marker and an id take at least 16 bytes.
  lemma ShortNamesCarryNothing(p: string, id: TxnId)
    requires |p| < 16
    ensures !Carries(p, id)
  {
  }
}
