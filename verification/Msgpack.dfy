/** The bytes of an audit event's payload (internal/audit/msgpack.go) against a
    decoder for the formats of the MessagePack specification it uses. */
module Msgpack {
  import opened Wrappers
  import opened Sorting
  import opened PayloadTree

  /** Emitters. */

  // The last k bytes of n, most significant first.
  function BigEndian(n: nat, k: nat): string
  {
    if k == 0 then "" else BigEndian(n / 256, k - 1) + [(n % 256) as char]
  }

  function MapHeader(n: nat): string
  {
    if n <= 15 then [(0x80 + n) as char]
    else if n <= 0xFFFF then [0xde as char] + BigEndian(n, 2)
    else [0xdf as char] + BigEndian(n, 4)
  }

  function StrForm(s: string): string
  {
    (if |s| <= 31 then [(0xa0 + |s|) as char]
     else if |s| <= 0xFF then [0xd9 as char] + BigEndian(|s|, 1)
     else if |s| <= 0xFFFF then [0xda as char] + BigEndian(|s|, 2)
     else [0xdb as char] + BigEndian(|s|, 4)) + s
  }

  function BinForm(s: string): string
  {
    (if |s| <= 0xFF then [0xc4 as char] + BigEndian(|s|, 1)
     else if |s| <= 0xFFFF then [0xc5 as char] + BigEndian(|s|, 2)
     else [0xc6 as char] + BigEndian(|s|, 4)) + s
  }

  function UintForm(n: Uint64): string
  {
    if n <= 0x7F then [n as char]
    else if n <= 0xFF then [0xcc as char] + BigEndian(n, 1)
    else if n <= 0xFFFF then [0xcd as char] + BigEndian(n, 2)
    else if n <= 0xFFFF_FFFF then [0xce as char] + BigEndian(n, 4)
    else [0xcf as char] + BigEndian(n, 8)
  }

  function BoolForm(b: bool): string { if b then [0xc3 as char] else [0xc2 as char] }

  function ValueForm(v: Value): Option<string>
  {
    match v
    case Text(s) => Some(StrForm(s))
    case Uint(n) => Some(UintForm(n))
    case Flag(b) => Some(BoolForm(b))
    case Bytes(s) => Some(BinForm(s))
    case Unsupported => None
  }

  // Every value has a form.
  predicate Supported(n: Node)
  {
    match n
    case Leaf(v) => v != Unsupported
    case Inner(children) => forall k | k in children :: Supported(children[k])
  }

  lemma {:induction false} Listed(keys: set<string>) returns (s: seq<string>)
    ensures Lists(s, keys)
  {
    if keys == {} {
      s := [];
    } else {
      var k :| k in keys;
      var rest := Listed(keys - {k});
      InsertLists(rest, k, keys - {k});
      s := Sorting.Insert(rest, k);
      assert keys - {k} + {k} == keys;
    }
  }

  ghost function SortedNames(keys: set<string>): (s: seq<string>)
    ensures Lists(s, keys) && forall k :: k in s <==> k in keys
  {
    assert exists s :: Lists(s, keys) by { var s := Listed(keys); }
    var s :| Lists(s, keys);
    assert forall k :: k in s <==> k in Elements(s);
    s
  }

  ghost function Encode(n: Node): string
    requires Supported(n)
    decreases n, 1, 0
  {
    match n
    case Leaf(v) => ValueForm(v).value
    case Inner(children) => MapHeader(|children|) + EncodeEntries(n, SortedNames(children.Keys))
  }

  ghost function EncodeEntries(n: Node, names: seq<string>): string
    requires Supported(n) && n.Inner? && forall k | k in names :: k in n.children
    decreases n, 0, |names|
  {
    if names == [] then ""
    else StrForm(names[0]) + Encode(n.children[names[0]]) + EncodeEntries(n, names[1..])
  }

  lemma EntriesStep(n: Node, names: seq<string>, i: nat)
    requires Supported(n) && n.Inner? && i < |names| && forall k | k in names :: k in n.children
    ensures forall k | k in names[i..] || k in names[i + 1..] :: k in n.children
    ensures EncodeEntries(n, names[i..]) ==
            StrForm(names[i]) + Encode(n.children[names[i]]) + EncodeEntries(n, names[i + 1..])
  {
    hide StrForm, Encode;
    assert names[i..][1..] == names[i + 1..] && names[i..][0] == names[i];
  }

  lemma NoEntries(n: Node, names: seq<string>)
    requires Supported(n) && n.Inner? && names == []
    ensures EncodeEntries(n, names) == ""
  {
  }

  lemma EncodeInner(n: Node)
    requires n.Inner? && Supported(n)
    ensures Encode(n) == MapHeader(|n.children|) + EncodeEntries(n, SortedNames(n.children.Keys))
  {
  }

  lemma SupportedInner(n: Node)
    requires n.Inner?
    ensures Supported(n) <==> forall k | k in n.children :: Supported(n.children[k])
  {
  }

  method AppendChild(b: string, n: Node) returns (r: Option<string>)
    ensures r.Some? <==> Supported(n)
    ensures r.Some? ==> r.value == b + Encode(n)
    decreases n, 1
  {
    if n.Inner? {
      r := AppendNode(b, n);
    } else {
      var form := ValueForm(n.value);
      r := if form.None? then None else Some(b + form.value);
    }
  }

  // appendNode: keys sorted, children in turn.
  method AppendNode(b: string, n: Node) returns (r: Option<string>)
    requires n.Inner?
    ensures r.Some? <==> Supported(n)
    ensures r.Some? ==> r.value == b + Encode(n)
    decreases n, 0
  {
    hide StrForm, MapHeader, Less, Encode, EncodeEntries, Supported;
    var names := SortedKeys(n.children.Keys);
    ListingUnique(names, SortedNames(n.children.Keys), n.children.Keys);
    SupportedInner(n);
    if Supported(n) { EncodeInner(n); }
    var out := b + MapHeader(|n.children|);
    for i := 0 to |names|
      invariant forall j | 0 <= j < i :: Supported(n.children[names[j]])
      invariant Supported(n) ==> out + EncodeEntries(n, names[i..]) == b + Encode(n)
    {
      ghost var was := out;
      var k := names[i];
      var child := AppendChild(out + StrForm(k), n.children[k]);
      if child.None? { return None; }
      out := child.value;
      if Supported(n) {
        EntriesStep(n, names, i);
        assert was + EncodeEntries(n, names[i..]) == out + EncodeEntries(n, names[i + 1..]);
      }
    }
    forall k | k in n.children
      ensures Supported(n.children[k])
    {
      assert k in Elements(names);
    }
    NoEntries(n, names[|names|..]);
    assert out + "" == out;
    return Some(out);
  }

  method EncodePayload(fields: map<string, Value>) returns (r: Option<string>)
    ensures r.Some? <==>
            NoEmptySegment(fields) && NoDottedPrefix(fields) && forall p | p in fields :: fields[p] != Unsupported
    ensures forall n | TreeOf(n, fields) && r.Some? :: Supported(n) && r.value == Encode(n)
  {
    var tree := BuildTree(fields);
    if tree.None? { return None; }
    r := AppendNode("", tree.value);
    SupportedFields(tree.value, fields);
    forall n | TreeOf(n, fields)
      ensures n == tree.value
    {
      SameTree(n, tree.value, fields);
    }
    assert Supported(tree.value) ==> "" + Encode(tree.value) == Encode(tree.value);
  }

  lemma SameTree(a: Node, b: Node, fields: map<string, Value>)
    requires TreeOf(a, fields) && TreeOf(b, fields)
    ensures a == b
  {
    hide Has, Split;
    TreeIsUnique(a, b);
  }

  lemma SupportedFields(n: Node, fields: map<string, Value>)
    requires TreeOf(n, fields)
    ensures Supported(n) <==> forall p | p in fields :: fields[p] != Unsupported
  {
    hide Has, Split, Supported;
    if Supported(n) {
      forall p | p in fields
        ensures fields[p] != Unsupported
      {
        assert Has(n, Split(p), fields[p]);
        SupportedAll(n, Split(p), fields[p]);
      }
    } else {
      var q := FindUnsupported(n);
    }
  }

  lemma {:induction false} SupportedAll(n: Node, q: Path, w: Value)
    requires Supported(n) && Has(n, q, w)
    ensures w != Unsupported
    decreases n
  {
    if n.Inner? { SupportedAll(n.children[q[0]], q[1..], w); }
  }

  lemma {:induction false} FindUnsupported(n: Node) returns (q: Path)
    requires !Supported(n)
    ensures Has(n, q, Unsupported)
    decreases n
  {
    if n.Leaf? {
      q := [];
    } else {
      var k :| k in n.children && !Supported(n.children[k]);
      var rest := FindUnsupported(n.children[k]);
      q := [k] + rest;
      HasChild(n, k, rest, Unsupported);
    }
  }

  /** A decoder, from the formats section of the specification. */

  datatype Item = Str(s: string) | Binary(s: string) | Num(n: int) | Bool(b: bool) | Map(entries: seq<Entry>)

  datatype Entry = Entry(key: string, item: Item)

  function FromBigEndian(s: string): int
  {
    if s == "" then 0 else FromBigEndian(s[..|s| - 1]) * 256 + s[|s| - 1] as int
  }

  // A k-byte length or number, and what follows it.
  function TakeNumber(b: string, k: nat): (r: Option<(int, string)>)
    ensures r.Some? ==> |r.value.1| <= |b|
  {
    if |b| < k then None else Some((FromBigEndian(b[..k]), b[k..]))
  }

  function TakeText(b: string, n: int): (r: Option<(string, string)>)
    ensures r.Some? ==> |r.value.1| <= |b|
  {
    if n < 0 || |b| < n then None else Some((b[..n], b[n..]))
  }

  function TakeSized(b: string, k: nat): (r: Option<(string, string)>)
    ensures r.Some? ==> |r.value.1| <= |b|
  {
    var size := TakeNumber(b, k);
    if size.None? then None else TakeText(size.value.1, size.value.0)
  }

  function DecodeScalar(t: int, b: string): (r: Option<(Item, string)>)
    ensures r.Some? ==> |r.value.1| <= |b|
  {
    if 0 <= t <= 0x7f then Some((Num(t), b))
    else if 0xa0 <= t <= 0xbf then AsStr(TakeText(b, t - 0xa0))
    else if t == 0xd9 then AsStr(TakeSized(b, 1))
    else if t == 0xda then AsStr(TakeSized(b, 2))
    else if t == 0xdb then AsStr(TakeSized(b, 4))
    else if t == 0xc2 then Some((Bool(false), b))
    else if t == 0xc3 then Some((Bool(true), b))
    else if t == 0xc4 then AsBinary(TakeSized(b, 1))
    else if t == 0xc5 then AsBinary(TakeSized(b, 2))
    else if t == 0xc6 then AsBinary(TakeSized(b, 4))
    else if t == 0xcc then AsNum(TakeNumber(b, 1))
    else if t == 0xcd then AsNum(TakeNumber(b, 2))
    else if t == 0xce then AsNum(TakeNumber(b, 4))
    else if t == 0xcf then AsNum(TakeNumber(b, 8))
    else None
  }

  function AsStr(r: Option<(string, string)>): Option<(Item, string)>
  {
    if r.None? then None else Some((Str(r.value.0), r.value.1))
  }

  function AsBinary(r: Option<(string, string)>): Option<(Item, string)>
  {
    if r.None? then None else Some((Binary(r.value.0), r.value.1))
  }

  function AsNum(r: Option<(int, string)>): Option<(Item, string)>
  {
    if r.None? then None else Some((Num(r.value.0), r.value.1))
  }

  // The number of pairs of a map, for a first byte that announces one.
  function TakeMapSize(t: int, b: string): (r: Option<(int, string)>)
    ensures r.Some? ==> |r.value.1| <= |b|
  {
    if 0x80 <= t <= 0x8f then Some((t - 0x80, b))
    else if t == 0xde then TakeNumber(b, 2)
    else if t == 0xdf then TakeNumber(b, 4)
    else None
  }

  function Decode(b: string): (r: Option<(Item, string)>)
    ensures r.Some? ==> |r.value.1| < |b|
    decreases |b|, 0
  {
    if b == "" then None
    else
      var size := TakeMapSize(b[0] as int, b[1..]);
      if size.None? then DecodeScalar(b[0] as int, b[1..])
      else if size.value.0 < 0 then None
      else match DecodeEntries(size.value.1, size.value.0)
        case None => None
        case Some(p) => Some((Map(p.0), p.1))
  }

  function DecodeEntries(b: string, n: nat): (r: Option<(seq<Entry>, string)>)
    ensures r.Some? ==> |r.value.1| <= |b|
    decreases |b|, n + 1
  {
    if n == 0 then Some(([], b))
    else
      var key := Decode(b);
      if key.None? || !key.value.0.Str? then None
      else
        var item := Decode(key.value.1);
        if item.None? then None
        else match DecodeEntries(item.value.1, n - 1)
          case None => None
          case Some(p) => Some(([Entry(key.value.0.s, item.value.0)] + p.0, p.1))
  }

  /** Round trip. */

  const TWO32 := 0x1_0000_0000

  predicate FitsValue(v: Value)
  {
    match v
    case Text(s) => |s| < TWO32
    case Bytes(s) => |s| < TWO32
    case _ => true
  }

  // Every length fits its four bytes.
  predicate Fits(n: Node)
  {
    match n
    case Leaf(v) => FitsValue(v)
    case Inner(children) => |children| < TWO32 && forall k | k in children :: |k| < TWO32 && Fits(children[k])
  }

  function Power(k: nat): nat { if k == 0 then 1 else 256 * Power(k - 1) }

  lemma Powers()
    ensures Power(1) == 0x100 && Power(2) == 0x1_0000 && Power(4) == TWO32
    ensures Power(8) == 0x1_0000_0000_0000_0000
  {
    assert Power(3) == 0x100_0000;
    assert Power(5) == 0x100_0000_0000;
    assert Power(6) == 0x1_0000_0000_0000;
    assert Power(7) == 0x100_0000_0000_0000;
  }

  lemma {:induction false} BigEndianRound(n: nat, k: nat)
    requires n < Power(k)
    ensures |BigEndian(n, k)| == k && FromBigEndian(BigEndian(n, k)) == n
  {
    if k > 0 {
      BigEndianRound(n / 256, k - 1);
      var s := BigEndian(n, k);
      assert s[..|s| - 1] == BigEndian(n / 256, k - 1);
    }
  }

  lemma TakeBigEndian(n: nat, k: nat, rest: string)
    requires n < Power(k)
    ensures TakeNumber(BigEndian(n, k) + rest, k) == Some((n, rest))
  {
    BigEndianRound(n, k);
    var b := BigEndian(n, k) + rest;
    assert b[..k] == BigEndian(n, k) && b[k..] == rest;
  }

  lemma TakeForm(s: string, k: nat, rest: string)
    requires |s| < Power(k)
    ensures TakeSized(BigEndian(|s|, k) + s + rest, k) == Some((s, rest))
  {
    assert BigEndian(|s|, k) + s + rest == BigEndian(|s|, k) + (s + rest);
    TakeBigEndian(|s|, k, s + rest);
    assert (s + rest)[..|s|] == s && (s + rest)[|s|..] == rest;
  }

  lemma StrRound(s: string, rest: string)
    requires |s| < TWO32
    ensures Decode(StrForm(s) + rest) == Some((Str(s), rest))
  {
    hide BigEndian, FromBigEndian, Power;
    Powers();
    var b := StrForm(s) + rest;
    if |s| <= 31 {
      assert b[1..] == s + rest && (s + rest)[..|s|] == s && (s + rest)[|s|..] == rest;
    } else {
      var k := if |s| <= 0xFF then 1 else if |s| <= 0xFFFF then 2 else 4;
      assert b[1..] == BigEndian(|s|, k) + s + rest;
      TakeForm(s, k, rest);
    }
  }

  lemma BinRound(s: string, rest: string)
    requires |s| < TWO32
    ensures Decode(BinForm(s) + rest) == Some((Binary(s), rest))
  {
    hide BigEndian, FromBigEndian, Power;
    Powers();
    var b := BinForm(s) + rest;
    var k := if |s| <= 0xFF then 1 else if |s| <= 0xFFFF then 2 else 4;
    assert b[1..] == BigEndian(|s|, k) + s + rest;
    TakeForm(s, k, rest);
  }

  lemma UintRound(n: Uint64, rest: string)
    ensures Decode(UintForm(n) + rest) == Some((Num(n), rest))
  {
    hide BigEndian, FromBigEndian, Power;
    Powers();
    var b := UintForm(n) + rest;
    if n <= 0x7F {
      assert b[1..] == rest;
    } else {
      var k := if n <= 0xFF then 1 else if n <= 0xFFFF then 2 else if n <= 0xFFFF_FFFF then 4 else 8;
      assert b[1..] == BigEndian(n, k) + rest;
      TakeBigEndian(n, k, rest);
    }
  }

  function ItemOfValue(v: Value): Item
    requires v != Unsupported
  {
    match v
    case Text(s) => Str(s)
    case Uint(n) => Num(n)
    case Flag(b) => Bool(b)
    case Bytes(s) => Binary(s)
  }

  lemma ValueRound(v: Value, rest: string)
    requires v != Unsupported && FitsValue(v)
    ensures Decode(ValueForm(v).value + rest) == Some((ItemOfValue(v), rest))
  {
    hide Decode, StrForm, BinForm, UintForm;
    match v
    case Text(s) => StrRound(s, rest);
    case Uint(n) => UintRound(n, rest);
    case Flag(b) => BoolRound(b, rest);
    case Bytes(s) => BinRound(s, rest);
  }

  lemma BoolRound(b: bool, rest: string)
    ensures Decode(BoolForm(b) + rest) == Some((Bool(b), rest))
  {
    assert (BoolForm(b) + rest)[1..] == rest;
  }

  // The item a tree stands for: its entries in the order of their keys.
  ghost function ItemOf(n: Node): Item
    requires Supported(n)
    decreases n, 1, 0
  {
    match n
    case Leaf(v) => ItemOfValue(v)
    case Inner(children) => Map(EntriesOf(n, SortedNames(children.Keys)))
  }

  ghost function EntriesOf(n: Node, names: seq<string>): seq<Entry>
    requires Supported(n) && n.Inner? && forall k | k in names :: k in n.children
    decreases n, 0, |names|
  {
    if names == [] then [] else [Entry(names[0], ItemOf(n.children[names[0]]))] + EntriesOf(n, names[1..])
  }

  lemma HeaderRound(n: nat, rest: string)
    requires n < TWO32
    ensures Decode(MapHeader(n) + rest) ==
            match DecodeEntries(rest, n) case None => None case Some(p) => Some((Map(p.0), p.1))
  {
    hide BigEndian, FromBigEndian, Power, DecodeEntries;
    Powers();
    var b := MapHeader(n) + rest;
    if n <= 15 {
      assert b[1..] == rest;
    } else {
      var k := if n <= 0xFFFF then 2 else 4;
      assert b[1..] == BigEndian(n, k) + rest;
      TakeBigEndian(n, k, rest);
    }
  }

  // What is encoded decodes to the same maps and values, and nothing is left over.
  lemma {:induction false} DecodeEncodes(n: Node, rest: string)
    requires Supported(n) && Fits(n)
    ensures Decode(Encode(n) + rest) == Some((ItemOf(n), rest))
    decreases n, 1, 0
  {
    hide Decode, DecodeEntries, MapHeader, Less, ValueForm, EncodeEntries, EntriesOf;
    match n
    case Leaf(v) =>
      ValueRound(v, rest);
    case Inner(children) =>
      var names := SortedNames(children.Keys);
      ListingSize(names, children.Keys);
      HeaderRound(|children|, EncodeEntries(n, names) + rest);
      assert Encode(n) + rest == MapHeader(|children|) + (EncodeEntries(n, names) + rest);
      DecodeEncodesEntries(n, names, rest);
  }

  lemma {:induction false} DecodeEncodesEntries(n: Node, names: seq<string>, rest: string)
    requires Supported(n) && Fits(n) && n.Inner? && forall k | k in names :: k in n.children
    ensures DecodeEntries(EncodeEntries(n, names) + rest, |names|) == Some((EntriesOf(n, names), rest))
    decreases n, 0, |names|
  {
    hide Decode, StrForm, Encode, ItemOf;
    if names == [] {
      assert EncodeEntries(n, names) + rest == rest;
    } else {
      var k, more := names[0], EncodeEntries(n, names[1..]) + rest;
      var child := n.children[k];
      assert EncodeEntries(n, names) + rest == StrForm(k) + (Encode(child) + more);
      StrRound(k, Encode(child) + more);
      DecodeEncodes(child, more);
      DecodeEncodesEntries(n, names[1..], rest);
    }
  }

  /** Equal bytes, equal fields. */

  lemma {:induction false} ItemInjective(a: Node, b: Node)
    requires Supported(a) && Supported(b) && ItemOf(a) == ItemOf(b)
    ensures a == b
    decreases a, 1, 0
  {
    if a.Inner? && b.Inner? {
      var s, t := SortedNames(a.children.Keys), SortedNames(b.children.Keys);
      EntriesInjective(a, s, b, t);
      assert a.children.Keys == b.children.Keys;
    }
  }

  lemma {:induction false} EntriesInjective(a: Node, s: seq<string>, b: Node, t: seq<string>)
    requires Supported(a) && Supported(b) && a.Inner? && b.Inner?
    requires (forall k | k in s :: k in a.children) && (forall k | k in t :: k in b.children)
    requires EntriesOf(a, s) == EntriesOf(b, t)
    ensures s == t && forall k | k in s :: a.children[k] == b.children[k]
    decreases a, 0, |s|
  {
    if s != [] && t != [] {
      var x, y := EntriesOf(a, s), EntriesOf(b, t);
      assert x[0] == y[0] && x[1..] == y[1..];
      assert x[1..] == EntriesOf(a, s[1..]) && y[1..] == EntriesOf(b, t[1..]);
      ItemInjective(a.children[s[0]], b.children[t[0]]);
      EntriesInjective(a, s[1..], b, t[1..]);
      assert s == [s[0]] + s[1..] && t == [t[0]] + t[1..];
    }
  }

  // Two payloads with the same bytes carry the same fields.
  lemma EqualBytesEqualFields(f: map<string, Value>, m: Node, g: map<string, Value>, n: Node)
    requires TreeOf(m, f) && TreeOf(n, g) && Supported(m) && Supported(n) && Fits(m) && Fits(n)
    requires Encode(m) == Encode(n)
    ensures f == g
  {
    hide Has, Split, Encode, ItemOf, Supported, Fits, Decode;
    DecodeEncodes(m, "");
    DecodeEncodes(n, "");
    ItemInjective(m, n);
    SameFields(m, f, g);
    SameFields(m, g, f);
    assert f.Keys == g.Keys;
  }

  lemma SameFields(n: Node, f: map<string, Value>, g: map<string, Value>)
    requires TreeOf(n, f) && TreeOf(n, g)
    ensures forall p | p in f :: p in g && f[p] == g[p]
  {
    hide Has, Split;
    forall p | p in f
      ensures p in g && f[p] == g[p]
    {
      assert Has(n, Split(p), f[p]);
      var q :| q in g && Split(q) == Split(p) && g[q] == f[p];
      SplitInjective(p, q);
    }
  }

  // From 2^32 on a length wraps: two different texts can share a header.
  lemma {:induction false} LengthsWrap(n: nat, k: nat)
    ensures BigEndian(n + Power(k), k) == BigEndian(n, k)
  {
    if k > 0 {
      assert (n + Power(k)) / 256 == n / 256 + Power(k - 1) && (n + Power(k)) % 256 == n % 256;
      LengthsWrap(n / 256, k - 1);
    }
  }

  /** No shorter bytes decode to the same. */

  predicate Bytes(b: string) { forall i | 0 <= i < |b| :: b[i] as int < 256 }

  lemma {:induction false} NumberBound(b: string)
    requires Bytes(b)
    ensures FromBigEndian(b) < Power(|b|)
  {
    if b != "" { NumberBound(b[..|b| - 1]); }
  }

  lemma {:induction false} WidthOf(n: nat, k: nat)
    ensures |BigEndian(n, k)| == k
  {
    if k > 0 { WidthOf(n / 256, k - 1); }
  }

  lemma Widths(n: nat)
    ensures |BigEndian(n, 1)| == 1 && |BigEndian(n, 2)| == 2 && |BigEndian(n, 4)| == 4 && |BigEndian(n, 8)| == 8
  {
    hide BigEndian;
    WidthOf(n, 1);
    WidthOf(n, 2);
    WidthOf(n, 4);
    WidthOf(n, 8);
  }

  lemma TakenNumber(b: string, k: nat)
    requires Bytes(b)
    ensures var r := TakeNumber(b, k);
      r.Some? ==> r.value.0 < Power(k) && |b| == k + |r.value.1| && Bytes(r.value.1)
  {
    if |b| >= k { NumberBound(b[..k]); }
  }

  lemma TakenSized(b: string, k: nat)
    requires Bytes(b)
    ensures var r := TakeSized(b, k);
      r.Some? ==> |r.value.0| < Power(k) && |b| == k + |r.value.0| + |r.value.1| && Bytes(r.value.1)
  {
    hide FromBigEndian, Power;
    TakenNumber(b, k);
  }

  lemma Taken(b: string)
    requires Bytes(b)
    ensures forall k | k in {1, 2, 4, 8} ::
              && (TakeSized(b, k).Some? ==>
                    && |TakeSized(b, k).value.0| < Power(k) && Bytes(TakeSized(b, k).value.1)
                    && |b| == k + |TakeSized(b, k).value.0| + |TakeSized(b, k).value.1|)
              && (TakeNumber(b, k).Some? ==>
                    && TakeNumber(b, k).value.0 < Power(k) && Bytes(TakeNumber(b, k).value.1)
                    && |b| == k + |TakeNumber(b, k).value.1|)
  {
    hide TakeSized, TakeNumber, Power;
    forall k | k in {1, 2, 4, 8}
      ensures TakeSized(b, k).Some? ==>
                && |TakeSized(b, k).value.0| < Power(k) && Bytes(TakeSized(b, k).value.1)
                && |b| == k + |TakeSized(b, k).value.0| + |TakeSized(b, k).value.1|
      ensures TakeNumber(b, k).Some? ==>
                && TakeNumber(b, k).value.0 < Power(k) && Bytes(TakeNumber(b, k).value.1)
                && |b| == k + |TakeNumber(b, k).value.1|
    {
      TakenSized(b, k);
      TakenNumber(b, k);
    }
  }

  lemma TextTag(t: int, b: string, s: string, rest: string)
    requires Bytes(b) && DecodeScalar(t, b) == Some((Str(s), rest)) && |s| < TWO32
    ensures |StrForm(s)| + |rest| <= 1 + |b| && Bytes(rest)
  {
    hide BigEndian, TakeSized, TakeNumber, Power;
    Powers();
    Taken(b);
    Widths(|s|);
  }

  lemma BinaryTag(t: int, b: string, s: string, rest: string)
    requires Bytes(b) && DecodeScalar(t, b) == Some((Binary(s), rest)) && |s| < TWO32
    ensures |BinForm(s)| + |rest| <= 1 + |b| && Bytes(rest)
  {
    hide BigEndian, TakeSized, TakeNumber, Power;
    Powers();
    Taken(b);
    Widths(|s|);
  }

  lemma NumberTag(t: int, b: string, n: Uint64, rest: string)
    requires Bytes(b) && DecodeScalar(t, b) == Some((Num(n), rest))
    ensures |UintForm(n)| + |rest| <= 1 + |b| && Bytes(rest)
  {
    hide BigEndian, TakeSized, TakeNumber, Power;
    Powers();
    Taken(b);
    Widths(n);
  }

  lemma FlagTag(t: int, b: string, f: bool, rest: string)
    requires Bytes(b) && DecodeScalar(t, b) == Some((Bool(f), rest))
    ensures |BoolForm(f)| + |rest| <= 1 + |b| && Bytes(rest)
  {
    hide TakeSized, TakeNumber;
  }

  // A scalar that is read was at least as long as the one written for it.
  lemma ScalarShortest(v: Value, b: string, rest: string)
    requires FitsValue(v) && v != Unsupported && Bytes(b) && Decode(b) == Some((ItemOfValue(v), rest))
    ensures |ValueForm(v).value| + |rest| <= |b| && Bytes(rest)
  {
    hide DecodeEntries, StrForm, BinForm, UintForm, DecodeScalar;
    var t, tail := b[0] as int, b[1..];
    assert DecodeScalar(t, tail) == Some((ItemOfValue(v), rest));
    match v
    case Text(s) => TextTag(t, tail, s, rest);
    case Bytes(s) => BinaryTag(t, tail, s, rest);
    case Uint(n) => NumberTag(t, tail, n, rest);
    case Flag(f) => FlagTag(t, tail, f, rest);
  }

  lemma MapTag(b: string, entries: seq<Entry>, rest: string) returns (tail: string)
    requires Bytes(b) && Decode(b) == Some((Map(entries), rest)) && |entries| < TWO32
    ensures DecodeEntries(tail, |entries|) == Some((entries, rest)) && Bytes(tail)
    ensures |MapHeader(|entries|)| + |tail| <= |b|
  {
    hide BigEndian, TakeSized, TakeNumber, Power, DecodeEntries;
    Powers();
    Taken(b[1..]);
    var t := b[0] as int;
    assert TakeMapSize(t, b[1..]).Some? by { NoScalarMap(t, b[1..], entries, rest); }
    var size := TakeMapSize(t, b[1..]).value;
    tail := size.1;
    EntriesCount(tail, size.0);
    Widths(|entries|);
  }

  lemma NoScalarMap(t: int, b: string, entries: seq<Entry>, rest: string)
    ensures DecodeScalar(t, b) != Some((Map(entries), rest))
  {
    hide TakeSized, TakeNumber, TakeText;
  }

  lemma {:induction false} EntriesCount(b: string, n: nat)
    ensures DecodeEntries(b, n).Some? ==> |DecodeEntries(b, n).value.0| == n
    decreases n
  {
    hide Decode;
    if n > 0 && Decode(b).Some? && Decode(Decode(b).value.1).Some? {
      EntriesCount(Decode(Decode(b).value.1).value.1, n - 1);
    }
  }

  // Whatever bytes read as the payload are at least as long as the ones written.
  lemma {:induction false} EncodeIsShortest(n: Node, b: string, rest: string)
    requires Supported(n) && Fits(n) && Bytes(b) && Decode(b) == Some((ItemOf(n), rest))
    ensures |Encode(n)| + |rest| <= |b| && Bytes(rest)
    decreases n, 1, 0
  {
    hide Decode, DecodeEntries, MapHeader, Less, ValueForm, EncodeEntries, EntriesOf;
    match n
    case Leaf(v) =>
      ScalarShortest(v, b, rest);
    case Inner(children) =>
      var names := SortedNames(children.Keys);
      ListingSize(names, children.Keys);
      EntriesLength(n, names);
      var tail := MapTag(b, EntriesOf(n, names), rest);
      EntriesShortest(n, names, tail, rest);
  }

  lemma {:induction false} EntriesLength(n: Node, names: seq<string>)
    requires Supported(n) && n.Inner? && forall k | k in names :: k in n.children
    ensures |EntriesOf(n, names)| == |names|
  {
    hide ItemOf;
    if names != [] { EntriesLength(n, names[1..]); }
  }

  lemma {:induction false} EntriesShortest(n: Node, names: seq<string>, b: string, rest: string)
    requires Supported(n) && Fits(n) && n.Inner? && forall k | k in names :: k in n.children
    requires Bytes(b) && DecodeEntries(b, |names|) == Some((EntriesOf(n, names), rest))
    ensures |EncodeEntries(n, names)| + |rest| <= |b| && Bytes(rest)
    decreases n, 0, |names|
  {
    hide Decode, StrForm, Encode, ItemOf;
    if names != [] {
      var k := names[0];
      var key := Decode(b).value;
      var item := Decode(key.1).value;
      FirstEntry(n, names, b, rest);
      ScalarShortest(Text(k), b, key.1);
      EncodeIsShortest(n.children[k], key.1, item.1);
      EntriesShortest(n, names[1..], item.1, rest);
    }
  }

  lemma FirstEntry(n: Node, names: seq<string>, b: string, rest: string)
    requires Supported(n) && n.Inner? && names != [] && forall k | k in names :: k in n.children
    requires DecodeEntries(b, |names|) == Some((EntriesOf(n, names), rest))
    ensures Decode(b).Some? && Decode(b).value.0 == Str(names[0])
    ensures var key := Decode(b).value;
      && Decode(key.1).Some? && Decode(key.1).value.0 == ItemOf(n.children[names[0]])
      && DecodeEntries(Decode(key.1).value.1, |names| - 1) == Some((EntriesOf(n, names[1..]), rest))
  {
    hide Decode, ItemOf;
    var all := EntriesOf(n, names);
    assert all[0] == Entry(names[0], ItemOf(n.children[names[0]])) && all[1..] == EntriesOf(n, names[1..]);
    var p := DecodeEntries(Decode(Decode(b).value.1).value.1, |names| - 1).value;
    assert all == [Entry(Decode(b).value.0.s, Decode(Decode(b).value.1).value.0)] + p.0;
  }

  // The most significant byte comes first.
  lemma BigEndianBytes(n: nat)
    requires n < 0x1_0000
    ensures BigEndian(n, 2) == [(n / 0x100) as char, (n % 0x100) as char]
  {
    assert BigEndian(n / 0x100, 1) == [(n / 0x100) as char];
  }
}
