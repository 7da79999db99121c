/** Accepting a package archive (walk in internal/archive/archive.go, decodeFiles in
    files.go), on the tar entries and what their metadata decode to. */
module Archives {
  import opened Wrappers
  import opened Sorting

  datatype Kind = Regular | Directory | SymbolicLink | OtherKind

  // A tar entry: `pax` counts the bytes of its extended header, `digest` stands for
  // its content, `canonical` and `valid` for the checks of one header alone.
  datatype TarEntry = TarEntry(name: string, kind: Kind, size: nat, digest: string, pax: nat, mtime: int,
                               canonical: bool, valid: bool)

  datatype FileEntry = FileEntry(path: string, size: int, hash: string)

  // What the metadata entries decode to; None is content that does not decode. The
  // build time and the paths of the descriptor overrides come with the manifest.
  datatype Decoded = Decoded(sizeInstalled: Option<int>, built: int, overrides: seq<string>,
                             files: Option<seq<FileEntry>>, envelope: bool)

  datatype PayloadEntry = PayloadEntry(path: string, kind: Kind, size: nat, hash: string)

  datatype Package = Package(payload: seq<PayloadEntry>, signed: bool, signedLen: int)

  const MANIFEST := ".peipkg/manifest.json"
  const FILES := ".peipkg/files.json"
  const SIGNATURE := ".peipkg/signature"
  const METADATA_PREFIX := ".peipkg/"

  const TAR_BLOCK := 512
  const MAX_DECOMPRESSED := 0x1_0000_0000
  const MAX_MANIFEST := 0x100_0000
  const MAX_FILES := 0x400_0000
  const MAX_SIGNATURE := 0x1_0000
  const MAX_PAYLOAD_ENTRIES := 100_000
  const ALLOWANCE := 0x1400_0000
  const NO_DECLARED_SIZE := -1

  /** Signed 64-bit arithmetic. */

  const TWO63 := 0x8000_0000_0000_0000
  const TWO64 := 0x1_0000_0000_0000_0000

  type Int64 = n: int | -TWO63 <= n < TWO63

  function Wrap(n: int): Int64 { (n + TWO63) % TWO64 - TWO63 }

  function Min(a: int, b: int): int { if a < b then a else b }

  /** files.json. */

  predicate IsHash(s: string) { |s| == 64 && forall c | c in s :: '0' <= c <= '9' || 'a' <= c <= 'f' }

  // Sorted by path, each once.
  ghost predicate FilesOk(files: seq<FileEntry>)
  {
    && (forall i | 0 <= i < |files| :: files[i].size >= 0 && IsHash(files[i].hash))
    && forall i | 0 < i < |files| :: Less(files[i - 1].path, files[i].path)
  }

  type Index = map<string, FileEntry>

  ghost predicate IndexOf(files: seq<FileEntry>, byPath: Index)
  {
    && (forall f | f in files :: f.path in byPath && byPath[f.path] == f)
    && (forall p | p in byPath :: byPath[p] in files && byPath[p].path == p)
  }

  lemma FilesOkPrefix(files: seq<FileEntry>, i: nat)
    requires i < |files|
    ensures FilesOk(files[..i + 1]) <==>
              && FilesOk(files[..i]) && files[i].size >= 0 && IsHash(files[i].hash)
              && (i > 0 ==> Less(files[i - 1].path, files[i].path))
    ensures FilesOk(files) ==> FilesOk(files[..i + 1])
  {
    hide Less, IsHash;
    var a, b := files[..i], files[..i + 1];
    assert forall j | 0 <= j < i :: a[j] == b[j] == files[j];
    assert b[i] == files[i];
  }

  lemma PathIsNew(files: seq<FileEntry>, i: nat, byPath: Index)
    requires i < |files| && FilesOk(files[..i + 1]) && IndexOf(files[..i], byPath)
    ensures files[i].path !in byPath
  {
    hide Less, IsHash;
    var b := files[..i + 1];
    assert b[..i] == files[..i] && b[i] == files[i];
    NotAgain(b, i);
  }

  lemma OneMoreIndexed(files: seq<FileEntry>, i: nat, byPath: Index)
    requires i < |files| && FilesOk(files[..i + 1]) && IndexOf(files[..i], byPath) && |byPath| == i
    ensures IndexOf(files[..i + 1], byPath[files[i].path := files[i]]) && |byPath[files[i].path := files[i]]| == i + 1
  {
    hide FilesOk;
    PathIsNew(files, i, byPath);
    assert files[..i + 1] == files[..i] + [files[i]];
  }

  method DecodeFiles(files: seq<FileEntry>) returns (r: Option<Index>)
    ensures r.Some? <==> FilesOk(files)
    ensures r.Some? ==> IndexOf(files, r.value) && |r.value| == |files|
  {
    hide Less, IsHash, FilesOk, IndexOf;
    var byPath: Index := map[];
    NoFiles(files[..0]);
    for i := 0 to |files|
      invariant FilesOk(files[..i]) && IndexOf(files[..i], byPath) && |byPath| == i
    {
      var f := files[i];
      FilesOkPrefix(files, i);
      if f.size < 0 || !IsHash(f.hash) { return None; }
      if i > 0 && !Less(files[i - 1].path, f.path) { return None; }
      OneMoreIndexed(files, i, byPath);
      byPath := byPath[f.path := f];
    }
    assert files[..|files|] == files;
    return Some(byPath);
  }

  lemma NoFiles(files: seq<FileEntry>)
    requires files == []
    ensures FilesOk(files) && IndexOf(files, map[])
  {
  }

  lemma NotAgain(files: seq<FileEntry>, i: nat)
    requires i < |files| && forall j | 0 < j <= i :: Less(files[j - 1].path, files[j].path)
    ensures forall f | f in files[..i] :: f.path != files[i].path
  {
    forall f | f in files[..i]
      ensures f.path != files[i].path
    {
      var j :| 0 <= j < i && files[j] == f;
      Ascends(files, j, i);
      LessTotal(files[i].path, files[i].path);
    }
  }

  lemma {:induction false} Ascends(files: seq<FileEntry>, j: nat, i: nat)
    requires j < i < |files| && forall m | 0 < m <= i :: Less(files[m - 1].path, files[m].path)
    ensures Less(files[j].path, files[i].path)
  {
    if j < i - 1 {
      Ascends(files, j, i - 1);
      LessTransitive(files[j].path, files[i - 1].path, files[i].path);
    }
  }

  /** Offsets in the decompressed stream. */

  function Padded(n: nat): nat { (n + TAR_BLOCK - 1) / TAR_BLOCK * TAR_BLOCK }

  // One block, after an extended header and its own block when there is one.
  function HeaderLen(e: TarEntry): nat { TAR_BLOCK + if e.pax == 0 then 0 else TAR_BLOCK + Padded(e.pax) }

  function Offset(entries: seq<TarEntry>, k: nat): nat
    requires k <= |entries|
  {
    if k == 0 then 0 else Offset(entries, k - 1) + HeaderLen(entries[k - 1]) + Padded(entries[k - 1].size)
  }

  /** The stream as blocks. */

  // One block of the archive: of an extended header, of its body, a header, or a part
  // of the content.
  datatype Block = Extended(entry: nat) | ExtendedBody(entry: nat, part: nat) | Header(entry: nat)
                 | Content(entry: nat, part: nat)

  // As many blocks as it takes until every byte has its place.
  function Parts(size: nat): nat { if size == 0 then 0 else if size <= 512 then 1 else 1 + Parts(size - 512) }

  function EntryBlocks(k: nat, e: TarEntry): seq<Block>
  {
    (if e.pax == 0 then [] else [Extended(k)] + seq(Parts(e.pax), (i: nat) => ExtendedBody(k, i)))
    + [Header(k)] + seq(Parts(e.size), (i: nat) => Content(k, i))
  }

  function Layout(entries: seq<TarEntry>): seq<Block>
  {
    if entries == [] then [] else
      var n := |entries| - 1;
      Layout(entries[..n]) + EntryBlocks(n, entries[n])
  }

  lemma PaddedIs(n: nat)
    ensures n <= Padded(n) < n + 512 && Padded(n) % 512 == 0
    ensures Padded(0) == 0 && (n > 512 ==> Padded(n) == 512 + Padded(n - 512))
  {
  }

  lemma {:induction false} PartsFill(size: nat)
    ensures 512 * Parts(size) == Padded(size)
    decreases size
  {
    PaddedIs(size);
    if size > 512 { PartsFill(size - 512); }
  }

  lemma EntryLength(k: nat, e: TarEntry)
    ensures 512 * |EntryBlocks(k, e)| == HeaderLen(e) + Padded(e.size)
    ensures forall b | b in EntryBlocks(k, e) :: b.entry == k
  {
    hide Padded, Parts;
    PartsFill(e.pax);
    PartsFill(e.size);
  }

  lemma {:induction false} OffsetOfFront(entries: seq<TarEntry>, n: nat, k: nat)
    requires k <= n <= |entries|
    ensures Offset(entries[..n], k) == Offset(entries, k)
  {
    hide Padded, HeaderLen;
    if k > 0 { OffsetOfFront(entries, n, k - 1); }
  }

  // The offset of an entry is that of its first block.
  lemma {:induction false} LayoutLength(entries: seq<TarEntry>)
    ensures 512 * |Layout(entries)| == Offset(entries, |entries|)
    ensures forall b | b in Layout(entries) :: b.entry < |entries|
  {
    hide Padded, HeaderLen, EntryBlocks;
    if entries != [] {
      var n := |entries| - 1;
      LayoutLength(entries[..n]);
      EntryLength(n, entries[n]);
      OffsetOfFront(entries, n, n);
    }
  }

  // The bytes before the header block of the last entry, which has only this one.
  ghost predicate UpToLastHeader(entries: seq<TarEntry>, len: int)
  {
    len % 512 == 0 && HeaderAt(Layout(entries), len / 512, |entries| - 1)
  }

  ghost predicate HeaderAt(blocks: seq<Block>, i: int, last: int)
  {
    && 0 <= i < |blocks| && blocks[i].Header? && blocks[i].entry == last
    && (forall j | 0 <= j < i :: blocks[j].entry < last)
    && forall j | i < j < |blocks| :: blocks[j].Content? && blocks[j].entry == last
  }

  predicate OneHeader(own: seq<Block>, k: int)
  {
    && own != [] && own[0].Header? && own[0].entry == k
    && forall j | 0 < j < |own| :: own[j].Content? && own[j].entry == k
  }

  lemma HeaderAfter(front: seq<Block>, own: seq<Block>, last: int)
    requires (forall b | b in front :: b.entry < last) && OneHeader(own, last)
    ensures HeaderAt(front + own, |front|, last)
  {
    var blocks, i := front + own, |front|;
    assert blocks[i] == own[0];
    assert forall j | 0 <= j < i :: blocks[j] == front[j] && front[j] in front;
    assert forall j | i < j < |blocks| :: blocks[j] == own[j - i];
  }

  lemma OwnBlocks(k: nat, e: TarEntry)
    requires e.pax == 0
    ensures OneHeader(EntryBlocks(k, e), k)
  {
    hide Parts;
  }

  lemma {:induction false} LastHeader(entries: seq<TarEntry>)
    requires entries != [] && entries[|entries| - 1].pax == 0
    ensures UpToLastHeader(entries, Offset(entries, |entries| - 1))
  {
    hide Padded, HeaderLen, Offset, EntryBlocks, OneHeader, HeaderAt;
    var last := |entries| - 1;
    var front, own := Layout(entries[..last]), EntryBlocks(last, entries[last]);
    LayoutLength(entries[..last]);
    OffsetOfFront(entries, last, last);
    OwnBlocks(last, entries[last]);
    HeaderAfter(front, own, last);
  }

  // The decompression bound while entry k is read: the caller's declaration, or the
  // manifest's own once it is known.
  function LimitAt(d: Decoded, declared: int, k: nat): int
  {
    if declared >= 0 then Min(MAX_DECOMPRESSED, Wrap(declared + ALLOWANCE))
    else if k == 0 || d.sizeInstalled.None? then MAX_DECOMPRESSED
    else Min(MAX_DECOMPRESSED, Wrap(d.sizeInstalled.value + ALLOWANCE))
  }

  /** What a conforming archive is. */

  predicate IsPayload(entries: seq<TarEntry>, k: int)
  {
    2 <= k < |entries| && !(METADATA_PREFIX <= entries[k].name)
  }

  // The name of the last payload entry before k.
  function PrevPayload(entries: seq<TarEntry>, k: nat): Option<string>
    requires k <= |entries|
  {
    if k == 0 then None
    else if IsPayload(entries, k - 1) then Some(entries[k - 1].name)
    else PrevPayload(entries, k - 1)
  }

  function PathOf(e: TarEntry): string
  {
    if e.kind == Directory && e.name != "" && e.name[|e.name| - 1] == '/' then e.name[..|e.name| - 1] else e.name
  }

  ghost function PayloadOf(entries: seq<TarEntry>, k: nat): seq<PayloadEntry>
    requires k <= |entries|
  {
    if k == 0 then []
    else if IsPayload(entries, k - 1) then PayloadOf(entries, k - 1) + [EntryOf(entries[k - 1])]
    else PayloadOf(entries, k - 1)
  }

  function EntryOf(e: TarEntry): PayloadEntry
  {
    PayloadEntry(PathOf(e), e.kind, if e.kind == Regular then e.size else 0, if e.kind == Regular then e.digest else "")
  }

  predicate MetadataOk(e: TarEntry, limit: nat) { e.kind == Regular && e.size <= limit }

  // A regular file is listed with its own size and digest.
  predicate Listed(files: seq<FileEntry>, e: TarEntry) { FileEntry(e.name, e.size, e.digest) in files }

  ghost predicate PayloadOk(entries: seq<TarEntry>, d: Decoded, k: nat)
    requires k < |entries| && d.files.Some?
  {
    var e := entries[k];
    && e.kind != OtherKind && e.valid
    && (PrevPayload(entries, k).Some? ==> Less(PrevPayload(entries, k).value, e.name))
    && |PayloadOf(entries, k)| < MAX_PAYLOAD_ENTRIES
    && (e.kind == Regular ==> Listed(d.files.value, e))
  }

  ghost predicate EntryOk(entries: seq<TarEntry>, d: Decoded, declared: int, k: nat)
    requires k < |entries|
  {
    var e := entries[k];
    && e.canonical && e.mtime == d.built && Offset(entries, k + 1) <= LimitAt(d, declared, k)
    && if k == 0 then
         && e.name == MANIFEST && MetadataOk(e, MAX_MANIFEST) && d.sizeInstalled.Some?
         && (declared >= 0 ==> d.sizeInstalled.value == declared)
       else if k == 1 then
         e.name == FILES && MetadataOk(e, MAX_FILES) && d.files.Some? && FilesOk(d.files.value)
       else if e.name == SIGNATURE then
         e.pax == 0 && MetadataOk(e, MAX_SIGNATURE) && d.envelope && k == |entries| - 1
       else if METADATA_PREFIX <= e.name then PrevPayload(entries, k).None?
       else d.files.Some? && PayloadOk(entries, d, k)
  }

  // The paths of the regular payload files among the first k entries.
  ghost function FilePaths(entries: seq<TarEntry>, k: nat): seq<string>
    requires k <= |entries|
  {
    if k == 0 then []
    else if IsPayload(entries, k - 1) && entries[k - 1].kind == Regular then
      FilePaths(entries, k - 1) + [entries[k - 1].name]
    else FilePaths(entries, k - 1)
  }

  // A running sum in 64 bits.
  function WrappedSum(files: seq<FileEntry>): Int64
  {
    if files == [] then 0 else Wrap(WrappedSum(files[..|files| - 1]) + files[|files| - 1].size)
  }

  ghost predicate Conforms(entries: seq<TarEntry>, d: Decoded, declared: int)
  {
    && |entries| >= 2
    && (forall k | 0 <= k < |entries| :: EntryOk(entries, d, declared, k))
    && d.sizeInstalled.Some? && d.files.Some?
    && |FilePaths(entries, |entries|)| == |d.files.value|
    && WrappedSum(d.files.value) == d.sizeInstalled.value
    && forall p | p in d.overrides :: Overridable(PayloadOf(entries, |entries|), p)
  }

  // What stands at a path: its last entry, as a directory's name loses its slash.
  function KindAt(payload: seq<PayloadEntry>, path: string): Option<Kind>
  {
    if payload == [] then None
    else if payload[|payload| - 1].path == path then Some(payload[|payload| - 1].kind)
    else KindAt(payload[..|payload| - 1], path)
  }

  // Something that carries a descriptor of its own.
  predicate Overridable(payload: seq<PayloadEntry>, path: string)
  {
    KindAt(payload, path).Some? && KindAt(payload, path) != Some(SymbolicLink)
  }

  predicate IsSigned(entries: seq<TarEntry>) { |entries| > 2 && entries[|entries| - 1].name == SIGNATURE }

  /** The walk. */

  method CheckEntry(entries: seq<TarEntry>, d: Decoded, declared: int, k: nat, read: nat,
                    prev: Option<string>, count: nat, byPath: Index) returns (ok: bool)
    requires k < |entries| && read == Offset(entries, k)
    requires k >= 2 ==> d.files.Some? && IndexOf(d.files.value, byPath)
    requires prev == PrevPayload(entries, k) && count == |PayloadOf(entries, k)|
    requires k != 1
    ensures ok <==> EntryOk(entries, d, declared, k)
  {
    hide Less, Wrap, HeaderLen, Padded, IsHash, FilesOk, PrevPayload, PayloadOf;
    var e := entries[k];
    if !e.canonical || e.mtime != d.built { return false; }
    if read + HeaderLen(e) + Padded(e.size) > LimitAt(d, declared, k) { return false; }
    if k == 0 {
      return e.name == MANIFEST && MetadataOk(e, MAX_MANIFEST) && d.sizeInstalled.Some?
             && (declared < 0 || d.sizeInstalled.value == declared);
    }
    if e.name == SIGNATURE {
      return e.pax == 0 && MetadataOk(e, MAX_SIGNATURE) && d.envelope && k == |entries| - 1;
    }
    if METADATA_PREFIX <= e.name {
      return prev.None?;
    }
    if e.kind == OtherKind || !e.valid || (prev.Some? && !Less(prev.value, e.name)) || count >= MAX_PAYLOAD_ENTRIES {
      return false;
    }
    if e.kind == Regular {
      ListedByPath(d.files.value, byPath, e);
      return e.name in byPath && byPath[e.name].size == e.size && byPath[e.name].hash == e.digest;
    }
    return true;
  }

  method CheckFilesEntry(entries: seq<TarEntry>, d: Decoded, declared: int, read: nat) returns (byPath: Option<Index>)
    requires |entries| > 1 && read == Offset(entries, 1)
    ensures byPath.Some? <==> EntryOk(entries, d, declared, 1)
    ensures byPath.Some? ==> IndexOf(d.files.value, byPath.value) && |byPath.value| == |d.files.value|
  {
    hide Wrap, HeaderLen, Padded, FilesOk;
    var e := entries[1];
    if !e.canonical || e.mtime != d.built { return None; }
    if read + HeaderLen(e) + Padded(e.size) > LimitAt(d, declared, 1) { return None; }
    if e.name != FILES || !MetadataOk(e, MAX_FILES) || d.files.None? { return None; }
    byPath := DecodeFiles(d.files.value);
  }

  method Walk(entries: seq<TarEntry>, d: Decoded, declared: int) returns (r: Option<Package>)
    ensures r.Some? <==> Conforms(entries, d, declared)
    ensures r.Some? ==> r.value.payload == PayloadOf(entries, |entries|) && (r.value.signed <==> IsSigned(entries))
    ensures r.Some? && r.value.signed ==> UpToLastHeader(entries, r.value.signedLen)
  {
    hide Less, LimitAt, HeaderLen, Padded, EntryOf, EntryOk, IndexOf;
    hide Listed, SeenAre, PayloadOf, PrevPayload, Offset, FilePaths, UpToLastHeader;
    NoneSeen(entries);
    var byPath: Index := map[];
    var payload: seq<PayloadEntry> := [];
    var seenFiles: set<string> := {};
    var prev: Option<string> := None;
    var signed, signedLen := false, 0;
    var read := 0;
    for k := 0 to |entries|
      invariant forall j | 0 <= j < k :: EntryOk(entries, d, declared, j)
      invariant read == Offset(entries, k)
      invariant k >= 1 ==> d.sizeInstalled.Some?
      invariant k >= 2 ==> d.files.Some? && IndexOf(d.files.value, byPath) && |byPath| == |d.files.value|
      invariant payload == PayloadOf(entries, k) && prev == PrevPayload(entries, k)
      invariant SeenAre(entries, k, seenFiles)
      invariant signed <==> k > 2 && entries[k - 1].name == SIGNATURE
      invariant signed ==> k == |entries| && UpToLastHeader(entries, signedLen)
    {
      var e := entries[k];
      if k == 1 {
        var index := CheckFilesEntry(entries, d, declared, read);
        if index.None? { return None; }
        byPath := index.value;
      } else {
        var ok := CheckEntry(entries, d, declared, k, read, prev, |payload|, byPath);
        if !ok { return None; }
      }
      EntryMeans(entries, d, declared, k);
      MoreSeen(entries, k, seenFiles);
      Advance(entries, k);
      if k >= 2 {
        if e.name == SIGNATURE {
          signed, signedLen := true, read + HeaderLen(e) - TAR_BLOCK;
          SignatureHeader(entries, k);
        } else if !(METADATA_PREFIX <= e.name) {
          if e.kind == Regular { seenFiles := seenFiles + {e.name}; }
          payload := payload + [EntryOf(e)];
          prev := Some(e.name);
        }
      }
      read := read + HeaderLen(e) + Padded(e.size);
    }
    if |entries| < 2 { return None; }
    SeenCounts(entries, seenFiles);
    if |seenFiles| != |byPath| { return None; }
    var sum := CheckInstalledSize(d.files.value);
    if sum != d.sizeInstalled.value { return None; }
    var targets := CheckSDOverrideTargets(payload, d.overrides);
    if !targets { return None; }
    return Some(Package(payload, signed, signedLen));
  }

  lemma SignatureHeader(entries: seq<TarEntry>, k: nat)
    requires k == |entries| - 1 && entries[k].pax == 0
    ensures HeaderLen(entries[k]) == TAR_BLOCK && UpToLastHeader(entries, Offset(entries, k))
  {
    LastHeader(entries);
  }

  method CheckSDOverrideTargets(payload: seq<PayloadEntry>, overrides: seq<string>) returns (ok: bool)
    ensures ok <==> forall p | p in overrides :: Overridable(payload, p)
  {
    var kinds: map<string, Kind> := map[];
    for i := 0 to |payload|
      invariant forall p :: KindAt(payload[..i], p) == if p in kinds then Some(kinds[p]) else None
    {
      assert payload[..i + 1][..i] == payload[..i];
      kinds := kinds[payload[i].path := payload[i].kind];
    }
    assert payload[..|payload|] == payload;
    for i := 0 to |overrides|
      invariant forall p | p in overrides[..i] :: Overridable(payload, p)
    {
      assert overrides[..i + 1] == overrides[..i] + [overrides[i]] && overrides[i] in overrides;
      if overrides[i] !in kinds || kinds[overrides[i]] == SymbolicLink { return false; }
    }
    assert overrides[..|overrides|] == overrides;
    return true;
  }

  // An override of an accepted package is on one of its files or directories.
  lemma OverridesHaveTargets(entries: seq<TarEntry>, d: Decoded, declared: int, path: string)
    requires Conforms(entries, d, declared) && path in d.overrides
    ensures exists e :: e in PayloadOf(entries, |entries|) && e.path == path && e.kind in {Regular, Directory}
  {
    hide WrappedSum, FilePaths, EntryOk;
    var payload := PayloadOf(entries, |entries|);
    assert Overridable(payload, path);
    var e := LastAt(payload, path);
    PayloadKinds(entries, d, declared, |entries|);
  }

  lemma {:induction false} LastAt(payload: seq<PayloadEntry>, path: string) returns (e: PayloadEntry)
    requires KindAt(payload, path).Some?
    ensures e in payload && e.path == path && KindAt(payload, path) == Some(e.kind)
  {
    var n := |payload| - 1;
    if payload[n].path == path {
      e := payload[n];
    } else {
      e := LastAt(payload[..n], path);
    }
  }

  lemma {:induction false} PayloadKinds(entries: seq<TarEntry>, d: Decoded, declared: int, k: nat)
    requires Conforms(entries, d, declared) && k <= |entries|
    ensures forall e | e in PayloadOf(entries, k) :: e.kind != OtherKind
  {
    hide Conforms, FilePaths, WrappedSum, Offset, LimitAt, PrevPayload, Listed, FilesOk, Less;
    if k > 0 {
      PayloadKinds(entries, d, declared, k - 1);
      EachOk(entries, d, declared, k - 1);
      assert METADATA_PREFIX <= SIGNATURE;
    }
  }

  // One entry further, everything the walk keeps.
  lemma Advance(entries: seq<TarEntry>, k: nat)
    requires k < |entries|
    ensures Offset(entries, k + 1) == Offset(entries, k) + HeaderLen(entries[k]) + Padded(entries[k].size)
    ensures PayloadOf(entries, k + 1) ==
            PayloadOf(entries, k) + if IsPayload(entries, k) then [EntryOf(entries[k])] else []
    ensures PrevPayload(entries, k + 1) ==
            if IsPayload(entries, k) then Some(entries[k].name) else PrevPayload(entries, k)
  {
    hide HeaderLen, Padded, EntryOf;
  }

  lemma SeenCounts(entries: seq<TarEntry>, seen: set<string>)
    requires SeenAre(entries, |entries|, seen)
    ensures |FilePaths(entries, |entries|)| == |seen|
  {
    hide FilePaths, PrevPayload;
    ListingSize(FilePaths(entries, |entries|), seen);
  }

  // What an accepted entry leaves for the entries after it.
  lemma EntryMeans(entries: seq<TarEntry>, d: Decoded, declared: int, k: nat)
    requires k < |entries| && EntryOk(entries, d, declared, k)
    ensures k == 0 ==> d.sizeInstalled.Some?
    ensures k == 1 ==> d.files.Some?
    ensures k >= 2 && entries[k].name == SIGNATURE ==>
            k == |entries| - 1 && entries[k].pax == 0 && !IsPayload(entries, k)
    ensures IsPayload(entries, k) && PrevPayload(entries, k).Some? ==>
            Less(PrevPayload(entries, k).value, entries[k].name)
    ensures IsPayload(entries, k) && entries[k].kind == Regular ==> d.files.Some? && Listed(d.files.value, entries[k])
    ensures Offset(entries, k + 1) <= MAX_DECOMPRESSED
  {
    hide Less, Wrap, HeaderLen, Padded, FilesOk, PrevPayload, PayloadOf, Listed;
    assert METADATA_PREFIX <= SIGNATURE;
  }

  method CheckInstalledSize(files: seq<FileEntry>) returns (sum: Int64)
    ensures sum == WrappedSum(files)
  {
    sum := 0;
    for i := 0 to |files|
      invariant sum == WrappedSum(files[..i])
    {
      assert files[..i + 1][..i] == files[..i];
      sum := Wrap(sum + files[i].size);
    }
    assert files[..|files|] == files;
  }

  lemma ListedByPath(files: seq<FileEntry>, byPath: Index, e: TarEntry)
    requires IndexOf(files, byPath)
    ensures Listed(files, e) <==> e.name in byPath && byPath[e.name].size == e.size && byPath[e.name].hash == e.digest
  {
    if Listed(files, e) {
      assert FileEntry(e.name, e.size, e.digest) in files;
    }
  }

  // The paths seen so far: each once, because payload names ascend.
  ghost predicate SeenAre(entries: seq<TarEntry>, k: nat, seen: set<string>)
    requires k <= |entries|
  {
    && Lists(FilePaths(entries, k), seen)
    && (forall p | p in FilePaths(entries, k) :: PrevPayload(entries, k).Some?
          && (p == PrevPayload(entries, k).value || Less(p, PrevPayload(entries, k).value)))
  }

  lemma MoreSeen(entries: seq<TarEntry>, k: nat, seen: set<string>)
    requires k < |entries| && SeenAre(entries, k, seen)
    requires IsPayload(entries, k) && PrevPayload(entries, k).Some? ==>
             Less(PrevPayload(entries, k).value, entries[k].name)
    ensures SeenAre(entries, k + 1,
              if IsPayload(entries, k) && entries[k].kind == Regular then seen + {entries[k].name} else seen)
  {
    hide Less;
    var s, e := FilePaths(entries, k), entries[k];
    if IsPayload(entries, k) {
      forall p | p in s
        ensures Less(p, e.name)
      {
        if p != PrevPayload(entries, k).value { LessTransitive(p, PrevPayload(entries, k).value, e.name); }
      }
      assert Elements(s + [e.name]) == seen + {e.name};
    }
  }

  /** What acceptance guarantees. */

  function Paths(files: seq<FileEntry>): seq<string>
  {
    seq(|files|, i requires 0 <= i < |files| => files[i].path)
  }

  function Sum(files: seq<FileEntry>): int
  {
    if files == [] then 0 else Sum(files[..|files| - 1]) + files[|files| - 1].size
  }

  // The listed entry of each regular payload file, in the order of the archive.
  ghost function ListedFiles(entries: seq<TarEntry>, k: nat): seq<FileEntry>
    requires k <= |entries|
  {
    if k == 0 then []
    else if IsPayload(entries, k - 1) && entries[k - 1].kind == Regular
    then ListedFiles(entries, k - 1) + [FileEntry(entries[k - 1].name, entries[k - 1].size, entries[k - 1].digest)]
    else ListedFiles(entries, k - 1)
  }

  lemma {:induction false} ListedFilesAre(entries: seq<TarEntry>, d: Decoded, declared: int, k: nat)
    requires Conforms(entries, d, declared) && k <= |entries|
    ensures |ListedFiles(entries, k)| == |FilePaths(entries, k)|
    ensures forall i | 0 <= i < |FilePaths(entries, k)| ::
              ListedFiles(entries, k)[i].path == FilePaths(entries, k)[i] && ListedFiles(entries, k)[i] in d.files.value
    ensures Sum(ListedFiles(entries, k)) <= Offset(entries, k)
  {
    hide Conforms, EntryOk, Padded, HeaderLen, PrevPayload;
    if k > 0 {
      ListedFilesAre(entries, d, declared, k - 1);
      EachOk(entries, d, declared, k - 1);
      EntryMeans(entries, d, declared, k - 1);
      LengthAtLeast(entries[k - 1]);
      var s := ListedFiles(entries, k - 1);
      var f := FileEntry(entries[k - 1].name, entries[k - 1].size, entries[k - 1].digest);
      assert (s + [f])[..|s|] == s;
    }
  }

  lemma EachOk(entries: seq<TarEntry>, d: Decoded, declared: int, k: nat)
    requires Conforms(entries, d, declared) && k < |entries|
    ensures EntryOk(entries, d, declared, k)
  {
    hide EntryOk, WrappedSum, FilePaths;
  }

  lemma LengthAtLeast(e: TarEntry)
    ensures HeaderLen(e) >= TAR_BLOCK && Padded(e.size) >= e.size
  {
  }

  lemma {:induction false} SeenAtEnd(entries: seq<TarEntry>, d: Decoded, declared: int, k: nat)
    returns (seen: set<string>)
    requires Conforms(entries, d, declared) && k <= |entries|
    ensures SeenAre(entries, k, seen)
  {
    hide EntryOk, WrappedSum, SeenAre;
    if k == 0 {
      seen := {};
      NoneSeen(entries);
    } else {
      var before := SeenAtEnd(entries, d, declared, k - 1);
      assert EntryOk(entries, d, declared, k - 1);
      EntryMeans(entries, d, declared, k - 1);
      MoreSeen(entries, k - 1, before);
      seen := if IsPayload(entries, k - 1) && entries[k - 1].kind == Regular
              then before + {entries[k - 1].name} else before;
    }
  }

  lemma NoneSeen(entries: seq<TarEntry>)
    ensures SeenAre(entries, 0, {}) && Offset(entries, 0) == 0 && PayloadOf(entries, 0) == []
            && PrevPayload(entries, 0) == None
  {
  }

  lemma PathsAscend(files: seq<FileEntry>)
    requires FilesOk(files)
    ensures Ascending(Paths(files))
  {
    hide Less, IsHash;
    forall i, j | 0 <= i < j < |files|
      ensures Less(files[i].path, files[j].path)
    {
      Ascends(files, i, j);
    }
  }

  lemma PathsAre(files: seq<FileEntry>, s: seq<string>)
    requires |files| == |s| && forall i | 0 <= i < |s| :: files[i].path == s[i]
    ensures Paths(files) == s
  {
  }

  lemma ConformsMeans(entries: seq<TarEntry>, d: Decoded, declared: int)
    requires Conforms(entries, d, declared)
    ensures d.files.Some? && d.sizeInstalled.Some? && FilesOk(d.files.value)
    ensures |FilePaths(entries, |entries|)| == |d.files.value|
    ensures WrappedSum(d.files.value) == d.sizeInstalled.value
    ensures |entries| > 0 && Offset(entries, |entries|) <= MAX_DECOMPRESSED
  {
    hide FilesOk, WrappedSum, FilePaths, Wrap, Padded, HeaderLen, PrevPayload, PayloadOf;
    assert EntryOk(entries, d, declared, 1);
    assert EntryOk(entries, d, declared, |entries| - 1);
  }

  // Inclusion one way and equal counts are enough for two ascending lists.
  lemma SubsetPlusCount(files: seq<FileEntry>, listed: seq<FileEntry>)
    requires Ascending(Paths(files)) && Ascending(Paths(listed)) && |files| == |listed|
    requires forall i | 0 <= i < |listed| :: listed[i] in files
    ensures files == listed
  {
    hide Less;
    var p, q := Paths(files), Paths(listed);
    forall x | x in Elements(q)
      ensures x in Elements(p)
    {
      var i :| 0 <= i < |q| && q[i] == x;
      var j :| 0 <= j < |files| && files[j] == listed[i];
      assert p[j] == x;
    }
    ListingSize(p, Elements(p));
    ListingSize(q, Elements(q));
    SubsetOfSameSize(Elements(q), Elements(p));
    ListingUnique(p, q, Elements(p));
    forall i | 0 <= i < |files|
      ensures files[i] == listed[i]
    {
      var j :| 0 <= j < |files| && files[j] == listed[i];
      assert p[j] == q[i] == p[i];
      AscendingDistinct(p, i, j);
    }
  }

  // The listed files are the payload's regular files: the same entries, with their
  // lengths and digests, in the same order.
  lemma FilesAreExact(entries: seq<TarEntry>, d: Decoded, declared: int)
    requires Conforms(entries, d, declared)
    ensures Paths(d.files.value) == FilePaths(entries, |entries|)
    ensures d.files.value == ListedFiles(entries, |entries|)
  {
    ConformsMeans(entries, d, declared);
    hide Conforms, Less, FilesOk, FilePaths, ListedFiles, PrevPayload;
    var listed := ListedFiles(entries, |entries|);
    var seen := SeenAtEnd(entries, d, declared, |entries|);
    ListedFilesAre(entries, d, declared, |entries|);
    PathsAre(listed, FilePaths(entries, |entries|));
    PathsAscend(d.files.value);
    SubsetPlusCount(d.files.value, listed);
  }

  lemma AscendingDistinct(s: seq<string>, i: nat, j: nat)
    requires Ascending(s) && i < |s| && j < |s| && s[i] == s[j]
    ensures i == j
  {
    LessTotal(s[i], s[i]);
  }

  lemma SubsetOfSameSize(a: set<string>, b: set<string>)
    requires a <= b && |a| == |b|
    ensures a == b
  {
    assert b == a + (b - a) && |b - a| == 0;
  }

  // In 64 bits the sum is the true one, taken modulo 2^64.
  lemma {:induction false} WrappedSumIs(files: seq<FileEntry>)
    ensures WrappedSum(files) == Wrap(Sum(files))
  {
    if files != [] {
      WrappedSumIs(files[..|files| - 1]);
      WrapAdd(Sum(files[..|files| - 1]), files[|files| - 1].size);
    }
  }

  lemma WrapAdd(a: int, b: int)
    ensures Wrap(Wrap(a) + b) == Wrap(a + b)
  {
    var q := (a + TWO63) / TWO64;
    assert Wrap(a) == a - q * TWO64;
    assert Wrap(a) + b + TWO63 == (a + b + TWO63) + (-q) * TWO64;
    ModShift(a + b + TWO63, -q);
  }

  lemma ModShift(n: int, k: int)
    ensures (n + k * TWO64) % TWO64 == n % TWO64
  {
  }

  // The manifest's size is the true total of the payload's file contents: although
  // the sizes are only claims added up in 64 bits, the checks leave no room to wrap.
  lemma InstalledSizeIsTrue(entries: seq<TarEntry>, d: Decoded, declared: int)
    requires Conforms(entries, d, declared)
    ensures d.sizeInstalled.value == Sum(ListedFiles(entries, |entries|)) <= MAX_DECOMPRESSED
  {
    ConformsMeans(entries, d, declared);
    FilesAreExact(entries, d, declared);
    ListedFilesAre(entries, d, declared, |entries|);
    hide Conforms, FilePaths, ListedFiles, Offset, Wrap, Sum, WrappedSum, IsHash, Less;
    WrappedSumIs(d.files.value);
    SumNotNegative(d.files.value);
    NoWrap(Sum(d.files.value));
  }

  lemma NoWrap(n: int)
    requires -TWO63 <= n < TWO63
    ensures Wrap(n) == n
  {
  }

  lemma {:induction false} SumNotNegative(files: seq<FileEntry>)
    requires forall i | 0 <= i < |files| :: files[i].size >= 0
    ensures Sum(files) >= 0
  {
    if files != [] { SumNotNegative(files[..|files| - 1]); }
  }

  // The signed range of a signed archive ends where the one block of the signature's
  // header starts: everything before it belongs to other entries, everything after it
  // to the signature, and no other entry is one.
  lemma SignedRangeIsExact(entries: seq<TarEntry>, d: Decoded, declared: int)
    requires Conforms(entries, d, declared) && IsSigned(entries)
    ensures UpToLastHeader(entries, Offset(entries, |entries| - 1)) && entries[|entries| - 1].name == SIGNATURE
    ensures forall k | 2 <= k < |entries| - 1 :: entries[k].name != SIGNATURE
  {
    hide EntryOk, WrappedSum, FilePaths, UpToLastHeader;
    forall k | 2 <= k < |entries|
      ensures entries[k].name == SIGNATURE ==> k == |entries| - 1 && entries[k].pax == 0
    {
      assert EntryOk(entries, d, declared, k);
      EntryMeans(entries, d, declared, k);
    }
    LastHeader(entries);
  }

  // It is the only such length.
  lemma SignedRangeIsUnique(entries: seq<TarEntry>, m: int, n: int)
    requires UpToLastHeader(entries, m) && UpToLastHeader(entries, n)
    ensures m == n
  {
    hide Layout;
    var blocks := Layout(entries);
    assert !(m / 512 < n / 512) && !(n / 512 < m / 512);
  }

  // The blocks that are decompressed, however the size was declared: no more than the
  // payload's true size and a fixed allowance, and never more than 4 GiB.
  lemma DecompressionIsBounded(entries: seq<TarEntry>, d: Decoded, declared: int, k: nat)
    requires Conforms(entries, d, declared) && 1 <= k < |entries|
    ensures var size := Sum(ListedFiles(entries, |entries|));
      && LimitAt(d, declared, k) == Min(0x1_0000_0000, size + 0x1400_0000)
      && 512 * |Layout(entries)| <= Min(0x1_0000_0000, size + 0x1400_0000)
  {
    InstalledSizeIsTrue(entries, d, declared);
    LayoutLength(entries);
    EachOk(entries, d, declared, 0);
    EachOk(entries, d, declared, |entries| - 1);
    SumNotNegative(d.files.value) by { ConformsMeans(entries, d, declared); }
    FilesAreExact(entries, d, declared);
    hide Conforms, ListedFiles, Offset, Layout, Sum, IsHash, Less, PrevPayload, PayloadOf, FilesOk;
    NoWrap(d.sizeInstalled.value + ALLOWANCE);
  }

  // The payload: every entry outside the metadata, by the path a directory has without
  // its slash, files with their length and digest.
  lemma {:induction false} PayloadIsExact(entries: seq<TarEntry>, k: nat, p: PayloadEntry)
    requires k <= |entries|
    ensures p in PayloadOf(entries, k) <==>
            exists i | 2 <= i < k :: !(".peipkg/" <= entries[i].name) && Unpacks(entries[i], p)
  {
    if k > 0 {
      PayloadIsExact(entries, k - 1, p);
      var e := entries[k - 1];
      assert EntryOf(e) == p <==> Unpacks(e, p) by { UnpacksOne(e, p); }
    }
  }

  predicate Unpacks(e: TarEntry, p: PayloadEntry)
  {
    && p.kind == e.kind
    && (if e.kind == Directory && e.name != "" && e.name[|e.name| - 1] == '/' then p.path + "/" == e.name
        else p.path == e.name)
    && (if e.kind == Regular then p.size == e.size && p.hash == e.digest else p.size == 0 && p.hash == "")
  }

  lemma UnpacksOne(e: TarEntry, p: PayloadEntry)
    ensures EntryOf(e) == p <==> Unpacks(e, p)
  {
    if e.kind == Directory && e.name != "" && e.name[|e.name| - 1] == '/' {
      var front := e.name[..|e.name| - 1];
      assert front + "/" == e.name;
      assert p.path + "/" == e.name ==> p.path == (p.path + "/")[..|e.name| - 1] == front;
    }
  }

  // What can be overridden: the last entry at the path, if it is no link.
  lemma {:induction false} OverridableExactly(payload: seq<PayloadEntry>, path: string)
    ensures Overridable(payload, path) <==>
            exists i | 0 <= i < |payload| ::
              payload[i].path == path && payload[i].kind != SymbolicLink
              && forall j | i < j < |payload| :: payload[j].path != path
  {
    if payload != [] {
      var n := |payload| - 1;
      var front := payload[..n];
      if payload[n].path != path {
        OverridableExactly(front, path);
        assert forall i | 0 <= i < n :: front[i] == payload[i];
      }
    }
  }

  /** Digests. */

  const HEX := "0123456789abcdef"

  function HexOf(bytes: seq<nat>): string
    requires forall b | b in bytes :: b < 256
  {
    if bytes == [] then ""
    else
      assert bytes[0] in bytes && forall b | b in bytes[1..] :: b in bytes;
      [HEX[bytes[0] / 16], HEX[bytes[0] % 16]] + HexOf(bytes[1..])
  }

  predicate LowerHex(c: char) { '0' <= c <= '9' || 'a' <= c <= 'f' }

  lemma HexPlace(c: char) returns (i: nat)
    requires LowerHex(c)
    ensures i < 16 && HEX[i] == c
  {
    i := if c <= '9' then c as int - '0' as int else c as int - 'a' as int + 10;
  }

  lemma HexDigits(i: nat)
    requires i < 16
    ensures LowerHex(HEX[i])
  {
  }

  lemma {:induction false} HexOfIs(bytes: seq<nat>)
    requires forall b | b in bytes :: b < 256
    ensures |HexOf(bytes)| == 2 * |bytes| && forall c | c in HexOf(bytes) :: LowerHex(c)
  {
    if bytes != [] {
      assert bytes[0] in bytes && forall b | b in bytes[1..] :: b in bytes;
      HexOfIs(bytes[1..]);
      HexDigits(bytes[0] / 16);
      HexDigits(bytes[0] % 16);
    }
  }

  lemma Nibbles(i: nat, j: nat)
    requires i < 16 && j < 16
    ensures 16 * i + j < 256 && (16 * i + j) / 16 == i && (16 * i + j) % 16 == j
  {
  }

  lemma FirstTwo(s: string)
    requires |s| >= 2
    ensures s == [s[0], s[1]] + s[2..]
  {
  }

  lemma NoBytes()
    ensures HexOf([]) == ""
  {
  }

  lemma OneByte(b: nat, more: seq<nat>)
    requires b < 256 && forall x | x in more :: x < 256
    ensures HexOf([b] + more) == [HEX[b / 16], HEX[b % 16]] + HexOf(more)
  {
    assert ([b] + more)[1..] == more;
  }

  lemma {:induction false} ReadHex(s: string) returns (bytes: seq<nat>)
    requires |s| % 2 == 0 && forall c | c in s :: LowerHex(c)
    ensures (forall b | b in bytes :: b < 256) && HexOf(bytes) == s
  {
    hide HexOf, LowerHex;
    if s == "" {
      bytes := [];
      assert HexOf([]) == "" by { NoBytes(); }
    } else {
      assert s[0] in s && s[1] in s && forall c | c in s[2..] :: c in s;
      var more := ReadHex(s[2..]);
      var i := HexPlace(s[0]);
      var j := HexPlace(s[1]);
      Nibbles(i, j);
      bytes := [16 * i + j] + more;
      OneByte(16 * i + j, more);
      FirstTwo(s);
    }
  }

  // A digest is the hexadecimal form of 32 bytes.
  lemma HashIsExact(s: string)
    ensures IsHash(s) <==> exists bytes :: |bytes| == 32 && (forall b | b in bytes :: b < 256) && HexOf(bytes) == s
  {
    if IsHash(s) {
      assert forall c | c in s :: LowerHex(c);
      var bytes := ReadHex(s);
      HexOfIs(bytes);
    }
    if bytes :| |bytes| == 32 && (forall b | b in bytes :: b < 256) && HexOf(bytes) == s {
      HexOfIs(bytes);
    }
  }
}
