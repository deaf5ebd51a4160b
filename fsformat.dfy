/**
 * The repository's own binary export format (`_export`/`_import`, `export`/`import`,
 * `fullExport`/`fullImport` in src/fs.ts) over file trees taken as values. An object is a 10-byte
 * little-endian header (mode, uid, gid as 16 bits, size as 32 bits) followed by its payload: the
 * bytes of a regular file, the path of a symbolic link, or, for a directory, one record per entry
 * (a name-length byte, the UTF-8 name, the entry's own export).
 */
module FsFormat {
  import opened Wrappers
  import opened Text
  import opened Bits
  import Utf8
  import OrdMap
  import opened FsMode
  import opened FsNode

  /** A file tree as the exporter sees it; a directory's entries are in insertion order. */
  datatype Tree =
    | File(meta: Meta, data: seq<byte>)
    | Link(meta: Meta, path: string)
    | Dev(meta: Meta)
    | Folder(meta: Meta, entries: seq<(string, Tree)>)

  const DATAVIEW_RANGE: string := "Offset is outside the bounds of the DataView"
  const SET_RANGE: string := "offset is out of bounds"
  const EMPTY_REDUCE: string := "Reduce of empty array with no initial value"
  const NOT_EXPORTABLE: string := "devices are not exportable"
  const CURRENT_EXPORT_FORMAT_VERSION: byte := 1

  /** The `size` getter: bytes of a file, UTF-16 length of a link's path, entries of a directory. */
  function Size(t: Tree): nat
  {
    match t
    case File(_, data) => |data|
    case Link(_, path) => Utf16Length(path)
    case Dev(_) => 0
    case Folder(_, entries) => |entries|
  }

  /** `_export`: the 10-byte header. */
  function ExportHeader(m: Meta, size: int): (r: seq<byte>)
    ensures |r| == 10
  {
    U16Bytes(Low16(m.mode)) + U16Bytes(m.uid) + U16Bytes(m.gid) + U32Bytes(size)
  }

  function Zeros(n: nat): (r: seq<byte>)
    ensures |r| == n && forall i :: 0 <= i < n ==> r[i] == 0
  {
    if n == 0 then [] else [0] + Zeros(n - 1)
  }

  /** `export()` of any object. */
  function Export(t: Tree): (r: Result<seq<byte>>)
    decreases t, 1
  {
    match t
    case File(m, data) => Ok(ExportHeader(m, |data|) + data)
    case Link(m, path) =>
      // The buffer is sized by the UTF-16 length; a longer UTF-8 encoding does not fit.
      var bytes := Utf8.Encode(path);
      if |bytes| <= Utf16Length(path) then Ok(ExportHeader(m, Utf16Length(path)) + bytes + Zeros(Utf16Length(path) - |bytes|))
      else Err(SET_RANGE)
    case Dev(_) => Err(NOT_EXPORTABLE)
    case Folder(m, entries) =>
      // The children are exported first; summing their sizes with `reduce` fails when there are none.
      match ExportFrom(t, 0)
      case Err(e) => Err(e)
      case Ok(body) => if |entries| == 0 then Err(EMPTY_REDUCE) else Ok(ExportHeader(m, |entries|) + body)
  }

  /** The records of the entries of directory `t` from the `i`-th on. */
  function ExportFrom(t: Tree, i: nat): (r: Result<seq<byte>>)
    requires t.Folder? && i <= |t.entries|
    decreases t, 0, |t.entries| - i
  {
    if i == |t.entries| then Ok([])
    else
      assert t.entries[i] in t.entries;
      var (name, child) := t.entries[i];
      var nameBytes := Utf8.Encode(name);
      match Export(child)
      case Err(e) => Err(e)
      case Ok(data) =>
        match ExportFrom(t, i + 1)
        case Err(e) => Err(e)
        case Ok(rest) => Ok([|nameBytes| % 256] + nameBytes + data + rest)
  }

  /** `fullExport()`: the version byte, then the export. */
  function FullExport(t: Tree): Result<seq<byte>>
  {
    match Export(t)
    case Err(e) => Err(e)
    case Ok(data) => Ok([CURRENT_EXPORT_FORMAT_VERSION] + data)
  }

  /** The fields `_import` reads. */
  datatype HeaderFields = HeaderFields(mode: nat, uid: nat, gid: nat, size: nat)

  /** `_import`: a `DataView` over fewer than 10 bytes refuses the reads. */
  function ImportHeader(data: seq<byte>): (r: Result<HeaderFields>)
    ensures r.Ok? <==> |data| >= 10
    ensures r.Ok? ==> r.value.mode < 0x1_0000 && r.value.uid < 0x1_0000 && r.value.gid < 0x1_0000 && r.value.size < TWO_32
  {
    if |data| < 10 then Err(DATAVIEW_RANGE)
    else Ok(HeaderFields(U16At(data, 0), U16At(data, 2), U16At(data, 4), U32At(data, 6)))
  }

  /** The metadata of an imported object of kind `kind`: no links, all timestamps 0. */
  function ImportedMeta(h: HeaderFields, kind: bv32): Meta
    requires h.mode < 0x1_0000
  {
    Meta(StoredMode(h.mode, kind), 0, h.uid, h.gid, ZERO_TIMES)
  }

  /** The mode of an imported object: the 16 stored bits with the kind's type bit ORed in. */
  function StoredMode(mode: nat, kind: bv32): bv32
    requires mode < 0x1_0000
  {
    (mode as bv32) | kind
  }

  /** `RegularFile.import`: the header, then `size` bytes (fewer if the data ends first). */
  function ImportRegular(data: seq<byte>): (r: Result<Tree>)
    ensures r.Ok? <==> |data| >= 10
    ensures r.Ok? ==> r.value.File? && |r.value.data| <= |data| - 10
  {
    match ImportHeader(data)
    case Err(e) => Err(e)
    case Ok(h) => Ok(File(ImportedMeta(h, S_IFREG), Slice(data, 10, 10 + h.size)))
  }

  /**
   * `Directory.import`: the header, then `size` entry records read from offset 10. Entries are
   * put into a `Map`, so a repeated name keeps its first place and its last value.
   */
  function ImportDirectory(data: seq<byte>): (r: Result<Tree>)
    ensures r.Ok? ==> r.value.Folder?
    decreases |data|, 3, 0
  {
    match ImportHeader(data)
    case Err(e) => Err(e)
    case Ok(h) =>
      match ImportEntries(data, 10, h.size)
      case Err(e) => Err(e)
      case Ok(entries) => Ok(Folder(ImportedMeta(h, S_IFDIR), OrdMap.FromEntries(entries)))
  }

  /**
   * `count` entry records read from `offset` on. Each record's object is imported from its header
   * and the `size` bytes the header states; the next record starts right after those, which is past
   * the payload only for a regular file.
   */
  function ImportEntries(data: seq<byte>, offset: nat, count: nat): (r: Result<seq<(string, Tree)>>)
    decreases |data|, 1, count
  {
    if count == 0 then Ok([])
    else
      match ReadRecord(data, offset)
      case Err(e) => Err(e)
      case Ok((nameBytes, h, start)) =>
        match ImportChild(h.mode, Slice(data, start, start + 10 + h.size))
        case Err(e) => Err(e)
        case Ok(child) =>
          match ImportEntries(data, start + 10 + h.size, count - 1)
          case Err(e) => Err(e)
          case Ok(rest) => Ok([(Utf8.Decode(nameBytes), child)] + rest)
  }

  /**
   * The head of the entry record at `offset`: the bytes of its name, its header, and the offset
   * the header starts at.
   */
  function ReadRecord(data: seq<byte>, offset: nat): (r: Result<(seq<byte>, HeaderFields, nat)>)
    ensures r.Ok? ==> r.value.1.mode < 0x1_0000 && offset < r.value.2 <= offset + 256
  {
    // Past the end `data[offset]` is `undefined`, every later offset `NaN`, and the header is read from no bytes.
    if offset >= |data| then Err(DATAVIEW_RANGE)
    else
      var nameStart := offset + 1;
      var nameEnd := nameStart + data[offset];
      var nameBytes := Slice(data, nameStart, nameEnd);
      match ImportHeader(Slice(data, nameEnd, nameEnd + 10))
      case Err(e) => Err(e)
      case Ok(h) => Ok((nameBytes, h, nameEnd))
  }

  /**
   * `(mode & S_IFREG) === S_IFREG` for a 16-bit mode: `S_IFREG` is the top bit, so it is set
   * exactly when the mode is at least 0x8000 (see `ModeTests`).
   */
  predicate IsRegularMode(mode: nat)
  {
    mode >= 0x8000
  }

  /** `(mode & S_IFDIR) === S_IFDIR` for a 16-bit mode without `S_IFREG`: bit 14 is then the top bit. */
  predicate IsDirectoryMode(mode: nat)
  {
    mode >= 0x4000
  }

  /** The object of an entry, by the mode in its header; the regular-file bit is tested first. */
  function ImportChild(mode: nat, fileData: seq<byte>): (r: Result<Tree>)
    requires mode < 0x1_0000
    decreases |fileData|, 4, 0
  {
    if IsRegularMode(mode) then ImportRegular(fileData)
    else if IsDirectoryMode(mode) then ImportDirectory(fileData)
    else Err("invalid file mode: " + IntToString(mode))
  }

  /** `fullImport`: the first byte is taken as the version and otherwise ignored. */
  function FullImport(data: seq<byte>): Result<Tree>
  {
    ImportDirectory(SliceFrom(data, 1))
  }

  /** The metadata an exported object comes back with: the 16 stored bits of each field, no links, zero timestamps. */
  function Reimport(m: Meta, kind: bv32): (r: Meta)
  {
    Meta(StoredMode(Low16(m.mode), kind), 0, m.uid % 0x1_0000, m.gid % 0x1_0000, ZERO_TIMES)
  }

  /** What re-importing an exported regular file gives. */
  function ReimportFile(t: Tree): Tree
  {
    if t.File? then File(Reimport(t.meta, S_IFREG), t.data) else t
  }

  /** What re-importing the exported entries of a directory whose entries are all regular files gives. */
  function ReimportFiles(es: seq<(string, Tree)>): (r: seq<(string, Tree)>)
    ensures |r| == |es|
  {
    seq(|es|, k requires 0 <= k < |es| => (es[k].0, ReimportFile(es[k].1)))
  }

  /** The header fields read back are those written, each modulo its width. */
  lemma HeaderRoundTrip(m: Meta, size: int, rest: seq<byte>)
    ensures ImportHeader(ExportHeader(m, size) + rest)
         == Ok(HeaderFields(Low16(m.mode), m.uid % 0x1_0000, m.gid % 0x1_0000, size % TWO_32))
  {
    FieldsAt(U16Bytes(Low16(m.mode)), U16Bytes(m.uid), U16Bytes(m.gid), U32Bytes(size), rest);
    U16Value(Low16(m.mode));
    U16Value(m.uid);
    U16Value(m.gid);
    U32Value(size);
  }

  lemma SliceMiddle(pre: seq<byte>, mid: seq<byte>, post: seq<byte>)
    ensures Slice(pre + mid + post, |pre|, |pre| + |mid|) == mid
  {
    SliceOfNat(pre + mid + post, |pre|, |pre| + |mid|);
    assert (pre + mid + post)[|pre|..|pre| + |mid|] == mid;
  }

  /** An object imported from a header holding the stored bits of `m` gets `Reimport(m, kind)`. */
  lemma ReimportedMeta(h: HeaderFields, m: Meta, kind: bv32)
    requires h.mode == Low16(m.mode) && h.uid == m.uid % 0x1_0000 && h.gid == m.gid % 0x1_0000
    ensures h.mode < 0x1_0000 && ImportedMeta(h, kind) == Reimport(m, kind)
  {
  }

  /** A regular file comes back with its bytes, its 16-bit mode, uid and gid, and zero timestamps. */
  lemma RegularRoundTrip(m: Meta, data: seq<byte>)
    requires |data| < TWO_32
    ensures Export(File(m, data)).Ok?
    ensures ImportRegular(Export(File(m, data)).value) == Ok(File(Reimport(m, S_IFREG), data))
  {
    var bytes := ExportHeader(m, |data|) + data;
    HeaderRoundTrip(m, |data|, data);
    SliceMiddle(ExportHeader(m, |data|), data, []);
    assert bytes + [] == bytes;
    ReimportedMeta(ImportHeader(bytes).value, m, S_IFREG);
  }

  /**
   * An entry that survives the trip through a directory: a regular file whose stored 16-bit mode
   * has the regular-file bit, whose size fits the 32-bit field, and whose name encodes to fewer
   * than 256 bytes and does not start with a byte order mark.
   */
  predicate FlatEntry(e: (string, Tree))
  {
    && e.1.File? && |e.1.data| < TWO_32 && IsRegularMode(Low16(e.1.meta.mode))
    && |Utf8.Encode(e.0)| < 256 && (|e.0| == 0 || e.0[0] != Utf8.BOM)
  }

  /** Every entry from the `i`-th on is flat. */
  predicate FlatFrom(es: seq<(string, Tree)>, i: nat)
    decreases |es| - i
  {
    i >= |es| || (FlatEntry(es[i]) && FlatFrom(es, i + 1))
  }

  /** The record `export` writes for one entry. */
  function Record(name: string, bytes: seq<byte>): seq<byte>
  {
    var nb := Utf8.Encode(name);
    [|nb| % 256] + nb + bytes
  }

  /**
   * `s` lies in `data` from `offset` on, checked byte by byte so that a fact about a long record
   * is unfolded only as far as a proof asks.
   */
  predicate At(data: seq<byte>, offset: nat, s: seq<byte>)
    decreases |s|
  {
    if |s| == 0 then offset <= |data|
    else offset < |data| && data[offset] == s[0] && At(data, offset + 1, s[1..])
  }

  /** `At` is the slice of `data` from `offset` being `s`. */
  lemma {:induction false} AtSlice(data: seq<byte>, offset: nat, s: seq<byte>)
    ensures At(data, offset, s) <==> offset + |s| <= |data| && data[offset..offset + |s|] == s
    decreases |s|
  {
    if |s| > 0 {
      AtSlice(data, offset + 1, s[1..]);
      if offset + |s| <= |data| {
        assert data[offset..offset + |s|] == [data[offset]] + data[offset + 1..offset + 1 + |s[1..]|];
        assert s == [s[0]] + s[1..];
      }
    }
  }

  /** The two halves of a concatenation lying in `data` lie there one after the other. */
  lemma {:induction false} AtSplit(data: seq<byte>, offset: nat, a: seq<byte>, b: seq<byte>)
    requires At(data, offset, a + b)
    ensures At(data, offset, a) && At(data, offset + |a|, b)
    decreases |a|
  {
    if |a| == 0 {
      assert a + b == b;
      AtSlice(data, offset, b);
    } else {
      assert (a + b)[0] == a[0] && (a + b)[1..] == a[1..] + b;
      AtSplit(data, offset + 1, a[1..], b);
    }
  }

  /** What follows a prefix lying in `data`, at the offset the prefix ends at. */
  lemma AtRest(data: seq<byte>, offset: nat, a: seq<byte>, b: seq<byte>) returns (mid: nat)
    requires At(data, offset, a + b)
    ensures mid == offset + |a| && At(data, mid, b)
  {
    AtSplit(data, offset, a, b);
    mid := offset + |a|;
  }

  lemma SmallMod(n: nat)
    requires n < TWO_32
    ensures n % TWO_32 == n
    ensures n < 256 ==> n % 256 == n
  {
  }

  /** What the header of an exported regular file reads back as. */
  function FileHeader(child: Tree): HeaderFields
    requires child.File?
  {
    HeaderFields(Low16(child.meta.mode), child.meta.uid % 0x1_0000, child.meta.gid % 0x1_0000, |child.data|)
  }

  /** A regular file exports as a header that reads back as `FileHeader`, then its bytes; the whole imports as the re-imported file. */
  lemma FileExport(child: Tree) returns (hdr: seq<byte>)
    requires child.File? && |child.data| < TWO_32 && IsRegularMode(Low16(child.meta.mode))
    ensures |hdr| == 10 && Export(child) == Ok(hdr + child.data)
    ensures ImportHeader(hdr) == Ok(FileHeader(child))
    ensures ImportRegular(hdr + child.data) == Ok(ReimportFile(child))
    ensures IsRegularMode(FileHeader(child).mode) && FileHeader(child).size == |child.data|
  {
    hdr := ExportHeader(child.meta, |child.data|);
    HeaderRoundTrip(child.meta, |child.data|, []);
    assert hdr + [] == hdr;
    SmallMod(|child.data|);
    RegularRoundTrip(child.meta, child.data);
  }

  /** The head of a record is read back as its name bytes and its header, given what the header reads as. */
  lemma RecordRead(data: seq<byte>, offset: nat, nameEnd: nat, nb: seq<byte>, hdr: seq<byte>, h: HeaderFields)
    requires offset < |data| && nameEnd == offset + 1 + data[offset]
    requires Slice(data, offset + 1, nameEnd) == nb && Slice(data, nameEnd, nameEnd + 10) == hdr
    requires ImportHeader(hdr) == Ok(h)
    ensures ReadRecord(data, offset) == Ok((nb, h, nameEnd))
  {
  }

  /** A record whose parts lie in `data` is read back as its name bytes and header, and its payload is the header and body. */
  lemma RecordLaidOut(data: seq<byte>, offset: nat, nb: seq<byte>, hdr: seq<byte>, body: seq<byte>, h: HeaderFields)
    returns (start: nat)
    requires |nb| < 256 && |hdr| == 10
    requires At(data, offset, [|nb|] + nb + (hdr + body))
    requires ImportHeader(hdr) == Ok(h) && h.size == |body|
    ensures start == offset + 1 + |nb|
    ensures ReadRecord(data, offset) == Ok((nb, h, start))
    ensures Slice(data, start, start + 10 + h.size) == hdr + body
    ensures start + 10 + h.size == offset + |[|nb|] + nb + (hdr + body)|
  {
    AtSplit(data, offset, [|nb|] + nb, hdr + body);
    AtSplit(data, offset, [|nb|], nb);
    start := offset + 1 + |nb|;
    AtSplit(data, start, hdr, body);
    AtSlice(data, offset + 1, nb);
    AtSlice(data, start, hdr);
    AtSlice(data, start, hdr + body);
    SliceOfNat(data, offset + 1, start);
    SliceOfNat(data, start, start + 10);
    SliceOfNat(data, start, start + 10 + |body|);
    RecordRead(data, offset, start, nb, hdr, h);
  }

  /**
   * One flat entry's record lying in `data` is read back as its name's bytes, the header of the
   * file, and a payload that imports as the re-imported file; the record ends where the header's
   * size says.
   */
  lemma RecordRoundTrip(data: seq<byte>, offset: nat, e: (string, Tree)) returns (h: HeaderFields, start: nat, hdr: seq<byte>)
    requires FlatEntry(e)
    requires Export(e.1).Ok? && At(data, offset, Record(e.0, Export(e.1).value))
    ensures h == FileHeader(e.1) && start == offset + 1 + |Utf8.Encode(e.0)|
    ensures ReadRecord(data, offset) == Ok((Utf8.Encode(e.0), h, start))
    ensures h.mode < 0x1_0000 && IsRegularMode(h.mode)
    ensures Slice(data, start, start + 10 + h.size) == hdr + e.1.data && ImportRegular(hdr + e.1.data) == Ok(ReimportFile(e.1))
    ensures start + 10 + h.size == offset + |Record(e.0, Export(e.1).value)|
  {
    var nb := Utf8.Encode(e.0);
    h := FileHeader(e.1);
    hdr := FileExport(e.1);
    SmallMod(|nb|);
    assert Record(e.0, hdr + e.1.data) == [|nb|] + nb + (hdr + e.1.data);
    start := RecordLaidOut(data, offset, nb, hdr, e.1.data, h);
  }

  /**
   * `ImportChild(mode, fileData)` succeeds with `c`. Stated through this predicate, the facts
   * about one entry are compared as they are rather than unfolded through the recursive import.
   */
  predicate ChildIs(mode: nat, fileData: seq<byte>, c: Tree)
    requires mode < 0x1_0000
  {
    ImportChild(mode, fileData) == Ok(c)
  }

  /** Where a run of entry records starts, and how many of them are read. */
  datatype Cursor = Cursor(offset: nat, count: nat)

  /**
   * Reading `at.count` records from `at.offset` succeeds with `es`. The position is one value so
   * that two positions shown equal field by field make the two facts the same fact.
   */
  predicate EntriesAre(data: seq<byte>, at: Cursor, es: seq<(string, Tree)>)
  {
    ImportEntries(data, at.offset, at.count) == Ok(es)
  }

  /** An entry whose mode has the regular-file bit is imported as a regular file. */
  lemma RegularChild(mode: nat, fileData: seq<byte>, t: Tree)
    requires mode < 0x1_0000 && IsRegularMode(mode) && ImportRegular(fileData) == Ok(t)
    ensures ChildIs(mode, fileData, t)
  {
  }

  /** Reading `count` records is reading one record's head and object, then `count - 1` records after it. */
  lemma EntriesStep(data: seq<byte>, offset: nat, nb: seq<byte>, h: HeaderFields, start: nat, c: Tree, count: nat, rest: seq<(string, Tree)>)
    requires count >= 1 && ReadRecord(data, offset) == Ok((nb, h, start))
    requires h.mode < 0x1_0000 && ChildIs(h.mode, Slice(data, start, start + 10 + h.size), c)
    requires EntriesAre(data, Cursor(start + 10 + h.size, count - 1), rest)
    ensures EntriesAre(data, Cursor(offset, count), [(Utf8.Decode(nb), c)] + rest)
  {
  }

  /** No records are read as no entries. */
  lemma EntriesNone(data: seq<byte>, offset: nat)
    ensures EntriesAre(data, Cursor(offset, 0), [])
  {
  }

  /** The re-imported entries from the `i`-th on are the `i`-th one, then those after it. */
  lemma FilesStep(es: seq<(string, Tree)>, i: nat, j: nat)
    requires i < |es| && j == i + 1 && Utf8.Decode(Utf8.Encode(es[i].0)) == es[i].0
    ensures [(Utf8.Decode(Utf8.Encode(es[i].0)), ReimportFile(es[i].1))] + ReimportFiles(es[j..]) == ReimportFiles(es[i..])
  {
    assert es[i..][0] == es[i] && es[i..][1..] == es[j..];
  }

  /** The export of the entries from the `i`-th on is the first one's record, then the rest. */
  lemma {:induction false} ExportFromFlat(t: Tree, i: nat)
    requires t.Folder? && i <= |t.entries|
    requires FlatFrom(t.entries, i)
    ensures ExportFrom(t, i).Ok?
    ensures i < |t.entries| ==>
      && Export(t.entries[i].1).Ok?
      && ExportFrom(t, i) == Ok(Record(t.entries[i].0, Export(t.entries[i].1).value) + ExportFrom(t, i + 1).value)
    decreases |t.entries| - i
  {
    if i < |t.entries| {
      ExportFromFlat(t, i + 1);
      var (name, child) := t.entries[i];
      var _ := FileExport(child);
      SmallMod(|Utf8.Encode(name)|);
    }
  }

  /** The first of the records of entries `i` on is read back, and the others lie right after it. */
  lemma EntryAt(t: Tree, i: nat, data: seq<byte>, offset: nat) returns (h: HeaderFields, start: nat)
    requires t.Folder? && i < |t.entries|
    requires FlatFrom(t.entries, i)
    requires ExportFrom(t, i).Ok? && At(data, offset, ExportFrom(t, i).value)
    ensures ReadRecord(data, offset) == Ok((Utf8.Encode(t.entries[i].0), h, start))
    ensures h.mode < 0x1_0000 && ChildIs(h.mode, Slice(data, start, start + 10 + h.size), ReimportFile(t.entries[i].1))
    ensures start + 10 + h.size == offset + |Record(t.entries[i].0, Export(t.entries[i].1).value)|
  {
    var e := t.entries[i];
    ExportFromFlat(t, i);
    var rec := Record(e.0, Export(e.1).value);
    AtSplit(data, offset, rec, ExportFrom(t, i + 1).value);
    var hdr;
    h, start, hdr := RecordRoundTrip(data, offset, e);
    RegularChild(h.mode, Slice(data, start, start + 10 + h.size), ReimportFile(e.1));
  }

  /*
   * The lemmas below take the index of the next entry as its own parameter `j` rather than
   * writing `i + 1`, so that the facts they state about the entries from `j` on are the very
   * ones the induction step states.
   */

  /**
   * The record of entry `i` is read back, and the records of the entries from `j = i + 1` on lie
   * right after it, at `next`.
   */
  lemma EntryEnd(t: Tree, i: nat, j: nat, data: seq<byte>, offset: nat) returns (h: HeaderFields, start: nat, next: nat)
    requires t.Folder? && i < |t.entries| && j == i + 1
    requires FlatFrom(t.entries, i)
    requires ExportFrom(t, i).Ok? && At(data, offset, ExportFrom(t, i).value)
    ensures ReadRecord(data, offset) == Ok((Utf8.Encode(t.entries[i].0), h, start))
    ensures h.mode < 0x1_0000 && ChildIs(h.mode, Slice(data, start, start + 10 + h.size), ReimportFile(t.entries[i].1))
    ensures next == start + 10 + h.size
    ensures FlatFrom(t.entries, j)
    ensures ExportFrom(t, j).Ok? && At(data, next, ExportFrom(t, j).value)
  {
    h, start := EntryAt(t, i, data, offset);
    next := AtRest(data, offset, Record(t.entries[i].0, Export(t.entries[i].1).value), ExportFrom(t, j).value);
  }

  /**
   * Entry `i` is read back, followed by the entries from `j = i + 1` on once those are; `count`
   * and `n` are the numbers of entries from `i` and from `j` on.
   */
  lemma EntryStep(es: seq<(string, Tree)>, i: nat, j: nat, count: nat, n: nat, data: seq<byte>, offset: nat, h: HeaderFields, start: nat, next: nat)
    requires i < |es| && j == i + 1 && count == |es| - i && n == |es| - j && FlatEntry(es[i])
    requires ReadRecord(data, offset) == Ok((Utf8.Encode(es[i].0), h, start))
    requires h.mode < 0x1_0000 && ChildIs(h.mode, Slice(data, start, start + 10 + h.size), ReimportFile(es[i].1))
    requires next == start + 10 + h.size
    requires EntriesAre(data, Cursor(next, n), ReimportFiles(es[j..]))
    ensures EntriesAre(data, Cursor(offset, count), ReimportFiles(es[i..]))
  {
    var name := es[i].0;
    assert Cursor(next, n) == Cursor(start + 10 + h.size, count - 1);
    EntriesStep(data, offset, Utf8.Encode(name), h, start, ReimportFile(es[i].1), count, ReimportFiles(es[j..]));
    Utf8.DecodeEncode(name);
    FilesStep(es, i, j);
  }

  /** The records of flat entries lying in `data` are read back one by one; `count` is the number of entries from `i` on. */
  lemma {:induction false} EntriesRoundTrip(t: Tree, i: nat, count: nat, data: seq<byte>, offset: nat)
    requires t.Folder? && i <= |t.entries| && count == |t.entries| - i
    requires FlatFrom(t.entries, i)
    requires ExportFrom(t, i).Ok? && At(data, offset, ExportFrom(t, i).value)
    ensures EntriesAre(data, Cursor(offset, count), ReimportFiles(t.entries[i..]))
    decreases count
  {
    if count == 0 {
      EntriesNone(data, offset);
      assert ReimportFiles(t.entries[i..]) == [];
    } else {
      var j := i + 1;
      var n := count - 1;
      var h, start, next := EntryEnd(t, i, j, data, offset);
      EntriesRoundTrip(t, j, n, data, next);
      EntryStep(t.entries, i, j, count, n, data, offset, h, start, next);
    }
  }

  /** Re-importing keeps the names, so distinct names stay distinct. */
  lemma ReimportFilesDistinct(es: seq<(string, Tree)>)
    requires OrdMap.Distinct(es)
    ensures OrdMap.Distinct(ReimportFiles(es))
  {
    var r := ReimportFiles(es);
    forall i, j | 0 <= i < j < |r|
      ensures r[i].0 != r[j].0
    {
      assert r[i].0 == es[i].0 && r[j].0 == es[j].0;
    }
  }

  lemma AtAfter(a: seq<byte>, b: seq<byte>, offset: nat)
    requires offset == |a|
    ensures At(a + b, offset, b)
  {
    AtSlice(a + b, offset, b);
    assert (a + b)[offset..offset + |b|] == b;
  }

  /** A non-empty flat directory exports as a header stating its entry count, then its records. */
  lemma DirectoryLaidOut(t: Tree) returns (data: seq<byte>, count: nat)
    requires t.Folder? && 0 < |t.entries| < TWO_32
    requires FlatFrom(t.entries, 0)
    ensures count == |t.entries| && Export(t) == Ok(data)
    ensures ImportHeader(data) == Ok(HeaderFields(Low16(t.meta.mode), t.meta.uid % 0x1_0000, t.meta.gid % 0x1_0000, count))
    ensures ExportFrom(t, 0).Ok? && At(data, 10, ExportFrom(t, 0).value)
  {
    ExportFromFlat(t, 0);
    var body := ExportFrom(t, 0).value;
    count := |t.entries|;
    data := ExportHeader(t.meta, count) + body;
    HeaderRoundTrip(t.meta, count, body);
    SmallMod(count);
    AtAfter(ExportHeader(t.meta, count), body, 10);
  }

  /** A header followed by records that read back as entries with distinct names imports as a directory of them. */
  lemma DirectoryOf(data: seq<byte>, h: HeaderFields, es: seq<(string, Tree)>)
    requires ImportHeader(data) == Ok(h) && EntriesAre(data, Cursor(10, h.size), es) && OrdMap.Distinct(es)
    ensures h.mode < 0x1_0000 && ImportDirectory(data) == Ok(Folder(ImportedMeta(h, S_IFDIR), es))
  {
    OrdMap.FromDistinctEntries(es);
  }

  /**
   * A non-empty directory with distinct names whose entries are all flat comes back with the
   * re-imported entries in the same order, its 16-bit mode with `S_IFDIR`, and zero timestamps.
   */
  lemma DirectoryRoundTrip(t: Tree)
    requires t.Folder? && 0 < |t.entries| < TWO_32
    requires FlatFrom(t.entries, 0) && OrdMap.Distinct(t.entries)
    ensures Export(t).Ok?
    ensures ImportDirectory(Export(t).value) == Ok(Folder(Reimport(t.meta, S_IFDIR), ReimportFiles(t.entries)))
  {
    var data, count := DirectoryLaidOut(t);
    var h := ImportHeader(data).value;
    EntriesRoundTrip(t, 0, count, data, 10);
    assert Cursor(10, count) == Cursor(10, h.size);
    assert t.entries[0..] == t.entries;
    ReimportFilesDistinct(t.entries);
    DirectoryOf(data, h, ReimportFiles(t.entries));
    ReimportedMeta(h, t.meta, S_IFDIR);
  }

  /** A 16-bit value compared with 0x8000 compares the same way as a number. */
  lemma Bit15AsInt(b: bv16)
    ensures b < 0x8000 ==> (b as int) < 0x8000
    ensures b >= 0x8000 ==> (b as int) >= 0x8000
  {
    if b < 0x8000 {
      var low := b as bv15;
      assert low as int == b as int;
    }
  }

  /** A 16-bit value compared with 0x4000 compares the same way as a number. */
  lemma Bit14AsInt(b: bv16)
    ensures b < 0x4000 ==> (b as int) < 0x4000
    ensures b >= 0x4000 ==> (b as int) >= 0x4000
  {
    if b < 0x4000 {
      var low := b as bv14;
      assert low as int == b as int;
    }
  }

  /**
   * On the 16 bits the exporter stores, `IsRegularMode` is the importer's test
   * `(mode & S_IFREG) === S_IFREG` and, when that fails, `IsDirectoryMode` is
   * `(mode & S_IFDIR) === S_IFDIR`. A symbolic link's type `S_IFLNK` passes the regular-file test.
   */
  lemma ModeTests(v: bv32)
    ensures IsRegularMode(Low16(v)) <==> v & S_IFREG == S_IFREG
    ensures !IsRegularMode(Low16(v)) ==> (IsDirectoryMode(Low16(v)) <==> v & S_IFDIR == S_IFDIR)
    ensures v & S_IMFT == S_IFLNK ==> IsRegularMode(Low16(v))
  {
    var b := (v & 0xFFFF) as bv16;
    Bit15AsInt(b);
    Bit14AsInt(b);
  }

  /** A symbolic link exports its UTF-8 path padded with zeros to the path's UTF-16 length, or fails when that is too short. */
  lemma LinkExport(m: Meta, path: string)
    ensures Export(Link(m, path)).Ok? <==> |Utf8.Encode(path)| <= Utf16Length(path)
    ensures Export(Link(m, path)).Err? ==> Export(Link(m, path)) == Err(SET_RANGE)
    ensures Export(Link(m, path)).Ok? ==>
      Export(Link(m, path)) == Export(File(m, Utf8.Encode(path) + Zeros(Utf16Length(path) - |Utf8.Encode(path)|)))
  {
    var bytes := Utf8.Encode(path);
    if |bytes| <= Utf16Length(path) {
      var pad := Zeros(Utf16Length(path) - |bytes|);
      assert ExportHeader(m, Utf16Length(path)) + bytes + pad == ExportHeader(m, |bytes + pad|) + (bytes + pad);
    }
  }

  /**
   * A symbolic link inside an exported directory is read back as a regular file: its type bits
   * pass the regular-file test, which comes first, and the file holds the bytes the link wrote.
   */
  lemma LinkReimportsAsFile(m: Meta, path: string)
    requires m.mode & S_IMFT == S_IFLNK && Utf16Length(path) < TWO_32
    requires Export(Link(m, path)).Ok?
    ensures ImportChild(Low16(m.mode), Export(Link(m, path)).value)
         == Ok(File(Reimport(m, S_IFREG), Utf8.Encode(path) + Zeros(Utf16Length(path) - |Utf8.Encode(path)|)))
  {
    ModeTests(m.mode);
    LinkExport(m, path);
    RegularRoundTrip(m, Utf8.Encode(path) + Zeros(Utf16Length(path) - |Utf8.Encode(path)|));
  }

  /** The records from the `i`-th on fail to export when the `k`-th entry does. */
  lemma {:induction false} ExportFromFails(t: Tree, i: nat, k: nat)
    requires t.Folder? && i <= k < |t.entries| && Export(t.entries[k].1).Err?
    ensures ExportFrom(t, i).Err?
    decreases k - i
  {
    if i < k {
      ExportFromFails(t, i + 1, k);
    }
  }

  /** A directory holding a device anywhere among its entries cannot be exported; an empty one cannot either. */
  lemma ExportRefusals(t: Tree, k: nat)
    requires t.Folder? && k < |t.entries| && t.entries[k].1.Dev?
    ensures Export(t).Err?
    ensures Export(t.entries[k].1) == Err(NOT_EXPORTABLE)
    ensures Export(Folder(t.meta, [])) == Err(EMPTY_REDUCE)
  {
    ExportFromFails(t, 0, k);
  }

  /** `fullExport` puts the version byte first; `fullImport` ignores it and imports the rest. */
  lemma FullRoundTrip(t: Tree)
    requires Export(t).Ok?
    ensures FullExport(t).Ok? && FullExport(t).value[0] == CURRENT_EXPORT_FORMAT_VERSION
    ensures FullImport(FullExport(t).value) == ImportDirectory(Export(t).value)
  {
    var data := Export(t).value;
    var full := [CURRENT_EXPORT_FORMAT_VERSION] + data;
    assert FullExport(t) == Ok(full);
    SliceOfNat(full, 1, |full|);
    assert full[1..] == data;
    assert SliceFrom(full, 1) == data;
  }

  /** A directory and a regular file of default permissions, owned by root. */
  const DIR_META: Meta := Meta(0x41ED, 1, 0, 0, ZERO_TIMES)
  const FILE_META: Meta := Meta(0x81A4, 1, 0, 0, ZERO_TIMES)
  const DIR_HEADER: seq<byte> := [0xED, 0x41, 0, 0, 0, 0, 1, 0, 0, 0]
  const FILE_HEADER: seq<byte> := [0xA4, 0x81, 0, 0, 0, 0, 0, 0, 0, 0]

  lemma NestedHeaders()
    ensures ExportHeader(DIR_META, 1) == DIR_HEADER && ExportHeader(FILE_META, 0) == FILE_HEADER
  {
    assert Low16(DIR_META.mode) == 0x41ED && Low16(FILE_META.mode) == 0x81A4;
  }

  /** A directory whose one entry "f" is an empty file. */
  lemma InnerExport(inner: Tree)
    requires inner == Folder(DIR_META, [("f", File(FILE_META, []))])
    ensures Export(inner) == Ok(DIR_HEADER + ([1, 102] + FILE_HEADER))
  {
    NestedHeaders();
    assert Utf8.Encode("f") == [102];
    assert Export(inner.entries[0].1) == Ok(FILE_HEADER + []);
    assert ExportFrom(inner, 1) == Ok([]);
    assert ExportFrom(inner, 0) == Ok([1 % 256] + [102] + (FILE_HEADER + []) + []);
    assert [1 % 256] + [102] + (FILE_HEADER + []) + [] == [1, 102] + FILE_HEADER;
    assert |inner.entries| == 1;
    assert Export(inner) == Ok(ExportHeader(DIR_META, 1) + ([1, 102] + FILE_HEADER));
  }

  /** A directory whose one entry "d" is `inner`. */
  lemma OuterExport(inner: Tree, outer: Tree, innerBytes: seq<byte>)
    requires outer == Folder(DIR_META, [("d", inner)]) && Export(inner) == Ok(innerBytes)
    ensures Export(outer) == Ok(DIR_HEADER + ([1, 100] + innerBytes))
  {
    NestedHeaders();
    assert Utf8.Encode("d") == [100];
    assert ExportFrom(outer, 1) == Ok([]);
    assert ExportFrom(outer, 0) == Ok([1 % 256] + [100] + innerBytes + []);
    assert [1 % 256] + [100] + innerBytes + [] == [1, 100] + innerBytes;
    assert |outer.entries| == 1;
    assert Export(outer) == Ok(ExportHeader(DIR_META, 1) + ([1, 100] + innerBytes));
  }

  /** The bytes of a header stating one entry, a lone name-length byte after it, do not import. */
  lemma ShortInner(sub: seq<byte>)
    requires sub == DIR_HEADER + [1]
    ensures ImportDirectory(sub) == Err(DATAVIEW_RANGE)
  {
    assert ImportHeader(sub) == Ok(HeaderFields(0x41ED, 0, 0, 1));
    assert Slice(sub, 12, 22) == [];
    assert ReadRecord(sub, 10) == Err(DATAVIEW_RANGE);
  }

  /** Reading the nested export gives the inner directory 11 bytes, which do not import. */
  lemma NestedImport(data: seq<byte>)
    requires data == DIR_HEADER + ([1, 100] + (DIR_HEADER + ([1, 102] + FILE_HEADER)))
    ensures ImportDirectory(data) == Err(DATAVIEW_RANGE)
  {
    assert |data| == 34;
    assert ImportHeader(data) == Ok(HeaderFields(0x41ED, 0, 0, 1));
    assert data[10] == 1 && data[11] == 100;
    SliceOfNat(data, 12, 22);
    assert data[12..22] == DIR_HEADER;
    var h := HeaderFields(0x41ED, 0, 0, 1);
    assert ImportHeader(DIR_HEADER) == Ok(h);
    assert ReadRecord(data, 10) == Ok((Slice(data, 11, 12), h, 12));
    SliceOfNat(data, 12, 23);
    assert data[12..23] == DIR_HEADER + [1];
    ShortInner(Slice(data, 12, 23));
    assert ImportChild(h.mode, Slice(data, 12, 12 + 10 + h.size)) == Err(DATAVIEW_RANGE);
    assert ImportEntries(data, 10, 1) == Err(DATAVIEW_RANGE);
  }

  /**
   * The importer advances past a child by the size its header states, which for a directory is
   * its number of entries, not its length in bytes. A directory holding a directory that holds
   * an empty file therefore exports, but reading it back fails: the inner directory is given 11
   * of its 22 bytes and its first record runs past them.
   */
  lemma NestedDirectoryMisread()
    ensures Export(Folder(DIR_META, [("d", Folder(DIR_META, [("f", File(FILE_META, []))]))])).Ok?
    ensures ImportDirectory(Export(Folder(DIR_META, [("d", Folder(DIR_META, [("f", File(FILE_META, []))]))])).value) == Err(DATAVIEW_RANGE)
  {
    var inner := Folder(DIR_META, [("f", File(FILE_META, []))]);
    InnerExport(inner);
    var innerBytes := DIR_HEADER + ([1, 102] + FILE_HEADER);
    OuterExport(inner, Folder(DIR_META, [("d", inner)]), innerBytes);
    NestedImport(DIR_HEADER + ([1, 100] + innerBytes));
  }
}
