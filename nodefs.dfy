/**
 * The synchronous part of Node's `fs` module as the embedded runtime provides it
 * (plugins/node/src/modules/fs.ts): thin functions over the one `FileSystem` of the system.
 * Paths are looked up from the root; the process's working directory is a parameter. Each
 * operation is a function over the arena (and descriptor table) and a method on a
 * `FileSystem` object proved to do what the function says.
 */
module NodeFs {
  import opened Wrappers
  import opened Text
  import opened Bits
  import opened FsPath
  import opened FsNode
  import opened Vfs
  import FdTable
  import Utf8
  import NodePath
  import VfsFacts
  import FsFormat
  import OrdMap
  import opened FileSystems

  const COPYFILE_EXCL := 1
  const COPYFILE_FICLONE_FORCE := 4
  const COPY_ON_WRITE := "fake-node does not support copy-on-write"
  /** The `RangeError` of `DataView.setUint8` outside the view. */
  const VIEW_RANGE := "Offset is outside the bounds of the DataView"
  /** The `RangeError` of `TypedArray.set` when the source does not fit at the offset. */
  const SET_OFFSET := "offset is out of bounds"

  /** `(mode & bit) === bit` for a single-bit flag: the bit of `mode` as a 32-bit integer. */
  predicate HasBit(mode: int, bit: nat)
    requires bit == 1 || bit == 4
  {
    (mode % 0x1_0000_0000) / bit % 2 == 1
  }

  /** The `size` getter: bytes of a file, UTF-16 length of a link's path, entries of a directory, else 0. */
  function SizeOf(k: Kind): (n: nat)
    ensures k.Regular? ==> n == |k.data|
    ensures k.Directory? ==> n == |k.files|
    ensures k.Device? ==> n == 0
  {
    match k
    case Regular(data) => |data|
    case Symlink(path, _) => Utf16Length(path)
    case Device => 0
    case Directory(files, _) => |files|
  }

  // ---------------------------------------------------------------------------------------------
  // copyFileSync

  /**
   * `copyFileSync(src, dest, mode)`: with `COPYFILE_EXCL` an existing `dest` is refused; with
   * `COPYFILE_FICLONE_FORCE` every copy is; otherwise `dest` must already be a regular file and
   * the text of `src` (decoded and encoded again as UTF-8) is written over its start.
   */
  function CopyFile(a: Nodes, src: PathArg, dest: PathArg, mode: int, now: int): (r: Outcome<()>)
    requires Rooted(a)
    ensures Rooted(r.nodes) && r.nodes.Keys == a.Keys && (Relative(a) ==> Relative(r.nodes))
  {
    match CopyRefused(a, dest, mode)
    case Some(e) => Outcome(a, Err(e))
    case None => CopyInto(a, src, dest, now)
  }

  /** The checks `copyFileSync` makes before copying: `COPYFILE_EXCL` against an existing `dest`, then `COPYFILE_FICLONE_FORCE`. */
  function CopyRefused(a: Nodes, dest: PathArg, mode: int): (r: Option<string>)
    requires Rooted(a)
  {
    var excl := if HasBit(mode, COPYFILE_EXCL) then Exists(a, ROOT, dest) else Ok(false);
    if excl.Err? then Some(excl.msg)
    else if excl.value then Some(Shown(dest) + " exists")
    else if HasBit(mode, COPYFILE_FICLONE_FORCE) then Some(COPY_ON_WRITE)
    else None
  }

  /** `getRegular(dest).write(getRegular(src).read())`: `dest` is looked up first. */
  function CopyInto(a: Nodes, src: PathArg, dest: PathArg, now: int): (r: Outcome<()>)
    requires Rooted(a)
    ensures Rooted(r.nodes) && r.nodes.Keys == a.Keys && (Relative(a) ==> Relative(r.nodes))
  {
    match GetRegular(a, ROOT, dest)
    case Err(e) => Outcome(a, Err(e))
    case Ok(d) =>
      match GetRegular(a, ROOT, src)
      case Err(e) => Outcome(a, Err(e))
      case Ok(s) => WriteFile(a, d, Utf8.Encode(Utf8.Decode(a[s].kind.data)), None, None, now)
  }

  /**
   * The write in `copyFileSync` passes no position, so the text goes over the start of `dest`
   * without changing its length: the rest of `dest` stays in place.
   */
  lemma CopyFileOverwritesStart(a: Nodes, src: PathArg, dest: PathArg, mode: int, now: int, s: Id, d: Id)
    requires Rooted(a) && !HasBit(mode, COPYFILE_EXCL) && !HasBit(mode, COPYFILE_FICLONE_FORCE)
    requires GetRegular(a, ROOT, dest) == Ok(d) && GetRegular(a, ROOT, src) == Ok(s)
    requires |Utf8.Encode(Utf8.Decode(a[s].kind.data))| <= |a[d].kind.data|
    ensures CopyFile(a, src, dest, mode, now).result == Ok(())
    ensures CopyFile(a, src, dest, mode, now).nodes[d].kind.data
         == Utf8.Encode(Utf8.Decode(a[s].kind.data)) + a[d].kind.data[|Utf8.Encode(Utf8.Decode(a[s].kind.data))|..]
    ensures CopyFile(a, src, dest, mode, now).nodes[d].meta.times.mtime == now
  {
    var text := Utf8.Encode(Utf8.Decode(a[s].kind.data));
    var prev := a[d].kind.data;
    var w := WriteData(prev, text, None, None).value;
    assert w == prev[..0] + text + prev[|text|..];
  }

  /** A copy whose re-encoded text is longer than `dest` is a `RangeError` that changes nothing. */
  lemma CopyFileLongerRefused(a: Nodes, src: PathArg, dest: PathArg, mode: int, now: int, s: Id, d: Id)
    requires Rooted(a) && !HasBit(mode, COPYFILE_EXCL) && !HasBit(mode, COPYFILE_FICLONE_FORCE)
    requires GetRegular(a, ROOT, dest) == Ok(d) && GetRegular(a, ROOT, src) == Ok(s)
    requires |Utf8.Encode(Utf8.Decode(a[s].kind.data))| > |a[d].kind.data|
    ensures CopyFile(a, src, dest, mode, now) == Outcome(a, Err(FsFormat.SET_RANGE))
  {
  }

  /** A copy with `COPYFILE_FICLONE_FORCE` and without `COPYFILE_EXCL` always throws and changes nothing. */
  lemma CopyFileCloneForceRefused(a: Nodes, src: PathArg, dest: PathArg, mode: int, now: int)
    requires Rooted(a) && !HasBit(mode, COPYFILE_EXCL) && HasBit(mode, COPYFILE_FICLONE_FORCE)
    ensures CopyFile(a, src, dest, mode, now) == Outcome(a, Err(COPY_ON_WRITE))
  {
  }

  // ---------------------------------------------------------------------------------------------
  // truncateSync and ftruncateSync

  /** `file.data = file.data.slice(0, len)` on regular file `id`; no timestamp changes. */
  function Truncate(a: Nodes, id: Id, len: int): (r: Nodes)
    requires id in a && a[id].kind.Regular?
    ensures r.Keys == a.Keys && r[id].meta == a[id].meta && r[id].kind.Regular?
    ensures forall j | j in a && j != id :: r[j] == a[j]
    ensures Rooted(a) ==> Rooted(r)
    ensures Relative(a) ==> Relative(r)
  {
    var r := a[id := a[id].(kind := Regular(Slice(a[id].kind.data, 0, len)))];
    RegularClosed(a, r, id);
    assert Relative(a) ==> Relative(r) by {
      if Relative(a) {
        forall j | j in r
          ensures RelativeNames(r[j].kind)
        {
          if j != id {
            assert r[j] == a[j];
          }
        }
      }
    }
    r
  }

  /**
   * A truncation only ever shrinks the file: the new contents are the first `len` bytes (all of
   * them when `len` is larger, and `len` counts back from the end when negative).
   */
  lemma TruncateKeepsPrefix(a: Nodes, id: Id, len: int)
    requires id in a && a[id].kind.Regular?
    ensures var before := a[id].kind.data; var after := Truncate(a, id, len)[id].kind.data;
      after <= before
      && |after| == (if len >= |before| then |before| else if len >= 0 then len else if |before| + len > 0 then |before| + len else 0)
  {
  }

  /** `ftruncateSync(fd, len)`: the regular file in the descriptor's slot. */
  function Ftruncate(a: Nodes, t: FdTable.Table, fd: int, len: int): (r: Outcome<()>)
  {
    match FdTable.GetFdRegular(a, t, fd)
    case Err(e) => Outcome(a, Err(e))
    case Ok(id) => Outcome(Truncate(a, id, len), Ok(()))
  }

  /** `truncateSync(path, len = 0)`: the regular file at `path`. */
  function TruncatePath(a: Nodes, path: PathArg, len: Option<int>): (r: Outcome<()>)
    requires Rooted(a)
  {
    match GetRegular(a, ROOT, path)
    case Err(e) => Outcome(a, Err(e))
    case Ok(id) => Outcome(Truncate(a, id, if len.Some? then len.value else 0), Ok(()))
  }

  /** Without a length, `truncateSync` empties the file. */
  lemma TruncateDefaultEmpties(a: Nodes, path: PathArg, id: Id)
    requires Rooted(a) && GetRegular(a, ROOT, path) == Ok(id)
    ensures TruncatePath(a, path, None).result == Ok(())
    ensures TruncatePath(a, path, None).nodes[id].kind == Regular([])
  {
  }

  // ---------------------------------------------------------------------------------------------
  // renameSync and rmdirSync

  /**
   * `renameSync(oldPath, newPath)`: both paths are parsed; the old base name is unlinked from
   * the directory named by the old `dirname`, then the object is linked under the new base name
   * into the directory named by the new `dirname`.
   */
  function Rename(a: Nodes, cwd: string, oldPath: PathArg, newPath: PathArg): (r: Outcome<()>)
    requires Rooted(a)
    ensures Rooted(r.nodes)
  {
    match ParsePathArg(oldPath, cwd)
    case Err(e) => Outcome(a, Err(e))
    case Ok(po) =>
      match ParsePathArg(newPath, cwd)
      case Err(e) => Outcome(a, Err(e))
      case Ok(pn) =>
        match GetDir(a, ROOT, PStr(NodePath.Dirname(po)))
        case Err(e) => Outcome(a, Err(e))
        case Ok(from) => Move(a, from, PStr(NodePath.Basename(NodePath.Posix, po, None)), pn)
  }

  /** The second half of `renameSync`: `from.unlink(name)`, then the link into the directory named by `dirname(pn)`. */
  function Move(a: Nodes, from: Id, name: PathArg, pn: string): (r: Outcome<()>)
    requires Rooted(a) && IsDir(a, from)
    ensures Rooted(r.nodes)
  {
    var u := Unlink(a, from, name);
    match u.result
    case Err(e) => Outcome(u.nodes, Err(e))
    case Ok(file) =>
      match GetDir(u.nodes, ROOT, PStr(NodePath.Dirname(pn)))
      case Err(e) => Outcome(u.nodes, Err(e))
      case Ok(to) => Link(u.nodes, to, PStr(NodePath.Basename(NodePath.Posix, pn, None)), file)
  }

  /**
   * No name in a directory starts with `/`, and `unlink` looks its parsed (so `/`-prefixed)
   * argument up as one name: a rename therefore always throws and changes nothing.
   */
  lemma RenameAlwaysFails(a: Nodes, cwd: string, oldPath: PathArg, newPath: PathArg)
    requires Rooted(a) && Relative(a)
    ensures Rename(a, cwd, oldPath, newPath).result.Err? && Rename(a, cwd, oldPath, newPath).nodes == a
  {
    if ParsePathArg(oldPath, cwd).Ok? && ParsePathArg(newPath, cwd).Ok? {
      var po := ParsePathArg(oldPath, cwd).value;
      var dir := GetDir(a, ROOT, PStr(NodePath.Dirname(po)));
      if dir.Ok? {
        MoveFails(a, dir.value, PStr(NodePath.Basename(NodePath.Posix, po, None)), ParsePathArg(newPath, cwd).value);
      }
    }
  }

  lemma MoveFails(a: Nodes, from: Id, name: PathArg, pn: string)
    requires Rooted(a) && Relative(a) && IsDir(a, from)
    ensures Move(a, from, name, pn).result.Err? && Move(a, from, name, pn).nodes == a
  {
    VfsFacts.UnlinkNeverFinds(a, from, name);
  }

  /**
   * `rmdirSync(path)`: the object at `path` must be a directory without entries; then the
   * root's `unlink(path)` removes it.
   */
  function Rmdir(a: Nodes, path: PathArg): (r: Outcome<()>)
    requires Rooted(a)
    ensures Rooted(r.nodes) && r.nodes.Keys == a.Keys
  {
    match Get(a, ROOT, path)
    case Err(e) => Outcome(a, Err(e))
    case Ok(id) =>
      if !a[id].kind.Directory? then Outcome(a, Err("cannot remove directory " + Shown(path) + ": is not a directory"))
      else if SizeOf(a[id].kind) != 0 then Outcome(a, Err("cannot remove directory " + Shown(path) + ": is not empty"))
      else
        var u := Unlink(a, ROOT, path);
        Outcome(u.nodes, if u.result.Err? then Err(u.result.msg) else Ok(()))
  }

  /** `rmdirSync` throws for anything but an empty directory, and then `unlink` throws too. */
  lemma RmdirAlwaysFails(a: Nodes, path: PathArg)
    requires Rooted(a) && Relative(a)
    ensures Rmdir(a, path).result.Err? && Rmdir(a, path).nodes == a
    ensures Get(a, ROOT, path).Ok? && !a[Get(a, ROOT, path).value].kind.Directory? ==>
      Rmdir(a, path).result == Err("cannot remove directory " + Shown(path) + ": is not a directory")
    ensures Get(a, ROOT, path).Ok? && a[Get(a, ROOT, path).value].kind.Directory? && |a[Get(a, ROOT, path).value].kind.files| > 0 ==>
      Rmdir(a, path).result == Err("cannot remove directory " + Shown(path) + ": is not empty")
  {
    VfsFacts.UnlinkNeverFinds(a, ROOT, path);
  }

  // ---------------------------------------------------------------------------------------------
  // statSync and lstatSync

  /**
   * `statSync(path, {throwIfNoEntry})` (`follow`) and `lstatSync`: unless `throwIfNoEntry`, a
   * path that `exists` denies gives `undefined`; otherwise the `stat()` of the object `get` (or
   * `lget`) finds.
   */
  function StatPath(a: Nodes, path: PathArg, throwIfNoEntry: bool, follow: bool): (r: Result<Option<Stats>>)
    requires Rooted(a)
  {
    var present := if throwIfNoEntry then Ok(true) else Exists(a, ROOT, path);
    match present
    case Err(e) => Err(e)
    case Ok(false) => Ok(None)
    case Ok(true) =>
      match (if follow then Get(a, ROOT, path) else Lget(a, ROOT, path))
      case Err(e) => Err(e)
      case Ok(id) => Ok(Some(Stat(a[id].meta, SizeOf(a[id].kind))))
  }

  /**
   * With the default `throwIfNoEntry: false`, a stat of a path that parses is `undefined`
   * unless the root has an entry named ``: `exists` looks up the empty first segment.
   */
  lemma StatUndefinedWithoutEmptyName(a: Nodes, path: PathArg, follow: bool)
    requires Rooted(a) && !OrdMap.HasKey(Files(a, ROOT), "") && ParsePathArg(path, AbsPath(a, ROOT)).Ok?
    ensures StatPath(a, path, false, follow) == Ok(None)
  {
    VfsFacts.ExistsNeedsEmptyName(a, ROOT, path);
  }

  /** A stat that finds its object reports that object's owner, link count and size. */
  lemma StatReportsNode(a: Nodes, path: PathArg, follow: bool, id: Id)
    requires Rooted(a) && (if follow then Get(a, ROOT, path) else Lget(a, ROOT, path)) == Ok(id)
    ensures var s := StatPath(a, path, true, follow);
      s.Ok? && s.value.Some? && s.value.value.uid == a[id].meta.uid && s.value.value.gid == a[id].meta.gid
      && s.value.value.nlink == a[id].meta.nlink && s.value.value.size == SizeOf(a[id].kind)
  {
  }

  // ---------------------------------------------------------------------------------------------
  // readSync

  /**
   * What the `DataView` branch of `readSync` leaves in a buffer `b`: from index `p` on, byte
   * `k` of the buffer gets byte `k` of the data read (not byte `k - p`), and it stops with a
   * `RangeError` at the first index outside the buffer, after the bytes before it are written.
   */
  function ViewCopy(b: seq<byte>, data: seq<byte>, p: int): (r: (seq<byte>, bool))
    ensures |r.0| == |b|
  {
    if p < 0 then (b, p >= |data|)
    else (seq(|b|, k requires 0 <= k < |b| => if p <= k < |data| then data[k] else b[k]), !(p < |data| && |data| > |b|))
  }

  /** What `TypedArray.set(data, p)` leaves: `data` at `p`, or nothing and a `RangeError` when it does not fit. */
  function SetCopy(b: seq<byte>, data: seq<byte>, p: int): (r: (seq<byte>, bool))
    ensures |r.0| == |b|
    ensures r.1 <==> 0 <= p && p + |data| <= |b|
    ensures r.1 ==> r.0[..p] == b[..p] && r.0[p..p + |data|] == data && r.0[p + |data|..] == b[p + |data|..]
    ensures !r.1 ==> r.0 == b
  {
    if 0 <= p && p + |data| <= |b| then (b[..p] + data + b[p + |data|..], true) else (b, false)
  }

  /** Read into a `DataView` at position 0, the bytes land at the buffer's start, as far as it holds them. */
  lemma ViewCopyFromStart(b: seq<byte>, data: seq<byte>)
    requires |data| <= |b|
    ensures ViewCopy(b, data, 0) == (data + b[|data|..], true)
  {
    var r := ViewCopy(b, data, 0).0;
    forall k | 0 <= k < |b|
      ensures r[k] == (data + b[|data|..])[k]
    {
    }
    assert r == data + b[|data|..];
  }

  /** Read into a `DataView` at position `p > 0`, the first `p` bytes read are lost and the rest stay at their own index. */
  lemma ViewCopySkips(b: seq<byte>, data: seq<byte>, p: int)
    requires 0 < p <= |data| <= |b|
    ensures ViewCopy(b, data, p).1 && ViewCopy(b, data, p).0[p..|data|] == data[p..]
    ensures ViewCopy(b, data, p).0[..p] == b[..p]
  {
    var r := ViewCopy(b, data, p).0;
    forall j | 0 <= j < |data| - p
      ensures r[p..|data|][j] == data[p..][j]
    {
      assert r[p + j] == data[p + j];
    }
  }

  /** `readSync(fd, buffer, offset, length, position)`: `length` is returned whatever was read. */
  method ReadSync(fs: FileSystem, fd: int, buf: array<byte>, view: bool, offset: int, length: int, position: Option<int>)
    returns (r: Result<int>)
    modifies buf
    ensures match FdTable.GetFdRegular(fs.nodes, fs.fds, fd)
            case Err(e) => r == Err(e) && buf[..] == old(buf[..])
            case Ok(id) =>
              var data := Slice(fs.nodes[id].kind.data, offset, length);
              var p := if position.Some? then position.value else 0;
              var c := if view then ViewCopy(old(buf[..]), data, p) else SetCopy(old(buf[..]), data, p);
              buf[..] == c.0 && r == (if c.1 then Ok(length) else Err(if view then VIEW_RANGE else SET_OFFSET))
  {
    var p := if position.Some? then position.value else 0;
    var file := fs.GetFdRegular(fd);
    if file.Err? {
      return Err(file.msg);
    }
    var data := Slice(fs.nodes[file.value].kind.data, offset, length);
    var ok;
    if view {
      ok := CopyToView(buf, data, p);
    } else {
      ok := CopyToArray(buf, data, p);
    }
    r := if ok then Ok(length) else Err(if view then VIEW_RANGE else SET_OFFSET);
  }

  /** The `DataView` loop: `setUint8(i, data[i])` for `i` from `p` while `i < data.length`. */
  method CopyToView(buf: array<byte>, data: seq<byte>, p: int) returns (ok: bool)
    modifies buf
    ensures (buf[..], ok) == ViewCopy(old(buf[..]), data, p)
  {
    ghost var b := buf[..];
    var i := p;
    while i < |data|
      invariant p <= i && (i > p ==> 0 <= p && i <= |data| && i <= buf.Length)
      invariant forall k :: 0 <= k < buf.Length ==> buf[k] == (if p <= k < i then data[k] else b[k])
      decreases |data| - i
    {
      if i < 0 || i >= buf.Length {
        assert buf[..] == ViewCopy(b, data, p).0;
        return false;
      }
      buf[i] := data[i];
      i := i + 1;
    }
    assert buf[..] == ViewCopy(b, data, p).0;
    ok := true;
  }

  /** `buffer.set(data, p)` on a typed array. */
  method CopyToArray(buf: array<byte>, data: seq<byte>, p: int) returns (ok: bool)
    modifies buf
    ensures (buf[..], ok) == SetCopy(old(buf[..]), data, p)
  {
    if p < 0 || p + |data| > buf.Length {
      return false;
    }
    forall k | p <= k < p + |data| {
      buf[k] := data[k - p];
    }
    assert buf[..] == SetCopy(old(buf[..]), data, p).0;
    ok := true;
  }

  // ---------------------------------------------------------------------------------------------
  // The facade over a FileSystem object

  /** `closeSync(fd)`: the slot becomes `null`. */
  method CloseSync(fs: FileSystem, fd: int)
    modifies fs
    ensures fs.nodes == old(fs.nodes) && fs.next == old(fs.next)
    ensures fs.fds == FdTable.Close(old(fs.fds), fd)
    ensures FdTable.GetFd(fs.fds, fd) == Err(FdTable.NotAccessible(fd))
    ensures forall other :: other != fd ==> FdTable.GetFd(fs.fds, other) == FdTable.GetFd(old(fs.fds), other)
  {
    fs.Close(fd);
    FdTable.ClosedInaccessible(fs.nodes, old(fs.fds), fd);
    forall other | other != fd
      ensures FdTable.GetFd(fs.fds, other) == FdTable.GetFd(old(fs.fds), other)
    {
      FdTable.CloseKeepsOthers(old(fs.fds), fd, other);
    }
  }

  /** `openSync(path)`: the new table length, one more than the new slot's index. */
  method OpenSync(fs: FileSystem, path: PathArg) returns (r: Result<int>)
    requires fs.Valid()
    modifies fs
    ensures fs.Valid() && fs.nodes == old(fs.nodes) && fs.next == old(fs.next)
    ensures r.Ok? ==>
              Vfs.Get(fs.nodes, ROOT, path).Ok? && r.value == |old(fs.fds.slots)| + 1
              && FdTable.GetFd(fs.fds, r.value - 1) == Ok(Some(Vfs.Get(fs.nodes, ROOT, path).value))
    ensures r.Err? ==> fs.fds == old(fs.fds) && Vfs.Get(fs.nodes, ROOT, path).Err?
  {
    r := fs.Open(path);
  }

  /** `existsSync(path)`: the root's `exists`. */
  method ExistsSync(fs: FileSystem, path: PathArg) returns (r: Result<bool>)
    requires fs.Valid()
    ensures r == Vfs.Exists(fs.nodes, ROOT, path)
    ensures r == Ok(true) ==> OrdMap.HasKey(Files(fs.nodes, ROOT), "")
  {
    r := fs.Exists(ROOT, path);
    VfsFacts.ExistsNeedsEmptyName(fs.nodes, ROOT, path);
  }

  method CopyFileSync(fs: FileSystem, src: PathArg, dest: PathArg, mode: int, now: int) returns (r: Result<()>)
    requires fs.Valid()
    modifies fs
    ensures fs.Valid() && fs.next == old(fs.next) && fs.fds == old(fs.fds)
    ensures Outcome(fs.nodes, r) == CopyFile(old(fs.nodes), src, dest, mode, now)
  {
    var refused := CopyChecks(fs, dest, mode);
    if refused.Some? {
      return Err(refused.value);
    }
    r := CopyIntoSync(fs, src, dest, now);
  }

  method CopyChecks(fs: FileSystem, dest: PathArg, mode: int) returns (r: Option<string>)
    requires fs.Valid()
    ensures r == CopyRefused(fs.nodes, dest, mode)
  {
    if HasBit(mode, COPYFILE_EXCL) {
      var present := fs.Exists(ROOT, dest);
      if present.Err? {
        return Some(present.msg);
      }
      if present.value {
        return Some(Shown(dest) + " exists");
      }
    }
    if HasBit(mode, COPYFILE_FICLONE_FORCE) {
      return Some(COPY_ON_WRITE);
    }
    r := None;
  }

  method CopyIntoSync(fs: FileSystem, src: PathArg, dest: PathArg, now: int) returns (r: Result<()>)
    requires fs.Valid()
    modifies fs
    ensures fs.Valid() && fs.next == old(fs.next) && fs.fds == old(fs.fds)
    ensures Outcome(fs.nodes, r) == CopyInto(old(fs.nodes), src, dest, now)
  {
    var d := fs.GetRegular(ROOT, dest);
    if d.Err? {
      return Err(d.msg);
    }
    var s := fs.GetRegular(ROOT, src);
    if s.Err? {
      return Err(s.msg);
    }
    var text := Utf8.Decode(fs.nodes[s.value].kind.data);
    r := fs.WriteFile(d.value, Utf8.Encode(text), None, None, now);
  }

  method FtruncateSync(fs: FileSystem, fd: int, len: int) returns (r: Result<()>)
    requires fs.Valid()
    modifies fs
    ensures fs.Valid() && fs.next == old(fs.next) && fs.fds == old(fs.fds)
    ensures Outcome(fs.nodes, r) == Ftruncate(old(fs.nodes), old(fs.fds), fd, len)
  {
    var file := fs.GetFdRegular(fd);
    if file.Err? {
      return Err(file.msg);
    }
    fs.nodes := Truncate(fs.nodes, file.value, len);
    r := Ok(());
  }

  method TruncateSync(fs: FileSystem, path: PathArg, len: Option<int>) returns (r: Result<()>)
    requires fs.Valid()
    modifies fs
    ensures fs.Valid() && fs.next == old(fs.next) && fs.fds == old(fs.fds)
    ensures Outcome(fs.nodes, r) == TruncatePath(old(fs.nodes), path, len)
  {
    var file := fs.GetRegular(ROOT, path);
    if file.Err? {
      return Err(file.msg);
    }
    fs.nodes := Truncate(fs.nodes, file.value, if len.Some? then len.value else 0);
    r := Ok(());
  }

  method RenameSync(fs: FileSystem, cwd: string, oldPath: PathArg, newPath: PathArg) returns (r: Result<()>)
    requires fs.Valid()
    modifies fs
    ensures fs.Valid() && fs.next == old(fs.next) && fs.fds == old(fs.fds)
    ensures Outcome(fs.nodes, r) == Rename(old(fs.nodes), cwd, oldPath, newPath)
  {
    var po := ParsePathArg(oldPath, cwd);
    if po.Err? {
      return Err(po.msg);
    }
    var pn := ParsePathArg(newPath, cwd);
    if pn.Err? {
      return Err(pn.msg);
    }
    var from := fs.GetDir(ROOT, PStr(NodePath.Dirname(po.value)));
    if from.Err? {
      return Err(from.msg);
    }
    r := MoveSync(fs, from.value, PStr(NodePath.Basename(NodePath.Posix, po.value, None)), pn.value);
  }

  method MoveSync(fs: FileSystem, from: Id, name: PathArg, pn: string) returns (r: Result<()>)
    requires fs.Valid() && IsDir(fs.nodes, from)
    modifies fs
    ensures fs.Valid() && fs.next == old(fs.next) && fs.fds == old(fs.fds)
    ensures Outcome(fs.nodes, r) == Move(old(fs.nodes), from, name, pn)
  {
    var file := fs.Unlink(from, name);
    if file.Err? {
      return Err(file.msg);
    }
    var to := fs.GetDir(ROOT, PStr(NodePath.Dirname(pn)));
    if to.Err? {
      return Err(to.msg);
    }
    r := fs.Link(to.value, PStr(NodePath.Basename(NodePath.Posix, pn, None)), file.value);
  }

  method RmdirSync(fs: FileSystem, path: PathArg) returns (r: Result<()>)
    requires fs.Valid()
    modifies fs
    ensures fs.Valid() && fs.next == old(fs.next) && fs.fds == old(fs.fds)
    ensures Outcome(fs.nodes, r) == Rmdir(old(fs.nodes), path)
  {
    var file := fs.Get(ROOT, path);
    if file.Err? {
      return Err(file.msg);
    }
    if !fs.nodes[file.value].kind.Directory? {
      return Err("cannot remove directory " + Shown(path) + ": is not a directory");
    }
    if |fs.nodes[file.value].kind.files| != 0 {
      return Err("cannot remove directory " + Shown(path) + ": is not empty");
    }
    var gone := fs.Unlink(ROOT, path);
    r := if gone.Err? then Err(gone.msg) else Ok(());
  }

  /** `statSync(path, {throwIfNoEntry})` when `follow`, `lstatSync` otherwise. */
  method StatSync(fs: FileSystem, path: PathArg, throwIfNoEntry: bool, follow: bool) returns (r: Result<Option<Stats>>)
    requires fs.Valid()
    ensures r == StatPath(fs.nodes, path, throwIfNoEntry, follow)
  {
    if !throwIfNoEntry {
      var present := fs.Exists(ROOT, path);
      if present.Err? {
        return Err(present.msg);
      }
      if !present.value {
        return Ok(None);
      }
    }
    var file;
    if follow {
      file := fs.Get(ROOT, path);
    } else {
      file := fs.Lget(ROOT, path);
    }
    if file.Err? {
      return Err(file.msg);
    }
    r := Ok(Some(Stat(fs.nodes[file.value].meta, SizeOf(fs.nodes[file.value].kind))));
  }
}
