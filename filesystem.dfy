/**
 * `FileSystem` (src/fs.ts): the root directory together with the table of open file
 * descriptors, as an object whose methods change it in place. Every node of the tree lives in
 * the arena `nodes`; a `Directory` method called on some directory of the tree is a method here
 * taking that directory's id. Each method is proved to leave the object as the matching
 * function of `Vfs` says, and `Vfs`/`VfsFacts` prove what those functions promise.
 */
module FileSystems {
  import opened Wrappers
  import opened Text
  import opened Bits
  import OrdMap
  import opened FsMode
  import opened FsNode
  import opened FsPath
  import opened Vfs
  import FdTable

  /** The root's default mode, `0o7770`. */
  const ROOT_MODE := 0xFF8

  class FileSystem {
    var nodes: Nodes
    /** The id the next new node gets. */
    var next: Id
    var fds: FdTable.Table

    ghost predicate Valid()
      reads this
    {
      Rooted(nodes) && Unused(nodes, next)
    }

    /** `new FileSystem()`: an empty root owned by uid 0 and gid 0, and no descriptors. */
    constructor(now: int)
      ensures Valid() && Files(nodes, ROOT) == [] && fds == FdTable.EMPTY
      ensures nodes[ROOT].meta == NewMeta(ROOT_MODE, S_IFDIR, 0, 0, now)
    {
      nodes := map[ROOT := Node(NewMeta(ROOT_MODE, S_IFDIR, 0, 0, now), Directory([], "/"))];
      next := ROOT + 1;
      fds := FdTable.EMPTY;
    }

    /** `lget(path)` on directory `dir`: the walk is the source's loop over the segments. */
    method Lget(dir: Id, path: PathArg) returns (r: Result<Id>)
      requires Valid() && IsDir(nodes, dir)
      ensures r == Vfs.Lget(nodes, dir, path)
      decreases Rank(dir), 0
    {
      var absPath := AbsPath(nodes, dir);
      var parsed := ParsePathArg(path, absPath);
      if parsed.Err? {
        return Err(parsed.msg);
      }
      if !StartsWith(parsed.value, absPath) {
        r := Get(ROOT, PStr(SliceFrom(parsed.value, 1)));
        return;
      }
      var segments := Split(SliceFrom(parsed.value, |absPath|), '/');
      var file := dir;
      var i := 0;
      while i < |segments|
        invariant 0 <= i <= |segments| && file in nodes
        invariant Walk(nodes, file, segments, i) == Walk(nodes, dir, segments, 0)
      {
        if !nodes[file].kind.Directory? {
          return Err(Join(segments[..i], "/") + " is not a directory");
        }
        var newFile := OrdMap.Get(Files(nodes, file), segments[i]);
        if newFile.None? {
          return Err(Join(segments[..i + 1], "/") + " does not exist");
        }
        ChildIn(nodes, file, segments[i]);
        file := newFile.value;
        i := i + 1;
      }
      return Ok(file);
    }

    /** `get(path)`: `lget`, then along `linkedTo` while the object is a link. */
    method Get(dir: Id, path: PathArg) returns (r: Result<Id>)
      requires Valid() && IsDir(nodes, dir)
      ensures r == Vfs.Get(nodes, dir, path)
      decreases Rank(dir), 1
    {
      var out := Lget(dir, path);
      if out.Err? {
        return out;
      }
      var id := out.value;
      while nodes[id].kind.Symlink?
        invariant id in nodes && Deref(nodes, id) == Deref(nodes, out.value)
        decreases if nodes[id].kind.Symlink? then 1 else 0
      {
        assert Fine(nodes, nodes[id].kind);
        id := nodes[id].kind.linkedTo;
      }
      return Ok(id);
    }

    method GetRegular(dir: Id, path: PathArg) returns (r: Result<Id>)
      requires Valid() && IsDir(nodes, dir)
      ensures r == Vfs.GetRegular(nodes, dir, path)
    {
      r := Get(dir, path);
      if r.Ok? && !nodes[r.value].kind.Regular? {
        r := Err(Shown(path) + " is not a regular file");
      }
    }

    method GetDir(dir: Id, path: PathArg) returns (r: Result<Id>)
      requires Valid() && IsDir(nodes, dir)
      ensures r == Vfs.GetDir(nodes, dir, path)
    {
      r := Get(dir, path);
      if r.Ok? && !nodes[r.value].kind.Directory? {
        r := Err(Shown(path) + " is not a directory");
      }
    }

    /**
     * `exists(path)`: the loop looks every segment up in the directory itself (its `file` never
     * moves, so the source's "is not a directory" branch cannot be taken).
     */
    method Exists(dir: Id, path: PathArg) returns (r: Result<bool>)
      requires Valid() && IsDir(nodes, dir)
      ensures r == Vfs.Exists(nodes, dir, path)
    {
      var parsed := ParsePathArg(path, AbsPath(nodes, dir));
      if parsed.Err? {
        return Err(parsed.msg);
      }
      var segments := Split(parsed.value, '/');
      var i := 0;
      while i < |segments|
        invariant 0 <= i <= |segments|
        invariant forall k | 0 <= k < i :: OrdMap.HasKey(Files(nodes, dir), segments[k])
      {
        if OrdMap.Get(Files(nodes, dir), segments[i]).None? {
          return Ok(false);
        }
        i := i + 1;
      }
      return Ok(true);
    }

    /** `link(path, file)` on directory `dir`: the link count goes up before anything can fail. */
    method Link(dir: Id, path: PathArg, file: Id) returns (r: Result<()>)
      requires Valid() && IsDir(nodes, dir) && file in nodes
      modifies this
      ensures Valid() && next == old(next) && fds == old(fds)
      ensures Outcome(nodes, r) == Vfs.Link(old(nodes), dir, path, file)
      decreases Rank(dir), 1
    {
      nodes := Bump(nodes, file, 1);
      var absPath := AbsPath(nodes, dir);
      var parsed := ParsePathArg(path, absPath);
      if parsed.Err? {
        return Err(parsed.msg);
      }
      if !StartsWith(parsed.value, absPath) {
        r := Link(ROOT, PStr(parsed.value), file);
      } else {
        r := LinkInside(dir, SliceFrom(parsed.value, |absPath|), file);
      }
    }

    /**
     * The rest of `link` for the part `relPath` of the path after `absPath`: a parent directory
     * and a last segment, or a single name stored without its first character.
     */
    method LinkInside(dir: Id, relPath: string, file: Id) returns (r: Result<()>)
      requires Valid() && IsDir(nodes, dir) && file in nodes
      modifies this
      ensures Valid() && next == old(next) && fds == old(fds)
      ensures Outcome(nodes, r) == Vfs.LinkInside(old(nodes), dir, relPath, file)
      decreases Rank(dir), 0
    {
      if '/' in relPath {
        var parts := Split(relPath, '/');
        var parent := GetDir(dir, PStr(Join(parts[..|parts| - 1], "/")));
        if parent.Err? {
          return Err(parent.msg);
        }
        nodes := SetEntry(nodes, parent.value, parts[|parts| - 1], file);
      } else {
        nodes := SetEntry(nodes, dir, SliceFrom(relPath, 1), file);
      }
      return Ok(());
    }

    /** `unlink(path)` on directory `dir`. */
    method Unlink(dir: Id, path: PathArg) returns (r: Result<Id>)
      requires Valid() && IsDir(nodes, dir)
      modifies this
      ensures Valid() && next == old(next) && fds == old(fds)
      ensures Outcome(nodes, r) == Vfs.Unlink(old(nodes), dir, path)
    {
      var parsed := ParsePathArg(path, AbsPath(nodes, dir));
      if parsed.Err? {
        return Err(parsed.msg);
      }
      // A string always parses, so this second parse cannot throw.
      var key := ParsePathArg(PStr(parsed.value), AbsPath(nodes, dir)).value;
      var file := OrdMap.Get(Files(nodes, dir), key);
      if file.None? {
        return Err(Shown(path) + " does not exist");
      }
      ChildIn(nodes, dir, key);
      nodes := Bump(nodes, file.value, -1);
      nodes := RemoveEntry(nodes, dir, parsed.value);
      return Ok(file.value);
    }

    /** `symlink(target, path)` on directory `dir`. */
    method Symlink(dir: Id, target: PathArg, path: PathArg, now: int) returns (r: Result<()>)
      requires Valid() && IsDir(nodes, dir)
      modifies this
      ensures Valid() && next == old(next) + 1 && fds == old(fds)
      ensures Outcome(nodes, r) == MakeSymlink(old(nodes), dir, target, path, old(next), now)
    {
      var t := ParsePathArg(target, AbsPath(nodes, dir));
      if t.Err? {
        next := next + 1;
        return Err(t.msg);
      }
      var to := Get(ROOT, PStr(t.value));
      if to.Err? {
        next := next + 1;
        return Err(to.msg);
      }
      r := Place(dir, path, Node(OwnedMeta(nodes, dir, S_IFLNK, now), Kind.Symlink(t.value, to.value)));
    }

    /** `addDevice(path, …)` on directory `dir`. */
    method AddDevice(dir: Id, path: PathArg, now: int) returns (r: Result<()>)
      requires Valid() && IsDir(nodes, dir)
      modifies this
      ensures Valid() && next == old(next) + 1 && fds == old(fds)
      ensures Outcome(nodes, r) == Vfs.AddDevice(old(nodes), dir, path, old(next), now)
    {
      var parsed := ParsePathArg(path, AbsPath(nodes, dir));
      if parsed.Err? {
        next := next + 1;
        return Err(parsed.msg);
      }
      r := Place(dir, PStr(parsed.value), Node(OwnedMeta(nodes, dir, S_IFCHR, now), Device));
    }

    /** `mkdir(path, false, mode)` on directory `dir`. */
    method MkdirOne(dir: Id, path: PathArg, mode: ModeArg, now: int) returns (r: Result<Id>)
      requires Valid() && IsDir(nodes, dir)
      modifies this
      ensures Valid() && next == old(next) + 1 && fds == old(fds)
      ensures Outcome(nodes, r) == Vfs.MkdirOne(old(nodes), dir, path, mode, old(next), now)
    {
      var parsed := ParsePathArg(path, AbsPath(nodes, dir));
      var m := ParseModeArg(mode);
      if parsed.Err? || m.Err? {
        next := next + 1;
        return Err(if parsed.Err? then parsed.msg else m.msg);
      }
      nodes := NewDirectory(nodes, dir, parsed.value, NumToInt32(m.value), next, now);
      r := Ok(next);
      next := next + 1;
    }

    /** `mkdir(path, recursive, mode)` on directory `dir`. */
    method Mkdir(dir: Id, path: PathArg, recursive: bool, mode: ModeArg, now: int) returns (r: Result<Id>)
      requires Valid() && IsDir(nodes, dir)
      modifies this
      ensures Valid() && fds == old(fds)
      ensures Outcome(nodes, r) == Vfs.Mkdir(old(nodes), dir, path, recursive, mode, old(next), now)
    {
      var parsed := ParsePathArg(path, AbsPath(nodes, dir));
      if parsed.Err? {
        return Err(parsed.msg);
      }
      if recursive {
        r := MkdirChain(dir, path, Split(parsed.value, '/'), now);
      } else {
        r := MkdirOne(dir, path, mode, now);
      }
    }

    /**
     * The loop of `mkdir(path, true)` over the segments: a segment the current directory `exists`
     * stops it, otherwise `mkdir(path)` inside the current directory becomes the current one.
     */
    method MkdirChain(dir: Id, path: PathArg, segments: seq<string>, now: int) returns (r: Result<Id>)
      requires Valid() && IsDir(nodes, dir)
      modifies this
      ensures Valid() && fds == old(fds)
      ensures Outcome(nodes, r) == Vfs.MkdirChain(old(nodes), dir, path, segments, 0, old(next), now)
    {
      var file := dir;
      var i := 0;
      while i < |segments|
        invariant 0 <= i <= |segments| && Valid() && IsDir(nodes, file) && fds == old(fds)
        invariant next == old(next) + i
        invariant Vfs.MkdirChain(nodes, file, path, segments, i, next, now) == Vfs.MkdirChain(old(nodes), dir, path, segments, 0, old(next), now)
      {
        var found := Exists(file, PStr(segments[i]));
        if found == Ok(true) {
          return Err("cannot create " + Shown(path) + ": " + Join(segments[..i], "/") + " exists");
        }
        ghost var before, n, parent := nodes, next, file;
        r := MkdirOne(file, path, MKDIR_MODE, now);
        if r.Err? {
          return;
        }
        file := r.value;
        i := i + 1;
        MkdirChainStep(before, parent, path, segments, i - 1, n, now, nodes, file, i, next);
      }
      return Ok(file);
    }

    /**
     * `write(path, data, position, length)` on directory `dir`, with `data` already encoded: an
     * existing path is written through `getRegular`, any other gets a new regular file.
     */
    method Write(dir: Id, path: PathArg, data: seq<byte>, position: Option<int>, length: Option<int>, now: int) returns (r: Result<()>)
      requires Valid() && IsDir(nodes, dir)
      modifies this
      ensures Valid() && next == old(next) + 1 && fds == old(fds)
      ensures Outcome(nodes, r) == Vfs.Write(old(nodes), dir, path, data, position, length, old(next), now)
    {
      var found := Exists(dir, path);
      if found.Err? {
        next := next + 1;
        return Err(found.msg);
      }
      if found.value {
        r := Overwrite(dir, path, data, position, length, now);
        next := next + 1;
      } else {
        r := Place(dir, path, Node(OwnedMeta(nodes, dir, S_IFREG, now), Regular(data)));
      }
    }

    /** Writes through `getRegular(path)` in `dir`. */
    method Overwrite(dir: Id, path: PathArg, data: seq<byte>, position: Option<int>, length: Option<int>, now: int) returns (r: Result<()>)
      requires Valid() && IsDir(nodes, dir)
      modifies this
      ensures Valid() && next == old(next) && fds == old(fds)
      ensures Outcome(nodes, r) == Vfs.Overwrite(old(nodes), dir, path, data, position, length, now)
    {
      var file := GetRegular(dir, path);
      if file.Err? {
        return Err(file.msg);
      }
      r := WriteFile(file.value, data, position, length, now);
    }

    /** A new object `n` takes the next id and is linked at `path` in `dir`. */
    method Place(dir: Id, path: PathArg, n: Node) returns (r: Result<()>)
      requires Valid() && IsDir(nodes, dir) && Fine(nodes, n.kind)
      modifies this
      ensures Valid() && next == old(next) + 1 && fds == old(fds)
      ensures Outcome(nodes, r) == Vfs.Place(old(nodes), dir, path, n, old(next))
    {
      var id := next;
      nodes := Alloc(nodes, id, n);
      next := next + 1;
      r := Link(dir, path, id);
    }

    /** `RegularFile.write(bytes, position, length)` on file `id`. */
    method WriteFile(id: Id, bytes: seq<byte>, position: Option<int>, length: Option<int>, now: int) returns (r: Result<()>)
      requires Valid() && id in nodes && nodes[id].kind.Regular?
      modifies this
      ensures Valid() && next == old(next) && fds == old(fds)
      ensures Outcome(nodes, r) == Vfs.WriteFile(old(nodes), id, bytes, position, length, now)
    {
      var data := WriteData(nodes[id].kind.data, bytes, position, length);
      if data.Err? {
        return Err(data.msg);
      }
      nodes := Rewrite(nodes, id, data.value, now);
      return Ok(());
    }

    /** `append(bytes)` on regular file `id`. */
    method Append(id: Id, bytes: seq<byte>, now: int)
      requires Valid() && id in nodes && nodes[id].kind.Regular?
      modifies this
      ensures Valid() && next == old(next) && fds == old(fds)
      ensures nodes == Vfs.Append(old(nodes), id, bytes, now)
    {
      nodes := Vfs.Append(nodes, id, bytes, now);
    }

    /** `read(path, start, length)` on directory `dir`. */
    method Read(dir: Id, path: PathArg, start: Option<int>, length: Option<int>) returns (r: Result<seq<byte>>)
      requires Valid() && IsDir(nodes, dir)
      ensures r == Vfs.Read(nodes, dir, path, start, length)
    {
      var file := GetRegular(dir, path);
      if file.Err? {
        return Err(file.msg);
      }
      var data := nodes[file.value].kind.data;
      r := Ok(Slice(data, if start.Some? then start.value else 0, if length.Some? then length.value else -1));
    }

    /** `chmod(mode)` on object `id`: an invalid mode throws before anything changes. */
    method Chmod(id: Id, mode: ModeArg, now: int) returns (r: Result<()>)
      requires Valid() && id in nodes
      modifies this
      ensures Valid() && next == old(next) && fds == old(fds)
      ensures ParseModeArg(mode).Err? ==> r == Err(ParseModeArg(mode).msg) && nodes == old(nodes)
      ensures ParseModeArg(mode).Ok? ==> r == Ok(()) && nodes == SetMeta(old(nodes), id, FsNode.Chmod(old(nodes)[id].meta, ParseModeArg(mode).value, now))
    {
      var m := ParseModeArg(mode);
      if m.Err? {
        return Err(m.msg);
      }
      nodes := SetMeta(nodes, id, FsNode.Chmod(nodes[id].meta, m.value, now));
      return Ok(());
    }

    /** `chown(uid, gid)` on object `id`. */
    method Chown(id: Id, uid: int, gid: int, now: int)
      requires Valid() && id in nodes
      modifies this
      ensures Valid() && next == old(next) && fds == old(fds)
      ensures nodes == SetMeta(old(nodes), id, FsNode.Chown(old(nodes)[id].meta, uid, gid, now))
    {
      nodes := SetMeta(nodes, id, FsNode.Chown(nodes[id].meta, uid, gid, now));
    }

    /** `utimes(atime, mtime)` on object `id`, with the times already converted. */
    method Utimes(id: Id, atime: Option<int>, mtime: Option<int>)
      requires Valid() && id in nodes
      modifies this
      ensures Valid() && next == old(next) && fds == old(fds)
      ensures nodes == SetMeta(old(nodes), id, FsNode.Utimes(old(nodes)[id].meta, atime, mtime))
    {
      nodes := SetMeta(nodes, id, FsNode.Utimes(nodes[id].meta, atime, mtime));
    }

    /**
     * `recursiveSize` of directory `dir`: the entry count, plus the `recursiveSize` of each entry
     * that is a directory, summed by the source's loop over the entries.
     */
    method RecursiveSize(dir: Id, fuel: nat) returns (r: Option<nat>)
      requires Valid() && IsDir(nodes, dir)
      ensures r == Vfs.RecursiveSize(nodes, dir, fuel)
      decreases fuel
    {
      if fuel == 0 {
        return None;
      }
      var files := Files(nodes, dir);
      FilesWithin(nodes, dir);
      var out: nat := |files|;
      var i := 0;
      while i < |files|
        invariant 0 <= i <= |files| && out >= |files|
        invariant SubdirSizes(nodes, files, i, fuel - 1) == Some(out - |files|)
      {
        assert files[i] in files;
        var id := files[i].1;
        if nodes[id].kind.Directory? {
          var size := RecursiveSize(id, fuel - 1);
          if size.None? {
            SubdirSizesStaysNone(nodes, files, i + 1, |files|, fuel - 1);
            return None;
          }
          out := out + size.value;
        }
        i := i + 1;
      }
      return Some(out);
    }

    /** `getfd(fd)`. */
    method GetFd(fd: int) returns (r: Result<Option<Id>>)
      ensures r == FdTable.GetFd(fds, fd)
    {
      r := FdTable.GetFd(fds, fd);
    }

    /** `getfdRegular(fd)`. */
    method GetFdRegular(fd: int) returns (r: Result<Id>)
      ensures r == FdTable.GetFdRegular(nodes, fds, fd)
    {
      r := FdTable.GetFdRegular(nodes, fds, fd);
    }

    /**
     * `open(path)`: `get(path)` goes into a new slot at the end of the table, and the result is
     * what `push` returns, the new length, which is one more than the slot's index.
     */
    method Open(path: PathArg) returns (r: Result<int>)
      requires Valid()
      modifies this
      ensures Valid() && nodes == old(nodes) && next == old(next)
      ensures Vfs.Get(nodes, ROOT, path).Err? ==> r == Err(Vfs.Get(nodes, ROOT, path).msg) && fds == old(fds)
      ensures Vfs.Get(nodes, ROOT, path).Ok? ==>
        r == Ok(|old(fds.slots)| + 1) && fds == FdTable.Push(old(fds), Vfs.Get(nodes, ROOT, path).value)
    {
      var file := Get(ROOT, path);
      if file.Err? {
        return Err(file.msg);
      }
      fds := FdTable.Push(fds, file.value);
      return Ok(|fds.slots|);
    }

    /** `fileDescriptors[fd] = null`, which is `closeSync(fd)`. */
    method Close(fd: int)
      modifies this
      ensures nodes == old(nodes) && next == old(next) && fds == FdTable.Close(old(fds), fd)
    {
      fds := FdTable.Close(fds, fd);
    }
  }

  /** Once the sum over the first `i` entries has run out of depth, so has every longer one. */
  lemma {:induction false} SubdirSizesStaysNone(a: Nodes, files: OrdMap.Entries<string, Id>, i: nat, j: nat, fuel: nat)
    requires Closed(a) && Within(a, files) && i <= j <= |files| && SubdirSizes(a, files, i, fuel).None?
    ensures SubdirSizes(a, files, j, fuel).None?
    decreases j - i
  {
    if i < j {
      SubdirSizesStaysNone(a, files, i + 1, j, fuel);
    }
  }
}
