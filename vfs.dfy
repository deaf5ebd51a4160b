/**
 * The in-memory file tree of src/fs.ts (`RegularFile`, `SymbolicLink`, `Device`, `Directory`):
 * lookup, linking, unlinking, directory creation and file writes, stated as functions over an
 * arena that maps node ids to nodes. A directory's entries are an insertion-ordered list of
 * (name, id) pairs, so hard links are shared ids. Every directory of a file system has the file
 * system itself as `rootDir` (the constructor sets it, `mkdir` copies it and `link` re-roots a
 * linked directory), so `rootDir` is the fixed id `ROOT` and is not stored.
 *
 * An operation that can throw returns an `Outcome`: the arena after the call and `Ok` or the
 * error message. Changes made before the throw stay in the arena, as they do in the source.
 */
module Vfs {
  import opened Wrappers
  import opened Text
  import opened Bits
  import Utf8
  import OrdMap
  import opened FsMode
  import opened FsNode
  import opened FsPath
  import FsFormat

  type Id = nat

  /** The id of the file system, which is its own root directory. */
  const ROOT: Id := 0

  /** What a node is, with the fields its class adds to `FileObject`. */
  datatype Kind =
    | Regular(data: seq<byte>)
    | Symlink(path: string, linkedTo: Id)
    | Device
    | Directory(files: OrdMap.Entries<string, Id>, absPath: string)

  datatype Node = Node(meta: Meta, kind: Kind)

  type Nodes = map<Id, Node>

  /** The state after an operation and its result or error. */
  datatype Outcome<T> = Outcome(nodes: Nodes, result: Result<T>)

  /**
   * The references of a node are in the arena: a directory's names are distinct and every entry
   * is allocated; a link's target is allocated and is not itself a link.
   */
  predicate Fine(a: Nodes, k: Kind)
  {
    match k
    case Directory(files, _) =>
      OrdMap.Distinct(files) && forall e | e in files :: e.1 in a
    case Symlink(_, t) => t in a && !a[t].kind.Symlink?
    case _ => true
  }

  predicate Closed(a: Nodes)
  {
    forall id | id in a :: Fine(a, a[id].kind)
  }

  predicate IsDir(a: Nodes, id: Id)
  {
    id in a && a[id].kind.Directory?
  }

  /** A well-formed file system: closed, with the root a directory whose `absPath` is `/`. */
  predicate Rooted(a: Nodes)
  {
    Closed(a) && IsDir(a, ROOT) && a[ROOT].kind.absPath == "/"
  }

  /** No name in the directory `k` starts with `/`. */
  predicate RelativeNames(k: Kind)
  {
    k.Directory? ==> forall e | e in k.files :: !StartsWith(e.0, "/")
  }

  /**
   * No name in any directory starts with `/`. The source allows such names (a `FileSystem` can be
   * built from any map), but `link` and `mkdir` never make one.
   */
  predicate Relative(a: Nodes)
  {
    forall id | id in a :: RelativeNames(a[id].kind)
  }

  /** `next` and every id above it are unused. */
  predicate Unused(a: Nodes, next: Id)
  {
    forall id | id in a :: id < next
  }

  /** How a path argument prints inside a template string. */
  function Shown(path: PathArg): string
  {
    match path
    case PStr(s) => s
    case PBuffer(b) => Utf8.Decode(b)
    case PUrl(href, _, _) => href
    case POther(shown) => shown
  }

  function Files(a: Nodes, dir: Id): OrdMap.Entries<string, Id>
    requires IsDir(a, dir)
  {
    a[dir].kind.files
  }

  function AbsPath(a: Nodes, dir: Id): string
    requires IsDir(a, dir)
  {
    a[dir].kind.absPath
  }

  /** The entry `name` of a directory, if any, is allocated. */
  lemma ChildIn(a: Nodes, dir: Id, name: string)
    requires Closed(a) && IsDir(a, dir)
    ensures OrdMap.Get(Files(a, dir), name).Some? ==> OrdMap.Get(Files(a, dir), name).value in a
  {
    var files := Files(a, dir);
    assert Fine(a, a[dir].kind);
    if OrdMap.Get(files, name).Some? {
      var i :| 0 <= i < |files| && files[i] == (name, OrdMap.Get(files, name).value);
      assert files[i] in files;
    }
  }

  // ---------------------------------------------------------------------------------------------
  // Lookup

  /**
   * The walk of `lget`: from node `cur`, look up `segs[i]`, `segs[i + 1]`, … one directory after
   * the other. Naming a missing entry, or passing through something that is not a directory,
   * fails with the segments up to that point.
   */
  function Walk(a: Nodes, cur: Id, segs: seq<string>, i: nat): (r: Result<Id>)
    requires Closed(a) && cur in a && i <= |segs|
    ensures r.Ok? ==> r.value in a
    decreases |segs| - i
  {
    if i == |segs| then Ok(cur)
    else if !a[cur].kind.Directory? then Err(Join(segs[..i], "/") + " is not a directory")
    else
      match OrdMap.Get(Files(a, cur), segs[i])
      case None => Err(Join(segs[..i + 1], "/") + " does not exist")
      case Some(next) =>
        ChildIn(a, cur, segs[i]);
        Walk(a, next, segs, i + 1)
  }

  /** The root answers directly; another directory sends paths outside its `absPath` to the root. */
  function Rank(dir: Id): nat
  {
    if dir == ROOT then 0 else 1
  }

  /**
   * `lget(path)` on directory `dir`: the path is parsed; one that does not start with the
   * directory's `absPath` is looked up by the root (without its leading `/`), any other is walked
   * segment by segment from the directory, after cutting off `absPath`.
   */
  function Lget(a: Nodes, dir: Id, path: PathArg): (r: Result<Id>)
    requires Rooted(a) && IsDir(a, dir)
    ensures r.Ok? ==> r.value in a
    decreases Rank(dir), 0
  {
    match ParsePathArg(path, AbsPath(a, dir))
    case Err(e) => Err(e)
    case Ok(parsed) =>
      if !StartsWith(parsed, AbsPath(a, dir)) then Get(a, ROOT, PStr(SliceFrom(parsed, 1)))
      else Walk(a, dir, Split(SliceFrom(parsed, |AbsPath(a, dir)|), '/'), 0)
  }

  /**
   * One step through a link: its `linkedTo`. A link's target is resolved when the link is made and
   * is never a link, so the `while` of `get` stops after one step.
   */
  function Deref(a: Nodes, id: Id): (r: Id)
    requires Closed(a) && id in a
    ensures r in a && !a[r].kind.Symlink?
    ensures !a[id].kind.Symlink? ==> r == id
  {
    assert Fine(a, a[id].kind);
    if a[id].kind.Symlink? then a[id].kind.linkedTo else id
  }

  /** `get(path)`: `lget` and then through the link, if it names one. */
  function Get(a: Nodes, dir: Id, path: PathArg): (r: Result<Id>)
    requires Rooted(a) && IsDir(a, dir)
    ensures r.Ok? ==> r.value in a && !a[r.value].kind.Symlink?
    decreases Rank(dir), 1
  {
    match Lget(a, dir, path)
    case Err(e) => Err(e)
    case Ok(id) => Ok(Deref(a, id))
  }

  /** `getRegular(path)`. */
  function GetRegular(a: Nodes, dir: Id, path: PathArg): (r: Result<Id>)
    requires Rooted(a) && IsDir(a, dir)
    ensures r.Ok? ==> r.value in a && a[r.value].kind.Regular?
    ensures r.Ok? <==> Get(a, dir, path).Ok? && a[Get(a, dir, path).value].kind.Regular?
  {
    match Get(a, dir, path)
    case Err(e) => Err(e)
    case Ok(id) => if a[id].kind.Regular? then Ok(id) else Err(Shown(path) + " is not a regular file")
  }

  /** `getDir(path)`. */
  function GetDir(a: Nodes, dir: Id, path: PathArg): (r: Result<Id>)
    requires Rooted(a) && IsDir(a, dir)
    ensures r.Ok? ==> IsDir(a, r.value)
    ensures r.Ok? <==> Get(a, dir, path).Ok? && IsDir(a, Get(a, dir, path).value)
  {
    match Get(a, dir, path)
    case Err(e) => Err(e)
    case Ok(id) => if a[id].kind.Directory? then Ok(id) else Err(Shown(path) + " is not a directory")
  }

  /** Every one of `segs` is a name in `files`. */
  predicate AllPresent(files: OrdMap.Entries<string, Id>, segs: seq<string>)
  {
    forall k | 0 <= k < |segs| :: OrdMap.HasKey(files, segs[k])
  }

  /**
   * `exists(path)`: the loop never moves `file` away from the directory, so every segment of the
   * parsed path is looked up among the directory's own names.
   */
  function Exists(a: Nodes, dir: Id, path: PathArg): (r: Result<bool>)
    requires IsDir(a, dir)
    ensures r.Err? <==> ParsePathArg(path, AbsPath(a, dir)).Err?
  {
    match ParsePathArg(path, AbsPath(a, dir))
    case Err(e) => Err(e)
    case Ok(parsed) => Ok(AllPresent(Files(a, dir), Split(parsed, '/')))
  }

  // ---------------------------------------------------------------------------------------------
  // Changes to the arena

  /** `Fine` looks only at which ids are allocated and which of them are links. */
  lemma FineTransfer(a: Nodes, b: Nodes, k: Kind)
    requires Fine(a, k)
    requires forall j | j in a :: j in b && b[j].kind.Symlink? == a[j].kind.Symlink?
    ensures Fine(b, k)
  {
  }

  /** An arena stays closed when one node changes, provided that node is fine in the new arena. */
  lemma ClosedAfter(a: Nodes, b: Nodes, changed: Id)
    requires Closed(a)
    requires forall j | j in a :: j in b && b[j].kind.Symlink? == a[j].kind.Symlink?
    requires forall j | j in b && j != changed :: j in a && b[j].kind == a[j].kind
    requires changed in b ==> Fine(b, b[changed].kind)
    ensures Closed(b)
  {
    forall j | j in b
      ensures Fine(b, b[j].kind)
    {
      if j != changed {
        assert Fine(a, a[j].kind);
        FineTransfer(a, b, a[j].kind);
      }
    }
  }

  /** Changing the metadata of one node keeps the arena closed. */
  lemma SameKindsClosed(a: Nodes, r: Nodes, id: Id)
    requires id in a && id in r && r == a[id := r[id]] && r[id].kind == a[id].kind
    ensures Closed(a) ==> Closed(r)
  {
    if Closed(a) {
      assert Fine(a, a[id].kind);
      FineTransfer(a, r, a[id].kind);
      ClosedAfter(a, r, id);
    }
  }

  lemma AllocClosed(a: Nodes, r: Nodes, id: Id)
    requires id !in a && id in r && r == a[id := r[id]]
    ensures Rooted(a) && Fine(a, r[id].kind) ==> Rooted(r)
  {
    if Rooted(a) && Fine(a, r[id].kind) {
      FineTransfer(a, r, r[id].kind);
      ClosedAfter(a, r, id);
    }
  }

  lemma SetEntryClosed(a: Nodes, r: Nodes, dir: Id, name: string, id: Id)
    requires IsDir(a, dir)
    requires r == a[dir := a[dir].(kind := a[dir].kind.(files := OrdMap.Set(Files(a, dir), name, id)))]
    ensures Rooted(a) && id in a ==> Rooted(r)
    ensures Relative(a) && !StartsWith(name, "/") ==> Relative(r)
  {
    OrdMap.SetMembers(Files(a, dir), name, id);
    if Rooted(a) && id in a {
      assert Fine(a, a[dir].kind);
      OrdMap.SetFind(Files(a, dir), name, id, name);
      ClosedAfter(a, r, dir);
    }
    if Relative(a) && !StartsWith(name, "/") {
      assert RelativeNames(a[dir].kind);
    }
  }

  lemma RemoveEntryClosed(a: Nodes, r: Nodes, dir: Id, name: string)
    requires IsDir(a, dir)
    requires r == a[dir := a[dir].(kind := a[dir].kind.(files := OrdMap.Delete(Files(a, dir), name)))]
    ensures Rooted(a) ==> Rooted(r)
    ensures Relative(a) ==> Relative(r)
  {
    var d := OrdMap.Delete(Files(a, dir), name);
    assert forall e | e in d :: e in Files(a, dir);
    if Rooted(a) {
      assert Fine(a, a[dir].kind);
      OrdMap.DeleteDistinct(Files(a, dir), name);
      ClosedAfter(a, r, dir);
    }
    if Relative(a) {
      assert RelativeNames(a[dir].kind);
    }
  }

  /** `nlink += d` on one node. */
  function Bump(a: Nodes, id: Id, d: int): (r: Nodes)
    requires id in a
    ensures Rooted(a) ==> Rooted(r)
    ensures Relative(a) ==> Relative(r)
    ensures r.Keys == a.Keys && r[id].meta == a[id].meta.(nlink := a[id].meta.nlink + d)
    ensures forall j | j in a :: r[j].kind == a[j].kind && (j != id ==> r[j] == a[j])
  {
    var r := a[id := a[id].(meta := a[id].meta.(nlink := a[id].meta.nlink + d))];
    SameKindsClosed(a, r, id);
    r
  }

  /** New metadata for one node (`chmod`, `chown`, `utimes`). */
  function SetMeta(a: Nodes, id: Id, m: Meta): (r: Nodes)
    requires id in a
    ensures Rooted(a) ==> Rooted(r)
    ensures Relative(a) ==> Relative(r)
    ensures r.Keys == a.Keys && r[id] == a[id].(meta := m) && forall j | j in a && j != id :: r[j] == a[j]
  {
    var r := a[id := a[id].(meta := m)];
    SameKindsClosed(a, r, id);
    r
  }

  /** A new node at an unused id. */
  function Alloc(a: Nodes, id: Id, n: Node): (r: Nodes)
    requires id !in a
    ensures Rooted(a) && Fine(a, n.kind) ==> Rooted(r)
    ensures Relative(a) && RelativeNames(n.kind) ==> Relative(r)
    ensures r.Keys == a.Keys + {id} && r[id] == n && forall j | j in a :: r[j] == a[j]
  {
    var r := a[id := n];
    AllocClosed(a, r, id);
    r
  }

  /** `files.set(name, id)` on directory `dir`. */
  function SetEntry(a: Nodes, dir: Id, name: string, id: Id): (r: Nodes)
    requires IsDir(a, dir)
    ensures Rooted(a) && id in a ==> Rooted(r)
    ensures Relative(a) && !StartsWith(name, "/") ==> Relative(r)
    ensures r.Keys == a.Keys && IsDir(r, dir) && r[dir].meta == a[dir].meta
    ensures Files(r, dir) == OrdMap.Set(Files(a, dir), name, id) && AbsPath(r, dir) == AbsPath(a, dir)
    ensures forall j | j in a && j != dir :: r[j] == a[j]
  {
    var r := a[dir := a[dir].(kind := a[dir].kind.(files := OrdMap.Set(Files(a, dir), name, id)))];
    SetEntryClosed(a, r, dir, name, id);
    r
  }

  /** `files.delete(name)` on directory `dir`. */
  function RemoveEntry(a: Nodes, dir: Id, name: string): (r: Nodes)
    requires IsDir(a, dir)
    ensures Rooted(a) ==> Rooted(r)
    ensures Relative(a) ==> Relative(r)
    ensures r.Keys == a.Keys && IsDir(r, dir) && r[dir].meta == a[dir].meta
    ensures Files(r, dir) == OrdMap.Delete(Files(a, dir), name) && AbsPath(r, dir) == AbsPath(a, dir)
    ensures forall j | j in a && j != dir :: r[j] == a[j]
  {
    var r := a[dir := a[dir].(kind := a[dir].kind.(files := OrdMap.Delete(Files(a, dir), name)))];
    RemoveEntryClosed(a, r, dir, name);
    r
  }

  /** How many times `link` counts the new link: twice when it hands the path on to the root. */
  function Hops(a: Nodes, dir: Id, path: PathArg): nat
    requires IsDir(a, dir)
  {
    match ParsePathArg(path, AbsPath(a, dir))
    case Ok(parsed) => if StartsWith(parsed, AbsPath(a, dir)) then 1 else 2
    case Err(_) => 1
  }

  /**
   * `link(path, file)` on directory `dir`. The link count goes up first, even when the call then
   * fails. A path outside `absPath` goes to the root's `link`, which counts it again. Inside, the
   * rest after `absPath` names either a parent directory and a last segment, or a single name,
   * which is stored without its first character.
   */
  function Link(a: Nodes, dir: Id, path: PathArg, file: Id): (r: Outcome<()>)
    requires Rooted(a) && IsDir(a, dir) && file in a
    ensures Rooted(r.nodes) && r.nodes.Keys == a.Keys && (Relative(a) ==> Relative(r.nodes))
    ensures r.nodes[file].meta == a[file].meta.(nlink := a[file].meta.nlink + Hops(a, dir, path))
    ensures forall j | j in a && !a[j].kind.Directory? :: r.nodes[j].kind == a[j].kind
    decreases Rank(dir)
  {
    var b := Bump(a, file, 1);
    match ParsePathArg(path, AbsPath(a, dir))
    case Err(e) => Outcome(b, Err(e))
    case Ok(parsed) =>
      if !StartsWith(parsed, AbsPath(a, dir)) then Link(b, ROOT, PStr(parsed), file)
      else LinkInside(b, dir, SliceFrom(parsed, |AbsPath(a, dir)|), file)
  }

  /**
   * The part of `link` after the counting, for a path whose rest after `absPath` is `relPath`:
   * with a `/` in it, the last segment goes into the directory the rest names; without, the name
   * is `relPath` without its first character.
   */
  function LinkInside(a: Nodes, dir: Id, relPath: string, file: Id): (r: Outcome<()>)
    requires Rooted(a) && IsDir(a, dir) && file in a
    ensures Rooted(r.nodes) && r.nodes.Keys == a.Keys && r.nodes[file].meta == a[file].meta
    ensures Relative(a) ==> Relative(r.nodes)
    ensures forall j | j in a && !a[j].kind.Directory? :: r.nodes[j].kind == a[j].kind
  {
    if '/' in relPath then
      var parts := Split(relPath, '/');
      match GetDir(a, dir, PStr(Join(parts[..|parts| - 1], "/")))
      case Err(e) => Outcome(a, Err(e))
      case Ok(parent) =>
        SplitPiecesFree(relPath, {'/'});
        FreeNotRooted(parts[|parts| - 1]);
        Outcome(SetEntry(a, parent, parts[|parts| - 1], file), Ok(()))
    else
      NoSlashTail(relPath);
      Outcome(SetEntry(a, dir, SliceFrom(relPath, 1), file), Ok(()))
  }

  lemma FreeNotRooted(s: string)
    requires Free(s, {'/'})
    ensures !StartsWith(s, "/")
  {
    if |s| > 0 {
      assert s[0] != '/';
    }
  }

  lemma NoSlashTail(s: string)
    requires '/' !in s
    ensures !StartsWith(SliceFrom(s, 1), "/")
  {
    if |s| > 1 {
      assert SliceFrom(s, 1)[0] == s[1];
    }
  }

  /**
   * `unlink(path)` on directory `dir`: the parsed path, parsed once more, is looked up as one
   * name among the directory's entries; if present, its link count goes down by one and the
   * entry is deleted.
   */
  function Unlink(a: Nodes, dir: Id, path: PathArg): (r: Outcome<Id>)
    requires Rooted(a) && IsDir(a, dir)
    ensures Rooted(r.nodes) && r.nodes.Keys == a.Keys && (Relative(a) ==> Relative(r.nodes))
    ensures r.result.Ok? ==> r.result.value in a
  {
    match ParsePathArg(path, AbsPath(a, dir))
    case Err(e) => Outcome(a, Err(e))
    case Ok(parsed) =>
      match ParsePathArg(PStr(parsed), AbsPath(a, dir))
      case Err(e) => Outcome(a, Err(e))
      case Ok(key) =>
        match OrdMap.Get(Files(a, dir), key)
        case None => Outcome(a, Err(Shown(path) + " does not exist"))
        case Some(id) =>
          ChildIn(a, dir, key);
          Outcome(RemoveEntry(Bump(a, id, -1), dir, parsed), Ok(id))
  }

  /** The metadata of a new file object made by directory `dir`: its owner, the default mode and `kind`. */
  function OwnedMeta(a: Nodes, dir: Id, kind: bv32, now: int): Meta
    requires dir in a
  {
    NewMeta(DEFAULT_FILE_MODE, kind, a[dir].meta.uid, a[dir].meta.gid, now)
  }

  /**
   * `symlink(target, path)`: the target is parsed and resolved through the root right away (the
   * link's `linkedTo`), then a new link object is linked at `path`.
   */
  function MakeSymlink(a: Nodes, dir: Id, target: PathArg, path: PathArg, next: Id, now: int): (r: Outcome<()>)
    requires Rooted(a) && IsDir(a, dir) && Unused(a, next)
    ensures Rooted(r.nodes) && Unused(r.nodes, next + 1) && a.Keys <= r.nodes.Keys
    ensures Relative(a) ==> Relative(r.nodes)
  {
    match ParsePathArg(target, AbsPath(a, dir))
    case Err(e) => Outcome(a, Err(e))
    case Ok(t) =>
      match Get(a, ROOT, PStr(t))
      case Err(e) => Outcome(a, Err(e))
      case Ok(to) => Place(a, dir, path, Node(OwnedMeta(a, dir, S_IFLNK, now), Symlink(t, to)), next)
  }

  /** `addDevice(path, …)`: a new device (its callbacks are not modelled) linked at the parsed path. */
  function AddDevice(a: Nodes, dir: Id, path: PathArg, next: Id, now: int): (r: Outcome<()>)
    requires Rooted(a) && IsDir(a, dir) && Unused(a, next)
    ensures Rooted(r.nodes) && Unused(r.nodes, next + 1) && a.Keys <= r.nodes.Keys
    ensures Relative(a) ==> Relative(r.nodes)
  {
    match ParsePathArg(path, AbsPath(a, dir))
    case Err(e) => Outcome(a, Err(e))
    case Ok(parsed) => Place(a, dir, PStr(parsed), Node(OwnedMeta(a, dir, S_IFCHR, now), Device), next)
  }

  /** A new object `n` takes the next id and is linked at `path` (`symlink`, `addDevice`, `write`). */
  function Place(a: Nodes, dir: Id, path: PathArg, n: Node, next: Id): (r: Outcome<()>)
    requires Rooted(a) && IsDir(a, dir) && Unused(a, next) && Fine(a, n.kind)
    ensures Rooted(r.nodes) && Unused(r.nodes, next + 1) && a.Keys + {next} == r.nodes.Keys
    ensures Relative(a) && RelativeNames(n.kind) ==> Relative(r.nodes)
  {
    Link(Alloc(a, next, n), dir, path, next)
  }

  /**
   * `mkdir(path, false, mode)`: a new empty directory with the owner of `dir`, the parsed mode
   * and `absPath` = `join(absPath, parsed) + '/'`, stored under the parsed path without its
   * leading `/` (so `a/b` is one name). Its link count stays 0.
   */
  function MkdirOne(a: Nodes, dir: Id, path: PathArg, mode: ModeArg, next: Id, now: int): (r: Outcome<Id>)
    requires Rooted(a) && IsDir(a, dir) && Unused(a, next)
    ensures Rooted(r.nodes) && Unused(r.nodes, next + 1) && a.Keys <= r.nodes.Keys
    ensures Relative(a) ==> Relative(r.nodes)
    ensures r.result.Ok? ==> r.result.value == next && IsDir(r.nodes, next)
  {
    match ParsePathArg(path, AbsPath(a, dir))
    case Err(e) => Outcome(a, Err(e))
    case Ok(parsed) =>
      match ParseModeArg(mode)
      case Err(e) => Outcome(a, Err(e))
      case Ok(m) => Outcome(NewDirectory(a, dir, parsed, NumToInt32(m), next, now), Ok(next))
  }

  /** The arena after `mkdir` has made directory `next` for the parsed path `parsed` with mode bits `mode`. */
  function NewDirectory(a: Nodes, dir: Id, parsed: string, mode: int, next: Id, now: int): (r: Nodes)
    requires Rooted(a) && IsDir(a, dir) && Unused(a, next) && !StartsWith(SliceFrom(parsed, 1), "/")
    ensures Rooted(r) && Unused(r, next + 1) && r.Keys == a.Keys + {next} && IsDir(r, next)
    ensures Relative(a) ==> Relative(r)
  {
    var meta := NewMeta(mode, S_IFDIR, a[dir].meta.uid, a[dir].meta.gid, now);
    var b := Alloc(a, next, Node(meta, Directory([], JoinPaths([AbsPath(a, dir), parsed]) + "/")));
    SetEntry(b, dir, SliceFrom(parsed, 1), next)
  }

  /** The default `mode` argument of `mkdir`. */
  const MKDIR_MODE: ModeArg := MNum(0xFF8)

  /**
   * The loop of `mkdir(path, true)` from its `i`-th round: if the current directory `exists` the
   * `i`-th segment the call fails, otherwise `mkdir(path)` (the whole path, not the segment) is
   * made inside the current directory and becomes the current one. New ids are `next`, `next + 1`, ….
   */
  function MkdirChain(a: Nodes, cur: Id, path: PathArg, segs: seq<string>, i: nat, next: Id, now: int): (r: Outcome<Id>)
    requires Rooted(a) && IsDir(a, cur) && Unused(a, next) && i <= |segs|
    ensures Rooted(r.nodes) && Unused(r.nodes, next + |segs| - i) && a.Keys <= r.nodes.Keys
    ensures Relative(a) ==> Relative(r.nodes)
    ensures r.result.Ok? ==> IsDir(r.nodes, r.result.value)
    decreases |segs| - i
  {
    if i == |segs| then Outcome(a, Ok(cur))
    else
      // A string argument always parses, so `exists` answers.
      if Exists(a, cur, PStr(segs[i])) == Ok(true) then
        Outcome(a, Err("cannot create " + Shown(path) + ": " + Join(segs[..i], "/") + " exists"))
      else
        var o := MkdirOne(a, cur, path, MKDIR_MODE, next, now);
        match o.result
        case Err(e) => Outcome(o.nodes, Err(e))
        case Ok(d) => MkdirChain(o.nodes, d, path, segs, i + 1, next + 1, now)
  }

  /** A round of the loop of `mkdir(path, true)` that makes a directory hands on to the next round. */
  lemma MkdirChainStep(a: Nodes, cur: Id, path: PathArg, segs: seq<string>, i: nat, next: Id, now: int,
                       b: Nodes, d: Id, j: nat, after: Id)
    requires Rooted(a) && IsDir(a, cur) && Unused(a, next) && i < |segs| && j == i + 1 && after == next + 1
    requires Exists(a, cur, PStr(segs[i])) != Ok(true)
    requires Outcome(b, Ok(d)) == MkdirOne(a, cur, path, MKDIR_MODE, next, now)
    requires Rooted(b) && IsDir(b, d) && Unused(b, after)
    ensures MkdirChain(a, cur, path, segs, i, next, now) == MkdirChain(b, d, path, segs, j, after, now)
  {
  }

  /** `mkdir(path, recursive, mode)`; the recursive form ignores `mode`. */
  function Mkdir(a: Nodes, dir: Id, path: PathArg, recursive: bool, mode: ModeArg, next: Id, now: int): (r: Outcome<Id>)
    requires Rooted(a) && IsDir(a, dir) && Unused(a, next)
    ensures Rooted(r.nodes) && a.Keys <= r.nodes.Keys && (Relative(a) ==> Relative(r.nodes))
    ensures r.result.Ok? ==> IsDir(r.nodes, r.result.value)
  {
    match ParsePathArg(path, AbsPath(a, dir))
    case Err(e) => Outcome(a, Err(e))
    case Ok(parsed) =>
      if recursive then MkdirChain(a, dir, path, Split(parsed, '/'), 0, next, now)
      else MkdirOne(a, dir, path, mode, next, now)
  }

  // ---------------------------------------------------------------------------------------------
  // File contents

  /**
   * `data.set(src, offset)` on a `Uint8Array`: the bytes of `src` overwrite those from `offset`
   * on; the array never grows, and a negative offset or a source running past the end is a
   * `RangeError`.
   */
  function SetAt(data: seq<byte>, src: seq<byte>, offset: int): (r: Result<seq<byte>>)
    ensures r.Ok? <==> 0 <= offset && offset + |src| <= |data|
    ensures r.Ok? ==> |r.value| == |data| && r.value[offset..offset + |src|] == src
    ensures r.Ok? ==> forall k | 0 <= k < |data| && !(offset <= k < offset + |src|) :: r.value[k] == data[k]
    ensures r.Err? ==> r == Err(FsFormat.SET_RANGE)
  {
    if 0 <= offset && offset + |src| <= |data| then Ok(data[..offset] + src + data[offset + |src|..])
    else Err(FsFormat.SET_RANGE)
  }

  /**
   * `RegularFile.write(bytes, position, length)` on the bytes `data`: at position 0 without a
   * length the bytes are replaced; otherwise the bytes (cut to `length`) is set at `position`
   * (0 when absent).
   */
  function WriteData(data: seq<byte>, bytes: seq<byte>, position: Option<int>, length: Option<int>): (r: Result<seq<byte>>)
    ensures position == Some(0) && length.None? ==> r == Ok(bytes)
    ensures !(position == Some(0) && length.None?) ==> r.Ok? ==> |r.value| == |data|
    ensures r.Err? ==> r == Err(FsFormat.SET_RANGE)
  {
    if position == Some(0) && length.None? then Ok(bytes)
    else SetAt(data, if length.Some? then Slice(bytes, 0, length.value) else bytes, if position.Some? then position.value else 0)
  }

  lemma RegularClosed(a: Nodes, r: Nodes, id: Id)
    requires id in a && id in r && r == a[id := r[id]] && a[id].kind.Regular? && r[id].kind.Regular?
    ensures Rooted(a) ==> Rooted(r)
  {
    if Rooted(a) {
      ClosedAfter(a, r, id);
    }
  }

  /** The arena after the contents of regular file `id` became `data` at time `now` (`setMtime`). */
  function Rewrite(a: Nodes, id: Id, data: seq<byte>, now: int): (r: Nodes)
    requires id in a && a[id].kind.Regular?
    ensures Rooted(a) ==> Rooted(r)
    ensures Relative(a) ==> Relative(r)
    ensures r.Keys == a.Keys && r[id].kind == Regular(data) && r[id].meta.times.mtime == now
    ensures r[id].meta == a[id].meta.(times := a[id].meta.times.(mtime := now))
    ensures forall j | j in a && j != id :: r[j] == a[j]
  {
    var r := a[id := Node(a[id].meta.(times := a[id].meta.times.(mtime := now)), Regular(data))];
    RegularClosed(a, r, id);
    r
  }

  /** `RegularFile.write(bytes, position, length)` on file `id`: new contents and a new `mtime`, or a `RangeError`. */
  function WriteFile(a: Nodes, id: Id, bytes: seq<byte>, position: Option<int>, length: Option<int>, now: int): (r: Outcome<()>)
    requires id in a && a[id].kind.Regular?
    ensures Rooted(a) ==> Rooted(r.nodes)
    ensures Relative(a) ==> Relative(r.nodes)
    ensures r.nodes.Keys == a.Keys
  {
    match WriteData(a[id].kind.data, bytes, position, length)
    case Err(e) => Outcome(a, Err(e))
    case Ok(data) => Outcome(Rewrite(a, id, data, now), Ok(()))
  }

  /**
   * `write(path, data, position, length)` on directory `dir`, with `data` already encoded: a path
   * that `exists` is written through `getRegular`; any other gets a new regular file, owned like
   * `dir`, linked at `path`.
   */
  function Write(a: Nodes, dir: Id, path: PathArg, data: seq<byte>, position: Option<int>, length: Option<int>, next: Id, now: int): (r: Outcome<()>)
    requires Rooted(a) && IsDir(a, dir) && Unused(a, next)
    ensures Rooted(r.nodes) && Unused(r.nodes, next + 1) && a.Keys <= r.nodes.Keys
    ensures Relative(a) ==> Relative(r.nodes)
  {
    match Exists(a, dir, path)
    case Err(e) => Outcome(a, Err(e))
    case Ok(true) => Overwrite(a, dir, path, data, position, length, now)
    case Ok(false) => Place(a, dir, path, Node(OwnedMeta(a, dir, S_IFREG, now), Regular(data)), next)
  }

  /** The first branch of `write`: the path exists, and must be a regular file. */
  function Overwrite(a: Nodes, dir: Id, path: PathArg, data: seq<byte>, position: Option<int>, length: Option<int>, now: int): (r: Outcome<()>)
    requires Rooted(a) && IsDir(a, dir)
    ensures Rooted(r.nodes) && r.nodes.Keys == a.Keys
    ensures Relative(a) ==> Relative(r.nodes)
  {
    match GetRegular(a, dir, path)
    case Err(e) => Outcome(a, Err(e))
    case Ok(id) => WriteFile(a, id, data, position, length, now)
  }

  /** `RegularFile.append(bytes)`: the old bytes followed by the new ones. */
  function Append(a: Nodes, id: Id, bytes: seq<byte>, now: int): (r: Nodes)
    requires id in a && a[id].kind.Regular?
    ensures Rooted(a) ==> Rooted(r)
    ensures Relative(a) ==> Relative(r)
    ensures r.Keys == a.Keys && r[id].kind == Regular(a[id].kind.data + bytes)
  {
    Rewrite(a, id, a[id].kind.data + bytes, now)
  }

  /** `read(path, start = 0, length = -1)` on directory `dir`: `data.slice(start, length)` of the regular file. */
  function Read(a: Nodes, dir: Id, path: PathArg, start: Option<int>, length: Option<int>): (r: Result<seq<byte>>)
    requires Rooted(a) && IsDir(a, dir)
  {
    match GetRegular(a, dir, path)
    case Err(e) => Err(e)
    case Ok(id) =>
      Ok(Slice(a[id].kind.data, if start.Some? then start.value else 0, if length.Some? then length.value else -1))
  }

  // ---------------------------------------------------------------------------------------------
  // Sizes and export

  /** Every entry of `files` is allocated. */
  predicate Within(a: Nodes, files: OrdMap.Entries<string, Id>)
  {
    forall e | e in files :: e.1 in a
  }

  lemma FilesWithin(a: Nodes, dir: Id)
    requires Closed(a) && IsDir(a, dir)
    ensures Within(a, Files(a, dir))
  {
    assert Fine(a, a[dir].kind);
  }

  /**
   * `recursiveSize`: the number of entries plus the `recursiveSize` of every entry that is a
   * directory. The source recurses without bound (a directory linked into itself never returns);
   * `fuel` bounds the depth and `None` means it ran out.
   */
  function RecursiveSize(a: Nodes, dir: Id, fuel: nat): (r: Option<nat>)
    requires Closed(a) && IsDir(a, dir)
    decreases fuel, 0
  {
    if fuel == 0 then None
    else
      FilesWithin(a, dir);
      match SubdirSizes(a, Files(a, dir), |Files(a, dir)|, fuel - 1)
      case None => None
      case Some(n) => Some(|Files(a, dir)| + n)
  }

  /** The sum of the `recursiveSize` of the directories among the first `i` entries of `files`. */
  function SubdirSizes(a: Nodes, files: OrdMap.Entries<string, Id>, i: nat, fuel: nat): (r: Option<nat>)
    requires Closed(a) && Within(a, files) && i <= |files|
    decreases fuel, 1, i
  {
    if i == 0 then Some(0)
    else
      match SubdirSizes(a, files, i - 1, fuel)
      case None => None
      case Some(n) =>
        assert files[i - 1] in files;
        var id := files[i - 1].1;
        if !a[id].kind.Directory? then Some(n)
        else
          match RecursiveSize(a, id, fuel)
          case None => None
          case Some(m) => Some(n + m)
  }

  /**
   * The node `id` as the value `export` works on: the directories' entries in map order, each
   * with its subtree. `fuel` bounds the depth, as for `RecursiveSize`.
   */
  function ToTree(a: Nodes, id: Id, fuel: nat): (r: Option<FsFormat.Tree>)
    requires Closed(a) && id in a
    decreases fuel, 0
  {
    if fuel == 0 then None
    else
      var n := a[id];
      match n.kind
      case Regular(data) => Some(FsFormat.File(n.meta, data))
      case Symlink(path, _) => Some(FsFormat.Link(n.meta, path))
      case Device => Some(FsFormat.Dev(n.meta))
      case Directory(files, _) =>
        FilesWithin(a, id);
        match ToEntries(a, files, |files|, fuel - 1)
        case None => None
        case Some(es) => Some(FsFormat.Folder(n.meta, es))
  }

  /** The subtrees of the first `i` entries of `files`. */
  function ToEntries(a: Nodes, files: OrdMap.Entries<string, Id>, i: nat, fuel: nat): (r: Option<seq<(string, FsFormat.Tree)>>)
    requires Closed(a) && Within(a, files) && i <= |files|
    ensures r.Some? ==> |r.value| == i && forall k | 0 <= k < i :: r.value[k].0 == files[k].0
    decreases fuel, 1, i
  {
    if i == 0 then Some([])
    else
      match ToEntries(a, files, i - 1, fuel)
      case None => None
      case Some(es) =>
        assert files[i - 1] in files;
        match ToTree(a, files[i - 1].1, fuel)
        case None => None
        case Some(t) => Some(es + [(files[i - 1].0, t)])
  }

  /** `export()` of node `id`. */
  function ExportNode(a: Nodes, id: Id, fuel: nat): Option<Result<seq<byte>>>
    requires Closed(a) && id in a
  {
    match ToTree(a, id, fuel)
    case None => None
    case Some(t) => Some(FsFormat.Export(t))
  }
}
