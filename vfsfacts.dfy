/**
 * What the file tree operations of src/fs.ts do to the arena, as the code is written: where
 * `link` stores a name, what `exists` looks at, why `unlink` never finds anything, what a default
 * `read` returns, how `mkdir` names its directories, and that `recursiveSize` does not depend on
 * how much depth it was allowed beyond what it needed.
 */
module VfsFacts {
  import opened Wrappers
  import opened Text
  import opened Bits
  import OrdMap
  import opened FsMode
  import opened FsNode
  import opened FsPath
  import opened Vfs
  import FsFormat

  /** A string argument that is one clean name `x` parses to `/x`. */
  lemma ParseName(x: string, cwd: string)
    requires Clean(x)
    ensures ParsePathArg(PStr(x), cwd) == Ok("/" + x)
  {
    assert AllClean([x]);
    NormalizeOfCleanAbsolute([x]);
    assert Join([x], "/") == x;
  }

  /**
   * `unlink` looks the parsed path, which starts with `/`, up as one name; no name in a
   * directory starts with `/`, so it always throws and changes nothing.
   */
  lemma UnlinkNeverFinds(a: Nodes, dir: Id, path: PathArg)
    requires Rooted(a) && Relative(a) && IsDir(a, dir)
    ensures Unlink(a, dir, path).nodes == a
    ensures ParsePathArg(path, AbsPath(a, dir)).Ok? ==> Unlink(a, dir, path).result == Err(Shown(path) + " does not exist")
    ensures ParsePathArg(path, AbsPath(a, dir)).Err? ==> Unlink(a, dir, path).result == Err(ParsePathArg(path, AbsPath(a, dir)).msg)
  {
    if ParsePathArg(path, AbsPath(a, dir)).Ok? {
      var parsed := ParsePathArg(path, AbsPath(a, dir)).value;
      ReparseStable(path, AbsPath(a, dir), AbsPath(a, dir));
      NoRootedName(a, dir, parsed);
    }
  }

  /** No name in a directory starts with `/`. */
  lemma NoRootedName(a: Nodes, dir: Id, key: string)
    requires Relative(a) && IsDir(a, dir) && StartsWith(key, "/")
    ensures !OrdMap.HasKey(Files(a, dir), key)
  {
    var files := Files(a, dir);
    assert RelativeNames(a[dir].kind);
    forall i | 0 <= i < |files|
      ensures files[i].0 != key
    {
      assert files[i] in files;
    }
  }

  /**
   * `exists` looks the first segment of the parsed path up too, and that segment is the empty
   * text before the leading `/`: so it answers `true` only if the directory has an entry named ``.
   */
  lemma ExistsNeedsEmptyName(a: Nodes, dir: Id, path: PathArg)
    requires IsDir(a, dir)
    ensures Exists(a, dir, path) == Ok(true) ==> OrdMap.HasKey(Files(a, dir), "")
  {
    if ParsePathArg(path, AbsPath(a, dir)).Ok? {
      var parsed := ParsePathArg(path, AbsPath(a, dir)).value;
      SplitLeading(parsed, '/');
    }
  }

  /**
   * `link(x, file)` in the root for a single name `x`: the link count goes up by one and the
   * file is stored under `x` without its first character.
   */
  lemma LinkDropsFirstChar(a: Nodes, x: string, file: Id)
    requires Rooted(a) && file in a && Clean(x)
    ensures Link(a, ROOT, PStr(x), file) == Outcome(SetEntry(Bump(a, file, 1), ROOT, x[1..], file), Ok(()))
  {
    ParseName(x, AbsPath(a, ROOT));
    NameSlices(x);
    var b := Bump(a, file, 1);
    assert Link(a, ROOT, PStr(x), file) == LinkInside(b, ROOT, x, file);
  }

  lemma NameSlices(x: string)
    requires Clean(x)
    ensures SliceFrom("/" + x, 1) == x && SliceFrom(x, 1) == x[1..] && '/' !in x
  {
    assert Free(x, {'/'});
  }

  /** With no length, `read` stops one byte short of the end: the default end index is -1. */
  lemma ReadDropsLastByte(a: Nodes, dir: Id, path: PathArg, id: Id)
    requires Rooted(a) && IsDir(a, dir) && GetRegular(a, dir, path) == Ok(id)
    ensures Read(a, dir, path, None, None) == Ok(if |a[id].kind.data| == 0 then [] else a[id].kind.data[..|a[id].kind.data| - 1])
  {
  }

  /** Allowing `recursiveSize` more depth than it needed does not change its answer. */
  lemma {:induction false} RecursiveSizeMoreFuel(a: Nodes, dir: Id, fuel: nat, more: nat)
    requires Closed(a) && IsDir(a, dir) && fuel <= more && RecursiveSize(a, dir, fuel).Some?
    ensures RecursiveSize(a, dir, more) == RecursiveSize(a, dir, fuel)
    decreases fuel, 0
  {
    FilesWithin(a, dir);
    SubdirSizesMoreFuel(a, Files(a, dir), |Files(a, dir)|, fuel - 1, more - 1);
  }

  lemma {:induction false} SubdirSizesMoreFuel(a: Nodes, files: OrdMap.Entries<string, Id>, i: nat, fuel: nat, more: nat)
    requires Closed(a) && Within(a, files) && i <= |files| && fuel <= more
    requires SubdirSizes(a, files, i, fuel).Some?
    ensures SubdirSizes(a, files, i, more) == SubdirSizes(a, files, i, fuel)
    decreases fuel, 1, i
  {
    if i > 0 {
      SubdirSizesMoreFuel(a, files, i - 1, fuel, more);
      assert files[i - 1] in files;
      var id := files[i - 1].1;
      if a[id].kind.Directory? {
        RecursiveSizeMoreFuel(a, id, fuel, more);
      }
    }
  }

  /** A string argument `d/x` of two clean names parses to `/d/x` and splits into the two names. */
  lemma ParsePair(d: string, x: string, cwd: string)
    requires Clean(d) && Clean(x)
    ensures ParsePathArg(PStr(d + "/" + x), cwd) == Ok("/" + (d + "/" + x))
    ensures SliceFrom("/" + (d + "/" + x), 1) == d + "/" + x && '/' in d + "/" + x
    ensures Split(d + "/" + x, '/') == [d, x] && Split(d, '/') == [d] && Join([d, x][..1], "/") == d
  {
    assert AllClean([d, x]);
    assert Join([d, x], "/") == d + "/" + x by {
      assert Join([d, x][1..], "/") == x;
    }
    NormalizeOfCleanAbsolute([d, x]);
    assert (d + "/" + x)[|d|] == '/';
    SplitJoin([d, x], '/');
    FirstInFree(d, {'/'});
    assert [d, x][..1] == [d];
  }

  /**
   * `link('d/x', file)` in the root, where `d` names a directory other than the root: the file is
   * stored under `x` in that directory, and `get('d/x')` then finds it (through the link, if it
   * is one).
   */
  lemma LinkIntoSubdirectory(a: Nodes, d: string, x: string, sub: Id, file: Id)
    requires Rooted(a) && file in a && Clean(d) && Clean(x)
    requires OrdMap.Get(Files(a, ROOT), d) == Some(sub) && IsDir(a, sub) && sub != ROOT
    ensures Link(a, ROOT, PStr(d + "/" + x), file).result == Ok(())
    ensures Get(Link(a, ROOT, PStr(d + "/" + x), file).nodes, ROOT, PStr(d + "/" + x)) == Ok(Deref(a, file))
  {
    var b := Bump(a, file, 1);
    LinkPairInside(a, b, d, x, sub, file);
    FoundAfterSet(a, SetEntry(b, sub, x, file), d, x, sub, file);
  }

  /** The first half of `LinkIntoSubdirectory`: the link lands as `x` in `sub`. */
  lemma LinkPairInside(a: Nodes, b: Nodes, d: string, x: string, sub: Id, file: Id)
    requires Rooted(a) && file in a && Clean(d) && Clean(x) && b == Bump(a, file, 1)
    requires OrdMap.Get(Files(a, ROOT), d) == Some(sub) && IsDir(a, sub) && sub != ROOT
    ensures IsDir(b, sub) && Rooted(b)
    ensures Link(a, ROOT, PStr(d + "/" + x), file) == Outcome(SetEntry(b, sub, x, file), Ok(()))
  {
    var p := d + "/" + x;
    ParsePair(d, x, AbsPath(a, ROOT));
    assert Link(a, ROOT, PStr(p), file) == LinkInside(b, ROOT, p, file);
    LgetName(b, d);
    assert Get(b, ROOT, PStr(d)) == Ok(sub);
  }

  /** The second half of `LinkIntoSubdirectory`: `get('d/x')` walks to the new entry. */
  lemma FoundAfterSet(a: Nodes, r: Nodes, d: string, x: string, sub: Id, file: Id)
    requires Rooted(a) && file in a && Clean(d) && Clean(x) && IsDir(a, sub) && sub != ROOT
    requires OrdMap.Get(Files(a, ROOT), d) == Some(sub)
    requires r == SetEntry(Bump(a, file, 1), sub, x, file)
    ensures Rooted(r)
    ensures Get(r, ROOT, PStr(d + "/" + x)) == Ok(Deref(a, file))
  {
    var b := Bump(a, file, 1);
    assert OrdMap.Get(Files(r, sub), x) == Some(file) by {
      assert Files(b, sub) == Files(a, sub);
      assert Fine(a, a[sub].kind);
      OrdMap.SetFind(Files(b, sub), x, file, x);
    }
    assert OrdMap.Get(Files(r, ROOT), d) == Some(sub) by {
      assert Files(r, ROOT) == Files(b, ROOT) == Files(a, ROOT);
    }
    WalkPair(r, d, x, sub, file);
    LgetPair(r, d, x);
    if file != sub {
      assert r[file] == b[file];
    }
  }

  /** Walking `[d, x]` from the root follows `d` to `sub` and `x` on to `file`. */
  lemma WalkPair(a: Nodes, d: string, x: string, sub: Id, file: Id)
    requires Rooted(a) && IsDir(a, sub)
    requires OrdMap.Get(Files(a, ROOT), d) == Some(sub) && OrdMap.Get(Files(a, sub), x) == Some(file)
    ensures Walk(a, ROOT, [d, x], 0) == Ok(file)
  {
    assert Walk(a, ROOT, [d, x], 0) == Walk(a, sub, [d, x], 1);
  }

  /** `lget` of one clean name in the root walks that name. */
  lemma LgetName(a: Nodes, x: string)
    requires Rooted(a) && Clean(x)
    ensures Lget(a, ROOT, PStr(x)) == Walk(a, ROOT, [x], 0)
  {
    ParseName(x, AbsPath(a, ROOT));
    NameSlices(x);
    FirstInFree(x, {'/'});
  }

  /** `lget` of `d/x` in the root walks the two names. */
  lemma LgetPair(a: Nodes, d: string, x: string)
    requires Rooted(a) && Clean(d) && Clean(x)
    ensures Lget(a, ROOT, PStr(d + "/" + x)) == Walk(a, ROOT, [d, x], 0)
  {
    ParsePair(d, x, AbsPath(a, ROOT));
  }

  /** `join('/', '/x')`, the `absPath` base of a directory made in the root, is `/x`. */
  lemma JoinRootName(x: string)
    requires Clean(x)
    ensures JoinPaths(["/", "/" + x]) == "/" + x
  {
    assert Join(["/", "/" + x], "/") == "/" + ("/" + ("/" + x)) by {
      assert Join(["/", "/" + x][1..], "/") == "/" + x;
    }
    NormalizeExtraRoot("/" + ("/" + x));
    NormalizeExtraRoot("/" + x);
    assert AllClean([x]);
    NormalizeOfCleanAbsolute([x]);
    assert Join([x], "/") == x;
  }

  /**
   * `mkdir(x)` in the root for one clean name: a new empty directory with `absPath` `/x/` and no
   * links, stored under `x`, where `get(x)` finds it.
   */
  lemma MkdirName(a: Nodes, x: string, mode: ModeArg, next: Id, now: int) returns (r: Outcome<Id>)
    requires Rooted(a) && Unused(a, next) && Clean(x) && ParseModeArg(mode).Ok?
    ensures r == Mkdir(a, ROOT, PStr(x), false, mode, next, now)
    ensures r.result == Ok(next) && IsDir(r.nodes, next) && Files(r.nodes, next) == []
    ensures AbsPath(r.nodes, next) == "/" + x + "/" && r.nodes[next].meta.nlink == 0
    ensures Get(r.nodes, ROOT, PStr(x)) == Ok(next)
  {
    ParseName(x, AbsPath(a, ROOT));
    NameSlices(x);
    JoinRootName(x);
    r := Mkdir(a, ROOT, PStr(x), false, mode, next, now);
    var n := NewDirectory(a, ROOT, "/" + x, NumToInt32(ParseModeArg(mode).value), next, now);
    assert r == Outcome(n, Ok(next));
    assert Files(n, ROOT) == OrdMap.Set(Files(a, ROOT), x, next);
    assert Fine(a, a[ROOT].kind);
    OrdMap.SetFind(Files(a, ROOT), x, next, x);
    LgetName(n, x);
    assert Walk(n, ROOT, [x], 0) == Walk(n, next, [x], 1);
  }

  /**
   * `mkdir('d/x')` stores the new directory under the single name `d/x`, which `lget` never looks
   * up: when the root has no `d`, `get('d/x')` still fails afterwards.
   */
  lemma MkdirNestedName(a: Nodes, d: string, x: string, mode: ModeArg, next: Id, now: int) returns (r: Outcome<Id>)
    requires Rooted(a) && Unused(a, next) && Clean(d) && Clean(x) && ParseModeArg(mode).Ok?
    requires !OrdMap.HasKey(Files(a, ROOT), d)
    ensures r == Mkdir(a, ROOT, PStr(d + "/" + x), false, mode, next, now)
    ensures r.result == Ok(next) && OrdMap.Get(Files(r.nodes, ROOT), d + "/" + x) == Some(next)
    ensures Get(r.nodes, ROOT, PStr(d + "/" + x)) == Err(d + " does not exist")
  {
    var p := d + "/" + x;
    ParsePair(d, x, AbsPath(a, ROOT));
    r := Mkdir(a, ROOT, PStr(p), false, mode, next, now);
    var n := NewDirectory(a, ROOT, "/" + p, NumToInt32(ParseModeArg(mode).value), next, now);
    assert r == Outcome(n, Ok(next));
    assert Files(n, ROOT) == OrdMap.Set(Files(a, ROOT), p, next);
    assert Fine(a, a[ROOT].kind);
    OrdMap.SetFind(Files(a, ROOT), p, next, p);
    assert |p| > |d|;
    OrdMap.SetFind(Files(a, ROOT), p, next, d);
    LgetPair(n, d, x);
  }

  /**
   * `write(x, data)` in the root, for one clean name, when the root has no entry named ``:
   * `exists` answers false, so a new regular file owned like the root is made and `link`
   * stores it under `x` without its first character, with one link.
   */
  lemma WriteNewFile(a: Nodes, x: string, data: seq<byte>, position: Option<int>, length: Option<int>, next: Id, now: int) returns (r: Outcome<()>)
    requires Rooted(a) && Unused(a, next) && Clean(x) && !OrdMap.HasKey(Files(a, ROOT), "")
    ensures r == Write(a, ROOT, PStr(x), data, position, length, next, now)
    ensures r.result == Ok(()) && Files(r.nodes, ROOT) == OrdMap.Set(Files(a, ROOT), x[1..], next)
    ensures r.nodes[next] == Node(OwnedMeta(a, ROOT, S_IFREG, now).(nlink := 1), Regular(data))
  {
    ExistsNeedsEmptyName(a, ROOT, PStr(x));
    ParseName(x, AbsPath(a, ROOT));
    var b := Alloc(a, next, Node(OwnedMeta(a, ROOT, S_IFREG, now), Regular(data)));
    r := Write(a, ROOT, PStr(x), data, position, length, next, now);
    assert r == Link(b, ROOT, PStr(x), next);
    LinkDropsFirstChar(b, x, next);
  }

  /**
   * `symlink(target, path)` resolves the target once, when the link is made: a target that does
   * not resolve leaves the arena as it was, and otherwise the new link keeps the node the target
   * named then, which is what `get` through the link gives from then on.
   */
  lemma SymlinkFixesTarget(a: Nodes, dir: Id, target: PathArg, path: PathArg, next: Id, now: int) returns (r: Outcome<()>)
    requires Rooted(a) && IsDir(a, dir) && Unused(a, next)
    ensures r == MakeSymlink(a, dir, target, path, next, now)
    ensures ParsePathArg(target, AbsPath(a, dir)).Err? ==> r == Outcome(a, Err(ParsePathArg(target, AbsPath(a, dir)).msg))
    ensures ParsePathArg(target, AbsPath(a, dir)).Ok? && Get(a, ROOT, PStr(ParsePathArg(target, AbsPath(a, dir)).value)).Err? ==>
      r == Outcome(a, Err(Get(a, ROOT, PStr(ParsePathArg(target, AbsPath(a, dir)).value)).msg))
    ensures ParsePathArg(target, AbsPath(a, dir)).Ok? && Get(a, ROOT, PStr(ParsePathArg(target, AbsPath(a, dir)).value)).Ok? ==>
      r.nodes[next].kind == Symlink(ParsePathArg(target, AbsPath(a, dir)).value, Get(a, ROOT, PStr(ParsePathArg(target, AbsPath(a, dir)).value)).value) &&
      Deref(r.nodes, next) == Get(a, ROOT, PStr(ParsePathArg(target, AbsPath(a, dir)).value)).value
  {
    r := MakeSymlink(a, dir, target, path, next, now);
  }

  /** `Split('/' + x, '/')` for a clean name: an empty first segment, then `x`. */
  lemma RootedNameSplit(x: string)
    requires Clean(x)
    ensures Split("/" + x, '/') == ["", x]
  {
    var s := "/" + x;
    assert FirstIn(s, {'/'}) == 0;
    assert s[1..] == x;
    assert Free(x, {'/'});
    FirstInFree(x, {'/'});
    assert SplitBy(x, {'/'}) == [x];
    assert SplitBy(s, {'/'}) == [s[..0]] + SplitBy(s[1..], {'/'});
  }

  /**
   * The non-recursive `mkdir` of one clean name with the default mode, inside any directory:
   * the parsed path is `/x` whatever the directory, so the new empty directory is stored there
   * under `x`, and no other node changes.
   */
  lemma MkdirOneName(a: Nodes, dir: Id, x: string, next: Id, now: int) returns (n: Nodes)
    requires Rooted(a) && IsDir(a, dir) && Unused(a, next) && Clean(x)
    ensures MkdirOne(a, dir, PStr(x), MKDIR_MODE, next, now) == Outcome(n, Ok(next))
    ensures Rooted(n) && Unused(n, next + 1) && IsDir(n, next) && Files(n, next) == [] && IsDir(n, dir)
    ensures Files(n, dir) == OrdMap.Set(Files(a, dir), x, next)
    ensures forall j | j in a && j != dir :: n[j] == a[j]
  {
    ParseName(x, AbsPath(a, dir));
    NameSlices(x);
    n := NewDirectory(a, dir, "/" + x, NumToInt32(ParseModeArg(MKDIR_MODE).value), next, now);
  }

  /**
   * `mkdir(x, true)` in a root without an entry named ``: `exists` never finds the segment, and
   * each round makes `mkdir(x)` inside the directory made by the round before. The segments of
   * `/x` are `` and `x`, so the call makes `x` and then `x` inside it, and returns the inner one.
   */
  lemma MkdirRecursiveNests(a: Nodes, x: string, mode: ModeArg, next: Id, now: int) returns (r: Outcome<Id>)
    requires Rooted(a) && Unused(a, next) && Clean(x) && !OrdMap.HasKey(Files(a, ROOT), "")
    ensures r == Mkdir(a, ROOT, PStr(x), true, mode, next, now)
    ensures r.result == Ok(next + 1) && IsDir(r.nodes, next) && IsDir(r.nodes, next + 1)
    ensures Files(r.nodes, ROOT) == OrdMap.Set(Files(a, ROOT), x, next)
    ensures Files(r.nodes, next) == [(x, next + 1)] && Files(r.nodes, next + 1) == []
  {
    ParseName(x, AbsPath(a, ROOT));
    RootedNameSplit(x);
    var segs := ["", x];
    ExistsNeedsEmptyName(a, ROOT, PStr(""));
    var n1 := MkdirOneName(a, ROOT, x, next, now);
    ExistsNeedsEmptyName(n1, next, PStr(x));
    var n2 := MkdirOneName(n1, next, x, next + 1, now);
    assert MkdirChain(n2, next + 1, PStr(x), segs, 2, next + 2, now) == Outcome(n2, Ok(next + 1));
    assert MkdirChain(n1, next, PStr(x), segs, 1, next + 1, now) == Outcome(n2, Ok(next + 1));
    r := Mkdir(a, ROOT, PStr(x), true, mode, next, now);
    assert r == MkdirChain(a, ROOT, PStr(x), segs, 0, next, now);
  }

  /**
   * `export()` of a directory whose entries are all small regular files, and `importDirectory` of
   * the bytes, give back the directory: the same metadata as 16-bit fields with `S_IFDIR`, and
   * its names in map order, each with its file re-imported. The names are distinct because they
   * come from the directory's map.
   */
  lemma ExportedDirectoryReimports(a: Nodes, id: Id, fuel: nat, t: FsFormat.Tree) returns (bytes: seq<byte>)
    requires Closed(a) && IsDir(a, id) && 0 < |Files(a, id)| < TWO_32
    requires ToTree(a, id, fuel) == Some(t) && t.Folder? && FsFormat.FlatFrom(t.entries, 0)
    ensures ExportNode(a, id, fuel) == Some(Ok(bytes))
    ensures FsFormat.ImportDirectory(bytes) == Ok(FsFormat.Folder(FsFormat.Reimport(a[id].meta, S_IFDIR), FsFormat.ReimportFiles(t.entries)))
    ensures |t.entries| == |Files(a, id)| && forall k | 0 <= k < |t.entries| :: t.entries[k].0 == Files(a, id)[k].0
  {
    var files := Files(a, id);
    FilesWithin(a, id);
    assert Fine(a, a[id].kind);
    var es := ToEntries(a, files, |files|, fuel - 1).value;
    assert t == FsFormat.Folder(a[id].meta, es);
    assert OrdMap.Distinct(t.entries) by {
      forall i, j | 0 <= i < j < |es| ensures es[i].0 != es[j].0 {
        assert es[i].0 == files[i].0 && es[j].0 == files[j].0;
      }
    }
    FsFormat.DirectoryRoundTrip(t);
    bytes := FsFormat.Export(t).value;
  }
}
