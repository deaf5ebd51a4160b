/**
 * The `path` module of the Node emulation (plugins/node/modules/path.ts): one `PathModule`
 * with two receivers, `posix` and `win32`, that differ in their separator, in what `normalize`
 * splits on and in `isAbsolute`. `resolve` reads the emulated process's working directory,
 * which is a parameter here.
 */
module NodePath {
  import opened Wrappers
  import opened Text
  import FsPath

  /** The two instances of `PathModule`. */
  datatype Flavor = Posix | Win32

  /** `sep`. */
  function Sep(f: Flavor): char
  {
    if f.Posix? then '/' else '\\'
  }

  /** `delimiter`. */
  function Delimiter(f: Flavor): string
  {
    if f.Posix? then ":" else ";"
  }

  /** `_normalizeSplit`: `posix` splits on `/`, `win32` on either slash. */
  function NormalizeSeps(f: Flavor): set<char>
  {
    if f.Posix? then {'/'} else {'/', '\\'}
  }

  /**
   * `isAbsolute`: `posix` asks for a leading `/`; `win32` for a capital letter, `:` and `\`
   * as the first three characters (a shorter path has `undefined` there and is not absolute).
   */
  predicate IsAbsolute(f: Flavor, path: string)
  {
    if f.Posix? then StartsWith(path, "/")
    else |path| >= 3 && 'A' <= path[0] <= 'Z' && path[1] == ':' && path[2] == '\\'
  }

  /** The last piece of `path.split(c)`: what follows the last `c`, or all of `path`. */
  function LastSegment(path: string, c: char): (r: string)
    ensures Free(r, {c}) && EndsWith(path, r)
    ensures |r| < |path| ==> path[|path| - |r| - 1] == c
    ensures |r| == |path| <==> Free(path, {c})
  {
    LastPieceFacts(path, {c});
    var parts := Split(path, c);
    parts[|parts| - 1]
  }

  /**
   * `basename(path, suffix?)`: the last segment after `sep`, without `suffix` when it ends
   * with it, even when that leaves nothing.
   */
  function Basename(f: Flavor, path: string, suffix: Option<string>): (r: string)
    ensures Free(r, {Sep(f)}) && StartsWith(LastSegment(path, Sep(f)), r)
    ensures suffix.Some? && EndsWith(LastSegment(path, Sep(f)), suffix.value) ==> r + suffix.value == LastSegment(path, Sep(f))
    ensures !(suffix.Some? && EndsWith(LastSegment(path, Sep(f)), suffix.value)) ==> r == LastSegment(path, Sep(f))
  {
    var out := LastSegment(path, Sep(f));
    if suffix.Some? && EndsWith(out, suffix.value) then
      assert out[..|out| - |suffix.value|] + suffix.value == out;
      out[..|out| - |suffix.value|]
    else out
  }

  /**
   * `dirname(path)`: every `/`-separated piece but the last, joined back; so always split on
   * `/`, whatever the receiver, and `/a` and `a` both give the empty string.
   */
  function Dirname(path: string): (r: string)
    ensures '/' in path ==> r + "/" + LastSegment(path, '/') == path
    ensures '/' !in path ==> r == ""
  {
    var parts := Split(path, '/');
    SplitCount(path, '/');
    if |parts| >= 2 then
      JoinInit(parts, "/");
      JoinSplit(path, '/');
      Join(parts[..|parts| - 1], "/")
    else Join(parts[..0], "/")
  }

  /**
   * `extname(path)`: from the FIRST `.` anywhere in the path to the end, or the empty string
   * when there is no `.`.
   */
  function Extname(path: string): (r: string)
    ensures r == "" <==> '.' !in path
    ensures r != "" ==> r[0] == '.' && EndsWith(path, r) && '.' !in path[..|path| - |r|]
  {
    var pos := IndexOf(path, '.');
    if pos == -1 then "" else
      assert path[..|path| - |path[pos..]|] == path[..pos];
      path[pos..]
  }

  /** The value `normalize` computes: the kept segments of the split, joined with `sep`. */
  function NormalizeSpec(f: Flavor, path: string): string
  {
    Join(FsPath.Fold([], SplitBy(path, NormalizeSeps(f))), [Sep(f)])
  }

  /** `normalize(path)`, as the source runs it: a loop over the segments with a push/pop list. */
  method Normalize(f: Flavor, path: string) returns (r: string)
    ensures r == NormalizeSpec(f, path)
  {
    var segments := SplitBy(path, NormalizeSeps(f));
    var out: seq<string> := [];
    var i := 0;
    while i < |segments|
      invariant 0 <= i <= |segments|
      invariant FsPath.Fold(out, segments[i..]) == FsPath.Fold([], segments)
    {
      assert segments[i..][1..] == segments[i + 1..];
      var segment := segments[i];
      if segment == "" || segment == "." {
      } else if segment == ".." {
        if |out| > 0 {
          out := out[..|out| - 1];
        }
      } else {
        out := out + [segment];
      }
      i := i + 1;
    }
    assert segments[i..] == [];
    r := Join(out, [Sep(f)]);
  }

  /**
   * `join(...paths)`: `normalize` of the paths joined with `sep`. What it returns is already
   * normal and never starts with a separator.
   */
  function JoinPaths(f: Flavor, paths: seq<string>): (r: string)
    ensures NormalizeSpec(f, r) == r
    ensures |r| > 0 ==> r[0] !in NormalizeSeps(f)
  {
    var r := NormalizeSpec(f, Join(paths, [Sep(f)]));
    NormalizeIdempotent(f, Join(paths, [Sep(f)]));
    NormalizeNoLeadingSeparator(f, Join(paths, [Sep(f)]));
    r
  }

  /** A segment `normalize` keeps for receiver `f`. */
  predicate Kept(f: Flavor, seg: string)
  {
    seg != "" && seg != "." && seg != ".." && Free(seg, NormalizeSeps(f))
  }

  predicate AllKept(f: Flavor, segs: seq<string>)
  {
    forall i :: 0 <= i < |segs| ==> Kept(f, segs[i])
  }

  lemma {:induction false} FoldKeeps(f: Flavor, out: seq<string>, segs: seq<string>)
    requires AllKept(f, out)
    requires forall i :: 0 <= i < |segs| ==> Free(segs[i], NormalizeSeps(f))
    ensures AllKept(f, FsPath.Fold(out, segs))
    decreases |segs|
  {
    if |segs| > 0 {
      FoldKeeps(f, FsPath.Step(out, segs[0]), segs[1..]);
    }
  }

  /** The segments `normalize` keeps are kept segments: never empty, `.`, `..`, or holding a separator. */
  lemma NormalizedSegmentsKept(f: Flavor, path: string)
    ensures AllKept(f, FsPath.Fold([], SplitBy(path, NormalizeSeps(f))))
  {
    SplitPiecesFree(path, NormalizeSeps(f));
    FoldKeeps(f, [], SplitBy(path, NormalizeSeps(f)));
  }

  /** Unlike the file system's `normalize`, this one drops a leading separator: `/a/../b` gives `b`. */
  lemma NormalizeNoLeadingSeparator(f: Flavor, path: string)
    ensures |NormalizeSpec(f, path)| > 0 ==> NormalizeSpec(f, path)[0] !in NormalizeSeps(f)
  {
    var out := FsPath.Fold([], SplitBy(path, NormalizeSeps(f)));
    NormalizedSegmentsKept(f, path);
    if |out| > 0 {
      FsPath.JoinStartsWithFirst(out, [Sep(f)]);
      assert Kept(f, out[0]);
    }
  }

  /** `normalize` is idempotent, for both receivers. */
  lemma NormalizeIdempotent(f: Flavor, path: string)
    ensures NormalizeSpec(f, NormalizeSpec(f, path)) == NormalizeSpec(f, path)
  {
    var out := FsPath.Fold([], SplitBy(path, NormalizeSeps(f)));
    NormalizedSegmentsKept(f, path);
    var j := Join(out, [Sep(f)]);
    if |out| == 0 {
      assert SplitBy(j, NormalizeSeps(f)) == [""];
    } else {
      SplitByJoin(out, Sep(f), NormalizeSeps(f));
      assert FsPath.AllClean(out) by {
        forall i | 0 <= i < |out|
          ensures FsPath.Clean(out[i])
        {
          assert Kept(f, out[i]);
        }
      }
      FsPath.FoldOfClean([], out);
      assert [] + out == out;
    }
  }

  /**
   * Unlike the file system's `normalize`, this one drops the leading separator of an absolute
   * path: `/a/b` gives `a/b`.
   */
  lemma NormalizeDropsRoot(out: seq<string>)
    requires FsPath.AllClean(out) && |out| > 0
    ensures NormalizeSpec(Posix, "/" + Join(out, "/")) == Join(out, "/")
  {
    var j := Join(out, "/");
    assert "/" + j == "" + ['/'] + j;
    SplitByCons("", j, '/', {'/'});
    SplitByJoin(out, '/', {'/'});
    FsPath.FoldOfClean([], out);
    assert FsPath.Fold([], [""] + out) == FsPath.Fold([], out);
    assert [] + out == out;
  }

  /** `paths[|paths| - 1] + … + paths[i]`: what `resolve` has appended once it reached `paths[i]`. */
  function Acc(paths: seq<string>, i: nat): (r: string)
    requires i <= |paths|
    decreases |paths| - i
  {
    if i == |paths| then "" else Acc(paths, i + 1) + paths[i]
  }

  /** `Acc(paths, k)` is the first absolute accumulator, counting down from the last path. */
  predicate FirstAbsoluteAt(f: Flavor, paths: seq<string>, k: int)
  {
    1 <= k < |paths| && IsAbsolute(f, Acc(paths, k))
    && forall k' :: k < k' < |paths| ==> !IsAbsolute(f, Acc(paths, k'))
  }

  /** No accumulator from `paths[n-1]` down to `paths[1]` is absolute. */
  predicate NoneAbsolute(f: Flavor, paths: seq<string>)
  {
    forall k :: 1 <= k < |paths| ==> !IsAbsolute(f, Acc(paths, k))
  }

  /**
   * `resolve(...paths)` with the working directory `cwd`, as the source runs it: appends
   * `paths[n-1]`, …, `paths[1]` without separators (never `paths[0]`), returns the first
   * accumulator that is absolute, and otherwise `cwd` followed by the whole accumulator.
   */
  method Resolve(f: Flavor, cwd: string, paths: seq<string>) returns (r: string)
    ensures (exists k :: FirstAbsoluteAt(f, paths, k) && r == Acc(paths, k))
         || (NoneAbsolute(f, paths) && r == cwd + Acc(paths, if |paths| == 0 then 0 else 1))
  {
    var out := "";
    var i := |paths| - 1;
    while i > 0
      invariant -1 <= i < |paths| && (i == -1 ==> |paths| == 0)
      invariant out == Acc(paths, i + 1)
      invariant forall k :: i < k < |paths| && k >= 1 ==> !IsAbsolute(f, Acc(paths, k))
    {
      out := out + paths[i];
      if IsAbsolute(f, out) {
        assert FirstAbsoluteAt(f, paths, i) && out == Acc(paths, i);
        return out;
      }
      i := i - 1;
    }
    return cwd + out;
  }

  /** `dirname` and `basename` of a path with a `/` put it back together, with a `/` between. */
  lemma DirnameBasename(path: string)
    requires '/' in path
    ensures Dirname(path) + "/" + Basename(Posix, path, None) == path
  {
  }

  /** Neither `/a` nor `a` has a directory part to `dirname`. */
  lemma DirnameOfSingleSegments()
    ensures Dirname("/a") == "" && Dirname("a") == ""
  {
    assert LastSegment("/a", '/') == "a" by {
      assert "/a"[|"/a"| - 1] != '/';
    }
  }

  /** `extname` starts at the first dot: `a.tar.gz` gives `.tar.gz`. */
  lemma ExtnameFromFirstDot()
    ensures Extname("a.tar.gz") == ".tar.gz"
  {
    assert IndexOf("a.tar.gz", '.') == 1;
  }

  /** A suffix equal to the whole base name empties it. */
  lemma BasenameSuffixEmpties(f: Flavor, path: string)
    ensures Basename(f, path, Some(LastSegment(path, Sep(f)))) == ""
  {
  }

  /** `posix` and `win32` answer `isAbsolute` differently on the same text. */
  lemma IsAbsoluteDiffers()
    ensures IsAbsolute(Posix, "/x") && !IsAbsolute(Win32, "/x")
    ensures IsAbsolute(Win32, "C:\\x") && !IsAbsolute(Posix, "C:\\x")
  {
  }
}
