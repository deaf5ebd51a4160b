/**
 * Path handling of the virtual file system (src/fs.ts): `normalize`, `resolve`, `join` and
 * `parsePathArg`.
 */
module FsPath {
  import opened Wrappers
  import opened Text
  import Bits
  import Utf8

  /** A segment `normalize` keeps: not empty, not `.` or `..`, and free of `/`. */
  predicate Clean(seg: string)
  {
    seg != "" && seg != "." && seg != ".." && Free(seg, {'/'})
  }

  predicate AllClean(segs: seq<string>)
  {
    forall i :: 0 <= i < |segs| ==> Clean(segs[i])
  }

  /** One step of `normalize`'s loop: skip `''` and `'.'`, pop on `'..'` (nothing when empty), push otherwise. */
  function Step(out: seq<string>, seg: string): seq<string>
  {
    if seg == "" || seg == "." then out
    else if seg == ".." then (if |out| > 0 then out[..|out| - 1] else out)
    else out + [seg]
  }

  /** The segment stack after running the loop over `segs`, starting from `out`. */
  function Fold(out: seq<string>, segs: seq<string>): seq<string>
    decreases |segs|
  {
    if |segs| == 0 then out else Fold(Step(out, segs[0]), segs[1..])
  }

  /** `normalize(path)`: the kept segments joined by `/`, with a leading `/` only if the input had one. */
  function NormalizeSpec(path: string): string
  {
    (if StartsWith(path, "/") then "/" else "") + Join(Fold([], Split(path, '/')), "/")
  }

  /** `normalize`, as the source runs it: a loop over the segments with a push/pop stack. */
  method Normalize(path: string) returns (r: string)
    ensures r == NormalizeSpec(path)
  {
    var segments := Split(path, '/');
    var out: seq<string> := [];
    var i := 0;
    while i < |segments|
      invariant 0 <= i <= |segments|
      invariant Fold(out, segments[i..]) == Fold([], segments)
    {
      assert segments[i..][1..] == segments[i + 1..];
      var segment := segments[i];
      if segment == "" || segment == "." {
      } else if segment == ".." {
        if |out| > 0 {
          out := out[..|out| - 1];
        }
      } else {
        out := out + [segment];
      }
      i := i + 1;
    }
    assert segments[i..] == [];
    r := (if StartsWith(path, "/") then "/" else "") + Join(out, "/");
  }

  lemma {:induction false} FoldKeepsClean(out: seq<string>, segs: seq<string>)
    requires AllClean(out)
    requires forall i :: 0 <= i < |segs| ==> Free(segs[i], {'/'})
    ensures AllClean(Fold(out, segs))
    decreases |segs|
  {
    if |segs| > 0 {
      FoldKeepsClean(Step(out, segs[0]), segs[1..]);
    }
  }

  lemma {:induction false} FoldOfClean(out: seq<string>, segs: seq<string>)
    requires AllClean(segs)
    ensures Fold(out, segs) == out + segs
    decreases |segs|
  {
    if |segs| > 0 {
      assert Clean(segs[0]);
      FoldOfClean(out + [segs[0]], segs[1..]);
      assert out + [segs[0]] + segs[1..] == out + segs;
    }
  }

  /** The segments `normalize` keeps are all clean. */
  lemma NormalizedSegmentsClean(path: string)
    ensures AllClean(Fold([], Split(path, '/')))
  {
    SplitPiecesFree(path, {'/'});
    FoldKeepsClean([], Split(path, '/'));
  }

  lemma JoinStartsWithFirst(parts: seq<string>, sep: string)
    requires |parts| > 0
    ensures parts[0] <= Join(parts, sep)
  {
  }

  lemma NormalizeOfCleanRelative(out: seq<string>)
    requires AllClean(out)
    ensures NormalizeSpec(Join(out, "/")) == Join(out, "/")
  {
    var j := Join(out, "/");
    if |out| == 0 {
      assert Split(j, '/') == [""];
    } else {
      SplitJoin(out, '/');
      FoldOfClean([], out);
      JoinStartsWithFirst(out, "/");
      assert Clean(out[0]);
      assert j[0] == out[0][0];
      assert !StartsWith(j, "/");
      assert [] + out == out;
      assert Fold([], Split(j, '/')) == out;
      assert NormalizeSpec(j) == "" + Join(out, "/");
    }
  }

  lemma NormalizeOfCleanAbsolute(out: seq<string>)
    requires AllClean(out)
    ensures NormalizeSpec("/" + Join(out, "/")) == "/" + Join(out, "/")
  {
    var j := Join(out, "/");
    var r := "/" + j;
    assert r == "" + ['/'] + j;
    SplitCons("", j, '/');
    if |out| == 0 {
      assert Split(j, '/') == [""];
      assert Split(r, '/') == ["", ""];
      assert Fold([], ["", ""]) == [];
      assert StartsWith(r, "/") && r == "/";
    } else {
      SplitJoin(out, '/');
      FoldOfClean([], out);
      assert Split(r, '/') == [""] + out;
      assert Fold([], [""] + out) == Fold([], out);
      assert [] + out == out;
    }
  }

  /** `normalize` is idempotent. */
  lemma NormalizeIdempotent(path: string)
    ensures NormalizeSpec(NormalizeSpec(path)) == NormalizeSpec(path)
  {
    var out := Fold([], Split(path, '/'));
    NormalizedSegmentsClean(path);
    if StartsWith(path, "/") {
      NormalizeOfCleanAbsolute(out);
    } else {
      assert NormalizeSpec(path) == Join(out, "/");
      NormalizeOfCleanRelative(out);
    }
  }

  /** `normalize` keeps a leading `/` exactly when the input has one. */
  lemma NormalizeKeepsRoot(path: string)
    ensures StartsWith(NormalizeSpec(path), "/") <==> StartsWith(path, "/")
  {
    var out := Fold([], Split(path, '/'));
    NormalizedSegmentsClean(path);
    if !StartsWith(path, "/") && |out| > 0 {
      JoinStartsWithFirst(out, "/");
      assert Clean(out[0]);
    }
  }

  /**
   * `resolve(cwd, ...paths)`. The source loops backwards over `paths` appending `'/' + paths[i]`
   * and returns as soon as the accumulator starts with `/`, which it does after the first round:
   * so the result is `/` followed by the last path, and `cwd` only when there are no paths.
   */
  function Resolve(cwd: string, paths: seq<string>): (r: string)
    ensures |paths| > 0 ==> StartsWith(r, "/")
  {
    if |paths| == 0 then cwd else "/" + paths[|paths| - 1]
  }

  /** `join(...paths)`. */
  function JoinPaths(paths: seq<string>): string
  {
    NormalizeSpec(Join(paths, "/"))
  }

  /** What a path argument can be: a string, a `Buffer`, a `URL` (its text, protocol and pathname) or anything else (as it prints). */
  datatype PathArg =
    | PStr(s: string)
    | PBuffer(bytes: seq<Bits.byte>)
    | PUrl(href: string, protocol: string, pathname: string)
    | POther(shown: string)

  /** `parsePathArg(arg, cwd)`: the absolute normalised path an argument names. */
  function ParsePathArg(arg: PathArg, cwd: string): (r: Result<string>)
    ensures r.Ok? ==> StartsWith(r.value, "/") && !StartsWith(SliceFrom(r.value, 1), "/")
  {
    match arg
    case PStr(s) => NormalizeRootedOk(Resolve(cwd, [s]))
    case PBuffer(b) => NormalizeRootedOk(Resolve(cwd, [Utf8.Decode(b)]))
    case PUrl(href, protocol, pathname) =>
      if protocol == "file:" then NormalizeRootedOk(Resolve(cwd, [pathname]))
      else Err("invalid file URL: " + href)
    case POther(shown) => Err("invalid path: " + shown)
  }

  function NormalizeRootedOk(p: string): (r: Result<string>)
    requires StartsWith(p, "/")
    ensures r.Ok? && StartsWith(r.value, "/") && !StartsWith(SliceFrom(r.value, 1), "/")
  {
    NormalizeKeepsRoot(p);
    NormalizeTail(p);
    Ok(NormalizeSpec(p))
  }

  /** The path a string argument names inside a directory: `normalize('/' + path)`, whatever the directory. */
  function ParseString(path: string): (r: string)
    ensures StartsWith(r, "/")
  {
    ParsePathArg(PStr(path), "").value
  }

  /** A string argument's meaning does not depend on the working directory. */
  lemma ParsePathArgIgnoresCwd(s: string, cwd: string)
    ensures ParsePathArg(PStr(s), cwd) == Ok(ParseString(s))
    ensures ParseString(s) == NormalizeSpec("/" + s)
  {
  }

  lemma NormalizeExtraRoot(path: string)
    requires StartsWith(path, "/")
    ensures NormalizeSpec("/" + path) == NormalizeSpec(path)
  {
    assert "/" + path == "" + ['/'] + path;
    SplitCons("", path, '/');
    assert Fold([], [""] + Split(path, '/')) == Fold([], Split(path, '/'));
  }

  /** Parsing an already parsed path changes nothing. */
  lemma ParseStringIdempotent(path: string)
    ensures ParseString(ParseString(path)) == ParseString(path)
  {
    var p := ParseString(path);
    NormalizeExtraRoot(p);
    NormalizeIdempotent("/" + path);
  }

  /** After the leading `/` of a normalised absolute path comes a clean segment or nothing, never a second `/`. */
  lemma NormalizeTail(path: string)
    requires StartsWith(path, "/")
    ensures !StartsWith(SliceFrom(NormalizeSpec(path), 1), "/")
  {
    var out := Fold([], Split(path, '/'));
    NormalizedSegmentsClean(path);
    var n := NormalizeSpec(path);
    assert n == "/" + Join(out, "/");
    assert SliceFrom(n, 1) == Join(out, "/");
    if |out| > 0 {
      JoinStartsWithFirst(out, "/");
      assert Clean(out[0]);
    }
  }

  /** A parsed path parses to itself again, whatever the working directory. */
  lemma ReparseStable(arg: PathArg, cwd: string, cwd': string)
    requires ParsePathArg(arg, cwd).Ok?
    ensures ParsePathArg(PStr(ParsePathArg(arg, cwd).value), cwd') == ParsePathArg(arg, cwd)
  {
    var v := ParsePathArg(arg, cwd).value;
    var p := match arg
      case PStr(s) => "/" + s
      case PBuffer(b) => "/" + Utf8.Decode(b)
      case PUrl(_, _, pathname) => "/" + pathname
      case POther(_) => "/";
    assert v == NormalizeSpec(p);
    NormalizeExtraRoot(v);
    NormalizeIdempotent(p);
  }
}
