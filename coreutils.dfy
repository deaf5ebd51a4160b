/**
 * The command bodies of src/plugins/coreutils.ts that hold logic of their own: the tree walk
 * `recursively`, `chgrp`, `chown`, the `ls` listing (which objects it lists, the mode column of
 * `-l` and the column layout of the short form), `rm`, `rmdir` and `cat`. Each body is given the
 * values its command's parser stored in `args`, and the value of the property `process.stdout`:
 * the process's `Stream`, or the string an earlier `process.stdout += text` put in its place
 * (`Stdout`). A `Stream` has no `toString`, so `+=` never writes to the stream.
 *
 * A body that only reads or only changes metadata is a function over the arena of `Vfs`; a body
 * that loops and unlinks is a method over the `FileSystem` object, proved to do what a function
 * here says.
 */
module Coreutils {
  import opened Wrappers
  import opened Text
  import OrdMap
  import Utf8
  import opened FsMode
  import FsNode
  import opened FsPath
  import opened Vfs
  import VfsFacts
  import Bits
  import Users
  import opened FileSystems

  /** The message of the `RangeError` the engine throws when the recursion is too deep. */
  const TOO_DEEP := "Maximum call stack size exceeded"

  /** What a `Stream` object becomes when it is added to a string. */
  const STREAM_TEXT := "[object Object]"

  /**
   * The error reported where the source would store `NaN` as an owner or a group: a lookup
   * whose id field does not parse as a number. File metadata holds integers here.
   */
  const NAN_ID := "owner or group id is NaN"

  // ---------------------------------------------------------------------------------------------
  // recursively

  /** One call of `recursively`'s callback: the object and the path it is given. */
  type Visit = (Id, string)

  /** The calls made, in order, and whether the walk finished (rather than overflowing the stack). */
  datatype Tour = Tour(visits: seq<Visit>, complete: bool)

  predicate AllIn(a: Nodes, vs: seq<Visit>)
  {
    forall v | v in vs :: v.0 in a
  }

  /**
   * The calls `recursively(file, func, recursive, path)` makes when `func` changes no directory:
   * the object itself first, then, only for a directory and only when `recursive` is set, the
   * walk of each entry in insertion order, with the entry's name joined onto the path. `fuel`
   * is the depth the engine's stack allows.
   */
  function Visits(a: Nodes, id: Id, path: string, recursive: bool, fuel: nat): (r: Tour)
    requires Closed(a) && id in a
    ensures |r.visits| >= 1 && r.visits[0] == (id, path) && AllIn(a, r.visits)
    ensures !recursive || !a[id].kind.Directory? ==> r == Tour([(id, path)], true)
    decreases fuel, 0
  {
    if !recursive || !a[id].kind.Directory? then Tour([(id, path)], true)
    else if fuel == 0 then Tour([(id, path)], false)
    else
      FilesWithin(a, id);
      var t := EntryVisits(a, Files(a, id), 0, path, fuel - 1);
      Tour([(id, path)] + t.visits, t.complete)
  }

  /** The walks of the entries `files[i..]`, one after the other, stopping at an overflow. */
  function EntryVisits(a: Nodes, files: OrdMap.Entries<string, Id>, i: nat, path: string, fuel: nat): (r: Tour)
    requires Closed(a) && Within(a, files) && i <= |files|
    ensures AllIn(a, r.visits)
    decreases fuel, 1, |files| - i
  {
    if i == |files| then Tour([], true)
    else
      assert files[i] in files;
      var t := Visits(a, files[i].1, JoinPaths([path, files[i].0]), true, fuel);
      if !t.complete then t
      else
        var u := EntryVisits(a, files, i + 1, path, fuel);
        Tour(t.visits + u.visits, u.complete)
  }

  /** A finished walk of the entries from `i` on calls the callback on each of them. */
  lemma {:induction false} EntryVisitsReach(a: Nodes, files: OrdMap.Entries<string, Id>, i: nat, path: string, fuel: nat, k: nat)
    requires Closed(a) && Within(a, files) && i <= k < |files|
    requires EntryVisits(a, files, i, path, fuel).complete
    ensures (files[k].1, JoinPaths([path, files[k].0])) in EntryVisits(a, files, i, path, fuel).visits
    decreases |files| - i
  {
    assert files[i] in files;
    var t := Visits(a, files[i].1, JoinPaths([path, files[i].0]), true, fuel);
    if k > i {
      EntryVisitsReach(a, files, i + 1, path, fuel, k);
    } else {
      assert t.visits[0] in t.visits;
    }
  }

  /**
   * A recursive walk of a directory that finishes calls the callback on the directory itself and
   * then on every entry, under the directory's path joined with the entry's name.
   */
  lemma VisitsEveryEntry(a: Nodes, dir: Id, path: string, fuel: nat, k: nat)
    requires Closed(a) && IsDir(a, dir) && k < |Files(a, dir)|
    requires Visits(a, dir, path, true, fuel).complete
    ensures Visits(a, dir, path, true, fuel).visits[0] == (dir, path)
    ensures (Files(a, dir)[k].1, JoinPaths([path, Files(a, dir)[k].0])) in Visits(a, dir, path, true, fuel).visits
  {
    FilesWithin(a, dir);
    EntryVisitsReach(a, Files(a, dir), 0, path, fuel - 1, k);
  }

  /** A walk that runs out of stack before reaching the entries of a non-empty directory reports it. */
  lemma VisitsOverflow(a: Nodes, dir: Id, path: string)
    requires Closed(a) && IsDir(a, dir)
    ensures Visits(a, dir, path, true, 0) == Tour([(dir, path)], false)
  {
  }

  /** Whether the callback was called on object `id`. */
  predicate Visited(vs: seq<Visit>, id: Id)
  {
    exists k :: 0 <= k < |vs| && vs[k].0 == id
  }

  /** What `file.chown(uid ?? file.uid, gid)` makes of an object's metadata. */
  function Owned(m: FsNode.Meta, uid: Option<int>, gid: int, now: int): (r: FsNode.Meta)
    ensures r.gid == gid && r.uid == (if uid.Some? then uid.value else m.uid) && r.times.ctime == now
    ensures r.mode == m.mode && r.nlink == m.nlink
  {
    FsNode.Chown(m, if uid.Some? then uid.value else m.uid, gid, now)
  }

  /**
   * The callback of `chown` (owner `uid`) or `chgrp` (each object keeps its owner: `uid` is
   * `None`) run on every visit in order.
   */
  function ChownEach(a: Nodes, vs: seq<Visit>, uid: Option<int>, gid: int, now: int): (r: Nodes)
    requires AllIn(a, vs)
    ensures r.Keys == a.Keys && (Rooted(a) ==> Rooted(r))
    ensures forall j | j in a :: r[j].kind == a[j].kind
    decreases |vs|
  {
    if |vs| == 0 then a
    else
      assert vs[0] in vs;
      var id := vs[0].0;
      var b := SetMeta(a, id, Owned(a[id].meta, uid, gid, now));
      assert forall v | v in vs[1..] :: v in vs;
      ChownEach(b, vs[1..], uid, gid, now)
  }

  /**
   * After the callbacks, exactly the visited objects have the new owner and group (and change
   * time); the rest of their metadata and every other object are as before. An object reached
   * twice, through a hard link, ends up the same as one reached once.
   */
  lemma {:induction false} ChownEachSets(a: Nodes, vs: seq<Visit>, uid: Option<int>, gid: int, now: int, j: Id)
    requires AllIn(a, vs) && j in a
    ensures ChownEach(a, vs, uid, gid, now)[j].meta == if Visited(vs, j) then Owned(a[j].meta, uid, gid, now) else a[j].meta
    decreases |vs|
  {
    if |vs| > 0 {
      assert vs[0] in vs;
      var id := vs[0].0;
      var b := SetMeta(a, id, Owned(a[id].meta, uid, gid, now));
      assert forall v | v in vs[1..] :: v in vs;
      ChownEachSets(b, vs[1..], uid, gid, now, j);
      assert Visited(vs, j) <==> id == j || Visited(vs[1..], j) by {
        if Visited(vs, j) && id != j {
          var k :| 0 <= k < |vs| && vs[k].0 == j;
          assert vs[1..][k - 1].0 == j;
        }
        if Visited(vs[1..], j) {
          var k :| 0 <= k < |vs[1..]| && vs[1..][k].0 == j;
          assert vs[k + 1].0 == j;
        }
      }
    }
  }

  /** The outcome of a command whose walk changed the arena to `b`: the overflow, if any, is thrown. */
  function Finish(b: Nodes, complete: bool): (r: Outcome<()>)
    ensures r.nodes == b && (r.result.Ok? <==> complete)
  {
    Outcome(b, if complete then Ok(()) else Err(TOO_DEEP))
  }

  // ---------------------------------------------------------------------------------------------
  // chgrp and chown

  /**
   * The walk from object `id` with the `chown`/`chgrp` callback: every object reached gets the
   * owner (`None`: its own) and the group, and an overflow is thrown after the objects reached.
   */
  function Recolor(a: Nodes, id: Id, uid: Option<int>, gid: int, recursive: bool, fuel: nat, now: int): (r: Outcome<()>)
    requires Rooted(a) && id in a
    ensures Rooted(r.nodes) && r.nodes.Keys == a.Keys
  {
    var t := Visits(a, id, "", recursive, fuel);
    Finish(ChownEach(a, t.visits, uid, gid, now), t.complete)
  }

  /**
   * A walk that finishes changes exactly the objects it reaches: the object itself, and with
   * `recursive` each entry of a directory; any object not reached keeps its metadata.
   */
  lemma RecolorReaches(a: Nodes, id: Id, uid: Option<int>, gid: int, recursive: bool, fuel: nat, now: int, j: Id)
    requires Rooted(a) && id in a && j in a && Visits(a, id, "", recursive, fuel).complete
    requires j == id || (recursive && a[id].kind.Directory? && exists k :: 0 <= k < |Files(a, id)| && Files(a, id)[k].1 == j)
    ensures Recolor(a, id, uid, gid, recursive, fuel, now).result == Ok(())
    ensures Recolor(a, id, uid, gid, recursive, fuel, now).nodes[j].meta == Owned(a[j].meta, uid, gid, now)
  {
    var t := Visits(a, id, "", recursive, fuel);
    if j == id {
      assert t.visits[0].0 == j;
    } else {
      var k :| 0 <= k < |Files(a, id)| && Files(a, id)[k].1 == j;
      VisitsEveryEntry(a, id, "", fuel, k);
      var v := (Files(a, id)[k].1, JoinPaths(["", Files(a, id)[k].0]));
      var n :| 0 <= n < |t.visits| && t.visits[n] == v;
      assert t.visits[n].0 == j;
    }
    ChownEachSets(a, t.visits, uid, gid, now, j);
  }

  /** Without `recursive`, only the object itself changes. */
  lemma RecolorOnlyNamed(a: Nodes, id: Id, uid: Option<int>, gid: int, fuel: nat, now: int, j: Id)
    requires Rooted(a) && id in a && j in a
    ensures Recolor(a, id, uid, gid, false, fuel, now) ==
      Outcome(SetMeta(a, id, Owned(a[id].meta, uid, gid, now)), Ok(()))
    ensures j != id ==> Recolor(a, id, uid, gid, false, fuel, now).nodes[j] == a[j]
  {
    var b := SetMeta(a, id, Owned(a[id].meta, uid, gid, now));
    assert ChownEach(a, [(id, "")], uid, gid, now) == ChownEach(b, [], uid, gid, now);
  }

  /** `parseIntIfInt(value)`: the number `parseInt` reads from the text, or the text itself. */
  function IdArg(value: string): (k: Users.Key)
    ensures k.ByName? <==> ParseInt(value, 0).NaN?
    ensures k.ByName? ==> k.name == value
    ensures k.ById? ==> ParseInt(value, 0) == Finite(k.id)
  {
    match ParseInt(value, 0)
    case NaN => Users.ByName(value)
    case Finite(n) => Users.ById(n)
  }

  /** `getUserData(parseIntIfInt(value))`, reading `/etc/passwd`. */
  function LookUpUser(a: Nodes, value: string): (r: Result<Users.UserRecord>)
    requires Rooted(a)
  {
    match Users.DBRead(a, Users.PASSWD)
    case Err(e) => Err(e)
    case Ok(t) => Users.GetUser(t, IdArg(value))
  }

  /** `getGroupData(parseIntIfInt(value)).gid`, reading `/etc/group`. */
  function LookUpGid(a: Nodes, value: string): (r: Result<Num>)
    requires Rooted(a)
  {
    match Users.DBRead(a, Users.GROUP)
    case Err(e) => Err(e)
    case Ok(t) =>
      match Users.GetGroup(t, IdArg(value))
      case Err(e) => Err(e)
      case Ok(g) => Ok(g.gid)
  }

  /**
   * `chgrp GROUP FILE`: `get(FILE)`, then `recursively` with the flag `args.R === undefined`,
   * each callback looking the group up and giving the object that gid while keeping its owner.
   * `flagR` is what the parser stored under `R`. The lookup reads `/etc/group`, which the
   * callbacks do not change, so it is done once: when it fails, it fails at the first callback,
   * before anything changed.
   */
  function Chgrp(a: Nodes, group: string, file: string, flagR: Option<bool>, fuel: nat, now: int): (r: Outcome<()>)
    requires Rooted(a)
    ensures Rooted(r.nodes) && r.nodes.Keys == a.Keys
  {
    match Get(a, ROOT, PStr(file))
    case Err(e) => Outcome(a, Err(e))
    case Ok(id) =>
      match LookUpGid(a, group)
      case Err(e) => Outcome(a, Err(e))
      case Ok(NaN) => Outcome(a, Err(NAN_ID))
      case Ok(Finite(gid)) => Recolor(a, id, None, gid, flagR.None?, fuel, now)
  }

  /**
   * The parser always stores `true` or `false` under `R`, so `chgrp` never recurses: only the
   * object `FILE` names changes, to the group's gid with its owner kept.
   */
  lemma ChgrpNeverRecurses(a: Nodes, group: string, file: string, flagR: bool, fuel: nat, now: int, id: Id, gid: int)
    requires Rooted(a) && Get(a, ROOT, PStr(file)) == Ok(id) && LookUpGid(a, group) == Ok(Finite(gid))
    ensures Chgrp(a, group, file, Some(flagR), fuel, now) == Outcome(SetMeta(a, id, FsNode.Chown(a[id].meta, a[id].meta.uid, gid, now)), Ok(()))
  {
    RecolorOnlyNamed(a, id, None, gid, fuel, now, id);
  }

  /**
   * The owner and group `chown` sets for `OWNER[:GROUP]`: with a `:`, the user named by the
   * part before it and the group named by the part after it; without, the user's uid and gid.
   */
  function Owners(a: Nodes, owner: string): (r: Result<(Num, Num)>)
    requires Rooted(a)
  {
    if ':' in owner then
      var parts := Split(owner, ':');
      SplitCount(owner, ':');
      match LookUpUser(a, parts[0])
      case Err(e) => Err(e)
      case Ok(u) =>
        match LookUpGid(a, parts[1])
        case Err(e) => Err(e)
        case Ok(gid) => Ok((u.uid, gid))
    else
      match LookUpUser(a, owner)
      case Err(e) => Err(e)
      case Ok(u) => Ok((u.uid, u.gid))
  }

  /**
   * `chown [OWNER[:GROUP]] FILE`: nothing without an owner; otherwise the owner and group are
   * looked up, then `get(FILE)`, and `recursively` (with `-R`) gives every object reached that
   * owner and group.
   */
  function Chown(a: Nodes, owner: Option<string>, file: string, recursive: bool, fuel: nat, now: int): (r: Outcome<()>)
    requires Rooted(a)
    ensures Rooted(r.nodes) && r.nodes.Keys == a.Keys
  {
    if owner.None? then Outcome(a, Ok(()))
    else
      match Owners(a, owner.value)
      case Err(e) => Outcome(a, Err(e))
      case Ok(ids) =>
        match Get(a, ROOT, PStr(file))
        case Err(e) => Outcome(a, Err(e))
        case Ok(id) =>
          if ids.0.NaN? || ids.1.NaN? then Outcome(a, Err(NAN_ID))
          else Recolor(a, id, Some(ids.0.n), ids.1.n, recursive, fuel, now)
  }

  /**
   * `chown -R` on a directory whose walk finishes gives the directory and each of its entries
   * the owner and group; without `-R` only the object `FILE` names changes.
   */
  lemma ChownReaches(a: Nodes, owner: string, file: string, recursive: bool, fuel: nat, now: int, id: Id, uid: int, gid: int, j: Id)
    requires Rooted(a) && Owners(a, owner) == Ok((Finite(uid), Finite(gid))) && Get(a, ROOT, PStr(file)) == Ok(id)
    requires j in a && Visits(a, id, "", recursive, fuel).complete
    requires j == id || (recursive && a[id].kind.Directory? && exists k :: 0 <= k < |Files(a, id)| && Files(a, id)[k].1 == j)
    ensures Chown(a, Some(owner), file, recursive, fuel, now).result == Ok(())
    ensures Chown(a, Some(owner), file, recursive, fuel, now).nodes[j].meta == FsNode.Chown(a[j].meta, uid, gid, now)
  {
    ChownIsRecolor(a, owner, file, recursive, fuel, now, id, uid, gid);
    RecolorReaches(a, id, Some(uid), gid, recursive, fuel, now, j);
    assert Owned(a[j].meta, Some(uid), gid, now) == FsNode.Chown(a[j].meta, uid, gid, now);
  }

  /** Once the owner, the group and the object are found, `chown` is the walk with its callback. */
  lemma ChownIsRecolor(a: Nodes, owner: string, file: string, recursive: bool, fuel: nat, now: int, id: Id, uid: int, gid: int)
    requires Rooted(a) && Owners(a, owner) == Ok((Finite(uid), Finite(gid))) && Get(a, ROOT, PStr(file)) == Ok(id)
    ensures Chown(a, Some(owner), file, recursive, fuel, now) == Recolor(a, id, Some(uid), gid, recursive, fuel, now)
  {
  }

  /** Without `-R`, `chown` changes the named object and nothing else. */
  lemma ChownOnlyNamed(a: Nodes, owner: string, file: string, fuel: nat, now: int, id: Id, uid: int, gid: int, j: Id)
    requires Rooted(a) && Owners(a, owner) == Ok((Finite(uid), Finite(gid))) && Get(a, ROOT, PStr(file)) == Ok(id)
    requires j in a && j != id
    ensures Chown(a, Some(owner), file, false, fuel, now).nodes[j] == a[j]
  {
    ChownIsRecolor(a, owner, file, false, fuel, now, id, uid, gid);
    RecolorOnlyNamed(a, id, Some(uid), gid, fuel, now, j);
  }

  // ---------------------------------------------------------------------------------------------
  // ls

  /** The path text of a working directory that may be `undefined`, as `Array.join` renders it. */
  function CwdText(cwd: Option<string>): string
  {
    if cwd.Some? then cwd.value else ""
  }

  /** The path argument a working directory that may be `undefined` is. */
  function CwdArg(cwd: Option<string>): PathArg
  {
    if cwd.Some? then PStr(cwd.value) else POther("undefined")
  }

  /**
   * The operands `ls` lists: the given paths, or with none, the names in the working directory
   * joined onto it, in insertion order.
   */
  function LsOperands(a: Nodes, cwd: Option<string>, files: seq<string>): (r: Result<seq<string>>)
    requires Rooted(a)
    ensures |files| > 0 ==> r == Ok(files)
  {
    if |files| > 0 then Ok(files)
    else
      match GetDir(a, ROOT, CwdArg(cwd))
      case Err(e) => Err(e)
      case Ok(d) =>
        var es := Files(a, d);
        Ok(seq(|es|, k requires 0 <= k < |es| => JoinPaths([CwdText(cwd), es[k].0])))
  }

  /** The visits of `ls`'s callback that it keeps: with `-a` all, otherwise those whose path does not start with `.`. */
  function Kept(vs: seq<Visit>, all: bool): (r: seq<Visit>)
    ensures forall v | v in r :: v in vs && (all || !StartsWith(v.1, "."))
    ensures forall v | v in vs && (all || !StartsWith(v.1, ".")) :: v in r
  {
    if |vs| == 0 then []
    else (if all || !StartsWith(vs[0].1, ".") then [vs[0]] else []) + Kept(vs[1..], all)
  }

  /**
   * What one directory operand adds: for each of its entries in order, the walk `recursively`
   * makes from that entry with the empty path (so the entry is listed as `''` and what is below
   * it as `/name…`), filtered.
   */
  function DirListing(a: Nodes, entries: OrdMap.Entries<string, Id>, i: nat, all: bool, recursive: bool, fuel: nat): (r: Result<seq<Visit>>)
    requires Closed(a) && Within(a, entries) && i <= |entries|
    ensures r.Ok? ==> AllIn(a, r.value)
    decreases |entries| - i
  {
    if i == |entries| then Ok([])
    else
      assert entries[i] in entries;
      var t := Visits(a, entries[i].1, "", recursive, fuel);
      if !t.complete then Err(TOO_DEEP)
      else
        match DirListing(a, entries, i + 1, all, recursive, fuel)
        case Err(e) => Err(e)
        case Ok(rest) => Ok(Kept(t.visits, all) + rest)
  }

  /**
   * The `files` list `ls` builds from the operands `ops[i..]`: an operand starting with `.` is
   * skipped unless `-a`; the rest are looked up with `lget`; a directory adds its listing, any
   * other object itself under the operand.
   */
  function LsFiles(a: Nodes, ops: seq<string>, i: nat, all: bool, recursive: bool, fuel: nat): (r: Result<seq<Visit>>)
    requires Rooted(a) && i <= |ops|
    ensures r.Ok? ==> AllIn(a, r.value)
    decreases |ops| - i
  {
    if i == |ops| then Ok([])
    else if !all && StartsWith(ops[i], ".") then LsFiles(a, ops, i + 1, all, recursive, fuel)
    else
      match Lget(a, ROOT, PStr(ops[i]))
      case Err(e) => Err(e)
      case Ok(id) =>
        var here: Result<seq<Visit>> :=
          if a[id].kind.Directory? then (FilesWithin(a, id); DirListing(a, Files(a, id), 0, all, recursive, fuel))
          else Ok([(id, ops[i])]);
        match here
        case Err(e) => Err(e)
        case Ok(vs) =>
          match LsFiles(a, ops, i + 1, all, recursive, fuel)
          case Err(e) => Err(e)
          case Ok(rest) => Ok(vs + rest)
  }

  /** `ls DIR` lists each entry of the directory under the empty name (and only those, without `-R`). */
  lemma LsDirectoryNamesEmpty(a: Nodes, dir: string, id: Id, fuel: nat)
    requires Rooted(a) && !StartsWith(dir, ".") && Lget(a, ROOT, PStr(dir)) == Ok(id) && a[id].kind.Directory?
    ensures LsFiles(a, [dir], 0, false, false, fuel) == Ok(Unnamed(Files(a, id)))
  {
    FilesWithin(a, id);
    DirListingShallow(a, Files(a, id), 0, fuel);
    var u := Unnamed(Files(a, id));
    assert u[0..] == u && u + [] == u;
    assert LsFiles(a, [dir], 1, false, false, fuel) == Ok([]);
    assert [dir][0] == dir;
  }

  /** Each entry's object under the empty path. */
  function Unnamed(entries: OrdMap.Entries<string, Id>): (r: seq<Visit>)
    ensures |r| == |entries| && forall k :: 0 <= k < |r| ==> r[k] == (entries[k].1, "")
  {
    seq(|entries|, k requires 0 <= k < |entries| => (entries[k].1, ""))
  }

  /** Without `-a` or `-R`, the listing of a directory is its entries under the empty path. */
  lemma {:induction false} DirListingShallow(a: Nodes, entries: OrdMap.Entries<string, Id>, i: nat, fuel: nat)
    requires Closed(a) && Within(a, entries) && i <= |entries|
    ensures DirListing(a, entries, i, false, false, fuel) == Ok(Unnamed(entries)[i..])
    decreases |entries| - i
  {
    var all := Unnamed(entries);
    if i < |entries| {
      assert entries[i] in entries;
      DirListingShallow(a, entries, i + 1, fuel);
      var v := (entries[i].1, "");
      assert Visits(a, entries[i].1, "", false, fuel) == Tour([v], true);
      assert !StartsWith(v.1, ".");
      assert [v][1..] == [];
      assert Kept([v], false) == [v];
      assert all[i..] == [v] + all[i + 1..];
    }
  }

  /** The position of the last `/` in `path`, or -1. */
  function LastSlash(path: string): (k: int)
    ensures -1 <= k < |path| && (k >= 0 ==> path[k] == '/')
    ensures forall j :: k < j < |path| ==> path[j] != '/'
    ensures '/' in path ==> k >= 0
  {
    if |path| == 0 then -1
    else if path[|path| - 1] == '/' then |path| - 1
    else LastSlash(path[..|path| - 1])
  }

  /** `path.slice(path.lastIndexOf('/') + 1)`: the name a listed path is shown as. */
  function ListedName(path: string): (r: string)
    ensures '/' !in r && EndsWith(path, r)
    ensures '/' in path ==> |r| < |path|
  {
    var k := LastSlash(path);
    var r := path[k + 1..];
    assert forall c | c in r :: c != '/';
    r
  }

  /** The letter `LS_FILE_CHARS` has for a file type, if any. */
  function TypeChar(t: bv32): (r: Option<string>)
    ensures r.Some? ==> |r.value| == 1
  {
    if t == S_IFREG then Some("-")
    else if t == S_IFBLK then Some("b")
    else if t == S_IFCHR then Some("c")
    else if t == S_IFDIR then Some("d")
    else if t == S_IFLNK then Some("l")
    else if t == S_IFIFO then Some("p")
    else if t == S_IFSOCK then Some("s")
    else None
  }

  /** The permission bits in the order `ls` prints them, and their letters. */
  const PERM_BITS: seq<bv32> := [S_IRUSR, S_IWUSR, S_IXUSR, S_IRGRP, S_IWGRP, S_IXGRP, S_IROTH, S_IWOTH, S_IXOTH]
  const PERM_LETTERS := "rwxrwxrwx"

  /** The `k`-th permission letter: the letter when its bit is set in `m`, `-` otherwise. */
  function PermLetter(m: bv32, k: nat): char
    requires k < 9
  {
    if m & PERM_BITS[k] != 0 then PERM_LETTERS[k] else '-'
  }

  /** The nine permission letters, from `S_IRUSR` down to `S_IXOTH`. */
  function Perms(m: bv32): (r: string)
  {
    seq(9, k requires 0 <= k < 9 => PermLetter(m, k))
  }

  /**
   * The mode column of `ls -l`: the type letter (`undefined` when the type is not in the table,
   * as adding `undefined` to a string prints it), then the `rwx` letters for the bits of
   * `mode >> 3` from `S_IRUSR` down to `S_IXOTH`.
   */
  function LsMode(mode: bv32): (r: string)
  {
    var t := match TypeChar(mode & S_IMFT) case Some(c) => c case None => "undefined";
    t + Perms(mode >> 3)
  }

  /**
   * The column is the type letter followed by nine characters, the `k`-th of which is the `k`-th
   * letter of `rwxrwxrwx` exactly when bit `PERM_BITS[k]` of `mode >> 3` is set; for a type in
   * the table it is ten characters long.
   */
  lemma LsModeShape(mode: bv32, k: nat)
    requires k < 9
    ensures var t := TypeChar(mode & S_IMFT);
      var n := if t.Some? then |t.value| else |"undefined"|;
      |LsMode(mode)| == n + 9 && (t.Some? ==> n == 1) &&
      LsMode(mode)[n + k] == if (mode >> 3) & PERM_BITS[k] != 0 then PERM_LETTERS[k] else '-'
  {
    var t := match TypeChar(mode & S_IMFT) case Some(c) => c case None => "undefined";
    var p := Perms(mode >> 3);
    assert LsMode(mode) == t + p;
    assert |p| == 9 && p[k] == PermLetter(mode >> 3, k);
    assert (t + p)[|t| + k] == p[k];
  }

  lemma PermLetterLow(m: bv32, n: bv32, k: nat)
    requires m & 0x1FF == n & 0x1FF && k < 9
    ensures PermLetter(m, k) == PermLetter(n, k)
  {
    PermBitLow(k);
    AndLow(m, PERM_BITS[k]);
    AndLow(n, PERM_BITS[k]);
  }

  /** Every permission bit is among the low nine. */
  lemma PermBitLow(k: nat)
    requires k < 9
    ensures PERM_BITS[k] & 0x1FF == PERM_BITS[k]
  {
  }

  /** A mask within the low nine bits sees only the low nine bits. */
  lemma AndLow(m: bv32, b: bv32)
    requires b & 0x1FF == b
    ensures m & b == (m & 0x1FF) & b
  {
  }

  /** The permission letters depend only on the low nine bits. */
  lemma PermsLow(m: bv32, n: bv32)
    requires m & 0x1FF == n & 0x1FF
    ensures Perms(m) == Perms(n)
  {
    forall k | 0 <= k < 9
      ensures Perms(m)[k] == Perms(n)[k]
    {
      PermLetterLow(m, n, k);
    }
  }

  /** `parseModeArg('755')` reads the octal digits and, the value being below `0o777`, shifts it into place. */
  lemma ParseMode755()
    ensures ParseModeArg(MStr("755")) == Ok(Finite(0xF68))
  {
    var s := "755";
    TrimStartKeeps(s);
    assert HasOctalTriple(s);
    DigitRunAll(s, 8);
    assert s[..3] == s && s[..2] == "75" && "75"[..1] == "7" && "7"[..0] == "";
    assert ParseInt(s, 8) == Finite(0x1ED);
  }

  /** Storing the parsed `0o755 << 3` shifts it once more. */
  lemma ChmodBits(mode: bv32)
    ensures ChmodMode(mode, Finite(0xF68)) == (mode & CHMOD_KEEP) | 0x7B40
  {
    Bits.AsBitsSmall(0xF68);
    var b: bv32 := 0xF68;
    assert NumBits(Finite(0xF68)) == b;
    assert b << 3 == 0x7B40;
  }

  /** The letters for the permission bits `0o550` come out as `r-xr-x---`. */
  lemma PermsOf168()
    ensures Perms(0x168) == "r-xr-x---"
  {
    var m: bv32 := 0x168;
    assert PermLetter(m, 0) == 'r' && PermLetter(m, 1) == '-' && PermLetter(m, 2) == 'x';
    assert PermLetter(m, 3) == 'r' && PermLetter(m, 4) == '-' && PermLetter(m, 5) == 'x';
    assert PermLetter(m, 6) == '-' && PermLetter(m, 7) == '-' && PermLetter(m, 8) == '-';
  }

  /**
   * `chmod 755` on a regular file followed by `ls -l` shows `undefinedr-xr-x---`: the parsed
   * mode is shifted left once by `parseModeArg` and once more by `chmod`, while `ls` shifts it
   * back only once, so the permissions come out one octal digit too low and the top bits spill
   * into the file type, which is then not in the table.
   */
  lemma ChmodThenLs(mode: bv32)
    requires mode & S_IMFT == S_IFREG
    ensures LsMode(ChmodMode(mode, Finite(0xF68))) == "undefinedr-xr-x---"
  {
    var c := ChmodMode(mode, Finite(0xF68));
    ChmodBits(mode);
    assert c == (mode & CHMOD_KEEP) | 0x7B40;
    assert c & S_IMFT == 0xF000;
    assert (c >> 3) & 0x1FF == 0x168 & 0x1FF;
    PermsLow(c >> 3, 0x168);
    PermsOf168();
  }

  /** The width `ls` gives every name: the longest name's length (in UTF-16 units) plus two. */
  function Longest(names: seq<string>): (n: nat)
    ensures forall k :: 0 <= k < |names| ==> Utf16Length(names[k]) <= n
  {
    if |names| == 0 then 0
    else
      var rest := Longest(names[1..]);
      assert forall k :: 1 <= k < |names| ==> names[k] == names[1..][k - 1];
      if Utf16Length(names[0]) > rest then Utf16Length(names[0]) else rest
  }

  /**
   * `Math.floor(80 / maxPathLength) || 1`: how many names go on a line. With no names the
   * maximum is `-Infinity`, the quotient `-0`, and the answer 1.
   */
  function PerLine(names: seq<string>): (n: nat)
    ensures n >= 1
    ensures |names| > 0 && Longest(names) + 2 <= 80 ==> n == 80 / (Longest(names) + 2)
    ensures |names| == 0 || Longest(names) + 2 > 80 ==> n == 1
  {
    if |names| == 0 then 1
    else
      var per := 80 / (Longest(names) + 2);
      if per == 0 then 1 else per
  }

  /**
   * The short listing from `names[i..]`, `onLine` names already being on the current line: each
   * name, then a line break when the line is full and two spaces otherwise.
   */
  function Columns(names: seq<string>, i: nat, perLine: nat, onLine: nat): string
    requires i <= |names| && perLine >= 1
    decreases |names| - i
  {
    if i == |names| then ""
    else if onLine + 1 == perLine then names[i] + "\n" + Columns(names, i + 1, perLine, 0)
    else names[i] + "  " + Columns(names, i + 1, perLine, onLine + 1)
  }

  /** What follows the `k`-th name: a line break after every `perLine`-th name, two spaces otherwise. */
  function Gap(k: nat, perLine: nat): string
    requires perLine >= 1
  {
    if (k + 1) % perLine == 0 then "\n" else "  "
  }

  /** The names from `i` on, each with the gap its position calls for. */
  function Cells(names: seq<string>, i: nat, perLine: nat): string
    requires i <= |names| && perLine >= 1
    decreases |names| - i
  {
    if i == |names| then "" else names[i] + Gap(i, perLine) + Cells(names, i + 1, perLine)
  }

  /**
   * The counter of the source's loop is the position modulo the names per line, so the listing
   * breaks the line after exactly every `perLine`-th name.
   */
  lemma {:induction false} ColumnsAreCells(names: seq<string>, i: nat, perLine: nat)
    requires i <= |names| && perLine >= 1
    ensures Columns(names, i, perLine, i % perLine) == Cells(names, i, perLine)
    decreases |names| - i
  {
    if i < |names| {
      ColumnsAreCells(names, i + 1, perLine);
      ModNext(i, perLine);
    }
  }

  /** The position within a line after `i + 1` names follows from the one after `i`. */
  lemma ModNext(i: nat, n: nat)
    requires n >= 1
    ensures (i + 1) % n == if i % n + 1 == n then 0 else i % n + 1
  {
    var q, r := i / n, i % n;
    assert i == q * n + r;
    if r + 1 == n {
      assert i + 1 == (q + 1) * n + 0;
      Bits.ModUnique(i + 1, n, q + 1, 0);
    } else {
      assert i + 1 == q * n + (r + 1);
      Bits.ModUnique(i + 1, n, q, r + 1);
    }
  }

  // ---------------------------------------------------------------------------------------------
  // standard output

  /**
   * The value of `process.stdout` a command body sees: the process's `Stream` object, or the
   * string an earlier `process.stdout += …` left in its place.
   */
  datatype Stdout = StreamObject | Replaced(text: string)

  /** The string `process.stdout` turns into when text is added to it: a `Stream` shows as `[object Object]`. */
  function Shown(o: Stdout): string
  {
    if o.StreamObject? then STREAM_TEXT else o.text
  }

  /** `process.stdout += text`: the property becomes a string, and the stream receives nothing. */
  function AddTo(o: Stdout, text: string): Stdout
  {
    Replaced(Shown(o) + text)
  }

  /** The message of the `TypeError` the engine throws for `process.stdout.endsWith(…)` on a `Stream`. */
  const NO_ENDS_WITH := "process.stdout.endsWith is not a function"

  /** `if (!stdout.endsWith('\n')) stdout += '\n'`. */
  function WithNewline(s: string): (r: string)
    ensures EndsWith(r, "\n")
    ensures EndsWith(s, "\n") ==> r == s
    ensures !EndsWith(s, "\n") ==> r == s + "\n"
  {
    if EndsWith(s, "\n") then s else s + "\n"
  }

  /**
   * What the short form of `ls` leaves in `process.stdout`: the text it showed, the names laid
   * out in columns, and a final line break. With no name to list, the property is still the
   * `Stream`, which has no `endsWith`, and the check for the final line break throws.
   */
  function ShortListing(stdout: Stdout, names: seq<string>): (r: Result<Stdout>)
    ensures r.Err? <==> |names| == 0 && stdout.StreamObject?
    ensures r.Err? ==> r.msg == NO_ENDS_WITH
    ensures r.Ok? ==> r.value.Replaced? && StartsWith(r.value.text, Shown(stdout)) && EndsWith(r.value.text, "\n")
  {
    if |names| == 0 && stdout.StreamObject? then Err(NO_ENDS_WITH)
    else Ok(Replaced(WithNewline(Shown(stdout) + Cells(names, 0, PerLine(names)))))
  }

  /**
   * The short form of `ls`, as the source's loop runs it over the listed names, adding each name
   * and its gap to `process.stdout`, then a final line break if it does not end with one.
   */
  method LsShort(stdout: Stdout, names: seq<string>) returns (r: Result<Stdout>)
    ensures r == ShortListing(stdout, names)
  {
    var perLine := PerLine(names);
    var onLine := 0;
    var out := stdout;
    var i := 0;
    while i < |names|
      invariant 0 <= i <= |names| && onLine < perLine
      invariant if i == 0 then out == stdout else out.Replaced?
      invariant Shown(out) + Columns(names, i, perLine, onLine) == Shown(stdout) + Columns(names, 0, perLine, 0)
    {
      ColumnsNext(Shown(out), names, i, perLine, onLine);
      out := AddTo(out, names[i]);
      onLine := onLine + 1;
      if onLine == perLine {
        out := AddTo(out, "\n");
        onLine := 0;
      } else {
        out := AddTo(out, "  ");
      }
      i := i + 1;
    }
    ColumnsAreCells(names, 0, perLine);
    if out.StreamObject? {
      return Err(NO_ENDS_WITH);
    }
    assert Shown(out) + "" == out.text;
    r := Ok(Replaced(WithNewline(out.text)));
  }

  /** The listing from the `i`-th name on is that name, its gap, and the listing from the next one. */
  lemma ColumnsNext(out: string, names: seq<string>, i: nat, perLine: nat, onLine: nat)
    requires i < |names| && perLine >= 1
    ensures out + Columns(names, i, perLine, onLine)
         == if onLine + 1 == perLine then out + names[i] + "\n" + Columns(names, i + 1, perLine, 0)
            else out + names[i] + "  " + Columns(names, i + 1, perLine, onLine + 1)
  {
  }

  /**
   * `ls` without `-l`: the operands, the `files` list, each listed path cut to the name after
   * its last `/`, and the column layout added to `process.stdout`.
   */
  function Ls(a: Nodes, stdout: Stdout, cwd: Option<string>, files: seq<string>, all: bool, recursive: bool, fuel: nat): (r: Result<Stdout>)
    requires Rooted(a)
    ensures r.Ok? ==> r.value.Replaced? && StartsWith(r.value.text, Shown(stdout)) && EndsWith(r.value.text, "\n")
  {
    match LsOperands(a, cwd, files)
    case Err(e) => Err(e)
    case Ok(ops) =>
      match LsFiles(a, ops, 0, all, recursive, fuel)
      case Err(e) => Err(e)
      case Ok(vs) => ShortListing(stdout, seq(|vs|, k requires 0 <= k < |vs| => ListedName(vs[k].1)))
  }

  /**
   * `ls DIR` on a process whose `stdout` is still its stream: an empty directory makes it throw
   * the `TypeError` of `endsWith`; any other leaves the string `[object Object]` followed by the
   * listing in the property.
   */
  lemma LsDirectoryOnStream(a: Nodes, dir: string, id: Id, cwd: Option<string>, fuel: nat)
    requires Rooted(a) && !StartsWith(dir, ".") && Lget(a, ROOT, PStr(dir)) == Ok(id) && a[id].kind.Directory?
    ensures |Files(a, id)| == 0 ==> Ls(a, StreamObject, cwd, [dir], false, false, fuel) == Err(NO_ENDS_WITH)
    ensures |Files(a, id)| > 0 ==> var r := Ls(a, StreamObject, cwd, [dir], false, false, fuel);
      r.Ok? && StartsWith(r.value.text, STREAM_TEXT)
  {
    LsDirectoryNamesEmpty(a, dir, id, fuel);
  }

  // ---------------------------------------------------------------------------------------------
  // rm and rmdir

  /** Ids stay allocated and directories stay directories. */
  ghost predicate KindsKept(a: Nodes, b: Nodes)
  {
    b.Keys == a.Keys && forall j | IsDir(a, j) :: IsDir(b, j)
  }

  /** `unlink` on the root changes entries and link counts only. */
  lemma UnlinkKeepsKinds(a: Nodes, path: string)
    requires Rooted(a)
    ensures KindsKept(a, Unlink(a, ROOT, PStr(path)).nodes)
  {
  }

  /** An unlink's outcome without its returned object. */
  function Dropped(o: Outcome<Id>): (r: Outcome<()>)
    ensures r.nodes == o.nodes && (r.result.Ok? <==> o.result.Ok?)
    ensures o.result.Err? ==> r.result == Err(o.result.msg)
  {
    Outcome(o.nodes, if o.result.Ok? then Ok(()) else Err(o.result.msg))
  }

  /**
   * `rm -r`'s walk: `recursively(file, (f, p) => fs.unlink(p), true)` from path `path`. Each
   * callback unlinks its path from the root before the walk goes on; entries are taken from the
   * live map, so one removed before it is reached is skipped.
   */
  function UnlinkTree(a: Nodes, id: Id, path: string, fuel: nat): (r: Outcome<()>)
    requires Rooted(a) && id in a
    ensures Rooted(r.nodes) && KindsKept(a, r.nodes)
    decreases fuel, 2
  {
    var u := Unlink(a, ROOT, PStr(path));
    if u.result.Err? then Outcome(u.nodes, Err(u.result.msg))
    else Descend(u.nodes, id, path, fuel)
  }

  /** What the walk does after the callback: a directory's entries are walked in turn. */
  function Descend(b: Nodes, id: Id, path: string, fuel: nat): (r: Outcome<()>)
    requires Rooted(b) && id in b
    ensures Rooted(r.nodes) && KindsKept(b, r.nodes)
    decreases fuel, 1
  {
    if !b[id].kind.Directory? then Outcome(b, Ok(()))
    else if fuel == 0 then Outcome(b, Err(TOO_DEEP))
    else UnlinkEntries(b, id, OrdMap.Keys(Files(b, id)), path, fuel)
  }

  /**
   * The walk over `names`, the names directory `dir` had when the walk reached it, each looked
   * up in its current entries: a name no longer there is skipped.
   */
  function UnlinkEntries(a: Nodes, dir: Id, names: seq<string>, path: string, fuel: nat): (r: Outcome<()>)
    requires Rooted(a) && IsDir(a, dir) && fuel > 0
    ensures Rooted(r.nodes) && KindsKept(a, r.nodes)
    decreases fuel, 0, |names|
  {
    if |names| == 0 then Outcome(a, Ok(()))
    else
      var t := EntryStep(a, dir, names[0], path, fuel);
      if t.result.Err? then t
      else UnlinkEntries(t.nodes, dir, names[1..], path, fuel)
  }

  /** One name of the snapshot: skipped when no longer an entry, otherwise walked one level down. */
  function EntryStep(a: Nodes, dir: Id, name: string, path: string, fuel: nat): (r: Outcome<()>)
    requires Rooted(a) && IsDir(a, dir) && fuel > 0
    ensures Rooted(r.nodes) && KindsKept(a, r.nodes)
    decreases fuel, 0, 0
  {
    match OrdMap.Get(Files(a, dir), name)
    case None => Outcome(a, Ok(()))
    case Some(child) =>
      ChildIn(a, dir, name);
      UnlinkTree(a, child, JoinPaths([path, name]), Below(fuel))
  }

  /**
   * `rm` of one operand: `get(path)`; a directory is removed recursively with `-r`, unlinked
   * with `-d` when it has no entries, and refused otherwise; anything else is unlinked.
   */
  function RmOne(a: Nodes, path: string, r: bool, d: bool, fuel: nat): (o: Outcome<()>)
    requires Rooted(a)
    ensures Rooted(o.nodes) && KindsKept(a, o.nodes)
  {
    match Get(a, ROOT, PStr(path))
    case Err(e) => Outcome(a, Err(e))
    case Ok(id) =>
      UnlinkKeepsKinds(a, path);
      if a[id].kind.Directory? then
        if r then UnlinkTree(a, id, "", fuel)
        else if d then
          if |Files(a, id)| > 0 then Outcome(a, Err("cannot delete non-empty directory"))
          else Dropped(Unlink(a, ROOT, PStr(path)))
        else Outcome(a, Err("cannot delete directory"))
      else Dropped(Unlink(a, ROOT, PStr(path)))
  }

  /** `rm` over the operands `paths[i..]`, stopping at the first error. */
  function RmFrom(a: Nodes, paths: seq<string>, i: nat, r: bool, d: bool, fuel: nat): (o: Outcome<()>)
    requires Rooted(a) && i <= |paths|
    ensures Rooted(o.nodes) && KindsKept(a, o.nodes)
    decreases |paths| - i
  {
    if i == |paths| then Outcome(a, Ok(()))
    else
      var o := RmOne(a, paths[i], r, d, fuel);
      if o.result.Err? then o else RmFrom(o.nodes, paths, i + 1, r, d, fuel)
  }

  /**
   * A directory is refused without `-r` unless `-d` is given and it is empty; with `-d` a
   * non-empty one is refused too. Nothing changes.
   */
  lemma RmRefusesDirectory(a: Nodes, path: string, r: bool, d: bool, fuel: nat, id: Id)
    requires Rooted(a) && Get(a, ROOT, PStr(path)) == Ok(id) && a[id].kind.Directory? && !r
    ensures !d ==> RmOne(a, path, r, d, fuel) == Outcome(a, Err("cannot delete directory"))
    ensures d && |Files(a, id)| > 0 ==> RmOne(a, path, r, d, fuel) == Outcome(a, Err("cannot delete non-empty directory"))
  {
  }

  /**
   * `unlink` looks the whole normalised path up as one name of the root, and no name of a file
   * system that `link` and `mkdir` built starts with `/`: so every `rm` fails, leaving the file
   * system as it was (with `-r`, at the first callback, which unlinks the empty path).
   */
  lemma RmNeverRemoves(a: Nodes, path: string, r: bool, d: bool, fuel: nat)
    requires Rooted(a) && Relative(a)
    ensures RmOne(a, path, r, d, fuel).nodes == a && RmOne(a, path, r, d, fuel).result.Err?
  {
    VfsFacts.UnlinkNeverFinds(a, ROOT, PStr(path));
    VfsFacts.UnlinkNeverFinds(a, ROOT, PStr(""));
  }

  /** On such a file system, `rm` with any operand fails and changes nothing. */
  lemma {:induction false} RmFromNeverRemoves(a: Nodes, paths: seq<string>, r: bool, d: bool, fuel: nat)
    requires Rooted(a) && Relative(a) && |paths| > 0
    ensures RmFrom(a, paths, 0, r, d, fuel).nodes == a && RmFrom(a, paths, 0, r, d, fuel).result.Err?
  {
    RmNeverRemoves(a, paths[0], r, d, fuel);
  }

  /**
   * When the root does hold an entry under the normalised path (a name starting with `/`), `rm`
   * of a non-directory removes that entry and lowers the object's link count by one.
   */
  lemma RmUnlinksRootKey(a: Nodes, path: string, fuel: nat, id: Id, key: string, child: Id)
    requires Rooted(a) && Get(a, ROOT, PStr(path)) == Ok(id) && !a[id].kind.Directory?
    requires key == ParseString(path) && OrdMap.Get(Files(a, ROOT), key) == Some(child)
    ensures RmOne(a, path, false, false, fuel).result == Ok(())
    ensures Files(RmOne(a, path, false, false, fuel).nodes, ROOT) == OrdMap.Delete(Files(a, ROOT), key)
  {
    ParsePathArgIgnoresCwd(path, "/");
    ParsePathArgIgnoresCwd(key, "/");
    ParseStringIdempotent(path);
    ChildIn(a, ROOT, key);
    var b := Bump(a, child, -1);
    assert Unlink(a, ROOT, PStr(path)) == Outcome(RemoveEntry(b, ROOT, key), Ok(child));
  }

  /**
   * `rmdir` of one operand: `get(path)`; a directory with entries or a non-directory is refused
   * with the operand in the message; an empty directory is unlinked.
   */
  function RmdirOne(a: Nodes, path: string): (o: Outcome<()>)
    requires Rooted(a)
    ensures Rooted(o.nodes)
  {
    match Get(a, ROOT, PStr(path))
    case Err(e) => Outcome(a, Err(e))
    case Ok(id) =>
      if a[id].kind.Directory? then
        if |Files(a, id)| > 0 then Outcome(a, Err("cannot remove non-empty directory " + path))
        else Dropped(Unlink(a, ROOT, PStr(path)))
      else Outcome(a, Err("cannot remove non-directory " + path))
  }

  /** `rmdir` over the operands `paths[i..]`, stopping at the first error. */
  function RmdirFrom(a: Nodes, paths: seq<string>, i: nat): (o: Outcome<()>)
    requires Rooted(a) && i <= |paths|
    ensures Rooted(o.nodes)
    decreases |paths| - i
  {
    if i == |paths| then Outcome(a, Ok(()))
    else
      var o := RmdirOne(a, paths[i]);
      if o.result.Err? then o else RmdirFrom(o.nodes, paths, i + 1)
  }

  /**
   * `rmdir` refuses a non-directory and a directory with entries, naming the operand; an empty
   * directory goes to `unlink`, which on a file system built by `link` and `mkdir` never finds it.
   */
  lemma RmdirOutcomes(a: Nodes, path: string, id: Id)
    requires Rooted(a) && Get(a, ROOT, PStr(path)) == Ok(id)
    ensures !a[id].kind.Directory? ==> RmdirOne(a, path) == Outcome(a, Err("cannot remove non-directory " + path))
    ensures a[id].kind.Directory? && |Files(a, id)| > 0 ==> RmdirOne(a, path) == Outcome(a, Err("cannot remove non-empty directory " + path))
    ensures Relative(a) ==> RmdirOne(a, path).nodes == a && RmdirOne(a, path).result.Err?
  {
    if Relative(a) {
      VfsFacts.UnlinkNeverFinds(a, ROOT, PStr(path));
    }
  }

  /** `rm`'s callback on one object, as the source runs it: unlink its path, then walk its entries. */
  method UnlinkTreeOn(fs: FileSystem, id: Id, path: string, fuel: nat) returns (r: Result<()>)
    requires fs.Valid() && id in fs.nodes
    modifies fs
    ensures fs.Valid() && fs.next == old(fs.next) && fs.fds == old(fs.fds)
    ensures Outcome(fs.nodes, r) == UnlinkTree(old(fs.nodes), id, path, fuel)
    decreases fuel, 2
  {
    var u := fs.Unlink(ROOT, PStr(path));
    if u.Err? {
      return Err(u.msg);
    }
    r := DescendOn(fs, id, path, fuel);
  }

  /** The rest of the callback's walk, once the object's path is unlinked. */
  method DescendOn(fs: FileSystem, id: Id, path: string, fuel: nat) returns (r: Result<()>)
    requires fs.Valid() && id in fs.nodes
    modifies fs
    ensures fs.Valid() && fs.next == old(fs.next) && fs.fds == old(fs.fds)
    ensures Outcome(fs.nodes, r) == Descend(old(fs.nodes), id, path, fuel)
    decreases fuel, 1
  {
    if !fs.nodes[id].kind.Directory? {
      return Ok(());
    }
    if fuel == 0 {
      return Err(TOO_DEEP);
    }
    r := UnlinkEntriesOn(fs, id, OrdMap.Keys(Files(fs.nodes, id)), path, fuel);
  }

  /**
   * The loop over the names directory `dir` had when the walk reached it: a name no longer
   * present is skipped, any other is walked, and the first error ends the loop.
   */
  method UnlinkEntriesOn(fs: FileSystem, dir: Id, names: seq<string>, path: string, fuel: nat) returns (r: Result<()>)
    requires fs.Valid() && IsDir(fs.nodes, dir) && fuel > 0
    modifies fs
    ensures fs.Valid() && fs.next == old(fs.next) && fs.fds == old(fs.fds)
    ensures Outcome(fs.nodes, r) == UnlinkEntries(old(fs.nodes), dir, names, path, fuel)
    decreases fuel, 0, 1
  {
    var i := 0;
    assert names[0..] == names;
    while i < |names|
      invariant 0 <= i <= |names| && fs.Valid() && IsDir(fs.nodes, dir)
      invariant fs.next == old(fs.next) && fs.fds == old(fs.fds)
      invariant UnlinkEntries(fs.nodes, dir, names[i..], path, fuel) == UnlinkEntries(old(fs.nodes), dir, names, path, fuel)
    {
      assert names[i..][0] == names[i] && names[i..][1..] == names[i + 1..];
      r := EntryOn(fs, dir, names[i], path, fuel);
      if r.Err? {
        return;
      }
      i := i + 1;
    }
    assert names[i..] == [];
    return Ok(());
  }

  /** The body of that loop for one name. */
  method EntryOn(fs: FileSystem, dir: Id, name: string, path: string, fuel: nat) returns (r: Result<()>)
    requires fs.Valid() && IsDir(fs.nodes, dir) && fuel > 0
    modifies fs
    ensures fs.Valid() && fs.next == old(fs.next) && fs.fds == old(fs.fds)
    ensures Outcome(fs.nodes, r) == EntryStep(old(fs.nodes), dir, name, path, fuel)
    decreases fuel, 0, 0
  {
    var child := OrdMap.Get(Files(fs.nodes, dir), name);
    if child.None? {
      return Ok(());
    }
    ChildIn(fs.nodes, dir, name);
    r := UnlinkTreeOn(fs, child.value, JoinPaths([path, name]), Below(fuel));
  }

  /** `rm` of one operand. */
  method RmOneOn(fs: FileSystem, path: string, recursive: bool, dirs: bool, fuel: nat) returns (res: Result<()>)
    requires fs.Valid()
    modifies fs
    ensures fs.Valid() && fs.next == old(fs.next) && fs.fds == old(fs.fds)
    ensures Outcome(fs.nodes, res) == RmOne(old(fs.nodes), path, recursive, dirs, fuel)
  {
    var file := fs.Get(ROOT, PStr(path));
    if file.Err? {
      return Err(file.msg);
    }
    if fs.nodes[file.value].kind.Directory? {
      if recursive {
        res := UnlinkTreeOn(fs, file.value, "", fuel);
        return;
      } else if !dirs {
        return Err("cannot delete directory");
      } else if |Files(fs.nodes, file.value)| > 0 {
        return Err("cannot delete non-empty directory");
      }
    }
    var u := fs.Unlink(ROOT, PStr(path));
    res := if u.Ok? then Ok(()) else Err(u.msg);
  }

  /** The `rm` command over its operands. */
  method Rm(fs: FileSystem, paths: seq<string>, recursive: bool, dirs: bool, fuel: nat) returns (res: Result<()>)
    requires fs.Valid()
    modifies fs
    ensures fs.Valid() && fs.next == old(fs.next) && fs.fds == old(fs.fds)
    ensures Outcome(fs.nodes, res) == RmFrom(old(fs.nodes), paths, 0, recursive, dirs, fuel)
  {
    var i := 0;
    while i < |paths|
      invariant 0 <= i <= |paths| && fs.Valid()
      invariant fs.next == old(fs.next) && fs.fds == old(fs.fds)
      invariant RmFrom(fs.nodes, paths, i, recursive, dirs, fuel) == RmFrom(old(fs.nodes), paths, 0, recursive, dirs, fuel)
    {
      res := RmOneOn(fs, paths[i], recursive, dirs, fuel);
      if res.Err? {
        return;
      }
      i := i + 1;
    }
    return Ok(());
  }

  /** The `rmdir` command over its operands. */
  method Rmdir(fs: FileSystem, paths: seq<string>) returns (res: Result<()>)
    requires fs.Valid()
    modifies fs
    ensures fs.Valid() && fs.next == old(fs.next) && fs.fds == old(fs.fds)
    ensures Outcome(fs.nodes, res) == RmdirFrom(old(fs.nodes), paths, 0)
  {
    var i := 0;
    while i < |paths|
      invariant 0 <= i <= |paths| && fs.Valid()
      invariant fs.next == old(fs.next) && fs.fds == old(fs.fds)
      invariant RmdirFrom(fs.nodes, paths, i) == RmdirFrom(old(fs.nodes), paths, 0)
    {
      ghost var a := fs.nodes;
      var path := paths[i];
      var file := fs.Get(ROOT, PStr(path));
      if file.Err? {
        return Err(file.msg);
      }
      if !fs.nodes[file.value].kind.Directory? {
        return Err("cannot remove non-directory " + path);
      }
      if |Files(fs.nodes, file.value)| > 0 {
        return Err("cannot remove non-empty directory " + path);
      }
      var u := fs.Unlink(ROOT, PStr(path));
      if u.Err? {
        return Err(u.msg);
      }
      assert Outcome(fs.nodes, Ok(())) == RmdirOne(a, path);
      i := i + 1;
    }
    return Ok(());
  }

  // ---------------------------------------------------------------------------------------------
  // cat

  /** What one operand adds: `-` the standard-input stream object, any other path the file's text as `read` gives it. */
  function Piece(a: Nodes, path: string): (r: Result<string>)
    requires Rooted(a)
  {
    if path == "-" then Ok(STREAM_TEXT)
    else
      match Read(a, ROOT, PStr(path), None, None)
      case Err(e) => Err(e)
      case Ok(bytes) => Ok(Utf8.Decode(bytes))
  }

  /** The text `cat` collects from `paths` after `acc`, or the first error. */
  function CatFrom(a: Nodes, paths: seq<string>, acc: string): (r: Result<string>)
    requires Rooted(a)
    decreases |paths|
  {
    if |paths| == 0 then Ok(acc)
    else
      match Piece(a, paths[0])
      case Err(e) => Err(e)
      case Ok(s) => CatFrom(a, paths[1..], acc + s)
  }

  /** The pieces of `paths` one after the other. */
  function Pieces(a: Nodes, paths: seq<string>): (r: Result<string>)
    requires Rooted(a)
    decreases |paths|
  {
    if |paths| == 0 then Ok("")
    else
      match Piece(a, paths[0])
      case Err(e) => Err(e)
      case Ok(s) =>
        match Pieces(a, paths[1..])
        case Err(e) => Err(e)
        case Ok(t) => Ok(s + t)
  }

  /** `cat` fails with the first failing operand's error, and otherwise collects the pieces in order. */
  lemma {:induction false} CatCollects(a: Nodes, paths: seq<string>, acc: string)
    requires Rooted(a)
    ensures Pieces(a, paths).Err? ==> CatFrom(a, paths, acc) == Err(Pieces(a, paths).msg)
    ensures Pieces(a, paths).Ok? ==> CatFrom(a, paths, acc) == Ok(acc + Pieces(a, paths).value)
    decreases |paths|
  {
    if |paths| > 0 {
      var p := Piece(a, paths[0]);
      if p.Ok? {
        CatCollects(a, paths[1..], acc + p.value);
        var rest := Pieces(a, paths[1..]);
        if rest.Ok? {
          assert acc + p.value + rest.value == acc + (p.value + rest.value);
        }
      }
    } else {
      assert acc + "" == acc;
    }
  }

  /**
   * `read` takes `length = -1` by default, so `cat` of a regular file gives its text without the
   * last byte.
   */
  lemma CatDropsLastByte(a: Nodes, path: string, id: Id)
    requires Rooted(a) && path != "-" && GetRegular(a, ROOT, PStr(path)) == Ok(id)
    ensures var data := a[id].kind.data;
      Piece(a, path) == Ok(Utf8.Decode(if |data| == 0 then [] else data[..|data| - 1]))
  {
    VfsFacts.ReadDropsLastByte(a, ROOT, PStr(path), id);
  }

  /**
   * The `cat` command: the loop collects every operand's piece, and only when every operand was
   * read is the collected text added to `process.stdout`, which then becomes the string
   * `[object Object]` (or the string it already held) followed by that text.
   */
  method Cat(fs: FileSystem, stdout: Stdout, paths: seq<string>) returns (r: Result<Stdout>)
    requires fs.Valid()
    ensures Pieces(fs.nodes, paths).Err? ==> r == Err(Pieces(fs.nodes, paths).msg)
    ensures Pieces(fs.nodes, paths).Ok? ==> r == Ok(Replaced(Shown(stdout) + Pieces(fs.nodes, paths).value))
  {
    var out := "";
    var i := 0;
    assert paths[0..] == paths;
    while i < |paths|
      invariant 0 <= i <= |paths|
      invariant CatFrom(fs.nodes, paths[i..], out) == CatFrom(fs.nodes, paths, "")
    {
      assert paths[i..][0] == paths[i] && paths[i..][1..] == paths[i + 1..];
      if paths[i] == "-" {
        out := out + STREAM_TEXT;
      } else {
        var bytes := fs.Read(ROOT, PStr(paths[i]), None, None);
        if bytes.Err? {
          CatCollects(fs.nodes, paths, "");
          return Err(bytes.msg);
        }
        out := out + Utf8.Decode(bytes.value);
      }
      i := i + 1;
    }
    CatCollects(fs.nodes, paths, "");
    assert paths[i..] == [];
    assert "" + Pieces(fs.nodes, paths).value == Pieces(fs.nodes, paths).value;
    return Ok(AddTo(stdout, out));
  }
}
