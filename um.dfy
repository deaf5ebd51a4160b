/**
 * `UserManager` (src/um.ts): the user and group databases `/etc/passwd` and `/etc/group`, kept
 * in the virtual file system as tables of lines split on `':'`. Lookups keep the rows that do
 * NOT carry the key and take the first of them; a string key is compared with field 1 (the
 * password field) and a numeric key with field 2. `set` replaces the first row with the same
 * id or appends; `delete` keeps the rows without the key.
 */
module Users {
  import opened Wrappers
  import opened Text
  import OrdMap
  import Utf8
  import opened FsPath
  import opened Vfs
  import opened FileSystems
  import VfsFacts

  type Row = seq<string>
  type Table = seq<Row>

  const PASSWD := "/etc/passwd"
  const GROUP := "/etc/group"
  /** The file `setGroupData` reads its table from, which is not the one it writes. */
  const GROUPS := "/etc/groups"

  /** What reading a field of the row `undefined` throws. */
  const UNDEFINED_ROW := "Cannot read properties of undefined (reading '0')"
  /** What `data[3].split(' ')` throws on a row without field 3. */
  const UNDEFINED_MEMBERS := "Cannot read properties of undefined (reading 'split')"

  /** Every row has its field 0, as every row `readDB` produces does. */
  predicate Rows(t: Table)
  {
    forall i :: 0 <= i < |t| ==> |t[i]| >= 1
  }

  // ---------------------------------------------------------------------------------------------
  // The table format

  /** `readDB`'s parse: lines on `'\n'`, then fields on `':'`. */
  function ReadTable(text: string): (t: Table)
    ensures |t| >= 1 && Rows(t)
  {
    var lines := Split(text, '\n');
    seq(|lines|, i requires 0 <= i < |lines| => Split(lines[i], ':'))
  }

  /** Each row joined with `':'`. */
  function Lines(t: Table): (r: seq<string>)
    ensures |r| == |t| && forall i :: 0 <= i < |t| ==> r[i] == Join(t[i], ":")
  {
    seq(|t|, i requires 0 <= i < |t| => Join(t[i], ":"))
  }

  /** `writeDB`'s text: the rows joined with `':'`, the lines with `'\n'`. */
  function WriteTable(t: Table): string
  {
    Join(Lines(t), "\n")
  }

  /** A table the format can carry: at least one row, no empty row, no cell holding `':'` or `'\n'`. */
  predicate Storable(t: Table)
  {
    |t| >= 1 && Rows(t) && forall i, j :: 0 <= i < |t| && 0 <= j < |t[i]| ==> Free(t[i][j], {':', '\n'})
  }

  /** A storable table is parsed back from its text. */
  lemma ReadWriteTable(t: Table)
    requires Storable(t)
    ensures ReadTable(WriteTable(t)) == t
  {
    var lines := Lines(t);
    forall i | 0 <= i < |t|
      ensures Free(lines[i], {'\n'}) && Split(lines[i], ':') == t[i]
    {
      forall j | 0 <= j < |t[i]|
        ensures Free(t[i][j], {'\n'}) && Free(t[i][j], {':'})
      {
        assert Free(t[i][j], {':', '\n'});
      }
      JoinFree(t[i], ":", {'\n'});
      SplitJoin(t[i], ':');
    }
    SplitJoin(lines, '\n');
  }

  /** Every text is written back exactly as it was parsed. */
  lemma WriteReadTable(text: string)
    ensures WriteTable(ReadTable(text)) == text
  {
    var lines := Split(text, '\n');
    var t := ReadTable(text);
    forall i | 0 <= i < |lines|
      ensures Lines(t)[i] == lines[i]
    {
      JoinSplit(lines[i], ':');
    }
    assert Lines(t) == lines;
    JoinSplit(text, '\n');
  }

  /** The empty table does not survive: it is read back as one row with one empty field. */
  lemma EmptyTableReadsBack()
    ensures ReadTable(WriteTable([])) == [[""]]
  {
    assert WriteTable([]) == "";
    assert Split("", '\n') == [""];
  }

  // ---------------------------------------------------------------------------------------------
  // Rows and keys

  /** `row[k]`, `undefined` past the end. */
  function Cell(row: Row, k: nat): (r: Option<string>)
    ensures r.Some? <==> k < |row|
    ensures r.Some? ==> r.value == row[k]
  {
    if k < |row| then Some(row[k]) else None
  }

  /** `user: string | number`. */
  datatype Key = ByName(name: string) | ById(id: int)

  /** Whether the row carries the key: a name is compared with field 1, an id with field 2. */
  predicate Matches(row: Row, key: Key)
  {
    match key
    case ByName(n) => Cell(row, 1) == Some(n)
    case ById(id) => Cell(row, 2) == Some(IntToString(id))
  }

  /** The rows that do not carry the key, in order: the source's `filter`. */
  function Rest(t: Table, key: Key): (r: Table)
    ensures |r| <= |t|
    ensures forall i :: 0 <= i < |r| ==> r[i] in t && !Matches(r[i], key)
  {
    if |t| == 0 then []
    else if Matches(t[0], key) then Rest(t[1..], key)
    else [t[0]] + Rest(t[1..], key)
  }

  /** The rows kept are exactly those without the key. */
  lemma {:induction false} RestKeeps(t: Table, key: Key, row: Row)
    ensures row in Rest(t, key) <==> row in t && !Matches(row, key)
    decreases |t|
  {
    if |t| > 0 {
      RestKeeps(t[1..], key, row);
      assert t == [t[0]] + t[1..];
    }
  }

  /** The first row kept is the first row without the key; none is kept when every row has it. */
  lemma {:induction false} RestFirst(t: Table, key: Key, k: nat)
    requires k < |t| && !Matches(t[k], key)
    requires forall j :: 0 <= j < k ==> Matches(t[j], key)
    ensures |Rest(t, key)| >= 1 && Rest(t, key)[0] == t[k]
    decreases k
  {
    if k > 0 {
      RestFirst(t[1..], key, k - 1);
    }
  }

  lemma {:induction false} RestNone(t: Table, key: Key)
    ensures |Rest(t, key)| == 0 <==> forall j :: 0 <= j < |t| ==> Matches(t[j], key)
    decreases |t|
  {
    if |t| > 0 {
      RestNone(t[1..], key);
      if forall j :: 0 <= j < |t[1..]| ==> Matches(t[1..][j], key) {
        forall j | 1 <= j < |t|
          ensures Matches(t[j], key)
        {
          assert t[j] == t[1..][j - 1];
        }
      }
    }
  }

  /** Deleting twice deletes nothing more. */
  lemma {:induction false} RestIdempotent(t: Table, key: Key)
    ensures Rest(Rest(t, key), key) == Rest(t, key)
    decreases |t|
  {
    if |t| > 0 {
      RestIdempotent(t[1..], key);
      if !Matches(t[0], key) {
        assert ([t[0]] + Rest(t[1..], key))[1..] == Rest(t[1..], key);
      }
    }
  }

  /** `parseInt(cell)`, with `parseInt(undefined)` being `NaN`. */
  function NumOf(cell: Option<string>): Num
  {
    match cell
    case None => NaN
    case Some(s) => ParseInt(s, 0)
  }

  // ---------------------------------------------------------------------------------------------
  // Users

  /** A `UserData` as a lookup returns it: fields missing from the row are `undefined`. */
  datatype UserRecord = UserRecord(name: string, uid: Num, gid: Num, info: Option<string>, homedir: Option<string>, shell: Option<string>)

  /** A `UserData` as `setUserData` is given it. */
  datatype UserData = UserData(name: string, uid: int, gid: int, info: string, homedir: string, shell: string)

  /** The record a row reads as: fields 0, 2 and 3 (parsed), 4, 5 and 6. */
  function UserOf(row: Row): UserRecord
    requires |row| >= 1
  {
    UserRecord(row[0], NumOf(Cell(row, 2)), NumOf(Cell(row, 3)), Cell(row, 4), Cell(row, 5), Cell(row, 6))
  }

  /** `getUserData(key)` on the table: the first row WITHOUT the key; with none, reading it throws. */
  function GetUser(t: Table, key: Key): (r: Result<UserRecord>)
    requires Rows(t)
  {
    var rest := Rest(t, key);
    if |rest| == 0 then Err(UNDEFINED_ROW) else Ok(UserOf(rest[0]))
  }

  /** The lookup answers with the first row that does not carry the key. */
  lemma GetUserFirstOther(t: Table, key: Key, k: nat)
    requires Rows(t) && k < |t| && !Matches(t[k], key)
    requires forall j :: 0 <= j < k ==> Matches(t[j], key)
    ensures GetUser(t, key) == Ok(UserOf(t[k]))
  {
    RestFirst(t, key, k);
  }

  /** The lookup fails exactly when every row carries the key. */
  lemma GetUserFails(t: Table, key: Key)
    requires Rows(t)
    ensures GetUser(t, key).Err? <==> forall j :: 0 <= j < |t| ==> Matches(t[j], key)
  {
    RestNone(t, key);
  }

  /** After deleting a key, looking it up gives what it gave before. */
  lemma GetUserAfterDelete(t: Table, key: Key)
    requires Rows(t)
    ensures Rows(Rest(t, key)) && GetUser(Rest(t, key), key) == GetUser(t, key)
  {
    RestIdempotent(t, key);
  }

  /** The pairs `[data[0], record]` `getAllUsersData` builds its map from. */
  function UserEntries(t: Table): (r: OrdMap.Entries<string, UserRecord>)
    requires Rows(t)
    ensures |r| == |t| && forall i :: 0 <= i < |t| ==> r[i] == (t[i][0], UserOf(t[i]))
  {
    seq(|t|, i requires 0 <= i < |t| => (t[i][0], UserOf(t[i])))
  }

  /** `getAllUsersData()` on the table: a `Map` keyed by field 0. */
  function AllUsers(t: Table): OrdMap.Entries<string, UserRecord>
    requires Rows(t)
  {
    OrdMap.FromEntries(UserEntries(t))
  }

  /** A name is mapped to the record of the LAST row with that name. */
  lemma AllUsersLast(t: Table, k: nat)
    requires Rows(t) && k < |t|
    requires forall j :: k < j < |t| ==> t[j][0] != t[k][0]
    ensures OrdMap.Distinct(AllUsers(t))
    ensures OrdMap.Get(AllUsers(t), t[k][0]) == Some(UserOf(t[k]))
  {
    OrdMap.FromEntriesGet(UserEntries(t), t[k][0]);
    OrdMap.LastWithAt(UserEntries(t), k);
  }

  /** A name no row has is not in the map. */
  lemma AllUsersAbsent(t: Table, name: string)
    requires Rows(t) && forall j :: 0 <= j < |t| ==> t[j][0] != name
    ensures OrdMap.Get(AllUsers(t), name) == None
  {
    OrdMap.FromEntriesGet(UserEntries(t), name);
    OrdMap.LastWithNone(UserEntries(t), name);
  }

  /** The row `setUserData` writes: `[name, '', uid, gid, info, homedir, shell]`. */
  function UserRow(u: UserData): (r: Row)
    ensures |r| == 7
  {
    [u.name, "", IntToString(u.uid), IntToString(u.gid), u.info, u.homedir, u.shell]
  }

  /** A row written by `setUserData` reads back as the record it was given. */
  lemma UserRowReadsBack(u: UserData)
    ensures UserOf(UserRow(u)) == UserRecord(u.name, Finite(u.uid), Finite(u.gid), Some(u.info), Some(u.homedir), Some(u.shell))
  {
    ParseIntOfIntToString(u.uid, 0);
    ParseIntOfIntToString(u.gid, 0);
  }

  /** `ids.indexOf(id)` over field 2 of the rows, with `|t|` for "not found". */
  function FirstWithId(t: Table, id: string): (k: nat)
    ensures k <= |t|
    ensures k < |t| ==> Cell(t[k], 2) == Some(id)
    ensures forall j :: 0 <= j < k ==> Cell(t[j], 2) != Some(id)
  {
    if |t| == 0 then 0
    else if Cell(t[0], 2) == Some(id) then 0
    else 1 + FirstWithId(t[1..], id)
  }

  /** `set`'s new table: the first row with the same id (field 2) is replaced, or the row appended. */
  function Upsert(t: Table, row: Row): (r: Table)
    requires |row| >= 3
  {
    var k := FirstWithId(t, row[2]);
    if k < |t| then t[k := row] else t + [row]
  }

  /**
   * After `set`, the first row with the new row's id is the new row, at the place of the old
   * first one or at the end; every other row is unchanged and nothing else is added.
   */
  lemma UpsertPlaces(t: Table, row: Row)
    requires |row| >= 3
    ensures var k := FirstWithId(t, row[2]);
      FirstWithId(Upsert(t, row), row[2]) == k && Upsert(t, row)[k] == row
      && |Upsert(t, row)| == (if k < |t| then |t| else |t| + 1)
      && forall j :: 0 <= j < |t| && j != k ==> Upsert(t, row)[j] == t[j]
  {
    var k := FirstWithId(t, row[2]);
    var r := Upsert(t, row);
    FirstWithIdAt(r, row[2], k);
  }

  lemma {:induction false} FirstWithIdAt(t: Table, id: string, k: nat)
    requires k < |t| && Cell(t[k], 2) == Some(id)
    requires forall j :: 0 <= j < k ==> Cell(t[j], 2) != Some(id)
    ensures FirstWithId(t, id) == k
    decreases k
  {
    if k > 0 {
      FirstWithIdAt(t[1..], id, k - 1);
    }
  }

  /** Setting the same row twice is setting it once. */
  lemma UpsertIdempotent(t: Table, row: Row)
    requires |row| >= 3
    ensures Upsert(Upsert(t, row), row) == Upsert(t, row)
  {
    UpsertPlaces(t, row);
  }

  // ---------------------------------------------------------------------------------------------
  // Groups

  /** A `GroupData` as a lookup returns it. */
  datatype GroupRecord = GroupRecord(name: string, gid: Num, users: seq<string>)

  /** A `GroupData` as `setGroupData` is given it. */
  datatype GroupData = GroupData(name: string, gid: int, users: seq<string>)

  /** The record a row reads as: members are field 3 split on `' '`; without field 3 the split throws. */
  function GroupOf(row: Row): (r: Result<GroupRecord>)
    requires |row| >= 1
    ensures r.Ok? <==> |row| >= 4
    ensures r.Ok? ==> r.value.name == row[0] && r.value.users == Split(row[3], ' ')
  {
    if |row| < 4 then Err(UNDEFINED_MEMBERS)
    else Ok(GroupRecord(row[0], NumOf(Cell(row, 2)), Split(row[3], ' ')))
  }

  /** `getGroupData(key)` on the table: the first row without the key, read as a group. */
  function GetGroup(t: Table, key: Key): (r: Result<GroupRecord>)
    requires Rows(t)
  {
    var rest := Rest(t, key);
    if |rest| == 0 then Err(UNDEFINED_ROW) else GroupOf(rest[0])
  }

  /** The group lookup answers with the first row that does not carry the key. */
  lemma GetGroupFirstOther(t: Table, key: Key, k: nat)
    requires Rows(t) && k < |t| && !Matches(t[k], key)
    requires forall j :: 0 <= j < k ==> Matches(t[j], key)
    ensures GetGroup(t, key) == GroupOf(t[k])
  {
    RestFirst(t, key, k);
  }

  /** Every row read as a group, in order; the first row without field 3 makes the whole map throw. */
  function GroupRecords(t: Table): (r: Result<seq<GroupRecord>>)
    requires Rows(t)
    ensures r.Ok? <==> forall i :: 0 <= i < |t| ==> |t[i]| >= 4
    ensures r.Ok? ==> |r.value| == |t| && forall i :: 0 <= i < |t| ==> GroupOf(t[i]) == Ok(r.value[i])
  {
    if forall i :: 0 <= i < |t| ==> |t[i]| >= 4 then Ok(seq(|t|, i requires 0 <= i < |t| => GroupOf(t[i]).value))
    else Err(UNDEFINED_MEMBERS)
  }

  /** Pairs keyed by the group's own name. */
  predicate Named(m: OrdMap.Entries<string, GroupRecord>)
  {
    forall i :: 0 <= i < |m| ==> m[i].0 == m[i].1.name
  }

  /** `getAllGroupsData()` on the table: a `Map` keyed by field 0. */
  function AllGroups(t: Table): (r: Result<OrdMap.Entries<string, GroupRecord>>)
    requires Rows(t)
  {
    match GroupRecords(t)
    case Err(e) => Err(e)
    case Ok(gs) => Ok(OrdMap.FromEntries(seq(|gs|, i requires 0 <= i < |gs| => (gs[i].name, gs[i]))))
  }

  /** The group map has no duplicate name and keys every group by its name. */
  lemma AllGroupsNamed(t: Table, m: OrdMap.Entries<string, GroupRecord>)
    requires Rows(t) && AllGroups(t) == Ok(m)
    ensures OrdMap.Distinct(m) && Named(m)
  {
    var gs := GroupRecords(t).value;
    var es := seq(|gs|, i requires 0 <= i < |gs| => (gs[i].name, gs[i]));
    OrdMap.FromEntriesGet(es, "");
    OrdMap.FromEntriesFrom(es);
    forall i | 0 <= i < |m|
      ensures m[i].0 == m[i].1.name
    {
      assert m[i] in es;
    }
  }

  /** The row `setGroupData` writes: `[name, '', gid, users joined with ',']`. */
  function GroupRow(g: GroupData): (r: Row)
    ensures |r| == 4
  {
    [g.name, "", IntToString(g.gid), Join(g.users, ",")]
  }

  /**
   * Members are written joined with `','` but read split on `' '`: a row written by
   * `setGroupData` reads back with the whole list as one member.
   */
  lemma GroupRowReadsBack(g: GroupData)
    requires forall i :: 0 <= i < |g.users| ==> Free(g.users[i], {' '})
    ensures GroupOf(GroupRow(g)) == Ok(GroupRecord(g.name, Finite(g.gid), [Join(g.users, ",")]))
  {
    JoinFree(g.users, ",", {' '});
    SplitFree(Join(g.users, ","), ' ');
    ParseIntOfIntToString(g.gid, 0);
  }

  /** The values of the map whose members include `name`, as `[name, data]` pairs. */
  function Members(m: OrdMap.Entries<string, GroupRecord>, name: string): (r: OrdMap.Entries<string, GroupRecord>)
    ensures forall e | e in r :: name in e.1.users
  {
    if |m| == 0 then []
    else if name in m[0].1.users then [(m[0].1.name, m[0].1)] + Members(m[1..], name)
    else Members(m[1..], name)
  }

  /** `getGroupsForUser`'s map, once the user's name is known. */
  function ForUser(m: OrdMap.Entries<string, GroupRecord>, name: string): OrdMap.Entries<string, GroupRecord>
  {
    OrdMap.FromEntries(Members(m, name))
  }

  /** Of a group map, exactly the groups listing `name` are kept, in order. */
  lemma {:induction false} MembersExact(m: OrdMap.Entries<string, GroupRecord>, name: string)
    requires OrdMap.Distinct(m) && Named(m)
    ensures OrdMap.Distinct(Members(m, name))
    ensures forall e :: e in Members(m, name) <==> e in m && name in e.1.users
    decreases |m|
  {
    if |m| > 0 {
      var tail := m[1..];
      assert OrdMap.Distinct(tail) && Named(tail);
      MembersExact(tail, name);
      assert m == [m[0]] + tail;
      assert m[0] == (m[0].1.name, m[0].1);
      if name in m[0].1.users {
        var r := Members(m, name);
        forall i, j | 0 <= i < j < |r|
          ensures r[i].0 != r[j].0
        {
          if i == 0 {
            assert r[j] in tail;
            var k :| 0 <= k < |tail| && tail[k] == r[j];
            assert m[k + 1] == r[j];
          } else {
            assert r[i] == Members(tail, name)[i - 1] && r[j] == Members(tail, name)[j - 1];
          }
        }
      }
    }
  }

  /** `getGroupsForUser` keeps exactly the groups that list the user's name. */
  lemma ForUserExact(m: OrdMap.Entries<string, GroupRecord>, name: string)
    requires OrdMap.Distinct(m) && Named(m)
    ensures forall e :: e in ForUser(m, name) <==> e in m && name in e.1.users
  {
    MembersExact(m, name);
    OrdMap.FromDistinctEntries(Members(m, name));
  }

  // ---------------------------------------------------------------------------------------------
  // The database files

  /** `readDB(path)`: the file read with `read`'s defaults, decoded as UTF-8 and parsed. */
  function DBRead(a: Nodes, path: string): (r: Result<Table>)
    requires Rooted(a)
    ensures r.Ok? ==> |r.value| >= 1 && Rows(r.value)
  {
    match Vfs.Read(a, ROOT, PStr(path), None, None)
    case Err(e) => Err(e)
    case Ok(bytes) => Ok(ReadTable(Utf8.Decode(bytes)))
  }

  /** `writeDB(path, table)`: the table's text written with `write`'s defaults. */
  function DBWrite(a: Nodes, path: string, t: Table, next: Id, now: int): (r: Outcome<()>)
    requires Rooted(a) && Unused(a, next)
    ensures Rooted(r.nodes) && Unused(r.nodes, next + 1)
  {
    Vfs.Write(a, ROOT, PStr(path), Utf8.Encode(WriteTable(t)), None, None, next, now)
  }

  /**
   * `read` drops the last byte by default, so a table stored as its text is read back with the
   * last character of its last field cut off (when that character is ASCII).
   */
  lemma DBReadDropsLastChar(a: Nodes, path: string, id: Id, t: Table)
    requires Rooted(a) && GetRegular(a, ROOT, PStr(path)) == Ok(id)
    requires a[id].kind.data == Utf8.Encode(WriteTable(t))
    requires var s := WriteTable(t); |s| > 0 && s[|s| - 1] as int < 0x80 && s[0] != Utf8.BOM
    ensures var s := WriteTable(t); DBRead(a, path) == Ok(ReadTable(s[..|s| - 1]))
  {
    var s := WriteTable(t);
    VfsFacts.ReadDropsLastByte(a, ROOT, PStr(path), id);
    Utf8.DropLastByte(s);
  }

  /** `new UserManager(fs)`: every operation reads and writes the database files through `fs`. */
  class UserManager {
    const fs: FileSystem

    constructor(fs: FileSystem)
      ensures this.fs == fs
    {
      this.fs := fs;
    }

    method ReadDB(path: string) returns (r: Result<Table>)
      requires fs.Valid()
      ensures r == DBRead(fs.nodes, path)
    {
      var bytes := fs.Read(ROOT, PStr(path), None, None);
      if bytes.Err? {
        return Err(bytes.msg);
      }
      r := Ok(ReadTable(Utf8.Decode(bytes.value)));
    }

    method WriteDB(path: string, t: Table, now: int) returns (r: Result<()>)
      requires fs.Valid()
      modifies fs
      ensures fs.Valid() && fs.next == old(fs.next) + 1 && fs.fds == old(fs.fds)
      ensures Outcome(fs.nodes, r) == DBWrite(old(fs.nodes), path, t, old(fs.next), now)
    {
      r := fs.Write(ROOT, PStr(path), Utf8.Encode(WriteTable(t)), None, None, now);
    }

    /** `getUserData(key)`. */
    method GetUserData(key: Key) returns (r: Result<UserRecord>)
      requires fs.Valid()
      ensures match DBRead(fs.nodes, PASSWD)
              case Err(e) => r == Err(e)
              case Ok(t) => r == GetUser(t, key)
    {
      var table := ReadDB(PASSWD);
      if table.Err? {
        return Err(table.msg);
      }
      r := GetUser(table.value, key);
    }

    /** `getAllUsersData()`. */
    method GetAllUsersData() returns (r: Result<OrdMap.Entries<string, UserRecord>>)
      requires fs.Valid()
      ensures match DBRead(fs.nodes, PASSWD)
              case Err(e) => r == Err(e)
              case Ok(t) => r == Ok(AllUsers(t))
    {
      var table := ReadDB(PASSWD);
      if table.Err? {
        return Err(table.msg);
      }
      r := Ok(AllUsers(table.value));
    }

    /** `setUserData(u)`: the row goes over the first row with the same uid, or at the end. */
    method SetUserData(u: UserData, now: int) returns (r: Result<()>)
      requires fs.Valid()
      modifies fs
      ensures fs.Valid() && fs.fds == old(fs.fds)
      ensures match DBRead(old(fs.nodes), PASSWD)
              case Err(e) => r == Err(e) && fs.nodes == old(fs.nodes) && fs.next == old(fs.next)
              case Ok(t) => Outcome(fs.nodes, r) == DBWrite(old(fs.nodes), PASSWD, Upsert(t, UserRow(u)), old(fs.next), now)
    {
      var table := ReadDB(PASSWD);
      if table.Err? {
        return Err(table.msg);
      }
      var t := table.value;
      var row := UserRow(u);
      var k := FirstWithId(t, row[2]);
      if k < |t| {
        t := t[k := row];
      } else {
        t := t + [row];
      }
      r := WriteDB(PASSWD, t, now);
    }

    /** `deleteUser(key)`: the rows without the key are written back. */
    method DeleteUser(key: Key, now: int) returns (r: Result<()>)
      requires fs.Valid()
      modifies fs
      ensures fs.Valid() && fs.fds == old(fs.fds)
      ensures match DBRead(old(fs.nodes), PASSWD)
              case Err(e) => r == Err(e) && fs.nodes == old(fs.nodes) && fs.next == old(fs.next)
              case Ok(t) => Outcome(fs.nodes, r) == DBWrite(old(fs.nodes), PASSWD, Rest(t, key), old(fs.next), now)
    {
      var table := ReadDB(PASSWD);
      if table.Err? {
        return Err(table.msg);
      }
      r := WriteDB(PASSWD, Rest(table.value, key), now);
    }

    /** `getGroupData(key)`. */
    method GetGroupData(key: Key) returns (r: Result<GroupRecord>)
      requires fs.Valid()
      ensures match DBRead(fs.nodes, GROUP)
              case Err(e) => r == Err(e)
              case Ok(t) => r == GetGroup(t, key)
    {
      var table := ReadDB(GROUP);
      if table.Err? {
        return Err(table.msg);
      }
      r := GetGroup(table.value, key);
    }

    /** `getAllGroupsData()`. */
    method GetAllGroupsData() returns (r: Result<OrdMap.Entries<string, GroupRecord>>)
      requires fs.Valid()
      ensures match DBRead(fs.nodes, GROUP)
              case Err(e) => r == Err(e)
              case Ok(t) => r == AllGroups(t)
    {
      var table := ReadDB(GROUP);
      if table.Err? {
        return Err(table.msg);
      }
      r := AllGroups(table.value);
    }

    /** `setGroupData(g)`: the table is read from `/etc/groups` and written to `/etc/group`. */
    method SetGroupData(g: GroupData, now: int) returns (r: Result<()>)
      requires fs.Valid()
      modifies fs
      ensures fs.Valid() && fs.fds == old(fs.fds)
      ensures match DBRead(old(fs.nodes), GROUPS)
              case Err(e) => r == Err(e) && fs.nodes == old(fs.nodes) && fs.next == old(fs.next)
              case Ok(t) => Outcome(fs.nodes, r) == DBWrite(old(fs.nodes), GROUP, Upsert(t, GroupRow(g)), old(fs.next), now)
    {
      var table := ReadDB(GROUPS);
      if table.Err? {
        return Err(table.msg);
      }
      var t := table.value;
      var row := GroupRow(g);
      var k := FirstWithId(t, row[2]);
      if k < |t| {
        t := t[k := row];
      } else {
        t := t + [row];
      }
      r := WriteDB(GROUP, t, now);
    }

    /** `deleteGroup(key)`. */
    method DeleteGroup(key: Key, now: int) returns (r: Result<()>)
      requires fs.Valid()
      modifies fs
      ensures fs.Valid() && fs.fds == old(fs.fds)
      ensures match DBRead(old(fs.nodes), GROUP)
              case Err(e) => r == Err(e) && fs.nodes == old(fs.nodes) && fs.next == old(fs.next)
              case Ok(t) => Outcome(fs.nodes, r) == DBWrite(old(fs.nodes), GROUP, Rest(t, key), old(fs.next), now)
    {
      var table := ReadDB(GROUP);
      if table.Err? {
        return Err(table.msg);
      }
      r := WriteDB(GROUP, Rest(table.value, key), now);
    }

    /**
     * `getGroupsForUser(key)`: the name of the user the lookup returns, then the groups whose
     * members include that name, keyed by group name.
     */
    method GetGroupsForUser(key: Key) returns (r: Result<OrdMap.Entries<string, GroupRecord>>)
      requires fs.Valid()
      ensures match DBRead(fs.nodes, PASSWD)
              case Err(e) => r == Err(e)
              case Ok(users) =>
                match GetUser(users, key)
                case Err(e) => r == Err(e)
                case Ok(u) =>
                  match DBRead(fs.nodes, GROUP)
                  case Err(e) => r == Err(e)
                  case Ok(groups) =>
                    match AllGroups(groups)
                    case Err(e) => r == Err(e)
                    case Ok(m) => r == Ok(ForUser(m, u.name))
    {
      var user := GetUserData(key);
      if user.Err? {
        return Err(user.msg);
      }
      var groups := GetAllGroupsData();
      if groups.Err? {
        return Err(groups.msg);
      }
      r := Ok(ForUser(groups.value, user.value.name));
    }
  }
}
