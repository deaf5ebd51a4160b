/**
 * The file-descriptor table of `FileSystem` (src/fs.ts) as `closeSync` in the Node facade
 * leaves it: a JavaScript array whose slots hold an open object, `null` once closed, or nothing
 * (a hole, when a close past the end grows the array). A negative descriptor is no array index:
 * closing it sets a property of that name, which reads back as `null` too.
 */
module FdTable {
  import opened Wrappers
  import opened Text
  import opened Vfs

  datatype Slot = Open(id: Id) | Closed | Hole

  datatype Table = Table(slots: seq<Slot>, closedProps: set<int>)

  const EMPTY: Table := Table([], {})

  /** The text of the error for a closed descriptor. */
  function NotAccessible(fd: int): string
  {
    "file descriptor " + IntToString(fd) + " is not accessible"
  }

  /**
   * `getfd(fd)`: the object in the slot, `None` for `undefined` (a hole, a slot past the end, or
   * a negative descriptor never closed), and an error for `null`.
   */
  function GetFd(t: Table, fd: int): (r: Result<Option<Id>>)
    ensures r.Err? ==> r == Err(NotAccessible(fd))
    ensures r.Err? <==> (0 <= fd < |t.slots| && t.slots[fd] == Closed) || (fd < 0 && fd in t.closedProps)
  {
    if 0 <= fd < |t.slots| then
      match t.slots[fd]
      case Open(id) => Ok(Some(id))
      case Closed => Err(NotAccessible(fd))
      case Hole => Ok(None)
    else if fd < 0 && fd in t.closedProps then Err(NotAccessible(fd))
    else Ok(None)
  }

  /**
   * `getfdRegular(fd)`: `null` is not accessible, and anything but a regular file in the slot
   * (`undefined` included) is refused.
   */
  function GetFdRegular(a: Nodes, t: Table, fd: int): (r: Result<Id>)
    ensures r.Ok? <==>
      (GetFd(t, fd).Ok? && GetFd(t, fd).value.Some? && GetFd(t, fd).value.value in a && a[GetFd(t, fd).value.value].kind.Regular?)
    ensures r.Ok? ==> r.value == GetFd(t, fd).value.value
    ensures GetFd(t, fd).Err? ==> r == Err(NotAccessible(fd))
    ensures GetFd(t, fd).Ok? && r.Err? ==> r == Err("file descriptor " + IntToString(fd) + " is not a regular file")
  {
    match GetFd(t, fd)
    case Err(e) => Err(e)
    case Ok(None) => Err("file descriptor " + IntToString(fd) + " is not a regular file")
    case Ok(Some(id)) =>
      if id in a && a[id].kind.Regular? then Ok(id)
      else Err("file descriptor " + IntToString(fd) + " is not a regular file")
  }

  /** `fileDescriptors.push(object)`: the new slot goes at the end. */
  function Push(t: Table, id: Id): (r: Table)
    ensures |r.slots| == |t.slots| + 1 && r.slots[|t.slots|] == Open(id)
  {
    t.(slots := t.slots + [Open(id)])
  }

  /**
   * `fileDescriptors[fd] = null`: inside the array the slot becomes `null`; past the end the
   * array grows with holes up to `fd`; a negative `fd` becomes a property.
   */
  function Close(t: Table, fd: int): (r: Table)
  {
    if fd < 0 then t.(closedProps := t.closedProps + {fd})
    else if fd < |t.slots| then t.(slots := t.slots[fd := Closed])
    else t.(slots := t.slots + seq(fd - |t.slots|, _ => Hole) + [Closed])
  }

  /** `push` returns the new length: the descriptor that reads back the object is one less. */
  lemma PushedSlot(t: Table, id: Id)
    ensures GetFd(Push(t, id), |Push(t, id).slots| - 1) == Ok(Some(id))
    ensures |Push(t, id).slots| - 1 == |t.slots|
  {
  }

  /** Pushing changes no other descriptor. */
  lemma PushKeepsOthers(t: Table, id: Id, fd: int)
    requires fd != |t.slots|
    ensures GetFd(Push(t, id), fd) == GetFd(t, fd)
  {
    if 0 <= fd < |t.slots| {
      assert Push(t, id).slots[fd] == t.slots[fd];
    }
  }

  /** After a close, `getfd` and `getfdRegular` on that descriptor throw. */
  lemma ClosedInaccessible(a: Nodes, t: Table, fd: int)
    ensures GetFd(Close(t, fd), fd) == Err(NotAccessible(fd))
    ensures GetFdRegular(a, Close(t, fd), fd) == Err(NotAccessible(fd))
  {
    if fd >= |t.slots| {
      var s := t.slots + seq(fd - |t.slots|, _ => Hole) + [Closed];
      assert |s| == fd + 1 && s[fd] == Closed;
    }
  }

  /** A close changes no other descriptor: the holes it adds read as `undefined`, as before. */
  lemma CloseKeepsOthers(t: Table, fd: int, other: int)
    requires other != fd
    ensures GetFd(Close(t, fd), other) == GetFd(t, other)
  {
    if 0 <= fd && |t.slots| <= fd && |t.slots| <= other < fd {
      var s := t.slots + seq(fd - |t.slots|, _ => Hole) + [Closed];
      assert s[other] == Hole;
    } else if 0 <= fd && |t.slots| <= fd && 0 <= other < |t.slots| {
      var s := t.slots + seq(fd - |t.slots|, _ => Hole) + [Closed];
      assert s[other] == t.slots[other];
    }
  }

  /**
   * Slots are never reused: a descriptor that was closed stays closed whatever is opened
   * afterwards, because `push` always appends past every slot.
   */
  lemma ClosedStaysClosed(t: Table, fd: int, id: Id)
    requires GetFd(t, fd).Err?
    ensures GetFd(Push(t, id), fd).Err?
    ensures |Push(t, id).slots| - 1 != fd
  {
    PushKeepsOthers(t, id, fd);
  }
}
