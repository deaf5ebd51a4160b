/**
 * `Stream` (src/stream.ts): a text buffer with a cursor `pos` that reads advance and writes
 * overwrite at, and a list of write listeners whose removed slots become `undefined` so that
 * the other listener ids stay valid.
 */
module Streams {
  import opened Wrappers
  import opened Text
  import opened Bits
  import Utf8

  /**
   * A write listener: a callback of the embedding code, known here only by a handle, or the
   * forwarder `attachTo` installs, which writes the same text into another stream.
   */
  datatype Listener = Callback(handle: nat) | Forward(to: Stream)

  /**
   * The text after `write(text)` at `pos`: `data.slice(0, pos) + text + data.slice(pos + |text|)`,
   * with JavaScript's slice positions (negative ones count back from the end).
   */
  function Overwrite(data: string, pos: int, text: string): (r: string)
  {
    Slice(data, 0, pos) + text + SliceFrom(data, pos + |text|)
  }

  /** With the cursor inside the text, `write` keeps what is before it, puts `text` at it and keeps what is past it. */
  lemma OverwriteInside(data: string, pos: int, text: string)
    requires 0 <= pos <= |data|
    ensures |Overwrite(data, pos, text)| == if pos + |text| <= |data| then |data| else pos + |text|
    ensures Overwrite(data, pos, text)[..pos] == data[..pos]
    ensures Overwrite(data, pos, text)[pos..pos + |text|] == text
    ensures pos + |text| <= |data| ==> Overwrite(data, pos, text)[pos + |text|..] == data[pos + |text|..]
  {
    var r := Overwrite(data, pos, text);
    assert Slice(data, 0, pos) == data[..pos];
    if pos + |text| <= |data| {
      assert SliceFrom(data, pos + |text|) == data[pos + |text|..];
    } else {
      assert SliceFrom(data, pos + |text|) == [];
    }
    assert r == data[..pos] + text + SliceFrom(data, pos + |text|);
    assert r[..pos] == data[..pos];
    assert r[pos..pos + |text|] == text;
  }

  /** Writing at the end of the text appends. */
  lemma OverwriteAtEnd(data: string, text: string)
    ensures Overwrite(data, |data|, text) == data + text
  {
    assert Slice(data, 0, |data|) == data;
    assert SliceFrom(data, |data| + |text|) == [];
  }

  /** The listeners a write calls, in registration order: every slot that is not `undefined`. */
  function Live(slots: seq<Option<Listener>>): (r: seq<Listener>)
    ensures |r| <= |slots|
  {
    if |slots| == 0 then []
    else
      var rest := Live(slots[..|slots| - 1]);
      assert slots == slots[..|slots| - 1] + [slots[|slots| - 1]];
      match slots[|slots| - 1]
      case None => rest
      case Some(l) => rest + [l]
  }

  /**
   * `writeListeners[id] = undefined`: inside the array the slot is cleared; past its end the
   * array grows with holes up to `id`; a negative id becomes a property the loop never sees.
   */
  function RemoveSlot(slots: seq<Option<Listener>>, id: int): (r: seq<Option<Listener>>)
    ensures id >= 0 ==> |r| == (if id < |slots| then |slots| else id + 1) && r[id] == None
    ensures id < 0 ==> r == slots
    ensures forall j :: 0 <= j < |slots| && j != id ==> r[j] == slots[j]
    ensures forall j :: |slots| <= j < |r| ==> r[j] == None
  {
    if id < 0 then slots
    else if id < |slots| then slots[id := None]
    else slots + seq(id - |slots|, _ => None) + [None]
  }

  /** A removed listener is no longer called, and the others still are, in the same order. */
  lemma RemoveDropsOne(slots: seq<Option<Listener>>, id: nat)
    requires id < |slots| && slots[id].Some?
    ensures Live(RemoveSlot(slots, id)) == Live(slots[..id]) + Live(slots[id + 1..])
    ensures Live(slots) == Live(slots[..id]) + [slots[id].value] + Live(slots[id + 1..])
  {
    var pre, post := slots[..id], slots[id + 1..];
    var hole: seq<Option<Listener>> := [None];
    assert slots == pre + [slots[id]] + post;
    LiveSplit(slots, pre, [slots[id]], post);
    assert RemoveSlot(slots, id) == slots[id := None];
    UpdateSplit(slots, id, None);
    LiveSplit(RemoveSlot(slots, id), pre, hole, post);
    LiveOne(slots[id]);
    LiveOne(None);
  }

  lemma UpdateSplit<T>(s: seq<T>, i: nat, x: T)
    requires i < |s|
    ensures s[i := x] == s[..i] + [x] + s[i + 1..]
  {
  }

  lemma LiveSplit(s: seq<Option<Listener>>, a: seq<Option<Listener>>, b: seq<Option<Listener>>, c: seq<Option<Listener>>)
    requires s == a + b + c
    ensures Live(s) == Live(a) + Live(b) + Live(c)
  {
    LiveConcat(a + b, c);
    LiveConcat(a, b);
  }

  lemma LiveOne(x: Option<Listener>)
    ensures Live([x]) == if x.Some? then [x.value] else []
  {
    assert [x][..0] == [];
  }

  lemma {:induction false} LiveConcat(a: seq<Option<Listener>>, b: seq<Option<Listener>>)
    ensures Live(a + b) == Live(a) + Live(b)
    decreases |b|
  {
    if |b| == 0 {
      assert a + b == a;
    } else {
      var b' := b[..|b| - 1];
      LiveConcat(a, b');
      assert (a + b)[..|a + b| - 1] == a + b';
    }
  }

  class Stream {
    var data: string
    var pos: int
    var listeners: seq<Option<Listener>>

    /** `new Stream(text)`. */
    constructor(text: string)
      ensures data == text && pos == 0 && listeners == []
    {
      data := text;
      pos := 0;
      listeners := [];
    }

    /** `new Stream(bytes)`: the bytes are decoded as UTF-8. */
    constructor FromBytes(bytes: seq<byte>)
      ensures data == Utf8.Decode(bytes) && pos == 0 && listeners == []
    {
      data := Utf8.Decode(bytes);
      pos := 0;
      listeners := [];
    }

    /** `length`. */
    function Length(): (n: nat)
      reads this
      ensures n == |data|
    {
      |data|
    }

    /** `done`: the cursor is at or past the end. */
    predicate Done()
      reads this
    {
      pos >= |data|
    }

    /**
     * `write(text)`: `text` goes over the buffer at the cursor, which does not move; then every
     * live listener is called once with `text`, in registration order (returned here as the
     * calls to make).
     */
    method Write(text: string) returns (calls: seq<Listener>)
      modifies this`data
      ensures data == Overwrite(old(data), old(pos), text)
      ensures pos == old(pos) && listeners == old(listeners)
      ensures calls == Live(listeners)
    {
      data := Slice(data, 0, pos) + text + SliceFrom(data, pos + |text|);
      calls := [];
      var i := 0;
      while i < |listeners|
        invariant 0 <= i <= |listeners|
        invariant calls == Live(listeners[..i])
      {
        assert listeners[..i + 1][..i] == listeners[..i];
        if listeners[i].Some? {
          calls := calls + [listeners[i].value];
        }
        i := i + 1;
      }
      assert listeners[..i] == listeners;
    }

    /**
     * `read(length?)`: `data.slice(pos, length)` (so `length` is an end position, not a count);
     * the cursor then moves on by `length`, or to the end when there is none.
     */
    method Read(length: Option<int>) returns (out: string)
      modifies this
      ensures out == Slice(data, old(pos), if length.Some? then length.value else |data|)
      ensures data == old(data) && listeners == old(listeners)
      ensures pos == if length.Some? then old(pos) + length.value else |data|
      ensures length.None? ==> Done() && out == SliceFrom(data, old(pos))
    {
      out := Slice(data, pos, if length.Some? then length.value else |data|);
      if length.None? {
        pos := |data|;
      } else {
        pos := pos + length.value;
      }
    }

    /** `readCode()`: the code at the cursor (`NaN` outside the text); the cursor moves on by one. */
    method ReadCode() returns (code: Num)
      modifies this
      ensures 0 <= old(pos) < |data| ==> code == Finite(data[old(pos)] as int)
      ensures !(0 <= old(pos) < |data|) ==> code == NaN
      ensures pos == old(pos) + 1 && data == old(data) && listeners == old(listeners)
    {
      if 0 <= pos < |data| {
        code := Finite(data[pos] as int);
      } else {
        code := NaN;
      }
      pos := pos + 1;
    }

    /**
     * `readChar()`: the character at the cursor and its code; the cursor moves on by one even
     * when there is no character there, and then `charCodeAt` of `undefined` throws.
     */
    method ReadChar() returns (r: Result<(char, int)>)
      modifies this
      ensures 0 <= old(pos) < |data| ==> r == Ok((data[old(pos)], data[old(pos)] as int))
      ensures !(0 <= old(pos) < |data|) ==> r.Err?
      ensures pos == old(pos) + 1 && data == old(data) && listeners == old(listeners)
    {
      if 0 <= pos < |data| {
        r := Ok((data[pos], data[pos] as int));
      } else {
        r := Err("Cannot read properties of undefined (reading 'charCodeAt')");
      }
      pos := pos + 1;
    }

    /** `seek(p)`: the cursor is set, unchecked. */
    method Seek(p: int)
      modifies this
      ensures pos == p && data == old(data) && listeners == old(listeners)
    {
      pos := p;
    }

    /** `indexOf(c)`: the first `c` at or after the cursor, or -1. */
    function IndexOf(c: char): (r: int)
      reads this
      ensures -1 <= r < |data|
      ensures r >= 0 ==> data[r] == c && r >= pos && forall j :: (if pos < 0 then 0 else pos) <= j < r ==> data[j] != c
      ensures r == -1 ==> forall j :: (if pos < 0 then 0 else pos) <= j < |data| ==> data[j] != c
    {
      IndexOfFrom(data, c, pos)
    }

    /**
     * `readUpTo(c)`: the text from the cursor up to the next `c`, which the cursor then points
     * at; with no `c` ahead the cursor becomes -1 and the text is `data.slice(pos, -1)`.
     */
    method ReadUpTo(c: char) returns (out: string)
      modifies this
      ensures pos == old(IndexOf(c)) && data == old(data) && listeners == old(listeners)
      ensures out == Slice(data, old(pos), pos)
      ensures pos >= 0 ==> c !in out
    {
      var index := IndexOf(c);
      out := Slice(data, pos, index);
      if index >= 0 {
        UpToHasNone(data, pos, index, c);
      }
      pos := index;
    }

    /** `addWriteListener(func)`: the listener gets the next slot, whose index is returned. */
    method AddWriteListener(l: Listener) returns (id: nat)
      modifies this
      ensures listeners == old(listeners) + [Some(l)] && id == |old(listeners)|
      ensures data == old(data) && pos == old(pos)
    {
      listeners := listeners + [Some(l)];
      id := |listeners| - 1;
    }

    /** `removeWriteListener(id)`: that slot becomes `undefined`; every other slot keeps its listener. */
    method RemoveWriteListener(id: int)
      modifies this
      ensures listeners == RemoveSlot(old(listeners), id)
      ensures data == old(data) && pos == old(pos)
    {
      listeners := RemoveSlot(listeners, id);
    }

    /** `attachTo(other)`: a listener that writes everything written here into `other`. */
    method AttachTo(other: Stream)
      modifies this
      ensures listeners == old(listeners) + [Some(Forward(other))]
      ensures data == old(data) && pos == old(pos)
    {
      listeners := listeners + [Some(Forward(other))];
    }
  }

  /** The text `readUpTo` returns when `c` was found holds no `c`. */
  lemma UpToHasNone(data: string, pos: int, index: int, c: char)
    requires 0 <= index < |data| && index == IndexOfFrom(data, c, pos)
    ensures c !in Slice(data, pos, index)
  {
    var a := SliceIndex(|data|, pos);
    if a < index {
      assert Slice(data, pos, index) == data[a..index];
      forall j | 0 <= j < index - a
        ensures data[a..index][j] != c
      {
        assert data[a..index][j] == data[a + j];
      }
    }
  }
}
