/**
 * The metadata every file object carries (`FileObject` in src/fs.ts) and the `Stats` record
 * `stat()` builds from it. Timestamps are nanosecond counts, as the source's `bigint` fields.
 */
module FsNode {
  import opened Wrappers
  import opened Bits
  import opened FsMode

  datatype Times = Times(birthtime: int, atime: int, mtime: int, ctime: int)

  /** The timestamps an imported object gets. */
  const ZERO_TIMES: Times := Times(0, 0, 0, 0)

  /** Mode (a 32-bit pattern), link count, owner and timestamps. `rdev` is always -1 and not stored. */
  datatype Meta = Meta(mode: bv32, nlink: int, uid: int, gid: int, times: Times)

  /**
   * The metadata of a new object of the kind `kind` (`S_IFREG`, `S_IFDIR`, …): the given mode or
   * the default, with the type bit ORed in, no links, and all four timestamps equal to `now`.
   */
  function NewMeta(mode: int, kind: bv32, uid: int, gid: int, now: int): (m: Meta)
    ensures HasType(m.mode, kind) && m.nlink == 0
    ensures m.times == Times(now, now, now, now)
  {
    Meta(AsBits(mode) | kind, 0, uid, gid, Times(now, now, now, now))
  }

  /** `BigInt` division, which truncates toward zero. */
  function TruncDiv(a: int, b: nat): (r: int)
    requires b > 0
    ensures a >= 0 ==> r * b <= a < (r + 1) * b
    ensures a < 0 ==> (r - 1) * b < a <= r * b
  {
    if a >= 0 then a / b else -((-a) / b)
  }

  /** `Math.ceil(size / 4096)` for a non-negative size. */
  function Blocks(size: nat): (r: nat)
    ensures r * 4096 >= size && (r == 0 || (r - 1) * 4096 < size)
  {
    (size + 4095) / 4096
  }

  /** The fields of the record `stat()` returns (the `Date` fields are left out). */
  datatype Stats = Stats(
    dev: int, ino: int, mode: int, nlink: int, uid: int, gid: int, rdev: int, size: int,
    blksize: int, blocks: int,
    atimeMs: int, mtimeMs: int, ctimeMs: int, birthtimeMs: int,
    atimeNs: int, mtimeNs: int, ctimeNs: int, birthtimeNs: int)

  /**
   * `stat()` of an object with metadata `m` whose `size` getter gives `size`: device and inode 0,
   * `rdev` -1, 4096-byte blocks, milliseconds from the nanosecond timestamps.
   */
  function Stat(m: Meta, size: nat): (s: Stats)
    ensures s.size == size && s.blksize == 4096 && s.blocks * 4096 >= size > (s.blocks - 1) * 4096
    ensures s.uid == m.uid && s.gid == m.gid && s.nlink == m.nlink && s.rdev == -1 && s.dev == 0 && s.ino == 0
  {
    Stats(0, 0, Signed(m.mode), m.nlink, m.uid, m.gid, -1, size, 4096, Blocks(size),
      TruncDiv(m.times.atime, 1_000_000), TruncDiv(m.times.mtime, 1_000_000),
      TruncDiv(m.times.ctime, 1_000_000), TruncDiv(m.times.birthtime, 1_000_000),
      m.times.atime, m.times.mtime, m.times.ctime, m.times.birthtime)
  }

  /**
   * `chmod`: the low three bits are kept; each type bit stays set and is also turned on by the
   * shifted value; the permission bits and the bits above the type are those of the shifted
   * value; and a new `ctime`.
   */
  function Chmod(m: Meta, parsed: Num, now: int): (r: Meta)
    ensures r.mode & 7 == m.mode & 7
    ensures r.mode & 0xF000 == (m.mode & 0xF000) | ((NumBits(parsed) << 3) & 0xF000)
    ensures r.mode & 0xFF8 == (NumBits(parsed) << 3) & 0xFF8
    ensures r.mode & 0xFFFF_0000 == (NumBits(parsed) << 3) & 0xFFFF_0000
    ensures r.times == m.times.(ctime := now) && r.uid == m.uid && r.gid == m.gid && r.nlink == m.nlink
  {
    ChmodBits(m.mode, parsed);
    m.(mode := ChmodMode(m.mode, parsed), times := m.times.(ctime := now))
  }

  /** `chown`: the new owner and a new `ctime`; nothing else changes. */
  function Chown(m: Meta, uid: int, gid: int, now: int): (r: Meta)
    ensures r.uid == uid && r.gid == gid && r.times.ctime == now
    ensures r.mode == m.mode && r.nlink == m.nlink && r.times.(ctime := m.times.ctime) == m.times
  {
    m.(uid := uid, gid := gid, times := m.times.(ctime := now))
  }

  /** `utimes`: each timestamp that is given replaces the old one. */
  function Utimes(m: Meta, atime: Option<int>, mtime: Option<int>): (r: Meta)
    ensures r.times.atime == (if atime.Some? then atime.value else m.times.atime)
    ensures r.times.mtime == (if mtime.Some? then mtime.value else m.times.mtime)
    ensures r.times.(atime := m.times.atime, mtime := m.times.mtime) == m.times
    ensures r.(times := m.times) == m
  {
    m.(times := m.times.(atime := if atime.Some? then atime.value else m.times.atime,
                         mtime := if mtime.Some? then mtime.value else m.times.mtime))
  }
}
