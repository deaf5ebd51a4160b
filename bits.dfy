/**
 * JavaScript's 32-bit integer operators (`&`, `|`, `<<`, `>>`) and the little-endian `DataView`
 * accessors, over unbounded integers with the wrap-around written out.
 */
module Bits {
  /** A byte of a `Uint8Array`. */
  type byte = x: int | 0 <= x < 256

  const TWO_32: int := 0x1_0000_0000
  const TWO_31: int := 0x8000_0000

  /** ECMAScript ToUint32 of an integral number. */
  function ToUint32(x: int): (r: int)
    ensures 0 <= r < TWO_32
  {
    x % TWO_32
  }

  /** ECMAScript ToInt32 of an integral number. */
  function ToInt32(x: int): (r: int)
    ensures -TWO_31 <= r < TWO_31
    ensures (r - x) % TWO_32 == 0
    ensures -TWO_31 <= x < TWO_31 ==> r == x
  {
    var u := ToUint32(x);
    if u >= TWO_31 then u - TWO_32 else u
  }

  /**
   * ToUint32 as a bit vector: the 32-bit pattern JavaScript's bitwise operators work on. Modes are
   * kept as such patterns, since every stored mode is the result of `|` or `&` and so an int32.
   */
  function AsBits(x: int): bv32
  {
    if 0 <= x < TWO_32 then x as bv32 else ToUint32(x) as bv32
  }

  lemma AsBitsSmall(x: int)
    requires 0 <= x < TWO_32
    ensures AsBits(x) == x as bv32
  {
  }

  /** The number a 32-bit result stands for: bitwise operators return signed values. */
  function Signed(v: bv32): (r: int)
    ensures -TWO_31 <= r < TWO_31
  {
    ToInt32(v as int)
  }

  function Pow2(n: nat): (r: nat)
    ensures r >= 1
  {
    if n == 0 then 1 else 2 * Pow2(n - 1)
  }

  /** `a << n` on numbers: only the low five bits of `n` count and the product wraps to a signed 32-bit value. */
  function Shl(a: int, n: nat): (r: int)
    ensures -TWO_31 <= r < TWO_31
    ensures n < 32 && -TWO_31 <= a * Pow2(n) < TWO_31 && -TWO_31 <= a < TWO_31 ==> r == a * Pow2(n)
  {
    ToInt32(ToInt32(a) * Pow2(n % 32))
  }

  /** The low 16 bits of a pattern, as `setUint16` stores them. */
  function Low16(v: bv32): (r: int)
    ensures 0 <= r < 0x1_0000
  {
    ((v & 0xFFFF) as bv16) as int
  }

  /** The `n` low bytes of `v` (`v` taken modulo 256^n), least significant first. */
  function LittleEndian(v: int, n: nat): (r: seq<byte>)
    ensures |r| == n
    decreases n
  {
    if n == 0 then [] else [v % 256] + LittleEndian(v / 256, n - 1)
  }

  /** The two bytes `setUint16(offset, v, true)` stores: `v` modulo 2^16, low byte first. */
  function U16Bytes(v: int): (r: seq<byte>)
    ensures |r| == 2
  {
    LittleEndian(v, 2)
  }

  /** The four bytes `setUint32(offset, v, true)` stores: `v` modulo 2^32, low byte first. */
  function U32Bytes(v: int): (r: seq<byte>)
    ensures |r| == 4
  {
    LittleEndian(v, 4)
  }

  /** `getUint16(offset, true)`. */
  function U16At(b: seq<byte>, off: nat): (r: nat)
    requires off + 2 <= |b|
    ensures r < 0x1_0000
  {
    b[off] as int + 256 * (b[off + 1] as int)
  }

  /** `getUint32(offset, true)`. */
  function U32At(b: seq<byte>, off: nat): (r: nat)
    requires off + 4 <= |b|
    ensures r < TWO_32
  {
    b[off] as int + 256 * (b[off + 1] as int) + 0x1_0000 * (b[off + 2] as int) + 0x100_0000 * (b[off + 3] as int)
  }

  /** Splitting off the low byte: `v` is 256 times `v / 256` plus that byte. */
  lemma LowByte(v: int)
    ensures v == 256 * (v / 256) + v % 256 && 0 <= v % 256 < 256
  {
  }

  /** A 16-bit field reads back as the stored value modulo 2^16. */
  lemma U16Value(v: int)
    ensures U16At(U16Bytes(v), 0) == v % 0x1_0000
  {
    var q1 := v / 256;
    var q2 := q1 / 256;
    assert U16Bytes(v) == [v % 256] + ([q1 % 256] + LittleEndian(q2, 0));
    LowByte(v);
    LowByte(q1);
    assert v == 0x1_0000 * q2 + (v % 256 + 256 * (q1 % 256));
  }

  /** A 32-bit field reads back as the stored value modulo 2^32. */
  lemma U32Value(v: int)
    ensures U32At(U32Bytes(v), 0) == v % TWO_32
  {
    var q1 := v / 256;
    var q2 := q1 / 256;
    var q3 := q2 / 256;
    var q4 := q3 / 256;
    assert U32Bytes(v) == [v % 256] + ([q1 % 256] + ([q2 % 256] + ([q3 % 256] + LittleEndian(q4, 0))));
    LowByte(v);
    LowByte(q1);
    LowByte(q2);
    LowByte(q3);
    assert v == TWO_32 * q4 + (v % 256 + 256 * (q1 % 256) + 0x1_0000 * (q2 % 256) + 0x100_0000 * (q3 % 256));
  }

  /** Four fields written one after the other read back from their offsets. */
  lemma FieldsAt(a: seq<byte>, b: seq<byte>, c: seq<byte>, d: seq<byte>, rest: seq<byte>)
    requires |a| == 2 && |b| == 2 && |c| == 2 && |d| == 4
    ensures var data := a + b + c + d + rest;
      && U16At(data, 0) == U16At(a, 0) && U16At(data, 2) == U16At(b, 0)
      && U16At(data, 4) == U16At(c, 0) && U32At(data, 6) == U32At(d, 0)
  {
    var data := a + b + c + d + rest;
    assert data[0] == a[0] && data[1] == a[1];
    assert data[2] == b[0] && data[3] == b[1];
    assert data[4] == c[0] && data[5] == c[1];
    assert data[6] == d[0] && data[7] == d[1] && data[8] == d[2] && data[9] == d[3];
  }

  /** A remainder is the one number below the divisor that the division leaves. */
  lemma ModUnique(x: int, n: nat, q: int, r: int)
    requires n >= 1 && 0 <= r < n && x == q * n + r
    ensures x % n == r && x / n == q
  {
    var q', r' := x / n, x % n;
    assert x == q' * n + r';
    if q > q' {
      MulAtLeast(q - q', n);
    } else if q < q' {
      MulAtLeast(q' - q, n);
    }
  }

  lemma MulAtLeast(d: int, n: nat)
    requires d >= 1
    ensures d * n >= n
  {
    var e := d - 1;
    assert d * n == e * n + n;
  }
}
