/**
 * UTF-8 as `TextEncoder.encode` and `new TextDecoder().decode` apply it: encoding a string, and
 * decoding bytes with one U+FFFD per maximal ill-formed subsequence and a leading byte order mark
 * dropped.
 */
module Utf8 {
  import opened Bits

  const REPLACEMENT: char := '\U{FFFD}'
  const BOM: char := '\U{FEFF}'

  /** The UTF-8 bytes of one scalar value. */
  function EncodeChar(c: char): (r: seq<byte>)
    ensures 1 <= |r| <= 4
  {
    var n := c as int;
    if n < 0x80 then [n]
    else if n < 0x800 then [0xC0 + n / 64, 0x80 + n % 64]
    else if n < 0x10000 then [0xE0 + n / 4096, 0x80 + (n / 64) % 64, 0x80 + n % 64]
    else [0xF0 + n / 0x40000, 0x80 + (n / 4096) % 64, 0x80 + (n / 64) % 64, 0x80 + n % 64]
  }

  /** `TextEncoder.encode(s)`. */
  function Encode(s: string): (r: seq<byte>)
    ensures |r| >= |s|
  {
    if |s| == 0 then [] else EncodeChar(s[0]) + Encode(s[1..])
  }

  predicate IsCont(b: byte) { 0x80 <= b < 0xC0 }

  /** The range the second byte of a sequence must fall in, given its lead byte. */
  function SecondLow(lead: byte): byte
  {
    if lead == 0xE0 then 0xA0 else if lead == 0xF0 then 0x90 else 0x80
  }

  function SecondHigh(lead: byte): byte
  {
    if lead == 0xED then 0x9F else if lead == 0xF4 then 0x8F else 0xBF
  }

  /** How many continuation bytes a lead byte announces, or -1 when it cannot start a sequence. */
  function Needed(lead: byte): int
  {
    if lead < 0x80 then 0
    else if 0xC2 <= lead <= 0xDF then 1
    else if 0xE0 <= lead <= 0xEF then 2
    else if 0xF0 <= lead <= 0xF4 then 3
    else -1
  }

  /** The length of the well-formed prefix after the lead byte: continuation bytes in the allowed ranges, up to `need`. */
  function ContRun(b: seq<byte>, need: nat): (k: nat)
    requires |b| >= 1
    ensures k <= need && k < |b|
  {
    ContRunFrom(b, need, 0)
  }

  function ContRunFrom(b: seq<byte>, need: nat, k: nat): (r: nat)
    requires |b| >= 1 && k <= need && k < |b|
    ensures k <= r <= need && r < |b|
    decreases need - k
  {
    if k == need || k + 1 >= |b| then k
    else
      var lo := if k == 0 then SecondLow(b[0]) else 0x80;
      var hi := if k == 0 then SecondHigh(b[0]) else 0xBF;
      if lo <= b[k + 1] <= hi then ContRunFrom(b, need, k + 1) else k
  }

  function Cont(x: byte): int { x as int - 0x80 }

  /** The scalar value of a complete sequence of `need` continuation bytes after the lead. */
  function SeqValue(b: seq<byte>, need: nat): int
    requires 1 <= need <= 3 && |b| > need
  {
    if need == 1 then (b[0] as int - 0xC0) * 64 + Cont(b[1])
    else if need == 2 then (b[0] as int - 0xE0) * 4096 + Cont(b[1]) * 64 + Cont(b[2])
    else (b[0] as int - 0xF0) * 0x40000 + Cont(b[1]) * 4096 + Cont(b[2]) * 64 + Cont(b[3])
  }

  function ToChar(n: int): char
  {
    if 0 <= n < 0xD800 || 0xE000 <= n < 0x110000 then n as char else REPLACEMENT
  }

  /** Decoding without the byte order mark rule. */
  function DecodeBody(b: seq<byte>): string
    decreases |b|
  {
    if |b| == 0 then ""
    else
      var need := Needed(b[0]);
      if need == 0 then [b[0] as char] + DecodeBody(b[1..])
      else if need < 0 then [REPLACEMENT] + DecodeBody(b[1..])
      else
        var k := ContRun(b, need);
        if k == need then [ToChar(SeqValue(b, need))] + DecodeBody(b[need + 1..])
        else [REPLACEMENT] + DecodeBody(b[k + 1..])
  }

  /** `new TextDecoder().decode(b)`: a leading EF BB BF is dropped. */
  function Decode(b: seq<byte>): string
  {
    if |b| >= 3 && b[0] == 0xEF && b[1] == 0xBB && b[2] == 0xBF then DecodeBody(b[3..]) else DecodeBody(b)
  }

  lemma Decode1(c: char, rest: seq<byte>)
    requires c as int < 0x80
    ensures DecodeBody(EncodeChar(c) + rest) == [c] + DecodeBody(rest)
  {
    var b := EncodeChar(c) + rest;
    assert b[1..] == rest;
  }

  lemma Decode2(c: char, rest: seq<byte>)
    requires 0x80 <= c as int < 0x800
    ensures DecodeBody(EncodeChar(c) + rest) == [c] + DecodeBody(rest)
  {
    var n := c as int;
    var b := EncodeChar(c) + rest;
    assert b[0] == 0xC0 + n / 64 && b[1] == 0x80 + n % 64;
    assert Needed(b[0]) == 1;
    assert ContRun(b, 1) == 1;
    assert SeqValue(b, 1) == n;
    assert b[2..] == rest;
  }

  lemma Decode3(c: char, rest: seq<byte>)
    requires 0x800 <= c as int < 0x10000
    ensures DecodeBody(EncodeChar(c) + rest) == [c] + DecodeBody(rest)
  {
    var n := c as int;
    var b := EncodeChar(c) + rest;
    assert b[0] == 0xE0 + n / 4096 && b[1] == 0x80 + (n / 64) % 64 && b[2] == 0x80 + n % 64;
    assert Needed(b[0]) == 2;
    assert SecondLow(b[0]) <= b[1] <= SecondHigh(b[0]);
    assert ContRunFrom(b, 2, 1) == 2;
    assert ContRun(b, 2) == 2;
    assert SeqValue(b, 2) == n;
    assert b[3..] == rest;
  }

  /** The four groups of bits a supplementary-plane scalar value is written in. */
  lemma Groups4(n: int)
    requires 0x10000 <= n < 0x110000
    ensures var a, b, c, d := n / 0x40000, (n / 4096) % 64, (n / 64) % 64, n % 64;
      && 0 <= a <= 4 && 0 <= b < 64 && 0 <= c < 64 && 0 <= d < 64
      && (a == 0 ==> b >= 0x10) && (a == 4 ==> b < 0x10)
      && a * 0x40000 + b * 4096 + c * 64 + d == n
  {
  }

  lemma Decode4(c: char, rest: seq<byte>)
    requires 0x10000 <= c as int
    ensures DecodeBody(EncodeChar(c) + rest) == [c] + DecodeBody(rest)
  {
    var n := c as int;
    var b := EncodeChar(c) + rest;
    Groups4(n);
    assert b[0] == 0xF0 + n / 0x40000 && b[1] == 0x80 + (n / 4096) % 64;
    assert b[2] == 0x80 + (n / 64) % 64 && b[3] == 0x80 + n % 64;
    assert Needed(b[0]) == 3;
    assert SecondLow(b[0]) <= b[1] <= SecondHigh(b[0]);
    assert ContRunFrom(b, 3, 2) == 3;
    assert ContRunFrom(b, 3, 1) == 3;
    assert ContRun(b, 3) == 3;
    assert SeqValue(b, 3) == n;
    assert b[4..] == rest;
  }

  lemma DecodeChar(c: char, rest: seq<byte>)
    ensures DecodeBody(EncodeChar(c) + rest) == [c] + DecodeBody(rest)
  {
    var n := c as int;
    if n < 0x80 {
      Decode1(c, rest);
    } else if n < 0x800 {
      Decode2(c, rest);
    } else if n < 0x10000 {
      Decode3(c, rest);
    } else {
      Decode4(c, rest);
    }
  }

  /** Only U+FEFF encodes to the byte order mark. */
  lemma BomBytes(c: char, rest: seq<byte>)
    requires var b := EncodeChar(c) + rest; |b| >= 3 && b[0] == 0xEF && b[1] == 0xBB && b[2] == 0xBF
    ensures c == BOM
  {
    var n := c as int;
    var b := EncodeChar(c) + rest;
    if 0x800 <= n < 0x10000 {
      assert n / 4096 == 15 && (n / 64) % 64 == 0x3B && n % 64 == 0x3F;
    }
  }

  lemma {:induction false} DecodeBodyEncode(s: string)
    ensures DecodeBody(Encode(s)) == s
  {
    if |s| > 0 {
      DecodeChar(s[0], Encode(s[1..]));
      DecodeBodyEncode(s[1..]);
    }
  }

  /** Text read back after being written decodes to itself, unless it starts with a byte order mark. */
  lemma DecodeEncode(s: string)
    requires |s| == 0 || s[0] != BOM
    ensures Decode(Encode(s)) == s
  {
    DecodeBodyEncode(s);
    if |s| > 0 {
      var b := Encode(s);
      if |b| >= 3 && b[0] == 0xEF && b[1] == 0xBB && b[2] == 0xBF {
        BomBytes(s[0], Encode(s[1..]));
      }
    }
  }

  /** A leading byte order mark is lost on the way through. */
  lemma BomIsDropped(s: string)
    requires |s| > 0 && s[0] == BOM
    ensures Decode(Encode(s)) == s[1..]
  {
    var b := Encode(s);
    assert b == [0xEF, 0xBB, 0xBF] + Encode(s[1..]);
    assert b[3..] == Encode(s[1..]);
    DecodeBodyEncode(s[1..]);
  }

  /** ASCII text encodes to one byte per character. */
  lemma {:induction false} EncodeAscii(s: string)
    requires forall i :: 0 <= i < |s| ==> s[i] as int < 0x80
    ensures |Encode(s)| == |s|
    ensures forall i :: 0 <= i < |s| ==> Encode(s)[i] == s[i] as int
  {
    if |s| > 0 {
      EncodeAscii(s[1..]);
    }
  }

  /** Encoding distributes over concatenation. */
  lemma {:induction false} EncodeAppend(a: string, b: string)
    ensures Encode(a + b) == Encode(a) + Encode(b)
    decreases |a|
  {
    if |a| > 0 {
      assert (a + b)[1..] == a[1..] + b;
      EncodeAppend(a[1..], b);
    } else {
      assert a + b == b;
    }
  }

  /**
   * Text whose last character is ASCII, read back without its last byte (as `read` does by
   * default), loses exactly that character.
   */
  lemma DropLastByte(s: string)
    requires |s| > 0 && s[|s| - 1] as int < 0x80 && s[0] != BOM
    ensures |Encode(s)| > 0 && Decode(Encode(s)[..|Encode(s)| - 1]) == s[..|s| - 1]
  {
    var init := s[..|s| - 1];
    assert s == init + [s[|s| - 1]];
    EncodeAppend(init, [s[|s| - 1]]);
    assert Encode([s[|s| - 1]]) == [s[|s| - 1] as int];
    assert Encode(s)[..|Encode(s)| - 1] == Encode(init);
    DecodeEncode(init);
  }
}
