/**
 * The JavaScript string and array primitives the system relies on (`slice`, `split`, `join`,
 * `indexOf`, `parseInt`, `String(n)`, `padEnd`), restated over Dafny sequences.
 */
module Text {
  import opened Wrappers

  /** Where `slice` starts or stops: negative positions count back from the end, all are clamped to the length. */
  function SliceIndex(len: nat, rel: int): (k: nat)
    ensures k <= len
  {
    if rel < 0 then (if len + rel < 0 then 0 else len + rel) else if rel > len then len else rel
  }

  /** `s.slice(start, end)`: empty when the clamped start is not before the clamped end. */
  function Slice<T>(s: seq<T>, start: int, end: int): (r: seq<T>)
    ensures |r| <= |s|
  {
    var a, b := SliceIndex(|s|, start), SliceIndex(|s|, end);
    if a < b then s[a..b] else []
  }

  /** `s.slice(start)`. */
  function SliceFrom<T>(s: seq<T>, start: int): (r: seq<T>)
    ensures |r| <= |s|
  {
    Slice(s, start, |s|)
  }

  lemma SliceOfNat<T>(s: seq<T>, a: nat, b: nat)
    requires a <= b <= |s|
    ensures Slice(s, a, b) == s[a..b]
  {
  }

  predicate StartsWith<T(==)>(s: seq<T>, prefix: seq<T>) { prefix <= s }

  predicate EndsWith<T(==)>(s: seq<T>, suffix: seq<T>)
  {
    |suffix| <= |s| && s[|s| - |suffix|..] == suffix
  }

  /** No character of `s` is one of `seps`. */
  predicate Free(s: string, seps: set<char>)
  {
    forall j :: 0 <= j < |s| ==> s[j] !in seps
  }

  /** Position of the first character of `s` in `seps`, or `|s|` when there is none. */
  function FirstIn(s: string, seps: set<char>): (k: nat)
    ensures k <= |s|
    ensures k < |s| ==> s[k] in seps
    ensures Free(s[..k], seps)
  {
    if |s| == 0 || s[0] in seps then 0
    else
      var k := 1 + FirstIn(s[1..], seps);
      assert s[..k] == [s[0]] + s[1..][..k - 1];
      k
  }

  /** `s.split(sep)` where a separator is any one character of `seps`: the pieces between separators, in order. */
  function SplitBy(s: string, seps: set<char>): (r: seq<string>)
    ensures |r| >= 1
    decreases |s|
  {
    var k := FirstIn(s, seps);
    if k == |s| then [s] else [s[..k]] + SplitBy(s[k + 1..], seps)
  }

  /** `s.split(c)` for a one-character separator. */
  function Split(s: string, c: char): (r: seq<string>)
    ensures |r| >= 1
  {
    SplitBy(s, {c})
  }

  /** `parts.join(sep)`. */
  function Join(parts: seq<string>, sep: string): string
  {
    if |parts| == 0 then ""
    else if |parts| == 1 then parts[0]
    else parts[0] + sep + Join(parts[1..], sep)
  }

  lemma {:induction false} SplitPiecesFree(s: string, seps: set<char>)
    ensures forall i :: 0 <= i < |SplitBy(s, seps)| ==> Free(SplitBy(s, seps)[i], seps)
    decreases |s|
  {
    var k := FirstIn(s, seps);
    if k == |s| {
      assert s[..k] == s;
    } else {
      SplitPiecesFree(s[k + 1..], seps);
    }
  }

  /** Text that starts with the separator splits into an empty first piece. */
  lemma SplitLeading(s: string, c: char)
    requires |s| > 0 && s[0] == c
    ensures Split(s, c)[0] == ""
  {
    assert FirstIn(s, {c}) == 0;
  }

  /** Joining the pieces of a split with the separator gives back the original text. */
  lemma {:induction false} JoinSplit(s: string, c: char)
    ensures Join(Split(s, c), [c]) == s
    decreases |s|
  {
    var k := FirstIn(s, {c});
    if k < |s| {
      JoinSplit(s[k + 1..], c);
      assert s == s[..k] + [c] + s[k + 1..];
    }
  }

  /** Splitting a join recovers the parts, provided no part contains the separator. */
  lemma {:induction false} SplitJoin(parts: seq<string>, c: char)
    requires |parts| >= 1
    requires forall i :: 0 <= i < |parts| ==> Free(parts[i], {c})
    ensures Split(Join(parts, [c]), c) == parts
    decreases |parts|
  {
    if |parts| == 1 {
      FirstInFree(parts[0], {c});
    } else {
      var rest := Join(parts[1..], [c]);
      assert Free(parts[0], {c});
      SplitCons(parts[0], rest, c);
      assert forall i :: 0 <= i < |parts[1..]| ==> Free(parts[1..][i], {c});
      SplitJoin(parts[1..], c);
      assert parts == [parts[0]] + parts[1..];
    }
  }

  lemma SplitCons(a: string, rest: string, c: char)
    requires Free(a, {c})
    ensures Split(a + [c] + rest, c) == [a] + Split(rest, c)
  {
    var s := a + [c] + rest;
    assert s == a + ([c] + rest);
    FirstInAfterFree(a, [c] + rest, {c});
    assert s[..|a|] == a;
    assert s[|a| + 1..] == rest;
  }

  lemma FirstInFree(s: string, seps: set<char>)
    requires Free(s, seps)
    ensures FirstIn(s, seps) == |s|
  {
  }

  lemma {:induction false} FirstInAfterFree(a: string, b: string, seps: set<char>)
    requires Free(a, seps)
    requires |b| > 0 && b[0] in seps
    ensures FirstIn(a + b, seps) == |a|
    decreases |a|
  {
    if |a| == 0 {
      assert a + b == b;
    } else {
      assert (a + b)[0] == a[0] && (a + b)[1..] == a[1..] + b;
      assert forall j :: 0 <= j < |a[1..]| ==> a[1..][j] == a[j + 1];
      FirstInAfterFree(a[1..], b, seps);
    }
  }

  /**
   * The last piece of a split is free of separators and ends the text; unless it is the whole
   * text, a separator comes right before it.
   */
  lemma {:induction false} LastPieceFacts(s: string, seps: set<char>)
    ensures Free(SplitBy(s, seps)[|SplitBy(s, seps)| - 1], seps)
    ensures EndsWith(s, SplitBy(s, seps)[|SplitBy(s, seps)| - 1])
    ensures |SplitBy(s, seps)[|SplitBy(s, seps)| - 1]| < |s| ==> s[|s| - |SplitBy(s, seps)[|SplitBy(s, seps)| - 1]| - 1] in seps
    ensures |SplitBy(s, seps)[|SplitBy(s, seps)| - 1]| == |s| <==> Free(s, seps)
  {
    var j := LastPieceStart(s, seps);
    var r := SplitBy(s, seps)[|SplitBy(s, seps)| - 1];
    assert |r| == |s| - j;
    if j > 0 {
      assert !Free(s, seps) by {
        assert s[j - 1] in seps;
      }
    }
  }

  /** Where the last piece of a split starts: just after the last separator, or at 0. */
  lemma {:induction false} LastPieceStart(s: string, seps: set<char>) returns (j: nat)
    ensures j <= |s| && SplitBy(s, seps)[|SplitBy(s, seps)| - 1] == s[j..]
    ensures Free(s[j..], seps)
    ensures j > 0 ==> s[j - 1] in seps
    ensures j == 0 ==> Free(s, seps)
    decreases |s|
  {
    var k := FirstIn(s, seps);
    if k == |s| {
      assert s[..k] == s && s[0..] == s;
      j := 0;
    } else {
      var i := LastPieceStart(s[k + 1..], seps);
      LastPieceShift(s, seps, k, i);
      j := k + 1 + i;
    }
  }

  /** The last piece of the text after the first separator is the last piece of the whole. */
  lemma LastPieceShift(s: string, seps: set<char>, k: nat, i: nat)
    requires k == FirstIn(s, seps) < |s|
    requires i <= |s[k + 1..]| && SplitBy(s[k + 1..], seps)[|SplitBy(s[k + 1..], seps)| - 1] == s[k + 1..][i..]
    requires Free(s[k + 1..][i..], seps)
    requires i > 0 ==> s[k + 1..][i - 1] in seps
    ensures SplitBy(s, seps)[|SplitBy(s, seps)| - 1] == s[k + 1 + i..]
    ensures Free(s[k + 1 + i..], seps)
    ensures s[k + i] in seps
  {
    var t := s[k + 1..];
    assert SplitBy(s, seps) == [s[..k]] + SplitBy(t, seps);
    assert t[i..] == s[k + 1 + i..];
    if i > 0 {
      assert t[i - 1] == s[k + i];
    }
  }

  /** Text without the separator splits into itself alone. */
  lemma SplitFree(s: string, c: char)
    requires Free(s, {c})
    ensures Split(s, c) == [s]
  {
    FirstInFree(s, {c});
    assert s[..|s|] == s;
  }

  /** A split gives one piece exactly when the separator does not occur. */
  lemma SplitCount(s: string, c: char)
    ensures |Split(s, c)| == 1 <==> c !in s
    ensures Free(s, {c}) <==> c !in s
  {
    var k := FirstIn(s, {c});
    if k == |s| {
      assert s[..k] == s;
    } else {
      assert s[k] == c;
    }
  }

  /** Joining all but the last part, then the separator and the last part, is the whole join. */
  lemma {:induction false} JoinInit(parts: seq<string>, sep: string)
    requires |parts| >= 2
    ensures Join(parts[..|parts| - 1], sep) + sep + parts[|parts| - 1] == Join(parts, sep)
    decreases |parts|
  {
    var n := |parts|;
    if n == 2 {
      assert parts[..1] == [parts[0]];
      assert parts[1..] == [parts[1]];
    } else {
      JoinInit(parts[1..], sep);
      assert parts[..n - 1][1..] == parts[1..][..n - 2];
      assert parts[1..][n - 2] == parts[n - 1];
    }
  }

  lemma SplitByCons(a: string, rest: string, c: char, seps: set<char>)
    requires Free(a, seps) && c in seps
    ensures SplitBy(a + [c] + rest, seps) == [a] + SplitBy(rest, seps)
  {
    var s := a + [c] + rest;
    assert s == a + ([c] + rest);
    FirstInAfterFree(a, [c] + rest, seps);
    assert s[..|a|] == a;
    assert s[|a| + 1..] == rest;
  }

  /** Splitting on a set of separators a join made with one of them recovers separator-free parts. */
  lemma {:induction false} SplitByJoin(parts: seq<string>, c: char, seps: set<char>)
    requires |parts| >= 1 && c in seps
    requires forall i :: 0 <= i < |parts| ==> Free(parts[i], seps)
    ensures SplitBy(Join(parts, [c]), seps) == parts
    decreases |parts|
  {
    if |parts| == 1 {
      FirstInFree(parts[0], seps);
    } else {
      var rest := Join(parts[1..], [c]);
      assert Free(parts[0], seps);
      SplitByCons(parts[0], rest, c, seps);
      assert forall i :: 0 <= i < |parts[1..]| ==> Free(parts[1..][i], seps);
      SplitByJoin(parts[1..], c, seps);
      assert parts == [parts[0]] + parts[1..];
    }
  }

  /** A join of separator-free parts with a separator-free glue is separator-free. */
  lemma {:induction false} JoinFree(parts: seq<string>, sep: string, seps: set<char>)
    requires forall i :: 0 <= i < |parts| ==> Free(parts[i], seps)
    requires Free(sep, seps)
    ensures Free(Join(parts, sep), seps)
    decreases |parts|
  {
    if |parts| > 1 {
      JoinFree(parts[1..], sep, seps);
      var rest := Join(parts[1..], sep);
      assert Free(parts[0], seps);
      forall j | 0 <= j < |parts[0] + sep + rest|
        ensures (parts[0] + sep + rest)[j] !in seps
      {
        if j < |parts[0]| {
          assert (parts[0] + sep + rest)[j] == parts[0][j];
        } else if j < |parts[0]| + |sep| {
          assert (parts[0] + sep + rest)[j] == sep[j - |parts[0]|];
        } else {
          assert (parts[0] + sep + rest)[j] == rest[j - |parts[0]| - |sep|];
        }
      }
    }
  }

  /** `s.indexOf(x, from)`: the first position at or after the clamped `from` holding `x`, or -1. */
  function IndexOfFrom<T(==)>(s: seq<T>, x: T, from: int): (r: int)
    ensures -1 <= r < |s|
    ensures r >= 0 ==> r >= from && s[r] == x
    ensures r >= 0 ==> forall j :: (if from < 0 then 0 else from) <= j < r ==> s[j] != x
    ensures r == -1 ==> forall j :: (if from < 0 then 0 else from) <= j < |s| ==> s[j] != x
    decreases |s| - from
  {
    if from < 0 then IndexOfFrom(s, x, 0)
    else if from >= |s| then -1
    else if s[from] == x then from
    else IndexOfFrom(s, x, from + 1)
  }

  /** `s.indexOf(x)`. */
  function IndexOf<T(==)>(s: seq<T>, x: T): (r: int)
    ensures -1 <= r < |s|
    ensures r >= 0 ==> s[r] == x && x !in s[..r]
    ensures r == -1 <==> x !in s
  {
    var r := IndexOfFrom(s, x, 0);
    assert r >= 0 ==> forall j :: 0 <= j < r ==> s[..r][j] != x;
    r
  }

  /** The decimal digit `d`. */
  function DigitChar(d: nat): (c: char)
    requires d < 10
    ensures '0' <= c <= '9'
  {
    ('0' as int + d) as char
  }

  /** `String(n)` for a natural number: its decimal digits, most significant first. */
  function NatToString(n: nat): (r: string)
    ensures |r| >= 1
    ensures forall i :: 0 <= i < |r| ==> '0' <= r[i] <= '9'
    decreases n
  {
    if n < 10 then [DigitChar(n)] else NatToString(n / 10) + [DigitChar(n % 10)]
  }

  /** `String(i)` for an integer. */
  function IntToString(i: int): (r: string)
    ensures |r| >= 1
  {
    if i < 0 then "-" + NatToString(-i) else NatToString(i)
  }

  /** The characters JavaScript's `parseInt` skips before the digits (white space and line terminators). */
  predicate IsJsSpace(c: char)
  {
    var n := c as int;
    (0x09 <= n <= 0x0D) || n == 0x20 || n == 0xA0 || n == 0x1680 || (0x2000 <= n <= 0x200A)
    || n == 0x2028 || n == 0x2029 || n == 0x202F || n == 0x205F || n == 0x3000 || n == 0xFEFF
  }

  function TrimStart(s: string): (r: string)
    ensures |r| <= |s| && r == s[|s| - |r|..]
    ensures |r| > 0 ==> !IsJsSpace(r[0])
  {
    if |s| > 0 && IsJsSpace(s[0]) then TrimStart(s[1..]) else s
  }

  /** The value of `c` as a digit in base `radix` (letters count from 10), if it is one. */
  function DigitValue(c: char, radix: nat): (d: Option<nat>)
    ensures d.Some? ==> d.value < radix
  {
    var v :=
      if '0' <= c <= '9' then c as int - '0' as int
      else if 'a' <= c <= 'z' then c as int - 'a' as int + 10
      else if 'A' <= c <= 'Z' then c as int - 'A' as int + 10
      else 36;
    if v < radix then Some(v) else None
  }

  /** Length of the longest prefix of `s` made of base-`radix` digits. */
  function DigitRun(s: string, radix: nat): (k: nat)
    ensures k <= |s|
    ensures forall j :: 0 <= j < k ==> DigitValue(s[j], radix).Some?
    ensures k < |s| ==> DigitValue(s[k], radix).None?
  {
    if |s| == 0 || DigitValue(s[0], radix).None? then 0 else 1 + DigitRun(s[1..], radix)
  }

  /** The value of a run of base-`radix` digits, most significant first. */
  function DigitsValue(ds: string, radix: nat): nat
    requires forall j :: 0 <= j < |ds| ==> DigitValue(ds[j], radix).Some?
  {
    if |ds| == 0 then 0
    else DigitsValue(ds[..|ds| - 1], radix) * radix + DigitValue(ds[|ds| - 1], radix).value
  }

  /** The number read from the text after the sign: a `0x`/`0X` prefix switches to base 16 when the radix is omitted or 16, then the longest run of digits is read; `NaN` when there is none. */
  function ParseDigits(u: string, radix: nat): (r: Num)
    requires radix == 0 || 2 <= radix <= 36
    ensures r.Finite? ==> r.n >= 0
  {
    var hex := (radix == 0 || radix == 16) && |u| >= 2 && u[0] == '0' && (u[1] == 'x' || u[1] == 'X');
    var base := if hex then 16 else if radix == 0 then 10 else radix;
    var v := if hex then u[2..] else u;
    var k := DigitRun(v, base);
    if k == 0 then NaN else Finite(DigitsValue(v[..k], base))
  }

  function Negate(x: Num): Num
  {
    match x
    case NaN => NaN
    case Finite(m) => Finite(-m)
  }

  /**
   * `parseInt(s, radix)`, with `radix == 0` standing for an omitted radix: leading white space is
   * skipped and one sign is read before the digits.
   */
  function ParseInt(s: string, radix: nat): (r: Num)
    requires radix == 0 || 2 <= radix <= 36
  {
    var t := TrimStart(s);
    if |t| > 0 && t[0] == '-' then Negate(ParseDigits(t[1..], radix))
    else if |t| > 0 && t[0] == '+' then ParseDigits(t[1..], radix)
    else ParseDigits(t, radix)
  }

  lemma ParseDigitsOfNatToString(n: nat, radix: nat)
    requires radix == 0 || radix == 10
    ensures ParseDigits(NatToString(n), radix) == Finite(n)
  {
    var digits := NatToString(n);
    DigitsOfNatToString(n);
    DigitRunAll(digits, 10);
    assert digits[..|digits|] == digits;
  }

  lemma {:induction false} DigitsOfNatToString(n: nat)
    ensures forall j :: 0 <= j < |NatToString(n)| ==> DigitValue(NatToString(n)[j], 10).Some?
    ensures DigitsValue(NatToString(n), 10) == n
    decreases n
  {
    if n >= 10 {
      DigitsOfNatToString(n / 10);
      var s := NatToString(n);
      assert s[..|s| - 1] == NatToString(n / 10);
    }
  }

  lemma DigitRunAll(s: string, radix: nat)
    requires forall j :: 0 <= j < |s| ==> DigitValue(s[j], radix).Some?
    ensures DigitRun(s, radix) == |s|
  {
  }

  lemma TrimStartKeeps(s: string)
    requires |s| > 0 && !IsJsSpace(s[0])
    ensures TrimStart(s) == s
  {
  }

  lemma ParseIntOfDigits(d: string, radix: nat)
    requires radix == 0 || radix == 10
    requires |d| > 0 && '0' <= d[0] <= '9'
    ensures ParseInt(d, radix) == ParseDigits(d, radix)
    ensures ParseInt("-" + d, radix) == Negate(ParseDigits(d, radix))
  {
    TrimStartKeeps(d);
    TrimStartKeeps("-" + d);
    assert ("-" + d)[1..] == d;
  }

  /** Reading back `String(i)` with `parseInt` gives `i`, with or without an explicit radix of 10. */
  lemma ParseIntOfIntToString(i: int, radix: nat)
    requires radix == 0 || radix == 10
    ensures ParseInt(IntToString(i), radix) == Finite(i)
  {
    var m: nat := if i < 0 then -i else i;
    ParseDigitsOfNatToString(m, radix);
    ParseIntOfDigits(NatToString(m), radix);
  }

  /** Upper-casing of ASCII letters (other characters are kept). */
  function ToUpper(s: string): (r: string)
    ensures |r| == |s|
  {
    if |s| == 0 then ""
    else [if 'a' <= s[0] <= 'z' then (s[0] as int - 32) as char else s[0]] + ToUpper(s[1..])
  }

  /** Lower-casing of ASCII letters (other characters are kept). */
  function ToLower(s: string): (r: string)
    ensures |r| == |s|
  {
    if |s| == 0 then ""
    else [if 'A' <= s[0] <= 'Z' then (s[0] as int + 32) as char else s[0]] + ToLower(s[1..])
  }

  function Spaces(n: nat): (r: string)
    ensures |r| == n && forall j :: 0 <= j < n ==> r[j] == ' '
  {
    if n == 0 then "" else " " + Spaces(n - 1)
  }

  /** `s.padEnd(n)`: `s` followed by spaces up to length `n`. */
  function PadEnd(s: string, n: nat): (r: string)
  {
    if |s| >= n then s else s + Spaces(n - |s|)
  }

  /** `s.padStart(n)`: spaces up to length `n`, then `s`. */
  function PadStart(s: string, n: nat): (r: string)
  {
    if |s| >= n then s else Spaces(n - |s|) + s
  }

  /** JavaScript's `length` of a string: characters outside the Basic Multilingual Plane count twice. */
  function Utf16Length(s: string): (n: nat)
    ensures |s| <= n <= 2 * |s|
  {
    if |s| == 0 then 0 else (if s[0] as int >= 0x10000 then 2 else 1) + Utf16Length(s[1..])
  }
}
