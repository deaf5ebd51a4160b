/**
 * The `%`-format scanner (`format`/`formatWithOptions`) and `toUSVString` of the Node `util`
 * facade (plugins/node/src/modules/util.ts).
 */
module NodeUtil {
  import opened Wrappers
  import opened Text

  /** What `JSON.stringify(value)` does: a text (`undefined` included), a cycle, or another exception. */
  datatype Json = Json(text: string) | Cyclic | JsonThrows(error: string)

  datatype Kind = Primitive | Object | Function

  /**
   * A format argument, as far as the scanner looks at it. A bigint, a symbol and `-0` are told
   * apart by the scanner itself; for anything else the texts of `Number(v)`,
   * `parseInt(String(v), 10)`, `parseFloat(String(v))` and `JSON.stringify(v)` are carried along,
   * since the scanner only appends them.
   */
  datatype Value =
    | BigInt(n: int, asFloat: string)
    | Symbol(text: string)
    | NegZero
    | Other(kind: Kind, asNumber: string, asInt: string, asFloat: string, json: Json)

  /** `util.inspect` is a stub that always throws. */
  const INSPECT := "util.inspect is not supported in fake-node"
  const BIGINT_JSON := "Do not know how to serialize a BigInt"

  /**
   * The text one directive `%t` appends for `v`, when the directive letter sits at index `i` of
   * the format: `None` for a letter that is no directive, and an error for what throws.
   */
  function Directive(t: char, v: Value, i: nat): (r: Result<Option<string>>)
  {
    match t
    case 's' =>
      if v.BigInt? then Ok(Some(IntToString(v.n) + "n"))
      else if v.NegZero? then Ok(Some("-0"))
      else if v.Other? && v.kind != Primitive then Err(INSPECT)
      else Ok(Some(IntToString(i)))
    case 'd' =>
      if v.BigInt? then Ok(Some(IntToString(v.n) + "n"))
      else if v.Symbol? then Ok(Some(v.text))
      else if v.NegZero? then Ok(Some("0"))
      else Ok(Some(v.asNumber))
    case 'i' =>
      if v.BigInt? then Ok(Some(IntToString(v.n) + "n"))
      else if v.Symbol? then Ok(Some(v.text))
      else if v.NegZero? then Ok(Some("0"))
      else Ok(Some(v.asInt))
    case 'f' =>
      if v.Symbol? then Ok(Some(v.text))
      else if v.NegZero? then Ok(Some("0"))
      else Ok(Some(v.asFloat))
    case 'j' =>
      if v.BigInt? then Err(BIGINT_JSON)
      else if v.Symbol? then Ok(Some("undefined"))
      else if v.NegZero? then Ok(Some("0"))
      else
        (match v.json
         case Json(s) => Ok(Some(s))
         case Cyclic => Ok(Some("[Circular]"))
         case JsonThrows(e) => Err(e))
    case 'o' => Err(INSPECT)
    case 'O' => Err(INSPECT)
    case _ => Ok(None)
  }

  /** `out` in front of the rest of a result. */
  function Then(out: string, r: Result<string>): Result<string>
  {
    if r.Ok? then Ok(out + r.value) else r
  }

  /**
   * What the scanner makes of the format text `f`, which starts at index `base` of the whole
   * format, with the arguments `args` still unused: the text itself once there is no argument
   * left, a character copied, or a directive that uses up an argument unless its letter is none.
   * A `%` at the very end reads an `undefined` letter and is dropped.
   */
  function Scan(f: string, args: seq<Value>, base: nat): (r: Result<string>)
    decreases |f|
  {
    if |f| == 0 || |args| == 0 then Ok(f)
    else if f[0] != '%' then Then([f[0]], Scan(f[1..], args, base + 1))
    else if |f| == 1 then Ok("")
    else
      match Directive(f[1], args[0], base + 1)
      case Err(e) => Err(e)
      case Ok(None) => Scan(f[2..], args, base + 2)
      case Ok(Some(s)) => Then(s, Scan(f[2..], args[1..], base + 2))
  }

  /** `formatWithOptions(options, format, ...args)`; `format` is the same with no options, which the scanner never reads. */
  method FormatWithOptions(fmt: string, args: seq<Value>) returns (r: Result<string>)
    ensures r == Scan(fmt, args, 0)
  {
    var out := "";
    var i := 0;
    var j := 0;
    assert fmt[0..] == fmt && args[0..] == args;
    assert Scan(fmt, args, 0).Ok? ==> "" + Scan(fmt, args, 0).value == Scan(fmt, args, 0).value;
    while i < |fmt| && j < |args|
      invariant 0 <= i <= |fmt| && 0 <= j <= |args|
      invariant Scan(fmt, args, 0) == Then(out, Scan(fmt[i..], args[j..], i))
    {
      if fmt[i] == '%' {
        if i + 1 == |fmt| {
          assert out + "" == out;
          return Ok(out);
        }
        var piece := Directive(fmt[i + 1], args[j], i + 1);
        assert fmt[i..][2..] == fmt[i + 2..];
        if piece.Err? {
          return Err(piece.msg);
        }
        if piece.value.Some? {
          ThenThen(out, piece.value.value, Scan(fmt[i + 2..], args[j + 1..], i + 2));
          assert args[j..][1..] == args[j + 1..];
          out := out + piece.value.value;
          j := j + 1;
        }
        i := i + 2;
      } else {
        assert fmt[i..][1..] == fmt[i + 1..];
        ThenThen(out, [fmt[i]], Scan(fmt[i + 1..], args[j..], i + 1));
        out := out + [fmt[i]];
        i := i + 1;
      }
    }
    r := Ok(out + fmt[i..]);
  }

  lemma ThenThen(a: string, b: string, r: Result<string>)
    ensures Then(a, Then(b, r)) == Then(a + b, r)
  {
    if r.Ok? {
      assert a + (b + r.value) == a + b + r.value;
    }
  }

  /** The number of `%` characters in `f`: no more arguments than this are ever used. */
  function Percents(f: string): (n: nat)
    ensures n <= |f|
  {
    if |f| == 0 then 0 else (if f[0] == '%' then 1 else 0) + Percents(f[1..])
  }

  /** With no arguments the format comes back as it is, `%` included. */
  lemma ScanNoArgs(f: string, base: nat)
    ensures Scan(f, [], base) == Ok(f)
  {
  }

  /** A format without `%` comes back as it is, whatever the arguments. */
  lemma {:induction false} ScanPlain(f: string, args: seq<Value>, base: nat)
    requires Percents(f) == 0
    ensures Scan(f, args, base) == Ok(f)
    decreases |f|
  {
    if |f| > 0 && |args| > 0 {
      ScanPlain(f[1..], args, base + 1);
      assert [f[0]] + f[1..] == f;
    }
  }

  /**
   * Arguments past as many as the format has `%` are never printed: the result is the same
   * without them.
   */
  lemma {:induction false} ExtraArgsIgnored(f: string, args: seq<Value>, n: nat, base: nat)
    requires Percents(f) <= n <= |args|
    ensures Scan(f, args, base) == Scan(f, args[..n], base)
    decreases |f|
  {
    if |f| == 0 {
    } else if n == 0 {
      ScanPlain(f, args, base);
      ScanPlain(f, args[..n], base);
    } else if f[0] != '%' {
      ExtraArgsIgnored(f[1..], args, n, base + 1);
    } else if |f| > 1 {
      assert Percents(f[2..]) <= Percents(f[1..]) <= n - 1 by {
        assert f[1..][1..] == f[2..];
      }
      assert args[..n][0] == args[0];
      match Directive(f[1], args[0], base + 1)
      case Err(e) =>
      case Ok(None) =>
        ExtraArgsIgnored(f[2..], args, n, base + 2);
      case Ok(Some(s)) =>
        ExtraArgsIgnored(f[2..], args[1..], n - 1, base + 2);
        assert args[..n][1..] == args[1..][..n - 1];
    }
  }

  /**
   * `%` followed by a letter that is no directive prints neither character and uses up no
   * argument.
   */
  lemma UnknownDirectiveDropped(c: char, rest: string, args: seq<Value>, base: nat)
    requires |args| > 0 && c !in {'s', 'd', 'i', 'f', 'j', 'o', 'O'}
    ensures Scan(['%', c] + rest, args, base) == Scan(rest, args, base + 2)
  {
    assert (['%', c] + rest)[2..] == rest;
  }

  /**
   * `%s` of a primitive other than a bigint or `-0` (a symbol included) prints the index of the
   * `s` in the format, not the value.
   */
  lemma StringDirectivePrintsIndex(rest: string, v: Value, args: seq<Value>, base: nat)
    requires (v.Other? && v.kind == Primitive) || v.Symbol?
    ensures Scan(['%', 's'] + rest, [v] + args, base) == Then(IntToString(base + 1), Scan(rest, args, base + 2))
  {
    assert (['%', 's'] + rest)[2..] == rest;
    assert ([v] + args)[1..] == args;
  }

  /** `%s` of an object or a function, and `%o`/`%O` of anything, throw. */
  lemma InspectThrows(t: char, rest: string, v: Value, args: seq<Value>, base: nat)
    requires t == 'o' || t == 'O' || (t == 's' && v.Other? && v.kind != Primitive)
    ensures Scan(['%', t] + rest, [v] + args, base) == Err(INSPECT)
  {
  }

  // ---------------------------------------------------------------------------------------------
  // toUSVString

  /** A UTF-16 code unit: JavaScript strings are sequences of these. */
  type CodeUnit = x: int | 0 <= x < 0x1_0000

  const REPLACEMENT: CodeUnit := 0xFFFD

  /** The units `toUSVString` replaces: 0xD800 up to but not including 0xDFFF. */
  predicate Replaced(u: CodeUnit)
  {
    0xD800 <= u < 0xDFFF
  }

  /**
   * `toUSVString(s)`: every unit in [0xD800, 0xDFFF) becomes U+FFFD, whether or not it is half of
   * a valid pair; every other unit, 0xDFFF included, is kept.
   */
  method ToUSVString(s: seq<CodeUnit>) returns (out: seq<CodeUnit>)
    ensures |out| == |s|
    ensures forall k :: 0 <= k < |s| ==> out[k] == if Replaced(s[k]) then REPLACEMENT else s[k]
  {
    out := [];
    for i := 0 to |s|
      invariant |out| == i
      invariant forall k :: 0 <= k < i ==> out[k] == if Replaced(s[k]) then REPLACEMENT else s[k]
    {
      if 0xD800 <= s[i] < 0xDFFF {
        out := out + [REPLACEMENT];
      } else {
        out := out + [s[i]];
      }
    }
  }

  /** The result holds no unit `toUSVString` replaces, so a second call changes nothing. */
  method ToUSVStringTwice(s: seq<CodeUnit>) returns (once: seq<CodeUnit>, twice: seq<CodeUnit>)
    ensures forall k :: 0 <= k < |once| ==> !Replaced(once[k])
    ensures twice == once
  {
    once := ToUSVString(s);
    twice := ToUSVString(once);
  }
}
