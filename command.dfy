/**
 * The argument-parsing framework of src/plugins/command.ts: a `Command` registers positional
 * arguments and flags, parses an argv into a dictionary of values, prints a help text and wraps
 * a handler so that its errors go to the process's standard error.
 */
module Cmd {
  import opened Wrappers
  import opened Text
  import OrdMap
  import opened Streams
  import opened Sys

  /** A registered positional argument. */
  datatype ArgSpec = ArgSpec(name: string, key: string, optional: bool, variadic: bool, synopsis: string)

  /** A registered flag as the help text shows it (`arg` is `null` for a flag without one). */
  datatype OptionDecl = OptionDecl(name: string, longName: Option<string>, arg: Option<string>, argIsOptional: bool, description: string)

  /** What the parser knows of a flag spelling: the dictionary key it sets and whether it takes a value. */
  datatype OptSpec = OptSpec(key: string, hasArg: bool, argIsOptional: bool)

  /** A value of the parsed dictionary. */
  datatype ArgValue = Str(s: string) | Bool(b: bool) | List(items: seq<string>) | Undefined

  type Dict = map<string, ArgValue>

  /** What `parse` returns: the help text (for an unknown `-h`/`--help`) or the dictionary. */
  datatype Parsed = Help(text: string) | Args(dict: Dict)

  const HELP_LINE := "  -h, --help              Display this help and exit\n"
  const NO_UPPER := "Cannot read properties of undefined (reading 'toUpperCase')"

  // ---------------------------------------------------------------------------------------------
  // flagToCamelCase

  /**
   * The key `flagToCamelCase` makes of the rest of a flag once `started` says whether anything
   * was output yet: leading `-` are skipped, and later each `-x` becomes `x` upper-cased; a `-`
   * at the very end reads past the string and throws.
   */
  function Camel(flag: string, started: bool): (r: Result<string>)
    decreases |flag|
  {
    if |flag| == 0 then Ok("")
    else if !started && flag[0] == '-' then Camel(flag[1..], false)
    else if flag[0] == '-' then
      if |flag| == 1 then Err(NO_UPPER) else Prefix(ToUpper([flag[1]]), Camel(flag[2..], true))
    else Prefix([flag[0]], Camel(flag[1..], true))
  }

  /** `out` in front of the rest of a result. */
  function Prefix(out: string, r: Result<string>): Result<string>
  {
    if r.Ok? then Ok(out + r.value) else r
  }

  lemma PrefixPrefix(a: string, b: string, r: Result<string>)
    ensures Prefix(a, Prefix(b, r)) == Prefix(a + b, r)
  {
    if r.Ok? {
      assert a + (b + r.value) == a + b + r.value;
    }
  }

  /** `flagToCamelCase(flag)`. */
  method FlagToCamelCase(flag: string) returns (r: Result<string>)
    ensures r == Camel(flag, false)
  {
    var out := "";
    var i := 0;
    assert flag[0..] == flag;
    assert Camel(flag, false).Ok? ==> "" + Camel(flag, false).value == Camel(flag, false).value;
    while i < |flag|
      invariant 0 <= i <= |flag|
      invariant Camel(flag, false) == Prefix(out, Camel(flag[i..], out != ""))
    {
      var c := flag[i];
      assert flag[i..][1..] == flag[i + 1..];
      if out == "" && c == '-' {
        i := i + 1;
        continue;
      }
      if c == '-' {
        if i + 1 == |flag| {
          return Err(NO_UPPER);
        }
        assert flag[i..][2..] == flag[i + 2..];
        PrefixPrefix(out, ToUpper([flag[i + 1]]), Camel(flag[i + 2..], true));
        out := out + ToUpper([flag[i + 1]]);
        i := i + 2;
      } else {
        PrefixPrefix(out, [c], Camel(flag[i + 1..], true));
        out := out + [c];
        i := i + 1;
      }
    }
    assert out + "" == out;
    r := Ok(out);
  }

  /** The text after the leading dashes of a flag: all of them are dropped. */
  function Dashes(n: nat): (r: string)
    ensures |r| == n && forall j :: 0 <= j < n ==> r[j] == '-'
  {
    if n == 0 then "" else "-" + Dashes(n - 1)
  }

  /** Leading dashes are dropped and a word without dashes is kept as it is. */
  lemma {:induction false} CamelOfPlainWord(n: nat, w: string)
    requires |w| > 0 && '-' !in w
    ensures Camel(Dashes(n) + w, false) == Ok(w)
    decreases n
  {
    if n == 0 {
      assert Dashes(0) + w == w;
      CamelPlainRest(w);
    } else {
      assert (Dashes(n) + w)[1..] == Dashes(n - 1) + w;
      CamelOfPlainWord(n - 1, w);
    }
  }

  lemma {:induction false} CamelPlainRest(w: string)
    requires |w| > 0 && '-' !in w
    ensures Camel(w, false) == Ok(w) && Camel(w, true) == Ok(w)
    decreases |w|
  {
    if |w| > 1 {
      assert '-' !in w[1..] by {
        forall j | 0 <= j < |w[1..]| ensures w[1..][j] != '-' {
          assert w[1..][j] == w[j + 1];
        }
      }
      CamelPlainRest(w[1..]);
      assert [w[0]] + w[1..] == w;
    } else {
      assert w == [w[0]];
      assert Camel(w[1..], true) == Ok("");
      assert [w[0]] + "" == w;
    }
  }

  /** A dash inside a flag upper-cases the letter after it: `a-b…` gives `aB…`. */
  lemma CamelDash(a: char, b: char, rest: string)
    requires a != '-'
    ensures Camel([a, '-', b] + rest, false) == Prefix([a] + ToUpper([b]), Camel(rest, true))
  {
    var f := [a, '-', b] + rest;
    assert f[1..] == ['-', b] + rest;
    assert f[1..][2..] == rest;
    PrefixPrefix([a], ToUpper([b]), Camel(rest, true));
  }

  // ---------------------------------------------------------------------------------------------
  // Registration

  /**
   * The record `argument(arg, synopsis?)` pushes: `[X]` is optional, `X...` variadic, anything
   * else required; the name is upper-cased, the key is the lower-cased name, and the synopsis
   * defaults to `[NAME]`, `NAME...` or `NAME`.
   */
  function ArgOf(arg: string, synopsis: Option<string>): (a: ArgSpec)
  {
    if StartsWith(arg, "[") && EndsWith(arg, "]") then
      var name := ToUpper(Slice(arg, 1, -1));
      ArgSpec(name, ToLower(name), true, false, if synopsis.Some? then synopsis.value else "[" + name + "]")
    else if EndsWith(arg, "...") then
      var name := ToUpper(Slice(arg, 0, -3));
      ArgSpec(name, ToLower(name), false, true, if synopsis.Some? then synopsis.value else name + "...")
    else
      var name := ToUpper(arg);
      ArgSpec(name, ToLower(name), false, false, if synopsis.Some? then synopsis.value else name)
  }

  /** An argument is exactly one of optional, variadic or required, by its spelling. */
  lemma ArgKinds(arg: string, synopsis: Option<string>)
    ensures ArgOf(arg, synopsis).optional <==> StartsWith(arg, "[") && EndsWith(arg, "]")
    ensures ArgOf(arg, synopsis).variadic <==> !(StartsWith(arg, "[") && EndsWith(arg, "]")) && EndsWith(arg, "...")
    ensures !(ArgOf(arg, synopsis).optional && ArgOf(arg, synopsis).variadic)
    ensures ArgOf(arg, synopsis).key == ToLower(ArgOf(arg, synopsis).name)
  {
  }

  /** `name.replace(/^--?/, '')`: one or two leading dashes are dropped. */
  function StripDashes(s: string): (r: string)
    ensures StartsWith(s, "--") ==> r == s[2..]
    ensures !StartsWith(s, "--") && StartsWith(s, "-") ==> r == s[1..]
    ensures !StartsWith(s, "-") ==> r == s
  {
    if StartsWith(s, "--") then s[2..] else if StartsWith(s, "-") then s[1..] else s
  }

  /**
   * The long name and description `option(name, a, b?)` settles on: with no third argument, `a`
   * is the long name when it starts with `--` (the description is then empty) and the
   * description otherwise; with a third argument, `a` is the long name.
   */
  function LongAndDescription(a: string, b: Option<string>): (Option<string>, string)
  {
    if b.None? then (if StartsWith(a, "--") then (Some(a), "") else (None, a)) else (Some(a), b.value)
  }

  /**
   * The record `option` pushes for the help text: the part of `name` before `=`, and the
   * upper-cased argument after it (`[ARG]` marks it optional).
   */
  function DeclOf(name: string, longName: Option<string>, description: string): (d: OptionDecl)
  {
    if '=' in name then
      var parts := Split(name, '=');
      var optional := StartsWith(parts[1], "[") && EndsWith(parts[1], "]");
      var arg := if optional then Slice(parts[1], 1, -1) else parts[1];
      OptionDecl(parts[0], longName, Some(ToUpper(arg)), optional, description)
    else OptionDecl(name, longName, None, false, description)
  }

  /** The spelling `option` registers for parsing comes from the name without its `=` part. */
  function FlagName(name: string): string
  {
    if '=' in name then Split(name, '=')[0] else name
  }

  lemma SplitHasTwo(s: string, c: char)
    requires c in s
    ensures |Split(s, c)| >= 2
  {
    SplitCount(s, c);
  }

  // ---------------------------------------------------------------------------------------------
  // Parsing: the token scan

  /** The part of a `-` token before its first `=` (`split('=')[0]`). */
  function FlagsPart(tok: string): string
  {
    Split(tok, '=')[0]
  }

  /** The value after the first `=` of a token, up to a second one (`split('=')[1]`). */
  function FlagArgOf(tok: string): (r: Option<string>)
  {
    if |Split(tok, '=')| > 1 then Some(Split(tok, '=')[1]) else None
  }

  /** The flag names a `-` token names: `--name` one, `-abc` each character after the dash. */
  function FlagsOf(tok: string): (r: seq<string>)
  {
    var f := FlagsPart(tok);
    if StartsWith(f, "--") then [f[2..]]
    else seq(|SliceFrom(f, 1)|, k requires 0 <= k < |SliceFrom(f, 1)| => [SliceFrom(f, 1)[k]])
  }

  /** Where the scan stands after the flags of one token: the dictionary and the index of the token last read. */
  datatype Step = Step(out: Dict, i: nat)

  /** The dictionary and the positionals once every token is read. */
  datatype Scanned = Scanned(out: Dict, pos: seq<string>)

  /**
   * The value a known flag gets from token `tok` at index `i` and its attached value `flagArg`,
   * and the index of the last token read: the next token when the flag takes one and that
   * token does not start with `-`.
   */
  function FlagValue(o: OptSpec, argv: seq<string>, tok: string, flagArg: Option<string>, i: nat): (r: Result<(ArgValue, nat)>)
    requires i < |argv|
    ensures r.Ok? ==> r.value.1 == i || (r.value.1 == i + 1 < |argv|)
  {
    if o.hasArg then
      if flagArg.None? then
        if i + 1 < |argv| && !StartsWith(argv[i + 1], "-") then Ok((Str(argv[i + 1]), i + 1))
        else if !o.argIsOptional then Err("flag " + tok + " requires an argument")
        else Ok((Bool(true), i))
      else Ok((Str(flagArg.value), i))
    else if flagArg.Some? then Err("flag " + tok + " does not take an argument")
    else Ok((Bool(true), i))
  }

  /**
   * The flags of token `tok`, one after the other: an unknown one is a help request when it is
   * `h` or `help` (`None`) and an error otherwise; a known one sets its key.
   */
  function ScanFlags(opts: OrdMap.Entries<string, OptSpec>, argv: seq<string>, tok: string, flags: seq<string>,
                     flagArg: Option<string>, out: Dict, i: nat): (r: Result<Option<Step>>)
    requires i < |argv|
    ensures r.Ok? && r.value.Some? ==> i <= r.value.value.i < |argv|
    decreases |flags|
  {
    if |flags| == 0 then Ok(Some(Step(out, i)))
    else
      match OrdMap.Get(opts, flags[0])
      case None =>
        if flags[0] == "h" || flags[0] == "help" then Ok(None) else Err("unrecognized flag " + flags[0])
      case Some(o) =>
        match FlagValue(o, argv, tok, flagArg, i)
        case Err(e) => Err(e)
        case Ok(vi) => ScanFlags(opts, argv, tok, flags[1..], flagArg, out[o.key := vi.0], vi.1)
  }

  /** The tokens from index `i` on: `-` tokens name flags, the others are positionals. */
  function ScanArgv(opts: OrdMap.Entries<string, OptSpec>, argv: seq<string>, i: nat, out: Dict, pos: seq<string>): (r: Result<Option<Scanned>>)
    decreases |argv| - i
  {
    if i >= |argv| then Ok(Some(Scanned(out, pos)))
    else if StartsWith(argv[i], "-") then
      match ScanFlags(opts, argv, argv[i], FlagsOf(argv[i]), FlagArgOf(argv[i]), out, i)
      case Err(e) => Err(e)
      case Ok(None) => Ok(None)
      case Ok(Some(st)) => ScanArgv(opts, argv, st.i + 1, st.out, pos)
    else ScanArgv(opts, argv, i + 1, out, pos + [argv[i]])
  }

  method ScanFlagsLoop(opts: OrdMap.Entries<string, OptSpec>, argv: seq<string>, tok: string, flags: seq<string>,
                       flagArg: Option<string>, out0: Dict, i0: nat) returns (r: Result<Option<Step>>)
    requires i0 < |argv|
    ensures r == ScanFlags(opts, argv, tok, flags, flagArg, out0, i0)
  {
    var out, i := out0, i0;
    assert flags[0..] == flags;
    for k := 0 to |flags|
      invariant i0 <= i < |argv|
      invariant ScanFlags(opts, argv, tok, flags, flagArg, out0, i0) == ScanFlags(opts, argv, tok, flags[k..], flagArg, out, i)
    {
      assert flags[k..][1..] == flags[k + 1..];
      var option := OrdMap.Get(opts, flags[k]);
      if option.None? {
        if flags[k] == "h" || flags[k] == "help" {
          return Ok(None);
        }
        return Err("unrecognized flag " + flags[k]);
      }
      var v := FlagValue(option.value, argv, tok, flagArg, i);
      if v.Err? {
        return Err(v.msg);
      }
      out := out[option.value.key := v.value.0];
      i := v.value.1;
    }
    r := Ok(Some(Step(out, i)));
  }

  method ScanArgvLoop(opts: OrdMap.Entries<string, OptSpec>, argv: seq<string>) returns (r: Result<Option<Scanned>>)
    ensures r == ScanArgv(opts, argv, 0, map[], [])
  {
    var out: Dict := map[];
    var pos: seq<string> := [];
    var i := 0;
    while i < |argv|
      invariant ScanArgv(opts, argv, 0, map[], []) == ScanArgv(opts, argv, i, out, pos)
      decreases |argv| - i
    {
      var tok := argv[i];
      if StartsWith(tok, "-") {
        var st := ScanFlagsLoop(opts, argv, tok, FlagsOf(tok), FlagArgOf(tok), out, i);
        if st.Err? {
          return Err(st.msg);
        }
        if st.value.None? {
          return Ok(None);
        }
        out := st.value.value.out;
        i := st.value.value.i + 1;
      } else {
        pos := pos + [tok];
        i := i + 1;
      }
    }
    r := Ok(Some(Scanned(out, pos)));
  }

  // ---------------------------------------------------------------------------------------------
  // Parsing: positionals and defaults

  /** The required keys take the positionals `vals` in order. */
  function PutRequired(out: Dict, req: seq<ArgSpec>, vals: seq<string>): (r: Dict)
    requires |vals| == |req|
    decreases |req|
  {
    if |req| == 0 then out else PutRequired(out[req[0].key := Str(vals[0])], req[1..], vals[1..])
  }

  /** The optional keys take the next positionals, or `undefined` once there are none. */
  function PutOptional(out: Dict, opt: seq<ArgSpec>, rest: seq<string>): (r: Dict)
    decreases |opt|
  {
    if |opt| == 0 then out
    else if |rest| > 0 then PutOptional(out[opt[0].key := Str(rest[0])], opt[1..], rest[1..])
    else PutOptional(out[opt[0].key := Undefined], opt[1..], rest)
  }

  /** Every variadic key still unset becomes `[]`. */
  function FillVariadic(out: Dict, vari: seq<ArgSpec>): (r: Dict)
    decreases |vari|
  {
    if |vari| == 0 then out
    else FillVariadic(if vari[0].key in out then out else out[vari[0].key := List([])], vari[1..])
  }

  /** Every flag key still unset becomes `false`, or `undefined` for a flag that takes a value. */
  function FillFlags(out: Dict, specs: seq<OptSpec>): (r: Dict)
    decreases |specs|
  {
    if |specs| == 0 then out
    else FillFlags(if specs[0].key in out then out else out[specs[0].key := if specs[0].hasArg then Undefined else Bool(false)], specs[1..])
  }

  /** The values of an ordered map, in its order. */
  function Values<K, V>(m: OrdMap.Entries<K, V>): (r: seq<V>)
    ensures |r| == |m| && forall k :: 0 <= k < |m| ==> r[k] == m[k].1
  {
    seq(|m|, k requires 0 <= k < |m| => m[k].1)
  }

  /**
   * The positional phase of `parse`: too few positionals name the first required argument
   * missing; the required keys take the first positionals; a variadic takes all the rest (and
   * the optional keys stay unset), otherwise the optional keys take the next ones; surplus ones
   * are dropped. Then the unset variadic and flag keys get their defaults.
   */
  function Assign(req: seq<ArgSpec>, opt: seq<ArgSpec>, vari: seq<ArgSpec>, specs: seq<OptSpec>, out: Dict, pos: seq<string>): (r: Result<Dict>)
  {
    if |pos| < |req| then Err("missing required argument '" + req[|pos|].name + "'")
    else
      var o1 := PutRequired(out, req, pos[..|req|]);
      var o2 := if |vari| > 0 then o1[vari[0].key := List(pos[|req|..])] else PutOptional(o1, opt, pos[|req|..]);
      Ok(FillFlags(FillVariadic(o2, vari), specs))
  }

  /** `parse(argv, …)` on the flag table `opts`: `argv[0]` is skipped; `None` is the help request. */
  function ParseSpec(opts: OrdMap.Entries<string, OptSpec>, argv: seq<string>, req: seq<ArgSpec>, opt: seq<ArgSpec>, vari: seq<ArgSpec>): (r: Result<Option<Dict>>)
  {
    match ScanArgv(opts, SliceFrom(argv, 1), 0, map[], [])
    case Err(e) => Err(e)
    case Ok(None) => Ok(None)
    case Ok(Some(sc)) =>
      match Assign(req, opt, vari, Values(opts), sc.out, sc.pos)
      case Err(e) => Err(e)
      case Ok(d) => Ok(Some(d))
  }

  method AssignLoops(req: seq<ArgSpec>, opt: seq<ArgSpec>, vari: seq<ArgSpec>, specs: seq<OptSpec>, out0: Dict, pos: seq<string>)
    returns (r: Result<Dict>)
    ensures r == Assign(req, opt, vari, specs, out0, pos)
  {
    if |pos| < |req| {
      return Err("missing required argument '" + req[|pos|].name + "'");
    }
    var out := out0;
    var current := 0;
    for k := 0 to |req|
      invariant current == k
      invariant PutRequired(out0, req, pos[..|req|]) == PutRequired(out, req[k..], pos[k..|req|])
    {
      assert req[k..][1..] == req[k + 1..] && pos[k..|req|][1..] == pos[k + 1..|req|];
      out := out[req[k].key := Str(pos[current])];
      current := current + 1;
    }
    assert out == PutRequired(out0, req, pos[..|req|]);
    if |vari| > 0 {
      out := out[vari[0].key := List(pos[current..])];
    } else {
      for k := 0 to |opt|
        invariant |req| <= current <= |pos| && current - |req| <= k
        invariant PutOptional(PutRequired(out0, req, pos[..|req|]), opt, pos[|req|..]) == PutOptional(out, opt[k..], pos[current..])
      {
        assert opt[k..][1..] == opt[k + 1..];
        if current < |pos| {
          assert pos[current..][1..] == pos[current + 1..];
          out := out[opt[k].key := Str(pos[current])];
          current := current + 1;
        } else {
          out := out[opt[k].key := Undefined];
        }
      }
    }
    ghost var o2 := out;
    for k := 0 to |vari|
      invariant FillVariadic(o2, vari) == FillVariadic(out, vari[k..])
    {
      assert vari[k..][1..] == vari[k + 1..];
      if vari[k].key !in out {
        out := out[vari[k].key := List([])];
      }
    }
    ghost var o3 := out;
    for k := 0 to |specs|
      invariant FillFlags(o3, specs) == FillFlags(out, specs[k..])
    {
      assert specs[k..][1..] == specs[k + 1..];
      if specs[k].key !in out {
        out := out[specs[k].key := if specs[k].hasArg then Undefined else Bool(false)];
      }
    }
    r := Ok(out);
  }

  // ---------------------------------------------------------------------------------------------
  // Help text

  /** The help line of one flag: `-name`, `, long`, `=ARG` or `[=ARG]`, and the description from column 28. */
  function OptionLine(o: OptionDecl): (line: string)
    ensures StartsWith(line, "  -" + o.name) && EndsWith(line, "\n")
  {
    var t1 := "  -" + o.name;
    var t2 := if o.longName.Some? && o.longName.value != "" then t1 + ", " + o.longName.value else t1;
    var t3 := if o.arg.Some? then t2 + (if o.argIsOptional then "[=" else "=") + o.arg.value + (if o.argIsOptional then "]" else "") else t2;
    var t4 := if o.description != "" then PadEnd(t3, 28) + o.description else t3;
    assert StartsWith(t4, t1) by {
      assert t2[..|t1|] == t1;
      assert t3[..|t1|] == t1;
      if o.description != "" {
        assert PadEnd(t3, 28)[..|t3|] == t3;
      }
    }
    t4 + "\n"
  }

  function OptionLines(options: seq<OptionDecl>): string
  {
    if |options| == 0 then "" else OptionLines(options[..|options| - 1]) + OptionLine(options[|options| - 1])
  }

  function Synopses(args: seq<ArgSpec>): (r: seq<string>)
    ensures |r| == |args| && forall k :: 0 <= k < |args| ==> r[k] == args[k].synopsis
  {
    seq(|args|, k requires 0 <= k < |args| => args[k].synopsis)
  }

  /**
   * `getHelpMessage()`: the usage line (with `[OPTION]... ` when there are flags, then the
   * synopses upper-cased), the description, and when there are flags an options list, one line
   * each, ending with the line for `-h, --help`.
   */
  function HelpText(name: string, description: string, args: seq<ArgSpec>, options: seq<OptionDecl>): (r: string)
  {
    UsageHead(name, description, args, |options| > 0) + (if |options| > 0 then OptionsBlock(options) else "")
  }

  /** The usage line and the description line. */
  function UsageHead(name: string, description: string, args: seq<ArgSpec>, hasOptions: bool): string
  {
    "Usage: " + name + " " + (if hasOptions then "[OPTION]... " else "") + ToUpper(Join(Synopses(args), " ")) + "\n"
    + description + "\n"
  }

  /** The options list: a heading, one line per flag and the line for `-h, --help`. */
  function OptionsBlock(options: seq<OptionDecl>): string
  {
    "\nOptions:\n" + OptionLines(options) + HELP_LINE
  }

  method OptionsBlockLoop(options: seq<OptionDecl>) returns (out: string)
    ensures out == OptionsBlock(options)
  {
    var lines := "";
    for k := 0 to |options|
      invariant lines == OptionLines(options[..k])
    {
      assert options[..k + 1][..k] == options[..k];
      assert OptionLines(options[..k + 1]) == OptionLines(options[..k]) + OptionLine(options[k]);
      lines := lines + OptionLine(options[k]);
    }
    assert options[..|options|] == options;
    out := "\nOptions:\n" + lines + HELP_LINE;
  }

  /** The help ends with the `--help` line exactly when the command has flags. */
  lemma HelpListsHelpFlag(name: string, description: string, args: seq<ArgSpec>, options: seq<OptionDecl>)
    ensures |options| > 0 ==> EndsWith(HelpText(name, description, args, options), HELP_LINE)
    ensures StartsWith(HelpText(name, description, args, options), "Usage: " + name + " ")
  {
    var h := HelpText(name, description, args, options);
    var head := "Usage: " + name + " ";
    assert h[..|head|] == head;
  }

  // ---------------------------------------------------------------------------------------------
  // The command

  /** What the handler given to `func` did: it returned, or threw a `CommandError`, another `Error`, or a non-error value. */
  datatype Outcome = Returned | ThrewCommandError(message: string) | ThrewError(message: string, stack: Option<string>, shown: string) | ThrewValue(shown: string)

  /** The `error(message)` the handler is given: a `CommandError`, unless `suppressErrors()` was called. */
  function ErrorCall(suppressed: bool, message: string): (r: Outcome)
    ensures r.ThrewCommandError? <==> !suppressed
  {
    if suppressed then Returned else ThrewCommandError(message)
  }

  /** The registered flags' table: every flag takes no value, whatever `=ARG` its name declared. */
  predicate NoValues(opts: OrdMap.Entries<string, OptSpec>)
  {
    forall k :: 0 <= k < |opts| ==> !opts[k].1.hasArg && !opts[k].1.argIsOptional
  }

  class Command {
    const name: string
    const description: string
    var args: seq<ArgSpec>
    var options: seq<OptionDecl>
    var optionsForParsing: OrdMap.Entries<string, OptSpec>

    ghost predicate Valid()
      reads this
    {
      NoValues(optionsForParsing)
    }

    /** `command(name, description)`. */
    constructor(name: string, description: string)
      ensures this.name == name && this.description == description
      ensures args == [] && options == [] && optionsForParsing == [] && Valid()
    {
      this.name := name;
      this.description := description;
      args := [];
      options := [];
      optionsForParsing := [];
    }

    /** `argument(arg, synopsis?)`. */
    method Argument(arg: string, synopsis: Option<string>)
      modifies this
      ensures args == old(args) + [ArgOf(arg, synopsis)]
      ensures options == old(options) && optionsForParsing == old(optionsForParsing)
    {
      args := args + [ArgOf(arg, synopsis)];
    }

    /**
     * `option(name, a, b?)`: the help record is pushed first; then the key is
     * `flagToCamelCase(name)` (which can throw, leaving the parse table as it was) and the short
     * and long spellings, leading dashes dropped, map to it. The `=ARG` branch declares its
     * own `arg` and `argIsOptional`, so every spelling is registered as taking no value.
     */
    method AddOption(name: string, a: string, b: Option<string>) returns (r: Result<()>)
      requires Valid()
      modifies this
      ensures Valid() && args == old(args)
      ensures options == old(options) + [DeclOf(name, LongAndDescription(a, b).0, LongAndDescription(a, b).1)]
      ensures match Camel(FlagName(name), false)
              case Err(e) => r == Err(e) && optionsForParsing == old(optionsForParsing)
              case Ok(key) =>
                r == Ok(()) &&
                var once := OrdMap.Set(old(optionsForParsing), StripDashes(FlagName(name)), OptSpec(key, false, false));
                optionsForParsing ==
                  if LongAndDescription(a, b).0.Some? then OrdMap.Set(once, StripDashes(LongAndDescription(a, b).0.value), OptSpec(key, false, false))
                  else once
    {
      var ld := LongAndDescription(a, b);
      options := options + [DeclOf(name, ld.0, ld.1)];
      var flag := FlagName(name);
      var key := FlagToCamelCase(flag);
      if key.Err? {
        return Err(key.msg);
      }
      var spec := OptSpec(key.value, false, false);
      SetKeepsNoValues(optionsForParsing, StripDashes(flag), spec);
      optionsForParsing := OrdMap.Set(optionsForParsing, StripDashes(flag), spec);
      if ld.0.Some? {
        SetKeepsNoValues(optionsForParsing, StripDashes(ld.0.value), spec);
        optionsForParsing := OrdMap.Set(optionsForParsing, StripDashes(ld.0.value), spec);
      }
      r := Ok(());
    }

    /** The categories `func` sorts the arguments into, in declaration order. */
    method Categories() returns (req: seq<ArgSpec>, opt: seq<ArgSpec>, vari: seq<ArgSpec>)
      ensures req == Required(args) && opt == Optional(args) && vari == Variadic(args)
    {
      req, opt, vari := [], [], [];
      for k := 0 to |args|
        invariant req == Required(args[..k]) && opt == Optional(args[..k]) && vari == Variadic(args[..k])
      {
        assert args[..k + 1][..k] == args[..k];
        if args[k].optional {
          opt := opt + [args[k]];
        } else if args[k].variadic {
          vari := vari + [args[k]];
        } else {
          req := req + [args[k]];
        }
      }
      assert args[..|args|] == args;
    }

    function HelpMessage(): string
      reads this
    {
      HelpText(name, description, args, options)
    }

    /** `getHelpMessage()`. */
    method GetHelpMessage() returns (out: string)
      ensures out == HelpMessage()
    {
      out := UsageHead(name, description, args, |options| > 0);
      if |options| > 0 {
        var block := OptionsBlockLoop(options);
        out := out + block;
      } else {
        assert out + "" == out;
      }
    }

    /** `parse(argv, requiredArgs, optionalArgs, variadicArgs)`. */
    method Parse(argv: seq<string>, req: seq<ArgSpec>, opt: seq<ArgSpec>, vari: seq<ArgSpec>) returns (r: Result<Parsed>)
      ensures match ParseSpec(optionsForParsing, argv, req, opt, vari)
              case Err(e) => r == Err(e)
              case Ok(None) => r == Ok(Help(HelpMessage()))
              case Ok(Some(d)) => r == Ok(Args(d))
    {
      var scanned := ScanArgvLoop(optionsForParsing, SliceFrom(argv, 1));
      if scanned.Err? {
        return Err(scanned.msg);
      }
      if scanned.value.None? {
        var help := GetHelpMessage();
        return Ok(Help(help));
      }
      var d := AssignLoops(req, opt, vari, Values(optionsForParsing), scanned.value.value.out, scanned.value.value.pos);
      if d.Err? {
        return Err(d.msg);
      }
      r := Ok(Args(d.value));
    }

    /**
     * The executor `func(handler)` returns, run on a process: a parse error propagates; a help
     * request prints the help and a newline; otherwise the handler runs (its outcome is
     * `outcome`) and anything it throws is reported on standard error after `<name>: error: `,
     * except an `Error` that is not a `CommandError` when the session asks for those to be
     * rethrown.
     */
    method Execute(p: Process, rethrow: bool, outcome: Outcome) returns (r: Result<()>)
      requires p.stdout != p.stderr
      modifies p.stdout, p.stderr
      ensures p.stdout.listeners == old(p.stdout.listeners) && p.stderr.listeners == old(p.stderr.listeners)
      ensures p.stdout.pos == old(p.stdout.pos) && p.stderr.pos == old(p.stderr.pos)
      ensures match ParseSpec(optionsForParsing, p.argv, Required(args), Optional(args), Variadic(args))
              case Err(e) => r == Err(e) && p.stdout.data == old(p.stdout.data) && p.stderr.data == old(p.stderr.data)
              case Ok(None) =>
                r == Ok(()) && p.stderr.data == old(p.stderr.data)
                && p.stdout.data == Overwrite(old(p.stdout.data), old(p.stdout.pos), HelpMessage() + "\n")
              case Ok(Some(_)) =>
                p.stdout.data == old(p.stdout.data)
                && (outcome.Returned? ==> r == Ok(()) && p.stderr.data == old(p.stderr.data))
                && (!outcome.Returned? ==> ReportedError(old(p.stderr.data), old(p.stderr.pos), p.stderr.data, name, rethrow, outcome, r))
    {
      var req, opt, vari := Categories();
      var parsed := Parse(p.argv, req, opt, vari);
      if parsed.Err? {
        return Err(parsed.msg);
      }
      if parsed.value.Help? {
        var calls := p.stdout.Write(parsed.value.text + "\n");
        return Ok(());
      }
      if outcome.Returned? {
        return Ok(());
      }
      var calls := p.stderr.Write(name + ": error: ");
      r := Ok(());
      match outcome {
        case ThrewCommandError(m) =>
          calls := p.stderr.Write(m);
        case ThrewError(m, stack, shown) =>
          if rethrow {
            r := Err(m);
          } else {
            calls := p.stderr.Write(if stack.Some? then stack.value else shown);
          }
        case ThrewValue(shown) =>
          calls := p.stderr.Write(shown);
      }
    }
  }

  /**
   * What standard error holds after a handler threw: `<name>: error: ` and then the message, the
   * stack (or the error as it prints) or the value as it prints, or only the prefix when the
   * error is rethrown.
   */
  predicate ReportedError(before: string, pos: int, after: string, name: string, rethrow: bool, outcome: Outcome, r: Result<()>)
    requires !outcome.Returned?
  {
    var prefixed := Overwrite(before, pos, name + ": error: ");
    var text :=
      match outcome
      case ThrewCommandError(m) => Some(m)
      case ThrewError(m, stack, shown) => if rethrow then None else Some(if stack.Some? then stack.value else shown)
      case ThrewValue(shown) => Some(shown);
    if text.Some? then r == Ok(()) && after == Overwrite(prefixed, pos, text.value)
    else r == Err(outcome.message) && after == prefixed
  }

  function Required(args: seq<ArgSpec>): (r: seq<ArgSpec>)
    ensures forall a :: a in r ==> a in args && !a.optional && !a.variadic
  {
    if |args| == 0 then []
    else Required(args[..|args| - 1]) + (var a := args[|args| - 1]; if !a.optional && !a.variadic then [a] else [])
  }

  function Optional(args: seq<ArgSpec>): (r: seq<ArgSpec>)
    ensures forall a :: a in r ==> a in args && a.optional
  {
    if |args| == 0 then []
    else Optional(args[..|args| - 1]) + (var a := args[|args| - 1]; if a.optional then [a] else [])
  }

  function Variadic(args: seq<ArgSpec>): (r: seq<ArgSpec>)
    ensures forall a :: a in r ==> a in args && !a.optional && a.variadic
  {
    if |args| == 0 then []
    else Variadic(args[..|args| - 1]) + (var a := args[|args| - 1]; if !a.optional && a.variadic then [a] else [])
  }

  /** The three categories share out the arguments: each argument is in exactly one. */
  lemma {:induction false} CategoriesPartition(args: seq<ArgSpec>)
    ensures |Required(args)| + |Optional(args)| + |Variadic(args)| == |args|
  {
    if |args| > 0 {
      CategoriesPartition(args[..|args| - 1]);
    }
  }

  lemma SetKeepsNoValues(opts: OrdMap.Entries<string, OptSpec>, k: string, v: OptSpec)
    requires NoValues(opts) && !v.hasArg && !v.argIsOptional
    ensures NoValues(OrdMap.Set(opts, k, v))
  {
  }

  // ---------------------------------------------------------------------------------------------
  // What parsing promises

  /**
   * How a token is read: the value after `=` is attached; `--name` names the one flag `name`,
   * and `-abc` names each character after the dash, so a lone `-` names none.
   */
  lemma TokenFlags(tok: string, w: string, v: Option<string>)
    requires '=' !in w && (v.Some? ==> '=' !in v.value)
    requires tok == "-" + w + (if v.Some? then "=" + v.value else "")
    ensures FlagArgOf(tok) == v
    ensures StartsWith(w, "-") ==> FlagsOf(tok) == [w[1..]]
    ensures !StartsWith(w, "-") ==> |FlagsOf(tok)| == |w| && forall k :: 0 <= k < |w| ==> FlagsOf(tok)[k] == [w[k]]
  {
    var f := "-" + w;
    assert '=' !in f;
    SplitCount(f, '=');
    if v.Some? {
      assert tok == f + ['='] + v.value;
      SplitCons(f, v.value, '=');
      SplitCount(v.value, '=');
      SplitFree(v.value, '=');
    } else {
      assert tok == f;
      SplitFree(f, '=');
    }
    assert FlagsPart(tok) == f;
    assert StartsWith(f, "--") <==> StartsWith(w, "-");
    assert SliceFrom(f, 1) == w;
  }

  /** A lone `-` is neither a flag nor a positional: the scan passes over it. */
  lemma LoneDashSkipped(opts: OrdMap.Entries<string, OptSpec>, argv: seq<string>, i: nat, out: Dict, pos: seq<string>)
    requires i < |argv| && argv[i] == "-"
    ensures ScanArgv(opts, argv, i, out, pos) == ScanArgv(opts, argv, i + 1, out, pos)
  {
    TokenFlags("-", "", None);
  }

  /** An unregistered flag stops the scan: a help request for `h` and `help`, an error naming it otherwise. */
  lemma UnknownFlagRefused(opts: OrdMap.Entries<string, OptSpec>, argv: seq<string>, i: nat, out: Dict, pos: seq<string>, f: string)
    requires i < |argv| && StartsWith(argv[i], "-") && |FlagsOf(argv[i])| > 0 && FlagsOf(argv[i])[0] == f
    requires !OrdMap.HasKey(opts, f)
    ensures f == "h" || f == "help" ==> ScanArgv(opts, argv, i, out, pos) == Ok(None)
    ensures f != "h" && f != "help" ==> ScanArgv(opts, argv, i, out, pos) == Err("unrecognized flag " + f)
  {
  }

  /** A registered flag that takes no value refuses one attached with `=`. */
  lemma AttachedValueRefused(opts: OrdMap.Entries<string, OptSpec>, argv: seq<string>, i: nat, out: Dict, pos: seq<string>, o: OptSpec)
    requires i < |argv| && StartsWith(argv[i], "-") && |FlagsOf(argv[i])| > 0
    requires OrdMap.Get(opts, FlagsOf(argv[i])[0]) == Some(o) && !o.hasArg && FlagArgOf(argv[i]).Some?
    ensures ScanArgv(opts, argv, i, out, pos) == Err("flag " + argv[i] + " does not take an argument")
  {
  }

  /** With every flag taking no value, the flags of a token never read the token after it. */
  lemma {:induction false} FlagsReadOneToken(opts: OrdMap.Entries<string, OptSpec>, argv: seq<string>, tok: string, flags: seq<string>,
                                             flagArg: Option<string>, out: Dict, i: nat)
    requires i < |argv| && NoValues(opts)
    ensures ScanFlags(opts, argv, tok, flags, flagArg, out, i).Ok? && ScanFlags(opts, argv, tok, flags, flagArg, out, i).value.Some?
            ==> ScanFlags(opts, argv, tok, flags, flagArg, out, i).value.value.i == i
    decreases |flags|
  {
    if |flags| > 0 {
      var o := OrdMap.Get(opts, flags[0]);
      if o.Some? {
        assert !o.value.hasArg;
        var v := FlagValue(o.value, argv, tok, flagArg, i);
        if v.Ok? {
          FlagsReadOneToken(opts, argv, tok, flags[1..], flagArg, out[o.value.key := v.value.0], i);
        }
      }
    }
  }

  /** The tokens that do not start with `-`, in order. */
  function Positionals(toks: seq<string>): (r: seq<string>)
    ensures |r| <= |toks|
  {
    if |toks| == 0 then [] else (if StartsWith(toks[0], "-") then [] else [toks[0]]) + Positionals(toks[1..])
  }

  /**
   * With every flag taking no value, the positionals are exactly the tokens that do not start
   * with `-`, in their order.
   */
  lemma {:induction false} ScanKeepsPositionals(opts: OrdMap.Entries<string, OptSpec>, argv: seq<string>, i: nat, out: Dict, pos: seq<string>)
    requires NoValues(opts) && i <= |argv|
    ensures ScanArgv(opts, argv, i, out, pos).Ok? && ScanArgv(opts, argv, i, out, pos).value.Some?
            ==> ScanArgv(opts, argv, i, out, pos).value.value.pos == pos + Positionals(argv[i..])
    decreases |argv| - i
  {
    if i == |argv| {
      assert pos + [] == pos;
    } else {
      assert argv[i..][1..] == argv[i + 1..];
      if StartsWith(argv[i], "-") {
        var st := ScanFlags(opts, argv, argv[i], FlagsOf(argv[i]), FlagArgOf(argv[i]), out, i);
        FlagsReadOneToken(opts, argv, argv[i], FlagsOf(argv[i]), FlagArgOf(argv[i]), out, i);
        if st.Ok? && st.value.Some? {
          ScanKeepsPositionals(opts, argv, i + 1, st.value.value.out, pos);
          assert [] + Positionals(argv[i + 1..]) == Positionals(argv[i + 1..]);
        }
      } else {
        ScanKeepsPositionals(opts, argv, i + 1, out, pos + [argv[i]]);
        assert pos + [argv[i]] + Positionals(argv[i + 1..]) == pos + ([argv[i]] + Positionals(argv[i + 1..]));
      }
    }
  }

  /** No two arguments share a key. */
  predicate DistinctKeys(args: seq<ArgSpec>)
  {
    forall a, b :: 0 <= a < b < |args| ==> args[a].key != args[b].key
  }

  predicate KeyFree(args: seq<ArgSpec>, key: string)
  {
    forall a :: 0 <= a < |args| ==> args[a].key != key
  }

  lemma {:induction false} PutRequiredOther(out: Dict, req: seq<ArgSpec>, vals: seq<string>, key: string)
    requires |vals| == |req| && KeyFree(req, key)
    ensures (key in PutRequired(out, req, vals) <==> key in out)
    ensures key in out ==> PutRequired(out, req, vals)[key] == out[key]
    decreases |req|
  {
    if |req| > 0 {
      PutRequiredOther(out[req[0].key := Str(vals[0])], req[1..], vals[1..], key);
    }
  }

  /** The required arguments take the first positionals in order: the `k`-th one gets the `k`-th value. */
  lemma {:induction false} RequiredInOrder(out: Dict, req: seq<ArgSpec>, vals: seq<string>, k: nat)
    requires |vals| == |req| && DistinctKeys(req) && k < |req|
    ensures req[k].key in PutRequired(out, req, vals) && PutRequired(out, req, vals)[req[k].key] == Str(vals[k])
    decreases |req|
  {
    var next := out[req[0].key := Str(vals[0])];
    if k == 0 {
      PutRequiredOther(next, req[1..], vals[1..], req[0].key);
    } else {
      RequiredInOrder(next, req[1..], vals[1..], k - 1);
    }
  }

  lemma {:induction false} PutOptionalOther(out: Dict, opt: seq<ArgSpec>, rest: seq<string>, key: string)
    requires KeyFree(opt, key)
    ensures (key in PutOptional(out, opt, rest) <==> key in out)
    ensures key in out ==> PutOptional(out, opt, rest)[key] == out[key]
    decreases |opt|
  {
    if |opt| > 0 {
      if |rest| > 0 {
        PutOptionalOther(out[opt[0].key := Str(rest[0])], opt[1..], rest[1..], key);
      } else {
        PutOptionalOther(out[opt[0].key := Undefined], opt[1..], rest, key);
      }
    }
  }

  /**
   * The optional arguments take the positionals left after the required ones, in order; those
   * that find none are `undefined`.
   */
  lemma {:induction false} OptionalInOrder(out: Dict, opt: seq<ArgSpec>, rest: seq<string>, k: nat)
    requires DistinctKeys(opt) && k < |opt|
    ensures opt[k].key in PutOptional(out, opt, rest)
    ensures PutOptional(out, opt, rest)[opt[k].key] == if k < |rest| then Str(rest[k]) else Undefined
    decreases |opt|
  {
    var next := if |rest| > 0 then out[opt[0].key := Str(rest[0])] else out[opt[0].key := Undefined];
    var rest' := if |rest| > 0 then rest[1..] else rest;
    if k == 0 {
      PutOptionalOther(next, opt[1..], rest', opt[0].key);
    } else {
      OptionalInOrder(next, opt[1..], rest', k - 1);
    }
  }

  /** Positionals beyond the optional arguments are dropped. */
  lemma {:induction false} SurplusDropped(out: Dict, opt: seq<ArgSpec>, rest: seq<string>)
    requires |rest| >= |opt|
    ensures PutOptional(out, opt, rest) == PutOptional(out, opt, rest[..|opt|])
    decreases |opt|
  {
    if |opt| > 0 {
      assert rest[..|opt|][1..] == rest[1..][..|opt| - 1];
      SurplusDropped(out[opt[0].key := Str(rest[0])], opt[1..], rest[1..]);
    }
  }

  /** The defaults never overwrite a key already set. */
  lemma {:induction false} FillsKeep(out: Dict, vari: seq<ArgSpec>, specs: seq<OptSpec>, key: string)
    requires key in out
    ensures key in FillVariadic(out, vari) && FillVariadic(out, vari)[key] == out[key]
    ensures key in FillFlags(out, specs) && FillFlags(out, specs)[key] == out[key]
    decreases |vari| + |specs|
  {
    if |vari| > 0 {
      FillsKeep(if vari[0].key in out then out else out[vari[0].key := List([])], vari[1..], [], key);
    }
    if |specs| > 0 {
      FillsKeep(if specs[0].key in out then out else out[specs[0].key := if specs[0].hasArg then Undefined else Bool(false)], [], specs[1..], key);
    }
  }

  /** A flag that takes no value and was not given is `false` in the dictionary. */
  lemma {:induction false} UnsetFlagIsFalse(out: Dict, specs: seq<OptSpec>, k: nat)
    requires k < |specs| && specs[k].key !in out
    requires forall j :: 0 <= j < |specs| ==> !specs[j].hasArg
    ensures specs[k].key in FillFlags(out, specs) && FillFlags(out, specs)[specs[k].key] == Bool(false)
    decreases |specs|
  {
    var next := if specs[0].key in out then out else out[specs[0].key := Bool(false)];
    if k == 0 {
      FillsKeep(next, [], specs[1..], specs[0].key);
    } else if specs[k].key in next {
      assert specs[k].key == specs[0].key;
      FillsKeep(next, [], specs[1..], specs[k].key);
    } else {
      UnsetFlagIsFalse(next, specs[1..], k - 1);
    }
  }

  /** A variadic argument (the first one) takes every positional after the required ones. */
  lemma VariadicTakesRest(req: seq<ArgSpec>, opt: seq<ArgSpec>, vari: seq<ArgSpec>, specs: seq<OptSpec>, out: Dict, pos: seq<string>)
    requires |pos| >= |req| && |vari| > 0
    ensures Assign(req, opt, vari, specs, out, pos).Ok?
    ensures vari[0].key in Assign(req, opt, vari, specs, out, pos).value
    ensures Assign(req, opt, vari, specs, out, pos).value[vari[0].key] == List(pos[|req|..])
  {
    var o2 := PutRequired(out, req, pos[..|req|])[vari[0].key := List(pos[|req|..])];
    FillsKeep(o2, vari, [], vari[0].key);
    FillsKeep(FillVariadic(o2, vari), [], specs, vari[0].key);
  }

  /**
   * Without a variadic argument, each required argument gets its positional, provided the
   * optional ones use other keys.
   */
  lemma RequiredAssigned(req: seq<ArgSpec>, opt: seq<ArgSpec>, specs: seq<OptSpec>, out: Dict, pos: seq<string>, k: nat)
    requires |pos| >= |req| && DistinctKeys(req) && k < |req| && KeyFree(opt, req[k].key)
    ensures Assign(req, opt, [], specs, out, pos).Ok?
    ensures req[k].key in Assign(req, opt, [], specs, out, pos).value
    ensures Assign(req, opt, [], specs, out, pos).value[req[k].key] == Str(pos[k])
  {
    var o1 := PutRequired(out, req, pos[..|req|]);
    RequiredInOrder(out, req, pos[..|req|], k);
    PutOptionalOther(o1, opt, pos[|req|..], req[k].key);
    var o2 := PutOptional(o1, opt, pos[|req|..]);
    FillsKeep(o2, [], [], req[k].key);
    FillsKeep(FillVariadic(o2, []), [], specs, req[k].key);
  }

  /** Too few positionals name the first required argument without one. */
  lemma MissingRequired(req: seq<ArgSpec>, opt: seq<ArgSpec>, vari: seq<ArgSpec>, specs: seq<OptSpec>, out: Dict, pos: seq<string>)
    requires |pos| < |req|
    ensures Assign(req, opt, vari, specs, out, pos) == Err("missing required argument '" + req[|pos|].name + "'")
  {
  }
}
