/**
 * The shell of src/plugins/bash.ts once a line is scanned: alias resolution, the rewriting of
 * arguments into paths, the builtin commands, `bash` itself, the `run` that looks a command up
 * and starts it, the `/bin/bash` device and the session's `runBash`.
 *
 * The builtins act on a session and a process. `Sess` and `Proc` are the parts of them the shell
 * reads or writes; the functions state what each step does to these views, and the methods do
 * it to the objects and are proved to agree. A builtin reads its arguments from `process.argv`,
 * never from the words of the line that named it.
 */
module Shell {
  import opened Wrappers
  import opened Text
  import Utf8
  import opened FsPath
  import opened Vfs
  import opened Users
  import Streams
  import opened FileSystems
  import opened Sys
  import opened ShellLex

  /** What the shell reads and writes of a session. */
  datatype Sess = Sess(cwd: Option<string>, prevDir: Option<string>, homedir: Option<string>, aliases: map<string, string>)

  /** What the shell reads and writes of a process: its arguments, directory, exit code and the text and cursor of its two output streams. */
  datatype Proc = Proc(argv: seq<string>, cwd: Option<string>, exitCode: Option<Num>, out: string, outPos: int, err: string, errPos: int)

  /** How a step ended: it returned, it threw, or the model's recursion bound ran out. */
  datatype Status = Normal | Threw(msg: string) | NoFuel

  /** The session and process after a step, the number of processes it created, and how it ended. */
  datatype After = After(s: Sess, p: Proc, spawned: nat, status: Status)

  /** The builtins of `defaultCommands`. */
  datatype Command = Colon | Dot | Alias | Builtin | Cd | Eval | Exit | Pwd | Source | Test | Unalias | Bracket

  /** What `builtin` throws when its first argument names no builtin. */
  const NOT_A_FUNCTION := "defaultCommands[process.argv[0]] is not a function"
  /** What `[` writes when its last argument is not `]`. */
  const NO_MATCHING := "[: no matching ]\n"
  /** What `process.env.PATH.split(':')` throws when there is no `PATH`. */
  const NO_PATH := "Cannot read properties of undefined (reading 'split')"

  /** A value as a template literal or a concatenation shows it: `undefined` when absent. */
  function Display(o: Option<string>): (r: string)
    ensures o.Some? ==> r == o.value
  {
    if o.Some? then o.value else "undefined"
  }

  /** `argv[k]`, `undefined` past the end. */
  function Arg(argv: seq<string>, k: nat): (r: Option<string>)
    ensures r.Some? <==> k < |argv|
    ensures r.Some? ==> r.value == argv[k]
  {
    if k < |argv| then Some(argv[k]) else None
  }

  /** `argv.slice(k)` for a non-negative `k`. */
  function Drop(argv: seq<string>, k: nat): (r: seq<string>)
    ensures k <= |argv| ==> r == argv[k..]
    ensures k > |argv| ==> r == []
  {
    if k <= |argv| then argv[k..] else []
  }

  /** `map.get(key)`. */
  function Lookup(m: map<string, string>, key: string): (r: Option<string>)
    ensures r.Some? <==> key in m
    ensures r.Some? ==> r.value == m[key]
  {
    if key in m then Some(m[key]) else None
  }

  /** The name of each builtin. */
  function NameOf(c: Command): string
  {
    match c
    case Colon => ":"
    case Dot => "."
    case Alias => "alias"
    case Builtin => "builtin"
    case Cd => "cd"
    case Eval => "eval"
    case Exit => "exit"
    case Pwd => "pwd"
    case Source => "source"
    case Test => "test"
    case Unalias => "unalias"
    case Bracket => "["
  }

  /** `name in defaultCommands`, for the builtins' own names. */
  function Named(name: string): (r: Option<Command>)
    ensures r.Some? ==> NameOf(r.value) == name
  {
    if name == ":" then Some(Colon)
    else if name == "." then Some(Dot)
    else if name == "alias" then Some(Alias)
    else if name == "builtin" then Some(Builtin)
    else if name == "cd" then Some(Cd)
    else if name == "eval" then Some(Eval)
    else if name == "exit" then Some(Exit)
    else if name == "pwd" then Some(Pwd)
    else if name == "source" then Some(Source)
    else if name == "test" then Some(Test)
    else if name == "unalias" then Some(Unalias)
    else if name == "[" then Some(Bracket)
    else None
  }

  /** Every builtin is found under its name, so the names are distinct. */
  lemma NamedNameOf(c: Command)
    ensures Named(NameOf(c)) == Some(c)
  {
  }

  // ---------------------------------------------------------------------------------------------
  // Aliases and substitutions

  /** `resolveAliases`: the first word's text becomes its alias, once; its quoted flag and the other words are kept. */
  function ResolveAliases(words: seq<Word>, aliases: map<string, string>): (r: seq<Word>)
    ensures |r| == |words|
    ensures |words| > 0 ==> r[1..] == words[1..] && r[0].quoted == words[0].quoted
    ensures |words| > 0 ==> r[0].text == if words[0].text in aliases then aliases[words[0].text] else words[0].text
  {
    if |words| == 0 || words[0].text !in aliases then words
    else words[0 := words[0].(text := aliases[words[0].text])]
  }

  /** An alias is not expanded again: the result is the alias's value even when that value is itself an alias. */
  lemma AliasNotReexpanded(words: seq<Word>, aliases: map<string, string>)
    requires |words| > 0 && words[0].text in aliases && aliases[words[0].text] in aliases
    requires aliases[aliases[words[0].text]] != aliases[words[0].text]
    ensures ResolveAliases(words, aliases)[0].text != aliases[aliases[words[0].text]]
    ensures ResolveAliases(ResolveAliases(words, aliases), aliases)[0].text == aliases[aliases[words[0].text]]
  {
  }

  /** Only the first word is looked up: an alias name later in the line stays as it is. */
  lemma AliasOnlyFirstWord(words: seq<Word>, aliases: map<string, string>, k: nat)
    requires 0 < k < |words|
    ensures ResolveAliases(words, aliases)[k] == words[k]
  {
    assert ResolveAliases(words, aliases)[1..][k - 1] == words[1..][k - 1];
  }

  /** Whether `substitutions` rewrites a word: unquoted, and not starting with `/`, `.` or `-`. */
  predicate Rewritten(w: Word)
  {
    !w.quoted && !StartsWith(w.text, "/") && !StartsWith(w.text, ".") && !StartsWith(w.text, "-")
  }

  /** The argument a word becomes: `normalize(resolve(cwd, text))` when it is rewritten, its text otherwise. */
  function Substitute(cwd: Option<string>, w: Word): string
  {
    if Rewritten(w) then NormalizeSpec(Resolve(Display(cwd), [w.text])) else w.text
  }

  /** `substitutions(process, words)`: the first word as it is, then every other word substituted. */
  function Substitutions(cwd: Option<string>, words: seq<Word>): (argv: seq<string>)
    requires |words| >= 1
    ensures |argv| == |words| && argv[0] == words[0].text
    ensures forall k :: 1 <= k < |words| ==> argv[k] == Substitute(cwd, words[k])
  {
    seq(|words|, k requires 0 <= k < |words| => if k == 0 then words[0].text else Substitute(cwd, words[k]))
  }

  /** `substitutions`, as the source runs it: one loop over the words after the first. */
  method SubstitutionsLoop(cwd: Option<string>, words: seq<Word>) returns (argv: seq<string>)
    requires |words| >= 1
    ensures argv == Substitutions(cwd, words)
  {
    argv := [words[0].text];
    var i := 1;
    while i < |words|
      invariant 1 <= i <= |words| && |argv| == i && argv[0] == words[0].text
      invariant forall k :: 1 <= k < i ==> argv[k] == Substitute(cwd, words[k])
    {
      var text := words[i].text;
      if Rewritten(words[i]) {
        text := Normalize(Resolve(Display(cwd), [text]));
      }
      argv := argv + [text];
      i := i + 1;
    }
  }

  /** A rewritten word is resolved from the root, whatever the working directory: `resolve` returns as soon as it has one path. */
  lemma SubstituteFromRoot(cwd: Option<string>, w: Word)
    requires Rewritten(w)
    ensures Substitute(cwd, w) == NormalizeSpec("/" + w.text)
    ensures StartsWith(Substitute(cwd, w), "/")
  {
    NormalizeKeepsRoot("/" + w.text);
  }

  /** The working directory makes no difference to the arguments. */
  lemma SubstitutionsIgnoreCwd(cwd: Option<string>, cwd': Option<string>, words: seq<Word>)
    requires |words| >= 1
    ensures Substitutions(cwd, words) == Substitutions(cwd', words)
  {
    forall k | 1 <= k < |words|
      ensures Substitute(cwd, words[k]) == Substitute(cwd', words[k])
    {
    }
  }

  /** The words with the texts `argv` gives them: what `substitutions` leaves in the words it mutates. */
  function Retexted(words: seq<Word>, argv: seq<string>): (r: seq<Word>)
    requires |argv| == |words|
    ensures |r| == |words| && forall k :: 0 <= k < |words| ==> r[k] == words[k].(text := argv[k])
  {
    seq(|words|, k requires 0 <= k < |words| => words[k].(text := argv[k]))
  }

  /** Substituting the words a substitution left behind changes nothing more. */
  lemma SubstitutionsIdempotent(cwd: Option<string>, words: seq<Word>)
    requires |words| >= 1
    ensures Substitutions(cwd, Retexted(words, Substitutions(cwd, words))) == Substitutions(cwd, words)
  {
    var argv := Substitutions(cwd, words);
    var again := Retexted(words, argv);
    forall k | 1 <= k < |words|
      ensures Substitute(cwd, again[k]) == argv[k]
    {
      if Rewritten(words[k]) {
        SubstituteFromRoot(cwd, words[k]);
        assert !Rewritten(again[k]);
      }
    }
  }

  // ---------------------------------------------------------------------------------------------
  // The builtins that do not run further lines

  /** The aliases and standard output text while `alias` works through its arguments. */
  datatype Aliased = Aliased(aliases: map<string, string>, out: string)

  /** `arg.split('=')` of an argument holding `=` has a name and a value: the text before the first `=` and up to the second. */
  lemma SplitOnEquals(arg: string)
    requires '=' in arg
    ensures |Split(arg, '=')| >= 2
  {
    SplitCount(arg, '=');
  }

  /**
   * One argument of `alias`: `-p` is skipped; `name=value` defines the alias `name`, the value
   * ending at a second `=`; any other argument prints `name=value`, with `undefined` for a name
   * that has no alias.
   */
  function AliasArg(st: Aliased, pos: int, arg: string): (r: Aliased)
  {
    if arg == "-p" then st
    else if '=' in arg then
      SplitOnEquals(arg);
      var parts := Split(arg, '=');
      st.(aliases := st.aliases[parts[0] := parts[1]])
    else st.(out := Streams.Overwrite(st.out, pos, arg + "=" + Display(Lookup(st.aliases, arg)) + "\n"))
  }

  /** `alias`: its arguments in order, each seeing the aliases the earlier ones defined. */
  function AliasFrom(st: Aliased, pos: int, args: seq<string>): (r: Aliased)
    decreases |args|
  {
    if |args| == 0 then st else AliasFrom(AliasArg(st, pos, args[0]), pos, args[1..])
  }

  /** `unalias`: `-a` empties the aliases and ends the loop; any other argument removes that alias. */
  function UnaliasFrom(m: map<string, string>, args: seq<string>): (r: map<string, string>)
    ensures forall k :: k in r ==> k in m && r[k] == m[k]
    decreases |args|
  {
    if |args| == 0 then m
    else if args[0] == "-a" then map[]
    else UnaliasFrom(m - {args[0]}, args[1..])
  }

  /** `alias name=value` defines the alias and prints nothing. */
  lemma AliasDefines(st: Aliased, pos: int, name: string, value: string)
    requires '=' !in name && '=' !in value
    ensures AliasFrom(st, pos, [name + "=" + value]) == Aliased(st.aliases[name := value], st.out)
  {
    var arg: string := name + "=" + value;
    var args: seq<string> := [arg];
    assert arg == name + ['='] + value;
    SplitCount(name, '=');
    SplitCount(value, '=');
    SplitCons(name, value, '=');
    SplitFree(value, '=');
    assert arg[|name|] == '=';
    assert args[1..] == [];
  }

  /** `alias name` after `alias name=value` prints `name=value`. */
  lemma AliasPrintsDefinition(st: Aliased, pos: int, name: string, value: string)
    requires '=' !in name && '=' !in value && name != "-p"
    ensures AliasFrom(st, pos, [name + "=" + value, name]).out == Streams.Overwrite(st.out, pos, name + "=" + value + "\n")
  {
    var arg: string := name + "=" + value;
    var args: seq<string> := [arg, name];
    var one: seq<string> := [arg];
    AliasDefines(st, pos, name, value);
    assert one[1..] == [];
    var st' := Aliased(st.aliases[name := value], st.out);
    assert AliasArg(st, pos, arg) == st' by {
      assert AliasFrom(st, pos, one) == AliasFrom(AliasArg(st, pos, arg), pos, []);
    }
    assert args[1..] == [name];
    assert AliasFrom(st, pos, args) == AliasFrom(st', pos, [name]);
    assert Lookup(st'.aliases, name) == Some(value);
    assert AliasArg(st', pos, name).out == Streams.Overwrite(st.out, pos, name + "=" + value + "\n");
  }

  /** After `unalias -a` no alias is left, whatever came before or after it. */
  lemma {:induction false} UnaliasAllClears(m: map<string, string>, args: seq<string>)
    requires "-a" in args
    ensures UnaliasFrom(m, args) == map[]
    decreases |args|
  {
    if args[0] != "-a" {
      assert "-a" in args[1..];
      UnaliasAllClears(m - {args[0]}, args[1..]);
    }
  }

  /** Without `-a`, `unalias` removes exactly the names it is given. */
  lemma {:induction false} UnaliasRemovesNames(m: map<string, string>, args: seq<string>)
    requires "-a" !in args
    ensures UnaliasFrom(m, args) == m - set k | k in args
    decreases |args|
  {
    if |args| > 0 {
      UnaliasRemovesNames(m - {args[0]}, args[1..]);
      assert (set k | k in args) == {args[0]} + set k | k in args[1..];
    }
  }

  /** Defining an alias and then removing it leaves the other aliases as they were. */
  lemma AliasThenUnalias(st: Aliased, pos: int, name: string, value: string)
    requires '=' !in name && '=' !in value && name != "-a"
    ensures UnaliasFrom(AliasFrom(st, pos, [name + "=" + value]).aliases, [name]) == st.aliases - {name}
  {
    AliasDefines(st, pos, name, value);
    UnaliasRemovesNames(st.aliases[name := value], [name]);
    assert (set k | k in [name]) == {name};
  }

  /**
   * The directory `cd` moves to: home with no argument or `~`, the home of the user `~user`
   * names, the previous directory for `-`, the argument itself otherwise. A failed user lookup
   * throws.
   */
  function CdTarget(a: Nodes, s: Sess, argv: seq<string>): (r: Result<Option<string>>)
    requires Rooted(a)
  {
    if |argv| == 0 then Ok(s.homedir)
    else if StartsWith(argv[0], "~") then
      if |argv[0]| == 1 then Ok(s.homedir)
      else match DBRead(a, PASSWD)
        case Err(e) => Err(e)
        case Ok(t) =>
          match GetUser(t, ByName(argv[0][1..]))
          case Err(e) => Err(e)
          case Ok(u) => Ok(u.homedir)
    else if argv[0] == "-" then Ok(s.prevDir)
    else Ok(Some(argv[0]))
  }

  /** `cd`: the old working directory becomes the previous one and the target the new one; nothing changes when the target throws. */
  function CdSpec(a: Nodes, s: Sess, argv: seq<string>): (r: Result<Sess>)
    requires Rooted(a)
    ensures r.Ok? ==> r.value.prevDir == s.cwd && r.value.homedir == s.homedir && r.value.aliases == s.aliases
    ensures r.Ok? <==> CdTarget(a, s, argv).Ok?
  {
    match CdTarget(a, s, argv)
    case Err(e) => Err(e)
    case Ok(target) => Ok(s.(prevDir := s.cwd, cwd := target))
  }

  /** `cd dir` and then `cd -` come back to the first directory, with `dir` as the previous one. */
  lemma CdDashReturns(a: Nodes, s: Sess, dir: string)
    requires Rooted(a) && !StartsWith(dir, "~") && dir != "-"
    ensures CdSpec(a, s, [dir]).Ok?
    ensures CdSpec(a, CdSpec(a, s, [dir]).value, ["-"]) == Ok(s.(prevDir := Some(dir)))
  {
    assert !StartsWith("-", "~") by { assert "-"[0] != '~'; }
  }

  /** `cd` alone, and `cd ~`, go to the session's home directory. */
  lemma CdGoesHome(a: Nodes, s: Sess, argv: seq<string>)
    requires Rooted(a) && (argv == [] || (|argv| > 0 && argv[0] == "~"))
    ensures CdSpec(a, s, argv) == Ok(s.(prevDir := s.cwd, cwd := s.homedir))
  {
    if argv != [] {
      assert StartsWith(argv[0], "~");
    }
  }

  /** `cd ~user` goes to the home of the first user whose row does not carry `user` in its second field. */
  lemma CdTildeUser(a: Nodes, s: Sess, argv: seq<string>, t: Table, k: nat)
    requires Rooted(a) && |argv| > 0 && |argv[0]| > 1 && argv[0][0] == '~'
    requires DBRead(a, PASSWD) == Ok(t) && k < |t| && !Matches(t[k], ByName(argv[0][1..]))
    requires forall j :: 0 <= j < k ==> Matches(t[j], ByName(argv[0][1..]))
    ensures CdSpec(a, s, argv) == Ok(s.(prevDir := s.cwd, cwd := Cell(t[k], 5)))
  {
    assert StartsWith(argv[0], "~") by { assert argv[0][..1] == "~"; }
    GetUserFirstOther(t, ByName(argv[0][1..]), k);
  }

  /** `exit`: the exit code is `parseInt(argv[1])`, or 0 when that argument is absent or empty. */
  function ExitCode(argv: seq<string>): (r: Num)
    ensures |argv| < 2 ==> r == Finite(0)
  {
    if |argv| > 1 && argv[1] != "" then ParseInt(argv[1], 0) else Finite(0)
  }

  /** The code is read from the SECOND argument: `exit n` with `argv` = `[x, String(n)]` exits with `n`. */
  lemma ExitReadsSecondArgument(argv: seq<string>, n: int)
    requires |argv| >= 2 && argv[1] == IntToString(n)
    ensures ExitCode(argv) == Finite(n)
  {
    ParseIntOfIntToString(n, 0);
  }

  /** `pwd`: the process's directory and a newline go to standard output. */
  function PwdSpec(p: Proc): (r: Proc)
    ensures r == p.(out := Streams.Overwrite(p.out, p.outPos, Display(p.cwd) + "\n"))
  {
    p.(out := Streams.Overwrite(p.out, p.outPos, Display(p.cwd) + "\n"))
  }

  /** `[`: unless the last argument is `]`, an error goes to standard error and the exit code is -1; otherwise `test`, which does nothing. */
  function BracketSpec(p: Proc): (r: Proc)
  {
    if |p.argv| == 0 || p.argv[|p.argv| - 1] != "]" then
      p.(err := Streams.Overwrite(p.err, p.errPos, NO_MATCHING), exitCode := Some(Finite(-1)))
    else p
  }

  /** `[` sets the exit code -1 exactly when its last argument is not `]`, and never changes the arguments. */
  lemma BracketNeedsClosing(p: Proc)
    requires p.exitCode != Some(Finite(-1))
    ensures BracketSpec(p).exitCode == Some(Finite(-1)) <==> !(|p.argv| > 0 && p.argv[|p.argv| - 1] == "]")
    ensures BracketSpec(p).argv == p.argv && BracketSpec(p).out == p.out
  {
  }

  /** The file `.` reads: `argv[1]`, or `undefined` (an invalid path) when it is absent. */
  function ScriptPath(argv: seq<string>): PathArg
  {
    if |argv| > 1 then PStr(argv[1]) else POther("undefined")
  }

  /** `system.fs.read(file)`: the file's bytes, without the last one, decoded. */
  function Script(a: Nodes, argv: seq<string>): (r: Result<string>)
    requires Rooted(a)
    ensures |argv| < 2 ==> r == Err("invalid path: undefined")
  {
    match Vfs.Read(a, ROOT, ScriptPath(argv), None, None)
    case Err(e) => Err(e)
    case Ok(bytes) => Ok(Utf8.Decode(bytes))
  }

  // ---------------------------------------------------------------------------------------------
  // `bash` and the builtins that run further lines

  /** The process `createProcess(...argv)` makes for the session: no exit code and empty output streams. */
  function Fresh(argv: seq<string>, s: Sess): Proc
  {
    Proc(argv, s.cwd, None, "", 0, "", 0)
  }

  /** `process.exitCode ??= 0` after a builtin that returned. */
  function Settled(r: After): (r': After)
    ensures r'.status == r.status && r'.s == r.s && r'.spawned == r.spawned
    ensures r.status.Normal? ==> r'.p.exitCode.Some?
  {
    if r.status.Normal? && r.p.exitCode.None? then r.(p := r.p.(exitCode := Some(Finite(0)))) else r
  }

  /**
   * `bash(command, process, session)`: the line is scanned and its first word resolved as an
   * alias. A builtin runs on the process as it is (its arguments are the process's, not the
   * line's) and, when it returns, the exit code defaults to 0. Any other line only becomes the
   * process's arguments, after substitution.
   */
  function BashSpec(a: Nodes, command: string, s: Sess, p: Proc, fuel: nat): (r: After)
    requires Rooted(a)
    decreases fuel, 3
  {
    LineSpec(a, Tokens(command), s, p, fuel)
  }

  /** What `bash` does with the outcome of scanning its line. */
  function LineSpec(a: Nodes, lexed: Lexed, s: Sess, p: Proc, fuel: nat): (r: After)
    requires Rooted(a) && (lexed.Words? ==> |lexed.words| >= 1)
    decreases fuel, 2
  {
    match lexed
    case Throws(m) => After(s, p, 0, Threw(m))
    case Words(ws) =>
      var words := ResolveAliases(ws, s.aliases);
      match Named(words[0].text)
      case Some(c) => Settled(BuiltinSpec(a, c, s, p, fuel))
      case None => After(s, p.(argv := Substitutions(p.cwd, words)), 0, Normal)
  }

  /** The builtin `c` run on process `p` of session `s`. */
  function BuiltinSpec(a: Nodes, c: Command, s: Sess, p: Proc, fuel: nat): (r: After)
    requires Rooted(a)
    decreases fuel, 1
  {
    match c
    case Colon => After(s, p, 0, Normal)
    case Test => After(s, p, 0, Normal)
    case Dot => DotSpec(a, s, p, fuel)
    case Source => DotSpec(a, s, p, fuel)
    case Eval => EvalSpec(a, s, p, fuel)
    case Builtin => BuiltinCmdSpec(a, s, p, fuel)
    case Alias =>
      var r := AliasFrom(Aliased(s.aliases, p.out), p.outPos, p.argv);
      After(s.(aliases := r.aliases), p.(out := r.out), 0, Normal)
    case Unalias => After(s.(aliases := UnaliasFrom(s.aliases, p.argv)), p, 0, Normal)
    case Cd =>
      (match CdSpec(a, s, p.argv)
       case Err(e) => After(s, p, 0, Threw(e))
       case Ok(s') => After(s', p, 0, Normal))
    case Exit => After(s, p.(exitCode := Some(ExitCode(p.argv))), 0, Normal)
    case Pwd => After(s, PwdSpec(p), 0, Normal)
    case Bracket => After(s, BracketSpec(p), 0, Normal)
  }

  /** `.` (and `source`): the arguments lose their first two, then the file named by the second is run as a line. */
  function DotSpec(a: Nodes, s: Sess, p: Proc, fuel: nat): (r: After)
    requires Rooted(a)
    decreases fuel, 0
  {
    var p' := p.(argv := Drop(p.argv, 2));
    match Script(a, p.argv)
    case Err(e) => After(s, p', 0, Threw(e))
    case Ok(text) => if fuel == 0 then After(s, p', 0, NoFuel) else BashSpec(a, text, s, p', Below(fuel))
  }

  /** `eval`: the arguments after the first, joined with spaces, run as a line with the arguments emptied. */
  function EvalSpec(a: Nodes, s: Sess, p: Proc, fuel: nat): (r: After)
    requires Rooted(a)
    decreases fuel, 0
  {
    var p' := p.(argv := []);
    if fuel == 0 then After(s, p', 0, NoFuel) else BashSpec(a, Join(Drop(p.argv, 1), " "), s, p', Below(fuel))
  }

  /**
   * `builtin`: a new process gets the arguments after the first, then the builtin the first
   * names runs on it; only its effect on the session is seen. The process is made before the
   * lookup fails, so a missing builtin still adds one.
   */
  function BuiltinCmdSpec(a: Nodes, s: Sess, p: Proc, fuel: nat): (r: After)
    requires Rooted(a)
    decreases fuel, 0
  {
    if |p.argv| == 0 || Named(p.argv[0]).None? then After(s, p, 1, Threw(NOT_A_FUNCTION))
    else if fuel == 0 then After(s, p, 1, NoFuel)
    else
      var r := BuiltinSpec(a, Named(p.argv[0]).value, s, Fresh(Drop(p.argv, 1), s), Below(fuel));
      After(r.s, p, r.spawned + 1, r.status)
  }

  // ---------------------------------------------------------------------------------------------
  // `run`

  /** The path `run` tries for `name` with the directory `dir`: `resolve(dir, name)`. */
  function Candidate(dir: string, name: string): (r: string)
    ensures r == "/" + name
  {
    Resolve(dir, [name])
  }

  /** `fs.exists(path)` holds. */
  predicate Present(a: Nodes, path: string)
    requires Rooted(a)
  {
    Vfs.Exists(a, ROOT, PStr(path)) == Ok(true)
  }

  /** The first candidate of `dirs` that exists, as the loop over the `PATH` entries finds it. */
  function Locate(a: Nodes, name: string, dirs: seq<string>): (r: Option<string>)
    requires Rooted(a)
    ensures r.Some? ==> Present(a, r.value)
    decreases |dirs|
  {
    if |dirs| == 0 then None
    else if Present(a, Candidate(dirs[0], name)) then Some(Candidate(dirs[0], name))
    else Locate(a, name, dirs[1..])
  }

  /** Where `run` finds the command `name`: next to the working directory, else along `PATH`. */
  function Found(a: Nodes, cwd: Option<string>, env: map<string, string>, name: string): (r: Result<string>)
    requires Rooted(a)
  {
    var first := Candidate(Display(cwd), name);
    if Present(a, first) then Ok(first)
    else if "PATH" !in env then Err(NO_PATH)
    else match Locate(a, name, Split(env["PATH"], ':'))
      case Some(path) => Ok(path)
      case None => Err(name + " does not exist")
  }

  /** Every `PATH` entry names the same candidate, so the search finds something only when there is at least one entry and `/name` exists. */
  lemma {:induction false} LocateOnlyRoot(a: Nodes, name: string, dirs: seq<string>)
    requires Rooted(a)
    ensures Locate(a, name, dirs) == if |dirs| > 0 && Present(a, "/" + name) then Some("/" + name) else None
    decreases |dirs|
  {
    if |dirs| > 0 {
      LocateOnlyRoot(a, name, dirs[1..]);
    }
  }

  /**
   * A command is looked up as `/name` only: neither the working directory nor the `PATH`
   * entries take part, so `/bin/ls` is not found as `ls`.
   */
  lemma FoundOnlyAtRoot(a: Nodes, cwd: Option<string>, env: map<string, string>, name: string)
    requires Rooted(a)
    ensures Found(a, cwd, env, name) ==
      if Present(a, "/" + name) then Ok("/" + name)
      else if "PATH" !in env then Err(NO_PATH)
      else Err(name + " does not exist")
  {
    if "PATH" in env {
      LocateOnlyRoot(a, name, Split(env["PATH"], ':'));
    }
  }

  /** What `run` comes to: a device to execute, an error (with the arguments as they were then), or the model's bound on `#!` chains reached. */
  datatype Launch = Execute(argv: seq<string>, device: Id) | Refused(argv: seq<string>, msg: string) | Exhausted(argv: seq<string>)

  /**
   * The arguments after a `#!` line: the interpreter (and the one argument after its first
   * space), then the text from the first newline on, then the old arguments. Without a newline
   * the interpreter loses its last character and the text is that character.
   */
  function Shebang(text: string, argv: seq<string>): (r: seq<string>)
    ensures |r| >= |argv| + 2 && r[|r| - |argv|..] == argv
  {
    var index := IndexOf(text, '\n');
    var line := Slice(text, 2, index);
    var rest := SliceFrom(text, index);
    if ' ' in line then
      var k := IndexOf(line, ' ');
      [Slice(line, 0, k), SliceFrom(line, k + 1), rest] + argv
    else [line, rest] + argv
  }

  /** `normalize(resolve(argv[0]))` followed by ` is not executable`. */
  function NotExecutable(argv: seq<string>): string
  {
    NormalizeSpec(Resolve(Display(Arg(argv, 0)), [])) + " is not executable"
  }

  /** One pass of `run`: it ends with what it came to, or the arguments of a `#!` file are run again. */
  datatype Step = Stop(launch: Launch) | Again(argv: seq<string>)

  /**
   * One pass of `run(process)`: the command is found, a device is executed, a file starting with
   * `#!` gives the rewritten arguments to run again, anything else is refused.
   */
  function RunStep(a: Nodes, cwd: Option<string>, env: map<string, string>, argv: seq<string>): (r: Step)
    requires Rooted(a)
    ensures r.Stop? ==> r.launch.argv == argv
  {
    match Found(a, cwd, env, Display(Arg(argv, 0)))
    case Err(e) => Stop(Refused(argv, e))
    case Ok(path) =>
      match Get(a, ROOT, PStr(path))
      case Err(e) => Stop(Refused(argv, e))
      case Ok(id) =>
        if a[id].kind.Device? then Stop(Execute(argv, id))
        else if a[id].kind.Regular? && StartsWith(Utf8.Decode(a[id].kind.data), "#!") then
          Again(Shebang(Utf8.Decode(a[id].kind.data), argv))
        else Stop(Refused(argv, NotExecutable(argv)))
  }

  /** `run(process)`: passes of `RunStep` until one ends, each `#!` file costing one unit of fuel. */
  function RunSpec(a: Nodes, cwd: Option<string>, env: map<string, string>, argv: seq<string>, fuel: nat): (r: Launch)
    requires Rooted(a)
    decreases fuel
  {
    match RunStep(a, cwd, env, argv)
    case Stop(l) => l
    case Again(argv') => if fuel == 0 then Exhausted(argv') else RunSpec(a, cwd, env, argv', Below(fuel))
  }

  // ---------------------------------------------------------------------------------------------
  // The `/bin/bash` device and `runBash`

  /** A line's outcome, and what `run` came to when it was called. */
  datatype Ran = Ran(after: After, launch: Option<Launch>)

  /** `run(process)` once a line has returned: what it comes to, and the process left with the arguments `run` last gave it. */
  function Launched(a: Nodes, r: After, env: map<string, string>, fuel: nat): Ran
    requires Rooted(a)
  {
    var l := RunSpec(a, r.p.cwd, env, r.p.argv, fuel);
    Ran(r.(p := r.p.(argv := l.argv)), Some(l))
  }

  /** The `/bin/bash` executor: the process's arguments joined with spaces run as a line; unless that set an exit code, the process is run. Nothing is caught. */
  function ExecutorSpec(a: Nodes, s: Sess, p: Proc, env: map<string, string>, fuel: nat): (r: Ran)
    requires Rooted(a)
  {
    var r := BashSpec(a, Join(p.argv, " "), s, p, fuel);
    if r.status.Normal? && r.p.exitCode.None? then Launched(a, r, env, fuel) else Ran(r, None)
  }

  /** What `runBash` writes for a caught error. */
  function Reported(p: Proc, msg: string): Proc
  {
    p.(err := Streams.Overwrite(p.err, p.errPos, "bash: error: " + msg + "\n"))
  }

  /**
   * `runBash(command)`: a new process with no arguments runs the line; an error it throws is
   * written to standard error; then, unless the exit code is set, the process is run, outside
   * the `try`.
   */
  function RunBashSpec(a: Nodes, s: Sess, command: string, fuel: nat): (r: Ran)
    requires Rooted(a)
  {
    Concluded(a, BashSpec(a, command, s, Fresh([], s), fuel), fuel)
  }

  /** What `runBash` does once the line has returned or thrown. */
  function Concluded(a: Nodes, r: After, fuel: nat): Ran
    requires Rooted(a)
  {
    if r.status.NoFuel? then Ran(r, None)
    else
      var r' := if r.status.Threw? then r.(p := Reported(r.p, r.status.msg)) else r;
      if r'.p.exitCode.None? then Launched(a, r', DEFAULT_ENV, fuel) else Ran(r', None)
  }

  // ---------------------------------------------------------------------------------------------
  // What a line does

  /** A line of plain words separated by single spaces. */
  predicate PlainLine(ws: seq<string>)
  {
    |ws| >= 1 && forall k :: 0 <= k < |ws| ==> PlainWord(ws[k])
  }

  /** The words of a plain line, with its first word not an alias, reach the dispatch as they are. */
  lemma LineWords(ws: seq<string>, aliases: map<string, string>)
    requires PlainLine(ws) && ws[0] !in aliases
    ensures Tokens(Join(ws, " ")) == Words(Unquoted(ws))
    ensures ResolveAliases(Unquoted(ws), aliases) == Unquoted(ws)
  {
    SpaceSeparated(ws);
  }

  /** A line naming a builtin runs it on the process as it is, whatever the rest of the line. */
  lemma BuiltinLine(a: Nodes, s: Sess, p: Proc, ws: seq<string>, c: Command, fuel: nat)
    requires Rooted(a) && PlainLine(ws) && ws[0] !in s.aliases && ws[0] == NameOf(c)
    ensures BashSpec(a, Join(ws, " "), s, p, fuel) == Settled(BuiltinSpec(a, c, s, p, fuel))
  {
    LineWords(ws, s.aliases);
    NamedNameOf(c);
    assert BashSpec(a, Join(ws, " "), s, p, fuel) == LineSpec(a, Words(Unquoted(ws)), s, p, fuel);
  }

  /** Two lines with the same builtin first do the same, as the builtin never sees the line's other words. */
  lemma BuiltinIgnoresLine(a: Nodes, s: Sess, p: Proc, ws: seq<string>, ws': seq<string>, c: Command, fuel: nat)
    requires Rooted(a) && PlainLine(ws) && PlainLine(ws') && ws[0] !in s.aliases && ws[0] == ws'[0] == NameOf(c)
    ensures BashSpec(a, Join(ws, " "), s, p, fuel) == BashSpec(a, Join(ws', " "), s, p, fuel)
  {
    BuiltinLine(a, s, p, ws, c, fuel);
    BuiltinLine(a, s, p, ws', c, fuel);
  }

  /** A line whose first word is no builtin and no alias only sets the arguments, and leaves the exit code unset. */
  lemma CommandLine(a: Nodes, s: Sess, p: Proc, ws: seq<string>, fuel: nat)
    requires Rooted(a) && PlainLine(ws) && ws[0] !in s.aliases && Named(ws[0]).None?
    ensures BashSpec(a, Join(ws, " "), s, p, fuel) == After(s, p.(argv := Substitutions(p.cwd, Unquoted(ws))), 0, Normal)
  {
    LineWords(ws, s.aliases);
    assert BashSpec(a, Join(ws, " "), s, p, fuel) == LineSpec(a, Words(Unquoted(ws)), s, p, fuel);
  }

  /** Under `runBash` the process has no arguments, so `cd dir` goes to the home directory. */
  lemma RunBashCdGoesHome(a: Nodes, s: Sess, ws: seq<string>, fuel: nat)
    requires Rooted(a) && PlainLine(ws) && ws[0] == "cd" && "cd" !in s.aliases
    ensures RunBashSpec(a, s, Join(ws, " "), fuel) ==
      Ran(After(s.(prevDir := s.cwd, cwd := s.homedir), Fresh([], s).(exitCode := Some(Finite(0))), 0, Normal), None)
  {
    BuiltinLine(a, s, Fresh([], s), ws, Cd, fuel);
    CdGoesHome(a, s, []);
  }

  /** Under `runBash`, `exit n` exits with 0. */
  lemma RunBashExitIsZero(a: Nodes, s: Sess, ws: seq<string>, fuel: nat)
    requires Rooted(a) && PlainLine(ws) && ws[0] == "exit" && "exit" !in s.aliases
    ensures RunBashSpec(a, s, Join(ws, " "), fuel) == Ran(After(s, Fresh([], s).(exitCode := Some(Finite(0))), 0, Normal), None)
  {
    BuiltinLine(a, s, Fresh([], s), ws, Exit, fuel);
  }

  /** Under `runBash`, `alias name=value` defines nothing. */
  lemma RunBashAliasDefinesNothing(a: Nodes, s: Sess, ws: seq<string>, fuel: nat)
    requires Rooted(a) && PlainLine(ws) && ws[0] == "alias" && "alias" !in s.aliases
    ensures RunBashSpec(a, s, Join(ws, " "), fuel).after.s == s
  {
    BuiltinLine(a, s, Fresh([], s), ws, Alias, fuel);
  }

  /**
   * Under `runBash`, `. file` always throws, as the file name is read from the process's empty
   * arguments; the error is reported and the process is then run with no arguments.
   */
  lemma RunBashDotFails(a: Nodes, s: Sess, ws: seq<string>, fuel: nat)
    requires Rooted(a) && PlainLine(ws) && ws[0] == "." && "." !in s.aliases
    ensures RunBashSpec(a, s, Join(ws, " "), fuel) ==
      Launched(a, After(s, Reported(Fresh([], s), "invalid path: undefined"), 0, Threw("invalid path: undefined")), DEFAULT_ENV, fuel)
  {
    BuiltinLine(a, s, Fresh([], s), ws, Dot, fuel);
  }

  /**
   * Under `runBash`, a line that opens a single quote and never closes it throws the engine's
   * `RangeError` for a string that is too long; the error is reported on standard error and the
   * process, with no arguments, is then run.
   */
  lemma RunBashUnclosedQuote(a: Nodes, s: Sess, w: string, fuel: nat)
    requires Rooted(a) && forall k :: 0 <= k < |w| ==> w[k] != '\'' && w[k] != '#'
    ensures RunBashSpec(a, s, "'" + w, fuel) ==
      Launched(a, After(s, Reported(Fresh([], s), STRING_TOO_LONG), 0, Threw(STRING_TOO_LONG)), DEFAULT_ENV, fuel)
  {
    UnclosedQuoteThrows(w);
    var r := BashSpec(a, "'" + w, s, Fresh([], s), fuel);
    assert r == LineSpec(a, Throws(STRING_TOO_LONG), s, Fresh([], s), fuel);
    assert Reported(r.p, STRING_TOO_LONG).exitCode.None?;
  }

  /** Under `runBash`, a command is run from the root: with no `/name`, it does not exist, wherever `PATH` points. */
  lemma RunBashCommandNotAtRoot(a: Nodes, s: Sess, ws: seq<string>, fuel: nat)
    requires Rooted(a) && PlainLine(ws) && ws[0] !in s.aliases && Named(ws[0]).None? && !Present(a, "/" + ws[0])
    ensures RunBashSpec(a, s, Join(ws, " "), fuel).launch ==
      Some(Refused(Substitutions(s.cwd, Unquoted(ws)), ws[0] + " does not exist"))
  {
    var argv := Substitutions(s.cwd, Unquoted(ws));
    RunBashOfCommand(a, s, ws, fuel);
    DefaultPath();
    FoundOnlyAtRoot(a, s.cwd, DEFAULT_ENV, ws[0]);
    RunNotFound(a, s.cwd, DEFAULT_ENV, argv, fuel, ws[0] + " does not exist");
  }

  /** Under `runBash`, a command line ends in `run` with the substituted words as arguments. */
  lemma RunBashOfCommand(a: Nodes, s: Sess, ws: seq<string>, fuel: nat)
    requires Rooted(a) && PlainLine(ws) && ws[0] !in s.aliases && Named(ws[0]).None?
    ensures RunBashSpec(a, s, Join(ws, " "), fuel).launch == Some(RunSpec(a, s.cwd, DEFAULT_ENV, Substitutions(s.cwd, Unquoted(ws)), fuel))
  {
    var p := Fresh([], s);
    var r := After(s, p.(argv := Substitutions(s.cwd, Unquoted(ws))), 0, Normal);
    CommandLine(a, s, p, ws, fuel);
    ConcludedNormal(a, r, fuel);
  }

  /** A line that returned without setting an exit code is run, with the default environment. */
  lemma ConcludedNormal(a: Nodes, r: After, fuel: nat)
    requires Rooted(a) && r.status == Normal && r.p.exitCode.None?
    ensures Concluded(a, r, fuel) == Launched(a, r, DEFAULT_ENV, fuel)
  {
  }

  lemma DefaultPath()
    ensures "PATH" in DEFAULT_ENV
  {
  }

  /** A command that is not found is refused with the lookup's error. */
  lemma RunNotFound(a: Nodes, cwd: Option<string>, env: map<string, string>, argv: seq<string>, fuel: nat, e: string)
    requires Rooted(a) && Found(a, cwd, env, Display(Arg(argv, 0))) == Err(e)
    ensures RunSpec(a, cwd, env, argv, fuel) == Refused(argv, e)
  {
  }

  /**
   * The `/bin/bash` executor given a single command that is no builtin runs the process again
   * with the same arguments, so a device found that way is executed once more.
   */
  lemma ExecutorRunsAgain(a: Nodes, s: Sess, p: Proc, env: map<string, string>, name: string, fuel: nat)
    requires Rooted(a) && PlainWord(name) && name !in s.aliases && Named(name).None? && p.argv == [name] && p.exitCode.None?
    ensures ExecutorSpec(a, s, p, env, fuel).launch == Some(RunSpec(a, p.cwd, env, [name], fuel))
  {
    assert Join([name], " ") == name;
    CommandLine(a, s, p, [name], fuel);
    assert Substitutions(p.cwd, Unquoted([name])) == [name];
  }

  /** A `#!` line without a space: the interpreter, then the text from the newline, then the old arguments. */
  lemma ShebangPlain(interp: string, body: string, argv: seq<string>)
    requires ' ' !in interp && '\n' !in interp
    ensures Shebang("#!" + interp + "\n" + body, argv) == [interp, "\n" + body] + argv
  {
    var text := "#!" + interp + "\n" + body;
    var n := |interp| + 2;
    ShebangLine(text, interp, body);
    assert Slice(text, 2, n) == interp;
    assert SliceFrom(text, n) == "\n" + body;
  }

  /** A `#!` line with a space: the interpreter, its one argument (the rest of the line), the text from the newline, the old arguments. */
  lemma ShebangArgument(prog: string, arg: string, body: string, argv: seq<string>)
    requires ' ' !in prog && '\n' !in prog && '\n' !in arg
    ensures Shebang("#!" + (prog + " " + arg) + "\n" + body, argv) == [prog, arg, "\n" + body] + argv
  {
    var line := prog + " " + arg;
    var text := "#!" + line + "\n" + body;
    assert '\n' !in line by {
      assert forall k :: 0 <= k < |line| ==> line[k] == (if k < |prog| then prog[k] else if k == |prog| then ' ' else arg[k - |prog| - 1]);
    }
    ShebangLine(text, line, body);
    assert Slice(text, 2, |line| + 2) == line;
    SpaceAt(line, prog, arg);
  }

  /** Where the newline of a `#!` text is, and what comes before and after it. */
  lemma ShebangLine(text: string, line: string, body: string)
    requires text == "#!" + line + "\n" + body && '\n' !in line
    ensures IndexOf(text, '\n') == |line| + 2
    ensures Slice(text, 2, |line| + 2) == line
    ensures SliceFrom(text, |line| + 2) == "\n" + body
  {
    var n := |line| + 2;
    assert text[n] == '\n';
    assert text[..n] == "#!" + line;
    assert '\n' !in text[..n] by {
      forall k | 0 <= k < n ensures text[k] != '\n' {
        if k >= 2 {
          assert text[k] == line[k - 2];
        }
      }
    }
    assert text[2..n] == line;
    assert text[n..] == "\n" + body;
  }

  /** The first space of `prog + " " + arg`, for `prog` without one. */
  lemma SpaceAt(line: string, prog: string, arg: string)
    requires line == prog + " " + arg && ' ' !in prog
    ensures ' ' in line && IndexOf(line, ' ') == |prog|
    ensures Slice(line, 0, |prog|) == prog && SliceFrom(line, |prog| + 1) == arg
  {
    assert line[|prog|] == ' ';
    assert line[..|prog|] == prog;
    assert line[|prog| + 1..] == arg;
  }

  // ---------------------------------------------------------------------------------------------
  // The shell on the session and process objects

  /** The session as the shell sees it. */
  function SessOf(u: UserSession): Sess
    reads u
  {
    Sess(u.cwd, u.prevDir, u.homedir, u.aliases)
  }

  /** The process as the shell sees it. */
  function ProcOf(p: Process): Proc
    reads p, p.stdout, p.stderr
  {
    Proc(p.argv, p.cwd, p.exitCode, p.stdout.data, p.stdout.pos, p.stderr.data, p.stderr.pos)
  }

  /** What the shell needs: a consistent system whose user manager reads its file system, and two distinct output streams. */
  ghost predicate Ready(u: UserSession, p: Process)
    reads u.system, u.system.fs
  {
    u.system.Valid() && u.system.fs.Valid() && u.system.um.fs == u.system.fs && p.stdout != p.stderr
  }

  /** A line only appends processes: the ones made before it stay where they were. */
  twostate predicate Kept(u: UserSession)
    reads u, u.system
  {
    old(u.system.processes) <= u.system.processes
  }

  /** The `alias` builtin: one pass over the process's arguments, updating the session's aliases in place. */
  method RunAlias(p: Process, u: UserSession)
    modifies u`aliases, p.stdout`data
    ensures Aliased(u.aliases, p.stdout.data) == AliasFrom(Aliased(old(u.aliases), old(p.stdout.data)), p.stdout.pos, p.argv)
    ensures p.stdout.pos == old(p.stdout.pos) && p.stdout.listeners == old(p.stdout.listeners)
  {
    var i := 0;
    while i < |p.argv|
      invariant 0 <= i <= |p.argv|
      invariant p.stdout.pos == old(p.stdout.pos) && p.stdout.listeners == old(p.stdout.listeners)
      invariant AliasFrom(Aliased(u.aliases, p.stdout.data), p.stdout.pos, p.argv[i..])
             == AliasFrom(Aliased(old(u.aliases), old(p.stdout.data)), p.stdout.pos, p.argv)
    {
      assert p.argv[i..][1..] == p.argv[i + 1..];
      var arg := p.argv[i];
      if arg == "-p" {
      } else if '=' in arg {
        SplitOnEquals(arg);
        var parts := Split(arg, '=');
        u.aliases := u.aliases[parts[0] := parts[1]];
      } else {
        var calls := p.stdout.Write(arg + "=" + Display(Lookup(u.aliases, arg)) + "\n");
      }
      i := i + 1;
    }
  }

  /** The `unalias` builtin: each argument's alias is deleted in turn, until a `-a` replaces them all with none. */
  method RunUnalias(p: Process, u: UserSession)
    modifies u`aliases
    ensures u.aliases == UnaliasFrom(old(u.aliases), p.argv)
  {
    var i := 0;
    while i < |p.argv|
      invariant 0 <= i <= |p.argv|
      invariant UnaliasFrom(u.aliases, p.argv[i..]) == UnaliasFrom(old(u.aliases), p.argv)
    {
      assert p.argv[i..][1..] == p.argv[i + 1..];
      if p.argv[i] == "-a" {
        u.aliases := map[];
        return;
      }
      u.aliases := u.aliases - {p.argv[i]};
      i := i + 1;
    }
  }

  /** The `cd` builtin on the session: the new and previous directories, or the error of the user lookup with nothing changed. */
  method RunCd(p: Process, u: UserSession) returns (st: Status)
    requires u.system.fs.Valid() && u.system.um.fs == u.system.fs
    modifies u`cwd, u`prevDir
    ensures match CdSpec(u.system.fs.nodes, old(SessOf(u)), p.argv)
            case Err(e) => st == Threw(e) && SessOf(u) == old(SessOf(u))
            case Ok(s') => st == Normal && SessOf(u) == s'
  {
    var arg := Arg(p.argv, 0);
    var cwd: Option<string>;
    if arg.None? {
      cwd := u.homedir;
    } else if StartsWith(arg.value, "~") {
      if |arg.value| == 1 {
        cwd := u.homedir;
      } else {
        var user := u.system.um.GetUserData(ByName(arg.value[1..]));
        if user.Err? {
          return Threw(user.msg);
        }
        cwd := user.value.homedir;
      }
    } else if arg.value == "-" {
      cwd := u.prevDir;
    } else {
      cwd := arg;
    }
    u.prevDir := u.cwd;
    u.cwd := cwd;
    st := Normal;
  }

  /** `bash(command, process, session)` on the objects, as `BashSpec` states it. */
  method Bash(command: string, p: Process, u: UserSession, fuel: nat) returns (st: Status)
    requires Ready(u, p)
    modifies u`cwd, u`prevDir, u`aliases, u.system`processes, p`argv, p`exitCode, p.stdout`data, p.stderr`data
    ensures Ready(u, p) && Kept(u)
    ensures After(SessOf(u), ProcOf(p), |u.system.processes| - |old(u.system.processes)|, st)
         == BashSpec(u.system.fs.nodes, command, old(SessOf(u)), old(ProcOf(p)), fuel)
    decreases fuel, 2
  {
    var lexed := Tokenize(command);
    assert BashSpec(u.system.fs.nodes, command, SessOf(u), ProcOf(p), fuel) == LineSpec(u.system.fs.nodes, lexed, SessOf(u), ProcOf(p), fuel);
    if lexed.Throws? {
      return Threw(lexed.msg);
    }
    var words := lexed.words;
    var replaced := Lookup(u.aliases, words[0].text);
    if replaced.Some? {
      words := words[0 := words[0].(text := replaced.value)];
    }
    assert words == ResolveAliases(lexed.words, u.aliases);
    var c := Named(words[0].text);
    if c.Some? {
      st := RunBuiltin(c.value, p, u, fuel);
      if st.Normal? && p.exitCode.None? {
        p.exitCode := Some(Finite(0));
      }
    } else {
      var argv := SubstitutionsLoop(p.cwd, words);
      p.argv := argv;
      st := Normal;
    }
  }

  /** The builtin `c` on the objects, as `BuiltinSpec` states it. */
  method RunBuiltin(c: Command, p: Process, u: UserSession, fuel: nat) returns (st: Status)
    requires Ready(u, p)
    modifies u`cwd, u`prevDir, u`aliases, u.system`processes, p`argv, p`exitCode, p.stdout`data, p.stderr`data
    ensures Ready(u, p) && Kept(u)
    ensures After(SessOf(u), ProcOf(p), |u.system.processes| - |old(u.system.processes)|, st)
         == BuiltinSpec(u.system.fs.nodes, c, old(SessOf(u)), old(ProcOf(p)), fuel)
    decreases fuel, 1
  {
    match c
    case Colon =>
      st := Normal;
    case Test =>
      st := Normal;
    case Dot =>
      st := RunDot(p, u, fuel);
    case Source =>
      st := RunDot(p, u, fuel);
    case Eval =>
      st := RunEval(p, u, fuel);
    case Builtin =>
      st := RunBuiltinCommand(p, u, fuel);
    case Alias =>
      RunAlias(p, u);
      st := Normal;
    case Unalias =>
      RunUnalias(p, u);
      st := Normal;
    case Cd =>
      st := RunCd(p, u);
    case Exit =>
      p.exitCode := Some(ExitCode(p.argv));
      st := Normal;
    case Pwd =>
      var calls := p.stdout.Write(Display(p.cwd) + "\n");
      st := Normal;
    case Bracket =>
      if |p.argv| == 0 || p.argv[|p.argv| - 1] != "]" {
        var calls := p.stderr.Write(NO_MATCHING);
        p.exitCode := Some(Finite(-1));
      }
      st := Normal;
  }

  /** The `.` builtin on the objects, as `DotSpec` states it. */
  method RunDot(p: Process, u: UserSession, fuel: nat) returns (st: Status)
    requires Ready(u, p)
    modifies u`cwd, u`prevDir, u`aliases, u.system`processes, p`argv, p`exitCode, p.stdout`data, p.stderr`data
    ensures Ready(u, p) && Kept(u)
    ensures After(SessOf(u), ProcOf(p), |u.system.processes| - |old(u.system.processes)|, st)
         == DotSpec(u.system.fs.nodes, old(SessOf(u)), old(ProcOf(p)), fuel)
    decreases fuel, 0
  {
    ghost var argv := p.argv;
    var file := ScriptPath(p.argv);
    p.argv := Drop(p.argv, 2);
    var text := ReadScript(u, argv, file);
    if text.Err? {
      return Threw(text.msg);
    }
    if fuel == 0 {
      return NoFuel;
    }
    st := Bash(text.value, p, u, Below(fuel));
  }

  /** `system.fs.read(file)` decoded, for the file the arguments `argv` name. */
  method ReadScript(u: UserSession, ghost argv: seq<string>, file: PathArg) returns (r: Result<string>)
    requires u.system.fs.Valid() && file == ScriptPath(argv)
    ensures r == Script(u.system.fs.nodes, argv)
  {
    var bytes := u.system.fs.Read(ROOT, file, None, None);
    if bytes.Err? {
      return Err(bytes.msg);
    }
    r := Ok(Utf8.Decode(bytes.value));
  }

  /** The `eval` builtin on the objects, as `EvalSpec` states it. */
  method RunEval(p: Process, u: UserSession, fuel: nat) returns (st: Status)
    requires Ready(u, p)
    modifies u`cwd, u`prevDir, u`aliases, u.system`processes, p`argv, p`exitCode, p.stdout`data, p.stderr`data
    ensures Ready(u, p) && Kept(u)
    ensures After(SessOf(u), ProcOf(p), |u.system.processes| - |old(u.system.processes)|, st)
         == EvalSpec(u.system.fs.nodes, old(SessOf(u)), old(ProcOf(p)), fuel)
    decreases fuel, 0
  {
    var command := Join(Drop(p.argv, 1), " ");
    p.argv := [];
    if fuel == 0 {
      return NoFuel;
    }
    st := Bash(command, p, u, Below(fuel));
  }

  /** The `builtin` builtin on the objects, as `BuiltinCmdSpec` states it: the new process is appended first. */
  method RunBuiltinCommand(p: Process, u: UserSession, fuel: nat) returns (st: Status)
    requires Ready(u, p)
    modifies u`cwd, u`prevDir, u`aliases, u.system`processes, p`argv, p`exitCode, p.stdout`data, p.stderr`data
    ensures Ready(u, p) && Kept(u)
    ensures After(SessOf(u), ProcOf(p), |u.system.processes| - |old(u.system.processes)|, st)
         == BuiltinCmdSpec(u.system.fs.nodes, old(SessOf(u)), old(ProcOf(p)), fuel)
    decreases fuel, 0
  {
    var c := if |p.argv| == 0 then None else Named(p.argv[0]);
    var q := u.CreateProcess(Drop(p.argv, 1));
    if c.None? {
      return Threw(NOT_A_FUNCTION);
    }
    if fuel == 0 {
      return NoFuel;
    }
    st := RunBuiltin(c.value, q, u, Below(fuel));
  }

  /** The search at the start of `run`: the command next to the working directory, else in each `PATH` entry in turn. */
  method Which(p: Process, u: UserSession) returns (r: Result<string>)
    requires u.system.fs.Valid()
    ensures r == Found(u.system.fs.nodes, p.cwd, p.env, Display(Arg(p.argv, 0)))
  {
    var fs := u.system.fs;
    var name := Display(Arg(p.argv, 0));
    var argv0 := Resolve(Display(p.cwd), [name]);
    var present := fs.Exists(ROOT, PStr(argv0));
    if present == Ok(true) {
      return Ok(argv0);
    }
    if "PATH" !in p.env {
      return Err(NO_PATH);
    }
    var dirs := Split(p.env["PATH"], ':');
    var i := 0;
    while i < |dirs|
      invariant 0 <= i <= |dirs|
      invariant Locate(fs.nodes, name, dirs) == Locate(fs.nodes, name, dirs[i..])
    {
      argv0 := Resolve(dirs[i], [name]);
      present := fs.Exists(ROOT, PStr(argv0));
      if present == Ok(true) {
        return Ok(argv0);
      }
      assert dirs[i..][1..] == dirs[i + 1..];
      i := i + 1;
    }
    assert dirs[i..] == [];
    r := Err(name + " does not exist");
  }

  /** `run(process)` on the objects, as `RunSpec` states it; only the arguments change. */
  method Run(p: Process, u: UserSession, fuel: nat) returns (r: Launch)
    requires u.system.fs.Valid()
    modifies p`argv
    ensures r == RunSpec(u.system.fs.nodes, p.cwd, p.env, old(p.argv), fuel) && p.argv == r.argv
    decreases fuel
  {
    var step := Pass(p, u);
    match step
    case Stop(l) =>
      r := l;
    case Again(argv) =>
      p.argv := argv;
      if fuel == 0 {
        return Exhausted(argv);
      }
      r := Run(p, u, Below(fuel));
  }

  /** One pass of `run` on the objects, as `RunStep` states it. */
  method Pass(p: Process, u: UserSession) returns (r: Step)
    requires u.system.fs.Valid()
    ensures r == RunStep(u.system.fs.nodes, p.cwd, p.env, p.argv)
  {
    var fs := u.system.fs;
    var argv0 := Which(p, u);
    if argv0.Err? {
      return Stop(Refused(p.argv, argv0.msg));
    }
    var file := fs.Get(ROOT, PStr(argv0.value));
    if file.Err? {
      return Stop(Refused(p.argv, file.msg));
    }
    var kind := fs.nodes[file.value].kind;
    if kind.Device? {
      return Stop(Execute(p.argv, file.value));
    }
    if kind.Regular? {
      var data := Utf8.Decode(kind.data);
      if StartsWith(data, "#!") {
        return Again(Shebang(data, p.argv));
      }
    }
    r := Stop(Refused(p.argv, NotExecutable(p.argv)));
  }

  /** The `/bin/bash` executor on the objects, as `ExecutorSpec` states it. */
  method BashExecutor(p: Process, u: UserSession, fuel: nat) returns (st: Status, launch: Option<Launch>)
    requires Ready(u, p)
    modifies u`cwd, u`prevDir, u`aliases, u.system`processes, p`argv, p`exitCode, p.stdout`data, p.stderr`data
    ensures Ready(u, p) && Kept(u)
    ensures Ran(After(SessOf(u), ProcOf(p), |u.system.processes| - |old(u.system.processes)|, st), launch)
         == ExecutorSpec(u.system.fs.nodes, old(SessOf(u)), old(ProcOf(p)), old(p.env), fuel)
  {
    st := Bash(Join(p.argv, " "), p, u, fuel);
    launch := None;
    if st.Normal? {
      launch := RunUnlessSet(p, u, SessOf(u), |u.system.processes| - |old(u.system.processes)|, st, fuel);
    }
  }

  /**
   * `session.runBash(command)`: the process it makes is the first one appended, and the line's
   * outcome, what it spawned after it, and what `run` came to are as `RunBashSpec` states.
   */
  method RunBash(u: UserSession, command: string, fuel: nat) returns (p: Process, st: Status, launch: Option<Launch>)
    requires u.system.Valid() && u.system.fs.Valid() && u.system.um.fs == u.system.fs
    modifies u`cwd, u`prevDir, u`aliases, u.system`processes
    ensures fresh(p) && u.system.Valid()
    ensures old(u.system.processes) + [p] <= u.system.processes
    ensures Ran(After(SessOf(u), ProcOf(p), |u.system.processes| - |old(u.system.processes)| - 1, st), launch)
         == RunBashSpec(u.system.fs.nodes, old(SessOf(u)), command, fuel)
  {
    ghost var spawned: nat;
    p, st, spawned := RunLine(u, command, fuel);
    launch := Conclude(p, u, spawned, st, fuel);
  }

  /** The part of `runBash` inside the `try`: a new process with no arguments runs the line. */
  method RunLine(u: UserSession, command: string, fuel: nat) returns (p: Process, st: Status, ghost spawned: nat)
    requires u.system.Valid() && u.system.fs.Valid() && u.system.um.fs == u.system.fs
    modifies u`cwd, u`prevDir, u`aliases, u.system`processes
    ensures fresh(p) && u.system.Valid()
    ensures old(u.system.processes) + [p] <= u.system.processes
    ensures spawned == |u.system.processes| - |old(u.system.processes)| - 1
    ensures fresh(p.stdout) && fresh(p.stderr) && p.env == DEFAULT_ENV && p.stdout != p.stderr
    ensures After(SessOf(u), ProcOf(p), spawned, st) == BashSpec(u.system.fs.nodes, command, old(SessOf(u)), Fresh([], old(SessOf(u))), fuel)
  {
    p := u.CreateProcess([]);
    ghost var start := |u.system.processes|;
    st := Bash(command, p, u, fuel);
    spawned := |u.system.processes| - start;
  }

  /** The end of `runBash`: a thrown error is reported on standard error, then the process is run unless it has an exit code. */
  method Conclude(p: Process, u: UserSession, ghost spawned: nat, st: Status, fuel: nat) returns (launch: Option<Launch>)
    requires u.system.fs.Valid() && p.env == DEFAULT_ENV && p.stdout != p.stderr
    modifies p`argv, p.stderr`data
    ensures Ran(After(SessOf(u), ProcOf(p), spawned, st), launch) == Concluded(u.system.fs.nodes, old(After(SessOf(u), ProcOf(p), spawned, st)), fuel)
    ensures p.stderr.pos == old(p.stderr.pos) && p.stderr.listeners == old(p.stderr.listeners)
  {
    if st.NoFuel? {
      return None;
    }
    if st.Threw? {
      Report(p, st.msg);
    }
    launch := RunUnlessSet(p, u, SessOf(u), spawned, st, fuel);
  }

  /** `runBash` catching an error: the message goes on standard error at its cursor. */
  method Report(p: Process, msg: string)
    requires p.stdout != p.stderr
    modifies p.stderr`data
    ensures ProcOf(p) == Reported(old(ProcOf(p)), msg)
    ensures p.stderr.pos == old(p.stderr.pos) && p.stderr.listeners == old(p.stderr.listeners)
  {
    var calls := p.stderr.Write("bash: error: " + msg + "\n");
  }

  /** The last statement of `runBash`: the process is run unless the line set its exit code. */
  method RunUnlessSet(p: Process, u: UserSession, ghost s: Sess, ghost spawned: nat, st: Status, fuel: nat) returns (launch: Option<Launch>)
    requires u.system.fs.Valid()
    modifies p`argv
    ensures var r := old(After(s, ProcOf(p), spawned, st));
      Ran(After(s, ProcOf(p), spawned, st), launch)
      == if r.p.exitCode.None? then Launched(u.system.fs.nodes, r, p.env, fuel) else Ran(r, None)
  {
    launch := None;
    if p.exitCode.None? {
      var r := Run(p, u, fuel);
      launch := Some(r);
    }
  }
}
