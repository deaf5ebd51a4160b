/**
 * The word scanner of the shell (`tokenize` in src/plugins/bash.ts): a line is cut at its first
 * `#`, then read one character at a time into words, with single quotes, double quotes and
 * backslash escapes.
 */
module ShellLex {
  import opened Wrappers
  import opened Text

  /** A word of the line and whether any quote appeared in it. */
  datatype Word = Word(quoted: bool, text: string)

  /** What scanning a line comes to: its words or an exception. */
  datatype Lexed = Words(words: seq<Word>) | Throws(msg: string)

  /**
   * The message of the `RangeError` the engine throws when a string would grow past its maximum
   * length.
   */
  const STRING_TOO_LONG := "Invalid string length"

  /** The scanner's state: the words so far, the current word, and the two quote flags. */
  datatype State = State(words: seq<Word>, buffer: string, quoted: bool, inDouble: bool)

  /** The two digit classes the escapes match: `[0-9a-fA-F]` and `[0-7]`. */
  datatype Digits = Hex | Octal

  predicate IsDigit(ch: char, digits: Digits)
  {
    match digits
    case Hex => ('0' <= ch <= '9') || ('a' <= ch <= 'f') || ('A' <= ch <= 'F')
    case Octal => '0' <= ch <= '7'
  }

  /** The index of the first character of `s` in `digits`, or `|s|` when there is none. */
  function FirstDigit(s: string, digits: Digits): (k: nat)
    ensures k <= |s|
    ensures k < |s| ==> IsDigit(s[k], digits)
  {
    if |s| == 0 || IsDigit(s[0], digits) then 0 else 1 + FirstDigit(s[1..], digits)
  }

  /** What indexing the `null` of a failed regular-expression match throws. */
  const NULL_MATCH := "Cannot read properties of null (reading '0')"

  /** The number of characters from the start of `s` that are in `digits`, at most `max`. */
  function RunLength(s: string, digits: Digits, max: nat): (n: nat)
    ensures n <= |s| && n <= max
    ensures forall k :: 0 <= k < n ==> IsDigit(s[k], digits)
  {
    if |s| == 0 || max == 0 || !IsDigit(s[0], digits) then 0 else 1 + RunLength(s[1..], digits, max - 1)
  }

  /**
   * The match of an unanchored `/[digits]{1,max}/` in `s`: the run that starts at the first digit
   * anywhere in `s`, or `None` when `s` has none.
   */
  function FirstRun(s: string, digits: Digits, max: nat): (r: Option<string>)
    requires max > 0
    ensures r.Some? ==> 0 < |r.value| <= max
  {
    var d := FirstDigit(s, digits);
    if d == |s| then None else Some(s[d..d + RunLength(s[d..], digits, max)])
  }

  /**
   * `String.fromCharCode(n)`: the code is taken modulo 2^16, and `NaN` gives U+0000. A Dafny
   * string holds no lone surrogate, so a code in the surrogate range gives U+FFFD.
   */
  function FromCharCode(n: Num): char
  {
    match n
    case NaN => 0 as char
    case Finite(v) =>
      var u := v % 0x1_0000;
      if 0xD800 <= u < 0xE000 then 0xFFFD as char else u as char
  }

  /**
   * A numeric escape: the digit run matched from index `from` is read in base 8, and the scan goes
   * on `|match| + 1` characters after `from`, wherever in the text the match was.
   */
  function Numeric(c: string, from: nat, digits: Digits, max: nat): (r: Result<(string, nat)>)
    requires from <= |c| && max > 0
    ensures r.Ok? ==> r.value.1 > from
  {
    match FirstRun(c[from..], digits, max)
    case None => Err(NULL_MATCH)
    case Some(m) => Ok(([FromCharCode(ParseInt(m, 8))], from + |m| + 1))
  }

  /** Where a numeric escape's match starts, what it matches and how long it may be. */
  datatype Match = Match(from: nat, digits: Digits, max: nat)

  /**
   * The numeric escape that `ch` at index `j` starts: `\h` matches up to 2 hex digits after the
   * `h`; `\u` and `\U` match up to 4 and 8 hex digits, an octal digit up to 3 octal digits, each
   * from the escaped character itself.
   */
  function Pattern(ch: char, j: nat): (r: Option<Match>)
    ensures r.Some? ==> j <= r.value.from <= j + 1 && r.value.max > 0
  {
    if ch == 'h' then Some(Match(j + 1, Hex, 2))
    else if IsDigit(ch, Octal) then Some(Match(j, Octal, 3))
    else if ch == 'u' then Some(Match(j, Hex, 4))
    else if ch == 'U' then Some(Match(j, Hex, 8))
    else None
  }

  /**
   * The text a one-character escape adds. `\a` is JavaScript's `'\a'`, which is the letter `a`;
   * `\r` gives a tab; `\c` gives the character 64 below `c`, which is `#`; a character with no
   * escape of its own stands for itself.
   */
  function Letter(ch: char): string
  {
    if ch == 'a' then "a"
    else if ch == 'b' then [8 as char]
    else if ch == 'e' || ch == 'E' then [27 as char]
    else if ch == 'f' then [12 as char]
    else if ch == 'n' then "\n"
    else if ch == 'r' then "\t"
    else if ch == 'v' then [11 as char]
    else if ch == 'c' then [(ch as int - 64) as char]
    else [ch]
  }

  /**
   * The text a backslash escape adds, the escaped character being at index `j`, and the index the
   * scan goes on from. The numeric escapes and the letters with an escape of their own are
   * different characters, so which is tested first makes no difference.
   */
  function Escape(c: string, j: nat): (r: Result<(string, nat)>)
    requires j < |c|
    ensures r.Ok? ==> r.value.1 > j
  {
    match Pattern(c[j], j)
    case Some(p) => Numeric(c, p.from, p.digits, p.max)
    case None => Ok((Letter(c[j]), j + 1))
  }

  /** What the scanner does with one character: opens a single quote, escapes, or moves on. */
  datatype Move = OpenQuote | Backslash | Moved(st: State)

  /**
   * The move for `ch`: a single quote outside double quotes and a backslash are handled by
   * `LexQuote` and `LexEscape`; a double quote toggles the mode and marks the word quoted; a
   * space outside double quotes ends a word; anything else is copied.
   */
  function Step(ch: char, st: State): Move
  {
    if ch == '\'' && !st.inDouble then OpenQuote
    else if ch == '\\' then Backslash
    else if ch == '"' then Moved(st.(inDouble := !st.inDouble, quoted := true))
    else if ch == ' ' && !st.inDouble then Moved(State(st.words + [Word(st.quoted, st.buffer)], "", false, st.inDouble))
    else Moved(st.(buffer := st.buffer + [ch]))
  }

  /** The scan of `c` from index `i` in state `st`. The last word is always emitted. */
  function LexFrom(c: string, i: nat, st: State): (r: Lexed)
    ensures r.Words? ==> |r.words| > |st.words|
    decreases |c| - i, 1
  {
    if i >= |c| then Words(st.words + [Word(st.quoted, st.buffer)])
    else
      match Step(c[i], st)
      case OpenQuote => LexQuote(c, i, st)
      case Backslash => LexEscape(c, i, st)
      case Moved(next) => LexFrom(c, i + 1, next)
  }

  /**
   * A single quote at `i` copies everything up to the next one. With none, the inner loop reads
   * past the end and appends the text `undefined` on every round, until the current word passes
   * the engine's maximum string length and the append throws.
   */
  function LexQuote(c: string, i: nat, st: State): (r: Lexed)
    requires i < |c|
    ensures r.Words? ==> |r.words| > |st.words|
    decreases |c| - i, 0
  {
    var k := IndexOfFrom(c, '\'', i + 1);
    if k < 0 then Throws(STRING_TOO_LONG)
    else LexFrom(c, k + 1, st.(buffer := st.buffer + c[i + 1..k], quoted := true))
  }

  /** A backslash at `i`: at the very end it adds the text of `undefined`. */
  function LexEscape(c: string, i: nat, st: State): (r: Lexed)
    requires i < |c|
    ensures r.Words? ==> |r.words| > |st.words|
    decreases |c| - i, 0
  {
    if i + 1 == |c| then LexFrom(c, i + 2, st.(buffer := st.buffer + "undefined"))
    else
      match Escape(c, i + 1)
      case Err(e) => Throws(e)
      case Ok(e) => LexFrom(c, e.1, st.(buffer := st.buffer + e.0))
  }

  /** The line up to its first `#`, wherever that is. */
  function Cut(command: string): (r: string)
    ensures '#' !in r
  {
    if '#' in command then command[..IndexOf(command, '#')] else command
  }

  const START := State([], "", false, false)

  /** `tokenize(command)`: at least one word whenever it returns. */
  function Tokens(command: string): (r: Lexed)
    ensures r.Words? ==> |r.words| >= 1
  {
    LexFrom(Cut(command), 0, START)
  }

  /** The text from index `from` up to the next single quote, and where that quote is (-1 when there is none). */
  method QuotedRun(c: string, from: nat) returns (k: int, text: string)
    requires from <= |c|
    ensures k == IndexOfFrom(c, '\'', from)
    ensures k >= 0 ==> from <= k && text == c[from..k]
  {
    var i := from;
    text := "";
    while i < |c| && c[i] != '\''
      invariant from <= i <= |c|
      invariant text == c[from..i]
      invariant forall m :: from <= m < i ==> c[m] != '\''
    {
      text := text + [c[i]];
      i := i + 1;
    }
    k := if i == |c| then -1 else i;
  }

  /** `tokenize(command)`. */
  method Tokenize(command: string) returns (r: Lexed)
    ensures r == Tokens(command)
  {
    var c := Cut(command);
    var inDouble, quoted := false, false;
    var words: seq<Word> := [];
    var buffer := "";
    var i := 0;
    while i < |c|
      invariant LexFrom(c, 0, START) == LexFrom(c, i, State(words, buffer, quoted, inDouble))
      decreases |c| - i
    {
      var ch := c[i];
      if ch == '\'' && !inDouble {
        var k, text := QuotedRun(c, i + 1);
        if k < 0 {
          return Throws(STRING_TOO_LONG);
        }
        buffer, quoted := buffer + text, true;
        i := k + 1;
      } else if ch == '\\' {
        if i + 1 == |c| {
          buffer := buffer + "undefined";
          i := i + 2;
        } else {
          var e := Escape(c, i + 1);
          if e.Err? {
            return Throws(e.msg);
          }
          buffer := buffer + e.value.0;
          i := e.value.1;
        }
      } else {
        if ch == '"' {
          inDouble, quoted := !inDouble, true;
        } else if ch == ' ' && !inDouble {
          words := words + [Word(quoted, buffer)];
          quoted, buffer := false, "";
        } else {
          buffer := buffer + [ch];
        }
        i := i + 1;
      }
    }
    r := Words(words + [Word(quoted, buffer)]);
  }

  lemma StepEscapeEnd(c: string, i: nat, st: State)
    requires i + 1 == |c| && c[i] == '\\'
    ensures LexFrom(c, i, st) == LexFrom(c, i + 2, st.(buffer := st.buffer + "undefined"))
  {
  }

  lemma StepEscape(c: string, i: nat, st: State)
    requires i + 1 < |c| && c[i] == '\\'
    ensures Escape(c, i + 1).Err? ==> LexFrom(c, i, st) == Throws(Escape(c, i + 1).msg)
    ensures Escape(c, i + 1).Ok? ==> LexFrom(c, i, st) == LexFrom(c, Escape(c, i + 1).value.1, st.(buffer := st.buffer + Escape(c, i + 1).value.0))
  {
  }

  /** A character copied into the current word. */
  lemma StepPlain(c: string, i: nat, st: State)
    requires i < |c| && Plain(c[i], st.inDouble)
    ensures LexFrom(c, i, st) == LexFrom(c, i + 1, st.(buffer := st.buffer + [c[i]]))
  {
  }

  /** A double quote toggles the quoting mode and marks the word quoted. */
  lemma StepDouble(c: string, i: nat, st: State)
    requires i < |c| && c[i] == '"'
    ensures LexFrom(c, i, st) == LexFrom(c, i + 1, st.(inDouble := !st.inDouble, quoted := true))
  {
  }

  /** A space outside double quotes ends the current word. */
  lemma StepSpace(c: string, i: nat, st: State)
    requires i < |c| && c[i] == ' ' && !st.inDouble
    ensures LexFrom(c, i, st) == LexFrom(c, i + 1, State(st.words + [Word(st.quoted, st.buffer)], "", false, false))
  {
  }

  // ---------------------------------------------------------------------------------------------
  // What the scanner promises

  /** Everything from the first `#` on is dropped, even inside quotes. */
  lemma HashEndsLine(a: string, b: string)
    requires '#' !in a
    ensures Tokens(a + "#" + b) == Tokens(a)
  {
    var s := a + "#" + b;
    var k := IndexOf(s, '#');
    assert s[|a|] == '#';
    assert s[..|a|] == a;
    assert k == |a|;
    assert s[..k] == a;
  }

  /** A character copied as it is in the current quoting mode. */
  predicate Plain(ch: char, inDouble: bool)
  {
    ch != '\\' && ch != '"' && (inDouble || (ch != '\'' && ch != ' '))
  }

  /** A run of plain characters goes into the current word as it is. */
  lemma {:induction false} LexPlain(c: string, i: nat, st: State, n: nat)
    requires i + n <= |c|
    requires forall m :: i <= m < i + n ==> Plain(c[m], st.inDouble)
    ensures LexFrom(c, i, st) == LexFrom(c, i + n, st.(buffer := st.buffer + c[i..i + n]))
    decreases n
  {
    if n > 0 {
      var next := st.(buffer := st.buffer + [c[i]]);
      StepPlain(c, i, st);
      LexPlain(c, i + 1, next, n - 1);
      AppendNext(st.buffer, c, i, n);
    } else {
      assert st.buffer + c[i..i] == st.buffer;
    }
  }

  lemma AppendNext(b: string, c: string, i: nat, n: nat)
    requires i < i + n <= |c|
    ensures b + [c[i]] + c[i + 1..i + n] == b + c[i..i + n]
  {
    assert c[i..i + n] == [c[i]] + c[i + 1..i + n];
  }

  /** A word with no quote, backslash, space or `#`. */
  predicate PlainWord(w: string)
  {
    forall k :: 0 <= k < |w| ==> Plain(w[k], false) && w[k] != '#'
  }

  function Unquoted(ws: seq<string>): (r: seq<Word>)
    ensures |r| == |ws| && forall k :: 0 <= k < |ws| ==> r[k] == Word(false, ws[k])
  {
    seq(|ws|, k requires 0 <= k < |ws| => Word(false, ws[k]))
  }

  /** A run of plain characters at index `i` goes into the (empty) current word. */
  lemma LexWord(c: string, i: nat, words: seq<Word>, n: nat)
    requires i + n <= |c|
    requires forall m :: i <= m < i + n ==> Plain(c[m], false)
    ensures LexFrom(c, i, State(words, "", false, false)) == LexFrom(c, i + n, State(words, c[i..i + n], false, false))
  {
    var st := State(words, "", false, false);
    EmptyAppend(c[i..i + n]);
    LexPlain(c, i, st, n);
  }

  lemma EmptyAppend(s: string)
    ensures "" + s == s
  {
  }

  lemma PlainSlice(c: string, i: nat, w: string)
    requires PlainWord(w) && i + |w| <= |c| && c[i..i + |w|] == w
    ensures forall m :: i <= m < i + |w| ==> Plain(c[m], false)
  {
    forall m | i <= m < i + |w| ensures Plain(c[m], false) {
      assert c[m] == c[i..i + |w|][m - i];
    }
  }

  lemma JoinHead(ws: seq<string>)
    requires |ws| > 1
    ensures Join(ws, " ") == ws[0] + " " + Join(ws[1..], " ")
  {
  }

  lemma SliceAfterWord(c: string, i: nat, w: string, rest: string)
    requires i <= |c| && c[i..] == w + " " + rest
    ensures i + |w| < |c| && c[i..i + |w|] == w && c[i + |w|] == ' ' && c[i + |w| + 1..] == rest
  {
    assert c[i..][..|w|] == w;
    assert c[i..][|w|] == ' ';
    assert c[i..][|w| + 1..] == rest;
  }

  lemma {:induction false} LexJoined(c: string, i: nat, words: seq<Word>, ws: seq<string>)
    requires |ws| >= 1 && (forall k :: 0 <= k < |ws| ==> PlainWord(ws[k]))
    requires i <= |c| && c[i..] == Join(ws, " ")
    ensures LexFrom(c, i, State(words, "", false, false)) == Words(words + Unquoted(ws))
    decreases |ws|
  {
    var w := ws[0];
    UnquotedHead(words, ws);
    JoinSplit(c, i, ws);
    LexWord(c, i, words, |w|);
    if |ws| > 1 {
      StepSpace(c, i + |w|, State(words, w, false, false));
      LexJoined(c, i + |w| + 1, words + [Word(false, w)], ws[1..]);
    }
  }

  /** Where the first word of a joined line ends, and what follows it. */
  lemma JoinSplit(c: string, i: nat, ws: seq<string>)
    requires |ws| >= 1 && (forall k :: 0 <= k < |ws| ==> PlainWord(ws[k]))
    requires i <= |c| && c[i..] == Join(ws, " ")
    ensures PlainWord(ws[0]) && i + |ws[0]| <= |c| && c[i..i + |ws[0]|] == ws[0]
    ensures forall m :: i <= m < i + |ws[0]| ==> Plain(c[m], false)
    ensures |ws| == 1 ==> i + |ws[0]| == |c|
    ensures |ws| > 1 ==> i + |ws[0]| < |c| && c[i + |ws[0]|] == ' ' && c[i + |ws[0]| + 1..] == Join(ws[1..], " ")
    ensures |ws| > 1 ==> forall k :: 0 <= k < |ws[1..]| ==> PlainWord(ws[1..][k])
  {
    if |ws| > 1 {
      JoinHead(ws);
      SliceAfterWord(c, i, ws[0], Join(ws[1..], " "));
    } else {
      assert c[i..i + |ws[0]|] == c[i..];
    }
    PlainSlice(c, i, ws[0]);
  }

  lemma UnquotedHead(words: seq<Word>, ws: seq<string>)
    requires |ws| >= 1
    ensures words + Unquoted(ws) == words + [Word(false, ws[0])] + Unquoted(ws[1..])
    ensures |ws| == 1 ==> words + Unquoted(ws) == words + [Word(false, ws[0])]
  {
    assert Unquoted(ws) == [Word(false, ws[0])] + Unquoted(ws[1..]);
  }

  lemma NoHashInJoin(ws: seq<string>)
    requires forall k :: 0 <= k < |ws| ==> PlainWord(ws[k])
    ensures '#' !in Join(ws, " ")
  {
    forall k | 0 <= k < |ws| ensures Free(ws[k], {'#'}) {
    }
    JoinFree(ws, " ", {'#'});
  }

  /**
   * Words joined by single spaces come back as they are, one unquoted word each; an empty word
   * between two spaces comes back as an empty word.
   */
  lemma SpaceSeparated(ws: seq<string>)
    requires |ws| >= 1 && forall k :: 0 <= k < |ws| ==> PlainWord(ws[k])
    ensures Tokens(Join(ws, " ")) == Words(Unquoted(ws))
  {
    var line := Join(ws, " ");
    NoHashInJoin(ws);
    assert Cut(line) == line;
    assert line[0..] == line;
    LexJoined(line, 0, [], ws);
    assert [] + Unquoted(ws) == Unquoted(ws);
  }

  /**
   * Text between double quotes (no backslash, double quote or `#` in it) is one quoted word,
   * spaces and single quotes included.
   */
  lemma DoubleQuoted(w: string)
    requires forall k :: 0 <= k < |w| ==> w[k] != '\\' && w[k] != '"' && w[k] != '#'
    ensures Tokens("\"" + w + "\"") == Words([Word(true, w)])
  {
    var c := "\"" + w + "\"";
    assert '#' !in c by {
      forall k | 0 <= k < |c| ensures c[k] != '#' {
        if 0 < k <= |w| {
          assert c[k] == w[k - 1];
        }
      }
    }
    var inside := State([], "", true, true);
    StepDouble(c, 0, START);
    forall m | 1 <= m < 1 + |w| ensures Plain(c[m], true) {
      assert c[m] == w[m - 1];
    }
    LexPlain(c, 1, inside, |w|);
    assert c[1..1 + |w|] == w;
    assert "" + w == w;
    StepDouble(c, 1 + |w|, inside.(buffer := w));
  }

  /** A line that is one escape, read to its end, is the one word that escape gives. */
  lemma OneEscape(c: string, t: string, n: nat)
    requires 2 <= |c| && c[0] == '\\'
    requires '#' !in c
    requires n >= |c|
    requires Escape(c, 1) == Ok((t, n))
    ensures Tokens(c) == Words([Word(false, t)])
  {
    assert Cut(c) == c;
    StepEscape(c, 0, START);
    assert "" + t == t;
  }

  /** Text between single quotes (no single quote or `#` in it) is one quoted word, taken as it is. */
  lemma SingleQuoted(w: string)
    requires forall k :: 0 <= k < |w| ==> w[k] != '\'' && w[k] != '#'
    ensures Tokens("'" + w + "'") == Words([Word(true, w)])
  {
    var c := "'" + w + "'";
    assert '#' !in c by {
      forall k | 0 <= k < |c| ensures c[k] != '#' {
        if 0 < k <= |w| {
          assert c[k] == w[k - 1];
        }
      }
    }
    assert c[0] == '\'' && c[|w| + 1] == '\'';
    forall k | 1 <= k < |w| + 1 ensures c[k] != '\'' {
      assert c[k] == w[k - 1];
    }
    assert IndexOfFrom(c, '\'', 1) == |w| + 1;
    assert c[1..|w| + 1] == w;
    EmptyAppend(w);
    assert LexFrom(c, 0, START) == LexQuote(c, 0, START);
    assert LexQuote(c, 0, START) == LexFrom(c, |w| + 2, State([], w, true, false));
  }

  /**
   * A single quote that is never closed makes the scan throw the engine's `RangeError` for a
   * string that is too long, whatever follows the quote.
   */
  lemma UnclosedQuoteThrows(w: string)
    requires forall k :: 0 <= k < |w| ==> w[k] != '\'' && w[k] != '#'
    ensures Tokens("'" + w) == Throws(STRING_TOO_LONG)
  {
    var c := "'" + w;
    assert '#' !in c by {
      forall k | 0 <= k < |c| ensures c[k] != '#' {
        if 0 < k {
          assert c[k] == w[k - 1];
        }
      }
    }
    assert c[0] == '\'';
    forall k | 1 <= k < |c| ensures c[k] != '\'' {
      assert c[k] == w[k - 1];
    }
    assert IndexOfFrom(c, '\'', 1) == -1;
    assert LexFrom(c, 0, START) == LexQuote(c, 0, START);
  }

  lemma ReturnEscape()
    ensures Escape("\\r", 1) == Ok(("\t", 2))
  {
    assert "\\r"[1] == 'r';
  }

  /** `\r` gives a tab, not a carriage return. */
  lemma ReturnEscapeIsTab()
    ensures Tokens("\\r") == Words([Word(false, "\t")])
  {
    var c := "\\r";
    assert c[0] != '#' && c[1] != '#';
    ReturnEscape();
    OneEscape(c, "\t", 2);
  }

  lemma ControlLetter()
    ensures Letter('c') == "#"
  {
    assert ('c' as int - 64) as char == '#';
  }

  lemma ControlEscape(c: string)
    requires |c| == 2 && c[1] == 'c'
    ensures Escape(c, 1) == Ok(("#", 2))
  {
    assert Pattern(c[1], 1) == None;
    ControlLetter();
  }

  /** `\c` gives `#`. */
  lemma ControlEscapeIsHash(c: string)
    requires c == "\\c"
    ensures Tokens(c) == Words([Word(false, "#")])
  {
    assert |c| == 2 && c[0] == '\\' && c[1] == 'c';
    assert '#' !in c by { assert c[0] != '#' && c[1] != '#'; }
    ControlEscape(c);
    OneEscape(c, "#", 2);
  }

  lemma Octal41()
    ensures ParseInt("41", 8) == Finite(33)
  {
    var d := "41";
    TrimStartKeeps(d);
    DigitRunAll(d, 8);
    assert d[..2] == d;
    assert d[..1] == "4";
    assert DigitsValue("4", 8) == 4;
  }

  lemma Octal101()
    ensures ParseInt("101", 8) == Finite(65)
  {
    var d := "101";
    TrimStartKeeps(d);
    DigitRunAll(d, 8);
    assert d[..3] == d;
    assert d[..2] == "10";
    assert "10"[..1] == "1";
    assert DigitsValue("1", 8) == 1;
    assert DigitsValue("10", 8) == 8;
  }

  lemma Run41()
    ensures FirstRun("41", Hex, 2) == Some("41")
  {
    assert FirstDigit("41", Hex) == 0;
    assert RunLength("41"[1..], Hex, 1) == 1;
    assert "41"[0..2] == "41";
  }

  lemma Run101()
    ensures FirstRun("101x", Octal, 3) == Some("101")
  {
    var s := "101x";
    assert FirstDigit(s, Octal) == 0;
    assert s[1..][1..][1..] == "x";
    assert RunLength("x", Octal, 1) == 0;
    assert RunLength(s, Octal, 3) == 3;
    assert s[0..3] == "101";
  }

  lemma CharCode(n: int, ch: char)
    requires 0 <= n < 0xD800 && n == ch as int
    ensures FromCharCode(Finite(n)) == ch
  {
  }

  lemma NumericH41(c: string)
    requires |c| == 4 && c[2..] == "41"
    ensures Numeric(c, 2, Hex, 2) == Ok(("!", 5))
  {
    CharCode(33, '!');
    Run41();
    Octal41();
  }

  lemma HexEscape(c: string)
    requires 2 < |c| && c[1] == 'h'
    ensures Escape(c, 1) == Numeric(c, 2, Hex, 2)
  {
    assert Pattern(c[1], 1) == Some(Match(2, Hex, 2));
  }

  /** `\h41` reads its digits in base 8: it gives `!` (code 33), not `A`. */
  lemma HexEscapeReadsOctal(c: string)
    requires c == "\\h41"
    ensures Tokens(c) == Words([Word(false, "!")])
  {
    HexLine(c);
    HexEscape(c);
    NumericH41(c);
    OneEscape(c, "!", 5);
  }

  lemma HexLine(c: string)
    requires c == "\\h41"
    ensures |c| == 4 && c[0] == '\\' && c[1] == 'h' && c[2..] == "41" && '#' !in c
  {
    assert c[0] != '#' && c[1] != '#' && c[2] != '#' && c[3] != '#';
  }

  lemma Numeric101(c: string)
    requires |c| == 5 && c[1..] == "101x"
    ensures Numeric(c, 1, Octal, 3) == Ok(("A", 5))
  {
    CharCode(65, 'A');
    Run101();
    Octal101();
  }

  lemma OctalEscape(c: string)
    requires |c| == 5 && c[1] == '1' && c[1..] == "101x"
    ensures Escape(c, 1) == Ok(("A", 5))
  {
    Numeric101(c);
  }

  /** `\101x` gives `A` and drops the `x`: the scan goes on one character past the digits. */
  lemma OctalEscapeSkipsNext(c: string)
    requires c == "\\101x"
    ensures Tokens(c) == Words([Word(false, "A")])
  {
    OctalLine(c);
    OctalEscape(c);
    OneEscape(c, "A", 5);
  }

  lemma OctalLine(c: string)
    requires c == "\\101x"
    ensures |c| == 5 && c[0] == '\\' && c[1] == '1' && c[1..] == "101x" && '#' !in c
  {
    assert c[0] != '#' && c[1] != '#' && c[2] != '#' && c[3] != '#' && c[4] != '#';
  }

  /** A backslash at the very end adds the text `undefined`. */
  lemma TrailingBackslash(w: string)
    requires PlainWord(w)
    ensures Tokens(w + "\\") == Words([Word(false, w + "undefined")])
  {
    var c := w + "\\";
    assert '#' !in c by {
      forall k | 0 <= k < |c| ensures c[k] != '#' {
        if k < |w| {
          assert c[k] == w[k];
        }
      }
    }
    assert Cut(c) == c;
    assert c[0..|w|] == w;
    PlainSlice(c, 0, w);
    LexWord(c, 0, [], |w|);
    StepEscapeEnd(c, |w|, State([], w, false, false));
  }
}
