/**
 * Modes, open flags and their parsing in the virtual file system (src/fs.ts): the `S_IF*` type
 * bits, the `BaseStats` type predicates, `parseModeArg`, `parseFlag` and the bit arithmetic of
 * `chmod`. Octal constants of the source are written in hexadecimal.
 */
module FsMode {
  import opened Wrappers
  import opened Text
  import opened Bits

  const S_IMFT: bv32 := 0xF000
  const S_IFREG: bv32 := 0x8000
  const S_IFDIR: bv32 := 0x4000
  const S_IFCHR: bv32 := 0x2000
  const S_IFBLK: bv32 := 0x6000
  const S_IFIFO: bv32 := 0x1000
  const S_IFLNK: bv32 := 0xA000
  const S_IFSOCK: bv32 := 0xC000

  const S_IRUSR: bv32 := 0x100
  const S_IWUSR: bv32 := 0x80
  const S_IXUSR: bv32 := 0x40
  const S_IRGRP: bv32 := 0x20
  const S_IWGRP: bv32 := 0x10
  const S_IXGRP: bv32 := 0x8
  const S_IROTH: bv32 := 0x4
  const S_IWOTH: bv32 := 0x2
  const S_IXOTH: bv32 := 0x1

  /** 0o170007: the bits `chmod` keeps (file type and the low three bits). */
  const CHMOD_KEEP: bv32 := 0xF007
  /** 0o6440: the mode a file object gets when none is given. */
  const DEFAULT_FILE_MODE: int := 0xD20
  /** 0o7770: the mode `mkdir` and a new directory default to. */
  const DEFAULT_DIR_MODE: int := 0xFF8

  const COPYFILE_EXCL: int := 1
  const COPYFILE_FICLONE: int := 2
  const COPYFILE_FICLONE_FORCE: int := 4

  const O_RDONLY: int := 1
  const O_WRONLY: int := 2
  const O_CREAT: int := 4
  const O_EXCL: int := 8
  const O_TRUNC: int := 32
  const O_APPEND: int := 64
  const O_SYNC: int := 1024

  /** `(Number(mode) & X) === X`. */
  predicate HasType(mode: bv32, x: bv32) { mode & x == x }

  predicate IsBlockDevice(mode: bv32) { HasType(mode, S_IFBLK) }
  predicate IsCharacterDevice(mode: bv32) { HasType(mode, S_IFCHR) }
  predicate IsDirectory(mode: bv32) { HasType(mode, S_IFDIR) }
  predicate IsFIFO(mode: bv32) { HasType(mode, S_IFIFO) }
  predicate IsFile(mode: bv32) { HasType(mode, S_IFREG) }
  predicate IsSocket(mode: bv32) { HasType(mode, S_IFSOCK) }
  predicate IsSymbolicLink(mode: bv32) { HasType(mode, S_IFLNK) }

  /** A mode argument: a string or a number. */
  datatype ModeArg = MStr(s: string) | MNum(n: int)

  predicate IsOctalDigit(c: char) { '0' <= c <= '7' }

  /** `/[0-7]{3}/.test(s)`: three octal digits in a row somewhere in `s`. */
  predicate HasOctalTriple(s: string)
    decreases |s|
  {
    |s| >= 3 && ((IsOctalDigit(s[0]) && IsOctalDigit(s[1]) && IsOctalDigit(s[2])) || HasOctalTriple(s[1..]))
  }

  /** `/^([r-][w-][x-]){3}$/.test(s)`. */
  predicate IsRwxString(s: string)
  {
    |s| == 9 && forall k :: 0 <= k < 3 ==>
      (s[3 * k] == 'r' || s[3 * k] == '-') && (s[3 * k + 1] == 'w' || s[3 * k + 1] == '-') && (s[3 * k + 2] == 'x' || s[3 * k + 2] == '-')
  }

  /** `s.replaceAll('-', '0').replace(/[rwx]/g, '1')`. */
  function RwxToBinary(s: string): (r: string)
    ensures |r| == |s|
  {
    if |s| == 0 then ""
    else [if s[0] == '-' then '0' else if s[0] in "rwx" then '1' else s[0]] + RwxToBinary(s[1..])
  }

  /** A numeric mode below 0o777 is taken as permission bits and shifted into place; others pass through. */
  function ShiftSmall(v: int): (r: int)
    ensures 0 <= v < 0x1FF ==> r == 8 * v
    ensures v >= 0x1FF ==> r == v
  {
    if v < 0x1FF then Shl(v, 3) else v
  }

  /** `parseModeArg(mode)`: the mode number, `NaN` when an octal-looking string does not start with digits. */
  function ParseModeArg(mode: ModeArg): Result<Num>
  {
    match mode
    case MNum(n) => Ok(Finite(ShiftSmall(n)))
    case MStr(s) =>
      if HasOctalTriple(s) then
        match ParseInt(s, 8)
        case NaN => Ok(NaN)
        case Finite(v) => Ok(Finite(ShiftSmall(v)))
      else if IsRwxString(s) then
        Ok(Finite(Shl(NumToInt32(ParseInt("0b" + RwxToBinary(s), 0)), 3)))
      else Err("invalid mode: " + s)
  }

  /** ToInt32 of a number that may be `NaN` (which becomes 0). */
  function NumToInt32(x: Num): int
  {
    match x
    case NaN => 0
    case Finite(v) => ToInt32(v)
  }

  /** The 32-bit pattern of a number that may be `NaN`. */
  function NumBits(x: Num): bv32
  {
    match x
    case NaN => 0
    case Finite(v) => AsBits(v)
  }

  /** `mode &= 0o170007; mode |= parsed << 3`: the new mode `chmod` stores. */
  function ChmodMode(mode: bv32, parsed: Num): bv32
  {
    (mode & CHMOD_KEEP) | (NumBits(parsed) << 3)
  }

  /** Any string of the `rwxr-x---` shape parses as `parseInt('0b…') << 3`, which is 0. */
  lemma ParseModeArgRwx(s: string)
    requires IsRwxString(s) && !HasOctalTriple(s)
    ensures ParseModeArg(MStr(s)) == Ok(Finite(0))
  {
    ParseModeArgRwxShape(s);
    ParseBinaryPrefix(RwxToBinary(s));
  }

  lemma ParseModeArgRwxShape(s: string)
    requires IsRwxString(s) && !HasOctalTriple(s)
    ensures ParseModeArg(MStr(s)) == Ok(Finite(Shl(NumToInt32(ParseInt("0b" + RwxToBinary(s), 0)), 3)))
  {
  }

  /** `parseInt('0b…')` without a radix reads the leading `0` in base 10 and stops at the `b`. */
  lemma ParseBinaryPrefix(digits: string)
    ensures ParseInt("0b" + digits, 0) == Finite(0)
    ensures Shl(NumToInt32(ParseInt("0b" + digits, 0)), 3) == 0
  {
    var t := "0b" + digits;
    assert t[0] == '0' && t[1] == 'b';
    assert TrimStart(t) == t;
    assert t[1..][0] == 'b';
    assert DigitRun(t[1..], 10) == 0;
    assert DigitRun(t, 10) == 1;
    assert t[..1] == "0" && t[..1][..0] == "";
    assert DigitsValue(t[..1], 10) == 0;
    assert ParseDigits(t, 0) == Finite(0);
  }

  /** A string with neither three octal digits in a row nor the `rwx` shape is refused. */
  lemma ParseModeArgInvalid(s: string)
    requires !HasOctalTriple(s) && !IsRwxString(s)
    ensures ParseModeArg(MStr(s)) == Err("invalid mode: " + s)
  {
  }

  function OctalValue(a: char, b: char, c: char): nat
    requires IsOctalDigit(a) && IsOctalDigit(b) && IsOctalDigit(c)
  {
    64 * (a as int - '0' as int) + 8 * (b as int - '0' as int) + (c as int - '0' as int)
  }

  /** Three octal digits are read in base 8 and shifted like a number. */
  lemma ParseModeArgOctal(a: char, b: char, c: char)
    requires IsOctalDigit(a) && IsOctalDigit(b) && IsOctalDigit(c)
    ensures var v := OctalValue(a, b, c);
      ParseModeArg(MStr([a, b, c])) == Ok(Finite(if v < 0x1FF then 8 * v else v))
  {
    var s := [a, b, c];
    assert HasOctalTriple(s);
    ParseOctalTriple(a, b, c);
  }

  lemma ParseOctalTriple(a: char, b: char, c: char)
    requires IsOctalDigit(a) && IsOctalDigit(b) && IsOctalDigit(c)
    ensures ParseInt([a, b, c], 8) == Finite(OctalValue(a, b, c))
  {
    var s := [a, b, c];
    TrimStartKeeps(s);
    assert ParseInt(s, 8) == ParseDigits(s, 8);
    assert forall j :: 0 <= j < |s| ==> DigitValue(s[j], 8).Some?;
    DigitRunAll(s, 8);
    assert s[..3] == s;
    OctalDigitsValue(a, b, c);
  }

  lemma OctalDigitsValue(a: char, b: char, c: char)
    requires IsOctalDigit(a) && IsOctalDigit(b) && IsOctalDigit(c)
    ensures DigitsValue([a, b, c], 8) == OctalValue(a, b, c)
  {
    var s := [a, b, c];
    assert s[..2] == [a, b] && [a, b][..1] == [a] && [a][..0] == [];
    assert DigitsValue([a], 8) == a as int - '0' as int;
    assert DigitsValue([a, b], 8) == 8 * (a as int - '0' as int) + (b as int - '0' as int);
  }

  /**
   * `chmod` never clears a type bit or the low three bits; it may add type bits, namely those of
   * `parsed << 3` above bit 11; bits 3 to 11 become exactly those of `parsed << 3`.
   */
  lemma ChmodBits(mode: bv32, parsed: Num)
    ensures ChmodMode(mode, parsed) & (mode & CHMOD_KEEP) == mode & CHMOD_KEEP
    ensures ChmodMode(mode, parsed) & CHMOD_KEEP == (mode & CHMOD_KEEP) | ((NumBits(parsed) << 3) & 0xF000)
    ensures ChmodMode(mode, parsed) & 0xFF8 == (NumBits(parsed) << 3) & 0xFF8
  {
  }

  /**
   * Since `parseModeArg` has already shifted 0o755 and `chmod` shifts again, `chmod(0o755)` turns
   * on every type bit of a regular file: afterwards each type predicate holds.
   */
  lemma ChmodShiftsTwice(mode: bv32)
    requires IsFile(mode)
    ensures ParseModeArg(MNum(0x1ED)) == Ok(Finite(0xF68))
    ensures var m := ChmodMode(mode, Finite(0xF68));
      IsFile(m) && IsDirectory(m) && IsSymbolicLink(m) && IsSocket(m) && IsBlockDevice(m) && IsCharacterDevice(m) && IsFIFO(m)
  {
    AsBitsSmall(0xF68);
  }

  /** An open-flag argument: a name from the table or a number. */
  datatype FlagArg = FlagName(name: string) | FlagNumber(n: int)

  /** The `FLAGS` table of open-flag names, each the sum of its (distinct) `O_*` bits. */
  const FLAGS: map<string, int> := map[
    "a" := O_CREAT + O_APPEND,
    "ax" := O_CREAT + O_EXCL + O_APPEND,
    "a+" := O_RDONLY + O_CREAT + O_APPEND,
    "ax+" := O_RDONLY + O_CREAT + O_EXCL + O_APPEND,
    "as" := O_CREAT + O_APPEND + O_SYNC,
    "as+" := O_RDONLY + O_CREAT + O_APPEND + O_SYNC,
    "r" := O_RDONLY,
    "rs" := O_RDONLY + O_SYNC,
    "r+" := O_RDONLY + O_WRONLY,
    "rs+" := O_RDONLY + O_WRONLY + O_SYNC,
    "w" := O_WRONLY + O_CREAT + O_TRUNC,
    "wx" := O_WRONLY + O_CREAT + O_EXCL + O_TRUNC,
    "w+" := O_RDONLY + O_WRONLY + O_CREAT + O_TRUNC,
    "wx+" := O_RDONLY + O_WRONLY + O_CREAT + O_EXCL + O_TRUNC
  ]

  /** `parseFlag(flag)`: the table entry for a name (`undefined` for an unknown one), a number unchanged. */
  function ParseFlag(flag: FlagArg): Option<int>
  {
    match flag
    case FlagName(name) => if name in FLAGS then Some(FLAGS[name]) else None
    case FlagNumber(n) => Some(n)
  }

  /** Bit `f` (a power of two) is set in the non-negative number `x`. */
  predicate HasFlag(x: int, f: nat)
    requires f > 0
  {
    (x / f) % 2 == 1
  }

  /** The fourteen names the table knows; any other name parses as `undefined`. */
  lemma FlagNames(name: string)
    ensures ParseFlag(FlagName(name)).Some? <==>
      name in {"a", "ax", "a+", "ax+", "as", "as+", "r", "rs", "r+", "rs+", "w", "wx", "w+", "wx+"}
  {
  }

  /**
   * What a name's letters mean: `w` truncates and `a` appends (and neither of them with `r`),
   * everything but `r` creates, `x` is exclusive, `s` synchronous, and `+` adds reading to `a`
   * and `w` and writing to `r`.
   */
  lemma FlagLetters(name: string)
    requires name in FLAGS
    ensures |name| >= 1
    ensures HasFlag(FLAGS[name], O_TRUNC) <==> name[0] == 'w'
    ensures HasFlag(FLAGS[name], O_APPEND) <==> name[0] == 'a'
    ensures HasFlag(FLAGS[name], O_CREAT) <==> name[0] != 'r'
    ensures HasFlag(FLAGS[name], O_EXCL) <==> 'x' in name
    ensures HasFlag(FLAGS[name], O_SYNC) <==> 's' in name
    ensures HasFlag(FLAGS[name], O_RDONLY) <==> name[0] == 'r' || '+' in name
    ensures HasFlag(FLAGS[name], O_WRONLY) <==> name[0] == 'w' || (name[0] == 'r' && '+' in name)
  {
  }
}
