/**
 * Coercion of one command-line token into a typed value (CommandLineParser.swift,
 * `CommandLineArgumentTypes` and `parseInput`). The filesystem that the path kinds query
 * and that `OutputFolderPath` updates is an abstract value threaded through the call.
 */
module Coercion {
  import opened Wrappers

  /** The declared kind of an argument. */
  datatype ArgType =
    | String
    | Int
    | UInt
    | Flag
    | FilePath
    | OutputFilePath
    | FolderPath
    | OutputFolderPath
  {
    predicate IsPath() {
      FilePath? || OutputFilePath? || FolderPath? || OutputFolderPath?
    }
  }

  /**
   * The tagged value that replaces the source's `Any` slot. `Unsigned` keeps the optional
   * that `UInt(input) as Any` boxes, so an unparsable unsigned token is a present value holding
   * `None`.
   */
  datatype ArgValue =
    | Text(text: string)
    | Integer(number: int)
    | Unsigned(unsigned: Option<nat>)
    | Bool(flag: bool)

  // Bounds of Swift's 64-bit `Int` and `UInt`.
  const Int64Min: int := -0x8000_0000_0000_0000
  const Int64Max: int := 0x7FFF_FFFF_FFFF_FFFF
  const UInt64Max: int := 0xFFFF_FFFF_FFFF_FFFF

  predicate IsDigit(c: char) {
    '0' <= c <= '9'
  }

  predicate AllDigits(s: string) {
    forall k :: 0 <= k < |s| ==> IsDigit(s[k])
  }

  /** The number a string of decimal digits denotes, read most significant digit first. */
  function DigitsValue(s: string): nat
    requires AllDigits(s)
    decreases |s|
  {
    if s == [] then 0 else DigitsValue(s[..|s| - 1]) * 10 + (s[|s| - 1] as int - '0' as int)
  }

  /**
   * What Swift's integer initialiser from text reads before its range check: an optional
   * `+` or `-`, then at least one ASCII decimal digit and nothing else.
   */
  function SignedValue(s: string): Option<int> {
    if |s| > 0 && (s[0] == '-' || s[0] == '+') then
      if |s| > 1 && AllDigits(s[1..]) then
        var magnitude: int := DigitsValue(s[1..]);
        Some(if s[0] == '-' then -magnitude else magnitude)
      else
        None
    else if |s| > 0 && AllDigits(s) then
      Some(DigitsValue(s))
    else
      None
  }

  /** `Int(text)`: the signed value, if it fits in 64 bits. */
  function ParseInt(s: string): (r: Option<int>)
    ensures r.Some? ==> Int64Min <= r.value <= Int64Max
    ensures r.Some? ==> SignedValue(s) == r
  {
    match SignedValue(s)
    case Some(v) => if Int64Min <= v <= Int64Max then Some(v) else None
    case None => None
  }

  /**
   * `UInt(text)`: the value, if it lies in the unsigned 64-bit range. A minus sign is accepted
   * in front of zeros only ("-0" reads as 0), as the digit-by-digit subtraction overflows on
   * anything else.
   */
  function ParseUInt(s: string): (r: Option<nat>)
    ensures r.Some? ==> r.value <= UInt64Max
    ensures r.Some? ==> SignedValue(s) == Some(r.value as int)
  {
    match SignedValue(s)
    case Some(v) => if 0 <= v <= UInt64Max then Some(v as nat) else None
    case None => None
  }

  /**
   * The `.Int` case: a plain decimal parse first; failing that, a token starting with `0x`
   * has its remainder parsed, again as DECIMAL (no radix is passed).
   */
  function CoerceInt(s: string): (r: Option<int>)
    ensures r.Some? ==> Int64Min <= r.value <= Int64Max
    // A plain decimal reading wins; the "0x" prefix is a fallback, and the rest is decimal too.
    ensures ParseInt(s).Some? ==> r == ParseInt(s)
    ensures r.Some? && ParseInt(s).None? ==> |s| >= 2 && s[..2] == "0x" && r == ParseInt(s[2..])
    ensures r.None? <==> ParseInt(s).None? && (|s| < 2 || s[..2] != "0x" || ParseInt(s[2..]).None?)
  {
    match ParseInt(s)
    case Some(v) => Some(v)
    case None => if |s| >= 2 && s[..2] == "0x" then ParseInt(s[2..]) else None
  }

  function DigitChar(d: nat): (c: char)
    requires d < 10
    ensures IsDigit(c) && c as int - '0' as int == d
  {
    ('0' as int + d) as char
  }

  /** The decimal digits of a natural number, most significant first, no leading zeros. */
  function DecimalDigits(n: nat): string
    decreases n
  {
    if n < 10 then [DigitChar(n)] else DecimalDigits(n / 10) + [DigitChar(n % 10)]
  }

  /** The decimal text of an integer, with a leading `-` when negative. */
  function Decimal(n: int): string {
    if n < 0 then "-" + DecimalDigits(-n) else DecimalDigits(n)
  }

  lemma {:induction false} DecimalDigitsValue(n: nat)
    ensures |DecimalDigits(n)| > 0 && AllDigits(DecimalDigits(n))
    ensures DigitsValue(DecimalDigits(n)) == n
    decreases n
  {
    if n >= 10 {
      DecimalDigitsValue(n / 10);
      var s := DecimalDigits(n);
      assert s[..|s| - 1] == DecimalDigits(n / 10);
    }
  }

  /** Parsing the decimal text of any 64-bit integer gives that integer back. */
  lemma ParseIntRoundTrip(n: int)
    requires Int64Min <= n <= Int64Max
    ensures ParseInt(Decimal(n)) == Some(n)
  {
    var s := Decimal(n);
    if n < 0 {
      DecimalDigitsValue(-n);
      assert s[1..] == DecimalDigits(-n);
    } else {
      DecimalDigitsValue(n);
    }
  }

  /** Parsing the decimal text of any unsigned 64-bit integer gives that integer back. */
  lemma ParseUIntRoundTrip(n: nat)
    requires n <= UInt64Max
    ensures ParseUInt(DecimalDigits(n)) == Some(n)
  {
    DecimalDigitsValue(n);
  }

  /**
   * The `.Int` coercion accepts `0x` followed by the DECIMAL text of any 64-bit integer and
   * yields that integer: the prefix does not switch to hexadecimal.
   */
  lemma HexPrefixReadsDecimal(n: int)
    requires Int64Min <= n <= Int64Max
    ensures CoerceInt("0x" + Decimal(n)) == Some(n)
  {
    var s := "0x" + Decimal(n);
    assert !IsDigit(s[1]);
    assert SignedValue(s) == None;
    assert s[..2] == "0x" && s[2..] == Decimal(n);
    ParseIntRoundTrip(n);
  }

  /** The four sample tokens: "31" and "0x31" give 31; "0x1f" and "abc" fail. */
  lemma IntCoercionSamples()
    ensures CoerceInt("31") == Some(31)
    ensures CoerceInt("0x31") == Some(31)
    ensures CoerceInt("0x1f") == None
    ensures CoerceInt("abc") == None
  {
    ParseIntRoundTrip(31);
    assert Decimal(31) == "31";
    HexPrefixReadsDecimal(31);
    assert "0x31" == "0x" + Decimal(31);
    var h := "0x1f";
    assert !IsDigit(h[1]) && !IsDigit(h[3]);
    assert h[2..] == "1f" && !IsDigit("1f"[1]);
    assert !IsDigit("abc"[0]);
  }

  /** What a path names in the abstract filesystem. */
  datatype Entry = File | Directory

  /**
   * The filesystem as the coercions see it: the existing paths, and the absent paths at which
   * a non-recursive directory creation would succeed (its parent exists, permissions allow).
   */
  datatype FileSystem = FileSystem(entries: map<string, Entry>, creatable: set<string>)

  predicate IsDirectory(fs: FileSystem, path: string) {
    path in fs.entries && fs.entries[path] == Directory
  }

  predicate IsFile(fs: FileSystem, path: string) {
    path in fs.entries && fs.entries[path] == File
  }

  /** The coerced value (None for a failure) and the filesystem afterwards. */
  datatype Coerced = Coerced(value: Option<ArgValue>, fs: FileSystem)

  /** `parseInput`: coerce one token according to the declared kind. */
  function ParseInput(input: string, kind: ArgType, fs: FileSystem): (r: Coerced)
    // Only OutputFolderPath touches the filesystem, and then only by adding `input` itself.
    ensures !kind.OutputFolderPath? ==> r.fs == fs
    ensures r.fs.creatable == fs.creatable
    ensures forall p :: p in fs.entries ==> p in r.fs.entries && r.fs.entries[p] == fs.entries[p]
    ensures forall p :: p in r.fs.entries && p !in fs.entries ==>
              p == input && r.fs.entries[p] == Directory && r.value.Some?
    ensures kind.String? ==> r.value == Some(Text(input))
    ensures kind.Flag? ==> r.value == Some(Bool(true))
    ensures kind.Int? ==> r.value == (if CoerceInt(input).Some? then Some(Integer(CoerceInt(input).value)) else None)
    ensures kind.UInt? ==> r.value == Some(Unsigned(ParseUInt(input)))
    // A path kind hands back the token itself when it accepts it.
    ensures kind.IsPath() && r.value.Some? ==> r.value == Some(Text(input))
    ensures kind.FilePath? ==> (r.value.Some? <==> IsFile(fs, input))
    ensures kind.OutputFilePath? ==> (r.value.Some? <==> !IsDirectory(fs, input))
    ensures kind.FolderPath? ==> (r.value.Some? <==> IsDirectory(fs, input))
    ensures kind.OutputFolderPath? ==>
              (r.value.Some? <==> IsDirectory(fs, input) || (input !in fs.entries && input in fs.creatable))
    ensures kind.OutputFolderPath? && r.value.Some? ==> IsDirectory(r.fs, input)
  {
    match kind
    case String => Coerced(Some(Text(input)), fs)
    case Int =>
      (match CoerceInt(input)
       case Some(v) => Coerced(Some(Integer(v)), fs)
       case None => Coerced(None, fs))
    case UInt => Coerced(Some(Unsigned(ParseUInt(input))), fs)
    case Flag => Coerced(Some(Bool(true)), fs)
    case FilePath =>
      if input !in fs.entries then Coerced(None, fs)
      else if fs.entries[input] == Directory then Coerced(None, fs)
      else Coerced(Some(Text(input)), fs)
    case OutputFilePath =>
      if input in fs.entries && fs.entries[input] == Directory then Coerced(None, fs)
      else Coerced(Some(Text(input)), fs)
    case FolderPath =>
      if input !in fs.entries then Coerced(None, fs)
      else if fs.entries[input] != Directory then Coerced(None, fs)
      else Coerced(Some(Text(input)), fs)
    case OutputFolderPath =>
      if input in fs.entries then
        if fs.entries[input] != Directory then Coerced(None, fs) else Coerced(Some(Text(input)), fs)
      else if input in fs.creatable then
        Coerced(Some(Text(input)), fs.(entries := fs.entries[input := Directory]))
      else
        Coerced(None, fs)
  }

  /** OutputFolderPath on an absent path adds exactly that directory and nothing else. */
  lemma OutputFolderCreatesExactlyOne(input: string, fs: FileSystem)
    requires input !in fs.entries && input in fs.creatable
    ensures ParseInput(input, OutputFolderPath, fs) ==
            Coerced(Some(Text(input)), FileSystem(fs.entries[input := Directory], fs.creatable))
  {
  }
}
