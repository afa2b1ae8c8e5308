/** String operations of JavaScript that the backend relies on: prefix and suffix
    tests, `includes`, `split(' ')`, `replace(/[:.]/g, '-')`, `toUpperCase`,
    `Number.prototype.toString` on non-negative integers and `parseInt`. */
module Text {
  import opened Wrappers

  predicate StartsWith(s: string, prefix: string) {
    |prefix| <= |s| && s[..|prefix|] == prefix
  }

  predicate EndsWith(s: string, suffix: string) {
    |suffix| <= |s| && s[|s| - |suffix|..] == suffix
  }

  /** `s.includes(p)` */
  predicate Contains(s: string, p: string)
    decreases |s|
  {
    StartsWith(s, p) || (|s| > 0 && Contains(s[1..], p))
  }

  /** The characters of JavaScript's `\s` class (white space and line terminators). */
  predicate IsJsSpace(c: char) {
    c == ' ' || c == '\t' || c == '\n' || c == '\r' || c == '\U{000B}' || c == '\U{000C}'
    || c == '\U{00A0}' || c == '\U{1680}' || ('\U{2000}' <= c <= '\U{200A}')
    || c == '\U{2028}' || c == '\U{2029}' || c == '\U{202F}' || c == '\U{205F}'
    || c == '\U{3000}' || c == '\U{FEFF}'
  }


  /** The string with every character of `from` replaced by `to`
      (`s.replace(/[:.]/g, '-')` is `ReplaceChars(s, {':', '.'}, '-')`). */
  function ReplaceChars(s: string, from: set<char>, to: char): string {
    seq(|s|, i requires 0 <= i < |s| => if s[i] in from then to else s[i])
  }

  /** Replacing by a character outside `from` leaves no character of `from`, so a
      second replacement changes nothing; every other character keeps its place. */
  lemma ReplaceCharsClears(s: string, from: set<char>, to: char)
    requires to !in from
    ensures forall i :: 0 <= i < |s| ==> ReplaceChars(s, from, to)[i] !in from
    ensures forall i :: 0 <= i < |s| && s[i] !in from ==> ReplaceChars(s, from, to)[i] == s[i]
    ensures ReplaceChars(ReplaceChars(s, from, to), from, to) == ReplaceChars(s, from, to)
  {
  }

  /** `toUpperCase` restricted to the ASCII letters. */
  function UpperChar(c: char): char {
    if 'a' <= c <= 'z' then (c as int - 32) as char else c
  }

  function ToUpper(s: string): (r: string)
    ensures |r| == |s|
    ensures forall i :: 0 <= i < |s| ==> r[i] == UpperChar(s[i])
  {
    seq(|s|, i requires 0 <= i < |s| => UpperChar(s[i]))
  }

  lemma ToUpperIdempotent(s: string)
    ensures ToUpper(ToUpper(s)) == ToUpper(s)
    ensures forall i :: 0 <= i < |s| ==> !('a' <= ToUpper(s)[i] <= 'z')
  {
  }

  /** `toLowerCase` restricted to the ASCII letters. */
  function LowerChar(c: char): char {
    if 'A' <= c <= 'Z' then (c as int + 32) as char else c
  }

  function ToLower(s: string): (r: string)
    ensures |r| == |s|
    ensures forall i :: 0 <= i < |s| ==> r[i] == LowerChar(s[i])
  {
    seq(|s|, i requires 0 <= i < |s| => LowerChar(s[i]))
  }

  /** `s.trimEnd()` */
  function TrimEnd(s: string): string
    decreases |s|
  {
    if |s| > 0 && IsJsSpace(s[|s| - 1]) then TrimEnd(s[..|s| - 1]) else s
  }

  /** `s.trim()`: white space and line terminators removed from both ends. */
  function Trim(s: string): string {
    TrimEnd(TrimStart(s))
  }

  /** What `trimEnd` returns is a prefix of its argument that does not end in white
      space. (Stated as lemmas rather than on the functions, whose callers then need
      not reason about the slices.) */
  lemma {:induction false} TrimEndShape(s: string)
    ensures |TrimEnd(s)| <= |s| && TrimEnd(s) == s[..|TrimEnd(s)|]
    ensures TrimEnd(s) == [] || !IsJsSpace(TrimEnd(s)[|TrimEnd(s)| - 1])
    decreases |s|
  {
    if |s| > 0 && IsJsSpace(s[|s| - 1]) {
      TrimEndShape(s[..|s| - 1]);
    }
  }

  /** What `trimStart` returns is a suffix of its argument that does not start with
      white space. */
  lemma {:induction false} TrimStartShape(s: string)
    ensures |TrimStart(s)| <= |s| && TrimStart(s) == s[|s| - |TrimStart(s)|..]
    ensures TrimStart(s) == [] || !IsJsSpace(TrimStart(s)[0])
    decreases |s|
  {
    if |s| > 0 && IsJsSpace(s[0]) {
      TrimStartShape(s[1..]);
    }
  }

  /** `trim` leaves a piece of its argument with white space at neither end. */
  lemma TrimShape(s: string)
    ensures |Trim(s)| <= |s| && Trimmed(Trim(s))
  {
    var t := TrimStart(s);
    TrimStartShape(s);
    TrimEndShape(t);
    var r := TrimEnd(t);
    if r != [] {
      assert r[0] == t[0];
    }
  }

  /** What `trim` removes is white space, at the two ends only: the result is a
      contiguous piece of `s` with nothing but white space around it. */
  lemma TrimMeaning(s: string)
    ensures exists i, j :: (0 <= i <= j <= |s| && Trim(s) == s[i..j] &&
      (forall k :: 0 <= k < i ==> IsJsSpace(s[k])) && (forall k :: j <= k < |s| ==> IsJsSpace(s[k])))
  {
    TrimStartMeaning(s);
    TrimStartShape(s);
    var t := TrimStart(s);
    var i := |s| - |t|;
    TrimEndMeaning(t);
    TrimEndShape(t);
    var j := i + |TrimEnd(t)|;
    assert Trim(s) == s[i..j];
    forall k | j <= k < |s| ensures IsJsSpace(s[k]) {
      assert s[k] == t[k - i];
    }
  }

  lemma {:induction false} TrimStartMeaning(s: string)
    ensures forall k :: 0 <= k < |s| - |TrimStart(s)| ==> IsJsSpace(s[k])
    decreases |s|
  {
    if |s| > 0 && IsJsSpace(s[0]) {
      TrimStartMeaning(s[1..]);
      forall k | 0 < k < |s| - |TrimStart(s)| ensures IsJsSpace(s[k]) {
        assert s[k] == s[1..][k - 1];
      }
    }
  }

  lemma {:induction false} TrimEndMeaning(s: string)
    ensures forall k :: |TrimEnd(s)| <= k < |s| ==> IsJsSpace(s[k])
    decreases |s|
  {
    if |s| > 0 && IsJsSpace(s[|s| - 1]) {
      TrimEndMeaning(s[..|s| - 1]);
    }
  }

  /** A string with no white space at either end is its own trim. */
  lemma TrimFixed(s: string)
    requires Trimmed(s)
    ensures Trim(s) == s
  {
  }

  /** Lower-casing maps white space to itself and nothing else to white space. */
  lemma LowerKeepsSpace(c: char)
    ensures IsJsSpace(LowerChar(c)) == IsJsSpace(c)
  {
    if 'A' <= c <= 'Z' {
      assert 'a' <= LowerChar(c) <= 'z';
    }
  }

  /** Trimming and lower-casing: once done, doing them again changes nothing. */
  lemma TrimLowerIdempotent(s: string)
    ensures Trim(Trim(s)) == Trim(s)
    ensures Trim(ToLower(Trim(s))) == ToLower(Trim(s))
    ensures ToLower(ToLower(s)) == ToLower(s)
  {
    var t := Trim(s);
    TrimShape(s);
    TrimFixed(t);
    LowerTrimmed(t);
    TrimFixed(ToLower(t));
    ToLowerIdempotent(s);
  }

  /** Lower-casing a trimmed string leaves it trimmed, and without capitals. */
  lemma LowerTrimmed(t: string)
    requires Trimmed(t)
    ensures Trimmed(ToLower(t)) && Lowered(ToLower(t))
  {
    if t != [] {
      LowerKeepsSpace(t[0]);
      LowerKeepsSpace(t[|t| - 1]);
    }
    forall i | 0 <= i < |t| ensures !('A' <= ToLower(t)[i] <= 'Z') {
      LowerCharLower(t[i]);
    }
  }

  lemma LowerCharLower(c: char)
    ensures !('A' <= LowerChar(c) <= 'Z')
  {
  }

  lemma ToLowerIdempotent(s: string)
    ensures ToLower(ToLower(s)) == ToLower(s)
  {
    var l := ToLower(s);
    forall i | 0 <= i < |s| ensures ToLower(l)[i] == l[i] {
      LowerCharIdempotent(s[i]);
    }
  }

  lemma LowerCharIdempotent(c: char)
    ensures LowerChar(LowerChar(c)) == LowerChar(c)
  {
    if 'A' <= c <= 'Z' {
      assert 'a' <= LowerChar(c) <= 'z';
    }
  }

  /** No white space at either end: what `trim` leaves. */
  predicate Trimmed(s: string) {
    s == [] || (!IsJsSpace(s[0]) && !IsJsSpace(s[|s| - 1]))
  }

  /** No ASCII capital letter: what `toLowerCase` leaves. */
  predicate Lowered(s: string) {
    forall i :: 0 <= i < |s| ==> !('A' <= s[i] <= 'Z')
  }

  /** The strings `trim` leaves alone are exactly the trimmed ones. */
  lemma TrimmedMeans(s: string)
    ensures Trimmed(s) <==> Trim(s) == s
  {
    TrimShape(s);
    if Trimmed(s) {
      TrimFixed(s);
    }
  }

  /** The strings `toLowerCase` leaves alone are exactly those without capitals. */
  lemma LoweredMeans(s: string)
    ensures Lowered(s) <==> ToLower(s) == s
  {
    if ToLower(s) == s {
      forall i | 0 <= i < |s| ensures !('A' <= s[i] <= 'Z') {
        assert s[i] == LowerChar(s[i]);
      }
    }
  }

  /** A string without white space is its own trim. */
  lemma TrimNoSpace(s: string)
    requires forall i :: 0 <= i < |s| ==> !IsJsSpace(s[i])
    ensures Trim(s) == s
  {
    TrimFixed(s);
  }

  // ---------------------------------------------------------------- split(' ')

  /** `s.split(sep)` for a one-character separator: the fields between separators,
      empty fields included. */
  function Split(s: string, sep: char): (parts: seq<string>)
    ensures |parts| >= 1
    decreases |s|
  {
    if s == [] then [""]
    else if s[0] == sep then [""] + Split(s[1..], sep)
    else
      var rest := Split(s[1..], sep);
      [[s[0]] + rest[0]] + rest[1..]
  }

  /** `parts.join(sep)` */
  function Join(parts: seq<string>, sep: char): string
    requires |parts| >= 1
    decreases |parts|
  {
    if |parts| == 1 then parts[0] else parts[0] + [sep] + Join(parts[1..], sep)
  }

  /** Splitting loses nothing: joining the fields back gives the string, and no field
      contains the separator. */
  lemma {:induction false} SplitJoin(s: string, sep: char)
    ensures Join(Split(s, sep), sep) == s
    ensures forall i :: 0 <= i < |Split(s, sep)| ==> sep !in Split(s, sep)[i]
    decreases |s|
  {
    if s == [] {
    } else if s[0] == sep {
      SplitJoin(s[1..], sep);
      var rest := Split(s[1..], sep);
      assert Split(s, sep) == [""] + rest;
      assert Split(s, sep)[1..] == rest;
      assert s == [sep] + s[1..];
    } else {
      SplitJoin(s[1..], sep);
      var rest := Split(s[1..], sep);
      var parts := Split(s, sep);
      assert parts == [[s[0]] + rest[0]] + rest[1..];
      if |rest| == 1 {
        assert s == [s[0]] + s[1..];
      } else {
        assert parts[1..] == rest[1..];
        assert Join(rest, sep) == rest[0] + [sep] + Join(rest[1..], sep);
        assert s == [s[0]] + s[1..];
      }
      forall i | 0 <= i < |parts| ensures sep !in parts[i] {
        if i > 0 { assert parts[i] == rest[i]; }
        else {
          assert parts[0] == [s[0]] + rest[0];
        }
      }
    }
  }

  // ---------------------------------------------------------------- digits

  function Pow10(n: nat): nat {
    if n == 0 then 1 else 10 * Pow10(n - 1)
  }

  /** The digit value of a character in `parseInt`'s sense (letters count from 10),
      or 99 for a character that is no digit at all. */
  function CharDigit(c: char): nat {
    if '0' <= c <= '9' then c as int - '0' as int
    else if 'a' <= c <= 'z' then c as int - 'a' as int + 10
    else if 'A' <= c <= 'Z' then c as int - 'A' as int + 10
    else 99
  }

  predicate IsRadixDigit(c: char, radix: nat) {
    CharDigit(c) < radix
  }

  predicate IsDigit(c: char) {
    '0' <= c <= '9'
  }

  predicate AllRadixDigits(s: string, radix: nat) {
    forall i :: 0 <= i < |s| ==> IsRadixDigit(s[i], radix)
  }

  predicate AllDigits(s: string) {
    forall i :: 0 <= i < |s| ==> IsDigit(s[i])
  }

  /** The number a string of digits denotes in the given radix. */
  function RadixValue(s: string, radix: nat): nat
    decreases |s|
  {
    if s == [] then 0 else radix * RadixValue(s[..|s| - 1], radix) + CharDigit(s[|s| - 1])
  }

  function DigitChar(d: nat): char
    requires d < 10
  {
    ('0' as int + d) as char
  }

  /** The last `width` decimal digits of `n`, zero-padded. */
  function Padded(n: nat, width: nat): string
    decreases width
  {
    if width == 0 then "" else Padded(n / 10, width - 1) + [DigitChar(n % 10)]
  }

  lemma {:induction false} PaddedLength(n: nat, width: nat)
    ensures |Padded(n, width)| == width
    decreases width
  {
    if width > 0 {
      PaddedLength(n / 10, width - 1);
    }
  }

  lemma {:induction false} PaddedRoundTrip(n: nat, width: nat)
    requires n < Pow10(width)
    ensures |Padded(n, width)| == width
    ensures AllDigits(Padded(n, width))
    ensures RadixValue(Padded(n, width), 10) == n
    decreases width
  {
    if width > 0 {
      assert n / 10 < Pow10(width - 1);
      PaddedRoundTrip(n / 10, width - 1);
      var p := Padded(n, width);
      assert p[..|p| - 1] == Padded(n / 10, width - 1);
    }
  }

  /** `String(n)` for a non-negative integer: its decimal digits, no leading zero. */
  function Decimal(n: nat): string
    decreases n
  {
    if n < 10 then [DigitChar(n)] else Decimal(n / 10) + [DigitChar(n % 10)]
  }

  lemma {:induction false} DecimalRoundTrip(n: nat)
    ensures |Decimal(n)| >= 1
    ensures AllDigits(Decimal(n))
    ensures RadixValue(Decimal(n), 10) == n
    ensures |Decimal(n)| > 1 ==> Decimal(n)[0] != '0'
    decreases n
  {
    if n >= 10 {
      DecimalRoundTrip(n / 10);
      var d := Decimal(n);
      assert d[..|d| - 1] == Decimal(n / 10);
      assert d[0] == Decimal(n / 10)[0];
      if |Decimal(n / 10)| == 1 {
        assert n / 10 >= 1;
        assert RadixValue(Decimal(n / 10), 10) == CharDigit(Decimal(n / 10)[0]);
      }
    }
  }

  /** A number of exactly `width` digits prints as its padded form. */
  lemma {:induction false} DecimalIsPadded(n: nat, width: nat)
    requires width >= 1 && Pow10(width - 1) <= n < Pow10(width)
    ensures Decimal(n) == Padded(n, width)
    decreases width
  {
    if width == 1 {
      assert Padded(n / 10, 0) == "";
    } else {
      assert Pow10(width - 2) <= n / 10 < Pow10(width - 1);
      DecimalIsPadded(n / 10, width - 1);
    }
  }

  // ---------------------------------------------------------------- parseInt

  function TrimStart(s: string): string
    decreases |s|
  {
    if |s| > 0 && IsJsSpace(s[0]) then TrimStart(s[1..]) else s
  }

  /** The longest prefix of `s` made of digits of the radix. */
  function DigitRun(s: string, radix: nat): (r: string)
    ensures |r| <= |s| && r == s[..|r|]
    ensures AllRadixDigits(r, radix)
    ensures |r| < |s| ==> !IsRadixDigit(s[|r|], radix)
    decreases |s|
  {
    if s == [] || !IsRadixDigit(s[0], radix) then [] else [s[0]] + DigitRun(s[1..], radix)
  }

  /** JavaScript's `parseInt(s)` without a radix argument: leading white space, an
      optional sign, then the magnitude; `None` stands for `NaN`. */
  function ParseInt(s: string): Option<int> {
    var t := TrimStart(s);
    var negative := |t| > 0 && t[0] == '-';
    var u := if |t| > 0 && (t[0] == '-' || t[0] == '+') then t[1..] else t;
    match ParseMagnitude(u)
    case None => None
    case Some(m) => Some(if negative then -(m as int) else m)
  }

  /** The unsigned part of `parseInt`: a `0x`/`0X` prefix for hexadecimal, then the
      longest run of digits of the radix, which must not be empty. */
  function ParseMagnitude(u: string): Option<nat> {
    var hex := |u| >= 2 && u[0] == '0' && (u[1] == 'x' || u[1] == 'X');
    var radix := if hex then 16 else 10;
    var run := DigitRun(if hex then u[2..] else u, radix);
    if run == [] then None else Some(RadixValue(run, radix))
  }

  lemma {:induction false} DigitRunOfDigits(s: string)
    requires AllDigits(s)
    ensures DigitRun(s, 10) == s
    decreases |s|
  {
    if s != [] {
      DigitRunOfDigits(s[1..]);
    }
  }

  /** `parseInt` skips nothing before a leading digit. */
  lemma TrimStartDigit(s: string)
    requires s != [] && IsDigit(s[0])
    ensures TrimStart(s) == s
  {
    assert !IsJsSpace(s[0]);
  }

  /** `Number.MAX_SAFE_INTEGER`, 2^53 - 1: up to it a JavaScript number holds every
      integer exactly. */
  const MAX_SAFE_INTEGER: nat := 0x1F_FFFF_FFFF_FFFF

  /** A string starting with a decimal digit and no `0x` prefix parses to the value
      of its leading digit run, when that value is one a JavaScript number holds
      exactly. */
  lemma ParseIntPlain(s: string)
    requires s != [] && IsDigit(s[0]) && (|s| >= 2 ==> s[1] != 'x' && s[1] != 'X')
    requires RadixValue(DigitRun(s, 10), 10) <= MAX_SAFE_INTEGER
    ensures ParseInt(s) == Some(RadixValue(DigitRun(s, 10), 10) as int)
  {
    TrimStartDigit(s);
    ParseIntUnsigned(s);
    MagnitudePlain(s);
    assert DigitRun(s, 10) != [] by {
      assert IsRadixDigit(s[0], 10);
    }
  }

  /** With nothing to skip and no sign, `parseInt` is the magnitude alone. */
  lemma ParseIntUnsigned(s: string)
    requires TrimStart(s) == s && s != [] && s[0] != '-' && s[0] != '+'
    ensures ParseInt(s) == match ParseMagnitude(s) case None => None case Some(m) => Some(m as int)
  {
  }

  /** Without a `0x` prefix the magnitude is read in decimal. */
  lemma MagnitudePlain(u: string)
    requires !(|u| >= 2 && u[0] == '0' && (u[1] == 'x' || u[1] == 'X'))
    ensures ParseMagnitude(u) == if DigitRun(u, 10) == [] then None else Some(RadixValue(DigitRun(u, 10), 10))
  {
  }

  /** A non-empty string of decimal digits parses to the number it denotes, up to
      the largest safe integer. */
  lemma ParseIntDigits(d: string)
    requires d != [] && AllDigits(d) && RadixValue(d, 10) <= MAX_SAFE_INTEGER
    ensures ParseInt(d) == Some(RadixValue(d, 10) as int)
  {
    assert IsDigit(d[0]);
    if |d| >= 2 {
      assert IsDigit(d[1]);
    }
    DigitRunOfDigits(d);
    ParseIntPlain(d);
  }

  /** `parseInt(String(n)) === n` for every safe non-negative integer; `String(n)`
      prints such an integer in plain decimal. */
  lemma ParseIntDecimal(n: nat)
    requires n <= MAX_SAFE_INTEGER
    ensures ParseInt(Decimal(n)) == Some(n)
  {
    DecimalRoundTrip(n);
    ParseIntDigits(Decimal(n));
  }

  /** A string whose first non-blank character is neither a sign nor a digit parses to
      `NaN`. */
  lemma ParseIntNonNumeric(s: string)
    requires var t := TrimStart(s); t == [] || (t[0] != '-' && t[0] != '+' && !IsDigit(t[0]))
    ensures ParseInt(s) == None
  {
  }
}
