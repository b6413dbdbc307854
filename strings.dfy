/** Python string operations the core relies on, over `seq<char>`. */
module Strings {
  import opened Wrappers

  /** `s.split(c)` with a one-character separator: never empty, keeps empty fields. */
  function Split(s: string, c: char): (parts: seq<string>)
    ensures |parts| >= 1
    ensures forall i :: 0 <= i < |parts| ==> c !in parts[i]
    decreases |s|
  {
    if |s| == 0 then [""]
    else if s[0] == c then [""] + Split(s[1..], c)
    else
      var rest := Split(s[1..], c);
      [[s[0]] + rest[0]] + rest[1..]
  }

  /** `c.join(parts)` with a one-character separator. */
  function Join(parts: seq<string>, c: char): (s: string)
    decreases |parts|
  {
    if |parts| == 0 then ""
    else if |parts| == 1 then parts[0]
    else parts[0] + [c] + Join(parts[1..], c)
  }

  /** Joining the pieces of a split gives back the string. */
  lemma {:induction false} JoinSplit(s: string, c: char)
    ensures Join(Split(s, c), c) == s
    decreases |s|
  {
    if |s| == 0 {
    } else if s[0] == c {
      JoinSplit(s[1..], c);
      var rest := Split(s[1..], c);
      assert Split(s, c) == [""] + rest;
      assert ([""] + rest)[1..] == rest;
      assert Join(Split(s, c), c) == "" + [c] + Join(rest, c);
      assert s == [s[0]] + s[1..];
    } else {
      JoinSplit(s[1..], c);
      var rest := Split(s[1..], c);
      var parts := [[s[0]] + rest[0]] + rest[1..];
      assert Split(s, c) == parts;
      if |rest| == 1 {
        assert Join(parts, c) == [s[0]] + rest[0];
        assert Join(rest, c) == rest[0];
      } else {
        assert parts[1..] == rest[1..];
        assert Join(parts, c) == [s[0]] + rest[0] + [c] + Join(rest[1..], c);
        assert Join(rest, c) == rest[0] + [c] + Join(rest[1..], c);
      }
      assert s == [s[0]] + s[1..];
    }
  }

  /** Splitting a field followed by the separator peels that field off. */
  lemma {:induction false} SplitCons(p: string, rest: string, c: char)
    requires c !in p
    ensures Split(p + [c] + rest, c) == [p] + Split(rest, c)
    decreases |p|
  {
    if |p| == 0 {
      assert p + [c] + rest == [c] + rest;
      assert ([c] + rest)[1..] == rest;
    } else {
      var s := p + [c] + rest;
      assert s[0] == p[0];
      assert s[1..] == p[1..] + [c] + rest;
      SplitCons(p[1..], rest, c);
      assert [p[0]] + p[1..] == p;
    }
  }

  /** A field without the separator splits to itself. */
  lemma {:induction false} SplitNoSep(p: string, c: char)
    requires c !in p
    ensures Split(p, c) == [p]
    decreases |p|
  {
    if |p| > 0 {
      SplitNoSep(p[1..], c);
      assert [p[0]] + p[1..] == p;
    }
  }

  /** Splitting a join of separator-free fields gives back the fields. */
  lemma {:induction false} SplitJoin(parts: seq<string>, c: char)
    requires |parts| >= 1
    requires forall i :: 0 <= i < |parts| ==> c !in parts[i]
    ensures Split(Join(parts, c), c) == parts
    decreases |parts|
  {
    if |parts| == 1 {
      SplitNoSep(parts[0], c);
    } else {
      SplitJoin(parts[1..], c);
      SplitCons(parts[0], Join(parts[1..], c), c);
      assert [parts[0]] + parts[1..] == parts;
    }
  }

  /** The last element of a non-empty sequence. */
  function Last<T>(s: seq<T>): T
    requires |s| > 0
  {
    s[|s| - 1]
  }

  /** Python's `s[i:j]` for non-negative bounds: clamped to the string. */
  function Slice(s: string, i: nat, j: nat): (r: string)
    ensures |r| <= |s|
  {
    var lo := if i < |s| then i else |s|;
    var hi := if j < |s| then j else |s|;
    if lo <= hi then s[lo..hi] else ""
  }

  /** ASCII `str.lower()`; other characters are left as they are. */
  function LowerChar(ch: char): char {
    if 'A' <= ch <= 'Z' then (ch as int + 32) as char else ch
  }

  function Lower(s: string): (r: string)
    ensures |r| == |s|
    ensures forall i :: 0 <= i < |s| ==> r[i] == LowerChar(s[i])
  {
    seq(|s|, i requires 0 <= i < |s| => LowerChar(s[i]))
  }

  /** `needle` occurs in `hay` at position `i`. */
  predicate OccursAt(hay: string, needle: string, i: int) {
    0 <= i <= |hay| - |needle| && hay[i..i + |needle|] == needle
  }

  /** `needle in hay`. */
  ghost predicate Contains(hay: string, needle: string) {
    exists i :: OccursAt(hay, needle, i)
  }

  /** `hay.find(needle)`: the first position where `needle` occurs, or -1. */
  function Find(hay: string, needle: string): (r: int)
    ensures r == -1 || 0 <= r <= |hay| - |needle|
    ensures r >= 0 ==> OccursAt(hay, needle, r)
    ensures r >= 0 ==> forall j :: 0 <= j < r ==> !OccursAt(hay, needle, j)
    ensures r == -1 <==> !Contains(hay, needle)
  {
    FindFrom(hay, needle, 0)
  }

  function FindFrom(hay: string, needle: string, k: nat): (r: int)
    requires forall j :: 0 <= j < k ==> !OccursAt(hay, needle, j)
    ensures r == -1 || 0 <= r <= |hay| - |needle|
    ensures r >= 0 ==> k <= r && OccursAt(hay, needle, r)
    ensures r >= 0 ==> forall j :: 0 <= j < r ==> !OccursAt(hay, needle, j)
    ensures r == -1 <==> !Contains(hay, needle)
    decreases |hay| - k
  {
    if k + |needle| > |hay| then
      assert forall j :: !OccursAt(hay, needle, j) by {
        forall j ensures !OccursAt(hay, needle, j) {
          if j < k {
          } else {
            assert j > |hay| - |needle|;
          }
        }
      }
      -1
    else if hay[k..k + |needle|] == needle then
      assert OccursAt(hay, needle, k);
      k
    else
      FindFrom(hay, needle, k + 1)
  }

  // ---------------------------------------------------------------------------
  // Decimal and hexadecimal numerals

  predicate IsDigit(ch: char) {
    '0' <= ch <= '9'
  }

  function DigitChar(d: nat): (ch: char)
    requires d < 10
    ensures IsDigit(ch)
  {
    ('0' as int + d) as char
  }

  /** `str(n)` for a natural number. */
  function Digits(n: nat): (s: string)
    ensures |s| >= 1
    ensures forall i :: 0 <= i < |s| ==> IsDigit(s[i])
    decreases n
  {
    if n < 10 then [DigitChar(n)] else Digits(n / 10) + [DigitChar(n % 10)]
  }

  /** The value of a string of decimal digits (leading zeros allowed). */
  function DecimalValue(s: string): nat
    requires forall i :: 0 <= i < |s| ==> IsDigit(s[i])
    decreases |s|
  {
    if |s| == 0 then 0
    else
      var last := s[|s| - 1];
      assert IsDigit(last);
      10 * DecimalValue(s[..|s| - 1]) + (last as int - '0' as int)
  }

  lemma {:induction false} DigitsRoundTrip(n: nat)
    ensures DecimalValue(Digits(n)) == n
    decreases n
  {
    if n >= 10 {
      DigitsRoundTrip(n / 10);
      var s := Digits(n);
      assert s[..|s| - 1] == Digits(n / 10);
    }
  }

  function Pow10(k: nat): (p: nat)
    ensures p >= 1
  {
    if k == 0 then 1 else 10 * Pow10(k - 1)
  }

  lemma {:induction false} DigitsLength(n: nat, k: nat)
    requires n < Pow10(k)
    ensures |Digits(n)| <= if k == 0 then 1 else k
    decreases n
  {
    if n >= 10 {
      assert k >= 2 by {
        assert Pow10(0) == 1 && Pow10(1) == 10;
      }
      DigitsLength(n / 10, k - 1);
    }
  }

  /** `"0" * k`. */
  function Zeros(k: nat): (s: string)
    ensures |s| == k
    ensures forall i :: 0 <= i < k ==> s[i] == '0'
  {
    seq(k, i => '0')
  }

  /** Right-justify a numeral with zeros to at least `w` characters. */
  function ZeroPad(s: string, w: nat): (r: string)
    ensures |r| == if |s| < w then w else |s|
  {
    if |s| < w then Zeros(w - |s|) + s else s
  }

  lemma {:induction false} LeadingZeros(k: nat, s: string)
    requires forall i :: 0 <= i < |s| ==> IsDigit(s[i])
    ensures forall i :: 0 <= i < |Zeros(k) + s| ==> IsDigit((Zeros(k) + s)[i])
    ensures DecimalValue(Zeros(k) + s) == DecimalValue(s)
    decreases |s|
  {
    var z := Zeros(k) + s;
    if |s| == 0 {
      assert z == Zeros(k);
      ZerosValue(k);
    } else {
      assert z[..|z| - 1] == Zeros(k) + s[..|s| - 1];
      LeadingZeros(k, s[..|s| - 1]);
    }
  }

  lemma {:induction false} ZerosValue(k: nat)
    ensures DecimalValue(Zeros(k)) == 0
  {
    if k > 0 {
      assert Zeros(k)[..k - 1] == Zeros(k - 1);
      ZerosValue(k - 1);
    }
  }

  /** Python's `"%0<w>d" % x`: the sign counts towards the width. */
  function FormatInt(x: int, w: nat): (s: string)
    ensures x >= 0 ==> |s| >= w && forall i :: 0 <= i < |s| ==> IsDigit(s[i])
    ensures x < 0 ==> |s| >= 1 && s[0] == '-'
  {
    if x < 0 then "-" + ZeroPad(Digits(-x), if w > 0 then w - 1 else 0)
    else ZeroPad(Digits(x), w)
  }

  /** A negative number is a minus sign and its magnitude padded to one less. */
  lemma FormatIntNegative(x: int, w: nat)
    requires x < 0 && w >= 1
    ensures FormatInt(x, w) == "-" + FormatInt(-x, w - 1)
  {
  }

  /** A padded non-negative numeral reads back as its value. */
  lemma FormatIntValue(x: nat, w: nat)
    ensures DecimalValue(FormatInt(x, w)) == x
  {
    DigitsRoundTrip(x);
    var d := Digits(x);
    if |d| < w {
      LeadingZeros(w - |d|, d);
    }
  }

  /** Below 10^w, the padded numeral is exactly w characters long. */
  lemma FormatIntWidth(x: nat, w: nat)
    requires w >= 1 && x < Pow10(w)
    ensures |FormatInt(x, w)| == w
  {
    DigitsLength(x, w);
  }

  function HexValue(ch: char): (v: int)
    ensures -1 <= v < 16
  {
    if '0' <= ch <= '9' then ch as int - '0' as int
    else if 'a' <= ch <= 'f' then ch as int - 'a' as int + 10
    else if 'A' <= ch <= 'F' then ch as int - 'A' as int + 10
    else -1
  }

  function Pow16(k: nat): (p: nat)
    ensures p >= 1
  {
    if k == 0 then 1 else 16 * Pow16(k - 1)
  }

  /** The value of a string of hex digits; -1 if some character is not one. */
  function HexDigitsValue(s: string): (v: int)
    ensures v >= 0 ==> v < Pow16(|s|)
    decreases |s|
  {
    if |s| == 0 then 0
    else
      var hi := HexDigitsValue(s[..|s| - 1]);
      var lo := HexValue(s[|s| - 1]);
      if hi < 0 || lo < 0 then -1 else 16 * hi + lo
  }

  lemma {:induction false} HexDigitsValid(s: string)
    ensures HexDigitsValue(s) >= 0 <==> forall i :: 0 <= i < |s| ==> HexValue(s[i]) >= 0
    decreases |s|
  {
    if |s| > 0 {
      HexDigitsValid(s[..|s| - 1]);
      assert forall i :: 0 <= i < |s| - 1 ==> s[..|s| - 1][i] == s[i];
    }
  }

  lemma {:induction false} Pow16Monotone(a: nat, b: nat)
    requires a <= b
    ensures Pow16(a) <= Pow16(b)
    decreases b
  {
    if a < b {
      Pow16Monotone(a, b - 1);
    }
  }

  /**
   * The whitespace `int()` strips, in the ASCII range: tab, line feed,
   * vertical tab, form feed, carriage return, the separators 0x1C-0x1F
   * and space.
   */
  predicate IsSpace(ch: char) {
    9 <= ch as int <= 13 || 28 <= ch as int <= 32
  }

  /** `s.lstrip()`. */
  function StripLeft(s: string): (r: string)
    ensures |r| <= |s| && r == s[|s| - |r|..]
    ensures r == [] || !IsSpace(r[0])
    decreases |s|
  {
    if |s| > 0 && IsSpace(s[0]) then
      var r := StripLeft(s[1..]);
      assert s[1..][|s[1..]| - |r|..] == s[|s| - |r|..];
      r
    else s
  }

  /** `s.rstrip()`. */
  function StripRight(s: string): (r: string)
    ensures r <= s
    ensures r == [] || !IsSpace(r[|r| - 1])
    decreases |s|
  {
    if |s| > 0 && IsSpace(s[|s| - 1]) then StripRight(s[..|s| - 1]) else s
  }

  predicate IsHexDigit(ch: char) {
    HexValue(ch) >= 0
  }

  /**
   * Hex digits that single underscores may group (PEP 515): the numeral
   * starts and ends with a digit and every underscore is followed by one.
   */
  predicate GroupedHex(b: string) {
    && |b| >= 1 && IsHexDigit(b[0]) && IsHexDigit(b[|b| - 1])
    && (forall i :: 0 <= i < |b| ==> IsHexDigit(b[i]) || b[i] == '_')
    && forall i :: 0 <= i < |b| - 1 && b[i] == '_' ==> IsHexDigit(b[i + 1])
  }

  /** The digits of a grouped numeral, its underscores dropped. */
  function HexDigitsOf(b: string): (d: string)
    ensures |d| <= |b|
    ensures forall ch :: ch in d ==> ch in b && ch != '_'
  {
    Filter(b, (ch: char) => ch != '_')
  }

  /** The numeral after a `0x` or `0X` prefix and the one underscore allowed after it. */
  function DropHexPrefix(u: string): (b: string)
    ensures |b| <= |u|
  {
    if |u| >= 2 && u[0] == '0' && (u[1] == 'x' || u[1] == 'X') then
      if |u| >= 3 && u[2] == '_' then u[3..] else u[2..]
    else u
  }

  /** `s.strip()`. */
  function Strip(s: string): (t: string)
    ensures |t| <= |s|
  {
    StripRight(StripLeft(s))
  }

  /** The numeral after an optional sign. */
  function Unsigned(t: string): (u: string)
    ensures |u| <= |t|
    ensures |t| >= 1 && t[0] == '-' ==> |u| < |t|
  {
    if |t| >= 1 && (t[0] == '+' || t[0] == '-') then t[1..] else t
  }

  /** The value of a grouped hex numeral. */
  function GroupedValue(b: string): (v: nat)
    requires GroupedHex(b)
    ensures v < Pow16(|b|)
  {
    var d := HexDigitsOf(b);
    HexDigitsAll(b);
    HexDigitsValid(d);
    Pow16Monotone(|d|, |b|);
    HexDigitsValue(d)
  }

  lemma HexDigitsAll(b: string)
    requires GroupedHex(b)
    ensures forall i :: 0 <= i < |HexDigitsOf(b)| ==> HexValue(HexDigitsOf(b)[i]) >= 0
  {
    var d := HexDigitsOf(b);
    forall i | 0 <= i < |d| ensures HexValue(d[i]) >= 0 {
      assert d[i] in d;
      var j :| 0 <= j < |b| && b[j] == d[i];
    }
  }

  /**
   * Python's `int(s, 16)`: surrounding whitespace, an optional sign, an
   * optional `0x` prefix, then grouped hex digits. None stands for the
   * ValueError of any other text.
   */
  function ParseHex(s: string): Option<int> {
    ParseStripped(Strip(s))
  }

  /** `int(t, 16)` for a text without surrounding whitespace. */
  function ParseStripped(t: string): Option<int> {
    var b := DropHexPrefix(Unsigned(t));
    if !GroupedHex(b) then None
    else
      var v: int := GroupedValue(b);
      if |t| >= 1 && t[0] == '-' then Some(-v) else Some(v)
  }

  /** `-16^n < x < 16^n`. */
  predicate HexRange(x: int, n: nat) {
    -(Pow16(n) as int) < x < Pow16(n)
  }

  lemma BoundWiden(x: int, a: nat, n: nat)
    requires HexRange(x, a) && a <= n
    ensures HexRange(x, n)
  {
    Pow16Monotone(a, n);
  }

  /**
   * A value parsed from a stripped text of at most m characters is below
   * 16^m in magnitude, and above -16^(m - 1) when negative.
   */
  lemma ParseStrippedWithin(t: string, x: int, m: nat)
    requires ParseStripped(t) == Some(x) && |t| <= m
    ensures HexRange(x, m) && (x < 0 ==> m >= 1 && HexRange(x, m - 1))
  {
    var b := DropHexPrefix(Unsigned(t));
    var v := GroupedValue(b);
    var neg := |t| >= 1 && t[0] == '-';
    assert x == if neg then -(v as int) else v as int;
    assert HexRange(x, |b|);
    BoundWiden(x, |b|, m);
    if neg {
      BoundWiden(x, |b|, m - 1);
    }
  }

  /** The value is below 16^len(s) in magnitude. */
  lemma ParseHexBound(s: string)
    requires ParseHex(s).Some?
    ensures HexRange(ParseHex(s).value, |s|)
  {
    var t := Strip(s);
    assert ParseHex(s) == ParseStripped(t);
    ParseStrippedWithin(t, ParseStripped(t).value, |s|);
  }

  /** On a plain string of hex digits, `int(s, 16)` is the digits' value. */
  lemma ParseHexDigits(s: string)
    requires PlainHex(s)
    ensures ParseHex(s) == Some(HexDigitsValue(s))
  {
    PlainStrip(s);
    PlainStripped(s);
  }

  /** A non-empty string of hex digits alone. */
  predicate PlainHex(s: string) {
    |s| >= 1 && forall i :: 0 <= i < |s| ==> IsHexDigit(s[i])
  }

  lemma PlainStrip(s: string)
    requires PlainHex(s)
    ensures Strip(s) == s
  {
    assert !IsSpace(s[0]) && !IsSpace(s[|s| - 1]);
    assert StripLeft(s) == s;
  }

  lemma PlainStripped(s: string)
    requires PlainHex(s)
    ensures ParseStripped(s) == Some(HexDigitsValue(s))
  {
    assert s[0] != '+' && s[0] != '-';
    assert Unsigned(s) == s;
    assert DropHexPrefix(s) == s by {
      if |s| >= 2 && s[0] == '0' {
        assert !IsHexDigit('x') && !IsHexDigit('X');
      }
    }
    assert GroupedHex(s);
    FilterAll(s, (ch: char) => ch != '_');
    assert HexDigitsOf(s) == s;
  }

  /** Leading whitespace is ignored. */
  lemma ParseHexLeadingSpace(ch: char, s: string)
    requires IsSpace(ch)
    ensures ParseHex([ch] + s) == ParseHex(s)
  {
    assert ([ch] + s)[1..] == s;
  }

  /** Trailing whitespace is ignored. */
  lemma ParseHexTrailingSpace(s: string, ch: char)
    requires IsSpace(ch)
    ensures ParseHex(s + [ch]) == ParseHex(s)
  {
    StripTrailingSpace(s, ch);
    assert Strip(s + [ch]) == Strip(s);
  }

  lemma {:induction false} StripTrailingSpace(s: string, ch: char)
    requires IsSpace(ch)
    ensures StripRight(StripLeft(s + [ch])) == StripRight(StripLeft(s))
    decreases |s|
  {
    if s == [] {
      assert StripLeft([ch]) == StripLeft([]);
    } else if IsSpace(s[0]) {
      assert (s + [ch])[1..] == s[1..] + [ch];
      StripTrailingSpace(s[1..], ch);
    } else {
      assert (s + [ch])[..|s|] == s;
    }
  }

  /** A minus sign negates the value and a plus sign keeps it. */
  lemma ParseHexSign(t: string)
    requires |t| >= 1 && !IsSpace(t[0]) && t[0] != '+' && t[0] != '-'
    ensures ParseHex(t).None? ==> ParseHex("-" + t).None?
    ensures ParseHex("+" + t) == ParseHex(t)
  {
    var u := Strip(t);
    StripSigned('-', t);
    StripSigned('+', t);
    StrippedSign(u);
    assert ParseHex(t) == ParseStripped(u);
    assert ParseHex("-" + t) == ParseStripped("-" + u);
    assert ParseHex("+" + t) == ParseStripped("+" + u);
  }

  /** A minus sign in front of a hex numeral negates its value. */
  lemma ParseHexNegate(t: string, x: int)
    requires |t| >= 1 && !IsSpace(t[0]) && t[0] != '+' && t[0] != '-'
    requires ParseHex(t) == Some(x)
    ensures ParseHex("-" + t) == Some(-x)
  {
    var u := Strip(t);
    StripSigned('-', t);
    StrippedNegate(u, x);
  }

  lemma StrippedNegate(u: string, x: int)
    requires |u| >= 1 && u[0] != '+' && u[0] != '-'
    requires ParseStripped(u) == Some(x)
    ensures ParseStripped("-" + u) == Some(-x)
  {
    StrippedSign(u);
  }

  /** A sign in front of a text that starts with a non-space survives stripping. */
  lemma StripSigned(c: char, t: string)
    requires c == '+' || c == '-'
    requires |t| >= 1 && !IsSpace(t[0])
    ensures Strip([c] + t) == [c] + Strip(t)
    ensures |Strip(t)| >= 1 && Strip(t)[0] == t[0]
  {
    assert StripLeft([c] + t) == [c] + t;
    assert StripLeft(t) == t;
    StripRightHead(c, t);
    StripRightKeepsHead(t);
  }

  lemma {:induction false} StripRightKeepsHead(t: string)
    requires |t| >= 1 && !IsSpace(t[0])
    ensures |StripRight(t)| >= 1
    decreases |t|
  {
    if IsSpace(t[|t| - 1]) {
      StripRightKeepsHead(t[..|t| - 1]);
    }
  }

  /** The sign rule on a stripped text. */
  lemma StrippedSign(u: string)
    requires |u| >= 1 && u[0] != '+' && u[0] != '-'
    ensures ParseStripped(u).Some? ==> ParseStripped("-" + u) == Some(-ParseStripped(u).value)
    ensures ParseStripped(u).None? ==> ParseStripped("-" + u).None?
    ensures ParseStripped("+" + u) == ParseStripped(u)
  {
    assert ("-" + u)[1..] == u && ("+" + u)[1..] == u;
    assert Unsigned("-" + u) == u && Unsigned("+" + u) == u && Unsigned(u) == u;
  }

  /** A numeral may not start with an underscore (PEP 515). */
  lemma ParseHexLeadingUnderscore(t: string)
    ensures ParseHex("_" + t) == None
  {
    assert StripLeft("_" + t) == "_" + t;
    StripRightHead('_', t);
    var w := StripRight(t);
    assert Strip("_" + t) == "_" + w;
    assert DropHexPrefix(Unsigned("_" + w)) == "_" + w;
    assert !IsHexDigit(("_" + w)[0]);
  }

  /** A non-space character at the front survives `rstrip()`. */
  lemma {:induction false} StripRightHead(c: char, t: string)
    requires !IsSpace(c)
    ensures StripRight([c] + t) == [c] + StripRight(t)
    decreases |t|
  {
    if t == [] {
      assert StripRight([c]) == [c];
    } else if IsSpace(t[|t| - 1]) {
      assert ([c] + t)[..|t|] == [c] + t[..|t| - 1];
      StripRightHead(c, t[..|t| - 1]);
    }
  }

  /** The value of a concatenation of decimal numerals. */
  lemma {:induction false} DecimalConcat(a: string, b: string)
    requires forall i :: 0 <= i < |a| ==> IsDigit(a[i])
    requires forall i :: 0 <= i < |b| ==> IsDigit(b[i])
    ensures forall i :: 0 <= i < |a + b| ==> IsDigit((a + b)[i])
    ensures DecimalValue(a + b) == DecimalValue(a) * Pow10(|b|) + DecimalValue(b)
    decreases |b|
  {
    assert forall i :: 0 <= i < |a + b| ==> (a + b)[i] == if i < |a| then a[i] else b[i - |a|];
    if |b| > 0 {
      var b' := b[..|b| - 1];
      assert forall i :: 0 <= i < |b'| ==> b'[i] == b[i];
      DecimalConcat(a, b');
      var ab := a + b;
      assert ab[..|ab| - 1] == a + b';
      var d := b[|b| - 1] as int - '0' as int;
      assert DecimalValue(ab) == 10 * DecimalValue(a + b') + d;
      assert DecimalValue(b) == 10 * DecimalValue(b') + d;
      ShiftDigit(DecimalValue(a), DecimalValue(b'), Pow10(|b'|), d);
    } else {
      assert a + b == a;
    }
  }

  lemma ShiftDigit(x: int, y: int, p: int, d: int)
    ensures 10 * (x * p + y) + d == x * (10 * p) + (10 * y + d)
  {
  }
}
