/**
 * Text conversions that the board code relies on: the `%d`, `%x` and `%02X`
 * conversions of `sprintf`, U-Boot's `simple_strtoul` in base 10 and the C
 * library's `atoi`.  Strings are C strings without their terminating NUL.
 */
module Fmt {

  /** An unsigned 8-bit value (`u8`, `uchar`, and `char` on AArch64, where it is unsigned). */
  newtype byte = x: int | 0 <= x < 256

  /** `n` zero bytes: a zero-initialised buffer. */
  function Zeros(n: nat): (z: seq<byte>)
    ensures |z| == n && forall i :: 0 <= i < n ==> z[i] == 0
  {
    seq(n, _ => 0)
  }

  predicate IsDigit(c: char) { '0' <= c <= '9' }

  function DigitChar(d: nat): (c: char)
    requires d < 10
    ensures IsDigit(c)
  {
    (('0' as int) + d) as char
  }

  function DigitValue(c: char): (d: nat)
    requires IsDigit(c)
    ensures d < 10
  {
    (c as int) - ('0' as int)
  }

  predicate AllDigits(s: string) { forall i :: 0 <= i < |s| ==> IsDigit(s[i]) }

  /** `sprintf(buf, "%d", n)` for a non-negative `n`: no sign, no leading zeros. */
  function Decimal(n: nat): (s: string)
    ensures 1 <= |s| && AllDigits(s)
    ensures |s| > 1 ==> s[0] != '0'
    decreases n
  {
    if n < 10 then [DigitChar(n)] else Decimal(n / 10) + [DigitChar(n % 10)]
  }

  /** The value of a string of decimal digits, most significant first. */
  function DigitsValue(s: string): nat
    requires AllDigits(s)
  {
    if s == [] then 0 else DigitsValue(s[..|s| - 1]) * 10 + DigitValue(s[|s| - 1])
  }

  /** The longest prefix of `s` made of decimal digits: where `simple_strtoul` stops. */
  function LeadingDigits(s: string): (p: string)
    ensures AllDigits(p) && p <= s
    ensures |p| < |s| ==> !IsDigit(s[|p|])
  {
    if s != [] && IsDigit(s[0]) then [s[0]] + LeadingDigits(s[1..]) else []
  }

  /**
   * `simple_strtoul(s, NULL, 10)`: the value of the leading decimal digits,
   * 0 when there are none.  (The `0x` prefix switch of the U-Boot routine
   * needs an `x` after a leading `0`, which text made by `%d` never has.)
   */
  function StrToUl10(s: string): nat
  {
    DigitsValue(LeadingDigits(s))
  }

  predicate IsSpace(c: char) { c == ' ' || c == '\t' || c == '\n' || c == '\r' || c == '\U{b}' || c == '\U{c}' }

  /** C `atoi`: leading white space, an optional sign, then the leading decimal digits. */
  function Atoi(s: string): int
  {
    if s != [] && IsSpace(s[0]) then Atoi(s[1..])
    else if s != [] && s[0] == '-' then -(StrToUl10(s[1..]) as int)
    else if s != [] && s[0] == '+' then StrToUl10(s[1..])
    else StrToUl10(s)
  }

  lemma {:induction false} LeadingDigitsOfDigits(s: string)
    requires AllDigits(s)
    ensures LeadingDigits(s) == s
  {
    if s != [] {
      LeadingDigitsOfDigits(s[1..]);
    }
  }

  /** `simple_strtoul` stops at the first character that is not a digit. */
  lemma {:induction false} LeadingDigitsStop(d: string, t: string)
    requires AllDigits(d) && (t == [] || !IsDigit(t[0]))
    ensures LeadingDigits(d + t) == d
  {
    if d != [] {
      assert (d + t)[1..] == d[1..] + t;
      LeadingDigitsStop(d[1..], t);
    }
  }

  lemma {:induction false} DigitsValueOfDecimal(n: nat)
    ensures DigitsValue(Decimal(n)) == n
    decreases n
  {
    var s := Decimal(n);
    if n >= 10 {
      DigitsValueOfDecimal(n / 10);
      assert s[..|s| - 1] == Decimal(n / 10);
    }
  }

  /** Printing a non-negative value with `%d` and reading it back with `simple_strtoul` is the identity. */
  lemma DecimalRoundTrip(n: nat)
    ensures StrToUl10(Decimal(n)) == n
  {
    LeadingDigitsOfDigits(Decimal(n));
    DigitsValueOfDecimal(n);
  }

  /** `atoi` of a single decimal digit is that digit; of a word without digits it is 0. */
  lemma AtoiOfDigit(d: nat)
    requires d < 10
    ensures Atoi([DigitChar(d)]) == d
  {
    var s := [DigitChar(d)];
    assert !IsSpace(s[0]) && s[0] != '-' && s[0] != '+';
    LeadingDigitsOfDigits(s);
    assert s[..0] == [];
    assert DigitsValue(s) == d;
  }

  lemma {:induction false} AtoiWithoutDigits(s: string)
    requires forall i :: 0 <= i < |s| ==> !IsDigit(s[i])
    ensures Atoi(s) == 0
  {
    if s != [] && IsSpace(s[0]) {
      AtoiWithoutDigits(s[1..]);
    } else if s != [] && (s[0] == '-' || s[0] == '+') {
      assert s[1..] == [] || !IsDigit(s[1..][0]);
    }
  }

  /** A hexadecimal digit in lower case (`%x`) or upper case (`%X`). */
  function HexDigit(d: nat, upper: bool): (c: char)
    requires d < 16
  {
    if d < 10 then DigitChar(d)
    else if upper then (('A' as int) + d - 10) as char
    else (('a' as int) + d - 10) as char
  }

  predicate IsHexDigit(c: char, upper: bool)
  {
    IsDigit(c) || (if upper then 'A' <= c <= 'F' else 'a' <= c <= 'f')
  }

  function HexDigitValue(c: char, upper: bool): (d: nat)
    requires IsHexDigit(c, upper)
    ensures d < 16
  {
    if IsDigit(c) then DigitValue(c)
    else if upper then (c as int) - ('A' as int) + 10
    else (c as int) - ('a' as int) + 10
  }

  /** `%x`: lower-case hexadecimal, no padding, no prefix. */
  function Hex(n: nat): (s: string)
    ensures 1 <= |s| && forall i :: 0 <= i < |s| ==> IsHexDigit(s[i], false)
    decreases n
  {
    if n < 16 then [HexDigit(n, false)] else Hex(n / 16) + [HexDigit(n % 16, false)]
  }

  /** `%02X` of one byte: exactly two upper-case hexadecimal digits. */
  function Hex2Upper(b: byte): (s: string)
    ensures |s| == 2 && IsHexDigit(s[0], true) && IsHexDigit(s[1], true)
    ensures HexDigitValue(s[0], true) * 16 + HexDigitValue(s[1], true) == b as int
  {
    [HexDigit(b as int / 16, true), HexDigit(b as int % 16, true)]
  }

  /** `%02x` of one byte: exactly two lower-case hexadecimal digits. */
  function Hex2Lower(b: byte): (s: string)
    ensures |s| == 2 && IsHexDigit(s[0], false) && IsHexDigit(s[1], false)
    ensures HexDigitValue(s[0], false) * 16 + HexDigitValue(s[1], false) == b as int
  {
    [HexDigit(b as int / 16, false), HexDigit(b as int % 16, false)]
  }

  /** The `%02X` rendering of a byte determines the byte. */
  lemma Hex2UpperInjective(a: byte, b: byte)
    requires Hex2Upper(a) == Hex2Upper(b)
    ensures a == b
  {
    assert HexDigitValue(Hex2Upper(a)[0], true) * 16 + HexDigitValue(Hex2Upper(a)[1], true) == a as int;
  }

  function HexDigitsValue(s: string): nat
    requires forall i :: 0 <= i < |s| ==> IsHexDigit(s[i], false)
  {
    if s == [] then 0 else HexDigitsValue(s[..|s| - 1]) * 16 + HexDigitValue(s[|s| - 1], false)
  }

  lemma HexDigitRoundTrip(d: nat, upper: bool)
    requires d < 16
    ensures IsHexDigit(HexDigit(d, upper), upper) && HexDigitValue(HexDigit(d, upper), upper) == d
  {
  }

  /** Reading back what `%x` printed gives the value. */
  lemma {:induction false} HexRoundTrip(n: nat)
    ensures HexDigitsValue(Hex(n)) == n
    decreases n
  {
    var s := Hex(n);
    if n < 16 {
      HexDigitRoundTrip(n, false);
    } else {
      HexRoundTrip(n / 16);
      assert s[..|s| - 1] == Hex(n / 16);
      HexDigitRoundTrip(n % 16, false);
    }
  }

  lemma HexInjective(a: nat, b: nat)
    requires Hex(a) == Hex(b)
    ensures a == b
  {
    HexRoundTrip(a);
    HexRoundTrip(b);
  }

  lemma DecimalInjective(a: nat, b: nat)
    requires Decimal(a) == Decimal(b)
    ensures a == b
  {
    DecimalRoundTrip(a);
    DecimalRoundTrip(b);
  }

  predicate NoSpace(s: string) { forall i :: 0 <= i < |s| ==> s[i] != ' ' }

  lemma HexNoSpace(n: nat)
    ensures NoSpace(Hex(n))
  {
  }

  lemma DecimalNoSpace(n: nat)
    ensures NoSpace(Decimal(n))
  {
  }

  /** The position of the first space in `s`, or `|s|` when there is none. */
  function FirstSpace(s: string): (k: nat)
    ensures k <= |s|
  {
    if s == [] || s[0] == ' ' then 0 else 1 + FirstSpace(s[1..])
  }

  lemma {:induction false} FirstSpaceAfterWord(a: string, b: string)
    requires NoSpace(a)
    ensures FirstSpace(a + " " + b) == |a|
  {
    if a != [] {
      assert (a + " " + b)[1..] == a[1..] + " " + b;
      FirstSpaceAfterWord(a[1..], b);
    }
  }

  lemma PrefixCancel(p: string, a: string, b: string)
    requires p + a == p + b
    ensures a == b
  {
    assert a == (p + a)[|p|..] && b == (p + b)[|p|..];
  }

  lemma SuffixCancel(a: string, b: string, q: string)
    requires a + q == b + q
    ensures a == b
  {
    assert |a| == |b|;
    assert a == (a + q)[..|a|] && b == (b + q)[..|b|];
  }

  /** Two texts that begin with a space-free word and a space agree on that word and on the rest. */
  lemma SplitAtSpace(a: string, b: string, c: string, d: string)
    requires NoSpace(a) && NoSpace(c)
    requires a + " " + b == c + " " + d
    ensures a == c && b == d
  {
    var l := a + " " + b;
    var r := c + " " + d;
    FirstSpaceAfterWord(a, b);
    FirstSpaceAfterWord(c, d);
    assert a == l[..|a|] && c == r[..|c|];
    assert b == l[|a| + 1..] && d == r[|c| + 1..];
  }
}
