// The number conversions on the submission path: `parseInt` with no radix
// (it reads the seconds field of a submission) and `String` of an integer.

module JsNumbers {
  import opened Types

  /** The characters `parseInt` skips before the number: white space and
      line terminators. */
  predicate IsSpace(c: char)
  {
    || c == '\t' || c == '\n' || c == '\U{B}' || c == '\U{C}' || c == '\r' || c == ' '
    || c == '\U{A0}' || c == '\U{1680}' || ('\U{2000}' <= c <= '\U{200A}')
    || c == '\U{2028}' || c == '\U{2029}' || c == '\U{202F}' || c == '\U{205F}'
    || c == '\U{3000}' || c == '\U{FEFF}'
  }

  /** `s` without its leading white space. */
  function TrimStart(s: string): (r: string)
    ensures |r| <= |s| && r == s[|s| - |r|..]
    ensures r == [] || !IsSpace(r[0])
    ensures forall i :: 0 <= i < |s| - |r| ==> IsSpace(s[i])
  {
    if s != [] && IsSpace(s[0]) then
      var r := TrimStart(s[1..]);
      assert forall i :: 1 <= i < |s| ==> s[i] == s[1..][i - 1];
      r
    else s
  }

  /** The value of a digit character in radix 36; 36 for anything else. */
  function DigitValue(c: char): (v: nat)
    ensures v <= 36
  {
    if '0' <= c <= '9' then c as int - '0' as int
    else if 'a' <= c <= 'z' then c as int - 'a' as int + 10
    else if 'A' <= c <= 'Z' then c as int - 'A' as int + 10
    else 36
  }

  /** The length of the longest prefix of `s` made of digits below `radix`. */
  function DigitRun(s: string, radix: nat): (n: nat)
    ensures n <= |s|
    ensures forall i :: 0 <= i < n ==> DigitValue(s[i]) < radix
    ensures n < |s| ==> DigitValue(s[n]) >= radix
  {
    if s != [] && DigitValue(s[0]) < radix then 1 + DigitRun(s[1..], radix) else 0
  }

  /** The value of a digit string, most significant digit first. */
  function ValueOf(digits: string, radix: nat): int
    requires forall i :: 0 <= i < |digits| ==> DigitValue(digits[i]) < radix
  {
    if digits == [] then 0
    else ValueOf(digits[..|digits| - 1], radix) * radix + DigitValue(digits[|digits| - 1])
  }

  /** `parseInt(s)` with no radix: skip white space, read an optional sign
      and an optional `0x` prefix (which selects radix 16), then the longest
      run of digits. `None` is NaN, the result when there is no digit. */
  function ParseInt(s: string): (r: Option<int>)
    ensures TrimStart(s) == [] ==> r.None?
    ensures TrimStart(s) != [] && TrimStart(s)[0] !in "+-" && DigitValue(TrimStart(s)[0]) >= 10 ==> r.None?
  {
    ParseSigned(TrimStart(s))
  }

  /** An optional sign, then an unsigned number. */
  function ParseSigned(t: string): Option<int>
  {
    if t != [] && t[0] == '-' then
      match ParseUnsigned(t[1..])
      case None => None
      case Some(v) => Some(-v)
    else if t != [] && t[0] == '+' then ParseUnsigned(t[1..])
    else ParseUnsigned(t)
  }

  /** An optional `0x` or `0X` prefix selecting radix 16, else radix 10. */
  function ParseUnsigned(u: string): Option<int>
  {
    if |u| >= 2 && u[0] == '0' && (u[1] == 'x' || u[1] == 'X') then ParseRun(u[2..], 16)
    else ParseRun(u, 10)
  }

  /** The value of the longest run of digits at the front of `v`. */
  function ParseRun(v: string, radix: nat): Option<int>
  {
    var n := DigitRun(v, radix);
    if n == 0 then None else Some(ValueOf(v[..n], radix))
  }

  /** The character for a decimal digit. */
  function DigitChar(d: nat): (c: char)
    requires d < 10
    ensures DigitValue(c) == d
  {
    ('0' as int + d) as char
  }

  /** The decimal digits of `n`, without leading zeros. */
  function Digits(n: nat): (s: string)
    ensures |s| >= 1
    ensures forall i :: 0 <= i < |s| ==> '0' <= s[i] <= '9'
    ensures n > 0 ==> s[0] != '0'
    ensures n == 0 ==> s == "0"
  {
    if n < 10 then [DigitChar(n)] else Digits(n / 10) + [DigitChar(n % 10)]
  }

  /** `String(n)` for an integer `n`. */
  function DecimalString(n: int): string
  {
    if n < 0 then "-" + Digits(-n) else Digits(n)
  }

  lemma {:induction false} DigitsValue(n: nat)
    ensures forall i :: 0 <= i < |Digits(n)| ==> DigitValue(Digits(n)[i]) < 10
    ensures ValueOf(Digits(n), 10) == n
  {
    var s := Digits(n);
    if n >= 10 {
      DigitsValue(n / 10);
      assert s[..|s| - 1] == Digits(n / 10);
    }
  }

  lemma {:induction false} DigitRunAll(s: string, radix: nat)
    requires forall i :: 0 <= i < |s| ==> DigitValue(s[i]) < radix
    ensures DigitRun(s, radix) == |s|
  {
    if s != [] {
      DigitRunAll(s[1..], radix);
    }
  }

  /** A run of decimal digits reads as its value; leading zeros do not
      matter, since a digit after the first `0` is never an `x`. */
  lemma ParseUnsignedDigits(d: string)
    requires |d| >= 1
    requires forall i :: 0 <= i < |d| ==> '0' <= d[i] <= '9'
    ensures ParseUnsigned(d) == Some(ValueOf(d, 10))
  {
    DigitRunAll(d, 10);
    assert d[..|d|] == d;
  }

  /** A string that starts with a digit is read without trimming or sign. */
  lemma ParseIntStartingWithDigit(d: string)
    requires |d| >= 1 && '0' <= d[0] <= '9'
    ensures ParseInt(d) == ParseUnsigned(d)
  {
    assert !IsSpace(d[0]);
  }

  /** A minus sign before a digit negates the number that follows. */
  lemma ParseIntMinus(d: string, v: int)
    requires |d| >= 1 && '0' <= d[0] <= '9'
    requires ParseUnsigned(d) == Some(v)
    ensures ParseInt("-" + d) == Some(-v)
  {
    var s := "-" + d;
    assert !IsSpace(s[0]);
    assert TrimStart(s) == s;
    assert s[1..] == d;
  }

  /** `parseInt` reads back the decimal digits of a natural number. */
  lemma ParseIntDigits(m: nat)
    ensures ParseInt(Digits(m)) == Some(m)
  {
    DigitsValue(m);
    ParseUnsignedDigits(Digits(m));
    ParseIntStartingWithDigit(Digits(m));
  }

  /** `parseInt` reads back a minus sign and the digits of a natural number. */
  lemma ParseIntNegatedDigits(m: nat)
    ensures ParseInt("-" + Digits(m)) == Some(-(m as int))
  {
    var d := Digits(m);
    DigitsValue(m);
    ParseUnsignedDigits(d);
    ParseIntMinus(d, m);
  }

  /** `parseInt` reads back what `String` writes, for every integer. */
  lemma ParseIntDecimalString(n: int)
    ensures ParseInt(DecimalString(n)) == Some(n)
  {
    if n < 0 {
      var m: nat := -n;
      assert DecimalString(n) == "-" + Digits(m);
      ParseIntNegatedDigits(m);
    } else {
      assert DecimalString(n) == Digits(n);
      ParseIntDigits(n);
    }
  }
}
