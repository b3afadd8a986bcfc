/**
 * Decimal integer conversion as `std::stoi` does it (base 10): leading white
 * space is skipped, one optional sign is read, then the longest run of
 * decimal digits; whatever follows the digits is ignored. No digit at all
 * throws `std::invalid_argument`; a value outside the range of `int`
 * throws `std::out_of_range`.
 */
module Numbers {
  import opened Basics
  import opened Tokens

  const INT_MIN: int := -0x8000_0000
  const INT_MAX: int := 0x7FFF_FFFF

  predicate IsDigit(c: char) {
    '0' <= c <= '9'
  }

  predicate AllDigits(s: string) {
    forall i :: 0 <= i < |s| ==> IsDigit(s[i])
  }

  /** The longest prefix of `s` made of decimal digits. */
  function DigitPrefix(s: string): (d: string)
    ensures |d| <= |s| && d == s[..|d|] && AllDigits(d)
    ensures |d| == |s| || !IsDigit(s[|d|])
  {
    if s == [] || !IsDigit(s[0]) then [] else [s[0]] + DigitPrefix(s[1..])
  }

  /** The value of a run of decimal digits, most significant first. */
  function DigitsValue(d: string): nat
    requires AllDigits(d)
    decreases |d|
  {
    if d == [] then 0 else 10 * DigitsValue(d[..|d| - 1]) + (d[|d| - 1] as int - '0' as int)
  }

  /** A cast to an unsigned type of `m` values keeps a value already in its range. */
  lemma CastKeepsSmall(n: int, m: int)
    requires 0 <= n < m
    ensures n % m == n
  {
  }

  /** The two exceptions `std::stoi` can throw. */
  datatype StoiError = InvalidArgument | OutOfRange

  /** `std::stoi(s)` with base 10. */
  function Stoi(s: string): (r: Result<i32, StoiError>)
    // an empty or all-white-space field has no digit to convert
    ensures AllSpace(s) ==> r == Failure(InvalidArgument)
    // a field that starts with a digit always converts, unless its value does not fit
    ensures |s| > 0 && IsDigit(s[0]) ==> r.Success? || r == Failure(OutOfRange)
  {
    var t := SkipSpace(s);
    var negative := |t| > 0 && t[0] == '-';
    var body := if |t| > 0 && (t[0] == '-' || t[0] == '+') then t[1..] else t;
    var d := DigitPrefix(body);
    if d == [] then Failure(InvalidArgument)
    else
      var v: int := if negative then -(DigitsValue(d) as int) else DigitsValue(d);
      if INT_MIN <= v <= INT_MAX then Success(v) else Failure(OutOfRange)
  }

  function DigitChar(k: nat): (c: char)
    requires k < 10
    ensures IsDigit(c) && c as int - '0' as int == k
  {
    ('0' as int + k) as char
  }

  /** The decimal digits of `n`, without leading zeros. */
  function Digits(n: nat): (d: string)
    ensures |d| > 0 && AllDigits(d)
  {
    if n < 10 then [DigitChar(n)] else Digits(n / 10) + [DigitChar(n % 10)]
  }

  /** How a client writes an integer field: an optional minus sign and its digits. */
  function FormatInt(n: int): (s: string)
    ensures IsWord(s)
    ensures s[0] == '-' || IsDigit(s[0])
  {
    if n < 0 then "-" + Digits(-n) else Digits(n)
  }

  lemma {:induction false} DigitsValueOfDigits(n: nat)
    ensures DigitsValue(Digits(n)) == n
    decreases n
  {
    if n >= 10 {
      var d := Digits(n);
      assert d[..|d| - 1] == Digits(n / 10);
      DigitsValueOfDigits(n / 10);
    }
  }

  lemma {:induction false} DigitPrefixOfDigits(d: string, rest: string)
    requires AllDigits(d)
    requires rest == [] || !IsDigit(rest[0])
    ensures DigitPrefix(d + rest) == d
    decreases |d|
  {
    if d == [] {
      assert d + rest == rest;
    } else {
      assert (d + rest)[1..] == d[1..] + rest;
      DigitPrefixOfDigits(d[1..], rest);
    }
  }

  /**
   * Reading back a written integer, followed by anything that does not start
   * with a digit, gives the integer when it fits in an `int` and
   * `out_of_range` otherwise.
   */
  lemma StoiFormatInt(n: int, rest: string)
    requires rest == [] || !IsDigit(rest[0])
    ensures Stoi(FormatInt(n) + rest) ==
            if INT_MIN <= n <= INT_MAX then Success(n) else Failure(OutOfRange)
  {
    var m := if n < 0 then -n else n;
    DigitsValueOfDigits(m);
    StoiSignedDigits(n < 0, Digits(m), rest);
  }

  /** `Stoi` on an optional minus sign, a run of digits, and a remainder that is not a digit. */
  lemma StoiSignedDigits(negative: bool, d: string, rest: string)
    requires d != [] && AllDigits(d)
    requires rest == [] || !IsDigit(rest[0])
    ensures var v := if negative then -(DigitsValue(d) as int) else DigitsValue(d);
            Stoi((if negative then "-" + d else d) + rest) ==
            if INT_MIN <= v <= INT_MAX then Success(v) else Failure(OutOfRange)
  {
    if negative {
      StoiMinusDigits(d, rest);
    } else {
      StoiPlainDigits(d, rest);
    }
  }

  lemma StoiMinusDigits(d: string, rest: string)
    requires d != [] && AllDigits(d)
    requires rest == [] || !IsDigit(rest[0])
    ensures var v := -(DigitsValue(d) as int);
            Stoi("-" + d + rest) == if INT_MIN <= v <= INT_MAX then Success(v) else Failure(OutOfRange)
  {
    var s := "-" + d + rest;
    DigitPrefixOfDigits(d, rest);
    assert s[0] == '-' && s[1..] == d + rest;
    StoiBody(s, d + rest, d);
  }

  lemma StoiPlainDigits(d: string, rest: string)
    requires d != [] && AllDigits(d)
    requires rest == [] || !IsDigit(rest[0])
    ensures var v := DigitsValue(d) as int;
            Stoi(d + rest) == if INT_MIN <= v <= INT_MAX then Success(v) else Failure(OutOfRange)
  {
    var s := d + rest;
    DigitPrefixOfDigits(d, rest);
    assert s[0] == d[0] && IsDigit(s[0]);
    StoiBody(s, s, d);
  }

  /** The value `Stoi` reads from a field that starts with a sign or a digit, given the digits after the sign. */
  lemma StoiBody(s: string, body: string, d: string)
    requires s != [] && (s[0] == '-' || IsDigit(s[0]))
    requires body == if s[0] == '-' then s[1..] else s
    requires DigitPrefix(body) == d && d != []
    ensures var v := if s[0] == '-' then -(DigitsValue(d) as int) else DigitsValue(d);
            Stoi(s) == if INT_MIN <= v <= INT_MAX then Success(v) else Failure(OutOfRange)
  {
    assert SkipSpace(s) == s;
  }

  /** A leading `+` is accepted and changes nothing: `+5x` reads as `5x` does. */
  lemma StoiPlusSign(s: string)
    requires s == [] || (!IsSpace(s[0]) && s[0] != '-' && s[0] != '+')
    ensures Stoi("+" + s) == Stoi(s)
  {
    var t := "+" + s;
    assert SkipSpace(t) == t;
    assert t[1..] == s;
    assert SkipSpace(s) == s;
  }

  /** A sign with no digit right after it (`-`, `+`, `-x`) is rejected with `invalid_argument`. */
  lemma StoiSignWithoutDigits(sign: char, rest: string)
    requires sign == '-' || sign == '+'
    requires rest == [] || !IsDigit(rest[0])
    ensures Stoi([sign] + rest) == Failure(InvalidArgument)
  {
    var s := [sign] + rest;
    assert SkipSpace(s) == s;
    assert s[1..] == rest;
  }

  /** A field that does not start with a sign or a digit is rejected with `invalid_argument`. */
  lemma StoiRejectsNonNumeric(s: string)
    requires s != [] && !IsSpace(s[0]) && !IsDigit(s[0]) && s[0] != '-' && s[0] != '+'
    ensures Stoi(s) == Failure(InvalidArgument)
  {
    assert SkipSpace(s) == s;
  }
}
