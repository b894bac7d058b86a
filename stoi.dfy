/**
 * `std::stoi(str)` with the default base 10, as parseLogLevel calls it.
 *
 * ISO C++ defines `stoi` through `strtol` (section 7.22.1.4 of ISO C11):
 * leading white space is skipped, an optional `+` or `-` follows, then the
 * longest run of decimal digits is taken and whatever comes after it is
 * ignored. No digit at all raises `std::invalid_argument`; a value that does
 * not fit in an `int` raises `std::out_of_range`. White space is that of the
 * "C" locale, and `int` is taken to be 32 bits wide.
 */
module StringConversions {

  const IntMin: int := -0x8000_0000
  const IntMax: int := 0x7fff_ffff

  /** What a call of `std::stoi` does: return a value or raise one of its two exceptions. */
  datatype StoiResult = Parsed(value: int) | InvalidArgument | OutOfRange

  /** `isspace` in the "C" locale: space, tab, line feed, vertical tab, form feed, carriage return. */
  predicate IsSpace(c: char)
  {
    c == ' ' || c == '\t' || c == '\n' || c == '\U{000B}' || c == '\U{000C}' || c == '\r'
  }

  predicate IsDigit(c: char)
  {
    '0' <= c <= '9'
  }

  predicate AllDigits(s: string)
  {
    forall i :: 0 <= i < |s| ==> IsDigit(s[i])
  }

  /** True when `s` does not go on with a digit, so a numeral before it ends there. */
  predicate EndsNumeral(s: string)
  {
    s == [] || !IsDigit(s[0])
  }

  function DigitValue(c: char): (d: nat)
    requires IsDigit(c)
    ensures d < 10
  {
    c as int - '0' as int
  }

  function DigitChar(d: nat): (c: char)
    requires d < 10
    ensures IsDigit(c) && DigitValue(c) == d
  {
    (d + '0' as int) as char
  }

  /** What is left of `s` once its leading white space is skipped. */
  function SkipSpace(s: string): (r: string)
    ensures EndsSpace(r)
  {
    if s != [] && IsSpace(s[0]) then SkipSpace(s[1..]) else s
  }

  predicate EndsSpace(s: string)
  {
    s == [] || !IsSpace(s[0])
  }

  /** The longest prefix of `s` made of decimal digits. */
  function DigitPrefix(s: string): (d: string)
    ensures AllDigits(d)
  {
    if s != [] && IsDigit(s[0]) then [s[0]] + DigitPrefix(s[1..]) else []
  }

  /** SkipSpace drops a run of white space from the front and nothing else. */
  lemma {:induction false} SkipSpaceDropsSpace(s: string)
    ensures var r := SkipSpace(s);
      |r| <= |s| && r == s[|s| - |r|..] &&
      forall i :: 0 <= i < |s| - |r| ==> IsSpace(s[i])
  {
    if s != [] && IsSpace(s[0]) {
      SkipSpaceDropsSpace(s[1..]);
    }
  }

  /** DigitPrefix is a prefix, and the longest one made of digits. */
  lemma {:induction false} DigitPrefixIsLongest(s: string)
    ensures var d := DigitPrefix(s);
      d <= s && EndsNumeral(s[|d|..])
  {
    if s != [] && IsDigit(s[0]) {
      DigitPrefixIsLongest(s[1..]);
      assert s[|DigitPrefix(s)|..] == s[1..][|DigitPrefix(s[1..])|..];
    }
  }

  /** The value of a string of decimal digits, most significant digit first. */
  function DecimalValue(d: string): (v: nat)
    requires AllDigits(d)
  {
    if d == [] then 0 else DecimalValue(d[..|d| - 1]) * 10 + DigitValue(d[|d| - 1])
  }

  /** True when the text after the white space starts with a minus sign. */
  predicate Negative(t: string)
  {
    t != [] && t[0] == '-'
  }

  /** The text after the white space with its optional sign removed. */
  function Unsigned(t: string): (u: string)
  {
    if t != [] && (t[0] == '+' || t[0] == '-') then t[1..] else t
  }

  /** The integer denoted by a sign and a run of digits. */
  function SignedValue(negative: bool, d: string): (m: int)
    requires AllDigits(d)
  {
    if negative then -(DecimalValue(d) as int) else DecimalValue(d)
  }

  /** What `stoi` makes of the sign and the digits strtol has taken. */
  function Convert(negative: bool, d: string): (r: StoiResult)
    requires AllDigits(d)
  {
    if d == [] then
      InvalidArgument
    else
      var m := SignedValue(negative, d);
      if IntMin <= m <= IntMax then Parsed(m) else OutOfRange
  }

  /** `std::stoi(s)` in base 10. */
  function Stoi(s: string): (r: StoiResult)
    ensures r.Parsed? ==> IntMin <= r.value <= IntMax
  {
    var t := SkipSpace(s);
    Convert(Negative(t), DigitPrefix(Unsigned(t)))
  }

  /** The shortest decimal numeral of a natural number. */
  function Decimal(n: nat): (s: string)
    ensures s != [] && AllDigits(s)
  {
    if n < 10 then [DigitChar(n)] else Decimal(n / 10) + [DigitChar(n % 10)]
  }

  /** The decimal numeral of an integer, with a `-` when it is negative. */
  function Numeral(n: int): (s: string)
    ensures s != [] && !IsSpace(s[0]) && s[0] != '+'
  {
    if n < 0 then "-" + Decimal(-n) else Decimal(n)
  }

  /** Reading back a decimal numeral gives the number it was written from. */
  lemma {:induction false} DecimalValueOfDecimal(n: nat)
    ensures DecimalValue(Decimal(n)) == n
  {
    if n >= 10 {
      var s := Decimal(n);
      assert s[..|s| - 1] == Decimal(n / 10);
      DecimalValueOfDecimal(n / 10);
    }
  }

  /** A run of digits that the rest of the string does not continue is exactly what strtol takes. */
  lemma {:induction false} DigitPrefixOfDigits(d: string, rest: string)
    requires AllDigits(d) && EndsNumeral(rest)
    ensures DigitPrefix(d + rest) == d
  {
    if d != [] {
      assert (d + rest)[1..] == d[1..] + rest;
      DigitPrefixOfDigits(d[1..], rest);
    }
  }

  /** Skipping white space ignores any white space put in front. */
  lemma {:induction false} SkipSpaceAfterSpace(ws: string, s: string)
    requires forall i :: 0 <= i < |ws| ==> IsSpace(ws[i])
    ensures SkipSpace(ws + s) == SkipSpace(s)
  {
    if ws != [] {
      assert (ws + s)[0] == ws[0] && (ws + s)[1..] == ws[1..] + s;
      assert SkipSpace(ws + s) == SkipSpace(ws[1..] + s);
      SkipSpaceAfterSpace(ws[1..], s);
    } else {
      assert ws + s == s;
    }
  }

  /**
   * `stoi` of any non-empty run of digits, leading zeros included, followed
   * by non-digit text, is the run's value, or `out_of_range` above `INT_MAX`.
   */
  lemma {:induction false} StoiOfDigits(d: string, rest: string)
    requires d != [] && AllDigits(d) && EndsNumeral(rest)
    ensures Stoi(d + rest) ==
      if DecimalValue(d) <= IntMax then Parsed(DecimalValue(d)) else OutOfRange
  {
    var s := d + rest;
    assert s[0] == d[0] && IsDigit(s[0]);
    assert SkipSpace(s) == s;
    assert !Negative(s) && Unsigned(s) == s;
    assert DigitPrefix(s) == d by { DigitPrefixOfDigits(d, rest); }
    assert Stoi(s) == Convert(false, d);
  }

  /**
   * `stoi` of `-` and any non-empty run of digits, followed by non-digit
   * text, is the negated value, or `out_of_range` below `INT_MIN`.
   */
  lemma {:induction false} StoiOfNegativeDigits(d: string, rest: string)
    requires d != [] && AllDigits(d) && EndsNumeral(rest)
    ensures Stoi("-" + d + rest) ==
      if -(DecimalValue(d) as int) >= IntMin then Parsed(-(DecimalValue(d) as int)) else OutOfRange
  {
    var s := "-" + d + rest;
    assert s[0] == '-';
    assert SkipSpace(s) == s;
    assert Negative(s);
    assert Unsigned(s) == d + rest by { assert s[1..] == d + rest; }
    assert DigitPrefix(d + rest) == d by { DigitPrefixOfDigits(d, rest); }
    assert Stoi(s) == Convert(true, d);
  }

  /** `stoi` reads a natural number back from its numeral, whatever non-digit text follows it. */
  lemma {:induction false} StoiOfDecimal(k: nat, rest: string)
    requires EndsNumeral(rest)
    ensures Stoi(Decimal(k) + rest) == if k <= IntMax then Parsed(k) else OutOfRange
  {
    StoiOfDigits(Decimal(k), rest);
    DecimalValueOfDecimal(k);
  }

  /** `stoi` reads a negative number back from its numeral, whatever non-digit text follows it. */
  lemma {:induction false} StoiOfNegative(k: nat, rest: string)
    requires EndsNumeral(rest)
    ensures Stoi("-" + Decimal(k) + rest) == if -(k as int) >= IntMin then Parsed(-(k as int)) else OutOfRange
  {
    StoiOfNegativeDigits(Decimal(k), rest);
    DecimalValueOfDecimal(k);
  }

  /** `stoi` reads an integer back from its numeral, whatever non-digit text follows it. */
  lemma {:induction false} StoiOfNumeral(n: int, rest: string)
    requires EndsNumeral(rest)
    ensures Stoi(Numeral(n) + rest) == if IntMin <= n <= IntMax then Parsed(n) else OutOfRange
  {
    if n < 0 {
      assert Numeral(n) + rest == "-" + Decimal(-n) + rest;
      StoiOfNegative(-n, rest);
    } else {
      StoiOfDecimal(n, rest);
    }
  }

  /** `stoi` ignores leading white space. */
  lemma {:induction false} StoiSkipsLeadingSpace(ws: string, s: string)
    requires forall i :: 0 <= i < |ws| ==> IsSpace(ws[i])
    ensures Stoi(ws + s) == Stoi(s)
  {
    SkipSpaceAfterSpace(ws, s);
  }

  /** An explicit `+` in front of a numeral changes nothing. */
  lemma {:induction false} StoiIgnoresPlus(s: string)
    requires EndsSpace(s) && (s == [] || (s[0] != '+' && s[0] != '-'))
    ensures Stoi("+" + s) == Stoi(s)
  {
    assert ("+" + s)[1..] == s;
  }

  /** A string without any digit is rejected with `std::invalid_argument`. */
  lemma {:induction false} StoiWithoutDigits(s: string)
    requires forall i :: 0 <= i < |s| ==> !IsDigit(s[i])
    ensures Stoi(s) == InvalidArgument
  {
    var t := SkipSpace(s);
    SkipSpaceDropsSpace(s);
    assert forall i :: 0 <= i < |t| ==> t[i] == s[|s| - |t| + i];
  }

  /** A string that starts with neither white space, a sign nor a digit is rejected with `std::invalid_argument`. */
  lemma {:induction false} StoiOfNonNumeral(s: string)
    requires s == [] || (!IsSpace(s[0]) && s[0] != '+' && s[0] != '-' && !IsDigit(s[0]))
    ensures Stoi(s) == InvalidArgument
  {
  }

  /**
   * White space followed by neither a sign nor a digit, or by a sign that no
   * digit follows, has no leading integer: `stoi` raises `invalid_argument`.
   */
  lemma {:induction false} StoiWithoutLeadingInteger(ws: string, sign: string, rest: string)
    requires forall i :: 0 <= i < |ws| ==> IsSpace(ws[i])
    requires (sign == "" && (rest == [] || (!IsSpace(rest[0]) && rest[0] != '+' && rest[0] != '-' && !IsDigit(rest[0]))))
          || ((sign == "+" || sign == "-") && EndsNumeral(rest))
    ensures Stoi(ws + sign + rest) == InvalidArgument
  {
    var s := sign + rest;
    assert ws + sign + rest == ws + s;
    StoiSkipsLeadingSpace(ws, s);
    if sign == "" {
      assert s == rest;
      StoiOfNonNumeral(rest);
    } else {
      assert s[0] == sign[0] && s[1..] == rest;
      assert SkipSpace(s) == s;
      assert Unsigned(s) == rest;
      assert DigitPrefix(rest) == [];
    }
  }

  /**
   * Conversely, whatever `stoi` does not reject with `invalid_argument` is
   * white space, an optional sign, a non-empty run of digits and text that
   * does not go on with a digit.
   */
  lemma {:induction false} StoiShape(s: string) returns (ws: string, sign: string, d: string, rest: string)
    requires Stoi(s) != InvalidArgument
    ensures forall i :: 0 <= i < |ws| ==> IsSpace(ws[i])
    ensures sign == "" || sign == "+" || sign == "-"
    ensures d != [] && AllDigits(d) && EndsNumeral(rest)
    ensures s == ws + sign + d + rest
  {
    var t := SkipSpace(s);
    ws := SpacePrefix(s);
    sign := SignPrefix(t);
    d := DigitPrefix(Unsigned(t));
    assert d != [] by { assert Stoi(s) == Convert(Negative(t), d); }
    rest := DigitsAndRest(Unsigned(t));
    assert t == sign + (d + rest);
    Regroup(ws, sign, d, rest);
  }

  /** The white space SkipSpace drops, which is all that stands before what it keeps. */
  lemma {:induction false} SpacePrefix(s: string) returns (ws: string)
    ensures forall i :: 0 <= i < |ws| ==> IsSpace(ws[i])
    ensures s == ws + SkipSpace(s)
  {
    var t := SkipSpace(s);
    var k := |s| - |t|;
    assert 0 <= k && t == s[k..] && forall i :: 0 <= i < k ==> IsSpace(s[i]) by {
      SkipSpaceDropsSpace(s);
    }
    ws := s[..k];
  }

  /** The sign Unsigned drops, if any. */
  lemma {:induction false} SignPrefix(t: string) returns (sign: string)
    ensures sign == "" || sign == "+" || sign == "-"
    ensures t == sign + Unsigned(t)
  {
    if t != [] && (t[0] == '+' || t[0] == '-') {
      sign := [t[0]];
    } else {
      sign := "";
    }
  }

  /** The text after the digits strtol takes, which does not go on with a digit. */
  lemma {:induction false} DigitsAndRest(u: string) returns (rest: string)
    ensures EndsNumeral(rest) && u == DigitPrefix(u) + rest
  {
    var d := DigitPrefix(u);
    assert d <= u && EndsNumeral(u[|d|..]) by { DigitPrefixIsLongest(u); }
    rest := u[|d|..];
  }

  /** Concatenation regrouped from the right to the left. */
  lemma {:induction false} Regroup(a: string, b: string, c: string, e: string)
    ensures a + (b + (c + e)) == a + b + c + e
  {
    assert b + (c + e) == b + c + e;
  }

  /**
   * `stoi` of a numeral with white space before it, an optional `+` before a
   * non-negative one and non-digit text after it.
   */
  lemma {:induction false} StoiOfSpacedNumeral(ws: string, sign: string, n: int, rest: string)
    requires forall i :: 0 <= i < |ws| ==> IsSpace(ws[i])
    requires sign == "" || (sign == "+" && 0 <= n)
    requires EndsNumeral(rest)
    ensures Stoi(ws + sign + Numeral(n) + rest) ==
      if IntMin <= n <= IntMax then Parsed(n) else OutOfRange
  {
    var s := Numeral(n) + rest;
    assert ws + sign + Numeral(n) + rest == ws + (sign + s);
    assert Stoi(sign + s) == Stoi(s) by {
      if sign == "+" {
        assert IsDigit(s[0]);
        StoiIgnoresPlus(s);
      } else {
        assert sign + s == s;
      }
    }
    assert Stoi(ws + (sign + s)) == Stoi(sign + s) by { StoiSkipsLeadingSpace(ws, sign + s); }
    StoiOfNumeral(n, rest);
  }

  /**
   * `stoi` of white space, an optional sign, any non-empty run of digits and
   * non-digit text is the signed value of the digits, or `out_of_range`.
   */
  lemma {:induction false} StoiOfSpacedDigits(ws: string, sign: string, d: string, rest: string)
    requires forall i :: 0 <= i < |ws| ==> IsSpace(ws[i])
    requires sign == "" || sign == "+" || sign == "-"
    requires d != [] && AllDigits(d) && EndsNumeral(rest)
    ensures Stoi(ws + sign + d + rest) ==
      var m := SignedValue(sign == "-", d);
      if IntMin <= m <= IntMax then Parsed(m) else OutOfRange
  {
    Regroup(ws, sign, d, rest);
    StoiSkipsLeadingSpace(ws, sign + (d + rest));
    StoiOfSignedDigits(sign, d, rest);
  }

  /** `stoi` of an optional sign, a non-empty run of digits and non-digit text. */
  lemma {:induction false} StoiOfSignedDigits(sign: string, d: string, rest: string)
    requires sign == "" || sign == "+" || sign == "-"
    requires d != [] && AllDigits(d) && EndsNumeral(rest)
    ensures Stoi(sign + (d + rest)) == Convert(sign == "-", d)
  {
    var u := d + rest;
    var s := sign + u;
    assert s[0] == if sign == "" then d[0] else sign[0];
    assert SkipSpace(s) == s;
    assert Negative(s) == (sign == "-");
    assert Unsigned(s) == u by {
      if sign != "" {
        assert s[1..] == u;
      }
    }
    assert DigitPrefix(u) == d by { DigitPrefixOfDigits(d, rest); }
  }

}
