/**
 * parseLogLevel: the validator of the `-v/--verbosity` option.
 *
 * It takes the raw tokens given to the option and, when it accepts them,
 * writes a spdlog level into its reference parameter. Exactly one token is
 * accepted; it is first looked up, exactly and case-sensitively, in a table
 * of six level names, and otherwise read with `std::stoi` and accepted when
 * the value lies in 0..5, which is then converted with `level_enum(i)`.
 * `std::invalid_argument` from `stoi` is caught and means "not accepted";
 * `std::out_of_range` is not caught and escapes the call.
 *
 * `Resolve` states the decision with the reason for every rejection;
 * `ParseLogLevel` is the call itself, with its boolean result, its escaping
 * exception and the new value of its reference parameter.
 */
module Verbosity {
  import opened Spdlog
  import opened StringConversions

  /** The name table: exact, case-sensitive names of six spdlog levels. */
  const LevelMap: map<string, Enumerator> :=
    map["Critical" := Critical, "Error" := Err, "Warning" := Warn,
        "Info" := Info, "Debug" := Debug, "Trace" := Trace]

  /** Why a verbosity input is not accepted. */
  datatype Reason =
    | InvalidArity            // not exactly one token
    | InvalidFormat           // not a name, and `stoi` finds no digits
    | OutOfBounds(value: int) // an `int` outside 0..5
    | Overflow                // a numeral too large for an `int`

  /** The decision on a verbosity input: the level it selects, or why it is refused. */
  datatype Resolution<L> = Level(level: L) | Invalid(reason: Reason)

  /** The three stages of parseLogLevel: arity, name table, numeric fallback. */
  function Resolve<L>(e: LevelEnum<L>, tokens: seq<string>): (r: Resolution<L>)
    ensures (r.Invalid? && r.reason == InvalidArity) <==> |tokens| != 1
    ensures r.Invalid? && r.reason.OutOfBounds? ==>
      IntMin <= r.reason.value <= IntMax && (r.reason.value < 0 || 5 < r.reason.value)
  {
    if |tokens| != 1 then
      Invalid(InvalidArity)
    else if tokens[0] in LevelMap then
      Level(e.constant(LevelMap[tokens[0]]))
    else
      match Stoi(tokens[0])
      case InvalidArgument => Invalid(InvalidFormat)
      case OutOfRange => Invalid(Overflow)
      case Parsed(i) => if 0 <= i <= 5 then Level(e.cast(i)) else Invalid(OutOfBounds(i))
  }

  /** How a call of parseLogLevel ends: it returns a bool, or `std::out_of_range` escapes it. */
  datatype Completion = Returned(accepted: bool) | ThrewOutOfRange

  /**
   * The call `parseLogLevel(logLevelString, logLevelResult)`. The reference
   * parameter goes in as `logLevelResult` and its value after the call comes
   * back as `newLogLevelResult`.
   */
  method ParseLogLevel<L>(e: LevelEnum<L>, logLevelString: seq<string>, logLevelResult: L)
    returns (completion: Completion, newLogLevelResult: L)
    ensures completion == Returned(true) <==> Resolve(e, logLevelString).Level?
    ensures completion == ThrewOutOfRange <==>
      Resolve(e, logLevelString).Invalid? && Resolve(e, logLevelString).reason == Overflow
    ensures newLogLevelResult ==
      if completion == Returned(true) then Resolve(e, logLevelString).level else logLevelResult
  {
    newLogLevelResult := logLevelResult;
    if |logLevelString| != 1 {
      return Returned(false), newLogLevelResult;
    }
    var token := logLevelString[0];
    if token in LevelMap {
      newLogLevelResult := e.constant(LevelMap[token]);
      return Returned(true), newLogLevelResult;
    }
    match Stoi(token)
    case InvalidArgument =>
      return Returned(false), newLogLevelResult;
    case OutOfRange =>
      return ThrewOutOfRange, newLogLevelResult;
    case Parsed(tempLogMessageLevel) =>
      if tempLogMessageLevel < 0 || tempLogMessageLevel > 5 {
        return Returned(false), newLogLevelResult;
      }
      newLogLevelResult := e.cast(tempLogMessageLevel);
      completion := Returned(true);
  }

  /** The name the table gives each enumerator: the table read backwards. */
  function Name(c: Enumerator): (t: string)
    ensures t in LevelMap && LevelMap[t] == c
  {
    match c
    case Critical => "Critical"
    case Err => "Error"
    case Warn => "Warning"
    case Info => "Info"
    case Debug => "Debug"
    case Trace => "Trace"
  }

  /** The table holds no other names than those. */
  lemma {:induction false} LevelMapNames(t: string)
    requires t in LevelMap
    ensures Name(LevelMap[t]) == t
  {
  }

  /** Every name in the table starts with a capital letter. */
  lemma {:induction false} NamesStartWithCapital(t: string)
    requires t in LevelMap
    ensures t != [] && 'A' <= t[0] <= 'Z'
  {
  }

  /** Each of the six names selects its own enumerator. */
  lemma {:induction false} NamedLevels<L>(e: LevelEnum<L>)
    ensures Resolve(e, ["Critical"]) == Level(e.constant(Critical))
    ensures Resolve(e, ["Error"]) == Level(e.constant(Err))
    ensures Resolve(e, ["Warning"]) == Level(e.constant(Warn))
    ensures Resolve(e, ["Info"]) == Level(e.constant(Info))
    ensures Resolve(e, ["Debug"]) == Level(e.constant(Debug))
    ensures Resolve(e, ["Trace"]) == Level(e.constant(Trace))
  {
  }

  /**
   * No name in the table would be read as a number either, so the order of
   * the two stages only decides which stage accepts a name, never the outcome.
   */
  lemma {:induction false} NamesAreNotNumerals(t: string)
    requires t in LevelMap
    ensures Stoi(t) == InvalidArgument
  {
    StoiWithoutDigits(t);
  }

  /**
   * A token that is not a name and does not start with white space, a sign
   * or a digit is refused as `InvalidFormat`, whatever follows.
   */
  lemma {:induction false} UnknownWord<L>(e: LevelEnum<L>, t: string)
    requires t !in LevelMap
    requires t == [] || (!IsSpace(t[0]) && t[0] != '+' && t[0] != '-' && !IsDigit(t[0]))
    ensures Resolve(e, [t]) == Invalid(InvalidFormat)
  {
    StoiOfNonNumeral(t);
  }

  /**
   * A token outside the table with no leading integer after its white space
   * and optional sign is refused as `InvalidFormat`: `" banana"`, `"+x"`,
   * `"-"`, `"+-5"` and `"- 5"` alike.
   */
  lemma {:induction false} NoLeadingInteger<L>(e: LevelEnum<L>, ws: string, sign: string, rest: string)
    requires forall i :: 0 <= i < |ws| ==> IsSpace(ws[i])
    requires (sign == "" && (rest == [] || (!IsSpace(rest[0]) && rest[0] != '+' && rest[0] != '-' && !IsDigit(rest[0]))))
          || ((sign == "+" || sign == "-") && EndsNumeral(rest))
    requires ws + sign + rest !in LevelMap
    ensures Resolve(e, [ws + sign + rest]) == Invalid(InvalidFormat)
  {
    StoiWithoutLeadingInteger(ws, sign, rest);
  }

  /**
   * Conversely, a token outside the table that is not refused as
   * `InvalidFormat` is white space, an optional sign, a non-empty run of
   * digits and text that does not go on with a digit.
   */
  lemma {:induction false} NumericTokenShape<L>(e: LevelEnum<L>, t: string)
      returns (ws: string, sign: string, d: string, rest: string)
    requires t !in LevelMap && Resolve(e, [t]) != Invalid(InvalidFormat)
    ensures forall i :: 0 <= i < |ws| ==> IsSpace(ws[i])
    ensures sign == "" || sign == "+" || sign == "-"
    ensures d != [] && AllDigits(d) && EndsNumeral(rest)
    ensures t == ws + sign + d + rest
  {
    assert Stoi(t) != InvalidArgument;
    ws, sign, d, rest := StoiShape(t);
  }

  /**
   * A numeral, with white space before it, an optional `+` before a
   * non-negative one and any non-digit text after it, selects `level_enum(n)`
   * when `n` is in 0..5, is refused as out of bounds for any other `int`, and
   * overflows beyond the range of `int`.
   */
  lemma {:induction false} NumeralToken<L>(e: LevelEnum<L>, ws: string, sign: string, n: int, rest: string)
    requires forall i :: 0 <= i < |ws| ==> IsSpace(ws[i])
    requires sign == "" || (sign == "+" && 0 <= n)
    requires EndsNumeral(rest)
    ensures Resolve(e, [ws + sign + Numeral(n) + rest]) ==
      if !(IntMin <= n <= IntMax) then Invalid(Overflow)
      else if 0 <= n <= 5 then Level(e.cast(n))
      else Invalid(OutOfBounds(n))
  {
    var t := ws + sign + Numeral(n) + rest;
    StoiOfSpacedNumeral(ws, sign, n, rest);
    assert t !in LevelMap by {
      if ws != [] {
        assert t[0] == ws[0];
      } else if sign != [] {
        assert t[0] == '+';
      } else {
        assert t[0] == Numeral(n)[0];
      }
      if t in LevelMap {
        NamesStartWithCapital(t);
      }
    }
  }

  /**
   * The same for any run of digits, leading zeros included, after white
   * space and an optional `+` or `-`: the token selects `level_enum(m)` for
   * its signed value m in 0..5, is refused as out of bounds for any other
   * `int`, and overflows beyond the range of `int`.
   */
  lemma {:induction false} DigitsToken<L>(e: LevelEnum<L>, ws: string, sign: string, d: string, rest: string)
    requires forall i :: 0 <= i < |ws| ==> IsSpace(ws[i])
    requires sign == "" || sign == "+" || sign == "-"
    requires d != [] && AllDigits(d) && EndsNumeral(rest)
    ensures var m := SignedValue(sign == "-", d);
      Resolve(e, [ws + sign + d + rest]) ==
        if !(IntMin <= m <= IntMax) then Invalid(Overflow)
        else if 0 <= m <= 5 then Level(e.cast(m))
        else Invalid(OutOfBounds(m))
  {
    var t := ws + sign + d + rest;
    StoiOfSpacedDigits(ws, sign, d, rest);
    assert t !in LevelMap by {
      if ws != [] {
        assert t[0] == ws[0];
      } else if sign != [] {
        assert t[0] == sign[0];
      } else {
        assert t[0] == d[0];
      }
      if t in LevelMap {
        NamesStartWithCapital(t);
      }
    }
  }

  /** Every level the option can select is a named enumerator or `level_enum(i)` for some i in 0..5. */
  lemma {:induction false} AcceptedLevels<L>(e: LevelEnum<L>, tokens: seq<string>)
    requires Resolve(e, tokens).Level?
    ensures |tokens| == 1
    ensures (exists c :: Resolve(e, tokens).level == e.constant(c)) ||
            (exists i :: 0 <= i <= 5 && Resolve(e, tokens).level == e.cast(i))
  {
    if tokens[0] in LevelMap {
      assert Resolve(e, tokens).level == e.constant(LevelMap[tokens[0]]);
    } else {
      var i := Stoi(tokens[0]).value;
      assert Resolve(e, tokens).level == e.cast(i);
    }
  }

  /** Conversely, each of those levels is selected by a single token: its name or its numeral. */
  lemma {:induction false} EveryLevelSelectable<L>(e: LevelEnum<L>)
    ensures forall c :: Resolve(e, [Name(c)]) == Level(e.constant(c))
    ensures forall i :: 0 <= i <= 5 ==> Resolve(e, [Numeral(i)]) == Level(e.cast(i))
  {
    forall i | 0 <= i <= 5 ensures Resolve(e, [Numeral(i)]) == Level(e.cast(i)) {
      NumeralToken(e, "", "", i, "");
      assert "" + "" + Numeral(i) + "" == Numeral(i);
    }
  }

  /** A token that `stoi` reads as `i` in 0..5 selects `level_enum(i)`, whatever the header's numbering. */
  lemma {:induction false} NumericLevel<L>(e: LevelEnum<L>, t: string, i: int)
    requires Stoi(t) == Parsed(i) && 0 <= i <= 5
    ensures Resolve(e, [t]) == Level(e.cast(i))
  {
    if t in LevelMap {
      NamesAreNotNumerals(t);
      assert false;
    }
  }

  /**
   * When `level_enum(i)` tells 0..5 apart, a token outside the name table
   * selects `level_enum(i)` exactly when `stoi` reads it as `i`.
   */
  lemma {:induction false} NumericLevelIff<L>(e: LevelEnum<L>, t: string, i: int)
    requires CastInjective(e)
    requires t !in LevelMap && 0 <= i <= 5
    ensures Resolve(e, [t]) == Level(e.cast(i)) <==> Stoi(t) == Parsed(i)
  {
    if Resolve(e, [t]) == Level(e.cast(i)) {
      var j := Stoi(t).value;
      assert 0 <= j <= 5 && e.cast(j) == e.cast(i);
    } else if Stoi(t) == Parsed(i) {
      NumericLevel(e, t, i);
    }
  }

  /** Inputs of the wrong arity are refused. */
  lemma {:induction false} ArityExamples<L>(e: LevelEnum<L>)
    ensures Resolve(e, []) == Invalid(InvalidArity)
    ensures Resolve(e, ["a", "b"]) == Invalid(InvalidArity)
    ensures Resolve(e, ["Info", "Debug"]) == Invalid(InvalidArity)
  {
  }

  /** Names in the wrong case, other words and the empty token are refused as `InvalidFormat`. */
  lemma {:induction false} WordExample<L>(e: LevelEnum<L>, t: string)
    requires t == "info" || t == "INFO" || t == "banana" || t == ""
    ensures Resolve(e, [t]) == Invalid(InvalidFormat)
  {
    UnknownWord(e, t);
  }

  /** White space before a numeral, a `+` sign and text after it are all accepted. */
  lemma {:induction false} LenientNumeralExample<L>(e: LevelEnum<L>, t: string, i: int)
    requires (t == " 2" && i == 2) || (t == "3abc" && i == 3) || (t == "+4" && i == 4)
    ensures Resolve(e, [t]) == Level(e.cast(i))
  {
    if t == " 2" {
      NumeralToken(e, " ", "", 2, "");
      assert " " + "" + Numeral(2) + "" == t;
    } else if t == "3abc" {
      NumeralToken(e, "", "", 3, "abc");
      assert "" + "" + Numeral(3) + "abc" == t;
    } else {
      NumeralToken(e, "", "+", 4, "");
      assert "" + "+" + Numeral(4) + "" == t;
    }
  }

  /** A negative numeral, or one above 5, is refused as out of bounds and not as malformed. */
  lemma {:induction false} OutOfBoundsExample<L>(e: LevelEnum<L>, t: string, n: int)
    requires (t == "-1" && n == -1) || (t == "6" && n == 6)
    ensures Resolve(e, [t]) == Invalid(OutOfBounds(n))
  {
    NumeralToken(e, "", "", n, "");
    assert "" + "" + Numeral(n) + "" == t;
  }

  /** Leading zeros are read as decimal digits, and `-0` is zero. */
  lemma {:induction false} LeadingZeroExample<L>(e: LevelEnum<L>, t: string, i: int)
    requires (t == "05" && i == 5) || (t == "-0" && i == 0) || (t == "+003x" && i == 3)
    ensures Resolve(e, [t]) == Level(e.cast(i))
  {
    assert DecimalValue("0") == 0 by { assert "0"[..0] == ""; }
    if t == "05" {
      assert DecimalValue("05") == 5 by { assert "05"[..1] == "0"; }
      DigitsToken(e, "", "", "05", "");
      assert "" + "" + "05" + "" == t;
    } else if t == "-0" {
      DigitsToken(e, "", "-", "0", "");
      assert "" + "-" + "0" + "" == t;
    } else {
      assert DecimalValue("003") == 3 by {
        assert "003"[..2] == "00" && "00"[..1] == "0";
      }
      DigitsToken(e, "", "+", "003", "x");
      assert "" + "+" + "003" + "x" == t;
    }
  }

  /** A padded numeral above 5 is still refused as out of bounds. */
  lemma {:induction false} PaddedOutOfBoundsExample<L>(e: LevelEnum<L>)
    ensures Resolve(e, ["0006"]) == Invalid(OutOfBounds(6))
  {
    assert DecimalValue("0006") == 6 by {
      assert "0006"[..3] == "000" && "000"[..2] == "00" && "00"[..1] == "0" && "0"[..0] == "";
    }
    DigitsToken(e, "", "", "0006", "");
    assert "" + "" + "0006" + "" == "0006";
  }

  /** The smallest numeral beyond the range of `int` makes `stoi` raise `std::out_of_range`, which escapes. */
  lemma {:induction false} OverflowExample<L>(e: LevelEnum<L>)
    ensures Resolve(e, [Numeral(IntMax + 1)]) == Invalid(Overflow)
  {
    NumeralToken(e, "", "", IntMax + 1, "");
    assert "" + "" + Numeral(IntMax + 1) + "" == Numeral(IntMax + 1);
  }
}
