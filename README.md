# parseLogLevel, modelled in Dafny

This project models the verbosity validator of a small C++ command-line
template: `parseLogLevel` (`src/main.cpp:7-36`). CLI11 calls it with the raw
tokens given to `-v/--verbosity`. It returns `true` after writing a spdlog
level into its reference parameter `logLevelResult`, or `false`, leaving the
parameter alone. The decision has three stages:

1. **Arity.** Anything but exactly one token is refused.
2. **Name table.** The token is looked up, exactly and case-sensitively, among
   `Critical`, `Error`, `Warning`, `Info`, `Debug`, `Trace`. These map to
   `spdlog::level::critical`, `err`, `warn`, `info`, `debug`, `trace`.
3. **Numeric fallback.** Otherwise `std::stoi` reads the token. A value in
   0..5 is converted with `level_enum(i)`; any other `int` is refused.
   `std::invalid_argument` is caught and means "refused". `std::out_of_range`
   is not caught, so a numeral too large for an `int` makes the exception
   escape the call.

Files:

- `levels.dfy`, module `Spdlog`: the six enumerators the code names. Also
  `LevelEnum<L>`, which bundles what the spdlog header decides: the level each
  enumerator denotes and the conversion `level_enum(i)`. The model assumes no
  numbering. `CastInjective` says that `level_enum` tells 0..5 apart; only the
  lemma that needs it assumes it.
- `stoi.dfy`, module `StringConversions`: `std::stoi` in base 10, following
  `strtol` (section 7.22.1.4 of ISO C11). It skips "C"-locale white space,
  takes an optional sign and the longest run of digits, and ignores the rest.
  It raises `invalid_argument` when there are no digits and `out_of_range`
  outside the 32-bit `int` range. It comes with `Numeral`, its inverse on
  integers, and the round-trip lemmas.
- `verbosity.dfy`, module `Verbosity`: the name table `LevelMap` and
  `Resolve`, the decision with a reason for every refusal (`InvalidArity`,
  `InvalidFormat`, `OutOfBounds`, `Overflow`). `ParseLogLevel` is the call
  itself. It takes the old value of the reference parameter and returns how
  the call ends (a returned bool, or `std::out_of_range` escaping) plus the
  parameter's new value. It is proved against `Resolve`. The lemmas state the
  behaviour input class by input class.

Behaviour of the code worth knowing, beyond what the help text
(`src/main.cpp:46-48`) says:

- `" 2"`, `"+4"` and `"3abc"` are accepted as 2, 4 and 3, though the help
  text only speaks of 0 - 5. Leading zeros are read as decimal digits:
  `"05"` selects `level_enum(5)` and `"-0"` selects `level_enum(0)`.
- A numeral beyond the range of `int` makes `stoi` raise `out_of_range`. The
  code does not catch it (`src/main.cpp:31` catches only `invalid_argument`),
  so it escapes `parseLogLevel` (`Overflow`, `ThrewOutOfRange`). This is a
  third outcome, distinct from returning false.
- `Resolve` reports `"-1"` as `OutOfBounds(-1)`; the call itself returns false.

## Model

| member | source | states |
|---|---|---|
| `Verbosity.ParseLogLevel` | src/main.cpp:7-36 | The call returns true exactly when the input selects a level, and then the reference parameter holds that level. It lets `std::out_of_range` escape exactly on an overflowing numeral. On every other outcome it returns false. On every failure path the reference parameter keeps its old value. |
| `Verbosity.Resolve` | src/main.cpp:7-36 | Arity is refused exactly when there is not exactly one token. A numeral refused as out of bounds has an `int` value outside 0..5. |
| `Verbosity.Name` | src/main.cpp:9-12 | Each of the six enumerators has a name in the table that maps back to it (the table read backwards). |
| `Verbosity.LevelMapNames` | src/main.cpp:9-12 | The table holds only those six names: every key is the name of the enumerator it maps to. |
| `Verbosity.NamesStartWithCapital` | src/main.cpp:9-12 | Every name in the table is non-empty and starts with a capital letter. |
| `Verbosity.NamedLevels` | src/main.cpp:9-20 | "Critical", "Error", "Warning", "Info", "Debug" and "Trace" select critical, err, warn, info, debug and trace respectively. |
| `Verbosity.NamesAreNotNumerals` | src/main.cpp:18-26 | `stoi` would reject every name in the table with `invalid_argument`. So the name stage takes precedence without hiding any numeric reading. |
| `Verbosity.UnknownWord` | src/main.cpp:18-32 | A token outside the table that does not start with white space, a sign or a digit is refused as `InvalidFormat`, whatever follows. |
| `Verbosity.NoLeadingInteger` | src/main.cpp:18-32 | A token outside the table with no leading integer after its white space and optional sign is refused as `InvalidFormat`. This covers a token that starts with no sign or digit after its white space, and a sign that no digit follows (`" banana"`, `"+x"`, `"-"`, `"+-5"`, `"- 5"`). |
| `Verbosity.NumericTokenShape` | src/main.cpp:18-32 | Conversely, a token outside the table that is not refused as `InvalidFormat` is white space, an optional sign, a non-empty run of digits and text that does not go on with a digit. |
| `Verbosity.NumeralToken` | src/main.cpp:25-35 | Take any numeral, with white space before it, an optional `+` and non-digit text after it. It selects `level_enum(n)` for n in 0..5. Any other `int` is refused as out of bounds. Beyond the `int` range it overflows. |
| `Verbosity.DigitsToken` | src/main.cpp:25-35 | Take any non-empty run of digits, leading zeros included, with white space before it, an optional `+` or `-` and non-digit text after it. Its signed value m selects `level_enum(m)` for m in 0..5. Any other `int` is refused as out of bounds. Beyond the `int` range it overflows. |
| `Verbosity.AcceptedLevels` | src/main.cpp:14-35 | An accepted input has exactly one token. Its level is a named enumerator or `level_enum(i)` for some i in 0..5. |
| `Verbosity.EveryLevelSelectable` | src/main.cpp:9-30 | Conversely, each named enumerator is selected by its name, and each `level_enum(i)` for i in 0..5 by the numeral of i. |
| `Verbosity.NumericLevel` | src/main.cpp:26-30 | A token that `stoi` reads as i in 0..5 selects `level_enum(i)`, with no assumption about the header's numbering. |
| `Verbosity.NumericLevelIff` | src/main.cpp:26-30 | When `level_enum` tells 0..5 apart, a token outside the table selects `level_enum(i)` if and only if `stoi` reads it as i. |
| `Verbosity.ArityExamples` | src/main.cpp:14-16 | No token, two tokens, and two level names together are all refused for arity. |
| `Verbosity.WordExample` | src/main.cpp:18-32 | "info", "INFO", "banana" and the empty token are refused as `InvalidFormat`: matching is case-sensitive. |
| `Verbosity.LenientNumeralExample` | src/main.cpp:26-30 | " 2", "3abc" and "+4" select `level_enum(2)`, `level_enum(3)` and `level_enum(4)`. |
| `Verbosity.OutOfBoundsExample` | src/main.cpp:26-28 | "-1" and "6" are refused as out of bounds. |
| `Verbosity.LeadingZeroExample` | src/main.cpp:26-30 | "05", "-0" and "+003x" select `level_enum(5)`, `level_enum(0)` and `level_enum(3)`. |
| `Verbosity.PaddedOutOfBoundsExample` | src/main.cpp:26-28 | "0006" is refused as out of bounds with value 6. |
| `Verbosity.OverflowExample` | src/main.cpp:25-33 | The numeral of 2^31 overflows, so the call lets `std::out_of_range` escape. |
| `StringConversions.Stoi` | src/main.cpp:26 | A value that `stoi` returns lies within the 32-bit `int` range. |
| `StringConversions.SkipSpaceDropsSpace` | src/main.cpp:26 | Skipping leading white space leaves a suffix of the input, and everything dropped is white space. |
| `StringConversions.DigitPrefixIsLongest` | src/main.cpp:26 | The digits `stoi` takes are a prefix of the text, and no digit follows them. |
| `StringConversions.DecimalValueOfDecimal` | src/main.cpp:26 | Reading a decimal numeral back gives the number it was written from. |
| `StringConversions.DigitPrefixOfDigits` | src/main.cpp:26 | A run of digits followed by non-digit text is exactly what `stoi` takes. |
| `StringConversions.SkipSpaceAfterSpace` | src/main.cpp:26 | White space put in front of a string is skipped entirely. |
| `StringConversions.StoiOfDigits` | src/main.cpp:26 | `stoi` of any non-empty run of digits, leading zeros included, followed by non-digit text, is the run's decimal value, or `out_of_range` above `INT_MAX`. |
| `StringConversions.StoiOfNegativeDigits` | src/main.cpp:26 | `stoi` of `-` and any non-empty run of digits, followed by non-digit text, is the negated decimal value, or `out_of_range` below `INT_MIN`. |
| `StringConversions.StoiOfSpacedDigits` | src/main.cpp:26 | `stoi` of white space, an optional `+` or `-`, any non-empty run of digits and non-digit text is the signed decimal value, or `out_of_range` outside the `int` range. |
| `StringConversions.StoiOfDecimal` | src/main.cpp:26 | `stoi` of a natural number's numeral, followed by non-digit text, is that number, or `out_of_range` above `INT_MAX`. |
| `StringConversions.StoiOfNegative` | src/main.cpp:26 | `stoi` of `-` and a numeral, followed by non-digit text, is the negated number, or `out_of_range` below `INT_MIN`. |
| `StringConversions.StoiOfNumeral` | src/main.cpp:26 | Round trip: `stoi` of any integer's numeral, followed by non-digit text, gives the integer back when it fits in an `int`, and `out_of_range` otherwise. |
| `StringConversions.StoiSkipsLeadingSpace` | src/main.cpp:26 | Leading white space does not change what `stoi` returns or raises. |
| `StringConversions.StoiIgnoresPlus` | src/main.cpp:26 | A `+` in front of unsigned text that does not start with white space does not change the result. |
| `StringConversions.StoiWithoutDigits` | src/main.cpp:26 | A string without any digit makes `stoi` raise `invalid_argument`. |
| `StringConversions.StoiOfNonNumeral` | src/main.cpp:26 | A string that starts with neither white space, a sign nor a digit makes `stoi` raise `invalid_argument`. |
| `StringConversions.StoiWithoutLeadingInteger` | src/main.cpp:26 | White space followed by neither a sign nor a digit, or by a sign that no digit follows, makes `stoi` raise `invalid_argument`. |
| `StringConversions.StoiShape` | src/main.cpp:26 | Whatever `stoi` does not reject with `invalid_argument` splits into white space, an optional sign, a non-empty run of digits and text that does not go on with a digit. |
| `StringConversions.StoiOfSpacedNumeral` | src/main.cpp:26 | `stoi` of white space, an optional `+`, a numeral and non-digit text is the numeral's integer, or `out_of_range`. |

## Left out

- `main` (`src/main.cpp:38-74`) is glue: CLI11 option set-up and parsing, printing the greeting with `fmt`, and building the console and file sinks. All of these are calls into libraries whose code is not part of this model.
- The log sinks, their patterns and `log.txt` (`src/main.cpp:60-71`) are I/O and thread-safe sink internals.
- The default verbosity. The help text (`src/main.cpp:46-48`) promises `Info` when `-v` is not given. But `loggingLevel` (`src/main.cpp:40`) is never initialised, so without `-v` the sinks get an indeterminate level. This happens in the caller, not in `parseLogLevel`.
- What CLI11 does with the `std::out_of_range` that escapes the validator is not part of this model. The model stops at the exception leaving the call.
- The numbering of `spdlog::level::level_enum` comes from the spdlog header, which is not part of this model. Levels are an abstract type, given by the value of each enumerator and the conversion `level_enum(i)`.
- `std::map` internals are not modelled: the table is a six-entry Dafny map. Allocation failure while building it (`std::bad_alloc`) is left out.
- `std::stoi` assumes a 32-bit `int` and the "C" locale's white space (the program never calls `setlocale`). Its optional `pos` out-parameter is not used by the code and is not modelled. An embedded NUL character stops `strtol`. Since NUL is neither white space, a sign nor a digit, the model gives the same results.
- `std::string` is a string of bytes; the model's `string` is a sequence of Unicode scalar values. No behaviour is lost: every character the code inspects is ASCII, and no byte of 0x80 or above is "C"-locale white space, a sign or a digit. Byte strings that are not valid UTF-8 cannot be represented.
- `logLevelString.at(0)` cannot throw after the arity check, so it is modelled as plain indexing.
