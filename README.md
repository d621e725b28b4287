# datasize in Dafny

This project models the Go package `datasize`. The package handles a size written as a decimal
integer immediately followed by a unit: `Bytes`, `KB`, `MB`, `GB`, `TB` or `PB`, as in `"5MB"`.
It converts such a size to a byte count (powers of 1024) and formats it back to text. It also
parses text by looking for one of the suffixes `KB`, `MB`, `GB`, `TB`, `PB`.

Everything in the package is pure, so the model is made of datatypes, functions and lemmas:

- `wrappers.dfy` (`Wrappers`): `Option` and `Result`. They stand in for Go's nil pointers and `(value, error)` returns.
- `int64.dfy` (`Int64`): the `int64` range and `Wrap`. `Wrap` is the two's-complement wrap-around of Go's int64 multiplication.
- `strings.dfy` (`Strings`): `HasSuffix` and `TrimSuffix` from Go's `strings` package.
- `decimal.dfy` (`Decimal`): this project's own decimal printer and parser.
  - `FormatInt` renders like `%d`: an optional `-`, then digits with no leading zero.
  - `ParseInt` parses like `strconv.ParseInt(s, 10, 64)`: an optional `+` or `-`, one or more ASCII digits, no underscores, and a value inside [-2^63, 2^63-1].
  - `Denotes` is a separate reference grammar for the numerals `ParseInt` accepts.
- `datasize.dfy` (`Datasize`): the unit and multiplier constants, `DataSize` with `String` and `ToBytes`, `ForSuffix`, `FromString`, the package-level `ToBytes(s)`, and the lemmas about them.
- `datasize_examples.dfy` (`DatasizeExamples`): the concrete cases of the package's tests, stated as lemmas.

Modelling decisions:

- **Unit as free text.** `Unit` stays a free `string`, as in the Go struct. It is free text because `ToBytes` falls through for any unrecognised unit: any text other than the five parsed units, `"Bytes"` included, converts to the value unchanged.
- **Overflow wraps.** `Value * Multi<U>` wraps modulo 2^64 into the signed range, as Go's int64 arithmetic does. `ToBytesExact` gives the exact product whenever it fits. `ToBytesOverflowWraps` shows 8192 PB wrapping to -2^63.
- **Leading `+` accepted.** `strconv.ParseInt` accepts a leading `+` and leading zeros, so the model does too (`ParseIntSigns`).
- **Round trip for every int64.** The round trip is proved for every int64 value, negative ones included.
- **Two error kinds.** `InvalidDataSize` is the error `FromString` makes itself. `NumError` is the `*strconv.NumError` that `ForSuffix` passes on.

## Model

| member | source | states |
|---|---|---|
| `Datasize.MultipliersArePowers` | datasize/datasize.go:18-25 | MultiBytes is 1 and each multiplier is 1024 times the previous one. So the i-th unit is worth 1024^i, and MultiPB is 1024^5 = 1125899906842624. |
| `Datasize.DataSize.String` | datasize/datasize.go:32-34 | The text ends with the unit verbatim. What comes before the unit is the `%d` rendering of the value. The text starts with `-` exactly when the value is negative. |
| `Decimal.FormatInt` | datasize/datasize.go:33 | `%d` of an integer is non-empty, starts with `-` exactly for negative values and is canonical: no leading zero and never `-0`. |
| `Decimal.NatDigits` | datasize/datasize.go:33 | The digits of a natural number are all ASCII digits. They start with `0` only for zero, and there is a single digit exactly when the number is below 10. |
| `Decimal.ParseInt` | datasize/datasize.go:84 | On success the text after the optional sign is a non-empty digit string. A negative result requires a leading `-`. |
| `Decimal.ParseIntMeaning` | datasize/datasize.go:84 | ParseInt yields v exactly when the text is a digit string, or `+` or `-` and a digit string, denoting v, and v lies in the int64 range. This covers both directions. |
| `Decimal.ParseIntRejectsNonDigit` | datasize/datasize.go:84 | Any character other than a digit past the optional sign makes the parse fail. Underscores are one such character. |
| `Decimal.ParseFormat` | datasize/datasize.go:33-34 | Parsing the `%d` rendering of v gives v back when v is an int64 and fails when v is outside that range. |
| `Decimal.FormatParse` | datasize/datasize.go:84 | Re-printing a parsed value reproduces the text exactly when the text was canonical. |
| `Decimal.DigitsValueOfNatDigits` | datasize/datasize.go:33 | Reading back the printed digits of n gives n. |
| `Decimal.NatDigitsOfDigitsValue` | datasize/datasize.go:84 | A digit string without leading zeros is the printed form of the number it denotes. |
| `Strings.HasSuffix` | datasize/datasize.go:64-76 | s ends with suffix exactly when s is some text followed by suffix. The body tests that the suffix is no longer than s and that s ends in exactly those characters. |
| `Strings.TrimSuffix` | datasize/datasize.go:83 | If the text ends with the suffix, the result followed by the suffix is the text. Otherwise the text is returned unchanged. |
| `Strings.TrimAppended` | datasize/datasize.go:83 | Text with a suffix appended ends with that suffix, and trimming it gives the text back. |
| `Int64.Wrap` | datasize/datasize.go:38-50 | The wrapped product is congruent to the mathematical product modulo 2^64 and equals it when it fits in int64. |
| `Int64.WrapUnique` | datasize/datasize.go:38-50 | Wrap is the only int64 value congruent to its argument modulo 2^64. |
| `Datasize.DataSize.ToBytes` | datasize/datasize.go:36-53 | Any unit other than KB, MB, GB, TB or PB, `Bytes` included, converts to the value unchanged. A zero value gives zero. |
| `Datasize.ToBytesScales` | datasize/datasize.go:36-53 | The byte count is the value times 1024 to the power of the unit's position in Bytes, KB, MB, GB, TB, PB, wrapped to int64. An unknown unit has position 0. |
| `Datasize.ToBytesExact` | datasize/datasize.go:36-53 | Without overflow the byte count is the exact product. It is negative exactly when the value is negative and zero exactly when the value is zero. |
| `Datasize.ForSuffix` | datasize/datasize.go:82-89 | ForSuffix succeeds exactly when ParseInt accepts the text with the suffix trimmed. It then returns that integer with the suffix as unit. On failure the error is NumError. |
| `Datasize.ForSuffixMeaning` | datasize/datasize.go:82-89 | ForSuffix yields d exactly when d's unit is the suffix and the trimmed text is a signed decimal numeral of d's value. |
| `Datasize.FromString` | datasize/datasize.go:63-80 | On success the unit is one of KB, MB, GB, TB, PB and the text ends with it, so the unit is never Bytes. The result is InvalidDataSize exactly when the text ends with none of the five. |
| `Datasize.ParsedUnitsExclusive` | datasize/datasize.go:63-78 | No text ends with two different parsed units. So the order of the tests decides nothing beyond determinism. |
| `Datasize.FromStringDelegates` | datasize/datasize.go:63-78 | When s ends with one of the five units, FromString(s) is ForSuffix(s, that unit). By `ParsedUnitsExclusive` that unit is the only one, so it is also the first in the order KB, MB, GB, TB, PB that s ends with. |
| `Datasize.FromStringMeaning` | datasize/datasize.go:63-89 | FromString yields d exactly when d's unit is a parsed unit, the text ends with it and ParseInt reads the rest as d's value. |
| `Datasize.RoundTrip` | datasize/datasize.go:32-89 | For every int64 value and each of KB, MB, GB, TB, PB, parsing the formatted size gives the same size back. |
| `Datasize.StringOfParsed` | datasize/datasize.go:32-89 | Formatting a parsed size reproduces the text exactly when its numeral is canonical: no `+`, no leading zero, no `-0`. |
| `Datasize.BytesDoNotRoundTrip` | datasize/datasize.go:63-79 | A size in Bytes formats to text that FromString rejects as InvalidDataSize. |
| `Datasize.ToBytes` | datasize/datasize.go:55-61 | ToBytes(s) fails exactly when FromString(s) fails, and then returns 0 with FromString's error. Otherwise it returns the parsed size's byte count. |
| `Datasize.ToBytesOfString` | datasize/datasize.go:32-61 | For each parsed unit, ToBytes of a formatted size is that size's byte count, with no error. |
| `DatasizeExamples.StringExamples` | datasize/datasize_test.go:7-70 | "1024Bytes", "5KB", "0MB", "3PB" and "-5GB" are the formatted forms of the tested sizes. |
| `DatasizeExamples.ToBytesExamples` | datasize/datasize_test.go:72-153 | The tested byte counts, including -1 MB giving -1048576 and max int64 in Bytes returned unchanged. |
| `DatasizeExamples.ToBytesOverflowWraps` | datasize/datasize.go:49-50 | 8192 PB, which is 2^63 bytes, wraps to -2^63. |
| `DatasizeExamples.FromStringAccepts` | datasize/datasize_test.go:162-206 | "1024KB", "5MB" and "3PB" parse to (1024, KB), (5, MB) and (3, PB). |
| `DatasizeExamples.FromStringRejectsUnit` | datasize/datasize_test.go:207-224 | "1024", "1024EB" and "" fail with InvalidDataSize. |
| `DatasizeExamples.FromStringRejectsNumeral` | datasize/datasize_test.go:225-236 | "KB" and "abcMB" fail with NumError. |
| `DatasizeExamples.ForSuffixExamples` | datasize/datasize_test.go:264-356 | "999999999GB" and "0MB" parse with their suffix. "abcKB" and "" fail with NumError. |
| `DatasizeExamples.ForSuffixWithoutSuffix` | datasize/datasize.go:82-88 | If the suffix is absent nothing is trimmed, so ForSuffix("1024", KB) gives (1024, KB). |
| `DatasizeExamples.ToBytesFromTextKB` | datasize/datasize.go:55-61 | ToBytes("1024KB") is 1048576 with no error. |
| `DatasizeExamples.ToBytesFromTextPB` | datasize/datasize.go:55-61 | ToBytes("3PB") is 3377699720527872 with no error. |
| `DatasizeExamples.ToBytesFromTextRejects` | datasize/datasize.go:55-61 | ToBytes("1024EB") is 0 with InvalidDataSize. |
| `DatasizeExamples.ParseIntSigns` | datasize/datasize.go:84 | `+7` and `007` read as 7 and `-0` as 0. A lone `-` is rejected. |
| `DatasizeExamples.ParseIntRejectsUnderscore` | datasize/datasize.go:84 | `1_000` is rejected: base 10 allows no underscores. |

## Left out

- Error values: the model has two error constants in place of Go's error values. The text of `FromString`'s error ("invalid data size: ...") is not modelled. Neither are the `Func`, `Num` and `Err` fields of `*strconv.NumError`, so a syntax error and a range error are the same `NumError`.
- Pointers: `*DataSize` results and nil are values of `Result`. Methods on a pointer receiver are functions on the value, because the package never mutates a `DataSize`.
- Library code: `fmt.Sprintf("%d%s", …)` and `strconv.ParseInt` are foreign library code. They are replaced by `FormatInt` and `ParseInt`, which follow the documented base-10, 64-bit behaviour and not the library's code.
- Strings are sequences of characters, not UTF-8 bytes. For valid UTF-8 text, character matching agrees with Go's byte matching in the suffix tests and the digit tests. A Go string that holds invalid UTF-8 cannot be represented.
- Go's ParseInt returns a clamped value alongside a range error. That value is not modelled, because `ForSuffix` discards it.
- Bounds examples: the concrete numerals of the int64 bounds ("9223372036854775807", "-9223372036854775808") are not checked by evaluation, because evaluating 19-digit numerals is too costly for the verifier. `ParseFormat` states the bound for every integer instead.
