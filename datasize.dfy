/**
 * The `datasize` package: a size written as a decimal integer followed by a
 * unit ("5MB"), its conversion to a byte count, and the parser for that text.
 */
module Datasize {
  import opened Wrappers
  import opened Int64
  import opened Strings
  import opened Decimal

  // Unit texts.
  const Bytes: string := "Bytes"
  const KB: string := "KB"
  const MB: string := "MB"
  const GB: string := "GB"
  const TB: string := "TB"
  const PB: string := "PB"

  // Byte multipliers, each 1024 times the one before.
  const MultiBytes: int64 := 1
  const MultiKB: int64 := 1024
  const MultiMB: int64 := MultiKB * 1024
  const MultiGB: int64 := MultiMB * 1024
  const MultiTB: int64 := MultiGB * 1024
  const MultiPB: int64 := MultiTB * 1024

  /** All six units, smallest first: a unit's position is its power of 1024. */
  const Units: seq<string> := [Bytes, KB, MB, GB, TB, PB]

  /** The units FromString recognises, in the order it tries them; "Bytes" is not among them. */
  const ParsedUnits: seq<string> := [KB, MB, GB, TB, PB]

  function Pow(b: nat, e: nat): nat {
    if e == 0 then 1 else b * Pow(b, e - 1)
  }

  /** The power of 1024 a unit stands for: its position in Units, and 0 for any text not among them. */
  ghost function Exponent(unit: string): (e: nat)
    ensures e < |Units|
    ensures unit in Units ==> Units[e] == unit
    ensures unit !in Units ==> e == 0
  {
    if unit in Units then var i :| 0 <= i < |Units| && Units[i] == unit; i else 0
  }

  /** The ways a parse can fail: no recognised unit, or a numeral strconv.ParseInt rejects. */
  datatype Error = InvalidDataSize | NumError

  /** A magnitude and a unit. The unit is free text; only the six constants above have a meaning. */
  datatype DataSize = DataSize(value: int64, unit: string) {

    /** `%d` of the value followed by the unit text. */
    function String(): (s: string)
      ensures HasSuffix(s, unit) && TrimSuffix(s, unit) == FormatInt(value)
      ensures s[0] == '-' <==> value < 0
    {
      TrimAppended(FormatInt(value), unit);
      FormatInt(value) + unit
    }

    /** The byte count, with Go's silent int64 wrap-around when the product overflows. */
    function ToBytes(): (n: int64)
      ensures unit !in ParsedUnits ==> n == value
      ensures value == 0 ==> n == 0
    {
      if unit == KB then Wrap(value * MultiKB)
      else if unit == MB then Wrap(value * MultiMB)
      else if unit == GB then Wrap(value * MultiGB)
      else if unit == TB then Wrap(value * MultiTB)
      else if unit == PB then Wrap(value * MultiPB)
      else value
    }
  }

  /** Parses the text before `suffix` (all of `s` if it does not end with `suffix`) and pairs it with `suffix`. */
  function ForSuffix(s: string, suffix: string): (r: Result<DataSize, Error>)
    ensures r.Success? <==> ParseInt(TrimSuffix(s, suffix)).Some?
    ensures r.Success? ==> r.value == DataSize(ParseInt(TrimSuffix(s, suffix)).value, suffix)
    ensures r.Failure? ==> r.error == NumError
  {
    match ParseInt(TrimSuffix(s, suffix))
    case Some(v) => Success(DataSize(v, suffix))
    case None => Failure(NumError)
  }

  /** Tries the suffixes KB, MB, GB, TB, PB in turn and parses with the first that `s` ends with. */
  function FromString(s: string): (r: Result<DataSize, Error>)
    ensures r.Success? ==> r.value.unit in ParsedUnits && HasSuffix(s, r.value.unit)
    ensures r == Failure(InvalidDataSize) <==> forall u :: u in ParsedUnits ==> !HasSuffix(s, u)
  {
    if HasSuffix(s, KB) then ForSuffix(s, KB)
    else if HasSuffix(s, MB) then ForSuffix(s, MB)
    else if HasSuffix(s, GB) then ForSuffix(s, GB)
    else if HasSuffix(s, TB) then ForSuffix(s, TB)
    else if HasSuffix(s, PB) then ForSuffix(s, PB)
    else Failure(InvalidDataSize)
  }

  /** Parses `s` and converts it to bytes; on failure the count is 0 and the parse error is passed on. */
  function ToBytes(s: string): (r: (int64, Option<Error>))
    ensures r.1.Some? <==> FromString(s).Failure?
    ensures r.1.Some? ==> r.0 == 0 && r.1.value == FromString(s).error
    ensures r.1.None? ==> r.0 == FromString(s).value.ToBytes()
  {
    match FromString(s)
    case Failure(e) => (0, Some(e))
    case Success(d) => (d.ToBytes(), None)
  }

  // ---------------------------------------------------------------------------
  // Multipliers and conversion

  /** Each multiplier is 1024 times the previous one, so unit number i of Units is worth 1024^i bytes. */
  lemma MultipliersArePowers()
    ensures MultiBytes == 1
    ensures MultiKB == 1024 * MultiBytes && MultiMB == 1024 * MultiKB && MultiGB == 1024 * MultiMB
    ensures MultiTB == 1024 * MultiGB && MultiPB == 1024 * MultiTB
    ensures MultiBytes == Pow(1024, 0) && MultiKB == Pow(1024, 1) && MultiMB == Pow(1024, 2)
    ensures MultiGB == Pow(1024, 3) && MultiTB == Pow(1024, 4) && MultiPB == Pow(1024, 5)
    ensures MultiPB == 1_125_899_906_842_624
  {
  }

  /** Converting multiplies the value by 1024 to the power of the unit's position, wrapping to int64. */
  lemma ToBytesScales(d: DataSize)
    ensures d.ToBytes() == Wrap(d.value * Pow(1024, Exponent(d.unit)))
  {
    MultipliersArePowers();
    var e := Exponent(d.unit);
    if d.unit in Units {
      assert Units[e] == d.unit;
      assert d.unit == Units[0] || d.unit == Units[1] || d.unit == Units[2]
        || d.unit == Units[3] || d.unit == Units[4] || d.unit == Units[5];
    }
  }

  /** Without overflow the byte count is the exact product, and it has the sign of the value. */
  lemma ToBytesExact(d: DataSize)
    requires IsInt64(d.value * Pow(1024, Exponent(d.unit)))
    ensures d.ToBytes() == d.value * Pow(1024, Exponent(d.unit))
    ensures d.ToBytes() < 0 <==> d.value < 0
    ensures d.ToBytes() == 0 <==> d.value == 0
  {
    ToBytesScales(d);
    PowPositive(1024, Exponent(d.unit));
  }

  lemma {:induction false} PowPositive(b: nat, e: nat)
    requires b > 0
    ensures Pow(b, e) > 0
  {
    if e > 0 {
      PowPositive(b, e - 1);
    }
  }

  // ---------------------------------------------------------------------------
  // Parsing

  /**
   * ForSuffix yields `d` exactly when `d.unit` is the given suffix and the
   * text left after trimming it is a signed decimal numeral of `d.value`.
   */
  lemma ForSuffixMeaning(s: string, suffix: string, d: DataSize)
    ensures ForSuffix(s, suffix) == Success(d) <==> d.unit == suffix && Denotes(TrimSuffix(s, suffix), d.value)
  {
    ParseIntMeaning(TrimSuffix(s, suffix), d.value);
  }

  /** No text ends with two different ones of KB, MB, GB, TB and PB. */
  lemma ParsedUnitsExclusive(s: string, u: string, w: string)
    requires u in ParsedUnits && w in ParsedUnits
    requires HasSuffix(s, u) && HasSuffix(s, w)
    ensures u == w
  {
  }

  /** FromString hands `s` to ForSuffix with the unit it ends with, whichever of the five that is. */
  lemma FromStringDelegates(s: string, u: string)
    requires u in ParsedUnits && HasSuffix(s, u)
    ensures FromString(s) == ForSuffix(s, u)
  {
    // Every parsed unit has two characters, so each test looks at the same last two.
    var tail := s[|s| - 2..];
    assert tail == u;
    assert HasSuffix(s, KB) <==> tail == KB;
    assert HasSuffix(s, MB) <==> tail == MB;
    assert HasSuffix(s, GB) <==> tail == GB;
    assert HasSuffix(s, TB) <==> tail == TB;
  }

  /**
   * FromString yields `d` exactly when `s` ends with one of the five parsed
   * units and the text before it is a numeral ParseInt reads as the value.
   */
  lemma FromStringMeaning(s: string, d: DataSize)
    ensures FromString(s) == Success(d)
        <==> d.unit in ParsedUnits && HasSuffix(s, d.unit) && ParseInt(TrimSuffix(s, d.unit)) == Some(d.value)
  {
    if d.unit in ParsedUnits && HasSuffix(s, d.unit) {
      FromStringDelegates(s, d.unit);
    }
    if FromString(s).Success? {
      FromStringDelegates(s, FromString(s).value.unit);
    }
  }

  /** Formatting then parsing returns the same size, for every int64 value and each of the five parsed units. */
  lemma RoundTrip(d: DataSize)
    requires d.unit in ParsedUnits
    ensures FromString(d.String()) == Success(d)
  {
    var s := d.String();
    FromStringDelegates(s, d.unit);
    ParseFormat(d.value);
  }

  /** Parsing then formatting returns the text exactly when its numeral has the form `%d` prints. */
  lemma StringOfParsed(s: string)
    requires FromString(s).Success?
    ensures FromString(s).value.String() == s <==> IsCanonical(TrimSuffix(s, FromString(s).value.unit))
  {
    var d := FromString(s).value;
    var numeral := TrimSuffix(s, d.unit);
    FromStringDelegates(s, d.unit);
    FormatParse(numeral);
    if d.String() == s {
      assert FormatInt(d.value) == numeral;
    }
  }

  /** A size in Bytes prints to text that FromString rejects: "Bytes" is never a parsed unit. */
  lemma BytesDoNotRoundTrip(v: int64)
    ensures FromString(DataSize(v, Bytes).String()) == Failure(InvalidDataSize)
  {
    var s := DataSize(v, Bytes).String();
    assert s[|s| - 2..] == "es";
  }

  /** ToBytes on printed text gives the byte count of the size that was printed. */
  lemma ToBytesOfString(d: DataSize)
    requires d.unit in ParsedUnits
    ensures ToBytes(d.String()) == (d.ToBytes(), None)
  {
    RoundTrip(d);
  }
}
