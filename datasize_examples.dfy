/** Concrete inputs and their expected results, as the package's tests state them. */
module DatasizeExamples {
  import opened Wrappers
  import opened Int64
  import opened Strings
  import opened Decimal
  import opened Datasize

  lemma StringExamples()
    ensures DataSize(1024, Bytes).String() == "1024Bytes"
    ensures DataSize(5, KB).String() == "5KB"
    ensures DataSize(0, MB).String() == "0MB"
    ensures DataSize(3, PB).String() == "3PB"
    ensures DataSize(-5, GB).String() == "-5GB"
  {
  }

  lemma ToBytesExamples()
    ensures DataSize(1024, Bytes).ToBytes() == 1024
    ensures DataSize(5, KB).ToBytes() == 5 * 1024
    ensures DataSize(1, PB).ToBytes() == 1024 * 1024 * 1024 * 1024 * 1024
    ensures DataSize(1000, TB).ToBytes() == 1000 * 1024 * 1024 * 1024 * 1024
    ensures DataSize(0, GB).ToBytes() == 0
    ensures DataSize(-1, MB).ToBytes() == -1_048_576
    ensures DataSize(Max, Bytes).ToBytes() == Max
  {
  }

  /** 8192 PB is 2^63 bytes, one past the largest int64: the count wraps to the smallest. */
  lemma ToBytesOverflowWraps()
    ensures DataSize(8192, PB).ToBytes() == Min
  {
  }

  /** The three well-formed inputs of the tests parse to their size. */
  lemma FromStringAccepts()
    ensures FromString("1024KB") == Success(DataSize(1024, KB))
    ensures FromString("5MB") == Success(DataSize(5, MB))
    ensures FromString("3PB") == Success(DataSize(3, PB))
  {
    assert DataSize(1024, KB).String() == "1024KB";
    assert DataSize(5, MB).String() == "5MB";
    assert DataSize(3, PB).String() == "3PB";
    RoundTrip(DataSize(1024, KB));
    RoundTrip(DataSize(5, MB));
    RoundTrip(DataSize(3, PB));
  }

  /** Text without a parsed unit at its end is rejected as an invalid data size. */
  lemma FromStringRejectsUnit()
    ensures FromString("1024") == Failure(InvalidDataSize)
    ensures FromString("1024EB") == Failure(InvalidDataSize)
    ensures FromString("") == Failure(InvalidDataSize)
  {
    assert "1024"[2..] == "24";
    assert "1024EB"[4..] == "EB";
  }

  /** A unit with nothing, or with letters, before it is rejected by the number parser. */
  lemma FromStringRejectsNumeral()
    ensures FromString("KB") == Failure(NumError)
    ensures FromString("abcMB") == Failure(NumError)
  {
    TrimAppended("", KB);
    FromStringDelegates("KB", KB);
    TrimAppended("abc", MB);
    assert "abc" + MB == "abcMB";
    FromStringDelegates("abcMB", MB);
    ParseIntRejectsNonDigit("abc", 0);
  }

  lemma ForSuffixExamples()
    ensures ForSuffix("999999999GB", GB) == Success(DataSize(999999999, GB))
    ensures ForSuffix("0MB", MB) == Success(DataSize(0, MB))
    ensures ForSuffix("abcKB", KB) == Failure(NumError)
    ensures ForSuffix("", KB) == Failure(NumError)
  {
    assert DataSize(999999999, GB).String() == "999999999GB";
    ParseFormat(999999999);
    assert DataSize(0, MB).String() == "0MB";
    ParseFormat(0);
    TrimAppended("abc", KB);
    assert "abc" + KB == "abcKB";
    ParseIntRejectsNonDigit("abc", 0);
  }

  /** Trimming an absent suffix changes nothing, so a bare numeral is accepted for any unit. */
  lemma ForSuffixWithoutSuffix()
    ensures ForSuffix("1024", KB) == Success(DataSize(1024, KB))
  {
    assert "1024"[2..] == "24";
    assert FormatInt(1024) == "1024";
    ParseFormat(1024);
  }

  /** ToBytes on text gives the byte count of what FromString read. */
  lemma ToBytesFromTextKB()
    ensures Datasize.ToBytes("1024KB") == (1_048_576, None)
  {
    FromStringAccepts();
    assert DataSize(1024, KB).ToBytes() == 1_048_576;
  }

  lemma ToBytesFromTextPB()
    ensures Datasize.ToBytes("3PB") == (3_377_699_720_527_872, None)
  {
    assert DataSize(3, PB).String() == "3PB";
    RoundTrip(DataSize(3, PB));
    var d := DataSize(3, PB);
    assert 3 * MultiPB == 3_377_699_720_527_872;
    assert d.ToBytes() == Wrap(3 * MultiPB);
  }

  /** On a parse failure ToBytes gives 0 and the parse error. */
  lemma ToBytesFromTextRejects()
    ensures Datasize.ToBytes("1024EB") == (0, Some(InvalidDataSize))
  {
    FromStringRejectsUnit();
  }

  /** Go's ParseInt accepts a plus sign and leading zeros, and "-0". */
  lemma ParseIntSigns()
    ensures ParseInt("+7") == Some(7)
    ensures ParseInt("-0") == Some(0)
    ensures ParseInt("007") == Some(7)
    ensures ParseInt("-") == None
  {
    assert "007"[..2] == "00" && "00"[..1] == "0";
  }

  lemma ParseIntRejectsUnderscore()
    ensures ParseInt("1_000") == None
  {
    ParseIntRejectsNonDigit("1_000", 1);
  }
}
