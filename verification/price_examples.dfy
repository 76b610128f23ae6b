/**
 * The concrete conversions the price module's documentation and its tests
 * name, each derived from the general properties.
 *
 * Each price is first split into short pieces whose cleaning is computed on
 * its own, and the pieces are spelled as the digits of the amount in
 * separate lemmas; the conversion then follows from a general lemma by
 * rewriting alone.
 */
module PriceExamples {
  import opened PyText
  import opened PyFloat
  import opened Prices
  import opened PriceProperties
  import opened PriceFormat

  // ---------------------------------------------------------------------
  // Amounts
  // ---------------------------------------------------------------------

  lemma DocumentedSplit()
    ensures "€ 23,456.78" == "€ 23," + "456.78"
  {
  }

  lemma DocumentedFront()
    ensures RemoveSeparators("€ 23,") == "23"
  {
  }

  lemma DocumentedBack()
    ensures RemoveSeparators("456.78") == "456.78"
  {
    assert NoSeparators("456.78");
    RemoveSeparatorsKeeps("456.78");
  }

  lemma DocumentedDigits()
    ensures "23" + "456.78" == NatDigits(23456) + "." + TwoDigits(78)
  {
    assert NatDigits(23456) == "23456";
  }

  /** The documented example of the data format. */
  lemma GroupedEuroAmount()
    ensures ConvertPrice("€ 23,456.78") == Converted(23456.78)
  {
    DocumentedSplit();
    DocumentedFront();
    DocumentedBack();
    RemoveSeparatorsAppend("€ 23,", "456.78");
    DocumentedDigits();
    assert 2345678 / 100 == 23456 && 2345678 % 100 == 78;
    WrittenAmount("€ 23,456.78", 2345678);
  }

  lemma UnspacedEuroSplit()
    ensures "€9,123.45" == "€9," + "123.45"
  {
  }

  lemma UnspacedEuroFront()
    ensures RemoveSeparators("€9,") == "9"
  {
  }

  lemma UnspacedEuroBack()
    ensures RemoveSeparators("123.45") == "123.45"
  {
    assert NoSeparators("123.45");
    RemoveSeparatorsKeeps("123.45");
  }

  lemma UnspacedEuroDigits()
    ensures "9" + "123.45" == NatDigits(9123) + "." + TwoDigits(45)
  {
    assert NatDigits(9123) == "9123";
  }

  /** A euro amount with no space after the symbol. */
  lemma UnspacedEuroAmount()
    ensures ConvertPrice("€9,123.45") == Converted(9123.45)
  {
    UnspacedEuroSplit();
    UnspacedEuroFront();
    UnspacedEuroBack();
    RemoveSeparatorsAppend("€9,", "123.45");
    UnspacedEuroDigits();
    assert 912345 / 100 == 9123 && 912345 % 100 == 45;
    WrittenAmount("€9,123.45", 912345);
  }

  lemma PlainDigits()
    ensures "123.45" == NatDigits(123) + "." + TwoDigits(45)
  {
    assert NatDigits(123) == "123";
  }

  lemma PlainAmount()
    ensures ConvertPrice("123.45") == Converted(123.45)
  {
    UnspacedEuroBack();
    PlainDigits();
    assert 12345 / 100 == 123 && 12345 % 100 == 45;
    WrittenAmount("123.45", 12345);
  }

  lemma PaddedDollarSplit()
    ensures "$ 123.45 " == "$ 12" + "3.45 "
  {
  }

  lemma PaddedDollarFront()
    ensures RemoveSeparators("$ 12") == "12"
  {
  }

  lemma PaddedDollarBack()
    ensures RemoveSeparators("3.45 ") == "3.45"
  {
  }

  lemma PaddedDollarDigits()
    ensures "12" + "3.45" == NatDigits(123) + "." + TwoDigits(45)
  {
    assert NatDigits(123) == "123";
  }

  /** A dollar amount with a trailing space. */
  lemma PaddedDollarAmount()
    ensures ConvertPrice("$ 123.45 ") == Converted(123.45)
  {
    PaddedDollarSplit();
    PaddedDollarFront();
    PaddedDollarBack();
    RemoveSeparatorsAppend("$ 12", "3.45 ");
    PaddedDollarDigits();
    assert 12345 / 100 == 123 && 12345 % 100 == 45;
    WrittenAmount("$ 123.45 ", 12345);
  }

  /** An empty (or missing) price is a format error. */
  lemma MissingPrice()
    ensures ConvertPrice("").IsBadPriceFormat()
    ensures ConvertPrice("") == BadPriceFormat(EmptyPrice, "")
  {
    EmptyPriceRejected();
  }

  lemma ZeroDigits()
    ensures RemoveSeparators("0") == NatDigits(0)
    ensures RemoveSeparators("0.00") == NatDigits(0 / 100) + "." + TwoDigits(0 % 100)
  {
  }

  /** Zero with and without decimal places converts to zero. */
  lemma ZeroPrices()
    ensures ConvertPrice("0") == Converted(0.0)
    ensures ConvertPrice("0.00") == Converted(0.0)
  {
    ZeroDigits();
    WholeWrittenAmount("0", 0);
    WrittenAmount("0.00", 0);
  }

  lemma OneTwoThree()
    ensures NatDigits(123) == "123"
  {
  }

  lemma DollarDigits()
    ensures RemoveSeparators("$ 123") == "123"
  {
  }

  lemma PoundDigits()
    ensures RemoveSeparators("£ 123 ") == "123"
  {
  }

  lemma EuroDigits()
    ensures RemoveSeparators("€ 123") == "123"
  {
  }

  /** Dollars, pounds and euros, with or without trailing space. */
  lemma KnownCurrencies()
    ensures ConvertPrice("$ 123") == Converted(123.0)
    ensures ConvertPrice("£ 123 ") == Converted(123.0)
    ensures ConvertPrice("€ 123") == Converted(123.0)
  {
    OneTwoThree();
    DollarDigits();
    PoundDigits();
    EuroDigits();
    WholeWrittenAmount("$ 123", 123);
    WholeWrittenAmount("£ 123 ", 123);
    WholeWrittenAmount("€ 123", 123);
  }

  // ---------------------------------------------------------------------
  // Errors
  // ---------------------------------------------------------------------

  /** "123" is a literal of the grammar. */
  lemma OneTwoThreeReads()
    ensures IsDecimal("123")
  {
    assert Mantissa("123") == "123";
    assert DotIndex("123") == 3;
  }

  lemma YenSpelling()
    ensures ['¥'] + " " + "123" + [] == "¥ 123"
  {
  }

  /** The yen sign is not a known currency. */
  lemma YenPrice()
    ensures ConvertPrice("¥ 123") == UnknownCurrencyError("¥ 123")
  {
    YenSpelling();
    OneTwoThreeReads();
    assert IsForeign('¥') && AllFloatPadding(" ") && AllPadding([]);
    UnknownCurrencySymbol('¥', " ", "123", []);
  }

  lemma HryvniaSpelling()
    ensures ['₴'] + " " + "123" + " " == "₴ 123 "
  {
  }

  /** The hryvnia sign is not a known currency either. */
  lemma HryvniaPrice()
    ensures ConvertPrice("₴ 123 ") == UnknownCurrencyError("₴ 123 ")
  {
    HryvniaSpelling();
    OneTwoThreeReads();
    assert IsForeign('₴') && AllFloatPadding(" ") && AllPadding(" ");
    UnknownCurrencySymbol('₴', " ", "123", " ");
  }

  lemma LetterSpelling()
    ensures ['L'] + " " + "123" + " " == "L 123 "
  {
  }

  /** Nor is a letter in the place of a currency symbol. */
  lemma LetterPrice()
    ensures ConvertPrice("L 123 ") == UnknownCurrencyError("L 123 ")
  {
    LetterSpelling();
    OneTwoThreeReads();
    assert IsForeign('L') && AllFloatPadding(" ") && AllPadding(" ");
    UnknownCurrencySymbol('L', " ", "123", " ");
  }

  lemma YenInfoSeparatorSpelling()
    ensures ['¥', '\U{001C}'] + "123" == "¥\U{001C}123"
  {
  }

  /** The yen sign followed by a file separator instead of a space: cleaning
      keeps the separator and `float()` does not skip it, so this is a plain
      format error. */
  lemma YenInfoSeparatorPrice()
    ensures ConvertPrice("¥\U{001C}123") == BadPriceFormat(BadPrice, "¥\U{001C}123")
  {
    YenInfoSeparatorSpelling();
    OneTwoThreeReads();
    InfoSeparatorAfterFirst('¥', '\U{001C}', "123");
  }

  /** A unit separator between two digits: neither reading succeeds. */
  lemma DigitsAroundInfoSeparator()
    ensures ConvertPrice("5\U{001F}6") == BadPriceFormat(BadPrice, "5\U{001F}6")
  {
    assert ['5', '\U{001F}'] + "6" == "5\U{001F}6";
    assert IsDecimal("6") by {
      assert DotIndex("6") == 1;
    }
    InfoSeparatorAfterFirst('5', '\U{001F}', "6");
  }

  /** Text with no readable amount is a plain format error. */
  lemma NotANumber()
    ensures ConvertPrice("not a number") == BadPriceFormat(BadPrice, "not a number")
  {
    assert ['n', 'o'] + "t a number" == "not a number";
    assert IsForeign('n') && IsForeign('o');
    ForeignPrefixRejected('n', 'o', "t a number");
  }

  /** A three-letter currency code is not a currency symbol: only one
      character is dropped before the second reading. */
  lemma CurrencyCode()
    ensures ConvertPrice("USD 123") == BadPriceFormat(BadPrice, "USD 123")
  {
    assert ['U', 'S'] + "D 123" == "USD 123";
    assert IsForeign('U') && IsForeign('S');
    ForeignPrefixRejected('U', 'S', "D 123");
  }

  /** The literal "-5" and the range "1-5" around it. */
  lemma RangeReadings()
    ensures ['1'] + "-5" == "1-5"
    ensures IsDecimal("-5") && !IsDecimal("1-5")
  {
    assert Mantissa("-5") == "5";
    assert DotIndex("5") == 1;
    assert DotIndex("1-5") == 3;
    assert IntegerPart("1-5")[1] == '-';
  }

  /** A range such as "1-5" is reported as an unknown currency: without its
      first character it reads as the number -5. */
  lemma PriceRange()
    ensures ConvertPrice("1-5") == UnknownCurrencyError("1-5")
  {
    RangeReadings();
    FirstCharacterDropped('1', "-5");
  }

  /** "1..5" has no separators and no surrounding whitespace. */
  lemma DoubledPointCleans()
    ensures Clean("1..5") == "1..5"
  {
    RemoveSeparatorsKeeps("1..5");
    StripStripped("1..5");
  }

  /** "1..5" does not read as a whole. */
  lemma DoubledPointWhole()
    ensures !IsDecimal("1..5")
  {
    assert DotIndex("1..5") == 1;
    assert FractionPart("1..5")[0] == '.';
  }

  /** Nor does it without its first character. */
  lemma DoubledPointTail()
    ensures Tail("1..5") == "..5" && !FloatAccepts("..5")
  {
    StrippedIsFloatStripped("..5");
    assert DotIndex("..5") == 0;
    assert FractionPart("..5")[0] == '.';
  }

  /** Two points in a row: the number reads neither whole nor without its
      first character, so it is a plain format error. */
  lemma DoubledPoint()
    ensures ConvertPrice("1..5") == BadPriceFormat(BadPrice, "1..5")
  {
    DoubledPointCleans();
    DoubledPointWhole();
    DoubledPointTail();
    SecondReading("1..5");
  }
}
