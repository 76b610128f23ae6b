/**
 * Prices written the way the listing data and the report write them: a
 * currency symbol, a space, the whole amount with commas between groups of
 * three digits, a point and two decimal places ("€ 23,456.78", the shape
 * Python's `format(x, ",.2f")` produces for a non-negative amount).
 * Converting such a string gives back the amount exactly.
 */
module PriceFormat {
  import opened PyText
  import opened PyFloat
  import opened Prices
  import opened PriceProperties

  function DigitChar(d: nat): (c: char)
    requires d < 10
    ensures IsDigit(c) && DigitValue(c) == d
  {
    ('0' as int + d) as char
  }

  /** The decimal digits of `n`, without leading zeros. */
  function NatDigits(n: nat): (r: string)
    ensures |r| > 0 && AllDigits(r)
  {
    if n < 10 then [DigitChar(n)] else NatDigits(n / 10) + [DigitChar(n % 10)]
  }

  /** The digits `NatDigits` writes read back as the number. */
  lemma {:induction false} NatDigitsValue(n: nat)
    ensures DigitsValue(NatDigits(n)) == n
  {
    var r := NatDigits(n);
    if n < 10 {
      assert r[..0] == [];
    } else {
      NatDigitsValue(n / 10);
      assert r[..|r| - 1] == NatDigits(n / 10);
    }
  }

  /** Digits with a comma between each group of three, counted from the right. */
  function GroupThousands(d: string): (r: string)
    requires AllDigits(d)
    ensures |d| > 0 ==> |r| == |d| + (|d| - 1) / 3
    decreases |d|
  {
    if |d| <= 3 then d else GroupThousands(d[..|d| - 3]) + "," + d[|d| - 3..]
  }

  /** Deleting the commas of a grouped number gives back its digits. */
  lemma {:induction false} GroupThousandsUngroups(d: string)
    requires AllDigits(d)
    ensures RemoveSeparators(GroupThousands(d)) == d
    decreases |d|
  {
    if |d| <= 3 {
      RemoveSeparatorsKeeps(d);
    } else {
      var head, last := d[..|d| - 3], d[|d| - 3..];
      GroupThousandsUngroups(head);
      UngroupStep(GroupThousands(head), head, last);
      assert head + last == d;
    }
  }

  /** Deleting the separators of `g + "," + last`, where `last` has none. */
  lemma UngroupStep(g: string, head: string, last: string)
    requires RemoveSeparators(g) == head && AllDigits(last)
    ensures RemoveSeparators(g + "," + last) == head + last
  {
    RemoveSeparatorsKeeps(last);
    assert RemoveSeparators(",") == [];
    RemoveSeparatorsAppend(g, ",");
    RemoveSeparatorsAppend(g + ",", last);
  }

  /** Two decimal places for a number of hundredths. */
  function TwoDigits(k: nat): (r: string)
    requires k < 100
    ensures |r| == 2 && AllDigits(r)
  {
    [DigitChar(k / 10), DigitChar(k % 10)]
  }

  /** Two decimal places read back as the number of hundredths. */
  lemma TwoDigitsValue(k: nat)
    requires k < 100
    ensures FractionValue(TwoDigits(k)) == k as real / 100.0
  {
    var r := TwoDigits(k);
    assert r[1..] == [DigitChar(k % 10)] && r[1..][1..] == [];
    assert FractionValue(r[1..]) == (k % 10) as real / 10.0;
    assert k == 10 * (k / 10) + k % 10;
  }

  /** An amount of `cents` hundredths written as "23,456.78". */
  function FormatAmount(cents: nat): string {
    GroupThousands(NatDigits(cents / 100)) + "." + TwoDigits(cents % 100)
  }

  /** A price written as "€ 23,456.78". */
  function FormatPrice(symbol: char, cents: nat): string
    requires IsKnownCurrency(symbol)
  {
    [symbol] + " " + FormatAmount(cents)
  }

  /** Deleting the separators of a written amount leaves a plain literal. */
  lemma FormatAmountUngroups(cents: nat)
    ensures RemoveSeparators(FormatAmount(cents))
            == NatDigits(cents / 100) + "." + TwoDigits(cents % 100)
  {
    var d, f := NatDigits(cents / 100), TwoDigits(cents % 100);
    GroupThousandsUngroups(d);
    assert RemoveSeparators(".") == ".";
    RemoveSeparatorsKeeps(f);
    RemoveSeparatorsAppend(GroupThousands(d), ".");
    RemoveSeparatorsAppend(GroupThousands(d) + ".", f);
  }

  /** The literal behind a written amount denotes exactly the amount. */
  lemma AmountLiteral(cents: nat)
    ensures IsDecimal(NatDigits(cents / 100) + "." + TwoDigits(cents % 100))
    ensures DecimalValue(NatDigits(cents / 100) + "." + TwoDigits(cents % 100)) == cents as real / 100.0
  {
    var whole, hundredths := cents / 100, cents % 100;
    ComposeDecimal(NatDigits(whole), TwoDigits(hundredths));
    NatDigitsValue(whole);
    TwoDigitsValue(hundredths);
    assert cents == 100 * whole + hundredths;
  }

  /** A price whose characters other than separators spell an amount with
      two decimal places converts to exactly that amount, wherever the
      separators stand. */
  lemma WrittenAmount(price: string, cents: nat)
    requires RemoveSeparators(price) == NatDigits(cents / 100) + "." + TwoDigits(cents % 100)
    ensures ConvertPrice(price) == Converted(cents as real / 100.0)
  {
    var kept := RemoveSeparators(price);
    assert IsDecimal(kept) && DecimalValue(kept) == cents as real / 100.0 by {
      AmountLiteral(cents);
    }
    FailuresAreBadPriceFormat(ConvertPrice(price));
    SeparatedAmountConverts(price);
  }

  /** A price whose characters other than separators spell a whole number
      converts to exactly that number. */
  lemma WholeWrittenAmount(price: string, n: nat)
    requires RemoveSeparators(price) == NatDigits(n)
    ensures ConvertPrice(price) == Converted(n as real)
  {
    NatDigitsValue(n);
    ComposeInteger(NatDigits(n));
    SeparatedAmountConverts(price);
  }

  /** A written amount converts back to exactly the amount. */
  lemma AmountRoundTrip(cents: nat)
    ensures ConvertPrice(FormatAmount(cents)) == Converted(cents as real / 100.0)
  {
    FormatAmountUngroups(cents);
    WrittenAmount(FormatAmount(cents), cents);
  }

  /** A written price converts back to exactly the amount, whichever known
      currency symbol it carries. */
  lemma PriceRoundTrip(symbol: char, cents: nat)
    requires IsKnownCurrency(symbol)
    ensures ConvertPrice(FormatPrice(symbol, cents)) == Converted(cents as real / 100.0)
  {
    var amount := FormatAmount(cents);
    var prefix := [symbol] + " ";
    assert amount != [] by { assert amount[|amount| - 3] == '.'; }
    assert AllPadding(prefix);
    assert AllPadding([]);
    assert ConvertPrice(prefix + amount + []) == ConvertPrice(amount) by {
      AmountRoundTrip(cents);
      PaddingInvariance(prefix, amount, []);
    }
    assert prefix + amount + [] == FormatPrice(symbol, cents);
    AmountRoundTrip(cents);
  }
}
