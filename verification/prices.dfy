/**
 * Price strings as they appear in the listing data, e.g. "€ 23,456.78", and
 * their conversion to numbers.
 *
 * A conversion has three outcomes, mirroring the exception hierarchy of the
 * price module: a number, an unknown-currency error (which is a kind of
 * bad-price-format error) or a plain bad-price-format error.
 */
module Prices {
  import opened PyText
  import opened PyFloat

  /** The currency symbols the cleaning step knows: dollar, pound, euro. */
  predicate IsKnownCurrency(c: char) {
    c == '$' || c == '£' || c == '€'
  }

  /** The characters the cleaning step deletes wherever they occur. */
  predicate IsSeparator(c: char) {
    c == ',' || c == ' ' || IsKnownCurrency(c)
  }

  predicate NoSeparators(s: string) {
    forall i :: 0 <= i < |s| ==> !IsSeparator(s[i])
  }

  /** Deletes every separator and keeps every other character, in order. */
  function RemoveSeparators(s: string): (r: string)
    ensures NoSeparators(r)
  {
    if s == [] then [] else (if IsSeparator(s[0]) then [] else [s[0]]) + RemoveSeparators(s[1..])
  }

  /** Every character other than a separator is kept as often as it occurs. */
  lemma {:induction false} RemoveSeparatorsCounts(s: string)
    ensures forall c :: !IsSeparator(c) ==> multiset(RemoveSeparators(s))[c] == multiset(s)[c]
    decreases |s|
  {
    if s != [] {
      assert s == [s[0]] + s[1..];
      RemoveSeparatorsCounts(s[1..]);
    }
  }

  /** The cleaned price: separators deleted, then whitespace stripped from
      both ends. */
  function Clean(price: string): (r: string)
    ensures NoSeparators(r) && IsStripped(r)
  {
    StripInfix(RemoveSeparators(price));
    Strip(RemoveSeparators(price))
  }

  /** Cleaning invents nothing: no character occurs in the cleaned price more
      often than in the price. */
  lemma CleanKeepsCharacters(price: string)
    ensures forall c :: multiset(Clean(price))[c] <= multiset(price)[c]
  {
    var kept := RemoveSeparators(price);
    RemoveSeparatorsCounts(price);
    StripSubset(kept);
  }

  /** Python's `s[1:]`, which is empty for the empty string. */
  function Tail(s: string): (r: string)
    ensures |r| == if s == [] then 0 else |s| - 1
    ensures forall i :: 0 <= i < |r| ==> r[i] == s[i + 1]
  {
    if s == [] then [] else s[1..]
  }

  /** Why a price was rejected as badly formatted. */
  datatype Fault = EmptyPrice | BadPrice

  /** The outcome of converting a price string. Both error variants carry
      the price as given; an unknown-currency error is also a bad-price-format
      error, as `IsBadPriceFormat` records. */
  datatype Conversion =
    | Converted(value: real)
    | UnknownCurrencyError(price: string)
    | BadPriceFormat(fault: Fault, price: string)
  {
    /** The outcome would be caught as a bad-price-format error. */
    predicate IsBadPriceFormat() {
      UnknownCurrencyError? || BadPriceFormat?
    }
  }

  /** Since `UnknownCurrencyError` is a subclass of `BadPriceFormat`, an
      outcome is caught as a bad price format exactly when it is not a
      number. */
  lemma FailuresAreBadPriceFormat(r: Conversion)
    ensures r.IsBadPriceFormat() <==> !r.Converted?
  {
  }

  /** Converts a price string to a number. An empty price (or none) is
      rejected outright. Otherwise the cleaned price is read as a number; if
      that fails but the cleaned price minus its first character reads, that
      character is taken for an unknown currency symbol; if both fail, the
      price is badly formatted. */
  function ConvertPrice(price: string): (r: Conversion)
    ensures price == [] ==> r == BadPriceFormat(EmptyPrice, price)
    ensures r.IsBadPriceFormat() ==> r.price == price
    ensures r.Converted? ==> IsDecimal(Clean(price)) && r.value == DecimalValue(Clean(price))
    ensures r.UnknownCurrencyError? ==> !IsDecimal(Clean(price)) && FloatAccepts(Tail(Clean(price)))
  {
    if price == [] then
      BadPriceFormat(EmptyPrice, price)
    else
      var stripped := Clean(price);
      StrippedIsFloatStripped(stripped);
      if FloatAccepts(stripped) then
        Converted(FloatValue(stripped))
      else if FloatAccepts(Tail(stripped)) then
        UnknownCurrencyError(price)
      else
        BadPriceFormat(BadPrice, price)
  }

  /** The conversion written the way the price module runs it: a first
      `float()` attempt, and on failure a second attempt on the cleaned price
      minus its first character. */
  method ConvertPriceToFloat(price: string) returns (r: Conversion)
    ensures r == ConvertPrice(price)
  {
    if price == [] {
      return BadPriceFormat(EmptyPrice, price);
    }
    var stripped := Clean(price);
    var first := ParseFloat(stripped);
    if first.Some? {
      return Converted(first.value);
    }
    var second := ParseFloat(Tail(stripped));
    if second.Some? {
      return UnknownCurrencyError(price);
    }
    return BadPriceFormat(BadPrice, price);
  }
}
