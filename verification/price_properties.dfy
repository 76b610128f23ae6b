/**
 * What price conversion promises, stated over all inputs: how cleaning
 * behaves, that known currency symbols and separators around an amount do
 * not change its value, and which inputs are reported as an unknown
 * currency and which as a plain format error.
 */
module PriceProperties {
  import opened PyText
  import opened PyFloat
  import opened Prices

  /** Characters that cleaning removes or strips: separators, known currency
      symbols and whitespace. */
  predicate IsPadding(c: char) {
    IsSeparator(c) || IsSpace(c)
  }

  predicate AllPadding(s: string) {
    forall i :: 0 <= i < |s| ==> IsPadding(s[i])
  }

  /** A character that cleaning keeps and that no literal of the restricted
      grammar contains: a candidate for an unrecognised currency symbol.
      Non-ASCII decimal digits such as U+0663 or U+FF11 are included here,
      although Python's `float()` reads them as digits. */
  predicate IsForeign(c: char) {
    !IsPadding(c) && !IsNumeral(c)
  }

  // ---------------------------------------------------------------------
  // Cleaning
  // ---------------------------------------------------------------------

  /** Separators are deleted piecewise: cleaning a concatenation cleans each
      part, so the kept characters stay in their original order. */
  lemma {:induction false} RemoveSeparatorsAppend(a: string, b: string)
    ensures RemoveSeparators(a + b) == RemoveSeparators(a) + RemoveSeparators(b)
    decreases |a|
  {
    if a == [] {
      assert a + b == b;
    } else {
      var head := if IsSeparator(a[0]) then [] else [a[0]];
      assert (a + b)[0] == a[0];
      assert (a + b)[1..] == a[1..] + b;
      calc {
        RemoveSeparators(a + b);
        head + RemoveSeparators(a[1..] + b);
        { RemoveSeparatorsAppend(a[1..], b); }
        head + (RemoveSeparators(a[1..]) + RemoveSeparators(b));
        (head + RemoveSeparators(a[1..])) + RemoveSeparators(b);
        RemoveSeparators(a) + RemoveSeparators(b);
      }
    }
  }

  /** A string without separators passes through unchanged. */
  lemma {:induction false} RemoveSeparatorsKeeps(s: string)
    requires NoSeparators(s)
    ensures RemoveSeparators(s) == s
    decreases |s|
  {
    if s != [] {
      RemoveSeparatorsKeeps(s[1..]);
      assert s == [s[0]] + s[1..];
    }
  }

  /** Padding that `float()` would skip too once the separators are gone. */
  predicate IsFloatPadding(c: char) {
    IsSeparator(c) || IsFloatSpace(c)
  }

  predicate AllFloatPadding(s: string) {
    forall i :: 0 <= i < |s| ==> IsFloatPadding(s[i])
  }

  /** Deleting separators from padding leaves only whitespace. */
  lemma {:induction false} RemovePadding(p: string)
    requires AllPadding(p)
    ensures AllSpace(RemoveSeparators(p))
    decreases |p|
  {
    if p != [] {
      RemovePadding(p[1..]);
      if !IsSeparator(p[0]) {
        AllSpaceAppend([p[0]], RemoveSeparators(p[1..]));
      }
    }
  }

  /** Deleting separators from such padding leaves only whitespace that
      `float()` skips. */
  lemma {:induction false} RemoveFloatPadding(p: string)
    requires AllFloatPadding(p)
    ensures AllFloatSpace(RemoveSeparators(p))
    decreases |p|
  {
    if p != [] {
      RemoveFloatPadding(p[1..]);
      if !IsSeparator(p[0]) {
        var t := RemoveSeparators(p[1..]);
        assert forall i :: 1 <= i < |t| + 1 ==> ([p[0]] + t)[i] == t[i - 1];
      }
    }
  }

  /** Numerals are never separators. */
  lemma DecimalHasNoSeparators(a: string)
    requires IsDecimal(a)
    ensures NoSeparators(a)
  {
    DecimalNumerals(a);
  }

  /** Cleaning twice is cleaning once. */
  lemma CleanIdempotent(s: string)
    ensures Clean(Clean(s)) == Clean(s)
  {
    RemoveSeparatorsKeeps(Clean(s));
    StripStripped(Clean(s));
  }

  /** Padding on either side of a price is cleaned away. */
  lemma CleanPadding(p: string, s: string, q: string)
    requires AllPadding(p) && AllPadding(q)
    ensures Clean(p + s + q) == Clean(s)
  {
    RemoveSeparatorsAppend(p, s);
    RemoveSeparatorsAppend(p + s, q);
    RemovePadding(p);
    RemovePadding(q);
    StripPadding(RemoveSeparators(p), RemoveSeparators(s), RemoveSeparators(q));
  }

  // ---------------------------------------------------------------------
  // Outcomes
  // ---------------------------------------------------------------------

  /** Every non-empty price has exactly one outcome, and which one is fixed
      by the two readings: a number when the cleaned price reads, an unknown
      currency when only its tail reads, a plain format error when neither
      does. */
  lemma OutcomeCases(price: string)
    requires price != []
    ensures ConvertPrice(price).Converted? <==> IsDecimal(Clean(price))
    ensures ConvertPrice(price).UnknownCurrencyError?
            <==> !IsDecimal(Clean(price)) && FloatAccepts(Tail(Clean(price)))
    ensures ConvertPrice(price) == BadPriceFormat(BadPrice, price)
            <==> !IsDecimal(Clean(price)) && !FloatAccepts(Tail(Clean(price)))
  {
    StrippedIsFloatStripped(Clean(price));
  }

  /** The second reading decides between the two errors. */
  lemma SecondReading(price: string)
    requires price != [] && !IsDecimal(Clean(price))
    ensures FloatAccepts(Tail(Clean(price))) ==> ConvertPrice(price) == UnknownCurrencyError(price)
    ensures !FloatAccepts(Tail(Clean(price))) ==> ConvertPrice(price) == BadPriceFormat(BadPrice, price)
  {
    StrippedIsFloatStripped(Clean(price));
  }

  /** A price whose separators, once deleted, leave a number literal
      converts to that literal's value. */
  lemma SeparatedAmountConverts(g: string)
    requires IsDecimal(RemoveSeparators(g))
    ensures ConvertPrice(g) == Converted(DecimalValue(RemoveSeparators(g)))
  {
    var kept := RemoveSeparators(g);
    DecimalNumerals(kept);
    assert g != [];
    StrippedDecimal(kept);
    StripStripped(kept);
    StrippedIsFloatStripped(kept);
  }

  /** A bare number literal converts to its value. */
  lemma DecimalConverts(a: string)
    requires IsDecimal(a)
    ensures ConvertPrice(a) == Converted(DecimalValue(a))
  {
    DecimalHasNoSeparators(a);
    RemoveSeparatorsKeeps(a);
    SeparatedAmountConverts(a);
  }

  /** Known currency symbols, separators and whitespace around a non-empty
      price do not change the outcome; only the price an error carries
      differs. */
  lemma PaddingInvariance(p: string, a: string, q: string)
    requires AllPadding(p) && AllPadding(q) && a != []
    ensures ConvertPrice(a).Converted? ==> ConvertPrice(p + a + q) == ConvertPrice(a)
    ensures ConvertPrice(a).UnknownCurrencyError? ==>
              ConvertPrice(p + a + q) == UnknownCurrencyError(p + a + q)
    ensures ConvertPrice(a).BadPriceFormat? ==>
              ConvertPrice(p + a + q) == BadPriceFormat(BadPrice, p + a + q)
  {
    CleanPadding(p, a, q);
    assert p + a + q != [];
  }

  /** An amount written with a known currency symbol, with or without
      surrounding spaces, converts to the amount's value. */
  lemma KnownCurrencyAmount(p: string, a: string, q: string)
    requires AllPadding(p) && AllPadding(q) && IsDecimal(a)
    ensures ConvertPrice(p + a + q) == Converted(DecimalValue(a))
  {
    DecimalConverts(a);
    DecimalNumerals(a);
    PaddingInvariance(p, a, q);
  }

  /** An empty price is rejected before any cleaning, as a format error
      that is not an unknown currency. */
  lemma EmptyPriceRejected()
    ensures ConvertPrice([]) == BadPriceFormat(EmptyPrice, [])
    ensures !ConvertPrice([]).UnknownCurrencyError?
  {
  }

  /** A non-empty price made only of padding cleans to nothing, and nothing
      reads as a number: a plain format error. */
  lemma PaddingOnlyRejected(s: string)
    requires s != [] && AllPadding(s)
    ensures ConvertPrice(s) == BadPriceFormat(BadPrice, s)
  {
    RemovePadding(s);
    var kept := RemoveSeparators(s);
    StripUnique(kept, [], []);
    assert kept + [] + [] == kept;
    assert Clean(s) == [];
    assert Mantissa([]) == [];
  }

  lemma RemoveSeparatorsAround(c: char, p: string, a: string, q: string)
    requires !IsSeparator(c) && NoSeparators(a)
    ensures RemoveSeparators([c] + p + a + q)
            == [c] + RemoveSeparators(p) + a + RemoveSeparators(q)
  {
    RemoveSeparatorsKeeps(a);
    assert RemoveSeparators([c]) == [c];
    RemoveSeparatorsAppend([c], p);
    RemoveSeparatorsAppend([c] + p, a);
    RemoveSeparatorsAppend([c] + p + a, q);
  }

  /** Cleaning a price with a leading unrecognised symbol keeps the symbol,
      any whitespace between it and the amount, and the amount. */
  lemma CleanUnknownSymbol(c: char, p: string, a: string, q: string)
    requires IsForeign(c) && AllPadding(p) && AllPadding(q) && IsDecimal(a)
    ensures Clean([c] + p + a + q) == [c] + RemoveSeparators(p) + a
  {
    var P, Q := RemoveSeparators(p), RemoveSeparators(q);
    var core := [c] + P + a;
    DecimalHasNoSeparators(a);
    RemoveSeparatorsAround(c, p, a, q);
    assert IsStripped(core) by {
      StrippedDecimal(a);
      assert core[|core| - 1] == a[|a| - 1];
    }
    RemovePadding(q);
    StripTrailing(core, Q);
  }

  /** A cleaned price made of an unrecognised symbol, whitespace that
      `float()` skips and an amount does not read as a number, but does once
      the symbol is gone. */
  lemma ForeignHeadReading(c: char, w: string, a: string)
    requires IsForeign(c) && AllFloatSpace(w) && IsDecimal(a)
    ensures !IsDecimal([c] + w + a)
    ensures FloatAccepts(Tail([c] + w + a))
  {
    var core := [c] + w + a;
    if IsDecimal(core) {
      DecimalNumerals(core);
      assert false;
    }
    assert Tail(core) == w + a by {
      assert core == [c] + (w + a);
    }
    StrippedDecimal(a);
    StrippedIsFloatStripped(a);
    FloatStripLeading(w, a);
  }

  /** One unrecognised symbol in front of an amount is reported as an
      unknown currency carrying the price as given, however the amount is
      padded, as long as the padding between symbol and amount is padding
      `float()` also skips. */
  lemma UnknownCurrencySymbol(c: char, p: string, a: string, q: string)
    requires IsForeign(c) && AllFloatPadding(p) && AllPadding(q) && IsDecimal(a)
    ensures ConvertPrice([c] + p + a + q) == UnknownCurrencyError([c] + p + a + q)
  {
    var w := RemoveSeparators(p);
    assert Clean([c] + p + a + q) == [c] + w + a by {
      assert AllPadding(p);
      CleanUnknownSymbol(c, p, a, q);
    }
    assert !IsDecimal([c] + w + a) && FloatAccepts(Tail([c] + w + a)) by {
      RemoveFloatPadding(p);
      ForeignHeadReading(c, w, a);
    }
    SecondReading([c] + p + a + q);
  }

  /** Cleaning leaves a character, an information separator and an amount
      alone: none of them is a separator, and `str.strip()` only looks at
      the ends. */
  lemma InfoSeparatorCleans(c: char, x: char, a: string)
    requires !IsPadding(c) && IsInfoSeparator(x) && IsDecimal(a)
    ensures Clean([c, x] + a) == [c, x] + a
  {
    var price := [c, x] + a;
    assert NoSeparators(price) by {
      DecimalHasNoSeparators(a);
      assert forall i :: 2 <= i < |price| ==> price[i] == a[i - 2];
    }
    RemoveSeparatorsKeeps(price);
    assert IsStripped(price) by {
      StrippedDecimal(a);
      assert price[|price| - 1] == a[|a| - 1];
    }
    StripStripped(price);
  }

  /** `float()` does not skip an information separator in front of an
      amount, so it does not read the two together. */
  lemma InfoSeparatorStopsFloat(x: char, a: string)
    requires IsInfoSeparator(x) && IsDecimal(a)
    ensures !FloatAccepts([x] + a)
  {
    var s := [x] + a;
    assert FloatStripped(s) by {
      StrippedDecimal(a);
      assert s[|s| - 1] == a[|a| - 1];
    }
    FloatStripKeeps(s);
    assert s[0] == x;
    if IsDecimal(s) {
      DecimalNumerals(s);
      assert false;
    }
  }

  /** An information separator right after the first character of a price
      (an unrecognised symbol, or even a digit) survives cleaning and then
      stops the second reading, so the price is a plain format error and not
      an unknown currency. */
  lemma InfoSeparatorAfterFirst(c: char, x: char, a: string)
    requires !IsPadding(c) && IsInfoSeparator(x) && IsDecimal(a)
    ensures ConvertPrice([c, x] + a) == BadPriceFormat(BadPrice, [c, x] + a)
  {
    var price := [c, x] + a;
    InfoSeparatorCleans(c, x, a);
    assert price[1] == x;
    if IsDecimal(price) {
      DecimalNumerals(price);
      assert false;
    }
    assert Tail(price) == [x] + a by {
      assert price == [c] + ([x] + a);
    }
    InfoSeparatorStopsFloat(x, a);
    SecondReading(price);
  }

  /** When the cleaned price starts with two unrecognised characters, dropping
      one is not enough: the outcome is a plain format error, never an
      unknown currency. This holds for the restricted literal grammar only;
      Python's `float()` also reads words such as "nan" and "inf". */
  lemma TwoForeignCharactersRejected(price: string)
    requires |Clean(price)| >= 2 && IsForeign(Clean(price)[0]) && IsForeign(Clean(price)[1])
    ensures ConvertPrice(price) == BadPriceFormat(BadPrice, price)
  {
    var stripped := Clean(price);
    var rest := Tail(stripped);
    assert price != [] by {
      assert RemoveSeparators([]) == [];
      StripUnique([], [], []);
    }
    if IsDecimal(stripped) {
      DecimalNumerals(stripped);
      assert false;
    }
    assert IsStripped(rest) by {
      assert rest[0] == stripped[1];
      assert rest[|rest| - 1] == stripped[|stripped| - 1];
    }
    StrippedIsFloatStripped(rest);
    if IsDecimal(rest) {
      DecimalNumerals(rest);
      assert false;
    }
  }

  /** A price whose first two characters are unrecognised, such as "USD 12"
      or "not a number", is a plain format error: the second reading drops
      only one of them. Like the lemma it rests on, this holds for the
      restricted literal grammar only ("Lnan" reads as an unknown currency
      in Python). */
  lemma ForeignPrefixRejected(c: char, d: char, s: string)
    requires IsForeign(c) && IsForeign(d)
    ensures ConvertPrice([c, d] + s) == BadPriceFormat(BadPrice, [c, d] + s)
  {
    var head := [c, d];
    RemoveSeparatorsKeeps(head);
    RemoveSeparatorsAppend(head, s);
    StripKeepsHead(head, RemoveSeparators(s));
    assert Clean([c, d] + s)[..2] == head;
    TwoForeignCharactersRejected([c, d] + s);
  }

  /** The second reading drops the first character whatever it is: when a
      price that cleaning leaves alone does not read as a number but does
      once its first character is gone, the first character is taken for a
      currency symbol, even when it is a digit. */
  lemma FirstCharacterDropped(c: char, a: string)
    requires !IsPadding(c) && IsDecimal(a) && !IsDecimal([c] + a)
    ensures ConvertPrice([c] + a) == UnknownCurrencyError([c] + a)
  {
    var price := [c] + a;
    DecimalHasNoSeparators(a);
    RemoveSeparatorsAround(c, [], a, []);
    assert RemoveSeparators([]) == [];
    assert [c] + [] + a + [] == price;
    assert IsStripped(price) by {
      StrippedDecimal(a);
      assert price[|price| - 1] == a[|a| - 1];
    }
    StripStripped(price);
    assert Tail(price) == a;
    StrippedDecimal(a);
    StrippedIsFloatStripped(a);
    SecondReading(price);
  }
}
