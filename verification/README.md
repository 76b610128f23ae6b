# Price conversion in beamer, modelled in Dafny

beamer reports average sale prices from a property listing. Its one piece
of real logic is `convert_price_to_float` in `beamer/prices.py`. It turns a
price string such as `"€ 23,456.78"` into a number, in three steps:

1. **Reject.** An empty (or missing) price is rejected at once.
2. **Clean.** Every comma, space and known currency symbol (`$`, `£`, `€`)
   is deleted wherever it stands, then whitespace is stripped from both ends.
3. **Read.** The cleaned string is read with `float()`. If that fails and the
   cleaned string minus its first character reads, the first character is
   taken for an unrecognised currency symbol and `UnknownCurrencyError` is
   raised. If both readings fail, the plain `BadPriceFormat` is raised.
   `UnknownCurrencyError` is a subclass of `BadPriceFormat`.

The project models that function and the Python behaviour it relies on. The
conversion outcome is a datatype, and the conversion itself is a pure
function. The properties the module's docstrings and tests promise are proved
over all inputs.

| file | module | contents |
|---|---|---|
| `pytext.dfy` | `PyText` | the whitespace class of `str.isspace()` (all of it, not an approximation) and `str.strip()`, with its uniqueness, idempotence and padding laws |
| `pyfloat.dfy` | `PyFloat` | the whitespace `float()` skips around its argument (the `str.isspace()` class without the information separators U+001C..U+001F, which `float()` does not skip), a restricted `float()` grammar (optional sign, digits, optional point and fraction digits), its exact value as a `real`, and `ParseFloat`, a scanning reader proved to agree with the grammar on every input |
| `prices.dfy` | `Prices` | separator removal, `Clean`, Python's `s[1:]`, the `Conversion` outcome datatype, the function `ConvertPrice`, and the method `ConvertPriceToFloat`, which is written the way the source runs: two `float()` attempts |
| `price_properties.dfy` | `PriceProperties` | the all-input properties of cleaning and of the three outcomes |
| `price_format.dfy` | `PriceFormat` | the data format the module documents ("€ 23,456.78": symbol, space, thousands grouped by commas, two decimal places), with the round trip format-then-convert |
| `price_examples.dfy` | `PriceExamples` | every concrete conversion named in the module's doctests and in `tests/test_prices.py`, derived from the general lemmas |

Outcomes are `Converted(value)`, `UnknownCurrencyError(price)` and
`BadPriceFormat(fault, price)`. The `fault` is `EmptyPrice` or `BadPrice`,
matching the two messages the source raises. Both error variants carry the
price as given. `IsBadPriceFormat()` holds for both error variants, which is
how the model records that the unknown-currency error is a subclass.

## Model

| member | source | states |
|---|---|---|
| Prices.RemoveSeparators | beamer/prices.py:43-44 | no comma, space, `$`, `£` or `€` is left in the result |
| Prices.RemoveSeparatorsCounts | beamer/prices.py:44 | every character other than those five is kept exactly as often as it occurs in the price |
| PriceProperties.RemoveSeparatorsAppend | beamer/prices.py:44 | deletion works piecewise over a concatenation, so kept characters stay in their original order |
| PriceProperties.RemoveSeparatorsKeeps | beamer/prices.py:44 | a string without separators passes through unchanged |
| Prices.Clean | beamer/prices.py:43-44 | the cleaned price has no separators and no whitespace at either end |
| Prices.CleanKeepsCharacters | beamer/prices.py:44 | cleaning invents nothing: no character occurs more often in the cleaned price than in the price |
| PriceProperties.CleanIdempotent | beamer/prices.py:44 | cleaning twice equals cleaning once |
| PriceProperties.CleanPadding | beamer/prices.py:44 | separators, known symbols and whitespace on either side of a price are cleaned away |
| PyText.Strip | beamer/prices.py:44 | `strip()` leaves no whitespace at either end |
| PyText.StripInfix | beamer/prices.py:44 | `strip()` is no longer than its input and returns only characters of its input |
| PyText.StripUnique | beamer/prices.py:44 | whatever whitespace surrounds a core with none at its ends, `strip()` returns exactly that core |
| PyText.StripPadding | beamer/prices.py:44 | extra whitespace on either side does not change what `strip()` returns |
| PyText.StripIdempotent | beamer/prices.py:44 | stripping twice equals stripping once |
| PyText.StripSubset | beamer/prices.py:44 | `strip()` only removes characters (multiset inclusion) |
| PyFloat.FloatStripKeeps | beamer/prices.py:46 | `float()` skips nothing around a string whose end characters are not whitespace it skips |
| PyFloat.StrippedIsFloatStripped | beamer/prices.py:44-46 | what `strip()` returns has nothing left for `float()` to skip |
| PyFloat.FloatStripLeading | beamer/prices.py:46 | `float()` skips leading whitespace of its own class and nothing more |
| PyFloat.FloatStripAgrees | beamer/prices.py:44-46 | on a string without information separators, `float()` skips exactly what `strip()` removes |
| PyFloat.ParseFloat | beamer/prices.py:46 | the reader succeeds exactly when the text, with the whitespace `float()` skips removed from both ends, is a literal of the grammar, and then returns that literal's exact value |
| PyFloat.ScanDigits | beamer/prices.py:46 | reads the longest run of digits from a position and returns its value |
| PyFloat.ScanFraction | beamer/prices.py:46 | reads the longest run of digits from a position and returns its value as digits after a point |
| PyFloat.ComposeDecimal | beamer/prices.py:46 | digits, a point and digits form a literal whose value is the integer part plus the fraction |
| PyFloat.ComposeInteger | beamer/prices.py:46 | digits alone form a literal whose value is their integer value |
| PyFloat.DecimalNumerals | beamer/prices.py:46 | a literal is non-empty and made only of digits, signs and points, so it has no whitespace and no currency symbol |
| Prices.Tail | beamer/prices.py:50 | Python's `s[1:]`: one character shorter and shifted by one, empty for the empty string |
| Prices.FailuresAreBadPriceFormat | beamer/prices.py:16-25 | the unknown-currency error is a subclass: an outcome is caught as a bad price format exactly when it is not a number |
| Prices.ConvertPrice | beamer/prices.py:16-55 | an empty price is an `EmptyPrice` format error; every failure carries the price as given; a conversion is the value of the cleaned price; an unknown-currency error means the cleaned price did not read but its tail did |
| Prices.ConvertPriceToFloat | beamer/prices.py:41-55 | the try/except structure, with two `float()` attempts, computes the same outcome as `ConvertPrice` for every price |
| PriceProperties.OutcomeCases | beamer/prices.py:45-55 | for a non-empty price: converted iff the cleaned price reads; unknown currency iff only its tail reads; plain format error iff neither reads |
| PriceProperties.SecondReading | beamer/prices.py:47-55 | when the cleaned price does not read, its tail alone decides between the unknown-currency error and the plain format error |
| PriceProperties.EmptyPriceRejected | beamer/prices.py:41-42 | the empty price is an `EmptyPrice` format error and not an unknown currency |
| PriceProperties.SeparatedAmountConverts | beamer/prices.py:43-46 | a price whose separators, once deleted, leave a literal converts to that literal's value, wherever the separators stood |
| PriceProperties.DecimalConverts | beamer/prices.py:45-46 | a bare literal converts to its value |
| PriceProperties.PaddingInvariance | beamer/prices.py:43-55 | known symbols, separators and whitespace around a non-empty price leave the outcome unchanged, except that an error carries the padded price |
| PriceProperties.KnownCurrencyAmount | beamer/prices.py:43-46 | a literal with `$`, `£` or `€` and spaces on either side converts to the literal's value |
| PriceProperties.PaddingOnlyRejected | beamer/prices.py:44-55 | a non-empty price made only of separators, known symbols and whitespace is a plain format error |
| PriceProperties.CleanUnknownSymbol | beamer/prices.py:44 | cleaning keeps a leading unrecognised symbol, the whitespace after it and the amount |
| PriceProperties.RemoveFloatPadding | beamer/prices.py:44 | deleting separators from padding made of separators and whitespace that `float()` skips leaves only such whitespace |
| PriceProperties.ForeignHeadReading | beamer/prices.py:46-51 | an unrecognised symbol in front of whitespace that `float()` skips and an amount stops the first reading, and the second reading succeeds |
| PriceProperties.UnknownCurrencySymbol | beamer/prices.py:47-52 | one unrecognised symbol before an amount is an unknown-currency error carrying the price as given, whatever padding follows the amount and whatever padding `float()` also skips sits between symbol and amount |
| PriceProperties.InfoSeparatorCleans | beamer/prices.py:43-44 | cleaning keeps an information separator that follows the first character, since `strip()` only looks at the ends |
| PriceProperties.InfoSeparatorStopsFloat | beamer/prices.py:46-51 | `float()` does not read an information separator followed by an amount |
| PriceProperties.InfoSeparatorAfterFirst | beamer/prices.py:43-55 | an information separator right after the first character makes the price a plain format error, even when that character is an unrecognised symbol and the rest is an amount |
| PriceProperties.TwoForeignCharactersRejected | beamer/prices.py:47-55 | when the cleaned price starts with two unrecognised characters, the outcome is a plain format error, never an unknown currency |
| PriceProperties.ForeignPrefixRejected | beamer/prices.py:47-55 | a price whose first two characters are unrecognised (a currency code such as "USD", or words) is a plain format error |
| PriceProperties.FirstCharacterDropped | beamer/prices.py:47-52 | the second reading drops the first character whatever it is, so a price that reads only without its first character is an unknown currency even when that character is a digit |
| PriceFormat.NatDigitsValue | beamer/prices.py:3-4 | the decimal digits written for a number read back as the number |
| PriceFormat.TwoDigitsValue | beamer/prices.py:3-4 | two decimal places read back as the number of hundredths |
| PriceFormat.GroupThousandsUngroups | beamer/prices.py:3-4 | deleting the commas of a thousands-grouped number gives back its digits |
| PriceFormat.FormatAmountUngroups | beamer/prices.py:43-44 | deleting the separators of a written amount leaves a plain literal |
| PriceFormat.AmountLiteral | beamer/prices.py:46 | that literal denotes exactly the amount |
| PriceFormat.WrittenAmount | beamer/prices.py:43-46 | a price whose non-separator characters spell an amount with two decimal places converts to exactly that amount |
| PriceFormat.WholeWrittenAmount | beamer/prices.py:43-46 | a price whose non-separator characters spell a whole number converts to exactly that number |
| PriceFormat.AmountRoundTrip | beamer/prices.py:3-10 | a written amount ("23,456.78") converts back to exactly the amount |
| PriceFormat.PriceRoundTrip | beamer/prices.py:3-10 | a written price ("€ 23,456.78") converts back to exactly the amount, whichever known symbol it carries |
| PriceExamples.GroupedEuroAmount | beamer/prices.py:10 | "€ 23,456.78" converts to 23456.78 |
| PriceExamples.PlainAmount | beamer/prices.py:37 | "123.45" converts to 123.45 |
| PriceExamples.PaddedDollarAmount | beamer/prices.py:38 | "$ 123.45 " converts to 123.45 |
| PriceExamples.UnspacedEuroAmount | beamer/prices.py:39 | "€9,123.45" converts to 9123.45 |
| PriceExamples.MissingPrice | tests/test_prices.py:16-24 | the empty (or missing) price is a bad-price-format error |
| PriceExamples.ZeroPrices | tests/test_prices.py:26-29 | "0" and "0.00" convert to zero |
| PriceExamples.KnownCurrencies | tests/test_prices.py:31-36 | "$ 123", "£ 123 " and "€ 123" convert to 123 |
| PriceExamples.YenPrice | tests/test_prices.py:44-45 | "¥ 123" is an unknown-currency error |
| PriceExamples.HryvniaPrice | tests/test_prices.py:46-47 | "₴ 123 " is an unknown-currency error |
| PriceExamples.LetterPrice | tests/test_prices.py:48-49 | "L 123 " is an unknown-currency error |
| PriceExamples.YenInfoSeparatorPrice | beamer/prices.py:43-55 | "¥" followed by a file separator (U+001C) and "123" is a plain format error, not an unknown currency |
| PriceExamples.DigitsAroundInfoSeparator | beamer/prices.py:43-55 | "5", a unit separator (U+001F) and "6" is a plain format error |
| PriceExamples.NotANumber | beamer/prices.py:47-55 | "not a number" is a plain format error |
| PriceExamples.CurrencyCode | beamer/prices.py:47-55 | "USD 123" is a plain format error, not an unknown currency |
| PriceExamples.PriceRange | beamer/prices.py:47-52 | the range "1-5" is reported as an unknown currency, because "-5" reads |
| PriceExamples.DoubledPoint | beamer/prices.py:45-55 | "1..5" is a plain format error |

## Left out

- `float()` is modelled only on the restricted literal grammar. Exponents, `inf`/`nan`, underscores between digits and non-ASCII digits are accepted by Python but rejected by the model. This changes outcomes in two ways. A cleaned price using them converts in Python but is a format error in the model. And when only the tail uses them, as in "L 1e5", "Lnan" or "Xinf", Python raises `UnknownCurrencyError` (the tail reads) while the model gives the plain `BadPriceFormat(BadPrice, …)`.
- PriceProperties.TwoForeignCharactersRejected and PriceProperties.ForeignPrefixRejected hold only under the restricted grammar. In Python a tail that starts with a letter can still read (`"nan"`, `"inf"`), so ('L', 'n', "an"), which spells "Lnan", is an unknown currency there.
- PriceProperties.ForeignHeadReading, PriceProperties.UnknownCurrencySymbol and PriceProperties.FirstCharacterDropped hold only under the restricted grammar. Their leading character may be a non-ASCII decimal digit, which `float()` reads as a digit. So "٣ 123" (U+0663, a space, "123") cleans to "٣123", which Python converts to 3123.0, while these lemmas give an unknown currency.
- Binary floating-point rounding is not modelled. Values are exact `real`s. `Converted(23456.78)` stands for the float the literal rounds to, which is `inf` beyond the float range (a "1" followed by 400 zeros converts to `inf` in Python and to the exact 10^400 in the model).
- `None` is modelled as the empty string, which the source treats the same way (`if not price`). Other non-string arguments are not modelled.
- The text of the error messages (`f"Empty price: {price!r}"`, `f"Bad price: {price!r}"`) is not modelled. The fault kind and the price are recorded instead. Exception chaining (`from None`) has no counterpart.
- `re.sub` is modelled by what its character class does: it deletes every comma, space, `$`, `£` and `€`. The regular-expression engine itself is not modelled.
- `beamer/files.py` (file reading, encodings, CSV/JSON decoding) and `beamer/__main__.py` (argument parsing, printing, exit codes) are I/O and command-line wiring, and are not part of this model.
- `read_trees`, `parse_trees`, `read_properties`, `average_price` and `first_currency` are called from `beamer/__main__.py:40-45` but defined in no file available here, so they are not modelled.
- `BadPriceFormat` derives from `Exception`, not `ValueError` (`beamer/prices.py:16`). The command line therefore treats a price error as an unexpected error rather than a data error (`beamer/__main__.py:60-68`). That consequence lies in the command-line code and is not modelled.
- `PriceFormat.FormatPrice` and `PriceFormat.FormatAmount` render only non-negative amounts. They describe the data format of `beamer/prices.py:3-4`, which is also how the command line prints averages (`{short_average:,.2f}`, `beamer/__main__.py:58-59`). They serve only the round-trip lemmas.
- Prices.ConvertPrice: its ensures state each outcome's condition in one direction only; the converse directions are stated and proved in `PriceProperties.OutcomeCases`.
