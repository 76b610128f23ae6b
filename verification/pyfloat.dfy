/**
 * The part of Python's `float(str)` that price strings exercise.
 *
 * `float()` first skips whitespace at both ends of its argument and then
 * reads a decimal literal. The whitespace it skips is not quite the class
 * `str.strip()` removes: the ASCII information separators U+001C..U+001F
 * count as whitespace for `str.strip()` but not for `float()`.
 *
 * This module fixes a restricted literal grammar,
 *
 *     literal  ::= sign? mantissa
 *     sign     ::= '+' | '-'
 *     mantissa ::= digit+ ( '.' digit* )?  |  '.' digit+
 *
 * and gives the value of a literal as an exact `real`. Exponents, `inf` /
 * `nan`, underscores between digits and non-ASCII digits, which `float()`
 * also accepts, are outside this grammar, and binary rounding is not modelled.
 */
module PyFloat {
  import opened PyText

  datatype Option<+T> = None | Some(value: T)

  predicate IsDigit(c: char) {
    '0' <= c <= '9'
  }

  predicate AllDigits(s: string) {
    forall i :: 0 <= i < |s| ==> IsDigit(s[i])
  }

  /** Every character a literal of the grammar can contain. */
  predicate IsNumeral(c: char) {
    IsDigit(c) || c == '.' || c == '+' || c == '-'
  }

  function DigitValue(c: char): (d: nat)
    requires IsDigit(c)
    ensures d < 10
  {
    c as int - '0' as int
  }

  /** The value of a string of decimal digits, most significant first. */
  function DigitsValue(s: string): nat
    requires AllDigits(s)
  {
    if s == [] then 0 else DigitsValue(s[..|s| - 1]) * 10 + DigitValue(s[|s| - 1])
  }

  /** The value of the digits after a decimal point, most significant first:
      0.d1d2...dn, written as (d1 + 0.d2...dn) / 10. */
  function FractionValue(f: string): real
    requires AllDigits(f)
  {
    if f == [] then 0.0 else (DigitValue(f[0]) as real + FractionValue(f[1..])) / 10.0
  }

  /** The length of the optional leading sign. */
  function SignLength(s: string): (n: nat)
    ensures n <= |s|
    ensures n == 1 <==> |s| > 0 && (s[0] == '+' || s[0] == '-')
  {
    if |s| > 0 && (s[0] == '+' || s[0] == '-') then 1 else 0
  }

  /** The index of the first '.', or the length when there is none. */
  function DotIndex(u: string): (i: nat)
    ensures i <= |u|
  {
    if u == [] then 0 else if u[0] == '.' then 0 else 1 + DotIndex(u[1..])
  }

  /** `DotIndex` finds the first point. */
  lemma {:induction false} DotIndexFirst(u: string)
    ensures DotIndex(u) < |u| ==> u[DotIndex(u)] == '.'
    ensures forall k :: 0 <= k < DotIndex(u) ==> u[k] != '.'
    decreases |u|
  {
    if u != [] && u[0] != '.' {
      DotIndexFirst(u[1..]);
    }
  }

  /** The literal without its sign. */
  function Mantissa(s: string): string {
    s[SignLength(s)..]
  }

  /** The digits before the point (all of the mantissa when there is none). */
  function IntegerPart(s: string): string {
    var u := Mantissa(s);
    u[..DotIndex(u)]
  }

  /** The digits after the point (empty when there is none). */
  function FractionPart(s: string): string {
    var u := Mantissa(s);
    var d := DotIndex(u);
    if d < |u| then u[d + 1..] else []
  }

  /** `s` is a literal of the grammar: digits on both sides of at most one
      point, and at least one digit in all. */
  predicate IsDecimal(s: string) {
    && AllDigits(IntegerPart(s))
    && AllDigits(FractionPart(s))
    && |IntegerPart(s)| + |FractionPart(s)| > 0
  }

  /** The exact value a literal denotes. */
  function DecimalValue(s: string): real
    requires IsDecimal(s)
  {
    var magnitude := DigitsValue(IntegerPart(s)) as real + FractionValue(FractionPart(s));
    if SignLength(s) == 1 && s[0] == '-' then -magnitude else magnitude
  }

  /** The ASCII information separators FS, GS, RS and US. `str.isspace()`
      holds for them, but `float()` does not skip them. */
  predicate IsInfoSeparator(c: char) {
    '\U{001C}' <= c <= '\U{001F}'
  }

  /** The whitespace `float()` skips around a literal. CPython first turns
      every non-ASCII whitespace character into a space and then skips only
      the ASCII space and TAB..CR, so this is the `str.isspace()` class
      without the information separators. */
  predicate IsFloatSpace(c: char) {
    IsSpace(c) && !IsInfoSeparator(c)
  }

  predicate AllFloatSpace(s: string) {
    forall i :: 0 <= i < |s| ==> IsFloatSpace(s[i])
  }

  /** `s` without the leading whitespace `float()` skips. */
  function FloatTrimStart(s: string): (r: string)
    ensures r == [] || !IsFloatSpace(r[0])
  {
    if s != [] && IsFloatSpace(s[0]) then FloatTrimStart(s[1..]) else s
  }

  /** `s` without the trailing whitespace `float()` skips. */
  function FloatTrimEnd(s: string): (r: string)
    ensures r == [] || !IsFloatSpace(r[|r| - 1])
  {
    if s != [] && IsFloatSpace(s[|s| - 1]) then FloatTrimEnd(s[..|s| - 1]) else s
  }

  /** What `float()` reads once it has skipped surrounding whitespace. */
  function FloatStrip(s: string): string {
    FloatTrimEnd(FloatTrimStart(s))
  }

  /** A string with nothing for `float()` to skip at either end. */
  predicate FloatStripped(s: string) {
    s == [] || (!IsFloatSpace(s[0]) && !IsFloatSpace(s[|s| - 1]))
  }

  /** `float()` skips nothing around a string that has nothing to skip. */
  lemma FloatStripKeeps(s: string)
    requires FloatStripped(s)
    ensures FloatStrip(s) == s
  {
  }

  /** What `str.strip()` leaves has nothing for `float()` to skip either. */
  lemma StrippedIsFloatStripped(s: string)
    requires IsStripped(s)
    ensures FloatStripped(s) && FloatStrip(s) == s
  {
  }

  lemma {:induction false} FloatTrimStartSkips(p: string, x: string)
    requires AllFloatSpace(p)
    ensures FloatTrimStart(p + x) == FloatTrimStart(x)
    decreases |p|
  {
    if p == [] {
      assert p + x == x;
    } else {
      assert (p + x)[0] == p[0];
      assert (p + x)[1..] == p[1..] + x;
      FloatTrimStartSkips(p[1..], x);
    }
  }

  /** Leading whitespace that `float()` skips before a string with nothing
      to skip is all it skips. */
  lemma FloatStripLeading(p: string, y: string)
    requires AllFloatSpace(p) && FloatStripped(y)
    ensures FloatStrip(p + y) == y
  {
    FloatTrimStartSkips(p, y);
  }

  lemma {:induction false} FloatTrimStartAgrees(s: string)
    requires forall i :: 0 <= i < |s| ==> !IsInfoSeparator(s[i])
    ensures FloatTrimStart(s) == TrimStart(s)
    decreases |s|
  {
    if s != [] {
      FloatTrimStartAgrees(s[1..]);
    }
  }

  lemma {:induction false} FloatTrimEndAgrees(s: string)
    requires forall i :: 0 <= i < |s| ==> !IsInfoSeparator(s[i])
    ensures FloatTrimEnd(s) == TrimEnd(s)
    decreases |s|
  {
    if s != [] {
      FloatTrimEndAgrees(s[..|s| - 1]);
    }
  }

  /** On a string without information separators, `float()` skips exactly
      what `str.strip()` removes. */
  lemma FloatStripAgrees(s: string)
    requires forall i :: 0 <= i < |s| ==> !IsInfoSeparator(s[i])
    ensures FloatStrip(s) == Strip(s)
  {
    FloatTrimStartAgrees(s);
    TrimStartSuffix(s);
    var t := TrimStart(s);
    assert forall i :: 0 <= i < |t| ==> t[i] == s[|s| - |t| + i];
    FloatTrimEndAgrees(t);
  }

  /** `float(s)` succeeds. */
  predicate FloatAccepts(s: string) {
    IsDecimal(FloatStrip(s))
  }

  /** The number `float(s)` returns. */
  function FloatValue(s: string): real
    requires FloatAccepts(s)
  {
    DecimalValue(FloatStrip(s))
  }

  /** A literal is made of numerals only, so it neither starts nor ends in
      whitespace and contains no character outside the grammar. */
  lemma DecimalNumerals(s: string)
    requires IsDecimal(s)
    ensures |s| > 0
    ensures forall i :: 0 <= i < |s| ==> IsNumeral(s[i])
  {
    var n := SignLength(s);
    var u := Mantissa(s);
    var d := DotIndex(u);
    DotIndexFirst(u);
    var whole, frac := IntegerPart(s), FractionPart(s);
    assert whole == u[..d];
    assert d < |u| ==> frac == u[d + 1..];
    forall i | 0 <= i < |s| ensures IsNumeral(s[i]) {
      if i >= n {
        var k := i - n;
        assert s[i] == u[k];
        if k < d {
          assert u[k] == whole[k];
        } else if k > d {
          assert u[k] == frac[k - d - 1];
        }
      }
    }
  }

  lemma StrippedDecimal(s: string)
    requires IsDecimal(s)
    ensures IsStripped(s)
  {
    DecimalNumerals(s);
    assert IsNumeral(s[0]) && IsNumeral(s[|s| - 1]);
  }

  /** When the first non-digit of `u` is a point, or there is none, that is
      where `DotIndex` stops. */
  lemma PointAfterDigits(u: string, k: nat)
    requires k <= |u| && AllDigits(u[..k])
    requires k == |u| || u[k] == '.'
    ensures DotIndex(u) == k
  {
    DotIndexFirst(u);
    assert forall j :: 0 <= j < k ==> u[j] == u[..k][j];
  }

  /** When the first non-digit of `u` is not a point, the integer part runs
      past it. */
  lemma NoPointAfterDigits(u: string, k: nat)
    requires k < |u| && AllDigits(u[..k])
    requires u[k] != '.'
    ensures DotIndex(u) > k
  {
    DotIndexFirst(u);
    assert forall j :: 0 <= j < k ==> u[j] == u[..k][j];
  }

  /** Reading a literal composed from an integer part and a fraction part gives
      back the value of those parts: the grammar's construction and its
      reading agree. */
  lemma ComposeDecimal(whole: string, frac: string)
    requires |whole| > 0 && AllDigits(whole) && AllDigits(frac)
    ensures IsDecimal(whole + "." + frac)
    ensures DecimalValue(whole + "." + frac)
            == DigitsValue(whole) as real + FractionValue(frac)
  {
    var s := whole + "." + frac;
    assert s[0] == whole[0];
    assert Mantissa(s) == s;
    assert s[..|whole|] == whole;
    assert s[|whole|] == '.';
    PointAfterDigits(s, |whole|);
    assert IntegerPart(s) == whole;
    assert s[|whole| + 1..] == frac;
  }

  /** A literal may be written with digits before the point only. */
  lemma ComposeInteger(whole: string)
    requires |whole| > 0 && AllDigits(whole)
    ensures IsDecimal(whole)
    ensures DecimalValue(whole) == DigitsValue(whole) as real
  {
    assert IsDigit(whole[0]);
    assert Mantissa(whole) == whole;
    assert whole[..|whole|] == whole;
    PointAfterDigits(whole, |whole|);
  }

  lemma DigitsValueStep(s: string, i: nat)
    requires i < |s| && AllDigits(s[..i + 1])
    ensures DigitsValue(s[..i + 1]) == DigitsValue(s[..i]) * 10 + DigitValue(s[i])
  {
    assert s[..i + 1][..i] == s[..i];
  }

  /** Reads the run of digits of `u` that starts at `from`, returning where it
      stops and the value of the digits read. */
  method ScanDigits(u: string, from: nat) returns (end: nat, value: nat)
    requires from <= |u|
    ensures from <= end <= |u|
    ensures AllDigits(u[from..end]) && value == DigitsValue(u[from..end])
    ensures end == |u| || !IsDigit(u[end])
  {
    end, value := from, 0;
    ghost var w := u[from..];
    while end < |u| && IsDigit(u[end])
      invariant from <= end <= |u|
      invariant w[..end - from] == u[from..end]
      invariant AllDigits(u[from..end])
      invariant value == DigitsValue(u[from..end])
    {
      assert w[end - from] == u[end];
      DigitsValueStep(w, end - from);
      value := value * 10 + DigitValue(u[end]);
      end := end + 1;
    }
  }

  /** Reads the run of digits of `u` that starts at `from` as the digits after
      a decimal point: finds where the run stops, then folds the digits in
      from the last one back. */
  method ScanFraction(u: string, from: nat) returns (end: nat, value: real)
    requires from <= |u|
    ensures from <= end <= |u|
    ensures AllDigits(u[from..end]) && value == FractionValue(u[from..end])
    ensures end == |u| || !IsDigit(u[end])
  {
    end := from;
    while end < |u| && IsDigit(u[end])
      invariant from <= end <= |u|
      invariant AllDigits(u[from..end])
    {
      assert u[from..end + 1] == u[from..end] + [u[end]];
      end := end + 1;
    }
    value := 0.0;
    var i := end;
    while i > from
      invariant from <= i <= end
      invariant AllDigits(u[i..end])
      invariant value == FractionValue(u[i..end])
    {
      i := i - 1;
      assert u[i..end][1..] == u[i + 1..end];
      assert u[i..end][0] == u[i] && IsDigit(u[i]);
      value := (DigitValue(u[i]) as real + value) / 10.0;
    }
  }

  /** A mantissa of digits alone is all integer part. */
  lemma ReadWithoutPoint(s: string)
    requires AllDigits(Mantissa(s))
    ensures IntegerPart(s) == Mantissa(s) && FractionPart(s) == []
  {
    var u := Mantissa(s);
    assert u[..|u|] == u;
    PointAfterDigits(u, |u|);
  }

  /** A mantissa whose first non-digit is a point splits there. */
  lemma ReadWithPoint(s: string, k: nat)
    requires k < |Mantissa(s)| && AllDigits(Mantissa(s)[..k]) && Mantissa(s)[k] == '.'
    ensures IntegerPart(s) == Mantissa(s)[..k] && FractionPart(s) == Mantissa(s)[k + 1..]
  {
    PointAfterDigits(Mantissa(s), k);
  }

  /** A mantissa whose first non-digit is anything but a point is no literal. */
  lemma StrayBeforePoint(s: string, k: nat)
    requires k < |Mantissa(s)| && AllDigits(Mantissa(s)[..k])
    requires Mantissa(s)[k] != '.' && !IsDigit(Mantissa(s)[k])
    ensures !IsDecimal(s)
  {
    var u := Mantissa(s);
    NoPointAfterDigits(u, k);
    assert IntegerPart(s)[k] == u[k];
  }

  /** Reads a string the way `float()` does: strip whitespace, an optional
      sign, integer digits, an optional point with fraction digits, and
      nothing after. Agrees with the grammar on every input. */
  method ParseFloat(text: string) returns (r: Option<real>)
    ensures r.Some? <==> FloatAccepts(text)
    ensures r.Some? ==> r.value == FloatValue(text)
  {
    var s := FloatStrip(text);
    var negative := SignLength(s) == 1 && s[0] == '-';
    var u := Mantissa(s);
    var intEnd, whole := ScanDigits(u, 0);
    assert u[0..intEnd] == u[..intEnd];
    if intEnd == |u| {
      assert u[..intEnd] == u;
      ReadWithoutPoint(s);
      if intEnd == 0 {
        return None;
      }
      r := Some(if negative then -(whole as real) else whole as real);
      return;
    }
    if u[intEnd] != '.' {
      StrayBeforePoint(s, intEnd);
      return None;
    }
    ReadWithPoint(s, intEnd);
    var fracEnd, frac := ScanFraction(u, intEnd + 1);
    if fracEnd < |u| {
      assert u[intEnd + 1..][fracEnd - intEnd - 1] == u[fracEnd];
      return None;
    }
    assert u[intEnd + 1..] == u[intEnd + 1..fracEnd];
    if intEnd == 0 && fracEnd == intEnd + 1 {
      return None;
    }
    var magnitude := whole as real + frac;
    r := Some(if negative then -magnitude else magnitude);
  }
}
