/**
 * The two pieces of Python's `str` behaviour that price parsing leans on:
 * the whitespace class of `str.isspace()` and `str.strip()`, which removes
 * that whitespace from both ends of a string. `float()` skips a slightly
 * smaller class around its argument; PyFloat defines that one in terms of
 * this one.
 */
module PyText {

  /** The characters for which Python 3's `str.isspace()` holds: the ASCII
      controls TAB..CR and FS..US, SPACE, NEL, NO-BREAK SPACE and the Unicode
      space separators and line/paragraph separators. */
  predicate IsSpace(c: char) {
    || c == ' '
    || ('\t' <= c <= '\r')
    || ('\U{001C}' <= c <= '\U{001F}')
    || c == '\U{0085}'
    || c == '\U{00A0}'
    || c == '\U{1680}'
    || ('\U{2000}' <= c <= '\U{200A}')
    || c == '\U{2028}'
    || c == '\U{2029}'
    || c == '\U{202F}'
    || c == '\U{205F}'
    || c == '\U{3000}'
  }

  predicate AllSpace(s: string) {
    forall i :: 0 <= i < |s| ==> IsSpace(s[i])
  }

  /** `s.lstrip()`: `s` without its leading whitespace. */
  function TrimStart(s: string): (r: string)
    ensures r == [] || !IsSpace(r[0])
  {
    if s != [] && IsSpace(s[0]) then TrimStart(s[1..]) else s
  }

  /** `s.rstrip()`: `s` without its trailing whitespace. */
  function TrimEnd(s: string): (r: string)
    ensures r == [] || !IsSpace(r[|r| - 1])
  {
    if s != [] && IsSpace(s[|s| - 1]) then TrimEnd(s[..|s| - 1]) else s
  }

  /** `s.strip()`. */
  function Strip(s: string): (r: string)
    ensures IsStripped(r)
  {
    var t := TrimStart(s);
    TrimEndPrefix(t);
    TrimEnd(t)
  }

  /** What `lstrip()` returns is a suffix of its input, and all it dropped
      is whitespace. */
  lemma {:induction false} TrimStartSuffix(s: string)
    ensures |TrimStart(s)| <= |s|
    ensures TrimStart(s) == s[|s| - |TrimStart(s)|..]
    ensures AllSpace(s[..|s| - |TrimStart(s)|])
    decreases |s|
  {
    if s != [] && IsSpace(s[0]) {
      TrimStartSuffix(s[1..]);
      var k := |s| - |TrimStart(s)|;
      assert s[..k] == [s[0]] + s[1..][..k - 1];
    }
  }

  /** What `rstrip()` returns is a prefix of its input, and all it dropped
      is whitespace. */
  lemma {:induction false} TrimEndPrefix(s: string)
    ensures |TrimEnd(s)| <= |s|
    ensures TrimEnd(s) == s[..|TrimEnd(s)|]
    ensures AllSpace(s[|TrimEnd(s)|..])
    decreases |s|
  {
    if s != [] && IsSpace(s[|s| - 1]) {
      TrimEndPrefix(s[..|s| - 1]);
      var k := |TrimEnd(s)|;
      assert s[k..] == s[..|s| - 1][k..] + [s[|s| - 1]];
    }
  }

  /** `strip()` returns characters of its input only. */
  lemma StripInfix(s: string)
    ensures |Strip(s)| <= |s|
    ensures forall i :: 0 <= i < |Strip(s)| ==> Strip(s)[i] in s
  {
    var t := TrimStart(s);
    TrimStartSuffix(s);
    TrimEndPrefix(t);
    forall i | 0 <= i < |Strip(s)| ensures Strip(s)[i] in s {
      assert Strip(s)[i] == t[i] == s[|s| - |t| + i];
    }
  }

  /** A string with no whitespace at either end is what `strip()` leaves alone. */
  predicate IsStripped(s: string) {
    s == [] || (!IsSpace(s[0]) && !IsSpace(s[|s| - 1]))
  }

  lemma AllSpaceAppend(a: string, b: string)
    requires AllSpace(a) && AllSpace(b)
    ensures AllSpace(a + b)
  {
    forall i | 0 <= i < |a + b| ensures IsSpace((a + b)[i]) {
      if i >= |a| { assert (a + b)[i] == b[i - |a|]; }
    }
  }

  lemma {:induction false} TrimStartSkipsSpace(p: string, x: string)
    requires AllSpace(p)
    ensures TrimStart(p + x) == TrimStart(x)
    decreases |p|
  {
    if p != [] {
      assert (p + x)[0] == p[0] && IsSpace(p[0]);
      assert (p + x)[1..] == p[1..] + x;
      calc {
        TrimStart(p + x);
        TrimStart(p[1..] + x);
        { TrimStartSkipsSpace(p[1..], x); }
        TrimStart(x);
      }
    } else {
      assert p + x == x;
    }
  }

  lemma {:induction false} TrimEndSkipsSpace(x: string, q: string)
    requires AllSpace(q)
    ensures TrimEnd(x + q) == TrimEnd(x)
    decreases |q|
  {
    if q != [] {
      assert (x + q)[|x + q| - 1] == q[|q| - 1] && IsSpace(q[|q| - 1]);
      assert (x + q)[..|x + q| - 1] == x + q[..|q| - 1];
      calc {
        TrimEnd(x + q);
        TrimEnd(x + q[..|q| - 1]);
        { TrimEndSkipsSpace(x, q[..|q| - 1]); }
        TrimEnd(x);
      }
    } else {
      assert x + q == x;
    }
  }

  /** `strip()` is determined by its input's shape: whatever whitespace
      surrounds a stripped core, the core is what comes back. */
  lemma StripUnique(p: string, y: string, q: string)
    requires AllSpace(p) && AllSpace(q) && IsStripped(y)
    ensures Strip(p + y + q) == y
  {
    assert p + y + q == p + (y + q);
    TrimStartSkipsSpace(p, y + q);
    if y == [] {
      assert y + q == q + [];
      TrimStartSkipsSpace(q, []);
    } else {
      assert (y + q)[0] == y[0];
      TrimEndSkipsSpace(y, q);
    }
  }

  /** Trailing whitespace after a stripped string is all `strip()` removes. */
  lemma StripTrailing(y: string, q: string)
    requires AllSpace(q) && IsStripped(y)
    ensures Strip(y + q) == y
  {
    StripUnique([], y, q);
    assert [] + y + q == y + q;
  }

  /** Leading whitespace before a stripped string is all `strip()` removes. */
  lemma StripLeading(p: string, y: string)
    requires AllSpace(p) && IsStripped(y)
    ensures Strip(p + y) == y
  {
    TrimStartSkipsSpace(p, y);
  }

  /** Text appended after a non-blank string survives `lstrip()`; after a
      blank one, only the appended text is left to strip. */
  lemma {:induction false} TrimStartAppend(s: string, q: string)
    ensures TrimStart(s) != [] ==> TrimStart(s + q) == TrimStart(s) + q
    ensures TrimStart(s) == [] ==> TrimStart(s + q) == TrimStart(q)
    decreases |s|
  {
    if s == [] {
      assert s + q == q;
    } else {
      assert (s + q)[0] == s[0];
      if IsSpace(s[0]) {
        assert (s + q)[1..] == s[1..] + q;
        TrimStartAppend(s[1..], q);
      }
    }
  }

  /** A non-blank string that begins and ends in non-whitespace survives
      `strip()` whole when text follows it. */
  lemma StripKeepsHead(x: string, y: string)
    requires x != [] && IsStripped(x)
    ensures |Strip(x + y)| >= |x| && Strip(x + y)[..|x|] == x
  {
    assert (x + y)[0] == x[0];
    assert TrimStart(x + y) == x + y;
    TrimEndPrefix(x + y);
    assert (x + y)[..|x|] == x;
  }

  /** Extra whitespace on either side does not change what `strip()` returns. */
  lemma StripPadding(p: string, s: string, q: string)
    requires AllSpace(p) && AllSpace(q)
    ensures Strip(p + s + q) == Strip(s)
  {
    assert p + s + q == p + (s + q);
    TrimStartSkipsSpace(p, s + q);
    TrimStartAppend(s, q);
    if TrimStart(s) != [] {
      TrimEndSkipsSpace(TrimStart(s), q);
    } else {
      assert q + [] == q;
      TrimStartSkipsSpace(q, []);
    }
  }

  lemma StripIdempotent(s: string)
    ensures Strip(Strip(s)) == Strip(s)
  {
    StripUnique([], Strip(s), []);
    assert [] + Strip(s) + [] == Strip(s);
  }

  /** What `strip()` leaves alone. */
  lemma StripStripped(s: string)
    requires IsStripped(s)
    ensures Strip(s) == s
  {
    StripUnique([], s, []);
    assert [] + s + [] == s;
  }

  lemma {:induction false} TrimStartSubset(s: string)
    ensures multiset(TrimStart(s)) <= multiset(s)
    decreases |s|
  {
    if s != [] && IsSpace(s[0]) {
      assert s == [s[0]] + s[1..];
      TrimStartSubset(s[1..]);
    }
  }

  lemma {:induction false} TrimEndSubset(s: string)
    ensures multiset(TrimEnd(s)) <= multiset(s)
    decreases |s|
  {
    if s != [] && IsSpace(s[|s| - 1]) {
      assert s == s[..|s| - 1] + [s[|s| - 1]];
      TrimEndSubset(s[..|s| - 1]);
    }
  }

  /** `strip()` only removes characters. */
  lemma StripSubset(s: string)
    ensures multiset(Strip(s)) <= multiset(s)
  {
    TrimStartSubset(s);
    TrimEndSubset(TrimStart(s));
  }
}
