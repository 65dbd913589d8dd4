/**
 * The string operations the modelled code borrows from Python's `str`:
 * `strip()`, `split(sep)`, `casefold()`, decimal rendering of integers,
 * and the character classes `[A-Za-z0-9]` and ASCII digits.
 */
module Text {

  // ---------------------------------------------------------------------
  // Whitespace and strip()
  // ---------------------------------------------------------------------

  /** The characters for which Python's `str.isspace()` holds: the set `strip()` removes. */
  predicate IsSpace(c: char)
  {
    || c == ' '
    || ('\t' <= c <= '\r')
    || ('\U{1C}' <= c <= '\U{1F}')
    || c == '\U{85}' || c == '\U{A0}' || c == '\U{1680}'
    || ('\U{2000}' <= c <= '\U{200A}')
    || c == '\U{2028}' || c == '\U{2029}' || c == '\U{202F}' || c == '\U{205F}' || c == '\U{3000}'
  }

  predicate AllSpace(s: string)
  {
    forall i :: 0 <= i < |s| ==> IsSpace(s[i])
  }

  /** The index of the first non-whitespace character of `s` at or after `i`, or `|s|`. */
  function SkipSpace(s: string, i: nat): (j: nat)
    requires i <= |s|
    ensures i <= j <= |s|
    ensures forall k :: i <= k < j ==> IsSpace(s[k])
    ensures j == |s| || !IsSpace(s[j])
    decreases |s| - i
  {
    if i < |s| && IsSpace(s[i]) then SkipSpace(s, i + 1) else i
  }

  /** The end of `s[i..j]` once its trailing whitespace is dropped. */
  function SkipSpaceBack(s: string, i: nat, j: nat): (e: nat)
    requires i <= j <= |s|
    ensures i <= e <= j
    ensures forall k :: e <= k < j ==> IsSpace(s[k])
    ensures e == i || !IsSpace(s[e - 1])
    decreases j - i
  {
    if i < j && IsSpace(s[j - 1]) then SkipSpaceBack(s, i, j - 1) else j
  }

  /** `s.strip()`: `s` without the whitespace at either end. */
  function Strip(s: string): (r: string)
    ensures |r| <= |s|
    ensures r == [] || (!IsSpace(r[0]) && !IsSpace(r[|r| - 1]))
  {
    var i := SkipSpace(s, 0);
    s[i..SkipSpaceBack(s, i, |s|)]
  }

  /** Python's `len(s.strip()) == 0`. */
  predicate IsBlank(s: string)
  {
    |Strip(s)| == 0
  }

  /** A string with no whitespace at either end. */
  predicate IsTrimmed(t: string)
  {
    t == [] || (!IsSpace(t[0]) && !IsSpace(t[|t| - 1]))
  }

  /** The scan forward stops exactly at the first non-whitespace character. */
  lemma {:induction false} SkipSpaceAt(s: string, i: nat, j: nat)
    requires i <= j <= |s|
    requires forall k :: i <= k < j ==> IsSpace(s[k])
    requires j == |s| || !IsSpace(s[j])
    ensures SkipSpace(s, i) == j
    decreases j - i
  {
    if i < j {
      SkipSpaceAt(s, i + 1, j);
    }
  }

  /** The scan backward stops exactly after the last non-whitespace character. */
  lemma {:induction false} SkipSpaceBackAt(s: string, i: nat, j: nat, e: nat)
    requires i <= e <= j <= |s|
    requires forall k :: e <= k < j ==> IsSpace(s[k])
    requires e == i || !IsSpace(s[e - 1])
    ensures SkipSpaceBack(s, i, j) == e
    decreases j - e
  {
    if e < j {
      SkipSpaceBackAt(s, i, j - 1, e);
    }
  }

  /**
   * `strip()` is characterised by what it removes: whatever whitespace
   * surrounds a string with no whitespace at its ends is removed, and
   * nothing else.
   */
  lemma StripSurrounded(pre: string, t: string, post: string)
    requires AllSpace(pre) && AllSpace(post) && IsTrimmed(t)
    ensures Strip(pre + t + post) == t
  {
    var s := pre + t + post;
    if t == [] {
      assert forall k :: 0 <= k < |s| ==> IsSpace(s[k]) by {
        forall k | 0 <= k < |s| ensures IsSpace(s[k]) {
          if k < |pre| { assert s[k] == pre[k]; } else { assert s[k] == post[k - |pre|]; }
        }
      }
      SkipSpaceAt(s, 0, |s|);
      SkipSpaceBackAt(s, |s|, |s|, |s|);
    } else {
      var a, b := |pre|, |pre| + |t|;
      assert s[a] == t[0] && s[b - 1] == t[|t| - 1];
      assert forall k :: 0 <= k < a ==> IsSpace(s[k]) by {
        forall k | 0 <= k < a ensures IsSpace(s[k]) { assert s[k] == pre[k]; }
      }
      assert forall k :: b <= k < |s| ==> IsSpace(s[k]) by {
        forall k | b <= k < |s| ensures IsSpace(s[k]) { assert s[k] == post[k - b]; }
      }
      SkipSpaceAt(s, 0, a);
      SkipSpaceBackAt(s, a, |s|, b);
      assert s[a..b] == t;
    }
  }

  /** Every string is its stripped form with whitespace around it. */
  lemma StripDecompose(s: string) returns (k: nat)
    ensures k + |Strip(s)| <= |s|
    ensures Strip(s) == s[k..k + |Strip(s)|]
    ensures AllSpace(s[..k]) && AllSpace(s[k + |Strip(s)|..])
  {
    k := SkipSpace(s, 0);
    var e := SkipSpaceBack(s, k, |s|);
    assert Strip(s) == s[k..e];
    assert AllSpace(s[..k]) by {
      forall m | 0 <= m < k ensures IsSpace(s[..k][m]) { assert s[..k][m] == s[m]; }
    }
    assert AllSpace(s[e..]) by {
      forall m | 0 <= m < |s| - e ensures IsSpace(s[e..][m]) { assert s[e..][m] == s[e + m]; }
    }
  }

  /** A string with no whitespace at its ends is its own stripped form. */
  lemma StripTrimmed(t: string)
    requires IsTrimmed(t)
    ensures Strip(t) == t
  {
    assert [] + t + [] == t;
    StripSurrounded([], t, []);
  }

  lemma StripIdempotent(s: string)
    ensures Strip(Strip(s)) == Strip(s)
  {
    StripTrimmed(Strip(s));
  }

  /** A string is blank exactly when it is all whitespace. */
  lemma BlankIffAllSpace(s: string)
    ensures IsBlank(s) <==> AllSpace(s)
  {
    if AllSpace(s) {
      assert s + [] + [] == s;
      StripSurrounded(s, [], []);
    }
    if IsBlank(s) {
      var k := StripDecompose(s);
      forall i | 0 <= i < |s| ensures IsSpace(s[i]) {
        if i < k { assert s[i] == s[..k][i]; } else { assert s[i] == s[k..][i - k]; }
      }
    }
  }

  // ---------------------------------------------------------------------
  // split(sep) and its inverse, sep.join(parts)
  // ---------------------------------------------------------------------

  /** `sep.join(parts)` for a one-character separator. */
  function Join(parts: seq<string>, sep: char): string
    requires |parts| >= 1
  {
    if |parts| == 1 then parts[0] else parts[0] + [sep] + Join(parts[1..], sep)
  }

  predicate NoSeparator(parts: seq<string>, sep: char)
  {
    forall i :: 0 <= i < |parts| ==> sep !in parts[i]
  }

  /**
   * `s.split(sep)`: the pieces of `s` between occurrences of `sep`. The
   * contract determines the result completely (see JoinInjective).
   */
  function Split(s: string, sep: char): (parts: seq<string>)
    ensures |parts| >= 1 && NoSeparator(parts, sep)
    ensures Join(parts, sep) == s
  {
    if |s| == 0 then
      [""]
    else
      var rest := Split(s[1..], sep);
      assert s == [s[0]] + s[1..];
      if s[0] == sep then
        JoinCons("", rest, sep);
        [""] + rest
      else
        JoinPrepend(s[0], rest, sep);
        var parts := [[s[0]] + rest[0]] + rest[1..];
        assert sep !in parts[0];
        parts
  }

  /** There is one more piece than there are separators. */
  lemma {:induction false} SplitCount(s: string, sep: char)
    ensures |Split(s, sep)| == multiset(s)[sep] + 1
  {
    if |s| > 0 {
      assert s == [s[0]] + s[1..];
      assert multiset(s) == multiset([s[0]]) + multiset(s[1..]);
      SplitCount(s[1..], sep);
    }
  }

  /** Joining one more piece in front. */
  lemma JoinCons(p: string, parts: seq<string>, sep: char)
    requires |parts| >= 1
    ensures Join([p] + parts, sep) == p + [sep] + Join(parts, sep)
  {
    assert ([p] + parts)[1..] == parts;
  }

  /** Joining after one more character at the front of the first piece. */
  lemma JoinPrepend(c: char, parts: seq<string>, sep: char)
    requires |parts| >= 1
    ensures Join([[c] + parts[0]] + parts[1..], sep) == [c] + Join(parts, sep)
  {
    var q := [[c] + parts[0]] + parts[1..];
    assert q[1..] == parts[1..];
  }

  lemma {:induction false} JoinInjective(p: seq<string>, q: seq<string>, sep: char)
    requires |p| >= 1 && |q| >= 1
    requires NoSeparator(p, sep) && NoSeparator(q, sep)
    requires Join(p, sep) == Join(q, sep)
    ensures p == q
    decreases |p| + |q|
  {
    var s := Join(p, sep);
    if |p| == 1 && |q| == 1 {
    } else if |p| == 1 {
      assert false;
    } else if |q| == 1 {
      assert false;
    } else {
      var sp, sq := Join(p[1..], sep), Join(q[1..], sep);
      assert s == p[0] + ([sep] + sp) && s == q[0] + ([sep] + sq);
      FirstSeparator(p[0], sp, q[0], sq, sep);
      assert p[0] == q[0] && sp == sq;
      JoinInjective(p[1..], q[1..], sep);
      assert p == [p[0]] + p[1..] && q == [q[0]] + q[1..];
    }
  }

  lemma FirstSeparator(a: string, x: string, b: string, y: string, sep: char)
    requires sep !in a && sep !in b
    requires a + ([sep] + x) == b + ([sep] + y)
    ensures a == b && x == y
  {
    var s := a + ([sep] + x);
    FirstIndexAfter(a, [sep] + x, sep);
    FirstIndexAfter(b, [sep] + y, sep);
    assert a == s[..|a|] == b;
    assert x == s[|a| + 1..] == y;
  }

  /** The position of the first `sep` in `s`, or `|s|` if there is none. */
  function FirstIndexOf(s: string, sep: char): nat
  {
    if s == [] || s[0] == sep then 0 else 1 + FirstIndexOf(s[1..], sep)
  }

  lemma {:induction false} FirstIndexAfter(a: string, rest: string, sep: char)
    requires sep !in a && rest != [] && rest[0] == sep
    ensures FirstIndexOf(a + rest, sep) == |a|
  {
    if a != [] {
      assert (a + rest)[0] == a[0];
      assert (a + rest)[1..] == a[1..] + rest;
      FirstIndexAfter(a[1..], rest, sep);
    }
  }

  /** Joining separator-free pieces and splitting again gives the pieces back. */
  lemma SplitJoin(parts: seq<string>, sep: char)
    requires |parts| >= 1 && NoSeparator(parts, sep)
    ensures Split(Join(parts, sep), sep) == parts
  {
    JoinInjective(Split(Join(parts, sep), sep), parts, sep);
  }

  /** Two pieces joined: the first, the separator, the second. */
  lemma JoinPair(a: string, b: string, sep: char)
    ensures Join([a, b], sep) == a + [sep] + b
  {
    assert [a, b][1..] == [b];
  }

  // ---------------------------------------------------------------------
  // Case folding and character classes
  // ---------------------------------------------------------------------

  /**
   * `str.casefold()` on one character, as far as it can matter when the
   * result is compared with ASCII words: ASCII capitals fold to lower
   * case, and LATIN SMALL LETTER LONG S (U+017F) folds to `s`.
   */
  function FoldChar(c: char): char
  {
    if 'A' <= c <= 'Z' then ((c as int) - ('A' as int) + ('a' as int)) as char
    else if c == '\U{017F}' then 's'
    else c
  }

  function CaseFold(s: string): (r: string)
    ensures |r| == |s|
  {
    seq(|s|, i requires 0 <= i < |s| => FoldChar(s[i]))
  }

  /** Membership in the regular-expression class `[A-Za-z0-9]`. */
  predicate IsAsciiAlnum(c: char)
  {
    ('A' <= c <= 'Z') || ('a' <= c <= 'z') || ('0' <= c <= '9')
  }

  predicate AllAsciiAlnum(s: string)
  {
    forall i :: 0 <= i < |s| ==> IsAsciiAlnum(s[i])
  }

  // ---------------------------------------------------------------------
  // Decimal digits
  // ---------------------------------------------------------------------

  predicate IsDigit(c: char)
  {
    '0' <= c <= '9'
  }

  predicate AllDigits(s: string)
  {
    forall i :: 0 <= i < |s| ==> IsDigit(s[i])
  }

  function DigitChar(d: nat): (c: char)
    requires d < 10
    ensures IsDigit(c)
  {
    (('0' as int) + d) as char
  }

  /** The number a string of decimal digits denotes (0 for the empty string). */
  function DigitsValue(s: string): nat
    requires AllDigits(s)
  {
    if s == [] then 0
    else DigitsValue(s[..|s| - 1]) * 10 + ((s[|s| - 1] as int) - ('0' as int))
  }

  /** The length of the run of digits `s` starts with. */
  function DigitRun(s: string): (k: nat)
    ensures k <= |s| && AllDigits(s[..k])
    ensures k == |s| || !IsDigit(s[k])
  {
    if |s| > 0 && IsDigit(s[0]) then
      var k := 1 + DigitRun(s[1..]);
      assert s[..k] == [s[0]] + s[1..][..k - 1];
      k
    else
      0
  }

  /** The run is exactly the digits in front of the first non-digit. */
  lemma {:induction false} DigitRunOf(a: string, b: string)
    requires AllDigits(a) && (b == [] || !IsDigit(b[0]))
    ensures DigitRun(a + b) == |a|
  {
    if a == [] {
      assert a + b == b;
    } else {
      assert (a + b)[0] == a[0] && (a + b)[1..] == a[1..] + b;
      DigitRunOf(a[1..], b);
    }
  }

  function Pow10(n: nat): (p: nat)
    ensures p >= 1
  {
    if n == 0 then 1 else 10 * Pow10(n - 1)
  }

  /** Python's `str(n)` for a non-negative integer. */
  function NatToString(n: nat): (r: string)
    ensures |r| >= 1 && AllDigits(r)
    ensures DigitsValue(r) == n
    ensures r[0] == '0' ==> n == 0
  {
    if n < 10 then
      [DigitChar(n)]
    else
      var prefix := NatToString(n / 10);
      var r := prefix + [DigitChar(n % 10)];
      assert r[..|r| - 1] == prefix;
      r
  }

  /** Python's `str(i)` for any integer. */
  function IntToString(i: int): string
  {
    if i < 0 then "-" + NatToString(-i) else NatToString(i)
  }

  lemma NatToStringInjective(m: nat, n: nat)
    requires NatToString(m) == NatToString(n)
    ensures m == n
  {
  }

  /** `n` written with exactly `width` digits, zero-padded on the left (`%0*d`). */
  function PadNat(n: nat, width: nat): (r: string)
    requires n < Pow10(width)
    ensures |r| == width && AllDigits(r)
    ensures DigitsValue(r) == n
  {
    if width == 0 then
      []
    else
      var prefix := PadNat(n / 10, width - 1);
      var r := prefix + [DigitChar(n % 10)];
      assert r[..|r| - 1] == prefix;
      r
  }

  /** Reading a digit string and padding the number back to the same width restores it. */
  lemma {:induction false} PadDigits(x: string)
    requires AllDigits(x)
    ensures DigitsValue(x) < Pow10(|x|)
    ensures PadNat(DigitsValue(x), |x|) == x
  {
    if x != [] {
      var init, last := x[..|x| - 1], x[|x| - 1];
      PadDigits(init);
      var d := (last as int) - ('0' as int);
      assert DigitsValue(x) == DigitsValue(init) * 10 + d;
      assert DigitsValue(x) / 10 == DigitsValue(init) && DigitsValue(x) % 10 == d;
      assert x == init + [last];
    }
  }

  /** `sep.join(parts + [last])` appends the separator and `last`. */
  lemma {:induction false} JoinAppend(parts: seq<string>, last: string, sep: char)
    requires |parts| >= 1
    ensures Join(parts + [last], sep) == Join(parts, sep) + [sep] + last
  {
    if |parts| > 1 {
      assert (parts + [last])[1..] == parts[1..] + [last];
      JoinAppend(parts[1..], last, sep);
    }
  }

  /** Splitting at the last separator: the last piece is what follows it. */
  lemma SplitLast(a: string, b: string, sep: char)
    requires sep !in b
    ensures Split(a + [sep] + b, sep) == Split(a, sep) + [b]
  {
    var p := Split(a, sep) + [b];
    JoinAppend(Split(a, sep), b, sep);
    assert NoSeparator(p, sep) by {
      forall i | 0 <= i < |p| ensures sep !in p[i] {
        if i < |p| - 1 { assert p[i] == Split(a, sep)[i]; }
      }
    }
    JoinInjective(Split(a + [sep] + b, sep), p, sep);
  }

  /** The text after the last separator is determined by the whole string. */
  lemma LastFieldDetermined(a: string, b: string, c: string, d: string, sep: char)
    requires sep !in b && sep !in d
    requires a + [sep] + b == c + [sep] + d
    ensures b == d
  {
    var p, q := Split(a + [sep] + b, sep), Split(c + [sep] + d, sep);
    assert p[|p| - 1] == b by { SplitLast(a, b, sep); }
    assert q[|q| - 1] == d by { SplitLast(c, d, sep); }
  }
}
