/**
 * The value converters of the web scraper (web-scraper/app/converter.py):
 * `IntConverter` turns a scraped value into an integer or `None`, and
 * `StrAlnumConverter` turns it into a string of ASCII letters and digits or
 * `None`. Each stores its result in `value`, resetting it to `None` first.
 */
module Converters {
  import opened Wrappers
  import opened Text
  import opened Values

  // -----------------------------------------------------------------------
  // Decimal literals: the plain subset of what `decimal.Decimal(str)` reads
  // -----------------------------------------------------------------------

  /**
   * A decimal literal `[sign] digits [. digits]`: at least one digit in
   * all, the point optional, either side of it possibly empty.
   */
  datatype DecimalLiteral = DecimalLiteral(sign: string, intPart: string, fracPart: Option<string>)
  {
    predicate Valid()
    {
      && (sign == "" || sign == "+" || sign == "-")
      && AllDigits(intPart)
      && (fracPart.None? ==> |intPart| >= 1)
      && (fracPart.Some? ==> AllDigits(fracPart.value) && |intPart| + |fracPart.value| >= 1)
    }

    /** The point and the fraction, if any. */
    function Tail(): string
    {
      if fracPart.Some? then "." + fracPart.value else ""
    }

    /** The literal written out. */
    function Text(): string
    {
      sign + (intPart + Tail())
    }

    /** `d == int(d)`: no non-zero digit after the point. */
    predicate IsIntegral()
    {
      fracPart.None? || forall i :: 0 <= i < |fracPart.value| ==> fracPart.value[i] == '0'
    }

    /** `int(d)`: the integer part with its sign. */
    function IntegerPart(): int
      requires Valid()
    {
      var magnitude: int := DigitsValue(intPart);
      if sign == "-" then -magnitude else magnitude
    }
  }

  /** The optional leading sign of a literal. */
  function SignOf(s: string): (sign: string)
    ensures sign == "" || sign == "+" || sign == "-"
    ensures |sign| <= |s| && sign == s[..|sign|]
    ensures sign == "" <==> |s| == 0 || (s[0] != '+' && s[0] != '-')
  {
    if |s| > 0 && (s[0] == '+' || s[0] == '-') then s[..1] else ""
  }

  /** The digits and the optional point after the sign. */
  function ParseUnsigned(sign: string, body: string): (r: Option<DecimalLiteral>)
    requires sign == "" || sign == "+" || sign == "-"
    ensures r.Some? ==> r.value.Valid() && r.value.sign == sign && r.value.Text() == sign + body
  {
    var k := DigitRun(body);
    var intPart, tail := body[..k], body[k..];
    assert body == intPart + tail;
    if tail == [] && k >= 1 then
      assert intPart == body;
      Some(DecimalLiteral(sign, intPart, None))
    else if tail != [] && tail[0] == '.' && AllDigits(tail[1..]) && k + |tail| - 1 >= 1 then
      var d := DecimalLiteral(sign, intPart, Some(tail[1..]));
      assert d.Tail() == tail by { assert tail == "." + tail[1..]; }
      assert d.Text() == sign + body;
      Some(d)
    else
      None
  }

  /** `Decimal(s)` on an already stripped string, as far as plain literals go. */
  function ParseDecimal(s: string): (r: Option<DecimalLiteral>)
    ensures r.Some? ==> r.value.Valid() && r.value.Text() == s
  {
    var sign := SignOf(s);
    assert s == sign + s[|sign|..];
    ParseUnsigned(sign, s[|sign|..])
  }

  /** The sign of a literal is read off its text, and the rest follows it. */
  lemma SignOfLiteral(d: DecimalLiteral)
    requires d.Valid()
    ensures SignOf(d.Text()) == d.sign
    ensures d.Text()[|d.sign|..] == d.intPart + d.Tail()
  {
    var s, rest := d.Text(), d.intPart + d.Tail();
    assert |rest| >= 1 && (rest[0] == '.' || IsDigit(rest[0])) by {
      if d.intPart != [] {
        assert rest[0] == d.intPart[0];
      }
    }
    if d.sign != "" {
      assert s[0] == d.sign[0];
    }
  }

  /** The digits and point of a literal are read back as themselves. */
  lemma UnsignedOfLiteral(d: DecimalLiteral)
    requires d.Valid()
    ensures ParseUnsigned(d.sign, d.intPart + d.Tail()) == Some(d)
  {
    var tail := d.Tail();
    var rest := d.intPart + tail;
    assert tail == [] || tail[0] == '.';
    DigitRunOf(d.intPart, tail);
    assert rest[..|d.intPart|] == d.intPart && rest[|d.intPart|..] == tail;
    if d.fracPart.Some? {
      assert tail[1..] == d.fracPart.value;
    }
  }

  /** Every literal is read back as itself: the parse is the inverse of `Text`. */
  lemma ParseText(d: DecimalLiteral)
    requires d.Valid()
    ensures ParseDecimal(d.Text()) == Some(d)
  {
    SignOfLiteral(d);
    UnsignedOfLiteral(d);
  }

  // -----------------------------------------------------------------------
  // IntConverter
  // -----------------------------------------------------------------------

  /**
   * The boolean words: `value.strip().casefold()` is `"t"` or `"true"`
   * (true), or `"f"` or `"false"` (false).
   */
  function BoolWord(s: string): (r: Option<bool>)
    ensures r == Some(true) <==> CaseFold(Strip(s)) in {"t", "true"}
    ensures r == Some(false) <==> CaseFold(Strip(s)) in {"f", "false"}
  {
    var t := CaseFold(Strip(s));
    if t == "t" || t == "true" then Some(true)
    else if t == "f" || t == "false" then Some(false)
    else None
  }

  /**
   * `IntConverter(value, include_bool_str=...).value`. Floats are exact,
   * so one is integral when it has no fractional part.
   */
  function ConvertInt(value: Value, includeBoolStr: bool): (r: Option<int>)
    ensures includeBoolStr && value.StrValue? && BoolWord(value.s).Some? ==>
      r == Some(if BoolWord(value.s).value then 1 else 0)
    ensures value.BoolValue? ==> r == (if includeBoolStr then Some(if value.b then 1 else 0) else None)
    ensures value.IntValue? ==> r == Some(value.i)
    ensures value.FloatValue? && r.Some? ==> r.value as real == value.f
    ensures value.FloatValue? && r.None? ==> value.f != value.f.Floor as real
    ensures value.NoneValue? || value.ComplexValue? || value.OtherValue? ==> r == None
    ensures value.StrValue? && !(includeBoolStr && BoolWord(value.s).Some?) ==>
      (r.Some? <==> ParseDecimal(Strip(value.s)).Some? && ParseDecimal(Strip(value.s)).value.IsIntegral())
    ensures value.StrValue? && r.Some? && !(includeBoolStr && BoolWord(value.s).Some?) ==>
      r.value == ParseDecimal(Strip(value.s)).value.IntegerPart()
  {
    if includeBoolStr && value.StrValue? && BoolWord(value.s).Some? then
      Some(if BoolWord(value.s).value then 1 else 0)
    else
      match value
      case BoolValue(b) => if includeBoolStr then Some(if b then 1 else 0) else None
      case IntValue(i) => Some(i)
      case FloatValue(f) => if f == f.Floor as real then Some(f.Floor) else None
      case StrValue(s) =>
        (match ParseDecimal(Strip(s))
         case None => None
         case Some(d) => if d.IsIntegral() then Some(d.IntegerPart()) else None)
      case _ => None
  }

  /** The sign and digits of an integer as a literal, with an optional point and fraction. */
  function IntegerLiteral(n: int, fracPart: Option<string>): (d: DecimalLiteral)
    requires fracPart.None? || AllDigits(fracPart.value)
    ensures d.Valid() && d.IntegerPart() == n
  {
    DecimalLiteral(if n < 0 then "-" else "", NatToString(if n < 0 then -n else n), fracPart)
  }

  /** An integer written out, followed by `"."` or `".0"` or nothing, starts with `-` or a digit and ends in a point or a digit. */
  lemma IntegerTextTrimmed(n: int, suffix: string)
    requires suffix == "" || suffix == "." || suffix == ".0"
    ensures var t := IntToString(n) + suffix; t[0] == '-' || IsDigit(t[0])
    ensures IsTrimmed(IntToString(n) + suffix)
  {
    var t := IntToString(n) + suffix;
    assert t[0] == '-' || IsDigit(t[0]);
    assert t[|t| - 1] == '.' || IsDigit(t[|t| - 1]);
  }

  /** Such a text is an integral literal of that integer. */
  lemma IntegerTextParses(n: int, suffix: string)
    requires suffix == "" || suffix == "." || suffix == ".0"
    ensures ParseDecimal(IntToString(n) + suffix).Some?
    ensures ParseDecimal(IntToString(n) + suffix).value.IsIntegral()
    ensures ParseDecimal(IntToString(n) + suffix).value.IntegerPart() == n
  {
    var frac := if suffix == "" then None else Some(suffix[1..]);
    var d := IntegerLiteral(n, frac);
    assert d.Text() == IntToString(n) + suffix by {
      if suffix != "" {
        assert suffix == "." + suffix[1..];
      }
    }
    ParseText(d);
  }

  /**
   * Round trip: an integer written in decimal, optionally followed by `"."`
   * or `".0"` and surrounded by whitespace, converts back to that integer,
   * with or without `include_bool_str`.
   */
  lemma ConvertIntegerText(n: int, suffix: string, pre: string, post: string, includeBoolStr: bool)
    requires suffix == "" || suffix == "." || suffix == ".0"
    requires AllSpace(pre) && AllSpace(post)
    ensures ConvertInt(StrValue(pre + IntToString(n) + suffix + post), includeBoolStr) == Some(n)
  {
    IntegerTextStrip(n, suffix, pre, post);
    IntegerTextNotWord(n, suffix);
    IntegerTextParses(n, suffix);
  }

  /** The whitespace around such a text is what `strip` removes. */
  lemma IntegerTextStrip(n: int, suffix: string, pre: string, post: string)
    requires suffix == "" || suffix == "." || suffix == ".0"
    requires AllSpace(pre) && AllSpace(post)
    ensures Strip(pre + IntToString(n) + suffix + post) == IntToString(n) + suffix
  {
    var t := IntToString(n) + suffix;
    IntegerTextTrimmed(n, suffix);
    assert pre + IntToString(n) + suffix + post == pre + t + post;
    StripSurrounded(pre, t, post);
  }

  /** Such a text, surrounded by whitespace, is not a boolean word. */
  lemma IntegerTextNotWord(n: int, suffix: string)
    requires suffix == "" || suffix == "." || suffix == ".0"
    ensures CaseFold(IntToString(n) + suffix) !in {"t", "true", "f", "false"}
  {
    var t := IntToString(n) + suffix;
    IntegerTextTrimmed(n, suffix);
    assert CaseFold(t)[0] == FoldChar(t[0]);
  }

  /** The cases of test_converter.py that give no integer. */
  lemma ConvertIntRejections()
    ensures ConvertInt(FloatValue(5.5), false) == None
    ensures ConvertInt(BoolValue(true), false) == None
    ensures ConvertInt(BoolValue(false), false) == None
    ensures ConvertInt(OtherValue("dict"), false) == None
    ensures ConvertInt(FloatValue(-5.0), false) == Some(-5)
    ensures ConvertInt(BoolValue(true), true) == Some(1)
  {
  }

  /** A decimal literal starts with a sign, a digit or the point, and ends with a digit or the point. */
  lemma LiteralEnds(d: DecimalLiteral)
    requires d.Valid()
    ensures |d.Text()| >= 1
    ensures d.Text()[0] in {'+', '-', '.'} || IsDigit(d.Text()[0])
    ensures d.Text()[|d.Text()| - 1] == '.' || IsDigit(d.Text()[|d.Text()| - 1])
  {
    var t := d.Text();
    if d.sign != "" {
      assert t[0] == d.sign[0];
    } else if d.intPart != "" {
      assert t[0] == d.intPart[0];
    } else {
      assert t[0] == '.';
    }
    if d.fracPart.Some? && d.fracPart.value != "" {
      assert t[|t| - 1] == d.fracPart.value[|d.fracPart.value| - 1];
    } else if d.fracPart.None? {
      assert t[|t| - 1] == d.intPart[|d.intPart| - 1];
    }
  }

  /**
   * A literal without surrounding whitespace converts to its integer part
   * when it is integral and to `None` otherwise.
   */
  lemma ConvertLiteral(d: DecimalLiteral)
    requires d.Valid()
    ensures ConvertInt(StrValue(d.Text()), false) == if d.IsIntegral() then Some(d.IntegerPart()) else None
  {
    LiteralEnds(d);
    StripTrimmed(d.Text());
    ParseText(d);
  }

  /** `"5.5"` is a literal but not an integral one. */
  lemma ConvertFractionRejected()
    ensures ConvertInt(StrValue("5.5"), false) == None
  {
    var d := DecimalLiteral("", "5", Some("5"));
    assert d.Valid() && d.Text() == "5.5";
    assert !d.IsIntegral() by { assert d.fracPart.value[0] != '0'; }
    ConvertLiteral(d);
  }

  /** What `Decimal` accepts starts with a sign, a digit or the point, never with a letter. */
  lemma LetterNotLiteral(s: string)
    requires |s| >= 1 && ('a' <= s[0] <= 'z' || 'A' <= s[0] <= 'Z')
    ensures ParseDecimal(s).None?
  {
    var r := ParseDecimal(s);
    if r.Some? {
      LiteralEnds(r.value);
    }
  }

  /**
   * A stripped value that reads as a word, its first character a letter, is
   * no number: without `include_bool_str` it converts to `None`.
   */
  lemma WordNotNumber(t: string)
    requires IsTrimmed(t) && |t| >= 1
    requires 'a' <= t[0] <= 'z' || 'A' <= t[0] <= 'Z'
    ensures ConvertInt(StrValue(t), false) == None
  {
    LetterNotLiteral(t);
    StripTrimmed(t);
  }

  /**
   * With `include_bool_str`, a string with no whitespace at its ends that
   * case-folds to a boolean word converts to 1 or 0.
   */
  lemma FlaggedWord(t: string)
    requires IsTrimmed(t)
    ensures CaseFold(t) in {"t", "true"} ==> ConvertInt(StrValue(t), true) == Some(1)
    ensures CaseFold(t) in {"f", "false"} ==> ConvertInt(StrValue(t), true) == Some(0)
  {
    StripTrimmed(t);
  }

  lemma FoldTrueUpper()
    ensures CaseFold("TRUE") == "true"
  {
    var c := CaseFold("TRUE");
    assert c[0] == 't' && c[1] == 'r' && c[2] == 'u' && c[3] == 'e';
  }

  lemma FoldFalseTitle()
    ensures CaseFold("False") == "false"
  {
    var c := CaseFold("False");
    assert c[0] == 'f' && c[1] == 'a' && c[2] == 'l' && c[3] == 's' && c[4] == 'e';
  }

  /** Without `include_bool_str` the boolean words are not numbers. */
  lemma BoolWordsWithoutFlag()
    ensures ConvertInt(StrValue("true"), false) == None
  {
    WordNotNumber("true");
  }

  /** With it they are 1 and 0 whatever their case: `"TRUE"` is 1 ... */
  lemma TrueWordWithFlag()
    ensures ConvertInt(StrValue("TRUE"), true) == Some(1)
  {
    FoldTrueUpper();
    FlaggedWord("TRUE");
  }

  /** ... and `"False"` is 0. */
  lemma FalseWordWithFlag()
    ensures ConvertInt(StrValue("False"), true) == Some(0)
  {
    FoldFalseTitle();
    FlaggedWord("False");
  }

  // -----------------------------------------------------------------------
  // StrAlnumConverter
  // -----------------------------------------------------------------------

  /** `re.sub("[^A-Za-z0-9]+", "", s)`: `s` without every character outside `[A-Za-z0-9]`. */
  function KeepAlnum(s: string): (r: string)
    ensures |r| <= |s| && AllAsciiAlnum(r)
    ensures AllAsciiAlnum(s) ==> r == s
  {
    if s == [] then []
    else
      var rest := KeepAlnum(s[1..]);
      if IsAsciiAlnum(s[0]) then [s[0]] + rest else rest
  }

  /** Deleting characters piecewise: the filter distributes over concatenation. */
  lemma {:induction false} KeepAlnumConcat(a: string, b: string)
    ensures KeepAlnum(a + b) == KeepAlnum(a) + KeepAlnum(b)
  {
    if a == [] {
      assert a + b == b;
    } else {
      assert (a + b)[0] == a[0] && (a + b)[1..] == a[1..] + b;
      KeepAlnumConcat(a[1..], b);
    }
  }

  /** Whitespace is outside `[A-Za-z0-9]`, so a string of it filters to nothing. */
  lemma {:induction false} KeepAlnumSpace(s: string)
    requires AllSpace(s)
    ensures KeepAlnum(s) == []
  {
    if s != [] {
      KeepAlnumSpace(s[1..]);
    }
  }

  /** Stripping first makes no difference to the filter. */
  lemma KeepAlnumStrip(s: string)
    ensures KeepAlnum(Strip(s)) == KeepAlnum(s)
  {
    var k := StripDecompose(s);
    var t := Strip(s);
    var pre, post := s[..k], s[k + |t|..];
    assert s == pre + t + post;
    KeepAlnumConcat(pre + t, post);
    KeepAlnumConcat(pre, t);
    KeepAlnumSpace(pre);
    KeepAlnumSpace(post);
  }

  /** `StrAlnumConverter(value).value`. */
  function ConvertAlnum(value: Value): (r: Option<string>)
    ensures r.Some? <==> value.StrValue?
    ensures r.Some? ==> AllAsciiAlnum(r.value) && r.value == KeepAlnum(value.s)
  {
    if value.StrValue? then
      KeepAlnumStrip(value.s);
      Some(KeepAlnum(Strip(value.s)))
    else
      None
  }

  /** Converting a converted value changes nothing. */
  lemma ConvertAlnumIdempotent(value: Value)
    requires value.StrValue?
    ensures ConvertAlnum(StrValue(ConvertAlnum(value).value)) == ConvertAlnum(value)
  {
  }

  /** The cases of test_converter.py. */
  lemma ConvertAlnumExamples()
    ensures ConvertAlnum(StrValue(" a ")) == Some("a")
    ensures ConvertAlnum(StrValue("&a|")) == Some("a")
    ensures ConvertAlnum(StrValue("a\\;")) == Some("a")
    ensures ConvertAlnum(OtherValue("list")) == None
  {
    assert KeepAlnum(" a ") == "a" by {
      assert " a "[1..] == "a " && "a "[1..] == " " && " "[1..] == [];
    }
    assert KeepAlnum("&a|") == "a" by {
      assert "&a|"[1..] == "a|" && "a|"[1..] == "|" && "|"[1..] == [];
    }
    assert KeepAlnum("a\\;") == "a" by {
      assert "a\\;"[1..] == "\\;" && "\\;"[1..] == ";" && ";"[1..] == [];
    }
  }

  // -----------------------------------------------------------------------
  // The converter objects
  // -----------------------------------------------------------------------

  class IntConverter {
    const includeBoolStr: bool
    var value: Option<int>

    /** `IntConverter(value, include_bool_str=...)`: converts through the setter. */
    constructor (input: Value, includeBoolStr: bool)
      ensures this.includeBoolStr == includeBoolStr
      ensures value == ConvertInt(input, includeBoolStr)
    {
      this.includeBoolStr := includeBoolStr;
      value := ConvertInt(input, includeBoolStr);
    }

    /** The `value` setter: reset to `None`, then store the conversion if there is one. */
    method SetValue(input: Value)
      modifies this`value
      ensures value == ConvertInt(input, includeBoolStr)
    {
      value := None;
      var converted := ConvertInt(input, includeBoolStr);
      if converted.Some? {
        value := converted;
      }
    }
  }

  class StrAlnumConverter {
    var value: Option<string>

    constructor (input: Value)
      ensures value == ConvertAlnum(input)
    {
      value := ConvertAlnum(input);
    }

    /** The `value` setter. */
    method SetValue(input: Value)
      modifies this`value
      ensures value == ConvertAlnum(input)
    {
      if input.StrValue? {
        value := Some(KeepAlnum(Strip(input.s)));
      } else {
        value := None;
      }
    }
  }
}
