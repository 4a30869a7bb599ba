/**
 * Decimal parsing, standing in for JavaScript's `Number(s)` and
 * `parseFloat(s)` on plain decimal text (no exponents, no hexadecimal,
 * no `Infinity`). Values are exact `real`s; `None` plays the part of `NaN`.
 */
module Numbers {
  import opened Text
  import opened Wrappers

  function Pow10(n: nat): (r: nat)
    ensures r >= 1
  {
    if n == 0 then 1 else 10 * Pow10(n - 1)
  }

  function DigitValue(c: char): (r: nat)
    requires IsDigit(c)
    ensures r < 10
  {
    c as int - '0' as int
  }

  /** The value of a string of decimal digits, most significant first. */
  function DigitsValue(s: string): (r: nat)
    requires AllDigits(s)
    ensures r < Pow10(|s|)
  {
    if s == [] then 0 else DigitsValue(s[..|s| - 1]) * 10 + DigitValue(s[|s| - 1])
  }

  /** The value of the literal `whole.frac`. */
  function DecimalValue(whole: string, frac: string): (v: real)
    requires AllDigits(whole) && AllDigits(frac)
    ensures v >= DigitsValue(whole) as real >= 0.0
  {
    var d := Pow10(|frac|) as real;
    var x := DigitsValue(frac) as real;
    assert x / d >= 0.0 by { assert d > 0.0 && x >= 0.0; }
    DigitsValue(whole) as real + x / d
  }

  /** The number of digits `s` starts with. */
  function LeadingDigits(s: string): (k: nat)
    ensures k <= |s| && AllDigits(s[..k]) && (k == |s| || !IsDigit(s[k]))
  {
    if s != [] && IsDigit(s[0]) then
      var k := 1 + LeadingDigits(s[1..]);
      assert s[..k] == [s[0]] + s[1..][..k - 1];
      k
    else 0
  }

  /** Digits, or digits and a point and digits, or a point and digits: `\d+(\.\d*)?|\.\d+`. */
  predicate IsUnsignedLiteral(s: string)
  {
    (|s| > 0 && AllDigits(s)) ||
    (|s| >= 2 && exists i | 0 <= i < |s| :: s[i] == '.' && AllDigits(s[..i]) && AllDigits(s[i + 1..]))
  }

  /** A point after a run of leading digits sits right where that run ends. */
  lemma PointEndsLeadingDigits(s: string, i: nat)
    requires i < |s| && s[i] == '.' && AllDigits(s[..i])
    ensures LeadingDigits(s) == i
  {
  }

  lemma {:induction false} LeadingDigitsOfDigits(s: string)
    requires AllDigits(s)
    ensures LeadingDigits(s) == |s|
  {
    if s != [] {
      assert IsDigit(s[0]);
      LeadingDigitsOfDigits(s[1..]);
    }
  }

  /** The whole of `s` read as an unsigned decimal literal. */
  function ParseUnsigned(s: string): (r: Option<real>)
    ensures r.Some? <==> IsUnsignedLiteral(s)
    ensures r.Some? ==> r.value >= 0.0
  {
    var k := LeadingDigits(s);
    UnsignedLiteralShape(s);
    if k == |s| then
      if k == 0 then None else Some(DigitsValue(s) as real)
    else if s[k] != '.' || !AllDigits(s[k + 1..]) || |s| < 2 then
      None
    else
      var f := s[k + 1..];
      Some(DecimalValue(s[..k], f))
  }

  /** A literal is its leading digits, then either nothing or a point and digits. */
  lemma UnsignedLiteralShape(s: string)
    ensures var k := LeadingDigits(s);
      IsUnsignedLiteral(s) <==>
        (k == |s| && k > 0) || (k < |s| && s[k] == '.' && AllDigits(s[k + 1..]) && |s| >= 2)
  {
    var k := LeadingDigits(s);
    if k == |s| && k > 0 {
      assert s[..k] == s;
    } else if k < |s| && s[k] == '.' && AllDigits(s[k + 1..]) && |s| >= 2 {
      assert s[k] == '.' && AllDigits(s[..k]) && AllDigits(s[k + 1..]);
    } else if IsUnsignedLiteral(s) {
      if |s| > 0 && AllDigits(s) {
        LeadingDigitsOfDigits(s);
      } else {
        var i :| 0 <= i < |s| && s[i] == '.' && AllDigits(s[..i]) && AllDigits(s[i + 1..]);
        PointEndsLeadingDigits(s, i);
      }
    }
  }

  /** `Number(s)`: surrounding whitespace is ignored, blank text is 0, otherwise an optionally signed literal. */
  function ParseNumber(s: string): (r: Option<real>)
    ensures Trim(s) == [] ==> r == Some(0.0)
  {
    var t := Trim(s);
    if t == [] then Some(0.0)
    else if t[0] == '-' then
      match ParseUnsigned(t[1..])
      case Some(v) => Some(-v)
      case None => None
    else if t[0] == '+' then ParseUnsigned(t[1..])
    else ParseUnsigned(t)
  }

  /** The longest prefix of `u` of the form `\d*(\.\d*)?` that holds a digit, with its value. */
  function ParseUnsignedPrefix(u: string): (r: Option<real>)
    ensures r.Some? <==> (LeadingDigits(u) > 0 || (|u| > 1 && u[0] == '.' && IsDigit(u[1])))
    ensures r.Some? ==> r.value >= 0.0
  {
    var k := LeadingDigits(u);
    var m := if k < |u| && u[k] == '.' then LeadingDigits(u[k + 1..]) else 0;
    if k + m == 0 then
      assert |u| > 1 && u[0] == '.' ==> LeadingDigits(u[1..]) == 0 ==> !IsDigit(u[1]) by {
        if |u| > 1 && u[0] == '.' && LeadingDigits(u[1..]) == 0 { assert u[1..][0] == u[1]; }
      }
      None
    else
      var f := if m == 0 then [] else u[k + 1..k + 1 + m];
      assert AllDigits(f) by { if m > 0 { assert f == u[k + 1..][..m]; } }
      Some(DecimalValue(u[..k], f))
  }

  /** `parseFloat(s)`: leading whitespace skipped, then an optional sign and the longest numeric prefix. */
  function ParseFloat(s: string): (r: Option<real>)
    ensures TrimStart(s) == [] ==> r == None
  {
    var t := TrimStart(s);
    if t == [] then None
    else if t[0] == '-' then
      match ParseUnsignedPrefix(t[1..])
      case Some(v) => Some(-v)
      case None => None
    else if t[0] == '+' then ParseUnsignedPrefix(t[1..])
    else ParseUnsignedPrefix(t)
  }

  /** The decimal numeral of `n`, without leading zeros. */
  function Numeral(n: nat): (s: string)
    ensures |s| > 0 && AllDigits(s)
  {
    var d := [('0' as int + n % 10) as char];
    if n < 10 then d else Numeral(n / 10) + d
  }

  /** Reading a numeral back gives the number it was written from. */
  lemma {:induction false} NumeralValue(n: nat)
    ensures DigitsValue(Numeral(n)) == n
  {
    var s := Numeral(n);
    assert s[|s| - 1] == ('0' as int + n % 10) as char;
    if n >= 10 {
      NumeralValue(n / 10);
      assert s[..|s| - 1] == Numeral(n / 10);
    }
  }

  /** A numeral is an unsigned literal denoting its number. */
  lemma ParseUnsignedOfNumeral(n: nat)
    ensures ParseUnsigned(Numeral(n)) == Some(n as real)
  {
    NumeralValue(n);
    LeadingDigitsOfDigits(Numeral(n));
  }

  /** Text with no whitespace at either end is its own trimming. */
  lemma NumeralTrimmed(s: string)
    requires |s| > 0 && IsDigit(s[|s| - 1]) && !IsSpace(s[0])
    ensures Trim(s) == s
  {
    TrimOfTrimmed(s);
  }

  /** Trimmed text that starts with a digit is read as an unsigned literal. */
  lemma UnsignedWithoutSign(s: string)
    requires s != [] && Trim(s) == s && IsDigit(s[0])
    ensures ParseNumber(s) == ParseUnsigned(s)
  {
  }

  /** `Number` reads a numeral as the number it denotes. */
  lemma ParseNumberOfNumeral(n: nat)
    ensures ParseNumber(Numeral(n)) == Some(n as real)
  {
    var s := Numeral(n);
    assert IsDigit(s[0]) && IsDigit(s[|s| - 1]);
    NumeralTrimmed(s);
    UnsignedWithoutSign(s);
    ParseUnsignedOfNumeral(n);
  }

  /** `Number` reads a minus sign and a numeral as the negated number. */
  lemma ParseNumberOfNegatedNumeral(n: nat)
    ensures ParseNumber("-" + Numeral(n)) == Some(-(n as real))
  {
    var u := Numeral(n);
    var s := "-" + u;
    assert IsDigit(u[|u| - 1]) && s[|s| - 1] == u[|u| - 1];
    NumeralTrimmed(s);
    assert s[1..] == u;
    ParseUnsignedOfNumeral(n);
  }

  /** Digits followed by text that does not start with a digit: the run of leading digits is exactly them. */
  lemma {:induction false} LeadingDigitsOfPrefix(u: string, t: string)
    requires AllDigits(u) && (t == [] || !IsDigit(t[0]))
    ensures LeadingDigits(u + t) == |u|
  {
    if u == [] {
      assert u + t == t;
    } else {
      assert (u + t)[0] == u[0] && IsDigit(u[0]);
      assert (u + t)[1..] == u[1..] + t;
      LeadingDigitsOfPrefix(u[1..], t);
    }
  }

  /** A run of digits not followed by a point is read as a whole number. */
  lemma UnsignedPrefixWhole(s: string)
    requires LeadingDigits(s) > 0
    requires LeadingDigits(s) == |s| || s[LeadingDigits(s)] != '.'
    ensures ParseUnsignedPrefix(s) == Some(DigitsValue(s[..LeadingDigits(s)]) as real)
  {
    var k := LeadingDigits(s);
    assert DecimalValue(s[..k], []) == DigitsValue(s[..k]) as real by {
      assert Pow10(0) == 1 && DigitsValue([]) == 0;
    }
  }

  /** Digits with no further digit or point after them are read as a whole number. */
  lemma UnsignedPrefixOfDigits(u: string, t: string)
    requires u != [] && AllDigits(u) && (t == [] || (!IsDigit(t[0]) && t[0] != '.'))
    ensures ParseUnsignedPrefix(u + t) == Some(DigitsValue(u) as real)
  {
    var s := u + t;
    LeadingDigitsOfPrefix(u, t);
    assert |u| < |s| ==> s[|u|] == t[0];
    assert s[..|u|] == u;
    UnsignedPrefixWhole(s);
  }

  /** Text that starts with a digit has no blank or sign for `parseFloat` to skip. */
  lemma ParseFloatFromDigit(s: string)
    requires s != [] && IsDigit(s[0])
    ensures ParseFloat(s) == ParseUnsignedPrefix(s)
  {
    assert !IsSpace(s[0]) && s[0] != '-' && s[0] != '+';
    assert TrimStart(s) == s;
  }

  /** `parseFloat` reads a numeral at the front of the text and ignores what follows it,
      as long as that does not continue the number (a digit or a point). */
  lemma ParseFloatOfNumeralPrefix(n: nat, t: string)
    requires t == [] || (!IsDigit(t[0]) && t[0] != '.')
    ensures ParseFloat(Numeral(n) + t) == Some(n as real)
  {
    var u := Numeral(n);
    assert (u + t)[0] == u[0];
    ParseFloatFromDigit(u + t);
    UnsignedPrefixOfDigits(u, t);
    NumeralValue(n);
  }

  /** `parseFloat` reads a numeral as the number it denotes. */
  lemma ParseFloatOfNumeral(n: nat)
    ensures ParseFloat(Numeral(n)) == Some(n as real)
  {
    ParseFloatOfNumeralPrefix(n, []);
    assert Numeral(n) + [] == Numeral(n);
  }
}
