/**
 * Numbers as both runtimes read and print them.
 *
 * A number is a `Decimal`: an integer mantissa and a count of decimal places,
 * so that every literal the parsers accept has an exact value and products
 * such as `height * 0.3048 * 1.5` stay exact. `None` stands for NaN.
 *
 * One scanner recognises the decimal-literal grammar shared by TypeScript and
 * Python (`[+-] digits [. digits] [(e|E) [+-] digits]`, at least one mantissa
 * digit); the parsers differ only in what they do around it:
 *   - `ParseFloat` (TypeScript `parseFloat`): the longest literal at the start,
 *     after leading whitespace;
 *   - `JsNumber` (TypeScript `Number(s)`): the whole trimmed text, and the empty
 *     text is 0;
 *   - `PyFloat` (Python `float(s)`): the whole stripped text, nothing else;
 *   - `ParseInt` (TypeScript `parseInt(s, 10)`): sign and leading digits.
 */
module Numbers {
  import opened Text

  function Pow10(n: nat): (r: nat)
    ensures r >= 1
  {
    if n == 0 then 1 else 10 * Pow10(n - 1)
  }

  lemma {:induction false} Pow10Add(a: nat, b: nat)
    ensures Pow10(a + b) == Pow10(a) * Pow10(b)
  {
    if a > 0 {
      Pow10Add(a - 1, b);
    }
  }

  /** The number `mant / 10^scale`, one decimal place at a time. */
  datatype Decimal = Decimal(mant: int, scale: nat) {
    function Value(): real
      decreases scale
    {
      if scale == 0 then mant as real else Decimal(mant, scale - 1).Value() / 10.0
    }
  }

  /** `Value` is the quotient of the mantissa by a power of ten. */
  lemma {:induction false} ValueQuotient(m: int, k: nat)
    ensures Decimal(m, k).Value() == m as real / Pow10(k) as real
  {
    if k > 0 {
      ValueQuotient(m, k - 1);
      var p := Pow10(k - 1) as real;
      assert Pow10(k) as real == p * 10.0;
      assert (m as real / p) / 10.0 == m as real / (p * 10.0);
    }
  }

  /** A decimal with no places is its mantissa. */
  lemma WholeValue(m: int)
    ensures Decimal(m, 0).Value() == m as real
  {
  }

  /** `m * 10^e`, one factor of ten at a time. */
  function Shift(m: int, e: nat): (r: int)
    ensures m >= 0 ==> r >= 0
  {
    if e == 0 then m else Shift(m, e - 1) * 10
  }

  function FromInt(i: int): (d: Decimal)
    ensures d.Value() == i as real
  {
    Decimal(i, 0)
  }

  /** The decimal `d * k`, exactly. */
  function Times(d: Decimal, k: int): Decimal {
    Decimal(d.mant * k, d.scale)
  }

  // --------------------------------------------------------------- digits

  predicate IsDigit(c: char) {
    '0' <= c <= '9'
  }

  predicate AllDigits(s: string) {
    forall i :: 0 <= i < |s| ==> IsDigit(s[i])
  }

  function DigitVal(c: char): nat
    requires IsDigit(c)
  {
    c as int - '0' as int
  }

  function DigitChar(n: nat): (c: char)
    requires n < 10
    ensures IsDigit(c) && DigitVal(c) == n
  {
    ('0' as int + n) as char
  }

  /** The length of the longest run of digits at the start of `s`. */
  function DigitRun(s: string): (n: nat)
    ensures n <= |s| && AllDigits(s[..n])
    ensures n < |s| ==> !IsDigit(s[n])
  {
    if s == [] || !IsDigit(s[0]) then 0
    else
      var n := 1 + DigitRun(s[1..]);
      assert s[..n] == [s[0]] + s[1..][..n - 1];
      n
  }

  /** The value of a run of decimal digits. */
  function DigitsValue(s: string): nat
    requires AllDigits(s)
  {
    if s == [] then 0 else DigitsValue(s[..|s| - 1]) * 10 + DigitVal(s[|s| - 1])
  }

  /** The decimal digits of `n`, without leading zeros ("0" for zero). */
  function DigitsOf(n: nat): (s: string)
    ensures |s| >= 1 && AllDigits(s)
  {
    if n < 10 then [DigitChar(n)] else DigitsOf(n / 10) + [DigitChar(n % 10)]
  }

  /** Reading back the digits of `n` gives `n`. */
  lemma {:induction false} DigitsOfValue(n: nat)
    ensures DigitsValue(DigitsOf(n)) == n
  {
    if n >= 10 {
      var s := DigitsOf(n);
      assert s[..|s| - 1] == DigitsOf(n / 10);
      DigitsOfValue(n / 10);
    }
  }

  /** `String(i)` for an integer: an optional minus sign and the digits. */
  function IntText(i: int): string {
    if i < 0 then "-" + DigitsOf(-i) else DigitsOf(i)
  }

  // -------------------------------------------------------------- scanner

  datatype Scan = Scan(value: Decimal, len: nat)

  /** `sign * mant * 10^exp` as a decimal. */
  function MakeDecimal(neg: bool, mant: nat, exp: int): Decimal {
    var m: int := if neg then -(mant as int) else mant;
    if exp >= 0 then Decimal(Shift(m, exp), 0) else Decimal(m, -exp)
  }

  /**
   * The exponent part `(e|E) [+-] digits` at the start of `u`, if complete:
   * its value and its length; `(0, 0)` when there is none.
   */
  function ScanExponent(u: string): (r: (int, nat))
    ensures r.1 <= |u|
  {
    if |u| >= 1 && (u[0] == 'e' || u[0] == 'E') then
      var sl := if |u| >= 2 && (u[1] == '+' || u[1] == '-') then 1 else 0;
      var k := DigitRun(u[1 + sl..]);
      if k == 0 then (0, 0)
      else
        var v: int := DigitsValue(u[1 + sl..][..k]);
        (if sl == 1 && u[1] == '-' then -v else v, 1 + sl + k)
    else (0, 0)
  }

  /** The unsigned part `digits [. digits]` of a literal: its digits, places and length. */
  datatype Mantissa = Mantissa(digits: string, places: nat, len: nat)

  function ScanMantissa(t: string): (r: Option<Mantissa>)
    ensures r.Some? ==> 0 < r.value.len <= |t| && AllDigits(r.value.digits)
  {
    var n1 := DigitRun(t);
    var hasDot := n1 < |t| && t[n1] == '.';
    var n2 := if hasDot then DigitRun(t[n1 + 1..]) else 0;
    if n1 + n2 == 0 then None
    else if hasDot then Some(Mantissa(t[..n1] + t[n1 + 1..][..n2], n2, n1 + 1 + n2))
    else Some(Mantissa(t[..n1], 0, n1))
  }

  /** A literal whose sign (if any) took `signLen` characters and whose rest starts `t`. */
  function ScanSigned(neg: bool, signLen: nat, t: string): (r: Option<Scan>)
    ensures r.Some? ==> signLen < r.value.len <= signLen + |t|
  {
    match ScanMantissa(t)
    case None => None
    case Some(mt) =>
      var exp := ScanExponent(t[mt.len..]);
      Some(Scan(MakeDecimal(neg, DigitsValue(mt.digits), exp.0 - mt.places), signLen + mt.len + exp.1))
  }

  /** The longest decimal literal at the very start of `s`, if there is one. */
  function ScanDecimal(s: string): (r: Option<Scan>)
    ensures r.Some? ==> 0 < r.value.len <= |s|
  {
    var signLen := if |s| > 0 && (s[0] == '+' || s[0] == '-') then 1 else 0;
    ScanSigned(|s| > 0 && s[0] == '-', signLen, s[signLen..])
  }

  /** The literal that makes up all of `t`, if `t` is exactly one literal. */
  function WholeLiteral(t: string): (r: Option<Decimal>)
    ensures r.Some? <==> ScanDecimal(t).Some? && ScanDecimal(t).value.len == |t|
    ensures r.Some? ==> r.value == ScanDecimal(t).value.value
  {
    match ScanDecimal(t)
    case Some(sc) => if sc.len == |t| then Some(sc.value) else None
    case None => None
  }

  /** TypeScript `parseFloat(s)`; `None` is NaN. */
  function ParseFloat(s: string): (r: Option<Decimal>)
    ensures r.Some? <==> ScanDecimal(TrimStart(s)).Some?
  {
    match ScanDecimal(TrimStart(s))
    case Some(sc) => Some(sc.value)
    case None => None
  }

  /** TypeScript `Number(s)` for a string; `None` is NaN. */
  function JsNumber(s: string): (r: Option<Decimal>)
    ensures Strip(s) == "" ==> r == Some(Decimal(0, 0))
    ensures Strip(s) != "" ==> r == WholeLiteral(Strip(s))
  {
    var t := Strip(s);
    if t == "" then Some(Decimal(0, 0)) else WholeLiteral(t)
  }

  /** Python `float(s)` for a string; `None` is the `ValueError`. */
  function PyFloat(s: string): (r: Option<Decimal>)
    ensures r.Some? ==> Strip(s) != ""
  {
    WholeLiteral(Strip(s))
  }

  /** TypeScript `parseInt(s, 10)`; `None` is NaN. */
  function ParseInt(s: string): Option<int> {
    var t := TrimStart(s);
    var sl := if |t| > 0 && (t[0] == '+' || t[0] == '-') then 1 else 0;
    var k := DigitRun(t[sl..]);
    if k == 0 then None
    else
      var v: int := DigitsValue(t[sl..][..k]);
      Some(if sl == 1 && t[0] == '-' then -v else v)
  }

  // ------------------------------------- parsers on text that goes on after

  /** Whitespace, or nothing: text that cannot continue a literal. */
  predicate StartsInert(y: string) {
    y == [] || IsSpace(y[0])
  }

  lemma {:induction false} DigitRunAppend(x: string, y: string)
    requires StartsInert(y) || DigitRun(x) < |x|
    ensures DigitRun(x + y) == DigitRun(x)
  {
    if x != [] && IsDigit(x[0]) {
      assert (x + y)[1..] == x[1..] + y;
      DigitRunAppend(x[1..], y);
    }
  }

  lemma ExponentDigitsAppend(t: string, y: string)
    requires StartsInert(y)
    ensures DigitRun(t + y) == DigitRun(t)
    ensures (t + y)[..DigitRun(t)] == t[..DigitRun(t)]
  {
    DigitRunAppend(t, y);
  }

  lemma ScanExponentAppend(u: string, y: string)
    requires StartsInert(y)
    ensures ScanExponent(u + y) == ScanExponent(u)
  {
    var w := u + y;
    if |u| >= 1 && (u[0] == 'e' || u[0] == 'E') {
      var sl := if |u| >= 2 && (u[1] == '+' || u[1] == '-') then 1 else 0;
      var sl' := if |w| >= 2 && (w[1] == '+' || w[1] == '-') then 1 else 0;
      assert sl' == sl;
      assert w[1 + sl..] == u[1 + sl..] + y;
      ExponentDigitsAppend(u[1 + sl..], y);
    } else if u == [] {
      assert w == y;
    }
  }

  lemma ScanMantissaAppend(t: string, y: string)
    requires StartsInert(y)
    ensures ScanMantissa(t + y) == ScanMantissa(t)
  {
    DigitRunAppend(t, y);
    var n1 := DigitRun(t);
    if n1 < |t| && t[n1] == '.' {
      PointAppend(t, y, n1);
    } else {
      NoPointAppend(t, y, n1);
    }
  }

  /** Where the pieces of a mantissa with a point sit once text is appended. */
  lemma PointAppendPieces(t: string, y: string, n1: nat, n2: nat)
    requires n1 < |t| && n2 <= |t| - n1 - 1
    ensures (t + y)[n1] == t[n1] && (t + y)[..n1] == t[..n1]
    ensures (t + y)[n1 + 1..] == t[n1 + 1..] + y && (t + y)[n1 + 1..][..n2] == t[n1 + 1..][..n2]
  {
    assert (t + y)[n1 + 1..] == t[n1 + 1..] + y;
  }

  /** Appending inert text after a mantissa with a point leaves it as it is. */
  lemma PointAppend(t: string, y: string, n1: nat)
    requires StartsInert(y) && n1 == DigitRun(t) && n1 == DigitRun(t + y)
    requires n1 < |t| && t[n1] == '.'
    ensures ScanMantissa(t + y) == ScanMantissa(t)
  {
    DigitRunAppend(t[n1 + 1..], y);
    var n2 := DigitRun(t[n1 + 1..]);
    PointAppendPieces(t, y, n1, n2);
    if n1 + n2 > 0 {
      MantissaWithPoint(t, n1, n2);
      MantissaWithPoint(t + y, n1, n2);
    }
  }

  /** Appending inert text after a mantissa without a point leaves it as it is. */
  lemma NoPointAppend(t: string, y: string, n1: nat)
    requires StartsInert(y) && n1 == DigitRun(t) && n1 == DigitRun(t + y)
    requires !(n1 < |t| && t[n1] == '.')
    ensures ScanMantissa(t + y) == ScanMantissa(t)
  {
    assert (t + y)[..n1] == t[..n1];
    if n1 < |t| {
      assert (t + y)[n1] == t[n1];
    } else if y != [] {
      assert (t + y)[n1] == y[0];
    }
  }

  lemma ScanSignedAppend(neg: bool, signLen: nat, t: string, y: string)
    requires StartsInert(y)
    ensures ScanSigned(neg, signLen, t + y) == ScanSigned(neg, signLen, t)
  {
    ScanMantissaAppend(t, y);
    if ScanMantissa(t).Some? {
      var mt := ScanMantissa(t).value;
      var ex := ScanExponent(t[mt.len..]);
      DropAppend(t, y, mt.len);
      ScanExponentAppend(t[mt.len..], y);
      SignedFromMantissa(neg, signLen, t, mt, ex);
      SignedFromMantissa(neg, signLen, t + y, mt, ex);
    }
  }

  /** A literal is its mantissa scaled by the exponent part that follows it. */
  lemma SignedFromMantissa(neg: bool, signLen: nat, t: string, mt: Mantissa, ex: (int, nat))
    requires ScanMantissa(t).Some? && ScanMantissa(t).value == mt
    requires mt.len <= |t| && ScanExponent(t[mt.len..]) == ex
    ensures ScanSigned(neg, signLen, t).Some?
    ensures ScanSigned(neg, signLen, t).value == Scan(MakeDecimal(neg, DigitsValue(mt.digits), ex.0 - mt.places), signLen + mt.len + ex.1)
  {
  }

  lemma DropAppend(t: string, y: string, k: nat)
    requires k <= |t|
    ensures (t + y)[k..] == t[k..] + y
  {
  }

  /** Whitespace after a literal does not change what the scanner reads. */
  lemma ScanAppendInert(x: string, y: string)
    requires StartsInert(y)
    ensures ScanDecimal(x + y) == ScanDecimal(x)
  {
    var s := x + y;
    if x == [] {
      assert s == y && s[0..] == y;
      ScanMantissaAppend([], y);
      assert [] + y == y;
    } else {
      var signLen := if (x[0] == '+' || x[0] == '-') then 1 else 0;
      assert s[0] == x[0];
      assert s[signLen..] == x[signLen..] + y;
      ScanSignedAppend(x[0] == '-', signLen, x[signLen..], y);
    }
  }

  /**
   * Where Python's `float` accepts a text, TypeScript's `parseFloat` reads the
   * same number from it.
   */
  lemma PyFloatAgreesWithParseFloat(s: string)
    requires PyFloat(s).Some?
    ensures ParseFloat(s) == PyFloat(s)
  {
    var rest := TrailingBlank(s);
    ScanAppendInert(Strip(s), rest);
  }

  /** The text with leading whitespace removed is the stripped text followed by whitespace. */
  lemma TrailingBlank(s: string) returns (rest: string)
    ensures TrimStart(s) == Strip(s) + rest && StartsInert(rest)
  {
    rest := TrimEndParts(TrimStart(s));
    if rest != [] {
      assert IsSpace(rest[0]);
    }
  }

  /** A text is its trimmed form followed by the whitespace `trimEnd` dropped. */
  lemma TrimEndParts(x: string) returns (rest: string)
    ensures x == TrimEnd(x) + rest && AllSpace(rest)
  {
    var r := TrimEnd(x);
    rest := x[|r|..];
    assert x == x[..|r|] + x[|r|..];
  }

  /**
   * Where `Number` reads a literal from a text that is not blank, `parseFloat`
   * reads the same number from it.
   */
  lemma JsNumberAgreesWithParseFloat(s: string)
    requires Strip(s) != "" && JsNumber(s).Some?
    ensures ParseFloat(s) == JsNumber(s)
  {
    PyFloatAgreesWithParseFloat(s);
  }

  lemma {:induction false} DigitRunThrough(d: string, y: string)
    requires AllDigits(d) && (y == [] || !IsDigit(y[0]))
    ensures DigitRun(d + y) == |d|
    decreases |d|
  {
    if d == [] {
      assert d + y == y;
    } else {
      assert (d + y)[1..] == d[1..] + y;
      DigitRunThrough(d[1..], y);
    }
  }

  /** A digit string followed by text that does not go on with digits or a point is a mantissa without places. */
  lemma MantissaOfDigits(d: string, y: string)
    requires d != [] && AllDigits(d)
    requires y == [] || !(IsDigit(y[0]) || y[0] == '.')
    ensures ScanMantissa(d + y).Some? && ScanMantissa(d + y).value == Mantissa(d, 0, |d|)
  {
    var s := d + y;
    DigitRunThrough(d, y);
    assert s[..|d|] == d;
    if y != [] {
      assert s[|d|] == y[0];
    }
  }

  /** Text that does not start with `e` or `E` has no exponent part. */
  lemma NoExponent(u: string)
    requires u == [] || !(u[0] == 'e' || u[0] == 'E')
    ensures ScanExponent(u) == (0, 0)
  {
  }

  /** Text that starts with a digit is scanned without a sign. */
  lemma UnsignedScan(s: string)
    requires s != [] && IsDigit(s[0])
    ensures ScanDecimal(s) == ScanSigned(false, 0, s)
  {
    assert s[0..] == s;
  }

  /**
   * Digits followed by text that cannot continue a literal scan as exactly
   * those digits.
   */
  lemma ScanLeadingDigits(d: string, y: string)
    requires d != [] && AllDigits(d)
    requires y == [] || !(IsDigit(y[0]) || y[0] == '.' || y[0] == 'e' || y[0] == 'E')
    ensures ScanDecimal(d + y).Some?
    ensures ScanDecimal(d + y).value == Scan(Decimal(DigitsValue(d), 0), |d|)
  {
    var s := d + y;
    assert s[0] == d[0];
    UnsignedScan(s);
    MantissaOfDigits(d, y);
    assert s[|d|..] == y;
    NoExponent(y);
    SignedFromMantissa(false, 0, s, Mantissa(d, 0, |d|), (0, 0));
  }

  /** `parseFloat` of digits followed by text that cannot continue a literal. */
  lemma ParseFloatDigits(d: string, y: string)
    requires d != [] && AllDigits(d)
    requires y == [] || !(IsDigit(y[0]) || y[0] == '.' || y[0] == 'e' || y[0] == 'E')
    ensures ParseFloat(d + y).Some? && ParseFloat(d + y).value == Decimal(DigitsValue(d), 0)
  {
    var s := d + y;
    assert !IsSpace(s[0]) by {
      assert s[0] == d[0];
    }
    ParseFloatNoSpace(s);
    ScanLeadingDigits(d, y);
  }

  /** Python `float` of a run of digits, and of digits followed by a letter. */
  lemma PyFloatDigits(d: string, y: string)
    requires d != [] && AllDigits(d)
    requires y == [] || !(IsDigit(y[0]) || y[0] == '.' || y[0] == 'e' || y[0] == 'E' || IsSpace(y[0]))
    requires y == [] || !IsSpace(y[|y| - 1])
    ensures y == [] ==> PyFloat(d + y).Some? && PyFloat(d + y).value == Decimal(DigitsValue(d), 0)
    ensures y != [] ==> PyFloat(d + y).None?
  {
    var s := d + y;
    assert s[0] == d[0] && s[|s| - 1] == if y == [] then d[|d| - 1] else y[|y| - 1];
    StripUnpadded(s);
    ScanLeadingDigits(d, y);
  }

  /** Python `float` of a run of digits. */
  lemma PyFloatWhole(d: string)
    requires d != [] && AllDigits(d)
    ensures PyFloat(d).Some? && PyFloat(d).value == Decimal(DigitsValue(d), 0)
  {
    PyFloatDigits(d, []);
    assert d + [] == d;
  }

  lemma ParseFloatNoSpace(s: string)
    requires s != [] && !IsSpace(s[0])
    ensures ParseFloat(s) == if ScanDecimal(s).Some? then Some(ScanDecimal(s).value.value) else None
  {
    assert TrimStart(s) == s;
  }

  /** `parseFloat` reads a leading number that `float` and `Number` reject. */
  lemma PrefixParsingDiffers()
    ensures ParseFloat("12abc").Some? && ParseFloat("12abc").value == Decimal(12, 0)
    ensures PyFloat("12abc").None?
    ensures JsNumber("12abc").None?
  {
    PrefixParsing("12abc");
  }

  lemma PrefixParsing(s: string)
    requires s == "12abc"
    ensures ParseFloat(s).Some? && ParseFloat(s).value == Decimal(12, 0)
    ensures PyFloat(s).None? && JsNumber(s).None?
  {
    StripUnpadded(s);
    assert "12" + "abc" == s;
    ScanLeadingDigits("12", "abc");
    assert DigitsValue("12") == 12 by {
      assert "12"[..1] == "1";
      assert "1"[..0] == "";
    }
  }

  /** `parseFloat` reads back the digits of a whole number. */
  lemma ParseFloatDigitsOf(n: nat)
    ensures ParseFloat(DigitsOf(n)).Some? && ParseFloat(DigitsOf(n)).value == Decimal(n, 0)
  {
    assert DigitsOf(n) + "" == DigitsOf(n);
    ParseFloatDigits(DigitsOf(n), "");
    DigitsOfValue(n);
  }

  /** A whole number prints as its digits. */
  lemma JsNumberTextWhole(n: nat)
    ensures JsNumberText(Decimal(n, 0)) == DigitsOf(n)
  {
  }

  /** Digits, a point and digits after it (at least one digit in all), followed by text that cannot continue them. */
  lemma ScanMantissaFraction(d: string, f: string, y: string)
    requires AllDigits(d) && AllDigits(f) && 0 < |d| + |f|
    requires y == [] || !IsDigit(y[0])
    ensures ScanMantissa(d + ['.'] + f + y).Some?
    ensures ScanMantissa(d + ['.'] + f + y).value == Mantissa(d + f, |f|, |d| + 1 + |f|)
  {
    var s := d + ['.'] + f + y;
    FractionPieces(d, f, y, s);
    DigitRunThrough(d, ['.'] + f + y);
    DigitRunThrough(f, y);
    MantissaWithPoint(s, |d|, |f|);
  }

  /** Where the pieces of `d + ['.'] + f + y` sit. */
  lemma FractionPieces(d: string, f: string, y: string, s: string)
    requires s == d + ['.'] + f + y
    ensures s == d + (['.'] + f + y)
    ensures |d| < |s| && s[|d|] == '.'
    ensures s[..|d|] == d && s[|d| + 1..] == f + y && (f + y)[..|f|] == f
  {
  }

  /** A run of `n1` digits, a point and a run of `n2` digits scan as one mantissa with `n2` places. */
  lemma MantissaWithPoint(t: string, n1: nat, n2: nat)
    requires n1 == DigitRun(t) && n1 < |t| && t[n1] == '.'
    requires n2 == DigitRun(t[n1 + 1..]) && 0 < n1 + n2
    ensures ScanMantissa(t).Some?
    ensures ScanMantissa(t).value == Mantissa(t[..n1] + t[n1 + 1..][..n2], n2, n1 + 1 + n2)
  {
  }

  /** Digits, a point and more digits make one literal with `|f|` places. */
  lemma ScanFraction(d: string, f: string)
    requires d != [] && AllDigits(d) && f != [] && AllDigits(f)
    ensures ScanDecimal(d + ['.'] + f).Some?
    ensures ScanDecimal(d + ['.'] + f).value == Scan(Decimal(DigitsValue(d + f), |f|), |d| + 1 + |f|)
  {
    var s := d + ['.'] + f;
    assert s == d + ['.'] + f + [];
    assert s[0] == d[0];
    UnsignedScan(s);
    ScanMantissaFraction(d, f, []);
    var mt := Mantissa(d + f, |f|, |d| + 1 + |f|);
    assert s[mt.len..] == [];
    NoExponent([]);
    SignedFromMantissa(false, 0, s, mt, (0, 0));
  }

  /** `Number` of such a literal, which has no surrounding whitespace. */
  lemma JsNumberFraction(d: string, f: string)
    requires d != [] && AllDigits(d) && f != [] && AllDigits(f)
    ensures JsNumber(d + ['.'] + f).Some? && JsNumber(d + ['.'] + f).value == Decimal(DigitsValue(d + f), |f|)
  {
    var s := d + ['.'] + f;
    StripUnpadded(s);
    ScanFraction(d, f);
  }

  /** Trailing zeros multiply the value of a digit string by a power of ten. */
  lemma {:induction false} TrailingZerosValue(d: string, z: string)
    requires AllDigits(d) && forall i :: 0 <= i < |z| ==> z[i] == '0'
    ensures AllDigits(d + z) && DigitsValue(d + z) == DigitsValue(d) * Pow10(|z|)
    decreases |z|
  {
    if z == [] {
      assert d + z == d;
    } else {
      var z' := z[..|z| - 1];
      TrailingZerosValue(d, z');
      assert (d + z)[..|d + z| - 1] == d + z';
    }
  }

  /** Scaling the mantissa and the places alike keeps the value. */
  lemma ScaledValue(m: int, k: nat)
    ensures Decimal(m * Pow10(k), k).Value() == m as real
  {
    ValueQuotient(m * Pow10(k), k);
    var p := Pow10(k) as real;
    assert (m * Pow10(k)) as real == m as real * p;
  }

  /** `Number("d.00…0")` is the whole number `d`. */
  lemma JsNumberZeroFraction(d: string, z: string)
    requires d != [] && AllDigits(d) && z != [] && forall i :: 0 <= i < |z| ==> z[i] == '0'
    ensures JsNumber(d + ['.'] + z).Some? && JsNumber(d + ['.'] + z).value.Value() == DigitsValue(d) as real
  {
    TrailingZerosValue(d, z);
    assert AllDigits(z) by {
      assert forall i :: 0 <= i < |z| ==> IsDigit(z[i]);
    }
    JsNumberFraction(d, z);
    ScaledValue(DigitsValue(d), |z|);
  }

  /** `Number` reads blank text as 0; `parseFloat` and `float` reject it. */
  lemma BlankTextDiffers()
    ensures JsNumber(" ") == Some(Decimal(0, 0))
    ensures ParseFloat(" ") == None
    ensures PyFloat(" ") == None
  {
    assert TrimStart(" ") == "";
  }

  // --------------------------------------------------- round trip of counts

  lemma {:induction false} AllDigitsRun(s: string)
    requires AllDigits(s)
    ensures DigitRun(s) == |s|
    decreases |s|
  {
    if s != [] {
      AllDigitsRun(s[1..]);
    }
  }

  /** An integer written with `String(i)` is read back by `parseInt(_, 10)`. */
  lemma IntTextRoundTrip(i: int)
    ensures ParseInt(IntText(i)) == Some(i)
  {
    var m := if i < 0 then -i else i;
    DigitsOfValue(m);
    if i < 0 {
      assert IntText(i)[1..] == DigitsOf(m);
      ParseIntNegativeDigits(IntText(i));
    } else {
      ParseIntDigits(DigitsOf(m));
    }
  }

  lemma ParseIntDigits(d: string)
    requires d != [] && AllDigits(d)
    ensures ParseInt(d).Some? && ParseInt(d).value == DigitsValue(d) as int
  {
    assert IsDigit(d[0]);
    assert TrimStart(d) == d;
    assert d[0..] == d && d[..|d|] == d;
    AllDigitsRun(d);
  }

  lemma ParseIntNegativeDigits(s: string)
    requires |s| >= 2 && s[0] == '-' && AllDigits(s[1..])
    ensures ParseInt(s).Some? && ParseInt(s).value == -(DigitsValue(s[1..]) as int)
  {
    assert TrimStart(s) == s;
    var d := s[1..];
    AllDigitsRun(d);
    assert d[..|d|] == d;
  }

  // ------------------------------------------------------- numbers to text

  /** The same number with trailing zero decimal places removed. */
  function Canonical(d: Decimal): (r: Decimal)
    ensures r.scale <= d.scale
    ensures r.scale == 0 || r.mant % 10 != 0
    decreases d.scale
  {
    if d.scale > 0 && d.mant % 10 == 0 then Canonical(Decimal(d.mant / 10, d.scale - 1)) else d
  }

  /** `n` in exactly `width` digits, padded with leading zeros. */
  function PadDigits(n: nat, width: nat): (s: string)
    ensures |s| == width && AllDigits(s)
    decreases width
  {
    if width == 0 then "" else PadDigits(n / 10, width - 1) + [DigitChar(n % 10)]
  }

  /**
   * Fixed-point text of a decimal with at least one place: the digits of the
   * magnitude, padded so that at least one digit precedes the point, with the
   * point inserted before the last `scale` digits.
   */
  function FixedText(d: Decimal): string
    requires d.scale > 0
  {
    var a := if d.mant < 0 then -d.mant else d.mant;
    var w := if |DigitsOf(a)| > d.scale then |DigitsOf(a)| else d.scale + 1;
    var full := PadDigits(a, w);
    (if d.mant < 0 then "-" else "") + full[..w - d.scale] + "." + full[w - d.scale..]
  }

  /** TypeScript `String(x)` for a number in fixed-point range. */
  function JsNumberText(d: Decimal): string {
    var c := Canonical(d);
    if c.scale == 0 then IntText(c.mant) else FixedText(c)
  }

  /** Python `str(x)` for a float in fixed-point range: whole numbers keep ".0". */
  function PyFloatText(d: Decimal): string {
    var c := Canonical(d);
    if c.scale == 0 then IntText(c.mant) + ".0" else FixedText(c)
  }

  /** Python `int(x)` for a float: truncation toward zero. */
  function Truncate(d: Decimal): int {
    var a := if d.mant < 0 then -d.mant else d.mant;
    var q := a / Pow10(d.scale);
    if d.mant < 0 then -q else q
  }

  /** Digits of `n` grouped in threes with commas (`f"{n:,}"`, `toLocaleString`). */
  function GroupedDigits(n: nat): (s: string)
    ensures |s| >= 1
  {
    if n < 1000 then DigitsOf(n) else GroupedDigits(n / 1000) + "," + PadDigits(n % 1000, 3)
  }

  /** An integer with thousands separators. */
  function GroupedText(i: int): string {
    if i < 0 then "-" + GroupedDigits(-i) else GroupedDigits(i)
  }

  /** The digits of a text, with every other character dropped. */
  function DigitsIn(s: string): (r: string)
    ensures AllDigits(r)
  {
    if s == [] then ""
    else if IsDigit(s[|s| - 1]) then DigitsIn(s[..|s| - 1]) + [s[|s| - 1]]
    else DigitsIn(s[..|s| - 1])
  }

  lemma {:induction false} DigitsInAppend(a: string, b: string)
    ensures DigitsIn(a + b) == DigitsIn(a) + DigitsIn(b)
    decreases |b|
  {
    if b != [] {
      var b' := b[..|b| - 1];
      assert (a + b)[..|a + b| - 1] == a + b';
      DigitsInAppend(a, b');
    } else {
      assert a + b == a;
    }
  }

  lemma {:induction false} DigitsInAllDigits(s: string)
    requires AllDigits(s)
    ensures DigitsIn(s) == s
  {
    if s != [] {
      DigitsInAllDigits(s[..|s| - 1]);
    }
  }

  lemma {:induction false} DigitsValueAppend(a: string, b: string)
    requires AllDigits(a) && AllDigits(b)
    ensures DigitsValue(a + b) == DigitsValue(a) * Pow10(|b|) + DigitsValue(b)
    decreases |b|
  {
    if b == [] {
      assert a + b == a;
    } else {
      var b' := b[..|b| - 1];
      assert (a + b)[..|a + b| - 1] == a + b';
      DigitsValueAppend(a, b');
      var x, p, y, c := DigitsValue(a), Pow10(|b'|), DigitsValue(b'), DigitVal(b[|b| - 1]);
      assert DigitsValue(a + b) == DigitsValue(a + b') * 10 + c;
      assert DigitsValue(b) == y * 10 + c;
      assert Pow10(|b|) == p * 10;
      ShiftDigit(x, p, y, c);
    }
  }

  lemma ShiftDigit(x: int, p: int, y: int, c: int)
    ensures (x * p + y) * 10 + c == x * (p * 10) + (y * 10 + c)
  {
    assert (x * p + y) * 10 == (x * p) * 10 + y * 10;
    assert x * (p * 10) == (x * p) * 10;
  }

  lemma {:induction false} PadDigitsValue(n: nat, width: nat)
    requires n < Pow10(width)
    ensures DigitsValue(PadDigits(n, width)) == n
    decreases width
  {
    if width > 0 {
      var s := PadDigits(n, width);
      assert s[..|s| - 1] == PadDigits(n / 10, width - 1);
      PadDigitsValue(n / 10, width - 1);
    }
  }

  /** Dropping the commas from grouped digits gives a numeral for the same value. */
  lemma {:induction false} GroupedDigitsValue(n: nat)
    ensures DigitsValue(DigitsIn(GroupedDigits(n))) == n
  {
    if n < 1000 {
      DigitsInAllDigits(DigitsOf(n));
      DigitsOfValue(n);
    } else {
      var hi := GroupedDigits(n / 1000);
      var lo := PadDigits(n % 1000, 3);
      DigitsInGroup(hi, lo);
      DigitsValueAppend(DigitsIn(hi), lo);
      GroupedDigitsValue(n / 1000);
      assert Pow10(3) == 1000;
      PadDigitsValue(n % 1000, 3);
    }
  }

  /** The digits of `hi,lo` are those of `hi` followed by the digit group `lo`. */
  lemma DigitsInGroup(hi: string, lo: string)
    requires AllDigits(lo)
    ensures DigitsIn(hi + "," + lo) == DigitsIn(hi) + lo
  {
    DigitsInAppend(hi + ",", lo);
    DigitsInAppend(hi, ",");
    assert DigitsIn(",") == "" by {
      assert ","[..0] == "";
    }
    assert hi + "," + "" == hi + ",";
    DigitsInAllDigits(lo);
  }

  // ----------------------------------------------------- stored counts

  /** A count as JavaScript holds it; `None` is NaN, which `parseInt` gives for text that is not a number. */
  type Count = Option<int>

  /** `count.toString()`. */
  function CountText(c: Count): string {
    if c.None? then "NaN" else IntText(c.value)
  }

  /** `count + 1`; NaN stays NaN. */
  function Inc(c: Count): Count {
    if c.None? then None else Some(c.value + 1)
  }

  /** A stored count reads back as itself. */
  lemma CountTextRoundTrip(c: Count)
    ensures CountText(c) != "" && ParseInt(CountText(c)) == c
  {
    if c.Some? {
      IntTextRoundTrip(c.value);
    } else {
      assert CountText(c)[0] == 'N';
      assert TrimStart(CountText(c)) == CountText(c);
    }
  }

  /** `localStorage.getItem(k)` is truthy: present and not empty. */
  predicate Stored(entry: Option<string>) {
    entry.Some? && entry.value != ""
  }
}
