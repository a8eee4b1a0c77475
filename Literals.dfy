/**
 * The grammar of the decimal literals that `parseFloat`, `Number` and
 * Python's `float` read: an optional sign, digits with an optional point
 * (at least one digit in all), and an optional exponent. A literal is a
 * value here; printing it and reading the print back are related by lemmas.
 */
module Literals {
  import opened Text
  import opened Numbers

  /** No sign, `+` or `-`. */
  predicate IsSign(s: string) {
    |s| <= 1 && (|s| == 1 ==> s[0] == '+' || s[0] == '-')
  }

  predicate Negative(sign: string) {
    |sign| == 1 && sign[0] == '-'
  }

  /** The exponent part of a literal: none, or `e`/`E`, a sign and digits. */
  datatype ExponentPart = Unscaled | Scaled(letter: char, sign: string, digits: string)

  /** A decimal literal as written. */
  datatype Literal = Literal(sign: string, whole: string, point: bool, fraction: string, exponent: ExponentPart)

  predicate ValidExponent(e: ExponentPart) {
    e.Scaled? ==> (e.letter == 'e' || e.letter == 'E') && IsSign(e.sign) && e.digits != [] && AllDigits(e.digits)
  }

  /** Digits before or after the point, fraction digits only after a point. */
  predicate Valid(l: Literal) {
    IsSign(l.sign) && AllDigits(l.whole) && AllDigits(l.fraction) &&
    (l.point || l.fraction == []) && (l.whole != [] || l.fraction != []) &&
    ValidExponent(l.exponent)
  }

  function ExponentText(e: ExponentPart): string {
    if e.Unscaled? then [] else [e.letter] + e.sign + e.digits
  }

  function MantissaText(l: Literal): string {
    l.whole + (if l.point then ['.'] else []) + l.fraction
  }

  /** The literal written out. */
  function LiteralText(l: Literal): string {
    l.sign + MantissaText(l) + ExponentText(l.exponent)
  }

  function ExponentValue(e: ExponentPart): int
    requires ValidExponent(e)
  {
    if e.Unscaled? then 0
    else if Negative(e.sign) then -(DigitsValue(e.digits) as int)
    else DigitsValue(e.digits)
  }

  /** The number a literal denotes: its digits, scaled by the exponent less the fraction digits, signed. */
  function LiteralValue(l: Literal): Decimal
    requires Valid(l)
  {
    MakeDecimal(Negative(l.sign), DigitsValue(l.whole + l.fraction), ExponentValue(l.exponent) - |l.fraction|)
  }

  /**
   * Text that cannot extend the literal `l` written before it: no digit
   * next, no point after a literal without one, no exponent after a
   * literal without one.
   */
  predicate Follows(l: Literal, y: string) {
    (y == [] || !IsDigit(y[0])) &&
    (l.exponent.Unscaled? ==> (l.point || y == [] || y[0] != '.') && ScanExponent(y) == (0, 0))
  }

  /** Text that starts with none of a digit, a point, `e` and `E` ends every literal. */
  lemma EndsEveryLiteral(l: Literal, y: string)
    requires y == [] || !(IsDigit(y[0]) || y[0] == '.' || y[0] == 'e' || y[0] == 'E')
    ensures Follows(l, y)
  {
    NoExponent(y);
  }

  // ------------------------------------------------------------- reading

  /** The mantissa of a literal scans as its digits, with its fraction digits as places. */
  lemma MantissaOf(l: Literal, z: string)
    requires Valid(l)
    requires z == [] || (!IsDigit(z[0]) && (l.point || z[0] != '.'))
    ensures ScanMantissa(MantissaText(l) + z).Some?
    ensures ScanMantissa(MantissaText(l) + z).value == Mantissa(l.whole + l.fraction, |l.fraction|, |MantissaText(l)|)
  {
    if l.point {
      ScanMantissaFraction(l.whole, l.fraction, z);
    } else {
      assert MantissaText(l) == l.whole && l.whole + l.fraction == l.whole;
      MantissaOfDigits(l.whole, z);
    }
  }

  /** An exponent part scans as its value and its length. */
  lemma ExponentOf(e: ExponentPart, y: string)
    requires ValidExponent(e) && e.Scaled?
    requires y == [] || !IsDigit(y[0])
    ensures ScanExponent(ExponentText(e) + y) == (ExponentValue(e), |ExponentText(e)|)
  {
    var u := ExponentText(e) + y;
    ExponentLayout(e, y);
    ExponentFromPieces(u, |e.sign|, |e.digits|);
  }

  /** Where the letter, the sign and the digits of an exponent part sit. */
  lemma ExponentLayout(e: ExponentPart, y: string)
    requires ValidExponent(e) && e.Scaled?
    requires y == [] || !IsDigit(y[0])
    ensures var u, sl := ExponentText(e) + y, |e.sign|;
      |u| >= 2 && (u[0] == 'e' || u[0] == 'E') &&
      (sl == if u[1] == '+' || u[1] == '-' then 1 else 0) &&
      (sl == 1 && u[1] == '-' <==> Negative(e.sign)) &&
      DigitRun(u[1 + sl..]) == |e.digits| && u[1 + sl..][..|e.digits|] == e.digits &&
      |ExponentText(e)| == 1 + sl + |e.digits|
  {
    PiecesAt(e.letter, e.sign, e.digits, y);
    DigitsThenRest(e.digits, y);
    assert IsDigit(e.digits[0]);
  }

  lemma PiecesAt(c: char, sg: string, d: string, y: string)
    requires |sg| <= 1 && d != []
    ensures var u := [c] + sg + d + y;
      |u| >= 2 && u[0] == c && u[1] == (if |sg| == 1 then sg[0] else d[0]) && u[1 + |sg|..] == d + y
  {
    var u := [c] + sg + d + y;
    assert u[1..] == sg + d + y;
  }

  lemma DigitsThenRest(d: string, y: string)
    requires AllDigits(d) && (y == [] || !IsDigit(y[0]))
    ensures DigitRun(d + y) == |d| && (d + y)[..|d|] == d
  {
    DigitRunThrough(d, y);
  }

  /** `ScanExponent` in terms of the sign length and the digit run it finds. */
  lemma ExponentFromPieces(u: string, sl: nat, k: nat)
    requires |u| >= 2 && (u[0] == 'e' || u[0] == 'E')
    requires sl == (if u[1] == '+' || u[1] == '-' then 1 else 0)
    requires k == DigitRun(u[1 + sl..]) && k > 0
    ensures ScanExponent(u) ==
      (if sl == 1 && u[1] == '-' then -(DigitsValue(u[1 + sl..][..k]) as int) else DigitsValue(u[1 + sl..][..k]), 1 + sl + k)
  {
  }

  /** The pieces of a printed literal followed by more text. */
  lemma TextPieces(l: Literal, y: string) returns (t: string)
    requires Valid(l)
    ensures t == MantissaText(l) + (ExponentText(l.exponent) + y)
    ensures LiteralText(l) + y == l.sign + t
    ensures t != [] && (IsDigit(t[0]) || t[0] == '.')
  {
    t := MantissaText(l) + (ExponentText(l.exponent) + y);
    var m, x := MantissaText(l), ExponentText(l.exponent);
    assert LiteralText(l) + y == l.sign + (m + (x + y));
    if l.whole != [] {
      assert t[0] == l.whole[0];
    } else {
      assert t[0] == '.';
    }
  }

  /** The scanner reads exactly a printed literal when the text after it cannot extend it. */
  lemma ScanLiteral(l: Literal, y: string)
    requires Valid(l) && Follows(l, y)
    ensures ScanDecimal(LiteralText(l) + y).Some?
    ensures ScanDecimal(LiteralText(l) + y).value == Scan(LiteralValue(l), |LiteralText(l)|)
  {
    var t := TextPieces(l, y);
    SignThenUnsigned(l.sign, t);
    SignedLiteral(l, y, t);
    LiteralPieces(l);
    ReadAs(ScanDecimal(LiteralText(l) + y), ScanSigned(Negative(l.sign), |l.sign|, t), LiteralValue(l),
           MakeDecimal(Negative(l.sign), DigitsValue(l.whole + l.fraction), ExponentValue(l.exponent) - |l.fraction|),
           |LiteralText(l)|, |l.sign| + |MantissaText(l)| + |ExponentText(l.exponent)|);
  }

  /** What follows the sign of a printed literal scans as its signed value. */
  lemma SignedLiteral(l: Literal, y: string, t: string)
    requires Valid(l) && Follows(l, y)
    requires t == MantissaText(l) + (ExponentText(l.exponent) + y)
    ensures ScanSigned(Negative(l.sign), |l.sign|, t).Some?
    ensures ScanSigned(Negative(l.sign), |l.sign|, t).value
         == Scan(MakeDecimal(Negative(l.sign), DigitsValue(l.whole + l.fraction), ExponentValue(l.exponent) - |l.fraction|),
                 |l.sign| + |MantissaText(l)| + |ExponentText(l.exponent)|)
  {
    SignedPieces(l, y, t, Negative(l.sign), |l.sign|, ExponentValue(l.exponent), |l.fraction|, |MantissaText(l)|,
                 |ExponentText(l.exponent)|);
  }

  /** `SignedLiteral` with the literal's measures named. */
  lemma SignedPieces(l: Literal, y: string, t: string, neg: bool, signLen: nat, e: int, places: nat, len: nat, k: nat)
    requires Valid(l) && Follows(l, y)
    requires t == MantissaText(l) + (ExponentText(l.exponent) + y)
    requires neg == Negative(l.sign) && signLen == |l.sign| && e == ExponentValue(l.exponent)
    requires places == |l.fraction| && len == |MantissaText(l)| && k == |ExponentText(l.exponent)|
    ensures ScanSigned(neg, signLen, t).Some?
    ensures ScanSigned(neg, signLen, t).value == Scan(MakeDecimal(neg, DigitsValue(l.whole + l.fraction), e - places), signLen + len + k)
  {
    var mt, ex := UnsignedParts(l, y, t);
    ScaledMantissa(neg, signLen, t, mt, ex, l.whole + l.fraction, places, len, e, k);
  }

  /** The value and length of a literal, piece by piece. */
  lemma LiteralPieces(l: Literal)
    requires Valid(l)
    ensures |LiteralText(l)| == |l.sign| + |MantissaText(l)| + |ExponentText(l.exponent)|
    ensures LiteralValue(l) == MakeDecimal(Negative(l.sign), DigitsValue(l.whole + l.fraction), ExponentValue(l.exponent) - |l.fraction|)
  {
  }

  /** Congruence step: equal scans of equal values and lengths. */
  lemma ReadAs(a: Option<Scan>, b: Option<Scan>, v: Decimal, w: Decimal, n: nat, k: nat)
    requires a == b && b.Some? && b.value == Scan(w, k) && v == w && n == k
    ensures a.Some? && a.value == Scan(v, n)
  {
  }

  /** A sign in front of text that starts with a digit or a point is read as the sign. */
  lemma SignThenUnsigned(sign: string, t: string)
    requires IsSign(sign) && t != [] && (IsDigit(t[0]) || t[0] == '.')
    ensures ScanDecimal(sign + t) == ScanSigned(Negative(sign), |sign|, t)
  {
    var s := sign + t;
    assert s[0] == if |sign| == 1 then sign[0] else t[0];
    assert s[|sign|..] == t;
  }

  /** The unsigned part of a printed literal scans as its mantissa, then its exponent part. */
  lemma UnsignedParts(l: Literal, y: string, t: string) returns (mt: Mantissa, ex: (int, nat))
    requires Valid(l) && Follows(l, y)
    requires t == MantissaText(l) + (ExponentText(l.exponent) + y)
    ensures mt == Mantissa(l.whole + l.fraction, |l.fraction|, |MantissaText(l)|)
    ensures ex == (ExponentValue(l.exponent), |ExponentText(l.exponent)|)
    ensures ScanMantissa(t).Some? && ScanMantissa(t).value == mt
    ensures mt.len <= |t| && ScanExponent(t[mt.len..]) == ex
  {
    var x := ExponentText(l.exponent);
    mt := Mantissa(l.whole + l.fraction, |l.fraction|, |MantissaText(l)|);
    ex := (ExponentValue(l.exponent), |x|);
    MantissaOf(l, x + y);
    assert t[mt.len..] == x + y;
    if l.exponent.Scaled? {
      ExponentOf(l.exponent, y);
    } else {
      assert x + y == y;
    }
  }

  /** The scanner's result from a mantissa and an exponent part, in terms of their pieces. */
  lemma ScaledMantissa(neg: bool, signLen: nat, t: string, mt: Mantissa, ex: (int, nat),
                       digits: string, places: nat, len: nat, e: int, k: nat)
    requires mt == Mantissa(digits, places, len) && ex == (e, k) && AllDigits(digits)
    requires ScanMantissa(t).Some? && ScanMantissa(t).value == mt
    requires mt.len <= |t| && ScanExponent(t[mt.len..]) == ex
    ensures ScanSigned(neg, signLen, t).Some?
    ensures ScanSigned(neg, signLen, t).value == Scan(MakeDecimal(neg, DigitsValue(digits), e - places), signLen + len + k)
  {
    SignedFromMantissa(neg, signLen, t, mt, ex);
  }

  /** The first and last characters of a printed literal are not whitespace. */
  lemma TextEnds(l: Literal)
    requires Valid(l)
    ensures LiteralText(l) != []
    ensures !IsSpace(LiteralText(l)[0]) && !IsSpace(LiteralText(l)[|LiteralText(l)| - 1])
  {
    var t := TextPieces(l, []);
    var p := LiteralText(l);
    assert p == l.sign + t by {
      assert p + [] == p;
    }
    var x := ExponentText(l.exponent);
    assert p == (l.sign + MantissaText(l)) + x;
    if x != [] {
      assert p[|p| - 1] == l.exponent.digits[|l.exponent.digits| - 1];
    } else if l.fraction != [] {
      assert p[|p| - 1] == l.fraction[|l.fraction| - 1];
    } else if l.point {
      assert p[|p| - 1] == '.';
    } else {
      assert p[|p| - 1] == l.whole[|l.whole| - 1];
    }
  }

  /** `parseFloat` skips leading whitespace and reads the literal there. */
  lemma ParseFloatReads(ws: string, l: Literal, y: string)
    requires AllSpace(ws) && Valid(l) && Follows(l, y)
    ensures ParseFloat(ws + LiteralText(l) + y).Some?
    ensures ParseFloat(ws + LiteralText(l) + y).value == LiteralValue(l)
  {
    var p := LiteralText(l) + y;
    TextEnds(l);
    assert p[0] == LiteralText(l)[0];
    assert ws + LiteralText(l) + y == ws + p;
    TrimStartBlank(ws, p);
    ScanLiteral(l, y);
  }

  /** A printed literal with whitespace around it is the stripped text. */
  lemma PaddedLiteral(ws: string, l: Literal, ws2: string)
    requires AllSpace(ws) && AllSpace(ws2) && Valid(l)
    ensures Strip(ws + LiteralText(l) + ws2) == LiteralText(l)
  {
    TextEnds(l);
    StripAround(ws, LiteralText(l), ws2);
  }

  /** A printed literal on its own is read whole, as its value. */
  lemma WholeLiteralReads(l: Literal)
    requires Valid(l)
    ensures WholeLiteral(LiteralText(l)).Some? && WholeLiteral(LiteralText(l)).value == LiteralValue(l)
  {
    EndsEveryLiteral(l, []);
    ScanLiteral(l, []);
    assert LiteralText(l) + [] == LiteralText(l);
  }

  /** Python's `float` reads a literal with whitespace around it as the literal's value. */
  lemma PyFloatReads(ws: string, l: Literal, ws2: string)
    requires AllSpace(ws) && AllSpace(ws2) && Valid(l)
    ensures PyFloat(ws + LiteralText(l) + ws2).Some?
    ensures PyFloat(ws + LiteralText(l) + ws2).value == LiteralValue(l)
  {
    PaddedLiteral(ws, l, ws2);
    WholeLiteralReads(l);
  }

  /** TypeScript's `Number` reads a literal with whitespace around it as the literal's value. */
  lemma JsNumberReads(ws: string, l: Literal, ws2: string)
    requires AllSpace(ws) && AllSpace(ws2) && Valid(l)
    ensures JsNumber(ws + LiteralText(l) + ws2).Some?
    ensures JsNumber(ws + LiteralText(l) + ws2).value == LiteralValue(l)
  {
    PaddedLiteral(ws, l, ws2);
    WholeLiteralReads(l);
    TextEnds(l);
  }

  // ------------------------------------------------------------ accepting

  /**
   * The pieces of the unsigned mantissa the scanner finds at the start of
   * `t`: they are written there, end where no digit (and, without a point,
   * no point) follows, and are not both empty when the scanner finds one.
   */
  lemma MantissaParts(t: string) returns (whole: string, point: bool, fraction: string, n: nat)
    ensures AllDigits(whole) && AllDigits(fraction) && (point || fraction == [])
    ensures ScanMantissa(t).Some? ==> whole != [] || fraction != []
    ensures n <= |t| && whole + (if point then ['.'] else []) + fraction == t[..n]
    ensures n == |t| || (!IsDigit(t[n]) && (point || t[n] != '.'))
  {
    var n1 := DigitRun(t);
    point := n1 < |t| && t[n1] == '.';
    whole := t[..n1];
    if point {
      var n2 := DigitRun(t[n1 + 1..]);
      fraction := t[n1 + 1..][..n2];
      n := n1 + 1 + n2;
      assert t[..n] == whole + ['.'] + fraction;
      assert n < |t| ==> t[n] == t[n1 + 1..][n2];
    } else {
      fraction := [];
      n := n1;
      assert whole + [] == whole;
    }
  }

  /**
   * The exponent part the scanner finds at the start of `u` and its length:
   * it is written there, and no digit follows it; without one, `u` starts
   * no exponent part at all.
   */
  lemma ExponentParts(u: string) returns (e: ExponentPart, k: nat)
    ensures ValidExponent(e) && k <= |u| && ExponentText(e) == u[..k]
    ensures e.Unscaled? ==> ScanExponent(u) == (0, 0)
    ensures e.Scaled? ==> k == |u| || !IsDigit(u[k])
  {
    if ScanExponent(u).1 == 0 {
      e, k := Unscaled, 0;
    } else {
      var sl := if |u| >= 2 && (u[1] == '+' || u[1] == '-') then 1 else 0;
      var kd := DigitRun(u[1 + sl..]);
      e := Scaled(u[0], u[1..1 + sl], u[1 + sl..][..kd]);
      k := 1 + sl + kd;
      assert u[..k] == [u[0]] + u[1..1 + sl] + u[1 + sl..][..kd];
      assert k < |u| ==> u[k] == u[1 + sl..][kd];
    }
  }

  /** A prefix of three lengths, as three consecutive slices. */
  lemma ThreeSlices(s: string, a: nat, b: nat, c: nat)
    requires a + b + c <= |s|
    ensures s[..a + b + c] == s[..a] + s[a..][..b] + s[a..][b..][..c]
  {
  }

  lemma DropThree(s: string, a: nat, b: nat, c: nat)
    requires a + b + c <= |s|
    ensures s[a + b + c..] == s[a..][b..][c..]
  {
  }

  /** A literal whose sign, mantissa and exponent part are consecutive slices of `s` is their prefix. */
  lemma TextFromFacts(s: string, l: Literal, a: nat, b: nat, c: nat)
    requires a + b + c <= |s| && l.sign == s[..a]
    requires MantissaText(l) == s[a..][..b] && ExponentText(l.exponent) == s[a..][b..][..c]
    ensures LiteralText(l) == s[..a + b + c]
  {
    ThreeSlices(s, a, b, c);
  }

  /** A literal ends where the scanner's exponent part ends, when no digit or point follows its mantissa. */
  lemma FollowsFrom(l: Literal, u: string, k: nat)
    requires k <= |u| && (l.exponent.Unscaled? ==> k == 0 && ScanExponent(u) == (0, 0))
    requires l.exponent.Unscaled? ==> u == [] || (!IsDigit(u[0]) && (l.point || u[0] != '.'))
    requires l.exponent.Scaled? ==> k == |u| || !IsDigit(u[k])
    ensures Follows(l, u[k..])
  {
    if l.exponent.Unscaled? {
      assert u[k..] == u;
    }
  }

  /** The scanner reads a literal at the start of `s`, followed by text that cannot extend it, as that literal. */
  lemma ReadFrom(s: string, l: Literal, m: nat)
    requires Valid(l) && m <= |s| && LiteralText(l) == s[..m] && Follows(l, s[m..])
    ensures ScanDecimal(s).Some? && LiteralText(l) == s[..ScanDecimal(s).value.len]
    ensures LiteralValue(l) == ScanDecimal(s).value.value
    ensures Follows(l, s[ScanDecimal(s).value.len..])
  {
    assert s == LiteralText(l) + s[m..];
    ScanLiteral(l, s[m..]);
  }

  /** The scanner finds a mantissa after the sign of whatever it reads. */
  lemma MantissaAfterSign(s: string, a: nat)
    requires ScanDecimal(s).Some? && a == (if |s| > 0 && (s[0] == '+' || s[0] == '-') then 1 else 0)
    ensures ScanMantissa(s[a..]).Some?
  {
  }

  /** The literal written at the start of `s`, where the scanner finds a mantissa after the sign. */
  lemma LiteralPrefix(s: string, a: nat) returns (l: Literal, m: nat)
    requires a == (if |s| > 0 && (s[0] == '+' || s[0] == '-') then 1 else 0) && ScanMantissa(s[a..]).Some?
    ensures Valid(l) && m <= |s| && LiteralText(l) == s[..m] && Follows(l, s[m..])
  {
    var t := s[a..];
    var whole, point, fraction, n := MantissaParts(t);
    var u := t[n..];
    var e, k := ExponentParts(u);
    l := Literal(s[..a], whole, point, fraction, e);
    m := a + n + k;
    TextFromFacts(s, l, a, n, k);
    FollowsAt(s, l, a, n, k);
  }

  /** `FollowsFrom` for an exponent part that starts `n` characters after position `a` of `s`. */
  lemma FollowsAt(s: string, l: Literal, a: nat, n: nat, k: nat)
    requires a + n <= |s| && k <= |s[a..][n..]|
    requires var u := s[a..][n..];
      (l.exponent.Unscaled? ==> k == 0 && ScanExponent(u) == (0, 0)) &&
      (l.exponent.Unscaled? ==> u == [] || (!IsDigit(u[0]) && (l.point || u[0] != '.'))) &&
      (l.exponent.Scaled? ==> k == |u| || !IsDigit(u[k]))
    ensures a + n + k <= |s| && Follows(l, s[a + n + k..])
  {
    DropThree(s, a, n, k);
    FollowsFrom(l, s[a..][n..], k);
  }

  /** Whatever the scanner reads is the text of a literal, and its value is that literal's. */
  lemma ReadLiteral(s: string) returns (l: Literal)
    requires ScanDecimal(s).Some?
    ensures Valid(l) && LiteralText(l) == s[..ScanDecimal(s).value.len]
    ensures LiteralValue(l) == ScanDecimal(s).value.value
    ensures Follows(l, s[ScanDecimal(s).value.len..])
  {
    var a := if |s| > 0 && (s[0] == '+' || s[0] == '-') then 1 else 0;
    MantissaAfterSign(s, a);
    var m;
    l, m := LiteralPrefix(s, a);
    ReadFrom(s, l, m);
  }

  /** A text that is exactly one literal is the text of that literal. */
  lemma ReadWhole(t: string) returns (l: Literal)
    requires WholeLiteral(t).Some?
    ensures Valid(l) && LiteralText(l) == t && LiteralValue(l) == WholeLiteral(t).value
  {
    l := ReadLiteral(t);
    assert t[..|t|] == t;
  }

  lemma SplitAt(s: string, m: nat)
    requires m <= |s|
    ensures s == s[..m] + s[m..]
  {
  }

  /** Whatever the scanner reads is a literal followed by text that cannot extend it. */
  lemma ReadPrefix(p: string) returns (l: Literal, y: string)
    requires ScanDecimal(p).Some?
    ensures Valid(l) && Follows(l, y) && p == LiteralText(l) + y
    ensures LiteralValue(l) == ScanDecimal(p).value.value
  {
    l := ReadLiteral(p);
    y := p[ScanDecimal(p).value.len..];
    SplitAt(p, ScanDecimal(p).value.len);
  }

  /** Whatever `parseFloat` reads is one literal after whitespace, followed by text that cannot extend it. */
  lemma ParseFloatAccepts(s: string) returns (ws: string, l: Literal, y: string)
    requires ParseFloat(s).Some?
    ensures AllSpace(ws) && Valid(l) && Follows(l, y) && s == ws + LiteralText(l) + y
    ensures ParseFloat(s).value == LiteralValue(l)
  {
    var p := TrimStart(s);
    ws := s[..|s| - |p|];
    SplitAt(s, |s| - |p|);
    l, y := ReadPrefix(p);
    AppendAssociative(ws, LiteralText(l), y);
  }

  /** Whatever Python's `float` accepts is one literal with whitespace around it, read as that literal's value. */
  lemma PyFloatAccepts(s: string) returns (ws: string, l: Literal, ws2: string)
    requires PyFloat(s).Some?
    ensures AllSpace(ws) && AllSpace(ws2) && Valid(l) && s == ws + LiteralText(l) + ws2
    ensures PyFloat(s).value == LiteralValue(l)
  {
    ws, ws2 := StripParts(s);
    l := ReadWhole(Strip(s));
  }

  /** Whatever TypeScript's `Number` reads from non-blank text is one literal with whitespace around it. */
  lemma JsNumberAccepts(s: string) returns (ws: string, l: Literal, ws2: string)
    requires JsNumber(s).Some? && Strip(s) != ""
    ensures AllSpace(ws) && AllSpace(ws2) && Valid(l) && s == ws + LiteralText(l) + ws2
    ensures JsNumber(s).value == LiteralValue(l)
  {
    ws, ws2 := StripParts(s);
    l := ReadWhole(Strip(s));
  }
}
