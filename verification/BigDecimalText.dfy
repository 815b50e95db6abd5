/** `BigDecimalText`: the text Java's BigDecimal prints a number by, which keeps its
    scale.  The text is read back with the same value and the same scale, and printing
    it again changes nothing. */
module BigDecimals {
  import opened Numerals
  import opened Sequences
  import opened Decimals
  import opened DecimalTexts
  import opened DecimalPrinters

  const MIN_INT := -0x8000_0000
  const MAX_INT := 0x7fff_ffff

  /** What `ParseBigDecimal` accepts: a scale in Java's int range. */
  ghost predicate BigAccepted(uni: UnicodeDigits, s: string) {
    Accepted(uni, s) && MIN_INT <= ScaleOf(uni, NumeralOf(uni, s)) <= MAX_INT
  }

  method ParseBigDecimal(uni: UnicodeDigits, s: string) returns (d: Decimal, ok: bool)
    ensures ok <==> BigAccepted(uni, s)
    ensures ok ==> d == DecimalOf(uni, NumeralOf(uni, s))
  {
    var scale;
    d, scale, ok := ParseDecimal(uni, s);
    ok := ok && MIN_INT <= scale <= MAX_INT;
  }

  // ---- The text of an unscaled number and a scale ----

  /** Digits without a leading zero, and "0" for zero, which has no sign. */
  predicate Canonical(neg: bool, coef: string) {
    IsDigits(coef) && coef != [] && (coef[0] == '0' ==> coef == "0" && !neg)
  }

  function AdjustedOf(coef: string, scale: int): int { -scale + |coef| - 1 }

  /** Plain notation while the scale is not negative and the first digit is not below 10^-6. */
  predicate InPlain(coef: string, scale: int) {
    scale == 0 || (scale > 0 && AdjustedOf(coef, scale) >= -6)
  }

  function BigText(neg: bool, coef: string, scale: int): string
    requires coef != []
  {
    SignText(neg) + (
      if scale == 0 then coef
      else if InPlain(coef, scale) then
        if |coef| > scale then coef[..|coef| - scale] + "." + coef[|coef| - scale..]
        else "0" + "." + (Zeros(scale - |coef|) + coef)
      else Spread(coef) + ExponentText("E", true, AdjustedOf(coef, scale)))
  }

  /** The digits of a numeral without leading zeros, "0" when nothing is left. */
  function Coefficient(uni: UnicodeDigits, n: Numeral): (c: string)
    ensures IsDigits(c) && c != []
  {
    var c := TrimLeft(DigitsOf(uni, n));
    if c == [] then "0" else c
  }

  predicate Negative(uni: UnicodeDigits, n: Numeral) {
    n.sign == "-" && TrimLeft(DigitsOf(uni, n)) != []
  }

  lemma CoefficientCanonical(uni: UnicodeDigits, n: Numeral)
    ensures Canonical(Negative(uni, n), Coefficient(uni, n))
  {
  }

  function TextOf(uni: UnicodeDigits, n: Numeral): string {
    BigText(Negative(uni, n), Coefficient(uni, n), ScaleOf(uni, n))
  }

  // ---- Reading the text back ----

  /** `m` writes the text and is read with this sign, coefficient, and scale. */
  predicate Rewrites(uni: UnicodeDigits, m: Numeral, neg: bool, coef: string, scale: int)
    requires coef != []
  {
    && WellFormed(uni, m) && Text(m) == BigText(neg, coef, scale)
    && Negative(uni, m) == neg && Coefficient(uni, m) == coef && ScaleOf(uni, m) == scale
    && ExpOf(uni, m) == if InPlain(coef, scale) then 0 else AdjustedOf(coef, scale)
  }

  lemma CoefficientPadded(uni: UnicodeDigits, m: Numeral, neg: bool, coef: string, before: nat, exp: int, scale: int)
    requires Canonical(neg, coef) && ReadsAs(uni, m, neg, Zeros(before) + coef, exp, scale)
    ensures Negative(uni, m) == neg && Coefficient(uni, m) == coef
  {
    if coef == "0" {
      assert Zeros(before) + coef == Zeros(before + 1);
      TrimZeros(before + 1);
    } else {
      TrimLeftPadded(coef, before);
    }
  }

  lemma RewrittenPointed(uni: UnicodeDigits, neg: bool, coef: string, scale: int, whole: string, fraction: string, before: nat)
    requires Canonical(neg, coef) && scale > 0 && InPlain(coef, scale)
    requires IsDigits(whole) && IsDigits(fraction) && whole != []
    requires whole + fraction == Zeros(before) + coef && |fraction| == scale
    requires BigText(neg, coef, scale) == SignText(neg) + (whole + "." + fraction)
    ensures Rewrites(uni, Pointed(neg, whole, fraction), neg, coef, scale)
  {
    ReadPointed(uni, neg, whole, fraction);
    CoefficientPadded(uni, Pointed(neg, whole, fraction), neg, coef, before, 0, scale);
  }

  lemma RewrittenScientific(uni: UnicodeDigits, neg: bool, coef: string, scale: int)
    requires Canonical(neg, coef) && !InPlain(coef, scale)
    ensures Rewrites(uni, Scientific(neg, coef, "E", true, AdjustedOf(coef, scale)), neg, coef, scale)
  {
    var adj := AdjustedOf(coef, scale);
    var m := Scientific(neg, coef, "E", true, adj);
    ScientificText(neg, coef, "E", true, adj);
    ReadScientific(uni, neg, coef, "E", true, adj);
    assert coef == Zeros(0) + coef;
    CoefficientPadded(uni, m, neg, coef, 0, adj, scale);
  }

  lemma Rewritten(uni: UnicodeDigits, neg: bool, coef: string, scale: int) returns (m: Numeral)
    requires Canonical(neg, coef)
    ensures Rewrites(uni, m, neg, coef, scale)
  {
    if scale == 0 {
      m := Plain(neg, coef);
      ReadPlain(uni, neg, coef);
      assert coef == Zeros(0) + coef;
      CoefficientPadded(uni, m, neg, coef, 0, 0, 0);
    } else if !InPlain(coef, scale) {
      m := Scientific(neg, coef, "E", true, AdjustedOf(coef, scale));
      RewrittenScientific(uni, neg, coef, scale);
    } else if |coef| > scale {
      m := RewrittenInside(uni, neg, coef, scale);
    } else {
      m := RewrittenBefore(uni, neg, coef, scale);
    }
  }

  lemma RewrittenInside(uni: UnicodeDigits, neg: bool, coef: string, scale: int) returns (m: Numeral)
    requires Canonical(neg, coef) && scale > 0 && InPlain(coef, scale) && |coef| > scale
    ensures Rewrites(uni, m, neg, coef, scale)
  {
    var k := |coef| - scale;
    m := Pointed(neg, coef[..k], coef[k..]);
    assert coef[..k] + coef[k..] == Zeros(0) + coef;
    RewrittenPointed(uni, neg, coef, scale, coef[..k], coef[k..], 0);
  }

  lemma RewrittenBefore(uni: UnicodeDigits, neg: bool, coef: string, scale: int) returns (m: Numeral)
    requires Canonical(neg, coef) && scale > 0 && InPlain(coef, scale) && |coef| <= scale
    ensures Rewrites(uni, m, neg, coef, scale)
  {
    var k := scale - |coef|;
    m := Pointed(neg, "0", Zeros(k) + coef);
    assert "0" + (Zeros(k) + coef) == Zeros(k + 1) + coef;
    RewrittenPointed(uni, neg, coef, scale, "0", Zeros(k) + coef, k + 1);
  }

  lemma CoefficientVal(uni: UnicodeDigits, n: Numeral)
    ensures Val(Coefficient(uni, n)) == Val(DigitsOf(uni, n))
    ensures TrimLeft(DigitsOf(uni, n)) == [] ==> Val(DigitsOf(uni, n)) == 0
  {
    TrimLeftVal(DigitsOf(uni, n));
    assert Val("") == 0 && "0"[..0] == "" && Val("0") == 10 * Val("") + Digit('0');
  }

  /** The value depends only on the sign, the coefficient, and the scale. */
  lemma ValueOfCoefficient(uni: UnicodeDigits, n: Numeral)
    ensures NumeralValue(uni, n) == Signed(Negative(uni, n), Magnitude(Coefficient(uni, n), -ScaleOf(uni, n)))
  {
    CoefficientVal(uni, n);
    NoSignOfZero(n.sign == "-", Val(DigitsOf(uni, n)), Scale10(-ScaleOf(uni, n)));
  }

  lemma NoSignOfZero(neg: bool, v: nat, q: real)
    ensures v == 0 ==> Signed(neg, Times(v, q)) == Signed(false, Times(v, q))
  {
  }

  /** A text shorter than 2^59 keeps clear of the bound on the exponent. */
  lemma ShortTextsStayInRange(uni: UnicodeDigits, s: string)
    requires BigAccepted(uni, s) && |s| < MAX_EXPONENT / 2
    ensures AdjustedOf(Coefficient(uni, NumeralOf(uni, s)), ScaleOf(uni, NumeralOf(uni, s))) <= MAX_EXPONENT
  {
    var n := NumeralOf(uni, s);
    assert |n.whole| + |n.fraction| <= |Text(n)|;
    assert |DigitsOf(uni, n)| <= |s|;
  }

  /** For every text `ParseBigDecimal` accepts: its BigDecimal text is again accepted,
      unless it carries an exponent above 2^60, and then has the same value and the
      same scale, and is the text of itself. */
  lemma BigTextIsStable(uni: UnicodeDigits, s: string)
    requires BigAccepted(uni, s)
    ensures var n := NumeralOf(uni, s);
            var t := TextOf(uni, n);
            && (BigAccepted(uni, t) <==>
                InPlain(Coefficient(uni, n), ScaleOf(uni, n)) || AdjustedOf(Coefficient(uni, n), ScaleOf(uni, n)) <= MAX_EXPONENT)
            && (BigAccepted(uni, t) ==>
                var m := NumeralOf(uni, t);
                NumeralValue(uni, m) == NumeralValue(uni, n) && ScaleOf(uni, m) == ScaleOf(uni, n) && TextOf(uni, m) == t)
  {
    var n := NumeralOf(uni, s);
    var neg, coef, scale := Negative(uni, n), Coefficient(uni, n), ScaleOf(uni, n);
    CoefficientCanonical(uni, n);
    var m := Rewritten(uni, neg, coef, scale);
    RewrittenAccepted(uni, m, neg, coef, scale, TextOf(uni, n));
    SameParts(uni, n, m);
  }

  /** A text written again is accepted unless its exponent is out of range. */
  lemma RewrittenAccepted(uni: UnicodeDigits, m: Numeral, neg: bool, coef: string, scale: int, t: string)
    requires coef != [] && Rewrites(uni, m, neg, coef, scale) && t == BigText(neg, coef, scale)
    requires MIN_INT <= scale <= MAX_INT
    ensures BigAccepted(uni, t) <==> InPlain(coef, scale) || AdjustedOf(coef, scale) <= MAX_EXPONENT
    ensures BigAccepted(uni, t) ==> NumeralOf(uni, t) == m
  {
    NumeralOfIs(uni, m, t);
  }

  /** Numerals of one sign, coefficient, and scale have one value and one text. */
  lemma SameParts(uni: UnicodeDigits, n: Numeral, m: Numeral)
    requires Negative(uni, m) == Negative(uni, n) && Coefficient(uni, m) == Coefficient(uni, n) && ScaleOf(uni, m) == ScaleOf(uni, n)
    ensures NumeralValue(uni, m) == NumeralValue(uni, n) && TextOf(uni, m) == TextOf(uni, n)
  {
    ValueOfCoefficient(uni, n);
    ValueOfCoefficient(uni, m);
  }

  // ---- The scan ----

  /** The start of the mantissa of `s`, its point or the end of its whole part, and its end. */
  ghost predicate Layout(uni: UnicodeDigits, n: Numeral, s: string, a: nat, b: nat, e: nat) {
    && WellFormed(uni, n)
    && a <= b <= e <= |s| && s[..a] == n.sign && s[a..b] == n.whole && s[e..] == Exponent(n)
    && (if n.point then b < e && s[b] == '.' && s[b + 1..e] == n.fraction else b == e)
  }

  ghost function MantissaEnd(n: Numeral, a: nat): nat { a + |n.whole| + |Point(n.point)| + |n.fraction| }

  lemma LayoutOf(uni: UnicodeDigits, n: Numeral, s: string, a: nat)
    requires Denotes(uni, n, s) && a == |n.sign|
    ensures Layout(uni, n, s, a, a + |n.whole|, MantissaEnd(n, a))
  {
    assert s == n.sign + (n.whole + Tail(n));
    LayoutFrom(uni, n, s, a, a + |n.whole|, MantissaEnd(n, a));
  }

  lemma LayoutFrom(uni: UnicodeDigits, n: Numeral, s: string, a: nat, b: nat, e: nat)
    requires WellFormed(uni, n) && s == n.sign + (n.whole + Tail(n))
    requires a == |n.sign| && b == a + |n.whole| && e == b + |Point(n.point)| + |n.fraction|
    ensures Layout(uni, n, s, a, b, e)
  {
    Parted(s, n.sign, n.whole, Tail(n));
    TailLayout(n, s, b, e);
  }

  lemma Parted(s: string, x: string, y: string, z: string)
    requires s == x + (y + z)
    ensures |x| + |y| <= |s| && s[..|x|] == x && s[|x|..|x| + |y|] == y && s[|x| + |y|..] == z
  {
  }

  lemma Dropped(a: string, b: string)
    ensures (a + b)[..|a|] == a && (a + b)[|a|..] == b
  {
  }

  lemma TailLayout(n: Numeral, s: string, b: nat, e: nat)
    requires b <= |s| && s[b..] == Tail(n) && (!n.point ==> n.fraction == "") && e == b + |Point(n.point)| + |n.fraction|
    ensures e <= |s| && s[e..] == Exponent(n) && (if n.point then b < e && s[b] == '.' && s[b + 1..e] == n.fraction else b == e)
  {
    var t := s[b..];
    Dropped(Point(n.point), n.fraction + Exponent(n));
    Dropped(n.fraction, Exponent(n));
    if n.point {
      assert t[0] == '.' && t[1..] == s[b + 1..];
      assert s[b + 1..][..|n.fraction|] == s[b + 1..e] && s[b + 1..][|n.fraction|..] == s[e..];
    } else {
      assert t == Exponent(n);
    }
  }

  /** The state of the scan at `i`. */
  ghost predicate Scanned(uni: UnicodeDigits, n: Numeral, a: nat, b: nat, i: nat, digits: string, inFrac: bool, fracDigits: nat) {
    if i <= b then !inFrac && fracDigits == 0 && a <= i && i - a <= |n.whole| && digits == Ascii(uni, n.whole[..i - a])
    else inFrac && fracDigits == i - (b + 1) <= |n.fraction|
         && digits == Ascii(uni, n.whole + n.fraction[..fracDigits])
  }

  lemma WholeAt(uni: UnicodeDigits, n: Numeral, s: string, a: nat, b: nat, e: nat, i: nat)
    requires Layout(uni, n, s, a, b, e) && a <= i < b
    ensures i - a < |n.whole| && s[i] == n.whole[i - a] && IsDigit(uni, s[i]) && s[i] != '.'
  {
    assert s[i] == s[a..b][i - a];
  }

  lemma FractionAt(uni: UnicodeDigits, n: Numeral, s: string, a: nat, b: nat, e: nat, i: nat)
    requires Layout(uni, n, s, a, b, e) && b < i < e
    ensures i - (b + 1) < |n.fraction| && s[i] == n.fraction[i - (b + 1)] && IsDigit(uni, s[i]) && s[i] != '.'
  {
    assert s[i] == s[b + 1..e][i - (b + 1)];
  }

  lemma ScanDigit(uni: UnicodeDigits, n: Numeral, s: string, a: nat, b: nat, e: nat, i: nat, digits: string, inFrac: bool, fracDigits: nat)
    requires Layout(uni, n, s, a, b, e) && i < e && !(n.point && i == b)
    requires Scanned(uni, n, a, b, i, digits, inFrac, fracDigits)
    ensures IsDigit(uni, s[i]) && s[i] != '.'
    ensures Scanned(uni, n, a, b, i + 1, digits + [DigitValue(uni, s[i])], inFrac, if inFrac then fracDigits + 1 else 0)
  {
    if i < b {
      WholeAt(uni, n, s, a, b, e, i);
      DigitAppended(uni, "", n.whole, i - a);
    } else {
      FractionAt(uni, n, s, a, b, e, i);
      DigitAppended(uni, n.whole, n.fraction, fracDigits);
    }
  }

  lemma DigitAppended(uni: UnicodeDigits, before: string, t: string, i: nat)
    requires i < |t| && IsDigit(uni, t[i])
    ensures Ascii(uni, before + t[..i + 1]) == Ascii(uni, before + t[..i]) + [DigitValue(uni, t[i])]
    ensures before == "" ==> Ascii(uni, t[..i + 1]) == Ascii(uni, t[..i]) + [DigitValue(uni, t[i])]
  {
    SliceSnoc(t, 0, i);
    Assoc(before, t[..i], [t[i]]);
    AsciiSnoc(uni, before + t[..i], t[i]);
    AsciiSnoc(uni, t[..i], t[i]);
  }

  /** The digits of the mantissa that starts at `a`, the count after the point, and its end. */
  method ScanMantissa(uni: UnicodeDigits, s: string, a: nat, ghost n: Numeral, ghost b: nat, ghost e: nat)
      returns (i: nat, digits: string, fracDigits: nat)
    requires Layout(uni, n, s, a, b, e)
    ensures i == e && digits == DigitsOf(uni, n) && fracDigits == |n.fraction|
  {
    i, digits, fracDigits := a, "", 0;
    var inFrac := false;
    assert n.whole[..0] == "";
    ExponentStarts(uni, n, s, a, b, e);
    while i < |s| && s[i] != 'e' && s[i] != 'E'
      invariant a <= i <= e && Scanned(uni, n, a, b, i, digits, inFrac, fracDigits)
    {
      if s[i] == '.' {
        if i != b || !n.point { ScanDigit(uni, n, s, a, b, e, i, digits, inFrac, fracDigits); }
        inFrac := true;
        assert n.whole[..b - a] == n.whole && n.whole + n.fraction[..0] == n.whole;
      } else {
        ScanDigit(uni, n, s, a, b, e, i, digits, inFrac, fracDigits);
        digits := digits + [DigitValue(uni, s[i])];
        if inFrac { fracDigits := fracDigits + 1; }
      }
      i := i + 1;
    }
    if i < e { MantissaChar(uni, n, s, a, b, e, i); }
    assert n.whole[..|n.whole|] == n.whole == n.whole + "" && n.fraction[..|n.fraction|] == n.fraction;
  }

  /** The mantissa holds digits and its point. */
  lemma MantissaChar(uni: UnicodeDigits, n: Numeral, s: string, a: nat, b: nat, e: nat, i: nat)
    requires Layout(uni, n, s, a, b, e) && a <= i < e
    ensures (n.point && i == b) || IsDigit(uni, s[i])
  {
    if i < b {
      assert s[i] == s[a..b][i - a];
    } else if b < i {
      assert s[i] == s[b + 1..e][i - (b + 1)];
    }
  }

  lemma ExponentStarts(uni: UnicodeDigits, n: Numeral, s: string, a: nat, b: nat, e: nat)
    requires Layout(uni, n, s, a, b, e)
    ensures e < |s| ==> s[e] == 'e' || s[e] == 'E'
  {
    assert e < |s| ==> s[e] == s[e..][0];
  }

  /** What `strconv.ParseInt` reads from an optional sign and ASCII digits. */
  function ParseInt(t: string): int
    requires var u := if t != "" && (t[0] == '+' || t[0] == '-') then t[1..] else t; IsDigits(u)
  {
    if t != "" && t[0] == '-' then -(Val(t[1..]) as int)
    else if t != "" && t[0] == '+' then Val(t[1..])
    else Val(t)
  }

  /** The exponent's text after the mark, its digits as ASCII. */
  function AsciiExponent(uni: UnicodeDigits, t: string): string {
    seq(|t|, i requires 0 <= i < |t| => if IsDigit(uni, t[i]) then DigitValue(uni, t[i]) else t[i])
  }

  lemma AsciiExponentOf(uni: UnicodeDigits, n: Numeral, t: string)
    requires WellFormed(uni, n) && n.mark != "" && t == n.expSign + n.expDigits
    ensures AsciiExponent(uni, t) == n.expSign + Ascii(uni, n.expDigits)
  {
    var x := AsciiExponent(uni, t);
    forall i | 0 <= i < |t| ensures x[i] == (n.expSign + Ascii(uni, n.expDigits))[i] {
      if i >= |n.expSign| { assert t[i] == n.expDigits[i - |n.expSign|]; }
    }
  }

  lemma ExponentRest(uni: UnicodeDigits, n: Numeral, s: string, i: nat)
    requires WellFormed(uni, n) && i < |s| && s[i..] == Exponent(n)
    ensures n.mark != "" && s[i + 1..] == n.expSign + n.expDigits
  {
    assert s[i + 1..] == s[i..][1..];
  }

  lemma SignedDigits(sign: string, digits: string)
    requires IsDigits(digits) && digits != ""
    ensures (sign + digits)[|sign|..] == digits
    ensures sign == "" ==> sign + digits == digits && AsciiDigit(digits[0])
  {
  }

  lemma NoExponent(uni: UnicodeDigits, n: Numeral)
    requires WellFormed(uni, n) && Exponent(n) == ""
    ensures ExpOf(uni, n) == 0
  {
    assert n.expDigits == "" && Ascii(uni, "") == "";
  }

  /** The parts of `n`, read again from its text. */
  method ScanNumber(uni: UnicodeDigits, s: string, ghost n: Numeral) returns (neg: bool, digits: string, fracDigits: nat, exp: int)
    requires Denotes(uni, n, s)
    ensures neg == (n.sign == "-") && digits == DigitsOf(uni, n) && fracDigits == |n.fraction| && exp == ExpOf(uni, n)
  {
    SignStarts(uni, n, s);
    neg := s[0] == '-';
    var a := if s[0] == '+' || s[0] == '-' then 1 else 0;
    LayoutOf(uni, n, s, a);
    var i;
    i, digits, fracDigits := ScanMantissa(uni, s, a, n, a + |n.whole|, MantissaEnd(n, a));
    exp := 0;
    if i < |s| { exp := ScanExponent(uni, s, i, n); } else { NoExponent(uni, n); }
  }

  /** The BigDecimal text of `s`, and not ok where `ParseBigDecimal` refuses `s`. */
  method BigDecimalText(uni: UnicodeDigits, s: string) returns (t: string, ok: bool)
    ensures ok <==> BigAccepted(uni, s)
    ensures ok ==> t == TextOf(uni, NumeralOf(uni, s))
  {
    t := "";
    var _, good := ParseBigDecimal(uni, s);
    ok := good;
    if !ok { return; }
    ghost var n := NumeralOf(uni, s);
    var neg, digits, fracDigits, exp := ScanNumber(uni, s, n);
    t := PrintParts(uni, n, neg, digits, fracDigits - exp);
  }

  /** Writes the parts: leading zeros go, and zero loses its sign. */
  method PrintParts(ghost uni: UnicodeDigits, ghost n: Numeral, sign: bool, digits: string, scale: int) returns (t: string)
    requires sign == (n.sign == "-") && digits == DigitsOf(uni, n) && scale == ScaleOf(uni, n)
    ensures t == TextOf(uni, n)
  {
    var coef, neg := TrimLeft(digits), sign;
    if coef == "" {
      coef, neg := "0", false;
    }
    t := BigText(neg, coef, scale);
  }

  lemma SignStarts(uni: UnicodeDigits, n: Numeral, s: string)
    requires Denotes(uni, n, s)
    ensures s != "" && n.sign == (if s[0] == '+' || s[0] == '-' then s[..1] else "")
    ensures n.sign == "-" <==> s[0] == '-'
  {
    if n.sign == "" {
      assert s == n.whole + Tail(n);
      assert n.whole != "" ==> s[0] == n.whole[0];
      assert n.whole == "" ==> s[0] == '.';
    } else {
      assert s[0] == n.sign[0];
    }
  }

  method ScanExponent(uni: UnicodeDigits, s: string, i: nat, ghost n: Numeral) returns (exp: int)
    requires WellFormed(uni, n) && i < |s| && s[i..] == Exponent(n)
    ensures exp == ExpOf(uni, n)
  {
    ExponentRest(uni, n, s, i);
    AsciiExponentOf(uni, n, s[i + 1..]);
    var text := AsciiExponent(uni, s[i + 1..]);
    SignedDigits(n.expSign, Ascii(uni, n.expDigits));
    exp := ParseInt(text);
  }
}
