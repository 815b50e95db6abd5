/** `Decimal.String`: four layouts, each read back as the decimal it writes. */
module DecimalPrinters {
  import opened Numerals
  import opened Decimals
  import opened DecimalTexts

  // ---- Trimming what a printer pads ----

  lemma {:induction false} TrimRightPadded(coef: string, n: nat)
    requires IsDigits(coef) && coef != [] && coef[|coef| - 1] != '0'
    ensures IsDigits(coef + Zeros(n)) && TrimRight(coef + Zeros(n)) == coef
    decreases n
  {
    var s := coef + Zeros(n);
    if n == 0 {
      assert s == coef;
    } else {
      assert s[..|s| - 1] == coef + Zeros(n - 1);
      TrimRightPadded(coef, n - 1);
    }
  }

  lemma {:induction false} TrimLeftPadded(coef: string, n: nat)
    requires IsDigits(coef) && coef != [] && coef[0] != '0'
    ensures IsDigits(Zeros(n) + coef) && TrimLeft(Zeros(n) + coef) == coef
    decreases n
  {
    var s := Zeros(n) + coef;
    if n == 0 {
      assert s == coef;
    } else {
      assert s[1..] == Zeros(n - 1) + coef;
      TrimLeftPadded(coef, n - 1);
    }
  }

  lemma {:induction false} TrimZeros(n: nat)
    ensures TrimLeft(Zeros(n)) == ""
    decreases n
  {
    if n > 0 {
      assert Zeros(n)[1..] == Zeros(n - 1);
      TrimZeros(n - 1);
    }
  }

  lemma DigitsAreDigits(uni: UnicodeDigits, s: string)
    requires IsDigits(s)
    ensures AllDigits(uni, s) && Ascii(uni, s) == s
  {
    forall i | 0 <= i < |s| ensures IsDigit(uni, s[i]) { assert AsciiDigit(s[i]); }
  }

  // ---- The three layouts of a printed number ----

  function SignText(neg: bool): string { if neg then "-" else "" }

  function Natural(i: int): nat { if i < 0 then -i else i }

  function Plain(neg: bool, digits: string): Numeral {
    Numeral(SignText(neg), digits, false, "", "", "", "")
  }

  function Pointed(neg: bool, whole: string, fraction: string): Numeral {
    Numeral(SignText(neg), whole, true, fraction, "", "", "")
  }

  /** One digit before the point, the others after it, and an exponent; `plus` writes
      a sign before a positive one. */
  function Scientific(neg: bool, coef: string, mark: string, plus: bool, adj: int): Numeral
    requires coef != []
  {
    Numeral(SignText(neg), coef[..1], |coef| > 1, coef[1..], mark,
            if adj < 0 then "-" else if plus && adj > 0 then "+" else "", FormatNat(Natural(adj)))
  }

  /** What a numeral is read as: well-formed, with these digits, exponent, and scale. */
  predicate ReadsAs(uni: UnicodeDigits, n: Numeral, neg: bool, digits: string, exp: int, scale: int) {
    && WellFormed(uni, n) && (n.sign == "-") == neg
    && DigitsOf(uni, n) == digits && ExpOf(uni, n) == exp && ScaleOf(uni, n) == scale
  }

  lemma ReadPlain(uni: UnicodeDigits, neg: bool, digits: string)
    requires IsDigits(digits) && digits != []
    ensures ReadsAs(uni, Plain(neg, digits), neg, digits, 0, 0)
    ensures Text(Plain(neg, digits)) == SignText(neg) + digits
  {
    DigitsAreDigits(uni, digits);
    assert digits + "" == digits && Ascii(uni, "") == "";
  }

  lemma ReadPointed(uni: UnicodeDigits, neg: bool, whole: string, fraction: string)
    requires IsDigits(whole) && IsDigits(fraction) && whole != []
    ensures ReadsAs(uni, Pointed(neg, whole, fraction), neg, whole + fraction, 0, |fraction|)
    ensures Text(Pointed(neg, whole, fraction)) == SignText(neg) + (whole + "." + fraction)
  {
    DigitsAreDigits(uni, whole);
    DigitsAreDigits(uni, fraction);
    AsciiConcat(uni, whole, fraction);
    assert Ascii(uni, "") == "";
    assert whole + ("." + (fraction + "")) == whole + "." + fraction;
  }

  /** One digit before the point, the others after it. */
  function Spread(coef: string): string
    requires coef != []
  {
    coef[..1] + (if |coef| > 1 then "." + coef[1..] else "")
  }

  lemma ReadScientific(uni: UnicodeDigits, neg: bool, coef: string, mark: string, plus: bool, adj: int)
    requires IsDigits(coef) && coef != [] && (mark == "e" || mark == "E")
    ensures ReadsAs(uni, Scientific(neg, coef, mark, plus, adj), neg, coef, adj, |coef| - 1 - adj)
  {
    var n := Scientific(neg, coef, mark, plus, adj);
    assert coef[..1] + coef[1..] == coef;
    DigitsAreDigits(uni, n.whole);
    DigitsAreDigits(uni, n.fraction);
    DigitsAreDigits(uni, coef);
    DigitsAreDigits(uni, n.expDigits);
  }

  /** The exponent as written. */
  function ExponentText(mark: string, plus: bool, adj: int): string {
    mark + ((if plus && adj > 0 then "+" else "") + FormatInt(adj))
  }

  lemma ScientificText(neg: bool, coef: string, mark: string, plus: bool, adj: int)
    requires coef != []
    ensures Text(Scientific(neg, coef, mark, plus, adj)) == SignText(neg) + (Spread(coef) + ExponentText(mark, plus, adj))
  {
    var n := Scientific(neg, coef, mark, plus, adj);
    assert Exponent(n) == ExponentText(mark, plus, adj) by {
      assert n.expSign + n.expDigits == (if plus && adj > 0 then "+" else "") + FormatInt(adj);
    }
    SpreadText(coef, Exponent(n));
  }

  lemma SpreadText(coef: string, rest: string)
    requires coef != []
    ensures coef[..1] + (Point(|coef| > 1) + (coef[1..] + rest)) == Spread(coef) + rest
  {
    if |coef| == 1 {
      assert coef[1..] + rest == rest && Point(false) + rest == rest;
    } else {
      assert "." + (coef[1..] + rest) == ("." + coef[1..]) + rest;
    }
  }

  // ---- Decimal.String ----

  predicate InScientific(d: Decimal) { d.Adjusted() >= 20 || d.Adjusted() < -7 }

  /** Very large and very small decimals are spread with an exponent; the others are
      written out, padded with zeros on the side that needs them. */
  function DecimalBody(d: Decimal): string
    requires !d.IsZero()
  {
    var adj := d.Adjusted();
    if InScientific(d) then Spread(d.coef) + ExponentText("e", false, adj)
    else if d.exp >= 0 then d.coef + Zeros(d.exp)
    else if adj >= 0 then d.coef[..adj + 1] + "." + d.coef[adj + 1..]
    else "0" + "." + (Zeros(-adj - 1) + d.coef)
  }

  function DecimalString(d: Decimal): string {
    if d.IsZero() then "0" else SignText(d.neg) + DecimalBody(d)
  }

  /** `n` writes the text of `d` and is read as `d`. */
  predicate Prints(uni: UnicodeDigits, n: Numeral, d: Decimal) {
    && Text(n) == DecimalString(d) && WellFormed(uni, n) && DecimalOf(uni, n) == d
    && ExpOf(uni, n) == if InScientific(d) then d.Adjusted() else 0
  }

  /** Zeros on either side of a coefficient are normalized away. */
  lemma NewDecimalPadded(neg: bool, coef: string, before: nat, after: nat, exp: int)
    requires IsDigits(coef) && coef != [] && coef[0] != '0' && coef[|coef| - 1] != '0'
    ensures IsDigits(Zeros(before) + coef + Zeros(after))
    ensures NewDecimal(neg, Zeros(before) + coef + Zeros(after), exp) == Decimal(neg, coef, exp + after)
  {
    var c := coef + Zeros(after);
    assert Zeros(before) + coef + Zeros(after) == Zeros(before) + c;
    TrimLeftPadded(c, before);
    TrimRightPadded(coef, after);
  }

  lemma ReadsDecimal(uni: UnicodeDigits, n: Numeral, d: Decimal, before: nat, after: nat, digits: string, exp: int, scale: int)
    requires Normal(d) && !d.IsZero() && ReadsAs(uni, n, d.neg, digits, exp, scale)
    requires digits == Zeros(before) + d.coef + Zeros(after) && d.exp == after - scale
    ensures WellFormed(uni, n) && DecimalOf(uni, n) == d && ExpOf(uni, n) == exp
  {
    NewDecimalPadded(d.neg, d.coef, before, after, -scale);
  }

  lemma PrintedScientific(uni: UnicodeDigits, d: Decimal)
    requires Normal(d) && !d.IsZero() && InScientific(d)
    ensures Prints(uni, Scientific(d.neg, d.coef, "e", false, d.Adjusted()), d)
  {
    ScientificText(d.neg, d.coef, "e", false, d.Adjusted());
    ScientificReads(uni, d, Scientific(d.neg, d.coef, "e", false, d.Adjusted()));
  }

  lemma ScientificReads(uni: UnicodeDigits, d: Decimal, n: Numeral)
    requires Normal(d) && !d.IsZero() && n == Scientific(d.neg, d.coef, "e", false, d.Adjusted())
    ensures WellFormed(uni, n) && DecimalOf(uni, n) == d && ExpOf(uni, n) == d.Adjusted()
  {
    ReadScientific(uni, d.neg, d.coef, "e", false, d.Adjusted());
    Padded(d.coef, 0);
    ReadsDecimal(uni, n, d, 0, 0, d.coef, d.Adjusted(), -d.exp);
  }

  lemma Padded(coef: string, n: nat)
    ensures coef + Zeros(n) == Zeros(0) + coef + Zeros(n) && coef == Zeros(0) + coef + Zeros(0)
  {
  }

  lemma PrintedWhole(uni: UnicodeDigits, d: Decimal)
    requires Normal(d) && !d.IsZero() && !InScientific(d) && d.exp >= 0
    ensures Prints(uni, Plain(d.neg, d.coef + Zeros(d.exp)), d)
  {
    ReadPlain(uni, d.neg, d.coef + Zeros(d.exp));
    WholeReads(uni, d, Plain(d.neg, d.coef + Zeros(d.exp)));
  }

  lemma WholeReads(uni: UnicodeDigits, d: Decimal, n: Numeral)
    requires Normal(d) && !d.IsZero() && d.exp >= 0 && n == Plain(d.neg, d.coef + Zeros(d.exp))
    ensures WellFormed(uni, n) && DecimalOf(uni, n) == d && ExpOf(uni, n) == 0
  {
    var digits := d.coef + Zeros(d.exp);
    ReadPlain(uni, d.neg, digits);
    Padded(d.coef, d.exp);
    ReadsDecimal(uni, n, d, 0, d.exp, digits, 0, 0);
  }

  lemma PrintedPointed(uni: UnicodeDigits, d: Decimal, whole: string, fraction: string, before: nat)
    requires Normal(d) && !d.IsZero() && !InScientific(d)
    requires IsDigits(whole) && IsDigits(fraction) && whole != []
    requires whole + fraction == Zeros(before) + d.coef && |fraction| == -d.exp
    requires DecimalString(d) == SignText(d.neg) + (whole + "." + fraction)
    ensures Prints(uni, Pointed(d.neg, whole, fraction), d)
  {
    ReadPointed(uni, d.neg, whole, fraction);
    assert whole + fraction == Zeros(before) + d.coef + Zeros(0);
    ReadsDecimal(uni, Pointed(d.neg, whole, fraction), d, before, 0, whole + fraction, 0, |fraction|);
  }

  lemma DigitsParted(coef: string, k: nat)
    requires IsDigits(coef) && k <= |coef|
    ensures IsDigits(coef[..k]) && IsDigits(coef[k..]) && coef[..k] + coef[k..] == Zeros(0) + coef
  {
  }

  lemma PrintedInside(uni: UnicodeDigits, d: Decimal) returns (n: Numeral)
    requires Normal(d) && !d.IsZero() && !InScientific(d) && d.exp < 0 <= d.Adjusted()
    ensures Prints(uni, n, d)
  {
    var k := d.Adjusted() + 1;
    var whole, fraction := d.coef[..k], d.coef[k..];
    n := Pointed(d.neg, whole, fraction);
    DigitsParted(d.coef, k);
    PrintedPointed(uni, d, whole, fraction, 0);
  }

  lemma PrintedBefore(uni: UnicodeDigits, d: Decimal) returns (n: Numeral)
    requires Normal(d) && !d.IsZero() && !InScientific(d) && d.exp < 0 && d.Adjusted() < 0
    ensures Prints(uni, n, d)
  {
    var k := -d.Adjusted();
    n := Pointed(d.neg, "0", Zeros(k - 1) + d.coef);
    assert "0" + (Zeros(k - 1) + d.coef) == Zeros(k) + d.coef;
    PrintedPointed(uni, d, "0", Zeros(k - 1) + d.coef, k);
  }

  /** The numeral that `DecimalString` writes. */
  lemma PrintedNumeral(uni: UnicodeDigits, d: Decimal) returns (n: Numeral)
    requires Normal(d)
    ensures Prints(uni, n, d)
  {
    var adj := d.Adjusted();
    if d.IsZero() {
      n := Plain(false, "0");
      ReadPlain(uni, false, "0");
      assert "0" == Zeros(1);
      TrimZeros(1);
    } else if InScientific(d) {
      n := Scientific(d.neg, d.coef, "e", false, adj);
      PrintedScientific(uni, d);
    } else if d.exp >= 0 {
      n := Plain(d.neg, d.coef + Zeros(d.exp));
      PrintedWhole(uni, d);
    } else if adj >= 0 {
      n := PrintedInside(uni, d);
    } else {
      n := PrintedBefore(uni, d);
    }
  }

  /** Parsing the text of a decimal is accepted exactly while the exponent of its first
      digit has a magnitude of at most 2^60, and then gives the decimal back. */
  lemma StringRoundTrip(uni: UnicodeDigits, d: Decimal)
    requires Normal(d)
    ensures Accepted(uni, DecimalString(d)) <==> -MAX_EXPONENT <= d.Adjusted() <= MAX_EXPONENT
    ensures Accepted(uni, DecimalString(d)) ==> DecimalOf(uni, NumeralOf(uni, DecimalString(d))) == d
  {
    var n := PrintedNumeral(uni, d);
    NumeralOfIs(uni, n, DecimalString(d));
  }

  /** A whole number of the digits 12 and an exponent. */
  function TwelveE(e: nat): Numeral { Numeral("", "12", false, "", "e", "", FormatNat(e)) }

  lemma TwelveIsNormal(e: nat)
    ensures IsDigits("12") && NewDecimal(false, "12", e) == Decimal(false, "12", e)
  {
    NewDecimalPadded(false, "12", 0, 0, e);
    Padded("12", 0);
  }

  lemma TwelveForm(uni: UnicodeDigits, n: Numeral, digits: string)
    requires n == Numeral("", "12", false, "", "e", "", digits) && IsDigits(digits) && digits != []
    ensures WellFormed(uni, n) && DigitsOf(uni, n) == "12" && ExpOf(uni, n) == Val(digits)
  {
    DigitsAreDigits(uni, "12");
    DigitsAreDigits(uni, digits);
    assert n.whole + n.fraction == "12";
  }

  lemma TwelveReads(uni: UnicodeDigits, e: nat)
    ensures Denotes(uni, TwelveE(e), "12e" + FormatNat(e)) && ExpOf(uni, TwelveE(e)) == e
    ensures DecimalOf(uni, TwelveE(e)) == Decimal(false, "12", e)
  {
    TwelveForm(uni, TwelveE(e), FormatNat(e));
    TwelveIsNormal(e);
    TwelveText(FormatNat(e));
  }

  lemma TwelveText(digits: string)
    ensures Text(Numeral("", "12", false, "", "e", "", digits)) == "12e" + digits
  {
    assert "" + digits == digits;
    assert "12" + ("e" + digits) == "12e" + digits;
  }

  /** The text 12e1152921504606846976, whose exponent is 2^60, is accepted, and the text of
      its decimal, 1.2e1152921504606846977, is not. */
  lemma AcceptedOnce(uni: UnicodeDigits)
    ensures var s := "12e" + FormatNat(MAX_EXPONENT);
            Accepted(uni, s) && !Accepted(uni, DecimalString(DecimalOf(uni, NumeralOf(uni, s))))
  {
    TwelveReads(uni, MAX_EXPONENT);
    NumeralOfIs(uni, TwelveE(MAX_EXPONENT), "12e" + FormatNat(MAX_EXPONENT));
    StringRoundTrip(uni, Decimal(false, "12", MAX_EXPONENT));
  }

  lemma SameNumeral(uni: UnicodeDigits, n: Numeral, m: Numeral, d: Decimal, e: Decimal)
    requires Prints(uni, n, d) && Prints(uni, m, e) && DecimalString(d) == DecimalString(e)
    ensures d == e
  {
    NumeralUnique(uni, n, m);
  }

  lemma OneText(uni: UnicodeDigits, d: Decimal, e: Decimal)
    requires Normal(d) && Normal(e) && DecimalString(d) == DecimalString(e)
    ensures d == e
  {
    var n := PrintedNumeral(uni, d);
    var m := PrintedNumeral(uni, e);
    SameNumeral(uni, n, m, d, e);
  }

  /** Two decimals with one text are one decimal, at any exponent. */
  lemma StringInjective(d: Decimal, e: Decimal)
    requires Normal(d) && Normal(e) && DecimalString(d) == DecimalString(e)
    ensures d == e
  {
    OneText(AsciiDigit, d, e);
  }
}
