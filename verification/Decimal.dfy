/** Exact decimal numbers: `Decimal` holds coef * 10^exp with no zero at either end of
    coef, so that comparing two of them is a comparison of exponents and texts. */
module Decimals {
  import opened Numerals
  import opened TextOrder

  datatype Decimal = Decimal(neg: bool, coef: string, exp: int) {

    predicate IsZero() { coef == [] }

    /** The exponent of the first significant digit. */
    function Adjusted(): int { exp + |coef| - 1 }

    function Sign(): int { if IsZero() then 0 else if neg then -1 else 1 }
  }

  const ZERO := Decimal(false, "", 0)

  /** What `NewDecimal` builds: digits with no zero at either end, and one zero. */
  predicate Normal(d: Decimal) {
    && IsDigits(d.coef)
    && (d.coef == [] ==> d == ZERO)
    && (d.coef != [] ==> d.coef[0] != '0' && d.coef[|d.coef| - 1] != '0')
  }

  /** coef * 10^exp; `Numerals.TimesIsProduct` says that `Times` multiplies. */
  ghost function Magnitude(coef: string, exp: int): real
    requires IsDigits(coef)
  {
    Times(Val(coef), Scale10(exp))
  }

  ghost function Signed(neg: bool, r: real): real { if neg then -r else r }

  /** The rational number a decimal stands for. */
  ghost function Value(d: Decimal): real
    requires IsDigits(d.coef)
  {
    Signed(d.neg, Magnitude(d.coef, d.exp))
  }

  // ---- Normalizing ----

  function TrimLeft(s: string): (r: string)
    requires IsDigits(s)
    ensures IsDigits(r) && |r| <= |s| && (r != [] ==> r[0] != '0')
  {
    if s != [] && s[0] == '0' then TrimLeft(s[1..]) else s
  }

  function TrimRight(s: string): (r: string)
    requires IsDigits(s)
    ensures r <= s && IsDigits(r) && (r != [] ==> r[|r| - 1] != '0')
    ensures s != [] && s[0] != '0' ==> r != []
  {
    if s != [] && s[|s| - 1] == '0' then TrimRight(s[..|s| - 1]) else s
  }

  function NewDecimal(neg: bool, coef: string, exp: int): (d: Decimal)
    requires IsDigits(coef)
    ensures Normal(d)
  {
    var c := TrimLeft(coef);
    if c == [] then ZERO else
    var t := TrimRight(c);
    Decimal(neg, t, exp + |c| - |t|)
  }

  /** Leading zeros are the prefix that trimming removes. */
  lemma {:induction false} TrimLeftSplits(s: string)
    requires IsDigits(s)
    ensures s == Zeros(|s| - |TrimLeft(s)|) + TrimLeft(s)
    decreases |s|
  {
    if s != [] && s[0] == '0' {
      TrimLeftSplits(s[1..]);
      assert s == ['0'] + s[1..];
    }
  }

  lemma TrimLeftVal(s: string)
    requires IsDigits(s)
    ensures Val(TrimLeft(s)) == Val(s)
  {
    TrimLeftSplits(s);
    ValZeros(|s| - |TrimLeft(s)|);
    ValConcat(Zeros(|s| - |TrimLeft(s)|), TrimLeft(s));
  }

  lemma {:induction false} TrimRightSplits(s: string)
    requires IsDigits(s)
    ensures s == TrimRight(s) + Zeros(|s| - |TrimRight(s)|)
    decreases |s|
  {
    if s != [] && s[|s| - 1] == '0' {
      TrimRightSplits(s[..|s| - 1]);
      assert s == s[..|s| - 1] + ['0'];
      var n := |s| - 1 - |TrimRight(s)|;
      assert Zeros(n) + ['0'] == Zeros(n + 1);
    }
  }

  /** Zeros appended to a coefficient are taken back from its exponent. */
  lemma MagnitudePadded(coef: string, n: nat, exp: int)
    requires IsDigits(coef)
    ensures IsDigits(coef + Zeros(n)) && Magnitude(coef + Zeros(n), exp - n) == Magnitude(coef, exp)
  {
    ValPadded(coef, n);
    Scale10Add(exp - n, n);
    TimesTimes(Val(coef), Pow10(n), Scale10(exp - n));
  }

  lemma ValPadded(coef: string, n: nat)
    requires IsDigits(coef)
    ensures IsDigits(coef + Zeros(n)) && Val(coef + Zeros(n)) == Val(coef) * Pow10(n)
  {
    ValConcat(coef, Zeros(n));
    ValZeros(n);
  }

  lemma ZeroMagnitude(coef: string, exp: int)
    requires IsDigits(coef) && Val(coef) == 0
    ensures Magnitude(coef, exp) == 0.0
  {
  }

  lemma TrimRightMagnitude(c: string, exp: int)
    requires IsDigits(c)
    ensures Magnitude(TrimRight(c), exp + |c| - |TrimRight(c)|) == Magnitude(c, exp)
  {
    var t := TrimRight(c);
    var n := |c| - |t|;
    TrimRightSplits(c);
    MagnitudePadded(t, n, exp + n);
  }

  /** Normalizing keeps the value. */
  lemma NewDecimalValue(neg: bool, coef: string, exp: int)
    requires IsDigits(coef)
    ensures Value(NewDecimal(neg, coef, exp)) == Signed(neg, Magnitude(coef, exp))
  {
    var c := TrimLeft(coef);
    TrimLeftVal(coef);
    assert Magnitude(coef, exp) == Magnitude(c, exp);
    if c == [] {
      ZeroMagnitude(c, exp);
      ZeroMagnitude("", 0);
    } else {
      TrimRightMagnitude(c, exp);
    }
  }

  // ---- Comparing ----

  function CompareMagnitude(d: Decimal, e: Decimal): int {
    if d.Adjusted() < e.Adjusted() then -1
    else if d.Adjusted() > e.Adjusted() then 1
    else CompareText(d.coef, e.coef)
  }

  function Compare(d: Decimal, e: Decimal): int {
    if d.Sign() < e.Sign() then -1
    else if d.Sign() > e.Sign() then 1
    else if d.Sign() == 0 then 0
    else if d.neg then -CompareMagnitude(d, e)
    else CompareMagnitude(d, e)
  }

  ghost function SignOf(x: real): int { if x < 0.0 then -1 else if x > 0.0 then 1 else 0 }

  /** The first digit and the rest of a number. */
  lemma ValHead(s: string)
    requires IsDigits(s) && s != []
    ensures Val(s) == Digit(s[0]) * Pow10(|s| - 1) + Val(s[1..]) && Val(s[1..]) < Pow10(|s| - 1)
  {
    var h := s[..1];
    assert s == h + s[1..];
    ValConcat(h, s[1..]);
    ValBound(s[1..]);
    assert h[..0] == [] && Val(h) == Digit(h[0]);
  }

  lemma DigitDecides(x: nat, y: nat, p: nat, v: nat, w: nat)
    requires x < y && v < p
    ensures x * p + v < y * p + w
  {
    assert (x + 1) * p <= y * p;
  }

  /** On digit strings of one length the byte order is the order of the numbers. */
  lemma {:induction false} CompareSameLength(a: string, b: string)
    requires IsDigits(a) && IsDigits(b) && |a| == |b|
    ensures Val(a) < Val(b) ==> CompareText(a, b) == -1
    ensures Val(a) > Val(b) ==> CompareText(a, b) == 1
    ensures Val(a) == Val(b) ==> CompareText(a, b) == 0
    decreases |a|
  {
    if a != [] {
      ValHead(a);
      ValHead(b);
      var p := Pow10(|a| - 1);
      if a[0] < b[0] {
        DigitDecides(Digit(a[0]), Digit(b[0]), p, Val(a[1..]), Val(b[1..]));
      } else if a[0] > b[0] {
        DigitDecides(Digit(b[0]), Digit(a[0]), p, Val(b[1..]), Val(a[1..]));
      } else {
        CompareSameLength(a[1..], b[1..]);
      }
    }
  }

  /** Padding with zeros does not change how texts without a last zero compare. */
  lemma {:induction false} ComparePadded(a: string, b: string, m: nat, n: nat)
    requires |a| + m == |b| + n
    requires a != [] ==> a[|a| - 1] > '0'
    requires b != [] ==> b[|b| - 1] > '0'
    requires IsDigits(a) && IsDigits(b)
    ensures CompareText(a + Zeros(m), b + Zeros(n)) == CompareText(a, b)
    decreases |a| + |b|
  {
    var pa, pb := a + Zeros(m), b + Zeros(n);
    if a == [] && b == [] {
      CompareTextEqual(pa, pb);
    } else if a == [] {
      assert pa == Zeros(m) && pb == b + Zeros(n);
      ZerosBelow(b, n);
    } else if b == [] {
      ZerosBelow(a, m);
      CompareReversed(pb, pa);
      assert pb == Zeros(n);
    } else if a[0] == b[0] {
      assert pa[1..] == a[1..] + Zeros(m) && pb[1..] == b[1..] + Zeros(n);
      ComparePadded(a[1..], b[1..], m, n);
    }
  }

  lemma {:induction false} ZerosBelow(b: string, n: nat)
    requires IsDigits(b) && b != [] && b[|b| - 1] > '0'
    ensures CompareText(Zeros(|b| + n), b + Zeros(n)) == -1
    decreases |b|
  {
    var z, p := Zeros(|b| + n), b + Zeros(n);
    assert z[0] == '0' && p[0] == b[0];
    if b[0] == '0' {
      assert z[1..] == Zeros(|b| - 1 + n) && p[1..] == b[1..] + Zeros(n);
      ZerosBelow(b[1..], n);
    }
  }

  /** A power of ten above the number, and one below it, from its adjusted exponent. */
  lemma MagnitudeBounds(d: Decimal)
    requires Normal(d) && !d.IsZero()
    ensures Scale10(d.Adjusted()) <= Magnitude(d.coef, d.exp) < Scale10(d.Adjusted() + 1)
  {
    var n := |d.coef|;
    ValBound(d.coef);
    ValLowerBound(d.coef);
    Scale10Add(d.exp, n - 1);
    Scale10Add(d.exp, n);
    TimesMono(Val(d.coef), Pow10(n), Scale10(d.exp));
    if Pow10(n - 1) < Val(d.coef) { TimesMono(Pow10(n - 1), Val(d.coef), Scale10(d.exp)); }
  }

  lemma {:induction false} Scale10Mono(a: int, b: int)
    requires a <= b
    ensures Scale10(a) <= Scale10(b)
    decreases b - a
  {
    if a < b {
      Scale10Mono(a, b - 1);
      assert Scale10(b) == 10.0 * Scale10(b - 1);
    }
  }

  lemma CompareMagnitudeIsSign(d: Decimal, e: Decimal)
    requires Normal(d) && Normal(e) && !d.IsZero() && !e.IsZero()
    ensures CompareMagnitude(d, e) == SignOf(Magnitude(d.coef, d.exp) - Magnitude(e.coef, e.exp))
  {
    MagnitudeBounds(d);
    MagnitudeBounds(e);
    if d.Adjusted() < e.Adjusted() {
      Scale10Mono(d.Adjusted() + 1, e.Adjusted());
    } else if d.Adjusted() > e.Adjusted() {
      Scale10Mono(e.Adjusted() + 1, d.Adjusted());
    } else {
      CompareAligned(d, e);
    }
  }

  /** With the first digits aligned, the texts decide. */
  lemma CompareAligned(d: Decimal, e: Decimal)
    requires Normal(d) && Normal(e) && !d.IsZero() && !e.IsZero() && d.Adjusted() == e.Adjusted()
    ensures CompareText(d.coef, e.coef) == SignOf(Magnitude(d.coef, d.exp) - Magnitude(e.coef, e.exp))
  {
    var len := if |d.coef| >= |e.coef| then |d.coef| else |e.coef|;
    var m, n := len - |d.coef|, len - |e.coef|;
    MagnitudePadded(d.coef, m, d.exp);
    MagnitudePadded(e.coef, n, e.exp);
    ComparePadded(d.coef, e.coef, m, n);
    var a, b, q := d.coef + Zeros(m), e.coef + Zeros(n), Scale10(d.exp - m);
    assert d.exp - m == e.exp - n;
    CompareSameLength(a, b);
    if Val(a) < Val(b) { TimesMono(Val(a), Val(b), q); }
    if Val(b) < Val(a) { TimesMono(Val(b), Val(a), q); }
  }

  /** `Compare` is the sign of the exact difference, and 0 only for one decimal. */
  lemma CompareIsSignOfDifference(d: Decimal, e: Decimal)
    requires Normal(d) && Normal(e)
    ensures Compare(d, e) == SignOf(Value(d) - Value(e))
    ensures Compare(d, e) == 0 <==> d == e
  {
    NonZeroValue(d);
    NonZeroValue(e);
    if d.Sign() == e.Sign() != 0 {
      CompareMagnitudeIsSign(d, e);
      CompareTextEqual(d.coef, e.coef);
    }
  }

  lemma NonZeroValue(d: Decimal)
    requires Normal(d)
    ensures SignOf(Value(d)) == d.Sign()
  {
    if d.IsZero() {
      assert Val("") == 0;
    } else {
      MagnitudeBounds(d);
    }
  }
}
