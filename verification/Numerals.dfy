/** Digit strings, powers of ten, and the decimal text of an integer. */
module Numerals {

  predicate IsDigits(s: string) {
    forall i :: 0 <= i < |s| ==> '0' <= s[i] <= '9'
  }

  function Digit(c: char): nat
    requires '0' <= c <= '9'
  {
    c as int - '0' as int
  }

  function DigitChar(n: nat): (c: char)
    requires n < 10
    ensures '0' <= c <= '9' && Digit(c) == n
  {
    (n + '0' as int) as char
  }

  /** The number a digit string writes. */
  function Val(s: string): nat
    requires IsDigits(s)
  {
    if s == [] then 0 else 10 * Val(s[..|s| - 1]) + Digit(s[|s| - 1])
  }

  function Pow10(n: nat): (p: nat)
    ensures p > 0
  {
    if n == 0 then 1 else 10 * Pow10(n - 1)
  }

  function Zeros(n: nat): (s: string)
    ensures |s| == n && IsDigits(s)
  {
    seq(n, _ => '0')
  }

  lemma {:induction false} Pow10Add(m: nat, n: nat)
    ensures Pow10(m + n) == Pow10(m) * Pow10(n)
  {
    if m > 0 {
      Pow10Add(m - 1, n);
      assert Pow10(m + n) == 10 * Pow10(m - 1 + n);
      assert 10 * (Pow10(m - 1) * Pow10(n)) == (10 * Pow10(m - 1)) * Pow10(n);
    }
  }

  lemma {:induction false} Pow10Mono(m: nat, n: nat)
    requires m <= n
    ensures Pow10(m) <= Pow10(n)
  {
    if m < n { Pow10Mono(m, n - 1); }
  }

  lemma {:induction false} ValConcat(s: string, t: string)
    requires IsDigits(s) && IsDigits(t)
    ensures IsDigits(s + t) && Val(s + t) == Val(s) * Pow10(|t|) + Val(t)
    decreases |t|
  {
    if t == [] {
      assert s + t == s;
    } else {
      var t' := t[..|t| - 1];
      ValConcat(s, t');
      assert (s + t)[..|s + t| - 1] == s + t';
      assert 10 * (Val(s) * Pow10(|t'|)) == Val(s) * (10 * Pow10(|t'|));
    }
  }

  lemma {:induction false} ValZeros(n: nat)
    ensures Val(Zeros(n)) == 0
  {
    if n > 0 {
      ValZeros(n - 1);
      assert Zeros(n)[..n - 1] == Zeros(n - 1);
    }
  }

  lemma {:induction false} ValBound(s: string)
    requires IsDigits(s)
    ensures Val(s) < Pow10(|s|)
    decreases |s|
  {
    if s != [] { ValBound(s[..|s| - 1]); }
  }

  /** A first digit other than zero makes the number as long as its text. */
  lemma {:induction false} ValLowerBound(s: string)
    requires IsDigits(s) && s != [] && s[0] != '0'
    ensures Val(s) >= Pow10(|s| - 1)
    decreases |s|
  {
    if |s| > 1 {
      ValLowerBound(s[..|s| - 1]);
    } else {
      assert s[..0] == [];
      assert Val(s) == Digit(s[0]);
    }
  }

  lemma SameDigits(a: nat, x: nat, b: nat, y: nat)
    requires 10 * a + x == 10 * b + y && x < 10 && y < 10
    ensures a == b && x == y
  {
  }

  /** Digit strings of one length that write the same number are the same. */
  lemma {:induction false} ValInjective(s: string, t: string)
    requires IsDigits(s) && IsDigits(t) && |s| == |t| && Val(s) == Val(t)
    ensures s == t
    decreases |s|
  {
    if s != [] {
      var s', x, t', y := s[..|s| - 1], s[|s| - 1], t[..|t| - 1], t[|t| - 1];
      SameDigits(Val(s'), Digit(x), Val(t'), Digit(y));
      ValInjective(s', t');
      assert s == s' + [x] && t == t' + [y];
    }
  }

  // ---- The text of an integer ----

  function FormatNat(n: nat): (s: string)
    ensures s != [] && IsDigits(s) && (n > 0 ==> s[0] != '0')
    ensures Val(s) == n
  {
    if n < 10 then
      var s := [DigitChar(n)];
      assert s[..0] == [] && Val(s) == 10 * Val([]) + Digit(s[0]);
      s
    else
      var t := FormatNat(n / 10);
      var s := t + [DigitChar(n % 10)];
      assert s[..|s| - 1] == t;
      s
  }

  function FormatInt(i: int): (s: string)
    ensures s != []
  {
    if i < 0 then "-" + FormatNat(-i) else FormatNat(i)
  }

  /** Two integers with one text are the same integer. */
  lemma FormatIntInjective(i: int, j: int)
    requires FormatInt(i) == FormatInt(j)
    ensures i == j
  {
    if i < 0 {
      assert FormatInt(j)[0] == '-';
      assert FormatInt(i)[1..] == FormatNat(-i);
      assert FormatInt(j)[1..] == FormatNat(-j);
    }
  }

  // ---- Powers of ten with any exponent ----

  function Scale10(e: int): (p: real)
    ensures p > 0.0
    decreases if e < 0 then -e else e
  {
    if e == 0 then 1.0 else if e > 0 then 10.0 * Scale10(e - 1) else Scale10(e + 1) / 10.0
  }

  /** `v` times `q`, as a sum, so that a proof about it stays linear. */
  ghost function Times(v: nat, q: real): real {
    if v == 0 then 0.0 else Times(v - 1, q) + q
  }

  lemma {:induction false} TimesIsProduct(v: nat, q: real)
    ensures Times(v, q) == v as real * q
  {
    if v > 0 {
      TimesIsProduct(v - 1, q);
      assert (v - 1) as real * q + q == v as real * q;
    }
  }

  lemma TimesMono(a: nat, b: nat, q: real)
    requires a < b && q > 0.0
    ensures 0.0 <= Times(a, q) < Times(b, q)
  {
    TimesIsProduct(a, q);
    TimesIsProduct(b, q);
    var x, y := a as real, b as real;
    assert x * q < y * q;
  }

  lemma {:induction false} TimesAdd(a: nat, b: nat, q: real)
    ensures Times(a + b, q) == Times(a, q) + Times(b, q)
    decreases b
  {
    if b > 0 { TimesAdd(a, b - 1, q); }
  }

  lemma {:induction false} TimesTimes(v: nat, p: nat, q: real)
    ensures Times(v * p, q) == Times(v, Times(p, q))
    decreases v
  {
    if v > 0 {
      TimesTimes(v - 1, p, q);
      assert v * p == (v - 1) * p + p;
      TimesAdd((v - 1) * p, p, q);
    }
  }

  lemma {:induction false} Scale10Add(e: int, n: nat)
    ensures Scale10(e + n) == Times(Pow10(n), Scale10(e))
    decreases n
  {
    if n == 0 {
      assert Times(1, Scale10(e)) == Times(0, Scale10(e)) + Scale10(e);
    } else {
      Scale10Add(e, n - 1);
      assert Scale10(e + n) == 10.0 * Scale10(e + n - 1);
      TimesTimes(10, Pow10(n - 1), Scale10(e));
      TimesIsProduct(10, Times(Pow10(n - 1), Scale10(e)));
    }
  }
}
