/** The texts of decimal numbers: the grammar that `new BigDecimal(String)` reads, and the
    cursor parser for it.

    `uni` stands for `unicode.IsDigit`; only what it says of ASCII is fixed. */
module DecimalTexts {
  import opened Numerals
  import opened Decimals
  import opened Sequences

  // ---- Unicode digits ----

  predicate AsciiDigit(c: char) { '0' <= c <= '9' }

  type UnicodeDigits = f: char -> bool | forall c :: c < '\U{80}' ==> f(c) == AsciiDigit(c)
    witness AsciiDigit

  predicate IsDigit(uni: UnicodeDigits, r: char) { r <= '\U{FFFF}' && uni(r) }

  /** How many digits stand in a row before `r`; no digit is a surrogate. */
  function DigitsBefore(uni: UnicodeDigits, r: char): nat
    decreases r
  {
    if r == '\U{0}' || r == '\U{E000}' then 0 else
    var p := (r as int - 1) as char;
    if uni(p) then 1 + DigitsBefore(uni, p) else 0
  }

  function DigitValue(uni: UnicodeDigits, r: char): (c: char)
    ensures AsciiDigit(c) && (AsciiDigit(r) ==> c == r)
  {
    if AsciiDigit(r) then r else DigitChar(DigitsBefore(uni, r) % 10)
  }

  predicate AllDigits(uni: UnicodeDigits, s: string) {
    forall i :: 0 <= i < |s| ==> IsDigit(uni, s[i])
  }

  function Ascii(uni: UnicodeDigits, s: string): (t: string)
    ensures |t| == |s| && IsDigits(t) && (IsDigits(s) ==> t == s)
  {
    seq(|s|, i requires 0 <= i < |s| => DigitValue(uni, s[i]))
  }

  lemma AsciiConcat(uni: UnicodeDigits, s: string, t: string)
    ensures Ascii(uni, s + t) == Ascii(uni, s) + Ascii(uni, t)
  {
  }

  // ---- The grammar ----

  /** [sign] digits [. digits] [e [sign] digits], with a digit before the exponent. */
  datatype Numeral = Numeral(sign: string, whole: string, point: bool, fraction: string,
                             mark: string, expSign: string, expDigits: string)

  predicate IsSign(s: string) { s == "" || s == "+" || s == "-" }

  predicate WellFormed(uni: UnicodeDigits, n: Numeral) {
    && IsSign(n.sign) && IsSign(n.expSign)
    && AllDigits(uni, n.whole) && AllDigits(uni, n.fraction) && AllDigits(uni, n.expDigits)
    && |n.whole| + |n.fraction| > 0
    && (!n.point ==> n.fraction == "")
    && (n.mark == "" || n.mark == "e" || n.mark == "E")
    && (n.mark == "" ==> n.expSign == "" && n.expDigits == "")
    && (n.mark != "" ==> n.expDigits != "")
  }

  function Point(point: bool): string { if point then "." else "" }

  function Exponent(n: Numeral): string { n.mark + (n.expSign + n.expDigits) }

  function Tail(n: Numeral): string { Point(n.point) + (n.fraction + Exponent(n)) }

  function Text(n: Numeral): string { n.sign + (n.whole + Tail(n)) }

  predicate Denotes(uni: UnicodeDigits, n: Numeral, s: string) {
    WellFormed(uni, n) && Text(n) == s
  }

  function DigitsOf(uni: UnicodeDigits, n: Numeral): (t: string)
    ensures IsDigits(t)
  {
    Ascii(uni, n.whole + n.fraction)
  }

  function ExpOf(uni: UnicodeDigits, n: Numeral): int {
    var e: int := Val(Ascii(uni, n.expDigits));
    if n.expSign == "-" then -e else e
  }

  /** The scale BigDecimal counts: digits after the point less the exponent. */
  function ScaleOf(uni: UnicodeDigits, n: Numeral): int { |n.fraction| - ExpOf(uni, n) }

  function DecimalOf(uni: UnicodeDigits, n: Numeral): (d: Decimal)
    ensures Normal(d)
  {
    NewDecimal(n.sign == "-", DigitsOf(uni, n), -ScaleOf(uni, n))
  }

  /** The rational number a numeral writes. */
  ghost function NumeralValue(uni: UnicodeDigits, n: Numeral): real {
    Signed(n.sign == "-", Magnitude(DigitsOf(uni, n), -ScaleOf(uni, n)))
  }

  lemma DecimalOfValue(uni: UnicodeDigits, n: Numeral)
    ensures Value(DecimalOf(uni, n)) == NumeralValue(uni, n)
  {
    NewDecimalValue(n.sign == "-", DigitsOf(uni, n), -ScaleOf(uni, n));
  }

  /** The order of two numerals is that of the numbers they denote, and they are equal as
      decimals exactly when they denote one number. */
  lemma CompareNumerals(uni: UnicodeDigits, n: Numeral, m: Numeral)
    ensures Compare(DecimalOf(uni, n), DecimalOf(uni, m)) == SignOf(NumeralValue(uni, n) - NumeralValue(uni, m))
    ensures DecimalOf(uni, n) == DecimalOf(uni, m) <==> NumeralValue(uni, n) == NumeralValue(uni, m)
  {
    DecimalOfValue(uni, n);
    DecimalOfValue(uni, m);
    CompareIsSignOfDifference(DecimalOf(uni, n), DecimalOf(uni, m));
  }

  // ---- One text, one numeral ----

  /** Two ways to split a text after its leading digits are one. */
  lemma SpanUnique(uni: UnicodeDigits, a: string, x: string, b: string, y: string)
    requires a + x == b + y && AllDigits(uni, a) && AllDigits(uni, b)
    requires x != [] ==> !IsDigit(uni, x[0])
    requires y != [] ==> !IsDigit(uni, y[0])
    ensures a == b && x == y
  {
    var s := a + x;
    assert s[..|a|] == a && s[|a|..] == x && s[..|b|] == b && s[|b|..] == y;
  }

  /** A sign is not the start of anything else. */
  lemma SignUnique(a: string, x: string, b: string, y: string)
    requires a + x == b + y && IsSign(a) && IsSign(b)
    requires a == "" && x != [] ==> x[0] != '+' && x[0] != '-'
    requires b == "" && y != [] ==> y[0] != '+' && y[0] != '-'
    ensures a == b && x == y
  {
    var s := a + x;
    assert s[..|a|] == a && s[|a|..] == x && s[..|b|] == b && s[|b|..] == y;
  }

  /** The parts of the mantissa as a reader from the left finds them. */
  ghost predicate ReadMantissa(uni: UnicodeDigits, sign: string, whole: string, point: bool, fraction: string, rest: string) {
    && IsSign(sign) && AllDigits(uni, whole) && AllDigits(uni, fraction)
    && (!point ==> fraction == "")
    && (rest != [] ==> !IsDigit(uni, rest[0]) && (!point ==> rest[0] != '.'))
    && (sign == "" && whole == "" && !point && rest != [] ==> rest[0] != '+' && rest[0] != '-')
  }

  lemma MantissaUnique(uni: UnicodeDigits, sign: string, whole: string, point: bool, fraction: string, rest: string, n: Numeral)
    requires ReadMantissa(uni, sign, whole, point, fraction, rest)
    requires Denotes(uni, n, sign + (whole + (Point(point) + (fraction + rest))))
    ensures n.sign == sign && n.whole == whole && n.point == point && n.fraction == fraction && Exponent(n) == rest
  {
    var tail := Point(point) + (fraction + rest);
    SignUnique(sign, whole + tail, n.sign, n.whole + Tail(n));
    SpanUnique(uni, whole, tail, n.whole, Tail(n));
    TailUnique(uni, point, fraction, rest, n);
  }

  lemma TailUnique(uni: UnicodeDigits, point: bool, fraction: string, rest: string, n: Numeral)
    requires AllDigits(uni, fraction) && (!point ==> fraction == "") && WellFormed(uni, n)
    requires rest != [] ==> !IsDigit(uni, rest[0]) && (!point ==> rest[0] != '.')
    requires Point(point) + (fraction + rest) == Tail(n)
    ensures n.point == point && n.fraction == fraction && Exponent(n) == rest
  {
    if point {
      assert Tail(n)[0] == '.';
      assert Tail(n)[1..] == fraction + rest;
      SpanUnique(uni, fraction, rest, n.fraction, Exponent(n));
    } else {
      assert Tail(n) == rest;
    }
  }

  lemma ExponentUnique(uni: UnicodeDigits, mark: char, sign: string, digits: string, n: Numeral)
    requires WellFormed(uni, n) && Exponent(n) == [mark] + (sign + digits)
    requires IsSign(sign)
    requires sign == "" && digits != [] ==> digits[0] != '+' && digits[0] != '-'
    ensures n.mark == [mark] && n.expSign == sign && n.expDigits == digits
  {
    var x := Exponent(n);
    assert x[0] == mark;
    assert n.mark == [mark];
    assert x[1..] == sign + digits && x[1..] == n.expSign + n.expDigits;
    SignUnique(sign, digits, n.expSign, n.expDigits);
  }

  /** A text has at most one numeral. */
  lemma NumeralUnique(uni: UnicodeDigits, n: Numeral, m: Numeral)
    requires WellFormed(uni, n) && WellFormed(uni, m) && Text(n) == Text(m)
    ensures n == m
  {
    MantissaUnique(uni, n.sign, n.whole, n.point, n.fraction, Exponent(n), m);
    if n.mark != "" {
      assert n.mark == [n.mark[0]];
      ExponentUnique(uni, n.mark[0], n.expSign, n.expDigits, m);
    }
  }

  // ---- The parser ----

  const MAX_EXPONENT := 0x1000_0000_0000_0000 // 2^60

  predicate InRange(uni: UnicodeDigits, n: Numeral) {
    -MAX_EXPONENT <= ExpOf(uni, n) <= MAX_EXPONENT
  }

  /** The texts the parser accepts: a numeral with an exponent of at most 2^60. */
  ghost predicate Accepted(uni: UnicodeDigits, s: string) {
    exists n :: Denotes(uni, n, s) && InRange(uni, n)
  }

  /** The numeral of an accepted text; `NumeralUnique` says there is no other. */
  ghost function NumeralOf(uni: UnicodeDigits, s: string): (n: Numeral)
    requires Accepted(uni, s)
    ensures Denotes(uni, n, s) && InRange(uni, n)
  {
    var n :| Denotes(uni, n, s) && InRange(uni, n); n
  }

  lemma NumeralOfIs(uni: UnicodeDigits, n: Numeral, s: string)
    requires Denotes(uni, n, s)
    ensures Accepted(uni, s) <==> InRange(uni, n)
    ensures Accepted(uni, s) ==> NumeralOf(uni, s) == n
  {
    if Accepted(uni, s) { NumeralUnique(uni, n, NumeralOf(uni, s)); }
  }

  /** The digits from `i` on, as ASCII, and where they end. */
  method ReadDigits(uni: UnicodeDigits, s: string, i: nat) returns (j: nat, digits: string)
    requires i <= |s|
    ensures i <= j <= |s| && AllDigits(uni, s[i..j]) && digits == Ascii(uni, s[i..j])
    ensures j < |s| ==> !IsDigit(uni, s[j])
  {
    j, digits := i, "";
    while j < |s| && IsDigit(uni, s[j])
      invariant i <= j <= |s| && AllDigits(uni, s[i..j]) && digits == Ascii(uni, s[i..j])
    {
      digits := digits + [DigitValue(uni, s[j])];
      SliceSnoc(s, i, j);
      AsciiSnoc(uni, s[i..j], s[j]);
      j := j + 1;
    }
  }

  lemma AsciiSnoc(uni: UnicodeDigits, s: string, c: char)
    ensures Ascii(uni, s + [c]) == Ascii(uni, s) + [DigitValue(uni, c)]
    ensures Val(Ascii(uni, s + [c])) == 10 * Val(Ascii(uni, s)) + Digit(DigitValue(uni, c))
    ensures AllDigits(uni, s) && IsDigit(uni, c) ==> AllDigits(uni, s + [c])
  {
    var t := Ascii(uni, s + [c]);
    assert t[..|s|] == Ascii(uni, s);
  }

  /** The value of the digits from `i` on, or not ok once it exceeds the bound. */
  method ReadExponent(uni: UnicodeDigits, s: string, i: nat) returns (j: nat, exp: nat, ok: bool)
    requires i <= |s|
    ensures i <= j <= |s| && AllDigits(uni, s[i..j])
    ensures ok ==> exp == Val(Ascii(uni, s[i..j])) <= MAX_EXPONENT && (j < |s| ==> !IsDigit(uni, s[j]))
    ensures !ok ==> i < j && Val(Ascii(uni, s[i..j])) > MAX_EXPONENT
  {
    j, exp := i, 0;
    assert s[i..i] == "" && Ascii(uni, "") == "" && Val("") == 0;
    while j < |s| && IsDigit(uni, s[j])
      invariant i <= j <= |s| && AllDigits(uni, s[i..j]) && exp == Val(Ascii(uni, s[i..j])) <= MAX_EXPONENT
    {
      var d := Digit(DigitValue(uni, s[j]));
      ReadStep(uni, s, i, j);
      Overflows(exp, d);
      if exp > (MAX_EXPONENT - d) / 10 {
        return j + 1, exp, false;
      }
      exp := exp * 10 + d;
      j := j + 1;
    }
    ok := true;
  }

  lemma ReadStep(uni: UnicodeDigits, s: string, i: nat, j: nat)
    requires i <= j < |s| && AllDigits(uni, s[i..j]) && IsDigit(uni, s[j])
    ensures AllDigits(uni, s[i..j + 1])
    ensures Val(Ascii(uni, s[i..j + 1])) == 10 * Val(Ascii(uni, s[i..j])) + Digit(DigitValue(uni, s[j]))
  {
    SliceSnoc(s, i, j);
    ValAppended(uni, s[i..j], s[j]);
  }

  lemma ValAppended(uni: UnicodeDigits, read: string, c: char)
    requires AllDigits(uni, read) && IsDigit(uni, c)
    ensures AllDigits(uni, read + [c])
    ensures Val(Ascii(uni, read + [c])) == 10 * Val(Ascii(uni, read)) + Digit(DigitValue(uni, c))
  {
    AsciiSnoc(uni, read, c);
    var a := Ascii(uni, read);
    assert (a + [DigitValue(uni, c)])[..|a|] == a;
  }

  /** The test of the next digit against the bound. */
  lemma Overflows(exp: nat, d: nat)
    requires d <= 9
    ensures exp > (MAX_EXPONENT - d) / 10 <==> exp * 10 + d > MAX_EXPONENT
  {
  }

  lemma {:induction false} ValPrefix(a: string, b: string)
    requires IsDigits(b) && a <= b
    ensures IsDigits(a) && Val(a) <= Val(b)
    decreases |b|
  {
    if |a| < |b| {
      ValPrefix(a, b[..|b| - 1]);
    } else {
      assert a == b;
    }
  }

  /** The mantissa of `s` as read: a sign up to `i`, digits up to `j`, and then a point
      and digits up to `k`, when there is a point. */
  ghost predicate MantissaAt(uni: UnicodeDigits, s: string, i: nat, j: nat, k: nat, point: bool) {
    && i <= j <= k <= |s|
    && i == (if s != "" && (s[0] == '+' || s[0] == '-') then 1 else 0)
    && AllDigits(uni, s[i..j]) && (j < |s| ==> !IsDigit(uni, s[j]))
    && (point <==> j < |s| && s[j] == '.')
    && (if point then j < k && AllDigits(uni, s[j + 1..k]) && (k < |s| ==> !IsDigit(uni, s[k])) else k == j)
  }

  function MantissaOf(s: string, i: nat, j: nat, k: nat, point: bool): Numeral
    requires i <= j <= k <= |s| && (point ==> j < k)
  {
    Numeral(s[..i], s[i..j], point, if point then s[j + 1..k] else "", "", "", "")
  }

  ghost predicate SameMantissa(n: Numeral, m: Numeral) {
    n.sign == m.sign && n.whole == m.whole && n.point == m.point && n.fraction == m.fraction
  }

  lemma PointSplit(s: string, j: nat, k: nat)
    requires j < k <= |s| && s[j] == '.'
    ensures s[j..] == "." + (s[j + 1..k] + s[k..])
  {
    SliceJoin(s, j + 1, k, |s|);
    assert s[j + 1..|s|] == s[j + 1..] && s[k..|s|] == s[k..];
  }

  lemma Reassemble(s: string, i: nat, j: nat, k: nat, point: bool)
    requires i <= j <= k <= |s| && (if point then j < k && s[j] == '.' else j == k)
    ensures s == s[..i] + (s[i..j] + (Point(point) + ((if point then s[j + 1..k] else "") + s[k..])))
  {
    assert s == s[..i] + (s[i..j] + s[j..]);
    if point { PointSplit(s, j, k); } else { assert "" + ("" + s[k..]) == s[k..]; }
  }

  lemma MantissaRead(uni: UnicodeDigits, s: string, i: nat, j: nat, k: nat, point: bool, fraction: string)
    requires MantissaAt(uni, s, i, j, k, point) && fraction == if point then s[j + 1..k] else ""
    ensures ReadMantissa(uni, s[..i], s[i..j], point, fraction, s[k..])
  {
    assert IsSign(s[..i]);
    assert k < |s| ==> s[k..][0] == s[k];
  }

  /** Every numeral of `s` has the mantissa read, and the text after it as exponent. */
  lemma MantissaIs(uni: UnicodeDigits, s: string, i: nat, j: nat, k: nat, point: bool, n: Numeral)
    requires MantissaAt(uni, s, i, j, k, point) && Denotes(uni, n, s)
    ensures SameMantissa(n, MantissaOf(s, i, j, k, point)) && Exponent(n) == s[k..]
  {
    var fraction := if point then s[j + 1..k] else "";
    Reassemble(s, i, j, k, point);
    MantissaRead(uni, s, i, j, k, point, fraction);
    MantissaUnique(uni, s[..i], s[i..j], point, fraction, s[k..], n);
  }

  /** The mantissa read, with the exponent read, writes `s`. */
  lemma MantissaWith(uni: UnicodeDigits, s: string, i: nat, j: nat, k: nat, point: bool, n: Numeral)
    requires MantissaAt(uni, s, i, j, k, point)
    requires SameMantissa(n, MantissaOf(s, i, j, k, point)) && Exponent(n) == s[k..]
    ensures Text(n) == s
  {
    Reassemble(s, i, j, k, point);
  }

  /** With no digit in the mantissa, or with something other than an exponent after
      it, no numeral writes the text. */
  lemma NotANumeral(uni: UnicodeDigits, s: string, i: nat, j: nat, k: nat, point: bool)
    requires MantissaAt(uni, s, i, j, k, point)
    requires (i == j && (point ==> j + 1 == k)) || (k < |s| && s[k] != 'e' && s[k] != 'E')
    ensures !Accepted(uni, s)
  {
    if Accepted(uni, s) {
      MantissaIs(uni, s, i, j, k, point, NumeralOf(uni, s));
    }
  }

  /** The whole text is a mantissa. */
  lemma PlainNumeral(uni: UnicodeDigits, s: string, i: nat, j: nat, k: nat, point: bool)
    requires MantissaAt(uni, s, i, j, k, point) && k == |s|
    requires i < j || (point && j + 1 < k)
    ensures Accepted(uni, s) && NumeralOf(uni, s) == MantissaOf(s, i, j, k, point)
    ensures ExpOf(uni, NumeralOf(uni, s)) == 0
  {
    var m := MantissaOf(s, i, j, k, point);
    MantissaWith(uni, s, i, j, k, point, m);
    assert IsSign(s[..i]) && Ascii(uni, "") == "";
    assert ExpOf(uni, m) == 0;
    NumeralOfIs(uni, m, s);
  }

  lemma StartsLikeANumber(uni: UnicodeDigits, s: string)
    requires Accepted(uni, s)
    ensures s != "" && (s[0] == '+' || s[0] == '-' || s[0] == '.' || IsDigit(uni, s[0]))
  {
    var n := NumeralOf(uni, s);
    if n.sign == "" {
      assert s == n.whole + Tail(n);
      if n.whole == "" {
        assert n.point;
        assert s[0] == '.';
      } else {
        assert s[0] == n.whole[0];
      }
    } else {
      assert s[0] == n.sign[0];
    }
  }

  // ---- The exponent ----

  /** What stands after the mark: a sign, which an empty one cannot be, and the rest. */
  ghost predicate ExponentAt(t: string, sign: string, digits: string) {
    && t != "" && (t[0] == 'e' || t[0] == 'E')
    && t == [t[0]] + (sign + digits) && IsSign(sign)
    && (sign == "" && digits != "" ==> digits[0] != '+' && digits[0] != '-')
  }

  function SignedVal(sign: string, v: nat): int { if sign == "-" then -(v as int) else v }

  /** Digits that stop short, or exceed the bound, are no exponent in range. */
  lemma ExponentRefused(uni: UnicodeDigits, digits: string, j: nat)
    requires j <= |digits|
    requires digits == [] || (j < |digits| && !IsDigit(uni, digits[j])) || Val(Ascii(uni, digits[..j])) > MAX_EXPONENT
    ensures digits == [] || !AllDigits(uni, digits) || Val(Ascii(uni, digits)) > MAX_EXPONENT
  {
    var a := Ascii(uni, digits);
    assert a[..j] == Ascii(uni, digits[..j]);
    ValPrefix(a[..j], a);
  }

  /** Where the digits of an exponent start: after its mark and its sign. */
  function DigitsStart(t: string): (i: nat)
    requires t != ""
    ensures 1 <= i <= |t|
  {
    if 1 < |t| && (t[1] == '+' || t[1] == '-') then 2 else 1
  }

  lemma ExponentSplit(t: string)
    requires t != "" && (t[0] == 'e' || t[0] == 'E')
    ensures ExponentAt(t, t[1..DigitsStart(t)], t[DigitsStart(t)..])
    ensures t[1..DigitsStart(t)] == if DigitsStart(t) == 1 then "" else if t[1] == '-' then "-" else "+"
  {
    SliceJoin(t, 1, DigitsStart(t), |t|);
  }

  /** Reads `t`, the text from the exponent's mark on. */
  method ParseExponent(uni: UnicodeDigits, t: string) returns (exp: int, ok: bool)
    requires t != "" && (t[0] == 'e' || t[0] == 'E')
    ensures var digits := t[DigitsStart(t)..];
            ok <==> digits != "" && AllDigits(uni, digits) && Val(Ascii(uni, digits)) <= MAX_EXPONENT
    ensures ok ==> exp == SignedVal(t[1..DigitsStart(t)], Val(Ascii(uni, t[DigitsStart(t)..])))
  {
    var i := if 1 < |t| && (t[1] == '+' || t[1] == '-') then 2 else 1;
    ExponentSplit(t);
    var j, e, good := ReadExponent(uni, t, i);
    ok := good && i < j && j == |t|;
    exp := if i == 2 && t[1] == '-' then -(e as int) else e;
    Sliced(t, i, j);
    if !ok { ExponentRefused(uni, t[i..], j - i); }
  }

  lemma Sliced(t: string, i: nat, j: nat)
    requires i <= j <= |t|
    ensures t[i..j] == t[i..][..j - i] && (j == |t| ==> t[i..j] == t[i..])
  {
  }

  /** An exponent that can be read, and is in range. */
  ghost predicate ExponentGood(uni: UnicodeDigits, digits: string) {
    digits != "" && AllDigits(uni, digits) && Val(Ascii(uni, digits)) <= MAX_EXPONENT
  }

  lemma WithGoodExponent(uni: UnicodeDigits, s: string, i: nat, j: nat, k: nat, point: bool, sign: string, digits: string, n: Numeral)
    requires MantissaAt(uni, s, i, j, k, point) && ExponentAt(s[k..], sign, digits) && (i < j || (point && j + 1 < k))
    requires ExponentGood(uni, digits)
    requires n == MantissaOf(s, i, j, k, point).(mark := [s[k]], expSign := sign, expDigits := digits)
    ensures Denotes(uni, n, s) && ExpOf(uni, n) == SignedVal(sign, Val(Ascii(uni, digits))) && InRange(uni, n)
  {
    assert IsSign(s[..i]);
    MantissaWith(uni, s, i, j, k, point, n);
  }

  lemma ExponentIsGood(uni: UnicodeDigits, s: string, i: nat, j: nat, k: nat, point: bool, sign: string, digits: string, n: Numeral)
    requires MantissaAt(uni, s, i, j, k, point) && ExponentAt(s[k..], sign, digits)
    requires Denotes(uni, n, s) && InRange(uni, n)
    ensures ExponentGood(uni, digits)
  {
    MantissaIs(uni, s, i, j, k, point, n);
    ExponentUnique(uni, s[k], sign, digits, n);
  }

  /** The mantissa and the exponent read decide the whole text. */
  lemma WithExponent(uni: UnicodeDigits, s: string, i: nat, j: nat, k: nat, point: bool, sign: string, digits: string)
    requires MantissaAt(uni, s, i, j, k, point) && ExponentAt(s[k..], sign, digits)
    requires i < j || (point && j + 1 < k)
    ensures Accepted(uni, s) <==> ExponentGood(uni, digits)
    ensures Accepted(uni, s) ==> SameMantissa(NumeralOf(uni, s), MantissaOf(s, i, j, k, point))
    ensures Accepted(uni, s) ==> ExpOf(uni, NumeralOf(uni, s)) == SignedVal(sign, Val(Ascii(uni, digits)))
  {
    var n := MantissaOf(s, i, j, k, point).(mark := [s[k]], expSign := sign, expDigits := digits);
    if Accepted(uni, s) { ExponentIsGood(uni, s, i, j, k, point, sign, digits, NumeralOf(uni, s)); }
    if ExponentGood(uni, digits) {
      WithGoodExponent(uni, s, i, j, k, point, sign, digits, n);
      NumeralOfIs(uni, n, s);
    }
  }

  // ---- The whole text ----

  lemma ParsedIs(uni: UnicodeDigits, m: Numeral, n: Numeral, neg: bool, digits: string, fracDigits: nat, exp: int)
    requires SameMantissa(n, m) && exp == ExpOf(uni, n)
    requires neg == (m.sign == "-") && digits == DigitsOf(uni, m) && fracDigits == |m.fraction|
    ensures DecimalOf(uni, n) == NewDecimal(neg, digits, exp - fracDigits)
    ensures ScaleOf(uni, n) == fracDigits - exp
  {
  }

  /** Reads the digits from `i` on, with a point among them, up to `k`. */
  method ParseMantissa(uni: UnicodeDigits, s: string, i: nat) returns (j: nat, k: nat, point: bool, digits: string, fracDigits: nat)
    requires i == (if s != "" && (s[0] == '+' || s[0] == '-') then 1 else 0)
    ensures MantissaAt(uni, s, i, j, k, point)
    ensures digits == DigitsOf(uni, MantissaOf(s, i, j, k, point))
    ensures fracDigits == |MantissaOf(s, i, j, k, point).fraction|
  {
    j, digits := ReadDigits(uni, s, i);
    point := j < |s| && s[j] == '.';
    k, fracDigits := j, 0;
    if point {
      var more;
      k, more := ReadDigits(uni, s, j + 1);
      AsciiConcat(uni, s[i..j], s[j + 1..k]);
      digits, fracDigits := digits + more, |more|;
    } else {
      assert s[i..j] + "" == s[i..j];
    }
  }

  /** Reads what stands after the mantissa: nothing, or an exponent. */
  method ParseAfterMantissa(uni: UnicodeDigits, s: string, ghost i: nat, ghost j: nat, k: nat, ghost point: bool, digits: nat)
      returns (exp: int, ok: bool)
    requires MantissaAt(uni, s, i, j, k, point) && digits == j - i + (if point then k - (j + 1) else 0)
    ensures ok <==> Accepted(uni, s)
    ensures ok ==> SameMantissa(NumeralOf(uni, s), MantissaOf(s, i, j, k, point)) && exp == ExpOf(uni, NumeralOf(uni, s))
  {
    exp, ok := 0, false;
    if digits == 0 {
      NotANumeral(uni, s, i, j, k, point);
    } else if k == |s| {
      PlainNumeral(uni, s, i, j, k, point);
      ok := true;
    } else if s[k] == 'e' || s[k] == 'E' {
      ghost var t := s[k..];
      ExponentSplit(t);
      exp, ok := ParseExponent(uni, s[k..]);
      WithExponent(uni, s, i, j, k, point, t[1..DigitsStart(t)], t[DigitsStart(t)..]);
    } else {
      NotANumeral(uni, s, i, j, k, point);
    }
  }

  /** Reads a whole text: accepted exactly when some numeral in range writes it, and
      then the decimal and the scale are that numeral's. */
  method ParseDecimal(uni: UnicodeDigits, s: string) returns (d: Decimal, scale: int, ok: bool)
    ensures ok <==> Accepted(uni, s)
    ensures ok ==> d == DecimalOf(uni, NumeralOf(uni, s)) && scale == ScaleOf(uni, NumeralOf(uni, s))
  {
    if s == "" || (s[0] < '\U{80}' && s[0] != '+' && s[0] != '-' && s[0] != '.' && !AsciiDigit(s[0])) {
      if Accepted(uni, s) { StartsLikeANumber(uni, s); }
      return ZERO, 0, false;
    }
    d, scale, ok := ParseSigned(uni, s, s[0] == '-', if s[0] == '+' || s[0] == '-' then 1 else 0);
  }

  lemma MantissaFacts(uni: UnicodeDigits, s: string, i: nat, j: nat, k: nat, point: bool)
    requires s != "" && MantissaAt(uni, s, i, j, k, point)
    ensures var m := MantissaOf(s, i, j, k, point);
            && |DigitsOf(uni, m)| == j - i + (if point then k - (j + 1) else 0)
            && (s[0] == '-' <==> m.sign == "-")
  {
    var m := MantissaOf(s, i, j, k, point);
    assert i == 1 ==> s[..i] == [s[0]];
    assert |m.whole + m.fraction| == |m.whole| + |m.fraction|;
  }

  /** Reads what stands from `i` on, after the sign. */
  method ParseSigned(uni: UnicodeDigits, s: string, neg: bool, i: nat) returns (d: Decimal, scale: int, ok: bool)
    requires s != "" && neg == (s[0] == '-') && i == if s[0] == '+' || s[0] == '-' then 1 else 0
    ensures ok <==> Accepted(uni, s)
    ensures ok ==> d == DecimalOf(uni, NumeralOf(uni, s)) && scale == ScaleOf(uni, NumeralOf(uni, s))
  {
    d, scale := ZERO, 0;
    var j, k, point, digits, fracDigits := ParseMantissa(uni, s, i);
    ghost var m := MantissaOf(s, i, j, k, point);
    MantissaFacts(uni, s, i, j, k, point);
    var exp;
    exp, ok := ParseAfterMantissa(uni, s, i, j, k, point, |digits|);
    if !ok { return; }
    d, scale := NewDecimal(neg, digits, exp - fracDigits), fracDigits - exp;
    ParsedIs(uni, m, NumeralOf(uni, s), neg, digits, fracDigits, exp);
  }
}
