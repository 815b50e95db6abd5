/** The quoted text `strconv.AppendQuote` writes for a string, and that it can be read
    back: a quoted string is never the start of another one. */
module Quoting {
  import opened Characters
  import opened Sequences

  /** `isPrint` stands for `strconv.IsPrint`. */
  type Printable = char -> bool

  /** The last `width` hexadecimal digits of `n`. */
  function Hex(n: nat, width: nat): (s: string)
    ensures |s| == width
  {
    if width == 0 then "" else Hex(n / 16, width - 1) + [HexChar(n % 16)]
  }

  function Pow16(n: nat): nat { if n == 0 then 1 else 16 * Pow16(n - 1) }

  lemma {:induction false} HexInjective(a: nat, b: nat, width: nat)
    requires Hex(a, width) == Hex(b, width) && a < Pow16(width) && b < Pow16(width)
    ensures a == b
    decreases width
  {
    if width > 0 {
      var s, t := Hex(a, width), Hex(b, width);
      assert s[..width - 1] == Hex(a / 16, width - 1) && t[..width - 1] == Hex(b / 16, width - 1);
      assert s[width - 1] == HexChar(a % 16) && t[width - 1] == HexChar(b % 16);
      HexInjective(a / 16, b / 16, width - 1);
    }
  }

  /** The letter of a control character that has an escape of its own, or a space. */
  function ShortEscape(r: char): char {
    match r
    case '\U{07}' => 'a'
    case '\U{08}' => 'b'
    case '\U{0C}' => 'f'
    case '\n' => 'n'
    case '\r' => 'r'
    case '\t' => 't'
    case '\U{0B}' => 'v'
    case _ => ' '
  }

  /** What follows the backslash. */
  function EscapeBody(r: char): string {
    if r == '"' || r == '\\' then [r]
    else if ShortEscape(r) != ' ' then [ShortEscape(r)]
    else if r < ' ' || r == '\U{7F}' then "x" + Hex(r as int, 2)
    else if r < '\U{10000}' then "u" + Hex(r as int, 4)
    else "U" + Hex(r as int, 8)
  }

  predicate Raw(isPrint: Printable, r: char) { r != '"' && r != '\\' && isPrint(r) }

  function QuoteRune(isPrint: Printable, r: char): (s: string)
    ensures s != [] && s[0] != '"'
  {
    if Raw(isPrint, r) then [r] else "\\" + EscapeBody(r)
  }

  function QuoteRest(isPrint: Printable, s: string): string {
    if s == "" then "\"" else QuoteRune(isPrint, s[0]) + QuoteRest(isPrint, s[1..])
  }

  function Quote(isPrint: Printable, s: string): string { "\"" + QuoteRest(isPrint, s) }

  /** The digits an escape of a kind carries, from its letter. */
  function HexWidth(c: char): nat { if c == 'x' then 2 else if c == 'u' then 4 else if c == 'U' then 8 else 0 }

  lemma EscapeShape(r: char)
    ensures var e := EscapeBody(r); e != [] && |e| == 1 + HexWidth(e[0])
    ensures var e := EscapeBody(r); HexWidth(e[0]) > 0 ==> e[1..] == Hex(r as int, HexWidth(e[0])) && (r as int) < Pow16(HexWidth(e[0]))
  {
    assert Pow16(2) == 256 by { assert Pow16(1) == 16; }
    assert Pow16(4) == 0x10000 by { assert Pow16(3) == 0x1000; }
    assert Pow16(8) == 0x1_0000_0000 by { assert Pow16(5) == 0x10_0000; assert Pow16(6) == 0x100_0000; assert Pow16(7) == 0x1000_0000; }
  }

  lemma EscapeUnique(r: char, x: string, q: char, y: string)
    requires EscapeBody(r) + x == EscapeBody(q) + y
    ensures r == q && x == y
  {
    EscapeShape(r);
    EscapeShape(q);
    SameFirst(EscapeBody(r), x, EscapeBody(q), y);
    Cut(EscapeBody(r), x, EscapeBody(q), y);
    EscapeInjective(r, q);
  }

  lemma EscapeInjective(r: char, q: char)
    requires EscapeBody(r) == EscapeBody(q)
    ensures r == q
  {
    EscapeShape(r);
    EscapeShape(q);
    var w := HexWidth(EscapeBody(r)[0]);
    if w > 0 { HexInjective(r as int, q as int, w); }
  }

  lemma QuoteRuneUnique(isPrint: Printable, r: char, x: string, q: char, y: string)
    requires QuoteRune(isPrint, r) + x == QuoteRune(isPrint, q) + y
    ensures r == q && x == y
  {
    SameFirst(QuoteRune(isPrint, r), x, QuoteRune(isPrint, q), y);
    if Raw(isPrint, r) {
      Cut([r], x, [q], y);
    } else {
      Assoc("\\", EscapeBody(r), x);
      Assoc("\\", EscapeBody(q), y);
      Cut("\\", EscapeBody(r) + x, "\\", EscapeBody(q) + y);
      EscapeUnique(r, x, q, y);
    }
  }

  lemma QuoteRestStarts(isPrint: Printable, s: string)
    ensures var t := QuoteRest(isPrint, s); t != [] && (t[0] == '"' <==> s == "")
  {
  }

  lemma {:induction false} QuoteRestUnique(isPrint: Printable, s: string, x: string, t: string, y: string)
    requires QuoteRest(isPrint, s) + x == QuoteRest(isPrint, t) + y
    ensures s == t && x == y
    decreases |s|
  {
    QuoteRestStarts(isPrint, s);
    QuoteRestStarts(isPrint, t);
    SameFirst(QuoteRest(isPrint, s), x, QuoteRest(isPrint, t), y);
    if s == "" {
      Cut("\"", x, "\"", y);
    } else {
      var a, b := QuoteRest(isPrint, s[1..]), QuoteRest(isPrint, t[1..]);
      Assoc(QuoteRune(isPrint, s[0]), a, x);
      Assoc(QuoteRune(isPrint, t[0]), b, y);
      QuoteRuneUnique(isPrint, s[0], a + x, t[0], b + y);
      QuoteRestUnique(isPrint, s[1..], x, t[1..], y);
      assert s == [s[0]] + s[1..] && t == [t[0]] + t[1..];
    }
  }

  /** Two texts that start with a quoted string start with the same one. */
  lemma QuoteUnique(isPrint: Printable, s: string, x: string, t: string, y: string)
    requires Quote(isPrint, s) + x == Quote(isPrint, t) + y
    ensures s == t && x == y
  {
    var a, b := QuoteRest(isPrint, s), QuoteRest(isPrint, t);
    Assoc("\"", a, x);
    Assoc("\"", b, y);
    Cut("\"", a + x, "\"", b + y);
    QuoteRestUnique(isPrint, s, x, t, y);
  }
}
