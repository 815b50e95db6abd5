/** The translation of a java.util.regex bracket class into Go's syntax.

    The text written is read by Go's rules for a bracket class, and matches exactly the
    characters of the class as written, closed under ASCII case with the flag i. */
module CharClasses {
  import opened Characters
  import opened Sequences

  // ---- Characters ----

  predicate IsLetter(c: char) { 'a' <= c <= 'z' || 'A' <= c <= 'Z' }

  predicate IsAlnum(c: char) { IsLetter(c) || '0' <= c <= '9' }

  function SwapCase(c: char): char
    requires IsLetter(c)
  {
    if 'a' <= c <= 'z' then (c as int - 32) as char else (c as int + 32) as char
  }

  /** One member of a class: a range of characters, or \d, \D, \w, or \W. */
  datatype Item = Range(lo: char, hi: char) | Perl(name: char)

  predicate InItem(x: Item, c: char) {
    match x
    case Range(lo, hi) => lo <= c <= hi
    case Perl(name) =>
      var digit := '0' <= c <= '9';
      var word := IsAlnum(c) || c == '_';
      if name == 'd' then digit else if name == 'D' then !digit else if name == 'w' then word else !word
  }

  predicate In(xs: seq<Item>, c: char) { exists i :: 0 <= i < |xs| && InItem(xs[i], c) }

  lemma InConcat(xs: seq<Item>, ys: seq<Item>, c: char)
    ensures In(xs + ys, c) <==> In(xs, c) || In(ys, c)
  {
    var zs := xs + ys;
    if i :| 0 <= i < |xs| && InItem(xs[i], c) { assert zs[i] == xs[i]; }
    if i :| 0 <= i < |ys| && InItem(ys[i], c) { assert zs[|xs| + i] == ys[i]; }
    if i :| 0 <= i < |zs| && InItem(zs[i], c) { assert i < |xs| || ys[i - |xs|] == zs[i]; }
  }

  /** `c`, or its other case, is in the class. */
  predicate InEitherCase(xs: seq<Item>, c: char) {
    In(xs, c) || (IsLetter(c) && In(xs, SwapCase(c)))
  }

  // ---- How Go reads a bracket class ----

  function Control(c: char): char {
    match c
    case 't' => '\t' case 'n' => '\n' case 'r' => '\r' case 'f' => '\U{0C}' case 'a' => '\U{07}' case 'v' => '\U{0B}'
    case _ => '\U{0}'
  }

  predicate IsControl(c: char) { c == 't' || c == 'n' || c == 'r' || c == 'f' || c == 'a' || c == 'v' }

  function HexDigit(c: char): int {
    if '0' <= c <= '9' then c as int - '0' as int
    else if 'a' <= c <= 'f' then c as int - 'a' as int + 10
    else if 'A' <= c <= 'F' then c as int - 'A' as int + 10
    else -1
  }

  predicate IsHex(s: string) { s != "" && forall i :: 0 <= i < |s| ==> HexDigit(s[i]) >= 0 }

  function HexVal(s: string): nat
    requires forall i :: 0 <= i < |s| ==> HexDigit(s[i]) >= 0
  {
    if s == "" then 0 else 16 * HexVal(s[..|s| - 1]) + HexDigit(s[|s| - 1])
  }

  /** A code point, surrogates aside. */
  predicate IsRune(n: int) { 0 <= n < 0xD800 || 0xE000 <= n < 0x11_0000 }

  function IndexOf(t: string, c: char): (k: nat)
    ensures k <= |t| && (k < |t| ==> t[k] == c) && forall i :: 0 <= i < k ==> t[i] != c
  {
    if t == "" || t[0] == c then 0 else 1 + IndexOf(t[1..], c)
  }

  /** The character written at the start of `t`, and the rest: a character itself, an
      escaped one, a control escape, \x{...}, or \xhh. */
  function GoChar(t: string): (r: Option<(char, string)>)
    ensures r.Some? ==> |r.value.1| < |t|
  {
    if t == "" then None
    else if t[0] != '\\' then Some((t[0], t[1..]))
    else if |t| == 1 then None
    else if IsControl(t[1]) then Some((Control(t[1]), t[2..]))
    else if t[1] == 'x' && |t| > 2 && t[2] == '{' then
      var k := IndexOf(t[3..], '}');
      if k < |t[3..]| && IsHex(t[3..][..k]) && IsRune(HexVal(t[3..][..k])) then
        Some((HexVal(t[3..][..k]) as char, t[3..][k + 1..]))
      else None
    else if t[1] == 'x' && |t| > 3 && IsHex(t[2..4]) && IsRune(HexVal(t[2..4])) then
      Some((HexVal(t[2..4]) as char, t[4..]))
    else if IsAscii(t[1]) && !IsAlnum(t[1]) then Some((t[1], t[2..]))
    else None
  }

  predicate IsPerl(t: string) {
    |t| >= 2 && t[0] == '\\' && (t[1] == 'd' || t[1] == 'D' || t[1] == 'w' || t[1] == 'W')
  }

  /** One item: a Perl class, a range, or a character. */
  function GoItem(t: string): (r: Option<(Item, string)>)
    ensures r.Some? ==> |r.value.1| < |t|
  {
    if IsPerl(t) then Some((Perl(t[1]), t[2..])) else
    match GoChar(t)
    case None => None
    case Some((lo, rest)) =>
      if |rest| >= 2 && rest[0] == '-' && rest[1] != ']' then
        match GoChar(rest[1..])
        case None => None
        case Some((hi, after)) => if lo <= hi then Some((Range(lo, hi), after)) else None
      else Some((Range(lo, lo), rest))
  }

  /** The items up to the bracket that closes the class at the end of `t`. */
  function GoBody(t: string): Option<seq<Item>>
    decreases |t|
  {
    if t == "" then None
    else if t[0] == ']' then (if |t| == 1 then Some([]) else None)
    else
      match GoItem(t)
      case None => None
      case Some((x, rest)) =>
        match GoBody(rest)
        case None => None
        case Some(xs) => Some([x] + xs)
  }

  /** Whether Go's class `t` matches `c`. */
  predicate GoMatches(t: string, c: char) {
    && |t| >= 2 && t[0] == '['
    && var negated := t[1] == '^';
       match GoBody(if negated then t[2..] else t[1..])
       case None => false
       case Some(xs) => negated != In(xs, c)
  }

  // ---- The items of the class as written in Java ----

  /** What one atom of the class stands for, with the Go text of it: a character that may
      start or end a range, or a set of them. */
  datatype Atom = Single(c: char, text: string) | Many(items: seq<Item>, text: string)

  /** The texts of characters, written one after the other. */
  function TextsOf(ps: seq<(string, char)>): string {
    if ps == [] then "" else TextsOf(ps[..|ps| - 1]) + ps[|ps| - 1].0
  }

  function CharsOf(ps: seq<(string, char)>): seq<Item> {
    if ps == [] then [] else CharsOf(ps[..|ps| - 1]) + [Range(ps[|ps| - 1].1, ps[|ps| - 1].1)]
  }

  /** Java's \s and \v. */
  const JAVA_SPACE := [("\\t", '\t'), ("\\n", '\n'), ("\\x0B", '\U{0B}'), ("\\f", '\U{0C}'), ("\\r", '\r'), (" ", ' ')]
  const JAVA_VERTICAL := [("\\n", '\n'), ("\\x0B", '\U{0B}'), ("\\f", '\U{0C}'), ("\\r", '\r'),
                          (HexEscapeText('\U{85}'), '\U{85}'), (HexEscapeText('\U{2028}'), '\U{2028}'), (HexEscapeText('\U{2029}'), '\U{2029}')]

  function HexText(n: nat): string {
    if n < 16 then [HexChar(n)] else HexText(n / 16) + [HexChar(n % 16)]
  }

  function HexEscapeText(c: char): string { "\\x{" + HexText(c as int) + "}" }

  /** \xhh or \x{h...} from the x on: the character and how much was read. */
  function HexEscape(rs: string): (r: Option<(char, nat)>)
    requires rs != "" && rs[0] == 'x'
    ensures r.Some? ==> r.value.1 >= 1
  {
    var k := IndexOf(rs, '}');
    var (digits, n) :=
      if |rs| > 1 && rs[1] == '{' then (if k < |rs| then (rs[2..k], k + 1) else ("", 1))
      else if |rs| > 2 then (rs[1..3], 3)
      else ("", 1);
    if IsHex(digits) && IsRune(HexVal(digits)) then Some((HexVal(digits) as char, n)) else None
  }

  /** The escape whose letter starts `rs`, inside a class; `bound` is the end of a range. */
  function Escape(rs: string, bound: bool, fold: bool): (r: Option<(Atom, nat)>)
    requires rs != ""
    ensures r.Some? ==> r.value.1 >= 1
  {
    var e := rs[0];
    if !IsAscii(e) then None
    else if !IsAlnum(e) then Some((Single(e, ['\\', e]), 1))
    else if e == 'd' || e == 'D' || e == 'w' || e == 'W' then Some((Many([Perl(e)], ['\\', e]), 1))
    else if e == 's' then Some((Many(CharsOf(JAVA_SPACE), TextsOf(JAVA_SPACE)), 1))
    else if e == 'v' then
      if bound || (|rs| > 1 && rs[1] == '-') then Some((Single('\U{0B}', HexEscapeText('\U{0B}')), 1))
      else Some((Many(CharsOf(JAVA_VERTICAL), TextsOf(JAVA_VERTICAL)), 1))
    else if e == 't' || e == 'n' || e == 'r' || e == 'f' || e == 'a' then Some((Single(Control(e), ['\\', e]), 1))
    else if e == 'x' && !fold then
      match HexEscape(rs)
      case None => None
      case Some((c, n)) => Some((Single(c, HexEscapeText(c)), n))
    else None
  }

  /** The atom at `j` and the index after it. */
  function ClassAtom(rs: string, j: nat, bound: bool, fold: bool): (r: Option<(Atom, nat)>)
    requires j < |rs|
    ensures r.Some? ==> r.value.1 > j
  {
    var c := rs[j];
    if c == '[' || c == '/' || (c == '&' && j + 1 < |rs| && rs[j + 1] == '&') then None
    else if c == '\\' then
      if j + 1 >= |rs| then None else
      match Escape(rs[j + 1..], bound, fold)
      case None => None
      case Some((a, n)) => Some((a, j + 1 + n))
    else Some((Single(c, if IsAscii(c) && !IsAlnum(c) then ['\\', c] else [c]), j + 1))
  }

  datatype JavaClass = JavaClass(items: seq<Item>, end: nat)

  function ItemsOf(a: Atom): seq<Item> {
    match a case Single(c, _) => [Range(c, c)] case Many(xs, _) => xs
  }

  /** A range follows the atom read up to `j`. */
  predicate RangeFollows(rs: string, a: Atom, j: nat) {
    a.Single? && j + 1 < |rs| && rs[j] == '-' && rs[j + 1] != ']'
  }

  /** The items from `j` on, up to the bracket that closes the class. */
  function JavaItems(rs: string, j: nat, fold: bool): Option<JavaClass>
    decreases |rs| - j
  {
    if j >= |rs| then None
    else if rs[j] == ']' then Some(JavaClass([], j))
    else
      match ClassAtom(rs, j, false, fold)
      case None => None
      case Some((a, k)) =>
        if !RangeFollows(rs, a, k) then
          (match JavaItems(rs, k, fold)
           case None => None
           case Some(rest) => Some(JavaClass(ItemsOf(a) + rest.items, rest.end)))
        else
          match ClassAtom(rs, k + 1, true, fold)
          case None => None
          case Some((b, m)) =>
            if !b.Single? || b.c < a.c then None else
            match JavaItems(rs, m, fold)
            case None => None
            case Some(rest) => Some(JavaClass([Range(a.c, b.c)] + rest.items, rest.end))
  }

  // ---- Texts that write one character ----

  /** A start that neither closes a class, negates it, nor continues a range. */
  predicate StartsItem(t: string) { t != "" && t[0] != ']' && t[0] != '-' && t[0] != '^' }

  /** Whatever follows, Go reads `c` from `text` and goes on after it. */
  ghost predicate Writes(text: string, c: char) {
    StartsItem(text) && forall rest :: ReadsChar(text, c, rest)
  }

  predicate ReadsChar(text: string, c: char, rest: string) {
    !IsPerl(text + rest) && GoChar(text + rest) == Some((c, rest))
  }

  lemma RawWrites(c: char)
    requires StartsItem([c]) && c != '\\'
    ensures Writes([c], c)
  {
    forall rest ensures ReadsChar([c], c, rest) {
      assert ([c] + rest)[1..] == rest;
    }
  }

  lemma EscapeWrites(e: char, c: char)
    requires (IsControl(e) && c == Control(e)) || (IsAscii(e) && !IsAlnum(e) && c == e)
    ensures Writes(['\\', e], c)
  {
    forall rest ensures ReadsChar(['\\', e], c, rest) {
      var t := ['\\', e] + rest;
      assert t[0] == '\\' && t[1] == e && t[2..] == rest;
    }
  }

  lemma {:induction false} HexTextVal(n: nat)
    ensures IsHex(HexText(n)) && HexVal(HexText(n)) == n && '}' !in HexText(n)
    decreases n
  {
    var s := HexText(n);
    if n >= 16 {
      HexTextVal(n / 16);
      assert s[..|s| - 1] == HexText(n / 16);
    } else {
      assert s[..0] == "";
    }
  }

  lemma {:induction false} IndexAfter(s: string, c: char, rest: string)
    requires c !in s
    ensures IndexOf(s + [c] + rest, c) == |s|
    decreases |s|
  {
    var t := s + [c] + rest;
    if s != "" {
      assert t[1..] == s[1..] + [c] + rest;
      IndexAfter(s[1..], c, rest);
    }
  }

  lemma HexWrites(c: char)
    ensures Writes(HexEscapeText(c), c)
  {
    var h := HexText(c as int);
    HexTextVal(c as int);
    forall rest ensures ReadsChar(HexEscapeText(c), c, rest) {
      var t, u := HexEscapeText(c) + rest, h + "}" + rest;
      assert t[0] == '\\' && t[1] == 'x' && t[2] == '{' && t[3..] == u;
      IndexAfter(h, '}', rest);
      assert u[..|h|] == h && u[|h| + 1..] == rest;
    }
  }

  lemma VerticalTabWrites()
    ensures Writes("\\x0B", '\U{0B}')
  {
    forall rest ensures ReadsChar("\\x0B", '\U{0B}', rest) {
      var t := "\\x0B" + rest;
      assert t[0] == '\\' && t[1] == 'x' && t[2] == '0' && t[2..4] == "0B" && t[4..] == rest;
      assert "0B"[..1] == "0" && "0"[..0] == "" && HexVal("0") == 0 && HexVal("0B") == 11;
    }
  }

  // ---- Texts that write items ----

  function Prepend(xs: seq<Item>, body: Option<seq<Item>>): Option<seq<Item>> {
    match body case None => None case Some(ys) => Some(xs + ys)
  }

  /** Whatever follows, unless it continues a range, Go reads the items `xs` from `k`. */
  ghost predicate Emits(k: string, xs: seq<Item>) {
    forall rest :: rest != "" && rest[0] != '-' ==> GoBody(k + rest) == Prepend(xs, GoBody(rest))
  }

  lemma EmitsNothing()
    ensures Emits("", [])
  {
    forall rest: string | rest != "" && rest[0] != '-' ensures GoBody("" + rest) == Prepend([], GoBody(rest)) {
      assert "" + rest == rest;
      if GoBody(rest).Some? { assert [] + GoBody(rest).value == GoBody(rest).value; }
    }
  }

  lemma EmitsChar(text: string, c: char)
    requires Writes(text, c)
    ensures Emits(text, [Range(c, c)])
  {
    forall rest: string | rest != "" && rest[0] != '-' ensures GoBody(text + rest) == Prepend([Range(c, c)], GoBody(rest)) {
      assert ReadsChar(text, c, rest);
      assert (text + rest)[0] == text[0];
    }
  }

  lemma EmitsPerl(e: char)
    requires e == 'd' || e == 'D' || e == 'w' || e == 'W'
    ensures Emits(['\\', e], [Perl(e)])
  {
    forall rest: string | rest != "" && rest[0] != '-' ensures GoBody(['\\', e] + rest) == Prepend([Perl(e)], GoBody(rest)) {
      var t := ['\\', e] + rest;
      assert t[0] == '\\' && t[1] == e && t[2..] == rest;
    }
  }

  lemma RangeItem(lo: string, a: char, hi: string, b: char, rest: string, after: string)
    requires Writes(lo, a) && Writes(hi, b) && a <= b && after == "-" + (hi + rest)
    ensures lo + after != "" && (lo + after)[0] == lo[0] && GoItem(lo + after) == Some((Range(a, b), rest))
  {
    assert after[1..] == hi + rest && after[0] == '-' && after[1] == hi[0];
    assert ReadsChar(lo, a, after) && ReadsChar(hi, b, rest);
  }

  lemma RangeBody(lo: string, a: char, hi: string, b: char, rest: string)
    requires Writes(lo, a) && Writes(hi, b) && a <= b
    ensures GoBody(lo + "-" + hi + rest) == Prepend([Range(a, b)], GoBody(rest))
  {
    var after := "-" + (hi + rest);
    assert lo + "-" + hi + rest == lo + after;
    RangeItem(lo, a, hi, b, rest, after);
  }

  lemma EmitsRange(lo: string, a: char, hi: string, b: char)
    requires Writes(lo, a) && Writes(hi, b) && a <= b
    ensures Emits(lo + "-" + hi, [Range(a, b)])
  {
    forall rest: string | rest != "" && rest[0] != '-' ensures GoBody(lo + "-" + hi + rest) == Prepend([Range(a, b)], GoBody(rest)) {
      RangeBody(lo, a, hi, b, rest);
    }
  }

  lemma EmitsConcat(k: string, xs: seq<Item>, l: string, ys: seq<Item>)
    requires Emits(k, xs) && Emits(l, ys) && (l == "" || l[0] != '-')
    ensures Emits(k + l, xs + ys)
  {
    forall rest: string | rest != "" && rest[0] != '-' ensures GoBody(k + l + rest) == Prepend(xs + ys, GoBody(rest)) {
      Assoc(k, l, rest);
      assert (l + rest)[0] == if l == "" then rest[0] else l[0];
      assert GoBody(l + rest) == Prepend(ys, GoBody(rest));
      if GoBody(rest).Some? { Assoc(xs, ys, GoBody(rest).value); }
    }
  }

  lemma EmitsCharAfter(k: string, xs: seq<Item>, text: string, c: char)
    requires Emits(k, xs) && Writes(text, c)
    ensures Emits(k + text, xs + [Range(c, c)])
  {
    EmitsChar(text, c);
    EmitsConcat(k, xs, text, [Range(c, c)]);
  }

  lemma {:induction false} TextsEmit(ps: seq<(string, char)>)
    requires forall i :: 0 <= i < |ps| ==> Writes(ps[i].0, ps[i].1)
    ensures Emits(TextsOf(ps), CharsOf(ps))
    decreases |ps|
  {
    if ps == [] {
      EmitsNothing();
    } else {
      TextsEmit(ps[..|ps| - 1]);
      EmitsCharAfter(TextsOf(ps[..|ps| - 1]), CharsOf(ps[..|ps| - 1]), ps[|ps| - 1].0, ps[|ps| - 1].1);
    }
  }

  lemma SpaceEmits()
    ensures Emits(TextsOf(JAVA_SPACE), CharsOf(JAVA_SPACE))
  {
    EscapeWrites('t', '\t');
    EscapeWrites('n', '\n');
    VerticalTabWrites();
    EscapeWrites('f', '\U{0C}');
    EscapeWrites('r', '\r');
    RawWrites(' ');
    TextsEmit(JAVA_SPACE);
  }

  lemma VerticalEmits()
    ensures Emits(TextsOf(JAVA_VERTICAL), CharsOf(JAVA_VERTICAL))
  {
    EscapeWrites('n', '\n');
    VerticalTabWrites();
    EscapeWrites('f', '\U{0C}');
    EscapeWrites('r', '\r');
    HexWrites('\U{85}');
    HexWrites('\U{2028}');
    HexWrites('\U{2029}');
    TextsEmit(JAVA_VERTICAL);
  }

  // ---- Atoms ----

  lemma {:induction false} TextsStart(ps: seq<(string, char)>)
    requires ps != [] && forall i :: 0 <= i < |ps| ==> StartsItem(ps[i].0)
    ensures StartsItem(TextsOf(ps))
    decreases |ps|
  {
    if |ps| == 1 {
      assert TextsOf(ps) == TextsOf([]) + ps[0].0 == ps[0].0;
    } else {
      TextsStart(ps[..|ps| - 1]);
    }
  }

  /** The text of an atom writes what the atom stands for. */
  ghost predicate Translates(a: Atom) {
    && (a.Single? ==> Writes(a.text, a.c))
    && Emits(a.text, ItemsOf(a)) && StartsItem(a.text)
  }

  lemma SingleTranslates(text: string, c: char)
    requires Writes(text, c)
    ensures Translates(Single(c, text))
  {
    EmitsChar(text, c);
  }

  lemma SpaceTranslates()
    ensures Translates(Many(CharsOf(JAVA_SPACE), TextsOf(JAVA_SPACE)))
  {
    SpaceEmits();
    TextsStart(JAVA_SPACE);
  }

  lemma VerticalTranslates()
    ensures Translates(Many(CharsOf(JAVA_VERTICAL), TextsOf(JAVA_VERTICAL)))
  {
    VerticalEmits();
    TextsStart(JAVA_VERTICAL);
  }

  lemma AtomTranslates(rs: string, j: nat, bound: bool, fold: bool, a: Atom, k: nat)
    requires j < |rs| && rs[j] != ']' && ClassAtom(rs, j, bound, fold) == Some((a, k))
    ensures Translates(a)
  {
    var c := rs[j];
    if c == '\\' {
      EscapeTranslates(rs[j + 1..], bound, fold);
    } else if IsAscii(c) && !IsAlnum(c) {
      EscapeWrites(c, c);
      SingleTranslates(['\\', c], c);
    } else {
      RawWrites(c);
      SingleTranslates([c], c);
    }
  }

  lemma EscapeTranslates(rs: string, bound: bool, fold: bool)
    requires rs != "" && Escape(rs, bound, fold).Some?
    ensures Translates(Escape(rs, bound, fold).value.0)
  {
    var a, e := Escape(rs, bound, fold).value.0, rs[0];
    if e == 'd' || e == 'D' || e == 'w' || e == 'W' {
      EmitsPerl(e);
    } else if e == 's' {
      SpaceTranslates();
    } else if e == 'v' && a.Many? {
      VerticalTranslates();
    } else {
      if e == 'v' || e == 'x' { HexWrites(a.c); } else { EscapeWrites(e, a.c); }
      SingleTranslates(a.text, a.c);
    }
  }

  // ---- Closing under case ----

  /** What the class matches: with the flag i, a letter in either of its cases. */
  predicate MatchesItems(xs: seq<Item>, c: char, fold: bool) {
    if fold then InEitherCase(xs, c) else In(xs, c)
  }

  ghost predicate Closes(gs: seq<Item>, xs: seq<Item>, fold: bool) {
    forall c :: In(gs, c) <==> MatchesItems(xs, c, fold)
  }

  lemma ClosesConcat(gs: seq<Item>, xs: seq<Item>, hs: seq<Item>, ys: seq<Item>, fold: bool)
    requires Closes(gs, xs, fold) && Closes(hs, ys, fold)
    ensures Closes(gs + hs, xs + ys, fold)
  {
    forall c ensures In(gs + hs, c) <==> MatchesItems(xs + ys, c, fold) {
      InConcat(gs, hs, c);
      InConcat(xs, ys, c);
      if IsLetter(c) { InConcat(xs, ys, SwapCase(c)); }
      assert In(gs, c) <==> MatchesItems(xs, c, fold);
      assert In(hs, c) <==> MatchesItems(ys, c, fold);
    }
  }

  lemma InOne(x: Item, c: char)
    ensures In([x], c) <==> InItem(x, c)
  {
    if InItem(x, c) { assert InItem([x][0], c); }
  }

  lemma {:induction false} CharsWithoutLetters(ps: seq<(string, char)>, c: char)
    requires forall i :: 0 <= i < |ps| ==> !IsLetter(ps[i].1)
    ensures IsLetter(c) ==> !In(CharsOf(ps), c)
    decreases |ps|
  {
    if ps != [] {
      CharsWithoutLetters(ps[..|ps| - 1], c);
      InConcat(CharsOf(ps[..|ps| - 1]), [Range(ps[|ps| - 1].1, ps[|ps| - 1].1)], c);
      InOne(Range(ps[|ps| - 1].1, ps[|ps| - 1].1), c);
    }
  }

  /** The sets an atom may stand for hold a letter in both cases or in none. */
  lemma SetsAreClosed(rs: string, j: nat, bound: bool, fold: bool, a: Atom, k: nat)
    requires j < |rs| && ClassAtom(rs, j, bound, fold) == Some((a, k)) && a.Many?
    ensures Closes(a.items, a.items, fold)
  {
    var xs := a.items;
    forall c ensures In(xs, c) <==> MatchesItems(xs, c, fold) {
      if IsLetter(c) {
        var d := SwapCase(c);
        if xs == CharsOf(JAVA_SPACE) {
          CharsWithoutLetters(JAVA_SPACE, c);
          CharsWithoutLetters(JAVA_SPACE, d);
        } else if xs == CharsOf(JAVA_VERTICAL) {
          CharsWithoutLetters(JAVA_VERTICAL, c);
          CharsWithoutLetters(JAVA_VERTICAL, d);
        } else {
          assert xs == [Perl(rs[j + 1])];
          InOne(xs[0], c);
          InOne(xs[0], d);
        }
      }
    }
  }

  /** A character, and its other case with the flag i. */
  function FoldedChar(c: char, fold: bool): seq<Item> {
    if fold && IsLetter(c) then [Range(c, c)] + [Range(SwapCase(c), SwapCase(c))] else [Range(c, c)]
  }

  lemma CharIsClosed(c0: char, fold: bool)
    ensures Closes(FoldedChar(c0, fold), [Range(c0, c0)], fold)
  {
    forall c ensures In(FoldedChar(c0, fold), c) <==> MatchesItems([Range(c0, c0)], c, fold) {
      InOne(Range(c0, c0), c);
      if IsLetter(c) { InOne(Range(c0, c0), SwapCase(c)); }
      if fold && IsLetter(c0) {
        InConcat([Range(c0, c0)], [Range(SwapCase(c0), SwapCase(c0))], c);
        InOne(Range(SwapCase(c0), SwapCase(c0)), c);
      }
    }
  }

  function Later(a: char, b: char): char { if a >= b then a else b }

  function Earlier(a: char, b: char): char { if a <= b then a else b }

  /** The other case of the part of lo-hi that lies in the letters from `first` to `last`. */
  function SwappedSpan(lo: char, hi: char, first: char, last: char): seq<Item>
    requires (first == 'a' && last == 'z') || (first == 'A' && last == 'Z')
  {
    var a, b := Later(lo, first), Earlier(hi, last);
    if a <= b then [Range(SwapCase(a), SwapCase(b))] else []
  }

  function FoldedRange(lo: char, hi: char, fold: bool): seq<Item> {
    if fold then [Range(lo, hi)] + SwappedSpan(lo, hi, 'a', 'z') + SwappedSpan(lo, hi, 'A', 'Z') else [Range(lo, hi)]
  }

  lemma InSwappedSpan(lo: char, hi: char, first: char, last: char, c: char)
    requires (first == 'a' && last == 'z') || (first == 'A' && last == 'Z')
    ensures In(SwappedSpan(lo, hi, first, last), c) <==>
            IsLetter(c) && first <= SwapCase(c) <= last && lo <= SwapCase(c) <= hi
  {
    var a, b := Later(lo, first), Earlier(hi, last);
    if a <= b { InOne(Range(SwapCase(a), SwapCase(b)), c); }
  }

  lemma RangeIsClosed(lo: char, hi: char, fold: bool)
    ensures Closes(FoldedRange(lo, hi, fold), [Range(lo, hi)], fold)
  {
    forall c ensures In(FoldedRange(lo, hi, fold), c) <==> MatchesItems([Range(lo, hi)], c, fold) {
      InOne(Range(lo, hi), c);
      if IsLetter(c) { InOne(Range(lo, hi), SwapCase(c)); }
      if fold {
        var lower, upper := SwappedSpan(lo, hi, 'a', 'z'), SwappedSpan(lo, hi, 'A', 'Z');
        InConcat([Range(lo, hi)] + lower, upper, c);
        InConcat([Range(lo, hi)], lower, c);
        InSwappedSpan(lo, hi, 'a', 'z', c);
        InSwappedSpan(lo, hi, 'A', 'Z', c);
      }
    }
  }

  // ---- The translation ----

  /** The class that opens at `i`: whether it is negated, and its items. */
  function JavaClassAt(rs: string, i: nat, fold: bool): Option<(bool, JavaClass)>
    requires i < |rs|
  {
    var negated := i + 1 < |rs| && rs[i + 1] == '^';
    var j := if negated then i + 2 else i + 1;
    if j < |rs| && rs[j] == ']' then None else
    match JavaItems(rs, j, fold) case None => None case Some(k) => Some((negated, k))
  }

  function WithItems(xs: seq<Item>, rest: Option<JavaClass>): Option<JavaClass> {
    match rest case None => None case Some(k) => Some(JavaClass(xs + k.items, k.end))
  }

  /** The text written so far writes items that close the items read so far. */
  ghost predicate Written(body: string, xs: seq<Item>, fold: bool) {
    (body == "" || StartsItem(body)) && exists gs :: Emits(body, gs) && Closes(gs, xs, fold)
  }

  /** A text that is not empty and writes items that close `ys`. */
  ghost predicate Piece(text: string, ys: seq<Item>, fold: bool) { text != "" && Written(text, ys, fold) }

  lemma WrittenNothing(fold: bool)
    ensures Written("", [], fold)
  {
    EmitsNothing();
    assert Closes([], [], fold);
  }

  lemma WrittenMore(body: string, xs: seq<Item>, text: string, ys: seq<Item>, fold: bool)
    requires Written(body, xs, fold) && Piece(text, ys, fold)
    ensures Written(body + text, xs + ys, fold)
  {
    var gs :| Emits(body, gs) && Closes(gs, xs, fold);
    var hs :| Emits(text, hs) && Closes(hs, ys, fold);
    EmitsConcat(body, gs, text, hs);
    ClosesConcat(gs, xs, hs, ys, fold);
    assert (body + text)[0] == if body == "" then text[0] else body[0];
  }

  /** The text of an atom on its own, with its other case. */
  method WriteAtom(a: Atom, fold: bool) returns (text: string)
    requires Translates(a) && (a.Many? ==> Closes(a.items, a.items, fold))
    ensures Piece(text, ItemsOf(a), fold)
  {
    text := a.text;
    if a.Single? {
      CharIsClosed(a.c, fold);
      if fold && IsLetter(a.c) {
        RawWrites(SwapCase(a.c));
        EmitsCharAfter(text, [Range(a.c, a.c)], [SwapCase(a.c)], SwapCase(a.c));
        text := text + [SwapCase(a.c)];
      }
    }
  }

  method WriteSpan(text: string, ghost xs: seq<Item>, lo: char, hi: char, first: char, last: char) returns (out: string)
    requires Emits(text, xs) && StartsItem(text) && ((first == 'a' && last == 'z') || (first == 'A' && last == 'Z'))
    ensures Emits(out, xs + SwappedSpan(lo, hi, first, last)) && StartsItem(out)
  {
    out := text;
    var a, b := Later(lo, first), Earlier(hi, last);
    if a <= b {
      var x, y := SwapCase(a), SwapCase(b);
      RawWrites(x);
      RawWrites(y);
      EmitsRange([x], x, [y], y);
      EmitsConcat(text, xs, [x] + "-" + [y], [Range(x, y)]);
      out := text + ([x] + "-" + [y]);
    } else {
      assert xs + [] == xs;
    }
  }

  /** The text of a range, with the other case of the letters in it. */
  method WriteRange(a: Atom, b: Atom, fold: bool) returns (text: string)
    requires a.Single? && b.Single? && a.c <= b.c && Translates(a) && Translates(b)
    ensures Piece(text, [Range(a.c, b.c)], fold)
  {
    text := a.text + "-" + b.text;
    EmitsRange(a.text, a.c, b.text, b.c);
    RangeIsClosed(a.c, b.c, fold);
    if fold {
      text := WriteSpan(text, [Range(a.c, b.c)], a.c, b.c, 'a', 'z');
      text := WriteSpan(text, [Range(a.c, b.c)] + SwappedSpan(a.c, b.c, 'a', 'z'), a.c, b.c, 'A', 'Z');
    }
  }

  lemma NoItems(rest: Option<JavaClass>)
    ensures WithItems([], rest) == rest
  {
    if rest.Some? { assert [] + rest.value.items == rest.value.items; }
  }

  lemma LastItems(rs: string, j: nat, fold: bool, xs: seq<Item>)
    requires j < |rs| && rs[j] == ']'
    ensures WithItems(xs, JavaItems(rs, j, fold)) == Some(JavaClass(xs, j))
  {
    assert xs + [] == xs;
  }

  lemma EndTranslates(rs: string, fold: bool, a: Atom, k: nat, b: Atom, m: nat)
    requires RangeFollows(rs, a, k) && ClassAtom(rs, k + 1, true, fold) == Some((b, m))
    ensures Translates(b)
  {
    AtomTranslates(rs, k + 1, true, fold, b, m);
  }

  method WriteRangeAt(ghost rs: string, ghost j: nat, fold: bool, a: Atom, ghost k: nat, b: Atom, ghost m: nat) returns (text: string)
    requires j < |rs| && rs[j] != ']' && ClassAtom(rs, j, false, fold) == Some((a, k)) && RangeFollows(rs, a, k)
    requires ClassAtom(rs, k + 1, true, fold) == Some((b, m)) && b.Single? && a.c <= b.c
    ensures Piece(text, [Range(a.c, b.c)], fold)
  {
    EndTranslates(rs, fold, a, k, b, m);
    AtomTranslates(rs, j, false, fold, a, k);
    text := WriteRange(a, b, fold);
  }

  method WriteAtomAt(ghost rs: string, ghost j: nat, fold: bool, a: Atom, ghost k: nat) returns (text: string)
    requires j < |rs| && rs[j] != ']' && ClassAtom(rs, j, false, fold) == Some((a, k))
    ensures Piece(text, ItemsOf(a), fold)
  {
    AtomTranslates(rs, j, false, fold, a, k);
    if a.Many? { SetsAreClosed(rs, j, false, fold, a, k); }
    text := WriteAtom(a, fold);
  }

  lemma RangeRefused(rs: string, j: nat, fold: bool, a: Atom, k: nat)
    requires j < |rs| && rs[j] != ']' && ClassAtom(rs, j, false, fold) == Some((a, k)) && RangeFollows(rs, a, k)
    requires var hi := ClassAtom(rs, k + 1, true, fold); hi.None? || hi.value.0.Many? || hi.value.0.c < a.c
    ensures JavaItems(rs, j, fold) == None
  {
  }

  lemma RangeTaken(rs: string, j: nat, fold: bool, a: Atom, k: nat, b: Atom, m: nat)
    requires j < |rs| && rs[j] != ']' && ClassAtom(rs, j, false, fold) == Some((a, k)) && RangeFollows(rs, a, k)
    requires ClassAtom(rs, k + 1, true, fold) == Some((b, m)) && b.Single? && a.c <= b.c
    ensures JavaItems(rs, j, fold) == WithItems([Range(a.c, b.c)], JavaItems(rs, m, fold))
  {
  }

  /** Translates the range at `j`, whose first atom `a` ends at `k`. */
  method TranslateRange(rs: string, ghost j: nat, fold: bool, a: Atom, k: nat)
      returns (text: string, next: nat, ok: bool, ghost ys: seq<Item>)
    requires j < |rs| && rs[j] != ']' && ClassAtom(rs, j, false, fold) == Some((a, k)) && RangeFollows(rs, a, k)
    ensures !ok ==> JavaItems(rs, j, fold) == None
    ensures ok ==> next > j && JavaItems(rs, j, fold) == WithItems(ys, JavaItems(rs, next, fold)) && Piece(text, ys, fold)
  {
    text, next, ok, ys := "", k, false, [];
    var hi := ClassAtom(rs, k + 1, true, fold);
    if hi.None? || hi.value.0.Many? || hi.value.0.c < a.c {
      RangeRefused(rs, j, fold, a, k);
      return;
    }
    var b, m := hi.value.0, hi.value.1;
    RangeTaken(rs, j, fold, a, k, b, m);
    text := WriteRangeAt(rs, j, fold, a, k, b, m);
    next, ok, ys := m, true, [Range(a.c, b.c)];
  }

  /** Translates the item at `j`: an atom, or a range of two. */
  method TranslateItem(rs: string, j: nat, fold: bool) returns (text: string, next: nat, ok: bool, ghost ys: seq<Item>)
    requires j < |rs| && rs[j] != ']'
    ensures !ok ==> JavaItems(rs, j, fold) == None
    ensures ok ==> next > j && JavaItems(rs, j, fold) == WithItems(ys, JavaItems(rs, next, fold)) && Piece(text, ys, fold)
  {
    text, next, ok, ys := "", j, false, [];
    var lo := ClassAtom(rs, j, false, fold);
    if lo.None? {
      assert JavaItems(rs, j, fold) == None;
      return;
    }
    var a, k := lo.value.0, lo.value.1;
    if RangeFollows(rs, a, k) {
      text, next, ok, ys := TranslateRange(rs, j, fold, a, k);
      return;
    }
    assert JavaItems(rs, j, fold) == WithItems(ItemsOf(a), JavaItems(rs, k, fold));
    text := WriteAtomAt(rs, j, fold, a, k);
    next, ok, ys := k, true, ItemsOf(a);
  }

  /** Translates the items from `j` on, up to the bracket that closes the class. */
  method TranslateItems(rs: string, from: nat, fold: bool) returns (body: string, j: nat, ok: bool)
    ensures ok <==> JavaItems(rs, from, fold).Some?
    ensures ok ==> j == JavaItems(rs, from, fold).value.end && Written(body, JavaItems(rs, from, fold).value.items, fold)
  {
    j, ok, body := from, false, "";
    ghost var xs := [];
    WrittenNothing(fold);
    NoItems(JavaItems(rs, j, fold));
    while j < |rs| && rs[j] != ']'
      invariant JavaItems(rs, from, fold) == WithItems(xs, JavaItems(rs, j, fold)) && Written(body, xs, fold)
      decreases |rs| - j
    {
      var text, next, good;
      ghost var ys;
      text, next, good, ys := TranslateItem(rs, j, fold);
      if !good { return; }
      WrittenMore(body, xs, text, ys, fold);
      RegroupItems(xs, ys, JavaItems(rs, next, fold));
      body, xs, j := body + text, xs + ys, next;
    }
    if j < |rs| {
      LastItems(rs, j, fold, xs);
      ok := true;
    }
  }

  /** Translates the class that opens at `i`: refused exactly where the class is not one
      of those above, and otherwise a Go class that matches the characters of the class,
      in either case with the flag i. */
  method CharClass(rs: string, i: nat, fold: bool) returns (end: nat, text: string, ok: bool)
    requires i < |rs| && rs[i] == '['
    ensures ok <==> JavaClassAt(rs, i, fold).Some?
    ensures ok ==> end == JavaClassAt(rs, i, fold).value.1.end
    ensures ok ==>
              var (negated, k) := JavaClassAt(rs, i, fold).value;
              forall c :: GoMatches(text, c) <==> negated != MatchesItems(k.items, c, fold)
  {
    end, text, ok := i, "", false;
    var open, j := "[", i + 1;
    if j < |rs| && rs[j] == '^' {
      open, j := "[^", j + 1;
    }
    if j < |rs| && rs[j] == ']' {
      return;
    }
    var body;
    body, end, ok := TranslateItems(rs, j, fold);
    if ok {
      TextMatches(open, body, JavaItems(rs, j, fold).value.items, fold);
      text := open + body + "]";
    }
  }

  lemma RegroupItems(xs: seq<Item>, ys: seq<Item>, rest: Option<JavaClass>)
    ensures WithItems(xs, WithItems(ys, rest)) == WithItems(xs + ys, rest)
  {
    if rest.Some? { Assoc(xs, ys, rest.value.items); }
  }

  lemma BodyReads(body: string, gs: seq<Item>)
    requires Emits(body, gs)
    ensures GoBody(body + "]") == Some(gs)
  {
    assert GoBody("]") == Some([]);
    assert gs + [] == gs;
  }

  lemma TextMatches(open: string, body: string, xs: seq<Item>, fold: bool)
    requires (open == "[" || open == "[^") && Written(body, xs, fold)
    ensures forall c :: GoMatches(open + body + "]", c) <==> (open == "[^") != MatchesItems(xs, c, fold)
  {
    var gs :| Emits(body, gs) && Closes(gs, xs, fold);
    BodyReads(body, gs);
    Assoc(open, body, "]");
    forall c ensures GoMatches(open + body + "]", c) <==> (open == "[^") != MatchesItems(xs, c, fold) {
      ClassReads(open, body + "]", gs, c);
      assert In(gs, c) <==> MatchesItems(xs, c, fold);
    }
  }

  lemma ClassReads(open: string, b: string, gs: seq<Item>, c: char)
    requires (open == "[" || open == "[^") && b != "" && b[0] != '^' && GoBody(b) == Some(gs)
    ensures GoMatches(open + b, c) <==> (open == "[^") != In(gs, c)
  {
    var t := open + b;
    if open == "[^" {
      assert t[1] == '^' && t[2..] == b;
    } else {
      assert t[1] == b[0] && t[1..] == b;
    }
  }
}
