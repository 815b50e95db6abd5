/** Target expressions of exported policy sets: how they are printed from a simplified
    policy, and how they are read back.

    `Chars` gives the Unicode tables; only their ASCII part is known. */
module Targets {
  import opened Sequences
  import opened TextOrder

  datatype Chars = Chars(isSpace: char -> bool, fold: char -> char)

  predicate IsAsciiSpace(c: char) { c == ' ' || '\t' <= c <= '\r' }

  function Lower(c: char): char { if 'A' <= c <= 'Z' then (c as int + 32) as char else c }

  ghost predicate Ascii(x: Chars) {
    forall c: char :: (c as int) < 128 ==> (x.isSpace(c) <==> IsAsciiSpace(c)) && x.fold(c) == Lower(c)
  }

  // ---- Texts ----

  predicate EqualFold(x: Chars, s: string, t: string) {
    |s| == |t| && forall i :: 0 <= i < |s| ==> x.fold(s[i]) == x.fold(t[i])
  }

  function TrimLeft(x: Chars, s: string): string {
    if s != "" && x.isSpace(s[0]) then TrimLeft(x, s[1..]) else s
  }

  function TrimRight(x: Chars, s: string): string {
    if s != "" && x.isSpace(s[|s| - 1]) then TrimRight(x, s[..|s| - 1]) else s
  }

  function Trim(x: Chars, s: string): string { TrimRight(x, TrimLeft(x, s)) }

  predicate IsBlank(x: Chars, s: string) { Trim(x, s) == "" }

  predicate HasQuote(s: string) { '\'' in s }

  // ---- Printing ----

  predicate IsAll(x: Chars, s: string) { EqualFold(x, s, "ALL") || s == "*" }

  function Compared(word: string, v: string): string { word + (" == '" + (v + "'")) }

  function ResourceTypeText(x: Chars, v: string): string { if IsAll(x, v) then "true" else Compared("resourceType", v) }

  function OperationText(x: Chars, v: string): string { if IsAll(x, v) then "true" else Compared("operation", v) }

  function Joined(parts: seq<string>): string {
    if parts == [] then "" else if |parts| == 1 then parts[0] else parts[0] + ("," + Joined(parts[1..]))
  }

  function CommaIndex(s: string): (k: nat)
    ensures k <= |s| && ',' !in s[..k] && (k < |s| ==> s[k] == ',')
  {
    if s == "" || s[0] == ',' then 0 else
    var k := CommaIndex(s[1..]) + 1;
    assert s[..k] == [s[0]] + s[1..][..k - 1];
    k
  }

  function Split(s: string): seq<string> {
    var k := CommaIndex(s);
    if k == |s| then [s] else [s[..k]] + Split(s[k + 1..])
  }

  function RolesKey(roles: seq<string>): string { Joined(Sort(roles)) }

  function QuotedList(parts: seq<string>): string
    requires parts != []
  {
    if |parts| == 1 then "'" + (parts[0] + "'") else "'" + (parts[0] + ("'" + ("," + QuotedList(parts[1..]))))
  }

  function RolesText(key: string): string {
    if key == "" then "true" else
    var parts := Split(key);
    if |parts| == 1 then "subject.roles" + (" CONTAINS" + (" " + QuotedList(parts)))
    else "subject.roles" + (" CONTAINS" + (" ANY" + (" " + QuotedList(parts))))
  }

  // ---- Reading a comparison ----

  predicate IsPatternSpace(c: char) { c == ' ' || c == '\t' || c == '\n' || c as int == 12 || c == '\r' }

  function SkipPatternSpace(s: string): (r: string)
    ensures |r| <= |s|
  {
    if s != "" && IsPatternSpace(s[0]) then SkipPatternSpace(s[1..]) else s
  }

  /** At least one space, then the rest. */
  function Spaced(s: string): Option<string> {
    var r := SkipPatternSpace(s);
    if |r| < |s| then Some(r) else None
  }

  function AfterWord(x: Chars, s: string, word: string): Option<string> {
    if |word| <= |s| && EqualFold(x, s[..|word|], word) then Some(s[|word|..]) else None
  }

  function AfterEquals(x: Chars, s: string): Option<string> {
    var r := AfterWord(x, s, "==");
    if r.Some? then r else AfterWord(x, s, "EQUALS")
  }

  /** The text between the quotes, which end the expression. */
  function QuotedToEnd(s: string): Option<string> {
    if |s| > 2 && s[0] == '\'' && s[|s| - 1] == '\'' && !HasQuote(s[1..|s| - 1]) then Some(s[1..|s| - 1]) else None
  }

  /** The pattern `word\s+(?:==|EQUALS)\s+'([^']+)'` over the whole text, in any case. */
  function ReadComparison(x: Chars, s: string, word: string): Option<string> {
    var a := AfterWord(x, s, word);
    var b := if a.None? then None else Spaced(a.value);
    var c := if b.None? then None else AfterEquals(x, b.value);
    var d := if c.None? then None else Spaced(c.value);
    if d.None? then None else QuotedToEnd(d.value)
  }

  // ---- Reading roles ----

  predicate IsScanSpace(c: char) { c == ' ' || c == '\t' || c == '\n' || c == '\r' }

  function SkipSpace(s: string): (r: string)
    ensures |r| <= |s| && (r != "" ==> !IsScanSpace(r[0]))
  {
    if s != "" && IsScanSpace(s[0]) then SkipSpace(s[1..]) else s
  }

  predicate EndsWord(s: string) { s == "" || IsScanSpace(s[0]) || s[0] == '\'' || s[0] == ',' }

  function AcceptWord(x: Chars, s: string, word: string): (r: Option<string>)
    ensures r.Some? ==> |r.value| + |word| <= |s|
  {
    var r := AfterWord(x, SkipSpace(s), word);
    if r.Some? && EndsWord(r.value) then r else None
  }

  function AcceptChar(s: string, c: char): (r: Option<string>)
    ensures r.Some? ==> |r.value| < |s|
  {
    var t := SkipSpace(s);
    if t != "" && t[0] == c then Some(t[1..]) else None
  }

  function QuoteIndex(s: string): (k: nat)
    ensures k <= |s| && !HasQuote(s[..k]) && (k < |s| ==> s[k] == '\'')
  {
    if s == "" || s[0] == '\'' then 0 else
    var k := QuoteIndex(s[1..]) + 1;
    assert s[..k] == [s[0]] + s[1..][..k - 1];
    k
  }

  /** A quoted literal that is not blank, and what follows it. */
  function AcceptQuoted(x: Chars, s: string): (r: Option<(string, string)>)
    ensures r.Some? ==> |r.value.1| < |s|
  {
    var t := SkipSpace(s);
    if t == "" || t[0] != '\'' then None else
    var k := QuoteIndex(t[1..]);
    if k == |t| - 1 || IsBlank(x, t[1..k + 1]) then None else Some((t[1..k + 1], t[k + 2..]))
  }

  function AddRole(roles: seq<string>, role: string): seq<string> { if role in roles then roles else roles + [role] }

  /** The operands of a clause, and what follows them. */
  function Operands(x: Chars, s: string, roles: seq<string>): (r: Option<(seq<string>, string)>)
    ensures r.Some? ==> |r.value.1| < |s| && r.value.0 != []
    decreases |s|
  {
    match AcceptQuoted(x, s)
    case None => None
    case Some((role, rest)) =>
      var all := AddRole(roles, role);
      match AcceptChar(rest, ',')
      case None => Some((all, rest))
      case Some(more) => Operands(x, more, all)
  }

  function ClauseHead(x: Chars, s: string): (r: Option<string>)
    ensures r.Some? ==> |r.value| < |s|
  {
    var a := AcceptWord(x, s, "subject.roles");
    var b := if a.None? then None else AcceptWord(x, a.value, "CONTAINS");
    if b.None? then None else
    var c := AcceptWord(x, b.value, "ANY");
    if c.None? then b else c
  }

  /** The roles of a clause added to those before it, and what follows the clause. */
  function Clause(x: Chars, s: string, roles: seq<string>): (r: Option<(seq<string>, string)>)
    ensures r.Some? ==> |r.value.1| < |s|
  {
    var head := ClauseHead(x, s);
    if head.None? then None else Operands(x, head.value, roles)
  }

  function Clauses(x: Chars, s: string, roles: seq<string>): Option<seq<string>>
    decreases |s|
  {
    match Clause(x, s, roles)
    case None => None
    case Some((all, rest)) =>
      if SkipSpace(rest) == "" then Some(all) else
      match AcceptWord(x, rest, "OR")
      case None => None
      case Some(more) => Clauses(x, more, all)
  }

  // ---- Targets ----

  datatype Target = Unknown | Any | ResourceType(value: string) | Operation(value: string) | Roles(roles: seq<string>)

  function ParseTarget(x: Chars, target: string): Target {
    var t := Trim(x, target);
    if t == "" || EqualFold(x, t, "true") then Any else
    var rt := ReadComparison(x, t, "resourceType");
    if rt.Some? then ResourceType(rt.value) else
    var op := ReadComparison(x, t, "operation");
    if op.Some? then Operation(op.value) else
    var roles := Clauses(x, t, []);
    if roles.Some? then Roles(roles.value) else Unknown
  }

  /** The operation and the roles of a policy and a rule target, wherever each stands. */
  function Resolve(policy: Target, rule: Target): Option<(string, seq<string>)> {
    match (policy, rule)
    case (Operation(op), Roles(rs)) => Some((op, rs))
    case (Operation(op), Any) => Some((op, []))
    case (Roles(rs), Operation(op)) => Some((op, rs))
    case (Any, Operation(op)) => Some((op, []))
    case (Roles(rs), Any) => Some(("ALL", rs))
    case (Any, Roles(rs)) => Some(("ALL", rs))
    case (Any, Any) => Some(("ALL", []))
    case _ => None
  }

  // ---- The scanner ----

  /** A cursor over a target expression. */
  class Scanner {
    const text: string
    var pos: nat

    ghost predicate Valid()
      reads this
    {
      pos <= |text|
    }

    ghost function Rest(): string
      requires Valid()
      reads this
    {
      text[pos..]
    }

    constructor (text: string)
      ensures Valid() && this.text == text && Rest() == text
    {
      this.text := text;
      pos := 0;
    }

    method Skip()
      requires Valid()
      modifies this
      ensures Valid() && Rest() == SkipSpace(old(Rest()))
    {
      while pos < |text| && IsScanSpace(text[pos])
        invariant Valid() && SkipSpace(Rest()) == SkipSpace(old(Rest()))
      {
        assert Rest()[1..] == text[pos + 1..];
        pos := pos + 1;
      }
    }

    method AtEnd() returns (r: bool)
      requires Valid()
      modifies this
      ensures Valid() && Rest() == SkipSpace(old(Rest())) && r == (Rest() == "")
    {
      Skip();
      r := pos >= |text|;
    }

    method Word(x: Chars, word: string) returns (ok: bool)
      requires Valid()
      modifies this
      ensures Valid() && ok == AcceptWord(x, old(Rest()), word).Some?
      ensures Rest() == if ok then AcceptWord(x, old(Rest()), word).value else SkipSpace(old(Rest()))
    {
      Skip();
      var end := pos + |word|;
      if end > |text| || !EqualFold(x, text[pos..end], word) {
        assert end <= |text| ==> Rest()[..|word|] == text[pos..end];
        return false;
      }
      assert Rest()[..|word|] == text[pos..end] && Rest()[|word|..] == text[end..];
      if end < |text| && !(IsScanSpace(text[end]) || text[end] == '\'' || text[end] == ',') { return false; }
      pos := end;
      return true;
    }

    method Char(c: char) returns (ok: bool)
      requires Valid()
      modifies this
      ensures Valid() && ok == AcceptChar(old(Rest()), c).Some?
      ensures Rest() == if ok then AcceptChar(old(Rest()), c).value else SkipSpace(old(Rest()))
    {
      Skip();
      if pos < |text| && text[pos] == c {
        pos := pos + 1;
        return true;
      }
      return false;
    }

    method Literal(x: Chars) returns (r: Option<string>)
      requires Valid()
      modifies this
      ensures Valid() && r.Some? == AcceptQuoted(x, old(Rest())).Some?
      ensures r.Some? ==> AcceptQuoted(x, old(Rest())) == Some((r.value, Rest()))
    {
      QuotedSkip(x, Rest());
      Skip();
      SkipTwice(text[pos..]);
      r := LiteralHere(x);
    }

    /** A quoted literal with no space before it. */
    method LiteralHere(x: Chars) returns (r: Option<string>)
      requires Valid() && SkipSpace(Rest()) == Rest()
      modifies this
      ensures Valid() && r.Some? == AcceptQuoted(x, old(Rest())).Some?
      ensures r.Some? ==> AcceptQuoted(x, old(Rest())) == Some((r.value, Rest()))
    {
      if pos >= |text| || text[pos] != '\'' { return None; }
      var rel := QuoteIndex(text[pos + 1..]);
      LiteralAt(x, text, pos, rel);
      if rel == |text| - pos - 1 { return None; }
      var lit := text[pos + 1..pos + 1 + rel];
      pos := pos + rel + 2;
      if IsBlank(x, lit) { return None; }
      return Some(lit);
    }
  }

  lemma LiteralAt(x: Chars, text: string, pos: nat, rel: nat)
    requires pos < |text| && text[pos] == '\'' && rel == QuoteIndex(text[pos + 1..])
    ensures AcceptQuoted(x, text[pos..])
         == if rel == |text| - pos - 1 || IsBlank(x, text[pos + 1..pos + 1 + rel]) then None
            else Some((text[pos + 1..pos + 1 + rel], text[pos + rel + 2..]))
  {
    var t := text[pos..];
    assert t[1..] == text[pos + 1..];
    assert t[1..rel + 1] == text[pos + 1..pos + 1 + rel];
    if rel < |text| - pos - 1 { assert t[rel + 2..] == text[pos + rel + 2..]; }
  }

  lemma QuotedSkip(x: Chars, s: string)
    ensures AcceptQuoted(x, SkipSpace(s)) == AcceptQuoted(x, s)
  {
    SkipTwice(s);
  }

  /** The roles of `clause ( OR clause )*`, each once, in the order they are named. */
  method ParseRoles(x: Chars, expr: string) returns (r: Option<seq<string>>)
    ensures r == Clauses(x, expr, [])
  {
    var s := new Scanner(expr);
    var roles: seq<string> := [];
    while true
      invariant s.Valid() && fresh(s) && Clauses(x, s.Rest(), roles) == Clauses(x, expr, [])
      decreases |s.Rest()|
    {
      ClausesStep(x, s.Rest(), roles);
      var all := ParseClause(x, s, roles);
      if all.None? { return None; }
      roles := all.value;
      var end := s.AtEnd();
      if end { return Some(roles); }
      var ok := s.Word(x, "OR");
      if !ok { return None; }
    }
  }

  /** One clause of an expression, then its end or another clause. */
  function AfterClause(x: Chars, rest: string, roles: seq<string>): Option<seq<string>> {
    if rest == "" then Some(roles) else
    var more := AcceptWord(x, rest, "OR");
    if more.None? then None else Clauses(x, more.value, roles)
  }

  lemma ClausesStep(x: Chars, s: string, roles: seq<string>)
    ensures var c := Clause(x, s, roles);
      Clauses(x, s, roles) == if c.None? then None else AfterClause(x, SkipSpace(SkipSpace(c.value.1)), c.value.0)
  {
    var c := Clause(x, s, roles);
    if c.Some? {
      SkipTwice(c.value.1);
      WordSkip(x, c.value.1, "OR");
    }
  }

  method ParseClause(x: Chars, s: Scanner, before: seq<string>) returns (r: Option<seq<string>>)
    requires s.Valid()
    modifies s
    ensures s.Valid() && r.Some? == Clause(x, old(s.Rest()), before).Some?
    ensures r.Some? ==> r.value == Clause(x, old(s.Rest()), before).value.0
    ensures r.Some? ==> s.Rest() == SkipSpace(Clause(x, old(s.Rest()), before).value.1)
    ensures r.Some? ==> |s.Rest()| < old(|s.Rest()|)
  {
    var ok := s.Word(x, "subject.roles");
    if !ok { return None; }
    ok := s.Word(x, "CONTAINS");
    if !ok { return None; }
    ghost var head := s.Rest();
    var any := s.Word(x, "ANY");
    if !any { OperandsSkip(x, head, before); }
    r := ParseOperands(x, s, before);
  }

  method ParseOperands(x: Chars, s: Scanner, before: seq<string>) returns (r: Option<seq<string>>)
    requires s.Valid()
    modifies s
    ensures s.Valid() && r.Some? == Operands(x, old(s.Rest()), before).Some?
    ensures r.Some? ==> r.value == Operands(x, old(s.Rest()), before).value.0
    ensures r.Some? ==> s.Rest() == SkipSpace(Operands(x, old(s.Rest()), before).value.1)
    ensures r.Some? ==> |s.Rest()| < old(|s.Rest()|)
  {
    var roles := before;
    while true
      invariant s.Valid() && Operands(x, s.Rest(), roles) == Operands(x, old(s.Rest()), before)
      invariant |s.Rest()| <= old(|s.Rest()|)
      decreases |s.Rest()|
    {
      var role := s.Literal(x);
      if role.None? { return None; }
      if role.value !in roles { roles := roles + [role.value]; }
      var comma := s.Char(',');
      if !comma { return Some(roles); }
    }
  }

  lemma {:induction false} SkipTwice(s: string)
    ensures SkipSpace(SkipSpace(s)) == SkipSpace(s)
  {
    if s != "" && IsScanSpace(s[0]) { SkipTwice(s[1..]); }
  }

  lemma WordSkip(x: Chars, s: string, word: string)
    ensures AcceptWord(x, SkipSpace(s), word) == AcceptWord(x, s, word)
  {
    SkipTwice(s);
  }

  lemma OperandsSkip(x: Chars, s: string, roles: seq<string>)
    ensures Operands(x, SkipSpace(s), roles) == Operands(x, s, roles)
  {
    SkipTwice(s);
  }
}
