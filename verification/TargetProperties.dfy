/** Printed targets are read back: exactly which resource types and operations survive,
    and the roles, each once and in order. */
module TargetProperties {
  import opened Sequences
  import opened TextOrder
  import opened Targets

  // ---- Comparisons ----

  lemma AfterOwnWord(x: Chars, word: string, rest: string)
    ensures AfterWord(x, word + rest, word) == Some(rest)
  {
    assert (word + rest)[..|word|] == word && (word + rest)[|word|..] == rest;
  }

  lemma OtherWord(x: Chars, s: string, word: string)
    requires s != "" && word != "" && x.fold(s[0]) != x.fold(word[0])
    ensures AfterWord(x, s, word).None?
  {
    if |word| <= |s| { assert s[..|word|][0] == s[0]; }
  }

  lemma SkipOne(s: string, c: char)
    requires s != "" && s[0] == c && !IsPatternSpace(c) && !IsScanSpace(c)
    ensures SkipPatternSpace(s) == s && SkipPatternSpace(" " + s) == s && Spaced(" " + s) == Some(s)
    ensures SkipSpace(s) == s && SkipSpace(" " + s) == s
  {
    assert (" " + s)[1..] == s;
  }

  lemma QuotedWhole(v: string)
    ensures QuotedToEnd("'" + (v + "'")) == if v == "" || HasQuote(v) then None else Some(v)
  {
    var s := "'" + (v + "'");
    assert s[1..|s| - 1] == v;
  }

  /** A comparison is read back exactly when its value is not empty and has no quote. */
  lemma ComparisonRoundTrip(x: Chars, word: string, v: string)
    requires Ascii(x)
    ensures ReadComparison(x, Compared(word, v), word) == if v == "" || HasQuote(v) then None else Some(v)
  {
    var quoted := "'" + (v + "'");
    var b := "==" + (" " + quoted);
    assert Compared(word, v) == word + (" " + b);
    AfterOwnWord(x, word, " " + b);
    SkipOne(b, '=');
    AfterOwnWord(x, "==", " " + quoted);
    SkipOne(quoted, '\'');
    QuotedWhole(v);
  }

  lemma TrimSolid(x: Chars, s: string)
    requires s != "" && !x.isSpace(s[0]) && !x.isSpace(s[|s| - 1])
    ensures Trim(x, s) == s
  {
  }

  /** A text that starts with none of the words of targets is no target. */
  lemma NotTrue(x: Chars, s: string)
    requires Ascii(x) && s != "" && (s[0] == 'r' || s[0] == 'o' || s[0] == 's')
    ensures !EqualFold(x, s, "true")
    ensures s[0] != 'r' ==> ReadComparison(x, s, "resourceType").None?
    ensures s[0] != 'o' ==> ReadComparison(x, s, "operation").None?
    ensures s[0] != 's' ==> Clauses(x, s, []).None?
  {
    assert "true"[0] == 't' && "resourceType"[0] == 'r' && "operation"[0] == 'o' && "subject.roles"[0] == 's';
    if s[0] != 'r' { OtherWord(x, s, "resourceType"); }
    if s[0] != 'o' { OtherWord(x, s, "operation"); }
    if s[0] != 's' {
      assert SkipSpace(s) == s;
      OtherWord(x, s, "subject.roles");
    }
  }

  lemma ComparedSolid(x: Chars, word: string, v: string)
    requires Ascii(x) && word != "" && 'a' <= word[0] <= 'z'
    ensures Trim(x, Compared(word, v)) == Compared(word, v) && Compared(word, v)[0] == word[0]
  {
    var s := Compared(word, v);
    assert s[|s| - 1] == '\'';
    TrimSolid(x, s);
  }

  lemma TrueIsAny(x: Chars)
    requires Ascii(x)
    ensures ParseTarget(x, "true") == Any
  {
    TrimSolid(x, "true");
  }

  /** Which resource types survive: ALL and * as any, and every other that is not empty
      and has no quote as itself. */
  lemma ResourceTypeRoundTrip(x: Chars, v: string)
    requires Ascii(x)
    ensures ParseTarget(x, ResourceTypeText(x, v))
         == if IsAll(x, v) then Any else if v == "" || HasQuote(v) then Unknown else ResourceType(v)
  {
    if IsAll(x, v) {
      TrueIsAny(x);
    } else {
      ComparedSolid(x, "resourceType", v);
      NotTrue(x, Compared("resourceType", v));
      ComparisonRoundTrip(x, "resourceType", v);
    }
  }

  lemma OperationRoundTrip(x: Chars, v: string)
    requires Ascii(x)
    ensures ParseTarget(x, OperationText(x, v))
         == if IsAll(x, v) then Any else if v == "" || HasQuote(v) then Unknown else Operation(v)
  {
    if IsAll(x, v) {
      TrueIsAny(x);
    } else {
      ComparedSolid(x, "operation", v);
      NotTrue(x, Compared("operation", v));
      ComparisonRoundTrip(x, "operation", v);
    }
  }

  // ---- Roles ----

  /** A role that a target can name: one text, without quotes. */
  predicate Nameable(s: string) { !HasQuote(s) && ',' !in s }

  predicate AllNameable(parts: seq<string>) { forall i :: 0 <= i < |parts| ==> Nameable(parts[i]) }

  predicate NoneBlank(x: Chars, parts: seq<string>) { forall i :: 0 <= i < |parts| ==> !IsBlank(x, parts[i]) }

  /** The texts, each once, added to those before them. */
  function AddAll(roles: seq<string>, parts: seq<string>): seq<string>
    decreases |parts|
  {
    if parts == [] then roles else AddAll(AddRole(roles, parts[0]), parts[1..])
  }

  lemma {:induction false} QuoteAfter(p: string, tail: string)
    requires !HasQuote(p)
    ensures QuoteIndex(p + ("'" + tail)) == |p|
    decreases |p|
  {
    if p != "" {
      assert (p + ("'" + tail))[1..] == p[1..] + ("'" + tail);
      QuoteAfter(p[1..], tail);
    }
  }

  lemma AcceptPrinted(x: Chars, p: string, tail: string)
    requires !HasQuote(p)
    ensures AcceptQuoted(x, "'" + (p + ("'" + tail))) == if IsBlank(x, p) then None else Some((p, tail))
  {
    var s := "'" + (p + ("'" + tail));
    assert s[1..] == p + ("'" + tail);
    QuoteAfter(p, tail);
    assert s[1..|p| + 1] == p && s[|p| + 2..] == tail;
  }

  /** A printed list is read back whole, unless one of it is blank. */
  lemma {:induction false} OperandsRoundTrip(x: Chars, parts: seq<string>, roles: seq<string>)
    requires parts != [] && AllNameable(parts)
    ensures Operands(x, QuotedList(parts), roles) == if NoneBlank(x, parts) then Some((AddAll(roles, parts), "")) else None
    decreases |parts|
  {
    var all := AddRole(roles, parts[0]);
    NoneBlankCons(x, parts);
    if |parts| == 1 {
      assert "'" + (parts[0] + ("'" + "")) == QuotedList(parts);
      OperandLast(x, parts[0], roles);
      assert AddAll(all, []) == all && parts[1..] == [];
    } else {
      OperandsRoundTrip(x, parts[1..], all);
      OperandMore(x, parts[0], QuotedList(parts[1..]), roles);
    }
  }

  lemma OperandLast(x: Chars, p: string, roles: seq<string>)
    requires !HasQuote(p)
    ensures Operands(x, "'" + (p + ("'" + "")), roles) == if IsBlank(x, p) then None else Some((AddRole(roles, p), ""))
  {
    AcceptPrinted(x, p, "");
  }

  lemma OperandMore(x: Chars, p: string, rest: string, roles: seq<string>)
    requires !HasQuote(p)
    ensures Operands(x, "'" + (p + ("'" + ("," + rest))), roles)
         == if IsBlank(x, p) then None else Operands(x, rest, AddRole(roles, p))
  {
    AcceptPrinted(x, p, "," + rest);
    assert ("," + rest)[1..] == rest;
  }

  lemma NoneBlankCons(x: Chars, parts: seq<string>)
    requires parts != []
    ensures NoneBlank(x, parts) <==> !IsBlank(x, parts[0]) && NoneBlank(x, parts[1..])
  {
    if !IsBlank(x, parts[0]) && NoneBlank(x, parts[1..]) {
      forall i | 0 <= i < |parts| ensures !IsBlank(x, parts[i]) {
        if i > 0 { assert parts[i] == parts[1..][i - 1]; }
      }
    }
    if NoneBlank(x, parts) {
      forall i | 0 <= i < |parts| - 1 ensures !IsBlank(x, parts[1..][i]) { assert parts[1..][i] == parts[i + 1]; }
    }
  }

  lemma HeadRoundTrip(x: Chars, list: string, any: bool)
    requires Ascii(x) && list != "" && list[0] == '\''
    ensures ClauseHead(x, "subject.roles" + (" CONTAINS" + ((if any then " ANY" else "") + (" " + list)))) == Some(" " + list)
  {
    var a := (if any then " ANY" else "") + (" " + list);
    var s := "subject.roles" + (" CONTAINS" + a);
    assert !any ==> a == " " + list;
    assert a[0] == ' ';
    FirstWord(x, " CONTAINS" + a);
    SecondWord(x, a);
    AnyRoundTrip(x, list, any);
  }

  lemma FirstWord(x: Chars, rest: string)
    requires rest != "" && rest[0] == ' '
    ensures AcceptWord(x, "subject.roles" + rest, "subject.roles") == Some(rest)
  {
    assert "subject.roles"[0] == 's';
    SkipOne("subject.roles" + rest, 's');
    AfterOwnWord(x, "subject.roles", rest);
  }

  lemma SecondWord(x: Chars, rest: string)
    requires rest != "" && rest[0] == ' '
    ensures AcceptWord(x, " CONTAINS" + rest, "CONTAINS") == Some(rest)
  {
    assert " CONTAINS" + rest == " " + ("CONTAINS" + rest);
    SkipOne("CONTAINS" + rest, 'C');
    AfterOwnWord(x, "CONTAINS", rest);
  }

  lemma AnyRoundTrip(x: Chars, list: string, any: bool)
    requires Ascii(x) && list != "" && list[0] == '\''
    ensures AcceptWord(x, (if any then " ANY" else "") + (" " + list), "ANY") == if any then Some(" " + list) else None
  {
    if any {
      assert " ANY" + (" " + list) == " " + ("ANY" + (" " + list));
      SkipOne("ANY" + (" " + list), 'A');
      AfterOwnWord(x, "ANY", " " + list);
    } else {
      assert "" + (" " + list) == " " + list;
      SkipOne(list, '\'');
      assert "ANY"[0] == 'A';
      OtherWord(x, list, "ANY");
    }
  }

  lemma {:induction false} CommaAfter(p: string, tail: string)
    requires ',' !in p
    ensures CommaIndex(p + ("," + tail)) == |p|
    decreases |p|
  {
    if p != "" {
      assert (p + ("," + tail))[1..] == p[1..] + ("," + tail);
      CommaAfter(p[1..], tail);
    }
  }

  lemma {:induction false} NoComma(p: string)
    requires ',' !in p
    ensures CommaIndex(p) == |p|
    decreases |p|
  {
    if p != "" { NoComma(p[1..]); }
  }

  lemma SplitFirst(p: string, rest: string)
    requires ',' !in p
    ensures Split(p + ("," + rest)) == [p] + Split(rest)
  {
    var s := p + ("," + rest);
    CommaAfter(p, rest);
    assert s[..|p|] == p && s[|p| + 1..] == rest;
  }

  lemma {:induction false} SplitJoined(parts: seq<string>)
    requires parts != [] && AllNameable(parts)
    ensures Split(Joined(parts)) == parts
    decreases |parts|
  {
    if |parts| == 1 {
      NoComma(parts[0]);
      assert parts == [parts[0]];
    } else {
      SplitFirst(parts[0], Joined(parts[1..]));
      SplitJoined(parts[1..]);
      assert parts == [parts[0]] + parts[1..];
    }
  }

  lemma ListStarts(parts: seq<string>)
    requires parts != []
    ensures QuotedList(parts) != "" && QuotedList(parts)[0] == '\''
  {
  }

  lemma {:induction false} ListEnds(parts: seq<string>)
    requires parts != []
    ensures var q := QuotedList(parts); q != "" && q[|q| - 1] == '\''
    decreases |parts|
  {
    if |parts| > 1 { ListEnds(parts[1..]); }
  }

  lemma ClausesRoundTrip(x: Chars, parts: seq<string>, any: bool, roles: seq<string>)
    requires Ascii(x) && parts != [] && AllNameable(parts)
    ensures Clauses(x, "subject.roles" + (" CONTAINS" + ((if any then " ANY" else "") + (" " + QuotedList(parts)))), roles)
         == if NoneBlank(x, parts) then Some(AddAll(roles, parts)) else None
  {
    var q := QuotedList(parts);
    ListStarts(parts);
    HeadRoundTrip(x, q, any);
    OperandsSkip(x, " " + q, roles);
    SkipOne(q, '\'');
    OperandsRoundTrip(x, parts, roles);
  }

  // ---- What a key reads back as ----

  predicate NoQuotes(parts: seq<string>) { forall i :: 0 <= i < |parts| ==> !HasQuote(parts[i]) }

  /** The parts of a key hold no comma, and no quote that the key does not hold. */
  lemma {:induction false} SplitParts(s: string)
    ensures Split(s) != [] && forall i :: 0 <= i < |Split(s)| ==> ',' !in Split(s)[i]
    ensures !HasQuote(s) ==> NoQuotes(Split(s))
    decreases |s|
  {
    var k := CommaIndex(s);
    if k < |s| { SplitParts(s[k + 1..]); }
  }

  lemma LiteralHasNoQuote(x: Chars, s: string)
    ensures AcceptQuoted(x, s).Some? ==> !HasQuote(AcceptQuoted(x, s).value.0)
  {
    var t := SkipSpace(s);
    if t != "" {
      var k := QuoteIndex(t[1..]);
      assert t[1..][..k] == t[1..k + 1];
    }
  }

  lemma {:induction false} OperandsHaveNoQuote(x: Chars, s: string, roles: seq<string>)
    requires NoQuotes(roles)
    ensures Operands(x, s, roles).Some? ==> NoQuotes(Operands(x, s, roles).value.0)
    decreases |s|
  {
    LiteralHasNoQuote(x, s);
    var r := AcceptQuoted(x, s);
    if r.Some? {
      var more := AcceptChar(r.value.1, ',');
      if more.Some? { OperandsHaveNoQuote(x, more.value, AddRole(roles, r.value.0)); }
    }
  }

  /** No role read from any expression holds a quote. */
  lemma {:induction false} ClausesHaveNoQuote(x: Chars, s: string, roles: seq<string>)
    requires NoQuotes(roles)
    ensures Clauses(x, s, roles).Some? ==> NoQuotes(Clauses(x, s, roles).value)
    decreases |s|
  {
    var head := ClauseHead(x, s);
    if head.Some? { OperandsHaveNoQuote(x, head.value, roles); }
    var c := Clause(x, s, roles);
    if c.Some? {
      var more := AcceptWord(x, c.value.1, "OR");
      if more.Some? { ClausesHaveNoQuote(x, more.value, c.value.0); }
    }
  }

  /** What the roles of any key are read back as: an empty key opens the policy to every
      role; a key without quotes gives its parts, each once, unless one is blank; and
      whatever a key with quotes gives, no role of it holds a quote. */
  lemma KeyRoundTrip(x: Chars, key: string)
    requires Ascii(x)
    ensures key == "" ==> ParseTarget(x, RolesText(key)) == Any
    ensures key != "" ==> ParseTarget(x, RolesText(key)).Unknown? || ParseTarget(x, RolesText(key)).Roles?
    ensures key != "" && !HasQuote(key) ==>
      ParseTarget(x, RolesText(key)) == if NoneBlank(x, Split(key)) then Roles(AddAll([], Split(key))) else Unknown
    ensures ParseTarget(x, RolesText(key)).Roles? ==> NoQuotes(ParseTarget(x, RolesText(key)).roles)
  {
    if key == "" {
      TrueIsAny(x);
    } else {
      SplitParts(key);
      var parts := Split(key);
      var any, q := |parts| > 1, QuotedList(parts);
      assert "" + (" " + q) == " " + q;
      ListEnds(parts);
      RolesSolid(x, q, any);
      ClausesHaveNoQuote(x, RolesText(key), []);
      if !HasQuote(key) { ClausesRoundTrip(x, parts, any, []); }
    }
  }

  /** Roles without quotes or commas are the parts of their key, in ascending order. */
  lemma PartsOfKey(x: Chars, roles: seq<string>)
    requires AllNameable(roles) && roles != []
    ensures Split(RolesKey(roles)) == Sort(roles) && !HasQuote(RolesKey(roles))
  {
    SortKeeps(x, roles);
    SplitJoined(Sort(roles));
    JoinedHasNoQuote(Sort(roles));
  }

  lemma {:induction false} JoinedHasNoQuote(parts: seq<string>)
    requires NoQuotes(parts)
    ensures !HasQuote(Joined(parts))
    decreases |parts|
  {
    if |parts| > 1 { JoinedHasNoQuote(parts[1..]); }
  }

  // ---- A role that reads as two clauses ----

  function ClauseText(list: string): string { "subject.roles" + (" CONTAINS" + (" " + list)) }

  /** Two roles with the text between that ends one clause and starts another. */
  function TwoClauses(a: string, b: string): string { a + ("' OR " + ("subject.roles" + (" CONTAINS '" + b))) }

  /** A printed role that is followed by more than a comma ends its list. */
  lemma OperandThen(x: Chars, p: string, tail: string, roles: seq<string>)
    requires !HasQuote(p) && !IsBlank(x, p) && AcceptChar(tail, ',').None?
    ensures Operands(x, "'" + (p + ("'" + tail)), roles) == Some((AddRole(roles, p), tail))
  {
    AcceptPrinted(x, p, tail);
  }

  lemma OrFollows(x: Chars, s: string)
    ensures AcceptChar(" OR" + (" " + s), ',').None? && SkipSpace(" OR" + (" " + s)) != ""
    ensures AcceptWord(x, " OR" + (" " + s), "OR") == Some(" " + s)
  {
    assert " OR" + (" " + s) == " " + ("OR" + (" " + s));
    SkipOne("OR" + (" " + s), 'O');
    AfterOwnWord(x, "OR", " " + s);
  }

  lemma ClausesSkip(x: Chars, s: string, roles: seq<string>)
    ensures Clauses(x, " " + ("subject.roles" + s), roles) == Clauses(x, "subject.roles" + s, roles)
  {
    var t := "subject.roles" + s;
    assert "subject.roles"[0] == 's';
    SkipOne(t, 's');
    assert ClauseHead(x, " " + t) == ClauseHead(x, t);
  }

  /** One clause, then what follows the OR. */
  lemma ClauseThen(x: Chars, p: string, s: string, roles: seq<string>)
    requires Ascii(x) && !HasQuote(p) && !IsBlank(x, p)
    ensures Clauses(x, ClauseText("'" + (p + ("'" + (" OR" + (" " + s))))), roles)
         == Clauses(x, " " + s, AddRole(roles, p))
  {
    var tail := " OR" + (" " + s);
    var list := "'" + (p + ("'" + tail));
    OrFollows(x, s);
    assert "" + (" " + list) == " " + list;
    HeadRoundTrip(x, list, false);
    OperandsSkip(x, " " + list, roles);
    SkipOne(list, '\'');
    OperandThen(x, p, tail, roles);
  }

  lemma TwoClausesSpaced(b: string)
    ensures "' OR " + ("subject.roles" + (" CONTAINS '" + b)) + "'"
         == "'" + (" OR" + (" " + ClauseText("'" + (b + "'"))))
  {
    assert " CONTAINS '" + b + "'" == " CONTAINS" + (" " + ("'" + (b + "'")));
    assert "' OR " == "'" + (" OR" + " ");
  }

  lemma TwoClausesText(a: string, b: string)
    requires Nameable(a) && Nameable(b)
    ensures Split(TwoClauses(a, b)) == [TwoClauses(a, b)]
    ensures "'" + (TwoClauses(a, b) + "'") == "'" + (a + ("'" + (" OR" + (" " + ClauseText("'" + (b + "'"))))))
    ensures RolesText(TwoClauses(a, b)) == ClauseText("'" + (TwoClauses(a, b) + "'"))
  {
    var key := TwoClauses(a, b);
    NoComma(key);
    TwoClausesSpaced(b);
    Assoc(a, "' OR " + ("subject.roles" + (" CONTAINS '" + b)), "'");
    assert QuotedList([key]) == "'" + (key + "'");
  }

  lemma LastClause(x: Chars, b: string, roles: seq<string>)
    requires Ascii(x) && Nameable(b) && !IsBlank(x, b)
    ensures Clauses(x, " " + ClauseText("'" + (b + "'")), roles) == Some(AddRole(roles, b))
  {
    var list := "'" + (b + "'");
    ClausesSkip(x, " CONTAINS" + (" " + list), roles);
    assert QuotedList([b]) == list && "" + (" " + list) == " " + list;
    ClausesRoundTrip(x, [b], false, roles);
    assert [b][1..] == [] && AddAll(AddRole(roles, b), []) == AddRole(roles, b);
  }

  /** The role is read as two. */
  lemma TwoClausesRead(x: Chars, a: string, b: string)
    requires Ascii(x) && Nameable(a) && Nameable(b) && !IsBlank(x, a) && !IsBlank(x, b)
    ensures Clauses(x, RolesText(TwoClauses(a, b)), []) == Some(AddAll([], [a, b]))
  {
    TwoClausesText(a, b);
    ClauseThen(x, a, ClauseText("'" + (b + "'")), []);
    LastClause(x, b, AddRole([], a));
    AddTwo([], a, b);
  }

  lemma AddTwo(roles: seq<string>, a: string, b: string)
    ensures AddAll(roles, [a, b]) == AddRole(AddRole(roles, a), b)
  {
    assert [a, b][1..] == [b] && [b][1..] == [];
    assert AddAll(AddRole(AddRole(roles, a), b), []) == AddRole(AddRole(roles, a), b);
  }

  lemma TwoClausesTarget(x: Chars, a: string, b: string)
    requires Ascii(x) && Nameable(a) && Nameable(b) && !IsBlank(x, a) && !IsBlank(x, b)
    ensures ParseTarget(x, RolesText(TwoClauses(a, b))) == Roles(AddAll([], [a, b]))
  {
    var q := "'" + (TwoClauses(a, b) + "'");
    TwoClausesRead(x, a, b);
    TwoClausesText(a, b);
    assert "" + (" " + q) == " " + q;
    RolesSolid(x, q, false);
  }

  lemma RolesSolid(x: Chars, q: string, any: bool)
    requires Ascii(x) && q != "" && q[|q| - 1] == '\''
    ensures var s := "subject.roles" + (" CONTAINS" + ((if any then " ANY" else "") + (" " + q)));
            Trim(x, s) == s && s != "" && !EqualFold(x, s, "true")
            && ReadComparison(x, s, "resourceType").None? && ReadComparison(x, s, "operation").None?
  {
    var s := "subject.roles" + (" CONTAINS" + ((if any then " ANY" else "") + (" " + q)));
    assert "subject.roles"[0] == 's';
    assert s[0] == 's' && s[|s| - 1] == q[|q| - 1];
    TrimSolid(x, s);
    NotTrue(x, s);
  }

  lemma SortKeeps(x: Chars, roles: seq<string>)
    ensures AllNameable(roles) ==> AllNameable(Sort(roles))
    ensures NoneBlank(x, roles) <==> NoneBlank(x, Sort(roles))
    ensures Sort(roles) == [] <==> roles == []
  {
    forall r ensures r in Sort(roles) <==> r in roles { SortMembers(roles, r); }
    forall i | 0 <= i < |roles| ensures roles[i] in Sort(roles) { assert roles[i] in roles; }
    forall i | 0 <= i < |Sort(roles)| ensures Sort(roles)[i] in roles { assert Sort(roles)[i] in Sort(roles); }
    assert |Sort(roles)| == |multiset(Sort(roles))| == |multiset(roles)| == |roles|;
  }

  /** A role is read back exactly when it was named. */
  lemma {:induction false} AddAllMembers(roles: seq<string>, parts: seq<string>, r: string)
    ensures r in AddAll(roles, parts) <==> r in roles || r in parts
    decreases |parts|
  {
    if parts != [] {
      AddAllMembers(AddRole(roles, parts[0]), parts[1..], r);
      assert parts == [parts[0]] + parts[1..];
    }
  }
}
