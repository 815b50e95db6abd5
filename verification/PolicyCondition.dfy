/** Conditions of the policy language, as far as the scope of an iterate reaches: how a
    subject token is read outside and inside one, and what a valid condition is.

    `Syntax` stands for the rest of the parser: how a text splits into disjuncts, atoms,
    and operand tokens, how a path is normalized, and which resource paths, patterns,
    and numbers are valid. */
module PolicyConditions {
  import opened Sequences
  import opened AttrToken

  // ---- Operands, atoms, conditions ----

  datatype Operand =
    | Operation
    | ResourceType
    | Resource(path: string)
    | Subject(attr: string, key: string)
    | PIPRef(name: string, filtered: bool, operation: string)
    | Entitled(resourceType: string, names: seq<string>)
    | PassValue(var_: string, key: string)
    | StringLit(value: string)
    | NumberLit(text: string)
    | BoolLit(b: bool)
    | ListLit(items: seq<Operand>, raw: string)
    | Pattern(text: string)
    | UnsupportedOperand(form: string, text: string)

  datatype Operator =
    | EQ | NE | LT | LE | GT | GE | IS_NULL | IS_NOT_NULL | IS_EMPTY | IS_NOT_EMPTY | IN | NOT_IN | CONTAINS | NOT_CONTAINS
    | CONTAINS_ANY | NOT_CONTAINS_ANY | IS_SUBSET | IS_NOT_SUBSET | MATCH | NOT_MATCH
  {
    predicate Unary() { this in {IS_NULL, IS_NOT_NULL, IS_EMPTY, IS_NOT_EMPTY} }

    predicate TakesList() { this in {IN, NOT_IN, CONTAINS_ANY, NOT_CONTAINS_ANY, IS_SUBSET, IS_NOT_SUBSET} }
  }

  datatype Atom =
    | Const(value: bool)
    | IsM2M
    | Access(denied: bool, operation: string)
    | Compare(op: Operator, left: Operand, right: Option<Operand>)
    | UnsupportedAtom(form: string, text: string)

  datatype Place = Simplified | RuleCondition | RuleTarget | PolicyTarget | SetTarget

  datatype Condition = Condition(place: Place, disjuncts: seq<seq<Atom>>)

  // ---- What the parser's other parts give ----

  /** An operand as the lexer finds it: an attribute token, such a token followed by
      FILTERED and an operation, or any other operand. */
  datatype RawOperand = Token(tok: string) | FilteredToken(tok: string, operation: string) | Other(operand: Operand)

  datatype RawAtom = Ready(atom: Atom) | RawCompare(op: Operator, left: RawOperand, right: Option<RawOperand>)

  datatype Syntax = Syntax(
    split: string -> Option<seq<seq<RawAtom>>>,
    normalize: string -> string,
    compiles: string -> bool,
    isNumber: string -> bool,
    isPattern: string -> bool)

  /** An operand that reads the scope of an iterate comes from a token, never from
      another part of the parser. */
  predicate ReadsScope(o: Operand) { o.PassValue? || (o.Subject? && o.attr == "permissionScope") }

  predicate ScopedAtom(a: Atom) {
    a.Compare? && (ReadsScope(a.left) || (a.right.Some? && ReadsScope(a.right.value)))
  }

  predicate RawIsPlain(a: RawAtom) {
    match a
    case Ready(x) => !ScopedAtom(x)
    case RawCompare(_, l, r) =>
      && (l.Other? ==> !ReadsScope(l.operand))
      && (r.Some? && r.value.Other? ==> !ReadsScope(r.value.operand))
  }

  predicate PlainConj(atoms: seq<RawAtom>) { forall j :: 0 <= j < |atoms| ==> RawIsPlain(atoms[j]) }

  predicate PlainExpr(ors: seq<seq<RawAtom>>) { forall i :: 0 <= i < |ors| ==> PlainConj(ors[i]) }

  ghost predicate Faithful(x: Syntax) {
    forall text: string :: x.split(text).Some? ==> PlainExpr(x.split(text).value)
  }

  // ---- Subject tokens ----

  const SCOPE_PREFIX := "subject.permissionScope."
  const SUBJECT_ATTRS := ["id", "name", "type", "serviceAccount", "roles", "scopes", "permissions", "isM2M", "permissionScope"]

  predicate IsIdentifier(s: string) {
    s != "" && IsNameStart(s[0]) && forall i :: 0 <= i < |s| ==> IsNameStart(s[i]) || '0' <= s[i] <= '9'
  }

  /** One or more identifiers, each after a dot. */
  predicate IsDotted(s: string)
    decreases |s|
  {
    s != "" && s[0] == '.' && (IsIdentifier(s[1..]) || exists k :: 1 < k < |s| && IsIdentifier(s[1..k]) && IsDotted(s[k..]))
  }

  predicate IsPIPToken(tok: string) { "subject" <= tok && IsDotted(tok[7..]) }

  /** One subject.permissionScope.<key> token, its key an attribute token of its own. */
  predicate IsScopeToken(tok: string) {
    SCOPE_PREFIX <= tok && Accepts(tok[|SCOPE_PREFIX|..])
  }

  predicate IsSubjectToken(tok: string) { IsScopeToken(tok) || IsPIPToken(tok) }

  /** The key of a scope token is what the scanner reads after the prefix, to the end. */
  method ScansAsScopeToken(tok: string) returns (r: bool)
    ensures r == IsScopeToken(tok)
  {
    if !(SCOPE_PREFIX <= tok) || |tok| == |SCOPE_PREFIX| || !IsNameStart(tok[|SCOPE_PREFIX|]) {
      KeyStarts(tok);
      return false;
    }
    var n := |SCOPE_PREFIX|;
    var scanner := new AttrScanner(tok);
    var len := scanner.TokenLen(n);
    r := n + len == |tok|;
    assert tok[n..|tok|] == tok[n..];
    AcceptsIffMatches(tok[n..]);
  }

  lemma KeyStarts(tok: string)
    ensures IsScopeToken(tok) ==> |tok| > |SCOPE_PREFIX| && IsNameStart(tok[|SCOPE_PREFIX|])
  {
    if !IsScopeToken(tok) { return; }
    var key := tok[|SCOPE_PREFIX|..];
    TokenStarts(key);
    assert key[0] == tok[|SCOPE_PREFIX|];
  }

  lemma {:induction false} TokenStarts(s: string)
    requires Accepts(s)
    ensures s != "" && IsNameStart(s[0])
  {
    assert s != "" by { assert Run(Start, "") == Start; }
    var h := s[..1];
    assert s == h + s[1..] && h[..0] == "";
    RunConcat(Start, h, s[1..]);
    if !IsNameStart(s[0]) { DeadStays(s[1..]); }
  }

  /** What a token reads: inside the iterate `iterVar` a permission scope is a value of
      the pass. */
  function SubjectToken(tok: string, iterVar: string): Option<Operand> {
    if !IsSubjectToken(tok) then None
    else if IsScopeToken(tok) then
      var key := tok[|SCOPE_PREFIX|..];
      Some(if iterVar != "" then PassValue(iterVar, key) else Subject("permissionScope", key))
    else
      var name := tok[8..];
      Some(if name != "permissionScope" && name in SUBJECT_ATTRS then Subject(name, "") else PIPRef(tok, false, ""))
  }

  function ResourceOperand(x: Syntax, path: string, text: string): Operand {
    if x.compiles(path) then Resource(path) else UnsupportedOperand("jsonpath", text)
  }

  /** The operand of an attribute token; a bare subject is refused. */
  function TokenOperand(x: Syntax, tok: string, iterVar: string): Option<Operand> {
    var s := SubjectToken(tok, iterVar);
    var path := x.normalize(tok);
    if s.Some? then s
    else if path == "operation" then Some(Operation)
    else if path == "resourceType" then Some(ResourceType)
    else if path == "resource" || "resource." <= path || "resource[" <= path then
      Some(ResourceOperand(x, path[8..], tok))
    else if path == "subject" then None
    else Some(ResourceOperand(x, "." + path, tok))
  }

  // ---- Valid conditions ----

  const FORMS := ["jsonpath", "syntax", "nested-iterate", "pip-extension"]

  predicate ValidOperand(x: Syntax, o: Operand) {
    match o
    case Resource(path) => path == "" || path[0] == '.' || path[0] == '['
    case Subject(attr, key) => attr in SUBJECT_ATTRS && (key == "" <==> attr != "permissionScope")
    case PIPRef(name, filtered, operation) => name != "" && (filtered || operation == "") && (filtered ==> |name| >= 9 && name[|name| - 9..] == ".filtered")
    case Entitled(_, names) => names != []
    case PassValue(v, key) => v != "" && key != ""
    case NumberLit(text) => x.isNumber(text)
    case ListLit(items, raw) =>
      && items != [] && (|items| == 1 <==> raw == "")
      && ((forall i :: 0 <= i < |items| ==> items[i].StringLit?) || (forall i :: 0 <= i < |items| ==> items[i].BoolLit?)
          || (forall i :: 0 <= i < |items| ==> items[i].NumberLit? && x.isNumber(items[i].text)))
    case Pattern(text) => text != ""
    case UnsupportedOperand(form, text) => form in FORMS && text != ""
    case _ => true
  }

  predicate Compiles(x: Syntax, o: Operand) { o.Resource? ==> x.compiles(o.path) }

  predicate ValidLeft(x: Syntax, o: Operand) {
    ValidOperand(x, o) && !o.ListLit? && !o.Pattern? && !(o.PIPRef? && o.filtered) && Compiles(x, o)
  }

  predicate ValidRight(x: Syntax, op: Operator, o: Operand) {
    ValidOperand(x, o) && (
      if o.UnsupportedOperand? then true
      else if op == MATCH || op == NOT_MATCH then o.Pattern? && x.isPattern(o.text)
      else Compiles(x, o) && !o.Pattern? && (o.ListLit? ==> op.TakesList())
           && (o.StringLit? || o.NumberLit? || o.BoolLit? ==> !op.TakesList()))
  }

  predicate ValidAtom(x: Syntax, a: Atom) {
    match a
    case Compare(op, l, r) =>
      ValidLeft(x, l) && (op.Unary() <==> r.None?) && (r.Some? ==> ValidRight(x, op, r.value))
    case UnsupportedAtom(form, text) => form in FORMS && text != ""
    case _ => true
  }

  predicate ValidConj(x: Syntax, atoms: seq<Atom>) {
    atoms != [] && forall j :: 0 <= j < |atoms| ==> ValidAtom(x, atoms[j])
  }

  predicate ValidCondition(x: Syntax, c: Condition) {
    c.disjuncts != [] && forall i :: 0 <= i < |c.disjuncts| ==> ValidConj(x, c.disjuncts[i])
  }

  // ---- Parsing ----

  function ReadOperand(x: Syntax, o: RawOperand, iterVar: string): Option<Operand> {
    match o
    case Token(tok) => TokenOperand(x, tok, iterVar)
    case FilteredToken(tok, operation) =>
      var p := TokenOperand(x, tok, iterVar);
      if p.Some? && p.value.PIPRef? then Some(PIPRef(p.value.name + ".filtered", true, operation)) else None
    case Other(p) => Some(p)
  }

  function ReadAtom(x: Syntax, a: RawAtom, iterVar: string): Option<Atom> {
    match a
    case Ready(y) => Some(y)
    case RawCompare(op, l, r) =>
      match ReadOperand(x, l, iterVar)
      case None => None
      case Some(left) =>
        if r.None? then Some(Compare(op, left, None)) else
        match ReadOperand(x, r.value, iterVar)
        case None => None
        case Some(right) => Some(Compare(op, left, Some(right)))
  }

  function ReadConj(x: Syntax, atoms: seq<RawAtom>, iterVar: string): (r: Option<seq<Atom>>)
    ensures r.Some? ==> |r.value| == |atoms| && forall i :: 0 <= i < |atoms| ==> ReadAtom(x, atoms[i], iterVar) == Some(r.value[i])
  {
    if atoms == [] then Some([]) else
    match ReadConj(x, atoms[..|atoms| - 1], iterVar)
    case None => None
    case Some(init) =>
      match ReadAtom(x, atoms[|atoms| - 1], iterVar)
      case None => None
      case Some(a) => Some(init + [a])
  }

  function ReadExpr(x: Syntax, ors: seq<seq<RawAtom>>, iterVar: string): (r: Option<seq<seq<Atom>>>)
    ensures r.Some? ==> |r.value| == |ors| && forall i :: 0 <= i < |ors| ==> ReadConj(x, ors[i], iterVar) == Some(r.value[i])
  {
    if ors == [] then Some([]) else
    match ReadExpr(x, ors[..|ors| - 1], iterVar)
    case None => None
    case Some(init) =>
      match ReadConj(x, ors[|ors| - 1], iterVar)
      case None => None
      case Some(c) => Some(init + [c])
  }

  /** The condition of a text, or none where the parser refuses it. */
  function ParseCondition(x: Syntax, text: string, place: Place, iterVar: string): Option<Condition> {
    match x.split(text)
    case None => None
    case Some(ors) =>
      match ReadExpr(x, ors, iterVar)
      case None => None
      case Some(ds) => if ValidCondition(x, Condition(place, ds)) then Some(Condition(place, ds)) else None
  }

  /** A text the parser refuses becomes one unsupported atom; the empty text is true. */
  function BuildCondition(x: Syntax, text: Option<string>, place: Place, iterVar: string): Option<Condition> {
    if text.None? then None
    else if text.value == "" then Some(Condition(place, [[Const(true)]]))
    else
      match ParseCondition(x, text.value, place, iterVar)
      case Some(c) => Some(c)
      case None => Some(Condition(place, [[UnsupportedAtom("syntax", text.value)]]))
  }

  // ---- Scope ----

  /** The operand reads the scope of `iterVar` as a place inside it, or outside any iterate, must. */
  predicate OperandInScope(o: Operand, iterVar: string) {
    if iterVar == "" then !o.PassValue?
    else !(o.Subject? && o.attr == "permissionScope") && (o.PassValue? ==> o.var_ == iterVar)
  }

  predicate AtomInScope(a: Atom, iterVar: string) {
    a.Compare? ==> OperandInScope(a.left, iterVar) && (a.right.Some? ==> OperandInScope(a.right.value, iterVar))
  }

  predicate InScope(c: Condition, iterVar: string) {
    forall i, j :: 0 <= i < |c.disjuncts| && 0 <= j < |c.disjuncts[i]| ==> AtomInScope(c.disjuncts[i][j], iterVar)
  }

  lemma ReadAtomInScope(x: Syntax, a: RawAtom, iterVar: string)
    requires RawIsPlain(a) && ReadAtom(x, a, iterVar).Some?
    ensures AtomInScope(ReadAtom(x, a, iterVar).value, iterVar)
  {
  }

  /** Every condition built is valid, stands at its place, and reads no scope but its own. */
  lemma BuiltCondition(x: Syntax, text: Option<string>, place: Place, iterVar: string)
    requires Faithful(x)
    ensures match BuildCondition(x, text, place, iterVar)
            case None => text.None?
            case Some(c) => ValidCondition(x, c) && c.place == place && InScope(c, iterVar)
  {
    if text.Some? && text.value != "" && ParseCondition(x, text.value, place, iterVar).Some? {
      var c := ParseCondition(x, text.value, place, iterVar).value;
      var ors := x.split(text.value).value;
      forall i, j | 0 <= i < |c.disjuncts| && 0 <= j < |c.disjuncts[i]| ensures AtomInScope(c.disjuncts[i][j], iterVar) {
        assert ReadConj(x, ors[i], iterVar) == Some(c.disjuncts[i]);
        assert PlainConj(ors[i]);
        ReadAtomInScope(x, ors[i][j], iterVar);
      }
    }
  }

  // ---- The same text inside and outside an iterate ----

  /** The operand as read outside every iterate. */
  function Unbound(o: Operand): Operand {
    if o.PassValue? then Subject("permissionScope", o.key) else o
  }

  function UnboundAtom(a: Atom): Atom {
    if !a.Compare? then a
    else Compare(a.op, Unbound(a.left), if a.right.Some? then Some(Unbound(a.right.value)) else None)
  }

  function UnboundAtoms(atoms: seq<Atom>): (r: seq<Atom>)
    ensures |r| == |atoms| && forall i :: 0 <= i < |r| ==> r[i] == UnboundAtom(atoms[i])
  {
    seq(|atoms|, i requires 0 <= i < |atoms| => UnboundAtom(atoms[i]))
  }

  function UnboundDisjuncts(ds: seq<seq<Atom>>): (r: seq<seq<Atom>>)
    ensures |r| == |ds| && forall i :: 0 <= i < |r| ==> r[i] == UnboundAtoms(ds[i])
  {
    seq(|ds|, i requires 0 <= i < |ds| => UnboundAtoms(ds[i]))
  }

  function UnboundCondition(c: Condition): Condition { Condition(c.place, UnboundDisjuncts(c.disjuncts)) }

  function UnboundOption(c: Option<Condition>): Option<Condition> {
    if c.Some? then Some(UnboundCondition(c.value)) else None
  }

  lemma UnboundToken(x: Syntax, tok: string, iterVar: string)
    ensures var r := TokenOperand(x, tok, iterVar);
            TokenOperand(x, tok, "") == if r.Some? then Some(Unbound(r.value)) else None
    ensures IsScopeToken(tok) ==> tok[|SCOPE_PREFIX|..] != ""
  {
    KeyStarts(tok);
  }

  /** An atom is read alike in and out of an iterate, but for the scope it reads. */
  lemma UnboundAtomRead(x: Syntax, a: RawAtom, iterVar: string)
    requires RawIsPlain(a)
    ensures var r := ReadAtom(x, a, iterVar);
            ReadAtom(x, a, "") == if r.Some? then Some(UnboundAtom(r.value)) else None
    ensures var r := ReadAtom(x, a, iterVar);
            r.Some? ==> (ValidAtom(x, r.value) <==> ValidAtom(x, UnboundAtom(r.value)))
  {
    if a.RawCompare? {
      UnboundOperand(x, a.left, iterVar);
      if a.right.Some? { UnboundOperand(x, a.right.value, iterVar); }
    }
  }

  lemma UnboundOperand(x: Syntax, o: RawOperand, iterVar: string)
    requires o.Other? ==> !ReadsScope(o.operand)
    ensures var r := ReadOperand(x, o, iterVar);
            ReadOperand(x, o, "") == if r.Some? then Some(Unbound(r.value)) else None
    ensures var r := ReadOperand(x, o, iterVar);
            r.Some? ==> (ValidLeft(x, r.value) <==> ValidLeft(x, Unbound(r.value)))
    ensures var r := ReadOperand(x, o, iterVar);
            r.Some? ==> forall op :: ValidRight(x, op, r.value) <==> ValidRight(x, op, Unbound(r.value))
  {
    if !o.Other? { UnboundToken(x, o.tok, iterVar); }
  }

  lemma {:induction false} UnboundConj(x: Syntax, atoms: seq<RawAtom>, iterVar: string)
    requires PlainConj(atoms)
    ensures var r := ReadConj(x, atoms, iterVar);
            ReadConj(x, atoms, "") == if r.Some? then Some(UnboundAtoms(r.value)) else None
  {
    if atoms == [] {
      assert UnboundAtoms([]) == [];
    } else {
      var n := |atoms| - 1;
      UnboundConj(x, atoms[..n], iterVar);
      UnboundAtomRead(x, atoms[n], iterVar);
      var r, a := ReadConj(x, atoms[..n], iterVar), ReadAtom(x, atoms[n], iterVar);
      if r.Some? && a.Some? {
        assert UnboundAtoms(r.value + [a.value]) == UnboundAtoms(r.value) + [UnboundAtom(a.value)];
      }
    }
  }

  lemma UnboundSnoc(ds: seq<seq<Atom>>, c: seq<Atom>)
    ensures UnboundDisjuncts(ds + [c]) == UnboundDisjuncts(ds) + [UnboundAtoms(c)]
  {
  }

  lemma {:induction false} UnboundExpr(x: Syntax, ors: seq<seq<RawAtom>>, iterVar: string)
    requires PlainExpr(ors)
    ensures var r := ReadExpr(x, ors, iterVar);
            ReadExpr(x, ors, "") == if r.Some? then Some(UnboundDisjuncts(r.value)) else None
  {
    if ors == [] {
      assert UnboundDisjuncts([]) == [];
    } else {
      var n := |ors| - 1;
      assert PlainConj(ors[n]);
      UnboundExpr(x, ors[..n], iterVar);
      UnboundConj(x, ors[n], iterVar);
      var r, c := ReadExpr(x, ors[..n], iterVar), ReadConj(x, ors[n], iterVar);
      if r.Some? && c.Some? {
        UnboundSnoc(r.value, c.value);
      }
    }
  }

  lemma UnboundValid(x: Syntax, ors: seq<seq<RawAtom>>, iterVar: string, c: Condition)
    requires PlainExpr(ors)
    requires ReadExpr(x, ors, iterVar) == Some(c.disjuncts)
    ensures ValidCondition(x, c) <==> ValidCondition(x, UnboundCondition(c))
  {
    var d, u := c.disjuncts, UnboundDisjuncts(c.disjuncts);
    forall i | 0 <= i < |d| ensures ValidConj(x, d[i]) <==> ValidConj(x, u[i]) {
      assert ReadConj(x, ors[i], iterVar) == Some(d[i]);
      forall j | 0 <= j < |d[i]| ensures ValidAtom(x, d[i][j]) <==> ValidAtom(x, u[i][j]) {
        assert PlainConj(ors[i]);
        UnboundAtomRead(x, ors[i][j], iterVar);
      }
    }
  }

  lemma UnboundSingle(a: Atom)
    requires !a.Compare?
    ensures UnboundDisjuncts([[a]]) == [[a]]
  {
    assert UnboundAtoms([a]) == [a];
  }

  /** The place of a text in or out of an iterate decides nothing but the reading of the
      permission scope: unbinding it gives the condition the text has outside. */
  lemma SameOutside(x: Syntax, text: Option<string>, place: Place, iterVar: string)
    requires Faithful(x)
    ensures UnboundOption(BuildCondition(x, text, place, iterVar)) == BuildCondition(x, text, place, "")
  {
    UnboundSingle(Const(true));
    if text.None? || text.value == "" { return; }
    UnboundSingle(UnsupportedAtom("syntax", text.value));
    if x.split(text.value).None? { return; }
    var ors := x.split(text.value).value;
    UnboundExpr(x, ors, iterVar);
    var r := ReadExpr(x, ors, iterVar);
    if r.Some? { UnboundValid(x, ors, iterVar, Condition(place, r.value)); }
  }
}
