/** Normalizing simplified policies: which roles may use an operation at all, the rules of
    each role, the roles with access to everything of a kind, and the subject attributes
    the rules of an operation read.

    `Texts` gives what is not modelled: case mappings, the condition parser, the
    placeholders of a predicate, and the text of a value that is no string. */
module Normalizations {
  import opened Sequences
  import opened TextOrder
  import opened JsonValues
  import opened Targets

  datatype Texts = Texts(
    chars: Chars,
    upper: string -> string,
    lower: string -> string,
    parse: string -> Option<Value>,
    placeholders: string -> seq<string>,
    show: Value -> string)

  datatype Policy = Policy(component: string, resourceType: string, operation: string, condition: Value,
                           rsql: string, querydsl: string, mongodb: string, sql: string, roles: Option<seq<string>>)

  datatype Condition = Fixed(value: bool) | Ast(node: Value)

  datatype Predicate = Predicate(text: string, dialect: string)

  datatype Rule = Rule(condition: Condition, predicates: seq<Predicate>)

  // ---- One policy ----

  /** A policy as it is placed: a wildcard of some roles, or plain. */
  datatype Norm = Wildcard(rt: string, op: string, roles: seq<string>) | Plain(rt: string, op: string, roles: seq<string>, rule: Rule)

  function NormalKey(x: Texts, s: string): string { x.upper(Trim(x.chars, s)) }

  function RoleKeys(x: Texts, raw: seq<string>): seq<string> {
    if raw == [] then [] else
    var r := NormalKey(x, raw[|raw| - 1]);
    RoleKeys(x, raw[..|raw| - 1]) + (if r == "" then [] else [r])
  }

  /** The roles normalized, each once, in ascending order. */
  function NormalRoles(x: Texts, raw: seq<string>): seq<string> { Compact(Sort(RoleKeys(x, raw))) }

  /** None for a condition that cannot be read; otherwise none when there is none. */
  function NormalCondition(x: Texts, v: Value): Option<Option<Condition>> {
    match v
    case Null => Some(None)
    case Bool(b) => Some(Some(Fixed(b)))
    case Str(s) =>
      var text := Trim(x.chars, s);
      if text == "" then Some(None)
      else if x.lower(text) == "true" then Some(Some(Fixed(true)))
      else if x.lower(text) == "false" then Some(Some(Fixed(false)))
      else
        var ast := x.parse(text);
        if ast.None? then None else Some(Some(Ast(ast.value)))
    case _ => None
  }

  function Given(x: Texts, text: string, dialect: string): seq<Predicate> {
    if IsBlank(x.chars, text) then [] else [Predicate(text, dialect)]
  }

  function NormalRule(x: Texts, p: Policy): Option<Rule> {
    match NormalCondition(x, p.condition)
    case None => None
    case Some(c) =>
      var given := Given(x, p.rsql, "rsql") + Given(x, p.querydsl, "querydsl") + Given(x, p.mongodb, "mongodb") + Given(x, p.sql, "sql");
      if c.Some? then Some(Rule(c.value, given))
      else Some(Rule(Fixed(true), if given == [] then [Predicate("true", "rsql")] else given))
  }

  /** None for a policy that is refused. */
  function Normal(x: Texts, p: Policy): Option<Norm> {
    var rt, op := NormalKey(x, p.resourceType), NormalKey(x, p.operation);
    if rt == "" || op == "" || IsBlank(x.chars, p.component) || p.roles.None? then None else
    var roles := NormalRoles(x, p.roles.value);
    if (rt == "ALL" || op == "ALL") && roles != [] then Some(Wildcard(rt, op, roles)) else
    match NormalRule(x, p)
    case None => None
    case Some(rule) => Some(Plain(rt, op, roles, rule))
  }

  /** What a partial function gives of every element, none when it refuses one. */
  function AllOf<T, U>(f: T -> Option<U>, s: seq<T>): (r: Option<seq<U>>)
    ensures r.Some? <==> forall i :: 0 <= i < |s| ==> f(s[i]).Some?
    ensures r.Some? ==> |r.value| == |s| && forall i :: 0 <= i < |s| ==> f(s[i]) == Some(r.value[i])
  {
    if s == [] then Some([]) else
    var before, last := AllOf(f, s[..|s| - 1]), f(s[|s| - 1]);
    if before.Some? && last.Some? then Some(before.value + [last.value]) else None
  }

  function NormalWith(x: Texts): Policy -> Option<Norm> { p => Normal(x, p) }

  /** The policies normalized, none when one of them is refused. */
  function Norms(x: Texts, ps: seq<Policy>): Option<seq<Norm>> { AllOf(NormalWith(x), ps) }

  // ---- What the maps hold, by filtering the policies ----

  predicate AppliesTo(n: Norm, rt: string, op: string) { n.Plain? && n.rt == rt && n.op == op }

  /** The roles of the plain policies of an operation. */
  function RolesFor(ns: seq<Norm>, rt: string, op: string): set<string> {
    if ns == [] then {} else
    var n := ns[|ns| - 1];
    RolesFor(ns[..|ns| - 1], rt, op) + (if AppliesTo(n, rt, op) then set r | r in n.roles else {})
  }

  /** A policy without roles is for the role ALL. */
  function RoleKeysOf(n: Norm): seq<string> { if n.roles == [] then ["ALL"] else n.roles }

  /** The rules of the plain policies of an operation and a role, in the order of the list. */
  function RulesFor(ns: seq<Norm>, rt: string, op: string, role: string): seq<Rule> {
    if ns == [] then [] else
    var n := ns[|ns| - 1];
    RulesFor(ns[..|ns| - 1], rt, op, role) + (if AppliesTo(n, rt, op) && role in RoleKeysOf(n) then [n.rule] else [])
  }

  datatype Access = Access(all: bool, operations: set<string>, resourceTypes: set<string>)

  const NO_ACCESS := Access(false, {}, {})

  function Widen(a: Access, rt: string, op: string): Access {
    if rt == "ALL" && op == "ALL" then a.(all := true)
    else if rt == "ALL" then a.(operations := a.operations + {op})
    else a.(resourceTypes := a.resourceTypes + {rt})
  }

  /** What the wildcards of a role open: everything, operations on every resource type,
      and resource types under every operation. */
  ghost predicate IsAccess(ns: seq<Norm>, role: string, a: Access) {
    && (a.all <==> exists i :: 0 <= i < |ns| && ns[i] == Wildcard("ALL", "ALL", ns[i].roles) && role in ns[i].roles)
    && (forall op :: op in a.operations <==>
          op != "ALL" && exists i :: 0 <= i < |ns| && ns[i] == Wildcard("ALL", op, ns[i].roles) && role in ns[i].roles)
    && (forall rt :: rt in a.resourceTypes <==>
          rt != "ALL" && exists i :: 0 <= i < |ns| && ns[i] == Wildcard(rt, "ALL", ns[i].roles) && role in ns[i].roles)
  }

  function AccessFor(ns: seq<Norm>, role: string): Access {
    if ns == [] then NO_ACCESS else
    var n := ns[|ns| - 1];
    var before := AccessFor(ns[..|ns| - 1], role);
    if n.Wildcard? && role in n.roles then Widen(before, n.rt, n.op) else before
  }

  predicate NamesRole(ns: seq<Norm>, role: string) { exists i :: 0 <= i < |ns| && ns[i].Wildcard? && role in ns[i].roles }

  // ---- Nested maps ----

  type OLS = map<string, map<string, seq<string>>>

  type RLS = map<string, map<string, map<string, seq<Rule>>>>

  function OlsAt(m: OLS, rt: string, op: string): seq<string> {
    if rt in m && op in m[rt] then m[rt][op] else []
  }

  function RlsAt(m: RLS, rt: string, op: string, role: string): seq<Rule> {
    if rt in m && op in m[rt] && role in m[rt][op] then m[rt][op][role] else []
  }

  /** Roles sorted and each once. */
  ghost predicate IsSortedSet(s: seq<string>, roles: set<string>) { Ascending(s) && forall r :: r in s <==> r in roles }

  ghost predicate OlsIs(ns: seq<Norm>, m: OLS) {
    && (forall rt, op :: IsSortedSet(OlsAt(m, rt, op), RolesFor(ns, rt, op)))
    && forall rt :: rt in m ==> m[rt] != map[] && forall op :: op in m[rt] ==> m[rt][op] != []
  }

  ghost predicate RlsIs(ns: seq<Norm>, m: RLS) {
    && (forall rt, op, role :: RlsAt(m, rt, op, role) == RulesFor(ns, rt, op, role))
    && RlsFull(m)
  }

  /** No map in it is empty, nor any list. */
  ghost predicate RlsFull(m: RLS) {
    forall rt :: rt in m ==> m[rt] != map[] && forall op :: op in m[rt] ==> RolesFull(m[rt][op])
  }

  ghost predicate RolesFull(byRole: map<string, seq<Rule>>) {
    byRole != map[] && forall role :: role in byRole ==> byRole[role] != []
  }

  ghost predicate GlobalIs(ns: seq<Norm>, m: map<string, Access>) {
    forall role :: (role in m <==> NamesRole(ns, role)) && (role in m ==> m[role] == AccessFor(ns, role))
  }

  // ---- What one addition changes ----

  /** The rule comes last in one list, every other list is as it was, and a map without
      empty parts gets none. */
  ghost predicate OneRuleMore(before: RLS, after: RLS, rt: string, op: string, role: string, rule: Rule) {
    && RlsAt(after, rt, op, role) == RlsAt(before, rt, op, role) + [rule]
    && (forall rt2, op2, role2 :: (rt2, op2, role2) != (rt, op, role) ==>
          RlsAt(after, rt2, op2, role2) == RlsAt(before, rt2, op2, role2))
    && (RlsFull(before) ==> RlsFull(after))
  }

  function AccessOf(m: map<string, Access>, role: string): Access { if role in m then m[role] else NO_ACCESS }

  /** The role may use everything when the wildcard is for every resource type and
      operation, the operation when it is for every resource type, and the resource type
      otherwise; it may use all it could before, and no other role's access changes. */
  ghost predicate OneWildcardMore(before: map<string, Access>, after: map<string, Access>, role: string, rt: string, op: string) {
    && after.Keys == before.Keys + {role}
    && (forall other :: other in before && other != role ==> after[other] == before[other])
    && (AccessOf(after, role).all <==> AccessOf(before, role).all || (rt == "ALL" && op == "ALL"))
    && (forall o :: o in AccessOf(after, role).operations <==>
          o in AccessOf(before, role).operations || (rt == "ALL" && op != "ALL" && o == op))
    && (forall t :: t in AccessOf(after, role).resourceTypes <==>
          t in AccessOf(before, role).resourceTypes || (rt != "ALL" && t == rt))
  }

  lemma RuleAdded(m: RLS, byOp: map<string, map<string, seq<Rule>>>, byRole: map<string, seq<Rule>>,
                  rt: string, op: string, role: string, items: seq<Rule>, rule: Rule)
    requires byOp == if rt in m then m[rt] else map[]
    requires byRole == if op in byOp then byOp[op] else map[]
    requires items == if role in byRole then byRole[role] else []
    ensures OneRuleMore(m, m[rt := byOp[op := byRole[role := items + [rule]]]], rt, op, role, rule)
  {
    var after := m[rt := byOp[op := byRole[role := items + [rule]]]];
    if RlsFull(m) { StaysFull(m, byOp, byRole, rt, op, role, items + [rule]); }
    forall rt2, op2, role2 | (rt2, op2, role2) != (rt, op, role)
      ensures RlsAt(after, rt2, op2, role2) == RlsAt(m, rt2, op2, role2)
    {
      assert RlsAt(m, rt, op2, role2) == if op2 in byOp && role2 in byOp[op2] then byOp[op2][role2] else [];
    }
  }

  lemma StaysFull(m: RLS, byOp: map<string, map<string, seq<Rule>>>, byRole: map<string, seq<Rule>>,
                  rt: string, op: string, role: string, rules: seq<Rule>)
    requires byOp == if rt in m then m[rt] else map[]
    requires byRole == if op in byOp then byOp[op] else map[]
    requires RlsFull(m) && rules != []
    ensures RlsFull(m[rt := byOp[op := byRole[role := rules]]])
  {
    var inner := byRole[role := rules];
    assert role in inner && RolesFull(inner);
    assert op in byOp[op := inner];
  }

  // ---- The normalizer ----

  class Normalizer {
    var ols: OLS
    var rls: RLS
    var global: map<string, Access>

    constructor ()
      ensures ols == map[] && rls == map[] && global == map[]
    {
      ols, rls, global := map[], map[], map[];
    }

    method MergeOLS(rt: string, op: string, roles: seq<string>)
      modifies `ols
      ensures ols == old(ols)[rt := (if rt in old(ols) then old(ols)[rt] else map[])[op := MergedRoles(OlsAt(old(ols), rt, op), roles)]]
    {
      var byOp := if rt in ols then ols[rt] else map[];
      var existing := if op in byOp then byOp[op] else [];
      if existing == [] {
        byOp := byOp[op := roles];
      } else {
        var merged := MergeSorted(existing, roles);
        byOp := byOp[op := merged];
      }
      ols := ols[rt := byOp];
    }

    method AppendRLS(rt: string, op: string, role: string, rule: Rule)
      modifies `rls
      ensures OneRuleMore(old(rls), rls, rt, op, role, rule)
    {
      var byOp := if rt in rls then rls[rt] else map[];
      var byRole := if op in byOp then byOp[op] else map[];
      var items := if role in byRole then byRole[role] else [];
      RuleAdded(rls, byOp, byRole, rt, op, role, items, rule);
      rls := rls[rt := byOp[op := byRole[role := items + [rule]]]];
    }

    method MergeGlobal(role: string, rt: string, op: string)
      modifies `global
      ensures OneWildcardMore(old(global), global, role, rt, op)
    {
      var entry := if role in global then global[role] else NO_ACCESS;
      if rt == "ALL" && op == "ALL" {
        entry := entry.(all := true);
      } else if rt == "ALL" {
        entry := entry.(operations := entry.operations + {op});
      } else {
        entry := entry.(resourceTypes := entry.resourceTypes + {rt});
      }
      global := global[role := entry];
    }
  }

  /** The roles of both lists; a first list is taken as it is. */
  function MergedRoles(existing: seq<string>, roles: seq<string>): seq<string> {
    if existing == [] then roles else Compact(Sort(existing + roles))
  }

  /** The union of two lists, sorted, through a set listed in any order. */
  method MergeSorted(a: seq<string>, b: seq<string>) returns (r: seq<string>)
    ensures r == Compact(Sort(a + b))
  {
    var roles: set<string> := {};
    for i := 0 to |a|
      invariant roles == set k | 0 <= k < i :: a[k]
    {
      roles := roles + {a[i]};
    }
    for i := 0 to |b|
      invariant roles == (set k | 0 <= k < |a| :: a[k]) + (set k | 0 <= k < i :: b[k])
    {
      roles := roles + {b[i]};
    }
    r := SortSet(roles);
    forall x ensures x in r <==> x in a + b {}
    SortedUnique(a + b, r);
  }

  /** The elements of a set, sorted. */
  method SortSet(s: set<string>) returns (r: seq<string>)
    ensures Ascending(r) && forall x :: x in r <==> x in s
  {
    var listed: seq<string> := [];
    var left := s;
    while left != {}
      invariant Distinct(listed) && left <= s && forall x :: x in listed <==> x in s && x !in left
      decreases left
    {
      var x :| x in left;
      left := left - {x};
      listed := listed + [x];
    }
    r := Sort(listed);
    SortDistinct(listed);
    forall x ensures x in r <==> x in s { SortMembers(listed, x); }
  }

  lemma SortedUnique(s: seq<string>, r: seq<string>)
    requires Ascending(r) && forall x :: x in r <==> x in s
    ensures r == Compact(Sort(s))
  {
    CompactAscending(Sort(s));
    forall x ensures x in Compact(Sort(s)) <==> x in s { SortMembers(s, x); }
    AscendingUnique(r, Compact(Sort(s)));
  }

  lemma SortedMembers(s: seq<string>)
    ensures Ascending(Compact(Sort(s))) && forall x :: x in Compact(Sort(s)) <==> x in s
  {
    CompactAscending(Sort(s));
    forall x ensures x in Compact(Sort(s)) <==> x in s { SortMembers(s, x); }
  }

  method NormalizeRoles(x: Texts, raw: seq<string>) returns (r: seq<string>)
    ensures r == NormalRoles(x, raw)
  {
    var roles: set<string> := {};
    for i := 0 to |raw|
      invariant forall k :: k in roles <==> k in RoleKeys(x, raw[..i])
    {
      assert raw[..i + 1][..i] == raw[..i];
      var role := NormalKey(x, raw[i]);
      if role != "" { roles := roles + {role}; }
    }
    assert raw[..|raw|] == raw;
    r := SortSet(roles);
    SortedUnique(RoleKeys(x, raw), r);
  }

  // ---- One policy placed ----

  /** What every normalized policy keeps. */
  predicate NormOk(n: Norm) {
    Ascending(n.roles) && (n.Wildcard? ==> n.roles != [] && (n.rt == "ALL" || n.op == "ALL"))
  }

  predicate NormsOk(ns: seq<Norm>) { forall i :: 0 <= i < |ns| ==> NormOk(ns[i]) }

  lemma NormalOk(x: Texts, p: Policy)
    requires Normal(x, p).Some?
    ensures NormOk(Normal(x, p).value)
  {
    SortedMembers(RoleKeys(x, p.roles.value));
  }

  lemma Init(ns: seq<Norm>, n: Norm)
    ensures (ns + [n])[..|ns|] == ns
  {
  }

  lemma OlsSame(ns: seq<Norm>, n: Norm, m: OLS)
    requires OlsIs(ns, m) && (n.Wildcard? || n.roles == [])
    ensures OlsIs(ns + [n], m)
  {
    Init(ns, n);
    forall rt, op ensures RolesFor(ns + [n], rt, op) == RolesFor(ns, rt, op) {}
  }

  lemma OlsStep(ns: seq<Norm>, n: Norm, m: OLS)
    requires OlsIs(ns, m) && n.Plain? && n.roles != [] && Ascending(n.roles)
    ensures OlsIs(ns + [n], m[n.rt := (if n.rt in m then m[n.rt] else map[])[n.op := MergedRoles(OlsAt(m, n.rt, n.op), n.roles)]])
  {
    var merged := MergedRoles(OlsAt(m, n.rt, n.op), n.roles);
    var after := m[n.rt := (if n.rt in m then m[n.rt] else map[])[n.op := merged]];
    MergedIsUnion(OlsAt(m, n.rt, n.op), n.roles);
    forall rt, op ensures IsSortedSet(OlsAt(after, rt, op), RolesFor(ns + [n], rt, op)) {
      OlsStepAt(ns, n, m, after, rt, op);
    }
    assert n.op in after[n.rt];
  }

  lemma MergedIsUnion(existing: seq<string>, roles: seq<string>)
    requires Ascending(roles) && roles != []
    ensures Ascending(MergedRoles(existing, roles)) && MergedRoles(existing, roles) != []
    ensures forall r :: r in MergedRoles(existing, roles) <==> r in existing || r in roles
  {
    if existing != [] {
      SortedMembers(existing + roles);
      assert existing[0] in existing + roles;
    }
  }

  lemma OlsStepAt(ns: seq<Norm>, n: Norm, m: OLS, after: OLS, rt: string, op: string)
    requires IsSortedSet(OlsAt(m, rt, op), RolesFor(ns, rt, op)) && n.Plain?
    requires after == m[n.rt := (if n.rt in m then m[n.rt] else map[])[n.op := MergedRoles(OlsAt(m, n.rt, n.op), n.roles)]]
    requires Ascending(MergedRoles(OlsAt(m, n.rt, n.op), n.roles))
    requires forall r :: r in MergedRoles(OlsAt(m, n.rt, n.op), n.roles) <==> r in OlsAt(m, n.rt, n.op) || r in n.roles
    ensures IsSortedSet(OlsAt(after, rt, op), RolesFor(ns + [n], rt, op))
  {
    Init(ns, n);
    if rt == n.rt && op == n.op {
      assert OlsAt(after, rt, op) == MergedRoles(OlsAt(m, rt, op), n.roles);
    } else {
      assert OlsAt(after, rt, op) == OlsAt(m, rt, op);
    }
  }

  /** The map holds the rules of the policies and, under its first `j` keys, that of one more. */
  ghost predicate RlsPart(ns: seq<Norm>, n: Norm, j: nat, m: RLS)
    requires n.Plain? && j <= |RoleKeysOf(n)|
  {
    (forall rt, op, role :: RlsAt(m, rt, op, role) == RulesFor(ns, rt, op, role) + OneMore(n, j, rt, op, role)) && RlsFull(m)
  }

  function OneMore(n: Norm, j: nat, rt: string, op: string, role: string): seq<Rule>
    requires n.Plain? && j <= |RoleKeysOf(n)|
  {
    if AppliesTo(n, rt, op) && role in RoleKeysOf(n)[..j] then [n.rule] else []
  }

  lemma RlsStep(ns: seq<Norm>, n: Norm, j: nat, m: RLS, after: RLS)
    requires n.Plain? && j < |RoleKeysOf(n)| && Ascending(RoleKeysOf(n)) && RlsPart(ns, n, j, m)
    requires OneRuleMore(m, after, n.rt, n.op, RoleKeysOf(n)[j], n.rule)
    ensures RlsPart(ns, n, j + 1, after)
  {
    forall rt, op, role ensures RlsAt(after, rt, op, role) == RulesFor(ns, rt, op, role) + OneMore(n, j + 1, rt, op, role) {
      OneMoreStep(n, j, rt, op, role, RulesFor(ns, rt, op, role));
    }
  }

  lemma OneMoreStep(n: Norm, j: nat, rt: string, op: string, role: string, before: seq<Rule>)
    requires n.Plain? && j < |RoleKeysOf(n)| && Ascending(RoleKeysOf(n))
    ensures before + OneMore(n, j, rt, op, role) + (if rt == n.rt && op == n.op && role == RoleKeysOf(n)[j] then [n.rule] else [])
         == before + OneMore(n, j + 1, rt, op, role)
  {
    var keys := RoleKeysOf(n);
    NotBefore(keys, j);
    assert keys[..j + 1] == keys[..j] + [keys[j]];
  }

  lemma NotBefore(keys: seq<string>, j: nat)
    requires Ascending(keys) && j < |keys|
    ensures keys[j] !in keys[..j]
  {
    if keys[j] in keys[..j] {
      var i :| 0 <= i < j && keys[i] == keys[j];
      Apart(keys, i, j);
    }
  }

  lemma Apart(keys: seq<string>, i: nat, j: nat)
    requires Ascending(keys) && i < j < |keys|
    ensures keys[i] != keys[j]
  {
    var t := keys[i..];
    forall m | 0 <= m < |t| - 1 ensures Less(t[m], t[m + 1]) { assert Less(keys[i + m], keys[i + m + 1]); }
    AscendingHead(t, j - i);
    CompareTextEqual(keys[i], keys[j]);
  }

  lemma RlsWhole(ns: seq<Norm>, n: Norm, m: RLS)
    requires n.Plain? && RlsPart(ns, n, |RoleKeysOf(n)|, m)
    ensures RlsIs(ns + [n], m)
  {
    Init(ns, n);
    assert RoleKeysOf(n)[..|RoleKeysOf(n)|] == RoleKeysOf(n);
  }

  lemma RlsSame(ns: seq<Norm>, n: Norm, m: RLS)
    requires n.Wildcard? && RlsIs(ns, m)
    ensures RlsIs(ns + [n], m)
  {
    Init(ns, n);
    forall rt, op, role ensures RulesFor(ns + [n], rt, op, role) == RulesFor(ns, rt, op, role) {}
  }

  /** The map holds the access of the policies and, of the first `j` roles, that of one more. */
  ghost predicate GlobalPart(ns: seq<Norm>, n: Norm, j: nat, m: map<string, Access>)
    requires n.Wildcard? && j <= |n.roles|
  {
    forall role ::
      && (role in m <==> NamesRole(ns, role) || role in n.roles[..j])
      && (role in m ==> m[role] == if role in n.roles[..j] then Widen(AccessFor(ns, role), n.rt, n.op) else AccessFor(ns, role))
  }

  lemma WidenIs(before: map<string, Access>, after: map<string, Access>, role: string, rt: string, op: string)
    requires OneWildcardMore(before, after, role, rt, op)
    ensures role in after && after[role] == Widen(AccessOf(before, role), rt, op)
  {
    assert after[role].operations == Widen(AccessOf(before, role), rt, op).operations;
    assert after[role].resourceTypes == Widen(AccessOf(before, role), rt, op).resourceTypes;
  }

  /** The access of the role before its wildcard, whether it has an entry or not. */
  lemma AccessBefore(ns: seq<Norm>, n: Norm, j: nat, m: map<string, Access>)
    requires n.Wildcard? && j < |n.roles| && Ascending(n.roles) && GlobalPart(ns, n, j, m)
    ensures AccessOf(m, n.roles[j]) == AccessFor(ns, n.roles[j])
  {
    NotBefore(n.roles, j);
    if !NamesRole(ns, n.roles[j]) { NoAccessYet(ns, n.roles[j]); }
  }

  lemma GlobalStep(ns: seq<Norm>, n: Norm, j: nat, m: map<string, Access>, after: map<string, Access>)
    requires n.Wildcard? && j < |n.roles| && Ascending(n.roles) && GlobalPart(ns, n, j, m)
    requires OneWildcardMore(m, after, n.roles[j], n.rt, n.op)
    ensures GlobalPart(ns, n, j + 1, after)
  {
    WidenIs(m, after, n.roles[j], n.rt, n.op);
    AccessBefore(ns, n, j, m);
    SliceSnoc(n.roles, 0, j);
    assert n.roles[0..j + 1] == n.roles[..j + 1] && n.roles[0..j] == n.roles[..j];
  }

  lemma {:induction false} NoAccessYet(ns: seq<Norm>, role: string)
    requires !NamesRole(ns, role)
    ensures AccessFor(ns, role) == NO_ACCESS
    decreases |ns|
  {
    if ns != [] {
      var k := |ns| - 1;
      assert ns == ns[..k] + [ns[k]];
      NamesSnoc(ns[..k], ns[k], role);
      NoAccessYet(ns[..k], role);
    }
  }

  lemma NamesSnoc(ns: seq<Norm>, n: Norm, role: string)
    ensures NamesRole(ns + [n], role) <==> NamesRole(ns, role) || (n.Wildcard? && role in n.roles)
  {
    var all := ns + [n];
    if NamesRole(ns, role) {
      var i :| 0 <= i < |ns| && ns[i].Wildcard? && role in ns[i].roles;
      assert all[i] == ns[i];
    }
    if n.Wildcard? && role in n.roles { assert all[|ns|] == n; }
    if NamesRole(all, role) {
      var i :| 0 <= i < |all| && all[i].Wildcard? && role in all[i].roles;
      assert i < |ns| ==> ns[i] == all[i];
    }
  }

  lemma GlobalWhole(ns: seq<Norm>, n: Norm, m: map<string, Access>)
    requires n.Wildcard? && GlobalPart(ns, n, |n.roles|, m)
    ensures GlobalIs(ns + [n], m)
  {
    Init(ns, n);
    assert n.roles[..|n.roles|] == n.roles;
    forall role ensures (role in m <==> NamesRole(ns + [n], role)) && (role in m ==> m[role] == AccessFor(ns + [n], role)) {
      NamesSnoc(ns, n, role);
    }
  }

  lemma GlobalSame(ns: seq<Norm>, n: Norm, m: map<string, Access>)
    requires n.Plain? && GlobalIs(ns, m)
    ensures GlobalIs(ns + [n], m)
  {
    Init(ns, n);
    forall role ensures (role in m <==> NamesRole(ns + [n], role)) && (role in m ==> m[role] == AccessFor(ns + [n], role)) {
      NamesSnoc(ns, n, role);
    }
  }
}
