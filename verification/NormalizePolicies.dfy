/** The policies of a list normalized, and the index of the subject attributes they read. */
module PolicyNormalizations {
  import opened Sequences
  import opened TextOrder
  import opened JsonValues
  import opened Targets
  import opened Normalizations

  // ---- The maps ----

  class Placement {
    const maps: Normalizer
    ghost var placed: seq<Norm>

    ghost predicate Valid()
      reads this, maps
    {
      NormsOk(placed) && OlsIs(placed, maps.ols) && RlsIs(placed, maps.rls) && GlobalIs(placed, maps.global)
    }

    constructor ()
      ensures Valid() && fresh(maps) && placed == []
    {
      maps := new Normalizer();
      placed := [];
      new;
      NothingPlaced(maps.ols, maps.rls, maps.global);
    }

    method Place(n: Norm)
      requires Valid() && NormOk(n)
      modifies this, maps
      ensures Valid() && placed == old(placed) + [n]
    {
      if n.Wildcard? {
        OlsSame(placed, n, maps.ols);
        RlsSame(placed, n, maps.rls);
        PlaceWildcard(n);
      } else {
        PlacePlain(n);
      }
      placed := placed + [n];
    }

    method PlaceWildcard(n: Norm)
      requires n.Wildcard? && NormOk(n) && GlobalIs(placed, maps.global)
      modifies maps`global
      ensures GlobalIs(placed + [n], maps.global)
    {
      assert n.roles[..0] == [];
      for j := 0 to |n.roles|
        invariant GlobalPart(placed, n, j, maps.global)
      {
        ghost var before := maps.global;
        maps.MergeGlobal(n.roles[j], n.rt, n.op);
        GlobalStep(placed, n, j, before, maps.global);
      }
      GlobalWhole(placed, n, maps.global);
    }

    method PlacePlain(n: Norm)
      requires n.Plain? && NormOk(n) && OlsIs(placed, maps.ols) && RlsIs(placed, maps.rls) && GlobalIs(placed, maps.global)
      modifies maps
      ensures OlsIs(placed + [n], maps.ols) && RlsIs(placed + [n], maps.rls) && GlobalIs(placed + [n], maps.global)
    {
      if |n.roles| > 0 {
        OlsStep(placed, n, maps.ols);
        maps.MergeOLS(n.rt, n.op, n.roles);
      } else {
        OlsSame(placed, n, maps.ols);
      }
      GlobalSame(placed, n, maps.global);
      PlaceRules(n);
    }

    method PlaceRules(n: Norm)
      requires n.Plain? && NormOk(n) && RlsIs(placed, maps.rls)
      modifies maps`rls
      ensures RlsIs(placed + [n], maps.rls)
    {
      var keys := if n.roles == [] then ["ALL"] else n.roles;
      RlsStart(placed, n, maps.rls);
      for j := 0 to |keys|
        invariant RlsPart(placed, n, j, maps.rls)
      {
        ghost var before := maps.rls;
        maps.AppendRLS(n.rt, n.op, keys[j], n.rule);
        RlsStep(placed, n, j, before, maps.rls);
      }
      RlsWhole(placed, n, maps.rls);
    }
  }

  lemma NothingPlaced(ols: OLS, rls: RLS, global: map<string, Access>)
    requires ols == map[] && rls == map[] && global == map[]
    ensures OlsIs([], ols) && RlsIs([], rls) && GlobalIs([], global)
  {
  }

  lemma RlsStart(ns: seq<Norm>, n: Norm, m: RLS)
    requires n.Plain? && RlsIs(ns, m)
    ensures RlsPart(ns, n, 0, m)
  {
    assert RoleKeysOf(n)[..0] == [];
  }

  datatype Normalized = Normalized(ols: OLS, rls: RLS, global: map<string, Access>, refs: map<string, map<string, seq<string>>>)

  /** The maps are those the policies define, and the index holds what their rules read. */
  ghost predicate IsNormalized(x: Texts, ns: seq<Norm>, r: Normalized) {
    OlsIs(ns, r.ols) && RlsIs(ns, r.rls) && GlobalIs(ns, r.global) && RefsAre(x, r.rls, r.refs)
  }

  /** A list is refused when one of its policies is; otherwise every map is defined by
      filtering the list. */
  method NormalizePolicies(x: Texts, ps: seq<Policy>) returns (r: Option<Normalized>)
    ensures r.Some? <==> forall i :: 0 <= i < |ps| ==> Normal(x, ps[i]).Some?
    ensures r.Some? ==> Norms(x, ps).Some? && IsNormalized(x, Norms(x, ps).value, r.value)
  {
    var p := new Placement();
    NormsSome(x, ps);
    for i := 0 to |ps|
      invariant p.Valid() && fresh(p) && fresh(p.maps) && Norms(x, ps[..i]) == Some(p.placed)
    {
      NormsSnoc(x, ps, i);
      var n := NormalizePolicy(x, ps[i]);
      if n.None? { return None; }
      NormalOk(x, ps[i]);
      p.Place(n.value);
    }
    assert ps[..|ps|] == ps;
    var refs := BuildRefIndex(x, p.maps.rls);
    r := Some(Normalized(p.maps.ols, p.maps.rls, p.maps.global, refs));
  }

  lemma AllOfSnoc<T, U>(f: T -> Option<U>, s: seq<T>, i: nat)
    requires i < |s| && AllOf(f, s[..i]).Some?
    ensures f(s[i]).Some? ==> AllOf(f, s[..i + 1]) == Some(AllOf(f, s[..i]).value + [f(s[i]).value])
    ensures f(s[i]).None? ==> AllOf(f, s).None?
  {
    assert s[..i + 1][..i] == s[..i];
  }

  lemma NormsSnoc(x: Texts, ps: seq<Policy>, i: nat)
    requires i < |ps| && Norms(x, ps[..i]).Some?
    ensures Normal(x, ps[i]).Some? ==> Norms(x, ps[..i + 1]) == Some(Norms(x, ps[..i]).value + [Normal(x, ps[i]).value])
    ensures Normal(x, ps[i]).None? ==> Norms(x, ps).None?
  {
    AllOfSnoc(NormalWith(x), ps, i);
  }

  lemma NormsSome(x: Texts, ps: seq<Policy>)
    ensures Norms(x, ps).Some? <==> forall i :: 0 <= i < |ps| ==> Normal(x, ps[i]).Some?
  {
    assert forall i :: 0 <= i < |ps| ==> NormalWith(x)(ps[i]) == Normal(x, ps[i]);
  }

  method NormalizePolicy(x: Texts, p: Policy) returns (n: Option<Norm>)
    ensures n == Normal(x, p)
  {
    var rt, op := NormalKey(x, p.resourceType), NormalKey(x, p.operation);
    if rt == "" || op == "" || IsBlank(x.chars, p.component) || p.roles.None? { return None; }
    var roles := NormalizeRoles(x, p.roles.value);
    if (rt == "ALL" || op == "ALL") && |roles| > 0 { return Some(Wildcard(rt, op, roles)); }
    var rule := NormalRule(x, p);
    if rule.None? { return None; }
    return Some(Plain(rt, op, roles, rule.value));
  }

  // ---- Wildcards ----

  /** The access of a role is what its wildcards open. */
  lemma {:induction false} AccessIs(ns: seq<Norm>, role: string)
    requires NormsOk(ns)
    ensures IsAccess(ns, role, AccessFor(ns, role))
    decreases |ns|
  {
    if ns != [] {
      var k := |ns| - 1;
      AccessIs(ns[..k], role);
      assert ns == ns[..k] + [ns[k]];
      var a := AccessFor(ns[..k], role);
      forall rt, op ensures Opened(ns, role, rt, op) <==> Opened(ns[..k], role, rt, op) || Opens(ns[k], role, rt, op) {
        OpenedSnoc(ns[..k], ns[k], role, rt, op);
      }
      assert NormOk(ns[k]);
      AccessOpens(ns[..k], role, a);
      OpensAccess(ns, role, AccessFor(ns, role));
    }
  }

  predicate Opens(n: Norm, role: string, rt: string, op: string) { n == Wildcard(rt, op, n.roles) && role in n.roles }

  predicate Opened(ns: seq<Norm>, role: string, rt: string, op: string) {
    exists i :: 0 <= i < |ns| && Opens(ns[i], role, rt, op)
  }

  ghost predicate AccessOf(ns: seq<Norm>, role: string, a: Access) {
    && (a.all <==> Opened(ns, role, "ALL", "ALL"))
    && (forall op :: op in a.operations <==> op != "ALL" && Opened(ns, role, "ALL", op))
    && (forall rt :: rt in a.resourceTypes <==> rt != "ALL" && Opened(ns, role, rt, "ALL"))
  }

  lemma AccessOpens(ns: seq<Norm>, role: string, a: Access)
    requires IsAccess(ns, role, a)
    ensures AccessOf(ns, role, a)
  {
  }

  lemma OpensAccess(ns: seq<Norm>, role: string, a: Access)
    requires AccessOf(ns, role, a)
    ensures IsAccess(ns, role, a)
  {
  }

  lemma OpenedSnoc(ns: seq<Norm>, n: Norm, role: string, rt: string, op: string)
    ensures Opened(ns + [n], role, rt, op) <==> Opened(ns, role, rt, op) || Opens(n, role, rt, op)
  {
    var all := ns + [n];
    if Opened(ns, role, rt, op) {
      var i :| 0 <= i < |ns| && Opens(ns[i], role, rt, op);
      assert Opens(all[i], role, rt, op);
    }
    if Opens(n, role, rt, op) { assert Opens(all[|ns|], role, rt, op); }
    if Opened(all, role, rt, op) {
      var i :| 0 <= i < |all| && Opens(all[i], role, rt, op);
      assert i < |ns| ==> Opens(ns[i], role, rt, op);
    }
  }

  // ---- What rules read ----

  /** The text of a value as it is printed. */
  function Show(x: Texts, v: Option<Value>): string {
    match v case None => "<nil>" case Some(Null) => "<nil>" case Some(Str(s)) => s case Some(w) => x.show(w)
  }

  /** The attribute of the subject a reference names, if it names one. */
  function RefOf(x: Texts, ms: seq<Member>): set<string> {
    match Get(ms, "ref")
    case Some(Object(r)) =>
      if EqualFold(x.chars, Show(x, Get(r, "scope")), "subject") then
        match Get(r, "path") case Some(List(es)) => if es == [] then {} else {Show(x, Some(es[0]))} case _ => {}
      else {}
    case _ => {}
  }

  /** The attributes of the subject a condition reads, wherever it reads them. */
  function AstRefs(x: Texts, v: Value): set<string>
    decreases v, 0
  {
    match v
    case Object(ms) =>
      var args := Get(ms, "args");
      RefOf(x, ms) + (if args.Some? && args.value.List? then ArgRefs(x, args.value.elems) else {})
    case _ => {}
  }

  function ArgRefs(x: Texts, args: seq<Value>): set<string>
    decreases args
  {
    if args == [] then {} else ArgRefs(x, args[..|args| - 1]) + AstRefs(x, args[|args| - 1])
  }

  function PredicateRefs(x: Texts, ps: seq<Predicate>): set<string> {
    if ps == [] then {} else PredicateRefs(x, ps[..|ps| - 1]) + TextRefs(x, ps[|ps| - 1].text)
  }

  function TextRefs(x: Texts, text: string): set<string> {
    var found := x.placeholders(text);
    set r | r in found
  }

  function RuleRefs(x: Texts, r: Rule): set<string> {
    (if r.condition.Ast? then AstRefs(x, r.condition.node) else {}) + PredicateRefs(x, r.predicates)
  }

  function RulesRefs(x: Texts, rs: seq<Rule>): set<string> {
    if rs == [] then {} else RulesRefs(x, rs[..|rs| - 1]) + RuleRefs(x, rs[|rs| - 1])
  }

  /** Some rule of the operation reads the attribute. */
  ghost predicate Reads(x: Texts, byRole: map<string, seq<Rule>>, a: string) {
    exists role :: role in byRole && a in RulesRefs(x, byRole[role])
  }

  /** An operation is in the index when its rules read attributes, and under it they stand
      sorted and each once; the empty one is not listed. */
  ghost predicate RefsAre(x: Texts, rls: RLS, index: map<string, map<string, seq<string>>>) {
    && (forall rt :: rt in index ==> rt in rls && index[rt] != map[] && forall op :: op in index[rt] ==> op in rls[rt] && index[rt][op] != [])
    && forall rt, op :: rt in rls && op in rls[rt] ==> IsRefs(x, rls[rt][op], RefsAt(index, rt, op))
  }

  ghost predicate IsRefs(x: Texts, byRole: map<string, seq<Rule>>, refs: seq<string>) {
    Ascending(refs) && forall a :: a in refs <==> a != "" && Reads(x, byRole, a)
  }

  function RefsAt(index: map<string, map<string, seq<string>>>, rt: string, op: string): seq<string> {
    if rt in index && op in index[rt] then index[rt][op] else []
  }

  method BuildRefIndex(x: Texts, rls: RLS) returns (index: map<string, map<string, seq<string>>>)
    ensures RefsAre(x, rls, index)
  {
    index := map[];
    var left := rls.Keys;
    while left != {}
      invariant left <= rls.Keys && index.Keys <= rls.Keys - left
      invariant forall rt :: rt in index ==> index[rt] != map[] && IndexedAll(x, rls[rt], index[rt])
      invariant forall rt :: rt in rls && rt !in left && rt !in index ==> IndexedAll(x, rls[rt], map[])
      decreases left
    {
      var rt :| rt in left;
      left := left - {rt};
      var entry := IndexOperations(x, rls[rt]);
      if entry != map[] { index := index[rt := entry]; }
    }
    IndexWhole(x, rls, index);
  }

  ghost predicate IndexedAll(x: Texts, byOp: map<string, map<string, seq<Rule>>>, entry: map<string, seq<string>>) {
    && (forall op :: op in entry ==> op in byOp && entry[op] != [])
    && forall op :: op in byOp ==> IsRefs(x, byOp[op], if op in entry then entry[op] else [])
  }

  lemma IndexWhole(x: Texts, rls: RLS, index: map<string, map<string, seq<string>>>)
    requires index.Keys <= rls.Keys
    requires forall rt :: rt in index ==> index[rt] != map[] && IndexedAll(x, rls[rt], index[rt])
    requires forall rt :: rt in rls && rt !in index ==> IndexedAll(x, rls[rt], map[])
    ensures RefsAre(x, rls, index)
  {
  }

  method IndexOperations(x: Texts, byOp: map<string, map<string, seq<Rule>>>) returns (entry: map<string, seq<string>>)
    ensures IndexedAll(x, byOp, entry)
  {
    entry := map[];
    var left := byOp.Keys;
    while left != {}
      invariant left <= byOp.Keys && entry.Keys <= byOp.Keys - left
      invariant forall op :: op in entry ==> entry[op] != []
      invariant forall op :: op in byOp && op !in left ==> IsRefs(x, byOp[op], if op in entry then entry[op] else [])
      decreases left
    {
      var op :| op in left;
      left := left - {op};
      var refs := CollectRefs(x, byOp[op]);
      if |refs| > 0 { entry := entry[op := refs]; }
    }
  }

  method CollectRefs(x: Texts, byRole: map<string, seq<Rule>>) returns (refs: seq<string>)
    ensures IsRefs(x, byRole, refs)
  {
    var seen: set<string> := {};
    var left := byRole.Keys;
    while left != {}
      invariant left <= byRole.Keys
      invariant forall a :: a in seen <==> a != "" && exists role :: role in byRole && role !in left && a in RulesRefs(x, byRole[role])
      decreases left
    {
      var role :| role in left;
      left := left - {role};
      seen := ScanRules(x, byRole[role], seen);
    }
    refs := SortSet(seen);
  }

  method ScanRules(x: Texts, rs: seq<Rule>, before: set<string>) returns (seen: set<string>)
    ensures seen == before + (RulesRefs(x, rs) - {""})
  {
    seen := before;
    for i := 0 to |rs|
      invariant seen == before + (RulesRefs(x, rs[..i]) - {""})
    {
      assert rs[..i + 1][..i] == rs[..i];
      if rs[i].condition.Ast? { seen := ScanAst(x, rs[i].condition.node, seen); }
      for j := 0 to |rs[i].predicates|
        invariant seen == before + (RulesRefs(x, rs[..i]) - {""})
          + ((if rs[i].condition.Ast? then AstRefs(x, rs[i].condition.node) else {}) + PredicateRefs(x, rs[i].predicates[..j]) - {""})
      {
        assert rs[i].predicates[..j + 1][..j] == rs[i].predicates[..j];
        seen := ScanPredicate(x, rs[i].predicates[j].text, seen);
      }
      assert rs[i].predicates[..|rs[i].predicates|] == rs[i].predicates;
    }
    assert rs[..|rs|] == rs;
  }

  method ScanPredicate(x: Texts, text: string, before: set<string>) returns (seen: set<string>)
    ensures seen == before + (TextRefs(x, text) - {""})
  {
    seen := before;
    var found := x.placeholders(text);
    for i := 0 to |found|
      invariant seen == before + ((set r | r in found[..i]) - {""})
    {
      if found[i] != "" { seen := seen + {found[i]}; }
      assert found[..i + 1] == found[..i] + [found[i]];
    }
    assert found[..|found|] == found;
  }

  method ScanAst(x: Texts, v: Value, before: set<string>) returns (seen: set<string>)
    ensures seen == before + (AstRefs(x, v) - {""})
    decreases v, 0
  {
    seen := before;
    if !v.Object? { return; }
    seen := seen + (RefOf(x, v.members) - {""});
    var args := Get(v.members, "args");
    if args.Some? && args.value.List? { seen := ScanArgs(x, args.value.elems, seen); }
  }

  method ScanArgs(x: Texts, vs: seq<Value>, before: set<string>) returns (seen: set<string>)
    ensures seen == before + (ArgRefs(x, vs) - {""})
    decreases vs
  {
    seen := before;
    for i := 0 to |vs|
      invariant seen == before + (ArgRefs(x, vs[..i]) - {""})
    {
      assert vs[..i + 1][..i] == vs[..i];
      seen := ScanAst(x, vs[i], seen);
    }
    assert vs[..|vs|] == vs;
  }
}
