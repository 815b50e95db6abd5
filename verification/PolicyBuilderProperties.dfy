/** Every tree built from an export is admitted, numbers its iterates in tree order, and
    holds what the export holds; a build fails exactly on an unknown algorithm or effect. */
module PolicyBuilderProperties {
  import opened Sequences
  import opened Numerals
  import opened PolicyConditions
  import opened PolicyTrees
  import opened PolicyBuilders

  // ---- The checker admits every built tree ----

  /** `iterVar` is the innermost of the variables bound, if any is. */
  predicate Innermost(iterVar: string, bound: set<string>) {
    if iterVar == "" then bound == {} else iterVar in bound
  }

  /** The names numbered `n + 1` to `m`. */
  function Numbered(name: nat -> string, n: nat, m: nat): (r: seq<string>)
    requires n <= m
    ensures |r| == m - n && forall i :: 0 <= i < |r| ==> r[i] == name(n + 1 + i)
    decreases m
  {
    if n == m then [] else Numbered(name, n, m - 1) + [name(m)]
  }

  lemma NumberedConcat(name: nat -> string, n: nat, k: nat, m: nat)
    requires n <= k <= m
    ensures Numbered(name, n, k) + Numbered(name, k, m) == Numbered(name, n, m)
    ensures Numbered(name, n, n) == [] && Numbered(name, n, n + 1) == [name(n + 1)]
  {
  }

  lemma NumberedFresh(name: nat -> string, m: nat)
    requires forall a: nat, b: nat :: a != b ==> name(a) != name(b)
    ensures Fresh(Numbered(name, 0, m), {})
  {
  }

  lemma SnocOk(x: Syntax, init: seq<PolicySet>, last: PolicySet, bound: set<string>, n: nat, k: nat, m: nat)
    requires SetsOk(x, init, bound) && SetOk(x, last, bound)
    requires n <= k <= m && VarsOf(init) == Numbered(VarName, n, k) && Vars(last) == Numbered(VarName, k, m)
    ensures SetsOk(x, init + [last], bound) && VarsOf(init + [last]) == Numbered(VarName, n, m)
  {
    assert (init + [last])[..|init|] == init;
    NumberedConcat(VarName, n, k, m);
  }

  lemma VarNamesDiffer(a: nat, b: nat)
    requires a != b
    ensures VarName(a) != VarName(b)
  {
    if FormatInt(a) == FormatInt(b) { FormatIntInjective(a, b); }
    assert VarName(a)[7..] == FormatInt(a) && VarName(b)[7..] == FormatInt(b);
  }

  lemma ConditionPasses(x: Syntax, text: Option<string>, place: Place, iterVar: string, bound: set<string>)
    requires Faithful(x) && Innermost(iterVar, bound)
    ensures ConditionOk(x, BuildCondition(x, text, place, iterVar), place, bound)
  {
    BuiltCondition(x, text, place, iterVar);
  }

  lemma {:induction false} RulesPass(x: Syntax, rs: seq<ExportRule>, iterVar: string, bound: set<string>)
    requires Faithful(x) && Innermost(iterVar, bound) && BuildRules(x, rs, iterVar).Some?
    ensures forall i :: 0 <= i < |BuildRules(x, rs, iterVar).value| ==> RuleOk(x, BuildRules(x, rs, iterVar).value[i], bound)
  {
    if rs != [] {
      var n := |rs| - 1;
      RulesPass(x, rs[..n], iterVar, bound);
      ConditionPasses(x, rs[n].target, RuleTarget, iterVar, bound);
      ConditionPasses(x, rs[n].condition, RuleCondition, iterVar, bound);
    }
  }

  lemma {:induction false} PoliciesPass(x: Syntax, ps: seq<ExportPolicy>, iterVar: string, bound: set<string>)
    requires Faithful(x) && Innermost(iterVar, bound) && BuildPolicies(x, ps, iterVar).Some?
    ensures PoliciesOk(x, BuildPolicies(x, ps, iterVar).value, bound)
  {
    if ps != [] {
      var n := |ps| - 1;
      PoliciesPass(x, ps[..n], iterVar, bound);
      RulesPass(x, ps[n].rules, iterVar, bound);
      ConditionPasses(x, ps[n].target, PolicyTarget, iterVar, bound);
    }
  }

  lemma {:induction false} SetPasses(x: Syntax, s: ExportSet, iterVar: string, n: nat, bound: set<string>, ps: PolicySet, m: nat)
    requires Faithful(x) && Innermost(iterVar, bound) && BuildSet(x, s, iterVar, n) == Some((ps, m))
    ensures n <= m && SetOk(x, ps, bound) && Vars(ps) == Numbered(VarName, n, m)
    decreases s, 1
  {
    NodePasses(x, s, iterVar, n, bound, ps, m);
    if IterateFailure(s.iterate) != "" {
      assert VarsOf([]) == [];
    } else if s.iterate.None? {
      PoliciesPass(x, s.policies, iterVar, bound);
      SetsPass(x, s.sets, iterVar, n, bound, ps.sets, m);
      assert [] + VarsOf(ps.sets) == VarsOf(ps.sets);
    } else {
      var inner := VarName(n + 1);
      PoliciesPass(x, s.policies, inner, bound + {inner});
      SetsPass(x, s.sets, inner, n + 1, bound + {inner}, ps.sets, m);
      NumberedConcat(VarName, n, n + 1, m);
    }
  }

  lemma NodePasses(x: Syntax, s: ExportSet, iterVar: string, n: nat, bound: set<string>, ps: PolicySet, m: nat)
    requires Faithful(x) && Innermost(iterVar, bound) && BuildSet(x, s, iterVar, n) == Some((ps, m))
    ensures NodeOk(x, ps, bound)
  {
    ConditionPasses(x, s.target, SetTarget, iterVar, bound);
  }

  lemma {:induction false} SetsPass(x: Syntax, ss: seq<ExportSet>, iterVar: string, n: nat, bound: set<string>, out: seq<PolicySet>, m: nat)
    requires Faithful(x) && Innermost(iterVar, bound) && BuildSets(x, ss, iterVar, n) == Some((out, m))
    ensures n <= m && SetsOk(x, out, bound) && VarsOf(out) == Numbered(VarName, n, m)
    decreases ss
  {
    if ss != [] {
      var last := |ss| - 1;
      var (init, k) := BuildSets(x, ss[..last], iterVar, n).value;
      SetsPass(x, ss[..last], iterVar, n, bound, init, k);
      SetPasses(x, ss[last], iterVar, k, bound, out[|out| - 1], m);
      SnocOk(x, init, out[|out| - 1], bound, n, k, m);
    }
  }

  lemma TopPasses(x: Syntax, t: TopSet, n: nat, ps: PolicySet, m: nat)
    requires Faithful(x) && BuildTop(x, t, n) == Some((ps, m))
    ensures n <= m && SetOk(x, ps, {}) && Vars(ps) == Numbered(VarName, n, m)
  {
    if t.isolated != "" {
      ConditionPasses(x, t.source.target, SetTarget, "", {});
      assert VarsOf([]) == [];
    } else {
      SetPasses(x, t.source, "", n, {}, ps, m);
    }
  }

  lemma {:induction false} TopsPass(x: Syntax, ts: seq<TopSet>, out: seq<PolicySet>, m: nat)
    requires Faithful(x) && BuildTops(x, ts) == Some((out, m))
    ensures SetsOk(x, out, {}) && VarsOf(out) == Numbered(VarName, 0, m)
  {
    if ts != [] {
      var last := |ts| - 1;
      var (init, k) := BuildTops(x, ts[..last]).value;
      TopsPass(x, ts[..last], init, k);
      TopPasses(x, ts[last], k, out[|out| - 1], m);
      SnocOk(x, init, out[|out| - 1], {}, 0, k, m);
    }
  }

  /** The checker admits the tree of every tenant whose sets can be read. */
  lemma TenantAdmitted(x: Syntax, simplified: seq<Option<string>>, ts: seq<TopSet>)
    requires Faithful(x) && BuildTops(x, ts).Some?
    ensures TreeOk(x, SimplifiedConditions(x, simplified), BuildTops(x, ts).value.0)
    ensures VarsOf(BuildTops(x, ts).value.0) == Numbered(VarName, 0, BuildTops(x, ts).value.1)
  {
    var (out, m) := BuildTops(x, ts).value;
    TopsPass(x, ts, out, m);
    forall a: nat, b: nat | a != b ensures VarName(a) != VarName(b) { VarNamesDiffer(a, b); }
    NumberedFresh(VarName, m);
    forall i | 0 <= i < |simplified|
      ensures ConditionOk(x, SimplifiedConditions(x, simplified)[i], Simplified, {})
    {
      ConditionPasses(x, simplified[i], Simplified, "", {});
    }
  }

  // ---- When a build fails ----

  predicate ReadableRule(r: ExportRule) { r.effect in EFFECTS }

  predicate ReadablePolicy(p: ExportPolicy) {
    p.algorithm in ALGORITHMS && forall i :: 0 <= i < |p.rules| ==> ReadableRule(p.rules[i])
  }

  /** Every algorithm and effect is known, those inside a set that always fails aside. */
  predicate Readable(s: ExportSet)
    decreases s
  {
    && s.algorithm in ALGORITHMS
    && (IterateFailure(s.iterate) == "" ==>
        && (forall i :: 0 <= i < |s.policies| ==> ReadablePolicy(s.policies[i]))
        && AllReadable(s.sets))
  }

  predicate AllReadable(ss: seq<ExportSet>)
    decreases ss
  {
    ss == [] || (AllReadable(ss[..|ss| - 1]) && Readable(ss[|ss| - 1]))
  }

  lemma {:induction false} RulesBuild(x: Syntax, rs: seq<ExportRule>, iterVar: string)
    ensures BuildRules(x, rs, iterVar).Some? <==> forall i :: 0 <= i < |rs| ==> ReadableRule(rs[i])
  {
    if rs != [] { RulesBuild(x, rs[..|rs| - 1], iterVar); }
  }

  lemma {:induction false} PoliciesBuild(x: Syntax, ps: seq<ExportPolicy>, iterVar: string)
    ensures BuildPolicies(x, ps, iterVar).Some? <==> forall i :: 0 <= i < |ps| ==> ReadablePolicy(ps[i])
  {
    if ps != [] {
      PoliciesBuild(x, ps[..|ps| - 1], iterVar);
      RulesBuild(x, ps[|ps| - 1].rules, iterVar);
    }
  }

  lemma {:induction false} SetBuilds(x: Syntax, s: ExportSet, iterVar: string, n: nat)
    ensures BuildSet(x, s, iterVar, n).Some? <==> Readable(s)
    decreases s, 1
  {
    if IterateFailure(s.iterate) == "" {
      var inner := if s.iterate.Some? then VarName(n + 1) else iterVar;
      PoliciesBuild(x, s.policies, inner);
      SetsBuild(x, s.sets, inner, if s.iterate.Some? then n + 1 else n);
    }
  }

  lemma {:induction false} SetsBuild(x: Syntax, ss: seq<ExportSet>, iterVar: string, n: nat)
    ensures BuildSets(x, ss, iterVar, n).Some? <==> AllReadable(ss)
    decreases ss
  {
    if ss != [] {
      var last := |ss| - 1;
      SetsBuild(x, ss[..last], iterVar, n);
      var init := BuildSets(x, ss[..last], iterVar, n);
      if init.Some? { SetBuilds(x, ss[last], iterVar, init.value.1); }
    }
  }

  /** A tenant's sets are built exactly when those not isolated are readable. */
  lemma {:induction false} TenantBuilds(x: Syntax, ts: seq<TopSet>)
    ensures BuildTops(x, ts).Some? <==> forall i :: 0 <= i < |ts| ==> ts[i].isolated != "" || Readable(ts[i].source)
  {
    if ts != [] {
      var last := |ts| - 1;
      TenantBuilds(x, ts[..last]);
      var init := BuildTops(x, ts[..last]);
      if init.Some? { SetBuilds(x, ts[last].source, "", init.value.1); }
    }
  }

  // ---- A built tree holds what the export holds ----

  /** A node of a tree, with its depth and with the conditions it has outside an iterate. */
  datatype Entry =
    | SetEntry(depth: nat, id: string, name: string, domain: string, externalID: string, algorithm: string,
               target: Option<Condition>, passes: Option<string>, fails: string)
    | PolicyEntry(depth: nat, id: string, name: string, algorithm: string, target: Option<Condition>)
    | RuleEntry(depth: nat, id: string, name: string, effect: string, frontend: bool,
                target: Option<Condition>, condition: Option<Condition>)

  function RuleOutline(rs: seq<Rule>, depth: nat): seq<Entry> {
    if rs == [] then [] else
    var r := rs[|rs| - 1];
    RuleOutline(rs[..|rs| - 1], depth)
      + [RuleEntry(depth, r.id, r.name, r.effect, r.frontend, UnboundOption(r.target), UnboundOption(r.condition))]
  }

  function PolicyOutline(ps: seq<Policy>, depth: nat): seq<Entry> {
    if ps == [] then [] else
    var p := ps[|ps| - 1];
    PolicyOutline(ps[..|ps| - 1], depth)
      + ([PolicyEntry(depth, p.id, p.name, p.algorithm, UnboundOption(p.target))] + RuleOutline(p.rules, depth + 1))
  }

  /** The nodes of a set in the order of the tree. */
  function Outline(s: PolicySet, depth: nat): seq<Entry>
    decreases s
  {
    [SetEntry(depth, s.id, s.name, s.domain, s.externalID, s.algorithm, UnboundOption(s.target),
              if s.iterate.Some? then Some(s.iterate.value.algorithm) else None, s.alwaysFails)]
      + (PolicyOutline(s.policies, depth + 1) + Outlines(s.sets, depth + 1))
  }

  function Outlines(ss: seq<PolicySet>, depth: nat): seq<Entry>
    decreases ss
  {
    if ss == [] then [] else Outlines(ss[..|ss| - 1], depth) + Outline(ss[|ss| - 1], depth)
  }

  function ExportRules(x: Syntax, rs: seq<ExportRule>, depth: nat): seq<Entry> {
    if rs == [] then [] else
    var r := rs[|rs| - 1];
    ExportRules(x, rs[..|rs| - 1], depth)
      + [RuleEntry(depth, r.id, r.name, r.effect, r.ruleType == "APPLICABLE_FOR_FRONTEND",
                   BuildCondition(x, r.target, RuleTarget, ""), BuildCondition(x, r.condition, RuleCondition, ""))]
  }

  function ExportPolicies(x: Syntax, ps: seq<ExportPolicy>, depth: nat): seq<Entry> {
    if ps == [] then [] else
    var p := ps[|ps| - 1];
    ExportPolicies(x, ps[..|ps| - 1], depth)
      + ([PolicyEntry(depth, p.id, p.name, p.algorithm, BuildCondition(x, p.target, PolicyTarget, ""))]
         + ExportRules(x, p.rules, depth + 1))
  }

  /** The nodes of an export in the order of its texts, up to a set that always fails. */
  function ExportOutline(x: Syntax, s: ExportSet, depth: nat): seq<Entry>
    decreases s
  {
    var fails := IterateFailure(s.iterate);
    [SetEntry(depth, s.id, s.name, s.domain, s.externalID, s.algorithm, BuildCondition(x, s.target, SetTarget, ""),
              if s.iterate.Some? && fails == "" then Some(s.iterate.value.algorithm) else None, fails)]
      + (if fails == "" then ExportPolicies(x, s.policies, depth + 1) + ExportOutlines(x, s.sets, depth + 1) else [])
  }

  function ExportOutlines(x: Syntax, ss: seq<ExportSet>, depth: nat): seq<Entry>
    decreases ss
  {
    if ss == [] then [] else ExportOutlines(x, ss[..|ss| - 1], depth) + ExportOutline(x, ss[|ss| - 1], depth)
  }

  lemma {:induction false} RulesKept(x: Syntax, rs: seq<ExportRule>, iterVar: string, out: seq<Rule>, depth: nat)
    requires Faithful(x) && BuildRules(x, rs, iterVar) == Some(out)
    ensures RuleOutline(out, depth) == ExportRules(x, rs, depth)
  {
    if rs != [] {
      var n := |rs| - 1;
      assert out[..|out| - 1] == BuildRules(x, rs[..n], iterVar).value;
      RulesKept(x, rs[..n], iterVar, out[..|out| - 1], depth);
      SameOutside(x, rs[n].target, RuleTarget, iterVar);
      SameOutside(x, rs[n].condition, RuleCondition, iterVar);
    }
  }

  lemma {:induction false} PoliciesKept(x: Syntax, ps: seq<ExportPolicy>, iterVar: string, out: seq<Policy>, depth: nat)
    requires Faithful(x) && BuildPolicies(x, ps, iterVar) == Some(out)
    ensures PolicyOutline(out, depth) == ExportPolicies(x, ps, depth)
  {
    if ps != [] {
      var n := |ps| - 1;
      assert out[..|out| - 1] == BuildPolicies(x, ps[..n], iterVar).value;
      PoliciesKept(x, ps[..n], iterVar, out[..|out| - 1], depth);
      RulesKept(x, ps[n].rules, iterVar, out[|out| - 1].rules, depth + 1);
      SameOutside(x, ps[n].target, PolicyTarget, iterVar);
    }
  }

  /** A built set holds every node of the export down to the sets that always fail, in
      order and at its depth; its conditions are those of the texts, but for the variable
      that stands for the permission scope. */
  lemma {:induction false} SetKept(x: Syntax, s: ExportSet, iterVar: string, n: nat, ps: PolicySet, m: nat, depth: nat)
    requires Faithful(x) && BuildSet(x, s, iterVar, n) == Some((ps, m))
    ensures Outline(ps, depth) == ExportOutline(x, s, depth)
    decreases s, 1
  {
    SameOutside(x, s.target, SetTarget, iterVar);
    if IterateFailure(s.iterate) != "" {
      assert PolicyOutline([], depth + 1) == [] && Outlines([], depth + 1) == [];
    } else {
      var inner := if s.iterate.Some? then VarName(n + 1) else iterVar;
      PoliciesKept(x, s.policies, inner, ps.policies, depth + 1);
      SetsKept(x, s.sets, inner, if s.iterate.Some? then n + 1 else n, ps.sets, m, depth + 1);
    }
  }

  lemma {:induction false} SetsKept(x: Syntax, ss: seq<ExportSet>, iterVar: string, n: nat, out: seq<PolicySet>, m: nat, depth: nat)
    requires Faithful(x) && BuildSets(x, ss, iterVar, n) == Some((out, m))
    ensures Outlines(out, depth) == ExportOutlines(x, ss, depth)
    decreases ss
  {
    if ss != [] {
      var last := |ss| - 1;
      var (init, k) := BuildSets(x, ss[..last], iterVar, n).value;
      SetsKept(x, ss[..last], iterVar, n, init, k, depth);
      SetKept(x, ss[last], iterVar, k, out[|out| - 1], m, depth);
      assert out[..|out| - 1] == init;
    }
  }
}
