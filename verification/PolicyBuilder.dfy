/** Building a tenant's policy sets from an export, and what every build gives: a tree
    the checker admits, whose iterate variables number its iterates in tree order, and
    which holds what the export holds. */
module PolicyBuilders {
  import opened Sequences
  import opened Numerals
  import opened PolicyConditions
  import opened PolicyTrees

  datatype ExportRule = ExportRule(id: string, name: string, ruleType: string, target: Option<string>,
                                   condition: Option<string>, effect: string)

  datatype ExportPolicy = ExportPolicy(id: string, name: string, target: Option<string>, algorithm: string,
                                       rules: seq<ExportRule>)

  datatype ExportIterate = ExportIterate(foreach: string, algorithm: string)

  datatype ExportSet = ExportSet(id: string, name: string, domain: string, externalID: string, target: Option<string>,
                                 algorithm: string, iterate: Option<ExportIterate>, policies: seq<ExportPolicy>,
                                 sets: seq<ExportSet>)

  /** A top-level set of the tenant, with the reason it is isolated or "". */
  datatype TopSet = TopSet(source: ExportSet, isolated: string)

  // ---- What a build gives ----

  function BuildRule(x: Syntax, r: ExportRule, iterVar: string): Option<Rule> {
    if r.effect !in EFFECTS then None
    else Some(Rule(r.id, r.name, r.effect, r.ruleType == "APPLICABLE_FOR_FRONTEND",
                   BuildCondition(x, r.target, RuleTarget, iterVar),
                   BuildCondition(x, r.condition, RuleCondition, iterVar)))
  }

  function BuildRules(x: Syntax, rs: seq<ExportRule>, iterVar: string): Option<seq<Rule>> {
    if rs == [] then Some([]) else
    match BuildRules(x, rs[..|rs| - 1], iterVar)
    case None => None
    case Some(init) =>
      match BuildRule(x, rs[|rs| - 1], iterVar)
      case None => None
      case Some(r) => Some(init + [r])
  }

  function BuildPolicy(x: Syntax, p: ExportPolicy, iterVar: string): Option<Policy> {
    if p.algorithm !in ALGORITHMS then None else
    match BuildRules(x, p.rules, iterVar)
    case None => None
    case Some(rules) => Some(Policy(p.id, p.name, p.algorithm, BuildCondition(x, p.target, PolicyTarget, iterVar), rules))
  }

  function BuildPolicies(x: Syntax, ps: seq<ExportPolicy>, iterVar: string): Option<seq<Policy>> {
    if ps == [] then Some([]) else
    match BuildPolicies(x, ps[..|ps| - 1], iterVar)
    case None => None
    case Some(init) =>
      match BuildPolicy(x, ps[|ps| - 1], iterVar)
      case None => None
      case Some(p) => Some(init + [p])
  }

  /** The reason the legacy service never evaluates a set with this iterate, or "". */
  function IterateFailure(it: Option<ExportIterate>): string {
    if it.None? then ""
    else if it.value.foreach != "subject.permissionScope" then "iterate foreach " + it.value.foreach
    else if it.value.algorithm == "" then "iterate without a combiningAlgorithm"
    else if it.value.algorithm !in ALGORITHMS then "iterate combiningAlgorithm " + it.value.algorithm + " unknown"
    else ""
  }

  function VarName(n: nat): string { "iterate" + FormatInt(n) }

  function Bare(x: Syntax, s: ExportSet, algorithm: string, iterVar: string): PolicySet {
    PolicySet(s.id, s.name, s.domain, s.externalID, algorithm, BuildCondition(x, s.target, SetTarget, iterVar), None, "", "", [], [])
  }

  /** The set built when `n` iterates have been numbered, and how many have been then. */
  function BuildSet(x: Syntax, s: ExportSet, iterVar: string, n: nat): Option<(PolicySet, nat)>
    decreases s
  {
    if s.algorithm !in ALGORITHMS then None else
    var bare := Bare(x, s, s.algorithm, iterVar);
    var fails := IterateFailure(s.iterate);
    if fails != "" then Some((bare.(alwaysFails := fails), n))
    else if s.iterate.None? then BuildChildren(x, s, bare, iterVar, n)
    else
      var v := VarName(n + 1);
      BuildChildren(x, s, bare.(iterate := Some(Iterate(v, s.iterate.value.algorithm))), v, n + 1)
  }

  function BuildChildren(x: Syntax, s: ExportSet, node: PolicySet, inner: string, n: nat): Option<(PolicySet, nat)>
    decreases s, 0
  {
    match BuildPolicies(x, s.policies, inner)
    case None => None
    case Some(ps) =>
      match BuildSets(x, s.sets, inner, n)
      case None => None
      case Some((ss, m)) => Some((node.(policies := ps, sets := ss), m))
  }

  function BuildSets(x: Syntax, ss: seq<ExportSet>, iterVar: string, n: nat): Option<(seq<PolicySet>, nat)>
    decreases ss
  {
    if ss == [] then Some(([], n)) else
    match BuildSets(x, ss[..|ss| - 1], iterVar, n)
    case None => None
    case Some((init, m)) =>
      match BuildSet(x, ss[|ss| - 1], iterVar, m)
      case None => None
      case Some((last, k)) => Some((init + [last], k))
  }

  function BuildTop(x: Syntax, t: TopSet, n: nat): Option<(PolicySet, nat)> {
    if t.isolated != "" then Some((Bare(x, t.source, "", "").(isolated := t.isolated), n))
    else BuildSet(x, t.source, "", n)
  }

  function BuildTops(x: Syntax, ts: seq<TopSet>): Option<(seq<PolicySet>, nat)> {
    if ts == [] then Some(([], 0)) else
    match BuildTops(x, ts[..|ts| - 1])
    case None => None
    case Some((init, m)) =>
      match BuildTop(x, ts[|ts| - 1], m)
      case None => None
      case Some((last, k)) => Some((init + [last], k))
  }

  function SimplifiedConditions(x: Syntax, texts: seq<Option<string>>): (r: seq<Option<Condition>>)
    ensures |r| == |texts| && forall i :: 0 <= i < |r| ==> r[i] == BuildCondition(x, texts[i], Simplified, "")
  {
    seq(|texts|, i requires 0 <= i < |texts| => BuildCondition(x, texts[i], Simplified, ""))
  }

  // ---- The builder ----

  /** Builds the sets of one tenant; `vars` counts the iterates numbered so far. */
  class SetBuilder {
    const x: Syntax
    var vars: nat

    constructor (x: Syntax)
      ensures this.x == x && vars == 0
    {
      this.x := x;
      vars := 0;
    }

    method Policy(p: ExportPolicy, iterVar: string) returns (r: Option<Policy>)
      ensures r == BuildPolicy(x, p, iterVar)
    {
      if p.algorithm !in ALGORITHMS { return None; }
      var rules: seq<Rule> := [];
      for i := 0 to |p.rules|
        invariant BuildRules(x, p.rules[..i], iterVar) == Some(rules)
      {
        RulesSnoc(x, p.rules, i, iterVar);
        var e := p.rules[i];
        if e.effect !in EFFECTS { return None; }
        rules := rules + [Rule(e.id, e.name, e.effect, e.ruleType == "APPLICABLE_FOR_FRONTEND",
                               BuildCondition(x, e.target, RuleTarget, iterVar),
                               BuildCondition(x, e.condition, RuleCondition, iterVar))];
      }
      assert p.rules[..|p.rules|] == p.rules;
      return Some(PolicyTrees.Policy(p.id, p.name, p.algorithm, BuildCondition(x, p.target, PolicyTarget, iterVar), rules));
    }

    method Policies(ps: seq<ExportPolicy>, iterVar: string) returns (r: Option<seq<PolicyTrees.Policy>>)
      ensures r == BuildPolicies(x, ps, iterVar)
    {
      var out: seq<PolicyTrees.Policy> := [];
      for i := 0 to |ps|
        invariant BuildPolicies(x, ps[..i], iterVar) == Some(out)
      {
        assert ps[..i + 1][..i] == ps[..i];
        var p := Policy(ps[i], iterVar);
        if p.None? {
          PoliciesFail(x, ps, i + 1, iterVar);
          return None;
        }
        out := out + [p.value];
      }
      assert ps[..|ps|] == ps;
      return Some(out);
    }

    method Set(s: ExportSet, iterVar: string) returns (r: Option<PolicySet>)
      modifies this
      ensures var b := BuildSet(x, s, iterVar, old(vars));
              if b.None? then r.None? else r == Some(b.value.0) && vars == b.value.1
      decreases s, 1
    {
      if s.algorithm !in ALGORITHMS { return None; }
      var ps := Bare(x, s, s.algorithm, iterVar);
      var inner := iterVar;
      if s.iterate.Some? {
        var fails := IterateFailure(s.iterate);
        if fails != "" { return Some(ps.(alwaysFails := fails)); }
        vars := vars + 1;
        inner := VarName(vars);
        ps := ps.(iterate := Some(Iterate(inner, s.iterate.value.algorithm)));
      }
      var policies := Policies(s.policies, inner);
      if policies.None? { return None; }
      var sets := Sets(s.sets, inner);
      if sets.None? { return None; }
      return Some(ps.(policies := policies.value, sets := sets.value));
    }

    method Sets(ss: seq<ExportSet>, iterVar: string) returns (r: Option<seq<PolicySet>>)
      modifies this
      ensures var b := BuildSets(x, ss, iterVar, old(vars));
              if b.None? then r.None? else r == Some(b.value.0) && vars == b.value.1
      decreases ss
    {
      var out: seq<PolicySet> := [];
      for i := 0 to |ss|
        invariant BuildSets(x, ss[..i], iterVar, old(vars)) == Some((out, vars))
      {
        assert ss[..i + 1][..i] == ss[..i];
        var k := Set(ss[i], iterVar);
        if k.None? {
          SetsFail(x, ss, i + 1, iterVar, old(vars));
          return None;
        }
        out := out + [k.value];
      }
      assert ss[..|ss|] == ss;
      return Some(out);
    }

    /** The sets of the tenant, or none when one of them cannot be read. */
    method Tenant(ts: seq<TopSet>) returns (r: Option<seq<PolicySet>>)
      requires vars == 0
      modifies this
      ensures var b := BuildTops(x, ts);
              if b.None? then r.None? else r == Some(b.value.0) && vars == b.value.1
    {
      var out: seq<PolicySet> := [];
      for i := 0 to |ts|
        invariant BuildTops(x, ts[..i]) == Some((out, vars))
      {
        assert ts[..i + 1][..i] == ts[..i];
        var s := ts[i].source;
        if ts[i].isolated != "" {
          out := out + [Bare(x, s, "", "").(isolated := ts[i].isolated)];
        } else {
          var ps := Set(s, "");
          if ps.None? {
            TopsFail(x, ts, i + 1);
            return None;
          }
          out := out + [ps.value];
        }
      }
      assert ts[..|ts|] == ts;
      return Some(out);
    }
  }

  lemma RulesSnoc(x: Syntax, rs: seq<ExportRule>, i: nat, iterVar: string)
    requires i < |rs| && BuildRules(x, rs[..i], iterVar).Some?
    ensures var r := BuildRule(x, rs[i], iterVar);
      if r.Some? then BuildRules(x, rs[..i + 1], iterVar) == Some(BuildRules(x, rs[..i], iterVar).value + [r.value])
      else BuildRules(x, rs, iterVar).None?
  {
    assert rs[..i + 1][..i] == rs[..i];
    if BuildRule(x, rs[i], iterVar).None? { RulesFail(x, rs, i + 1, iterVar); }
  }

  // A build that fails on a prefix fails.

  lemma {:induction false} RulesFail(x: Syntax, rs: seq<ExportRule>, i: nat, iterVar: string)
    requires i <= |rs| && BuildRules(x, rs[..i], iterVar).None?
    ensures BuildRules(x, rs, iterVar).None?
    decreases |rs|
  {
    if i < |rs| {
      assert rs[..|rs| - 1][..i] == rs[..i];
      RulesFail(x, rs[..|rs| - 1], i, iterVar);
    } else {
      assert rs[..i] == rs;
    }
  }

  lemma {:induction false} PoliciesFail(x: Syntax, ps: seq<ExportPolicy>, i: nat, iterVar: string)
    requires i <= |ps| && BuildPolicies(x, ps[..i], iterVar).None?
    ensures BuildPolicies(x, ps, iterVar).None?
    decreases |ps|
  {
    if i < |ps| {
      assert ps[..|ps| - 1][..i] == ps[..i];
      PoliciesFail(x, ps[..|ps| - 1], i, iterVar);
    } else {
      assert ps[..i] == ps;
    }
  }

  lemma {:induction false} SetsFail(x: Syntax, ss: seq<ExportSet>, i: nat, iterVar: string, n: nat)
    requires i <= |ss| && BuildSets(x, ss[..i], iterVar, n).None?
    ensures BuildSets(x, ss, iterVar, n).None?
    decreases |ss|
  {
    if i < |ss| {
      assert ss[..|ss| - 1][..i] == ss[..i];
      SetsFail(x, ss[..|ss| - 1], i, iterVar, n);
    } else {
      assert ss[..i] == ss;
    }
  }

  lemma {:induction false} TopsFail(x: Syntax, ts: seq<TopSet>, i: nat)
    requires i <= |ts| && BuildTops(x, ts[..i]).None?
    ensures BuildTops(x, ts).None?
    decreases |ts|
  {
    if i < |ts| {
      assert ts[..|ts| - 1][..i] == ts[..i];
      TopsFail(x, ts[..|ts| - 1], i);
    } else {
      assert ts[..i] == ts;
    }
  }
}
