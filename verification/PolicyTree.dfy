/** The policy tree of a tenant and the checker that admits it.

    `Checker` walks the tree with the set of variables seen and the set of variables
    bound around the node; it is proved to accept exactly the trees that are well
    scoped by a definition without either set of state. */
module PolicyTrees {
  import opened Sequences
  import opened PolicyConditions

  const ALGORITHMS := ["", "DENY_OVERRIDES", "PERMIT_OVERRIDES", "DENY_UNLESS_PERMIT", "PERMIT_UNLESS_DENY"]
  const EFFECTS := ["", "ALLOW", "DENY", "NOT_APPLICABLE", "USE_FILTER_CONDITION"]

  datatype Rule = Rule(id: string, name: string, effect: string, frontend: bool,
                       target: Option<Condition>, condition: Option<Condition>)

  datatype Policy = Policy(id: string, name: string, algorithm: string, target: Option<Condition>, rules: seq<Rule>)

  datatype Iterate = Iterate(var_: string, algorithm: string)

  datatype PolicySet = PolicySet(id: string, name: string, domain: string, externalID: string, algorithm: string,
                                 target: Option<Condition>, iterate: Option<Iterate>, alwaysFails: string,
                                 isolated: string, policies: seq<Policy>, sets: seq<PolicySet>)
  {
    predicate IsLeaf() { iterate.None? && policies == [] && sets == [] }
  }

  // ---- Well-scoped trees ----

  predicate OperandOk(o: Operand, bound: set<string>) {
    && (o.PassValue? ==> o.var_ in bound)
    && (o.Subject? && o.attr == "permissionScope" ==> bound == {})
  }

  predicate AtomOk(a: Atom, bound: set<string>) {
    a.Compare? ==> OperandOk(a.left, bound) && (a.right.Some? ==> OperandOk(a.right.value, bound))
  }

  predicate ConjOk(atoms: seq<Atom>, bound: set<string>) {
    forall j :: 0 <= j < |atoms| ==> AtomOk(atoms[j], bound)
  }

  /** A condition reads the variables bound around it, and the permission scope only
      where none is bound. */
  predicate ConditionOk(x: Syntax, c: Option<Condition>, place: Place, bound: set<string>) {
    c.Some? ==>
      && ValidCondition(x, c.value) && c.value.place == place
      && forall i :: 0 <= i < |c.value.disjuncts| ==> ConjOk(c.value.disjuncts[i], bound)
  }

  predicate RuleOk(x: Syntax, r: Rule, bound: set<string>) {
    r.effect in EFFECTS && ConditionOk(x, r.target, RuleTarget, bound) && ConditionOk(x, r.condition, RuleCondition, bound)
  }

  predicate PolicyOk(x: Syntax, p: Policy, bound: set<string>) {
    && p.algorithm in ALGORITHMS && ConditionOk(x, p.target, PolicyTarget, bound)
    && forall i :: 0 <= i < |p.rules| ==> RuleOk(x, p.rules[i], bound)
  }

  predicate PoliciesOk(x: Syntax, ps: seq<Policy>, bound: set<string>) {
    forall i :: 0 <= i < |ps| ==> PolicyOk(x, ps[i], bound)
  }

  /** What a set itself must hold, its children aside. */
  predicate NodeOk(x: Syntax, s: PolicySet, bound: set<string>) {
    && s.algorithm in ALGORITHMS
    && (s.alwaysFails != "" ==> s.IsLeaf())
    && (s.isolated != "" ==> s.alwaysFails == "" && s.IsLeaf())
    && ConditionOk(x, s.target, SetTarget, bound)
    && (s.iterate.Some? ==>
        s.iterate.value.var_ != "" && s.iterate.value.algorithm != "" && s.iterate.value.algorithm in ALGORITHMS)
  }

  function Inside(s: PolicySet, bound: set<string>): set<string> {
    if s.iterate.Some? then bound + {s.iterate.value.var_} else bound
  }

  predicate SetOk(x: Syntax, s: PolicySet, bound: set<string>)
    decreases s
  {
    && NodeOk(x, s, bound)
    && PoliciesOk(x, s.policies, Inside(s, bound))
    && SetsOk(x, s.sets, Inside(s, bound))
  }

  predicate SetsOk(x: Syntax, ss: seq<PolicySet>, bound: set<string>)
    decreases ss
  {
    forall i :: 0 <= i < |ss| ==> SetOk(x, ss[i], bound)
  }

  /** The iterate variables of a set and of the sets in it, in the order of the tree. */
  function Vars(s: PolicySet): seq<string>
    decreases s
  {
    (if s.iterate.Some? then [s.iterate.value.var_] else []) + VarsOf(s.sets)
  }

  function VarsOf(ss: seq<PolicySet>): seq<string>
    decreases ss
  {
    if ss == [] then [] else VarsOf(ss[..|ss| - 1]) + Vars(ss[|ss| - 1])
  }

  /** No name is repeated, and none is taken. */
  predicate Fresh(names: seq<string>, taken: set<string>) {
    && (forall i :: 0 <= i < |names| ==> names[i] !in taken)
    && forall i, j :: 0 <= i < j < |names| ==> names[i] != names[j]
  }

  function Names(names: seq<string>): set<string> { set n | n in names }

  predicate TreeOk(x: Syntax, simplified: seq<Option<Condition>>, sets: seq<PolicySet>) {
    && (forall i :: 0 <= i < |simplified| ==> ConditionOk(x, simplified[i], Simplified, {}))
    && SetsOk(x, sets, {})
    && Fresh(VarsOf(sets), {})
  }

  lemma FreshConcat(a: seq<string>, b: seq<string>, taken: set<string>)
    ensures Fresh(a + b, taken) <==> Fresh(a, taken) && Fresh(b, taken + Names(a))
    ensures Names(a + b) == Names(a) + Names(b)
  {
    var c := a + b;
    if Fresh(c, taken) {
      assert forall i :: 0 <= i < |a| ==> c[i] == a[i];
      assert forall i :: 0 <= i < |b| ==> c[|a| + i] == b[i];
    }
    if Fresh(a, taken) && Fresh(b, taken + Names(a)) {
      forall i, j | 0 <= i < j < |c| ensures c[i] != c[j] {
        if i < |a| <= j { assert c[i] in a && c[j] == b[j - |a|]; }
      }
    }
  }

  // ---- The checker ----

  class Checker {
    const x: Syntax
    var vars: set<string>
    var bound: set<string>

    constructor (x: Syntax)
      ensures this.x == x && vars == {} && bound == {}
    {
      this.x := x;
      vars, bound := {}, {};
    }

    method CheckCondition(c: Option<Condition>, place: Place) returns (ok: bool)
      ensures ok == ConditionOk(x, c, place, bound)
    {
      if c.None? { return true; }
      var cond := c.value;
      if !ValidCondition(x, cond) || cond.place != place { return false; }
      for i := 0 to |cond.disjuncts|
        invariant forall k :: 0 <= k < i ==> ConjOk(cond.disjuncts[k], bound)
      {
        var d := cond.disjuncts[i];
        for j := 0 to |d|
          invariant forall k :: 0 <= k < j ==> AtomOk(d[k], bound)
        {
          if d[j].Compare? {
            var left := CheckOperand(d[j].left);
            if !left { return false; }
            if d[j].right.Some? {
              var right := CheckOperand(d[j].right.value);
              if !right { return false; }
            }
          }
        }
      }
      return true;
    }

    method CheckOperand(o: Operand) returns (ok: bool)
      ensures ok == OperandOk(o, bound)
    {
      if o.PassValue? && o.var_ !in bound { return false; }
      if o.Subject? && o.attr == "permissionScope" && |bound| > 0 { return false; }
      assert |bound| == 0 ==> bound == {};
      return true;
    }

    method CheckPolicy(p: Policy) returns (ok: bool)
      ensures ok == PolicyOk(x, p, bound)
    {
      if p.algorithm !in ALGORITHMS { return false; }
      ok := CheckCondition(p.target, PolicyTarget);
      if !ok { return; }
      for i := 0 to |p.rules|
        invariant forall k :: 0 <= k < i ==> RuleOk(x, p.rules[k], bound)
      {
        if p.rules[i].effect !in EFFECTS { return false; }
        ok := CheckCondition(p.rules[i].target, RuleTarget);
        if !ok { return; }
        ok := CheckCondition(p.rules[i].condition, RuleCondition);
        if !ok { return; }
      }
      return true;
    }

    /** Whatever the verdict, the variables bound around the set are bound again after it. */
    method CheckSet(s: PolicySet) returns (ok: bool)
      requires bound <= vars
      modifies this
      ensures bound == old(bound) <= vars
      ensures ok <==> SetOk(x, s, bound) && Fresh(Vars(s), old(vars))
      ensures ok ==> vars == old(vars) + Names(Vars(s))
      decreases s, 1
    {
      ok := CheckNode(s);
      if !ok { return; }
      ghost var own: seq<string> := if s.iterate.Some? then [s.iterate.value.var_] else [];
      FreshConcat(own, VarsOf(s.sets), vars);
      if s.iterate.None? {
        ok := CheckChildren(s);
        return;
      }
      var v := s.iterate.value.var_;
      if v in vars {
        assert own[0] in vars;
        return false;
      }
      assert Fresh(own, vars) && Names(own) == {v};
      vars, bound := vars + {v}, bound + {v};
      ok := CheckChildren(s);
      bound := bound - {v};
    }

    method CheckNode(s: PolicySet) returns (ok: bool)
      ensures ok == NodeOk(x, s, bound)
    {
      if s.algorithm !in ALGORITHMS { return false; }
      if s.alwaysFails != "" && (s.iterate.Some? || |s.policies| > 0 || |s.sets| > 0) { return false; }
      if s.isolated != "" && (s.alwaysFails != "" || s.iterate.Some? || |s.policies| > 0 || |s.sets| > 0) { return false; }
      ok := CheckCondition(s.target, SetTarget);
      if !ok { return; }
      if s.iterate.Some? {
        if s.iterate.value.var_ == "" { return false; }
        if s.iterate.value.algorithm == "" || s.iterate.value.algorithm !in ALGORITHMS { return false; }
      }
    }

    method CheckChildren(s: PolicySet) returns (ok: bool)
      requires bound <= vars
      modifies this
      ensures bound == old(bound) <= vars
      ensures ok <==>
        PoliciesOk(x, s.policies, bound) && SetsOk(x, s.sets, bound) && Fresh(VarsOf(s.sets), old(vars))
      ensures ok ==> vars == old(vars) + Names(VarsOf(s.sets))
      decreases s, 0
    {
      for i := 0 to |s.policies|
        invariant bound == old(bound) && vars == old(vars)
        invariant forall k :: 0 <= k < i ==> PolicyOk(x, s.policies[k], bound)
      {
        ok := CheckPolicy(s.policies[i]);
        if !ok { return; }
      }
      ok := CheckSets(s.sets);
    }

    method CheckSets(ss: seq<PolicySet>) returns (ok: bool)
      requires bound <= vars
      modifies this
      ensures bound == old(bound) <= vars
      ensures ok <==> SetsOk(x, ss, bound) && Fresh(VarsOf(ss), old(vars))
      ensures ok ==> vars == old(vars) + Names(VarsOf(ss))
      decreases ss
    {
      for i := 0 to |ss|
        invariant bound == old(bound) <= vars
        invariant Checked(x, ss, i, bound, old(vars), vars)
      {
        ghost var before := vars;
        ok := CheckSet(ss[i]);
        if !ok {
          CheckedFails(x, ss, i, bound, old(vars), before);
          return;
        }
        CheckedMore(x, ss, i, bound, old(vars), before, vars);
      }
      assert ss[..|ss|] == ss;
      return true;
    }

    method CheckTree(simplified: seq<Option<Condition>>, sets: seq<PolicySet>) returns (ok: bool)
      requires bound == vars == {}
      modifies this
      ensures ok == TreeOk(x, simplified, sets)
    {
      for i := 0 to |simplified|
        invariant bound == vars == {}
        invariant forall k :: 0 <= k < i ==> ConditionOk(x, simplified[k], Simplified, {})
      {
        ok := CheckCondition(simplified[i], Simplified);
        if !ok { return; }
      }
      ok := CheckSets(sets);
    }
  }

  /** The first `i` sets pass, and their variables are those added to `taken`. */
  ghost predicate Checked(x: Syntax, ss: seq<PolicySet>, i: nat, bound: set<string>, taken: set<string>, vars: set<string>)
    requires i <= |ss|
  {
    && (forall k :: 0 <= k < i ==> SetOk(x, ss[k], bound))
    && Fresh(VarsOf(ss[..i]), taken) && vars == taken + Names(VarsOf(ss[..i]))
  }

  lemma CheckedMore(x: Syntax, ss: seq<PolicySet>, i: nat, bound: set<string>, taken: set<string>, vars: set<string>, after: set<string>)
    requires i < |ss| && Checked(x, ss, i, bound, taken, vars)
    requires SetOk(x, ss[i], bound) && Fresh(Vars(ss[i]), vars) && after == vars + Names(Vars(ss[i]))
    ensures Checked(x, ss, i + 1, bound, taken, after)
  {
    StepVars(ss, i, taken);
  }

  lemma CheckedFails(x: Syntax, ss: seq<PolicySet>, i: nat, bound: set<string>, taken: set<string>, vars: set<string>)
    requires i < |ss| && Checked(x, ss, i, bound, taken, vars)
    requires !(SetOk(x, ss[i], bound) && Fresh(Vars(ss[i]), vars))
    ensures !(SetsOk(x, ss, bound) && Fresh(VarsOf(ss), taken))
  {
    StepVars(ss, i, taken);
    FreshPrefix(ss, i + 1, taken);
  }

  lemma StepVars(ss: seq<PolicySet>, i: nat, taken: set<string>)
    requires i < |ss|
    ensures VarsOf(ss[..i + 1]) == VarsOf(ss[..i]) + Vars(ss[i])
    ensures Fresh(VarsOf(ss[..i + 1]), taken) <==>
            Fresh(VarsOf(ss[..i]), taken) && Fresh(Vars(ss[i]), taken + Names(VarsOf(ss[..i])))
    ensures Names(VarsOf(ss[..i + 1])) == Names(VarsOf(ss[..i])) + Names(Vars(ss[i]))
  {
    assert ss[..i + 1][..i] == ss[..i];
    FreshConcat(VarsOf(ss[..i]), Vars(ss[i]), taken);
  }

  lemma {:induction false} FreshPrefix(ss: seq<PolicySet>, i: nat, taken: set<string>)
    requires i <= |ss|
    ensures Fresh(VarsOf(ss), taken) ==> Fresh(VarsOf(ss[..i]), taken)
    decreases |ss|
  {
    if i == |ss| {
      assert ss[..i] == ss;
    } else {
      var n := |ss| - 1;
      FreshConcat(VarsOf(ss[..n]), Vars(ss[n]), taken);
      FreshPrefix(ss[..n], i, taken);
      assert ss[..n][..i] == ss[..i];
    }
  }
}
