/** Which policy information points a request needs: those whose alias, or name, the rules
    of its operation read. */
module Activations {
  import opened Sequences
  import opened TextOrder
  import opened JsonValues
  import opened Targets
  import opened Normalizations
  import opened PolicyNormalizations

  // ---- Aliases ----

  const PREFIX := "subject."

  function ShortName(name: string): string { if PREFIX <= name then name[|PREFIX|..] else name }

  /** The point is known by this text: its alias, or its name without the prefix. */
  predicate KnownAs(pips: map<string, string>, a: string, name: string) {
    name in pips && (a == pips[name] || a == ShortName(name))
  }

  /** No text stands for two points. */
  ghost predicate Unique(pips: map<string, string>) {
    forall a, m, n :: KnownAs(pips, a, m) && KnownAs(pips, a, n) ==> m == n
  }

  /** The points by the texts they are known by; `pips` maps a name to its alias.  The
      points are read in any order, and of two known by one text either may win. */
  method AliasIndex(pips: map<string, string>) returns (index: map<string, string>)
    ensures IsAliasIndex(pips, index)
  {
    index := map[];
    var left := pips.Keys;
    while left != {}
      invariant left <= pips.Keys && PartIndex(pips, left, index)
      decreases left
    {
      var name :| name in left;
      IndexStep(pips, left, index, name);
      left := left - {name};
      index := index[pips[name] := name];
      index := index[ShortName(name) := name];
    }
    IndexWhole(pips, index);
  }

  predicate IsKnown(pips: map<string, string>, a: string) { exists name :: name in pips && KnownAs(pips, a, name) }

  ghost predicate IsAliasIndex(pips: map<string, string>, index: map<string, string>) {
    forall a :: (a in index <==> IsKnown(pips, a)) && (a in index ==> KnownAs(pips, a, index[a]))
  }

  /** The index of the points already read. */
  ghost predicate PartIndex(pips: map<string, string>, left: set<string>, index: map<string, string>) {
    && (forall a :: a in index ==> KnownAs(pips, a, index[a]))
    && forall name :: name in pips && name !in left ==> pips[name] in index && ShortName(name) in index
  }

  lemma IndexStep(pips: map<string, string>, left: set<string>, index: map<string, string>, name: string)
    requires name in pips && PartIndex(pips, left, index)
    ensures PartIndex(pips, left - {name}, index[pips[name] := name][ShortName(name) := name])
  {
    assert KnownAs(pips, pips[name], name) && KnownAs(pips, ShortName(name), name);
  }

  lemma IndexWhole(pips: map<string, string>, index: map<string, string>)
    requires PartIndex(pips, {}, index)
    ensures IsAliasIndex(pips, index)
  {
  }

  /** Where no text stands for two points, the index is one. */
  lemma AliasIndexUnique(pips: map<string, string>, i: map<string, string>, j: map<string, string>)
    requires Unique(pips) && IsAliasIndex(pips, i) && IsAliasIndex(pips, j)
    ensures i == j
  {
    assert i.Keys == j.Keys;
    forall a | a in i ensures i[a] == j[a] { assert KnownAs(pips, a, i[a]) && KnownAs(pips, a, j[a]); }
  }

  /** The empty text stands for no point exactly when no alias and no short name is empty. */
  lemma NoEmptyAlias(pips: map<string, string>, index: map<string, string>)
    requires IsAliasIndex(pips, index)
    ensures "" !in index <==> forall name :: name in pips ==> pips[name] != "" && name != "" && name != PREFIX
  {
    if "" !in index {
      forall name | name in pips ensures pips[name] != "" && name != "" && name != PREFIX { assert !KnownAs(pips, "", name); }
    } else {
      var name :| name in pips && KnownAs(pips, "", name);
    }
  }

  // ---- Activated points ----

  type Index = map<string, map<string, seq<string>>>

  /** The points known by one of these texts. */
  function Image(aliases: map<string, string>, refs: set<string>): set<string> {
    set a | a in refs && a in aliases :: aliases[a]
  }

  ghost predicate Activates(x: Texts, byRole: map<string, seq<Rule>>, aliases: map<string, string>, name: string) {
    exists a :: a in aliases && aliases[a] == name && Reads(x, byRole, a)
  }

  method ScanAst(x: Texts, v: Value, aliases: map<string, string>, before: set<string>) returns (seen: set<string>)
    ensures seen == before + Image(aliases, AstRefs(x, v))
    decreases v, 0
  {
    seen := before;
    if !v.Object? { return; }
    seen := seen + Image(aliases, RefOf(x, v.members));
    var args := Get(v.members, "args");
    if args.Some? && args.value.List? {
      ImageUnion(aliases, RefOf(x, v.members), ArgRefs(x, args.value.elems));
      seen := ScanArgs(x, args.value.elems, aliases, seen);
    }
  }

  method ScanArgs(x: Texts, vs: seq<Value>, aliases: map<string, string>, before: set<string>) returns (seen: set<string>)
    ensures seen == before + Image(aliases, ArgRefs(x, vs))
    decreases vs
  {
    seen := before;
    for i := 0 to |vs|
      invariant seen == before + Image(aliases, ArgRefs(x, vs[..i]))
    {
      assert vs[..i + 1][..i] == vs[..i];
      ImageUnion(aliases, ArgRefs(x, vs[..i]), AstRefs(x, vs[i]));
      seen := ScanAst(x, vs[i], aliases, seen);
    }
    assert vs[..|vs|] == vs;
  }

  lemma ImageUnion(aliases: map<string, string>, a: set<string>, b: set<string>)
    ensures Image(aliases, a + b) == Image(aliases, a) + Image(aliases, b)
  {
  }

  method ScanPredicate(x: Texts, text: string, aliases: map<string, string>, before: set<string>) returns (seen: set<string>)
    ensures seen == before + Image(aliases, TextRefs(x, text))
  {
    seen := before;
    var found := x.placeholders(text);
    for i := 0 to |found|
      invariant seen == before + Image(aliases, set r | r in found[..i])
    {
      assert found[..i + 1] == found[..i] + [found[i]];
      if found[i] in aliases { seen := seen + {aliases[found[i]]}; }
    }
    assert found[..|found|] == found;
  }

  method ScanRule(x: Texts, r: Rule, aliases: map<string, string>, before: set<string>) returns (seen: set<string>)
    ensures seen == before + Image(aliases, RuleRefs(x, r))
  {
    seen := before;
    if r.condition.Ast? {
      ImageUnion(aliases, AstRefs(x, r.condition.node), PredicateRefs(x, r.predicates));
      seen := ScanAst(x, r.condition.node, aliases, seen);
    }
    seen := ScanPredicates(x, r.predicates, aliases, seen);
  }

  method ScanPredicates(x: Texts, ps: seq<Predicate>, aliases: map<string, string>, before: set<string>) returns (seen: set<string>)
    ensures seen == before + Image(aliases, PredicateRefs(x, ps))
  {
    seen := before;
    for j := 0 to |ps|
      invariant seen == before + Image(aliases, PredicateRefs(x, ps[..j]))
    {
      assert ps[..j + 1][..j] == ps[..j];
      ImageUnion(aliases, PredicateRefs(x, ps[..j]), TextRefs(x, ps[j].text));
      seen := ScanPredicate(x, ps[j].text, aliases, seen);
    }
    assert ps[..|ps|] == ps;
  }

  method ScanRules(x: Texts, rs: seq<Rule>, aliases: map<string, string>, before: set<string>) returns (seen: set<string>)
    ensures seen == before + Image(aliases, RulesRefs(x, rs))
  {
    seen := before;
    for i := 0 to |rs|
      invariant seen == before + Image(aliases, RulesRefs(x, rs[..i]))
    {
      assert rs[..i + 1][..i] == rs[..i];
      ImageUnion(aliases, RulesRefs(x, rs[..i]), RuleRefs(x, rs[i]));
      seen := ScanRule(x, rs[i], aliases, seen);
    }
    assert rs[..|rs|] == rs;
  }

  /** The points an operation activates, in any order. */
  method CollectPIPs(x: Texts, byRole: map<string, seq<Rule>>, aliases: map<string, string>) returns (names: seq<string>)
    ensures Distinct(names) && forall n :: n in names <==> Activates(x, byRole, aliases, n)
  {
    var seen: set<string> := {};
    var left := byRole.Keys;
    while left != {}
      invariant left <= byRole.Keys
      invariant forall n :: n in seen <==> SeenIn(x, byRole, left, aliases, n)
      decreases left
    {
      var role :| role in left;
      seen := ScanRules(x, byRole[role], aliases, seen);
      forall n ensures n in seen <==> SeenIn(x, byRole, left - {role}, aliases, n) { SeenStep(x, byRole, left, role, aliases, n); }
      left := left - {role};
    }
    names := ListSet(seen);
    forall n ensures n in names <==> Activates(x, byRole, aliases, n) { SeenAll(x, byRole, aliases, n); }
  }

  /** The point is activated by a rule of a role already read. */
  ghost predicate SeenIn(x: Texts, byRole: map<string, seq<Rule>>, left: set<string>, aliases: map<string, string>, n: string) {
    exists role :: role in byRole && role !in left && n in Image(aliases, RulesRefs(x, byRole[role]))
  }

  lemma SeenStep(x: Texts, byRole: map<string, seq<Rule>>, left: set<string>, role: string, aliases: map<string, string>, n: string)
    requires role in left && left <= byRole.Keys
    ensures SeenIn(x, byRole, left - {role}, aliases, n)
       <==> SeenIn(x, byRole, left, aliases, n) || n in Image(aliases, RulesRefs(x, byRole[role]))
  {
    if SeenIn(x, byRole, left, aliases, n) {
      var other :| other in byRole && other !in left && n in Image(aliases, RulesRefs(x, byRole[other]));
    }
  }

  lemma SeenAll(x: Texts, byRole: map<string, seq<Rule>>, aliases: map<string, string>, n: string)
    ensures SeenIn(x, byRole, {}, aliases, n) <==> Activates(x, byRole, aliases, n)
  {
    if Activates(x, byRole, aliases, n) {
      var a :| a in aliases && aliases[a] == n && Reads(x, byRole, a);
      var role :| role in byRole && a in RulesRefs(x, byRole[role]);
      assert n in Image(aliases, RulesRefs(x, byRole[role]));
    }
    if SeenIn(x, byRole, {}, aliases, n) {
      var role :| role in byRole && n in Image(aliases, RulesRefs(x, byRole[role]));
      var a :| a in RulesRefs(x, byRole[role]) && a in aliases && aliases[a] == n;
      assert Reads(x, byRole, a);
    }
  }

  method ListSet(s: set<string>) returns (r: seq<string>)
    ensures Distinct(r) && forall x :: x in r <==> x in s
  {
    r := [];
    var left := s;
    while left != {}
      invariant Distinct(r) && left <= s && forall x :: x in r <==> x in s && x !in left
      decreases left
    {
      var x :| x in left;
      left := left - {x};
      r := r + [x];
    }
  }

  /** An operation is in the index when it activates a point, and under it stand the
      points it activates. */
  ghost predicate ActivationIs(x: Texts, rls: RLS, aliases: map<string, string>, index: Index) {
    && (forall rt :: rt in index ==> rt in rls && forall op :: op in index[rt] ==> op in rls[rt] && index[rt][op] != [])
    && forall rt, op :: rt in rls && op in rls[rt] ==> IsActivated(x, rls[rt][op], aliases, RefsAt(index, rt, op))
  }

  ghost predicate IsActivated(x: Texts, byRole: map<string, seq<Rule>>, aliases: map<string, string>, names: seq<string>) {
    Distinct(names) && forall n :: n in names <==> Activates(x, byRole, aliases, n)
  }

  ghost predicate ActivatesAll(x: Texts, byOp: map<string, map<string, seq<Rule>>>, aliases: map<string, string>,
                               entry: map<string, seq<string>>) {
    && (forall op :: op in entry ==> op in byOp && entry[op] != [])
    && forall op :: op in byOp ==> IsActivated(x, byOp[op], aliases, if op in entry then entry[op] else [])
  }

  method BuildIndex(x: Texts, rls: RLS, aliases: map<string, string>) returns (index: Index)
    ensures ActivationIs(x, rls, aliases, index)
  {
    index := map[];
    var left := rls.Keys;
    while left != {}
      invariant left <= rls.Keys && index.Keys <= rls.Keys - left
      invariant forall rt :: rt in index ==> ActivatesAll(x, rls[rt], aliases, index[rt])
      invariant forall rt :: rt in rls && rt !in left && rt !in index ==> ActivatesAll(x, rls[rt], aliases, map[])
      decreases left
    {
      var rt :| rt in left;
      left := left - {rt};
      var entry := ActivateOperations(x, rls[rt], aliases);
      if entry != map[] { index := index[rt := entry]; }
    }
    ActivationWhole(x, rls, aliases, index);
  }

  lemma ActivationWhole(x: Texts, rls: RLS, aliases: map<string, string>, index: Index)
    requires index.Keys <= rls.Keys
    requires forall rt :: rt in index ==> ActivatesAll(x, rls[rt], aliases, index[rt])
    requires forall rt :: rt in rls && rt !in index ==> ActivatesAll(x, rls[rt], aliases, map[])
    ensures ActivationIs(x, rls, aliases, index)
  {
  }

  method ActivateOperations(x: Texts, byOp: map<string, map<string, seq<Rule>>>, aliases: map<string, string>)
    returns (entry: map<string, seq<string>>)
    ensures ActivatesAll(x, byOp, aliases, entry)
  {
    entry := map[];
    var left := byOp.Keys;
    while left != {}
      invariant left <= byOp.Keys && entry.Keys <= byOp.Keys - left
      invariant forall op :: op in entry ==> entry[op] != []
      invariant forall op :: op in byOp && op !in left ==> IsActivated(x, byOp[op], aliases, if op in entry then entry[op] else [])
      decreases left
    {
      var op :| op in left;
      left := left - {op};
      var names := CollectPIPs(x, byOp[op], aliases);
      if |names| > 0 { entry := entry[op := names]; }
    }
  }

  // ---- The two indexes agree ----

  /** The points activated for an operation are those known by the attributes the other
      index lists for it, where the empty text stands for no point. */
  lemma ActivatedAreIndexed(x: Texts, rls: RLS, aliases: map<string, string>, refs: Index, active: Index, rt: string, op: string, n: string)
    requires RefsAre(x, rls, refs) && ActivationIs(x, rls, aliases, active) && "" !in aliases
    requires rt in rls && op in rls[rt]
    ensures n in RefsAt(active, rt, op) <==> n in Image(aliases, set a | a in RefsAt(refs, rt, op))
  {
    assert IsRefs(x, rls[rt][op], RefsAt(refs, rt, op));
    assert IsActivated(x, rls[rt][op], aliases, RefsAt(active, rt, op));
    var listed := set a | a in RefsAt(refs, rt, op);
    if n in RefsAt(active, rt, op) {
      var a :| a in aliases && aliases[a] == n && Reads(x, rls[rt][op], a);
      assert a in listed;
    }
    if n in Image(aliases, listed) {
      var a :| a in listed && a in aliases && aliases[a] == n;
      assert Reads(x, rls[rt][op], a);
    }
  }

  /** Where the empty text does stand for a point, the indexes differ on some rules: a
      reference to it activates the point, and the other index does not list it. */
  lemma EmptyAliasDiffers(x: Texts, aliases: map<string, string>)
    requires "" in aliases
    ensures var node := Object([Member("ref", Object([Member("scope", Str("subject")), Member("path", List([Str("")]))]))]);
            var byRole := map["ALL" := [Rule(Ast(node), [])]];
            Activates(x, byRole, aliases, aliases[""]) && forall refs, a :: IsRefs(x, byRole, refs) ==> a !in refs
  {
    var r := [Member("scope", Str("subject")), Member("path", List([Str("")]))];
    var ms := [Member("ref", Object(r))];
    var node := Object(ms);
    var rule := Rule(Ast(node), []);
    var byRole := map["ALL" := [rule]];
    GetAt(r, 0);
    GetAt(r, 1);
    GetAt(ms, 0);
    assert RefOf(x, ms) == {""};
    assert Get(ms, "args").None?;
    assert AstRefs(x, node) == {""} && RuleRefs(x, rule) == {""};
    assert [rule][..0] == [] && RulesRefs(x, []) == {} && RulesRefs(x, [rule]) == {""};
    assert "ALL" in byRole && "" in RulesRefs(x, byRole["ALL"]);
  }
}
