/** Simplified policies converted to exported policy sets and back.

    Roles and conditions are texts, as they are once printed; identifiers and names that
    no reader looks at are left out of the exported shapes. */
module V3Conversions {
  import opened Sequences
  import opened TextOrder
  import opened Grouping
  import opened Targets

  datatype Simple = Simple(component: string, resourceType: string, operation: string, roles: seq<string>,
                           condition: string, rsql: string, sql: string, mongodb: string, querydsl: string)

  datatype V3Rule = V3Rule(target: string, condition: Option<string>, effect: string, rsql: string, sql: string,
                           mongodb: string, querydsl: string)

  datatype V3Policy = V3Policy(target: string, rules: seq<V3Rule>)

  datatype V3Set = V3Set(kind: string, domain: string, tenantID: string, target: string, policies: seq<V3Policy>)

  // ---- To sets ----

  type Key = (string, string)

  function KeyOf(p: Simple): Key { (p.component, p.resourceType) }

  function RolesKeyOf(p: Simple): string { RolesKey(p.roles) }

  /** The keys of the list, each once, in the order they first appear. */
  function Keys(items: seq<Simple>): seq<Key> {
    if items == [] then [] else
    var before := Keys(items[..|items| - 1]);
    var k := KeyOf(items[|items| - 1]);
    if k in before then before else before + [k]
  }

  function AllRolesKeys(items: seq<Simple>): seq<string> {
    if items == [] then [] else AllRolesKeys(items[..|items| - 1]) + [RolesKeyOf(items[|items| - 1])]
  }

  /** The roles of the list as keys, each once, in ascending order. */
  function RolesKeys(items: seq<Simple>): seq<string> { Compact(Sort(AllRolesKeys(items))) }

  function RuleOf(x: Chars, p: Simple): V3Rule {
    V3Rule(OperationText(x, p.operation), if p.condition == "" then None else Some(p.condition), "ALLOW",
           p.rsql, p.sql, p.mongodb, p.querydsl)
  }

  function RulesOf(x: Chars, items: seq<Simple>): seq<V3Rule> {
    if items == [] then [] else RulesOf(x, items[..|items| - 1]) + [RuleOf(x, items[|items| - 1])]
  }

  function PoliciesOf(x: Chars, items: seq<Simple>, keys: seq<string>): seq<V3Policy> {
    if keys == [] then [] else
    var rk := keys[|keys| - 1];
    PoliciesOf(x, items, keys[..|keys| - 1]) + [V3Policy(RolesText(rk), RulesOf(x, Filter(RolesKeyOf, rk, items)))]
  }

  function SetOf(x: Chars, k: Key, items: seq<Simple>): V3Set {
    V3Set("SIMPLIFIED", k.0, k.0, ResourceTypeText(x, k.1), PoliciesOf(x, items, RolesKeys(items)))
  }

  function SetsOf(x: Chars, items: seq<Simple>, keys: seq<Key>): seq<V3Set> {
    if keys == [] then [] else
    var k := keys[|keys| - 1];
    SetsOf(x, items, keys[..|keys| - 1]) + [SetOf(x, k, Filter(KeyOf, k, items))]
  }

  /** A set for each component and resource type, in it a policy for each list of roles,
      in that a rule for each simplified policy. */
  function ToV3(x: Chars, items: seq<Simple>): seq<V3Set> { SetsOf(x, items, Keys(items)) }

  type Groups2 = map<Key, map<string, seq<Simple>>>

  /** The groups hold the items by key and by roles, and no empty group. */
  ghost predicate Grouped(items: seq<Simple>, g: Groups2) {
    && (forall k :: k in g <==> k in Keys(items))
    && forall k :: k in g ==> GroupedByRoles(Filter(KeyOf, k, items), g[k])
  }

  ghost predicate GroupedByRoles(items: seq<Simple>, g: map<string, seq<Simple>>) {
    && (forall rk :: rk in g <==> rk in AllRolesKeys(items))
    && forall rk :: rk in g ==> g[rk] == Filter(RolesKeyOf, rk, items)
  }

  method ToV3Sets(x: Chars, items: seq<Simple>) returns (sets: seq<V3Set>)
    ensures sets == ToV3(x, items)
  {
    var order, groups := GroupItems(items);
    forall i | 0 <= i < |order| ensures HoldsGroup(items, groups, order[i]) { GroupOf(items, groups, i); }
    sets := PrintSets(x, items, order, groups);
  }

  ghost predicate HoldsGroup(items: seq<Simple>, g: Groups2, k: Key) {
    k in g && GroupedByRoles(Filter(KeyOf, k, items), g[k])
  }

  method PrintSets(x: Chars, ghost items: seq<Simple>, order: seq<Key>, groups: Groups2) returns (sets: seq<V3Set>)
    requires forall i :: 0 <= i < |order| ==> HoldsGroup(items, groups, order[i])
    ensures sets == SetsOf(x, items, order)
  {
    sets := [];
    for i := 0 to |order|
      invariant sets == SetsOf(x, items, order[..i])
    {
      assert HoldsGroup(items, groups, order[i]);
      SetsSnoc(x, items, order, i);
      var one := PrintSet(x, order[i], Filter(KeyOf, order[i], items), groups[order[i]]);
      sets := sets + [one];
    }
    assert order[..|order|] == order;
  }

  method PrintSet(x: Chars, k: Key, ghost items: seq<Simple>, g: map<string, seq<Simple>>) returns (r: V3Set)
    requires GroupedByRoles(items, g)
    ensures r == SetOf(x, k, items)
  {
    var policies := PrintPolicies(x, items, g);
    r := V3Set("SIMPLIFIED", k.0, k.0, ResourceTypeText(x, k.1), policies);
  }

  lemma SetsSnoc(x: Chars, items: seq<Simple>, keys: seq<Key>, i: nat)
    requires i < |keys|
    ensures SetsOf(x, items, keys[..i + 1]) == SetsOf(x, items, keys[..i]) + [SetOf(x, keys[i], Filter(KeyOf, keys[i], items))]
  {
    assert keys[..i + 1][..i] == keys[..i];
  }

  lemma GroupOf(items: seq<Simple>, g: Groups2, i: nat)
    requires Grouped(items, g) && i < |Keys(items)|
    ensures HoldsGroup(items, g, Keys(items)[i])
  {
    assert Keys(items)[i] in Keys(items);
  }

  method GroupItems(items: seq<Simple>) returns (order: seq<Key>, groups: Groups2)
    ensures order == Keys(items) && Grouped(items, groups)
  {
    order, groups := [], map[];
    for i := 0 to |items|
      invariant order == Keys(items[..i]) && Grouped(items[..i], groups)
    {
      var p := items[i];
      var k, rk := KeyOf(p), RolesKeyOf(p);
      Snoc(items, i);
      NewGroup(items[..i], groups, k);
      var byRoles := map[];
      if k in groups { byRoles := groups[k]; } else { order := order + [k]; }
      AddToRoles(Filter(KeyOf, k, items[..i]), byRoles, p);
      byRoles := byRoles[rk := (if rk in byRoles then byRoles[rk] else []) + [p]];
      AddToGroup(items[..i], groups, p, byRoles);
      groups := groups[k := byRoles];
    }
    assert items[..|items|] == items;
  }

  lemma Snoc(items: seq<Simple>, i: nat)
    requires i < |items|
    ensures items[..i + 1] == items[..i] + [items[i]]
    ensures Keys(items[..i + 1]) == Keys(items[..i]) + (if KeyOf(items[i]) in Keys(items[..i]) then [] else [KeyOf(items[i])])
  {
    assert items[..i + 1][..i] == items[..i];
  }

  /** A key not seen before has no items. */
  lemma NewGroup(items: seq<Simple>, g: Groups2, k: Key)
    requires Grouped(items, g)
    ensures k in g ==> GroupedByRoles(Filter(KeyOf, k, items), g[k])
    ensures k !in g ==> GroupedByRoles(Filter(KeyOf, k, items), map[])
  {
    if k !in g { NotAKey(items, k); }
  }

  lemma {:induction false} NotAKey(items: seq<Simple>, k: Key)
    requires k !in Keys(items)
    ensures Filter(KeyOf, k, items) == []
    decreases |items|
  {
    if items != [] { NotAKey(items[..|items| - 1], k); }
  }

  lemma AddToRoles(items: seq<Simple>, g: map<string, seq<Simple>>, p: Simple)
    requires GroupedByRoles(items, g)
    ensures var rk := RolesKeyOf(p);
            GroupedByRoles(items + [p], g[rk := (if rk in g then g[rk] else []) + [p]])
  {
    var rk := RolesKeyOf(p);
    var after := g[rk := (if rk in g then g[rk] else []) + [p]];
    forall k ensures (k in after <==> k in AllRolesKeys(items + [p])) { RolesKeysSnoc(items, p, k); }
    forall k | k in after ensures after[k] == Filter(RolesKeyOf, k, items + [p]) {
      FilterSnoc(RolesKeyOf, k, items, p);
      if k == rk && k !in g { NotARolesKey(items, k); }
    }
  }

  lemma RolesKeysSnoc(items: seq<Simple>, p: Simple, k: string)
    ensures k in AllRolesKeys(items + [p]) <==> k in AllRolesKeys(items) || k == RolesKeyOf(p)
  {
    assert (items + [p])[..|items|] == items;
  }

  lemma {:induction false} NotARolesKey(items: seq<Simple>, rk: string)
    requires rk !in AllRolesKeys(items)
    ensures Filter(RolesKeyOf, rk, items) == []
    decreases |items|
  {
    if items != [] { NotARolesKey(items[..|items| - 1], rk); }
  }

  lemma AddToGroup(items: seq<Simple>, g: Groups2, p: Simple, byRoles: map<string, seq<Simple>>)
    requires Grouped(items, g) && GroupedByRoles(Filter(KeyOf, KeyOf(p), items) + [p], byRoles)
    ensures Grouped(items + [p], g[KeyOf(p) := byRoles])
  {
    forall k ensures (k in g[KeyOf(p) := byRoles] <==> k in Keys(items + [p])) { KeysSnoc(items, p, k); }
    forall k | k in g[KeyOf(p) := byRoles]
      ensures GroupedByRoles(Filter(KeyOf, k, items + [p]), g[KeyOf(p) := byRoles][k])
    {
      FilterSnoc(KeyOf, k, items, p);
      if k != KeyOf(p) { assert Filter(KeyOf, k, items + [p]) == Filter(KeyOf, k, items); }
    }
  }

  lemma KeysSnoc(items: seq<Simple>, p: Simple, k: Key)
    ensures k in Keys(items + [p]) <==> k in Keys(items) || k == KeyOf(p)
  {
    assert (items + [p])[..|items|] == items;
  }

  method PrintPolicies(x: Chars, ghost items: seq<Simple>, g: map<string, seq<Simple>>) returns (policies: seq<V3Policy>)
    requires GroupedByRoles(items, g)
    ensures policies == PoliciesOf(x, items, RolesKeys(items))
  {
    var keys := SortKeys(items, g);
    policies := [];
    for i := 0 to |keys|
      invariant policies == PoliciesOf(x, items, keys[..i])
    {
      var policy := PrintPolicy(x, items, g, keys[i]);
      PoliciesSnoc(x, items, keys, i);
      policies := policies + [policy];
    }
    assert keys[..|keys|] == keys;
  }

  method PrintPolicy(x: Chars, ghost items: seq<Simple>, g: map<string, seq<Simple>>, rk: string) returns (policy: V3Policy)
    requires GroupedByRoles(items, g) && rk in g
    ensures policy == V3Policy(RolesText(rk), RulesOf(x, Filter(RolesKeyOf, rk, items)))
  {
    var rules := PrintRules(x, g[rk]);
    policy := V3Policy(RolesText(rk), rules);
  }

  lemma PoliciesSnoc(x: Chars, items: seq<Simple>, keys: seq<string>, i: nat)
    requires i < |keys|
    ensures PoliciesOf(x, items, keys[..i + 1])
         == PoliciesOf(x, items, keys[..i]) + [V3Policy(RolesText(keys[i]), RulesOf(x, Filter(RolesKeyOf, keys[i], items)))]
  {
    assert keys[..i + 1][..i] == keys[..i];
  }

  method SortKeys(ghost items: seq<Simple>, g: map<string, seq<Simple>>) returns (keys: seq<string>)
    requires GroupedByRoles(items, g)
    ensures keys == RolesKeys(items) && forall i :: 0 <= i < |keys| ==> keys[i] in g
  {
    var listed := ListKeys(g);
    keys := Sort(listed);
    SortedKeys(items, g, listed);
  }

  /** The keys of a map, in any order. */
  method ListKeys(g: map<string, seq<Simple>>) returns (keys: seq<string>)
    ensures Distinct(keys) && forall k :: k in keys <==> k in g
  {
    keys := [];
    var left := g.Keys;
    while left != {}
      invariant Distinct(keys) && left <= g.Keys
      invariant forall k :: k in keys <==> k in g && k !in left
      decreases left
    {
      var k :| k in left;
      left := left - {k};
      keys := keys + [k];
    }
  }

  /** However the keys are listed, sorting gives the keys in ascending order. */
  lemma SortedKeys(items: seq<Simple>, g: map<string, seq<Simple>>, listed: seq<string>)
    requires GroupedByRoles(items, g)
    requires Distinct(listed) && forall k :: k in listed <==> k in g
    ensures Sort(listed) == RolesKeys(items) && forall k :: k in Sort(listed) <==> k in g
  {
    forall k ensures k in Sort(listed) <==> k in g { SortMembers(listed, k); }
    RolesKeysMembers(items);
    SortDistinct(listed);
    AscendingUnique(Sort(listed), RolesKeys(items));
  }

  lemma RolesKeysMembers(items: seq<Simple>)
    ensures Ascending(RolesKeys(items)) && forall k :: k in RolesKeys(items) <==> k in AllRolesKeys(items)
  {
    CompactAscending(Sort(AllRolesKeys(items)));
    forall k ensures k in RolesKeys(items) <==> k in AllRolesKeys(items) { SortMembers(AllRolesKeys(items), k); }
  }

  method PrintRules(x: Chars, items: seq<Simple>) returns (rules: seq<V3Rule>)
    ensures rules == RulesOf(x, items)
  {
    rules := [];
    for i := 0 to |items|
      invariant rules == RulesOf(x, items[..i])
    {
      var p := items[i];
      assert items[..i + 1][..i] == items[..i];
      rules := rules + [V3Rule(OperationText(x, p.operation), if p.condition != "" then Some(p.condition) else None, "ALLOW",
                               p.rsql, p.sql, p.mongodb, p.querydsl)];
    }
    assert items[..|items|] == items;
  }

  // ---- And back ----

  function Unblank(x: Chars, s: string): string { if IsBlank(x, s) then "" else s }

  /** The simplified policy of a rule, none when it denies or cannot be read. */
  function ConvertRule(x: Chars, component: string, resourceType: string, policy: Target, r: V3Rule): Option<Simple> {
    if r.effect == "DENY" then None else
    match Resolve(policy, ParseTarget(x, r.target))
    case None => None
    case Some((operation, roles)) =>
      Some(Simple(component, resourceType, operation, roles, if r.condition.Some? then Unblank(x, r.condition.value) else "",
                  Unblank(x, r.rsql), Unblank(x, r.sql), Unblank(x, r.mongodb), Unblank(x, r.querydsl)))
  }

  function ConvertRules(x: Chars, component: string, resourceType: string, policy: Target, rs: seq<V3Rule>): seq<Simple> {
    Collect(r => ConvertRule(x, component, resourceType, policy, r), rs)
  }

  function ConvertPolicies(x: Chars, component: string, resourceType: string, ps: seq<V3Policy>): seq<Simple> {
    if ps == [] then [] else
    var p := ps[|ps| - 1];
    ConvertPolicies(x, component, resourceType, ps[..|ps| - 1])
      + ConvertRules(x, component, resourceType, ParseTarget(x, p.target), p.rules)
  }

  /** The resource type a set is for, none when its target is neither of one nor open. */
  function SetResourceType(x: Chars, target: string): Option<string> {
    match ParseTarget(x, target) case ResourceType(v) => Some(v) case Any => Some("ALL") case _ => None
  }

  function Component(s: V3Set): string {
    if s.domain != "" then s.domain else if s.tenantID != "" then s.tenantID else "default"
  }

  function ConvertSet(x: Chars, s: V3Set): seq<Simple> {
    var rt := SetResourceType(x, s.target);
    if rt.None? then [] else ConvertPolicies(x, Component(s), rt.value, s.policies)
  }

  function ConvertSets(x: Chars, ss: seq<V3Set>): seq<Simple> {
    if ss == [] then [] else
    var s := ss[|ss| - 1];
    ConvertSets(x, ss[..|ss| - 1]) + (if s.kind == "SIMPLIFIED" then ConvertSet(x, s) else [])
  }

  datatype Stats = Stats(policySets: nat, setsSkipped: nat, rules: nat, rulesSkipped: nat, denySkipped: nat)

  /** Every rule reached is converted, skipped, or a denial. */
  predicate Balanced(before: Stats, after: Stats, converted: nat) {
    after.rules - before.rules == converted + (after.rulesSkipped - before.rulesSkipped) + (after.denySkipped - before.denySkipped)
  }

  method ConvertPolicySets(x: Chars, ss: seq<V3Set>) returns (result: seq<Simple>, stats: Stats)
    ensures result == ConvertSets(x, ss)
    ensures stats.rules == |result| + stats.rulesSkipped + stats.denySkipped
  {
    result, stats := [], Stats(0, 0, 0, 0, 0);
    for i := 0 to |ss|
      invariant result == ConvertSets(x, ss[..i])
      invariant Balanced(Stats(0, 0, 0, 0, 0), stats, |result|)
    {
      assert ss[..i + 1][..i] == ss[..i];
      if ss[i].kind != "SIMPLIFIED" { continue; }
      var more;
      more, stats := ConvertPolicySet(x, ss[i], stats);
      result := result + more;
    }
    assert ss[..|ss|] == ss;
  }

  method ConvertPolicySet(x: Chars, s: V3Set, before: Stats) returns (result: seq<Simple>, stats: Stats)
    ensures result == ConvertSet(x, s) && Balanced(before, stats, |result|)
  {
    stats := before.(policySets := before.policySets + 1);
    var resourceType: string;
    match ParseTarget(x, s.target) {
      case ResourceType(v) => resourceType := v;
      case Any => resourceType := "ALL";
      case _ => return [], stats.(setsSkipped := stats.setsSkipped + 1);
    }
    var component := Component(s);
    result := [];
    for i := 0 to |s.policies|
      invariant result == ConvertPolicies(x, component, resourceType, s.policies[..i]) && Balanced(before, stats, |result|)
    {
      assert s.policies[..i + 1][..i] == s.policies[..i];
      var more;
      more, stats := ConvertPolicy(x, component, resourceType, s.policies[i], stats);
      result := result + more;
    }
    assert s.policies[..|s.policies|] == s.policies;
  }

  method ConvertPolicy(x: Chars, component: string, resourceType: string, p: V3Policy, before: Stats)
    returns (result: seq<Simple>, stats: Stats)
    ensures result == ConvertRules(x, component, resourceType, ParseTarget(x, p.target), p.rules)
    ensures Balanced(before, stats, |result|)
  {
    result, stats := [], before;
    var target := ParseTarget(x, p.target);
    for i := 0 to |p.rules|
      invariant result == ConvertRules(x, component, resourceType, target, p.rules[..i]) && Balanced(before, stats, |result|)
    {
      var r := p.rules[i];
      assert p.rules[..i + 1][..i] == p.rules[..i];
      stats := stats.(rules := stats.rules + 1);
      if r.effect == "DENY" {
        stats := stats.(denySkipped := stats.denySkipped + 1);
        continue;
      }
      var resolved := Resolve(target, ParseTarget(x, r.target));
      if resolved.None? {
        stats := stats.(rulesSkipped := stats.rulesSkipped + 1);
        continue;
      }
      var (operation, roles) := resolved.value;
      result := result + [Simple(component, resourceType, operation, roles,
                                 if r.condition.Some? then Unblank(x, r.condition.value) else "",
                                 Unblank(x, r.rsql), Unblank(x, r.sql), Unblank(x, r.mongodb), Unblank(x, r.querydsl))];
    }
    assert p.rules[..|p.rules|] == p.rules;
  }
}
