/** Simplified policies survive the conversion to policy sets and back. */
module V3RoundTrips {
  import opened Sequences
  import opened TextOrder
  import opened Grouping
  import opened Targets
  import opened TargetProperties
  import opened V3Conversions

  /** What becomes of one simplified policy. */
  function Back(x: Chars, p: Simple): Option<Simple> {
    var rt := SetResourceType(x, ResourceTypeText(x, p.resourceType));
    if rt.None? then None else
    ConvertRule(x, if p.component != "" then p.component else "default", rt.value,
                ParseTarget(x, RolesText(RolesKeyOf(p))), RuleOf(x, p))
  }

  function BackWith(x: Chars): Simple -> Option<Simple> { p => Back(x, p) }

  // ---- The groups are invisible ----

  lemma {:induction false} RulesBack(x: Chars, k: Key, rt: string, rk: string, items: seq<Simple>)
    requires SetResourceType(x, ResourceTypeText(x, k.1)) == Some(rt)
    requires forall i :: 0 <= i < |items| ==> KeyOf(items[i]) == k && RolesKeyOf(items[i]) == rk
    ensures ConvertRules(x, if k.0 != "" then k.0 else "default", rt, ParseTarget(x, RolesText(rk)), RulesOf(x, items))
         == Collect(BackWith(x), items)
    decreases |items|
  {
    if items != [] {
      var n := |items| - 1;
      RulesBack(x, k, rt, rk, items[..n]);
      assert RulesOf(x, items)[..n] == RulesOf(x, items[..n]) by { RulesLength(x, items); }
    }
  }

  lemma {:induction false} RulesLength(x: Chars, items: seq<Simple>)
    ensures |RulesOf(x, items)| == |items|
    decreases |items|
  {
    if items != [] { RulesLength(x, items[..|items| - 1]); }
  }

  lemma {:induction false} PoliciesBack(x: Chars, k: Key, rt: string, items: seq<Simple>, keys: seq<string>)
    requires SetResourceType(x, ResourceTypeText(x, k.1)) == Some(rt)
    requires forall i :: 0 <= i < |items| ==> KeyOf(items[i]) == k
    ensures ConvertPolicies(x, if k.0 != "" then k.0 else "default", rt, PoliciesOf(x, items, keys))
         == Collect(BackWith(x), Groups(RolesKeyOf, keys, items))
    decreases |keys|
  {
    if keys != [] {
      var n := |keys| - 1;
      var rk := keys[n];
      PoliciesBack(x, k, rt, items, keys[..n]);
      PoliciesInit(x, items, keys);
      FilterHasKey(RolesKeyOf, rk, items);
      var group := Filter(RolesKeyOf, rk, items);
      forall i | 0 <= i < |group| ensures KeyOf(group[i]) == k { assert group[i] in items; }
      RulesBack(x, k, rt, rk, group);
      CollectConcat(BackWith(x), Groups(RolesKeyOf, keys[..n], items), group);
    }
  }

  lemma PoliciesInit(x: Chars, items: seq<Simple>, keys: seq<string>)
    requires keys != []
    ensures var ps := PoliciesOf(x, items, keys); ps != [] && ps[..|ps| - 1] == PoliciesOf(x, items, keys[..|keys| - 1])
  {
  }

  /** A set is converted back to what becomes of its items, in the order of its groups. */
  lemma SetBack(x: Chars, k: Key, items: seq<Simple>)
    requires forall i :: 0 <= i < |items| ==> KeyOf(items[i]) == k
    ensures multiset(ConvertSet(x, SetOf(x, k, items))) == multiset(Collect(BackWith(x), items))
  {
    var rt := SetResourceType(x, ResourceTypeText(x, k.1));
    var keys := RolesKeys(items);
    if rt.Some? {
      PoliciesBack(x, k, rt.value, items, keys);
      RolesCover(items);
      GroupsReorder(RolesKeyOf, keys, items);
      CollectReorder(BackWith(x), Groups(RolesKeyOf, keys, items), items);
    } else {
      NoneBack(x, items);
    }
  }

  lemma {:induction false} NoneBack(x: Chars, items: seq<Simple>)
    requires forall i :: 0 <= i < |items| ==> SetResourceType(x, ResourceTypeText(x, items[i].resourceType)).None?
    ensures Collect(BackWith(x), items) == []
    decreases |items|
  {
    if items != [] { NoneBack(x, items[..|items| - 1]); }
  }

  lemma RolesCover(items: seq<Simple>)
    ensures NoRepeat(RolesKeys(items)) && forall i :: 0 <= i < |items| ==> RolesKeyOf(items[i]) in RolesKeys(items)
  {
    RolesKeysMembers(items);
    var keys := RolesKeys(items);
    forall i, j | 0 <= i < j < |keys| ensures keys[i] != keys[j] { AscendingApart(keys, i, j); }
    forall i | 0 <= i < |items| ensures RolesKeyOf(items[i]) in keys { HasRolesKey(items, i); }
  }

  lemma AscendingApart(keys: seq<string>, i: nat, j: nat)
    requires Ascending(keys) && i < j < |keys|
    ensures keys[i] != keys[j]
  {
    var t := keys[i..];
    assert Ascending(t) by {
      forall m | 0 <= m < |t| - 1 ensures Less(t[m], t[m + 1]) { assert Less(keys[i + m], keys[i + m + 1]); }
    }
    AscendingHead(t, j - i);
    CompareTextEqual(keys[i], keys[j]);
  }

  lemma {:induction false} HasRolesKey(items: seq<Simple>, i: nat)
    requires i < |items|
    ensures RolesKeyOf(items[i]) in AllRolesKeys(items)
    decreases |items|
  {
    if i < |items| - 1 { HasRolesKey(items[..|items| - 1], i); }
  }

  lemma {:induction false} SetsBack(x: Chars, items: seq<Simple>, keys: seq<Key>)
    ensures multiset(ConvertSets(x, SetsOf(x, items, keys))) == multiset(Collect(BackWith(x), Groups(KeyOf, keys, items)))
    decreases |keys|
  {
    if keys != [] {
      var n := |keys| - 1;
      var group := Filter(KeyOf, keys[n], items);
      SetsBack(x, items, keys[..n]);
      SetsInit(x, items, keys);
      FilterHasKey(KeyOf, keys[n], items);
      SetBack(x, keys[n], group);
      CollectConcat(BackWith(x), Groups(KeyOf, keys[..n], items), group);
    }
  }

  lemma SetsInit(x: Chars, items: seq<Simple>, keys: seq<Key>)
    requires keys != []
    ensures var ss := SetsOf(x, items, keys);
      ss != [] && ss[..|ss| - 1] == SetsOf(x, items, keys[..|keys| - 1])
      && ss[|ss| - 1] == SetOf(x, keys[|keys| - 1], Filter(KeyOf, keys[|keys| - 1], items))
  {
  }

  lemma {:induction false} KeysCover(items: seq<Simple>)
    ensures NoRepeat(Keys(items)) && forall i :: 0 <= i < |items| ==> KeyOf(items[i]) in Keys(items)
    decreases |items|
  {
    if items != [] {
      var n := |items| - 1;
      KeysCover(items[..n]);
      forall i | 0 <= i < |items| ensures KeyOf(items[i]) in Keys(items) {
        if i < n { assert items[..n][i] == items[i]; }
      }
    }
  }

  /** For every list: converted to sets and back, each policy becomes what it would become
      alone, and the order aside nothing else does. */
  lemma GroupsAreInvisible(x: Chars, items: seq<Simple>)
    ensures multiset(ConvertSets(x, ToV3(x, items))) == multiset(Collect(BackWith(x), items))
  {
    KeysCover(items);
    SetsBack(x, items, Keys(items));
    GroupsReorder(KeyOf, Keys(items), items);
    CollectReorder(BackWith(x), Groups(KeyOf, Keys(items), items), items);
  }

  // ---- One policy ----

  /** A resource type or an operation that a target can name. */
  predicate CanName(x: Chars, v: string) { IsAll(x, v) || (v != "" && !HasQuote(v)) }

  function Widened(x: Chars, v: string): string { if IsAll(x, v) then "ALL" else v }

  /** The policy with ALL for every spelling of it, the roles sorted and each once, and no
      text that is blank. */
  function Canonical(x: Chars, p: Simple): Simple {
    Simple(if p.component != "" then p.component else "default", Widened(x, p.resourceType), Widened(x, p.operation),
           AddAll([], Sort(p.roles)),
           Unblank(x, p.condition), Unblank(x, p.rsql), Unblank(x, p.sql), Unblank(x, p.mongodb), Unblank(x, p.querydsl))
  }

  /** The roles a target gives: none where it is open to every role. */
  function RolesOf(t: Target): seq<string> { if t.Roles? then t.roles else [] }

  function ReadRoles(x: Chars, p: Simple): Target { ParseTarget(x, RolesText(RolesKeyOf(p))) }

  /** What every policy becomes: none where its resource type or operation cannot be named
      or its roles cannot be read, and otherwise itself with the roles that are read. */
  lemma ComesBackAs(x: Chars, p: Simple)
    requires Ascii(x)
    ensures Back(x, p) ==
      if CanName(x, p.resourceType) && CanName(x, p.operation) && !ReadRoles(x, p).Unknown?
      then Some(Canonical(x, p).(roles := RolesOf(ReadRoles(x, p)))) else None
  {
    ResourceTypeBack(x, p.resourceType);
    if CanName(x, p.resourceType) {
      RuleBack(x, p, ReadRoles(x, p), if p.component != "" then p.component else "default", Widened(x, p.resourceType));
    }
  }

  lemma RuleBack(x: Chars, p: Simple, t: Target, component: string, rt: string)
    requires Ascii(x) && t == ReadRoles(x, p)
    requires component == (if p.component != "" then p.component else "default") && rt == Widened(x, p.resourceType)
    ensures ConvertRule(x, component, rt, t, RuleOf(x, p))
         == if CanName(x, p.operation) && !t.Unknown? then Some(Canonical(x, p).(roles := RolesOf(t))) else None
  {
    TargetsBack(x, p);
    assert Unblank(x, "") == "";
  }

  lemma ResourceTypeBack(x: Chars, v: string)
    requires Ascii(x)
    ensures SetResourceType(x, ResourceTypeText(x, v)) == if CanName(x, v) then Some(Widened(x, v)) else None
  {
    ResourceTypeRoundTrip(x, v);
  }

  lemma TargetsBack(x: Chars, p: Simple)
    requires Ascii(x)
    ensures Resolve(ReadRoles(x, p), ParseTarget(x, OperationText(x, p.operation)))
         == if CanName(x, p.operation) && !ReadRoles(x, p).Unknown?
            then Some((Widened(x, p.operation), RolesOf(ReadRoles(x, p)))) else None
  {
    OperationRoundTrip(x, p.operation);
    KeyRoundTrip(x, RolesKeyOf(p));
  }

  // ---- Which policies come back the same ----

  /** A policy whose targets can say what it says: a resource type and an operation that
      can be named, and roles without quotes or commas, none of them blank. */
  predicate Convertible(x: Chars, p: Simple) {
    AllNameable(p.roles) && NoneBlank(x, p.roles) && CanName(x, p.resourceType) && CanName(x, p.operation)
  }

  /** The same roles, whatever their order and repeats. */
  ghost predicate SameMembers(a: seq<string>, b: seq<string>) { forall r :: r in a <==> r in b }

  /** Every policy comes back with the roles it was given exactly when it is convertible,
      and then as its canonical form. */
  lemma ComesBackIff(x: Chars, p: Simple)
    requires Ascii(x)
    ensures Back(x, p).Some? && SameMembers(Back(x, p).value.roles, p.roles) <==> Convertible(x, p)
    ensures Convertible(x, p) ==> Back(x, p) == Some(Canonical(x, p))
  {
    ComesBackAs(x, p);
    RolesReadIff(x, p);
    SameRoles(x, p);
  }

  /** The roles are read as given exactly when none has a quote or a comma or is blank. */
  lemma RolesReadIff(x: Chars, p: Simple)
    requires Ascii(x)
    ensures !ReadRoles(x, p).Unknown? && SameMembers(RolesOf(ReadRoles(x, p)), p.roles)
        <==> AllNameable(p.roles) && NoneBlank(x, p.roles)
    ensures AllNameable(p.roles) && NoneBlank(x, p.roles) ==> RolesOf(ReadRoles(x, p)) == AddAll([], Sort(p.roles))
  {
    if AllNameable(p.roles) && NoneBlank(x, p.roles) {
      ReadsConvertible(x, p);
      SameRoles(x, p);
    }
    if !ReadRoles(x, p).Unknown? && SameMembers(RolesOf(ReadRoles(x, p)), p.roles) { ReadSame(x, p); }
  }

  lemma ReadsConvertible(x: Chars, p: Simple)
    requires Ascii(x) && AllNameable(p.roles) && NoneBlank(x, p.roles)
    ensures !ReadRoles(x, p).Unknown? && RolesOf(ReadRoles(x, p)) == AddAll([], Sort(p.roles))
  {
    KeyRoundTrip(x, RolesKeyOf(p));
    if p.roles == [] {
      assert RolesKeyOf(p) == "";
    } else {
      PartsOfKey(x, p.roles);
      KeyOfRoles(x, p.roles);
      SortKeeps(x, p.roles);
    }
  }

  /** Where the roles read are the roles given, none of these has a quote or a comma, and
      none is blank. */
  lemma ReadSame(x: Chars, p: Simple)
    requires Ascii(x) && !ReadRoles(x, p).Unknown?
    requires SameMembers(RolesOf(ReadRoles(x, p)), p.roles)
    ensures AllNameable(p.roles) && NoneBlank(x, p.roles)
  {
    var key := RolesKeyOf(p);
    KeyRoundTrip(x, key);
    forall i | 0 <= i < |p.roles| ensures !HasQuote(p.roles[i]) { assert p.roles[i] in RolesOf(ReadRoles(x, p)); }
    forall r | r in Sort(p.roles) ensures !HasQuote(r) { SortMembers(p.roles, r); }
    JoinedHasNoQuote(Sort(p.roles));
    SplitParts(key);
    forall i | 0 <= i < |p.roles| ensures Nameable(p.roles[i]) && !IsBlank(x, p.roles[i]) {
      assert p.roles[i] in RolesOf(ReadRoles(x, p));
      AddAllMembers([], Split(key), p.roles[i]);
    }
  }

  /** A canonical policy names exactly the roles given. */
  lemma SameRoles(x: Chars, p: Simple)
    ensures SameMembers(Canonical(x, p).roles, p.roles)
  {
    forall r ensures r in Canonical(x, p).roles <==> r in p.roles {
      SortMembers(p.roles, r);
      AddAllMembers([], Sort(p.roles), r);
    }
  }

  /** Roles that are not blank have an empty key only when there are none. */
  lemma KeyOfRoles(x: Chars, roles: seq<string>)
    requires NoneBlank(x, roles) && roles != []
    ensures RolesKey(roles) != ""
  {
    SortKeeps(x, roles);
    assert IsBlank(x, "") by { assert TrimLeft(x, "") == ""; }
    assert !IsBlank(x, Sort(roles)[0]);
  }

  // ---- Policies that come back with other roles ----

  lemma KeyOfOne(role: string)
    ensures RolesKey([role]) == role
  {
    assert Sort([]) == [] && [role][1..] == [];
    assert Sort([role]) == [role];
  }

  /** One empty role is lost, and the policy then names no role at all. */
  lemma EmptyRoleIsLost(x: Chars, p: Simple)
    requires Ascii(x) && p.roles == [""] && CanName(x, p.resourceType) && CanName(x, p.operation)
    ensures Back(x, p).Some? && Back(x, p).value.roles == []
  {
    ComesBackAs(x, p);
    KeyOfOne("");
    KeyRoundTrip(x, "");
  }

  lemma AloneComesBack(x: Chars, p: Simple, key: string, a: string, b: string)
    requires Ascii(x) && p.roles == [key] && CanName(x, p.resourceType) && CanName(x, p.operation)
    requires ParseTarget(x, RolesText(key)) == Roles(AddAll([], [a, b]))
    ensures Back(x, p).Some? && Back(x, p).value.roles == if a == b then [a] else [a, b]
  {
    KeyOfOne(key);
    ComesBackAs(x, p);
    AddTwo([], a, b);
  }

  /** A role with a comma becomes two roles: a,b becomes a and b. */
  lemma CommaRoleIsSplit(x: Chars, p: Simple, a: string, b: string)
    requires Ascii(x) && p.roles == [a + ("," + b)] && CanName(x, p.resourceType) && CanName(x, p.operation)
    requires Nameable(a) && Nameable(b) && !IsBlank(x, a) && !IsBlank(x, b)
    ensures Back(x, p).Some? && Back(x, p).value.roles == if a == b then [a] else [a, b]
  {
    TwoParts(a, b);
    KeyRoundTrip(x, a + ("," + b));
    AloneComesBack(x, p, a + ("," + b), a, b);
  }

  lemma TwoParts(a: string, b: string)
    requires Nameable(a) && Nameable(b)
    ensures Split(a + ("," + b)) == [a, b] && !HasQuote(a + ("," + b))
  {
    assert Joined([a, b]) == a + ("," + b) by { assert [a, b][1..] == [b]; }
    SplitJoined([a, b]);
  }

  /** A role that ends its quotes and opens another clause becomes two roles: the text
      a' OR subject.roles CONTAINS 'b becomes a and b. */
  lemma QuoteRoleIsSplit(x: Chars, p: Simple, a: string, b: string)
    requires Ascii(x) && p.roles == [TwoClauses(a, b)] && CanName(x, p.resourceType) && CanName(x, p.operation)
    requires Nameable(a) && Nameable(b) && !IsBlank(x, a) && !IsBlank(x, b)
    ensures Back(x, p).Some? && Back(x, p).value.roles == if a == b then [a] else [a, b]
  {
    TwoClausesTarget(x, a, b);
    AloneComesBack(x, p, TwoClauses(a, b), a, b);
  }

  function CanonicalOf(x: Chars): Simple -> Option<Simple> { p => Some(Canonical(x, p)) }

  /** For every list of convertible policies no rule is skipped, and the policies come
      back the same, in some order. */
  lemma RoundTrip(x: Chars, items: seq<Simple>)
    requires Ascii(x) && forall i :: 0 <= i < |items| ==> Convertible(x, items[i])
    ensures multiset(ConvertSets(x, ToV3(x, items))) == multiset(Collect(CanonicalOf(x), items))
    ensures |ConvertSets(x, ToV3(x, items))| == |items|
  {
    GroupsAreInvisible(x, items);
    forall i | 0 <= i < |items| ensures BackWith(x)(items[i]) == CanonicalOf(x)(items[i]) { ComesBackIff(x, items[i]); }
    CollectAgree(BackWith(x), CanonicalOf(x), items);
    CanonicalLength(x, items);
    var back := ConvertSets(x, ToV3(x, items));
    assert |back| == |multiset(back)| == |multiset(Collect(CanonicalOf(x), items))|;
  }

  lemma {:induction false} CanonicalLength(x: Chars, items: seq<Simple>)
    ensures |Collect(CanonicalOf(x), items)| == |items|
    decreases |items|
  {
    if items != [] { CanonicalLength(x, items[..|items| - 1]); }
  }
}
