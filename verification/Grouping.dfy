/** Lists grouped by a key, and lists mapped by a partial function. */
module Grouping {
  import opened Sequences

  /** The elements of one key, in order. */
  function Filter<T, K(==)>(g: T -> K, k: K, s: seq<T>): seq<T> {
    if s == [] then [] else
    Filter(g, k, s[..|s| - 1]) + (if g(s[|s| - 1]) == k then [s[|s| - 1]] else [])
  }

  /** The elements of each key in turn. */
  function Groups<T, K(==)>(g: T -> K, ks: seq<K>, s: seq<T>): seq<T> {
    if ks == [] then [] else Groups(g, ks[..|ks| - 1], s) + Filter(g, ks[|ks| - 1], s)
  }

  predicate NoRepeat<K(==)>(ks: seq<K>) { forall i, j :: 0 <= i < j < |ks| ==> ks[i] != ks[j] }

  lemma FilterSnoc<T, K>(g: T -> K, k: K, s: seq<T>, e: T)
    ensures Filter(g, k, s + [e]) == Filter(g, k, s) + (if g(e) == k then [e] else [])
  {
    assert (s + [e])[..|s|] == s;
  }

  lemma LastKey<K>(ks: seq<K>, k: K)
    requires NoRepeat(ks) && ks != []
    ensures NoRepeat(ks[..|ks| - 1]) && (k in ks <==> k in ks[..|ks| - 1] || k == ks[|ks| - 1])
    ensures ks[|ks| - 1] !in ks[..|ks| - 1]
  {
    var n := |ks| - 1;
    assert ks == ks[..n] + [ks[n]];
  }

  /** An element adds itself once to the groups, in the group of its key. */
  lemma {:induction false} GroupsSnoc<T, K>(g: T -> K, ks: seq<K>, s: seq<T>, e: T)
    requires NoRepeat(ks)
    ensures multiset(Groups(g, ks, s + [e])) == multiset(Groups(g, ks, s)) + (if g(e) in ks then multiset{e} else multiset{})
    decreases |ks|
  {
    if ks != [] {
      var n := |ks| - 1;
      LastKey(ks, g(e));
      GroupsSnoc(g, ks[..n], s, e);
      FilterSnoc(g, ks[n], s, e);
      OneGroupMore(Groups(g, ks[..n], s), Groups(g, ks[..n], s + [e]), Filter(g, ks[n], s), e, g(e) in ks[..n], g(e) == ks[n]);
    }
  }

  lemma OneGroupMore<T>(a: seq<T>, b: seq<T>, group: seq<T>, e: T, before: bool, here: bool)
    requires multiset(b) == multiset(a) + (if before then multiset{e} else multiset{}) && !(before && here)
    ensures multiset(b + (group + if here then [e] else []))
         == multiset(a + group) + (if before || here then multiset{e} else multiset{})
  {
  }

  lemma {:induction false} GroupsOfNone<T, K>(g: T -> K, ks: seq<K>)
    ensures Groups(g, ks, []) == []
    decreases |ks|
  {
    if ks != [] { GroupsOfNone(g, ks[..|ks| - 1]); }
  }

  /** Grouping by keys that do not repeat and leave no element out only reorders. */
  lemma {:induction false} GroupsReorder<T, K>(g: T -> K, ks: seq<K>, s: seq<T>)
    requires NoRepeat(ks) && forall i :: 0 <= i < |s| ==> g(s[i]) in ks
    ensures multiset(Groups(g, ks, s)) == multiset(s)
    decreases |s|
  {
    if s == [] {
      GroupsOfNone(g, ks);
    } else {
      var n := |s| - 1;
      assert s == s[..n] + [s[n]];
      GroupsReorder(g, ks, s[..n]);
      GroupsSnoc(g, ks, s[..n], s[n]);
    }
  }

  lemma {:induction false} FilterHasKey<T, K>(g: T -> K, k: K, s: seq<T>)
    ensures forall i :: 0 <= i < |Filter(g, k, s)| ==> g(Filter(g, k, s)[i]) == k && Filter(g, k, s)[i] in s
    decreases |s|
  {
    if s != [] {
      var n := |s| - 1;
      FilterHasKey(g, k, s[..n]);
      assert s == s[..n] + [s[n]];
    }
  }

  /** What a partial function gives of each element it accepts, in order. */
  function Collect<T, U>(f: T -> Option<U>, s: seq<T>): seq<U> {
    if s == [] then [] else
    Collect(f, s[..|s| - 1]) + (if f(s[|s| - 1]).Some? then [f(s[|s| - 1]).value] else [])
  }

  lemma {:induction false} CollectConcat<T, U>(f: T -> Option<U>, a: seq<T>, b: seq<T>)
    ensures Collect(f, a + b) == Collect(f, a) + Collect(f, b)
    decreases |b|
  {
    if b == [] {
      assert a + b == a;
    } else {
      var n := |b| - 1;
      assert (a + b)[..|a + b| - 1] == a + b[..n];
      CollectConcat(f, a, b[..n]);
    }
  }

  /** Reordering a list reorders what is collected from it. */
  lemma {:induction false} CollectReorder<T, U>(f: T -> Option<U>, a: seq<T>, b: seq<T>)
    requires multiset(a) == multiset(b)
    ensures multiset(Collect(f, a)) == multiset(Collect(f, b))
    decreases |a|
  {
    if a == [] {
      assert |multiset(b)| == |b| == 0;
    } else {
      var n := |a| - 1;
      assert a == a[..n] + [a[n]];
      assert a[n] in multiset(a);
      assert a[n] in b;
      var i :| 0 <= i < |b| && b[i] == a[n];
      Pulled(f, b, i);
      assert multiset(a[..n]) == multiset(a) - multiset{a[n]};
      CollectReorder(f, a[..n], b[..i] + b[i + 1..]);
      CollectConcat(f, a[..n], [a[n]]);
      CollectOne(f, a[n]);
    }
  }

  /** One element taken out of a list, and out of what is collected from it. */
  lemma Pulled<T, U>(f: T -> Option<U>, b: seq<T>, i: nat)
    requires i < |b|
    ensures multiset(b[..i] + b[i + 1..]) == multiset(b) - multiset{b[i]}
    ensures multiset(Collect(f, b)) == multiset(Collect(f, b[..i] + b[i + 1..])) + multiset(Collect(f, [b[i]]))
  {
    Around(b, i);
    Swapped(b[..i], [b[i]], b[i + 1..]);
    CollectSwapped(f, b[..i], [b[i]], b[i + 1..]);
  }

  lemma Around<T>(s: seq<T>, i: nat)
    requires i < |s|
    ensures s == s[..i] + ([s[i]] + s[i + 1..])
  {
  }

  lemma Swapped<T>(u: seq<T>, e: seq<T>, v: seq<T>)
    ensures multiset(u + (e + v)) == multiset(u + v) + multiset(e)
  {
  }

  lemma CollectSwapped<T, U>(f: T -> Option<U>, u: seq<T>, e: seq<T>, v: seq<T>)
    ensures multiset(Collect(f, u + (e + v))) == multiset(Collect(f, u + v)) + multiset(Collect(f, e))
  {
    CollectConcat(f, u, e + v);
    CollectConcat(f, e, v);
    CollectConcat(f, u, v);
    Swapped(Collect(f, u), Collect(f, e), Collect(f, v));
  }

  lemma CollectOne<T, U>(f: T -> Option<U>, e: T)
    ensures Collect(f, [e]) == if f(e).Some? then [f(e).value] else []
  {
    assert [e][..0] == [];
    assert Collect(f, []) == [];
  }

  /** Two functions that agree on a list collect the same from it. */
  lemma {:induction false} CollectAgree<T, U>(f: T -> Option<U>, h: T -> Option<U>, s: seq<T>)
    requires forall i :: 0 <= i < |s| ==> f(s[i]) == h(s[i])
    ensures Collect(f, s) == Collect(h, s)
    decreases |s|
  {
    if s != [] { CollectAgree(f, h, s[..|s| - 1]); }
  }
}
