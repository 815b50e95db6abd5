/** The order of texts, sorted lists of them, and lists without repeats. */
module TextOrder {

  /** The order of texts by their characters, as -1, 0, or 1. */
  function CompareText(a: string, b: string): (r: int)
    ensures r == -1 || r == 0 || r == 1
    decreases |a|
  {
    if a == [] then (if b == [] then 0 else -1)
    else if b == [] then 1
    else if a[0] < b[0] then -1
    else if a[0] > b[0] then 1
    else CompareText(a[1..], b[1..])
  }

  predicate Less(a: string, b: string) { CompareText(a, b) == -1 }

  lemma {:induction false} CompareTextEqual(a: string, b: string)
    ensures CompareText(a, b) == 0 <==> a == b
    decreases |a|
  {
    if a != [] && b != [] {
      if a[0] == b[0] { CompareTextEqual(a[1..], b[1..]); }
      assert a == [a[0]] + a[1..] && b == [b[0]] + b[1..];
    }
  }

  lemma {:induction false} CompareReversed(a: string, b: string)
    ensures CompareText(a, b) == -CompareText(b, a)
    decreases |a|
  {
    if a != [] && b != [] && a[0] == b[0] { CompareReversed(a[1..], b[1..]); }
  }

  lemma {:induction false} LessTransitive(a: string, b: string, c: string)
    requires Less(a, b) && Less(b, c)
    ensures Less(a, c)
    decreases |a|
  {
    if a != [] && b != [] && c != [] && a[0] == b[0] == c[0] {
      LessTransitive(a[1..], b[1..], c[1..]);
    }
  }

  /** In ascending order, with repeats. */
  predicate Sorted(s: seq<string>) {
    forall i :: 0 <= i < |s| - 1 ==> !Less(s[i + 1], s[i])
  }

  /** In ascending order, without repeats. */
  predicate Ascending(s: seq<string>) {
    forall i :: 0 <= i < |s| - 1 ==> Less(s[i], s[i + 1])
  }

  function Insert(x: string, s: seq<string>): (r: seq<string>)
    requires Sorted(s)
    ensures Sorted(r) && multiset(r) == multiset(s) + multiset{x}
    ensures s != [] ==> r[0] == s[0] || r[0] == x
  {
    if s == [] then [x]
    else if !Less(s[0], x) then
      var r := [x] + s;
      assert Sorted(r) by {
        forall i | 0 <= i < |r| - 1 ensures !Less(r[i + 1], r[i]) {
          if i > 0 { assert !Less(s[i], s[i - 1]); }
        }
      }
      r
    else
      var t := Insert(x, s[1..]);
      CompareReversed(s[0], x);
      assert s == [s[0]] + s[1..];
      [s[0]] + t
  }

  function Sort(s: seq<string>): (r: seq<string>)
    ensures Sorted(r) && multiset(r) == multiset(s)
  {
    if s == [] then [] else
    assert s == [s[0]] + s[1..];
    Insert(s[0], Sort(s[1..]))
  }

  /** Drops a text that repeats the one before it. */
  function Compact(s: seq<string>): (r: seq<string>)
    ensures s == [] <==> r == []
    ensures s != [] ==> r[0] == s[0]
    ensures |r| <= |s|
  {
    if |s| <= 1 then s
    else if s[0] == s[1] then Compact(s[1..])
    else [s[0]] + Compact(s[1..])
  }

  lemma {:induction false} CompactAscending(s: seq<string>)
    requires Sorted(s)
    ensures Ascending(Compact(s)) && forall x :: x in Compact(s) <==> x in s
    decreases |s|
  {
    if |s| > 1 {
      CompactAscending(s[1..]);
      assert s == [s[0]] + s[1..];
      if s[0] != s[1] {
        var r := Compact(s[1..]);
        CompareTextEqual(s[0], s[1]);
        CompareReversed(s[0], s[1]);
        assert !Less(s[1], s[0]);
        forall i | 0 <= i < |r| ensures Less(([s[0]] + r)[i], ([s[0]] + r)[i + 1]) {
          if i > 0 { assert Less(r[i - 1], r[i]); }
        }
      }
    }
  }

  lemma {:induction false} AscendingHead(s: seq<string>, i: nat)
    requires Ascending(s) && 0 < i < |s|
    ensures Less(s[0], s[i])
    decreases i
  {
    if i > 1 {
      AscendingHead(s, i - 1);
      LessTransitive(s[0], s[i - 1], s[i]);
    }
  }

  /** The first of an ascending list is below every other text in it. */
  lemma AscendingFirst(s: seq<string>, x: string)
    requires Ascending(s) && x in s
    ensures x == s[0] || Less(s[0], x)
  {
    var i :| 0 <= i < |s| && s[i] == x;
    if i > 0 { AscendingHead(s, i); }
  }

  /** An ascending list is fixed by what it holds. */
  lemma {:induction false} AscendingUnique(s: seq<string>, t: seq<string>)
    requires Ascending(s) && Ascending(t) && forall x :: x in s <==> x in t
    ensures s == t
    decreases |s|
  {
    assert s != [] ==> s[0] in t;
    assert t != [] ==> t[0] in s;
    if s != [] && t != [] {
      SameHead(s, t);
      assert s == [s[0]] + s[1..] && t == [t[0]] + t[1..];
      forall x ensures x in s[1..] <==> x in t[1..] {
        NotInTail(s);
        NotInTail(t);
        assert x in s <==> x == s[0] || x in s[1..];
        assert x in t <==> x == t[0] || x in t[1..];
      }
      AscendingUnique(s[1..], t[1..]);
    }
  }

  lemma NotInTail(s: seq<string>)
    requires Ascending(s) && s != []
    ensures s[0] !in s[1..]
  {
    if s[0] in s[1..] {
      var i :| 0 <= i < |s| - 1 && s[1..][i] == s[0];
      AscendingHead(s, i + 1);
      CompareTextEqual(s[0], s[0]);
    }
  }

  lemma SameHead(s: seq<string>, t: seq<string>)
    requires Ascending(s) && Ascending(t) && s != [] && t != [] && forall x :: x in s <==> x in t
    ensures s[0] == t[0]
  {
    assert s[0] in s && t[0] in t;
    AscendingFirst(t, s[0]);
    AscendingFirst(s, t[0]);
    CompareReversed(s[0], t[0]);
  }

  predicate Distinct(s: seq<string>) {
    forall i, j :: 0 <= i < j < |s| ==> s[i] != s[j]
  }

  lemma {:induction false} DistinctCounts(s: seq<string>, x: string)
    requires Distinct(s)
    ensures multiset(s)[x] <= 1
    decreases |s|
  {
    if s != [] {
      DistinctCounts(s[1..], x);
      assert s == [s[0]] + s[1..];
      assert s[0] !in s[1..];
    }
  }

  lemma RepeatCounts(s: seq<string>, i: nat)
    requires i + 1 < |s| && s[i] == s[i + 1]
    ensures multiset(s)[s[i]] >= 2
  {
    assert s == s[..i] + [s[i], s[i + 1]] + s[i + 2..];
  }

  /** Texts that do not repeat are in strictly ascending order once sorted. */
  lemma SortDistinct(s: seq<string>)
    requires Distinct(s)
    ensures Ascending(Sort(s))
  {
    var r := Sort(s);
    forall i | 0 <= i < |r| - 1 ensures Less(r[i], r[i + 1]) {
      DistinctCounts(s, r[i]);
      if r[i] == r[i + 1] { RepeatCounts(r, i); }
      CompareTextEqual(r[i], r[i + 1]);
      CompareReversed(r[i], r[i + 1]);
      assert !Less(r[i + 1], r[i]);
    }
  }

  lemma SortMembers(s: seq<string>, x: string)
    ensures x in Sort(s) <==> x in s
  {
    assert x in s <==> multiset(s)[x] > 0;
    assert x in Sort(s) <==> multiset(Sort(s))[x] > 0;
  }
}
