/** Small facts about sequences. */
module Sequences {

  datatype Option<+T> = None | Some(value: T)

  lemma SliceSnoc<T>(s: seq<T>, i: nat, j: nat)
    requires i <= j < |s|
    ensures s[i..j + 1] == s[i..j] + [s[j]]
  {
  }

  lemma SliceJoin<T>(s: seq<T>, i: nat, j: nat, k: nat)
    requires i <= j <= k <= |s|
    ensures s[i..j] + s[j..k] == s[i..k]
  {
  }

  /** Two splits of one sequence at one place are the same. */
  lemma Cut<T>(a: seq<T>, x: seq<T>, b: seq<T>, y: seq<T>)
    requires a + x == b + y && |a| == |b|
    ensures a == b && x == y
  {
    var s := a + x;
    assert s[..|a|] == a && s[|a|..] == x && s[..|b|] == b && s[|b|..] == y;
  }

  lemma Assoc<T>(a: seq<T>, b: seq<T>, c: seq<T>)
    ensures (a + b) + c == a + (b + c)
  {
  }

  lemma SameFirst<T>(a: seq<T>, x: seq<T>, b: seq<T>, y: seq<T>)
    requires a + x == b + y && a != [] && b != []
    ensures a[0] == b[0]
  {
    assert (a + x)[0] == a[0] && (b + y)[0] == b[0];
  }
}
