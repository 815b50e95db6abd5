/** The work budget of one selection: 4 times the weight of the document plus 4096.
    The document is weighed only as far as the work spent requires, and every answer is
    the one that the whole weight gives. */
module Budgets {
  import opened JsonValues

  const BUDGET_FACTOR := 4
  const BUDGET_FLOOR := 4096

  /** The work a document of weight `w` allows. */
  function Allowed(w: int): int { BUDGET_FACTOR * w + BUDGET_FLOOR }

  // ---- Weight ----

  /** One for each value, plus the length of each string, key, and number text. */
  function Weight(v: Value): (w: nat)
    ensures w >= 1
    decreases v, 1
  {
    match v
    case Null => 1
    case Bool(_) => 1
    case Number(text) => 1 + |text|
    case Str(s) => 1 + |s|
    case List(elems) => 1 + WeightOfList(elems)
    case Object(members) => 1 + WeightOfMembers(members)
  }

  function WeightOfList(vs: seq<Value>): nat
    decreases vs, 0
  {
    if vs == [] then 0 else WeightOfList(vs[..|vs| - 1]) + Weight(vs[|vs| - 1])
  }

  function WeightOfMembers(ms: seq<Member>): nat
    decreases ms, 0
  {
    if ms == [] then 0
    else WeightOfMembers(ms[..|ms| - 1]) + |ms[|ms| - 1].key| + Weight(ms[|ms| - 1].value)
  }

  lemma WeightOfListStep(vs: seq<Value>, i: nat)
    requires i < |vs|
    ensures WeightOfList(vs[..i + 1]) == WeightOfList(vs[..i]) + Weight(vs[i])
  {
    assert vs[..i + 1][..i] == vs[..i];
  }

  lemma WeightOfMembersStep(ms: seq<Member>, i: nat)
    requires i < |ms|
    ensures WeightOfMembers(ms[..i + 1]) == WeightOfMembers(ms[..i]) + |ms[i].key| + Weight(ms[i].value)
  {
    assert ms[..i + 1][..i] == ms[..i];
  }

  lemma {:induction false} WeightOfListGrows(vs: seq<Value>, i: nat)
    requires i <= |vs|
    ensures WeightOfList(vs[..i]) <= WeightOfList(vs)
    decreases |vs| - i
  {
    if i == |vs| {
      assert vs[..i] == vs;
    } else {
      WeightOfListStep(vs, i);
      WeightOfListGrows(vs, i + 1);
    }
  }

  lemma {:induction false} WeightOfMembersGrows(ms: seq<Member>, i: nat)
    requires i <= |ms|
    ensures WeightOfMembers(ms[..i]) <= WeightOfMembers(ms)
    decreases |ms| - i
  {
    if i == |ms| {
      assert ms[..i] == ms;
    } else {
      WeightOfMembersStep(ms, i);
      WeightOfMembersGrows(ms, i + 1);
    }
  }

  /** The weight of `v` up to a limit: exact when it is within the limit, and otherwise
      a part of it above the limit. */
  method WeighUpTo(v: Value, limit: int) returns (w: nat)
    ensures w >= 1
    ensures Weight(v) <= limit ==> w == Weight(v)
    ensures Weight(v) > limit ==> limit < w <= Weight(v)
    decreases v
  {
    w := 1;
    match v
    case Null =>
    case Bool(_) =>
    case Number(text) => w := w + |text|;
    case Str(s) => w := w + |s|;
    case List(elems) =>
      var i := 0;
      while i < |elems|
        invariant i <= |elems|
        invariant 1 <= w <= 1 + WeightOfList(elems[..i])
        invariant w <= limit ==> w == 1 + WeightOfList(elems[..i])
        decreases |elems| - i
      {
        if w > limit { break; }
        var we := WeighUpTo(elems[i], limit - w);
        w := w + we;
        WeightOfListStep(elems, i);
        i := i + 1;
      }
      WeightOfListGrows(elems, i);
      assert elems[..|elems|] == elems;
    case Object(members) =>
      var i := 0;
      while i < |members|
        invariant i <= |members|
        invariant 1 <= w <= 1 + WeightOfMembers(members[..i])
        invariant w <= limit ==> w == 1 + WeightOfMembers(members[..i])
        decreases |members| - i
      {
        if w > limit { break; }
        var wm := WeighUpTo(members[i].value, limit - w);
        w := w + |members[i].key| + wm;
        WeightOfMembersStep(members, i);
        i := i + 1;
      }
      WeightOfMembersGrows(members, i);
      assert members[..|members|] == members;
  }

  // ---- The budget ----

  class Budget {
    const doc: Value
    var docWeight: nat
    var weighed: bool
    var spent: nat

    /** `docWeight` is the weight of the document once `weighed`, and a lower bound before. */
    ghost predicate Valid()
      reads this
    {
      docWeight <= Weight(doc) && (weighed ==> docWeight == Weight(doc))
    }

    /** Nothing has been refused so far. */
    ghost predicate Open()
      reads this
    {
      Valid() && spent <= Allowed(docWeight)
    }

    constructor (doc: Value)
      ensures Open() && this.doc == doc && spent == 0
    {
      this.doc := doc;
      docWeight, weighed, spent := 0, false, 0;
    }

    /** Whether the whole document admits `work`. */
    method Admits(work: nat) returns (ok: bool)
      requires Valid()
      modifies this`docWeight, this`weighed
      ensures Valid() && docWeight >= old(docWeight)
      ensures ok <==> work <= Allowed(Weight(doc))
      ensures ok ==> work <= Allowed(docWeight)
    {
      while work > Allowed(docWeight)
        invariant Valid() && docWeight >= old(docWeight)
        decreases !weighed, Weight(doc) - docWeight
      {
        if weighed { return false; }
        var need := (work - BUDGET_FLOOR + BUDGET_FACTOR - 1) / BUDGET_FACTOR;
        var bound := if need >= 2 * docWeight then need else 2 * docWeight;
        var w := WeighUpTo(doc, bound);
        docWeight, weighed := w, w <= bound;
      }
      ok := true;
    }

    method Charge(n: nat) returns (ok: bool)
      requires Open()
      modifies this
      ensures Valid() && spent == old(spent) + n
      ensures ok <==> spent <= Allowed(Weight(doc))
      ensures ok ==> Open()
    {
      spent := spent + n;
      ok := Admits(spent);
    }

    /** Charges the weight of `v`, reading no more of it than the budget has left. */
    method ChargeWeight(v: Value) returns (ok: bool)
      requires Open()
      modifies this
      ensures Valid()
      ensures ok <==> old(spent) + Weight(v) <= Allowed(Weight(doc))
      ensures ok ==> Open() && spent == old(spent) + Weight(v)
      ensures !ok ==> spent > Allowed(Weight(doc))
    {
      while true
        invariant Open() && spent == old(spent)
        decreases Weight(doc) - docWeight
      {
        var left := Allowed(docWeight) - spent;
        var w := WeighUpTo(v, left);
        if w <= left {
          spent := spent + w;
          return true;
        }
        var admitted := Admits(spent + w);
        if !admitted {
          spent := spent + w;
          return false;
        }
      }
    }
  }
}
