/** What a selection within its budget is made of. */
module JsonPathProperties {
  import opened Sequences
  import opened JsonValues
  import opened Budgets
  import opened JsonPaths

  /** `v` is the document or a value somewhere inside it. */
  ghost predicate PartOf(v: Value, doc: Value)
    decreases doc
  {
    || v == doc
    || match doc
       case List(elems) => exists i :: 0 <= i < |elems| && PartOf(v, elems[i])
       case Object(members) => exists i :: 0 <= i < |members| && PartOf(v, members[i].value)
       case _ => false
  }

  ghost predicate AllParts(vs: seq<Value>, doc: Value) {
    forall i :: 0 <= i < |vs| ==> PartOf(vs[i], doc)
  }

  lemma {:induction false} PartOfPart(a: Value, b: Value, c: Value)
    requires PartOf(a, b) && PartOf(b, c)
    ensures PartOf(a, c)
    decreases c
  {
    if b != c {
      match c
      case List(elems) =>
        var i :| 0 <= i < |elems| && PartOf(b, elems[i]);
        PartOfPart(a, b, elems[i]);
      case Object(members) =>
        var i :| 0 <= i < |members| && PartOf(b, members[i].value);
        PartOfPart(a, b, members[i].value);
    }
  }

  lemma AllPartsOfPart(vs: seq<Value>, b: Value, c: Value)
    requires AllParts(vs, b) && PartOf(b, c)
    ensures AllParts(vs, c)
  {
    forall i | 0 <= i < |vs| ensures PartOf(vs[i], c) { PartOfPart(vs[i], b, c); }
  }

  // ---- Each step selects parts of what it visits ----

  lemma {:induction false} DeepParts(v: Value, key: string)
    ensures AllParts(DeepMembers(v, key), v)
    decreases v, 1
  {
    match v
    case Object(members) => DeepPartsOfMembers(v, members, |members|, key); assert members[..|members|] == members;
    case List(elems) => DeepPartsOfList(v, elems, |elems|, key); assert elems[..|elems|] == elems;
    case _ =>
  }

  lemma {:induction false} DeepPartsOfMembers(v: Value, members: seq<Member>, n: nat, key: string)
    requires v == Object(members) && n <= |members|
    ensures AllParts(DeepInMembers(members[..n], key), v)
    decreases v, 0, n
  {
    if n > 0 {
      DeepPartsOfMembers(v, members, n - 1, key);
      assert members[..n][..n - 1] == members[..n - 1];
      var m := members[n - 1].value;
      DeepParts(m, key);
      assert PartOf(m, m);
      AllPartsOfPart(DeepMembers(m, key), m, v);
    }
  }

  lemma {:induction false} DeepPartsOfList(v: Value, elems: seq<Value>, n: nat, key: string)
    requires v == List(elems) && n <= |elems|
    ensures AllParts(DeepInList(elems[..n], key), v)
    decreases v, 0, n
  {
    if n > 0 {
      DeepPartsOfList(v, elems, n - 1, key);
      assert elems[..n][..n - 1] == elems[..n - 1];
      DeepParts(elems[n - 1], key);
      assert PartOf(elems[n - 1], elems[n - 1]);
      AllPartsOfPart(DeepMembers(elems[n - 1], key), elems[n - 1], v);
    }
  }

  lemma {:induction false} PassingAmong(es: seq<Value>, test: Value -> bool)
    ensures forall x :: x in Passing(es, test) ==> x in es
    decreases |es|
  {
    if es != [] { PassingAmong(es[..|es| - 1], test); }
  }

  lemma {:induction false} PickedAmong(list: seq<Value>, indexes: seq<int>)
    ensures forall x :: x in Picked(list, indexes) ==> x in list
    decreases |indexes|
  {
    if indexes != [] { PickedAmong(list, indexes[..|indexes| - 1]); }
  }

  lemma AmongElements(vs: seq<Value>, v: Value)
    requires v.List? && forall x :: x in vs ==> x in v.elems
    ensures AllParts(vs, v)
  {
    forall i | 0 <= i < |vs| ensures PartOf(vs[i], v) {
      assert vs[i] in vs;
      var j :| 0 <= j < |v.elems| && v.elems[j] == vs[i];
      assert PartOf(vs[i], v.elems[j]);
    }
  }

  lemma VisitParts(s: Step, v: Value, many: bool, first: bool)
    requires Walks(s) && VisitOf(s, v, many, first).Emit?
    ensures AllParts(VisitOf(s, v, many, first).values, v)
  {
    var vs := VisitOf(s, v, many, first).values;
    match s
    case Deep(key) => DeepParts(v, key);
    case Filter(_, test) =>
      if v.List? {
        PassingAmong(v.elems, test);
        AmongElements(vs, v);
      } else if v.Object? {
        PassingAmong([v], test);
        assert forall i :: 0 <= i < |vs| ==> vs[i] in vs;
      }
    case IndexList(indexes) =>
      if v.List? {
        PickedAmong(v.elems, indexes);
        AmongElements(vs, v);
      }
    case Star =>
      if v.List? {
        AmongElements(vs, v);
      } else if v.Object? {
        forall i | 0 <= i < |vs| ensures PartOf(vs[i], v) { assert PartOf(vs[i], v.members[i].value); }
      }
    case Key(key) =>
      if v.Object? && Get(v.members, key).Some? {
        var i :| 0 <= i < |v.members| && v.members[i] == Member(key, vs[0]);
        assert PartOf(vs[0], v.members[i].value);
      }
    case _ => if v.List? { AmongElements(vs, v); }
  }

  lemma {:induction false} SweepParts(s: Step, cur: seq<Value>, many: bool, first: bool, doc: Value)
    requires Walks(s) && Sweep(s, cur, many, first).Emit? && AllParts(cur, doc)
    ensures AllParts(Sweep(s, cur, many, first).values, doc)
    decreases |cur|
  {
    if cur != [] {
      var v := cur[|cur| - 1];
      SweepParts(s, cur[..|cur| - 1], many, first, doc);
      VisitParts(s, v, many, first);
      AllPartsOfPart(VisitOf(s, v, many, first).values, v, doc);
    }
  }

  // ---- The whole path ----

  predicate NoFunction(steps: seq<Step>) { forall i :: 0 <= i < |steps| ==> !steps[i].Function? }

  /** Every value selected is a part of the document, and several values together
      weigh at most `limit`. */
  ghost predicate SelectsWithin(r: Result, doc: Value, limit: int) {
    && (r.One? ==> PartOf(r.value, doc))
    && (r.Many? ==> AllParts(r.values, doc) && WeightOfList(r.values) <= limit)
  }

  lemma EvaluateEmits(numeric: Numeric, steps: seq<Step>, pos: nat, cur: seq<Value>, many: bool)
    requires pos < |steps| && (!many ==> |cur| == 1) && Walks(steps[pos]) && Sweep(steps[pos], cur, many, pos == 0).Emit?
    ensures var next := Sweep(steps[pos], cur, many, pos == 0).values;
            var more := many || Spreads(steps[pos]);
            && (!more ==> |next| == 1)
            && Evaluate(numeric, steps, pos, cur, many).result == Evaluate(numeric, steps, pos + 1, next, more).result
            && Evaluate(numeric, steps, pos, cur, many).cost >= Evaluate(numeric, steps, pos + 1, next, more).cost
  {
    SweepOfOne(steps[pos], cur, pos == 0);
  }

  lemma EvaluateHalts(numeric: Numeric, steps: seq<Step>, pos: nat, cur: seq<Value>, many: bool, doc: Value)
    requires pos < |steps| && (!many ==> |cur| == 1) && Walks(steps[pos]) && Sweep(steps[pos], cur, many, pos == 0).Halt?
    ensures var o := Evaluate(numeric, steps, pos, cur, many); SelectsWithin(o.result, doc, o.cost)
  {
    HaltSelectsNothing(steps[pos], cur, many, pos == 0);
  }

  lemma EvaluateEnds(numeric: Numeric, steps: seq<Step>, pos: nat, cur: seq<Value>, many: bool, doc: Value)
    requires pos <= |steps| && (!many ==> |cur| == 1) && AllParts(cur, doc) && (pos < |steps| ==> steps[pos].RootBracket?)
    ensures var o := Evaluate(numeric, steps, pos, cur, many); SelectsWithin(o.result, doc, o.cost)
  {
  }

  lemma {:induction false} EvaluateBounded(numeric: Numeric, steps: seq<Step>, pos: nat, cur: seq<Value>, many: bool, doc: Value)
    requires pos <= |steps| && (!many ==> |cur| == 1) && NoFunction(steps) && AllParts(cur, doc)
    ensures var o := Evaluate(numeric, steps, pos, cur, many); SelectsWithin(o.result, doc, o.cost)
    decreases |steps| - pos
  {
    if pos == |steps| || steps[pos].RootBracket? {
      EvaluateEnds(numeric, steps, pos, cur, many, doc);
    } else if Sweep(steps[pos], cur, many, pos == 0).Emit? {
      var next := Sweep(steps[pos], cur, many, pos == 0).values;
      SweepParts(steps[pos], cur, many, pos == 0, doc);
      EvaluateEmits(numeric, steps, pos, cur, many);
      EvaluateBounded(numeric, steps, pos + 1, next, many || Spreads(steps[pos]), doc);
    } else {
      EvaluateHalts(numeric, steps, pos, cur, many, doc);
    }
  }

  lemma {:induction false} HaltSelectsNothing(s: Step, cur: seq<Value>, many: bool, first: bool)
    requires Walks(s) && Sweep(s, cur, many, first).Halt?
    ensures Sweep(s, cur, many, first).result in {Missing, NullParent, IndexOutOfBounds}
    decreases |cur|
  {
    if Sweep(s, cur[..|cur| - 1], many, first).Halt? {
      HaltSelectsNothing(s, cur[..|cur| - 1], many, first);
    }
  }

  /** Without a function step, a selection within the budget holds parts of the document
      only, and several values together weigh no more than the budget. */
  lemma SelectionIsBounded(numeric: Numeric, steps: seq<Step>, doc: Value)
    requires NoFunction(steps) && EvaluatePath(numeric, steps, doc).cost <= Allowed(Weight(doc))
    ensures SelectsWithin(EvaluatePath(numeric, steps, doc).result, doc, Allowed(Weight(doc)))
  {
    if !(doc.Null? && (steps == [] || !steps[0].RootBracket?)) {
      assert PartOf(doc, doc);
      EvaluateBounded(numeric, steps, 0, [doc], false, doc);
    }
  }
}
