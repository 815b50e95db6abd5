/** Selection by a compiled path.

    `Outcome` evaluates a path with no budget and counts its work; `Select` runs the
    same path step by step against a `Budget`, and is proved to answer `TooLarge`
    exactly when that count exceeds what the document allows, and the budget-free
    result otherwise.  `numeric` stands for min, max, sum, and avg over number texts. */
module JsonPaths {
  import opened Sequences
  import opened Numerals
  import opened JsonValues
  import opened Budgets

  datatype Step =
    | Key(key: string)
    | Deep(key: string)
    | Star
    | Filter(keys: seq<string>, test: Value -> bool)
    | Index(index: int)
    | IndexList(indexes: seq<int>)
    | Slice(lo: Option<int>, hi: Option<int>)
    | RootBracket
    | Function(name: string)

  datatype Result =
    | One(value: Value)
    | Many(values: seq<Value>)
    | Missing
    | NullParent
    | IndexOutOfBounds
    | Bracket
    | TooLarge

  type Numeric = (string, seq<string>) -> string

  // ---- What each step reads and selects ----

  function Values(ms: seq<Member>): (vs: seq<Value>)
    ensures |vs| == |ms| && forall i :: 0 <= i < |ms| ==> vs[i] == ms[i].value
  {
    seq(|ms|, i requires 0 <= i < |ms| => ms[i].value)
  }

  /** The members named `key` at any depth, an object's own before those inside it. */
  function DeepMembers(v: Value, key: string): seq<Value>
    decreases v, 1
  {
    match v
    case Object(members) =>
      (match Get(members, key) case Some(m) => [m] case None => []) + DeepInMembers(members, key)
    case List(elems) => DeepInList(elems, key)
    case _ => []
  }

  function DeepInMembers(ms: seq<Member>, key: string): seq<Value>
    decreases ms, 0
  {
    if ms == [] then [] else DeepInMembers(ms[..|ms| - 1], key) + DeepMembers(ms[|ms| - 1].value, key)
  }

  function DeepInList(vs: seq<Value>, key: string): seq<Value>
    decreases vs, 0
  {
    if vs == [] then [] else DeepInList(vs[..|vs| - 1], key) + DeepMembers(vs[|vs| - 1], key)
  }

  /** The number of values in `v`, itself included. */
  function Size(v: Value): (n: nat)
    ensures n >= 1
    decreases v, 1
  {
    match v
    case Object(members) => 1 + SizeOfMembers(members)
    case List(elems) => 1 + SizeOfList(elems)
    case _ => 1
  }

  function SizeOfMembers(ms: seq<Member>): nat
    decreases ms, 0
  {
    if ms == [] then 0 else SizeOfMembers(ms[..|ms| - 1]) + Size(ms[|ms| - 1].value)
  }

  function SizeOfList(vs: seq<Value>): nat
    decreases vs, 0
  {
    if vs == [] then 0 else SizeOfList(vs[..|vs| - 1]) + Size(vs[|vs| - 1])
  }

  /** A filter over a list tests its elements, and over an object the object. */
  function Tested(v: Value): Option<seq<Value>> {
    match v
    case List(elems) => Some(elems)
    case Object(_) => Some([v])
    case _ => None
  }

  /** What a filter reads of `e` under `key`; the empty key is `e` itself. */
  function ReadMember(e: Value, key: string): Option<Value> {
    if key == "" then Some(e) else if e.Object? then Get(e.members, key) else None
  }

  /** A member that is missing still costs the look. */
  function ReadWeight(e: Value, key: string): nat {
    match ReadMember(e, key) case Some(v) => Weight(v) case None => 1
  }

  function ReadsWeight(e: Value, keys: seq<string>): nat {
    if keys == [] then 0 else ReadsWeight(e, keys[..|keys| - 1]) + ReadWeight(e, keys[|keys| - 1])
  }

  function TestsWeight(es: seq<Value>, keys: seq<string>): nat {
    if es == [] then 0 else TestsWeight(es[..|es| - 1], keys) + ReadsWeight(es[|es| - 1], keys)
  }

  function Passing(es: seq<Value>, test: Value -> bool): seq<Value> {
    if es == [] then [] else
    Passing(es[..|es| - 1], test) + (if test(es[|es| - 1]) then [es[|es| - 1]] else [])
  }

  predicate InList(i: int, n: int) { -n <= i < n }

  /** A negative index counts from the end. */
  function At(list: seq<Value>, i: int): Value
    requires InList(i, |list|)
  {
    list[(i + |list|) % |list|]
  }

  function Picked(list: seq<Value>, indexes: seq<int>): seq<Value> {
    if indexes == [] then [] else
    var i := indexes[|indexes| - 1];
    Picked(list, indexes[..|indexes| - 1]) + (if InList(i, |list|) then [At(list, i)] else [])
  }

  function Clamp(bound: Option<int>, n: nat, default: nat): (r: nat)
    requires default <= n
    ensures r <= n
  {
    match bound
    case None => default
    case Some(b) =>
      var i := if b < 0 then b + n else b;
      if i < 0 then 0 else if i > n then n else i
  }

  function SliceOf(list: seq<Value>, lo: Option<int>, hi: Option<int>): seq<Value> {
    var a, b := Clamp(lo, |list|, 0), Clamp(hi, |list|, |list|);
    if a >= b then [] else list[a..b]
  }

  // ---- One step over one value ----

  /** A step over a value ends the selection or selects values. */
  datatype Visit = Halt(result: Result) | Emit(values: seq<Value>)

  /** The step that selects several values of each it visits. */
  predicate Spreads(s: Step) {
    s.Deep? || s.Star? || s.Filter? || s.IndexList? || s.Slice?
  }

  predicate Walks(s: Step) { !s.RootBracket? && !s.Function? }

  function VisitOf(s: Step, v: Value, many: bool, first: bool): Visit
    requires Walks(s)
  {
    match s
    case Deep(key) => Emit(DeepMembers(v, key))
    case Key(key) =>
      if v.Object? && Get(v.members, key).Some? then Emit([Get(v.members, key).value])
      else if many then Emit([])
      else if first then Halt(Missing)
      else if v.Null? || (v.Object? && v.members == []) then Halt(NullParent)
      else Halt(Missing)
    case Star =>
      (match v
       case List(elems) => Emit(elems)
       case Object(members) => Emit(Values(members))
       case _ => Emit([]))
    case Filter(_, test) =>
      (match Tested(v)
       case Some(es) => Emit(Passing(es, test))
       case None => if many then Emit([]) else Halt(Missing))
    case IndexList(indexes) => if v.List? then Emit(Picked(v.elems, indexes)) else if many then Emit([]) else Halt(Missing)
    case Slice(lo, hi) => if v.List? then Emit(SliceOf(v.elems, lo, hi)) else if many then Emit([]) else Halt(Missing)
    case Index(i) =>
      if v.List? && InList(i, |v.elems|) then Emit([At(v.elems, i)])
      else if many then Emit([])
      else if v.List? then Halt(IndexOutOfBounds)
      else Halt(Missing)
  }

  /** The work of a step over a value. */
  function VisitCost(s: Step, v: Value): nat {
    match s
    case Deep(_) => Size(v)
    case Star => (match v case List(elems) => |elems| case Object(members) => |members| case _ => 0)
    case Filter(keys, _) => (match Tested(v) case Some(es) => TestsWeight(es, keys) case None => 0)
    case IndexList(indexes) => if v.List? then |indexes| else 0
    case Slice(_, _) => if v.List? then |v.elems| else 0
    case _ => 0
  }

  // ---- One step over the frontier ----

  function Sweep(s: Step, cur: seq<Value>, many: bool, first: bool): Visit
    requires Walks(s)
  {
    if cur == [] then Emit([]) else
    match Sweep(s, cur[..|cur| - 1], many, first)
    case Halt(r) => Halt(r)
    case Emit(vs) =>
      match VisitOf(s, cur[|cur| - 1], many, first)
      case Halt(r) => Halt(r)
      case Emit(ws) => Emit(vs + ws)
  }

  /** A step that ends the selection pays for the values up to the one it ends at. */
  function SweepCost(s: Step, cur: seq<Value>, many: bool, first: bool): nat
    requires Walks(s)
  {
    if cur == [] then 0 else
    SweepCost(s, cur[..|cur| - 1], many, first)
    + (if Sweep(s, cur[..|cur| - 1], many, first).Halt? then 0 else VisitCost(s, cur[|cur| - 1]))
  }

  // ---- Functions ----

  datatype Applied = Computed(value: Value) | Empty | Thrown

  /** The texts of the numbers of a list. */
  function NumberTexts(vs: seq<Value>): seq<string> {
    if vs == [] then [] else
    NumberTexts(vs[..|vs| - 1]) + (if vs[|vs| - 1].Number? then [vs[|vs| - 1].text] else [])
  }

  function JoinKeys(ms: seq<Member>): string {
    if ms == [] then "" else if |ms| == 1 then ms[0].key
    else JoinKeys(ms[..|ms| - 1]) + ", " + ms[|ms| - 1].key
  }

  function Apply(numeric: Numeric, name: string, x: Value): Applied {
    if name == "length" then
      (match x
       case List(elems) => Computed(Number(FormatNat(|elems|)))
       case Object(members) => Computed(Number(FormatNat(|members|)))
       case _ => Computed(Null))
    else if name == "keys" then
      if x.Object? then Computed(Str("[" + JoinKeys(x.members) + "]")) else Computed(Null)
    else if !x.List? then Thrown
    else if name == "first" || name == "last" then
      if x.elems == [] then Empty
      else Computed(if name == "first" then x.elems[0] else x.elems[|x.elems| - 1])
    else if NumberTexts(x.elems) == [] then Thrown
    else Computed(Number(numeric(name, NumberTexts(x.elems))))
  }

  /** The results for each value; a value with none is dropped, and one that throws
      leaves the path with nothing. */
  function ApplyAll(numeric: Numeric, name: string, cur: seq<Value>): Option<seq<Value>> {
    if cur == [] then Some([]) else
    match ApplyAll(numeric, name, cur[..|cur| - 1])
    case None => None
    case Some(vs) =>
      match Apply(numeric, name, cur[|cur| - 1])
      case Computed(v) => Some(vs + [v])
      case Empty => Some(vs)
      case Thrown => None
  }

  function FunctionResult(numeric: Numeric, name: string, cur: seq<Value>, many: bool): Result
    requires !many ==> |cur| == 1
  {
    if many then
      (match ApplyAll(numeric, name, cur) case Some(vs) => Many(vs) case None => Missing)
    else
      (match Apply(numeric, name, cur[0]) case Computed(v) => One(v) case _ => Missing)
  }

  function InputOfList(vs: seq<Value>): nat {
    if vs == [] then 0 else
    InputOfList(vs[..|vs| - 1]) + 1 + (if vs[|vs| - 1].Number? then |vs[|vs| - 1].text| else 0)
  }

  function InputOfMembers(ms: seq<Member>): nat {
    if ms == [] then 0 else InputOfMembers(ms[..|ms| - 1]) + 1 + |ms[|ms| - 1].key|
  }

  /** The work of a function over `v`. */
  function InputSize(v: Value): nat {
    match v
    case List(elems) => 1 + InputOfList(elems)
    case Object(members) => 1 + InputOfMembers(members)
    case _ => 1
  }

  function InputSizes(vs: seq<Value>): nat {
    if vs == [] then 0 else InputSizes(vs[..|vs| - 1]) + InputSize(vs[|vs| - 1])
  }

  // ---- The whole path, with no budget ----

  /** While one value is selected, a step that does not spread selects one value. */
  lemma SweepOfOne(s: Step, cur: seq<Value>, first: bool)
    requires Walks(s)
    ensures !Spreads(s) && |cur| == 1 && Sweep(s, cur, false, first).Emit? ==> |Sweep(s, cur, false, first).values| == 1
  {
    if |cur| == 1 { assert cur[..0] == []; }
  }

  datatype Outcome = Outcome(cost: nat, result: Result)

  /** The work and the result of the remaining steps from the frontier `cur`. */
  function Evaluate(numeric: Numeric, steps: seq<Step>, pos: nat, cur: seq<Value>, many: bool): Outcome
    requires pos <= |steps| && (!many ==> |cur| == 1)
    decreases |steps| - pos
  {
    if pos == |steps| then
      if many then Outcome(WeightOfList(cur), Many(cur)) else Outcome(0, One(cur[0]))
    else
      var s := steps[pos];
      if s.Function? then Outcome(InputSizes(cur), FunctionResult(numeric, s.name, cur, many))
      else if s.RootBracket? then Outcome(0, Bracket)
      else
        var cost := SweepCost(s, cur, many, pos == 0);
        match Sweep(s, cur, many, pos == 0)
        case Halt(r) => Outcome(cost, r)
        case Emit(next) =>
          SweepOfOne(s, cur, pos == 0);
          var rest := Evaluate(numeric, steps, pos + 1, next, many || Spreads(s));
          Outcome(cost + rest.cost, rest.result)
  }

  /** The whole path over a document; a null document selects nothing, unless the path
      never reads it. */
  function EvaluatePath(numeric: Numeric, steps: seq<Step>, doc: Value): Outcome {
    if doc.Null? && (steps == [] || !steps[0].RootBracket?) then Outcome(0, Missing)
    else Evaluate(numeric, steps, 0, [doc], false)
  }

  // ---- Prefixes: what the loops have done so far ----

  lemma {:induction false} SizeOfListGrows(vs: seq<Value>, i: nat)
    requires i <= |vs|
    ensures SizeOfList(vs[..i]) <= SizeOfList(vs)
    decreases |vs| - i
  {
    if i == |vs| {
      assert vs[..i] == vs;
    } else {
      assert vs[..i + 1][..i] == vs[..i];
      SizeOfListGrows(vs, i + 1);
    }
  }

  lemma {:induction false} SizeOfMembersGrows(ms: seq<Member>, i: nat)
    requires i <= |ms|
    ensures SizeOfMembers(ms[..i]) <= SizeOfMembers(ms)
    decreases |ms| - i
  {
    if i == |ms| {
      assert ms[..i] == ms;
    } else {
      assert ms[..i + 1][..i] == ms[..i];
      SizeOfMembersGrows(ms, i + 1);
    }
  }

  lemma {:induction false} ReadsWeightGrows(e: Value, keys: seq<string>, i: nat)
    requires i <= |keys|
    ensures ReadsWeight(e, keys[..i]) <= ReadsWeight(e, keys)
    decreases |keys| - i
  {
    if i == |keys| {
      assert keys[..i] == keys;
    } else {
      assert keys[..i + 1][..i] == keys[..i];
      ReadsWeightGrows(e, keys, i + 1);
    }
  }

  lemma {:induction false} TestsWeightGrows(es: seq<Value>, keys: seq<string>, i: nat)
    requires i <= |es|
    ensures TestsWeight(es[..i], keys) <= TestsWeight(es, keys)
    decreases |es| - i
  {
    if i == |es| {
      assert es[..i] == es;
    } else {
      assert es[..i + 1][..i] == es[..i];
      TestsWeightGrows(es, keys, i + 1);
    }
  }

  lemma {:induction false} InputSizesGrows(vs: seq<Value>, i: nat)
    requires i <= |vs|
    ensures InputSizes(vs[..i]) <= InputSizes(vs)
    decreases |vs| - i
  {
    if i == |vs| {
      assert vs[..i] == vs;
    } else {
      assert vs[..i + 1][..i] == vs[..i];
      InputSizesGrows(vs, i + 1);
    }
  }

  /** A sweep that has ended stays as it is, and a sweep never gets cheaper. */
  lemma {:induction false} SweepPrefix(s: Step, cur: seq<Value>, many: bool, first: bool, i: nat)
    requires Walks(s) && i <= |cur|
    ensures SweepCost(s, cur[..i], many, first) <= SweepCost(s, cur, many, first)
    ensures Sweep(s, cur[..i], many, first).Halt? ==>
              Sweep(s, cur, many, first) == Sweep(s, cur[..i], many, first)
              && SweepCost(s, cur, many, first) == SweepCost(s, cur[..i], many, first)
    decreases |cur| - i
  {
    if i == |cur| {
      assert cur[..i] == cur;
    } else {
      assert cur[..i + 1][..i] == cur[..i];
      SweepPrefix(s, cur, many, first, i + 1);
    }
  }

  /** The next value of a sweep that has not ended. */
  lemma SweepSnoc(s: Step, cur: seq<Value>, many: bool, first: bool, i: nat, vs: seq<Value>)
    requires Walks(s) && i < |cur| && Sweep(s, cur[..i], many, first) == Emit(vs)
    ensures SweepCost(s, cur[..i + 1], many, first) == SweepCost(s, cur[..i], many, first) + VisitCost(s, cur[i])
    ensures SweepCost(s, cur[..i + 1], many, first) <= SweepCost(s, cur, many, first)
    ensures match VisitOf(s, cur[i], many, first)
            case Halt(r) => Sweep(s, cur, many, first) == Halt(r) && SweepCost(s, cur, many, first) == SweepCost(s, cur[..i + 1], many, first)
            case Emit(ws) => Sweep(s, cur[..i + 1], many, first) == Emit(vs + ws)
  {
    assert cur[..i + 1][..i] == cur[..i];
    SweepPrefix(s, cur, many, first, i + 1);
  }

  // ---- The steps against a budget ----

  /** Appends the members named `key` under `v`, charging one for each value visited. */
  method Walk(v: Value, key: string, before: seq<Value>, b: Budget) returns (out: seq<Value>, ok: bool)
    requires b.Open()
    modifies b
    ensures b.Valid() && (ok <==> old(b.spent) + Size(v) <= Allowed(Weight(b.doc)))
    ensures ok ==> b.Open() && b.spent == old(b.spent) + Size(v) && out == before + DeepMembers(v, key)
    decreases v, 1
  {
    out := before;
    ok := b.Charge(1);
    if !ok { return; }
    match v
    case Object(members) =>
      var own := Get(members, key);
      if own.Some? { out := out + [own.value]; }
      out, ok := WalkMembers(members, key, out, b);
    case List(elems) =>
      out, ok := WalkList(elems, key, out, b);
    case _ =>
  }

  method WalkMembers(members: seq<Member>, key: string, before: seq<Value>, b: Budget) returns (out: seq<Value>, ok: bool)
    requires b.Open()
    modifies b
    ensures b.Valid() && (ok <==> old(b.spent) + SizeOfMembers(members) <= Allowed(Weight(b.doc)))
    ensures ok ==> b.Open() && b.spent == old(b.spent) + SizeOfMembers(members) && out == before + DeepInMembers(members, key)
    decreases members, 0
  {
    out := before;
    for i := 0 to |members|
      invariant b.Open() && b.spent == old(b.spent) + SizeOfMembers(members[..i])
      invariant out == before + DeepInMembers(members[..i], key)
    {
      assert members[..i + 1][..i] == members[..i];
      out, ok := Walk(members[i].value, key, out, b);
      if !ok { SizeOfMembersGrows(members, i + 1); return; }
    }
    assert members[..|members|] == members;
    ok := true;
  }

  method WalkList(elems: seq<Value>, key: string, before: seq<Value>, b: Budget) returns (out: seq<Value>, ok: bool)
    requires b.Open()
    modifies b
    ensures b.Valid() && (ok <==> old(b.spent) + SizeOfList(elems) <= Allowed(Weight(b.doc)))
    ensures ok ==> b.Open() && b.spent == old(b.spent) + SizeOfList(elems) && out == before + DeepInList(elems, key)
    decreases elems, 0
  {
    out := before;
    for i := 0 to |elems|
      invariant b.Open() && b.spent == old(b.spent) + SizeOfList(elems[..i])
      invariant out == before + DeepInList(elems[..i], key)
    {
      assert elems[..i + 1][..i] == elems[..i];
      out, ok := Walk(elems[i], key, out, b);
      if !ok { SizeOfListGrows(elems, i + 1); return; }
    }
    assert elems[..|elems|] == elems;
    ok := true;
  }

  /** Charges what a filter reads of `e`; a missing member weighs as much as null. */
  method ChargeReads(e: Value, keys: seq<string>, b: Budget) returns (ok: bool)
    requires b.Open()
    modifies b
    ensures b.Valid() && (ok <==> old(b.spent) + ReadsWeight(e, keys) <= Allowed(Weight(b.doc)))
    ensures ok ==> b.Open() && b.spent == old(b.spent) + ReadsWeight(e, keys)
  {
    for i := 0 to |keys|
      invariant b.Open() && b.spent == old(b.spent) + ReadsWeight(e, keys[..i])
    {
      assert keys[..i + 1][..i] == keys[..i];
      var m := ReadMember(e, keys[i]);
      ok := b.ChargeWeight(if m.Some? then m.value else Null);
      if !ok { ReadsWeightGrows(e, keys, i + 1); return; }
    }
    assert keys[..|keys|] == keys;
    ok := true;
  }

  /** Appends the elements that pass, charging the members the filter reads. */
  method FilterList(es: seq<Value>, keys: seq<string>, test: Value -> bool, before: seq<Value>, b: Budget)
      returns (out: seq<Value>, ok: bool)
    requires b.Open()
    modifies b
    ensures b.Valid() && (ok <==> old(b.spent) + TestsWeight(es, keys) <= Allowed(Weight(b.doc)))
    ensures ok ==> b.Open() && b.spent == old(b.spent) + TestsWeight(es, keys) && out == before + Passing(es, test)
  {
    out := before;
    for i := 0 to |es|
      invariant b.Open() && b.spent == old(b.spent) + TestsWeight(es[..i], keys)
      invariant out == before + Passing(es[..i], test)
    {
      assert es[..i + 1][..i] == es[..i];
      ok := ChargeReads(es[i], keys, b);
      if !ok { TestsWeightGrows(es, keys, i + 1); return; }
      if test(es[i]) { out := out + [es[i]]; }
    }
    assert es[..|es|] == es;
    ok := true;
  }

  method Pick(list: seq<Value>, indexes: seq<int>, before: seq<Value>) returns (out: seq<Value>)
    ensures out == before + Picked(list, indexes)
  {
    out := before;
    for j := 0 to |indexes|
      invariant out == before + Picked(list, indexes[..j])
    {
      assert indexes[..j + 1][..j] == indexes[..j];
      var i := indexes[j];
      if InList(i, |list|) { out := out + [At(list, i)]; }
    }
    assert indexes[..|indexes|] == indexes;
  }

  /** One step over one value: appends what it selects, or gives the result it ends with. */
  method VisitStep(s: Step, v: Value, many: bool, first: bool, before: seq<Value>, b: Budget)
      returns (out: seq<Value>, halt: Option<Result>, ok: bool)
    requires Walks(s) && b.Open()
    modifies b
    ensures b.Valid() && (ok <==> old(b.spent) + VisitCost(s, v) <= Allowed(Weight(b.doc)))
    ensures ok ==> b.Open() && b.spent == old(b.spent) + VisitCost(s, v)
    ensures ok ==> match VisitOf(s, v, many, first)
                   case Halt(r) => halt == Some(r)
                   case Emit(vs) => halt == None && out == before + vs
  {
    out, halt, ok := before, None, true;
    match s
    case Deep(key) =>
      out, ok := Walk(v, key, before, b);
    case Star =>
      match v {
        case List(elems) =>
          ok := b.Charge(|elems|);
          out := out + elems;
        case Object(members) =>
          ok := b.Charge(|members|);
          out := out + Values(members);
        case _ =>
      }
    case Filter(keys, test) =>
      var tested := Tested(v);
      if tested.Some? {
        out, ok := FilterList(tested.value, keys, test, before, b);
      } else if !many {
        halt := Some(Missing);
      }
    case IndexList(indexes) =>
      if v.List? {
        ok := b.Charge(|indexes|);
        out := Pick(v.elems, indexes, before);
      } else if !many {
        halt := Some(Missing);
      }
    case Slice(lo, hi) =>
      if v.List? {
        ok := b.Charge(|v.elems|);
        out := out + SliceOf(v.elems, lo, hi);
      } else if !many {
        halt := Some(Missing);
      }
    case Key(key) =>
      out, halt := SelectKey(v, key, many, first, before);
    case Index(i) =>
      if v.List? && InList(i, |v.elems|) {
        out := out + [At(v.elems, i)];
      } else if !many {
        halt := Some(if v.List? then IndexOutOfBounds else Missing);
      }
  }

  method SelectKey(v: Value, key: string, many: bool, first: bool, before: seq<Value>) returns (out: seq<Value>, halt: Option<Result>)
    ensures match VisitOf(Key(key), v, many, first)
            case Halt(r) => halt == Some(r)
            case Emit(vs) => halt == None && out == before + vs
  {
    out, halt := before, None;
    if v.Object? {
      var m := Get(v.members, key);
      if m.Some? { return before + [m.value], None; }
    }
    if many { return; }
    if first { return before, Some(Missing); }
    halt := Some(if v.Null? || (v.Object? && v.members == []) then NullParent else Missing);
  }

  /** One step over the frontier. */
  method SweepStep(s: Step, cur: seq<Value>, many: bool, first: bool, b: Budget)
      returns (next: seq<Value>, halt: Option<Result>, ok: bool)
    requires Walks(s) && b.Open()
    modifies b
    ensures b.Valid() && (ok <==> old(b.spent) + SweepCost(s, cur, many, first) <= Allowed(Weight(b.doc)))
    ensures ok ==> b.Open() && b.spent == old(b.spent) + SweepCost(s, cur, many, first)
    ensures ok ==> match Sweep(s, cur, many, first)
                   case Halt(r) => halt == Some(r)
                   case Emit(vs) => halt == None && next == vs
  {
    next, halt := [], None;
    for i := 0 to |cur|
      invariant b.Open() && b.spent == old(b.spent) + SweepCost(s, cur[..i], many, first)
      invariant halt == None && Sweep(s, cur[..i], many, first) == Emit(next)
    {
      SweepSnoc(s, cur, many, first, i, next);
      next, halt, ok := VisitStep(s, cur[i], many, first, next, b);
      if !ok || halt.Some? { return; }
    }
    assert cur[..|cur|] == cur;
    ok := true;
  }

  method ChargeInputs(cur: seq<Value>, b: Budget) returns (ok: bool)
    requires b.Open()
    modifies b
    ensures b.Valid() && (ok <==> old(b.spent) + InputSizes(cur) <= Allowed(Weight(b.doc)))
  {
    for i := 0 to |cur|
      invariant b.Open() && b.spent == old(b.spent) + InputSizes(cur[..i])
    {
      assert cur[..i + 1][..i] == cur[..i];
      ok := b.Charge(InputSize(cur[i]));
      if !ok { InputSizesGrows(cur, i + 1); return; }
    }
    assert cur[..|cur|] == cur;
    ok := true;
  }

  method ChargeSelection(cur: seq<Value>, b: Budget) returns (ok: bool)
    requires b.Open()
    modifies b
    ensures b.Valid() && (ok <==> old(b.spent) + WeightOfList(cur) <= Allowed(Weight(b.doc)))
  {
    for i := 0 to |cur|
      invariant b.Open() && b.spent == old(b.spent) + WeightOfList(cur[..i])
    {
      WeightOfListStep(cur, i);
      ok := b.ChargeWeight(cur[i]);
      if !ok { WeightOfListGrows(cur, i + 1); return; }
    }
    assert cur[..|cur|] == cur;
    ok := true;
  }

  /** The selection: too large exactly when the work of the budget-free evaluation
      exceeds what the document allows, and otherwise that evaluation's result. */
  method Select(numeric: Numeric, steps: seq<Step>, doc: Value) returns (r: Result)
    ensures var o := EvaluatePath(numeric, steps, doc);
            r == if o.cost > Allowed(Weight(doc)) then TooLarge else o.result
  {
    if doc.Null? && (steps == [] || !steps[0].RootBracket?) {
      return Missing;
    }
    var many, cur := false, [doc];
    var b := new Budget(doc);
    ghost var o := Evaluate(numeric, steps, 0, [doc], false);
    var pos := 0;
    while pos < |steps|
      invariant pos <= |steps| && b.Open() && b.doc == doc
      invariant !many ==> |cur| == 1
      invariant var rest := Evaluate(numeric, steps, pos, cur, many);
                o == Outcome(b.spent + rest.cost, rest.result)
    {
      var s := steps[pos];
      if s.Function? {
        var ok := ChargeInputs(cur, b);
        return if ok then FunctionResult(numeric, s.name, cur, many) else TooLarge;
      }
      if s.RootBracket? {
        return Bracket;
      }
      var next, halt, ok := SweepStep(s, cur, many, pos == 0, b);
      if !ok { return TooLarge; }
      if halt.Some? { return halt.value; }
      SweepOfOne(s, cur, pos == 0);
      many, cur, pos := many || Spreads(s), next, pos + 1;
    }
    if many {
      var ok := ChargeSelection(cur, b);
      return if ok then Many(cur) else TooLarge;
    }
    return One(cur[0]);
  }
}
