/** Value records: what generated code reads of an operand instead of its JSON.

    The record of a list is built in two ways, from the list itself and from the records
    of its elements; both methods are proved against one description of the record. */
module LegacyRecords {
  import opened Sequences
  import opened TextOrder
  import opened Decimals
  import opened JsonValues
  import opened StructureKeys
  import opened LegacyTexts

  datatype State = VALUE | NULL_ELEMENT | NULL | EMPTY_COLL
  datatype Class = ClassString | ClassScalar | ClassList | ClassOther
  datatype JsonType = TypeString | TypeNumber | TypeBoolean | TypeArray | TypeObject

  datatype Record = Record(
    state: State, class_: Option<Class>, type_: Option<JsonType>,
    key: Option<string>, caseKey: Option<string>, keys: seq<string>,
    structure: Option<string>, number: Option<Decimal>, elements: seq<Record>)

  /** A record that carries no value. */
  function Bare(state: State): Record { Record(state, None, None, None, None, [], None, None, []) }

  datatype Env = Env(tables: Tables, cases: Cases)

  // ---- What the record of a value is ----

  function ScalarRecord(env: Env, type_: JsonType, class_: Class, text: string): Record {
    var k := Fold(env.cases, text);
    Record(VALUE, Some(class_), Some(type_), Some(k), Some(text), [k], None, env.tables.parse(text), [])
  }

  predicate IsScalar(v: Value) { v.Str? || v.Number? || v.Bool? }

  function ListState(es: seq<Value>): State { if Null in es then NULL_ELEMENT else VALUE }

  predicate AllScalar(es: seq<Value>) { forall i :: 0 <= i < |es| ==> IsScalar(es[i]) }

  function ListClass(es: seq<Value>): Class { if AllScalar(es) then ClassList else ClassOther }

  /** The folded texts of the elements that are not null, in order. */
  function ListKeys(env: Env, es: seq<Value>): seq<string> {
    if es == [] then [] else
    var e := es[|es| - 1];
    ListKeys(env, es[..|es| - 1]) + (if e.Null? then [] else [Fold(env.cases, JavaText(env.tables, e))])
  }

  function ListRecordOf(env: Env, es: seq<Value>, structure: string): Record {
    var ck := JavaText(env.tables, List(es));
    Record(ListState(es), Some(ListClass(es)), Some(TypeArray), Some(Fold(env.cases, ck)), Some(ck),
           ListKeys(env, es), Some(structure), None, [])
  }

  /** The record of a value as an element, which has no element records of its own. */
  function ElementRecord(env: Env, v: Value): Record {
    match v
    case Null => Bare(NULL)
    case Str(s) => ScalarRecord(env, TypeString, ClassString, s)
    case Number(n) => ScalarRecord(env, TypeNumber, ClassScalar, NumberText(env.tables, n))
    case Bool(_) => ScalarRecord(env, TypeBoolean, ClassScalar, JavaText(env.tables, v))
    case List(es) => if es == [] then Bare(EMPTY_COLL) else ListRecordOf(env, es, Key(env.tables, v))
    case Object(_) =>
      var ck := JavaText(env.tables, v);
      var k := Fold(env.cases, ck);
      Record(VALUE, Some(ClassOther), Some(TypeObject), Some(k), Some(ck), [k], Some(Key(env.tables, v)), None, [])
  }

  function ElementRecords(env: Env, es: seq<Value>): (rs: seq<Record>)
    ensures |rs| == |es| && forall i :: 0 <= i < |es| ==> rs[i] == ElementRecord(env, es[i])
  {
    seq(|es|, i requires 0 <= i < |es| => ElementRecord(env, es[i]))
  }

  function ElementKeys(t: Tables, es: seq<Value>): (ks: seq<string>)
    ensures |ks| == |es| && forall i :: 0 <= i < |es| ==> ks[i] == Key(t, es[i])
  {
    seq(|es|, i requires 0 <= i < |es| => Key(t, es[i]))
  }

  /** The keys joined by commas. */
  function Join(ks: seq<string>): string {
    if ks == [] then "" else if |ks| == 1 then ks[0] else ks[0] + "," + Join(ks[1..])
  }

  /** The key of a list read as a set: its element keys sorted, without repeats. */
  function SetKey(t: Tables, es: seq<Value>): string {
    "[" + Join(Compact(Sort(ElementKeys(t, es)))) + "]"
  }

  /** The record of a value as an operand. */
  function RecordOf(env: Env, v: Value): Record {
    if v.List? && v.elems != [] then
      ListRecordOf(env, v.elems, SetKey(env.tables, v.elems)).(elements := ElementRecords(env, v.elems))
    else ElementRecord(env, v)
  }

  // ---- The two ways to build the record of a list ----

  /** The state and class of a list after one more element, and whether that is null. */
  method Classify(state: State, class_: Class, e: Value, ghost es: seq<Value>) returns (state': State, class': Class, isNull: bool)
    requires state == ListState(es) && class_ == ListClass(es)
    ensures state' == ListState(es + [e]) && class' == ListClass(es + [e]) && isNull == e.Null?
  {
    state', class', isNull := state, class_, false;
    assert (es + [e])[..|es|] == es;
    if e.Null? {
      state', class', isNull := NULL_ELEMENT, ClassOther, true;
      assert (es + [e])[|es|] == Null;
    } else if !IsScalar(e) {
      class' := ClassOther;
      assert !IsScalar((es + [e])[|es|]);
    } else {
      assert AllScalar(es + [e]) ==> AllScalar(es);
      assert forall i :: 0 <= i < |es| ==> (es + [e])[i] == es[i];
    }
  }

  lemma ListKeysStep(env: Env, es: seq<Value>, i: nat)
    requires i < |es|
    ensures ListKeys(env, es[..i + 1])
         == ListKeys(env, es[..i]) + (if es[i].Null? then [] else [Fold(env.cases, JavaText(env.tables, es[i]))])
  {
    assert es[..i + 1][..i] == es[..i];
  }

  /** Reads the list directly, as an element of another. */
  method ListDirect(env: Env, es: seq<Value>) returns (r: Record)
    requires AsciiFolds(env.cases) && es != []
    ensures r == ElementRecord(env, List(es))
  {
    var ck := JavaText(env.tables, List(es));
    var k := FoldText(env.cases, ck);
    var state, class_, keys := VALUE, ClassList, [];
    for i := 0 to |es|
      invariant state == ListState(es[..i]) && class_ == ListClass(es[..i]) && keys == ListKeys(env, es[..i])
    {
      var isNull;
      state, class_, isNull := Classify(state, class_, es[i], es[..i]);
      assert es[..i] + [es[i]] == es[..i + 1];
      ListKeysStep(env, es, i);
      if !isNull {
        var ek := FoldText(env.cases, JavaText(env.tables, es[i]));
        keys := keys + [ek];
      }
    }
    assert es[..|es|] == es;
    r := Record(state, Some(class_), Some(TypeArray), Some(k), Some(ck), keys, Some(Key(env.tables, List(es))), None, []);
  }

  /** The text of an element, folded or not, from its record where that holds it. */
  lemma ElementTexts(env: Env, e: Value)
    ensures var r := ElementRecord(env, e);
            && (r.key.Some? <==> r.caseKey.Some?)
            && (r.caseKey.Some? ==> r.caseKey.value == JavaText(env.tables, e) && r.key.value == Fold(env.cases, JavaText(env.tables, e)))
            && (r.structure.Some? ==> r.structure.value == Key(env.tables, e))
  {
  }

  /** The case key written so far, and its folded form. */
  lemma FoldStep(env: Env, es: seq<Value>, i: nat, ck: string, k: string)
    requires AsciiFolds(env.cases) && i < |es|
    requires ck == "[" + TextItems(env.tables, es[..i]) && k == Fold(env.cases, ck)
    ensures var sep := if i > 0 then ", " else "";
            var text := JavaText(env.tables, es[i]);
            && ck + sep + text == "[" + TextItems(env.tables, es[..i + 1])
            && k + sep + Fold(env.cases, text) == Fold(env.cases, ck + sep + text)
  {
    var sep := if i > 0 then ", " else "";
    TextItemsStep(env.tables, es, i);
    Assoc("[", TextItems(env.tables, es[..i]), sep);
    Assoc("[", TextItems(env.tables, es[..i]) + sep, JavaText(env.tables, es[i]));
    FoldPlain(env.cases, sep);
    FoldConcat(env.cases, ck, sep);
    FoldConcat(env.cases, ck + sep, JavaText(env.tables, es[i]));
  }

  lemma ElementsStep(env: Env, es: seq<Value>, e: Value)
    ensures ElementRecords(env, es + [e]) == ElementRecords(env, es) + [ElementRecord(env, e)]
    ensures ElementKeys(env.tables, es + [e]) == ElementKeys(env.tables, es) + [Key(env.tables, e)]
  {
  }

  /** The record of an element and, from it or from the element, its text, the text
      folded, and its structure key. */
  method ReadElement(env: Env, e: Value) returns (er: Record, text: string, folded: string, key: string)
    requires AsciiFolds(env.cases)
    ensures er == ElementRecord(env, e) && text == JavaText(env.tables, e)
    ensures folded == Fold(env.cases, text) && key == Key(env.tables, e)
    decreases e, 2
  {
    er := Of(env, e, false);
    ElementTexts(env, e);
    if er.key.Some? {
      text, folded := er.caseKey.value, er.key.value;
    } else {
      text := JavaText(env.tables, e);
      folded := FoldText(env.cases, text);
    }
    key := if er.structure.Some? then er.structure.value else Key(env.tables, e);
  }

  /** What the loop over the elements has filled so far. */
  datatype Parts = Parts(state: State, class_: Class, keys: seq<string>, elements: seq<Record>, elementKeys: seq<string>,
                         ck: string, k: string)

  predicate PartsOf(env: Env, es: seq<Value>, p: Parts) {
    && p.state == ListState(es) && p.class_ == ListClass(es) && p.keys == ListKeys(env, es)
    && p.elements == ElementRecords(env, es) && p.elementKeys == ElementKeys(env.tables, es)
    && p.ck == "[" + TextItems(env.tables, es) && p.k == Fold(env.cases, p.ck)
  }

  method AddElement(env: Env, e: Value, p: Parts, ghost es: seq<Value>) returns (q: Parts)
    requires AsciiFolds(env.cases) && PartsOf(env, es, p)
    ensures PartsOf(env, es + [e], q)
    decreases e, 3
  {
    var er, text, ek, key := ReadElement(env, e);
    var state, class_, isNull := Classify(p.state, p.class_, e, es);
    var sep := if |p.elements| > 0 then ", " else "";
    q := Parts(state, class_, if isNull then p.keys else p.keys + [ek], p.elements + [er], p.elementKeys + [key],
               p.ck + sep + text, p.k + sep + ek);
    ElementsStep(env, es, e);
    AddedTexts(env, es, e, p.ck, p.k);
    AddedKey(env, es, e);
  }

  lemma AddedTexts(env: Env, es: seq<Value>, e: Value, ck: string, k: string)
    requires AsciiFolds(env.cases) && ck == "[" + TextItems(env.tables, es) && k == Fold(env.cases, ck)
    ensures var sep := if |es| > 0 then ", " else "";
            var text := JavaText(env.tables, e);
            && ck + sep + text == "[" + TextItems(env.tables, es + [e])
            && k + sep + Fold(env.cases, text) == Fold(env.cases, ck + sep + text)
  {
    var all := es + [e];
    assert all[..|es|] == es && all[..|es| + 1] == all;
    FoldStep(env, all, |es|, ck, k);
  }

  lemma AddedKey(env: Env, es: seq<Value>, e: Value)
    ensures ListKeys(env, es + [e]) == ListKeys(env, es) + (if e.Null? then [] else [Fold(env.cases, JavaText(env.tables, e))])
  {
    assert (es + [e])[..|es|] == es;
  }

  /** Builds the record of a list from the records of its elements. */
  method ListWithElements(env: Env, es: seq<Value>) returns (r: Record)
    requires AsciiFolds(env.cases) && es != []
    ensures r == RecordOf(env, List(es))
    decreases List(es), 0
  {
    var p := Parts(VALUE, ClassList, [], [], [], "[", "[");
    FoldPlain(env.cases, "[");
    for i := 0 to |es|
      invariant PartsOf(env, es[..i], p)
    {
      assert es[..i] + [es[i]] == es[..i + 1];
      p := AddElement(env, es[i], p, es[..i]);
    }
    assert es[..|es|] == es;
    r := Record(p.state, Some(p.class_), Some(TypeArray), Some(p.k + "]"), Some(p.ck + "]"), p.keys,
                Some("[" + Join(Compact(Sort(p.elementKeys))) + "]"), None, p.elements);
    ClosedTexts(env, es, p);
  }

  lemma ClosedTexts(env: Env, es: seq<Value>, p: Parts)
    requires AsciiFolds(env.cases) && PartsOf(env, es, p)
    ensures p.ck + "]" == JavaText(env.tables, List(es)) && p.k + "]" == Fold(env.cases, p.ck + "]")
  {
    FoldPlain(env.cases, "]");
    FoldConcat(env.cases, p.ck, "]");
  }

  method Of(env: Env, v: Value, elements: bool) returns (r: Record)
    requires AsciiFolds(env.cases)
    ensures r == if elements then RecordOf(env, v) else ElementRecord(env, v)
    decreases v, 1
  {
    match v
    case List(es) =>
      if es == [] {
        r := Bare(EMPTY_COLL);
      } else if elements {
        r := ListWithElements(env, es);
      } else {
        r := ListDirect(env, es);
      }
    case _ => r := ElementRecord(env, v);
  }
}
