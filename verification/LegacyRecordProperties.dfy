/** What records promise: a list's key is the key of a set, and records hold the text of
    a value a fixed number of times, however deep it nests. */
module LegacyRecordProperties {
  import opened Sequences
  import opened TextOrder
  import opened DecimalTexts
  import opened JsonValues
  import opened StructureKeys
  import opened LegacyTexts
  import opened LegacyRecords

  // ---- The key of a set ----

  /** Every text is the key of a well-formed value. */
  ghost predicate AreKeys(t: Tables, ks: seq<string>) {
    forall i :: 0 <= i < |ks| ==> IsKey(t, ks[i])
  }

  ghost predicate IsKey(t: Tables, k: string) {
    exists v :: WellFormedValue(v) && Key(t, v) == k
  }

  /** The joined keys and the closing bracket. */
  function Closed(ks: seq<string>): string { Join(ks) + "]" }

  lemma ClosedSplits(ks: seq<string>)
    requires ks != []
    ensures Closed(ks) == ks[0] + (if |ks| == 1 then "]" else "," + Closed(ks[1..]))
  {
    if |ks| > 1 {
      Assoc(ks[0] + ",", Join(ks[1..]), "]");
      Assoc(ks[0], ",", Closed(ks[1..]));
    }
  }

  /** Two keys that start one text are one key. */
  lemma SameKey(uni: UnicodeDigits, t: Tables, k: string, x: string, l: string, y: string)
    requires Sound(uni, t) && IsKey(t, k) && IsKey(t, l) && k + x == l + y && Ends(x) && Ends(y)
    ensures k == l && x == y
  {
    var v :| WellFormedValue(v) && Key(t, v) == k;
    var w :| WellFormedValue(w) && Key(t, w) == l;
    KeyUnique(uni, t, v, x, w, y);
    KeyOfSame(t, v, w);
  }

  lemma {:induction false} ClosedUnique(uni: UnicodeDigits, t: Tables, ks: seq<string>, ls: seq<string>)
    requires Sound(uni, t) && AreKeys(t, ks) && AreKeys(t, ls) && ks != [] && ls != []
    requires Closed(ks) == Closed(ls)
    ensures ks == ls
    decreases |ks|
  {
    ClosedSplits(ks);
    ClosedSplits(ls);
    var x, y := if |ks| == 1 then "]" else "," + Closed(ks[1..]), if |ls| == 1 then "]" else "," + Closed(ls[1..]);
    assert IsKey(t, ks[0]) && IsKey(t, ls[0]);
    SameKey(uni, t, ks[0], x, ls[0], y);
    assert x[0] == y[0];
    if |ks| > 1 {
      Cut(",", Closed(ks[1..]), ",", Closed(ls[1..]));
      ClosedUnique(uni, t, ks[1..], ls[1..]);
    }
    assert ks == [ks[0]] + ks[1..] && ls == [ls[0]] + ls[1..];
  }

  function KeyList(t: Tables, es: seq<Value>): seq<string> { Compact(Sort(ElementKeys(t, es))) }

  lemma KeyListFacts(t: Tables, es: seq<Value>)
    requires forall i :: 0 <= i < |es| ==> WellFormedValue(es[i])
    ensures Ascending(KeyList(t, es)) && AreKeys(t, KeyList(t, es))
    ensures forall k :: k in KeyList(t, es) <==> k in ElementKeys(t, es)
    ensures es != [] ==> KeyList(t, es) != []
  {
    var all := ElementKeys(t, es);
    CompactAscending(Sort(all));
    forall k ensures k in KeyList(t, es) <==> k in all { SortMembers(all, k); }
    forall i | 0 <= i < |KeyList(t, es)| ensures IsKey(t, KeyList(t, es)[i]) {
      assert KeyList(t, es)[i] in all;
      var j :| 0 <= j < |all| && all[j] == KeyList(t, es)[i];
      assert WellFormedValue(es[j]) && Key(t, es[j]) == KeyList(t, es)[i];
    }
    if es != [] { assert all[0] in KeyList(t, es); }
  }

  ghost predicate Among(t: Tables, e: Value, fs: seq<Value>) {
    exists j :: 0 <= j < |fs| && SameStructure(t, e, fs[j])
  }

  ghost predicate AllAmong(t: Tables, es: seq<Value>, fs: seq<Value>) {
    forall i :: 0 <= i < |es| ==> Among(t, es[i], fs)
  }

  /** The elements of each list have counterparts of the same structure in the other. */
  ghost predicate SameSet(t: Tables, es: seq<Value>, fs: seq<Value>) {
    AllAmong(t, es, fs) && AllAmong(t, fs, es)
  }

  lemma AmongByKey(uni: UnicodeDigits, t: Tables, e: Value, fs: seq<Value>)
    requires Sound(uni, t) && WellFormedValue(e) && forall i :: 0 <= i < |fs| ==> WellFormedValue(fs[i])
    ensures Among(t, e, fs) <==> Key(t, e) in ElementKeys(t, fs)
  {
    if j :| 0 <= j < |fs| && SameStructure(t, e, fs[j]) {
      KeyIffSameStructure(uni, t, e, fs[j]);
      assert ElementKeys(t, fs)[j] == Key(t, e);
    }
    if j :| 0 <= j < |fs| && ElementKeys(t, fs)[j] == Key(t, e) {
      KeyIffSameStructure(uni, t, e, fs[j]);
    }
  }

  lemma AllAmongByKeys(uni: UnicodeDigits, t: Tables, es: seq<Value>, fs: seq<Value>)
    requires Sound(uni, t)
    requires forall i :: 0 <= i < |es| ==> WellFormedValue(es[i])
    requires forall i :: 0 <= i < |fs| ==> WellFormedValue(fs[i])
    ensures AllAmong(t, es, fs) <==> forall i :: 0 <= i < |es| ==> ElementKeys(t, es)[i] in ElementKeys(t, fs)
  {
    forall i | 0 <= i < |es| ensures Among(t, es[i], fs) <==> ElementKeys(t, es)[i] in ElementKeys(t, fs) {
      AmongByKey(uni, t, es[i], fs);
    }
  }

  /** Two lists have the same elements as sets exactly when they have the same element keys. */
  lemma SameSetByKeys(uni: UnicodeDigits, t: Tables, es: seq<Value>, fs: seq<Value>)
    requires Sound(uni, t)
    requires forall i :: 0 <= i < |es| ==> WellFormedValue(es[i])
    requires forall i :: 0 <= i < |fs| ==> WellFormedValue(fs[i])
    ensures SameSet(t, es, fs) <==> forall k :: k in ElementKeys(t, es) <==> k in ElementKeys(t, fs)
  {
    AllAmongByKeys(uni, t, es, fs);
    AllAmongByKeys(uni, t, fs, es);
    SameKeySets(ElementKeys(t, es), ElementKeys(t, fs));
  }

  lemma SameKeySets(ks: seq<string>, ls: seq<string>)
    ensures (forall k :: k in ks <==> k in ls) <==>
            (forall i :: 0 <= i < |ks| ==> ks[i] in ls) && (forall j :: 0 <= j < |ls| ==> ls[j] in ks)
  {
  }

  /** The structure keys of two lists that `Of` reads are equal exactly when the lists
      hold the same elements, whatever their order and repeats. */
  lemma SetKeyIffSameSet(uni: UnicodeDigits, t: Tables, es: seq<Value>, fs: seq<Value>)
    requires Sound(uni, t) && es != [] && fs != []
    requires forall i :: 0 <= i < |es| ==> WellFormedValue(es[i])
    requires forall i :: 0 <= i < |fs| ==> WellFormedValue(fs[i])
    ensures SetKey(t, es) == SetKey(t, fs) <==> SameSet(t, es, fs)
  {
    KeyListFacts(t, es);
    KeyListFacts(t, fs);
    SameSetByKeys(uni, t, es, fs);
    if SetKey(t, es) == SetKey(t, fs) {
      Assoc("[", Join(KeyList(t, es)), "]");
      Assoc("[", Join(KeyList(t, fs)), "]");
      Cut("[", Closed(KeyList(t, es)), "[", Closed(KeyList(t, fs)));
      ClosedUnique(uni, t, KeyList(t, es), KeyList(t, fs));
    }
    if SameSet(t, es, fs) {
      AscendingUnique(KeyList(t, es), KeyList(t, fs));
    }
  }

  // ---- How much text a record holds ----

  function Length(s: Option<string>): nat { if s.Some? then |s.value| else 0 }

  function TotalLength(ks: seq<string>): nat { if ks == [] then 0 else TotalLength(ks[..|ks| - 1]) + |ks[|ks| - 1]| }

  /** The texts of a record and of the records of its elements. */
  function Held(r: Record): nat
    decreases r, 1
  {
    Length(r.key) + Length(r.caseKey) + TotalLength(r.keys) + Length(r.structure) + HeldAll(r.elements)
  }

  function HeldAll(rs: seq<Record>): nat
    decreases rs, 0
  {
    if rs == [] then 0 else HeldAll(rs[..|rs| - 1]) + Held(rs[|rs| - 1])
  }

  function TextsLength(t: Tables, es: seq<Value>): nat {
    if es == [] then 0 else TextsLength(t, es[..|es| - 1]) + |JavaText(t, es[|es| - 1])|
  }

  /** The lengths of the keys, and one for what stands after each. */
  function JoinedLength(ks: seq<string>): nat {
    if ks == [] then 0 else |ks[0]| + 1 + JoinedLength(ks[1..])
  }

  lemma {:induction false} ItemsLength(t: Tables, es: seq<Value>)
    ensures TextsLength(t, es) <= |TextItems(t, es)|
    decreases |es|
  {
    if es != [] { ItemsLength(t, es[..|es| - 1]); }
  }

  lemma {:induction false} ListKeysLength(env: Env, es: seq<Value>)
    ensures TotalLength(ListKeys(env, es)) <= TextsLength(env.tables, es)
    decreases |es|
  {
    if es != [] {
      ListKeysLength(env, es[..|es| - 1]);
      var init, ks := ListKeys(env, es[..|es| - 1]), ListKeys(env, es);
      assert ks == init || ks[..|ks| - 1] == init;
    }
  }

  lemma {:induction false} InsertLength(x: string, s: seq<string>)
    requires Sorted(s)
    ensures JoinedLength(Insert(x, s)) == |x| + 1 + JoinedLength(s)
    decreases |s|
  {
    if s != [] {
      if Less(s[0], x) {
        InsertLength(x, s[1..]);
      } else {
        assert ([x] + s)[1..] == s;
      }
    }
  }

  lemma {:induction false} SortLength(s: seq<string>)
    ensures JoinedLength(Sort(s)) == JoinedLength(s)
    decreases |s|
  {
    if s != [] {
      SortLength(s[1..]);
      InsertLength(s[0], Sort(s[1..]));
    }
  }

  lemma {:induction false} CompactLength(s: seq<string>)
    ensures JoinedLength(Compact(s)) <= JoinedLength(s)
    decreases |s|
  {
    if |s| > 1 { CompactLength(s[1..]); }
  }

  lemma {:induction false} JoinLength(ks: seq<string>)
    requires ks != []
    ensures |Join(ks)| + 1 == JoinedLength(ks)
    decreases |ks|
  {
    if |ks| > 1 { JoinLength(ks[1..]); }
  }

  lemma {:induction false} ListTailLength(t: Tables, es: seq<Value>)
    ensures |ListTail(t, es)| == 1 + JoinedLength(ElementKeys(t, es))
    decreases |es|
  {
    if es != [] {
      ListTailLength(t, es[1..]);
      assert ElementKeys(t, es)[1..] == ElementKeys(t, es[1..]);
    }
  }

  lemma KeyLength(t: Tables, es: seq<Value>)
    requires es != []
    ensures |Key(t, List(es))| == 1 + JoinedLength(ElementKeys(t, es))
  {
    ListTailLength(t, es[1..]);
    assert ElementKeys(t, es)[1..] == ElementKeys(t, es[1..]);
    assert List(es).elems == es;
  }

  lemma SetKeyLength(t: Tables, es: seq<Value>)
    requires es != []
    ensures |SetKey(t, es)| <= |Key(t, List(es))|
  {
    var ks := ElementKeys(t, es);
    assert Sort(ks) != [] by { assert ks[0] in multiset(ks); assert multiset(Sort(ks)) == multiset(ks); }
    JoinLength(Compact(Sort(ks)));
    CompactLength(Sort(ks));
    SortLength(ks);
    KeyLength(t, es);
  }

  /** Lists: three copies of the text at most, besides the structure. */
  lemma ListRecordHeld(env: Env, es: seq<Value>, structure: string)
    ensures Held(ListRecordOf(env, es, structure)) <= 3 * |JavaText(env.tables, List(es))| + |structure|
  {
    ListKeysLength(env, es);
    ItemsLength(env.tables, es);
  }

  lemma SingleLength(k: string)
    ensures TotalLength([k]) == |k|
  {
    assert [k][..0] == [];
  }

  lemma ElementHeld(env: Env, v: Value)
    ensures Held(ElementRecord(env, v)) <= 3 * |JavaText(env.tables, v)| + |Key(env.tables, v)|
  {
    var r := ElementRecord(env, v);
    if v.List? && v.elems != [] {
      ListRecordHeld(env, v.elems, Key(env.tables, v));
    } else {
      assert r.keys == [] || r.keys == [r.key.value];
      if r.key.Some? { SingleLength(r.key.value); }
    }
  }

  /** The element records of a list hold three copies of the texts, and the keys. */
  predicate ElementsFit(env: Env, es: seq<Value>) {
    HeldAll(ElementRecords(env, es)) <= 3 * TextsLength(env.tables, es) + JoinedLength(ElementKeys(env.tables, es))
  }

  lemma TextsLengthSnoc(t: Tables, es: seq<Value>, e: Value)
    ensures TextsLength(t, es + [e]) == TextsLength(t, es) + |JavaText(t, e)|
  {
    assert (es + [e])[..|es|] == es;
  }

  lemma ElementsHeldStep(env: Env, es: seq<Value>, e: Value)
    requires ElementsFit(env, es)
    ensures ElementsFit(env, es + [e])
  {
    ElementHeld(env, e);
    ElementsStep(env, es, e);
    TextsLengthSnoc(env.tables, es, e);
    HeldAllSnoc(ElementRecords(env, es), ElementRecord(env, e));
    JoinedLengthSnoc(ElementKeys(env.tables, es), Key(env.tables, e));
  }

  lemma {:induction false} ElementsHeld(env: Env, es: seq<Value>)
    ensures ElementsFit(env, es)
    decreases |es|
  {
    if es != [] {
      var n := |es| - 1;
      ElementsHeld(env, es[..n]);
      ElementsHeldStep(env, es[..n], es[n]);
      assert es == es[..n] + [es[n]];
    }
  }

  lemma HeldAllSnoc(rs: seq<Record>, r: Record)
    ensures HeldAll(rs + [r]) == HeldAll(rs) + Held(r)
  {
    assert (rs + [r])[..|rs|] == rs;
  }

  lemma {:induction false} JoinedLengthSnoc(ks: seq<string>, k: string)
    ensures JoinedLength(ks + [k]) == JoinedLength(ks) + |k| + 1
    decreases |ks|
  {
    if ks != [] {
      JoinedLengthSnoc(ks[1..], k);
      assert (ks + [k])[1..] == ks[1..] + [k];
    } else {
      assert (ks + [k])[1..] == [];
    }
  }

  lemma HeldSplits(env: Env, es: seq<Value>)
    requires es != []
    ensures Held(RecordOf(env, List(es)))
         <= 3 * |JavaText(env.tables, List(es))| + |SetKey(env.tables, es)| + HeldAll(ElementRecords(env, es))
  {
    ListRecordHeld(env, es, SetKey(env.tables, es));
  }

  lemma TextsWithin(t: Tables, es: seq<Value>)
    requires es != []
    ensures TextsLength(t, es) <= |JavaText(t, List(es))|
  {
    ItemsLength(t, es);
  }

  lemma ElementsWithin(env: Env, es: seq<Value>)
    requires es != []
    ensures HeldAll(ElementRecords(env, es)) <= 3 * |JavaText(env.tables, List(es))| + |Key(env.tables, List(es))|
  {
    ElementsHeld(env, es);
    TextsWithin(env.tables, es);
    KeyLength(env.tables, es);
  }

  lemma ListIsSmall(env: Env, es: seq<Value>)
    requires es != []
    ensures Held(RecordOf(env, List(es))) <= 6 * |JavaText(env.tables, List(es))| + 2 * |Key(env.tables, List(es))|
  {
    HeldSplits(env, es);
    SetKeyLength(env.tables, es);
    ElementsWithin(env, es);
  }

  /** The record of a value holds at most six copies of its text and two of its key. */
  lemma RecordIsSmall(env: Env, v: Value)
    ensures Held(RecordOf(env, v)) <= 6 * |JavaText(env.tables, v)| + 2 * |Key(env.tables, v)|
  {
    if v.List? && v.elems != [] {
      ListIsSmall(env, v.elems);
    } else {
      ElementHeld(env, v);
    }
  }
}
