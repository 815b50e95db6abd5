/** JSON values: numbers keep their text, and objects the order of their members. */
module JsonValues {
  import opened Sequences

  datatype Member = Member(key: string, value: Value)

  datatype Value =
    | Null
    | Bool(b: bool)
    | Number(text: string)
    | Str(s: string)
    | List(elems: seq<Value>)
    | Object(members: seq<Member>)

  /** The member of a key: the last one written, as a later value replaces an earlier. */
  function Get(ms: seq<Member>, key: string): (r: Option<Value>)
    ensures r.Some? ==> exists i :: 0 <= i < |ms| && ms[i] == Member(key, r.value)
    ensures r.None? ==> forall i :: 0 <= i < |ms| ==> ms[i].key != key
  {
    if ms == [] then None
    else if ms[|ms| - 1].key == key then Some(ms[|ms| - 1].value)
    else Get(ms[..|ms| - 1], key)
  }

  predicate DistinctKeys(ms: seq<Member>) {
    forall i, j :: 0 <= i < j < |ms| ==> ms[i].key != ms[j].key
  }

  /** The value of every member at its position, as one value per key requires. */
  lemma {:induction false} GetAt(ms: seq<Member>, i: nat)
    requires i < |ms| && DistinctKeys(ms)
    ensures Get(ms, ms[i].key) == Some(ms[i].value)
    decreases |ms|
  {
    if i < |ms| - 1 { GetAt(ms[..|ms| - 1], i); }
  }

  // ---- Objects as the decoder fills them ----

  function Find(ms: seq<Member>, key: string): (k: nat)
    ensures k <= |ms| && (k < |ms| ==> ms[k].key == key)
    ensures k == |ms| ==> forall i :: 0 <= i < |ms| ==> ms[i].key != key
  {
    if ms == [] then 0
    else if ms[0].key == key then 0
    else 1 + Find(ms[1..], key)
  }

  /** A key already held keeps its position and takes the new value. */
  function SetMember(ms: seq<Member>, key: string, v: Value): seq<Member> {
    var k := Find(ms, key);
    if k < |ms| then ms[k := Member(key, v)] else ms + [Member(key, v)]
  }

  lemma SetMemberGet(ms: seq<Member>, key: string, v: Value, other: string)
    requires DistinctKeys(ms)
    ensures DistinctKeys(SetMember(ms, key, v))
    ensures Get(SetMember(ms, key, v), key) == Some(v)
    ensures other != key ==> Get(SetMember(ms, key, v), other) == Get(ms, other)
  {
    var r := SetMember(ms, key, v);
    var k := Find(ms, key);
    GetAt(r, k);
    if other != key {
      if i :| 0 <= i < |ms| && ms[i].key == other {
        GetAt(ms, i);
        assert r[i] == ms[i];
        GetAt(r, i);
      }
    }
  }

  // ---- Keys with their values ----

  ghost predicate Paired(keys: seq<string>, values: map<string, Value>) {
    && (forall i, j :: 0 <= i < j < |keys| ==> keys[i] != keys[j])
    && (forall k :: k in values <==> k in keys)
  }

  ghost function MembersOf(keys: seq<string>, values: map<string, Value>): (ms: seq<Member>)
    requires Paired(keys, values)
    ensures |ms| == |keys| && forall i :: 0 <= i < |keys| ==> ms[i] == Member(keys[i], values[keys[i]])
  {
    seq(|keys|, i requires 0 <= i < |keys| => Member(keys[i], values[keys[i]]))
  }

  lemma SetHeld(keys: seq<string>, values: map<string, Value>, key: string, v: Value)
    requires Paired(keys, values) && key in values
    ensures Paired(keys, values[key := v])
    ensures MembersOf(keys, values[key := v]) == SetMember(MembersOf(keys, values), key, v)
  {
    var k := Find(MembersOf(keys, values), key);
    assert k < |keys| && keys[k] == key by {
      var i :| 0 <= i < |keys| && keys[i] == key;
      assert MembersOf(keys, values)[i].key == key;
    }
  }

  lemma SetNew(keys: seq<string>, values: map<string, Value>, key: string, v: Value)
    requires Paired(keys, values) && key !in values
    ensures Paired(keys + [key], values[key := v])
    ensures MembersOf(keys + [key], values[key := v]) == SetMember(MembersOf(keys, values), key, v)
  {
    assert Find(MembersOf(keys, values), key) == |keys|;
  }

  /** An object under construction: its keys in document order and their values. */
  class ObjectBuilder {
    var keys: seq<string>
    var values: map<string, Value>

    ghost predicate Valid()
      reads this
    {
      Paired(keys, values)
    }

    ghost function Members(): (ms: seq<Member>)
      requires Valid()
      reads this
      ensures DistinctKeys(ms) && |ms| == |keys|
    {
      MembersOf(keys, values)
    }

    constructor ()
      ensures Valid() && Members() == []
    {
      keys, values := [], map[];
    }

    method Set(key: string, v: Value)
      requires Valid()
      modifies this
      ensures Valid() && Members() == SetMember(old(Members()), key, v)
    {
      if key !in values {
        SetNew(keys, values, key, v);
        keys := keys + [key];
      } else {
        SetHeld(keys, values, key, v);
      }
      values := values[key := v];
    }

    method Lookup(key: string) returns (r: Option<Value>)
      requires Valid()
      ensures r == Get(Members(), key)
    {
      if key in values {
        ghost var i :| 0 <= i < |keys| && keys[i] == key;
        GetAt(Members(), i);
        r := Some(values[key]);
      } else {
        r := None;
      }
    }
  }
}
