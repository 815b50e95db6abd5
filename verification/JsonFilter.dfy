/** The filter that keeps, of a JSON text, the members a type names exactly: of each named
    field the last member, in the order of the fields.

    `Filtered` says what is kept on the tree of the text; `ExactFilter` finds it by
    offsets, stepping over a container without reading it. */
module JsonFilters {
  import opened Sequences
  import opened JsonTexts

  datatype Field = Field(name: string, typ: nat)

  /** What a type keeps: the fields of a struct in the order of their names, the elements
      of a slice, or the value as it is. */
  datatype Shape = Whole | Struct(fields: seq<Field>) | Slice(elem: nat)

  /** The shapes of the types, and the text of a key that holds an escape. */
  datatype Reader = Reader(shapes: nat -> Shape, unescape: string -> string)

  predicate DistinctNames(fs: seq<Field>) { forall i, j :: 0 <= i < j < |fs| ==> fs[i].name != fs[j].name }

  ghost predicate Sound(x: Reader) { forall t: nat :: x.shapes(t).Struct? ==> DistinctNames(x.shapes(t).fields) }

  // ---- What is kept ----

  function KeyText(x: Reader, raw: string): string {
    if '\\' in raw then x.unescape(raw) else if |raw| < 2 then "" else raw[1..|raw| - 1]
  }

  predicate KeyInText(data: string, item: Item) { item.start <= item.keyEnd <= |data| }

  function KeyOf(x: Reader, data: string, item: Item): string {
    if KeyInText(data, item) then KeyText(x, data[item.start..item.keyEnd]) else ""
  }

  /** The last of the first `k` members of this key, or -1. */
  function LastMember(x: Reader, data: string, n: Node, name: string, k: nat): (r: int)
    requires n.Container? && k <= |n.items|
    ensures -1 <= r < k
  {
    if k == 0 then -1
    else if KeyOf(x, data, n.items[k - 1]) == name then k - 1
    else LastMember(x, data, n, name, k - 1)
  }

  /** The member kept has the key, and no member after it has. */
  lemma {:induction false} LastMemberIsLast(x: Reader, data: string, n: Node, name: string, k: nat)
    requires n.Container? && k <= |n.items|
    ensures var r := LastMember(x, data, n, name, k);
      && (r >= 0 ==> KeyOf(x, data, n.items[r]) == name)
      && forall j :: r < j < k ==> KeyOf(x, data, n.items[j]) != name
    decreases k
  {
    if k > 0 { LastMemberIsLast(x, data, n, name, k - 1); }
  }

  /** The text from `i` to `j` without the space outside its strings. */
  function Compact(data: string, i: nat, j: nat): string
    requires j <= |data|
    decreases j - i
  {
    if i >= j then ""
    else if data[i] == '"' then
      var e := StringClose(data, i + 1);
      if e > j then data[i..j] else data[i..e] + Compact(data, e, j)
    else if IsSpace(data[i]) then Compact(data, i + 1, j)
    else [data[i]] + Compact(data, i + 1, j)
  }

  function Filtered(x: Reader, data: string, n: Node, t: nat): string
    requires n.hi <= |data| && Within(n, |data|)
    decreases n, 1, 0
  {
    match x.shapes(t)
    case Struct(fields) =>
      if n.Container? && n.object_ then "{" + (FieldsText(x, data, n, fields, |fields|) + "}") else Compact(data, n.lo, n.hi)
    case Slice(elem) =>
      if n.Container? && !n.object_ then "[" + (ElementsText(x, data, n, elem, |n.items|) + "]") else Compact(data, n.lo, n.hi)
    case Whole => Compact(data, n.lo, n.hi)
  }

  function FieldLabel(f: Field): string { "\"" + f.name + "\":" }

  function FieldsText(x: Reader, data: string, n: Node, fields: seq<Field>, f: nat): string
    requires n.Container? && Within(n, |data|) && f <= |fields|
    decreases n, 0, f
  {
    if f == 0 then "" else
    var before := FieldsText(x, data, n, fields, f - 1);
    var m := LastMember(x, data, n, fields[f - 1].name, |n.items|);
    if m < 0 then before
    else
      assert Within(n.items[m].node, |data|);
      before + ((if before == "" then "" else ",") + FieldLabel(fields[f - 1]) + Filtered(x, data, n.items[m].node, fields[f - 1].typ))
  }

  function ElementsText(x: Reader, data: string, n: Node, elem: nat, k: nat): string
    requires n.Container? && Within(n, |data|) && k <= |n.items|
    decreases n, 0, k
  {
    if k == 0 then ""
    else
      assert Within(n.items[k - 1].node, |data|);
      ElementsText(x, data, n, elem, k - 1) + ((if k == 1 then "" else ",") + Filtered(x, data, n.items[k - 1].node, elem))
  }

  /** No part of the node reaches past the end. */
  predicate Within(n: Node, size: nat)
    decreases n
  {
    n.hi <= size && (n.Container? ==> forall k :: 0 <= k < |n.items| ==> Within(n.items[k].node, size))
  }

  lemma {:induction false} ParsesWithin(data: string, n: Node)
    requires Parses(data, n)
    ensures Within(n, |data|)
    decreases n
  {
    if n.Container? {
      forall k | 0 <= k < |n.items| ensures Within(n.items[k].node, |data|) {
        ItemParses(data, n, |n.items|, k);
        ParsesWithin(data, n.items[k].node);
      }
    }
  }

  // ---- Steps over a text ----

  predicate Followed(data: string, j: nat) { j == |data| || (j < |data| && IsDelimiter(data[j])) }

  lemma ItemFollowed(data: string, n: Node, k: nat)
    requires n.Container? && Parses(data, n) && k < |n.items|
    ensures Parses(data, n.items[k].node) && Followed(data, n.items[k].node.hi)
    ensures !IsSpace(data[n.items[k].node.lo]) && data[n.items[k].node.lo] != ']'
  {
    ItemParses(data, n, |n.items|, k);
  }

  /** The place after item `k`: the next item, or the bracket. */
  function After(n: Node, k: nat): nat
    requires n.Container? && n.hi > 0 && k <= |n.items|
  {
    if k < |n.items| then n.items[k].start else n.hi - 1
  }

  lemma AfterIsSolid(data: string, n: Node, k: nat)
    requires n.Container? && Parses(data, n) && k <= |n.items|
    ensures After(n, k) < |data| && !IsSpace(data[After(n, k)]) && data[After(n, k)] != ','
    ensures k < |n.items| <==> data[After(n, k)] != Closing(n)
  {
    if k < |n.items| { ItemParses(data, n, |n.items|, k); }
  }

  lemma FirstAfter(data: string, n: Node)
    requires n.Container? && Parses(data, n)
    ensures Blank(data, n.lo + 1, After(n, 0))
  {
  }

  class ExactFilter {
    const data: string
    const ends: map<nat, nat>
    const x: Reader
    var out: string

    constructor (data: string, ends: map<nat, nat>, x: Reader)
      ensures this.data == data && this.ends == ends && this.x == x && out == ""
    {
      this.data, this.ends, this.x, out := data, ends, x, "";
    }

    method SkipSpace(i: nat, ghost solid: nat) returns (j: nat)
      requires Blank(data, i, solid) && (solid < |data| ==> !IsSpace(data[solid]))
      ensures j == solid
    {
      j := i;
      while j < |data| && IsSpace(data[j])
        invariant i <= j <= solid
      {
        j := j + 1;
      }
    }

    /** Just past the value. */
    method ValueEnd(i: nat, ghost n: Node) returns (j: nat)
      requires Parses(data, n) && n.lo == i && Right(ends, n) && Followed(data, n.hi)
      ensures j == n.hi
    {
      if data[i] == '{' || data[i] == '[' {
        return ends[i];
      }
      if data[i] == '"' {
        Closes(data, i + 1, n.hi - 1);
        j := StringEnd(data, i);
        return;
      }
      j := i;
      while j < |data| && !IsDelimiter(data[j])
        invariant i <= j <= n.hi
      {
        j := j + 1;
      }
    }

    /** The item after the one whose value stands at `i`, or the closing bracket. */
    method Next(i: nat, ghost n: Node, ghost k: nat) returns (j: nat)
      requires n.Container? && Parses(data, n) && Right(ends, n) && k < |n.items| && i == n.items[k].node.lo
      ensures j == After(n, k + 1)
    {
      ItemFollowed(data, n, k);
      ItemRight(ends, n, |n.items|, k);
      ItemParses(data, n, |n.items|, k);
      j := ValueEnd(i, n.items[k].node);
      j := SkipSpace(j, n.items[k].stop);
      AfterIsSolid(data, n, k + 1);
      if data[j] == ',' {
        j := SkipSpace(j + 1, After(n, k + 1));
      }
    }

    /** Writes the value, filtered for the type. */
    method Value(i: nat, t: nat, ghost n: Node)
      requires Sound(x) && Parses(data, n) && Within(n, |data|) && n.lo == i && Right(ends, n) && Followed(data, n.hi)
      modifies this
      ensures out == old(out) + Filtered(x, data, n, t)
      decreases n, 1
    {
      var shape := x.shapes(t);
      if shape.Struct? && data[i] == '{' {
        Object(i, shape.fields, n);
      } else if shape.Slice? && data[i] == '[' {
        Array(i, shape.elem, n);
      } else {
        var end := ValueEnd(i, n);
        out := out + Compact(data, i, end);
      }
    }

    method Object(i: nat, fields: seq<Field>, ghost n: Node)
      requires Sound(x) && Parses(data, n) && Within(n, |data|) && n.lo == i && Right(ends, n) && data[i] == '{'
      requires DistinctNames(fields)
      modifies this
      ensures out == old(out) + ("{" + (FieldsText(x, data, n, fields, |fields|) + "}"))
      decreases n, 0
    {
      var last := LastOffsets(i, fields, n);
      out := out + "{";
      ghost var base := out;
      var first := true;
      for f := 0 to |fields|
        invariant out == base + FieldsText(x, data, n, fields, f)
        invariant first <==> FieldsText(x, data, n, fields, f) == ""
      {
        if last[f] >= 0 {
          ghost var m := LastMember(x, data, n, fields[f].name, |n.items|);
          assert Within(n.items[m].node, |data|);
          ghost var text := (if first then "" else ",") + FieldLabel(fields[f]) + Filtered(x, data, n.items[m].node, fields[f].typ);
          Assoc(base, FieldsText(x, data, n, fields, f), text);
          assert FieldsText(x, data, n, fields, f + 1) == FieldsText(x, data, n, fields, f) + text;
          Member(last[f], fields[f], first, n, m);
          first := false;
        }
      }
      out := out + "}";
      Assoc(base, FieldsText(x, data, n, fields, |fields|), "}");
      Assoc(old(out), "{", FieldsText(x, data, n, fields, |fields|) + "}");
    }

    method Member(i: nat, field: Field, first: bool, ghost n: Node, ghost m: nat)
      requires Sound(x) && n.Container? && Parses(data, n) && Within(n, |data|) && Right(ends, n)
      requires m < |n.items| && i == n.items[m].node.lo && Within(n.items[m].node, |data|)
      modifies this
      ensures out == old(out) + ((if first then "" else ",") + FieldLabel(field) + Filtered(x, data, n.items[m].node, field.typ))
      decreases n, 0, 0
    {
      if !first { out := out + ","; }
      out := out + FieldLabel(field);
      ItemReady(data, ends, n, m);
      Value(i, field.typ, n.items[m].node);
    }

    /** Where the value of the last member of each field stands, or -1. */
    method LastOffsets(i: nat, fields: seq<Field>, ghost n: Node) returns (last: seq<int>)
      requires Parses(data, n) && n.lo == i && Right(ends, n) && data[i] == '{' && DistinctNames(fields)
      ensures Lasts(x, data, n, fields, |n.items|, last)
    {
      last := seq(|fields|, _ => -1);
      ghost var k := 0;
      FirstAfter(data, n);
      AfterIsSolid(data, n, 0);
      var j := SkipSpace(i + 1, After(n, 0));
      while data[j] != '}'
        invariant k <= |n.items| && j == After(n, k) < |data| && Lasts(x, data, n, fields, k, last)
        decreases |n.items| - k
      {
        AfterIsSolid(data, n, k);
        var name;
        name, j := ReadKey(j, n, k);
        var f := IndexOf(fields, name);
        Recorded(x, data, n, fields, k, last, f);
        if f >= 0 { last := last[f := j]; }
        j := Next(j, n, k);
        k := k + 1;
        AfterIsSolid(data, n, k);
      }
      AfterIsSolid(data, n, k);
    }

    /** The key of member `k`, and where its value stands. */
    method ReadKey(i: nat, ghost n: Node, ghost k: nat) returns (name: string, j: nat)
      requires n.Container? && n.object_ && Parses(data, n) && k < |n.items| && i == n.items[k].start
      ensures name == KeyOf(x, data, n.items[k]) && j == n.items[k].node.lo
    {
      ItemParses(data, n, |n.items|, k);
      ItemFollowed(data, n, k);
      ghost var item := n.items[k];
      Closes(data, i + 1, item.keyEnd - 1);
      var keyEnd := StringEnd(data, i);
      var raw := data[i..keyEnd];
      name := KeyText(x, raw);
      j := SkipSpace(keyEnd, item.colon);
      j := SkipSpace(j + 1, item.node.lo);
    }

    method Array(i: nat, elem: nat, ghost n: Node)
      requires Sound(x) && Parses(data, n) && Within(n, |data|) && n.lo == i && Right(ends, n) && data[i] == '['
      modifies this
      ensures out == old(out) + ("[" + (ElementsText(x, data, n, elem, |n.items|) + "]"))
      decreases n, 0
    {
      out := out + "[";
      ghost var base := out;
      ghost var k := 0;
      FirstAfter(data, n);
      AfterIsSolid(data, n, 0);
      var start := SkipSpace(i + 1, After(n, 0));
      var j := start;
      while data[j] != ']'
        invariant k <= |n.items| && j == After(n, k) < |data| && (data[j] != ']' <==> k < |n.items|)
        invariant out == base + ElementsText(x, data, n, elem, k)
        invariant k == 0 <==> j == start
        decreases |n.items| - k
      {
        assert Within(n.items[k].node, |data|);
        ghost var text := (if k == 0 then "" else ",") + Filtered(x, data, n.items[k].node, elem);
        Assoc(base, ElementsText(x, data, n, elem, k), text);
        j := Element(j, elem, j == start, n, k);
        k := k + 1;
      }
      out := out + "]";
      Assoc(base, ElementsText(x, data, n, elem, k), "]");
      Assoc(old(out), "[", ElementsText(x, data, n, elem, k) + "]");
    }

    method Element(i: nat, elem: nat, first: bool, ghost n: Node, ghost k: nat) returns (j: nat)
      requires Sound(x) && n.Container? && !n.object_ && Parses(data, n) && Within(n, |data|) && Right(ends, n)
      requires k < |n.items| && i == n.items[k].start && Within(n.items[k].node, |data|)
      modifies this
      ensures out == old(out) + ((if first then "" else ",") + Filtered(x, data, n.items[k].node, elem))
      ensures After(n, 0) < j == After(n, k + 1) < |data| && (data[j] != ']' <==> k + 1 < |n.items|)
      decreases n, 0, 0
    {
      if !first { out := out + ","; }
      ItemReady(data, ends, n, k);
      Value(i, elem, n.items[k].node);
      j := Next(i, n, k);
      NextIsSolid(data, n, k);
    }
  }

  /** An item of a container is ready to be read like the container. */
  lemma ItemReady(data: string, ends: map<nat, nat>, n: Node, k: nat)
    requires n.Container? && Parses(data, n) && Right(ends, n) && k < |n.items|
    ensures Parses(data, n.items[k].node) && Followed(data, n.items[k].node.hi) && Right(ends, n.items[k].node)
    ensures !n.object_ ==> n.items[k].start == n.items[k].node.lo
  {
    ItemFollowed(data, n, k);
    ItemParses(data, n, |n.items|, k);
    ItemRight(ends, n, |n.items|, k);
  }

  lemma NextIsSolid(data: string, n: Node, k: nat)
    requires n.Container? && !n.object_ && Parses(data, n) && k < |n.items|
    ensures After(n, 0) < After(n, k + 1) < |data| && (data[After(n, k + 1)] != ']' <==> k + 1 < |n.items|)
  {
    AfterIsSolid(data, n, k + 1);
    StartsLater(data, n, k + 1);
  }

  /** An item after the first starts after it. */
  lemma {:induction false} StartsLater(data: string, n: Node, k: nat)
    requires n.Container? && Parses(data, n) && 0 < k <= |n.items|
    ensures After(n, k) > After(n, 0)
    decreases k
  {
    ItemParses(data, n, |n.items|, k - 1);
    if k > 1 { StartsLater(data, n, k - 1); }
  }

  function OffsetOf(n: Node, m: int): int
    requires n.Container? && m < |n.items|
  {
    if m < 0 then -1 else n.items[m].node.lo
  }

  /** The offsets are those of the last members among the first `k`. */
  predicate Lasts(x: Reader, data: string, n: Node, fields: seq<Field>, k: nat, last: seq<int>)
    requires n.Container? && k <= |n.items|
  {
    |last| == |fields| && forall f :: 0 <= f < |fields| ==> last[f] == OffsetOf(n, LastMember(x, data, n, fields[f].name, k))
  }

  lemma Recorded(x: Reader, data: string, n: Node, fields: seq<Field>, k: nat, last: seq<int>, f: int)
    requires n.Container? && k < |n.items| && DistinctNames(fields) && Lasts(x, data, n, fields, k, last)
    requires f == IndexOf(fields, KeyOf(x, data, n.items[k]))
    ensures Lasts(x, data, n, fields, k + 1, if f >= 0 then last[f := n.items[k].node.lo] else last)
  {
  }

  function IndexOf(fields: seq<Field>, name: string): (f: int)
    ensures -1 <= f < |fields| && (f >= 0 ==> fields[f].name == name)
    ensures f < 0 ==> forall k :: 0 <= k < |fields| ==> fields[k].name != name
  {
    if fields == [] then -1
    else if fields[0].name == name then 0
    else var f := IndexOf(fields[1..], name); if f < 0 then -1 else f + 1
  }

  /** Of every JSON text the filter writes what the type keeps. */
  method Filter(data: string, x: Reader, t: nat, ghost n: Node) returns (out: string)
    requires IsDocument(data, n) && Sound(x)
    ensures Within(n, |data|) && out == Filtered(x, data, n, t)
  {
    ParsesWithin(data, n);
    var ends := ContainerEnds(data, n);
    var f := new ExactFilter(data, ends, x);
    var i := f.SkipSpace(0, n.lo);
    f.Value(i, t, n);
    out := f.out;
  }
}
