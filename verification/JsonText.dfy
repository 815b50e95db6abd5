/** JSON texts and the scan that finds where each container of a text ends.

    A tree names the places of a text: `Parses` says that the text between the ends of a
    node is a value by the grammar of section 2 of RFC 8259.  The words of an atom and
    the escapes of a string are left wider than the grammar, so what is proved for
    parsed texts holds for every JSON text. */
module JsonTexts {
  import opened Sequences

  // ---- Places of a text ----

  /** A member or an element: `start` is its first character, `stop` that of the comma or
      bracket after it; a member has a key up to `keyEnd` and a colon. */
  datatype Item = Item(start: nat, keyEnd: nat, colon: nat, node: Node, stop: nat)

  /** A value, from `lo` to just before `hi`. */
  datatype Node =
    | Atom(lo: nat, hi: nat)
    | Text(lo: nat, hi: nat)
    | Container(lo: nat, hi: nat, object_: bool, items: seq<Item>)

  predicate IsSpace(c: char) { c == ' ' || c == '\t' || c == '\n' || c == '\r' }

  predicate IsDelimiter(c: char) { IsSpace(c) || c == ',' || c == ']' || c == '}' }

  predicate IsAtomChar(c: char) { !IsDelimiter(c) && c != '{' && c != '[' && c != '"' }

  predicate Blank(data: string, i: nat, j: nat) {
    i <= j <= |data| && forall k :: i <= k < j ==> IsSpace(data[k])
  }

  /** From `i` to `j` no quote stands but after a backslash. */
  predicate Unquoted(data: string, i: nat, j: nat)
    decreases j - i
  {
    if i >= j then i == j
    else if j > |data| || data[i] == '"' then false
    else if data[i] == '\\' then Unquoted(data, i + 2, j)
    else Unquoted(data, i + 1, j)
  }

  predicate Quoted(data: string, i: nat, j: nat) {
    i + 1 < j <= |data| && data[i] == '"' && data[j - 1] == '"' && Unquoted(data, i + 1, j - 1)
  }

  function Closing(n: Node): char
    requires n.Container?
  {
    if n.object_ then '}' else ']'
  }

  function Terminator(n: Node, k: nat): char
    requires n.Container?
  {
    if k + 1 < |n.items| then ',' else Closing(n)
  }

  predicate Parses(data: string, n: Node)
    decreases n, 1, 0
  {
    n.lo < n.hi <= |data| &&
    match n
    case Atom(lo, hi) => forall k :: lo <= k < hi ==> IsAtomChar(data[k])
    case Text(lo, hi) => Quoted(data, lo, hi)
    case Container(_, _, _, items) => Bracketed(data, n) && ItemsParse(data, n, |items|)
  }

  predicate Bracketed(data: string, n: Node)
    requires n.Container?
  {
    && n.lo + 1 < n.hi <= |data| && data[n.lo] == (if n.object_ then '{' else '[') && data[n.hi - 1] == Closing(n)
    && (if n.items == [] then Blank(data, n.lo + 1, n.hi - 1)
        else Blank(data, n.lo + 1, n.items[0].start) && n.items[|n.items| - 1].stop == n.hi - 1)
  }

  /** The first `k` items of a container. */
  predicate ItemsParse(data: string, n: Node, k: nat)
    requires n.Container? && k <= |n.items|
    decreases n, 0, k
  {
    k == 0 || (ItemsParse(data, n, k - 1) && Leads(data, n.items[k - 1], n.object_) && Stops(data, n, k - 1)
               && Parses(data, n.items[k - 1].node))
  }

  /** The item starts with its value or, in an object, with the key of the value. */
  predicate Leads(data: string, item: Item, object_: bool) {
    if object_ then
      && Quoted(data, item.start, item.keyEnd) && Blank(data, item.keyEnd, item.colon)
      && item.colon < |data| && data[item.colon] == ':' && Blank(data, item.colon + 1, item.node.lo)
    else item.start == item.node.lo
  }

  /** After the value stand its terminator and, after a comma, the next item. */
  predicate Stops(data: string, n: Node, k: nat)
    requires n.Container? && k < |n.items|
  {
    var stop := n.items[k].stop;
    && Blank(data, n.items[k].node.hi, stop) && stop < |data| && data[stop] == Terminator(n, k)
    && (k + 1 < |n.items| ==> Blank(data, stop + 1, n.items[k + 1].start))
  }

  /** The text is one value, with space around it. */
  predicate IsDocument(data: string, n: Node) { Parses(data, n) && Blank(data, 0, n.lo) && Blank(data, n.hi, |data|) }

  // ---- The scan ----

  /** Just past the quote that closes the string whose text goes on at `i`. */
  function StringClose(data: string, i: nat): (r: nat)
    ensures i < r
    decreases |data| - i
  {
    if i >= |data| then i + 1
    else if data[i] == '"' then i + 1
    else if data[i] == '\\' then StringClose(data, i + 2)
    else StringClose(data, i + 1)
  }

  lemma {:induction false} Closes(data: string, i: nat, j: nat)
    requires i <= j < |data| && data[j] == '"' && Unquoted(data, i, j)
    ensures StringClose(data, i) == j + 1
    decreases j - i
  {
    if i < j { Closes(data, if data[i] == '\\' then i + 2 else i + 1, j); }
  }

  /** The container ends found from `i` on, `open` being the brackets still open; none
      when a bracket closes nothing or a string does not end. */
  function Scan(data: string, i: nat, open: seq<nat>, ends: map<nat, nat>): Option<map<nat, nat>>
    decreases |data| - i
  {
    if i >= |data| then Some(ends)
    else if data[i] == '"' then
      var e := StringClose(data, i + 1);
      if e > |data| then None else Scan(data, e, open, ends)
    else if data[i] == '{' || data[i] == '[' then Scan(data, i + 1, open + [i], ends)
    else if data[i] == '}' || data[i] == ']' then
      if open == [] then None else Scan(data, i + 1, open[..|open| - 1], ends[open[|open| - 1] := i + 1])
    else Scan(data, i + 1, open, ends)
  }

  /** The ends of the containers of a node, added to those found before it. */
  function WithEnds(n: Node, ends: map<nat, nat>): map<nat, nat>
    decreases n, 1, 0
  {
    if n.Container? then WithItems(n, |n.items|, ends)[n.lo := n.hi] else ends
  }

  function WithItems(n: Node, k: nat, ends: map<nat, nat>): map<nat, nat>
    requires n.Container? && k <= |n.items|
    decreases n, 0, k
  {
    if k == 0 then ends else WithEnds(n.items[k - 1].node, WithItems(n, k - 1, ends))
  }

  predicate Plain(c: char) { c != '"' && c != '{' && c != '[' && c != '}' && c != ']' }

  lemma {:induction false} ScanPlain(data: string, i: nat, j: nat, open: seq<nat>, ends: map<nat, nat>)
    requires i <= j <= |data| && forall k :: i <= k < j ==> Plain(data[k])
    ensures Scan(data, i, open, ends) == Scan(data, j, open, ends)
    decreases j - i
  {
    if i < j { ScanPlain(data, i + 1, j, open, ends); }
  }

  lemma ScanQuoted(data: string, i: nat, j: nat, open: seq<nat>, ends: map<nat, nat>)
    requires Quoted(data, i, j)
    ensures Scan(data, i, open, ends) == Scan(data, j, open, ends)
  {
    Closes(data, i + 1, j - 1);
  }

  lemma ScanLead(data: string, item: Item, object_: bool, open: seq<nat>, ends: map<nat, nat>)
    requires Leads(data, item, object_) && item.node.lo <= |data|
    ensures Scan(data, item.start, open, ends) == Scan(data, item.node.lo, open, ends)
  {
    if object_ {
      ScanQuoted(data, item.start, item.keyEnd, open, ends);
      ScanPlain(data, item.keyEnd, item.node.lo, open, ends);
    }
  }

  lemma {:induction false} ItemParses(data: string, n: Node, m: nat, k: nat)
    requires n.Container? && k < m <= |n.items| && ItemsParse(data, n, m)
    ensures Leads(data, n.items[k], n.object_) && Stops(data, n, k) && Parses(data, n.items[k].node)
    decreases m
  {
    if k < m - 1 { ItemParses(data, n, m - 1, k); }
  }

  /** A value is passed over, and the ends of its containers are found. */
  lemma {:induction false} ScanNode(data: string, n: Node, open: seq<nat>, ends: map<nat, nat>)
    requires Parses(data, n)
    ensures Scan(data, n.lo, open, ends) == Scan(data, n.hi, open, WithEnds(n, ends))
    decreases n, 1, 0
  {
    match n
    case Atom(lo, hi) => ScanPlain(data, lo, hi, open, ends);
    case Text(lo, hi) => ScanQuoted(data, lo, hi, open, ends);
    case Container(lo, hi, _, items) =>
      ScanInside(data, n, |items|, open + [lo], ends);
      ScanBrackets(data, n, open, ends, WithItems(n, |items|, ends));
  }

  lemma ScanBrackets(data: string, n: Node, open: seq<nat>, ends: map<nat, nat>, found: map<nat, nat>)
    requires n.Container? && Bracketed(data, n)
    requires Scan(data, n.lo + 1, open + [n.lo], ends) == Scan(data, n.hi - 1, open + [n.lo], found)
    ensures Scan(data, n.lo, open, ends) == Scan(data, n.hi, open, found[n.lo := n.hi])
  {
    assert (open + [n.lo])[..|open|] == open;
  }

  lemma {:induction false} ScanInside(data: string, n: Node, k: nat, open: seq<nat>, ends: map<nat, nat>)
    requires n.Container? && k == |n.items| && Bracketed(data, n) && ItemsParse(data, n, k)
    ensures Scan(data, n.lo + 1, open, ends) == Scan(data, n.hi - 1, open, WithItems(n, k, ends))
    decreases n, 0, k + 1
  {
    if k == 0 {
      ScanPlain(data, n.lo + 1, n.hi - 1, open, ends);
    } else {
      ScanPlain(data, n.lo + 1, n.items[0].start, open, ends);
      ScanItems(data, n, k, open, ends);
    }
  }

  /** The first `k` items are passed over; the terminator of the last is still to come. */
  lemma {:induction false} ScanItems(data: string, n: Node, k: nat, open: seq<nat>, ends: map<nat, nat>)
    requires n.Container? && 0 < k <= |n.items| && ItemsParse(data, n, k)
    ensures Scan(data, n.items[0].start, open, ends) == Scan(data, n.items[k - 1].stop, open, WithItems(n, k, ends))
    decreases n, 0, k
  {
    var item, found := n.items[k - 1], WithItems(n, k - 1, ends);
    if k > 1 {
      ScanItems(data, n, k - 1, open, ends);
      ScanComma(data, n, k - 2, open, found);
    }
    ScanNode(data, item.node, open, found);
    ScanAround(data, n, k - 1, open, found, WithEnds(item.node, found));
  }

  lemma ScanComma(data: string, n: Node, k: nat, open: seq<nat>, ends: map<nat, nat>)
    requires n.Container? && k + 1 < |n.items| && ItemsParse(data, n, k + 1)
    ensures Scan(data, n.items[k].stop, open, ends) == Scan(data, n.items[k + 1].start, open, ends)
  {
    ScanPlain(data, n.items[k].stop, n.items[k + 1].start, open, ends);
  }

  lemma ScanAround(data: string, n: Node, k: nat, open: seq<nat>, ends: map<nat, nat>, found: map<nat, nat>)
    requires n.Container? && k < |n.items| && ItemsParse(data, n, k + 1)
    requires Scan(data, n.items[k].node.lo, open, ends) == Scan(data, n.items[k].node.hi, open, found)
    ensures Scan(data, n.items[k].start, open, ends) == Scan(data, n.items[k].stop, open, found)
  {
    ScanLead(data, n.items[k], n.object_, open, ends);
    ScanPlain(data, n.items[k].node.hi, n.items[k].stop, open, found);
  }

  // ---- The ends found ----

  /** The brackets that open a container of the node. */
  function Opens(n: Node): set<nat>
    decreases n, 1, 0
  {
    if n.Container? then {n.lo} + ItemOpens(n, |n.items|) else {}
  }

  function ItemOpens(n: Node, k: nat): set<nat>
    requires n.Container? && k <= |n.items|
    decreases n, 0, k
  {
    if k == 0 then {} else ItemOpens(n, k - 1) + Opens(n.items[k - 1].node)
  }

  /** Every container of the node ends where the map says. */
  predicate Right(ends: map<nat, nat>, n: Node)
    decreases n, 1, 0
  {
    n.Container? ==> n.lo in ends && ends[n.lo] == n.hi && ItemsRight(ends, n, |n.items|)
  }

  predicate ItemsRight(ends: map<nat, nat>, n: Node, k: nat)
    requires n.Container? && k <= |n.items|
    decreases n, 0, k
  {
    k == 0 || (ItemsRight(ends, n, k - 1) && Right(ends, n.items[k - 1].node))
  }

  lemma {:induction false} ItemRight(ends: map<nat, nat>, n: Node, m: nat, k: nat)
    requires n.Container? && k < m <= |n.items| && ItemsRight(ends, n, m)
    ensures Right(ends, n.items[k].node)
    decreases m
  {
    if k < m - 1 { ItemRight(ends, n, m - 1, k); }
  }

  lemma {:induction false} EndsAreOpens(n: Node, ends: map<nat, nat>)
    ensures WithEnds(n, ends).Keys == ends.Keys + Opens(n)
    decreases n, 1, 0
  {
    if n.Container? { ItemEndsAreOpens(n, |n.items|, ends); }
  }

  lemma {:induction false} ItemEndsAreOpens(n: Node, k: nat, ends: map<nat, nat>)
    requires n.Container? && k <= |n.items|
    ensures WithItems(n, k, ends).Keys == ends.Keys + ItemOpens(n, k)
    decreases n, 0, k
  {
    if k > 0 {
      ItemEndsAreOpens(n, k - 1, ends);
      EndsAreOpens(n.items[k - 1].node, WithItems(n, k - 1, ends));
    }
  }

  /** The maps hold the same between two places. */
  predicate Agree(a: map<nat, nat>, b: map<nat, nat>, lo: nat, hi: nat) {
    forall p :: lo <= p < hi ==> (p in a <==> p in b) && (p in a ==> a[p] == b[p])
  }

  lemma {:induction false} RightStays(data: string, n: Node, a: map<nat, nat>, b: map<nat, nat>)
    requires Parses(data, n) && Right(a, n) && Agree(a, b, n.lo, n.hi)
    ensures Right(b, n)
    decreases n, 1, 0
  {
    if n.Container? { ItemsRightStay(data, n, |n.items|, a, b); }
  }

  lemma {:induction false} ItemsRightStay(data: string, n: Node, k: nat, a: map<nat, nat>, b: map<nat, nat>)
    requires n.Container? && k <= |n.items| && Bracketed(data, n) && ItemsParse(data, n, k) && ItemsRight(a, n, k)
    requires Agree(a, b, n.lo + 1, Reach(n, k))
    ensures ItemsRight(b, n, k)
    decreases n, 0, k
  {
    if k > 0 {
      Reaches(data, n, k);
      ItemsRightStay(data, n, k - 1, a, b);
      RightStays(data, n.items[k - 1].node, a, b);
    }
  }

  /** Where the first `k` items reach to. */
  function Reach(n: Node, k: nat): nat
    requires n.Container? && k <= |n.items|
  {
    if k == 0 then n.lo + 1 else n.items[k - 1].node.hi
  }

  lemma {:induction false} Reaches(data: string, n: Node, k: nat)
    requires n.Container? && 0 < k <= |n.items| && Bracketed(data, n) && ItemsParse(data, n, k)
    ensures n.lo + 1 <= Reach(n, k - 1) <= n.items[k - 1].node.lo < Reach(n, k)
    ensures k == |n.items| ==> Reach(n, k) < n.hi
    decreases k
  {
    if k > 1 { Reaches(data, n, k - 1); }
  }

  /** A node adds ends inside itself only. */
  lemma {:induction false} AddsInside(data: string, n: Node, ends: map<nat, nat>, lo: nat, hi: nat)
    requires Parses(data, n) && (hi <= n.lo || n.hi <= lo)
    ensures Agree(ends, WithEnds(n, ends), lo, hi)
    decreases n, 1, 0
  {
    if n.Container? {
      ItemsAddInside(data, n, |n.items|, ends, lo, hi);
      if n.items != [] { Reaches(data, n, |n.items|); }
    }
  }

  lemma {:induction false} ItemsAddInside(data: string, n: Node, k: nat, ends: map<nat, nat>, lo: nat, hi: nat)
    requires n.Container? && k <= |n.items| && Bracketed(data, n) && ItemsParse(data, n, k)
    requires hi <= n.lo || Reach(n, k) <= lo
    ensures Agree(ends, WithItems(n, k, ends), lo, hi)
    decreases n, 0, k
  {
    if k > 0 {
      Reaches(data, n, k);
      ItemsAddInside(data, n, k - 1, ends, lo, hi);
      AddsInside(data, n.items[k - 1].node, WithItems(n, k - 1, ends), lo, hi);
    }
  }

  lemma {:induction false} FoundRight(data: string, n: Node, ends: map<nat, nat>)
    requires Parses(data, n)
    ensures Right(WithEnds(n, ends), n)
    decreases n, 1, 0
  {
    if n.Container? {
      var k := |n.items|;
      var found := WithItems(n, k, ends);
      ItemsFoundRight(data, n, k, ends);
      ItemsRightStay(data, n, k, found, found[n.lo := n.hi]);
    }
  }

  lemma {:induction false} ItemsFoundRight(data: string, n: Node, k: nat, ends: map<nat, nat>)
    requires n.Container? && k <= |n.items| && Bracketed(data, n) && ItemsParse(data, n, k)
    ensures ItemsRight(WithItems(n, k, ends), n, k)
    decreases n, 0, k
  {
    if k > 0 {
      var before, item := WithItems(n, k - 1, ends), n.items[k - 1].node;
      Reaches(data, n, k);
      ItemsFoundRight(data, n, k - 1, ends);
      AddsInside(data, item, before, n.lo + 1, Reach(n, k - 1));
      ItemsRightStay(data, n, k - 1, before, WithItems(n, k, ends));
      FoundRight(data, item, before);
    }
  }

  // ---- The scan as the reader runs it ----

  method StringEnd(data: string, start: nat) returns (i: nat)
    requires StringClose(data, start + 1) <= |data|
    ensures i == StringClose(data, start + 1)
  {
    i := start + 1;
    while data[i] != '"'
      invariant start < i < |data| && StringClose(data, i) == StringClose(data, start + 1)
      decreases |data| - i
    {
      if data[i] == '\\' { i := i + 1; }
      i := i + 1;
    }
    i := i + 1;
  }

  /** Every bracket that opens a container is mapped to just past its match, nothing else
      is mapped, and no bracket closes nothing. */
  method ContainerEnds(data: string, ghost n: Node) returns (ends: map<nat, nat>)
    requires IsDocument(data, n)
    ensures ends.Keys == Opens(n) && Right(ends, n)
  {
    ends := map[];
    var open: seq<nat> := [];
    var i := 0;
    ScanDocument(data, n);
    while i < |data|
      invariant Scan(data, i, open, ends) == Some(WithEnds(n, map[]))
      decreases |data| - i
    {
      if data[i] == '"' {
        i := StringEnd(data, i);
        i := i - 1;
      } else if data[i] == '{' || data[i] == '[' {
        open := open + [i];
      } else if data[i] == '}' || data[i] == ']' {
        ends := ends[open[|open| - 1] := i + 1];
        open := open[..|open| - 1];
      }
      i := i + 1;
    }
    EndsAreOpens(n, map[]);
    FoundRight(data, n, map[]);
  }

  lemma ScanDocument(data: string, n: Node)
    requires IsDocument(data, n)
    ensures Scan(data, 0, [], map[]) == Some(WithEnds(n, map[]))
  {
    ScanPlain(data, 0, n.lo, [], map[]);
    ScanNode(data, n, [], map[]);
    ScanPlain(data, n.hi, |data|, [], WithEnds(n, map[]));
  }
}
