/** The structure key: a text of a value in which every object lists its members in key
    order, and that two values share exactly when they have the same structure. */
module StructureKeys {
  import opened Sequences
  import opened Numerals
  import opened TextOrder
  import opened Decimals
  import opened DecimalTexts
  import opened DecimalPrinters
  import opened BigDecimals
  import opened Quoting
  import opened JsonValues

  /** What the model takes from elsewhere: `strconv.IsPrint`, the text of a number that is
      not an integer, read as a float64 and printed as Java prints a double, and
      `jsonvalue.ParseBigDecimal`. */
  datatype Tables = Tables(isPrint: Printable, doubleText: string -> string, parse: string -> Option<Decimal>)

  predicate IsSpecial(t: string) { t == "NaN" || t == "Infinity" || t == "-Infinity" }

  /** `parse` is `ParseBigDecimal`, and a double prints as a number it reads, unless it is
      an infinity or not a number. */
  ghost predicate Sound(uni: UnicodeDigits, t: Tables) {
    && (forall s :: t.parse(s) == (if BigAccepted(uni, s) then Some(DecimalOf(uni, NumeralOf(uni, s))) else None))
    && (forall s :: IsSpecial(t.doubleText(s)) || BigAccepted(uni, t.doubleText(s)))
  }

  // ---- Numbers ----

  predicate IsIntegerText(s: string) {
    var d := if s != "" && s[0] == '-' then s[1..] else s;
    d != "" && IsDigits(d)
  }

  /** The text the legacy service compares a number by. */
  function NumberText(t: Tables, s: string): string {
    if IsIntegerText(s) then
      var neg := s[0] == '-';
      var digits := TrimLeft(if neg then s[1..] else s);
      if digits == "" then "0" else SignText(neg) + digits
    else t.doubleText(s)
  }

  function NumberKey(t: Tables, s: string): string {
    var text := NumberText(t, s);
    match t.parse(text) case Some(d) => DecimalString(d) case None => text
  }

  /** Numbers are the same by their exact value, and by their text where they have none. */
  predicate SameNumber(t: Tables, a: string, b: string) {
    match (t.parse(NumberText(t, a)), t.parse(NumberText(t, b)))
    case (Some(d), Some(e)) => d == e
    case (None, None) => NumberText(t, a) == NumberText(t, b)
    case _ => false
  }

  lemma IntegerAccepted(uni: UnicodeDigits, neg: bool, digits: string)
    requires IsDigits(digits) && digits != ""
    ensures BigAccepted(uni, SignText(neg) + digits)
  {
    ReadPlain(uni, neg, digits);
    NumeralOfIs(uni, Plain(neg, digits), SignText(neg) + digits);
  }

  /** An integer text has an exact value. */
  lemma IntegerHasValue(uni: UnicodeDigits, t: Tables, neg: bool, digits: string)
    requires Sound(uni, t) && IsDigits(digits) && digits != ""
    ensures t.parse(SignText(neg) + digits).Some? && Normal(t.parse(SignText(neg) + digits).value)
  {
    IntegerAccepted(uni, neg, digits);
  }

  lemma IntegerTextKinds(uni: UnicodeDigits, t: Tables, s: string)
    requires Sound(uni, t) && IsIntegerText(s)
    ensures t.parse(NumberText(t, s)).Some? && Normal(t.parse(NumberText(t, s)).value)
  {
    var neg := s[0] == '-';
    var digits := TrimLeft(if neg then s[1..] else s);
    if digits == "" {
      IntegerHasValue(uni, t, false, "0");
      assert SignText(false) + "0" == "0";
    } else {
      IntegerHasValue(uni, t, neg, digits);
    }
  }

  /** A number without an exact value is one of the three special texts. */
  lemma NumberKinds(uni: UnicodeDigits, t: Tables, s: string)
    requires Sound(uni, t)
    ensures match t.parse(NumberText(t, s)) case Some(d) => Normal(d) case None => IsSpecial(NumberText(t, s))
  {
    if IsIntegerText(s) { IntegerTextKinds(uni, t, s); }
  }

  predicate Delimits(c: char) { c == ',' || c == ']' || c == '}' }

  /** A text with no delimiter that starts as no other kind of value does. */
  predicate NumberLike(k: string) {
    && k != ""
    && (k[0] == '-' || k[0] == 'I' || k[0] == 'N' || AsciiDigit(k[0]))
    && (forall i :: 0 <= i < |k| ==> !Delimits(k[i]))
  }

  predicate PlainChars(s: string) {
    forall i :: 0 <= i < |s| ==> AsciiDigit(s[i]) || s[i] == '-' || s[i] == '.' || s[i] == 'e'
  }

  lemma PlainConcat(a: string, b: string)
    requires PlainChars(a) && PlainChars(b)
    ensures PlainChars(a + b)
  {
  }

  lemma DigitsPlain(s: string)
    requires IsDigits(s)
    ensures PlainChars(s)
  {
  }

  lemma ScientificPlain(d: Decimal)
    requires Normal(d) && !d.IsZero()
    ensures PlainChars(Spread(d.coef) + ExponentText("e", false, d.Adjusted()))
  {
    DigitsPlain(d.coef);
    DigitsPlain(FormatNat(Natural(d.Adjusted())));
    PlainConcat("e", "" + FormatInt(d.Adjusted()));
    PlainConcat(Spread(d.coef), ExponentText("e", false, d.Adjusted()));
  }

  lemma DecimalBodyPlain(d: Decimal)
    requires Normal(d) && !d.IsZero()
    ensures DecimalBody(d) != "" && AsciiDigit(DecimalBody(d)[0]) && PlainChars(DecimalBody(d))
  {
    var adj := d.Adjusted();
    DigitsPlain(d.coef);
    if InScientific(d) {
      ScientificPlain(d);
    } else if d.exp >= 0 {
      PlainConcat(d.coef, Zeros(d.exp));
    } else if adj >= 0 {
      PlainConcat(d.coef[..adj + 1], ".");
      PlainConcat(d.coef[..adj + 1] + ".", d.coef[adj + 1..]);
    } else {
      PlainConcat(Zeros(-adj - 1), d.coef);
      PlainConcat("0" + ".", Zeros(-adj - 1) + d.coef);
    }
  }

  lemma SignedPlain(neg: bool, body: string)
    requires body != "" && AsciiDigit(body[0]) && PlainChars(body)
    ensures NumberLike(SignText(neg) + body) && !IsSpecial(SignText(neg) + body)
  {
    var s := SignText(neg) + body;
    PlainConcat(SignText(neg), body);
    assert neg ==> s[0] == '-' && s[1] == body[0];
    assert !neg ==> s[0] == body[0];
  }

  lemma DecimalStringLike(d: Decimal)
    requires Normal(d)
    ensures NumberLike(DecimalString(d)) && !IsSpecial(DecimalString(d))
  {
    if !d.IsZero() {
      DecimalBodyPlain(d);
      SignedPlain(d.neg, DecimalBody(d));
    }
  }

  lemma NumberKeyLike(uni: UnicodeDigits, t: Tables, s: string)
    requires Sound(uni, t)
    ensures NumberLike(NumberKey(t, s))
  {
    NumberKinds(uni, t, s);
    if t.parse(NumberText(t, s)).Some? { DecimalStringLike(t.parse(NumberText(t, s)).value); }
  }

  /** Number keys are equal exactly for numbers that are the same. */
  lemma NumberKeyInjective(uni: UnicodeDigits, t: Tables, a: string, b: string)
    requires Sound(uni, t)
    ensures NumberKey(t, a) == NumberKey(t, b) <==> SameNumber(t, a, b)
  {
    NumberKinds(uni, t, a);
    NumberKinds(uni, t, b);
    var x, y := t.parse(NumberText(t, a)), t.parse(NumberText(t, b));
    if x.Some? { DecimalStringLike(x.value); }
    if y.Some? { DecimalStringLike(y.value); }
    if x.Some? && y.Some? && NumberKey(t, a) == NumberKey(t, b) {
      StringInjective(x.value, y.value);
    }
  }

  // ---- The key of a value ----

  function KeysOf(ms: seq<Member>): (ks: seq<string>)
    ensures |ks| == |ms| && forall i :: 0 <= i < |ms| ==> ks[i] == ms[i].key
  {
    seq(|ms|, i requires 0 <= i < |ms| => ms[i].key)
  }

  /** The keys of an object in key order. */
  function SortedKeys(ms: seq<Member>): (ks: seq<string>)
    ensures forall k :: k in ks <==> exists i :: 0 <= i < |ms| && ms[i].key == k
    ensures forall k :: k in ks ==> Get(ms, k).Some?
  {
    var ks := Sort(KeysOf(ms));
    assert forall k :: k in ks <==> exists i :: 0 <= i < |ms| && ms[i].key == k by {
      forall k ensures k in ks <==> exists i :: 0 <= i < |ms| && ms[i].key == k {
        SortMembers(KeysOf(ms), k);
        if i :| 0 <= i < |ms| && ms[i].key == k { assert KeysOf(ms)[i] == k; }
      }
    }
    ks
  }

  predicate Holds(v: Value, keys: seq<string>) {
    v.Object? && forall i :: 0 <= i < |keys| ==> Get(v.members, keys[i]).Some?
  }

  function MemberOf(v: Value, key: string): (m: Value)
    requires v.Object? && Get(v.members, key).Some?
    ensures m < v
    ensures exists i :: 0 <= i < |v.members| && v.members[i] == Member(key, m)
  {
    Get(v.members, key).value
  }

  function Key(t: Tables, v: Value): string
    decreases v, 2
  {
    match v
    case Null => "null"
    case Bool(b) => if b then "true" else "false"
    case Number(text) => NumberKey(t, text)
    case Str(s) => Quote(t.isPrint, s)
    case List(elems) => "[" + ListBody(t, elems)
    case Object(members) => "{" + ObjectBody(t, v, SortedKeys(members))
  }

  function ListBody(t: Tables, es: seq<Value>): string
    decreases es, 1
  {
    if es == [] then "]" else Key(t, es[0]) + ListTail(t, es[1..])
  }

  function ListTail(t: Tables, es: seq<Value>): string
    decreases es, 0
  {
    if es == [] then "]" else "," + (Key(t, es[0]) + ListTail(t, es[1..]))
  }

  function Entry(t: Tables, v: Value, key: string): string
    requires v.Object? && Get(v.members, key).Some?
    decreases v, 0
  {
    Quote(t.isPrint, key) + (":" + Key(t, MemberOf(v, key)))
  }

  function ObjectBody(t: Tables, v: Value, keys: seq<string>): string
    requires Holds(v, keys)
    decreases v, 1, |keys| + 1
  {
    if keys == [] then "}" else Entry(t, v, keys[0]) + ObjectTail(t, v, keys[1..])
  }

  function ObjectTail(t: Tables, v: Value, keys: seq<string>): string
    requires Holds(v, keys)
    decreases v, 1, |keys|
  {
    if keys == [] then "}" else "," + (Entry(t, v, keys[0]) + ObjectTail(t, v, keys[1..]))
  }

  // ---- Same structure ----

  /** Objects hold each key once, at every depth. */
  predicate WellFormedValue(v: Value) {
    match v
    case List(elems) => forall i :: 0 <= i < |elems| ==> WellFormedValue(elems[i])
    case Object(members) => DistinctKeys(members) && forall i :: 0 <= i < |members| ==> WellFormedValue(members[i].value)
    case _ => true
  }

  /** Objects as maps, lists in order, strings by their text, numbers by `SameNumber`. */
  ghost predicate SameStructure(t: Tables, v: Value, w: Value)
    decreases v
  {
    match (v, w)
    case (Null, Null) => true
    case (Bool(a), Bool(b)) => a == b
    case (Number(a), Number(b)) => SameNumber(t, a, b)
    case (Str(a), Str(b)) => a == b
    case (List(es), List(fs)) => |es| == |fs| && forall i :: 0 <= i < |es| ==> SameStructure(t, es[i], fs[i])
    case (Object(ms), Object(ns)) =>
      && (forall k :: Get(ms, k).Some? <==> Get(ns, k).Some?)
      && (forall i, j :: 0 <= i < |ms| && 0 <= j < |ns| && ms[i].key == ns[j].key ==> SameStructure(t, ms[i].value, ns[j].value))
    case _ => false
  }

  // ---- Values of one structure have one key ----

  lemma SameKeys(ms: seq<Member>, ns: seq<Member>)
    requires DistinctKeys(ms) && DistinctKeys(ns) && forall k :: Get(ms, k).Some? <==> Get(ns, k).Some?
    ensures SortedKeys(ms) == SortedKeys(ns)
  {
    SortDistinct(KeysOf(ms));
    SortDistinct(KeysOf(ns));
    forall k ensures k in SortedKeys(ms) <==> k in SortedKeys(ns) {
      assert k in SortedKeys(ms) <==> Get(ms, k).Some?;
      assert k in SortedKeys(ns) <==> Get(ns, k).Some?;
    }
    AscendingUnique(SortedKeys(ms), SortedKeys(ns));
  }

  lemma {:induction false} KeyOfSame(t: Tables, v: Value, w: Value)
    requires SameStructure(t, v, w) && WellFormedValue(v) && WellFormedValue(w)
    ensures Key(t, v) == Key(t, w)
    decreases v, 1
  {
    match (v, w)
    case (Number(a), Number(b)) => assert NumberKey(t, a) == NumberKey(t, b);
    case (List(es), List(fs)) =>
      if es != [] {
        KeyOfSame(t, es[0], fs[0]);
        TailOfSame(t, es[1..], fs[1..]);
      }
    case (Object(ms), Object(ns)) =>
      SameKeys(ms, ns);
      EntriesOfSame(t, v, w, SortedKeys(ms));
    case _ =>
  }

  lemma {:induction false} TailOfSame(t: Tables, es: seq<Value>, fs: seq<Value>)
    requires |es| == |fs|
    requires forall i :: 0 <= i < |es| ==> SameStructure(t, es[i], fs[i]) && WellFormedValue(es[i]) && WellFormedValue(fs[i])
    ensures ListTail(t, es) == ListTail(t, fs)
    decreases es, 0
  {
    if es != [] {
      KeyOfSame(t, es[0], fs[0]);
      TailOfSame(t, es[1..], fs[1..]);
    }
  }

  lemma EntryOfSame(t: Tables, v: Value, w: Value, key: string)
    requires v.Object? && w.Object? && SameStructure(t, v, w) && WellFormedValue(v) && WellFormedValue(w)
    requires Get(v.members, key).Some? && Get(w.members, key).Some?
    ensures Entry(t, v, key) == Entry(t, w, key)
    decreases v, 0, 0
  {
    var i :| 0 <= i < |v.members| && v.members[i] == Member(key, MemberOf(v, key));
    var j :| 0 <= j < |w.members| && w.members[j] == Member(key, MemberOf(w, key));
    KeyOfSame(t, v.members[i].value, w.members[j].value);
  }

  lemma {:induction false} EntriesOfSame(t: Tables, v: Value, w: Value, keys: seq<string>)
    requires v.Object? && w.Object? && SameStructure(t, v, w) && WellFormedValue(v) && WellFormedValue(w)
    requires Holds(v, keys) && Holds(w, keys)
    ensures ObjectBody(t, v, keys) == ObjectBody(t, w, keys) && ObjectTail(t, v, keys) == ObjectTail(t, w, keys)
    decreases v, 0, 1, |keys|
  {
    if keys != [] {
      EntryOfSame(t, v, w, keys[0]);
      EntriesOfSame(t, v, w, keys[1..]);
    }
  }

  // ---- Values of one key have one structure ----

  predicate Ends(x: string) { x == "" || Delimits(x[0]) }

  predicate IsToken(v: Value) { v.Null? || v.Bool? || v.Number? }

  predicate NoDelimiter(s: string) { forall i :: 0 <= i < |s| ==> !Delimits(s[i]) }

  /** A text without delimiters is delimited by what follows it. */
  lemma TokenUnique(a: string, x: string, b: string, y: string)
    requires a + x == b + y && NoDelimiter(a) && NoDelimiter(b) && Ends(x) && Ends(y)
    ensures a == b && x == y
  {
    var s := a + x;
    assert s == b + y;
    assert s[..|a|] == a && s[|a|..] == x && s[..|b|] == b && s[|b|..] == y;
  }

  /** The first character of a key tells the kind of its value. */
  lemma KeyStarts(uni: UnicodeDigits, t: Tables, v: Value)
    requires Sound(uni, t)
    ensures var k := Key(t, v);
            && k != "" && !Delimits(k[0])
            && (v.Null? <==> k[0] == 'n') && (v == Bool(true) <==> k[0] == 't') && (v == Bool(false) <==> k[0] == 'f')
            && (v.Str? <==> k[0] == '"') && (v.List? <==> k[0] == '[') && (v.Object? <==> k[0] == '{')
            && (IsToken(v) ==> NoDelimiter(k))
  {
    if v.Number? { NumberKeyLike(uni, t, v.text); }
  }

  lemma {:induction false} KeyUnique(uni: UnicodeDigits, t: Tables, v: Value, x: string, w: Value, y: string)
    requires Sound(uni, t) && WellFormedValue(v) && WellFormedValue(w)
    requires Key(t, v) + x == Key(t, w) + y && Ends(x) && Ends(y)
    ensures SameStructure(t, v, w) && x == y
    decreases v, 1
  {
    KeyStarts(uni, t, v);
    KeyStarts(uni, t, w);
    SameFirst(Key(t, v), x, Key(t, w), y);
    match v
    case Str(s) =>
      QuoteUnique(t.isPrint, s, x, w.s, y);
    case List(es) =>
      Assoc("[", ListBody(t, es), x);
      Assoc("[", ListBody(t, w.elems), y);
      Cut("[", ListBody(t, es) + x, "[", ListBody(t, w.elems) + y);
      ListBodyUnique(uni, t, es, x, w.elems, y);
    case Object(ms) =>
      var a, b := ObjectBody(t, v, SortedKeys(ms)), ObjectBody(t, w, SortedKeys(w.members));
      Assoc("{", a, x);
      Assoc("{", b, y);
      Cut("{", a + x, "{", b + y);
      ObjectBodyUnique(uni, t, v, SortedKeys(ms), x, w, SortedKeys(w.members), y);
      SameMembers(t, v, w);
    case Number(text) =>
      TokenUnique(Key(t, v), x, Key(t, w), y);
      NumberKeyInjective(uni, t, text, w.text);
    case _ =>
      TokenUnique(Key(t, v), x, Key(t, w), y);
  }

  lemma {:induction false} ListBodyUnique(uni: UnicodeDigits, t: Tables, es: seq<Value>, x: string, fs: seq<Value>, y: string)
    requires Sound(uni, t) && ListBody(t, es) + x == ListBody(t, fs) + y
    requires forall i :: 0 <= i < |es| ==> WellFormedValue(es[i])
    requires forall i :: 0 <= i < |fs| ==> WellFormedValue(fs[i])
    ensures |es| == |fs| && x == y && forall i :: 0 <= i < |es| ==> SameStructure(t, es[i], fs[i])
    decreases es, 1
  {
    if es != [] { KeyStarts(uni, t, es[0]); }
    if fs != [] { KeyStarts(uni, t, fs[0]); }
    SameFirst(ListBody(t, es), x, ListBody(t, fs), y);
    if es == [] {
      Cut("]", x, "]", y);
    } else {
      ElementUnique(uni, t, es, x, fs, y);
    }
  }

  /** The first elements, and then the rest. */
  lemma {:induction false} ElementUnique(uni: UnicodeDigits, t: Tables, es: seq<Value>, x: string, fs: seq<Value>, y: string)
    requires Sound(uni, t) && es != [] && fs != []
    requires (Key(t, es[0]) + ListTail(t, es[1..])) + x == (Key(t, fs[0]) + ListTail(t, fs[1..])) + y
    requires forall i :: 0 <= i < |es| ==> WellFormedValue(es[i])
    requires forall i :: 0 <= i < |fs| ==> WellFormedValue(fs[i])
    ensures |es| == |fs| && x == y && forall i :: 0 <= i < |es| ==> SameStructure(t, es[i], fs[i])
    decreases es, 0
  {
    var a, b := ListTail(t, es[1..]), ListTail(t, fs[1..]);
    Assoc(Key(t, es[0]), a, x);
    Assoc(Key(t, fs[0]), b, y);
    KeyUnique(uni, t, es[0], a + x, fs[0], b + y);
    ListTailUnique(uni, t, es[1..], x, fs[1..], y);
    assert es == [es[0]] + es[1..] && fs == [fs[0]] + fs[1..];
  }

  lemma {:induction false} ListTailUnique(uni: UnicodeDigits, t: Tables, es: seq<Value>, x: string, fs: seq<Value>, y: string)
    requires Sound(uni, t) && ListTail(t, es) + x == ListTail(t, fs) + y
    requires forall i :: 0 <= i < |es| ==> WellFormedValue(es[i])
    requires forall i :: 0 <= i < |fs| ==> WellFormedValue(fs[i])
    ensures |es| == |fs| && x == y && forall i :: 0 <= i < |es| ==> SameStructure(t, es[i], fs[i])
    decreases es, 1
  {
    SameFirst(ListTail(t, es), x, ListTail(t, fs), y);
    if es == [] {
      Cut("]", x, "]", y);
    } else {
      var a, b := Key(t, es[0]) + ListTail(t, es[1..]), Key(t, fs[0]) + ListTail(t, fs[1..]);
      Assoc(",", a, x);
      Assoc(",", b, y);
      Cut(",", a + x, ",", b + y);
      ElementUnique(uni, t, es, x, fs, y);
    }
  }

  lemma {:induction false} ObjectBodyUnique(uni: UnicodeDigits, t: Tables, v: Value, ks: seq<string>, x: string, w: Value, ls: seq<string>, y: string)
    requires Sound(uni, t) && WellFormedValue(v) && WellFormedValue(w) && Holds(v, ks) && Holds(w, ls)
    requires ObjectBody(t, v, ks) + x == ObjectBody(t, w, ls) + y
    ensures ks == ls && x == y && SameAt(t, v, w, ks)
    decreases v, 0, |ks| + 1
  {
    EntryStarts(t, v, ks);
    EntryStarts(t, w, ls);
    SameFirst(ObjectBody(t, v, ks), x, ObjectBody(t, w, ls), y);
    if ks == [] {
      Cut("}", x, "}", y);
    } else {
      EntryUnique(uni, t, v, ks, x, w, ls, y);
    }
  }

  lemma EntryStarts(t: Tables, v: Value, ks: seq<string>)
    requires Holds(v, ks)
    ensures ObjectBody(t, v, ks) != "" && (ObjectBody(t, v, ks)[0] == '}' <==> ks == [])
  {
    if ks != [] {
      assert Entry(t, v, ks[0])[0] == '"';
    }
  }

  /** The values of these keys have the same structure in both objects. */
  ghost predicate SameAt(t: Tables, v: Value, w: Value, ks: seq<string>)
    requires Holds(v, ks) && Holds(w, ks)
  {
    forall i :: 0 <= i < |ks| ==> SameStructure(t, MemberOf(v, ks[i]), MemberOf(w, ks[i]))
  }

  lemma {:induction false} EntryUnique(uni: UnicodeDigits, t: Tables, v: Value, ks: seq<string>, x: string, w: Value, ls: seq<string>, y: string)
    requires Sound(uni, t) && WellFormedValue(v) && WellFormedValue(w) && Holds(v, ks) && Holds(w, ls) && ks != [] && ls != []
    requires (Entry(t, v, ks[0]) + ObjectTail(t, v, ks[1..])) + x == (Entry(t, w, ls[0]) + ObjectTail(t, w, ls[1..])) + y
    ensures ks == ls && x == y && SameAt(t, v, w, ks)
    decreases v, 0, |ks|, 0
  {
    var a, b := ObjectTail(t, v, ks[1..]) + x, ObjectTail(t, w, ls[1..]) + y;
    Assoc(Entry(t, v, ks[0]), ObjectTail(t, v, ks[1..]), x);
    Assoc(Entry(t, w, ls[0]), ObjectTail(t, w, ls[1..]), y);
    KeyedUnique(uni, t, v, ks[0], a, w, ls[0], b);
    ObjectTailUnique(uni, t, v, ks[1..], x, w, ls[1..], y);
    assert ks == [ks[0]] + ks[1..] && ls == [ls[0]] + ls[1..];
    forall i | 0 <= i < |ks| ensures SameStructure(t, MemberOf(v, ks[i]), MemberOf(w, ks[i])) {
      if i > 0 { assert ks[i] == ks[1..][i - 1]; }
    }
  }

  lemma {:induction false} KeyedUnique(uni: UnicodeDigits, t: Tables, v: Value, k: string, x: string, w: Value, l: string, y: string)
    requires Sound(uni, t) && WellFormedValue(v) && WellFormedValue(w) && v.Object? && w.Object?
    requires Get(v.members, k).Some? && Get(w.members, l).Some?
    requires Entry(t, v, k) + x == Entry(t, w, l) + y && Ends(x) && Ends(y)
    ensures k == l && x == y && SameStructure(t, MemberOf(v, k), MemberOf(w, l))
    decreases v, 0, 0
  {
    var m, n := MemberOf(v, k), MemberOf(w, l);
    Assoc(Quote(t.isPrint, k), ":" + Key(t, m), x);
    Assoc(Quote(t.isPrint, l), ":" + Key(t, n), y);
    QuoteUnique(t.isPrint, k, (":" + Key(t, m)) + x, l, (":" + Key(t, n)) + y);
    Assoc(":", Key(t, m), x);
    Assoc(":", Key(t, n), y);
    Cut(":", Key(t, m) + x, ":", Key(t, n) + y);
    KeyUnique(uni, t, m, x, n, y);
  }

  lemma {:induction false} ObjectTailUnique(uni: UnicodeDigits, t: Tables, v: Value, ks: seq<string>, x: string, w: Value, ls: seq<string>, y: string)
    requires Sound(uni, t) && WellFormedValue(v) && WellFormedValue(w) && Holds(v, ks) && Holds(w, ls)
    requires ObjectTail(t, v, ks) + x == ObjectTail(t, w, ls) + y
    ensures ks == ls && x == y && SameAt(t, v, w, ks)
    decreases v, 0, |ks|, 1
  {
    SameFirst(ObjectTail(t, v, ks), x, ObjectTail(t, w, ls), y);
    if ks == [] {
      Cut("}", x, "}", y);
    } else {
      var a, b := Entry(t, v, ks[0]) + ObjectTail(t, v, ks[1..]), Entry(t, w, ls[0]) + ObjectTail(t, w, ls[1..]);
      Assoc(",", a, x);
      Assoc(",", b, y);
      Cut(",", a + x, ",", b + y);
      EntryUnique(uni, t, v, ks, x, w, ls, y);
    }
  }

  /** Objects with one list of keys and the same structure at each are the same as maps. */
  lemma SameMembers(t: Tables, v: Value, w: Value)
    requires v.Object? && w.Object? && WellFormedValue(v) && WellFormedValue(w)
    requires SortedKeys(v.members) == SortedKeys(w.members) && SameAt(t, v, w, SortedKeys(v.members))
    ensures SameStructure(t, v, w)
  {
    var ms, ns, ks := v.members, w.members, SortedKeys(v.members);
    forall k ensures Get(ms, k).Some? <==> Get(ns, k).Some? {
      assert k in ks <==> Get(ms, k).Some?;
      assert k in SortedKeys(ns) <==> Get(ns, k).Some?;
    }
    forall i, j | 0 <= i < |ms| && 0 <= j < |ns| && ms[i].key == ns[j].key
      ensures SameStructure(t, ms[i].value, ns[j].value)
    {
      GetAt(ms, i);
      GetAt(ns, j);
      assert ms[i].key in ks;
      var n :| 0 <= n < |ks| && ks[n] == ms[i].key;
      assert SameStructure(t, MemberOf(v, ks[n]), MemberOf(w, ks[n]));
    }
  }

  /** Two values have one structure key exactly when they have the same structure. */
  lemma KeyIffSameStructure(uni: UnicodeDigits, t: Tables, v: Value, w: Value)
    requires Sound(uni, t) && WellFormedValue(v) && WellFormedValue(w)
    ensures Key(t, v) == Key(t, w) <==> SameStructure(t, v, w)
  {
    if Key(t, v) == Key(t, w) {
      assert Key(t, v) + "" == Key(t, w) + "";
      KeyUnique(uni, t, v, "", w, "");
    }
    if SameStructure(t, v, w) { KeyOfSame(t, v, w); }
  }
}
