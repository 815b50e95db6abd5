/** Case folding and the Java text of a value. */
module LegacyTexts {
  import opened Characters
  import opened JsonValues
  import opened StructureKeys

  // ---- Fold ----

  /** `unicode.ToUpper` and `unicode.ToLower`. */
  datatype Cases = Cases(upper: char -> char, lower: char -> char)

  predicate IsUpper(c: char) { 'A' <= c <= 'Z' }

  function AsciiLower(c: char): char {
    if IsUpper(c) then (c as int + 32) as char else c
  }

  function FoldRune(cases: Cases, c: char): char { cases.lower(cases.upper(c)) }

  /** In ASCII a letter folds to its lower case and nothing else changes. */
  ghost predicate AsciiFolds(cases: Cases) {
    forall c :: IsAscii(c) ==> FoldRune(cases, c) == AsciiLower(c)
  }

  /** The key under which texts are equal when they differ only in case. */
  function Fold(cases: Cases, s: string): (r: string)
    ensures |r| == |s|
  {
    seq(|s|, i requires 0 <= i < |s| => FoldRune(cases, s[i]))
  }

  lemma FoldConcat(cases: Cases, s: string, t: string)
    ensures Fold(cases, s + t) == Fold(cases, s) + Fold(cases, t)
  {
  }

  /** An ASCII text without a capital folds to itself. */
  lemma FoldPlain(cases: Cases, s: string)
    requires AsciiFolds(cases) && forall i :: 0 <= i < |s| ==> IsAscii(s[i]) && !IsUpper(s[i])
    ensures Fold(cases, s) == s
  {
  }

  /** The scan with its two shortcuts for ASCII. */
  method FoldText(cases: Cases, s: string) returns (r: string)
    requires AsciiFolds(cases)
    ensures r == Fold(cases, s)
  {
    var upper := false;
    for i := 0 to |s|
      invariant forall j :: 0 <= j < i ==> IsAscii(s[j])
      invariant upper <==> exists j :: 0 <= j < i && IsUpper(s[j])
    {
      if !IsAscii(s[i]) {
        return Fold(cases, s);
      }
      upper := upper || IsUpper(s[i]);
    }
    if !upper {
      FoldPlain(cases, s);
      return s;
    }
    r := seq(|s|, i requires 0 <= i < |s| => AsciiLower(s[i]));
    assert r == Fold(cases, s);
  }

  // ---- Text ----

  /** Java's String.valueOf. */
  function JavaText(t: Tables, v: Value): string
    decreases v, 1
  {
    match v
    case Null => "null"
    case Bool(b) => if b then "true" else "false"
    case Number(text) => NumberText(t, text)
    case Str(s) => s
    case List(elems) => "[" + TextItems(t, elems) + "]"
    case Object(members) => "{" + TextMembers(t, members) + "}"
  }

  function TextItems(t: Tables, es: seq<Value>): string
    decreases es, 0
  {
    if es == [] then ""
    else TextItems(t, es[..|es| - 1]) + (if |es| > 1 then ", " else "") + JavaText(t, es[|es| - 1])
  }

  function TextMembers(t: Tables, ms: seq<Member>): string
    decreases ms, 0
  {
    if ms == [] then ""
    else TextMembers(t, ms[..|ms| - 1]) + (if |ms| > 1 then ", " else "")
         + ms[|ms| - 1].key + "=" + JavaText(t, ms[|ms| - 1].value)
  }

  lemma TextItemsStep(t: Tables, es: seq<Value>, i: nat)
    requires i < |es|
    ensures TextItems(t, es[..i + 1]) == TextItems(t, es[..i]) + (if i > 0 then ", " else "") + JavaText(t, es[i])
  {
    assert es[..i + 1][..i] == es[..i];
  }
}
