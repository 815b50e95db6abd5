/** The signing keys of the trusted providers: reading a key list, indexing the keys of
    all providers by kid, loading and reloading them.

    A parsed key stands for itself: `Jwk.ref` is its identity, fresh for every parse.
    What a fetch brings is a parameter. */
module TokenKeys {
  import opened Sequences

  datatype Provider = Provider(id: string, audiences: seq<string>, allowMissingAud: bool)

  datatype Jwk = Jwk(ref: nat, keyType: string, curve: string)

  /** `alg` is the algorithm the key declares, "" when it declares none. */
  datatype Key = Key(provider: Provider, id: string, jwk: Jwk, alg: string)

  // ---- Algorithms ----

  function AlgorithmKeyType(alg: string): string {
    if alg in ["RS256", "RS384", "RS512", "PS256", "PS384", "PS512"] then "RSA"
    else if alg in ["ES256", "ES384", "ES512"] then "EC"
    else if alg == "EdDSA" then "OKP"
    else ""
  }

  function AlgorithmCurve(alg: string): Option<string> {
    if alg == "ES256" then Some("P-256")
    else if alg == "ES384" then Some("P-384")
    else if alg == "ES512" then Some("P-521")
    else if alg == "EdDSA" then Some("Ed25519")
    else None
  }

  predicate AcceptsAlgorithm(alg: string) { AlgorithmKeyType(alg) != "" }

  /** A key an accepted token can be verified with: of a known type and curve, and
      declaring, if any, an algorithm of both. */
  predicate Usable(jwk: Jwk, alg: string) {
    && jwk.keyType in ["RSA", "EC", "OKP"]
    && (alg != "" ==> AlgorithmKeyType(alg) == jwk.keyType)
    && (jwk.keyType != "RSA" ==>
        && jwk.curve in ["P-256", "P-384", "P-521", "Ed25519"]
        && (AlgorithmCurve(alg).Some? ==> AlgorithmCurve(alg).value == jwk.curve))
    && (jwk.keyType == "RSA" ==> jwk.curve == "")
  }

  predicate Allows(k: Key, alg: string) {
    if k.alg != "" then alg == k.alg
    else
      && AlgorithmKeyType(alg) == k.jwk.keyType
      && (AlgorithmCurve(alg).Some? ==> AlgorithmCurve(alg).value == k.jwk.curve)
  }

  /** The algorithm signs with keys of this type and curve. */
  predicate Fits(jwk: Jwk, alg: string) {
    && AcceptsAlgorithm(alg) && AlgorithmKeyType(alg) == jwk.keyType
    && (AlgorithmCurve(alg).Some? ==> AlgorithmCurve(alg).value == jwk.curve)
  }

  /** A usable key allows exactly the accepted algorithms that fit it, only its own when
      it declares one: a declared algorithm never admits one that does not fit. */
  lemma AllowsWhatFits(k: Key, alg: string)
    requires Usable(k.jwk, k.alg)
    ensures Allows(k, alg) <==> Fits(k.jwk, alg) && (k.alg == "" || alg == k.alg)
  {
  }

  // ---- Reading a key list ----

  /** An entry of a key list that is no signing key, or the key and its thumbprint. */
  datatype Entry = Skipped | Parsed(id: string, jwk: Jwk, alg: string, thumbprint: string)

  datatype Fetch = Fetched(keys: seq<Key>) | NoUsableKey | Failed

  predicate SameKid(a: Entry, b: Entry) { a.Parsed? && b.Parsed? && a.id == b.id }

  /** Two different keys stand under one kid. */
  predicate Clash(es: seq<Entry>) {
    exists i, j :: 0 <= i < j < |es| && SameKid(es[i], es[j]) && es[i].thumbprint != es[j].thumbprint
  }

  predicate IsFirst(es: seq<Entry>, i: nat)
    requires i < |es|
  {
    es[i].Parsed? && forall j :: 0 <= j < i ==> !SameKid(es[j], es[i])
  }

  /** The first key under each kid, in the order of the list. */
  function Firsts(es: seq<Entry>, n: nat, p: Provider): seq<Key>
    requires n <= |es|
  {
    if n == 0 then []
    else Firsts(es, n - 1, p) + (if IsFirst(es, n - 1) then [Key(p, es[n - 1].id, es[n - 1].jwk, es[n - 1].alg)] else [])
  }

  /** One of the first `n` entries is a key of this kid. */
  predicate Lists(es: seq<Entry>, n: nat, id: string)
    requires n <= |es|
  {
    exists i :: 0 <= i < n && es[i].Parsed? && es[i].id == id
  }

  predicate HasID(ks: seq<Key>, id: string) { exists i :: 0 <= i < |ks| && ks[i].id == id }

  predicate DistinctIDs(ks: seq<Key>) { forall i, j :: 0 <= i < j < |ks| ==> ks[i].id != ks[j].id }

  predicate OwnedBy(ks: seq<Key>, p: Provider) { forall i :: 0 <= i < |ks| ==> ks[i].provider == p }

  /** Each kid of the list has one key among the firsts, and they are the provider's. */
  lemma {:induction false} FirstsAreDistinct(es: seq<Entry>, n: nat, p: Provider)
    requires n <= |es|
    ensures DistinctIDs(Firsts(es, n, p)) && OwnedBy(Firsts(es, n, p), p)
    ensures forall i :: 0 <= i < n && es[i].Parsed? ==> HasID(Firsts(es, n, p), es[i].id)
    ensures forall k :: 0 <= k < |Firsts(es, n, p)| ==> Lists(es, n, Firsts(es, n, p)[k].id)
  {
    if n > 0 {
      FirstsAreDistinct(es, n - 1, p);
      var ks, all := Firsts(es, n - 1, p), Firsts(es, n, p);
      forall i | 0 <= i < n && es[i].Parsed? ensures HasID(all, es[i].id) {
        FirstHasID(es, n, p, i);
      }
      forall k | 0 <= k < |all| ensures Lists(es, n, all[k].id) {
        if k < |ks| { assert Lists(es, n - 1, ks[k].id); } else { assert es[n - 1].id == all[k].id; }
      }
    }
  }

  lemma FirstHasID(es: seq<Entry>, n: nat, p: Provider, i: nat)
    requires 0 < n <= |es| && i < n && es[i].Parsed?
    requires forall j :: 0 <= j < n - 1 && es[j].Parsed? ==> HasID(Firsts(es, n - 1, p), es[j].id)
    ensures HasID(Firsts(es, n, p), es[i].id)
  {
    var ks, all := Firsts(es, n - 1, p), Firsts(es, n, p);
    if i == n - 1 && IsFirst(es, i) {
      assert all[|ks|].id == es[i].id;
    } else {
      var j: nat :| j < n - 1 && es[j].Parsed? && es[j].id == es[i].id;
      var k :| 0 <= k < |ks| && ks[k].id == es[j].id;
      assert all[k] == ks[k];
    }
  }

  /** What reading a key list brings. */
  function FetchOf(es: seq<Entry>, p: Provider): Fetch {
    if Clash(es) then Failed
    else if exists i :: 0 <= i < |es| && es[i].Parsed? then Fetched(Firsts(es, |es|, p))
    else NoUsableKey
  }

  /** The keys of a key list: none may clash, a key listed twice is kept once. */
  method ParseJWKS(es: seq<Entry>, p: Provider) returns (r: Fetch)
    ensures Clash(es) ==> r == Failed
    ensures !Clash(es) && (forall i :: 0 <= i < |es| ==> es[i].Skipped?) ==> r == NoUsableKey
    ensures !Clash(es) && (exists i :: 0 <= i < |es| && es[i].Parsed?) ==> r == Fetched(Firsts(es, |es|, p))
    ensures r == FetchOf(es, p)
  {
    var out: seq<Key> := [];
    var thumbprints: map<string, string> := map[];
    for i := 0 to |es|
      invariant Known(es, i, thumbprints) && !Clash(es[..i])
      invariant out == Firsts(es, i, p)
      invariant out == [] <==> forall j :: 0 <= j < i ==> es[j].Skipped?
    {
      var e := es[i];
      if e.Skipped? {
        NoClash(es, i, thumbprints);
        continue;
      }
      if e.id in thumbprints {
        if thumbprints[e.id] == e.thumbprint {
          NoClash(es, i, thumbprints);
          continue;
        }
        return Failed;
      }
      NoClash(es, i, thumbprints);
      thumbprints := thumbprints[e.id := e.thumbprint];
      out := out + [Key(p, e.id, e.jwk, e.alg)];
    }
    assert es[..|es|] == es;
    r := if |out| == 0 then NoUsableKey else Fetched(out);
  }

  /** The thumbprints recorded are those of the first `n` entries. */
  predicate Known(es: seq<Entry>, n: nat, t: map<string, string>)
    requires n <= |es|
  {
    && (forall j :: 0 <= j < n && es[j].Parsed? ==> es[j].id in t && t[es[j].id] == es[j].thumbprint)
    && forall id :: id in t ==> exists j :: 0 <= j < n && es[j].Parsed? && es[j].id == id
  }

  lemma NoClash(es: seq<Entry>, i: nat, t: map<string, string>)
    requires i < |es| && Known(es, i, t) && !Clash(es[..i])
    requires es[i].Parsed? && es[i].id in t ==> t[es[i].id] == es[i].thumbprint
    ensures !Clash(es[..i + 1])
  {
    var s := es[..i + 1];
    forall a, b | 0 <= a < b < |s| && SameKid(s[a], s[b]) ensures s[a].thumbprint == s[b].thumbprint {
      if b < i { assert es[..i][a] == s[a] && es[..i][b] == s[b]; }
    }
  }

  // ---- Snapshots ----

  /** One generation of the keys: by provider, and all of them by kid. */
  datatype Snapshot = Snapshot(byKID: map<string, Key>, byProvider: map<string, seq<Key>>)

  predicate UniqueIDs(ps: seq<Provider>) { forall i, j :: 0 <= i < j < |ps| ==> ps[i].id != ps[j].id }

  /** The keys of the first `n` providers, in order. */
  function AllKeys(ps: seq<Provider>, held: map<string, seq<Key>>, n: nat): seq<Key>
    requires n <= |ps|
  {
    if n == 0 then [] else AllKeys(ps, held, n - 1) + (if ps[n - 1].id in held then held[ps[n - 1].id] else [])
  }

  function Index(ks: seq<Key>): map<string, Key> {
    if ks == [] then map[] else Index(ks[..|ks| - 1])[ks[|ks| - 1].id := ks[|ks| - 1]]
  }

  /** Where no two keys share a kid, the index holds each of them and nothing else. */
  lemma {:induction false} IndexIsUnion(ks: seq<Key>)
    ensures forall id :: id in Index(ks) <==> HasID(ks, id)
    ensures DistinctIDs(ks) ==> forall i :: 0 <= i < |ks| ==> ks[i].id in Index(ks) && Index(ks)[ks[i].id] == ks[i]
  {
    if ks != [] {
      var n := |ks| - 1;
      IndexIsUnion(ks[..n]);
      forall id ensures id in Index(ks) <==> HasID(ks, id) { HasSnoc(ks, id); }
      forall i | 0 <= i < n && DistinctIDs(ks) ensures ks[i].id in Index(ks) && Index(ks)[ks[i].id] == ks[i] {
        assert ks[..n][i] == ks[i] && HasID(ks[..n], ks[i].id);
      }
    }
  }

  lemma HasSnoc(ks: seq<Key>, id: string)
    requires ks != []
    ensures HasID(ks, id) <==> HasID(ks[..|ks| - 1], id) || ks[|ks| - 1].id == id
  {
    var n := |ks| - 1;
    if HasID(ks[..n], id) {
      var i :| 0 <= i < n && ks[..n][i].id == id;
      assert ks[i].id == id;
    }
    if HasID(ks, id) {
      var i :| 0 <= i < |ks| && ks[i].id == id;
      if i < n { assert ks[..n][i].id == id; }
    }
  }

  /** Indexes the keys of every provider; a kid that appears twice is an error. */
  method NewSnapshot(ps: seq<Provider>, held: map<string, seq<Key>>) returns (r: Option<Snapshot>)
    ensures r.Some? <==> DistinctIDs(AllKeys(ps, held, |ps|))
    ensures r.Some? ==> r.value == Snapshot(Index(AllKeys(ps, held, |ps|)), held)
  {
    var byKID: map<string, Key> := map[];
    for i := 0 to |ps|
      invariant DistinctIDs(AllKeys(ps, held, i)) && byKID == Index(AllKeys(ps, held, i))
    {
      var ks := if ps[i].id in held then held[ps[i].id] else [];
      var more := AddKeys(byKID, ks, AllKeys(ps, held, i));
      if more.None? {
        SharedPrefix(ps, held, i + 1);
        return None;
      }
      byKID := more.value;
    }
    return Some(Snapshot(byKID, held));
  }

  method AddKeys(index: map<string, Key>, ks: seq<Key>, ghost before: seq<Key>) returns (r: Option<map<string, Key>>)
    requires index == Index(before) && DistinctIDs(before)
    ensures r.Some? <==> DistinctIDs(before + ks)
    ensures r.Some? ==> r.value == Index(before + ks)
  {
    var byKID := index;
    assert before + ks[..0] == before;
    for j := 0 to |ks|
      invariant DistinctIDs(before + ks[..j]) && byKID == Index(before + ks[..j])
    {
      var k := ks[j];
      NextKey(before, ks, j);
      if k.id in byKID { return None; }
      byKID := byKID[k.id := k];
    }
    assert ks[..|ks|] == ks;
    return Some(byKID);
  }

  /** One more key: where its kid is taken the whole list repeats it, and otherwise the
      index gets it. */
  lemma NextKey(before: seq<Key>, ks: seq<Key>, j: nat)
    requires j < |ks| && DistinctIDs(before + ks[..j])
    ensures ks[j].id in Index(before + ks[..j]) ==> !DistinctIDs(before + ks)
    ensures ks[j].id !in Index(before + ks[..j]) ==>
              DistinctIDs(before + ks[..j + 1]) && Index(before + ks[..j + 1]) == Index(before + ks[..j])[ks[j].id := ks[j]]
  {
    var held, k := before + ks[..j], ks[j];
    IndexIsUnion(held);
    assert before + ks[..j + 1] == held + [k];
    if k.id in Index(held) {
      Repeated(held, k);
      assert before + ks == (held + [k]) + ks[j + 1..];
      PrefixShares(held + [k], ks[j + 1..]);
    } else {
      Added(held, k);
    }
  }

  lemma Added(ks: seq<Key>, k: Key)
    requires DistinctIDs(ks) && !HasID(ks, k.id)
    ensures DistinctIDs(ks + [k]) && Index(ks + [k]) == Index(ks)[k.id := k]
  {
    assert (ks + [k])[..|ks|] == ks;
  }

  lemma Repeated(ks: seq<Key>, k: Key)
    requires HasID(ks, k.id)
    ensures !DistinctIDs(ks + [k])
  {
    var i :| 0 <= i < |ks| && ks[i].id == k.id;
    assert (ks + [k])[i].id == (ks + [k])[|ks|].id;
  }

  /** Keys that share a kid do so with all the rest. */
  lemma PrefixShares(a: seq<Key>, b: seq<Key>)
    requires !DistinctIDs(a)
    ensures !DistinctIDs(a + b)
  {
    var i, j :| 0 <= i < j < |a| && a[i].id == a[j].id;
    assert (a + b)[i].id == (a + b)[j].id;
  }

  lemma {:induction false} SharedPrefix(ps: seq<Provider>, held: map<string, seq<Key>>, i: nat)
    requires i <= |ps| && !DistinctIDs(AllKeys(ps, held, i))
    ensures !DistinctIDs(AllKeys(ps, held, |ps|))
    decreases |ps| - i
  {
    if i < |ps| {
      PrefixShares(AllKeys(ps, held, i), if ps[i].id in held then held[ps[i].id] else []);
      SharedPrefix(ps, held, i + 1);
    }
  }
}
