/** The key set: loaded once, reloaded any number of times, whatever the fetches bring. */
module KeySets {
  import opened Sequences
  import opened TokenKeys

  // ---- What a load and a reload publish ----

  /** What reading a provider's key list can bring. */
  predicate Readable(p: Provider, f: Fetch) { f.Fetched? ==> f.keys != [] && DistinctIDs(f.keys) && OwnedBy(f.keys, p) }

  predicate AllReadable(ps: seq<Provider>, fs: seq<Fetch>) {
    |fs| == |ps| && forall i :: 0 <= i < |ps| ==> Readable(ps[i], fs[i])
  }

  predicate AllFetched(fs: seq<Fetch>) { forall i :: 0 <= i < |fs| ==> fs[i].Fetched? }

  function Held(ps: seq<Provider>, s: Snapshot, i: nat): seq<Key>
    requires i < |ps|
  {
    if ps[i].id in s.byProvider then s.byProvider[ps[i].id] else []
  }

  /** The keys of a provider after a fetch: a failed one changes nothing. */
  function Kept(f: Fetch, old_: seq<Key>): seq<Key> {
    match f case Fetched(ks) => ks case NoUsableKey => [] case Failed => old_
  }

  function NewList(ps: seq<Provider>, s: Snapshot, fs: seq<Fetch>, i: nat): seq<Key>
    requires i < |ps| == |fs|
  {
    Kept(fs[i], Held(ps, s, i))
  }

  /** The key lists of the first `n` providers after the fetches. */
  function Merged(ps: seq<Provider>, s: Snapshot, fs: seq<Fetch>, n: nat): map<string, seq<Key>>
    requires n <= |ps| == |fs|
  {
    if n == 0 then map[] else Merged(ps, s, fs, n - 1)[ps[n - 1].id := NewList(ps, s, fs, n - 1)]
  }

  function Published(ps: seq<Provider>, held: map<string, seq<Key>>): Snapshot {
    Snapshot(Index(AllKeys(ps, held, |ps|)), held)
  }

  function Refreshed(ps: seq<Provider>, s: Snapshot, fs: seq<Fetch>): Snapshot
    requires |ps| == |fs|
  {
    var held := Merged(ps, s, fs, |ps|);
    if DistinctIDs(AllKeys(ps, held, |ps|)) then Published(ps, held) else s
  }

  const EMPTY := Snapshot(map[], map[])

  // ---- The invariant of a published snapshot ----

  predicate Owned(ps: seq<Provider>, held: map<string, seq<Key>>) {
    forall i :: 0 <= i < |ps| ==> ps[i].id in held && OwnedBy(held[ps[i].id], ps[i])
  }

  /** The index is the disjoint union of the providers' lists: a kid is found exactly
      when some provider lists it, no other key has it, and the key found is the
      provider's own. */
  ghost predicate DisjointUnion(ps: seq<Provider>, s: Snapshot) {
    && (forall i, k :: 0 <= i < |ps| && 0 <= k < |Held(ps, s, i)| ==>
          var key := Held(ps, s, i)[k];
          key.id in s.byKID && s.byKID[key.id] == key && key.provider == ps[i])
    && (forall kid :: kid in s.byKID ==> s.byKID[kid].id == kid && SomeoneHolds(ps, s, s.byKID[kid]))
    && (forall i, j :: 0 <= i < j < |ps| ==> NoSharedKid(Held(ps, s, i), Held(ps, s, j)))
    && (forall i :: 0 <= i < |ps| ==> DistinctIDs(Held(ps, s, i)))
  }

  predicate NoSharedKid(a: seq<Key>, b: seq<Key>) { forall k, m :: 0 <= k < |a| && 0 <= m < |b| ==> a[k].id != b[m].id }

  predicate SomeoneHolds(ps: seq<Provider>, s: Snapshot, key: Key) {
    exists i, k :: 0 <= i < |ps| && 0 <= k < |Held(ps, s, i)| && Held(ps, s, i)[k] == key
  }

  predicate SnapshotOk(ps: seq<Provider>, s: Snapshot) {
    Owned(ps, s.byProvider) && DistinctIDs(AllKeys(ps, s.byProvider, |ps|)) && s == Published(ps, s.byProvider)
  }

  /** Where the list of provider `i` starts among all keys. */
  function Offset(ps: seq<Provider>, s: Snapshot, i: nat): nat
    requires i <= |ps|
  {
    |AllKeys(ps, s.byProvider, i)|
  }

  lemma {:induction false} AllKeysAt(ps: seq<Provider>, s: Snapshot, n: nat, i: nat, k: nat)
    requires i < n <= |ps| && k < |Held(ps, s, i)|
    ensures Offset(ps, s, i) + k < Offset(ps, s, n)
    ensures AllKeys(ps, s.byProvider, n)[Offset(ps, s, i) + k] == Held(ps, s, i)[k]
    ensures i < n - 1 ==> Offset(ps, s, i) + k < Offset(ps, s, n - 1)
    decreases n
  {
    if i < n - 1 { AllKeysAt(ps, s, n - 1, i, k); }
  }

  lemma {:induction false} PlaceOf(ps: seq<Provider>, s: Snapshot, n: nat, x: nat) returns (i: nat, k: nat)
    requires n <= |ps| && x < Offset(ps, s, n)
    ensures i < n && k < |Held(ps, s, i)| && Held(ps, s, i)[k] == AllKeys(ps, s.byProvider, n)[x]
    ensures x == Offset(ps, s, i) + k
    decreases n
  {
    var m := Offset(ps, s, n - 1);
    if x < m { i, k := PlaceOf(ps, s, n - 1, x); } else { i, k := n - 1, x - m; }
  }

  lemma {:induction false} OffsetMonotone(ps: seq<Provider>, s: Snapshot, i: nat, j: nat)
    requires i <= j <= |ps|
    ensures Offset(ps, s, i) <= Offset(ps, s, j)
    decreases j
  {
    if i < j { OffsetMonotone(ps, s, i, j - 1); }
  }

  /** Two keys at different places have different kids. */
  lemma PlacesDiffer(ps: seq<Provider>, s: Snapshot, i: nat, k: nat, j: nat, m: nat)
    requires DistinctIDs(AllKeys(ps, s.byProvider, |ps|))
    requires i < |ps| && j < |ps| && k < |Held(ps, s, i)| && m < |Held(ps, s, j)|
    requires i < j || (i == j && k < m)
    ensures Held(ps, s, i)[k].id != Held(ps, s, j)[m].id
  {
    AllKeysAt(ps, s, |ps|, i, k);
    AllKeysAt(ps, s, |ps|, j, m);
    if i < j {
      AllKeysAt(ps, s, i + 1, i, k);
      OffsetMonotone(ps, s, i + 1, j);
    }
  }

  lemma SnapshotIsUnion(ps: seq<Provider>, s: Snapshot)
    requires SnapshotOk(ps, s)
    ensures DisjointUnion(ps, s)
  {
    var all := AllKeys(ps, s.byProvider, |ps|);
    IndexIsUnion(all);
    forall i, k | 0 <= i < |ps| && 0 <= k < |Held(ps, s, i)|
      ensures var key := Held(ps, s, i)[k]; key.id in s.byKID && s.byKID[key.id] == key && key.provider == ps[i]
    {
      AllKeysAt(ps, s, |ps|, i, k);
    }
    forall kid | kid in s.byKID ensures s.byKID[kid].id == kid && SomeoneHolds(ps, s, s.byKID[kid]) {
      var x :| 0 <= x < |all| && all[x].id == kid;
      var i, k := PlaceOf(ps, s, |ps|, x);
    }
    forall i, j | 0 <= i < j < |ps| ensures NoSharedKid(Held(ps, s, i), Held(ps, s, j)) { DistinctApart(ps, s, i, j); }
    HeldDistinct(ps, s);
  }

  // ---- Reloads ----

  lemma {:induction false} MergedAt(ps: seq<Provider>, s: Snapshot, fs: seq<Fetch>, n: nat, i: nat)
    requires i < n <= |ps| == |fs| && UniqueIDs(ps)
    ensures ps[i].id in Merged(ps, s, fs, n) && Merged(ps, s, fs, n)[ps[i].id] == NewList(ps, s, fs, i)
    decreases n
  {
    if i < n - 1 { MergedAt(ps, s, fs, n - 1, i); }
  }

  /** Two providers' key lists after the fetches hold one kid. */
  predicate KidShared(ps: seq<Provider>, s: Snapshot, fs: seq<Fetch>)
    requires |ps| == |fs|
  {
    exists i, j :: 0 <= i < j < |ps| && !NoSharedKid(NewList(ps, s, fs, i), NewList(ps, s, fs, j))
  }

  /** A reload replaces nothing when two providers' new lists share a kid; otherwise each
      provider has its fetched keys, its old ones, or none, as its fetch went. */
  lemma RefreshPerProvider(ps: seq<Provider>, s: Snapshot, fs: seq<Fetch>)
    requires UniqueIDs(ps) && SnapshotOk(ps, s) && AllReadable(ps, fs)
    ensures SnapshotOk(ps, Refreshed(ps, s, fs))
    ensures KidShared(ps, s, fs) ==> Refreshed(ps, s, fs) == s
    ensures !KidShared(ps, s, fs) ==>
              forall i :: 0 <= i < |ps| ==> Held(ps, Refreshed(ps, s, fs), i) == NewList(ps, s, fs, i)
  {
    SharedIsRefused(ps, s, fs);
    MergedOwned(ps, s, fs);
    MergedHeld(ps, s, fs);
  }

  lemma MergedHeld(ps: seq<Provider>, s: Snapshot, fs: seq<Fetch>)
    requires UniqueIDs(ps) && |ps| == |fs|
    ensures forall i :: 0 <= i < |ps| ==> Held(ps, Published(ps, Merged(ps, s, fs, |ps|)), i) == NewList(ps, s, fs, i)
  {
    forall i | 0 <= i < |ps| ensures Held(ps, Published(ps, Merged(ps, s, fs, |ps|)), i) == NewList(ps, s, fs, i) {
      MergedAt(ps, s, fs, |ps|, i);
    }
  }

  lemma MergedOwned(ps: seq<Provider>, s: Snapshot, fs: seq<Fetch>)
    requires UniqueIDs(ps) && AllReadable(ps, fs)
    requires forall i :: 0 <= i < |ps| ==> OwnedBy(Held(ps, s, i), ps[i])
    ensures Owned(ps, Merged(ps, s, fs, |ps|))
  {
    var held := Merged(ps, s, fs, |ps|);
    forall i | 0 <= i < |ps| ensures ps[i].id in held && OwnedBy(held[ps[i].id], ps[i]) {
      MergedAt(ps, s, fs, |ps|, i);
      assert Readable(ps[i], fs[i]);
    }
  }

  lemma HeldDistinct(ps: seq<Provider>, s: Snapshot)
    requires DistinctIDs(AllKeys(ps, s.byProvider, |ps|))
    ensures forall i :: 0 <= i < |ps| ==> DistinctIDs(Held(ps, s, i))
  {
    forall i, k, m | 0 <= i < |ps| && 0 <= k < m < |Held(ps, s, i)| ensures Held(ps, s, i)[k].id != Held(ps, s, i)[m].id {
      PlacesDiffer(ps, s, i, k, i, m);
    }
  }

  lemma SharedIsRefused(ps: seq<Provider>, s: Snapshot, fs: seq<Fetch>)
    requires UniqueIDs(ps) && DistinctIDs(AllKeys(ps, s.byProvider, |ps|)) && AllReadable(ps, fs)
    ensures KidShared(ps, s, fs) <==> !DistinctIDs(AllKeys(ps, Merged(ps, s, fs, |ps|), |ps|))
  {
    MergedHeld(ps, s, fs);
    HeldDistinct(ps, s);
    SharedIffNotDistinct(ps, s, fs, Published(ps, Merged(ps, s, fs, |ps|)));
  }

  lemma SharedIffNotDistinct(ps: seq<Provider>, s: Snapshot, fs: seq<Fetch>, t: Snapshot)
    requires AllReadable(ps, fs) && forall i :: 0 <= i < |ps| ==> DistinctIDs(Held(ps, s, i))
    requires forall i :: 0 <= i < |ps| ==> Held(ps, t, i) == NewList(ps, s, fs, i)
    ensures KidShared(ps, s, fs) <==> !DistinctIDs(AllKeys(ps, t.byProvider, |ps|))
  {
    forall i | 0 <= i < |ps| ensures DistinctIDs(Held(ps, t, i)) { assert Readable(ps[i], fs[i]); }
    ApartIffDistinct(ps, t);
    if KidShared(ps, s, fs) {
      var i, j :| 0 <= i < j < |ps| && !NoSharedKid(NewList(ps, s, fs, i), NewList(ps, s, fs, j));
      assert !NoSharedKid(Held(ps, t, i), Held(ps, t, j));
    } else {
      forall i, j | 0 <= i < j < |ps| ensures NoSharedKid(Held(ps, t, i), Held(ps, t, j)) {
        assert NoSharedKid(NewList(ps, s, fs, i), NewList(ps, s, fs, j));
      }
    }
  }

  predicate Apart(ps: seq<Provider>, t: Snapshot) {
    forall i, j :: 0 <= i < j < |ps| ==> NoSharedKid(Held(ps, t, i), Held(ps, t, j))
  }

  lemma ApartIffDistinct(ps: seq<Provider>, t: Snapshot)
    requires forall i :: 0 <= i < |ps| ==> DistinctIDs(Held(ps, t, i))
    ensures Apart(ps, t) <==> DistinctIDs(AllKeys(ps, t.byProvider, |ps|))
  {
    var all := AllKeys(ps, t.byProvider, |ps|);
    if DistinctIDs(all) {
      forall i, j | 0 <= i < j < |ps| ensures NoSharedKid(Held(ps, t, i), Held(ps, t, j)) { DistinctApart(ps, t, i, j); }
    }
    if Apart(ps, t) {
      forall x, y | 0 <= x < y < |all| ensures all[x].id != all[y].id { ApartDistinct(ps, t, x, y); }
    }
  }

  lemma DistinctApart(ps: seq<Provider>, t: Snapshot, i: nat, j: nat)
    requires DistinctIDs(AllKeys(ps, t.byProvider, |ps|)) && i < j < |ps|
    ensures NoSharedKid(Held(ps, t, i), Held(ps, t, j))
  {
    forall k, m | 0 <= k < |Held(ps, t, i)| && 0 <= m < |Held(ps, t, j)|
      ensures Held(ps, t, i)[k].id != Held(ps, t, j)[m].id
    {
      PlacesDiffer(ps, t, i, k, j, m);
    }
  }

  lemma ApartDistinct(ps: seq<Provider>, t: Snapshot, x: nat, y: nat)
    requires Apart(ps, t) && forall i :: 0 <= i < |ps| ==> DistinctIDs(Held(ps, t, i))
    requires x < y < |AllKeys(ps, t.byProvider, |ps|)|
    ensures AllKeys(ps, t.byProvider, |ps|)[x].id != AllKeys(ps, t.byProvider, |ps|)[y].id
  {
    var i, k := PlaceOf(ps, t, |ps|, x);
    var j, m := PlaceOf(ps, t, |ps|, y);
    assert i == j ==> DistinctIDs(Held(ps, t, i));
    assert i < j ==> NoSharedKid(Held(ps, t, i), Held(ps, t, j));
    assert j < i ==> NoSharedKid(Held(ps, t, j), Held(ps, t, i));
  }

  // ---- The set ----

  class KeySet {
    const providers: seq<Provider>
    var current: Snapshot

    ghost predicate Valid()
      reads this
    {
      UniqueIDs(providers) && SnapshotOk(providers, current)
    }

    constructor (ps: seq<Provider>, s: Snapshot)
      requires UniqueIDs(ps) && SnapshotOk(ps, s)
      ensures Valid() && providers == ps && current == s
    {
      providers, current := ps, s;
    }

    method Lookup(kid: string) returns (r: Option<Key>)
      requires Valid()
      ensures r.Some? ==> r.value.id == kid && SomeoneHolds(providers, current, r.value)
      ensures r.None? ==> forall i, k :: 0 <= i < |providers| && 0 <= k < |Held(providers, current, i)| ==>
                Held(providers, current, i)[k].id != kid
      ensures r == if kid in current.byKID then Some(current.byKID[kid]) else None
    {
      SnapshotIsUnion(providers, current);
      r := if kid in current.byKID then Some(current.byKID[kid]) else None;
    }

    /** Reloads the keys; `errors` names the providers whose fetch failed, and `shared`
        reports that nothing was replaced. */
    method Refresh(fs: seq<Fetch>) returns (errors: seq<string>, shared: bool)
      requires Valid() && AllReadable(providers, fs)
      modifies this
      ensures Valid()
      ensures current == Refreshed(providers, old(current), fs)
      ensures shared == KidShared(providers, old(current), fs)
      ensures forall i :: 0 <= i < |fs| ==> (fs[i].Failed? <==> providers[i].id in errors)
    {
      var held;
      held, errors := Merge(fs);
      RefreshPerProvider(providers, current, fs);
      SharedIsRefused(providers, current, fs);
      var snap := NewSnapshot(providers, held);
      if snap.None? { return errors, true; }
      current := snap.value;
      shared := false;
    }

    /** The key lists after the fetches, and the providers whose fetch failed. */
    method Merge(fs: seq<Fetch>) returns (held: map<string, seq<Key>>, errors: seq<string>)
      requires UniqueIDs(providers) && |fs| == |providers|
      ensures held == Merged(providers, current, fs, |providers|)
      ensures forall i :: 0 <= i < |fs| ==> (fs[i].Failed? <==> providers[i].id in errors)
    {
      held, errors := map[], [];
      for i := 0 to |providers|
        invariant held == Merged(providers, current, fs, i)
        invariant forall e :: e in errors ==> exists j :: 0 <= j < i && fs[j].Failed? && providers[j].id == e
        invariant forall j :: 0 <= j < i && fs[j].Failed? ==> providers[j].id in errors
      {
        var id := providers[i].id;
        match fs[i]
        case NoUsableKey => held := held[id := []];
        case Failed =>
          held := held[id := if id in current.byProvider then current.byProvider[id] else []];
          errors := errors + [id];
        case Fetched(ks) => held := held[id := ks];
      }
    }
  }

  /** Loads the first keys: every provider must bring some, and no two one kid. */
  method Load(ps: seq<Provider>, fs: seq<Fetch>) returns (r: Option<KeySet>)
    requires AllReadable(ps, fs)
    ensures r.Some? <==> ps != [] && UniqueIDs(ps) && AllFetched(fs) && !KidShared(ps, EMPTY, fs)
    ensures r.Some? ==> fresh(r.value) && r.value.Valid() && r.value.providers == ps
    ensures r.Some? ==> r.value.current == Published(ps, Merged(ps, EMPTY, fs, |ps|))
    ensures r.Some? ==> forall i :: 0 <= i < |ps| ==> Held(ps, r.value.current, i) == fs[i].keys
  {
    if ps == [] { return None; }
    var unique := CheckUnique(ps);
    if !unique { return None; }
    var held: map<string, seq<Key>> := map[];
    for i := 0 to |fs|
      invariant held == Merged(ps, EMPTY, fs, i)
      invariant forall j :: 0 <= j < i ==> fs[j].Fetched?
    {
      if !fs[i].Fetched? { return None; }
      held := held[ps[i].id := fs[i].keys];
    }
    LoadPublishes(ps, fs);
    var snap := NewSnapshot(ps, held);
    if snap.None? { return None; }
    var s := new KeySet(ps, snap.value);
    return Some(s);
  }

  lemma LoadPublishes(ps: seq<Provider>, fs: seq<Fetch>)
    requires UniqueIDs(ps) && AllReadable(ps, fs) && AllFetched(fs)
    ensures var held := Merged(ps, EMPTY, fs, |ps|);
      && (KidShared(ps, EMPTY, fs) <==> !DistinctIDs(AllKeys(ps, held, |ps|)))
      && Owned(ps, held)
      && forall i :: 0 <= i < |ps| ==> Held(ps, Published(ps, held), i) == fs[i].keys
  {
    MergedHeld(ps, EMPTY, fs);
    MergedOwned(ps, EMPTY, fs);
    EmptyHasNone(ps, |ps|);
    SharedIsRefused(ps, EMPTY, fs);
  }

  lemma {:induction false} EmptyHasNone(ps: seq<Provider>, n: nat)
    requires n <= |ps|
    ensures AllKeys(ps, EMPTY.byProvider, n) == []
  {
    if n > 0 { EmptyHasNone(ps, n - 1); }
  }

  method CheckUnique(ps: seq<Provider>) returns (ok: bool)
    ensures ok == UniqueIDs(ps)
  {
    var seen: set<string> := {};
    for i := 0 to |ps|
      invariant seen == set j | 0 <= j < i :: ps[j].id
      invariant forall j, k :: 0 <= j < k < i ==> ps[j].id != ps[k].id
    {
      if ps[i].id in seen { return false; }
      seen := seen + {ps[i].id};
    }
    return true;
  }

  // ---- Whole runs ----

  /** The snapshot after a run of reloads. */
  function Run(ps: seq<Provider>, s: Snapshot, rounds: seq<seq<Fetch>>): Snapshot
    requires forall i :: 0 <= i < |rounds| ==> AllReadable(ps, rounds[i])
  {
    if rounds == [] then s else
    assert AllReadable(ps, rounds[|rounds| - 1]);
    Refreshed(ps, Run(ps, s, rounds[..|rounds| - 1]), rounds[|rounds| - 1])
  }

  lemma RoundKeepsOk(ps: seq<Provider>, s: Snapshot, fs: seq<Fetch>)
    requires UniqueIDs(ps) && SnapshotOk(ps, s) && AllReadable(ps, fs)
    ensures SnapshotOk(ps, Refreshed(ps, s, fs))
  {
    RefreshPerProvider(ps, s, fs);
  }

  lemma {:induction false} RunKeepsOk(ps: seq<Provider>, s: Snapshot, rounds: seq<seq<Fetch>>)
    requires UniqueIDs(ps) && SnapshotOk(ps, s) && forall i :: 0 <= i < |rounds| ==> AllReadable(ps, rounds[i])
    ensures SnapshotOk(ps, Run(ps, s, rounds))
    decreases |rounds|
  {
    if rounds != [] {
      var n := |rounds| - 1;
      RunKeepsOk(ps, s, rounds[..n]);
      RoundKeepsOk(ps, Run(ps, s, rounds[..n]), rounds[n]);
    }
  }

  /** After every run of reloads the index is the disjoint union of the providers' lists. */
  lemma RunKeepsUnion(ps: seq<Provider>, s: Snapshot, rounds: seq<seq<Fetch>>)
    requires UniqueIDs(ps) && SnapshotOk(ps, s) && forall i :: 0 <= i < |rounds| ==> AllReadable(ps, rounds[i])
    ensures SnapshotOk(ps, Run(ps, s, rounds)) && DisjointUnion(ps, Run(ps, s, rounds))
  {
    RunKeepsOk(ps, s, rounds);
    SnapshotIsUnion(ps, Run(ps, s, rounds));
  }
}
