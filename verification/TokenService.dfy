/** The verifier with the key set it reads from: key lists are parsed into keys of new
    identity, loaded and reloaded, and requests are answered from the cache or by
    verification.  Nothing is taken for granted of the keys published: that the cache is
    invisible follows from how they come about. */
module TokenServices {
  import opened Sequences
  import opened TokenKeys
  import opened KeySets
  import opened TokenVerifiers
  import opened TokenCacheProperties

  // ---- Rounds of fetches ----

  /** The entries of one provider's key list, none when it cannot be had. */
  type Listing = Option<seq<Entry>>

  function FetchFrom(l: Listing, p: Provider): Fetch { if l.None? then Failed else FetchOf(l.value, p) }

  function Fetches(ps: seq<Provider>, ls: seq<Listing>): seq<Fetch>
    requires |ls| == |ps|
  {
    seq(|ps|, i requires 0 <= i < |ps| => FetchFrom(ls[i], ps[i]))
  }

  predicate ParsedAt(ls: seq<Listing>, i: int, k: int) {
    0 <= i < |ls| && ls[i].Some? && 0 <= k < |ls[i].value| && ls[i].value[k].Parsed?
  }

  /** Each parse makes a key of its own, with an identity not used before. */
  ghost predicate NewParses(ls: seq<Listing>, from: nat, to: nat) {
    && from <= to
    && (forall i, k :: ParsedAt(ls, i, k) ==> from <= ls[i].value[k].jwk.ref < to)
    && forall i, k, j, m :: ParsedAt(ls, i, k) && ParsedAt(ls, j, m) && ls[i].value[k].jwk.ref == ls[j].value[m].jwk.ref ==>
         i == j && k == m
  }

  predicate BroughtAt(fs: seq<Fetch>, i: int, k: int) { 0 <= i < |fs| && fs[i].Fetched? && 0 <= k < |fs[i].keys| }

  ghost predicate Brought(fs: seq<Fetch>, key: Key) { exists i, k :: BroughtAt(fs, i, k) && fs[i].keys[k] == key }

  /** The keys of a round are new, and no two of them are one parse. */
  ghost predicate NewKeys(fs: seq<Fetch>, from: nat, to: nat) {
    && from <= to
    && (forall i, k :: BroughtAt(fs, i, k) ==> from <= fs[i].keys[k].jwk.ref < to)
    && forall i, k, j, m :: BroughtAt(fs, i, k) && BroughtAt(fs, j, m) && fs[i].keys[k].jwk.ref == fs[j].keys[m].jwk.ref ==>
         fs[i].keys[k] == fs[j].keys[m]
  }

  /** A key kept of a list is that of one of its entries. */
  lemma {:induction false} EntryOf(es: seq<Entry>, n: nat, p: Provider, k: nat) returns (i: nat)
    requires n <= |es| && k < |Firsts(es, n, p)|
    ensures i < n && es[i].Parsed? && Firsts(es, n, p)[k] == Key(p, es[i].id, es[i].jwk, es[i].alg)
    decreases n
  {
    if k < |Firsts(es, n - 1, p)| { i := EntryOf(es, n - 1, p, k); } else { i := n - 1; }
  }

  /** Reading new parses gives fetches the key set can take, of new keys. */
  lemma RoundIsNew(ps: seq<Provider>, ls: seq<Listing>, from: nat, to: nat)
    requires |ls| == |ps| && NewParses(ls, from, to)
    ensures AllReadable(ps, Fetches(ps, ls)) && NewKeys(Fetches(ps, ls), from, to)
  {
    var fs := Fetches(ps, ls);
    forall i | 0 <= i < |ps| ensures Readable(ps[i], fs[i]) { ReadableFetch(ls[i], ps[i]); }
    forall i, k | BroughtAt(fs, i, k) ensures from <= fs[i].keys[k].jwk.ref < to {
      var a := EntryOf(ls[i].value, |ls[i].value|, ps[i], k);
      assert ParsedAt(ls, i, a);
    }
    forall i, k, j, m | BroughtAt(fs, i, k) && BroughtAt(fs, j, m) && fs[i].keys[k].jwk.ref == fs[j].keys[m].jwk.ref
      ensures fs[i].keys[k] == fs[j].keys[m]
    {
      var a := EntryOf(ls[i].value, |ls[i].value|, ps[i], k);
      var b := EntryOf(ls[j].value, |ls[j].value|, ps[j], m);
      assert ParsedAt(ls, i, a) && ParsedAt(ls, j, b);
    }
  }

  lemma ReadableFetch(l: Listing, p: Provider)
    ensures Readable(p, FetchFrom(l, p))
  {
    if l.Some? { FirstsAreDistinct(l.value, |l.value|, p); }
  }

  // ---- What a reload publishes ----

  /** A key published by a reload was brought by it, or published before. */
  lemma PublishedKey(ps: seq<Provider>, s: Snapshot, fs: seq<Fetch>, kid: string)
    requires UniqueIDs(ps) && SnapshotOk(ps, s) && AllReadable(ps, fs) && kid in Refreshed(ps, s, fs).byKID
    ensures var key := Refreshed(ps, s, fs).byKID[kid]; Brought(fs, key) || key in s.byKID.Values
  {
    RefreshPerProvider(ps, s, fs);
    if !KidShared(ps, s, fs) {
      var i, k := HolderOf(ps, Refreshed(ps, s, fs), kid);
      HeldKey(ps, s, fs, i, k);
    }
  }

  /** Every kid found is held by a provider. */
  lemma HolderOf(ps: seq<Provider>, s: Snapshot, kid: string) returns (i: nat, k: nat)
    requires SnapshotOk(ps, s) && kid in s.byKID
    ensures i < |ps| && k < |Held(ps, s, i)| && Held(ps, s, i)[k] == s.byKID[kid]
  {
    assert SomeoneHolds(ps, s, s.byKID[kid]) by { SnapshotIsUnion(ps, s); }
    i, k :| 0 <= i < |ps| && 0 <= k < |Held(ps, s, i)| && Held(ps, s, i)[k] == s.byKID[kid];
  }

  lemma HeldKey(ps: seq<Provider>, s: Snapshot, fs: seq<Fetch>, i: nat, k: nat)
    requires SnapshotOk(ps, s) && i < |ps| == |fs| && k < |NewList(ps, s, fs, i)|
    ensures Brought(fs, NewList(ps, s, fs, i)[k]) || NewList(ps, s, fs, i)[k] in s.byKID.Values
  {
    if fs[i].Fetched? {
      assert BroughtAt(fs, i, k);
    } else {
      HeldIsPublished(ps, s, i, k);
    }
  }

  lemma HeldIsPublished(ps: seq<Provider>, s: Snapshot, i: nat, k: nat)
    requires SnapshotOk(ps, s) && i < |ps| && k < |Held(ps, s, i)|
    ensures Held(ps, s, i)[k] in s.byKID.Values
  {
    SnapshotIsUnion(ps, s);
    var key := Held(ps, s, i)[k];
    assert key.id in s.byKID && s.byKID[key.id] == key;
  }

  ghost predicate UsedBefore(seen: set<Key>, next: nat) { forall key :: key in seen ==> key.jwk.ref < next }

  /** New keys beside those seen before: a parse still belongs to one key record. */
  lemma StaysIdentified(seen: set<Key>, keys: set<Key>, fs: seq<Fetch>, from: nat, to: nat)
    requires Identified(seen) && UsedBefore(seen, from) && NewKeys(fs, from, to)
    requires forall key :: key in keys ==> Brought(fs, key) || key in seen
    ensures Identified(seen + keys) && UsedBefore(seen + keys, to)
  {
    forall a, b | a in seen + keys && b in seen + keys && a.jwk == b.jwk ensures a == b {
      SameParse(seen, fs, from, to, a, b);
    }
    forall key | key in seen + keys ensures key.jwk.ref < to { NewOrSeen(seen, fs, from, to, key); }
  }

  lemma NewOrSeen(seen: set<Key>, fs: seq<Fetch>, from: nat, to: nat, key: Key)
    requires UsedBefore(seen, from) && NewKeys(fs, from, to) && (key in seen || Brought(fs, key))
    ensures key.jwk.ref < to && (key in seen <==> key.jwk.ref < from) && (key !in seen ==> Brought(fs, key))
  {
    if Brought(fs, key) { var i, k :| BroughtAt(fs, i, k) && fs[i].keys[k] == key; }
  }

  lemma SameParse(seen: set<Key>, fs: seq<Fetch>, from: nat, to: nat, a: Key, b: Key)
    requires Identified(seen) && UsedBefore(seen, from) && NewKeys(fs, from, to) && a.jwk == b.jwk
    requires (a in seen || Brought(fs, a)) && (b in seen || Brought(fs, b))
    ensures a == b
  {
    NewOrSeen(seen, fs, from, to, a);
    NewOrSeen(seen, fs, from, to, b);
    if a !in seen {
      var i, k :| BroughtAt(fs, i, k) && fs[i].keys[k] == a;
      var j, m :| BroughtAt(fs, j, m) && fs[j].keys[m] == b;
    }
  }

  /** The keys a reload publishes are publishable, whatever the fetches brought. */
  lemma ReloadIsPublishable(ps: seq<Provider>, s: Snapshot, ls: seq<Listing>, seen: set<Key>, from: nat, to: nat)
    requires UniqueIDs(ps) && SnapshotOk(ps, s) && |ls| == |ps| && NewParses(ls, from, to)
    requires Identified(seen) && UsedBefore(seen, from) && s.byKID.Values <= seen
    ensures var t := Refreshed(ps, s, Fetches(ps, ls));
            SnapshotOk(ps, t) && Publishable(seen, t.byKID) && UsedBefore(seen + t.byKID.Values, to)
  {
    var fs := Fetches(ps, ls);
    var t := Refreshed(ps, s, fs);
    RoundIsNew(ps, ls, from, to);
    RoundKeepsOk(ps, s, fs);
    forall key | key in t.byKID.Values ensures Brought(fs, key) || key in seen {
      var kid :| kid in t.byKID && t.byKID[kid] == key;
      PublishedKey(ps, s, fs, kid);
    }
    StaysIdentified(seen, t.byKID.Values, fs, from, to);
  }

  // ---- The service ----

  /** The snapshot the key set holds, the identities used so far, and what the verifier
      sees: the clock, the keys, and the cache. */
  datatype Service = Service(snapshot: Snapshot, next: nat, view: State)

  datatype Round = Round(lists: seq<Listing>, next: nat)

  datatype Action = Ask(raw: string, policy: nat, during: Option<Round>) | Refresh(round: Round) | Wait(now: int) | Drop(gone: set<nat>)

  ghost predicate RoundOk(ps: seq<Provider>, s: Service, r: Round) { |r.lists| == |ps| && NewParses(r.lists, s.next, r.next) }

  function After(ps: seq<Provider>, s: Service, r: Round): Snapshot
    requires |r.lists| == |ps|
  {
    Refreshed(ps, s.snapshot, Fetches(ps, r.lists))
  }

  function Publishing(view: State, keys: map<string, Key>): State { view.(keys := keys, seen := view.seen + keys.Values) }

  ghost predicate Acts(env: Env, leeway: nat, ps: seq<Provider>, s: Service, a: Action, t: Service, answer: Option<Result<Token>>) {
    match a
    case Wait(now) => s.view.now <= now && t == s.(view := s.view.(now := now)) && answer.None?
    case Drop(gone) => t == s.(view := s.view.(cache := s.view.cache - gone)) && answer.None?
    case Refresh(round) =>
      && RoundOk(ps, s, round) && answer.None?
      && t == Service(After(ps, s, round), round.next, Publishing(s.view, After(ps, s, round).byKID))
    case Ask(raw, policy, None) =>
      && answer.Some? && t == s.(view := s.view.(cache := t.view.cache))
      && Requested(env, raw, s.snapshot.byKID, None, s.view.now, leeway, policy, s.view.cache, t.view.cache, answer.value)
    case Ask(raw, policy, Some(round)) =>
      && RoundOk(ps, s, round) && answer.Some?
      && t == Service(After(ps, s, round), round.next, Publishing(s.view, After(ps, s, round).byKID).(cache := t.view.cache))
      && Requested(env, raw, s.snapshot.byKID, Some(After(ps, s, round).byKID), s.view.now, leeway, policy,
                   s.view.cache, t.view.cache, answer.value)
  }

  /** Every provider brought keys, no two of them share a kid, and those are published. */
  predicate Loads(ps: seq<Provider>, fs: seq<Fetch>, s: Snapshot)
    requires |fs| == |ps|
  {
    AllFetched(fs) && !KidShared(ps, EMPTY, fs) && s == Published(ps, Merged(ps, EMPTY, fs, |ps|))
  }

  /** What the first load leaves: its keys published and nothing cached. */
  ghost predicate Starts(ps: seq<Provider>, first: Round, s: Service) {
    && UniqueIDs(ps) && |first.lists| == |ps| && NewParses(first.lists, 0, first.next)
    && Loads(ps, Fetches(ps, first.lists), s.snapshot)
    && s.next == first.next && s.view.keys == s.snapshot.byKID && s.view.cache == map[] && s.view.seen == s.view.keys.Values
  }

  ghost predicate ServiceOk(ps: seq<Provider>, s: Service) {
    && UniqueIDs(ps) && SnapshotOk(ps, s.snapshot) && s.view.keys == s.snapshot.byKID
    && s.view.keys.Values <= s.view.seen && Identified(s.view.seen) && UsedBefore(s.view.seen, s.next)
  }

  /** The step of the verifier that an action of the service is. */
  function EventOf(ps: seq<Provider>, s: Service, a: Action): Event
    requires a.Refresh? ==> |a.round.lists| == |ps|
    requires a.Ask? && a.during.Some? ==> |a.during.value.lists| == |ps|
  {
    match a
    case Wait(now) => Tick(now)
    case Drop(gone) => Evict(gone)
    case Refresh(round) => Reload(After(ps, s, round).byKID)
    case Ask(raw, policy, during) =>
      Request(raw, policy, if during.Some? then Some(After(ps, s, during.value).byKID) else None)
  }

  lemma RoundPublishes(ps: seq<Provider>, s: Service, r: Round)
    requires ServiceOk(ps, s) && RoundOk(ps, s, r)
    ensures Publishable(s.view.seen, After(ps, s, r).byKID)
    ensures ServiceOk(ps, Service(After(ps, s, r), r.next, Publishing(s.view, After(ps, s, r).byKID)))
  {
    ReloadIsPublishable(ps, s.snapshot, r.lists, s.view.seen, s.next, r.next);
  }

  /** Every action of the service is a step of the verifier, and keeps the service in order. */
  lemma ActionIsStep(env: Env, leeway: nat, ps: seq<Provider>, s: Service, a: Action, t: Service, answer: Option<Result<Token>>)
    requires ServiceOk(ps, s) && Acts(env, leeway, ps, s, a, t, answer)
    ensures ServiceOk(ps, t) && Next(env, leeway, s.view, EventOf(ps, s, a), t.view, answer)
  {
    match a
    case Wait(now) =>
    case Drop(gone) =>
    case Refresh(round) => RoundPublishes(ps, s, round);
    case Ask(raw, policy, None) =>
    case Ask(raw, policy, Some(round)) => RoundPublishes(ps, s, round);
  }

  lemma StartIsOk(ps: seq<Provider>, first: Round, s: Service)
    requires Starts(ps, first, s)
    ensures ServiceOk(ps, s) && Initial(s.view)
  {
    var fs := Fetches(ps, first.lists);
    RoundIsNew(ps, first.lists, 0, first.next);
    LoadPublishes(ps, fs);
    assert SnapshotOk(ps, s.snapshot);
    forall key | key in s.view.keys.Values ensures Brought(fs, key) {
      var kid :| kid in s.snapshot.byKID && s.snapshot.byKID[kid] == key;
      LoadedKey(ps, s.snapshot, fs, kid);
    }
    StaysIdentified({}, s.view.keys.Values, fs, 0, first.next);
    assert {} + s.view.keys.Values == s.view.seen;
  }

  lemma LoadedKey(ps: seq<Provider>, s: Snapshot, fs: seq<Fetch>, kid: string)
    requires SnapshotOk(ps, s) && |fs| == |ps| && AllFetched(fs) && kid in s.byKID
    requires forall i :: 0 <= i < |ps| ==> Held(ps, s, i) == fs[i].keys
    ensures Brought(fs, s.byKID[kid])
  {
    var i, k := HolderOf(ps, s, kid);
    assert BroughtAt(fs, i, k);
  }

  // ---- Whole runs ----

  ghost predicate IsServiceRun(env: Env, leeway: nat, ps: seq<Provider>, first: Round, states: seq<Service>, actions: seq<Action>,
                               answers: seq<Option<Result<Token>>>)
  {
    && |states| == |actions| + 1 && |answers| == |actions| && Starts(ps, first, states[0])
    && forall i :: 0 <= i < |actions| ==> Acts(env, leeway, ps, states[i], actions[i], states[i + 1], answers[i])
  }

  lemma ActionKeepsOk(env: Env, leeway: nat, ps: seq<Provider>, s: Service, a: Action, t: Service, answer: Option<Result<Token>>)
    requires ServiceOk(ps, s) && Valid(env, leeway, s.view) && Acts(env, leeway, ps, s, a, t, answer)
    ensures ServiceOk(ps, t) && Valid(env, leeway, t.view)
  {
    ActionIsStep(env, leeway, ps, s, a, t, answer);
    StepKeepsValid(env, leeway, s.view, EventOf(ps, s, a), t.view, answer);
  }

  /** At every moment of every run the service is in order, and each cached token passed
      with a key published by then. */
  lemma {:induction false} ServiceStaysOk(env: Env, leeway: nat, ps: seq<Provider>, first: Round, states: seq<Service>,
                                          actions: seq<Action>, answers: seq<Option<Result<Token>>>, n: nat)
    requires IsServiceRun(env, leeway, ps, first, states, actions, answers) && n < |states|
    ensures ServiceOk(ps, states[n]) && Valid(env, leeway, states[n].view)
    decreases n
  {
    if n == 0 {
      StartIsOk(ps, first, states[0]);
    } else {
      var k := n - 1;
      ServiceStaysOk(env, leeway, ps, first, states, actions, answers, k);
      assert Acts(env, leeway, ps, states[k], actions[k], states[k + 1], answers[k]);
      ActionKeepsOk(env, leeway, ps, states[k], actions[k], states[k + 1], answers[k]);
    }
  }

  /** The answer without a cache, with the keys held before the request or, where a
      reload falls into it, after it. */
  predicate AnswersAsKeySet(env: Env, leeway: nat, s: Service, t: Service, a: Action, answer: Result<Token>)
    requires a.Ask?
  {
    || answer == Plain(env, a.raw, s.snapshot.byKID, s.view.now, leeway, a.policy)
    || (a.during.Some? && answer == Plain(env, a.raw, t.snapshot.byKID, s.view.now, leeway, a.policy))
  }

  /** Over every run of the verifier with its key set, from the first load on, each answer
      is that of a verifier without a cache. */
  lemma ServiceAnswersPlainly(env: Env, leeway: nat, ps: seq<Provider>, first: Round, states: seq<Service>,
                              actions: seq<Action>, answers: seq<Option<Result<Token>>>, n: nat)
    requires Injective(env) && IsServiceRun(env, leeway, ps, first, states, actions, answers)
    requires n < |actions| && actions[n].Ask?
    ensures answers[n].Some? && AnswersAsKeySet(env, leeway, states[n], states[n + 1], actions[n], answers[n].value)
  {
    ServiceStaysOk(env, leeway, ps, first, states, actions, answers, n);
    var s, a, t := states[n], actions[n], states[n + 1];
    ActionIsStep(env, leeway, ps, s, a, t, answers[n]);
    StepAnswersPlainly(env, leeway, s.view, EventOf(ps, s, a), t.view, answers[n]);
  }
}
