/** The cache is invisible: over every run of requests, reloads, evictions, and a clock
    that does not run backwards, each answer is the one a verifier without a cache gives. */
module TokenCacheProperties {
  import opened Sequences
  import opened TokenKeys
  import opened TokenVerifiers

  /** `seen` holds the keys published so far. */
  datatype State = State(now: int, keys: map<string, Key>, cache: map<nat, Token>, seen: set<Key>)

  datatype Event =
    | Request(raw: string, policy: nat, during: Option<map<string, Key>>)
    | Reload(keys: map<string, Key>)
    | Tick(now: int)
    | Evict(gone: set<nat>)

  // ---- The steps of a run ----

  /** A parsed key belongs to one key record. */
  predicate Identified(seen: set<Key>) { forall a, b :: a in seen && b in seen && a.jwk == b.jwk ==> a == b }

  predicate Publishable(seen: set<Key>, keys: map<string, Key>) { Identified(seen + keys.Values) }

  ghost predicate Next(env: Env, leeway: nat, s: State, e: Event, t: State, answer: Option<Result<Token>>) {
    match e
    case Tick(now) => s.now <= now && t == s.(now := now) && answer.None?
    case Reload(keys) => Publishable(s.seen, keys) && t == s.(keys := keys, seen := s.seen + keys.Values) && answer.None?
    case Evict(gone) => t == s.(cache := s.cache - gone) && answer.None?
    case Request(raw, policy, during) =>
      && (during.Some? ==> Publishable(s.seen, during.value))
      && t == State(s.now, if during.Some? then during.value else s.keys, t.cache,
                    if during.Some? then s.seen + during.value.Values else s.seen)
      && answer.Some? && Requested(env, raw, s.keys, during, s.now, leeway, policy, s.cache, t.cache, answer.value)
  }

  // ---- The invariant ----

  /** The token passed, not later than now, with a key published by then. */
  ghost predicate Passed(env: Env, leeway: nat, now: int, seen: set<Key>, d: nat, tok: Token) {
    exists alg: string, key: Key, past: int ::
      && past <= now && key in seen && env.digest(tok.raw) == d
      && PassedWith(env, leeway, tok, alg, key, past)
  }

  predicate PassedWith(env: Env, leeway: nat, tok: Token, alg: string, key: Key, past: int) {
    env.readHeader(tok.raw) == Ok((alg, tok.keyID)) && CheckWith(env, tok.raw, alg, tok.keyID, key, past, leeway) == Ok(tok)
  }

  ghost predicate Valid(env: Env, leeway: nat, s: State) {
    && Identified(s.seen) && s.keys.Values <= s.seen
    && forall d :: d in s.cache ==> Passed(env, leeway, s.now, s.seen, d, s.cache[d])
  }

  ghost predicate Initial(s: State) { s.cache == map[] && s.seen == s.keys.Values && Identified(s.seen) }

  /** A token verified once is verified alike with the same key until it expires. */
  lemma PassesAgain(env: Env, leeway: nat, tok: Token, alg: string, key: Key, past: int, now: int)
    requires PassedWith(env, leeway, tok, alg, key, past) && past <= now && Fresh(tok, now, leeway)
    ensures CheckWith(env, tok.raw, alg, tok.keyID, key, now, leeway) == Ok(tok) && key.jwk == tok.jwk
  {
    TimesStay(env, tok.claims, leeway, past, now);
  }

  /** What the cache answers, verification now answers. */
  lemma HitIsCheck(env: Env, leeway: nat, s: State, raw: string)
    requires Injective(env) && Valid(env, leeway, s) && Hit(env, raw, s.keys, s.now, leeway, s.cache)
    ensures Check(env, raw, s.keys, s.now, leeway) == Ok(s.cache[env.digest(raw)])
  {
    var tok := s.cache[env.digest(raw)];
    assert Passed(env, leeway, s.now, s.seen, env.digest(raw), tok);
    var alg, key, past :| past <= s.now && key in s.seen && env.digest(tok.raw) == env.digest(raw)
      && PassedWith(env, leeway, tok, alg, key, past);
    PassesAgain(env, leeway, tok, alg, key, past, s.now);
    assert s.keys[tok.keyID] in s.keys.Values;
  }

  /** A token verified now may be cached. */
  lemma CheckPasses(env: Env, leeway: nat, raw: string, keys: map<string, Key>, now: int, seen: set<Key>)
    requires keys.Values <= seen && Check(env, raw, keys, now, leeway).Ok?
    ensures Passed(env, leeway, now, seen, env.digest(raw), Check(env, raw, keys, now, leeway).value)
  {
    var (alg, kid) := env.readHeader(raw).value;
    assert keys[kid] in keys.Values;
    assert PassedWith(env, leeway, Check(env, raw, keys, now, leeway).value, alg, keys[kid], now);
  }

  lemma StillPassed(env: Env, leeway: nat, now: int, later: int, seen: set<Key>, more: set<Key>, d: nat, tok: Token)
    requires Passed(env, leeway, now, seen, d, tok) && now <= later && seen <= more
    ensures Passed(env, leeway, later, more, d, tok)
  {
    var alg, key, past :| past <= now && key in seen && env.digest(tok.raw) == d && PassedWith(env, leeway, tok, alg, key, past);
  }

  lemma StepKeepsValid(env: Env, leeway: nat, s: State, e: Event, t: State, answer: Option<Result<Token>>)
    requires Valid(env, leeway, s) && Next(env, leeway, s, e, t, answer)
    ensures Valid(env, leeway, t)
  {
    forall d | d in t.cache ensures Passed(env, leeway, t.now, t.seen, d, t.cache[d]) {
      if e.Request? && !(d in s.cache && t.cache[d] == s.cache[d]) {
        CheckPasses(env, leeway, e.raw, t.keys, s.now, t.seen);
      } else {
        StillPassed(env, leeway, s.now, t.now, s.seen, t.seen, d, s.cache[d]);
      }
    }
  }

  /** The answer a verifier without a cache gives to the same request; where a reload
      falls into the request, with the keys before or after it. */
  predicate AnswersPlainly(env: Env, leeway: nat, s: State, e: Event, answer: Result<Token>)
    requires e.Request?
  {
    || answer == Plain(env, e.raw, s.keys, s.now, leeway, e.policy)
    || (e.during.Some? && answer == Plain(env, e.raw, e.during.value, s.now, leeway, e.policy))
  }

  lemma StepAnswersPlainly(env: Env, leeway: nat, s: State, e: Event, t: State, answer: Option<Result<Token>>)
    requires Injective(env) && Valid(env, leeway, s) && Next(env, leeway, s, e, t, answer) && e.Request?
    ensures answer.Some? && AnswersPlainly(env, leeway, s, e, answer.value)
  {
    if Hit(env, e.raw, s.keys, s.now, leeway, s.cache) { HitIsCheck(env, leeway, s, e.raw); }
  }

  // ---- Whole runs ----

  ghost predicate IsRun(env: Env, leeway: nat, states: seq<State>, events: seq<Event>, answers: seq<Option<Result<Token>>>) {
    && |states| == |events| + 1 && |answers| == |events| && Initial(states[0])
    && forall i :: 0 <= i < |events| ==> Next(env, leeway, states[i], events[i], states[i + 1], answers[i])
  }

  lemma {:induction false} RunIsValid(env: Env, leeway: nat, states: seq<State>, events: seq<Event>,
                                      answers: seq<Option<Result<Token>>>, n: nat)
    requires IsRun(env, leeway, states, events, answers) && n < |states|
    ensures Valid(env, leeway, states[n])
    decreases n
  {
    if n > 0 {
      RunIsValid(env, leeway, states, events, answers, n - 1);
      assert Next(env, leeway, states[n - 1], events[n - 1], states[n - 1 + 1], answers[n - 1]);
      StepKeepsValid(env, leeway, states[n - 1], events[n - 1], states[n], answers[n - 1]);
    }
  }

  /** Every answer of every run is the answer without a cache. */
  lemma CacheIsInvisible(env: Env, leeway: nat, states: seq<State>, events: seq<Event>, answers: seq<Option<Result<Token>>>, n: nat)
    requires Injective(env) && IsRun(env, leeway, states, events, answers)
    requires n < |events| && events[n].Request?
    ensures answers[n].Some? && AnswersPlainly(env, leeway, states[n], events[n], answers[n].value)
  {
    RunIsValid(env, leeway, states, events, answers, n);
    StepAnswersPlainly(env, leeway, states[n], events[n], states[n + 1], answers[n]);
  }

  /** No token is accepted once its kid names another key or none. */
  lemma AcceptedKeyIsPublished(env: Env, leeway: nat, states: seq<State>, events: seq<Event>,
                               answers: seq<Option<Result<Token>>>, n: nat)
    requires Injective(env) && IsRun(env, leeway, states, events, answers)
    requires n < |events| && events[n].Request? && events[n].during.None? && answers[n].Some? && answers[n].value.Ok?
    ensures var tok := answers[n].value.value;
            tok.raw == events[n].raw && tok.keyID in states[n].keys && states[n].keys[tok.keyID].jwk == tok.jwk
            && Fresh(tok, states[n].now, leeway)
  {
    CacheIsInvisible(env, leeway, states, events, answers, n);
  }
}
