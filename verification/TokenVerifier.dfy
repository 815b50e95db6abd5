/** Verifying a token, and the cache of verified tokens.

    Reading the header and the payload, checking the signature, the digest, and the text
    of a number are given by `Env`; times are whole nanoseconds.  `Check` is the
    verification without a cache. */
module TokenVerifiers {
  import opened Sequences
  import opened JsonValues
  import opened TokenKeys

  datatype Code =
    | FormatInvalid | AlgNotAllowed | KIDMissing | KIDUnknown | SignatureInvalid | ExpMissing | Expired | NotYetValid
    | IATMissing | IATInvalid | AudienceMissing | AudienceInvalid | NamespaceNotAllowed

  datatype Result<+T> = Ok(value: T) | Refused(code: Code)

  type Claims = map<string, Value>

  datatype Standard = Standard(subject: Option<Value>, preferredUsername: Option<Value>, roles: Option<Value>,
                               scope: Option<Value>, level: Option<Value>, tenantID: Option<Value>)

  datatype Token = Token(raw: string, payload: string, claims: Claims, standard: Standard, providerID: string,
                         keyID: string, issuer: string, expiry: int, jwk: Jwk)

  datatype Env = Env(
    digest: string -> nat,
    readHeader: string -> Result<(string, string)>,
    signed: (string, string, Jwk) -> Option<string>,
    decodeClaims: string -> Result<Claims>,
    nanos: string -> Option<int>,
    admit: (nat, Token) -> Option<Code>)

  ghost predicate Injective(env: Env) {
    forall a: string, b: string :: env.digest(a) == env.digest(b) ==> a == b
  }

  function Claim(claims: Claims, name: string): Option<Value> {
    if name in claims then Some(claims[name]) else None
  }

  // ---- Times (sections 4.1.4 to 4.1.6 of RFC 7519) ----

  /** The time a claim names, none when it is absent. */
  function NumericDate(env: Env, claims: Claims, name: string): Result<Option<int>> {
    match Claim(claims, name)
    case None => Ok(None)
    case Some(Number(text)) =>
      var t := env.nanos(text);
      if t.None? then Refused(FormatInvalid) else Ok(t)
    case Some(_) => Refused(FormatInvalid)
  }

  function CheckTimes(env: Env, claims: Claims, now: int, leeway: nat): Result<int> {
    match NumericDate(env, claims, "exp")
    case Refused(c) => Refused(c)
    case Ok(None) => Refused(ExpMissing)
    case Ok(Some(exp)) =>
      if !(now < exp + leeway) then Refused(Expired) else
      match NumericDate(env, claims, "nbf")
      case Refused(c) => Refused(c)
      case Ok(nbf) =>
        if nbf.Some? && now < nbf.value - leeway then Refused(NotYetValid) else
        match NumericDate(env, claims, "iat")
        case Refused(c) => Refused(c)
        case Ok(None) => Refused(IATMissing)
        case Ok(Some(iat)) => if iat > now + leeway then Refused(IATInvalid) else Ok(exp)
  }

  /** A time no later than now, or absent. */
  predicate NotAfter(r: Result<Option<int>>, now: int) { r.Ok? && (r.value.Some? ==> r.value.value <= now) }

  /** The times pass exactly when exp is given and ahead, nbf is behind if given, and iat
      is given and behind, each by the leeway. */
  lemma TimesPassIff(env: Env, claims: Claims, now: int, leeway: nat, exp: int)
    ensures CheckTimes(env, claims, now, leeway) == Ok(exp) <==>
      && NumericDate(env, claims, "exp") == Ok(Some(exp)) && now < exp + leeway
      && NotAfter(NumericDate(env, claims, "nbf"), now + leeway)
      && NotAfter(NumericDate(env, claims, "iat"), now + leeway) && NumericDate(env, claims, "iat") != Ok(None)
  {
  }

  /** A token whose times passed once pass until it expires. */
  lemma TimesStay(env: Env, claims: Claims, leeway: nat, now: int, later: int)
    requires CheckTimes(env, claims, now, leeway).Ok? && now <= later
    ensures var exp := CheckTimes(env, claims, now, leeway).value;
            CheckTimes(env, claims, later, leeway) == if later < exp + leeway then Ok(exp) else Refused(Expired)
  {
  }

  // ---- Audience (section 4.1.3 of RFC 7519) ----

  predicate AllStrings(vs: seq<Value>) { forall i :: 0 <= i < |vs| ==> vs[i].Str? }

  /** The audiences a claim names, none when it is neither a string nor a list of strings. */
  function Audiences(v: Value): (r: Option<seq<string>>)
    ensures v.List? ==> (r.Some? <==> AllStrings(v.elems))
    ensures v.List? && r.Some? ==> |r.value| == |v.elems| && forall i :: 0 <= i < |r.value| ==> r.value[i] == v.elems[i].s
  {
    match v
    case Str(s) => Some([s])
    case List(vs) => if AllStrings(vs) then Some(seq(|vs|, i requires 0 <= i < |vs| => vs[i].s)) else None
    case _ => None
  }

  /** One of the audiences named is the provider's. */
  predicate NamesOne(auds: seq<string>, p: Provider) { exists i :: 0 <= i < |auds| && auds[i] in p.audiences }

  function AudienceFault(claims: Claims, p: Provider): Option<Code> {
    if p.audiences == [] then None
    else if "aud" !in claims then if p.allowMissingAud then None else Some(AudienceMissing)
    else
      var auds := Audiences(claims["aud"]);
      if auds.Some? && NamesOne(auds.value, p) then None else Some(AudienceInvalid)
  }

  method CheckAudience(claims: Claims, p: Provider) returns (fault: Option<Code>)
    ensures fault == AudienceFault(claims, p)
  {
    if |p.audiences| == 0 { return None; }
    if "aud" !in claims {
      if p.allowMissingAud { return None; }
      return Some(AudienceMissing);
    }
    var audiences: seq<string> := [];
    match claims["aud"] {
      case Str(s) => audiences := [s];
      case List(vs) =>
        for i := 0 to |vs|
          invariant |audiences| == i && forall j :: 0 <= j < i ==> vs[j].Str? && audiences[j] == vs[j].s
        {
          if !vs[i].Str? { return Some(AudienceInvalid); }
          audiences := audiences + [vs[i].s];
        }
        assert AllStrings(vs) && audiences == Audiences(List(vs)).value;
      case _ => return Some(AudienceInvalid);
    }
    assert Audiences(claims["aud"]) == Some(audiences);
    for i := 0 to |audiences|
      invariant forall j :: 0 <= j < i ==> audiences[j] !in p.audiences
    {
      if audiences[i] in p.audiences { return None; }
    }
    return Some(AudienceInvalid);
  }

  // ---- Verification without a cache ----

  function StandardOf(claims: Claims): Standard {
    Standard(Claim(claims, "sub"), Claim(claims, "preferred_username"),
             match Claim(claims, "realm_access") case Some(Object(ms)) => Get(ms, "roles") case _ => None,
             Claim(claims, "scope"), Claim(claims, "level"), Claim(claims, "tenant-id"))
  }

  function StringClaim(claims: Claims, name: string): string {
    match Claim(claims, name) case Some(Str(s)) => s case _ => ""
  }

  /** What the token is checked to be once its key is found. */
  function CheckWith(env: Env, raw: string, alg: string, kid: string, key: Key, now: int, leeway: nat): Result<Token> {
    if !Allows(key, alg) then Refused(AlgNotAllowed) else
    match env.signed(raw, alg, key.jwk)
    case None => Refused(SignatureInvalid)
    case Some(payload) =>
      match env.decodeClaims(payload)
      case Refused(c) => Refused(c)
      case Ok(claims) =>
        var fault := AudienceFault(claims, key.provider);
        if fault.Some? then Refused(fault.value) else
        match CheckTimes(env, claims, now, leeway)
        case Refused(c) => Refused(c)
        case Ok(expiry) =>
          Ok(Token(raw, payload, claims, StandardOf(claims), key.provider.id, kid, StringClaim(claims, "iss"), expiry, key.jwk))
  }

  function Check(env: Env, raw: string, keys: map<string, Key>, now: int, leeway: nat): Result<Token> {
    match env.readHeader(raw)
    case Refused(c) => Refused(c)
    case Ok((alg, kid)) =>
      if kid !in keys then Refused(KIDUnknown) else CheckWith(env, raw, alg, kid, keys[kid], now, leeway)
  }

  function Admitted(env: Env, policy: nat, r: Result<Token>): Result<Token> {
    if r.Ok? && env.admit(policy, r.value).Some? then Refused(env.admit(policy, r.value).value) else r
  }

  /** The answer a verifier without a cache gives. */
  function Plain(env: Env, raw: string, keys: map<string, Key>, now: int, leeway: nat, policy: nat): Result<Token> {
    Admitted(env, policy, Check(env, raw, keys, now, leeway))
  }

  // ---- The cache ----

  predicate Fresh(tok: Token, now: int, leeway: nat) { now < tok.expiry + leeway }

  /** A cache after a put: it holds the token, and of the others what it held before. */
  predicate PutInto(before: map<nat, Token>, d: nat, tok: Token, after: map<nat, Token>) {
    d in after && after[d] == tok && forall k :: k in after && k != d ==> k in before && after[k] == before[k]
  }

  class Cache {
    const size: nat
    var tokens: map<nat, Token>

    ghost predicate Valid()
      reads this
    {
      |tokens| <= size && size > 0
    }

    constructor (size: nat)
      requires size > 0
      ensures Valid() && this.size == size && tokens == map[]
    {
      this.size := size;
      tokens := map[];
    }

    /** An expired token is not returned, and leaves the cache. */
    method Get(d: nat, now: int, leeway: nat) returns (r: Option<Token>)
      requires Valid()
      modifies this
      ensures Valid()
      ensures r == if d in old(tokens) && Fresh(old(tokens)[d], now, leeway) then Some(old(tokens)[d]) else None
      ensures tokens == if d in old(tokens) && r.None? then old(tokens) - {d} else old(tokens)
    {
      if d !in tokens { return None; }
      var tok := tokens[d];
      if !(now < tok.expiry + leeway) {
        tokens := Without(tokens, d);
        return None;
      }
      return Some(tok);
    }

    /** A full cache makes room by dropping one token, any one. */
    method Put(d: nat, tok: Token)
      requires Valid()
      modifies this
      ensures Valid() && PutInto(old(tokens), d, tok, tokens)
      ensures old(|tokens|) < size ==> tokens == old(tokens)[d := tok]
    {
      if d !in tokens && |tokens| == size {
        var victim :| victim in tokens;
        tokens := Without(tokens, victim);
      }
      Grown(tokens, d, tok);
      tokens := tokens[d := tok];
    }
  }

  function Without(m: map<nat, Token>, d: nat): (r: map<nat, Token>)
    requires d in m
    ensures r == m - {d} && |r| == |m| - 1
  {
    assert m == (m - {d})[d := m[d]];
    m - {d}
  }

  lemma Grown(m: map<nat, Token>, d: nat, tok: Token)
    ensures |m[d := tok]| == if d in m then |m| else |m| + 1
  {
    assert m[d := tok].Keys == m.Keys + {d};
  }

  // ---- The verifier ----

  /** The cached token answers a request. */
  predicate Hit(env: Env, raw: string, keys: map<string, Key>, now: int, leeway: nat, cache: map<nat, Token>) {
    var d := env.digest(raw);
    && d in cache && Fresh(cache[d], now, leeway)
    && cache[d].keyID in keys && keys[cache[d].keyID].jwk == cache[d].jwk
  }

  /** A request at `now`, the keys being `keys` and, if a reload falls between the look
      into the cache and the verification, `during` after it. */
  predicate Requested(env: Env, raw: string, keys: map<string, Key>, during: Option<map<string, Key>>, now: int, leeway: nat,
                      policy: nat, before: map<nat, Token>, after: map<nat, Token>, answer: Result<Token>)
  {
    var d := env.digest(raw);
    if Hit(env, raw, keys, now, leeway, before) then
      answer == Admitted(env, policy, Ok(before[d])) && after == before
    else
      var r := Check(env, raw, if during.Some? then during.value else keys, now, leeway);
      && answer == Admitted(env, policy, r)
      && (if r.Ok? then forall k :: k in after ==> (k == d && after[k] == r.value) || (k in before && after[k] == before[k])
          else forall k :: k in after ==> k in before && after[k] == before[k])
  }

  class Verifier {
    const env: Env
    const leeway: nat
    const cache: Cache?

    ghost predicate Valid()
      reads this, cache
    {
      cache != null ==> cache.Valid()
    }

    ghost function Tokens(): map<nat, Token>
      reads this, cache
    {
      if cache == null then map[] else cache.tokens
    }

    /** A negative size turns the cache off. */
    constructor (env: Env, leeway: nat, size: int)
      requires size != 0
      ensures Valid() && this.env == env && this.leeway == leeway && Tokens() == map[]
      ensures cache == null <==> size < 0
      ensures cache != null ==> fresh(cache)
    {
      this.env, this.leeway := env, leeway;
      if size > 0 {
        var c := new Cache(size);
        cache := c;
      } else {
        cache := null;
      }
    }

    method Verify(raw: string, keys: map<string, Key>, during: Option<map<string, Key>>, now: int, policy: nat)
      returns (r: Result<Token>)
      requires Valid()
      modifies cache
      ensures Valid() && Requested(env, raw, keys, during, now, leeway, policy, old(Tokens()), Tokens(), r)
    {
      var digest := env.digest(raw);
      var tok := Cached(digest, keys, now);
      if tok.Some? {
        r := Ok(tok.value);
      } else {
        r := VerifyNow(raw, digest, if during.Some? then during.value else keys, now);
        if r.Refused? { return; }
      }
      var refusal := env.admit(policy, r.value);
      if refusal.Some? { return Refused(refusal.value); }
    }

    method Cached(digest: nat, keys: map<string, Key>, now: int) returns (r: Option<Token>)
      requires Valid()
      modifies cache
      ensures Valid()
      ensures forall k :: k in Tokens() ==> k in old(Tokens()) && Tokens()[k] == old(Tokens())[k]
      ensures r.Some? <==>
        && digest in old(Tokens()) && Fresh(old(Tokens())[digest], now, leeway)
        && old(Tokens())[digest].keyID in keys && keys[old(Tokens())[digest].keyID].jwk == old(Tokens())[digest].jwk
      ensures r.Some? ==> r.value == old(Tokens())[digest] && Tokens() == old(Tokens())
    {
      if cache == null { return None; }
      r := cache.Get(digest, now, leeway);
      if r.None? { return; }
      if r.value.keyID !in keys || keys[r.value.keyID].jwk != r.value.jwk { return None; }
    }

    method VerifyNow(raw: string, digest: nat, keys: map<string, Key>, now: int) returns (r: Result<Token>)
      requires Valid() && digest == env.digest(raw)
      modifies cache
      ensures Valid() && r == Check(env, raw, keys, now, leeway)
      ensures r.Ok? && cache != null ==> PutInto(old(Tokens()), digest, r.value, Tokens())
      ensures r.Refused? || cache == null ==> Tokens() == old(Tokens())
    {
      var header := env.readHeader(raw);
      if header.Refused? { return Refused(header.code); }
      var (alg, kid) := header.value;
      if kid !in keys { return Refused(KIDUnknown); }
      var key := keys[kid];
      if !Allows(key, alg) { return Refused(AlgNotAllowed); }
      var payload := env.signed(raw, alg, key.jwk);
      if payload.None? { return Refused(SignatureInvalid); }
      var claims := env.decodeClaims(payload.value);
      if claims.Refused? { return Refused(claims.code); }
      var fault := CheckAudience(claims.value, key.provider);
      if fault.Some? { return Refused(fault.value); }
      var expiry := CheckTimes(env, claims.value, now, leeway);
      if expiry.Refused? { return Refused(expiry.code); }
      var tok := Token(raw, payload.value, claims.value, StandardOf(claims.value), key.provider.id, kid,
                       StringClaim(claims.value, "iss"), expiry.value, key.jwk);
      if cache != null { cache.Put(digest, tok); }
      return Ok(tok);
    }
  }
}
