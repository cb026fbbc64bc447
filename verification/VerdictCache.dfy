/**
 * The token verdict cache of policies/jwt-auth/jwtauth.go: what a live entry promises in every
 * interleaving of concurrent requests, evictions and cache rebuilds under a non-decreasing clock.
 */
module VerdictCache {
  import opened Common
  import opened Sequences
  import opened Bytes
  import opened CanonicalEncoding
  import opened TokenKey

  const SECOND: int := 1_000_000_000

  datatype Outcome = Accepted(claims: Value, scopes: seq<Bytes>) | Rejected(reason: string)

  const NO_MANAGERS := "no key managers configured"
  const MALFORMED := "invalid token format"
  const EXPIRED := "token validation failed: token expired"
  const NOT_YET := "token validation failed: token not yet valid"
  const REFUSED := "token validation failed: token has invalid claims"

  /**
   * Everything verification learns from outside, held fixed: which configurations yield a usable key
   * manager, how a token parses, and what issuer selection and signature checking make of it.
   */
  datatype World = World(
    hasManagers: Value -> bool,
    parses: Bytes -> bool,
    exp: Bytes -> Option<int>,  // whole seconds, as int64(exp)
    nbf: Bytes -> Option<int>,
    signature: (Config, Bytes) -> Outcome)

  predicate Expired(w: World, c: Config, t: Bytes, now: int) {
    w.exp(t).Some? && now > w.exp(t).value * SECOND + c.leeway
  }

  predicate NotYetValid(w: World, c: Config, t: Bytes, now: int) {
    w.nbf(t).Some? && now < w.nbf(t).value * SECOND - c.leeway
  }

  /**
   * The JWT library repeats both checks when it parses with claims. Its expiry bound is strict, and it takes
   * a date of 0 for none.
   */
  predicate LibraryRefuses(w: World, c: Config, t: Bytes, now: int) {
    || (w.exp(t).Some? && w.exp(t).value != 0 && now >= w.exp(t).value * SECOND + c.leeway)
    || (w.nbf(t).Some? && w.nbf(t).value != 0 && NotYetValid(w, c, t, now))
  }

  /** The policy's own checks; None when they pass. */
  function ClaimsCheck(w: World, c: Config, t: Bytes, now: int): Option<string> {
    if !w.hasManagers(Canonical(c.keyManagers)) then Some(NO_MANAGERS)
    else if !w.parses(t) then Some(MALFORMED)
    else if Expired(w, c, t, now) then Some(EXPIRED)
    else if NotYetValid(w, c, t, now) then Some(NOT_YET)
    else None
  }

  function SignatureCheck(w: World, c: Config, t: Bytes, now: int): Outcome {
    var o := w.signature(CanonicalConfig(c), t);
    if o.Accepted? && LibraryRefuses(w, c, t, now) then Rejected(REFUSED) else o
  }

  /** Full verification at one instant. */
  function Verify(w: World, c: Config, t: Bytes, now: int): Outcome {
    match ClaimsCheck(w, c, t, now)
    case Some(reason) => Rejected(reason)
    case None => SignatureCheck(w, c, t, now)
  }

  /** The window in which a token is accepted, when nothing but its dates stands in the way. */
  predicate InWindow(exp: Option<int>, nbf: Option<int>, leeway: int, now: int) {
    && (nbf.Some? ==> nbf.value * SECOND <= now + leeway)
    && (exp.Some? ==> now - leeway <= exp.value * SECOND)
    && (exp.Some? && exp.value != 0 ==> now - leeway < exp.value * SECOND)
  }

  /** Verification accepts exactly the well-formed, well-signed tokens inside their window. */
  lemma AcceptedIff(w: World, c: Config, t: Bytes, now: int)
    ensures Verify(w, c, t, now).Accepted? <==>
      && w.hasManagers(Canonical(c.keyManagers)) && w.parses(t)
      && w.signature(CanonicalConfig(c), t).Accepted?
      && InWindow(w.exp(t), w.nbf(t), c.leeway, now)
    ensures Verify(w, c, t, now).Accepted? ==> Verify(w, c, t, now) == w.signature(CanonicalConfig(c), t)
  {
  }

  /** Which of the policy's own checks answers: the first that fails. */
  lemma FirstReason(w: World, c: Config, t: Bytes, now: int)
    ensures var managers, reason := w.hasManagers(Canonical(c.keyManagers)), ClaimsCheck(w, c, t, now);
      && (reason == Some(NO_MANAGERS) <==> !managers)
      && (reason == Some(MALFORMED) <==> managers && !w.parses(t))
      && (reason == Some(EXPIRED) <==> managers && w.parses(t) && w.exp(t).Some? && now - c.leeway > w.exp(t).value * SECOND)
      && (reason == Some(NOT_YET) <==>
           managers && w.parses(t) && !Expired(w, c, t, now) && w.nbf(t).Some? && now + c.leeway < w.nbf(t).value * SECOND)
  {
    assert NO_MANAGERS[0] == 'n' && MALFORMED[0] == 'i' && EXPIRED[0] == NOT_YET[0] == 't' && |EXPIRED| != |NOT_YET|;
  }

  /** A larger leeway accepts everything that a smaller one accepts, if signatures do not depend on it. */
  lemma LeewayWidens(w: World, c: Config, leeway: int, t: Bytes, now: int)
    requires c.leeway <= leeway
    requires w.signature(CanonicalConfig(c.(leeway := leeway)), t) == w.signature(CanonicalConfig(c), t)
    ensures Verify(w, c, t, now).Accepted? ==> Verify(w, c.(leeway := leeway), t, now) == Verify(w, c, t, now)
  {
    AcceptedIff(w, c, t, now);
    AcceptedIff(w, c.(leeway := leeway), t, now);
  }

  /** A stored verdict. `sealedAt` is a history variable: the clock reading its expiry was computed from. */
  datatype Verdict = Verdict(outcome: Outcome, expiresAt: int, sealedAt: int)

  function Ttl(c: Config, o: Outcome): int {
    if o.Accepted? then c.tokenTtl else c.negativeTtl
  }

  function SealVerdict(w: World, c: Config, t: Bytes, o: Outcome, now: int): Verdict {
    var expiresAt := now + Ttl(c, o);
    if o.Accepted? && w.exp(t).Some? && w.exp(t).value * SECOND - c.leeway < expiresAt
    then Verdict(o, w.exp(t).value * SECOND - c.leeway, now)
    else Verdict(o, expiresAt, now)
  }

  /** An acceptance lives for the token TTL but not past `exp - leeway`, a refusal for the negative TTL. */
  lemma SealedUntil(w: World, c: Config, t: Bytes, o: Outcome, now: int)
    ensures var v := SealVerdict(w, c, t, o, now);
      && v.outcome == o && v.sealedAt == now
      && (o.Rejected? ==> v.expiresAt == now + c.negativeTtl)
      && (o.Accepted? ==>
           && v.expiresAt <= now + c.tokenTtl
           && (w.exp(t).Some? ==> v.expiresAt + c.leeway <= w.exp(t).value * SECOND)
           && (v.expiresAt == now + c.tokenTtl || (w.exp(t).Some? && v.expiresAt + c.leeway == w.exp(t).value * SECOND)))
  {
  }

  type Cache = map<string, Verdict>

  function Lookup(cache: Cache, key: string, now: int): Option<Verdict> {
    if key in cache && now < cache[key].expiresAt then Some(cache[key]) else None
  }

  /** A lookup drops the entry it finds expired. */
  function AfterLookup(cache: Cache, key: string, now: int): Cache {
    if key in cache && now >= cache[key].expiresAt then cache - {key} else cache
  }

  /** A write, after which the bounded cache may have evicted anything. */
  function Store(cache: Cache, key: string, v: Verdict, evicted: set<string>): Cache {
    cache[key := v] - evicted
  }

  class JwtAuthPolicy {
    var tokenCache: Cache
    var tokenCacheSize: int

    method GetCachedVerdict(key: string, now: int) returns (hit: Option<Verdict>)
      modifies this`tokenCache
      ensures hit == Lookup(old(tokenCache), key, now)
      ensures hit.Some? <==> key in old(tokenCache) && now < old(tokenCache)[key].expiresAt
      ensures hit.Some? ==> hit.value == old(tokenCache)[key] && tokenCache == old(tokenCache)
      ensures hit.None? ==> tokenCache == old(tokenCache) - {key}
      ensures tokenCache == AfterLookup(old(tokenCache), key, now)
    {
      if key !in tokenCache {
        return None;
      }
      var v := tokenCache[key];
      if !(now < v.expiresAt) {
        tokenCache := tokenCache - {key};
        return None;
      }
      return Some(v);
    }

    method PutVerdict(key: string, v: Verdict, evicted: set<string>)
      modifies this`tokenCache
      ensures tokenCache == Store(old(tokenCache), key, v, evicted)
    {
      tokenCache := tokenCache[key := v];
      tokenCache := tokenCache - evicted;
    }

    /** Rebuilding flushes every entry; an unchanged size leaves the cache alone. */
    method EnsureTokenCache(maxSize: int)
      modifies this
      ensures tokenCacheSize == maxSize
      ensures tokenCache == if old(tokenCacheSize) == maxSize then old(tokenCache) else map[]
    {
      if tokenCacheSize == maxSize {
        return;
      }
      tokenCache := map[];
      tokenCacheSize := maxSize;
    }
  }

  /** How far a request that missed the cache has got. */
  datatype Progress =
    | Missed
    | ClaimsPassed
    | Decided(outcome: Outcome)
    | Sealed(verdict: Verdict)

  datatype Request = Request(config: Config, token: Bytes, progress: Progress)

  datatype State = State(now: int, cache: Cache, requests: map<nat, Request>)

  datatype Step =
    | Tick(to: int)
    | Evict(keys: set<string>)  // LRU eviction, and a rebuild when it names every key
    | Begin(id: nat, config: Config, token: Bytes)
    | CheckClaims(id: nat)
    | CheckSignature(id: nat)
    | Seal(id: nat)
    | Write(id: nat, evicted: set<string>)

  /** The deployment a run happens in: the outside world, the key it caches under, the requests it may see. */
  datatype Deployment = Deployment(world: World, key: (Config, Bytes) -> string, queries: set<(Config, Bytes)>)

  /** The key tells apart exactly the requests that verification could tell apart. */
  ghost predicate KeyFits(d: Deployment) {
    forall q, r :: q in d.queries && r in d.queries && d.key(q.0, q.1) == d.key(r.0, r.1) ==>
      CanonicalConfig(q.0) == CanonicalConfig(r.0) && q.1 == r.1
  }

  function Key(d: Deployment, c: Config, t: Bytes): string { d.key(c, t) }

  ghost function HashedBy(h: HashFunction, w: World, queries: set<(Config, Bytes)>): Deployment {
    Deployment(w, (c: Config, t: Bytes) => CacheKey(h, c, t), queries)
  }

  /** The policy's own key fits, whenever the hash does not collide on the requests at hand. */
  lemma HashedKeyFits(h: HashFunction, w: World, queries: set<(Config, Bytes)>)
    requires Digest32(h) && forall q :: q in queries ==> SizedConfig(q.0)
    requires forall q, r :: q in queries && r in queries ==> CollisionFree(h, q.0, q.1, r.0, r.1)
    ensures KeyFits(HashedBy(h, w, queries))
  {
    forall q, r | q in queries && r in queries && CacheKey(h, q.0, q.1) == CacheKey(h, r.0, r.1)
      ensures CanonicalConfig(q.0) == CanonicalConfig(r.0) && q.1 == r.1
    {
      CacheKeyDetermines(h, q.0, q.1, r.0, r.1);
    }
  }

  /** Only these two failures are permanent enough to be cached. */
  predicate Cacheable(reason: string) { reason == MALFORMED || reason == EXPIRED }

  ghost predicate Enabled(d: Deployment, s: State, step: Step) {
    match step
    case Tick(to) => s.now <= to
    case Evict(_) => true
    case Begin(id, c, t) =>
      id !in s.requests && (c, t) in d.queries && Lookup(s.cache, Key(d, c, t), s.now).None?
    case CheckClaims(id) => id in s.requests && s.requests[id].progress.Missed?
    case CheckSignature(id) => id in s.requests && s.requests[id].progress.ClaimsPassed?
    case Seal(id) => id in s.requests && s.requests[id].progress.Decided?
    case Write(id, _) => id in s.requests && s.requests[id].progress.Sealed?
  }

  function Advance(s: State, id: nat, p: Progress): State
    requires id in s.requests
  {
    s.(requests := s.requests[id := s.requests[id].(progress := p)])
  }

  function Finish(s: State, id: nat): State {
    s.(requests := s.requests - {id})
  }

  ghost function Apply(d: Deployment, s: State, step: Step): State
    requires Enabled(d, s, step)
  {
    match step
    case Tick(to) => s.(now := to)
    case Evict(keys) => s.(cache := s.cache - keys)
    case Begin(id, c, t) =>
      s.(cache := AfterLookup(s.cache, Key(d, c, t), s.now), requests := s.requests[id := Request(c, t, Missed)])
    case CheckClaims(id) =>
      var q := s.requests[id];
      (match ClaimsCheck(d.world, q.config, q.token, s.now)
       case None => Advance(s, id, ClaimsPassed)
       case Some(reason) =>
         if Cacheable(reason) then Advance(s, id, Decided(Rejected(reason))) else Finish(s, id))
    case CheckSignature(id) =>
      var q := s.requests[id];
      var o := SignatureCheck(d.world, q.config, q.token, s.now);
      if o.Accepted? then Advance(s, id, Decided(o)) else Finish(s, id)
    case Seal(id) =>
      var q := s.requests[id];
      Advance(s, id, Sealed(SealVerdict(d.world, q.config, q.token, q.progress.outcome, s.now)))
    case Write(id, evicted) =>
      var q := s.requests[id];
      var v := q.progress.verdict;
      // A positive verdict that is no longer in the future is not written.
      if v.outcome.Accepted? && v.expiresAt <= s.now then Finish(s, id)
      else Finish(s.(cache := Store(s.cache, Key(d, q.config, q.token), v, evicted)), id)
  }

  ghost predicate Runs(d: Deployment, s: State, steps: seq<Step>)
    decreases |steps|
  {
    steps == [] || (Enabled(d, s, steps[0]) && Runs(d, Apply(d, s, steps[0]), steps[1..]))
  }

  ghost function After(d: Deployment, s: State, steps: seq<Step>): State
    requires Runs(d, s, steps)
    decreases |steps|
  {
    if steps == [] then s else After(d, Apply(d, s, steps[0]), steps[1..])
  }

  function Start(now: int): State { State(now, map[], map[]) }

  /** The configurations whose hits can be trusted: a caller can check this before deploying one. */
  predicate Trusted(c: Config) { c.leeway >= 0 || c.tokenTtl <= 0 }

  /** From `since` on and while it lives, the verdict is what full verification would say. */
  ghost predicate Agrees(w: World, c: Config, t: Bytes, v: Verdict, since: int) {
    forall tau :: since <= tau < v.expiresAt ==> Verify(w, c, t, tau) == v.outcome
  }

  /** What has been established once a check has passed, and stays true as the clock moves on. */
  ghost predicate ClaimsHold(w: World, c: Config, t: Bytes, now: int) {
    w.hasManagers(Canonical(c.keyManagers)) && w.parses(t) && !NotYetValid(w, c, t, now)
  }

  ghost predicate OutcomeHolds(w: World, c: Config, t: Bytes, o: Outcome, now: int) {
    if o.Accepted? then ClaimsHold(w, c, t, now) && w.signature(CanonicalConfig(c), t) == o
    else Cacheable(o.reason) && ClaimsCheck(w, c, t, now) == Some(o.reason)
  }

  ghost predicate VerdictHolds(w: World, c: Config, t: Bytes, v: Verdict, now: int) {
    && v.sealedAt <= now
    && v.expiresAt <= v.sealedAt + Ttl(c, v.outcome)
    && (Trusted(c) ==> Agrees(w, c, t, v, now))
  }

  ghost predicate RequestHolds(d: Deployment, q: Request, now: int) {
    && (q.config, q.token) in d.queries
    && match q.progress
       case Missed => true
       case ClaimsPassed => ClaimsHold(d.world, q.config, q.token, now)
       case Decided(o) => OutcomeHolds(d.world, q.config, q.token, o, now)
       case Sealed(v) => VerdictHolds(d.world, q.config, q.token, v, now)
  }

  ghost predicate EntryHolds(d: Deployment, key: string, v: Verdict, now: int) {
    exists q :: q in d.queries && Key(d, q.0, q.1) == key && VerdictHolds(d.world, q.0, q.1, v, now)
  }

  ghost predicate Invariant(d: Deployment, s: State) {
    && (forall id :: id in s.requests ==> RequestHolds(d, s.requests[id], s.now))
    && (forall key :: key in s.cache ==> EntryHolds(d, key, s.cache[key], s.now))
  }

  /** The heart of the matter: sealing at the sooner of the TTL and `exp - leeway` keeps the promise. */
  lemma SealHolds(w: World, c: Config, t: Bytes, o: Outcome, now: int)
    requires OutcomeHolds(w, c, t, o, now)
    ensures VerdictHolds(w, c, t, SealVerdict(w, c, t, o, now), now)
  {
    var v := SealVerdict(w, c, t, o, now);
    if Trusted(c) {
      forall tau | now <= tau < v.expiresAt
        ensures Verify(w, c, t, tau) == o
      {
        if o.Accepted? {
          assert c.leeway >= 0;
          assert !LibraryRefuses(w, c, t, tau) && !Expired(w, c, t, tau);
        }
      }
    }
  }

  lemma TimePasses(d: Deployment, s: State, to: int)
    requires Invariant(d, s) && s.now <= to
    ensures Invariant(d, s.(now := to))
  {
  }

  lemma AdvanceHolds(d: Deployment, s: State, id: nat, p: Progress)
    requires Invariant(d, s) && id in s.requests
    requires RequestHolds(d, s.requests[id].(progress := p), s.now)
    ensures Invariant(d, Advance(s, id, p))
  {
  }

  lemma WriteHolds(d: Deployment, s: State, id: nat, evicted: set<string>)
    requires Invariant(d, s) && Enabled(d, s, Write(id, evicted))
    ensures Invariant(d, Apply(d, s, Write(id, evicted)))
  {
  }

  lemma StepHolds(d: Deployment, s: State, step: Step)
    requires Invariant(d, s) && Enabled(d, s, step)
    ensures Invariant(d, Apply(d, s, step))
  {
    match step
    case Tick(to) => TimePasses(d, s, to);
    case Evict(_) =>
    case Begin(_, _, _) =>
    case CheckClaims(id) =>
      var q := s.requests[id];
      assert RequestHolds(d, q, s.now);
      match ClaimsCheck(d.world, q.config, q.token, s.now) {
        case None => AdvanceHolds(d, s, id, ClaimsPassed);
        case Some(reason) =>
          if Cacheable(reason) { AdvanceHolds(d, s, id, Decided(Rejected(reason))); }
      }
    case CheckSignature(id) =>
      var q := s.requests[id];
      assert RequestHolds(d, q, s.now);
      var o := SignatureCheck(d.world, q.config, q.token, s.now);
      if o.Accepted? { AdvanceHolds(d, s, id, Decided(o)); }
    case Seal(id) =>
      var q := s.requests[id];
      assert RequestHolds(d, q, s.now);
      SealHolds(d.world, q.config, q.token, q.progress.outcome, s.now);
      AdvanceHolds(d, s, id, Sealed(SealVerdict(d.world, q.config, q.token, q.progress.outcome, s.now)));
    case Write(id, evicted) => WriteHolds(d, s, id, evicted);
  }

  lemma {:induction false} RunHolds(d: Deployment, s: State, steps: seq<Step>)
    requires Invariant(d, s) && Runs(d, s, steps)
    ensures Invariant(d, After(d, s, steps))
    decreases |steps|
  {
    if steps != [] {
      StepHolds(d, s, steps[0]);
      RunHolds(d, Apply(d, s, steps[0]), steps[1..]);
    }
  }

  /**
   * In every run, a hit says what full verification would say at the moment the clock is read for it,
   * with the same claims, scopes or reason, and it is younger than the serving route's own TTL.
   */
  lemma HitIsCurrent(d: Deployment, from: int, steps: seq<Step>, c: Config, t: Bytes, tau: int)
    requires KeyFits(d) && Runs(d, Start(from), steps) && (c, t) in d.queries
    requires After(d, Start(from), steps).now <= tau
    ensures var hit := Lookup(After(d, Start(from), steps).cache, Key(d, c, t), tau);
      hit.Some? ==>
        && (Trusted(c) ==> hit.value.outcome == Verify(d.world, c, t, tau))
        && 0 <= tau - hit.value.sealedAt < (if hit.value.outcome.Accepted? then c.tokenTtl else c.negativeTtl)
  {
    RunHolds(d, Start(from), steps);
    var s := After(d, Start(from), steps);
    LaterHolds(d, s.cache, s.now, tau);
    CachedAgrees(d, s.cache, c, t, tau);
  }

  /** A deployment in which the only token expires at second `e` and carries a good signature. */
  function OneToken(key: (Config, Bytes) -> string, c: Config, e: int): Deployment {
    var good := Accepted(Null, []);
    Deployment(World(_ => true, _ => true, _ => Some(e), _ => None, (_, _) => good), key, {(c, [])})
  }

  /**
   * Without that condition, whenever the token expires, a hit can accept a token that the policy's own check
   * refuses by then.
   */
  lemma UntrustedHit(key: (Config, Bytes) -> string, c: Config, e: int) returns (from: int, steps: seq<Step>)
    requires !Trusted(c)
    ensures var d := OneToken(key, c, e);
      && KeyFits(d) && Runs(d, Start(from), steps)
      && var s := After(d, Start(from), steps);
         var hit := Lookup(s.cache, Key(d, c, []), s.now);
         hit.Some? && hit.value.outcome.Accepted? && Verify(d.world, c, [], s.now) == Rejected(EXPIRED)
  {
    var d := OneToken(key, c, e);
    from := e * SECOND + c.leeway - 1;
    var s0 := Start(from);
    var s1 := Apply(d, s0, Begin(0, c, []));
    var s2 := Apply(d, s1, CheckClaims(0));
    var s3 := Apply(d, s2, CheckSignature(0));
    steps := LateSeal(key, c, e, s3);
    steps := Prepend(d, s2, CheckSignature(0), steps);
    steps := Prepend(d, s1, CheckClaims(0), steps);
    steps := Prepend(d, s0, Begin(0, c, []), steps);
  }

  /** The clock moves past the token's deadline between the last check and the sealing of the verdict. */
  lemma LateSeal(key: (Config, Bytes) -> string, c: Config, e: int, s: State) returns (steps: seq<Step>)
    requires !Trusted(c) && s.now == e * SECOND + c.leeway - 1
    requires s.requests == map[0 := Request(c, [], Decided(Accepted(Null, [])))]
    ensures var d := OneToken(key, c, e);
      && Runs(d, s, steps)
      && var s' := After(d, s, steps);
         var hit := Lookup(s'.cache, Key(d, c, []), s'.now);
         hit.Some? && hit.value.outcome.Accepted? && Verify(d.world, c, [], s'.now) == Rejected(EXPIRED)
  {
    var d, late := OneToken(key, c, e), e * SECOND + c.leeway + 1;
    var s4 := Apply(d, s, Tick(late));
    var s5 := Apply(d, s4, Seal(0));
    var s6 := Apply(d, s5, Write(0, {}));
    assert Runs(d, s6, []) && After(d, s6, []) == s6;
    steps := Prepend(d, s5, Write(0, {}), []);
    steps := Prepend(d, s4, Seal(0), steps);
    steps := Prepend(d, s, Tick(late), steps);
  }

  lemma Prepend(d: Deployment, s: State, step: Step, steps: seq<Step>) returns (r: seq<Step>)
    requires Enabled(d, s, step) && Runs(d, Apply(d, s, step), steps)
    ensures r == [step] + steps && Runs(d, s, r)
    ensures After(d, s, r) == After(d, Apply(d, s, step), steps)
  {
    r := [step] + steps;
    assert r[1..] == steps;
  }

  ghost predicate CacheHolds(d: Deployment, cache: Cache, now: int) {
    forall key :: key in cache ==> EntryHolds(d, key, cache[key], now)
  }

  lemma LaterHolds(d: Deployment, cache: Cache, now: int, later: int)
    requires CacheHolds(d, cache, now) && now <= later
    ensures CacheHolds(d, cache, later)
  {
  }

  lemma StoreHolds(d: Deployment, cache: Cache, c: Config, t: Bytes, o: Outcome, now: int, later: int, evicted: set<string>)
    requires CacheHolds(d, cache, later) && now <= later && (c, t) in d.queries
    requires OutcomeHolds(d.world, c, t, o, now)
    ensures CacheHolds(d, Store(cache, Key(d, c, t), SealVerdict(d.world, c, t, o, now), evicted), later)
  {
  }

  /** What a request that misses answers, reading the clock at `claimsAt` and then at `signatureAt`. */
  function MissOutcome(w: World, c: Config, t: Bytes, claimsAt: int, signatureAt: int): Outcome {
    match ClaimsCheck(w, c, t, claimsAt)
    case Some(reason) => Rejected(reason)
    case None => SignatureCheck(w, c, t, signatureAt)
  }

  /** What is written: a malformed or expired token, and an acceptance that still has time to live. */
  predicate Worth(w: World, c: Config, t: Bytes, clock: seq<int>, v: Verdict)
    requires |clock| == 5
  {
    match ClaimsCheck(w, c, t, clock[1])
    case Some(reason) => reason == MALFORMED || reason == EXPIRED
    case None => v.outcome.Accepted? && clock[4] < v.expiresAt
  }

  /**
   * One request alone, from the cache boundary on. `clock` is what its five readings of time.Now return:
   * for the lookup, the policy's claim checks, the library's, the sealing, and the test before the write.
   */
  method Authenticate(p: JwtAuthPolicy, d: Deployment, c: Config, t: Bytes, caching: bool, clock: seq<int>, evicted: set<string>)
    returns (o: Outcome)
    requires |clock| == 5 && forall i, j :: 0 <= i < j < 5 ==> clock[i] <= clock[j]
    requires KeyFits(d) && (c, t) in d.queries && CacheHolds(d, p.tokenCache, clock[0])
    modifies p`tokenCache
    ensures CacheHolds(d, p.tokenCache, clock[4])
    ensures !caching ==> p.tokenCache == old(p.tokenCache)
    ensures caching ==>
      var key, v := Key(d, c, t), SealVerdict(d.world, c, t, o, clock[3]);
      var looked := AfterLookup(old(p.tokenCache), key, clock[0]);
      p.tokenCache == if Lookup(old(p.tokenCache), key, clock[0]).None? && Worth(d.world, c, t, clock, v)
                      then Store(looked, key, v, evicted) else looked
    ensures var hit := Lookup(old(p.tokenCache), Key(d, c, t), clock[0]);
      if caching && hit.Some? then o == hit.value.outcome && (Trusted(c) ==> o == Verify(d.world, c, t, clock[0]))
      else o == MissOutcome(d.world, c, t, clock[1], clock[2])
  {
    var key := Key(d, c, t);
    if caching {
      var hit := p.GetCachedVerdict(key, clock[0]);
      LaterHolds(d, p.tokenCache, clock[0], clock[4]);
      if hit.Some? {
        CachedAgrees(d, old(p.tokenCache), c, t, clock[0]);
        return hit.value.outcome;
      }
    } else {
      LaterHolds(d, p.tokenCache, clock[0], clock[4]);
    }
    var reason := ClaimsCheck(d.world, c, t, clock[1]);
    if reason.Some? {
      o := Rejected(reason.value);
      if caching && Cacheable(reason.value) {
        StoreHolds(d, p.tokenCache, c, t, o, clock[3], clock[4], evicted);
        p.PutVerdict(key, SealVerdict(d.world, c, t, o, clock[3]), evicted);
      }
      return;
    }
    o := SignatureCheck(d.world, c, t, clock[2]);
    if o.Accepted? && caching {
      var v := SealVerdict(d.world, c, t, o, clock[3]);
      if v.expiresAt > clock[4] {
        StoreHolds(d, p.tokenCache, c, t, o, clock[3], clock[4], evicted);
        p.PutVerdict(key, v, evicted);
      }
    }
  }

  lemma CanonicalDecides(w: World, c: Config, e: Config, t: Bytes, now: int)
    requires CanonicalConfig(c) == CanonicalConfig(e)
    ensures Verify(w, c, t, now) == Verify(w, e, t, now)
    ensures c.leeway == e.leeway && c.tokenTtl == e.tokenTtl && c.negativeTtl == e.negativeTtl
  {
  }

  lemma CachedAgrees(d: Deployment, cache: Cache, c: Config, t: Bytes, now: int)
    requires KeyFits(d) && (c, t) in d.queries && CacheHolds(d, cache, now)
    ensures var hit := Lookup(cache, Key(d, c, t), now);
      hit.Some? ==>
        && (Trusted(c) ==> hit.value.outcome == Verify(d.world, c, t, now))
        && 0 <= now - hit.value.sealedAt < Ttl(c, hit.value.outcome)
  {
    var key := Key(d, c, t);
    if key in cache {
      assert EntryHolds(d, key, cache[key], now);
      var q :| q in d.queries && Key(d, q.0, q.1) == key && VerdictHolds(d.world, q.0, q.1, cache[key], now);
      var r := (c, t);
      assert d.key(q.0, q.1) == d.key(r.0, r.1);
      CanonicalDecides(d.world, c, q.0, t, now);
    }
  }
}
