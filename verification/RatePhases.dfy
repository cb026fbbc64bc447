/**
 * The request and response phases of policies/advanced-ratelimit/ratelimit.go. Each phase visits every quota
 * and may charge it; the phases know of one another only through the request's metadata.
 */
module RatePhases {
  import opened Common
  import opened CostSources

  /** `celKey`: some key component is a CEL expression. No extraction means one unit per request. */
  datatype Quota = Quota(name: string, celKey: bool, extraction: Option<CostConfig>)

  /** `failOpen`: the backend is Redis and limiter errors are tolerated. */
  datatype Policy = Policy(quotas: seq<Quota>, failOpen: bool)

  datatype Charge = Charge(quota: nat, key: string, amount: nat)

  function NameOf(p: Policy, i: nat): string {
    if i < |p.quotas| && p.quotas[i].name != "" then p.quotas[i].name else "quota-" + Decimal(i)
  }

  ghost predicate DistinctNames(p: Policy) {
    forall i: nat, j: nat :: i < |p.quotas| && j < |p.quotas| && NameOf(p, i) == NameOf(p, j) ==> i == j
  }

  /** Whole units, rounded down. */
  function Whole(cost: real): (n: nat)
    requires cost >= 0.0
    ensures n as real <= cost < n as real + 1.0
  {
    cost.Floor
  }

  // ---- What the request phases see ----

  datatype Phase = Header | Body

  datatype Reply = Failed | Denied | Allowed

  /** Per phase and quota: the match conditions, the key, the cost sources, and the limiter's answers. */
  datatype RequestEnv = RequestEnv(
    applies: (Phase, nat) -> bool,
    key: (Phase, nat) -> string,
    read: (Phase, nat, nat) -> Option<real>,
    available: (Phase, nat) -> Option<int>,
    allow: (Phase, nat) -> Reply)

  ghost predicate ErrorFree(env: RequestEnv) {
    forall phase, i :: env.available(phase, i).Some? && env.allow(phase, i) != Failed
  }

  /** What visiting one quota does. */
  datatype Effect = Effect(key: Option<string>, charge: Option<Charge>, handled: bool, rejects: bool)

  const Skip := Effect(None, None, false, false)
  const Reject := Effect(None, None, false, true)

  function Pass(k: string): Effect { Effect(Some(k), None, false, false) }

  function OnError(p: Policy, k: string): Effect { if p.failOpen then Pass(k) else Reject }

  /** AllowN. */
  function Attempt(p: Policy, reply: Reply, c: Charge): Effect {
    match reply
    case Failed => OnError(p, c.key)
    case Denied => Reject
    case Allowed => Effect(Some(c.key), Some(c), true, false)
  }

  /** GetAvailable as a check for something left. */
  function Precheck(p: Policy, available: Option<int>, k: string): Effect {
    if available.None? then OnError(p, k) else if available.value <= 0 then Reject else Pass(k)
  }

  predicate IsHeader(k: Kind) { k == RequestHeader }

  function HeaderCost(env: RequestEnv, c: CostConfig, i: nat): (r: real)
    ensures r >= 0.0
  {
    Cost(c, IsHeader, (j: nat) => env.read(Header, i, j))
  }

  function BodyCost(env: RequestEnv, c: CostConfig, i: nat): (r: real)
    ensures r >= 0.0
  {
    Cost(c, InRequest, (j: nat) => env.read(Body, i, j))
  }

  function HeaderEffect(p: Policy, env: RequestEnv, i: nat): Effect
    requires i < |p.quotas|
  {
    var q, k := p.quotas[i], env.key(Header, i);
    if q.celKey || !env.applies(Header, i) then Skip
    else match q.extraction
      case None => Attempt(p, env.allow(Header, i), Charge(i, k, 1))
      case Some(c) =>
        if !RequestHeaderOnly(c) then Precheck(p, env.available(Header, i), k)
        else if HeaderCost(env, c, i) > 0.0 then Attempt(p, env.allow(Header, i), Charge(i, k, Whole(HeaderCost(env, c, i))))
        else if env.available(Header, i).None? then OnError(p, k)
        else Pass(k).(handled := true)
  }

  function BodyEffect(p: Policy, env: RequestEnv, handled: set<string>, i: nat): Effect
    requires i < |p.quotas|
  {
    var q, k := p.quotas[i], env.key(Body, i);
    if !env.applies(Body, i) then Skip
    else match q.extraction
      case None => if NameOf(p, i) in handled then Pass(k) else Attempt(p, env.allow(Body, i), Charge(i, k, 1))
      case Some(c) =>
        if RequestHeaderOnly(c) then Pass(k)
        else if !HasRequestPhase(c) then Precheck(p, env.available(Body, i), k)
        else if BodyCost(env, c, i) > 0.0 then Attempt(p, env.allow(Body, i), Charge(i, k, Whole(BodyCost(env, c, i))))
        else if env.available(Body, i).None? then OnError(p, k)
        else Pass(k)
  }

  predicate RequiresRequestBody(p: Policy) {
    exists i :: 0 <= i < |p.quotas| &&
      (p.quotas[i].celKey || (p.quotas[i].extraction.Some? && HasRequestBodyPhase(p.quotas[i].extraction.value)))
  }

  // ---- A phase: the quotas in order, up to a rejection ----

  datatype Progress = Progress(charges: seq<Charge>, handled: set<string>, keys: map<string, string>, rejected: bool)

  function Add(at: Progress, name: string, e: Effect): Progress {
    Progress(
      if e.charge.Some? then at.charges + [e.charge.value] else at.charges,
      if e.handled then at.handled + {name} else at.handled,
      if e.key.Some? then at.keys[name := e.key.value] else at.keys,
      e.rejects)
  }

  function Steps(names: seq<string>, effects: seq<Effect>): Progress
    requires |names| == |effects|
  {
    if effects == [] then Progress([], {}, map[], false)
    else
      var n := |effects| - 1;
      var at := Steps(names[..n], effects[..n]);
      if at.rejected then at else Add(at, names[n], effects[n])
  }

  function Names(p: Policy): (r: seq<string>)
    ensures |r| == |p.quotas|
  {
    seq(|p.quotas|, i requires 0 <= i < |p.quotas| => NameOf(p, i))
  }

  function HeaderEffects(p: Policy, env: RequestEnv): (r: seq<Effect>)
    ensures |r| == |p.quotas|
  {
    seq(|p.quotas|, i requires 0 <= i < |p.quotas| => HeaderEffect(p, env, i))
  }

  function BodyEffects(p: Policy, env: RequestEnv, handled: set<string>): (r: seq<Effect>)
    ensures |r| == |p.quotas|
  {
    seq(|p.quotas|, i requires 0 <= i < |p.quotas| => BodyEffect(p, env, handled, i))
  }

  function HeaderPhase(p: Policy, env: RequestEnv): Progress { Steps(Names(p), HeaderEffects(p, env)) }

  function BodyPhase(p: Policy, env: RequestEnv, handled: set<string>): Progress {
    Steps(Names(p), BodyEffects(p, env, handled))
  }

  datatype Half = Half(charges: seq<Charge>, keys: map<string, string>, accepted: bool)

  /** The request half of a request that nothing else refuses. */
  function RequestHalf(p: Policy, env: RequestEnv): Half {
    var h := HeaderPhase(p, env);
    if h.rejected then Half(h.charges, map[], false)
    else if !RequiresRequestBody(p) then Half(h.charges, h.keys, true)
    else
      var b := BodyPhase(p, env, h.handled);
      Half(h.charges + b.charges, if b.rejected then h.keys else b.keys, !b.rejected)
  }

  lemma StepsNext(names: seq<string>, effects: seq<Effect>, i: nat)
    requires |names| == |effects| && i < |effects|
    ensures var at := Steps(names[..i], effects[..i]);
      Steps(names[..i + 1], effects[..i + 1]) == if at.rejected then at else Add(at, names[i], effects[i])
  {
    assert names[..i + 1][..i] == names[..i] && effects[..i + 1][..i] == effects[..i];
  }

  /** A phase that was rejected early ends where it was rejected. */
  lemma {:induction false} StepsStop(names: seq<string>, effects: seq<Effect>, i: nat)
    requires |names| == |effects| && i <= |effects| && Steps(names[..i], effects[..i]).rejected
    ensures Steps(names, effects) == Steps(names[..i], effects[..i])
    decreases |effects|
  {
    if i == |effects| {
      assert names[..i] == names && effects[..i] == effects;
    } else {
      var n := |effects| - 1;
      assert names[..n][..i] == names[..i] && effects[..n][..i] == effects[..i];
      StepsStop(names[..n], effects[..n], i);
    }
  }

  // ---- What the response phases see ----

  /** Per quota: its sources, those that read the body, and whether the limiter took the charge. */
  datatype ResponseEnv = ResponseEnv(
    read: (nat, nat) -> Option<real>,
    readBody: (nat, nat, string) -> Option<real>,
    consumes: nat -> bool)

  function ResponseValue(env: ResponseEnv, c: CostConfig, i: nat, body: string, j: nat): Option<real> {
    if j < |c.sources| && ReadsResponseBody(c.sources[j].kind) then env.readBody(i, j, body) else env.read(i, j)
  }

  function ResponseCost(env: ResponseEnv, c: CostConfig, i: nat, body: string): (r: real)
    ensures r >= 0.0
  {
    Cost(c, InResponse, (j: nat) => ResponseValue(env, c, i, body, j))
  }

  function Consume(p: Policy, env: ResponseEnv, keys: map<string, string>, c: CostConfig, i: nat, body: string): Option<Charge> {
    var cost := ResponseCost(env, c, i, body);
    if NameOf(p, i) in keys && cost > 0.0 && env.consumes(i) then Some(Charge(i, keys[NameOf(p, i)], Whole(cost))) else None
  }

  function ResponseHeaderCharge(p: Policy, env: ResponseEnv, keys: map<string, string>, i: nat): Option<Charge>
    requires i < |p.quotas|
  {
    match p.quotas[i].extraction
    case None => None
    case Some(c) => if HasResponsePhase(c) && ResponseHeaderOnly(c) then Consume(p, env, keys, c, i, "") else None
  }

  function ResponseBodyCharge(p: Policy, env: ResponseEnv, keys: map<string, string>, body: string, i: nat): Option<Charge>
    requires i < |p.quotas|
  {
    match p.quotas[i].extraction
    case None => None
    case Some(c) => if HasResponsePhase(c) && !ResponseHeaderOnly(c) then Consume(p, env, keys, c, i, body) else None
  }

  predicate RequiresAnyResponseBodyMode(p: Policy) {
    exists i :: 0 <= i < |p.quotas| && p.quotas[i].extraction.Some? &&
      !ResponseHeaderOnly(p.quotas[i].extraction.value) && HasResponsePhase(p.quotas[i].extraction.value)
  }

  function Collect(charges: seq<Option<Charge>>): seq<Charge> {
    if charges == [] then []
    else
      var n := |charges| - 1;
      Collect(charges[..n]) + (if charges[n].Some? then [charges[n].value] else [])
  }

  function ResponseHeaderCharges(p: Policy, env: ResponseEnv, keys: map<string, string>): (r: seq<Option<Charge>>)
    ensures |r| == |p.quotas|
  {
    seq(|p.quotas|, i requires 0 <= i < |p.quotas| => ResponseHeaderCharge(p, env, keys, i))
  }

  /** Each quota reads its own copy of the body. */
  function ResponseBodyCharges(p: Policy, env: ResponseEnv, keys: map<string, string>, bodies: seq<string>): (r: seq<Option<Charge>>)
    requires |bodies| == |p.quotas|
    ensures |r| == |p.quotas|
  {
    seq(|p.quotas|, i requires 0 <= i < |p.quotas| => ResponseBodyCharge(p, env, keys, bodies[i], i))
  }

  // ---- Streaming ----

  predicate Accumulates(p: Policy, i: nat)
    requires i < |p.quotas|
  {
    p.quotas[i].extraction.Some? && RequiresResponseBody(p.quotas[i].extraction.value)
  }

  /** How many of the first `n` quotas append to the accumulator of this name. */
  function Sharers(p: Policy, name: string, n: nat): nat
    requires n <= |p.quotas|
  {
    if n == 0 then 0
    else Sharers(p, name, n - 1) + (if Accumulates(p, n - 1) && NameOf(p, n - 1) == name then 1 else 0)
  }

  function Repeat(s: string, n: nat): string { if n == 0 then "" else Repeat(s, n - 1) + s }

  /** Every chunk repeated `n` times over. */
  function Stretch(chunks: seq<string>, n: nat): string {
    if chunks == [] then "" else Stretch(chunks[..|chunks| - 1], n) + Repeat(chunks[|chunks| - 1], n)
  }

  datatype Delivery = Buffered(body: string) | Streamed(chunks: seq<string>)

  function Content(d: Delivery): string { if d.Buffered? then d.body else Concat(d.chunks) }

  /** What each quota reads at the end of the response. */
  function Bodies(p: Policy, d: Delivery): (r: seq<string>)
    ensures |r| == |p.quotas|
  {
    seq(|p.quotas|, i requires 0 <= i < |p.quotas| =>
      if d.Buffered? then d.body else Stretch(d.chunks, Sharers(p, NameOf(p, i), |p.quotas|)))
  }

  function ResponseHalf(p: Policy, env: ResponseEnv, keys: map<string, string>, d: Delivery): seq<Charge> {
    Collect(ResponseHeaderCharges(p, env, keys)) + Collect(ResponseBodyCharges(p, env, keys, Bodies(p, d)))
  }
}
