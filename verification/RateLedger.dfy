/**
 * What a request is charged over all its phases: nothing twice, and on an accepted, error-free request
 * exactly what is due, whether the response is buffered or streamed.
 */
module RateLedger {
  import opened Common
  import opened CostSources
  import opened RatePhases

  /** The charges of one quota, in order. */
  function Of(charges: seq<Charge>, i: nat): seq<Charge> {
    if charges == [] then []
    else
      var n := |charges| - 1;
      Of(charges[..n], i) + (if charges[n].quota == i then [charges[n]] else [])
  }

  function Listed(c: Option<Charge>): seq<Charge> { if c.Some? then [c.value] else [] }

  lemma {:induction false} OfAppend(a: seq<Charge>, b: seq<Charge>, i: nat)
    ensures Of(a + b, i) == Of(a, i) + Of(b, i)
  {
    if b == [] {
      assert a + b == a;
    } else {
      var n := |b| - 1;
      OfAppend(a, b[..n], i);
      assert (a + b)[..|a| + n] == a + b[..n];
    }
  }

  lemma OfOne(a: seq<Charge>, c: Charge, i: nat)
    ensures Of(a + [c], i) == Of(a, i) + (if c.quota == i then [c] else [])
  {
  }

  // ---- One request phase ----

  /** A quota is only ever charged as itself, and a rejection charges nothing. */
  ghost predicate Tagged(effects: seq<Effect>) {
    forall j: nat :: j < |effects| && effects[j].charge.Some? ==>
      effects[j].charge.value.quota == j && effects[j].handled && !effects[j].rejects
  }

  lemma TaggedPrefix(effects: seq<Effect>)
    requires Tagged(effects) && effects != []
    ensures Tagged(effects[..|effects| - 1])
  {
  }

  /** What a phase charges a quota: its effect's charge, unless the phase was rejected before. */
  lemma {:induction false} StepsCharges(names: seq<string>, effects: seq<Effect>, i: nat)
    requires |names| == |effects| && Tagged(effects)
    ensures var at := Steps(names, effects);
      if i >= |effects| then Of(at.charges, i) == []
      else
        && (Of(at.charges, i) == [] || Of(at.charges, i) == Listed(effects[i].charge))
        && (!at.rejected ==> !effects[i].rejects && Of(at.charges, i) == Listed(effects[i].charge))
  {
    if effects != [] {
      var n := |effects| - 1;
      TaggedPrefix(effects);
      StepsCharges(names[..n], effects[..n], i);
      var at := Steps(names[..n], effects[..n]);
      if effects[n].charge.Some? {
        OfOne(at.charges, effects[n].charge.value, i);
      }
    }
  }

  ghost predicate HandledBy(names: seq<string>, effects: seq<Effect>, name: string)
    requires |names| == |effects|
  {
    exists j :: 0 <= j < |effects| && names[j] == name && effects[j].handled
  }

  lemma HandledSnoc(names: seq<string>, effects: seq<Effect>, name: string)
    requires |names| == |effects| && effects != []
    ensures var n := |effects| - 1;
      HandledBy(names, effects, name) <==> HandledBy(names[..n], effects[..n], name) || (names[n] == name && effects[n].handled)
  {
  }

  lemma {:induction false} StepsHandled(names: seq<string>, effects: seq<Effect>, name: string)
    requires |names| == |effects|
    ensures var at := Steps(names, effects);
      !at.rejected ==> (name in at.handled <==> HandledBy(names, effects, name))
  {
    if effects != [] {
      var n := |effects| - 1;
      StepsHandled(names[..n], effects[..n], name);
      HandledSnoc(names, effects, name);
    }
  }

  /** With distinct names the recorded key of a quota is the one its own effect gave. */
  lemma {:induction false} StepsKeys(names: seq<string>, effects: seq<Effect>, i: nat)
    requires |names| == |effects| && i < |effects|
    requires forall j: nat :: j < |names| && names[j] == names[i] ==> j == i
    ensures var at := Steps(names, effects);
      !at.rejected ==> (names[i] in at.keys <==> effects[i].key.Some?) && (names[i] in at.keys ==> at.keys[names[i]] == effects[i].key.value)
  {
    var n := |effects| - 1;
    if i < n {
      assert names[..n][i] == names[i] && effects[..n][i] == effects[i];
      StepsKeys(names[..n], effects[..n], i);
      assert names[n] != names[i];
    } else {
      StepsNoKey(names[..n], effects[..n], names[i]);
    }
  }

  lemma {:induction false} StepsNoKey(names: seq<string>, effects: seq<Effect>, name: string)
    requires |names| == |effects| && forall j :: 0 <= j < |names| ==> names[j] != name
    ensures name !in Steps(names, effects).keys
  {
    if effects != [] {
      var n := |effects| - 1;
      assert names[n] != name;
      StepsNoKey(names[..n], effects[..n], name);
    }
  }

  // ---- The request half ----

  lemma HeaderTagged(p: Policy, env: RequestEnv)
    ensures Tagged(HeaderEffects(p, env))
  {
  }

  lemma BodyTagged(p: Policy, env: RequestEnv, handled: set<string>)
    ensures Tagged(BodyEffects(p, env, handled))
  {
  }

  lemma HeaderCharges(p: Policy, env: RequestEnv, i: nat)
    requires i < |p.quotas|
    ensures var h, e := HeaderPhase(p, env), HeaderEffect(p, env, i);
      && (Of(h.charges, i) == [] || Of(h.charges, i) == Listed(e.charge))
      && (!h.rejected ==> !e.rejects && Of(h.charges, i) == Listed(e.charge))
      && (!h.rejected && e.charge.Some? ==> NameOf(p, i) in h.handled)
  {
    HeaderTagged(p, env);
    StepsCharges(Names(p), HeaderEffects(p, env), i);
    StepsHandled(Names(p), HeaderEffects(p, env), NameOf(p, i));
    assert HeaderEffects(p, env)[i] == HeaderEffect(p, env, i) && Names(p)[i] == NameOf(p, i);
  }

  lemma BodyCharges(p: Policy, env: RequestEnv, handled: set<string>, i: nat)
    requires i < |p.quotas|
    ensures var b, e := BodyPhase(p, env, handled), BodyEffect(p, env, handled, i);
      && (Of(b.charges, i) == [] || Of(b.charges, i) == Listed(e.charge))
      && (!b.rejected ==> !e.rejects && Of(b.charges, i) == Listed(e.charge))
  {
    BodyTagged(p, env, handled);
    StepsCharges(Names(p), BodyEffects(p, env, handled), i);
    assert BodyEffects(p, env, handled)[i] == BodyEffect(p, env, handled, i);
  }

  /** A quota charged in the header phase is not charged in the body phase. */
  lemma NotBoth(p: Policy, env: RequestEnv, handled: set<string>, i: nat)
    requires i < |p.quotas| && HeaderEffect(p, env, i).charge.Some? && NameOf(p, i) in handled
    ensures BodyEffect(p, env, handled, i).charge.None?
  {
  }

  /** In every run, errors and rejections and repeated names included, the request half charges a quota at most once. */
  lemma RequestAtMostOnce(p: Policy, env: RequestEnv, i: nat)
    requires i < |p.quotas|
    ensures |Of(RequestHalf(p, env).charges, i)| <= 1
  {
    var h := HeaderPhase(p, env);
    HeaderCharges(p, env, i);
    if !h.rejected {
      var b := BodyPhase(p, env, h.handled);
      BodyCharges(p, env, h.handled, i);
      OfAppend(h.charges, b.charges, i);
      if HeaderEffect(p, env, i).charge.Some? {
        NotBoth(p, env, h.handled, i);
      }
    }
  }

  function Positive(i: nat, key: string, cost: real): Option<Charge> {
    if cost > 0.0 then Some(Charge(i, key, Whole(cost))) else None
  }

  /**
   * What a quota owes for the request half if it applies to the request: one unit or its request cost, under
   * the key of the first phase that can tell.
   */
  function RequestDue(p: Policy, env: RequestEnv, i: nat): Option<Charge>
    requires i < |p.quotas|
  {
    var q := p.quotas[i];
    match q.extraction
    case None =>
      if !q.celKey && env.applies(Header, i) then Some(Charge(i, env.key(Header, i), 1))
      else if RequiresRequestBody(p) && env.applies(Body, i) then Some(Charge(i, env.key(Body, i), 1))
      else None
    case Some(c) =>
      if RequestHeaderOnly(c) then
        if !q.celKey && env.applies(Header, i) then Positive(i, env.key(Header, i), HeaderCost(env, c, i))
        else if RequiresRequestBody(p) && env.applies(Body, i) then Positive(i, env.key(Body, i), BodyCost(env, c, i))
        else None
      else if HasRequestPhase(c) && env.applies(Body, i) then Positive(i, env.key(Body, i), BodyCost(env, c, i))
      else None
  }

  lemma HeaderEffectDue(p: Policy, env: RequestEnv, i: nat)
    requires i < |p.quotas| && ErrorFree(env) && !HeaderEffect(p, env, i).rejects
    ensures var q, e := p.quotas[i], HeaderEffect(p, env, i);
      && (e.charge.Some? ==> e.charge == RequestDue(p, env, i))
      && (q.extraction.None? ==> (e.handled <==> e.charge.Some?) && (e.charge.Some? <==> !q.celKey && env.applies(Header, i)))
      && (q.extraction.Some? && RequestHeaderOnly(q.extraction.value) ==>
           if !q.celKey && env.applies(Header, i) then e.charge == RequestDue(p, env, i) else e.charge.None?)
  {
  }

  lemma BodyEffectDue(p: Policy, env: RequestEnv, handled: set<string>, i: nat)
    requires i < |p.quotas| && ErrorFree(env) && !BodyEffect(p, env, handled, i).rejects
    ensures var q, e := p.quotas[i], BodyEffect(p, env, handled, i);
      match q.extraction
      case None =>
        if NameOf(p, i) in handled then e.charge.None?
        else (e.charge == if env.applies(Body, i) then Some(Charge(i, env.key(Body, i), 1)) else None)
      case Some(c) =>
        if RequestHeaderOnly(c) then e.charge.None? else e.charge == RequestDue(p, env, i)
  {
  }

  /** A quota the header phase deals with for good. */
  predicate SettledInHeaders(p: Policy, env: RequestEnv, i: nat)
    requires i < |p.quotas|
  {
    var q := p.quotas[i];
    !q.celKey && env.applies(Header, i) && (q.extraction.None? || RequestHeaderOnly(q.extraction.value))
  }

  /** A standard quota that is left to the body phase while a namesake was settled in the header phase. */
  ghost predicate MistakenForNamesake(p: Policy, env: RequestEnv, i: nat)
    requires i < |p.quotas|
  {
    && p.quotas[i].extraction.None? && !SettledInHeaders(p, env, i)
    && RequiresRequestBody(p) && env.applies(Body, i)
    && exists j: nat :: j < |p.quotas| && NameOf(p, j) == NameOf(p, i) && SettledInHeaders(p, env, j)
  }

  /** A quota whose request cost is in headers only, left to the body phase, which takes it for settled. */
  predicate FallsBetween(p: Policy, env: RequestEnv, i: nat)
    requires i < |p.quotas|
  {
    var q := p.quotas[i];
    && q.extraction.Some? && RequestHeaderOnly(q.extraction.value) && !SettledInHeaders(p, env, i)
    && RequiresRequestBody(p) && env.applies(Body, i) && BodyCost(env, q.extraction.value, i) > 0.0
  }

  lemma HandledIsSettled(p: Policy, env: RequestEnv, name: string)
    requires ErrorFree(env) && !HeaderPhase(p, env).rejected
    ensures name in HeaderPhase(p, env).handled <==>
      exists j: nat :: j < |p.quotas| && NameOf(p, j) == name && SettledInHeaders(p, env, j)
  {
    var names, effects := Names(p), HeaderEffects(p, env);
    StepsHandled(names, effects, name);
    forall j: nat | j < |p.quotas| ensures effects[j].handled <==> SettledInHeaders(p, env, j) {
      HeaderCharges(p, env, j);
      assert effects[j] == HeaderEffect(p, env, j);
    }
    assert forall j: nat :: j < |p.quotas| ==> names[j] == NameOf(p, j);
    if HandledBy(names, effects, name) {
      var j :| 0 <= j < |effects| && names[j] == name && effects[j].handled;
      assert NameOf(p, j) == name && SettledInHeaders(p, env, j);
    }
    if j: nat :| j < |p.quotas| && NameOf(p, j) == name && SettledInHeaders(p, env, j) {
      assert names[j] == name && effects[j].handled;
    }
  }

  /** Whoever has body sources, or a CEL key, makes the body phase run. */
  lemma DeferredRuns(p: Policy, i: nat)
    requires i < |p.quotas|
    ensures p.quotas[i].celKey ==> RequiresRequestBody(p)
    ensures p.quotas[i].extraction.Some? && HasRequestPhase(p.quotas[i].extraction.value) && !RequestHeaderOnly(p.quotas[i].extraction.value) ==>
      RequiresRequestBody(p)
  {
    if p.quotas[i].extraction.Some? {
      DeferredNeedsBody(p.quotas[i].extraction.value);
    }
  }

  /**
   * On an accepted, error-free request the request half charges a quota exactly what it owes, once, if and
   * only if the quota is not mistaken for a namesake and does not fall between the phases.
   */
  lemma RequestExactIff(p: Policy, env: RequestEnv, i: nat)
    requires i < |p.quotas| && ErrorFree(env) && RequestHalf(p, env).accepted
    ensures Of(RequestHalf(p, env).charges, i) == Listed(RequestDue(p, env, i)) <==>
      !MistakenForNamesake(p, env, i) && !FallsBetween(p, env, i)
  {
    var h := HeaderPhase(p, env);
    HeaderCharges(p, env, i);
    HeaderEffectDue(p, env, i);
    HandledIsSettled(p, env, NameOf(p, i));
    DeferredRuns(p, i);
    if RequiresRequestBody(p) {
      var b := BodyPhase(p, env, h.handled);
      BodyCharges(p, env, h.handled, i);
      BodyEffectDue(p, env, h.handled, i);
      OfAppend(h.charges, b.charges, i);
    }
  }

  /** With distinct names every quota that does not fall between the phases is charged exactly what it owes. */
  lemma RequestExactlyOnce(p: Policy, env: RequestEnv, i: nat)
    requires i < |p.quotas| && DistinctNames(p) && ErrorFree(env) && RequestHalf(p, env).accepted
    ensures Of(RequestHalf(p, env).charges, i) == Listed(RequestDue(p, env, i)) <==> !FallsBetween(p, env, i)
  {
    RequestExactIff(p, env, i);
  }

  /** AllowN lets the request through, or fails where failures are tolerated. */
  predicate Lets(p: Policy, reply: Reply) { reply == Allowed || (reply == Failed && p.failOpen) }

  predicate Answers(p: Policy, available: Option<int>) { available.Some? || p.failOpen }

  predicate HasLeft(p: Policy, available: Option<int>) { if available.Some? then available.value > 0 else p.failOpen }

  /** What each quota asks of its limiter before it lets a request through. */
  predicate Admits(p: Policy, env: RequestEnv, i: nat)
    requires i < |p.quotas|
  {
    AdmitsHeaders(p, env, i) && (RequiresRequestBody(p) && env.applies(Body, i) ==> AdmitsBody(p, env, i))
  }

  predicate AdmitsHeaders(p: Policy, env: RequestEnv, i: nat)
    requires i < |p.quotas|
  {
    var q := p.quotas[i];
    if q.celKey || !env.applies(Header, i) then true
    else match q.extraction
      case None => Lets(p, env.allow(Header, i))
      case Some(c) =>
        if !RequestHeaderOnly(c) then HasLeft(p, env.available(Header, i))
        else if HeaderCost(env, c, i) > 0.0 then Lets(p, env.allow(Header, i))
        else Answers(p, env.available(Header, i))
  }

  /** A standard quota asks again only if it was not settled in the header phase, or its limiter failed there. */
  predicate AdmitsBody(p: Policy, env: RequestEnv, i: nat)
    requires i < |p.quotas|
  {
    match p.quotas[i].extraction
    case None => (SettledInHeaders(p, env, i) && env.allow(Header, i) != Failed) || Lets(p, env.allow(Body, i))
    case Some(c) =>
      if RequestHeaderOnly(c) then true
      else if !HasRequestPhase(c) then HasLeft(p, env.available(Body, i))
      else if BodyCost(env, c, i) > 0.0 then Lets(p, env.allow(Body, i))
      else Answers(p, env.available(Body, i))
  }

  lemma {:induction false} StepsRejected(names: seq<string>, effects: seq<Effect>)
    requires |names| == |effects|
    ensures Steps(names, effects).rejected <==> exists j :: 0 <= j < |effects| && effects[j].rejects
  {
    if effects != [] {
      var n := |effects| - 1;
      StepsRejected(names[..n], effects[..n]);
      if j :| 0 <= j < |effects| && effects[j].rejects {
        assert j < n ==> effects[..n][j].rejects;
      }
      if j :| 0 <= j < n && effects[..n][j].rejects {
        assert effects[j].rejects;
      }
    }
  }

  lemma HeaderAdmits(p: Policy, env: RequestEnv, i: nat)
    requires i < |p.quotas|
    ensures HeaderEffect(p, env, i).rejects <==> !AdmitsHeaders(p, env, i)
  {
  }

  /** With distinct names a quota is handled in the header phase exactly if its own effect says so. */
  lemma HandledItself(p: Policy, env: RequestEnv, i: nat)
    requires i < |p.quotas| && DistinctNames(p) && !HeaderPhase(p, env).rejected
    ensures NameOf(p, i) in HeaderPhase(p, env).handled <==> HeaderEffect(p, env, i).handled
  {
    var names, effects := Names(p), HeaderEffects(p, env);
    StepsHandled(names, effects, NameOf(p, i));
    assert forall j: nat :: j < |p.quotas| ==> names[j] == NameOf(p, j) && effects[j] == HeaderEffect(p, env, j);
  }

  lemma BodyAdmits(p: Policy, env: RequestEnv, i: nat)
    requires i < |p.quotas| && DistinctNames(p) && !HeaderPhase(p, env).rejected
    ensures BodyEffect(p, env, HeaderPhase(p, env).handled, i).rejects <==> env.applies(Body, i) && !AdmitsBody(p, env, i)
  {
    HeaderCharges(p, env, i);
    HandledItself(p, env, i);
  }

  lemma HeadersAccepted(p: Policy, env: RequestEnv)
    ensures !HeaderPhase(p, env).rejected <==> forall i: nat :: i < |p.quotas| ==> AdmitsHeaders(p, env, i)
  {
    var effects := HeaderEffects(p, env);
    StepsRejected(Names(p), effects);
    forall i: nat | i < |p.quotas| ensures effects[i].rejects <==> !AdmitsHeaders(p, env, i) {
      HeaderAdmits(p, env, i);
    }
  }

  lemma BodyAccepted(p: Policy, env: RequestEnv)
    requires DistinctNames(p) && !HeaderPhase(p, env).rejected
    ensures !BodyPhase(p, env, HeaderPhase(p, env).handled).rejected <==>
      forall i: nat :: i < |p.quotas| ==> env.applies(Body, i) ==> AdmitsBody(p, env, i)
  {
    var effects := BodyEffects(p, env, HeaderPhase(p, env).handled);
    StepsRejected(Names(p), effects);
    forall i: nat | i < |p.quotas| ensures effects[i].rejects <==> env.applies(Body, i) && !AdmitsBody(p, env, i) {
      BodyAdmits(p, env, i);
    }
  }

  /** With distinct names a request is accepted exactly if every quota admits it, limiter errors included. */
  lemma AcceptedIff(p: Policy, env: RequestEnv)
    requires DistinctNames(p)
    ensures RequestHalf(p, env).accepted <==> forall i: nat :: i < |p.quotas| ==> Admits(p, env, i)
  {
    HeadersAccepted(p, env);
    if !HeaderPhase(p, env).rejected {
      BodyAccepted(p, env);
    }
    if forall i: nat :: i < |p.quotas| ==> Admits(p, env, i) {
      forall i: nat | i < |p.quotas| ensures AdmitsHeaders(p, env, i) { assert Admits(p, env, i); }
      forall i: nat | i < |p.quotas| && RequiresRequestBody(p) && env.applies(Body, i) ensures AdmitsBody(p, env, i) {
        assert Admits(p, env, i);
      }
    }
  }

  ghost predicate Outage(env: RequestEnv) {
    forall phase, i :: env.available(phase, i).None? && env.allow(phase, i) == Failed
  }

  lemma OutageAdmits(p: Policy, env: RequestEnv, i: nat)
    requires Outage(env) && p.failOpen && i < |p.quotas|
    ensures Admits(p, env, i)
  {
    assert env.allow(Header, i) == Failed && env.allow(Body, i) == Failed;
    assert env.available(Header, i).None? && env.available(Body, i).None?;
  }

  lemma OutageCharges(p: Policy, env: RequestEnv, handled: set<string>, i: nat)
    requires Outage(env) && i < |p.quotas|
    ensures HeaderEffect(p, env, i).charge.None? && BodyEffect(p, env, handled, i).charge.None?
  {
    assert env.allow(Header, i) == Failed && env.allow(Body, i) == Failed;
  }

  /** While all limiters fail, nothing is charged, and a fail-open policy accepts everything. */
  lemma FailsOpen(p: Policy, env: RequestEnv, i: nat)
    requires DistinctNames(p) && Outage(env) && i < |p.quotas|
    ensures Of(RequestHalf(p, env).charges, i) == []
    ensures p.failOpen ==> RequestHalf(p, env).accepted
  {
    var h := HeaderPhase(p, env);
    OutageCharges(p, env, h.handled, i);
    HeaderCharges(p, env, i);
    BodyCharges(p, env, h.handled, i);
    OfAppend(h.charges, BodyPhase(p, env, h.handled).charges, i);
    if p.failOpen {
      forall j: nat | j < |p.quotas| ensures Admits(p, env, j) { OutageAdmits(p, env, j); }
      AcceptedIff(p, env);
    }
  }

  /** A fail-closed policy refuses whatever a quota applies to. */
  lemma FailsClosed(p: Policy, env: RequestEnv, i: nat)
    requires DistinctNames(p) && Outage(env) && !p.failOpen && i < |p.quotas|
    requires !p.quotas[i].celKey && env.applies(Header, i)
    ensures !RequestHalf(p, env).accepted
  {
    AcceptedIff(p, env);
    assert env.allow(Header, i) == Failed && env.available(Header, i).None?;
    assert !Admits(p, env, i);
  }

  /** A CEL-keyed quota whose only request cost is in headers falls between the phases: it is never charged. */
  lemma CelHeaderCostNeverCharged(p: Policy, env: RequestEnv, i: nat)
    requires i < |p.quotas| && p.quotas[i].celKey
    requires p.quotas[i].extraction.Some? && RequestHeaderOnly(p.quotas[i].extraction.value)
    ensures Of(RequestHalf(p, env).charges, i) == []
  {
    var h := HeaderPhase(p, env);
    HeaderCharges(p, env, i);
    BodyCharges(p, env, h.handled, i);
    OfAppend(h.charges, BodyPhase(p, env, h.handled).charges, i);
  }

  const CelKeyed := Policy([Quota("tokens", true, Some(CostConfig([Source(RequestHeader, 1.0)], 1.0)))], false)

  /** A request with a cost of 5 in its header, under limits that allow everything. */
  function CostOfFive(): RequestEnv {
    RequestEnv((_, _) => true, (_, _) => "client", (_, _, _) => Some(5.0), (_, _) => Some(100), (_, _) => Allowed)
  }

  /** Such a quota: five units are owed, the request is accepted, and nothing is charged. */
  lemma CelHeaderCostSkipped()
    ensures var p, env := CelKeyed, CostOfFive();
      && RequestHalf(p, env).accepted && RequestDue(p, env, 0) == Some(Charge(0, "client", 5))
      && Of(RequestHalf(p, env).charges, 0) == []
  {
    var p, env := CelKeyed, CostOfFive();
    var c := p.quotas[0].extraction.value;
    assert c.sources[0].kind == RequestHeader && HasKind(c, RequestHeader) && RequestHeaderOnly(c);
    assert p.quotas[0].celKey && RequiresRequestBody(p);
    assert HeaderEffects(p, env) == [Skip] && BodyEffects(p, env, {}) == [Pass("client")];
    assert Names(p)[..0] == [] && [Skip][..0] == [] && [Pass("client")][..0] == [];
    CelHeaderCostNeverCharged(p, env, 0);
    assert c.sources[..0] == [];
    assert Found(c.sources, InRequest, (j: nat) => env.read(Body, 0, j));
    assert BodyCost(env, c, 0) == 5.0;
  }

  /** Two standard quotas of one name, the second with a CEL key: the second is taken for already handled. */
  lemma SharedNameSkips(env: RequestEnv, name: string, failOpen: bool)
    requires name != "" && ErrorFree(env) && env.allow(Header, 0) == Allowed
    requires env.applies(Header, 0) && env.applies(Body, 1)
    ensures var p := Policy([Quota(name, false, None), Quota(name, true, None)], failOpen);
      RequestDue(p, env, 1).Some? && Of(RequestHalf(p, env).charges, 1) == []
  {
    var p := Policy([Quota(name, false, None), Quota(name, true, None)], failOpen);
    var h := HeaderPhase(p, env);
    DeferredRuns(p, 1);
    HeaderCharges(p, env, 0);
    HeaderCharges(p, env, 1);
    if !h.rejected {
      assert NameOf(p, 0) == NameOf(p, 1);
      BodyCharges(p, env, h.handled, 1);
      OfAppend(h.charges, BodyPhase(p, env, h.handled).charges, 1);
    }
  }

  /** Quotas without a name of their own never share one. */
  lemma UnnamedDiffer(p: Policy, i: nat, j: nat)
    requires i < |p.quotas| && j < |p.quotas| && p.quotas[i].name == "" && p.quotas[j].name == ""
    ensures NameOf(p, i) == NameOf(p, j) ==> i == j
  {
    DecimalInjective(i, j);
    if NameOf(p, i) == NameOf(p, j) {
      assert NameOf(p, i)[6..] == Decimal(i) && NameOf(p, j)[6..] == Decimal(j);
    }
  }

  /** Without CEL keys, and with request costs in headers only, the body phase is not run. */
  lemma HeadersSuffice(p: Policy, env: RequestEnv)
    requires forall i :: 0 <= i < |p.quotas| ==> !p.quotas[i].celKey
    requires forall i :: 0 <= i < |p.quotas| && p.quotas[i].extraction.Some? && HasRequestPhase(p.quotas[i].extraction.value) ==>
      RequestHeaderOnly(p.quotas[i].extraction.value)
    ensures RequestHalf(p, env).charges == HeaderPhase(p, env).charges
    ensures RequestHalf(p, env).accepted <==> !HeaderPhase(p, env).rejected
  {
    forall i | 0 <= i < |p.quotas| && p.quotas[i].extraction.Some? ensures !HasRequestBodyPhase(p.quotas[i].extraction.value) {
      DeferredNeedsBody(p.quotas[i].extraction.value);
    }
  }

  /** What one header source costs, read in either phase. */
  lemma OneRequestSource(env: RequestEnv, multiplier: real, default: real, i: nat)
    ensures var c := CostConfig([Source(RequestHeader, multiplier)], default);
      && (forall x :: env.read(Header, i, 0) == Some(x) && x * multiplier >= 0.0 ==> HeaderCost(env, c, i) == x * multiplier)
      && (forall x :: env.read(Body, i, 0) == Some(x) && x * multiplier >= 0.0 ==> BodyCost(env, c, i) == x * multiplier)
      && (env.read(Header, i, 0) == None && default >= 0.0 ==> HeaderCost(env, c, i) == default)
  {
    var c := CostConfig([Source(RequestHeader, multiplier)], default);
    TotalSingle(c.sources[0], IsHeader, (j: nat) => env.read(Header, i, j));
    TotalSingle(c.sources[0], InRequest, (j: nat) => env.read(Body, i, j));
    CostIs(c, IsHeader, (j: nat) => env.read(Header, i, j));
    CostIs(c, InRequest, (j: nat) => env.read(Body, i, j));
    assert IsHeader(c.sources[0].kind) && InRequest(c.sources[0].kind);
  }

  /** What one response source costs: a header is read as it is, a body source reads the body. */
  lemma OneResponseSource(env: ResponseEnv, kind: Kind, multiplier: real, i: nat, body: string, x: real)
    requires InResponse(kind) && x * multiplier >= 0.0
    requires if ReadsResponseBody(kind) then env.readBody(i, 0, body) == Some(x) else env.read(i, 0) == Some(x)
    ensures ResponseCost(env, CostConfig([Source(kind, multiplier)], 0.0), i, body) == x * multiplier
  {
    var c := CostConfig([Source(kind, multiplier)], 0.0);
    var value := (j: nat) => ResponseValue(env, c, i, body, j);
    TotalSingle(c.sources[0], InResponse, value);
    CostIs(c, InResponse, value);
    assert InResponse(c.sources[0].kind) && value(0) == Some(x);
  }

  // ---- The response half ----

  lemma {:induction false} CollectOf(charges: seq<Option<Charge>>, i: nat)
    requires forall j: nat :: j < |charges| && charges[j].Some? ==> charges[j].value.quota == j
    ensures Of(Collect(charges), i) == if i < |charges| then Listed(charges[i]) else []
  {
    if charges != [] {
      var n := |charges| - 1;
      CollectOf(charges[..n], i);
      if charges[n].Some? {
        OfOne(Collect(charges[..n]), charges[n].value, i);
      } else {
        assert Collect(charges) == Collect(charges[..n]);
      }
    }
  }

  lemma ResponseHeaderOf(p: Policy, env: ResponseEnv, keys: map<string, string>, i: nat)
    requires i < |p.quotas|
    ensures Of(Collect(ResponseHeaderCharges(p, env, keys)), i) == Listed(ResponseHeaderCharge(p, env, keys, i))
  {
    CollectOf(ResponseHeaderCharges(p, env, keys), i);
  }

  lemma ResponseBodyOf(p: Policy, env: ResponseEnv, keys: map<string, string>, bodies: seq<string>, i: nat)
    requires i < |p.quotas| == |bodies|
    ensures Of(Collect(ResponseBodyCharges(p, env, keys, bodies)), i) == Listed(ResponseBodyCharge(p, env, keys, bodies[i], i))
  {
    CollectOf(ResponseBodyCharges(p, env, keys, bodies), i);
  }

  /** The two response phases share the quotas out between them. */
  lemma ResponseCharges(p: Policy, env: ResponseEnv, keys: map<string, string>, d: Delivery, i: nat)
    requires i < |p.quotas|
    ensures Of(ResponseHalf(p, env, keys, d), i) ==
      Listed(ResponseHeaderCharge(p, env, keys, i)) + Listed(ResponseBodyCharge(p, env, keys, Bodies(p, d)[i], i))
    ensures ResponseHeaderCharge(p, env, keys, i).None? || ResponseBodyCharge(p, env, keys, Bodies(p, d)[i], i).None?
  {
    ResponseHeaderOf(p, env, keys, i);
    ResponseBodyOf(p, env, keys, Bodies(p, d), i);
    OfAppend(Collect(ResponseHeaderCharges(p, env, keys)), Collect(ResponseBodyCharges(p, env, keys, Bodies(p, d))), i);
  }

  /** In every run the response half charges a quota at most once. */
  lemma ResponseAtMostOnce(p: Policy, env: ResponseEnv, keys: map<string, string>, d: Delivery, i: nat)
    requires i < |p.quotas|
    ensures |Of(ResponseHalf(p, env, keys, d), i)| <= 1
  {
    ResponseCharges(p, env, keys, d, i);
  }

  // ---- Streaming ----

  lemma {:induction false} RepeatLength(s: string, n: nat)
    ensures |Repeat(s, n)| == n * |s|
  {
    if n > 0 {
      RepeatLength(s, n - 1);
      assert n * |s| == (n - 1) * |s| + |s|;
    }
  }

  lemma Distributes(n: nat, a: nat, b: nat)
    ensures n * (a + b) == n * a + n * b
  {
  }

  lemma {:induction false} StretchLength(chunks: seq<string>, n: nat)
    ensures |Stretch(chunks, n)| == n * |Concat(chunks)|
  {
    if chunks != [] {
      var m := |chunks| - 1;
      StretchLength(chunks[..m], n);
      RepeatLength(chunks[m], n);
      var a, b := |Concat(chunks[..m])|, |chunks[m]|;
      assert |Stretch(chunks, n)| == n * a + n * b && |Concat(chunks)| == a + b;
      Distributes(n, a, b);
    }
  }

  lemma {:induction false} StretchOnce(chunks: seq<string>)
    ensures Stretch(chunks, 1) == Concat(chunks)
  {
    if chunks != [] {
      StretchOnce(chunks[..|chunks| - 1]);
      assert Repeat(chunks[|chunks| - 1], 1) == Repeat(chunks[|chunks| - 1], 0) + chunks[|chunks| - 1];
    }
  }

  /**
   * A quota that needs the body has read exactly the body at the end of the stream if and only if no other
   * such quota has its name, or there was nothing to read.
   */
  lemma AccumulatesBody(p: Policy, chunks: seq<string>, i: nat)
    requires i < |p.quotas|
    ensures Bodies(p, Streamed(chunks))[i] == Concat(chunks) <==> Sharers(p, NameOf(p, i), |p.quotas|) == 1 || Concat(chunks) == ""
  {
    var n, size := Sharers(p, NameOf(p, i), |p.quotas|), |Concat(chunks)|;
    StretchOnce(chunks);
    StretchLength(chunks, n);
    if n != 1 && size > 0 {
      Multiple(n, size);
    }
  }

  lemma Multiple(n: nat, size: nat)
    requires n != 1 && size > 0
    ensures n * size != size
  {
  }

  lemma {:induction false} SharersAmong(p: Policy, i: nat, n: nat)
    requires i < |p.quotas| && n <= |p.quotas| && DistinctNames(p)
    ensures Sharers(p, NameOf(p, i), n) == if i < n && Accumulates(p, i) then 1 else 0
  {
    if n > 0 {
      SharersAmong(p, i, n - 1);
    }
  }

  /** A quota that does not read the body costs the same whatever the body. */
  lemma CostWithoutBody(env: ResponseEnv, c: CostConfig, i: nat, a: string, b: string)
    requires !RequiresResponseBody(c)
    ensures ResponseCost(env, c, i, a) == ResponseCost(env, c, i, b)
  {
    forall j: nat | j < |c.sources| ensures ResponseValue(env, c, i, a, j) == ResponseValue(env, c, i, b, j) {
      assert !HasKind(c, ResponseBody) && !HasKind(c, ResponseCel);
      assert c.sources[j].kind != ResponseBody && c.sources[j].kind != ResponseCel;
    }
    CostReads(c, InResponse, (j: nat) => ResponseValue(env, c, i, a, j), (j: nat) => ResponseValue(env, c, i, b, j));
  }

  /** Each quota is charged the same whether the response is streamed, in any chunks, or buffered. */
  lemma StreamedIsBuffered(p: Policy, env: ResponseEnv, keys: map<string, string>, chunks: seq<string>, i: nat)
    requires i < |p.quotas|
    requires Accumulates(p, i) ==> Sharers(p, NameOf(p, i), |p.quotas|) == 1 || Concat(chunks) == ""
    ensures Of(ResponseHalf(p, env, keys, Streamed(chunks)), i) == Of(ResponseHalf(p, env, keys, Buffered(Concat(chunks))), i)
  {
    var s, b := Streamed(chunks), Buffered(Concat(chunks));
    ResponseCharges(p, env, keys, s, i);
    ResponseCharges(p, env, keys, b, i);
    AccumulatesBody(p, chunks, i);
    if p.quotas[i].extraction.Some? && !Accumulates(p, i) {
      CostWithoutBody(env, p.quotas[i].extraction.value, i, Bodies(p, s)[i], Bodies(p, b)[i]);
    }
  }

  /** One source alone decides the sum. */
  lemma {:induction false} TotalOfOne(sources: seq<Source>, phase: Kind -> bool, value: nat -> Option<real>, j: nat)
    requires forall k: nat :: k != j ==> value(k).None?
    requires value(j).Some?
    ensures Total(sources, phase, value) ==
      if j < |sources| && phase(sources[j].kind) then value(j).value * sources[j].multiplier else 0.0
  {
    if sources != [] {
      TotalOfOne(sources[..|sources| - 1], phase, value, j);
    }
  }

  /** A response in which source `j` of quota `i` finds a cost of 2 in exactly one body. */
  function Probe(c: CostConfig, i: nat, j: nat, whole: string): ResponseEnv
    requires j < |c.sources| && c.sources[j].multiplier != 0.0
  {
    ResponseEnv(
      (_, _) => None,
      (quota, source, body) =>
        if quota == i && source == j then Some(if body == whole then 2.0 / c.sources[j].multiplier else 0.0) else None,
      _ => true)
  }

  lemma ProbeCost(c: CostConfig, i: nat, j: nat, whole: string, body: string)
    requires j < |c.sources| && c.sources[j].multiplier != 0.0 && ReadsResponseBody(c.sources[j].kind)
    ensures ResponseCost(Probe(c, i, j, whole), c, i, body) == if body == whole then 2.0 else 0.0
  {
    var env := Probe(c, i, j, whole);
    var value := (k: nat) => ResponseValue(env, c, i, body, k);
    TotalOfOne(c.sources, InResponse, value, j);
    assert InResponse(c.sources[j].kind) && value(j).Some?;
    assert Found(c.sources, InResponse, value);
  }

  /**
   * A quota with a body source that counts is charged the same by both paths whatever the response, if and
   * only if it alone appends to its accumulator, or there is nothing to append.
   */
  lemma StreamedIsBufferedIff(p: Policy, keys: map<string, string>, chunks: seq<string>, i: nat, j: nat)
    requires i < |p.quotas| && p.quotas[i].extraction.Some? && NameOf(p, i) in keys
    requires var c := p.quotas[i].extraction.value;
      j < |c.sources| && ReadsResponseBody(c.sources[j].kind) && c.sources[j].multiplier != 0.0
    ensures (forall env :: Of(ResponseHalf(p, env, keys, Streamed(chunks)), i) == Of(ResponseHalf(p, env, keys, Buffered(Concat(chunks))), i)) <==>
      Sharers(p, NameOf(p, i), |p.quotas|) == 1 || Concat(chunks) == ""
  {
    var c, whole := p.quotas[i].extraction.value, Concat(chunks);
    if Sharers(p, NameOf(p, i), |p.quotas|) == 1 || whole == "" {
      forall env ensures Of(ResponseHalf(p, env, keys, Streamed(chunks)), i) == Of(ResponseHalf(p, env, keys, Buffered(whole)), i) {
        StreamedIsBuffered(p, env, keys, chunks, i);
      }
    } else {
      StreamedDiffers(p, keys, chunks, i, j);
    }
  }

  /** What a quota with a body source is charged for the body it is given to read. */
  lemma ReadsAndPays(p: Policy, env: ResponseEnv, keys: map<string, string>, d: Delivery, i: nat, j: nat, body: string, cost: real)
    requires i < |p.quotas| && p.quotas[i].extraction.Some? && NameOf(p, i) in keys && env.consumes(i)
    requires j < |p.quotas[i].extraction.value.sources| && ReadsResponseBody(p.quotas[i].extraction.value.sources[j].kind)
    requires body == Bodies(p, d)[i] && ResponseCost(env, p.quotas[i].extraction.value, i, body) == cost
    ensures Of(ResponseHalf(p, env, keys, d), i) == Listed(Positive(i, keys[NameOf(p, i)], cost))
  {
    var c := p.quotas[i].extraction.value;
    assert InResponse(c.sources[j].kind) && HasResponsePhase(c) && !ResponseHeaderOnly(c);
    ResponseCharges(p, env, keys, d, i);
  }

  lemma StreamedDiffers(p: Policy, keys: map<string, string>, chunks: seq<string>, i: nat, j: nat)
    requires i < |p.quotas| && p.quotas[i].extraction.Some? && NameOf(p, i) in keys
    requires var c := p.quotas[i].extraction.value;
      j < |c.sources| && ReadsResponseBody(c.sources[j].kind) && c.sources[j].multiplier != 0.0
    requires Sharers(p, NameOf(p, i), |p.quotas|) != 1 && Concat(chunks) != ""
    ensures var env := Probe(p.quotas[i].extraction.value, i, j, Concat(chunks));
      Of(ResponseHalf(p, env, keys, Streamed(chunks)), i) != Of(ResponseHalf(p, env, keys, Buffered(Concat(chunks))), i)
  {
    var c, whole := p.quotas[i].extraction.value, Concat(chunks);
    var env, body := Probe(c, i, j, whole), Bodies(p, Streamed(chunks))[i];
    AccumulatesBody(p, chunks, i);
    ProbeCost(c, i, j, whole, whole);
    ProbeCost(c, i, j, whole, body);
    ReadsAndPays(p, env, keys, Streamed(chunks), i, j, body, 0.0);
    ReadsAndPays(p, env, keys, Buffered(whole), i, j, whole, 2.0);
  }

  const Namesakes :=
    var tokens := Quota("tokens", false, Some(CostConfig([Source(ResponseBody, 1.0)], 0.0)));
    Policy([tokens, tokens], false)

  /** A response whose cost is the length of its body. */
  function CostIsLength(): ResponseEnv {
    ResponseEnv((_, _) => None, (_, _, body) => Some(|body| as real), _ => true)
  }

  /** Two quotas of one name and a stream of one character: two units instead of one. */
  lemma NamesakesPayDouble()
    ensures var p, env, keys := Namesakes, CostIsLength(), map["tokens" := "client"];
      && Of(ResponseHalf(p, env, keys, Streamed(["x"])), 0) == [Charge(0, "client", 2)]
      && Of(ResponseHalf(p, env, keys, Buffered("x")), 0) == [Charge(0, "client", 1)]
  {
    var p, env, keys := Namesakes, CostIsLength(), map["tokens" := "client"];
    TwoSharers();
    LengthCost("x");
    LengthCost("xx");
    assert NameOf(p, 0) == "tokens";
    ReadsAndPays(p, env, keys, Streamed(["x"]), 0, 0, "xx", 2.0);
    ReadsAndPays(p, env, keys, Buffered("x"), 0, 0, "x", 1.0);
  }

  lemma TwoSharers()
    ensures Bodies(Namesakes, Streamed(["x"]))[0] == "xx"
  {
    var p := Namesakes;
    assert forall i :: 0 <= i < 2 ==> HasKind(p.quotas[i].extraction.value, ResponseBody) by {
      assert p.quotas[0].extraction.value.sources[0].kind == ResponseBody;
    }
    assert NameOf(p, 0) == NameOf(p, 1) == "tokens";
    assert Sharers(p, "tokens", 1) == 1 && Sharers(p, "tokens", 2) == 2;
    assert ["x"][..0] == [] && Repeat("x", 1) == Repeat("x", 0) + "x" && Repeat("x", 2) == Repeat("x", 1) + "x";
    assert Stretch(["x"], 2) == Stretch([], 2) + Repeat("x", 2);
  }

  lemma LengthCost(body: string)
    ensures ResponseCost(CostIsLength(), Namesakes.quotas[0].extraction.value, 0, body) == |body| as real
  {
    var c := Namesakes.quotas[0].extraction.value;
    var value := (k: nat) => ResponseValue(CostIsLength(), c, 0, body, k);
    assert c.sources[..0] == [] && ReadsResponseBody(c.sources[0].kind) && value(0) == Some(|body| as real);
    assert Found(c.sources, InResponse, value);
  }

  // ---- Both halves ----

  /** The phase whose keys reach the response. */
  function LastPhase(p: Policy): Phase { if RequiresRequestBody(p) then Body else Header }

  function KeyIf(applies: bool, key: string): Option<string> { if applies then Some(key) else None }

  lemma EffectKeys(p: Policy, env: RequestEnv, handled: set<string>, i: nat)
    requires i < |p.quotas|
    ensures var e := BodyEffect(p, env, handled, i);
      !e.rejects ==> e.key == KeyIf(env.applies(Body, i), env.key(Body, i))
    ensures var e := HeaderEffect(p, env, i);
      !e.rejects ==> e.key == KeyIf(!p.quotas[i].celKey && env.applies(Header, i), env.key(Header, i))
  {
  }

  /** A phase that was not rejected records the key that each quota's own effect gave. */
  lemma PhaseKey(p: Policy, effects: seq<Effect>, i: nat)
    requires i < |p.quotas| == |effects| && DistinctNames(p) && !Steps(Names(p), effects).rejected
    ensures var keys := Steps(Names(p), effects).keys;
      (if NameOf(p, i) in keys then Some(keys[NameOf(p, i)]) else None) == effects[i].key
  {
    var names := Names(p);
    assert names[i] == NameOf(p, i);
    assert forall j: nat :: j < |names| ==> names[j] == NameOf(p, j);
    StepsKeys(names, effects, i);
  }

  lemma KeyReachesResponse(p: Policy, env: RequestEnv, i: nat)
    requires i < |p.quotas| && DistinctNames(p) && RequestHalf(p, env).accepted
    ensures var keys := RequestHalf(p, env).keys;
      && (NameOf(p, i) in keys <==> env.applies(LastPhase(p), i))
      && (NameOf(p, i) in keys ==> keys[NameOf(p, i)] == env.key(LastPhase(p), i))
  {
    var h := HeaderPhase(p, env);
    DeferredRuns(p, i);
    EffectKeys(p, env, h.handled, i);
    if RequiresRequestBody(p) {
      BodyCharges(p, env, h.handled, i);
      PhaseKey(p, BodyEffects(p, env, h.handled), i);
    } else {
      HeaderCharges(p, env, i);
      PhaseKey(p, HeaderEffects(p, env), i);
    }
  }

  /** What a quota owes for the response half of an accepted request. */
  function ResponseDue(p: Policy, req: RequestEnv, env: ResponseEnv, content: string, i: nat): Option<Charge>
    requires i < |p.quotas|
  {
    match p.quotas[i].extraction
    case None => None
    case Some(c) =>
      var cost := ResponseCost(env, c, i, content);
      if HasResponsePhase(c) && req.applies(LastPhase(p), i) && cost > 0.0 && env.consumes(i) then
        Some(Charge(i, req.key(LastPhase(p), i), Whole(cost)))
      else None
  }

  /**
   * With distinct names the response half of an accepted request charges each quota exactly its cost on the
   * whole content, once, however the response is delivered.
   */
  lemma ResponseExactlyOnce(p: Policy, req: RequestEnv, env: ResponseEnv, d: Delivery, i: nat)
    requires i < |p.quotas| && DistinctNames(p) && RequestHalf(p, req).accepted
    ensures Of(ResponseHalf(p, env, RequestHalf(p, req).keys, d), i) == Listed(ResponseDue(p, req, env, Content(d), i))
  {
    var keys := RequestHalf(p, req).keys;
    KeyReachesResponse(p, req, i);
    if d.Streamed? {
      SharersAmong(p, i, |p.quotas|);
      StreamedIsBuffered(p, env, keys, d.chunks, i);
    }
    BufferedCharges(p, env, keys, Content(d), i);
  }

  /** A buffered response charges a quota its cost on the whole body, under the key it was given. */
  lemma BufferedCharges(p: Policy, env: ResponseEnv, keys: map<string, string>, body: string, i: nat)
    requires i < |p.quotas|
    ensures Of(ResponseHalf(p, env, keys, Buffered(body)), i) ==
      match p.quotas[i].extraction
      case None => []
      case Some(c) => if HasResponsePhase(c) then Listed(Consume(p, env, keys, c, i, body)) else []
  {
    ResponseCharges(p, env, keys, Buffered(body), i);
    if p.quotas[i].extraction.Some? {
      var c := p.quotas[i].extraction.value;
      if ResponseHeaderOnly(c) {
        assert !HasKind(c, ResponseBody) && !HasKind(c, ResponseCel);
        CostWithoutBody(env, c, i, "", body);
      }
    }
  }
}
