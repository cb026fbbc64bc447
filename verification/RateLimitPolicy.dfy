/**
 * The phase methods of policies/advanced-ratelimit/ratelimit.go, run over one request's metadata and the
 * charges its limiters have taken.
 */
module RateLimitPolicy {
  import opened Common
  import opened Sequences
  import opened CostSources
  import opened RatePhases
  import opened RateLedger

  function Accumulator(p: Policy, chunks: seq<string>, name: string): string { Stretch(chunks, Sharers(p, name, |p.quotas|)) }

  /** The accumulators after these chunks; there are none before the first. */
  ghost predicate Accumulated(p: Policy, stream: Option<map<string, string>>, chunks: seq<string>) {
    if stream.None? then chunks == []
    else forall i: nat :: i < |p.quotas| ==> NameOf(p, i) in stream.value && stream.value[NameOf(p, i)] == Accumulator(p, chunks, NameOf(p, i))
  }

  lemma StepsContinue(names: seq<string>, effects: seq<Effect>, i: nat)
    requires |names| == |effects| && i < |effects| && !Steps(names[..i], effects[..i]).rejected
    ensures Steps(names[..i + 1], effects[..i + 1]) == Add(Steps(names[..i], effects[..i]), names[i], effects[i])
    ensures effects[i].rejects ==> Steps(names, effects) == Steps(names[..i + 1], effects[..i + 1])
  {
    StepsNext(names, effects, i);
    if effects[i].rejects {
      StepsStop(names, effects, i + 1);
    }
  }

  lemma CollectNext(charges: seq<Option<Charge>>, i: nat)
    requires i < |charges|
    ensures Collect(charges[..i + 1]) == Collect(charges[..i]) + Listed(charges[i])
  {
    assert charges[..i + 1][..i] == charges[..i];
  }

  lemma {:induction false} CollectNone(charges: seq<Option<Charge>>)
    requires forall i :: 0 <= i < |charges| ==> charges[i].None?
    ensures Collect(charges) == []
  {
    if charges != [] {
      CollectNone(charges[..|charges| - 1]);
    }
  }

  /** The guard of OnResponseBody leaves out nobody. */
  lemma NoBodyMode(p: Policy, env: ResponseEnv, keys: map<string, string>, bodies: seq<string>)
    requires |bodies| == |p.quotas| && !RequiresAnyResponseBodyMode(p)
    ensures Collect(ResponseBodyCharges(p, env, keys, bodies)) == []
  {
    CollectNone(ResponseBodyCharges(p, env, keys, bodies));
  }

  /** Each quota finds its body under its name. */
  ghost predicate Holds(p: Policy, state: map<string, string>, bodies: seq<string>) {
    |bodies| == |p.quotas| && forall i: nat :: i < |bodies| ==> NameOf(p, i) in state && state[NameOf(p, i)] == bodies[i]
  }

  class RequestContext {
    var ledger: seq<Charge>
    var quotaKeys: map<string, string>
    var handledQuotas: set<string>
    var streamState: Option<map<string, string>>

    constructor ()
      ensures ledger == [] && quotaKeys == map[] && handledQuotas == {} && streamState == None
    {
      ledger, quotaKeys, handledQuotas, streamState := [], map[], {}, None;
    }

    method OnRequestHeaders(p: Policy, env: RequestEnv) returns (accepted: bool)
      modifies this
      ensures accepted <==> !HeaderPhase(p, env).rejected
      ensures ledger == old(ledger) + HeaderPhase(p, env).charges
      ensures quotaKeys == if accepted then HeaderPhase(p, env).keys else old(quotaKeys)
      ensures handledQuotas == if accepted then HeaderPhase(p, env).handled else old(handledQuotas)
      ensures streamState == old(streamState)
    {
      ghost var names, effects := Names(p), HeaderEffects(p, env);
      var keys: map<string, string>, handled: set<string> := map[], {};
      assert ledger + [] == ledger;
      for i := 0 to |p.quotas|
        invariant Steps(names[..i], effects[..i]) == Progress(Steps(names[..i], effects[..i]).charges, handled, keys, false)
        invariant ledger == old(ledger) + Steps(names[..i], effects[..i]).charges
        invariant quotaKeys == old(quotaKeys) && handledQuotas == old(handledQuotas) && streamState == old(streamState)
      {
        StepsContinue(names, effects, i);
        var e := HeaderEffect(p, env, i);
        assert e == effects[i];
        if e.rejects {
          HeaderTagged(p, env);
          return false;
        }
        if e.key.Some? {
          keys := keys[NameOf(p, i) := e.key.value];
        }
        if e.charge.Some? {
          ledger := ledger + [e.charge.value];
        }
        if e.handled {
          handled := handled + {NameOf(p, i)};
        }
      }
      assert names[..|names|] == names && effects[..|effects|] == effects;
      quotaKeys, handledQuotas := keys, handled;
      return true;
    }

    method OnRequestBody(p: Policy, env: RequestEnv) returns (accepted: bool)
      modifies this
      ensures var b := BodyPhase(p, env, old(handledQuotas));
        if RequiresRequestBody(p) then
          && (accepted <==> !b.rejected) && ledger == old(ledger) + b.charges
          && quotaKeys == if accepted then b.keys else old(quotaKeys)
        else accepted && ledger == old(ledger) && quotaKeys == old(quotaKeys)
      ensures handledQuotas == old(handledQuotas) && streamState == old(streamState)
    {
      if !RequiresRequestBody(p) {
        return true;
      }
      ghost var names, effects := Names(p), BodyEffects(p, env, handledQuotas);
      var keys: map<string, string> := map[];
      assert ledger + [] == ledger;
      for i := 0 to |p.quotas|
        invariant !Steps(names[..i], effects[..i]).rejected && Steps(names[..i], effects[..i]).keys == keys
        invariant ledger == old(ledger) + Steps(names[..i], effects[..i]).charges
        invariant quotaKeys == old(quotaKeys) && handledQuotas == old(handledQuotas) && streamState == old(streamState)
      {
        StepsContinue(names, effects, i);
        var e := BodyEffect(p, env, handledQuotas, i);
        assert e == effects[i];
        if e.rejects {
          BodyTagged(p, env, handledQuotas);
          return false;
        }
        if e.key.Some? {
          keys := keys[NameOf(p, i) := e.key.value];
        }
        if e.charge.Some? {
          ledger := ledger + [e.charge.value];
        }
      }
      assert names[..|names|] == names && effects[..|effects|] == effects;
      quotaKeys := keys;
      return true;
    }

    method OnResponseHeaders(p: Policy, env: ResponseEnv)
      modifies this`ledger
      ensures ledger == old(ledger) + Collect(ResponseHeaderCharges(p, env, quotaKeys))
    {
      ghost var charges := ResponseHeaderCharges(p, env, quotaKeys);
      assert ledger + [] == ledger;
      for i := 0 to |p.quotas|
        invariant ledger == old(ledger) + Collect(charges[..i])
      {
        CollectNext(charges, i);
        var charge := ResponseHeaderCharge(p, env, quotaKeys, i);
        if charge.Some? {
          ledger := ledger + [charge.value];
        }
      }
      assert charges[..|charges|] == charges;
    }

    method OnResponseBody(p: Policy, env: ResponseEnv, body: string)
      modifies this`ledger
      ensures ledger == old(ledger) + Collect(ResponseBodyCharges(p, env, quotaKeys, Bodies(p, Buffered(body))))
    {
      ghost var charges := ResponseBodyCharges(p, env, quotaKeys, Bodies(p, Buffered(body)));
      assert ledger + [] == ledger;
      if !RequiresAnyResponseBodyMode(p) {
        NoBodyMode(p, env, quotaKeys, Bodies(p, Buffered(body)));
        return;
      }
      for i := 0 to |p.quotas|
        invariant ledger == old(ledger) + Collect(charges[..i])
      {
        CollectNext(charges, i);
        var charge := ResponseBodyCharge(p, env, quotaKeys, body, i);
        if charge.Some? {
          ledger := ledger + [charge.value];
        }
      }
      assert charges[..|charges|] == charges;
    }

    /** `before` are the chunks that came earlier; the last chunk charges for all of them. */
    method OnResponseBodyChunk(p: Policy, env: ResponseEnv, chunk: string, endOfStream: bool, ghost before: seq<string>)
      requires Accumulated(p, streamState, before)
      modifies this`ledger, this`streamState
      ensures streamState.Some? && Accumulated(p, streamState, before + [chunk])
      ensures ledger == old(ledger) +
        if endOfStream then Collect(ResponseBodyCharges(p, env, quotaKeys, Bodies(p, Streamed(before + [chunk])))) else []
    {
      var state: map<string, string>;
      if streamState.Some? {
        state := streamState.value;
      } else {
        state := InitStream(p);
      }
      state := Append(p, state, chunk, before);
      streamState := Some(state);
      assert ledger + [] == ledger;
      if endOfStream {
        Finalize(p, env, state, Bodies(p, Streamed(before + [chunk])));
      }
    }

    /** finalizeAndConsumeStreamingCosts. */
    method Finalize(p: Policy, env: ResponseEnv, state: map<string, string>, ghost bodies: seq<string>)
      requires Holds(p, state, bodies)
      modifies this`ledger
      ensures ledger == old(ledger) + Collect(ResponseBodyCharges(p, env, quotaKeys, bodies))
    {
      ghost var charges := ResponseBodyCharges(p, env, quotaKeys, bodies);
      assert ledger + [] == ledger;
      for i := 0 to |p.quotas|
        invariant ledger == old(ledger) + Collect(charges[..i])
      {
        CollectNext(charges, i);
        var charge := ResponseBodyCharge(p, env, quotaKeys, state[NameOf(p, i)], i);
        assert charge == charges[i];
        if charge.Some? {
          ledger := ledger + [charge.value];
        }
      }
      assert charges[..|charges|] == charges;
    }
  }

  method InitStream(p: Policy) returns (state: map<string, string>)
    ensures Accumulated(p, Some(state), [])
  {
    state := map[];
    for i := 0 to |p.quotas|
      invariant forall j: nat :: j < i ==> NameOf(p, j) in state && state[NameOf(p, j)] == ""
    {
      state := state[NameOf(p, i) := ""];
    }
  }

  /** Every quota that needs the body appends the chunk to the accumulator of its name. */
  method Append(p: Policy, before: map<string, string>, chunk: string, ghost chunks: seq<string>) returns (state: map<string, string>)
    requires Accumulated(p, Some(before), chunks)
    ensures Accumulated(p, Some(state), chunks + [chunk])
  {
    state := before;
    for i := 0 to |p.quotas|
      invariant forall j: nat :: j < |p.quotas| ==> NameOf(p, j) in state
      invariant forall j: nat :: j < |p.quotas| ==>
        state[NameOf(p, j)] == Accumulator(p, chunks, NameOf(p, j)) + Repeat(chunk, Sharers(p, NameOf(p, j), i))
    {
      var name := NameOf(p, i);
      if Accumulates(p, i) {
        RepeatNext(Accumulator(p, chunks, name), chunk, Sharers(p, name, i));
        state := state[name := state[name] + chunk];
      }
    }
    assert (chunks + [chunk])[..|chunks|] == chunks;
  }

  lemma RepeatNext(front: string, s: string, n: nat)
    ensures front + Repeat(s, n + 1) == front + Repeat(s, n) + s
  {
  }

  method ServeRequest(ctx: RequestContext, p: Policy, req: RequestEnv) returns (accepted: bool)
    modifies ctx
    ensures accepted <==> RequestHalf(p, req).accepted
    ensures ctx.ledger == old(ctx.ledger) + RequestHalf(p, req).charges
    ensures accepted ==> ctx.quotaKeys == RequestHalf(p, req).keys
    ensures ctx.streamState == old(ctx.streamState)
  {
    accepted := ctx.OnRequestHeaders(p, req);
    if accepted {
      accepted := ctx.OnRequestBody(p, req);
    }
  }

  /** The chunks of a streamed response, the last one marked as such. */
  method ServeChunks(ctx: RequestContext, p: Policy, env: ResponseEnv, chunks: seq<string>)
    requires chunks != [] && ctx.streamState == None
    modifies ctx
    ensures ctx.ledger == old(ctx.ledger) + Collect(ResponseBodyCharges(p, env, old(ctx.quotaKeys), Bodies(p, Streamed(chunks))))
  {
    var last := |chunks| - 1;
    for i := 0 to last
      invariant Accumulated(p, ctx.streamState, chunks[..i])
      invariant ctx.quotaKeys == old(ctx.quotaKeys) && ctx.ledger == old(ctx.ledger)
    {
      assert chunks[..i + 1] == chunks[..i] + [chunks[i]];
      ctx.OnResponseBodyChunk(p, env, chunks[i], false, chunks[..i]);
    }
    assert chunks == chunks[..last] + [chunks[last]];
    ctx.OnResponseBodyChunk(p, env, chunks[last], true, chunks[..last]);
  }

  method ServeResponse(ctx: RequestContext, p: Policy, env: ResponseEnv, d: Delivery)
    requires (d.Streamed? ==> d.chunks != []) && ctx.streamState == None
    modifies ctx
    ensures ctx.ledger == old(ctx.ledger) + ResponseHalf(p, env, old(ctx.quotaKeys), d)
  {
    ctx.OnResponseHeaders(p, env);
    Assoc(
      old(ctx.ledger),
      Collect(ResponseHeaderCharges(p, env, ctx.quotaKeys)),
      Collect(ResponseBodyCharges(p, env, ctx.quotaKeys, Bodies(p, d))));
    if d.Buffered? {
      ctx.OnResponseBody(p, env, d.body);
    } else {
      ServeChunks(ctx, p, env, d.chunks);
    }
  }

  /**
   * A whole request, in the order the gateway runs the phases: what it is charged is the request half and,
   * if it is accepted, the response half.
   */
  method Serve(p: Policy, req: RequestEnv, env: ResponseEnv, d: Delivery) returns (ledger: seq<Charge>, accepted: bool)
    requires d.Streamed? ==> d.chunks != []
    ensures accepted <==> RequestHalf(p, req).accepted
    ensures ledger == RequestHalf(p, req).charges + if accepted then ResponseHalf(p, env, RequestHalf(p, req).keys, d) else []
  {
    var ctx := new RequestContext();
    accepted := ServeRequest(ctx, p, req);
    if accepted {
      ServeResponse(ctx, p, env, d);
    }
    ledger := ctx.ledger;
  }
}
