/** Cost sources and the sum over them (policies/advanced-ratelimit/cost_extractor.go). */
module CostSources {
  import opened Common

  datatype Kind = RequestHeader | RequestMetadata | RequestBody | RequestCel
    | ResponseHeader | ResponseMetadata | ResponseBody | ResponseCel

  predicate InRequest(k: Kind) { k in {RequestHeader, RequestMetadata, RequestBody, RequestCel} }

  predicate InResponse(k: Kind) { !InRequest(k) }

  predicate ReadsResponseBody(k: Kind) { k in {ResponseBody, ResponseCel} }

  datatype Source = Source(kind: Kind, multiplier: real)

  datatype CostConfig = CostConfig(sources: seq<Source>, default: real)

  predicate HasKind(c: CostConfig, k: Kind) { exists i :: 0 <= i < |c.sources| && c.sources[i].kind == k }

  predicate HasRequestBodyPhase(c: CostConfig) {
    HasKind(c, RequestBody) || HasKind(c, RequestCel) || HasKind(c, RequestMetadata)
  }

  predicate HasRequestPhase(c: CostConfig) { exists i :: 0 <= i < |c.sources| && InRequest(c.sources[i].kind) }

  predicate HasResponsePhase(c: CostConfig) { exists i :: 0 <= i < |c.sources| && InResponse(c.sources[i].kind) }

  predicate RequiresResponseBody(c: CostConfig) { HasKind(c, ResponseBody) || HasKind(c, ResponseCel) }

  /** The request half reads headers and nothing else. */
  predicate RequestHeaderOnly(c: CostConfig) {
    HasKind(c, RequestHeader) && forall i :: 0 <= i < |c.sources| && InRequest(c.sources[i].kind) ==> c.sources[i].kind == RequestHeader
  }

  /** The response half reads headers and nothing else. */
  predicate ResponseHeaderOnly(c: CostConfig) {
    HasKind(c, ResponseHeader) && forall i :: 0 <= i < |c.sources| && InResponse(c.sources[i].kind) ==> c.sources[i].kind == ResponseHeader
  }

  method HasRequestHeaderOnlyCostSources(c: CostConfig) returns (r: bool)
    ensures r <==> RequestHeaderOnly(c)
  {
    if HasRequestBodyPhase(c) {
      return false;
    }
    var hasHeader := false;
    for i := 0 to |c.sources|
      invariant hasHeader <==> exists j :: 0 <= j < i && c.sources[j].kind == RequestHeader
      invariant forall j :: 0 <= j < i && InRequest(c.sources[j].kind) ==> c.sources[j].kind == RequestHeader
    {
      if c.sources[i].kind == RequestHeader {
        hasHeader := true;
      } else if InRequest(c.sources[i].kind) {
        return false;
      }
    }
    return hasHeader;
  }

  method HasResponseHeaderOnlyCostSources(c: CostConfig) returns (r: bool)
    ensures r <==> ResponseHeaderOnly(c)
  {
    if RequiresResponseBody(c) {
      return false;
    }
    var hasHeader := false;
    for i := 0 to |c.sources|
      invariant hasHeader <==> exists j :: 0 <= j < i && c.sources[j].kind == ResponseHeader
      invariant forall j :: 0 <= j < i && InResponse(c.sources[j].kind) ==> c.sources[j].kind == ResponseHeader
    {
      if c.sources[i].kind == ResponseHeader {
        hasHeader := true;
      } else if InResponse(c.sources[i].kind) {
        return false;
      }
    }
    return hasHeader;
  }

  /** Sources that are read only in the body phase make the request need one. */
  lemma DeferredNeedsBody(c: CostConfig)
    ensures HasRequestPhase(c) && !RequestHeaderOnly(c) <==> HasRequestBodyPhase(c)
  {
  }

  // ---- The sum ----

  function Contribution(s: Source, read: bool, value: Option<real>): real {
    if read && value.Some? then value.value * s.multiplier else 0.0
  }

  function Total(sources: seq<Source>, phase: Kind -> bool, value: nat -> Option<real>): real {
    if sources == [] then 0.0
    else
      var n := |sources| - 1;
      Total(sources[..n], phase, value) + Contribution(sources[n], phase(sources[n].kind), value(n))
  }

  predicate Found(sources: seq<Source>, phase: Kind -> bool, value: nat -> Option<real>) {
    exists i :: 0 <= i < |sources| && phase(sources[i].kind) && value(i).Some?
  }

  /** What a caller charges: never negative, and the default when no source of the phase yields a value. */
  function Cost(c: CostConfig, phase: Kind -> bool, value: nat -> Option<real>): (r: real)
    ensures r >= 0.0
  {
    var raw := if Found(c.sources, phase, value) then Total(c.sources, phase, value) else c.default;
    if raw < 0.0 then 0.0 else raw
  }

  /** ExtractRequestCost and ExtractResponseCost, with the caller's clamp. */
  method ExtractCost(c: CostConfig, phase: Kind -> bool, value: nat -> Option<real>) returns (cost: real)
    ensures cost == Cost(c, phase, value)
  {
    var total, found := 0.0, false;
    for i := 0 to |c.sources|
      invariant total == Total(c.sources[..i], phase, value)
      invariant found <==> Found(c.sources[..i], phase, value)
    {
      assert c.sources[..i + 1][..i] == c.sources[..i];
      FoundNext(c.sources, phase, value, i);
      if phase(c.sources[i].kind) && value(i).Some? {
        found := true;
        total := total + value(i).value * c.sources[i].multiplier;
      }
    }
    assert c.sources[..|c.sources|] == c.sources;
    if !found {
      total := c.default;
    }
    cost := if total < 0.0 then 0.0 else total;
  }

  lemma FoundNext(sources: seq<Source>, phase: Kind -> bool, value: nat -> Option<real>, i: nat)
    requires i < |sources|
    ensures Found(sources[..i + 1], phase, value) <==> Found(sources[..i], phase, value) || (phase(sources[i].kind) && value(i).Some?)
  {
  }

  /** The cost depends only on the sources of the phase. */
  lemma {:induction false} TotalReads(sources: seq<Source>, phase: Kind -> bool, v: nat -> Option<real>, w: nat -> Option<real>)
    requires forall i: nat :: i < |sources| && phase(sources[i].kind) ==> v(i) == w(i)
    ensures Total(sources, phase, v) == Total(sources, phase, w)
  {
    if sources != [] {
      TotalReads(sources[..|sources| - 1], phase, v, w);
    }
  }

  lemma CostReads(c: CostConfig, phase: Kind -> bool, v: nat -> Option<real>, w: nat -> Option<real>)
    requires forall i: nat :: i < |c.sources| && phase(c.sources[i].kind) ==> v(i) == w(i)
    ensures Cost(c, phase, v) == Cost(c, phase, w)
  {
    TotalReads(c.sources, phase, v, w);
    assert Found(c.sources, phase, v) <==> Found(c.sources, phase, w);
  }

  // ---- What the sum is ----

  /** Which sources belong to which half of the exchange, and which need the response body. */
  lemma KindPhases(k: Kind)
    ensures InRequest(k) <==> k == RequestHeader || k == RequestMetadata || k == RequestBody || k == RequestCel
    ensures InResponse(k) <==> k == ResponseHeader || k == ResponseMetadata || k == ResponseBody || k == ResponseCel
    ensures ReadsResponseBody(k) <==> k == ResponseBody || k == ResponseCel
  {
  }

  /** One source contributes its value times its multiplier. */
  lemma TotalSingle(s: Source, phase: Kind -> bool, value: nat -> Option<real>)
    ensures Total([s], phase, value) == if phase(s.kind) && value(0).Some? then value(0).value * s.multiplier else 0.0
  {
    assert [s][..0] == [];
  }

  function Shifted(value: nat -> Option<real>, n: nat): nat -> Option<real> { (j: nat) => value(n + j) }

  /** Every source counts: the total of two lists is the sum of their totals. */
  lemma {:induction false} TotalAppend(a: seq<Source>, b: seq<Source>, phase: Kind -> bool, value: nat -> Option<real>)
    ensures Total(a + b, phase, value) == Total(a, phase, value) + Total(b, phase, Shifted(value, |a|))
  {
    if b == [] {
      assert a + b == a;
    } else {
      var n := |b| - 1;
      TotalAppend(a, b[..n], phase, value);
      assert (a + b)[..|a| + n] == a + b[..n];
    }
  }

  lemma {:induction false} TotalReplace(
    sources: seq<Source>, i: nat, s: Source, phase: Kind -> bool, v: nat -> Option<real>, w: nat -> Option<real>)
    requires i < |sources| && forall k: nat :: k != i ==> v(k) == w(k)
    ensures Total(sources[i := s], phase, w) ==
      Total(sources, phase, v) - Contribution(sources[i], phase(sources[i].kind), v(i)) + Contribution(s, phase(s.kind), w(i))
  {
    var n := |sources| - 1;
    if i < n {
      assert sources[i := s][..n] == sources[..n][i := s];
      TotalReplace(sources[..n], i, s, phase, v, w);
    } else {
      assert sources[i := s][..n] == sources[..n];
      TotalReads(sources[..n], phase, v, w);
    }
  }

  function Swapped(value: nat -> Option<real>, i: nat, j: nat): nat -> Option<real> {
    (k: nat) => if k == i then value(j) else if k == j then value(i) else value(k)
  }

  /** The order of the sources does not matter to the cost. */
  lemma CostSwap(c: CostConfig, i: nat, j: nat, phase: Kind -> bool, value: nat -> Option<real>)
    requires i < j < |c.sources|
    ensures Cost(c.(sources := c.sources[i := c.sources[j]][j := c.sources[i]]), phase, Swapped(value, i, j)) == Cost(c, phase, value)
  {
    var s := c.sources;
    var half := (k: nat) => if k == i then value(j) else value(k);
    var swapped := s[i := s[j]][j := s[i]];
    TotalReplace(s, i, s[j], phase, value, half);
    TotalReplace(s[i := s[j]], j, s[i], phase, half, Swapped(value, i, j));
    FoundSwap(s, i, j, phase, value);
  }

  lemma FoundSwap(s: seq<Source>, i: nat, j: nat, phase: Kind -> bool, value: nat -> Option<real>)
    requires i < j < |s|
    ensures Found(s[i := s[j]][j := s[i]], phase, Swapped(value, i, j)) <==> Found(s, phase, value)
  {
    var swapped, v := s[i := s[j]][j := s[i]], Swapped(value, i, j);
    if k: nat :| k < |s| && phase(s[k].kind) && value(k).Some? {
      var at: nat := if k == i then j else if k == j then i else k;
      assert phase(swapped[at].kind) && v(at).Some?;
    }
    if k: nat :| k < |s| && phase(swapped[k].kind) && v(k).Some? {
      var at: nat := if k == i then j else if k == j then i else k;
      assert phase(s[at].kind) && value(at).Some?;
    }
  }

  /** The default stands in only when no source of the phase yields a value; a negative cost is none. */
  lemma CostIs(c: CostConfig, phase: Kind -> bool, value: nat -> Option<real>)
    ensures (forall i: nat :: i < |c.sources| && phase(c.sources[i].kind) ==> value(i).None?) ==>
      Cost(c, phase, value) == if c.default > 0.0 then c.default else 0.0
    ensures (exists i: nat :: i < |c.sources| && phase(c.sources[i].kind) && value(i).Some?) ==>
      Cost(c, phase, value) == if Total(c.sources, phase, value) > 0.0 then Total(c.sources, phase, value) else 0.0
  {
  }

  /** Prompt and completion tokens are added up. */
  lemma TokensAddUp(prompt: real, completion: real)
    requires prompt >= 0.0 && completion >= 0.0
    ensures Cost(
      CostConfig([Source(ResponseBody, 1.0), Source(ResponseBody, 1.0)], 0.0), InResponse,
      (j: nat) => if j == 0 then Some(prompt) else Some(completion)) == prompt + completion
  {
    var s, value := Source(ResponseBody, 1.0), (j: nat) => if j == 0 then Some(prompt) else Some(completion);
    assert [s] + [s] == [s, s];
    TotalAppend([s], [s], InResponse, value);
    TotalSingle(s, InResponse, value);
    TotalSingle(s, InResponse, Shifted(value, 1));
    assert InResponse([s, s][0].kind) && value(0).Some? && Found([s, s], InResponse, value);
  }
}
