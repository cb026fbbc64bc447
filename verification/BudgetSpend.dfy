/**
 * Spending against the model budgets of policies/cost-based-model-routing: a request is admitted on what
 * earlier requests have spent, and charged only when its own cost is known. Any number of requests may be
 * in between.
 */
module BudgetSpend {
  import opened Common
  import opened BudgetRouting

  // ---- Costs ----

  datatype Float = NaN | Infinite | Finite(value: real)

  const MAX_INT64: int := 0x7fff_ffff_ffff_ffff

  /** scaleCost: whole units, cut off at the largest 64-bit value. */
  function ScaleCost(cost: Float, factor: nat): (r: Option<nat>)
    ensures r.Some? <==> cost.Finite? && cost.value >= 0.0
    ensures r.Some? ==> r.value <= MAX_INT64 && r.value as real <= cost.value * factor as real
    ensures r.Some? && r.value < MAX_INT64 ==> cost.value * factor as real < r.value as real + 1.0
  {
    if !cost.Finite? || cost.value < 0.0 then None
    else
      var scaled := cost.value * factor as real;
      if scaled >= MAX_INT64 as real + 1.0 then Some(MAX_INT64)
      else
        assert 0.0 <= scaled;
        Some(scaled.Floor)
  }

  // ---- Request metadata ----

  datatype Key = SelectedModel | SelectedProvider | SelectedTier | SelectedRoute
    | TrackCost | BudgetKey | BudgetIndex | CostCharged
    | LlmCost | LlmCostStatus | Foreign(name: string)

  datatype Meta = Flag(on: bool) | Text(text: string) | Whole(n: int) | Number(f: Float) | Other

  type Metadata = map<Key, Meta>

  /** Keys that only this policy writes. */
  predicate Own(k: Key) { !k.LlmCost? && !k.LlmCostStatus? && !k.Foreign? }

  /** How many budgets there are, the scale, the storage keys, and the reading of a number in text. */
  datatype Policy = Policy(budgets: nat, factor: nat, namespace: nat -> string, parse: string -> Option<Float>)

  function Usable(f: Float): Option<real> { if f.Finite? && f.value >= 0.0 then Some(f.value) else None }

  /** parseReportedCost. */
  function ReportedCost(p: Policy, m: Metadata): Option<real> {
    if LlmCostStatus !in m || m[LlmCostStatus] != Text("calculated") || LlmCost !in m then None
    else match m[LlmCost]
      case Text(s) => (match p.parse(s) case None => None case Some(f) => Usable(f))
      case Number(f) => Usable(f)
      case Whole(n) => Usable(Finite(n as real))
      case _ => None
  }

  datatype Charge = Charge(index: nat, key: string, amount: nat)

  predicate IsOn(m: Metadata, k: Key) { k in m && m[k] == Flag(true) }

  /** What a response hook would charge if nothing was charged before. */
  function Due(p: Policy, m: Metadata): (r: Option<Charge>)
    ensures r.Some? ==> r.value.amount > 0 && r.value.index < p.budgets && BudgetIndex in m && m[BudgetIndex] == Whole(r.value.index)
  {
    if BudgetKey !in m || !m[BudgetKey].Text? || m[BudgetKey].text == "" then None
    else if BudgetIndex !in m || !m[BudgetIndex].Whole? || !(0 <= m[BudgetIndex].n < p.budgets) then None
    else match ReportedCost(p, m)
      case None => None
      case Some(cost) =>
        match ScaleCost(Finite(cost), p.factor)
        case None => None
        case Some(n) => if n == 0 then None else Some(Charge(m[BudgetIndex].n, m[BudgetKey].text, n))
  }

  predicate Chargeable(m: Metadata) { IsOn(m, TrackCost) && !IsOn(m, CostCharged) }

  function Record(p: Policy, m: Metadata, sel: Selection): Metadata {
    m[SelectedModel := Text(sel.target.model)][SelectedProvider := Text(sel.target.provider)]
     [SelectedTier := Text(sel.tier)][SelectedRoute := Text(sel.routeName)]
     [TrackCost := Flag(true)][BudgetKey := Text(p.namespace(sel.index))][BudgetIndex := Whole(sel.index)]
  }

  class RequestMetadata {
    var values: Metadata

    constructor ()
      ensures values == map[]
    {
      values := map[];
    }

    /** recordSelection for a selection that has a budget, as every selection does. */
    method RecordSelection(p: Policy, sel: Selection)
      modifies this
      ensures values == Record(p, old(values), sel)
    {
      values := values[SelectedModel := Text(sel.target.model)];
      values := values[SelectedProvider := Text(sel.target.provider)];
      values := values[SelectedTier := Text(sel.tier)];
      values := values[SelectedRoute := Text(sel.routeName)];
      values := values[TrackCost := Flag(true)];
      values := values[BudgetKey := Text(p.namespace(sel.index))];
      values := values[BudgetIndex := Whole(sel.index)];
    }

    /** chargeOnce: the charge is claimed before it is attempted. */
    method ChargeOnce(p: Policy) returns (charge: Option<Charge>)
      modifies this
      ensures values == if Chargeable(old(values)) then old(values)[CostCharged := Flag(true)] else old(values)
      ensures charge == if Chargeable(old(values)) then Due(p, old(values)) else None
      ensures !Chargeable(values)
    {
      if CostCharged in values && values[CostCharged] == Flag(true) {
        return None;
      }
      if TrackCost !in values || values[TrackCost] != Flag(true) {
        return None;
      }
      ghost var before := values;
      values := values[CostCharged := Flag(true)];
      assert ReportedCost(p, values) == ReportedCost(p, before);
      if BudgetKey !in values || !values[BudgetKey].Text? || values[BudgetKey].text == "" {
        return None;
      }
      if BudgetIndex !in values || !values[BudgetIndex].Whole? || values[BudgetIndex].n < 0 || values[BudgetIndex].n >= p.budgets {
        return None;
      }
      var cost := ReportedCost(p, values);
      if cost.None? || cost.value == 0.0 {
        return None;
      }
      var scaled := ScaleCost(Finite(cost.value), p.factor);
      if scaled.None? || scaled.value <= 0 {
        return None;
      }
      charge := Some(Charge(values[BudgetIndex].n, values[BudgetKey].text, scaled.value));
    }
  }

  /**
   * A recorded selection with a calculated cost is charged to its own budget, and for the scaled cost; any
   * later hook on the same request charges nothing.
   */
  lemma ChargesSelected(p: Policy, m: Metadata, sel: Selection, cost: real)
    requires sel.index < p.budgets && p.namespace(sel.index) != "" && !IsOn(m, CostCharged)
    requires ReportedCost(p, m) == Some(cost)
    ensures var r := Record(p, m, sel);
      && Chargeable(r)
      && Due(p, r) ==
         (match ScaleCost(Finite(cost), p.factor)
          case None => None
          case Some(n) => if n == 0 then None else Some(Charge(sel.index, p.namespace(sel.index), n)))
  {
  }

  /** Which reported cost counts: a finite, non-negative number in any of its forms, marked as calculated. */
  lemma CostReported(p: Policy, m: Metadata, x: real, n: int, text: string)
    requires LlmCost in m
    ensures var calculated := LlmCostStatus in m && m[LlmCostStatus] == Text("calculated");
      && (!calculated ==> ReportedCost(p, m) == None)
      && (calculated && m[LlmCost] == Number(Finite(x)) ==> ReportedCost(p, m) == if x < 0.0 then None else Some(x))
      && (calculated && m[LlmCost] == Whole(n) ==> ReportedCost(p, m) == if n < 0 then None else Some(n as real))
      && (calculated && m[LlmCost] == Text(text) && p.parse(text) == Some(Finite(x)) ==> ReportedCost(p, m) == if x < 0.0 then None else Some(x))
      && (calculated && m[LlmCost] == Text(text) && p.parse(text) == None ==> ReportedCost(p, m) == None)
      && (m[LlmCost] == Number(NaN) || m[LlmCost] == Number(Infinite) || m[LlmCost].Flag? || m[LlmCost].Other? ==> ReportedCost(p, m) == None)
      && ReportedCost(p, m - {LlmCost}) == None
  {
  }

  /** A calculated cost of a tenth of a cent, at a million units to the dollar, charges a thousand units. */
  lemma TenthOfACent(p: Policy, m: Metadata, sel: Selection)
    requires sel.index < p.budgets && p.namespace(sel.index) != "" && p.factor == 1000000 && !IsOn(m, CostCharged)
    requires LlmCostStatus in m && m[LlmCostStatus] == Text("calculated") && LlmCost in m && m[LlmCost] == Number(Finite(0.001))
    ensures Chargeable(Record(p, m, sel)) && Due(p, Record(p, m, sel)) == Some(Charge(sel.index, p.namespace(sel.index), 1000))
  {
    ChargesSelected(p, m, sel, 0.001);
  }

  // ---- Concurrent requests ----

  datatype Charged = Charged(request: nat, charge: Charge)

  /** How far selectTarget has got: nothing asked, the governing budget asked in vain, or an outcome in hand. */
  datatype Asking = First(model: string) | Turned(model: string) | Chosen(out: Outcome)

  /**
   * The selections under way, each request's metadata, the charges claimed but not yet stored, and those
   * stored in the current window.
   */
  datatype State = State(asking: map<nat, Asking>, meta: map<nat, Metadata>, claims: map<nat, Charge>, ledger: seq<Charged>)

  datatype Gateway = Gateway(cfg: Config, policy: Policy, limit: nat -> nat, failOpen: nat -> bool)

  /** Limits are positive, and every route has a budget. */
  ghost predicate Sensible(g: Gateway) {
    RoutesValid(g.cfg.routes) && g.policy.budgets == |g.cfg.routes| && forall i :: g.limit(i) > 0
  }

  function Spent(ledger: seq<Charged>, i: nat): nat {
    if ledger == [] then 0
    else
      var last := ledger[|ledger| - 1].charge;
      Spent(ledger[..|ledger| - 1], i) + (if last.index == i then last.amount else 0)
  }

  function Left(g: Gateway, ledger: seq<Charged>, i: nat): int { g.limit(i) - Spent(ledger, i) }

  /** The storage answers with what is left of the window, negative after an overshoot. */
  function Storage(g: Gateway, ledger: seq<Charged>): Budgets {
    Budgets((i: nat) => Some(Left(g, ledger, i)), g.failOpen)
  }

  /** A budget admits exactly while less than its limit is spent. */
  lemma AdmitsBelowLimit(g: Gateway, ledger: seq<Charged>, i: nat)
    ensures CheckBudget(Storage(g, ledger), i) == Check(if Spent(ledger, i) < g.limit(i) then Available else Exhausted, false)
  {
  }

  /** The steps between which other requests may run. */
  datatype Step =
    | Arrive(model: string, given: Metadata)
    | AskFirst  // the query of the governing budget
    | AskFallback  // the query of the fallback's own budget
    | Settle(forwarded: bool)  // recordSelection, unless the request is refused
    | Write(key: Key, value: Meta)  // another policy, such as the one that reports costs
    | Claim  // either response hook, up to the call of Charge
    | Store(stored: bool)  // ConsumeN, which may fail

  predicate Untouched(m: Metadata) { forall k :: k in m ==> !Own(k) }

  ghost predicate Next(g: Gateway, s: State, id: nat, step: Step, t: State) {
    match step
    case Arrive(model, given) =>
      id !in s.meta && Untouched(given) && t == s.(asking := s.asking[id := First(model)], meta := s.meta[id := given])
    case AskFirst => id in s.asking && s.asking[id].First? && AsksFirst(g, s, id, t)
    case AskFallback => id in s.asking && s.asking[id].Turned? && AsksFallback(g, s, id, t)
    case Settle(forwarded) => id in s.asking && id in s.meta && s.asking[id].Chosen? && t == Settled(g, s, id, forwarded)
    case Write(key, value) => id in s.meta && !Own(key) && t == s.(meta := s.meta[id := s.meta[id][key := value]])
    case Claim => id in s.meta && t == Claimed(g, s, id)
    case Store(stored) => id in s.claims && t == Stored(s, id, stored)
  }

  function Holding(s: State, id: nat, a: Asking): State { s.(asking := s.asking[id := a]) }

  ghost predicate AsksFirst(g: Gateway, s: State, id: nat, t: State)
    requires id in s.asking && s.asking[id].First?
  {
    var model, b := s.asking[id].model, Storage(g, s.ledger);
    if FirstAdmits(g.cfg, b, model) then exists out :: FirstRule(g.cfg, b, model, out) && t == Holding(s, id, Chosen(out))
    else t == Holding(s, id, Turned(model))
  }

  ghost predicate AsksFallback(g: Gateway, s: State, id: nat, t: State)
    requires id in s.asking && s.asking[id].Turned?
  {
    exists out :: FallbackRule(g.cfg, Storage(g, s.ledger), s.asking[id].model, out) && t == Holding(s, id, Chosen(out))
  }

  function Settled(g: Gateway, s: State, id: nat, forwarded: bool): State
    requires id in s.asking && s.asking[id].Chosen? && id in s.meta
  {
    var out, rest := s.asking[id].out, s.(asking := s.asking - {id});
    if forwarded && out.Selected? then rest.(meta := s.meta[id := Record(g.policy, s.meta[id], out.selection)]) else rest
  }

  /** chargeOnce up to the call of Charge: the metadata is marked first. */
  function Claimed(g: Gateway, s: State, id: nat): State
    requires id in s.meta
  {
    var m := s.meta[id];
    if !Chargeable(m) then s
    else
      var due := Due(g.policy, m);
      s.(meta := s.meta[id := m[CostCharged := Flag(true)]],
         claims := if due.Some? then s.claims[id := due.value] else s.claims)
  }

  function Stored(s: State, id: nat, stored: bool): State
    requires id in s.claims
  {
    s.(claims := s.claims - {id}, ledger := if stored then s.ledger + [Charged(id, s.claims[id])] else s.ledger)
  }

  const Start := State(map[], map[], map[], [])

  datatype Event = Event(id: nat, step: Step, after: State)

  function Last(run: seq<Event>): State { if run == [] then Start else run[|run| - 1].after }

  ghost predicate IsRun(g: Gateway, run: seq<Event>) {
    if run == [] then true
    else
      var front, e := run[..|run| - 1], run[|run| - 1];
      IsRun(g, front) && Next(g, Last(front), e.id, e.step, e.after)
  }

  // ---- Each request is charged at most once ----

  predicate Mentions(ledger: seq<Charged>, id: nat) { exists k :: 0 <= k < |ledger| && ledger[k].request == id }

  ghost predicate OncePerRequest(ledger: seq<Charged>) {
    forall j, k :: 0 <= j < k < |ledger| ==> ledger[j].request != ledger[k].request
  }

  /** A request charged, or about to be, is marked so, and one still asking is not. */
  predicate SoundAt(s: State, id: nat) {
    && (id in s.asking ==> id in s.meta && Untouched(s.meta[id]))
    && (id in s.claims ==> id in s.meta && IsOn(s.meta[id], CostCharged) && !Mentions(s.ledger, id))
    && (Mentions(s.ledger, id) ==> id in s.meta && IsOn(s.meta[id], CostCharged))
  }

  ghost predicate Sound(s: State) { OncePerRequest(s.ledger) && forall id :: SoundAt(s, id) }

  lemma MentionsAppend(ledger: seq<Charged>, c: Charged, id: nat)
    ensures Mentions(ledger + [c], id) <==> Mentions(ledger, id) || c.request == id
  {
    var all := ledger + [c];
    if Mentions(ledger, id) {
      var k :| 0 <= k < |ledger| && ledger[k].request == id;
      assert all[k].request == id;
    }
    if c.request == id {
      assert all[|ledger|].request == id;
    }
  }

  lemma StoreSound(s: State, id: nat, stored: bool)
    requires Sound(s) && id in s.claims
    ensures Sound(Stored(s, id, stored))
  {
    var t := Stored(s, id, stored);
    assert SoundAt(s, id);
    forall k | 0 <= k < |s.ledger| ensures s.ledger[k].request != id {
      assert s.ledger[k].request == id ==> Mentions(s.ledger, id);
    }
    forall other ensures SoundAt(t, other) {
      assert SoundAt(s, other);
      MentionsAppend(s.ledger, Charged(id, s.claims[id]), other);
    }
  }

  lemma StepSoundAt(g: Gateway, s: State, id: nat, step: Step, t: State)
    requires Next(g, s, id, step, t) && !step.Store? && SoundAt(s, id)
    ensures SoundAt(t, id) && t.ledger == s.ledger
  {
  }

  lemma OthersSound(g: Gateway, s: State, id: nat, step: Step, t: State, other: nat)
    requires Next(g, s, id, step, t) && !step.Store? && other != id && SoundAt(s, other)
    ensures SoundAt(t, other)
  {
  }

  lemma NextSound(g: Gateway, s: State, id: nat, step: Step, t: State)
    requires Next(g, s, id, step, t) && Sound(s)
    ensures Sound(t)
  {
    if step.Store? {
      StoreSound(s, id, step.stored);
    } else {
      assert SoundAt(s, id);
      StepSoundAt(g, s, id, step, t);
      forall other | other != id ensures SoundAt(t, other) {
        assert SoundAt(s, other);
        OthersSound(g, s, id, step, t, other);
      }
    }
  }

  /** In every run, with both response hooks running any number of times, a request is charged at most once. */
  lemma {:induction false} ChargedAtMostOnce(g: Gateway, run: seq<Event>)
    requires IsRun(g, run)
    ensures OncePerRequest(Last(run).ledger) && Sound(Last(run))
  {
    if run != [] {
      var front, e := run[..|run| - 1], run[|run| - 1];
      ChargedAtMostOnce(g, front);
      NextSound(g, Last(front), e.id, e.step, e.after);
    }
  }

  // ---- Overshoot ----

  predicate Admitted(a: Asking, i: nat) { a.Chosen? && a.out.Selected? && a.out.selection.index == i }

  predicate Pending(m: Metadata, i: nat) { Chargeable(m) && BudgetIndex in m && m[BudgetIndex] == Whole(i) }

  /** In flight on budget `i`: a selection in hand, or recorded and not claimed, or claimed and not stored. */
  predicate Flies(s: State, id: nat, i: nat) {
    || (id in s.asking && Admitted(s.asking[id], i))
    || (id in s.meta && Pending(s.meta[id], i))
    || (id in s.claims && s.claims[id].index == i)
  }

  function InFlight(s: State, i: nat): (r: set<nat>)
    ensures forall id :: id in r <==> Flies(s, id, i)
  {
    set id | id in s.asking.Keys + s.meta.Keys + s.claims.Keys && Flies(s, id, i)
  }

  /** What the requests in `ids` were charged on budget `i`. */
  function SpentBy(ledger: seq<Charged>, ids: set<nat>, i: nat): nat {
    if ledger == [] then 0
    else
      var last := ledger[|ledger| - 1];
      SpentBy(ledger[..|ledger| - 1], ids, i) + (if last.charge.index == i && last.request in ids then last.charge.amount else 0)
  }

  /** A selected budget has something left when it is asked. */
  lemma SelectedHasBudget(cfg: Config, b: Budgets, model: string, sel: Selection)
    requires FirstRule(cfg, b, model, Selected(sel)) || FallbackRule(cfg, b, model, Selected(sel))
    ensures sel.index < |cfg.routes| && CheckBudget(b, sel.index).state != Exhausted
  {
  }

  /** Whatever the step of whichever request: none comes to be in flight on a budget whose limit is reached. */
  lemma NothingAdmitted(g: Gateway, s: State, id: nat, step: Step, t: State, i: nat)
    requires Next(g, s, id, step, t) && Spent(s.ledger, i) >= g.limit(i)
    ensures InFlight(t, i) <= InFlight(s, i)
  {
    OthersFly(g, s, id, step, t, i);
    if Flies(t, id, i) && !Flies(s, id, i) {
      AdmittedWithin(g, s, id, step, t, i);
    }
  }

  /** A step touches no other request. */
  lemma OthersFly(g: Gateway, s: State, id: nat, step: Step, t: State, i: nat)
    requires Next(g, s, id, step, t)
    ensures forall other :: other != id ==> (Flies(t, other, i) <==> Flies(s, other, i))
  {
    match step
    case AskFirst =>
    case AskFallback =>
    case _ =>
  }

  /** Only a query puts a request in flight, and only on a budget that had something left. */
  lemma AdmittedWithin(g: Gateway, s: State, id: nat, step: Step, t: State, i: nat)
    requires Next(g, s, id, step, t) && Flies(t, id, i) && !Flies(s, id, i)
    ensures Spent(s.ledger, i) < g.limit(i)
  {
    match step
    case AskFirst =>
      var b, model := Storage(g, s.ledger), s.asking[id].model;
      var out :| FirstRule(g.cfg, b, model, out) && t == Holding(s, id, Chosen(out));
      SelectedHasBudget(g.cfg, b, model, out.selection);
    case AskFallback =>
      var b, model := Storage(g, s.ledger), s.asking[id].model;
      var out :| FallbackRule(g.cfg, b, model, out) && t == Holding(s, id, Chosen(out));
      SelectedHasBudget(g.cfg, b, model, out.selection);
    case _ => NotByOthers(g, s, id, step, t, i);
  }

  lemma NotByOthers(g: Gateway, s: State, id: nat, step: Step, t: State, i: nat)
    requires Next(g, s, id, step, t) && !step.AskFirst? && !step.AskFallback? && Flies(t, id, i)
    ensures Flies(s, id, i)
  {
  }

  /** A step that charges budget `i` charges a request in flight on it, and admits nothing. */
  lemma ChargesInFlight(g: Gateway, s: State, id: nat, step: Step, t: State, i: nat)
    requires Next(g, s, id, step, t)
    ensures t.ledger == s.ledger || (t.ledger == s.ledger + [t.ledger[|s.ledger|]] && t.ledger[|s.ledger|].request == id)
    ensures t.ledger != s.ledger ==> InFlight(t, i) <= InFlight(s, i)
    ensures t.ledger != s.ledger && t.ledger[|s.ledger|].charge.index == i ==> id in InFlight(s, i)
  {
  }

  lemma SpentAppend(ledger: seq<Charged>, c: Charged, ids: set<nat>, i: nat)
    ensures Spent(ledger + [c], i) == Spent(ledger, i) + (if c.charge.index == i then c.charge.amount else 0)
    ensures SpentBy(ledger + [c], ids, i) == SpentBy(ledger, ids, i) + (if c.charge.index == i && c.request in ids then c.charge.amount else 0)
  {
  }

  lemma {:induction false} NotYetCharged(ledger: seq<Charged>, ids: set<nat>, i: nat)
    requires forall id :: id in ids ==> !Mentions(ledger, id)
    ensures SpentBy(ledger, ids, i) == 0
  {
    if ledger != [] {
      var front, last := ledger[..|ledger| - 1], ledger[|ledger| - 1];
      assert ledger == front + [last];
      forall id | id in ids ensures !Mentions(front, id) && last.request != id { MentionsAppend(front, last, id); }
      NotYetCharged(front, ids, i);
    }
  }

  lemma InFlightNotCharged(s: State, i: nat)
    requires Sound(s)
    ensures SpentBy(s.ledger, InFlight(s, i), i) == 0
  {
    forall id | id in InFlight(s, i) ensures !Mentions(s.ledger, id) {
      assert SoundAt(s, id);
    }
    NotYetCharged(s.ledger, InFlight(s, i), i);
  }

  /** At `before` the limit was not reached, and since then only requests in flight there were charged. */
  ghost predicate Crossed(g: Gateway, before: State, last: State, i: nat) {
    && Spent(before.ledger, i) < g.limit(i)
    && Spent(last.ledger, i) == Spent(before.ledger, i) + SpentBy(last.ledger, InFlight(before, i), i)
    && (Spent(last.ledger, i) >= g.limit(i) ==> InFlight(last, i) <= InFlight(before, i))
  }

  lemma NextSpent(g: Gateway, s: State, id: nat, step: Step, t: State, ids: set<nat>, i: nat)
    requires Next(g, s, id, step, t) && InFlight(s, i) <= ids
    ensures Spent(t.ledger, i) - Spent(s.ledger, i) == SpentBy(t.ledger, ids, i) - SpentBy(s.ledger, ids, i) >= 0
    ensures Spent(t.ledger, i) != Spent(s.ledger, i) ==> InFlight(t, i) <= InFlight(s, i)
  {
    ChargesInFlight(g, s, id, step, t, i);
    if t.ledger != s.ledger {
      SpentAppend(s.ledger, t.ledger[|s.ledger|], ids, i);
    }
  }

  lemma CrossedNow(g: Gateway, s: State, i: nat)
    requires Sound(s) && Spent(s.ledger, i) < g.limit(i)
    ensures Crossed(g, s, s, i)
  {
    InFlightNotCharged(s, i);
  }

  lemma CrossedNext(g: Gateway, before: State, s: State, e: Event, i: nat)
    requires Crossed(g, before, s, i) && Next(g, s, e.id, e.step, e.after)
    requires Spent(s.ledger, i) >= g.limit(i) || s == before
    ensures Crossed(g, before, e.after, i)
  {
    NextSpent(g, s, e.id, e.step, e.after, InFlight(before, i), i);
    if Spent(s.ledger, i) >= g.limit(i) {
      NothingAdmitted(g, s, e.id, e.step, e.after, i);
    }
  }

  /**
   * Overshoot: in every interleaving what is spent on a budget is what was spent at some moment when the
   * limit was not yet reached, so at most limit - 1, plus what the requests then in flight were charged.
   */
  lemma {:induction false} Overshoot(g: Gateway, run: seq<Event>, i: nat) returns (k: nat)
    requires Sensible(g) && IsRun(g, run)
    ensures k <= |run| && Crossed(g, Last(run[..k]), Last(run), i)
    ensures Spent(Last(run).ledger, i) <= g.limit(i) - 1 + SpentBy(Last(run).ledger, InFlight(Last(run[..k]), i), i)
  {
    k := |run|;
    assert run[..k] == run;
    if Spent(Last(run).ledger, i) < g.limit(i) {
      ChargedAtMostOnce(g, run);
      CrossedNow(g, Last(run), i);
    } else {
      var front := run[..|run| - 1];
      if Spent(Last(front).ledger, i) < g.limit(i) {
        k := |front|;
        ChargedAtMostOnce(g, front);
        CrossedNow(g, Last(front), i);
      } else {
        k := Overshoot(g, front, i);
        assert front[..k] == run[..k];
      }
      CrossedNext(g, Last(run[..k]), Last(front), run[|run| - 1], i);
    }
  }
}
