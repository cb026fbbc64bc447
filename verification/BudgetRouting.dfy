/**
 * Which model budget serves a request: the route list of policies/cost-based-model-routing/config.go and the
 * selection of costbasedmodelrouting.go.
 */
module BudgetRouting {
  import opened Common

  datatype Target = Target(model: string, provider: string)

  datatype Route = Route(name: string, target: Target, pattern: bool, specificity: nat)

  // ---- Models and patterns ----

  predicate IsPatternModel(model: string) { '*' in model || model == "other" }

  /** A star stands for any text, every other character for itself. */
  predicate Glob(p: string, s: string)
    decreases |p|, |s|
  {
    if p == "" then s == ""
    else if p[0] == '*' then Glob(p[1..], s) || (s != "" && Glob(p, s[1..]))
    else s != "" && s[0] == p[0] && Glob(p[1..], s[1..])
  }

  /** The number of literal characters. */
  function Literals(p: string): nat {
    if p == "" then 0 else (if p[0] == '*' then 0 else 1) + Literals(p[1..])
  }

  lemma {:induction false} StarMatchesAll(s: string)
    ensures Glob("*", s)
  {
    assert "*"[1..] == "";
    if s != "" {
      StarMatchesAll(s[1..]);
    }
  }

  /** A pattern without a star matches itself and nothing else. */
  lemma {:induction false} GlobLiteral(p: string, s: string)
    requires '*' !in p
    ensures Glob(p, s) <==> s == p
  {
    if p != "" {
      assert p[0] in p && p == [p[0]] + p[1..];
      if s != "" {
        assert s == [s[0]] + s[1..];
        GlobLiteral(p[1..], s[1..]);
      }
    }
  }

  /** `s` splits at `k` into a match of each pattern. */
  predicate SplitsAt(p: string, q: string, s: string, k: nat) {
    k <= |s| && Glob(p, s[..k]) && Glob(q, s[k..])
  }

  /** The pattern that is left once the first character of a text is matched. */
  function AfterFirst(p: string): string
    requires p != ""
  {
    if p[0] == '*' then p else p[1..]
  }

  lemma SplitForward(p: string, q: string, s: string, k: nat)
    requires p != "" && SplitsAt(p, q, s, k)
    ensures (p[0] == '*' && SplitsAt(p[1..], q, s, k)) ||
      (k > 0 && (p[0] == '*' || s[0] == p[0]) && SplitsAt(AfterFirst(p), q, s[1..], k - 1))
  {
    if k > 0 {
      assert s[..k][0] == s[0] && s[..k][1..] == s[1..][..k - 1] && s[1..][k - 1..] == s[k..];
    }
  }

  lemma SplitBack(p: string, q: string, s: string, k: nat)
    requires p != "" && s != "" && (p[0] == '*' || s[0] == p[0]) && SplitsAt(AfterFirst(p), q, s[1..], k)
    ensures SplitsAt(p, q, s, k + 1)
  {
    assert s[..k + 1][0] == s[0] && s[..k + 1][1..] == s[1..][..k] && s[1..][k..] == s[k + 1..];
  }

  /** Two patterns in a row match exactly the texts that split into a match of each. */
  lemma {:induction false} GlobAppend(p: string, q: string, s: string)
    ensures Glob(p + q, s) <==> exists k: nat :: SplitsAt(p, q, s, k)
    decreases |p|, |s|
  {
    if p == "" {
      assert p + q == q && s[..0] == "" && s[0..] == s;
      assert SplitsAt(p, q, s, 0) <==> Glob(q, s);
      if k: nat :| SplitsAt(p, q, s, k) {
        assert s[..k] == "" && k == 0;
      }
    } else {
      GlobSplits(p, q, s);
      GlobJoins(p, q, s);
    }
  }

  lemma {:induction false} GlobSplits(p: string, q: string, s: string)
    requires p != ""
    ensures Glob(p + q, s) ==> exists k: nat :: SplitsAt(p, q, s, k)
    decreases |p|, |s|, 0
  {
    if Glob(p + q, s) {
      assert (p + q)[0] == p[0] && (p + q)[1..] == p[1..] + q;
      if p[0] == '*' && Glob(p[1..] + q, s) {
        GlobAppend(p[1..], q, s);
        var k: nat :| SplitsAt(p[1..], q, s, k);
        assert SplitsAt(p, q, s, k);
      } else {
        GlobAppend(AfterFirst(p), q, s[1..]);
        var k: nat :| SplitsAt(AfterFirst(p), q, s[1..], k);
        SplitBack(p, q, s, k);
      }
    }
  }

  lemma {:induction false} GlobJoins(p: string, q: string, s: string)
    requires p != ""
    ensures (exists k: nat :: SplitsAt(p, q, s, k)) ==> Glob(p + q, s)
    decreases |p|, |s|, 0
  {
    if k: nat :| SplitsAt(p, q, s, k) {
      assert (p + q)[0] == p[0] && (p + q)[1..] == p[1..] + q;
      SplitForward(p, q, s, k);
      if p[0] == '*' && SplitsAt(p[1..], q, s, k) {
        GlobAppend(p[1..], q, s);
      } else {
        GlobAppend(AfterFirst(p), q, s[1..]);
      }
    }
  }

  /** A prefix and a star match exactly the texts that start with the prefix. */
  lemma PrefixPattern(p: string, s: string)
    requires '*' !in p
    ensures Glob(p + "*", s) <==> p <= s
  {
    GlobAppend(p, "*", s);
    if k: nat :| SplitsAt(p, "*", s, k) {
      GlobLiteral(p, s[..k]);
    }
    if p <= s {
      GlobLiteral(p, s[..|p|]);
      StarMatchesAll(s[|p|..]);
      assert SplitsAt(p, "*", s, |p|);
    }
  }

  /** The specificity is the length without the stars. */
  lemma {:induction false} LiteralsCount(p: string)
    ensures Literals(p) == |p| - multiset(p)['*']
  {
    if p != "" {
      LiteralsCount(p[1..]);
      assert p == [p[0]] + p[1..];
    }
  }

  /** Which models are patterns, and what "other" is read as. */
  lemma PatternModels(t: Target)
    ensures IsPatternModel(t.model) <==> t.model == "other" || exists i :: 0 <= i < |t.model| && t.model[i] == '*'
    ensures Normalized(t).provider == t.provider
    ensures Normalized(t).model == if t.model == "other" then "*" else t.model
  {
  }

  // ---- Parsing the route list ----

  datatype NameField = Absent | NotText | Given(trimmed: string)

  /** An entry with its target and limits already read; None is an error in either. */
  datatype Item = NotAnObject | Item(name: NameField, target: Option<Target>, limitsValid: bool)

  function NameOf(item: Item, i: nat): string
    requires item.Item?
  {
    if item.name.Given? then item.name.trimmed else "route-" + Decimal(i + 1)
  }

  /** Entries without a name are numbered from one. */
  lemma GeneratedName(item: Item, i: nat)
    requires item.Item? && item.name == Absent
    ensures NameOf(item, i)[..6] == "route-" && ReadDecimal(NameOf(item, i)[6..]) == i + 1
  {
    ReadDecimalOf(i + 1);
    assert NameOf(item, i)[6..] == Decimal(i + 1);
  }

  function Normalized(t: Target): Target {
    if t.model == "other" then t.(model := "*") else t
  }

  predicate ItemValid(item: Item) {
    && item.Item? && item.target.Some? && item.limitsValid
    && item.name != NotText && item.name != Given("")
    && (IsPatternModel(item.target.value.model) ==> item.target.value.provider == "")
  }

  function RouteOf(item: Item, i: nat): Route
    requires ItemValid(item)
  {
    var t := Normalized(item.target.value);
    Route(NameOf(item, i), t, '*' in t.model, if '*' in t.model then Literals(t.model) else 0)
  }

  predicate NamesDistinct(routes: seq<Route>) {
    forall i, j :: 0 <= i < j < |routes| ==> routes[i].name != routes[j].name
  }

  predicate ModelsDistinct(routes: seq<Route>) {
    forall i, j :: 0 <= i < j < |routes| ==> routes[i].target.model != routes[j].target.model
  }

  /** What every accepted list satisfies. */
  predicate RouteValid(r: Route) {
    && r.target.model != "other"
    && (r.pattern <==> '*' in r.target.model)
    && (r.pattern ==> r.target.provider == "" && r.specificity == Literals(r.target.model))
  }

  predicate RoutesValid(routes: seq<Route>) {
    && NamesDistinct(routes) && ModelsDistinct(routes)
    && forall i :: 0 <= i < |routes| ==> RouteValid(routes[i])
  }

  predicate ItemsValid(items: seq<Item>) { forall i :: 0 <= i < |items| ==> ItemValid(items[i]) }

  function RoutesOf(items: seq<Item>): (r: seq<Route>)
    requires ItemsValid(items)
    ensures |r| == |items|
  {
    seq(|items|, i requires 0 <= i < |items| => RouteOf(items[i], i))
  }

  lemma RouteOfValid(item: Item, i: nat)
    requires ItemValid(item)
    ensures RouteValid(RouteOf(item, i))
  {
  }

  predicate NoClash(routes: seq<Route>, r: Route) {
    forall i :: 0 <= i < |routes| ==> routes[i].name != r.name && routes[i].target.model != r.target.model
  }

  function Names(routes: seq<Route>): set<string> {
    if routes == [] then {} else Names(routes[..|routes| - 1]) + {routes[|routes| - 1].name}
  }

  function Models(routes: seq<Route>): set<string> {
    if routes == [] then {} else Models(routes[..|routes| - 1]) + {routes[|routes| - 1].target.model}
  }

  lemma {:induction false} SeenIffClash(routes: seq<Route>, r: Route)
    ensures NoClash(routes, r) <==> r.name !in Names(routes) && r.target.model !in Models(routes)
  {
    if routes != [] {
      var n := |routes| - 1;
      SeenIffClash(routes[..n], r);
      assert NoClash(routes, r) <==> NoClash(routes[..n], r) && NoClash([routes[n]], r) by {
        assert [routes[n]][0] == routes[n];
        assert routes == routes[..n] + [routes[n]];
      }
      assert NoClash([routes[n]], r) <==> routes[n].name != r.name && routes[n].target.model != r.target.model by {
        assert [routes[n]][0] == routes[n];
      }
    }
  }

  lemma AddRoute(routes: seq<Route>, r: Route)
    ensures RoutesValid(routes + [r]) <==> RoutesValid(routes) && RouteValid(r) && NoClash(routes, r)
  {
    var all := routes + [r];
    assert forall i :: 0 <= i < |routes| ==> all[i] == routes[i];
    assert all[|routes|] == r;
    if RoutesValid(all) {
      forall i | 0 <= i < |routes| ensures RouteValid(routes[i]) { assert RouteValid(all[i]); }
    }
  }

  lemma RoutesOfPrefix(items: seq<Item>, i: nat)
    requires i < |items| && ItemsValid(items[..i]) && ItemValid(items[i])
    ensures ItemsValid(items[..i + 1])
    ensures RoutesOf(items[..i + 1]) == RoutesOf(items[..i]) + [RouteOf(items[i], i)]
  {
  }

  /** A prefix with a clash, or an invalid entry, spoils the whole list. */
  lemma Spoiled(items: seq<Item>, i: nat)
    requires i < |items| && ItemsValid(items[..i])
    requires ItemValid(items[i]) ==> !RoutesValid(RoutesOf(items[..i]) + [RouteOf(items[i], i)])
    ensures !(ItemsValid(items) && RoutesValid(RoutesOf(items)))
  {
    if ItemsValid(items) && RoutesValid(RoutesOf(items)) {
      RoutesOfPrefix(items, i);
      var part, all := RoutesOf(items[..i + 1]), RoutesOf(items);
      assert part == all[..i + 1];
      forall j | 0 <= j < |part| ensures RouteValid(part[j]) { assert RouteValid(all[j]); }
      assert RoutesValid(part);
    }
  }

  ghost predicate Acceptable(items: seq<Item>) { ItemsValid(items) && RoutesValid(RoutesOf(items)) }

  lemma ParseStep(items: seq<Item>, i: nat)
    requires i < |items| && Acceptable(items[..i])
    ensures Acceptable(items) ==> ItemValid(items[i])
    ensures ItemValid(items[i]) ==>
      var routes, route := RoutesOf(items[..i]), RouteOf(items[i], i);
      if route.name in Names(routes) || route.target.model in Models(routes) then !Acceptable(items)
      else
        && Acceptable(items[..i + 1]) && RoutesOf(items[..i + 1]) == routes + [route]
        && Names(routes + [route]) == Names(routes) + {route.name}
        && Models(routes + [route]) == Models(routes) + {route.target.model}
  {
    if !ItemValid(items[i]) {
      Spoiled(items, i);
    } else {
      var routes, route := RoutesOf(items[..i]), RouteOf(items[i], i);
      RouteOfValid(items[i], i);
      AddRoute(routes, route);
      SeenIffClash(routes, route);
      RoutesOfPrefix(items, i);
      assert (routes + [route])[..i] == routes;
      if !NoClash(routes, route) {
        Spoiled(items, i);
      }
    }
  }

  /**
   * parseRoutes accepts exactly the lists of one to ten valid entries whose names and models are all
   * different, once "other" is read as the star; generated names count too.
   */
  method ParseRoutes(items: seq<Item>) returns (r: Option<seq<Route>>)
    ensures r.Some? <==> 1 <= |items| <= 10 && Acceptable(items)
    ensures r.Some? ==> r.value == RoutesOf(items) && RoutesValid(r.value)
  {
    if |items| == 0 || |items| > 10 {
      return None;
    }
    var names: set<string>, models: set<string>, routes := {}, {}, [];
    var i := 0;
    while i < |items|
      invariant 0 <= i <= |items| && Acceptable(items[..i])
      invariant routes == RoutesOf(items[..i]) && names == Names(routes) && models == Models(routes)
    {
      ParseStep(items, i);
      if !ItemValid(items[i]) {
        return None;
      }
      var route := RouteOf(items[i], i);
      if route.name in names || route.target.model in models {
        return None;
      }
      names, models, routes := names + {route.name}, models + {route.target.model}, routes + [route];
      i := i + 1;
    }
    assert items[..i] == items;
    r := Some(routes);
  }

  // ---- Selecting the budget ----

  datatype Config = Config(routes: seq<Route>, fallback: Option<Target>, rejects: bool)

  /** What the storage of each route's budget answers; None is a storage error. */
  datatype Budgets = Budgets(available: nat -> Option<int>, failOpen: nat -> bool)

  datatype State = Available | Exhausted | Unknown

  datatype Selection = Selection(target: Target, routeName: string, tier: string, index: nat, state: State, available: int)

  datatype Outcome = Selected(selection: Selection) | Rejected(status: int)

  datatype Check = Check(state: State, failed: bool)

  /** checkBudget. */
  function CheckBudget(b: Budgets, i: nat): Check {
    match b.available(i)
    case None => Check(Unknown, !b.failOpen(i))
    case Some(n) => Check(if n <= 0 then Exhausted else Available, false)
  }

  function Use(cfg: Config, b: Budgets, i: nat, t: Target, tier: string): Outcome
    requires i < |cfg.routes|
  {
    if CheckBudget(b, i).failed then Rejected(503)
    else
      var available := match b.available(i) case None => 0 case Some(n) => n;
      Selected(Selection(t, cfg.routes[i].name, tier, i, CheckBudget(b, i).state, available))
  }

  // ---- The rule, as documented ----

  predicate Lists(routes: seq<Route>, i: int, model: string) {
    0 <= i < |routes| && !routes[i].pattern && routes[i].target.model == model
  }

  ghost predicate Listed(routes: seq<Route>, model: string) { exists i :: Lists(routes, i, model) }

  predicate Covers(routes: seq<Route>, i: int, model: string) {
    0 <= i < |routes| && routes[i].pattern && model != "" && !IsPatternModel(model) && Glob(routes[i].target.model, model)
  }

  /** The most specific covering pattern, the earliest among equals. */
  ghost predicate BestPattern(routes: seq<Route>, i: int, model: string) {
    && Covers(routes, i, model)
    && forall j :: Covers(routes, j, model) ==>
        routes[j].specificity < routes[i].specificity || (routes[j].specificity == routes[i].specificity && i <= j)
  }

  /** The budget a model answers to: its own, or a pattern's if it has none. */
  ghost predicate Governs(routes: seq<Route>, i: int, model: string) {
    Lists(routes, i, model) || (!Listed(routes, model) && BestPattern(routes, i, model))
  }

  function UseFirst(cfg: Config, b: Budgets, model: string, i: nat): Outcome
    requires i < |cfg.routes|
  {
    if cfg.routes[i].pattern then Use(cfg, b, i, Target(model, ""), "wildcard")
    else Use(cfg, b, i, cfg.routes[i].target, cfg.routes[i].name)
  }

  /** The fallback may only spend its own budget, and not one already found exhausted. */
  predicate OwnFallback(cfg: Config, i: int, model: string) {
    !cfg.rejects && cfg.fallback.Some? && Lists(cfg.routes, i, cfg.fallback.value.model) && !Lists(cfg.routes, i, model)
  }

  ghost predicate FallbackRule(cfg: Config, b: Budgets, model: string, out: Outcome) {
    if exists i :: OwnFallback(cfg, i, model) && CheckBudget(b, i).state != Exhausted then
      exists i :: OwnFallback(cfg, i, model) && CheckBudget(b, i).state != Exhausted && out == Use(cfg, b, i, cfg.fallback.value, "fallback")
    else
      out == Rejected(429)
  }

  ghost predicate FirstAdmits(cfg: Config, b: Budgets, model: string) {
    exists i :: Governs(cfg.routes, i, model) && CheckBudget(b, i).state != Exhausted
  }

  ghost predicate FirstRule(cfg: Config, b: Budgets, model: string, out: Outcome) {
    exists i :: Governs(cfg.routes, i, model) && CheckBudget(b, i).state != Exhausted && out == UseFirst(cfg, b, model, i)
  }

  ghost predicate Rule(cfg: Config, b: Budgets, model: string, out: Outcome) {
    if FirstAdmits(cfg, b, model) then FirstRule(cfg, b, model, out) else FallbackRule(cfg, b, model, out)
  }

  lemma ListsOnce(routes: seq<Route>, i: int, j: int, model: string)
    requires ModelsDistinct(routes) && Lists(routes, i, model) && Lists(routes, j, model)
    ensures i == j
  {
  }

  lemma GovernsOnce(routes: seq<Route>, i: int, j: int, model: string)
    requires ModelsDistinct(routes) && Governs(routes, i, model) && Governs(routes, j, model)
    ensures i == j
  {
  }

  /** The rule leaves no choice. */
  lemma RuleDecides(cfg: Config, b: Budgets, model: string, x: Outcome, y: Outcome)
    requires RoutesValid(cfg.routes) && Rule(cfg, b, model, x) && Rule(cfg, b, model, y)
    ensures x == y
  {
    if FirstAdmits(cfg, b, model) {
      var i :| Governs(cfg.routes, i, model) && CheckBudget(b, i).state != Exhausted && x == UseFirst(cfg, b, model, i);
      var j :| Governs(cfg.routes, j, model) && CheckBudget(b, j).state != Exhausted && y == UseFirst(cfg, b, model, j);
      GovernsOnce(cfg.routes, i, j, model);
    } else if exists i :: OwnFallback(cfg, i, model) && CheckBudget(b, i).state != Exhausted {
      var i :| OwnFallback(cfg, i, model) && CheckBudget(b, i).state != Exhausted && x == Use(cfg, b, i, cfg.fallback.value, "fallback");
      var j :| OwnFallback(cfg, j, model) && CheckBudget(b, j).state != Exhausted && y == Use(cfg, b, j, cfg.fallback.value, "fallback");
      ListsOnce(cfg.routes, i, j, cfg.fallback.value.model);
    }
  }

  /** The answers that let a request through: something left, or an error that the budget tolerates. */
  lemma BudgetAnswers(b: Budgets, i: nat)
    ensures b.available(i) == None ==> CheckBudget(b, i) == Check(Unknown, !b.failOpen(i))
    ensures forall n :: b.available(i) == Some(n) ==> CheckBudget(b, i) == Check(if n > 0 then Available else Exhausted, false)
  {
  }

  /** Where a selected request goes: to the model asked for, under a pattern or its own name, or to the fallback. */
  ghost predicate GoesTo(cfg: Config, model: string, sel: Selection)
    requires sel.index < |cfg.routes|
  {
    var route := cfg.routes[sel.index];
    sel.routeName == route.name &&
    ( || (Lists(cfg.routes, sel.index, model) && sel.target == route.target && sel.target.model == model && sel.tier == route.name)
      || (BestPattern(cfg.routes, sel.index, model) && !Listed(cfg.routes, model) && sel.target == Target(model, "") && sel.tier == "wildcard")
      || (cfg.fallback.Some? && !cfg.rejects && Lists(cfg.routes, sel.index, cfg.fallback.value.model) &&
          !Lists(cfg.routes, sel.index, model) && sel.target == cfg.fallback.value && sel.tier == "fallback"))
  }

  /** What every outcome of the rule means for the request. */
  lemma OutcomeMeans(cfg: Config, b: Budgets, model: string, out: Outcome)
    requires Rule(cfg, b, model, out)
    ensures out.Selected? ==>
      && out.selection.index < |cfg.routes| && GoesTo(cfg, model, out.selection)
      && match b.available(out.selection.index)
         case Some(n) => n > 0 && out.selection.available == n && out.selection.state == Available
         case None => b.failOpen(out.selection.index) && out.selection.state == Unknown
    ensures out.Rejected? && out.status != 429 ==>
      out.status == 503 && exists i: nat :: i < |cfg.routes| && b.available(i).None? && !b.failOpen(i)
  {
    if FirstAdmits(cfg, b, model) {
      var i :| Governs(cfg.routes, i, model) && CheckBudget(b, i).state != Exhausted && out == UseFirst(cfg, b, model, i);
      assert Governs(cfg.routes, i, model);
    } else if out != Rejected(429) {
      var i :| OwnFallback(cfg, i, model) && CheckBudget(b, i).state != Exhausted && out == Use(cfg, b, i, cfg.fallback.value, "fallback");
      assert OwnFallback(cfg, i, model);
    }
  }

  /** What a request learns that asks the governing budget at one moment and the fallback's at another. */
  ghost function InTurn(cfg: Config, model: string, first: Budgets, second: Budgets): Budgets {
    Budgets(
      (i: nat) => if Governs(cfg.routes, i, model) then first.available(i) else second.available(i),
      (i: nat) => if Governs(cfg.routes, i, model) then first.failOpen(i) else second.failOpen(i))
  }

  lemma OtherBudget(cfg: Config, i: int, model: string)
    requires RoutesValid(cfg.routes) && OwnFallback(cfg, i, model)
    ensures !Governs(cfg.routes, i, model)
  {
  }

  /**
   * The rule may be followed in two turns, however much is spent in between: it reads the governing budget
   * only in the first turn and only the fallback's own budget in the second.
   */
  lemma RuleInTurns(cfg: Config, first: Budgets, second: Budgets, model: string, out: Outcome)
    requires RoutesValid(cfg.routes)
    ensures Rule(cfg, InTurn(cfg, model, first, second), model, out) <==>
      if FirstAdmits(cfg, first, model) then FirstRule(cfg, first, model, out) else FallbackRule(cfg, second, model, out)
  {
    var b := InTurn(cfg, model, first, second);
    forall i: nat | Governs(cfg.routes, i, model) ensures CheckBudget(b, i) == CheckBudget(first, i) && UseFirst(cfg, b, model, i) == UseFirst(cfg, first, model, i) {
    }
    forall i: nat | OwnFallback(cfg, i, model)
      ensures CheckBudget(b, i) == CheckBudget(second, i)
      ensures Use(cfg, b, i, cfg.fallback.value, "fallback") == Use(cfg, second, i, cfg.fallback.value, "fallback")
    {
      OtherBudget(cfg, i, model);
    }
  }

  /** With a catch-all route every concrete model has a budget. */
  lemma CatchAllGoverns(routes: seq<Route>, k: int, model: string)
    requires RoutesValid(routes) && 0 <= k < |routes| && routes[k].target.model == "*"
    requires model != "" && !IsPatternModel(model)
    ensures exists i :: Governs(routes, i, model)
  {
    StarMatchesAll(model);
    assert RouteValid(routes[k]);
    assert Covers(routes, k, model);
    if Listed(routes, model) {
      var i :| Lists(routes, i, model);
      assert Governs(routes, i, model);
    } else {
      var i := BestOf(routes, |routes|, model);
      assert BestPattern(routes, i, model);
      assert Governs(routes, i, model);
    }
  }

  /** The best pattern among the first `n` routes, or -1. */
  function BestOf(routes: seq<Route>, n: nat, model: string): (best: int)
    requires n <= |routes|
    ensures -1 <= best < n
    ensures best == -1 ==> forall j :: 0 <= j < n ==> !Covers(routes, j, model)
    ensures best != -1 ==> Covers(routes, best, model)
    ensures best != -1 ==> forall j :: 0 <= j < n && Covers(routes, j, model) ==>
        routes[j].specificity < routes[best].specificity || (routes[j].specificity == routes[best].specificity && best <= j)
  {
    if n == 0 then -1
    else
      var best := BestOf(routes, n - 1, model);
      if Covers(routes, n - 1, model) && (best == -1 || routes[n - 1].specificity > routes[best].specificity) then n - 1 else best
  }

  /** The route among the first `n` that lists the model, or -1. */
  function ListedAt(routes: seq<Route>, n: nat, model: string): (at: int)
    requires n <= |routes|
    ensures -1 <= at < n
    ensures at == -1 ==> forall j :: 0 <= j < n ==> !Lists(routes, j, model)
    ensures at != -1 ==> Lists(routes, at, model)
  {
    if n == 0 then -1
    else if Lists(routes, n - 1, model) then n - 1 else ListedAt(routes, n - 1, model)
  }

  // ---- The selection ----

  method FindRoutes(cfg: Config, model: string) returns (requested: int, wildcard: int, fallback: int)
    ensures requested == ListedAt(cfg.routes, |cfg.routes|, model)
    ensures wildcard == BestOf(cfg.routes, |cfg.routes|, model)
    ensures fallback == if cfg.fallback.Some? then ListedAt(cfg.routes, |cfg.routes|, cfg.fallback.value.model) else -1
  {
    requested, wildcard, fallback := -1, -1, -1;
    var bestSpecificity: int := -1;
    var i := 0;
    while i < |cfg.routes|
      invariant 0 <= i <= |cfg.routes|
      invariant requested == ListedAt(cfg.routes, i, model)
      invariant wildcard == BestOf(cfg.routes, i, model)
      invariant bestSpecificity == if wildcard == -1 then -1 else cfg.routes[wildcard].specificity
      invariant fallback == if cfg.fallback.Some? then ListedAt(cfg.routes, i, cfg.fallback.value.model) else -1
    {
      var route := cfg.routes[i];
      if route.pattern {
        if model != "" && !IsPatternModel(model) && Glob(route.target.model, model) && route.specificity > bestSpecificity {
          wildcard, bestSpecificity := i, route.specificity;
        }
      } else {
        if route.target.model == model {
          requested := i;
        }
        if cfg.fallback.Some? && route.target.model == cfg.fallback.value.model {
          fallback := i;
        }
      }
      i := i + 1;
    }
  }

  /**
   * selectTarget follows the rule. It asks at most two budgets, each once; it selects only a budget it asked
   * and did not find exhausted; and a listed model never spends a pattern's budget.
   */
  method SelectTarget(cfg: Config, b: Budgets, model: string) returns (out: Outcome, asked: seq<nat>)
    requires RoutesValid(cfg.routes)
    ensures Rule(cfg, b, model, out)
    ensures |asked| <= 2 && (|asked| == 2 ==> asked[0] != asked[1])
    ensures out.Selected? ==> out.selection.index in asked && out.selection.state != Exhausted
    ensures out.Selected? && Listed(cfg.routes, model) ==> out.selection.index < |cfg.routes| && !cfg.routes[out.selection.index].pattern
  {
    var requested, wildcard, fallback := FindRoutes(cfg, model);
    asked := [];
    if requested >= 0 {
      asked := asked + [requested];
      GoverningUsed(cfg, b, model, requested);
      out := Use(cfg, b, requested, cfg.routes[requested].target, cfg.routes[requested].name);
      if out.Rejected? || out.selection.state != Exhausted {
        return;
      }
    }
    if requested < 0 && wildcard >= 0 {
      asked := asked + [wildcard];
      assert BestPattern(cfg.routes, wildcard, model);
      GoverningUsed(cfg, b, model, wildcard);
      out := Use(cfg, b, wildcard, Target(model, ""), "wildcard");
      if out.Rejected? || out.selection.state != Exhausted {
        return;
      }
    }
    GoverningExhausted(cfg, b, model, requested, wildcard);
    var more;
    out, more := TryFallback(cfg, b, model, requested, fallback);
    asked := asked + more;
  }

  /** The part of selectTarget after the model's own budget, if any, was found exhausted. */
  method TryFallback(cfg: Config, b: Budgets, model: string, requested: int, fallback: int) returns (out: Outcome, asked: seq<nat>)
    requires RoutesValid(cfg.routes)
    requires requested == ListedAt(cfg.routes, |cfg.routes|, model)
    requires fallback == if cfg.fallback.Some? then ListedAt(cfg.routes, |cfg.routes|, cfg.fallback.value.model) else -1
    ensures FallbackRule(cfg, b, model, out)
    ensures asked == [] || (|asked| == 1 && asked[0] < |cfg.routes| && asked[0] != requested && !cfg.routes[asked[0]].pattern)
    ensures out.Selected? ==> out.selection.index in asked && out.selection.state != Exhausted
  {
    if cfg.rejects || cfg.fallback.None? {
      return Rejected(429), [];
    }
    asked := [];
    if fallback >= 0 && fallback != requested {
      asked := [fallback];
      OwnFallbackIs(cfg, model, requested, fallback);
      out := Use(cfg, b, fallback, cfg.fallback.value, "fallback");
      if out.Rejected? || out.selection.state != Exhausted {
        return;
      }
    }
    NoFallback(cfg, b, model, requested, fallback);
    out := Rejected(429);
  }

  lemma GoverningUsed(cfg: Config, b: Budgets, model: string, i: nat)
    requires Governs(cfg.routes, i, model)
    ensures CheckBudget(b, i).state != Exhausted ==> Rule(cfg, b, model, UseFirst(cfg, b, model, i))
  {
  }

  /** Whichever budget governs the model has been asked by now, and was exhausted. */
  lemma GoverningExhausted(cfg: Config, b: Budgets, model: string, requested: int, wildcard: int)
    requires RoutesValid(cfg.routes)
    requires requested == ListedAt(cfg.routes, |cfg.routes|, model) && wildcard == BestOf(cfg.routes, |cfg.routes|, model)
    requires requested >= 0 ==> CheckBudget(b, requested).state == Exhausted
    requires requested < 0 && wildcard >= 0 ==> CheckBudget(b, wildcard).state == Exhausted
    ensures forall i :: Governs(cfg.routes, i, model) ==> CheckBudget(b, i).state == Exhausted
  {
  }

  lemma OwnFallbackIs(cfg: Config, model: string, requested: int, fallback: int)
    requires RoutesValid(cfg.routes) && !cfg.rejects && cfg.fallback.Some?
    requires requested == ListedAt(cfg.routes, |cfg.routes|, model)
    requires fallback == ListedAt(cfg.routes, |cfg.routes|, cfg.fallback.value.model)
    requires fallback >= 0 && fallback != requested
    ensures OwnFallback(cfg, fallback, model)
  {
  }

  lemma NoFallback(cfg: Config, b: Budgets, model: string, requested: int, fallback: int)
    requires RoutesValid(cfg.routes) && cfg.fallback.Some?
    requires requested == ListedAt(cfg.routes, |cfg.routes|, model)
    requires fallback == ListedAt(cfg.routes, |cfg.routes|, cfg.fallback.value.model)
    requires fallback >= 0 && fallback != requested ==> CheckBudget(b, fallback).state == Exhausted
    ensures forall i :: OwnFallback(cfg, i, model) ==> CheckBudget(b, i).state == Exhausted
  {
  }
}
