/** The limiter cache of policies/cost-based-model-routing/budget.go: each policy instance holds one limiter. */
module BudgetLimiters {
  import opened Common
  import opened LimiterLedger
  import opened LimiterCaches

  function Load(cacheKey: string, reconcileKey: string, creates: bool): Build {
    Build(reconcileKey, [cacheKey], _ => creates)
  }

  ghost predicate Loads(builds: seq<Build>) { forall i :: 0 <= i < |builds| ==> |builds[i].keys| == 1 }

  lemma LoadTakesOnce(c: Cache, b: Build, k: string)
    requires |b.keys| == 1
    ensures TakesOnce(c, b, k)
  {
  }

  /**
   * In every reachable state, failed creations included, the count of a key is the number of instances that
   * name it; so a key is cached exactly while some instance names it.
   */
  lemma LoadCounts(builds: seq<Build>, k: string)
    requires Loads(builds)
    ensures var c := Run(builds);
      && Refs(c, k) == |Trackers(c.tracked, k)|
      && (k in c.entries <==> Trackers(c.tracked, k) != {})
  {
    forall i | 0 <= i < |builds| ensures TakesOnce(Run(builds[..i]), builds[i], k) {
      LoadTakesOnce(Run(builds[..i]), builds[i], k);
    }
    ExactIff(builds, k);
    RunLimiters(builds);
  }

  /** A limiter is closed by a load exactly when the last instance naming its key leaves it. */
  lemma ClosedWithLastInstance(builds: seq<Build>, b: Build, k: string)
    requires Loads(builds + [b]) && k in Run(builds).entries
    ensures var c, d := Run(builds), Run(builds + [b]);
      c.entries[k].lim in d.closed <==> Trackers(d.tracked, k) == {}
  {
    ClosedExactly(builds, b, k);
    LoadCounts(builds + [b], k);
    RunCounts(builds + [b], k);
  }

  function Tracked(reconcile: map<string, string>): map<string, set<string>> {
    map r | r in reconcile :: {reconcile[r]}
  }

  lemma ReleaseSingle(c: Cache, k: string)
    ensures Release(c, {k}) == ReleaseOne(c, k)
  {
  }

  /** The cache after a successful load by an instance that held `previous`, if it held anything. */
  function Loaded(c: Cache, cacheKey: string, reconcileKey: string, previous: Option<string>): Cache {
    var taken := Take(c, if previous.Some? then {previous.value} else {}, cacheKey);
    var left := if previous.Some? && previous.value != cacheKey then ReleaseOne(taken, previous.value) else taken;
    left.(tracked := c.tracked[reconcileKey := {cacheKey}])
  }

  lemma LoadSteps(c: Cache, cacheKey: string, reconcileKey: string, creates: bool, previous: Option<string>)
    requires TrackedBy(c, reconcileKey) == if previous.Some? then {previous.value} else {}
    ensures Apply(c, Load(cacheKey, reconcileKey, creates)) ==
      if cacheKey in c.entries || creates then Loaded(c, cacheKey, reconcileKey, previous) else c
  {
    var b, mine := Load(cacheKey, reconcileKey, creates), TrackedBy(c, reconcileKey);
    assert b.keys[..0] == [] && TakeAll(c, mine, []) == c;
    if cacheKey in c.entries || creates {
      assert Obtains(c, b, 0);
      assert b.keys[..1] == [cacheKey] && KeySet([cacheKey]) == {cacheKey};
      var taken := Take(c, mine, cacheKey);
      assert TakeAll(c, mine, [cacheKey]) == taken && taken.tracked == c.tracked;
      assert mine - {cacheKey} == if previous.Some? && previous.value != cacheKey then {previous.value} else {};
      ReleaseNothing(taken);
      if previous.Some? {
        ReleaseSingle(taken, previous.value);
      }
    }
  }

  /** Reloading an instance with an unchanged configuration changes nothing: it keeps the very same limiter. */
  lemma ReloadUnchanged(builds: seq<Build>, cacheKey: string, reconcileKey: string, creates: bool)
    requires TrackedBy(Run(builds), reconcileKey) == {cacheKey}
    ensures cacheKey in Run(builds).entries
    ensures Run(builds + [Load(cacheKey, reconcileKey, creates)]) == Run(builds)
  {
    TrackedIsOpen(builds, reconcileKey, cacheKey);
    LoadSteps(Run(builds), cacheKey, reconcileKey, creates, Some(cacheKey));
    Extend(builds, Load(cacheKey, reconcileKey, creates), cacheKey);
    assert Run(builds).tracked[reconcileKey := {cacheKey}] == Run(builds).tracked;
  }

  lemma TrackedUpdate(reconcile: map<string, string>, r: string, k: string)
    ensures Tracked(reconcile[r := k]) == Tracked(reconcile)[r := {k}]
  {
  }

  class LimiterCache {
    var entries: map<string, Entry>
    var reconcile: map<string, string>
    var created: nat
    var closed: set<nat>

    ghost function View(): Cache
      reads this
    {
      Cache(entries, Tracked(reconcile), created, closed)
    }

    constructor ()
      ensures View() == Empty && reconcile == map[]
    {
      entries, reconcile, created, closed := map[], map[], 0, {};
    }

    /** sharedLimiter: fails exactly when a needed limiter cannot be created, and then changes nothing. */
    method SharedLimiter(cacheKey: string, reconcileKey: string, creates: bool) returns (r: Option<nat>)
      modifies this
      ensures View() == Apply(old(View()), Load(cacheKey, reconcileKey, creates))
      ensures r.Some? <==> cacheKey in old(entries) || creates
      ensures r.None? ==> View() == old(View())
      ensures r.Some? ==> reconcile == old(reconcile)[reconcileKey := cacheKey]
      ensures r.Some? ==> cacheKey in entries && r.value == entries[cacheKey].lim
    {
      var previous := if reconcileKey in reconcile then Some(reconcile[reconcileKey]) else None;
      LoadSteps(View(), cacheKey, reconcileKey, creates, previous);
      if cacheKey !in entries && !creates {
        return None;
      }
      TakeShared(cacheKey, previous);
      TrackedUpdate(reconcile, reconcileKey, cacheKey);
      reconcile := reconcile[reconcileKey := cacheKey];
      if previous.Some? && previous.value != cacheKey {
        ReleaseStale(previous.value);
      }
      r := Some(entries[cacheKey].lim);
    }

    method TakeShared(cacheKey: string, previous: Option<string>)
      modifies this
      ensures View() == Take(old(View()), if previous.Some? then {previous.value} else {}, cacheKey)
      ensures reconcile == old(reconcile)
    {
      if cacheKey in entries {
        if previous.None? || previous.value != cacheKey {
          entries := entries[cacheKey := Entry(entries[cacheKey].lim, entries[cacheKey].refs + 1)];
        }
      } else {
        entries := entries[cacheKey := Entry(created, 1)];
        created := created + 1;
      }
    }

    method ReleaseStale(k: string)
      modifies this
      ensures View() == ReleaseOne(old(View()), k) && reconcile == old(reconcile)
    {
      if k in entries {
        var stale := Entry(entries[k].lim, entries[k].refs - 1);
        if stale.refs <= 0 {
          closed := closed + {stale.lim};
          entries := entries - {k};
        } else {
          entries := entries[k := stale];
        }
      }
    }
  }
}
