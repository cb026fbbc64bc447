/** The limiter cache of policies/advanced-ratelimit/ratelimit.go, shared by all policy instances of a process. */
module LimiterCaches {
  import opened Common
  import opened LimiterLedger

  // ---- Steps of the loops ----

  lemma ReachedIs(c: Cache, b: Build, n: nat)
    requires n <= |b.keys| && (forall i :: 0 <= i < n ==> Obtains(c, b, i))
    requires n == |b.keys| || !Obtains(c, b, n)
    ensures Reached(c, b, 0) == n
  {
  }

  lemma TakeNext(c: Cache, mine: set<string>, keys: seq<string>, i: nat)
    requires i < |keys|
    ensures TakeAll(c, mine, keys[..i + 1]) == Take(TakeAll(c, mine, keys[..i]), mine, keys[i])
    ensures keys[i] in TakeAll(c, mine, keys[..i]).entries <==> keys[i] in c.entries || keys[i] in keys[..i]
  {
    assert keys[..i + 1][..i] == keys[..i];
    TakeAllKeys(c, mine, keys[..i], keys[i]);
  }

  /** One key's share of a release. */
  function ReleaseOne(c: Cache, k: string): Cache {
    if k !in c.entries then c
    else if c.entries[k].refs <= 1 then c.(entries := c.entries - {k}, closed := c.closed + {c.entries[k].lim})
    else c.(entries := c.entries[k := Entry(c.entries[k].lim, c.entries[k].refs - 1)])
  }

  lemma ReleaseNext(c: Cache, done: set<string>, k: string)
    requires k !in done
    ensures Release(c, done + {k}) == ReleaseOne(Release(c, done), k)
  {
  }

  lemma ReleaseNothing(c: Cache)
    ensures Release(c, {}) == c
  {
  }

  /** The limiters handed out are those the map holds for the keys. */
  predicate Handed(entries: map<string, Entry>, keys: seq<string>, limiters: seq<nat>) {
    |limiters| == |keys| && forall i :: 0 <= i < |keys| ==> keys[i] in entries && limiters[i] == entries[keys[i]].lim
  }

  lemma HandedNext(c: Cache, mine: set<string>, keys: seq<string>, limiters: seq<nat>, i: nat)
    requires i < |keys| && Handed(c.entries, keys[..i], limiters)
    ensures var d := Take(c, mine, keys[i]);
      keys[i] in d.entries && Handed(d.entries, keys[..i + 1], limiters + [d.entries[keys[i]].lim])
  {
  }

  lemma HandedKept(c: Cache, mine: set<string>, keys: seq<string>, limiters: seq<nat>)
    requires Handed(c.entries, keys, limiters)
    ensures Handed(Release(c, mine - KeySet(keys)).entries, keys, limiters)
  {
  }

  class LimiterCache {
    var byQuotaKey: map<string, Entry>
    var quotaKeysByBaseKey: map<string, set<string>>
    var created: nat
    var closed: set<nat>

    ghost function View(): Cache
      reads this
    {
      Cache(byQuotaKey, quotaKeysByBaseKey, created, closed)
    }

    constructor ()
      ensures View() == Empty
    {
      byQuotaKey, quotaKeysByBaseKey, created, closed := map[], map[], 0, {};
    }

    /**
     * The reconciliation of GetPolicy: fails exactly when a needed limiter cannot be created, and otherwise
     * hands out the limiters now cached for the quota keys.
     */
    method Reconcile(bucket: string, keys: seq<string>, creates: nat -> bool) returns (r: Option<seq<nat>>)
      modifies this
      ensures View() == Apply(old(View()), Build(bucket, keys, creates))
      ensures r.Some? <==> forall i :: 0 <= i < |keys| ==> Obtains(old(View()), Build(bucket, keys, creates), i)
      ensures r.Some? ==> Handed(byQuotaKey, keys, r.value)
    {
      var mine := if bucket in quotaKeysByBaseKey then quotaKeysByBaseKey[bucket] else {};
      var desired := set k | k in keys;
      r := TakeKeys(bucket, mine, keys, creates);
      if r.None? {
        return;
      }
      assert keys[..|keys|] == keys;
      HandedKept(View(), mine, keys, r.value);
      TakeAllKeys(old(View()), mine, keys, "");
      ReleaseStale(mine, desired);
      quotaKeysByBaseKey := quotaKeysByBaseKey[bucket := desired];
    }

    /** The loop over the quotas, up to the first creation that fails. */
    method TakeKeys(ghost bucket: string, mine: set<string>, keys: seq<string>, creates: nat -> bool) returns (r: Option<seq<nat>>)
      modifies this
      ensures var c, b := old(View()), Build(bucket, keys, creates);
        && View() == TakeAll(c, mine, keys[..Reached(c, b, 0)])
        && (r.Some? <==> Succeeds(c, b))
      ensures r.Some? ==> Handed(byQuotaKey, keys, r.value)
    {
      ghost var c, b := View(), Build(bucket, keys, creates);
      var limiters := [];
      var i := 0;
      while i < |keys|
        invariant 0 <= i <= |keys|
        invariant View() == TakeAll(c, mine, keys[..i])
        invariant forall j :: 0 <= j < i ==> Obtains(c, b, j)
        invariant Handed(byQuotaKey, keys[..i], limiters)
      {
        TakeNext(c, mine, keys, i);
        HandedNext(View(), mine, keys, limiters, i);
        var lim := TakeOne(mine, keys[i], creates(i));
        if lim.None? {
          ReachedIs(c, b, i);
          return None;
        }
        limiters := limiters + [lim.value];
        i := i + 1;
      }
      ReachedIs(c, b, i);
      assert keys[..i] == keys;
      r := Some(limiters);
    }

    method TakeOne(mine: set<string>, k: string, creates: bool) returns (r: Option<nat>)
      modifies this
      ensures r.Some? <==> k in old(byQuotaKey) || creates
      ensures View() == if r.Some? then Take(old(View()), mine, k) else old(View())
      ensures r.Some? ==> k in byQuotaKey && r.value == byQuotaKey[k].lim
    {
      if k in byQuotaKey {
        if k !in mine {
          byQuotaKey := byQuotaKey[k := Entry(byQuotaKey[k].lim, byQuotaKey[k].refs + 1)];
        }
      } else {
        if !creates {
          return None;
        }
        byQuotaKey := byQuotaKey[k := Entry(created, 1)];
        created := created + 1;
      }
      r := Some(byQuotaKey[k].lim);
    }

    /** The clean-up loop, in whatever order the old keys come. */
    method ReleaseStale(mine: set<string>, desired: set<string>)
      modifies this
      ensures View() == Release(old(View()), mine - desired)
    {
      ghost var c := View();
      var done: set<string> := {};
      ReleaseNothing(c);
      assert {} - desired == {};
      while exists k :: k in mine && k !in done
        invariant done <= mine && View() == Release(c, done - desired)
        decreases mine - done
      {
        var k :| k in mine && k !in done;
        if k !in desired {
          assert done + {k} - desired == done - desired + {k};
          ReleaseNext(c, done - desired, k);
          if k in byQuotaKey {
            var entry := Entry(byQuotaKey[k].lim, byQuotaKey[k].refs - 1);
            if entry.refs <= 0 {
              closed := closed + {entry.lim};
              byQuotaKey := byQuotaKey - {k};
            } else {
              byQuotaKey := byQuotaKey[k := entry];
            }
          }
        } else {
          assert done + {k} - desired == done - desired;
        }
        done := done + {k};
      }
      assert done == mine;
    }
  }
}
