/**
 * Reference counting of shared limiters, as kept by policies/advanced-ratelimit/ratelimit.go (a policy
 * instance holds one limiter per quota) and policies/cost-based-model-routing/budget.go (an instance holds
 * one). A bucket is the record of what one policy instance holds; a build is one (re)load of an instance.
 */
module LimiterLedger {
  datatype Entry = Entry(lim: nat, refs: int)

  /** Limiters are numbered in the order of their creation. */
  datatype Cache = Cache(entries: map<string, Entry>, tracked: map<string, set<string>>, created: nat, closed: set<nat>)

  /** `creates(i)` tells whether a limiter could be created for the quota at `i`, were one needed. */
  datatype Build = Build(bucket: string, keys: seq<string>, creates: nat -> bool)

  const Empty := Cache(map[], map[], 0, {})

  // ---- One build ----

  function TrackedBy(c: Cache, bucket: string): set<string> {
    if bucket in c.tracked then c.tracked[bucket] else {}
  }

  /** Reuse the limiter of a key, counting a reference only if the bucket did not hold it, or create one. */
  function Take(c: Cache, mine: set<string>, k: string): Cache {
    if k in c.entries then
      if k in mine then c else c.(entries := c.entries[k := Entry(c.entries[k].lim, c.entries[k].refs + 1)])
    else
      c.(entries := c.entries[k := Entry(c.created, 1)], created := c.created + 1)
  }

  function TakeAll(c: Cache, mine: set<string>, keys: seq<string>): Cache {
    if keys == [] then c
    else Take(TakeAll(c, mine, keys[..|keys| - 1]), mine, keys[|keys| - 1])
  }

  predicate Obtains(c: Cache, b: Build, i: nat)
    requires i < |b.keys|
  {
    b.keys[i] in c.entries || b.keys[i] in b.keys[..i] || b.creates(i)
  }

  /** How many quotas, from `i` on, get a limiter before a creation fails. */
  function Reached(c: Cache, b: Build, i: nat): (n: nat)
    requires i <= |b.keys|
    ensures i <= n <= |b.keys|
    ensures forall j :: i <= j < n ==> Obtains(c, b, j)
    ensures n < |b.keys| ==> !Obtains(c, b, n)
    decreases |b.keys| - i
  {
    if i == |b.keys| || !Obtains(c, b, i) then i else Reached(c, b, i + 1)
  }

  predicate Succeeds(c: Cache, b: Build) { Reached(c, b, 0) == |b.keys| }

  /** Dropping one reference to each stale key closes the limiters that have no other. */
  function Release(c: Cache, stale: set<string>): Cache {
    c.(entries := map k | k in c.entries && (k in stale ==> c.entries[k].refs > 1) ::
         if k in stale then Entry(c.entries[k].lim, c.entries[k].refs - 1) else c.entries[k],
       closed := c.closed + set k | k in stale && k in c.entries && c.entries[k].refs <= 1 :: c.entries[k].lim)
  }

  function KeySet(keys: seq<string>): set<string> { set k | k in keys }

  function Commit(c: Cache, b: Build): Cache {
    var released := Release(c, TrackedBy(c, b.bucket) - KeySet(b.keys));
    released.(tracked := c.tracked[b.bucket := KeySet(b.keys)])
  }

  /** A failed build keeps the references it had taken and leaves the bucket as it was. */
  function Apply(c: Cache, b: Build): Cache {
    var taken := TakeAll(c, TrackedBy(c, b.bucket), b.keys[..Reached(c, b, 0)]);
    if Succeeds(c, b) then Commit(taken, b) else taken
  }

  function Run(builds: seq<Build>): Cache {
    if builds == [] then Empty else Apply(Run(builds[..|builds| - 1]), builds[|builds| - 1])
  }

  // ---- What the counts mean ----

  function Refs(c: Cache, k: string): int { if k in c.entries then c.entries[k].refs else 0 }

  ghost function Trackers(tracked: map<string, set<string>>, k: string): set<string> {
    set b | b in tracked && k in tracked[b]
  }

  function Occurrences(keys: seq<string>, k: string): nat {
    if keys == [] then 0 else Occurrences(keys[..|keys| - 1], k) + (if keys[|keys| - 1] == k then 1 else 0)
  }

  /** The references to `k` that a build takes and no bucket accounts for. */
  function Surplus(c: Cache, b: Build, k: string): nat {
    var n := Occurrences(b.keys[..Reached(c, b, 0)], k);
    if k in TrackedBy(c, b.bucket) || n == 0 then 0 else if Succeeds(c, b) then n - 1 else n
  }

  function Leaked(builds: seq<Build>, k: string): nat {
    if builds == [] then 0
    else
      var front := builds[..|builds| - 1];
      Leaked(front, k) + Surplus(Run(front), builds[|builds| - 1], k)
  }

  /** The limiters in the map are open, referenced, and one key's each. */
  ghost predicate LimitersSound(c: Cache) {
    && (forall k :: k in c.entries ==> c.entries[k].refs > 0 && c.entries[k].lim < c.created && c.entries[k].lim !in c.closed)
    && (forall j, k :: j in c.entries && k in c.entries && c.entries[j].lim == c.entries[k].lim ==> j == k)
    && (forall l :: l in c.closed ==> l < c.created)
  }

  ghost predicate Held(c: Cache, l: nat) { exists k :: k in c.entries && c.entries[k].lim == l }

  /** Every limiter ever created is closed or still in the map. */
  ghost predicate NoneLost(c: Cache) { forall l: nat :: l < c.created ==> l in c.closed || Held(c, l) }

  ghost predicate CountSound(c: Cache, leaked: nat, k: string) {
    Refs(c, k) == |Trackers(c.tracked, k)| + leaked
  }

  // ---- The counts after a build ----

  lemma {:induction false} OccursIff(keys: seq<string>, k: string)
    ensures Occurrences(keys, k) > 0 <==> k in keys
  {
    if keys != [] {
      var n := |keys| - 1;
      OccursIff(keys[..n], k);
      assert keys == keys[..n] + [keys[n]];
    }
  }

  /** Taking only adds keys: what was in the map keeps its limiter. */
  lemma {:induction false} TakeAllKeys(c: Cache, mine: set<string>, keys: seq<string>, k: string)
    ensures k in TakeAll(c, mine, keys).entries <==> k in c.entries || k in keys
    ensures TakeAll(c, mine, keys).tracked == c.tracked && TakeAll(c, mine, keys).closed == c.closed
    ensures k in c.entries ==> TakeAll(c, mine, keys).entries[k].lim == c.entries[k].lim
  {
    if keys != [] {
      var n := |keys| - 1;
      TakeAllKeys(c, mine, keys[..n], k);
      assert keys == keys[..n] + [keys[n]];
    }
  }

  lemma {:induction false} TakeAllRefs(c: Cache, mine: set<string>, keys: seq<string>, k: string)
    requires forall j :: j in mine ==> j in c.entries
    ensures Refs(TakeAll(c, mine, keys), k) == Refs(c, k) + (if k in mine then 0 else Occurrences(keys, k))
  {
    if keys != [] {
      var n := |keys| - 1;
      TakeAllRefs(c, mine, keys[..n], k);
      TakeAllKeys(c, mine, keys[..n], keys[n]);
    }
  }

  lemma TakeSound(c: Cache, mine: set<string>, k: string)
    requires LimitersSound(c)
    ensures LimitersSound(Take(c, mine, k))
  {
  }

  lemma TakeLosesNone(c: Cache, mine: set<string>, k: string)
    requires NoneLost(c)
    ensures NoneLost(Take(c, mine, k))
  {
    var d := Take(c, mine, k);
    forall l: nat | l < d.created && l !in d.closed ensures Held(d, l) {
      if l == c.created {
        assert d.entries[k].lim == l;
      } else {
        assert Held(c, l);
        var j :| j in c.entries && c.entries[j].lim == l;
        assert j in d.entries && d.entries[j].lim == l;
      }
    }
  }

  lemma {:induction false} TakeAllSound(c: Cache, mine: set<string>, keys: seq<string>)
    requires LimitersSound(c)
    ensures LimitersSound(TakeAll(c, mine, keys))
    ensures NoneLost(c) ==> NoneLost(TakeAll(c, mine, keys))
  {
    if keys != [] {
      var n := |keys| - 1;
      var before := TakeAll(c, mine, keys[..n]);
      TakeAllSound(c, mine, keys[..n]);
      TakeSound(before, mine, keys[n]);
      if NoneLost(c) {
        TakeLosesNone(before, mine, keys[n]);
      }
    }
  }

  lemma ReleaseSound(c: Cache, stale: set<string>)
    requires LimitersSound(c)
    ensures LimitersSound(Release(c, stale))
  {
  }

  lemma ReleaseLosesNone(c: Cache, stale: set<string>)
    requires NoneLost(c)
    ensures NoneLost(Release(c, stale))
  {
    var d := Release(c, stale);
    forall l: nat | l < d.created && l !in d.closed ensures Held(d, l) {
      assert Held(c, l);
      var k :| k in c.entries && c.entries[k].lim == l;
      assert k in d.entries;
    }
  }

  /** Committing changes the trackers of a key by the one bucket. */
  lemma TrackersUpdate(tracked: map<string, set<string>>, bucket: string, keys: set<string>, k: string)
    ensures |Trackers(tracked[bucket := keys], k)| == |Trackers(tracked, k)|
      - (if bucket in tracked && k in tracked[bucket] then 1 else 0) + (if k in keys then 1 else 0)
  {
    var others := Trackers(tracked, k) - {bucket};
    assert Trackers(tracked[bucket := keys], k) == if k in keys then others + {bucket} else others;
    assert Trackers(tracked, k) == if bucket in tracked && k in tracked[bucket] then others + {bucket} else others;
  }

  lemma ReleaseRefs(c: Cache, stale: set<string>, k: string)
    requires k in stale ==> Refs(c, k) > 0
    requires k in c.entries ==> Refs(c, k) > 0
    ensures Refs(Release(c, stale), k) == Refs(c, k) - (if k in stale then 1 else 0)
    ensures Release(c, stale).tracked == c.tracked
  {
  }

  lemma ApplyLimiters(c: Cache, b: Build)
    requires LimitersSound(c) && NoneLost(c)
    ensures LimitersSound(Apply(c, b)) && NoneLost(Apply(c, b))
  {
    var mine, keys := TrackedBy(c, b.bucket), b.keys[..Reached(c, b, 0)];
    var taken := TakeAll(c, mine, keys);
    TakeAllSound(c, mine, keys);
    var stale := TrackedBy(taken, b.bucket) - KeySet(b.keys);
    ReleaseSound(taken, stale);
    ReleaseLosesNone(taken, stale);
  }

  ghost predicate TrackedPresent(c: Cache, bucket: string) {
    forall k :: k in TrackedBy(c, bucket) ==> k in c.entries
  }

  /** After a build each count has moved by the change in the key's trackers and by the surplus. */
  lemma ApplyCounts(c: Cache, b: Build, leaked: nat, k: string)
    requires LimitersSound(c) && TrackedPresent(c, b.bucket) && CountSound(c, leaked, k)
    ensures CountSound(Apply(c, b), leaked + Surplus(c, b, k), k)
  {
    var mine, keys := TrackedBy(c, b.bucket), b.keys[..Reached(c, b, 0)];
    var taken := TakeAll(c, mine, keys);
    TakeAllRefs(c, mine, keys, k);
    TakeAllKeys(c, mine, keys, k);
    OccursIff(keys, k);
    if Succeeds(c, b) {
      assert keys == b.keys;
      TakeAllSound(c, mine, keys);
      ReleaseRefs(taken, mine - KeySet(b.keys), k);
      TrackersUpdate(c.tracked, b.bucket, KeySet(b.keys), k);
    }
  }

  /** In every reachable state the open limiters are exactly those in the map, one key each. */
  lemma {:induction false} RunLimiters(builds: seq<Build>)
    ensures LimitersSound(Run(builds)) && NoneLost(Run(builds))
  {
    if builds != [] {
      RunLimiters(builds[..|builds| - 1]);
      ApplyLimiters(Run(builds[..|builds| - 1]), builds[|builds| - 1]);
    }
  }

  /**
   * In every reachable state, failed builds and repeated keys included, a count is the number of buckets
   * tracking the key plus the references leaked so far.
   */
  lemma {:induction false} RunCounts(builds: seq<Build>, k: string)
    ensures Refs(Run(builds), k) == |Trackers(Run(builds).tracked, k)| + Leaked(builds, k)
  {
    if builds == [] {
      assert Trackers(Empty.tracked, k) == {};
    } else {
      var front, b := builds[..|builds| - 1], builds[|builds| - 1];
      RunCounts(front, k);
      RunLimiters(front);
      forall j | j in TrackedBy(Run(front), b.bucket) ensures j in Run(front).entries {
        RunCounts(front, j);
        assert b.bucket in Trackers(Run(front).tracked, j);
      }
      ApplyCounts(Run(front), b, Leaked(front, k), k);
    }
  }

  lemma Extend(builds: seq<Build>, b: Build, k: string)
    ensures Run(builds + [b]) == Apply(Run(builds), b)
    ensures Leaked(builds + [b], k) == Leaked(builds, k) + Surplus(Run(builds), b, k)
  {
  }

  // ---- What follows for every run ----

  /** Whatever a bucket tracks is in the map, open, and counted at least once per tracking bucket. */
  lemma TrackedIsOpen(builds: seq<Build>, bucket: string, k: string)
    requires k in TrackedBy(Run(builds), bucket)
    ensures var c := Run(builds);
      && k in c.entries && c.entries[k].lim < c.created && c.entries[k].lim !in c.closed
      && Refs(c, k) >= |Trackers(c.tracked, k)| > 0
  {
    RunLimiters(builds);
    RunCounts(builds, k);
    assert bucket in Trackers(Run(builds).tracked, k);
  }

  /** No reference to `k` is taken in vain: the build fails before `k`, or takes it once, or held it already. */
  predicate TakesOnce(c: Cache, b: Build, k: string) {
    k in TrackedBy(c, b.bucket) ||
    (if Succeeds(c, b) then Occurrences(b.keys, k) <= 1 else k !in b.keys[..Reached(c, b, 0)])
  }

  lemma NoSurplus(c: Cache, b: Build, k: string)
    ensures Surplus(c, b, k) == 0 <==> TakesOnce(c, b, k)
  {
    OccursIff(b.keys[..Reached(c, b, 0)], k);
    if Succeeds(c, b) {
      assert b.keys[..Reached(c, b, 0)] == b.keys;
    }
  }

  ghost predicate AllTakeOnce(builds: seq<Build>, k: string) {
    forall i :: 0 <= i < |builds| ==> TakesOnce(Run(builds[..i]), builds[i], k)
  }

  lemma AllTakeOnceSnoc(builds: seq<Build>, b: Build, k: string)
    ensures AllTakeOnce(builds + [b], k) <==> AllTakeOnce(builds, k) && TakesOnce(Run(builds), b, k)
  {
    var all := builds + [b];
    assert forall i :: 0 <= i < |builds| ==> all[..i] == builds[..i] && all[i] == builds[i];
    assert all[..|builds|] == builds;
    if AllTakeOnce(all, k) {
      assert TakesOnce(Run(all[..|builds|]), all[|builds|], k);
      forall i | 0 <= i < |builds| ensures TakesOnce(Run(builds[..i]), builds[i], k) {
        assert TakesOnce(Run(all[..i]), all[i], k);
      }
    }
  }

  lemma {:induction false} LeakedNone(builds: seq<Build>, k: string)
    ensures Leaked(builds, k) == 0 <==> AllTakeOnce(builds, k)
  {
    if builds != [] {
      var front, b := builds[..|builds| - 1], builds[|builds| - 1];
      assert builds == front + [b];
      LeakedNone(front, k);
      Extend(front, b, k);
      AllTakeOnceSnoc(front, b, k);
      NoSurplus(Run(front), b, k);
    }
  }

  /** The count of a key is exactly its number of buckets if and only if every build so far took it once. */
  lemma ExactIff(builds: seq<Build>, k: string)
    ensures Refs(Run(builds), k) == |Trackers(Run(builds).tracked, k)| <==> AllTakeOnce(builds, k)
  {
    RunCounts(builds, k);
    LeakedNone(builds, k);
  }

  /** A build either keeps a key's limiter or closes it. */
  lemma KeptOrClosed(c: Cache, b: Build, k: string)
    requires k in c.entries
    ensures var d, l := Apply(c, b), c.entries[k].lim;
      if k in d.entries then d.entries[k].lim == l else l in d.closed
  {
    TakeAllKeys(c, TrackedBy(c, b.bucket), b.keys[..Reached(c, b, 0)], k);
  }

  lemma RunKept(builds: seq<Build>, b: Build, k: string)
    requires k in Run(builds).entries
    ensures var c, d := Run(builds), Run(builds + [b]);
      if k in d.entries then d.entries[k].lim == c.entries[k].lim else c.entries[k].lim in d.closed
  {
    Extend(builds, b, k);
    KeptOrClosed(Run(builds), b, k);
  }

  /**
   * A limiter is closed by a build exactly when the build leaves its key with no bucket and the key has
   * no leaked reference.
   */
  lemma ClosedExactly(builds: seq<Build>, b: Build, k: string)
    requires k in Run(builds).entries
    ensures var c, d := Run(builds), Run(builds + [b]);
      c.entries[k].lim in d.closed <==> Trackers(d.tracked, k) == {} && Leaked(builds + [b], k) == 0
  {
    RunKept(builds, b, k);
    RunLimiters(builds + [b]);
    RunCounts(builds + [b], k);
  }

  lemma {:induction false} LeakedGrows(builds: seq<Build>, more: seq<Build>, k: string)
    ensures Leaked(builds, k) <= Leaked(builds + more, k)
  {
    if more == [] {
      assert builds + more == builds;
    } else {
      var n := |more| - 1;
      var before := builds + more[..n];
      LeakedGrows(builds, more[..n], k);
      assert builds + more == before + [more[n]];
      Extend(before, more[n], k);
    }
  }

  /** A limiter with a leaked reference is never closed again, whatever is reloaded later. */
  lemma {:induction false} LeakedForever(builds: seq<Build>, more: seq<Build>, k: string)
    requires Leaked(builds, k) > 0
    ensures k in Run(builds).entries && k in Run(builds + more).entries
    ensures Run(builds + more).entries[k].lim == Run(builds).entries[k].lim
  {
    RunCounts(builds, k);
    if more == [] {
      assert builds + more == builds;
    } else {
      var n := |more| - 1;
      var before := builds + more[..n];
      LeakedForever(builds, more[..n], k);
      assert builds + more == before + [more[n]];
      LeakedGrows(builds, more, k);
      RunCounts(before + [more[n]], k);
      RunKept(before, more[n], k);
    }
  }

  lemma StillTracked(builds: seq<Build>, b: Build, bucket: string, k: string)
    requires k in TrackedBy(Run(builds), bucket)
    requires b.bucket == bucket ==> k in b.keys
    ensures k in TrackedBy(Run(builds + [b]), bucket)
  {
    var c := Run(builds);
    Extend(builds, b, k);
    TakeAllKeys(c, TrackedBy(c, b.bucket), b.keys[..Reached(c, b, 0)], k);
  }

  /**
   * An instance keeps its limiter: as long as the bucket is only rebuilt with the key still wanted, every
   * later state holds the very same limiter under it, open.
   */
  lemma {:induction false} LimiterStays(builds: seq<Build>, more: seq<Build>, bucket: string, k: string)
    requires k in TrackedBy(Run(builds), bucket)
    requires forall i :: 0 <= i < |more| ==> more[i].bucket == bucket ==> k in more[i].keys
    ensures k in TrackedBy(Run(builds + more), bucket)
    ensures k in Run(builds).entries && k in Run(builds + more).entries
    ensures Run(builds + more).entries[k].lim == Run(builds).entries[k].lim
    ensures Run(builds + more).entries[k].lim !in Run(builds + more).closed
  {
    TrackedIsOpen(builds, bucket, k);
    if more == [] {
      assert builds + more == builds;
    } else {
      var n := |more| - 1;
      var before := builds + more[..n];
      LimiterStays(builds, more[..n], bucket, k);
      assert builds + more == before + [more[n]];
      StillTracked(before, more[n], bucket, k);
      TrackedIsOpen(builds + more, bucket, k);
      RunKept(before, more[n], k);
    }
  }

  ghost predicate PairwiseDistinct(keys: seq<string>) {
    forall i, j :: 0 <= i < j < |keys| ==> keys[i] != keys[j]
  }

  lemma {:induction false} OccursOnce(keys: seq<string>, k: string)
    requires PairwiseDistinct(keys)
    ensures Occurrences(keys, k) <= 1
  {
    if keys != [] {
      var n := |keys| - 1;
      OccursOnce(keys[..n], k);
      OccursIff(keys[..n], k);
    }
  }

  /** Builds that a caller knows to be harmless: no limiter creation fails, and no key is repeated. */
  ghost predicate Harmless(builds: seq<Build>) {
    forall i :: 0 <= i < |builds| ==> PairwiseDistinct(builds[i].keys) && forall j: nat :: j < |builds[i].keys| ==> builds[i].creates(j)
  }

  lemma HarmlessTakesOnce(c: Cache, b: Build, k: string)
    requires PairwiseDistinct(b.keys) && forall j: nat :: j < |b.keys| ==> b.creates(j)
    ensures Succeeds(c, b) && TakesOnce(c, b, k)
  {
    OccursOnce(b.keys, k);
  }

  /** When all builds are harmless, counts are exact, and a limiter is closed exactly with its last bucket. */
  lemma HarmlessExact(builds: seq<Build>, b: Build, k: string)
    requires Harmless(builds + [b])
    ensures Refs(Run(builds), k) == |Trackers(Run(builds).tracked, k)|
    ensures k in Run(builds).entries ==>
      (Run(builds).entries[k].lim in Run(builds + [b]).closed <==> Trackers(Run(builds + [b]).tracked, k) == {})
  {
    var all := builds + [b];
    forall i | 0 <= i < |all| ensures TakesOnce(Run(all[..i]), all[i], k) {
      HarmlessTakesOnce(Run(all[..i]), all[i], k);
    }
    AllTakeOnceSnoc(builds, b, k);
    ExactIff(builds, k);
    LeakedNone(all, k);
    if k in Run(builds).entries {
      ClosedExactly(builds, b, k);
    }
  }

  /** A build that fails at its second key keeps the reference it took to the first, with no bucket to show for it. */
  lemma HalfwayLeaks(bucket: string, j: string, k: string, creates: nat -> bool)
    requires j != k && creates(0) && !creates(1)
    ensures var builds := [Build(bucket, [j, k], creates)];
      Leaked(builds, j) == 1 && j in Run(builds).entries && Trackers(Run(builds).tracked, j) == {}
  {
    var b := Build(bucket, [j, k], creates);
    assert [b] == [] + [b];
    Extend([], b, j);
    FailsHalfway(b, j, k);
    RunCounts([b], j);
  }

  lemma FailsHalfway(b: Build, j: string, k: string)
    requires b.keys == [j, k] && j != k && b.creates(0) && !b.creates(1)
    ensures Surplus(Empty, b, j) == 1 && Apply(Empty, b).tracked == map[]
  {
    assert Obtains(Empty, b, 0) && b.keys[..1] == [j] && !Obtains(Empty, b, 1);
    assert Reached(Empty, b, 1) == 1 && [j][..0] == [];
    assert Occurrences([j], j) == 1;
    TakeAllKeys(Empty, {}, [j], j);
  }

  /** Two quotas with the same key take one reference too many: the limiter outlives its only bucket. */
  lemma RepeatedKeyLeaks(bucket: string, k: string, creates: nat -> bool)
    requires creates(0)
    ensures var builds := [Build(bucket, [k, k], creates), Build(bucket, [], creates)];
      && Trackers(Run(builds).tracked, k) == {} && Leaked(builds, k) > 0
      && k in Run(builds).entries
  {
    var first, second := Build(bucket, [k, k], creates), Build(bucket, [], creates);
    assert [first] == [] + [first] && [first, second] == [first] + [second];
    Extend([], first, k);
    Extend([first], second, k);
    var c := Run([first]);
    TwiceTaken(first, k);
    NothingWanted(c, second);
    RunCounts([first, second], k);
  }

  lemma NothingWanted(c: Cache, b: Build)
    requires b.keys == []
    ensures Apply(c, b).tracked == c.tracked[b.bucket := {}]
  {
    assert Reached(c, b, 0) == 0 && b.keys[..0] == [];
    assert KeySet([]) == {};
  }

  lemma TwiceTaken(b: Build, k: string)
    requires b.keys == [k, k] && b.creates(0)
    ensures Succeeds(Empty, b) && Surplus(Empty, b, k) == 1
    ensures Apply(Empty, b).tracked == map[b.bucket := {k}]
  {
    assert Obtains(Empty, b, 0) && b.keys[..1] == [k] && Obtains(Empty, b, 1);
    assert Reached(Empty, b, 2) == 2 && Reached(Empty, b, 1) == 2;
    assert b.keys[..2] == [k, k] && [k, k][..1] == [k] && [k][..0] == [];
    assert Occurrences([k], k) == 1;
    TakeAllKeys(Empty, {}, [k, k], k);
    assert KeySet(b.keys) == {k};
  }
}
