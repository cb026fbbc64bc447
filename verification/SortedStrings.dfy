/** Go's byte-wise string order, sorting, and the unique sorted listing of a set of strings. */
module SortedStrings {
  import opened Bytes

  predicate Less(a: Bytes, b: Bytes) {
    b != [] && (a == [] || a[0] < b[0] || (a[0] == b[0] && Less(a[1..], b[1..])))
  }

  lemma LessTotal(a: Bytes, b: Bytes)
    ensures a == b || Less(a, b) || Less(b, a)
    ensures !(Less(a, b) && Less(b, a))
    ensures !Less(a, a)
  {
  }

  lemma LessTransitive(a: Bytes, b: Bytes, c: Bytes)
    requires Less(a, b) && Less(b, c)
    ensures Less(a, c)
  {
  }

  ghost predicate StrictlySorted(s: seq<Bytes>) {
    forall i, j :: 0 <= i < j < |s| ==> Less(s[i], s[j])
  }

  ghost predicate SameElements(s: seq<Bytes>, t: set<Bytes>) {
    forall k :: k in s <==> k in t
  }

  lemma FirstIsMember(s: seq<Bytes>)
    ensures s == [] || s[0] in s
  {
  }

  /** A set has only one strictly sorted listing. */
  lemma {:induction false} SortedUnique(a: seq<Bytes>, b: seq<Bytes>)
    requires StrictlySorted(a) && StrictlySorted(b)
    requires forall k :: k in a <==> k in b
    ensures a == b
  {
    if a == [] {
      FirstIsMember(b);
    } else if b == [] {
      FirstIsMember(a);
    } else {
      assert a[0] in b && b[0] in a;
      LessTotal(a[0], b[0]);
      assert a[0] == b[0];
      forall k ensures k in a[1..] <==> k in b[1..] {
        LessTotal(k, k);
        assert k in a[1..] ==> k in a;
        assert k in b[1..] ==> k in b;
      }
      SortedUnique(a[1..], b[1..]);
      assert a == [a[0]] + a[1..] && b == [b[0]] + b[1..];
    }
  }

  function Insert(k: Bytes, s: seq<Bytes>): (r: seq<Bytes>)
    ensures |r| == |s| + 1
  {
    if s == [] || Less(k, s[0]) then [k] + s else [s[0]] + Insert(k, s[1..])
  }

  lemma {:induction false} InsertSorted(k: Bytes, s: seq<Bytes>)
    requires StrictlySorted(s) && k !in s
    ensures StrictlySorted(Insert(k, s))
    ensures forall x :: x in Insert(k, s) <==> x == k || x in s
  {
    if s == [] {
    } else if Less(k, s[0]) {
      forall j | 0 <= j < |s| ensures Less(k, s[j]) {
        if j > 0 { LessTransitive(k, s[0], s[j]); }
      }
    } else {
      LessTotal(k, s[0]);
      InsertSorted(k, s[1..]);
      var r := Insert(k, s[1..]);
      forall j | 0 <= j < |r| ensures Less(s[0], r[j]) {
        assert r[j] in r;
        assert r[j] == k || r[j] in s[1..];
      }
      assert Insert(k, s) == [s[0]] + r;
      assert forall x :: x in s <==> x == s[0] || x in s[1..];
    }
  }

  function Sort(s: seq<Bytes>): (r: seq<Bytes>)
    ensures |r| == |s|
  {
    if s == [] then [] else Insert(s[0], Sort(s[1..]))
  }

  ghost predicate Distinct(s: seq<Bytes>) {
    forall i, j :: 0 <= i < j < |s| ==> s[i] != s[j]
  }

  lemma {:induction false} SortSorts(s: seq<Bytes>)
    requires Distinct(s)
    ensures StrictlySorted(Sort(s))
    ensures forall x :: x in Sort(s) <==> x in s
  {
    if s != [] {
      SortSorts(s[1..]);
      assert s[0] !in s[1..];
      InsertSorted(s[0], Sort(s[1..]));
      assert forall x :: x in s <==> x == s[0] || x in s[1..];
    }
  }

  /** The keys of a map in the order `sort.Strings` puts them. */
  ghost function SortedKeys(ks: set<Bytes>): (r: seq<Bytes>)
    ensures StrictlySorted(r) && SameElements(r, ks) && |r| == |ks|
  {
    if ks == {} then [] else
      var k :| k in ks;
      var rest := SortedKeys(ks - {k});
      InsertSorted(k, rest);
      Insert(k, rest)
  }

  lemma {:induction false} SortedKeysInjective(a: set<Bytes>, b: set<Bytes>)
    requires SortedKeys(a) == SortedKeys(b)
    ensures a == b
  {
  }

  /** Sorting any listing of a set gives the same result, whatever order the listing was in. */
  lemma {:induction false} SortIgnoresOrder(s: seq<Bytes>, ks: set<Bytes>)
    requires Distinct(s) && SameElements(s, ks)
    ensures Sort(s) == SortedKeys(ks)
  {
    SortSorts(s);
    SortedUnique(Sort(s), SortedKeys(ks));
  }
}
