/** Facts about concatenation and filtering that the encoders, parsers and filters lean on. */
module Sequences {
  lemma Assoc<T>(a: seq<T>, b: seq<T>, c: seq<T>)
    ensures (a + b) + c == a + (b + c)
  {
  }

  /** Cancels equal-length prefixes of two concatenations. */
  lemma SplitConcat<T>(a: seq<T>, b: seq<T>, r: seq<T>, s: seq<T>)
    requires |a| == |b|
    requires a + r == b + s
    ensures a == b && r == s
  {
    assert a == (a + r)[..|a|] && b == (b + s)[..|a|];
    assert r == (a + r)[|a|..] && s == (b + s)[|a|..];
  }

  function Filter<T>(keep: T -> bool, s: seq<T>): (r: seq<T>)
    ensures |r| <= |s|
  {
    if s == [] then []
    else
      var last := s[|s| - 1];
      Filter(keep, s[..|s| - 1]) + (if keep(last) then [last] else [])
  }

  /** What is kept stands at an increasing list of positions, and those are all the positions that pass. */
  lemma {:induction false} FilterInOrder<T>(keep: T -> bool, s: seq<T>) returns (at: seq<int>)
    ensures |at| == |Filter(keep, s)|
    ensures forall i :: 0 <= i < |at| ==> 0 <= at[i] < |s| && Filter(keep, s)[i] == s[at[i]]
    ensures forall i, j :: 0 <= i < j < |at| ==> at[i] < at[j]
    ensures forall k :: 0 <= k < |s| ==> (k in at <==> keep(s[k]))
  {
    if s == [] {
      at := [];
    } else {
      var n := |s| - 1;
      var front := FilterInOrder(keep, s[..n]);
      at := if keep(s[n]) then front + [n] else front;
      forall k | 0 <= k < |s| ensures k in at <==> keep(s[k]) {
        assert k in at <==> k in front || (k == n && keep(s[n]));
        if k < n {
          assert s[..n][k] == s[k];
        } else {
          assert n !in front;
        }
      }
    }
  }

  lemma {:induction false} FilterMembers<T>(keep: T -> bool, s: seq<T>)
    ensures forall x :: x in Filter(keep, s) <==> x in s && keep(x)
    ensures |Filter(keep, s)| == |s| <==> Filter(keep, s) == s
  {
    if s != [] {
      var n := |s| - 1;
      FilterMembers(keep, s[..n]);
      assert s == s[..n] + [s[n]];
    }
  }
}
