/**
 * The imperative encoder (policies/jwt-auth/jwtauth.go, configHasher). One scratch stack of map keys is
 * shared by all recursion levels, and a map is iterated through a slice of that stack's backing array
 * while nested maps push, sort and pop above it, possibly reallocating the array underneath.
 */
module ConfigHashing {
  import opened Sequences
  import opened Bytes
  import opened SortedStrings
  import opened CanonicalEncoding

  class ConfigHasher {
    var buf: Bytes
    var keys: array<Bytes>  // backing array of the scratch slice
    var depth: nat          // length of the scratch slice

    ghost predicate Valid()
      reads this
    {
      depth <= keys.Length
    }

    ghost function Scratch(): seq<Bytes>
      requires Valid()
      reads this, keys
    {
      keys[..depth]
    }

    /** What a callee leaves alone: the live stack, and the array that older slices still point into. */
    twostate predicate StackKept(was: array<Bytes>)
      requires old(Valid()) && was == old(keys)
      reads this, keys, was
    {
      && Valid() && (keys == was || fresh(keys))
      && Scratch() == old(Scratch())
      && was[..old(depth)] == old(Scratch())
    }

    constructor ()
      ensures Valid() && fresh(keys) && buf == [] && Scratch() == []
    {
      buf, depth := [], 0;
      keys := new Bytes[0];
    }

    method AppendField(s: Bytes)
      modifies this`buf
      ensures buf == old(buf) + Field(s)
    {
      buf := buf + Word64(|s|);
      buf := buf + s;
      assert buf == old(buf) + Field(s);
    }

    /** Go's append: writes in place while there is capacity, otherwise moves to a new array. */
    method Push(k: Bytes)
      requires Valid()
      modifies this`keys, this`depth, keys
      ensures Valid() && (keys == old(keys) || fresh(keys))
      ensures Scratch() == old(Scratch()) + [k]
      ensures old(keys)[..old(depth)] == old(Scratch())
    {
      if depth == keys.Length {
        var grown := new Bytes[2 * depth + 1](_ => []);
        var i := 0;
        while i < depth
          invariant keys == old(keys) && depth == old(depth) && 0 <= i <= depth
          invariant unchanged(keys)
          invariant grown[..i] == keys[..i]
        {
          grown[i] := keys[i];
          i := i + 1;
        }
        keys := grown;
      }
      keys[depth] := k;
      depth := depth + 1;
    }

    /** sort.Strings(c.keys[start:]). */
    method SortFrom(start: nat, ghost front: seq<Bytes>, ghost tail: seq<Bytes>)
      requires Valid() && start == |front| && Scratch() == front + tail
      modifies keys
      ensures Scratch() == front + Sort(tail)
    {
      assert keys[start..depth] == Scratch()[start..] == tail;
      assert keys[..start] == Scratch()[..start] == front;
      var sorted := Sort(keys[start..depth]);
      var i := 0;
      while i < |sorted|
        invariant 0 <= i <= |sorted| == depth - start
        invariant keys[..start] == front
        invariant keys[start..start + i] == sorted[..i]
      {
        keys[start + i] := sorted[i];
        assert keys[start..start + i + 1] == keys[start..start + i] + [sorted[i]];
        i := i + 1;
      }
      assert sorted[..i] == sorted;
      assert Scratch() == keys[..start] + keys[start..depth];
    }

    /** Pushes the keys of `m`, in whatever order the map yields them. */
    method PushKeys(m: map<Bytes, Value>) returns (ghost pushed: seq<Bytes>)
      requires Valid()
      modifies this`keys, this`depth, keys
      ensures Valid() && (keys == old(keys) || fresh(keys))
      ensures Scratch() == old(Scratch()) + pushed
      ensures old(keys)[..old(depth)] == old(Scratch())
      ensures Distinct(pushed) && SameElements(pushed, m.Keys)
    {
      var left := m.Keys;
      pushed := [];
      while left != {}
        invariant Valid() && (keys == old(keys) || fresh(keys))
        invariant Scratch() == old(Scratch()) + pushed
        invariant old(keys)[..old(depth)] == old(Scratch())
        invariant left <= m.Keys && Distinct(pushed) && SameElements(pushed, m.Keys - left)
        decreases |left|
      {
        var k :| k in left;
        label before:
        Push(k);
        assert old@before(keys)[..old(depth)] == old@before(Scratch())[..old(depth)];
        Assoc(old(Scratch()), pushed, [k]);
        left, pushed := left - {k}, pushed + [k];
      }
    }

    /** Pushes the keys of `m` and sorts them in place, above what the stack already holds. */
    method PushSortedKeys(m: map<Bytes, Value>)
      requires Valid()
      modifies this`keys, this`depth, keys
      ensures Valid() && (keys == old(keys) || fresh(keys))
      ensures Scratch() == old(Scratch()) + SortedKeys(m.Keys)
      ensures old(keys)[..old(depth)] == old(Scratch())
    {
      var start := depth;
      ghost var pushed := PushKeys(m);
      SortFrom(start, old(Scratch()), pushed);
      assert keys[..start] == Scratch()[..start];
      SortIgnoresOrder(pushed, m.Keys);
    }

    /** Appends the encoding of `v` and returns the scratch stack as it was found. */
    method AppendValue(v: Value)
      requires Valid()
      modifies this, keys
      ensures StackKept(old(keys))
      ensures buf == old(buf) + Encode(v)
      decreases v, 3, 0
    {
      buf := buf + [Tag(v)];
      match v {
        case Null =>
        case Str(s) => AppendField(s);
        case Boolean(b) => buf := buf + Flag(b);
        case Number(_, bits) => buf := buf + Word64(bits);
        case Array(items) => AppendItems(v);
        case Object(m) =>
          buf := buf + Word64(|m|);
          AppendMembers(v);
          Assoc(old(buf) + [Tag(v)], Word64(|m|), EncodeMembers(v, SortedKeys(m.Keys)));
        case Other(s) => AppendField(s);
      }
      Assoc(old(buf), [Tag(v)], Body(v));
    }

    method AppendItems(v: Value)
      requires Valid() && v.Array?
      modifies this, keys
      ensures StackKept(old(keys))
      ensures buf == old(buf) + Body(v)
      decreases v, 2, 0
    {
      ghost var target := old(buf) + Body(v);
      buf := buf + Word64(|v.items|);
      var i := 0;
      assert v.items[0..] == v.items;
      assert buf + EncodeItems(v.items) == target;
      while i < |v.items|
        invariant 0 <= i <= |v.items| && StackKept(old(keys))
        invariant buf + EncodeItems(v.items[i..]) == target
      {
        ghost var before := buf;
        AppendValue(v.items[i]);
        assert v.items[i..][1..] == v.items[i + 1..];
        Assoc(before, Encode(v.items[i]), EncodeItems(v.items[i + 1..]));
        i := i + 1;
      }
    }

    method AppendMembers(v: Value)
      requires Valid() && v.Object?
      modifies this, keys
      ensures StackKept(old(keys))
      ensures buf == old(buf) + EncodeMembers(v, SortedKeys(v.members.Keys))
      decreases v, 2, 0
    {
      var start := depth;
      PushSortedKeys(v.members);
      AppendListed(v, start, old(Scratch()), SortedKeys(v.members.Keys));
      depth := start;
    }

    /**
     * The loop over `c.keys[start:]`. The slice is taken once, before the first iteration, so the loop
     * keeps reading the array that was live then.
     */
    method AppendListed(v: Value, start: nat, ghost front: seq<Bytes>, ghost sorted: seq<Bytes>)
      requires Valid() && v.Object? && start == |front| && Scratch() == front + sorted
      requires forall x :: x in sorted ==> x in v.members
      modifies this, keys
      ensures Valid() && (keys == old(keys) || fresh(keys)) && start <= depth
      ensures keys[..start] == front && old(keys)[..start] == front
      ensures buf == old(buf) + EncodeMembers(v, sorted)
      decreases v, 1, 0
    {
      var view, end := keys, depth;
      var i := 0;
      assert sorted[0..] == sorted;
      assert view[start..end] == view[..end][start..] == sorted;
      while i < end - start
        invariant 0 <= i <= end - start && StackKept(old(keys))
        invariant view[start..end] == sorted
        invariant buf + EncodeMembers(v, sorted[i..]) == old(buf) + EncodeMembers(v, sorted)
      {
        var k := view[start + i];
        assert k == view[start..end][i];
        AppendOne(v, k, sorted[i..]);
        assert view[start..end] == view[..end][start..];
        assert sorted[i..][1..] == sorted[i + 1..];
        i := i + 1;
      }
      assert keys[..start] == Scratch()[..start];
      assert view[..start] == view[..end][..start];
    }

    method AppendOne(v: Value, k: Bytes, ghost rest: seq<Bytes>)
      requires Valid() && v.Object? && rest != [] && rest[0] == k
      requires forall x :: x in rest ==> x in v.members
      modifies this, keys
      ensures StackKept(old(keys))
      ensures buf + EncodeMembers(v, rest[1..]) == old(buf) + EncodeMembers(v, rest)
      decreases v, 0, 0
    {
      AppendField(k);
      AppendValue(v.members[k]);
      ghost var a, b, c := Field(k), Encode(v.members[k]), EncodeMembers(v, rest[1..]);
      Assoc(old(buf) + a, b, c);
      Assoc(old(buf), a, b + c);
    }
  }
}
