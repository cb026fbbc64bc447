/**
 * The canonical byte encoding of a decoded configuration value
 * (policies/jwt-auth/jwtauth.go, configHasher.value): a type tag on every value, a length prefix on
 * every variable-length part, and map members in sorted key order.
 */
module CanonicalEncoding {
  import opened Sequences
  import opened Bytes
  import opened SortedStrings

  type Word = w: int | 0 <= w < TWO_64

  /**
   * The Go type a number arrived as. The encoder converts all three to float64 and writes the bits, so a
   * number is known here by those bits: integers beyond 2^53 that round to one float64 are one number.
   */
  datatype NumberKind = Float64 | Int | Int64

  datatype Value =
    | Null
    | Str(text: Bytes)
    | Boolean(flag: bool)
    | Number(kind: NumberKind, bits: Word)
    | Array(items: seq<Value>)
    | Object(members: map<Bytes, Value>)
    | Other(rendered: Bytes)  // any other Go type, already rendered as "%T:%v"

  const TAG_NULL: Byte := 'n' as int
  const TAG_STRING: Byte := 's' as int
  const TAG_BOOL: Byte := 'b' as int
  const TAG_NUMBER: Byte := 'f' as int
  const TAG_ARRAY: Byte := 'a' as int
  const TAG_OBJECT: Byte := 'm' as int
  const TAG_OTHER: Byte := '?' as int

  function Word64(n: int): (r: Bytes)
    ensures |r| == 8
  {
    BigEndian(n, 8)
  }

  /** A length-prefixed string. */
  function Field(s: Bytes): (r: Bytes)
    ensures |r| == 8 + |s|
  {
    Word64(|s|) + s
  }

  function Flag(b: bool): Bytes { [if b then 1 else 0] }

  function Tag(v: Value): Byte {
    match v
    case Null => TAG_NULL
    case Str(_) => TAG_STRING
    case Boolean(_) => TAG_BOOL
    case Number(_, _) => TAG_NUMBER
    case Array(_) => TAG_ARRAY
    case Object(_) => TAG_OBJECT
    case Other(_) => TAG_OTHER
  }

  ghost function Encode(v: Value): Bytes
    decreases v, 2, 0
  {
    [Tag(v)] + Body(v)
  }

  ghost function Body(v: Value): Bytes
    decreases v, 1, 0
  {
    match v
    case Null => []
    case Str(s) => Field(s)
    case Boolean(b) => Flag(b)
    case Number(_, bits) => Word64(bits)
    case Array(items) => Word64(|items|) + EncodeItems(items)
    case Object(m) => Word64(|m|) + EncodeMembers(v, SortedKeys(m.Keys))
    case Other(s) => Field(s)
  }

  ghost function EncodeItems(items: seq<Value>): Bytes
    decreases items, 0, 0
  {
    if items == [] then [] else Encode(items[0]) + EncodeItems(items[1..])
  }

  /** The members of `v` named by `keys`, in that order. */
  ghost function EncodeMembers(v: Value, keys: seq<Bytes>): Bytes
    requires v.Object? && forall k :: k in keys ==> k in v.members
    decreases v, 0, |keys|
  {
    if keys == [] then [] else
      Field(keys[0]) + (Encode(v.members[keys[0]]) + EncodeMembers(v, keys[1..]))
  }

  /** What the encoding can tell apart: the value without the Go type of its numbers, which are float64 bits. */
  function Canonical(v: Value): Value
    decreases v, 1
  {
    match v
    case Number(_, bits) => Number(Float64, bits)
    case Array(items) => Array(CanonicalItems(items))
    case Object(m) => Object(map k | k in m :: Canonical(m[k]))
    case _ => v
  }

  function CanonicalItems(items: seq<Value>): (r: seq<Value>)
    ensures |r| == |items|
    decreases items, 0
  {
    if items == [] then [] else [Canonical(items[0])] + CanonicalItems(items[1..])
  }

  /** Every length inside `v` fits the 64-bit prefix that records it, as every Go length does. */
  ghost predicate Sized(v: Value)
    decreases v
  {
    match v
    case Str(s) => |s| < TWO_64
    case Other(s) => |s| < TWO_64
    case Array(items) => |items| < TWO_64 && forall x :: x in items ==> Sized(x)
    case Object(m) => |m| < TWO_64 && forall k :: k in m ==> |k| < TWO_64 && Sized(m[k])
    case _ => true
  }

  lemma WordInjective(m: int, n: int)
    requires Word64(m) == Word64(n) && -TWO_64 < m - n < TWO_64
    ensures m == n
  {
    Widths();
    BigEndianInjective(m, n, 8);
  }

  lemma CountPrefixFree(m: int, n: int, x: Bytes, y: Bytes, r: Bytes, s: Bytes)
    requires -TWO_64 < m - n < TWO_64
    requires (Word64(m) + x) + r == (Word64(n) + y) + s
    ensures m == n && x + r == y + s
  {
    Assoc(Word64(m), x, r);
    Assoc(Word64(n), y, s);
    SplitConcat(Word64(m), Word64(n), x + r, y + s);
    WordInjective(m, n);
  }

  lemma FieldPrefixFree(a: Bytes, b: Bytes, r: Bytes, s: Bytes)
    requires |a| < TWO_64 && |b| < TWO_64
    requires Field(a) + r == Field(b) + s
    ensures a == b && r == s
  {
    CountPrefixFree(|a|, |b|, a, b, r, s);
    SplitConcat(a, b, r, s);
  }

  /**
   * No encoding is a prefix of another, and equal encodings mean equal values: whatever follows them,
   * two encodings that read the same come from the same value and leave the same rest.
   */
  lemma {:induction false} PrefixFree(v: Value, w: Value, r: Bytes, s: Bytes)
    requires Sized(v) && Sized(w)
    requires Encode(v) + r == Encode(w) + s
    ensures Canonical(v) == Canonical(w) && r == s
    decreases v, 2, 0
  {
    Assoc([Tag(v)], Body(v), r);
    Assoc([Tag(w)], Body(w), s);
    SplitConcat([Tag(v)], [Tag(w)], Body(v) + r, Body(w) + s);
    assert [Tag(v)][0] == [Tag(w)][0];
    BodyPrefixFree(v, w, r, s);
  }

  lemma {:induction false} BodyPrefixFree(v: Value, w: Value, r: Bytes, s: Bytes)
    requires Sized(v) && Sized(w)
    requires Tag(v) == Tag(w)
    requires Body(v) + r == Body(w) + s
    ensures Canonical(v) == Canonical(w) && r == s
    decreases v, 1, 1
  {
    match v {
      case Null =>
        SplitConcat([], [], r, s);
      case Str(a) =>
        FieldPrefixFree(a, w.text, r, s);
      case Other(a) =>
        FieldPrefixFree(a, w.rendered, r, s);
      case Boolean(b) =>
        SplitConcat(Flag(b), Flag(w.flag), r, s);
        assert Flag(b)[0] == Flag(w.flag)[0];
      case Number(_, bits) =>
        SplitConcat(Word64(bits), Word64(w.bits), r, s);
        WordInjective(bits, w.bits);
      case Array(items) =>
        CountPrefixFree(|items|, |w.items|, EncodeItems(items), EncodeItems(w.items), r, s);
        ItemsPrefixFree(items, w.items, r, s);
      case Object(m) =>
        ObjectPrefixFree(v, w, r, s);
    }
  }

  lemma {:induction false} ObjectPrefixFree(v: Value, w: Value, r: Bytes, s: Bytes)
    requires v.Object? && w.Object? && Sized(v) && Sized(w)
    requires Body(v) + r == Body(w) + s
    ensures Canonical(v) == Canonical(w) && r == s
    decreases v, 1, 0
  {
    var ks, ls := SortedKeys(v.members.Keys), SortedKeys(w.members.Keys);
    CountPrefixFree(|v.members|, |w.members|, EncodeMembers(v, ks), EncodeMembers(w, ls), r, s);
    MembersPrefixFree(v, w, ks, ls, r, s);
    assert v.members.Keys == w.members.Keys by { SortedKeysInjective(v.members.Keys, w.members.Keys); }
    SameMembers(v, w);
  }

  lemma {:induction false} SameMembers(v: Value, w: Value)
    requires v.Object? && w.Object?
    requires v.members.Keys == w.members.Keys
    requires forall k :: k in v.members ==> Canonical(v.members[k]) == Canonical(w.members[k])
    ensures Canonical(v) == Canonical(w)
  {
  }

  lemma {:induction false} ItemsPrefixFree(a: seq<Value>, b: seq<Value>, r: Bytes, s: Bytes)
    requires |a| == |b|
    requires forall x :: x in a || x in b ==> Sized(x)
    requires EncodeItems(a) + r == EncodeItems(b) + s
    ensures CanonicalItems(a) == CanonicalItems(b) && r == s
    decreases a, 0, 0
  {
    if a == [] {
      SplitConcat([], [], r, s);
    } else {
      var restA, restB := EncodeItems(a[1..]), EncodeItems(b[1..]);
      Assoc(Encode(a[0]), restA, r);
      Assoc(Encode(b[0]), restB, s);
      PrefixFree(a[0], b[0], restA + r, restB + s);
      ItemsPrefixFree(a[1..], b[1..], r, s);
    }
  }

  lemma {:induction false} MembersPrefixFree(v: Value, w: Value, ks: seq<Bytes>, ls: seq<Bytes>, r: Bytes, s: Bytes)
    requires v.Object? && w.Object? && Sized(v) && Sized(w)
    requires |ks| == |ls|
    requires forall k :: k in ks ==> k in v.members
    requires forall k :: k in ls ==> k in w.members
    requires EncodeMembers(v, ks) + r == EncodeMembers(w, ls) + s
    ensures ks == ls && r == s
    ensures forall k :: k in ks ==> Canonical(v.members[k]) == Canonical(w.members[k])
    decreases v, 0, |ks|
  {
    if ks == [] {
      SplitConcat([], [], r, s);
    } else {
      var a, b := v.members[ks[0]], w.members[ls[0]];
      var restV, restW := EncodeMembers(v, ks[1..]), EncodeMembers(w, ls[1..]);
      Assoc(Field(ks[0]), Encode(a) + restV, r);
      Assoc(Field(ls[0]), Encode(b) + restW, s);
      FieldPrefixFree(ks[0], ls[0], (Encode(a) + restV) + r, (Encode(b) + restW) + s);
      Assoc(Encode(a), restV, r);
      Assoc(Encode(b), restW, s);
      PrefixFree(a, b, restV + r, restW + s);
      MembersPrefixFree(v, w, ks[1..], ls[1..], r, s);
    }
  }

  /** The Go type of a number is not encoded. */
  lemma {:induction false} EncodeCanonical(v: Value)
    ensures Encode(Canonical(v)) == Encode(v)
    decreases v, 1, 0
  {
    match v
    case Array(items) => EncodeItemsCanonical(items);
    case Object(m) =>
      assert Canonical(v).members.Keys == m.Keys;
      EncodeMembersCanonical(v, SortedKeys(m.Keys));
    case _ =>
  }

  lemma {:induction false} EncodeItemsCanonical(items: seq<Value>)
    ensures EncodeItems(CanonicalItems(items)) == EncodeItems(items)
    decreases items, 0, 0
  {
    if items != [] {
      EncodeCanonical(items[0]);
      EncodeItemsCanonical(items[1..]);
    }
  }

  lemma {:induction false} EncodeMembersCanonical(v: Value, ks: seq<Bytes>)
    requires v.Object? && forall k :: k in ks ==> k in v.members
    ensures EncodeMembers(Canonical(v), ks) == EncodeMembers(v, ks)
    decreases v, 0, |ks|
  {
    if ks != [] {
      EncodeCanonical(v.members[ks[0]]);
      EncodeMembersCanonical(v, ks[1..]);
    }
  }

  /** Two values have one encoding exactly when they agree on everything but the Go type of their numbers. */
  lemma InjectiveUpToNumberKind(v: Value, w: Value)
    requires Sized(v) && Sized(w)
    ensures Encode(v) == Encode(w) <==> Canonical(v) == Canonical(w)
  {
    EncodeCanonical(v);
    EncodeCanonical(w);
    if Encode(v) == Encode(w) {
      PrefixFree(v, w, [], []);
    }
  }
}
