/**
 * The budgeted conversion between JSON and XML of policies/json-xml-mediator/jsonxmlmediation.go. One
 * allowance is debited through the whole recursion while maps are visited in an arbitrary order; whether
 * the conversion succeeds, and what it costs, does not depend on that order.
 */
module Conversion {
  import opened Common

  const MAX_DEPTH := 256
  const MAX_ELEMENTS := 100000

  /** A decoded JSON value; a leaf carries the text it is rendered as. */
  datatype Json = Leaf(content: string) | Array(items: seq<Json>) | Object(members: map<string, Json>)

  datatype Element = Element(tag: string, originalKey: string, content: string, children: seq<Element>)

  class Budget {
    var remaining: nat

    constructor ()
      ensures remaining == MAX_ELEMENTS
    {
      remaining := MAX_ELEMENTS;
    }

    method Consume() returns (ok: bool)
      modifies this
      ensures ok <==> old(remaining) > 0
      ensures remaining == if ok then old(remaining) - 1 else old(remaining)
    {
      if remaining <= 0 {
        return false;
      }
      remaining := remaining - 1;
      return true;
    }
  }

  // ---- What a value costs and how deep it is ----

  /** The elements a value becomes. An array that is a member has none of its own: its items take the key. */
  ghost function Count(v: Json): nat
    decreases v, 2, 0
  {
    1 + match v
        case Leaf(_) => 0
        case Array(items) => CountItems(items)
        case Object(m) => CountMembers(v, m.Keys)
  }

  ghost function CountItems(items: seq<Json>): nat
    decreases items, 0, 0
  {
    if items == [] then 0 else CountItems(items[..|items| - 1]) + Count(items[|items| - 1])
  }

  ghost function CountMember(v: Json): nat
    decreases v, 3, 0
  {
    if v.Array? then CountItems(v.items) else Count(v)
  }

  ghost function CountMembers(v: Json, keys: set<string>): nat
    requires v.Object? && keys <= v.members.Keys
    decreases v, 1, |keys|
  {
    if keys == {} then 0 else
      var k :| k in keys;
      CountMember(v.members[k]) + CountMembers(v, keys - {k})
  }

  /** Nesting of at most `n` levels below the value. */
  ghost predicate Within(v: Json, n: int)
    decreases v, 2
  {
    n >= 0 &&
    match v
    case Leaf(_) => true
    case Array(items) => ItemsWithin(items, n - 1)
    case Object(m) => forall k :: k in m ==> MemberWithin(m[k], n - 1)
  }

  ghost predicate ItemsWithin(items: seq<Json>, n: int)
    decreases items, 0
  {
    items == [] || (ItemsWithin(items[..|items| - 1], n) && Within(items[|items| - 1], n))
  }

  ghost predicate MemberWithin(v: Json, n: int)
    decreases v, 3
  {
    if v.Array? then ItemsWithin(v.items, n) else Within(v, n)
  }

  /** The order in which keys are taken does not matter to the count. */
  lemma {:induction false} CountMembersAny(v: Json, keys: set<string>, k: string)
    requires v.Object? && keys <= v.members.Keys && k in keys
    ensures CountMembers(v, keys) == CountMember(v.members[k]) + CountMembers(v, keys - {k})
    decreases |keys|
  {
    var j :| j in keys && CountMembers(v, keys) == CountMember(v.members[j]) + CountMembers(v, keys - {j});
    if j != k {
      CountMembersAny(v, keys - {j}, k);
      CountMembersAny(v, keys - {k}, j);
      assert keys - {j} - {k} == keys - {k} - {j};
    }
  }

  lemma {:induction false} CountMembersSubset(v: Json, a: set<string>, b: set<string>)
    requires v.Object? && a <= b <= v.members.Keys
    ensures CountMembers(v, a) <= CountMembers(v, b)
    decreases |b|
  {
    if exists k :: k in b && k !in a {
      var k :| k in b && k !in a;
      CountMembersAny(v, b, k);
      CountMembersSubset(v, a, b - {k});
    } else {
      assert a == b;
    }
  }

  // ---- What the tree must look like ----

  /** unicode.IsLetter. */
  type Letters = char -> bool

  predicate StartsName(letters: Letters, c: char) {
    'a' <= c <= 'z' || 'A' <= c <= 'Z' || c == '_' || letters(c)
  }

  predicate InName(letters: Letters, c: char) {
    StartsName(letters, c) || '0' <= c <= '9' || c == '-' || c == '.'
  }

  predicate AllInName(letters: Letters, s: string) { forall i :: 0 <= i < |s| ==> InName(letters, s[i]) }

  predicate ValidTag(letters: Letters, name: string) {
    name != "" && StartsName(letters, name[0]) && AllInName(letters, name)
  }

  function Replace(letters: Letters, c: char): char { if InName(letters, c) then c else '_' }

  function SanitizeRest(letters: Letters, s: string): (r: string)
    ensures |r| == |s|
  {
    seq(|s|, i requires 0 <= i < |s| => Replace(letters, s[i]))
  }

  function SanitizeFirst(letters: Letters, c: char): string {
    if StartsName(letters, c) then [c] else if InName(letters, c) then ['_', c] else ['_']
  }

  function Sanitize(letters: Letters, name: string): string {
    if name == "" then "empty" else SanitizeFirst(letters, name[0]) + SanitizeRest(letters, name[1..])
  }

  lemma SanitizeNext(letters: Letters, name: string, i: nat)
    requires 0 < i < |name|
    ensures SanitizeRest(letters, name[1..i + 1]) == SanitizeRest(letters, name[1..i]) + [Replace(letters, name[i])]
  {
  }

  method SanitizeTagName(letters: Letters, name: string) returns (r: string)
    ensures r == Sanitize(letters, name)
  {
    if name == "" {
      return "empty";
    }
    r := [];
    var i := 0;
    while i < |name|
      invariant 0 <= i <= |name|
      invariant r == if i == 0 then "" else SanitizeFirst(letters, name[0]) + SanitizeRest(letters, name[1..i])
    {
      var c := name[i];
      if i == 0 {
        if StartsName(letters, c) {
          r := r + [c];
        } else {
          r := r + ['_'];
          if InName(letters, c) {
            r := r + [c];
          }
        }
        assert name[1..1] == "";
      } else {
        SanitizeNext(letters, name, i);
        if InName(letters, c) {
          r := r + [c];
        } else {
          r := r + ['_'];
        }
      }
      i := i + 1;
    }
    assert name[1..i] == name[1..];
  }

  lemma SanitizeRestValid(letters: Letters, s: string)
    ensures AllInName(letters, SanitizeRest(letters, s))
    ensures SanitizeRest(letters, s) == s <==> AllInName(letters, s)
  {
  }

  lemma AllInNameAppend(letters: Letters, a: string, b: string)
    ensures AllInName(letters, a + b) <==> AllInName(letters, a) && AllInName(letters, b)
  {
    if AllInName(letters, a + b) {
      assert forall i :: 0 <= i < |a| ==> (a + b)[i] == a[i];
      assert forall i :: 0 <= i < |b| ==> (a + b)[|a| + i] == b[i];
    }
  }

  /** Every tag is a valid one. */
  lemma SanitizedIsValid(letters: Letters, name: string)
    ensures ValidTag(letters, Sanitize(letters, name))
  {
    if name != "" {
      SanitizeRestValid(letters, name[1..]);
      AllInNameAppend(letters, SanitizeFirst(letters, name[0]), SanitizeRest(letters, name[1..]));
    }
  }

  /** Only the invalid keys are renamed. */
  lemma SanitizeUnchanged(letters: Letters, name: string)
    ensures Sanitize(letters, name) == name <==> ValidTag(letters, name)
  {
    if name != "" {
      var c, rest := name[0], name[1..];
      SanitizeRestValid(letters, rest);
      assert name == [c] + rest;
      AllInNameAppend(letters, [c], rest);
      if StartsName(letters, c) {
        SplitConcatString([c], SanitizeRest(letters, rest), rest);
      } else {
        assert Sanitize(letters, name)[0] == '_';
      }
    }
  }

  lemma SplitConcatString(a: string, r: string, s: string)
    ensures a + r == a + s <==> r == s
  {
    if a + r == a + s {
      assert r == (a + r)[|a|..] && s == (a + s)[|a|..];
    }
  }

  function OriginalKey(letters: Letters, tag: string): string {
    if Sanitize(letters, tag) != tag && tag != "root" then tag else ""
  }

  ghost predicate Represents(letters: Letters, e: Element, v: Json, tag: string)
    decreases v, 2, 0
  {
    && e.tag == Sanitize(letters, tag) && e.originalKey == OriginalKey(letters, tag)
    && match v
       case Leaf(content) => e.content == content && e.children == []
       case Array(items) => e.content == "" && RepresentsItems(letters, e.children, items, tag)
       case Object(m) => e.content == "" && RepresentsMembers(letters, e.children, v, m.Keys)
  }

  ghost predicate RepresentsItems(letters: Letters, es: seq<Element>, items: seq<Json>, tag: string)
    decreases items, 0, 0
  {
    var n := |items| - 1;
    |es| == |items| &&
    (items == [] || (RepresentsItems(letters, es[..n], items[..n], tag) && Represents(letters, es[n], items[n], tag)))
  }

  ghost predicate RepresentsMember(letters: Letters, es: seq<Element>, v: Json, key: string)
    decreases v, 3, 0
  {
    if v.Array? then RepresentsItems(letters, es, v.items, key)
    else |es| == 1 && Represents(letters, es[0], v, key)
  }

  /** The children are those of the members, key after key, in some order of the keys. */
  ghost predicate RepresentsMembers(letters: Letters, es: seq<Element>, v: Json, keys: set<string>)
    requires v.Object? && keys <= v.members.Keys
    decreases v, 1, |keys|
  {
    if keys == {} then es == [] else exists k, n :: LastMember(letters, es, v, keys, k, n)
  }

  /** The children from `n` on are those of the member named `k`; the earlier ones are those of the other keys. */
  ghost predicate LastMember(letters: Letters, es: seq<Element>, v: Json, keys: set<string>, k: string, n: nat)
    requires v.Object? && keys <= v.members.Keys
    decreases v, 1, |keys|, 0
  {
    && k in keys && n <= |es|
    && RepresentsMember(letters, es[n..], v.members[k], k)
    && RepresentsMembers(letters, es[..n], v, keys - {k})
  }

  function Size(e: Element): nat { 1 + SizeAll(e.children) }

  function SizeAll(es: seq<Element>): nat {
    if es == [] then 0 else SizeAll(es[..|es| - 1]) + Size(es[|es| - 1])
  }

  lemma {:induction false} SizeAppend(a: seq<Element>, b: seq<Element>)
    ensures SizeAll(a + b) == SizeAll(a) + SizeAll(b)
  {
    if b == [] {
      assert a + b == a;
    } else {
      var n := |b| - 1;
      SizeAppend(a, b[..n]);
      assert (a + b)[..|a| + n] == a + b[..n];
    }
  }

  /** A tree that represents a value has exactly as many elements as the value counts for. */
  lemma {:induction false} RepresentsSize(letters: Letters, e: Element, v: Json, tag: string)
    requires Represents(letters, e, v, tag)
    ensures Size(e) == Count(v)
    decreases v, 2, 0
  {
    match v
    case Leaf(_) =>
    case Array(items) => RepresentsItemsSize(letters, e.children, items, tag);
    case Object(m) => RepresentsMembersSize(letters, e.children, v, m.Keys);
  }

  lemma {:induction false} RepresentsItemsSize(letters: Letters, es: seq<Element>, items: seq<Json>, tag: string)
    requires RepresentsItems(letters, es, items, tag)
    ensures SizeAll(es) == CountItems(items)
    decreases items, 0, 0
  {
    if items != [] {
      var n := |items| - 1;
      RepresentsItemsSize(letters, es[..n], items[..n], tag);
      RepresentsSize(letters, es[n], items[n], tag);
    }
  }

  lemma {:induction false} RepresentsMembersSize(letters: Letters, es: seq<Element>, v: Json, keys: set<string>)
    requires v.Object? && keys <= v.members.Keys && RepresentsMembers(letters, es, v, keys)
    ensures SizeAll(es) == CountMembers(v, keys)
    decreases v, 1, |keys|
  {
    if keys != {} {
      var k, n: nat :| LastMember(letters, es, v, keys, k, n);
      RepresentsMembersSize(letters, es[..n], v, keys - {k});
      var x := v.members[k];
      assert RepresentsMember(letters, es[n..], x, k);
      if x.Array? {
        RepresentsItemsSize(letters, es[n..], x.items, k);
      } else {
        RepresentsSize(letters, es[n..][0], x, k);
        assert es[n..] == [es[n..][0]];
      }
      assert es == es[..n] + es[n..];
      SizeAppend(es[..n], es[n..]);
      CountMembersAny(v, keys, k);
    }
  }

  /** Nesting of at most `n` levels below the element. */
  predicate ElementWithin(e: Element, n: int) { n >= 0 && ElementsWithin(e.children, n - 1) }

  predicate ElementsWithin(es: seq<Element>, n: int) {
    es == [] || (ElementsWithin(es[..|es| - 1], n) && ElementWithin(es[|es| - 1], n))
  }

  function Max(a: int, b: int): int { if a < b then b else a }

  /** The longest way down. */
  function Height(e: Element): int { 1 + HeightAll(e.children) }

  function HeightAll(es: seq<Element>): int {
    if es == [] then -1 else Max(HeightAll(es[..|es| - 1]), Height(es[|es| - 1]))
  }

  lemma {:induction false} WithinIsHeight(e: Element, n: int)
    ensures ElementWithin(e, n) <==> Height(e) <= n && n >= 0
    decreases e, 1
  {
    ElementsWithinIsHeight(e.children, n - 1);
  }

  lemma {:induction false} ElementsWithinIsHeight(es: seq<Element>, n: int)
    ensures HeightAll(es) >= -1
    ensures ElementsWithin(es, n) <==> HeightAll(es) <= n || es == []
    decreases es, 0
  {
    if es != [] {
      var m := |es| - 1;
      ElementsWithinIsHeight(es[..m], n);
      WithinIsHeight(es[m], n);
      HeightPositive(es[m]);
    }
  }

  lemma {:induction false} HeightPositive(e: Element)
    ensures Height(e) >= 0
    decreases e, 0
  {
    ElementsWithinIsHeight(e.children, 0);
  }

  lemma {:induction false} ElementsWithinAppend(a: seq<Element>, b: seq<Element>, n: int)
    ensures ElementsWithin(a + b, n) <==> ElementsWithin(a, n) && ElementsWithin(b, n)
  {
    if b == [] {
      assert a + b == a;
    } else {
      var m := |b| - 1;
      ElementsWithinAppend(a, b[..m], n);
      assert (a + b)[..|a| + m] == a + b[..m];
    }
  }

  /** The depth that is checked is the depth of the tree. */
  lemma {:induction false} RepresentsDepth(letters: Letters, e: Element, v: Json, tag: string, n: int)
    requires Represents(letters, e, v, tag)
    ensures ElementWithin(e, n) <==> Within(v, n)
    ensures Within(v, n) <==> Height(e) <= n
    decreases v, 2, 0
  {
    WithinIsHeight(e, n);
    HeightPositive(e);
    match v
    case Leaf(_) =>
    case Array(items) => RepresentsItemsDepth(letters, e.children, items, tag, n - 1);
    case Object(m) => RepresentsMembersDepth(letters, e.children, v, m.Keys, n - 1);
  }

  lemma {:induction false} RepresentsItemsDepth(letters: Letters, es: seq<Element>, items: seq<Json>, tag: string, n: int)
    requires RepresentsItems(letters, es, items, tag)
    ensures ElementsWithin(es, n) <==> ItemsWithin(items, n)
    decreases items, 0, 0
  {
    if items != [] {
      var m := |items| - 1;
      RepresentsItemsDepth(letters, es[..m], items[..m], tag, n);
      RepresentsDepth(letters, es[m], items[m], tag, n);
    }
  }

  lemma {:induction false} RepresentsMembersDepth(letters: Letters, es: seq<Element>, v: Json, keys: set<string>, n: int)
    requires v.Object? && keys <= v.members.Keys && RepresentsMembers(letters, es, v, keys)
    ensures ElementsWithin(es, n) <==> forall k :: k in keys ==> MemberWithin(v.members[k], n)
    decreases v, 1, |keys|
  {
    if keys != {} {
      var k, m: nat :| LastMember(letters, es, v, keys, k, m);
      RepresentsMembersDepth(letters, es[..m], v, keys - {k}, n);
      var x := v.members[k];
      assert RepresentsMember(letters, es[m..], x, k);
      if x.Array? {
        RepresentsItemsDepth(letters, es[m..], x.items, k, n);
      } else {
        RepresentsDepth(letters, es[m..][0], x, k, n);
        assert es[m..] == [es[m..][0]] && es[m..][..0] == [];
      }
      assert es == es[..m] + es[m..];
      ElementsWithinAppend(es[..m], es[m..], n);
      assert keys == keys - {k} + {k};
    }
  }

  lemma OnlyMember(letters: Letters, es: seq<Element>, v: Json, key: string)
    requires v.Object? && v.members.Keys == {key} && RepresentsMembers(letters, es, v, {key})
    ensures RepresentsMember(letters, es, v.members[key], key)
  {
    var k, n: nat :| LastMember(letters, es, v, {key}, k, n);
    assert {key} - {k} == {};
    assert RepresentsMembers(letters, es[..n], v, {});
    assert es[n..] == es;
  }

  lemma TwoItems(letters: Letters, es: seq<Element>, a: string, b: string, key: string)
    requires RepresentsItems(letters, es, [Leaf(a), Leaf(b)], key)
    ensures var tag, original := Sanitize(letters, key), OriginalKey(letters, key);
      es == [Element(tag, original, a, []), Element(tag, original, b, [])]
  {
    var items := [Leaf(a), Leaf(b)];
    assert items[..1] == [Leaf(a)] && es[..1][0] == es[0];
    assert RepresentsItems(letters, es[..1], [Leaf(a)], key);
    assert Represents(letters, es[..1][0], [Leaf(a)][0], key);
    assert Represents(letters, es[1], items[1], key);
    assert es == [es[0], es[1]];
  }

  /** An array member becomes one element for each item, under the member's key. */
  lemma RepeatedMember(letters: Letters, e: Element, key: string, a: string, b: string)
    requires Represents(letters, e, Object(map[key := Array([Leaf(a), Leaf(b)])]), "root")
    ensures var tag, original := Sanitize(letters, key), OriginalKey(letters, key);
      e == Element("root", "", "", [Element(tag, original, a, []), Element(tag, original, b, [])])
  {
    var v := Object(map[key := Array([Leaf(a), Leaf(b)])]);
    SanitizeUnchanged(letters, "root");
    assert v.members.Keys == {key};
    OnlyMember(letters, e.children, v, key);
    TwoItems(letters, e.children, a, b, key);
  }

  /** Every character after the first stands for itself if a name may hold it, and for an underscore if not. */
  lemma SanitizeAt(letters: Letters, name: string, k: nat)
    requires 0 < k < |name|
    ensures var r, d := Sanitize(letters, name), |Sanitize(letters, name)| - |name|;
      0 <= d <= 1 && r[k + d] == if InName(letters, name[k]) then name[k] else '_'
  {
    assert name[1..][k - 1] == name[k];
  }

  /** A key that is no name is renamed, and kept as the original key. */
  lemma RenamedKey(letters: Letters)
    requires !letters(' ') && !letters('1')
    ensures Sanitize(letters, "1st item") == "_1st_item" && OriginalKey(letters, "1st item") == "1st item"
  {
    assert "1st item"[1..] == "st item" && SanitizeRest(letters, "st item") == "st_item";
  }

  /** A valid key needs no original, and the empty one has a name of its own. */
  lemma KeptKey(letters: Letters, key: string)
    ensures ValidTag(letters, key) ==> Sanitize(letters, key) == key && OriginalKey(letters, key) == ""
    ensures Sanitize(letters, "") == "empty" && OriginalKey(letters, "root") == ""
  {
    SanitizeUnchanged(letters, key);
  }

  // ---- The conversion of JSON to XML ----

  /** buildXMLStruct, with the map order left to the `:|` in BuildMembers. */
  method BuildElement(letters: Letters, v: Json, tag: string, depth: nat, b: Budget) returns (r: Option<Element>)
    modifies b
    ensures r.Some? <==> Within(v, MAX_DEPTH - depth) && Count(v) <= old(b.remaining)
    ensures r.Some? ==> b.remaining == old(b.remaining) - Count(v) && Represents(letters, r.value, v, tag)
    ensures b.remaining <= old(b.remaining)
    decreases v, 2, 0
  {
    if depth > MAX_DEPTH {
      return None;
    }
    var ok := b.Consume();
    if !ok {
      return None;
    }
    var name := SanitizeTagName(letters, tag);
    var originalKey := if name != tag && tag != "root" then tag else "";
    match v {
      case Leaf(content) =>
        r := Some(Element(name, originalKey, content, []));
      case Array(items) =>
        var children := BuildItems(letters, items, tag, depth, b);
        if children.None? {
          return None;
        }
        r := Some(Element(name, originalKey, "", children.value));
      case Object(m) =>
        var children := BuildMembers(letters, v, depth, b);
        if children.None? {
          return None;
        }
        r := Some(Element(name, originalKey, "", children.value));
    }
  }

  method BuildItems(letters: Letters, items: seq<Json>, tag: string, depth: nat, b: Budget) returns (r: Option<seq<Element>>)
    modifies b
    ensures r.Some? <==> ItemsWithin(items, MAX_DEPTH - depth - 1) && CountItems(items) <= old(b.remaining)
    ensures r.Some? ==> b.remaining == old(b.remaining) - CountItems(items) && RepresentsItems(letters, r.value, items, tag)
    ensures b.remaining <= old(b.remaining)
    decreases items, 0, 0
  {
    var children := [];
    var i := 0;
    while i < |items|
      invariant 0 <= i <= |items|
      invariant ItemsWithin(items[..i], MAX_DEPTH - depth - 1)
      invariant b.remaining == old(b.remaining) - CountItems(items[..i])
      invariant RepresentsItems(letters, children, items[..i], tag)
    {
      ItemsStep(items, i, MAX_DEPTH - depth - 1);
      var child := BuildElement(letters, items[i], tag, depth + 1, b);
      if child.None? {
        return None;
      }
      AddItem(letters, children, child.value, items, tag, i);
      children := children + [child.value];
      i := i + 1;
    }
    assert items[..i] == items;
    r := Some(children);
  }

  /** A prefix costs no more and nests no deeper than the whole. */
  lemma {:induction false} PrefixFits(items: seq<Json>, i: nat, n: int)
    requires i <= |items|
    ensures CountItems(items[..i]) <= CountItems(items)
    ensures ItemsWithin(items, n) ==> ItemsWithin(items[..i], n)
    decreases |items|
  {
    if i == |items| {
      assert items[..i] == items;
    } else {
      var front := items[..|items| - 1];
      PrefixFits(front, i, n);
      assert front[..i] == items[..i];
    }
  }

  lemma ItemsStep(items: seq<Json>, i: nat, n: int)
    requires i < |items|
    ensures CountItems(items[..i + 1]) == CountItems(items[..i]) + Count(items[i]) <= CountItems(items)
    ensures ItemsWithin(items[..i + 1], n) <==> ItemsWithin(items[..i], n) && Within(items[i], n)
    ensures ItemsWithin(items, n) ==> Within(items[i], n)
  {
    assert items[..i + 1][..i] == items[..i];
    PrefixFits(items, i + 1, n);
  }

  lemma AddItem(letters: Letters, es: seq<Element>, e: Element, items: seq<Json>, tag: string, i: nat)
    requires i < |items| && RepresentsItems(letters, es, items[..i], tag) && Represents(letters, e, items[i], tag)
    ensures RepresentsItems(letters, es + [e], items[..i + 1], tag)
  {
    assert (es + [e])[..i] == es && items[..i + 1][..i] == items[..i];
  }

  method BuildMembers(letters: Letters, v: Json, depth: nat, b: Budget) returns (r: Option<seq<Element>>)
    requires v.Object?
    modifies b
    ensures r.Some? <==>
      (forall k :: k in v.members ==> MemberWithin(v.members[k], MAX_DEPTH - depth - 1)) &&
      CountMembers(v, v.members.Keys) <= old(b.remaining)
    ensures r.Some? ==>
      b.remaining == old(b.remaining) - CountMembers(v, v.members.Keys) &&
      RepresentsMembers(letters, r.value, v, v.members.Keys)
    ensures b.remaining <= old(b.remaining)
    decreases v, 1, 0
  {
    var children, done: set<string> := [], {};
    while v.members.Keys - done != {}
      invariant done <= v.members.Keys
      invariant forall k :: k in done ==> MemberWithin(v.members[k], MAX_DEPTH - depth - 1)
      invariant b.remaining == old(b.remaining) - CountMembers(v, done)
      invariant RepresentsMembers(letters, children, v, done)
      decreases v.members.Keys - done
    {
      var k :| k in v.members.Keys - done;
      CountMembersStep(v, done, k);
      var more := BuildMember(letters, v.members[k], k, depth, b);
      if more.None? {
        return None;
      }
      AddMember(letters, children, more.value, v, done, k);
      children := children + more.value;
      done := done + {k};
    }
    assert done == v.members.Keys;
    r := Some(children);
  }

  lemma CountMembersStep(v: Json, done: set<string>, k: string)
    requires v.Object? && done <= v.members.Keys && k in v.members && k !in done
    ensures CountMembers(v, done + {k}) == CountMembers(v, done) + CountMember(v.members[k]) <= CountMembers(v, v.members.Keys)
  {
    CountMembersAny(v, done + {k}, k);
    assert done + {k} - {k} == done;
    CountMembersSubset(v, done + {k}, v.members.Keys);
  }

  lemma AddMember(letters: Letters, es: seq<Element>, more: seq<Element>, v: Json, done: set<string>, k: string)
    requires v.Object? && done <= v.members.Keys && k in v.members && k !in done
    requires RepresentsMembers(letters, es, v, done) && RepresentsMember(letters, more, v.members[k], k)
    ensures RepresentsMembers(letters, es + more, v, done + {k})
  {
    assert (es + more)[|es|..] == more && (es + more)[..|es|] == es;
    assert done + {k} - {k} == done;
    assert LastMember(letters, es + more, v, done + {k}, k, |es|);
  }

  method BuildMember(letters: Letters, v: Json, key: string, depth: nat, b: Budget) returns (r: Option<seq<Element>>)
    modifies b
    ensures r.Some? <==> MemberWithin(v, MAX_DEPTH - depth - 1) && CountMember(v) <= old(b.remaining)
    ensures r.Some? ==> b.remaining == old(b.remaining) - CountMember(v) && RepresentsMember(letters, r.value, v, key)
    ensures b.remaining <= old(b.remaining)
    decreases v, 3, 0
  {
    if v.Array? {
      r := BuildItems(letters, v.items, key, depth, b);
    } else {
      var child := BuildElement(letters, v, key, depth + 1, b);
      if child.None? {
        return None;
      }
      r := Some([child.value]);
    }
  }

  /**
   * convertJSONToXML: a document converts exactly when it has at most 100000 elements nested at most 256
   * deep, and the tree has exactly that many elements.
   */
  method ConvertJson(letters: Letters, v: Json) returns (r: Option<Element>)
    ensures r.Some? <==> Count(v) <= 100000 && Within(v, 256)
    ensures r.Some? ==> Represents(letters, r.value, v, "root") && Size(r.value) == Count(v) && Height(r.value) <= 256
  {
    var b := new Budget();
    r := BuildElement(letters, v, "root", 0, b);
    if r.Some? {
      RepresentsSize(letters, r.value, v, "root");
      RepresentsDepth(letters, r.value, v, "root", 256);
    }
  }
}
