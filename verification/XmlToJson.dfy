/**
 * The other direction of policies/json-xml-mediator/jsonxmlmediation.go (processXMLNode): children are
 * grouped by name and the groups visited in an arbitrary order, against the same allowance.
 */
module XmlToJson {
  import opened Common
  import opened Conversion

  datatype Node = Node(name: string, attrs: seq<(string, string)>, content: string, nodes: seq<Node>)

  datatype Value = Null | Scalar(text: string) | List(items: seq<Value>) | Record(fields: map<string, Value>)

  /** strings.TrimSpace and the policy's reading of a scalar. */
  datatype Text = Text(trim: string -> string, parse: string -> Value)

  // ---- What a node converts to ----

  function Attributes(t: Text, attrs: seq<(string, string)>): map<string, Value> {
    if attrs == [] then map[]
    else
      var last := attrs[|attrs| - 1];
      Attributes(t, attrs[..|attrs| - 1])["@" + last.0 := t.parse(last.1)]
  }

  /** The children, converted, in document order and still with their names. */
  function ConvertAll(t: Text, nodes: seq<Node>): (r: seq<(string, Value)>)
    ensures |r| == |nodes|
    decreases nodes, 0
  {
    if nodes == [] then []
    else
      var n := |nodes| - 1;
      ConvertAll(t, nodes[..n]) + [(nodes[n].name, Convert(t, nodes[n]))]
  }

  function Named(pairs: seq<(string, Value)>, name: string): seq<Value> {
    if pairs == [] then []
    else
      var last := pairs[|pairs| - 1];
      Named(pairs[..|pairs| - 1], name) + (if last.0 == name then [last.1] else [])
  }

  /** A name that occurs once maps to its value, a repeated one to the list of values in document order. */
  function Grouped(vs: seq<Value>): Value { if |vs| == 1 then vs[0] else List(vs) }

  function NamesOf(nodes: seq<Node>): set<string> {
    if nodes == [] then {} else NamesOf(nodes[..|nodes| - 1]) + {nodes[|nodes| - 1].name}
  }

  function GroupedByName(pairs: seq<(string, Value)>, names: set<string>): map<string, Value> {
    map name | name in names :: Grouped(Named(pairs, name))
  }

  function WithText(t: Text, content: string, fields: map<string, Value>): Value {
    var c := t.trim(content);
    Record(if c != "" then fields["#text" := t.parse(c)] else fields)
  }

  function Convert(t: Text, node: Node): Value
    decreases node, 1
  {
    if node.nodes == [] && node.attrs == [] then
      var c := t.trim(node.content);
      if c == "" then Null else t.parse(c)
    else
      WithText(t, node.content, Attributes(t, node.attrs) + GroupedByName(ConvertAll(t, node.nodes), NamesOf(node.nodes)))
  }

  // ---- Where everything is found ----

  /** How many of the nodes have this name. */
  function Namesakes(nodes: seq<Node>, name: string): nat {
    if nodes == [] then 0
    else Namesakes(nodes[..|nodes| - 1], name) + (if nodes[|nodes| - 1].name == name then 1 else 0)
  }

  lemma {:induction false} NamesakesPrefix(nodes: seq<Node>, k: nat)
    requires k < |nodes|
    ensures Namesakes(nodes[..k], nodes[k].name) < Namesakes(nodes, nodes[k].name) && nodes[k].name in NamesOf(nodes)
    decreases |nodes|
  {
    var n := |nodes| - 1;
    if k < n {
      NamesakesPrefix(nodes[..n], k);
      assert nodes[..n][..k] == nodes[..k];
    }
  }

  /** Among the values of its name, a child's stands behind those of its earlier namesakes. */
  lemma {:induction false} NamedAt(t: Text, nodes: seq<Node>, k: nat)
    requires k < |nodes|
    ensures var name := nodes[k].name;
      var vs := Named(ConvertAll(t, nodes), name);
      |vs| == Namesakes(nodes, name) > Namesakes(nodes[..k], name) && vs[Namesakes(nodes[..k], name)] == Convert(t, nodes[k])
    decreases |nodes|
  {
    var n, name := |nodes| - 1, nodes[k].name;
    NamesakesPrefix(nodes, k);
    assert ConvertAll(t, nodes)[..n] == ConvertAll(t, nodes[..n]);
    NamedCount(t, nodes[..n], name);
    if k < n {
      NamedAt(t, nodes[..n], k);
      assert nodes[..n][..k] == nodes[..k];
    }
  }

  lemma {:induction false} NamedCount(t: Text, nodes: seq<Node>, name: string)
    ensures |Named(ConvertAll(t, nodes), name)| == Namesakes(nodes, name)
  {
    if nodes != [] {
      var n := |nodes| - 1;
      assert ConvertAll(t, nodes)[..n] == ConvertAll(t, nodes[..n]);
      NamedCount(t, nodes[..n], name);
    }
  }

  /** A child's value is found under its name, alone or at its place in the list; only text may displace it. */
  lemma ChildIsFound(t: Text, node: Node, k: nat)
    requires k < |node.nodes| && (node.nodes[k].name == "#text" ==> t.trim(node.content) == "")
    ensures var name, v := node.nodes[k].name, Convert(t, node);
      && v.Record? && name in v.fields
      && if Namesakes(node.nodes, name) == 1 then v.fields[name] == Convert(t, node.nodes[k])
         else
           && v.fields[name].List? && |v.fields[name].items| == Namesakes(node.nodes, name) > Namesakes(node.nodes[..k], name)
           && v.fields[name].items[Namesakes(node.nodes[..k], name)] == Convert(t, node.nodes[k])
  {
    NamesakesPrefix(node.nodes, k);
    NamedAt(t, node.nodes, k);
  }

  lemma {:induction false} AttributeAt(t: Text, attrs: seq<(string, string)>, k: nat)
    requires k < |attrs| && forall j :: k < j < |attrs| ==> attrs[j].0 != attrs[k].0
    ensures "@" + attrs[k].0 in Attributes(t, attrs) && Attributes(t, attrs)["@" + attrs[k].0] == t.parse(attrs[k].1)
  {
    var n := |attrs| - 1;
    if k < n {
      AttributeAt(t, attrs[..n], k);
      assert ("@" + attrs[k].0)[1..] == attrs[k].0 && ("@" + attrs[n].0)[1..] == attrs[n].0;
    }
  }

  /** An attribute is found under its name with "@" in front; only a child of that very name may displace it. */
  lemma AttributeIsFound(t: Text, node: Node, k: nat)
    requires k < |node.attrs| && "@" + node.attrs[k].0 !in NamesOf(node.nodes)
    requires forall j :: k < j < |node.attrs| ==> node.attrs[j].0 != node.attrs[k].0
    ensures var key, v := "@" + node.attrs[k].0, Convert(t, node);
      v.Record? && key in v.fields && v.fields[key] == t.parse(node.attrs[k].1)
  {
    AttributeAt(t, node.attrs, k);
    assert ("@" + node.attrs[k].0)[0] == '@' && "#text"[0] == '#';
  }

  /** Text is under "#text" beside attributes and children, and is the whole value without them. */
  lemma TextIsFound(t: Text, node: Node)
    ensures var c, v := t.trim(node.content), Convert(t, node);
      if node.nodes == [] && node.attrs == [] then v == if c == "" then Null else t.parse(c)
      else v.Record? && (c != "" ==> "#text" in v.fields && v.fields["#text"] == t.parse(c))
  {
  }

  lemma {:induction false} AttributeKeys(t: Text, attrs: seq<(string, string)>, key: string)
    requires key in Attributes(t, attrs)
    ensures exists k :: 0 <= k < |attrs| && key == "@" + attrs[k].0
  {
    var n := |attrs| - 1;
    if key != "@" + attrs[n].0 {
      AttributeKeys(t, attrs[..n], key);
      var k :| 0 <= k < n && key == "@" + attrs[..n][k].0;
      assert key == "@" + attrs[k].0;
    }
  }

  /** Nothing else is in the record. */
  lemma NothingElse(t: Text, node: Node, key: string)
    requires Convert(t, node).Record? && (node.nodes != [] || node.attrs != []) && key in Convert(t, node).fields
    ensures key in NamesOf(node.nodes) || (key == "#text" && t.trim(node.content) != "") ||
      exists k :: 0 <= k < |node.attrs| && key == "@" + node.attrs[k].0
  {
    if key !in NamesOf(node.nodes) && key != "#text" {
      AttributeKeys(t, node.attrs, key);
    } else if key == "#text" && key !in NamesOf(node.nodes) && t.trim(node.content) == "" {
      AttributeKeys(t, node.attrs, key);
    }
  }

  // ---- What it costs ----

  function NodeCount(node: Node): nat { 1 + NodesCount(node.nodes) }

  function NodesCount(nodes: seq<Node>): nat {
    if nodes == [] then 0 else NodesCount(nodes[..|nodes| - 1]) + NodeCount(nodes[|nodes| - 1])
  }

  predicate NodeWithin(node: Node, n: int) { n >= 0 && NodesWithin(node.nodes, n - 1) }

  predicate NodesWithin(nodes: seq<Node>, n: int) {
    nodes == [] || (NodesWithin(nodes[..|nodes| - 1], n) && NodeWithin(nodes[|nodes| - 1], n))
  }

  /** The longest way down. */
  function NodeHeight(node: Node): int { 1 + NodesHeight(node.nodes) }

  function NodesHeight(nodes: seq<Node>): int {
    if nodes == [] then -1 else Max(NodesHeight(nodes[..|nodes| - 1]), NodeHeight(nodes[|nodes| - 1]))
  }

  lemma {:induction false} NodeWithinIsHeight(node: Node, n: int)
    ensures NodeHeight(node) >= 0
    ensures NodeWithin(node, n) <==> NodeHeight(node) <= n
    decreases node, 1
  {
    NodesWithinIsHeight(node.nodes, n - 1);
  }

  lemma {:induction false} NodesWithinIsHeight(nodes: seq<Node>, n: int)
    ensures NodesHeight(nodes) >= -1
    ensures NodesWithin(nodes, n) <==> NodesHeight(nodes) <= n || nodes == []
    decreases nodes, 0
  {
    if nodes != [] {
      NodesWithinIsHeight(nodes[..|nodes| - 1], n);
      NodeWithinIsHeight(nodes[|nodes| - 1], n);
    }
  }

  // ---- The groups ----

  type Groups = map<string, seq<Node>>

  function GroupAt(groups: Groups, name: string): seq<Node> { if name in groups then groups[name] else [] }

  function AddChild(groups: Groups, child: Node): Groups {
    groups[child.name := GroupAt(groups, child.name) + [child]]
  }

  function GroupsOf(nodes: seq<Node>): Groups {
    if nodes == [] then map[] else AddChild(GroupsOf(nodes[..|nodes| - 1]), nodes[|nodes| - 1])
  }

  /** The nodes of the groups named in `names`. */
  ghost function Total(groups: Groups, names: set<string>): nat {
    if names == {} then 0 else
      var k :| k in names;
      NodesCount(GroupAt(groups, k)) + Total(groups, names - {k})
  }

  ghost predicate AllWithin(groups: Groups, n: int) {
    forall name :: name in groups ==> NodesWithin(groups[name], n)
  }

  /** The order in which the groups are taken does not matter to their total. */
  lemma {:induction false} TotalAny(groups: Groups, names: set<string>, k: string)
    requires k in names
    ensures Total(groups, names) == NodesCount(GroupAt(groups, k)) + Total(groups, names - {k})
    decreases |names|
  {
    var j :| j in names && Total(groups, names) == NodesCount(GroupAt(groups, j)) + Total(groups, names - {j});
    if j != k {
      TotalAny(groups, names - {j}, k);
      TotalAny(groups, names - {k}, j);
      assert names - {j} - {k} == names - {k} - {j};
    }
  }

  lemma {:induction false} TotalFrame(g: Groups, h: Groups, names: set<string>)
    requires forall k :: k in names ==> GroupAt(g, k) == GroupAt(h, k)
    ensures Total(g, names) == Total(h, names)
    decreases |names|
  {
    if names != {} {
      var k :| k in names;
      TotalAny(g, names, k);
      TotalAny(h, names, k);
      TotalFrame(g, h, names - {k});
    }
  }

  lemma Appended(nodes: seq<Node>, x: Node, n: int)
    ensures NodesCount(nodes + [x]) == NodesCount(nodes) + NodeCount(x)
    ensures NodesWithin(nodes + [x], n) <==> NodesWithin(nodes, n) && NodeWithin(x, n)
  {
  }

  lemma TotalAdd(groups: Groups, x: Node)
    ensures var after := AddChild(groups, x);
      Total(after, after.Keys) == Total(groups, groups.Keys) + NodeCount(x)
  {
    var after, rest := AddChild(groups, x), groups.Keys - {x.name};
    TotalAny(after, after.Keys, x.name);
    assert after.Keys - {x.name} == rest;
    TotalFrame(groups, after, rest);
    Appended(GroupAt(groups, x.name), x, 0);
    if x.name in groups {
      TotalAny(groups, groups.Keys, x.name);
    } else {
      assert rest == groups.Keys;
    }
  }

  lemma WithinAdd(groups: Groups, x: Node, n: int)
    ensures AllWithin(AddChild(groups, x), n) <==> AllWithin(groups, n) && NodeWithin(x, n)
  {
    var after := AddChild(groups, x);
    Appended(GroupAt(groups, x.name), x, n);
    if AllWithin(after, n) {
      forall name | name in groups ensures NodesWithin(groups[name], n) {
        assert name in after && NodesWithin(after[name], n);
      }
      assert x.name in after;
    }
  }

  /** Grouping loses no node and hides no depth. */
  lemma {:induction false} GroupsTotal(nodes: seq<Node>, n: int)
    ensures Total(GroupsOf(nodes), GroupsOf(nodes).Keys) == NodesCount(nodes)
    ensures AllWithin(GroupsOf(nodes), n) <==> NodesWithin(nodes, n)
  {
    if nodes != [] {
      var m := |nodes| - 1;
      GroupsTotal(nodes[..m], n);
      TotalAdd(GroupsOf(nodes[..m]), nodes[m]);
      WithinAdd(GroupsOf(nodes[..m]), nodes[m], n);
    }
  }

  function Values(pairs: seq<(string, Value)>): (r: seq<Value>)
    ensures |r| == |pairs|
  {
    seq(|pairs|, i requires 0 <= i < |pairs| => pairs[i].1)
  }

  lemma ValuesAppended(t: Text, nodes: seq<Node>, x: Node)
    ensures Values(ConvertAll(t, nodes + [x])) == Values(ConvertAll(t, nodes)) + [Convert(t, x)]
  {
  }

  /** Converting a group gives the values that its name has in the whole. */
  lemma {:induction false} GroupValues(t: Text, nodes: seq<Node>, name: string)
    ensures Values(ConvertAll(t, GroupAt(GroupsOf(nodes), name))) == Named(ConvertAll(t, nodes), name)
    ensures GroupsOf(nodes).Keys == NamesOf(nodes)
  {
    if nodes != [] {
      var m := |nodes| - 1;
      GroupValues(t, nodes[..m], name);
      assert ConvertAll(t, nodes)[..m] == ConvertAll(t, nodes[..m]);
      ValuesAppended(t, GroupAt(GroupsOf(nodes[..m]), name), nodes[m]);
    }
  }

  /** What the groups convert to, name by name. */
  function ConvertGroups(t: Text, groups: Groups): map<string, Value> {
    map name | name in groups :: Grouped(Values(ConvertAll(t, groups[name])))
  }

  lemma ConvertGroupsOf(t: Text, nodes: seq<Node>)
    ensures ConvertGroups(t, GroupsOf(nodes)) == GroupedByName(ConvertAll(t, nodes), NamesOf(nodes))
  {
    GroupValues(t, nodes, "");
    forall name | name in NamesOf(nodes) ensures Values(ConvertAll(t, GroupsOf(nodes)[name])) == Named(ConvertAll(t, nodes), name) {
      GroupValues(t, nodes, name);
    }
  }

  // ---- The conversion ----

  method ReadAttributes(t: Text, attrs: seq<(string, string)>) returns (r: map<string, Value>)
    ensures r == Attributes(t, attrs)
  {
    r := map[];
    var i := 0;
    while i < |attrs|
      invariant 0 <= i <= |attrs| && r == Attributes(t, attrs[..i])
    {
      assert attrs[..i + 1][..i] == attrs[..i];
      r := r["@" + attrs[i].0 := t.parse(attrs[i].1)];
      i := i + 1;
    }
    assert attrs[..i] == attrs;
  }

  method GroupChildren(nodes: seq<Node>) returns (groups: Groups)
    ensures groups == GroupsOf(nodes)
  {
    groups := map[];
    var i := 0;
    while i < |nodes|
      invariant 0 <= i <= |nodes| && groups == GroupsOf(nodes[..i])
    {
      assert nodes[..i + 1][..i] == nodes[..i];
      groups := AddChild(groups, nodes[i]);
      i := i + 1;
    }
    assert nodes[..i] == nodes;
  }

  /** processXMLNode. */
  method ProcessNode(t: Text, node: Node, depth: nat, b: Budget) returns (r: Option<Value>)
    modifies b
    ensures r.Some? <==> NodeWithin(node, MAX_DEPTH - depth) && NodeCount(node) <= old(b.remaining)
    ensures r.Some? ==> b.remaining == old(b.remaining) - NodeCount(node) && r.value == Convert(t, node)
    ensures b.remaining <= old(b.remaining)
    decreases NodeCount(node), 0
  {
    if depth > MAX_DEPTH {
      return None;
    }
    var ok := b.Consume();
    if !ok {
      return None;
    }
    var content := t.trim(node.content);
    if |node.nodes| == 0 && |node.attrs| == 0 {
      assert node.nodes == [] && node.attrs == [];
      assert NodesCount([]) == 0 && NodesWithin([], MAX_DEPTH - depth - 1);
      return Some(if content == "" then Null else t.parse(content));
    }
    var fields := ProcessChildren(t, node.nodes, depth, b);
    if fields.None? {
      return None;
    }
    var attributes := ReadAttributes(t, node.attrs);
    var result := attributes + fields.value;
    if content != "" {
      result := result["#text" := t.parse(content)];
    }
    r := Some(Record(result));
  }

  method ProcessChildren(t: Text, nodes: seq<Node>, depth: nat, b: Budget) returns (r: Option<map<string, Value>>)
    modifies b
    ensures r.Some? <==> NodesWithin(nodes, MAX_DEPTH - depth - 1) && NodesCount(nodes) <= old(b.remaining)
    ensures r.Some? ==> b.remaining == old(b.remaining) - NodesCount(nodes)
    ensures r.Some? ==> r.value == GroupedByName(ConvertAll(t, nodes), NamesOf(nodes))
    ensures b.remaining <= old(b.remaining)
    decreases NodesCount(nodes), 4
  {
    var groups := GroupChildren(nodes);
    GroupsTotal(nodes, MAX_DEPTH - depth - 1);
    ConvertGroupsOf(t, nodes);
    r := ProcessGroups(t, groups, depth, b);
  }

  function KeysIn(keys: seq<string>): set<string> {
    if keys == [] then {} else KeysIn(keys[..|keys| - 1]) + {keys[|keys| - 1]}
  }

  predicate NoneTwice(keys: seq<string>) {
    keys == [] || (NoneTwice(keys[..|keys| - 1]) && keys[|keys| - 1] !in KeysIn(keys[..|keys| - 1]))
  }

  /** Go's map order: any order in which every key comes once. */
  method AnyOrder(keys: set<string>) returns (listing: seq<string>)
    ensures NoneTwice(listing) && KeysIn(listing) == keys
  {
    listing := [];
    var done: set<string> := {};
    while keys - done != {}
      invariant done <= keys && KeysIn(listing) == done && NoneTwice(listing)
      decreases keys - done
    {
      var k :| k in keys - done;
      assert (listing + [k])[..|listing|] == listing;
      listing := listing + [k];
      done := done + {k};
    }
    assert done == keys;
  }

  function ListedCount(groups: Groups, keys: seq<string>): nat {
    if keys == [] then 0 else ListedCount(groups, keys[..|keys| - 1]) + NodesCount(GroupAt(groups, keys[|keys| - 1]))
  }

  predicate ListedWithin(groups: Groups, keys: seq<string>, n: int) {
    keys == [] || (ListedWithin(groups, keys[..|keys| - 1], n) && NodesWithin(GroupAt(groups, keys[|keys| - 1]), n))
  }

  function ListedFields(t: Text, groups: Groups, keys: seq<string>): map<string, Value> {
    if keys == [] then map[]
    else
      var k := keys[|keys| - 1];
      ListedFields(t, groups, keys[..|keys| - 1])[k := Grouped(Values(ConvertAll(t, GroupAt(groups, k))))]
  }

  lemma {:induction false} ListedIsTotal(groups: Groups, keys: seq<string>)
    requires NoneTwice(keys)
    ensures ListedCount(groups, keys) == Total(groups, KeysIn(keys))
  {
    if keys != [] {
      var front, k := keys[..|keys| - 1], keys[|keys| - 1];
      ListedIsTotal(groups, front);
      TotalAny(groups, KeysIn(keys), k);
      assert KeysIn(keys) - {k} == KeysIn(front);
    }
  }

  lemma {:induction false} ListedIsWithin(groups: Groups, keys: seq<string>, n: int)
    ensures ListedWithin(groups, keys, n) <==> forall k :: k in KeysIn(keys) ==> NodesWithin(GroupAt(groups, k), n)
  {
    if keys != [] {
      ListedIsWithin(groups, keys[..|keys| - 1], n);
    }
  }

  lemma {:induction false} ListedIsFields(t: Text, groups: Groups, keys: seq<string>, k: string)
    ensures k in ListedFields(t, groups, keys) <==> k in KeysIn(keys)
    ensures k in KeysIn(keys) ==> ListedFields(t, groups, keys)[k] == Grouped(Values(ConvertAll(t, GroupAt(groups, k))))
  {
    if keys != [] {
      ListedIsFields(t, groups, keys[..|keys| - 1], k);
    }
  }

  /** Whatever the order, the groups cost the same, go as deep and convert to the same. */
  lemma AllListed(t: Text, groups: Groups, keys: seq<string>, n: int)
    requires NoneTwice(keys) && KeysIn(keys) == groups.Keys
    ensures ListedCount(groups, keys) == Total(groups, groups.Keys)
    ensures ListedWithin(groups, keys, n) <==> AllWithin(groups, n)
    ensures ListedFields(t, groups, keys) == ConvertGroups(t, groups)
  {
    ListedIsTotal(groups, keys);
    ListedIsWithin(groups, keys, n);
    var fields, goal := ListedFields(t, groups, keys), ConvertGroups(t, groups);
    forall k ensures (k in fields <==> k in goal) && (k in goal ==> fields[k] == goal[k]) {
      ListedIsFields(t, groups, keys, k);
    }
    assert forall k :: k in groups ==> GroupAt(groups, k) == groups[k];
  }

  method ProcessGroups(t: Text, groups: Groups, depth: nat, b: Budget) returns (r: Option<map<string, Value>>)
    modifies b
    ensures r.Some? <==> AllWithin(groups, MAX_DEPTH - depth - 1) && Total(groups, groups.Keys) <= old(b.remaining)
    ensures r.Some? ==> b.remaining == old(b.remaining) - Total(groups, groups.Keys) && r.value == ConvertGroups(t, groups)
    ensures b.remaining <= old(b.remaining)
    decreases Total(groups, groups.Keys), 3
  {
    var keys := AnyOrder(groups.Keys);
    AllListed(t, groups, keys, MAX_DEPTH - depth - 1);
    r := ProcessListed(t, groups, keys, depth, b);
  }

  method ProcessListed(t: Text, groups: Groups, keys: seq<string>, depth: nat, b: Budget) returns (r: Option<map<string, Value>>)
    modifies b
    ensures r.Some? <==> ListedWithin(groups, keys, MAX_DEPTH - depth - 1) && ListedCount(groups, keys) <= old(b.remaining)
    ensures r.Some? ==> b.remaining == old(b.remaining) - ListedCount(groups, keys) && r.value == ListedFields(t, groups, keys)
    ensures b.remaining <= old(b.remaining)
    decreases ListedCount(groups, keys), 2
  {
    var result: map<string, Value> := map[];
    var i := 0;
    while i < |keys|
      invariant 0 <= i <= |keys|
      invariant ListedWithin(groups, keys[..i], MAX_DEPTH - depth - 1)
      invariant b.remaining == old(b.remaining) - ListedCount(groups, keys[..i])
      invariant result == ListedFields(t, groups, keys[..i])
    {
      ListedStep(t, groups, keys, i, MAX_DEPTH - depth - 1);
      var value := ProcessGroup(t, GroupAt(groups, keys[i]), depth, b);
      if value.None? {
        return None;
      }
      result := result[keys[i] := value.value];
      i := i + 1;
    }
    assert keys[..i] == keys;
    r := Some(result);
  }

  lemma ListedStep(t: Text, groups: Groups, keys: seq<string>, i: nat, n: int)
    requires i < |keys|
    ensures var g := GroupAt(groups, keys[i]);
      && ListedCount(groups, keys[..i + 1]) == ListedCount(groups, keys[..i]) + NodesCount(g) <= ListedCount(groups, keys)
      && (ListedWithin(groups, keys[..i + 1], n) <==> ListedWithin(groups, keys[..i], n) && NodesWithin(g, n))
      && (ListedWithin(groups, keys, n) ==> NodesWithin(g, n))
      && ListedFields(t, groups, keys[..i + 1]) == ListedFields(t, groups, keys[..i])[keys[i] := Grouped(Values(ConvertAll(t, g)))]
  {
    assert keys[..i + 1][..i] == keys[..i];
    ListedPrefix(groups, keys, i + 1, n);
  }

  lemma {:induction false} ListedPrefix(groups: Groups, keys: seq<string>, i: nat, n: int)
    requires i <= |keys|
    ensures ListedCount(groups, keys[..i]) <= ListedCount(groups, keys)
    ensures ListedWithin(groups, keys, n) ==> ListedWithin(groups, keys[..i], n)
    decreases |keys|
  {
    if i == |keys| {
      assert keys[..i] == keys;
    } else {
      var front := keys[..|keys| - 1];
      ListedPrefix(groups, front, i, n);
      assert front[..i] == keys[..i];
    }
  }

  /** One group: the value of a single child, or the list of the values of several. */
  method ProcessGroup(t: Text, children: seq<Node>, depth: nat, b: Budget) returns (r: Option<Value>)
    modifies b
    ensures r.Some? <==> NodesWithin(children, MAX_DEPTH - depth - 1) && NodesCount(children) <= old(b.remaining)
    ensures r.Some? ==> b.remaining == old(b.remaining) - NodesCount(children)
    ensures r.Some? ==> r.value == Grouped(Values(ConvertAll(t, children)))
    ensures b.remaining <= old(b.remaining)
    decreases NodesCount(children), 1
  {
    var values := [];
    var i := 0;
    while i < |children|
      invariant 0 <= i <= |children|
      invariant NodesWithin(children[..i], MAX_DEPTH - depth - 1)
      invariant b.remaining == old(b.remaining) - NodesCount(children[..i])
      invariant values == Values(ConvertAll(t, children[..i]))
    {
      ListStep(t, children, i, MAX_DEPTH - depth - 1);
      var processed := ProcessNode(t, children[i], depth + 1, b);
      if processed.None? {
        return None;
      }
      values := values + [processed.value];
      i := i + 1;
    }
    assert children[..i] == children;
    r := Some(if |children| == 1 then values[0] else List(values));
  }

  lemma ListStep(t: Text, nodes: seq<Node>, i: nat, n: int)
    requires i < |nodes|
    ensures NodesCount(nodes[..i + 1]) == NodesCount(nodes[..i]) + NodeCount(nodes[i]) <= NodesCount(nodes)
    ensures NodesWithin(nodes[..i + 1], n) <==> NodesWithin(nodes[..i], n) && NodeWithin(nodes[i], n)
    ensures NodesWithin(nodes, n) ==> NodeWithin(nodes[i], n)
    ensures Values(ConvertAll(t, nodes[..i + 1])) == Values(ConvertAll(t, nodes[..i])) + [Convert(t, nodes[i])]
  {
    assert nodes[..i + 1][..i] == nodes[..i];
    NodesPrefix(nodes, i + 1, n);
  }

  lemma {:induction false} NodesPrefix(nodes: seq<Node>, i: nat, n: int)
    requires i <= |nodes|
    ensures NodesCount(nodes[..i]) <= NodesCount(nodes)
    ensures NodesWithin(nodes, n) ==> NodesWithin(nodes[..i], n)
    decreases |nodes|
  {
    if i == |nodes| {
      assert nodes[..i] == nodes;
    } else {
      var front := nodes[..|nodes| - 1];
      NodesPrefix(front, i, n);
      assert front[..i] == nodes[..i];
    }
  }

  /**
   * nodeToMap: converts exactly the documents of at most 100000 nodes nested at most 256 deep, to a value
   * that does not depend on the order the groups were visited in.
   */
  method ConvertXml(t: Text, node: Node) returns (r: Option<map<string, Value>>)
    ensures r.Some? <==> NodeCount(node) <= 100000 && NodeHeight(node) <= 256
    ensures r.Some? ==> r.value == map[node.name := Convert(t, node)]
  {
    var b := new Budget();
    NodeWithinIsHeight(node, MAX_DEPTH);
    var processed := ProcessNode(t, node, 0, b);
    if processed.None? {
      return None;
    }
    r := Some(map[node.name := processed.value]);
  }
}
