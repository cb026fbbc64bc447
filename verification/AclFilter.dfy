/**
 * The capability ACL of policies/mcp-acl-list/mcp-acl-list.go: the decision on a call, the filtering of a
 * list response, and their agreement, through the event-stream printer of SseEvents.
 */
module AclFilter {
  import opened Common
  import opened Sequences
  import opened Lines
  import opened SseEvents

  datatype Json =
    | JNull | JBool(flag: bool) | JNumber(bits: int) | JString(text: string)  // a float64 by its bits
    | JArray(items: seq<Json>) | JObject(members: map<string, Json>)

  datatype AclConfig = AclConfig(enabled: bool, mode: string, exceptions: set<string>)

  datatype Policy = Policy(tools: AclConfig, resources: AclConfig, prompts: AclConfig)

  function ConfigFor(p: Policy, family: string): AclConfig {
    if family == "tools" then p.tools
    else if family == "resources" then p.resources
    else if family == "prompts" then p.prompts
    else AclConfig(false, "", {})
  }

  predicate Allowed(c: AclConfig, key: string) {
    if c.mode == "allow" then key !in c.exceptions else key in c.exceptions
  }

  function NameField(family: string): string { if family == "resources" then "uri" else "name" }

  /** unicode.IsSpace, as strings.TrimSpace uses it. */
  predicate IsSpace(c: char) {
    || '\t' <= c <= '\r' || c == ' ' || c == '\U{85}' || c == '\U{A0}' || c == '\U{1680}'
    || '\U{2000}' <= c <= '\U{200A}' || c == '\U{2028}' || c == '\U{2029}' || c == '\U{202F}'
    || c == '\U{205F}' || c == '\U{3000}'
  }

  predicate Blank(s: string) { forall c :: c in s ==> IsSpace(c) }

  // ---- The decision on a call ----

  datatype Decision = Pass | InvalidParams | MissingName | Denied

  function MethodParts(name: string): Option<(string, string)> {
    var parts := Split(name, '/');
    if |parts| == 2 && (parts[0] == "tools" || parts[0] == "resources" || parts[0] == "prompts")
    then Some((parts[0], parts[1])) else None
  }

  predicate IsCall(family: string, action: string) {
    || (family == "tools" && action == "call")
    || (family == "resources" && action == "read")
    || (family == "prompts" && action == "get")
  }

  /** `name` is None when the request's params were not an object. */
  function Decide(p: Policy, methodName: string, name: Option<string>): Decision {
    match MethodParts(methodName)
    case None => Pass
    case Some((family, action)) =>
      if !IsCall(family, action) || !ConfigFor(p, family).enabled then Pass
      else if name.None? then InvalidParams
      else if Blank(name.value) then MissingName
      else if !Allowed(ConfigFor(p, family), name.value) then Denied
      else Pass
  }

  class SharedContext {
    var metadata: map<string, string>

    /** The request-phase decision. It leaves the note that the response phase filters by. */
    method Govern(p: Policy, methodName: string, name: Option<string>) returns (d: Decision)
      modifies this
      ensures d == Decide(p, methodName, name)
      ensures metadata == match MethodParts(methodName)
        case None => old(metadata)
        case Some((family, action)) => old(metadata)["mcp.capabilityType" := family]["mcp.action" := action]
    {
      var parts := MethodParts(methodName);
      if parts.None? {
        return Pass;
      }
      var (family, action) := parts.value;
      metadata := metadata["mcp.capabilityType" := family];
      metadata := metadata["mcp.action" := action];
      if !IsCall(family, action) {
        return Pass;
      }
      var config := ConfigFor(p, family);
      if !config.enabled {
        return Pass;
      }
      if name.None? {
        return InvalidParams;
      }
      if Blank(name.value) {
        return MissingName;
      }
      if !Allowed(config, name.value) {
        return Denied;
      }
      return Pass;
    }
  }

  // ---- Filtering a list ----

  /** The name of a list entry, when it has a usable one. */
  function EntryName(item: Json, family: string): Option<string> {
    if item.JObject? && NameField(family) in item.members && item.members[NameField(family)].JString?
       && !Blank(item.members[NameField(family)].text)
    then Some(item.members[NameField(family)].text) else None
  }

  /** Entries without a usable name survive only an allow-by-default ACL. */
  predicate Keeps(c: AclConfig, family: string, item: Json) {
    match EntryName(item, family)
    case None => c.mode == "allow"
    case Some(name) => Allowed(c, name)
  }

  function KeepTest(c: AclConfig, family: string): Json -> bool { item => Keeps(c, family, item) }

  function Kept(c: AclConfig, family: string, items: seq<Json>): seq<Json> {
    Filter(KeepTest(c, family), items)
  }

  method FilterListItems(items: seq<Json>, family: string, c: AclConfig) returns (filtered: seq<Json>, changed: bool)
    ensures filtered == Kept(c, family, items)
    ensures changed <==> filtered != items
  {
    filtered, changed := [], false;
    ghost var test := KeepTest(c, family);
    var i := 0;
    while i < |items|
      invariant 0 <= i <= |items|
      invariant filtered == Filter(test, items[..i])
      invariant changed <==> |filtered| < i
    {
      assert items[..i + 1][..i] == items[..i];
      var keep;
      var name := EntryName(items[i], family);
      if name.None? {
        keep := c.mode == "allow";
      } else {
        keep := Allowed(c, name.value);
      }
      assert keep == test(items[i]);
      if keep {
        filtered := filtered + [items[i]];
      } else {
        changed := true;
      }
      i := i + 1;
    }
    assert items[..i] == items;
    FilterMembers(test, items);
  }

  function CallAction(family: string): string {
    if family == "tools" then "call" else if family == "resources" then "read" else "get"
  }

  function CallOf(family: string): string { family + (['/'] + CallAction(family)) }

  lemma SplitTwo(a: string, b: string)
    requires '/' !in a && '/' !in b
    ensures Split(a + (['/'] + b), '/') == [a, b]
  {
    SplitAt(a, b, '/');
    SplitWhole(a, '/');
    SplitWhole(b, '/');
  }

  /** A named entry is listed exactly when a call to it would pass. */
  lemma ListedIffCallable(p: Policy, family: string, items: seq<Json>, item: Json)
    requires family == "tools" || family == "resources" || family == "prompts"
    requires ConfigFor(p, family).enabled && item in items && EntryName(item, family).Some?
    ensures item in Kept(ConfigFor(p, family), family, items) <==>
            Decide(p, CallOf(family), EntryName(item, family)).Pass?
  {
    FilterMembers(KeepTest(ConfigFor(p, family), family), items);
    SplitTwo(family, CallAction(family));
  }

  /** What an ACL says of a name: the mode is the default, and the exceptions invert it. */
  function Ruling(c: AclConfig, name: Option<string>): Decision {
    if !c.enabled then Pass
    else if name.None? then InvalidParams
    else if Blank(name.value) then MissingName
    else if (c.mode == "allow") == (name.value in c.exceptions) then Denied
    else Pass
  }

  /** Each kind of call is ruled by its own section, and no other method is. */
  lemma CallsRuled(p: Policy, methodName: string, name: Option<string>)
    ensures methodName == "tools/call" ==> Decide(p, methodName, name) == Ruling(p.tools, name)
    ensures methodName == "resources/read" ==> Decide(p, methodName, name) == Ruling(p.resources, name)
    ensures methodName == "prompts/get" ==> Decide(p, methodName, name) == Ruling(p.prompts, name)
    ensures methodName != "tools/call" && methodName != "resources/read" && methodName != "prompts/get" ==>
      Decide(p, methodName, name) == Pass
  {
    if methodName == "tools/call" {
      CallRuled(p, "tools", "call", name);
      assert methodName == "tools" + "/" + "call";
    } else if methodName == "resources/read" {
      CallRuled(p, "resources", "read", name);
      assert methodName == "resources" + "/" + "read";
    } else if methodName == "prompts/get" {
      CallRuled(p, "prompts", "get", name);
      assert methodName == "prompts" + "/" + "get";
    } else {
      OthersPass(p, methodName, name);
    }
  }

  lemma CallRuled(p: Policy, family: string, action: string, name: Option<string>)
    requires IsCall(family, action)
    ensures Decide(p, family + "/" + action, name) == Ruling(ConfigFor(p, family), name)
  {
    CallParts(family, action);
  }

  lemma OthersPass(p: Policy, methodName: string, name: Option<string>)
    requires forall family, action :: IsCall(family, action) ==> methodName != family + "/" + action
    ensures Decide(p, methodName, name) == Pass
  {
    var parts := MethodParts(methodName);
    if parts.Some? {
      JoinSplit(methodName, '/');
      assert Split(methodName, '/') == [parts.value.0, parts.value.1];
      JoinTwo(parts.value.0, parts.value.1);
      assert !IsCall(parts.value.0, parts.value.1);
    }
  }

  lemma CallParts(family: string, action: string)
    requires IsCall(family, action)
    ensures MethodParts(family + "/" + action) == Some((family, action))
  {
    SplitTwo(family, action);
    assert family + "/" + action == family + (['/'] + action);
  }

  lemma JoinTwo(a: string, b: string)
    ensures Join([a, b], '/') == a + "/" + b
  {
    assert [a, b][1..] == [b];
    assert a + (['/'] + b) == a + "/" + b;
  }

  /** Which entries of a list survive, by the field that names them. */
  lemma EntrySurvives(c: AclConfig, family: string, fields: map<string, Json>, name: string)
    ensures var field := if family == "resources" then "uri" else "name";
      && (field in fields && fields[field] == JString(name) && !Blank(name) ==>
           (Keeps(c, family, JObject(fields)) <==> (c.mode == "allow") != (name in c.exceptions)))
      && (field !in fields || !fields[field].JString? || Blank(fields[field].text) ==>
           (Keeps(c, family, JObject(fields)) <==> c.mode == "allow"))
    ensures Keeps(c, family, JString(name)) <==> c.mode == "allow"
  {
  }

  /** Blank text is made of white space, and names are not. */
  lemma BlankText()
    ensures Blank("") && Blank(" \t\r\n") && !Blank("a") && !Blank(" a ")
  {
    assert "a"[0] == 'a' && " a "[1] == 'a' && !IsSpace('a');
  }

  // ---- Filtering a response ----

  type Payload = map<string, Json>

  /** encoding/json, as a pair of functions; `unmarshal` is None for anything but an object or null. */
  datatype Codec = Codec(unmarshal: string -> Option<Payload>, marshal: Payload -> Option<string>)

  /** The list a payload carries for the family, unless it reports an error or carries none. */
  function ListIn(m: Payload, family: string): Option<seq<Json>> {
    if "error" !in m && "result" in m && m["result"].JObject?
       && family in m["result"].members && m["result"].members[family].JArray?
    then Some(m["result"].members[family].items) else None
  }

  function WithList(m: Payload, family: string, items: seq<Json>): Payload
    requires ListIn(m, family).Some?
  {
    m["result" := JObject(m["result"].members[family := JArray(items)])]
  }

  /** The list an event's data carries. */
  function ListInData(codec: Codec, data: string, family: string): Option<seq<Json>> {
    if Blank(data) || codec.unmarshal(data).None? then None else ListIn(codec.unmarshal(data).value, family)
  }

  /** A payload written back: it marshals, to one line of text that decodes to the same payload. */
  ghost predicate Rewrites(codec: Codec, m: Payload) {
    && codec.marshal(m).Some? && codec.unmarshal(codec.marshal(m).value) == Some(m)
    && '\n' !in codec.marshal(m).value && '\r' !in codec.marshal(m).value && !Blank(codec.marshal(m).value)
  }

  /** What is assumed of the codec: a payload that was decoded can be written back with its list filtered. */
  ghost predicate Lawful(codec: Codec, c: AclConfig, family: string) {
    forall data :: ListInData(codec, data, family).Some? ==>
      Rewrites(codec, WithList(codec.unmarshal(data).value, family, Kept(c, family, ListInData(codec, data, family).value)))
  }

  /** Blank text is no payload, and a carriage return at the end of a line makes no difference to one. */
  ghost predicate IgnoresLineEnds(codec: Codec) {
    forall data :: (Blank(data) ==> codec.unmarshal(data).None?) && codec.unmarshal(TrimLines(data)) == codec.unmarshal(data)
  }

  /** The replacement for `data` when its list must shrink and the result marshals. */
  function Replacement(codec: Codec, c: AclConfig, family: string, data: string): Option<string> {
    var list := ListInData(codec, data, family);
    if list.None? || Kept(c, family, list.value) == list.value then None
    else codec.marshal(WithList(codec.unmarshal(data).value, family, Kept(c, family, list.value)))
  }

  function FilterData(codec: Codec, c: AclConfig, family: string, data: string): string {
    match Replacement(codec, c, family, data)
    case None => data
    case Some(text) => text
  }

  function FilterEvent(codec: Codec, c: AclConfig, family: string, e: Event): Event {
    e.(data := FilterData(codec, c, family, e.data))
  }

  function FilterEvents(codec: Codec, c: AclConfig, family: string, es: seq<Event>): (r: seq<Event>)
    ensures |r| == |es|
  {
    seq(|es|, i requires 0 <= i < |es| => FilterEvent(codec, c, family, es[i]))
  }

  ghost predicate AnyReplaced(codec: Codec, c: AclConfig, family: string, es: seq<Event>) {
    exists i :: 0 <= i < |es| && Replacement(codec, c, family, es[i].data).Some?
  }

  /** One payload, as both response paths treat it. */
  method ReplaceData(codec: Codec, c: AclConfig, family: string, data: string) returns (r: Option<string>)
    ensures !Blank(data) ==> r == Replacement(codec, c, family, data)
  {
    var decoded := codec.unmarshal(data);
    if decoded.None? {
      return None;
    }
    var m := decoded.value;
    if "error" in m {
      return None;
    }
    if "result" !in m || !m["result"].JObject? {
      return None;
    }
    var result := m["result"].members;
    if family !in result || !result[family].JArray? {
      return None;
    }
    var filtered, changed := FilterListItems(result[family].items, family, c);
    if !changed {
      return None;
    }
    result := result[family := JArray(filtered)];
    m := m["result" := JObject(result)];
    r := codec.marshal(m);
  }

  /** The loop over the events; data is replaced in place. */
  method FilterAll(codec: Codec, c: AclConfig, family: string, es: seq<Event>) returns (events: seq<Event>, updated: bool)
    ensures events == FilterEvents(codec, c, family, es)
    ensures updated <==> AnyReplaced(codec, c, family, es)
  {
    events, updated := es, false;
    var i := 0;
    while i < |events|
      invariant 0 <= i <= |events| == |es|
      invariant forall j :: 0 <= j < i ==> events[j] == FilterEvent(codec, c, family, es[j])
      invariant forall j :: i <= j < |es| ==> events[j] == es[j]
      invariant updated <==> exists j :: 0 <= j < i && Replacement(codec, c, family, es[j].data).Some?
    {
      var r: Option<string> := None;
      if !Blank(events[i].data) {
        r := ReplaceData(codec, c, family, events[i].data);
      }
      assert r == Replacement(codec, c, family, es[i].data);
      if r.Some? {
        events := events[i := events[i].(data := r.value)];
        updated := true;
      }
      i := i + 1;
    }
  }

  /** The response phase on an event-stream body: None leaves the upstream body as it is. */
  method FilterStream(codec: Codec, p: Policy, family: string, action: string, body: string) returns (out: Option<string>)
    ensures var c, es := ConfigFor(p, family), Parse(body);
      if action == "list" && c.enabled && AnyReplaced(codec, c, family, es)
      then out == Some(Build(FilterEvents(codec, c, family, es)))
      else out == None
  {
    var c := ConfigFor(p, family);
    if family == "" || action != "list" || !c.enabled {
      return None;
    }
    var es := ParseEventStream(body);
    var events, updated := FilterAll(codec, c, family, es);
    if !updated {
      return None;
    }
    var text := BuildEventStream(events);
    out := Some(text);
  }

  /** The body the client receives. */
  ghost function Delivered(codec: Codec, c: AclConfig, family: string, body: string): string {
    if AnyReplaced(codec, c, family, Parse(body)) then Build(FilterEvents(codec, c, family, Parse(body))) else body
  }

  /** Events of the upstream body that survive being reprinted; replaced data always does. */
  ghost predicate Reprintable(codec: Codec, c: AclConfig, family: string, e: Event) {
    && NoneEndsInCr(e.fields)
    && (Replacement(codec, c, family, e.data).Some? || (Live(e) && NoneEndsInCr(Split(e.data, '\n'))))
  }

  lemma FilteredPrintable(codec: Codec, c: AclConfig, family: string, e: Event)
    requires Lawful(codec, c, family) && Shaped(e)
    ensures Printable(FilterEvent(codec, c, family, e)) <==> Reprintable(codec, c, family, e)
  {
    var r := Replacement(codec, c, family, e.data);
    if r.Some? {
      SplitWhole(r.value, '\n');
      assert Split(r.value, '\n') == [r.value] && r.value != "";
    }
  }

  /**
   * What the client parses is the upstream's events with their lists filtered, exactly when nothing had
   * to be reprinted or every event survives reprinting.
   */
  lemma DeliveredEvents(codec: Codec, c: AclConfig, family: string, body: string)
    requires Lawful(codec, c, family)
    ensures var es := Parse(body);
      Parse(Delivered(codec, c, family, body)) == FilterEvents(codec, c, family, es) <==>
        !AnyReplaced(codec, c, family, es) || forall i :: 0 <= i < |es| ==> Reprintable(codec, c, family, es[i])
  {
    var es := Parse(body);
    var fs := FilterEvents(codec, c, family, es);
    ParsedShaped(body);
    if AnyReplaced(codec, c, family, es) {
      RoundTrip(fs);
      forall i | 0 <= i < |es| ensures Printable(fs[i]) <==> Reprintable(codec, c, family, es[i]) {
        assert es[i] in es;
        FilteredPrintable(codec, c, family, es[i]);
      }
      assert (forall e :: e in fs ==> Printable(e)) <==> (forall i :: 0 <= i < |fs| ==> Printable(fs[i]));
    } else {
      forall i | 0 <= i < |es| ensures fs[i] == es[i] {
        assert Replacement(codec, c, family, es[i].data).None?;
      }
    }
  }

  /** `kept` are the entries of `items` at the increasing positions `at`, which are all that pass. */
  ghost predicate Picks(c: AclConfig, family: string, items: seq<Json>, kept: seq<Json>, at: seq<int>) {
    && |at| == |kept|
    && (forall i :: 0 <= i < |at| ==> 0 <= at[i] < |items| && kept[i] == items[at[i]])
    && (forall i, j :: 0 <= i < j < |at| ==> at[i] < at[j])
    && (forall k :: 0 <= k < |items| ==> (k in at <==> Keeps(c, family, items[k])))
  }

  /**
   * Every list in the filtered events is the upstream list of that event with the forbidden entries gone and
   * the others in their original order.
   */
  lemma FilteredLists(codec: Codec, c: AclConfig, family: string, es: seq<Event>, i: nat) returns (at: seq<int>)
    requires Lawful(codec, c, family) && i < |es|
    ensures var before, after := ListInData(codec, es[i].data, family),
                                 ListInData(codec, FilterEvents(codec, c, family, es)[i].data, family);
      && FilterEvents(codec, c, family, es)[i].fields == es[i].fields
      && (before.None? <==> after.None?)
      && (before.Some? ==> Picks(c, family, before.value, after.value, at))
      && (after.Some? ==> forall item :: item in after.value ==> Keeps(c, family, item))
  {
    var data := es[i].data;
    var before := ListInData(codec, data, family);
    at := [];
    if before.Some? {
      at := FilterInOrder(KeepTest(c, family), before.value);
      FilterMembers(KeepTest(c, family), before.value);
      FilteredList(codec, c, family, data);
    }
  }

  lemma FilteredList(codec: Codec, c: AclConfig, family: string, data: string)
    requires Lawful(codec, c, family) && ListInData(codec, data, family).Some?
    ensures ListInData(codec, FilterData(codec, c, family, data), family) == Some(Kept(c, family, ListInData(codec, data, family).value))
  {
    var before := ListInData(codec, data, family).value;
    var kept := Kept(c, family, before);
    if kept != before {
      var m := WithList(codec.unmarshal(data).value, family, kept);
      assert Rewrites(codec, m);
      assert ListIn(m, family) == Some(kept);
    }
  }

  /** Errors, and payloads without a list of the family under their result, are passed on as they came. */
  lemma NoListNoChange(codec: Codec, c: AclConfig, family: string, data: string, m: Payload)
    requires codec.unmarshal(data) == Some(m)
    requires "error" in m || "result" !in m || !m["result"].JObject? || family !in m["result"].members || !m["result"].members[family].JArray?
    ensures FilterData(codec, c, family, data) == data
  {
  }

  /** Of a replaced payload nothing but the list is different. */
  lemma OnlyListChanges(codec: Codec, c: AclConfig, family: string, data: string)
    requires Lawful(codec, c, family) && Replacement(codec, c, family, data).Some?
    ensures codec.unmarshal(data).Some? && codec.unmarshal(FilterData(codec, c, family, data)).Some?
    ensures var before, after := codec.unmarshal(data).value, codec.unmarshal(FilterData(codec, c, family, data)).value;
      && before.Keys == after.Keys && (forall k :: k in before && k != "result" ==> after[k] == before[k])
      && "result" in before && before["result"].JObject? && after["result"].JObject?
      && before["result"].members.Keys == after["result"].members.Keys
      && forall k :: k in before["result"].members && k != family ==> after["result"].members[k] == before["result"].members[k]
  {
    var list := ListInData(codec, data, family).value;
    assert Rewrites(codec, WithList(codec.unmarshal(data).value, family, Kept(c, family, list)));
  }

  ghost predicate Permitted(codec: Codec, c: AclConfig, family: string, data: string) {
    var list := ListInData(codec, data, family);
    list.Some? ==> forall item :: item in list.value ==> Keeps(c, family, item)
  }

  lemma FilteredPermitted(codec: Codec, c: AclConfig, family: string, data: string)
    requires Lawful(codec, c, family)
    ensures Permitted(codec, c, family, FilterData(codec, c, family, data))
  {
    if ListInData(codec, data, family).Some? {
      FilteredList(codec, c, family, data);
      FilterMembers(KeepTest(c, family), ListInData(codec, data, family).value);
    }
  }

  /** For every upstream body, reprintable or not, no list the client can find holds a forbidden entry. */
  lemma DeliveredPermitted(codec: Codec, c: AclConfig, family: string, body: string, e: Event)
    requires Lawful(codec, c, family) && IgnoresLineEnds(codec)
    requires e in Parse(Delivered(codec, c, family, body))
    ensures Permitted(codec, c, family, e.data)
  {
    var es := Parse(body);
    var fs := FilterEvents(codec, c, family, es);
    if AnyReplaced(codec, c, family, es) {
      ParsedShaped(body);
      forall f | f in fs ensures Shaped(f) && Permitted(codec, c, family, f.data) {
        var i :| 0 <= i < |fs| && fs[i] == f;
        assert es[i] in es;
        FilteredPermitted(codec, c, family, es[i].data);
      }
      ReprintedData(fs);
      assert FromEvents(fs, e.data);
      if e.data != "" {
        var f :| f in fs && e.data == TrimLines(f.data);
        assert codec.unmarshal(e.data) == codec.unmarshal(f.data);
      }
    } else {
      FilteredPermitted(codec, c, family, e.data);
      var i :| 0 <= i < |es| && es[i] == e;
      assert Replacement(codec, c, family, es[i].data).None?;
    }
  }

  // ---- An event that reprinting loses ----

  /** A stream of an event with this data and one with empty data. */
  function TwoEvents(text: string): string { "data: " + text + "\n\ndata:\n\n" }

  lemma TwoLines(first: string)
    ensures Unlines([first, "", "data:", ""], '\n') == first + "\n\ndata:\n\n"
  {
    var lines := [first, "", "data:", ""];
    assert lines[1..] == ["", "data:", ""] && lines[1..][1..] == ["data:", ""] && lines[1..][1..][1..] == [""];
    assert Unlines([""], '\n') == "\n";
    assert Unlines(["data:", ""], '\n') == "data:\n\n";
    assert Unlines(["", "data:", ""], '\n') == "\ndata:\n\n";
  }

  lemma FeedFive(p: Parser, ls: seq<string>)
    requires |ls| == 5
    ensures FeedAll(p, ls) == Feed(Feed(Feed(Feed(Feed(p, ls[0]), ls[1]), ls[2]), ls[3]), ls[4])
  {
    assert ls[1..][1..] == ls[2..] && ls[2..][1..] == ls[3..] && ls[3..][1..] == ls[4..] && ls[4..][1..] == [];
    var p2 := Feed(Feed(p, ls[0]), ls[1]);
    assert FeedAll(p, ls) == FeedAll(p2, ls[2..]);
    var p4 := Feed(Feed(p2, ls[2]), ls[3]);
    assert FeedAll(p2, ls[2..]) == FeedAll(p4, ls[4..]);
    assert FeedAll(p4, ls[4..]) == FeedAll(Feed(p4, ls[4]), []);
  }

  /** Reading one data line and the blank line after it. */
  lemma FeedOne(done: seq<Event>, line: string, text: string)
    requires Feed(Parser(done, [], []), line) == Parser(done, [], [text])
    ensures Feed(Feed(Parser(done, [], []), line), "") == Parser(done + [Event([], text)], [], [])
  {
    assert Join([text], '\n') == text;
  }

  lemma ParseTwo(text: string)
    requires '\n' !in text && !EndsInCr(text)
    ensures Parse(TwoEvents(text)) == [Event([], text), Event([], "")]
  {
    var first := "data: " + text;
    var lines := [first, "", "data:", ""];
    TwoLines(first);
    SplitUnlines(lines, '\n');
    FeedFive(EMPTY, lines + [""]);
    FeedTwo(text);
  }

  lemma FeedTextEvent(done: seq<Event>, text: string)
    requires !EndsInCr(text)
    ensures Feed(Feed(Parser(done, [], []), "data: " + text), "") == Parser(done + [Event([], text)], [], [])
  {
    FeedTagged(Parser(done, [], []), text);
    assert [] + [text] == [text];
    FeedOne(done, "data: " + text, text);
  }

  lemma FeedEmptyEvent(done: seq<Event>)
    ensures Feed(Feed(Parser(done, [], []), "data:"), "") == Parser(done + [Event([], "")], [], [])
  {
    assert "data:"[5..] == "";
    assert Feed(Parser(done, [], []), "data:") == Parser(done, [], [""]);
    FeedOne(done, "data:", "");
  }

  lemma FeedTwo(text: string)
    requires !EndsInCr(text)
    ensures Feed(Feed(Feed(Feed(EMPTY, "data: " + text), ""), "data:"), "") == Parser([Event([], text), Event([], "")], [], [])
  {
    FeedTextEvent([], text);
    FeedEmptyEvent([] + [Event([], text)]);
  }

  /** When the list in the first event must shrink, the client does not get the second. */
  lemma EmptyEventLost(codec: Codec, c: AclConfig, family: string, text: string)
    requires Lawful(codec, c, family) && Replacement(codec, c, family, text).Some?
    requires '\n' !in text && !EndsInCr(text)
    ensures Parse(Delivered(codec, c, family, TwoEvents(text))) != FilterEvents(codec, c, family, Parse(TwoEvents(text)))
  {
    ParseTwo(text);
    var es := Parse(TwoEvents(text));
    assert es[0].data == text && es[1] == Event([], "");
    assert !Reprintable(codec, c, family, es[1]);
    DeliveredEvents(codec, c, family, TwoEvents(text));
  }

  const DenyAll := AclConfig(true, "deny", {})

  const LISTING := "{\"result\":{\"tools\":[{\"name\":\"secret\"}]}}"

  const SecretTool := JObject(map["name" := JString("secret")])

  const Decoded: Payload := Tools([SecretTool])

  lemma NotBlank(s: string)
    requires s != "" && !IsSpace(s[0])
    ensures !Blank(s)
  {
    assert s[0] in s;
  }

  lemma MustShrink(codec: Codec, c: AclConfig, family: string, text: string, m: Payload, item: Json)
    requires Lawful(codec, c, family) && codec.unmarshal(text) == Some(m) && !Blank(text)
    requires ListIn(m, family) == Some([item]) && !Keeps(c, family, item)
    ensures Replacement(codec, c, family, text).Some?
  {
    FilterMembers(KeepTest(c, family), [item]);
    assert [item][0] in [item];
    assert ListInData(codec, text, family) == Some([item]);
    assert Rewrites(codec, WithList(m, family, Kept(c, family, [item])));
  }

  lemma DecodedList()
    ensures ListIn(Decoded, "tools") == Some([SecretTool]) && !Keeps(DenyAll, "tools", SecretTool)
    ensures '\n' !in LISTING && !EndsInCr(LISTING) && !Blank(LISTING)
  {
    NotBlank(LISTING);
  }

  /** A real response: one tool, denied, then an event with empty data, which the client never sees. */
  lemma SecretListing(codec: Codec)
    requires Lawful(codec, DenyAll, "tools") && codec.unmarshal(LISTING) == Some(Decoded)
    ensures Parse(Delivered(codec, DenyAll, "tools", TwoEvents(LISTING))) != FilterEvents(codec, DenyAll, "tools", Parse(TwoEvents(LISTING)))
  {
    DecodedList();
    MustShrink(codec, DenyAll, "tools", LISTING, Decoded, SecretTool);
    EmptyEventLost(codec, DenyAll, "tools", LISTING);
  }

  const FILTERED := "{\"result\":{\"tools\":[]}}"

  const Shrunk: Payload := Tools([])

  /** As much of encoding/json as that response needs. */
  function ListingCodec(): Codec {
    Codec(
      s => if s == LISTING then Some(Decoded) else if s == FILTERED then Some(Shrunk) else None,
      m => if m == Shrunk then Some(FILTERED) else None)
  }

  function Tools(items: seq<Json>): Payload { map["result" := JObject(map["tools" := JArray(items)])] }

  lemma ToolsEmptied(items: seq<Json>)
    ensures ListIn(Tools(items), "tools") == Some(items) && WithList(Tools(items), "tools", []) == Tools([])
  {
    var inner := map["tools" := JArray(items)];
    assert inner["tools" := JArray([])] == map["tools" := JArray([])];
    assert Tools(items)["result" := JObject(map["tools" := JArray([])])] == Tools([]);
  }

  lemma NothingKept(items: seq<Json>)
    requires items == [] || items == [SecretTool]
    ensures Kept(DenyAll, "tools", items) == []
  {
    FilterMembers(KeepTest(DenyAll, "tools"), items);
  }

  lemma ShrunkRewrites()
    ensures Rewrites(ListingCodec(), Shrunk)
  {
    NotBlank(FILTERED);
    assert |FILTERED| != |LISTING|;
  }

  /** It meets what is assumed of the codec. */
  lemma ListingCodecLawful()
    ensures Lawful(ListingCodec(), DenyAll, "tools") && ListingCodec().unmarshal(LISTING) == Some(Decoded)
  {
    var codec := ListingCodec();
    forall data | ListInData(codec, data, "tools").Some?
      ensures Rewrites(codec, WithList(codec.unmarshal(data).value, "tools", Kept(DenyAll, "tools", ListInData(codec, data, "tools").value)))
    {
      var items := if data == LISTING then [SecretTool] else [];
      assert codec.unmarshal(data).value == Tools(items);
      ToolsEmptied(items);
      NothingKept(items);
      ShrunkRewrites();
    }
  }
}
