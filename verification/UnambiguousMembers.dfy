/**
 * The member-spelling check of policies/mcp-auth/request_validation.go and the decision it protects in
 * policies/mcp-auth/mcp-auth.go: a request that passes is read the same way by every JSON reader, however
 * it treats letter case and repeated names, so whether it needs authentication cannot depend on the reader.
 */
module UnambiguousMembers {
  import opened Common

  datatype Node = Null | Text(text: string) | Object(members: seq<Member>) | Other

  datatype Member = Member(name: string, value: Node)

  /** strings.EqualFold, of which only reflexivity is used, and that it separates "method" from "params". */
  type Folding = (string, string) -> bool

  ghost predicate Reflexive(fold: Folding) { forall s :: fold(s, s) }

  /** Every occurrence of the name, in any spelling, is the one exact occurrence. */
  ghost predicate Unambiguous(ms: seq<Member>, name: string, fold: Folding) {
    && (forall i :: 0 <= i < |ms| && fold(ms[i].name, name) ==> ms[i].name == name)
    && (forall i, j :: 0 <= i < j < |ms| ==> !(fold(ms[i].name, name) && fold(ms[j].name, name)))
  }

  // ---- How readers pick a member ----

  function First(ms: seq<Member>, test: string -> bool): Option<nat> {
    if ms == [] then None
    else if test(ms[0].name) then Some(0)
    else
      match First(ms[1..], test)
      case None => None
      case Some(i) => Some(i + 1)
  }

  function Last(ms: seq<Member>, test: string -> bool): Option<nat> {
    if ms == [] then None
    else if test(ms[|ms| - 1].name) then Some(|ms| - 1)
    else Last(ms[..|ms| - 1], test)
  }

  lemma {:induction false} FirstSpec(ms: seq<Member>, test: string -> bool)
    ensures match First(ms, test)
      case None => forall k :: 0 <= k < |ms| ==> !test(ms[k].name)
      case Some(i) => i < |ms| && test(ms[i].name) && forall k :: 0 <= k < i ==> !test(ms[k].name)
  {
    if ms != [] && !test(ms[0].name) {
      FirstSpec(ms[1..], test);
      assert forall k :: 1 <= k < |ms| ==> ms[k] == ms[1..][k - 1];
    }
  }

  lemma {:induction false} LastSpec(ms: seq<Member>, test: string -> bool)
    ensures match Last(ms, test)
      case None => forall k :: 0 <= k < |ms| ==> !test(ms[k].name)
      case Some(i) => i < |ms| && test(ms[i].name) && forall k :: i < k < |ms| ==> !test(ms[k].name)
  {
    if ms != [] && !test(ms[|ms| - 1].name) {
      LastSpec(ms[..|ms| - 1], test);
    }
  }

  datatype Rule = ExactFirst | ExactLast | FoldFirst | FoldLast

  function TestFor(rule: Rule, name: string, fold: Folding): string -> bool {
    if rule.ExactFirst? || rule.ExactLast? then (s: string) => s == name else (s: string) => fold(s, name)
  }

  /** The position of the member a reader takes for `name`; encoding/json itself reads by FoldLast. */
  function Pick(rule: Rule, ms: seq<Member>, name: string, fold: Folding): Option<nat> {
    if rule.ExactFirst? || rule.FoldFirst? then First(ms, TestFor(rule, name, fold))
    else Last(ms, TestFor(rule, name, fold))
  }

  lemma PickSpec(rule: Rule, ms: seq<Member>, name: string, fold: Folding)
    requires Reflexive(fold)
    ensures match Pick(rule, ms, name, fold)
      case None => forall k :: 0 <= k < |ms| ==> ms[k].name != name
      case Some(i) => i < |ms| && fold(ms[i].name, name)
    ensures Pick(rule, ms, name, fold).None? && (rule.FoldFirst? || rule.FoldLast?) ==>
      forall k :: 0 <= k < |ms| ==> !fold(ms[k].name, name)
  {
    FirstSpec(ms, TestFor(rule, name, fold));
    LastSpec(ms, TestFor(rule, name, fold));
  }

  /** A name is unambiguous exactly when all four kinds of reader take the same member for it. */
  lemma UnambiguousIffReadersAgree(ms: seq<Member>, name: string, fold: Folding)
    requires Reflexive(fold)
    ensures Unambiguous(ms, name, fold) <==>
      forall r, r' :: Pick(r, ms, name, fold) == Pick(r', ms, name, fold)
  {
    var exact, loose := TestFor(ExactFirst, name, fold), TestFor(FoldFirst, name, fold);
    FirstSpec(ms, loose);
    LastSpec(ms, TestFor(FoldLast, name, fold));
    if Unambiguous(ms, name, fold) {
      forall r, r' ensures Pick(r, ms, name, fold) == Pick(r', ms, name, fold) {
        PickSpec(r, ms, name, fold);
        PickSpec(r', ms, name, fold);
      }
    }
    if forall r, r' :: Pick(r, ms, name, fold) == Pick(r', ms, name, fold) {
      FirstSpec(ms, exact);
      assert Pick(ExactFirst, ms, name, fold) == Pick(FoldFirst, ms, name, fold) == Pick(FoldLast, ms, name, fold);
    }
  }

  // ---- The check ----

  /** The canonical name a member stands for. */
  function CanonicalFor(name: string, names: seq<string>, fold: Folding): Option<string> {
    if names == [] then None
    else if fold(name, names[0]) then Some(names[0])
    else CanonicalFor(name, names[1..], fold)
  }

  /** No spelling stands for two of the names. */
  ghost predicate Separate(names: seq<string>, fold: Folding) {
    forall s, i, j :: 0 <= i < j < |names| ==> !(fold(s, names[i]) && fold(s, names[j]))
  }

  lemma {:induction false} CanonicalForSpec(name: string, names: seq<string>, fold: Folding)
    requires Separate(names, fold)
    ensures forall n :: n in names ==> (fold(name, n) <==> CanonicalFor(name, names, fold) == Some(n))
    ensures CanonicalFor(name, names, fold).Some? ==> CanonicalFor(name, names, fold).value in names
  {
    if names != [] {
      CanonicalForSpec(name, names[1..], fold);
      assert names == [names[0]] + names[1..];
      if fold(name, names[0]) {
        forall n | n in names[1..] ensures !fold(name, n) {
          var j :| 0 <= j < |names| - 1 && names[1..][j] == n;
          assert names[j + 1] == n;
        }
      }
    }
  }

  lemma UnambiguousNext(ms: seq<Member>, i: nat, name: string, fold: Folding)
    requires i < |ms| && Unambiguous(ms[..i], name, fold)
    requires fold(ms[i].name, name) ==> ms[i].name == name && forall k :: 0 <= k < i ==> !fold(ms[k].name, name)
    ensures Unambiguous(ms[..i + 1], name, fold)
  {
    assert forall k :: 0 <= k < i ==> ms[..i + 1][k] == ms[..i][k];
  }

  /** checkAuthMemberSpelling: accepts exactly the objects in which each name is unambiguous. */
  method CheckSpelling(ms: seq<Member>, names: seq<string>, fold: Folding) returns (ok: bool)
    requires Separate(names, fold)
    ensures ok <==> forall n :: n in names ==> Unambiguous(ms, n, fold)
  {
    var seen: set<string> := {};
    var i := 0;
    while i < |ms|
      invariant 0 <= i <= |ms|
      invariant forall n :: n in names ==> Unambiguous(ms[..i], n, fold)
      invariant forall n :: n in names ==> (n in seen <==> exists k :: 0 <= k < i && fold(ms[k].name, n))
    {
      CanonicalForSpec(ms[i].name, names, fold);
      var canonical := CanonicalFor(ms[i].name, names, fold);
      if canonical.Some? {
        var n := canonical.value;
        assert fold(ms[i].name, n);
        if n in seen {
          assert !Unambiguous(ms, n, fold);
          return false;
        }
        if ms[i].name != n {
          assert !Unambiguous(ms, n, fold);
          return false;
        }
        seen := seen + {n};
      }
      forall n | n in names ensures Unambiguous(ms[..i + 1], n, fold) {
        UnambiguousNext(ms, i, n, fold);
      }
      i := i + 1;
    }
    assert ms[..i] == ms;
    ok := true;
  }

  // ---- The decision ----

  datatype SecurityConfig = SecurityConfig(enabled: bool, exceptions: seq<string>)

  datatype AuthConfig =
    AuthConfig(tools: SecurityConfig, resources: SecurityConfig, prompts: SecurityConfig, methods: SecurityConfig)

  /** The configuration a method is judged by, and by which name. */
  function RuleFor(c: AuthConfig, methodName: string, capability: string): (SecurityConfig, string) {
    if methodName == "tools/call" then (c.tools, capability)
    else if methodName == "resources/read" then (c.resources, capability)
    else if methodName == "prompts/get" then (c.prompts, capability)
    else (c.methods, methodName)
  }

  /** Exceptions invert the default. */
  predicate AuthRequired(c: AuthConfig, methodName: string, capability: string) {
    var (rule, name) := RuleFor(c, methodName, capability);
    rule.enabled != (name in rule.exceptions)
  }

  predicate NamesCapability(methodName: string) {
    methodName == "tools/call" || methodName == "prompts/get" || methodName == "resources/read"
  }

  /** Which section answers for which method, and whether by the capability or by the method. */
  lemma RequiredPerMethod(c: AuthConfig, methodName: string, capability: string)
    ensures AuthRequired(c, "tools/call", capability) <==> c.tools.enabled != (capability in c.tools.exceptions)
    ensures AuthRequired(c, "resources/read", capability) <==> c.resources.enabled != (capability in c.resources.exceptions)
    ensures AuthRequired(c, "prompts/get", capability) <==> c.prompts.enabled != (capability in c.prompts.exceptions)
    ensures !NamesCapability(methodName) ==>
      (AuthRequired(c, methodName, capability) <==> c.methods.enabled != (methodName in c.methods.exceptions))
  {
  }

  /** No other section has a say. */
  lemma SectionDecides(c: AuthConfig, d: AuthConfig, methodName: string, capability: string)
    requires methodName == "tools/call" ==> c.tools == d.tools
    requires methodName == "resources/read" ==> c.resources == d.resources
    requires methodName == "prompts/get" ==> c.prompts == d.prompts
    requires !NamesCapability(methodName) ==> c.methods == d.methods
    ensures AuthRequired(c, methodName, capability) <==> AuthRequired(d, methodName, capability)
  {
  }

  method IsAuthRequired(c: AuthConfig, methodName: string, capability: string) returns (required: bool)
    ensures required <==> AuthRequired(c, methodName, capability)
    ensures methodName == "tools/call" ==> (required <==> c.tools.enabled != (capability in c.tools.exceptions))
    ensures methodName == "resources/read" ==> (required <==> c.resources.enabled != (capability in c.resources.exceptions))
    ensures methodName == "prompts/get" ==> (required <==> c.prompts.enabled != (capability in c.prompts.exceptions))
    ensures !NamesCapability(methodName) ==> (required <==> c.methods.enabled != (methodName in c.methods.exceptions))
  {
    RequiredPerMethod(c, methodName, capability);
    var (rule, name) := RuleFor(c, methodName, capability);
    if |rule.exceptions| == 0 {
      return rule.enabled;
    }
    var excepted := IsExcepted(rule.exceptions, name);
    required := if rule.enabled then !excepted else excepted;
  }

  method IsExcepted(exceptions: seq<string>, name: string) returns (found: bool)
    ensures found <==> name in exceptions
  {
    var i := 0;
    while i < |exceptions|
      invariant 0 <= i <= |exceptions| && name !in exceptions[..i]
    {
      if exceptions[i] == name {
        return true;
      }
      i := i + 1;
    }
    assert exceptions[..i] == exceptions;
    return false;
  }

  /** What a reader makes of a member it looks up; a missing or non-string one reads as "". */
  function TextAt(rule: Rule, ms: seq<Member>, name: string, fold: Folding): string {
    match Pick(rule, ms, name, fold)
    case None => ""
    case Some(i) => if i < |ms| && ms[i].value.Text? then ms[i].value.text else ""
  }

  function ParamsAt(rule: Rule, ms: seq<Member>, fold: Folding): seq<Member> {
    match Pick(rule, ms, "params", fold)
    case None => []
    case Some(i) => if i < |ms| && ms[i].value.Object? then ms[i].value.members else []
  }

  function CapabilityField(methodName: string): string { if methodName == "resources/read" then "uri" else "name" }

  /** Whether authentication is required according to what one kind of reader sees. */
  predicate RequiredBy(rule: Rule, c: AuthConfig, ms: seq<Member>, fold: Folding) {
    var m := TextAt(rule, ms, "method", fold);
    AuthRequired(c, m, TextAt(rule, ParamsAt(rule, ms, fold), CapabilityField(m), fold))
  }

  ghost predicate ParamsUnambiguous(m: Member, methodName: string, fold: Folding) {
    m.name == "params" && m.value.Object? ==> Unambiguous(m.value.members, CapabilityField(methodName), fold)
  }

  /** Every name the decision reads is unambiguous where it is read. */
  ghost predicate DocumentUnambiguous(ms: seq<Member>, methodName: string, fold: Folding) {
    && Unambiguous(ms, "method", fold) && Unambiguous(ms, "params", fold)
    && (NamesCapability(methodName) ==> forall m :: m in ms ==> ParamsUnambiguous(m, methodName, fold))
  }

  /** validateUnambiguousMembers, on the members of the body; `methodName` is what encoding/json decoded. */
  method Validate(ms: seq<Member>, methodName: string, fold: Folding) returns (ok: bool)
    requires Separate(["method", "params"], fold)
    ensures ok <==> DocumentUnambiguous(ms, methodName, fold)
  {
    var names := ["method", "params"];
    assert names[0] == "method" && names[1] == "params";
    assert forall n :: n in names <==> n == "method" || n == "params";
    ok := CheckSpelling(ms, names, fold);
    if !ok || !NamesCapability(methodName) {
      return;
    }
    var field := [CapabilityField(methodName)];
    assert field[0] == CapabilityField(methodName);
    var i := 0;
    while i < |ms|
      invariant 0 <= i <= |ms|
      invariant forall k :: 0 <= k < i ==> ParamsUnambiguous(ms[k], methodName, fold)
    {
      if ms[i].name == "params" && ms[i].value.Object? {
        ok := CheckSpelling(ms[i].value.members, field, fold);
        if !ok {
          assert !ParamsUnambiguous(ms[i], methodName, fold);
          return;
        }
      }
      i := i + 1;
    }
    ok := true;
  }

  /** The request that names one capability. */
  function RequestFor(methodName: string, field: string, capability: string): seq<Member> {
    [Member("method", Text(methodName)), Member("params", Object([Member(field, Text(capability))]))]
  }

  lemma ReadsOne(r: Rule, name: string, value: Node, fold: Folding)
    requires Reflexive(fold)
    ensures Pick(r, [Member(name, value)], name, fold) == Some(0)
  {
    PickSpec(r, [Member(name, value)], name, fold);
    assert [Member(name, value)][0].name == name;
  }

  /** Every reader finds the method and the capability of such a request, and only the right section judges it. */
  lemma RequiredForCall(r: Rule, c: AuthConfig, capability: string, fold: Folding)
    requires Reflexive(fold) && !fold("method", "params") && !fold("params", "method")
    ensures RequiredBy(r, c, RequestFor("tools/call", "name", capability), fold) <==> c.tools.enabled != (capability in c.tools.exceptions)
    ensures RequiredBy(r, c, RequestFor("resources/read", "uri", capability), fold) <==> c.resources.enabled != (capability in c.resources.exceptions)
    ensures RequiredBy(r, c, RequestFor("prompts/get", "name", capability), fold) <==> c.prompts.enabled != (capability in c.prompts.exceptions)
  {
    FindsMembers(r, "tools/call", "name", capability, fold);
    FindsMembers(r, "resources/read", "uri", capability, fold);
    FindsMembers(r, "prompts/get", "name", capability, fold);
    RequiredPerMethod(c, "", capability);
  }

  lemma FindsMembers(r: Rule, methodName: string, field: string, capability: string, fold: Folding)
    requires Reflexive(fold) && !fold("method", "params") && !fold("params", "method")
    ensures var ms := RequestFor(methodName, field, capability);
      && TextAt(r, ms, "method", fold) == methodName
      && ParamsAt(r, ms, fold) == [Member(field, Text(capability))]
      && TextAt(r, ParamsAt(r, ms, fold), field, fold) == capability
  {
    var ms := RequestFor(methodName, field, capability);
    assert ms[0].name == "method" && ms[1].name == "params";
    PickSpec(r, ms, "method", fold);
    PickSpec(r, ms, "params", fold);
    ReadsOne(r, field, Text(capability), fold);
  }

  // ---- Decoding ----

  predicate TextOrNull(v: Node) { v.Text? || v.Null? }

  /** encoding/json fills the params structure: name and uri must be text, in every spelling that matches. */
  ghost predicate ParamsDecode(ms: seq<Member>, fold: Folding) {
    forall m :: m in ms && (fold(m.name, "name") || fold(m.name, "uri")) ==> TextOrNull(m.value)
  }

  ghost predicate MemberDecodes(m: Member, fold: Folding) {
    && (fold(m.name, "method") ==> TextOrNull(m.value))
    && (fold(m.name, "params") ==> m.value.Null? || (m.value.Object? && ParamsDecode(m.value.members, fold)))
  }

  /** The body decodes into the request structure; a value of the wrong type anywhere makes that fail. */
  ghost predicate Decodes(ms: seq<Member>, fold: Folding) { forall m :: m in ms ==> MemberDecodes(m, fold) }

  /** The method that is decoded: a later match overwrites an earlier one, and null overwrites nothing. */
  function DecodedMethod(ms: seq<Member>, fold: Folding): string {
    if ms == [] then ""
    else
      var last := ms[|ms| - 1];
      if fold(last.name, "method") && last.value.Text? then last.value.text else DecodedMethod(ms[..|ms| - 1], fold)
  }

  lemma {:induction false} NoMethod(ms: seq<Member>, fold: Folding)
    requires forall i :: 0 <= i < |ms| ==> !fold(ms[i].name, "method")
    ensures DecodedMethod(ms, fold) == ""
  {
    if ms != [] {
      NoMethod(ms[..|ms| - 1], fold);
    }
  }

  lemma {:induction false} DecodedAt(ms: seq<Member>, i: nat, fold: Folding)
    requires i < |ms| && fold(ms[i].name, "method")
    requires forall j :: 0 <= j < |ms| && j != i ==> !fold(ms[j].name, "method")
    ensures DecodedMethod(ms, fold) == if ms[i].value.Text? then ms[i].value.text else ""
  {
    var n := |ms| - 1;
    if i < n {
      DecodedAt(ms[..n], i, fold);
    } else {
      NoMethod(ms[..n], fold);
    }
  }

  /** On an unambiguous document the decoded method is what every reader reads. */
  lemma DecodedIsRead(ms: seq<Member>, fold: Folding)
    requires Reflexive(fold) && Unambiguous(ms, "method", fold)
    ensures DecodedMethod(ms, fold) == TextAt(FoldLast, ms, "method", fold)
  {
    PickSpec(FoldLast, ms, "method", fold);
    match Pick(FoldLast, ms, "method", fold)
    case None => NoMethod(ms, fold);
    case Some(i) => DecodedAt(ms, i, fold);
  }

  method DecodesBody(ms: seq<Member>, fold: Folding) returns (ok: bool)
    ensures ok <==> Decodes(ms, fold)
  {
    var i := 0;
    while i < |ms|
      invariant 0 <= i <= |ms| && forall j :: 0 <= j < i ==> MemberDecodes(ms[j], fold)
    {
      var m := ms[i];
      if fold(m.name, "method") && !TextOrNull(m.value) {
        assert m in ms && !MemberDecodes(m, fold);
        return false;
      }
      if fold(m.name, "params") && !m.value.Null? {
        ok := DecodesParams(m.value, fold);
        if !ok {
          assert m in ms && !MemberDecodes(m, fold);
          return;
        }
      }
      i := i + 1;
    }
    ok := true;
  }

  method DecodesParams(v: Node, fold: Folding) returns (ok: bool)
    ensures ok <==> v.Object? && ParamsDecode(v.members, fold)
  {
    if !v.Object? {
      return false;
    }
    var i := 0;
    while i < |v.members|
      invariant 0 <= i <= |v.members|
      invariant forall j :: 0 <= j < i && (fold(v.members[j].name, "name") || fold(v.members[j].name, "uri")) ==> TextOrNull(v.members[j].value)
    {
      var m := v.members[i];
      if (fold(m.name, "name") || fold(m.name, "uri")) && !TextOrNull(m.value) {
        assert m in v.members;
        return false;
      }
      i := i + 1;
    }
    ok := true;
  }

  // ---- The decision ----

  datatype Action = BadRequest | Exempt | Authenticate

  /** The bodies that are not refused; None stands for bytes that are not JSON. */
  ghost predicate Acceptable(body: Option<Node>, fold: Folding) {
    && body.Some? && body.value.Object? && Decodes(body.value.members, fold)
    && DocumentUnambiguous(body.value.members, DecodedMethod(body.value.members, fold), fold)
  }

  /**
   * The body-phase decision. It refuses exactly the bodies that are not acceptable, and otherwise decides as
   * a reader of any kind would from the same bytes.
   */
  method Decide(c: AuthConfig, body: Option<Node>, fold: Folding) returns (a: Action)
    requires Reflexive(fold) && Separate(["method", "params"], fold)
    ensures a == BadRequest <==> !Acceptable(body, fold)
    ensures a != BadRequest ==> body.Some? && body.value.Object? && forall r :: RequiredBy(r, c, body.value.members, fold) <==> a == Authenticate
  {
    // null decodes into an empty request and is then refused for not being an object.
    if body.None? || !body.value.Object? {
      return BadRequest;
    }
    var ms := body.value.members;
    var ok := DecodesBody(ms, fold);
    if !ok {
      return BadRequest;
    }
    var methodName := DecodedMethod(ms, fold);
    ok := Validate(ms, methodName, fold);
    if !ok {
      return BadRequest;
    }
    DecodedIsRead(ms, fold);
    var capability := TextAt(FoldLast, ParamsAt(FoldLast, ms, fold), CapabilityField(methodName), fold);
    var required := IsAuthRequired(c, methodName, capability);
    forall r ensures RequiredBy(r, c, ms, fold) <==> required {
      ReadersAgree(r, c, ms, fold);
    }
    a := if required then Authenticate else Exempt;
  }

  lemma ReadersAgree(r: Rule, c: AuthConfig, ms: seq<Member>, fold: Folding)
    requires Reflexive(fold)
    requires DocumentUnambiguous(ms, TextAt(FoldLast, ms, "method", fold), fold)
    ensures RequiredBy(r, c, ms, fold) <==> RequiredBy(FoldLast, c, ms, fold)
  {
    SamePick(r, ms, "method", fold);
    SamePick(r, ms, "params", fold);
    var m := TextAt(FoldLast, ms, "method", fold);
    assert TextAt(r, ms, "method", fold) == m && ParamsAt(r, ms, fold) == ParamsAt(FoldLast, ms, fold);
    if NamesCapability(m) {
      ParamsRead(ms, m, fold);
      SamePick(r, ParamsAt(FoldLast, ms, fold), CapabilityField(m), fold);
    }
  }

  lemma ParamsRead(ms: seq<Member>, m: string, fold: Folding)
    requires Reflexive(fold) && DocumentUnambiguous(ms, m, fold) && NamesCapability(m)
    ensures Unambiguous(ParamsAt(FoldLast, ms, fold), CapabilityField(m), fold)
  {
    PickSpec(FoldLast, ms, "params", fold);
    if Pick(FoldLast, ms, "params", fold).Some? {
      var i := Pick(FoldLast, ms, "params", fold).value;
      assert ms[i] in ms && ParamsUnambiguous(ms[i], m, fold);
    }
  }

  lemma SamePick(r: Rule, ms: seq<Member>, name: string, fold: Folding)
    requires Reflexive(fold) && Unambiguous(ms, name, fold)
    ensures Pick(r, ms, name, fold) == Pick(FoldLast, ms, name, fold)
  {
    UnambiguousIffReadersAgree(ms, name, fold);
  }
}
