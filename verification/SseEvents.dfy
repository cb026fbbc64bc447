/**
 * The server-sent-event parser and printer of policies/mcp-acl-list/mcp-acl-list.go, and exactly when
 * printing and parsing undo each other.
 */
module SseEvents {
  import opened Sequences
  import opened Lines

  const DATA := "data:"

  datatype Event = Event(fields: seq<string>, data: string)

  predicate EndsInCr(s: string) { s != "" && s[|s| - 1] == '\r' }

  function TrimCr(s: string): string { if EndsInCr(s) then s[..|s| - 1] else s }

  function TrimSpacePrefix(s: string): string { if " " <= s then s[1..] else s }

  /** The events found so far, and the lines of the one being read. */
  datatype Parser = Parser(events: seq<Event>, fields: seq<string>, dataLines: seq<string>)

  function Flush(p: Parser): Parser {
    if p.fields == [] && p.dataLines == [] then p
    else Parser(p.events + [Event(p.fields, Join(p.dataLines, '\n'))], [], [])
  }

  function Feed(p: Parser, raw: string): Parser {
    var line := TrimCr(raw);
    if line == "" then Flush(p)
    else if DATA <= line then p.(dataLines := p.dataLines + [TrimSpacePrefix(line[5..])])
    else p.(fields := p.fields + [line])
  }

  function FeedAll(p: Parser, lines: seq<string>): Parser
    decreases |lines|
  {
    if lines == [] then p else FeedAll(Feed(p, lines[0]), lines[1..])
  }

  const EMPTY := Parser([], [], [])

  function Parse(body: string): seq<Event> {
    Flush(FeedAll(EMPTY, Split(body, '\n'))).events
  }

  method ParseEventStream(body: string) returns (events: seq<Event>)
    ensures events == Parse(body)
  {
    var lines := Split(body, '\n');
    events := [];
    var fields: seq<string>, dataLines: seq<string> := [], [];
    var i := 0;
    assert lines[0..] == lines;
    while i < |lines|
      invariant 0 <= i <= |lines|
      invariant FeedAll(Parser(events, fields, dataLines), lines[i..]) == FeedAll(EMPTY, lines)
    {
      assert lines[i..][1..] == lines[i + 1..];
      var line := TrimCr(lines[i]);
      if line == "" {
        if fields != [] || dataLines != [] {
          events := events + [Event(fields, Join(dataLines, '\n'))];
          fields, dataLines := [], [];
        }
      } else if DATA <= line {
        dataLines := dataLines + [TrimSpacePrefix(line[5..])];
      } else {
        fields := fields + [line];
      }
      i := i + 1;
    }
    if fields != [] || dataLines != [] {
      events := events + [Event(fields, Join(dataLines, '\n'))];
    }
  }

  function WithTag(tag: string, lines: seq<string>): (r: seq<string>) {
    if lines == [] then [] else [tag + lines[0]] + WithTag(tag, lines[1..])
  }

  function Tagged(lines: seq<string>): seq<string> { WithTag("data: ", lines) }

  lemma NoTag(lines: seq<string>)
    ensures WithTag("", lines) == lines
  {
    if lines != [] {
      assert "" + lines[0] == lines[0];
      assert lines == [lines[0]] + lines[1..];
    }
  }

  function DataLines(data: string): seq<string> {
    if data == "" then [] else Split(data, '\n')
  }

  /** The lines one event is printed as, ending with the blank line that closes it. */
  function EventLines(e: Event): seq<string> {
    e.fields + (Tagged(DataLines(e.data)) + [""])
  }

  function StreamLines(es: seq<Event>): seq<string> {
    if es == [] then [] else EventLines(es[0]) + StreamLines(es[1..])
  }

  function Build(es: seq<Event>): string { Unlines(StreamLines(es), '\n') }

  method BuildEventStream(es: seq<Event>) returns (out: string)
    ensures out == Build(es)
  {
    out := "";
    var i := 0;
    assert es[0..] == es;
    while i < |es|
      invariant 0 <= i <= |es|
      invariant out + Build(es[i..]) == Build(es)
    {
      var text := BuildEvent(es[i]);
      assert es[i..][1..] == es[i + 1..];
      UnlinesAppend(EventLines(es[i]), StreamLines(es[i + 1..]), '\n');
      Assoc(out, text, Build(es[i + 1..]));
      out := out + text;
      i := i + 1;
    }
  }

  method BuildEvent(e: Event) returns (out: string)
    ensures out == Unlines(EventLines(e), '\n')
  {
    var fields := WriteLines("", e.fields);
    out := fields;
    if e.data != "" {
      var lines := WriteLines("data: ", Split(e.data, '\n'));
      out := out + lines;
    }
    assert Unlines([""], '\n') == "\n";
    UnlinesAppend(Tagged(DataLines(e.data)), [""], '\n');
    UnlinesAppend(e.fields, Tagged(DataLines(e.data)) + [""], '\n');
    NoTag(e.fields);
    Assoc(fields, Unlines(Tagged(DataLines(e.data)), '\n'), "\n");
    out := out + "\n";
  }

  method WriteLines(tag: string, lines: seq<string>) returns (out: string)
    ensures out == Unlines(WithTag(tag, lines), '\n')
  {
    out := "";
    var i := 0;
    assert lines[0..] == lines;
    while i < |lines|
      invariant 0 <= i <= |lines|
      invariant out + Unlines(WithTag(tag, lines[i..]), '\n') == Unlines(WithTag(tag, lines), '\n')
    {
      ghost var line, rest := tag + lines[i], Unlines(WithTag(tag, lines[i + 1..]), '\n');
      assert lines[i..][1..] == lines[i + 1..];
      assert WithTag(tag, lines[i..])[1..] == WithTag(tag, lines[i + 1..]);
      Assoc(out, line, "\n" + rest);
      Assoc(out + line, "\n", rest);
      out := out + (tag + lines[i]);
      out := out + "\n";
      i := i + 1;
    }
  }

  // ---- What survives printing ----

  /** A line the parser would keep as a field, and in one piece. */
  predicate FieldShape(f: string) { f != "" && '\n' !in f && !(DATA <= f) }

  ghost predicate Shaped(e: Event) { forall f :: f in e.fields ==> FieldShape(f) }

  ghost predicate NoneEndsInCr(lines: seq<string>) { forall l :: l in lines ==> !EndsInCr(l) }

  ghost predicate CrFree(e: Event) {
    NoneEndsInCr(e.fields) && NoneEndsInCr(Split(e.data, '\n'))
  }

  predicate Live(e: Event) { e.fields != [] || e.data != "" }

  ghost predicate Printable(e: Event) { Shaped(e) && CrFree(e) && Live(e) }

  lemma {:induction false} FeedAllAppend(p: Parser, a: seq<string>, b: seq<string>)
    ensures FeedAll(p, a + b) == FeedAll(FeedAll(p, a), b)
    decreases |a|
  {
    if a == [] {
      assert a + b == b;
    } else {
      assert (a + b)[0] == a[0] && (a + b)[1..] == a[1..] + b;
      FeedAllAppend(Feed(p, a[0]), a[1..], b);
    }
  }

  lemma {:induction false} FeedFields(p: Parser, fs: seq<string>)
    requires forall f :: f in fs ==> FieldShape(f) && !EndsInCr(f)
    ensures FeedAll(p, fs) == p.(fields := p.fields + fs)
    decreases |fs|
  {
    if fs == [] {
      assert p.fields + fs == p.fields;
    } else {
      FeedFields(Feed(p, fs[0]), fs[1..]);
      Assoc(p.fields, [fs[0]], fs[1..]);
      assert fs == [fs[0]] + fs[1..];
    }
  }

  lemma FeedTagged(p: Parser, l: string)
    ensures Feed(p, "data: " + l) == p.(dataLines := p.dataLines + [TrimCr(l)])
  {
    var line := TrimCr("data: " + l);
    assert line == "data: " + TrimCr(l);
    assert DATA == line[..5];
    assert line[5..] == " " + TrimCr(l);
    assert line[5..][1..] == TrimCr(l);
  }

  lemma {:induction false} FeedData(p: Parser, ls: seq<string>)
    requires NoneEndsInCr(ls)
    ensures FeedAll(p, Tagged(ls)) == p.(dataLines := p.dataLines + ls)
    decreases |ls|
  {
    if ls == [] {
      assert p.dataLines + ls == p.dataLines;
    } else {
      FeedTagged(p, ls[0]);
      assert Tagged(ls)[1..] == Tagged(ls[1..]);
      FeedData(p.(dataLines := p.dataLines + [ls[0]]), ls[1..]);
      Assoc(p.dataLines, [ls[0]], ls[1..]);
      assert ls == [ls[0]] + ls[1..];
    }
  }

  function LiveOnly(es: seq<Event>): seq<Event> {
    if es == [] then [] else (if Live(es[0]) then [es[0]] else []) + LiveOnly(es[1..])
  }

  lemma FeedEvent(done: seq<Event>, e: Event)
    requires Shaped(e) && CrFree(e)
    ensures FeedAll(Parser(done, [], []), EventLines(e)) == Parser(done + (if Live(e) then [e] else []), [], [])
  {
    var p0 := Parser(done, [], []);
    var p1 := p0.(fields := e.fields);
    var p2 := p1.(dataLines := DataLines(e.data));
    var ls := Tagged(DataLines(e.data));
    FeedAllAppend(p0, e.fields, ls + [""]);
    FeedFields(p0, e.fields);
    assert [] + e.fields == e.fields;
    FeedAllAppend(p1, ls, [""]);
    FeedData(p1, DataLines(e.data));
    assert [] + DataLines(e.data) == DataLines(e.data);
    assert FeedAll(p2, [""]) == FeedAll(Feed(p2, ""), []);
    JoinSplit(e.data, '\n');
  }

  lemma {:induction false} FeedStream(done: seq<Event>, es: seq<Event>)
    requires forall e :: e in es ==> Shaped(e) && CrFree(e)
    ensures FeedAll(Parser(done, [], []), StreamLines(es)) == Parser(done + LiveOnly(es), [], [])
    decreases |es|
  {
    if es == [] {
      assert done + [] == done;
    } else {
      var p := Parser(done, [], []);
      FeedAllAppend(p, EventLines(es[0]), StreamLines(es[1..]));
      FeedEvent(done, es[0]);
      var first := if Live(es[0]) then [es[0]] else [];
      FeedStream(done + first, es[1..]);
      Assoc(done, first, LiveOnly(es[1..]));
    }
  }

  lemma {:induction false} TaggedFree(ls: seq<string>)
    requires Free(ls, '\n')
    ensures Free(Tagged(ls), '\n')
  {
    if ls != [] {
      TaggedFree(ls[1..]);
    }
  }

  lemma {:induction false} StreamLinesFree(es: seq<Event>)
    requires forall e :: e in es ==> Shaped(e)
    ensures Free(StreamLines(es), '\n')
  {
    if es != [] {
      StreamLinesFree(es[1..]);
      assert es[0] in es && Shaped(es[0]);
      SplitFree(es[0].data, '\n');
      TaggedFree(DataLines(es[0].data));
    }
  }

  lemma ParseBuild(es: seq<Event>)
    requires forall e :: e in es ==> Shaped(e)
    ensures Parse(Build(es)) == Flush(FeedAll(EMPTY, StreamLines(es) + [""])).events
    ensures (forall e :: e in es ==> CrFree(e)) ==> Parse(Build(es)) == LiveOnly(es)
  {
    StreamLinesFree(es);
    SplitUnlines(StreamLines(es), '\n');
    if forall e :: e in es ==> CrFree(e) {
      FeedStream([], es);
      FeedAllAppend(EMPTY, StreamLines(es), [""]);
      var p := FeedAll(EMPTY, StreamLines(es));
      assert FeedAll(p, [""]) == FeedAll(Feed(p, ""), []);
      assert [] + LiveOnly(es) == LiveOnly(es);
    }
  }

  // ---- What parsing can produce ----

  ghost predicate ParserShaped(p: Parser) {
    && (forall e :: e in p.events ==> Shaped(e))
    && (forall f :: f in p.fields ==> FieldShape(f))
    && Free(p.dataLines, '\n')
  }

  lemma FeedShaped(p: Parser, raw: string)
    requires ParserShaped(p) && '\n' !in raw
    ensures ParserShaped(Feed(p, raw))
  {
  }

  lemma {:induction false} FeedAllShaped(p: Parser, lines: seq<string>)
    requires ParserShaped(p) && Free(lines, '\n')
    ensures ParserShaped(FeedAll(p, lines))
    decreases |lines|
  {
    if lines != [] {
      FeedShaped(p, lines[0]);
      FeedAllShaped(Feed(p, lines[0]), lines[1..]);
    }
  }

  /** Whatever the bytes, a parsed field is a non-empty line that is not data. */
  lemma ParsedShaped(body: string)
    ensures forall e :: e in Parse(body) ==> Shaped(e)
  {
    SplitFree(body, '\n');
    FeedAllShaped(EMPTY, Split(body, '\n'));
  }

  // ---- Every carriage return the parser drops is a character lost ----

  function Total(lines: seq<string>): nat {
    if lines == [] then 0 else |lines[0]| + Total(lines[1..])
  }

  lemma {:induction false} TotalAppend(a: seq<string>, b: seq<string>)
    ensures Total(a + b) == Total(a) + Total(b)
  {
    if a == [] {
      assert a + b == b;
    } else {
      assert (a + b)[0] == a[0] && (a + b)[1..] == a[1..] + b;
      TotalAppend(a[1..], b);
    }
  }

  function EventWeight(e: Event): nat { Total(e.fields) + Total(Split(e.data, '\n')) }

  function Weight(es: seq<Event>): nat {
    if es == [] then 0 else Weight(es[..|es| - 1]) + EventWeight(es[|es| - 1])
  }

  function ParserWeight(p: Parser): nat { Weight(p.events) + Total(p.fields) + Total(p.dataLines) }

  /** The characters the parser keeps of one line. */
  function Content(raw: string): nat {
    var line := TrimCr(raw);
    if DATA <= line then |TrimSpacePrefix(line[5..])| else |line|
  }

  function ContentAll(lines: seq<string>): nat {
    if lines == [] then 0 else Content(lines[0]) + ContentAll(lines[1..])
  }

  lemma {:induction false} ContentAppend(a: seq<string>, b: seq<string>)
    ensures ContentAll(a + b) == ContentAll(a) + ContentAll(b)
  {
    if a == [] {
      assert a + b == b;
    } else {
      assert (a + b)[0] == a[0] && (a + b)[1..] == a[1..] + b;
      ContentAppend(a[1..], b);
    }
  }

  lemma FlushWeight(p: Parser)
    requires Free(p.dataLines, '\n')
    ensures ParserWeight(Flush(p)) == ParserWeight(p)
  {
    if p.fields != [] || p.dataLines != [] {
      var e := Event(p.fields, Join(p.dataLines, '\n'));
      assert (p.events + [e])[..|p.events|] == p.events;
      if p.dataLines == [] {
        assert Split("", '\n') == [""];
      } else {
        SplitJoin(p.dataLines, '\n');
      }
    }
  }

  lemma FeedWeight(p: Parser, raw: string)
    requires Free(p.dataLines, '\n')
    ensures ParserWeight(Feed(p, raw)) == ParserWeight(p) + Content(raw)
  {
    var line := TrimCr(raw);
    if line == "" {
      FlushWeight(p);
    } else if DATA <= line {
      TotalAppend(p.dataLines, [TrimSpacePrefix(line[5..])]);
    } else {
      TotalAppend(p.fields, [line]);
    }
  }

  lemma {:induction false} FeedAllWeight(p: Parser, lines: seq<string>)
    requires ParserShaped(p) && Free(lines, '\n')
    ensures ParserWeight(FeedAll(p, lines)) == ParserWeight(p) + ContentAll(lines)
    decreases |lines|
  {
    if lines != [] {
      FeedWeight(p, lines[0]);
      FeedShaped(p, lines[0]);
      FeedAllWeight(Feed(p, lines[0]), lines[1..]);
    }
  }

  lemma TrimmedData(f: string)
    ensures DATA <= TrimCr(f) ==> DATA <= f
  {
  }

  lemma {:induction false} FieldsContent(fs: seq<string>)
    requires forall f :: f in fs ==> FieldShape(f)
    ensures ContentAll(fs) <= Total(fs)
    ensures ContentAll(fs) == Total(fs) ==> NoneEndsInCr(fs)
  {
    if fs != [] {
      FieldsContent(fs[1..]);
      assert FieldShape(fs[0]);
      TrimmedData(fs[0]);
    }
  }

  lemma TaggedContent(l: string)
    ensures Content("data: " + l) == |TrimCr(l)|
  {
  }

  lemma {:induction false} DataContent(ls: seq<string>)
    ensures ContentAll(Tagged(ls)) <= Total(ls)
    ensures ContentAll(Tagged(ls)) == Total(ls) ==> NoneEndsInCr(ls)
  {
    if ls != [] {
      DataContent(ls[1..]);
      TaggedContent(ls[0]);
      assert Tagged(ls)[1..] == Tagged(ls[1..]);
    }
  }

  lemma EventContent(e: Event)
    requires Shaped(e)
    ensures ContentAll(EventLines(e)) <= EventWeight(e)
    ensures ContentAll(EventLines(e)) == EventWeight(e) ==> CrFree(e)
  {
    var ls := DataLines(e.data);
    FieldsContent(e.fields);
    DataContent(ls);
    ContentAppend(Tagged(ls), [""]);
    ContentAppend(e.fields, Tagged(ls) + [""]);
    assert ContentAll([""]) == 0;
    if e.data == "" {
      assert Split(e.data, '\n') == [""];
    }
  }

  lemma {:induction false} WeightFirst(e: Event, es: seq<Event>)
    ensures Weight([e] + es) == EventWeight(e) + Weight(es)
  {
    if es == [] {
      assert [e] + es == [e] && [e][..0] == [];
    } else {
      WeightFirst(e, es[..|es| - 1]);
      assert ([e] + es)[..|es|] == [e] + es[..|es| - 1];
    }
  }

  lemma {:induction false} StreamContent(es: seq<Event>)
    requires forall e :: e in es ==> Shaped(e)
    ensures ContentAll(StreamLines(es)) <= Weight(es)
    ensures ContentAll(StreamLines(es)) == Weight(es) ==> forall e :: e in es ==> CrFree(e)
  {
    if es != [] {
      StreamContent(es[1..]);
      EventContent(es[0]);
      ContentAppend(EventLines(es[0]), StreamLines(es[1..]));
      assert es == [es[0]] + es[1..];
      WeightFirst(es[0], es[1..]);
    }
  }

  lemma {:induction false} LiveOnlyAll(es: seq<Event>)
    ensures |LiveOnly(es)| <= |es|
    ensures LiveOnly(es) == es <==> forall e :: e in es ==> Live(e)
  {
    if es != [] {
      LiveOnlyAll(es[1..]);
      assert es == [es[0]] + es[1..];
      if Live(es[0]) {
        assert LiveOnly(es)[1..] == LiveOnly(es[1..]);
      }
    }
  }

  /** Printing then parsing gives the events back exactly when every one of them is printable. */
  lemma RoundTrip(es: seq<Event>)
    ensures Parse(Build(es)) == es <==> forall e :: e in es ==> Printable(e)
  {
    LiveOnlyAll(es);
    if Parse(Build(es)) == es {
      ParsedShaped(Build(es));
      ParseBuild(es);
      KeptWeight(es);
      StreamContent(es);
    } else if forall e :: e in es ==> Printable(e) {
      ParseBuild(es);
    }
  }

  /** The parsed stream weighs what the printed lines leave after trimming. */
  lemma KeptWeight(es: seq<Event>)
    requires forall e :: e in es ==> Shaped(e)
    ensures Weight(Parse(Build(es))) == ContentAll(StreamLines(es))
  {
    var lines := StreamLines(es) + [""];
    StreamLinesFree(es);
    ParseBuild(es);
    FeedAllWeight(EMPTY, lines);
    FeedAllShaped(EMPTY, lines);
    FlushWeight(FeedAll(EMPTY, lines));
    ContentAppend(StreamLines(es), [""]);
    assert ContentAll([""]) == 0;
  }

  // ---- Other writers ----

  predicate StartsWithSpace(s: string) { s != "" && s[0] == ' ' }

  lemma FeedBare(p: Parser, l: string)
    requires !StartsWithSpace(l)
    ensures Feed(p, "data:" + l) == p.(dataLines := p.dataLines + [TrimCr(l)])
  {
    var line := TrimCr("data:" + l);
    assert line == "data:" + TrimCr(l);
    assert DATA == line[..5] && line[5..] == TrimCr(l);
  }

  lemma {:induction false} FeedAllBare(p: Parser, ls: seq<string>)
    requires forall l :: l in ls ==> !StartsWithSpace(l)
    ensures FeedAll(p, WithTag("data:", ls)) == FeedAll(p, Tagged(ls))
    decreases |ls|
  {
    if ls != [] {
      FeedBare(p, ls[0]);
      FeedTagged(p, ls[0]);
      assert WithTag("data:", ls)[1..] == WithTag("data:", ls[1..]) && Tagged(ls)[1..] == Tagged(ls[1..]);
      FeedAllBare(p.(dataLines := p.dataLines + [TrimCr(ls[0])]), ls[1..]);
    }
  }

  /** The same stream from a writer that leaves out the optional space after the colon. */
  function BareLines(es: seq<Event>): seq<string> {
    if es == [] then [] else (es[0].fields + (WithTag("data:", DataLines(es[0].data)) + [""])) + BareLines(es[1..])
  }

  /** A line that starts with a space needs the optional one in front of it. */
  ghost predicate SpaceFree(e: Event) { forall l :: l in DataLines(e.data) ==> !StartsWithSpace(l) }

  lemma {:induction false} FeedBareStream(p: Parser, es: seq<Event>)
    requires forall e :: e in es ==> SpaceFree(e)
    ensures FeedAll(p, BareLines(es)) == FeedAll(p, StreamLines(es))
    decreases |es|
  {
    if es != [] {
      var e := es[0];
      var bare, tagged := WithTag("data:", DataLines(e.data)), Tagged(DataLines(e.data));
      assert e in es;
      FeedAllAppend(p, e.fields + (bare + [""]), BareLines(es[1..]));
      FeedAllAppend(p, EventLines(e), StreamLines(es[1..]));
      FeedAllAppend(p, e.fields, bare + [""]);
      FeedAllAppend(p, e.fields, tagged + [""]);
      var q := FeedAll(p, e.fields);
      FeedAllAppend(q, bare, [""]);
      FeedAllAppend(q, tagged, [""]);
      FeedAllBare(q, DataLines(e.data));
      FeedBareStream(FeedAll(p, EventLines(e)), es[1..]);
    }
  }

  lemma {:induction false} BareLinesFree(es: seq<Event>)
    requires forall e :: e in es ==> Shaped(e)
    ensures Free(BareLines(es), '\n')
  {
    if es != [] {
      BareLinesFree(es[1..]);
      assert es[0] in es && Shaped(es[0]);
      SplitFree(es[0].data, '\n');
      WithTagFree(DataLines(es[0].data));
    }
  }

  lemma {:induction false} WithTagFree(ls: seq<string>)
    requires Free(ls, '\n')
    ensures Free(WithTag("data:", ls), '\n')
  {
    if ls != [] {
      WithTagFree(ls[1..]);
    }
  }

  /** Written with or without the optional space, a stream parses to the same events. */
  lemma OptionalSpace(es: seq<Event>)
    requires forall e :: e in es ==> Shaped(e) && SpaceFree(e)
    ensures Parse(Unlines(BareLines(es), '\n')) == Parse(Build(es))
  {
    BareLinesFree(es);
    SplitUnlines(BareLines(es), '\n');
    ParseBuild(es);
    FeedAllAppend(EMPTY, BareLines(es), [""]);
    FeedAllAppend(EMPTY, StreamLines(es), [""]);
    FeedBareStream(EMPTY, es);
  }

  /** One data line, with the space and without. */
  lemma OneDataLine(s: string)
    requires '\n' !in s && !EndsInCr(s) && s != ""
    ensures Parse("data: " + s + "\n\n") == [Event([], s)]
    ensures !StartsWithSpace(s) ==> Parse("data:" + s + "\n\n") == [Event([], s)]
  {
    var e := Event([], s);
    SplitWhole(s, '\n');
    assert Printable(e);
    RoundTrip([e]);
    SingleLines("data: ", s);
    assert [e][1..] == [] && StreamLines([]) == [] && BareLines([]) == [];
    assert StreamLines([e]) == ["data: " + s, ""];
    assert Build([e]) == "data: " + s + "\n\n";
    if !StartsWithSpace(s) {
      SingleLines("data:", s);
      assert SpaceFree(e);
      OptionalSpace([e]);
      assert BareLines([e]) == ["data:" + s, ""];
      assert Unlines(BareLines([e]), '\n') == "data:" + s + "\n\n";
    }
  }

  lemma SingleLines(tag: string, s: string)
    requires '\n' !in s && s != ""
    ensures WithTag(tag, DataLines(s)) == [tag + s]
    ensures ([] + ([tag + s] + [""])) + [] == [tag + s, ""]
    ensures Unlines([tag + s, ""], '\n') == tag + s + "\n\n"
  {
    SplitWhole(s, '\n');
    assert [s][1..] == [];
    assert [tag + s, ""][1..] == [""] && [""][1..] == [];
    assert Unlines([""], '\n') == "\n";
    assert (tag + s) + ("\n" + "\n") == tag + s + "\n\n";
  }

  /** The end of the body ends the last event too. */
  lemma UnfinishedEvent(s: string)
    requires '\n' !in s && !EndsInCr(s)
    ensures Parse("data: " + s) == [Event([], s)]
  {
    var line := "data: " + s;
    SplitWhole(line, '\n');
    FeedTagged(EMPTY, s);
    assert [line][1..] == [] && FeedAll(EMPTY, [line]) == FeedAll(Feed(EMPTY, line), []);
    assert [] + [s] == [s] && Join([s], '\n') == s;
  }

  function WithCr(lines: seq<string>): (r: seq<string>)
    ensures |r| == |lines|
  {
    if lines == [] then [] else [lines[0] + "\r"] + WithCr(lines[1..])
  }

  lemma {:induction false} FeedWithCr(p: Parser, lines: seq<string>)
    requires NoneEndsInCr(lines)
    ensures FeedAll(p, WithCr(lines)) == FeedAll(p, lines)
    decreases |lines|
  {
    if lines != [] {
      assert TrimCr(lines[0] + "\r") == lines[0] == TrimCr(lines[0]);
      assert WithCr(lines)[1..] == WithCr(lines[1..]);
      FeedWithCr(Feed(p, lines[0]), lines[1..]);
    }
  }

  lemma {:induction false} WithCrFree(lines: seq<string>)
    requires Free(lines, '\n')
    ensures Free(WithCr(lines), '\n')
  {
    if lines != [] {
      WithCrFree(lines[1..]);
    }
  }

  /** Lines that end in a carriage return and a line feed parse like lines that end in a line feed. */
  lemma CrlfIsLf(lines: seq<string>)
    requires Free(lines, '\n') && NoneEndsInCr(lines)
    ensures Parse(Unlines(WithCr(lines), '\n')) == Parse(Unlines(lines, '\n'))
  {
    WithCrFree(lines);
    SplitUnlines(WithCr(lines), '\n');
    SplitUnlines(lines, '\n');
    FeedAllAppend(EMPTY, WithCr(lines), [""]);
    FeedAllAppend(EMPTY, lines, [""]);
    FeedWithCr(EMPTY, lines);
  }

  // ---- What any reprinted stream can hold ----

  function TrimAll(ls: seq<string>): (r: seq<string>) {
    if ls == [] then [] else [TrimCr(ls[0])] + TrimAll(ls[1..])
  }

  /** Data without the carriage return at the end of each line. */
  function TrimLines(data: string): string { Join(TrimAll(DataLines(data)), '\n') }

  /** Data that comes from one of the events, or is none. */
  ghost predicate FromEvents(es: seq<Event>, data: string) { data == "" || exists e :: e in es && data == TrimLines(e.data) }

  ghost predicate AllFrom(es: seq<Event>, parsed: seq<Event>) { forall e :: e in parsed ==> FromEvents(es, e.data) }

  lemma {:induction false} FeedDataTrimmed(p: Parser, ls: seq<string>)
    ensures FeedAll(p, Tagged(ls)) == p.(dataLines := p.dataLines + TrimAll(ls))
    decreases |ls|
  {
    if ls == [] {
      assert p.dataLines + TrimAll(ls) == p.dataLines;
    } else {
      FeedTagged(p, ls[0]);
      assert Tagged(ls)[1..] == Tagged(ls[1..]);
      FeedDataTrimmed(p.(dataLines := p.dataLines + [TrimCr(ls[0])]), ls[1..]);
      Assoc(p.dataLines, [TrimCr(ls[0])], TrimAll(ls[1..]));
    }
  }

  lemma FeedFieldLine(p: Parser, f: string, es: seq<Event>)
    requires p.dataLines == [] && AllFrom(es, p.events) && FieldShape(f)
    ensures Feed(p, f).dataLines == [] && AllFrom(es, Feed(p, f).events)
  {
    TrimmedData(f);
    assert Join([], '\n') == "";
  }

  /** Field lines never turn into data; one that is only a carriage return ends the event early. */
  lemma {:induction false} FeedFieldLines(p: Parser, fs: seq<string>, es: seq<Event>)
    requires p.dataLines == [] && AllFrom(es, p.events) && forall f :: f in fs ==> FieldShape(f)
    ensures FeedAll(p, fs).dataLines == [] && AllFrom(es, FeedAll(p, fs).events)
    decreases |fs|
  {
    if fs != [] {
      FeedFieldLine(p, fs[0], es);
      FeedFieldLines(Feed(p, fs[0]), fs[1..], es);
    }
  }

  lemma FeedAnyEvent(p: Parser, e: Event, es: seq<Event>)
    requires p.dataLines == [] && AllFrom(es, p.events) && Shaped(e) && e in es
    ensures var q := FeedAll(p, EventLines(e)); q.dataLines == [] && q.fields == [] && AllFrom(es, q.events)
  {
    var tagged := Tagged(DataLines(e.data));
    FeedAllAppend(p, e.fields, tagged + [""]);
    FeedFieldLines(p, e.fields, es);
    var p1 := FeedAll(p, e.fields);
    FeedAllAppend(p1, tagged, [""]);
    FeedDataTrimmed(p1, DataLines(e.data));
    assert [] + TrimAll(DataLines(e.data)) == TrimAll(DataLines(e.data));
    var p2 := p1.(dataLines := TrimAll(DataLines(e.data)));
    assert FeedAll(p2, [""]) == FeedAll(Feed(p2, ""), []);
    assert FromEvents(es, TrimLines(e.data));
  }

  lemma {:induction false} FeedAnyStream(p: Parser, rest: seq<Event>, es: seq<Event>)
    requires p.dataLines == [] && p.fields == [] && AllFrom(es, p.events)
    requires forall e :: e in rest ==> Shaped(e) && e in es
    ensures var q := FeedAll(p, StreamLines(rest)); q.dataLines == [] && q.fields == [] && AllFrom(es, q.events)
    decreases |rest|
  {
    if rest != [] {
      FeedAllAppend(p, EventLines(rest[0]), StreamLines(rest[1..]));
      FeedAnyEvent(p, rest[0], es);
      FeedAnyStream(FeedAll(p, EventLines(rest[0])), rest[1..], es);
    }
  }

  /** Printable or not: whatever a printed stream parses to, its data is the data of an event, trimmed. */
  lemma ReprintedData(es: seq<Event>)
    requires forall e :: e in es ==> Shaped(e)
    ensures AllFrom(es, Parse(Build(es)))
  {
    ParseBuild(es);
    FeedAnyStream(EMPTY, es, es);
    FeedAllAppend(EMPTY, StreamLines(es), [""]);
    var p := FeedAll(EMPTY, StreamLines(es));
    assert FeedAll(p, [""]) == FeedAll(Feed(p, ""), []);
  }
}
