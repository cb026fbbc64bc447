/**
 * Reading a cost out of a server-sent-event body, whole or chunk by chunk
 * (policies/advanced-ratelimit/cost_extractor.go).
 */
module SseCost {
  import opened Common
  import opened Sequences
  import opened Lines

  /** Outside code: strings.TrimSpace, and the JSONPath lookup followed by the reading of a number. */
  datatype Reader = Reader(trim: string -> string, extract: string -> Option<real>)

  const DATA := "data: "
  const EVENT := "event:"
  const DONE := "[DONE]"

  function TrimCrs(s: string): string {
    if s != "" && s[|s| - 1] == '\r' then TrimCrs(s[..|s| - 1]) else s
  }

  /** The payload of a data or event line. */
  function Payload(r: Reader, line: string): Option<string> {
    if DATA <= line then Some(line[|DATA|..])
    else if EVENT <= line then Some(r.trim(line[|EVENT|..]))
    else None
  }

  function LineCost(r: Reader, raw: string): Option<real> {
    match Payload(r, TrimCrs(raw))
    case None => None
    case Some(value) => if value == DONE || value == "" then None else r.extract(value)
  }

  function Later(a: Option<real>, b: Option<real>): Option<real> { if b.Some? then b else a }

  /** The cost on the last line that has one. */
  function LastCost(r: Reader, lines: seq<string>): Option<real> {
    if lines == [] then None else Later(LastCost(r, lines[..|lines| - 1]), LineCost(r, lines[|lines| - 1]))
  }

  datatype Scan = Scan(cost: Option<real>, remaining: string)

  /** A chunk: its complete lines are read, the rest is left for later. */
  function ScanOf(r: Reader, buf: string): Scan { ScanLines(r, Split(buf, '\n')) }

  function ScanLines(r: Reader, lines: seq<string>): Scan
    requires lines != []
  {
    Scan(LastCost(r, lines[..|lines| - 1]), lines[|lines| - 1])
  }

  lemma {:induction false} LastCostAppend(r: Reader, a: seq<string>, b: seq<string>)
    ensures LastCost(r, a + b) == Later(LastCost(r, a), LastCost(r, b))
  {
    if b == [] {
      assert a + b == a;
    } else {
      var n := |b| - 1;
      LastCostAppend(r, a, b[..n]);
      assert (a + b)[..|a| + n] == a + b[..n];
    }
  }

  function IndexOf(s: string, c: char): (i: int)
    ensures -1 <= i < |s|
    ensures i == -1 ==> c !in s
    ensures i >= 0 ==> s[i] == c && c !in s[..i]
  {
    if s == "" then -1
    else if s[0] == c then 0
    else
      var i := IndexOf(s[1..], c);
      assert i >= 0 ==> s[..i + 1] == [s[0]] + s[1..][..i];
      if i < 0 then -1 else i + 1
  }

  lemma FirstLine(s: string, i: nat)
    requires i < |s| && s[i] == '\n' && '\n' !in s[..i]
    ensures Split(s, '\n') == [s[..i]] + Split(s[i + 1..], '\n')
  {
    Cut(s, i);
    SplitAt(s[..i], s[i + 1..], '\n');
    SplitWhole(s[..i], '\n');
  }

  lemma Cut(s: string, i: nat)
    requires i < |s|
    ensures s == s[..i] + ([s[i]] + s[i + 1..])
  {
  }

  /** One line read off the front of what is left. */
  lemma ScanStep(r: Reader, s: string, i: nat)
    requires i < |s| && s[i] == '\n' && '\n' !in s[..i]
    ensures var rest := ScanOf(r, s[i + 1..]);
      ScanOf(r, s) == Scan(Later(LineCost(r, s[..i]), rest.cost), rest.remaining)
  {
    FirstLine(s, i);
    var lines, rest, first := Split(s, '\n'), Split(s[i + 1..], '\n'), [s[..i]];
    assert lines[..|lines| - 1] == first + rest[..|rest| - 1];
    LastCostAppend(r, first, rest[..|rest| - 1]);
    assert first[..0] == [];
    assert LastCost(r, first) == LineCost(r, s[..i]);
  }

  /** parseSSEChunk. */
  method ParseChunk(r: Reader, buf: string) returns (cost: Option<real>, remaining: string)
    ensures Scan(cost, remaining) == ScanOf(r, buf)
  {
    var s := buf;
    cost := None;
    while true
      invariant ScanOf(r, buf) == Scan(Later(cost, ScanOf(r, s).cost), ScanOf(r, s).remaining)
      decreases |s|
    {
      var i := IndexOf(s, '\n');
      if i < 0 {
        SplitWhole(s, '\n');
        return cost, s;
      }
      ScanStep(r, s, i);
      var line := TrimCrs(s[..i]);
      s := s[i + 1..];
      var value := Payload(r, line);
      if value.None? || value.value == DONE || value.value == "" {
        continue;
      }
      var found := r.extract(value.value);
      if found.Some? {
        cost := found;
      }
    }
  }

  /** extractFromSSEBodyBytes: every line counts, the last one too. */
  method ExtractFromBody(r: Reader, body: string) returns (cost: Option<real>)
    ensures cost == LastCost(r, Split(body, '\n'))
  {
    var lines := Split(body, '\n');
    cost := None;
    for i := 0 to |lines|
      invariant cost == LastCost(r, lines[..i])
    {
      assert lines[..i + 1][..i] == lines[..i];
      var value := Payload(r, TrimCrs(lines[i]));
      if value.None? || value.value == DONE || value.value == "" {
        continue;
      }
      var found := r.extract(value.value);
      if found.Some? {
        cost := found;
      }
    }
    assert lines[..|lines|] == lines;
  }

  // ---- Chunks ----

  /** Folding over the chunks, each prefixed with what the previous one left. */
  function Fold(r: Reader, chunks: seq<string>): Scan {
    if chunks == [] then Scan(None, "")
    else
      var before := Fold(r, chunks[..|chunks| - 1]);
      var now := ScanOf(r, before.remaining + chunks[|chunks| - 1]);
      Scan(Later(before.cost, now.cost), now.remaining)
  }

  /** Prefixing a character to lines whose last one is continued by `more`. */
  lemma ExtendLast(c: char, lines: seq<string>, more: seq<string>, sep: char)
    requires lines != [] && more != []
    ensures var n, all := |lines| - 1, Extend(c, lines, sep);
      var joined := c != sep && n == 0;
      && all[|all| - 1] == (if joined then [c] + lines[n] else lines[n])
      && Extend(c, lines[..n] + more, sep) == all[..|all| - 1] + (if joined then Extend(c, more, sep) else more)
  {
    var n := |lines| - 1;
    assert lines == lines[..n] + [lines[n]];
    if c == sep {
      Assoc([""], lines[..n], more);
      assert ([""] + lines)[..n + 1] == [""] + lines[..n];
    } else if n == 0 {
      assert lines[..0] + more == more;
    } else {
      ExtendAppend(c, lines[..n], [lines[n]], sep);
      ExtendAppend(c, lines[..n], more, sep);
    }
  }

  /** `joined` splits into the lines of `a` with the last one continued by `b`. */
  ghost predicate Continues(a: seq<string>, b: string, joined: seq<string>, sep: char)
    requires a != []
  {
    joined == a[..|a| - 1] + Split(a[|a| - 1] + b, sep)
  }

  lemma ContinuesCons(c: char, a: seq<string>, b: string, joined: seq<string>, sep: char)
    requires a != [] && joined != [] && Continues(a, b, joined, sep)
    ensures Continues(Extend(c, a, sep), b, Extend(c, joined, sep), sep)
  {
    var open := a[|a| - 1];
    ExtendLast(c, a, Split(open + b, sep), sep);
    Assoc([c], open, b);
    SplitCons(c, open + b, sep);
  }

  /** The lines of a text continue from its last, unfinished line. */
  lemma {:induction false} SplitAppend(a: string, b: string, sep: char)
    ensures Continues(Split(a, sep), b, Split(a + b, sep), sep)
  {
    if a == "" {
      assert a + b == b;
    } else {
      var c, rest := a[0], a[1..];
      SplitAppend(rest, b, sep);
      assert a == [c] + rest && a + b == [c] + (rest + b);
      SplitCons(c, rest, sep);
      SplitCons(c, rest + b, sep);
      ContinuesCons(c, Split(rest, sep), b, Split(rest + b, sep), sep);
    }
  }

  lemma ScanLinesAppend(r: Reader, done: seq<string>, more: seq<string>)
    requires more != []
    ensures ScanLines(r, done + more) == Scan(Later(LastCost(r, done), ScanLines(r, more).cost), ScanLines(r, more).remaining)
  {
    assert (done + more)[..|done + more| - 1] == done + more[..|more| - 1];
    LastCostAppend(r, done, more[..|more| - 1]);
  }

  lemma ScanAppend(r: Reader, a: string, b: string)
    ensures var before := ScanOf(r, a);
      var now := ScanOf(r, before.remaining + b);
      ScanOf(r, a + b) == Scan(Later(before.cost, now.cost), now.remaining)
  {
    var lines := Split(a, '\n');
    var n := |lines| - 1;
    SplitAppend(a, b, '\n');
    ScanLinesAppend(r, lines[..n], Split(lines[n] + b, '\n'));
  }

  /** For every way of cutting a body into chunks, the fold finds what one pass over the whole body finds. */
  lemma {:induction false} FoldIsOnePass(r: Reader, chunks: seq<string>)
    ensures Fold(r, chunks) == ScanOf(r, Concat(chunks))
  {
    if chunks == [] {
      assert LastCost(r, Split("", '\n')[..0]) == None;
    } else {
      var n := |chunks| - 1;
      FoldIsOnePass(r, chunks[..n]);
      ScanAppend(r, Concat(chunks[..n]), chunks[n]);
    }
  }

  /** Reading what the fold leaves over as a last line gives the buffered extraction of the whole body. */
  lemma FoldIsBuffered(r: Reader, chunks: seq<string>)
    ensures Later(Fold(r, chunks).cost, LineCost(r, Fold(r, chunks).remaining)) == LastCost(r, Split(Concat(chunks), '\n'))
  {
    FoldIsOnePass(r, chunks);
  }

  // ---- What is found ----

  /** The cost found is that of a line after which no line has one; none is found only if no line has one. */
  lemma {:induction false} LastCostIs(r: Reader, lines: seq<string>)
    ensures LastCost(r, lines).None? ==> forall i :: 0 <= i < |lines| ==> LineCost(r, lines[i]).None?
    ensures LastCost(r, lines).Some? ==> exists i :: IsLast(r, lines, LastCost(r, lines).value, i)
  {
    if lines != [] {
      var n := |lines| - 1;
      LastCostIs(r, lines[..n]);
      if LineCost(r, lines[n]).Some? {
        var cost := LineCost(r, lines[n]).value;
        assert LastCost(r, lines) == Some(cost) && IsLast(r, lines, cost, n);
      } else if LastCost(r, lines[..n]).Some? {
        var cost := LastCost(r, lines[..n]).value;
        var i :| IsLast(r, lines[..n], cost, i);
        assert LastCost(r, lines) == Some(cost) && IsLast(r, lines, cost, i);
      } else {
        forall i | 0 <= i < |lines| ensures LineCost(r, lines[i]).None? {
          assert i < n ==> lines[i] == lines[..n][i];
        }
      }
    }
  }

  ghost predicate IsLast(r: Reader, lines: seq<string>, cost: real, i: int) {
    && 0 <= i < |lines| && LineCost(r, lines[i]) == Some(cost)
    && forall j :: i < j < |lines| ==> LineCost(r, lines[j]).None?
  }

  lemma {:induction false} CrsTrimmed(s: string, n: nat)
    requires s == "" || s[|s| - 1] != '\r'
    ensures TrimCrs(s + Crs(n)) == s
  {
    if n == 0 {
      assert s + Crs(n) == s;
    } else {
      CrsTrimmed(s, n - 1);
      assert (s + Crs(n))[..|s + Crs(n)| - 1] == s + Crs(n - 1);
    }
  }

  function Crs(n: nat): string { if n == 0 then "" else Crs(n - 1) + "\r" }

  /** What a line is worth, with any number of carriage returns after it. */
  lemma LineCostIs(r: Reader, text: string, n: nat)
    requires text == "" || text[|text| - 1] != '\r'
    ensures text != "" && text != "[DONE]" ==> LineCost(r, "data: " + text + Crs(n)) == r.extract(text)
    ensures LineCost(r, "data: [DONE]" + Crs(n)) == None && LineCost(r, "data: " + Crs(n)) == None
    ensures var value := r.trim(text);
      value != "" && value != "[DONE]" ==> LineCost(r, "event:" + text + Crs(n)) == r.extract(value)
    ensures !("data: " <= text) && !("event:" <= text) ==> LineCost(r, text + Crs(n)) == None
  {
    CrsTrimmed("data: " + text, n);
    CrsTrimmed("data: [DONE]", n);
    CrsTrimmed("data: ", n);
    CrsTrimmed("event:" + text, n);
    CrsTrimmed(text, n);
    PrefixCut("data: ", text);
    PrefixCut("data: ", "[DONE]");
    PrefixCut("data: ", "");
    PrefixCut("event:", text);
    assert "data: " + "[DONE]" == "data: [DONE]" && "data: " + "" == "data: ";
    assert ("event:" + text)[0] == 'e' && ("data: " + text)[0] == 'd';
  }

  lemma PrefixCut(prefix: string, text: string)
    ensures prefix <= prefix + text && (prefix + text)[|prefix|..] == text
  {
  }
}
