/** strings.Split and strings.Join on a one-character separator. */
module Lines {
  import opened Sequences

  function Split(s: string, sep: char): (r: seq<string>)
    ensures |r| >= 1
  {
    if s == "" then [""]
    else
      var rest := Split(s[1..], sep);
      if s[0] == sep then [""] + rest else [[s[0]] + rest[0]] + rest[1..]
  }

  function Join(parts: seq<string>, sep: char): string {
    if parts == [] then "" else if |parts| == 1 then parts[0] else parts[0] + ([sep] + Join(parts[1..], sep))
  }

  ghost predicate Free(parts: seq<string>, sep: char) {
    forall p :: p in parts ==> sep !in p
  }

  lemma {:induction false} SplitFree(s: string, sep: char)
    ensures Free(Split(s, sep), sep)
  {
    if s != "" {
      SplitFree(s[1..], sep);
    }
  }

  /** Split, seen from the front: what prefixing one character does. */
  function Extend(c: char, parts: seq<string>, sep: char): seq<string>
    requires parts != []
  {
    if c == sep then [""] + parts else [[c] + parts[0]] + parts[1..]
  }

  lemma SplitCons(c: char, s: string, sep: char)
    ensures Split([c] + s, sep) == Extend(c, Split(s, sep), sep)
  {
  }

  lemma ExtendAppend(c: char, a: seq<string>, b: seq<string>, sep: char)
    requires a != []
    ensures Extend(c, a + b, sep) == Extend(c, a, sep) + b
  {
  }

  /** A separator always splits. */
  lemma {:induction false} SplitAt(a: string, b: string, sep: char)
    ensures Split(a + ([sep] + b), sep) == Split(a, sep) + Split(b, sep)
  {
    if a == "" {
      assert a + ([sep] + b) == [sep] + b;
      SplitCons(sep, b, sep);
    } else {
      var c, rest := a[0], a[1..];
      assert a == [c] + rest;
      Assoc([c], rest, [sep] + b);
      SplitAt(rest, b, sep);
      SplitCons(c, rest + ([sep] + b), sep);
      SplitCons(c, rest, sep);
      ExtendAppend(c, Split(rest, sep), Split(b, sep), sep);
    }
  }

  lemma {:induction false} SplitWhole(s: string, sep: char)
    requires sep !in s
    ensures Split(s, sep) == [s]
  {
    if s != "" {
      SplitWhole(s[1..], sep);
      assert s == [s[0]] + s[1..];
    }
  }

  lemma {:induction false} SplitJoin(parts: seq<string>, sep: char)
    requires parts != [] && Free(parts, sep)
    ensures Split(Join(parts, sep), sep) == parts
  {
    SplitWhole(parts[0], sep);
    if |parts| == 1 {
      assert parts == [parts[0]];
    } else {
      SplitJoin(parts[1..], sep);
      SplitAt(parts[0], Join(parts[1..], sep), sep);
      assert parts == [parts[0]] + parts[1..];
    }
  }

  lemma {:induction false} JoinSplit(s: string, sep: char)
    ensures Join(Split(s, sep), sep) == s
  {
    if s != "" {
      JoinSplit(s[1..], sep);
      var rest := Split(s[1..], sep);
      if s[0] == sep {
        assert ([""] + rest)[1..] == rest;
        assert s == [sep] + s[1..];
      } else {
        var r := [[s[0]] + rest[0]] + rest[1..];
        if |rest| > 1 {
          assert r[1..] == rest[1..];
        }
        assert s == [s[0]] + s[1..];
      }
    }
  }

  /** Every line followed by its terminator. */
  function Unlines(lines: seq<string>, sep: char): string {
    if lines == [] then "" else lines[0] + ([sep] + Unlines(lines[1..], sep))
  }

  lemma {:induction false} UnlinesAppend(a: seq<string>, b: seq<string>, sep: char)
    ensures Unlines(a + b, sep) == Unlines(a, sep) + Unlines(b, sep)
  {
    if a == [] {
      assert a + b == b;
    } else {
      UnlinesAppend(a[1..], b, sep);
      assert (a + b)[0] == a[0] && (a + b)[1..] == a[1..] + b;
      Assoc([sep], Unlines(a[1..], sep), Unlines(b, sep));
      Assoc(a[0], [sep] + Unlines(a[1..], sep), Unlines(b, sep));
    }
  }

  lemma {:induction false} SplitUnlines(lines: seq<string>, sep: char)
    requires Free(lines, sep)
    ensures Split(Unlines(lines, sep), sep) == lines + [""]
  {
    if lines != [] {
      SplitUnlines(lines[1..], sep);
      SplitAt(lines[0], Unlines(lines[1..], sep), sep);
      SplitWhole(lines[0], sep);
      assert lines == [lines[0]] + lines[1..];
    }
  }
}
