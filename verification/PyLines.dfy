/** Lines the way `splitlines` cuts them, with and without their line breaks. */
module PyLines {
  import opened PyText

  /** The length of the first line, its line break included. */
  function LineLen(s: string): (n: nat)
    requires s != []
    ensures 1 <= n <= |s|
  {
    if IsLineBreak(s[0]) then (if s[0] == '\r' && |s| > 1 && s[1] == '\n' then 2 else 1)
    else if |s| == 1 then 1
    else 1 + LineLen(s[1..])
  }

  datatype Line = Line(text: string)

  function Lines(s: string): seq<Line> {
    if s == [] then [] else [Line(s[..LineLen(s)])] + Lines(s[LineLen(s)..])
  }

  function Join(lines: seq<Line>): string {
    if lines == [] then [] else lines[0].text + Join(lines[1..])
  }

  /** Two texts that meet at a line boundary. */
  predicate Clean(a: string, b: string) {
    a == [] || b == [] || (IsLineBreak(a[|a| - 1]) && !(a[|a| - 1] == '\r' && b[0] == '\n'))
  }

  lemma {:induction false} LineLenPlus(a: string, b: string)
    requires a != [] && Clean(a, b)
    ensures LineLen(a + b) == LineLen(a)
  {
    if b == [] {
      assert a + b == a;
    } else if !IsLineBreak(a[0]) {
      LineLenPlus(a[1..], b);
      assert (a + b)[1..] == a[1..] + b;
    }
  }

  /** Cutting into lines respects line boundaries. */
  lemma {:induction false} LinesPlus(a: string, b: string)
    requires Clean(a, b)
    ensures Lines(a + b) == Lines(a) + Lines(b)
    decreases |a|
  {
    if a == [] {
      assert a + b == b;
    } else {
      var n := LineLen(a);
      LineLenPlus(a, b);
      assert (a + b)[..n] == a[..n] && (a + b)[n..] == a[n..] + b;
      LinesPlus(a[n..], b);
    }
  }

  lemma {:induction false} JoinPlus(a: seq<Line>, b: seq<Line>)
    ensures Join(a + b) == Join(a) + Join(b)
  {
    if a == [] {
      assert a + b == b;
    } else {
      JoinPlus(a[1..], b);
      assert (a + b)[1..] == a[1..] + b;
      assert a[0].text + (Join(a[1..]) + Join(b)) == (a[0].text + Join(a[1..])) + Join(b);
    }
  }

  /** The first line ends in a line break unless it is all there is, and meets the rest cleanly. */
  lemma {:induction false} FirstLineClean(s: string)
    requires s != []
    ensures Clean(s[..LineLen(s)], s[LineLen(s)..]) && LineLen(s[..LineLen(s)]) == LineLen(s)
  {
    var n := LineLen(s);
    if !IsLineBreak(s[0]) && |s| > 1 {
      FirstLineClean(s[1..]);
      assert s[..n][1..] == s[1..][..n - 1] && s[n..] == s[1..][n - 1..];
    }
  }

  lemma {:induction false} JoinLines(s: string)
    ensures Join(Lines(s)) == s
    decreases |s|
  {
    if s != [] {
      var n := LineLen(s);
      JoinLines(s[n..]);
      assert Lines(s)[1..] == Lines(s[n..]);
      assert s == s[..n] + s[n..];
    }
  }

  lemma {:induction false} OneLine(s: string)
    requires s != []
    ensures var first := s[..LineLen(s)];
            Lines(first) == [Line(first)] && first + s[LineLen(s)..] == s
  {
    FirstLineClean(s);
    var first := s[..LineLen(s)];
    assert first[..LineLen(s)] == first && first[LineLen(s)..] == [];
  }

  lemma {:induction false} CleanExtends(first: string, a: string, b: string)
    requires first != [] && Clean(first, a + b) && Clean(a, b)
    ensures Clean(first, a) && Clean(first + a, b)
  {
    if a != [] {
      assert (a + b)[0] == a[0];
      assert (first + a)[|first + a| - 1] == a[|a| - 1];
    } else {
      assert first + a == first && a + b == b;
    }
  }

  /** A text cut after any number of its lines. */
  lemma {:induction false} LinesSplit(s: string, a: seq<Line>, b: seq<Line>)
    requires Lines(s) == a + b
    ensures s == Join(a) + Join(b) && Clean(Join(a), Join(b)) && Lines(Join(a)) == a && Lines(Join(b)) == b
    decreases |a|
  {
    if a == [] {
      JoinLines(s);
      assert a + b == b && [] + s == s;
    } else {
      var n := LineLen(s);
      var first, rest := s[..n], s[n..];
      assert (a + b)[0] == a[0] && (a + b)[1..] == a[1..] + b;
      assert a[0] == Line(first) && Lines(rest) == a[1..] + b;
      LinesSplit(rest, a[1..], b);
      SplitStep(s, Join(a[1..]), Join(b));
      assert a == [a[0]] + a[1..];
    }
  }

  lemma {:induction false} SplitStep(s: string, a: string, b: string)
    requires s != [] && s[LineLen(s)..] == a + b && Clean(a, b)
    ensures var first := s[..LineLen(s)];
            s == (first + a) + b && Clean(first + a, b) && Lines(first + a) == [Line(first)] + Lines(a)
  {
    var first := s[..LineLen(s)];
    FirstLineClean(s);
    OneLine(s);
    CleanExtends(first, a, b);
    LinesPlus(first, a);
    JoinThree(s, first, a, b);
  }

  lemma {:induction false} JoinThree(s: string, first: string, a: string, b: string)
    requires first <= s && s[|first|..] == a + b
    ensures s == (first + a) + b
  {
    assert s == first + s[|first|..];
  }

  /** A line without its line break. */
  function Content(l: Line): string {
    var s := l.text;
    if |s| >= 2 && s[|s| - 2] == '\r' && s[|s| - 1] == '\n' then s[..|s| - 2]
    else if s != [] && IsLineBreak(s[|s| - 1]) then s[..|s| - 1]
    else s
  }

  predicate Unbroken(s: string) {
    forall c | c in s :: !IsLineBreak(c)
  }

  lemma {:induction false} OneLineText(s: string)
    requires Unbroken(s)
    ensures LineLen(s + "\n") == |s| + 1 && Lines(s + "\n") == [Line(s + "\n")]
  {
    var line := s + "\n";
    if s != [] {
      InTail(s);
      assert s[0] in s && line[1..] == s[1..] + "\n";
      OneLineText(s[1..]);
    }
    assert line[..|line|] == line && line[|line|..] == [];
  }

  lemma {:induction false} CleanAfterNewline(a: string, b: string)
    requires a != [] && a[|a| - 1] == '\n'
    ensures Clean(a, b)
  {
  }
}
