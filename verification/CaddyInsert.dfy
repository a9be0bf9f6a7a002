/** Inserting the limits block before the closing brace makes no marker line and breaks none. */
module CaddyInsert {
  import opened PyLines
  import opened PyText
  import opened CaddyLines
  import opened CaddyLexer
  import opened CaddyMerge
  import opened CaddyLimits

  // ---------- the last, open line of a text ----------

  /** Where the last line starts; at the end when the text ends in a line break. */
  function LastStart(s: string): (n: nat)
    ensures n <= |s| && AtLineStart(s[..n])
  {
    if s == [] || IsLineBreak(s[|s| - 1]) then
      assert s[..|s|] == s;
      |s|
    else
      assert s[..|s| - 1][..LastStart(s[..|s| - 1])] == s[..LastStart(s[..|s| - 1])];
      LastStart(s[..|s| - 1])
  }

  lemma {:induction false} LastLineUnbroken(s: string)
    ensures Unbroken(s[LastStart(s)..])
  {
    if s != [] && !IsLineBreak(s[|s| - 1]) {
      var front, n := s[..|s| - 1], LastStart(s);
      LastLineUnbroken(front);
      assert s[n..] == front[n..] + [s[|s| - 1]];
    }
  }

  lemma {:induction false} LongerLine(a: string, b: string)
    requires Unbroken(a) && b != []
    ensures LineLen(a + b) == |a| + LineLen(b)
  {
    if a == [] {
      assert a + b == b;
    } else {
      InTail(a);
      LongerLine(a[1..], b);
      assert a[0] in a && (a + b)[1..] == a[1..] + b;
    }
  }

  // ---------- marker lines are comments ----------

  /** What all four marker tests share. */
  ghost predicate MarkerTest(p: Line -> bool) {
    && (forall s: string | Unbroken(s) && p(Line(s + "\n")) :: Calm(s) && '#' in s)
    && (forall l: Line | p(l) :: l.text == [] || l.text[0] != '}')
  }

  lemma {:induction false} ChompUnbroken(s: string)
    requires Unbroken(s)
    ensures Chomp(s + "\n") == s
  {
    assert (s + "\n")[..|s|] == s;
    if s != [] { assert s[|s| - 1] in s; }
  }

  lemma {:induction false} ChompPrefix(s: string)
    ensures Chomp(s) <= s && (s != [] && !(s[0] in "\r\n") ==> Chomp(s) != [])
  {
    if s != [] && s[|s| - 1] in "\r\n" { ChompPrefix(s[..|s| - 1]); }
  }

  lemma {:induction false} TrimRightFacts(s: string)
    ensures TrimRight(s) <= s && (s != [] && !IsSpace(s[0]) ==> TrimRight(s) != [])
    ensures forall c | c in s :: c in TrimRight(s) || IsSpace(c)
  {
    if s != [] && IsSpace(s[|s| - 1]) {
      TrimRightFacts(s[..|s| - 1]);
      assert s == s[..|s| - 1] + [s[|s| - 1]];
    }
  }

  lemma {:induction false} TrimLeftFacts(s: string)
    ensures forall c | c in TrimLeft(s) :: c in s
    ensures forall c | c in s :: c in TrimLeft(s) || IsSpace(c)
  {
    if s != [] && IsSpace(s[0]) {
      TrimLeftFacts(s[1..]);
      InTail(s);
      assert s == [s[0]] + s[1..];
    }
  }

  lemma {:induction false} TrimFacts(s: string)
    ensures forall c | c in Trim(s) :: c in s
    ensures forall c | c in s :: c in Trim(s) || IsSpace(c)
  {
    TrimLeftFacts(s);
    TrimRightFacts(TrimLeft(s));
  }

  lemma {:induction false} SiteMarkerTest(m: string)
    requires MarkerText(m)
    ensures MarkerTest(SiteMarker(m))
  {
    forall s: string | Unbroken(s) && SiteMarker(m)(Line(s + "\n")) ensures Calm(s) && '#' in s {
      ChompUnbroken(s);
      assert s[0] in s;
    }
    forall l: Line | SiteMarker(m)(l) ensures l.text == [] || l.text[0] != '}' {
      ChompPrefix(l.text);
      assert Chomp(l.text)[0] == l.text[0];
    }
  }

  lemma {:induction false} LimitsMarkerTest(m: string)
    requires MarkerText(m)
    ensures MarkerTest(LimitsMarker(m))
  {
    forall s: string | Unbroken(s) && LimitsMarker(m)(Line(s + "\n")) ensures Calm(s) && '#' in s {
      ChompUnbroken(s);
      TrimFacts(s);
      assert m[0] in Trim(s);
    }
    forall l: Line | LimitsMarker(m)(l) ensures l.text == [] || l.text[0] != '}' {
      var s := Chomp(l.text);
      ChompPrefix(l.text);
      TrimRightFacts(s);
      if l.text != [] && !IsSpace(l.text[0]) { assert TrimLeft(s) == s && m[0] == l.text[0]; }
    }
  }

  // ---------- the insertion point is code ----------

  /** No calm stretch at the end holds a comment sign. */
  ghost predicate CodeTail(s: string) {
    forall i | 0 <= i <= |s| && Calm(s[i..]) :: '#' !in s[i..]
  }

  /** After a calm stretch with a comment sign the scanner is not in code. */
  lemma {:induction false} CalmHash(st: Lex, s: string)
    requires Calm(s) && (Code(st) ==> '#' in s)
    ensures !Code(Run(st, s))
    decreases |s|
  {
    if s != [] {
      InTail(s);
      assert s[0] in s && s == [s[0]] + s[1..];
      CalmHash(Step(st, s[0]), s[1..]);
    }
  }

  lemma {:induction false} BraceNotCalm(a: string, i: nat, o: nat)
    requires i <= o < |a| && a[o] == '{'
    ensures !Calm(a[i..])
  {
    assert a[i..][o - i] == '{' && a[i..][o - i] in a[i..];
  }

  lemma {:induction false} CodeHasCodeTail(a: string)
    requires OpenAt(a) && Code(StateAfter(a))
    ensures CodeTail(a)
  {
    var o := Skip(a, false);
    forall i | 0 <= i <= |a| && Calm(a[i..]) ensures '#' !in a[i..] {
      if i <= o {
        BraceNotCalm(a, i, o);
      } else {
        assert a[o..] == a[o..i] + a[i..];
        RunPlus(START, a[o..i], a[i..]);
        if '#' in a[i..] { CalmHash(Run(START, a[o..i]), a[i..]); }
      }
    }
  }

  lemma {:induction false} CodeTailOfSuffix(u: string, v: string)
    requires CodeTail(u + v)
    ensures CodeTail(v)
  {
    forall i | 0 <= i <= |v| && Calm(v[i..]) ensures '#' !in v[i..] {
      assert (u + v)[|u| + i..] == v[i..];
    }
  }

  // ---------- cutting a line in two ----------

  lemma {:induction false} NoneOne(x: Line, p: Line -> bool)
    ensures NoneOf([x], p) == !p(x)
  {
    assert x in [x];
  }

  lemma {:induction false} CutAfter(p: Line -> bool, open: string, y: string)
    requires MarkerTest(p) && Unbroken(open) && y != [] && y[0] == '}' && NoneOf(Lines(open + y), p)
    ensures NoneOf(Lines(y), p)
  {
    var n := LineLen(y);
    LongerLine(open, y);
    assert (open + y)[..|open| + n] == open + y[..n] && (open + y)[|open| + n..] == y[n..];
    assert Lines(open + y) == [Line(open + y[..n])] + Lines(y[n..]);
    NoneParts([Line(open + y[..n])], Lines(y[n..]), p);
    assert y[..n][0] == '}';
    NoneOne(Line(y[..n]), p);
    NoneParts([Line(y[..n])], Lines(y[n..]), p);
  }

  /** The separator that puts the block on a line of its own. */
  predicate SeparatorFor(x: string, sep: string) {
    var ended := x != [] && x[|x| - 1] in "\n\r";
    (sep == "" && (x == [] || ended)) || (sep == "\n" && !ended)
  }

  lemma {:induction false} CutBefore(p: Line -> bool, x1: string, open: string, sep: string)
    requires MarkerTest(p) && AtLineStart(x1) && Unbroken(open) && CodeTail(x1 + open) && NoneOf(Lines(x1), p)
    requires SeparatorFor(x1 + open, sep)
    ensures NoneOf(Lines((x1 + open) + sep), p) && AtLineStart((x1 + open) + sep)
  {
    LastOpen(x1, open);
    if sep == "" {
      assert x1 + open == x1 && x1 + sep == x1;
    } else {
      assert (x1 + open)[|x1|..] == open;
      CutWithNewline(p, x1, open);
      assert (x1 + open) + sep == x1 + (open + "\n");
    }
  }

  lemma {:induction false} LastOpen(x1: string, open: string)
    requires Unbroken(open) && AtLineStart(x1)
    ensures var x := x1 + open;
            if open == "" then x == x1 else x != "" && !IsLineBreak(x[|x| - 1])
  {
    if open != "" { assert (x1 + open)[|x1 + open| - 1] == open[|open| - 1] && open[|open| - 1] in open; }
  }

  lemma {:induction false} CutWithNewline(p: Line -> bool, x1: string, open: string)
    requires MarkerTest(p) && AtLineStart(x1) && Unbroken(open) && NoneOf(Lines(x1), p)
    requires (Calm(open) ==> '#' !in open) && (open == "" && x1 != "" ==> x1[|x1| - 1] != '\r')
    ensures NoneOf(Lines(x1 + (open + "\n")), p)
  {
    if open != "" { assert open[0] in open; }
    LinesPlus(x1, open + "\n");
    OneLineText(open);
    NoneOne(Line(open + "\n"), p);
    NoneParts(Lines(x1), [Line(open + "\n")], p);
  }

  /** Cutting before a closing brace in code leaves no marker line on either side. */
  lemma {:induction false} CutLeavesNoMarker(p: Line -> bool, x: string, y: string, sep: string)
    requires MarkerTest(p) && CodeTail(x) && y != [] && y[0] == '}' && NoneOf(Lines(x + y), p)
    requires SeparatorFor(x, sep)
    ensures NoneOf(Lines(x + sep), p) && NoneOf(Lines(y), p) && AtLineStart(x + sep)
  {
    var n := LastStart(x);
    var x1, open := x[..n], x[n..];
    LastLineUnbroken(x);
    assert x == x1 + open;
    LinesAtLastStart(x1, open, y);
    NoneParts(Lines(x1), Lines(open + y), p);
    CutAfter(p, open, y);
    CutBefore(p, x1, open, sep);
  }

  lemma {:induction false} LinesAtLastStart(x1: string, open: string, y: string)
    requires AtLineStart(x1) && Unbroken(open) && y != [] && y[0] == '}'
    ensures Lines((x1 + open) + y) == Lines(x1) + Lines(open + y)
  {
    assert (x1 + open) + y == x1 + (open + y);
    if open != [] { assert open[0] in open && (open + y)[0] == open[0]; }
    LinesPlus(x1, open + y);
  }
}
