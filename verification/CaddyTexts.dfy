/** The texts of the program are well formed, and two Caddyfiles that do not render twice. */
module CaddyTexts {
  import opened Wrappers
  import opened PyLines
  import opened PyText
  import opened CaddyLexer
  import opened CaddyMerge
  import opened CaddyIdempotence

  const LIMITS_LINES: seq<string> := [
    "\tservers {",
    "\t\ttimeouts {",
    "\t\t\tread_header 10s",
    "\t\t\tread_body 15s",
    "\t\t\twrite 30s",
    "\t\t\tidle 2m",
    "\t\t}",
    "\t\tmax_header_size 64KB",
    "\t}"]

  const BEGIN_MARKER := "# BEGIN cc-remote " + "managed site"
  const END_MARKER := "# END cc-remote " + "managed site"
  const GLOBAL_BEGIN_MARKER := "# BEGIN cc-remote " + "managed server limits"
  const GLOBAL_END_MARKER := "# END cc-remote " + "managed server limits"

  function Ended(lines: seq<string>): string {
    if lines == [] then "" else (lines[0] + "\n") + Ended(lines[1..])
  }

  function ProgramTexts(wide: Alnum): Texts {
    var body := Ended(LIMITS_LINES);
    Texts(BEGIN_MARKER, END_MARKER, GLOBAL_BEGIN_MARKER, GLOBAL_END_MARKER,
          ("\t" + GLOBAL_BEGIN_MARKER + "\n") + (body + ("\t" + GLOBAL_END_MARKER + "\n")), body, wide)
  }

  // ---------- balanced lines ----------

  predicate PlainText(s: string) {
    forall c | c in s :: c == '\t' || (MarkerChar(c) && c != '#')
  }

  /** Plain text, with at most one brace at the end. */
  predicate SimpleLine(l: string) {
    l != "" && PlainText(l[..|l| - 1]) && l[|l| - 1] != '#' && l[|l| - 1] != '"' && l[|l| - 1] != '`'
    && l[|l| - 1] != '\\' && !IsLineBreak(l[|l| - 1])
  }

  function Brace(l: string): int {
    if l == "" then 0 else if l[|l| - 1] == '{' then 1 else if l[|l| - 1] == '}' then -1 else 0
  }

  /** The depth never falls below where it started, and ends there. */
  predicate Balanced(lines: seq<string>, d: int) {
    if lines == [] then d == 0 else d + Brace(lines[0]) >= 0 && Balanced(lines[1..], d + Brace(lines[0]))
  }

  lemma {:induction false} PlainRun(st: Lex, s: string)
    requires Code(st) && PlainText(s)
    ensures Run(st, s) == st && Find(st, s) == None
    decreases |s|
  {
    if s != "" {
      InTail(s);
      assert s[0] in s;
      PlainRun(st, s[1..]);
    }
  }

  lemma {:induction false} SimpleLineRun(st: Lex, l: string)
    requires Code(st) && SimpleLine(l) && st.depth + Brace(l) >= 1
    ensures Run(st, l + "\n") == st.(depth := st.depth + Brace(l)) && Find(st, l + "\n") == None
  {
    var front, last := l[..|l| - 1], [l[|l| - 1]] + "\n";
    assert l + "\n" == front + last && last[1..] == "\n" && "\n"[1..] == "";
    PlainRun(st, front);
    RunPlus(st, front, last);
    FindPlus(st, front, last);
  }

  lemma {:induction false} BalancedRun(st: Lex, lines: seq<string>, d: int)
    requires Code(st) && (forall l | l in lines :: SimpleLine(l)) && Balanced(lines, d) && d >= 0 && st.depth >= 1 + d
    ensures Run(st, Ended(lines)) == st.(depth := st.depth - d) && Find(st, Ended(lines)) == None
    decreases |lines|
  {
    if lines != [] {
      var st1 := st.(depth := st.depth + Brace(lines[0]));
      SimpleLineRun(st, lines[0]);
      assert forall l | l in lines[1..] :: l in lines;
      BalancedRun(st1, lines[1..], d + Brace(lines[0]));
      RunPlus(st, lines[0] + "\n", Ended(lines[1..]));
      FindPlus(st, lines[0] + "\n", Ended(lines[1..]));
    }
  }

  lemma {:induction false} SimpleLineFacts(l: string)
    requires SimpleLine(l)
    ensures Unbroken(l) && '#' !in l && Quoteless(l)
  {
    assert l == l[..|l| - 1] + [l[|l| - 1]];
  }

  lemma {:induction false} EndedFacts(t: Texts, lines: seq<string>)
    requires MarkersOk(t) && forall l | l in lines :: SimpleLine(l)
    ensures Quoteless(Ended(lines)) && NoMarkers(t, Lines(Ended(lines)))
    ensures forall l, c | l in lines && c in l :: c in Ended(lines)
    ensures lines != [] ==> Ended(lines) != "" && Ended(lines)[|Ended(lines)| - 1] == '\n'
    decreases |lines|
  {
    if lines != [] {
      var first, rest := lines[0], lines[1..];
      assert lines == [first] + rest;
      EndedFacts(t, rest);
      SimpleLineFacts(first);
      PlainLine(t, first);
      OneLineText(first);
      CleanAfterNewline(first + "\n", Ended(rest));
      LinesPlus(first + "\n", Ended(rest));
      NoMarkersPlus(t, [Line(first + "\n")], Lines(Ended(rest)));
      assert forall c | c in Ended(lines) :: c in first || c == '\n' || c in Ended(rest);
    }
  }

  // ---------- the program's texts ----------

  lemma {:induction false} LimitsLinesAreSimple()
    ensures forall l | l in LIMITS_LINES :: SimpleLine(l)
  {
    SimpleTimeouts();
    SimpleLimits();
    SimpleRest();
  }

  lemma {:induction false} SimpleTimeouts()
    ensures SimpleLine("\tservers {") && SimpleLine("\t\ttimeouts {") && SimpleLine("\t\t\tread_header 10s")
    ensures SimpleLine("\t\t\tread_body 15s")
  {
    SimpleBrace("\tservers ", '{');
    SimpleBrace("\t\ttimeouts ", '{');
    SimpleBrace("\t\t\tread_header 10", 's');
    SimpleBrace("\t\t\tread_body 15", 's');
  }

  lemma {:induction false} SimpleLimits()
    ensures SimpleLine("\t\t\twrite 30s") && SimpleLine("\t\t\tidle 2m")
  {
    SimpleBrace("\t\t\twrite 30", 's');
    SimpleBrace("\t\t\tidle 2", 'm');
  }

  lemma {:induction false} SimpleRest()
    ensures SimpleLine("\t\t}")
    ensures SimpleLine("\t\tmax_header_size 64KB") && SimpleLine("\t}")
  {
    SimpleBrace("\t\t", '}');
    SimpleBrace("\t\tmax_header_size 64K", 'B');
    SimpleBrace("\t", '}');
  }

  lemma {:induction false} SimpleBrace(front: string, last: char)
    requires PlainText(front) && last != '#' && last != '"' && last != '`' && last != '\\' && !IsLineBreak(last)
    ensures SimpleLine(front + [last])
  {
    assert (front + [last])[..|front|] == front;
  }

  lemma {:induction false} LimitsAreBalanced()
    ensures Balanced(LIMITS_LINES, 0)
  {
    var l := LIMITS_LINES;
    assert Balanced(l[9..], 0);
    assert l[8..][1..] == l[9..] && Balanced(l[8..], 1);
    assert l[7..][1..] == l[8..] && Balanced(l[7..], 1);
    assert l[6..][1..] == l[7..] && Balanced(l[6..], 2);
    assert l[5..][1..] == l[6..] && Balanced(l[5..], 2);
    assert l[4..][1..] == l[5..] && Balanced(l[4..], 2);
    assert l[3..][1..] == l[4..] && Balanced(l[3..], 2);
    assert l[2..][1..] == l[3..] && Balanced(l[2..], 2);
    assert l[1..][1..] == l[2..] && Balanced(l[1..], 1);
  }

  predicate Printable(s: string) {
    forall c | c in s :: MarkerChar(c)
  }

  lemma {:induction false} MarkerPieces()
    ensures Printable("# BEGIN cc-remote ") && Printable("# END cc-remote ")
    ensures Printable("managed site") && Printable("managed server limits")
  {
  }

  lemma {:induction false} MarkerJoin(a: string, b: string)
    requires Printable(a) && Printable(b) && a != "" && a[0] == '#' && b != "" && !IsSpace(b[|b| - 1])
    ensures MarkerText(a + b)
  {
    assert (a + b)[|a + b| - 1] == b[|b| - 1];
  }

  lemma {:induction false} MarkerTexts()
    ensures MarkerText(BEGIN_MARKER) && MarkerText(END_MARKER)
    ensures MarkerText(GLOBAL_BEGIN_MARKER) && MarkerText(GLOBAL_END_MARKER)
  {
    MarkerPieces();
    MarkerJoin("# BEGIN cc-remote ", "managed site");
    MarkerJoin("# END cc-remote ", "managed site");
    MarkerJoin("# BEGIN cc-remote ", "managed server limits");
    MarkerJoin("# END cc-remote ", "managed server limits");
  }

  lemma {:induction false} MarkersDiffer()
    ensures BEGIN_MARKER != END_MARKER && GLOBAL_BEGIN_MARKER != GLOBAL_END_MARKER
    ensures BEGIN_MARKER != GLOBAL_BEGIN_MARKER && BEGIN_MARKER != GLOBAL_END_MARKER
    ensures END_MARKER != GLOBAL_BEGIN_MARKER && END_MARKER != GLOBAL_END_MARKER
  {
    assert BEGIN_MARKER[2] == 'B' == GLOBAL_BEGIN_MARKER[2] && END_MARKER[2] == 'E' == GLOBAL_END_MARKER[2];
    assert |BEGIN_MARKER| < |GLOBAL_BEGIN_MARKER| && |END_MARKER| < |GLOBAL_END_MARKER|;
  }

  /** What the theorems ask of the texts holds of the program's. */
  lemma {:induction false} ProgramTextsWellFormed(wide: Alnum)
    ensures WellFormed(ProgramTexts(wide))
  {
    var t := ProgramTexts(wide);
    MarkerTexts();
    MarkersDiffer();
    LimitsLinesAreSimple();
    LimitsAreBalanced();
    EndedFacts(t, LIMITS_LINES);
    assert LIMITS_LINES[0] == "\tservers {" && LIMITS_LINES[0][9] == '{' && LIMITS_LINES[6] == "\t\t}"
        && LIMITS_LINES[6][2] == '}';
    forall st: Lex | Code(st) && st.depth >= 1 ensures Run(st, t.limitsBody) == st && Find(st, t.limitsBody) == None {
      BalancedRun(st, LIMITS_LINES, 0);
    }
  }
}
