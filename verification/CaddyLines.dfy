/** Marker lines among the lines of a Caddyfile. */
module CaddyLines {
  import opened PyLines
  import opened PyText

  // ---------- marker lines ----------

  function Chomp(line: string): string {
    if line != [] && line[|line| - 1] in "\r\n" then Chomp(line[..|line| - 1]) else line
  }

  /** A line that is the marker and nothing else. */
  function SiteMarker(marker: string): Line -> bool {
    (l: Line) => Chomp(l.text) == marker
  }

  /** A line that is the marker, indented or not. */
  function LimitsMarker(marker: string): Line -> bool {
    (l: Line) => Trim(Chomp(l.text)) == marker
  }

  /** The indices of the lines that satisfy `p`. */
  function Where(lines: seq<Line>, p: Line -> bool): seq<nat> {
    if lines == [] then []
    else Where(lines[..|lines| - 1], p) + if p(lines[|lines| - 1]) then [|lines| - 1] else []
  }

  predicate NoneOf(lines: seq<Line>, p: Line -> bool) {
    forall l | l in lines :: !p(l)
  }

  lemma {:induction false} WhereNone(lines: seq<Line>, p: Line -> bool)
    ensures Where(lines, p) == [] <==> NoneOf(lines, p)
  {
    if lines != [] {
      WhereNone(lines[..|lines| - 1], p);
      assert lines == lines[..|lines| - 1] + [lines[|lines| - 1]];
    }
  }

  lemma {:induction false} WhereOnce(a: seq<Line>, x: Line, b: seq<Line>, p: Line -> bool)
    requires NoneOf(a, p) && p(x) && NoneOf(b, p)
    ensures Where(a + [x] + b, p) == [|a|]
  {
    var all := a + [x] + b;
    if b == [] {
      WhereNone(a, p);
      assert all[..|all| - 1] == a;
    } else {
      WhereOnce(a, x, b[..|b| - 1], p);
      assert all[..|all| - 1] == a + [x] + b[..|b| - 1];
      assert b[|b| - 1] in b;
    }
  }

  lemma {:induction false} WhereBounds(lines: seq<Line>, p: Line -> bool)
    ensures forall k | 0 <= k < |Where(lines, p)| :: Where(lines, p)[k] < |lines| && p(lines[Where(lines, p)[k]])
    ensures forall i | 0 <= i < |lines| && p(lines[i]) :: i in Where(lines, p)
  {
    if lines != [] {
      var front := lines[..|lines| - 1];
      WhereBounds(front, p);
      assert forall i | 0 <= i < |front| :: front[i] == lines[i];
    }
  }

  lemma {:induction false} WhereIs(lines: seq<Line>, p: Line -> bool, k: nat)
    requires k < |lines|
    ensures p(lines[k]) ==> k in Where(lines, p)
  {
    WhereBounds(lines, p);
  }

  /** A single marker line splits the lines in two parts without one. */
  lemma {:induction false} SingleSplits(lines: seq<Line>, p: Line -> bool)
    requires |Where(lines, p)| == 1
    ensures var i := Where(lines, p)[0];
            i < |lines| && p(lines[i]) && NoneOf(lines[..i], p) && NoneOf(lines[i + 1..], p)
            && lines == lines[..i] + [lines[i]] + lines[i + 1..]
  {
    WhereBounds(lines, p);
    var i := Where(lines, p)[0];
    forall l | l in lines[..i] ensures !p(l) {
      var k: nat :| k < i && lines[k] == l;
      WhereIs(lines, p, k);
    }
    forall l | l in lines[i + 1..] ensures !p(l) {
      var k: nat :| i < k < |lines| && lines[k] == l;
      WhereIs(lines, p, k);
    }
  }

  function LineOffset(lines: seq<Line>, i: nat): nat {
    if i <= |lines| then |Join(lines[..i])| else 0
  }

  function Spans(lines: seq<Line>, at: seq<nat>): seq<(nat, nat)> {
    seq(|at|, k requires 0 <= k < |at| => (LineOffset(lines, at[k]), LineOffset(lines, at[k] + 1)))
  }

  lemma {:induction false} LineOffsetStep(lines: seq<Line>, i: nat)
    requires i < |lines|
    ensures LineOffset(lines, i + 1) == LineOffset(lines, i) + |lines[i].text|
  {
    assert lines[..i + 1] == lines[..i] + [lines[i]];
    JoinPlus(lines[..i], [lines[i]]);
    assert Join([lines[i]]) == lines[i].text;
  }

  lemma {:induction false} WhereStep(lines: seq<Line>, p: Line -> bool, i: nat)
    requires i < |lines|
    ensures Where(lines[..i + 1], p) == if p(lines[i]) then Where(lines[..i], p) + [i] else Where(lines[..i], p)
  {
    assert lines[..i + 1][..i] == lines[..i];
  }

  lemma {:induction false} SpansStep(lines: seq<Line>, at: seq<nat>, i: nat)
    ensures Spans(lines, at + [i]) == Spans(lines, at) + [(LineOffset(lines, i), LineOffset(lines, i + 1))]
  {
  }

  /** The spans of the marker lines, found in one pass over the lines. */
  method MarkerLineSpans(text: string, marker: string) returns (spans: seq<(nat, nat)>)
    ensures spans == Spans(Lines(text), Where(Lines(text), LimitsMarker(marker)))
  {
    var lines := Lines(text);
    spans := [];
    var offset := 0;
    for i := 0 to |lines|
      invariant offset == LineOffset(lines, i)
      invariant spans == Spans(lines, Where(lines[..i], LimitsMarker(marker)))
    {
      LineOffsetStep(lines, i);
      WhereStep(lines, LimitsMarker(marker), i);
      SpansStep(lines, Where(lines[..i], LimitsMarker(marker)), i);
      var end := offset + |lines[i].text|;
      if LimitsMarker(marker)(lines[i]) { spans := spans + [(offset, end)]; }
      offset := end;
    }
    assert lines[..|lines|] == lines;
  }
}
