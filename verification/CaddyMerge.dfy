/**
 Merging the managed site and the managed server limits into a Caddyfile.

 The literal texts are a parameter, `Texts`; what the proofs need of them is
 `WellFormed`, and the texts of the program are shown to satisfy it.
 */
module CaddyMerge {
  import opened Wrappers
  import opened PyLines
  import opened PyText
  import opened CaddyLines
  import opened CaddyLexer

  datatype Texts = Texts(begin: string, end: string, limitsBegin: string, limitsEnd: string, limits: string,
                           limitsBody: string, wide: Alnum)

  type Rendered = Result<string, CaddyMergeError>

  function ManagedSite(t: Texts, site: string): string {
    (t.begin + "\n") + ((site + "\n") + (t.end + "\n"))
  }

  function Spaces(n: nat): string {
    seq(n, _ => ' ')
  }

  predicate Contains(s: string, w: string) {
    exists i | 0 <= i <= |s| :: w <= s[i..]
  }

  // ---------- the two render functions ----------

  /** The marked region, from `begin` up to the end marker line included, replaced by the block. */
  function ReplaceLimits(t: Texts, text: string, begin: nat, endStart: nat, end: nat): Rendered
    requires begin <= endStart <= end <= |text|
  {
    match GlobalSpan(text)
    case Err(e) => Err(e)
    case Ok(None) => Err(LimitsOutsideGlobalBlock)
    case Ok(Some(Span(opening, closing))) =>
      var blank := text[..begin] + Spaces(end - begin) + text[end..];
      if !(opening < begin < endStart < closing) then Err(LimitsOutsideGlobalBlock)
      else if HasServers(blank, opening, closing, t.wide) then Err(UnmanagedServers)
      else Ok(text[..begin] + t.limits + text[end..])
  }

  /** The block added to a text without its markers. */
  function AddLimits(t: Texts, text: string): Rendered {
    match GlobalSpan(text)
    case Err(e) => Err(e)
    case Ok(None) => Ok(("{\n" + t.limits) + ("}\n\n" + text))
    case Ok(Some(Span(opening, closing))) =>
      if HasServers(text, opening, closing, t.wide) then Err(UnmanagedServers)
      else
        var prefix := text[..closing];
        Ok((prefix + Separator(prefix) + t.limits) + text[closing..])
  }

  function Separator(prefix: string): string {
    if prefix != [] && prefix[|prefix| - 1] in "\n\r" then "" else "\n"
  }

  datatype Place = Place(begin: nat, endStart: nat, end: nat)

  function PlaceOf(lines: seq<Line>, b: nat, e: nat): Place {
    Place(LineOffset(lines, b), LineOffset(lines, e), LineOffset(lines, e + 1))
  }

  predicate PlaceIn(p: Place, text: string) {
    p.begin <= p.endStart <= p.end <= |text|
  }

  /** Where the one pair of limits markers stands, if there are markers. */
  function LimitsPlace(t: Texts, text: string): (r: Result<Option<Place>, CaddyMergeError>)
    ensures r.Ok? && r.value.Some? ==> PlaceIn(r.value.value, text)
  {
    var lines := Lines(text);
    var begins, ends := Where(lines, LimitsMarker(t.limitsBegin)), Where(lines, LimitsMarker(t.limitsEnd));
    if begins == [] && ends == [] then Ok(None)
    else if |begins| != 1 || |ends| != 1 then Err(LimitsMarkerPair)
    else if begins[0] >= ends[0] then Err(LimitsMarkerOrder)
    else
      OffsetsOrdered(text, begins[0], LimitsMarker(t.limitsEnd));
      Ok(Some(PlaceOf(lines, begins[0], ends[0])))
  }

  function RenderLimits(t: Texts, text: string): Rendered {
    match LimitsPlace(t, text)
    case Err(e) => Err(e)
    case Ok(None) => AddLimits(t, text)
    case Ok(Some(p)) => ReplaceLimits(t, text, p.begin, p.endStart, p.end)
  }

  lemma {:induction false} OffsetsOrdered(text: string, b: nat, p: Line -> bool)
    requires |Where(Lines(text), p)| == 1 && b < Where(Lines(text), p)[0]
    ensures PlaceIn(PlaceOf(Lines(text), b, Where(Lines(text), p)[0]), text)
  {
    var lines, e := Lines(text), Where(Lines(text), p)[0];
    SingleSplits(lines, p);
    JoinLines(text);
    OffsetMonotone(lines, b, e);
    OffsetMonotone(lines, e, e + 1);
    OffsetMonotone(lines, e + 1, |lines|);
    assert lines[..|lines|] == lines;
  }

  lemma {:induction false} OffsetMonotone(lines: seq<Line>, i: nat, j: nat)
    requires i <= j <= |lines|
    ensures LineOffset(lines, i) <= LineOffset(lines, j)
  {
    assert lines[..j] == lines[..i] + lines[i..j];
    JoinPlus(lines[..i], lines[i..j]);
  }

  // ---------- what the texts must be like ----------

  /** Nothing that ends a comment, opens a brace or touches a quote. */
  predicate Calm(s: string) {
    forall c | c in s :: c != '\n' && c != '{' && c != '"' && c != '`' && c != '\\'
  }

  /** A printable character up to `z` that the scanners do not react to, apart from the comment sign. */
  predicate MarkerChar(c: char) {
    ' ' <= c <= 'z' && c != '"' && c != '`' && c != '\\'
  }

  predicate MarkerText(m: string) {
    m != "" && m[0] == '#' && Trimmed(m) && forall c | c in m :: MarkerChar(c)
  }

  predicate Quoteless(s: string) {
    forall c | c in s :: c != '"' && c != '`' && c != '\\'
  }

  /** Scanning the text in code leaves the scanner where it was and closes no block. */
  ghost predicate Neutral(s: string) {
    forall st: Lex | Code(st) && st.depth >= 1 :: Run(st, s) == st && Find(st, s) == None
  }

  predicate NoMarkers(t: Texts, lines: seq<Line>) {
    NoSite(t, lines) && NoLimits(t, lines)
  }

  predicate NoSite(t: Texts, lines: seq<Line>) {
    NoneOf(lines, SiteMarker(t.begin)) && NoneOf(lines, SiteMarker(t.end))
  }

  predicate NoLimits(t: Texts, lines: seq<Line>) {
    NoneOf(lines, LimitsMarker(t.limitsBegin)) && NoneOf(lines, LimitsMarker(t.limitsEnd))
  }

  predicate MarkersOk(t: Texts) {
    MarkerText(t.begin) && MarkerText(t.end) && MarkerText(t.limitsBegin) && MarkerText(t.limitsEnd)
  }

  predicate IsLimits(t: Texts, s: string) {
    s == t.limits
  }

  /** The limits block: its begin marker line, a balanced body without quotes and markers, its end marker line. */
  ghost predicate LimitsOk(t: Texts, s: string) {
    && s == ("\t" + t.limitsBegin + "\n") + (t.limitsBody + ("\t" + t.limitsEnd + "\n"))
    && t.limitsBody != "" && t.limitsBody[|t.limitsBody| - 1] == '\n'
    && '{' in t.limitsBody && '}' in t.limitsBody
    && Quoteless(t.limitsBody) && Neutral(t.limitsBody) && NoMarkers(t, Lines(t.limitsBody))
  }

  ghost predicate WellFormed(t: Texts) {
    && MarkersOk(t)
    && t.begin != t.end && t.limitsBegin != t.limitsEnd
    && t.begin != t.limitsBegin && t.begin != t.limitsEnd && t.end != t.limitsBegin && t.end != t.limitsEnd
    && forall s {:trigger IsLimits(t, s)} | IsLimits(t, s) :: LimitsOk(t, s)
  }

  lemma {:induction false} LimitsFacts(t: Texts)
    requires WellFormed(t)
    ensures LimitsOk(t, t.limits)
  {
    assert IsLimits(t, t.limits);
  }

  // ---------- scanning the limits block ----------

  /** The scanner states that occur: an escape only inside a double quote, a comment only outside quotes. */
  predicate Sane(st: Lex) {
    (st.comment ==> st.quote == NoQuote) && (st.escaped ==> st.quote == DoubleQuote)
  }

  lemma {:induction false} RunSane(st: Lex, s: string)
    requires Sane(st)
    ensures Sane(Run(st, s))
    decreases |s|
  {
    if s != [] { RunSane(Step(st, s[0]), s[1..]); }
  }

  /** A quoted stretch without quotes stays quoted. */
  lemma {:induction false} QuotedRun(st: Lex, s: string)
    requires !st.comment && st.quote != NoQuote && Quoteless(s) && s != []
    ensures Run(st, s) == Step(st, '\n') && Find(st, s) == None
    decreases |s|
  {
    assert s[0] in s;
    InTail(s);
    if |s| > 1 {
      QuotedRun(Step(st, s[0]), s[1..]);
    }
  }

  /** A comment runs to the end of its line. */
  lemma {:induction false} CommentRun(st: Lex, s: string)
    requires st.comment && '\n' !in s
    ensures Run(st, s + "\n") == st.(comment := false) && Find(st, s + "\n") == None
    decreases |s|
  {
    if s == [] {
      assert s + "\n" == "\n" && "\n"[1..] == [];
    } else {
      assert (s + "\n")[1..] == s[1..] + "\n";
      CommentRun(st, s[1..]);
    }
  }

  /** A marker line does to the scanner what a bare newline does. */
  lemma {:induction false} MarkerRun(st: Lex, m: string)
    requires MarkerText(m)
    ensures Run(st, "\t" + m + "\n") == Step(st, '\n') && Find(st, "\t" + m + "\n") == None
  {
    var line := "\t" + m + "\n";
    if st.comment {
      assert line == ("\t" + m) + "\n";
      CommentRun(st, "\t" + m);
    } else if st.quote != NoQuote {
      QuotedRun(st, line);
    } else {
      assert line[1..] == m + "\n" && line[1..][1..] == m[1..] + "\n";
      InTail(m);
      CommentRun(st.(comment := true), m[1..]);
    }
  }

  lemma {:induction false} RunThree(st: Lex, st1: Lex, a: string, b: string, c: string)
    requires Run(st, a) == st1 && Run(st1, b) == st1 && Run(st1, c) == st1
    requires Find(st, a) == None && Find(st1, b) == None && Find(st1, c) == None
    ensures Run(st, a + (b + c)) == st1 && Find(st, a + (b + c)) == None
  {
    RunPlus(st, a, b + c);
    FindPlus(st, a, b + c);
    RunPlus(st1, b, c);
    FindPlus(st1, b, c);
  }

  lemma {:induction false} BodyRun(t: Texts, st: Lex)
    requires LimitsOk(t, t.limits) && st.depth >= 1 && Sane(st) && Step(st, '\n') == st
    ensures Run(st, t.limitsBody) == st && Find(st, t.limitsBody) == None
  {
    if st.quote != NoQuote { QuotedRun(st, t.limitsBody); }
  }

  lemma {:induction false} LimitsRun(t: Texts, st: Lex)
    requires WellFormed(t) && st.depth >= 1 && Sane(st)
    ensures Run(st, t.limits) == Step(st, '\n') && Find(st, t.limits) == None
  {
    var st1 := Step(st, '\n');
    LimitsFacts(t);
    assert Step(st1, '\n') == st1;
    MarkerRun(st, t.limitsBegin);
    BodyRun(t, st1);
    MarkerRun(st1, t.limitsEnd);
    RunThree(st, st1, "\t" + t.limitsBegin + "\n", t.limitsBody, "\t" + t.limitsEnd + "\n");
  }

  /** In code before a newline, the depth is positive while the block is open. */
  lemma {:induction false} OpenDepth(st: Lex, s: string)
    requires st.depth >= 1 && Find(st, s) == None
    ensures Run(st, s).depth >= 1
    decreases |s|
  {
    if s != [] { OpenDepth(Step(st, s[0]), s[1..]); }
  }

  lemma {:induction false} SpacesRun(d: Dir, n: nat, wide: Alnum)
    requires n > 0
    ensures DirRun(d, Spaces(n), wide) == DirRun(d, " ", wide)
    decreases n
  {
    assert Spaces(n)[1..] == Spaces(n - 1) && " "[1..] == [];
    if n == 1 {
      assert Spaces(1) == " ";
    } else {
      SpacesRun(DirStep(d, ' ', wide), n - 1, wide);
    }
  }
}
