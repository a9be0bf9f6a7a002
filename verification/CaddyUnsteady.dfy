/** Two Caddyfiles the program accepts once but does not render to themselves. */
module CaddyUnsteady {
  import opened Wrappers
  import opened PyLines
  import opened PyText
  import opened CaddyLexer
  import opened CaddyMerge
  import opened CaddyLimits
  import opened CaddyIdempotence
  import opened CaddySite
  import opened CaddyTwice
  import opened CaddyTexts
  import opened CaddyRender
  import opened CaddyTheorems

  const TWO_DEEP := Lex(2, NoQuote, false, false)
  const ONE_DEEP := Lex(1, NoQuote, false, false)

  // ---------- a plain site block ----------

  /** A marker line without indentation is a comment to the scanner too. */
  lemma {:induction false} SiteMarkerRun(st: Lex, m: string)
    requires MarkerText(m) && Code(st)
    ensures Run(st, m + "\n") == st && Find(st, m + "\n") == None
  {
    assert (m + "\n")[1..] == m[1..] + "\n";
    InTail(m);
    CommentRun(st.(comment := true), m[1..]);
  }

  lemma {:induction false} PlainLineRun(st: Lex, w: string)
    requires Code(st) && PlainText(w)
    ensures Run(st, w + "\n") == st && Find(st, w + "\n") == None
  {
    PlainRun(st, w);
    RunPlus(st, w, "\n");
    FindPlus(st, w, "\n");
    assert "\n"[1..] == "";
  }

  lemma {:induction false} SiteBlockRun(t: Texts, w: string, st: Lex)
    requires MarkersOk(t) && PlainText(w) && Code(st)
    ensures Run(st, SiteBlock(t, w + "\n")) == st && Find(st, SiteBlock(t, w + "\n")) == None
  {
    SiteMarkerRun(st, t.begin);
    SiteMarkerRun(st, t.end);
    PlainLineRun(st, w);
    RunThree(st, st, t.begin + "\n", w + "\n", t.end + "\n");
  }

  // ---------- old limits lines that close a brace ----------

  const NESTED := ("{" + "\n") + ("x {" + "\n")

  lemma {:induction false} NestedOpens()
    ensures OpenAt(NESTED) && Skip(NESTED, false) == 0 && StateAfter(NESTED) == TWO_DEEP
  {
    assert NESTED[0..] == NESTED && NESTED[1..] == "\nx {\n" && "\nx {\n"[1..] == "x {\n" && "x {\n"[1..] == " {\n";
    assert " {\n"[1..] == "{\n" && "{\n"[1..] == "\n" && "\n"[1..] == "";
    assert Run(Lex(1, NoQuote, false, false), " {\n") == TWO_DEEP
        && Find(Lex(1, NoQuote, false, false), " {\n") == None;
    assert Run(ONE_DEEP, "\nx {\n") == TWO_DEEP && Find(ONE_DEEP, "\nx {\n") == None;
  }

  lemma {:induction false} TwoPlainLines(t: Texts, a: string, b: string)
    requires MarkersOk(t) && Unbroken(a) && Unbroken(b) && '#' !in a && '#' !in b
    ensures NoMarkers(t, Lines((a + "\n") + (b + "\n"))) && AtLineStart((a + "\n") + (b + "\n"))
  {
    OneLineText(a);
    OneLineText(b);
    CleanAfterNewline(a + "\n", b + "\n");
    LinesPlus(a + "\n", b + "\n");
    PlainLine(t, a);
    PlainLine(t, b);
    NoMarkersPlus(t, [Line(a + "\n")], [Line(b + "\n")]);
  }

  lemma {:induction false} NestedLines(t: Texts)
    requires MarkersOk(t)
    ensures AtLineStart(NESTED) && NoMarkers(t, Lines(NESTED))
  {
    TwoPlainLines(t, "{", "x {");
  }

  lemma {:induction false} NestedQuiet(b: string, wide: Alnum)
    ensures !HasServers((NESTED + " ") + b, 0, |NESTED| + 1, wide)
  {
    var s := "\nx {\n ";
    assert ((NESTED + " ") + b)[1..|NESTED| + 1] == s;
    assert s[1..] == "x {\n " && "x {\n "[1..] == " {\n " && " {\n "[1..] == "{\n " && "{\n "[1..] == "\n ";
    assert "\n "[1..] == " " && " "[1..] == "";
  }

  lemma {:induction false} ClosingLine(t: Texts)
    requires MarkersOk(t)
    ensures NoMarkers(t, [Line("}\n")]) && Lines("}\n") == [Line("}\n")]
    ensures Run(TWO_DEEP, "}\n") == ONE_DEEP && Find(TWO_DEEP, "}\n") == None && Find(ONE_DEEP, "}\n") == Some(0)
  {
    assert "}" + "\n" == "}\n" && "}\n"[1..] == "\n" && "\n"[1..] == "";
    OneLineText("}");
    PlainLine(t, "}");
  }

  /** The old lines: the two markers and a closing brace between them. */
  function ClosingLines(t: Texts): string {
    ("\t" + t.limitsBegin + "\n") + ("}\n" + ("\t" + t.limitsEnd + "\n"))
  }

  function ClosingRegion(t: Texts, b: string): Region {
    Region(Lines(NESTED), MarkerLine(t.limitsBegin), [Line("}\n")], MarkerLine(t.limitsEnd), Lines(b))
  }

  /** The rest of a text: a closing brace, then lines that leave the scanner as it is. */
  ghost predicate ClosingRest(t: Texts, b: string) {
    Find(ONE_DEEP, b) == Some(0) && Find(TWO_DEEP, b) == None && NoLimits(t, Lines(b))
  }

  /** Lines between the two marker lines. */
  lemma {:induction false} BetweenMarkers(t: Texts, mid: string)
    requires MarkersOk(t) && mid != "" && mid[0] != '\n' && mid[|mid| - 1] == '\n'
    ensures var s := ("\t" + t.limitsBegin + "\n") + (mid + ("\t" + t.limitsEnd + "\n"));
            && Lines(s) == ([MarkerLine(t.limitsBegin)] + Lines(mid)) + [MarkerLine(t.limitsEnd)]
            && s != "" && s[0] == '\t' && s[|s| - 1] == '\n'
  {
    var first, last := "\t" + t.limitsBegin + "\n", "\t" + t.limitsEnd + "\n";
    MarkerLineText(t.limitsBegin);
    MarkerLineText(t.limitsEnd);
    ThreeTexts(first, mid, last);
    EdgesOfThree(first, mid, last);
  }

  lemma {:induction false} ClosingLinesLines(t: Texts, b: string)
    requires MarkersOk(t)
    ensures Lines(ClosingLines(t)) == ClosingRegion(t, b).Old()
    ensures ClosingLines(t) != "" && ClosingLines(t)[0] == '\t' && ClosingLines(t)[|ClosingLines(t)| - 1] == '\n'
  {
    ClosingLine(t);
    BetweenMarkers(t, "}\n");
  }

  lemma {:induction false} ClosingMarked(t: Texts, b: string)
    requires WellFormed(t) && ClosingRest(t, b)
    ensures Marked(t, (NESTED + ClosingLines(t)) + b, ClosingRegion(t, b))
  {
    NestedLines(t);
    ClosingLine(t);
    ClosingLinesLines(t, b);
    MarkerLineIs(t, t.limitsBegin);
    MarkerLineIs(t, t.limitsEnd);
    LinesAmong(NESTED, ClosingLines(t), b);
    Regroup(ClosingRegion(t, b));
  }

  lemma {:induction false} ClosingRun(t: Texts)
    requires MarkersOk(t)
    ensures Find(TWO_DEEP, ClosingLines(t)) == None && Run(TWO_DEEP, ClosingLines(t)) == ONE_DEEP
  {
    var first, last := "\t" + t.limitsBegin + "\n", "\t" + t.limitsEnd + "\n";
    ClosingLine(t);
    MarkerRun(TWO_DEEP, t.limitsBegin);
    MarkerRun(ONE_DEEP, t.limitsEnd);
    FindPlus(TWO_DEEP, first, "}\n" + last);
    RunPlus(TWO_DEEP, first, "}\n" + last);
    FindPlus(TWO_DEEP, "}\n", last);
    RunPlus(TWO_DEEP, "}\n", last);
  }

  lemma {:induction false} ClosingSpan(t: Texts, b: string) returns (c: nat)
    requires MarkersOk(t) && ClosingRest(t, b)
    ensures GlobalSpan((NESTED + ClosingLines(t)) + b) == Ok(Some(Span(0, c))) && c == |NESTED| + |ClosingLines(t)|
  {
    c := |NESTED| + |ClosingLines(t)|;
    NestedOpens();
    ClosingRun(t);
    SpanCloses(NESTED, ClosingLines(t), b, ONE_DEEP, c);
  }

  /** The block opened at the start of `a` closes right after `gone`. */
  lemma {:induction false} SpanCloses(a: string, gone: string, b: string, st: Lex, c: nat)
    requires OpenAt(a) && Skip(a, false) == 0 && Find(StateAfter(a), gone) == None && Run(StateAfter(a), gone) == st
    requires Find(st, b) == Some(0) && c == |a| + |gone|
    ensures GlobalSpan((a + gone) + b) == Ok(Some(Span(0, c)))
  {
    WholeFromStart(a);
    FindThree(START, a, gone, b);
    SkipOpen(a, gone, b);
    SpanAt0((a + gone) + b, c);
  }

  lemma {:induction false} SpanAt0(text: string, c: nat)
    requires Skip(text, false) == 0 && text != "" && text[0] == '{' && Find(START, text) == Some(c)
    ensures GlobalSpan(text) == Ok(Some(Span(0, c)))
  {
    WholeFromStart(text);
  }

  lemma {:induction false} WholeFromStart(s: string)
    ensures s[0..] == s
  {
  }

  lemma {:induction false} ClosingParts(t: Texts, b: string)
    requires WellFormed(t)
    ensures var r := ClosingRegion(t, b);
            r.A() == NESTED && r.D() == ClosingLines(t) && |NESTED| < r.EndStart() < |NESTED| + |ClosingLines(t)|
  {
    ClosingLinesLines(t, b);
    JoinLines(NESTED);
    JoinLines(ClosingLines(t));
    BlockEndStart(ClosingRegion(t, b));
  }

  lemma {:induction false} PlaceIn3(t: Texts, a: string, gone: string, b: string, r: Region)
    requires t.limitsBegin != t.limitsEnd && Marked(t, (a + gone) + b, r) && r.A() == a && r.D() == gone
    ensures LimitsPlace(t, (a + gone) + b) == Ok(Some(Place(|a|, r.EndStart(), |a| + |gone|)))
  {
    PlaceAt(t, (a + gone) + b, r, a, gone);
  }

  /** A region replaced in a text whose global block closes right after it. */
  lemma {:induction false} RenderRegion(t: Texts, a: string, gone: string, b: string, endStart: nat, o: nat, c: nat)
    requires LimitsPlace(t, (a + gone) + b) == Ok(Some(Place(|a|, endStart, |a| + |gone|)))
    requires GlobalSpan((a + gone) + b) == Ok(Some(Span(o, c))) && c == |a| + |gone|
    requires o < |a| < endStart < |a| + |gone| && !HasServers((a + " ") + b, o, |a| + 1, t.wide)
    ensures RenderLimits(t, (a + gone) + b) == Ok((a + t.limits) + b)
  {
    RenderAt(t, (a + gone) + b, Place(|a|, endStart, |a| + |gone|));
    ReplaceIs(t, a, gone, b, endStart, o, c);
    ServersThrough(a, |gone|, b, o, 0, t.wide);
  }

  lemma {:induction false} RenderMarked(t: Texts, a: string, gone: string, b: string, r: Region, o: nat, c: nat)
    requires t.limitsBegin != t.limitsEnd && Marked(t, (a + gone) + b, r) && r.A() == a && r.D() == gone
    requires GlobalSpan((a + gone) + b) == Ok(Some(Span(o, c))) && c == |a| + |gone|
    requires o < |a| < r.EndStart() < |a| + |gone| && !HasServers((a + " ") + b, o, |a| + 1, t.wide)
    ensures RenderLimits(t, (a + gone) + b) == Ok((a + t.limits) + b)
  {
    PlaceIn3(t, a, gone, b, r);
    RenderRegion(t, a, gone, b, r.EndStart(), o, c);
  }

  lemma {:induction false} ClosingRegionRenders(t: Texts, b: string)
    requires WellFormed(t) && ClosingRest(t, b)
    ensures RenderLimits(t, (NESTED + ClosingLines(t)) + b) == Ok((NESTED + t.limits) + b)
  {
    ClosingMarked(t, b);
    ClosingParts(t, b);
    var c := ClosingSpan(t, b);
    NestedQuiet(b, t.wide);
    RenderMarked(t, NESTED, ClosingLines(t), b, ClosingRegion(t, b), 0, c);
  }

  /** A text whose rest does not close the block its start has opened. */
  lemma {:induction false} RestDoesNotClose(t: Texts, a: string, b: string)
    requires WellFormed(t) && AtLineStart(a) && NoLimits(t, Lines(a)) && NoLimits(t, Lines(b))
    requires OpenAt(a) && Find(Step(StateAfter(a), '\n'), b) == None
    ensures RenderLimits(t, (a + t.limits) + b).Err?
  {
    SettlesIs(t, a, b);
    RenderWithLimits(t, a, b);
  }

  /** The limits pass accepts the text; rendered again the global block no longer closes. */
  lemma {:induction false} ClosingLimitsFail(t: Texts, b: string)
    requires WellFormed(t) && ClosingRest(t, b)
    ensures RenderLimits(t, (NESTED + ClosingLines(t)) + b) == Ok((NESTED + t.limits) + b)
    ensures RenderLimits(t, (NESTED + t.limits) + b).Err?
  {
    ClosingRegionRenders(t, b);
    NestedOpens();
    NestedLines(t);
    StaysOpen(t, NESTED, b);
  }

  lemma {:induction false} StaysOpen(t: Texts, a: string, b: string)
    requires WellFormed(t) && AtLineStart(a) && NoMarkers(t, Lines(a)) && OpenAt(a) && StateAfter(a) == TWO_DEEP
    requires ClosingRest(t, b)
    ensures RenderLimits(t, (a + t.limits) + b).Err?
  {
    assert Step(TWO_DEEP, '\n') == TWO_DEEP;
    RestDoesNotClose(t, a, b);
  }

  // ---------- old limits lines around the site ----------

  function Swallowing(t: Texts, w: string): string {
    ("\t" + t.limitsBegin + "\n") + (SiteBlock(t, w + "\n") + ("\t" + t.limitsEnd + "\n"))
  }

  function SwallowingRegion(t: Texts, w: string): Region {
    Region(Lines("{\n"), MarkerLine(t.limitsBegin), Lines(SiteBlock(t, w + "\n")), MarkerLine(t.limitsEnd),
        Lines("}\n"))
  }

  const OPENED := "{\n"

  lemma {:induction false} SwallowingRun(t: Texts, w: string)
    requires MarkersOk(t) && PlainText(w)
    ensures Run(ONE_DEEP, Swallowing(t, w)) == ONE_DEEP && Find(ONE_DEEP, Swallowing(t, w)) == None
  {
    var first, last := "\t" + t.limitsBegin + "\n", "\t" + t.limitsEnd + "\n";
    MarkerRun(ONE_DEEP, t.limitsBegin);
    MarkerRun(ONE_DEEP, t.limitsEnd);
    SiteBlockRun(t, w, ONE_DEEP);
    RunThree(ONE_DEEP, ONE_DEEP, first, SiteBlock(t, w + "\n"), last);
  }

  lemma {:induction false} SwallowingLines(t: Texts, w: string)
    requires WellFormed(t) && PlainText(w)
    ensures Lines(Swallowing(t, w)) == SwallowingRegion(t, w).Old() && NoLimits(t, Lines(SiteBlock(t, w + "\n")))
    ensures Swallowing(t, w) != "" && Swallowing(t, w)[0] == '\t' && Swallowing(t, w)[|Swallowing(t, w)| - 1] == '\n'
  {
    BlockStart(t, w + "\n");
    SwallowedBlockLines(t, w);
    BetweenMarkers(t, SiteBlock(t, w + "\n"));
  }

  lemma {:induction false} EdgesOfThree(a: string, b: string, c: string)
    requires a != "" && c != ""
    ensures var s := a + (b + c);
            s[0] == a[0] && s[|s| - 1] == c[|c| - 1]
  {
  }

  lemma {:induction false} SwallowedBlockLines(t: Texts, w: string)
    requires WellFormed(t) && PlainText(w)
    ensures NoLimits(t, Lines(SiteBlock(t, w + "\n"))) && NoSite(t, Lines(w + "\n"))
  {
    SiteBlockLines(t, w + "\n");
    OneLineText(w);
    PlainLine(t, w);
    SiteLineIs(t, t.begin);
    SiteLineIs(t, t.end);
    NoMarkersPlus(t, [SiteLine(t.begin)], Lines(w + "\n"));
    NoMarkersPlus(t, [SiteLine(t.begin)] + Lines(w + "\n"), [SiteLine(t.end)]);
  }

  lemma {:induction false} SwallowingMarked(t: Texts, w: string)
    requires WellFormed(t) && PlainText(w)
    ensures Marked(t, (OPENED + Swallowing(t, w)) + "}\n", SwallowingRegion(t, w))
  {
    WrapperLineTexts();
    WrapperPlain(t);
    ClosingLine(t);
    SwallowingLines(t, w);
    MarkerLineIs(t, t.limitsBegin);
    MarkerLineIs(t, t.limitsEnd);
    LinesAmong(OPENED, Swallowing(t, w), "}\n");
    Regroup(SwallowingRegion(t, w));
  }

  lemma {:induction false} SwallowingSizes(t: Texts, w: string)
    requires WellFormed(t) && PlainText(w)
    ensures var r := SwallowingRegion(t, w);
            r.A() == OPENED && r.D() == Swallowing(t, w) && |OPENED| < r.EndStart() < |OPENED| + |Swallowing(t, w)|
  {
    SwallowingLines(t, w);
    JoinLines(OPENED);
    JoinLines(Swallowing(t, w));
    BlockEndStart(SwallowingRegion(t, w));
  }

  lemma {:induction false} SwallowingSpan(t: Texts, w: string) returns (c: nat)
    requires MarkersOk(t) && PlainText(w)
    ensures GlobalSpan((OPENED + Swallowing(t, w)) + "}\n") == Ok(Some(Span(0, c)))
            && c == |OPENED| + |Swallowing(t, w)|
  {
    c := |OPENED| + |Swallowing(t, w)|;
    WrapperOpens(t);
    ClosingLine(t);
    SwallowingRun(t, w);
    SpanCloses(OPENED, Swallowing(t, w), "}\n", ONE_DEEP, c);
  }

  lemma {:induction false} OpenedQuiet(t: Texts)
    ensures !HasServers((OPENED + " ") + "}\n", 0, |OPENED| + 1, t.wide)
  {
    WrapperOpens(t);
    ServersBefore(OPENED, "}\n", 0);
  }

  lemma {:induction false} SwallowingRenders(t: Texts, w: string)
    requires WellFormed(t) && PlainText(w)
    ensures RenderLimits(t, (OPENED + Swallowing(t, w)) + "}\n") == Ok((OPENED + t.limits) + "}\n")
  {
    var r := SwallowingRegion(t, w);
    SwallowingMarked(t, w);
    SwallowingSizes(t, w);
    var c := SwallowingSpan(t, w);
    OpenedQuiet(t);
    RenderMarked(t, OPENED, Swallowing(t, w), "}\n", r, 0, c);
  }

  /**
   Old limits lines around the site block: the rendering replaces them all, and
   the rendered Caddyfile has no site any more.
   */
  lemma {:induction false} SwallowedSiteIsLost(t: Texts, w: string)
    requires WellFormed(t) && DomainOk(t, w) && PlainText(w)
    ensures var current := ("{\n" + Swallowing(t, w)) + "}\n";
            var out := ("{\n" + t.limits) + "}\n";
            RenderManagedCaddyfile(t, current, w, w) == Ok(out) && NoSite(t, Lines(out))
  {
    var p, m, s := "{\n" + ("\t" + t.limitsBegin + "\n"), w + "\n", ("\t" + t.limitsEnd + "\n") + "}\n";
    SwallowingAround(t, w);
    PlaceAround(t, p, m, s, w, w);
    SwallowingParts("{\n", "\t" + t.limitsBegin + "\n", SiteBlock(t, m), "\t" + t.limitsEnd + "\n", "}\n");
    SwallowingRenders(t, w);
    PlainSite(t, w);
    RenderIs(t, ("{\n" + Swallowing(t, w)) + "}\n", w, w);
    WrapperLineTexts();
    WrapperPlain(t);
    ClosingLine(t);
    PutLimits(t, "{\n", "}\n");
  }

  lemma {:induction false} SwallowingParts(a: string, b: string, c: string, d: string, e: string)
    ensures (a + (b + (c + d))) + e == ((a + b) + c) + (d + e)
  {
  }

  lemma {:induction false} PlainSite(t: Texts, w: string)
    requires WellFormed(t) && PlainText(w) && w != ""
    ensures Site(w) == w && SiteError(t, w, w) == None
  {
    assert w[0] in w && w[|w| - 1] in w;
    assert Unbroken(w);
    OpenLine(w, "");
    assert w + "" == w && w[0..] == w;
    ContentOf(w, "");
    assert w <= w[0..];
    assert t.begin[0] == '#' && t.end[0] == '#';
  }

  lemma {:induction false} SwallowingAround(t: Texts, w: string)
    requires WellFormed(t) && DomainOk(t, w) && PlainText(w)
    ensures Around(t, "{\n" + ("\t" + t.limitsBegin + "\n"), w + "\n", ("\t" + t.limitsEnd + "\n") + "}\n", w)
  {
    var first, last := "\t" + t.limitsBegin + "\n", "\t" + t.limitsEnd + "\n";
    SwallowedBlockLines(t, w);
    WrapperLineTexts();
    WrapperPlain(t);
    ClosingLine(t);
    MarkerLineText(t.limitsBegin);
    MarkerLineText(t.limitsEnd);
    MarkerLineIs(t, t.limitsBegin);
    MarkerLineIs(t, t.limitsEnd);
    CleanAfterNewline("{\n", first);
    LinesPlus("{\n", first);
    CleanAfterNewline(last, "}\n");
    LinesPlus(last, "}\n");
    NoMarkersPlus(t, [Line("{\n")], [MarkerLine(t.limitsBegin)]);
    NoMarkersPlus(t, [MarkerLine(t.limitsEnd)], [Line("}\n")]);
    SwallowingDomain(t, w);
  }

  lemma {:induction false} SwallowingDomain(t: Texts, w: string)
    requires WellFormed(t) && DomainOk(t, w)
    ensures !Contains("{\n" + ("\t" + t.limitsBegin + "\n"), w) && !Contains(("\t" + t.limitsEnd + "\n") + "}\n", w)
  {
    var first, last := "\t" + t.limitsBegin + "\n", "\t" + t.limitsEnd + "\n";
    LimitsFacts(t);
    ContainsPart(first, t.limitsBody + last, w);
    ContainsPart(t.limitsBody, last, w);
    NewlinesNotIn(w, "");
    WrapperDomain(t, "", w);
    ClosingDomain(t, w);
    NotAcross("{\n", first, w);
    NotAcross(last, "}\n", w);
  }

  lemma {:induction false} ClosingDomain(t: Texts, w: string)
    requires WellFormed(t) && DomainOk(t, w)
    ensures !Contains("}\n", w)
  {
    LimitsFacts(t);
    OneCharNotIn(t, w, '}');
    NewlinesNotIn(w, "\n");
    NotAcross("}", "\n", w);
    assert "}" + "\n" == "}\n";
  }

  // ---------- a whole rendering of lines that close a brace ----------

  lemma {:induction false} SiteRest(t: Texts, w: string)
    requires WellFormed(t) && PlainText(w)
    ensures ClosingRest(t, "}\n" + SiteBlock(t, w + "\n"))
  {
    var block := SiteBlock(t, w + "\n");
    ClosingLine(t);
    SiteBlockRun(t, w, ONE_DEEP);
    FindPlus(ONE_DEEP, "}\n", block);
    FindPlus(TWO_DEEP, "}\n", block);
    SwallowedBlockLines(t, w);
    BlockStart(t, w + "\n");
    CleanAfterNewline("}\n", block);
    LinesPlus("}\n", block);
    NoLimitsPlus(t, Lines("}\n"), Lines(block));
  }

  lemma {:induction false} NoLimitsPlus(t: Texts, a: seq<Line>, b: seq<Line>)
    requires NoLimits(t, a) && NoLimits(t, b)
    ensures NoLimits(t, a + b)
  {
  }

  /** Lines with neither site marker nor domain, in front of the site block. */
  ghost predicate BeforeSite(t: Texts, s: string, w: string) {
    AtLineStart(s) && NoSite(t, Lines(s)) && !Contains(s, w)
  }

  lemma {:induction false} BeforeSitePlus(t: Texts, a: string, b: string, w: string)
    requires w != "" && Unbroken(w) && BeforeSite(t, a, w) && BeforeSite(t, b, w) && Clean(a, b) && b != ""
    ensures BeforeSite(t, a + b, w)
  {
    LinesPlus(a, b);
    NotAcross(a, b, w);
    NoSitePlus(t, Lines(a), Lines(b));
  }

  lemma {:induction false} NoSitePlus(t: Texts, a: seq<Line>, b: seq<Line>)
    requires NoSite(t, a) && NoSite(t, b)
    ensures NoSite(t, a + b)
  {
  }

  lemma {:induction false} OneBefore(t: Texts, l: string, w: string)
    requires WellFormed(t) && DomainOk(t, w)
    requires l == "}\n" || l == "\t" + t.limitsBegin + "\n" || l == "\t" + t.limitsEnd + "\n"
    ensures BeforeSite(t, l, w)
  {
    SwallowingDomain(t, w);
    ClosingDomain(t, w);
    ClosingLine(t);
    MarkerLineText(t.limitsBegin);
    MarkerLineText(t.limitsEnd);
    MarkerLineIs(t, t.limitsBegin);
    MarkerLineIs(t, t.limitsEnd);
    ContainsPart("{\n", "\t" + t.limitsBegin + "\n", w);
    ContainsPart("\t" + t.limitsEnd + "\n", "}\n", w);
  }

  lemma {:induction false} ClosingBefore(t: Texts, w: string)
    requires WellFormed(t) && DomainOk(t, w) && !Contains(NESTED, w)
    ensures BeforeSite(t, (NESTED + ClosingLines(t)) + "}\n", w)
  {
    var first, last := "\t" + t.limitsBegin + "\n", "\t" + t.limitsEnd + "\n";
    OneBefore(t, first, w);
    OneBefore(t, "}\n", w);
    OneBefore(t, last, w);
    NestedLines(t);
    CleanAfterNewline("}\n", last);
    BeforeSitePlus(t, "}\n", last, w);
    CleanAfterNewline(first, "}\n" + last);
    BeforeSitePlus(t, first, "}\n" + last, w);
    ClosingEnds(t);
    CleanAfterNewline(NESTED, ClosingLines(t));
    BeforeSitePlus(t, NESTED, ClosingLines(t), w);
    CleanAfterNewline(NESTED + ClosingLines(t), "}\n");
    BeforeSitePlus(t, NESTED + ClosingLines(t), "}\n", w);
  }

  lemma {:induction false} ClosingEnds(t: Texts)
    ensures NESTED[|NESTED| - 1] == '\n' && ClosingLines(t) != ""
    ensures (NESTED + ClosingLines(t))[|NESTED + ClosingLines(t)| - 1] == '\n'
  {
    var first, last := "\t" + t.limitsBegin + "\n", "\t" + t.limitsEnd + "\n";
    EdgesOfThree(first, "}\n", last);
  }

  lemma {:induction false} RenderedBefore(t: Texts, w: string)
    requires WellFormed(t) && DomainOk(t, w) && !Contains(NESTED, w)
    ensures BeforeSite(t, (NESTED + t.limits) + "}\n", w)
  {
    NestedLines(t);
    ClosingLine(t);
    ClosingDomain(t, w);
    PutLimits(t, NESTED, "}\n");
    PutDomain(t, NESTED, "}\n", w);
  }

  /** A text in front of a plain site block: placing the same site changes nothing, so the limits decide. */
  lemma {:induction false} RenderBehind(t: Texts, p: string, w: string)
    requires WellFormed(t) && DomainOk(t, w) && PlainText(w) && BeforeSite(t, p, w)
    ensures var text := p + SiteBlock(t, w + "\n"); RenderManagedCaddyfile(t, text, w, w) == RenderLimits(t, text)
  {
    var text := p + SiteBlock(t, w + "\n");
    SwallowedBlockLines(t, w);
    NewlinesNotIn(w, "");
    PlaceAround(t, p, w + "\n", "", w, w);
    assert text + "" == text;
    PlainSite(t, w);
    RenderIs(t, text, w, w);
  }

  /**
   Old limits lines that close a block opened before them: the first rendering
   accepts the Caddyfile; without that brace the global block no longer closes, so
   rendering the result again fails.
   */
  lemma {:induction false} ClosingRegionFails(t: Texts, w: string)
    requires WellFormed(t) && DomainOk(t, w) && PlainText(w) && !Contains(NESTED, w)
    ensures var block := SiteBlock(t, w + "\n");
            var current := ((NESTED + ClosingLines(t)) + "}\n") + block;
            var out := ((NESTED + t.limits) + "}\n") + block;
            RenderManagedCaddyfile(t, current, w, w) == Ok(out) && RenderManagedCaddyfile(t, out, w, w).Err?
  {
    var block := SiteBlock(t, w + "\n");
    SiteRest(t, w);
    ClosingLimitsFail(t, "}\n" + block);
    ThreeParts(NESTED + ClosingLines(t), "}\n", block);
    ThreeParts(NESTED + t.limits, "}\n", block);
    ClosingBefore(t, w);
    RenderedBefore(t, w);
    RenderBehind(t, (NESTED + ClosingLines(t)) + "}\n", w);
    RenderBehind(t, (NESTED + t.limits) + "}\n", w);
  }

  lemma {:induction false} ThreeParts(a: string, b: string, c: string)
    ensures (a + b) + c == a + (b + c)
  {
  }
}
