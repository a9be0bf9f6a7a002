/** The whole rendering, twice. */
module CaddyRender {
  import opened Wrappers
  import opened PyLines
  import opened PyText
  import opened CaddyLines
  import opened CaddyLexer
  import opened CaddyMerge
  import opened CaddyLimits
  import opened CaddyInsert
  import opened CaddyIdempotence
  import opened CaddySite
  import opened CaddyTwice
  import opened CaddyTwiceReplace

  // ---------- lines and their contents ----------

  lemma {:induction false} ChompLast(s: string)
    ensures Chomp(s) == "" || !(Chomp(s)[|Chomp(s)| - 1] in "\r\n")
  {
    if s != [] && s[|s| - 1] in "\r\n" { ChompLast(s[..|s| - 1]); }
  }

  predicate Chomped(br: string) {
    br == "" || br == "\n" || br == "\r" || br == "\r\n"
  }

  lemma {:induction false} OpenLineLen(open: string, br: string)
    requires Unbroken(open) && Chomped(br) && open + br != ""
    ensures LineLen(open + br) == |open + br|
  {
    var s := open + br;
    if open == "" {
      assert s == br;
    } else {
      InTail(open);
      assert open[0] in open && s[1..] == open[1..] + br;
      if s[1..] != "" { OpenLineLen(open[1..], br); }
    }
  }

  lemma {:induction false} OpenLine(open: string, br: string)
    requires Unbroken(open) && Chomped(br) && open + br != ""
    ensures Lines(open + br) == [Line(open + br)] && Chomp(open + br) == open
  {
    OpenLineLen(open, br);
    SingleLine(open + br);
    ChompBreak(open, br);
  }

  lemma {:induction false} SingleLine(s: string)
    requires s != "" && LineLen(s) == |s|
    ensures Lines(s) == [Line(s)]
  {
    assert s[..|s|] == s && s[|s|..] == [];
  }

  lemma {:induction false} ChompOpen(open: string)
    requires Unbroken(open)
    ensures Chomp(open) == open
  {
    if open != "" { assert open[|open| - 1] in open; }
  }

  lemma {:induction false} ChompBreak(open: string, br: string)
    requires Unbroken(open) && Chomped(br)
    ensures Chomp(open + br) == open
    decreases |br|
  {
    ChompOpen(open);
    if br == "\r\n" {
      ChompBreak(open, "\r");
      assert (open + br)[..|open| + 1] == open + "\r";
    } else if br != "" {
      assert (open + br)[..|open|] == open;
    } else {
      assert open + br == open;
    }
  }

  predicate BreakOnly(br: string) {
    br == "" || br == "\r\n" || (|br| == 1 && IsLineBreak(br[0]))
  }

  lemma {:induction false} ContentOf(u: string, br: string)
    requires Unbroken(u) && BreakOnly(br)
    ensures Content(Line(u + br)) == u
  {
    var f := u + br;
    if u != "" { assert u[|u| - 1] in u; }
    if br == "" {
      assert f == u;
    } else {
      assert f[..|u|] == u && f[|u|..] == br;
    }
  }

  lemma {:induction false} ChompOther(u: string, br: string)
    requires BreakOnly(br) && !Chomped(br)
    ensures Chomp(u + br) == u + br && !Unbroken(u + br)
  {
    assert br == [br[0]];
    assert (u + br)[|u|] == br[0] && br[0] in u + br;
  }

  /** A line that chomps to an unbroken text has that text as its content. */
  lemma {:induction false} PiecesContent(u: string, br: string, m: string)
    requires Unbroken(u) && BreakOnly(br) && Unbroken(m) && Chomp(u + br) == m
    ensures Content(Line(u + br)) == m
  {
    ContentOf(u, br);
    if Chomped(br) {
      ChompBreak(u, br);
    } else {
      ChompOther(u, br);
    }
  }

  function BeforeBreak(s: string): (n: nat)
    ensures n <= |s|
  {
    if s == "" || IsLineBreak(s[0]) then 0 else 1 + BeforeBreak(s[1..])
  }

  lemma {:induction false} BeforeBreakUnbroken(s: string)
    ensures Unbroken(s[..BeforeBreak(s)])
  {
    if s != "" && !IsLineBreak(s[0]) {
      BeforeBreakUnbroken(s[1..]);
      assert s[..BeforeBreak(s)] == [s[0]] + s[1..][..BeforeBreak(s[1..])];
    }
  }

  lemma {:induction false} AfterBreak(s: string)
    requires s != ""
    ensures BeforeBreak(s) <= LineLen(s) && BreakOnly(s[BeforeBreak(s)..LineLen(s)])
  {
    if IsLineBreak(s[0]) {
      assert s[0..LineLen(s)] == s[..LineLen(s)];
    } else if |s| > 1 {
      AfterBreak(s[1..]);
      SliceOfTail(s, BeforeBreak(s[1..]), LineLen(s[1..]));
    }
  }

  lemma {:induction false} SliceOfTail(s: string, i: nat, j: nat)
    requires s != "" && i <= j <= |s| - 1
    ensures s[1..][i..j] == s[i + 1..j + 1]
  {
  }

  lemma {:induction false} FirstLineContent(s: string, m: string)
    requires s != "" && Unbroken(m) && Chomp(s[..LineLen(s)]) == m
    ensures Content(Line(s[..LineLen(s)])) == m
  {
    var k, n := BeforeBreak(s), LineLen(s);
    BeforeBreakUnbroken(s);
    AfterBreak(s);
    assert s[..n] == s[..k] + s[k..n];
    PiecesContent(s[..k], s[k..n], m);
  }

  lemma {:induction false} LinesContent(s: string, m: string)
    requires Unbroken(m)
    ensures forall l | l in Lines(s) && Chomp(l.text) == m :: Content(l) == m
    decreases |s|
  {
    if s != "" {
      var n := LineLen(s);
      if Chomp(s[..n]) == m { FirstLineContent(s, m); }
      LinesContent(s[n..], m);
    }
  }

  // ---------- a newline at the end makes no marker line ----------

  predicate EndsInReturn(s: string) {
    s != "" && s[|s| - 1] == '\r'
  }

  lemma {:induction false} LastLineLines(s: string)
    ensures var x, open := s[..LastStart(s)], s[LastStart(s)..];
            && Lines(s) == Lines(x) + Lines(open)
            && (EndsInReturn(s) || Lines(s + "\n") == Lines(x) + Lines(open + "\n"))
  {
    var x, open := s[..LastStart(s)], s[LastStart(s)..];
    LastLineUnbroken(s);
    assert s == x + open;
    OpenTail(x, open);
  }

  lemma {:induction false} OpenTail(x: string, open: string)
    requires AtLineStart(x) && Unbroken(open)
    ensures Lines(x + open) == Lines(x) + Lines(open)
    ensures EndsInReturn(x + open) || Lines((x + open) + "\n") == Lines(x) + Lines(open + "\n")
  {
    if open != "" {
      assert open[0] in open && open[0] != '\n';
    } else {
      assert x + open == x;
    }
    LinesPlus(x, open);
    assert (x + open) + "\n" == x + (open + "\n");
    if open != "" || !EndsInReturn(x) { LinesPlus(x, open + "\n"); }
  }

  lemma {:induction false} SiteMid(t: Texts, site: string, domain: string)
    requires WellFormed(t) && SiteError(t, site, domain) == None && Chomp(site) == site
    ensures NoSite(t, Lines(site + "\n"))
  {
    assert MarkerText(t.begin) && MarkerText(t.end);
    ContentKeepsOut(t, site, t.begin);
    ContentKeepsOut(t, site, t.end);
  }

  lemma {:induction false} ContentKeepsOut(t: Texts, site: string, m: string)
    requires MarkerText(m) && site != "" && Chomp(site) == site
    requires forall l | l in Lines(site) :: Content(l) != m
    ensures NoneOf(Lines(site + "\n"), SiteMarker(m))
  {
    var x, open := site[..LastStart(site)], site[LastStart(site)..];
    LastLineLines(site);
    LastLineUnbroken(site);
    ChompLast(site);
    OneLineText(open);
    ChompUnbroken(open);
    NoneOfLines(x, m, Lines(site));
    if open != "" { OpenKeepsOut(open, m, Lines(site)); }
    NoneOne(Line(open + "\n"), SiteMarker(m));
    NoneParts(Lines(x), [Line(open + "\n")], SiteMarker(m));
  }

  lemma {:induction false} NoneOfLines(x: string, m: string, all: seq<Line>)
    requires Unbroken(m) && (forall l | l in all :: Content(l) != m) && forall l | l in Lines(x) :: l in all
    ensures NoneOf(Lines(x), SiteMarker(m))
  {
    LinesContent(x, m);
  }

  lemma {:induction false} OpenKeepsOut(open: string, m: string, all: seq<Line>)
    requires Unbroken(open) && open != "" && (forall l | l in all :: Content(l) != m)
            && forall l | l in Lines(open) :: l in all
    ensures open != m
  {
    OpenLine(open, "");
    assert open + "" == open && Line(open) in Lines(open);
    ContentOf(open, "");
  }

  lemma {:induction false} EndedNone(x: string, m: string)
    requires MarkerText(m) && NoneOf(Lines(x), SiteMarker(m))
    ensures NoneOf(Lines(x + "\n"), SiteMarker(m))
  {
    if EndsInReturn(x) {
      assert x == x[..|x| - 1] + "\r" && x + "\n" == x[..|x| - 1] + "\r\n";
      ReturnNone(x[..|x| - 1], m);
    } else {
      var front, open := x[..LastStart(x)], x[LastStart(x)..];
      LastLineLines(x);
      LastLineUnbroken(x);
      NoneParts(Lines(front), Lines(open), SiteMarker(m));
      OpenEndedNone(open, m);
      NoneParts(Lines(front), Lines(open + "\n"), SiteMarker(m));
    }
  }

  lemma {:induction false} OpenEndedNone(open: string, m: string)
    requires MarkerText(m) && Unbroken(open) && NoneOf(Lines(open), SiteMarker(m))
    ensures NoneOf(Lines(open + "\n"), SiteMarker(m))
  {
    OneLineText(open);
    ChompUnbroken(open);
    if open != "" {
      OpenLine(open, "");
      assert open + "" == open;
      NoneOne(Line(open), SiteMarker(m));
    }
    NoneOne(Line(open + "\n"), SiteMarker(m));
  }

  lemma {:induction false} ReturnNone(x: string, m: string)
    requires MarkerText(m) && NoneOf(Lines(x + "\r"), SiteMarker(m))
    ensures NoneOf(Lines(x + "\r\n"), SiteMarker(m))
  {
    var front, open := x[..LastStart(x)], x[LastStart(x)..];
    LastLineUnbroken(x);
    assert x + "\r" == front + (open + "\r") && x + "\r\n" == front + (open + "\r\n");
    if open != "" { assert open[0] in open; }
    LinesPlus(front, open + "\r");
    LinesPlus(front, open + "\r\n");
    OpenLine(open, "\r");
    OpenLine(open, "\r\n");
    NoneOne(Line(open + "\r"), SiteMarker(m));
    NoneOne(Line(open + "\r\n"), SiteMarker(m));
    NoneParts(Lines(front), [Line(open + "\r")], SiteMarker(m));
    NoneParts(Lines(front), [Line(open + "\r\n")], SiteMarker(m));
  }

  lemma {:induction false} NewlineKeeps(t: Texts, x: string, w: string)
    requires WellFormed(t) && NoSite(t, Lines(x)) && w != "" && Unbroken(w) && !Contains(x, w)
    ensures NoSite(t, Lines(x + "\n")) && AtLineStart(x + "\n") && !Contains(x + "\n", w)
  {
    assert MarkerText(t.begin) && MarkerText(t.end);
    EndedNone(x, t.begin);
    EndedNone(x, t.end);
    NewlinesNotIn(w, "\n");
    NotAcross(x, "\n", w);
  }

  lemma {:induction false} EndLinesKeeps(t: Texts, x: string, w: string)
    requires WellFormed(t) && NoSite(t, Lines(x)) && w != "" && Unbroken(w) && !Contains(x, w)
    ensures var p := EndLines(x);
            NoSite(t, Lines(p)) && AtLineStart(p) && !Contains(p, w)
  {
    if x == "" {
      assert EndLines(x) == x;
    } else if x[|x| - 1] in "\n\r" {
      EndedKeeps(t, x, w);
    } else {
      NewlineKeeps(t, x, w);
      EndedKeeps(t, x + "\n", w);
    }
  }

  lemma {:induction false} EndedKeeps(t: Texts, x: string, w: string)
    requires WellFormed(t) && NoSite(t, Lines(x)) && w != "" && Unbroken(w) && !Contains(x, w)
    requires x != "" && x[|x| - 1] in "\n\r"
    ensures var p := if EndsWith(x, "\n\n") || EndsWith(x, "\r\n\r\n") then x else x + "\n";
            NoSite(t, Lines(p)) && AtLineStart(p) && !Contains(p, w)
  {
    NewlineKeeps(t, x, w);
  }

  // ---------- the text before the limits are rendered ----------

  lemma {:induction false} PlacedMarked(t: Texts, current: string, site: string, domain: string)
    returns (p: string, s: string)
    requires WellFormed(t) && PlaceSite(t, current, site, domain).Ok? && !NoSite(t, Lines(current))
    ensures PlaceSite(t, current, site, domain) == Ok((p + ManagedSite(t, site)) + s)
    ensures AtLineStart(p) && NoSite(t, Lines(p)) && NoSite(t, Lines(s)) && !Contains(p, domain) && !Contains(s, domain)
  {
    var lines := Lines(current);
    var f, g := SiteMarker(t.begin), SiteMarker(t.end);
    WhereNone(lines, f);
    WhereNone(lines, g);
    var b, e := Where(lines, f)[0], Where(lines, g)[0];
    SingleSplits(lines, f);
    SingleSplits(lines, g);
    SplitTwice(lines, b, e, f, g);
    p, s := Join(lines[..b]), Join(lines[e + 1..]);
    CutLines(current, b);
    CutLines(current, e + 1);
  }

  lemma {:induction false} CutLines(text: string, i: nat)
    requires i <= |Lines(text)|
    ensures Lines(Join(Lines(text)[..i])) == Lines(text)[..i] && Lines(Join(Lines(text)[i..])) == Lines(text)[i..]
    ensures i < |Lines(text)| ==> AtLineStart(Join(Lines(text)[..i]))
  {
    var a, b := Lines(text)[..i], Lines(text)[i..];
    assert Lines(text) == a + b;
    LinesSplit(text, a, b);
    assert Lines("") == [];
  }

  /** Placing the site in a text without site markers. */
  lemma {:induction false} PlacedUnmarked(t: Texts, current: string, site: string, domain: string) returns (p: string)
    requires WellFormed(t) && DomainOk(t, domain) && SiteError(t, site, domain) == None && Chomp(site) == site
    requires NoSite(t, Lines(current)) && PlaceSite(t, current, site, domain).Ok?
    ensures PlaceSite(t, current, site, domain) == Ok((p + SiteBlock(t, site + "\n")) + "")
    ensures Around(t, p, site + "\n", "", domain) && (p == "" || p == EndLines(current))
  {
    SiteMid(t, site, domain);
    NewlinesNotIn(domain, "");
    WhereNone(Lines(current), SiteMarker(t.begin));
    WhereNone(Lines(current), SiteMarker(t.end));
    p := "";
    if Chomp(current) == Chomp(site) {
      assert ("" + ManagedSite(t, site)) + "" == ManagedSite(t, site);
    } else {
      p := EndLines(current);
      EndLinesKeeps(t, current, domain);
    }
  }

  lemma {:induction false} PlacedShape(t: Texts, current: string, site: string, domain: string)
    returns (p: string, s: string)
    requires WellFormed(t) && DomainOk(t, domain) && SiteError(t, site, domain) == None && Chomp(site) == site
    requires PlaceSite(t, current, site, domain).Ok?
    ensures PlaceSite(t, current, site, domain) == Ok((p + SiteBlock(t, site + "\n")) + s)
    ensures Around(t, p, site + "\n", s, domain)
  {
    if !NoSite(t, Lines(current)) {
      SiteMid(t, site, domain);
      p, s := PlacedMarked(t, current, site, domain);
    } else {
      p := PlacedUnmarked(t, current, site, domain);
      s := "";
    }
  }

  // ---------- the theorem ----------

  /** The old limits lines, if any, hold no marker line of the site. */
  predicate SiteApart(t: Texts, placed: string) {
    match LimitsPlace(t, placed)
    case Ok(Some(l)) => NoSite(t, Lines(placed[l.begin..l.end]))
    case _ => true
  }

  /** The old limits lines stand inside the site block, which is written anew each time. */
  predicate LimitsInSite(t: Texts, placed: string) {
    match LimitsPlace(t, placed)
    case Ok(Some(l)) => !NoSite(t, Lines(placed[..l.begin])) && !NoSite(t, Lines(placed[l.end..]))
    case _ => false
  }

  /** Where the site block is after the limits have been rendered. */
  lemma {:induction false} Relocate(t: Texts, p: string, site: string, s: string, domain: string, out: string)
    returns (p': string, m': string, s': string)
    requires WellFormed(t) && DomainOk(t, domain) && Around(t, p, site + "\n", s, domain)
    requires var placed := (p + SiteBlock(t, site + "\n")) + s;
             RenderLimits(t, placed) == Ok(out) && SiteApart(t, placed)
    ensures var placed := (p + SiteBlock(t, site + "\n")) + s;
            && Relocated(t, placed, out, site, domain, p', m', s')
            && (LimitsInSite(t, placed) ==> p' == p && s' == s)
            && (!LimitsInSite(t, placed) && !LimitsSettled(t, placed) ==> m' == site + "\n")
  {
    var placed := (p + SiteBlock(t, site + "\n")) + s;
    PlaceNone(t, placed);
    if LimitsPlace(t, placed) == Ok(None) {
      p', m', s' := RelocateIfAdded(t, p, site, s, domain, out);
    } else {
      var r := RegionOf(t, placed, out);
      var part;
      part, p', m', s' := RelocateReplaced(t, p, site, s, domain, r);
    }
  }

  lemma {:induction false} RelocateIfAdded(t: Texts, p: string, site: string, s: string, domain: string, out: string)
    returns (p': string, m': string, s': string)
    requires WellFormed(t) && DomainOk(t, domain) && Around(t, p, site + "\n", s, domain)
    requires var placed := (p + SiteBlock(t, site + "\n")) + s;
             AddLimits(t, placed) == Ok(out)
    ensures var placed := (p + SiteBlock(t, site + "\n")) + s;
            Relocated(t, placed, out, site, domain, p', m', s')
  {
    var placed := (p + SiteBlock(t, site + "\n")) + s;
    if GlobalSpan(placed) == Ok(None) {
      p' := RelocateWrapped(t, p, site, s, domain);
      m', s' := site + "\n", s;
    } else {
      var Span(o, c) := GlobalSpan(placed).value.value;
      InsideOpens(placed, o, c);
      CodeHasCodeTail(placed[..c]);
      AddedText(placed[..c], Separator(placed[..c]), t.limits, placed[c..]);
      p', m', s' := RelocateAdded(t, p, site, s, domain, c);
    }
  }

  lemma {:induction false} AddedText(a: string, sep: string, block: string, b: string)
    ensures ((a + sep) + block) + b == (a + (sep + block)) + b
  {
  }

  /** The old limits lines as a region of the text. */
  lemma {:induction false} RegionOf(t: Texts, placed: string, out: string) returns (r: Region)
    requires WellFormed(t) && RenderLimits(t, placed) == Ok(out)
    requires LimitsPlace(t, placed).Ok? && LimitsPlace(t, placed).value.Some?
    ensures Marked(t, placed, r) && out == (r.A() + t.limits) + r.B()
    ensures SiteApart(t, placed) <==> NoSite(t, r.Old())
    ensures LimitsInSite(t, placed) <==> !NoSite(t, r.before) && !NoSite(t, r.after)
  {
    var l := LimitsPlace(t, placed).value.value;
    r := RenderedIsMarked(t, placed);
    MarkedText(t, placed, r);
    PlaceOfRegion(t, placed, r, l);
    RenderAt(t, placed, l);
    RegionSlice(t, placed, r, l);
  }

  lemma {:induction false} RegionSlice(t: Texts, placed: string, r: Region, l: Place)
    requires Marked(t, placed, r) && PlaceIn(l, placed) && placed == (r.A() + r.D()) + r.B()
    requires placed[..l.begin] == r.A() && placed[l.end..] == r.B()
    ensures placed[l.begin..l.end] == r.D()
  {
    assert |r.A()| == l.begin && |r.B()| == |placed| - l.end;
  }
}
