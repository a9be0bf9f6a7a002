/** Where the site is after old limits lines have been replaced. */
module CaddyTwiceReplace {
  import opened PyLines
  import opened PyText
  import opened CaddyLines
  import opened CaddyMerge
  import opened CaddyLimits
  import opened CaddyIdempotence
  import opened CaddySite
  import opened CaddyTwice

  /** A part of the text with its old limits lines replaced by the block. */
  lemma {:induction false} ReplaceInto(t: Texts, w: string, x: seq<Line>, gone: seq<Line>, y: seq<Line>)
    requires WellFormed(t) && Lines(w) == (x + gone) + y && NoSite(t, Lines(w)) && Join(gone) != ""
    ensures w == (Join(x) + Join(gone)) + Join(y)
    ensures var w' := (Join(x) + t.limits) + Join(y);
            && NoSite(t, Lines(w')) && AtLineStart(Join(x)) && (AtLineStart(w) ==> AtLineStart(w'))
            && w' != "" && (w[|w| - 1] == '\n' ==> w'[|w'| - 1] == '\n')
  {
    PartsOf(w, x, gone, y);
    OuterNoSite(t, x, gone, y);
    PutBetween(t, Join(x), Join(gone), Join(y));
  }

  lemma {:induction false} OuterNoSite(t: Texts, x: seq<Line>, gone: seq<Line>, y: seq<Line>)
    requires NoSite(t, (x + gone) + y)
    ensures NoSite(t, x) && NoSite(t, y)
  {
    NoMarkersPlus(t, x + gone, y);
    NoMarkersPlus(t, x, gone);
  }

  lemma {:induction false} PutBetween(t: Texts, x: string, gone: string, y: string)
    requires WellFormed(t) && gone != "" && Clean(x, gone) && Clean(x + gone, y)
    requires NoSite(t, Lines(x)) && NoSite(t, Lines(y))
    ensures var w, w' := (x + gone) + y, (x + t.limits) + y;
            && NoSite(t, Lines(w')) && AtLineStart(x) && (AtLineStart(w) ==> AtLineStart(w'))
            && w' != "" && (w[|w| - 1] == '\n' ==> w'[|w'| - 1] == '\n')
  {
    CleanStart(x, gone);
    PutLimits(t, x, y);
    ReplacedEnd(t, x, gone, y);
  }

  lemma {:induction false} PartsOf(w: string, x: seq<Line>, gone: seq<Line>, y: seq<Line>)
    requires Lines(w) == (x + gone) + y
    ensures w == (Join(x) + Join(gone)) + Join(y) && Clean(Join(x), Join(gone)) && Clean(Join(x) + Join(gone), Join(y))
    ensures Lines(Join(x)) == x && Lines(Join(y)) == y
  {
    LinesSplit(w, x + gone, y);
    LinesSplit(Join(x + gone), x, gone);
  }

  lemma {:induction false} CleanStart(a: string, b: string)
    requires Clean(a, b) && b != ""
    ensures AtLineStart(a)
  {
  }

  lemma {:induction false} ReplacedEnd(t: Texts, x: string, gone: string, y: string)
    requires WellFormed(t) && gone != "" && Clean(x + gone, y)
    ensures var w, w' := (x + gone) + y, (x + t.limits) + y;
            && w' != "" && (w[|w| - 1] == '\n' ==> w'[|w'| - 1] == '\n') && (AtLineStart(w) ==> AtLineStart(w'))
  {
    BlockEdges(t);
    LastChar(x + t.limits, y);
    LastChar(x + gone, y);
    LastChar(x, t.limits);
  }

  lemma {:induction false} LastChar(a: string, b: string)
    requires a != "" || b != ""
    ensures (a + b)[|a + b| - 1] == if b != "" then b[|b| - 1] else a[|a| - 1]
  {
  }

  lemma {:induction false} ReplaceDomain(t: Texts, x: string, d: string, y: string, w: string)
    requires WellFormed(t) && DomainOk(t, w) && AtLineStart(x) && !Contains((x + d) + y, w)
    ensures !Contains((x + t.limits) + y, w)
  {
    ContainsPart(x + d, y, w);
    ContainsPart(x, d, w);
    PutDomain(t, x, y, w);
  }

  /** The old lines stand in one of the three parts, between `x` and `y`. */
  ghost predicate Nested(a: seq<Line>, gone: seq<Line>, b: seq<Line>, u: seq<Line>, w: seq<Line>, v: seq<Line>,
                         x: seq<Line>, y: seq<Line>) {
    a == u + x && w == (x + gone) + y && b == y + v
  }

  lemma {:induction false} NestedParts(a: seq<Line>, gone: seq<Line>, b: seq<Line>, u: seq<Line>, w: seq<Line>,
      v: seq<Line>)
    returns (x: seq<Line>, y: seq<Line>)
    requires (a + gone) + b == (u + w) + v && |u| <= |a| && |a| + |gone| <= |u| + |w|
    ensures Nested(a, gone, b, u, w, v, x, y)
  {
    var all := (a + gone) + b;
    x, y := all[|u|..|a|], all[|a| + |gone|..|u| + |w|];
    assert a == all[..|a|] && u == all[..|u|] && w == all[|u|..|u| + |w|] && gone == all[|a|..|a| + |gone|];
    assert b == all[|a| + |gone|..] && v == all[|u| + |w|..];
  }

  datatype Part = Prefix | Middle | Suffix

  function Outer(part: Part, p: seq<Line>, bg: Line, m: seq<Line>, en: Line, s: seq<Line>)
      : (seq<Line>, seq<Line>, seq<Line>) {
    match part
    case Prefix => ([], p, ([bg] + m + [en]) + s)
    case Middle => (p + [bg], m, [en] + s)
    case Suffix => (p + ([bg] + m + [en]), s, [])
  }

  lemma {:induction false} FindPart(r: Region, p: seq<Line>, bg: Line, m: seq<Line>, en: Line, s: seq<Line>)
    returns (part: Part, x: seq<Line>, y: seq<Line>)
    requires r.All() == p + [bg] + m + [en] + s && bg !in r.Old() && en !in r.Old()
    ensures var (u, w, v) := Outer(part, p, bg, m, en, s);
            Nested(r.before, r.Old(), r.after, u, w, v, x, y)
  {
    var all, b, e := r.All(), |r.before|, |r.before| + |r.Old()|;
    Regroup(r);
    SitePlaces(r, p, bg, m, en, s);
    part := if e <= |p| then Prefix else if e <= |p| + 1 + |m| then Middle else Suffix;
    var (u, w, v) := Outer(part, p, bg, m, en, s);
    assert (u + w) + v == all;
    x, y := NestedParts(r.before, r.Old(), r.after, u, w, v);
  }

  /** Neither site marker line is among the old lines. */
  lemma {:induction false} SitePlaces(r: Region, p: seq<Line>, bg: Line, m: seq<Line>, en: Line, s: seq<Line>)
    requires r.All() == p + [bg] + m + [en] + s && bg !in r.Old() && en !in r.Old()
    ensures var b, e := |r.before|, |r.before| + |r.Old()|;
            (|p| < b || e <= |p|) && (|p| + 1 + |m| < b || e <= |p| + 1 + |m|)
  {
    Regroup(r);
    var all := r.All();
    assert all[|p|] == bg && all[|p| + 1 + |m|] == en;
    assert forall k | |r.before| <= k < |r.before| + |r.Old()| :: all[k] == r.Old()[k - |r.before|];
  }

  lemma {:induction false} JoinBlock(t: Texts, m: string)
    requires WellFormed(t) && m != "" && m[|m| - 1] == '\n'
    ensures Join([SiteLine(t.begin)] + Lines(m) + [SiteLine(t.end)]) == SiteBlock(t, m)
  {
    SiteBlockLines(t, m);
    JoinLines(SiteBlock(t, m));
  }

  lemma {:induction false} JoinOne(l: Line)
    ensures Join([l]) == l.text
  {
    assert [l][1..] == [];
  }

  lemma {:induction false} JoinThree(a: seq<Line>, b: seq<Line>, c: seq<Line>)
    ensures Join((a + b) + c) == (Join(a) + Join(b)) + Join(c)
    ensures Join(a + (b + c)) == Join(a) + (Join(b) + Join(c))
  {
    JoinPlus(a + b, c);
    JoinPlus(a, b);
    JoinPlus(a, b + c);
    JoinPlus(b, c);
  }

  /** The text around the old lines, for each of the three parts they can be in. */
  lemma {:induction false} OuterTexts(t: Texts, part: Part, p: string, m: string, s: string, x: seq<Line>, y: seq<Line>)
    requires WellFormed(t) && m != "" && m[|m| - 1] == '\n'
    ensures var (u, w, v) := Outer(part, Lines(p), SiteLine(t.begin), Lines(m), SiteLine(t.end), Lines(s));
            match part
            case Prefix => Join(u + x) == Join(x) && Join(y + v) == Join(y) + (SiteBlock(t, m) + s)
            case Middle => Join(u + x) == (p + (t.begin + "\n")) + Join(x)
                && Join(y + v) == Join(y) + ((t.end + "\n") + s)
            case Suffix => Join(u + x) == (p + SiteBlock(t, m)) + Join(x) && Join(y + v) == Join(y)
  {
    var block := [SiteLine(t.begin)] + Lines(m) + [SiteLine(t.end)];
    JoinLines(p);
    JoinLines(s);
    match part {
      case Prefix =>
        JoinBlock(t, m);
        JoinThree(y, block, Lines(s));
        assert [] + x == x;
      case Middle =>
        JoinOne(SiteLine(t.begin));
        JoinOne(SiteLine(t.end));
        JoinThree(Lines(p), [SiteLine(t.begin)], x);
        JoinThree(y, [SiteLine(t.end)], Lines(s));
      case Suffix =>
        JoinBlock(t, m);
        JoinThree(Lines(p), block, x);
        assert y + [] == y;
    }
  }

  lemma {:induction false} SiteLinesKept(t: Texts, lines: seq<Line>)
    requires WellFormed(t) && NoSite(t, lines)
    ensures SiteLine(t.begin) !in lines && SiteLine(t.end) !in lines
  {
    SiteLineIs(t, t.begin);
    SiteLineIs(t, t.end);
  }

  lemma {:induction false} RelocateInPrefix(t: Texts, p: string, site: string, s: string, domain: string,
                                            x: seq<Line>, gone: seq<Line>, y: seq<Line>)
    requires WellFormed(t) && DomainOk(t, domain) && Around(t, p, site + "\n", s, domain) && Join(gone) != ""
    requires Lines(p) == (x + gone) + y
    ensures var block, p' := SiteBlock(t, site + "\n"), (Join(x) + t.limits) + Join(y);
            Relocated(t, (p + block) + s, (Join(x) + t.limits) + (Join(y) + (block + s)), site, domain, p',
                site + "\n", s)
  {
    ReplaceInto(t, p, x, gone, y);
    ReplaceDomain(t, Join(x), Join(gone), Join(y), domain);
    Regroup4(Join(x) + t.limits, Join(y), SiteBlock(t, site + "\n"), s);
  }

  lemma {:induction false} Regroup4(a: string, b: string, c: string, d: string)
    ensures a + (b + (c + d)) == ((a + b) + c) + d
  {
  }

  lemma {:induction false} RelocateInMiddle(t: Texts, p: string, site: string, s: string, domain: string,
                                            x: seq<Line>, gone: seq<Line>, y: seq<Line>)
    requires WellFormed(t) && Around(t, p, site + "\n", s, domain) && Join(gone) != ""
    requires Lines(site + "\n") == (x + gone) + y
    ensures var block, m' := SiteBlock(t, site + "\n"), (Join(x) + t.limits) + Join(y);
            var out := (((p + (t.begin + "\n")) + Join(x)) + t.limits) + (Join(y) + ((t.end + "\n") + s));
            Relocated(t, (p + block) + s, out, site, domain, p, m', s)
  {
    ReplaceInto(t, site + "\n", x, gone, y);
    MiddleText(t, p, Join(x), Join(y), s);
  }

  lemma {:induction false} RelocateInSuffix(t: Texts, p: string, site: string, s: string, domain: string,
                                            x: seq<Line>, gone: seq<Line>, y: seq<Line>)
    requires WellFormed(t) && DomainOk(t, domain) && Around(t, p, site + "\n", s, domain) && Join(gone) != ""
    requires Lines(s) == (x + gone) + y
    ensures var block, s' := SiteBlock(t, site + "\n"), (Join(x) + t.limits) + Join(y);
            Relocated(t, (p + block) + s, (((p + block) + Join(x)) + t.limits) + Join(y), site, domain, p,
                site + "\n", s')
  {
    ReplaceInto(t, s, x, gone, y);
    ReplaceDomain(t, Join(x), Join(gone), Join(y), domain);
    RegroupLeft(p + SiteBlock(t, site + "\n"), Join(x), t.limits, Join(y));
  }

  lemma {:induction false} RegroupLeft(a: string, b: string, c: string, d: string)
    ensures ((a + b) + c) + d == a + ((b + c) + d)
  {
  }

  lemma {:induction false} RelocateIn(t: Texts, part: Part, p: string, site: string, s: string, domain: string,
                                      x: seq<Line>, gone: seq<Line>, y: seq<Line>)
    returns (p': string, m': string, s': string)
    requires WellFormed(t) && DomainOk(t, domain) && Around(t, p, site + "\n", s, domain) && Join(gone) != ""
    requires var (u, w, v) := Outer(part, Lines(p), SiteLine(t.begin), Lines(site + "\n"), SiteLine(t.end), Lines(s));
             w == (x + gone) + y
    ensures var (u, w, v) := Outer(part, Lines(p), SiteLine(t.begin), Lines(site + "\n"), SiteLine(t.end), Lines(s));
            Relocated(t, (p + SiteBlock(t, site + "\n")) + s, (Join(u + x) + t.limits) + Join(y + v), site, domain,
                p', m', s')
    ensures part.Middle? ==> p' == p && s' == s
    ensures !part.Middle? ==> m' == site + "\n"
  {
    OuterTexts(t, part, p, site + "\n", s, x, y);
    p', m', s' := p, site + "\n", s;
    var w' := (Join(x) + t.limits) + Join(y);
    if part.Prefix? {
      RelocateInPrefix(t, p, site, s, domain, x, gone, y);
      p' := w';
    } else if part.Middle? {
      RelocateInMiddle(t, p, site, s, domain, x, gone, y);
      m' := w';
    } else {
      RelocateInSuffix(t, p, site, s, domain, x, gone, y);
      s' := w';
    }
  }

  lemma {:induction false} MiddleText(t: Texts, p: string, x: string, y: string, s: string)
    ensures (((p + (t.begin + "\n")) + x) + t.limits) + (y + ((t.end + "\n") + s)) ==
            (p + SiteBlock(t, (x + t.limits) + y)) + s
  {
  }

  lemma {:induction false} RelocateReplaced(t: Texts, p: string, site: string, s: string, domain: string, r: Region)
    returns (part: Part, p': string, m': string, s': string)
    requires WellFormed(t) && DomainOk(t, domain) && Around(t, p, site + "\n", s, domain)
    requires Marked(t, (p + SiteBlock(t, site + "\n")) + s, r) && NoSite(t, r.Old())
    ensures Relocated(t, (p + SiteBlock(t, site + "\n")) + s, (r.A() + t.limits) + r.B(), site, domain, p', m', s')
    ensures part.Middle? ==> p' == p && s' == s
    ensures !part.Middle? ==> m' == site + "\n"
    ensures part.Middle? <==> !NoSite(t, r.before) && !NoSite(t, r.after)
  {
    var m := site + "\n";
    AroundLines(t, p, m, s);
    SiteLinesKept(t, r.Old());
    var x, y;
    part, x, y := FindPart(r, Lines(p), SiteLine(t.begin), Lines(m), SiteLine(t.end), Lines(s));
    OldNotEmpty(t, r);
    PartSides(t, part, Lines(p), Lines(m), Lines(s), x, y, r.Old());
    p', m', s' := RelocateIn(t, part, p, site, s, domain, x, r.Old(), y);
  }

  /** Only between the site markers are there site markers on both sides. */
  lemma {:induction false} PartSides(t: Texts, part: Part, p: seq<Line>, m: seq<Line>, s: seq<Line>,
                                     x: seq<Line>, y: seq<Line>, gone: seq<Line>)
    requires WellFormed(t) && NoSite(t, p) && NoSite(t, s)
    requires var (u, w, v) := Outer(part, p, SiteLine(t.begin), m, SiteLine(t.end), s);
             w == (x + gone) + y
    ensures var (u, w, v) := Outer(part, p, SiteLine(t.begin), m, SiteLine(t.end), s);
            part.Middle? <==> !NoSite(t, u + x) && !NoSite(t, y + v)
  {
    SiteLineIs(t, t.begin);
    SiteLineIs(t, t.end);
    NoMarkersPlus(t, x + gone, y);
    NoMarkersPlus(t, x, gone);
    match part {
      case Prefix => assert [] + x == x;
      case Middle =>
        assert SiteLine(t.begin) in (p + [SiteLine(t.begin)]) + x;
        assert SiteLine(t.end) in y + ([SiteLine(t.end)] + s);
      case Suffix => assert y + [] == y;
    }
  }

  lemma {:induction false} OldNotEmpty(t: Texts, r: Region)
    requires WellFormed(t) && LimitsMarker(t.limitsBegin)(r.first)
    ensures r.D() != ""
  {
    assert MarkerText(t.limitsBegin);
    assert r.Old()[0] == r.first;
    assert Trim(Chomp("")) == "";
  }
}
