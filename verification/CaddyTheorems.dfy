/** Idempotence and uniqueness of the rendered blocks, for every Caddyfile. */
module CaddyTheorems {
  import opened Wrappers
  import opened PyLines
  import opened CaddyLines
  import opened CaddyMerge
  import opened CaddyLimits
  import opened CaddyInsert
  import opened CaddyIdempotence
  import opened CaddySite
  import opened CaddyTwice
  import opened CaddyTwiceReplace
  import opened CaddyRender

  function Site(siteText: string): string {
    Chomp(StripLeft(siteText))
  }

  lemma {:induction false} SiteIsChomped(siteText: string)
    ensures Chomp(Site(siteText)) == Site(siteText)
  {
    ChompLast(StripLeft(siteText));
  }

  lemma {:induction false} RenderIs(t: Texts, current: string, siteText: string, domain: string)
    ensures var placed := PlaceSite(t, current, Site(siteText), domain);
            RenderManagedCaddyfile(t, current, siteText, domain) ==
            match SiteError(t, Site(siteText), domain)
            case Some(e) => Err(e)
            case None => if placed.Ok? then RenderLimits(t, placed.value) else Err(placed.error)
  {
  }

  /** One begin and one end marker line of the site, in this order. */
  predicate OneSite(t: Texts, text: string) {
    var begins, ends := Where(Lines(text), SiteMarker(t.begin)), Where(Lines(text), SiteMarker(t.end));
    |begins| == 1 && |ends| == 1 && begins[0] < ends[0]
  }

  /**
   Every rendered text has exactly one limits block. It has exactly one site block
   if and only if the old limits lines held no site marker, and the limits block
   is inside the global braces if and only if these did not need the old lines.
   */
  lemma {:induction false} OneBlockEach(t: Texts, current: string, siteText: string, domain: string)
    returns (a: string, b: string)
    requires WellFormed(t) && DomainOk(t, domain) && RenderManagedCaddyfile(t, current, siteText, domain).Ok?
    ensures var out := RenderManagedCaddyfile(t, current, siteText, domain).value;
            var placed := PlaceSite(t, current, Site(siteText), domain).value;
            && HoldsLimits(t, out, a, b)
            && (OneSite(t, out) <==> SiteApart(t, placed))
            && (BlockInside(t, a, b) <==> LimitsEnclosed(t, placed))
  {
    RenderIs(t, current, siteText, domain);
    var placed := PlaceSite(t, current, Site(siteText), domain).value;
    OneSiteIff(t, current, siteText, domain);
    a, b := RenderedParts(t, placed);
    BlockInsideIff(t, a, b);
  }

  lemma {:induction false} OneSiteIff(t: Texts, current: string, siteText: string, domain: string)
    requires WellFormed(t) && DomainOk(t, domain) && RenderManagedCaddyfile(t, current, siteText, domain).Ok?
    ensures OneSite(t, RenderManagedCaddyfile(t, current, siteText, domain).value) <==>
            SiteApart(t, PlaceSite(t, current, Site(siteText), domain).value)
  {
    RenderIs(t, current, siteText, domain);
    var placed := PlaceSite(t, current, Site(siteText), domain).value;
    if SiteApart(t, placed) {
      var p, m, s := SiteStays(t, current, siteText, domain);
      AroundLines(t, p, m, s);
      SiteWhere(t, Lines((p + SiteBlock(t, m)) + s), Lines(p), Lines(m), Lines(s));
    } else {
      SiteIsChomped(siteText);
      var p, s := PlacedShape(t, current, Site(siteText), domain);
      var r := RegionOf(t, placed, RenderLimits(t, placed).value);
      SwallowedLoses(t, p, Site(siteText) + "\n", s, r);
    }
  }

  /** Apart from the old limits lines, the site block is there, with neither marker nor domain around it. */
  lemma {:induction false} SiteStays(t: Texts, current: string, siteText: string, domain: string)
    returns (p: string, m: string, s: string)
    requires WellFormed(t) && DomainOk(t, domain) && RenderManagedCaddyfile(t, current, siteText, domain).Ok?
    requires SiteApart(t, PlaceSite(t, current, Site(siteText), domain).value)
    ensures RenderManagedCaddyfile(t, current, siteText, domain) == Ok((p + SiteBlock(t, m)) + s)
    ensures Around(t, p, m, s, domain)
  {
    var site := Site(siteText);
    RenderIs(t, current, siteText, domain);
    SiteIsChomped(siteText);
    var placed := PlaceSite(t, current, site, domain).value;
    var p0, s0 := PlacedShape(t, current, site, domain);
    p, m, s := Relocate(t, p0, site, s0, domain, RenderLimits(t, placed).value);
  }

  /** The first rendering decides whether a second one changes nothing. */
  predicate Steady(t: Texts, placed: string) {
    SiteApart(t, placed) && (LimitsSettled(t, placed) || LimitsInSite(t, placed))
  }

  /** With the site apart: the same text again exactly when it is steady, and otherwise an error. */
  lemma {:induction false} RenderTwiceApart(t: Texts, current: string, siteText: string, domain: string)
    requires WellFormed(t) && DomainOk(t, domain) && RenderManagedCaddyfile(t, current, siteText, domain).Ok?
    requires SiteApart(t, PlaceSite(t, current, Site(siteText), domain).value)
    ensures var out := RenderManagedCaddyfile(t, current, siteText, domain).value;
            var again := RenderManagedCaddyfile(t, out, siteText, domain);
            if Steady(t, PlaceSite(t, current, Site(siteText), domain).value) then again == Ok(out) else again.Err?
  {
    var site := Site(siteText);
    RenderIs(t, current, siteText, domain);
    SiteIsChomped(siteText);
    var placed := PlaceSite(t, current, site, domain).value;
    var out := RenderLimits(t, placed).value;
    var p0, s0 := PlacedShape(t, current, site, domain);
    var p, m, s := Relocate(t, p0, site, s0, domain, out);
    PlacedAgain(t, placed, out, site, domain, p, m, s);
    LimitsTwice(t, placed);
    RenderIs(t, out, siteText, domain);
  }

  // ---------- a site block between the limits markers is lost ----------

  lemma {:induction false} RelocatedHasMarker(t: Texts, placed: string, out: string, site: string, domain: string,
                                              p: string, m: string, s: string)
    requires WellFormed(t) && Relocated(t, placed, out, site, domain, p, m, s)
    ensures !NoSite(t, Lines(out))
  {
    AroundLines(t, p, m, s);
    SiteLineIs(t, t.begin);
    assert SiteLine(t.begin) in Lines(out);
  }

  /** With nothing after the site, and the limits lines before it or nowhere before it, they are apart. */
  lemma {:induction false} ApartIf(t: Texts, p: string, site: string, domain: string, out: string)
    requires WellFormed(t) && Around(t, p, site + "\n", "", domain)
    requires p == "" || !NoneOf(Lines(p), LimitsMarker(t.limitsEnd))
    requires RenderLimits(t, (p + SiteBlock(t, site + "\n")) + "") == Ok(out)
    ensures SiteApart(t, (p + SiteBlock(t, site + "\n")) + "")
  {
    var m := site + "\n";
    var placed := (p + SiteBlock(t, m)) + "";
    if LimitsPlace(t, placed).Ok? && LimitsPlace(t, placed).value.Some? {
      var r := RegionOf(t, placed, out);
      AroundLines(t, p, m, "");
      OldApart(t, r, Lines(p), Lines(m));
    }
  }

  ghost predicate RegionOk(t: Texts, r: Region) {
    && LimitsMarker(t.limitsBegin)(r.first) && LimitsMarker(t.limitsEnd)(r.last)
    && NoLimits(t, r.before) && NoLimits(t, r.middle) && NoLimits(t, r.after)
  }

  lemma {:induction false} OldApart(t: Texts, r: Region, p: seq<Line>, m: seq<Line>)
    requires WellFormed(t) && NoSite(t, p) && NoSite(t, m) && RegionOk(t, r)
    requires r.All() == p + [SiteLine(t.begin)] + m + [SiteLine(t.end)] + []
    requires p == [] || !NoneOf(p, LimitsMarker(t.limitsEnd))
    ensures NoSite(t, r.Old())
  {
    if p != [] {
      OldInPrefix(t, r, p, [SiteLine(t.begin)] + m + [SiteLine(t.end)]);
      Within(t, r.Old(), p);
    } else {
      SiteLineIs(t, t.begin);
      SiteLineIs(t, t.end);
      NoneOne(SiteLine(t.begin), LimitsMarker(t.limitsBegin));
      NoneOne(SiteLine(t.end), LimitsMarker(t.limitsEnd));
      OldInMiddle(r, SiteLine(t.begin), m, SiteLine(t.end));
      Within(t, r.Old(), m);
    }
  }

  lemma {:induction false} Within(t: Texts, part: seq<Line>, all: seq<Line>)
    requires NoSite(t, all) && forall l | l in part :: l in all
    ensures NoSite(t, part)
  {
  }

  lemma {:induction false} OldInPrefix(t: Texts, r: Region, p: seq<Line>, rest: seq<Line>)
    requires t.limitsBegin != t.limitsEnd && RegionOk(t, r) && r.All() == p + rest
    requires !NoneOf(p, LimitsMarker(t.limitsEnd))
    ensures forall l | l in r.Old() :: l in p
  {
    var l :| l in p && LimitsMarker(t.limitsEnd)(l);
    var k: nat :| k < |p| && p[k] == l;
    assert r.All()[k] == l;
    EndIndex(t, r, k);
    Regroup(r);
    var head := r.before + r.Old();
    assert head == (head + r.after)[..|head|] == (p + rest)[..|head|] == p[..|head|];
    assert forall x | x in r.Old() :: x in r.before + r.Old();
  }

  lemma {:induction false} OldInMiddle(r: Region, bg: Line, m: seq<Line>, en: Line)
    requires r.All() == [] + [bg] + m + [en] + [] && r.first != bg && r.last != en
    ensures forall l | l in r.Old() :: l in m
  {
    var all := r.All();
    Regroup(r);
    RegionIndex(r);
    assert all[0] == bg && all[|m| + 1] == en && |all| == |m| + 2;
    assert r.before != [] && r.after != [];
    forall l | l in r.Old() ensures l in m {
      var k :| 0 <= k < |r.Old()| && r.Old()[k] == l;
      assert all[|r.before| + k] == l == m[|r.before| + k - 1];
    }
  }

  /** The end marker line is the only one of its kind. */
  lemma {:induction false} EndIndex(t: Texts, r: Region, k: nat)
    requires t.limitsBegin != t.limitsEnd && RegionOk(t, r) && k < |r.All()| && LimitsMarker(t.limitsEnd)(r.All()[k])
    ensures k == |r.before| + |r.Old()| - 1
  {
    var q := LimitsMarker(t.limitsEnd);
    Regroup(r);
    NoneAround(r.before, r.first, r.middle, q);
    WhereOnce(r.before + [r.first] + r.middle, r.last, r.after, q);
    WhereIs(r.All(), q, k);
  }

  // ---------- the complete answer ----------

  /** Site markers among the old limits lines go with them, so the rendered text has lost one or both. */
  lemma {:induction false} SwallowedLoses(t: Texts, p: string, m: string, s: string, r: Region)
    requires WellFormed(t) && AtLineStart(p) && m != "" && m[|m| - 1] == '\n'
    requires NoSite(t, Lines(p)) && NoSite(t, Lines(m)) && NoSite(t, Lines(s))
    requires Marked(t, (p + SiteBlock(t, m)) + s, r) && !NoSite(t, r.Old())
    ensures var lines := Lines((r.A() + t.limits) + r.B());
            Where(lines, SiteMarker(t.begin)) == [] || Where(lines, SiteMarker(t.end)) == []
  {
    var lines := Lines((r.A() + t.limits) + r.B());
    SwallowedLines(t, (p + SiteBlock(t, m)) + s, r);
    AroundLines(t, p, m, s);
    SiteWhere(t, r.All(), Lines(p), Lines(m), Lines(s));
    LimitsNoSite(t);
    if !NoneOf(r.Old(), SiteMarker(t.begin)) {
      OnceGone(r, SiteMarker(t.begin), Lines(t.limits));
      WhereNone(lines, SiteMarker(t.begin));
    } else {
      OnceGone(r, SiteMarker(t.end), Lines(t.limits));
      WhereNone(lines, SiteMarker(t.end));
    }
  }

  lemma {:induction false} SwallowedLines(t: Texts, placed: string, r: Region)
    requires WellFormed(t) && Marked(t, placed, r)
    ensures Lines((r.A() + t.limits) + r.B()) == (r.before + Lines(t.limits)) + r.after
  {
    MarkedText(t, placed, r);
    BlockEdges(t);
    FirstNotEmpty(t, r);
    CleanStart(r.A(), r.D());
    LinesAmong(r.A(), t.limits, r.B());
  }

  lemma {:induction false} FirstNotEmpty(t: Texts, r: Region)
    requires WellFormed(t) && LimitsMarker(t.limitsBegin)(r.first)
    ensures r.D() != ""
  {
    OldNotEmpty(t, r);
  }

  lemma {:induction false} IndexIf(lines: seq<Line>, p: Line -> bool, i: nat)
    requires i < |lines| && |Where(lines, p)| == 1
    ensures p(lines[i]) ==> Where(lines, p)[0] == i
  {
    WhereIs(lines, p, i);
  }

  lemma {:induction false} RegionAt(r: Region)
    ensures forall i | 0 <= i < |r.before| :: r.All()[i] == r.before[i]
    ensures forall i | 0 <= i < |r.Old()| :: r.All()[|r.before| + i] == r.Old()[i]
    ensures forall i | 0 <= i < |r.after| :: r.All()[|r.before| + |r.Old()| + i] == r.after[i]
    ensures |r.All()| == |r.before| + |r.Old()| + |r.after|
  {
    Regroup(r);
    assert r.All() == (r.before + r.Old()) + r.after;
  }

  /** A line that occurs once, and among the old lines, is nowhere else. */
  lemma {:induction false} OnceGone(r: Region, p: Line -> bool, block: seq<Line>)
    requires |Where(r.All(), p)| == 1 && !NoneOf(r.Old(), p) && NoneOf(block, p)
    ensures NoneOf((r.before + block) + r.after, p)
  {
    RegionAt(r);
    var l :| l in r.Old() && p(l);
    var k: nat :| k < |r.Old()| && r.Old()[k] == l;
    OnlyIndex(r.All(), p, |r.before| + k);
    OnceBefore(r, p);
    OnceAfter(r, p);
    NoneParts(r.before, block, p);
    NoneParts(r.before + block, r.after, p);
  }

  lemma {:induction false} OnceBefore(r: Region, p: Line -> bool)
    requires |Where(r.All(), p)| == 1 && |r.before| <= Where(r.All(), p)[0]
    ensures NoneOf(r.before, p)
  {
    RegionAt(r);
    forall x | x in r.before ensures !p(x) {
      var i: nat :| i < |r.before| && r.before[i] == x;
      IndexIf(r.All(), p, i);
    }
  }

  lemma {:induction false} OnceAfter(r: Region, p: Line -> bool)
    requires |Where(r.All(), p)| == 1 && Where(r.All(), p)[0] < |r.before| + |r.Old()|
    ensures NoneOf(r.after, p)
  {
    RegionAt(r);
    forall x | x in r.after ensures !p(x) {
      var i: nat :| i < |r.after| && r.after[i] == x;
      IndexIf(r.All(), p, |r.before| + |r.Old()| + i);
    }
  }

  lemma {:induction false} EndLinesExtends(x: string) returns (more: string)
    ensures EndLines(x) == x + more
  {
    more := EndLines(x)[|x|..];
  }

  lemma {:induction false} LimitsEndStays(t: Texts, a: string, b: string)
    requires WellFormed(t) && AtLineStart(a)
    ensures !NoneOf(Lines((a + t.limits) + b), LimitsMarker(t.limitsEnd))
  {
    BlockEdges(t);
    LinesAmong(a, t.limits, b);
    LimitsLines(t);
    MarkerLineIs(t, t.limitsEnd);
    assert MarkerLine(t.limitsEnd) in Lines(t.limits);
    assert MarkerLine(t.limitsEnd) in Lines((a + t.limits) + b);
  }

  lemma {:induction false} LimitsEndEnded(t: Texts, a: string, b: string)
    requires WellFormed(t) && AtLineStart(a)
    ensures !NoneOf(Lines(EndLines((a + t.limits) + b)), LimitsMarker(t.limitsEnd))
  {
    var more := EndLinesExtends((a + t.limits) + b);
    assert ((a + t.limits) + b) + more == (a + t.limits) + (b + more);
    LimitsEndStays(t, a, b + more);
  }

  /** A text that has lost its site is not what a rendering of it gives. */
  lemma {:induction false} LostIsNotAgain(t: Texts, out: string, a: string, b: string, site: string, domain: string)
    requires WellFormed(t) && DomainOk(t, domain) && SiteError(t, site, domain) == None && Chomp(site) == site
    requires out == (a + t.limits) + b && AtLineStart(a) && NoSite(t, Lines(out))
    requires PlaceSite(t, out, site, domain).Ok?
    ensures RenderLimits(t, PlaceSite(t, out, site, domain).value) != Ok(out)
  {
    var p := PlacedUnmarked(t, out, site, domain);
    var placed := (p + SiteBlock(t, site + "\n")) + "";
    if RenderLimits(t, placed) == Ok(out) {
      if p != "" { LimitsEndEnded(t, a, b); }
      ApartIf(t, p, site, domain, out);
      var p', m', s' := Relocate(t, p, site, "", domain, out);
      RelocatedHasMarker(t, placed, out, site, domain, p', m', s');
    }
  }

  lemma {:induction false} RenderTwiceSwallowed(t: Texts, current: string, siteText: string, domain: string)
    requires WellFormed(t) && DomainOk(t, domain) && RenderManagedCaddyfile(t, current, siteText, domain).Ok?
    requires !SiteApart(t, PlaceSite(t, current, Site(siteText), domain).value)
    ensures var out := RenderManagedCaddyfile(t, current, siteText, domain).value;
            RenderManagedCaddyfile(t, out, siteText, domain) != Ok(out)
  {
    var site := Site(siteText);
    RenderIs(t, current, siteText, domain);
    SiteIsChomped(siteText);
    var placed := PlaceSite(t, current, site, domain).value;
    var out := RenderLimits(t, placed).value;
    var p, s := PlacedShape(t, current, site, domain);
    var r := RegionOf(t, placed, out);
    SwallowedLoses(t, p, site + "\n", s, r);
    RenderIs(t, out, siteText, domain);
    var a, b := RenderedParts(t, placed);
    WhereNone(Lines(out), SiteMarker(t.begin));
    WhereNone(Lines(out), SiteMarker(t.end));
    if NoSite(t, Lines(out)) && PlaceSite(t, out, site, domain).Ok? {
      LostIsNotAgain(t, out, a, b, site, domain);
    }
  }

  /**
   Rendering is idempotent exactly when the first rendering was steady: the old
   limits lines held no site marker, and they either stood inside the site block
   or were not needed to close the global block and hid no servers option.
   */
  lemma {:induction false} RenderTwice(t: Texts, current: string, siteText: string, domain: string)
    requires WellFormed(t) && DomainOk(t, domain) && RenderManagedCaddyfile(t, current, siteText, domain).Ok?
    ensures var out := RenderManagedCaddyfile(t, current, siteText, domain).value;
            RenderManagedCaddyfile(t, out, siteText, domain) == Ok(out) <==>
            Steady(t, PlaceSite(t, current, Site(siteText), domain).value)
  {
    RenderIs(t, current, siteText, domain);
    if SiteApart(t, PlaceSite(t, current, Site(siteText), domain).value) {
      RenderTwiceApart(t, current, siteText, domain);
    } else {
      RenderTwiceSwallowed(t, current, siteText, domain);
    }
  }

  /** A Caddyfile without old limits lines is always steady. */
  lemma {:induction false} FreshIsSteady(t: Texts, placed: string)
    requires NoLimits(t, Lines(placed))
    ensures Steady(t, placed)
  {
    PlaceNone(t, placed);
  }
}
