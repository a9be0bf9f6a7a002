/** Rendering the whole Caddyfile: the managed site and then the managed limits. */
module CaddySite {
  import opened Wrappers
  import opened PyLines
  import opened CaddyLines
  import opened CaddyLexer
  import opened CaddyMerge
  import opened CaddyLimits

  function StripLeft(s: string): string {
    if s != [] && s[0] in "\r\n" then StripLeft(s[1..]) else s
  }

  function EndLines(base: string): string {
    if base == "" then ""
    else
      var ended := if base[|base| - 1] in "\n\r" then base else base + "\n";
      if EndsWith(ended, "\n\n") || EndsWith(ended, "\r\n\r\n") then ended else ended + "\n"
  }

  predicate EndsWith(s: string, w: string) {
    |w| <= |s| && s[|s| - |w|..] == w
  }

  function SiteError(t: Texts, site: string, domain: string): Option<CaddyMergeError> {
    if site == "" then Some(EmptySite)
    else if !Contains(site, domain) then Some(SiteWithoutDomain)
    else if exists l | l in Lines(site) :: Content(l) == t.begin || Content(l) == t.end then Some(SiteHoldsMarkers)
    else None
  }

  /** The text with the managed site in its place, before the limits are rendered. */
  function PlaceSite(t: Texts, current: string, site: string, domain: string): Rendered {
    var lines := Lines(current);
    var begins, ends := Where(lines, SiteMarker(t.begin)), Where(lines, SiteMarker(t.end));
    if begins != [] || ends != [] then
      if |begins| != 1 || |ends| != 1 then Err(SiteMarkerPair)
      else if begins[0] >= ends[0] then Err(SiteMarkerOrder)
      else
        SingleSplits(lines, SiteMarker(t.begin));
        SingleSplits(lines, SiteMarker(t.end));
        var prefix, suffix := Join(lines[..begins[0]]), Join(lines[ends[0] + 1..]);
        if Contains(prefix, domain) || Contains(suffix, domain) then Err(DomainElsewhere)
        else Ok((prefix + ManagedSite(t, site)) + suffix)
    else if Chomp(current) == Chomp(site) then Ok(ManagedSite(t, site))
    else if Contains(current, domain) then Err(DomainUnmarked)
    else Ok((EndLines(current) + ManagedSite(t, site)) + "")
  }

  function RenderManagedCaddyfile(t: Texts, current: string, siteText: string, domain: string): Rendered {
    var site := Chomp(StripLeft(siteText));
    match SiteError(t, site, domain)
    case Some(e) => Err(e)
    case None =>
      match PlaceSite(t, current, site, domain)
      case Err(e) => Err(e)
      case Ok(placed) => RenderLimits(t, placed)
  }

  // ---------- a text around its one site block ----------

  /** The site block with any lines between its markers. */
  function SiteBlock(t: Texts, mid: string): string {
    (t.begin + "\n") + (mid + (t.end + "\n"))
  }

  /** Around a site block: line boundaries, no other site marker, and nowhere the domain. */
  ghost predicate Around(t: Texts, prefix: string, mid: string, suffix: string, domain: string) {
    && AtLineStart(prefix) && NoSite(t, Lines(prefix)) && NoSite(t, Lines(suffix))
    && mid != "" && mid[|mid| - 1] == '\n' && NoSite(t, Lines(mid))
    && !Contains(prefix, domain) && !Contains(suffix, domain)
  }

  function SiteLine(m: string): Line {
    Line(m + "\n")
  }

  lemma {:induction false} SiteLineIs(t: Texts, m: string)
    requires WellFormed(t) && (m == t.begin || m == t.end)
    ensures Lines(m + "\n") == [SiteLine(m)]
    ensures forall o :: SiteMarker(o)(SiteLine(m)) <==> o == m
    ensures NoLimits(t, [SiteLine(m)])
  {
    assert MarkerText(m);
    OneLineText(m);
    ChompMarker(m);
  }

  lemma {:induction false} SiteBlockLines(t: Texts, mid: string)
    requires WellFormed(t) && mid != "" && mid[|mid| - 1] == '\n'
    ensures Lines(SiteBlock(t, mid)) == [SiteLine(t.begin)] + Lines(mid) + [SiteLine(t.end)]
  {
    SiteLineIs(t, t.begin);
    SiteLineIs(t, t.end);
    CleanAfterNewline(t.begin + "\n", mid + (t.end + "\n"));
    LinesPlus(t.begin + "\n", mid + (t.end + "\n"));
    CleanAfterNewline(mid, t.end + "\n");
    LinesPlus(mid, t.end + "\n");
  }

  lemma {:induction false} AroundLines(t: Texts, prefix: string, mid: string, suffix: string)
    requires WellFormed(t) && AtLineStart(prefix) && mid != "" && mid[|mid| - 1] == '\n'
    ensures Lines((prefix + SiteBlock(t, mid)) + suffix) ==
            Lines(prefix) + [SiteLine(t.begin)] + Lines(mid) + [SiteLine(t.end)] + Lines(suffix)
  {
    SiteBlockLines(t, mid);
    assert MarkerText(t.begin);
    BlockStart(t, mid);
    LinesAmong(prefix, SiteBlock(t, mid), suffix);
    Flatten(Lines(prefix), SiteLine(t.begin), Lines(mid), SiteLine(t.end), Lines(suffix));
  }

  lemma {:induction false} Flatten(p: seq<Line>, x: Line, m: seq<Line>, y: Line, s: seq<Line>)
    ensures (p + ([x] + m + [y])) + s == p + [x] + m + [y] + s
  {
  }

  lemma {:induction false} BlockStart(t: Texts, mid: string)
    requires MarkerText(t.begin)
    ensures var block := SiteBlock(t, mid);
            block != [] && block[0] == '#' && block[|block| - 1] == '\n'
  {
    var head, tail := t.begin + "\n", mid + (t.end + "\n");
    assert head[0] == '#' && tail[|tail| - 1] == '\n';
    assert (head + tail)[|head| + |tail| - 1] == tail[|tail| - 1];
  }

  /** Placing the site again only looks outside the block. */
  lemma {:induction false} PlaceAround(t: Texts, prefix: string, mid: string, suffix: string, site: string,
      domain: string)
    requires WellFormed(t) && Around(t, prefix, mid, suffix, domain)
    ensures PlaceSite(t, (prefix + SiteBlock(t, mid)) + suffix, site, domain) ==
            Ok((prefix + ManagedSite(t, site)) + suffix)
  {
    var text := (prefix + SiteBlock(t, mid)) + suffix;
    AroundLines(t, prefix, mid, suffix);
    SiteWhere(t, Lines(text), Lines(prefix), Lines(mid), Lines(suffix));
    JoinLines(prefix);
    JoinLines(suffix);
  }

  lemma {:induction false} SiteWhere(t: Texts, lines: seq<Line>, p: seq<Line>, m: seq<Line>, s: seq<Line>)
    requires WellFormed(t) && lines == p + [SiteLine(t.begin)] + m + [SiteLine(t.end)] + s
    requires NoSite(t, p) && NoSite(t, m) && NoSite(t, s)
    ensures Where(lines, SiteMarker(t.begin)) == [|p|] && Where(lines, SiteMarker(t.end)) == [|p| + 1 + |m|]
    ensures lines[..|p|] == p && lines[|p| + 1 + |m| + 1..] == s
  {
    var r := Region(p, SiteLine(t.begin), m, SiteLine(t.end), s);
    SiteLineIs(t, t.begin);
    SiteLineIs(t, t.end);
    Regroup(r);
    NoneAround(m, SiteLine(t.end), s, SiteMarker(t.begin));
    NoneAround(p, SiteLine(t.begin), m, SiteMarker(t.end));
    WhereOnce(p, SiteLine(t.begin), m + [SiteLine(t.end)] + s, SiteMarker(t.begin));
    WhereOnce(p + [SiteLine(t.begin)] + m, SiteLine(t.end), s, SiteMarker(t.end));
  }
}
