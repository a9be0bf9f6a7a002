/** What a rendering keeps of the Caddyfile: everything outside its two blocks. */
module CaddyKept {
  import opened Wrappers
  import opened PyLines
  import opened CaddyLines
  import opened CaddyLexer
  import opened CaddyMerge
  import opened CaddyLimits
  import opened CaddyIdempotence
  import opened CaddySite
  import opened CaddyTheorems

  /** Whole lines from a line that starts a block up to one that ends it. */
  ghost predicate WholeBlock(gone: string, starts: Line -> bool, ends: Line -> bool) {
    |Lines(gone)| >= 2 && starts(Lines(gone)[0]) && ends(Lines(gone)[|Lines(gone)| - 1])
  }

  predicate Newlines(s: string) {
    forall c | c in s :: c == '\n'
  }

  /** `placed` is `current` with one old site block, or nothing at the end, replaced. */
  ghost predicate SiteReplaced(t: Texts, current: string, placed: string, site: string,
                               before: string, gone: string, after: string, separator: string) {
    && current == (before + gone) + after
    && placed == ((before + separator) + ManagedSite(t, site)) + after
    && (if gone == "" then after == "" && Newlines(separator) && |separator| <= 2 && NoSite(t, Lines(current))
        else separator == "" && WholeBlock(gone, SiteMarker(t.begin), SiteMarker(t.end)))
  }

  /** `out` is `text` with one old limits block, or nothing, replaced, in braces of its own when there were none. */
  ghost predicate LimitsReplaced(t: Texts, text: string, out: string,
                                 before: string, gone: string, after: string, separator: string) {
    && text == (before + gone) + after
    && (if gone != ""
        then out == (before + t.limits) + after
            && WholeBlock(gone, LimitsMarker(t.limitsBegin), LimitsMarker(t.limitsEnd))
        else if GlobalSpan(text) == Ok(None)
        then before == "" && out == ("{\n" + t.limits) + ("}\n\n" + text)
        else out == ((before + separator) + t.limits) + after && (separator == "" || separator == "\n"))
  }

  lemma {:induction false} ThreeParts(text: string, a: seq<Line>, m: seq<Line>, b: seq<Line>)
    requires Lines(text) == (a + m) + b
    ensures text == (Join(a) + Join(m)) + Join(b) && Lines(Join(m)) == m
  {
    LinesSplit(text, a + m, b);
    LinesSplit(Join(a + m), a, m);
  }

  lemma {:induction false} Cut(lines: seq<Line>, i: nat, j: nat)
    requires i < j < |lines|
    ensures lines == (lines[..i] + lines[i..j + 1]) + lines[j + 1..]
    ensures lines[i..j + 1][0] == lines[i] && lines[i..j + 1][j - i] == lines[j]
  {
  }

  lemma {:induction false} BlockOfLines(text: string, a: seq<Line>, m: seq<Line>, b: seq<Line>,
                                        starts: Line -> bool, ends: Line -> bool)
    requires Lines(text) == (a + m) + b && |m| >= 2 && starts(m[0]) && ends(m[|m| - 1])
    ensures text == (Join(a) + Join(m)) + Join(b) && WholeBlock(Join(m), starts, ends) && Join(m) != ""
  {
    ThreeParts(text, a, m, b);
    assert Lines("") == [];
  }

  lemma {:induction false} EndLinesAdds(base: string) returns (separator: string)
    ensures EndLines(base) == base + separator && Newlines(separator) && |separator| <= 2
  {
    separator := "";
    if base != "" {
      var ended := if base[|base| - 1] in "\n\r" then base else base + "\n";
      separator := (if ended == base then "" else "\n") + (if EndLines(base) == ended then "" else "\n");
    }
  }

  lemma {:induction false} MarkersFound(t: Texts, current: string, site: string, domain: string)
    returns (i: nat, j: nat)
    requires PlaceSite(t, current, site, domain).Ok? && !NoSite(t, Lines(current))
    ensures i < j < |Lines(current)|
    ensures SiteMarker(t.begin)(Lines(current)[i]) && SiteMarker(t.end)(Lines(current)[j])
    ensures PlaceSite(t, current, site, domain).value ==
            (Join(Lines(current)[..i]) + ManagedSite(t, site)) + Join(Lines(current)[j + 1..])
  {
    var lines := Lines(current);
    WhereNone(lines, SiteMarker(t.begin));
    WhereNone(lines, SiteMarker(t.end));
    i, j := Where(lines, SiteMarker(t.begin))[0], Where(lines, SiteMarker(t.end))[0];
    FoundThere(lines, SiteMarker(t.begin), i);
    FoundThere(lines, SiteMarker(t.end), j);
    MarkedSite(t, current, site, domain, i, j);
  }

  lemma {:induction false} MarkedSite(t: Texts, current: string, site: string, domain: string, i: nat, j: nat)
    requires PlaceSite(t, current, site, domain).Ok? && i < j < |Lines(current)|
    requires Where(Lines(current), SiteMarker(t.begin)) != [] && Where(Lines(current), SiteMarker(t.end)) != []
    requires Where(Lines(current), SiteMarker(t.begin))[0] == i && Where(Lines(current), SiteMarker(t.end))[0] == j
    ensures PlaceSite(t, current, site, domain).value ==
            (Join(Lines(current)[..i]) + ManagedSite(t, site)) + Join(Lines(current)[j + 1..])
  {
  }

  lemma {:induction false} FoundThere(lines: seq<Line>, p: Line -> bool, i: nat)
    requires |Where(lines, p)| == 1 && Where(lines, p)[0] == i
    ensures i < |lines| && p(lines[i])
  {
    WhereBounds(lines, p);
  }

  lemma {:induction false} MarkedSiteKeepsTheRest(t: Texts, current: string, site: string, domain: string)
    returns (before: string, gone: string, after: string)
    requires PlaceSite(t, current, site, domain).Ok? && !NoSite(t, Lines(current))
    ensures current == (before + gone) + after && gone != ""
    ensures PlaceSite(t, current, site, domain).value == (before + ManagedSite(t, site)) + after
    ensures WholeBlock(gone, SiteMarker(t.begin), SiteMarker(t.end))
  {
    var i, j := MarkersFound(t, current, site, domain);
    before, gone, after := BlockBetween(current, i, j, SiteMarker(t.begin), SiteMarker(t.end));
  }

  lemma {:induction false} BlockBetween(text: string, i: nat, j: nat, starts: Line -> bool, ends: Line -> bool)
    returns (before: string, gone: string, after: string)
    requires i < j < |Lines(text)| && starts(Lines(text)[i]) && ends(Lines(text)[j])
    ensures before == Join(Lines(text)[..i]) && after == Join(Lines(text)[j + 1..])
    ensures text == (before + gone) + after && WholeBlock(gone, starts, ends) && gone != ""
  {
    var lines := Lines(text);
    var a, m, b := lines[..i], lines[i..j + 1], lines[j + 1..];
    Cut(lines, i, j);
    BlockOfLines(text, a, m, b, starts, ends);
    before, gone, after := Join(a), Join(m), Join(b);
  }

  lemma {:induction false} UnmarkedSite(t: Texts, current: string, site: string, domain: string)
    requires PlaceSite(t, current, site, domain).Ok? && NoSite(t, Lines(current)) && Chomp(current) != Chomp(site)
    ensures PlaceSite(t, current, site, domain).value == (EndLines(current) + ManagedSite(t, site)) + ""
  {
    WhereNone(Lines(current), SiteMarker(t.begin));
    WhereNone(Lines(current), SiteMarker(t.end));
  }

  /** Apart from the legacy whole-file case, only the old site block goes and only newlines come with the new one. */
  lemma {:induction false} SiteKeepsTheRest(t: Texts, current: string, site: string, domain: string)
    returns (before: string, gone: string, after: string, separator: string)
    requires PlaceSite(t, current, site, domain).Ok?
    requires !NoSite(t, Lines(current)) || Chomp(current) != Chomp(site)
    ensures SiteReplaced(t, current, PlaceSite(t, current, site, domain).value, site, before, gone, after, separator)
  {
    if NoSite(t, Lines(current)) {
      UnmarkedSite(t, current, site, domain);
      separator := EndLinesAdds(current);
      before, gone, after := current, "", "";
      assert current == (current + "") + "";
    } else {
      before, gone, after := MarkedSiteKeepsTheRest(t, current, site, domain);
      separator := "";
      assert before + "" == before;
    }
  }

  lemma {:induction false} MarkedLimitsKeepTheRest(t: Texts, text: string)
    returns (before: string, gone: string, after: string)
    requires RenderLimits(t, text).Ok? && LimitsPlace(t, text) != Ok(None)
    ensures text == (before + gone) + after && gone != ""
    ensures RenderLimits(t, text).value == (before + t.limits) + after
    ensures WholeBlock(gone, LimitsMarker(t.limitsBegin), LimitsMarker(t.limitsEnd))
  {
    var r := RenderedIsMarked(t, text);
    MarkedText(t, text, r);
    PlaceOfRegion(t, text, r, LimitsPlace(t, text).value.value);
    RenderAt(t, text, LimitsPlace(t, text).value.value);
    before, gone, after := r.A(), r.D(), r.B();
    assert Lines("") == [];
  }

  lemma {:induction false} UnmarkedLimits(t: Texts, text: string)
    requires LimitsPlace(t, text) == Ok(None)
    ensures RenderLimits(t, text) == AddLimits(t, text)
  {
  }

  lemma {:induction false} AddedLimitsKeepTheRest(t: Texts, text: string)
    returns (before: string, after: string, separator: string)
    requires AddLimits(t, text).Ok?
    ensures text == before + after && (separator == "" || separator == "\n")
    ensures if GlobalSpan(text) == Ok(None)
            then before == "" && AddLimits(t, text).value == ("{\n" + t.limits) + ("}\n\n" + text)
            else AddLimits(t, text).value == ((before + separator) + t.limits) + after
  {
    if GlobalSpan(text) == Ok(None) {
      before, after, separator := "", text, "";
    } else {
      var c := GlobalSpan(text).value.value.closing;
      before, after, separator := text[..c], text[c..], Separator(text[..c]);
    }
  }

  /** Only the old limits block goes; a newline, or a global block around the new one, may come with it. */
  lemma {:induction false} LimitsKeepTheRest(t: Texts, text: string)
    returns (before: string, gone: string, after: string, separator: string)
    requires RenderLimits(t, text).Ok?
    ensures LimitsReplaced(t, text, RenderLimits(t, text).value, before, gone, after, separator)
  {
    if LimitsPlace(t, text) == Ok(None) {
      UnmarkedLimits(t, text);
      before, after, separator := AddedLimitsKeepTheRest(t, text);
      gone := "";
      assert before + "" == before;
    } else {
      before, gone, after := MarkedLimitsKeepTheRest(t, text);
      separator := "";
    }
  }

  /** A whole rendering: first the site block, then the limits block, and the rest stays as it was. */
  lemma {:induction false} OutsideIsKept(t: Texts, current: string, siteText: string, domain: string)
    returns (placed: string, before: string, gone: string, after: string, separator: string,
             before': string, gone': string, after': string, separator': string)
    requires RenderManagedCaddyfile(t, current, siteText, domain).Ok?
    requires !NoSite(t, Lines(current)) || Chomp(current) != Chomp(Site(siteText))
    ensures SiteReplaced(t, current, placed, Site(siteText), before, gone, after, separator)
    ensures LimitsReplaced(t, placed, RenderManagedCaddyfile(t, current, siteText, domain).value,
                           before', gone', after', separator')
  {
    RenderIs(t, current, siteText, domain);
    placed := PlaceSite(t, current, Site(siteText), domain).value;
    before, gone, after, separator := SiteKeepsTheRest(t, current, Site(siteText), domain);
    before', gone', after', separator' := LimitsKeepTheRest(t, placed);
  }
}
