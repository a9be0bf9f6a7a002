/** Rendering a whole Caddyfile twice. */
module CaddyTwice {
  import opened Wrappers
  import opened PyLines
  import opened PyText
  import opened CaddyLines
  import opened CaddyMerge
  import opened CaddyLimits
  import opened CaddyInsert
  import opened CaddyIdempotence
  import opened CaddySite

  // ---------- the domain stays out ----------

  lemma {:induction false} ContainsPart(a: string, b: string, w: string)
    ensures Contains(a, w) || Contains(b, w) ==> Contains(a + b, w)
  {
    if Contains(a, w) {
      var i :| 0 <= i <= |a| && w <= a[i..];
      assert w <= (a + b)[i..];
    }
    if Contains(b, w) {
      var i :| 0 <= i <= |b| && w <= b[i..];
      assert (a + b)[|a| + i..] == b[i..];
    }
  }

  lemma {:induction false} Straddles(a: string, b: string, w: string, i: nat)
    requires i < |a| < i + |w| && w <= (a + b)[i..]
    requires AtLineStart(a) || (b != [] && IsLineBreak(b[0]))
    ensures !Unbroken(w)
  {
    var j := |a| - i;
    assert w[j - 1] == (a + b)[i..][j - 1] == a[|a| - 1];
    assert w[j] == (a + b)[i..][j] == b[0];
    assert w[j - 1] in w && w[j] in w;
  }

  /** An unbroken word in two texts that meet at a line break is in one of them. */
  lemma {:induction false} NotAcross(a: string, b: string, w: string)
    requires w != "" && Unbroken(w) && (AtLineStart(a) || (b != [] && IsLineBreak(b[0])))
    ensures Contains(a + b, w) ==> Contains(a, w) || Contains(b, w)
  {
    if Contains(a + b, w) {
      var i: nat :| i <= |a + b| && w <= (a + b)[i..];
      if i + |w| <= |a| {
        assert w <= a[i..];
      } else if i >= |a| {
        assert (a + b)[i..] == b[i - |a|..];
      } else {
        Straddles(a, b, w, i);
      }
    }
  }

  ghost predicate DomainOk(t: Texts, w: string) {
    w != "" && Unbroken(w) && !Contains(t.limits, w)
  }

  lemma {:induction false} OneCharNotIn(t: Texts, w: string, c: char)
    requires LimitsOk(t, t.limits) && DomainOk(t, w) && c in t.limitsBody
    ensures !Contains([c], w)
  {
    if Contains([c], w) {
      var i :| 0 <= i <= 1 && w <= [c][i..];
      assert w == [c];
      var k :| 0 <= k < |t.limitsBody| && t.limitsBody[k] == c;
      assert w <= t.limitsBody[k..];
      ContainsPart(t.limitsBody, "\t" + t.limitsEnd + "\n", w);
      ContainsPart("\t" + t.limitsBegin + "\n", t.limitsBody + ("\t" + t.limitsEnd + "\n"), w);
    }
  }

  lemma {:induction false} NewlinesAreBroken(w: string, s: string)
    requires w != "" && (forall c | c in s :: c == '\n') && Contains(s, w)
    ensures !Unbroken(w)
  {
    var i :| 0 <= i <= |s| && w <= s[i..];
    assert w[0] == s[i..][0] && s[i] in s && w[0] in w;
  }

  lemma {:induction false} NewlinesNotIn(w: string, s: string)
    requires w != "" && Unbroken(w) && forall c | c in s :: c == '\n'
    ensures !Contains(s, w)
  {
    if Contains(s, w) { NewlinesAreBroken(w, s); }
  }

  // ---------- the limits block among lines without site markers ----------

  lemma {:induction false} LimitsNoSite(t: Texts)
    requires WellFormed(t)
    ensures NoSite(t, Lines(t.limits))
  {
    LimitsFacts(t);
    LimitsLines(t);
    MarkerLineIs(t, t.limitsBegin);
    MarkerLineIs(t, t.limitsEnd);
    NoMarkersPlus(t, [MarkerLine(t.limitsBegin)], Lines(t.limitsBody));
    NoMarkersPlus(t, [MarkerLine(t.limitsBegin)] + Lines(t.limitsBody), [MarkerLine(t.limitsEnd)]);
  }

  lemma {:induction false} PutLines(t: Texts, x: string, y: string)
    requires WellFormed(t) && AtLineStart(x)
    ensures Lines((x + t.limits) + y) == (Lines(x) + Lines(t.limits)) + Lines(y)
    ensures AtLineStart(y) ==> AtLineStart((x + t.limits) + y)
  {
    BlockEdges(t);
    LinesAmong(x, t.limits, y);
    if y != "" { assert ((x + t.limits) + y)[|x + t.limits| + |y| - 1] == y[|y| - 1]; }
  }

  lemma {:induction false} NoSiteThree(t: Texts, a: seq<Line>, b: seq<Line>, c: seq<Line>)
    requires NoSite(t, a) && NoSite(t, b) && NoSite(t, c)
    ensures NoSite(t, (a + b) + c)
  {
    NoMarkersPlus(t, a, b);
    NoMarkersPlus(t, a + b, c);
  }

  lemma {:induction false} PutLimits(t: Texts, x: string, y: string)
    requires WellFormed(t) && AtLineStart(x) && NoSite(t, Lines(x)) && NoSite(t, Lines(y))
    ensures NoSite(t, Lines((x + t.limits) + y))
    ensures AtLineStart(y) ==> AtLineStart((x + t.limits) + y)
  {
    PutLines(t, x, y);
    LimitsNoSite(t);
    NoSiteThree(t, Lines(x), Lines(t.limits), Lines(y));
  }

  lemma {:induction false} PutDomain(t: Texts, x: string, y: string, w: string)
    requires WellFormed(t) && AtLineStart(x) && DomainOk(t, w) && !Contains(x, w) && !Contains(y, w)
    ensures !Contains((x + t.limits) + y, w)
  {
    BlockEdges(t);
    NotAcross(x, t.limits, w);
    NotAcross(x + t.limits, y, w);
  }

  /** A part of the text with the limits block put in, cut before a closing brace. */
  lemma {:induction false} InsertInto(t: Texts, u: string, x: string, y: string, sep: string)
    requires WellFormed(t) && CodeTail(u + x) && y != [] && y[0] == '}' && NoSite(t, Lines(x + y))
            && SeparatorFor(x, sep)
    ensures NoSite(t, Lines(((x + sep) + t.limits) + y)) && AtLineStart(x + sep)
    ensures AtLineStart(y) ==> AtLineStart(((x + sep) + t.limits) + y)
  {
    CodeTailOfSuffix(u, x);
    assert MarkerText(t.begin) && MarkerText(t.end);
    SiteMarkerTest(t.begin);
    SiteMarkerTest(t.end);
    CutLeavesNoMarker(SiteMarker(t.begin), x, y, sep);
    CutLeavesNoMarker(SiteMarker(t.end), x, y, sep);
    PutLimits(t, x + sep, y);
  }

  // ---------- where the site is after the limits have been rendered ----------

  /** The rendered text around its site block, and what placing the site in it again gives. */
  ghost predicate Relocated(t: Texts, placed: string, out: string, site: string, domain: string, p: string, m: string,
      s: string) {
    && out == (p + SiteBlock(t, m)) + s && Around(t, p, m, s, domain)
    && (m == site + "\n" || (p + SiteBlock(t, site + "\n")) + s == placed)
  }

  lemma {:induction false} PlacedAgain(t: Texts, placed: string, out: string, site: string, domain: string, p: string,
      m: string, s: string)
    requires WellFormed(t) && Relocated(t, placed, out, site, domain, p, m, s)
    ensures PlaceSite(t, out, site, domain) == Ok(out) || PlaceSite(t, out, site, domain) == Ok(placed)
    ensures m == site + "\n" ==> PlaceSite(t, out, site, domain) == Ok(out)
    ensures (p + SiteBlock(t, site + "\n")) + s == placed ==> PlaceSite(t, out, site, domain) == Ok(placed)
  {
    PlaceAround(t, p, m, s, site, domain);
    assert ManagedSite(t, site) == SiteBlock(t, site + "\n");
  }

  // ---------- a new global block in front ----------

  lemma {:induction false} RelocateWrapped(t: Texts, p: string, site: string, s: string, domain: string)
    returns (p': string)
    requires WellFormed(t) && DomainOk(t, domain) && Around(t, p, site + "\n", s, domain)
    ensures var placed := (p + SiteBlock(t, site + "\n")) + s;
            Relocated(t, placed, ("{\n" + t.limits) + ("}\n\n" + placed), site, domain, p', site + "\n", s)
  {
    var block := SiteBlock(t, site + "\n");
    p' := ("{\n" + t.limits) + ("}\n\n" + p);
    WrapperLines(t, p);
    NoMarkersPlus(t, Lines("}\n\n"), Lines(p));
    PutLimits(t, "{\n", "}\n\n" + p);
    WrapperDomain(t, p, domain);
    PutDomain(t, "{\n", "}\n\n" + p, domain);
    Reassociate("{\n" + t.limits, "}\n\n", p, block, s);
  }

  lemma {:induction false} Reassociate(a: string, b: string, p: string, block: string, s: string)
    ensures a + (b + ((p + block) + s)) == ((a + (b + p)) + block) + s
  {
  }

  lemma {:induction false} WrapperDomain(t: Texts, p: string, w: string)
    requires WellFormed(t) && DomainOk(t, w) && !Contains(p, w)
    ensures !Contains("{\n", w) && !Contains("}\n\n" + p, w)
  {
    LimitsFacts(t);
    OneCharNotIn(t, w, '{');
    OneCharNotIn(t, w, '}');
    NewlinesNotIn(w, "\n");
    NewlinesNotIn(w, "\n\n");
    NotAcross("{", "\n", w);
    NotAcross("}", "\n\n", w);
    assert "{" + "\n" == "{\n" && "}" + "\n\n" == "}\n\n";
    NotAcross("}\n\n", p, w);
  }

  // ---------- the block put inside the global block ----------

  /** The closing brace is before the site block, between its markers, or after it. */
  datatype Spot = Before(k: nat) | Between(k: nat) | After(k: nat)

  lemma {:induction false} BraceSpot(t: Texts, p: string, m: string, s: string, c: nat) returns (spot: Spot)
    requires WellFormed(t)
    requires var text := (p + SiteBlock(t, m)) + s;
             c < |text| && text[c] == '}'
    ensures match spot
            case Before(k) => k == c < |p| && p[k] == '}'
            case Between(k) => k < |m| && m[k] == '}' && c == |p| + |t.begin| + 1 + k
            case After(k) => k < |s| && s[k] == '}' && c == |p| + |SiteBlock(t, m)| + k
  {
    var block := SiteBlock(t, m);
    var text := (p + block) + s;
    if c < |p| {
      assert text[c] == p[c];
      return Before(c);
    }
    if c >= |p| + |block| {
      assert text[c] == s[c - |p| - |block|];
      return After(c - |p| - |block|);
    }
    assert text[c] == block[c - |p|];
    BraceBetween(t, m, c - |p|);
    return Between(c - |p| - |t.begin| - 1);
  }

  lemma {:induction false} BraceBetween(t: Texts, m: string, k: nat)
    requires WellFormed(t) && k < |SiteBlock(t, m)| && SiteBlock(t, m)[k] == '}'
    ensures |t.begin| + 1 <= k < |t.begin| + 1 + |m| && m[k - |t.begin| - 1] == '}'
  {
    assert MarkerText(t.begin) && MarkerText(t.end);
    MiddleChar(t.begin + "\n", m, t.end + "\n", '}', k);
  }

  lemma {:induction false} MiddleChar(head: string, m: string, tail: string, c: char, k: nat)
    requires c !in head && c !in tail && k < |head + (m + tail)| && (head + (m + tail))[k] == c
    ensures |head| <= k < |head| + |m| && m[k - |head|] == c
  {
    assert forall i | 0 <= i < |head| :: head[i] in head;
    assert forall i | 0 <= i < |tail| :: tail[i] in tail;
  }

  lemma {:induction false} CutBeforeSite(p: string, block: string, s: string, k: nat, mid: string)
    requires k <= |p|
    ensures var text := (p + block) + s;
            && text[..k] == p[..k]
            && (text[..k] + mid) + text[k..] == (((p[..k] + mid) + p[k..]) + block) + s
  {
    var text := (p + block) + s;
    assert text[k..] == (p[k..] + block) + s;
  }

  lemma {:induction false} CutInSite(p: string, head: string, m: string, tail: string, s: string, k: nat, mid: string)
    requires k <= |m|
    ensures var text, c := (p + (head + (m + tail))) + s, |p| + |head| + k;
            && text[..c] == (p + head) + m[..k]
            && (text[..c] + mid) + text[c..] == (p + (head + (((m[..k] + mid) + m[k..]) + tail))) + s
  {
    var text, c := (p + (head + (m + tail))) + s, |p| + |head| + k;
    assert text[c..] == (m[k..] + tail) + s;
    assert text[..c] == (p + head) + m[..k];
  }

  lemma {:induction false} CutAfterSite(p: string, block: string, s: string, k: nat, mid: string)
    requires k <= |s|
    ensures var text, c := (p + block) + s, |p| + |block| + k;
            && text[..c] == (p + block) + s[..k]
            && (text[..c] + mid) + text[c..] == (p + block) + ((s[..k] + mid) + s[k..])
  {
    var text, c := (p + block) + s, |p| + |block| + k;
    assert text[c..] == s[k..];
    assert text[..c] == (p + block) + s[..k];
  }

  lemma {:induction false} SeparatorPart(u: string, x: string)
    requires u == "" || u[|u| - 1] == '\n'
    ensures SeparatorFor(x, Separator(u + x))
  {
    if x != "" { assert (u + x)[|u + x| - 1] == x[|x| - 1]; } else { assert u + x == u; }
  }

  /** The rendered text when the block goes in before the brace at `c`. */
  function AddedAt(t: Texts, placed: string, c: nat): string
    requires c <= |placed|
  {
    (placed[..c] + (Separator(placed[..c]) + t.limits)) + placed[c..]
  }

  lemma {:induction false} RelocateBefore(t: Texts, p: string, site: string, s: string, domain: string, k: nat)
    returns (p': string)
    requires WellFormed(t) && DomainOk(t, domain) && Around(t, p, site + "\n", s, domain)
    requires k < |p| && p[k] == '}' && CodeTail(((p + SiteBlock(t, site + "\n")) + s)[..k])
    ensures var placed := (p + SiteBlock(t, site + "\n")) + s;
            Relocated(t, placed, AddedAt(t, placed, k), site, domain, p', site + "\n", s)
  {
    var sep := Separator(p[..k]);
    CutBeforeSite(p, SiteBlock(t, site + "\n"), s, k, sep + t.limits);
    p' := AddBefore(t, p, k, sep, domain);
  }

  lemma {:induction false} SiteLengths(t: Texts, p: string, m: string, s: string)
    ensures |(p + SiteBlock(t, m)) + s| == |p| + |t.begin| + 1 + |m| + |t.end| + 1 + |s|
  {
  }

  lemma {:induction false} CutInBlock(t: Texts, p: string, m: string, s: string, k: nat, mid: string)
    requires k <= |m|
    ensures var text, c := (p + SiteBlock(t, m)) + s, |p| + |t.begin| + 1 + k;
            && c <= |text| && text[..c] == (p + (t.begin + "\n")) + m[..k]
            && (text[..c] + mid) + text[c..] == (p + SiteBlock(t, (m[..k] + mid) + m[k..])) + s
  {
    CutInSite(p, t.begin + "\n", m, t.end + "\n", s, k, mid);
  }

  lemma {:induction false} RelocateBetween(t: Texts, p: string, site: string, s: string, domain: string, k: nat)
    returns (m': string)
    requires WellFormed(t) && Around(t, p, site + "\n", s, domain)
    requires k < |site + "\n"| && (site + "\n")[k] == '}'
    requires (SiteLengths(t, p, site + "\n", s);
              CodeTail(((p + SiteBlock(t, site + "\n")) + s)[..|p| + |t.begin| + 1 + k]))
    ensures var placed := (p + SiteBlock(t, site + "\n")) + s;
            (SiteLengths(t, p, site + "\n", s);
             Relocated(t, placed, AddedAt(t, placed, |p| + |t.begin| + 1 + k), site, domain, p, m', s))
  {
    var m, u := site + "\n", p + (t.begin + "\n");
    var sep := Separator(u + m[..k]);
    CutInBlock(t, p, m, s, k, sep + t.limits);
    m' := AddInto(t, u, m, k, sep);
  }

  lemma {:induction false} RelocateAfter(t: Texts, p: string, site: string, s: string, domain: string, k: nat)
    returns (s': string)
    requires WellFormed(t) && DomainOk(t, domain) && Around(t, p, site + "\n", s, domain)
    requires k < |s| && s[k] == '}'
    requires CodeTail(((p + SiteBlock(t, site + "\n")) + s)[..|p| + |SiteBlock(t, site + "\n")| + k])
    ensures var placed := (p + SiteBlock(t, site + "\n")) + s;
            Relocated(t, placed, AddedAt(t, placed, |p| + |SiteBlock(t, site + "\n")| + k), site, domain, p,
                site + "\n", s')
  {
    var block := SiteBlock(t, site + "\n");
    var sep := Separator((p + block) + s[..k]);
    CutAfterSite(p, block, s, k, sep + t.limits);
    s' := AddAfter(t, p, site + "\n", s, k, sep, domain);
  }

  lemma {:induction false} RelocateAdded(t: Texts, p: string, site: string, s: string, domain: string, c: nat)
    returns (p': string, m': string, s': string)
    requires WellFormed(t) && DomainOk(t, domain) && Around(t, p, site + "\n", s, domain)
    requires var placed := (p + SiteBlock(t, site + "\n")) + s;
             c < |placed| && placed[c] == '}' && CodeTail(placed[..c])
    ensures var placed := (p + SiteBlock(t, site + "\n")) + s;
            Relocated(t, placed, AddedAt(t, placed, c), site, domain, p', m', s')
  {
    var m := site + "\n";
    p', m', s' := p, m, s;
    var spot := BraceSpot(t, p, m, s, c);
    match spot {
      case Before(k) =>
        p' := RelocateBefore(t, p, site, s, domain, k);
      case Between(k) =>
        m' := RelocateBetween(t, p, site, s, domain, k);
      case After(k) =>
        s' := RelocateAfter(t, p, site, s, domain, k);
    }
  }

  lemma {:induction false} EmptyPrefix(x: string)
    ensures "" + x == x
  {
  }

  lemma {:induction false} SeparatorStart(x: string)
    ensures Separator(x) == "" ==> AtLineStart(x)
    ensures Separator(x) == "" || Separator(x) == "\n"
  {
  }

  lemma {:induction false} AddBefore(t: Texts, p: string, k: nat, sep: string, domain: string) returns (p': string)
    requires WellFormed(t) && DomainOk(t, domain) && AtLineStart(p) && NoSite(t, Lines(p)) && !Contains(p, domain)
    requires k < |p| && p[k] == '}' && CodeTail(p[..k]) && sep == Separator(p[..k])
    ensures p' == (p[..k] + (sep + t.limits)) + p[k..]
    ensures AtLineStart(p') && NoSite(t, Lines(p')) && !Contains(p', domain)
  {
    EmptyPrefix(p[..k]);
    SeparatorStart(p[..k]);
    p' := AddInto(t, "", p, k, sep);
    AddDomain(t, p, k, sep, domain);
  }

  lemma {:induction false} AddAfter(t: Texts, p: string, m: string, s: string, k: nat, sep: string, domain: string)
    returns (s': string)
    requires WellFormed(t) && DomainOk(t, domain) && NoSite(t, Lines(s)) && !Contains(s, domain)
    requires k < |s| && s[k] == '}'
    requires var u := p + SiteBlock(t, m);
             CodeTail(u + s[..k]) && sep == Separator(u + s[..k])
    ensures s' == (s[..k] + (sep + t.limits)) + s[k..] && NoSite(t, Lines(s')) && !Contains(s', domain)
  {
    var u := p + SiteBlock(t, m);
    assert MarkerText(t.begin);
    BlockStart(t, m);
    assert u[|u| - 1] == '\n';
    SeparatorPart(u, s[..k]);
    s' := AddInto(t, u, s, k, sep);
    AddDomain(t, s, k, sep, domain);
  }

  lemma {:induction false} AddText(x: string, sep: string, block: string, y: string)
    requires y != ""
    ensures var w := (x + (sep + block)) + y;
            w == ((x + sep) + block) + y && w[|w| - 1] == y[|y| - 1] == (x + y)[|x + y| - 1]
  {
  }

  /** A part `w` of the text behind `u`, with the block put in before its brace at `k`. */
  lemma {:induction false} AddInto(t: Texts, u: string, w: string, k: nat, sep: string) returns (w': string)
    requires WellFormed(t) && k < |w| && w[k] == '}' && CodeTail(u + w[..k]) && NoSite(t, Lines(w))
    requires (u == "" || u[|u| - 1] == '\n') && sep == Separator(u + w[..k])
    ensures w' == (w[..k] + (sep + t.limits)) + w[k..]
    ensures NoSite(t, Lines(w')) && w' != "" && w'[|w'| - 1] == w[|w| - 1] && (AtLineStart(w) ==> AtLineStart(w'))
  {
    var x, y := w[..k], w[k..];
    assert w == x + y && y[0] == '}';
    SeparatorPart(u, x);
    w' := AddAny(t, u, x, y, sep);
  }

  lemma {:induction false} AddAny(t: Texts, u: string, x: string, y: string, sep: string) returns (w': string)
    requires WellFormed(t) && y != "" && y[0] == '}' && CodeTail(u + x) && NoSite(t, Lines(x + y))
            && SeparatorFor(x, sep)
    ensures w' == (x + (sep + t.limits)) + y && NoSite(t, Lines(w')) && w' != "" && w'[|w'| - 1] == (x + y)[|x + y| - 1]
  {
    InsertInto(t, u, x, y, sep);
    AddText(x, sep, t.limits, y);
    w' := (x + (sep + t.limits)) + y;
  }

  lemma {:induction false} AddDomain(t: Texts, w: string, k: nat, sep: string, domain: string)
    requires WellFormed(t) && DomainOk(t, domain) && k <= |w| && (sep == "" ==> AtLineStart(w[..k]))
            && (sep == "" || sep == "\n")
    requires !Contains(w, domain)
    ensures !Contains((w[..k] + (sep + t.limits)) + w[k..], domain)
  {
    var x, y := w[..k], w[k..];
    assert w == x + y && x + (sep + t.limits) == (x + sep) + t.limits;
    ContainsPart(x, y, domain);
    if sep == "" {
      assert x + sep == x;
    } else {
      NewlinesNotIn(domain, sep);
      NotAcross(x, sep, domain);
    }
    PutDomain(t, x + sep, y, domain);
  }
}
