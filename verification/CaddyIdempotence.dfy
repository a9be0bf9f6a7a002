/** Rendering the limits a second time, for every text the first rendering accepts. */
module CaddyIdempotence {
  import opened Wrappers
  import opened PyLines
  import opened CaddyLines
  import opened CaddyLexer
  import opened CaddyMerge
  import opened CaddyLimits
  import opened CaddyInsert

  /** A text in its three parts: before the limits block, the block, after it. */
  ghost predicate HoldsLimits(t: Texts, text: string, a: string, b: string) {
    && text == (a + t.limits) + b
    && AtLineStart(a) && NoLimits(t, Lines(a)) && NoLimits(t, Lines(b)) && OpenAt(a)
  }

  /** Without old limits lines, or when the text does not depend on them to close the global block. */
  predicate LimitsSettled(t: Texts, text: string) {
    match LimitsPlace(t, text)
    case Ok(Some(p)) => Settles(t, text[..p.begin], text[p.end..])
    case _ => true
  }

  /** With a newline in place of the old limits lines, the global block encloses their place. */
  predicate LimitsEnclosed(t: Texts, text: string) {
    match LimitsPlace(t, text)
    case Ok(Some(p)) => Encloses(text[..p.begin], text[p.end..])
    case _ => true
  }

  lemma {:induction false} PlaceNone(t: Texts, text: string)
    ensures LimitsPlace(t, text) == Ok(None) <==> NoLimits(t, Lines(text))
  {
    WhereNone(Lines(text), LimitsMarker(t.limitsBegin));
    WhereNone(Lines(text), LimitsMarker(t.limitsEnd));
  }

  // ---------- the old block replaced ----------

  lemma {:induction false} OpenBefore(text: string, o: nat, c: nat, n: nat)
    requires GlobalSpan(text) == Ok(Some(Span(o, c))) && o < n <= c
    ensures OpenAt(text[..n]) && Skip(text[..n], false) == o
  {
    var a, b := text[..n], text[n..];
    assert text == a + b;
    SkipPlus(a, b, false);
    assert text[o..] == a[o..] + b;
    FindPlus(START, a[o..], b);
    FindMeans(START, a[o..]);
  }

  lemma {:induction false} ReplacedParts(t: Texts, text: string) returns (a: string, b: string)
    requires RenderLimits(t, text).Ok? && LimitsPlace(t, text).Ok? && LimitsPlace(t, text).value.Some?
    ensures HoldsLimits(t, RenderLimits(t, text).value, a, b)
    ensures Settles(t, a, b) <==> LimitsSettled(t, text)
    ensures Encloses(a, b) <==> LimitsEnclosed(t, text)
  {
    var p := LimitsPlace(t, text).value.value;
    RenderAt(t, text, p);
    a, b := text[..p.begin], text[p.end..];
    var Span(o, c) := GlobalSpan(text).value.value;
    OpenBefore(text, o, c, p.begin);
    var r := RenderedIsMarked(t, text);
    MarkedText(t, text, r);
    PlaceOfRegion(t, text, r, p);
  }

  lemma {:induction false} PlaceOfRegion(t: Texts, text: string, r: Region, p: Place)
    requires Marked(t, text, r) && LimitsPlace(t, text) == Ok(Some(p)) && text == (r.A() + r.D()) + r.B()
    ensures text[..p.begin] == r.A() && text[p.end..] == r.B()
  {
    MarkedOffsets(t, text, r);
    MarkedIndex(t, text, r);
  }

  lemma {:induction false} MarkedIndex(t: Texts, text: string, r: Region)
    requires Lines(text) == r.All() && LimitsPlace(t, text).Ok? && LimitsPlace(t, text).value.Some?
    requires LimitsMarker(t.limitsBegin)(r.first) && LimitsMarker(t.limitsEnd)(r.last)
    ensures LimitsPlace(t, text).value.value == PlaceOf(Lines(text), |r.before|, |r.before| + 1 + |r.middle|)
  {
    var lines, b, e := Lines(text), |r.before|, |r.before| + 1 + |r.middle|;
    RegionIndex(r);
    assert b < e < |lines|;
    OnlyIndex(lines, LimitsMarker(t.limitsBegin), b);
    OnlyIndex(lines, LimitsMarker(t.limitsEnd), e);
    PlaceFound(t, text, b, e);
  }

  lemma {:induction false} PlaceFound(t: Texts, text: string, b: nat, e: nat)
    requires LimitsPlace(t, text).Ok? && LimitsPlace(t, text).value.Some?
    requires var begins := Where(Lines(text), LimitsMarker(t.limitsBegin)); |begins| == 1 ==> begins[0] == b
    requires var ends := Where(Lines(text), LimitsMarker(t.limitsEnd)); |ends| == 1 ==> ends[0] == e
    ensures LimitsPlace(t, text).value.value == PlaceOf(Lines(text), b, e)
  {
  }

  lemma {:induction false} RegionIndex(r: Region)
    ensures r.All()[|r.before|] == r.first && r.All()[|r.before| + 1 + |r.middle|] == r.last
  {
  }

  lemma {:induction false} OnlyIndex(lines: seq<Line>, p: Line -> bool, i: nat)
    requires i < |lines| && p(lines[i])
    ensures |Where(lines, p)| == 1 ==> Where(lines, p)[0] == i
  {
    WhereIs(lines, p, i);
  }

  // ---------- a new global block ----------

  lemma {:induction false} WrapperLineTexts()
    ensures Lines("{\n") == [Line("{\n")] && Lines("}\n\n") == [Line("}\n")] + [Line("\n")]
  {
    assert "{" + "\n" == "{\n" && "}" + "\n" == "}\n" && "}\n" + "\n" == "}\n\n" && "" + "\n" == "\n";
    OneLineText("{");
    OneLineText("}");
    OneLineText("");
    LinesPlus("}\n", "\n");
  }

  lemma {:induction false} WrapperPlain(t: Texts)
    requires MarkersOk(t)
    ensures NoMarkers(t, [Line("{\n")]) && NoMarkers(t, [Line("}\n")]) && NoMarkers(t, [Line("\n")])
  {
    PlainLine(t, "{");
    PlainLine(t, "}");
    PlainLine(t, "");
    assert "{" + "\n" == "{\n" && "}" + "\n" == "}\n" && "" + "\n" == "\n";
  }

  lemma {:induction false} WrapperLines(t: Texts, text: string)
    requires WellFormed(t)
    ensures NoMarkers(t, Lines("{\n")) && NoMarkers(t, Lines("}\n\n"))
    ensures Lines("}\n\n" + text) == Lines("}\n\n") + Lines(text)
  {
    LinesPlus("}\n\n", text);
    WrapperLineTexts();
    WrapperPlain(t);
    NoMarkersPlus(t, [Line("}\n")], [Line("\n")]);
  }

  lemma {:induction false} NoMarkersPlus(t: Texts, a: seq<Line>, b: seq<Line>)
    ensures NoSite(t, a + b) <==> NoSite(t, a) && NoSite(t, b)
    ensures NoLimits(t, a + b) <==> NoLimits(t, a) && NoLimits(t, b)
  {
    NoneParts(a, b, SiteMarker(t.begin));
    NoneParts(a, b, SiteMarker(t.end));
    NoneParts(a, b, LimitsMarker(t.limitsBegin));
    NoneParts(a, b, LimitsMarker(t.limitsEnd));
  }

  lemma {:induction false} PlainLine(t: Texts, s: string)
    requires MarkersOk(t) && Unbroken(s) && '#' !in s
    ensures NoMarkers(t, [Line(s + "\n")])
  {
    SiteMarkerTest(t.begin);
    SiteMarkerTest(t.end);
    LimitsMarkerTest(t.limitsBegin);
    LimitsMarkerTest(t.limitsEnd);
  }

  /** The next character closes the block, and the block has no servers option. */
  lemma {:induction false} SettlesIf(t: Texts, a: string, b: string)
    requires OpenAt(a) && Code(StateAfter(a)) && StateAfter(a).depth == 1 && b != [] && b[0] == '}'
    requires !DirHit(DirRun(INSIDE, a[Skip(a, false) + 1..] + " ", t.wide))
    ensures Settles(t, a, b)
  {
    NewlineThrough(a, b);
    assert Find(Step(StateAfter(a), '\n'), b) == Some(0);
    ServersBefore(a, b, Skip(a, false));
  }

  lemma {:induction false} ServersBefore(a: string, b: string, o: nat)
    requires o < |a|
    ensures ((a + " ") + b)[o + 1..|a| + 1] == a[o + 1..] + " "
  {
  }

  lemma {:induction false} WrapperOpens(t: Texts)
    ensures OpenAt("{\n") && Skip("{\n", false) == 0 && StateAfter("{\n") == Lex(1, NoQuote, false, false)
    ensures !DirHit(DirRun(INSIDE, "{\n"[1..] + " ", t.wide))
  {
    var a := "{\n";
    assert a[0..] == a && a[1..] == "\n" && "\n"[1..] == [];
    assert "\n" + " " == "\n " && "\n "[1..] == " " && " "[1..] == [];
  }

  lemma {:induction false} WrapperNoLimits(t: Texts, text: string)
    requires WellFormed(t) && NoLimits(t, Lines(text))
    ensures NoLimits(t, Lines("{\n")) && NoLimits(t, Lines("}\n\n" + text)) && AtLineStart("{\n")
  {
    WrapperLines(t, text);
    NoMarkersPlus(t, Lines("}\n\n"), Lines(text));
  }

  lemma {:induction false} WrappedParts(t: Texts, text: string)
    requires WellFormed(t) && NoLimits(t, Lines(text)) && GlobalSpan(text) == Ok(None)
    ensures RenderLimits(t, text).Ok? && HoldsLimits(t, RenderLimits(t, text).value, "{\n", "}\n\n" + text)
    ensures Settles(t, "{\n", "}\n\n" + text)
  {
    PlaceNone(t, text);
    WrapperNoLimits(t, text);
    WrapperOpens(t);
    assert ("}\n\n" + text)[0] == '}';
    SettlesIf(t, "{\n", "}\n\n" + text);
  }

  // ---------- the block added inside ----------

  /** Nothing but white space follows: a pending word at the end would have been a hit already. */
  ghost predicate DirOk(d: Dir) {
    d.found || d.token == "" || (Code(d.lex) && d.lex.depth == 1 && d.atStart)
  }

  lemma {:induction false} DirRunOk(d: Dir, s: string, wide: Alnum)
    requires DirOk(d)
    ensures DirOk(DirRun(d, s, wide))
    decreases |s|
  {
    if s != [] { DirRunOk(DirStep(d, s[0], wide), s[1..], wide); }
  }

  lemma {:induction false} QuietTail(d: Dir, sep: string, wide: Alnum)
    requires DirOk(d) && !DirHit(d) && (sep == "" || sep == "\n")
    ensures !DirHit(DirRun(d, sep + " ", wide))
  {
    assert " "[1..] == [] && "\n "[1..] == " " && "" + " " == " " && "\n" + " " == "\n ";
  }

  lemma {:induction false} InsideOpens(text: string, o: nat, c: nat)
    requires GlobalSpan(text) == Ok(Some(Span(o, c)))
    ensures var prefix := text[..c];
            && OpenAt(prefix) && Skip(prefix, false) == o && Code(StateAfter(prefix)) && StateAfter(prefix).depth == 1
            && text[c] == '}'
  {
    OpenBefore(text, o, c, c);
    FindMeans(START, text[o..]);
    assert text[o..][..c - o] == text[..c][o..];
  }

  lemma {:induction false} SeparatorOpens(prefix: string, sep: string)
    requires OpenAt(prefix) && Code(StateAfter(prefix)) && (sep == "" || sep == "\n")
    ensures OpenAt(prefix + sep) && StateAfter(prefix + sep) == StateAfter(prefix)
    ensures Skip(prefix + sep, false) == Skip(prefix, false)
  {
    var o := Skip(prefix, false);
    SkipPlus(prefix, sep, false);
    assert (prefix + sep)[o..] == prefix[o..] + sep && "\n"[1..] == [];
    FindPlus(START, prefix[o..], sep);
    RunPlus(START, prefix[o..], sep);
  }

  lemma {:induction false} AddedSettles(t: Texts, text: string, o: nat, c: nat)
    requires GlobalSpan(text) == Ok(Some(Span(o, c))) && !HasServers(text, o, c, t.wide)
    ensures Settles(t, text[..c] + Separator(text[..c]), text[c..])
  {
    var prefix := text[..c];
    InsideOpens(text, o, c);
    SeparatorOpens(prefix, Separator(prefix));
    assert text[o + 1..c] == prefix[o + 1..];
    AddedQuiet(prefix, o, Separator(prefix), t.wide);
    SettlesIf(t, prefix + Separator(prefix), text[c..]);
  }

  lemma {:induction false} AddedQuiet(prefix: string, o: nat, sep: string, wide: Alnum)
    requires o < |prefix| && !DirHit(DirRun(INSIDE, prefix[o + 1..], wide)) && (sep == "" || sep == "\n")
    ensures !DirHit(DirRun(INSIDE, (prefix + sep)[o + 1..] + " ", wide))
  {
    assert (prefix + sep)[o + 1..] + " " == prefix[o + 1..] + (sep + " ");
    DirRunPlus(INSIDE, prefix[o + 1..], sep + " ", wide);
    DirRunOk(INSIDE, prefix[o + 1..], wide);
    QuietTail(DirRun(INSIDE, prefix[o + 1..], wide), sep, wide);
  }

  lemma {:induction false} AddedLines(t: Texts, text: string, c: nat)
    requires WellFormed(t) && c < |text| && text[c] == '}' && CodeTail(text[..c]) && NoLimits(t, Lines(text))
    ensures var a := text[..c] + Separator(text[..c]);
            NoLimits(t, Lines(a)) && NoLimits(t, Lines(text[c..])) && AtLineStart(a)
  {
    LimitsMarkerTest(t.limitsBegin);
    LimitsMarkerTest(t.limitsEnd);
    assert text == text[..c] + text[c..];
    CutLeavesNoMarker(LimitsMarker(t.limitsBegin), text[..c], text[c..], Separator(text[..c]));
    CutLeavesNoMarker(LimitsMarker(t.limitsEnd), text[..c], text[c..], Separator(text[..c]));
  }

  lemma {:induction false} AddedParts(t: Texts, text: string, o: nat, c: nat)
    requires WellFormed(t) && NoLimits(t, Lines(text))
    requires GlobalSpan(text) == Ok(Some(Span(o, c))) && !HasServers(text, o, c, t.wide)
    ensures var a := text[..c] + Separator(text[..c]);
            && RenderLimits(t, text).Ok? && HoldsLimits(t, RenderLimits(t, text).value, a, text[c..])
            && Settles(t, a, text[c..])
  {
    PlaceNone(t, text);
    InsideOpens(text, o, c);
    CodeHasCodeTail(text[..c]);
    AddedLines(t, text, c);
    SeparatorOpens(text[..c], Separator(text[..c]));
    AddedSettles(t, text, o, c);
  }

  // ---------- the theorem for the limits ----------

  lemma {:induction false} SettledEncloses(t: Texts, a: string, b: string)
    requires Settles(t, a, b)
    ensures Encloses(a, b)
  {
  }

  lemma {:induction false} RenderedParts(t: Texts, text: string) returns (a: string, b: string)
    requires WellFormed(t) && RenderLimits(t, text).Ok?
    ensures HoldsLimits(t, RenderLimits(t, text).value, a, b)
    ensures Settles(t, a, b) <==> LimitsSettled(t, text)
    ensures Encloses(a, b) <==> LimitsEnclosed(t, text)
  {
    PlaceNone(t, text);
    if LimitsPlace(t, text) == Ok(None) {
      if GlobalSpan(text) == Ok(None) {
        WrappedParts(t, text);
        a, b := "{\n", "}\n\n" + text;
        SettledEncloses(t, a, b);
      } else {
        var Span(o, c) := GlobalSpan(text).value.value;
        AddedParts(t, text, o, c);
        a, b := text[..c] + Separator(text[..c]), text[c..];
        SettledEncloses(t, a, b);
      }
    } else {
      a, b := ReplacedParts(t, text);
    }
  }

  /**
   Rendering again never changes a rendered text: it gives the same text or an
   error, and the same text exactly when the first text was settled.
   */
  lemma {:induction false} LimitsTwice(t: Texts, text: string)
    requires WellFormed(t) && RenderLimits(t, text).Ok?
    ensures var out := RenderLimits(t, text).value;
            if LimitsSettled(t, text) then RenderLimits(t, out) == Ok(out) else RenderLimits(t, out).Err?
  {
    var a, b := RenderedParts(t, text);
    RenderWithLimits(t, a, b);
  }
}
