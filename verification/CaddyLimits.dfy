/** Rendering the managed server limits again: when nothing changes, and when it fails. */
module CaddyLimits {
  import opened Wrappers
  import opened PyLines
  import opened PyText
  import opened CaddyLines
  import opened CaddyLexer
  import opened CaddyMerge

  // ---------- the lines of the block ----------

  lemma {:induction false} ChompMarker(m: string)
    requires MarkerText(m)
    ensures Chomp("\t" + m + "\n") == "\t" + m && Trim("\t" + m) == m && Chomp(m + "\n") == m && Trim(m) == m
  {
    var last := m[|m| - 1];
    assert last in m;
    assert ("\t" + m + "\n")[..|m| + 1] == "\t" + m && (m + "\n")[..|m|] == m;
    assert ("\t" + m)[1..] == m;
    assert ("\t" + m)[|m|] == last;
    TrimmedIsItsTrim(m);
  }

  function MarkerLine(m: string): Line {
    Line("\t" + m + "\n")
  }

  lemma {:induction false} MarkerLineText(m: string)
    requires MarkerText(m)
    ensures Lines("\t" + m + "\n") == [MarkerLine(m)]
  {
    assert forall c | c in "\t" + m :: !IsLineBreak(c);
    OneLineText("\t" + m);
  }

  /** A limits marker line is that limits marker and no other marker. */
  lemma {:induction false} MarkerLineIs(t: Texts, m: string)
    requires WellFormed(t) && (m == t.limitsBegin || m == t.limitsEnd)
    ensures forall o :: LimitsMarker(o)(MarkerLine(m)) <==> o == m
    ensures NoSite(t, [MarkerLine(m)])
  {
    ChompMarker(m);
    TabNoSite(m, t.begin);
    TabNoSite(m, t.end);
  }

  lemma {:induction false} TabNoSite(m: string, site: string)
    requires MarkerText(m) && MarkerText(site)
    ensures NoneOf([MarkerLine(m)], SiteMarker(site))
  {
    ChompMarker(m);
    assert ("\t" + m)[0] == '\t';
  }

  lemma {:induction false} LimitsLines(t: Texts)
    requires WellFormed(t)
    ensures Lines(t.limits) == [MarkerLine(t.limitsBegin)] + Lines(t.limitsBody) + [MarkerLine(t.limitsEnd)]
  {
    LimitsFacts(t);
    MarkerLineText(t.limitsBegin);
    MarkerLineText(t.limitsEnd);
    ThreeTexts("\t" + t.limitsBegin + "\n", t.limitsBody, "\t" + t.limitsEnd + "\n");
  }

  lemma {:induction false} ThreeTexts(first: string, body: string, last: string)
    requires first != "" && first[|first| - 1] == '\n' && body != "" && body[|body| - 1] == '\n'
    ensures Lines(first + (body + last)) == Lines(first) + Lines(body) + Lines(last)
  {
    LinesPlus(first, body + last);
    LinesPlus(body, last);
  }

  // ---------- a text with its marked region ----------

  /** The lines of a text around the one pair of limits markers. */
  datatype Region = Region(before: seq<Line>, first: Line, middle: seq<Line>, last: Line, after: seq<Line>) {
    function All(): seq<Line> {
      before + [first] + middle + [last] + after
    }
    function Old(): seq<Line> {
      [first] + middle + [last]
    }
    function A(): string {
      Join(before)
    }
    function D(): string {
      Join(Old())
    }
    function B(): string {
      Join(after)
    }
    /** Where the end marker line starts. */
    function EndStart(): nat {
      |A()| + |Join([first] + middle)|
    }
  }

  ghost predicate Marked(t: Texts, text: string, r: Region) {
    && Lines(text) == r.All()
    && LimitsMarker(t.limitsBegin)(r.first) && LimitsMarker(t.limitsEnd)(r.last)
    && NoLimits(t, r.before) && NoLimits(t, r.middle) && NoLimits(t, r.after)
  }

  lemma {:induction false} Regroup(r: Region)
    ensures r.All() == (r.before + r.Old()) + r.after
    ensures r.All() == r.before + [r.first] + (r.middle + [r.last] + r.after)
    ensures r.All() == (r.before + [r.first] + r.middle) + [r.last] + r.after
    ensures r.before + r.Old() == (r.before + ([r.first] + r.middle)) + [r.last]
  {
  }

  lemma {:induction false} MarkedText(t: Texts, text: string, r: Region)
    requires Marked(t, text, r)
    ensures text == (r.A() + r.D()) + r.B()
    ensures Clean(r.A(), r.D()) && Clean(r.A() + r.D(), r.B())
    ensures Lines(r.A()) == r.before && Lines(r.B()) == r.after && Lines(r.D()) == r.Old()
  {
    Regroup(r);
    LinesSplit(text, r.before + r.Old(), r.after);
    JoinPlus(r.before, r.Old());
    LinesSplit(r.A() + r.D(), r.before, r.Old());
  }

  lemma {:induction false} TakeOffset(lines: seq<Line>, a: seq<Line>, b: seq<Line>)
    requires lines == a + b
    ensures LineOffset(lines, |a|) == |Join(a)|
  {
    assert lines[..|a|] == a;
  }

  lemma {:induction false} MarkedOffsets(t: Texts, text: string, r: Region)
    requires Marked(t, text, r)
    ensures |r.A()| <= r.EndStart() <= |r.A()| + |r.D()|
    ensures LineOffset(Lines(text), |r.before|) == |r.A()|
    ensures LineOffset(Lines(text), |r.before| + 1 + |r.middle|) == r.EndStart()
    ensures LineOffset(Lines(text), |r.before| + 2 + |r.middle|) == |r.A()| + |r.D()|
  {
    var part := [r.first] + r.middle;
    Regroup(r);
    RegroupOffsets(r);
    TakeOffset(r.All(), r.before, part + ([r.last] + r.after));
    TakeOffset(r.All(), r.before + part, [r.last] + r.after);
    TakeOffset(r.All(), r.before + r.Old(), r.after);
    JoinPlus(r.before, part);
    JoinPlus(r.before, r.Old());
    JoinPlus(part, [r.last]);
  }

  lemma {:induction false} RegroupOffsets(r: Region)
    ensures r.All() == r.before + (([r.first] + r.middle) + ([r.last] + r.after))
    ensures r.All() == (r.before + ([r.first] + r.middle)) + ([r.last] + r.after)
    ensures r.Old() == ([r.first] + r.middle) + [r.last]
  {
  }

  lemma {:induction false} MarkedWhere(t: Texts, text: string, r: Region)
    requires t.limitsBegin != t.limitsEnd && Marked(t, text, r)
    ensures Where(Lines(text), LimitsMarker(t.limitsBegin)) == [|r.before|]
    ensures Where(Lines(text), LimitsMarker(t.limitsEnd)) == [|r.before| + 1 + |r.middle|]
  {
    var p, q := LimitsMarker(t.limitsBegin), LimitsMarker(t.limitsEnd);
    Regroup(r);
    NoneAround(r.middle, r.last, r.after, p);
    NoneAround(r.before, r.first, r.middle, q);
    WhereOnce(r.before, r.first, r.middle + [r.last] + r.after, p);
    WhereOnce(r.before + [r.first] + r.middle, r.last, r.after, q);
  }

  lemma {:induction false} NoneAround(a: seq<Line>, x: Line, b: seq<Line>, p: Line -> bool)
    requires NoneOf(a, p) && !p(x) && NoneOf(b, p)
    ensures NoneOf(a + [x] + b, p)
  {
  }

  /** The marked region is the place that is replaced. */
  lemma {:induction false} MarkedPlace(t: Texts, text: string, r: Region) returns (p: Place)
    requires t.limitsBegin != t.limitsEnd && Marked(t, text, r)
    ensures LimitsPlace(t, text) == Ok(Some(p))
    ensures p.begin == |r.A()| && p.endStart == r.EndStart() && p.end == |r.A()| + |r.D()|
  {
    var b, e := |r.before|, |r.before| + 1 + |r.middle|;
    MarkedWhere(t, text, r);
    p := PlaceOf(Lines(text), b, e);
    PlaceWhere(t, text, b, e, p);
    MarkedPlaceIs(t, text, r, p);
  }

  lemma {:induction false} MarkedPlaceIs(t: Texts, text: string, r: Region, p: Place)
    requires Marked(t, text, r) && p == PlaceOf(Lines(text), |r.before|, |r.before| + 1 + |r.middle|)
    ensures p.begin == |r.A()| && p.endStart == r.EndStart() && p.end == |r.A()| + |r.D()|
  {
    MarkedOffsets(t, text, r);
  }

  lemma {:induction false} PlaceWhere(t: Texts, text: string, b: nat, e: nat, p: Place)
    requires Where(Lines(text), LimitsMarker(t.limitsBegin)) == [b]
    requires Where(Lines(text), LimitsMarker(t.limitsEnd)) == [e] && b < e && p == PlaceOf(Lines(text), b, e)
    ensures LimitsPlace(t, text) == Ok(Some(p))
  {
  }

  lemma {:induction false} SplitTwice(lines: seq<Line>, b: nat, e: nat, p: Line -> bool, q: Line -> bool)
    requires b < e < |lines| && NoneOf(lines[..b], p) && NoneOf(lines[b + 1..], p) && NoneOf(lines[..e], q)
            && NoneOf(lines[e + 1..], q)
    ensures lines == lines[..b] + [lines[b]] + lines[b + 1..e] + [lines[e]] + lines[e + 1..]
    ensures NoneOf(lines[..b], q) && NoneOf(lines[b + 1..e], q) && NoneOf(lines[b + 1..e], p)
            && NoneOf(lines[e + 1..], p)
  {
    assert lines[..e] == lines[..b] + ([lines[b]] + lines[b + 1..e]);
    assert lines[b + 1..] == lines[b + 1..e] + ([lines[e]] + lines[e + 1..]);
    NoneParts(lines[..b], [lines[b]] + lines[b + 1..e], q);
    NoneParts([lines[b]], lines[b + 1..e], q);
    NoneParts(lines[b + 1..e], [lines[e]] + lines[e + 1..], p);
    NoneParts([lines[e]], lines[e + 1..], p);
  }

  /** A rendered text with markers has exactly one pair of them. */
  lemma {:induction false} RenderedIsMarked(t: Texts, text: string) returns (r: Region)
    requires LimitsPlace(t, text).Ok? && LimitsPlace(t, text).value.Some?
    ensures Marked(t, text, r)
  {
    var lines := Lines(text);
    var p, q := LimitsMarker(t.limitsBegin), LimitsMarker(t.limitsEnd);
    var b, e := Where(lines, p)[0], Where(lines, q)[0];
    SingleSplits(lines, p);
    SingleSplits(lines, q);
    SplitTwice(lines, b, e, p, q);
    r := Region(lines[..b], lines[b], lines[b + 1..e], lines[e], lines[e + 1..]);
  }

  lemma {:induction false} NoneParts(a: seq<Line>, b: seq<Line>, p: Line -> bool)
    ensures NoneOf(a + b, p) <==> NoneOf(a, p) && NoneOf(b, p)
  {
    assert forall l | l in a :: l in a + b;
    assert forall l | l in b :: l in a + b;
  }

  // ---------- the block among other text ----------

  /** The text ends at a line boundary. */
  predicate AtLineStart(a: string) {
    a == [] || IsLineBreak(a[|a| - 1])
  }

  lemma {:induction false} LinesAmong(a: string, block: string, b: string)
    requires AtLineStart(a) && block != [] && block[0] != '\n' && block[|block| - 1] == '\n'
    ensures Lines((a + block) + b) == (Lines(a) + Lines(block)) + Lines(b)
  {
    LinesPlus(a, block);
    assert (a + block)[|a + block| - 1] == '\n';
    LinesPlus(a + block, b);
  }

  lemma {:induction false} BlockEdges(t: Texts)
    requires WellFormed(t)
    ensures var block := t.limits;
            |block| >= 1 && block[0] == '\t' && block[|block| - 1] == '\n'
  {
    var head, tail := "\t" + t.limitsBegin + "\n", t.limitsBody + ("\t" + t.limitsEnd + "\n");
    LimitsFacts(t);
    assert head[0] == '\t' && tail[|tail| - 1] == '\n';
    assert (head + tail)[|head| + |tail| - 1] == tail[|tail| - 1];
  }

  function RegionAround(t: Texts, a: string, b: string): Region {
    Region(Lines(a), MarkerLine(t.limitsBegin), Lines(t.limitsBody), MarkerLine(t.limitsEnd), Lines(b))
  }

  lemma {:induction false} RegionParts(t: Texts, a: string, b: string)
    requires WellFormed(t)
    ensures var r := RegionAround(t, a, b);
            r.A() == a && r.D() == t.limits && r.B() == b && |a| < r.EndStart() < |a| + |t.limits|
  {
    LimitsLines(t);
    JoinLines(a);
    JoinLines(b);
    JoinLines(t.limits);
    BlockEndStart(RegionAround(t, a, b));
  }

  /** The limits block put between two texts without limits markers. */
  lemma {:induction false} WithLimits(t: Texts, a: string, b: string)
    requires WellFormed(t) && AtLineStart(a) && NoLimits(t, Lines(a)) && NoLimits(t, Lines(b))
    ensures Marked(t, (a + t.limits) + b, RegionAround(t, a, b))
  {
    AroundText(t, a, b);
    LimitsFacts(t);
    MarkerLineIs(t, t.limitsBegin);
    MarkerLineIs(t, t.limitsEnd);
  }

  lemma {:induction false} AroundText(t: Texts, a: string, b: string)
    requires WellFormed(t) && AtLineStart(a)
    ensures Lines((a + t.limits) + b) == RegionAround(t, a, b).All()
  {
    BlockEdges(t);
    LinesAmong(a, t.limits, b);
    LimitsLines(t);
    Regroup(RegionAround(t, a, b));
  }

  lemma {:induction false} BlockEndStart(r: Region)
    requires r.last.text != ""
    ensures r.EndStart() < |r.A()| + |r.D()|
    ensures r.first.text != "" ==> |r.A()| < r.EndStart()
  {
    RegroupOffsets(r);
    JoinPlus([r.first] + r.middle, [r.last]);
    assert ([r.first] + r.middle)[0] == r.first;
  }

  /** The global block opens in this text and is still open at its end. */
  predicate OpenAt(a: string) {
    var o := Skip(a, false);
    o < |a| && a[o] == '{' && Find(START, a[o..]) == None
  }

  function StateAfter(a: string): Lex {
    Run(START, a[Skip(a, false)..])
  }

  lemma {:induction false} OpenState(a: string)
    requires OpenAt(a)
    ensures StateAfter(a).depth >= 1 && Sane(StateAfter(a))
  {
    var s := a[Skip(a, false)..];
    RunSane(START, s);
    assert Step(START, s[0]).depth == 1;
    OpenDepth(Step(START, s[0]), s[1..]);
  }

  lemma {:induction false} FindThree(st: Lex, s: string, x: string, b: string)
    requires Find(st, s) == None && Find(Run(st, s), x) == None
    ensures Find(st, (s + x) + b) == Shifted(|s| + |x|, Find(Run(Run(st, s), x), b))
  {
    FindPlus(st, s, x);
    RunPlus(st, s, x);
    FindPlus(st, s + x, b);
  }

  lemma {:induction false} SkipOpen(a: string, x: string, b: string)
    requires OpenAt(a)
    ensures var o, text := Skip(a, false), (a + x) + b;
            Skip(text, false) == o && o < |text| && text[o] == a[o] && text[o..] == (a[o..] + x) + b
  {
    SkipPlus(a, x + b, false);
    assert (a + x) + b == a + (x + b);
  }

  lemma {:induction false} FindThrough(s: string, st: Lex, x: string, b: string)
    requires Find(START, s) == None && Run(START, s) == st
    requires Find(st, x) == None && Run(st, x) == Step(st, '\n')
    ensures Find(START, (s + x) + b) == Shifted(|s| + |x|, Find(Step(st, '\n'), b))
  {
    FindThree(START, s, x, b);
  }

  /** A stretch that acts on the scanner like a newline does not matter for the rest. */
  lemma {:induction false} SpanThrough(a: string, x: string, b: string)
    requires OpenAt(a) && Find(StateAfter(a), x) == None && Run(StateAfter(a), x) == Step(StateAfter(a), '\n')
    ensures GlobalSpan((a + x) + b) == SpanFrom(a, |a| + |x|, Find(Step(StateAfter(a), '\n'), b))
  {
    var o, s := Skip(a, false), a[Skip(a, false)..];
    SkipOpen(a, x, b);
    FindThrough(s, StateAfter(a), x, b);
    SpanAt((a + x) + b, o, (s + x) + b, |s| + |x|, Find(Step(StateAfter(a), '\n'), b));
  }

  lemma {:induction false} SpanAt(text: string, o: nat, tail: string, n: nat, at: Option<nat>)
    requires Skip(text, false) == o < |text| && text[o] == '{' && text[o..] == tail
            && Find(START, tail) == Shifted(n, at)
    ensures GlobalSpan(text) == if at.Some? then Ok(Some(Span(o, o + n + at.value))) else Err(UnterminatedGlobalBlock)
  {
    SpanIs(text, o, tail);
  }

  /** The span of a block opened in `a` whose closing brace is found `at` places after `from`. */
  function SpanFrom(a: string, from: nat, at: Option<nat>): Result<Option<Span>, CaddyMergeError> {
    if at.Some? then Ok(Some(Span(Skip(a, false), from + at.value))) else Err(UnterminatedGlobalBlock)
  }

  lemma {:induction false} SpanIs(text: string, o: nat, tail: string)
    requires Skip(text, false) == o < |text| && text[o] == '{' && text[o..] == tail
    ensures GlobalSpan(text) ==
            if Find(START, tail).Some? then Ok(Some(Span(o, o + Find(START, tail).value)))
            else Err(UnterminatedGlobalBlock)
  {
  }

  lemma {:induction false} NewlineThrough(a: string, b: string)
    requires OpenAt(a)
    ensures GlobalSpan((a + "\n") + b) == SpanFrom(a, |a| + 1, Find(Step(StateAfter(a), '\n'), b))
  {
    assert "\n"[1..] == [];
    SpanThrough(a, "\n", b);
  }

  /** How many spaces stand in for the region does not matter either. */
  lemma {:induction false} ServersThrough(a: string, k: nat, b: string, o: nat, n: nat, wide: Alnum)
    requires o < |a| && n <= |b| && k >= 1
    ensures HasServers((a + Spaces(k)) + b, o, |a| + k + n, wide) == HasServers((a + " ") + b, o, |a| + 1 + n, wide)
  {
    var rest := a[o + 1..];
    assert ((a + Spaces(k)) + b)[o + 1..|a| + k + n] == (rest + Spaces(k)) + b[..n];
    assert ((a + " ") + b)[o + 1..|a| + 1 + n] == (rest + " ") + b[..n];
    DirRunPlus(INSIDE, rest, Spaces(k), wide);
    DirRunPlus(INSIDE, rest, " ", wide);
    DirRunPlus(INSIDE, rest + Spaces(k), b[..n], wide);
    DirRunPlus(INSIDE, rest + " ", b[..n], wide);
    SpacesRun(DirRun(INSIDE, rest, wide), k, wide);
  }

  /** With a newline in place of what stands between, the global block encloses that place. */
  predicate Encloses(a: string, b: string) {
    match GlobalSpan((a + "\n") + b)
    case Ok(Some(Span(opening, closing))) => opening < |a| < closing
    case _ => false
  }

  /** The limits block between the two texts stands inside the global braces. */
  predicate BlockInside(t: Texts, a: string, b: string) {
    match GlobalSpan((a + t.limits) + b)
    case Ok(Some(Span(opening, closing))) => opening < |a| && |a| + |t.limits| <= closing
    case _ => false
  }

  /** The block opens and closes no brace, so only the text around it decides. */
  lemma {:induction false} BlockInsideIff(t: Texts, a: string, b: string)
    requires WellFormed(t) && OpenAt(a)
    ensures BlockInside(t, a, b) <==> Encloses(a, b)
  {
    OpenThroughLimits(t, a);
    SpanThrough(a, t.limits, b);
    NewlineThrough(a, b);
  }

  /**
   With an empty line in place of the old region the global block still encloses
   that place and has no servers option of its own.
   */
  predicate Settles(t: Texts, a: string, b: string) {
    match GlobalSpan((a + "\n") + b)
    case Ok(Some(Span(opening, closing))) => opening < |a| < closing
        && !HasServers((a + " ") + b, opening, closing, t.wide)
    case _ => false
  }

  /** A region replaced, with the text given in its parts. */
  lemma {:induction false} ReplaceIs(t: Texts, a: string, gone: string, b: string, endStart: nat, o: nat, c: nat)
    requires |a| <= endStart <= |a| + |gone| && GlobalSpan((a + gone) + b) == Ok(Some(Span(o, c)))
    ensures var blank := (a + Spaces(|gone|)) + b;
            o < c <= |blank|
            && ReplaceLimits(t, (a + gone) + b, |a|, endStart, |a| + |gone|) ==
               if !(o < |a| < endStart < c) then Err(LimitsOutsideGlobalBlock)
               else if HasServers(blank, o, c, t.wide) then Err(UnmanagedServers)
               else Ok((a + t.limits) + b)
  {
    var text := (a + gone) + b;
    assert text[..|a|] == a && text[|a| + |gone|..] == b;
  }

  lemma {:induction false} SettlesIs(t: Texts, a: string, b: string)
    requires OpenAt(a)
    ensures var at := Find(Step(StateAfter(a), '\n'), b);
            if at.None? then !Settles(t, a, b)
            else
              at.value < |b| && (Settles(t, a, b) <==>
                !HasServers((a + " ") + b, Skip(a, false), |a| + 1 + at.value, t.wide))
  {
    NewlineThrough(a, b);
    FindMeans(Step(StateAfter(a), '\n'), b);
  }

  /** Replacing the block by itself. */
  lemma {:induction false} ReplaceSame(t: Texts, a: string, b: string, endStart: nat)
    requires |a| < endStart < |a| + |t.limits| && OpenAt(a)
    requires Find(StateAfter(a), t.limits) == None && Run(StateAfter(a), t.limits) == Step(StateAfter(a), '\n')
    ensures var text := (a + t.limits) + b;
            var again := ReplaceLimits(t, text, |a|, endStart, |a| + |t.limits|);
            if Settles(t, a, b) then again == Ok(text) else again.Err?
  {
    var at := Find(Step(StateAfter(a), '\n'), b);
    SpanThrough(a, t.limits, b);
    SettlesIs(t, a, b);
    if at.Some? {
      ReplaceFound(t, a, b, endStart, Skip(a, false), at.value);
    } else {
      ReplaceUnclosed(t, (a + t.limits) + b, |a|, endStart, |a| + |t.limits|);
    }
  }

  lemma {:induction false} ReplaceUnclosed(t: Texts, text: string, begin: nat, endStart: nat, end: nat)
    requires begin <= endStart <= end <= |text| && GlobalSpan(text).Err?
    ensures ReplaceLimits(t, text, begin, endStart, end).Err?
  {
  }

  lemma {:induction false} ReplaceFound(t: Texts, a: string, b: string, endStart: nat, o: nat, n: nat)
    requires |a| < endStart < |a| + |t.limits| && o < |a| && n < |b|
    requires GlobalSpan((a + t.limits) + b) == Ok(Some(Span(o, |a| + |t.limits| + n)))
    ensures var text := (a + t.limits) + b;
            var again := ReplaceLimits(t, text, |a|, endStart, |a| + |t.limits|);
            if HasServers((a + " ") + b, o, |a| + 1 + n, t.wide) then again.Err? else again == Ok(text)
  {
    ReplaceIs(t, a, t.limits, b, endStart, o, |a| + |t.limits| + n);
    ServersThrough(a, |t.limits|, b, o, n, t.wide);
  }

  lemma {:induction false} RenderAt(t: Texts, text: string, p: Place)
    requires LimitsPlace(t, text) == Ok(Some(p))
    ensures PlaceIn(p, text) && RenderLimits(t, text) == ReplaceLimits(t, text, p.begin, p.endStart, p.end)
  {
  }

  /** Where the end marker line of the block starts, counted from the start of the text. */
  function BlockEnd(t: Texts, a: string, b: string): nat {
    RegionAround(t, a, b).EndStart()
  }

  lemma {:induction false} PlaceOfLimits(t: Texts, a: string, b: string)
    requires WellFormed(t) && AtLineStart(a) && NoLimits(t, Lines(a)) && NoLimits(t, Lines(b))
    ensures LimitsPlace(t, (a + t.limits) + b) == Ok(Some(Place(|a|, BlockEnd(t, a, b), |a| + |t.limits|)))
  {
    WithLimits(t, a, b);
    RegionParts(t, a, b);
    PlaceAmong(t, a, b, RegionAround(t, a, b));
  }

  lemma {:induction false} PlaceAmong(t: Texts, a: string, b: string, r: Region)
    requires t.limitsBegin != t.limitsEnd && r == RegionAround(t, a, b) && Marked(t, (a + t.limits) + b, r)
    requires r.A() == a && r.D() == t.limits
    ensures LimitsPlace(t, (a + t.limits) + b) == Ok(Some(Place(|a|, BlockEnd(t, a, b), |a| + |t.limits|)))
  {
    PlaceAt(t, (a + t.limits) + b, r, a, t.limits);
  }

  lemma {:induction false} PlaceAt(t: Texts, text: string, r: Region, a: string, d: string)
    requires t.limitsBegin != t.limitsEnd && Marked(t, text, r) && r.A() == a && r.D() == d
    ensures LimitsPlace(t, text) == Ok(Some(Place(|a|, r.EndStart(), |a| + |d|)))
  {
    var p := MarkedPlace(t, text, r);
  }

  lemma {:induction false} BlockEndInside(t: Texts, a: string, b: string)
    requires WellFormed(t)
    ensures |a| < BlockEnd(t, a, b) < |a| + |t.limits|
  {
    RegionParts(t, a, b);
  }

  lemma {:induction false} OpenThroughLimits(t: Texts, a: string)
    requires WellFormed(t) && OpenAt(a)
    ensures var st := StateAfter(a);
            Find(st, t.limits) == None && Run(st, t.limits) == Step(st, '\n')
  {
    OpenState(a);
    LimitsRun(t, StateAfter(a));
  }

  lemma {:induction false} RenderAgain(t: Texts, a: string, b: string, endStart: nat)
    requires WellFormed(t) && OpenAt(a) && |a| < endStart < |a| + |t.limits|
    requires LimitsPlace(t, (a + t.limits) + b) == Ok(Some(Place(|a|, endStart, |a| + |t.limits|)))
    ensures var text := (a + t.limits) + b;
            if Settles(t, a, b) then RenderLimits(t, text) == Ok(text) else RenderLimits(t, text).Err?
  {
    RenderAt(t, (a + t.limits) + b, Place(|a|, endStart, |a| + |t.limits|));
    OpenThroughLimits(t, a);
    ReplaceSame(t, a, b, endStart);
  }

  /** Rendering a text that holds the block: unchanged, or an error. */
  lemma {:induction false} RenderWithLimits(t: Texts, a: string, b: string)
    requires WellFormed(t) && AtLineStart(a) && NoLimits(t, Lines(a)) && NoLimits(t, Lines(b)) && OpenAt(a)
    ensures var text := (a + t.limits) + b;
            if Settles(t, a, b) then RenderLimits(t, text) == Ok(text) else RenderLimits(t, text).Err?
  {
    PlaceOfLimits(t, a, b);
    BlockEndInside(t, a, b);
    RenderAgain(t, a, b, BlockEnd(t, a, b));
  }
}
