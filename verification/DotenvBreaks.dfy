/**
 When a printed dotenv file comes back: exactly when no value holds a line break.

 No parsed line ever gives a value with a line break. Inside a printed value a
 quote always follows a backslash, so a line after the first one can not open a
 quoted value, and the first line unescapes to part of the printed value.
 */
module DotenvBreaks {
  import opened Wrappers
  import opened PyLines
  import opened PyText
  import opened Dotenv

  // ---------- escaped text ----------

  /** A backslash stands before position `i`. */
  predicate Escaped(s: string, i: nat)
    requires i < |s|
  {
    i > 0 && s[i - 1] == '\\'
  }

  lemma {:induction false} EscapeQuotes(s: string)
    ensures forall i | 0 <= i < |Escape(s)| && Escape(s)[i] == '"' :: Escaped(Escape(s), i)
  {
    if s != "" {
      var e, rest := EscapeChar(s[0]), Escape(s[1..]);
      EscapeQuotes(s[1..]);
      forall i | 0 <= i < |e + rest| && (e + rest)[i] == '"' ensures Escaped(e + rest, i) {
        if i >= |e| { assert rest[i - |e|] == '"' && Escaped(rest, i - |e|); }
      }
    }
  }

  lemma {:induction false} EscapeKeepsBreaks(s: string)
    requires Unbroken(Escape(s))
    ensures Unbroken(s)
  {
    if s != "" {
      var e, rest := EscapeChar(s[0]), Escape(s[1..]);
      assert (e + rest)[|e| - 1] == s[0];
      assert forall c | c in rest :: c in e + rest;
      EscapeKeepsBreaks(s[1..]);
      assert s == [s[0]] + s[1..];
    }
  }

  /** A cut anywhere in an escaped text unescapes to a text without new line breaks. */
  lemma {:induction false} UnescapePrefix(s: string, n: nat)
    requires n <= |Escape(s)| && Unbroken(Escape(s)[..n])
    ensures Unbroken(Unescape(Escape(s)[..n]))
  {
    if s != "" && n > 0 {
      var e, rest := EscapeChar(s[0]), Escape(s[1..]);
      var cut := (e + rest)[..n];
      if |e| == 1 {
        assert cut[0] == s[0] && cut[1..] == rest[..n - 1];
        UnescapeCut(s, rest, cut, n - 1);
      } else if n > 1 {
        assert cut[0] == '\\' && cut[1] == s[0] && cut[2..] == rest[..n - 2];
        UnescapeCut(s, rest, cut, n - 2);
      }
    }
  }

  lemma {:induction false} UnescapeCut(s: string, rest: string, cut: string, n: nat)
    requires s != "" && rest == Escape(s[1..]) && n <= |rest| && Unbroken(cut) && forall c | c in rest[..n] :: c in cut
    ensures Unbroken(Unescape(rest[..n]))
    decreases s, 0
  {
    UnescapePrefix(s[1..], n);
  }

  // ---------- trimming ----------

  lemma {:induction false} TrimLeftIs(s: string) returns (j: nat)
    ensures j <= |s| && TrimLeft(s) == s[j..]
    ensures j > 0 ==> IsSpace(s[j - 1])
    ensures j < |s| ==> !IsSpace(s[j])
  {
    j := 0;
    if s != "" && IsSpace(s[0]) {
      var i := TrimLeftIs(s[1..]);
      j := i + 1;
    }
  }

  lemma {:induction false} TrimRightIs(s: string) returns (k: nat)
    ensures k <= |s| && TrimRight(s) == s[..k]
    ensures k > 0 ==> !IsSpace(s[k - 1])
    ensures forall i | k <= i < |s| :: IsSpace(s[i])
  {
    k := |s|;
    if s != "" && IsSpace(s[|s| - 1]) {
      k := TrimRightIs(s[..|s| - 1]);
    }
  }

  lemma {:induction false} TrimIs(s: string) returns (j: nat, k: nat)
    ensures j <= k <= |s| && Trim(s) == s[j..k]
    ensures j > 0 ==> IsSpace(s[j - 1])
  {
    j := TrimLeftIs(s);
    var m := TrimRightIs(s[j..]);
    k := j + m;
  }

  lemma {:induction false} FirstEqualsIs(s: string)
    requires '=' in s
    ensures FirstEquals(s) < |s| && s[FirstEquals(s)] == '='
  {
    if s[0] != '=' { FirstEqualsIs(s[1..]); }
  }

  // ---------- one parsed line ----------

  predicate Good(line: string) {
    ParseLine(line).Some? ==> Unbroken(ParseLine(line).value.value)
  }

  /** Quotes follow a backslash, but for one at the very end. */
  predicate QuotesOk(c: string) {
    forall i | 0 <= i < |c| && c[i] == '"' :: Escaped(c, i) || i == |c| - 1
  }

  lemma {:induction false} UnbrokenSlice(c: string, p: nat, r: nat)
    requires Unbroken(c) && p <= r <= |c|
    ensures Unbroken(c[p..r])
  {
    assert forall x | x in c[p..r] :: x in c;
  }

  /** Where the value of a line stands: after the first sign and white space. */
  lemma {:induction false} ValuePlace(c: string, n: nat) returns (p: nat, r: nat)
    requires n < |Trim(c)| && Trim(c)[n] == '='
    ensures 0 < p <= r <= |c| && Trim(Trim(c)[n + 1..]) == c[p..r] && c[p - 1] != '\\'
  {
    var j, k := TrimIs(c);
    var j2, k2 := SignAndValue(Trim(c), n);
    p, r := j + j2, j + k2;
    SliceOfSlice(c, j, k, j2, k2);
  }

  lemma {:induction false} SignAndValue(t: string, n: nat) returns (j: nat, k: nat)
    requires n < |t| && t[n] == '='
    ensures 0 < j <= k <= |t| && Trim(t[n + 1..]) == t[j..k] && t[j - 1] != '\\'
  {
    var j2, k2 := TrimIs(t[n + 1..]);
    j, k := n + 1 + j2, n + 1 + k2;
    SliceOfSlice(t, n + 1, |t|, j2, k2);
    assert t[n + 1..|t|] == t[n + 1..];
  }

  lemma {:induction false} ValueIs(c: string) returns (n: nat)
    requires ParseLine(c).Some?
    ensures n < |Trim(c)| && Trim(c)[n] == '='
    ensures ParseLine(c).value.value == Unquote(Trim(Trim(c)[n + 1..]))
  {
    FirstEqualsIs(Trim(c));
    n := FirstEquals(Trim(c));
  }

  lemma {:induction false} SliceOfSlice(c: string, j: nat, k: nat, j2: nat, k2: nat)
    requires j <= k <= |c| && j2 <= k2 <= k - j
    ensures c[j..k][j2..k2] == c[j + j2..j + k2]
    ensures j2 > 0 ==> c[j..k][j2 - 1] == c[j + j2 - 1]
  {
    var x, y := c[j..k][j2..k2], c[j + j2..j + k2];
    assert |x| == |y| && forall i | 0 <= i < |x| :: x[i] == y[i];
  }

  lemma {:induction false} UnquotedUnbroken(v: string)
    requires Unbroken(v) && !(|v| >= 2 && v[0] == '"')
    ensures Unbroken(Unquote(v))
  {
    if |v| >= 2 { UnbrokenSlice(v, 1, |v| - 1); }
  }

  lemma {:induction false} ContinuationGood(c: string)
    requires Unbroken(c) && QuotesOk(c)
    ensures Good(c)
  {
    if ParseLine(c).Some? {
      var n := ValueIs(c);
      var p, r := ValuePlace(c, n);
      UnbrokenSlice(c, p, r);
      UnquotedUnbroken(c[p..r]);
    }
  }

  /** The start of a printed line, cut inside its quoted value. */
  function Opened(key: string, part: string): string {
    key + ("=" + ("\"" + part))
  }

  lemma {:induction false} OpenedTrim(key: string, part: string) returns (m: nat)
    requires KeyOk(key)
    ensures m <= |part| && Trim(Opened(key, part)) == Opened(key, part[..m]) && Trimmed(Opened(key, part[..m]))
  {
    var c := Opened(key, part);
    assert c[0] == key[0] && c[|key| + 1] == '"';
    var k := TrimRightIs(c);
    m := k - |key| - 2;
    assert c[..k] == Opened(key, part[..m]);
  }

  lemma {:induction false} OpenedParsed(key: string, part: string)
    requires KeyOk(key) && Trimmed(Opened(key, part))
    ensures ParseLine(Opened(key, part)) == Some(Entry(key, Unquote("\"" + part)))
  {
    var line, rest := Opened(key, part), "\"" + part;
    assert rest[|rest| - 1] == line[|line| - 1];
    KeyValueParsed(key, rest);
  }

  lemma {:induction false} ParseTrimmed(a: string, b: string)
    requires Trim(a) == b && Trimmed(b)
    ensures ParseLine(a) == ParseLine(b)
  {
    TrimmedIsItsTrim(b);
  }

  lemma {:induction false} FirstGood(key: string, value: string, part: string, n: nat)
    requires KeyOk(key) && n <= |Escape(value)| && part == Escape(value)[..n] && Unbroken(part)
    ensures Good(Opened(key, part))
  {
    var m := OpenedTrim(key, part);
    assert part[..m] == Escape(value)[..m];
    ParseTrimmed(Opened(key, part), Opened(key, part[..m]));
    OpenedParsed(key, part[..m]);
    UnbrokenSlice(part, 0, m);
    OpenedUnquoted(value, m);
  }

  lemma {:induction false} OpenedUnquoted(value: string, m: nat)
    requires m <= |Escape(value)| && Unbroken(Escape(value)[..m])
    ensures Unbroken(Unquote("\"" + Escape(value)[..m]))
  {
    var part := Escape(value)[..m];
    var v := "\"" + part;
    if m > 0 && part[m - 1] == '"' {
      assert v[1..|v| - 1] == part[..m - 1] == Escape(value)[..m - 1];
      UnbrokenSlice(part, 0, m - 1);
      UnescapePrefix(value, m - 1);
    }
  }

  // ---------- the lines of a printed value ----------

  predicate Closing(s: string, i: nat)
    requires i < |s|
  {
    i + 1 == |s| || (i + 2 == |s| && s[i + 1] == '\n')
  }

  predicate QuotesFrom(s: string, n: nat) {
    forall i | n <= i < |s| && s[i] == '"' :: Escaped(s, i) || Closing(s, i)
  }

  ghost predicate GoodLines(lines: seq<Line>) {
    forall l | l in lines :: Good(Content(l))
  }

  lemma {:induction false} FirstContent(s: string) returns (k: nat)
    requires s != ""
    ensures k <= LineLen(s) && Content(Line(s[..LineLen(s)])) == s[..k] && Unbroken(s[..k])
    ensures k < |s| ==> k < LineLen(s) && IsLineBreak(s[k])
    ensures LineLen(s) < |s| ==> IsLineBreak(s[LineLen(s) - 1])
  {
    k := 0;
    if !IsLineBreak(s[0]) {
      if |s| == 1 {
        k := 1;
      } else {
        var i := FirstContent(s[1..]);
        k := i + 1;
        FirstBehind(s, i);
      }
    }
  }

  lemma {:induction false} FirstBehind(s: string, i: nat)
    requires |s| > 1 && !IsLineBreak(s[0]) && i <= |s| - 1 && Unbroken(s[1..][..i])
    requires Content(Line(s[1..][..LineLen(s[1..])])) == s[1..][..i]
    ensures Content(Line(s[..LineLen(s)])) == s[..i + 1] && Unbroken(s[..i + 1])
  {
    var x := s[1..][..LineLen(s[1..])];
    assert s[..LineLen(s)] == [s[0]] + x && s[..i + 1] == [s[0]] + s[1..][..i];
    ContentBehind(s[0], x);
  }

  lemma {:induction false} ContentBehind(c: char, x: string)
    requires !IsLineBreak(c) && x != ""
    ensures Content(Line([c] + x)) == [c] + Content(Line(x))
  {
  }

  lemma {:induction false} RestQuotes(s: string, n: nat)
    requires 0 < n <= |s| && QuotesFrom(s, n) && (n < |s| ==> IsLineBreak(s[n - 1]))
    ensures QuotesFrom(s[n..], 0)
  {
    var rest := s[n..];
    forall i | 0 <= i < |rest| && rest[i] == '"' ensures Escaped(rest, i) || Closing(rest, i) {
      assert rest[i] == s[n + i] && (i + 1 < |rest| ==> rest[i + 1] == s[n + i + 1]);
      if i > 0 { assert rest[i - 1] == s[n + i - 1]; }
      assert Closing(s, n + i) ==> Closing(rest, i);
    }
  }

  lemma {:induction false} NotClosing(s: string, i: nat, k: nat)
    requires i + 1 < k <= |s| && Unbroken(s[..k])
    ensures !Closing(s, i)
  {
    var c := s[..k];
    assert c[i + 1] == s[i + 1] && c[i + 1] in c;
  }

  lemma {:induction false} QuoteAt(s: string, i: nat, k: nat)
    requires QuotesFrom(s, 0) && i < k <= |s| && Unbroken(s[..k]) && s[i] == '"'
    ensures Escaped(s, i) || i == k - 1
  {
    if i + 1 < k { NotClosing(s, i, k); }
  }

  lemma {:induction false} ContentQuotes(s: string, c: string)
    requires QuotesFrom(s, 0) && c <= s && Unbroken(c)
    ensures QuotesOk(c)
  {
    assert c == s[..|c|];
    forall i | 0 <= i < |c| && c[i] == '"' ensures Escaped(c, i) || i == |c| - 1 {
      QuoteAt(s, i, |c|);
      assert i > 0 ==> s[i - 1] == c[i - 1];
    }
  }

  lemma {:induction false} FirstAndRest(s: string)
    requires s != "" && Good(Content(Line(s[..LineLen(s)]))) && GoodLines(Lines(s[LineLen(s)..]))
    ensures GoodLines(Lines(s))
  {
  }

  lemma {:induction false} ContinuationLines(s: string)
    requires QuotesFrom(s, 0)
    ensures GoodLines(Lines(s))
    decreases |s|
  {
    if s != "" {
      var k := FirstContent(s);
      ContentQuotes(s, s[..k]);
      ContinuationGood(s[..k]);
      RestQuotes(s, LineLen(s));
      ContinuationLines(s[LineLen(s)..]);
      FirstAndRest(s);
    }
  }

  // ---------- the lines of one entry ----------

  predicate Ending(s: string) {
    s == "" || s == "\n"
  }

  /** An entry whose value is quoted, with what follows its line. */
  function QuotedText(key: string, esc: string, end: string): string {
    Opened(key, esc + ("\"" + end))
  }

  lemma {:induction false} QuotedTextIs(e: Entry, end: string)
    requires !SafeUnquoted(e.value)
    ensures PrintedLine(e) + end == QuotedText(e.key, Escape(e.value), end)
  {
    DotenvValueIs(e.value);
    var esc := Escape(e.value);
    assert (e.key + "=" + ("\"" + esc + "\"")) + end == e.key + ("=" + ("\"" + (esc + ("\"" + end))));
  }

  /** The first line ends inside the quoted value. */
  lemma {:induction false} FirstBreak(key: string, esc: string, end: string) returns (n: nat)
    requires KeyOk(key) && !Unbroken(esc)
    ensures var s := QuotedText(key, esc, end);
            && n < |esc| && Unbroken(esc[..n]) && |key| + 2 <= LineLen(s)
            && Content(Line(s[..LineLen(s)])) == Opened(key, esc[..n])
            && (LineLen(s) < |s| ==> IsLineBreak(s[LineLen(s) - 1]))
  {
    var s, h := QuotedText(key, esc, end), |key| + 2;
    var k := FirstContent(s);
    assert s == (key + "=\"") + (esc + ("\"" + end));
    BreakInside(key + "=\"", esc, "\"" + end, k);
    n := k - h;
    OpenedSlice(key, esc, "\"" + end, n);
  }

  lemma {:induction false} OpenedSlice(key: string, esc: string, rest: string, n: nat)
    requires n <= |esc|
    ensures var s, k := Opened(key, esc + rest), |key| + 2 + n;
            s[..k] == Opened(key, esc[..n]) && (Unbroken(s[..k]) ==> Unbroken(esc[..n]))
  {
    var s, k := Opened(key, esc + rest), |key| + 2 + n;
    assert s[..k] == Opened(key, esc[..n]);
    assert forall c | c in esc[..n] :: c in Opened(key, esc[..n]);
  }

  /** The first line break of three parts of which only the second surely has one. */
  lemma {:induction false} BreakInside(a: string, b: string, c: string, k: nat)
    requires Unbroken(a) && !Unbroken(b) && k <= |a + (b + c)| && Unbroken((a + (b + c))[..k])
    requires k < |a + (b + c)| ==> IsLineBreak((a + (b + c))[k])
    ensures |a| <= k < |a| + |b|
  {
    if k < |a| {
      NoBreakIn(a, b + c, k);
    } else if k >= |a| + |b| {
      assert a + (b + c) == (a + b) + c;
      BreakKept(a, b, c, k);
    }
  }

  lemma {:induction false} NoBreakIn(a: string, b: string, k: nat)
    requires Unbroken(a) && k < |a|
    ensures !IsLineBreak((a + b)[k])
  {
    assert (a + b)[k] == a[k] && a[k] in a;
  }

  lemma {:induction false} BreakKept(a: string, b: string, c: string, k: nat)
    requires !Unbroken(b) && |a| + |b| <= k <= |(a + b) + c|
    ensures !Unbroken(((a + b) + c)[..k])
  {
    var x :| x in b && IsLineBreak(x);
    var i :| 0 <= i < |b| && b[i] == x;
    assert ((a + b) + c)[..k][|a| + i] == x;
  }

  lemma {:induction false} QuotesAfter(key: string, value: string, end: string)
    requires Ending(end)
    ensures QuotesFrom(QuotedText(key, Escape(value), end), |key| + 2)
  {
    var esc, h := Escape(value), |key| + 2;
    var s := QuotedText(key, esc, end);
    EscapeQuotes(value);
    forall i | h <= i < |s| && s[i] == '"' ensures Escaped(s, i) || Closing(s, i) {
      if i < h + |esc| {
        assert s[i] == esc[i - h] && s[i - 1] == esc[i - h - 1];
      } else {
        assert s[h + |esc|..] == "\"" + end && i == h + |esc|;
        if end != "" { assert s[h + |esc|..][1] == s[i + 1]; }
      }
    }
  }

  lemma {:induction false} FirstLineGood(key: string, value: string, end: string)
    requires KeyOk(key) && !Unbroken(value)
    ensures var s := QuotedText(key, Escape(value), end);
            && |key| + 2 <= LineLen(s) && Good(Content(Line(s[..LineLen(s)])))
            && (LineLen(s) < |s| ==> IsLineBreak(s[LineLen(s) - 1]))
  {
    if Unbroken(Escape(value)) { EscapeKeepsBreaks(value); }
    var n := FirstBreak(key, Escape(value), end);
    FirstGood(key, value, Escape(value)[..n], n);
  }

  lemma {:induction false} RestGood(s: string, h: nat, n: nat)
    requires 0 < n <= |s| && h <= n && QuotesFrom(s, h) && (n < |s| ==> IsLineBreak(s[n - 1]))
    ensures GoodLines(Lines(s[n..]))
  {
    RestQuotes(s, n);
    ContinuationLines(s[n..]);
  }

  lemma {:induction false} BrokenEntryGood(key: string, value: string, end: string)
    requires KeyOk(key) && !Unbroken(value) && Ending(end)
    ensures GoodLines(Lines(QuotedText(key, Escape(value), end)))
  {
    var s := QuotedText(key, Escape(value), end);
    FirstLineGood(key, value, end);
    QuotesAfter(key, value, end);
    RestGood(s, |key| + 2, LineLen(s));
    FirstAndRest(s);
  }

  lemma {:induction false} WholeEntryGood(e: Entry, end: string)
    requires EntryOk(e) && Ending(end)
    ensures GoodLines(Lines(PrintedLine(e) + end))
  {
    var line := PrintedLine(e);
    LineRoundTrip(e);
    if end == "" {
      WholeLine(line);
      assert line + end == line;
    } else {
      EndedLine(line);
    }
  }

  lemma {:induction false} WholeLine(line: string)
    requires line != "" && Unbroken(line) && Good(line)
    ensures GoodLines(Lines(line))
  {
    UnbrokenLine(line);
    assert line[|line| - 1] in line;
  }

  lemma {:induction false} EndedLine(line: string)
    requires Unbroken(line) && Good(line)
    ensures GoodLines(Lines(line + "\n"))
  {
    OneLineText(line);
    EndedContent(line, line + "\n");
  }

  lemma {:induction false} EndedContent(line: string, text: string)
    requires Unbroken(line) && text == line + "\n"
    ensures Content(Line(text)) == line
  {
    assert text[..|line|] == line;
    if line != "" { assert text[|text| - 2] == line[|line| - 1] && line[|line| - 1] in line; }
  }

  lemma {:induction false} SafeIsUnbroken(value: string)
    requires SafeUnquoted(value)
    ensures Unbroken(value)
  {
  }

  lemma {:induction false} EntryGood(e: Entry, end: string)
    requires KeyOk(e.key) && Ending(end)
    ensures GoodLines(Lines(PrintedLine(e) + end))
  {
    if Unbroken(e.value) {
      WholeEntryGood(e, end);
    } else {
      if SafeUnquoted(e.value) { SafeIsUnbroken(e.value); }
      QuotedTextIs(e, end);
      BrokenEntryGood(e.key, e.value, end);
    }
  }

  // ---------- the whole file ----------

  ghost predicate KeysOk(entries: seq<Entry>) {
    forall i | 0 <= i < |entries| :: KeyOk(entries[i].key)
  }

  lemma {:induction false} MoreGood(a: string, b: string)
    requires (a == "" || a[|a| - 1] == '\n') && GoodLines(Lines(a)) && GoodLines(Lines(b))
    ensures GoodLines(Lines(a + b))
  {
    LinesPlus(a, b);
  }

  lemma {:induction false} EndedGood(entries: seq<Entry>)
    requires KeysOk(entries)
    ensures GoodLines(Lines(EndedText(entries)))
    ensures EndedText(entries) == "" || EndedText(entries)[|EndedText(entries)| - 1] == '\n'
  {
    if entries != [] {
      var front, last := entries[..|entries| - 1], entries[|entries| - 1];
      EndedGood(front);
      EntryGood(last, "\n");
      MoreGood(EndedText(front), PrintedLine(last) + "\n");
    }
  }

  lemma {:induction false} PrintedGood(entries: seq<Entry>)
    requires KeysOk(entries)
    ensures GoodLines(Lines(Printed(entries)))
  {
    if entries != [] {
      var front, last := entries[..|entries| - 1], entries[|entries| - 1];
      PrintedIsEnded(entries);
      EndedGood(front);
      EntryGood(last, "");
      assert PrintedLine(last) + "" == PrintedLine(last);
      MoreGood(EndedText(front), PrintedLine(last));
    }
  }

  ghost predicate AllUnbroken(m: map<string, string>) {
    forall k | k in m :: Unbroken(m[k])
  }

  lemma {:induction false} ParsedUnbroken(lines: seq<Line>)
    requires GoodLines(lines)
    ensures AllUnbroken(ParsedLines(Contents(lines)))
  {
    if lines != [] {
      var front, last := lines[..|lines| - 1], lines[|lines| - 1];
      assert last in lines && forall l | l in front :: l in lines;
      ParsedUnbroken(front);
      assert (Contents(front) + [Content(last)])[..|Contents(front)|] == Contents(front);
    }
  }

  /** No value read back from a printed file has a line break, whatever was printed. */
  lemma {:induction false} NoBreakComesBack(entries: seq<Entry>)
    requires KeysOk(entries)
    ensures AllUnbroken(ParsedLines(SplitLines(Printed(entries))))
  {
    PrintedGood(entries);
    ParsedUnbroken(Lines(Printed(entries)));
  }

  /** With distinct keys a printed file comes back exactly when no value has a line break. */
  lemma {:induction false} FileRoundTripIff(entries: seq<Entry>)
    requires KeysOk(entries) && DistinctKeys(entries)
    ensures ParsedLines(SplitLines(Printed(entries))) == ToMap(entries) <==>
            forall i | 0 <= i < |entries| :: Unbroken(entries[i].value)
  {
    NoBreakComesBack(entries);
    NothingLost(entries);
    if forall i | 0 <= i < |entries| :: Unbroken(entries[i].value) {
      FileRoundTrip(entries);
    }
  }

  /** In particular for a single entry. */
  lemma {:induction false} EntryRoundTripIff(e: Entry)
    requires KeyOk(e.key)
    ensures ParsedLines(SplitLines(Printed([e]))) == map[e.key := e.value] <==> Unbroken(e.value)
  {
    FileRoundTripIff([e]);
    assert [e][..0] == [] && ToMap([e]) == map[e.key := e.value];
    assert [e][0] == e;
  }
}
