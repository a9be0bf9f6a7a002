/** The dotenv printer and parser of the Windows configuration. */
module Dotenv {
  import opened Wrappers
  import opened PyLines
  import opened PyText

  // ---------- printing a value ----------

  predicate SafeChar(c: char) {
    'A' <= c <= 'Z' || 'a' <= c <= 'z' || '0' <= c <= '9' || c in "_./:@%+,-"
  }

  /** What `replace` does for a single character. */
  function ReplaceChar(s: string, c: char, sub: string): string {
    if s == "" then "" else (if s[0] == c then sub else [s[0]]) + ReplaceChar(s[1..], c, sub)
  }

  predicate SafeUnquoted(value: string) {
    value != "" && forall c | c in value :: SafeChar(c)
  }

  function DotenvValue(value: string): string {
    if SafeUnquoted(value) then value
    else
      var escaped := ReplaceChar(ReplaceChar(ReplaceChar(value, '\\', "\\\\"), '"', "\\\""), '$', "\\$");
      "\"" + escaped + "\""
  }

  /** The three characters that are escaped, each on its own. */
  function Escape(s: string): string {
    if s == "" then "" else EscapeChar(s[0]) + Escape(s[1..])
  }

  function EscapeChar(c: char): string {
    if c == '\\' || c == '"' || c == '$' then ['\\', c] else [c]
  }

  lemma {:induction false} Regroup(x: string, y: string, z: string)
    ensures x + (y + z) == (x + y) + z
  {
  }

  lemma {:induction false} ReplacePlus(a: string, b: string, c: char, sub: string)
    ensures ReplaceChar(a + b, c, sub) == ReplaceChar(a, c, sub) + ReplaceChar(b, c, sub)
    decreases |a|
  {
    if a == "" {
      assert a + b == b;
    } else {
      ReplacePlus(a[1..], b, c, sub);
      assert (a + b)[1..] == a[1..] + b;
      Regroup(if a[0] == c then sub else [a[0]], ReplaceChar(a[1..], c, sub), ReplaceChar(b, c, sub));
    }
  }

  lemma {:induction false} ReplaceShort(x: char, y: char, c: char, sub: string)
    ensures ReplaceChar([x], c, sub) == if x == c then sub else [x]
    ensures ReplaceChar([x, y], c, sub) == (if x == c then sub else [x]) + (if y == c then sub else [y])
  {
    assert [x][1..] == "" && [x, y][1..] == [y] && [y][1..] == "";
  }

  /** The three passes one after the other escape each character once. */
  lemma {:induction false} PassesEscape(s: string)
    ensures ReplaceChar(ReplaceChar(ReplaceChar(s, '\\', "\\\\"), '"', "\\\""), '$', "\\$") == Escape(s)
  {
    if s != "" {
      var rest := s[1..];
      PassesEscape(rest);
      var one := if s[0] == '\\' then "\\\\" else [s[0]];
      var two := ReplaceChar(one, '"', "\\\"");
      ReplaceShort(s[0], '\\', '"', "\\\"");
      ReplaceShort('\\', '\\', '"', "\\\"");
      ReplacePlus(one, ReplaceChar(rest, '\\', "\\\\"), '"', "\\\"");
      ReplaceShort(s[0], '\\', '$', "\\$");
      ReplaceShort('\\', '\\', '$', "\\$");
      ReplaceShort('\\', '"', '$', "\\$");
      ReplacePlus(two, ReplaceChar(ReplaceChar(rest, '\\', "\\\\"), '"', "\\\""), '$', "\\$");
      assert ReplaceChar(two, '$', "\\$") == EscapeChar(s[0]);
    }
  }

  // ---------- reading a value ----------

  function UnescapeChar(c: char): char {
    if c == 'n' then '\n' else if c == 'r' then '\r' else if c == 't' then '\t' else c
  }

  function Unescape(s: string): string
    decreases |s|
  {
    if s == "" then ""
    else if s[0] == '\\' && |s| > 1 then [UnescapeChar(s[1])] + Unescape(s[2..])
    else [s[0]] + Unescape(s[1..])
  }

  method UnescapeDoubleQuoted(value: string) returns (result: string)
    ensures result == Unescape(value)
  {
    result := "";
    var index := 0;
    while index < |value|
      invariant index <= |value| && Unescape(value) == result + Unescape(value[index..])
    {
      var c := value[index];
      assert value[index..][0] == c && value[index..][1..] == value[index + 1..];
      if c == '\\' && index + 1 < |value| {
        assert value[index..][1] == value[index + 1] && value[index..][2..] == value[index + 2..];
        result := result + [UnescapeChar(value[index + 1])];
        index := index + 2;
      } else {
        result := result + [c];
        index := index + 1;
      }
    }
  }

  lemma {:induction false} UnescapeEscape(s: string)
    ensures Unescape(Escape(s)) == s
    decreases |s|
  {
    if s != "" {
      var e, rest := EscapeChar(s[0]), Escape(s[1..]);
      UnescapeEscape(s[1..]);
      if |e| == 2 {
        assert (e + rest)[2..] == rest;
      } else {
        assert (e + rest)[1..] == rest;
      }
    }
  }

  function Unquote(value: string): string {
    if |value| >= 2 && value[0] == value[|value| - 1] then
      if value[0] == '\'' then value[1..|value| - 1]
      else if value[0] == '"' then Unescape(value[1..|value| - 1])
      else value
    else value
  }

  function Quoted(value: string): string {
    "\"" + Escape(value) + "\""
  }

  lemma {:induction false} DotenvValueIs(value: string)
    ensures DotenvValue(value) == if SafeUnquoted(value) then value else Quoted(value)
  {
    PassesEscape(value);
  }

  /** Printing and reading one value, whatever its characters. */
  lemma {:induction false} ValueRoundTrip(value: string)
    ensures Unquote(DotenvValue(value)) == value
  {
    DotenvValueIs(value);
    if SafeUnquoted(value) {
      assert value[0] in value;
    } else {
      UnescapeEscape(value);
      UnquoteQuoted(Escape(value));
    }
  }

  lemma {:induction false} UnquoteQuoted(s: string)
    ensures Unquote("\"" + s + "\"") == Unescape(s)
  {
    var quoted := "\"" + s + "\"";
    assert quoted[1..|quoted| - 1] == s;
  }

  // ---------- a file ----------

  function FirstEquals(s: string): (n: nat)
    ensures n <= |s|
  {
    if s == "" || s[0] == '=' then 0 else 1 + FirstEquals(s[1..])
  }

  datatype Entry = Entry(key: string, value: string)

  function ParseLine(text: string): Option<Entry> {
    var line := Trim(text);
    if line == "" || line[0] == '#' || '=' !in line then None
    else
      var n := FirstEquals(line);
      var key := Trim(line[..n]);
      if key == "" then None else Some(Entry(key, Unquote(Trim(if n < |line| then line[n + 1..] else ""))))
  }

  function Contents(lines: seq<Line>): seq<string> {
    if lines == [] then [] else Contents(lines[..|lines| - 1]) + [Content(lines[|lines| - 1])]
  }

  /** `splitlines` without the line breaks. */
  function SplitLines(text: string): seq<string> {
    Contents(Lines(text))
  }

  function ParsedLines(lines: seq<string>): map<string, string> {
    if lines == [] then map[]
    else WithEntry(ParsedLines(lines[..|lines| - 1]), ParseLine(lines[|lines| - 1]))
  }

  function WithEntry(m: map<string, string>, e: Option<Entry>): map<string, string> {
    if e.None? then m else m[e.value.key := e.value.value]
  }

  method Partition(line: string) returns (n: nat)
    ensures n == FirstEquals(line)
  {
    n := 0;
    while n < |line| && line[n] != '='
      invariant n <= |line| && FirstEquals(line) == n + FirstEquals(line[n..])
    {
      assert line[n..][1..] == line[n + 1..];
      n := n + 1;
    }
  }

  method WithoutQuotes(value: string) returns (result: string)
    ensures result == Unquote(value)
  {
    result := value;
    if |value| >= 2 && value[0] == value[|value| - 1] {
      if value[0] == '\'' {
        result := value[1..|value| - 1];
      } else if value[0] == '"' {
        result := UnescapeDoubleQuoted(value[1..|value| - 1]);
      }
    }
  }

  method ParseEnvLine(text: string) returns (r: Option<Entry>)
    ensures r == ParseLine(text)
  {
    var line := Trim(text);
    if line == "" || line[0] == '#' || '=' !in line { return None; }
    var n := Partition(line);
    var key := Trim(line[..n]);
    if key == "" { return None; }
    var value := WithoutQuotes(Trim(if n < |line| then line[n + 1..] else ""));
    return Some(Entry(key, value));
  }

  method ParseEnvFile(content: string) returns (result: map<string, string>)
    ensures result == ParsedLines(SplitLines(content))
  {
    result := map[];
    var lines := SplitLines(content);
    for i := 0 to |lines|
      invariant result == ParsedLines(lines[..i])
    {
      ParsedStep(lines, i);
      var entry := ParseEnvLine(lines[i]);
      if entry.Some? { result := result[entry.value.key := entry.value.value]; }
    }
    assert lines[..|lines|] == lines;
  }

  lemma {:induction false} ParsedStep(lines: seq<string>, i: nat)
    requires i < |lines|
    ensures ParsedLines(lines[..i + 1]) == WithEntry(ParsedLines(lines[..i]), ParseLine(lines[i]))
  {
    assert lines[..i + 1][..i] == lines[..i];
  }

  // ---------- the round trip ----------

  predicate KeyOk(key: string) {
    key != "" && Trimmed(key) && key[0] != '#' && '=' !in key && Unbroken(key)
  }

  predicate EntryOk(e: Entry) {
    KeyOk(e.key) && Unbroken(e.value)
  }

  function PrintedLine(e: Entry): string {
    e.key + "=" + DotenvValue(e.value)
  }

  /** The lines joined by newlines. */
  function Printed(entries: seq<Entry>): string {
    if entries == [] then ""
    else
      var front, line := entries[..|entries| - 1], PrintedLine(entries[|entries| - 1]);
      if front == [] then line else Printed(front) + ("\n" + line)
  }

  function ToMap(entries: seq<Entry>): map<string, string> {
    if entries == [] then map[]
    else ToMap(entries[..|entries| - 1])[entries[|entries| - 1].key := entries[|entries| - 1].value]
  }

  lemma {:induction false} EscapeUnbroken(s: string)
    requires Unbroken(s)
    ensures Unbroken(Escape(s))
  {
    if s != "" {
      InTail(s);
      assert s[0] in s;
      EscapeUnbroken(s[1..]);
    }
  }

  /** A printed value is not empty, has nothing to trim and no line break. */
  lemma {:induction false} DotenvValueShape(value: string)
    requires Unbroken(value)
    ensures var d := DotenvValue(value);
            d != "" && Unbroken(d) && !IsSpace(d[0]) && !IsSpace(d[|d| - 1])
  {
    DotenvValueIs(value);
    if SafeUnquoted(value) {
      assert value[0] in value && value[|value| - 1] in value;
    } else {
      EscapeUnbroken(value);
      QuotedShape(Escape(value));
    }
  }

  lemma {:induction false} QuotedShape(s: string)
    requires Unbroken(s)
    ensures var q := "\"" + s + "\"";
            Unbroken(q) && q[0] == '"' && q[|q| - 1] == '"'
  {
  }

  lemma {:induction false} FirstEqualsAt(key: string, rest: string)
    requires '=' !in key
    ensures FirstEquals(key + ("=" + rest)) == |key|
    decreases |key|
  {
    if key != "" {
      InTail(key);
      assert key[0] in key && (key + ("=" + rest))[1..] == key[1..] + ("=" + rest);
      FirstEqualsAt(key[1..], rest);
    }
  }

  lemma {:induction false} PartsParsed(line: string, key: string, v: string)
    requires KeyOk(key) && v != "" && Trimmed(v) && Trimmed(line) && |line| > |key| && line[|key|] == '='
    requires FirstEquals(line) == |key| && line[..|key|] == key && line[|key| + 1..] == v
    ensures ParseLine(line) == Some(Entry(key, Unquote(v)))
  {
    TrimmedIsItsTrim(line);
    TrimmedIsItsTrim(key);
    TrimmedIsItsTrim(v);
    assert line[0] == line[..|key|][0] && '=' in line;
  }

  /** A key, a sign and a value without outer white space are read apart again. */
  lemma {:induction false} KeyValueParsed(key: string, v: string)
    requires KeyOk(key) && v != "" && Trimmed(v)
    ensures ParseLine(key + ("=" + v)) == Some(Entry(key, Unquote(v)))
  {
    var line := key + ("=" + v);
    FirstEqualsAt(key, v);
    assert line[|line| - 1] == v[|v| - 1] && line[0] == key[0] && line[|key|] == '=';
    assert line[..|key|] == key && line[|key| + 1..] == v;
    PartsParsed(line, key, v);
  }

  lemma {:induction false} LineRoundTrip(e: Entry)
    requires EntryOk(e)
    ensures ParseLine(PrintedLine(e)) == Some(e) && Unbroken(PrintedLine(e)) && PrintedLine(e) != ""
  {
    var d := DotenvValue(e.value);
    assert PrintedLine(e) == e.key + ("=" + d);
    DotenvValueShape(e.value);
    ValueRoundTrip(e.value);
    KeyValueParsed(e.key, d);
  }

  lemma {:induction false} ContentsSnoc(lines: seq<Line>, l: Line)
    ensures Contents(lines + [l]) == Contents(lines) + [Content(l)]
  {
    assert (lines + [l])[..|lines|] == lines;
  }

  lemma {:induction false} LineAfter(text: string, line: string, content: string)
    requires (text == "" || text[|text| - 1] == '\n') && Lines(line) == [Line(line)] && Content(Line(line)) == content
    ensures SplitLines(text + line) == SplitLines(text) + [content]
  {
    LinesPlus(text, line);
    ContentsSnoc(Lines(text), Line(line));
  }

  /** One more whole line after whole lines. */
  lemma {:induction false} WholeLineAfter(text: string, line: string)
    requires (text == "" || text[|text| - 1] == '\n') && line != "" && Unbroken(line)
    ensures SplitLines(text + line) == SplitLines(text) + [line]
    ensures SplitLines(text + (line + "\n")) == SplitLines(text) + [line]
  {
    assert line[|line| - 1] in line;
    UnbrokenLine(line);
    LineAfter(text, line, line);
    OneLineText(line);
    assert (line + "\n")[..|line|] == line;
    LineAfter(text, line + "\n", line);
  }

  lemma {:induction false} UnbrokenLine(text: string)
    requires text != "" && Unbroken(text)
    ensures LineLen(text) == |text| && Lines(text) == [Line(text)]
    decreases |text|
  {
    InTail(text);
    assert text[0] in text;
    if |text| > 1 { UnbrokenLine(text[1..]); }
    assert text[..|text|] == text && text[|text|..] == "";
  }

  function PrintedLines(entries: seq<Entry>): seq<string> {
    if entries == [] then []
    else PrintedLines(entries[..|entries| - 1]) + [PrintedLine(entries[|entries| - 1])]
  }

  ghost predicate AllOk(entries: seq<Entry>) {
    forall i | 0 <= i < |entries| :: EntryOk(entries[i])
  }

  /** The printed lines with a newline after each, the last one too. */
  function EndedText(entries: seq<Entry>): string {
    if entries == [] then ""
    else EndedText(entries[..|entries| - 1]) + (PrintedLine(entries[|entries| - 1]) + "\n")
  }

  lemma {:induction false} PrintedIsEnded(entries: seq<Entry>)
    requires entries != []
    ensures Printed(entries) == EndedText(entries[..|entries| - 1]) + PrintedLine(entries[|entries| - 1])
  {
    var front, line := entries[..|entries| - 1], PrintedLine(entries[|entries| - 1]);
    if front != [] {
      PrintedIsEnded(front);
      EndOf(EndedText(front[..|front| - 1]), PrintedLine(front[|front| - 1]), line);
    } else {
      assert EndedText(front) + line == line;
    }
  }

  lemma {:induction false} EndOf(a: string, b: string, line: string)
    ensures (a + b) + ("\n" + line) == (a + (b + "\n")) + line
  {
  }

  lemma {:induction false} EndedContents(entries: seq<Entry>)
    requires AllOk(entries)
    ensures SplitLines(EndedText(entries)) == PrintedLines(entries)
    ensures entries != [] ==> EndedText(entries) != "" && EndedText(entries)[|EndedText(entries)| - 1] == '\n'
  {
    if entries != [] {
      var front, last := entries[..|entries| - 1], entries[|entries| - 1];
      EndedContents(front);
      LineRoundTrip(last);
      WholeLineAfter(EndedText(front), PrintedLine(last));
    }
  }

  /** The lines of the printed file are the printed lines. */
  lemma {:induction false} PrintedContents(entries: seq<Entry>)
    requires AllOk(entries)
    ensures SplitLines(Printed(entries)) == PrintedLines(entries)
  {
    if entries != [] {
      var front, last := entries[..|entries| - 1], entries[|entries| - 1];
      PrintedIsEnded(entries);
      EndedContents(front);
      LineRoundTrip(last);
      WholeLineAfter(EndedText(front), PrintedLine(last));
    }
  }

  lemma {:induction false} ParsedPrinted(entries: seq<Entry>)
    requires AllOk(entries)
    ensures ParsedLines(PrintedLines(entries)) == ToMap(entries)
  {
    if entries != [] {
      var front, last := entries[..|entries| - 1], entries[|entries| - 1];
      ParsedPrinted(front);
      LineRoundTrip(last);
      assert (PrintedLines(front) + [PrintedLine(last)])[..|PrintedLines(front)|] == PrintedLines(front);
    }
  }

  /** Parsing the printed entries gives the map they stand for; of equal keys the last one counts. */
  lemma {:induction false} FileRoundTrip(entries: seq<Entry>)
    requires AllOk(entries)
    ensures ParsedLines(SplitLines(Printed(entries))) == ToMap(entries)
  {
    PrintedContents(entries);
    ParsedPrinted(entries);
  }

  ghost predicate DistinctKeys(entries: seq<Entry>) {
    forall i, j | 0 <= i < j < |entries| :: entries[i].key != entries[j].key
  }

  /** With distinct keys nothing is lost: exactly the printed keys, each with its value. */
  lemma {:induction false} NothingLost(entries: seq<Entry>)
    requires DistinctKeys(entries)
    ensures forall i | 0 <= i < |entries| ::
              entries[i].key in ToMap(entries) && ToMap(entries)[entries[i].key] == entries[i].value
    ensures forall k | k in ToMap(entries) :: exists i :: 0 <= i < |entries| && entries[i].key == k
  {
    if entries != [] {
      var front, last := entries[..|entries| - 1], entries[|entries| - 1];
      assert forall i | 0 <= i < |front| :: front[i] == entries[i];
      NothingLost(front);
      forall k | k in ToMap(entries) ensures exists i :: 0 <= i < |entries| && entries[i].key == k {
        if k == last.key {
          assert entries[|front|].key == k;
        } else {
          var i :| 0 <= i < |front| && front[i].key == k;
          assert entries[i].key == k;
        }
      }
    }
  }

  const BROKEN := Entry("K", "a\nb")
  const FIRST_HALF := "K=\"a"
  const SECOND_HALF := "b\""

  lemma {:induction false} BrokenValue()
    ensures DotenvValue("a\nb") == "\"" + "a\nb" + "\""
  {
    DotenvValueIs("a\nb");
    BrokenEscape();
    assert !SafeChar('\n') && "a\nb"[1] == '\n' && '\n' in "a\nb";
  }

  lemma {:induction false} BrokenEscape()
    ensures Escape("a\nb") == "a\nb"
  {
    assert "a\nb"[1..] == "\nb" && "\nb"[1..] == "b" && "b"[1..] == "";
    assert Escape("b") == "b" && Escape("\nb") == "\nb";
  }

  lemma {:induction false} BrokenPrinted()
    ensures PrintedLine(BROKEN) == (FIRST_HALF + "\n") + SECOND_HALF
  {
    BrokenValue();
    assert "K" + "=" + ("\"" + "a\nb" + "\"") == (FIRST_HALF + "\n") + SECOND_HALF;
  }

  lemma {:induction false} FirstHalfParsed()
    ensures ParseLine(FIRST_HALF) == Some(Entry("K", "\"a"))
  {
    KeyValueParsed("K", "\"a");
    assert FIRST_HALF == "K" + ("=" + "\"a");
  }

  lemma {:induction false} BrokenParsed()
    ensures ParseLine(FIRST_HALF) == Some(Entry("K", "\"a")) && ParseLine(SECOND_HALF) == None
  {
    FirstHalfParsed();
    TrimmedIsItsTrim(SECOND_HALF);
  }

  lemma {:induction false} TwoLinePrint(e: Entry, first: string, second: string)
    requires PrintedLine(e) == (first + "\n") + second && first != "" && Unbroken(first) && Unbroken(second)
            && second != ""
    ensures ParsedLines(SplitLines(Printed([e]))) == WithEntry(WithEntry(map[], ParseLine(first)), ParseLine(second))
  {
    assert [e][..0] == [] && Printed([e]) == PrintedLine(e);
    WholeLineAfter("", first);
    assert "" + (first + "\n") == first + "\n" && SplitLines("") == [];
    WholeLineAfter(first + "\n", second);
    TwoParsed(first, second);
  }

  lemma {:induction false} TwoParsed(first: string, second: string)
    ensures ParsedLines([first] + [second]) == WithEntry(WithEntry(map[], ParseLine(first)), ParseLine(second))
  {
    assert ([first] + [second])[..1] == [first] && [first][..0] == [];
    assert ParsedLines([first]) == WithEntry(map[], ParseLine(first));
  }

  /** A line separator in a value is not escaped, so the value does not come back. */
  lemma {:induction false} NewlineIsLost()
    ensures ParsedLines(SplitLines(Printed([BROKEN]))) == map["K" := "\"a"]
  {
    BrokenPrinted();
    BrokenParsed();
    TwoLinePrint(BROKEN, FIRST_HALF, SECOND_HALF);
  }
}
