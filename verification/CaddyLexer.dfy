/**
 The two character scanners of the Caddyfile merge: one finds the braces of the
 global options block, the other a top-level `servers` option inside it. Both
 skip comments and quoted text.
 */
module CaddyLexer {
  import opened Wrappers
  import opened PyText

  datatype Quote = NoQuote | DoubleQuote | Backtick
  datatype Lex = Lex(depth: int, quote: Quote, escaped: bool, comment: bool)

  const START := Lex(0, NoQuote, false, false)

  predicate Code(st: Lex) {
    !st.comment && st.quote == NoQuote
  }

  predicate Closes(q: Quote, c: char) {
    (q == DoubleQuote && c == '"') || (q == Backtick && c == '`')
  }

  function Step(st: Lex, c: char): Lex {
    if st.comment then (if c == '\n' then st.(comment := false) else st)
    else if st.quote != NoQuote then
      if st.quote == DoubleQuote && st.escaped then st.(escaped := false)
      else if st.quote == DoubleQuote && c == '\\' then st.(escaped := true)
      else if Closes(st.quote, c) then st.(quote := NoQuote)
      else st
    else if c == '#' then st.(comment := true)
    else if c == '"' then st.(quote := DoubleQuote)
    else if c == '`' then st.(quote := Backtick)
    else if c == '{' then st.(depth := st.depth + 1)
    else if c == '}' then st.(depth := st.depth - 1)
    else st
  }

  function Run(st: Lex, s: string): Lex
    decreases |s|
  {
    if s == [] then st else Run(Step(st, s[0]), s[1..])
  }

  /** The brace that brings the depth back to 0. */
  predicate ClosesBlock(st: Lex, c: char) {
    Code(st) && c == '}' && st.depth == 1
  }

  function Find(st: Lex, s: string): Option<nat>
    decreases |s|
  {
    if s == [] then None
    else if ClosesBlock(st, s[0]) then Some(0)
    else Shifted(1, Find(Step(st, s[0]), s[1..]))
  }

  function Shifted(n: nat, at: Option<nat>): Option<nat> {
    if at.Some? then Some(n + at.value) else None
  }

  lemma {:induction false} RunPlus(st: Lex, a: string, b: string)
    ensures Run(st, a + b) == Run(Run(st, a), b)
    decreases |a|
  {
    if a == [] {
      assert a + b == b;
    } else {
      RunPlus(Step(st, a[0]), a[1..], b);
      assert (a + b)[1..] == a[1..] + b;
    }
  }

  lemma {:induction false} FindPlus(st: Lex, a: string, b: string)
    ensures Find(st, a + b) == if Find(st, a).Some? then Find(st, a) else Shifted(|a|, Find(Run(st, a), b))
    decreases |a|
  {
    if a == [] {
      assert a + b == b;
    } else {
      FindPlus(Step(st, a[0]), a[1..], b);
      assert (a + b)[1..] == a[1..] + b;
    }
  }

  /** The found brace closes the block: before it nothing did. */
  lemma {:induction false} FindMeans(st: Lex, s: string)
    ensures Find(st, s).Some? ==>
              var n := Find(st, s).value;
              n < |s| && s[n] == '}' && ClosesBlock(Run(st, s[..n]), s[n]) && Find(st, s[..n]) == None
    decreases |s|
  {
    if s != [] && !ClosesBlock(st, s[0]) {
      FindMeans(Step(st, s[0]), s[1..]);
      if Find(st, s).Some? {
        var n := Find(st, s).value;
        assert s[..n][1..] == s[1..][..n - 1];
      }
    }
  }

  // ---------- the global block ----------

  /** Leading white space and comments. */
  function Skip(s: string, comment: bool): (n: nat)
    ensures n <= |s|
  {
    if s == [] then 0
    else if comment then 1 + Skip(s[1..], s[0] != '\n')
    else if IsSpace(s[0]) then 1 + Skip(s[1..], false)
    else if s[0] == '#' then 1 + Skip(s[1..], true)
    else 0
  }

  datatype Span = Span(opening: nat, closing: nat)

  datatype CaddyMergeError =
    | UnterminatedGlobalBlock | LimitsMarkerPair | LimitsMarkerOrder | LimitsOutsideGlobalBlock | UnmanagedServers
    | EmptySite | SiteWithoutDomain | SiteHoldsMarkers | SiteMarkerPair | SiteMarkerOrder
    | DomainElsewhere | DomainUnmarked

  /** The braces of the global options block, if the text starts with one. */
  function GlobalSpan(text: string): (r: Result<Option<Span>, CaddyMergeError>)
    ensures r.Ok? && r.value.Some? ==> r.value.value.opening < r.value.value.closing < |text|
  {
    var o := Skip(text, false);
    if o >= |text| || text[o] != '{' then Ok(None)
    else
      FindMeans(START, text[o..]);
      match Find(START, text[o..])
      case Some(n) => Ok(Some(Span(o, o + n)))
      case None => Err(UnterminatedGlobalBlock)
  }

  lemma {:induction false} SkipPlus(a: string, b: string, comment: bool)
    ensures Skip(a, comment) < |a| || Skip(a + b, comment) < |a| ==> Skip(a + b, comment) == Skip(a, comment)
  {
    if a != [] {
      assert (a + b)[1..] == a[1..] + b;
      SkipPlus(a[1..], b, if comment then a[0] != '\n' else a[0] == '#' && !IsSpace(a[0]));
    }
  }

  method FindNewline(text: string, from: nat) returns (at: Option<nat>)
    requires from <= |text|
    ensures match at
            case None => Skip(text[from..], true) == |text| - from
            case Some(n) => from <= n < |text| && Skip(text[from..], true) == n + 1 - from + Skip(text[n + 1..], false)
  {
    var n := from;
    while n < |text| && text[n] != '\n'
      invariant from <= n <= |text|
      invariant Skip(text[from..], true) == n - from + Skip(text[n..], true)
    {
      assert text[n..][1..] == text[n + 1..];
      n := n + 1;
    }
    if n == |text| { return None; }
    assert text[n..][1..] == text[n + 1..];
    return Some(n);
  }

  method SkipLead(text: string) returns (pos: nat)
    ensures pos == Skip(text, false)
  {
    pos := 0;
    while pos < |text|
      invariant pos <= |text|
      invariant Skip(text, false) == pos + Skip(text[pos..], false)
      decreases |text| - pos
    {
      assert text[pos..][1..] == text[pos + 1..];
      if IsSpace(text[pos]) {
        pos := pos + 1;
      } else if text[pos] == '#' {
        var newline := FindNewline(text, pos + 1);
        if newline.None? { return |text|; }
        pos := newline.value + 1;
      } else {
        break;
      }
    }
  }

  /** The scan from `opening` comes down to the scan from `pos` on. */
  predicate Found(text: string, opening: nat, pos: nat, st: Lex)
    requires opening <= pos <= |text|
  {
    Find(START, text[opening..]) == Shifted(pos - opening, Find(st, text[pos..]))
  }

  lemma {:induction false} FoundStep(text: string, opening: nat, pos: nat, st: Lex)
    requires opening <= pos < |text| && Found(text, opening, pos, st)
    ensures if ClosesBlock(st, text[pos]) then Find(START, text[opening..]) == Some(pos - opening)
            else Found(text, opening, pos + 1, Step(st, text[pos]))
  {
    assert text[pos..][0] == text[pos] && text[pos..][1..] == text[pos + 1..];
  }

  method GlobalBlockSpan(text: string) returns (r: Result<Option<Span>, CaddyMergeError>)
    ensures r == GlobalSpan(text)
  {
    var pos := SkipLead(text);
    if pos >= |text| || text[pos] != '{' { return Ok(None); }
    var opening := pos;
    var depth, quote, escaped, inComment := 0, NoQuote, false, false;
    assert Shifted(0, Find(START, text[opening..])) == Find(START, text[opening..]);
    while pos < |text|
      invariant opening <= pos <= |text|
      invariant Found(text, opening, pos, Lex(depth, quote, escaped, inComment))
      invariant if pos == opening then Lex(depth, quote, escaped, inComment) == START else depth > 0
      decreases |text| - pos
    {
      var c := text[pos];
      FoundStep(text, opening, pos, Lex(depth, quote, escaped, inComment));
      if inComment {
        if c == '\n' { inComment := false; }
        pos := pos + 1;
        continue;
      }
      if quote != NoQuote {
        if quote == DoubleQuote && escaped {
          escaped := false;
        } else if quote == DoubleQuote && c == '\\' {
          escaped := true;
        } else if Closes(quote, c) {
          quote := NoQuote;
        }
        pos := pos + 1;
        continue;
      }
      if c == '#' {
        inComment := true;
      } else if c == '"' {
        quote := DoubleQuote;
      } else if c == '`' {
        quote := Backtick;
      } else if c == '{' {
        depth := depth + 1;
      } else if c == '}' {
        depth := depth - 1;
        if depth == 0 { return Ok(Some(Span(opening, pos))); }
        if depth < 0 { break; }
      }
      pos := pos + 1;
    }
    return Err(UnterminatedGlobalBlock);
  }

  // ---------- a top-level servers option ----------

  datatype Dir = Dir(lex: Lex, token: string, atStart: bool, found: bool)

  const INSIDE := Dir(Lex(1, NoQuote, false, false), "", true, false)

  const SERVERS := "servers"

  /** Whether a character is alphanumeric; beyond ASCII that is a parameter. */
  type Alnum = char -> bool

  predicate WordChar(c: char, wide: Alnum) {
    || 'a' <= c <= 'z' || 'A' <= c <= 'Z' || '0' <= c <= '9' || c == '_' || c == '-'
    || (c > '\U{7F}' && !IsSpace(c) && wide(c))
  }

  function DirStep(d: Dir, c: char, wide: Alnum): Dir {
    if d.found then d
    else if d.lex.comment then
      d.(lex := Step(d.lex, c), atStart := d.atStart || (c == '\n' && d.lex.depth == 1))
    else if d.lex.quote != NoQuote then d.(lex := Step(d.lex, c))
    else if c == '#' || c == '"' || c == '`' || c == '}' then d.(lex := Step(d.lex, c), token := "")
    else if c == '{' then
      if d.lex.depth == 1 && d.token != "" && d.atStart && d.token == SERVERS then d.(found := true)
      else d.(lex := Step(d.lex, c), token := "", atStart := d.atStart && !(d.lex.depth == 1 && d.token != ""))
    else if d.lex.depth == 1 && d.atStart && WordChar(c, wide) then d.(token := d.token + [c])
    else if d.lex.depth == 1 then
      if d.token == SERVERS then d.(found := true)
      else d.(token := "", atStart := c == '\n' || (d.atStart && d.token == ""))
    else d
  }

  function DirRun(d: Dir, s: string, wide: Alnum): Dir
    decreases |s|
  {
    if s == [] then d else DirRun(DirStep(d, s[0], wide), s[1..], wide)
  }

  predicate DirHit(d: Dir) {
    d.found || (d.lex.depth == 1 && d.atStart && d.token == SERVERS)
  }

  function HasServers(text: string, opening: nat, closing: nat, wide: Alnum): bool
    requires opening < closing <= |text|
  {
    DirHit(DirRun(INSIDE, text[opening + 1..closing], wide))
  }

  lemma {:induction false} DirRunPlus(d: Dir, a: string, b: string, wide: Alnum)
    ensures DirRun(d, a + b, wide) == DirRun(DirRun(d, a, wide), b, wide)
    decreases |a|
  {
    if a == [] {
      assert a + b == b;
    } else {
      DirRunPlus(DirStep(d, a[0], wide), a[1..], b, wide);
      assert (a + b)[1..] == a[1..] + b;
    }
  }

  lemma {:induction false} DirRunSnoc(d: Dir, text: string, i: nat, j: nat, wide: Alnum)
    requires i <= j < |text|
    ensures DirRun(d, text[i..j + 1], wide) == DirStep(DirRun(d, text[i..j], wide), text[j], wide)
  {
    assert text[i..j + 1] == text[i..j] + [text[j]];
    DirRunPlus(d, text[i..j], [text[j]], wide);
    assert [text[j]][1..] == [];
  }

  lemma {:induction false} FoundStays(d: Dir, s: string, wide: Alnum)
    requires d.found
    ensures DirRun(d, s, wide) == d
    decreases |s|
  {
    if s != [] { FoundStays(d, s[1..], wide); }
  }

  method HasTopLevelServers(text: string, opening: nat, closing: nat, wide: Alnum) returns (r: bool)
    requires opening < closing <= |text|
    ensures r == HasServers(text, opening, closing, wide)
  {
    var pos := opening + 1;
    var depth, quote, escaped, inComment, token, atDirectiveStart := 1, NoQuote, false, false, "", true;
    assert text[opening + 1..opening + 1] == [];
    while pos < closing
      invariant opening + 1 <= pos <= closing
      invariant DirRun(INSIDE, text[opening + 1..pos], wide)
             == Dir(Lex(depth, quote, escaped, inComment), token, atDirectiveStart, false)
      decreases closing - pos
    {
      var c := text[pos];
      DirRunSnoc(INSIDE, text, opening + 1, pos, wide);
      ServersStay(text, opening, pos, closing, wide);
      if inComment {
        if c == '\n' {
          inComment := false;
          if depth == 1 { atDirectiveStart := true; }
        }
        pos := pos + 1;
        continue;
      }
      if quote != NoQuote {
        if quote == DoubleQuote && escaped {
          escaped := false;
        } else if quote == DoubleQuote && c == '\\' {
          escaped := true;
        } else if Closes(quote, c) {
          quote := NoQuote;
        }
        pos := pos + 1;
        continue;
      }
      if c == '#' {
        inComment := true;
        token := "";
      } else if c == '"' {
        quote := DoubleQuote;
        token := "";
      } else if c == '`' {
        quote := Backtick;
        token := "";
      } else if c == '{' {
        if depth == 1 && token != "" {
          if atDirectiveStart && token == SERVERS { return true; }
          atDirectiveStart := false;
        }
        depth := depth + 1;
        token := "";
      } else if c == '}' {
        depth := depth - 1;
        token := "";
      } else if depth == 1 && atDirectiveStart && WordChar(c, wide) {
        token := token + [c];
      } else if depth == 1 {
        if token != "" {
          if token == SERVERS { return true; }
          token := "";
          atDirectiveStart := false;
        }
        if c == '\n' { atDirectiveStart := true; }
      }
      pos := pos + 1;
    }
    return depth == 1 && atDirectiveStart && token == SERVERS;
  }

  /** A hit is not undone by the rest of the block. */
  lemma {:induction false} ServersStay(text: string, opening: nat, pos: nat, closing: nat, wide: Alnum)
    requires opening < pos < closing <= |text|
    ensures DirRun(INSIDE, text[opening + 1..pos + 1], wide).found ==> HasServers(text, opening, closing, wide)
  {
    assert text[opening + 1..closing] == text[opening + 1..pos + 1] + text[pos + 1..closing];
    var d := DirRun(INSIDE, text[opening + 1..pos + 1], wide);
    DirRunPlus(INSIDE, text[opening + 1..pos + 1], text[pos + 1..closing], wide);
    if d.found { FoundStays(d, text[pos + 1..closing], wide); }
  }
}
