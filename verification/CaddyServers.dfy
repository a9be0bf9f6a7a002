/**
 What the search for a top-level `servers` option finds: a word `servers` at depth
 1, outside quotes and comments, that a separator or the end of the block ends,
 and before which no other word of its line was ended that way.
 */
module CaddyServers {
  import opened CaddyLexer

  function LexAt(s: string, i: nat): Lex
    requires i <= |s|
  {
    Run(INSIDE.lex, s[..i])
  }

  /** Code directly inside the global block. */
  predicate Plain(s: string, i: nat) {
    i <= |s| && Code(LexAt(s, i)) && LexAt(s, i).depth == 1
  }

  predicate WordAt(s: string, i: nat, wide: Alnum) {
    i < |s| && Plain(s, i) && WordChar(s[i], wide)
  }

  /** Comments, quotes and a closing brace drop the word before them. */
  predicate Drops(c: char) {
    c == '#' || c == '"' || c == '`' || c == '}'
  }

  /** A word is ended at `i` by a character that neither continues nor drops it. */
  predicate Ends(s: string, i: nat, wide: Alnum) {
    0 < i < |s| && WordAt(s, i - 1, wide) && !WordAt(s, i, wide) && !Drops(s[i])
  }

  /** A line ends at `i` directly inside the block; a comment may end with it. */
  predicate LineEnd(s: string, i: nat) {
    i < |s| && s[i] == '\n' && LexAt(s, i).depth == 1 && (LexAt(s, i).comment || LexAt(s, i).quote == NoQuote)
  }

  /** No word was ended before `i` on its line. */
  ghost predicate Fresh(s: string, i: nat, wide: Alnum) {
    forall q | 0 <= q < i && Ends(s, q, wide) :: exists r :: q <= r < i && LineEnd(s, r)
  }

  /** A whole word from `p` to `j`. */
  ghost predicate Word(s: string, p: nat, j: nat, wide: Alnum) {
    && p < j <= |s|
    && (forall k | p <= k < j :: WordAt(s, k, wide))
    && (p > 0 ==> !WordAt(s, p - 1, wide))
  }

  /** The word `servers` up to `j`, with no word ended before it on its line. */
  ghost predicate ServersAt(s: string, j: nat, wide: Alnum) {
    Fresh(s, j, wide) && exists p: nat :: Word(s, p, j, wide) && s[p..j] == SERVERS
  }

  /** The option: such a word that is ended at `j`, or stands at the end of the block. */
  ghost predicate OptionAt(s: string, j: nat, wide: Alnum) {
    ServersAt(s, j, wide) && (j == |s| || Ends(s, j, wide))
  }

  // ---------- one more character ----------

  lemma {:induction false} LexSnoc(s: string, i: nat)
    requires i < |s|
    ensures LexAt(s, i + 1) == Step(LexAt(s, i), s[i])
  {
    assert s[..i + 1] == s[..i] + [s[i]];
    RunPlus(INSIDE.lex, s[..i], [s[i]]);
    assert [s[i]][1..] == [];
  }

  lemma {:induction false} FreshSnoc(s: string, i: nat, wide: Alnum)
    requires i < |s|
    ensures Fresh(s, i + 1, wide) <==> LineEnd(s, i) || (Fresh(s, i, wide) && !Ends(s, i, wide))
  {
    if LineEnd(s, i) {
    } else if Ends(s, i, wide) {
    } else if Fresh(s, i, wide) {
      forall q | 0 <= q < i + 1 && Ends(s, q, wide) ensures exists r :: q <= r < i + 1 && LineEnd(s, r) {
        var r :| q <= r < i && LineEnd(s, r);
      }
    } else {
      var q :| 0 <= q < i && Ends(s, q, wide) && !exists r :: q <= r < i && LineEnd(s, r);
    }
  }

  /** What the scan remembers before position `i` when it found nothing. */
  ghost predicate Remembers(s: string, i: nat, d: Dir, wide: Alnum)
    requires i <= |s|
  {
    && !d.found && d.lex == LexAt(s, i) && (d.atStart <==> Fresh(s, i, wide))
    && (d.token != "" <==> (Fresh(s, i, wide) && i > 0 && WordAt(s, i - 1, wide)))
    && (d.token != "" ==> |d.token| <= i && Word(s, i - |d.token|, i, wide) && s[i - |d.token|..i] == d.token)
  }

  lemma {:induction false} WordStep(s: string, i: nat, wide: Alnum)
    requires WordAt(s, i, wide)
    ensures LexAt(s, i + 1) == LexAt(s, i) && Plain(s, i + 1)
  {
    LexSnoc(s, i);
  }

  lemma {:induction false} NoLaterStart(s: string, p: nat, q: nat, j: nat, wide: Alnum)
    requires Word(s, p, j, wide) && p < q < j
    ensures !Word(s, q, j, wide)
  {
    assert WordAt(s, q - 1, wide);
  }

  lemma {:induction false} OneStart(s: string, p: nat, q: nat, j: nat, wide: Alnum)
    requires Word(s, p, j, wide) && Word(s, q, j, wide)
    ensures p == q
  {
    if p < q {
      NoLaterStart(s, p, q, j, wide);
    } else if q < p {
      NoLaterStart(s, q, p, j, wide);
    }
  }

  /** A character that is no part of a word. */
  lemma {:induction false} OtherStep(s: string, i: nat, d: Dir, wide: Alnum)
    requires i < |s| && Remembers(s, i, d, wide) && !WordAt(s, i, wide)
    ensures var e := DirStep(d, s[i], wide);
            if Ends(s, i, wide) && d.token == SERVERS then e.found else Remembers(s, i + 1, e, wide)
  {
    LexSnoc(s, i);
    FreshSnoc(s, i, wide);
    if i > 0 && WordAt(s, i - 1, wide) { WordStep(s, i - 1, wide); }
  }

  lemma {:induction false} WordGrows(s: string, i: nat, d: Dir, wide: Alnum)
    requires i < |s| && Remembers(s, i, d, wide) && WordAt(s, i, wide)
    ensures Remembers(s, i + 1, DirStep(d, s[i], wide), wide)
  {
    LexSnoc(s, i);
    FreshSnoc(s, i, wide);
    var n := |d.token|;
    assert s[i - n..i + 1] == s[i - n..i] + [s[i]];
  }

  lemma {:induction false} TokenIs(s: string, i: nat, d: Dir, wide: Alnum)
    requires i <= |s| && Remembers(s, i, d, wide)
    ensures d.token == SERVERS <==> ServersAt(s, i, wide)
  {
    if ServersAt(s, i, wide) {
      var p: nat :| Word(s, p, i, wide) && s[p..i] == SERVERS;
      assert WordAt(s, i - 1, wide);
      OneStart(s, p, i - |d.token|, i, wide);
    }
  }

  lemma {:induction false} ScanStep(s: string, i: nat, d: Dir, wide: Alnum)
    requires i < |s| && Remembers(s, i, d, wide)
    ensures var e := DirStep(d, s[i], wide);
            if OptionAt(s, i, wide) then e.found else Remembers(s, i + 1, e, wide)
  {
    TokenIs(s, i, d, wide);
    if WordAt(s, i, wide) {
      WordGrows(s, i, d, wide);
    } else {
      OtherStep(s, i, d, wide);
    }
  }

  ghost predicate OptionBefore(s: string, i: nat, wide: Alnum) {
    exists j: nat :: j < i && OptionAt(s, j, wide)
  }

  lemma {:induction false} Scan(s: string, i: nat, wide: Alnum)
    requires i <= |s|
    ensures var d := DirRun(INSIDE, s[..i], wide);
            if OptionBefore(s, i, wide) then d.found else Remembers(s, i, d, wide)
  {
    if i > 0 {
      Scan(s, i - 1, wide);
      OneMore(s, i - 1, wide);
      ScanNext(s, i - 1, DirRun(INSIDE, s[..i - 1], wide), wide);
    }
  }

  lemma {:induction false} OneMore(s: string, i: nat, wide: Alnum)
    requires i < |s|
    ensures DirRun(INSIDE, s[..i + 1], wide) == DirStep(DirRun(INSIDE, s[..i], wide), s[i], wide)
  {
    assert s[0..i + 1] == s[..i + 1] && s[0..i] == s[..i];
    DirRunSnoc(INSIDE, s, 0, i, wide);
  }

  lemma {:induction false} BeforeSnoc(s: string, i: nat, wide: Alnum)
    ensures OptionBefore(s, i + 1, wide) <==> OptionBefore(s, i, wide) || OptionAt(s, i, wide)
  {
    if OptionBefore(s, i + 1, wide) {
      var j: nat :| j < i + 1 && OptionAt(s, j, wide);
      assert j == i || OptionBefore(s, i, wide);
    }
  }

  lemma {:induction false} ScanNext(s: string, i: nat, d: Dir, wide: Alnum)
    requires i < |s| && if OptionBefore(s, i, wide) then d.found else Remembers(s, i, d, wide)
    ensures var e := DirStep(d, s[i], wide);
            if OptionBefore(s, i + 1, wide) then e.found else Remembers(s, i + 1, e, wide)
  {
    BeforeSnoc(s, i, wide);
    if !OptionBefore(s, i, wide) { ScanStep(s, i, d, wide); }
  }

  /** At the end of the block the scan asks for the word itself. */
  lemma {:induction false} LastWord(s: string, d: Dir, wide: Alnum)
    requires Remembers(s, |s|, d, wide)
    ensures DirHit(d) <==> OptionAt(s, |s|, wide)
  {
    TokenIs(s, |s|, d, wide);
    if d.token == SERVERS { WordStep(s, |s| - 1, wide); }
  }

  /** Some top-level `servers` option in the inside of a block. */
  ghost predicate HasOption(s: string, wide: Alnum) {
    exists j: nat :: j <= |s| && OptionAt(s, j, wide)
  }

  /** The search reports an option exactly when there is one in the block. */
  lemma {:induction false} ServersMeans(text: string, opening: nat, closing: nat, wide: Alnum)
    requires opening < closing <= |text|
    ensures HasServers(text, opening, closing, wide) <==> HasOption(text[opening + 1..closing], wide)
  {
    var s := text[opening + 1..closing];
    Scan(s, |s|, wide);
    assert s[..|s|] == s;
    BeforeSnoc(s, |s|, wide);
    if !OptionBefore(s, |s|, wide) { LastWord(s, DirRun(INSIDE, s, wide), wide); }
    assert OptionBefore(s, |s| + 1, wide) <==> HasOption(s, wide);
  }
}
