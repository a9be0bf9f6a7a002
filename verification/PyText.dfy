/** The character classes and the trimming of Python's `str`. */
module PyText {

  predicate IsSpace(c: char) {
    || '\U{09}' <= c <= '\U{0D}'
    || '\U{1C}' <= c <= ' '
    || c == '\U{85}' || c == '\U{A0}' || c == '\U{1680}' || '\U{2028}' <= c <= '\U{2029}'
    || c == '\U{202F}' || c == '\U{205F}' || c == '\U{3000}'
    || '\U{2000}' <= c <= '\U{200A}'
  }

  /** The characters that end a line for `splitlines`. */
  predicate IsLineBreak(c: char) {
    || '\n' <= c <= '\r'
    || '\U{1C}' <= c <= '\U{1E}'
    || c == '\U{85}' || '\U{2028}' <= c <= '\U{2029}'
  }

  function TrimLeft(s: string): string {
    if s != [] && IsSpace(s[0]) then TrimLeft(s[1..]) else s
  }

  function TrimRight(s: string): string {
    if s != [] && IsSpace(s[|s| - 1]) then TrimRight(s[..|s| - 1]) else s
  }

  function Trim(s: string): string {
    TrimRight(TrimLeft(s))
  }

  /** Nothing to trim at either end. */
  predicate Trimmed(s: string) {
    s == [] || (!IsSpace(s[0]) && !IsSpace(s[|s| - 1]))
  }

  lemma {:induction false} TrimmedIsItsTrim(s: string)
    requires Trimmed(s)
    ensures Trim(s) == s
  {
  }

  lemma {:induction false} InTail(s: string)
    requires s != []
    ensures forall c | c in s[1..] :: c in s
  {
  }
}
