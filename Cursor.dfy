/** The character cursor `Ch`: a text and a position in it, with one
    character of lookahead, single-character consumption and skipping of
    spaces. */
module Cursor {

  predicate IsDigit(ch: char)
  {
    '0' <= ch <= '9'
  }

  /** What `str.isdigit` answers for the strings the cursor yields: true for a
      non-empty string of decimal digits (only '0'..'9' are digits here). */
  predicate IsDigitText(p: string)
  {
    |p| > 0 && forall k | 0 <= k < |p| :: IsDigit(p[k])
  }

  /** The lookahead at position `i`: the character there as a one-character
      string, or the empty string past the end. */
  function PeekAt(s: string, i: nat): string
  {
    if i < |s| then [s[i]] else ""
  }

  /** The first position at or after `i` that does not hold a space. */
  function SkipSpaces(s: string, i: nat): (r: nat)
    requires i <= |s|
    ensures i <= r <= |s|
    ensures forall k | i <= k < r :: s[k] == ' '
    ensures r == |s| || s[r] != ' '
    decreases |s| - i
  {
    if i < |s| && s[i] == ' ' then SkipSpaces(s, i + 1) else i
  }

  /** Skipping spaces twice skips no more than skipping them once. */
  lemma SkipSpacesIdempotent(s: string, i: nat)
    requires i <= |s|
    ensures SkipSpaces(s, SkipSpaces(s, i)) == SkipSpaces(s, i)
  {
  }

  /** A cursor over the text `s`.  Only the position `c` ever changes, and
      only forwards. */
  class Ch {
    const s: string
    var c: nat

    /** The position never passes the end of the text. */
    ghost predicate Valid()
      reads this
    {
      c <= |s|
    }

    constructor (s: string, c: nat)
      requires c <= |s|
      ensures Valid()
      ensures this.s == s && this.c == c
    {
      this.s := s;
      this.c := c;
    }

    /** The next character, as a one-character string, or the empty string
        once the text is used up.  It never fails and never moves. */
    function Peek(): (r: string)
      reads this
      ensures |r| <= 1
      ensures r == "" <==> |s| <= c
      ensures r != "" ==> r[0] == s[c]
    {
      PeekAt(s, c)
    }

    /** The cursor is used up exactly when there is nothing to peek at. */
    function IsOver(): (r: bool)
      reads this
      ensures r <==> Peek() == ""
    {
      c >= |s|
    }

    /** Consumes and returns one character.  Indexing past the end fails in
        the source, so callers must have seen a character first. */
    method Adv() returns (ch: char)
      requires Valid() && !IsOver()
      modifies this
      ensures Valid()
      ensures c == old(c) + 1
      ensures ch == s[old(c)]
    {
      ch := s[c];
      c := c + 1;
    }

    /** Consumes the run of ' ' characters at the cursor (tabs and newlines
        are not skipped). */
    method SkipSpace()
      requires Valid()
      modifies this
      ensures Valid()
      ensures c == SkipSpaces(s, old(c))
    {
      while !IsOver() && Peek() == " "
        invariant Valid() && old(c) <= c
        invariant SkipSpaces(s, c) == SkipSpaces(s, old(c))
        decreases |s| - c
      {
        var _ := Adv();
      }
    }
  }
}
