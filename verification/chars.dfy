/**
 * The three character classes that both tokenisers use (`is_digit`, `is_whitespace`
 * and `is_alpha` are written out identically in src/lexer.rs and src/scanner.rs).
 * The source asks `"…".contains(s)` of a one-character string; over ASCII input that is
 * membership of the character in the listed alphabet, written here as character ranges.
 */
module Chars {

  predicate IsDigit(c: char) {
    '0' <= c <= '9'
  }

  /** Only space, tab and newline: a carriage return is not whitespace here. */
  predicate IsWhitespace(c: char) {
    c == ' ' || c == '\t' || c == '\n'
  }

  /** Letters and the underscore; digits are not alphabetic. */
  predicate IsAlpha(c: char) {
    'a' <= c <= 'z' || 'A' <= c <= 'Z' || c == '_'
  }

  /** The three classes never overlap, so the order of the guards in `next` decides nothing. */
  lemma ClassesDisjoint(c: char)
    ensures !(IsDigit(c) && IsAlpha(c))
    ensures !(IsDigit(c) && IsWhitespace(c))
    ensures !(IsAlpha(c) && IsWhitespace(c))
  {
  }

  /** Where the run of digits starting at `i` ends: the `while` loop of `constant` in both tokenisers. */
  function DigitRunEnd(s: string, i: nat): (j: nat)
    requires i <= |s|
    ensures i <= j <= |s|
    ensures forall k | i <= k < j :: IsDigit(s[k])
    ensures j == |s| || !IsDigit(s[j])
    decreases |s| - i
  {
    if i < |s| && IsDigit(s[i]) then DigitRunEnd(s, i + 1) else i
  }

  /** The whitespace-skipping `continue` of `next` in both tokenisers: the first position at or after `pos` that is not whitespace. */
  function SkipWhitespace(s: string, pos: nat): (j: nat)
    requires pos <= |s|
    ensures pos <= j <= |s|
    ensures forall k | pos <= k < j :: IsWhitespace(s[k])
    ensures j == |s| || !IsWhitespace(s[j])
    decreases |s| - pos
  {
    if pos < |s| && IsWhitespace(s[pos]) then SkipWhitespace(s, pos + 1) else pos
  }

  /** The end of a digit run is the first position past `i` that does not hold a digit. */
  lemma DigitRunEndIs(s: string, i: nat, j: nat)
    requires i <= j <= |s|
    requires forall k | i <= k < j :: IsDigit(s[k])
    requires j == |s| || !IsDigit(s[j])
    ensures DigitRunEnd(s, i) == j
  {
  }

  lemma SkipWhitespaceIs(s: string, i: nat, j: nat)
    requires i <= j <= |s|
    requires forall k | i <= k < j :: IsWhitespace(s[k])
    requires j == |s| || !IsWhitespace(s[j])
    ensures SkipWhitespace(s, i) == j
  {
  }

  /** `t` holds all of `s` from position `d` on, and nothing after it. */
  predicate Shifted(t: string, d: nat, s: string) {
    |t| == d + |s| && forall k | 0 <= k < |s| :: t[d + k] == s[k]
  }

  /** A string with text put in front of it is shifted by the length of that text. */
  lemma AppendShifted(p: string, s: string)
    ensures Shifted(p + s, |p|, s)
  {
  }

  /** Text in front of the cursor does not change where the whitespace ends. */
  lemma SkipWhitespaceShift(t: string, d: nat, s: string, i: nat)
    requires Shifted(t, d, s) && i <= |s|
    ensures SkipWhitespace(t, d + i) == d + SkipWhitespace(s, i)
  {
    var j := SkipWhitespace(s, i);
    forall k | d + i <= k < d + j ensures IsWhitespace(t[k]) {
      assert t[k] == s[k - d];
    }
    if j < |s| {
      assert t[d + j] == s[j];
    }
    SkipWhitespaceIs(t, d + i, d + j);
  }

  /** Text in front of the cursor does not change where a digit run ends. */
  lemma DigitRunEndShift(t: string, d: nat, s: string, i: nat)
    requires Shifted(t, d, s) && i <= |s|
    ensures DigitRunEnd(t, d + i) == d + DigitRunEnd(s, i)
  {
    var j := DigitRunEnd(s, i);
    forall k | d + i <= k < d + j ensures IsDigit(t[k]) {
      assert t[k] == s[k - d];
    }
    if j < |s| {
      assert t[d + j] == s[j];
    }
    DigitRunEndIs(t, d + i, d + j);
  }

  /** The same stretch of `s`, read through `t`. */
  lemma SliceShift(t: string, d: nat, s: string, i: nat, j: nat)
    requires Shifted(t, d, s) && i <= j <= |s|
    ensures t[d + i..d + j] == s[i..j]
  {
    forall k | 0 <= k < j - i ensures t[d + i..d + j][k] == s[i..j][k] {
      assert t[d + (i + k)] == s[i + k];
    }
  }
}
