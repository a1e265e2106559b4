/**
 * The older tokeniser of src/scanner.rs: the same cursor design as the lexer, for a
 * smaller alphabet (keywords, identifiers made of letters and `_` only, constants and
 * five punctuators). Instead of panicking on an unknown character it returns `None`,
 * which ends the token stream.
 */
module Scanner {
  import opened Wrappers
  import opened Chars
  import Decimal

  datatype Token =
    | Id(name: string)
    | Void
    | Int
    | LParen
    | RParen
    | LBrace
    | RBrace
    | Return
    | Constant(text: string)
    | Semicolon

  /** One call of `next`: the token it returns (`None` ends the stream) and the cursor after it. */
  datatype Scan = Scan(token: Option<Token>, at: nat)

  /** Where the run of letters and `_` starting at `i` ends: the loop of `identifier` (no digits). */
  function AlphaRunEnd(s: string, i: nat): (j: nat)
    requires i <= |s|
    ensures i <= j <= |s|
    ensures forall k | i <= k < j :: IsAlpha(s[k])
    ensures j == |s| || !IsAlpha(s[j])
    decreases |s| - i
  {
    if i < |s| && IsAlpha(s[i]) then AlphaRunEnd(s, i + 1) else i
  }

  lemma AlphaRunEndIs(s: string, i: nat, j: nat)
    requires i <= j <= |s|
    requires forall k | i <= k < j :: IsAlpha(s[k])
    requires j == |s| || !IsAlpha(s[j])
    ensures AlphaRunEnd(s, i) == j
  {
  }

  /** `return`, `int` and `void` by their exact text; every other word is an `Id`. */
  function Keyword(word: string): (t: Token)
    ensures t.Id? <==> word != "return" && word != "int" && word != "void"
    ensures t.Id? ==> t.name == word
  {
    if word == "return" then Return
    else if word == "int" then Int
    else if word == "void" then Void
    else Id(word)
  }

  /** The single-character tokens, or `None` for a character the scanner does not know. */
  function Punctuator(c: char): (r: Option<Token>)
    ensures r.Some? ==> Spelling(r.value) == [c]
  {
    match c
    case '(' => Some(LParen)
    case ')' => Some(RParen)
    case '{' => Some(LBrace)
    case '}' => Some(RBrace)
    case ';' => Some(Semicolon)
    case _ => None
  }

  /** A character `next` has no arm for. */
  predicate Unknown(c: char) {
    !IsWhitespace(c) && !IsDigit(c) && !IsAlpha(c) && Punctuator(c).None?
  }

  /** At the first non-blank position `start`, the stream is over: the text ended or the character is unknown. */
  predicate StreamEnds(s: string, start: nat)
    requires start <= |s|
  {
    start == |s| || Unknown(s[start])
  }

  /** The arms of `next` for the character at `pos`, which is not whitespace. */
  function TokenAt(s: string, pos: nat): (r: Scan)
    requires pos < |s| && !IsWhitespace(s[pos])
    ensures pos < r.at <= |s|
  {
    var c, i := s[pos], pos + 1;
    if IsDigit(c) then
      var j := DigitRunEnd(s, i);
      Scan(Some(Constant(s[pos..j])), j)
    else if IsAlpha(c) then
      var j := AlphaRunEnd(s, i);
      Scan(Some(Keyword(s[pos..j])), j)
    else Scan(Punctuator(c), i)
  }

  /** One call of `next` with the cursor at `pos`. */
  function NextToken(s: string, pos: nat): (r: Scan)
    requires pos <= |s|
    ensures pos <= r.at <= |s|
    ensures r.token.Some? ==> pos < r.at
  {
    var start := SkipWhitespace(s, pos);
    if start == |s| then Scan(None, start) else TokenAt(s, start)
  }

  /** `next` returns `None` exactly when only whitespace is left or the next non-blank character is unknown. */
  lemma NextTokenNone(s: string, pos: nat)
    requires pos <= |s|
    ensures NextToken(s, pos).token.None? <==> StreamEnds(s, SkipWhitespace(s, pos))
  {
  }

  /** `Scanner::new(s)` advanced to `pos`, then `collect()`ed: the tokens up to the first `None`. */
  function Tokenize(s: string, pos: nat): seq<Token>
    requires pos <= |s|
    decreases |s| - pos
  {
    var scan := NextToken(s, pos);
    if scan.token.None? then [] else [scan.token.value] + Tokenize(s, scan.at)
  }

  // ---------------------------------------------------------------------------
  // Properties of the token stream
  // ---------------------------------------------------------------------------

  /** Input made only of spaces, tabs and newlines yields no tokens. */
  lemma WhitespaceOnlyYieldsNothing(s: string)
    requires forall k | 0 <= k < |s| :: IsWhitespace(s[k])
    ensures Tokenize(s, 0) == []
  {
    SkipWhitespaceIs(s, 0, |s|);
  }

  /** A run of digits followed only by whitespace is one constant with exactly that text ("1124\n"). */
  lemma DigitRunIsOneConstant(d: string, w: string)
    requires |d| >= 1 && Decimal.AllDigits(d)
    requires forall k | 0 <= k < |w| :: IsWhitespace(w[k])
    ensures Tokenize(d + w, 0) == [Constant(d)]
  {
    var s := d + w;
    forall k | 0 <= k < |d| ensures s[k] == d[k] {
    }
    forall k | |d| <= k < |s| ensures IsWhitespace(s[k]) {
      assert s[k] == w[k - |d|];
    }
    DigitRunEndIs(s, 1, |d|);
    assert s[0..|d|] == d;
    assert SkipWhitespace(s, 0) == 0;
    assert TokenAt(s, 0) == Scan(Some(Constant(d)), |d|);
    SkipWhitespaceIs(s, |d|, |s|);
    assert Tokenize(s, |d|) == [];
    assert [Constant(d)] + [] == [Constant(d)];
  }

  /** Identifiers hold no digits here: a word followed by digits is two tokens. */
  lemma DigitEndsIdentifier(a: string, d: string)
    requires |a| >= 1 && (forall k | 0 <= k < |a| :: IsAlpha(a[k]))
    requires a != "return" && a != "int" && a != "void"
    requires |d| >= 1 && Decimal.AllDigits(d)
    ensures Tokenize(a + d, 0) == [Id(a), Constant(d)]
  {
    var s := a + d;
    forall k | 0 <= k < |a| ensures s[k] == a[k] {
    }
    forall k | |a| <= k < |s| ensures s[k] == d[k - |a|] && IsDigit(s[k]) {
    }
    AlphaRunEndIs(s, 1, |a|);
    assert s[0..|a|] == a;
    assert SkipWhitespace(s, 0) == 0;
    assert NextToken(s, 0) == Scan(Some(Id(a)), |a|);
    DigitRunEndIs(s, |a| + 1, |s|);
    assert s[|a|..|s|] == d;
    assert SkipWhitespace(s, |a|) == |a|;
    assert NextToken(s, |a|) == Scan(Some(Constant(d)), |s|);
    assert Tokenize(s, |s|) == [];
  }

  /** Whatever follows it, an unknown character ends the stream without an error. */
  lemma UnknownCharacterEndsStream(c: char, rest: string)
    requires Unknown(c)
    ensures Tokenize([c] + rest, 0) == []
  {
    var s := [c] + rest;
    assert SkipWhitespace(s, 0) == 0;
  }

  // Lexing only looks forward: text in front of the cursor changes nothing.

  lemma AlphaRunEndShift(t: string, d: nat, s: string, i: nat)
    requires Shifted(t, d, s) && i <= |s|
    ensures AlphaRunEnd(t, d + i) == d + AlphaRunEnd(s, i)
  {
    var j := AlphaRunEnd(s, i);
    forall k | d + i <= k < d + j ensures IsAlpha(t[k]) {
      assert t[k] == s[k - d];
    }
    if j < |s| {
      assert t[d + j] == s[j];
    }
    AlphaRunEndIs(t, d + i, d + j);
  }

  lemma TokenAtShift(t: string, d: nat, s: string, i: nat)
    requires Shifted(t, d, s) && i < |s| && !IsWhitespace(s[i])
    ensures t[d + i] == s[i]
    ensures TokenAt(t, d + i) == Scan(TokenAt(s, i).token, d + TokenAt(s, i).at)
  {
    var c := s[i];
    assert t[d + i] == c;
    if IsDigit(c) {
      DigitRunEndShift(t, d, s, i + 1);
      SliceShift(t, d, s, i, DigitRunEnd(s, i + 1));
    } else if IsAlpha(c) {
      AlphaRunEndShift(t, d, s, i + 1);
      SliceShift(t, d, s, i, AlphaRunEnd(s, i + 1));
    }
  }

  lemma NextTokenShift(t: string, d: nat, s: string, i: nat)
    requires Shifted(t, d, s) && i <= |s|
    ensures NextToken(t, d + i) == Scan(NextToken(s, i).token, d + NextToken(s, i).at)
  {
    SkipWhitespaceShift(t, d, s, i);
    var j := SkipWhitespace(s, i);
    if j < |s| {
      TokenAtShift(t, d, s, j);
    }
  }

  /** What the scanner yields from a position does not depend on the text in front of it. */
  lemma {:induction false} TokenizeShift(t: string, d: nat, s: string, i: nat)
    requires Shifted(t, d, s) && i <= |s|
    ensures Tokenize(t, d + i) == Tokenize(s, i)
    decreases |s| - i
  {
    NextTokenShift(t, d, s, i);
    var scan := NextToken(s, i);
    if scan.token.Some? {
      TokenizeShift(t, d, s, scan.at);
    }
  }

  /** The source text of a token. */
  function Spelling(t: Token): string {
    match t
    case Id(name) => name
    case Constant(text) => text
    case Void => "void"
    case Int => "int"
    case Return => "return"
    case LParen => "("
    case RParen => ")"
    case LBrace => "{"
    case RBrace => "}"
    case Semicolon => ";"
  }

  /** Tokens the scanner can produce: identifiers made of letters and `_` that are not keywords, digit runs. */
  predicate Scannable(t: Token) {
    match t
    case Id(name) =>
      |name| >= 1 && (forall k | 0 <= k < |name| :: IsAlpha(name[k]))
      && name != "return" && name != "int" && name != "void"
    case Constant(text) => |text| >= 1 && Decimal.AllDigits(text)
    case _ => true
  }

  /** The tokens written out, each followed by one space. */
  function Render(ts: seq<Token>): string {
    if ts == [] then "" else Spelling(ts[0]) + " " + Render(ts[1..])
  }

  lemma SpellingScans(t: Token, rest: string)
    requires Scannable(t)
    ensures NextToken(Spelling(t) + " " + rest, 0) == Scan(Some(t), |Spelling(t)|)
  {
    var w := Spelling(t);
    var s := w + " " + rest;
    assert s[|w|] == ' ';
    forall k | 0 <= k < |w| ensures s[k] == w[k] {
    }
    assert s[0..|w|] == w;
    assert SkipWhitespace(s, 0) == 0;
    if t.Constant? {
      DigitRunEndIs(s, 1, |w|);
    } else if t.Id? || t == Return || t == Int || t == Void {
      AlphaRunEndIs(s, 1, |w|);
    }
  }

  /** A whitespace character under the cursor is skipped. */
  lemma WhitespaceSkipped(s: string, i: nat)
    requires i < |s| && IsWhitespace(s[i])
    ensures Tokenize(s, i) == Tokenize(s, i + 1)
  {
    assert SkipWhitespace(s, i) == SkipWhitespace(s, i + 1);
    assert NextToken(s, i) == NextToken(s, i + 1);
  }

  /** A token spelled out and followed by a space scans as itself, and the scan goes on with the text after the space. */
  lemma SpelledThenRest(t: Token, tail: string)
    requires Scannable(t)
    ensures Tokenize(Spelling(t) + " " + tail, 0) == [t] + Tokenize(tail, 0)
  {
    var w := Spelling(t);
    var s := w + " " + tail;
    SpellingScans(t, tail);
    assert s[|w|] == ' ';
    WhitespaceSkipped(s, |w|);
    assert s == (w + " ") + tail;
    AppendShifted(w + " ", tail);
    TokenizeShift(s, |w| + 1, tail, 0);
  }

  /** Producible tokens written out with a space after each scan back to exactly those tokens. */
  lemma {:induction false} RenderRoundTrip(ts: seq<Token>)
    requires forall k | 0 <= k < |ts| :: Scannable(ts[k])
    ensures Tokenize(Render(ts), 0) == ts
    decreases |ts|
  {
    if ts != [] {
      RenderRoundTrip(ts[1..]);
      SpelledThenRest(ts[0], Render(ts[1..]));
      assert [ts[0]] + ts[1..] == ts;
    }
  }

  /**
   * The same round trip when an unknown character follows the tokens: it ends the stream
   * silently, whatever comes after it.
   */
  lemma {:induction false} RenderUnknownRoundTrip(ts: seq<Token>, c: char, rest: string)
    requires forall k | 0 <= k < |ts| :: Scannable(ts[k])
    requires Unknown(c)
    ensures Tokenize(Render(ts) + [c] + rest, 0) == ts
    decreases |ts|
  {
    if ts == [] {
      UnknownCharacterEndsStream(c, rest);
    } else {
      var tail := Render(ts[1..]) + [c] + rest;
      assert Render(ts) + [c] + rest == Spelling(ts[0]) + " " + tail;
      SpelledThenRest(ts[0], tail);
      RenderUnknownRoundTrip(ts[1..], c, rest);
      assert [ts[0]] + ts[1..] == ts;
    }
  }

  // ---------------------------------------------------------------------------
  // The cursor
  // ---------------------------------------------------------------------------

  class Scanner {
    const source: string
    var position: nat

    ghost predicate Valid()
      reads this
    {
      position <= |source|
    }

    constructor (source: string)
      ensures Valid()
      ensures this.source == source && position == 0
    {
      this.source := source;
      position := 0;
    }

    function Peek(): (c: Option<char>)
      reads this
      requires Valid()
      ensures c.Some? <==> position < |source|
      ensures c.Some? ==> c.value == source[position]
    {
      if position >= |source| then None else Some(source[position])
    }

    /** The cursor only moves forward, by one, and only when a character is returned. */
    method NextChar() returns (c: Option<char>)
      requires Valid()
      modifies this
      ensures Valid()
      ensures old(position) < |source| ==> c == Some(source[old(position)]) && position == old(position) + 1
      ensures old(position) >= |source| ==> c == None && position == old(position)
    {
      if position >= |source| {
        c := None;
      } else {
        position := position + 1;
        c := Some(source[position - 1]);
      }
    }

    /** Called just after a digit was taken, so the constant starts one character back. */
    method Constant() returns (t: Option<Token>)
      requires Valid() && 0 < position
      modifies this
      ensures Valid()
      ensures position == DigitRunEnd(source, old(position))
      ensures t == Some(Token.Constant(source[old(position) - 1..position]))
    {
      var start := position - 1;
      while IsDigit(Peek().GetOr('_'))
        invariant Valid() && old(position) <= position
        invariant DigitRunEnd(source, position) == DigitRunEnd(source, old(position))
        decreases |source| - position
      {
        position := position + 1;
      }
      t := Some(Token.Constant(source[start..position]));
    }

    /** Called just after a letter or `_` was taken, so the word starts one character back. */
    method Identifier() returns (t: Option<Token>)
      requires Valid() && 0 < position
      modifies this
      ensures Valid()
      ensures position == AlphaRunEnd(source, old(position))
      ensures t == Some(Keyword(source[old(position) - 1..position]))
    {
      var start := position - 1;
      while IsAlpha(Peek().GetOr(' '))
        invariant Valid() && old(position) <= position
        invariant AlphaRunEnd(source, position) == AlphaRunEnd(source, old(position))
        decreases |source| - position
      {
        position := position + 1;
      }
      var id := source[start..position];
      var token: Token;
      if id == "return" {
        token := Return;
      } else if id == "int" {
        token := Int;
      } else if id == "void" {
        token := Void;
      } else {
        token := Id(id);
      }
      t := Some(token);
    }

    /** `Iterator::next`. */
    method Next() returns (t: Option<Token>)
      requires Valid()
      modifies this
      ensures Valid()
      ensures Scan(t, position) == NextToken(source, old(position))
    {
      while true
        invariant Valid() && old(position) <= position
        invariant SkipWhitespace(source, position) == SkipWhitespace(source, old(position))
        decreases |source| - position
      {
        var next := NextChar();
        if next.None? {
          return None;
        }
        var c := next.value;
        if IsWhitespace(c) {
          continue;
        }
        if IsDigit(c) {
          t := Constant();
          return;
        }
        if IsAlpha(c) {
          t := Identifier();
          return;
        }
        match c {
          case '(' => return Some(LParen);
          case ')' => return Some(RParen);
          case '{' => return Some(LBrace);
          case '}' => return Some(RBrace);
          case ';' => return Some(Semicolon);
          case _ => return None;
        }
      }
    }
  }
}
