/**
 * The tokeniser of src/lexer.rs: a cursor over the source text that yields one
 * token per call of `next`, using maximal munch for the two- and three-character
 * operators and panicking on any character it does not know.
 *
 * `NextToken` is the specification of one call of `next` and `Tokenize` that of
 * collecting the whole stream; the class `Lexer` is the cursor itself, and its
 * methods are proved to follow those specifications.
 */
module Lexer {
  import opened Wrappers
  import opened Chars
  import Decimal

  datatype Token =
    | Id(name: string)
    | Void
    | Int
    | LParen
    | RParen
    | LBrace
    | RBrace
    | Return
    | Constant(text: string)
    | Semicolon
    | Tilde
    | Plus
    | Minus
    | Star
    | Slash
    | Percent
    | DoubleMinus
    | Ampersand
    | DoubleAmpersand
    | Pipe
    | DoublePipe
    | RAngle
    | LAngle
    | DoubleRAngle
    | DoubleLAngle
    | Caret
    | Bang
    | BangEquals
    | Equals
    | DoubleEquals
    | RAngleEquals
    | LAngleEquals
    | PlusEquals
    | MinusEquals
    | StarEquals
    | SlashEquals
    | PercentEquals
    | AmpersandEquals
    | PipeEquals
    | CaretEquals
    | DoubleLAngleEquals
    | DoubleRAngleEquals

  /** What one call of `next` does: yield a token, report the end (`None`), or panic. */
  datatype Step = Yield(token: Token) | Exhausted | Panic(message: string)

  /** A step together with the cursor position it leaves behind. */
  datatype Scan = Scan(step: Step, at: nat)

  // ---------------------------------------------------------------------------
  // Specification of one call of `next`
  // ---------------------------------------------------------------------------

  predicate IsWordChar(c: char) {
    IsAlpha(c) || IsDigit(c)
  }

  /** Where the run of letters, digits and `_` starting at `i` ends: the loop of `identifier`. */
  function WordEnd(s: string, i: nat): (j: nat)
    requires i <= |s|
    ensures i <= j <= |s|
    ensures forall k | i <= k < j :: IsWordChar(s[k])
    ensures j == |s| || !IsWordChar(s[j])
    decreases |s| - i
  {
    if i < |s| && IsWordChar(s[i]) then WordEnd(s, i + 1) else i
  }

  /** The three keywords are recognised by their exact text; every other word is an `Id`. */
  function Keyword(word: string): (t: Token)
    ensures t.Id? <==> word != "return" && word != "int" && word != "void"
    ensures t.Id? ==> t.name == word
  {
    if word == "return" then Return
    else if word == "int" then Int
    else if word == "void" then Void
    else Id(word)
  }

  predicate Follows(s: string, i: nat, c: char) {
    i < |s| && s[i] == c
  }

  /** `check_next_char` with the cursor at `i`. */
  function CheckNext(s: string, i: nat, c: char, present: Token, absent: Token): (r: Scan)
    requires i <= |s|
  {
    if Follows(s, i, c) then Scan(Yield(present), i + 1) else Scan(Yield(absent), i)
  }

  /** The punctuator arms of `next`, once the character `c` has been taken and the cursor is at `i`. */
  function Punctuator(s: string, c: char, i: nat): (r: Scan)
    requires i <= |s|
    ensures i <= r.at <= |s| && r.at <= i + 2
  {
    match c
    case '-' =>
      if Follows(s, i, '-') then Scan(Yield(DoubleMinus), i + 1)
      else CheckNext(s, i, '=', MinusEquals, Minus)
    case '<' =>
      if Follows(s, i, '<') then CheckNext(s, i + 1, '=', DoubleLAngleEquals, DoubleLAngle)
      else CheckNext(s, i, '=', LAngleEquals, LAngle)
    case '>' =>
      if Follows(s, i, '>') then CheckNext(s, i + 1, '=', DoubleRAngleEquals, DoubleRAngle)
      else CheckNext(s, i, '=', RAngleEquals, RAngle)
    case '&' =>
      if Follows(s, i, '&') then Scan(Yield(DoubleAmpersand), i + 1)
      else CheckNext(s, i, '=', AmpersandEquals, Ampersand)
    case '|' =>
      if Follows(s, i, '|') then Scan(Yield(DoublePipe), i + 1)
      else CheckNext(s, i, '=', PipeEquals, Pipe)
    case '=' => CheckNext(s, i, '=', DoubleEquals, Equals)
    case '!' => CheckNext(s, i, '=', BangEquals, Bang)
    case '~' => Scan(Yield(Tilde), i)
    case '(' => Scan(Yield(LParen), i)
    case ')' => Scan(Yield(RParen), i)
    case '{' => Scan(Yield(LBrace), i)
    case '}' => Scan(Yield(RBrace), i)
    case ';' => Scan(Yield(Semicolon), i)
    case '+' => CheckNext(s, i, '=', PlusEquals, Plus)
    case '/' => CheckNext(s, i, '=', SlashEquals, Slash)
    case '%' => CheckNext(s, i, '=', PercentEquals, Percent)
    case '*' => CheckNext(s, i, '=', StarEquals, Star)
    case '^' => CheckNext(s, i, '=', CaretEquals, Caret)
    case _ => Scan(Panic("Bad token " + [c]), i)
  }

  /** The arms of `next` for the character at `pos`, which is not whitespace. */
  function TokenAt(s: string, pos: nat): (r: Scan)
    requires pos < |s| && !IsWhitespace(s[pos])
    ensures pos < r.at <= |s|
  {
    var c, i := s[pos], pos + 1;
    if IsDigit(c) then
      var j := DigitRunEnd(s, i);
      if j < |s| && IsAlpha(s[j]) then Scan(Panic("Bad token"), j)
      else Scan(Yield(Constant(s[pos..j])), j)
    else if IsAlpha(c) then
      var j := WordEnd(s, i);
      Scan(Yield(Keyword(s[pos..j])), j)
    else Punctuator(s, c, i)
  }

  /**
   * One call of `next` with the cursor at `pos`: whitespace is skipped, and every
   * yielded token consumes at least one character.
   */
  function NextToken(s: string, pos: nat): (r: Scan)
    requires pos <= |s|
    ensures pos <= r.at <= |s|
    ensures r.step.Yield? ==> pos < r.at
  {
    var start := SkipWhitespace(s, pos);
    if start == |s| then Scan(Exhausted, start) else TokenAt(s, start)
  }

  /** `next` reports the end exactly when only whitespace is left, and then the cursor is at the end. */
  lemma NextTokenExhausted(s: string, pos: nat)
    requires pos <= |s|
    ensures NextToken(s, pos).step.Exhausted? <==> forall k | pos <= k < |s| :: IsWhitespace(s[k])
    ensures NextToken(s, pos).step.Exhausted? ==> NextToken(s, pos).at == |s|
  {
  }

  /** `Lexer::new(s)` advanced to `pos`, then `collect()`ed: every token up to the end, or the first panic. */
  function Tokenize(s: string, pos: nat): Result<seq<Token>>
    requires pos <= |s|
    decreases |s| - pos
  {
    var scan := NextToken(s, pos);
    match scan.step
    case Exhausted => Ok([])
    case Panic(m) => Err(m)
    case Yield(t) =>
      match Tokenize(s, scan.at)
      case Ok(ts) => Ok([t] + ts)
      case Err(m) => Err(m)
  }

  // ---------------------------------------------------------------------------
  // Properties of the token stream
  // ---------------------------------------------------------------------------

  /** Input made only of spaces, tabs and newlines yields no tokens. */
  lemma WhitespaceOnlyYieldsNothing(s: string)
    requires forall k | 0 <= k < |s| :: IsWhitespace(s[k])
    ensures Tokenize(s, 0) == Ok([])
  {
  }

  lemma WordEndIs(s: string, i: nat, j: nat)
    requires i <= j <= |s|
    requires forall k | i <= k < j :: IsWordChar(s[k])
    requires j == |s| || !IsWordChar(s[j])
    ensures WordEnd(s, i) == j
  {
  }

  /** A run of digits followed only by whitespace is one constant with exactly that text ("1124\n"). */
  lemma DigitRunIsOneConstant(d: string, w: string)
    requires |d| >= 1 && Decimal.AllDigits(d)
    requires forall k | 0 <= k < |w| :: IsWhitespace(w[k])
    ensures Tokenize(d + w, 0) == Ok([Constant(d)])
  {
    var s := d + w;
    forall k | 0 <= k < |d| ensures s[k] == d[k] {
    }
    forall k | |d| <= k < |s| ensures IsWhitespace(s[k]) {
      assert s[k] == w[k - |d|];
    }
    DigitRunEndIs(s, 1, |d|);
    assert s[0..|d|] == d;
    assert SkipWhitespace(s, 0) == 0;
    assert TokenAt(s, 0) == Scan(Yield(Constant(d)), |d|);
    assert NextToken(s, |d|).step == Exhausted;
    assert Tokenize(s, |d|) == Ok([]);
    assert [Constant(d)] + [] == [Constant(d)];
  }

  /** A digit run immediately followed by a letter or `_` is a bad token. */
  lemma DigitsThenLetterPanic(d: string, c: char, rest: string)
    requires |d| >= 1 && Decimal.AllDigits(d) && IsAlpha(c)
    ensures Tokenize(d + [c] + rest, 0) == Err("Bad token")
  {
    var s := d + [c] + rest;
    forall k | 0 <= k < |d| ensures s[k] == d[k] {
    }
    assert s[|d|] == c;
    DigitRunEndIs(s, 1, |d|);
    assert SkipWhitespace(s, 0) == 0;
    assert NextToken(s, 0).step == Panic("Bad token");
  }

  /** Any ASCII character outside the recognised set is a bad token. */
  lemma UnknownCharacterPanics(c: char, rest: string)
    requires c < 128 as char
    requires !IsWhitespace(c) && !IsWordChar(c) && c !in "-<>&|=!~(){};+/%*^"
    ensures Tokenize([c] + rest, 0) == Err("Bad token " + [c])
  {
    var s := [c] + rest;
    assert SkipWhitespace(s, 0) == 0;
    assert NextToken(s, 0).step == Panic("Bad token " + [c]);
  }

  // Lexing only looks forward: text in front of the cursor changes nothing.

  lemma FollowsShift(t: string, d: nat, s: string, i: nat, c: char)
    requires Shifted(t, d, s)
    ensures Follows(t, d + i, c) == Follows(s, i, c)
  {
    if i < |s| {
      assert t[d + i] == s[i];
    }
  }

  lemma PunctuatorShift(t: string, d: nat, s: string, c: char, i: nat)
    requires Shifted(t, d, s) && i <= |s|
    ensures Punctuator(t, c, d + i) == Scan(Punctuator(s, c, i).step, d + Punctuator(s, c, i).at)
  {
    FollowsShift(t, d, s, i, '-');
    FollowsShift(t, d, s, i, '<');
    FollowsShift(t, d, s, i, '>');
    FollowsShift(t, d, s, i, '&');
    FollowsShift(t, d, s, i, '|');
    FollowsShift(t, d, s, i, '=');
    FollowsShift(t, d, s, i + 1, '=');
  }

  lemma WordEndShift(t: string, d: nat, s: string, i: nat)
    requires Shifted(t, d, s) && i <= |s|
    ensures WordEnd(t, d + i) == d + WordEnd(s, i)
  {
    var j := WordEnd(s, i);
    forall k | d + i <= k < d + j ensures IsWordChar(t[k]) {
      assert t[k] == s[k - d];
    }
    if j < |s| {
      assert t[d + j] == s[j];
    }
    WordEndIs(t, d + i, d + j);
  }

  lemma DigitTokenShift(t: string, d: nat, s: string, i: nat)
    requires Shifted(t, d, s) && i < |s| && IsDigit(s[i]) && t[d + i] == s[i]
    ensures TokenAt(t, d + i) == Scan(TokenAt(s, i).step, d + TokenAt(s, i).at)
  {
    DigitRunEndShift(t, d, s, i + 1);
    var j := DigitRunEnd(s, i + 1);
    SliceShift(t, d, s, i, j);
    if j < |s| {
      assert t[d + j] == s[j];
    }
  }

  lemma WordTokenShift(t: string, d: nat, s: string, i: nat)
    requires Shifted(t, d, s) && i < |s| && IsAlpha(s[i]) && t[d + i] == s[i]
    ensures TokenAt(t, d + i) == Scan(TokenAt(s, i).step, d + TokenAt(s, i).at)
  {
    WordEndShift(t, d, s, i + 1);
    SliceShift(t, d, s, i, WordEnd(s, i + 1));
  }

  lemma TokenAtShift(t: string, d: nat, s: string, i: nat)
    requires Shifted(t, d, s) && i < |s| && !IsWhitespace(s[i])
    ensures t[d + i] == s[i]
    ensures TokenAt(t, d + i) == Scan(TokenAt(s, i).step, d + TokenAt(s, i).at)
  {
    var c := s[i];
    assert t[d + i] == c;
    if IsDigit(c) {
      DigitTokenShift(t, d, s, i);
    } else if IsAlpha(c) {
      WordTokenShift(t, d, s, i);
    } else {
      PunctuatorShift(t, d, s, c, i + 1);
    }
  }

  lemma NextTokenShift(t: string, d: nat, s: string, i: nat)
    requires Shifted(t, d, s) && i <= |s|
    ensures NextToken(t, d + i) == Scan(NextToken(s, i).step, d + NextToken(s, i).at)
  {
    SkipWhitespaceShift(t, d, s, i);
    var j := SkipWhitespace(s, i);
    if j < |s| {
      TokenAtShift(t, d, s, j);
    }
  }

  /** What the lexer yields from a position does not depend on the text in front of it. */
  lemma {:induction false} TokenizeShift(t: string, d: nat, s: string, i: nat)
    requires Shifted(t, d, s) && i <= |s|
    ensures Tokenize(t, d + i) == Tokenize(s, i)
    decreases |s| - i
  {
    NextTokenShift(t, d, s, i);
    var scan := NextToken(s, i);
    if scan.step.Yield? {
      TokenizeShift(t, d, s, scan.at);
    }
  }

  // Round trip: the text of every token lexes back to that token.

  /** The source text of a token. */
  function Spelling(t: Token): string {
    match t
    case Id(name) => name
    case Constant(text) => text
    case Void => "void"
    case Int => "int"
    case Return => "return"
    case LParen => "("
    case RParen => ")"
    case LBrace => "{"
    case RBrace => "}"
    case Semicolon => ";"
    case Tilde => "~"
    case Plus => "+"
    case Minus => "-"
    case Star => "*"
    case Slash => "/"
    case Percent => "%"
    case DoubleMinus => "--"
    case Ampersand => "&"
    case DoubleAmpersand => "&&"
    case Pipe => "|"
    case DoublePipe => "||"
    case RAngle => ">"
    case LAngle => "<"
    case DoubleRAngle => ">>"
    case DoubleLAngle => "<<"
    case Caret => "^"
    case Bang => "!"
    case BangEquals => "!="
    case Equals => "="
    case DoubleEquals => "=="
    case RAngleEquals => ">="
    case LAngleEquals => "<="
    case PlusEquals => "+="
    case MinusEquals => "-="
    case StarEquals => "*="
    case SlashEquals => "/="
    case PercentEquals => "%="
    case AmpersandEquals => "&="
    case PipeEquals => "|="
    case CaretEquals => "^="
    case DoubleLAngleEquals => "<<="
    case DoubleRAngleEquals => ">>="
  }

  /** Tokens the lexer can produce: identifiers that are words but not keywords, non-empty digit runs. */
  predicate Lexable(t: Token) {
    match t
    case Id(name) =>
      |name| >= 1 && IsAlpha(name[0]) && (forall k | 0 <= k < |name| :: IsWordChar(name[k]))
      && name != "return" && name != "int" && name != "void"
    case Constant(text) => |text| >= 1 && Decimal.AllDigits(text)
    case _ => true
  }

  /** The tokens written out, each followed by one space. */
  function Render(ts: seq<Token>): string {
    if ts == [] then "" else Spelling(ts[0]) + " " + Render(ts[1..])
  }

  /** A keyword, identifier or constant followed by a space lexes as itself. */
  lemma WordLexes(t: Token, rest: string)
    requires Lexable(t) && (t.Id? || t.Constant? || t == Return || t == Int || t == Void)
    ensures TokenAt(Spelling(t) + " " + rest, 0) == Scan(Yield(t), |Spelling(t)|)
  {
    var w := Spelling(t);
    var s := w + " " + rest;
    assert s[|w|] == ' ';
    forall k | 0 <= k < |w| ensures s[k] == w[k] {
    }
    assert s[0..|w|] == w;
    if t.Constant? {
      DigitRunEndIs(s, 1, |w|);
    } else {
      WordEndIs(s, 1, |w|);
    }
  }

  /** A punctuator followed by a space lexes as itself. */
  lemma OperatorLexes(t: Token, rest: string)
    requires !(t.Id? || t.Constant? || t == Return || t == Int || t == Void)
    ensures |Spelling(t)| >= 1 && !IsWhitespace(Spelling(t)[0])
    ensures TokenAt(Spelling(t) + " " + rest, 0) == Scan(Yield(t), |Spelling(t)|)
  {
    if Doubling(t) {
      DoublingLexes(t, rest);
    } else {
      PlainLexes(t, rest);
    }
  }

  /** The operators that begin with `-`, `<`, `>`, `&` or `|`, characters that may come twice. */
  predicate Doubling(t: Token) {
    match t
    case Minus | DoubleMinus | MinusEquals => true
    case LAngle | DoubleLAngle | LAngleEquals | DoubleLAngleEquals => true
    case RAngle | DoubleRAngle | RAngleEquals | DoubleRAngleEquals => true
    case Ampersand | DoubleAmpersand | AmpersandEquals => true
    case Pipe | DoublePipe | PipeEquals => true
    case _ => false
  }

  lemma DoublingLexes(t: Token, rest: string)
    requires Doubling(t)
    ensures |Spelling(t)| >= 1 && !IsWhitespace(Spelling(t)[0])
    ensures TokenAt(Spelling(t) + " " + rest, 0) == Scan(Yield(t), |Spelling(t)|)
  {
    var w := Spelling(t);
    var s := w + " " + rest;
    assert s[|w|] == ' ';
    forall k | 0 <= k < |w| ensures s[k] == w[k] {
    }
  }

  lemma PlainLexes(t: Token, rest: string)
    requires !Doubling(t) && !(t.Id? || t.Constant? || t == Return || t == Int || t == Void)
    ensures |Spelling(t)| >= 1 && !IsWhitespace(Spelling(t)[0])
    ensures TokenAt(Spelling(t) + " " + rest, 0) == Scan(Yield(t), |Spelling(t)|)
  {
    var w := Spelling(t);
    var s := w + " " + rest;
    assert s[|w|] == ' ';
    forall k | 0 <= k < |w| ensures s[k] == w[k] {
    }
  }

  lemma SpellingLexes(t: Token, rest: string)
    requires Lexable(t)
    ensures NextToken(Spelling(t) + " " + rest, 0) == Scan(Yield(t), |Spelling(t)|)
  {
    var s := Spelling(t) + " " + rest;
    if t.Id? || t.Constant? || t == Return || t == Int || t == Void {
      WordLexes(t, rest);
    } else {
      OperatorLexes(t, rest);
    }
    assert s[0] == Spelling(t)[0];
    assert SkipWhitespace(s, 0) == 0;
  }

  /**
   * Maximal munch: an operator is never split, whatever follows it. The lexer takes at
   * least the operator's characters, and what it yields is spelled by exactly the
   * characters it took.
   */
  lemma OperatorMunch(t: Token, rest: string)
    requires !(t.Id? || t.Constant? || t == Return || t == Int || t == Void)
    ensures |Spelling(t)| >= 1 && !IsWhitespace(Spelling(t)[0])
    ensures var r := TokenAt(Spelling(t) + rest, 0);
      r.step.Yield? && |Spelling(t)| <= r.at && Spelling(r.step.token) == (Spelling(t) + rest)[..r.at]
  {
    var s := Spelling(t) + rest;
    OperatorNotSplit(t, rest);
    PunctuatorSpelled(s, 1);
    assert s[0..TokenAt(s, 0).at] == s[..TokenAt(s, 0).at];
  }

  lemma OperatorNotSplit(t: Token, rest: string)
    requires !(t.Id? || t.Constant? || t == Return || t == Int || t == Void)
    ensures |Spelling(t)| >= 1 && !IsWhitespace(Spelling(t)[0])
    ensures !IsDigit(Spelling(t)[0]) && !IsAlpha(Spelling(t)[0])
    ensures var r := TokenAt(Spelling(t) + rest, 0);
      r.step.Yield? && |Spelling(t)| <= r.at
  {
    if Doubling(t) {
      DoublingNotSplit(t, rest);
    } else {
      PlainNotSplit(t, rest);
    }
  }

  lemma DoublingNotSplit(t: Token, rest: string)
    requires Doubling(t)
    ensures |Spelling(t)| >= 1 && !IsWhitespace(Spelling(t)[0])
    ensures !IsDigit(Spelling(t)[0]) && !IsAlpha(Spelling(t)[0])
    ensures var r := TokenAt(Spelling(t) + rest, 0);
      r.step.Yield? && |Spelling(t)| <= r.at
  {
    var w := Spelling(t);
    var s := w + rest;
    forall k | 0 <= k < |w| ensures s[k] == w[k] {
    }
  }

  lemma PlainNotSplit(t: Token, rest: string)
    requires !Doubling(t) && !(t.Id? || t.Constant? || t == Return || t == Int || t == Void)
    ensures |Spelling(t)| >= 1 && !IsWhitespace(Spelling(t)[0])
    ensures !IsDigit(Spelling(t)[0]) && !IsAlpha(Spelling(t)[0])
    ensures var r := TokenAt(Spelling(t) + rest, 0);
      r.step.Yield? && |Spelling(t)| <= r.at
  {
    var w := Spelling(t);
    var s := w + rest;
    forall k | 0 <= k < |w| ensures s[k] == w[k] {
    }
  }

  /** Every punctuator yielded is spelled by exactly the characters taken for it. */
  lemma PunctuatorSpelled(s: string, i: nat)
    requires 1 <= i <= |s|
    ensures var r := Punctuator(s, s[i - 1], i);
      r.step.Yield? ==> Spelling(r.step.token) == s[i - 1..r.at]
  {
    var c := s[i - 1];
    if c == '<' || c == '>' {
      AngleSpelled(s, i);
    } else if c == '-' || c == '&' || c == '|' {
      DoubledSpelled(s, i);
    } else if c == '=' || c == '!' {
      EqualitySpelled(s, i);
    } else if c == '+' || c == '/' || c == '%' || c == '*' || c == '^' {
      ArithmeticSpelled(s, i);
    } else if c == '~' || c == '(' || c == ')' || c == '{' || c == '}' || c == ';' {
      SingleSpelled(s, i);
    }
  }

  lemma AngleSpelled(s: string, i: nat)
    requires 1 <= i <= |s| && (s[i - 1] == '<' || s[i - 1] == '>')
    ensures var r := Punctuator(s, s[i - 1], i);
      r.step.Yield? && Spelling(r.step.token) == s[i - 1..r.at]
  {
    var r := Punctuator(s, s[i - 1], i);
    if r.at == i + 2 {
      assert s[i - 1..r.at] == [s[i - 1], s[i], s[i + 1]];
    } else if r.at == i + 1 {
      assert s[i - 1..r.at] == [s[i - 1], s[i]];
    } else {
      assert s[i - 1..r.at] == [s[i - 1]];
    }
  }

  lemma DoubledSpelled(s: string, i: nat)
    requires 1 <= i <= |s| && (s[i - 1] == '-' || s[i - 1] == '&' || s[i - 1] == '|')
    ensures var r := Punctuator(s, s[i - 1], i);
      r.step.Yield? && Spelling(r.step.token) == s[i - 1..r.at]
  {
    var r := Punctuator(s, s[i - 1], i);
    if r.at == i + 1 {
      assert s[i - 1..r.at] == [s[i - 1], s[i]];
    } else {
      assert s[i - 1..r.at] == [s[i - 1]];
    }
  }

  /** `=` and `!`, which `=` may follow (`==`, `!=`). */
  lemma EqualitySpelled(s: string, i: nat)
    requires 1 <= i <= |s| && (s[i - 1] == '=' || s[i - 1] == '!')
    ensures var r := Punctuator(s, s[i - 1], i);
      r.step.Yield? && Spelling(r.step.token) == s[i - 1..r.at]
  {
    if Follows(s, i, '=') {
      assert s[i - 1..i + 1] == [s[i - 1], '='];
    } else {
      assert s[i - 1..i] == [s[i - 1]];
    }
  }

  /** The arithmetic operators `+`, `/`, `%`, `*` and `^`, which `=` may follow as a compound assignment. */
  lemma ArithmeticSpelled(s: string, i: nat)
    requires 1 <= i <= |s|
    requires var c := s[i - 1]; c == '+' || c == '/' || c == '%' || c == '*' || c == '^'
    ensures var r := Punctuator(s, s[i - 1], i);
      r.step.Yield? && Spelling(r.step.token) == s[i - 1..r.at]
  {
    if Follows(s, i, '=') {
      assert s[i - 1..i + 1] == [s[i - 1], '='];
    } else {
      assert s[i - 1..i] == [s[i - 1]];
    }
  }

  /** The one-character punctuators `~`, `(`, `)`, `{`, `}` and `;`. */
  lemma SingleSpelled(s: string, i: nat)
    requires 1 <= i <= |s|
    requires var c := s[i - 1]; c == '~' || c == '(' || c == ')' || c == '{' || c == '}' || c == ';'
    ensures var r := Punctuator(s, s[i - 1], i);
      r.step.Yield? && Spelling(r.step.token) == s[i - 1..r.at]
  {
    assert s[i - 1..i] == [s[i - 1]];
  }

  /** A whitespace character under the cursor is skipped. */
  lemma WhitespaceSkipped(s: string, i: nat)
    requires i < |s| && IsWhitespace(s[i])
    ensures Tokenize(s, i) == Tokenize(s, i + 1)
  {
    assert SkipWhitespace(s, i) == SkipWhitespace(s, i + 1);
    assert NextToken(s, i) == NextToken(s, i + 1);
  }

  /**
   * A token spelled out and followed by a space lexes as itself, and lexing goes on
   * with the text after the space: its tokens follow, or its panic is the result.
   */
  lemma SpelledThenRest(t: Token, tail: string)
    requires Lexable(t)
    ensures Tokenize(tail, 0).Ok? ==> Tokenize(Spelling(t) + " " + tail, 0) == Ok([t] + Tokenize(tail, 0).value)
    ensures Tokenize(tail, 0).Err? ==> Tokenize(Spelling(t) + " " + tail, 0) == Tokenize(tail, 0)
  {
    var w := Spelling(t);
    var s := w + " " + tail;
    SpellingLexes(t, tail);
    assert s[|w|] == ' ';
    WhitespaceSkipped(s, |w|);
    assert s == (w + " ") + tail;
    AppendShifted(w + " ", tail);
    TokenizeShift(s, |w| + 1, tail, 0);
  }

  /** Writing tokens out with spaces between them and lexing the text gives the tokens back. */
  lemma {:induction false} RenderRoundTrip(ts: seq<Token>)
    requires forall k | 0 <= k < |ts| :: Lexable(ts[k])
    ensures Tokenize(Render(ts), 0) == Ok(ts)
    decreases |ts|
  {
    if ts != [] {
      RenderRoundTrip(ts[1..]);
      SpelledThenRest(ts[0], Render(ts[1..]));
      assert [ts[0]] + ts[1..] == ts;
    }
  }

  // ---------------------------------------------------------------------------
  // The cursor
  // ---------------------------------------------------------------------------

  class Lexer {
    const source: string
    var position: nat

    ghost predicate Valid()
      reads this
    {
      position <= |source|
    }

    constructor (source: string)
      ensures Valid()
      ensures this.source == source && position == 0
    {
      this.source := source;
      position := 0;
    }

    function Peek(): (c: Option<char>)
      reads this
      requires Valid()
      ensures c.Some? <==> position < |source|
      ensures c.Some? ==> c.value == source[position]
    {
      if position >= |source| then None else Some(source[position])
    }

    method NextChar() returns (c: Option<char>)
      requires Valid()
      modifies this
      ensures Valid()
      ensures old(position) < |source| ==> c == Some(source[old(position)]) && position == old(position) + 1
      ensures old(position) >= |source| ==> c == None && position == old(position)
    {
      if position >= |source| {
        c := None;
      } else {
        position := position + 1;
        c := Some(source[position - 1]);
      }
    }

    /** Called just after a digit was taken, so the constant starts one character back. */
    method Constant() returns (t: Token)
      requires Valid() && 0 < position
      modifies this
      ensures Valid()
      ensures position == DigitRunEnd(source, old(position))
      ensures t == Token.Constant(source[old(position) - 1..position])
    {
      var start := position - 1;
      while IsDigit(Peek().GetOr('_'))
        invariant Valid() && old(position) <= position
        invariant DigitRunEnd(source, position) == DigitRunEnd(source, old(position))
        decreases |source| - position
      {
        position := position + 1;
      }
      t := Token.Constant(source[start..position]);
    }

    /** Called just after a letter or `_` was taken, so the word starts one character back. */
    method Identifier() returns (t: Token)
      requires Valid() && 0 < position
      modifies this
      ensures Valid()
      ensures position == WordEnd(source, old(position))
      ensures t == Keyword(source[old(position) - 1..position])
    {
      var start := position - 1;
      while IsAlpha(Peek().GetOr(' ')) || IsDigit(Peek().GetOr(' '))
        invariant Valid() && old(position) <= position
        invariant WordEnd(source, position) == WordEnd(source, old(position))
        decreases |source| - position
      {
        position := position + 1;
      }
      var id := source[start..position];
      if id == "return" {
        t := Return;
      } else if id == "int" {
        t := Int;
      } else if id == "void" {
        t := Void;
      } else {
        t := Id(id);
      }
    }

    /** Takes `next` only when it is the next character; otherwise the cursor stays put. */
    method CheckNextChar(next: char, present: Token, absent: Token) returns (t: Token)
      requires Valid()
      modifies this
      ensures Valid()
      ensures Scan(Yield(t), position) == CheckNext(source, old(position), next, present, absent)
    {
      var c := Peek();
      if c.Some? && c.value == next {
        var _ := NextChar();
        t := present;
      } else {
        t := absent;
      }
    }

    /** `Iterator::next`. */
    method Next() returns (step: Step)
      requires Valid()
      modifies this
      ensures Valid()
      ensures Scan(step, position) == NextToken(source, old(position))
    {
      while true
        invariant Valid() && old(position) <= position
        invariant SkipWhitespace(source, position) == SkipWhitespace(source, old(position))
        decreases |source| - position
      {
        var next := NextChar();
        if next.None? {
          return Exhausted;
        }
        var c := next.value;
        if IsWhitespace(c) {
          continue;
        }
        assert SkipWhitespace(source, position - 1) == position - 1;
        assert NextToken(source, old(position)) == TokenAt(source, position - 1);
        if IsDigit(c) {
          var number := Constant();
          var after := Peek();
          if after.Some? && IsAlpha(after.value) {
            return Panic("Bad token");
          }
          return Yield(number);
        }
        if IsAlpha(c) {
          var word := Identifier();
          return Yield(word);
        }
        step := Operator(c);
        return;
      }
    }

    /**
     * The punctuator arms of `next`'s `match`, taken out of the loop as a method of
     * their own; `c` is the character just taken.
     */
    method Operator(c: char) returns (step: Step)
      requires Valid()
      modifies this
      ensures Valid()
      ensures Scan(step, position) == Punctuator(source, c, old(position))
    {
      var t: Token;
      match c {
        case '-' =>
          if Peek() == Some('-') {
            var _ := NextChar();
            t := DoubleMinus;
          } else {
            t := CheckNextChar('=', MinusEquals, Minus);
          }
        case '<' =>
          if Peek() == Some('<') {
            var _ := NextChar();
            t := CheckNextChar('=', DoubleLAngleEquals, DoubleLAngle);
          } else {
            t := CheckNextChar('=', LAngleEquals, LAngle);
          }
        case '>' =>
          if Peek() == Some('>') {
            var _ := NextChar();
            t := CheckNextChar('=', DoubleRAngleEquals, DoubleRAngle);
          } else {
            t := CheckNextChar('=', RAngleEquals, RAngle);
          }
        case '&' =>
          if Peek() == Some('&') {
            var _ := NextChar();
            t := DoubleAmpersand;
          } else {
            t := CheckNextChar('=', AmpersandEquals, Ampersand);
          }
        case '|' =>
          if Peek() == Some('|') {
            var _ := NextChar();
            t := DoublePipe;
          } else {
            t := CheckNextChar('=', PipeEquals, Pipe);
          }
        case '=' => t := CheckNextChar('=', DoubleEquals, Equals);
        case '!' => t := CheckNextChar('=', BangEquals, Bang);
        case '~' => t := Tilde;
        case '(' => t := LParen;
        case ')' => t := RParen;
        case '{' => t := LBrace;
        case '}' => t := RBrace;
        case ';' => t := Semicolon;
        case '+' => t := CheckNextChar('=', PlusEquals, Plus);
        case '/' => t := CheckNextChar('=', SlashEquals, Slash);
        case '%' => t := CheckNextChar('=', PercentEquals, Percent);
        case '*' => t := CheckNextChar('=', StarEquals, Star);
        case '^' => t := CheckNextChar('=', CaretEquals, Caret);
        case _ => return Panic("Bad token " + [c]);
      }
      return Yield(t);
    }
  }
}
