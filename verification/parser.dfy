/**
 * The parser of src/parser.rs: a recursive-descent recogniser for exactly
 * `int NAME(void) { return CONSTANT; }`. It walks a token sequence with an index,
 * panics (here: `Err`) on the first token that does not fit, and rejects anything
 * left after the closing brace.
 */
module Parser {
  import opened Wrappers
  import Decimal
  import L = Lexer

  datatype Expression = Constant(value: Decimal.I32)

  datatype Statement = Return(exp: Expression)

  datatype Program = Function(name: string, body: Statement)

  // ---------------------------------------------------------------------------
  // The accepted token sequences
  // ---------------------------------------------------------------------------

  /** `return CONSTANT ;` at `i`, with a constant whose text is an `i32`. */
  predicate StatementAt(ts: seq<L.Token>, i: nat) {
    i + 3 <= |ts| && ts[i] == L.Return && ts[i + 1].Constant?
    && Decimal.ParseI32(ts[i + 1].text).Some? && ts[i + 2] == L.Semicolon
  }

  /** The only programs `parse` accepts, token by token, with nothing after the closing brace. */
  predicate WellFormed(ts: seq<L.Token>) {
    |ts| == 10 && ts[0] == L.Int && ts[1].Id? && ts[2] == L.LParen && ts[3] == L.Void
    && ts[4] == L.RParen && ts[5] == L.LBrace && StatementAt(ts, 6) && ts[9] == L.RBrace
  }

  /** `int NAME(void) { return CONSTANT; }` starting at `i`, with nothing after it. */
  predicate FunctionAt(ts: seq<L.Token>, i: nat) {
    i + 10 == |ts| && ts[i] == L.Int && ts[i + 1].Id? && ts[i + 2] == L.LParen && ts[i + 3] == L.Void
    && ts[i + 4] == L.RParen && ts[i + 5] == L.LBrace && StatementAt(ts, i + 6) && ts[i + 9] == L.RBrace
  }

  /** The statement a well-formed `return` at `i` denotes: the integer value of the constant's text. */
  function StatementOf(ts: seq<L.Token>, i: nat): Statement
    requires StatementAt(ts, i)
  {
    Return(Constant(Decimal.ParseI32(ts[i + 1].text).value))
  }

  /** The program a well-formed token sequence denotes. */
  function ProgramOf(ts: seq<L.Token>): Program
    requires WellFormed(ts)
  {
    Function(ts[1].name, StatementOf(ts, 6))
  }

  /** A program is well formed from `i` on exactly when it is found at `i`, and it then denotes the same program. */
  lemma FunctionAtSlice(ts: seq<L.Token>, i: nat)
    requires i <= |ts|
    ensures WellFormed(ts[i..]) <==> FunctionAt(ts, i)
    ensures FunctionAt(ts, i) ==> ProgramOf(ts[i..]) == Function(ts[i + 1].name, StatementOf(ts, i + 6))
  {
    var us := ts[i..];
    if |us| == 10 {
      assert us[0] == ts[i] && us[1] == ts[i + 1] && us[2] == ts[i + 2] && us[3] == ts[i + 3];
      assert us[4] == ts[i + 4] && us[5] == ts[i + 5] && us[9] == ts[i + 9];
      assert us[6] == ts[i + 6] && us[7] == ts[i + 7] && us[8] == ts[i + 8];
    }
  }

  /** The tokens of a program, its constant written in decimal. */
  function Unparse(p: Program): (ts: seq<L.Token>)
    ensures |ts| == 10
  {
    FunctionTokens(p.name, Decimal.FromInt(p.body.exp.value))
  }

  /** The tokens of a function named `name` that returns a constant written `text`. */
  function FunctionTokens(name: string, text: string): (ts: seq<L.Token>)
    ensures |ts| == 10
  {
    [L.Int, L.Id(name), L.LParen, L.Void, L.RParen, L.LBrace,
     L.Return, L.Constant(text), L.Semicolon, L.RBrace]
  }

  /** Such tokens are accepted exactly when the text is an `i32`, and denote that value. */
  lemma FunctionTokensWellFormed(name: string, text: string)
    ensures WellFormed(FunctionTokens(name, text)) <==> Decimal.ParseI32(text).Some?
    ensures Decimal.ParseI32(text).Some? ==>
      ProgramOf(FunctionTokens(name, text)) == Function(name, Return(Constant(Decimal.ParseI32(text).value)))
  {
    var ts := FunctionTokens(name, text);
    assert ts[0] == L.Int && ts[1] == L.Id(name) && ts[2] == L.LParen && ts[3] == L.Void && ts[4] == L.RParen;
    assert ts[5] == L.LBrace && ts[6] == L.Return && ts[7] == L.Constant(text) && ts[8] == L.Semicolon;
    assert ts[9] == L.RBrace;
    assert StatementAt(ts, 6) <==> Decimal.ParseI32(text).Some?;
  }

  /** Every program is accepted when written out as tokens, and parses back to itself. */
  lemma ParseUnparse(p: Program)
    ensures WellFormed(Unparse(p)) && ProgramOf(Unparse(p)) == p
  {
    var v := p.body.exp.value;
    FunctionTokensWellFormed(p.name, Decimal.FromInt(v));
    Decimal.ParseI32OfFromInt(v);
  }

  /** Two token sequences that parse to the same program agree everywhere except, possibly, the constant's text. */
  lemma ProgramOfDetermines(ts: seq<L.Token>, us: seq<L.Token>)
    requires WellFormed(ts) && WellFormed(us) && ProgramOf(ts) == ProgramOf(us)
    ensures ts[..7] == us[..7] && ts[8..] == us[8..]
  {
    assert ts[1] == L.Id(ts[1].name) && us[1] == L.Id(us[1].name);
  }

  /** Anything after the closing brace makes the program unacceptable. */
  lemma ExtraJunkRejected(ts: seq<L.Token>, junk: seq<L.Token>)
    requires WellFormed(ts) && junk != []
    ensures !WellFormed(ts + junk)
  {
  }

  /** A constant outside the `i32` range is rejected, e.g. `2147483648`. */
  lemma OverflowRejected(name: string, n: int)
    requires n < Decimal.I32Min || n > Decimal.I32Max
    ensures !WellFormed(FunctionTokens(name, Decimal.FromInt(n)))
  {
    FunctionTokensWellFormed(name, Decimal.FromInt(n));
    Decimal.ParseI32OutOfRange(n);
  }

  /** The text of a program as the lexer reads it, and what `parse` makes of it. */
  function ParseSource(source: string): Result<Program> {
    var ts :- L.Tokenize(source, 0);
    if WellFormed(ts) then Ok(ProgramOf(ts)) else Err("Bad parse")
  }

  /**
   * Front end: a program whose name is an identifier and whose constant is not negative,
   * written out with spaces between its tokens, is lexed and parsed back to itself.
   */
  lemma ParseSourceRoundTrip(p: Program)
    requires L.Lexable(L.Id(p.name)) && p.body.exp.value >= 0
    ensures ParseSource(L.Render(Unparse(p))) == Ok(p)
  {
    var ts := Unparse(p);
    forall k | 0 <= k < |ts| ensures L.Lexable(ts[k]) {
    }
    L.RenderRoundTrip(ts);
    ParseUnparse(p);
  }

  // ---------------------------------------------------------------------------
  // The parser itself
  // ---------------------------------------------------------------------------

  class Parser {
    const tokens: seq<L.Token>
    var index: nat

    ghost predicate Valid()
      reads this
    {
      index <= |tokens|
    }

    constructor (tokens: seq<L.Token>)
      ensures Valid()
      ensures this.tokens == tokens && index == 0
    {
      this.tokens := tokens;
      index := 0;
    }

    /** `tokens.peek()`. */
    function Peek(): (t: Option<L.Token>)
      reads this
      requires Valid()
      ensures t.Some? <==> index < |tokens|
      ensures t.Some? ==> t.value == tokens[index]
    {
      if index < |tokens| then Some(tokens[index]) else None
    }

    /** `tokens.next()`: the next token, if any, moving past it. */
    method Next() returns (t: Option<L.Token>)
      requires Valid()
      modifies this
      ensures Valid()
      ensures t == old(Peek())
      ensures index == if t.Some? then old(index) + 1 else old(index)
    {
      t := Peek();
      if t.Some? {
        index := index + 1;
      }
    }

    /** Removes exactly one token when it is `token`; a different token, or none, is an error. */
    method Consume(token: L.Token) returns (r: Result<()>)
      requires Valid()
      modifies this
      ensures Valid()
      ensures r.Ok? <==> old(Peek()) == Some(token)
      ensures index == if r.Ok? then old(index) + 1 else old(index)
    {
      var next := Peek();
      if next == Some(token) {
        index := index + 1;
        r := Ok(());
      } else {
        r := Err("Expected");
      }
    }

    /** `return CONSTANT ;`, the constant's text parsed as an `i32`. */
    method Statement() returns (r: Result<Statement>)
      requires Valid()
      modifies this
      ensures Valid()
      ensures r.Ok? <==> StatementAt(tokens, old(index))
      ensures r.Ok? ==> index == old(index) + 3 && r.value == StatementOf(tokens, old(index))
    {
      var _ :- Consume(L.Return);
      var next := Next();
      if !(next.Some? && next.value.Constant?) {
        return Err("bad numeric parse");
      }
      var n := Decimal.ParseI32(next.value.text);
      if n.None? {
        return Err("bad numeric parse");
      }
      var _ :- Consume(L.Semicolon);
      r := Ok(Return(Constant(n.value)));
    }

    /** The whole program, with nothing after its closing brace. */
    method Parse() returns (r: Result<Program>)
      requires Valid()
      modifies this
      ensures Valid()
      ensures r.Ok? <==> WellFormed(tokens[old(index)..])
      ensures r.Ok? ==> r.value == ProgramOf(tokens[old(index)..])
    {
      ghost var start := index;
      FunctionAtSlice(tokens, start);
      var _ :- Consume(L.Int);
      var next := Next();
      if !(next.Some? && next.value.Id?) {
        return Err("Bad parse");
      }
      var name := next.value.name;
      assert index == start + 2 && tokens[start] == L.Int && tokens[start + 1] == L.Id(name);
      var _ :- Consume(L.LParen);
      var _ :- Consume(L.Void);
      assert index == start + 4 && tokens[start + 2] == L.LParen && tokens[start + 3] == L.Void;
      var _ :- Consume(L.RParen);
      var _ :- Consume(L.LBrace);
      assert index == start + 6 && tokens[start + 4] == L.RParen && tokens[start + 5] == L.LBrace;
      var body :- Statement();
      var _ :- Consume(L.RBrace);
      assert index == start + 10 && tokens[start + 9] == L.RBrace;
      if Peek().Some? {
        return Err("Extra junk at end");
      }
      r := Ok(Function(name, body));
    }
  }
}
