/**
 * The code generator of src/codegen.rs: a parsed `return CONSTANT` becomes a move of
 * the constant into `%eax` followed by `ret`.
 */
module Codegen {
  import opened Wrappers
  import Decimal
  import P = Parser
  import L = Lexer

  datatype Operand = Imm(value: Decimal.I32) | Reg(register: string)

  datatype Instr = Ret | Mov(src: Operand, dst: Operand)

  datatype Assembly = Function(name: string, instructions: seq<Instr>)

  /** The instructions for the one statement form: the constant into `%eax`, then return. */
  function AssembleInstructions(s: P.Statement): (code: seq<Instr>)
    ensures |code| == 2 && code[|code| - 1] == Ret
    ensures code[0].Mov? && code[0].src == Imm(s.exp.value) && code[0].dst == Reg("%eax")
  {
    [Mov(Imm(s.exp.value), Reg("%eax")), Ret]
  }

  /** The function keeps its name; its body is the statement's instructions. */
  function Assemble(p: P.Program): (a: Assembly)
    ensures a.name == p.name && a.instructions == AssembleInstructions(p.body)
  {
    Function(p.name, AssembleInstructions(p.body))
  }

  /** The program an assembly listing of the generated shape came from, if it has that shape. */
  function Disassemble(a: Assembly): Option<P.Program> {
    if |a.instructions| == 2 && a.instructions[0].Mov? && a.instructions[0].src.Imm?
       && a.instructions[0].dst == Reg("%eax") && a.instructions[1] == Ret
    then Some(P.Function(a.name, P.Return(P.Constant(a.instructions[0].src.value))))
    else None
  }

  /** Nothing is lost in code generation: the program is recovered from its assembly. */
  lemma DisassembleAssemble(p: P.Program)
    ensures Disassemble(Assemble(p)) == Some(p)
  {
  }

  /** And only generated listings are recovered: whatever is recovered assembles to the same listing. */
  lemma AssembleDisassemble(a: Assembly)
    ensures Disassemble(a).Some? ==> Assemble(Disassemble(a).value) == a
  {
    if Disassemble(a).Some? {
      assert a.instructions == [a.instructions[0], a.instructions[1]];
    }
  }

  /** Distinct programs give distinct listings. */
  lemma AssembleInjective(p: P.Program, q: P.Program)
    ensures Assemble(p) == Assemble(q) ==> p == q
  {
    DisassembleAssemble(p);
    DisassembleAssemble(q);
  }

  /** Lexing, parsing and code generation of a source text, as `parse_file` chains them. */
  function Compile(source: string): (r: Result<Assembly>)
    ensures r.Ok? <==> P.ParseSource(source).Ok?
    ensures r.Ok? ==>
      |r.value.instructions| == 2 && r.value.instructions[1] == Ret && r.value.instructions[0].Mov? && r.value.instructions[0].dst == Reg("%eax")
  {
    var p :- P.ParseSource(source);
    Ok(Assemble(p))
  }

  /**
   * End to end: `int NAME(void) { return N; }`, written out with spaces, compiles to a
   * function `NAME` that moves `N` into `%eax` and returns.
   */
  lemma CompileReturnConstant(name: string, n: Decimal.I32)
    requires L.Lexable(L.Id(name)) && n >= 0
    ensures var source := L.Render(P.Unparse(P.Function(name, P.Return(P.Constant(n)))));
      Compile(source) == Ok(Function(name, [Mov(Imm(n), Reg("%eax")), Ret]))
  {
    P.ParseSourceRoundTrip(P.Function(name, P.Return(P.Constant(n))));
  }
}
