/**
 * The assembly printer of src/emit.rs: AT&T-syntax x86-64 text for one function.
 * Every `write_all` of the source writes one line ending in a newline; here the file
 * is the class `Writer`, whose `lines` hold those lines without their newline.
 * `InstrLines` and `Listing` are the specification of what is written, and the
 * methods `EmitInstr` and `EmitAssembly` are proved to write exactly that.
 * A `Pseudo` operand that reaches the printer is a panic, and the lines written
 * before it stay in the file.
 */
module Emit {
  import opened Wrappers
  import opened Decimal

  datatype Register = AX | DX | R10 | R11 | CX | CL

  datatype Operand = Reg(reg: Register) | Imm(value: I32) | Stack(offset: I32) | Pseudo(name: string)

  datatype CondCode = E | NE | LE | GE | L | G

  datatype UnaryOp = Neg | Not

  datatype BinaryOp = Add | Sub | Mult | BitAnd | BitOr | BitXOr | ShiftLeft | ShiftRight

  datatype Instr =
    | Ret
    | Mov(src: Operand, dst: Operand)
    | AllocateStack(size: I32)
    | Unary(unop: UnaryOp, operand: Operand)
    | Binary(binop: BinaryOp, src: Operand, dst: Operand)
    | IDiv(operand: Operand)
    | Cdq
    | Cmp(lhs: Operand, rhs: Operand)
    | Jmp(target: string)
    | JmpCC(cond: CondCode, target: string)
    | SetCC(cond: CondCode, operand: Operand)
    | Label(name: string)

  datatype Assembly = Function(name: string, instructions: seq<Instr>)

  /** The operand width in bytes, a `u8` in the source. */
  type Width = b: int | 0 <= b < 256

  // ---------------------------------------------------------------------------
  // Mnemonics, registers and operands
  // ---------------------------------------------------------------------------

  /** `write_cond_code`: the suffix after `j` or `set`. */
  function CondSuffix(code: CondCode): string {
    match code
    case E => "e"
    case NE => "ne"
    case LE => "le"
    case GE => "ge"
    case L => "l"
    case G => "g"
  }

  /** `write_unop`. */
  function UnaryMnemonic(op: UnaryOp): string {
    match op
    case Neg => "negl"
    case Not => "notl"
  }

  /** `write_binop`. */
  function BinaryMnemonic(op: BinaryOp): string {
    match op
    case Add => "addl"
    case Sub => "subl"
    case Mult => "imull"
    case BitAnd => "andl"
    case BitOr => "orl"
    case BitXOr => "xorl"
    case ShiftLeft => "shll"
    case ShiftRight => "sarl"
  }

  /** `write_register`: the 32-bit name at width 4, the 8-bit name at any other width. */
  function RegisterName(reg: Register, bytes: Width): (s: string)
    ensures |s| >= 3 && s[0] == '%'
  {
    match reg
    case AX => if bytes == 4 then "%eax" else "%al"
    case DX => if bytes == 4 then "%edx" else "%dl"
    case R10 => if bytes == 4 then "%r10d" else "%r10b"
    case R11 => if bytes == 4 then "%r11d" else "%r11b"
    case CX => "%ecx"
    case CL => "%cl"
  }

  /** The panic message for an operand the register allocator should have replaced. */
  function PseudoMessage(name: string): string {
    "Pseudo operand " + name + " not replaced"
  }

  /** `write_operand`: `$n` for an immediate, `-k(%rbp)` for a stack slot, a panic for a pseudo register. */
  function OperandText(op: Operand, bytes: Width): (r: Result<string>)
    ensures r.Err? <==> op.Pseudo?
  {
    match op
    case Reg(reg) => Ok(RegisterName(reg, bytes))
    case Imm(n) => Ok("$" + FromInt(n))
    case Stack(offset) => Ok("-" + FromInt(offset) + "(%rbp)")
    case Pseudo(s) => Err(PseudoMessage(s))
  }

  // ---------------------------------------------------------------------------
  // What each instruction writes
  // ---------------------------------------------------------------------------

  /** The three lines of the function epilogue that `Ret` writes. */
  const Epilogue: seq<string> := ["\tmovq \t%rbp, %rsp", "\tpopq\t%rbp", "\tret"]

  /** A one-operand line: the mnemonic between tabs, then the operand at the given width. */
  function OneOperand(head: string, operand: Operand, bytes: Width): Result<seq<string>> {
    var o :- OperandText(operand, bytes);
    Ok([head + o])
  }

  /** A two-operand line at width 4; the source operand is rendered (and may panic) first. */
  function TwoOperands(head: string, src: Operand, dst: Operand): Result<seq<string>> {
    var s :- OperandText(src, 4);
    var d :- OperandText(dst, 4);
    Ok([head + s + ", " + d])
  }

  /** `emit_instr`: the lines written for one instruction, or the panic of its first pseudo operand. */
  function InstrLines(instr: Instr): Result<seq<string>> {
    match instr
    case Ret => Ok(Epilogue)
    case Mov(src, dst) => TwoOperands("\tmovl\t", src, dst)
    case AllocateStack(n) => Ok(["\tsubq\t$" + FromInt(n) + ", %rsp"])
    case Unary(op, operand) => OneOperand("\t" + UnaryMnemonic(op) + "\t", operand, 4)
    case Binary(op, src, dst) => TwoOperands("\t" + BinaryMnemonic(op) + "\t", src, dst)
    case IDiv(operand) => OneOperand("\tidivl\t", operand, 4)
    case Cdq => Ok(["\tcdq"])
    case Cmp(lhs, rhs) => TwoOperands("\tcmpl\t", lhs, rhs)
    case Jmp(target) => Ok(["\tjmp\t.L" + target])
    case JmpCC(code, target) => Ok(["\tj" + CondSuffix(code) + "\t.L" + target])
    case SetCC(code, operand) => OneOperand("\tset" + CondSuffix(code) + "\t", operand, 1)
    case Label(name) => Ok([".L" + name + ":"])
  }

  /** The lines written so far and, if the printer panicked, its message. */
  datatype Output = Output(lines: seq<string>, panic: Option<string>)

  /** What each instruction prints, in order. */
  function Printed(instrs: seq<Instr>): (rs: seq<Result<seq<string>>>)
    ensures |rs| == |instrs|
    ensures forall k | 0 <= k < |instrs| :: rs[k] == InstrLines(instrs[k])
  {
    seq(|instrs|, k requires 0 <= k < |instrs| => InstrLines(instrs[k]))
  }

  /** The printed lines in order, up to the first result that is a panic. */
  function Collect(rs: seq<Result<seq<string>>>): Output
    decreases |rs|
  {
    if rs == [] then Output([], None)
    else
      var o := Collect(rs[..|rs| - 1]);
      if o.panic.Some? then o
      else
        match rs[|rs| - 1]
        case Ok(ls) => Output(o.lines + ls, None)
        case Err(m) => Output(o.lines, Some(m))
  }

  /** The instructions' lines in order, up to the first instruction that panics. */
  function Listing(instrs: seq<Instr>): Output {
    Collect(Printed(instrs))
  }

  /** The four lines before the body: the global symbol, its label and the frame set-up. */
  function Prologue(name: string): seq<string> {
    ["\t.globl _" + name, "_" + name + ":", "\tpushq\t%rbp", "\tmovq\t%rsp, %rbp"]
  }

  /** `emit`: the prologue, then the listing of the instructions. */
  function EmitOutput(asm: Assembly): (o: Output)
    ensures |o.lines| >= 4 && o.lines[..4] == Prologue(asm.name)
  {
    var body := Listing(asm.instructions);
    Output(Prologue(asm.name) + body.lines, body.panic)
  }

  // ---------------------------------------------------------------------------
  // Properties of the printer
  // ---------------------------------------------------------------------------

  /** Distinct condition codes, unary and binary operators print as distinct mnemonics. */
  lemma MnemonicsInjective(c: CondCode, d: CondCode, u: UnaryOp, v: UnaryOp, a: BinaryOp, b: BinaryOp)
    ensures CondSuffix(c) == CondSuffix(d) ==> c == d
    ensures UnaryMnemonic(u) == UnaryMnemonic(v) ==> u == v
    ensures BinaryMnemonic(a) == BinaryMnemonic(b) ==> a == b
  {
  }

  /** Only whether the width is 4 matters, and `CX`, `CL` print the same at every width. */
  lemma RegisterWidth(reg: Register, b1: Width, b2: Width)
    ensures (b1 == 4) == (b2 == 4) ==> RegisterName(reg, b1) == RegisterName(reg, b2)
    ensures reg == CX || reg == CL ==> RegisterName(reg, b1) == RegisterName(reg, b2)
    ensures reg != CX && reg != CL && b1 == 4 && b2 != 4 ==> RegisterName(reg, b1) != RegisterName(reg, b2)
  {
  }

  /** At any one width, distinct registers get distinct names. */
  lemma RegisterNameInjective(r1: Register, r2: Register, bytes: Width)
    ensures RegisterName(r1, bytes) == RegisterName(r2, bytes) ==> r1 == r2
  {
  }

  /** At any one width, distinct operands that print at all print differently. */
  lemma OperandTextInjective(a: Operand, b: Operand, bytes: Width)
    requires OperandText(a, bytes).Ok? && OperandText(a, bytes) == OperandText(b, bytes)
    ensures a == b
  {
    var s := OperandText(a, bytes).value;
    match a
    case Reg(r) =>
      assert s[0] == '%';
      RegisterNameInjective(r, b.reg, bytes);
    case Imm(n) =>
      assert s[0] == '$' && s[1..] == FromInt(n);
      assert b.Imm? && s[1..] == FromInt(b.value);
      FromIntInjective(n, b.value);
    case Stack(k) =>
      assert s[0] == '-' && s[1..|s| - 6] == FromInt(k);
      assert b.Stack? && s[1..|s| - 6] == FromInt(b.offset);
      FromIntInjective(k, b.offset);
  }

  /** The operands an instruction prints. */
  function Operands(instr: Instr): seq<Operand> {
    match instr
    case Mov(src, dst) => [src, dst]
    case Unary(_, operand) => [operand]
    case Binary(_, src, dst) => [src, dst]
    case IDiv(operand) => [operand]
    case Cmp(lhs, rhs) => [lhs, rhs]
    case SetCC(_, operand) => [operand]
    case _ => []
  }

  /**
   * An instruction panics exactly when one of its operands is a pseudo register, and
   * then with the message of the first one; otherwise `Ret` writes three lines and
   * every other instruction one.
   */
  lemma InstrPanics(instr: Instr)
    ensures InstrLines(instr).Err? <==> exists o :: o in Operands(instr) && o.Pseudo?
    ensures InstrLines(instr).Err? ==>
      var os := Operands(instr);
      exists k :: 0 <= k < |os| && os[k].Pseudo? && InstrLines(instr).error == PseudoMessage(os[k].name)
        && forall j :: 0 <= j < k ==> !os[j].Pseudo?
    ensures InstrLines(instr).Ok? ==> |InstrLines(instr).value| == if instr.Ret? then 3 else 1
  {
    var os := Operands(instr);
    if InstrLines(instr).Err? && |os| == 2 && !os[0].Pseudo? {
      assert os[1].Pseudo? && InstrLines(instr).error == PseudoMessage(os[1].name);
    }
  }

  /** `SetCC` prints its operand at one byte, the other operand-bearing instructions at four. */
  lemma OperandWidths(reg: Register, code: CondCode, other: Operand)
    requires !other.Pseudo?
    ensures InstrLines(SetCC(code, Reg(reg))) == Ok(["\tset" + CondSuffix(code) + "\t" + RegisterName(reg, 1)])
    ensures InstrLines(Mov(other, Reg(reg))) == Ok(["\tmovl\t" + OperandText(other, 4).value + ", " + RegisterName(reg, 4)])
    ensures InstrLines(IDiv(Reg(reg))) == Ok(["\tidivl\t" + RegisterName(reg, 4)])
  {
  }

  /** A label and a jump to it spell the target identically, and distinct labels print differently. */
  lemma LabelsMatchJumps(name: string, code: CondCode, other: string)
    ensures var mark := InstrLines(Label(name)).value[0];
      var target := mark[..|mark| - 1];
      var jmp, jcc := InstrLines(Jmp(name)).value[0], InstrLines(JmpCC(code, name)).value[0];
      && mark[|mark| - 1] == ':'
      && jmp == "\tjmp\t" + target
      && jcc == "\tj" + CondSuffix(code) + "\t" + target
    ensures InstrLines(Label(name)) == InstrLines(Label(other)) ==> name == other
  {
    var mark := InstrLines(Label(name)).value[0];
    assert mark[..|mark| - 1] == ".L" + name;
    if InstrLines(Label(name)) == InstrLines(Label(other)) {
      var mark2 := InstrLines(Label(other)).value[0];
      assert mark2[..|mark2| - 1] == ".L" + other;
      assert name == mark[2..|mark| - 1] == other;
    }
  }

  /** Printing a prefix prints the prefix of what the whole prints. */
  lemma PrintedPrefix(instrs: seq<Instr>, n: nat)
    requires n <= |instrs|
    ensures Printed(instrs[..n]) == Printed(instrs)[..n]
  {
  }

  /** Printing two runs of instructions prints the one and then the other. */
  lemma PrintedConcat(xs: seq<Instr>, ys: seq<Instr>)
    ensures Printed(xs + ys) == Printed(xs) + Printed(ys)
  {
    var rs := Printed(xs + ys);
    forall k | |xs| <= k < |xs + ys| ensures rs[k] == Printed(ys)[k - |xs|] {
      assert (xs + ys)[k] == ys[k - |xs|];
    }
  }

  /** After the first panic nothing more is collected. */
  lemma {:induction false} CollectErrorPersists(rs: seq<Result<seq<string>>>, n: nat)
    requires n <= |rs|
    ensures Collect(rs[..n]).panic.Some? ==> Collect(rs) == Collect(rs[..n])
    decreases |rs| - n
  {
    if n < |rs| && Collect(rs[..n]).panic.Some? {
      assert rs[..n + 1][..n] == rs[..n];
      CollectErrorPersists(rs, n + 1);
    } else if n == |rs| {
      assert rs[..n] == rs;
    }
  }

  /** One more result after a run without a panic: its lines are added, or its panic ends the run. */
  lemma CollectStep(rs: seq<Result<seq<string>>>, i: nat)
    requires i < |rs| && Collect(rs[..i]).panic.None?
    ensures rs[i].Ok? ==> Collect(rs[..i + 1]) == Output(Collect(rs[..i]).lines + rs[i].value, None)
    ensures rs[i].Err? ==> Collect(rs[..i + 1]) == Output(Collect(rs[..i]).lines, Some(rs[i].error))
  {
    assert rs[..i + 1][..i] == rs[..i];
  }

  /** Collecting two runs one after the other collects their lines one after the other. */
  lemma {:induction false} CollectConcat(xs: seq<Result<seq<string>>>, ys: seq<Result<seq<string>>>)
    requires Collect(xs).panic.None?
    ensures Collect(xs + ys) == Output(Collect(xs).lines + Collect(ys).lines, Collect(ys).panic)
    decreases |ys|
  {
    if ys == [] {
      assert xs + ys == xs;
    } else {
      var front := ys[..|ys| - 1];
      assert (xs + ys)[..|xs + ys| - 1] == xs + front && (xs + ys)[|xs + ys| - 1] == ys[|ys| - 1];
      CollectConcat(xs, front);
      if Collect(front).panic.None? && ys[|ys| - 1].Ok? {
        var ls := ys[|ys| - 1].value;
        assert Collect(xs).lines + Collect(front).lines + ls == Collect(xs).lines + (Collect(front).lines + ls);
      }
    }
  }

  /** A run panics exactly when one of its results is a panic. */
  lemma {:induction false} CollectPanics(rs: seq<Result<seq<string>>>)
    ensures Collect(rs).panic.None? <==> forall i :: 0 <= i < |rs| ==> rs[i].Ok?
    decreases |rs|
  {
    if rs != [] {
      var front := rs[..|rs| - 1];
      CollectPanics(front);
      if Collect(front).panic.Some? {
        var i :| 0 <= i < |front| && front[i].Err?;
        assert rs[i] == front[i];
      } else {
        forall i | 0 <= i < |front| ensures rs[i] == front[i] { }
      }
    }
  }

  /** The `i`-th result is the first panic, with message `m`, after the lines of those before it. */
  predicate FirstErrAt(rs: seq<Result<seq<string>>>, i: int, m: string, lines: seq<string>) {
    && 0 <= i < |rs|
    && rs[i] == Err(m)
    && (forall j :: 0 <= j < i ==> rs[j].Ok?)
    && lines == Collect(rs[..i]).lines
  }

  /** A run that panics stops at its first panic, with that panic's message. */
  lemma {:induction false} CollectFirstPanic(rs: seq<Result<seq<string>>>)
    requires Collect(rs).panic.Some?
    ensures exists i :: FirstErrAt(rs, i, Collect(rs).panic.value, Collect(rs).lines)
    decreases |rs|
  {
    var front := rs[..|rs| - 1];
    if Collect(front).panic.Some? {
      CollectFirstPanic(front);
      var i :| FirstErrAt(front, i, Collect(front).panic.value, Collect(front).lines);
      FirstErrKept(rs, i, Collect(front).panic.value, Collect(front).lines);
    } else {
      CollectPanics(front);
      forall j | 0 <= j < |front| ensures rs[j].Ok? {
        assert rs[j] == front[j];
      }
      assert FirstErrAt(rs, |rs| - 1, Collect(rs).panic.value, Collect(rs).lines);
    }
  }

  /** The first panic of all results but the last is the first panic of them all. */
  lemma FirstErrKept(rs: seq<Result<seq<string>>>, i: int, m: string, lines: seq<string>)
    requires |rs| >= 1 && FirstErrAt(rs[..|rs| - 1], i, m, lines)
    ensures FirstErrAt(rs, i, m, lines)
  {
    var front := rs[..|rs| - 1];
    assert front[..i] == rs[..i];
    forall j | 0 <= j < i ensures rs[j].Ok? {
      assert rs[j] == front[j];
    }
    assert rs[i] == front[i];
  }

  /** The first panic stops the listing: nothing after it is printed. */
  lemma ListingErrorPersists(instrs: seq<Instr>, n: nat)
    requires n <= |instrs|
    ensures Listing(instrs[..n]).panic.Some? ==> Listing(instrs) == Listing(instrs[..n])
  {
    PrintedPrefix(instrs, n);
    CollectErrorPersists(Printed(instrs), n);
  }

  /** One more instruction that prints after a listing without a panic adds its lines. */
  lemma ListingGrows(instrs: seq<Instr>, i: nat)
    requires i < |instrs| && Listing(instrs[..i]).panic.None? && InstrLines(instrs[i]).Ok?
    ensures Listing(instrs[..i + 1]) == Output(Listing(instrs[..i]).lines + InstrLines(instrs[i]).value, None)
  {
    PrintedPrefix(instrs, i);
    PrintedPrefix(instrs, i + 1);
    CollectStep(Printed(instrs), i);
  }

  /** One more instruction that panics after a listing without a panic makes the listing panic. */
  lemma ListingStops(instrs: seq<Instr>, i: nat)
    requires i < |instrs| && Listing(instrs[..i]).panic.None? && InstrLines(instrs[i]).Err?
    ensures Listing(instrs[..i + 1]) == Output(Listing(instrs[..i]).lines, Some(InstrLines(instrs[i]).error))
  {
    PrintedPrefix(instrs, i);
    PrintedPrefix(instrs, i + 1);
    CollectStep(Printed(instrs), i);
  }

  /** Printing two runs of instructions one after the other prints their listings one after the other. */
  lemma ListingConcat(xs: seq<Instr>, ys: seq<Instr>)
    requires Listing(xs).panic.None?
    ensures Listing(xs + ys) == Output(Listing(xs).lines + Listing(ys).lines, Listing(ys).panic)
  {
    PrintedConcat(xs, ys);
    CollectConcat(Printed(xs), Printed(ys));
  }

  /** The listing panics exactly when some instruction does. */
  lemma ListingPanics(instrs: seq<Instr>)
    ensures Listing(instrs).panic.None? <==> forall i :: 0 <= i < |instrs| ==> InstrLines(instrs[i]).Ok?
  {
    CollectPanics(Printed(instrs));
  }

  /** The `i`-th instruction is the first that panics, with message `m`, after the listing of those before it. */
  predicate FirstPanicAt(instrs: seq<Instr>, i: int, m: string, lines: seq<string>) {
    && 0 <= i < |instrs|
    && InstrLines(instrs[i]) == Err(m)
    && (forall j :: 0 <= j < i ==> InstrLines(instrs[j]).Ok?)
    && lines == Listing(instrs[..i]).lines
  }

  /** A panicking listing stops at the first instruction that panics, with that instruction's message. */
  lemma ListingFirstPanic(instrs: seq<Instr>)
    requires Listing(instrs).panic.Some?
    ensures exists i :: FirstPanicAt(instrs, i, Listing(instrs).panic.value, Listing(instrs).lines)
  {
    var rs := Printed(instrs);
    CollectFirstPanic(rs);
    var i :| FirstErrAt(rs, i, Collect(rs).panic.value, Collect(rs).lines);
    PrintedPrefix(instrs, i);
    assert FirstPanicAt(instrs, i, Listing(instrs).panic.value, Listing(instrs).lines);
  }

  /** Without a panic, `Ret` adds three lines and every other instruction one. */
  lemma {:induction false} ListingLength(instrs: seq<Instr>)
    requires Listing(instrs).panic.None?
    ensures |Listing(instrs).lines| == |instrs| + 2 * RetCount(instrs)
    decreases |instrs|
  {
    if instrs != [] {
      var n := |instrs| - 1;
      ListingErrorPersists(instrs, n);
      ListingLength(instrs[..n]);
      InstrPanics(instrs[n]);
      ListingPanics(instrs);
      ListingGrows(instrs, n);
      assert instrs[..n + 1] == instrs;
    }
  }

  /** How many `Ret` instructions a sequence holds. */
  function RetCount(instrs: seq<Instr>): nat {
    if instrs == [] then 0 else RetCount(instrs[..|instrs| - 1]) + (if instrs[|instrs| - 1].Ret? then 1 else 0)
  }

  /** A function body that ends in `Ret` ends its text with the epilogue. */
  lemma EndsWithEpilogue(asm: Assembly)
    requires |asm.instructions| >= 1 && asm.instructions[|asm.instructions| - 1] == Ret
    requires EmitOutput(asm).panic.None?
    ensures var lines := EmitOutput(asm).lines; |lines| >= 7 && lines[|lines| - 3..] == Epilogue
  {
    var instrs := asm.instructions;
    var n := |instrs| - 1;
    ListingErrorPersists(instrs, n);
    ListingGrows(instrs, n);
    assert instrs[..n + 1] == instrs;
  }

  /** What `main` prints for `return 2;` in `main`. */
  lemma ReturnTwo()
    ensures EmitOutput(Function("main", [Mov(Imm(2), Reg(AX)), Ret])) == Output([
      "\t.globl _main", "_main:", "\tpushq\t%rbp", "\tmovq\t%rsp, %rbp",
      "\tmovl\t$2, %eax",
      "\tmovq \t%rbp, %rsp", "\tpopq\t%rbp", "\tret"], None)
  {
    var instrs := [Mov(Imm(2), Reg(AX)), Ret];
    MovTwo();
    assert Printed(instrs[..0]) == [];
    ListingGrows(instrs, 0);
    ListingGrows(instrs, 1);
    assert instrs[..2] == instrs;
    assert "\t.globl _" + "main" == "\t.globl _main" && "_" + "main" + ":" == "_main:";
  }

  /** The one line of `movl $2, %eax`. */
  lemma MovTwo()
    ensures InstrLines(Mov(Imm(2), Reg(AX))) == Ok(["\tmovl\t$2, %eax"])
  {
    assert FromInt(2) == "2";
    assert "$" + FromInt(2) == "$2";
    assert OperandText(Imm(2), 4) == Ok("$2");
    assert "\tmovl\t" + "$2" + ", " + "%eax" == "\tmovl\t$2, %eax";
  }

  // ---------------------------------------------------------------------------
  // The writer and the two printing methods
  // ---------------------------------------------------------------------------

  /** The output file, line by line; I/O errors of the real file are not modelled. */
  class Writer {
    var lines: seq<string>

    constructor ()
      ensures lines == []
    {
      lines := [];
    }

    /** One `write_all` of a newline-terminated string. */
    method WriteLine(line: string)
      modifies this
      ensures lines == old(lines) + [line]
    {
      lines := lines + [line];
    }
  }

  /** `emit_instr`: writes the lines `InstrLines` specifies, or nothing and the panic. */
  method EmitInstr(instr: Instr, file: Writer) returns (r: Result<()>)
    modifies file
    ensures InstrLines(instr).Ok? ==> r.Ok? && file.lines == old(file.lines) + InstrLines(instr).value
    ensures InstrLines(instr).Err? ==> r == Err(InstrLines(instr).error) && file.lines == old(file.lines)
  {
    match instr {
      case Ret =>
        file.WriteLine("\tmovq \t%rbp, %rsp");
        file.WriteLine("\tpopq\t%rbp");
        file.WriteLine("\tret");
      case Mov(src, dst) =>
        var s :- OperandText(src, 4);
        var d :- OperandText(dst, 4);
        file.WriteLine("\tmovl\t" + s + ", " + d);
      case AllocateStack(n) =>
        file.WriteLine("\tsubq\t$" + FromInt(n) + ", %rsp");
      case Unary(op, operand) =>
        var o :- OperandText(operand, 4);
        file.WriteLine("\t" + UnaryMnemonic(op) + "\t" + o);
      case Binary(op, src, dst) =>
        var s :- OperandText(src, 4);
        var d :- OperandText(dst, 4);
        file.WriteLine("\t" + BinaryMnemonic(op) + "\t" + s + ", " + d);
      case IDiv(operand) =>
        var o :- OperandText(operand, 4);
        file.WriteLine("\tidivl\t" + o);
      case Cdq =>
        file.WriteLine("\tcdq");
      case Cmp(lhs, rhs) =>
        var l :- OperandText(lhs, 4);
        var rr :- OperandText(rhs, 4);
        file.WriteLine("\tcmpl\t" + l + ", " + rr);
      case Jmp(target) =>
        file.WriteLine("\tjmp\t.L" + target);
      case JmpCC(code, target) =>
        file.WriteLine("\tj" + CondSuffix(code) + "\t.L" + target);
      case SetCC(code, operand) =>
        var o :- OperandText(operand, 1);
        file.WriteLine("\tset" + CondSuffix(code) + "\t" + o);
      case Label(name) =>
        file.WriteLine(".L" + name + ":");
    }
    r := Ok(());
  }

  /** `emit`: the prologue, then each instruction in order; a panic leaves what was written so far. */
  method EmitAssembly(asm: Assembly, file: Writer) returns (r: Result<()>)
    modifies file
    ensures file.lines == old(file.lines) + EmitOutput(asm).lines
    ensures r.Ok? <==> EmitOutput(asm).panic.None?
    ensures r.Err? ==> EmitOutput(asm).panic == Some(r.error)
  {
    var instrs := asm.instructions;
    file.WriteLine("\t.globl _" + asm.name);
    file.WriteLine("_" + asm.name + ":");
    file.WriteLine("\tpushq\t%rbp");
    file.WriteLine("\tmovq\t%rsp, %rbp");
    ghost var start := file.lines;
    assert start == old(file.lines) + Prologue(asm.name);
    for i := 0 to |instrs|
      invariant Listing(instrs[..i]).panic.None?
      invariant file.lines == start + Listing(instrs[..i]).lines
    {
      var done := EmitInstr(instrs[i], file);
      if done.Err? {
        ListingStops(instrs, i);
        ListingErrorPersists(instrs, i + 1);
        Appended(old(file.lines), Prologue(asm.name), Listing(instrs).lines);
        return Err(done.error);
      }
      ListingGrows(instrs, i);
      Appended(start, Listing(instrs[..i]).lines, InstrLines(instrs[i]).value);
    }
    assert instrs[..|instrs|] == instrs;
    Appended(old(file.lines), Prologue(asm.name), Listing(instrs).lines);
    r := Ok(());
  }

  /** Appending in two steps is appending once. */
  lemma Appended<T>(a: seq<T>, b: seq<T>, c: seq<T>)
    ensures a + (b + c) == a + b + c
  {
  }
}
