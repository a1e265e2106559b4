/**
 * The lowering of src/tacky.rs from expression trees to TACKY, a three-address code:
 * every operator application gets a fresh temporary `<prefix>.<count>`, `&&` and `||`
 * become the short-circuit jump pattern, and the function ends with `return 0`.
 *
 * `LowerExpr` and its companions are the specification; the class `TackifyState`
 * holds the counter, the instruction vector is an `Instructions` object that the
 * lowering methods append to, and `EmitTacky` is the loop over the block.
 */
module Tacky {
  import opened Wrappers
  import S = Syntax
  import Decimal
  import SA = SemanticAnalysis

  datatype UnaryOp = Complement | Negate | Not

  datatype BinaryOp =
    | Add | Subtract | Multiply | Divide | Remainder
    | BitAnd | BitOr | BitXOr | ShiftLeft | ShiftRight
    | LessThan | LessThanEquals | GreaterThan | GreaterThanEquals | Equals | NotEquals

  datatype Val = Constant(value: Decimal.I32) | Var(name: string)

  datatype Instr =
    | Return(val: Val)
    | Unary(unop: UnaryOp, src: Val, dst: Val)
    | Binary(binop: BinaryOp, src1: Val, src2: Val, dst: Val)
    | Copy(src: Val, dst: Val)
    | Jump(target: string)
    | JumpIfZero(condition: Val, target: string)
    | JumpIfNotZero(condition: Val, target: string)
    | Label(name: string)

  datatype Tacky = Function(name: string, instructions: seq<Instr>)

  // ---------------------------------------------------------------------------
  // Operators
  // ---------------------------------------------------------------------------

  function ConvertUnop(op: S.UnaryOperator): UnaryOp {
    match op
    case Complement => Complement
    case Negate => Negate
    case Not => Not
  }

  /** `convert_binop`; the short-circuit operators have no TACKY counterpart (a panic). */
  function ConvertBinop(op: S.BinaryOperator): (r: Option<BinaryOp>)
    ensures r.None? <==> op == S.And || op == S.Or
  {
    match op
    case Add => Some(Add)
    case Subtract => Some(Subtract)
    case Multiply => Some(Multiply)
    case Divide => Some(Divide)
    case Remainder => Some(Remainder)
    case BitAnd => Some(BitAnd)
    case BitOr => Some(BitOr)
    case BitXOr => Some(BitXOr)
    case ShiftLeft => Some(ShiftLeft)
    case ShiftRight => Some(ShiftRight)
    case Equal => Some(Equals)
    case NotEqual => Some(NotEquals)
    case Greater => Some(GreaterThan)
    case Less => Some(LessThan)
    case GreaterOrEqual => Some(GreaterThanEquals)
    case LessOrEqual => Some(LessThanEquals)
    case And => None
    case Or => None
  }

  function ConvertCompoundOp(op: S.CompoundOperator): BinaryOp {
    match op
    case CAdd => Add
    case CSubtract => Subtract
    case CMultiply => Multiply
    case CDivide => Divide
    case CRemainder => Remainder
    case CBitAnd => BitAnd
    case CBitOr => BitOr
    case CBitXOr => BitXOr
    case CShiftLeft => ShiftLeft
    case CShiftRight => ShiftRight
  }

  /** The binary operator a compound assignment applies: `+=` applies `+`, and so on. */
  function CompoundBase(op: S.CompoundOperator): S.BinaryOperator {
    match op
    case CAdd => S.Add
    case CSubtract => S.Subtract
    case CMultiply => S.Multiply
    case CDivide => S.Divide
    case CRemainder => S.Remainder
    case CBitAnd => S.BitAnd
    case CBitOr => S.BitOr
    case CBitXOr => S.BitXOr
    case CShiftLeft => S.ShiftLeft
    case CShiftRight => S.ShiftRight
  }

  /** Distinct source operators become distinct TACKY operators. */
  lemma ConvertInjective(a: S.BinaryOperator, b: S.BinaryOperator, u: S.UnaryOperator, v: S.UnaryOperator)
    ensures ConvertBinop(a).Some? && ConvertBinop(a) == ConvertBinop(b) ==> a == b
    ensures ConvertUnop(u) == ConvertUnop(v) ==> u == v
  {
  }

  /** A compound assignment computes with the same TACKY operator as its binary operator. */
  lemma CompoundAgreesWithBinary(op: S.CompoundOperator)
    ensures ConvertBinop(CompoundBase(op)) == Some(ConvertCompoundOp(op))
  {
  }

  // ---------------------------------------------------------------------------
  // Fresh names
  // ---------------------------------------------------------------------------

  /** The name `new_temp` makes from a prefix and the counter. */
  function TempName(prefix: string, k: nat): string {
    prefix + "." + Decimal.FromNat(k)
  }

  /** The counter a temporary's name was made with (the number after its last `.`), or -1. */
  function TempIndex(name: string): int {
    var dot := Decimal.LastDot(name);
    var suffix := name[dot + 1..];
    if dot >= 0 && |suffix| >= 1 && Decimal.AllDigits(suffix) then Decimal.Value(suffix) else -1
  }

  lemma TempIndexOf(prefix: string, k: nat)
    ensures TempIndex(TempName(prefix, k)) == k
  {
    var d := Decimal.FromNat(k);
    Decimal.LastDotBefore(prefix, d);
    var name := TempName(prefix, k);
    assert name[|prefix| + 1..] == d;
    Decimal.ValueOfFromNat(k);
  }

  /** Temporaries made with different counters are different names, whatever their prefixes. */
  lemma TempNamesDistinct(p: string, k: nat, q: string, j: nat)
    requires k != j
    ensures TempName(p, k) != TempName(q, j)
  {
    TempIndexOf(p, k);
    TempIndexOf(q, j);
  }

  /** A temporary never coincides with a name given by variable resolution. */
  lemma TempIsNotResolvedName(prefix: string, k: nat, x: string, j: nat)
    requires '.' !in prefix
    ensures TempName(prefix, k) != SA.ResolvedName(x, j)
  {
    if TempName(prefix, k) == SA.ResolvedName(x, j) {
      var q := x + ".resolved";
      assert SA.ResolvedName(x, j) == q + "." + Decimal.FromNat(j);
      Decimal.DotSuffixInjective(prefix, Decimal.FromNat(k), q, Decimal.FromNat(j));
    }
  }

  // ---------------------------------------------------------------------------
  // Specification of the lowering
  // ---------------------------------------------------------------------------

  /** How many temporaries lowering `e` asks `new_temp` for. */
  function TempCount(e: S.Expression): nat {
    match e
    case Constant(_) => 0
    case Var(_) => 0
    case Unary(_, a) => TempCount(a) + 1
    case Binary(op, a, b) => TempCount(a) + TempCount(b) + (if op == S.And || op == S.Or then 3 else 1)
    case Compound(_, a, b) => TempCount(a) + TempCount(b) + 1
    case Assign(_, b) => TempCount(b)
  }

  /** The value an expression lowers to, the instructions computing it, and the counter afterwards. */
  datatype Lowered = Lowered(val: Val, code: seq<Instr>, next: nat)

  /** The conditional jump of the short-circuit pattern: on zero for `&&`, on non-zero for `||`. */
  function Branch(and: bool, v: Val, skip: string): Instr {
    if and then JumpIfZero(v, skip) else JumpIfNotZero(v, skip)
  }

  /** What follows the second operand's code: the second test, the two outcomes and the two labels. */
  function ShortCircuitTail(and: bool, v: Val, skip: string, end: string, result: Val): seq<Instr> {
    [Branch(and, v, skip), Copy(Constant(if and then 1 else 0), result), Jump(end),
     Label(skip), Copy(Constant(if and then 0 else 1), result), Label(end)]
  }

  /** The short-circuit pattern shared by `&&` and `||`. */
  function ShortCircuit(and: bool, a: Lowered, b: Lowered, skip: string, end: string, result: Val): seq<Instr> {
    a.code + [Branch(and, a.val, skip)] + b.code + ShortCircuitTail(and, b.val, skip, end, result)
  }

  /**
   * `&&` (when `and`) or `||` started with counter `count`: the end label, the skip label
   * and the result take the counters `count`, `count + 1` and `count + 2`, and the operands
   * were lowered after them.
   */
  function ShortCircuitLowered(and: bool, count: nat, a: Lowered, b: Lowered): Lowered {
    var end := TempName(if and then "and_end" else "or_end", count);
    var skip := TempName(if and then "and_false" else "or_true", count + 1);
    var result := Var(TempName(if and then "and_result" else "or_result", count + 2));
    Lowered(result, ShortCircuit(and, a, b, skip, end, result), b.next)
  }

  /** Any other binary operator: both operands' code, then one `Binary` into a fresh `tmp` temporary. */
  function BinaryLowered(op: BinaryOp, a: Lowered, b: Lowered): Lowered {
    var dst := Var(TempName("tmp", b.next));
    Lowered(dst, a.code + b.code + [Binary(op, a.val, b.val, dst)], b.next + 1)
  }

  /**
   * `tackify_expr` started with counter `count`. Assignment targets that are not
   * variables are the only errors; the counter ends `TempCount(e)` higher.
   */
  function LowerExpr(count: nat, e: S.Expression): (r: Result<Lowered>)
    ensures r.Ok? ==> r.value.next == count + TempCount(e)
    decreases e
  {
    match e
    case Constant(n) => Ok(Lowered(Constant(n), [], count))
    case Var(id) => Ok(Lowered(Var(id), [], count))
    case Unary(op, inner) =>
      var a :- LowerExpr(count, inner);
      var dst := Var(TempName("tmp", a.next));
      Ok(Lowered(dst, a.code + [Unary(ConvertUnop(op), a.val, dst)], a.next + 1))
    case Binary(op, lhs, rhs) =>
      if op == S.And || op == S.Or then
        var a :- LowerExpr(count + 3, lhs);
        var b :- LowerExpr(a.next, rhs);
        Ok(ShortCircuitLowered(op == S.And, count, a, b))
      else
        var a :- LowerExpr(count, lhs);
        var b :- LowerExpr(a.next, rhs);
        Ok(BinaryLowered(ConvertBinop(op).value, a, b))
    case Compound(op, lhs, rhs) =>
      if !lhs.Var? then Err("Bad assignment made it through semantic analysis")
      else
        // The target, a variable, lowers to itself with no code.
        var b :- LowerExpr(count, rhs);
        var tmp := Var(TempName("c_tmp", b.next));
        Ok(Lowered(Var(lhs.name),
          b.code + [Binary(ConvertCompoundOp(op), Var(lhs.name), b.val, tmp), Copy(tmp, Var(lhs.name))],
          b.next + 1))
    case Assign(lhs, rhs) =>
      var b :- LowerExpr(count, rhs);
      if !lhs.Var? then Err("Bad assignment made it through semantic analysis")
      else Ok(Lowered(Var(lhs.name), b.code + [Copy(b.val, Var(lhs.name))], b.next))
  }

  /** The instructions of a statement or declaration, and the counter afterwards. */
  datatype Emitted = Emitted(code: seq<Instr>, next: nat)

  /** `tackify_statement`. */
  function LowerStatement(count: nat, s: S.Statement): (r: Result<Emitted>)
    ensures r.Err? <==> !s.Null? && LowerExpr(count, s.exp).Err?
    ensures r.Ok? ==> r.value.next == count + (if s.Null? then 0 else TempCount(s.exp))
  {
    match s
    case Null => Ok(Emitted([], count))
    case Return(e) =>
      var a :- LowerExpr(count, e);
      Ok(Emitted(a.code + [Return(a.val)], a.next))
    case Exp(e) =>
      var a :- LowerExpr(count, e);
      Ok(Emitted(a.code, a.next))
  }

  /** `tackify_declaration`: an initializer is computed and copied into the variable. */
  function LowerDeclaration(count: nat, d: S.Declaration): (r: Result<Emitted>)
    ensures r.Err? <==> d.init.Some? && LowerExpr(count, d.init.value).Err?
    ensures r.Ok? ==> r.value.next == count + (if d.init.Some? then TempCount(d.init.value) else 0)
    ensures r.Ok? && d.init.Some? ==>
      |r.value.code| >= 1 && r.value.code[|r.value.code| - 1].Copy? && r.value.code[|r.value.code| - 1].dst == Var(d.name)
    ensures d.init.None? ==> r == Ok(Emitted([], count))
  {
    match d.init
    case None => Ok(Emitted([], count))
    case Some(e) =>
      var a :- LowerExpr(count, e);
      Ok(Emitted(a.code + [Copy(a.val, Var(d.name))], a.next))
  }

  /** The dispatch in the loop of `emit_tacky`: the counter moves on by exactly the temporaries the item asks for. */
  function LowerItem(count: nat, item: S.BlockItem): (r: Result<Emitted>)
    ensures r.Ok? ==> r.value.next == count + ItemTempCount(item)
  {
    match item
    case D(d) => LowerDeclaration(count, d)
    case S(s) => LowerStatement(count, s)
  }

  /** The block lowered item by item, the counter carried from each item to the next. */
  function LowerItems(items: seq<S.BlockItem>): Result<Emitted> {
    if items == [] then Ok(Emitted([], 0))
    else
      var front :- LowerItems(items[..|items| - 1]);
      var last :- LowerItem(front.next, items[|items| - 1]);
      Ok(Emitted(front.code + last.code, last.next))
  }

  /** `emit_tacky`: the function keeps its name and its code ends with `return 0`. */
  function LowerProgram(p: S.Program): (r: Result<Tacky>)
    ensures r.Ok? ==>
      && r.value.name == p.name && |r.value.instructions| >= 1
      && r.value.instructions[|r.value.instructions| - 1] == Return(Constant(0))
  {
    var body :- LowerItems(p.items);
    Ok(Function(p.name, body.code + [Return(Constant(0))]))
  }

  /** The temporaries a statement or declaration asks for. */
  function ItemTempCount(item: S.BlockItem): nat {
    match item
    case D(d) => if d.init.Some? then TempCount(d.init.value) else 0
    case S(s) => if s.Null? then 0 else TempCount(s.exp)
  }

  /** The temporaries a whole block asks for: the counter (a `u8`) must reach no further than 255. */
  function BlockTempCount(items: seq<S.BlockItem>): nat {
    if items == [] then 0 else BlockTempCount(items[..|items| - 1]) + ItemTempCount(items[|items| - 1])
  }

  lemma LowerItemNext(count: nat, item: S.BlockItem)
    ensures LowerItem(count, item).Ok? ==> LowerItem(count, item).value.next == count + ItemTempCount(item)
  {
  }

  /** One more item: its code follows the code of the items before it, and its first panic is the block's. */
  lemma ItemsStep(items: seq<S.BlockItem>, i: nat)
    requires i < |items|
    ensures LowerItems(items[..i]).Ok? ==>
      var front := LowerItems(items[..i]).value;
      var last := LowerItem(front.next, items[i]);
      && (last.Err? ==> LowerItems(items[..i + 1]) == Err(last.error))
      && (last.Ok? ==> LowerItems(items[..i + 1]) == Ok(Emitted(front.code + last.value.code, last.value.next)))
    ensures BlockTempCount(items[..i + 1]) == BlockTempCount(items[..i]) + ItemTempCount(items[i])
  {
    assert items[..i + 1][..i] == items[..i];
  }

  lemma {:induction false} LowerItemsNext(items: seq<S.BlockItem>)
    ensures LowerItems(items).Ok? ==> LowerItems(items).value.next == BlockTempCount(items)
  {
    if items != [] && LowerItems(items).Ok? {
      LowerItemsNext(items[..|items| - 1]);
      LowerItemNext(LowerItems(items[..|items| - 1]).value.next, items[|items| - 1]);
    }
  }

  // ---------------------------------------------------------------------------
  // Which trees lower without a panic
  // ---------------------------------------------------------------------------

  /** Lowering panics exactly when some assignment target is not a variable. */
  lemma {:induction false} LowerExprOk(count: nat, e: S.Expression)
    ensures LowerExpr(count, e).Ok? <==> S.TargetsAreVars(e)
    decreases e
  {
    match e
    case Constant(_) =>
    case Var(_) =>
    case Unary(_, a) =>
      LowerExprOk(count, a);
    case Binary(op, a, b) =>
      var start := if op == S.And || op == S.Or then count + 3 else count;
      LowerExprOk(start, a);
      if LowerExpr(start, a).Ok? {
        LowerExprOk(LowerExpr(start, a).value.next, b);
      }
    case Compound(_, _, b) =>
      LowerExprOk(count, b);
    case Assign(_, b) =>
      LowerExprOk(count, b);
  }

  /** What variable resolution accepts, lowering never rejects. */
  lemma ResolvedLowers(env: SA.Env, e: S.Expression, count: nat)
    requires SA.ResolveExpression(env, e).Ok?
    ensures LowerExpr(count, SA.ResolveExpression(env, e).value).Ok?
  {
    SA.ResolveExpressionCorrect(env, e);
    SA.RenameKeepsTargets(env, e);
    LowerExprOk(count, SA.ResolveExpression(env, e).value);
  }

  /** An expression's code never returns: the only `Return` of a `return` statement is its last instruction. */
  lemma {:induction false} ExprCodeHasNoReturn(count: nat, e: S.Expression)
    ensures NoReturnWhenOk(count, e)
    decreases e
  {
    match e
    case Constant(_) =>
    case Var(_) =>
    case Unary(op, inner) =>
      ExprCodeHasNoReturn(count, inner);
      if LowerExpr(count, inner).Ok? {
        var a := LowerExpr(count, inner).value;
        NoReturnConcat(a.code, [Unary(ConvertUnop(op), a.val, Var(TempName("tmp", a.next)))]);
      }
    case Binary(op, lhs, rhs) =>
      var start := if op == S.And || op == S.Or then count + 3 else count;
      ExprCodeHasNoReturn(start, lhs);
      if LowerExpr(start, lhs).Ok? {
        ExprCodeHasNoReturn(LowerExpr(start, lhs).value.next, rhs);
      }
      if LowerExpr(count, e).Ok? {
        var a := LowerExpr(start, lhs).value;
        var b := LowerExpr(a.next, rhs).value;
        if op == S.And || op == S.Or {
          ShortCircuitNoReturn(count, op, lhs, rhs, a, b);
        } else {
          BinaryNoReturn(count, op, lhs, rhs, a, b);
        }
      }
    case Compound(op, lhs, rhs) =>
      ExprCodeHasNoReturn(count, rhs);
      if LowerExpr(count, e).Ok? {
        var b := LowerExpr(count, rhs).value;
        var tmp := Var(TempName("c_tmp", b.next));
        NoReturnConcat(b.code, [Binary(ConvertCompoundOp(op), Var(lhs.name), b.val, tmp), Copy(tmp, Var(lhs.name))]);
      }
    case Assign(lhs, rhs) =>
      ExprCodeHasNoReturn(count, rhs);
      if LowerExpr(count, e).Ok? {
        var b := LowerExpr(count, rhs).value;
        NoReturnConcat(b.code, [Copy(b.val, Var(lhs.name))]);
      }
  }

  /** Code without a `Return`. */
  predicate NoReturn(code: seq<Instr>) {
    forall i | 0 <= i < |code| :: !code[i].Return?
  }

  /** When `e` lowers, its code has no `Return`. */
  predicate NoReturnWhenOk(count: nat, e: S.Expression) {
    LowerExpr(count, e).Ok? ==> NoReturn(LowerExpr(count, e).value.code)
  }

  lemma NoReturnConcat(x: seq<Instr>, y: seq<Instr>)
    requires NoReturn(x) && NoReturn(y)
    ensures NoReturn(x + y)
  {
    forall i | 0 <= i < |x + y| ensures !(x + y)[i].Return? {
      if i >= |x| {
        assert (x + y)[i] == y[i - |x|];
      }
    }
  }

  lemma BinaryNoReturn(count: nat, op: S.BinaryOperator, lhs: S.Expression, rhs: S.Expression, a: Lowered, b: Lowered)
    requires op != S.And && op != S.Or
    requires LowerExpr(count, lhs) == Ok(a) && NoReturn(a.code)
    requires LowerExpr(a.next, rhs) == Ok(b) && NoReturn(b.code)
    ensures LowerExpr(count, S.Binary(op, lhs, rhs)).Ok? && NoReturn(LowerExpr(count, S.Binary(op, lhs, rhs)).value.code)
  {
    var dst := Var(TempName("tmp", b.next));
    BinaryOk(count, op, lhs, rhs, a, b);
    NoReturnConcat(a.code, b.code);
    NoReturnConcat(a.code + b.code, [Binary(ConvertBinop(op).value, a.val, b.val, dst)]);
  }

  lemma ShortCircuitNoReturn(count: nat, op: S.BinaryOperator, lhs: S.Expression, rhs: S.Expression, a: Lowered, b: Lowered)
    requires op == S.And || op == S.Or
    requires LowerExpr(count + 3, lhs) == Ok(a) && NoReturn(a.code)
    requires LowerExpr(a.next, rhs) == Ok(b) && NoReturn(b.code)
    ensures LowerExpr(count, S.Binary(op, lhs, rhs)).Ok? && NoReturn(LowerExpr(count, S.Binary(op, lhs, rhs)).value.code)
  {
    ShortCircuitOk(count, op, lhs, rhs, a, b);
    ShortCircuitLoweredNoReturn(op == S.And, count, a, b);
  }

  /** The short-circuit code holds a `Return` only if one of its operands' code does. */
  lemma ShortCircuitLoweredNoReturn(and: bool, count: nat, a: Lowered, b: Lowered)
    requires NoReturn(a.code) && NoReturn(b.code)
    ensures NoReturn(ShortCircuitLowered(and, count, a, b).code)
  {
    var end := TempName(if and then "and_end" else "or_end", count);
    var skip := TempName(if and then "and_false" else "or_true", count + 1);
    var result := Var(TempName(if and then "and_result" else "or_result", count + 2));
    var head := a.code + [Branch(and, a.val, skip)];
    NoReturnConcat(a.code, [Branch(and, a.val, skip)]);
    NoReturnConcat(head, b.code);
    NoReturnConcat(head + b.code, ShortCircuitTail(and, b.val, skip, end, result));
  }

  /** `return e` computes `e` and then returns its value, with exactly one `Return`. */
  lemma ReturnStatementReturnsOnce(count: nat, e: S.Expression)
    requires LowerStatement(count, S.Return(e)).Ok?
    ensures var code := LowerStatement(count, S.Return(e)).value.code;
      && code == LowerExpr(count, e).value.code + [Return(LowerExpr(count, e).value.val)]
      && forall i | 0 <= i < |code| - 1 :: !code[i].Return?
  {
    ExprCodeHasNoReturn(count, e);
  }

  /** Both kinds of assignment end by copying into the target variable, and yield that variable. */
  lemma AssignmentEndsWithCopy(count: nat, e: S.Expression)
    requires e.Assign? || e.Compound?
    requires LowerExpr(count, e).Ok?
    ensures var r := LowerExpr(count, e).value;
      && e.target.Var? && r.val == Var(e.target.name)
      && |r.code| >= 1 && r.code[|r.code| - 1].Copy? && r.code[|r.code| - 1].dst == Var(e.target.name)
    ensures e.Compound? ==> var r := LowerExpr(count, e).value;
      var tmp := Var(TempName("c_tmp", r.next - 1));
      && |r.code| >= 2
      && r.code[|r.code| - 2] == Binary(ConvertCompoundOp(e.cop), Var(e.target.name), LowerExpr(count, e.source).value.val, tmp)
      && r.code[|r.code| - 1] == Copy(tmp, Var(e.target.name))
  {
  }

  // ---------------------------------------------------------------------------
  // Labels and jumps
  // ---------------------------------------------------------------------------

  /** The labels placed in a piece of code, in order. */
  function LabelsOf(code: seq<Instr>): seq<string> {
    if code == [] then []
    else
      var last := code[|code| - 1];
      LabelsOf(code[..|code| - 1]) + (if last.Label? then [last.name] else [])
  }

  predicate IsJump(i: Instr) {
    i.Jump? || i.JumpIfZero? || i.JumpIfNotZero?
  }

  /** Every jump in `code` goes to one of `labels`. */
  predicate JumpsInto(code: seq<Instr>, labels: seq<string>) {
    forall i | i in code && IsJump(i) :: i.target in labels
  }

  /** Every label in the code was made with a counter in `[lo, hi)`, and none is placed twice. */
  predicate FreshLabels(code: seq<Instr>, lo: int, hi: int) {
    S.Distinct(LabelsOf(code)) && forall x | x in LabelsOf(code) :: lo <= TempIndex(x) < hi
  }

  /** No label is placed twice, and every jump goes to a label placed in the same code. */
  predicate WellLabelled(code: seq<Instr>) {
    S.Distinct(LabelsOf(code)) && JumpsInto(code, LabelsOf(code))
  }

  lemma {:induction false} LabelsOfConcat(x: seq<Instr>, y: seq<Instr>)
    ensures LabelsOf(x + y) == LabelsOf(x) + LabelsOf(y)
    decreases |y|
  {
    if y != [] {
      var y0 := y[..|y| - 1];
      assert (x + y)[..|x + y| - 1] == x + y0;
      LabelsOfConcat(x, y0);
    } else {
      assert x + y == x;
    }
  }

  /** Code whose labels come from counter ranges that do not overlap is joined without a clash. */
  lemma JoinFresh(x: seq<Instr>, y: seq<Instr>, lo1: int, hi1: int, lo2: int, hi2: int)
    requires FreshLabels(x, lo1, hi1) && FreshLabels(y, lo2, hi2) && (hi1 <= lo2 || hi2 <= lo1)
    ensures LabelsOf(x + y) == LabelsOf(x) + LabelsOf(y)
    ensures FreshLabels(x + y, if lo1 < lo2 then lo1 else lo2, if hi1 < hi2 then hi2 else hi1)
  {
    LabelsOfConcat(x, y);
    S.DistinctConcat(LabelsOf(x), LabelsOf(y));
  }

  /** Lowered code, one piece after the other. */
  lemma Sequence(x: seq<Instr>, y: seq<Instr>, lo: int, mid: int, hi: int)
    requires lo <= mid <= hi
    requires FreshLabels(x, lo, mid) && JumpsInto(x, LabelsOf(x))
    requires FreshLabels(y, mid, hi) && JumpsInto(y, LabelsOf(y))
    ensures FreshLabels(x + y, lo, hi) && JumpsInto(x + y, LabelsOf(x + y))
  {
    JoinFresh(x, y, lo, mid, mid, hi);
  }

  /** Code without labels or jumps. */
  predicate Straight(code: seq<Instr>) {
    forall i | i in code :: !i.Label? && !IsJump(i)
  }

  lemma {:induction false} StraightLabels(code: seq<Instr>)
    requires Straight(code)
    ensures LabelsOf(code) == []
    decreases |code|
  {
    if code != [] {
      StraightLabels(code[..|code| - 1]);
    }
  }

  /** Appending code without labels or jumps keeps the labelling. */
  lemma AppendStraight(x: seq<Instr>, y: seq<Instr>, lo: int, hi: int)
    requires lo <= hi
    requires FreshLabels(x, lo, hi) && JumpsInto(x, LabelsOf(x)) && Straight(y)
    ensures FreshLabels(x + y, lo, hi) && JumpsInto(x + y, LabelsOf(x + y))
  {
    StraightLabels(y);
    Sequence(x, y, lo, hi, hi);
  }

  lemma ShortCircuitTailLabels(and: bool, v: Val, skip: string, end: string, result: Val)
    ensures LabelsOf(ShortCircuitTail(and, v, skip, end, result)) == [skip, end]
  {
    var t := ShortCircuitTail(and, v, skip, end, result);
    assert t[..1][..0] == [];
    assert LabelsOf(t[..1]) == [];
    assert t[..2][..1] == t[..1];
    assert LabelsOf(t[..2]) == [];
    assert t[..3][..2] == t[..2];
    assert LabelsOf(t[..3]) == [];
    assert t[..4][..3] == t[..3];
    assert LabelsOf(t[..4]) == [skip];
    assert t[..5][..4] == t[..4];
    assert LabelsOf(t[..5]) == [skip];
    assert t[..5] == t[..|t| - 1];
  }

  /** The short-circuit pattern's own labels and jumps, around the operands' code. */
  lemma ShortCircuitLabelled(and: bool, a: Lowered, b: Lowered, count: nat, skip: string, end: string, result: Val)
    requires FreshLabels(a.code, count + 3, a.next) && JumpsInto(a.code, LabelsOf(a.code))
    requires FreshLabels(b.code, a.next, b.next) && JumpsInto(b.code, LabelsOf(b.code))
    requires count + 3 <= a.next <= b.next
    requires TempIndex(end) == count && TempIndex(skip) == count + 1
    ensures FreshLabels(ShortCircuit(and, a, b, skip, end, result), count, b.next)
    ensures JumpsInto(ShortCircuit(and, a, b, skip, end, result), LabelsOf(ShortCircuit(and, a, b, skip, end, result)))
  {
    var branch := Branch(and, a.val, skip);
    var tail := ShortCircuitTail(and, b.val, skip, end, result);
    AppendBranch(a.code, branch, count + 3, a.next);
    var head := a.code + [branch];
    JoinFresh(head, b.code, count + 3, a.next, a.next, b.next);
    TailFresh(and, b.val, skip, end, result, count);
    JoinFresh(head + b.code, tail, count + 3, b.next, count, count + 2);
    ShortCircuitJumps(a.code, b.code, branch, tail, skip, end);
  }

  lemma AppendBranch(x: seq<Instr>, branch: Instr, lo: int, hi: int)
    requires FreshLabels(x, lo, hi) && !branch.Label?
    ensures LabelsOf(x + [branch]) == LabelsOf(x) && FreshLabels(x + [branch], lo, hi)
  {
    assert (x + [branch])[..|x|] == x;
  }

  lemma TailFresh(and: bool, v: Val, skip: string, end: string, result: Val, count: nat)
    requires TempIndex(end) == count && TempIndex(skip) == count + 1
    ensures LabelsOf(ShortCircuitTail(and, v, skip, end, result)) == [skip, end]
    ensures FreshLabels(ShortCircuitTail(and, v, skip, end, result), count, count + 2)
    ensures JumpsInto(ShortCircuitTail(and, v, skip, end, result), [skip, end])
  {
    ShortCircuitTailLabels(and, v, skip, end, result);
  }

  lemma ShortCircuitJumps(x: seq<Instr>, y: seq<Instr>, branch: Instr, tail: seq<Instr>, skip: string, end: string)
    requires JumpsInto(x, LabelsOf(x)) && JumpsInto(y, LabelsOf(y))
    requires IsJump(branch) && branch.target == skip
    requires LabelsOf(x + [branch] + y + tail) == LabelsOf(x) + LabelsOf(y) + [skip, end]
    requires JumpsInto(tail, [skip, end])
    ensures JumpsInto(x + [branch] + y + tail, LabelsOf(x + [branch] + y + tail))
  {
    var code := x + [branch] + y + tail;
    var labels := LabelsOf(code);
    forall i | i in code && IsJump(i) ensures i.target in labels {
      if i in x {
        assert i.target in LabelsOf(x);
      } else if i in y {
        assert i.target in LabelsOf(y);
      } else if i in tail {
        assert i.target in [skip, end];
      }
    }
  }

  /**
   * Lowered code places every label once, only with counters from its own run
   * `[count, next)`, and every jump in it goes to one of its labels.
   */
  lemma {:induction false} LowerExprLabelled(count: nat, e: S.Expression)
    requires LowerExpr(count, e).Ok?
    ensures var r := LowerExpr(count, e).value;
      FreshLabels(r.code, count, r.next) && JumpsInto(r.code, LabelsOf(r.code))
    decreases e
  {
    match e
    case Constant(_) =>
    case Var(_) =>
    case Unary(op, inner) =>
      var a := LowerExpr(count, inner).value;
      LowerExprLabelled(count, inner);
      UnaryLabelled(count, op, inner, a);
    case Binary(op, lhs, rhs) =>
      var start := if op == S.And || op == S.Or then count + 3 else count;
      var a := LowerExpr(start, lhs).value;
      LowerExprLabelled(start, lhs);
      var b := LowerExpr(a.next, rhs).value;
      LowerExprLabelled(a.next, rhs);
      if op == S.And || op == S.Or {
        ShortCircuitCase(count, op, lhs, rhs, a, b);
      } else {
        BinaryCase(count, op, lhs, rhs, a, b);
      }
    case Compound(op, lhs, rhs) =>
      var b := LowerExpr(count, rhs).value;
      LowerExprLabelled(count, rhs);
      CompoundCase(count, op, lhs, rhs, b);
    case Assign(lhs, rhs) =>
      var b := LowerExpr(count, rhs).value;
      LowerExprLabelled(count, rhs);
      AssignCase(count, lhs, rhs, b);
  }

  /** Code made with counters from `[lo, hi)` whose jumps stay inside it. */
  predicate Labelled(code: seq<Instr>, lo: int, hi: int) {
    FreshLabels(code, lo, hi) && JumpsInto(code, LabelsOf(code))
  }

  /** `LowerExpr(count, e)` is labelled as `LowerExprLabelled` states. */
  predicate LoweredLabelled(count: nat, e: S.Expression)
    requires LowerExpr(count, e).Ok?
  {
    var r := LowerExpr(count, e).value;
    Labelled(r.code, count, r.next)
  }

  lemma UnaryLabelled(count: nat, op: S.UnaryOperator, inner: S.Expression, a: Lowered)
    requires LowerExpr(count, inner) == Ok(a) && Labelled(a.code, count, a.next)
    ensures LowerExpr(count, S.Unary(op, inner)).Ok? && LoweredLabelled(count, S.Unary(op, inner))
  {
    var dst := Var(TempName("tmp", a.next));
    AppendStraight(a.code, [Unary(ConvertUnop(op), a.val, dst)], count, a.next + 1);
  }

  lemma ShortCircuitCase(count: nat, op: S.BinaryOperator, lhs: S.Expression, rhs: S.Expression, a: Lowered, b: Lowered)
    requires op == S.And || op == S.Or
    requires LowerExpr(count + 3, lhs) == Ok(a) && Labelled(a.code, count + 3, a.next)
    requires LowerExpr(a.next, rhs) == Ok(b) && Labelled(b.code, a.next, b.next)
    ensures LowerExpr(count, S.Binary(op, lhs, rhs)).Ok? && LoweredLabelled(count, S.Binary(op, lhs, rhs))
  {
    ShortCircuitOk(count, op, lhs, rhs, a, b);
    ShortCircuitLoweredLabelled(op == S.And, count, a, b);
  }

  /** The short-circuit code is labelled with the counters from `count` on, given labelled operands lowered after its names. */
  lemma ShortCircuitLoweredLabelled(and: bool, count: nat, a: Lowered, b: Lowered)
    requires count + 3 <= a.next <= b.next
    requires Labelled(a.code, count + 3, a.next) && Labelled(b.code, a.next, b.next)
    ensures Labelled(ShortCircuitLowered(and, count, a, b).code, count, b.next)
    ensures ShortCircuitLowered(and, count, a, b).next == b.next
  {
    var endPrefix, skipPrefix := if and then "and_end" else "or_end", if and then "and_false" else "or_true";
    var skip, end := TempName(skipPrefix, count + 1), TempName(endPrefix, count);
    var result := Var(TempName(if and then "and_result" else "or_result", count + 2));
    TempIndexOf(endPrefix, count);
    TempIndexOf(skipPrefix, count + 1);
    ShortCircuitLabelled(and, a, b, count, skip, end, result);
  }

  lemma BinaryCase(count: nat, op: S.BinaryOperator, lhs: S.Expression, rhs: S.Expression, a: Lowered, b: Lowered)
    requires op != S.And && op != S.Or
    requires LowerExpr(count, lhs) == Ok(a) && Labelled(a.code, count, a.next)
    requires LowerExpr(a.next, rhs) == Ok(b) && Labelled(b.code, a.next, b.next)
    ensures LowerExpr(count, S.Binary(op, lhs, rhs)).Ok? && LoweredLabelled(count, S.Binary(op, lhs, rhs))
  {
    var dst := Var(TempName("tmp", b.next));
    BinarySteps(count, op, lhs, rhs);
    Sequence(a.code, b.code, count, a.next, b.next);
    AppendStraight(a.code + b.code, [Binary(ConvertBinop(op).value, a.val, b.val, dst)], count, b.next + 1);
  }

  lemma CompoundCase(count: nat, op: S.CompoundOperator, lhs: S.Expression, rhs: S.Expression, b: Lowered)
    requires lhs.Var?
    requires LowerExpr(count, rhs) == Ok(b) && Labelled(b.code, count, b.next)
    ensures LowerExpr(count, S.Compound(op, lhs, rhs)).Ok? && LoweredLabelled(count, S.Compound(op, lhs, rhs))
  {
    var tmp := Var(TempName("c_tmp", b.next));
    AppendStraight(b.code, [Binary(ConvertCompoundOp(op), Var(lhs.name), b.val, tmp), Copy(tmp, Var(lhs.name))], count, b.next + 1);
  }

  lemma AssignCase(count: nat, lhs: S.Expression, rhs: S.Expression, b: Lowered)
    requires lhs.Var?
    requires LowerExpr(count, rhs) == Ok(b) && Labelled(b.code, count, b.next)
    ensures LowerExpr(count, S.Assign(lhs, rhs)).Ok? && LoweredLabelled(count, S.Assign(lhs, rhs))
  {
    AppendStraight(b.code, [Copy(b.val, Var(lhs.name))], count, b.next);
  }

  lemma LowerItemLabelled(count: nat, item: S.BlockItem)
    requires LowerItem(count, item).Ok?
    ensures var r := LowerItem(count, item).value;
      FreshLabels(r.code, count, r.next) && JumpsInto(r.code, LabelsOf(r.code))
  {
    var r := LowerItem(count, item).value;
    match item
    case D(d) =>
      if d.init.Some? {
        var a := LowerExpr(count, d.init.value).value;
        LowerExprLabelled(count, d.init.value);
        AppendStraight(a.code, [Copy(a.val, Var(d.name))], count, r.next);
      }
    case S(s) =>
      if !s.Null? {
        var a := LowerExpr(count, s.exp).value;
        LowerExprLabelled(count, s.exp);
        if s.Return? {
          AppendStraight(a.code, [Return(a.val)], count, r.next);
        }
      }
  }

  lemma {:induction false} LowerItemsLabelled(items: seq<S.BlockItem>)
    requires LowerItems(items).Ok?
    ensures var r := LowerItems(items).value;
      FreshLabels(r.code, 0, r.next) && JumpsInto(r.code, LabelsOf(r.code))
  {
    if items != [] {
      var front := LowerItems(items[..|items| - 1]).value;
      LowerItemsLabelled(items[..|items| - 1]);
      LowerItemLabelled(front.next, items[|items| - 1]);
      var last := LowerItem(front.next, items[|items| - 1]).value;
      Sequence(front.code, last.code, 0, front.next, last.next);
    }
  }

  /** In a lowered function no label is placed twice and every jump target is a label in it. */
  lemma ProgramLabelled(p: S.Program)
    requires LowerProgram(p).Ok?
    ensures WellLabelled(LowerProgram(p).value.instructions)
  {
    var body := LowerItems(p.items).value;
    LowerItemsLabelled(p.items);
    AppendStraight(body.code, [Return(Constant(0))], 0, body.next);
  }

  /** How `LowerExpr` unfolds on `&&` and `||`: names first, then each operand, the first panic winning. */
  lemma ShortCircuitSteps(count: nat, op: S.BinaryOperator, lhs: S.Expression, rhs: S.Expression)
    requires op == S.And || op == S.Or
    ensures var r, ra := LowerExpr(count, S.Binary(op, lhs, rhs)), LowerExpr(count + 3, lhs);
      && (ra.Err? ==> r == Err(ra.error))
      && (ra.Ok? ==> var rb := LowerExpr(ra.value.next, rhs);
           && (rb.Err? ==> r == Err(rb.error))
           && (rb.Ok? ==> r == Ok(ShortCircuitLowered(op == S.And, count, ra.value, rb.value))))
  {
    var ra := LowerExpr(count + 3, lhs);
    if ra.Err? {
      ShortCircuitLhsErr(count, op, lhs, rhs);
    } else if LowerExpr(ra.value.next, rhs).Err? {
      ShortCircuitRhsErr(count, op, lhs, rhs, ra.value);
    } else {
      ShortCircuitOk(count, op, lhs, rhs, ra.value, LowerExpr(ra.value.next, rhs).value);
    }
  }

  lemma ShortCircuitLhsErr(count: nat, op: S.BinaryOperator, lhs: S.Expression, rhs: S.Expression)
    requires (op == S.And || op == S.Or) && LowerExpr(count + 3, lhs).Err?
    ensures LowerExpr(count, S.Binary(op, lhs, rhs)) == Err(LowerExpr(count + 3, lhs).error)
  {
  }

  lemma ShortCircuitRhsErr(count: nat, op: S.BinaryOperator, lhs: S.Expression, rhs: S.Expression, a: Lowered)
    requires (op == S.And || op == S.Or) && LowerExpr(count + 3, lhs) == Ok(a) && LowerExpr(a.next, rhs).Err?
    ensures LowerExpr(count, S.Binary(op, lhs, rhs)) == Err(LowerExpr(a.next, rhs).error)
  {
  }

  lemma ShortCircuitOk(count: nat, op: S.BinaryOperator, lhs: S.Expression, rhs: S.Expression, a: Lowered, b: Lowered)
    requires (op == S.And || op == S.Or) && LowerExpr(count + 3, lhs) == Ok(a) && LowerExpr(a.next, rhs) == Ok(b)
    ensures LowerExpr(count, S.Binary(op, lhs, rhs)) == Ok(ShortCircuitLowered(op == S.And, count, a, b))
  {
  }

  /** How `LowerExpr` unfolds on the other binary operators: each operand in turn, the first panic winning. */
  lemma BinarySteps(count: nat, op: S.BinaryOperator, lhs: S.Expression, rhs: S.Expression)
    requires op != S.And && op != S.Or
    ensures var r, ra := LowerExpr(count, S.Binary(op, lhs, rhs)), LowerExpr(count, lhs);
      && (ra.Err? ==> r == Err(ra.error))
      && (ra.Ok? ==> var rb := LowerExpr(ra.value.next, rhs);
           && (rb.Err? ==> r == Err(rb.error))
           && (rb.Ok? ==> r == Ok(BinaryLowered(ConvertBinop(op).value, ra.value, rb.value))))
  {
    match LowerExpr(count, lhs)
    case Err(_) => BinaryLhsErr(count, op, lhs, rhs);
    case Ok(a) =>
      match LowerExpr(a.next, rhs)
      case Err(_) => BinaryRhsErr(count, op, lhs, rhs, a);
      case Ok(b) => BinaryOk(count, op, lhs, rhs, a, b);
  }

  lemma BinaryLhsErr(count: nat, op: S.BinaryOperator, lhs: S.Expression, rhs: S.Expression)
    requires op != S.And && op != S.Or && LowerExpr(count, lhs).Err?
    ensures LowerExpr(count, S.Binary(op, lhs, rhs)) == Err(LowerExpr(count, lhs).error)
  {
  }

  lemma BinaryRhsErr(count: nat, op: S.BinaryOperator, lhs: S.Expression, rhs: S.Expression, a: Lowered)
    requires op != S.And && op != S.Or && LowerExpr(count, lhs) == Ok(a) && LowerExpr(a.next, rhs).Err?
    ensures LowerExpr(count, S.Binary(op, lhs, rhs)) == Err(LowerExpr(a.next, rhs).error)
  {
  }

  lemma BinaryOk(count: nat, op: S.BinaryOperator, lhs: S.Expression, rhs: S.Expression, a: Lowered, b: Lowered)
    requires op != S.And && op != S.Or && LowerExpr(count, lhs) == Ok(a) && LowerExpr(a.next, rhs) == Ok(b)
    ensures LowerExpr(count, S.Binary(op, lhs, rhs)) == Ok(BinaryLowered(ConvertBinop(op).value, a, b))
  {
  }

  /** Appending each operand's code and then one instruction yields the code `LowerExpr` specifies. */
  lemma BinaryAppended(start: seq<Instr>, mid: seq<Instr>, code: seq<Instr>, list: seq<Instr>,
                       a: seq<Instr>, b: seq<Instr>, last: Instr)
    requires mid == start + a && code == mid + b && list == code + [last]
    ensures list == start + (a + b + [last])
  {
  }

  /** Appending the pieces of the short-circuit pattern one after another yields the whole pattern. */
  lemma ShortCircuitAppended(start: seq<Instr>, mid: seq<Instr>, code: seq<Instr>, list: seq<Instr>,
                             and: bool, a: Lowered, b: Lowered, skip: string, end: string, result: Val)
    requires mid == start + a.code + [Branch(and, a.val, skip)]
    requires code == mid + b.code
    requires list == code + ShortCircuitTail(and, b.val, skip, end, result)
    ensures list == start + ShortCircuit(and, a, b, skip, end, result)
  {
  }

  // ---------------------------------------------------------------------------
  // The lowering state and its methods
  // ---------------------------------------------------------------------------

  /** The instruction vector that the lowering appends to. */
  class Instructions {
    var list: seq<Instr>

    constructor ()
      ensures list == []
    {
      list := [];
    }

    method Push(i: Instr)
      modifies this
      ensures list == old(list) + [i]
    {
      list := list + [i];
    }

    method Extend(code: seq<Instr>)
      modifies this
      ensures list == old(list) + code
    {
      list := list + code;
    }
  }

  /** `v` and the appended code are what `LowerExpr` specifies, or both are the same panic. */
  ghost predicate Follows(spec: Result<Lowered>, v: Result<Val>, before: seq<Instr>, after: seq<Instr>, count: nat) {
    && (v.Ok? <==> spec.Ok?)
    && (v.Err? ==> v.error == spec.error)
    && (v.Ok? ==> v.value == spec.value.val && after == before + spec.value.code && count == spec.value.next)
  }

  class TackifyState {
    var count: nat

    constructor ()
      ensures count == 0
    {
      count := 0;
    }

    /** A fresh temporary; the counter (a `u8`) goes up by exactly one. */
    method NewTemp(prefix: string) returns (name: string)
      requires count < 255
      modifies this
      ensures name == TempName(prefix, old(count)) && count == old(count) + 1
    {
      name := TempName(prefix, count);
      count := count + 1;
    }

    /** `tackify_expr`: appends the code computing `e` and returns where its value is. */
    method TackifyExpr(e: S.Expression, out: Instructions) returns (v: Result<Val>)
      requires count + TempCount(e) <= 255
      modifies this, out
      ensures Follows(LowerExpr(old(count), e), v, old(out.list), out.list, count)
      decreases e, 1
    {
      match e {
        case Constant(n) =>
          v := Ok(Constant(n));
        case Var(id) =>
          v := Ok(Var(id));
        case Unary(op, inner) =>
          var src :- TackifyExpr(inner, out);
          var name := NewTemp("tmp");
          out.Push(Unary(ConvertUnop(op), src, Var(name)));
          v := Ok(Var(name));
        case Binary(op, lhs, rhs) =>
          if op == S.And || op == S.Or {
            v := TackifyShortCircuit(e, out);
          } else {
            v := TackifyBinary(e, out);
          }
        case Compound(op, lhs, rhs) =>
          v := TackifyCompound(e, out);
        case Assign(lhs, rhs) =>
          var result :- TackifyExpr(rhs, out);
          if !lhs.Var? {
            return Err("Bad assignment made it through semantic analysis");
          }
          out.Push(Copy(result, Var(lhs.name)));
          v := Ok(Var(lhs.name));
      }
    }

    /** The `&&` and `||` arms: three fresh names first, then the operands between the jumps. */
    method TackifyShortCircuit(e: S.Expression, out: Instructions) returns (v: Result<Val>)
      requires e.Binary? && (e.binop == S.And || e.binop == S.Or)
      requires count + TempCount(e) <= 255
      modifies this, out
      ensures Follows(LowerExpr(old(count), e), v, old(out.list), out.list, count)
      decreases e, 0
    {
      ShortCircuitSteps(count, e.binop, e.left, e.right);
      var and := e.binop == S.And;
      var end := NewTemp(if and then "and_end" else "or_end");
      var skip := NewTemp(if and then "and_false" else "or_true");
      var resultName := NewTemp(if and then "and_result" else "or_result");
      var result := Var(resultName);
      ghost var start, first := out.list, count;
      var left :- TackifyExpr(e.left, out);
      ghost var a := LowerExpr(first, e.left).value;
      out.Push(Branch(and, left, skip));
      ghost var mid := out.list;
      var right :- TackifyExpr(e.right, out);
      ghost var b := LowerExpr(a.next, e.right).value;
      var tail := ShortCircuitTail(and, right, skip, end, result);
      ghost var code := out.list;
      out.Extend(tail);
      ShortCircuitAppended(start, mid, code, out.list, and, a, b, skip, end, result);
      v := Ok(result);
    }

    /** The arm of every other binary operator: left operand, right operand, then one `Binary`. */
    method TackifyBinary(e: S.Expression, out: Instructions) returns (v: Result<Val>)
      requires e.Binary? && e.binop != S.And && e.binop != S.Or
      requires count + TempCount(e) <= 255
      modifies this, out
      ensures Follows(LowerExpr(old(count), e), v, old(out.list), out.list, count)
      decreases e, 0
    {
      BinarySteps(count, e.binop, e.left, e.right);
      ghost var start, first := out.list, count;
      var src1 :- TackifyExpr(e.left, out);
      ghost var a := LowerExpr(first, e.left).value;
      ghost var mid := out.list;
      var src2 :- TackifyExpr(e.right, out);
      ghost var b := LowerExpr(a.next, e.right).value;
      ghost var code := out.list;
      var name := NewTemp("tmp");
      var last := Binary(ConvertBinop(e.binop).value, src1, src2, Var(name));
      out.Push(last);
      assert mid == start + a.code && code == mid + b.code && src1 == a.val && src2 == b.val;
      BinaryAppended(start, mid, code, out.list, a.code, b.code, last);
      v := Ok(Var(name));
    }

    /** The compound-assignment arm: the target must be a variable; the result is copied back into it. */
    method TackifyCompound(e: S.Expression, out: Instructions) returns (v: Result<Val>)
      requires e.Compound?
      requires count + TempCount(e) <= 255
      modifies this, out
      ensures Follows(LowerExpr(old(count), e), v, old(out.list), out.list, count)
      decreases e, 0
    {
      var op := ConvertCompoundOp(e.cop);
      if !e.target.Var? {
        return Err("Bad assignment made it through semantic analysis");
      }
      var id := e.target.name;
      var src2 :- TackifyExpr(e.source, out);
      var tmp := NewTemp("c_tmp");
      out.Push(Binary(op, Var(id), src2, Var(tmp)));
      out.Push(Copy(Var(tmp), Var(id)));
      v := Ok(Var(id));
    }

    /** `tackify_statement` and `tackify_declaration`, as `LowerItem` specifies them. */
    method TackifyItem(item: S.BlockItem, out: Instructions) returns (r: Result<()>)
      requires count + ItemTempCount(item) <= 255
      modifies this, out
      ensures var spec := LowerItem(old(count), item);
        && (r.Ok? <==> spec.Ok?)
        && (r.Err? ==> r.error == spec.error)
        && (r.Ok? ==> out.list == old(out.list) + spec.value.code && count == spec.value.next)
    {
      match item {
        case D(d) =>
          if d.init.Some? {
            var val :- TackifyExpr(d.init.value, out);
            out.Push(Copy(val, Var(d.name)));
          }
        case S(s) =>
          match s {
            case Null =>
            case Return(e) =>
              var val :- TackifyExpr(e, out);
              out.Push(Return(val));
            case Exp(e) =>
              var _ :- TackifyExpr(e, out);
          }
      }
      r := Ok(());
    }
  }

  /** `emit_tacky`: the block item by item, then `return 0`, as `LowerProgram` specifies. */
  method EmitTacky(p: S.Program) returns (t: Result<Tacky>)
    requires BlockTempCount(p.items) <= 255
    ensures t == LowerProgram(p)
  {
    var out := new Instructions();
    var state := new TackifyState();
    for i := 0 to |p.items|
      invariant LowerItems(p.items[..i]) == Ok(Emitted(out.list, state.count))
      invariant state.count == BlockTempCount(p.items[..i])
    {
      var item := p.items[i];
      ItemsStep(p.items, i);
      BlockTempCountMonotone(p.items, i + 1);
      LowerItemsErrorPersists(p.items, i + 1);
      LowerItemsNext(p.items[..i + 1]);
      var _ :- state.TackifyItem(item, out);
    }
    assert p.items[..|p.items|] == p.items;
    out.Push(Return(Constant(0)));
    t := Ok(Function(p.name, out.list));
  }

  lemma {:induction false} BlockTempCountMonotone(items: seq<S.BlockItem>, n: nat)
    requires n <= |items|
    ensures BlockTempCount(items[..n]) <= BlockTempCount(items)
    decreases |items| - n
  {
    if n < |items| {
      BlockTempCountMonotone(items, n + 1);
      assert items[..n + 1][..n] == items[..n];
    } else {
      assert items[..n] == items;
    }
  }

  /** The first item that panics decides the outcome of the whole block. */
  lemma {:induction false} LowerItemsErrorPersists(items: seq<S.BlockItem>, n: nat)
    requires n <= |items|
    ensures LowerItems(items[..n]).Err? ==> LowerItems(items) == LowerItems(items[..n])
    decreases |items| - n
  {
    if n < |items| && LowerItems(items[..n]).Err? {
      assert items[..n + 1][..n] == items[..n];
      LowerItemsErrorPersists(items, n + 1);
    } else if n == |items| {
      assert items[..n] == items;
    }
  }
}
