/**
 * The abstract syntax that src/semantic_analysis.rs and src/tacky.rs work on: a
 * function body made of declarations and statements over expressions with unary,
 * binary, assignment and compound-assignment operators. The parser that builds it is
 * not part of this model; the types are those its constructors imply.
 */
module Syntax {
  import opened Wrappers
  import Decimal

  datatype UnaryOperator = Complement | Negate | Not

  datatype BinaryOperator =
    | Add | Subtract | Multiply | Divide | Remainder
    | BitAnd | BitOr | BitXOr | ShiftLeft | ShiftRight
    | And | Or
    | Equal | NotEqual | Less | Greater | LessOrEqual | GreaterOrEqual

  /** The operators of `+=`, `-=`, ... (written with a `C` prefix: they share their names with `BinaryOperator`'s). */
  datatype CompoundOperator =
    | CAdd | CSubtract | CMultiply | CDivide | CRemainder
    | CBitAnd | CBitOr | CBitXOr | CShiftLeft | CShiftRight

  datatype Expression =
    | Constant(value: Decimal.I32)
    | Var(name: string)
    | Unary(unop: UnaryOperator, operand: Expression)
    | Binary(binop: BinaryOperator, left: Expression, right: Expression)
    | Assign(target: Expression, source: Expression)
    | Compound(cop: CompoundOperator, target: Expression, source: Expression)

  datatype Statement = Null | Return(exp: Expression) | Exp(exp: Expression)

  datatype Declaration = Declaration(name: string, init: Option<Expression>)

  datatype BlockItem = S(stmt: Statement) | D(decl: Declaration)

  datatype Program = Function(name: string, items: seq<BlockItem>)

  /** The variable names an expression mentions, assignment targets included. */
  function Vars(e: Expression): set<string> {
    match e
    case Constant(_) => {}
    case Var(x) => {x}
    case Unary(_, a) => Vars(a)
    case Binary(_, a, b) => Vars(a) + Vars(b)
    case Assign(a, b) => Vars(a) + Vars(b)
    case Compound(_, a, b) => Vars(a) + Vars(b)
  }

  /** Every assignment and compound assignment, however deep, writes to a variable. */
  predicate TargetsAreVars(e: Expression) {
    match e
    case Constant(_) => true
    case Var(_) => true
    case Unary(_, a) => TargetsAreVars(a)
    case Binary(_, a, b) => TargetsAreVars(a) && TargetsAreVars(b)
    case Assign(a, b) => a.Var? && TargetsAreVars(b)
    case Compound(_, a, b) => a.Var? && TargetsAreVars(b)
  }

  /** The names declared by a block, in order. */
  function DeclaredNames(items: seq<BlockItem>): (names: seq<string>)
    ensures |names| <= |items|
  {
    if items == [] then []
    else
      var last := items[|items| - 1];
      DeclaredNames(items[..|items| - 1]) + (if last.D? then [last.decl.name] else [])
  }

  /** No name occurs twice. */
  predicate Distinct(names: seq<string>) {
    forall i, j | 0 <= i < j < |names| :: names[i] != names[j]
  }

  /** Two repetition-free sequences with no element in common concatenate to a repetition-free one. */
  lemma DistinctConcat(s: seq<string>, t: seq<string>)
    requires Distinct(s) && Distinct(t)
    requires forall x | x in s :: x !in t
    ensures Distinct(s + t)
  {
    var st := s + t;
    forall i, j | 0 <= i < j < |st| ensures st[i] != st[j] {
      if j < |s| {
        assert st[i] == s[i] && st[j] == s[j];
      } else if i >= |s| {
        assert st[i] == t[i - |s|] && st[j] == t[j - |s|];
      } else {
        assert st[i] == s[i] && st[j] == t[j - |s|];
        assert s[i] in s && t[j - |s|] in t;
      }
    }
  }
}
