/**
 * Variable resolution of src/semantic_analysis.rs: every declared variable gets the
 * renamed name `<name>.resolved.<k>`, where `k` counts the declarations before it; every
 * use is replaced by the name it was given; duplicate declarations, undeclared uses
 * and assignments to something other than a variable are errors (panics).
 *
 * Expressions and statements are resolved by pure functions of the environment;
 * `ResolveState` holds the environment and the counter that declarations update, and
 * `ResolveVars` is the loop over the block.
 */
module SemanticAnalysis {
  import opened Wrappers
  import opened Syntax
  import Decimal

  type Env = map<string, string>

  /** The renamed name of the `k`-th declaration of `name`. */
  function ResolvedName(name: string, k: nat): string {
    name + ".resolved." + Decimal.FromNat(k)
  }

  /** A resolved name determines both the original name and the counter. */
  lemma ResolvedNameInjective(a: string, k: nat, b: string, j: nat)
    ensures ResolvedName(a, k) == ResolvedName(b, j) ==> a == b && k == j
  {
    if ResolvedName(a, k) == ResolvedName(b, j) {
      var p, q := a + ".resolved", b + ".resolved";
      assert ResolvedName(a, k) == p + "." + Decimal.FromNat(k);
      assert ResolvedName(b, j) == q + "." + Decimal.FromNat(j);
      Decimal.DotSuffixInjective(p, Decimal.FromNat(k), q, Decimal.FromNat(j));
      assert a == p[..|a|] == q[..|b|] == b;
      Decimal.FromNatInjective(k, j);
    }
  }

  // ---------------------------------------------------------------------------
  // Expressions and statements
  // ---------------------------------------------------------------------------

  /** `expression`: rebuild the tree with every variable replaced by its entry in `env`. */
  function ResolveExpression(env: Env, e: Expression): Result<Expression> {
    match e
    case Assign(lhs, rhs) =>
      if !lhs.Var? then Err("Assignment to non-lvalue")
      else
        var l :- ResolveExpression(env, lhs);
        var r :- ResolveExpression(env, rhs);
        Ok(Assign(l, r))
    case Var(id) =>
      if id in env then Ok(Var(env[id])) else Err("Undeclared variable")
    case Unary(op, a) =>
      var a' :- ResolveExpression(env, a);
      Ok(Unary(op, a'))
    case Binary(op, lhs, rhs) =>
      var l :- ResolveExpression(env, lhs);
      var r :- ResolveExpression(env, rhs);
      Ok(Binary(op, l, r))
    case Compound(op, lhs, rhs) =>
      if !lhs.Var? then Err("Compound operation on non-value")
      else
        var l :- ResolveExpression(env, lhs);
        var r :- ResolveExpression(env, rhs);
        Ok(Compound(op, l, r))
    case Constant(n) => Ok(Constant(n))
  }

  /** `statement`: `Null` stays, `Return` and `Exp` resolve their expression. */
  function ResolveStatement(env: Env, s: Statement): Result<Statement> {
    match s
    case Null => Ok(Null)
    case Return(e) =>
      var e' :- ResolveExpression(env, e);
      Ok(Return(e'))
    case Exp(e) =>
      var e' :- ResolveExpression(env, e);
      Ok(Exp(e'))
  }

  /** The optional initializer of a declaration (`init.map(...)`). */
  function ResolveInit(env: Env, init: Option<Expression>): Result<Option<Expression>> {
    match init
    case None => Ok(None)
    case Some(e) =>
      var e' :- ResolveExpression(env, e);
      Ok(Some(e'))
  }

  /** The reference renaming: every variable `env` knows is replaced by its entry, nothing else changes. */
  function Rename(env: Env, e: Expression): Expression {
    match e
    case Constant(n) => Constant(n)
    case Var(x) => Var(if x in env then env[x] else x)
    case Unary(op, a) => Unary(op, Rename(env, a))
    case Binary(op, a, b) => Binary(op, Rename(env, a), Rename(env, b))
    case Assign(a, b) => Assign(Rename(env, a), Rename(env, b))
    case Compound(op, a, b) => Compound(op, Rename(env, a), Rename(env, b))
  }

  /**
   * Resolution succeeds exactly when every variable is declared and every assignment
   * target is a variable, and then it is the renaming by `env`.
   */
  lemma {:induction false} ResolveExpressionCorrect(env: Env, e: Expression)
    ensures ResolveExpression(env, e).Ok? <==> Vars(e) <= env.Keys && TargetsAreVars(e)
    ensures ResolveExpression(env, e).Ok? ==> ResolveExpression(env, e).value == Rename(env, e)
  {
    match e
    case Constant(_) =>
    case Var(_) =>
    case Unary(_, a) =>
      ResolveExpressionCorrect(env, a);
    case Binary(_, a, b) =>
      ResolveExpressionCorrect(env, a);
      ResolveExpressionCorrect(env, b);
    case Assign(a, b) =>
      ResolveExpressionCorrect(env, a);
      ResolveExpressionCorrect(env, b);
    case Compound(_, a, b) =>
      ResolveExpressionCorrect(env, a);
      ResolveExpressionCorrect(env, b);
  }

  /** Renaming keeps the tree's shape: resolution never rejects a resolved tree for its targets. */
  lemma {:induction false} RenameKeepsTargets(env: Env, e: Expression)
    ensures TargetsAreVars(Rename(env, e)) == TargetsAreVars(e)
  {
    match e
    case Constant(_) =>
    case Var(_) =>
    case Unary(_, a) =>
      RenameKeepsTargets(env, a);
    case Binary(_, a, b) =>
      RenameKeepsTargets(env, a);
      RenameKeepsTargets(env, b);
    case Assign(a, b) =>
      RenameKeepsTargets(env, b);
    case Compound(_, a, b) =>
      RenameKeepsTargets(env, b);
  }

  /** After renaming, only names from the environment's range are mentioned. */
  lemma {:induction false} RenameVars(env: Env, e: Expression)
    requires Vars(e) <= env.Keys
    ensures Vars(Rename(env, e)) == set x | x in Vars(e) :: env[x]
  {
    match e
    case Constant(_) =>
    case Var(_) =>
    case Unary(_, a) =>
      RenameVars(env, a);
    case Binary(_, a, b) =>
      RenameVars(env, a);
      RenameVars(env, b);
    case Assign(a, b) =>
      RenameVars(env, a);
      RenameVars(env, b);
    case Compound(_, a, b) =>
      RenameVars(env, a);
      RenameVars(env, b);
  }

  /** Statements keep their kind; the error cases are those of their expression. */
  lemma ResolveStatementKind(env: Env, s: Statement)
    ensures ResolveStatement(env, s).Ok? <==> s.Null? || ResolveExpression(env, s.exp).Ok?
    ensures ResolveStatement(env, s).Ok? ==>
      var s' := ResolveStatement(env, s).value;
      s'.Null? == s.Null? && s'.Return? == s.Return? && s'.Exp? == s.Exp?
      && (!s.Null? ==> s'.exp == Rename(env, s.exp))
  {
    if !s.Null? {
      ResolveExpressionCorrect(env, s.exp);
    }
  }

  // ---------------------------------------------------------------------------
  // Declarations and the block
  // ---------------------------------------------------------------------------

  /** The resolver's state after a prefix of the block, with the items resolved so far. */
  datatype Resolution = Resolution(env: Env, count: nat, items: seq<BlockItem>)

  /** One block item: a statement is resolved in the current environment, a declaration extends it. */
  function ResolveItem(st: Resolution, item: BlockItem): Result<Resolution> {
    match item
    case S(s) =>
      var s' :- ResolveStatement(st.env, s);
      Ok(st.(items := st.items + [S(s')]))
    case D(d) =>
      if d.name in st.env then Err("Duplicate variable name")
      else
        var renamed := ResolvedName(d.name, st.count);
        var env := st.env[d.name := renamed];
        var init :- ResolveInit(env, d.init);
        Ok(Resolution(env, st.count + 1, st.items + [D(Declaration(renamed, init))]))
  }

  /** The block resolved item by item from an empty environment and a zero counter. */
  function ResolveItems(items: seq<BlockItem>): Result<Resolution> {
    if items == [] then Ok(Resolution(map[], 0, []))
    else
      var st :- ResolveItems(items[..|items| - 1]);
      ResolveItem(st, items[|items| - 1])
  }

  /** `resolve_vars`: the function keeps its name and gets the resolved block. */
  function ResolveProgram(p: Program): (r: Result<Program>)
    ensures r.Ok? ==> r.value.name == p.name && |r.value.items| == |p.items|
    ensures r.Ok? ==> forall k | 0 <= k < |p.items| :: r.value.items[k].S? == p.items[k].S?
  {
    ResolveItemsKinds(p.items);
    var st :- ResolveItems(p.items);
    Ok(Function(p.name, st.items))
  }

  /** The number of declarations in a block: the number of renamed names it needs. */
  function DeclCount(items: seq<BlockItem>): nat {
    |DeclaredNames(items)|
  }

  /**
   * A resolved block has the same number of items, in the same order and of the same
   * kinds, and the counter has counted its declarations.
   */
  lemma {:induction false} ResolveItemsKinds(items: seq<BlockItem>)
    ensures ResolveItems(items).Ok? ==>
      var st := ResolveItems(items).value;
      && |st.items| == |items|
      && (forall k | 0 <= k < |items| :: st.items[k].S? == items[k].S?)
      && st.count == DeclCount(items)
  {
    if items != [] && ResolveItems(items).Ok? {
      var front, last := items[..|items| - 1], items[|items| - 1];
      ResolveItemsKinds(front);
      var st0 := ResolveItems(front).value;
      ResolveItemStep(st0, last);
      var st := ResolveItems(items).value;
      forall k | 0 <= k < |items| ensures st.items[k].S? == items[k].S? {
        if k < |front| {
          assert st.items[k] == st0.items[k] && items[k] == front[k];
        }
      }
      assert DeclaredNames(items) == DeclaredNames(front) + (if last.D? then [last.decl.name] else []);
    }
  }

  /** The environment of a resolved block knows exactly the declared names. */
  lemma {:induction false} ResolveItemsEnv(items: seq<BlockItem>)
    ensures ResolveItems(items).Ok? ==>
      ResolveItems(items).value.env.Keys == (set x | x in DeclaredNames(items))
  {
    if items != [] && ResolveItems(items).Ok? {
      var front, last := items[..|items| - 1], items[|items| - 1];
      ResolveItemsEnv(front);
      ResolveItemStep(ResolveItems(front).value, last);
      var names0, names := DeclaredNames(front), DeclaredNames(items);
      if last.D? {
        assert names == names0 + [last.decl.name];
        assert (set x | x in names) == (set x | x in names0) + {last.decl.name};
      } else {
        assert names == names0;
      }
    }
  }

  /** The `k`-th declaration of a resolved block is the `k`-th declaration of the input renamed with counter `k`. */
  lemma {:induction false} ResolveItemsNames(items: seq<BlockItem>)
    ensures ResolveItems(items).Ok? ==>
      var out := DeclaredNames(ResolveItems(items).value.items);
      && |out| == |DeclaredNames(items)|
      && (forall k | 0 <= k < |out| :: out[k] == ResolvedName(DeclaredNames(items)[k], k))
  {
    if items != [] && ResolveItems(items).Ok? {
      var front, last := items[..|items| - 1], items[|items| - 1];
      ResolveItemsNames(front);
      ResolveItemsKinds(front);
      var st0 := ResolveItems(front).value;
      ResolveItemStep(st0, last);
      var st := ResolveItems(items).value;
      var names0, names := DeclaredNames(front), DeclaredNames(items);
      var out0, out := DeclaredNames(st0.items), DeclaredNames(st.items);
      assert st.items[..|st.items| - 1] == st0.items;
      if last.D? {
        assert names == names0 + [last.decl.name];
        assert out == out0 + [ResolvedName(last.decl.name, st0.count)];
        NamesAppended(names0, out0, last.decl.name);
      } else {
        assert names == names0;
        assert out == out0;
      }
    }
  }

  /** Renaming one more declaration with the next counter keeps the `k`-th name renamed with `k`. */
  lemma NamesAppended(names: seq<string>, out: seq<string>, x: string)
    requires |out| == |names| && forall k | 0 <= k < |out| :: out[k] == ResolvedName(names[k], k)
    ensures var out', names' := out + [ResolvedName(x, |names|)], names + [x];
      forall k | 0 <= k < |out'| :: out'[k] == ResolvedName(names'[k], k)
  {
  }

  /** One item: the resolved item is appended, of the same kind; a declaration adds one name and counts one. */
  lemma ResolveItemStep(st0: Resolution, item: BlockItem)
    requires ResolveItem(st0, item).Ok?
    ensures var st := ResolveItem(st0, item).value;
      && |st.items| == |st0.items| + 1 && st.items[..|st0.items|] == st0.items
      && st.items[|st0.items|].S? == item.S?
      && st.count == st0.count + (if item.D? then 1 else 0)
      && st.env.Keys == st0.env.Keys + (if item.D? then {item.decl.name} else {})
      && (item.D? ==> st.items[|st0.items|].decl.name == ResolvedName(item.decl.name, st0.count))
  {
  }

  /** A successful resolution gives every declaration its own name. */
  lemma ResolvedNamesDistinct(items: seq<BlockItem>)
    requires ResolveItems(items).Ok?
    ensures Distinct(DeclaredNames(ResolveItems(items).value.items))
  {
    ResolveItemsNames(items);
    var names := DeclaredNames(items);
    var out := DeclaredNames(ResolveItems(items).value.items);
    forall i, j | 0 <= i < j < |out| ensures out[i] != out[j] {
      ResolvedNameInjective(names[i], i, names[j], j);
    }
  }

  /** A name declared twice in one block is an error. */
  lemma {:induction false} DuplicateRejected(items: seq<BlockItem>)
    requires !Distinct(DeclaredNames(items))
    ensures ResolveItems(items).Err?
  {
    var front, last := items[..|items| - 1], items[|items| - 1];
    assert front + [last] == items;
    var names0, names := DeclaredNames(front), DeclaredNames(items);
    if Distinct(names0) && ResolveItems(front).Ok? {
      // The duplicate involves the last declaration, whose name is already in the environment.
      ResolveItemsEnv(front);
      assert last.D? && names == names0 + [last.decl.name];
      var i, j :| 0 <= i < j < |names| && names[i] == names[j];
      assert j == |names0|;
      assert names0[i] == last.decl.name;
    } else if !Distinct(names0) {
      DuplicateRejected(front);
    }
  }

  /** A declared variable is already in scope in its own initializer: `int x = x;` resolves. */
  lemma OwnInitializerInScope(x: string)
    ensures var renamed := ResolvedName(x, 0);
      ResolveItems([D(Declaration(x, Some(Var(x))))])
        == Ok(Resolution(map[x := renamed], 1, [D(Declaration(renamed, Some(Var(renamed))))]))
  {
    var items := [D(Declaration(x, Some(Var(x))))];
    assert items[..0] == [];
    var renamed := ResolvedName(x, 0);
    var env := map[x := renamed];
    assert ResolveExpression(env, Var(x)) == Ok(Var(renamed));
    assert ResolveInit(env, Some(Var(x))) == Ok(Some(Var(renamed)));
    assert map[][x := renamed] == env;
    assert [] + [D(Declaration(renamed, Some(Var(renamed))))] == [D(Declaration(renamed, Some(Var(renamed))))];
  }

  /** A variable used before any declaration is an error. */
  lemma UndeclaredRejected(x: string)
    ensures ResolveItems([S(Return(Var(x)))]).Err?
  {
    var items := [S(Return(Var(x)))];
    assert items[..0] == [];
  }

  // ---------------------------------------------------------------------------
  // The resolver's state and its loop
  // ---------------------------------------------------------------------------

  class ResolveState {
    var env: Env
    var count: nat

    constructor ()
      ensures env == map[] && count == 0
    {
      env := map[];
      count := 0;
    }

    /** The renamed name for a declaration of `name`; the counter (a `u8`) goes up by exactly one. */
    method NewTemp(name: string) returns (renamed: string)
      requires count < 255
      modifies this
      ensures renamed == ResolvedName(name, old(count))
      ensures count == old(count) + 1 && env == old(env)
    {
      renamed := ResolvedName(name, count);
      count := count + 1;
    }

    /**
     * A duplicate is an error; otherwise the name is entered in the environment before
     * its initializer is resolved, so the initializer sees the new name.
     */
    method Declaration(d: Declaration) returns (r: Result<Declaration>)
      requires count < 255
      modifies this
      ensures d.name in old(env) ==> r == Err("Duplicate variable name")
      ensures d.name !in old(env) ==>
        && env == old(env)[d.name := ResolvedName(d.name, old(count))]
        && count == old(count) + 1
        && (r.Ok? <==> ResolveInit(env, d.init).Ok?)
        && (r.Err? ==> r.error == ResolveInit(env, d.init).error)
        && (r.Ok? ==> r.value == Syntax.Declaration(ResolvedName(d.name, old(count)), ResolveInit(env, d.init).value))
    {
      if d.name in env {
        return Err("Duplicate variable name");
      }
      var renamed := NewTemp(d.name);
      env := env[d.name := renamed];
      var init :- ResolveInit(env, d.init);
      r := Ok(Syntax.Declaration(renamed, init));
    }
  }

  /** The resolved block is built item by item, as the specification `ResolveProgram` says. */
  method ResolveVars(p: Program) returns (r: Result<Program>)
    requires DeclCount(p.items) <= 255
    ensures r == ResolveProgram(p)
  {
    var state := new ResolveState();
    var resolved: seq<BlockItem> := [];
    for i := 0 to |p.items|
      invariant ResolveItems(p.items[..i]) == Ok(Resolution(state.env, state.count, resolved))
      invariant state.count == DeclCount(p.items[..i])
    {
      var item := p.items[i];
      PrefixStep(p.items, i);
      DeclCountMonotone(p.items, i + 1);
      ErrorPersists(p.items, i + 1);
      ghost var before := Resolution(state.env, state.count, resolved);
      assert ResolveItems(p.items[..i + 1]) == ResolveItem(before, item);
      match item {
        case S(stmt) =>
          var s :- ResolveStatement(state.env, stmt);
          resolved := resolved + [S(s)];
        case D(decl) =>
          var d :- state.Declaration(decl);
          resolved := resolved + [D(d)];
      }
      assert ResolveItem(before, item) == Ok(Resolution(state.env, state.count, resolved));
    }
    assert p.items[..|p.items|] == p.items;
    r := Ok(Function(p.name, resolved));
  }

  /** One more item of a block: it is resolved after the prefix, and counts one if it is a declaration. */
  lemma PrefixStep(items: seq<BlockItem>, i: nat)
    requires i < |items|
    ensures ResolveItems(items[..i]).Ok? ==> ResolveItems(items[..i + 1]) == ResolveItem(ResolveItems(items[..i]).value, items[i])
    ensures DeclCount(items[..i + 1]) == DeclCount(items[..i]) + (if items[i].D? then 1 else 0)
  {
    assert items[..i + 1][..i] == items[..i];
    assert DeclaredNames(items[..i + 1]) == DeclaredNames(items[..i]) + (if items[i].D? then [items[i].decl.name] else []);
  }

  /** The first item that fails decides the outcome of the whole block. */
  lemma {:induction false} ErrorPersists(items: seq<BlockItem>, n: nat)
    requires n <= |items|
    ensures ResolveItems(items[..n]).Err? ==> ResolveItems(items) == ResolveItems(items[..n])
    decreases |items| - n
  {
    if n < |items| && ResolveItems(items[..n]).Err? {
      assert items[..n + 1][..n] == items[..n];
      ErrorPersists(items, n + 1);
    } else if n == |items| {
      assert items[..n] == items;
    }
  }

  /** A prefix of a block declares no more names than the block. */
  lemma {:induction false} DeclCountMonotone(items: seq<BlockItem>, n: nat)
    requires n <= |items|
    ensures DeclCount(items[..n]) <= DeclCount(items)
    decreases |items| - n
  {
    if n < |items| {
      DeclCountMonotone(items, n + 1);
      assert items[..n + 1][..n] == items[..n];
    } else {
      assert items[..n] == items;
    }
  }
}
