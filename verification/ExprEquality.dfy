// expr_eliminate_yn, expr_eq and expr_eliminate_eq of tools/kconfig/expr.c.
module ExprEquality {
  import opened TristateExpr

  predicate IsYn(e: Expr) {
    e == Var(SymYes) || e == Var(SymNo)
  }

  // The simplification of one and/or node whose operands are already simplified.
  // The left operand is examined first, as in the source.
  function FoldYn(op: Op, l: Expr, r: Expr): Expr {
    if l == Var(Absorbing(op)) then Var(Absorbing(op))
    else if l == Var(Neutral(op)) then r
    else if r == Var(Absorbing(op)) then Var(Absorbing(op))
    else if r == Var(Neutral(op)) then l
    else Bin(op, l, r)
  }

  function EliminateYn(e: Expr): Expr {
    match e
    case Bin(op, l, r) => FoldYn(op, EliminateYn(l), EliminateYn(r))
    case _ => e
  }

  // y or n occurs as an operand of an and/or node.
  predicate HasYnOperand(e: Expr) {
    e.Bin? && (IsYn(e.left) || IsYn(e.right) || HasYnOperand(e.left) || HasYnOperand(e.right))
  }

  lemma {:induction false} EliminateYnKeepsValue(e: Expr, env: Env)
    requires ValidEnv(env)
    ensures Eval(EliminateYn(e), env) == Eval(e, env)
  {
    if e.Bin? {
      EliminateYnKeepsValue(e.left, env);
      EliminateYnKeepsValue(e.right, env);
    }
  }

  // No y/n operand is left.
  lemma {:induction false} EliminateYnFolds(e: Expr)
    ensures !HasYnOperand(EliminateYn(e))
    ensures !HasYnOperand(e) ==> EliminateYn(e) == e
  {
    if e.Bin? {
      EliminateYnFolds(e.left);
      EliminateYnFolds(e.right);
    }
  }

  // The expression shrinks unless there was none, and compares nothing new.
  lemma {:induction false} EliminateYnShrinks(e: Expr)
    ensures Leaves(EliminateYn(e)) <= Leaves(e)
    ensures HasYnOperand(e) ==> Leaves(EliminateYn(e)) < Leaves(e)
    ensures Size(EliminateYn(e)) <= Size(e)
    ensures ForeignComps(EliminateYn(e)) <= ForeignComps(e)
  {
    if e.Bin? {
      EliminateYnShrinks(e.left);
      EliminateYnShrinks(e.right);
    }
  }

  // __expr_eliminate_eq: compares every operand of the first expression with every
  // operand of the second at the level of `op`; equal ones become `op`'s neutral
  // constant on both sides. The two trees never share nodes.
  function EliminateEq1(op: Op, e1: Expr, e2: Expr): (r: (Expr, Expr))
    ensures Size(r.0) <= Size(e1) && Size(r.1) <= Size(e2)
    ensures IsOp(op, e1) ==> IsOp(op, r.0)
    ensures IsOp(op, e2) ==> IsOp(op, r.1)
    decreases Size(e1) + Size(e2), if IsOp(op, e1) || IsOp(op, e2) then 0 else 2
  {
    if IsOp(op, e1) then
      var (l, a) := EliminateEq1(op, e1.left, e2);
      var (r, b) := EliminateEq1(op, e1.right, a);
      (Bin(op, l, r), b)
    else if IsOp(op, e2) then
      var (a, l) := EliminateEq1(op, e1, e2.left);
      var (b, r) := EliminateEq1(op, a, e2.right);
      (b, Bin(op, l, r))
    else if e1 == e2 && IsYn(e1) then (e1, e2)
    else if !ExprEq(e1, e2) then (e1, e2)
    else (Var(Neutral(op)), Var(Neutral(op)))
  }

  // expr_eq. For two and/or nodes of one type, expr_eliminate_eq reduces to its
  // first pass (lemma EqViaEliminateEq).
  predicate ExprEq(e1: Expr, e2: Expr)
    decreases Size(e1) + Size(e2), 1
  {
    if !SameType(e1, e2) then false
    else match e1
      case Comp(_, l, r) => l == e2.lhs && r == e2.rhs
      case Var(s) => s == e2.sym
      case Not(a) => ExprEq(a, e2.arg)
      case Bin(op, _, _) =>
        var (a, b) := EliminateEq1(op, e1, e2);
        var x, y := EliminateYn(a), EliminateYn(b);
        x.Var? && x == y
  }

  function EliminateEqPasses(e1: Expr, e2: Expr): (Expr, Expr) {
    var (a, b) := if e1.Bin? then EliminateEq1(e1.op, e1, e2) else (e1, e2);
    if !SameType(a, b) && b.Bin? then EliminateEq1(b.op, a, b) else (a, b)
  }

  // expr_eliminate_eq on two non-NULL expressions.
  function EliminateEq(e1: Expr, e2: Expr): (Expr, Expr) {
    var (a, b) := EliminateEqPasses(e1, e2);
    (EliminateYn(a), EliminateYn(b))
  }

  lemma EqViaEliminateEq(e1: Expr, e2: Expr)
    requires e1.Bin? && SameType(e1, e2)
    ensures ExprEq(e1, e2) <==> var (a, b) := EliminateEq(e1, e2); a.Var? && a == b
  {
    var (a, b) := EliminateEq1(e1.op, e1, e2);
    assert IsOp(e1.op, a) && IsOp(e1.op, b);
  }

  lemma Regroup(op: Op, c1: Tristate, c2: Tristate, a: Tristate, b: Tristate)
    ensures Apply(op, Apply(op, c1, a), Apply(op, c2, b)) == Apply(op, Apply(op, c1, c2), Apply(op, a, b))
    ensures Apply(op, c1, Apply(op, c2, b)) == Apply(op, Apply(op, c1, c2), b)
  {
  }

  // Removing equal operands takes the same value `c` out of both expressions.
  lemma {:induction false} EliminateEq1Common(op: Op, e1: Expr, e2: Expr, env: Env) returns (c: Tristate)
    requires ValidEnv(env)
    ensures var (a, b) := EliminateEq1(op, e1, e2);
            && Eval(e1, env) == Apply(op, c, Eval(a, env))
            && Eval(e2, env) == Apply(op, c, Eval(b, env))
    decreases Size(e1) + Size(e2), if IsOp(op, e1) || IsOp(op, e2) then 0 else 2
  {
    if IsOp(op, e1) {
      var (l, a) := EliminateEq1(op, e1.left, e2);
      var c1 := EliminateEq1Common(op, e1.left, e2, env);
      var (r, b) := EliminateEq1(op, e1.right, a);
      var c2 := EliminateEq1Common(op, e1.right, a, env);
      c := Apply(op, c1, c2);
      Regroup(op, c1, c2, Eval(l, env), Eval(r, env));
      Regroup(op, c1, c2, NO, Eval(b, env));
    } else if IsOp(op, e2) {
      var (a, l) := EliminateEq1(op, e1, e2.left);
      var c1 := EliminateEq1Common(op, e1, e2.left, env);
      var (b, r) := EliminateEq1(op, a, e2.right);
      var c2 := EliminateEq1Common(op, a, e2.right, env);
      c := Apply(op, c1, c2);
      Regroup(op, c1, c2, Eval(l, env), Eval(r, env));
      Regroup(op, c1, c2, NO, Eval(b, env));
    } else if ExprEq(e1, e2) && !(e1 == e2 && IsYn(e1)) {
      ExprEqSound(e1, e2, env);
      c := Eval(e1, env);
    } else {
      c := env.tri(Neutral(op));
    }
  }

  // Expressions that expr_eq calls equal have the same value everywhere.
  lemma {:induction false} ExprEqSound(e1: Expr, e2: Expr, env: Env)
    requires ValidEnv(env)
    requires ExprEq(e1, e2)
    ensures Eval(e1, env) == Eval(e2, env)
    decreases Size(e1) + Size(e2), 1
  {
    match e1
    case Comp(_, _, _) =>
    case Var(_) =>
    case Not(a) => ExprEqSound(a, e2.arg, env);
    case Bin(op, _, _) =>
      var (a, b) := EliminateEq1(op, e1, e2);
      var c := EliminateEq1Common(op, e1, e2, env);
      EliminateYnKeepsValue(a, env);
      EliminateYnKeepsValue(b, env);
  }

  // A pass over operands at the level of `op` leaves a node of the other and/or
  // type alone, or makes it a constant.
  lemma EliminateEq1Other(op: Op, e1: Expr, e2: Expr)
    ensures var (a, b) := EliminateEq1(op, e1, e2);
            && (!IsOp(op, e2) ==> (a, b) == (e1, e2) || b == Var(Neutral(op)))
    decreases Size(e1) + Size(e2)
  {
    if IsOp(op, e1) {
      var (l, a) := EliminateEq1(op, e1.left, e2);
      EliminateEq1Other(op, e1.left, e2);
      EliminateEq1Other(op, e1.right, a);
    } else if IsOp(op, e2) {
      var (a, l) := EliminateEq1(op, e1, e2.left);
      EliminateEq1Other(op, e1, e2.left);
      EliminateEq1Other(op, a, e2.right);
    }
  }

  // The superset test of automatic submenu creation: when nothing but y is left of
  // the second expression, the first one never exceeds it.
  lemma SupersetTest(dep: Expr, dep2: Expr, env: Env)
    requires ValidEnv(env)
    requires EliminateEq(dep, dep2).1 == Var(SymYes)
    ensures Eval(dep, env) <= Eval(dep2, env)
  {
    var (a, b) := if dep.Bin? then EliminateEq1(dep.op, dep, dep2) else (dep, dep2);
    var (c, d) := EliminateEqPasses(dep, dep2);
    EliminateYnKeepsValue(d, env);
    assert Eval(d, env) == YES;
    if dep.Bin? {
      EliminateEq1Other(dep.op, dep, dep2);
    }
    if !SameType(a, b) && b.Bin? {
      assert (a, b) == (dep, dep2);
      SupersetPass(b.op, dep, dep2, env);
    } else if dep.Bin? {
      SupersetPass(dep.op, dep, dep2, env);
    }
  }

  lemma SupersetPass(op: Op, dep: Expr, dep2: Expr, env: Env)
    requires ValidEnv(env)
    requires Eval(EliminateEq1(op, dep, dep2).1, env) == YES
    ensures Eval(dep, env) <= Eval(dep2, env)
  {
    var c := EliminateEq1Common(op, dep, dep2, env);
  }
}
