// expr_transform and expr_trans_bool of tools/kconfig/expr.c.
module ExprTransform {
  import opened TristateExpr

  // NOT doubles the weight of its operand, and a comparison weighs as much as the
  // negated symbol it may become, so De Morgan steps make progress.
  function Weight(e: Expr): (n: nat)
    ensures n >= 1
  {
    match e
    case Var(_) => 1
    case Comp(_, _, _) => 2
    case Not(a) => 2 * Weight(a)
    case Bin(_, l, r) => 1 + Weight(l) + Weight(r)
  }

  function Flip(rel: Rel): Rel {
    match rel
    case Equal => Unequal
    case Unequal => Equal
    case LessEq => Greater
    case GreaterEq => Less
    case Less => GreaterEq
    case Greater => LessEq
  }

  // The rules for a comparison of a boolean symbol with y, m or n.
  function TransformComp(rel: Rel, l: Symbol, r: Symbol): Expr {
    if TypeOf(l) != Boolean then Comp(rel, l, r)
    else match rel
      case Equal =>
        if r == SymNo then Not(Var(l))
        else if r == SymMod then Var(SymNo)
        else if r == SymYes then Var(l)
        else Comp(rel, l, r)
      case Unequal =>
        if r == SymNo then Var(l)
        else if r == SymMod then Var(SymYes)
        else if r == SymYes then Not(Var(l))
        else Comp(rel, l, r)
      case _ => Comp(rel, l, r)
  }

  function NegateSymbol(s: Symbol): Expr {
    match s
    case SymYes => Var(SymNo)
    case SymMod => Var(SymMod)
    case SymNo => Var(SymYes)
    case _ => Not(Var(s))
  }

  function Transform(e: Expr): (r: Expr)
    ensures Weight(r) <= Weight(e)
    decreases Weight(e)
  {
    match e
    case Var(_) => e
    case Comp(rel, l, r) => TransformComp(rel, l, r)
    case Bin(op, l, r) => Bin(op, Transform(l), Transform(r))
    case Not(a) =>
      var x := Transform(a);
      match x
      case Not(y) => Transform(y)
      case Comp(rel, l, r) => Comp(Flip(rel), l, r)
      case Bin(op, l, r) =>
        assert Weight(Not(l)) == 2 * Weight(l) && Weight(Not(r)) == 2 * Weight(r);
        Transform(Bin(Dual(op), Not(l), Not(r)))
      case Var(s) => NegateSymbol(s)
  }

  // A comparison that expr_transform leaves alone.
  predicate PlainComp(rel: Rel, l: Symbol, r: Symbol) {
    TypeOf(l) == Boolean && (rel == Equal || rel == Unequal) ==> !IsPredefined(r)
  }

  // Negation normal form: NOT stands over symbols other than y, m and n only, and
  // no boolean symbol is compared with y, m or n.
  predicate NormalForm(e: Expr) {
    match e
    case Var(_) => true
    case Comp(rel, l, r) => PlainComp(rel, l, r)
    case Not(a) => a.Var? && !IsPredefined(a.sym)
    case Bin(_, l, r) => NormalForm(l) && NormalForm(r)
  }

  lemma {:induction false} TransformNormalizes(e: Expr)
    ensures NormalForm(Transform(e))
    decreases Weight(e)
  {
    match e
    case Var(_) =>
    case Comp(_, _, _) =>
    case Bin(_, l, r) =>
      TransformNormalizes(l);
      TransformNormalizes(r);
    case Not(a) =>
      TransformNormalizes(a);
      match Transform(a)
      case Not(y) => TransformNormalizes(y);
      case Bin(op, l, r) =>
        assert Weight(Not(l)) == 2 * Weight(l) && Weight(Not(r)) == 2 * Weight(r);
        TransformNormalizes(Bin(Dual(op), Not(l), Not(r)));
      case Comp(_, _, _) =>
      case Var(_) =>
  }

  // Normal forms are exactly the expressions that expr_transform leaves unchanged.
  lemma {:induction false} TransformFixpoint(e: Expr)
    ensures Transform(e) == e <==> NormalForm(e)
  {
    TransformNormalizes(e);
    match e
    case Bin(_, l, r) =>
      TransformFixpoint(l);
      TransformFixpoint(r);
    case _ =>
  }

  lemma TransformIdempotent(e: Expr)
    ensures Transform(Transform(e)) == Transform(e)
  {
    TransformNormalizes(e);
    TransformFixpoint(Transform(e));
  }

  lemma {:induction false} TransformPreservesValue(e: Expr, env: Env)
    requires ValidEnv(env)
    ensures Eval(Transform(e), env) == Eval(e, env)
    decreases Weight(e)
  {
    match e
    case Var(_) =>
    case Comp(_, _, _) =>
    case Bin(_, l, r) =>
      TransformPreservesValue(l, env);
      TransformPreservesValue(r, env);
    case Not(a) =>
      TransformPreservesValue(a, env);
      match Transform(a)
      case Not(y) => TransformPreservesValue(y, env);
      case Bin(op, l, r) =>
        assert Weight(Not(l)) == 2 * Weight(l) && Weight(Not(r)) == 2 * Weight(r);
        TransformPreservesValue(Bin(Dual(op), Not(l), Not(r)), env);
      case Comp(_, _, _) =>
      case Var(_) =>
  }

  // A transformed expression compares a symbol with no further foreign constant.
  lemma {:induction false} TransformForeign(e: Expr)
    ensures ForeignComps(Transform(e)) <= ForeignComps(e)
    decreases Weight(e)
  {
    match e
    case Var(_) =>
    case Comp(_, _, _) =>
    case Bin(_, l, r) =>
      TransformForeign(l);
      TransformForeign(r);
    case Not(a) =>
      TransformForeign(a);
      match Transform(a)
      case Not(y) => TransformForeign(y);
      case Bin(op, l, r) =>
        assert Weight(Not(l)) == 2 * Weight(l) && Weight(Not(r)) == 2 * Weight(r);
        TransformForeign(Bin(Dual(op), Not(l), Not(r)));
      case Comp(_, _, _) =>
      case Var(_) =>
  }

  // expr_trans_bool: FOO!=n becomes FOO, FOO being a tristate symbol.
  function TransBool(e: Expr): Expr {
    match e
    case Bin(op, l, r) => Bin(op, TransBool(l), TransBool(r))
    case Not(a) => Not(TransBool(a))
    case Comp(rel, l, r) => if rel == Unequal && TypeOf(l) == Tri && r == SymNo then Var(l) else e
    case Var(_) => e
  }

  // A tristate symbol is compared with n by != somewhere.
  predicate TestsAgainstNo(e: Expr) {
    match e
    case Bin(_, l, r) => TestsAgainstNo(l) || TestsAgainstNo(r)
    case Not(a) => TestsAgainstNo(a)
    case Comp(rel, l, r) => rel == Unequal && TypeOf(l) == Tri && r == SymNo
    case Var(_) => false
  }

  // None is left, an expression without any stays as it is, and the operands stay in place.
  lemma {:induction false} TransBoolRemoves(e: Expr)
    ensures !TestsAgainstNo(TransBool(e))
    ensures TransBool(e) == e <==> !TestsAgainstNo(e)
    ensures Leaves(TransBool(e)) == Leaves(e) && Size(TransBool(e)) == Size(e)
  {
    match e
    case Bin(_, l, r) =>
      TransBoolRemoves(l);
      TransBoolRemoves(r);
    case Not(a) => TransBoolRemoves(a);
    case _ =>
  }

  lemma {:induction false} TransBoolForeign(e: Expr)
    ensures ForeignComps(TransBool(e)) <= ForeignComps(e)
  {
    match e
    case Bin(_, l, r) =>
      TransBoolForeign(l);
      TransBoolForeign(r);
    case Not(a) => TransBoolForeign(a);
    case Comp(_, _, _) =>
    case Var(_) =>
  }

  // The rounding applied to the visibility of a symbol that is not tristate.
  function RoundUp(t: Tristate): Tristate {
    if t == MOD then YES else t
  }

  // An expression whose NOTs stand over nothing that expr_trans_bool rewrites.
  predicate NoNegatedRewrite(e: Expr) {
    match e
    case Bin(_, l, r) => NoNegatedRewrite(l) && NoNegatedRewrite(r)
    case Not(a) => TransBool(a) == a
    case _ => true
  }

  lemma {:induction false} TransBoolRounded(e: Expr, env: Env)
    requires ValidEnv(env)
    requires NoNegatedRewrite(e)
    ensures RoundUp(Eval(TransBool(e), env)) == RoundUp(Eval(e, env))
  {
    if e.Bin? {
      TransBoolRounded(e.left, env);
      TransBoolRounded(e.right, env);
    }
  }

  lemma {:induction false} NormalFormHasNoNegatedRewrite(e: Expr)
    requires NormalForm(e)
    ensures NoNegatedRewrite(e)
  {
    if e.Bin? {
      NormalFormHasNoNegatedRewrite(e.left);
      NormalFormHasNoNegatedRewrite(e.right);
    }
  }

  // Without the normal form it fails: !(FOO!=n) becomes !FOO, and FOO=m tells them apart.
  lemma TransBoolNeedsNormalForm(foo: Symbol, env: Env)
    requires ValidEnv(env) && TypeOf(foo) == Tri && env.tri(foo) == MOD
    ensures var e := Not(Comp(Unequal, foo, SymNo));
            RoundUp(Eval(TransBool(e), env)) == YES && RoundUp(Eval(e, env)) == NO
  {
  }
}
