// The rewrites that expr_join_or and expr_join_and perform (tools/kconfig/expr.c), listed as
// pairs of operands over one boolean or tristate symbol.
module ExprRules {
  import opened Options
  import opened TristateExpr
  import opened ExprEquality
  import opened ExprJoin
  import opened ExprKeys

  // e1 || e2 becomes t.
  predicate OrRule(a: Symbol, e1: Expr, e2: Expr, t: Expr) {
    if TypeOf(a) == Tri then
      || (e1 == Comp(Equal, a, SymYes) && e2 == Comp(Equal, a, SymMod) && t == Comp(Unequal, a, SymNo))
      || (e1 == Comp(Equal, a, SymYes) && e2 == Comp(Equal, a, SymNo) && t == Comp(Unequal, a, SymMod))
      || (e1 == Comp(Equal, a, SymMod) && e2 == Comp(Equal, a, SymNo) && t == Comp(Unequal, a, SymYes))
    else TypeOf(a) == Boolean && e1 == Var(a) && e2 == Not(Var(a)) && t == Var(SymYes)
  }

  // e1 && e2 becomes t, for a symbol of either type.
  predicate AndRule(a: Symbol, e1: Expr, e2: Expr, t: Expr) {
    (TypeOf(a) == Boolean || TypeOf(a) == Tri) && e1 == Var(a) &&
    (|| (e2 == Comp(Equal, a, SymYes) && t == Comp(Equal, a, SymYes))
     || (e2 == Comp(Unequal, a, SymNo) && t == Var(a))
     || (e2 == Comp(Unequal, a, SymMod) && t == Comp(Equal, a, SymYes)))
  }

  // ... and for a tristate symbol.
  predicate AndTriRule(a: Symbol, e1: Expr, e2: Expr, t: Expr) {
    TypeOf(a) == Tri &&
    (|| (e1 == Comp(Unequal, a, SymYes) && e2 == Comp(Unequal, a, SymNo) && t == Comp(Equal, a, SymMod))
     || (e1 == Comp(Unequal, a, SymYes) && e2 == Comp(Unequal, a, SymMod) && t == Comp(Equal, a, SymNo))
     || (e1 == Comp(Unequal, a, SymMod) && e2 == Comp(Unequal, a, SymNo) && t == Comp(Equal, a, SymYes))
     || (&& e1.Comp? && e2.Comp? && IsConst(e1.rhs) && IsConst(e2.rhs)
         && e1 == Comp(Equal, a, e1.rhs) && e2 == Comp(Unequal, a, e2.rhs)
         && t == if e1.rhs == e2.rhs then Var(SymNo) else Comp(Equal, a, e1.rhs)))
  }

  predicate Rule(op: Op, a: Symbol, e1: Expr, e2: Expr, t: Expr) {
    if op == Or then OrRule(a, e1, e2, t) else AndRule(a, e1, e2, t) || AndTriRule(a, e1, e2, t)
  }

  // The pair is rewritten in either order.
  ghost predicate Rewrites(op: Op, e1: Expr, e2: Expr, t: Expr) {
    exists a :: Rule(op, a, e1, e2, t) || Rule(op, a, e2, e1, t)
  }

  lemma OrFollowsRules(e1: Expr, e2: Expr, t: Expr)
    requires !ExprEq(e1, e2)
    ensures JoinOr(e1, e2) == Some(t) <==> Rewrites(Or, e1, e2, t)
  {
    if JoinOr(e1, e2) == Some(t) {
      var a := JoinSymbol(e1, e2).value;
      assert Rule(Or, a, e1, e2, t) || Rule(Or, a, e2, e1, t);
    }
  }

  lemma AndFollowsRules(e1: Expr, e2: Expr, t: Expr)
    requires !ExprEq(e1, e2)
    ensures JoinAnd(e1, e2) == Some(t) <==> Rewrites(And, e1, e2, t)
  {
    if JoinAnd(e1, e2) == Some(t) {
      AndHasRule(e1, e2, t);
    } else if Rewrites(And, e1, e2, t) {
      var a :| Rule(And, a, e1, e2, t) || Rule(And, a, e2, e1, t);
      RuleIsAnd(a, e1, e2, t);
    }
  }

  lemma AndHasRule(e1: Expr, e2: Expr, t: Expr)
    requires !ExprEq(e1, e2) && JoinAnd(e1, e2) == Some(t)
    ensures Rewrites(And, e1, e2, t)
  {
    var a := JoinSymbol(e1, e2).value;
    assert Rule(And, a, e1, e2, t) || Rule(And, a, e2, e1, t);
  }

  lemma RuleIsAnd(a: Symbol, e1: Expr, e2: Expr, t: Expr)
    requires !ExprEq(e1, e2) && (Rule(And, a, e1, e2, t) || Rule(And, a, e2, e1, t))
    ensures JoinAnd(e1, e2) == Some(t)
  {
  }

  // Two operands are merged exactly when expr_eq takes them for equal, into the first, or
  // when they make one of the listed pairs, into what the list gives for it.
  lemma JoinFollowsRules(op: Op, e1: Expr, e2: Expr, t: Expr)
    ensures Join(op, e1, e2) == Some(t) <==> if ExprEq(e1, e2) then t == e1 else Rewrites(op, e1, e2, t)
  {
    if !ExprEq(e1, e2) {
      if op == Or {
        OrFollowsRules(e1, e2, t);
      } else {
        AndFollowsRules(e1, e2, t);
      }
    }
  }

  // The operands differ, by more than order where no y or n is in the way, and make none of
  // the listed pairs.
  ghost predicate Unrelated(op: Op, e1: Expr, e2: Expr) {
    && e1 != e2
    && (Plain(e1) && Plain(e2) ==> KeyOf(e1) != KeyOf(e2))
    && forall t :: !Rewrites(op, e1, e2, t)
  }

  lemma UnjoinedAreUnrelated(op: Op, e1: Expr, e2: Expr)
    requires Join(op, e1, e2).None?
    ensures Unrelated(op, e1, e2)
  {
    JoinFollowsRules(op, e1, e2, e1);
    EqualsItself(e1);
    if Plain(e1) && Plain(e2) {
      EqualKeys(e1, e2);
    }
    forall t: Expr
      ensures !Rewrites(op, e1, e2, t)
    {
      JoinFollowsRules(op, e1, e2, t);
    }
  }
}
