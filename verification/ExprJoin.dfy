// expr_join_or and expr_join_and of tools/kconfig/expr.c: the pairwise rules that
// merge two operands of an or/and into one.
module ExprJoin {
  import opened Options
  import opened StringValues
  import opened SymbolComparison
  import opened TristateExpr
  import opened ExprEquality
  import opened ExprTransform

  predicate IsComp(rel: Rel, e: Expr, rhs: Symbol) {
    e.Comp? && e.rel == rel && e.rhs == rhs
  }

  predicate IsEqOrNeq(e: Expr) {
    e.Comp? && (e.rel == Equal || e.rel == Unequal)
  }

  predicate IsNegatedVar(e: Expr) {
    e.Not? && e.arg.Var?
  }

  // {e1, e2} is {a = x, a = y} in either order; likewise for any one relation.
  predicate Pair(rel: Rel, e1: Expr, e2: Expr, x: Symbol, y: Symbol) {
    (IsComp(rel, e1, x) && IsComp(rel, e2, y)) || (IsComp(rel, e1, y) && IsComp(rel, e2, x))
  }

  // {e1, e2} is {a, a rel x} in either order.
  predicate VarAndComp(e1: Expr, e2: Expr, rel: Rel, x: Symbol) {
    (e1.Var? && IsComp(rel, e2, x)) || (e2.Var? && IsComp(rel, e1, x))
  }

  function LeftSymbol(e: Expr): Symbol
    requires e.Var? || e.Comp?
  {
    if e.Var? then e.sym else e.lhs
  }

  // The one symbol both operands speak about. A negated comparison is admitted on
  // the first side only, as in the source.
  function JoinSymbol(e1: Expr, e2: Expr): Option<Symbol> {
    if !(IsEqOrNeq(e1) || e1.Var? || (e1.Not? && (IsEqOrNeq(e1.arg) || e1.arg.Var?))) then None
    else if !(IsEqOrNeq(e2) || e2.Var? || IsNegatedVar(e2)) then None
    else
      var s1 := LeftSymbol(if e1.Not? then e1.arg else e1);
      var s2 := LeftSymbol(if e2.Not? then e2.arg else e2);
      if s1 == s2 && IsBoolOrTri(s1) then Some(s1) else None
  }

  function JoinOr(e1: Expr, e2: Expr): Option<Expr> {
    if ExprEq(e1, e2) then Some(e1)
    else match JoinSymbol(e1, e2)
      case None => None
      case Some(a) =>
        if TypeOf(a) == Tri && Pair(Equal, e1, e2, SymYes, SymMod) then Some(Comp(Unequal, a, SymNo))
        else if TypeOf(a) == Tri && Pair(Equal, e1, e2, SymYes, SymNo) then Some(Comp(Unequal, a, SymMod))
        else if TypeOf(a) == Tri && Pair(Equal, e1, e2, SymMod, SymNo) then Some(Comp(Unequal, a, SymYes))
        else if TypeOf(a) == Boolean && ((IsNegatedVar(e1) && e2.Var?) || (IsNegatedVar(e2) && e1.Var?)) then
          Some(Var(SymYes))
        else None
  }

  // a = b && a != c, b and c constants.
  function EqualAndUnequal(a: Symbol, b: Symbol, c: Symbol): Expr {
    if b != c then Comp(Equal, a, b) else Var(SymNo)
  }

  function JoinAnd(e1: Expr, e2: Expr): Option<Expr> {
    if ExprEq(e1, e2) then Some(e1)
    else match JoinSymbol(e1, e2)
      case None => None
      case Some(a) =>
        if VarAndComp(e1, e2, Equal, SymYes) then Some(Comp(Equal, a, SymYes))
        else if VarAndComp(e1, e2, Unequal, SymNo) then Some(Var(a))
        else if VarAndComp(e1, e2, Unequal, SymMod) then Some(Comp(Equal, a, SymYes))
        else if TypeOf(a) != Tri then None
        else if e1.Comp? && e2.Comp? && e1.rel == Equal && e2.rel == Unequal && IsConst(e1.rhs) && IsConst(e2.rhs) then
          Some(EqualAndUnequal(a, e1.rhs, e2.rhs))
        else if e1.Comp? && e2.Comp? && e1.rel == Unequal && e2.rel == Equal && IsConst(e1.rhs) && IsConst(e2.rhs) then
          Some(EqualAndUnequal(a, e2.rhs, e1.rhs))
        else if Pair(Unequal, e1, e2, SymYes, SymNo) then Some(Comp(Equal, a, SymMod))
        else if Pair(Unequal, e1, e2, SymYes, SymMod) then Some(Comp(Equal, a, SymNo))
        else if Pair(Unequal, e1, e2, SymMod, SymNo) then Some(Comp(Equal, a, SymYes))
        else None
  }

  function Join(op: Op, e1: Expr, e2: Expr): Option<Expr> {
    if op == Or then JoinOr(e1, e2) else JoinAnd(e1, e2)
  }

  // {e1, e2} is {a = b, a != c} for a tristate symbol and two different constants.
  predicate EqualAndUnequalPair(e1: Expr, e2: Expr) {
    && e1.Comp? && e2.Comp? && e1.lhs == e2.lhs && TypeOf(e1.lhs) == Tri
    && ((e1.rel == Equal && e2.rel == Unequal) || (e1.rel == Unequal && e2.rel == Equal))
    && IsConst(e1.rhs) && IsConst(e2.rhs) && e1.rhs != e2.rhs
  }

  // Such a pair, the symbol being equal to both constants.
  predicate Clash(e1: Expr, e2: Expr, env: Env) {
    EqualAndUnequalPair(e1, e2) && env.cmp(e1.lhs, e1.rhs) == 0 && env.cmp(e2.lhs, e2.rhs) == 0
  }

  // The rules keep the value of the pair they replace, except for exactly one case.
  lemma JoinExact(op: Op, e1: Expr, e2: Expr, env: Env)
    requires ValidEnv(env)
    requires Join(op, e1, e2).Some?
    ensures Eval(Join(op, e1, e2).value, env) == Apply(op, Eval(e1, env), Eval(e2, env))
            <==> !(op == And && Clash(e1, e2, env))
  {
    if ExprEq(e1, e2) {
      ExprEqSound(e1, e2, env);
    } else if op == Or {
      JoinOrSound(e1, e2, env);
    } else {
      JoinAndExact(e1, e2, env);
    }
  }

  lemma JoinOrSound(e1: Expr, e2: Expr, env: Env)
    requires ValidEnv(env)
    requires !ExprEq(e1, e2) && JoinOr(e1, e2).Some?
    ensures Eval(JoinOr(e1, e2).value, env) == Apply(Or, Eval(e1, env), Eval(e2, env))
  {
    var a := JoinSymbol(e1, e2).value;
    if TypeOf(a) == Tri {
      assert IsBoolOrTri(a);
    }
  }

  lemma JoinAndExact(e1: Expr, e2: Expr, env: Env)
    requires ValidEnv(env)
    requires !ExprEq(e1, e2) && JoinAnd(e1, e2).Some?
    ensures Eval(JoinAnd(e1, e2).value, env) == Apply(And, Eval(e1, env), Eval(e2, env)) <==> !Clash(e1, e2, env)
  {
    var a := JoinSymbol(e1, e2).value;
    assert IsBoolOrTri(a);
  }

  // The case arises only where the symbol equals a foreign constant: it equals one at most of
  // all others.
  lemma ApartNeverClashes(e1: Expr, e2: Expr, env: Env)
    requires ValidEnv(env) && Apart(e1, env) && Apart(e2, env)
    requires EqualAndUnequalPair(e1, e2)
    ensures !Clash(e1, e2, env)
  {
    ComparedWithConstant(e1, env);
    ComparedWithConstant(e2, env);
  }

  // A tristate symbol that equals no foreign constant equals only the predefined constant of
  // its value.
  lemma ComparedWithConstant(e: Expr, env: Env)
    requires ValidEnv(env) && Apart(e, env)
    requires e.Comp? && (e.rel == Equal || e.rel == Unequal) && TypeOf(e.lhs) == Tri && IsConst(e.rhs)
    ensures env.cmp(e.lhs, e.rhs) == 0 <==> e.rhs == ConstantOf(env.tri(e.lhs))
  {
    assert IsBoolOrTri(e.lhs);
    if e.rhs.Const? {
      assert e.rhs == Const(e.rhs.text);
      assert Denoted(e.rhs.text).Some? ==> (e.lhs, e.rhs) in ForeignComps(e);
    }
  }

  function ConstantOf(t: Tristate): Symbol {
    if t == NO then SymNo else if t == MOD then SymMod else SymYes
  }

  // The case of two constants that denote the same tristate value, such as "2" and "02", or
  // "2" and y.
  predicate AliasingPair(e1: Expr, e2: Expr) {
    EqualAndUnequalPair(e1, e2) && ConstantValue(e1.rhs) == ConstantValue(e2.rhs) && ConstantValue(e1.rhs).Some?
  }

  lemma SpellingsAlias(a: Symbol)
    requires TypeOf(a) == Tri
    ensures AliasingPair(Comp(Equal, a, Const("2")), Comp(Unequal, a, Const("02")))
    ensures AliasingPair(Comp(Equal, a, Const("2")), Comp(Unequal, a, SymYes))
    ensures !AliasingPair(Comp(Equal, a, Const("1")), Comp(Unequal, a, Const("2")))
    ensures !AliasingPair(Comp(Equal, a, Const("abc")), Comp(Unequal, a, Const("3")))
  {
    Spellings();
    assert |"2"| != |"02"|;
  }

  lemma ClashIsAliasing(e1: Expr, e2: Expr, env: Env)
    requires ValidEnv(env) && EqualAndUnequalPair(e1, e2)
    ensures Clash(e1, e2, env) <==> AliasingPair(e1, e2) && ConstantValue(e1.rhs) == Some(env.tri(e1.lhs))
  {
    EqualsItsConstant(e1.lhs, e1.rhs, env);
    EqualsItsConstant(e2.lhs, e2.rhs, env);
  }

  predicate KeepsValue(op: Op, e1: Expr, e2: Expr, env: Env)
    requires Join(op, e1, e2).Some?
  {
    Eval(Join(op, e1, e2).value, env) == Apply(op, Eval(e1, env), Eval(e2, env))
  }

  // A join keeps the value under all values of the symbols exactly when it does not merge
  // a = b with a != c for two constants that denote the same value. It makes no difference
  // whether all valid assignments are meant or only those that comparing texts gives.
  lemma JoinSoundExactly(op: Op, e1: Expr, e2: Expr)
    requires Join(op, e1, e2).Some?
    ensures (forall env :: ValidEnv(env) ==> KeepsValue(op, e1, e2, env)) <==> !(op == And && AliasingPair(e1, e2))
    ensures (forall v :: ValidValues(v) ==> KeepsValue(op, e1, e2, EnvOf(v))) <==> !(op == And && AliasingPair(e1, e2))
  {
    if op == And && AliasingPair(e1, e2) {
      var v := AliasingValues(e1.lhs, e1.rhs, e2.rhs);
      EnvOfIsValid(v);
      JoinExact(op, e1, e2, EnvOf(v));
    } else {
      forall env | ValidEnv(env)
        ensures KeepsValue(op, e1, e2, env)
      {
        if EqualAndUnequalPair(e1, e2) {
          ClashIsAliasing(e1, e2, env);
        }
        JoinExact(op, e1, e2, env);
      }
      forall v | ValidValues(v)
        ensures KeepsValue(op, e1, e2, EnvOf(v))
      {
        EnvOfIsValid(v);
      }
    }
  }

  // A join of different operands is a symbol or a comparison; with a constant other than y, m
  // and n it compares only what one of them compares already.
  lemma JoinCompares(op: Op, e1: Expr, e2: Expr)
    requires !ExprEq(e1, e2) && Join(op, e1, e2).Some?
    ensures var t := Join(op, e1, e2).value;
            && (t.Var? || t.Comp?)
            && (t.Comp? && t.rhs.Const? ==> Compares(e1, t.lhs, t.rhs) || Compares(e2, t.lhs, t.rhs))
  {
  }

  predicate Compares(e: Expr, l: Symbol, r: Symbol) {
    IsEqOrNeq(e) && e.lhs == l && e.rhs == r
  }

  // A join compares a symbol with no further foreign constant.
  lemma JoinForeign(op: Op, e1: Expr, e2: Expr)
    requires Join(op, e1, e2).Some?
    ensures ForeignComps(Join(op, e1, e2).value) <= ForeignComps(e1) + ForeignComps(e2)
  {
    var t := Join(op, e1, e2).value;
    if !ExprEq(e1, e2) {
      JoinCompares(op, e1, e2);
      ForeignIsOld(t, e1, e2);
    }
  }

  lemma ForeignIsOld(t: Expr, e1: Expr, e2: Expr)
    requires t.Var? || t.Comp?
    requires t.Comp? && t.rhs.Const? ==> Compares(e1, t.lhs, t.rhs) || Compares(e2, t.lhs, t.rhs)
    ensures ForeignComps(t) <= ForeignComps(e1) + ForeignComps(e2)
  {
  }

  // A join never grows the expression, deepens it, or creates another and/or node.
  lemma JoinShrinks(op: Op, e1: Expr, e2: Expr)
    requires Join(op, e1, e2).Some?
    ensures var t := Join(op, e1, e2).value;
            && Leaves(t) <= Leaves(e1) && Alternations(t) <= Alternations(e1)
            && (t.Bin? ==> t == e1)
  {
  }

  lemma JoinKeepsNormalForm(op: Op, e1: Expr, e2: Expr)
    requires Join(op, e1, e2).Some? && NormalForm(e1) && NormalForm(e2)
    ensures NormalForm(Join(op, e1, e2).value)
  {
  }
}
