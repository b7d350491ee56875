// Kconfig dependency expressions: the data model of tools/kconfig/expr.h and
// the three-valued meaning that expr_calc_value gives them.
module TristateExpr {
  import opened Options
  import opened StringValues

  // n < m < y, as the enum tristate numbers them.
  type Tristate = t: int | 0 <= t <= 2

  const NO: Tristate := 0
  const MOD: Tristate := 1
  const YES: Tristate := 2

  datatype SymType = Unknown | Boolean | Tri | Int | Hex | String

  // Symbols are compared by address in the source. SymYes, SymMod and SymNo are the three
  // predefined constants. There is one object for each text that other constants have, and
  // none of them has a type. The id of every other symbol is its address.
  datatype Symbol = SymYes | SymMod | SymNo | Const(text: string) | Sym(id: nat, typ: SymType)

  function TypeOf(s: Symbol): SymType {
    if s.Sym? then s.typ else Unknown
  }

  predicate IsConst(s: Symbol) {
    !s.Sym?
  }

  predicate IsPredefined(s: Symbol) {
    s == SymYes || s == SymMod || s == SymNo
  }

  datatype Op = And | Or
  datatype Rel = Equal | Unequal | Less | LessEq | Greater | GreaterEq

  datatype Expr =
    | Var(sym: Symbol)
    | Comp(rel: Rel, lhs: Symbol, rhs: Symbol)
    | Not(arg: Expr)
    | Bin(op: Op, left: Expr, right: Expr)

  predicate IsOp(op: Op, e: Expr) {
    e.Bin? && e.op == op
  }

  // Same node type, as the comparison of two enum expr_type fields.
  predicate SameType(a: Expr, b: Expr) {
    match a
    case Var(_) => b.Var?
    case Comp(r, _, _) => b.Comp? && b.rel == r
    case Not(_) => b.Not?
    case Bin(op, _, _) => IsOp(op, b)
  }

  function Dual(op: Op): Op {
    if op == And then Or else And
  }

  // The operand that && (resp. ||) ignores, and the one that absorbs.
  function Neutral(op: Op): Symbol {
    if op == And then SymYes else SymNo
  }

  function Absorbing(op: Op): Symbol {
    if op == And then SymNo else SymYes
  }

  function Apply(op: Op, a: Tristate, b: Tristate): Tristate {
    if op == And then (if a < b then a else b) else (if a > b then a else b)
  }

  // One assignment of values: the tristate value of every symbol, and the sign
  // of the comparison of two symbols (by text or by number, as their types ask).
  datatype Env = Env(tri: Symbol -> Tristate, cmp: (Symbol, Symbol) -> int)

  function Holds(rel: Rel, res: int): bool {
    match rel
    case Equal => res == 0
    case Unequal => res != 0
    case Less => res < 0
    case LessEq => res <= 0
    case Greater => res > 0
    case GreaterEq => res >= 0
  }

  function Eval(e: Expr, env: Env): Tristate {
    match e
    case Var(s) => env.tri(s)
    case Comp(rel, l, r) => if Holds(rel, env.cmp(l, r)) then YES else NO
    case Not(a) => 2 - Eval(a, env)
    case Bin(op, l, r) => Apply(op, Eval(l, env), Eval(r, env))
  }

  predicate IsBoolOrTri(s: Symbol) {
    TypeOf(s) == Boolean || TypeOf(s) == Tri
  }

  // What symbol evaluation guarantees: the constants have their own values, a
  // boolean is never m, and a boolean or tristate symbol equals a constant exactly
  // when it has the value that the constant denotes.
  ghost predicate ValidEnv(env: Env) {
    && env.tri(SymYes) == YES && env.tri(SymMod) == MOD && env.tri(SymNo) == NO
    && (forall s: Symbol :: TypeOf(s) == Boolean ==> env.tri(s) != MOD)
    && (forall s: Symbol :: IsBoolOrTri(s) ==>
          && (env.cmp(s, SymYes) == 0 <==> env.tri(s) == YES)
          && (env.cmp(s, SymMod) == 0 <==> env.tri(s) == MOD)
          && (env.cmp(s, SymNo) == 0 <==> env.tri(s) == NO))
    && (forall s: Symbol, text: string :: IsBoolOrTri(s) ==>
          (env.cmp(s, Const(text)) == 0 <==> Denoted(text) == Some(env.tri(s))))
  }

  // A comparison by = or != of a tristate symbol with a constant that is none of y, m and n
  // but denotes one of their values, as "2" does.
  predicate IsForeign(rel: Rel, l: Symbol, r: Symbol) {
    (rel == Equal || rel == Unequal) && TypeOf(l) == Tri && r.Const? && Denoted(r.text).Some?
  }

  // The symbols of all such comparisons in an expression.
  function ForeignComps(e: Expr): set<(Symbol, Symbol)> {
    match e
    case Var(_) => {}
    case Comp(rel, l, r) => if IsForeign(rel, l, r) then {(l, r)} else {}
    case Not(a) => ForeignComps(a)
    case Bin(_, l, r) => ForeignComps(l) + ForeignComps(r)
  }

  // No tristate symbol equals a foreign constant that the expression compares it with.
  ghost predicate Apart(e: Expr, env: Env) {
    forall p :: p in ForeignComps(e) ==> env.cmp(p.0, p.1) != 0
  }

  // Measures.

  function Size(e: Expr): (n: nat)
    ensures n >= 1
  {
    match e
    case Var(_) => 1
    case Comp(_, _, _) => 1
    case Not(a) => 1 + Size(a)
    case Bin(_, l, r) => 1 + Size(l) + Size(r)
  }

  // How often And and Or alternate on the way down to an operand.
  function Alternations(e: Expr): nat
    decreases e, 0
  {
    if e.Bin? then 1 + Max(AlternationsAt(e.op, e.left), AlternationsAt(e.op, e.right)) else 0
  }

  // The greatest number of alternations of an operand at the level of op.
  function AlternationsAt(op: Op, e: Expr): nat
    decreases e, 1
  {
    if IsOp(op, e) then Max(AlternationsAt(op, e.left), AlternationsAt(op, e.right)) else Alternations(e)
  }

  function Max(a: nat, b: nat): nat {
    if a > b then a else b
  }

  // Number of operands of the whole and/or structure; NOT hides its operand.
  function Leaves(e: Expr): (n: nat)
    ensures n >= 1
    ensures e.Bin? ==> n >= 2
  {
    match e
    case Bin(_, l, r) => Leaves(l) + Leaves(r)
    case _ => 1
  }
}
