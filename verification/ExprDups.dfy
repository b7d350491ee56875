// expr_eliminate_dups of tools/kconfig/expr.c, in place: both slot pointers of the
// pairwise pass lead into the one expression that the pass rewrites.
module ExprDups {
  import opened TristateExpr
  import opened ExprEquality
  import opened ExprTransform
  import opened ExprJoin
  import opened ExprKeys
  import opened ExprRules
  import opened ExprSlots

  // b has the value of a wherever no foreign constant of a gets in the way, and has no
  // foreign constants of its own. Without any in a, that is under every assignment.
  ghost predicate SameValue(a: Expr, b: Expr) {
    && ForeignComps(b) <= ForeignComps(a)
    && forall env :: ValidEnv(env) && Apart(a, env) ==> Eval(a, env) == Eval(b, env)
  }

  lemma SameValueTrans(a: Expr, b: Expr, c: Expr)
    requires SameValue(a, b) && SameValue(b, c)
    ensures SameValue(a, c)
  {
    forall env | ValidEnv(env) && Apart(a, env)
      ensures Eval(a, env) == Eval(c, env)
    {
      assert Apart(b, env);
    }
  }

  // What every step of a pass keeps of the expression s it works on.
  ghost predicate Simplified(op: Op, s: Expr, s': Expr) {
    && SameSpine(op, s, s')
    && SameValue(s, s')
    && Leaves(s') <= Leaves(s)
    && AlternationsAt(op, s') <= AlternationsAt(op, s)
    && (NormalForm(s) ==> NormalForm(s'))
  }

  // No rule applies to two different operands of e, nor to those of any operand.
  ghost predicate Settled(e: Expr)
    decreases Alternations(e)
  {
    e.Bin? ==>
      forall a: Path, b: Path | IsOperand(e.op, e, a) && IsOperand(e.op, e, b) && a != b ::
        OperandAlternations(e.op, e, a);
        Join(e.op, Get(e, a), Get(e, b)).None? && Settled(Get(e, a))
  }

  // No two different operands of e are equal, or make one of the pairs that are rewritten,
  // nor do those of any operand.
  ghost predicate Distilled(e: Expr)
    decreases Alternations(e)
  {
    e.Bin? ==>
      forall a: Path, b: Path | IsOperand(e.op, e, a) && IsOperand(e.op, e, b) && a != b ::
        OperandAlternations(e.op, e, a);
        Unrelated(e.op, Get(e, a), Get(e, b)) && Distilled(Get(e, a))
  }

  lemma {:induction false} SettledIsDistilled(e: Expr)
    requires Settled(e)
    ensures Distilled(e)
    decreases Alternations(e)
  {
    if e.Bin? {
      forall a: Path, b: Path | IsOperand(e.op, e, a) && IsOperand(e.op, e, b) && a != b
        ensures Unrelated(e.op, Get(e, a), Get(e, b)) && Distilled(Get(e, a))
      {
        OperandAlternations(e.op, e, a);
        UnjoinedAreUnrelated(e.op, Get(e, a), Get(e, b));
        SettledIsDistilled(Get(e, a));
      }
    }
  }

  // The same for the operands of s below slot p1 against those below slot p2.
  ghost predicate PairsSettled(op: Op, s: Expr, p1: Path, p2: Path) {
    forall a: Path, b: Path | IsOperand(op, s, a) && IsOperand(op, s, b) && p1 <= a && p2 <= b && a != b ::
      Join(op, Get(s, a), Get(s, b)).None? && Settled(Get(s, a))
  }

  lemma SimplifiedRefl(op: Op, s: Expr)
    ensures Simplified(op, s, s)
  {
    SameSpineRefl(op, s);
  }

  lemma SimplifiedTrans(op: Op, a: Expr, b: Expr, c: Expr)
    requires Simplified(op, a, b) && Simplified(op, b, c)
    ensures Simplified(op, a, c)
  {
    SameSpineTrans(op, a, b, c);
    SameValueTrans(a, b, c);
  }

  lemma {:induction false} SetKeepsNormalForm(e: Expr, p: Path, x: Expr)
    requires ValidPath(e, p) && NormalForm(e) && NormalForm(x)
    ensures NormalForm(Set(e, p, x))
  {
    if p != [] {
      SetKeepsNormalForm(if p[0] then e.right else e.left, p[1..], x);
    }
  }

  lemma {:induction false} GetNormalForm(e: Expr, p: Path)
    requires ValidPath(e, p) && NormalForm(e)
    ensures NormalForm(Get(e, p))
  {
    if p != [] {
      GetNormalForm(if p[0] then e.right else e.left, p[1..]);
    }
  }

  // Replacing two operands by the neutral constant and their join keeps the value:
  // the rest of the level is the same before and after.
  lemma JoinKeepsValue(op: Op, s: Expr, a: Path, b: Path, env: Env)
    requires IsOperand(op, s, a) && IsOperand(op, s, b) && a != b
    requires ValidEnv(env) && !(op == And && Clash(Get(s, a), Get(s, b), env))
    requires Join(op, Get(s, a), Get(s, b)).Some? && !IsOp(op, Join(op, Get(s, a), Get(s, b)).value)
    requires IsOperand(op, Set(s, a, Var(Neutral(op))), b)
    ensures var t := Join(op, Get(s, a), Get(s, b)).value;
            Eval(Set(Set(s, a, Var(Neutral(op))), b, t), env) == Eval(s, env)
  {
    var n := Var(Neutral(op));
    var t := Join(op, Get(s, a), Get(s, b)).value;
    var s1 := Set(s, a, n);
    SetOther(op, s, a, b, n);
    JoinExact(op, Get(s, a), Get(s, b), env);
    ValueSplit(op, s, a, env);
    ValueSplit(op, s1, b, env);
    SetSet(s1, b, t, n);
    SetKeepsSpine(op, s1, b, t);
    SameSpineSlot(op, s1, Set(s1, b, t), b);
    ValueSplit(op, Set(s1, b, t), b, env);
    GetSet(s1, b, t);
    Regroup(op, Eval(Get(s, a), env), Eval(Get(s, b), env), NO, Eval(Set(s1, b, n), env));
  }

  lemma JoinSameValue(op: Op, s: Expr, a: Path, b: Path)
    requires IsOperand(op, s, a) && IsOperand(op, s, b) && a != b
    requires Join(op, Get(s, a), Get(s, b)).Some? && !IsOp(op, Join(op, Get(s, a), Get(s, b)).value)
    requires IsOperand(op, Set(s, a, Var(Neutral(op))), b)
    ensures SameValue(s, Set(Set(s, a, Var(Neutral(op))), b, Join(op, Get(s, a), Get(s, b)).value))
  {
    var e1, e2 := Get(s, a), Get(s, b);
    var t := Join(op, e1, e2).value;
    GetForeign(s, a);
    GetForeign(s, b);
    JoinForeign(op, e1, e2);
    SetForeign(s, a, Var(Neutral(op)));
    SetForeign(Set(s, a, Var(Neutral(op))), b, t);
    forall env | ValidEnv(env) && Apart(s, env)
      ensures Eval(s, env) == Eval(Set(Set(s, a, Var(Neutral(op))), b, t), env)
    {
      if EqualAndUnequalPair(e1, e2) {
        ApartNeverClashes(e1, e2, env);
      }
      JoinKeepsValue(op, s, a, b, env);
    }
  }

  // One join: the neutral constant goes into slot a, the joined operand into slot b.
  lemma JoinStep(op: Op, s: Expr, a: Path, b: Path)
    requires IsOp(op, s)
    requires IsOperand(op, s, a) && IsOperand(op, s, b) && a != b
    requires Join(op, Get(s, a), Get(s, b)).Some?
    ensures ValidPath(Set(s, a, Var(Neutral(op))), b)
    ensures var s' := Set(Set(s, a, Var(Neutral(op))), b, Join(op, Get(s, a), Get(s, b)).value);
            Simplified(op, s, s') && HasYnOperand(s')
  {
    var n := Var(Neutral(op));
    var t := Join(op, Get(s, a), Get(s, b)).value;
    var s1 := Set(s, a, n);
    JoinShrinks(op, Get(s, a), Get(s, b));
    SetOther(op, s, a, b, n);
    var s2 := Set(s1, b, t);
    SetKeepsSpine(op, s, a, n);
    SetKeepsSpine(op, s1, b, t);
    SameSpineTrans(op, s, s1, s2);
    JoinSameValue(op, s, a, b);
    SetLeaves(s, a, n);
    SetLeaves(s1, b, t);
    OperandAlternations(op, s, a);
    var h := AlternationsAt(op, s);
    SetAlternations(op, s, a, n, h);
    SetAlternations(op, s1, b, t, h);
    SlotKeepsOther(op, s, a, b, n, t);
    SetYnOperand(op, s2, a, n);
    if NormalForm(s) {
      GetNormalForm(s, a);
      GetNormalForm(s, b);
      JoinKeepsNormalForm(op, Get(s, a), Get(s, b));
      SetKeepsNormalForm(s, a, n);
      SetKeepsNormalForm(s1, b, t);
    }
  }

  // Writing slot b leaves slot a as it was, so writing a again changes nothing.
  lemma SlotKeepsOther(op: Op, s: Expr, a: Path, b: Path, n: Expr, t: Expr)
    requires IsOperand(op, s, a) && IsOperand(op, s, b) && a != b && !IsOp(op, n) && !IsOp(op, t)
    requires IsOperand(op, Set(s, a, n), b)
    ensures var s2 := Set(Set(s, a, n), b, t);
            ValidPath(s2, a) && Get(s2, a) == n && Set(s2, a, n) == s2
  {
    var s1 := Set(s, a, n);
    GetSet(s, a, n);
    SetKeepsSpine(op, s, a, n);
    SameSpineSlot(op, s, s1, a);
    SetOther(op, s1, b, a, t);
    GetSet(Set(s1, b, t), a, n);
  }

  lemma NestedSameValue(s: Expr, a: Path, x: Expr)
    requires ValidPath(s, a) && SameValue(Get(s, a), x)
    ensures SameValue(s, Set(s, a, x))
  {
    GetForeign(s, a);
    SetForeign(s, a, x);
    forall env | ValidEnv(env) && Apart(s, env)
      ensures Eval(s, env) == Eval(Set(s, a, x), env)
    {
      assert Apart(Get(s, a), env);
      SetKeepsValue(s, a, x, env);
    }
  }

  // A nested pass rewrites the single operand in slot a.
  lemma NestedStep(op: Op, s: Expr, a: Path, x: Expr)
    requires IsOp(op, s) && IsOperand(op, s, a)
    requires var e := Get(s, a); e.Bin? && Simplified(e.op, e, x)
    ensures Simplified(op, s, Set(s, a, x))
    ensures HasYnOperand(x) ==> HasYnOperand(Set(s, a, x))
  {
    var e := Get(s, a);
    assert !IsOp(op, x);
    OperandAlternations(op, s, a);
    assert Alternations(x) <= Alternations(e);
    SetKeepsSpine(op, s, a, x);
    NestedSameValue(s, a, x);
    SetLeaves(s, a, x);
    SetAlternations(op, s, a, x, AlternationsAt(op, s));
    if NormalForm(s) {
      GetNormalForm(s, a);
      SetKeepsNormalForm(s, a, x);
    }
    if HasYnOperand(x) {
      SetYnOperand(op, s, a, x);
    }
  }

  // The slots of the two operands of a node at the level of op.
  lemma Operands(op: Op, s: Expr, r: Path, q: Path)
    requires OnSpine(op, s, q) && ValidPath(s, q) && IsOp(op, Get(s, q))
    ensures OnSpine(op, s, q + [false]) && ValidPath(s, q + [false]) && OnSpine(op, s, q + [true]) && ValidPath(s, q + [true])
    ensures r + q + [false] == r + (q + [false]) && r + q + [true] == r + (q + [true])
    ensures SpineSize(op, Get(s, q)) == 1 + SpineSize(op, Get(s, q + [false])) + SpineSize(op, Get(s, q + [true]))
  {
    SpineGrows(op, s, q, false);
    SpineGrows(op, s, q, true);
  }

  lemma SplitFirst(op: Op, s: Expr, q1: Path, q2: Path)
    requires OnSpine(op, s, q1) && ValidPath(s, q1) && IsOp(op, Get(s, q1))
    requires PairsSettled(op, s, q1 + [false], q2) && PairsSettled(op, s, q1 + [true], q2)
    ensures PairsSettled(op, s, q1, q2)
  {
    forall a: Path, b: Path | IsOperand(op, s, a) && IsOperand(op, s, b) && q1 <= a && q2 <= b && a != b
      ensures Join(op, Get(s, a), Get(s, b)).None? && Settled(Get(s, a))
    {
      OperandPrefix(op, s, q1, a);
    }
  }

  lemma SplitSecond(op: Op, s: Expr, q1: Path, q2: Path)
    requires OnSpine(op, s, q2) && ValidPath(s, q2) && IsOp(op, Get(s, q2))
    requires PairsSettled(op, s, q1, q2 + [false]) && PairsSettled(op, s, q1, q2 + [true])
    ensures PairsSettled(op, s, q1, q2)
  {
    forall a: Path, b: Path | IsOperand(op, s, a) && IsOperand(op, s, b) && q1 <= a && q2 <= b && a != b
      ensures Join(op, Get(s, a), Get(s, b)).None? && Settled(Get(s, a))
    {
      OperandPrefix(op, s, q2, b);
    }
  }

  lemma {:induction false} YnKeepsNormalForm(e: Expr)
    requires NormalForm(e)
    ensures NormalForm(EliminateYn(e))
  {
    if e.Bin? {
      YnKeepsNormalForm(e.left);
      YnKeepsNormalForm(e.right);
    }
  }

  lemma YnSameValue(e: Expr)
    ensures SameValue(e, EliminateYn(e))
  {
    EliminateYnShrinks(e);
    forall env | ValidEnv(env)
      ensures Eval(EliminateYn(e), env) == Eval(e, env)
    {
      EliminateYnKeepsValue(e, env);
    }
  }

  // A level paired with itself is settled when all its pairs are.
  lemma SelfPair(e: Expr)
    requires e.Bin?
    ensures PairsSettled(e.op, e, [], []) ==> Settled(e)
  {
  }

  // Two operand slots make one pair at most.
  lemma SingleOperands(op: Op, s: Expr, q1: Path, q2: Path)
    requires IsOperand(op, s, q1) && IsOperand(op, s, q2)
    ensures q1 == q2 ==> PairsSettled(op, s, q1, q2)
    ensures Join(op, Get(s, q1), Get(s, q2)).None? && Settled(Get(s, q1)) ==> PairsSettled(op, s, q1, q2)
  {
    forall a: Path, b: Path | IsOperand(op, s, a) && IsOperand(op, s, b) && q1 <= a && q2 <= b
      ensures a == q1 && b == q2
    {
      OperandPrefix(op, s, q1, a);
      OperandPrefix(op, s, q2, b);
    }
  }

  // s' is s with the operands in slots a and b joined.
  ghost predicate Joined(op: Op, s: Expr, s': Expr, a: Path, b: Path) {
    && ValidPath(s, a) && ValidPath(s, b) && Join(op, Get(s, a), Get(s, b)).Some?
    && var s1 := Set(s, a, Var(Neutral(op)));
       ValidPath(s1, b) && s' == Set(s1, b, Join(op, Get(s, a), Get(s, b)).value)
  }

  class Simplifier {
    var root: Expr
    var transCount: nat

    constructor (e: Expr)
      ensures root == e && transCount == 0
    {
      root, transCount := e, 0;
    }

    // The operand in slot p1, when it is itself an and/or node, is paired with itself.
    method EliminateNested(op: Op, p1: Path, ghost r: Path, ghost q1: Path)
      requires ValidPath(root, r) && IsOp(op, Get(root, r))
      requires p1 == r + q1 && IsOperand(op, Get(root, r), q1) && ValidPath(root, p1)
      modifies this
      ensures ValidPath(root, r) && root == Set(old(root), r, Get(root, r))
      ensures var s, s' := old(Get(root, r)), Get(root, r);
              && Simplified(op, s, s') && transCount >= old(transCount)
              && (transCount == old(transCount) ==> s' == s && Settled(Get(s, q1)))
              && (transCount > old(transCount) ==> HasYnOperand(s'))
      decreases AlternationsAt(op, Get(root, r)), 0
    {
      ghost var s0 := Get(root, r);
      Compose(root, r, q1, s0);
      GetSet(root, r, s0);
      SimplifiedRefl(op, s0);
      var e1 := Get(root, p1);
      if e1.Bin? {
        OperandAlternations(op, s0, q1);
        SelfPair(e1);
        assert p1 == p1 + [];
        EliminateDups1(e1.op, p1, p1, p1, [], []);
        ghost var x := Get(root, p1);
        Compose(old(root), r, q1, x);
        GetSet(old(root), r, Set(s0, q1, x));
        NestedStep(op, s0, q1, x);
        GetSet(s0, q1, x);
      }
    }

    // Joins the operands in two different slots if a rule applies: the neutral constant goes
    // into the first slot, the join into the second.
    method JoinOperands(op: Op, p1: Path, p2: Path, ghost r: Path, ghost q1: Path, ghost q2: Path)
      requires ValidPath(root, r) && IsOp(op, Get(root, r))
      requires p1 == r + q1 && IsOperand(op, Get(root, r), q1)
      requires p2 == r + q2 && IsOperand(op, Get(root, r), q2)
      requires q1 != q2
      modifies this
      ensures ValidPath(root, r) && root == Set(old(root), r, Get(root, r))
      ensures var s, s' := old(Get(root, r)), Get(root, r);
              && Simplified(op, s, s') && transCount >= old(transCount)
              && (transCount == old(transCount) ==> s' == s && Join(op, Get(s, q1), Get(s, q2)).None?)
              && (transCount > old(transCount) ==> HasYnOperand(s') && Joined(op, s, s', q1, q2))
    {
      ghost var s0 := Get(root, r);
      Compose(root, r, q1, Var(Neutral(op)));
      Compose(root, r, q2, s0);
      GetSet(root, r, s0);
      SimplifiedRefl(op, s0);
      var t := Join(op, Get(root, p1), Get(root, p2));
      if t.Some? {
        JoinStep(op, s0, q1, q2);
        ghost var s1 := Set(s0, q1, Var(Neutral(op)));
        GetSet(root, r, s1);
        root := Set(root, p1, Var(Neutral(op)));
        Compose(root, r, q2, t.value);
        root := Set(root, p2, t.value);
        SetSet(old(root), r, s1, Set(s1, q2, t.value));
        GetSet(old(root), r, Set(s1, q2, t.value));
        transCount := transCount + 1;
      }
    }

    // expr_eliminate_dups1. The slots p1 and p2 lie at the level of op below the
    // slot r; q1 and q2 are their positions relative to r.
    method EliminateDups1(op: Op, p1: Path, p2: Path, ghost r: Path, ghost q1: Path, ghost q2: Path)
      requires ValidPath(root, r) && IsOp(op, Get(root, r))
      requires p1 == r + q1 && OnSpine(op, Get(root, r), q1)
      requires p2 == r + q2 && OnSpine(op, Get(root, r), q2)
      modifies this
      ensures ValidPath(root, r) && root == Set(old(root), r, Get(root, r))
      ensures var s, s' := old(Get(root, r)), Get(root, r);
              && Simplified(op, s, s')
              && transCount >= old(transCount)
              && (transCount == old(transCount) ==> s' == s && PairsSettled(op, s, q1, q2))
              && (transCount > old(transCount) ==> HasYnOperand(s'))
      decreases AlternationsAt(op, Get(root, r)), 1,
                SpineSize(op, (SpineIsValid(op, Get(root, r), q1); Get(Get(root, r), q1))) +
                SpineSize(op, (SpineIsValid(op, Get(root, r), q2); Get(Get(root, r), q2)))
    {
      ghost var s0 := Get(root, r);
      SpineIsValid(op, s0, q1);
      SpineIsValid(op, s0, q2);
      Compose(root, r, q1, s0);
      Compose(root, r, q2, s0);
      GetSet(root, r, s0);
      if IsOp(op, Get(root, p1)) {
        Operands(op, s0, r, q1);
        EliminateDups1(op, p1 + [false], p2, r, q1 + [false], q2);
        ghost var s1 := Get(root, r);
        SameSpineSlot(op, s0, s1, q1 + [true]);
        SameSpineSlot(op, s0, s1, q2);
        EliminateDups1(op, p1 + [true], p2, r, q1 + [true], q2);
        SetSet(old(root), r, s1, Get(root, r));
        SimplifiedTrans(op, s0, s1, Get(root, r));
        if transCount == old(transCount) {
          SplitFirst(op, s0, q1, q2);
        }
      } else if IsOp(op, Get(root, p2)) {
        Operands(op, s0, r, q2);
        EliminateDups1(op, p1, p2 + [false], r, q1, q2 + [false]);
        ghost var s1 := Get(root, r);
        SameSpineSlot(op, s0, s1, q1);
        SameSpineSlot(op, s0, s1, q2 + [true]);
        EliminateDups1(op, p1, p2 + [true], r, q1, q2 + [true]);
        SetSet(old(root), r, s1, Get(root, r));
        SimplifiedTrans(op, s0, s1, Get(root, r));
        if transCount == old(transCount) {
          SplitSecond(op, s0, q1, q2);
        }
      } else if p1 == p2 {
        assert q1 == q2 by { assert p1[|r|..] == q1 && p2[|r|..] == q2; }
        SingleOperands(op, s0, q1, q2);
        SimplifiedRefl(op, s0);
      } else {
        SingleOperands(op, s0, q1, q2);
        SimplifiedRefl(op, s0);
        EliminateNested(op, p1, r, q1);
        ghost var s1 := Get(root, r);
        SameSpineSlot(op, s0, s1, q1);
        SameSpineSlot(op, s0, s1, q2);
        JoinOperands(op, p1, p2, r, q1, q2);
        SetSet(old(root), r, s1, Get(root, r));
        SimplifiedTrans(op, s0, s1, Get(root, r));
      }
    }

    // expr_eliminate_dups. Each pass but the last removes an operand.
    method EliminateDups()
      modifies this
      ensures SameValue(old(root), root)
      ensures old(ForeignComps(root)) == {} ==> forall env :: ValidEnv(env) ==> Eval(root, env) == Eval(old(root), env)
      ensures Settled(root) && Distilled(root)
      ensures root == old(root) || (!HasYnOperand(root) && (NormalForm(root) ==> Plain(root)))
      ensures old(NormalForm(root)) ==> NormalForm(root)
      ensures Leaves(root) <= old(Leaves(root))
      ensures transCount == old(transCount)
    {
      var oldCount := transCount;
      while true
        invariant SameValue(old(root), root)
        invariant old(NormalForm(root)) ==> NormalForm(root)
        invariant Leaves(root) <= old(Leaves(root))
        invariant root == old(root) || !HasYnOperand(root)
        decreases Leaves(root)
      {
        transCount := 0;
        ghost var start := root;
        if root.Bin? {
          EliminateDups1(root.op, [], [], [], [], []);
          SelfPair(root);
          SameValueTrans(old(root), start, root);
        }
        if transCount == 0 {
          SettledIsDistilled(root);
          if NormalForm(root) && !HasYnOperand(root) {
            NormalIsPlain(root);
          }
          break;
        }
        EliminateYnFolds(root);
        EliminateYnShrinks(root);
        YnSameValue(root);
        SameValueTrans(old(root), root, EliminateYn(root));
        if NormalForm(root) {
          YnKeepsNormalForm(root);
        }
        root := EliminateYn(root);
      }
      transCount := oldCount;
    }
  }
}
