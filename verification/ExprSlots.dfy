// Slots: the places inside an expression that a `struct expr **` can point to. A slot
// is named by the path that leads to it, so two pointers are equal iff the paths are.
module ExprSlots {
  import opened TristateExpr
  import opened ExprEquality

  // false goes to the left operand of an and/or node, true to the right one.
  type Path = seq<bool>

  predicate ValidPath(e: Expr, p: Path) {
    p == [] || (e.Bin? && ValidPath(if p[0] then e.right else e.left, p[1..]))
  }

  function Get(e: Expr, p: Path): Expr
    requires ValidPath(e, p)
  {
    if p == [] then e else Get(if p[0] then e.right else e.left, p[1..])
  }

  function Set(e: Expr, p: Path, x: Expr): Expr
    requires ValidPath(e, p)
  {
    if p == [] then x
    else if p[0] then Bin(e.op, e.left, Set(e.right, p[1..], x))
    else Bin(e.op, Set(e.left, p[1..], x), e.right)
  }

  // p runs through nodes of type op only: the slot is an operand position at that level.
  predicate OnSpine(op: Op, e: Expr, p: Path) {
    p == [] || (IsOp(op, e) && OnSpine(op, if p[0] then e.right else e.left, p[1..]))
  }

  // p names an operand (a node of another type) at the level of op.
  predicate IsOperand(op: Op, e: Expr, p: Path) {
    OnSpine(op, e, p) && ValidPath(e, p) && !IsOp(op, Get(e, p))
  }

  // Both trees branch at the same places at the level of op.
  predicate SameSpine(op: Op, a: Expr, b: Expr) {
    && (IsOp(op, a) <==> IsOp(op, b))
    && (IsOp(op, a) ==> SameSpine(op, a.left, b.left) && SameSpine(op, a.right, b.right))
  }

  function SpineSize(op: Op, e: Expr): (n: nat)
    ensures n >= 1
  {
    if IsOp(op, e) then 1 + SpineSize(op, e.left) + SpineSize(op, e.right) else 1
  }

  // Slot arithmetic.

  lemma {:induction false} GetSet(e: Expr, p: Path, x: Expr)
    requires ValidPath(e, p)
    ensures ValidPath(Set(e, p, x), p) && Get(Set(e, p, x), p) == x
    ensures Set(e, p, Get(e, p)) == e
  {
    if p != [] {
      GetSet(if p[0] then e.right else e.left, p[1..], x);
    }
  }

  lemma {:induction false} SetSet(e: Expr, p: Path, x: Expr, y: Expr)
    requires ValidPath(e, p)
    ensures ValidPath(Set(e, p, x), p) && Set(Set(e, p, x), p, y) == Set(e, p, y)
  {
    if p != [] {
      SetSet(if p[0] then e.right else e.left, p[1..], x, y);
    }
  }

  lemma {:induction false} Compose(e: Expr, p: Path, q: Path, x: Expr)
    requires ValidPath(e, p) && ValidPath(Get(e, p), q)
    ensures ValidPath(e, p + q) && Get(e, p + q) == Get(Get(e, p), q)
    ensures Set(e, p + q, x) == Set(e, p, Set(Get(e, p), q, x))
  {
    if p == [] {
      assert p + q == q;
    } else {
      assert (p + q)[0] == p[0] && (p + q)[1..] == p[1..] + q;
      Compose(if p[0] then e.right else e.left, p[1..], q, x);
    }
  }

  lemma {:induction false} SpineIsValid(op: Op, e: Expr, p: Path)
    requires OnSpine(op, e, p)
    ensures ValidPath(e, p)
  {
    if p != [] {
      SpineIsValid(op, if p[0] then e.right else e.left, p[1..]);
    }
  }

  lemma {:induction false} SpineCompose(op: Op, e: Expr, p: Path, q: Path)
    requires OnSpine(op, e, p) && ValidPath(e, p) && OnSpine(op, Get(e, p), q)
    ensures OnSpine(op, e, p + q)
  {
    if p == [] {
      assert p + q == q;
    } else {
      assert (p + q)[0] == p[0] && (p + q)[1..] == p[1..] + q;
      SpineCompose(op, if p[0] then e.right else e.left, p[1..], q);
    }
  }

  lemma {:induction false} SpineGrows(op: Op, e: Expr, p: Path, b: bool)
    requires OnSpine(op, e, p) && ValidPath(e, p) && IsOp(op, Get(e, p))
    ensures OnSpine(op, e, p + [b]) && ValidPath(e, p + [b])
    ensures Get(e, p + [b]) == if b then Get(e, p).right else Get(e, p).left
  {
    var child := if b then Get(e, p).right else Get(e, p).left;
    assert OnSpine(op, child, []) && ValidPath(child, []);
    assert [b][1..] == [];
    assert OnSpine(op, Get(e, p), [b]) && ValidPath(Get(e, p), [b]) && Get(Get(e, p), [b]) == child;
    SpineCompose(op, e, p, [b]);
    Compose(e, p, [b], child);
  }

  // Writing another operand into an operand slot keeps the spine.
  lemma {:induction false} SetKeepsSpine(op: Op, e: Expr, p: Path, x: Expr)
    requires IsOperand(op, e, p) && !IsOp(op, x)
    ensures SameSpine(op, e, Set(e, p, x))
  {
    if p != [] {
      SetKeepsSpine(op, if p[0] then e.right else e.left, p[1..], x);
      SameSpineRefl(op, if p[0] then e.left else e.right);
    }
  }

  lemma {:induction false} SameSpineRefl(op: Op, e: Expr)
    ensures SameSpine(op, e, e)
  {
    if IsOp(op, e) {
      SameSpineRefl(op, e.left);
      SameSpineRefl(op, e.right);
    }
  }

  lemma {:induction false} SameSpineTrans(op: Op, a: Expr, b: Expr, c: Expr)
    requires SameSpine(op, a, b) && SameSpine(op, b, c)
    ensures SameSpine(op, a, c)
  {
    if IsOp(op, a) {
      SameSpineTrans(op, a.left, b.left, c.left);
      SameSpineTrans(op, a.right, b.right, c.right);
    }
  }

  // Equal spines have the same slots, of the same kind and spine size.
  lemma {:induction false} SameSpineSlot(op: Op, a: Expr, b: Expr, p: Path)
    requires SameSpine(op, a, b) && OnSpine(op, a, p)
    ensures OnSpine(op, b, p) && ValidPath(a, p) && ValidPath(b, p)
    ensures IsOp(op, Get(a, p)) <==> IsOp(op, Get(b, p))
    ensures SpineSize(op, Get(a, p)) == SpineSize(op, Get(b, p))
  {
    if p == [] {
      SameSpineSize(op, a, b);
    } else if p[0] {
      SameSpineSlot(op, a.right, b.right, p[1..]);
    } else {
      SameSpineSlot(op, a.left, b.left, p[1..]);
    }
  }

  lemma {:induction false} SameSpineSize(op: Op, a: Expr, b: Expr)
    requires SameSpine(op, a, b)
    ensures SpineSize(op, a) == SpineSize(op, b)
  {
    if IsOp(op, a) {
      SameSpineSize(op, a.left, b.left);
      SameSpineSize(op, a.right, b.right);
    }
  }

  // An operand slot below another operand slot is that slot.
  lemma {:induction false} SetOther(op: Op, e: Expr, p: Path, q: Path, x: Expr)
    requires IsOperand(op, e, p) && IsOperand(op, e, q) && p != q && !IsOp(op, x)
    ensures IsOperand(op, Set(e, p, x), q) && Get(Set(e, p, x), q) == Get(e, q)
  {
    assert p != [] && q != [];
    var c := if p[0] then e.right else e.left;
    if p[0] == q[0] {
      assert [p[0]] + p[1..] == p && [q[0]] + q[1..] == q;
      SetOther(op, c, p[1..], q[1..], x);
    }
  }

  lemma {:induction false} OperandPrefix(op: Op, e: Expr, p: Path, q: Path)
    requires OnSpine(op, e, p) && ValidPath(e, p) && IsOperand(op, e, q) && p <= q
    ensures !IsOp(op, Get(e, p)) ==> q == p
    ensures IsOp(op, Get(e, p)) ==> p + [false] <= q || p + [true] <= q
  {
    if p == [] {
      if IsOp(op, e) {
        assert q != [] && [q[0]] + q[1..] == q;
      }
    } else {
      OperandPrefix(op, if p[0] then e.right else e.left, p[1..], q[1..]);
      assert [p[0]] + p[1..] == p && [q[0]] + q[1..] == q;
    }
  }

  // Effects of writing one slot.

  lemma {:induction false} SetKeepsValue(e: Expr, p: Path, x: Expr, env: Env)
    requires ValidPath(e, p) && Eval(x, env) == Eval(Get(e, p), env)
    ensures Eval(Set(e, p, x), env) == Eval(e, env)
  {
    if p != [] {
      SetKeepsValue(if p[0] then e.right else e.left, p[1..], x, env);
    }
  }

  lemma {:induction false} GetForeign(e: Expr, p: Path)
    requires ValidPath(e, p)
    ensures ForeignComps(Get(e, p)) <= ForeignComps(e)
  {
    if p != [] {
      GetForeign(if p[0] then e.right else e.left, p[1..]);
    }
  }

  lemma {:induction false} SetForeign(e: Expr, p: Path, x: Expr)
    requires ValidPath(e, p)
    ensures ForeignComps(Set(e, p, x)) <= ForeignComps(e) + ForeignComps(x)
  {
    if p != [] {
      SetForeign(if p[0] then e.right else e.left, p[1..], x);
    }
  }

  lemma {:induction false} SetLeaves(e: Expr, p: Path, x: Expr)
    requires ValidPath(e, p)
    ensures Leaves(Set(e, p, x)) == Leaves(e) - Leaves(Get(e, p)) + Leaves(x)
  {
    if p != [] {
      SetLeaves(if p[0] then e.right else e.left, p[1..], x);
    }
  }

  lemma {:induction false} OperandAlternations(op: Op, e: Expr, p: Path)
    requires IsOperand(op, e, p)
    ensures Alternations(Get(e, p)) <= AlternationsAt(op, e)
    ensures IsOp(op, e) ==> Alternations(Get(e, p)) < Alternations(e)
  {
    if p != [] {
      OperandAlternations(op, if p[0] then e.right else e.left, p[1..]);
    }
  }

  lemma {:induction false} SetAlternations(op: Op, e: Expr, p: Path, x: Expr, h: nat)
    requires IsOperand(op, e, p) && !IsOp(op, x)
    requires AlternationsAt(op, e) <= h && Alternations(x) <= h
    ensures AlternationsAt(op, Set(e, p, x)) <= h
  {
    if p != [] {
      SetAlternations(op, if p[0] then e.right else e.left, p[1..], x, h);
    }
  }

  lemma {:induction false} SetYnOperand(op: Op, e: Expr, p: Path, x: Expr)
    requires p != [] && ValidPath(e, p) && (IsYn(x) || HasYnOperand(x))
    ensures HasYnOperand(Set(e, p, x))
  {
    if |p| > 1 {
      SetYnOperand(op, if p[0] then e.right else e.left, p[1..], x);
    }
  }

  // The value of the whole as the value of one operand and of everything else.
  lemma {:induction false} ValueSplit(op: Op, e: Expr, p: Path, env: Env)
    requires ValidEnv(env) && OnSpine(op, e, p) && ValidPath(e, p)
    ensures Eval(e, env) == Apply(op, Eval(Get(e, p), env), Eval(Set(e, p, Var(Neutral(op))), env))
  {
    if p != [] {
      ValueSplit(op, if p[0] then e.right else e.left, p[1..], env);
    }
  }
}
