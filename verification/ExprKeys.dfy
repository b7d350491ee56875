// What expr_eq takes for equal (tools/kconfig/expr.c): expressions that differ only in the
// order and grouping of operands inside each level of && and ||.
module ExprKeys {
  import opened TristateExpr
  import opened ExprEquality
  import opened ExprTransform

  // An expression with order and grouping forgotten.
  datatype Key = Leaf(e: Expr) | Negated(k: Key) | Level(op: Op, ks: multiset<Key>)

  function KeyOf(e: Expr): Key
    decreases e, 1
  {
    match e
    case Not(a) => Negated(KeyOf(a))
    case Bin(op, _, _) => Level(op, KeysAt(op, e))
    case _ => Leaf(e)
  }

  // The operands at the level of op.
  function KeysAt(op: Op, e: Expr): multiset<Key>
    decreases e, if IsOp(op, e) then 0 else 2
  {
    if IsOp(op, e) then KeysAt(op, e.left) + KeysAt(op, e.right) else multiset{KeyOf(e)}
  }

  // Neither y nor n is an operand anywhere.
  predicate Plain(e: Expr) {
    match e
    case Not(a) => Plain(a)
    case Bin(_, l, r) => !IsYn(l) && !IsYn(r) && Plain(l) && Plain(r)
    case _ => true
  }

  lemma {:induction false} NormalIsPlain(e: Expr)
    requires NormalForm(e) && !HasYnOperand(e)
    ensures Plain(e)
  {
    match e
    case Bin(_, l, r) =>
      NormalIsPlain(l);
      NormalIsPlain(r);
    case _ =>
  }

  lemma {:induction false} PlainIsFolded(e: Expr)
    requires Plain(e)
    ensures !HasYnOperand(e) && EliminateYn(e) == e
  {
    EliminateYnFolds(e);
    if e.Bin? {
      PlainIsFolded(e.left);
      PlainIsFolded(e.right);
    }
  }

  // ---- A pass over two levels ----

  // Operands of the level are plain, or eliminated already.
  predicate LevelOk(op: Op, e: Expr) {
    if IsOp(op, e) then LevelOk(op, e.left) && LevelOk(op, e.right)
    else e == Var(Neutral(op)) || (!IsYn(e) && Plain(e))
  }

  // The operands not eliminated.
  function KeysLeft(op: Op, e: Expr): multiset<Key> {
    if IsOp(op, e) then KeysLeft(op, e.left) + KeysLeft(op, e.right)
    else if e == Var(Neutral(op)) then multiset{}
    else multiset{KeyOf(e)}
  }

  lemma {:induction false} PlainLevel(op: Op, e: Expr)
    requires Plain(e) && !IsYn(e)
    ensures LevelOk(op, e) && KeysLeft(op, e) == KeysAt(op, e)
  {
    if IsOp(op, e) {
      PlainLevel(op, e.left);
      PlainLevel(op, e.right);
    }
  }

  // What is left when the eliminated operands are folded away.
  lemma {:induction false} FoldedLevel(op: Op, e: Expr)
    requires LevelOk(op, e)
    ensures var x := EliminateYn(e);
            && (x == Var(Neutral(op)) <==> KeysLeft(op, e) == multiset{})
            && (x.Var? && x != Var(Neutral(op)) ==> KeyOf(x) in KeysLeft(op, e))
            && x != Var(Absorbing(op))
  {
    if IsOp(op, e) {
      FoldedLevel(op, e.left);
      FoldedLevel(op, e.right);
    } else {
      PlainIsFolded(e);
    }
  }

  lemma Differences(a: multiset<Key>, b: multiset<Key>, e: multiset<Key>)
    ensures (a - e) + (b - (e - a)) == (a + b) - e
    ensures (e - a) - b == e - (a + b)
  {
  }

  // A pass takes out what the two levels have in common.
  lemma {:induction false} PassSubtracts(op: Op, e1: Expr, e2: Expr)
    requires LevelOk(op, e1) && LevelOk(op, e2)
    ensures var (a, b) := EliminateEq1(op, e1, e2);
            && LevelOk(op, a) && LevelOk(op, b)
            && KeysLeft(op, a) == KeysLeft(op, e1) - KeysLeft(op, e2)
            && KeysLeft(op, b) == KeysLeft(op, e2) - KeysLeft(op, e1)
    decreases Size(e1) + Size(e2), if IsOp(op, e1) || IsOp(op, e2) then 0 else 4
  {
    if IsOp(op, e1) {
      var (l, a) := EliminateEq1(op, e1.left, e2);
      PassSubtracts(op, e1.left, e2);
      PassSubtracts(op, e1.right, a);
      Differences(KeysLeft(op, e1.left), KeysLeft(op, e1.right), KeysLeft(op, e2));
    } else if IsOp(op, e2) {
      var (a, l) := EliminateEq1(op, e1, e2.left);
      PassSubtracts(op, e1, e2.left);
      PassSubtracts(op, a, e2.right);
      Differences(KeysLeft(op, e2.left), KeysLeft(op, e2.right), KeysLeft(op, e1));
    } else {
      LeafResult(op, e1, e2);
      EqualKeys(e1, e2);
      var (a, b) := EliminateEq1(op, e1, e2);
      LeafPass(op, e1, e2, a, b);
    }
  }

  // Two operands that are not levels of op themselves, and what a pass makes of them.
  lemma LeafPass(op: Op, e1: Expr, e2: Expr, a: Expr, b: Expr)
    requires LevelOk(op, e1) && LevelOk(op, e2) && !IsOp(op, e1) && !IsOp(op, e2)
    requires var n := Var(Neutral(op));
             (a, b) == if e1 != n && e2 != n && KeyOf(e1) == KeyOf(e2) then (n, n) else (e1, e2)
    ensures LevelOk(op, a) && LevelOk(op, b)
    ensures KeysLeft(op, a) == KeysLeft(op, e1) - KeysLeft(op, e2)
    ensures KeysLeft(op, b) == KeysLeft(op, e2) - KeysLeft(op, e1)
  {
    if KeyOf(e1) != KeyOf(e2) {
      OtherKeys(KeyOf(e1), KeyOf(e2));
    }
  }

  lemma LeafResult(op: Op, e1: Expr, e2: Expr)
    requires LevelOk(op, e1) && LevelOk(op, e2) && !IsOp(op, e1) && !IsOp(op, e2)
    ensures var n := Var(Neutral(op));
            EliminateEq1(op, e1, e2) == if e1 != n && e2 != n && ExprEq(e1, e2) then (n, n) else (e1, e2)
  {
    if e1.Var? || e2.Var? {
      VarEqualsItselfOnly(e1, e2);
    }
  }

  lemma VarEqualsItselfOnly(e1: Expr, e2: Expr)
    requires e1.Var? || e2.Var?
    ensures ExprEq(e1, e2) <==> e1 == e2
  {
  }

  lemma OtherKeys(k: Key, l: Key)
    requires k != l
    ensures multiset{k} - multiset{l} == multiset{k}
  {
  }

  lemma SubtractBoth(a: multiset<Key>, b: multiset<Key>, k: Key)
    ensures a - b == multiset{} && b - a == multiset{} <==> a == b
    ensures !(k in a - b && k in b - a)
  {
    if a - b == multiset{} && b - a == multiset{} {
      forall x
        ensures a[x] == b[x]
      {
        assert (a - b)[x] == 0 && (b - a)[x] == 0;
      }
    }
  }

  // Where no y or n stands as an operand, expr_eq holds exactly of two expressions that
  // differ in order and grouping only.
  lemma {:induction false} EqualKeys(e1: Expr, e2: Expr)
    requires Plain(e1) && Plain(e2)
    ensures ExprEq(e1, e2) <==> KeyOf(e1) == KeyOf(e2)
    decreases Size(e1) + Size(e2), 2
  {
    if SameType(e1, e2) {
      match e1
      case Not(a) => EqualKeys(a, e2.arg);
      case Bin(op, _, _) => EqualLevels(op, e1, e2);
      case _ =>
    }
  }

  lemma EqualLevels(op: Op, e1: Expr, e2: Expr)
    requires IsOp(op, e1) && IsOp(op, e2) && Plain(e1) && Plain(e2)
    ensures ExprEq(e1, e2) <==> KeysAt(op, e1) == KeysAt(op, e2)
    decreases Size(e1) + Size(e2), 1
  {
    PlainLevel(op, e1);
    PlainLevel(op, e2);
    PassSubtracts(op, e1, e2);
    var (a, b) := EliminateEq1(op, e1, e2);
    FoldedLevel(op, a);
    FoldedLevel(op, b);
    SubtractBoth(KeysAt(op, e1), KeysAt(op, e2), KeyOf(EliminateYn(a)));
  }

  // ---- The superset test ----

  // What one pass leaves of the second level folds to the neutral constant exactly when the
  // first has all its operands.
  lemma PassLeaves(op: Op, e1: Expr, e2: Expr)
    requires Plain(e1) && Plain(e2) && !IsYn(e1) && !IsYn(e2)
    ensures var b := EliminateEq1(op, e1, e2).1;
            && (EliminateYn(b) == Var(Neutral(op)) <==> KeysAt(op, e2) <= KeysAt(op, e1))
            && EliminateYn(b) != Var(Absorbing(op))
  {
    PlainLevel(op, e1);
    PlainLevel(op, e2);
    PassSubtracts(op, e1, e2);
    FoldedLevel(op, EliminateEq1(op, e1, e2).1);
    SubtractAll(KeysAt(op, e2), KeysAt(op, e1));
  }

  lemma SubtractAll(a: multiset<Key>, b: multiset<Key>)
    ensures a - b == multiset{} <==> a <= b
  {
    if a - b == multiset{} {
      forall x
        ensures a[x] <= b[x]
      {
        assert (a - b)[x] == 0;
      }
    }
  }

  lemma {:induction false} SomeKey(op: Op, e: Expr)
    ensures |KeysAt(op, e)| >= 1
    ensures IsOp(op, e) ==> |KeysAt(op, e)| >= 2
  {
    if IsOp(op, e) {
      SomeKey(op, e.left);
      SomeKey(op, e.right);
    }
  }

  // One operand is never all of several.
  lemma OneIsNotAll(op: Op, e1: Expr, e2: Expr)
    requires !IsOp(op, e1) && IsOp(op, e2)
    ensures !(KeysAt(op, e2) <= KeysAt(op, e1))
  {
    SomeKey(op, e2);
    if KeysAt(op, e2) <= KeysAt(op, e1) {
      SubsetSize(KeysAt(op, e2), KeysAt(op, e1));
    }
  }

  lemma SubsetSize(a: multiset<Key>, b: multiset<Key>)
    requires a <= b
    ensures |a| <= |b|
  {
    assert b == a + (b - a);
  }

  // The test of automatic submenu creation: nothing but y is left of dep2 exactly when dep is
  // a conjunction that has every operand of dep2.
  lemma SupersetExactly(dep: Expr, dep2: Expr)
    requires Plain(dep) && Plain(dep2) && !IsYn(dep) && !IsYn(dep2)
    ensures EliminateEq(dep, dep2).1 == Var(SymYes) <==> IsOp(And, dep) && KeysAt(And, dep2) <= KeysAt(And, dep)
  {
    if IsOp(And, dep) {
      PassLeaves(And, dep, dep2);
      AfterAnd(dep, dep2);
    } else if IsOp(Or, dep) {
      PassLeaves(Or, dep, dep2);
      AfterOr(dep, dep2);
    } else if dep2.Bin? {
      PassLeaves(dep2.op, dep, dep2);
      OneIsNotAll(dep2.op, dep, dep2);
    }
  }

  lemma AfterAnd(dep: Expr, dep2: Expr)
    requires IsOp(And, dep) && Plain(dep) && Plain(dep2) && !IsYn(dep2)
    ensures EliminateEq(dep, dep2).1 == Var(SymYes) <==> EliminateYn(EliminateEq1(And, dep, dep2).1) == Var(SymYes)
  {
    var (a, b) := EliminateEq1(And, dep, dep2);
    EliminateEq1Other(And, dep, dep2);
    if !SameType(a, b) && b.Bin? {
      assert (a, b) == (dep, dep2) && IsOp(Or, b);
      PassLeaves(Or, dep, dep2);
      PlainIsFolded(dep2);
    }
  }

  lemma AfterOr(dep: Expr, dep2: Expr)
    requires IsOp(Or, dep) && Plain(dep) && Plain(dep2) && !IsYn(dep2)
    requires EliminateYn(EliminateEq1(Or, dep, dep2).1) != Var(SymYes)
    ensures EliminateEq(dep, dep2).1 != Var(SymYes)
  {
    var (a, b) := EliminateEq1(Or, dep, dep2);
    EliminateEq1Other(Or, dep, dep2);
    if !SameType(a, b) && b.Bin? {
      assert (a, b) == (dep, dep2) && IsOp(And, b);
      PassLeaves(And, dep, dep2);
      OneIsNotAll(And, dep, dep2);
    }
  }

  // ---- Every expression equals itself ----

  // The operands at the level of op, from left to right.
  function Flat(op: Op, e: Expr): (s: seq<Expr>)
    ensures |s| >= 1
  {
    if IsOp(op, e) then Flat(op, e.left) + Flat(op, e.right) else [e]
  }

  // What a pass makes of an operand that finds its equal.
  function Blank(op: Op, e: Expr): Expr {
    if IsYn(e) then e else Var(Neutral(op))
  }

  ghost predicate Blanked(op: Op, s: seq<Expr>, t: seq<Expr>) {
    |t| == |s| && forall i :: 0 <= i < |s| ==> t[i] == Blank(op, s[i])
  }

  ghost predicate AllYn(s: seq<Expr>) {
    forall i :: 0 <= i < |s| ==> IsYn(s[i])
  }

  // y or n finds no equal among any operands.
  lemma {:induction false} YnStays(op: Op, e: Expr, e2: Expr)
    requires IsYn(e)
    ensures EliminateEq1(op, e, e2) == (e, e2)
    decreases e2
  {
    if IsOp(op, e2) {
      YnStays(op, e, e2.left);
      YnStays(op, e, e2.right);
    }
  }

  // An operand finds nothing among y's and n's.
  lemma {:induction false} SkipsYn(op: Op, e: Expr, e2: Expr)
    requires !IsOp(op, e) && AllYn(Flat(op, e2))
    ensures EliminateEq1(op, e, e2) == (e, e2)
    decreases e2
  {
    if IsOp(op, e2) {
      var l, r := Flat(op, e2.left), Flat(op, e2.right);
      assert forall i :: 0 <= i < |l| ==> l[i] == Flat(op, e2)[i];
      assert forall i :: 0 <= i < |r| ==> r[i] == Flat(op, e2)[|l| + i];
      SkipsYn(op, e, e2.left);
      SkipsYn(op, e, e2.right);
    } else {
      assert IsYn(Flat(op, e2)[0]);
    }
  }

  // e stands at position k of s, behind y's and n's only.
  ghost predicate FirstAt(e: Expr, k: nat, s: seq<Expr>) {
    k < |s| && s[k] == e && AllYn(s[..k])
  }

  lemma InFirstPart(e: Expr, k: nat, l: seq<Expr>, r: seq<Expr>, x: Expr)
    requires FirstAt(e, k, l + r) && k < |l|
    ensures FirstAt(e, k, l) && l[k := x] + r == (l + r)[k := x]
  {
    assert l[..k] == (l + r)[..k];
  }

  lemma InSecondPart(e: Expr, k: nat, l: seq<Expr>, r: seq<Expr>, x: Expr)
    requires FirstAt(e, k, l + r) && k >= |l|
    ensures AllYn(l) && FirstAt(e, k - |l|, r) && l + r[k - |l| := x] == (l + r)[k := x]
  {
    assert forall i :: 0 <= i < |l| ==> l[i] == (l + r)[..k][i];
    assert r[..k - |l|] == (l + r)[..k][|l|..];
  }

  // An operand finds the first of its kind behind y's and n's.
  lemma {:induction false} FindsItself(op: Op, e: Expr, e2: Expr, k: nat)
    requires !IsOp(op, e) && !IsYn(e) && FirstAt(e, k, Flat(op, e2)) && ExprEq(e, e)
    ensures var (a, b) := EliminateEq1(op, e, e2);
            a == Var(Neutral(op)) && Flat(op, b) == Flat(op, e2)[k := Var(Neutral(op))]
    decreases e2
  {
    if IsOp(op, e2) {
      var l, r := Flat(op, e2.left), Flat(op, e2.right);
      if k < |l| {
        InFirstPart(e, k, l, r, Var(Neutral(op)));
        FindsItself(op, e, e2.left, k);
        YnStays(op, Var(Neutral(op)), e2.right);
      } else {
        InSecondPart(e, k, l, r, Var(Neutral(op)));
        SkipsYn(op, e, e2.left);
        FindsItself(op, e, e2.right, k - |l|);
      }
    }
  }

  // The operands l at position k of s have become blanks in t, and nothing else has changed.
  ghost predicate Rewritten(op: Op, l: seq<Expr>, k: nat, s: seq<Expr>, t: seq<Expr>) {
    && k + |l| <= |s| == |t|
    && forall i :: 0 <= i < |t| ==> t[i] == if k <= i < k + |l| then Blank(op, l[i - k]) else s[i]
  }

  // The operands l stand at position k of s, behind y's and n's only.
  ghost predicate ComesNext(l: seq<Expr>, k: nat, s: seq<Expr>) {
    && k + |l| <= |s|
    && forall i :: 0 <= i < k + |l| ==> if i < k then IsYn(s[i]) else s[i] == l[i - k]
  }

  // The operands of e1 find themselves one after the other in e2.
  lemma {:induction false} PassOverItself(op: Op, e1: Expr, e2: Expr, k: nat) returns (a: Expr, b: Expr)
    requires ComesNext(Flat(op, e1), k, Flat(op, e2))
    ensures EliminateEq1(op, e1, e2) == (a, b)
    ensures Blanked(op, Flat(op, e1), Flat(op, a)) && Rewritten(op, Flat(op, e1), k, Flat(op, e2), Flat(op, b))
    decreases e1, 4
  {
    if IsOp(op, e1) {
      a, b := LevelOverItself(op, e1, e2, k);
    } else {
      EqualsItself(e1);
      a, b := OneOverItself(op, e1, e2, k);
    }
  }

  lemma {:induction false} LevelOverItself(op: Op, e1: Expr, e2: Expr, k: nat) returns (a: Expr, b: Expr)
    requires IsOp(op, e1) && ComesNext(Flat(op, e1), k, Flat(op, e2))
    ensures EliminateEq1(op, e1, e2) == (a, b)
    ensures Blanked(op, Flat(op, e1), Flat(op, a)) && Rewritten(op, Flat(op, e1), k, Flat(op, e2), Flat(op, b))
    decreases e1, 0
  {
    var l, r := Flat(op, e1.left), Flat(op, e1.right);
    FirstHalf(l, r, k, Flat(op, e2));
    var x, m := PassOverItself(op, e1.left, e2, k);
    SecondHalf(op, l, r, k, Flat(op, e2), Flat(op, m));
    var y, n := PassOverItself(op, e1.right, m, k + |l|);
    JoinBlanks(op, l, r, k, Flat(op, e2), Flat(op, m), Flat(op, n), Flat(op, x), Flat(op, y));
    a, b := Bin(op, x, y), n;
  }

  lemma FirstHalf(l: seq<Expr>, r: seq<Expr>, k: nat, s: seq<Expr>)
    requires ComesNext(l + r, k, s)
    ensures ComesNext(l, k, s)
  {
    forall i | k <= i < k + |l|
      ensures s[i] == l[i - k]
    {
      assert s[i] == (l + r)[i - k];
    }
  }

  lemma SecondHalf(op: Op, l: seq<Expr>, r: seq<Expr>, k: nat, s: seq<Expr>, t: seq<Expr>)
    requires ComesNext(l + r, k, s) && Rewritten(op, l, k, s, t)
    ensures ComesNext(r, k + |l|, t)
  {
    forall i | k + |l| <= i < k + |l| + |r|
      ensures t[i] == r[i - k - |l|]
    {
      assert s[i] == (l + r)[i - k];
    }
  }

  // The blanks that the two halves of a level leave, put together.
  lemma JoinBlanks(op: Op, l: seq<Expr>, r: seq<Expr>, k: nat, s: seq<Expr>, t: seq<Expr>, u: seq<Expr>,
                   x: seq<Expr>, y: seq<Expr>)
    requires Blanked(op, l, x) && Blanked(op, r, y)
    requires Rewritten(op, l, k, s, t) && Rewritten(op, r, k + |l|, t, u)
    ensures Rewritten(op, l + r, k, s, u) && Blanked(op, l + r, x + y)
  {
  }

  lemma OneOverItself(op: Op, e: Expr, e2: Expr, k: nat) returns (a: Expr, b: Expr)
    requires !IsOp(op, e) && ExprEq(e, e) && ComesNext([e], k, Flat(op, e2))
    ensures EliminateEq1(op, e, e2) == (a, b)
    ensures Blanked(op, [e], Flat(op, a)) && Rewritten(op, [e], k, Flat(op, e2), Flat(op, b))
  {
    if IsYn(e) {
      YnStays(op, e, e2);
    } else {
      FindsItself(op, e, e2, k);
    }
    a, b := EliminateEq1(op, e, e2).0, EliminateEq1(op, e, e2).1;
  }

  // A level of nothing but y's and n's folds to one of them, by its operands alone.
  lemma {:induction false} FoldsToYn(op: Op, e: Expr)
    requires AllYn(Flat(op, e))
    ensures EliminateYn(e) == if Var(Absorbing(op)) in Flat(op, e) then Var(Absorbing(op)) else Var(Neutral(op))
  {
    if IsOp(op, e) {
      var l, r := Flat(op, e.left), Flat(op, e.right);
      assert forall i :: 0 <= i < |l| ==> l[i] == Flat(op, e)[i];
      assert forall i :: 0 <= i < |r| ==> r[i] == Flat(op, e)[|l| + i];
      FoldsToYn(op, e.left);
      FoldsToYn(op, e.right);
    } else {
      assert IsYn(Flat(op, e)[0]);
    }
  }

  // expr_eq is reflexive, whatever the expression.
  lemma {:induction false} EqualsItself(e: Expr)
    ensures ExprEq(e, e)
    decreases e, 3
  {
    match e
    case Not(a) => EqualsItself(a);
    case Bin(op, _, _) => LevelEqualsItself(op, e);
    case _ =>
  }

  lemma LevelEqualsItself(op: Op, e: Expr)
    requires IsOp(op, e)
    ensures ExprEq(e, e)
    decreases e, 2
  {
    var a, b := LevelOverItself(op, e, e, 0);
    SameBlanks(op, Flat(op, e), Flat(op, a), Flat(op, b));
    FoldsToYn(op, a);
    FoldsToYn(op, b);
  }

  lemma SameBlanks(op: Op, s: seq<Expr>, t: seq<Expr>, u: seq<Expr>)
    requires Blanked(op, s, t) && Rewritten(op, s, 0, s, u)
    ensures t == u && AllYn(t)
  {
  }

  // ---- Orders that expr_eq does not see through ----

  // One operand against a level of two.
  lemma AgainstTwo(op: Op, e: Expr, l: Expr, r: Expr)
    requires !IsOp(op, e)
    ensures var (a, x) := EliminateEq1(op, e, l);
            var (b, y) := EliminateEq1(op, a, r);
            EliminateEq1(op, e, Bin(op, l, r)) == (b, Bin(op, x, y))
  {
  }

  // Operands of different types, or different symbols, stay as they are.
  lemma Unlike(op: Op, e1: Expr, e2: Expr)
    requires !IsOp(op, e1) && !IsOp(op, e2)
    requires !SameType(e1, e2) || (e1.Var? && e1 != e2)
    ensures EliminateEq1(op, e1, e2) == (e1, e2)
  {
  }

  lemma Alike(op: Op, e1: Expr, e2: Expr)
    requires !IsOp(op, e1) && !IsOp(op, e2) && !IsYn(e1) && ExprEq(e1, e2)
    ensures EliminateEq1(op, e1, e2) == (Var(Neutral(op)), Var(Neutral(op)))
  {
  }

  // Levels of two operands, the pairs compared in the order of expr_eliminate_eq.
  lemma TwoAgainstTwo(op: Op, p: Expr, q: Expr, r: Expr, s: Expr, x: (Expr, Expr, Expr, Expr))
    requires !IsOp(op, p) && !IsOp(op, q)
    requires var (a, c) := EliminateEq1(op, p, r);
             var (b, d) := EliminateEq1(op, a, s);
             var (e, f) := EliminateEq1(op, q, c);
             var (g, h) := EliminateEq1(op, e, d);
             x == (b, g, f, h)
    ensures ExprEq(Bin(op, p, q), Bin(op, r, s)) <==>
            var u, v := EliminateYn(Bin(op, x.0, x.1)), EliminateYn(Bin(op, x.2, x.3)); u.Var? && u == v
  {
    AgainstTwo(op, p, r, s);
    var (a, c) := EliminateEq1(op, p, r);
    var (b, d) := EliminateEq1(op, a, s);
    AgainstTwo(op, q, c, d);
    LevelEq(op, Bin(op, p, q), Bin(op, r, s), Bin(op, x.0, x.1), Bin(op, x.2, x.3));
  }

  function WithY(s: Symbol): Expr {
    Bin(And, Var(s), Var(SymYes))
  }

  // Three ways to write A || B. expr_eq takes neighbours in this list for equal, but not the
  // first and the last.
  function Three(a: Symbol, b: Symbol, k: nat): Expr {
    if k == 0 then Bin(Or, Var(a), Var(b))
    else if k == 1 then Bin(Or, WithY(a), Var(b))
    else Bin(Or, WithY(a), WithY(b))
  }

  lemma FirstIsSecond(a: Symbol, b: Symbol)
    requires a != b && a.Sym? && b.Sym?
    ensures ExprEq(Three(a, b, 0), Three(a, b, 1))
  {
    var x, y, ax, n := Var(a), Var(b), WithY(a), Var(SymNo);
    Unlike(Or, x, ax);
    Unlike(Or, x, y);
    Unlike(Or, y, ax);
    Alike(Or, y, y);
    TwoAgainstTwo(Or, x, y, ax, y, (x, n, ax, n));
    assert EliminateYn(ax) == x;
  }

  lemma SecondIsThird(a: Symbol, b: Symbol)
    requires a != b && a.Sym? && b.Sym?
    ensures ExprEq(Three(a, b, 1), Three(a, b, 2))
  {
    var y, ax, bx, n := Var(b), WithY(a), WithY(b), Var(SymNo);
    EqualsItself(ax);
    Alike(Or, ax, ax);
    Unlike(Or, n, bx);
    Unlike(Or, y, n);
    Unlike(Or, y, bx);
    TwoAgainstTwo(Or, ax, y, ax, bx, (n, y, n, bx));
    assert EliminateYn(bx) == y;
  }

  lemma ThirdIsNotFirst(a: Symbol, b: Symbol)
    requires a != b && a.Sym? && b.Sym?
    ensures !ExprEq(Three(a, b, 2), Three(a, b, 0))
  {
    var x, y, ax, bx := Var(a), Var(b), WithY(a), WithY(b);
    Unlike(Or, ax, x);
    Unlike(Or, ax, y);
    Unlike(Or, bx, x);
    Unlike(Or, bx, y);
    TwoAgainstTwo(Or, ax, bx, x, y, (ax, bx, x, y));
  }

  // (p && q) && r against (r && p) && q, when p finds r first and q finds p.
  lemma ThreeAgainstThree(p: Expr, q: Expr, r: Expr)
    requires IsOp(Or, p) && IsOp(Or, q) && IsOp(Or, r)
    requires ExprEq(p, r) && ExprEq(q, p) && !ExprEq(r, q)
    ensures var n := Var(SymYes);
            EliminateEq1(And, Bin(And, Bin(And, p, q), r), Bin(And, Bin(And, r, p), q)) ==
            (Bin(And, Bin(And, n, n), r), Bin(And, Bin(And, n, n), q))
  {
    var n := Var(SymYes);
    FirstOfThree(p, q, r);
    SecondOfThree(p, q);
    ThirdOfThree(q, r);
  }

  lemma FirstOfThree(p: Expr, q: Expr, r: Expr)
    requires IsOp(Or, p) && IsOp(Or, q) && IsOp(Or, r) && ExprEq(p, r)
    ensures var n := Var(SymYes);
            EliminateEq1(And, p, Bin(And, Bin(And, r, p), q)) == (n, Bin(And, Bin(And, n, p), q))
  {
    var n := Var(SymYes);
    AgainstTwo(And, p, Bin(And, r, p), q);
    AgainstTwo(And, p, r, p);
    Alike(And, p, r);
    Unlike(And, n, p);
    Unlike(And, n, q);
  }

  lemma SecondOfThree(p: Expr, q: Expr)
    requires IsOp(Or, p) && IsOp(Or, q) && ExprEq(q, p)
    ensures var n := Var(SymYes);
            EliminateEq1(And, q, Bin(And, Bin(And, n, p), q)) == (n, Bin(And, Bin(And, n, n), q))
  {
    var n := Var(SymYes);
    AgainstTwo(And, q, Bin(And, n, p), q);
    AgainstTwo(And, q, n, p);
    Unlike(And, q, n);
    Alike(And, q, p);
    Unlike(And, n, q);
  }

  lemma ThirdOfThree(q: Expr, r: Expr)
    requires IsOp(Or, q) && IsOp(Or, r) && !ExprEq(r, q)
    ensures var n := Var(SymYes);
            EliminateEq1(And, r, Bin(And, Bin(And, n, n), q)) == (r, Bin(And, Bin(And, n, n), q))
  {
    var n := Var(SymYes);
    AgainstTwo(And, r, Bin(And, n, n), q);
    AgainstTwo(And, r, n, n);
    Unlike(And, r, n);
  }

  // So with y or n among the operands expr_eq can miss that two expressions differ in the
  // order of their operands only.
  lemma OrderMattersWithY(a: Symbol, b: Symbol)
    requires a != b && a.Sym? && b.Sym?
    ensures var p, q, r := Three(a, b, 1), Three(a, b, 0), Three(a, b, 2);
            var e1, e2 := Bin(And, Bin(And, p, q), r), Bin(And, Bin(And, r, p), q);
            KeyOf(e1) == KeyOf(e2) && !ExprEq(e1, e2)
  {
    var p, q, r := Three(a, b, 1), Three(a, b, 0), Three(a, b, 2);
    FirstIsSecond(a, b);
    SecondIsThird(a, b);
    ThirdIsNotFirst(a, b);
    ThreeAgainstThree(p, q, r);
    SameOperands(p, q, r);
    ThirdFolds(a, b);
    LeftOver(Bin(And, Bin(And, p, q), r), Bin(And, Bin(And, r, p), q), q, r);
  }

  lemma ThirdFolds(a: Symbol, b: Symbol)
    requires a.Sym? && b.Sym?
    ensures EliminateYn(Three(a, b, 2)) == Three(a, b, 0)
  {
    assert EliminateYn(WithY(a)) == Var(a) && EliminateYn(WithY(b)) == Var(b);
  }

  lemma LeftOver(e1: Expr, e2: Expr, q: Expr, r: Expr)
    requires IsOp(And, e1) && IsOp(And, e2)
    requires var n := Var(SymYes);
             EliminateEq1(And, e1, e2) == (Bin(And, Bin(And, n, n), r), Bin(And, Bin(And, n, n), q))
    requires EliminateYn(r).Bin?
    ensures !ExprEq(e1, e2)
  {
    var n := Var(SymYes);
    LevelEq(And, e1, e2, Bin(And, Bin(And, n, n), r), Bin(And, Bin(And, n, n), q));
    assert EliminateYn(Bin(And, n, n)) == n;
    assert EliminateYn(Bin(And, Bin(And, n, n), r)) == EliminateYn(r);
  }

  // expr_eq of two levels, once the pass over them is known.
  lemma LevelEq(op: Op, e1: Expr, e2: Expr, a: Expr, b: Expr)
    requires IsOp(op, e1) && IsOp(op, e2) && EliminateEq1(op, e1, e2) == (a, b)
    ensures ExprEq(e1, e2) <==> EliminateYn(a).Var? && EliminateYn(a) == EliminateYn(b)
  {
  }

  lemma SameOperands(p: Expr, q: Expr, r: Expr)
    ensures KeyOf(Bin(And, Bin(And, p, q), r)) == KeyOf(Bin(And, Bin(And, r, p), q))
  {
    var x, y, z := KeysAt(And, p), KeysAt(And, q), KeysAt(And, r);
    assert KeysAt(And, Bin(And, p, q)) == x + y;
    assert KeysAt(And, Bin(And, r, p)) == z + x;
    assert KeysAt(And, Bin(And, Bin(And, p, q), r)) == x + y + z;
    assert KeysAt(And, Bin(And, Bin(And, r, p), q)) == z + x + y;
    assert x + y + z == z + x + y;
  }
}
