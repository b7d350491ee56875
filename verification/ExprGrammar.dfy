// The expressions of the debugger as a grammar with one level per binding strength, each
// binary level associating to the left, and the evaluator's answers on them.
module ExprGrammar {
  import opened Options
  import opened Words
  import opened ExprEvaluator

  datatype Primary = Number(v: word) | Name(name: string) | Bracketed(inner: Expression)
  datatype Factor = Plain(p: Primary) | Bang(f: Factor) | Minus(f: Factor) | Star(f: Factor)
  datatype Term = JustFactor(f: Factor) | Times(l: Term, r: Factor) | Over(l: Term, r: Factor) | Rest(l: Term, r: Factor)
  datatype Sum = JustTerm(t: Term) | Plus(l: Sum, r: Term) | Less(l: Sum, r: Term)
  datatype Comparison = JustSum(s: Sum) | Equal(l: Comparison, r: Sum) | Differ(l: Comparison, r: Sum)
  datatype Conjunction = JustComparison(c: Comparison) | Both(l: Conjunction, r: Comparison)
  datatype Expression = JustConjunction(c: Conjunction) | Either(l: Expression, r: Conjunction)

  // ---- Text: the tokens as the tokenizer delivers them ----

  function PrimaryText(p: Primary): seq<Token> {
    match p
    case Number(v) => [Num(v)]
    case Name(name) => [Reg(name)]
    case Bracketed(e) => [Open] + Text(e) + [Close]
  }

  function FactorText(f: Factor): seq<Token> {
    match f
    case Plain(p) => PrimaryText(p)
    case Bang(g) => [Op(Not)] + FactorText(g)
    case Minus(g) => [Op(Sub)] + FactorText(g)
    case Star(g) => [Op(Mul)] + FactorText(g)
  }

  function TermText(t: Term): seq<Token> {
    match t
    case JustFactor(f) => FactorText(f)
    case Times(l, r) => TermText(l) + [Op(Mul)] + FactorText(r)
    case Over(l, r) => TermText(l) + [Op(Div)] + FactorText(r)
    case Rest(l, r) => TermText(l) + [Op(Mod)] + FactorText(r)
  }

  function SumText(s: Sum): seq<Token> {
    match s
    case JustTerm(t) => TermText(t)
    case Plus(l, r) => SumText(l) + [Op(Add)] + TermText(r)
    case Less(l, r) => SumText(l) + [Op(Sub)] + TermText(r)
  }

  function ComparisonText(c: Comparison): seq<Token> {
    match c
    case JustSum(s) => SumText(s)
    case Equal(l, r) => ComparisonText(l) + [Op(Eq)] + SumText(r)
    case Differ(l, r) => ComparisonText(l) + [Op(Neq)] + SumText(r)
  }

  function ConjunctionText(c: Conjunction): seq<Token> {
    match c
    case JustComparison(d) => ComparisonText(d)
    case Both(l, r) => ConjunctionText(l) + [Op(And)] + ComparisonText(r)
  }

  function Text(e: Expression): seq<Token> {
    match e
    case JustConjunction(c) => ConjunctionText(c)
    case Either(l, r) => Text(l) + [Op(Or)] + ConjunctionText(r)
  }

  // ---- Value: what an expression stands for on a machine ----

  // Words wrap around; a quotient is the one with a remainder below the divisor.

  predicate WordSum(a: word, b: word, v: word) { v == a + b || v + WORD == a + b }
  predicate WordDifference(a: word, b: word, v: word) { v + b == a || v + b == a + WORD }
  ghost predicate WordProduct(a: word, b: word, v: word) { exists k: nat :: a * b == k * WORD + v }
  predicate Division(a: word, b: word, q: nat, r: nat) { r < b && a == q * b + r }
  ghost predicate Quotient(a: word, b: word, v: word) { exists r: nat :: Division(a, b, v, r) }
  ghost predicate Remainder(a: word, b: word, v: word) { exists q: nat :: Division(a, b, q, v) }
  predicate Says(b: bool, v: word) { if b then v == 1 else v == 0 }

  ghost predicate PrimaryIs(p: Primary, m: Machine, v: word) {
    match p
    case Number(n) => v == n
    case Name(name) => m.reg(name) == Some(v)
    case Bracketed(e) => Is(e, m, v)
  }

  ghost predicate FactorIs(f: Factor, m: Machine, v: word) {
    match f
    case Plain(p) => PrimaryIs(p, m, v)
    case Bang(g) => exists a: word :: FactorIs(g, m, a) && Says(a == 0, v)
    case Minus(g) => exists a: word :: FactorIs(g, m, a) && WordDifference(0, a, v)
    case Star(g) => exists a: word :: FactorIs(g, m, a) && v == m.read(a)
  }

  ghost predicate TermIs(t: Term, m: Machine, v: word) {
    match t
    case JustFactor(f) => FactorIs(f, m, v)
    case Times(l, r) => exists a: word, b: word :: TermIs(l, m, a) && FactorIs(r, m, b) && WordProduct(a, b, v)
    case Over(l, r) => exists a: word, b: word :: TermIs(l, m, a) && FactorIs(r, m, b) && Quotient(a, b, v)
    case Rest(l, r) => exists a: word, b: word :: TermIs(l, m, a) && FactorIs(r, m, b) && Remainder(a, b, v)
  }

  ghost predicate SumIs(s: Sum, m: Machine, v: word) {
    match s
    case JustTerm(t) => TermIs(t, m, v)
    case Plus(l, r) => exists a: word, b: word :: SumIs(l, m, a) && TermIs(r, m, b) && WordSum(a, b, v)
    case Less(l, r) => exists a: word, b: word :: SumIs(l, m, a) && TermIs(r, m, b) && WordDifference(a, b, v)
  }

  ghost predicate ComparisonIs(c: Comparison, m: Machine, v: word) {
    match c
    case JustSum(s) => SumIs(s, m, v)
    case Equal(l, r) => exists a: word, b: word :: ComparisonIs(l, m, a) && SumIs(r, m, b) && Says(a == b, v)
    case Differ(l, r) => exists a: word, b: word :: ComparisonIs(l, m, a) && SumIs(r, m, b) && Says(a != b, v)
  }

  ghost predicate ConjunctionIs(c: Conjunction, m: Machine, v: word) {
    match c
    case JustComparison(d) => ComparisonIs(d, m, v)
    case Both(l, r) =>
      exists a: word, b: word :: ConjunctionIs(l, m, a) && ComparisonIs(r, m, b) && Says(a != 0 && b != 0, v)
  }

  ghost predicate Is(e: Expression, m: Machine, v: word) {
    match e
    case JustConjunction(c) => ConjunctionIs(c, m, v)
    case Either(l, r) => exists a: word, b: word :: Is(l, m, a) && ConjunctionIs(r, m, b) && Says(a != 0 || b != 0, v)
  }

  // ---- The trees of the grammar ----

  function PrimaryTree(p: Primary): (t: Tree)
    ensures WellBracketed(t) && Level(t) < 0
  {
    match p
    case Number(v) => Lit(v)
    case Name(name) => Register(name)
    case Bracketed(e) => Paren(TreeOf(e))
  }

  function FactorTree(f: Factor): (t: Tree)
    ensures WellBracketed(t) && Level(t) <= Prec(Not)
  {
    match f
    case Plain(p) => PrimaryTree(p)
    case Bang(g) => Unary(Not, FactorTree(g))
    case Minus(g) => Unary(Neg, FactorTree(g))
    case Star(g) => Unary(Ref, FactorTree(g))
  }

  function TermTree(t: Term): (r: Tree)
    ensures WellBracketed(r) && Level(r) <= Prec(Mul)
  {
    match t
    case JustFactor(f) => FactorTree(f)
    case Times(l, r) => Binary(Mul, TermTree(l), FactorTree(r))
    case Over(l, r) => Binary(Div, TermTree(l), FactorTree(r))
    case Rest(l, r) => Binary(Mod, TermTree(l), FactorTree(r))
  }

  function SumTree(s: Sum): (t: Tree)
    ensures WellBracketed(t) && Level(t) <= Prec(Add)
  {
    match s
    case JustTerm(t) => TermTree(t)
    case Plus(l, r) => Binary(Add, SumTree(l), TermTree(r))
    case Less(l, r) => Binary(Sub, SumTree(l), TermTree(r))
  }

  function ComparisonTree(c: Comparison): (t: Tree)
    ensures WellBracketed(t) && Level(t) <= Prec(Eq)
  {
    match c
    case JustSum(s) => SumTree(s)
    case Equal(l, r) => Binary(Eq, ComparisonTree(l), SumTree(r))
    case Differ(l, r) => Binary(Neq, ComparisonTree(l), SumTree(r))
  }

  function ConjunctionTree(c: Conjunction): (t: Tree)
    ensures WellBracketed(t) && Level(t) <= Prec(And)
  {
    match c
    case JustComparison(d) => ComparisonTree(d)
    case Both(l, r) => Binary(And, ConjunctionTree(l), ComparisonTree(r))
  }

  function TreeOf(e: Expression): (t: Tree)
    ensures WellBracketed(t) && Level(t) <= Prec(Or)
  {
    match e
    case JustConjunction(c) => ConjunctionTree(c)
    case Either(l, r) => Binary(Or, TreeOf(l), ConjunctionTree(r))
  }

  // ---- Text and tree agree ----

  lemma RawJoin(a: seq<Token>, op: Operator, b: seq<Token>)
    requires !op.IsUnary()
    ensures Raw(a + [Op(op)] + b) == Raw(a) + [Op(op)] + Raw(b)
  {
  }

  lemma RawFront(tok: Token, a: seq<Token>)
    ensures Raw([tok] + a) == [RawToken(tok)] + Raw(a)
  {
  }

  lemma RawBrackets(a: seq<Token>)
    ensures Raw([Open] + a + [Close]) == [Open] + Raw(a) + [Close]
  {
  }

  lemma {:induction false} PrimaryTexts(p: Primary)
    ensures Raw(Spell(PrimaryTree(p))) == PrimaryText(p)
  {
    if p.Bracketed? {
      Texts(p.inner);
      RawBrackets(Spell(TreeOf(p.inner)));
    }
  }

  lemma {:induction false} FactorTexts(f: Factor)
    ensures Raw(Spell(FactorTree(f))) == FactorText(f)
  {
    match f
    case Plain(p) => PrimaryTexts(p);
    case Bang(g) => FactorTexts(g); RawFront(Op(Not), Spell(FactorTree(g)));
    case Minus(g) => FactorTexts(g); RawFront(Op(Neg), Spell(FactorTree(g)));
    case Star(g) => FactorTexts(g); RawFront(Op(Ref), Spell(FactorTree(g)));
  }

  lemma {:induction false} TermTexts(t: Term)
    ensures Raw(Spell(TermTree(t))) == TermText(t)
  {
    if t.JustFactor? {
      FactorTexts(t.f);
    } else {
      TermTexts(t.l);
      FactorTexts(t.r);
      RawJoin(Spell(TermTree(t.l)), TermTree(t).op, Spell(FactorTree(t.r)));
    }
  }

  lemma {:induction false} SumTexts(s: Sum)
    ensures Raw(Spell(SumTree(s))) == SumText(s)
  {
    if s.JustTerm? {
      TermTexts(s.t);
    } else {
      SumTexts(s.l);
      TermTexts(s.r);
      RawJoin(Spell(SumTree(s.l)), SumTree(s).op, Spell(TermTree(s.r)));
    }
  }

  lemma {:induction false} ComparisonTexts(c: Comparison)
    ensures Raw(Spell(ComparisonTree(c))) == ComparisonText(c)
  {
    if c.JustSum? {
      SumTexts(c.s);
    } else {
      ComparisonTexts(c.l);
      SumTexts(c.r);
      RawJoin(Spell(ComparisonTree(c.l)), ComparisonTree(c).op, Spell(SumTree(c.r)));
    }
  }

  lemma {:induction false} ConjunctionTexts(c: Conjunction)
    ensures Raw(Spell(ConjunctionTree(c))) == ConjunctionText(c)
  {
    match c
    case JustComparison(d) => ComparisonTexts(d);
    case Both(l, r) =>
      ConjunctionTexts(l);
      ComparisonTexts(r);
      RawJoin(Spell(ConjunctionTree(l)), And, Spell(ComparisonTree(r)));
  }

  lemma {:induction false} Texts(e: Expression)
    ensures Raw(Spell(TreeOf(e))) == Text(e)
  {
    match e
    case JustConjunction(c) => ConjunctionTexts(c);
    case Either(l, r) =>
      Texts(l);
      ConjunctionTexts(r);
      RawJoin(Spell(TreeOf(l)), Or, Spell(ConjunctionTree(r)));
  }

  // ---- Value and tree agree ----

  // What each operator yields.
  ghost predicate Yields(op: Operator, a: word, b: word, v: word)
    requires !op.IsUnary()
  {
    match op
    case Add => WordSum(a, b, v)
    case Sub => WordDifference(a, b, v)
    case Mul => WordProduct(a, b, v)
    case Div => Quotient(a, b, v)
    case Mod => Remainder(a, b, v)
    case Eq => Says(a == b, v)
    case Neq => Says(a != b, v)
    case And => Says(a != 0 && b != 0, v)
    case Or => Says(a != 0 || b != 0, v)
  }

  lemma OneDivision(a: word, b: word, q: nat, r: nat)
    requires Division(a, b, q, r)
    ensures b > 0 && q == a / b && r == a % b
  {
    var d := q - a / b;
    assert d * b == a % b - r;
    if d > 0 { ProductAtLeast(d, b); LeftAtLeast(d, b); }
    if d < 0 { LeftAtLeast(-d, b); }
  }

  lemma LeftAtLeast(d: int, b: int)
    requires d >= 1 && b >= 1
    ensures d * b >= b
  {
  }

  lemma DivisionExists(a: word, b: word)
    requires b > 0
    ensures Division(a, b, a / b, a % b) && a / b < WORD
  {
    DivInRange(a, b);
  }

  lemma DivisionSpec(a: word, b: word, v: word)
    ensures Quotient(a, b, v) <==> b > 0 && v == a / b
    ensures Remainder(a, b, v) <==> b > 0 && v == a % b
  {
    if Quotient(a, b, v) {
      var r: nat :| Division(a, b, v, r);
      OneDivision(a, b, v, r);
    }
    if Remainder(a, b, v) {
      var q: nat :| Division(a, b, q, v);
      OneDivision(a, b, q, v);
    }
    if b > 0 {
      DivisionExists(a, b);
    }
  }

  lemma ProductSpec(a: word, b: word, v: word)
    ensures WordProduct(a, b, v) <==> v == (a * b) % WORD
  {
    ProductNat(a, b);
    var x: nat := a * b;
    assert x == (x / WORD) * WORD + x % WORD;
  }

  lemma ProductNat(a: nat, b: nat)
    ensures a * b >= 0
  {
  }

  lemma OperatorSpec(op: Operator, a: word, b: word, v: word)
    requires !op.IsUnary()
    ensures Yields(op, a, b, v) <==> ApplyBinary(op, a, b) == Some(v)
  {
    match op
    case Mul => ProductSpec(a, b, v);
    case Div => DivisionSpec(a, b, v);
    case Mod => DivisionSpec(a, b, v);
    case _ =>
  }

  // A binary tree denotes v exactly when its operator yields v from what its sides denote.
  lemma BinaryDenotes(op: Operator, l: Tree, r: Tree, m: Machine, v: word)
    requires WellBracketed(Binary(op, l, r))
    ensures Denote(Binary(op, l, r), m) == Some(v) <==>
            Denote(l, m).Some? && Denote(r, m).Some? && Yields(op, Denote(l, m).value, Denote(r, m).value, v)
  {
    if Denote(l, m).Some? && Denote(r, m).Some? {
      OperatorSpec(op, Denote(l, m).value, Denote(r, m).value, v);
    }
  }

  lemma {:induction false} PrimaryDenotes(p: Primary, m: Machine, v: word)
    ensures PrimaryIs(p, m, v) <==> Denote(PrimaryTree(p), m) == Some(v)
  {
    if p.Bracketed? {
      Denotes(p.inner, m, v);
    }
  }

  lemma {:induction false} FactorDenotes(f: Factor, m: Machine, v: word)
    ensures FactorIs(f, m, v) <==> Denote(FactorTree(f), m) == Some(v)
  {
    if f.Plain? {
      PrimaryDenotes(f.p, m, v);
    } else {
      forall a: word
        ensures FactorIs(f.f, m, a) <==> Denote(FactorTree(f.f), m) == Some(a)
      {
        FactorDenotes(f.f, m, a);
      }
    }
  }

  lemma {:induction false} TermDenotes(t: Term, m: Machine, v: word)
    ensures TermIs(t, m, v) <==> Denote(TermTree(t), m) == Some(v)
  {
    if t.JustFactor? {
      FactorDenotes(t.f, m, v);
    } else {
      forall a: word
        ensures TermIs(t.l, m, a) <==> Denote(TermTree(t.l), m) == Some(a)
        ensures FactorIs(t.r, m, a) <==> Denote(FactorTree(t.r), m) == Some(a)
      {
        TermDenotes(t.l, m, a);
        FactorDenotes(t.r, m, a);
      }
      BinaryDenotes(TermTree(t).op, TermTree(t.l), FactorTree(t.r), m, v);
    }
  }

  lemma {:induction false} SumDenotes(s: Sum, m: Machine, v: word)
    ensures SumIs(s, m, v) <==> Denote(SumTree(s), m) == Some(v)
  {
    if s.JustTerm? {
      TermDenotes(s.t, m, v);
    } else {
      forall a: word
        ensures SumIs(s.l, m, a) <==> Denote(SumTree(s.l), m) == Some(a)
        ensures TermIs(s.r, m, a) <==> Denote(TermTree(s.r), m) == Some(a)
      {
        SumDenotes(s.l, m, a);
        TermDenotes(s.r, m, a);
      }
      BinaryDenotes(SumTree(s).op, SumTree(s.l), TermTree(s.r), m, v);
    }
  }

  lemma {:induction false} ComparisonDenotes(c: Comparison, m: Machine, v: word)
    ensures ComparisonIs(c, m, v) <==> Denote(ComparisonTree(c), m) == Some(v)
  {
    if c.JustSum? {
      SumDenotes(c.s, m, v);
    } else {
      forall a: word
        ensures ComparisonIs(c.l, m, a) <==> Denote(ComparisonTree(c.l), m) == Some(a)
        ensures SumIs(c.r, m, a) <==> Denote(SumTree(c.r), m) == Some(a)
      {
        ComparisonDenotes(c.l, m, a);
        SumDenotes(c.r, m, a);
      }
      BinaryDenotes(ComparisonTree(c).op, ComparisonTree(c.l), SumTree(c.r), m, v);
    }
  }

  lemma {:induction false} ConjunctionDenotes(c: Conjunction, m: Machine, v: word)
    ensures ConjunctionIs(c, m, v) <==> Denote(ConjunctionTree(c), m) == Some(v)
  {
    if c.JustComparison? {
      ComparisonDenotes(c.c, m, v);
    } else {
      forall a: word
        ensures ConjunctionIs(c.l, m, a) <==> Denote(ConjunctionTree(c.l), m) == Some(a)
        ensures ComparisonIs(c.r, m, a) <==> Denote(ComparisonTree(c.r), m) == Some(a)
      {
        ConjunctionDenotes(c.l, m, a);
        ComparisonDenotes(c.r, m, a);
      }
      BinaryDenotes(And, ConjunctionTree(c.l), ComparisonTree(c.r), m, v);
    }
  }

  lemma {:induction false} Denotes(e: Expression, m: Machine, v: word)
    ensures Is(e, m, v) <==> Denote(TreeOf(e), m) == Some(v)
  {
    if e.JustConjunction? {
      ConjunctionDenotes(e.c, m, v);
    } else {
      forall a: word
        ensures Is(e.l, m, a) <==> Denote(TreeOf(e.l), m) == Some(a)
        ensures ConjunctionIs(e.r, m, a) <==> Denote(ConjunctionTree(e.r), m) == Some(a)
      {
        Denotes(e.l, m, a);
        ConjunctionDenotes(e.r, m, a);
      }
      BinaryDenotes(Or, TreeOf(e.l), ConjunctionTree(e.r), m, v);
    }
  }

  // An expression stands for one value at most.
  lemma OneValue(e: Expression, m: Machine, v: word, w: word)
    requires Is(e, m, v) && Is(e, m, w)
    ensures v == w
  {
    Denotes(e, m, v);
    Denotes(e, m, w);
  }

  // ---- The evaluator on the grammar ----

  // On the text of an expression the evaluator succeeds exactly when the expression has a
  // value and no operator stands between brackets that seem to enclose it, and then it
  // delivers that value.
  method EvaluateExpression(tokens: array<Token>, m: Machine, ghost e: Expression) returns (r: Outcome)
    requires tokens[..] == Text(e)
    modifies tokens
    ensures r.Value? ==> Is(e, m, r.v)
    ensures r.Value? <==> (exists v: word :: Is(e, m, v)) && NeverSplit(TreeOf(e))
  {
    Texts(e);
    r := Evaluate(tokens, m, TreeOf(e));
    ghost var d := Denote(TreeOf(e), m);
    if d.Some? {
      Denotes(e, m, d.value);
    }
    forall v: word
      ensures Is(e, m, v) <==> d == Some(v)
    {
      Denotes(e, m, v);
    }
  }

  // The same for the specification of the evaluator, from the tokenizer's output on.
  lemma TextEvaluates(e: Expression, m: Machine)
    ensures var r := Eval(Marked(Text(e)), m);
            && (r.Value? ==> Is(e, m, r.v))
            && (r.Value? <==> (exists v: word :: Is(e, m, v)) && NeverSplit(TreeOf(e)))
  {
    Texts(e);
    MarkingRestores(TreeOf(e));
    EvaluatorSound(TreeOf(e), m);
    var d := Denote(TreeOf(e), m);
    forall v: word
      ensures Is(e, m, v) <==> d == Some(v)
    {
      Denotes(e, m, v);
    }
    assert d.Some? ==> Is(e, m, d.value);
  }
}
