// The debugger's expression evaluator (src/utils/expr.c): precedence splitting on token
// ranges, against the tree that the tokens spell.
module ExprEvaluator {
  import opened Options
  import opened Words


  type word = x: int | 0 <= x < WORD

  datatype Operator = Not | Neg | Ref | Mul | Div | Mod | Add | Sub | Eq | Neq | And | Or {
    predicate IsUnary() { Not? || Neg? || Ref? }
  }

  datatype Token = Open | Close | Num(v: word) | Reg(name: string) | Op(op: Operator)

  // Registers by name, and what a safe four-byte read returns.
  datatype Machine = Machine(reg: string -> Option<word>, read: word -> word)

  // Evaluation reports failure, delivers a value, or takes the process down (a division
  // by zero, or an assertion about a token that stands alone).
  datatype Outcome = Failed | Abort | Value(v: word)

  function Prec(op: Operator): nat {
    match op
    case Not | Neg | Ref => 0
    case Mul | Div | Mod => 1
    case Add | Sub => 2
    case Eq | Neq => 4
    case And => 8
    case Or => 9
  }

  function Truth(b: bool): word {
    if b then 1 else 0
  }

  function ApplyUnary(m: Machine, op: Operator, v: word): word
    requires op.IsUnary()
  {
    match op
    case Not => Truth(v == 0)
    case Neg => (WORD - v) % WORD
    case Ref => m.read(v)
  }

  // None for a division by zero.
  function ApplyBinary(op: Operator, a: word, b: word): Option<word>
    requires !op.IsUnary()
  {
    match op
    case Add => Some((a + b) % WORD)
    case Sub => Some((a - b) % WORD)
    case Mul => Some((a * b) % WORD)
    case Div => if b == 0 then None else (DivInRange(a, b); Some(a / b))
    case Mod => if b == 0 then None else Some(a % b)
    case Eq => Some(Truth(a == b))
    case Neq => Some(Truth(a != b))
    case And => Some(Truth(a != 0 && b != 0))
    case Or => Some(Truth(a != 0 || b != 0))
  }

  lemma DivInRange(a: word, b: word)
    requires b > 0
    ensures 0 <= a / b < WORD
  {
    var q := a / b;
    assert a == q * b + a % b;
    ProductAtLeast(q, b);
  }

  lemma ProductAtLeast(q: int, b: int)
    requires q >= 0 && b >= 1
    ensures q * b >= q
  {
  }

  // ---- The dominated operator ----

  // The operator with the lowest binding power outside brackets found so far.
  datatype Found = Found(pos: nat, op: Operator)

  // A later operator takes over when it binds weaker, or equally and is not unary.
  predicate Replaces(best: Option<Found>, op: Operator) {
    best.None? || Prec(best.value.op) < Prec(op) || (Prec(best.value.op) == Prec(op) && !op.IsUnary())
  }

  // Scanning tokens at positions base, base + 1, ...; None when a bracket closes that
  // was not opened.
  function Scan(toks: seq<Token>, base: nat, level: nat, best: Option<Found>): Option<(nat, Option<Found>)> {
    if toks == [] then Some((level, best))
    else match toks[0]
      case Open => Scan(toks[1..], base + 1, level + 1, best)
      case Close => if level == 0 then None else Scan(toks[1..], base + 1, level - 1, best)
      case Op(o) => Scan(toks[1..], base + 1, level, if level == 0 && Replaces(best, o) then Some(Found(base, o)) else best)
      case _ => Scan(toks[1..], base + 1, level, best)
  }

  lemma {:induction false} ScanFound(toks: seq<Token>, base: nat, level: nat, best: Option<Found>)
    ensures var r := Scan(toks, base, level, best);
            r.Some? && r.value.1.Some? ==>
              r.value.1 == best || (base <= r.value.1.value.pos < base + |toks|
                                    && toks[r.value.1.value.pos - base] == Op(r.value.1.value.op))
  {
    if toks != [] {
      var level' := match toks[0] case Open => level + 1 case Close => if level == 0 then 0 else level - 1 case _ => level;
      var best' := if toks[0].Op? && level == 0 && Replaces(best, toks[0].op) then Some(Found(base, toks[0].op)) else best;
      ScanFound(toks[1..], base + 1, level', best');
    }
  }

  function Dominated(toks: seq<Token>): (r: Option<nat>)
    ensures r.Some? ==> r.value < |toks| && toks[r.value].Op?
  {
    ScanFound(toks, 0, 0, None);
    var r := Scan(toks, 0, 0, None);
    if r.Some? && r.value.1.Some? then Some(r.value.1.value.pos) else None
  }

  function Eval(toks: seq<Token>, m: Machine): Outcome
    decreases |toks|
  {
    var n := |toks|;
    if n == 0 then Failed
    else if n == 1 then
      match toks[0]
      case Num(v) => Value(v)
      case Reg(name) => (match m.reg(name) case Some(v) => Value(v) case None => Failed)
      case _ => Abort
    else if toks[0] == Open && toks[n - 1] == Close then Eval(toks[1..n - 1], m)
    else match Dominated(toks)
      case None => Failed
      case Some(k) =>
        if toks[k].op.IsUnary() then UnaryOutcome(m, toks[k].op, Eval(toks[k + 1..], m))
        else BinaryOutcome(toks[k].op, Eval(toks[..k], m), Eval(toks[k + 1..], m))
  }

  function UnaryOutcome(m: Machine, op: Operator, r: Outcome): Outcome
    requires op.IsUnary()
  {
    if r.Value? then Value(ApplyUnary(m, op, r.v)) else r
  }

  // The left operand is evaluated first; without a value the right one is not looked at.
  function BinaryOutcome(op: Operator, a: Outcome, b: Outcome): Outcome
    requires !op.IsUnary()
  {
    if !a.Value? then a
    else if !b.Value? then b
    else match ApplyBinary(op, a.v, b.v)
      case Some(v) => Value(v)
      case None => Abort
  }

  // ---- Trees ----

  datatype Tree =
    | Lit(v: word)
    | Register(name: string)
    | Unary(op: Operator, arg: Tree)
    | Binary(op: Operator, left: Tree, right: Tree)
    | Paren(inner: Tree)

  // How weakly the outermost operator binds; brackets and single tokens bind strongest.
  function Level(t: Tree): int {
    match t
    case Unary(_, _) => 0
    case Binary(op, _, _) => Prec(op)
    case _ => -1
  }

  // Brackets stand wherever precedence and left association need them, and possibly elsewhere.
  predicate WellBracketed(t: Tree) {
    match t
    case Lit(_) => true
    case Register(_) => true
    case Unary(op, a) => op.IsUnary() && Level(a) <= 0 && WellBracketed(a)
    case Binary(op, l, r) =>
      !op.IsUnary() && Level(l) <= Prec(op) && Level(r) < Prec(op) && WellBracketed(l) && WellBracketed(r)
    case Paren(i) => WellBracketed(i)
  }

  function Spell(t: Tree): (s: seq<Token>)
    ensures |s| >= 1
  {
    match t
    case Lit(v) => [Num(v)]
    case Register(name) => [Reg(name)]
    case Unary(op, a) => [Op(op)] + Spell(a)
    case Binary(op, l, r) => Spell(l) + [Op(op)] + Spell(r)
    case Paren(i) => [Open] + Spell(i) + [Close]
  }

  // The tree's value; None when it names an unknown register or divides by zero.
  function Denote(t: Tree, m: Machine): Option<word>
    requires WellBracketed(t)
  {
    match t
    case Lit(v) => Some(v)
    case Register(name) => m.reg(name)
    case Unary(op, a) => (match Denote(a, m) case Some(v) => Some(ApplyUnary(m, op, v)) case None => None)
    case Binary(op, l, r) =>
      (match (Denote(l, m), Denote(r, m))
       case (Some(a), Some(b)) => ApplyBinary(op, a, b)
       case _ => None)
    case Paren(i) => Denote(i, m)
  }

  // The spelling looks bracketed as a whole although it is not.
  predicate Split(t: Tree) {
    t.Binary? && Spell(t)[0] == Open && Spell(t)[|Spell(t)| - 1] == Close
  }

  predicate NeverSplit(t: Tree) {
    match t
    case Unary(_, a) => NeverSplit(a)
    case Binary(_, l, r) => !Split(t) && NeverSplit(l) && NeverSplit(r)
    case Paren(i) => NeverSplit(i)
    case _ => true
  }

  // What the evaluator answers on the spelling of t.
  function Meaning(t: Tree, m: Machine): Outcome
    requires WellBracketed(t)
  {
    match t
    case Lit(v) => Value(v)
    case Register(name) => (match m.reg(name) case Some(v) => Value(v) case None => Failed)
    case Unary(op, a) => UnaryOutcome(m, op, Meaning(a, m))
    case Binary(op, l, r) => if Split(t) then Failed else BinaryOutcome(op, Meaning(l, m), Meaning(r, m))
    case Paren(i) => Meaning(i, m)
  }

  // ---- Scanning a spelling ----

  lemma {:induction false} ScanAppend(a: seq<Token>, b: seq<Token>, base: nat, level: nat, best: Option<Found>)
    ensures Scan(a + b, base, level, best) ==
            match Scan(a, base, level, best) case None => None case Some(s) => Scan(b, base + |a|, s.0, s.1)
  {
    if a == [] {
      assert a + b == b;
    } else {
      assert (a + b)[1..] == a[1..] + b;
      match a[0]
      case Open => ScanAppend(a[1..], b, base + 1, level + 1, best);
      case Close => if level > 0 { ScanAppend(a[1..], b, base + 1, level - 1, best); }
      case Op(o) => ScanAppend(a[1..], b, base + 1, level, if level == 0 && Replaces(best, o) then Some(Found(base, o)) else best);
      case _ => ScanAppend(a[1..], b, base + 1, level, best);
    }
  }

  lemma ScanOne(tok: Token, base: nat, level: nat, best: Option<Found>)
    ensures Scan([tok], base, level, best) ==
            match tok
            case Open => Some((level + 1, best))
            case Close => if level == 0 then None else Some((level - 1, best))
            case Op(o) => Some((level, if level == 0 && Replaces(best, o) then Some(Found(base, o)) else best))
            case _ => Some((level, best))
  {
    assert [tok][1..] == [];
  }

  // Inside brackets a spelling changes nothing.
  lemma {:induction false} ScanInside(t: Tree, base: nat, level: nat, best: Option<Found>)
    requires level > 0
    ensures Scan(Spell(t), base, level, best) == Some((level, best))
    decreases t, 0
  {
    match t
    case Lit(v) => ScanOne(Num(v), base, level, best);
    case Register(n) => ScanOne(Reg(n), base, level, best);
    case Unary(op, a) =>
      ScanOne(Op(op), base, level, best);
      ScanInside(a, base + 1, level, best);
      ScanAppend([Op(op)], Spell(a), base, level, best);
    case Binary(op, l, r) =>
      ScanInside(l, base, level, best);
      ScanOne(Op(op), base + |Spell(l)|, level, best);
      ScanInside(r, base + |Spell(l)| + 1, level, best);
      ScanAppend(Spell(l), [Op(op)], base, level, best);
      ScanAppend(Spell(l) + [Op(op)], Spell(r), base, level, best);
    case Paren(i) => ScanParen(i, base, level, best);
  }

  lemma {:induction false} ScanParen(i: Tree, base: nat, level: nat, best: Option<Found>)
    ensures Scan(Spell(Paren(i)), base, level, best) == Some((level, best))
    decreases i, 1
  {
    ScanOne(Open, base, level, best);
    ScanInside(i, base + 1, level + 1, best);
    ScanOne(Close, base + 1 + |Spell(i)|, level + 1, best);
    ScanAppend([Open], Spell(i), base, level, best);
    ScanAppend([Open] + Spell(i), [Close], base, level, best);
  }

  // Whether t's outer operators leave this candidate in place.
  predicate Keeps(best: Option<Found>, t: Tree) {
    best.Some? && (Level(t) < Prec(best.value.op) || Level(t) <= 0)
  }

  // At the top level a spelling may offer a candidate that binds no weaker than the tree.
  lemma {:induction false} ScanTop(t: Tree, base: nat, best: Option<Found>) returns (best': Option<Found>)
    requires WellBracketed(t)
    ensures Scan(Spell(t), base, 0, best) == Some((0, best'))
    ensures best' == best || (best'.Some? && Prec(best'.value.op) <= Level(t))
    ensures Keeps(best, t) ==> best' == best
    ensures best.None? && t.Unary? ==> best' == Some(Found(base, t.op))
    ensures best.None? && t.Binary? ==> best' == Some(Found(base + |Spell(t.left)|, t.op))
  {
    match t
    case Lit(v) =>
      best' := best;
      ScanOne(Num(v), base, 0, best);
    case Register(n) =>
      best' := best;
      ScanOne(Reg(n), base, 0, best);
    case Unary(op, a) =>
      ScanOne(Op(op), base, 0, best);
      ScanAppend([Op(op)], Spell(a), base, 0, best);
      best' := ScanTop(a, base + 1, if Replaces(best, op) then Some(Found(base, op)) else best);
    case Binary(op, l, r) =>
      var mid := ScanTop(l, base, best);
      var at := base + |Spell(l)|;
      ScanOne(Op(op), at, 0, mid);
      ScanAppend(Spell(l), [Op(op)], base, 0, best);
      ScanAppend(Spell(l) + [Op(op)], Spell(r), base, 0, best);
      best' := ScanTop(r, at + 1, if Replaces(mid, op) then Some(Found(at, op)) else mid);
    case Paren(i) =>
      best' := best;
      ScanParen(i, base, 0, best);
  }

  // The dominated operator of a spelling is the root of its tree.
  lemma RootIsDominated(t: Tree)
    requires WellBracketed(t) && (t.Unary? || t.Binary?)
    ensures Dominated(Spell(t)) == Some(if t.Unary? then 0 else |Spell(t.left)|)
  {
    var best := ScanTop(t, 0, None);
  }

  // A spelling tells the kind of the root, its operator and where that stands.
  lemma SameRoot(t: Tree, u: Tree)
    requires WellBracketed(t) && WellBracketed(u) && Spell(t) == Spell(u)
    ensures t.Unary? ==> u.Unary? && t.op == u.op
    ensures t.Binary? ==> u.Binary? && t.op == u.op && |Spell(t.left)| == |Spell(u.left)|
    ensures t.Paren? ==> u.Paren?
    ensures t.Lit? || t.Register? ==> t == u
  {
    var b := ScanTop(t, 0, None);
    var c := ScanTop(u, 0, None);
    assert b == c;
    if !(t.Unary? || t.Binary?) {
      assert b.None?;
      assert Spell(t)[0] == Spell(u)[0];
    }
  }

  // Precedence, left association and brackets leave only one tree to a spelling.
  lemma {:induction false} SpellingDeterminesTree(t: Tree, u: Tree)
    requires WellBracketed(t) && WellBracketed(u) && Spell(t) == Spell(u)
    ensures t == u
  {
    var s := Spell(t);
    SameRoot(t, u);
    match t
    case Binary(_, l, r) =>
      var n := |Spell(l)|;
      assert s[..n] == Spell(l) && s[n + 1..] == Spell(r);
      assert s[..n] == Spell(u.left) && s[n + 1..] == Spell(u.right);
      SpellingDeterminesTree(l, u.left);
      SpellingDeterminesTree(r, u.right);
    case Unary(_, a) =>
      assert s[1..] == Spell(a) == Spell(u.arg);
      SpellingDeterminesTree(a, u.arg);
    case Paren(i) =>
      assert s[1..|s| - 1] == Spell(i) == Spell(u.inner);
      SpellingDeterminesTree(i, u.inner);
    case Lit(_) =>
    case Register(_) =>
  }

  // ---- Mismatched outer brackets ----

  // A bracket closes that was not opened, whatever the candidates are.
  predicate Falls(toks: seq<Token>, level: nat) {
    Scan(toks, 0, level, None).None?
  }

  lemma {:induction false} FallsAnyhow(toks: seq<Token>, base: nat, level: nat, best: Option<Found>, base': nat, best': Option<Found>)
    ensures Scan(toks, base, level, best).None? == Scan(toks, base', level, best').None?
  {
    if toks != [] {
      match toks[0]
      case Open => FallsAnyhow(toks[1..], base + 1, level + 1, best, base' + 1, best');
      case Close => if level > 0 { FallsAnyhow(toks[1..], base + 1, level - 1, best, base' + 1, best'); }
      case Op(o) =>
        FallsAnyhow(toks[1..], base + 1, level, if level == 0 && Replaces(best, o) then Some(Found(base, o)) else best,
                    base' + 1, if level == 0 && Replaces(best', o) then Some(Found(base', o)) else best');
      case _ => FallsAnyhow(toks[1..], base + 1, level, best, base' + 1, best');
    }
  }

  lemma {:induction false} FallsLower(toks: seq<Token>, level: nat)
    requires Falls(toks, level + 1)
    ensures Falls(toks, level)
  {
    if toks != [] {
      var rest := toks[1..];
      var up := match toks[0] case Open => level + 2 case Close => level case _ => level + 1;
      var down := match toks[0] case Open => level + 1 case Close => if level == 0 then 0 else level - 1 case _ => level;
      StepFalls(toks, level + 1);
      StepFalls(toks, level);
      if !(toks[0] == Close && level == 0) {
        FallsLower(rest, down);
      }
    }
  }

  lemma StepFalls(toks: seq<Token>, level: nat)
    requires toks != []
    ensures Falls(toks, level) <==>
            match toks[0]
            case Open => Falls(toks[1..], level + 1)
            case Close => level == 0 || Falls(toks[1..], level - 1)
            case _ => Falls(toks[1..], level)
  {
    match toks[0]
    case Open => FallsAnyhow(toks[1..], 1, level + 1, None, 0, None);
    case Close => if level > 0 { FallsAnyhow(toks[1..], 1, level - 1, None, 0, None); }
    case Op(o) => FallsAnyhow(toks[1..], 1, level, if level == 0 then Some(Found(0, o)) else None, 0, None);
    case _ => FallsAnyhow(toks[1..], 1, level, None, 0, None);
  }

  // A bracket closes at or before position i that was not opened, and one opens later.
  ghost predicate Mismatched(toks: seq<Token>, i: nat, j: nat) {
    i < j < |toks| && Falls(toks[..i + 1], 0) && toks[j] == Open
  }

  // Such tokens are refused, however many outer brackets are stripped first.
  lemma {:induction false} MismatchedFails(toks: seq<Token>, i: nat, j: nat, m: Machine)
    requires Mismatched(toks, i, j)
    ensures Eval(toks, m) == Failed
    decreases |toks|
  {
    var n := |toks|;
    if toks[0] == Open && toks[n - 1] == Close {
      var inner := toks[1..n - 1];
      StepFalls(toks[..i + 1], 0);
      assert toks[..i + 1][1..] == inner[..i];
      FallsLower(inner[..i], 0);
      assert i > 0;
      MismatchedFails(inner, i - 1, j - 1, m);
    } else {
      ScanAppend(toks[..i + 1], toks[i + 1..], 0, 0, None);
      assert toks == toks[..i + 1] + toks[i + 1..];
    }
  }

  lemma {:induction false} ClosedHasOpen(t: Tree) returns (k: nat)
    requires Spell(t)[|Spell(t)| - 1] == Close
    ensures k < |Spell(t)| - 1 && Spell(t)[k] == Open
  {
    match t
    case Unary(op, a) =>
      k := ClosedHasOpen(a);
      k := k + 1;
    case Binary(op, l, r) =>
      k := ClosedHasOpen(r);
      k := k + |Spell(l)| + 1;
    case Paren(i) => k := 0;
  }

  // Tokens that come down to level 0 from one level up fall when started a level lower.
  lemma {:induction false} DescentFalls(toks: seq<Token>, base: nat, level: nat, best: Option<Found>)
    requires Scan(toks, base, level + 1, best).Some? && Scan(toks, base, level + 1, best).value.0 == 0
    ensures Falls(toks, level)
  {
    StepFalls(toks, level);
    match toks[0]
    case Open => DescentFalls(toks[1..], base + 1, level + 1, best);
    case Close => if level > 0 { DescentFalls(toks[1..], base + 1, level - 1, best); }
    case _ => DescentFalls(toks[1..], base + 1, level, best);
  }

  // What is left of a binary operator's tokens once the outermost two are stripped.
  lemma Stripped(l: seq<Token>, op: Token, r: seq<Token>, k: nat)
    requires |l| >= 1 && k < |r| - 1
    ensures var s := l + [op] + r;
            var inner := s[1..|s| - 1];
            inner[..|l| - 1] == l[1..] && |l| + k < |inner| && inner[|l| + k] == r[k]
  {
  }

  // A tree whose spelling only looks bracketed as a whole is refused.
  lemma SplitFails(t: Tree, m: Machine)
    requires WellBracketed(t) && Split(t)
    ensures Eval(Spell(t), m) == Failed
  {
    var s, sl := Spell(t), Spell(t.left);
    var k := ClosedHasOpen(t.right);
    var inner := s[1..|s| - 1];
    var best := ScanTop(t.left, 0, None);
    assert sl[0] == Open;
    DescentFalls(sl[1..], 1, 0, None);
    Stripped(sl, Op(t.op), Spell(t.right), k);
    assert |sl| >= 2;
    MismatchedFails(inner, |sl| - 2, |sl| + k, m);
  }

  // ---- Evaluating a spelling ----

  lemma Pieces(l: seq<Token>, op: Token, r: seq<Token>)
    ensures var s := l + [op] + r;
            s[..|l|] == l && s[|l|] == op && s[|l| + 1..] == r
  {
  }

  lemma {:induction false} EvalSpelling(t: Tree, m: Machine)
    requires WellBracketed(t)
    ensures Eval(Spell(t), m) == Meaning(t, m)
  {
    var s := Spell(t);
    match t
    case Lit(_) =>
    case Register(_) =>
    case Unary(op, a) =>
      RootIsDominated(t);
      EvalSpelling(a, m);
      assert s[1..] == Spell(a);
    case Binary(op, l, r) =>
      if Split(t) {
        SplitFails(t, m);
      } else {
        RootIsDominated(t);
        EvalSpelling(l, m);
        EvalSpelling(r, m);
        Pieces(Spell(l), Op(op), Spell(r));
      }
    case Paren(i) =>
      EvalSpelling(i, m);
      assert s[1..|s| - 1] == Spell(i);
  }

  lemma {:induction false} MeaningDenotes(t: Tree, m: Machine)
    requires WellBracketed(t)
    ensures Meaning(t, m).Value? <==> Denote(t, m).Some? && NeverSplit(t)
    ensures Meaning(t, m).Value? ==> Denote(t, m) == Some(Meaning(t, m).v)
  {
    match t
    case Lit(_) =>
    case Register(_) =>
    case Unary(_, a) => MeaningDenotes(a, m);
    case Binary(_, l, r) =>
      MeaningDenotes(l, m);
      MeaningDenotes(r, m);
    case Paren(i) => MeaningDenotes(i, m);
  }

  // On the spelling of a tree the evaluator reports success exactly when the tree has a
  // value and no operator's spelling starts and ends with brackets of its own, and then
  // it delivers that value.
  lemma EvaluatorSound(t: Tree, m: Machine)
    requires WellBracketed(t)
    ensures Eval(Spell(t), m).Value? <==> Denote(t, m).Some? && NeverSplit(t)
    ensures Eval(Spell(t), m).Value? ==> Denote(t, m) == Some(Eval(Spell(t), m).v)
  {
    EvalSpelling(t, m);
    MeaningDenotes(t, m);
  }

  // So `(a)+(b)` fails, although the tree has a value.
  lemma BracketedSumFails(a: word, b: word, m: Machine)
    ensures var t := Binary(Add, Paren(Lit(a)), Paren(Lit(b)));
            WellBracketed(t) && Denote(t, m) == Some((a + b) % WORD) && Eval(Spell(t), m) == Failed
  {
    var t := Binary(Add, Paren(Lit(a)), Paren(Lit(b)));
    assert Level(t.left) == Level(t.right) == -1 && Denote(t.left.inner, m) == Some(a) && Denote(t.right.inner, m) == Some(b);
    assert Denote(t.left, m) == Some(a) && Denote(t.right, m) == Some(b);
    assert WellBracketed(t.left.inner) && WellBracketed(t.right.inner);
    assert Split(t);
    EvalSpelling(t, m);
  }

  // ---- Unary marking ----

  // A minus or star stands for negation or a memory read unless an operand precedes it.
  predicate EndsOperand(tok: Token) {
    tok == Close || tok.Num? || tok.Reg?
  }

  function MarkAt(toks: seq<Token>, i: nat): Token
    requires i < |toks|
  {
    if toks[i] == Op(Sub) && (i == 0 || !EndsOperand(toks[i - 1])) then Op(Neg)
    else if toks[i] == Op(Mul) && (i == 0 || !EndsOperand(toks[i - 1])) then Op(Ref)
    else toks[i]
  }

  function Marked(toks: seq<Token>): (r: seq<Token>)
    ensures |r| == |toks| && forall i :: 0 <= i < |toks| ==> r[i] == MarkAt(toks, i)
  {
    seq(|toks|, i requires 0 <= i < |toks| => MarkAt(toks, i))
  }

  // What the tokenizer delivers: it cannot tell the two uses apart.
  function RawToken(tok: Token): Token {
    if tok == Op(Neg) then Op(Sub) else if tok == Op(Ref) then Op(Mul) else tok
  }

  function Raw(toks: seq<Token>): (r: seq<Token>)
    ensures |r| == |toks| && forall i :: 0 <= i < |toks| ==> r[i] == RawToken(toks[i])
  {
    seq(|toks|, i requires 0 <= i < |toks| => RawToken(toks[i]))
  }

  // In a spelling, unary operators are exactly those without an operand before them.
  ghost predicate UnaryPlaced(toks: seq<Token>, i: nat)
    requires i < |toks|
  {
    toks[i].Op? ==> (toks[i].op.IsUnary() <==> i == 0 || !EndsOperand(toks[i - 1]))
  }

  // Putting a binary operator between two operands keeps all unary ones in place.
  lemma PlacedBehind(l: seq<Token>, mid: Token, r: seq<Token>, i: nat)
    requires l != [] && r != [] && i < |l| + 1 + |r| && EndsOperand(l[|l| - 1])
    requires mid.Op? && !mid.op.IsUnary()
    requires if i < |l| then UnaryPlaced(l, i) else i > |l| ==> UnaryPlaced(r, i - |l| - 1)
    ensures UnaryPlaced(l + [mid] + r, i)
  {
    var s := l + [mid] + r;
    if i > |l| {
      assert s[i] == r[i - |l| - 1] && s[i - 1] == if i == |l| + 1 then mid else r[i - |l| - 2];
    }
  }

  lemma PlacedBelow(op: Operator, a: seq<Token>, i: nat)
    requires a != [] && i < 1 + |a| && op.IsUnary() && (i > 0 ==> UnaryPlaced(a, i - 1))
    ensures UnaryPlaced([Op(op)] + a, i)
  {
    var s := [Op(op)] + a;
    if i > 0 {
      assert s[i] == a[i - 1] && s[i - 1] == if i == 1 then Op(op) else a[i - 2];
    }
  }

  lemma PlacedInside(x: seq<Token>, i: nat)
    requires x != [] && i < |x| + 2 && (0 < i <= |x| ==> UnaryPlaced(x, i - 1))
    ensures UnaryPlaced([Open] + x + [Close], i)
  {
    var s := [Open] + x + [Close];
    if 0 < i <= |x| {
      assert s[i] == x[i - 1] && s[i - 1] == if i == 1 then Open else x[i - 2];
    }
  }

  lemma {:induction false} SpellingPlacesUnary(t: Tree, i: nat)
    requires WellBracketed(t) && i < |Spell(t)|
    ensures UnaryPlaced(Spell(t), i)
    ensures EndsOperand(Spell(t)[|Spell(t)| - 1])
  {
    var s := Spell(t);
    match t
    case Lit(_) =>
    case Register(_) =>
    case Unary(op, a) =>
      SpellingPlacesUnary(a, if i > 0 then i - 1 else 0);
      PlacedBelow(op, Spell(a), i);
    case Binary(op, l, r) =>
      var n := |Spell(l)|;
      SpellingPlacesUnary(l, if i < n then i else 0);
      SpellingPlacesUnary(r, if i > n then i - n - 1 else 0);
      PlacedBehind(Spell(l), Op(op), Spell(r), i);
    case Paren(x) =>
      SpellingPlacesUnary(x, if 0 < i <= |Spell(x)| then i - 1 else 0);
      PlacedInside(Spell(x), i);
  }

  lemma MarkUndoesRaw(s: seq<Token>, i: nat)
    requires i < |s| && UnaryPlaced(s, i)
    ensures MarkAt(Raw(s), i) == s[i]
  {
    assert i > 0 ==> EndsOperand(RawToken(s[i - 1])) == EndsOperand(s[i - 1]);
  }

  lemma MarkingRestores(t: Tree)
    requires WellBracketed(t)
    ensures Marked(Raw(Spell(t))) == Spell(t)
  {
    var s := Spell(t);
    forall i | 0 <= i < |s|
      ensures MarkAt(Raw(s), i) == s[i]
    {
      SpellingPlacesUnary(t, i);
      MarkUndoesRaw(s, i);
    }
  }

  // ---- In place, on the token array ----

  method FindDominatedOp(tokens: array<Token>, s: nat, e: nat) returns (r: Option<nat>)
    requires s <= e < tokens.Length
    ensures r == match Dominated(tokens[s..e + 1]) case Some(k) => Some(s + k) case None => None
  {
    ghost var toks := tokens[s..e + 1];
    var level := 0;
    var best: Option<nat> := None;
    ghost var found: Option<Found> := None;
    var i := s;
    while i <= e
      invariant s <= i <= e + 1 && level >= 0
      decreases e + 1 - i
      invariant Scan(toks, 0, 0, None) == Scan(toks[i - s..], i - s, level, found)
      invariant best.Some? <==> found.Some?
      invariant best.Some? ==> s <= best.value < i && best.value == s + found.value.pos && tokens[best.value] == Op(found.value.op)
    {
      match tokens[i] {
        case Open => level := level + 1;
        case Close =>
          if level == 0 {
            return None;
          }
          level := level - 1;
        case Op(op) =>
          if level == 0 && (best.None? || Prec(tokens[best.value].op) < Prec(op) ||
                            (Prec(tokens[best.value].op) == Prec(op) && !op.IsUnary())) {
            best := Some(i);
            found := Some(Found(i - s, op));
          }
        case _ =>
      }
      i := i + 1;
    }
    r := best;
  }

  lemma SplitEval(toks: seq<Token>, k: nat, m: Machine)
    requires |toks| >= 2 && !(toks[0] == Open && toks[|toks| - 1] == Close) && Dominated(toks) == Some(k)
    ensures Eval(toks, m) == if toks[k].op.IsUnary() then UnaryOutcome(m, toks[k].op, Eval(toks[k + 1..], m))
                             else BinaryOutcome(toks[k].op, Eval(toks[..k], m), Eval(toks[k + 1..], m))
  {
  }

  lemma NoSplitEval(toks: seq<Token>, m: Machine)
    requires |toks| >= 2 && !(toks[0] == Open && toks[|toks| - 1] == Close) && Dominated(toks) == None
    ensures Eval(toks, m) == Failed
  {
  }

  // The tokens on both sides of position k of a range.
  lemma RangeAround(all: seq<Token>, s: nat, k: nat, e: nat)
    requires s <= k <= e < |all|
    ensures var toks := all[s..e + 1]; toks[k - s] == all[k] && toks[..k - s] == all[s..k] && toks[k - s + 1..] == all[k + 1..e + 1]
  {
  }

  // Evaluating around the operator at position k.
  method EvalAround(tokens: array<Token>, s: nat, k: nat, e: nat, m: Machine) returns (r: Outcome)
    requires s <= k <= e < tokens.Length && tokens[k].Op?
    ensures var op := tokens[k].op;
            r == if op.IsUnary() then UnaryOutcome(m, op, Eval(tokens[k + 1..e + 1], m))
                 else BinaryOutcome(op, Eval(tokens[s..k], m), Eval(tokens[k + 1..e + 1], m))
    decreases e - s, 0
  {
    var op := tokens[k].op;
    if op.IsUnary() {
      var v := EvalRange(tokens, k + 1, e, m);
      return UnaryOutcome(m, op, v);
    }
    var a := EvalRange(tokens, s, k - 1, m);
    if !a.Value? {
      return a;
    }
    var b := EvalRange(tokens, k + 1, e, m);
    r := BinaryOutcome(op, a, b);
  }

  // A range of two or more tokens that no brackets enclose is split at its dominated operator.
  method EvalSplit(tokens: array<Token>, s: nat, e: nat, m: Machine) returns (r: Outcome)
    requires s < e < tokens.Length && !(tokens[s] == Open && tokens[e] == Close)
    ensures r == Eval(tokens[s..e + 1], m)
    decreases e - s, 1
  {
    ghost var toks := tokens[s..e + 1];
    assert |toks| == e + 1 - s && toks[0] == tokens[s] && toks[|toks| - 1] == tokens[e];
    var d := FindDominatedOp(tokens, s, e);
    if d.None? {
      NoSplitEval(toks, m);
      return Failed;
    }
    var k := d.value;
    SplitEval(toks, k - s, m);
    RangeAround(tokens[..], s, k, e);
    r := EvalAround(tokens, s, k, e, m);
  }

  // The recursion over index ranges; it terminates on every range of any tokens.
  method EvalRange(tokens: array<Token>, s: int, e: int, m: Machine) returns (r: Outcome)
    requires 0 <= s && s <= e + 1 && e < tokens.Length
    ensures r == Eval(tokens[s..e + 1], m)
    decreases e - s, 2
  {
    ghost var toks := tokens[s..e + 1];
    if s > e {
      return Failed;
    }
    if s == e {
      match tokens[s]
      case Num(v) => return Value(v);
      case Reg(name) =>
        var v := m.reg(name);
        return if v.Some? then Value(v.value) else Failed;
      case _ => return Abort;
    }
    assert |toks| == e + 1 - s && toks[0] == tokens[s] && toks[|toks| - 1] == tokens[e];
    if tokens[s] == Open && tokens[e] == Close {
      assert toks[1..|toks| - 1] == tokens[s + 1..e];
      r := EvalRange(tokens, s + 1, e - 1, m);
    } else {
      r := EvalSplit(tokens, s, e, m);
    }
  }

  // The pass of expr over the tokens that marks unary operators, front to back.
  method MarkUnary(tokens: array<Token>)
    modifies tokens
    ensures tokens[..] == Marked(old(tokens[..]))
  {
    ghost var raw := tokens[..];
    var i := 0;
    while i < tokens.Length
      invariant 0 <= i <= tokens.Length
      invariant forall k :: 0 <= k < tokens.Length ==> tokens[k] == if k < i then MarkAt(raw, k) else raw[k]
    {
      if tokens[i] == Op(Sub) {
        if i == 0 || !EndsOperand(tokens[i - 1]) {
          tokens[i] := Op(Neg);
        }
      } else if tokens[i] == Op(Mul) {
        if i == 0 || !EndsOperand(tokens[i - 1]) {
          tokens[i] := Op(Ref);
        }
      }
      i := i + 1;
    }
  }

  // From the tokenizer's output for a tree to the answer.
  method Evaluate(tokens: array<Token>, m: Machine, ghost t: Tree) returns (r: Outcome)
    requires WellBracketed(t) && tokens[..] == Raw(Spell(t))
    modifies tokens
    ensures r.Value? <==> Denote(t, m).Some? && NeverSplit(t)
    ensures r.Value? ==> Denote(t, m) == Some(r.v)
  {
    MarkUnary(tokens);
    MarkingRestores(t);
    assert tokens[0..tokens.Length] == Spell(t);
    r := EvalRange(tokens, 0, tokens.Length - 1, m);
    EvaluatorSound(t, m);
  }
}
