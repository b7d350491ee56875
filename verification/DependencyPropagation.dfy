// The dependency part of menu_finalize (tools/kconfig/menu.c): what an entry inherits
// from its parent is simplified, pushed into its properties, and recorded in the symbols
// that the entry selects or implies.
module DependencyPropagation {
  import opened Options
  import opened TristateExpr
  import opened ExprTransform
  import opened ExprDups

  // A dependency; None is the null expression, which always evaluates to y.
  type Dep = Option<Expr>

  function ValueOf(d: Dep, env: Env): Tristate {
    if d.None? then YES else Eval(d.value, env)
  }

  // A reverse dependency; here the null expression holds nothing up, so it counts as n.
  function ReverseValue(d: Dep, env: Env): Tristate {
    if d.None? then NO else Eval(d.value, env)
  }

  ghost predicate NormalDep(d: Dep) {
    d.Some? ==> NormalForm(d.value)
  }

  function ForeignIn(d: Dep): set<(Symbol, Symbol)> {
    if d.None? then {} else ForeignComps(d.value)
  }

  // The assignments under which simplifying d keeps its value: all, unless d compares a
  // tristate symbol with a constant other than y, m and n.
  ghost predicate Faithful(d: Dep, env: Env) {
    ValidEnv(env) && (d.Some? ==> Apart(d.value, env))
  }

  function AllocAnd(a: Dep, b: Dep): Dep {
    if a.None? then b else if b.None? then a else Some(Bin(And, a.value, b.value))
  }

  function AllocOr(a: Dep, b: Dep): Dep {
    if a.None? then b else if b.None? then a else Some(Bin(Or, a.value, b.value))
  }

  // rewrite_m: a plain m becomes m && MODULES; comparisons keep theirs.
  function RewriteM(e: Expr, modules: Symbol): Expr {
    match e
    case Not(a) => Not(RewriteM(a, modules))
    case Bin(op, l, r) => Bin(op, RewriteM(l, modules), RewriteM(r, modules))
    case Var(s) => if s == SymMod then Bin(And, e, Var(modules)) else e
    case Comp(_, _, _) => e
  }

  // The assignment in which a plain m is worth no more than MODULES.
  function CapModules(env: Env, modules: Symbol): Env {
    env.(tri := (s: Symbol) => CappedValue(env, modules, s))
  }

  function CappedValue(env: Env, modules: Symbol, s: Symbol): Tristate {
    if s == SymMod then Apply(And, env.tri(SymMod), env.tri(modules)) else env.tri(s)
  }

  // Without modules a rewritten m counts as n, with them as m.
  lemma {:induction false} RewriteMCapsM(e: Expr, modules: Symbol, env: Env)
    ensures Eval(RewriteM(e, modules), env) == Eval(e, CapModules(env, modules))
  {
    match e
    case Not(a) => RewriteMCapsM(a, modules, env);
    case Bin(_, l, r) =>
      RewriteMCapsM(l, modules, env);
      RewriteMCapsM(r, modules, env);
    case Var(_) =>
    case Comp(_, _, _) =>
  }

  lemma {:induction false} RewriteMForeign(e: Expr, modules: Symbol)
    ensures ForeignComps(RewriteM(e, modules)) == ForeignComps(e)
  {
    match e
    case Not(a) => RewriteMForeign(a, modules);
    case Bin(_, l, r) =>
      RewriteMForeign(l, modules);
      RewriteMForeign(r, modules);
    case Var(_) =>
    case Comp(_, _, _) =>
  }

  // Under env, r is worth the smaller of an inherited condition and an entry's own, m being
  // capped in the latter.
  predicate Caps(outer: Dep, own: Dep, modules: Symbol, r: Dep, env: Env) {
    ValueOf(r, env) == Apply(And, ValueOf(outer, env), ValueOf(own, CapModules(env, modules)))
  }

  // The simplified conjunction of the two.
  ghost predicate Narrowed(outer: Dep, own: Dep, modules: Symbol, r: Dep) {
    && (forall env {:trigger Caps(outer, own, modules, r, env)} ::
          Faithful(outer, env) && Faithful(own, env) ==> Caps(outer, own, modules, r, env))
    && ForeignIn(r) <= ForeignIn(outer) + ForeignIn(own)
    && (NormalDep(outer) ==> NormalDep(r))
  }

  method Narrow(outer: Dep, own: Dep, modules: Symbol) returns (r: Dep)
    ensures Narrowed(outer, own, modules, r)
    ensures r.Some? ==> Settled(r.value) && Distilled(r.value)
  {
    r := own;
    if own.Some? {
      var e := RewriteM(own.value, modules);
      r := Some(Transform(e));
      TransformNormalizes(e);
      TransformForeign(e);
      RewriteMForeign(own.value, modules);
      forall env | ValidEnv(env)
        ensures ValueOf(r, env) == ValueOf(own, CapModules(env, modules))
      {
        TransformPreservesValue(e, env);
        RewriteMCapsM(own.value, modules, env);
      }
    }
    r := AllocAnd(outer, r);
    if r.Some? {
      var simplifier := new Simplifier(r.value);
      simplifier.EliminateDups();
      r := Some(simplifier.root);
    }
  }

  // ---- Entries, properties, symbols ----

  // The reverse dependencies of a symbol that others select (strong) or imply (weak).
  class SymbolEntry {
    const sym: Symbol
    var revDep: Dep
    var implied: Dep

    constructor (s: Symbol)
      ensures sym == s && revDep == None && implied == None
    {
      sym, revDep, implied := s, None, None;
    }
  }

  datatype Kind = Plain | Select(target: SymbolEntry) | Imply(target: SymbolEntry)

  // A property of a symbol, or the prompt of an entry without one. `here` tells whether it
  // belongs to the entry being processed.
  class Property {
    const kind: Kind
    const here: bool
    var visible: Dep

    constructor (k: Kind, h: bool, v: Dep)
      ensures kind == k && here == h && visible == v
    {
      kind, here, visible := k, h, v;
    }
  }

  // The condition of a property once its entry's condition is pushed into it: for a symbol
  // that is not tristate, up to the rounding of m to y that its visibility undergoes, and
  // then without tests of tristate symbols against n; for a tristate symbol, with nothing
  // left to merge.
  ghost predicate Inherits(dep: Dep, own: Dep, modules: Symbol, boolean: bool, r: Dep) {
    && ForeignIn(r) <= ForeignIn(dep) + ForeignIn(own)
    && (r.Some? ==> if boolean then !TestsAgainstNo(r.value) else Distilled(r.value))
    && forall env {:trigger CapsRounded(dep, own, modules, boolean, r, env)} ::
         Faithful(dep, env) && Faithful(own, env) ==> CapsRounded(dep, own, modules, boolean, r, env)
  }

  predicate CapsRounded(dep: Dep, own: Dep, modules: Symbol, boolean: bool, r: Dep, env: Env) {
    if boolean then
      RoundUp(ValueOf(r, env)) == RoundUp(Apply(And, ValueOf(dep, env), ValueOf(own, CapModules(env, modules))))
    else Caps(dep, own, modules, r, env)
  }

  method Inherit(dep: Dep, own: Dep, modules: Symbol, boolean: bool) returns (r: Dep)
    requires NormalDep(dep)
    ensures Inherits(dep, own, modules, boolean, r)
  {
    r := Narrow(dep, own, modules);
    ghost var narrowed := r;
    if boolean && r.Some? {
      NormalFormHasNoNegatedRewrite(r.value);
      TransBoolForeign(r.value);
      TransBoolRemoves(r.value);
      r := Some(TransBool(r.value));
    }
    forall env | Faithful(dep, env) && Faithful(own, env)
      ensures CapsRounded(dep, own, modules, boolean, r, env)
    {
      assert Caps(dep, own, modules, narrowed, env);
      if boolean && narrowed.Some? {
        TransBoolRounded(narrowed.value, env);
      }
    }
  }

  // What a property with this condition adds to the reverse dependency of t.
  function Contribution(p: Property, visible: Dep, t: SymbolEntry, strong: bool, s: Symbol, env: Env): Tristate {
    if p.here && p.kind == (if strong then Select(t) else Imply(t)) then Apply(And, env.tri(s), ValueOf(visible, env)) else NO
  }

  // The greatest contribution of the first properties, given their conditions.
  function Contributed(props: seq<Property>, visible: seq<Dep>, t: SymbolEntry, strong: bool, s: Symbol, env: Env): Tristate
    requires |visible| <= |props|
  {
    if visible == [] then NO
    else
      var k := |visible| - 1;
      Apply(Or, Contributed(props, visible[..k], t, strong, s, env), Contribution(props[k], visible[k], t, strong, s, env))
  }

  // t's reverse dependency grew by what these properties contribute.
  ghost predicate Collected(before: Dep, now: Dep, props: seq<Property>, visible: seq<Dep>, t: SymbolEntry, strong: bool, s: Symbol)
    requires |visible| <= |props|
  {
    forall env :: ReverseValue(now, env) == Apply(Or, ReverseValue(before, env), Contributed(props, visible, t, strong, s, env))
  }

  // It grew by what one property contributes.
  ghost predicate Grown(before: Dep, now: Dep, p: Property, t: SymbolEntry, strong: bool, s: Symbol, visible: Dep) {
    forall env :: ReverseValue(now, env) == Apply(Or, ReverseValue(before, env), Contribution(p, visible, t, strong, s, env))
  }

  lemma CollectOne(before: Dep, mid: Dep, now: Dep, props: seq<Property>, visible: seq<Dep>, d: Dep, t: SymbolEntry, strong: bool, s: Symbol)
    requires |visible| < |props| && Collected(before, mid, props, visible, t, strong, s)
    requires Grown(mid, now, props[|visible|], t, strong, s, d)
    ensures Collected(before, now, props, visible + [d], t, strong, s)
  {
    assert (visible + [d])[..|visible|] == visible;
  }

  lemma GrowByOr(before: Dep, p: Property, t: SymbolEntry, strong: bool, s: Symbol, visible: Dep)
    requires p.here && p.kind == (if strong then Select(t) else Imply(t))
    ensures Grown(before, AllocOr(before, AllocAnd(Some(Var(s)), visible)), p, t, strong, s, visible)
  {
    var own := AllocAnd(Some(Var(s)), visible);
    forall env
      ensures ReverseValue(AllocOr(before, own), env) ==
              Apply(Or, ReverseValue(before, env), Contribution(p, visible, t, strong, s, env))
    {
      assert Eval(Var(s), env) == env.tri(s);
      assert Eval(own.value, env) == Apply(And, env.tri(s), ValueOf(visible, env));
    }
  }

  ghost function Conditions(props: seq<Property>): (r: seq<Dep>)
    reads props
    ensures |r| == |props|
  {
    seq(|props|, i requires 0 <= i < |props| reads props => props[i].visible)
  }

  ghost predicate Distinct(props: seq<Property>) {
    forall i, j :: 0 <= i < j < |props| ==> props[i] != props[j]
  }

  function Targets(props: seq<Property>): (r: set<SymbolEntry>)
    ensures forall p :: p in props && p.kind.Select? ==> p.kind.target in r
    ensures forall p :: p in props && p.kind.Imply? ==> p.kind.target in r
  {
    (set p | p in props && p.kind.Select? :: p.kind.target) + (set p | p in props && p.kind.Imply? :: p.kind.target)
  }

  // One entry of the tree, seen by its parent.
  class Entry {
    const sym: Symbol
    const hasSymbol: bool
    const modules: Symbol
    var dep: Dep
    const props: seq<Property>

    constructor (s: Symbol, has: bool, m: Symbol, d: Dep, ps: seq<Property>)
      ensures sym == s && hasSymbol == has && modules == m && dep == d && props == ps
    {
      sym, hasSymbol, modules, dep, props := s, has, m, d, ps;
    }

    // Only a tristate symbol keeps m apart from y.
    predicate Rounds() {
      hasSymbol && TypeOf(sym) != Tri
    }

    // One property receives the entry's condition and passes it on to its target.
    method Process(p: Property, ghost targets: set<SymbolEntry>)
      requires NormalDep(dep) && p.here
      requires (p.kind.Select? || p.kind.Imply?) ==> p.kind.target in targets
      modifies p, targets
      ensures Inherits(dep, old(p.visible), modules, Rounds(), p.visible)
      ensures forall t :: t in targets ==> Grown(old(t.revDep), t.revDep, p, t, true, sym, p.visible)
      ensures forall t :: t in targets ==> Grown(old(t.implied), t.implied, p, t, false, sym, p.visible)
    {
      p.visible := Inherit(dep, p.visible, modules, Rounds());
      var own := AllocAnd(Some(Var(sym)), p.visible);
      match p.kind {
        case Select(es) =>
          GrowByOr(es.revDep, p, es, true, sym, p.visible);
          es.revDep := AllocOr(es.revDep, own);
        case Imply(es) =>
          GrowByOr(es.implied, p, es, false, sym, p.visible);
          es.implied := AllocOr(es.implied, own);
        case Plain =>
      }
    }

    // A property of another entry is skipped.
    method ProcessIfHere(p: Property, ghost targets: set<SymbolEntry>)
      requires NormalDep(dep)
      requires (p.kind.Select? || p.kind.Imply?) ==> p.kind.target in targets
      modifies p, targets
      ensures if p.here then Inherits(dep, old(p.visible), modules, Rounds(), p.visible) else p.visible == old(p.visible)
      ensures forall t :: t in targets ==> Grown(old(t.revDep), t.revDep, p, t, true, sym, p.visible)
      ensures forall t :: t in targets ==> Grown(old(t.implied), t.implied, p, t, false, sym, p.visible)
    {
      if p.here {
        Process(p, targets);
      }
    }

    // Every property of this entry receives its condition; the reverse dependencies of
    // the targets grow by exactly what the properties contribute.
    method PropagateToProperties()
      requires Distinct(props) && NormalDep(dep)
      modifies props, Targets(props)
      ensures forall p :: p in props && p.here ==> Inherits(dep, old(p.visible), modules, Rounds(), p.visible)
      ensures forall p :: p in props && !p.here ==> p.visible == old(p.visible)
      ensures forall t :: t in Targets(props) ==> Collected(old(t.revDep), t.revDep, props, Conditions(props), t, true, sym)
      ensures forall t :: t in Targets(props) ==> Collected(old(t.implied), t.implied, props, Conditions(props), t, false, sym)
    {
      ghost var targets := Targets(props);
      ghost var seen: seq<Dep> := [];
      var i := 0;
      while i < |props|
        invariant 0 <= i <= |props| && |seen| == i
        invariant forall k :: 0 <= k < i ==> seen[k] == props[k].visible
        invariant forall k :: 0 <= k < i && props[k].here ==> Inherits(dep, old(props[k].visible), modules, Rounds(), props[k].visible)
        invariant forall k :: 0 <= k < |props| && (k >= i || !props[k].here) ==> props[k].visible == old(props[k].visible)
        invariant forall t :: t in targets ==> Collected(old(t.revDep), t.revDep, props, seen, t, true, sym)
        invariant forall t :: t in targets ==> Collected(old(t.implied), t.implied, props, seen, t, false, sym)
      {
        label Start:
        var p := props[i];
        ProcessIfHere(p, targets);
        forall t | t in targets
          ensures Collected(old(t.revDep), t.revDep, props, seen + [p.visible], t, true, sym)
          ensures Collected(old(t.implied), t.implied, props, seen + [p.visible], t, false, sym)
        {
          CollectOne(old(t.revDep), old@Start(t.revDep), t.revDep, props, seen, p.visible, t, true, sym);
          CollectOne(old(t.implied), old@Start(t.implied), t.implied, props, seen, p.visible, t, false, sym);
        }
        seen := seen + [p.visible];
        i := i + 1;
      }
      assert seen == Conditions(props);
    }

    // The body of the loop over the children of a menu: the entry's own condition first,
    // then its properties.
    method Propagate(parentDep: Dep)
      requires Distinct(props) && NormalDep(parentDep)
      modifies this, props, Targets(props)
      ensures Narrowed(parentDep, old(dep), modules, dep) && NormalDep(dep)
      ensures dep.Some? ==> Settled(dep.value) && Distilled(dep.value)
      ensures forall p :: p in props && p.here ==> Inherits(dep, old(p.visible), modules, Rounds(), p.visible)
      ensures forall p :: p in props && !p.here ==> p.visible == old(p.visible)
      ensures forall t :: t in Targets(props) ==> Collected(old(t.revDep), t.revDep, props, Conditions(props), t, true, sym)
      ensures forall t :: t in Targets(props) ==> Collected(old(t.implied), t.implied, props, Conditions(props), t, false, sym)
    {
      dep := Narrow(parentDep, dep, modules);
      PropagateToProperties();
    }
  }
}
