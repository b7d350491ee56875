// The recursive-dependency check of tools/kconfig/symbol.c: a depth-first search with two
// flags per symbol and a stack of the symbols being checked.
module SymbolCycles {
  import opened Options
  import opened TristateExpr

  // None is the null expression.
  type Dep = Option<Expr>

  datatype PropKind = Choice | Select | Imply | Default | Other

  datatype Prop = Prop(kind: PropKind, visible: Dep, value: Dep)

  // What the check looks at, in the order in which it does.
  datatype SymbolDeps = SymbolDeps(dirDep: Dep, revDep: Dep, implied: Dep, props: seq<Prop>)

  function SymbolsOf(e: Expr): seq<Symbol> {
    match e
    case Var(s) => [s]
    case Comp(_, l, r) => [l, r]
    case Not(a) => SymbolsOf(a)
    case Bin(_, l, r) => SymbolsOf(l) + SymbolsOf(r)
  }

  function SymbolsIn(d: Dep): seq<Symbol> {
    if d.None? then [] else SymbolsOf(d.value)
  }

  function PropSymbols(p: Prop): seq<Symbol> {
    if p.kind == Choice || p.kind == Select || p.kind == Imply then []
    else if p.kind == Default then SymbolsIn(p.visible) + SymbolsIn(p.value)
    else SymbolsIn(p.visible)
  }

  function PropsSymbols(props: seq<Prop>): seq<Symbol> {
    if props == [] then [] else PropSymbols(props[0]) + PropsSymbols(props[1..])
  }

  lemma {:induction false} InProps(props: seq<Prop>, s: Symbol)
    ensures s in PropsSymbols(props) <==> exists k :: 0 <= k < |props| && s in PropSymbols(props[k])
  {
    if props != [] {
      InProps(props[1..], s);
      if s in PropSymbols(props[0]) {
      } else if k :| 0 <= k < |props| && s in PropSymbols(props[k]) {
        assert props[1..][k - 1] == props[k];
      }
    }
  }

  function Edges(d: SymbolDeps): seq<Symbol> {
    SymbolsIn(d.dirDep) + SymbolsIn(d.revDep) + SymbolsIn(d.implied) + PropsSymbols(d.props)
  }

  // ---- What a symbol depends on ----

  // The symbol stands somewhere in the expression, on either side of a comparison.
  predicate Occurs(s: Symbol, e: Expr) {
    match e
    case Var(t) => t == s
    case Comp(_, l, r) => l == s || r == s
    case Not(a) => Occurs(s, a)
    case Bin(_, l, r) => Occurs(s, l) || Occurs(s, r)
  }

  predicate OccursIn(s: Symbol, d: Dep) {
    d.Some? && Occurs(s, d.value)
  }

  // The condition of a property counts unless it is a choice, select or imply, and so does
  // the value of a default.
  predicate Mentions(p: Prop, s: Symbol) {
    p.kind != Choice && p.kind != Select && p.kind != Imply &&
    (OccursIn(s, p.visible) || (p.kind == Default && OccursIn(s, p.value)))
  }

  ghost predicate DependsOn(d: SymbolDeps, s: Symbol) {
    OccursIn(s, d.dirDep) || OccursIn(s, d.revDep) || OccursIn(s, d.implied) ||
    exists k :: 0 <= k < |d.props| && Mentions(d.props[k], s)
  }

  lemma {:induction false} SymbolsOfSpec(e: Expr, s: Symbol)
    ensures s in SymbolsOf(e) <==> Occurs(s, e)
  {
    match e
    case Not(a) => SymbolsOfSpec(a, s);
    case Bin(_, l, r) =>
      SymbolsOfSpec(l, s);
      SymbolsOfSpec(r, s);
    case _ =>
  }

  lemma SymbolsInSpec(d: Dep, s: Symbol)
    ensures s in SymbolsIn(d) <==> OccursIn(s, d)
  {
    if d.Some? {
      SymbolsOfSpec(d.value, s);
    }
  }

  lemma EdgesSpec(d: SymbolDeps, s: Symbol)
    ensures s in Edges(d) <==> DependsOn(d, s)
  {
    SymbolsInSpec(d.dirDep, s);
    SymbolsInSpec(d.revDep, s);
    SymbolsInSpec(d.implied, s);
    InProps(d.props, s);
    forall k | 0 <= k < |d.props|
      ensures s in PropSymbols(d.props[k]) <==> Mentions(d.props[k], s)
    {
      SymbolsInSpec(d.props[k].visible, s);
      SymbolsInSpec(d.props[k].value, s);
    }
  }

  // Symbols that depend on each other in a circle.
  ghost predicate DependencyCycle(deps: map<Symbol, SymbolDeps>, p: seq<Symbol>) {
    && p != [] && (forall i :: 0 <= i < |p| - 1 ==> DependsOnNext(deps, p, i))
    && p[|p| - 1] in deps && DependsOn(deps[p[|p| - 1]], p[0])
  }

  ghost predicate DependsOnNext(deps: map<Symbol, SymbolDeps>, p: seq<Symbol>, i: nat)
    requires i < |p| - 1
  {
    p[i] in deps && DependsOn(deps[p[i]], p[i + 1])
  }

  // ---- The dependency graph ----

  // The symbols that each symbol depends on.
  type Graph = map<Symbol, seq<Symbol>>

  ghost predicate HasEdges(g: Graph, deps: map<Symbol, SymbolDeps>, s: Symbol) {
    s in g && s in deps && g[s] == Edges(deps[s])
  }

  ghost predicate IsGraphOf(g: Graph, deps: map<Symbol, SymbolDeps>) {
    g.Keys == deps.Keys && forall s {:trigger HasEdges(g, deps, s)} :: s in deps ==> HasEdges(g, deps, s)
  }

  // Every symbol that is mentioned exists.
  ghost predicate Closed(g: Graph) {
    forall s, t :: Edge(g, s, t) ==> t in g
  }

  predicate Edge(g: Graph, s: Symbol, t: Symbol) {
    s in g && t in g[s]
  }

  ghost predicate IsPath(g: Graph, p: seq<Symbol>) {
    forall i :: 0 <= i < |p| - 1 ==> PathStep(g, p, i)
  }

  predicate PathStep(g: Graph, p: seq<Symbol>, i: nat)
    requires i < |p| - 1
  {
    Edge(g, p[i], p[i + 1])
  }

  // A path whose last symbol depends on its first.
  ghost predicate IsCycle(g: Graph, p: seq<Symbol>) {
    p != [] && IsPath(g, p) && Edge(g, p[|p| - 1], p[0])
  }

  ghost predicate OnCycle(g: Graph, s: Symbol) {
    exists p :: IsCycle(g, p) && s in p
  }

  ghost predicate Acyclic(g: Graph) {
    forall p :: !IsCycle(g, p)
  }

  lemma EdgeSpec(g: Graph, deps: map<Symbol, SymbolDeps>, s: Symbol, t: Symbol)
    requires IsGraphOf(g, deps)
    ensures Edge(g, s, t) <==> s in deps && DependsOn(deps[s], t)
  {
    if s in deps {
      assert HasEdges(g, deps, s);
      EdgesSpec(deps[s], t);
    }
  }

  // The cycles of the graph are those of the dependencies.
  lemma CyclesAgree(g: Graph, deps: map<Symbol, SymbolDeps>, p: seq<Symbol>)
    requires IsGraphOf(g, deps)
    ensures IsCycle(g, p) <==> DependencyCycle(deps, p)
  {
    if p != [] {
      forall i | 0 <= i < |p| - 1
        ensures PathStep(g, p, i) <==> DependsOnNext(deps, p, i)
      {
        EdgeSpec(g, deps, p[i], p[i + 1]);
      }
      EdgeSpec(g, deps, p[|p| - 1], p[0]);
    }
  }

  lemma AcyclicSpec(g: Graph, deps: map<Symbol, SymbolDeps>)
    requires IsGraphOf(g, deps)
    ensures Acyclic(g) <==> forall p :: !DependencyCycle(deps, p)
  {
    forall p: seq<Symbol>
      ensures IsCycle(g, p) <==> DependencyCycle(deps, p)
    {
      CyclesAgree(g, deps, p);
    }
  }

  // An edge back into a path closes a cycle.
  lemma EdgeBack(g: Graph, p: seq<Symbol>, k: nat)
    requires IsPath(g, p) && k < |p| && Edge(g, p[|p| - 1], p[k])
    ensures IsCycle(g, p[k..])
  {
    forall i | 0 <= i < |p[k..]| - 1
      ensures PathStep(g, p[k..], i)
    {
      assert PathStep(g, p, k + i);
    }
  }

  // Every symbol of the order depends on earlier ones only.
  ghost predicate Ordered(g: Graph, order: seq<Symbol>) {
    forall i :: 0 <= i < |order| ==> OrderedAt(g, order, i)
  }

  ghost predicate OrderedAt(g: Graph, order: seq<Symbol>, i: nat)
    requires i < |order|
  {
    forall t :: Edge(g, order[i], t) ==> t in order[..i]
  }

  lemma {:induction false} PathDescends(g: Graph, order: seq<Symbol>, p: seq<Symbol>, i: nat, k: nat) returns (j: nat)
    requires Ordered(g, order) && IsPath(g, p) && k < |p| && i < |order| && order[i] == p[0]
    ensures j <= i && order[j] == p[k] && (k > 0 ==> j < i)
  {
    if k == 0 {
      j := i;
    } else {
      var h := PathDescends(g, order, p, i, k - 1);
      assert PathStep(g, p, k - 1) && OrderedAt(g, order, h);
      j :| 0 <= j < h && order[j] == p[k];
    }
  }

  // A graph whose symbols can all be ordered has no cycle: following one forever would
  // descend forever.
  lemma {:induction false} NoCycleFrom(g: Graph, order: seq<Symbol>, p: seq<Symbol>, i: nat)
    requires Ordered(g, order) && IsCycle(g, p) && i < |order| && order[i] == p[0]
    ensures false
    decreases i
  {
    var j := PathDescends(g, order, p, i, |p| - 1);
    assert OrderedAt(g, order, j);
    var h :| 0 <= h < j && order[h] == p[0];
    NoCycleFrom(g, order, p, h);
  }

  lemma OrderedIsAcyclic(g: Graph, order: seq<Symbol>)
    requires Ordered(g, order) && forall s :: s in g && g[s] != [] ==> s in order
    ensures Acyclic(g)
  {
    forall p
      ensures !IsCycle(g, p)
    {
      if IsCycle(g, p) {
        assert p[|p| - 1] in g;
        assert |p| > 1 ==> PathStep(g, p, 0);
        var i :| 0 <= i < |order| && order[i] == p[0];
        NoCycleFrom(g, order, p, i);
      }
    }
  }

  lemma PathExtends(g: Graph, p: seq<Symbol>, s: Symbol)
    requires IsPath(g, p) && NextFrom(g, p, s)
    ensures IsPath(g, p + [s])
  {
    forall i | 0 <= i < |p + [s]| - 1
      ensures PathStep(g, p + [s], i)
    {
      assert i < |p| - 1 ==> PathStep(g, p, i);
    }
  }

  lemma OrderExtends(g: Graph, order: seq<Symbol>, s: Symbol)
    requires Ordered(g, order) && s in g && forall t :: t in g[s] ==> t in order
    ensures Ordered(g, order + [s])
  {
    forall i | 0 <= i < |order + [s]|
      ensures OrderedAt(g, order + [s], i)
    {
      assert (order + [s])[..i] == order[..i];
      if i < |order| {
        assert OrderedAt(g, order, i);
      } else {
        assert order[..i] == order;
      }
    }
  }

  // What a search may look at next: anything to begin with, then what the top depends on.
  ghost predicate NextFrom(g: Graph, stack: seq<Symbol>, s: Symbol) {
    s in g && (stack != [] ==> Edge(g, stack[|stack| - 1], s))
  }

  ghost predicate NextAllFrom(g: Graph, stack: seq<Symbol>, syms: seq<Symbol>) {
    forall s :: s in syms ==> NextFrom(g, stack, s)
  }

  lemma Successors(g: Graph, stack: seq<Symbol>, s: Symbol, syms: seq<Symbol>)
    requires Closed(g) && s in g && stack != [] && stack[|stack| - 1] == s && forall t :: t in syms ==> t in g[s]
    ensures NextAllFrom(g, stack, syms)
  {
    forall t | t in syms
      ensures NextFrom(g, stack, t)
    {
      assert Edge(g, s, t);
    }
  }

  // The flags, the stack and the finished symbols fit together.
  ghost predicate Consistent(g: Graph, check: set<Symbol>, checked: set<Symbol>, stack: seq<Symbol>, done: seq<Symbol>, failed: bool) {
    && Closed(g)
    && (forall s :: s in check <==> s in stack)
    && check <= checked <= g.Keys
    && IsPath(g, stack)
    && (!failed ==> Ordered(g, done) && forall s :: s in done <==> s in checked && s !in check)
  }

  lemma Pushed(g: Graph, check: set<Symbol>, checked: set<Symbol>, stack: seq<Symbol>, done: seq<Symbol>, failed: bool, s: Symbol)
    requires Consistent(g, check, checked, stack, done, failed) && NextFrom(g, stack, s) && s !in checked
    ensures Consistent(g, check + {s}, checked + {s}, stack + [s], done, failed)
  {
    PathExtends(g, stack, s);
  }

  // s is taken off again; without an error everything it depends on is finished.
  lemma Popped(g: Graph, check: set<Symbol>, checked: set<Symbol>, stack: seq<Symbol>, done: seq<Symbol>, failed: bool, s: Symbol, finished: bool)
    requires Consistent(g, check, checked, stack + [s], done, failed) && s !in stack && (failed || finished)
    requires finished ==> !failed && forall t :: t in g[s] ==> t in done
    ensures Consistent(g, check - {s}, checked, stack, if finished then done + [s] else done, failed)
  {
    assert (stack + [s])[|stack|] == s;
    forall i | 0 <= i < |stack| - 1
      ensures PathStep(g, stack, i)
    {
      assert PathStep(g, stack + [s], i);
    }
    if finished {
      OrderExtends(g, done, s);
    }
  }

  class DepChecker {
    const deps: map<Symbol, SymbolDeps>
    ghost const graph: Graph
    // The symbols whose SYMBOL_CHECK and SYMBOL_CHECKED flags are set.
    var check: set<Symbol>
    var checked: set<Symbol>
    // check_top and its prev links, oldest first.
    var stack: seq<Symbol>
    // The symbols finished so far, as long as no cycle has been found.
    ghost var done: seq<Symbol>
    ghost var failed: bool

    constructor (d: map<Symbol, SymbolDeps>, ghost g: Graph)
      requires IsGraphOf(g, d) && Closed(g)
      ensures deps == d && graph == g && Valid() && stack == [] && checked == {} && !failed
    {
      deps, graph, check, checked, stack, done, failed := d, g, {}, {}, [], [], false;
    }

    ghost predicate Valid()
      reads this
    {
      IsGraphOf(graph, deps) && Consistent(graph, check, checked, stack, done, failed)
    }

    // s is a symbol the search follows next from the top of the stack.
    ghost predicate Follows(s: Symbol)
      reads this
    {
      NextFrom(graph, stack, s)
    }

    ghost predicate AllFollow(syms: seq<Symbol>)
      reads this
    {
      NextAllFrom(graph, stack, syms)
    }

    ghost predicate AllDone(syms: seq<Symbol>)
      reads this
    {
      forall s :: s in syms ==> s in done
    }

    // The search for s ended with result r.
    twostate predicate Searched(new r: Option<Symbol>)
      reads this
    {
      && Valid() && check == old(check) && stack == old(stack) && old(checked) <= checked
      && old(done) <= done
      && (if r.None? then failed == old(failed) else failed && OnCycle(graph, r.value))
    }

    // The scan of the stack from its top for a symbol that is being checked.
    method FindOnStack(s: Symbol) returns (k: nat)
      requires s in stack
      ensures k < |stack| && stack[k] == s
    {
      k := |stack| - 1;
      while stack[k] != s
        invariant 0 <= k < |stack| && s in stack[..k + 1]
        decreases k
      {
        assert stack[..k + 1] == stack[..k] + [stack[k]];
        k := k - 1;
      }
    }

    // Reporting a cycle: it is what the stack holds above the repeated symbol.
    method FindCycle(s: Symbol) returns (cycle: seq<Symbol>)
      requires Valid() && s in check && Follows(s)
      ensures IsCycle(graph, cycle) && cycle[0] == s
    {
      var k := FindOnStack(s);
      EdgeBack(graph, stack, k);
      cycle := stack[k..];
    }

    // s is flagged and becomes the top of the stack.
    method Push(s: Symbol)
      requires Valid() && Follows(s) && s !in checked
      modifies `check, `checked, `stack
      ensures Valid() && check == old(check) + {s} && checked == old(checked) + {s} && stack == old(stack) + [s]
    {
      Pushed(graph, check, checked, stack, done, failed, s);
      check, checked, stack := check + {s}, checked + {s}, stack + [s];
    }

    // sym_check_deps, for a symbol that is neither a choice nor a choice value.
    method CheckDeps(s: Symbol) returns (r: Option<Symbol>)
      requires Valid() && Follows(s)
      modifies this
      ensures Searched(r)
      ensures r.None? && !failed ==> s in done
      decreases graph.Keys - checked, 1
    {
      if s in check {
        Report(s);
        return Some(s);
      }
      if s in checked {
        return None;
      }
      Push(s);
      r := CheckSymDeps(s);
      Pop(s, r.None? && !failed);
    }

    // A symbol that is being checked is reached again.
    method Report(s: Symbol)
      requires Valid() && Follows(s) && s in check
      modifies `failed
      ensures failed && Searched(Some(s))
    {
      var cycle := FindCycle(s);
      assert cycle[0] in cycle;
      failed := true;
    }

    // The flag goes and the stack is as before; a symbol without an error is finished.
    method Pop(s: Symbol, ghost finished: bool)
      requires Valid() && stack != [] && stack[|stack| - 1] == s && s !in stack[..|stack| - 1] && (failed || finished)
      requires finished ==> !failed && AllDone(graph[s])
      modifies `check, `stack, `done
      ensures Valid() && check == old(check) - {s} && stack == old(stack[..|stack| - 1])
      ensures done == if finished then old(done) + [s] else old(done)
    {
      ghost var rest := stack[..|stack| - 1];
      assert stack == rest + [s];
      Popped(graph, check, checked, rest, done, failed, s, finished);
      stack := stack[..|stack| - 1];
      check := check - {s};
      done := if finished then done + [s] else done;
    }

    // sym_check_expr_deps: the symbols of an expression, left to right.
    method CheckExprDeps(e: Expr) returns (r: Option<Symbol>)
      requires Valid() && AllFollow(SymbolsOf(e))
      modifies this
      ensures Searched(r)
      ensures r.None? && !failed ==> AllDone(SymbolsOf(e))
      decreases graph.Keys - checked, 2, e
    {
      match e
      case Var(s) => r := CheckDeps(s);
      case Not(a) => r := CheckExprDeps(a);
      case Comp(_, lhs, rhs) =>
        assert SymbolsOf(e) == [lhs, rhs] && lhs in [lhs, rhs] && rhs in [lhs, rhs];
        assert AllFollow([rhs]);
        r := CheckDeps(lhs);
        if r.None? {
          r := CheckDeps(rhs);
        }
      case Bin(_, left, right) =>
        assert AllFollow(SymbolsOf(left)) && AllFollow(SymbolsOf(right));
        r := CheckExprDeps(left);
        if r.None? {
          r := CheckExprDeps(right);
        }
    }

    method CheckDep(d: Dep) returns (r: Option<Symbol>)
      requires Valid() && AllFollow(SymbolsIn(d))
      modifies this
      ensures Searched(r)
      ensures r.None? && !failed ==> AllDone(SymbolsIn(d))
      decreases graph.Keys - checked, 3
    {
      r := None;
      if d.Some? {
        r := CheckExprDeps(d.value);
      }
    }

    // One property: its condition, and the value of a default.
    method CheckProp(p: Prop) returns (r: Option<Symbol>)
      requires Valid() && AllFollow(PropSymbols(p))
      modifies this
      ensures Searched(r)
      ensures r.None? && !failed ==> AllDone(PropSymbols(p))
      decreases graph.Keys - checked, 4
    {
      r := None;
      if p.kind == Choice || p.kind == Select || p.kind == Imply {
        return;
      }
      assert AllFollow(SymbolsIn(p.visible)) && (p.kind == Default ==> AllFollow(SymbolsIn(p.value)));
      r := CheckDep(p.visible);
      if r.None? && p.kind == Default {
        r := CheckDep(p.value);
      }
    }

    method CheckProps(props: seq<Prop>) returns (r: Option<Symbol>)
      requires Valid() && forall k :: 0 <= k < |props| ==> AllFollow(PropSymbols(props[k]))
      modifies this
      ensures Searched(r)
      ensures r.None? && !failed ==> forall k :: 0 <= k < |props| ==> AllDone(PropSymbols(props[k]))
      decreases graph.Keys - checked, 5
    {
      r := None;
      var i := 0;
      while i < |props|
        invariant 0 <= i <= |props| && r.None? && Searched(r)
        invariant !failed ==> forall k :: 0 <= k < i ==> AllDone(PropSymbols(props[k]))
      {
        r := CheckProp(props[i]);
        if r.Some? {
          return;
        }
        i := i + 1;
      }
    }

    // sym_check_sym_deps, with s on top of the stack.
    method CheckSymDeps(s: Symbol) returns (r: Option<Symbol>)
      requires Valid() && s in graph && stack != [] && stack[|stack| - 1] == s
      modifies this
      ensures Searched(r)
      ensures r.None? && !failed ==> AllDone(graph[s])
      decreases graph.Keys - checked, 6
    {
      var d := deps[s];
      assert HasEdges(graph, deps, s);
      forall k | 0 <= k < |d.props|
        ensures AllFollow(PropSymbols(d.props[k]))
      {
        forall t | t in PropSymbols(d.props[k])
          ensures t in Edges(d)
        {
          InProps(d.props, t);
        }
        Successors(graph, stack, s, PropSymbols(d.props[k]));
      }
      Successors(graph, stack, s, SymbolsIn(d.dirDep));
      Successors(graph, stack, s, SymbolsIn(d.revDep));
      Successors(graph, stack, s, SymbolsIn(d.implied));
      r := CheckDep(d.dirDep);
      if r.Some? {
        return;
      }
      r := CheckDep(d.revDep);
      if r.Some? {
        return;
      }
      r := CheckDep(d.implied);
      if r.Some? {
        return;
      }
      r := CheckProps(d.props);
      if r.None? && !failed {
        forall t | t in PropsSymbols(d.props)
          ensures t in done
        {
          InProps(d.props, t);
        }
      }
    }

    // The loop that checks every symbol: errors are reported exactly when there is a cycle,
    // and no symbol is left marked as being checked. y, m and n are in no hash table, so the
    // loop does not visit them; they depend on nothing.
    method CheckAll(symbols: seq<Symbol>) returns (errors: nat)
      requires Valid() && stack == [] && checked == {} && !failed
      requires forall s :: s in symbols ==> s in deps
      requires forall s :: s in deps && s !in symbols ==> Edges(deps[s]) == []
      modifies this
      ensures errors == 0 <==> Acyclic(graph)
      ensures errors == 0 <==> forall p :: !DependencyCycle(deps, p)
      ensures check == {} && stack == [] && Valid()
    {
      AcyclicSpec(graph, deps);
      errors := 0;
      ghost var found: Option<Symbol> := None;
      var i := 0;
      while i < |symbols|
        invariant 0 <= i <= |symbols| && Valid() && stack == [] && check == {}
        invariant errors > 0 <==> failed
        invariant errors > 0 ==> found.Some? && OnCycle(graph, found.value)
        invariant !failed ==> forall k :: 0 <= k < i ==> symbols[k] in done
      {
        var r := CheckDeps(symbols[i]);
        if r.Some? {
          errors := errors + 1;
          found := r;
        }
        i := i + 1;
      }
      if errors == 0 {
        forall s | s in graph && graph[s] != []
          ensures s in done
        {
          assert HasEdges(graph, deps, s);
        }
        OrderedIsAcyclic(graph, done);
      }
    }
  }
}
