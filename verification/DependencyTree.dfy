// menu_finalize over a whole menu tree (tools/kconfig/menu.c), the dependency part: what
// the conditions of all enclosing entries make of the condition of an entry.
module DependencyTree {
  import opened TristateExpr
  import opened DependencyPropagation

  // The conditions of a tree of entries.
  datatype DepTree = Node(dep: Dep, below: seq<DepTree>)

  // Every condition of `own` was narrowed by the finished condition of its parent.
  ghost predicate Inherited(parentDep: Dep, own: seq<DepTree>, modules: Symbol, r: seq<DepTree>)
    decreases own
  {
    && |r| == |own|
    && forall i: nat :: i < |own| ==> InheritedAt(parentDep, own, modules, r, i)
  }

  ghost predicate InheritedAt(parentDep: Dep, own: seq<DepTree>, modules: Symbol, r: seq<DepTree>, i: nat)
    requires |r| == |own| && i < |own|
    decreases own, 0
  {
    Narrowed(parentDep, own[i].dep, modules, r[i].dep) && Inherited(r[i].dep, own[i].below, modules, r[i].below)
  }

  // The loop over the children of an entry.
  method PropagateToChildren(parentDep: Dep, own: seq<DepTree>, modules: Symbol) returns (deps: seq<Dep>)
    requires NormalDep(parentDep)
    ensures |deps| == |own|
    ensures forall i :: 0 <= i < |own| ==> Narrowed(parentDep, own[i].dep, modules, deps[i])
  {
    deps := [];
    while |deps| < |own|
      invariant |deps| <= |own|
      invariant forall i :: 0 <= i < |deps| ==> Narrowed(parentDep, own[i].dep, modules, deps[i])
    {
      var dep := Narrow(parentDep, own[|deps|].dep, modules);
      deps := deps + [dep];
    }
  }

  // The recursion: all children of an entry are given its condition before any of them
  // passes its own one on.
  method PropagateTree(parentDep: Dep, own: seq<DepTree>, modules: Symbol) returns (r: seq<DepTree>)
    requires NormalDep(parentDep)
    ensures Inherited(parentDep, own, modules, r)
    decreases own
  {
    var deps := PropagateToChildren(parentDep, own, modules);
    r := [];
    while |r| < |own|
      invariant |r| <= |own|
      invariant forall i :: 0 <= i < |r| ==> r[i].dep == deps[i] && Inherited(r[i].dep, own[i].below, modules, r[i].below)
    {
      var below := PropagateTree(deps[|r|], own[|r|].below, modules);
      r := r + [Node(deps[|r|], below)];
    }
  }

  // ---- What it means ----

  // A way down from the top entry, by positions among children.
  predicate ValidWay(below: seq<DepTree>, way: seq<nat>) {
    way == [] || (way[0] < |below| && ValidWay(below[way[0]].below, way[1..]))
  }

  // The conditions on the way, from the child of the top entry on.
  function Lineage(below: seq<DepTree>, way: seq<nat>): (r: seq<Dep>)
    requires ValidWay(below, way)
    ensures |r| == |way|
  {
    if way == [] then [] else [below[way[0]].dep] + Lineage(below[way[0]].below, way[1..])
  }

  // The condition of the entry at the end of the way.
  function ConditionAt(below: seq<DepTree>, way: seq<nat>): Dep
    requires ValidWay(below, way) && way != []
  {
    if |way| == 1 then below[way[0]].dep else ConditionAt(below[way[0]].below, way[1..])
  }

  lemma {:induction false} SameWays(parentDep: Dep, own: seq<DepTree>, modules: Symbol, r: seq<DepTree>, way: seq<nat>)
    requires Inherited(parentDep, own, modules, r) && ValidWay(own, way)
    ensures ValidWay(r, way)
    decreases |way|
  {
    if way != [] {
      assert InheritedAt(parentDep, own, modules, r, way[0]);
      SameWays(r[way[0]].dep, own[way[0]].below, modules, r[way[0]].below, way[1..]);
    }
  }

  // The smallest of top and of the conditions of a line, m being capped at MODULES.
  function Smallest(top: Tristate, line: seq<Dep>, modules: Symbol, env: Env): Tristate {
    if line == [] then top
    else Smallest(Apply(And, top, ValueOf(line[0], CapModules(env, modules))), line[1..], modules, env)
  }

  lemma {:induction false} SmallestIsLeast(top: Tristate, line: seq<Dep>, modules: Symbol, env: Env)
    ensures var r := Smallest(top, line, modules, env);
            && r <= top && (forall d :: d in line ==> r <= ValueOf(d, CapModules(env, modules)))
            && (r == top || exists d :: d in line && r == ValueOf(d, CapModules(env, modules)))
  {
    if line != [] {
      SmallestIsLeast(Apply(And, top, ValueOf(line[0], CapModules(env, modules))), line[1..], modules, env);
    }
  }

  lemma NarrowedFaithful(outer: Dep, own: Dep, modules: Symbol, r: Dep, env: Env)
    requires Narrowed(outer, own, modules, r) && Faithful(outer, env) && Faithful(own, env)
    ensures Faithful(r, env)
    ensures ValueOf(r, env) == Apply(And, ValueOf(outer, env), ValueOf(own, CapModules(env, modules)))
  {
    assert Caps(outer, own, modules, r, env);
    forall p | p in ForeignIn(r)
      ensures env.cmp(p.0, p.1) != 0
    {
      assert p in ForeignIn(outer) || p in ForeignIn(own);
    }
  }

  // The condition of an entry ends up worth the smallest of its own and those of all
  // entries around it, up to the top entry. That holds under every assignment where none of
  // them compares a tristate symbol with a constant other than y, m and n.
  lemma {:induction false} ConditionIsTheSmallest(parentDep: Dep, own: seq<DepTree>, modules: Symbol, r: seq<DepTree>,
                                                  way: seq<nat>, env: Env)
    requires Inherited(parentDep, own, modules, r) && ValidWay(own, way) && way != []
    requires Faithful(parentDep, env) && forall d :: d in Lineage(own, way) ==> Faithful(d, env)
    ensures ValidWay(r, way)
    ensures ValueOf(ConditionAt(r, way), env) == Smallest(ValueOf(parentDep, env), Lineage(own, way), modules, env)
    decreases |way|
  {
    SameWays(parentDep, own, modules, r, way);
    var i := way[0];
    assert InheritedAt(parentDep, own, modules, r, i);
    NarrowedFaithful(parentDep, own[i].dep, modules, r[i].dep, env);
    assert Lineage(own, way)[0] == own[i].dep && Lineage(own, way)[1..] == Lineage(own[i].below, way[1..]);
    if |way| > 1 {
      ConditionIsTheSmallest(r[i].dep, own[i].below, modules, r[i].below, way[1..], env);
    }
  }
}
