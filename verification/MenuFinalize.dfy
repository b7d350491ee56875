// menu_finalize (tools/kconfig/menu.c) and the walk of conf_write (confdata.c): the menu
// tree as linked nodes, restructured and walked in place. What the dependency tests answer
// is left open: `depends` says of an entry and a later sibling whether the sibling joins it.
// No pair is asked about twice.
module MenuFinalize {
  import opened MenuOrder

  class MenuNode {
    const hasSymbol: bool
    const promptText: bool
    var next: MenuNode?
    var list: MenuNode?
    var parent: MenuNode?

    constructor (sym: bool, text: bool)
      ensures hasSymbol == sym && promptText == text && next == list == parent == null
    {
      hasSymbol, promptText := sym, text;
      next, list, parent := null, null, null;
    }
  }

  ghost predicate Distinct(order: seq<MenuNode>) {
    forall i, j :: 0 <= i < j < |order| ==> order[i] != order[j]
  }

  function NodeAt(order: seq<MenuNode>, k: nat): MenuNode? {
    if k < |order| then order[k] else null
  }

  // Positions of the first child, the next sibling and the parent.
  datatype Link = Link(child: nat, sibling: nat, above: nat)

  ghost function LinksOf(depth: seq<nat>): (r: seq<Link>)
    ensures |r| == |depth|
    ensures forall i :: 0 <= i < |depth| ==> r[i] == Link(Child(depth, i), Sibling(depth, i), Above(depth, i))
  {
    seq(|depth|, i requires 0 <= i < |depth| => Link(Child(depth, i), Sibling(depth, i), Above(depth, i)))
  }

  ghost predicate ForwardAt(order: seq<MenuNode>, links: seq<Link>, i: nat)
    requires i < |order| == |links|
    reads order[i]
  {
    order[i].list == NodeAt(order, links[i].child) && order[i].next == NodeAt(order, links[i].sibling)
  }

  ghost predicate LinkedAt(order: seq<MenuNode>, links: seq<Link>, i: nat)
    requires i < |order| == |links|
    reads order[i]
  {
    ForwardAt(order, links, i) && order[i].parent == NodeAt(order, links[i].above)
  }

  // The marked entries already name another parent.
  ghost predicate MovedAt(order: seq<MenuNode>, links: seq<Link>, i: nat, marked: seq<bool>, parent: MenuNode)
    requires i < |order| == |links| == |marked|
    reads order[i]
  {
    ForwardAt(order, links, i) && order[i].parent == if marked[i] then parent else NodeAt(order, links[i].above)
  }

  ghost predicate LinkedFrom(order: seq<MenuNode>, links: seq<Link>, p: nat)
    requires |order| == |links|
    reads order
  {
    forall i :: p <= i < |order| ==> LinkedAt(order, links, i)
  }

  ghost predicate MovedFrom(order: seq<MenuNode>, links: seq<Link>, p: nat, marked: seq<bool>, parent: MenuNode)
    requires |order| == |links| == |marked|
    reads order
  {
    forall i :: p <= i < |order| ==> MovedAt(order, links, i, marked, parent)
  }

  // The entries between two positions that lie exactly that deep.
  ghost function Level(depth: seq<nat>, level: nat, from: nat, upTo: nat): (r: seq<bool>)
    ensures |r| == |depth|
    ensures forall i :: 0 <= i < |depth| ==> r[i] == (from < i < upTo && depth[i] == level)
  {
    seq(|depth|, i requires 0 <= i < |depth| => from < i < upTo && depth[i] == level)
  }

  ghost function NodesFrom(order: seq<MenuNode>, p: nat): set<MenuNode> {
    set i | p <= i < |order| :: order[i]
  }

  lemma UnnestRun(b: seq<nat>, m: nat, l: nat)
    requires IsTree(b) && 0 < m < |b| && m < l < End(b, m) == End(b, l) && b[l] == b[m] + 1
    ensures var e := End(b, m);
            var a := Unnest(b, m, e);
            IsTree(a) && Run(a, m, e) && LastOf(a, m, e, l) && Nest(a, m, e) == b
  {
    var e := End(b, m);
    assert StepAt(b, m) && StepAt(b, m + 1);
    forall i | 0 < i < |b|
      ensures StepAt(Unnest(b, m, e), i)
    {
      assert StepAt(b, i);
    }
  }

  lemma UnnestLinks(b: seq<nat>, m: nat, l: nat)
    requires IsTree(b) && 0 < m < |b| && m < l < End(b, m) == End(b, l) && b[l] == b[m] + 1
    ensures var e := End(b, m);
            var a := Unnest(b, m, e);
            && IsTree(a) && LinksOf(a)[m].sibling == m + 1
            && AllChange(LinksOf(a), LinksOf(b), m, l, Level(b, b[m] + 1, m, e))
  {
    var e := End(b, m);
    var a := Unnest(b, m, e);
    UnnestRun(b, m, l);
    NestLinks(a, m, e, l, Level(a, a[m], m, e));
    assert LinkChange(LinksOf(a), LinksOf(b), m, l, Level(b, b[m] + 1, m, e), m);
  }

  // A run that has been walked is nested below p.
  lemma NestIsTree(a: seq<nat>, p: nat, e: nat)
    requires IsTree(a) && Run(a, p, e)
    ensures IsTree(Nest(a, p, e)) && End(Nest(a, p, e), p) == e
    ensures ChangedWithin(a, Nest(a, p, e), p, e)
  {
    forall i | 0 < i < |a|
      ensures StepAt(Nest(a, p, e), i)
    {
      assert StepAt(a, i);
    }
    EndIs(Nest(a, p, e), p, e);
  }

  // ---- Walking the children of p ----

  lemma FirstChild(depth: seq<nat>, p: nat)
    requires IsTree(depth) && p < |depth|
    ensures var e := End(depth, p);
            && LinksOf(depth)[p].child == (if p + 1 < e then p + 1 else |depth|)
            && (p + 1 < e ==> depth[p + 1] == depth[p] + 1)
  {
    assert p + 1 < |depth| ==> StepAt(depth, p + 1);
  }

  lemma NextChild(depth: seq<nat>, p: nat, m: nat)
    requires IsTree(depth) && p < |depth| && p < m < End(depth, p) && depth[m] == depth[p] + 1
    ensures var e, f := End(depth, p), End(depth, m);
            && f <= e && LinksOf(depth)[m].sibling == (if f < e then f else |depth|)
            && (f < e ==> depth[f] == depth[p] + 1)
    ensures Above(depth, m) == p
  {
    AboveIs(depth, m, p);
  }

  // Changes below a child of p stay below p.
  lemma ChangesBelow(a: seq<nat>, b: seq<nat>, c: seq<nat>, p: nat, e: nat, m: nat)
    requires ChangedWithin(a, b, p, e) && e == End(b, p) && p < m < e && |b| == |c| && ChangedWithin(b, c, m, End(c, m))
    ensures ChangedWithin(a, c, p, e) && End(c, p) == e
  {
    var f := End(c, m);
    assert e < |b| ==> b[e] <= b[p] < b[m];
    assert f <= e;
    EndIs(c, p, e);
  }

  lemma ChangesTwice(a: seq<nat>, b: seq<nat>, c: seq<nat>, p: nat, e: nat)
    requires ChangedWithin(a, b, p, e) && ChangedWithin(b, c, p, e)
    ensures ChangedWithin(a, c, p, e)
  {
  }

  lemma NoChange(a: seq<nat>, p: nat)
    requires p < |a|
    ensures ChangedWithin(a, a, p, End(a, p))
  {
  }

  lemma UnnestChanges(b: seq<nat>, m: nat)
    requires m < |b|
    ensures var a := Unnest(b, m, End(b, m));
            m < End(a, m) <= End(b, m) && ChangedWithinLoosely(b, a, m, End(b, m))
  {
  }

  // As ChangedWithin, but entries may come up to the level of m.
  ghost predicate ChangedWithinLoosely(a: seq<nat>, b: seq<nat>, m: nat, e: nat) {
    && |a| == |b| && m < e <= |a|
    && (forall k :: 0 <= k < |a| && !(m < k < e) ==> b[k] == a[k])
    && (forall k :: m < k < e ==> a[k] >= a[m] && b[k] >= a[m])
    && (e < |a| ==> a[e] <= a[m])
  }

  lemma LooseChangesBelow(a: seq<nat>, b: seq<nat>, c: seq<nat>, p: nat, e: nat, m: nat, f: nat)
    requires ChangedWithin(a, b, p, e) && e == End(b, p) && p < m < e && ChangedWithinLoosely(b, c, m, f)
    requires b[m] == b[p] + 1
    ensures ChangedWithin(a, c, p, e) && End(c, p) == e
  {
    assert e < |b| ==> b[e] <= b[p] < b[m];
    assert f <= e;
    EndIs(c, p, e);
  }

  // ---- The siblings that p absorbs ----

  // The entries after p up to m have been absorbed; l is the last of them at p's level.
  ghost predicate Absorbed(a: seq<nat>, p: nat, m: nat, l: nat) {
    && p < m <= |a|
    && (forall k :: p < k < m ==> a[k] >= a[p])
    && (m < |a| ==> a[m] <= a[p])
    && (m > p + 1 ==> a[p + 1] == a[p] && LastOf(a, p, m, l))
  }

  lemma NothingAbsorbed(a: seq<nat>, p: nat)
    requires IsTree(a) && p < |a| && LinksOf(a)[p].child == |a|
    ensures Absorbed(a, p, p + 1, p) && ChangedWithinLoosely(a, a, p, p + 1)
    ensures LinksOf(a)[p].sibling == if p + 1 < |a| && a[p + 1] == a[p] then p + 1 else |a|
    ensures true !in Level(a, a[p], p, p + 1)
  {
    EndIs(a, p, p + 1);
  }

  lemma AbsorbStep(d: seq<nat>, a: seq<nat>, b: seq<nat>, p: nat, m: nat, l: nat)
    requires Absorbed(a, p, m, l) && ChangedWithinLoosely(d, a, p, m) && m < |a| && a[m] == a[p]
    requires |a| == |b| && ChangedWithin(a, b, m, End(b, m))
    ensures Absorbed(b, p, End(b, m), m) && ChangedWithinLoosely(d, b, p, End(b, m))
    ensures Level(b, b[p], p, End(b, m)) == Level(b, b[p], p, m)[m := true]
    ensures Level(b, b[p], p, m) == Level(a, a[p], p, m)
  {
  }

  lemma AbsorbedAll(d: seq<nat>, a: seq<nat>, p: nat, m: nat, l: nat)
    requires IsTree(a) && Absorbed(a, p, m, l) && ChangedWithinLoosely(d, a, p, m) && m > p + 1
    ensures var b := Nest(a, p, m);
            && IsTree(b) && End(b, p) == m && ChangedWithin(d, b, p, m)
            && AllChange(LinksOf(a), LinksOf(b), p, l, Level(a, a[p], p, m))
  {
    NestIsTree(a, p, m);
    NestLinks(a, p, m, l, Level(a, a[p], p, m));
  }

  lemma AbsorbedNone(d: seq<nat>, a: seq<nat>, p: nat, l: nat)
    requires Absorbed(a, p, p + 1, l) && ChangedWithinLoosely(d, a, p, p + 1)
    ensures End(a, p) == p + 1 && ChangedWithin(d, a, p, p + 1)
  {
    EndIs(a, p, p + 1);
  }

  lemma NoneMoved(order: seq<MenuNode>, links: seq<Link>, p: nat, marked: seq<bool>, parent: MenuNode)
    requires |order| == |links| == |marked| && LinkedFrom(order, links, p)
    requires true !in marked
    ensures MovedFrom(order, links, p, marked, parent)
  {
    forall i | p <= i < |order|
      ensures MovedAt(order, links, i, marked, parent)
    {
      assert LinkedAt(order, links, i);
    }
  }

  // One more entry of the level is passed.
  lemma LevelStep(depth: seq<nat>, level: nat, from: nat, l: nat)
    requires from < l < |depth| && depth[l] == level
    ensures Level(depth, level, from, End(depth, l)) == Level(depth, level, from, l)[l := true]
  {
  }

  // How links differ between p having its submenu (bs) and not having it (as): l is the
  // last entry at the top level of the submenu, and that level is marked.
  ghost predicate LinkChange(as_: seq<Link>, bs: seq<Link>, p: nat, l: nat, marked: seq<bool>, i: nat)
    requires |as_| == |bs| == |marked| && p < |bs| && l < |bs| && i < |bs|
  {
    && bs[i] == Link(if i == p then p + 1 else as_[i].child,
                     if i == p then as_[l].sibling else if i == l then |bs| else as_[i].sibling,
                     if marked[i] then p else as_[i].above)
    && as_[i] == Link(if i == p then |bs| else bs[i].child,
                      if i == p then p + 1 else if i == l then bs[p].sibling else bs[i].sibling,
                      if marked[i] then bs[p].above else bs[i].above)
  }

  ghost predicate AllChange(as_: seq<Link>, bs: seq<Link>, p: nat, l: nat, marked: seq<bool>) {
    && |as_| == |bs| == |marked| && p < |bs| && l < |bs|
    && forall i :: 0 <= i < |bs| ==> LinkChange(as_, bs, p, l, marked, i)
  }

  lemma NestLinks(a: seq<nat>, p: nat, e: nat, l: nat, marked: seq<bool>)
    requires Run(a, p, e) && LastOf(a, p, e, l) && marked == Level(a, a[p], p, e)
    ensures AllChange(LinksOf(a), LinksOf(Nest(a, p, e)), p, l, marked)
    ensures marked == Level(Nest(a, p, e), a[p] + 1, p, e)
  {
    NestLinksOfEnds(a, p, e, l);
    NestParents(a, p, e, p);
    forall i | 0 <= i < |a|
      ensures LinkChange(LinksOf(a), LinksOf(Nest(a, p, e)), p, l, marked, i)
    {
      NestParents(a, p, e, i);
      if i != p {
        NestLinksOfOthers(a, p, e, l, i);
      }
    }
  }

  // ---- Entries without a prompt ----

  ghost predicate FlatAt(order: seq<MenuNode>, depth: seq<nat>, k: nat)
    requires k < |order| == |depth|
  {
    order[k].promptText || Child(depth, k) == |depth|
  }

  // Between p and e no entry without prompt text that lies deeper than level has children.
  ghost predicate FlatBelow(order: seq<MenuNode>, depth: seq<nat>, p: nat, e: nat, level: nat) {
    && |order| == |depth| && e <= |order|
    && forall k {:trigger FlatAt(order, depth, k)} :: p < k < e && depth[k] > level ==> FlatAt(order, depth, k)
  }

  // The children of p before m have been looked at, too.
  ghost predicate FlatUpTo(order: seq<MenuNode>, depth: seq<nat>, p: nat, e: nat, m: nat) {
    p < m <= e <= |depth| && FlatBelow(order, depth, p, m, depth[p]) && FlatBelow(order, depth, p, e, depth[p] + 1)
  }

  lemma FlatStep(order: seq<MenuNode>, a: seq<nat>, b: seq<nat>, p: nat, m: nat)
    requires p < m < |a| == |b| && FlatBelow(order, a, p, m, a[m]) && ChangedWithin(a, b, m, End(b, m))
    requires FlatBelow(order, b, m, End(b, m), b[m])
    ensures FlatBelow(order, b, p, End(b, m), b[m])
  {
    forall k | p < k < End(b, m) && b[k] > b[m]
      ensures FlatAt(order, b, k)
    {
      assert k < m ==> FlatAt(order, a, k) && Child(a, k) == Child(b, k);
    }
  }

  // ---- How far an entry reaches ----

  type Test = (MenuNode, MenuNode) -> bool

  // The end of what entry k gathers below it, from the depths before: its children if it has
  // any, else, for a symbol, the siblings behind it as long as they depend on it, each with
  // what it gathers itself.
  ghost function Extent(order: seq<MenuNode>, depends: Test, d: seq<nat>, k: nat): (e: nat)
    requires k < |d| == |order|
    ensures k < e <= |d| && (forall j :: k < j < e ==> d[j] >= d[k]) && (e < |d| ==> d[e] <= d[k])
    decreases |d| - k, 0
  {
    if End(d, k) > k + 1 || !order[k].hasSymbol then End(d, k)
    else Gathered(order, depends, d, k, k + 1)
  }

  // The same when the siblings before m have joined entry k.
  ghost function Gathered(order: seq<MenuNode>, depends: Test, d: seq<nat>, k: nat, m: nat): (e: nat)
    requires k < m <= |d| == |order| && (forall j :: k < j < m ==> d[j] >= d[k]) && (m < |d| ==> d[m] <= d[k])
    ensures k < e <= |d| && (forall j :: k < j < e ==> d[j] >= d[k]) && (e < |d| ==> d[e] <= d[k])
    decreases |d| - m, 1
  {
    if m < |d| && d[m] == d[k] && depends(order[k], order[m])
    then Gathered(order, depends, d, k, Extent(order, depends, d, m))
    else m
  }

  ghost predicate SameFrom(a: seq<nat>, b: seq<nat>, m: nat) {
    |a| == |b| && forall j {:trigger a[j]} :: m <= j < |a| ==> a[j] == b[j]
  }

  lemma SameEnd(a: seq<nat>, b: seq<nat>, k: nat)
    requires SameFrom(a, b, k) && k < |a|
    ensures End(a, k) == End(b, k)
  {
    var e := End(a, k);
    forall j | k < j < e
      ensures b[j] > b[k]
    {
      assert a[j] == b[j];
    }
    assert a[k] == b[k] && (e < |a| ==> a[e] == b[e]);
    EndIs(b, k, e);
  }

  // Between two positions the entries with a prompt reach as far as planned.
  ghost predicate Grown(order: seq<MenuNode>, reach: seq<nat>, b: seq<nat>, from: nat, upTo: nat) {
    && |order| == |reach| == |b| && upTo <= |order|
    && forall k {:trigger GrownAt(order, reach, b, k)} :: from < k < upTo ==> GrownAt(order, reach, b, k)
  }

  ghost predicate GrownAt(order: seq<MenuNode>, reach: seq<nat>, b: seq<nat>, k: nat)
    requires k < |order| == |reach| == |b|
  {
    order[k].promptText ==> End(b, k) == reach[k]
  }

  // Entry m has been finalized, those between p and m before it.
  lemma GrownStep(order: seq<MenuNode>, reach: seq<nat>, b: seq<nat>, c: seq<nat>, p: nat, m: nat)
    requires p < m < |order| == |c| && Grown(order, reach, b, p, m)
    requires ChangedWithin(b, c, m, End(c, m)) && End(c, m) == reach[m] && Grown(order, reach, c, m, End(c, m))
    ensures Grown(order, reach, c, p, End(c, m))
  {
    forall k | p < k < End(c, m)
      ensures GrownAt(order, reach, c, k)
    {
      if k < m {
        assert GrownAt(order, reach, b, k);
        LinksBefore(b, c, m, End(c, m), k);
      } else {
        assert k > m ==> GrownAt(order, reach, c, k);
      }
    }
  }

  lemma StaysSame(start: seq<nat>, b: seq<nat>, c: seq<nat>, m: nat)
    requires SameFrom(start, b, m) && m < |c| && ChangedWithin(b, c, m, End(c, m))
    ensures SameFrom(start, c, End(c, m))
  {
  }

  // Dissolving m changes how far m itself reaches, and no other entry.
  lemma UnnestEnds(b: seq<nat>, m: nat, k: nat)
    requires m < |b| && k < |b| && k != m
    ensures End(Unnest(b, m, End(b, m)), k) == End(b, k)
  {
    var x := End(b, k);
    assert k < m < x ==> b[m] > b[k];
    EndIs(Unnest(b, m, End(b, m)), k, x);
  }

  lemma UnnestGrown(order: seq<MenuNode>, reach: seq<nat>, b: seq<nat>, p: nat, e: nat, m: nat)
    requires Grown(order, reach, b, p, e) && m < |b| && !order[m].promptText
    ensures Grown(order, reach, Unnest(b, m, End(b, m)), p, e)
  {
    forall k | p < k < e
      ensures GrownAt(order, reach, Unnest(b, m, End(b, m)), k)
    {
      assert GrownAt(order, reach, b, k);
      if k != m {
        UnnestEnds(b, m, k);
      }
    }
  }

  // Gathering entries below p changes how far p reaches, and no other entry.
  lemma NestEnds(a: seq<nat>, p: nat, m: nat, l: nat, k: nat)
    requires Absorbed(a, p, m, l) && m > p + 1 && k < |a| && k != p
    ensures End(Nest(a, p, m), k) == End(a, k)
  {
    var x := End(a, k);
    assert k < p < x ==> a[p] > a[k];
    EndIs(Nest(a, p, m), k, x);
  }

  lemma NestGrown(order: seq<MenuNode>, reach: seq<nat>, a: seq<nat>, p: nat, m: nat, l: nat)
    requires Grown(order, reach, a, p, m) && Absorbed(a, p, m, l) && m > p + 1
    ensures Grown(order, reach, Nest(a, p, m), p, m)
  {
    forall k | p < k < m
      ensures GrownAt(order, reach, Nest(a, p, m), k)
    {
      assert GrownAt(order, reach, a, k);
      NestEnds(a, p, m, l, k);
    }
  }

  // A child of p has been finalized; the next one lies behind it.
  lemma ChildFinalized(order: seq<MenuNode>, d: seq<nat>, b: seq<nat>, c: seq<nat>, p: nat, e: nat, m: nat)
    requires IsTree(c) && ChangedWithin(d, b, p, e) && e == End(b, p) && p < m < e && b[m] == b[p] + 1
    requires |b| == |c| && ChangedWithin(b, c, m, End(c, m))
    requires FlatBelow(order, b, p, m, b[p] + 1) && FlatBelow(order, c, m, End(c, m), c[m])
    ensures ChangedWithin(d, c, p, e) && End(c, p) == e && FlatBelow(order, c, p, End(c, m), c[p] + 1)
    ensures var f := End(c, m);
            && f <= e && LinksOf(c)[m].sibling == (if f < e then f else |c|) && (f < e ==> c[f] == c[p] + 1)
  {
    ChangesBelow(d, b, c, p, e, m);
    FlatStep(order, b, c, p, m);
    NextChild(c, p, m);
  }

  lemma FlatNest(order: seq<MenuNode>, a: seq<nat>, p: nat, m: nat)
    requires p < m <= |a| && FlatBelow(order, a, p, m, a[p]) && (m < |a| ==> a[m] <= a[p])
    ensures FlatBelow(order, Nest(a, p, m), p, m, a[p] + 1)
  {
    var b := Nest(a, p, m);
    forall k | p < k < m && b[k] > a[p] + 1
      ensures FlatAt(order, b, k)
    {
      assert FlatAt(order, a, k);
    }
  }

  // Dissolving m leaves it without children, and those of all others as they were.
  lemma FlatUnnest(order: seq<MenuNode>, b: seq<nat>, p: nat, e: nat, m: nat)
    requires IsTree(b) && m < e <= |b| && FlatUpTo(order, b, p, e, m) && b[m] == b[p] + 1 && End(b, m) <= e
    ensures FlatUpTo(order, Unnest(b, m, End(b, m)), p, e, m + 1)
  {
    var a := Unnest(b, m, End(b, m));
    assert m + 1 < |b| ==> StepAt(b, m + 1);
    forall k | p < k < e && a[k] > a[p] && (k <= m || a[k] > a[p] + 1)
      ensures FlatAt(order, a, k)
    {
      assert k != m ==> FlatAt(order, b, k) && Child(a, k) == Child(b, k);
    }
  }

  lemma FlatNext(order: seq<MenuNode>, depth: seq<nat>, p: nat, e: nat, m: nat)
    requires m < e <= |depth| && FlatUpTo(order, depth, p, e, m) && depth[m] == depth[p] + 1 && End(depth, m) <= e
    requires FlatAt(order, depth, m)
    ensures FlatUpTo(order, depth, p, e, End(depth, m))
  {
  }

  class Finalizer {
    const depends: Test
    ghost const order: seq<MenuNode>
    ghost const start: seq<nat>
    ghost const reach: seq<nat>
    ghost var depth: seq<nat>
    ghost var calls: seq<MenuNode>

    // The depths before, and how far each entry will reach.
    constructor (test: Test, ghost o: seq<MenuNode>, ghost d: seq<nat>)
      requires |o| == |d|
      ensures depends == test && order == o && depth == start == d && calls == [] && Planned()
    {
      depends, order, depth, calls := test, o, d, [];
      start, reach := d, seq(|d|, k requires 0 <= k < |d| => Extent(o, test, d, k));
    }

    ghost predicate ReachAt(k: nat) {
      k < |order| == |start| == |reach| && reach[k] == Extent(order, depends, start, k)
    }

    ghost predicate Planned() {
      |order| == |start| == |reach| && forall k: nat {:trigger ReachAt(k)} :: k < |order| ==> ReachAt(k)
    }

    // Entry p and the entries below it reach as far as planned.
    ghost predicate Finalized(p: nat)
      reads this
    {
      p < |depth| == |reach| && End(depth, p) == reach[p] && Grown(order, reach, depth, p, End(depth, p))
    }

    // From position p on the nodes form the tree of the given depths.
    ghost predicate Linked(p: nat)
      reads this, order
    {
      && |order| == |depth| && Distinct(order) && IsTree(depth)
      && LinkedFrom(order, LinksOf(depth), p)
    }

    // ---- Flattening ----

    method SetParent(node: MenuNode, parent: MenuNode, ghost p: nat, ghost l: nat, ghost ls: seq<Link>, ghost marked: seq<bool>)
      requires Distinct(order) && |order| == |ls| == |marked| && p <= l < |order| && order[l] == node
      requires MovedFrom(order, ls, p, marked, parent)
      modifies node`parent
      ensures MovedFrom(order, ls, p, marked[l := true], parent)
    {
      assert MovedAt(order, ls, l, marked, parent);
      node.parent := parent;
      ghost var marked' := marked[l := true];
      forall i | p <= i < |order|
        ensures MovedAt(order, ls, i, marked', parent)
      {
        assert i != l ==> MovedAt(order, ls, i, marked, parent);
      }
    }

    lemma StartReparent(parent: MenuNode, menu: MenuNode, p: nat, m: nat)
      requires Linked(p) && p < m < |order| && order[m] == menu && menu.list != null
      ensures MovedFrom(order, LinksOf(depth), p, Level(depth, depth[m] + 1, m, m + 1), parent)
      ensures m + 1 < End(depth, m) && menu.list == order[m + 1] && depth[m + 1] == depth[m] + 1
    {
      assert LinkedAt(order, LinksOf(depth), m);
      FirstChild(depth, m);
      NoneMoved(order, LinksOf(depth), p, Level(depth, depth[m] + 1, m, m + 1), parent);
    }

    // Every child of menu gets a new parent; the last of them is returned.
    method Reparent(parent: MenuNode, menu: MenuNode, ghost p: nat, ghost m: nat) returns (lastMenu: MenuNode, ghost l: nat)
      requires Linked(p) && p < m < |order| && order[m] == menu && menu.list != null
      modifies NodesFrom(order, m + 1)
      ensures m < l < End(depth, m) == End(depth, l) && depth[l] == depth[m] + 1 && lastMenu == order[l]
      ensures MovedFrom(order, LinksOf(depth), p, Level(depth, depth[m] + 1, m, End(depth, m)), parent)
    {
      ghost var ls, e, level := LinksOf(depth), End(depth, m), depth[m] + 1;
      StartReparent(parent, menu, p, m);
      lastMenu := menu.list;
      l := m + 1;
      while true
        invariant m < l < e && lastMenu == order[l] && depth[l] == level
        invariant MovedFrom(order, ls, p, Level(depth, level, m, l), parent)
        decreases e - l
      {
        LevelStep(depth, level, m, l);
        SetParent(lastMenu, parent, p, l, ls, Level(depth, level, m, l));
        assert MovedAt(order, ls, l, Level(depth, level, m, End(depth, l)), parent);
        if lastMenu.next == null {
          break;
        }
        lastMenu := lastMenu.next;
        l := End(depth, l);
      }
    }

    // The list of menu, whose entries already name their new parent, is spliced in behind menu.
    method Splice(menu: MenuNode, lastMenu: MenuNode, ghost parent: MenuNode, ghost p: nat, ghost m: nat, ghost l: nat,
                  ghost as_: seq<Link>, ghost bs: seq<Link>, ghost marked: seq<bool>)
      requires Distinct(order) && |order| == |as_| == |bs| == |marked| && p < m < l < |order|
      requires order[p] == parent && order[m] == menu && order[l] == lastMenu && bs[m].above == p
      requires MovedFrom(order, bs, p, marked, parent)
      requires AllChange(as_, bs, m, l, marked)
      modifies menu, lastMenu
      ensures LinkedFrom(order, as_, p)
    {
      assert MovedAt(order, bs, m, marked, parent) && MovedAt(order, bs, l, marked, parent);
      assert LinkChange(as_, bs, m, l, marked, m) && LinkChange(as_, bs, m, l, marked, l);
      lastMenu.next := menu.next;
      menu.next := menu.list;
      menu.list := null;
      forall i | p <= i < |order|
        ensures LinkedAt(order, as_, i)
      {
        assert LinkChange(as_, bs, m, l, marked, i);
        assert i != m && i != l ==> MovedAt(order, bs, i, marked, parent);
      }
    }

    // The children of menu take its place in the list of parent, behind menu itself.
    method Flatten(parent: MenuNode, menu: MenuNode, ghost p: nat, ghost m: nat)
      requires Linked(p) && p < m < |order| && order[p] == parent && order[m] == menu
      requires Above(depth, m) == p && menu.list != null && !menu.promptText
      modifies this`depth, NodesFrom(order, p)
      ensures Linked(p) && depth == Unnest(old(depth), m, End(old(depth), m))
      ensures Sibling(depth, m) == m + 1
    {
      ghost var e, b := End(depth, m), depth;
      ghost var l: nat;
      var lastMenu: MenuNode;
      lastMenu, l := Reparent(parent, menu, p, m);
      UnnestLinks(b, m, l);
      ghost var a := Unnest(b, m, e);
      Splice(menu, lastMenu, parent, p, m, l, LinksOf(a), LinksOf(b), Level(b, b[m] + 1, m, e));
      depth := a;
    }

    // One child of parent: flattened if it has children but no prompt.
    method FlattenChild(parent: MenuNode, menu: MenuNode, ghost p: nat, ghost m: nat)
      requires Linked(p) && p < |order| && order[p] == parent
      requires p < m < End(depth, p) && order[m] == menu && depth[m] == depth[p] + 1
      requires FlatUpTo(order, depth, p, End(depth, p), m) && Grown(order, reach, depth, p, End(depth, p))
      modifies this`depth, NodesFrom(order, p)
      ensures Linked(p) && ChangedWithin(old(depth), depth, p, End(old(depth), p)) && End(depth, p) == End(old(depth), p)
      ensures depth[m] == depth[p] + 1 && FlatUpTo(order, depth, p, End(depth, p), End(depth, m))
      ensures Grown(order, reach, depth, p, End(depth, p))
    {
      ghost var b, e := depth, End(depth, p);
      NoChange(b, p);
      NextChild(depth, p, m);
      assert LinkedAt(order, LinksOf(depth), m);
      if menu.list != null && !menu.promptText {
        UnnestChanges(b, m);
        Flatten(parent, menu, p, m);
        LooseChangesBelow(b, b, depth, p, e, m, End(b, m));
        FlatUnnest(order, b, p, e, m);
        UnnestGrown(order, reach, b, p, e, m);
      } else {
        FlatNext(order, depth, p, e, m);
      }
    }

    // The children of p before m have been looked at; d and e are the depths and the end of p
    // as they were before.
    ghost predicate Flattening(p: nat, m: nat, d: seq<nat>, e: nat)
      reads this, order
    {
      && Linked(p) && p < m <= e <= |order| && End(depth, p) == e && ChangedWithin(d, depth, p, e)
      && (m < e ==> depth[m] == depth[p] + 1)
      && FlatUpTo(order, depth, p, e, m) && Grown(order, reach, depth, p, e)
    }

    lemma StartFlattening(parent: MenuNode, p: nat)
      requires Linked(p) && p < |order| && order[p] == parent
      requires FlatBelow(order, depth, p, End(depth, p), depth[p] + 1) && Grown(order, reach, depth, p, End(depth, p))
      ensures Flattening(p, p + 1, depth, End(depth, p))
      ensures parent.list == if p + 1 < End(depth, p) then order[p + 1] else null
    {
      NoChange(depth, p);
      FirstChild(depth, p);
      assert LinkedAt(order, LinksOf(depth), p);
    }

    method FlattenNext(parent: MenuNode, menu: MenuNode, ghost p: nat, ghost m: nat, ghost d: seq<nat>, ghost e: nat)
      requires m < e && Flattening(p, m, d, e) && order[p] == parent && order[m] == menu
      modifies this`depth, NodesFrom(order, p)
      ensures |depth| == |order| && m < |order| && Flattening(p, End(depth, m), d, e)
      ensures menu.next == if End(depth, m) < e then order[End(depth, m)] else null
    {
      ghost var b := depth;
      FlattenChild(parent, menu, p, m);
      ChangesTwice(d, b, depth, p, e);
      NextChild(depth, p, m);
      assert LinkedAt(order, LinksOf(depth), m);
    }

    // The loop that looks at each child of parent and at what flattening puts behind it.
    method FlattenChildren(parent: MenuNode, ghost p: nat)
      requires Linked(p) && p < |order| && order[p] == parent
      requires FlatBelow(order, depth, p, End(depth, p), depth[p] + 1) && Grown(order, reach, depth, p, End(depth, p))
      modifies this`depth, NodesFrom(order, p)
      ensures Linked(p) && ChangedWithin(old(depth), depth, p, End(old(depth), p)) && End(depth, p) == End(old(depth), p)
      ensures FlatBelow(order, depth, p, End(depth, p), depth[p]) && Grown(order, reach, depth, p, End(depth, p))
    {
      ghost var d, e := depth, End(depth, p);
      StartFlattening(parent, p);
      var menu := parent.list;
      ghost var m := p + 1;
      while menu != null
        invariant Flattening(p, m, d, e)
        invariant menu == if m < e then order[m] else null
        decreases e - m
      {
        FlattenNext(parent, menu, p, m, d, e);
        menu := menu.next;
        m := End(depth, m);
      }
    }

    // ---- Recursion ----

    lemma NotAmongLater(i: nat, m: nat)
      requires Distinct(order) && i < m <= |order|
      ensures order[i] !in NodesFrom(order, m)
    {
    }

    lemma CallsExtend(before: seq<MenuNode>, from: nat, m: nat, f: nat)
      requires from <= m <= f <= |order|
      ensures before + order[from..m] + order[m..f] == before + order[from..f]
    {
      assert order[from..m] + order[m..f] == order[from..f];
    }

    // Finalizing the node at position m, seen from an earlier position p.
    method FinalizeAt(menu: MenuNode, ghost p: nat, ghost m: nat)
      requires Linked(p) && p < m < |order| && order[m] == menu && Planned() && SameFrom(start, depth, m)
      modifies this, NodesFrom(order, m)
      ensures Linked(p) && ChangedWithin(old(depth), depth, m, End(depth, m))
      ensures calls == old(calls) + order[m..End(depth, m)]
      ensures FlatBelow(order, depth, m, End(depth, m), depth[m]) && Finalized(m)
      decreases |order| - m, 1
    {
      ghost var ls := LinksOf(depth);
      MenuFinalize(menu, m);
      forall i | p <= i < |order|
        ensures LinkedAt(order, LinksOf(depth), i)
      {
        if i < m {
          NotAmongLater(i, m);
          assert old(LinkedAt(order, ls, i));
          LinksBefore(old(depth), depth, m, End(depth, m), i);
        }
      }
    }

    // The children of p before m have been finalized; d and e are the depths and the end of
    // p as they were before.
    ghost predicate Finalizing(p: nat, m: nat, d: seq<nat>, e: nat)
      reads this, order
    {
      && Linked(p) && p < m <= e <= |order| && End(depth, p) == e && ChangedWithin(d, depth, p, e)
      && (m < e ==> depth[m] == depth[p] + 1)
      && FlatBelow(order, depth, p, m, depth[p] + 1)
      && Planned() && Grown(order, reach, depth, p, m) && SameFrom(start, depth, m)
    }

    lemma StartFinalizing(parent: MenuNode, p: nat)
      requires Linked(p) && p < |order| && order[p] == parent && Planned() && SameFrom(start, depth, p)
      ensures Finalizing(p, p + 1, depth, End(depth, p))
      ensures parent.list == if p + 1 < End(depth, p) then order[p + 1] else null
    {
      NoChange(depth, p);
      FirstChild(depth, p);
      assert LinkedAt(order, LinksOf(depth), p);
    }

    lemma EndFinalizing(p: nat, d: seq<nat>, e: nat)
      requires Finalizing(p, e, d, e)
      ensures Linked(p) && End(depth, p) == e && ChangedWithin(d, depth, p, e)
      ensures FlatBelow(order, depth, p, e, depth[p] + 1) && Grown(order, reach, depth, p, e)
    {
    }

    method FinalizeChild(menu: MenuNode, ghost p: nat, ghost m: nat, ghost d: seq<nat>, ghost e: nat)
      requires m < e && Finalizing(p, m, d, e) && order[m] == menu
      modifies this, NodesFrom(order, m)
      ensures |depth| == |order| && m < |order| && Finalizing(p, End(depth, m), d, e)
      ensures menu.next == if End(depth, m) < e then order[End(depth, m)] else null
      ensures calls == old(calls) + order[m..End(depth, m)]
      decreases |order| - m, 2
    {
      ghost var b := depth;
      FinalizeAt(menu, p, m);
      ChildFinalized(order, d, b, depth, p, e, m);
      GrownStep(order, reach, b, depth, p, m);
      StaysSame(start, b, depth, m);
      assert LinkedAt(order, LinksOf(depth), m);
    }

    method FinalizeChildren(parent: MenuNode, ghost p: nat)
      requires Linked(p) && p < |order| && order[p] == parent && Planned() && SameFrom(start, depth, p)
      modifies this, NodesFrom(order, p)
      ensures Linked(p) && ChangedWithin(old(depth), depth, p, End(depth, p))
      ensures calls == old(calls) + order[p + 1..End(depth, p)]
      ensures FlatBelow(order, depth, p, End(depth, p), depth[p] + 1)
      ensures End(depth, p) == End(old(depth), p) && Grown(order, reach, depth, p, End(depth, p))
      decreases |order| - p - 1, 3
    {
      ghost var d, e := depth, End(depth, p);
      StartFinalizing(parent, p);
      var menu := parent.list;
      ghost var m := p + 1;
      while menu != null
        invariant Finalizing(p, m, d, e)
        invariant menu == if m < e then order[m] else null
        invariant calls == old(calls) + order[p + 1..m]
        decreases e - m
      {
        FinalizeChild(menu, p, m, d, e);
        CallsExtend(old(calls), p + 1, m, End(depth, m));
        menu := menu.next;
        m := End(depth, m);
      }
      EndFinalizing(p, d, e);
    }

    // The state while p absorbs its following siblings: those up to m name p as parent.
    ghost predicate Absorbing(parent: MenuNode, p: nat, m: nat)
      reads this, order
    {
      && |order| == |depth| && Distinct(order) && IsTree(depth) && p < m <= |order|
      && MovedFrom(order, LinksOf(depth), p, Level(depth, depth[p], p, m), parent)
      && FlatBelow(order, depth, p, m, depth[p])
    }

    method Absorb(parent: MenuNode, menu: MenuNode, ghost p: nat, ghost m: nat, ghost l: nat, ghost d: seq<nat>)
      requires Absorbing(parent, p, m) && m < |order| && order[p] == parent && order[m] == menu
      requires depth[m] == depth[p] && Absorbed(depth, p, m, l) && ChangedWithinLoosely(d, depth, p, m)
      requires Planned() && Grown(order, reach, depth, p, m) && SameFrom(start, depth, m)
      modifies this, NodesFrom(order, m)
      ensures |order| == |depth| && Absorbing(parent, p, End(depth, m))
      ensures depth[m] == depth[p] && Absorbed(depth, p, End(depth, m), m) && ChangedWithinLoosely(d, depth, p, End(depth, m))
      ensures End(depth, m) == reach[m] && Grown(order, reach, depth, p, End(depth, m))
      ensures SameFrom(start, depth, End(depth, m))
      ensures calls == old(calls) + order[m..End(depth, m)]
      decreases |order| - m, 1
    {
      ghost var a, ls, marked := depth, LinksOf(depth), Level(depth, depth[p], p, m);
      forall i | m <= i < |order|
        ensures LinkedAt(order, ls, i)
      {
        assert MovedAt(order, ls, i, marked, parent);
      }
      MenuFinalize(menu, m);
      AbsorbStep(d, a, depth, p, m, l);
      FlatStep(order, a, depth, p, m);
      GrownStep(order, reach, a, depth, p, m);
      StaysSame(start, a, depth, m);
      forall i | p <= i < |order|
        ensures MovedAt(order, LinksOf(depth), i, marked, parent)
      {
        if i < m {
          NotAmongLater(i, m);
          assert old(MovedAt(order, ls, i, marked, parent));
          LinksBefore(a, depth, m, End(depth, m), i);
        } else {
          assert LinkedAt(order, LinksOf(depth), i);
        }
      }
      SetParent(menu, parent, p, m, LinksOf(depth), marked);
    }

    // The absorbed siblings become the list of parent.
    method Gather(parent: MenuNode, lastMenu: MenuNode, ghost p: nat, ghost l: nat,
                  ghost as_: seq<Link>, ghost bs: seq<Link>, ghost marked: seq<bool>)
      requires Distinct(order) && |order| == |as_| == |bs| == |marked| && p < l < |order|
      requires order[p] == parent && order[l] == lastMenu
      requires MovedFrom(order, as_, p, marked, parent) && AllChange(as_, bs, p, l, marked)
      modifies parent, lastMenu
      ensures LinkedFrom(order, bs, p)
    {
      assert MovedAt(order, as_, p, marked, parent) && MovedAt(order, as_, l, marked, parent);
      assert LinkChange(as_, bs, p, l, marked, p) && LinkChange(as_, bs, p, l, marked, l);
      parent.list := parent.next;
      parent.next := lastMenu.next;
      lastMenu.next := null;
      forall i | p <= i < |order|
        ensures LinkedAt(order, bs, i)
      {
        assert LinkChange(as_, bs, p, l, marked, i);
        assert i != p && i != l ==> MovedAt(order, as_, i, marked, parent);
      }
    }

    lemma StartAbsorbing(parent: MenuNode, p: nat)
      requires Linked(p) && p < |order| && order[p] == parent && parent.list == null && parent.hasSymbol
      requires Planned() && SameFrom(start, depth, p)
      ensures Gathering(p, p + 1)
      ensures Absorbing(parent, p, p + 1)
      ensures Absorbed(depth, p, p + 1, p) && ChangedWithinLoosely(depth, depth, p, p + 1)
      ensures parent.next == if p + 1 < |order| && depth[p + 1] == depth[p] then order[p + 1] else null
    {
      assert LinkedAt(order, LinksOf(depth), p);
      NothingAbsorbed(depth, p);
      EndIs(depth, p, p + 1);
      SameEnd(start, depth, p);
      assert ReachAt(p);
      NoneMoved(order, LinksOf(depth), p, Level(depth, depth[p], p, p + 1), parent);
    }

    // The siblings before m have joined entry p, and how far it reaches is still to be seen.
    ghost predicate Gathering(p: nat, m: nat) {
      && p < m <= |order| == |start| == |reach|
      && (forall j :: p < j < m ==> start[j] >= start[p]) && (m < |start| ==> start[m] <= start[p])
      && reach[p] == Gathered(order, depends, start, p, m)
    }

    lemma GatherStep(p: nat, m: nat)
      requires Planned() && Gathering(p, m) && m < |order| && start[m] == start[p] && depends(order[p], order[m])
      ensures Gathering(p, reach[m])
    {
      assert ReachAt(m);
    }

    // Following siblings join parent as long as the dependency tests say so.
    method AbsorbSiblings(parent: MenuNode, ghost p: nat) returns (lastMenu: MenuNode?, ghost m: nat, ghost l: nat)
      requires Linked(p) && p < |order| && order[p] == parent && parent.list == null && parent.hasSymbol
      requires Planned() && SameFrom(start, depth, p)
      modifies this, NodesFrom(order, p + 1)
      ensures Absorbing(parent, p, m) && Absorbed(depth, p, m, l) && ChangedWithinLoosely(old(depth), depth, p, m)
      ensures Grown(order, reach, depth, p, m) && m == reach[p]
      ensures lastMenu == if m > p + 1 then order[l] else null
      ensures calls == old(calls) + order[p + 1..m]
      decreases |order| - p - 1, 2
    {
      ghost var d := depth;
      m, l := p + 1, p;
      StartAbsorbing(parent, p);
      lastMenu := null;
      var menu := parent.next;
      while menu != null
        invariant Absorbing(parent, p, m) && Absorbed(depth, p, m, l) && ChangedWithinLoosely(d, depth, p, m)
        invariant Planned() && Grown(order, reach, depth, p, m) && SameFrom(start, depth, m) && Gathering(p, m)
        invariant menu == if m < |order| && depth[m] == depth[p] then order[m] else null
        invariant lastMenu == if m > p + 1 then order[l] else null
        invariant calls == old(calls) + order[p + 1..m]
        decreases |order| - m
      {
        if !depends(parent, menu) {
          break;
        }
        GatherStep(p, m);
        Absorb(parent, menu, p, m, l, d);
        CallsExtend(old(calls), p + 1, m, End(depth, m));
        lastMenu := menu;
        l, m := m, End(depth, m);
        assert MovedAt(order, LinksOf(depth), l, Level(depth, depth[p], p, m), parent);
        menu := menu.next;
      }
    }

    // Automatic submenu creation.
    method AutoSubmenu(parent: MenuNode, ghost p: nat)
      requires Linked(p) && p < |order| && order[p] == parent && parent.list == null && parent.hasSymbol
      requires Planned() && SameFrom(start, depth, p)
      modifies this, NodesFrom(order, p)
      ensures Linked(p) && ChangedWithin(old(depth), depth, p, End(depth, p))
      ensures calls == old(calls) + order[p + 1..End(depth, p)]
      ensures FlatBelow(order, depth, p, End(depth, p), depth[p] + 1) && Finalized(p)
      decreases |order| - p - 1, 4
    {
      ghost var d := depth;
      ghost var m: nat, l: nat;
      var lastMenu: MenuNode?;
      lastMenu, m, l := AbsorbSiblings(parent, p);
      if lastMenu != null {
        AbsorbedAll(d, depth, p, m, l);
        Gather(parent, lastMenu, p, l, LinksOf(depth), LinksOf(Nest(depth, p, m)), Level(depth, depth[p], p, m));
        FlatNest(order, depth, p, m);
        NestGrown(order, reach, depth, p, m, l);
        depth := Nest(depth, p, m);
      } else {
        AbsorbedNone(d, depth, p, l);
        forall i | p <= i < |order|
          ensures LinkedAt(order, LinksOf(depth), i)
        {
          assert MovedAt(order, LinksOf(depth), i, Level(depth, depth[p], p, m), parent);
        }
      }
    }

    // The children of parent, or else the siblings it absorbs.
    method FinalizeBelow(parent: MenuNode, ghost p: nat)
      requires Linked(p) && p < |order| && order[p] == parent && Planned() && SameFrom(start, depth, p)
      modifies this, NodesFrom(order, p)
      ensures Linked(p) && ChangedWithin(old(depth), depth, p, End(depth, p))
      ensures calls == old(calls) + order[p + 1..End(depth, p)]
      ensures FlatBelow(order, depth, p, End(depth, p), depth[p] + 1) && Finalized(p)
      decreases |order| - p - 1, 5
    {
      FirstChild(depth, p);
      SameEnd(start, depth, p);
      assert LinkedAt(order, LinksOf(depth), p) && ReachAt(p);
      if parent.list != null {
        FinalizeChildren(parent, p);
      } else if parent.hasSymbol {
        AutoSubmenu(parent, p);
      } else {
        NoChange(depth, p);
      }
    }

    // The entries from parent to the end of its (possibly extended) subtree are finalized
    // once each, in their order; only depths below parent change. Below parent no entry has
    // children unless it has a prompt, and every entry with a prompt reaches exactly as far
    // as the depths before and the dependency tests say.
    method MenuFinalize(parent: MenuNode, ghost p: nat)
      requires Linked(p) && p < |order| && order[p] == parent && Planned() && SameFrom(start, depth, p)
      modifies this, NodesFrom(order, p)
      ensures Linked(p) && ChangedWithin(old(depth), depth, p, End(depth, p))
      ensures calls == old(calls) + order[p..End(depth, p)]
      ensures FlatBelow(order, depth, p, End(depth, p), depth[p]) && Finalized(p)
      decreases |order| - p, 0
    {
      ghost var d := depth;
      calls := calls + [parent];
      FinalizeBelow(parent, p);
      ghost var b := depth;
      FlattenChildren(parent, p);
      ChangesTwice(d, b, depth, p, End(b, p));
    }
  }

  // ---- The walk of conf_write ----

  // The walk climbs from the last entry before e to an ancestor that ends at e.
  lemma ClimbStep(depth: seq<nat>, c: nat)
    requires IsTree(depth) && c < |depth| && LinksOf(depth)[c].sibling == |depth|
    ensures var a := LinksOf(depth)[c].above;
            if a < |depth| then a < c && End(depth, a) == End(depth, c) else End(depth, c) == |depth|
  {
    var a := Above(depth, c);
    var e := End(depth, c);
    assert c > 0 ==> StepAt(depth, c);
    assert e < |depth| ==> StepAt(depth, e);
    if a < |depth| {
      assert StepAt(depth, a + 1);
      EndIs(depth, a, e);
    }
  }

  // The next entry in depth-first order, or null after the last: an ancestor's sibling.
  method Climb(start: MenuNode, ghost order: seq<MenuNode>, ghost depth: seq<nat>, ghost i: nat) returns (menu: MenuNode?)
    requires |order| == |depth| && IsTree(depth) && LinkedFrom(order, LinksOf(depth), 0)
    requires i < |order| && order[i] == start && End(depth, i) == i + 1 && start.next == null
    ensures menu == NodeAt(order, i + 1)
  {
    menu := start.parent;
    ghost var c: nat := i;
    assert LinkedAt(order, LinksOf(depth), c);
    ClimbStep(depth, c);
    while menu != null
      invariant c < |order| && LinksOf(depth)[c].sibling == |depth| && End(depth, c) == i + 1
      invariant menu == NodeAt(order, LinksOf(depth)[c].above)
      decreases c
    {
      ClimbStep(depth, c);
      c := LinksOf(depth)[c].above;
      assert LinkedAt(order, LinksOf(depth), c);
      if menu.next != null {
        menu := menu.next;
        return;
      }
      menu := menu.parent;
    }
    ClimbStep(depth, c);
  }

  // Without a stack: down first, then sideways, then up. Every entry below the root is
  // reached exactly once, in depth-first order.
  method Walk(root: MenuNode, ghost order: seq<MenuNode>, ghost depth: seq<nat>) returns (visited: seq<MenuNode>)
    requires |order| == |depth| && IsTree(depth) && order[0] == root && LinkedFrom(order, LinksOf(depth), 0)
    ensures visited == order[1..]
  {
    visited := [];
    assert LinkedAt(order, LinksOf(depth), 0);
    FirstChild(depth, 0);
    assert |depth| > 1 ==> StepAt(depth, 1);
    var menu := root.list;
    ghost var i: nat := 1;
    while menu != null
      invariant 1 <= i <= |order| && menu == NodeAt(order, i) && visited == order[1..i]
      decreases |order| - i
    {
      visited := visited + [menu];
      assert LinkedAt(order, LinksOf(depth), i);
      FirstChild(depth, i);
      if menu.list != null {
        menu := menu.list;
      } else if menu.next != null {
        menu := menu.next;
      } else {
        menu := Climb(menu, order, depth, i);
      }
      i := i + 1;
    }
  }

  // An entry that had children keeps exactly its descendants, and one that is no symbol
  // gains none.
  lemma KeepsItsMenu(order: seq<MenuNode>, depends: Test, d: seq<nat>, k: nat)
    requires k < |order| == |d|
    ensures End(d, k) > k + 1 || !order[k].hasSymbol ==> Extent(order, depends, d, k) == End(d, k)
  {
  }

  // Finalizing the menu from its root and writing the configuration out: every entry is
  // finalized once and then visited once, both in the original depth-first order. Where the
  // submenus of the final tree end is given for each entry: an entry without a prompt has
  // none, every other one reaches as far as its children or the run of siblings that
  // depends on it.
  method FinalizeThenWalk(root: MenuNode, depends: Test, ghost order: seq<MenuNode>, ghost depth: seq<nat>)
    returns (visited: seq<MenuNode>, ghost finalized: seq<MenuNode>, ghost depth': seq<nat>)
    requires |order| == |depth| && Distinct(order) && IsTree(depth) && order[0] == root && LinkedFrom(order, LinksOf(depth), 0)
    modifies NodesFrom(order, 0)
    ensures finalized == order && visited == order[1..]
    ensures |depth'| == |order| && IsTree(depth') && LinkedFrom(order, LinksOf(depth'), 0)
    ensures forall i :: 0 < i < |order| ==>
              End(depth', i) == if order[i].promptText then Extent(order, depends, depth, i) else i + 1
    ensures forall i :: 0 < i < |order| && !order[i].promptText ==> order[i].list == null
  {
    var finalizer := new Finalizer(depends, order, depth);
    finalizer.MenuFinalize(root, 0);
    depth' := finalizer.depth;
    RootSpansAll(depth');
    finalized := finalizer.calls;
    forall i | 0 < i < |order|
      ensures End(depth', i) == if order[i].promptText then Extent(order, depends, depth, i) else i + 1
      ensures !order[i].promptText ==> order[i].list == null
    {
      assert StepAt(depth', i) && LinkedAt(order, LinksOf(depth'), i);
      if order[i].promptText {
        assert finalizer.ReachAt(i) && GrownAt(order, finalizer.reach, depth', i);
      } else {
        assert FlatAt(order, depth', i);
        EndIs(depth', i, i + 1);
      }
    }
    visited := Walk(root, order, depth');
  }

  lemma RootSpansAll(depth: seq<nat>)
    requires IsTree(depth)
    ensures End(depth, 0) == |depth|
  {
    var e := End(depth, 0);
    assert e < |depth| ==> StepAt(depth, e);
  }
}
