// A menu tree written as its depth-first order: entry i is followed by its descendants,
// and depth[i] says how deep it lies. Links are positions in that order; |depth| stands
// for a null link.
module MenuOrder {

  ghost predicate IsTree(depth: seq<nat>) {
    && |depth| > 0 && depth[0] == 0
    && forall i :: 0 < i < |depth| ==> StepAt(depth, i)
  }

  ghost predicate StepAt(depth: seq<nat>, i: nat)
    requires 0 < i < |depth|
  {
    1 <= depth[i] <= depth[i - 1] + 1
  }

  // The first position after i that is not below it.
  function End(depth: seq<nat>, i: nat): (e: nat)
    requires i < |depth|
    ensures i < e <= |depth|
    ensures forall k :: i < k < e ==> depth[k] > depth[i]
    ensures e < |depth| ==> depth[e] <= depth[i]
  {
    EndFrom(depth, i, i + 1)
  }

  function EndFrom(depth: seq<nat>, i: nat, j: nat): (e: nat)
    requires i < j <= |depth|
    requires forall k :: i < k < j ==> depth[k] > depth[i]
    ensures j <= e <= |depth|
    ensures forall k :: i < k < e ==> depth[k] > depth[i]
    ensures e < |depth| ==> depth[e] <= depth[i]
    decreases |depth| - j
  {
    if j == |depth| || depth[j] <= depth[i] then j else EndFrom(depth, i, j + 1)
  }

  lemma EndIs(depth: seq<nat>, i: nat, e: nat)
    requires i < e <= |depth|
    requires forall k :: i < k < e ==> depth[k] > depth[i]
    requires e < |depth| ==> depth[e] <= depth[i]
    ensures End(depth, i) == e
  {
  }

  function Child(depth: seq<nat>, i: nat): (c: nat)
    requires i < |depth|
    ensures c <= |depth|
  {
    if i + 1 < |depth| && depth[i + 1] > depth[i] then i + 1 else |depth|
  }

  function Sibling(depth: seq<nat>, i: nat): (s: nat)
    requires i < |depth|
    ensures s <= |depth|
  {
    var e := End(depth, i);
    if e < |depth| && depth[e] == depth[i] then e else |depth|
  }

  // The last position before i that lies less deep.
  function Above(depth: seq<nat>, i: nat): (a: nat)
    requires i < |depth|
    ensures a < i || a == |depth|
    ensures a < i ==> depth[a] < depth[i] && forall k :: a < k < i ==> depth[k] >= depth[i]
    ensures a == |depth| ==> forall k :: 0 <= k < i ==> depth[k] >= depth[i]
  {
    AboveFrom(depth, i, i)
  }

  function AboveFrom(depth: seq<nat>, i: nat, j: nat): (a: nat)
    requires j <= i < |depth|
    requires forall k :: j <= k < i ==> depth[k] >= depth[i]
    ensures a < j || a == |depth|
    ensures a < j ==> depth[a] < depth[i] && forall k :: a < k < i ==> depth[k] >= depth[i]
    ensures a == |depth| ==> forall k :: 0 <= k < i ==> depth[k] >= depth[i]
  {
    if j == 0 then |depth| else if depth[j - 1] < depth[i] then j - 1 else AboveFrom(depth, i, j - 1)
  }

  lemma AboveIs(depth: seq<nat>, i: nat, a: nat)
    requires a < i < |depth| && depth[a] < depth[i]
    requires forall k :: a < k < i ==> depth[k] >= depth[i]
    ensures Above(depth, i) == a
  {
  }

  // ---- Making and dissolving a submenu ----

  // The entries after p up to e, which lie no less deep than p, become its descendants.
  function Nest(depth: seq<nat>, p: nat, e: nat): (r: seq<nat>)
    requires p < e <= |depth|
    ensures |r| == |depth|
    ensures forall i :: 0 <= i < |depth| ==> r[i] == if p < i < e then depth[i] + 1 else depth[i]
  {
    seq(|depth|, i requires 0 <= i < |depth| => if p < i < e then depth[i] + 1 else depth[i])
  }

  // The inverse: p's descendants become its following siblings.
  function Unnest(depth: seq<nat>, p: nat, e: nat): (r: seq<nat>)
    requires p < e <= |depth| && forall k :: p < k < e ==> depth[k] > depth[p]
    ensures |r| == |depth|
    ensures forall i :: 0 <= i < |depth| ==> r[i] == if p < i < e then depth[i] - 1 else depth[i]
  {
    seq(|depth|, i requires 0 <= i < |depth| => if p < i < e then depth[i] - 1 else depth[i])
  }

  // A run of entries after p that can be made its submenu.
  ghost predicate Run(a: seq<nat>, p: nat, e: nat) {
    && p + 1 < e <= |a| && a[p + 1] == a[p]
    && (forall k :: p < k < e ==> a[k] >= a[p])
    && (e < |a| ==> a[e] <= a[p])
  }

  // l is the last entry of the run at p's own level.
  ghost predicate LastOf(a: seq<nat>, p: nat, e: nat, l: nat) {
    p < l < e <= |a| && a[l] == a[p] && forall k :: l < k < e ==> a[k] > a[p]
  }

  // How the links of p and of the last entry of the run change, and that of all others,
  // apart from the entries whose parent becomes p, none does.
  lemma NestLinksOfEnds(a: seq<nat>, p: nat, e: nat, l: nat)
    requires Run(a, p, e) && LastOf(a, p, e, l)
    ensures var b := Nest(a, p, e);
            && Child(a, p) == |a| && Child(b, p) == p + 1
            && Sibling(a, p) == p + 1 && Sibling(b, p) == Sibling(a, l)
            && Sibling(b, l) == |a| && Child(b, l) == Child(a, l)
            && End(b, p) == e
  {
    var b := Nest(a, p, e);
    EndIs(a, p, p + 1);
    EndIs(b, p, e);
    EndIs(a, l, e);
    EndIs(b, l, e);
  }

  lemma NestLinksOfOthers(a: seq<nat>, p: nat, e: nat, l: nat, i: nat)
    requires Run(a, p, e) && LastOf(a, p, e, l) && i < |a| && i != p
    ensures Child(Nest(a, p, e), i) == Child(a, i)
    ensures i != l ==> Sibling(Nest(a, p, e), i) == Sibling(a, i)
  {
    var b := Nest(a, p, e);
    var x := End(a, i);
    assert i < p < x ==> a[p] > a[i];
    assert e < |a| ==> a[e] <= a[p];
    EndIs(b, i, x);
    assert a[l] == a[p];
  }

  lemma NestParents(a: seq<nat>, p: nat, e: nat, i: nat)
    requires Run(a, p, e) && i < |a|
    ensures p < i < e && a[i] == a[p] ==> Above(Nest(a, p, e), i) == p && Above(a, i) == Above(a, p)
    ensures !(p < i < e && a[i] == a[p]) ==> Above(Nest(a, p, e), i) == Above(a, i)
  {
    var b := Nest(a, p, e);
    var x := Above(a, i);
    if p < i < e && a[i] == a[p] {
      AboveIs(b, i, p);
      var y := Above(a, p);
      if y < |a| {
        AboveIs(a, i, y);
      }
    } else if p < i < e {
      assert a[p + 1] < a[i] && p + 1 < i;
      AboveIs(b, i, x);
    } else if x < |a| {
      assert x < e < i ==> a[e] >= a[i];
      AboveIs(b, i, x);
    }
  }

  // Changes inside a subtree leave the links of everything before it alone.
  ghost predicate ChangedWithin(a: seq<nat>, b: seq<nat>, p: nat, e: nat) {
    && |a| == |b| && p < e <= |a|
    && (forall k :: 0 <= k < |a| && !(p < k < e) ==> b[k] == a[k])
    && (forall k :: p < k < e ==> a[k] >= a[p] && b[k] > a[p])
    && (e < |a| ==> a[e] <= a[p])
  }

  lemma LinksBefore(a: seq<nat>, b: seq<nat>, p: nat, e: nat, i: nat)
    requires ChangedWithin(a, b, p, e) && i < p
    ensures Child(a, i) == Child(b, i) && Sibling(a, i) == Sibling(b, i) && Above(a, i) == Above(b, i)
    ensures End(a, i) == End(b, i)
  {
    var x := End(a, i);
    assert x > p ==> a[p] > a[i];
    EndIs(b, i, x);
    var y := Above(a, i);
    if y < |a| {
      AboveIs(b, i, y);
    }
  }
}
