// The address-space bookkeeping of user-mode emulation (src/user/memory.c): mapped areas
// in a circular doubly linked list, and the three system calls that change it.
module UserAreas {
  import opened Options
  import opened Sequences
  import opened Words

  const DYN_START: nat := 0x8000_0000
  const KERNEL: nat := 0xC000_0000
  const KERNEL_SIZE: nat := 0x4000_0000

  // ---- Areas as values ----

  datatype Span = Span(addr: nat, length: nat)

  // ROUNDUP to whole pages, in 64-bit arithmetic.
  function RoundUp(n: nat): (r: nat)
    ensures n + PAGE <= WORD ==> n <= r < n + PAGE && r % PAGE == 0
  {
    (n + PAGE - 1) % WORD / PAGE * PAGE
  }

  // 64-bit subtraction.
  lemma WrapSub(a: nat, b: nat)
    requires a < WORD && b < WORD
    ensures (a - b) % WORD == if a >= b then a - b else WORD + a - b
  {
  }

  ghost predicate Before(a: Span, b: Span) {
    a.addr + a.length <= b.addr
  }

  // Ascending and pairwise disjoint.
  ghost predicate Apart(s: seq<Span>) {
    forall i, j {:trigger Before(s[i], s[j])} :: 0 <= i < j < |s| ==> Before(s[i], s[j])
  }

  ghost predicate Within(s: seq<Span>, limit: nat) {
    forall i :: 0 <= i < |s| ==> s[i].addr + s[i].length <= limit
  }

  predicate Overlaps(a: Span, b: Span) {
    a.addr < b.addr + b.length && b.addr < a.addr + a.length
  }

  // The overlap test of the fixed case, in 64-bit arithmetic.
  predicate Collides(addr: nat, length: nat, p: Span) {
    !((addr + length) % WORD <= p.addr || addr >= (p.addr + p.length) % WORD)
  }

  // For an area that ends inside the address space the test is right as long as the
  // request itself does not wrap around.
  lemma CollidesExactly(addr: nat, length: nat, p: Span)
    requires addr < WORD && 0 < length < WORD && p.addr + p.length < WORD
    ensures addr + length < WORD ==> (Collides(addr, length, p) <==> Overlaps(p, Span(addr, length)))
    ensures addr + length >= WORD ==>
              (Collides(addr, length, p) <==> Overlaps(p, Span(addr, length)) && addr + length - WORD > p.addr)
  {
    assert addr + length >= WORD ==> (addr + length) % WORD == addr + length - WORD;
  }

  // A request that wraps around passes the test over the kernel's area.
  lemma WrappingPasses()
    ensures var x := Span(PAGE, WORD - PAGE);
            !Collides(x.addr, x.length, Span(KERNEL, KERNEL_SIZE)) && Overlaps(Span(KERNEL, KERNEL_SIZE), x)
  {
  }

  lemma InsertKeepsApart(s: seq<Span>, k: nat, x: Span)
    requires Apart(s) && k <= |s|
    requires k > 0 ==> Before(s[k - 1], x)
    requires k < |s| ==> Before(x, s[k])
    ensures Apart(InsertAt(s, k, x))
  {
    var r := InsertAt(s, k, x);
    forall i, j | 0 <= i < j < |r|
      ensures Before(r[i], r[j])
    {
      assert i < k - 1 ==> Before(s[i], s[k - 1]);
      assert k < j - 1 ==> Before(s[k], s[j - 1]);
    }
  }

  lemma RemoveKeepsApart(s: seq<Span>, k: nat)
    requires Apart(s) && k < |s|
    ensures Apart(RemoveAt(s, k))
  {
    var r := RemoveAt(s, k);
    forall i, j | 0 <= i < j < |r|
      ensures Before(r[i], r[j])
    {
      assert Before(s[if i < k then i else i + 1], s[if j < k then j else j + 1]);
    }
  }

  lemma ResizeKeepsApart(s: seq<Span>, k: nat, length: nat)
    requires Apart(s) && k < |s| && (k + 1 < |s| ==> s[k].addr + length <= s[k + 1].addr)
    ensures Apart(s[k := Span(s[k].addr, length)])
  {
    var r := s[k := Span(s[k].addr, length)];
    forall i, j | 0 <= i < j < |r|
      ensures Before(r[i], r[j])
    {
      assert Before(s[i], s[j]);
      assert k + 1 < j ==> Before(s[k + 1], s[j]);
    }
  }

  // ---- The linked list ----

  class Vma {
    var addr: nat
    var length: nat
    var next: Vma
    var prev: Vma

    constructor (a: nat, n: nat)
      ensures addr == a && length == n && next == this && prev == this
    {
      addr, length, next, prev := a, n, this, this;
    }
  }

  function Succ(i: nat, n: nat): nat {
    if i + 1 == n then 0 else i + 1
  }

  function Pred(i: nat, n: nat): (p: nat)
    requires n > 0
  {
    if i == 0 then n - 1 else i - 1
  }

  // Node i of the ring is doubly linked to its neighbours.
  ghost predicate LinkAt(ring: seq<Vma>, i: nat)
    requires i < |ring|
    reads ring[i]
  {
    ring[i].next == ring[Succ(i, |ring|)] && ring[i].prev == ring[Pred(i, |ring|)]
  }

  ghost predicate Distinct(ring: seq<Vma>) {
    forall i, j :: 0 <= i < j < |ring| ==> ring[i] != ring[j]
  }

  lemma DistinctInsert(ring: seq<Vma>, k: nat, x: Vma)
    requires Distinct(ring) && k <= |ring| && x !in ring
    ensures Distinct(InsertAt(ring, k, x))
  {
    var r := InsertAt(ring, k, x);
    forall i, j | 0 <= i < j < |r|
      ensures r[i] != r[j]
    {
      assert i != k ==> r[i] in ring;
      assert j != k ==> r[j] in ring;
    }
  }

  lemma DistinctRemove(ring: seq<Vma>, k: nat)
    requires Distinct(ring) && k < |ring|
    ensures Distinct(RemoveAt(ring, k))
  {
  }

  ghost predicate Linked(ring: seq<Vma>)
    reads ring
  {
    && Distinct(ring)
    && (forall i :: 0 <= i < |ring| ==> LinkAt(ring, i))
  }

  // vma_list_add_after: x goes between node k and its successor.
  method AddAfter(left: Vma, x: Vma, ghost ring: seq<Vma>, ghost k: nat)
    requires Linked(ring) && k < |ring| && left == ring[k] && x !in ring
    modifies left`next, left.next`prev, x`next, x`prev
    ensures Linked(InsertAt(ring, k + 1, x))
  {
    assert LinkAt(ring, k);
    DistinctInsert(ring, k + 1, x);
    var right := left.next;
    x.next := right;
    x.prev := left;
    left.next := x;
    right.prev := x;
    ghost var r := InsertAt(ring, k + 1, x);
    forall i | 0 <= i < |r|
      ensures LinkAt(r, i)
    {
      assert i != k + 1 ==> old(LinkAt(ring, if i <= k then i else i - 1));
    }
  }

  method InitialNodes() returns (list: Vma, zero: Vma, dyn: Vma, kernel: Vma)
    ensures fresh(list) && fresh(zero) && fresh(dyn) && fresh(kernel)
    ensures Linked([list, zero, dyn, kernel])
    ensures Spans([list, zero, dyn, kernel]) == [Span(0, 0), Span(0, 0), Span(DYN_START, 0), Span(KERNEL, KERNEL_SIZE)]
  {
    list := new Vma(0, 0);
    zero := new Vma(0, 0);
    dyn := new Vma(DYN_START, 0);
    kernel := new Vma(KERNEL, KERNEL_SIZE);
    LinkInitial(list, zero, dyn, kernel);
  }

  method LinkInitial(list: Vma, zero: Vma, dyn: Vma, kernel: Vma)
    requires list != zero && list != dyn && list != kernel && zero != dyn && zero != kernel && dyn != kernel
    requires list.next == list.prev == list
    modifies list`next, list`prev, zero`next, zero`prev, dyn`next, dyn`prev, kernel`next, kernel`prev
    ensures Linked([list, zero, dyn, kernel])
  {
    ghost var r := [list];
    assert LinkAt(r, 0);
    AddLast(list, zero, r);
    r := r + [zero];
    assert LinkAt(r, 1) && r[0] == list;
    AddLast(zero, dyn, r);
    r := r + [dyn];
    assert LinkAt(r, 2) && r[0] == list;
    AddLast(dyn, kernel, r);
    assert r + [kernel] == [list, zero, dyn, kernel];
  }

  // Adding behind the last node of a ring.
  method AddLast(last: Vma, x: Vma, ghost ring: seq<Vma>)
    requires Linked(ring) && ring != [] && last == ring[|ring| - 1] && x !in ring
    modifies last`next, last.next`prev, x`next, x`prev
    ensures Linked(ring + [x])
  {
    assert LinkAt(ring, |ring| - 1);
    assert InsertAt(ring, |ring|, x) == ring + [x];
    AddAfter(last, x, ring, |ring| - 1);
  }

  // The unlinking step of user_munmap.
  method Unlink(p: Vma, ghost ring: seq<Vma>, ghost k: nat)
    requires Linked(ring) && |ring| > 2 && k < |ring| && p == ring[k]
    modifies p.prev`next, p.next`prev
    ensures Linked(RemoveAt(ring, k))
  {
    assert LinkAt(ring, k);
    DistinctRemove(ring, k);
    var prev := p.prev;
    var next := p.next;
    prev.next := next;
    next.prev := prev;
    ghost var r := RemoveAt(ring, k);
    forall i | 0 <= i < |r|
      ensures LinkAt(r, i)
    {
      assert old(LinkAt(ring, if i < k then i else i + 1));
    }
  }

  // ---- The three calls ----

  ghost function Spans(ring: seq<Vma>): (s: seq<Span>)
    reads ring
    ensures |s| == |ring|
    ensures forall i :: 0 <= i < |ring| ==> s[i] == Span(ring[i].addr, ring[i].length)
  {
    seq(|ring|, i requires 0 <= i < |ring| reads ring => Span(ring[i].addr, ring[i].length))
  }

  // Free bytes behind area k; behind the last one up to the end of the address space.
  ghost function Gap(s: seq<Span>, k: nat): int
    requires k < |s|
  {
    (if k + 1 < |s| then s[k + 1].addr else WORD) - (s[k].addr + s[k].length)
  }

  // The address lies strictly between the starts of area i and of the next one.
  ghost predicate Follows(s: seq<Span>, i: nat, addr: nat) {
    i + 1 < |s| && s[i].addr < addr < s[i + 1].addr
  }

  // The bytes from the start of area k to the next one.
  ghost function Room(s: seq<Span>, k: nat): int
    requires k < |s|
  {
    (if k + 1 < |s| then s[k + 1].addr else WORD) - s[k].addr
  }

  // Area k, at or after area d, is the first with that much room behind it.
  ghost predicate FirstGap(s: seq<Span>, d: nat, length: nat, k: nat) {
    d <= k < |s| && Gap(s, k) >= length && forall j :: d <= j < k ==> Gap(s, j) < length
  }

  // The new area lies behind area k and reaches into no other one.
  ghost predicate FitsBehind(s: seq<Span>, k: nat, x: Span) {
    k < |s| && Before(s[k], x) && (k + 1 < |s| ==> Before(x, s[k + 1]))
  }

  ghost predicate Clear(s: seq<Span>, x: Span) {
    forall i :: 0 < i < |s| ==> !Overlaps(s[i], x)
  }

  // No area fails the overlap test of the fixed case.
  ghost predicate Passes(s: seq<Span>, addr: nat, length: nat) {
    forall i :: 0 < i < |s| ==> !Collides(addr, length, s[i])
  }

  lemma PassesIsClear(s: seq<Span>, addr: nat, length: nat, limit: nat)
    requires Within(s, limit) && limit < WORD && 0 < length && addr + length < WORD
    ensures Passes(s, addr, length) <==> Clear(s, Span(addr, length))
  {
    forall i | 0 < i < |s|
      ensures Collides(addr, length, s[i]) <==> Overlaps(s[i], Span(addr, length))
    {
      CollidesExactly(addr, length, s[i]);
    }
  }

  ghost predicate HasPlace(s: seq<Span>, addr: nat) {
    exists i :: 0 < i < |s| && Follows(s, i, addr)
  }

  // When a fixed request of whole pages succeeds: it is free, lies above the lowest area and
  // below the highest, and inside what the host maps.
  ghost predicate FixedFits(s: seq<Span>, addr: nat, length: nat, limit: nat) {
    addr + length <= limit && Clear(s, Span(addr, length)) && HasPlace(s, addr)
  }

  // When a dynamic one does: some gap is large enough, and the first of them inside the limit.
  ghost predicate DynamicFits(s: seq<Span>, d: nat, length: nat, limit: nat) {
    exists k: nat :: FirstGap(s, d, length, k) && s[k].addr + s[k].length + length <= limit
  }

  lemma FirstGapIsUnique(s: seq<Span>, d: nat, length: nat, j: nat, k: nat)
    requires FirstGap(s, d, length, j) && FirstGap(s, d, length, k)
    ensures j == k
  {
  }

  // There is that much room behind an area exactly when a new one right behind it stays clear
  // of the next one, or of the end of the address space.
  lemma GapIsExact(s: seq<Span>, k: nat, length: nat)
    requires k < |s|
    ensures var x := Span(s[k].addr + s[k].length, length);
            Gap(s, k) >= length <==> if k + 1 < |s| then Before(x, s[k + 1]) else x.addr + x.length <= WORD
  {
  }

  // An area can take that size in place exactly when it then stays clear of the next one.
  lemma RoomIsExact(s: seq<Span>, k: nat, length: nat)
    requires k < |s|
    ensures Room(s, k) >= length <==>
            if k + 1 < |s| then Before(Span(s[k].addr, length), s[k + 1]) else s[k].addr + length <= WORD
  {
  }

  // The last area from d on that starts at or below an address.
  lemma {:induction false} LastBelow(s: seq<Span>, d: nat, b: nat) returns (j: nat)
    requires d < |s| && s[d].addr <= b
    ensures d <= j < |s| && s[j].addr <= b && (j + 1 < |s| ==> b < s[j + 1].addr)
    decreases |s| - d
  {
    j := d;
    if d + 1 < |s| && s[d + 1].addr <= b {
      j := LastBelow(s, d + 1, b);
    }
  }

  // The first gap is the lowest place: wherever else an area of that length is clear of all
  // others, from area d on, is no lower.
  lemma FirstGapIsLowest(s: seq<Span>, d: nat, length: nat, k: nat, b: nat)
    requires Apart(s) && FirstGap(s, d, length, k) && length > 0 && s[d].addr <= b && b + length <= WORD
    requires forall i :: 0 <= i < |s| ==> !Overlaps(s[i], Span(b, length))
    ensures s[k].addr + s[k].length <= b
  {
    var j := LastBelow(s, d, b);
    assert !Overlaps(s[j], Span(b, length));
    if j + 1 < |s| {
      assert !Overlaps(s[j + 1], Span(b, length));
      assert Before(s[j], s[j + 1]);
    }
    assert Gap(s, j) >= length;
    assert k < j ==> Before(s[k], s[j]);
  }

  lemma FitsOverlapsNone(s: seq<Span>, k: nat, x: Span)
    requires Apart(s) && FitsBehind(s, k, x)
    ensures forall i :: 0 <= i < |s| ==> !Overlaps(s[i], x)
  {
    forall i | 0 <= i < |s|
      ensures !Overlaps(s[i], x)
    {
      assert i < k ==> Before(s[i], s[k]);
      assert k + 1 < i ==> Before(s[k + 1], s[i]);
    }
  }

  // Two areas of the same place and positive size are the same area.
  lemma SpanIsUnique(s: seq<Span>, i: nat, j: nat)
    requires Apart(s) && i < |s| && j < |s| && s[i] == s[j] && s[i].length > 0
    ensures i == j
  {
    var before := (a: nat, b: nat) requires a < |s| && b < |s| => Before(s[a], s[b]);
    assert before(i, j) || before(j, i) || i == j;
  }

  // The area moved from k to the first gap, which lies behind area j.
  ghost predicate Moved(s: seq<Span>, t: seq<Span>, d: nat, k: nat, j: nat, x: Span) {
    && k < |s| && FirstGap(s, d, x.length, j) && x.addr == s[j].addr + s[j].length
    && t == RemoveAt(InsertAt(s, j + 1, x), if k <= j then k else k + 1)
  }

  // It keeps its place when the room up to the next area is enough.
  ghost predicate Remapped(s: seq<Span>, t: seq<Span>, d: nat, k: nat, j: nat, x: Span) {
    && k < |s|
    && if Room(s, k) >= x.length then x.addr == s[k].addr && t == s[k := x] else Moved(s, t, d, k, j, x)
  }

  class AddressSpace {
    // The sentinel node, and the node behind which the search for free areas starts.
    const head: Vma
    const dynStart: Vma
    // The end of what the host lets a process map.
    const limit: nat
    ghost var ring: seq<Vma>
    ghost var start: nat

    ghost predicate Valid()
      reads this, ring
    {
      && KERNEL + KERNEL_SIZE <= limit < WORD
      && 0 < start < |ring| && Linked(ring) && ring[0] == head && ring[start] == dynStart
      && head.addr == 0 && head.length == 0 && dynStart.addr == DYN_START && dynStart.length == 0
      && Apart(Spans(ring))
      && Within(Spans(ring), limit)
    }

    // init_mem: the areas every process starts with.
    constructor (lim: nat)
      requires KERNEL + KERNEL_SIZE <= lim < WORD
      ensures Valid() && limit == lim && fresh(ring)
      ensures Spans(ring) == [Span(0, 0), Span(0, 0), Span(DYN_START, 0), Span(KERNEL, KERNEL_SIZE)]
    {
      var list, zero, dyn, kernel := InitialNodes();
      head, dynStart, limit := list, dyn, lim;
      ring, start := [list, zero, dyn, kernel], 2;
      new;
    }

    // vma_list_new_fix_area: None when an area is in the way or none lies below the address.
    method NewFixArea(addr: nat, length: nat) returns (r: Option<Vma>, ghost k: nat)
      requires Valid() && 0 < length < WORD && addr < WORD
      ensures r.Some? <==> Passes(Spans(ring), addr, length) && HasPlace(Spans(ring), addr)
      ensures r.Some? ==> 0 < k < |ring| && ring[k] == r.value && Follows(Spans(ring), k, addr)
    {
      ghost var s := Spans(ring);
      r, k := None, 0;
      assert LinkAt(ring, 0);
      var p := head.next;
      ghost var i := 1;
      while p != head
        invariant 0 < i <= |ring| && p == if i < |ring| then ring[i] else head
        invariant forall j :: 0 < j < i ==> !Collides(addr, length, s[j])
        invariant r.Some? ==> 0 < k < |ring| && ring[k] == r.value && Follows(s, k, addr)
        invariant r.None? ==> forall j :: 0 < j < i ==> !Follows(s, j, addr)
        decreases |ring| - i
      {
        assert LinkAt(ring, i);
        if Collides(addr, length, Span(p.addr, p.length)) {
          return None, 0;
        }
        if p.addr < addr && addr < p.next.addr {
          r, k := Some(p), i;
        }
        p := p.next;
        i := i + 1;
      }
    }

    // Without wrap-around the test means what it should, and the area found leaves room.
    lemma FixAreaFits(addr: nat, length: nat, k: nat)
      requires Valid() && 0 < length && addr + length < WORD && 0 < k < |ring|
      requires Follows(Spans(ring), k, addr) && Passes(Spans(ring), addr, length)
      ensures FitsBehind(Spans(ring), k, Span(addr, length))
    {
      var s := Spans(ring);
      PassesIsClear(s, addr, length, limit);
      assert !Overlaps(s[k], Span(addr, length)) && !Overlaps(s[k + 1], Span(addr, length));
      assert Before(s[k], s[k + 1]);
    }

    // vma_list_new_dyn_area.
    method NewDynArea(length: nat) returns (r: Option<Vma>, ghost k: nat)
      requires Valid() && length < WORD
      ensures r.Some? ==> FirstGap(Spans(ring), start, length, k) && r.value == ring[k]
      ensures r.None? ==> forall j :: start <= j < |ring| ==> Gap(Spans(ring), j) < length
    {
      ghost var s := Spans(ring);
      var p := dynStart;
      k := start;
      while p != head
        invariant start <= k <= |ring| && p == if k < |ring| then ring[k] else head
        invariant forall j :: start <= j < k ==> Gap(s, j) < length
        decreases |ring| - k
      {
        assert LinkAt(ring, k);
        var right := p.next;
        var free := (right.addr - (p.addr + p.length)) % WORD;
        assert k + 1 < |ring| ==> Before(s[k], s[k + 1]);
        assert start < k ==> Before(s[start], s[k]);
        WrapSub(right.addr, p.addr + p.length);
        assert free == Gap(s, k);
        if free >= length {
          return Some(p), k;
        }
        p := p.next;
        k := k + 1;
      }
      r := None;
    }

    // The node joins the list behind node k.
    method Insert(left: Vma, vma: Vma, ghost k: nat)
      requires Linked(ring) && 0 < k < |ring| && left == ring[k] && vma !in ring && start < |ring|
      modifies this`ring, this`start, ring, vma
      ensures Linked(ring) && ring == InsertAt(old(ring), k + 1, vma)
      ensures Spans(ring) == InsertAt(old(Spans(ring)), k + 1, old(Span(vma.addr, vma.length)))
      ensures start == if k < old(start) then old(start) + 1 else old(start)
    {
      ghost var s, x := Spans(ring), Span(vma.addr, vma.length);
      assert LinkAt(ring, k);
      AddAfter(left, vma, ring, k);
      ring := InsertAt(ring, k + 1, vma);
      start := if k < start then start + 1 else start;
      assert Spans(ring) == InsertAt(s, k + 1, x);
    }

    // The list stays a good one if the host maps the new area.
    lemma InsertedIsValid(before: seq<Span>, k: nat, x: Span, start0: nat)
      requires KERNEL + KERNEL_SIZE <= limit < WORD && Linked(ring) && |ring| > 0 && ring[0] == head && start < |ring| && ring[start] == dynStart
      requires 0 < start0 < |before| && before[0] == Span(0, 0) && before[start0] == Span(DYN_START, 0)
      requires Apart(before) && Within(before, limit) && FitsBehind(before, k, x) && x.addr + x.length <= limit
      requires Spans(ring) == InsertAt(before, k + 1, x) && start == if k < start0 then start0 + 1 else start0
      ensures Valid()
    {
      InsertKeepsApart(before, k + 1, x);
      assert Spans(ring)[0] == Span(0, 0) && Spans(ring)[start] == Span(DYN_START, 0);
    }

    // The list after a request that the host maps where it was placed.
    ghost predicate Placed(s: seq<Span>, d: nat, addr: nat, len: nat, fixed: bool, k: nat, a: nat) {
      && FitsBehind(s, k, Span(a, len))
      && if fixed then a == addr && FixedFits(s, addr, len, limit)
         else FirstGap(s, d, len, k) && a == s[k].addr + s[k].length && a + len <= limit
    }

    // When a request finds such a place.
    ghost predicate Fits(s: seq<Span>, d: nat, addr: nat, len: nat, fixed: bool) {
      if fixed then FixedFits(s, addr, len, limit) else DynamicFits(s, d, len, limit)
    }

    // Where a request goes: the area it lies behind, and its address.
    method Locate(addr: nat, len: nat, fixed: bool) returns (left: Option<Vma>, a: nat, ghost k: nat)
      requires Valid() && addr < WORD && 0 < len < WORD
      ensures left.Some? ==> 0 < k < |ring| && left.value == ring[k] && a < WORD
      ensures left.Some? && a + len <= limit ==> Placed(Spans(ring), start, addr, len, fixed, k, a)
      ensures left.Some? && a + len <= limit <==> Fits(Spans(ring), start, addr, len, fixed)
    {
      a := addr;
      if fixed {
        left, k := NewFixArea(a, len);
        if addr + len < WORD {
          PassesIsClear(Spans(ring), addr, len, limit);
          if left.Some? {
            FixAreaFits(addr, len, k);
          }
        }
      } else {
        left, k := NewDynArea(len);
        if left.Some? {
          a := (left.value.addr + left.value.length) % WORD;
          DynAreaFits(len, k);
        }
      }
    }

    lemma DynAreaFits(len: nat, k: nat)
      requires Valid() && len > 0 && FirstGap(Spans(ring), start, len, k)
      ensures var s := Spans(ring);
              && s[k].addr + s[k].length < WORD && FitsBehind(s, k, Span(s[k].addr + s[k].length, len))
              && (DynamicFits(s, start, len, limit) <==> s[k].addr + s[k].length + len <= limit)
    {
      var s := Spans(ring);
      forall j | FirstGap(s, start, len, j)
        ensures j == k
      {
        FirstGapIsUnique(s, start, len, j, k);
      }
    }

    method AddArea(left: Vma, a: nat, len: nat, ghost k: nat)
      requires Valid() && 0 < k < |ring| && left == ring[k]
      modifies this`ring, this`start, ring
      ensures Linked(ring) && |ring| > 0 && ring[0] == head && start < |ring| && ring[start] == dynStart
      ensures Spans(ring) == InsertAt(old(Spans(ring)), k + 1, Span(a, len))
      ensures start == if k < old(start) then old(start) + 1 else old(start)
      ensures forall i :: 0 <= i < |ring| ==> ring[i] in old(ring) || fresh(ring[i])
    {
      var vma := new Vma(a, len);
      Insert(left, vma, k);
    }

    // user_mmap. The host's own answer is `accepts`, and it maps nothing beyond the limit;
    // None where the process aborts. k is the area that the new one lies behind.
    method Mmap(addr: nat, length: nat, fixed: bool, accepts: bool) returns (r: Option<nat>, ghost k: nat)
      requires Valid() && addr < WORD && 0 < length <= WORD - PAGE
      modifies this`ring, this`start, ring
      ensures r.Some? <==> accepts && Fits(old(Spans(ring)), old(start), addr, RoundUp(length), fixed)
      ensures r.Some? ==> Valid() && Placed(old(Spans(ring)), old(start), addr, RoundUp(length), fixed, k, r.value)
      ensures r.Some? ==> Spans(ring) == InsertAt(old(Spans(ring)), k + 1, Span(r.value, RoundUp(length)))
      ensures forall i :: 0 <= i < |ring| ==> ring[i] in old(ring) || fresh(ring[i])
    {
      ghost var s, start0 := Spans(ring), start;
      var len := RoundUp(length);
      var left: Option<Vma>;
      var a: nat;
      left, a, k := Locate(addr, len, fixed);
      if left.None? {
        return None, k;
      }
      AddArea(left.value, a, len, k);
      if !accepts || a + len > limit {
        return None, k;
      }
      InsertedIsValid(s, k, Span(a, len), start0);
      r := Some(a);
    }

    // vma_list_find_fix_area.
    method FindFixArea(addr: nat, length: nat) returns (r: Option<Vma>, ghost k: nat)
      requires Valid()
      ensures r.Some? ==> 0 < k < |ring| && ring[k] == r.value && Spans(ring)[k] == Span(addr, length)
      ensures r.None? ==> forall i :: 0 < i < |ring| ==> Spans(ring)[i] != Span(addr, length)
    {
      ghost var s := Spans(ring);
      assert LinkAt(ring, 0);
      var p := head.next;
      k := 1;
      while p != head
        invariant 0 < k <= |ring| && p == if k < |ring| then ring[k] else head
        invariant forall i :: 0 < i < k ==> s[i] != Span(addr, length)
        decreases |ring| - k
      {
        assert LinkAt(ring, k);
        if p.addr == addr && p.length == length {
          return Some(p), k;
        }
        p := p.next;
        k := k + 1;
      }
      r := None;
    }

    // Taking node k out of the list.
    method Remove(p: Vma, ghost k: nat)
      requires Valid() && 0 < k < |ring| && p == ring[k] && k != start
      modifies this`ring, this`start, ring
      ensures Valid() && Spans(ring) == RemoveAt(old(Spans(ring)), k)
    {
      ghost var s := Spans(ring);
      assert LinkAt(ring, k);
      Unlink(p, ring, k);
      ghost var start0 := start;
      ring := RemoveAt(ring, k);
      start := if k < start then start - 1 else start;
      assert Spans(ring) == RemoveAt(s, k);
      RemovedIsValid(s, k, start0);
    }

    lemma RemovedIsValid(before: seq<Span>, k: nat, start0: nat)
      requires KERNEL + KERNEL_SIZE <= limit < WORD && Linked(ring) && |ring| > 0 && ring[0] == head && start < |ring| && ring[start] == dynStart
      requires 0 < start0 < |before| && before[0] == Span(0, 0) && before[start0] == Span(DYN_START, 0)
      requires Apart(before) && Within(before, limit) && 0 < k < |before| && k != start0
      requires Spans(ring) == RemoveAt(before, k) && start == if k < start0 then start0 - 1 else start0
      ensures Valid()
    {
      RemoveKeepsApart(before, k);
      assert Spans(ring)[0] == Span(0, 0) && Spans(ring)[start] == Span(DYN_START, 0);
    }

    // user_munmap: exactly the area of that place and size goes; false where the process aborts.
    method Munmap(addr: nat, length: nat) returns (ok: bool, ghost k: nat)
      requires Valid() && length > 0
      modifies this`ring, this`start, ring
      ensures ok <==> exists i :: 0 < i < |old(ring)| && old(Spans(ring))[i] == Span(addr, length)
      ensures ok ==> 0 < k < |old(ring)| && old(Spans(ring))[k] == Span(addr, length)
                     && Valid() && Spans(ring) == RemoveAt(old(Spans(ring)), k)
      ensures !ok ==> Valid() && ring == old(ring) && Spans(ring) == old(Spans(ring))
    {
      var p: Option<Vma>;
      p, k := FindFixArea(addr, length);
      ok := p.Some?;
      if ok {
        Remove(p.value, k);
      }
    }

    // Growing or shrinking node k in place.
    method Resize(p: Vma, len: nat, ghost k: nat)
      requires Valid() && 0 < k < |ring| && p == ring[k] && k != start && p.addr + len <= limit
      requires k + 1 < |ring| ==> p.addr + len <= Spans(ring)[k + 1].addr
      modifies p`length
      ensures Valid() && Spans(ring) == old(Spans(ring))[k := Span(p.addr, len)]
    {
      ghost var s := Spans(ring);
      p.length := len;
      forall i | 0 <= i < |ring|
        ensures LinkAt(ring, i)
      {
        assert old(LinkAt(ring, i));
      }
      assert Spans(ring) == s[k := Span(p.addr, len)];
      ResizeKeepsApart(s, k, len);
    }

    // The branch of user_mremap that moves the area: a new one is mapped, the old one goes.
    method Move(addr: nat, length: nat, newSize: nat, accepts: bool, ghost k: nat) returns (r: Option<nat>, ghost j: nat)
      requires Valid() && 0 < k < |ring| && Spans(ring)[k] == Span(addr, length) && length > 0 && 0 < newSize <= WORD - PAGE
      modifies this`ring, this`start, ring
      ensures r.Some? <==> accepts && DynamicFits(old(Spans(ring)), old(start), RoundUp(newSize), limit)
      ensures r.Some? ==> Valid() && Moved(old(Spans(ring)), Spans(ring), old(start), k, j, Span(r.value, RoundUp(newSize)))
    {
      ghost var s := Spans(ring);
      r, j := Mmap(0, newSize, false, accepts);
      if r.Some? {
        ghost var t, k' := Spans(ring), if k <= j then k else k + 1;
        assert t[k'] == s[k];
        var ok: bool;
        ghost var i: nat;
        ok, i := Munmap(addr, length);
        if ok {
          SpanIsUnique(t, i, k');
        }
      }
    }

    // When user_mremap succeeds: there is such an area, and it can grow in place or move.
    ghost predicate CanRemap(s: seq<Span>, d: nat, addr: nat, length: nat, len: nat) {
      exists k :: 0 < k < |s| && s[k] == Span(addr, length) &&
                  if Room(s, k) >= len then addr + len <= limit else DynamicFits(s, d, len, limit)
    }

    // user_mremap: in place when the room up to the next area is enough, otherwise moved to
    // the first free gap.
    method Mremap(addr: nat, length: nat, newSize: nat, accepts: bool) returns (r: Option<nat>, ghost k: nat, ghost j: nat)
      requires Valid() && length > 0 && 0 < newSize <= WORD - PAGE
      modifies this`ring, this`start, ring
      ensures r.Some? ==> Valid() && k < |old(ring)| && old(Spans(ring))[k] == Span(addr, length)
      ensures r.Some? <==> accepts && CanRemap(old(Spans(ring)), old(start), addr, length, RoundUp(newSize))
      ensures r.Some? ==> Remapped(old(Spans(ring)), Spans(ring), old(start), k, j, Span(r.value, RoundUp(newSize)))
    {
      var p: Option<Vma>;
      r, j := None, 0;
      p, k := FindFixArea(addr, length);
      if p.None? {
        return;
      }
      ghost var s := Spans(ring);
      forall i | 0 < i < |s| && s[i] == Span(addr, length)
        ensures i == k
      {
        SpanIsUnique(s, i, k);
      }
      var free := FreeToExpand(p.value, k);
      var len := RoundUp(newSize);
      if free >= len {
        if !accepts || addr + len > limit {
          return;
        }
        Resize(p.value, len, k);
        r := Some(addr);
      } else {
        r, j := Move(addr, length, newSize, accepts, k);
      }
    }

    // The distance to the next area, in 64-bit arithmetic.
    method FreeToExpand(p: Vma, ghost k: nat) returns (free: nat)
      requires Valid() && 0 < k < |ring| && ring[k] == p && p.length > 0
      ensures free == Room(Spans(ring), k) && k != start
    {
      assert LinkAt(ring, k);
      RoomIsFree(k);
      free := (p.next.addr - p.addr) % WORD;
    }

    lemma RoomIsFree(k: nat)
      requires Valid() && 0 < k < |ring| && Spans(ring)[k].length > 0
      ensures (ring[Succ(k, |ring|)].addr - ring[k].addr) % WORD == Room(Spans(ring), k)
    {
      var s := Spans(ring);
      assert k + 1 < |ring| ==> Before(s[k], s[k + 1]);
      assert start < k ==> Before(s[start], s[k]);
      assert k < start ==> Before(s[k], s[start]);
      assert k + 1 < |ring| ==> s[k + 1].addr + s[k + 1].length <= limit;
      WrapSub(ring[Succ(k, |ring|)].addr, ring[k].addr);
    }
  }
}
