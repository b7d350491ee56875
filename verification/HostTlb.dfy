// The direct-mapped host TLB (src/memory/host-tlb.c): cached offsets from guest virtual
// to host addresses, against translating every access afresh.
module HostTlb {
  import opened Options
  import opened Words

  const SIZE: nat := 4096

  // A page number that no address has.
  const INVALID: nat := WORD - 1

  type byte = x: int | 0 <= x < 256

  function Vpn(vaddr: nat): nat { vaddr / PAGE }
  function Idx(vpn: nat): nat { vpn % SIZE }

  // An access of one to eight bytes inside one page of the address space.
  predicate InPage(vaddr: nat, len: nat) {
    0 < len <= 8 && vaddr % PAGE + len <= PAGE && vaddr < WORD
  }

  // Devices answer accesses outside physical memory and change state with them.
  datatype Devices = Devices(
    onRead: (int, nat, nat) -> (seq<byte>, int),
    onWrite: (int, nat, seq<byte>) -> int)

  // The guest machine without any cache: page map, physical memory from `base` on, devices.
  datatype Guest = Guest(pages: nat -> nat, base: nat, pmem: seq<byte>, dev: int) {
    function Translate(vaddr: nat): nat {
      pages(Vpn(vaddr)) * PAGE + vaddr % PAGE
    }

    predicate InPmem(paddr: nat) {
      base <= paddr < base + |pmem|
    }
  }

  // Every access is translated afresh.
  function PlainRead(d: Devices, g: Guest, vaddr: nat, len: nat): (seq<byte>, Guest)
    requires Aligned(g) && InPage(vaddr, len)
  {
    var paddr := g.Translate(vaddr);
    if g.InPmem(paddr) then
      PageInPmem(g, vaddr, len);
      (g.pmem[paddr - g.base..paddr - g.base + len], g)
    else
      var (v, dev) := d.onRead(g.dev, paddr, len);
      (v, g.(dev := dev))
  }

  function PlainWrite(d: Devices, g: Guest, vaddr: nat, data: seq<byte>): Guest
    requires Aligned(g) && InPage(vaddr, |data|)
  {
    var paddr := g.Translate(vaddr);
    if g.InPmem(paddr) then
      PageInPmem(g, vaddr, |data|);
      g.(pmem := Patch(g.pmem, paddr - g.base, data))
    else g.(dev := d.onWrite(g.dev, paddr, data))
  }

  function Patch(s: seq<byte>, at: nat, data: seq<byte>): (r: seq<byte>)
    requires at + |data| <= |s|
    ensures |r| == |s|
  {
    s[..at] + data + s[at + |data|..]
  }

  // Memory keeps what is stored: the bytes written are read back, and every byte of physical
  // memory outside them stays.
  lemma StoredIsLoaded(d: Devices, g: Guest, vaddr: nat, data: seq<byte>, k: nat)
    requires Aligned(g) && InPage(vaddr, |data|) && g.InPmem(g.Translate(vaddr)) && k < |g.pmem|
    ensures var h := PlainWrite(d, g, vaddr, data);
            && Aligned(h) && h.pages == g.pages && h.dev == g.dev && PlainRead(d, h, vaddr, |data|) == (data, h)
            && var i := k - (g.Translate(vaddr) - g.base);
               h.pmem[k] == if 0 <= i < |data| then data[i] else g.pmem[k]
  {
    PageInPmem(g, vaddr, |data|);
    var h := PlainWrite(d, g, vaddr, data);
    var at := g.Translate(vaddr) - g.base;
    assert h.pmem[at..at + |data|] == data;
  }

  // Physical memory consists of whole pages.
  predicate Aligned(g: Guest) {
    g.base % PAGE == 0 && |g.pmem| % PAGE == 0
  }

  // So a page is in physical memory as a whole or not at all.
  lemma PageInPmem(g: Guest, vaddr: nat, len: nat)
    requires Aligned(g) && InPage(vaddr, len) && g.InPmem(g.Translate(vaddr))
    ensures g.Translate(vaddr) + len <= g.base + |g.pmem|
    ensures g.base <= g.pages(Vpn(vaddr)) * PAGE && g.pages(Vpn(vaddr)) * PAGE + PAGE <= g.base + |g.pmem|
  {
    var q, b, n := g.pages(Vpn(vaddr)), g.base / PAGE, |g.pmem| / PAGE;
    assert g.base == b * PAGE && |g.pmem| == n * PAGE;
    assert b <= q < b + n;
  }

  // ---- Runs without a cache ----

  // A changed translation is followed by a flush of its page, or of everything.
  datatype Access =
    | Load(vaddr: nat, len: nat)
    | Store(vaddr: nat, data: seq<byte>)
    | Change(vaddr: nat, ppn: nat)
    | ChangeAll(pages: nat -> nat)

  predicate Proper(a: Access) {
    match a
    case Load(vaddr, len) => InPage(vaddr, len)
    case Store(vaddr, data) => InPage(vaddr, |data|)
    case Change(vaddr, _) => vaddr < WORD
    case ChangeAll(_) => true
  }

  function Redirected(pages: nat -> nat, vaddr: nat, ppn: nat): nat -> nat {
    v => if v == Vpn(vaddr) then ppn else pages(v)
  }

  function PlainStep(d: Devices, g: Guest, a: Access): (r: (Option<seq<byte>>, Guest))
    requires Aligned(g) && Proper(a)
    ensures Aligned(r.1)
  {
    match a
    case Load(vaddr, len) => (var (v, h) := PlainRead(d, g, vaddr, len); (Some(v), h))
    case Store(vaddr, data) => (None, PlainWrite(d, g, vaddr, data))
    case Change(vaddr, ppn) => (None, g.(pages := Redirected(g.pages, vaddr, ppn)))
    case ChangeAll(pages) => (None, g.(pages := pages))
  }

  function PlainRun(d: Devices, g: Guest, ops: seq<Access>): (r: (seq<Option<seq<byte>>>, Guest))
    requires Aligned(g) && forall i :: 0 <= i < |ops| ==> Proper(ops[i])
    ensures Aligned(r.1)
    decreases |ops|
  {
    if ops == [] then ([], g)
    else
      var n := |ops| - 1;
      var (out, h) := PlainRun(d, g, ops[..n]);
      var (v, k) := PlainStep(d, h, ops[n]);
      (out + [v], k)
  }

  // ---- The cache ----

  // offset is what to add to an address of page gvpn to get the position in pmem.
  datatype Entry = Entry(gvpn: nat, offset: int)

  // A valid entry leads where the page map leads, into physical memory.
  predicate EntryOk(g: Guest, e: Entry) {
    e.gvpn == INVALID ||
    (var page := g.pages(e.gvpn) * PAGE;
     g.base <= page && page + PAGE <= g.base + |g.pmem| && e.offset == page - g.base - e.gvpn * PAGE)
  }

  ghost predicate AllOk(g: Guest, entries: seq<Entry>) {
    forall i :: 0 <= i < |entries| ==> SlotOk(g, entries[i], i)
  }

  // An entry sits in the slot of its page number.
  predicate SlotOk(g: Guest, e: Entry, i: nat) {
    EntryOk(g, e) && (e.gvpn == INVALID || Idx(e.gvpn) == i)
  }

  // Changing memory or devices, but no translation, leaves entries valid.
  lemma SamePages(g: Guest, h: Guest, entries: seq<Entry>)
    requires AllOk(g, entries) && h.pages == g.pages && h.base == g.base && |h.pmem| == |g.pmem|
    ensures AllOk(h, entries)
  {
    forall i | 0 <= i < |entries|
      ensures SlotOk(h, entries[i], i)
    {
      assert SlotOk(g, entries[i], i);
    }
  }

  // A flush of the page whose translation changed, or of everything, removes every stale entry.
  lemma FlushedIsOk(g: Guest, h: Guest, before: seq<Entry>, after: seq<Entry>, vaddr: nat)
    requires AllOk(g, before) && |after| == |before| && h.base == g.base && |h.pmem| == |g.pmem| && vaddr < WORD
    requires vaddr == 0 || forall v :: v != Vpn(vaddr) ==> h.pages(v) == g.pages(v)
    requires forall i :: 0 <= i < |before| ==> after[i] == Flushed(before[i], vaddr, i)
    ensures AllOk(h, after)
  {
    forall i | 0 <= i < |after|
      ensures SlotOk(h, after[i], i)
    {
      assert SlotOk(g, before[i], i);
    }
  }

  lemma HitIsTranslation(g: Guest, e: Entry, vaddr: nat, len: nat)
    requires Aligned(g) && InPage(vaddr, len) && EntryOk(g, e) && e.gvpn == Vpn(vaddr)
    ensures g.InPmem(g.Translate(vaddr)) && e.offset + vaddr == g.Translate(vaddr) - g.base
    ensures 0 <= e.offset + vaddr && e.offset + vaddr + len <= |g.pmem|
  {
    assert vaddr == Vpn(vaddr) * PAGE + vaddr % PAGE;
  }

  // What a slow access caches.
  lemma FilledIsOk(g: Guest, vaddr: nat, len: nat)
    requires Aligned(g) && InPage(vaddr, len) && g.InPmem(g.Translate(vaddr))
    ensures EntryOk(g, Entry(Vpn(vaddr), g.Translate(vaddr) - g.base - vaddr))
  {
    PageInPmem(g, vaddr, len);
    assert vaddr == Vpn(vaddr) * PAGE + vaddr % PAGE;
  }

  function Flushed(e: Entry, vaddr: nat, i: nat): Entry {
    if vaddr == 0 then Entry(INVALID, -1)
    else if i == Idx(Vpn(vaddr)) && e.gvpn == Vpn(vaddr) then e.(gvpn := INVALID)
    else e
  }

  // After an access to physical memory the slot of its page holds that page, so the next one
  // hits; no other slot changes, and none at all after an access to a device.
  ghost predicate Cached(g: Guest, vaddr: nat, before: seq<Entry>, after: seq<Entry>) {
    && |before| == |after| == SIZE
    && (forall i :: 0 <= i < SIZE && i != Idx(Vpn(vaddr)) ==> after[i] == before[i])
    && (if g.InPmem(g.Translate(vaddr)) then after[Idx(Vpn(vaddr))].gvpn == Vpn(vaddr)
        else after[Idx(Vpn(vaddr))] == before[Idx(Vpn(vaddr))])
  }

  class Tlb {
    const devices: Devices
    const base: nat
    const pmem: array<byte>
    const hostrtlb: array<Entry>
    const hostwtlb: array<Entry>
    var pages: nat -> nat
    var dev: int

    ghost function Machine(): Guest
      reads this, pmem
    {
      Guest(pages, base, pmem[..], dev)
    }

    ghost predicate Valid()
      reads this, pmem, hostrtlb, hostwtlb
    {
      && hostrtlb.Length == SIZE && hostwtlb.Length == SIZE && hostrtlb != hostwtlb
      && Aligned(Machine())
      && AllOk(Machine(), hostrtlb[..]) && AllOk(Machine(), hostwtlb[..])
    }

    constructor (d: Devices, b: nat, memory: array<byte>, p: nat -> nat, deviceState: int)
      requires b % PAGE == 0 && memory.Length % PAGE == 0
      ensures Valid() && devices == d && pmem == memory && Machine() == Guest(p, b, memory[..], deviceState)
      ensures fresh(hostrtlb) && fresh(hostwtlb)
    {
      devices, base, pmem, pages, dev := d, b, memory, p, deviceState;
      hostrtlb := new Entry[SIZE](_ => Entry(INVALID, -1));
      hostwtlb := new Entry[SIZE](_ => Entry(INVALID, -1));
    }

    // hosttlb_flush: address 0 stands for everything.
    method Flush(vaddr: nat)
      requires hostrtlb.Length == SIZE && hostwtlb.Length == SIZE && hostrtlb != hostwtlb && vaddr < WORD
      modifies hostrtlb, hostwtlb
      ensures forall i :: 0 <= i < SIZE ==> hostrtlb[i] == Flushed(old(hostrtlb[i]), vaddr, i)
      ensures forall i :: 0 <= i < SIZE ==> hostwtlb[i] == Flushed(old(hostwtlb[i]), vaddr, i)
    {
      if vaddr == 0 {
        forall i | 0 <= i < SIZE {
          hostrtlb[i] := Entry(INVALID, -1);
        }
        forall i | 0 <= i < SIZE {
          hostwtlb[i] := Entry(INVALID, -1);
        }
      } else {
        var gvpn := Vpn(vaddr);
        var idx := Idx(gvpn);
        if hostrtlb[idx].gvpn == gvpn {
          hostrtlb[idx] := hostrtlb[idx].(gvpn := INVALID);
        }
        if hostwtlb[idx].gvpn == gvpn {
          hostwtlb[idx] := hostwtlb[idx].(gvpn := INVALID);
        }
      }
    }

    // ---- Accesses ----

    // The slow paths: translate, cache if the page lies in physical memory, access.
    method ReadSlowPath(vaddr: nat, len: nat) returns (v: seq<byte>)
      requires Valid() && InPage(vaddr, len)
      modifies this`dev, hostrtlb
      ensures Valid() && (v, Machine()) == PlainRead(devices, old(Machine()), vaddr, len)
      ensures Cached(old(Machine()), vaddr, old(hostrtlb[..]), hostrtlb[..])
    {
      ghost var g := Machine();
      var paddr := pages(Vpn(vaddr)) * PAGE + vaddr % PAGE;
      if base <= paddr < base + pmem.Length {
        FilledIsOk(g, vaddr, len);
        PageInPmem(g, vaddr, len);
        ghost var before := hostrtlb[..];
        hostrtlb[Idx(Vpn(vaddr))] := Entry(Vpn(vaddr), paddr - base - vaddr);
        assert hostrtlb[..] == before[Idx(Vpn(vaddr)) := Entry(Vpn(vaddr), paddr - base - vaddr)];
        v := pmem[paddr - base..paddr - base + len];
      } else {
        var r := devices.onRead(dev, paddr, len);
        v := r.0;
        dev := r.1;
        SamePages(g, Machine(), hostrtlb[..]);
        SamePages(g, Machine(), hostwtlb[..]);
      }
    }

    method WriteSlowPath(vaddr: nat, data: seq<byte>)
      requires Valid() && InPage(vaddr, |data|)
      modifies this`dev, hostwtlb, pmem
      ensures Valid() && Machine() == PlainWrite(devices, old(Machine()), vaddr, data)
      ensures Cached(old(Machine()), vaddr, old(hostwtlb[..]), hostwtlb[..])
    {
      ghost var g := Machine();
      var paddr := pages(Vpn(vaddr)) * PAGE + vaddr % PAGE;
      if base <= paddr < base + pmem.Length {
        FilledIsOk(g, vaddr, |data|);
        PageInPmem(g, vaddr, |data|);
        ghost var before := hostwtlb[..];
        hostwtlb[Idx(Vpn(vaddr))] := Entry(Vpn(vaddr), paddr - base - vaddr);
        assert hostwtlb[..] == before[Idx(Vpn(vaddr)) := Entry(Vpn(vaddr), paddr - base - vaddr)];
        HostWrite(paddr - base, data);
      } else {
        dev := devices.onWrite(dev, paddr, data);
      }
      SamePages(g, Machine(), hostrtlb[..]);
      SamePages(g, Machine(), hostwtlb[..]);
    }

    // host_write: the bytes of one access.
    method HostWrite(at: nat, data: seq<byte>)
      requires at + |data| <= pmem.Length
      modifies pmem
      ensures pmem[..] == Patch(old(pmem[..]), at, data)
    {
      ghost var before := pmem[..];
      var i := 0;
      while i < |data|
        invariant 0 <= i <= |data| && pmem[..] == Patch(before, at, data[..i])
      {
        pmem[at + i] := data[i];
        assert data[..i + 1] == data[..i] + [data[i]];
        i := i + 1;
      }
      assert data[..i] == data;
    }

    method Read(vaddr: nat, len: nat) returns (v: seq<byte>)
      requires Valid() && InPage(vaddr, len)
      modifies this`dev, hostrtlb
      ensures Valid() && (v, Machine()) == PlainRead(devices, old(Machine()), vaddr, len)
      ensures Cached(old(Machine()), vaddr, old(hostrtlb[..]), hostrtlb[..])
    {
      var e := hostrtlb[Idx(Vpn(vaddr))];
      if e.gvpn != Vpn(vaddr) {
        v := ReadSlowPath(vaddr, len);
        return;
      }
      assert SlotOk(Machine(), hostrtlb[..][Idx(Vpn(vaddr))], Idx(Vpn(vaddr)));
      HitIsTranslation(Machine(), e, vaddr, len);
      v := pmem[e.offset + vaddr..e.offset + vaddr + len];
    }

    method Write(vaddr: nat, data: seq<byte>)
      requires Valid() && InPage(vaddr, |data|)
      modifies this`dev, hostwtlb, pmem
      ensures Valid() && Machine() == PlainWrite(devices, old(Machine()), vaddr, data)
      ensures Cached(old(Machine()), vaddr, old(hostwtlb[..]), hostwtlb[..])
    {
      var e := hostwtlb[Idx(Vpn(vaddr))];
      if e.gvpn != Vpn(vaddr) {
        WriteSlowPath(vaddr, data);
        return;
      }
      ghost var g := Machine();
      assert SlotOk(g, hostwtlb[..][Idx(Vpn(vaddr))], Idx(Vpn(vaddr)));
      HitIsTranslation(g, e, vaddr, |data|);
      HostWrite(e.offset + vaddr, data);
      SamePages(g, Machine(), hostrtlb[..]);
      SamePages(g, Machine(), hostwtlb[..]);
    }

    // The guest changes translations and flushes the page, or flushes everything.
    method Remap(newPages: nat -> nat, vaddr: nat)
      requires Valid() && vaddr < WORD
      requires vaddr == 0 || forall v :: v != Vpn(vaddr) ==> newPages(v) == pages(v)
      modifies this`pages, hostrtlb, hostwtlb
      ensures Valid() && Machine() == old(Machine()).(pages := newPages)
    {
      ghost var g, r, w := Machine(), hostrtlb[..], hostwtlb[..];
      pages := newPages;
      Flush(vaddr);
      FlushedIsOk(g, Machine(), r, hostrtlb[..], vaddr);
      FlushedIsOk(g, Machine(), w, hostwtlb[..], vaddr);
    }

    method Step(a: Access) returns (v: Option<seq<byte>>)
      requires Valid() && Proper(a)
      modifies this`dev, this`pages, pmem, hostrtlb, hostwtlb
      ensures Valid() && (v, Machine()) == PlainStep(devices, old(Machine()), a)
    {
      v := None;
      match a
      case Load(vaddr, len) =>
        var bytes := Read(vaddr, len);
        v := Some(bytes);
      case Store(vaddr, data) =>
        Write(vaddr, data);
      case Change(vaddr, ppn) =>
        Remap(Redirected(pages, vaddr, ppn), vaddr);
      case ChangeAll(newPages) =>
        Remap(newPages, 0);
    }

    // Any interleaving of accesses and translation changes answers every load, and leaves
    // memory and devices, as if each access were translated afresh.
    method Run(ops: seq<Access>) returns (out: seq<Option<seq<byte>>>)
      requires Valid() && forall i :: 0 <= i < |ops| ==> Proper(ops[i])
      modifies this`dev, this`pages, pmem, hostrtlb, hostwtlb
      ensures Valid() && (out, Machine()) == PlainRun(devices, old(Machine()), ops)
    {
      out := [];
      var i := 0;
      assert ops[..0] == [];
      while i < |ops|
        invariant 0 <= i <= |ops| && Valid()
        invariant (out, Machine()) == PlainRun(devices, old(Machine()), ops[..i])
      {
        assert ops[..i + 1][..i] == ops[..i];
        var v := Step(ops[i]);
        out := out + [v];
        i := i + 1;
      }
      assert ops[..i] == ops;
    }
  }
}
