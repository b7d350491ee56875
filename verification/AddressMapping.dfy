// SetAddressMapping and AddressMapping of configuration.cc: six bit fields in any order.
module AddressMapping {
  import opened Options
  import opened DramTypes

  // ---- Bits ----

  function Pow2(n: nat): (p: nat)
    ensures p >= 1
  {
    if n == 0 then 1 else 2 * Pow2(n - 1)
  }

  // x >> k
  function Shr(x: nat, k: nat): nat {
    if k == 0 then x else Shr(x / 2, k - 1)
  }

  // x << k, nothing being lost
  function Shl(x: nat, k: nat): nat {
    if k == 0 then x else 2 * Shl(x, k - 1)
  }

  // x & ((1 << w) - 1)
  function Mask(x: nat, w: nat): nat {
    if w == 0 then 0 else x % 2 + 2 * Mask(x / 2, w - 1)
  }

  lemma {:induction false} SplitBits(x: nat, w: nat)
    ensures Mask(x, w) + Shl(Shr(x, w), w) == x
    ensures Mask(x, w) < Pow2(w)
  {
    if w > 0 {
      SplitBits(x / 2, w - 1);
    }
  }

  lemma {:induction false} JoinBits(v: nat, y: nat, w: nat)
    requires v < Pow2(w)
    ensures Shr(v + Shl(y, w), w) == y && Mask(v + Shl(y, w), w) == v
  {
    if w > 0 {
      var x := v + Shl(y, w);
      assert x / 2 == v / 2 + Shl(y, w - 1) && x % 2 == v % 2;
      JoinBits(v / 2, y, w - 1);
    }
  }

  lemma {:induction false} ShrAdd(x: nat, a: nat, b: nat)
    ensures Shr(Shr(x, a), b) == Shr(x, a + b)
  {
    if a > 0 {
      ShrAdd(x / 2, a - 1, b);
    }
  }

  lemma {:induction false} ShrBound(x: nat, a: nat, b: nat)
    ensures x < Pow2(a + b) <==> Shr(x, a) < Pow2(b)
  {
    if a > 0 {
      ShrBound(x / 2, a - 1, b);
    }
  }

  // ---- Bit fields, lowest first ----

  function Sum(ws: seq<nat>): nat {
    if ws == [] then 0 else ws[0] + Sum(ws[1..])
  }

  // The values of consecutive bit fields of these widths.
  function Fields(ws: seq<nat>, x: nat): (r: seq<nat>)
    ensures |r| == |ws|
  {
    if ws == [] then [] else [Mask(x, ws[0])] + Fields(ws[1..], Shr(x, ws[0]))
  }

  // Packing field values.
  function Pack(ws: seq<nat>, vs: seq<nat>): nat
    requires |vs| == |ws|
  {
    if ws == [] then 0 else vs[0] + Shl(Pack(ws[1..], vs[1..]), ws[0])
  }

  ghost predicate Fit(ws: seq<nat>, vs: seq<nat>) {
    |vs| == |ws| && forall i :: 0 <= i < |ws| ==> vs[i] < Pow2(ws[i])
  }

  lemma {:induction false} PackFields(ws: seq<nat>, x: nat)
    requires x < Pow2(Sum(ws))
    ensures Pack(ws, Fields(ws, x)) == x
  {
    if ws != [] {
      ShrBound(x, ws[0], Sum(ws[1..]));
      PackFields(ws[1..], Shr(x, ws[0]));
      SplitBits(x, ws[0]);
      assert Fields(ws, x)[1..] == Fields(ws[1..], Shr(x, ws[0]));
    }
  }

  lemma {:induction false} FieldsPack(ws: seq<nat>, vs: seq<nat>)
    requires Fit(ws, vs)
    ensures Fields(ws, Pack(ws, vs)) == vs && Pack(ws, vs) < Pow2(Sum(ws))
  {
    if ws != [] {
      var rest := Pack(ws[1..], vs[1..]);
      FieldsPack(ws[1..], vs[1..]);
      JoinBits(vs[0], rest, ws[0]);
      ShrBound(vs[0] + Shl(rest, ws[0]), ws[0], Sum(ws[1..]));
    }
  }

  // Where field i starts.
  function Offset(ws: seq<nat>, i: nat): nat
    requires i <= |ws|
  {
    if i == 0 then 0 else ws[0] + Offset(ws[1..], i - 1)
  }

  // Shifting and masking extracts the field.
  lemma {:induction false} FieldAt(ws: seq<nat>, x: nat, i: nat)
    requires i < |ws|
    ensures Fields(ws, x)[i] == Mask(Shr(x, Offset(ws, i)), ws[i])
  {
    if i > 0 {
      FieldAt(ws[1..], Shr(x, ws[0]), i - 1);
      ShrAdd(x, ws[0], Offset(ws[1..], i - 1));
    }
  }

  lemma {:induction false} OffsetNext(ws: seq<nat>, i: nat)
    requires i < |ws|
    ensures Offset(ws, i + 1) == Offset(ws, i) + ws[i] && Offset(ws, |ws|) == Sum(ws)
  {
    if i > 0 {
      OffsetNext(ws[1..], i - 1);
    } else if |ws| > 1 {
      OffsetNext(ws[1..], 0);
    }
  }

  // ---- The configuration ----

  datatype Field = Ch | Ra | Bg | Ba | Ro | Co

  function ParseField(token: string): Option<Field> {
    if token == "ch" then Some(Ch)
    else if token == "ra" then Some(Ra)
    else if token == "bg" then Some(Bg)
    else if token == "ba" then Some(Ba)
    else if token == "ro" then Some(Ro)
    else if token == "co" then Some(Co)
    else None
  }

  datatype Geometry = Geometry(channels: nat, ranks: nat, bankgroups: nat, banksPerGroup: nat, rows: nat, columns: nat, burst: nat, busWidth: nat)

  // Where each field starts, its width, and how many low address bits are dropped.
  datatype Layout = Layout(shift: nat, pos: map<Field, nat>, width: map<Field, nat>) {
    ghost predicate Complete() {
      forall f: Field :: f in pos && f in width
    }
  }

  // AddressMapping.
  function Coordinate(l: Layout, f: Field, hex: nat): nat
    requires f in l.pos && f in l.width
  {
    Mask(Shr(Shr(hex, l.shift), l.pos[f]), l.width[f])
  }

  function Map(l: Layout, hex: nat): Address
    requires l.Complete()
  {
    Address(Coordinate(l, Ch, hex), Coordinate(l, Ra, hex), Coordinate(l, Bg, hex),
            Coordinate(l, Ba, hex), Coordinate(l, Ro, hex), Coordinate(l, Co, hex))
  }

  // GetChannel of dram_system.cc.
  function GetChannel(l: Layout, hex: nat): int
    requires l.Complete()
  {
    Mask(Shr(Shr(hex, l.shift), l.pos[Ch]), l.width[Ch])
  }

  // The largest i with 2^i <= n; 0 for 0.
  function Log2(n: nat): (i: nat)
    ensures n >= 1 ==> Pow2(i) <= n < 2 * Pow2(i)
  {
    if n <= 1 then 0 else 1 + Log2(n / 2)
  }

  method LogBase2(n: nat) returns (i: nat)
    ensures i == Log2(n)
  {
    i := 0;
    var m := n;
    while m > 1
      invariant i + Log2(m) == Log2(n)
    {
      m := m / 2;
      i := i + 1;
    }
  }

  function WidthOf(g: Geometry, f: Field): int {
    match f
    case Ch => Log2(g.channels)
    case Ra => Log2(g.ranks)
    case Bg => Log2(g.bankgroups)
    case Ba => Log2(g.banksPerGroup)
    case Ro => Log2(g.rows)
    case Co => Log2(g.columns) - Log2(g.burst)
  }

  // How many values a field may take.
  function CountOf(g: Geometry, f: Field): nat {
    match f
    case Ch => g.channels
    case Ra => g.ranks
    case Bg => g.bankgroups
    case Ba => g.banksPerGroup
    case Ro => g.rows
    case Co => g.columns
  }

  // Positive counts, and columns enough for one burst.
  predicate Sane(g: Geometry) {
    && (forall f: Field :: CountOf(g, f) >= 1)
    && Log2(g.columns) >= Log2(g.burst)
  }

  function Widths(g: Geometry, fields: seq<Field>): (ws: seq<nat>)
    requires Sane(g)
    ensures |ws| == |fields| && forall i :: 0 <= i < |ws| ==> ws[i] == WidthOf(g, fields[i])
  {
    seq(|fields|, i requires 0 <= i < |fields| => WidthOf(g, fields[i]))
  }

  // The two-letter tokens of a mapping string; the first one is the highest field.
  function Tokens(s: string): (r: seq<string>)
    requires |s| % 2 == 0
    ensures |r| == |s| / 2 && forall i :: 0 <= i < |r| ==> r[i] == s[2 * i..2 * i + 2]
  {
    seq(|s| / 2, i requires 0 <= i < |s| / 2 => s[2 * i..2 * i + 2])
  }

  // The lowest k fields have been placed: each where some occurrence of it belongs.
  ghost predicate Placing(g: Geometry, low: seq<Field>, pos: map<Field, nat>, next: nat)
    requires Sane(g)
  {
    && next == Offset(Widths(g, low), |low|)
    && (forall f :: f in pos <==> f in low)
    && (forall f :: f in pos ==> exists j :: PlacedAt(g, low, pos, f, j))
  }

  ghost predicate PlacedAt(g: Geometry, low: seq<Field>, pos: map<Field, nat>, f: Field, j: nat)
    requires Sane(g)
  {
    j < |low| && low[j] == f && f in pos && pos[f] == Offset(Widths(g, low), j)
  }

  lemma {:induction false} OffsetPrefix(ws: seq<nat>, us: seq<nat>, j: nat)
    requires j <= |ws|
    ensures Offset(ws + us, j) == Offset(ws, j)
  {
    if j > 0 {
      assert (ws + us)[1..] == ws[1..] + us;
      OffsetPrefix(ws[1..], us, j - 1);
    }
  }

  lemma PlaceNext(g: Geometry, low: seq<Field>, pos: map<Field, nat>, next: nat, f: Field)
    requires Sane(g) && Placing(g, low, pos, next)
    ensures Placing(g, low + [f], pos[f := next], next + WidthOf(g, f))
  {
    var ws, low', pos' := Widths(g, low), low + [f], pos[f := next];
    var ws' := Widths(g, low');
    assert ws' == ws + [WidthOf(g, f)];
    OffsetPrefix(ws, [WidthOf(g, f)], |ws|);
    OffsetNext(ws', |ws|);
    forall h | h in pos'
      ensures exists j :: PlacedAt(g, low', pos', h, j)
    {
      if h == f {
        assert PlacedAt(g, low', pos', h, |low|);
      } else {
        var j :| PlacedAt(g, low, pos, h, j);
        OffsetPrefix(ws, [WidthOf(g, f)], j);
        assert PlacedAt(g, low', pos', h, j);
      }
    }
  }

  // Every field once, lowest first, each starting where the ones below it end.
  ghost predicate Describes(g: Geometry, low: seq<Field>, l: Layout) {
    && Sane(g) && l.Complete() && |low| == 6
    && (forall f: Field :: f in low)
    && forall i :: 0 <= i < |low| ==> l.pos[low[i]] == Offset(Widths(g, low), i) && l.width[low[i]] == WidthOf(g, low[i])
  }

  lemma {:induction false} NoRepeats(s: seq<Field>, all: set<Field>)
    requires |all| == |s| && forall f :: f in s <==> f in all
    ensures forall i, j :: 0 <= i < j < |s| ==> s[i] != s[j]
  {
    if s != [] {
      var f, rest := s[0], s[1..];
      if f in rest {
        Fewer(rest, all);
      } else {
        assert forall h :: h in rest <==> h in all - {f};
        NoRepeats(rest, all - {f});
      }
    }
  }

  lemma {:induction false} Fewer(s: seq<Field>, all: set<Field>)
    requires forall f :: f in all ==> f in s
    ensures |all| <= |s|
  {
    if s == [] {
      assert all == {};
    } else {
      assert forall f :: f in all - {s[0]} ==> f in s[1..];
      Fewer(s[1..], all - {s[0]});
    }
  }

  lemma SixFields(low: seq<Field>)
    requires |low| == 6 && forall f: Field :: f in low
    ensures forall i, j :: 0 <= i < j < |low| ==> low[i] != low[j]
  {
    var all := {Ch, Ra, Bg, Ba, Ro, Co};
    assert |all - {Ch}| == 5;
    AllSix(all);
    NoRepeats(low, all);
  }

  lemma PlacedDescribes(g: Geometry, low: seq<Field>, pos: map<Field, nat>, next: nat, l: Layout)
    requires Sane(g) && Placing(g, low, pos, next) && |low| == 6 && forall f: Field :: f in pos
    requires l.pos == pos && forall f: Field :: f in l.width && l.width[f] == WidthOf(g, f)
    ensures Describes(g, low, l)
  {
    SixFields(low);
    forall i | 0 <= i < |low|
      ensures pos[low[i]] == Offset(Widths(g, low), i)
    {
      var f := low[i];
      assert f in pos;
      var j :| PlacedAt(g, low, pos, f, j);
      assert j == i;
    }
  }

  // The loop of SetAddressMapping: from the back of the string, so from the lowest bits
  // upwards. None where it meets an unknown field.
  method PlaceFields(g: Geometry, all: seq<string>) returns (r: Option<map<Field, nat>>, ghost low: seq<Field>, ghost next: nat)
    requires Sane(g)
    ensures r.Some? ==> |low| == |all| && Placing(g, low, r.value, next)
    ensures r.Some? ==> forall i :: 0 <= i < |low| ==> ParseField(all[|all| - 1 - i]) == Some(low[i])
    ensures r.None? ==> exists i :: 0 <= i < |all| && ParseField(all[i]).None?
  {
    var fields := all;
    var pos: map<Field, nat> := map[];
    var at: nat := 0;
    low := [];
    while fields != []
      invariant fields <= all && |fields| + |low| == |all| && Placing(g, low, pos, at)
      invariant forall i :: 0 <= i < |low| ==> ParseField(all[|all| - 1 - i]) == Some(low[i])
    {
      var token := fields[|fields| - 1];
      var f := ParseField(token);
      if f.None? {
        assert all[|fields| - 1] == token;
        return None, low, at;
      }
      fields := fields[..|fields| - 1];
      PlaceNext(g, low, pos, at, f.value);
      pos := pos[f.value := at];
      at := at + WidthOf(g, f.value);
      low := low + [f.value];
    }
    r, next := Some(pos), at;
  }

  // Six known fields, none of them missing.
  ghost predicate NamesEveryField(tokens: seq<string>) {
    && |tokens| == 6
    && (forall i :: 0 <= i < 6 ==> ParseField(tokens[i]).Some?)
    && (forall f: Field :: Names(tokens, f))
  }

  ghost predicate Names(tokens: seq<string>, f: Field) {
    exists i :: 0 <= i < |tokens| && ParseField(tokens[i]) == Some(f)
  }

  lemma PlacedNames(tokens: seq<string>, low: seq<Field>)
    requires |tokens| == |low| == 6
    requires forall i :: 0 <= i < |low| ==> ParseField(tokens[6 - 1 - i]) == Some(low[i])
    ensures NamesEveryField(tokens) <==> forall f: Field :: f in low
  {
    forall i | 0 <= i < 6
      ensures ParseField(tokens[i]) == Some(low[5 - i])
    {
      assert ParseField(tokens[6 - 1 - (5 - i)]) == Some(low[5 - i]);
    }
    forall f: Field
      ensures Names(tokens, f) <==> f in low
    {
      if f in low {
        var j :| 0 <= j < 6 && low[j] == f;
        assert ParseField(tokens[5 - j]) == Some(low[5 - (5 - j)]);
      }
    }
  }

  // SetAddressMapping. None where the process exits: a wrong length, an unknown field, or
  // one that is missing.
  method SetAddressMapping(g: Geometry, mapping: string) returns (r: Option<Layout>, ghost low: seq<Field>)
    requires Sane(g)
    ensures r.Some? <==> |mapping| == 12 && NamesEveryField(Tokens(mapping))
    ensures r.Some? ==> Describes(g, low, r.value) && r.value.shift == Log2(g.busWidth / 8 * g.burst)
    ensures r.Some? ==> Spelled(mapping, low)
  {
    low := [];
    if |mapping| != 12 {
      return None, low;
    }
    var shift := LogBase2(g.busWidth / 8 * g.burst);
    var tokens := Tokens(mapping);
    var placed: Option<map<Field, nat>>;
    ghost var next: nat;
    placed, low, next := PlaceFields(g, tokens);
    if placed.None? {
      return None, low;
    }
    PlacedNames(tokens, low);
    var pos := placed.value;
    if !(Ch in pos && Ra in pos && Bg in pos && Ba in pos && Ro in pos && Co in pos) {
      return None, low;
    }
    AllSix(pos.Keys);
    r := Some(Layout(shift, pos, FieldWidths(g)));
    PlacedDescribes(g, low, pos, next, r.value);
  }

  lemma AllSix(s: set<Field>)
    requires Ch in s && Ra in s && Bg in s && Ba in s && Ro in s && Co in s
    ensures forall f: Field :: f in s
  {
    forall f: Field
      ensures f in s
    {
      match f
      case Ch =>
      case Ra =>
      case Bg =>
      case Ba =>
      case Ro =>
      case Co =>
    }
  }

  function FieldWidths(g: Geometry): (r: map<Field, nat>)
    requires Sane(g)
    ensures forall f: Field :: f in r && r[f] == WidthOf(g, f)
  {
    var all := {Ch, Ra, Bg, Ba, Ro, Co};
    AllSix(all);
    map f | f in all :: WidthOf(g, f)
  }

  // ---- The coordinates in terms of the mapping string ----

  lemma HalfOfQuotient(x: nat, n: nat)
    requires n >= 1
    ensures (x / 2) / n == x / (2 * n)
    ensures x % 2 + 2 * ((x / 2) % n) == x % (2 * n)
  {
    var q, r := (x / 2) / n, x % 2 + 2 * ((x / 2) % n);
    assert x / 2 == q * n + (x / 2) % n;
    assert x == q * (2 * n) + r && 0 <= r < 2 * n;
    QuotientIs(x, 2 * n, q, r);
  }

  lemma QuotientIs(x: int, n: int, q: int, r: int)
    requires 0 <= r < n && x == q * n + r
    ensures x / n == q && x % n == r
  {
    var d := x / n - q;
    assert x == (x / n) * n + x % n;
    assert d * n == r - x % n;
    if d > 0 { AtLeastOnce(d, n); }
    if d < 0 { AtLeastOnce(-d, n); }
  }

  lemma AtLeastOnce(d: int, n: int)
    requires d >= 1 && n >= 1
    ensures d * n >= n
  {
  }

  lemma {:induction false} ShrDivides(x: nat, k: nat)
    ensures Shr(x, k) == x / Pow2(k)
  {
    if k > 0 {
      ShrDivides(x / 2, k - 1);
      HalfOfQuotient(x, Pow2(k - 1));
    }
  }

  lemma {:induction false} MaskIsRemainder(x: nat, w: nat)
    ensures Mask(x, w) == x % Pow2(w)
  {
    if w > 0 {
      MaskIsRemainder(x / 2, w - 1);
      HalfOfQuotient(x, Pow2(w - 1));
    }
  }

  // The bits of the field that two letters name.
  function BitsOf(g: Geometry, name: string): nat
    requires Sane(g)
  {
    if name == "ch" then Log2(g.channels)
    else if name == "ra" then Log2(g.ranks)
    else if name == "bg" then Log2(g.bankgroups)
    else if name == "ba" then Log2(g.banksPerGroup)
    else if name == "ro" then Log2(g.rows)
    else if name == "co" then Log2(g.columns) - Log2(g.burst)
    else 0
  }

  function CoordinateCalled(a: Address, name: string): int {
    if name == "ch" then a.channel
    else if name == "ra" then a.rank
    else if name == "bg" then a.bankgroup
    else if name == "ba" then a.bank
    else if name == "ro" then a.row
    else if name == "co" then a.column
    else -1
  }

  // The k-th name of the string from its end.
  function NameFromEnd(mapping: string, k: nat): string
    requires |mapping| == 12 && k < 6
  {
    mapping[10 - 2 * k..12 - 2 * k]
  }

  // The bits of the last k fields named, which lie lowest.
  function BitsBehind(g: Geometry, mapping: string, k: nat): nat
    requires Sane(g) && |mapping| == 12 && k <= 6
  {
    if k == 0 then 0 else BitsBehind(g, mapping, k - 1) + BitsOf(g, NameFromEnd(mapping, k - 1))
  }

  // The string, lowest field first.
  ghost predicate Spelled(mapping: string, low: seq<Field>) {
    && |mapping| == 12 && |low| == 6
    && forall i :: 0 <= i < 6 ==> ParseField(Tokens(mapping)[6 - 1 - i]) == Some(low[i])
  }

  lemma NameParses(mapping: string, low: seq<Field>, k: nat)
    requires Spelled(mapping, low) && k < 6
    ensures ParseField(NameFromEnd(mapping, k)) == Some(low[k])
  {
    assert Tokens(mapping)[6 - 1 - k] == NameFromEnd(mapping, k);
  }

  lemma NamedBits(g: Geometry, name: string, f: Field)
    requires Sane(g) && ParseField(name) == Some(f)
    ensures WidthOf(g, f) == BitsOf(g, name)
  {
  }

  lemma {:induction false} NamedOffset(g: Geometry, mapping: string, low: seq<Field>, k: nat)
    requires Sane(g) && Spelled(mapping, low) && k < 6
    ensures Offset(Widths(g, low), k) == BitsBehind(g, mapping, k)
  {
    if k > 0 {
      NamedOffset(g, mapping, low, k - 1);
      NameParses(mapping, low, k - 1);
      NamedBits(g, NameFromEnd(mapping, k - 1), low[k - 1]);
      OffsetNext(Widths(g, low), k - 1);
    }
  }

  lemma NamedCoordinate(l: Layout, hex: nat, f: Field, name: string)
    requires l.Complete() && ParseField(name) == Some(f)
    ensures CoordinateCalled(Map(l, hex), name) == Coordinate(l, f, hex)
  {
  }

  lemma CoordinateIsQuotient(l: Layout, f: Field, hex: nat)
    requires l.Complete()
    ensures Coordinate(l, f, hex) == (hex / Pow2(l.shift + l.pos[f])) % Pow2(l.width[f])
  {
    ShrAdd(hex, l.shift, l.pos[f]);
    ShrDivides(hex, l.shift + l.pos[f]);
    MaskIsRemainder(Shr(Shr(hex, l.shift), l.pos[f]), l.width[f]);
  }

  // The field of that name holds the bits of the address from `below` block bits up.
  ghost predicate HoldsBits(g: Geometry, l: Layout, hex: nat, name: string, below: nat)
    requires Sane(g) && l.Complete()
  {
    CoordinateCalled(Map(l, hex), name) == (hex / Pow2(l.shift + below)) % Pow2(BitsOf(g, name))
  }

  // Under an accepted mapping string every field holds the bits of the address above those
  // that the block offset and the fields named behind it take up.
  lemma FieldsByName(g: Geometry, mapping: string, low: seq<Field>, l: Layout, hex: nat, k: nat)
    requires Describes(g, low, l) && Spelled(mapping, low) && k < 6
    ensures HoldsBits(g, l, hex, NameFromEnd(mapping, k), BitsBehind(g, mapping, k))
  {
    NameParses(mapping, low, k);
    NamedOffset(g, mapping, low, k);
    FieldByName(g, l, low[k], NameFromEnd(mapping, k), hex, BitsBehind(g, mapping, k));
  }

  lemma FieldByName(g: Geometry, l: Layout, f: Field, name: string, hex: nat, below: nat)
    requires Sane(g) && l.Complete() && ParseField(name) == Some(f) && l.pos[f] == below && l.width[f] == WidthOf(g, f)
    ensures HoldsBits(g, l, hex, name, below)
  {
    NamedBits(g, name, f);
    NamedCoordinate(l, hex, f, name);
    CoordinateIsQuotient(l, f, hex);
  }

  // ---- What the mapping guarantees ----

  // Each bit of a block number below the mapped size belongs to exactly one field.
  lemma BitsArePartitioned(g: Geometry, low: seq<Field>, l: Layout, bit: nat)
    requires Describes(g, low, l) && bit < Sum(Widths(g, low))
    ensures exists f: Field :: l.pos[f] <= bit < l.pos[f] + l.width[f]
    ensures forall f: Field, h: Field :: l.pos[f] <= bit < l.pos[f] + l.width[f] && l.pos[h] <= bit < l.pos[h] + l.width[h] ==> f == h
  {
    var ws := Widths(g, low);
    var i := FieldOfBit(ws, bit, 0);
    assert l.pos[low[i]] <= bit < l.pos[low[i]] + l.width[low[i]];
    forall f: Field | l.pos[f] <= bit < l.pos[f] + l.width[f]
      ensures f == low[i]
    {
      assert f in low;
      var j :| 0 <= j < |low| && low[j] == f;
      OffsetsAscend(ws, if i < j then i else j, if i < j then j else i);
    }
  }

  lemma {:induction false} FieldOfBit(ws: seq<nat>, bit: nat, i: nat) returns (k: nat)
    requires i <= |ws| && Offset(ws, i) <= bit < Sum(ws)
    ensures k < |ws| && Offset(ws, k) <= bit < Offset(ws, k) + ws[k]
    decreases |ws| - i
  {
    SumIsLastOffset(ws);
    OffsetNext(ws, i);
    if bit < Offset(ws, i + 1) {
      k := i;
    } else {
      k := FieldOfBit(ws, bit, i + 1);
    }
  }

  lemma {:induction false} SumIsLastOffset(ws: seq<nat>)
    ensures Offset(ws, |ws|) == Sum(ws)
  {
    if ws != [] {
      SumIsLastOffset(ws[1..]);
    }
  }

  lemma {:induction false} OffsetsAscend(ws: seq<nat>, i: nat, j: nat)
    requires i <= j <= |ws|
    ensures Offset(ws, i) <= Offset(ws, j)
    ensures i < j ==> Offset(ws, i) + ws[i] <= Offset(ws, j)
    decreases j - i
  {
    if i < j {
      OffsetNext(ws, i);
      OffsetsAscend(ws, i + 1, j);
    }
  }

  // The coordinates of an address are the fields of its block number.
  lemma CoordinatesAreFields(g: Geometry, low: seq<Field>, l: Layout, hex: nat, i: nat)
    requires Describes(g, low, l) && i < 6
    ensures Coordinate(l, low[i], hex) == Fields(Widths(g, low), Shr(hex, l.shift))[i]
  {
    FieldAt(Widths(g, low), Shr(hex, l.shift), i);
  }

  // Two addresses below the mapped size with the same coordinates lie in the same block.
  lemma MappingIsInjective(g: Geometry, low: seq<Field>, l: Layout, a: nat, b: nat)
    requires Describes(g, low, l) && Map(l, a) == Map(l, b)
    requires Shr(a, l.shift) < Pow2(Sum(Widths(g, low))) && Shr(b, l.shift) < Pow2(Sum(Widths(g, low)))
    ensures Shr(a, l.shift) == Shr(b, l.shift)
  {
    var ws := Widths(g, low);
    var x, y := Shr(a, l.shift), Shr(b, l.shift);
    forall i | 0 <= i < 6
      ensures Fields(ws, x)[i] == Fields(ws, y)[i]
    {
      CoordinatesAreFields(g, low, l, a, i);
      CoordinatesAreFields(g, low, l, b, i);
      SameCoordinate(l, low[i], a, b);
    }
    PackFields(ws, x);
    PackFields(ws, y);
    assert Fields(ws, x) == Fields(ws, y);
  }

  lemma SameCoordinate(l: Layout, f: Field, a: nat, b: nat)
    requires l.Complete() && Map(l, a) == Map(l, b)
    ensures Coordinate(l, f, a) == Coordinate(l, f, b)
  {
    match f
    case Ch =>
    case Ra =>
    case Bg =>
    case Ba =>
    case Ro =>
    case Co =>
  }

  lemma AddressOf(ws: seq<nat>, vs: seq<nat>, shift: nat) returns (hex: nat)
    requires Fit(ws, vs)
    ensures Fields(ws, Shr(hex, shift)) == vs && Shr(hex, shift) < Pow2(Sum(ws))
  {
    var block := Pack(ws, vs);
    FieldsPack(ws, vs);
    hex := Shl(block, shift);
    JoinBits(0, block, shift);
  }

  // Every coordinate below the field sizes is reached, by an address below the mapped size.
  lemma MappingIsOnto(g: Geometry, low: seq<Field>, l: Layout, target: map<Field, nat>) returns (hex: nat)
    requires Describes(g, low, l) && forall f: Field :: f in target && target[f] < Pow2(l.width[f])
    ensures Shr(hex, l.shift) < Pow2(Sum(Widths(g, low)))
    ensures forall f: Field :: Coordinate(l, f, hex) == target[f]
  {
    var ws := Widths(g, low);
    var vs := seq(6, i requires 0 <= i < 6 => target[low[i]]);
    hex := AddressOf(ws, vs, l.shift);
    forall f: Field
      ensures Coordinate(l, f, hex) == target[f]
    {
      assert f in low;
      var i :| 0 <= i < 6 && low[i] == f;
      CoordinatesAreFields(g, low, l, hex, i);
    }
  }

  // A count that is no power of two is rounded down: exactly the coordinates below the field
  // size are reached, by addresses below the mapped size, so with three ranks the last one
  // never is.
  lemma ReachedExactly(g: Geometry, low: seq<Field>, l: Layout, f: Field, v: nat)
    requires Describes(g, low, l)
    ensures v < Pow2(l.width[f]) ==>
              exists hex: nat :: Shr(hex, l.shift) < Pow2(Sum(Widths(g, low))) && Coordinate(l, f, hex) == v
    ensures v >= Pow2(l.width[f]) ==> forall hex: nat :: Coordinate(l, f, hex) != v
  {
    if v < Pow2(l.width[f]) {
      var target: map<Field, nat> := map h: Field | h in low :: if h == f then v else 0;
      var hex := MappingIsOnto(g, low, l, target);
      assert f in low;
      assert Coordinate(l, f, hex) == v;
    } else {
      forall hex: nat
        ensures Coordinate(l, f, hex) != v
      {
        SplitBits(Shr(Shr(hex, l.shift), l.pos[f]), l.width[f]);
      }
    }
  }

  // Every coordinate of every address exists, whether or not the counts are powers of two.
  lemma CoordinatesInRange(g: Geometry, low: seq<Field>, l: Layout, hex: nat)
    requires Describes(g, low, l)
    ensures forall f: Field :: Coordinate(l, f, hex) < CountOf(g, f)
    ensures Map(l, hex).channel == GetChannel(l, hex)
  {
    forall f: Field
      ensures Coordinate(l, f, hex) < CountOf(g, f)
    {
      assert f in low;
      var i :| 0 <= i < 6 && low[i] == f;
      SplitBits(Shr(Shr(hex, l.shift), l.pos[f]), l.width[f]);
      if f == Co {
        Pow2Ascends(l.width[f], Log2(g.columns));
      }
    }
  }

  lemma {:induction false} Pow2Ascends(a: nat, b: nat)
    requires a <= b
    ensures Pow2(a) <= Pow2(b)
  {
    if a > 0 {
      Pow2Ascends(a - 1, b - 1);
    }
  }

  // So a channel configuration over such a mapping is a valid one.
  lemma MappedConfigIsValid(g: Geometry, low: seq<Field>, l: Layout, cfg: Config)
    requires Describes(g, low, l) && cfg.refreshInterval > 0
    requires cfg.ranks == g.ranks && cfg.bankgroups == g.bankgroups && cfg.banksPerGroup == g.banksPerGroup
    requires forall hex: nat :: cfg.mapping(hex) == Map(l, hex)
    ensures cfg.Valid()
  {
    assert CountOf(g, Ra) >= 1 && CountOf(g, Bg) >= 1 && CountOf(g, Ba) >= 1;
    forall a: nat
      ensures cfg.InRange(cfg.BankOf(a))
    {
      CoordinatesInRange(g, low, l, a);
      assert Coordinate(l, Ra, a) < CountOf(g, Ra) && Coordinate(l, Bg, a) < CountOf(g, Bg) && Coordinate(l, Ba, a) < CountOf(g, Ba);
      assert cfg.mapping(a) == Map(l, a);
    }
  }
}
