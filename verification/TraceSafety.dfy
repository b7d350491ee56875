// What the sequence of issued commands satisfies: the pushed delays, the activation
// windows, and the row-buffer protocol.
module TraceSafety {
  import opened Options
  import opened DramTypes
  import opened BankModel
  import opened ChannelModel

  datatype Issued = Issued(cmd: Command, clk: nat)
  type Trace = seq<Issued>

  // One command per cycle, all before clk.
  ghost predicate Ordered(trace: Trace, clk: nat) {
    && (forall i :: 0 <= i < |trace| ==> trace[i].clk < clk)
    && (forall i, j :: 0 <= i < j < |trace| ==> trace[i].clk < trace[j].clk)
  }

  // ---- Delays ----

  // Entry m of the table that the earlier command pushes onto b is respected at clk.
  predicate Respects(timing: Timing, earlier: Issued, b: BankId, m: nat, t: CommandType, clk: nat)
    requires m < |TableFor(timing, earlier.cmd, b)|
  {
    var entry := TableFor(timing, earlier.cmd, b)[m];
    entry.0 == t ==> clk >= earlier.clk + entry.1
  }

  // Every two issued commands keep every delay that the first pushes onto a bank that
  // the second acts on (for a rank-wide command, every bank of the rank).
  ghost predicate TimingSafe(cfg: Config, trace: Trace) {
    forall i, j, b, m ::
      0 <= i < j < |trace| && cfg.InRange(b) && Covers(trace[j].cmd, b) && 0 <= m < |TableFor(cfg.timing, trace[i].cmd, b)| ==>
        Respects(cfg.timing, trace[i], b, m, trace[j].cmd.cmdType, trace[j].clk)
  }

  // The earliest-time tables of the banks remember all of it.
  ghost predicate Remembered(cfg: Config, banks: map<BankId, Bank>, trace: Trace)
    requires forall b :: b in banks ==> |banks[b].timing| == NUM_TYPES
  {
    forall i, b, m ::
      0 <= i < |trace| && b in banks && 0 <= m < |TableFor(cfg.timing, trace[i].cmd, b)| ==>
        RemembersEntry(cfg, banks[b], trace[i], b, m)
  }

  predicate RemembersEntry(cfg: Config, bank: Bank, earlier: Issued, b: BankId, m: nat)
    requires |bank.timing| == NUM_TYPES && m < |TableFor(cfg.timing, earlier.cmd, b)|
  {
    var entry := TableFor(cfg.timing, earlier.cmd, b)[m];
    bank.Earliest(entry.0) >= Deadline(earlier.clk, entry.1)
  }

  lemma BankAfter(cfg: Config, ch: Channel, c: Command, clk: nat, b: BankId)
    requires Legal(cfg, ch, c, clk) && BanksOk(ch) && b in ch.banks
    requires UpdateTimingAndStates(cfg, ch, c, clk).Some?
    ensures var ch' := UpdateTimingAndStates(cfg, ch, c, clk).value;
            && b in ch'.banks
            && var mid := if Covers(c, b) then Update(ch.banks[b], c).value else ch.banks[b];
               && |mid.timing| == NUM_TYPES && mid.timing == ch.banks[b].timing
               && ch'.banks[b] == PushAll(mid, TableFor(cfg.timing, c, b), clk)
  {
    UpdateStateShape(cfg, ch, c);
  }

  lemma StepRemembers(cfg: Config, ch: Channel, ch': Channel, c: Command, clk: nat, trace: Trace)
    requires Legal(cfg, ch, c, clk) && BanksOk(ch) && UpdateTimingAndStates(cfg, ch, c, clk) == Some(ch')
    requires ChannelShape(cfg, ch')
    requires Remembered(cfg, ch.banks, trace)
    ensures Remembered(cfg, ch'.banks, trace + [Issued(c, clk)])
  {
    var trace' := trace + [Issued(c, clk)];
    forall i, b, m | 0 <= i < |trace'| && b in ch'.banks && 0 <= m < |TableFor(cfg.timing, trace'[i].cmd, b)|
      ensures RemembersEntry(cfg, ch'.banks[b], trace'[i], b, m)
    {
      assert b in ch.banks;
      BankAfter(cfg, ch, c, clk, b);
      if i < |trace| {
        assert trace'[i] == trace[i];
        assert RemembersEntry(cfg, ch.banks[b], trace[i], b, m);
      } else {
        var mid := if Covers(c, b) then Update(ch.banks[b], c).value else ch.banks[b];
        PushAllBounds(mid, TableFor(cfg.timing, c, b), clk, m);
      }
    }
  }

  lemma StepTimingSafe(cfg: Config, ch: Channel, c: Command, clk: nat, trace: Trace)
    requires Legal(cfg, ch, c, clk) && Remembered(cfg, ch.banks, trace) && TimingSafe(cfg, trace)
    ensures TimingSafe(cfg, trace + [Issued(c, clk)])
  {
    var trace' := trace + [Issued(c, clk)];
    forall i, j, b, m | 0 <= i < j < |trace'| && cfg.InRange(b) && Covers(trace'[j].cmd, b) &&
                        0 <= m < |TableFor(cfg.timing, trace'[i].cmd, b)|
      ensures Respects(cfg.timing, trace'[i], b, m, trace'[j].cmd.cmdType, trace'[j].clk)
    {
      assert trace'[i] == trace[i];
      if j < |trace| {
        assert trace'[j] == trace[j];
      } else {
        assert b in cfg.AllBanks();
        assert RemembersEntry(cfg, ch.banks[b], trace[i], b, m);
      }
    }
  }

  // ---- Activation windows ----

  // The times of the activations of one rank.
  function Activations(trace: Trace, rank: int): seq<nat> {
    if trace == [] then []
    else
      var e := trace[|trace| - 1];
      var before := Activations(trace[..|trace| - 1], rank);
      if e.cmd.cmdType == Activate && e.cmd.addr.rank == rank then before + [e.clk] else before
  }

  // Any n + 1 consecutive activations span at least `length` cycles.
  ghost predicate Spread(acts: seq<nat>, n: nat, length: nat) {
    forall i :: 0 <= i && i + n < |acts| ==> acts[i + n] >= acts[i] + length
  }

  // The stored window is the tail of the activations, each with its expiry; what was
  // dropped had expired when it was dropped; at most n entries are stored.
  ghost predicate WindowTail(window: seq<nat>, acts: seq<nat>, n: nat, length: nat) {
    var k := |acts| - |window|;
    && 0 <= k && |window| <= n
    && (forall i :: 0 <= i < |window| ==> window[i] == acts[k + i] + length)
    && (forall i :: 0 <= i < k ==> acts[i] + length <= acts[|acts| - 1])
    && (forall i, j :: 0 <= i < j < |acts| ==> acts[i] <= acts[j])
  }

  // One more activation, if the window lets it through.
  lemma WindowStep(window: seq<nat>, acts: seq<nat>, n: nat, length: nat, clk: nat)
    requires n > 0 && WindowTail(window, acts, n, length) && Spread(acts, n, length)
    requires WindowOk(window, clk, n) && (acts != [] ==> acts[|acts| - 1] <= clk)
    ensures WindowTail(WindowPush(window, clk, length), acts + [clk], n, length) && Spread(acts + [clk], n, length)
  {
    WindowSpread(window, acts, n, length, clk);
    var kept := if window != [] && clk >= window[0] then window[1..] else window;
    var k := |acts| - |kept|;
    forall i | 0 <= i < |kept|
      ensures kept[i] == acts[k + i] + length
    {
      assert kept[i] == window[i + |window| - |kept|];
    }
    forall i | 0 <= i < k
      ensures acts[i] + length <= clk
    {
      if i == |acts| - |window| {
        assert window[0] == acts[i] + length;
      }
    }
    WindowTailAppend(kept, acts, n, length, clk);
  }

  lemma WindowTailAppend(kept: seq<nat>, acts: seq<nat>, n: nat, length: nat, clk: nat)
    requires |kept| < n && |kept| <= |acts|
    requires forall i :: 0 <= i < |kept| ==> kept[i] == acts[|acts| - |kept| + i] + length
    requires forall i :: 0 <= i < |acts| - |kept| ==> acts[i] + length <= clk
    requires forall i, j :: 0 <= i < j < |acts| ==> acts[i] <= acts[j]
    requires acts != [] ==> acts[|acts| - 1] <= clk
    ensures WindowTail(kept + [clk + length], acts + [clk], n, length)
  {
  }

  lemma WindowSpread(window: seq<nat>, acts: seq<nat>, n: nat, length: nat, clk: nat)
    requires n > 0 && WindowTail(window, acts, n, length) && Spread(acts, n, length)
    requires WindowOk(window, clk, n) && (acts != [] ==> acts[|acts| - 1] <= clk)
    ensures Spread(acts + [clk], n, length)
  {
    var i := |acts| - n;
    if i >= 0 {
      assert acts[i] + length <= clk by {
        if |window| == n {
          assert window[0] == acts[i] + length;
        }
      }
    }
  }

  lemma {:induction false} ActivationsBefore(trace: Trace, rank: int, clk: nat)
    requires Ordered(trace, clk)
    ensures forall i :: 0 <= i < |Activations(trace, rank)| ==> Activations(trace, rank)[i] < clk
  {
    if trace != [] {
      var front := trace[..|trace| - 1];
      assert Ordered(front, clk);
      ActivationsBefore(front, rank, clk);
      assert trace[|trace| - 1].clk < clk;
    }
  }

  ghost predicate WindowsOk(cfg: Config, fourAw: seq<seq<nat>>, thirtyTwoAw: seq<seq<nat>>, trace: Trace) {
    && |fourAw| == cfg.ranks && |thirtyTwoAw| == cfg.ranks
    && forall r :: 0 <= r < cfg.ranks ==> RankWindowsOk(cfg, fourAw[r], thirtyTwoAw[r], Activations(trace, r))
  }

  ghost predicate RankWindowsOk(cfg: Config, fourAw: seq<nat>, thirtyTwoAw: seq<nat>, acts: seq<nat>) {
    && WindowTail(fourAw, acts, 4, cfg.tFAW) && Spread(acts, 4, cfg.tFAW)
    && (cfg.gddr ==> WindowTail(thirtyTwoAw, acts, 32, cfg.t32AW) && Spread(acts, 32, cfg.t32AW))
  }

  // The windows after a command: only an activation touches them, in its own rank.
  lemma WindowsAfter(cfg: Config, ch: Channel, ch': Channel, c: Command, clk: nat)
    requires ChannelShape(cfg, ch) && Addressed(cfg, c) && UpdateTimingAndStates(cfg, ch, c, clk) == Some(ch')
    ensures forall r :: 0 <= r < cfg.ranks ==>
              if c.cmdType == Activate && r == c.addr.rank
              then ch'.fourAw[r] == WindowPush(ch.fourAw[r], clk, cfg.tFAW) &&
                   (cfg.gddr ==> ch'.thirtyTwoAw[r] == WindowPush(ch.thirtyTwoAw[r], clk, cfg.t32AW))
              else ch'.fourAw[r] == ch.fourAw[r] && ch'.thirtyTwoAw[r] == ch.thirtyTwoAw[r]
  {
  }

  lemma StepWindows(cfg: Config, ch: Channel, ch': Channel, c: Command, clk: nat, trace: Trace)
    requires Legal(cfg, ch, c, clk) && BanksOk(ch) && UpdateTimingAndStates(cfg, ch, c, clk) == Some(ch')
    requires ChannelShape(cfg, ch') && WindowsOk(cfg, ch.fourAw, ch.thirtyTwoAw, trace) && Ordered(trace, clk)
    ensures WindowsOk(cfg, ch'.fourAw, ch'.thirtyTwoAw, trace + [Issued(c, clk)])
  {
    var trace' := trace + [Issued(c, clk)];
    assert trace'[..|trace'| - 1] == trace;
    WindowsAfter(cfg, ch, ch', c, clk);
    forall r | 0 <= r < cfg.ranks
      ensures RankWindowsOk(cfg, ch'.fourAw[r], ch'.thirtyTwoAw[r], Activations(trace', r))
    {
      assert RankWindowsOk(cfg, ch.fourAw[r], ch.thirtyTwoAw[r], Activations(trace, r));
      ActivationsBefore(trace, r, clk);
      if c.cmdType == Activate && c.addr.rank == r {
        WindowStep(ch.fourAw[r], Activations(trace, r), 4, cfg.tFAW, clk);
        if cfg.gddr {
          WindowStep(ch.thirtyTwoAw[r], Activations(trace, r), 32, cfg.t32AW, clk);
        }
      }
    }
  }

  // ---- Row buffers ----

  // The row that the commands so far have left open in bank b.
  function OpenRow(trace: Trace, b: BankId): Option<int> {
    if trace == [] then None
    else
      var c := trace[|trace| - 1].cmd;
      var before := OpenRow(trace[..|trace| - 1], b);
      if c.IsRankCommand() || c.Id() != b then before
      else if c.cmdType == Activate then Some(c.addr.row)
      else if c.cmdType == Precharge || c.cmdType == ReadPrecharge || c.cmdType == WritePrecharge then None
      else before
  }

  // Reads and writes go to the open row, activations and refreshes to closed banks,
  // precharges to open ones.
  ghost predicate RowProtocol(cfg: Config, trace: Trace, j: nat)
    requires j < |trace|
  {
    var c := trace[j].cmd;
    forall b :: cfg.InRange(b) && Covers(c, b) ==>
      var row := OpenRow(trace[..j], b);
      if c.IsReadWrite() then row == Some(c.addr.row)
      else if c.cmdType == Precharge then row.Some?
      else row == None
  }

  predicate RowKnown(bank: Bank, trace: Trace, b: BankId) {
    OpenRow(trace, b) == if bank.status == Open then Some(bank.openRow) else None
  }

  ghost predicate RowsKnown(banks: map<BankId, Bank>, trace: Trace) {
    forall b :: b in banks ==> RowKnown(banks[b], trace, b)
  }

  lemma StepRows(cfg: Config, ch: Channel, ch': Channel, c: Command, clk: nat, trace: Trace)
    requires Legal(cfg, ch, c, clk) && BanksOk(ch) && UpdateTimingAndStates(cfg, ch, c, clk) == Some(ch')
    requires RowsKnown(ch.banks, trace)
    requires forall j :: 0 <= j < |trace| ==> RowProtocol(cfg, trace, j)
    ensures RowsKnown(ch'.banks, trace + [Issued(c, clk)])
    ensures forall j :: 0 <= j < |trace| + 1 ==> RowProtocol(cfg, trace + [Issued(c, clk)], j)
  {
    var trace' := trace + [Issued(c, clk)];
    StepRowsKnown(cfg, ch, ch', c, clk, trace);
    forall j | 0 <= j < |trace'|
      ensures RowProtocol(cfg, trace', j)
    {
      if j < |trace| {
        assert RowProtocol(cfg, trace, j);
        assert trace'[..j] == trace[..j];
      } else {
        StepRowProtocol(cfg, ch, c, clk, trace);
      }
    }
  }

  lemma StepRowsKnown(cfg: Config, ch: Channel, ch': Channel, c: Command, clk: nat, trace: Trace)
    requires Legal(cfg, ch, c, clk) && BanksOk(ch) && UpdateTimingAndStates(cfg, ch, c, clk) == Some(ch')
    requires RowsKnown(ch.banks, trace)
    ensures RowsKnown(ch'.banks, trace + [Issued(c, clk)])
  {
    var trace' := trace + [Issued(c, clk)];
    assert trace'[..|trace|] == trace;
    forall b | b in ch'.banks
      ensures RowKnown(ch'.banks[b], trace', b)
    {
      assert b in ch.banks && RowKnown(ch.banks[b], trace, b);
      BankAfter(cfg, ch, c, clk, b);
      RowAfter(ch.banks[b], ch'.banks[b], c, clk, trace, b);
    }
  }

  // What a command does to the open row of one bank, seen from the bank and from the trace.
  lemma RowAfter(before: Bank, now: Bank, c: Command, clk: nat, trace: Trace, b: BankId)
    requires RowKnown(before, trace, b)
    requires if Covers(c, b) then Update(before, c).Some? && now == Update(before, c).value.(timing := now.timing)
             else now == before.(timing := now.timing)
    ensures RowKnown(now, trace + [Issued(c, clk)], b)
  {
    assert (trace + [Issued(c, clk)])[..|trace|] == trace;
  }

  lemma StepRowProtocol(cfg: Config, ch: Channel, c: Command, clk: nat, trace: Trace)
    requires Legal(cfg, ch, c, clk) && BanksOk(ch) && RowsKnown(ch.banks, trace)
    ensures RowProtocol(cfg, trace + [Issued(c, clk)], |trace|)
  {
    assert (trace + [Issued(c, clk)])[..|trace|] == trace;
    forall b | cfg.InRange(b) && Covers(c, b)
      ensures b in ch.banks
    {
      assert b in cfg.AllBanks();
    }
  }

  // ---- All three ----

  // What the banks and windows remember of the trace, and what the trace satisfies.
  ghost predicate TraceOk(
    cfg: Config, banks: map<BankId, Bank>, fourAw: seq<seq<nat>>, thirtyTwoAw: seq<seq<nat>>, trace: Trace)
  {
    && (forall b :: b in banks ==> |banks[b].timing| == NUM_TYPES)
    && Remembered(cfg, banks, trace) && TimingSafe(cfg, trace)
    && WindowsOk(cfg, fourAw, thirtyTwoAw, trace)
    && RowsKnown(banks, trace)
    && (forall j :: 0 <= j < |trace| ==> RowProtocol(cfg, trace, j) && Addressed(cfg, trace[j].cmd))
  }

  lemma StepTraceOk(cfg: Config, ch: Channel, ch': Channel, c: Command, clk: nat, trace: Trace)
    requires Legal(cfg, ch, c, clk) && BanksOk(ch) && UpdateTimingAndStates(cfg, ch, c, clk) == Some(ch')
    requires ChannelShape(cfg, ch') && Ordered(trace, clk)
    requires TraceOk(cfg, ch.banks, ch.fourAw, ch.thirtyTwoAw, trace)
    ensures TraceOk(cfg, ch'.banks, ch'.fourAw, ch'.thirtyTwoAw, trace + [Issued(c, clk)])
    ensures Ordered(trace + [Issued(c, clk)], clk + 1)
  {
    StepRemembers(cfg, ch, ch', c, clk, trace);
    StepTimingSafe(cfg, ch, c, clk, trace);
    StepWindows(cfg, ch, ch', c, clk, trace);
    StepRows(cfg, ch, ch', c, clk, trace);
  }
}
