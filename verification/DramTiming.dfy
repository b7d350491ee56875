// timing.cc: the delay tables of a channel, and what they mean for whole runs.
module DramTiming {
  import opened Options
  import opened DramTypes
  import opened BankModel
  import opened ChannelModel
  import opened TraceSafety
  import opened ControllerRun
  import opened ControllerTheorems
  import opened TimingSheet
  import opened RefreshDeadline
  import opened BankRefreshDeadline

  // A table for the four column commands.
  function Columns(read: int, write: int): Table {
    [(Read, read), (Write, write), (ReadPrecharge, read), (WritePrecharge, write)]
  }

  function ClosedDelays(activate: int, refresh: int): Table {
    [(Activate, activate), (Refresh, refresh), (RefreshBank, refresh), (SrefEnter, refresh)]
  }

  function SameBank(p: Params, t: CommandType): Table {
    match t
    case Read => Columns(MaxInt(p.burstCycle, p.CcdLong()), p.ReadToWrite()) + [(Precharge, p.ReadToPrecharge())]
    case Write =>
      Columns(p.WriteDelay() + p.WtrLong(), MaxInt(p.burstCycle, p.CcdLong())) + [(Precharge, p.WriteToPrecharge())]
    case ReadPrecharge => ClosedDelays(p.AL + p.burstCycle + p.tRTP + p.tRP, p.ReadToPrecharge() + p.tRP)
    case WritePrecharge => ClosedDelays(p.WriteToPrecharge() + p.tRP, p.WriteToPrecharge() + p.tRP)
    case Activate =>
      [(Activate, p.RC()), (Read, p.RcdRead()), (Write, p.RcdWrite()), (ReadPrecharge, p.RcdRead()),
       (WritePrecharge, p.RcdWrite()), (Precharge, p.tRAS)]
    case Precharge => ClosedDelays(p.tRP, p.tRP)
    case _ => []
  }

  // The column delays towards banks whose spacing is `ccd` and `wtr`.
  function ColumnDelays(p: Params, t: CommandType, ccd: int, wtr: int): Table {
    if t == Read || t == ReadPrecharge then Columns(MaxInt(p.burstCycle, ccd), p.ReadToWrite())
    else Columns(p.WriteDelay() + wtr, MaxInt(p.burstCycle, ccd))
  }

  function RankDelays(p: Params, t: CommandType, rrd: int): Table {
    match t
    case Activate => [(Activate, rrd), (RefreshBank, p.RC())]
    case Precharge => if p.gddr || p.lpddr4 then [(Precharge, p.tPPD)] else []
    case RefreshBank => [(Activate, p.tRFC), (RefreshBank, p.tREFI)]
    case _ => []
  }

  predicate IsColumn(t: CommandType) {
    t == Read || t == ReadPrecharge || t == Write || t == WritePrecharge
  }

  function OtherBanks(p: Params, t: CommandType): Table {
    if IsColumn(t) then ColumnDelays(p, t, p.CcdLong(), p.WtrLong()) else RankDelays(p, t, p.RrdLong())
  }

  function OtherGroups(p: Params, t: CommandType): Table {
    if IsColumn(t) then ColumnDelays(p, t, p.tCCD_S, p.tWTR_S) else RankDelays(p, t, p.tRRD_S)
  }

  function OtherRanks(p: Params, t: CommandType): Table {
    if t == Read || t == ReadPrecharge then
      Columns(p.burstCycle + p.tRTRS, p.ReadDelay() + p.burstCycle + p.tRTRS - p.WriteDelay())
    else if t == Write || t == WritePrecharge then
      Columns(p.WriteDelay() + p.burstCycle + p.tRTRS - p.ReadDelay(), p.burstCycle)
    else []
  }

  function SameRank(p: Params, t: CommandType): Table {
    match t
    case RefreshBank => ClosedDelays(p.tRFCb, p.tRFCb)
    case Refresh => [(Activate, p.tRFC), (Refresh, p.tRFC), (SrefEnter, p.tRFC)]
    case SrefEnter => [(SrefExit, p.tCKESR)]
    case SrefExit => ClosedDelays(p.tXS, p.tXS)
    case _ => []
  }

  ghost predicate BuiltFrom(timing: Timing, p: Params) {
    forall t ::
      && timing.sameBank(t) == SameBank(p, t) && timing.otherBanks(t) == OtherBanks(p, t)
      && timing.otherGroups(t) == OtherGroups(p, t) && timing.otherRanks(t) == OtherRanks(p, t)
      && timing.sameRank(t) == SameRank(p, t)
  }

  // ---- The tables are those of the sheet ----

  lemma BankEntries(p: Params, t: CommandType, u: CommandType, m: nat)
    ensures m < |SameBank(p, t)| ==> BankGap(p, t, SameBank(p, t)[m].0) == Some(SameBank(p, t)[m].1)
    ensures BankGap(p, t, u).Some? ==>
              var k := BankPlace(t, u); k < |SameBank(p, t)| && SameBank(p, t)[k] == (u, BankGap(p, t, u).value)
  {
  }

  lemma RankEntries(p: Params, t: CommandType, u: CommandType, m: nat)
    ensures m < |OtherBanks(p, t)| ==> RankGap(p, t, OtherBanks(p, t)[m].0, true) == Some(OtherBanks(p, t)[m].1)
    ensures m < |OtherGroups(p, t)| ==> RankGap(p, t, OtherGroups(p, t)[m].0, false) == Some(OtherGroups(p, t)[m].1)
    ensures RankGap(p, t, u, true).Some? ==>
              var k := RankPlace(u); k < |OtherBanks(p, t)| && OtherBanks(p, t)[k] == (u, RankGap(p, t, u, true).value)
    ensures RankGap(p, t, u, false).Some? ==>
              var k := RankPlace(u); k < |OtherGroups(p, t)| && OtherGroups(p, t)[k] == (u, RankGap(p, t, u, false).value)
  {
  }

  lemma ElsewhereEntries(p: Params, t: CommandType, u: CommandType, m: nat)
    ensures m < |OtherRanks(p, t)| ==> OtherRankGap(p, t, OtherRanks(p, t)[m].0) == Some(OtherRanks(p, t)[m].1)
    ensures OtherRankGap(p, t, u).Some? ==>
              var k := RankPlace(u); k < |OtherRanks(p, t)| && OtherRanks(p, t)[k] == (u, OtherRankGap(p, t, u).value)
  {
  }

  lemma RankCommandEntries(p: Params, t: CommandType, u: CommandType, m: nat)
    requires t == Refresh || t == SrefEnter || t == SrefExit
    ensures m < |SameRank(p, t)| ==> AfterRankCommand(p, t, SameRank(p, t)[m].0) == Some(SameRank(p, t)[m].1)
    ensures AfterRankCommand(p, t, u).Some? ==>
              var k := if t == Refresh then RefreshPlace(u) else ClosedPlace(u);
              k < |SameRank(p, t)| && SameRank(p, t)[k] == (u, AfterRankCommand(p, t, u).value)
  {
  }

  // Where a table names commands of type u.

  function BankPlace(t: CommandType, u: CommandType): nat {
    if t == Activate then
      (match u case Read => 1 case Write => 2 case ReadPrecharge => 3 case WritePrecharge => 4 case Precharge => 5 case _ => 0)
    else if u == Precharge then 4
    else if IsColumn(u) then ColumnIndex(u)
    else ClosedPlace(u)
  }

  function RankPlace(u: CommandType): nat {
    if IsColumn(u) then ColumnIndex(u) else if u == RefreshBank then 1 else 0
  }

  function ClosedPlace(u: CommandType): nat {
    match u case Refresh => 1 case RefreshBank => 2 case SrefEnter => 3 case _ => 0
  }

  function RefreshPlace(u: CommandType): nat {
    match u case Refresh => 1 case SrefEnter => 2 case _ => 0
  }

  lemma EntryIsGap(timing: Timing, p: Params, a: Command, b: BankId, m: nat)
    requires BuiltFrom(timing, p) && m < |TableFor(timing, a, b)|
    ensures var entry := TableFor(timing, a, b)[m]; Gap(p, a, b, entry.0) == Some(entry.1)
  {
    TableIs(timing, p, a, b);
    if a.IsRankCommand() {
      RankCommandEntries(p, a.cmdType, Activate, m);
    } else {
      BankEntries(p, a.cmdType, Activate, m);
      RankEntries(p, a.cmdType, Activate, m);
      ElsewhereEntries(p, a.cmdType, Activate, m);
    }
  }

  lemma GapIsEntry(timing: Timing, p: Params, a: Command, b: BankId, u: CommandType) returns (m: nat)
    requires BuiltFrom(timing, p) && Gap(p, a, b, u).Some?
    ensures m < |TableFor(timing, a, b)| && TableFor(timing, a, b)[m] == (u, Gap(p, a, b, u).value)
  {
    TableIs(timing, p, a, b);
    if a.IsRankCommand() {
      RankCommandEntries(p, a.cmdType, u, 0);
      m := if a.cmdType == Refresh then RefreshPlace(u) else ClosedPlace(u);
    } else {
      BankEntries(p, a.cmdType, u, 0);
      RankEntries(p, a.cmdType, u, 0);
      ElsewhereEntries(p, a.cmdType, u, 0);
      m := if a.Id() == b then BankPlace(a.cmdType, u) else RankPlace(u);
    }
  }

  lemma TableIs(timing: Timing, p: Params, a: Command, b: BankId)
    requires BuiltFrom(timing, p)
    ensures var t := a.cmdType;
            TableFor(timing, a, b) ==
            if a.IsRankCommand() then (if b.rank == a.addr.rank then SameRank(p, t) else [])
            else if b == a.Id() then SameBank(p, t)
            else if b.rank != a.addr.rank then OtherRanks(p, t)
            else if b.group != a.addr.bankgroup then OtherGroups(p, t)
            else OtherBanks(p, t)
  {
  }

  lemma BuiltFollowsSheet(timing: Timing, p: Params)
    requires BuiltFrom(timing, p)
    ensures FollowsSheet(timing, p)
  {
    forall a: Command, b: BankId
      ensures RowFollows(timing, p, a, b)
    {
      forall m | 0 <= m < |TableFor(timing, a, b)|
        ensures EntryFollows(p, a, b, TableFor(timing, a, b)[m])
      {
        EntryIsGap(timing, p, a, b, m);
      }
      forall u: CommandType | Gap(p, a, b, u).Some?
        ensures (u, Gap(p, a, b, u).value) in TableFor(timing, a, b)
      {
        var m := GapIsEntry(timing, p, a, b, u);
      }
    }
  }

  function Row(m: map<CommandType, Table>, t: CommandType): Table {
    if t in m then m[t] else []
  }

  // The locals of the Timing constructor that one bank group overwrites.
  datatype Locals = Locals(
    readToReadL: int, writeToReadL: int, writeToWriteL: int, activateToActivateL: int,
    activateToRead: int, activateToWrite: int)

  method ComputeLocals(p: Params) returns (l: Locals)
    ensures l.readToReadL == l.writeToWriteL == MaxInt(p.burstCycle, p.CcdLong())
    ensures l.writeToReadL == p.WriteDelay() + p.WtrLong()
    ensures l.activateToActivateL == p.RrdLong()
    ensures l.activateToRead == p.RcdRead() && l.activateToWrite == p.RcdWrite()
  {
    var readToReadL := MaxInt(p.burstCycle, p.tCCD_L);
    var writeToReadL := p.WriteDelay() + p.tWTR_L;
    var writeToWriteL := MaxInt(p.burstCycle, p.tCCD_L);
    var activateToActivateL := p.tRRD_L;
    var activateToRead, activateToWrite := p.tRCD - p.AL, p.tRCD - p.AL;
    if p.gddr || p.hbm {
      activateToRead, activateToWrite := p.tRCDRD, p.tRCDWR;
    }
    if p.bankgroups == 1 {
      readToReadL := MaxInt(p.burstCycle, p.tCCD_S);
      writeToReadL := p.WriteDelay() + p.tWTR_S;
      writeToWriteL := MaxInt(p.burstCycle, p.tCCD_S);
      activateToActivateL := p.tRRD_S;
    }
    l := Locals(readToReadL, writeToReadL, writeToWriteL, activateToActivateL, activateToRead, activateToWrite);
  }

  method BuildSameBank(p: Params, l: Locals) returns (m: map<CommandType, Table>)
    requires l.readToReadL == l.writeToWriteL == MaxInt(p.burstCycle, p.CcdLong())
    requires l.writeToReadL == p.WriteDelay() + p.WtrLong()
    requires l.activateToRead == p.RcdRead() && l.activateToWrite == p.RcdWrite()
    ensures forall t :: Row(m, t) == SameBank(p, t)
  {
    var writeToActivate := p.WriteToPrecharge() + p.tRP;
    m := map[];
    m := m[Read := Columns(l.readToReadL, p.ReadToWrite()) + [(Precharge, p.ReadToPrecharge())]];
    m := m[Write := Columns(l.writeToReadL, l.writeToWriteL) + [(Precharge, p.WriteToPrecharge())]];
    m := m[ReadPrecharge := ClosedDelays(p.AL + p.burstCycle + p.tRTP + p.tRP, p.ReadToPrecharge() + p.tRP)];
    m := m[WritePrecharge := ClosedDelays(writeToActivate, writeToActivate)];
    m := m[Activate :=
      [(Activate, p.RC()), (Read, l.activateToRead), (Write, l.activateToWrite),
       (ReadPrecharge, l.activateToRead), (WritePrecharge, l.activateToWrite), (Precharge, p.tRAS)]];
    m := m[Precharge := ClosedDelays(p.tRP, p.tRP)];
  }

  // The tables towards the other banks of the group, or of the other groups.
  method BuildSameRank(p: Params, ccd: int, wtr: int, rrd: int) returns (m: map<CommandType, Table>)
    ensures forall t :: Row(m, t) == if IsColumn(t) then ColumnDelays(p, t, ccd, wtr) else RankDelays(p, t, rrd)
  {
    var afterRead := Columns(MaxInt(p.burstCycle, ccd), p.ReadToWrite());
    var afterWrite := Columns(p.WriteDelay() + wtr, MaxInt(p.burstCycle, ccd));
    m := map[Read := afterRead, Write := afterWrite, ReadPrecharge := afterRead, WritePrecharge := afterWrite];
    m := m[Activate := [(Activate, rrd), (RefreshBank, p.RC())]];
    if p.gddr || p.lpddr4 {
      m := m[Precharge := [(Precharge, p.tPPD)]];
    }
    m := m[RefreshBank := [(Activate, p.tRFC), (RefreshBank, p.tREFI)]];
  }

  method BuildOtherRanks(p: Params) returns (m: map<CommandType, Table>)
    ensures forall t :: Row(m, t) == OtherRanks(p, t)
  {
    var afterRead := Columns(p.burstCycle + p.tRTRS, p.ReadDelay() + p.burstCycle + p.tRTRS - p.WriteDelay());
    var afterWrite := Columns(p.WriteDelay() + p.burstCycle + p.tRTRS - p.ReadDelay(), p.burstCycle);
    m := map[Read := afterRead, Write := afterWrite, ReadPrecharge := afterRead, WritePrecharge := afterWrite];
  }

  method BuildRankCommands(p: Params) returns (m: map<CommandType, Table>)
    ensures forall t :: Row(m, t) == SameRank(p, t)
  {
    m := map[RefreshBank := ClosedDelays(p.tRFCb, p.tRFCb)];
    m := m[Refresh := [(Activate, p.tRFC), (Refresh, p.tRFC), (SrefEnter, p.tRFC)]];
    m := m[SrefEnter := [(SrefExit, p.tCKESR)]];
    m := m[SrefExit := ClosedDelays(p.tXS, p.tXS)];
  }

  // The constructor of Timing.
  method BuildTiming(p: Params) returns (timing: Timing)
    ensures BuiltFrom(timing, p) && FollowsSheet(timing, p)
  {
    var l := ComputeLocals(p);
    var sameBank := BuildSameBank(p, l);
    var otherBanks := BuildSameRank(p, p.CcdLong(), p.WtrLong(), l.activateToActivateL);
    var otherGroups := BuildSameRank(p, p.tCCD_S, p.tWTR_S, p.tRRD_S);
    var otherRanks := BuildOtherRanks(p);
    var sameRank := BuildRankCommands(p);
    timing := Timing(t => Row(sameBank, t), t => Row(otherBanks, t), t => Row(otherGroups, t),
                     t => Row(otherRanks, t), t => Row(sameRank, t));
    BuiltFollowsSheet(timing, p);
  }

  // ---- The data bus ----

  // When the burst of a read or write starts on the data bus.
  function BurstStart(p: Params, e: Issued): int {
    e.clk + if e.cmd.IsRead() then p.RL() else p.WL()
  }

  // Parameters of a real device: no negative delay, and a closed page takes longer to
  // reopen than a read's data takes to arrive.
  predicate Sane(p: Params) {
    && p.burstCycle >= 0 && p.tRTRS >= 0 && p.tWTR_L >= 0 && p.tWTR_S >= 0 && p.tWR >= 0
    && p.tRTP >= 0 && p.tRP >= 0 && p.AL >= 0 && p.CL >= 0 && p.CWL >= 0
    && p.RcdRead() >= 0 && p.RcdWrite() >= 0
    && p.tRTP + p.tRP + p.RcdWrite() + p.WL() >= p.RL() - p.AL
  }

  // The delay that one column command imposes on a later one elsewhere keeps the two
  // bursts apart.
  lemma ColumnEntry(cfg: Config, p: Params, i: Issued, j: Issued)
    requires BuiltFrom(cfg.timing, p) && Sane(p) && i.cmd.IsReadWrite() && j.cmd.IsReadWrite()
    requires i.cmd.Id() != j.cmd.Id() || i.cmd.cmdType == Read || i.cmd.cmdType == Write
    requires forall m :: 0 <= m < |TableFor(cfg.timing, i.cmd, j.cmd.Id())| ==>
               Respects(cfg.timing, i, j.cmd.Id(), m, j.cmd.cmdType, j.clk)
    ensures BurstStart(p, j) >= BurstStart(p, i) + p.burstCycle
  {
    var t := TableFor(cfg.timing, i.cmd, j.cmd.Id());
    var m := ColumnIndex(j.cmd.cmdType);
    assert |t| >= 4 && t[m].0 == j.cmd.cmdType;
    assert Respects(cfg.timing, i, j.cmd.Id(), m, j.cmd.cmdType, j.clk);
  }

  function ColumnIndex(t: CommandType): nat {
    if t == Read then 0 else if t == Write then 1 else if t == ReadPrecharge then 2 else 3
  }

  // Between a column command that closes its bank and the next one to that bank the
  // bank is activated.
  lemma {:induction false} ActivatedBetween(trace: Trace, b: BankId, i: nat, j: nat) returns (k: nat)
    requires i < j <= |trace| && OpenRow(trace[..i], b) == None && OpenRow(trace[..j], b).Some?
    ensures i <= k < j && trace[k].cmd.cmdType == Activate && trace[k].cmd.Id() == b
  {
    assert trace[..j][..j - 1] == trace[..j - 1];
    if OpenRow(trace[..j - 1], b) == None || j - 1 == i {
      k := j - 1;
    } else {
      k := ActivatedBetween(trace, b, i, j - 1);
    }
  }

  lemma ClosedAfter(trace: Trace, i: nat)
    requires i < |trace|
    requires trace[i].cmd.cmdType == ReadPrecharge || trace[i].cmd.cmdType == WritePrecharge
    ensures OpenRow(trace[..i + 1], trace[i].cmd.Id()) == None
  {
    assert trace[..i + 1][..i] == trace[..i];
  }

  // The bus is free for the next burst on a bank that was closed and activated again.
  lemma ReopenedEntry(cfg: Config, p: Params, i: Issued, k: Issued, j: Issued)
    requires BuiltFrom(cfg.timing, p) && Sane(p) && j.cmd.IsReadWrite()
    requires i.cmd.cmdType == ReadPrecharge || i.cmd.cmdType == WritePrecharge
    requires k.cmd.cmdType == Activate && i.cmd.Id() == k.cmd.Id() == j.cmd.Id()
    requires k.clk >= i.clk + SameBank(p, i.cmd.cmdType)[0].1
    requires j.clk >= k.clk + SameBank(p, Activate)[1 + ColumnIndex(j.cmd.cmdType)].1
    ensures BurstStart(p, j) >= BurstStart(p, i) + p.burstCycle
  {
  }

  lemma SameBankRespected(cfg: Config, p: Params, trace: Trace, i: nat, j: nat, m: nat)
    requires BuiltFrom(cfg.timing, p) && TimingSafe(cfg, trace) && i < j < |trace|
    requires !trace[i].cmd.IsRankCommand() && !trace[j].cmd.IsRankCommand()
    requires trace[i].cmd.Id() == trace[j].cmd.Id() && cfg.InRange(trace[j].cmd.Id())
    requires m < |SameBank(p, trace[i].cmd.cmdType)|
    requires SameBank(p, trace[i].cmd.cmdType)[m].0 == trace[j].cmd.cmdType
    ensures trace[j].clk >= trace[i].clk + SameBank(p, trace[i].cmd.cmdType)[m].1
  {
    assert Respects(cfg.timing, trace[i], trace[j].cmd.Id(), m, trace[j].cmd.cmdType, trace[j].clk);
  }

  // In every run over the tables of the source no two bursts overlap on the data bus of
  // the channel, whatever banks, ranks and directions they belong to.
  lemma DataBusNeverOverlaps(cfg: Config, p: Params, trace: Trace, i: nat, j: nat)
    requires BuiltFrom(cfg.timing, p) && Sane(p) && i < j < |trace|
    requires TimingSafe(cfg, trace) && RowProtocol(cfg, trace, j)
    requires forall n :: 0 <= n < |trace| ==> !trace[n].cmd.IsRankCommand() ==> cfg.InRange(trace[n].cmd.Id())
    requires trace[i].cmd.IsReadWrite() && trace[j].cmd.IsReadWrite()
    ensures BurstStart(p, trace[j]) >= BurstStart(p, trace[i]) + p.burstCycle
  {
    var b := trace[j].cmd.Id();
    if trace[i].cmd.Id() != b || trace[i].cmd.cmdType == Read || trace[i].cmd.cmdType == Write {
      ColumnEntry(cfg, p, trace[i], trace[j]);
    } else {
      ClosedAfter(trace, i);
      assert Covers(trace[j].cmd, b);
      var k := ActivatedBetween(trace, b, i + 1, j);
      SameBankRespected(cfg, p, trace, i, k, 0);
      SameBankRespected(cfg, p, trace, k, j, 1 + ColumnIndex(trace[j].cmd.cmdType));
      ReopenedEntry(cfg, p, trace[i], trace[k], trace[j]);
    }
  }

  // ... and so in every run of the controller.
  lemma NoRunOverlapsBursts(cfg: Config, p: Params, events: seq<Event>, i: nat, j: nat)
    requires cfg.Valid() && BuiltFrom(cfg.timing, p) && Sane(p)
    requires var trace := After(cfg, events).trace;
             i < j < |trace| && trace[i].cmd.IsReadWrite() && trace[j].cmd.IsReadWrite()
    ensures var trace := After(cfg, events).trace; BurstStart(p, trace[j]) >= BurstStart(p, trace[i]) + p.burstCycle
  {
    EveryRun(cfg, events);
    var trace := After(cfg, events).trace;
    forall n | 0 <= n < |trace| && !trace[n].cmd.IsRankCommand()
      ensures cfg.InRange(trace[n].cmd.Id())
    {
      assert Addressed(cfg, trace[n].cmd);
    }
    DataBusNeverOverlaps(cfg, p, trace, i, j);
  }

  // The row-cycle, row-to-row and refresh-cycle times of the device hold in every run.
  lemma RowTimes(cfg: Config, p: Params, events: seq<Event>, i: nat, j: nat)
    requires cfg.Valid() && BuiltFrom(cfg.timing, p)
    requires var trace := After(cfg, events).trace; i < j < |trace| && trace[j].cmd.cmdType == Activate
    ensures var trace := After(cfg, events).trace;
            var a, b, gap := trace[i].cmd, trace[j].cmd, trace[j].clk - trace[i].clk;
            && (a.cmdType == Activate && a.Id() == b.Id() ==> gap >= p.tRAS + p.tRP)
            && (a.cmdType == Activate && a.Id() != b.Id() && a.addr.rank == b.addr.rank ==>
                  gap >= if a.addr.bankgroup == b.addr.bankgroup then p.RrdLong() else p.tRRD_S)
            && (a.cmdType == Precharge && a.Id() == b.Id() ==> gap >= p.tRP)
            && (a.cmdType == Refresh && a.addr.rank == b.addr.rank ==> gap >= p.tRFC)
  {
    EveryRun(cfg, events);
    var trace := After(cfg, events).trace;
    assert Addressed(cfg, trace[j].cmd);
    FirstEntry(cfg, trace, i, j);
    RowTables(cfg.timing, p, trace[i].cmd, trace[j].cmd);
  }

  // What the first entry of the table between two commands says before an activation.
  lemma RowTables(timing: Timing, p: Params, a: Command, b: Command)
    requires BuiltFrom(timing, p)
    ensures var t := TableFor(timing, a, b.Id());
            && (a.cmdType == Activate && a.Id() == b.Id() ==> |t| > 0 && t[0] == (Activate, p.tRAS + p.tRP))
            && (a.cmdType == Activate && a.Id() != b.Id() && a.addr.rank == b.addr.rank ==>
                  |t| > 0 && t[0] == (Activate, if a.addr.bankgroup == b.addr.bankgroup then p.RrdLong() else p.tRRD_S))
            && (a.cmdType == Precharge && a.Id() == b.Id() ==> |t| > 0 && t[0] == (Activate, p.tRP))
            && (a.cmdType == Refresh && a.addr.rank == b.addr.rank ==> |t| > 0 && t[0] == (Activate, p.tRFC))
  {
  }

  lemma FirstEntry(cfg: Config, trace: Trace, i: nat, j: nat)
    requires TimingSafe(cfg, trace) && i < j < |trace|
    requires trace[j].cmd.cmdType == Activate && cfg.InRange(trace[j].cmd.Id())
    ensures var t := TableFor(cfg.timing, trace[i].cmd, trace[j].cmd.Id());
            |t| > 0 && t[0].0 == Activate ==> trace[j].clk >= trace[i].clk + t[0].1
  {
    if |TableFor(cfg.timing, trace[i].cmd, trace[j].cmd.Id())| > 0 {
      assert Respects(cfg.timing, trace[i], trace[j].cmd.Id(), 0, Activate, trace[j].clk);
    }
  }

  // How far apart the tables put the precharges of a rank: tPPD in GDDR and LPDDR4, and the
  // one cycle that a command takes elsewhere.
  function PrechargeGap(p: Params): int {
    if p.gddr || p.lpddr4 then MaxInt(1, p.tPPD) else 1
  }

  // RefreshIsIssuedInTime applies to the built tables.
  lemma TablesAreSpaced(timing: Timing, p: Params, start: nat, banks: nat)
    requires BuiltFrom(timing, p) && p.tRP >= 0 && p.tPPD >= 0
    ensures Spaced(timing, Pace(start, banks, PrechargeGap(p), p.tRP))
  {
    assert forall t :: !HasEntry(OtherRanks(p, t), Precharge) && !HasEntry(OtherRanks(p, t), Refresh);
  }

  // So does BankRefreshIsIssuedInTime.
  lemma TablesAreBankSpaced(timing: Timing, p: Params)
    requires BuiltFrom(timing, p) && p.tRP >= 1
    ensures BankSpaced(timing, p.tRP)
  {
    assert forall t :: !HasEntry(OtherRanks(p, t), Precharge) && !HasEntry(OtherRanks(p, t), RefreshBank);
  }

  // Its exception is real: every activation of another bank of the rank puts the refresh of a
  // bank off by tRC.
  lemma ActivationPutsBankRefreshOff(cfg: Config, ch: Channel, ch': Channel, c: Command, clk: nat, b: BankId, p: Params)
    requires BuiltFrom(cfg.timing, p) && p.RC() >= 0 && c.cmdType == Activate
    requires Legal(cfg, ch, c, clk) && BanksOk(ch) && UpdateTimingAndStates(cfg, ch, c, clk) == Some(ch')
    requires b in ch.banks && b != c.Id() && b.rank == c.addr.rank && ChannelShape(cfg, ch')
    ensures b in ch'.banks && |ch'.banks[b].timing| == NUM_TYPES && ch'.banks[b].Earliest(RefreshBank) >= clk + p.RC()
  {
    BankAfter(cfg, ch, c, clk, b);
    var t := TableFor(cfg.timing, c, b);
    assert t[1] == (RefreshBank, p.RC());
    PushAllBounds(ch.banks[b], t, clk, 1);
  }
}
