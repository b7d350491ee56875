// The delays of the data sheet in whole runs: every one is kept, and no command waits for
// more than them.
module DelayTheorems {
  import opened Options
  import opened DramTypes
  import opened ChannelModel
  import opened TimingSheet
  import opened TraceSafety
  import opened ControllerRun
  import opened ControllerTheorems
  import opened TraceExact

  // Every two commands of a run keep the delay that the sheet asks between them, for every
  // bank that the second one acts on.
  lemma DelaysAreKept(cfg: Config, p: Params, events: seq<Event>, i: nat, j: nat, b: BankId)
    requires cfg.Valid() && FollowsSheet(cfg.timing, p)
    requires i < j < |After(cfg, events).trace| && cfg.InRange(b) && Covers(After(cfg, events).trace[j].cmd, b)
    ensures var (e, f) := (After(cfg, events).trace[i], After(cfg, events).trace[j]);
            Gap(p, e.cmd, b, f.cmd.cmdType).Some? ==> f.clk >= e.clk + Gap(p, e.cmd, b, f.cmd.cmdType).value
  {
    EveryRun(cfg, events);
    var trace := After(cfg, events).trace;
    KeptInTrace(cfg, p, trace, i, j, b);
  }

  lemma KeptInTrace(cfg: Config, p: Params, trace: Trace, i: nat, j: nat, b: BankId)
    requires FollowsSheet(cfg.timing, p) && TimingSafe(cfg, trace)
    requires i < j < |trace| && cfg.InRange(b) && Covers(trace[j].cmd, b)
    ensures var u := trace[j].cmd.cmdType;
            Gap(p, trace[i].cmd, b, u).Some? ==> trace[j].clk >= trace[i].clk + Gap(p, trace[i].cmd, b, u).value
  {
    var u := trace[j].cmd.cmdType;
    if Gap(p, trace[i].cmd, b, u).Some? {
      var t := TableFor(cfg.timing, trace[i].cmd, b);
      assert RowFollows(cfg.timing, p, trace[i].cmd, b);
      var m :| 0 <= m < |t| && t[m] == (u, Gap(p, trace[i].cmd, b, u).value);
      assert Respects(cfg.timing, trace[i], b, m, u, trace[j].clk);
    }
  }

  // Bank b may receive a command of type u at clk as far as command e goes.
  predicate Elapsed(p: Params, e: Issued, b: BankId, u: CommandType, clk: nat) {
    match Gap(p, e.cmd, b, u)
    case None => true
    case Some(d) => clk >= Deadline(e.clk, d)
  }

  // A bank of a run is ready for a command exactly when every delay that the sheet asks
  // after an issued command is over: no delay is longer than the sheet says.
  lemma ReadyWhenSheetAllows(cfg: Config, p: Params, events: seq<Event>, b: BankId, u: CommandType, clk: nat)
    requires cfg.Valid() && FollowsSheet(cfg.timing, p) && cfg.InRange(b)
    ensures Run(cfg, events).Some?
    ensures var w := Run(cfg, events).value;
            && b in w.st.ch.banks && |w.st.ch.banks[b].timing| == NUM_TYPES
            && (clk >= w.st.ch.banks[b].Earliest(u) <==>
                  forall i :: 0 <= i < |w.trace| ==> Elapsed(p, w.trace[i], b, u, clk))
  {
    ReadyWhenDelaysAreOver(cfg, events, b, u, clk);
    PushedBySheet(cfg, p, Run(cfg, events).value.trace, b, u, clk);
  }

  lemma PushedBySheet(cfg: Config, p: Params, trace: Trace, b: BankId, u: CommandType, clk: nat)
    requires FollowsSheet(cfg.timing, p)
    ensures (forall i, m :: Pushed(cfg, trace, b, u, i, m) ==> clk >= PushedTime(cfg, trace, b, i, m)) <==>
            (forall i :: 0 <= i < |trace| ==> Elapsed(p, trace[i], b, u, clk))
  {
    forall i: nat, m: nat | Pushed(cfg, trace, b, u, i, m)
      ensures Gap(p, trace[i].cmd, b, u).Some?
      ensures PushedTime(cfg, trace, b, i, m) == Deadline(trace[i].clk, Gap(p, trace[i].cmd, b, u).value)
    {
      assert RowFollows(cfg.timing, p, trace[i].cmd, b);
      assert EntryFollows(p, trace[i].cmd, b, TableFor(cfg.timing, trace[i].cmd, b)[m]);
    }
    forall i: nat | i < |trace| && Gap(p, trace[i].cmd, b, u).Some?
      ensures exists m :: Pushed(cfg, trace, b, u, i, m)
    {
      assert RowFollows(cfg.timing, p, trace[i].cmd, b);
      var t := TableFor(cfg.timing, trace[i].cmd, b);
      var m :| 0 <= m < |t| && t[m] == (u, Gap(p, trace[i].cmd, b, u).value);
      assert Pushed(cfg, trace, b, u, i, m);
    }
    forall i | 0 <= i < |trace| && forall i, m :: Pushed(cfg, trace, b, u, i, m) ==> clk >= PushedTime(cfg, trace, b, i, m)
      ensures Elapsed(p, trace[i], b, u, clk)
    {
      if Gap(p, trace[i].cmd, b, u).Some? {
        var m :| Pushed(cfg, trace, b, u, i, m);
      }
    }
  }

  // ---- The delays one by one ----

  // Two commands of a run, neither for a whole rank.
  ghost predicate InRun(cfg: Config, events: seq<Event>, i: nat, j: nat)
    requires cfg.Valid()
  {
    && i < j < |After(cfg, events).trace|
    && !After(cfg, events).trace[i].cmd.IsRankCommand() && !After(cfg, events).trace[j].cmd.IsRankCommand()
  }

  lemma GapOf(cfg: Config, p: Params, events: seq<Event>, i: nat, j: nat)
    requires cfg.Valid() && FollowsSheet(cfg.timing, p) && InRun(cfg, events, i, j)
    ensures var (e, f) := (After(cfg, events).trace[i], After(cfg, events).trace[j]);
            Gap(p, e.cmd, f.cmd.Id(), f.cmd.cmdType).Some? ==>
              f.clk - e.clk >= Gap(p, e.cmd, f.cmd.Id(), f.cmd.cmdType).value
  {
    EveryRun(cfg, events);
    assert Addressed(cfg, After(cfg, events).trace[j].cmd);
    DelaysAreKept(cfg, p, events, i, j, After(cfg, events).trace[j].cmd.Id());
  }

  // One bank: recovery after reads and writes, and the row times.
  lemma BankTimes(cfg: Config, p: Params, events: seq<Event>, i: nat, j: nat)
    requires cfg.Valid() && FollowsSheet(cfg.timing, p) && InRun(cfg, events, i, j)
    requires After(cfg, events).trace[i].cmd.Id() == After(cfg, events).trace[j].cmd.Id()
    ensures var trace := After(cfg, events).trace;
            var t, u, gap := trace[i].cmd.cmdType, trace[j].cmd.cmdType, trace[j].clk - trace[i].clk;
            && (t == Write && u == Precharge ==> gap >= p.AL + p.CWL + p.burstCycle + p.tWR)
            && (t == WritePrecharge && u == Activate ==> gap >= p.AL + p.CWL + p.burstCycle + p.tWR + p.tRP)
            && (t == Read && u == Precharge ==> gap >= p.AL + p.tRTP)
            && (t == ReadPrecharge && u == Activate ==> gap >= p.AL + p.burstCycle + p.tRTP + p.tRP)
            && (t == Activate && (u == Read || u == ReadPrecharge) ==>
                  gap >= if p.gddr || p.hbm then p.tRCDRD else p.tRCD - p.AL)
            && (t == Activate && (u == Write || u == WritePrecharge) ==>
                  gap >= if p.gddr || p.hbm then p.tRCDWR else p.tRCD - p.AL)
            && (t == Activate && u == Precharge ==> gap >= p.tRAS)
            && (t == Activate && u == Activate ==> gap >= p.tRAS + p.tRP)
            && (t == Precharge && u == Activate ==> gap >= p.tRP)
  {
    GapOf(cfg, p, events, i, j);
  }

  // Two banks of one rank: turnaround and spacing of accesses, and of activations.
  lemma RankTimes(cfg: Config, p: Params, events: seq<Event>, i: nat, j: nat)
    requires cfg.Valid() && FollowsSheet(cfg.timing, p) && InRun(cfg, events, i, j)
    requires After(cfg, events).trace[i].cmd.addr.rank == After(cfg, events).trace[j].cmd.addr.rank
    requires After(cfg, events).trace[i].cmd.Id() != After(cfg, events).trace[j].cmd.Id()
    ensures var trace := After(cfg, events).trace;
            var a, b, gap := trace[i].cmd, trace[j].cmd, trace[j].clk - trace[i].clk;
            var long := a.addr.bankgroup == b.addr.bankgroup && p.bankgroups != 1;
            && (a.IsWrite() && b.IsRead() ==>
                  gap >= p.AL + p.CWL + p.burstCycle + if long then p.tWTR_L else p.tWTR_S)
            && (a.IsRead() && b.IsWrite() ==> gap >= p.CL + p.burstCycle + p.tRTRS - p.CWL)
            && ((a.IsRead() && b.IsRead()) || (a.IsWrite() && b.IsWrite()) ==>
                  gap >= p.burstCycle && gap >= if long then p.tCCD_L else p.tCCD_S)
            && (a.cmdType == Activate && b.cmdType == Activate ==> gap >= if long then p.tRRD_L else p.tRRD_S)
  {
    GapOf(cfg, p, events, i, j);
  }

  // A refresh of one bank holds back the other banks of its rank for tRFC, but pushes no
  // delay onto the bank it refreshes: the table for it is filled in for whole ranks only,
  // and that of a whole rank is never pushed for it.
  lemma BankRefreshSparesItsBank(p: Params, ref: Command, b: BankId, u: CommandType)
    requires ref.cmdType == RefreshBank && ref.addr.rank == b.rank
    ensures Gap(p, ref, b, Activate) == if b == ref.Id() then None else Some(p.tRFC)
    ensures b == ref.Id() ==> Gap(p, ref, b, u) == None
  {
  }
}
