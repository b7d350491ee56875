// When a rank refresh is issued at the latest: every bank of the rank is precharged, one
// a cycle, as soon as its deadline allows, and the refresh follows.
module RefreshDeadline {
  import opened Options
  import opened DramTypes
  import opened BankModel
  import opened ChannelModel
  import opened QueueModel
  import opened ControllerModel
  import opened ControllerTick
  import opened TraceSafety
  import opened ControllerRun
  import opened RefreshProgress

  predicate HasEntry(table: Table, t: CommandType) {
    exists i :: 0 <= i < |table| && table[i].0 == t
  }

  // When the refresh of a rank of so many banks starts, how many cycles apart they close at
  // most, and how long a closed bank waits for the refresh.
  datatype Pace = Pace(start: nat, banks: nat, gap: nat, tRP: nat)

  // Nothing that happens to other ranks moves a bank's precharge or refresh deadline. A
  // precharge moves the precharge deadlines of its rank by at most `gap` (tPPD, or one
  // cycle), and its own refresh deadline by at most tRP.
  ghost predicate Spaced(timing: Timing, p: Pace) {
    && p.gap >= 1
    && (forall t :: !HasEntry(timing.otherRanks(t), Precharge) && !HasEntry(timing.otherRanks(t), Refresh))
    && SpacedTable(timing.otherBanks(Precharge), p)
    && SpacedTable(timing.otherGroups(Precharge), p)
    && SpacedTable(timing.sameBank(Precharge), p)
  }

  ghost predicate SpacedTable(t: Table, p: Pace) {
    forall i :: 0 <= i < |t| ==>
      && (t[i].0 == Precharge ==> 0 <= t[i].1 <= p.gap)
      && (t[i].0 == Refresh ==> 0 <= t[i].1 <= p.tRP)
  }

  // The cycle at which the next bank closes at the latest, `closed` of them being closed.
  function Due(p: Pace, closed: nat): nat {
    if closed == 0 then p.start else Due(p, closed - 1) + p.gap
  }

  lemma {:induction false} DueIs(p: Pace, closed: nat)
    ensures Due(p, closed) == p.start + closed * p.gap
  {
    if closed > 0 {
      DueIs(p, closed - 1);
    }
  }

  lemma {:induction false} DueAscends(p: Pace, j: nat, k: nat)
    requires j <= k
    ensures Due(p, j) <= Due(p, k)
    decreases k
  {
    if j < k {
      DueAscends(p, j, k - 1);
    }
  }

  // The cycle at which the refresh is issued at the latest.
  function Limit(p: Pace): nat {
    Due(p, p.banks) + p.tRP
  }

  function OpenBanks(ch: Channel, rank: int): set<BankId> {
    set b | b in ch.banks && b.rank == rank && ch.banks[b].status == Open
  }

  ghost predicate ReadyBy(ch: Channel, b: BankId, due: nat, tRP: nat) {
    && b in ch.banks && |ch.banks[b].timing| == NUM_TYPES
    && ch.banks[b].Earliest(Precharge) <= due && ch.banks[b].Earliest(Refresh) <= due + tRP
  }

  // How far the refresh of `rank` has come at clk.
  ghost predicate OnSchedule(ch: Channel, rank: int, clk: nat, p: Pace) {
    var open := OpenBanks(ch, rank);
    && |open| <= p.banks && clk <= Limit(p)
    && var due := Due(p, p.banks - |open|);
       && (forall b :: b in ch.banks && b.rank == rank ==> ReadyBy(ch, b, due, p.tRP))
       && (open != {} ==> clk <= due)
  }

  // The scan of the rank: it precharges an open bank that is ready, and lets the refresh
  // through when every bank is closed and ready.
  lemma {:induction false} ScanFindsOpen(cfg: Config, ch: Channel, ref: Command, clk: nat, j: nat, k: nat, b: BankId)
    requires ChannelShape(cfg, ch) && BanksOk(ch) && ref.cmdType == Refresh && Addressed(cfg, ref)
    requires j <= cfg.bankgroups && k <= cfg.banksPerGroup
    requires b in ch.banks && b.rank == ref.addr.rank && (b.group > j || (b.group == j && b.bank >= k))
    requires ch.banks[b].status == Open && clk >= ch.banks[b].Earliest(Precharge)
    ensures ScanRank(cfg, ch, ref, clk, j, k).Issue?
    ensures var c := ScanRank(cfg, ch, ref, clk, j, k).cmd;
            c.cmdType == Precharge && c.Id() in OpenBanks(ch, ref.addr.rank)
    decreases cfg.bankgroups - j, cfg.banksPerGroup - k
  {
    if k == cfg.banksPerGroup {
      ScanFindsOpen(cfg, ch, ref, clk, j + 1, 0, b);
    } else if j < cfg.bankgroups {
      var here := BankId(ref.addr.rank, j, k);
      if here != b && !(ch.banks[here].status == Open && clk >= ch.banks[here].Earliest(Precharge)) {
        ScanFindsOpen(cfg, ch, ref, clk, j, k + 1, b);
      }
    }
  }

  lemma {:induction false} ScanLetsThrough(cfg: Config, ch: Channel, ref: Command, clk: nat, j: nat, k: nat)
    requires ChannelShape(cfg, ch) && BanksOk(ch) && ref.cmdType == Refresh && Addressed(cfg, ref)
    requires j <= cfg.bankgroups && k <= cfg.banksPerGroup
    requires forall b :: b in ch.banks && b.rank == ref.addr.rank ==>
               ch.banks[b].status == Closed && clk >= ch.banks[b].Earliest(Refresh)
    ensures ScanRank(cfg, ch, ref, clk, j, k) == Issue(ref)
    decreases cfg.bankgroups - j, cfg.banksPerGroup - k
  {
    if k == cfg.banksPerGroup {
      if j < cfg.bankgroups {
        ScanLetsThrough(cfg, ch, ref, clk, j + 1, 0);
      }
    } else if j < cfg.bankgroups {
      ScanLetsThrough(cfg, ch, ref, clk, j, k + 1);
    }
  }

  // A command that acts on no bank of the rank leaves its precharge and refresh deadlines.
  lemma ForeignCommand(cfg: Config, c: Command, rank: int)
    requires cfg.Valid() && Addressed(cfg, c) && 0 <= rank < cfg.ranks
    requires forall b :: cfg.InRange(b) && b.rank == rank ==> !Covers(c, b)
    ensures c.addr.rank != rank
  {
    var first := BankId(rank, 0, 0);
    assert cfg.InRange(first) && !Covers(c, first);
    assert cfg.InRange(c.Id()) && c.addr.rank == rank ==> !Covers(c, c.Id());
  }

  lemma ForeignTable(timing: Timing, c: Command, b: BankId, p: Pace)
    requires Spaced(timing, p) && b.rank != c.addr.rank
    ensures var t := TableFor(timing, c, b);
            forall i :: 0 <= i < |t| ==> t[i].0 != Precharge && t[i].0 != Refresh
  {
  }

  lemma OtherRankHarmless(cfg: Config, ch: Channel, ch': Channel, c: Command, clk: nat, rank: int, p: Pace)
    requires Legal(cfg, ch, c, clk) && BanksOk(ch) && UpdateTimingAndStates(cfg, ch, c, clk) == Some(ch')
    requires Spaced(cfg.timing, p) && c.addr.rank != rank && ChannelShape(cfg, ch')
    ensures OpenBanks(ch', rank) == OpenBanks(ch, rank)
    ensures forall b :: b in ch.banks && b.rank == rank ==> SameDeadlines(ch, ch', b)
  {
    forall b | b in ch.banks && b.rank == rank
      ensures b in ch'.banks && ch'.banks[b].status == ch.banks[b].status && SameDeadlines(ch, ch', b)
    {
      BankAfter(cfg, ch, c, clk, b);
      ForeignTable(cfg.timing, c, b, p);
      PushAllOther(ch.banks[b], TableFor(cfg.timing, c, b), clk, Precharge);
      PushAllOther(ch.banks[b], TableFor(cfg.timing, c, b), clk, Refresh);
    }
    assert ch'.banks.Keys == ch.banks.Keys;
  }

  ghost predicate SameDeadlines(ch: Channel, ch': Channel, b: BankId) {
    && b in ch.banks && b in ch'.banks && |ch.banks[b].timing| == NUM_TYPES && |ch'.banks[b].timing| == NUM_TYPES
    && ch'.banks[b].Earliest(Precharge) == ch.banks[b].Earliest(Precharge)
    && ch'.banks[b].Earliest(Refresh) == ch.banks[b].Earliest(Refresh)
  }

  // A bank of the rank after a precharge in it at clk.
  ghost predicate PrechargePushed(ch: Channel, ch': Channel, b: BankId, clk: nat, p: Pace) {
    && b in ch.banks && b in ch'.banks && |ch.banks[b].timing| == NUM_TYPES && |ch'.banks[b].timing| == NUM_TYPES
    && (ch'.banks[b].Earliest(Precharge) <= ch.banks[b].Earliest(Precharge) || ch'.banks[b].Earliest(Precharge) <= clk + p.gap)
    && (ch'.banks[b].Earliest(Refresh) <= ch.banks[b].Earliest(Refresh) || ch'.banks[b].Earliest(Refresh) <= clk + p.tRP)
  }

  lemma PrechargeTable(timing: Timing, c: Command, b: BankId, p: Pace)
    requires Spaced(timing, p) && c.cmdType == Precharge && b.rank == c.addr.rank
    ensures SpacedTable(TableFor(timing, c, b), p)
  {
  }

  lemma BankAfterPrecharge(cfg: Config, ch: Channel, ch': Channel, c: Command, clk: nat, b: BankId, p: Pace)
    requires Legal(cfg, ch, c, clk) && BanksOk(ch) && UpdateTimingAndStates(cfg, ch, c, clk) == Some(ch')
    requires Spaced(cfg.timing, p) && c.cmdType == Precharge && ChannelShape(cfg, ch')
    requires b in ch.banks && b.rank == c.addr.rank
    ensures PrechargePushed(ch, ch', b, clk, p)
    ensures ch'.banks[b].status == if b == c.Id() then Closed else ch.banks[b].status
    ensures b == c.Id() ==> ch.banks[b].status == Open
  {
    BankAfter(cfg, ch, c, clk, b);
    PrechargeTable(cfg.timing, c, b, p);
    var mid := if Covers(c, b) then Update(ch.banks[b], c).value else ch.banks[b];
    PushAllAtMost(mid, TableFor(cfg.timing, c, b), clk, Precharge, p.gap);
    PushAllAtMost(mid, TableFor(cfg.timing, c, b), clk, Refresh, p.tRP);
  }

  lemma PrechargeStep(cfg: Config, ch: Channel, ch': Channel, c: Command, clk: nat, p: Pace)
    requires Legal(cfg, ch, c, clk) && BanksOk(ch) && UpdateTimingAndStates(cfg, ch, c, clk) == Some(ch')
    requires Spaced(cfg.timing, p) && c.cmdType == Precharge && ChannelShape(cfg, ch')
    ensures c.Id() in OpenBanks(ch, c.addr.rank)
    ensures OpenBanks(ch', c.addr.rank) == OpenBanks(ch, c.addr.rank) - {c.Id()}
    ensures forall b :: b in ch.banks && b.rank == c.addr.rank ==> PrechargePushed(ch, ch', b, clk, p)
  {
    assert c.Id() in cfg.AllBanks();
    forall b | b in ch.banks && b.rank == c.addr.rank
      ensures PrechargePushed(ch, ch', b, clk, p)
      ensures ch'.banks[b].status == if b == c.Id() then Closed else ch.banks[b].status
      ensures b == c.Id() ==> ch.banks[b].status == Open
    {
      BankAfterPrecharge(cfg, ch, ch', c, clk, b, p);
    }
    ClosedOne(ch, ch', c.addr.rank, c.Id());
  }

  lemma ClosedOne(ch: Channel, ch': Channel, rank: int, id: BankId)
    requires ch'.banks.Keys == ch.banks.Keys && id in ch.banks && id.rank == rank && ch.banks[id].status == Open
    requires forall b :: b in ch.banks && b.rank == rank ==>
               ch'.banks[b].status == if b == id then Closed else ch.banks[b].status
    ensures id in OpenBanks(ch, rank) && OpenBanks(ch', rank) == OpenBanks(ch, rank) - {id}
  {
  }

  // At clk the next open bank is due.
  ghost predicate BankDue(ch: Channel, rank: int, clk: nat, p: Pace) {
    var open := OpenBanks(ch, rank);
    open != {} && |open| <= p.banks && clk == Due(p, p.banks - |open|)
  }

  // What the scan does at clk, given the schedule: it precharges an open bank when one is
  // due, and at the last moment the rank is closed and ready.
  lemma ScanOnSchedule(cfg: Config, ch: Channel, ref: Command, clk: nat, p: Pace)
    requires cfg.Valid() && ChannelShape(cfg, ch) && BanksOk(ch) && ref.cmdType == Refresh && Addressed(cfg, ref)
    requires OnSchedule(ch, ref.addr.rank, clk, p) && p.gap >= 1
    ensures var r := ScanRank(cfg, ch, ref, clk, 0, 0);
            && (BankDue(ch, ref.addr.rank, clk, p) ==>
                  r.Issue? && r.cmd.cmdType == Precharge && r.cmd.addr.rank == ref.addr.rank)
            && (clk == Limit(p) ==> r == Issue(ref))
  {
    var rank := ref.addr.rank;
    var open := OpenBanks(ch, rank);
    if open != {} {
      OpenBeforeLimit(ch, rank, clk, p);
      var b :| b in open;
      if BankDue(ch, rank, clk, p) {
        ScanFindsOpenBank(cfg, ch, ref, clk, b, p);
      }
    } else if clk == Limit(p) {
      ScanOfClosedRank(cfg, ch, ref, clk, p);
    }
  }

  lemma OpenBeforeLimit(ch: Channel, rank: int, clk: nat, p: Pace)
    requires OnSchedule(ch, rank, clk, p) && OpenBanks(ch, rank) != {} && p.gap >= 1
    ensures clk < Limit(p)
  {
    var open := OpenBanks(ch, rank);
    var b :| b in open;
    assert |open - {b}| == |open| - 1;
    DueAscends(p, p.banks - |open|, p.banks - 1);
  }

  lemma ScanFindsOpenBank(cfg: Config, ch: Channel, ref: Command, clk: nat, b: BankId, p: Pace)
    requires cfg.Valid() && ChannelShape(cfg, ch) && BanksOk(ch) && ref.cmdType == Refresh && Addressed(cfg, ref)
    requires OnSchedule(ch, ref.addr.rank, clk, p) && BankDue(ch, ref.addr.rank, clk, p) && b in OpenBanks(ch, ref.addr.rank)
    ensures var r := ScanRank(cfg, ch, ref, clk, 0, 0);
            r.Issue? && r.cmd.cmdType == Precharge && r.cmd.addr.rank == ref.addr.rank
  {
    assert b in cfg.AllBanks();
    assert ReadyBy(ch, b, clk, p.tRP);
    ScanFindsOpen(cfg, ch, ref, clk, 0, 0, b);
  }

  lemma ScanOfClosedRank(cfg: Config, ch: Channel, ref: Command, clk: nat, p: Pace)
    requires cfg.Valid() && ChannelShape(cfg, ch) && BanksOk(ch) && ref.cmdType == Refresh && Addressed(cfg, ref)
    requires OnSchedule(ch, ref.addr.rank, clk, p) && OpenBanks(ch, ref.addr.rank) == {} && clk == Limit(p)
    ensures ScanRank(cfg, ch, ref, clk, 0, 0) == Issue(ref)
  {
    var rank := ref.addr.rank;
    forall b | b in ch.banks && b.rank == rank
      ensures ch.banks[b].status == Closed && clk >= ch.banks[b].Earliest(Refresh)
    {
      assert b !in OpenBanks(ch, rank);
      assert ReadyBy(ch, b, Due(p, p.banks), p.tRP);
    }
    ScanLetsThrough(cfg, ch, ref, clk, 0, 0);
  }

  // ---- Ticks ----

  // One more bank of the rank is closed.
  lemma OneMoreClosed(ch: Channel, ch': Channel, rank: int, id: BankId, clk: nat, p: Pace)
    requires ch'.banks.Keys == ch.banks.Keys && OnSchedule(ch, rank, clk, p) && p.gap >= 1
    requires id in OpenBanks(ch, rank) && OpenBanks(ch', rank) == OpenBanks(ch, rank) - {id}
    requires forall b :: b in ch.banks && b.rank == rank ==> PrechargePushed(ch, ch', b, clk, p)
    ensures OnSchedule(ch', rank, clk + 1, p)
  {
    var open := OpenBanks(ch, rank);
    assert |open - {id}| == |open| - 1;
    var closed := p.banks - |open|;
    DueAscends(p, closed + 1, p.banks);
    forall b | b in ch'.banks && b.rank == rank
      ensures ReadyBy(ch', b, Due(p, closed + 1), p.tRP)
    {
      assert PrechargePushed(ch, ch', b, clk, p) && ReadyBy(ch, b, Due(p, closed), p.tRP);
    }
  }

  // No bank of the rank changes, and none is due.
  lemma NoneClosed(ch: Channel, ch': Channel, rank: int, clk: nat, p: Pace)
    requires ch'.banks.Keys == ch.banks.Keys && OnSchedule(ch, rank, clk, p) && p.gap >= 1
    requires !BankDue(ch, rank, clk, p) && clk < Limit(p) && OpenBanks(ch', rank) == OpenBanks(ch, rank)
    requires forall b :: b in ch.banks && b.rank == rank ==> SameDeadlines(ch, ch', b)
    ensures OnSchedule(ch', rank, clk + 1, p)
  {
    forall b | b in ch'.banks && b.rank == rank
      ensures ReadyBy(ch', b, Due(p, p.banks - |OpenBanks(ch, rank)|), p.tRP)
    {
      assert SameDeadlines(ch, ch', b) && ReadyBy(ch, b, Due(p, p.banks - |OpenBanks(ch, rank)|), p.tRP);
    }
  }

  // The schedule after a tick whose command is legal and is not the refresh itself.
  lemma ScheduleAfter(cfg: Config, ch: Channel, ch': Channel, c: Command, clk: nat, ref: Command, p: Pace)
    requires cfg.Valid() && Legal(cfg, ch, c, clk) && BanksOk(ch) && UpdateTimingAndStates(cfg, ch, c, clk) == Some(ch')
    requires Spaced(cfg.timing, p) && ChannelShape(cfg, ch')
    requires ref.cmdType == Refresh && Addressed(cfg, ref) && Isolated(ref, c) && c != ref
    requires OnSchedule(ch, ref.addr.rank, clk, p) && clk < Limit(p)
    requires BankDue(ch, ref.addr.rank, clk, p) ==> c.cmdType == Precharge && c.addr.rank == ref.addr.rank
    ensures OnSchedule(ch', ref.addr.rank, clk + 1, p)
  {
    var rank := ref.addr.rank;
    if c.cmdType == Precharge && c.addr.rank == rank {
      PrechargeStep(cfg, ch, ch', c, clk, p);
      OneMoreClosed(ch, ch', rank, c.Id(), clk, p);
    } else {
      if c.addr.rank == rank {
        ForeignCommand(cfg, c, rank);
      }
      OtherRankHarmless(cfg, ch, ch', c, clk, rank, p);
      NoneClosed(ch, ch', rank, clk, p);
    }
  }

  lemma ScanIsFinish(cfg: Config, cq: CmdQueue, ch: Channel)
    requires ChannelShape(cfg, ch) && ch.refreshQ != [] && Addressed(cfg, ch.refreshQ[0])
    requires ch.refreshQ[0].cmdType == Refresh
    ensures FinishRefresh(cfg, cq, ch).1 == ScanRank(cfg, ch, ch.refreshQ[0], cq.clk, 0, 0)
  {
  }

  lemma TickIssuesSelected(cfg: Config, s: State, c: Option<Command>, s': State)
    requires cfg.Valid() && ClockTick(cfg, s) == Some((s', c))
    ensures WellFormed(cfg, AfterRefresh(cfg, s))
    ensures var s1 := AfterRefresh(cfg, s);
            var l := Select(cfg, s1.cq, s1.ch).1;
            l.Issue? ==> c == Some(l.cmd)
  {
  }

  // The first scan decides the tick whenever it finds a command.
  lemma TickFollowsScan(cfg: Config, s: State, c: Option<Command>, s': State)
    requires cfg.Valid() && ClockTick(cfg, s) == Some((s', c)) && Waiting(cfg, s) != [] && s.cq.clk == s.clk
    requires ChannelShape(cfg, AfterRefresh(cfg, s).ch)
    requires var ref := Waiting(cfg, s)[0]; ref.cmdType == Refresh && Addressed(cfg, ref)
    ensures var r := ScanRank(cfg, AfterRefresh(cfg, s).ch, Waiting(cfg, s)[0], s.clk, 0, 0);
            r.Issue? ==> c == Some(r.cmd)
  {
    var s1 := AfterRefresh(cfg, s);
    TickIssuesSelected(cfg, s, c, s');
    ScanIsFinish(cfg, s1.cq, s1.ch);
  }

  // One tick while the refresh is due: it is issued in time, or stays on schedule.
  lemma TickOnSchedule(cfg: Config, s: State, c: Option<Command>, s': State, ref: Command, p: Pace)
    requires cfg.Valid() && ChannelShape(cfg, s.ch) && BanksOk(s.ch) && ChannelShape(cfg, s'.ch) && s.cq.clk == s.clk
    requires TickEffect(cfg, s, c, s') && ClockTick(cfg, s) == Some((s', c))
    requires s.ch.refreshQ != [] && s.ch.refreshQ[0] == ref && ref.cmdType == Refresh && Addressed(cfg, ref)
    requires Spaced(cfg.timing, p) && OnSchedule(s.ch, ref.addr.rank, s.clk, p)
    ensures c != Some(ref) ==> OnSchedule(s'.ch, ref.addr.rank, s'.clk, p)
  {
    var ch := AfterRefresh(cfg, s).ch;
    assert s.ch.refreshQ <= ch.refreshQ && ch == s.ch.(refreshQ := ch.refreshQ);
    SameSchedule(s.ch, ch, ref.addr.rank, s.clk, p);
    TickFollowsScan(cfg, s, c, s');
    ScheduleAfterScan(cfg, ch, s'.ch, c, s.clk, ref, p);
  }

  lemma ScheduleAfterScan(cfg: Config, ch: Channel, ch': Channel, c: Option<Command>, clk: nat, ref: Command, p: Pace)
    requires cfg.Valid() && ChannelShape(cfg, ch) && BanksOk(ch) && ChannelShape(cfg, ch') && Spaced(cfg.timing, p)
    requires ref.cmdType == Refresh && Addressed(cfg, ref) && OnSchedule(ch, ref.addr.rank, clk, p)
    requires var r := ScanRank(cfg, ch, ref, clk, 0, 0); r.Issue? ==> c == Some(r.cmd)
    requires c.None? ==> ch'.banks == ch.banks
    requires c.Some? ==> Legal(cfg, ch, c.value, clk) && Isolated(ref, c.value) &&
                         UpdateTimingAndStates(cfg, ch, c.value, clk) == Some(ch')
    ensures c != Some(ref) ==> OnSchedule(ch', ref.addr.rank, clk + 1, p)
  {
    ScanOnSchedule(cfg, ch, ref, clk, p);
    if c != Some(ref) {
      if c.Some? {
        ScheduleAfter(cfg, ch, ch', c.value, clk, ref, p);
      } else {
        SameSchedule(ch, ch', ref.addr.rank, clk, p);
        NoneClosed(ch', ch', ref.addr.rank, clk, p);
      }
    }
  }

  // The schedule speaks of the banks only.
  lemma SameSchedule(ch: Channel, ch': Channel, rank: int, clk: nat, p: Pace)
    requires ch.banks == ch'.banks && OnSchedule(ch, rank, clk, p)
    ensures OnSchedule(ch', rank, clk, p)
  {
    assert OpenBanks(ch', rank) == OpenBanks(ch, rank);
    forall b | b in ch'.banks && b.rank == rank
      ensures ReadyBy(ch', b, Due(p, p.banks - |OpenBanks(ch, rank)|), p.tRP)
    {
      assert ReadyBy(ch, b, Due(p, p.banks - |OpenBanks(ch, rank)|), p.tRP);
    }
  }

  // ---- Runs ----

  lemma StepOnSchedule(cfg: Config, w: World, e: Event, ref: Command, p: Pace)
    returns (c: Option<Command>, w1: World)
    requires WorldInv(cfg, w) && InFront(w, ref) && ref.cmdType == Refresh && Addressed(cfg, ref)
    requires Spaced(cfg.timing, p) && OnSchedule(w.st.ch, ref.addr.rank, w.st.clk, p)
    ensures Step(cfg, w, e) == Some(w1) && WorldInv(cfg, w1)
    ensures w1.trace == w.trace + Recorded(c, w.st.clk)
    ensures c != Some(ref) ==> InFront(w1, ref) && OnSchedule(w1.st.ch, ref.addr.rank, w1.st.clk, p)
  {
    StepEffect(cfg, w, e);
    StepKeeps(cfg, w, e);
    w1 := Step(cfg, w, e).value;
    c := None;
    if e == Tick {
      c :| TickEffect(cfg, w.st, c, w1.st) && ClockTick(cfg, w.st) == Some((w1.st, c)) &&
           w1.trace == w.trace + Recorded(c, w.st.clk);
      FrontStays(cfg, w.st, c, w1.st);
      TickOnSchedule(cfg, w.st, c, w1.st, ref, p);
    }
  }

  // The refresh is issued on schedule: entry n of the trace, no later than the bound.
  lemma {:induction false} NotLate(cfg: Config, w: World, events: seq<Event>, ref: Command, p: Pace) returns (n: nat)
    requires WorldInv(cfg, w) && InFront(w, ref) && ref.cmdType == Refresh && Addressed(cfg, ref)
    requires Spaced(cfg.timing, p) && OnSchedule(w.st.ch, ref.addr.rank, w.st.clk, p)
    requires Continue(cfg, w, events).Some? && Continue(cfg, w, events).value.st.clk > Limit(p)
    ensures |w.trace| <= n < |Continue(cfg, w, events).value.trace|
    ensures Continue(cfg, w, events).value.trace[n] == Issued(ref, Continue(cfg, w, events).value.trace[n].clk)
    ensures Continue(cfg, w, events).value.trace[n].clk <= Limit(p)
    decreases |events|
  {
    var c, w1 := StepOnSchedule(cfg, w, events[0], ref, p);
    if c == Some(ref) {
      n := |w.trace|;
      TraceGrows(cfg, w1, events[1..]);
      assert w1.trace[n] == Issued(ref, w.st.clk);
    } else {
      n := NotLate(cfg, w1, events[1..], ref, p);
    }
  }

  // The banks of a rank number bankgroups times banks per group.
  lemma RankSize(cfg: Config, ch: Channel, rank: int)
    requires ChannelShape(cfg, ch)
    ensures |OpenBanks(ch, rank)| <= cfg.Banks()
  {
    var all := GroupBanks(rank, cfg.bankgroups, cfg.banksPerGroup);
    GroupBanksSize(rank, cfg.bankgroups, cfg.banksPerGroup);
    assert OpenBanks(ch, rank) <= all;
    SubsetSize(OpenBanks(ch, rank), all);
  }

  function GroupBanks(rank: int, groups: nat, perGroup: nat): set<BankId> {
    set g, k | 0 <= g < groups && 0 <= k < perGroup :: BankId(rank, g, k)
  }

  lemma {:induction false} GroupBanksSize(rank: int, groups: nat, perGroup: nat)
    ensures |GroupBanks(rank, groups, perGroup)| == groups * perGroup
  {
    if groups > 0 {
      GroupBanksSize(rank, groups - 1, perGroup);
      OneGroupSize(rank, groups - 1, perGroup);
      var before, last := GroupBanks(rank, groups - 1, perGroup), OneGroup(rank, groups - 1, perGroup);
      assert GroupBanks(rank, groups, perGroup) == before + last;
      assert before !! last;
      assert groups * perGroup == (groups - 1) * perGroup + perGroup;
    }
  }

  function OneGroup(rank: int, g: nat, perGroup: nat): set<BankId> {
    set b | b in GroupBanks(rank, g + 1, perGroup) && b.group == g
  }

  lemma {:induction false} OneGroupSize(rank: int, g: nat, perGroup: nat)
    ensures |OneGroup(rank, g, perGroup)| == perGroup
  {
    if perGroup > 0 {
      OneGroupSize(rank, g, perGroup - 1);
      assert OneGroup(rank, g, perGroup) == OneGroup(rank, g, perGroup - 1) + {BankId(rank, g, perGroup - 1)};
    }
  }

  lemma {:induction false} SubsetSize(a: set<BankId>, b: set<BankId>)
    requires a <= b
    ensures |a| <= |b|
  {
    assert b == a + (b - a);
  }

  lemma StartsOnSchedule(ch: Channel, rank: int, clk: nat, p: Pace)
    requires clk <= p.start && |OpenBanks(ch, rank)| <= p.banks
    requires forall b :: b in ch.banks && b.rank == rank ==> ReadyBy(ch, b, p.start, 0)
    ensures OnSchedule(ch, rank, clk, p)
  {
    var closed := p.banks - |OpenBanks(ch, rank)|;
    DueAscends(p, 0, closed);
    DueAscends(p, 0, p.banks);
    forall b | b in ch.banks && b.rank == rank
      ensures ReadyBy(ch, b, Due(p, closed), p.tRP)
    {
      assert ReadyBy(ch, b, p.start, 0);
    }
  }

  // Once a rank refresh is the oldest request, it is issued within the larger of the present
  // and the rank's precharge and refresh deadlines, plus tPPD (or one cycle) per bank, plus
  // tRP, whatever else happens.
  lemma RefreshIsIssuedInTime(cfg: Config, w: World, events: seq<Event>, p: Pace)
    requires WorldInv(cfg, w) && w.st.ch.refreshQ != [] && Spaced(cfg.timing, p) && p.banks == cfg.Banks()
    requires w.st.ch.refreshQ[0].cmdType == Refresh && w.st.clk <= p.start
    requires forall b :: b in w.st.ch.banks && b.rank == w.st.ch.refreshQ[0].addr.rank ==> ReadyBy(w.st.ch, b, p.start, 0)
    ensures Continue(cfg, w, events).Some?
    ensures var w' := Continue(cfg, w, events).value;
            var limit := p.start + p.banks * p.gap + p.tRP;
            w'.st.clk > limit ==>
              exists n :: |w.trace| <= n < |w'.trace| && w'.trace[n].cmd == w.st.ch.refreshQ[0] && w'.trace[n].clk <= limit
  {
    NeverExits(cfg, w, events);
    var ref := w.st.ch.refreshQ[0];
    RankSize(cfg, w.st.ch, ref.addr.rank);
    StartsOnSchedule(w.st.ch, ref.addr.rank, w.st.clk, p);
    DueIs(p, p.banks);
    if Continue(cfg, w, events).value.st.clk > Limit(p) {
      var n := NotLate(cfg, w, events, ref, p);
    }
  }
}
