// When the refresh of a single bank is issued at the latest, and what alone can make it
// later: commands to other banks of its rank, which move its deadlines.
module BankRefreshDeadline {
  import opened Options
  import opened DramTypes
  import opened BankModel
  import opened ChannelModel
  import opened ControllerModel
  import opened ControllerTick
  import opened TraceSafety
  import opened ControllerRun
  import opened RefreshProgress
  import opened RefreshDeadline

  // Commands to other ranks move no bank's precharge or refresh deadline, and a precharge
  // moves the refresh deadline of its bank by at most tRP, which is a cycle or more.
  ghost predicate BankSpaced(timing: Timing, tRP: nat) {
    && tRP >= 1
    && (forall t :: !HasEntry(timing.otherRanks(t), Precharge) && !HasEntry(timing.otherRanks(t), RefreshBank))
    && forall i :: 0 <= i < |timing.sameBank(Precharge)| && timing.sameBank(Precharge)[i].0 == RefreshBank ==>
         0 <= timing.sameBank(Precharge)[i].1 <= tRP
  }

  // The bank is precharged by m and refreshed by m + tRP.
  ghost predicate OnTime(bank: Bank, clk: nat, m: nat, tRP: nat) {
    && |bank.timing| == NUM_TYPES && bank.status != SelfRefresh
    && bank.Earliest(RefreshBank) <= m + tRP && clk <= m + tRP
    && (bank.status == Open ==> bank.Earliest(Precharge) <= m && clk <= m)
  }

  ghost predicate BankOnSchedule(ch: Channel, b: BankId, clk: nat, m: nat, tRP: nat) {
    b in ch.banks && OnTime(ch.banks[b], clk, m, tRP)
  }

  // c goes to another bank of b's rank, which has a queue of its own.
  predicate Disturbs(cfg: Config, c: Command, b: BankId) {
    cfg.perBankQueues && c.addr.rank == b.rank && !Covers(c, b)
  }

  lemma UndisturbedTable(cfg: Config, ch: Channel, ch': Channel, c: Command, clk: nat, b: BankId, tRP: nat)
    requires Legal(cfg, ch, c, clk) && BanksOk(ch) && UpdateTimingAndStates(cfg, ch, c, clk) == Some(ch')
    requires BankSpaced(cfg.timing, tRP) && b in ch.banks && c.addr.rank != b.rank && ChannelShape(cfg, ch')
    ensures b in ch'.banks && ch'.banks[b].status == ch.banks[b].status
    ensures ch'.banks[b].Earliest(Precharge) == ch.banks[b].Earliest(Precharge)
    ensures |ch.banks[b].timing| == NUM_TYPES && |ch'.banks[b].timing| == NUM_TYPES
    ensures ch'.banks[b].Earliest(RefreshBank) == ch.banks[b].Earliest(RefreshBank)
  {
    BankAfter(cfg, ch, c, clk, b);
    var t := TableFor(cfg.timing, c, b);
    assert forall i :: 0 <= i < |t| ==> t[i].0 != Precharge && t[i].0 != RefreshBank by {
      assert !HasEntry(cfg.timing.otherRanks(c.cmdType), Precharge) && !HasEntry(cfg.timing.otherRanks(c.cmdType), RefreshBank);
    }
    PushAllOther(ch.banks[b], t, clk, Precharge);
    PushAllOther(ch.banks[b], t, clk, RefreshBank);
  }

  lemma AfterItsPrecharge(cfg: Config, ch: Channel, ch': Channel, c: Command, clk: nat, b: BankId, tRP: nat)
    requires Legal(cfg, ch, c, clk) && BanksOk(ch) && UpdateTimingAndStates(cfg, ch, c, clk) == Some(ch')
    requires BankSpaced(cfg.timing, tRP) && b in ch.banks && c.cmdType == Precharge && c.Id() == b && ChannelShape(cfg, ch')
    ensures ch.banks[b].status == Open && b in ch'.banks && ch'.banks[b].status == Closed
    ensures ch'.banks[b].Earliest(RefreshBank) <= ch.banks[b].Earliest(RefreshBank) ||
            ch'.banks[b].Earliest(RefreshBank) <= clk + tRP
  {
    BankAfter(cfg, ch, c, clk, b);
    PushAllAtMost(Update(ch.banks[b], c).value, TableFor(cfg.timing, c, b), clk, RefreshBank, tRP);
  }

  // The bank after a command that neither disturbs it nor is its refresh; a precharge, if
  // it was open and due.
  lemma BankScheduleAfter(cfg: Config, ch: Channel, ch': Channel, c: Command, clk: nat, ref: Command, m: nat, tRP: nat)
    requires Legal(cfg, ch, c, clk) && BanksOk(ch) && UpdateTimingAndStates(cfg, ch, c, clk) == Some(ch')
    requires BankSpaced(cfg.timing, tRP) && ChannelShape(cfg, ch')
    requires ref.cmdType == RefreshBank && Isolated(ref, c) && SparesRank(cfg, ref, c) && c != ref && !Disturbs(cfg, c, ref.Id())
    requires BankOnSchedule(ch, ref.Id(), clk, m, tRP) && clk < m + tRP
    requires ch.banks[ref.Id()].status == Open && clk == m ==> c.cmdType == Precharge && c.Id() == ref.Id()
    ensures BankOnSchedule(ch', ref.Id(), clk + 1, m, tRP)
  {
    var b := ref.Id();
    if c.addr.rank != b.rank {
      UndisturbedTable(cfg, ch, ch', c, clk, b, tRP);
    } else {
      OnlyPrecharge(cfg, ref, c);
      AfterItsPrecharge(cfg, ch, ch', c, clk, b, tRP);
    }
  }

  lemma OnlyPrecharge(cfg: Config, ref: Command, c: Command)
    requires ref.cmdType == RefreshBank && Isolated(ref, c) && SparesRank(cfg, ref, c) && c != ref && !Disturbs(cfg, c, ref.Id()) && c.addr.rank == ref.addr.rank
    ensures c.cmdType == Precharge && c.Id() == ref.Id()
  {
    assert Covers(c, ref.Id()) && Covers(ref, ref.Id());
  }

  lemma TickFollowsBank(cfg: Config, s: State, c: Option<Command>, s': State)
    requires cfg.Valid() && ClockTick(cfg, s) == Some((s', c)) && Waiting(cfg, s) != [] && s.cq.clk == s.clk
    requires ChannelShape(cfg, AfterRefresh(cfg, s).ch)
    requires var ref := Waiting(cfg, s)[0]; ref.cmdType == RefreshBank && Addressed(cfg, ref)
    ensures var r := ReadyCommand(cfg, AfterRefresh(cfg, s).ch, Waiting(cfg, s)[0], s.clk);
            r.Issue? ==> c == Some(r.cmd)
  {
    TickIssuesSelected(cfg, s, c, s');
  }

  // What the bank answers when it is due.
  lemma BankAnswers(cfg: Config, ch: Channel, ref: Command, clk: nat, m: nat, tRP: nat)
    requires ChannelShape(cfg, ch) && ref.cmdType == RefreshBank && Addressed(cfg, ref)
    requires BankOnSchedule(ch, ref.Id(), clk, m, tRP)
    ensures var r := ReadyCommand(cfg, ch, ref, clk);
            && (ch.banks[ref.Id()].status == Open && clk == m ==> r.Issue? && r.cmd.cmdType == Precharge && r.cmd.Id() == ref.Id())
            && (ch.banks[ref.Id()].status == Closed && clk == m + tRP ==> r == Issue(ref))
  {
  }

  // A tick without a command: the bank was not due.
  lemma BankIdles(bank: Bank, clk: nat, m: nat, tRP: nat)
    requires OnTime(bank, clk, m, tRP) && clk < m + tRP && !(bank.status == Open && clk == m)
    ensures OnTime(bank, clk + 1, m, tRP)
  {
  }

  lemma BankScheduleAfterTick(cfg: Config, ch: Channel, ch': Channel, c: Option<Command>, clk: nat, ref: Command, m: nat, tRP: nat)
    requires ChannelShape(cfg, ch) && BanksOk(ch) && ChannelShape(cfg, ch') && BankSpaced(cfg.timing, tRP)
    requires ref.cmdType == RefreshBank && Addressed(cfg, ref) && BankOnSchedule(ch, ref.Id(), clk, m, tRP)
    requires var r := ReadyCommand(cfg, ch, ref, clk); r.Issue? ==> c == Some(r.cmd)
    requires c.None? ==> ch'.banks == ch.banks
    requires c.Some? ==> Legal(cfg, ch, c.value, clk) && Isolated(ref, c.value) && SparesRank(cfg, ref, c.value) &&
                         UpdateTimingAndStates(cfg, ch, c.value, clk) == Some(ch')
    requires c != Some(ref) && !(c.Some? && Disturbs(cfg, c.value, ref.Id()))
    ensures BankOnSchedule(ch', ref.Id(), clk + 1, m, tRP)
  {
    BankAnswers(cfg, ch, ref, clk, m, tRP);
    BankBeforeLimit(cfg, ch, ref, clk, m, tRP, c);
    match c
    case Some(command) => BankScheduleAfter(cfg, ch, ch', command, clk, ref, m, tRP);
    case None => BankIdles(ch.banks[ref.Id()], clk, m, tRP);
  }

  lemma BankBeforeLimit(cfg: Config, ch: Channel, ref: Command, clk: nat, m: nat, tRP: nat, c: Option<Command>)
    requires ChannelShape(cfg, ch) && ref.cmdType == RefreshBank && Addressed(cfg, ref) && tRP >= 1
    requires BankOnSchedule(ch, ref.Id(), clk, m, tRP) && c != Some(ref) && !(c.Some? && Disturbs(cfg, c.value, ref.Id()))
    requires var r := ReadyCommand(cfg, ch, ref, clk); r.Issue? ==> c == Some(r.cmd)
    ensures clk < m + tRP
  {
    BankAnswers(cfg, ch, ref, clk, m, tRP);
  }

  lemma TickOnBankSchedule(cfg: Config, s: State, c: Option<Command>, s': State, ref: Command, m: nat, tRP: nat)
    requires cfg.Valid() && ChannelShape(cfg, s.ch) && BanksOk(s.ch) && ChannelShape(cfg, s'.ch) && s.cq.clk == s.clk
    requires TickEffect(cfg, s, c, s') && ClockTick(cfg, s) == Some((s', c))
    requires s.ch.refreshQ != [] && s.ch.refreshQ[0] == ref && ref.cmdType == RefreshBank && Addressed(cfg, ref)
    requires BankSpaced(cfg.timing, tRP) && BankOnSchedule(s.ch, ref.Id(), s.clk, m, tRP)
    requires c != Some(ref) && !(c.Some? && Disturbs(cfg, c.value, ref.Id()))
    ensures BankOnSchedule(s'.ch, ref.Id(), s'.clk, m, tRP)
  {
    var ch := AfterRefresh(cfg, s).ch;
    assert s.ch.refreshQ <= ch.refreshQ && ch == s.ch.(refreshQ := ch.refreshQ);
    TickFollowsBank(cfg, s, c, s');
    BankScheduleAfterTick(cfg, ch, s'.ch, c, s.clk, ref, m, tRP);
  }

  lemma StepOnBankSchedule(cfg: Config, w: World, e: Event, ref: Command, m: nat, tRP: nat)
    returns (c: Option<Command>, w1: World)
    requires WorldInv(cfg, w) && InFront(w, ref) && ref.cmdType == RefreshBank && Addressed(cfg, ref)
    requires BankSpaced(cfg.timing, tRP) && BankOnSchedule(w.st.ch, ref.Id(), w.st.clk, m, tRP)
    ensures Step(cfg, w, e) == Some(w1) && WorldInv(cfg, w1)
    ensures w1.trace == w.trace + Recorded(c, w.st.clk)
    ensures c != Some(ref) && !(c.Some? && Disturbs(cfg, c.value, ref.Id())) ==>
              InFront(w1, ref) && BankOnSchedule(w1.st.ch, ref.Id(), w1.st.clk, m, tRP)
  {
    StepEffect(cfg, w, e);
    StepKeeps(cfg, w, e);
    w1 := Step(cfg, w, e).value;
    c := EffectOnBankSchedule(cfg, w, e, w1, ref, m, tRP);
  }

  lemma EffectOnBankSchedule(cfg: Config, w: World, e: Event, w1: World, ref: Command, m: nat, tRP: nat) returns (c: Option<Command>)
    requires cfg.Valid() && Effect(cfg, w, e, w1) && InFront(w, ref) && ref.cmdType == RefreshBank && Addressed(cfg, ref)
    requires ChannelShape(cfg, w.st.ch) && BanksOk(w.st.ch) && ChannelShape(cfg, w1.st.ch) && w.st.cq.clk == w.st.clk
    requires BankSpaced(cfg.timing, tRP) && BankOnSchedule(w.st.ch, ref.Id(), w.st.clk, m, tRP)
    ensures w1.trace == w.trace + Recorded(c, w.st.clk)
    ensures c != Some(ref) && !(c.Some? && Disturbs(cfg, c.value, ref.Id())) ==>
              InFront(w1, ref) && BankOnSchedule(w1.st.ch, ref.Id(), w1.st.clk, m, tRP)
  {
    c := None;
    if e == Tick {
      c :| TickEffect(cfg, w.st, c, w1.st) && ClockTick(cfg, w.st) == Some((w1.st, c)) &&
           w1.trace == w.trace + Recorded(c, w.st.clk);
      FrontStays(cfg, w.st, c, w1.st);
      if c != Some(ref) && !(c.Some? && Disturbs(cfg, c.value, ref.Id())) {
        TickOnBankSchedule(cfg, w.st, c, w1.st, ref, m, tRP);
      }
    }
  }

  // What is issued now stays in the trace.
  lemma IssuedNow(cfg: Config, w: World, w1: World, events: seq<Event>, c: Command)
    requires cfg.Valid() && Continue(cfg, w1, events).Some? && w1.trace == w.trace + [Issued(c, w.st.clk)]
    ensures var trace := Continue(cfg, w1, events).value.trace;
            |w.trace| < |trace| && trace[|w.trace|] == Issued(c, w.st.clk)
  {
    TraceGrows(cfg, w1, events);
  }

  // Entry n of the trace: the refresh, or a command that disturbs its bank.
  lemma {:induction false} NotLateUnlessDisturbed(cfg: Config, w: World, events: seq<Event>, ref: Command, m: nat, tRP: nat)
    returns (n: nat)
    requires WorldInv(cfg, w) && InFront(w, ref) && ref.cmdType == RefreshBank && Addressed(cfg, ref)
    requires BankSpaced(cfg.timing, tRP) && BankOnSchedule(w.st.ch, ref.Id(), w.st.clk, m, tRP)
    requires Continue(cfg, w, events).Some? && Continue(cfg, w, events).value.st.clk > m + tRP
    ensures var trace := Continue(cfg, w, events).value.trace;
            |w.trace| <= n < |trace| && trace[n].clk <= m + tRP && (trace[n].cmd == ref || Disturbs(cfg, trace[n].cmd, ref.Id()))
    decreases |events|
  {
    var c, w1 := StepOnBankSchedule(cfg, w, events[0], ref, m, tRP);
    if c.Some? && (c.value == ref || Disturbs(cfg, c.value, ref.Id())) {
      n := |w.trace|;
      IssuedNow(cfg, w, w1, events[1..], c.value);
    } else {
      n := NotLateUnlessDisturbed(cfg, w1, events[1..], ref, m, tRP);
    }
  }

  // Once a bank refresh is the oldest request, it is issued within the larger of the present
  // and the bank's precharge and refresh deadlines plus tRP. Only with a queue per bank may a
  // command to another bank of its rank be issued instead.
  lemma BankRefreshIsIssuedInTime(cfg: Config, w: World, events: seq<Event>, m: nat, tRP: nat)
    requires WorldInv(cfg, w) && w.st.ch.refreshQ != [] && BankSpaced(cfg.timing, tRP)
    requires w.st.ch.refreshQ[0].cmdType == RefreshBank && w.st.clk <= m
    requires var b := w.st.ch.refreshQ[0].Id();
             b in w.st.ch.banks && |w.st.ch.banks[b].timing| == NUM_TYPES
             && w.st.ch.banks[b].Earliest(Precharge) <= m && w.st.ch.banks[b].Earliest(RefreshBank) <= m
    ensures Continue(cfg, w, events).Some?
    ensures var w', ref := Continue(cfg, w, events).value, w.st.ch.refreshQ[0];
            w'.st.clk > m + tRP ==>
              exists n :: |w.trace| <= n < |w'.trace| && w'.trace[n].clk <= m + tRP &&
                          (w'.trace[n].cmd == ref || Disturbs(cfg, w'.trace[n].cmd, ref.Id()))
  {
    NeverExits(cfg, w, events);
    if Continue(cfg, w, events).value.st.clk > m + tRP {
      var n := NotLateUnlessDisturbed(cfg, w, events, w.st.ch.refreshQ[0], m, tRP);
    }
  }
}
