// One clock tick of a controller whose invariants hold: it never exits, and its effect
// on the transactions and the banks is that of at most one legal command.
module ControllerTick {
  import opened Options
  import opened DramTypes
  import opened ChannelModel
  import opened QueueModel
  import opened Sequences
  import opened ControllerModel
  import opened InFlight
  import opened InFlightSteps

  function RequestType(p: RefreshPolicy): CommandType {
    if p == RankStaggered then Refresh else RefreshBank
  }

  // Requests are of the kind the policy inserts, and name ranks and banks that exist.
  ghost predicate RefreshQueueOk(cfg: Config, q: seq<Command>) {
    forall i :: 0 <= i < |q| ==> Addressed(cfg, q[i]) && q[i].cmdType == RequestType(cfg.refreshPolicy)
  }

  // A refresh in progress is that of the oldest request, and keeps its queues closed.
  ghost predicate RefreshOk(cfg: Config, s: State) {
    && RefreshQueueOk(cfg, s.ch.refreshQ)
    && s.rf.nextRank < cfg.ranks && s.rf.nextGroup < cfg.bankgroups && s.rf.nextBank < cfg.banksPerGroup
    && (if s.cq.inRef then s.ch.refreshQ != [] && s.cq.refIndices == RefQIndices(cfg, s.ch.refreshQ[0])
        else s.cq.refIndices == {})
  }

  ghost predicate StateInv(cfg: Config, s: State) {
    && cfg.Valid() && Matched(cfg, FlowOf(s)) && s.cq.queueIdx < cfg.NumQueues()
    && ChannelShape(cfg, s.ch) && BanksOk(s.ch) && RefreshOk(cfg, s)
    && s.cq.clk == s.clk && s.rf.clk == s.clk
  }

  // The oldest request waiting after this tick's insertion.
  function Waiting(cfg: Config, s: State): seq<Command>
    requires cfg.ranks > 0 && cfg.bankgroups > 0 && cfg.banksPerGroup > 0 && cfg.refreshInterval > 0
  {
    AfterRefresh(cfg, s).ch.refreshQ
  }

  // The banks a waiting request covers receive precharges or the request itself only.
  ghost predicate Isolated(ref: Command, c: Command) {
    c.cmdType == Precharge || c == ref || forall b :: Covers(ref, b) ==> !Covers(c, b)
  }

  // With one queue per rank a refresh, even of a single bank, closes its whole rank.
  predicate SparesRank(cfg: Config, ref: Command, c: Command) {
    cfg.perBankQueues || c.addr.rank != ref.addr.rank || Covers(ref, c.Id())
  }

  // What a command does to the pending transactions.
  ghost predicate Retired(cfg: Config, s: State, c: Command, s': State) {
    && (c.IsRead() ==>
          && Pending(s.pendingRd, c.hexAddr) && s'.pendingRd == Others(s.pendingRd, c.hexAddr)
          && s'.pendingWr == s.pendingWr
          && s'.returnQueue == s.returnQueue + Completed(Matching(s.pendingRd, c.hexAddr), s.clk + cfg.readDelay))
    && (c.IsWrite() ==>
          && Pending(s.pendingWr, c.hexAddr) && !Pending(s.pendingRd, c.hexAddr)
          && s'.pendingRd == s.pendingRd && s'.returnQueue == s.returnQueue
          && s'.pendingWr == RemoveAt(s.pendingWr, FindPending(s.pendingWr, c.hexAddr, 0)))
    && (!c.IsReadWrite() ==>
          s'.pendingRd == s.pendingRd && s'.pendingWr == s.pendingWr && s'.returnQueue == s.returnQueue)
  }

  // The effect of one tick that issues c, or nothing.
  ghost predicate TickEffect(cfg: Config, s: State, c: Option<Command>, s': State) {
    && cfg.Valid() && s'.clk == s.clk + 1 && s'.rf == AfterRefresh(cfg, s).rf
    && var ch := AfterRefresh(cfg, s).ch;
       match c
       case None => s'.pendingRd == s.pendingRd && s'.pendingWr == s.pendingWr && s'.returnQueue == s.returnQueue && s'.ch == ch
       case Some(c) =>
         && Retired(cfg, s, c, s')
         && Legal(cfg, ch, c, s.clk)
         && UpdateTimingAndStates(cfg, ch, c, s.clk) == Some(s'.ch)
         && (ch.refreshQ != [] ==> Isolated(ch.refreshQ[0], c) && SparesRank(cfg, ch.refreshQ[0], c))
         && (c.IsRefresh() ==> ch.refreshQ != [] && c == ch.refreshQ[0])
  }

  // Everything that must hold between selecting a command and the end of the tick.
  ghost predicate MidInv(cfg: Config, s: State) {
    && cfg.Valid() && Matched(cfg, FlowOf(s)) && s.cq.queueIdx < cfg.NumQueues()
    && ChannelShape(cfg, s.ch) && BanksOk(s.ch) && RefreshOk(cfg, s)
  }

  lemma RefreshTickOk(cfg: Config, s: State)
    requires StateInv(cfg, s)
    ensures var s1 := AfterRefresh(cfg, s);
            && WellFormed(cfg, s1) && MidInv(cfg, s1) && s1.rf.clk == s.clk + 1 && FlowOf(s1) == FlowOf(s)
            && s.ch.refreshQ <= s1.ch.refreshQ
  {
    var s1 := AfterRefresh(cfg, s);
    assert FlowOf(s1) == FlowOf(s);
    InsertedOk(cfg, s.rf, s.ch);
  }

  lemma InsertedOk(cfg: Config, rf: Refresher, ch: Channel)
    requires cfg.Valid() && RefreshQueueOk(cfg, ch.refreshQ)
    requires rf.nextRank < cfg.ranks && rf.nextGroup < cfg.bankgroups && rf.nextBank < cfg.banksPerGroup
    ensures var (rf', ch') := RefreshTick(cfg, rf, ch);
            && RefreshQueueOk(cfg, ch'.refreshQ) && ch' == ch.(refreshQ := ch'.refreshQ) && ch.refreshQ <= ch'.refreshQ
            && rf'.nextRank < cfg.ranks && rf'.nextGroup < cfg.bankgroups && rf'.nextBank < cfg.banksPerGroup
            && rf'.clk == rf.clk + 1
  {
  }

  // A command from an open queue touches no bank that the refresh covers.
  lemma QueueCommandIsolated(cfg: Config, cq: CmdQueue, ch: Channel, r: (CmdQueue, Lookup), i: nat, k: nat, ref: Command)
    requires cfg.Valid() && Picked(cfg, cq, ch, r, i, k)
    requires cq.inRef && cq.refIndices == RefQIndices(cfg, ref) && Addressed(cfg, ref) && ref.IsRefresh()
    ensures Isolated(ref, r.1.cmd) && SparesRank(cfg, ref, r.1.cmd)
  {
    var c := r.1.cmd;
    var q := r.0.queueIdx;
    assert WellPlaced(cfg, cq.queues[q][i], q);
    QueueOfRank(cfg, c.Id());
    if ref.cmdType == Refresh {
      assert c.addr.rank != ref.addr.rank;
    } else {
      assert c.Id() != ref.Id();
    }
  }

  // The refresh request in front takes a step.
  lemma RefreshStep(cfg: Config, s: State)
    requires MidInv(cfg, s) && s.clk == s.cq.clk && s.ch.refreshQ != []
    ensures var f := FinishRefresh(cfg, s.cq, s.ch);
            var s2 := s.(cq := f.0);
            && f.1 != Exit && FlowOf(s2) == FlowOf(s) && f.0.clk == s.clk && f.0.queueIdx == s.cq.queueIdx
            && (f.1.NotReady? ==> MidInv(cfg, s2) && f.0.inRef)
            && (f.1.Issue? ==> Legal(cfg, s.ch, f.1.cmd, s.clk) && Isolated(s.ch.refreshQ[0], f.1.cmd)
                               && SparesRank(cfg, s.ch.refreshQ[0], f.1.cmd) && !f.1.cmd.IsReadWrite())
            && (f.1.Issue? && f.1.cmd.IsRefresh() ==>
                  f.1.cmd == s.ch.refreshQ[0] && !f.0.inRef && f.0.refIndices == {})
            && (f.1.Issue? && !f.1.cmd.IsRefresh() ==> MidInv(cfg, s2))
  {
    FinishRefreshSpec(cfg, s.cq, s.ch);
  }

  // The channel after a legal command, seen from the refresh queue.
  lemma ChannelAfter(cfg: Config, ch: Channel, c: Command, clk: nat)
    requires Legal(cfg, ch, c, clk) && BanksOk(ch)
    ensures UpdateTimingAndStates(cfg, ch, c, clk).Some?
    ensures var ch' := UpdateTimingAndStates(cfg, ch, c, clk).value;
            && ChannelShape(cfg, ch') && BanksOk(ch')
            && (!c.IsRefresh() ==> ch'.refreshQ == ch.refreshQ)
            && (c.IsRefresh() && ch.refreshQ != [] && c == ch.refreshQ[0] ==> ch'.refreshQ == ch.refreshQ[1..])
  {
    LegalUpdates(cfg, ch, c, clk);
  }

  // Issuing a refresh step (a precharge, or the request itself) from state s2.
  lemma IssueRefreshStep(cfg: Config, s: State, s2: State, c: Command)
    requires MidInv(cfg, s) && s.ch.refreshQ != [] && s2 == s.(cq := s2.cq) && FlowOf(s2) == FlowOf(s)
    requires s2.cq.queueIdx < cfg.NumQueues()
    requires Legal(cfg, s.ch, c, s.clk) && !c.IsReadWrite()
    requires if c.IsRefresh() then c == s.ch.refreshQ[0] && !s2.cq.inRef && s2.cq.refIndices == {} else RefreshOk(cfg, s2)
    ensures IssueCommand(cfg, s2, c).Some?
    ensures var s' := IssueCommand(cfg, s2, c).value;
            && s' == s2.(ch := s'.ch) && UpdateTimingAndStates(cfg, s.ch, c, s.clk) == Some(s'.ch) && MidInv(cfg, s')
  {
    ChannelAfter(cfg, s.ch, c, s.clk);
    IssueParts(cfg, s2, c, s2, UpdateTimingAndStates(cfg, s.ch, c, s.clk).value);
    assert FlowOf(IssueCommand(cfg, s2, c).value) == FlowOf(s);
    RefreshOkAfter(cfg, s, s2, c, UpdateTimingAndStates(cfg, s.ch, c, s.clk).value);
  }

  lemma RefreshOkAfter(cfg: Config, s: State, s2: State, c: Command, ch: Channel)
    requires RefreshOk(cfg, s) && s.ch.refreshQ != [] && s2 == s.(cq := s2.cq)
    requires if c.IsRefresh() then !s2.cq.inRef && s2.cq.refIndices == {} else RefreshOk(cfg, s2)
    requires ch.refreshQ == if c.IsRefresh() then s.ch.refreshQ[1..] else s.ch.refreshQ
    ensures RefreshOk(cfg, s2.(ch := ch))
  {
  }

  // What a picked command does to the pending transactions.
  lemma RetireQueueCommand(cfg: Config, s: State, r: (CmdQueue, Lookup), i: nat, k: nat)
    requires Matched(cfg, FlowOf(s)) && s.cq.queueIdx < cfg.NumQueues() && Picked(cfg, s.cq, s.ch, r, i, k)
    ensures Retire(cfg, s.(cq := r.0), r.1.cmd).Some?
    ensures var s3 := Retire(cfg, s.(cq := r.0), r.1.cmd).value;
            && Matched(cfg, FlowOf(s3)) && Retired(cfg, s, r.1.cmd, s3)
  {
    if r.1.cmd.IsReadWrite() {
      IssueKeepsMatched(cfg, s, r, i, k);
    } else {
      assert FlowOf(s.(cq := r.0)) == FlowOf(s);
    }
    RetireIsRetired(cfg, s, r.0, r.1.cmd);
  }

  lemma RetireIsRetired(cfg: Config, s: State, cq: CmdQueue, c: Command)
    requires c.IsRead() ==> Pending(s.pendingRd, c.hexAddr)
    requires c.IsWrite() ==> Pending(s.pendingWr, c.hexAddr) && !Pending(s.pendingRd, c.hexAddr)
    ensures Retire(cfg, s.(cq := cq), c).Some? && Retired(cfg, s, c, Retire(cfg, s.(cq := cq), c).value)
  {
  }

  lemma PickedIsLegal(cfg: Config, cq: CmdQueue, ch: Channel, r: (CmdQueue, Lookup), i: nat, k: nat)
    requires Picked(cfg, cq, ch, r, i, k)
    ensures Legal(cfg, ch, r.1.cmd, cq.clk) && !r.1.cmd.IsRefresh() && r.0.queueIdx < |cq.queues| == cfg.NumQueues()
    ensures r.0 == cq.(queueIdx := r.0.queueIdx, queues := r.0.queues)
  {
  }

  // Retiring changes the pending transactions only.
  lemma RetireFrame(cfg: Config, s: State, c: Command)
    requires Retire(cfg, s, c).Some?
    ensures var s3 := Retire(cfg, s, c).value;
            s3 == s.(pendingRd := s3.pendingRd, pendingWr := s3.pendingWr, returnQueue := s3.returnQueue)
  {
  }

  // The state after issuing c, its parts known.
  lemma IssueParts(cfg: Config, s: State, c: Command, s3: State, ch: Channel)
    requires ChannelShape(cfg, s.ch) && Addressed(cfg, c)
    requires Retire(cfg, s, c) == Some(s3) && UpdateTimingAndStates(cfg, s.ch, c, s.clk) == Some(ch)
    ensures IssueCommand(cfg, s, c) == Some(s3.(ch := ch))
  {
  }

  // Issuing a command picked from the queues.
  lemma IssueQueueCommand(cfg: Config, s: State, r: (CmdQueue, Lookup), i: nat, k: nat) returns (s': State)
    requires MidInv(cfg, s) && Picked(cfg, s.cq, s.ch, r, i, k) && s.cq.clk == s.clk
    ensures IssueCommand(cfg, s.(cq := r.0), r.1.cmd) == Some(s')
    ensures Retired(cfg, s, r.1.cmd, s') && UpdateTimingAndStates(cfg, s.ch, r.1.cmd, s.clk) == Some(s'.ch)
    ensures MidInv(cfg, s')
    ensures s'.clk == s.clk && s'.rf == s.rf && s'.cq.clk == s.clk
  {
    var c := r.1.cmd;
    PickedIsLegal(cfg, s.cq, s.ch, r, i, k);
    RetireQueueCommand(cfg, s, r, i, k);
    RetireFrame(cfg, s.(cq := r.0), c);
    ChannelAfter(cfg, s.ch, c, s.clk);
    var s3 := Retire(cfg, s.(cq := r.0), c).value;
    var ch := UpdateTimingAndStates(cfg, s.ch, c, s.clk).value;
    IssueParts(cfg, s.(cq := r.0), c, s3, ch);
    s' := s3.(ch := ch);
    assert FlowOf(s') == FlowOf(s3);
  }

  // Scheduling and advancing the clocks.
  lemma EndOfTick(cfg: Config, s: State)
    requires MidInv(cfg, s) && s.cq.clk == s.clk && s.rf.clk == s.clk + 1
    ensures var s' := Advance(ScheduleTransaction(cfg, s));
            && StateInv(cfg, s') && s'.clk == s.clk + 1 && s'.ch == s.ch && s'.rf == s.rf
            && s'.pendingRd == s.pendingRd && s'.pendingWr == s.pendingWr && s'.returnQueue == s.returnQueue
  {
    ScheduleKeepsMatched(cfg, s);
    assert FlowOf(Advance(ScheduleTransaction(cfg, s))) == FlowOf(ScheduleTransaction(cfg, s));
  }

  // The tick, once what it selects and issues is known.
  lemma TickIs(cfg: Config, s: State, s1: State, cq: CmdQueue, c: Option<Command>, s3: State)
    requires cfg.Valid() && s1 == AfterRefresh(cfg, s) && WellFormed(cfg, s1) && QueueShape(cfg, s3.cq)
    requires Select(cfg, s1.cq, s1.ch) == (cq, if c.None? then NotReady else Issue(c.value))
    requires if c.None? then s3 == s1.(cq := cq) else IssueCommand(cfg, s1.(cq := cq), c.value) == Some(s3)
    ensures ClockTick(cfg, s) == Some((Advance(ScheduleTransaction(cfg, s3)), c))
  {
  }

  // The tick when the refresh in progress takes a step.
  lemma TickRefreshes(cfg: Config, s: State) returns (c: Option<Command>, s': State)
    requires StateInv(cfg, s) && Waiting(cfg, s) != []
    requires var s1 := AfterRefresh(cfg, s); WellFormed(cfg, s1) && FinishRefresh(cfg, s1.cq, s1.ch).1.Issue?
    ensures ClockTick(cfg, s) == Some((s', c))
    ensures StateInv(cfg, s') && TickEffect(cfg, s, c, s')
  {
    RefreshTickOk(cfg, s);
    var s1 := AfterRefresh(cfg, s);
    RefreshStep(cfg, s1);
    var f := FinishRefresh(cfg, s1.cq, s1.ch);
    var s2 := s1.(cq := f.0);
    IssueRefreshStep(cfg, s1, s2, f.1.cmd);
    var s3 := IssueCommand(cfg, s2, f.1.cmd).value;
    EndOfTick(cfg, s3);
    TickIs(cfg, s, s1, f.0, Some(f.1.cmd), s3);
    c, s' := Some(f.1.cmd), Advance(ScheduleTransaction(cfg, s3));
  }

  // The tick when the queues are looked through, from state s2.
  lemma TickQueues(cfg: Config, s: State, s1: State, s2: State) returns (c: Option<Command>, s': State)
    requires cfg.Valid() && s1 == AfterRefresh(cfg, s) && WellFormed(cfg, s1) && MidInv(cfg, s2)
    requires s2 == s1.(cq := s2.cq) && FlowOf(s2) == FlowOf(s) && s2.cq.clk == s2.clk == s.clk && s2.rf.clk == s.clk + 1
    requires s2.ch.refreshQ != [] ==> s2.cq.inRef
    requires Select(cfg, s1.cq, s1.ch) == GetCommandToIssue(cfg, s2.cq, s2.ch, cfg.NumQueues())
    ensures ClockTick(cfg, s) == Some((s', c))
    ensures StateInv(cfg, s') && TickEffect(cfg, s, c, s')
  {
    var i, k := GetCommandSpec(cfg, s2.cq, s2.ch, cfg.NumQueues());
    var r := GetCommandToIssue(cfg, s2.cq, s2.ch, cfg.NumQueues());
    if r.1.Issue? {
      var s3 := IssueQueueCommand(cfg, s2, r, i, k);
      PickedIsLegal(cfg, s2.cq, s2.ch, r, i, k);
      if s2.ch.refreshQ != [] {
        QueueCommandIsolated(cfg, s2.cq, s2.ch, r, i, k, s2.ch.refreshQ[0]);
      }
      EndOfTick(cfg, s3);
      TickIs(cfg, s, s1, r.0, Some(r.1.cmd), s3);
      c, s' := Some(r.1.cmd), Advance(ScheduleTransaction(cfg, s3));
      RetiredFrom(cfg, s, s2, r.1.cmd, s3, s');
    } else {
      var s3 := s2.(cq := r.0);
      assert FlowOf(s3) == FlowOf(s2);
      EndOfTick(cfg, s3);
      TickIs(cfg, s, s1, r.0, None, s3);
      c, s' := None, Advance(ScheduleTransaction(cfg, s3));
    }
  }

  lemma RetiredFrom(cfg: Config, s: State, s2: State, c: Command, s3: State, s': State)
    requires Retired(cfg, s2, c, s3) && FlowOf(s2) == FlowOf(s) && s2.returnQueue == s.returnQueue && s2.clk == s.clk
    requires s'.pendingRd == s3.pendingRd && s'.pendingWr == s3.pendingWr && s'.returnQueue == s3.returnQueue
    ensures Retired(cfg, s, c, s')
  {
  }

  // A tick never exits and never indexes outside a vector; it issues at most one
  // command, legal where it lands, and keeps every invariant.
  lemma TickKeepsState(cfg: Config, s: State) returns (c: Option<Command>, s': State)
    requires StateInv(cfg, s)
    ensures ClockTick(cfg, s) == Some((s', c))
    ensures StateInv(cfg, s') && TickEffect(cfg, s, c, s')
  {
    var s1 := AfterRefresh(cfg, s);
    RefreshTickOk(cfg, s);
    if s1.ch.refreshQ == [] {
      c, s' := TickQueues(cfg, s, s1, s1);
    } else {
      RefreshStep(cfg, s1);
      var f := FinishRefresh(cfg, s1.cq, s1.ch);
      if f.1.Issue? {
        c, s' := TickRefreshes(cfg, s);
      } else {
        c, s' := TickQueues(cfg, s, s1, s1.(cq := f.0));
      }
    }
  }
}
