// What the controller decides, stated over its queues alone: which transactions it takes,
// which one it schedules, which command a tick issues, and what it hands back.
module TickOutcome {
  import opened Options
  import opened DramTypes
  import opened ChannelModel
  import opened QueueModel
  import opened CommandSelection
  import opened ControllerModel
  import opened ControllerTick
  import opened ControllerRun

  // ---- Taking a transaction ----

  ghost predicate AddressIn(q: seq<Transaction>, a: nat) {
    exists i :: 0 <= i < |q| && q[i].addr == a
  }

  lemma PendingIsIn(q: seq<Transaction>, a: nat)
    ensures Pending(q, a) <==> AddressIn(q, a)
  {
    if Pending(q, a) {
      var t :| t in q && t.addr == a;
      var i :| 0 <= i < |q| && q[i] == t;
      assert q[i].addr == a;
    }
  }

  // The queue that a transaction of this kind waits in.
  ghost function WaitingRoom(cfg: Config, s: State, isWrite: bool): seq<Transaction> {
    if cfg.unifiedQueue then s.unifiedQueue else if isWrite then s.writeBuffer else s.readQueue
  }

  // The state after taking t: a write is answered at once and waits unless one of its
  // address is pending; a read of a pending write is answered at once; any other read
  // becomes pending, and waits unless a read of its address does already.
  ghost predicate Taken(cfg: Config, s: State, t: Transaction, s': State) {
    var now := t.(completeCycle := s.clk + 1);
    var written, asked := AddressIn(s.pendingWr, t.addr), AddressIn(s.pendingRd, t.addr);
    var waits := !written && (t.isWrite || !asked);
    && s'.returnQueue == (if t.isWrite || written then s.returnQueue + [now] else s.returnQueue)
    && s'.pendingWr == (if t.isWrite && !written then s.pendingWr + [t] else s.pendingWr)
    && s'.pendingRd == (if !t.isWrite && !written then s.pendingRd + [t] else s.pendingRd)
    && s'.unifiedQueue == (if waits && cfg.unifiedQueue then s.unifiedQueue + [t] else s.unifiedQueue)
    && s'.writeBuffer == (if waits && !cfg.unifiedQueue && t.isWrite then s.writeBuffer + [t] else s.writeBuffer)
    && s'.readQueue == (if waits && !cfg.unifiedQueue && !t.isWrite then s.readQueue + [t] else s.readQueue)
    && s'.clk == s.clk && s'.writeDraining == s.writeDraining && s'.cq == s.cq && s'.ch == s.ch && s'.rf == s.rf
  }

  // A transaction is taken exactly when its waiting room has a free place.
  lemma TakenWhenRoom(cfg: Config, w: World, a: nat, isWrite: bool, data: int)
    requires cfg.Valid()
    ensures Step(cfg, w, Accept(a, isWrite, data)).Some?
    ensures var w' := Step(cfg, w, Accept(a, isWrite, data)).value;
            if |WaitingRoom(cfg, w.st, isWrite)| < cfg.transQueueSize then
              w'.nextId == w.nextId + 1 && Taken(cfg, w.st, Transaction(w.nextId, a, w.st.clk, 0, isWrite), w'.st)
            else w' == w
  {
    PendingIsIn(w.st.pendingWr, a);
    PendingIsIn(w.st.pendingRd, a);
  }

  // ---- Handing back ----

  // ReturnDoneTrans hands back the entry that has waited longest of those complete.
  lemma OldestCompleteReturns(s: State, clk: nat) returns (k: nat)
    ensures var (s', t) := ReturnDone(s, clk);
            if forall i :: 0 <= i < |s.returnQueue| ==> clk < s.returnQueue[i].completeCycle then s' == s && t == None
            else && k < |s.returnQueue| && clk >= s.returnQueue[k].completeCycle
                 && (forall i :: 0 <= i < k ==> clk < s.returnQueue[i].completeCycle)
                 && t == Some(s.returnQueue[k])
                 && s' == s.(returnQueue := s.returnQueue[..k] + s.returnQueue[k + 1..])
  {
    k := FirstDone(s.returnQueue, clk, 0);
  }

  // r holds the entries of q with that address, or all others, in the order of q; `at` says
  // where they stand there.
  ghost predicate Picks(q: seq<Transaction>, a: nat, same: bool, r: seq<Transaction>, at: seq<nat>) {
    && |r| == |at| && (forall i, j :: 0 <= i < j < |at| ==> at[i] < at[j])
    && (forall i :: 0 <= i < |at| ==> at[i] < |q| && (q[at[i]].addr == a) == same && r[i] == q[at[i]])
    && (forall p :: 0 <= p < |q| && (q[p].addr == a) == same ==> p in at)
  }

  lemma PicksMore(q: seq<Transaction>, a: nat, same: bool, r: seq<Transaction>, at: seq<nat>)
    requires q != [] && Picks(q[..|q| - 1], a, same, r, at)
    ensures var last := |q| - 1;
            if (q[last].addr == a) == same then Picks(q, a, same, r + [q[last]], at + [last]) else Picks(q, a, same, r, at)
  {
    var last := |q| - 1;
    assert forall p :: 0 <= p < last ==> q[..last][p] == q[p];
    if (q[last].addr == a) == same {
      assert last in at + [last];
    }
  }

  // An issued read answers every pending read of its address, in order of arrival, and
  // leaves the others in theirs.
  lemma {:induction false} SplitInOrder(q: seq<Transaction>, a: nat) returns (yes: seq<nat>, no: seq<nat>)
    ensures Picks(q, a, true, Matching(q, a), yes) && Picks(q, a, false, Others(q, a), no)
    decreases |q|
  {
    yes, no := [], [];
    if q != [] {
      var last := |q| - 1;
      yes, no := SplitInOrder(q[..last], a);
      PicksMore(q, a, true, Matching(q[..last], a), yes);
      PicksMore(q, a, false, Others(q[..last], a), no);
      if q[last].addr == a {
        yes := yes + [last];
      } else {
        no := no + [last];
      }
    }
  }

  // ---- Scheduling ----

  ghost predicate HasRoom(cfg: Config, cq: CmdQueue, t: Transaction) {
    var q := QueueIndex(cfg, cfg.BankOf(t.addr));
    0 <= q < |cq.queues| && |cq.queues[q]| < cfg.cmdQueueSize
  }

  // Entry k is the first whose command queue has room; |queue| if there is none.
  ghost predicate FirstWithRoom(cfg: Config, cq: CmdQueue, queue: seq<Transaction>, k: nat) {
    && k <= |queue| && (forall i :: 0 <= i < k ==> !HasRoom(cfg, cq, queue[i]))
    && (k < |queue| ==> HasRoom(cfg, cq, queue[k]))
  }

  // Split queues: a drain of the write buffer begins when the buffer is full, or holds
  // more than eight writes while no command is queued.
  ghost predicate DrainBegins(cfg: Config, s: State) {
    && !cfg.unifiedQueue && s.writeDraining == 0
    && (|s.writeBuffer| >= cfg.transQueueSize ||
        (|s.writeBuffer| > 8 && forall q :: 0 <= q < |s.cq.queues| ==> s.cq.queues[q] == []))
  }

  // The writes still to drain when this tick schedules.
  ghost function ToDrain(cfg: Config, s: State): int {
    if DrainBegins(cfg, s) then |s.writeBuffer| else s.writeDraining
  }

  // The command of transaction t joins its queue.
  ghost predicate Joined(cfg: Config, cq: CmdQueue, t: Transaction, cq': CmdQueue) {
    var q := QueueIndex(cfg, cfg.BankOf(t.addr));
    var ty := if t.isWrite then (if cfg.closePage then WritePrecharge else Write)
              else (if cfg.closePage then ReadPrecharge else Read);
    && 0 <= q < |cq.queues|
    && cq' == cq.(queues := cq.queues[q := cq.queues[q] + [Command(ty, cfg.mapping(t.addr), t.addr)]])
  }

  function Without(queue: seq<Transaction>, k: nat): seq<Transaction>
    requires k < |queue|
  {
    queue[..k] + queue[k + 1..]
  }

  // Split queues: reads are scheduled unless a drain is under way; a write that a pending
  // read of its address holds back ends the drain.
  ghost predicate SplitScheduled(cfg: Config, s: State, s': State, k: nat) {
    var d := ToDrain(cfg, s);
    if d > 0 then
      FirstWithRoom(cfg, s.cq, s.writeBuffer, k) &&
      if k == |s.writeBuffer| then s' == s.(writeDraining := d)
      else if AddressIn(s.pendingRd, s.writeBuffer[k].addr) then s' == s.(writeDraining := 0)
      else && s' == s.(writeDraining := d - 1, writeBuffer := Without(s.writeBuffer, k), cq := s'.cq)
           && Joined(cfg, s.cq, s.writeBuffer[k], s'.cq)
    else
      FirstWithRoom(cfg, s.cq, s.readQueue, k) &&
      if k == |s.readQueue| then s' == s
      else && s' == s.(readQueue := Without(s.readQueue, k), cq := s'.cq)
           && Joined(cfg, s.cq, s.readQueue[k], s'.cq)
  }

  ghost predicate UnifiedScheduled(cfg: Config, s: State, s': State, k: nat) {
    FirstWithRoom(cfg, s.cq, s.unifiedQueue, k) &&
    if k == |s.unifiedQueue| then s' == s
    else && s' == s.(unifiedQueue := Without(s.unifiedQueue, k), cq := s'.cq)
         && Joined(cfg, s.cq, s.unifiedQueue[k], s'.cq)
  }

  lemma RoomSpec(cfg: Config, cq: CmdQueue, queue: seq<Transaction>)
    requires cfg.Valid() && QueueShape(cfg, cq)
    ensures FirstWithRoom(cfg, cq, queue, FirstAcceptable(cfg, cq, queue, 0))
  {
    forall i | 0 <= i < |queue|
      ensures HasRoom(cfg, cq, queue[i]) <==> WillAcceptCommand(cfg, cq, cfg.BankOf(queue[i].addr))
    {
      QueueOfRank(cfg, cfg.BankOf(queue[i].addr));
    }
  }

  lemma JoinSpec(cfg: Config, cq: CmdQueue, t: Transaction)
    requires QueueShape(cfg, cq) && cfg.InRange(ToCommand(cfg, t).Id())
    ensures Joined(cfg, cq, t, AddCommand(cfg, cq, ToCommand(cfg, t)))
  {
    QueueOfRank(cfg, cfg.BankOf(t.addr));
  }

  // ScheduleTransaction with one queue for reads and writes.
  lemma ScheduledFromUnified(cfg: Config, s: State) returns (k: nat)
    requires cfg.Valid() && QueueShape(cfg, s.cq) && cfg.unifiedQueue
    ensures UnifiedScheduled(cfg, s, ScheduleTransaction(cfg, s), k)
  {
    RoomSpec(cfg, s.cq, s.unifiedQueue);
    k := FirstAcceptable(cfg, s.cq, s.unifiedQueue, 0);
    if k < |s.unifiedQueue| {
      assert cfg.InRange(cfg.BankOf(s.unifiedQueue[k].addr));
      JoinSpec(cfg, s.cq, s.unifiedQueue[k]);
    }
  }

  lemma DrainSpec(cfg: Config, s: State)
    ensures Draining(cfg, s) == ToDrain(cfg, s)
  {
  }

  // ScheduleTransaction with a read queue and a write buffer.
  lemma ScheduledFromSplit(cfg: Config, s: State) returns (k: nat)
    requires cfg.Valid() && QueueShape(cfg, s.cq) && !cfg.unifiedQueue
    requires (forall t :: t in s.readQueue ==> !t.isWrite) && (forall t :: t in s.writeBuffer ==> t.isWrite)
    ensures SplitScheduled(cfg, s, ScheduleTransaction(cfg, s), k)
  {
    DrainSpec(cfg, s);
    if ToDrain(cfg, s) > 0 {
      k := DrainedWrite(cfg, s);
    } else {
      k := ScheduledRead(cfg, s);
    }
  }

  lemma DrainedWrite(cfg: Config, s: State) returns (k: nat)
    requires cfg.Valid() && QueueShape(cfg, s.cq) && !cfg.unifiedQueue
    requires Draining(cfg, s) == ToDrain(cfg, s) > 0 && forall t :: t in s.writeBuffer ==> t.isWrite
    ensures SplitScheduled(cfg, s, ScheduleTransaction(cfg, s), k)
  {
    RoomSpec(cfg, s.cq, s.writeBuffer);
    k := FirstAcceptable(cfg, s.cq, s.writeBuffer, 0);
    if k < |s.writeBuffer| {
      assert cfg.InRange(cfg.BankOf(s.writeBuffer[k].addr));
      JoinSpec(cfg, s.cq, s.writeBuffer[k]);
      PendingIsIn(s.pendingRd, s.writeBuffer[k].addr);
      assert s.writeBuffer[k] in s.writeBuffer;
    }
  }

  lemma ScheduledRead(cfg: Config, s: State) returns (k: nat)
    requires cfg.Valid() && QueueShape(cfg, s.cq) && !cfg.unifiedQueue
    requires Draining(cfg, s) == ToDrain(cfg, s) <= 0 && forall t :: t in s.readQueue ==> !t.isWrite
    ensures SplitScheduled(cfg, s, ScheduleTransaction(cfg, s), k)
  {
    RoomSpec(cfg, s.cq, s.readQueue);
    k := FirstAcceptable(cfg, s.cq, s.readQueue, 0);
    if k < |s.readQueue| {
      assert cfg.InRange(cfg.BankOf(s.readQueue[k].addr));
      JoinSpec(cfg, s.cq, s.readQueue[k]);
      assert s.readQueue[k] in s.readQueue;
    }
  }

  ghost predicate Scheduled(cfg: Config, s: State, s': State, k: nat) {
    if cfg.unifiedQueue then UnifiedScheduled(cfg, s, s', k) else SplitScheduled(cfg, s, s', k)
  }

  // What waits and what is being drained.
  ghost predicate SameWaiting(s: State, s': State) {
    && s'.readQueue == s.readQueue && s'.writeBuffer == s.writeBuffer && s'.unifiedQueue == s.unifiedQueue
    && s'.writeDraining == s.writeDraining
  }

  // The state that a tick schedules from, once its command is issued.
  lemma TickEnds(cfg: Config, s: State) returns (mid: State)
    requires cfg.Valid() && ClockTick(cfg, s).Some?
    ensures QueueShape(cfg, mid.cq) && SameWaiting(s, mid)
    ensures ClockTick(cfg, s).value.0 == Advance(ScheduleTransaction(cfg, mid))
  {
    var s1 := AfterRefresh(cfg, s);
    var (cq, l) := Select(cfg, s1.cq, s1.ch);
    mid := match l case Issue(c) => IssueCommand(cfg, s1.(cq := cq), c).value case _ => s1.(cq := cq);
  }

  // Every tick ends with one transaction scheduled, or none that could be.
  lemma TickSchedules(cfg: Config, s: State) returns (mid: State, after: State, k: nat)
    requires StateInv(cfg, s)
    ensures ClockTick(cfg, s).Some? && ClockTick(cfg, s).value.0 == Advance(after)
    ensures SameWaiting(s, mid) && Scheduled(cfg, mid, after, k)
  {
    var c, s' := TickKeepsState(cfg, s);
    mid := TickEnds(cfg, s);
    after := ScheduleTransaction(cfg, mid);
    if cfg.unifiedQueue {
      k := ScheduledFromUnified(cfg, mid);
    } else {
      k := ScheduledFromSplit(cfg, mid);
    }
  }

  // No more writes are to be drained than the write buffer holds, in any run.
  ghost predicate DrainBounded(s: State) {
    0 <= s.writeDraining <= |s.writeBuffer|
  }

  lemma TickKeepsDrain(cfg: Config, s: State)
    requires StateInv(cfg, s) && DrainBounded(s)
    ensures ClockTick(cfg, s).Some? && DrainBounded(ClockTick(cfg, s).value.0)
  {
    var mid, after, k := TickSchedules(cfg, s);
  }

  lemma StepKeepsDrain(cfg: Config, w: World, e: Event)
    requires cfg.Valid() && StateInv(cfg, w.st) && DrainBounded(w.st)
    ensures Step(cfg, w, e).Some? ==> DrainBounded(Step(cfg, w, e).value.st)
  {
    match e
    case Accept(a, isWrite, data) => TakenWhenRoom(cfg, w, a, isWrite, data);
    case Tick => TickKeepsDrain(cfg, w.st);
    case Return(clk) =>
  }

  lemma {:induction false} DrainIsBounded(cfg: Config, events: seq<Event>)
    requires cfg.Valid()
    ensures Run(cfg, events).Some? && DrainBounded(Run(cfg, events).value.st)
    decreases |events|
  {
    EveryRun(cfg, events);
    if events != [] {
      var before := events[..|events| - 1];
      DrainIsBounded(cfg, before);
      EveryRun(cfg, before);
      StepKeepsDrain(cfg, Run(cfg, before).value, events[|events| - 1]);
    }
  }

  // The return queue has gained r, completed at that cycle.
  ghost predicate Gained(before: seq<Transaction>, now: seq<Transaction>, r: seq<Transaction>, cycle: nat) {
    && |now| == |before| + |r| && now[..|before|] == before
    && forall i :: 0 <= i < |r| ==> now[|before| + i] == r[i].(completeCycle := cycle)
  }

  // A read command for address a answers, oldest first, all pending reads of it, to be
  // complete after the read delay.
  ghost predicate Answered(cfg: Config, s: State, a: nat, s': State) {
    exists r, at :: Picks(s.pendingRd, a, true, r, at) && Gained(s.returnQueue, s'.returnQueue, r, s.clk + cfg.readDelay)
  }

  lemma RetiredAnswers(cfg: Config, s: State, c: Command, s': State)
    requires Retired(cfg, s, c, s') && c.IsRead()
    ensures Answered(cfg, s, c.hexAddr, s')
  {
    var yes, no := SplitInOrder(s.pendingRd, c.hexAddr);
    CompletedGained(s.returnQueue, Matching(s.pendingRd, c.hexAddr), s.clk + cfg.readDelay);
  }

  lemma CompletedGained(before: seq<Transaction>, r: seq<Transaction>, cycle: nat)
    ensures Gained(before, before + Completed(r, cycle), r, cycle)
  {
  }

  // No other command answers anything.
  lemma ReadsComplete(cfg: Config, s: State) returns (c: Option<Command>, s': State)
    requires StateInv(cfg, s)
    ensures ClockTick(cfg, s) == Some((s', c))
    ensures if c.Some? && (c.value.cmdType == Read || c.value.cmdType == ReadPrecharge)
            then Answered(cfg, s, c.value.hexAddr, s') else s'.returnQueue == s.returnQueue
  {
    c, s' := TickKeepsState(cfg, s);
    if c.Some? {
      EffectRetires(cfg, s, c.value, s');
      if c.value.IsRead() {
        RetiredAnswers(cfg, s, c.value, s');
      }
    }
  }

  lemma EffectRetires(cfg: Config, s: State, c: Command, s': State)
    requires TickEffect(cfg, s, Some(c), s')
    ensures Retired(cfg, s, c, s') && (!c.IsRead() ==> s'.returnQueue == s.returnQueue)
  {
  }

  // ---- The command of a tick ----

  // The answer of the refresh request in front.
  ghost predicate RefreshAnswer(cfg: Config, ch: Channel, clk: nat, r: Lookup) {
    ch.refreshQ != [] &&
    if ch.refreshQ[0].cmdType == Refresh then RankStep(cfg, ch, ch.refreshQ[0], clk, r)
    else BankStep(ch, ch.refreshQ[0], clk, r)
  }

  // The queues that the refresh request in front keeps closed.
  ghost predicate ClosedFor(cfg: Config, cq: CmdQueue, ch: Channel, cq': CmdQueue) {
    && cq' == cq.(inRef := cq'.inRef, refIndices := cq'.refIndices)
    && cq'.inRef == (ch.refreshQ != [])
    && (forall q :: 0 <= q < cfg.NumQueues() && cq'.inRef ==>
          (q in cq'.refIndices <==>
             exists b: BankId :: cfg.InRange(b) && Covers(ch.refreshQ[0], b) && QueueIndex(cfg, b) == q))
  }

  lemma ClosedAfter(cfg: Config, s: State)
    requires MidInv(cfg, s) && s.clk == s.cq.clk && s.ch.refreshQ != [] && FinishRefresh(cfg, s.cq, s.ch).1.NotReady?
    ensures ClosedFor(cfg, s.cq, s.ch, FinishRefresh(cfg, s.cq, s.ch).0)
  {
    var ref := s.ch.refreshQ[0];
    var cq' := FinishRefresh(cfg, s.cq, s.ch).0;
    assert cq'.refIndices == RefQIndices(cfg, ref);
    forall q | 0 <= q < cfg.NumQueues()
      ensures q in cq'.refIndices <==>
              exists b: BankId :: cfg.InRange(b) && Covers(ref, b) && QueueIndex(cfg, b) == q
    {
      ClosedQueues(cfg, ref, q);
    }
  }

  // A refresh that can take its next step takes it. Otherwise the queues it leaves open
  // are searched, and the tick issues what the search selects.
  ghost predicate Decides(cfg: Config, s: State, ch: Channel, cq: CmdQueue, c: Option<Command>, after: CmdQueue) {
    || (c.Some? && RefreshAnswer(cfg, ch, s.clk, Issue(c.value)))
    || (&& (ch.refreshQ != [] ==> RefreshAnswer(cfg, ch, s.clk, NotReady))
        && ClosedFor(cfg, s.cq, ch, cq) && cq.clk == s.clk
        && Selected(cfg, cq, ch, (after, if c.Some? then Issue(c.value) else NotReady)))
  }

  lemma TickDecides(cfg: Config, s: State) returns (c: Option<Command>, s': State, cq: CmdQueue, after: CmdQueue)
    requires StateInv(cfg, s)
    ensures ClockTick(cfg, s) == Some((s', c)) && Decides(cfg, s, AfterRefresh(cfg, s).ch, cq, c, after)
  {
    var s1 := AfterRefresh(cfg, s);
    RefreshTickOk(cfg, s);
    c, s' := TickKeepsState(cfg, s);
    SelectedInTick(cfg, s, s1);
    cq, after := SelectDecides(cfg, s1, c);
  }

  // What Select answers in the state after the refresh counter has moved on.
  lemma SelectDecides(cfg: Config, s: State, c: Option<Command>) returns (cq: CmdQueue, after: CmdQueue)
    requires WellFormed(cfg, s) && MidInv(cfg, s) && s.clk == s.cq.clk
    requires Select(cfg, s.cq, s.ch).1 == if c.Some? then Issue(c.value) else NotReady
    ensures Decides(cfg, s, s.ch, cq, c, after)
  {
    cq, after := s.cq, s.cq;
    if s.ch.refreshQ != [] {
      RefreshStepTaken(cfg, s.cq, s.ch);
      RefreshStep(cfg, s);
      var f := FinishRefresh(cfg, s.cq, s.ch);
      if f.1.NotReady? {
        ClosedAfter(cfg, s);
        cq := f.0;
      } else {
        return;
      }
    }
    var n, i := CommandSelected(cfg, cq, s.ch);
    after := GetCommandToIssue(cfg, cq, s.ch, cfg.NumQueues()).0;
  }

  // What a tick issues is what it selected.
  lemma SelectedInTick(cfg: Config, s: State, s1: State)
    requires cfg.Valid() && s1 == AfterRefresh(cfg, s) && WellFormed(cfg, s1) && ClockTick(cfg, s).Some?
    ensures Select(cfg, s1.cq, s1.ch).1 ==
            match ClockTick(cfg, s).value.1 case Some(c) => Issue(c) case None => NotReady
  {
  }
}
