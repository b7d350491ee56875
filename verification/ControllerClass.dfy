// controller.cc in place: the queues of one channel controller and its clock. Each method
// is proved against its function in ControllerModel, whose runs ControllerRun studies.
module ControllerClass {
  import opened Options
  import opened DramTypes
  import opened ChannelModel
  import opened QueueModel
  import opened Sequences
  import opened ControllerModel
  import opened ControllerTick
  import ControllerRun
  import opened ChannelStateClass
  import opened CommandQueueClass
  import opened RefreshClass

  // Taking the first transaction of an address out of a queue.
  lemma {:induction false} EraseFirstMatch(q: seq<Transaction>, a: nat, k: nat)
    requires k < |q| && q[k].addr == a && forall p :: 0 <= p < k ==> q[p].addr != a
    ensures Matching(q, a) == [q[k]] + Matching(RemoveAt(q, k), a)
    ensures Others(q, a) == Others(RemoveAt(q, k), a)
  {
    var last := |q| - 1;
    if k == last {
      assert RemoveAt(q, k) == q[..last];
      NoMatch(q[..last], a);
    } else {
      EraseFirstMatch(q[..last], a, k);
      assert RemoveAt(q, k)[..last - 1] == RemoveAt(q[..last], k);
    }
  }

  lemma {:induction false} NoMatch(q: seq<Transaction>, a: nat)
    requires forall p :: 0 <= p < |q| ==> q[p].addr != a
    ensures Matching(q, a) == [] && Others(q, a) == q
  {
    if q != [] {
      NoMatch(q[..|q| - 1], a);
    }
  }

  // A queue has a match exactly when the address is pending.
  lemma {:induction false} MatchingPending(q: seq<Transaction>, a: nat)
    ensures Pending(q, a) <==> Matching(q, a) != []
    ensures Pending(q, a) <==> FindPending(q, a, 0) < |q|
  {
    var k := FindPending(q, a, 0);
    if k < |q| {
      assert q[k] in q;
      EraseFirstMatch(q, a, k);
    } else {
      NoMatch(q, a);
    }
  }

  // What ScheduleTransaction does with entry k of the chosen buffer.
  function Scheduled(cfg: Config, s: State, from: Source, k: nat): State
    requires QueueShape(cfg, s.cq) && k < |Chosen(s, from)| && cfg.InRange(cfg.BankOf(Chosen(s, from)[k].addr))
  {
    var t := Chosen(s, from)[k];
    if !cfg.unifiedQueue && t.isWrite && Pending(s.pendingRd, t.addr) then s.(writeDraining := 0)
    else
      WithChosen(s, from, RemoveAt(Chosen(s, from), k)).(
        writeDraining := if !cfg.unifiedQueue && t.isWrite then s.writeDraining - 1 else s.writeDraining,
        cq := QueueModel.AddCommand(cfg, s.cq, ToCommand(cfg, t)))
  }

  lemma ScheduleSteps(cfg: Config, s: State, from: Source, k: nat)
    requires cfg.Valid() && QueueShape(cfg, s.cq) && from == ScheduleFrom(cfg, Draining(cfg, s))
    requires k == FirstAcceptable(cfg, s.cq, Chosen(s, from), 0)
    ensures ControllerModel.ScheduleTransaction(cfg, s) ==
            var s1 := s.(writeDraining := Draining(cfg, s));
            if k < |Chosen(s, from)| then Scheduled(cfg, s1, from, k) else s1
  {
  }

  // Selecting and issuing a command neither exits nor leaves the vectors.
  ghost predicate CanIssue(cfg: Config, s: State) {
    && WellFormed(cfg, s) && (s.ch.refreshQ != [] ==> s.ch.refreshQ[0].IsRefresh())
    && var (cq, l) := Select(cfg, s.cq, s.ch);
       && l != Exit
       && (l.Issue? ==> && Addressed(cfg, l.cmd) && IssueCommand(cfg, s.(cq := cq), l.cmd).Some?
                        && QueueShape(cfg, IssueCommand(cfg, s.(cq := cq), l.cmd).value.cq))
  }

  ghost function AfterIssue(cfg: Config, s: State): (State, Option<Command>)
    requires CanIssue(cfg, s)
  {
    var (cq, l) := Select(cfg, s.cq, s.ch);
    if l.Issue? then (IssueCommand(cfg, s.(cq := cq), l.cmd).value, Some(l.cmd)) else (s.(cq := cq), None)
  }

  // The stages of a tick that does not exit.
  lemma TickParts(cfg: Config, s: State)
    requires cfg.Valid() && ClockTick(cfg, s).Some?
    requires var s1 := AfterRefresh(cfg, s);
             WellFormed(cfg, s1) && (s1.ch.refreshQ != [] ==> s1.ch.refreshQ[0].IsRefresh())
    ensures var s1 := AfterRefresh(cfg, s);
            && CanIssue(cfg, s1) && QueueShape(cfg, AfterIssue(cfg, s1).0.cq)
            && var (s2, c) := AfterIssue(cfg, s1);
               ClockTick(cfg, s) == Some((Advance(ScheduleTransaction(cfg, s2)), c))
  {
  }

  // From a state of a run no stage exits.
  lemma TickNeverExits(cfg: Config, s: State)
    requires StateInv(cfg, s)
    ensures ClockTick(cfg, s).Some? && StateInv(cfg, ClockTick(cfg, s).value.0)
    ensures var s1 := AfterRefresh(cfg, s);
            WellFormed(cfg, s1) && (s1.ch.refreshQ != [] ==> s1.ch.refreshQ[0].IsRefresh())
  {
    var c, s' := TickKeepsState(cfg, s);
    RefreshTickOk(cfg, s);
  }

  // One turn of answering reads: the first match moves over, completed.
  lemma AnswerFirst(q: seq<Transaction>, a: nat, k: nat, answered: seq<Transaction>, cycle: nat)
    requires Matching(q, a) != [] && k == FindPending(q, a, 0)
    ensures k < |q| && |Matching(RemoveAt(q, k), a)| == |Matching(q, a)| - 1
    ensures Others(RemoveAt(q, k), a) == Others(q, a)
    ensures answered + [q[k].(completeCycle := cycle)] + Completed(Matching(RemoveAt(q, k), a), cycle) ==
            answered + Completed(Matching(q, a), cycle)
  {
    MatchingPending(q, a);
    EraseFirstMatch(q, a, k);
    assert Completed(Matching(q, a), cycle) == [q[k].(completeCycle := cycle)] + Completed(Matching(RemoveAt(q, k), a), cycle);
  }

  lemma AllAnswered(q: seq<Transaction>, a: nat, answered: seq<Transaction>, cycle: nat)
    requires Matching(q, a) == []
    ensures Others(q, a) == q && answered + Completed(Matching(q, a), cycle) == answered
  {
    MatchingPending(q, a);
    NoMatch(q, a);
  }

  class Controller {
    const cfg: Config
    const channelState: ChannelState
    const cmdQueue: CommandQueue
    const refresh: Refresh
    var clk: nat
    var readQueue: seq<Transaction>
    var writeBuffer: seq<Transaction>
    var unifiedQueue: seq<Transaction>
    var pendingRd: seq<Transaction>
    var pendingWr: seq<Transaction>
    var returnQueue: seq<Transaction>
    var writeDraining: int

    constructor (c: Config)
      requires c.Valid()
      ensures Valid() && cfg == c && View() == Initial(c)
      ensures fresh(channelState) && fresh(channelState.bankStates.Values) && fresh(cmdQueue) && fresh(refresh)
    {
      var cs := new ChannelState(c);
      cfg, channelState := c, cs;
      cmdQueue := new CommandQueue(c, cs);
      refresh := new Refresh(c, cs);
      clk, writeDraining := 0, 0;
      readQueue, writeBuffer, unifiedQueue, pendingRd, pendingWr, returnQueue := [], [], [], [], [], [];
      new;
      c.QueuesExist();
      ControllerRun.InitialState(c);
      Established(Initial(c));
    }

    ghost predicate Wired()
      reads this, channelState, cmdQueue, channelState.bankStates.Values
    {
      && cfg.Valid() && channelState.Valid() && channelState.cfg == cfg
      && cmdQueue.cfg == cfg && cmdQueue.channelState == channelState
      && refresh.cfg == cfg && refresh.channelState == channelState
      && QueueShape(cfg, cmdQueue.View())
    }

    ghost function View(): State
      requires channelState.Valid()
      reads this, channelState, cmdQueue, refresh, channelState.bankStates.Values
    {
      State(clk, readQueue, writeBuffer, unifiedQueue, pendingRd, pendingWr, returnQueue, writeDraining,
            cmdQueue.View(), channelState.View(), refresh.View())
    }

    // s with this object's own fields.
    ghost function Over(s: State): State
      reads this
    {
      State(clk, readQueue, writeBuffer, unifiedQueue, pendingRd, pendingWr, returnQueue, writeDraining, s.cq, s.ch, s.rf)
    }

    // Every state of a run: the sub-objects fit together and the run's invariant holds.
    ghost predicate Valid()
      reads this, channelState, cmdQueue, refresh, channelState.bankStates.Values
    {
      Wired() && StateInv(cfg, View())
    }

    lemma Established(s: State)
      requires Wired() && View() == s && StateInv(cfg, s)
      ensures Valid()
    {
    }

    // ---- Transactions in and out ----

    method CountPending(q: seq<Transaction>, a: nat) returns (n: nat)
      ensures n == |Matching(q, a)|
    {
      n := 0;
      var i := 0;
      while i < |q|
        invariant 0 <= i <= |q| && n == |Matching(q[..i], a)|
      {
        assert q[..i + 1][..i] == q[..i];
        if q[i].addr == a {
          n := n + 1;
        }
        i := i + 1;
      }
      assert q[..i] == q;
    }

    method WillAcceptTransaction(isWrite: bool) returns (ok: bool)
      requires Wired()
      ensures ok <==> WillAccept(cfg, View(), isWrite)
    {
      if cfg.unifiedQueue {
        ok := |unifiedQueue| < cfg.transQueueSize;
      } else if !isWrite {
        ok := |readQueue| < cfg.transQueueSize;
      } else {
        ok := |writeBuffer| < cfg.transQueueSize;
      }
    }

    method Enqueue(t: Transaction, ghost s: State)
      modifies this`unifiedQueue, this`writeBuffer, this`readQueue
      ensures Over(s) == ControllerModel.Enqueue(cfg, old(Over(s)), t)
    {
      if cfg.unifiedQueue {
        unifiedQueue := unifiedQueue + [t];
      } else if t.isWrite {
        writeBuffer := writeBuffer + [t];
      } else {
        readQueue := readQueue + [t];
      }
    }

    // A write merges with a pending one of its address, and is acknowledged next cycle.
    method AddWrite(t: Transaction, ghost s: State)
      requires t.isWrite && t.addedCycle == clk
      modifies this
      ensures Over(s) == ControllerModel.AddTransaction(cfg, old(Over(s)), t)
    {
      var writes := CountPending(pendingWr, t.addr);
      MatchingPending(pendingWr, t.addr);
      if writes == 0 {
        pendingWr := pendingWr + [t];
        Enqueue(t, s);
      }
      returnQueue := returnQueue + [t.(completeCycle := clk + 1)];
    }

    // A read is answered from a pending write, or joins the pending reads of its address.
    method AddRead(t: Transaction, ghost s: State)
      requires !t.isWrite && t.addedCycle == clk
      modifies this
      ensures Over(s) == ControllerModel.AddTransaction(cfg, old(Over(s)), t)
    {
      var writes := CountPending(pendingWr, t.addr);
      MatchingPending(pendingWr, t.addr);
      if writes > 0 {
        returnQueue := returnQueue + [t.(completeCycle := clk + 1)];
        return;
      }
      MatchingPending(pendingRd, t.addr);
      assert (pendingRd + [t])[..|pendingRd|] == pendingRd;
      pendingRd := pendingRd + [t];
      var count := CountPending(pendingRd, t.addr);
      if count == 1 {
        Enqueue(t, s);
      }
    }

    method Add(t0: Transaction, ghost s: State)
      modifies this
      ensures Over(s) == ControllerModel.AddTransaction(cfg, old(Over(s)), t0)
    {
      var t := t0.(addedCycle := clk);
      if t.isWrite {
        AddWrite(t, s);
      } else {
        AddRead(t, s);
      }
    }

    method AddToQueues(t0: Transaction)
      requires Wired()
      modifies this
      ensures Wired() && View() == ControllerModel.AddTransaction(cfg, old(View()), t0)
    {
      Add(t0, View());
    }

    method AddTransaction(t0: Transaction)
      requires Valid() && WillAccept(cfg, View(), t0.isWrite)
      modifies this
      ensures Valid() && View() == ControllerModel.AddTransaction(cfg, old(View()), t0)
    {
      ghost var s := ControllerModel.AddTransaction(cfg, View(), t0);
      ControllerRun.AcceptKeepsState(cfg, View(), t0);
      AddToQueues(t0);
      Established(s);
    }

    // The oldest entry of the return queue that has completed, if any, leaves it.
    method TakeDone(now: nat, ghost s: State) returns (r: Option<Transaction>)
      modifies this`returnQueue
      ensures (Over(s), r) == ReturnDone(old(Over(s)), now)
    {
      var i := 0;
      while i < |returnQueue|
        invariant 0 <= i <= |returnQueue| && returnQueue == old(returnQueue)
        invariant FirstDone(returnQueue, now, 0) == FirstDone(returnQueue, now, i)
      {
        if now >= returnQueue[i].completeCycle {
          r := Some(returnQueue[i]);
          returnQueue := returnQueue[..i] + returnQueue[i + 1..];
          return;
        }
        i := i + 1;
      }
      r := None;
    }

    method TakeFromQueue(now: nat) returns (r: Option<Transaction>)
      requires Wired()
      modifies this`returnQueue
      ensures Wired() && (View(), r) == ReturnDone(old(View()), now)
    {
      r := TakeDone(now, View());
    }

    method ReturnDoneTrans(now: nat) returns (r: Option<Transaction>)
      requires Valid()
      modifies this`returnQueue
      ensures Valid() && (View(), r) == ReturnDone(old(View()), now)
    {
      ghost var s := ReturnDone(View(), now).0;
      ControllerRun.ReturnKeepsState(cfg, View(), now);
      r := TakeFromQueue(now);
      Established(s);
    }

    // ---- Scheduling ----

    method SetDraining()
      requires Wired()
      modifies this`writeDraining
      ensures writeDraining == Draining(cfg, old(View()))
    {
      if writeDraining == 0 && !cfg.unifiedQueue {
        var empty := cmdQueue.QueueEmpty();
        if |writeBuffer| >= cfg.transQueueSize || (|writeBuffer| > 8 && empty) {
          writeDraining := |writeBuffer|;
        }
      }
    }

    method Erase(from: Source, i: nat, ghost s: State)
      requires i < |Chosen(Over(s), from)|
      modifies this`unifiedQueue, this`writeBuffer, this`readQueue
      ensures Over(s) == WithChosen(old(Over(s)), from, RemoveAt(Chosen(old(Over(s)), from), i))
    {
      match from
      case Unified => unifiedQueue := unifiedQueue[..i] + unifiedQueue[i + 1..];
      case Writes => writeBuffer := writeBuffer[..i] + writeBuffer[i + 1..];
      case Reads => readQueue := readQueue[..i] + readQueue[i + 1..];
    }

    // The first transaction whose command queue has room.
    method FindAcceptable(queue: seq<Transaction>) returns (k: nat)
      requires cfg.Valid() && cmdQueue.cfg == cfg && QueueShape(cfg, cmdQueue.View())
      ensures k == FirstAcceptable(cfg, cmdQueue.View(), queue, 0)
    {
      k := 0;
      while k < |queue|
        invariant 0 <= k <= |queue|
        invariant FirstAcceptable(cfg, cmdQueue.View(), queue, 0) == FirstAcceptable(cfg, cmdQueue.View(), queue, k)
      {
        var ok := cmdQueue.WillAcceptCommand(ToCommand(cfg, queue[k]).Id());
        if ok {
          return;
        }
        k := k + 1;
      }
    }

    // The entry goes to the command queue of its bank, unless it is a write that must wait
    // for the pending reads of its address.
    method ScheduleEntry(from: Source, t: Transaction, k: nat, ghost s: State)
      requires k < |Chosen(Over(s), from)| && t == Chosen(Over(s), from)[k]
      requires cfg.Valid() && cmdQueue.cfg == cfg && QueueShape(cfg, cmdQueue.View())
      requires QueueModel.WillAcceptCommand(cfg, cmdQueue.View(), cfg.BankOf(t.addr))
      modifies this`writeDraining, this`unifiedQueue, this`writeBuffer, this`readQueue, cmdQueue`queues
      ensures QueueShape(cfg, cmdQueue.View())
      ensures Over(s).(cq := cmdQueue.View()) ==
              Scheduled(cfg, old(Over(s).(cq := cmdQueue.View())), from, k)
    {
      if !cfg.unifiedQueue && t.isWrite {
        var count := CountPending(pendingRd, t.addr);
        MatchingPending(pendingRd, t.addr);
        if count > 0 {
          writeDraining := 0;
          return;
        }
        writeDraining := writeDraining - 1;
      }
      var added := cmdQueue.AddCommand(ToCommand(cfg, t));
      Erase(from, k, s);
    }

    method ScheduleChosen(ghost s: State)
      requires cfg.Valid() && cmdQueue.cfg == cfg && QueueShape(cfg, cmdQueue.View())
      requires s == Over(s).(writeDraining := s.writeDraining) && s.cq == cmdQueue.View() && writeDraining == Draining(cfg, s)
      modifies this`writeDraining, this`unifiedQueue, this`writeBuffer, this`readQueue, cmdQueue`queues
      ensures QueueShape(cfg, cmdQueue.View())
      ensures Over(s).(cq := cmdQueue.View()) == ControllerModel.ScheduleTransaction(cfg, s)
    {
      var from := if cfg.unifiedQueue then Unified else if writeDraining > 0 then Writes else Reads;
      var queue := match from case Unified => unifiedQueue case Writes => writeBuffer case Reads => readQueue;
      var k := FindAcceptable(queue);
      ScheduleSteps(cfg, s, from, k);
      if k < |queue| {
        ScheduleEntry(from, queue[k], k, s);
      }
    }

    method ScheduleTransaction()
      requires Wired()
      modifies this`writeDraining, this`unifiedQueue, this`writeBuffer, this`readQueue, cmdQueue`queues
      ensures Wired() && View() == ControllerModel.ScheduleTransaction(cfg, old(View()))
    {
      ghost var s := View();
      SetDraining();
      ScheduleChosen(s);
    }

    // ---- Issue ----

    // All reads of one address are answered by the same command.
    method AnswerReads(a: nat)
      modifies this`pendingRd, this`returnQueue
      ensures pendingRd == Others(old(pendingRd), a)
      ensures returnQueue == old(returnQueue) + Completed(Matching(old(pendingRd), a), clk + cfg.readDelay)
    {
      ghost var rd, answered := pendingRd, returnQueue;
      var cycle := clk + cfg.readDelay;
      var numReads := CountPending(pendingRd, a);
      while numReads > 0
        invariant numReads == |Matching(pendingRd, a)| && Others(pendingRd, a) == Others(rd, a)
        invariant returnQueue + Completed(Matching(pendingRd, a), cycle) == answered + Completed(Matching(rd, a), cycle)
      {
        var k := FindPending(pendingRd, a, 0);
        AnswerFirst(pendingRd, a, k, returnQueue, cycle);
        returnQueue := returnQueue + [pendingRd[k].(completeCycle := cycle)];
        pendingRd := RemoveAt(pendingRd, k);
        numReads := numReads - 1;
      }
      AllAnswered(pendingRd, a, returnQueue, cycle);
    }

    // The pending transactions that a read or write command concerns.
    method RetireCommand(cmd: Command, ghost s: State) returns (ok: bool)
      modifies this`pendingRd, this`pendingWr, this`returnQueue
      ensures ok == Retire(cfg, old(Over(s)), cmd).Some?
      ensures ok ==> Over(s) == Retire(cfg, old(Over(s)), cmd).value
    {
      ok := true;
      if cmd.IsRead() {
        var numReads := CountPending(pendingRd, cmd.hexAddr);
        MatchingPending(pendingRd, cmd.hexAddr);
        if numReads == 0 {
          return false;
        }
        AnswerReads(cmd.hexAddr);
      } else if cmd.IsWrite() {
        var k := FindPending(pendingWr, cmd.hexAddr, 0);
        MatchingPending(pendingWr, cmd.hexAddr);
        if k == |pendingWr| {
          return false;
        }
        pendingWr := RemoveAt(pendingWr, k);
      }
    }

    method IssueCommand(cmd: Command) returns (ok: bool)
      requires Wired() && Addressed(cfg, cmd)
      modifies this`pendingRd, this`pendingWr, this`returnQueue
      modifies channelState`refreshQ, channelState`fourAw, channelState`thirtyTwoAw, channelState.bankStates.Values
      ensures ok <==> ControllerModel.IssueCommand(cfg, old(View()), cmd).Some?
      ensures ok ==> Wired() && View() == ControllerModel.IssueCommand(cfg, old(View()), cmd).value
    {
      ok := RetireCommand(cmd, View());
      if ok {
        ok := channelState.UpdateTimingAndStates(cmd, clk);
      }
    }

    // ---- Clock ----

    method TickRefresh()
      requires Wired()
      modifies refresh, channelState`refreshQ
      ensures Wired() && View() == AfterRefresh(cfg, old(View()))
    {
      refresh.ClockTick();
    }

    // The command of this tick: a waiting refresh first, then the queues.
    method SelectCommand() returns (r: Lookup)
      requires Wired() && WellFormed(cfg, View())
      requires channelState.refreshQ != [] ==> channelState.refreshQ[0].IsRefresh()
      modifies cmdQueue
      ensures Wired() && (cmdQueue.View(), r) == Select(cfg, old(cmdQueue.View()), old(channelState.View()))
    {
      r := NotReady;
      if channelState.refreshQ != [] {
        r := cmdQueue.FinishRefresh();
      }
      if r.NotReady? {
        r := cmdQueue.GetCommandToIssue();
      }
    }

    method EndTick()
      requires Wired()
      modifies this, cmdQueue
      ensures Wired() && View() == Advance(ControllerModel.ScheduleTransaction(cfg, old(View())))
    {
      ScheduleTransaction();
      AdvanceClocks();
    }

    method AdvanceClocks()
      requires Wired()
      modifies this`clk, cmdQueue`clk
      ensures Wired() && View() == Advance(old(View()))
    {
      clk := clk + 1;
      cmdQueue.ClockTick();
    }

    method SelectAndIssue() returns (issued: Option<Command>)
      requires Wired() && CanIssue(cfg, View())
      modifies this`pendingRd, this`pendingWr, this`returnQueue
      modifies cmdQueue, channelState, channelState.bankStates.Values
      ensures Wired() && (View(), issued) == AfterIssue(cfg, old(View()))
    {
      ghost var s := View();
      issued := None;
      var r := SelectCommand();
      assert View() == s.(cq := cmdQueue.View());
      if r.Issue? {
        var ok := IssueCommand(r.cmd);
        issued := Some(r.cmd);
      }
    }

    // One cycle of the channel: at most one command is issued, and the invariant of the run
    // is kept, so that no lookup fails and nothing exits.
    method ClockTick() returns (issued: Option<Command>)
      requires Valid()
      modifies this, cmdQueue, refresh, channelState, channelState.bankStates.Values
      ensures Valid() && ControllerModel.ClockTick(cfg, old(View())) == Some((View(), issued))
    {
      TickNeverExits(cfg, View());
      TickParts(cfg, View());
      TickRefresh();
      issued := SelectAndIssue();
      EndTick();
    }
  }
}
