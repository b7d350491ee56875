// command_queue.cc in place: loops with early exits over the queues of one channel.
// Each method is proved against its function in QueueModel.
module CommandQueueClass {
  import opened DramTypes
  import opened ChannelModel
  import opened QueueModel
  import opened ChannelStateClass

  lemma CandidateAddress(cfg: Config, ch: Channel, queue: seq<Command>, clk: nat, i: nat)
    requires ChannelShape(cfg, ch) && i < |queue| && cfg.InRange(queue[i].Id()) && !queue[i].IsRankCommand()
    ensures Candidate(cfg, ch, queue, clk, i).Issue? ==> Candidate(cfg, ch, queue, clk, i).cmd.addr == queue[i].addr
  {
  }

  // One round of GetCommandToIssue.
  lemma NextRound(cfg: Config, cq: CmdQueue, ch: Channel, left: nat)
    requires Placed(cfg, cq.queues) && cq.queueIdx < cfg.NumQueues() && ChannelShape(cfg, ch) && left > 0
    ensures Placed(cfg, QueueModel.TryQueue(cfg, cq.(queueIdx := NextIndex(cfg, cq.queueIdx)), ch).0.queues)
    ensures var next := cq.(queueIdx := NextIndex(cfg, cq.queueIdx));
            var (after, r) := QueueModel.TryQueue(cfg, next, ch);
            && (r.NotReady? ==> after == next)
            && GetCommandToIssue(cfg, cq, ch, left) ==
               if r.NotReady? then GetCommandToIssue(cfg, next, ch, left - 1) else (after, r)
  {
  }

  // The two halves of FinishRefresh.
  lemma FinishParts(cfg: Config, cq: CmdQueue, ch: Channel)
    requires ChannelShape(cfg, ch) && ch.refreshQ != [] && Addressed(cfg, ch.refreshQ[0])
    ensures var ref := ch.refreshQ[0];
            QueueModel.FinishRefresh(cfg, cq, ch) == Finished(Started(cfg, cq, ref), ReadyCommand(cfg, ch, ref, cq.clk))
  {
  }

  function Started(cfg: Config, cq: CmdQueue, ref: Command): CmdQueue {
    if cq.inRef then cq else cq.(inRef := true, refIndices := cq.refIndices + RefQIndices(cfg, ref))
  }

  function Finished(cq: CmdQueue, r: Lookup): (CmdQueue, Lookup) {
    (if r.Issue? && r.cmd.IsRefresh() then cq.(inRef := false, refIndices := {}) else cq, r)
  }

  class CommandQueue {
    const cfg: Config
    const channelState: ChannelState
    var queues: seq<seq<Command>>
    var refQIndices: set<int>
    var isInRef: bool
    var queueIdx: nat
    var clk: nat

    constructor (c: Config, cs: ChannelState)
      requires c.Valid()
      ensures cfg == c && channelState == cs
      ensures View() == CmdQueue(seq(c.NumQueues(), i => []), {}, false, 0, 0)
    {
      cfg, channelState := c, cs;
      queues := seq(c.NumQueues(), i => []);
      refQIndices, isInRef, queueIdx, clk := {}, false, 0, 0;
    }

    ghost function View(): CmdQueue
      reads this
    {
      CmdQueue(queues, refQIndices, isInRef, queueIdx, clk)
    }

    // The channel state is intact and every queued command addresses one of its banks.
    ghost predicate Valid()
      reads this, channelState, channelState.bankStates.Values
    {
      && channelState.cfg == cfg && channelState.Valid()
      && Placed(cfg, queues) && queueIdx < cfg.NumQueues()
    }

    // ---- Scans of one queue ----

    method ArbitratePrecharge(i: nat, queue: seq<Command>) returns (b: bool)
      requires channelState.Valid() && channelState.cfg == cfg && i < |queue| && cfg.InRange(queue[i].Id())
      ensures queue[i].Id() in channelState.View().banks
      ensures b == QueueModel.ArbitratePrecharge(channelState.View(), queue, i)
    {
      var cmd := queue[i];
      assert cmd.Id() in cfg.AllBanks();
      var bank := channelState.bankStates[cmd.Id()];
      var p := 0;
      while p < i
        invariant 0 <= p <= i
        invariant forall k :: 0 <= k < p ==> queue[k].Id() != cmd.Id()
      {
        if queue[p].Id() == cmd.Id() {
          return false;
        }
        p := p + 1;
      }
      var pendingRowHitsExist := false;
      var k := i;
      while k < |queue|
        invariant i <= k <= |queue|
        invariant !pendingRowHitsExist
        invariant forall m :: i <= m < k ==> !(queue[m].addr.row == bank.openRow && queue[m].Id() == cmd.Id())
      {
        if queue[k].addr.row == bank.openRow && queue[k].Id() == cmd.Id() {
          pendingRowHitsExist := true;
          break;
        }
        k := k + 1;
      }
      var rowhitLimitReached := bank.rowHitCount >= 4;
      b := !pendingRowHitsExist || rowhitLimitReached;
    }

    method HasRWDependency(i: nat, queue: seq<Command>) returns (b: bool)
      requires i < |queue|
      ensures b == QueueModel.HasRWDependency(queue, i)
    {
      var p := 0;
      while p < i
        invariant 0 <= p <= i
        invariant forall k :: 0 <= k < p ==> !(queue[k].IsRead() && SamePlace(queue[k], queue[i]))
      {
        if queue[p].IsRead() && queue[p].addr.row == queue[i].addr.row && queue[p].addr.column == queue[i].addr.column &&
           queue[p].addr.bank == queue[i].addr.bank && queue[p].addr.bankgroup == queue[i].addr.bankgroup {
          return true;
        }
        p := p + 1;
      }
      b := false;
    }

    // The loop body of the scan: what entry i lets through.
    method CandidateAt(queue: seq<Command>, i: nat) returns (r: Lookup)
      requires channelState.Valid() && channelState.cfg == cfg
      requires i < |queue| && cfg.InRange(queue[i].Id()) && !queue[i].IsRankCommand()
      ensures r == Candidate(cfg, channelState.View(), queue, clk, i)
    {
      r := channelState.GetReadyCommand(queue[i], clk);
      if r.Issue? {
        if r.cmd.cmdType == Precharge {
          var ok := ArbitratePrecharge(i, queue);
          if !ok {
            r := NotReady;
          }
        } else if r.cmd.IsWrite() {
          var dependent := HasRWDependency(i, queue);
          if dependent {
            r := NotReady;
          }
        }
      }
    }

    method GetFirstReadyInQueue(queue: seq<Command>) returns (r: Lookup)
      requires channelState.Valid() && channelState.cfg == cfg && Searchable(cfg, queue)
      ensures r == FirstReadyInQueue(cfg, channelState.View(), queue, clk, 0)
      ensures r.Issue? ==> cfg.InRange(r.cmd.Id())
    {
      ghost var v := channelState.View();
      var i := 0;
      while i < |queue|
        invariant 0 <= i <= |queue| && channelState.Valid() && channelState.View() == v
        invariant FirstReadyInQueue(cfg, v, queue, clk, 0) == FirstReadyInQueue(cfg, v, queue, clk, i)
      {
        r := CandidateAt(queue, i);
        CandidateAddress(cfg, v, queue, clk, i);
        if !r.NotReady? {
          return;
        }
        i := i + 1;
      }
      r := NotReady;
    }

    // ---- Selection ----

    method EraseRWCommand(cmd: Command) returns (ok: bool)
      requires QueueShape(cfg, View()) && cfg.InRange(cmd.Id())
      modifies this`queues
      ensures ok <==> QueueModel.EraseRWCommand(cfg, old(View()), cmd).Some?
      ensures ok ==> View() == QueueModel.EraseRWCommand(cfg, old(View()), cmd).value
      ensures !ok ==> View() == old(View())
    {
      QueueOfRank(cfg, cmd.Id());
      var q := QueueIndex(cfg, cmd.Id());
      var queue := queues[q];
      var i := 0;
      while i < |queue|
        invariant 0 <= i <= |queue| && queues == old(queues)
        invariant FindCommand(queue, cmd, 0) == FindCommand(queue, cmd, i)
      {
        if cmd.hexAddr == queue[i].hexAddr && cmd.cmdType == queue[i].cmdType {
          queues := queues[q := queue[..i] + queue[i + 1..]];
          return true;
        }
        i := i + 1;
      }
      ok := false;
    }

    method GetNextQueue() returns (queue: seq<Command>)
      requires queueIdx < cfg.NumQueues() == |queues|
      modifies this`queueIdx
      ensures queueIdx == NextIndex(cfg, old(queueIdx)) && queueIdx < |queues| && queue == queues[queueIdx]
    {
      queueIdx := queueIdx + 1;
      if queueIdx == cfg.NumQueues() {
        queueIdx := 0;
      }
      queue := queues[queueIdx];
    }

    // The loop body of GetCommandToIssue for the current queue.
    method TryQueue() returns (r: Lookup)
      requires Valid()
      modifies this`queues
      ensures (View(), r) == QueueModel.TryQueue(cfg, old(View()), channelState.View())
    {
      r := NotReady;
      if isInRef && queueIdx in refQIndices {
        return;
      }
      assert forall k :: 0 <= k < |queues[queueIdx]| ==> WellPlaced(cfg, queues[queueIdx][k], queueIdx);
      r := GetFirstReadyInQueue(queues[queueIdx]);
      if r.Issue? && r.cmd.IsReadWrite() {
        r := Take(r);
      }
    }

    // The command found leaves its queue.
    method Take(found: Lookup) returns (r: Lookup)
      requires QueueShape(cfg, View()) && found.Issue? && cfg.InRange(found.cmd.Id())
      modifies this`queues
      ensures match QueueModel.EraseRWCommand(cfg, old(View()), found.cmd)
              case None => View() == old(View()) && r == Exit
              case Some(erased) => View() == erased && r == found
    {
      var ok := EraseRWCommand(found.cmd);
      r := if ok then found else Exit;
    }

    // One round of its loop.
    method TryNextQueue() returns (r: Lookup)
      requires Valid()
      modifies this`queues, this`queueIdx
      ensures (View(), r) == QueueModel.TryQueue(cfg, old(View()).(queueIdx := NextIndex(cfg, old(queueIdx))), channelState.View())
    {
      ghost var before := View();
      var queue := GetNextQueue();
      assert View() == before.(queueIdx := queueIdx);
      r := TryQueue();
    }

    method GetCommandToIssue() returns (r: Lookup)
      requires Valid()
      modifies this`queues, this`queueIdx
      ensures (View(), r) == QueueModel.GetCommandToIssue(cfg, old(View()), channelState.View(), cfg.NumQueues())
    {
      ghost var v := channelState.View();
      ghost var result := QueueModel.GetCommandToIssue(cfg, View(), v, cfg.NumQueues());
      var i := 0;
      while i < cfg.NumQueues()
        invariant 0 <= i <= cfg.NumQueues() && Valid() && channelState.View() == v
        invariant result == QueueModel.GetCommandToIssue(cfg, View(), v, cfg.NumQueues() - i)
      {
        NextRound(cfg, View(), v, cfg.NumQueues() - i);
        r := TryNextQueue();
        if !r.NotReady? {
          return;
        }
        i := i + 1;
      }
      r := NotReady;
    }

    // ---- Refresh ----

    method GetRefQIndices(ref: Command)
      requires ref.IsRefresh() && cfg.Valid()
      modifies this`refQIndices
      ensures refQIndices == old(refQIndices) + RefQIndices(cfg, ref)
    {
      if ref.cmdType == Refresh {
        if cfg.perBankQueues {
          cfg.QueuesExist();
          var i := 0;
          while i < cfg.NumQueues()
            invariant 0 <= i <= cfg.NumQueues()
            invariant refQIndices == old(refQIndices) + set k | 0 <= k < i && k / cfg.Banks() == ref.addr.rank
          {
            if i / cfg.Banks() == ref.addr.rank {
              refQIndices := refQIndices + {i};
            }
            i := i + 1;
          }
        } else {
          refQIndices := refQIndices + {ref.addr.rank};
        }
      } else {
        refQIndices := refQIndices + {QueueIndex(cfg, ref.Id())};
      }
    }

    // The queues that the request concerns close when its turn comes.
    method StartRefresh(ref: Command)
      requires ref.IsRefresh() && cfg.Valid()
      modifies this`refQIndices, this`isInRef
      ensures View() == Started(cfg, old(View()), ref)
    {
      if !isInRef {
        GetRefQIndices(ref);
        isInRef := true;
      }
    }

    method FinishRefresh() returns (r: Lookup)
      requires Valid() && cfg.Valid()
      requires channelState.refreshQ != [] && channelState.refreshQ[0].IsRefresh() && Addressed(cfg, channelState.refreshQ[0])
      modifies this`refQIndices, this`isInRef
      ensures (View(), r) == QueueModel.FinishRefresh(cfg, old(View()), channelState.View())
    {
      var ref := channelState.refreshQ[0];
      FinishParts(cfg, View(), channelState.View());
      StartRefresh(ref);
      r := channelState.GetReadyCommand(ref, clk);
      EndRefresh(r);
    }

    // They open again once the request itself goes out.
    method EndRefresh(r: Lookup)
      modifies this`refQIndices, this`isInRef
      ensures (View(), r) == Finished(old(View()), r)
    {
      if r.Issue? && r.cmd.IsRefresh() {
        refQIndices := {};
        isInRef := false;
      }
    }

    // ---- Queueing ----

    method WillAcceptCommand(b: BankId) returns (ok: bool)
      requires QueueShape(cfg, View()) && cfg.InRange(b)
      ensures ok <==> QueueModel.WillAcceptCommand(cfg, View(), b)
    {
      QueueOfRank(cfg, b);
      ok := |queues[QueueIndex(cfg, b)]| < cfg.cmdQueueSize;
    }

    method AddCommand(cmd: Command) returns (ok: bool)
      requires QueueShape(cfg, View()) && cfg.InRange(cmd.Id())
      modifies this`queues
      ensures ok <==> QueueModel.WillAcceptCommand(cfg, old(View()), cmd.Id())
      ensures View() == if ok then QueueModel.AddCommand(cfg, old(View()), cmd) else old(View())
    {
      QueueOfRank(cfg, cmd.Id());
      var q := QueueIndex(cfg, cmd.Id());
      ok := |queues[q]| < cfg.cmdQueueSize;
      if ok {
        queues := queues[q := queues[q] + [cmd]];
      }
    }

    method QueueEmpty() returns (b: bool)
      ensures b <==> QueuesEmpty(View())
    {
      var q := 0;
      while q < |queues|
        invariant 0 <= q <= |queues|
        invariant forall k :: 0 <= k < q ==> queues[k] == []
      {
        if queues[q] != [] {
          return false;
        }
        q := q + 1;
      }
      b := true;
    }

    method ClockTick()
      modifies this`clk
      ensures clk == old(clk) + 1
    {
      clk := clk + 1;
    }
  }
}
