// command_queue.cc as functions on values: which command goes next, and what leaves
// the queues with it.
module QueueModel {
  import opened Options
  import opened Sequences
  import opened DramTypes
  import opened ChannelModel

  datatype CmdQueue = CmdQueue(
    queues: seq<seq<Command>>, refIndices: set<int>, inRef: bool, queueIdx: nat, clk: nat)

  function QueueIndex(cfg: Config, b: BankId): int {
    if cfg.perBankQueues then b.rank * cfg.Banks() + b.group * cfg.banksPerGroup + b.bank else b.rank
  }

  // Row-major numbering of the cells of an R by n grid.
  lemma Flatten(r: int, rest: int, R: int, n: int)
    requires 0 <= r < R && 0 <= rest < n
    ensures 0 <= r * n + rest < R * n
    ensures (r * n + rest) / n == r
  {
    assert (r + 1) * n <= R * n by { MulMono(r + 1, R, n); }
    assert 0 <= r * n by { MulMono(0, r, n); }
    DivUnique(r * n + rest, n, r, rest);
  }

  lemma MulMono(a: int, b: int, n: int)
    requires a <= b && 0 <= n
    ensures a * n <= b * n
  {
  }

  lemma DivUnique(x: int, n: int, q: int, r: int)
    requires 0 <= r < n && x == q * n + r
    ensures x / n == q
  {
    var d := x / n - q;
    assert x == (x / n) * n + x % n;
    assert d * n == r - x % n;
    if d > 0 { MulMono(1, d, n); }
    if d < 0 { MulMono(d, -1, n); }
  }

  // The queue of a bank belongs to the bank's rank.
  lemma QueueOfRank(cfg: Config, b: BankId)
    requires cfg.InRange(b)
    ensures 0 <= QueueIndex(cfg, b) < cfg.NumQueues()
    ensures cfg.perBankQueues ==> QueueIndex(cfg, b) / cfg.Banks() == b.rank
  {
    if cfg.perBankQueues {
      Flatten(b.group, b.bank, cfg.bankgroups, cfg.banksPerGroup);
      Flatten(b.rank, b.group * cfg.banksPerGroup + b.bank, cfg.ranks, cfg.Banks());
    }
  }

  ghost predicate QueueShape(cfg: Config, cq: CmdQueue) {
    |cq.queues| == cfg.NumQueues() && cq.queueIdx < cfg.NumQueues()
  }

  // Every command is a read or write of an existing bank, sits in that bank's queue,
  // and is addressed as the mapping says.
  ghost predicate Placed(cfg: Config, qs: seq<seq<Command>>) {
    && |qs| == cfg.NumQueues()
    && (forall q, i :: 0 <= q < |qs| && 0 <= i < |qs[q]| ==> WellPlaced(cfg, qs[q][i], q))
  }

  ghost predicate WellPlaced(cfg: Config, c: Command, q: int) {
    c.IsReadWrite() && cfg.InRange(c.Id()) && QueueIndex(cfg, c.Id()) == q && c.addr == cfg.mapping(c.hexAddr)
  }

  // Selection inside one queue.

  predicate ArbitratePrecharge(ch: Channel, queue: seq<Command>, i: nat)
    requires i < |queue| && queue[i].Id() in ch.banks
  {
    var b := ch.banks[queue[i].Id()];
    && (forall p :: 0 <= p < i ==> queue[p].Id() != queue[i].Id())
    && ((forall p :: i <= p < |queue| ==> !(queue[p].addr.row == b.openRow && queue[p].Id() == queue[i].Id()))
        || b.rowHitCount >= 4)
  }

  predicate SamePlace(a: Command, b: Command) {
    && a.addr.row == b.addr.row && a.addr.column == b.addr.column
    && a.addr.bank == b.addr.bank && a.addr.bankgroup == b.addr.bankgroup
  }

  predicate HasRWDependency(queue: seq<Command>, i: nat)
    requires i < |queue|
  {
    exists p :: 0 <= p < i && queue[p].IsRead() && SamePlace(queue[p], queue[i])
  }

  // The command that queue entry i lets through now.
  function Candidate(cfg: Config, ch: Channel, queue: seq<Command>, clk: nat, i: nat): Lookup
    requires ChannelShape(cfg, ch) && i < |queue| && cfg.InRange(queue[i].Id()) && !queue[i].IsRankCommand()
  {
    var r := ReadyCommand(cfg, ch, queue[i], clk);
    if r.Issue? && r.cmd.cmdType == Precharge && !ArbitratePrecharge(ch, queue, i) then NotReady
    else if r.Issue? && r.cmd.IsWrite() && HasRWDependency(queue, i) then NotReady
    else r
  }

  ghost predicate Searchable(cfg: Config, queue: seq<Command>) {
    forall i :: 0 <= i < |queue| ==> cfg.InRange(queue[i].Id()) && !queue[i].IsRankCommand()
  }

  function FirstReadyInQueue(cfg: Config, ch: Channel, queue: seq<Command>, clk: nat, i: nat): Lookup
    requires ChannelShape(cfg, ch) && i <= |queue| && Searchable(cfg, queue)
    decreases |queue| - i
  {
    if i == |queue| then NotReady
    else match Candidate(cfg, ch, queue, clk, i)
      case NotReady => FirstReadyInQueue(cfg, ch, queue, clk, i + 1)
      case r => r
  }

  // Position of the entry that EraseRWCommand removes, or |queue|.
  function FindCommand(queue: seq<Command>, cmd: Command, i: nat): (k: nat)
    requires i <= |queue|
    ensures i <= k <= |queue|
    ensures k < |queue| ==> queue[k].hexAddr == cmd.hexAddr && queue[k].cmdType == cmd.cmdType
    ensures forall p :: i <= p < k ==> !(queue[p].hexAddr == cmd.hexAddr && queue[p].cmdType == cmd.cmdType)
    decreases |queue| - i
  {
    if i == |queue| || (queue[i].hexAddr == cmd.hexAddr && queue[i].cmdType == cmd.cmdType) then i
    else FindCommand(queue, cmd, i + 1)
  }

  // EraseRWCommand; None where the source exits.
  function EraseRWCommand(cfg: Config, cq: CmdQueue, cmd: Command): (r: Option<CmdQueue>)
    requires QueueShape(cfg, cq) && cfg.InRange(cmd.Id())
    ensures r.Some? ==> QueueShape(cfg, r.value)
  {
    QueueOfRank(cfg, cmd.Id());
    var q := QueueIndex(cfg, cmd.Id());
    var k := FindCommand(cq.queues[q], cmd, 0);
    if k == |cq.queues[q]| then None
    else Some(cq.(queues := cq.queues[q := RemoveAt(cq.queues[q], k)]))
  }

  function NextIndex(cfg: Config, idx: nat): nat {
    if idx + 1 == cfg.NumQueues() then 0 else idx + 1
  }

  // What the current queue yields: nothing when a refresh keeps it closed; a read or
  // write leaves its queue.
  function TryQueue(cfg: Config, cq: CmdQueue, ch: Channel): (t: (CmdQueue, Lookup))
    requires Placed(cfg, cq.queues) && cq.queueIdx < cfg.NumQueues() && ChannelShape(cfg, ch)
    ensures QueueShape(cfg, t.0)
  {
    if cq.inRef && cq.queueIdx in cq.refIndices then (cq, NotReady)
    else
      var r := FirstReadyInQueue(cfg, ch, cq.queues[cq.queueIdx], cq.clk, 0);
      if !r.Issue? || !r.cmd.IsReadWrite() then (cq, r)
      else if !cfg.InRange(r.cmd.Id()) then (cq, Exit)
      else match EraseRWCommand(cfg, cq, r.cmd)
        case None => (cq, Exit)
        case Some(erased) => (erased, r)
  }

  // GetCommandToIssue, with `left` queues still to look at.
  function GetCommandToIssue(cfg: Config, cq: CmdQueue, ch: Channel, left: nat): (t: (CmdQueue, Lookup))
    requires Placed(cfg, cq.queues) && cq.queueIdx < cfg.NumQueues() && ChannelShape(cfg, ch)
    ensures QueueShape(cfg, t.0)
    decreases left
  {
    if left == 0 then (cq, NotReady)
    else
      var next := cq.(queueIdx := NextIndex(cfg, cq.queueIdx));
      var t := TryQueue(cfg, next, ch);
      if t.1.NotReady? then GetCommandToIssue(cfg, next, ch, left - 1) else t
  }

  // The queues that a refresh request keeps closed.
  function RefQIndices(cfg: Config, ref: Command): set<int> {
    if ref.cmdType == Refresh then
      if cfg.perBankQueues then set i | 0 <= i < cfg.NumQueues() && cfg.Banks() > 0 && i / cfg.Banks() == ref.addr.rank
      else {ref.addr.rank}
    else {QueueIndex(cfg, ref.Id())}
  }

  // What the search in a queue returns, and why.
  lemma {:induction false} FirstReadySpec(cfg: Config, ch: Channel, queue: seq<Command>, clk: nat, i: nat) returns (k: nat)
    requires ChannelShape(cfg, ch) && BanksOk(ch) && i <= |queue| && Searchable(cfg, queue)
    requires forall p :: 0 <= p < |queue| ==> queue[p].IsReadWrite()
    ensures var r := FirstReadyInQueue(cfg, ch, queue, clk, i);
            r != Exit && (r.Issue? ==> i <= k < |queue| && Candidate(cfg, ch, queue, clk, k) == r
                                       && Legal(cfg, ch, r.cmd, clk) && r.cmd.addr == queue[k].addr
                                       && r.cmd.hexAddr == queue[k].hexAddr
                                       && !r.cmd.IsRefresh() && !r.cmd.IsRankCommand()
                                       && (r.cmd.IsReadWrite() ==> r.cmd == queue[k]))
    decreases |queue| - i
  {
    k := i;
    if i < |queue| {
      ReadyIsLegalCommand(cfg, ch, queue[i], clk);
      if Candidate(cfg, ch, queue, clk, i).NotReady? {
        k := FirstReadySpec(cfg, ch, queue, clk, i + 1);
      }
    }
  }

  // FinishRefresh: the next step of the oldest refresh request.
  function FinishRefresh(cfg: Config, cq: CmdQueue, ch: Channel): (CmdQueue, Lookup)
    requires ChannelShape(cfg, ch) && ch.refreshQ != [] && Addressed(cfg, ch.refreshQ[0])
  {
    var ref := ch.refreshQ[0];
    var started := if cq.inRef then cq else cq.(inRef := true, refIndices := cq.refIndices + RefQIndices(cfg, ref));
    var r := ReadyCommand(cfg, ch, ref, cq.clk);
    if r.Issue? && r.cmd.IsRefresh() then (started.(inRef := false, refIndices := {}), r) else (started, r)
  }

  // The queues after entry k of queue q has left with a read or write, or unchanged.
  function Departed(cq: CmdQueue, q: nat, k: nat, c: Command): seq<seq<Command>>
    requires q < |cq.queues| && k < |cq.queues[q]|
  {
    if c.IsReadWrite() then cq.queues[q := RemoveAt(cq.queues[q], k)] else cq.queues
  }

  // What GetCommandToIssue picks: the candidate of entry i in an open queue q; a read or
  // write leaves its queue (from position k, an equal command) and nothing else moves.
  ghost predicate Picked(cfg: Config, cq: CmdQueue, ch: Channel, r: (CmdQueue, Lookup), i: nat, k: nat) {
    var q := r.0.queueIdx;
    && r.1.Issue? && Placed(cfg, cq.queues) && cq.queueIdx < cfg.NumQueues() && ChannelShape(cfg, ch) && q < |cq.queues|
    && !(cq.inRef && q in cq.refIndices)
    && i < |cq.queues[q]| && k < |cq.queues[q]|
    && Legal(cfg, ch, r.1.cmd, cq.clk) && !r.1.cmd.IsRefresh() && !r.1.cmd.IsRankCommand()
    && (r.1.cmd.IsWrite() ==> !HasRWDependency(cq.queues[q], i))
    && r.1.cmd.addr == cq.queues[q][i].addr && r.1.cmd.hexAddr == cq.queues[q][i].hexAddr
    && (r.1.cmd.IsReadWrite() ==> cq.queues[q][i] == r.1.cmd && cq.queues[q][k] == r.1.cmd)
    && r.0 == cq.(queueIdx := q, queues := Departed(cq, q, k, r.1.cmd))
  }

  lemma PickedFromNext(cfg: Config, cq: CmdQueue, ch: Channel, idx: nat, r: (CmdQueue, Lookup), i: nat, k: nat)
    requires idx < cfg.NumQueues() && cq.queueIdx < cfg.NumQueues()
    requires Picked(cfg, cq.(queueIdx := idx), ch, r, i, k)
    ensures Picked(cfg, cq, ch, r, i, k)
  {
  }

  lemma {:induction false} GetCommandSpec(cfg: Config, cq: CmdQueue, ch: Channel, left: nat) returns (i: nat, k: nat)
    requires Placed(cfg, cq.queues) && cq.queueIdx < cfg.NumQueues() && ChannelShape(cfg, ch) && BanksOk(ch)
    ensures var r := GetCommandToIssue(cfg, cq, ch, left);
            && r.1 != Exit
            && (r.1.NotReady? ==> r.0 == cq.(queueIdx := r.0.queueIdx) && r.0.queueIdx < |cq.queues|)
            && (r.1.Issue? ==> Picked(cfg, cq, ch, r, i, k))
    decreases left
  {
    i, k := 0, 0;
    if left > 0 {
      var idx := NextIndex(cfg, cq.queueIdx);
      var next := cq.(queueIdx := idx);
      i, k := TryQueueSpec(cfg, next, ch);
      if TryQueue(cfg, next, ch).1.NotReady? {
        i, k := GetCommandSpec(cfg, next, ch, left - 1);
      }
      if GetCommandToIssue(cfg, cq, ch, left).1.Issue? {
        PickedFromNext(cfg, cq, ch, idx, GetCommandToIssue(cfg, cq, ch, left), i, k);
      }
    }
  }

  // One queue yields a command.
  lemma TryQueueSpec(cfg: Config, cq: CmdQueue, ch: Channel) returns (i: nat, k: nat)
    requires Placed(cfg, cq.queues) && cq.queueIdx < cfg.NumQueues() && ChannelShape(cfg, ch) && BanksOk(ch)
    ensures var r := TryQueue(cfg, cq, ch); r.1 != Exit && (r.1.Issue? ==> Picked(cfg, cq, ch, r, i, k))
  {
    i, k := 0, 0;
    if !(cq.inRef && cq.queueIdx in cq.refIndices) {
      var idx := cq.queueIdx;
      var queue := cq.queues[idx];
      forall p | 0 <= p < |queue|
        ensures WellPlaced(cfg, queue[p], idx)
      {
        assert WellPlaced(cfg, cq.queues[idx][p], idx);
      }
      i := FirstReadySpec(cfg, ch, queue, cq.clk, 0);
      k := i;
      var f := FirstReadyInQueue(cfg, ch, queue, cq.clk, 0);
      if f.Issue? && f.cmd.IsReadWrite() {
        k := FindCommand(queue, f.cmd, 0);
        assert WellPlaced(cfg, queue[i], idx) && WellPlaced(cfg, queue[k], idx);
      }
    }
  }

  lemma FinishRefreshSpec(cfg: Config, cq: CmdQueue, ch: Channel)
    requires ChannelShape(cfg, ch) && BanksOk(ch)
    requires ch.refreshQ != [] && Addressed(cfg, ch.refreshQ[0]) && ch.refreshQ[0].IsRefresh()
    ensures var r := FinishRefresh(cfg, cq, ch);
            && r.1 != Exit
            && r.0.queues == cq.queues && r.0.queueIdx == cq.queueIdx && r.0.clk == cq.clk
            && (r.1.Issue? ==> Legal(cfg, ch, r.1.cmd, cq.clk))
            && (r.1.Issue? && r.1.cmd != ch.refreshQ[0] ==>
                  r.1.cmd.cmdType == Precharge && Covers(ch.refreshQ[0], r.1.cmd.Id()))
            && (r.0.inRef <==> !(r.1.Issue? && r.1.cmd.IsRefresh()))
  {
    ReadyIsLegalCommand(cfg, ch, ch.refreshQ[0], cq.clk);
  }

  // ---- Queueing ----

  predicate WillAcceptCommand(cfg: Config, cq: CmdQueue, b: BankId)
    requires QueueShape(cfg, cq) && cfg.InRange(b)
  {
    QueueOfRank(cfg, b);
    |cq.queues[QueueIndex(cfg, b)]| < cfg.cmdQueueSize
  }

  function AddCommand(cfg: Config, cq: CmdQueue, c: Command): (r: CmdQueue)
    requires QueueShape(cfg, cq) && cfg.InRange(c.Id())
    ensures QueueShape(cfg, r)
  {
    QueueOfRank(cfg, c.Id());
    var q := QueueIndex(cfg, c.Id());
    cq.(queues := cq.queues[q := cq.queues[q] + [c]])
  }

  predicate QueuesEmpty(cq: CmdQueue) {
    forall q :: 0 <= q < |cq.queues| ==> cq.queues[q] == []
  }
}
