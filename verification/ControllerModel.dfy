// controller.cc and refresh.cc as functions on values: accepting a transaction, one
// clock tick, returning a finished transaction.
module ControllerModel {
  import opened Options
  import opened DramTypes
  import opened BankModel
  import opened ChannelModel
  import opened QueueModel
  import opened Sequences

  datatype Refresher = Refresher(clk: nat, nextRank: nat, nextGroup: nat, nextBank: nat)

  // The multimaps of pending transactions are sequences: find returns the first entry.
  datatype State = State(
    clk: nat,
    readQueue: seq<Transaction>, writeBuffer: seq<Transaction>, unifiedQueue: seq<Transaction>,
    pendingRd: seq<Transaction>, pendingWr: seq<Transaction>, returnQueue: seq<Transaction>,
    writeDraining: int,
    cq: CmdQueue, ch: Channel, rf: Refresher)

  // ---- Refresh ----

  function RankRequest(rank: nat): Command {
    Command(Refresh, Address(-1, rank, -1, -1, -1, -1), NO_HEX)
  }

  function BankRequest(b: BankId): Command {
    Command(RefreshBank, BankAddress(b), NO_HEX)
  }

  function InsertRefresh(cfg: Config, rf: Refresher, ch: Channel): Channel {
    match cfg.refreshPolicy
    case RankStaggered => ch.(refreshQ := ch.refreshQ + [RankRequest(rf.nextRank)])
    case BankStaggered => ch.(refreshQ := ch.refreshQ + [BankRequest(BankId(rf.nextRank, rf.nextGroup, rf.nextBank))])
  }

  function IterateNext(cfg: Config, rf: Refresher): Refresher
    requires cfg.ranks > 0 && cfg.bankgroups > 0 && cfg.banksPerGroup > 0
  {
    match cfg.refreshPolicy
    case RankStaggered => rf.(nextRank := (rf.nextRank + 1) % cfg.ranks)
    case BankStaggered =>
      var g := (rf.nextGroup + 1) % cfg.bankgroups;
      var k := if g == 0 then (rf.nextBank + 1) % cfg.banksPerGroup else rf.nextBank;
      var r := if g == 0 && k == 0 then (rf.nextRank + 1) % cfg.ranks else rf.nextRank;
      rf.(nextGroup := g, nextBank := k, nextRank := r)
  }

  function RefreshTick(cfg: Config, rf: Refresher, ch: Channel): (Refresher, Channel)
    requires cfg.ranks > 0 && cfg.bankgroups > 0 && cfg.banksPerGroup > 0 && cfg.refreshInterval > 0
  {
    if rf.clk % cfg.refreshInterval == 0 && rf.clk > 0 then
      (IterateNext(cfg, rf).(clk := rf.clk + 1), InsertRefresh(cfg, rf, ch))
    else (rf.(clk := rf.clk + 1), ch)
  }

  // ---- Transactions ----

  predicate Pending(q: seq<Transaction>, a: nat) {
    exists t :: t in q && t.addr == a
  }

  function FindPending(q: seq<Transaction>, a: nat, i: nat): (k: nat)
    requires i <= |q|
    ensures i <= k <= |q|
    ensures k < |q| ==> q[k].addr == a
    ensures forall p :: i <= p < k ==> q[p].addr != a
    decreases |q| - i
  {
    if i == |q| || q[i].addr == a then i else FindPending(q, a, i + 1)
  }

  predicate WillAccept(cfg: Config, s: State, isWrite: bool) {
    if cfg.unifiedQueue then |s.unifiedQueue| < cfg.transQueueSize
    else if !isWrite then |s.readQueue| < cfg.transQueueSize
    else |s.writeBuffer| < cfg.transQueueSize
  }

  function Enqueue(cfg: Config, s: State, t: Transaction): State {
    if cfg.unifiedQueue then s.(unifiedQueue := s.unifiedQueue + [t])
    else if t.isWrite then s.(writeBuffer := s.writeBuffer + [t])
    else s.(readQueue := s.readQueue + [t])
  }

  // AddTransaction: writes to a pending address merge, reads of one are answered from
  // it, and several reads of one address share one queue entry.
  function AddTransaction(cfg: Config, s: State, t0: Transaction): State {
    var t := t0.(addedCycle := s.clk);
    var done := t.(completeCycle := s.clk + 1);
    if t.isWrite then
      var s1 := if Pending(s.pendingWr, t.addr) then s
                else Enqueue(cfg, s.(pendingWr := s.pendingWr + [t]), t);
      s1.(returnQueue := s1.returnQueue + [done])
    else if Pending(s.pendingWr, t.addr) then s.(returnQueue := s.returnQueue + [done])
    else
      var s1 := s.(pendingRd := s.pendingRd + [t]);
      if Pending(s.pendingRd, t.addr) then s1 else Enqueue(cfg, s1, t)
  }

  function FirstDone(q: seq<Transaction>, clk: nat, i: nat): (k: nat)
    requires i <= |q|
    ensures i <= k <= |q|
    ensures k < |q| ==> clk >= q[k].completeCycle
    ensures forall p :: i <= p < k ==> clk < q[p].completeCycle
    decreases |q| - i
  {
    if i == |q| || clk >= q[i].completeCycle then i else FirstDone(q, clk, i + 1)
  }

  // ReturnDoneTrans: the oldest finished entry, if any, leaves the return queue.
  function ReturnDone(s: State, clk: nat): (State, Option<Transaction>) {
    var k := FirstDone(s.returnQueue, clk, 0);
    if k == |s.returnQueue| then (s, None)
    else (s.(returnQueue := RemoveAt(s.returnQueue, k)), Some(s.returnQueue[k]))
  }

  // ---- Scheduling ----

  function ToCommand(cfg: Config, t: Transaction): Command {
    var ty := if cfg.closePage then (if t.isWrite then WritePrecharge else ReadPrecharge)
              else (if t.isWrite then Write else Read);
    Command(ty, cfg.mapping(t.addr), t.addr)
  }

  ghost function FirstAcceptable(cfg: Config, cq: CmdQueue, queue: seq<Transaction>, i: nat): (k: nat)
    requires QueueShape(cfg, cq) && cfg.Valid() && i <= |queue|
    ensures i <= k <= |queue|
    ensures k < |queue| ==> WillAcceptCommand(cfg, cq, cfg.BankOf(queue[k].addr))
    ensures forall p :: i <= p < k ==> !WillAcceptCommand(cfg, cq, cfg.BankOf(queue[p].addr))
    decreases |queue| - i
  {
    if i == |queue| || WillAcceptCommand(cfg, cq, cfg.BankOf(queue[i].addr)) then i
    else FirstAcceptable(cfg, cq, queue, i + 1)
  }

  function Draining(cfg: Config, s: State): int {
    if s.writeDraining == 0 && !cfg.unifiedQueue &&
       (|s.writeBuffer| >= cfg.transQueueSize || (|s.writeBuffer| > 8 && QueuesEmpty(s.cq)))
    then |s.writeBuffer| else s.writeDraining
  }

  datatype Source = Unified | Writes | Reads

  function ScheduleFrom(cfg: Config, draining: int): Source {
    if cfg.unifiedQueue then Unified else if draining > 0 then Writes else Reads
  }

  function Chosen(s: State, from: Source): seq<Transaction> {
    match from
    case Unified => s.unifiedQueue
    case Writes => s.writeBuffer
    case Reads => s.readQueue
  }

  function WithChosen(s: State, from: Source, q: seq<Transaction>): State {
    match from
    case Unified => s.(unifiedQueue := q)
    case Writes => s.(writeBuffer := q)
    case Reads => s.(readQueue := q)
  }

  // ScheduleTransaction: the first transaction whose command queue has room moves there;
  // outside unified mode a write waits for the pending reads of its address.
  ghost function ScheduleTransaction(cfg: Config, s: State): State
    requires cfg.Valid() && QueueShape(cfg, s.cq)
  {
    var draining := Draining(cfg, s);
    var from := ScheduleFrom(cfg, draining);
    var queue := Chosen(s, from);
    var k := FirstAcceptable(cfg, s.cq, queue, 0);
    if k == |queue| then s.(writeDraining := draining)
    else if !cfg.unifiedQueue && queue[k].isWrite && Pending(s.pendingRd, queue[k].addr) then s.(writeDraining := 0)
    else
      WithChosen(s, from, RemoveAt(queue, k)).(
        writeDraining := if !cfg.unifiedQueue && queue[k].isWrite then draining - 1 else draining,
        cq := AddCommand(cfg, s.cq, ToCommand(cfg, queue[k])))
  }

  // ---- Issue ----

  function Matching(q: seq<Transaction>, a: nat): seq<Transaction> {
    if q == [] then []
    else
      var rest := Matching(q[..|q| - 1], a);
      if q[|q| - 1].addr == a then rest + [q[|q| - 1]] else rest
  }

  function Others(q: seq<Transaction>, a: nat): seq<Transaction> {
    if q == [] then []
    else
      var rest := Others(q[..|q| - 1], a);
      if q[|q| - 1].addr == a then rest else rest + [q[|q| - 1]]
  }

  function Completed(q: seq<Transaction>, cycle: nat): (r: seq<Transaction>)
    ensures |r| == |q| && forall i :: 0 <= i < |q| ==> r[i] == q[i].(completeCycle := cycle)
  {
    seq(|q|, i requires 0 <= i < |q| => q[i].(completeCycle := cycle))
  }

  // The transactions a command answers or retires; None where the source exits.
  function Retire(cfg: Config, s: State, c: Command): Option<State> {
    if c.IsRead() then
      if !Pending(s.pendingRd, c.hexAddr) then None
      else Some(s.(returnQueue := s.returnQueue + Completed(Matching(s.pendingRd, c.hexAddr), s.clk + cfg.readDelay),
                   pendingRd := Others(s.pendingRd, c.hexAddr)))
    else if c.IsWrite() then
      if !Pending(s.pendingWr, c.hexAddr) then None
      else Some(s.(pendingWr := RemoveAt(s.pendingWr, FindPending(s.pendingWr, c.hexAddr, 0))))
    else Some(s)
  }

  // IssueCommand; None where the source exits.
  ghost function IssueCommand(cfg: Config, s: State, c: Command): Option<State> {
    if !(ChannelShape(cfg, s.ch) && Addressed(cfg, c)) then None
    else match (Retire(cfg, s, c), UpdateTimingAndStates(cfg, s.ch, c, s.clk))
      case (Some(s1), Some(ch1)) => Some(s1.(ch := ch1))
      case _ => None
  }

  // ---- Clock ----

  // The command to issue: refresh first, then the queues.
  ghost function Select(cfg: Config, cq: CmdQueue, ch: Channel): (CmdQueue, Lookup)
    requires Placed(cfg, cq.queues) && cq.queueIdx < cfg.NumQueues() && ChannelShape(cfg, ch)
    requires ch.refreshQ != [] ==> Addressed(cfg, ch.refreshQ[0])
  {
    if ch.refreshQ == [] then GetCommandToIssue(cfg, cq, ch, cfg.NumQueues())
    else
      var f := FinishRefresh(cfg, cq, ch);
      if f.1.NotReady? && Placed(cfg, f.0.queues) && f.0.queueIdx < cfg.NumQueues() then GetCommandToIssue(cfg, f.0, ch, cfg.NumQueues()) else f
  }

  // Nothing is indexed outside its vector.
  ghost predicate WellFormed(cfg: Config, s: State) {
    && Placed(cfg, s.cq.queues) && s.cq.queueIdx < cfg.NumQueues() && ChannelShape(cfg, s.ch)
    && (s.ch.refreshQ != [] ==> Addressed(cfg, s.ch.refreshQ[0]))
  }

  function AfterRefresh(cfg: Config, s: State): State
    requires cfg.ranks > 0 && cfg.bankgroups > 0 && cfg.banksPerGroup > 0 && cfg.refreshInterval > 0
  {
    var (rf, ch) := RefreshTick(cfg, s.rf, s.ch);
    s.(rf := rf, ch := ch)
  }

  function Advance(s: State): State {
    s.(clk := s.clk + 1, cq := s.cq.(clk := s.cq.clk + 1))
  }

  // Controller::ClockTick: the next state and the command issued; None where the source
  // exits or indexes outside a vector.
  ghost function ClockTick(cfg: Config, s: State): Option<(State, Option<Command>)>
    requires cfg.Valid()
  {
    var s1 := AfterRefresh(cfg, s);
    if !WellFormed(cfg, s1) then None
    else
      var (cq, l) := Select(cfg, s1.cq, s1.ch);
      var s2 := s1.(cq := cq);
      match l
      case Exit => None
      case NotReady =>
        if !QueueShape(cfg, s2.cq) then None else Some((Advance(ScheduleTransaction(cfg, s2)), None))
      case Issue(c) =>
        match IssueCommand(cfg, s2, c)
        case None => None
        case Some(s3) =>
          if !QueueShape(cfg, s3.cq) then None else Some((Advance(ScheduleTransaction(cfg, s3)), Some(c)))
  }

  function Initial(cfg: Config): State {
    State(0, [], [], [], [], [], [], 0,
          CmdQueue(seq(cfg.NumQueues(), i => []), {}, false, 0, 0),
          Channel(map b | b in cfg.AllBanks() :: IDLE_BANK, [], seq(cfg.ranks, i => []), seq(cfg.ranks, i => [])),
          Refresher(0, 0, 0, 0))
  }
}
