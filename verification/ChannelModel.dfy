// channel_state.cc as functions on values: what is ready, and what a command changes.
module ChannelModel {
  import opened Options
  import opened DramTypes
  import opened BankModel

  datatype Channel = Channel(
    banks: map<BankId, Bank>, refreshQ: seq<Command>, fourAw: seq<seq<nat>>, thirtyTwoAw: seq<seq<nat>>)

  // The banks, the refresh requests and the activation windows fit the configuration.
  ghost predicate ChannelShape(cfg: Config, ch: Channel) {
    && ch.banks.Keys == cfg.AllBanks()
    && (forall b :: b in ch.banks ==> |ch.banks[b].timing| == NUM_TYPES)
    && |ch.fourAw| == cfg.ranks && |ch.thirtyTwoAw| == cfg.ranks
  }

  // The command names a rank or bank that exists.
  predicate Addressed(cfg: Config, cmd: Command) {
    if cmd.IsRankCommand() then 0 <= cmd.addr.rank < cfg.ranks else cfg.InRange(cmd.Id())
  }

  // A rank command acts on every bank of its rank, any other on one bank.
  predicate Covers(cmd: Command, b: BankId) {
    if cmd.IsRankCommand() then b.rank == cmd.addr.rank else b == cmd.Id()
  }

  // Activation windows.

  predicate WindowOk(window: seq<nat>, clk: nat, limit: nat) {
    !(window != [] && clk < window[0] && |window| >= limit)
  }

  function WindowPush(window: seq<nat>, clk: nat, length: nat): seq<nat> {
    (if window != [] && clk >= window[0] then window[1..] else window) + [clk + length]
  }

  predicate ActivationWindowOk(cfg: Config, ch: Channel, rank: nat, clk: nat)
    requires rank < |ch.fourAw| && rank < |ch.thirtyTwoAw|
  {
    WindowOk(ch.fourAw[rank], clk, 4) && (cfg.gddr ==> WindowOk(ch.thirtyTwoAw[rank], clk, 32))
  }

  // Readiness.

  predicate AllReady(cfg: Config, ch: Channel, cmd: Command, clk: nat)
    requires ChannelShape(cfg, ch)
  {
    forall b: BankId | b in ch.banks && b.rank == cmd.addr.rank :: GetReady(ch.banks[b], cmd, clk) == Issue(cmd)
  }

  function BankAddress(b: BankId): Address {
    Address(-1, b.rank, b.group, b.bank, -1, -1)
  }

  // A rank command needs every bank of the rank; the first bank, in order, that asks
  // for another command (a precharge) decides otherwise.
  function ScanRank(cfg: Config, ch: Channel, cmd: Command, clk: nat, j: nat, k: nat): Lookup
    requires ChannelShape(cfg, ch) && 0 <= cmd.addr.rank < cfg.ranks && j <= cfg.bankgroups && k <= cfg.banksPerGroup
    decreases cfg.bankgroups - j, cfg.banksPerGroup - k
  {
    if j == cfg.bankgroups then (if AllReady(cfg, ch, cmd, clk) then Issue(cmd) else NotReady)
    else if k == cfg.banksPerGroup then ScanRank(cfg, ch, cmd, clk, j + 1, 0)
    else
      var b := BankId(cmd.addr.rank, j, k);
      match GetReady(ch.banks[b], cmd, clk)
      case Exit => Exit
      case NotReady => ScanRank(cfg, ch, cmd, clk, j, k + 1)
      case Issue(c) =>
        if c.cmdType != cmd.cmdType then Issue(c.(addr := BankAddress(b)))
        else ScanRank(cfg, ch, cmd, clk, j, k + 1)
  }

  // ChannelState::GetReadyCommand.
  function ReadyCommand(cfg: Config, ch: Channel, cmd: Command, clk: nat): Lookup
    requires ChannelShape(cfg, ch) && Addressed(cfg, cmd)
  {
    if cmd.IsRankCommand() then ScanRank(cfg, ch, cmd, clk, 0, 0)
    else
      var r := GetReady(ch.banks[cmd.Id()], cmd, clk);
      if r.Issue? && r.cmd.cmdType == Activate && !ActivationWindowOk(cfg, ch, cmd.addr.rank, clk) then NotReady
      else r
  }

  // Updates.

  function RemoveFirst(q: seq<Command>, p: Command -> bool): seq<Command> {
    if q == [] then []
    else if p(q[0]) then q[1..]
    else [q[0]] + RemoveFirst(q[1..], p)
  }

  predicate CanUpdate(ch: Channel, cmd: Command) {
    forall b | b in ch.banks && Covers(cmd, b) :: Update(ch.banks[b], cmd).Some?
  }

  function UpdatedBanks(ch: Channel, cmd: Command): map<BankId, Bank>
    requires CanUpdate(ch, cmd)
  {
    map b | b in ch.banks :: if Covers(cmd, b) then Update(ch.banks[b], cmd).value else ch.banks[b]
  }

  // A refresh takes the first request of its rank or bank off the queue.
  function RequestsAfter(q: seq<Command>, cmd: Command): seq<Command> {
    if cmd.cmdType == Refresh then RemoveFirst(q, (c: Command) => c.addr.rank == cmd.addr.rank)
    else if cmd.cmdType == RefreshBank then RemoveFirst(q, (c: Command) => c.Id() == cmd.Id())
    else q
  }

  // ChannelState::UpdateState; None where the source exits.
  function UpdateState(ch: Channel, cmd: Command): Option<Channel> {
    if !CanUpdate(ch, cmd) then None
    else Some(ch.(banks := UpdatedBanks(ch, cmd), refreshQ := RequestsAfter(ch.refreshQ, cmd)))
  }

  // The table that cmd pushes onto bank b, by how b lies to the command's bank.
  function TableFor(timing: Timing, cmd: Command, b: BankId): Table {
    var t := cmd.cmdType;
    if cmd.IsRankCommand() then (if b.rank == cmd.addr.rank then timing.sameRank(t) else [])
    else if b.rank != cmd.addr.rank then timing.otherRanks(t)
    else if b.group != cmd.addr.bankgroup then timing.otherGroups(t)
    else if b.bank != cmd.addr.bank then timing.otherBanks(t)
    else timing.sameBank(t)
  }

  function UpdateBankTiming(cfg: Config, ch: Channel, cmd: Command, clk: nat): (r: map<BankId, Bank>)
    requires ChannelShape(cfg, ch)
    ensures r.Keys == ch.banks.Keys
    ensures forall b :: b in r ==> r[b] == PushAll(ch.banks[b], TableFor(cfg.timing, cmd, b), clk)
  {
    map b | b in ch.banks :: PushAll(ch.banks[b], TableFor(cfg.timing, cmd, b), clk)
  }

  // ChannelState::UpdateTiming.
  function UpdateTiming(cfg: Config, ch: Channel, cmd: Command, clk: nat): Channel
    requires ChannelShape(cfg, ch) && Addressed(cfg, cmd)
  {
    var banks := UpdateBankTiming(cfg, ch, cmd, clk);
    var r := cmd.addr.rank;
    if cmd.cmdType != Activate then ch.(banks := banks)
    else
      ch.(banks := banks,
          fourAw := ch.fourAw[r := WindowPush(ch.fourAw[r], clk, cfg.tFAW)],
          thirtyTwoAw := if cfg.gddr then ch.thirtyTwoAw[r := WindowPush(ch.thirtyTwoAw[r], clk, cfg.t32AW)]
                         else ch.thirtyTwoAw)
  }

  function UpdateTimingAndStates(cfg: Config, ch: Channel, cmd: Command, clk: nat): Option<Channel>
    requires ChannelShape(cfg, ch) && Addressed(cfg, cmd)
  {
    match UpdateState(ch, cmd)
    case None => None
    case Some(c) => UpdateStateShape(cfg, ch, cmd); Some(UpdateTiming(cfg, c, cmd, clk))
  }

  lemma UpdateStateShape(cfg: Config, ch: Channel, cmd: Command)
    requires ChannelShape(cfg, ch) && UpdateState(ch, cmd).Some?
    ensures ChannelShape(cfg, UpdateState(ch, cmd).value)
  {
  }

  // No bank is in self-refresh, and every bank's fields agree with its status.
  ghost predicate BanksOk(ch: Channel) {
    forall b :: b in ch.banks ==> ch.banks[b].Valid() && ch.banks[b].status != SelfRefresh
  }

  // What holds of a command that ReadyCommand lets through for the request `cmd`.
  ghost predicate Legal(cfg: Config, ch: Channel, cmd: Command, clk: nat) {
    && ChannelShape(cfg, ch) && Addressed(cfg, cmd)
    && (forall b :: b in ch.banks && Covers(cmd, b) ==>
          Update(ch.banks[b], cmd).Some? && clk >= ch.banks[b].Earliest(cmd.cmdType))
    && (cmd.cmdType == Activate ==> ActivationWindowOk(cfg, ch, cmd.addr.rank, clk))
    && (cmd.IsReadWrite() ==> ch.banks[cmd.Id()].openRow == cmd.addr.row)
    && cmd.cmdType != SrefEnter && cmd.cmdType != SrefExit
  }

  lemma ReadyIsLegalCommand(cfg: Config, ch: Channel, cmd: Command, clk: nat)
    requires ChannelShape(cfg, ch) && BanksOk(ch) && Addressed(cfg, cmd)
    requires cmd.IsReadWrite() || cmd.IsRefresh()
    ensures var r := ReadyCommand(cfg, ch, cmd, clk);
            && r != Exit
            && (r.Issue? ==> Legal(cfg, ch, r.cmd, clk) && r.cmd.hexAddr == cmd.hexAddr
                             && (r.cmd.IsReadWrite() || r.cmd.IsRefresh() ==> r.cmd == cmd))
            && (r.Issue? && cmd.IsRefresh() && r.cmd != cmd ==>
                  r.cmd.cmdType == Precharge && r.cmd.addr.rank == cmd.addr.rank && Covers(cmd, r.cmd.Id()))
            && (r.Issue? && !cmd.IsRefresh() ==> r.cmd.addr == cmd.addr)
  {
    if cmd.IsRankCommand() {
      ScanRankLegal(cfg, ch, cmd, clk, 0, 0);
    } else {
      var b := ch.banks[cmd.Id()];
      NoExit(b, cmd, clk);
      if GetReady(b, cmd, clk).Issue? {
        ReadyIsLegal(b, cmd, clk);
      }
    }
  }

  lemma {:induction false} ScanRankLegal(cfg: Config, ch: Channel, cmd: Command, clk: nat, j: nat, k: nat)
    requires ChannelShape(cfg, ch) && BanksOk(ch) && cmd.cmdType == Refresh && Addressed(cfg, cmd)
    requires j <= cfg.bankgroups && k <= cfg.banksPerGroup
    ensures var r := ScanRank(cfg, ch, cmd, clk, j, k);
            && r != Exit
            && (r.Issue? ==> Legal(cfg, ch, r.cmd, clk) && r.cmd.hexAddr == cmd.hexAddr
                             && (r.cmd == cmd || (r.cmd.cmdType == Precharge && r.cmd.addr.rank == cmd.addr.rank)))
    decreases cfg.bankgroups - j, cfg.banksPerGroup - k
  {
    if j == cfg.bankgroups {
      if AllReady(cfg, ch, cmd, clk) {
        forall b | b in ch.banks && Covers(cmd, b)
          ensures Update(ch.banks[b], cmd).Some? && clk >= ch.banks[b].Earliest(cmd.cmdType)
        {
          ReadyIsLegal(ch.banks[b], cmd, clk);
        }
      }
    } else if k == cfg.banksPerGroup {
      ScanRankLegal(cfg, ch, cmd, clk, j + 1, 0);
    } else {
      ScanRankLegal(cfg, ch, cmd, clk, j, k + 1);
      var b := ch.banks[BankId(cmd.addr.rank, j, k)];
      NoExit(b, cmd, clk);
      if GetReady(b, cmd, clk).Issue? {
        ReadyIsLegal(b, cmd, clk);
      }
    }
  }

  lemma UpdatedBanksOk(cfg: Config, ch: Channel, cmd: Command, clk: nat)
    requires Legal(cfg, ch, cmd, clk) && BanksOk(ch)
    ensures UpdateState(ch, cmd).Some? && BanksOk(UpdateState(ch, cmd).value)
  {
  }

  lemma TimedBanksOk(cfg: Config, ch: Channel, cmd: Command, clk: nat)
    requires ChannelShape(cfg, ch) && Addressed(cfg, cmd) && BanksOk(ch)
    ensures ChannelShape(cfg, UpdateTiming(cfg, ch, cmd, clk)) && BanksOk(UpdateTiming(cfg, ch, cmd, clk))
  {
  }

  // A legal command never makes the source exit, and keeps the invariants.
  lemma LegalUpdates(cfg: Config, ch: Channel, cmd: Command, clk: nat)
    requires Legal(cfg, ch, cmd, clk) && BanksOk(ch)
    ensures UpdateTimingAndStates(cfg, ch, cmd, clk).Some?
    ensures var c := UpdateTimingAndStates(cfg, ch, cmd, clk).value;
            ChannelShape(cfg, c) && BanksOk(c)
  {
    UpdatedBanksOk(cfg, ch, cmd, clk);
    UpdateStateShape(cfg, ch, cmd);
    TimedBanksOk(cfg, UpdateState(ch, cmd).value, cmd, clk);
  }
}
