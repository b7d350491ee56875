// channel_state.cc in place: the banks are objects, updated by loops over ranks, groups
// and banks. Each method is proved against its function in ChannelModel.
module ChannelStateClass {
  import opened Options
  import opened DramTypes
  import opened BankModel
  import opened ChannelModel

  // The banks of a rank that come before (j, k) in the nested loops.
  predicate Before(b: BankId, j: int, k: int) {
    b.group < j || (b.group == j && b.bank < k)
  }

  // Every bank visited before (j, k) answered with the command itself.
  ghost predicate ReadyBefore(v: Channel, cmd: Command, clk: nat, j: int, k: int)
    requires forall b :: b in v.banks ==> |v.banks[b].timing| == NUM_TYPES
  {
    forall b :: b in v.banks && b.rank == cmd.addr.rank && Before(b, j, k) ==> GetReady(v.banks[b], cmd, clk) == Issue(cmd)
  }

  // The scan at (j, k): its result is what the rest of it finds, and `numReady` has
  // counted the banks visited that answered with the command itself.
  ghost predicate InScan(
    cfg: Config, v: Channel, cmd: Command, clk: nat, j: nat, k: nat, result: Lookup, numReady: nat)
  {
    && ChannelShape(cfg, v) && 0 <= cmd.addr.rank < cfg.ranks && j <= cfg.bankgroups && k <= cfg.banksPerGroup
    && result == ScanRank(cfg, v, cmd, clk, j, k)
    && numReady <= j * cfg.banksPerGroup + k
    && (numReady == j * cfg.banksPerGroup + k <==> ReadyBefore(v, cmd, clk, j, k))
  }

  // One iteration of the inner loop, by the answer of the bank.
  lemma ScanStep(
    cfg: Config, v: Channel, cmd: Command, clk: nat, j: nat, k: nat, result: Lookup, numReady: nat, ready: Lookup)
    requires InScan(cfg, v, cmd, clk, j, k, result, numReady) && j < cfg.bankgroups && k < cfg.banksPerGroup
    requires var b := BankId(cmd.addr.rank, j, k); b in v.banks && ready == GetReady(v.banks[b], cmd, clk)
    ensures ready.Exit? ==> result == Exit
    ensures ready.Issue? && ready.cmd.cmdType != cmd.cmdType ==>
              result == Issue(ready.cmd.(addr := BankAddress(BankId(cmd.addr.rank, j, k))))
    ensures ready.NotReady? ==> InScan(cfg, v, cmd, clk, j, k + 1, result, numReady)
    ensures ready.Issue? && ready.cmd.cmdType == cmd.cmdType ==> InScan(cfg, v, cmd, clk, j, k + 1, result, numReady + 1)
  {
    var b := BankId(cmd.addr.rank, j, k);
    assert Before(b, j, k + 1) && !Before(b, j, k);
  }

  lemma GroupEnd(cfg: Config, v: Channel, cmd: Command, clk: nat, j: nat, result: Lookup, numReady: nat)
    requires InScan(cfg, v, cmd, clk, j, cfg.banksPerGroup, result, numReady) && j < cfg.bankgroups
    ensures InScan(cfg, v, cmd, clk, j + 1, 0, result, numReady)
  {
    assert (j + 1) * cfg.banksPerGroup == j * cfg.banksPerGroup + cfg.banksPerGroup;
    assert ReadyBefore(v, cmd, clk, j + 1, 0) <==> ReadyBefore(v, cmd, clk, j, cfg.banksPerGroup) by {
      assert forall b :: b in v.banks ==> b in cfg.AllBanks();
    }
  }

  lemma ScanEnd(cfg: Config, v: Channel, cmd: Command, clk: nat, result: Lookup, numReady: nat)
    requires InScan(cfg, v, cmd, clk, cfg.bankgroups, 0, result, numReady)
    ensures result == if numReady == cfg.Banks() then Issue(cmd) else NotReady
  {
    forall b | b in v.banks
      ensures Before(b, cfg.bankgroups, 0)
    {
      assert b in cfg.AllBanks();
    }
  }

  method IdleBanks(c: Config) returns (banks: map<BankId, BankState>)
    ensures banks.Keys == c.AllBanks() && fresh(banks.Values)
    ensures forall b :: b in banks ==> banks[b].View() == IDLE_BANK
    ensures forall b, d :: b in banks && d in banks && b != d ==> banks[b] != banks[d]
  {
    banks := map[];
    var todo := c.AllBanks();
    while todo != {}
      invariant todo <= c.AllBanks() && banks.Keys == c.AllBanks() - todo
      invariant forall b :: b in banks ==> fresh(banks[b]) && banks[b].View() == IDLE_BANK
      invariant forall b, d :: b in banks && d in banks && b != d ==> banks[b] != banks[d]
      decreases |todo|
    {
      var b :| b in todo;
      var bank := new BankState();
      assert forall d :: d in banks ==> banks[d] != bank;
      banks := banks[b := bank];
      todo := todo - {b};
    }
  }

  // What the search for the first command that satisfies p leaves, once it has come to i.
  lemma {:induction false} RemoveFirstAt(q: seq<Command>, p: Command -> bool, i: nat)
    requires i <= |q| && (forall j :: 0 <= j < i ==> !p(q[j])) && (i < |q| ==> p(q[i]))
    ensures RemoveFirst(q, p) == if i < |q| then q[..i] + q[i + 1..] else q
  {
    if i > 0 {
      RemoveFirstAt(q[1..], p, i - 1);
    }
  }

  class ChannelState {
    const cfg: Config
    const bankStates: map<BankId, BankState>
    var refreshQ: seq<Command>
    var fourAw: seq<seq<nat>>
    var thirtyTwoAw: seq<seq<nat>>

    // Fresh, idle banks for the whole configuration.
    constructor (c: Config)
      requires c.Valid()
      ensures Valid() && cfg == c && fresh(bankStates.Values)
      ensures forall b :: b in bankStates ==> bankStates[b].View() == IDLE_BANK
      ensures refreshQ == [] && fourAw == seq(c.ranks, i => []) && thirtyTwoAw == seq(c.ranks, i => [])
    {
      var banks := IdleBanks(c);
      cfg := c;
      bankStates := banks;
      refreshQ := [];
      fourAw := seq(c.ranks, i => []);
      thirtyTwoAw := seq(c.ranks, i => []);
    }

    // One object for every bank of the configuration, none of them shared.
    ghost predicate Valid()
      reads this, bankStates.Values
    {
      && bankStates.Keys == cfg.AllBanks()
      && (forall b, c :: b in bankStates && c in bankStates && b != c ==> bankStates[b] != bankStates[c])
      && (forall b :: b in bankStates ==> |bankStates[b].cmdTiming| == NUM_TYPES)
      && |fourAw| == cfg.ranks && |thirtyTwoAw| == cfg.ranks
    }

    ghost function View(): (v: Channel)
      requires Valid()
      reads this, bankStates.Values
      ensures ChannelShape(cfg, v)
    {
      Channel(map b | b in bankStates :: bankStates[b].View(), refreshQ, fourAw, thirtyTwoAw)
    }

    // ---- Readiness ----

    // v holds the values of the banks.
    ghost predicate Shows(v: Channel)
      reads this, bankStates.Values
    {
      forall b :: b in bankStates ==> b in v.banks && v.banks[b] == bankStates[b].View()
    }

    // The inner loop: the banks of group j. An answer decides the scan.
    method ScanGroup(cmd: Command, clk: nat, j: nat, counted: nat, ghost v: Channel, ghost result: Lookup)
      returns (answer: Option<Lookup>, numReady: nat)
      requires Valid() && Shows(v) && j < cfg.bankgroups && InScan(cfg, v, cmd, clk, j, 0, result, counted)
      ensures answer.Some? ==> answer.value == result
      ensures answer.None? ==> InScan(cfg, v, cmd, clk, j + 1, 0, result, numReady)
    {
      numReady := counted;
      var k := 0;
      while k < cfg.banksPerGroup
        invariant 0 <= k <= cfg.banksPerGroup && InScan(cfg, v, cmd, clk, j, k, result, numReady)
      {
        var b := BankId(cmd.addr.rank, j, k);
        assert b in cfg.AllBanks();
        var ready := bankStates[b].GetReadyCommand(cmd, clk);
        ScanStep(cfg, v, cmd, clk, j, k, result, numReady, ready);
        if ready.Exit? {
          return Some(Exit), numReady;
        }
        if ready.Issue? {
          if ready.cmd.cmdType != cmd.cmdType {
            return Some(Issue(ready.cmd.(addr := BankAddress(b)))), numReady;
          }
          numReady := numReady + 1;
        }
        k := k + 1;
      }
      GroupEnd(cfg, v, cmd, clk, j, result, numReady);
      answer := None;
    }

    method ReadyRankCommand(cmd: Command, clk: nat) returns (r: Lookup)
      requires Valid() && cmd.IsRankCommand() && Addressed(cfg, cmd)
      ensures r == ScanRank(cfg, View(), cmd, clk, 0, 0)
    {
      ghost var v := View();
      r := ScanGroups(cmd, clk, v, ScanRank(cfg, v, cmd, clk, 0, 0));
    }

    // The outer loop, over the groups of the rank.
    method ScanGroups(cmd: Command, clk: nat, ghost v: Channel, ghost result: Lookup) returns (r: Lookup)
      requires Valid() && Shows(v) && InScan(cfg, v, cmd, clk, 0, 0, result, 0)
      ensures r == result
    {
      var numReady: nat, j: nat := 0, 0;
      while j < cfg.bankgroups
        invariant j <= cfg.bankgroups && Valid() && Shows(v)
        invariant InScan(cfg, v, cmd, clk, j, 0, result, numReady)
      {
        var answer;
        answer, numReady := ScanGroup(cmd, clk, j, numReady, v, result);
        if answer.Some? {
          return answer.value;
        }
        j := j + 1;
      }
      ScanEnd(cfg, v, cmd, clk, result, numReady);
      r := if numReady == cfg.Banks() then Issue(cmd) else NotReady;
    }

    method GetReadyCommand(cmd: Command, clk: nat) returns (r: Lookup)
      requires Valid() && Addressed(cfg, cmd)
      ensures r == ReadyCommand(cfg, View(), cmd, clk)
    {
      if cmd.IsRankCommand() {
        r := ReadyRankCommand(cmd, clk);
      } else {
        assert cmd.Id() in cfg.AllBanks();
        r := bankStates[cmd.Id()].GetReadyCommand(cmd, clk);
        if r.Issue? && r.cmd.cmdType == Activate {
          var ok := IsWindowReady(cmd.addr.rank, clk);
          if !ok {
            r := NotReady;
          }
        }
      }
    }

    // ActivationWindowOk, IsFAWReady and Is32AWReady.
    method IsWindowReady(rank: int, clk: nat) returns (ok: bool)
      requires Valid() && 0 <= rank < cfg.ranks
      ensures ok == ActivationWindowOk(cfg, View(), rank, clk)
    {
      ok := !(fourAw[rank] != [] && clk < fourAw[rank][0] && |fourAw[rank]| >= 4);
      if cfg.gddr && ok {
        ok := !(thirtyTwoAw[rank] != [] && clk < thirtyTwoAw[rank][0] && |thirtyTwoAw[rank]| >= 32);
      }
    }

    // ---- Refresh requests ----

    method BankNeedRefresh(b: BankId, need: bool)
      requires Valid()
      modifies this`refreshQ
      ensures refreshQ == if need then old(refreshQ) + [Command(RefreshBank, BankAddress(b), NO_HEX)]
                          else RemoveFirst(old(refreshQ), (c: Command) => c.Id() == b)
    {
      if need {
        refreshQ := refreshQ + [Command(RefreshBank, BankAddress(b), NO_HEX)];
      } else {
        EraseFirst((c: Command) => c.Id() == b);
      }
    }

    method RankNeedRefresh(rank: int, need: bool)
      requires Valid()
      modifies this`refreshQ
      ensures refreshQ == if need then old(refreshQ) + [Command(Refresh, Address(-1, rank, -1, -1, -1, -1), NO_HEX)]
                          else RemoveFirst(old(refreshQ), (c: Command) => c.addr.rank == rank)
    {
      if need {
        refreshQ := refreshQ + [Command(Refresh, Address(-1, rank, -1, -1, -1, -1), NO_HEX)];
      } else {
        EraseFirst((c: Command) => c.addr.rank == rank);
      }
    }

    method EraseFirst(p: Command -> bool)
      modifies this`refreshQ
      ensures refreshQ == RemoveFirst(old(refreshQ), p)
    {
      var i := 0;
      while i < |refreshQ|
        invariant 0 <= i <= |refreshQ| && refreshQ == old(refreshQ)
        invariant forall j :: 0 <= j < i ==> !p(refreshQ[j])
      {
        if p(refreshQ[i]) {
          RemoveFirstAt(refreshQ, p, i);
          refreshQ := refreshQ[..i] + refreshQ[i + 1..];
          return;
        }
        i := i + 1;
      }
      RemoveFirstAt(refreshQ, p, i);
    }

    // ---- Timing ----

    // The banks in `done` have had the table pushed, the others are as before.
    twostate predicate Pushed(done: set<BankId>, table: Table, clk: nat)
      requires old(Valid())
      reads this, bankStates.Values
    {
      forall b :: b in bankStates ==>
        bankStates[b].View() == if b in done then PushAll(old(bankStates[b].View()), table, clk) else old(bankStates[b].View())
    }

    // The innermost loop: one bank, the whole table.
    method PushTable(b: BankId, table: Table, clk: nat)
      requires Valid() && b in bankStates
      modifies bankStates[b]
      ensures Valid() && bankStates[b].View() == PushAll(old(bankStates[b].View()), table, clk)
    {
      var bank := bankStates[b];
      var i := 0;
      while i < |table|
        invariant 0 <= i <= |table| && |bank.cmdTiming| == NUM_TYPES
        invariant bank.View() == PushAll(old(bank.View()), table[..i], clk)
      {
        assert table[..i + 1][..i] == table[..i];
        bank.UpdateTiming(table[i].0, Deadline(clk, table[i].1));
        i := i + 1;
      }
      assert table[..|table|] == table;
    }

    method UpdateSameBankTiming(addr: Address, table: Table, clk: nat)
      requires Valid() && cfg.InRange(BankId(addr.rank, addr.bankgroup, addr.bank))
      modifies bankStates.Values
      ensures Valid() && Pushed({BankId(addr.rank, addr.bankgroup, addr.bank)}, table, clk)
    {
      assert BankId(addr.rank, addr.bankgroup, addr.bank) in cfg.AllBanks();
      PushTable(BankId(addr.rank, addr.bankgroup, addr.bank), table, clk);
    }

    // The banks of group j of a rank, all but `skip`.
    function GroupOf(rank: int, j: int, skip: int): set<BankId> {
      set b | b in cfg.AllBanks() && b.rank == rank && b.group == j && b.bank != skip
    }

    // The loop over one group that the five update loops share.
    method PushGroup(rank: int, j: int, skip: int, table: Table, clk: nat)
      requires Valid() && 0 <= rank < cfg.ranks && 0 <= j < cfg.bankgroups
      modifies bankStates.Values
      ensures Valid() && Pushed(GroupOf(rank, j, skip), table, clk)
    {
      ghost var done := {};
      var k := 0;
      while k < cfg.banksPerGroup
        invariant 0 <= k <= cfg.banksPerGroup && Valid()
        invariant done == set b | b in GroupOf(rank, j, skip) && b.bank < k
        invariant Pushed(done, table, clk)
      {
        var b := BankId(rank, j, k);
        if k != skip {
          assert b in cfg.AllBanks() && b !in done;
          PushTable(b, table, clk);
          done := done + {b};
        }
        k := k + 1;
      }
      assert done == GroupOf(rank, j, skip);
    }

    method UpdateOtherBanksSameBankgroupTiming(addr: Address, table: Table, clk: nat)
      requires Valid() && cfg.InRange(BankId(addr.rank, addr.bankgroup, addr.bank))
      modifies bankStates.Values
      ensures Valid() && Pushed(GroupOf(addr.rank, addr.bankgroup, addr.bank), table, clk)
    {
      PushGroup(addr.rank, addr.bankgroup, addr.bank, table, clk);
    }

    // The banks of a rank outside group `skip`.
    function RankOf(rank: int, skip: int): set<BankId> {
      set b | b in cfg.AllBanks() && b.rank == rank && b.group != skip
    }

    method PushRank(rank: int, skip: int, table: Table, clk: nat)
      requires Valid() && 0 <= rank < cfg.ranks
      modifies bankStates.Values
      ensures Valid() && Pushed(RankOf(rank, skip), table, clk)
    {
      ghost var done := {};
      var j := 0;
      while j < cfg.bankgroups
        invariant 0 <= j <= cfg.bankgroups && Valid()
        invariant done == set b | b in RankOf(rank, skip) && b.group < j
        invariant Pushed(done, table, clk)
      {
        if j != skip {
          assert done !! GroupOf(rank, j, -1);
          PushGroup(rank, j, -1, table, clk);
          done := done + GroupOf(rank, j, -1);
        }
        j := j + 1;
      }
      assert done == RankOf(rank, skip);
    }

    method UpdateOtherBankgroupsSameRankTiming(addr: Address, table: Table, clk: nat)
      requires Valid() && 0 <= addr.rank < cfg.ranks
      modifies bankStates.Values
      ensures Valid() && Pushed(RankOf(addr.rank, addr.bankgroup), table, clk)
    {
      PushRank(addr.rank, addr.bankgroup, table, clk);
    }

    // The banks outside a rank.
    function OutsideRank(rank: int): set<BankId> {
      set b | b in cfg.AllBanks() && b.rank != rank
    }

    method UpdateOtherRanksTiming(addr: Address, table: Table, clk: nat)
      requires Valid()
      modifies bankStates.Values
      ensures Valid() && Pushed(OutsideRank(addr.rank), table, clk)
    {
      ghost var done := {};
      var i := 0;
      while i < cfg.ranks
        invariant 0 <= i <= cfg.ranks && Valid()
        invariant done == set b | b in OutsideRank(addr.rank) && b.rank < i
        invariant Pushed(done, table, clk)
      {
        if i != addr.rank {
          assert done !! RankOf(i, -1);
          PushRank(i, -1, table, clk);
          done := done + RankOf(i, -1);
        }
        i := i + 1;
      }
      assert done == OutsideRank(addr.rank);
    }

    method UpdateSameRankTiming(addr: Address, table: Table, clk: nat)
      requires Valid() && 0 <= addr.rank < cfg.ranks
      modifies bankStates.Values
      ensures Valid() && Pushed(RankOf(addr.rank, -1), table, clk)
    {
      PushRank(addr.rank, -1, table, clk);
    }

    method UpdateActivationTimes(rank: int, clk: nat)
      requires Valid() && 0 <= rank < cfg.ranks
      modifies this`fourAw, this`thirtyTwoAw
      ensures Valid()
      ensures fourAw == old(fourAw)[rank := WindowPush(old(fourAw)[rank], clk, cfg.tFAW)]
      ensures thirtyTwoAw == if cfg.gddr then old(thirtyTwoAw)[rank := WindowPush(old(thirtyTwoAw)[rank], clk, cfg.t32AW)]
                             else old(thirtyTwoAw)
    {
      if fourAw[rank] != [] && clk >= fourAw[rank][0] {
        fourAw := fourAw[rank := fourAw[rank][1..]];
      }
      fourAw := fourAw[rank := fourAw[rank] + [clk + cfg.tFAW]];
      if cfg.gddr {
        if thirtyTwoAw[rank] != [] && clk >= thirtyTwoAw[rank][0] {
          thirtyTwoAw := thirtyTwoAw[rank := thirtyTwoAw[rank][1..]];
        }
        thirtyTwoAw := thirtyTwoAw[rank := thirtyTwoAw[rank] + [clk + cfg.t32AW]];
      }
    }

    // The tables of cmd have been pushed onto every bank.
    twostate predicate AllPushed(cmd: Command, clk: nat)
      requires old(Valid())
      reads this, bankStates.Values
    {
      forall b :: b in bankStates ==>
        bankStates[b].View() == PushAll(old(bankStates[b].View()), TableFor(cfg.timing, cmd, b), clk)
    }

    // They have been pushed onto the banks of cmd's group, or onto all others only.
    twostate predicate PushedNear(near: bool, cmd: Command, clk: nat)
      requires old(Valid())
      reads this, bankStates.Values
    {
      forall b :: b in bankStates ==>
        bankStates[b].View() ==
        if InGroup(cmd, b) == near then PushAll(old(bankStates[b].View()), TableFor(cfg.timing, cmd, b), clk)
        else old(bankStates[b].View())
    }

    predicate InGroup(cmd: Command, b: BankId) {
      b.rank == cmd.addr.rank && b.group == cmd.addr.bankgroup
    }

    method UpdateNearBanks(cmd: Command, clk: nat)
      requires Valid() && !cmd.IsRankCommand() && Addressed(cfg, cmd)
      modifies bankStates.Values
      ensures Valid() && PushedNear(true, cmd, clk)
    {
      UpdateSameBankTiming(cmd.addr, cfg.timing.sameBank(cmd.cmdType), clk);
      UpdateOtherBanksSameBankgroupTiming(cmd.addr, cfg.timing.otherBanks(cmd.cmdType), clk);
    }

    method UpdateFarBanks(cmd: Command, clk: nat)
      requires Valid() && !cmd.IsRankCommand() && Addressed(cfg, cmd)
      modifies bankStates.Values
      ensures Valid() && PushedNear(false, cmd, clk)
    {
      UpdateOtherBankgroupsSameRankTiming(cmd.addr, cfg.timing.otherGroups(cmd.cmdType), clk);
      UpdateOtherRanksTiming(cmd.addr, cfg.timing.otherRanks(cmd.cmdType), clk);
    }

    // The four neighbourhoods of a bank, one after the other.
    method UpdateBankCommandTiming(cmd: Command, clk: nat)
      requires Valid() && !cmd.IsRankCommand() && Addressed(cfg, cmd)
      modifies bankStates.Values
      ensures Valid() && AllPushed(cmd, clk)
    {
      UpdateNearBanks(cmd, clk);
      UpdateFarBanks(cmd, clk);
    }

    method UpdateRankCommandTiming(cmd: Command, clk: nat)
      requires Valid() && cmd.IsRankCommand() && Addressed(cfg, cmd)
      modifies bankStates.Values
      ensures Valid() && AllPushed(cmd, clk)
    {
      UpdateSameRankTiming(cmd.addr, cfg.timing.sameRank(cmd.cmdType), clk);
    }

    // The five neighbourhoods; the fields beside the banks stay.
    method UpdateBankTimes(cmd: Command, clk: nat)
      requires Valid() && Addressed(cfg, cmd)
      modifies bankStates.Values
      ensures Valid() && View().banks == UpdateBankTiming(cfg, old(View()), cmd, clk)
    {
      if cmd.IsRankCommand() {
        UpdateRankCommandTiming(cmd, clk);
      } else {
        UpdateBankCommandTiming(cmd, clk);
      }
      assert AllPushed(cmd, clk);
      assert View().banks.Keys == old(View()).banks.Keys;
    }

    method UpdateTiming(cmd: Command, clk: nat)
      requires Valid() && Addressed(cfg, cmd)
      modifies this`fourAw, this`thirtyTwoAw, bankStates.Values
      ensures Valid() && View() == ChannelModel.UpdateTiming(cfg, old(View()), cmd, clk)
    {
      if cmd.cmdType == Activate {
        UpdateActivationTimes(cmd.addr.rank, clk);
      }
      assert View().banks == old(View()).banks;
      UpdateBankTimes(cmd, clk);
    }

    // ---- State ----

    function Covered(cmd: Command): set<BankId> {
      set b | b in cfg.AllBanks() && Covers(cmd, b)
    }

    // UpdateState, the banks: ok is false where the source exits.
    method UpdateBanks(cmd: Command) returns (ok: bool)
      requires Valid() && Addressed(cfg, cmd)
      modifies bankStates.Values
      ensures ok <==> old(CanUpdate(View(), cmd))
      ensures ok ==> Valid()
      ensures ok ==> Taken(Covered(cmd), cmd)
    {
      if cmd.IsRankCommand() {
        assert Covered(cmd) == RankOf(cmd.addr.rank, -1);
        ok := UpdateRank(cmd);
      } else {
        assert cmd.Id() in cfg.AllBanks();
        assert Covered(cmd) == {cmd.Id()};
        ok := bankStates[cmd.Id()].UpdateState(cmd);
      }
    }

    method UpdateAllBanks(cmd: Command) returns (ok: bool)
      requires Valid() && Addressed(cfg, cmd)
      modifies bankStates.Values
      ensures ok <==> CanUpdate(old(View()), cmd)
      ensures ok ==> Valid() && View() == old(View()).(banks := UpdatedBanks(old(View()), cmd))
    {
      ok := UpdateBanks(cmd);
      if ok {
        assert View().banks.Keys == old(View()).banks.Keys;
      }
    }

    method UpdateState(cmd: Command) returns (ok: bool)
      requires Valid() && Addressed(cfg, cmd)
      modifies this`refreshQ, bankStates.Values
      ensures ok <==> ChannelModel.UpdateState(old(View()), cmd).Some?
      ensures ok ==> Valid() && View() == ChannelModel.UpdateState(old(View()), cmd).value
    {
      ok := UpdateAllBanks(cmd);
      if ok {
        DropRequest(cmd);
      }
    }

    // A refresh takes its request out of the queue.
    method DropRequest(cmd: Command)
      requires Valid()
      modifies this`refreshQ
      ensures refreshQ == RequestsAfter(old(refreshQ), cmd)
    {
      if cmd.cmdType == Refresh {
        RankNeedRefresh(cmd.addr.rank, false);
      } else if cmd.cmdType == RefreshBank {
        BankNeedRefresh(cmd.Id(), false);
      }
    }

    // ChannelState::UpdateTimingAndStates.
    method UpdateTimingAndStates(cmd: Command, clk: nat) returns (ok: bool)
      requires Valid() && Addressed(cfg, cmd)
      modifies this`refreshQ, this`fourAw, this`thirtyTwoAw, bankStates.Values
      ensures ok <==> ChannelModel.UpdateTimingAndStates(cfg, old(View()), cmd, clk).Some?
      ensures ok ==> Valid() && View() == ChannelModel.UpdateTimingAndStates(cfg, old(View()), cmd, clk).value
    {
      ok := UpdateState(cmd);
      if ok {
        UpdateTiming(cmd, clk);
      }
    }

    // The banks in `done` have taken the command, the others are as before.
    twostate predicate Taken(done: set<BankId>, cmd: Command)
      reads this, bankStates.Values
    {
      && (forall b :: b in bankStates && b in done ==>
            Update(old(bankStates[b].View()), cmd).Some? &&
            bankStates[b].View() == Update(old(bankStates[b].View()), cmd).value)
      && (forall b :: b in bankStates && b !in done ==> bankStates[b].View() == old(bankStates[b].View()))
    }

    // The banks of group j of a rank take the command; ok is false where the source exits.
    method UpdateGroup(cmd: Command, j: int) returns (ok: bool)
      requires Valid() && 0 <= cmd.addr.rank < cfg.ranks && 0 <= j < cfg.bankgroups
      modifies bankStates.Values
      ensures ok ==> Valid() && Taken(GroupOf(cmd.addr.rank, j, -1), cmd)
      ensures !ok ==> exists b :: b in GroupOf(cmd.addr.rank, j, -1) && Update(old(bankStates[b].View()), cmd).None?
    {
      ghost var done := {};
      var k := 0;
      while k < cfg.banksPerGroup
        invariant 0 <= k <= cfg.banksPerGroup && Valid()
        invariant done == set b | b in GroupOf(cmd.addr.rank, j, -1) && b.bank < k
        invariant Taken(done, cmd)
      {
        var b := BankId(cmd.addr.rank, j, k);
        assert b in cfg.AllBanks() && b !in done;
        ok := bankStates[b].UpdateState(cmd);
        if !ok {
          return;
        }
        done := done + {b};
        k := k + 1;
      }
      assert done == GroupOf(cmd.addr.rank, j, -1);
      ok := true;
    }

    method UpdateRank(cmd: Command) returns (ok: bool)
      requires Valid() && 0 <= cmd.addr.rank < cfg.ranks
      modifies bankStates.Values
      ensures ok ==> Valid() && Taken(RankOf(cmd.addr.rank, -1), cmd)
      ensures !ok ==> exists b :: b in RankOf(cmd.addr.rank, -1) && Update(old(bankStates[b].View()), cmd).None?
    {
      ghost var done := {};
      var j := 0;
      while j < cfg.bankgroups
        invariant 0 <= j <= cfg.bankgroups && Valid()
        invariant done == set b | b in RankOf(cmd.addr.rank, -1) && b.group < j
        invariant Taken(done, cmd)
      {
        assert done !! GroupOf(cmd.addr.rank, j, -1);
        ok := UpdateGroup(cmd, j);
        if !ok {
          return;
        }
        done := done + GroupOf(cmd.addr.rank, j, -1);
        j := j + 1;
      }
      assert done == RankOf(cmd.addr.rank, -1);
      ok := true;
    }
  }
}
