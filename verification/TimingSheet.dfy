// The delays of a DRAM device, as its data sheet gives them: for two commands and how their
// banks lie to each other, the least time between them in terms of the raw parameters.
module TimingSheet {
  import opened Options
  import opened DramTypes
  import opened ChannelModel

  datatype Params = Params(
    bankgroups: nat, gddr: bool, hbm: bool, lpddr4: bool,
    burstCycle: int, AL: int, CL: int, CWL: int,
    tCCD_L: int, tCCD_S: int, tRTRS: int, tRTP: int, tWTR_L: int, tWTR_S: int, tWR: int, tRP: int,
    tRRD_L: int, tRRD_S: int, tRAS: int, tRCD: int, tRFC: int, tRFCb: int, tREFI: int,
    tCKESR: int, tXS: int, tPPD: int, tRCDRD: int, tRCDWR: int)
  {
    function RL(): int { AL + CL }
    function WL(): int { AL + CWL }
    function ReadDelay(): int { RL() + burstCycle }
    function WriteDelay(): int { WL() + burstCycle }
    function RC(): int { tRAS + tRP }

    // The spacing inside a bank group, or across groups where there is only one.
    function CcdLong(): int { if bankgroups == 1 then tCCD_S else tCCD_L }
    function WtrLong(): int { if bankgroups == 1 then tWTR_S else tWTR_L }
    function RrdLong(): int { if bankgroups == 1 then tRRD_S else tRRD_L }
    function RcdRead(): int { if gddr || hbm then tRCDRD else tRCD - AL }
    function RcdWrite(): int { if gddr || hbm then tRCDWR else tRCD - AL }
    function ReadToWrite(): int { RL() + burstCycle - WL() + tRTRS }
    function ReadToPrecharge(): int { AL + tRTP }
    function WriteToPrecharge(): int { WL() + burstCycle + tWR }
  }

  function MaxInt(a: int, b: int): int { if a > b then a else b }

  predicate Reads(t: CommandType) { t == Read || t == ReadPrecharge }
  predicate Writes(t: CommandType) { t == Write || t == WritePrecharge }

  // Activations, refreshes and self-refresh need the bank closed.
  predicate NeedsClosed(t: CommandType) {
    t == Activate || t == Refresh || t == RefreshBank || t == SrefEnter
  }

  // Between two accesses inside one rank. A group of its own has the long spacing, unless
  // it is the only group.
  function ColumnGap(p: Params, t: CommandType, u: CommandType, sameGroup: bool): Option<int> {
    var long := sameGroup && p.bankgroups != 1;
    var ccd := if long then p.tCCD_L else p.tCCD_S;
    var wtr := if long then p.tWTR_L else p.tWTR_S;
    if (Reads(t) && Reads(u)) || (Writes(t) && Writes(u)) then Some(if p.burstCycle > ccd then p.burstCycle else ccd)
    else if Reads(t) && Writes(u) then Some(p.CL + p.burstCycle + p.tRTRS - p.CWL)
    else if Writes(t) && Reads(u) then Some(p.AL + p.CWL + p.burstCycle + wtr)
    else None
  }

  // Between two accesses in different ranks.
  function OtherRankGap(p: Params, t: CommandType, u: CommandType): Option<int> {
    if Reads(t) && Reads(u) then Some(p.burstCycle + p.tRTRS)
    else if Writes(t) && Writes(u) then Some(p.burstCycle)
    else if Reads(t) && Writes(u) then Some(p.CL + p.burstCycle + p.tRTRS - p.CWL)
    else if Writes(t) && Reads(u) then Some(p.CWL + p.burstCycle + p.tRTRS - p.CL)
    else None
  }

  // Between two commands for one bank.
  function BankGap(p: Params, t: CommandType, u: CommandType): Option<int> {
    match t
    case Read => if u == Precharge then Some(p.AL + p.tRTP) else ColumnGap(p, t, u, true)
    case Write => if u == Precharge then Some(p.AL + p.CWL + p.burstCycle + p.tWR) else ColumnGap(p, t, u, true)
    case ReadPrecharge =>
      if u == Activate then Some(p.AL + p.burstCycle + p.tRTP + p.tRP)
      else if NeedsClosed(u) then Some(p.AL + p.tRTP + p.tRP) else None
    case WritePrecharge => if NeedsClosed(u) then Some(p.AL + p.CWL + p.burstCycle + p.tWR + p.tRP) else None
    case Activate =>
      if u == Activate then Some(p.tRAS + p.tRP)
      else if u == Precharge then Some(p.tRAS)
      else if Reads(u) then Some(if p.gddr || p.hbm then p.tRCDRD else p.tRCD - p.AL)
      else if Writes(u) then Some(if p.gddr || p.hbm then p.tRCDWR else p.tRCD - p.AL)
      else None
    case Precharge => if NeedsClosed(u) then Some(p.tRP) else None
    case _ => None
  }

  // Between commands for two banks of one rank.
  function RankGap(p: Params, t: CommandType, u: CommandType, sameGroup: bool): Option<int> {
    match t
    case Activate =>
      if u == Activate then Some(if sameGroup && p.bankgroups != 1 then p.tRRD_L else p.tRRD_S)
      else if u == RefreshBank then Some(p.tRAS + p.tRP) else None
    case Precharge => if u == Precharge && (p.gddr || p.lpddr4) then Some(p.tPPD) else None
    case RefreshBank => if u == Activate then Some(p.tRFC) else if u == RefreshBank then Some(p.tREFI) else None
    case _ => ColumnGap(p, t, u, sameGroup)
  }

  // After a command for a whole rank.
  function AfterRankCommand(p: Params, t: CommandType, u: CommandType): Option<int> {
    match t
    case Refresh => if u == Activate || u == Refresh || u == SrefEnter then Some(p.tRFC) else None
    case SrefEnter => if u == SrefExit then Some(p.tCKESR) else None
    case SrefExit => if NeedsClosed(u) then Some(p.tXS) else None
    case _ => None
  }

  // The least time from command a to a command of type u for bank b, if there is one.
  function Gap(p: Params, a: Command, b: BankId, u: CommandType): Option<int> {
    var t := a.cmdType;
    if t == Refresh || t == SrefEnter || t == SrefExit then
      if a.addr.rank == b.rank then AfterRankCommand(p, t, u) else None
    else if a.addr.rank != b.rank then OtherRankGap(p, t, u)
    else if a.addr.bankgroup != b.group || a.addr.bank != b.bank then RankGap(p, t, u, a.addr.bankgroup == b.group)
    else BankGap(p, t, u)
  }

  // The tables hold the delays of the sheet and no others.
  ghost predicate FollowsSheet(timing: Timing, p: Params) {
    forall a, b :: RowFollows(timing, p, a, b)
  }

  ghost predicate RowFollows(timing: Timing, p: Params, a: Command, b: BankId) {
    && (forall m :: 0 <= m < |TableFor(timing, a, b)| ==> EntryFollows(p, a, b, TableFor(timing, a, b)[m]))
    && (forall u :: Gap(p, a, b, u).Some? ==> (u, Gap(p, a, b, u).value) in TableFor(timing, a, b))
  }

  predicate EntryFollows(p: Params, a: Command, b: BankId, entry: (CommandType, int)) {
    Gap(p, a, b, entry.0) == Some(entry.1)
  }
}
