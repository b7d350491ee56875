// The vocabulary of one DRAMsim3 channel: commands, transactions, configuration.
module DramTypes {
  import opened Words

  datatype CommandType =
    | Read | ReadPrecharge | Write | WritePrecharge | Activate | Precharge
    | RefreshBank | Refresh | SrefEnter | SrefExit

  const NUM_TYPES := 10

  function Index(t: CommandType): (i: nat)
    ensures i < NUM_TYPES
  {
    match t
    case Read => 0
    case ReadPrecharge => 1
    case Write => 2
    case WritePrecharge => 3
    case Activate => 4
    case Precharge => 5
    case RefreshBank => 6
    case Refresh => 7
    case SrefEnter => 8
    case SrefExit => 9
  }

  datatype Address = Address(channel: int, rank: int, bankgroup: int, bank: int, row: int, column: int)

  // A valid command. The source's invalid command (type SIZE) is Option.None here.
  datatype Command = Command(cmdType: CommandType, addr: Address, hexAddr: nat) {
    predicate IsRefresh() { cmdType == Refresh || cmdType == RefreshBank }
    predicate IsRead() { cmdType == Read || cmdType == ReadPrecharge }
    predicate IsWrite() { cmdType == Write || cmdType == WritePrecharge }
    predicate IsReadWrite() { IsRead() || IsWrite() }
    predicate IsRankCommand() { cmdType == Refresh || cmdType == SrefEnter || cmdType == SrefExit }
    function Id(): BankId { BankId(addr.rank, addr.bankgroup, addr.bank) }
  }

  // A refresh request carries no address of its own: -1 as a 64-bit word.
  const NO_HEX: nat := 0xFFFF_FFFF_FFFF_FFFF

  datatype BankId = BankId(rank: int, group: int, bank: int)

  // The id identifies an accepted transaction; the simulator itself does not carry it.
  datatype Transaction = Transaction(id: nat, addr: nat, addedCycle: nat, completeCycle: nat, isWrite: bool)

  // The outcome of looking for a command: the process exits (AbruptExit or exit(1)),
  // nothing can be issued, or a command can.
  datatype Lookup = Exit | NotReady | Issue(cmd: Command)

  // Lists of (command type, delay) that a command pushes onto the banks around it.
  type Table = seq<(CommandType, int)>

  datatype Timing = Timing(
    sameBank: CommandType -> Table,
    otherBanks: CommandType -> Table,
    otherGroups: CommandType -> Table,
    otherRanks: CommandType -> Table,
    sameRank: CommandType -> Table)

  datatype RefreshPolicy = RankStaggered | BankStaggered

  datatype Config = Config(
    ranks: nat, bankgroups: nat, banksPerGroup: nat,
    perBankQueues: bool, cmdQueueSize: nat, transQueueSize: nat,
    unifiedQueue: bool, closePage: bool, gddr: bool,
    tFAW: nat, t32AW: nat, readDelay: nat,
    refreshPolicy: RefreshPolicy, refreshInterval: nat,
    mapping: nat -> Address, timing: Timing)
  {
    function Banks(): nat { bankgroups * banksPerGroup }
    function NumQueues(): nat { if perBankQueues then ranks * Banks() else ranks }

    predicate InRange(b: BankId) {
      0 <= b.rank < ranks && 0 <= b.group < bankgroups && 0 <= b.bank < banksPerGroup
    }

    function AllBanks(): (s: set<BankId>)
      ensures forall b: BankId :: b in s <==> InRange(b)
    {
      set r, g, k | 0 <= r < ranks && 0 <= g < bankgroups && 0 <= k < banksPerGroup :: BankId(r, g, k)
    }

    // At least one bank, a positive refresh interval, and a mapping whose coordinates
    // exist (module AddressMapping proves that of the mapping the source builds).
    ghost predicate Valid() {
      && ranks > 0 && bankgroups > 0 && banksPerGroup > 0 && refreshInterval > 0
      && forall a: nat :: InRange(BankOf(a))
    }

    lemma QueuesExist()
      requires Valid()
      ensures NumQueues() > 0
    {
      assert bankgroups * banksPerGroup >= 1 * banksPerGroup;
      assert ranks * Banks() >= 1 * Banks();
    }

    function BankOf(hex: nat): BankId {
      var a := mapping(hex);
      BankId(a.rank, a.bankgroup, a.bank)
    }
  }

  // 64-bit arithmetic on deadlines: a negative delay before cycle -delay wraps around.

  function Deadline(clk: nat, delay: int): (t: nat)
    ensures t >= clk + delay
    ensures clk + delay >= 0 ==> t == clk + delay
  {
    if clk + delay >= 0 then clk + delay else (clk + delay) % WORD
  }
}
