// bankstate.cc: the state machine of one bank and its earliest-time table.
module BankModel {
  import opened Options
  import opened DramTypes

  datatype Status = Open | Closed | SelfRefresh

  // The value of a BankState object.
  datatype Bank = Bank(status: Status, openRow: int, rowHitCount: nat, timing: seq<nat>) {
    predicate Valid() {
      |timing| == NUM_TYPES && (status != Open ==> openRow == -1 && rowHitCount == 0)
    }

    function Earliest(t: CommandType): nat
      requires |timing| == NUM_TYPES
    {
      timing[Index(t)]
    }
  }

  const IDLE_BANK := Bank(Closed, -1, 0, seq(NUM_TYPES, i => 0))

  // The command that must come next for a command of type t on row `row` to make
  // progress; None where the source exits.
  function RequiredType(b: Bank, t: CommandType, row: int): Option<CommandType> {
    match b.status
    case Closed =>
      (match t
       case Read => Some(Activate)
       case ReadPrecharge => Some(Activate)
       case Write => Some(Activate)
       case WritePrecharge => Some(Activate)
       case Refresh => Some(t)
       case RefreshBank => Some(t)
       case SrefEnter => Some(t)
       case _ => None)
    case Open =>
      (match t
       case Read => Some(if row == b.openRow then t else Precharge)
       case ReadPrecharge => Some(if row == b.openRow then t else Precharge)
       case Write => Some(if row == b.openRow then t else Precharge)
       case WritePrecharge => Some(if row == b.openRow then t else Precharge)
       case Refresh => Some(Precharge)
       case RefreshBank => Some(Precharge)
       case SrefEnter => Some(Precharge)
       case _ => None)
    case SelfRefresh =>
      (match t
       case Read => Some(SrefExit)
       case ReadPrecharge => Some(SrefExit)
       case Write => Some(SrefExit)
       case WritePrecharge => Some(SrefExit)
       case _ => None)
  }

  function GetReady(b: Bank, cmd: Command, clk: nat): Lookup
    requires |b.timing| == NUM_TYPES
  {
    match RequiredType(b, cmd.cmdType, cmd.addr.row)
    case None => Exit
    case Some(t) => if clk >= b.Earliest(t) then Issue(Command(t, cmd.addr, cmd.hexAddr)) else NotReady
  }

  // The bank after a command; None where the source exits.
  function Update(b: Bank, cmd: Command): Option<Bank> {
    match b.status
    case Open =>
      (match cmd.cmdType
       case Read => Some(b.(rowHitCount := b.rowHitCount + 1))
       case Write => Some(b.(rowHitCount := b.rowHitCount + 1))
       case ReadPrecharge => Some(b.(status := Closed, openRow := -1, rowHitCount := 0))
       case WritePrecharge => Some(b.(status := Closed, openRow := -1, rowHitCount := 0))
       case Precharge => Some(b.(status := Closed, openRow := -1, rowHitCount := 0))
       case _ => None)
    case Closed =>
      (match cmd.cmdType
       case Refresh => Some(b)
       case RefreshBank => Some(b)
       case Activate => Some(b.(status := Open, openRow := cmd.addr.row))
       case SrefEnter => Some(b.(status := SelfRefresh))
       case _ => None)
    case SelfRefresh =>
      (match cmd.cmdType
       case SrefExit => Some(b.(status := Closed))
       case _ => None)
  }

  // A command that GetReady names is one that Update accepts.
  lemma ReadyIsLegal(b: Bank, cmd: Command, clk: nat)
    requires |b.timing| == NUM_TYPES && GetReady(b, cmd, clk).Issue?
    ensures var c := GetReady(b, cmd, clk).cmd;
            && Update(b, c).Some? && clk >= b.Earliest(c.cmdType) && (b.Valid() ==> Update(b, c).value.Valid())
            && (c.IsReadWrite() ==> b.openRow == c.addr.row)
  {
  }

  // No transaction or refresh request makes a bank outside self-refresh exit.
  lemma NoExit(b: Bank, cmd: Command, clk: nat)
    requires |b.timing| == NUM_TYPES && b.status != SelfRefresh
    requires cmd.IsReadWrite() || cmd.IsRefresh()
    ensures GetReady(b, cmd, clk) != Exit
  {
  }

  // How many other commands a request still waits for.
  function Distance(b: Bank, cmd: Command): nat {
    if cmd.IsRefresh() then (if b.status.Open? then 1 else 0)
    else if b.status.Closed? then 1
    else if b.openRow == cmd.addr.row then 0
    else 2
  }

  // The commands a bank asks for, one after the other, until the request itself goes out:
  // at most a precharge and an activation before an access, at most a precharge before a
  // refresh, and none at all on a row hit.
  function ServiceOf(b: Bank, cmd: Command): (r: seq<CommandType>)
    requires b.status != SelfRefresh
    requires cmd.IsReadWrite() || cmd.IsRefresh()
    ensures cmd.IsRefresh() ==> r == if b.status.Open? then [Precharge, cmd.cmdType] else [cmd.cmdType]
    ensures cmd.IsReadWrite() && b.status.Closed? ==> r == [Activate, cmd.cmdType]
    ensures cmd.IsReadWrite() && b.status.Open? ==>
              r == if b.openRow == cmd.addr.row then [cmd.cmdType] else [Precharge, Activate, cmd.cmdType]
    decreases Distance(b, cmd)
  {
    var t := RequiredType(b, cmd.cmdType, cmd.addr.row).value;
    if t == cmd.cmdType then [t]
    else [t] + ServiceOf(Update(b, Command(t, cmd.addr, cmd.hexAddr)).value, cmd)
  }

  function Push(b: Bank, t: CommandType, time: nat): (r: Bank)
    requires |b.timing| == NUM_TYPES
    ensures |r.timing| == NUM_TYPES
    ensures forall u :: r.Earliest(u) == if u == t && time > b.Earliest(t) then time else b.Earliest(u)
    ensures r == b.(timing := r.timing)
  {
    if time > b.Earliest(t) then b.(timing := b.timing[Index(t) := time]) else b
  }

  // A whole table pushed at clk.
  function PushAll(b: Bank, table: Table, clk: nat): (r: Bank)
    requires |b.timing| == NUM_TYPES
    ensures |r.timing| == NUM_TYPES
    ensures r == b.(timing := r.timing)
    ensures forall u :: r.Earliest(u) >= b.Earliest(u)
    decreases |table|
  {
    if table == [] then b
    else
      var last := table[|table| - 1];
      Push(PushAll(b, table[..|table| - 1], clk), last.0, Deadline(clk, last.1))
  }

  // Every entry of the table bounds the bank from then on.
  lemma {:induction false} PushAllBounds(b: Bank, table: Table, clk: nat, i: nat)
    requires |b.timing| == NUM_TYPES && i < |table|
    ensures PushAll(b, table, clk).Earliest(table[i].0) >= Deadline(clk, table[i].1)
    decreases |table|
  {
    if i < |table| - 1 {
      PushAllBounds(b, table[..|table| - 1], clk, i);
    }
  }

  // ... and what the bank waits for is what it waited for already, or some entry.
  lemma {:induction false} PushAllCaused(b: Bank, table: Table, clk: nat, u: CommandType) returns (m: nat)
    requires |b.timing| == NUM_TYPES
    ensures PushAll(b, table, clk).Earliest(u) == b.Earliest(u) ||
            (m < |table| && table[m].0 == u && PushAll(b, table, clk).Earliest(u) == Deadline(clk, table[m].1))
    decreases |table|
  {
    m := 0;
    if table != [] {
      var last := table[|table| - 1];
      m := PushAllCaused(b, table[..|table| - 1], clk, u);
      if last.0 == u && Deadline(clk, last.1) > PushAll(b, table[..|table| - 1], clk).Earliest(u) {
        m := |table| - 1;
      }
    }
  }

  // A table without an entry for u leaves the deadline of u alone.
  lemma {:induction false} PushAllOther(b: Bank, table: Table, clk: nat, u: CommandType)
    requires |b.timing| == NUM_TYPES
    requires forall i :: 0 <= i < |table| ==> table[i].0 != u
    ensures PushAll(b, table, clk).Earliest(u) == b.Earliest(u)
    decreases |table|
  {
    if table != [] {
      PushAllOther(b, table[..|table| - 1], clk, u);
    }
  }

  // ... and one whose entries for u are all at most d pushes it no further than clk + d.
  lemma {:induction false} PushAllAtMost(b: Bank, table: Table, clk: nat, u: CommandType, d: nat)
    requires |b.timing| == NUM_TYPES
    requires forall i :: 0 <= i < |table| && table[i].0 == u ==> 0 <= table[i].1 <= d
    ensures PushAll(b, table, clk).Earliest(u) <= b.Earliest(u) || PushAll(b, table, clk).Earliest(u) <= clk + d
    decreases |table|
  {
    if table != [] {
      PushAllAtMost(b, table[..|table| - 1], clk, u, d);
    }
  }

  class BankState {
    var status: Status
    var openRow: int
    var rowHitCount: nat
    var cmdTiming: seq<nat>

    function View(): Bank
      reads this
    {
      Bank(status, openRow, rowHitCount, cmdTiming)
    }

    constructor ()
      ensures View() == IDLE_BANK
    {
      status, openRow, rowHitCount := Closed, -1, 0;
      cmdTiming := seq(NUM_TYPES, i => 0);
    }

    // BankState::GetReadyCommand, a const member: it only reads the bank.
    function GetReadyCommand(cmd: Command, clk: nat): (r: Lookup)
      requires |cmdTiming| == NUM_TYPES
      reads this
      ensures r == GetReady(View(), cmd, clk)
    {
      var t := RequiredType(View(), cmd.cmdType, cmd.addr.row);
      if t.None? then Exit
      else if clk >= cmdTiming[Index(t.value)] then Issue(Command(t.value, cmd.addr, cmd.hexAddr))
      else NotReady
    }

    // BankState::UpdateState; ok is false where the source exits.
    method UpdateState(cmd: Command) returns (ok: bool)
      modifies this
      ensures ok <==> Update(old(View()), cmd).Some?
      ensures View() == if ok then Update(old(View()), cmd).value else old(View())
    {
      match status {
        case Open =>
          match cmd.cmdType {
            case Read => rowHitCount := rowHitCount + 1;
            case Write => rowHitCount := rowHitCount + 1;
            case ReadPrecharge => Close();
            case WritePrecharge => Close();
            case Precharge => Close();
            case _ => return false;
          }
        case Closed =>
          match cmd.cmdType {
            case Refresh =>
            case RefreshBank =>
            case Activate => status, openRow := Open, cmd.addr.row;
            case SrefEnter => status := SelfRefresh;
            case _ => return false;
          }
        case SelfRefresh =>
          if cmd.cmdType != SrefExit {
            return false;
          }
          status := Closed;
      }
      return true;
    }

    method Close()
      modifies this
      ensures View() == old(View()).(status := Closed, openRow := -1, rowHitCount := 0)
    {
      status, openRow, rowHitCount := Closed, -1, 0;
    }

    // BankState::UpdateTiming.
    method UpdateTiming(t: CommandType, time: nat)
      requires |cmdTiming| == NUM_TYPES
      modifies this
      ensures |cmdTiming| == NUM_TYPES
      ensures View() == Push(old(View()), t, time)
    {
      var i := Index(t);
      if time > cmdTiming[i] {
        cmdTiming := cmdTiming[i := time];
      }
    }
  }
}
