// What the banks and windows make of the issued commands, exactly: they hold a command
// back for as long as some pushed delay or some window of activations asks, and no longer.
module TraceExact {
  import opened Options
  import opened DramTypes
  import opened BankModel
  import opened ChannelModel
  import opened ControllerModel
  import opened ControllerTick
  import opened TraceSafety
  import opened ControllerRun
  import opened ControllerTheorems

  // ---- Deadlines ----

  // Entry m of what the i-th command pushed onto bank b is about commands of type u.
  ghost predicate Pushed(cfg: Config, trace: Trace, b: BankId, u: CommandType, i: nat, m: nat) {
    i < |trace| && m < |TableFor(cfg.timing, trace[i].cmd, b)| && TableFor(cfg.timing, trace[i].cmd, b)[m].0 == u
  }

  function PushedTime(cfg: Config, trace: Trace, b: BankId, i: nat, m: nat): nat
    requires i < |trace| && m < |TableFor(cfg.timing, trace[i].cmd, b)|
  {
    Deadline(trace[i].clk, TableFor(cfg.timing, trace[i].cmd, b)[m].1)
  }

  ghost predicate Cause(cfg: Config, trace: Trace, b: BankId, u: CommandType, time: nat, i: nat, m: nat) {
    Pushed(cfg, trace, b, u, i, m) && time == PushedTime(cfg, trace, b, i, m)
  }

  // A bank waits for nothing, or for the delay of some issued command.
  ghost predicate Caused(cfg: Config, trace: Trace, b: BankId, u: CommandType, time: nat) {
    time == 0 || exists i, m :: Cause(cfg, trace, b, u, time, i, m)
  }

  lemma CausedLater(cfg: Config, trace: Trace, e: Issued, b: BankId, u: CommandType, time: nat)
    requires Caused(cfg, trace, b, u, time)
    ensures Caused(cfg, trace + [e], b, u, time)
  {
    if time != 0 {
      var i, m :| Cause(cfg, trace, b, u, time, i, m);
      assert Cause(cfg, trace + [e], b, u, time, i, m);
    }
  }

  // ---- Row hits ----

  // The reads and writes of bank b since its row was opened.
  function Hits(trace: Trace, b: BankId): nat {
    if trace == [] then 0
    else
      var c := trace[|trace| - 1].cmd;
      var before := Hits(trace[..|trace| - 1], b);
      if c.IsRankCommand() || c.Id() != b then before
      else if c.cmdType == Read || c.cmdType == Write then before + 1
      else 0
  }

  ghost predicate BankExact(cfg: Config, bank: Bank, trace: Trace, b: BankId) {
    && |bank.timing| == NUM_TYPES && bank.rowHitCount == Hits(trace, b)
    && forall u :: Caused(cfg, trace, b, u, bank.Earliest(u))
  }

  ghost predicate Exact(cfg: Config, banks: map<BankId, Bank>, trace: Trace) {
    forall b :: b in banks ==> BankExact(cfg, banks[b], trace, b)
  }

  // One bank after a command.
  lemma StepBankExact(cfg: Config, mid: Bank, c: Command, clk: nat, trace: Trace, b: BankId)
    requires |mid.timing| == NUM_TYPES && forall u :: Caused(cfg, trace, b, u, mid.Earliest(u))
    requires mid.rowHitCount == Hits(trace + [Issued(c, clk)], b)
    ensures BankExact(cfg, PushAll(mid, TableFor(cfg.timing, c, b), clk), trace + [Issued(c, clk)], b)
  {
    var now := PushAll(mid, TableFor(cfg.timing, c, b), clk);
    var trace' := trace + [Issued(c, clk)];
    forall u: CommandType
      ensures Caused(cfg, trace', b, u, now.Earliest(u))
    {
      var m := PushAllCaused(mid, TableFor(cfg.timing, c, b), clk, u);
      if now.Earliest(u) == mid.Earliest(u) {
        CausedLater(cfg, trace, Issued(c, clk), b, u, mid.Earliest(u));
      } else {
        assert Cause(cfg, trace', b, u, now.Earliest(u), |trace|, m);
      }
    }
  }

  lemma StepHits(bank: Bank, c: Command, clk: nat, trace: Trace, b: BankId)
    requires bank.Valid() && bank.rowHitCount == Hits(trace, b) && (Covers(c, b) ==> Update(bank, c).Some?)
    requires c.IsRankCommand() ==> c.cmdType == Refresh
    ensures (if Covers(c, b) then Update(bank, c).value else bank).rowHitCount == Hits(trace + [Issued(c, clk)], b)
  {
    assert (trace + [Issued(c, clk)])[..|trace|] == trace;
  }

  lemma StepExact(cfg: Config, ch: Channel, ch': Channel, c: Command, clk: nat, trace: Trace)
    requires Legal(cfg, ch, c, clk) && BanksOk(ch) && UpdateTimingAndStates(cfg, ch, c, clk) == Some(ch')
    requires Exact(cfg, ch.banks, trace)
    ensures Exact(cfg, ch'.banks, trace + [Issued(c, clk)])
  {
    UpdateStateShape(cfg, ch, c);
    forall b | b in ch'.banks
      ensures BankExact(cfg, ch'.banks[b], trace + [Issued(c, clk)], b)
    {
      assert b in ch.banks && BankExact(cfg, ch.banks[b], trace, b);
      BankAfter(cfg, ch, c, clk, b);
      StepHits(ch.banks[b], c, clk, trace, b);
      var mid := if Covers(c, b) then Update(ch.banks[b], c).value else ch.banks[b];
      SameDeadlines(cfg, ch.banks[b], mid, trace, b);
      StepBankExact(cfg, mid, c, clk, trace, b);
    }
  }

  lemma SameDeadlines(cfg: Config, bank: Bank, mid: Bank, trace: Trace, b: BankId)
    requires BankExact(cfg, bank, trace, b) && mid.timing == bank.timing
    ensures forall u :: Caused(cfg, trace, b, u, mid.Earliest(u))
  {
    forall u: CommandType
      ensures Caused(cfg, trace, b, u, mid.Earliest(u))
    {
      assert mid.Earliest(u) == bank.Earliest(u);
    }
  }

  lemma RecordExact(cfg: Config, w: World, c: Option<Command>, st: State)
    requires TickEffect(cfg, w.st, c, st) && BanksOk(w.st.ch) && Exact(cfg, w.st.ch.banks, w.trace)
    ensures var w' := RecordTick(w, Some((st, c))).value; Exact(cfg, w'.st.ch.banks, w'.trace)
  {
    var ch := AfterRefresh(cfg, w.st).ch;
    assert ch.banks == w.st.ch.banks;
    if c.Some? {
      BanksKept(w.st.ch, ch);
      StepExact(cfg, ch, st.ch, c.value, w.st.clk, w.trace);
      RecordedTrace(w, c.value, st);
    }
  }

  lemma RecordedTrace(w: World, c: Command, st: State)
    ensures var w' := RecordTick(w, Some((st, Some(c)))).value;
            w'.st == st && w'.trace == w.trace + [Issued(c, w.st.clk)]
  {
  }

  lemma TickExact(cfg: Config, w: World)
    requires StateInv(cfg, w.st) && Exact(cfg, w.st.ch.banks, w.trace)
    ensures Step(cfg, w, Tick).Some?
    ensures var w' := Step(cfg, w, Tick).value; Exact(cfg, w'.st.ch.banks, w'.trace)
  {
    var c, st := TickIsRecorded(cfg, w);
    RecordExact(cfg, w, c, st);
  }

  lemma BanksKept(ch: Channel, ch': Channel)
    requires BanksOk(ch) && ch'.banks == ch.banks
    ensures BanksOk(ch')
  {
  }

  lemma {:induction false} RunExact(cfg: Config, events: seq<Event>)
    requires cfg.Valid()
    ensures Run(cfg, events).Some? && Exact(cfg, Run(cfg, events).value.st.ch.banks, Run(cfg, events).value.trace)
    decreases |events|
  {
    EveryRun(cfg, events);
    if events != [] {
      var n := |events| - 1;
      RunExact(cfg, events[..n]);
      EveryRun(cfg, events[..n]);
      RunStep(cfg, events);
      StepKeepsExact(cfg, Run(cfg, events[..n]).value, events[n]);
    }
  }

  lemma StepKeepsExact(cfg: Config, w: World, e: Event)
    requires StateInv(cfg, w.st) && Exact(cfg, w.st.ch.banks, w.trace) && Step(cfg, w, e).Some?
    ensures var w' := Step(cfg, w, e).value; Exact(cfg, w'.st.ch.banks, w'.trace)
  {
    match e
    case Accept(a, isWrite, data) => AddParts(cfg, w.st, Transaction(w.nextId, a, 0, 0, isWrite));
    case Tick => TickExact(cfg, w);
    case Return(clk) =>
  }

  lemma BankReadyExactly(cfg: Config, bank: Bank, trace: Trace, b: BankId, u: CommandType, clk: nat)
    requires |bank.timing| == NUM_TYPES && Caused(cfg, trace, b, u, bank.Earliest(u))
    requires forall i, m :: Pushed(cfg, trace, b, u, i, m) ==> bank.Earliest(u) >= PushedTime(cfg, trace, b, i, m)
    ensures clk >= bank.Earliest(u) <==>
            forall i, m :: Pushed(cfg, trace, b, u, i, m) ==> clk >= PushedTime(cfg, trace, b, i, m)
  {
    if bank.Earliest(u) != 0 {
      var i, m :| Cause(cfg, trace, b, u, bank.Earliest(u), i, m);
    }
  }

  lemma RemembersPushed(cfg: Config, banks: map<BankId, Bank>, trace: Trace, b: BankId, u: CommandType)
    requires forall b :: b in banks ==> |banks[b].timing| == NUM_TYPES
    requires Remembered(cfg, banks, trace) && b in banks
    ensures forall i, m :: Pushed(cfg, trace, b, u, i, m) ==> banks[b].Earliest(u) >= PushedTime(cfg, trace, b, i, m)
  {
    forall i: nat, m: nat | Pushed(cfg, trace, b, u, i, m)
      ensures banks[b].Earliest(u) >= PushedTime(cfg, trace, b, i, m)
    {
      assert RemembersEntry(cfg, banks[b], trace[i], b, m);
    }
  }

  // In every run: a bank is ready for a command exactly when every delay that an issued
  // command pushed onto it for commands of that type is over, and it counts the reads
  // and writes since its row was opened.
  lemma ReadyWhenDelaysAreOver(cfg: Config, events: seq<Event>, b: BankId, u: CommandType, clk: nat)
    requires cfg.Valid() && cfg.InRange(b)
    ensures Run(cfg, events).Some?
    ensures var w := Run(cfg, events).value;
            && b in w.st.ch.banks && |w.st.ch.banks[b].timing| == NUM_TYPES
            && w.st.ch.banks[b].rowHitCount == Hits(w.trace, b)
            && (clk >= w.st.ch.banks[b].Earliest(u) <==>
                  forall i, m :: Pushed(cfg, w.trace, b, u, i, m) ==> clk >= PushedTime(cfg, w.trace, b, i, m))
  {
    RunExact(cfg, events);
    EveryRun(cfg, events);
    var w := Run(cfg, events).value;
    assert b in cfg.AllBanks() && BankExact(cfg, w.st.ch.banks[b], w.trace, b);
    RemembersPushed(cfg, w.st.ch.banks, w.trace, b, u);
    BankReadyExactly(cfg, w.st.ch.banks[b], w.trace, b, u, clk);
  }

  // ---- Activation windows ----

  // Fewer than n activations so far, or the n-th last lies `length` cycles back.
  predicate Room(acts: seq<nat>, n: nat, length: nat, clk: nat)
    requires n > 0
  {
    |acts| < n || clk >= acts[|acts| - n] + length
  }

  lemma WindowIsExact(window: seq<nat>, acts: seq<nat>, n: nat, length: nat, clk: nat)
    requires n > 0 && WindowTail(window, acts, n, length) && (acts != [] ==> acts[|acts| - 1] <= clk)
    ensures WindowOk(window, clk, n) <==> Room(acts, n, length, clk)
  {
  }

  // In every run: a rank may be activated exactly when the fourth last activation lies
  // tFAW cycles back, and in GDDR the thirty-second last t32AW cycles.
  lemma ActivationsHeldBackExactly(cfg: Config, events: seq<Event>, r: nat)
    requires cfg.Valid() && r < cfg.ranks
    ensures Run(cfg, events).Some?
    ensures var w := Run(cfg, events).value;
            var acts := Activations(w.trace, r);
            && r < |w.st.ch.fourAw| && r < |w.st.ch.thirtyTwoAw|
            && (ActivationWindowOk(cfg, w.st.ch, r, w.st.clk) <==>
                  Room(acts, 4, cfg.tFAW, w.st.clk) && (cfg.gddr ==> Room(acts, 32, cfg.t32AW, w.st.clk)))
  {
    EveryRun(cfg, events);
    var w := Run(cfg, events).value;
    var acts := Activations(w.trace, r);
    ActivationsBefore(w.trace, r, w.st.clk);
    assert RankWindowsOk(cfg, w.st.ch.fourAw[r], w.st.ch.thirtyTwoAw[r], acts);
    WindowIsExact(w.st.ch.fourAw[r], acts, 4, cfg.tFAW, w.st.clk);
    if cfg.gddr {
      WindowIsExact(w.st.ch.thirtyTwoAw[r], acts, 32, cfg.t32AW, w.st.clk);
    }
  }
}
