// Whole runs of one channel controller: any interleaving of accepted transactions,
// clock ticks and returned transactions.
module ControllerRun {
  import opened Options
  import opened DramTypes
  import opened ChannelModel
  import opened Sequences
  import opened ControllerModel
  import opened InFlight
  import opened InFlightSteps
  import opened ControllerTick
  import opened TraceSafety

  // The simulator carries no data; `data` is what a write stores, so that the answers to
  // reads can be compared with a plain memory.
  datatype Event =
    | Accept(addr: nat, isWrite: bool, data: int)
    | Tick
    | Return(clk: nat)

  // The controller together with the history of its run. `cells` is the memory behind
  // the issued writes, `buffered` the pending writes, `latest` a plain memory updated
  // whenever a write is accepted. `expected` is what `latest` held when a read was
  // accepted, `answered` what the controller answered it with.
  datatype World = World(
    st: State, trace: Trace, nextId: nat, delivered: seq<Transaction>,
    cells: map<nat, int>, buffered: map<nat, int>, latest: map<nat, int>,
    expected: map<nat, int>, answered: map<nat, int>)

  function At(m: map<nat, int>, a: nat): int {
    if a in m then m[a] else 0
  }

  function AcceptTransaction(cfg: Config, w: World, a: nat, isWrite: bool, data: int): World {
    var t := Transaction(w.nextId, a, 0, 0, isWrite);
    var w1 := w.(st := AddTransaction(cfg, w.st, t), nextId := w.nextId + 1);
    if isWrite then w1.(buffered := w.buffered[a := data], latest := w.latest[a := data])
    else
      var w2 := w1.(expected := w.expected[t.id := At(w.latest, a)]);
      if Pending(w.st.pendingWr, a) then w2.(answered := w.answered[t.id := At(w.buffered, a)]) else w2
  }

  function IdSet(q: seq<Transaction>): set<nat> {
    set t | t in q :: t.id
  }

  function Answers(q: seq<Transaction>, value: int): (r: map<nat, int>)
    ensures forall id :: id in r ==> r[id] == value
    ensures forall id :: id in r <==> exists t :: t in q && t.id == id
  {
    map id | id in IdSet(q) :: value
  }

  // The data effect of an issued command.
  function Observe(w: World, c: Command): World {
    var a := c.hexAddr;
    if c.IsRead() then w.(answered := w.answered + Answers(Matching(w.st.pendingRd, a), At(w.cells, a)))
    else if c.IsWrite() then w.(cells := w.cells[a := At(w.buffered, a)], buffered := w.buffered - {a})
    else w
  }

  // The history after a tick, from what the tick did.
  function RecordTick(w: World, tick: Option<(State, Option<Command>)>): Option<World> {
    match tick
    case None => None
    case Some((st, None)) => Some(w.(st := st))
    case Some((st, Some(c))) => Some(Observe(w, c).(st := st, trace := w.trace + [Issued(c, w.st.clk)]))
  }

  // One event; None where the source exits. A transaction that WillAcceptTransaction
  // refuses is not added.
  ghost function Step(cfg: Config, w: World, e: Event): Option<World>
    requires cfg.Valid()
  {
    match e
    case Accept(a, isWrite, data) =>
      if WillAccept(cfg, w.st, isWrite) then Some(AcceptTransaction(cfg, w, a, isWrite, data)) else Some(w)
    case Tick =>
      RecordTick(w, ClockTick(cfg, w.st))
    case Return(clk) =>
      var (st, t) := ReturnDone(w.st, clk);
      Some(w.(st := st, delivered := if t.Some? then w.delivered + [t.value] else w.delivered))
  }

  ghost function Run(cfg: Config, events: seq<Event>): Option<World>
    requires cfg.Valid()
    decreases |events|
  {
    if events == [] then Some(World(Initial(cfg), [], 0, [], map[], map[], map[], map[], map[]))
    else match Run(cfg, events[..|events| - 1])
      case None => None
      case Some(w) => Step(cfg, w, events[|events| - 1])
  }

  // ---- Data ----

  // The pending writes over the cells are the plain memory.
  ghost predicate CellsOk(latest: map<nat, int>, buffered: map<nat, int>, cells: map<nat, int>, wr: seq<Transaction>) {
    forall a: nat :: At(latest, a) == if Pending(wr, a) then At(buffered, a) else At(cells, a)
  }

  // A pending read expects what its cell holds.
  ghost predicate ReadsOk(rd: seq<Transaction>, expected: map<nat, int>, cells: map<nat, int>) {
    forall t :: t in rd ==> t.id in expected && expected[t.id] == At(cells, t.addr)
  }

  // Every answer given is the expected one.
  ghost predicate AnswersOk(answered: map<nat, int>, expected: map<nat, int>) {
    forall id :: id in answered ==> id in expected && answered[id] == expected[id]
  }

  // Every read of q has its answer.
  ghost predicate AllAnswered(answered: map<nat, int>, q: seq<Transaction>) {
    forall t :: t in q ==> t.isWrite || t.id in answered
  }

  ghost predicate MemoryOk(w: World) {
    && CellsOk(w.latest, w.buffered, w.cells, w.st.pendingWr)
    && ReadsOk(w.st.pendingRd, w.expected, w.cells)
    && AnswersOk(w.answered, w.expected)
    && AllAnswered(w.answered, w.st.returnQueue) && AllAnswered(w.answered, w.delivered)
  }

  // ---- Conservation ----

  function Ids(q: seq<Transaction>): (r: seq<nat>)
    ensures |r| == |q| && forall i :: 0 <= i < |q| ==> r[i] == q[i].id
  {
    seq(|q|, i requires 0 <= i < |q| => q[i].id)
  }

  function Iota(n: nat): (r: seq<nat>)
    ensures |r| == n && forall i :: 0 <= i < n ==> r[i] == i
  {
    seq(n, i => i)
  }

  // Every accepted transaction is, exactly once, returned, waiting to be returned, or a
  // pending read.
  ghost predicate Conserved(w: World) {
    multiset(Iota(w.nextId)) == multiset(Ids(w.delivered)) + multiset(Ids(w.st.returnQueue)) + multiset(Ids(w.st.pendingRd))
  }

  ghost predicate FreshIds(w: World) {
    && (forall t :: t in w.st.pendingRd ==> t.id < w.nextId)
    && (forall id :: id in w.expected ==> id < w.nextId)
  }

  // Everything that speaks of the history of the run.
  ghost predicate HistoryInv(cfg: Config, w: World) {
    && MemoryOk(w) && Conserved(w) && FreshIds(w)
    && Ordered(w.trace, w.st.clk) && TraceOk(cfg, w.st.ch.banks, w.st.ch.fourAw, w.st.ch.thirtyTwoAw, w.trace)
  }

  ghost predicate WorldInv(cfg: Config, w: World) {
    StateInv(cfg, w.st) && HistoryInv(cfg, w)
  }

  // ---- Accept ----

  lemma PendingAppend(q: seq<Transaction>, t: Transaction)
    ensures forall a: nat :: Pending(q + [t], a) <==> Pending(q, a) || a == t.addr
  {
    forall a: nat | Pending(q, a)
      ensures Pending(q + [t], a)
    {
      var u :| u in q && u.addr == a;
      assert u in q + [t];
    }
    assert t in q + [t];
  }

  lemma AddParts(cfg: Config, s: State, t0: Transaction)
    ensures var s' := AddTransaction(cfg, s, t0);
            var t := t0.(addedCycle := s.clk);
            var done := t.(completeCycle := s.clk + 1);
            && s'.ch == s.ch && s'.cq == s.cq && s'.rf == s.rf && s'.clk == s.clk
            && s'.pendingWr == (if t.isWrite && !Pending(s.pendingWr, t.addr) then s.pendingWr + [t] else s.pendingWr)
            && (if !t.isWrite && !Pending(s.pendingWr, t.addr)
                then s'.pendingRd == s.pendingRd + [t] && s'.returnQueue == s.returnQueue
                else s'.pendingRd == s.pendingRd && s'.returnQueue == s.returnQueue + [done])
  {
  }

  lemma AcceptKeepsMemory(cfg: Config, w: World, a: nat, isWrite: bool, data: int)
    requires MemoryOk(w) && FreshIds(w)
    ensures MemoryOk(AcceptTransaction(cfg, w, a, isWrite, data)) && FreshIds(AcceptTransaction(cfg, w, a, isWrite, data))
  {
    if isWrite {
      AcceptedWrite(cfg, w, a, data);
    } else {
      AcceptedRead(cfg, w, a, data);
    }
  }

  lemma AcceptedWrite(cfg: Config, w: World, a: nat, data: int)
    requires MemoryOk(w) && FreshIds(w)
    ensures MemoryOk(AcceptTransaction(cfg, w, a, true, data)) && FreshIds(AcceptTransaction(cfg, w, a, true, data))
  {
    var t := Transaction(w.nextId, a, 0, 0, true);
    AddParts(cfg, w.st, t);
    PendingAppend(w.st.pendingWr, t.(addedCycle := w.st.clk));
    var w' := AcceptTransaction(cfg, w, a, true, data);
    assert CellsOk(w'.latest, w'.buffered, w'.cells, w'.st.pendingWr);
  }

  lemma AcceptedRead(cfg: Config, w: World, a: nat, data: int)
    requires MemoryOk(w) && FreshIds(w)
    ensures MemoryOk(AcceptTransaction(cfg, w, a, false, data)) && FreshIds(AcceptTransaction(cfg, w, a, false, data))
  {
    var t := Transaction(w.nextId, a, 0, 0, false);
    AddParts(cfg, w.st, t);
    var w' := AcceptTransaction(cfg, w, a, false, data);
    ReadExpected(w, a);
    assert At(w.latest, a) == if Pending(w.st.pendingWr, a) then At(w.buffered, a) else At(w.cells, a);
    assert AnswersOk(w'.answered, w'.expected);
  }

  // The new read gets what the plain memory holds; the pending ones keep theirs.
  lemma ReadExpected(w: World, a: nat)
    requires ReadsOk(w.st.pendingRd, w.expected, w.cells) && FreshIds(w)
    ensures ReadsOk(w.st.pendingRd, w.expected[w.nextId := At(w.latest, a)], w.cells)
  {
  }

  lemma IdsAppend(q: seq<Transaction>, t: Transaction)
    ensures Ids(q + [t]) == Ids(q) + [t.id]
  {
  }

  lemma AcceptConserves(cfg: Config, w: World, a: nat, isWrite: bool, data: int)
    requires Conserved(w)
    ensures Conserved(AcceptTransaction(cfg, w, a, isWrite, data))
  {
    var t := Transaction(w.nextId, a, 0, 0, isWrite);
    AddParts(cfg, w.st, t);
    assert Iota(w.nextId + 1) == Iota(w.nextId) + [w.nextId];
    var t1 := t.(addedCycle := w.st.clk);
    IdsAppend(w.st.pendingRd, t1);
    IdsAppend(w.st.returnQueue, t1.(completeCycle := w.st.clk + 1));
  }

  lemma AcceptKeepsState(cfg: Config, s: State, t: Transaction)
    requires StateInv(cfg, s) && WillAccept(cfg, s, t.isWrite)
    ensures StateInv(cfg, AddTransaction(cfg, s, t))
  {
    AddKeepsMatched(cfg, s, t);
    AddParts(cfg, s, t);
  }

  lemma AcceptKeeps(cfg: Config, w: World, a: nat, isWrite: bool, data: int)
    requires HistoryInv(cfg, w)
    ensures HistoryInv(cfg, AcceptTransaction(cfg, w, a, isWrite, data))
  {
    AddParts(cfg, w.st, Transaction(w.nextId, a, 0, 0, isWrite));
    AcceptKeepsMemory(cfg, w, a, isWrite, data);
    AcceptConserves(cfg, w, a, isWrite, data);
  }

  // ---- Return ----

  lemma ReturnKeepsState(cfg: Config, s: State, clk: nat)
    requires StateInv(cfg, s)
    ensures StateInv(cfg, ReturnDone(s, clk).0)
  {
    assert FlowOf(ReturnDone(s, clk).0) == FlowOf(s);
  }

  lemma ReturnKeeps(cfg: Config, w: World, clk: nat)
    requires cfg.Valid() && HistoryInv(cfg, w)
    ensures HistoryInv(cfg, Step(cfg, w, Return(clk)).value)
  {
    var q := w.st.returnQueue;
    var k := FirstDone(q, clk, 0);
    if k < |q| {
      InRemoveAt(q, k);
      ReturnBalance(w.delivered, q, k);
    }
  }

  // A returned transaction moves from one list to the other.
  lemma ReturnBalance(delivered: seq<Transaction>, q: seq<Transaction>, k: nat)
    requires k < |q|
    ensures multiset(Ids(delivered + [q[k]])) + multiset(Ids(RemoveAt(q, k))) == multiset(Ids(delivered)) + multiset(Ids(q))
  {
    RemoveKey(Ids(q), k);
    assert Ids(RemoveAt(q, k)) == RemoveAt(Ids(q), k);
    IdsAppend(delivered, q[k]);
  }

  // ---- Tick ----

  lemma PendingRemove(q: seq<Transaction>, a: nat)
    requires Pending(q, a) && forall i, j :: 0 <= i < j < |q| ==> q[i].addr != q[j].addr
    ensures forall b: nat :: Pending(RemoveAt(q, FindPending(q, a, 0)), b) <==> Pending(q, b) && b != a
  {
    var f := FindPending(q, a, 0);
    DistinctAfterRemove(q, f);
    forall b: nat | Pending(q, b) && b != a
      ensures Pending(RemoveAt(q, f), b)
    {
      var t :| t in q && t.addr == b;
      var i :| 0 <= i < |q| && q[i] == t;
      assert RemoveAt(q, f)[if i < f then i else i - 1] == t;
    }
  }

  lemma ReadKeepsMemory(cfg: Config, w: World, c: Command, st: State)
    requires MemoryOk(w) && Retired(cfg, w.st, c, st) && c.IsRead()
    ensures MemoryOk(Observe(w, c).(st := st))
  {
    var a := c.hexAddr;
    OthersMembers(w.st.pendingRd, a);
    var m := Matching(w.st.pendingRd, a);
    var answers := Answers(m, At(w.cells, a));
    forall id | id in answers
      ensures id in w.expected && answers[id] == w.expected[id]
    {
      var t :| t in m && t.id == id;
      assert t in w.st.pendingRd && t.addr == a;
    }
    AnsweredRead(w.answered, w.st.returnQueue, m, w.st.clk + cfg.readDelay, At(w.cells, a));
  }

  // The reads answered now join the return queue with their answers.
  lemma AnsweredRead(answered: map<nat, int>, q: seq<Transaction>, m: seq<Transaction>, cycle: nat, value: int)
    requires AllAnswered(answered, q)
    ensures AllAnswered(answered + Answers(m, value), q + Completed(m, cycle))
  {
    var r := Completed(m, cycle);
    forall t | t in r
      ensures t.id in Answers(m, value)
    {
      var i :| 0 <= i < |r| && t == r[i];
      assert m[i] in m && m[i].id == t.id;
    }
  }

  lemma WriteKeepsMemory(cfg: Config, w: World, c: Command, st: State)
    requires MemoryOk(w) && Retired(cfg, w.st, c, st) && c.IsWrite() && Kinds(cfg, FlowOf(w.st))
    ensures MemoryOk(Observe(w, c).(st := st))
  {
    PendingRemove(w.st.pendingWr, c.hexAddr);
  }

  lemma IssueKeepsMemory(cfg: Config, w: World, c: Command, st: State)
    requires MemoryOk(w) && Kinds(cfg, FlowOf(w.st)) && Retired(cfg, w.st, c, st)
    ensures MemoryOk(Observe(w, c).(st := st))
  {
    if c.IsRead() {
      ReadKeepsMemory(cfg, w, c, st);
    } else if c.IsWrite() {
      WriteKeepsMemory(cfg, w, c, st);
    }
  }

  lemma {:induction false} IdsOf(q: seq<Transaction>, a: nat)
    ensures multiset(Ids(q)) == multiset(Ids(Others(q, a))) + multiset(Ids(Matching(q, a)))
    decreases |q|
  {
    if q != [] {
      var front, t := q[..|q| - 1], q[|q| - 1];
      IdsOf(front, a);
      assert q == front + [t];
      IdsAppend(front, t);
      IdsAppend(Others(front, a), t);
      IdsAppend(Matching(front, a), t);
    }
  }

  lemma IssueConserves(cfg: Config, w: World, c: Command, st: State)
    requires Conserved(w) && Retired(cfg, w.st, c, st)
    ensures Conserved(w.(st := st))
  {
    if c.IsRead() {
      AnswersBalance(w.st.pendingRd, c.hexAddr, w.st.returnQueue, w.st.clk + cfg.readDelay);
      var d := multiset(Ids(w.delivered));
      var before, now := multiset(Ids(w.st.returnQueue)), multiset(Ids(st.returnQueue));
      var waiting, left := multiset(Ids(w.st.pendingRd)), multiset(Ids(st.pendingRd));
      assert d + now + left == d + (now + left) == d + (before + waiting) == d + before + waiting;
    }
  }

  lemma AnswersBalance(rd: seq<Transaction>, a: nat, queue: seq<Transaction>, cycle: nat)
    ensures var queue' := queue + Completed(Matching(rd, a), cycle);
            multiset(Ids(queue')) + multiset(Ids(Others(rd, a))) == multiset(Ids(queue)) + multiset(Ids(rd))
  {
    var m := Matching(rd, a);
    var done := Completed(m, cycle);
    IdsOf(rd, a);
    assert Ids(done) == Ids(m);
    assert Ids(queue + done) == Ids(queue) + Ids(done);
  }

  lemma IssueKeepsFresh(cfg: Config, w: World, c: Command, st: State)
    requires FreshIds(w) && Retired(cfg, w.st, c, st)
    ensures FreshIds(Observe(w, c).(st := st))
  {
    OthersMembers(w.st.pendingRd, c.hexAddr);
  }

  lemma IssueKeepsTrace(cfg: Config, s: State, c: Command, st: State, trace: Trace)
    requires TickEffect(cfg, s, Some(c), st) && BanksOk(s.ch) && ChannelShape(cfg, st.ch) && Ordered(trace, s.clk)
    requires TraceOk(cfg, s.ch.banks, s.ch.fourAw, s.ch.thirtyTwoAw, trace)
    ensures TraceOk(cfg, st.ch.banks, st.ch.fourAw, st.ch.thirtyTwoAw, trace + [Issued(c, s.clk)])
    ensures Ordered(trace + [Issued(c, s.clk)], st.clk)
  {
    var ch := AfterRefresh(cfg, s).ch;
    assert ch == s.ch.(refreshQ := ch.refreshQ);
    StepTraceOk(cfg, ch, st.ch, c, s.clk, trace);
  }

  lemma IssueKeeps(cfg: Config, w: World, c: Command, st: State)
    requires HistoryInv(cfg, w) && TickEffect(cfg, w.st, Some(c), st)
    requires Kinds(cfg, FlowOf(w.st)) && BanksOk(w.st.ch) && ChannelShape(cfg, st.ch)
    ensures HistoryInv(cfg, Observe(w, c).(st := st, trace := w.trace + [Issued(c, w.st.clk)]))
  {
    IssueKeepsMemory(cfg, w, c, st);
    IssueConserves(cfg, w, c, st);
    IssueKeepsFresh(cfg, w, c, st);
    IssueKeepsTrace(cfg, w.st, c, st, w.trace);
  }

  lemma IdleKeeps(cfg: Config, w: World, st: State)
    requires HistoryInv(cfg, w) && TickEffect(cfg, w.st, None, st)
    ensures HistoryInv(cfg, w.(st := st))
  {
    var ch := AfterRefresh(cfg, w.st).ch;
    assert ch == w.st.ch.(refreshQ := ch.refreshQ);
  }

  lemma RecordKeeps(cfg: Config, w: World, c: Option<Command>, st: State)
    requires WorldInv(cfg, w) && TickEffect(cfg, w.st, c, st) && StateInv(cfg, st)
    ensures RecordTick(w, Some((st, c))).Some? && WorldInv(cfg, RecordTick(w, Some((st, c))).value)
  {
    if c.Some? {
      IssueKeeps(cfg, w, c.value, st);
    } else {
      IdleKeeps(cfg, w, st);
    }
  }

  lemma TickIsRecorded(cfg: Config, w: World) returns (c: Option<Command>, st: State)
    requires StateInv(cfg, w.st)
    ensures Step(cfg, w, Tick) == RecordTick(w, Some((st, c)))
    ensures StateInv(cfg, st) && TickEffect(cfg, w.st, c, st)
  {
    c, st := TickKeepsState(cfg, w.st);
  }

  lemma TickKeeps(cfg: Config, w: World)
    requires WorldInv(cfg, w)
    ensures Step(cfg, w, Tick).Some? && WorldInv(cfg, Step(cfg, w, Tick).value)
  {
    var c, st := TickIsRecorded(cfg, w);
    RecordKeeps(cfg, w, c, st);
  }

  // ---- Runs ----

  lemma AcceptKeepsWorld(cfg: Config, w: World, a: nat, isWrite: bool, data: int)
    requires WorldInv(cfg, w) && WillAccept(cfg, w.st, isWrite)
    ensures WorldInv(cfg, AcceptTransaction(cfg, w, a, isWrite, data))
  {
    AcceptKeepsState(cfg, w.st, Transaction(w.nextId, a, 0, 0, isWrite));
    AcceptKeeps(cfg, w, a, isWrite, data);
  }

  lemma StepKeeps(cfg: Config, w: World, e: Event)
    requires WorldInv(cfg, w)
    ensures Step(cfg, w, e).Some? && WorldInv(cfg, Step(cfg, w, e).value)
  {
    match e
    case Accept(a, isWrite, data) =>
      if WillAccept(cfg, w.st, isWrite) {
        AcceptKeepsWorld(cfg, w, a, isWrite, data);
      }
    case Tick => TickKeeps(cfg, w);
    case Return(clk) =>
      ReturnKeepsState(cfg, w.st, clk);
      ReturnKeeps(cfg, w, clk);
  }

  lemma InitialState(cfg: Config)
    requires cfg.Valid()
    ensures StateInv(cfg, Initial(cfg))
  {
    var s := Initial(cfg);
    EmptyQueues(s.cq.queues);
    cfg.QueuesExist();
    assert OnTheWay(FlowOf(s)) == Awaited(FlowOf(s));
  }

  lemma {:induction false} EmptyQueues(qs: seq<seq<Command>>)
    requires forall q :: 0 <= q < |qs| ==> qs[q] == []
    ensures QueueKeys(qs) == multiset{}
  {
    if qs != [] {
      EmptyQueues(qs[1..]);
    }
  }

  lemma InitialHistory(cfg: Config)
    requires cfg.Valid()
    ensures HistoryInv(cfg, World(Initial(cfg), [], 0, [], map[], map[], map[], map[], map[]))
  {
  }

  // No run exits, and every run keeps every invariant.
  lemma {:induction false} EveryRun(cfg: Config, events: seq<Event>)
    requires cfg.Valid()
    ensures Run(cfg, events).Some? && WorldInv(cfg, Run(cfg, events).value)
    decreases |events|
  {
    if events == [] {
      InitialState(cfg);
      InitialHistory(cfg);
    } else {
      EveryRun(cfg, events[..|events| - 1]);
      StepKeeps(cfg, Run(cfg, events[..|events| - 1]).value, events[|events| - 1]);
    }
  }
}
