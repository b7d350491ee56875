// Scheduling and issuing keep the one-for-one match of pending addresses and queued
// commands, and the order of reads before writes.
module InFlightSteps {
  import opened DramTypes
  import opened QueueModel
  import opened Sequences
  import opened ControllerModel
  import opened InFlight

  // ---- Order, on its own ----

  lemma RemoveAtIndex<T>(s: seq<T>, k: nat, j: nat)
    requires k < |s| && j < |s| - 1
    ensures RemoveAt(s, k)[j] == s[if j < k then j else j + 1]
    ensures forall x :: x in s[..if j < k then j else j + 1] && x != s[k] ==> x in RemoveAt(s, k)[..j]
  {
    var i := if j < k then j else j + 1;
    if j >= k {
      assert RemoveAt(s, k)[..j] == s[..k] + s[k + 1..i];
      assert s[..i] == s[..k] + [s[k]] + s[k + 1..i];
    } else {
      assert RemoveAt(s, k)[..j] == s[..j];
    }
  }

  lemma TransLeaves(rd: set<Key>, uq: seq<Key>, qs: multiset<Key>, k: nat)
    requires TransOrder(rd, uq, qs) && k < |uq|
    ensures TransOrder(rd, RemoveAt(uq, k), qs + multiset{uq[k]})
  {
    forall j | 0 <= j < |uq| - 1
      ensures WaitsBehindRead(rd, RemoveAt(uq, k), qs + multiset{uq[k]}, j)
    {
      RemoveAtIndex(uq, k, j);
      assert WaitsBehindRead(rd, uq, qs, if j < k then j else j + 1);
    }
  }

  lemma CommandJoins(unified: bool, rd: set<Key>, qs: seq<seq<Command>>, q: nat, c: Command)
    requires CommandOrder(unified, rd, qs) && q < |qs|
    requires c.IsWrite() && Key(false, c.hexAddr) in rd ==> unified && Key(false, c.hexAddr) in CommandKeys(qs[q])
    ensures CommandOrder(unified, rd, qs[q := qs[q] + [c]])
  {
    var q' := qs[q] + [c];
    assert CommandKeys(q') == CommandKeys(qs[q]) + [Key(c.IsWrite(), c.hexAddr)];
    forall j | 0 <= j < |q'|
      ensures ReadFirst(rd, q', j) && (!unified ==> NoReadPending(rd, q', j))
    {
      if j < |qs[q]| {
        assert ReadFirst(rd, qs[q], j) && (!unified ==> NoReadPending(rd, qs[q], j));
        assert CommandKeys(q')[..j] == CommandKeys(qs[q])[..j];
      } else {
        assert CommandKeys(q')[..j] == CommandKeys(qs[q]);
      }
    }
    var qs' := qs[q := q'];
    forall p, j | 0 <= p < |qs'| && 0 <= j < |qs'[p]|
      ensures ReadFirst(rd, qs'[p], j) && (!unified ==> NoReadPending(rd, qs'[p], j))
    {
      if p != q {
        assert ReadFirst(rd, qs[p], j) && (!unified ==> NoReadPending(rd, qs[p], j));
      }
    }
  }

  lemma CommandLeaves(unified: bool, rd: set<Key>, rd': set<Key>, qs: seq<seq<Command>>, q: nat, k: nat)
    requires CommandOrder(unified, rd, qs) && q < |qs| && k < |qs[q]| && rd' <= rd
    requires CommandKeys(qs[q])[k] !in rd'
    ensures CommandOrder(unified, rd', qs[q := RemoveAt(qs[q], k)])
  {
    var q' := RemoveAt(qs[q], k);
    assert CommandKeys(q') == RemoveAt(CommandKeys(qs[q]), k);
    forall j | 0 <= j < |q'|
      ensures ReadFirst(rd', q', j) && (!unified ==> NoReadPending(rd', q', j))
    {
      var i := if j < k then j else j + 1;
      RemoveAtIndex(CommandKeys(qs[q]), k, j);
      assert q'[j] == qs[q][i];
      assert ReadFirst(rd, qs[q], i) && (!unified ==> NoReadPending(rd, qs[q], i));
    }
    var qs' := qs[q := q'];
    forall p, j | 0 <= p < |qs'| && 0 <= j < |qs'[p]|
      ensures ReadFirst(rd', qs'[p], j) && (!unified ==> NoReadPending(rd', qs'[p], j))
    {
      if p != q {
        assert ReadFirst(rd, qs[p], j) && (!unified ==> NoReadPending(rd, qs[p], j));
      }
    }
  }

  lemma OrderShrinks(rd: set<Key>, rd': set<Key>, uq: seq<Key>, qs: multiset<Key>, qs': multiset<Key>)
    requires TransOrder(rd, uq, qs) && rd' <= rd
    requires forall k :: k in rd' && k in qs ==> k in qs'
    ensures TransOrder(rd', uq, qs')
  {
    forall j | 0 <= j < |uq|
      ensures WaitsBehindRead(rd', uq, qs', j)
    {
      assert WaitsBehindRead(rd, uq, qs, j);
    }
  }

  // ---- Scheduling ----

  lemma ToCommandPlaced(cfg: Config, t: Transaction)
    requires cfg.Valid()
    ensures var c := ToCommand(cfg, t);
            && WellPlaced(cfg, c, QueueIndex(cfg, c.Id())) && c.Id() == cfg.BankOf(t.addr)
            && c.IsWrite() == t.isWrite && c.hexAddr == t.addr
  {
    QueueOfRank(cfg, cfg.BankOf(t.addr));
  }

  lemma PlacedAfterAdd(cfg: Config, cq: CmdQueue, c: Command)
    requires Placed(cfg, cq.queues) && cq.queueIdx < cfg.NumQueues() && WellPlaced(cfg, c, QueueIndex(cfg, c.Id()))
    ensures Placed(cfg, AddCommand(cfg, cq, c).queues)
  {
    var q := QueueIndex(cfg, c.Id());
    QueueOfRank(cfg, c.Id());
    var cq' := AddCommand(cfg, cq, c);
    forall p, i | 0 <= p < |cq'.queues| && 0 <= i < |cq'.queues[p]|
      ensures WellPlaced(cfg, cq'.queues[p][i], p)
    {
      if p != q || i < |cq.queues[q]| {
        assert WellPlaced(cfg, cq.queues[p][i], p);
      }
    }
  }

  // In unified mode the read of a write's address is already a command when the write
  // is scheduled: it would have been accepted first otherwise.
  lemma ReadWentAhead(cfg: Config, s: State, k: nat)
    requires cfg.Valid() && Matched(cfg, FlowOf(s)) && s.cq.queueIdx < cfg.NumQueues() && cfg.unifiedQueue
    requires k == FirstAcceptable(cfg, s.cq, s.unifiedQueue, 0) < |s.unifiedQueue|
    requires s.unifiedQueue[k].isWrite && Pending(s.pendingRd, s.unifiedQueue[k].addr)
    ensures var a := s.unifiedQueue[k].addr;
            (QueueOfRank(cfg, cfg.BankOf(a)); Key(false, a) in CommandKeys(s.cq.queues[QueueIndex(cfg, cfg.BankOf(a))]))
  {
    var a := s.unifiedQueue[k].addr;
    QueueOfRank(cfg, cfg.BankOf(a));
    var uq := TransKeys(s.unifiedQueue);
    assert WaitsBehindRead(ReadKeys(s.pendingRd), uq, QueueKeys(s.cq.queues), k);
    assert Key(false, a) !in uq[..k];
    var q, i := QueueMember(s.cq.queues, Key(false, a));
    assert WellPlaced(cfg, s.cq.queues[q][i], q);
  }

  // The transaction at position k of the chosen queue becomes a command.
  function Move(cfg: Config, s: State, from: Source, k: nat): State
    requires cfg.Valid() && QueueShape(cfg, s.cq) && k < |Chosen(s, from)|
  {
    ToCommandPlaced(cfg, Chosen(s, from)[k]);
    WithChosen(s, from, RemoveAt(Chosen(s, from), k)).(cq := AddCommand(cfg, s.cq, ToCommand(cfg, Chosen(s, from)[k])))
  }

  lemma MoveBalance(cfg: Config, s: State, from: Source, k: nat)
    requires cfg.Valid() && Placed(cfg, s.cq.queues) && s.cq.queueIdx < cfg.NumQueues() && k < |Chosen(s, from)|
    ensures OnTheWay(FlowOf(Move(cfg, s, from, k))) == OnTheWay(FlowOf(s))
    ensures var t := Chosen(s, from)[k];
            QueueKeys(Move(cfg, s, from, k).cq.queues) == QueueKeys(s.cq.queues) + multiset{Key(t.isWrite, t.addr)}
  {
    var t := Chosen(s, from)[k];
    var c := ToCommand(cfg, t);
    ToCommandPlaced(cfg, t);
    QueueOfRank(cfg, c.Id());
    TransRemove(Chosen(s, from), k);
    QueueAppend(s.cq.queues, QueueIndex(cfg, c.Id()), c);
    KeyMoves(s, WithChosen(s, from, RemoveAt(Chosen(s, from), k)), from, Key(t.isWrite, t.addr), Move(cfg, s, from, k).cq);
  }

  // A key that leaves one of the queues and joins the commands stays on its way.
  lemma KeyMoves(s: State, s': State, from: Source, key: Key, cq: CmdQueue)
    requires s' == WithChosen(s, from, Chosen(s', from))
    requires multiset(TransKeys(Chosen(s, from))) == multiset(TransKeys(Chosen(s', from))) + multiset{key}
    requires QueueKeys(cq.queues) == QueueKeys(s.cq.queues) + multiset{key}
    ensures OnTheWay(FlowOf(s'.(cq := cq))) == OnTheWay(FlowOf(s))
  {
  }

  lemma InRemoveAt<T>(q: seq<T>, k: nat)
    requires k < |q|
    ensures forall x :: x in RemoveAt(q, k) ==> x in q
  {
  }

  lemma MoveKeepsMatched(cfg: Config, s: State, from: Source, k: nat)
    requires cfg.Valid() && Matched(cfg, FlowOf(s)) && s.cq.queueIdx < cfg.NumQueues()
    requires from == Unified <==> cfg.unifiedQueue
    requires k == FirstAcceptable(cfg, s.cq, Chosen(s, from), 0) < |Chosen(s, from)|
    requires !cfg.unifiedQueue ==> !(Chosen(s, from)[k].isWrite && Pending(s.pendingRd, Chosen(s, from)[k].addr))
    ensures Matched(cfg, FlowOf(Move(cfg, s, from, k)))
  {
    var queue := Chosen(s, from);
    var t := queue[k];
    var c := ToCommand(cfg, t);
    var s' := Move(cfg, s, from, k);
    ToCommandPlaced(cfg, t);
    QueueOfRank(cfg, c.Id());
    PlacedAfterAdd(cfg, s.cq, c);
    MoveBalance(cfg, s, from, k);
    InRemoveAt(queue, k);
    assert Kinds(cfg, FlowOf(s'));
    MoveOrder(cfg, s, from, k);
  }

  lemma MoveOrder(cfg: Config, s: State, from: Source, k: nat)
    requires cfg.Valid() && Matched(cfg, FlowOf(s)) && s.cq.queueIdx < cfg.NumQueues()
    requires from == Unified <==> cfg.unifiedQueue
    requires k == FirstAcceptable(cfg, s.cq, Chosen(s, from), 0) < |Chosen(s, from)|
    requires !cfg.unifiedQueue ==> !(Chosen(s, from)[k].isWrite && Pending(s.pendingRd, Chosen(s, from)[k].addr))
    ensures var s' := Move(cfg, s, from, k);
            && CommandOrder(cfg.unifiedQueue, ReadKeys(s'.pendingRd), s'.cq.queues)
            && TransOrder(ReadKeys(s'.pendingRd), TransKeys(s'.unifiedQueue), QueueKeys(s'.cq.queues))
  {
    var t := Chosen(s, from)[k];
    var c := ToCommand(cfg, t);
    ToCommandPlaced(cfg, t);
    QueueOfRank(cfg, c.Id());
    var rd := ReadKeys(s.pendingRd);
    if cfg.unifiedQueue {
      if t.isWrite && Pending(s.pendingRd, t.addr) {
        ReadWentAhead(cfg, s, k);
      }
      TransRemove(s.unifiedQueue, k);
      TransLeaves(rd, TransKeys(s.unifiedQueue), QueueKeys(s.cq.queues), k);
      MoveBalance(cfg, s, from, k);
    }
    CommandJoins(cfg.unifiedQueue, rd, s.cq.queues, QueueIndex(cfg, c.Id()), c);
  }

  lemma ScheduleKeepsMatched(cfg: Config, s: State)
    requires cfg.Valid() && Matched(cfg, FlowOf(s)) && s.cq.queueIdx < cfg.NumQueues()
    ensures Matched(cfg, FlowOf(ScheduleTransaction(cfg, s)))
    ensures var s' := ScheduleTransaction(cfg, s);
            && s' == s.(readQueue := s'.readQueue, writeBuffer := s'.writeBuffer, unifiedQueue := s'.unifiedQueue,
                        writeDraining := s'.writeDraining, cq := s.cq.(queues := s'.cq.queues))
  {
    var draining := Draining(cfg, s);
    var from := ScheduleFrom(cfg, draining);
    var queue := Chosen(s, from);
    var k := FirstAcceptable(cfg, s.cq, queue, 0);
    if k < |queue| && !(!cfg.unifiedQueue && queue[k].isWrite && Pending(s.pendingRd, queue[k].addr)) {
      MoveKeepsMatched(cfg, s, from, k);
      assert FlowOf(ScheduleTransaction(cfg, s)) == FlowOf(Move(cfg, s, from, k));
    } else {
      assert FlowOf(ScheduleTransaction(cfg, s)) == FlowOf(s);
    }
  }

  // ---- Issuing ----

  lemma {:induction false} OthersMembers(q: seq<Transaction>, a: nat)
    ensures forall t :: t in Others(q, a) <==> t in q && t.addr != a
    ensures forall t :: t in Matching(q, a) <==> t in q && t.addr == a
    ensures multiset(q) == multiset(Others(q, a)) + multiset(Matching(q, a))
    decreases |q|
  {
    if q != [] {
      OthersMembers(q[..|q| - 1], a);
      assert q == q[..|q| - 1] + [q[|q| - 1]];
    }
  }

  // A write that the queue lets through has no pending read of its address.
  lemma WriteIssuesAlone(cfg: Config, s: State, r: (CmdQueue, Lookup), i: nat, k: nat)
    requires Matched(cfg, FlowOf(s)) && Picked(cfg, s.cq, s.ch, r, i, k) && r.1.cmd.IsWrite()
    ensures !Pending(s.pendingRd, r.1.cmd.hexAddr)
  {
    var c := r.1.cmd;
    var q := r.0.queueIdx;
    var queue := s.cq.queues[q];
    assert WellPlaced(cfg, queue[i], q);
    assert ReadFirst(ReadKeys(s.pendingRd), queue, i);
    forall p | 0 <= p < i
      ensures CommandKeys(queue)[p] != Key(false, c.hexAddr)
    {
      assert WellPlaced(cfg, s.cq.queues[q][p], q);
    }
  }

  lemma PlacedAfterRemove(cfg: Config, cq: CmdQueue, q: nat, k: nat)
    requires Placed(cfg, cq.queues) && q < |cq.queues| && k < |cq.queues[q]|
    ensures Placed(cfg, WithoutEntry(cq, q, k).queues)
  {
    var qs := cq.queues[q := RemoveAt(cq.queues[q], k)];
    forall p, i | 0 <= p < |qs| && 0 <= i < |qs[p]|
      ensures WellPlaced(cfg, qs[p][i], p)
    {
      assert WellPlaced(cfg, cq.queues[p][if p == q && i >= k then i + 1 else i], p);
    }
  }

  lemma ReadRetireBalance(cfg: Config, s: State, q: nat, k: nat)
    requires Kinds(cfg, FlowOf(s)) && OnTheWay(FlowOf(s)) == Awaited(FlowOf(s)) && q < |s.cq.queues| && k < |s.cq.queues[q]|
    requires var c := s.cq.queues[q][k]; !c.IsWrite() && Pending(s.pendingRd, c.hexAddr)
    ensures var a := s.cq.queues[q][k].hexAddr;
            var qs := s.cq.queues[q := RemoveAt(s.cq.queues[q], k)];
            var s' := s.(cq := s.cq.(queues := qs), pendingRd := Others(s.pendingRd, a));
            && ReadKeys(s'.pendingRd) == ReadKeys(s.pendingRd) - {Key(false, a)}
            && OnTheWay(FlowOf(s')) == Awaited(FlowOf(s'))
            && QueueKeys(s.cq.queues) == QueueKeys(qs) + multiset{Key(false, a)}
  {
    var a := s.cq.queues[q][k].hexAddr;
    QueueRemove(s.cq.queues, q, k);
    OthersMembers(s.pendingRd, a);
    ReadKeysDrop(s.pendingRd, a);
    var rd := ReadKeys(s.pendingRd);
    assert multiset(rd) == multiset(rd - {Key(false, a)}) + multiset{Key(false, a)};
    RetireBalance(s, s.cq.queues[q := RemoveAt(s.cq.queues[q], k)], Others(s.pendingRd, a), s.pendingWr, Key(false, a));
  }

  lemma ReadKeysDrop(q: seq<Transaction>, a: nat)
    ensures ReadKeys(Others(q, a)) == ReadKeys(q) - {Key(false, a)}
  {
    OthersMembers(q, a);
    forall x | x in ReadKeys(q) - {Key(false, a)}
      ensures x in ReadKeys(Others(q, a))
    {
      var t :| t in q && x == Key(false, t.addr);
      assert t in Others(q, a);
    }
  }

  // One key leaves both sides.
  lemma RetireBalance(s: State, qs: seq<seq<Command>>, rd: seq<Transaction>, wr: seq<Transaction>, key: Key)
    requires OnTheWay(FlowOf(s)) == Awaited(FlowOf(s))
    requires QueueKeys(s.cq.queues) == QueueKeys(qs) + multiset{key}
    requires multiset(ReadKeys(s.pendingRd)) + multiset(TransKeys(s.pendingWr))
             == multiset(ReadKeys(rd)) + multiset(TransKeys(wr)) + multiset{key}
    ensures var s' := s.(cq := s.cq.(queues := qs), pendingRd := rd, pendingWr := wr); OnTheWay(FlowOf(s')) == Awaited(FlowOf(s'))
  {
    var s' := s.(cq := s.cq.(queues := qs), pendingRd := rd, pendingWr := wr);
    assert OnTheWay(FlowOf(s)) == OnTheWay(FlowOf(s')) + multiset{key};
    assert Awaited(FlowOf(s)) == Awaited(FlowOf(s')) + multiset{key};
    Cancel(OnTheWay(FlowOf(s')), multiset{key}, Awaited(FlowOf(s')), multiset{});
  }

  // Issuing a read or write picked from the queues answers it and keeps the match.
  lemma IssueKeepsMatched(cfg: Config, s: State, r: (CmdQueue, Lookup), i: nat, k: nat)
    requires Matched(cfg, FlowOf(s)) && Picked(cfg, s.cq, s.ch, r, i, k) && r.1.cmd.IsReadWrite()
    ensures var c := r.1.cmd;
            && (c.IsRead() ==> Pending(s.pendingRd, c.hexAddr))
            && (c.IsWrite() ==> Pending(s.pendingWr, c.hexAddr) && !Pending(s.pendingRd, c.hexAddr))
            && Retire(cfg, s.(cq := r.0), c).Some? && Matched(cfg, FlowOf(Retire(cfg, s.(cq := r.0), c).value))
  {
    var q := r.0.queueIdx;
    QueuedIsPending(cfg, s, q, k);
    PlacedAfterRemove(cfg, s.cq, q, k);
    if r.1.cmd.IsRead() {
      IssueRead(cfg, s, q, k);
      assert FlowOf(ReadAnswered(s, q, k)) == FlowOf(Retire(cfg, s.(cq := r.0), r.1.cmd).value);
    } else {
      WriteIssuesAlone(cfg, s, r, i, k);
      IssueWrite(cfg, s, q, k);
    }
  }

  function WithoutEntry(cq: CmdQueue, q: nat, k: nat): CmdQueue
    requires q < |cq.queues| && k < |cq.queues[q]|
  {
    cq.(queueIdx := q, queues := cq.queues[q := RemoveAt(cq.queues[q], k)])
  }

  function ReadAnswered(s: State, q: nat, k: nat): State
    requires q < |s.cq.queues| && k < |s.cq.queues[q]|
  {
    s.(cq := WithoutEntry(s.cq, q, k), pendingRd := Others(s.pendingRd, s.cq.queues[q][k].hexAddr))
  }

  lemma ReadAnsweredKinds(cfg: Config, s: State, q: nat, k: nat)
    requires Kinds(cfg, FlowOf(s)) && q < |s.cq.queues| && k < |s.cq.queues[q]|
    ensures Kinds(cfg, FlowOf(ReadAnswered(s, q, k)))
  {
    OthersMembers(s.pendingRd, s.cq.queues[q][k].hexAddr);
  }

  lemma IssueRead(cfg: Config, s: State, q: nat, k: nat)
    requires Matched(cfg, FlowOf(s)) && q < |s.cq.queues| && k < |s.cq.queues[q]| && s.cq.queues[q][k].IsRead()
    requires Pending(s.pendingRd, s.cq.queues[q][k].hexAddr) && Placed(cfg, WithoutEntry(s.cq, q, k).queues)
    ensures Matched(cfg, FlowOf(ReadAnswered(s, q, k)))
  {
    var a := s.cq.queues[q][k].hexAddr;
    ReadRetireBalance(cfg, s, q, k);
    ReadAnsweredKinds(cfg, s, q, k);
    var rd := ReadKeys(s.pendingRd);
    CommandLeaves(cfg.unifiedQueue, rd, rd - {Key(false, a)}, s.cq.queues, q, k);
    OrderShrinks(rd, rd - {Key(false, a)}, TransKeys(s.unifiedQueue), QueueKeys(s.cq.queues),
                 QueueKeys(WithoutEntry(s.cq, q, k).queues));
  }

  function WriteRetired(s: State, q: nat, k: nat): State
    requires q < |s.cq.queues| && k < |s.cq.queues[q]| && Pending(s.pendingWr, s.cq.queues[q][k].hexAddr)
  {
    var f := FindPending(s.pendingWr, s.cq.queues[q][k].hexAddr, 0);
    s.(cq := WithoutEntry(s.cq, q, k), pendingWr := RemoveAt(s.pendingWr, f))
  }

  lemma WriteRetireBalance(s: State, q: nat, k: nat)
    requires OnTheWay(FlowOf(s)) == Awaited(FlowOf(s)) && q < |s.cq.queues| && k < |s.cq.queues[q]|
    requires forall t :: t in s.pendingWr ==> t.isWrite
    requires s.cq.queues[q][k].IsWrite() && Pending(s.pendingWr, s.cq.queues[q][k].hexAddr)
    ensures var s' := WriteRetired(s, q, k);
            && OnTheWay(FlowOf(s')) == Awaited(FlowOf(s'))
            && QueueKeys(s.cq.queues) == QueueKeys(s'.cq.queues) + multiset{Key(true, s.cq.queues[q][k].hexAddr)}
  {
    var a := s.cq.queues[q][k].hexAddr;
    var f := FindPending(s.pendingWr, a, 0);
    assert s.pendingWr[f] in s.pendingWr;
    TransRemove(s.pendingWr, f);
    QueueRemove(s.cq.queues, q, k);
    RetireBalance(s, WithoutEntry(s.cq, q, k).queues, s.pendingRd, RemoveAt(s.pendingWr, f), Key(true, a));
  }

  lemma WriteRetiredKinds(cfg: Config, s: State, q: nat, k: nat)
    requires Kinds(cfg, FlowOf(s)) && q < |s.cq.queues| && k < |s.cq.queues[q]|
    requires Pending(s.pendingWr, s.cq.queues[q][k].hexAddr)
    ensures Kinds(cfg, FlowOf(WriteRetired(s, q, k)))
  {
    var f := FindPending(s.pendingWr, s.cq.queues[q][k].hexAddr, 0);
    InRemoveAt(s.pendingWr, f);
    DistinctAfterRemove(s.pendingWr, f);
  }

  lemma IssueWrite(cfg: Config, s: State, q: nat, k: nat)
    requires Matched(cfg, FlowOf(s)) && q < |s.cq.queues| && k < |s.cq.queues[q]| && s.cq.queues[q][k].IsWrite()
    requires Pending(s.pendingWr, s.cq.queues[q][k].hexAddr) && Placed(cfg, WithoutEntry(s.cq, q, k).queues)
    ensures Matched(cfg, FlowOf(WriteRetired(s, q, k)))
  {
    var rd := ReadKeys(s.pendingRd);
    WriteRetiredKinds(cfg, s, q, k);
    WriteRetireBalance(s, q, k);
    CommandLeaves(cfg.unifiedQueue, rd, rd, s.cq.queues, q, k);
    OrderShrinks(rd, rd, TransKeys(s.unifiedQueue), QueueKeys(s.cq.queues), QueueKeys(WriteRetired(s, q, k).cq.queues));
  }

  lemma DistinctAfterRemove(q: seq<Transaction>, f: nat)
    requires f < |q| && forall i, j :: 0 <= i < j < |q| ==> q[i].addr != q[j].addr
    ensures var r := RemoveAt(q, f);
            && (forall i, j :: 0 <= i < j < |r| ==> r[i].addr != r[j].addr)
            && (forall i :: 0 <= i < |r| ==> r[i].addr != q[f].addr)
  {
    var r := RemoveAt(q, f);
    forall i | 0 <= i < |r|
      ensures r[i] == q[if i < f then i else i + 1]
    {
    }
  }
}
