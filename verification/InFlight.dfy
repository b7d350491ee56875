// Every pending address stands for exactly one transaction or command in the queues,
// and reads stay ahead of writes to their address.
module InFlight {
  import opened DramTypes
  import opened QueueModel
  import opened Sequences
  import opened ControllerModel

  // (is a write, address)
  datatype Key = Key(isWrite: bool, addr: nat)

  function TransKeys(q: seq<Transaction>): (r: seq<Key>)
    ensures |r| == |q| && forall i :: 0 <= i < |q| ==> r[i] == Key(q[i].isWrite, q[i].addr)
  {
    seq(|q|, i requires 0 <= i < |q| => Key(q[i].isWrite, q[i].addr))
  }

  function CommandKeys(q: seq<Command>): (r: seq<Key>)
    ensures |r| == |q| && forall i :: 0 <= i < |q| ==> r[i] == Key(q[i].IsWrite(), q[i].hexAddr)
  {
    seq(|q|, i requires 0 <= i < |q| => Key(q[i].IsWrite(), q[i].hexAddr))
  }

  function QueueKeys(qs: seq<seq<Command>>): multiset<Key> {
    if qs == [] then multiset{} else multiset(CommandKeys(qs[0])) + QueueKeys(qs[1..])
  }

  // The part of the state that transactions flow through.
  datatype Flow = Flow(
    readQueue: seq<Transaction>, writeBuffer: seq<Transaction>, unifiedQueue: seq<Transaction>,
    pendingRd: seq<Transaction>, pendingWr: seq<Transaction>, queues: seq<seq<Command>>)

  function FlowOf(s: State): Flow {
    Flow(s.readQueue, s.writeBuffer, s.unifiedQueue, s.pendingRd, s.pendingWr, s.cq.queues)
  }

  // What is on its way to the banks.
  function OnTheWay(f: Flow): multiset<Key> {
    multiset(TransKeys(f.readQueue)) + multiset(TransKeys(f.writeBuffer)) + multiset(TransKeys(f.unifiedQueue))
    + QueueKeys(f.queues)
  }

  function ReadKeys(q: seq<Transaction>): (r: set<Key>)
    ensures forall a: nat :: Key(false, a) in r <==> Pending(q, a)
    ensures forall k :: k in r ==> !k.isWrite
  {
    set t | t in q :: Key(false, t.addr)
  }

  // What is pending: each read address once, each write.
  function Awaited(f: Flow): multiset<Key> {
    multiset(ReadKeys(f.pendingRd)) + multiset(TransKeys(f.pendingWr))
  }

  ghost predicate Kinds(cfg: Config, f: Flow) {
    && (forall t :: t in f.pendingRd ==> !t.isWrite)
    && (forall t :: t in f.pendingWr ==> t.isWrite)
    && (forall i, j :: 0 <= i < j < |f.pendingWr| ==> f.pendingWr[i].addr != f.pendingWr[j].addr)
    && (if cfg.unifiedQueue then f.readQueue == [] && f.writeBuffer == []
        else f.unifiedQueue == [] && (forall t :: t in f.readQueue ==> !t.isWrite)
             && (forall t :: t in f.writeBuffer ==> t.isWrite))
  }

  // The write at position j of a command queue, when reads of its address are pending
  // (rd holds the pending read keys), comes after the read command of that address.
  ghost predicate ReadFirst(rd: set<Key>, queue: seq<Command>, j: nat)
    requires j < |queue|
  {
    queue[j].IsWrite() && Key(false, queue[j].hexAddr) in rd ==> Key(false, queue[j].hexAddr) in CommandKeys(queue)[..j]
  }

  predicate NoReadPending(rd: set<Key>, queue: seq<Command>, j: nat)
    requires j < |queue|
  {
    queue[j].IsWrite() ==> Key(false, queue[j].hexAddr) !in rd
  }

  ghost predicate CommandOrder(unified: bool, rd: set<Key>, qs: seq<seq<Command>>) {
    && (forall q, j :: 0 <= q < |qs| && 0 <= j < |qs[q]| ==> ReadFirst(rd, qs[q], j))
    && (!unified ==> forall q, j :: 0 <= q < |qs| && 0 <= j < |qs[q]| ==> NoReadPending(rd, qs[q], j))
  }

  // The waiting write at position j of the unified queue, when reads of its address are
  // pending: the read waits before it, or has become a command already.
  ghost predicate WaitsBehindRead(rd: set<Key>, uq: seq<Key>, qs: multiset<Key>, j: nat)
    requires j < |uq|
  {
    uq[j].isWrite && Key(false, uq[j].addr) in rd ==> Key(false, uq[j].addr) in uq[..j] || Key(false, uq[j].addr) in qs
  }

  ghost predicate TransOrder(rd: set<Key>, uq: seq<Key>, qs: multiset<Key>) {
    forall j :: 0 <= j < |uq| ==> WaitsBehindRead(rd, uq, qs, j)
  }

  ghost predicate Capacity(cfg: Config, f: Flow) {
    && |f.readQueue| <= cfg.transQueueSize && |f.writeBuffer| <= cfg.transQueueSize
    && |f.unifiedQueue| <= cfg.transQueueSize
    && (forall q :: 0 <= q < |f.queues| ==> |f.queues[q]| <= cfg.cmdQueueSize)
  }

  ghost predicate Matched(cfg: Config, f: Flow) {
    && Kinds(cfg, f) && Placed(cfg, f.queues) && OnTheWay(f) == Awaited(f)
    && CommandOrder(cfg.unifiedQueue, ReadKeys(f.pendingRd), f.queues)
    && TransOrder(ReadKeys(f.pendingRd), TransKeys(f.unifiedQueue), QueueKeys(f.queues))
    && Capacity(cfg, f)
  }

  // ---- Multiset bookkeeping ----

  lemma RemoveKey<T>(s: seq<T>, k: nat)
    requires k < |s|
    ensures multiset(s) == multiset(RemoveAt(s, k)) + multiset{s[k]}
  {
    assert s == s[..k] + [s[k]] + s[k + 1..];
  }

  lemma TransAppend(q: seq<Transaction>, t: Transaction)
    ensures TransKeys(q + [t]) == TransKeys(q) + [Key(t.isWrite, t.addr)]
  {
  }

  lemma TransRemove(q: seq<Transaction>, k: nat)
    requires k < |q|
    ensures TransKeys(RemoveAt(q, k)) == RemoveAt(TransKeys(q), k)
    ensures multiset(TransKeys(q)) == multiset(TransKeys(RemoveAt(q, k))) + multiset{Key(q[k].isWrite, q[k].addr)}
  {
    assert TransKeys(RemoveAt(q, k)) == RemoveAt(TransKeys(q), k);
    RemoveKey(TransKeys(q), k);
  }

  lemma {:induction false} QueueUpdate(qs: seq<seq<Command>>, i: nat, q: seq<Command>)
    requires i < |qs|
    ensures QueueKeys(qs[i := q]) + multiset(CommandKeys(qs[i])) == QueueKeys(qs) + multiset(CommandKeys(q))
  {
    if i == 0 {
      assert qs[i := q][1..] == qs[1..];
    } else {
      assert qs[i := q][1..] == qs[1..][i - 1 := q] && qs[i := q][0] == qs[0];
      QueueUpdate(qs[1..], i - 1, q);
      assert QueueKeys(qs[i := q]) == multiset(CommandKeys(qs[0])) + QueueKeys(qs[1..][i - 1 := q]);
      assert QueueKeys(qs) == multiset(CommandKeys(qs[0])) + QueueKeys(qs[1..]);
      AddFront(multiset(CommandKeys(qs[0])), QueueKeys(qs[1..][i - 1 := q]), multiset(CommandKeys(qs[i])),
               QueueKeys(qs[1..]), multiset(CommandKeys(q)));
    }
  }

  lemma AddFront(h: multiset<Key>, a: multiset<Key>, b: multiset<Key>, c: multiset<Key>, d: multiset<Key>)
    requires a + b == c + d
    ensures h + a + b == h + c + d
  {
    assert h + a + b == h + (a + b) && h + c + d == h + (c + d);
  }

  lemma QueueAppend(qs: seq<seq<Command>>, i: nat, c: Command)
    requires i < |qs|
    ensures QueueKeys(qs[i := qs[i] + [c]]) == QueueKeys(qs) + multiset{Key(c.IsWrite(), c.hexAddr)}
  {
    QueueUpdate(qs, i, qs[i] + [c]);
    assert CommandKeys(qs[i] + [c]) == CommandKeys(qs[i]) + [Key(c.IsWrite(), c.hexAddr)];
    Cancel(QueueKeys(qs[i := qs[i] + [c]]), multiset(CommandKeys(qs[i])), QueueKeys(qs), multiset{Key(c.IsWrite(), c.hexAddr)});
  }

  lemma Cancel(a: multiset<Key>, b: multiset<Key>, c: multiset<Key>, d: multiset<Key>)
    requires a + b == c + (b + d)
    ensures a == c + d
  {
    forall x
      ensures a[x] == (c + d)[x]
    {
      assert (a + b)[x] == (c + (b + d))[x];
    }
  }

  lemma QueueRemove(qs: seq<seq<Command>>, i: nat, k: nat)
    requires i < |qs| && k < |qs[i]|
    ensures QueueKeys(qs) == QueueKeys(qs[i := RemoveAt(qs[i], k)]) + multiset{CommandKeys(qs[i])[k]}
  {
    var rest := RemoveAt(qs[i], k);
    QueueUpdate(qs, i, rest);
    assert CommandKeys(rest) == RemoveAt(CommandKeys(qs[i]), k);
    RemoveKey(CommandKeys(qs[i]), k);
    Cancel(QueueKeys(qs), multiset(CommandKeys(rest)), QueueKeys(qs[i := rest]), multiset{CommandKeys(qs[i])[k]});
  }

  // A key on the queues belongs to some command there.
  lemma {:induction false} QueueMember(qs: seq<seq<Command>>, key: Key) returns (q: nat, i: nat)
    requires key in QueueKeys(qs)
    ensures q < |qs| && i < |qs[q]| && CommandKeys(qs[q])[i] == key
  {
    if key in multiset(CommandKeys(qs[0])) {
      q := 0;
      i :| 0 <= i < |qs[0]| && CommandKeys(qs[0])[i] == key;
    } else {
      q, i := QueueMember(qs[1..], key);
      q := q + 1;
    }
  }

  lemma {:induction false} QueueContains(qs: seq<seq<Command>>, q: nat, i: nat)
    requires q < |qs| && i < |qs[q]|
    ensures CommandKeys(qs[q])[i] in QueueKeys(qs)
  {
    if q > 0 {
      QueueContains(qs[1..], q - 1, i);
    }
  }

  // A queued read or write is pending.
  lemma QueuedIsPending(cfg: Config, s: State, q: nat, i: nat)
    requires Matched(cfg, FlowOf(s)) && q < |s.cq.queues| && i < |s.cq.queues[q]|
    ensures var c := s.cq.queues[q][i];
            && (c.IsRead() ==> Pending(s.pendingRd, c.hexAddr))
            && (c.IsWrite() ==> Pending(s.pendingWr, c.hexAddr))
  {
    var c := s.cq.queues[q][i];
    QueueContains(s.cq.queues, q, i);
    AwaitedIsPending(cfg, s, CommandKeys(s.cq.queues[q])[i]);
  }

  lemma AwaitedIsPending(cfg: Config, s: State, key: Key)
    requires Kinds(cfg, FlowOf(s)) && key in Awaited(FlowOf(s))
    ensures if key.isWrite then Pending(s.pendingWr, key.addr) else Pending(s.pendingRd, key.addr)
  {
    if key in ReadKeys(s.pendingRd) {
    } else {
      assert key in TransKeys(s.pendingWr);
      var i :| 0 <= i < |s.pendingWr| && TransKeys(s.pendingWr)[i] == key;
      assert s.pendingWr[i] in s.pendingWr;
    }
  }

  // ---- Accepting a transaction ----

  lemma EnqueueMatched(cfg: Config, s: State, t: Transaction)
    ensures OnTheWay(FlowOf(Enqueue(cfg, s, t))) == OnTheWay(FlowOf(s)) + multiset{Key(t.isWrite, t.addr)}
  {
    TransAppend(s.readQueue, t);
    TransAppend(s.writeBuffer, t);
    TransAppend(s.unifiedQueue, t);
  }

  lemma AddKeepsMatched(cfg: Config, s: State, t: Transaction)
    requires Matched(cfg, FlowOf(s)) && WillAccept(cfg, s, t.isWrite)
    ensures Matched(cfg, FlowOf(AddTransaction(cfg, s, t)))
  {
    var t1 := t.(addedCycle := s.clk);
    if t.isWrite && !Pending(s.pendingWr, t.addr) {
      NewWrite(cfg, s, t1);
    } else if !t.isWrite && !Pending(s.pendingWr, t.addr) && !Pending(s.pendingRd, t.addr) {
      NewRead(cfg, s, t1);
    } else if !t.isWrite && !Pending(s.pendingWr, t.addr) {
      assert ReadKeys(s.pendingRd + [t1]) == ReadKeys(s.pendingRd);
    }
  }

  // ---- Order, on its own ----

  lemma WriteJoinsQueue(rd: set<Key>, uq: seq<Key>, qs: multiset<Key>, a: nat)
    requires TransOrder(rd, uq, qs)
    requires Key(false, a) in rd ==> Key(false, a) in uq || Key(false, a) in qs
    ensures TransOrder(rd, uq + [Key(true, a)], qs)
  {
    var uq' := uq + [Key(true, a)];
    forall j | 0 <= j < |uq'|
      ensures WaitsBehindRead(rd, uq', qs, j)
    {
      if j < |uq| {
        assert WaitsBehindRead(rd, uq, qs, j);
        assert uq'[..j] == uq[..j];
      } else {
        assert uq'[..j] == uq;
      }
    }
  }

  lemma ReadBecomesPending(rd: set<Key>, uq: seq<Key>, qs: multiset<Key>, a: nat, tail: seq<Key>)
    requires TransOrder(rd, uq, qs) && Key(true, a) !in uq && (tail == [] || tail == [Key(false, a)])
    ensures TransOrder(rd + {Key(false, a)}, uq + tail, qs)
  {
    var uq' := uq + tail;
    forall j | 0 <= j < |uq'|
      ensures WaitsBehindRead(rd + {Key(false, a)}, uq', qs, j)
    {
      if j < |uq| {
        assert WaitsBehindRead(rd, uq, qs, j);
        assert uq'[..j] == uq[..j] && uq[j] in uq;
      }
    }
  }

  lemma ReadBecomesPendingCommands(unified: bool, rd: set<Key>, qs: seq<seq<Command>>, a: nat)
    requires CommandOrder(unified, rd, qs) && Key(true, a) !in QueueKeys(qs)
    ensures CommandOrder(unified, rd + {Key(false, a)}, qs)
  {
    forall q, j | 0 <= q < |qs| && 0 <= j < |qs[q]|
      ensures ReadFirst(rd + {Key(false, a)}, qs[q], j) && (!unified ==> NoReadPending(rd + {Key(false, a)}, qs[q], j))
    {
      assert ReadFirst(rd, qs[q], j) && (!unified ==> NoReadPending(rd, qs[q], j));
      QueueContains(qs, q, j);
    }
  }

  // ---- New pending transactions ----

  lemma NewWriteBalance(cfg: Config, s: State, t: Transaction)
    requires OnTheWay(FlowOf(s)) == Awaited(FlowOf(s)) && t.isWrite
    ensures var s2 := Enqueue(cfg, s.(pendingWr := s.pendingWr + [t]), t); OnTheWay(FlowOf(s2)) == Awaited(FlowOf(s2))
  {
    EnqueueMatched(cfg, s.(pendingWr := s.pendingWr + [t]), t);
    TransAppend(s.pendingWr, t);
  }

  lemma NewReadBalance(cfg: Config, s: State, t: Transaction)
    requires OnTheWay(FlowOf(s)) == Awaited(FlowOf(s)) && !t.isWrite && !Pending(s.pendingRd, t.addr)
    ensures ReadKeys(s.pendingRd + [t]) == ReadKeys(s.pendingRd) + {Key(false, t.addr)}
    ensures var s2 := Enqueue(cfg, s.(pendingRd := s.pendingRd + [t]), t); OnTheWay(FlowOf(s2)) == Awaited(FlowOf(s2))
  {
    EnqueueMatched(cfg, s.(pendingRd := s.pendingRd + [t]), t);
    ReadKeysAdd(s.pendingRd, t);
  }

  lemma ReadKeysAdd(q: seq<Transaction>, t: Transaction)
    ensures ReadKeys(q + [t]) == ReadKeys(q) + {Key(false, t.addr)}
    ensures !Pending(q, t.addr) ==> multiset(ReadKeys(q + [t])) == multiset(ReadKeys(q)) + multiset{Key(false, t.addr)}
  {
    forall x | x in ReadKeys(q) + {Key(false, t.addr)}
      ensures x in ReadKeys(q + [t])
    {
      if x in ReadKeys(q) {
        var u :| u in q && x == Key(false, u.addr);
        assert u in q + [t];
      } else {
        assert t in q + [t];
      }
    }
    assert ReadKeys(q + [t]) == ReadKeys(q) + {Key(false, t.addr)};
  }

  lemma NewWrite(cfg: Config, s: State, t: Transaction)
    requires Matched(cfg, FlowOf(s)) && WillAccept(cfg, s, true)
    requires t.isWrite && !Pending(s.pendingWr, t.addr)
    ensures Matched(cfg, FlowOf(Enqueue(cfg, s.(pendingWr := s.pendingWr + [t]), t)))
  {
    NewWriteBalance(cfg, s, t);
    if cfg.unifiedQueue {
      ReadIsSomewhere(cfg, s, t.addr);
      TransAppend(s.unifiedQueue, t);
      WriteJoinsQueue(ReadKeys(s.pendingRd), TransKeys(s.unifiedQueue), QueueKeys(s.cq.queues), t.addr);
    }
  }

  lemma ReadIsSomewhere(cfg: Config, s: State, a: nat)
    requires Kinds(cfg, FlowOf(s)) && cfg.unifiedQueue && OnTheWay(FlowOf(s)) == Awaited(FlowOf(s))
    ensures Key(false, a) in ReadKeys(s.pendingRd) ==>
              Key(false, a) in TransKeys(s.unifiedQueue) || Key(false, a) in QueueKeys(s.cq.queues)
  {
    if Key(false, a) in ReadKeys(s.pendingRd) {
      assert Key(false, a) in Awaited(FlowOf(s));
    }
  }

  lemma NewRead(cfg: Config, s: State, t: Transaction)
    requires Matched(cfg, FlowOf(s)) && WillAccept(cfg, s, false)
    requires !t.isWrite && !Pending(s.pendingWr, t.addr) && !Pending(s.pendingRd, t.addr)
    ensures Matched(cfg, FlowOf(Enqueue(cfg, s.(pendingRd := s.pendingRd + [t]), t)))
  {
    NewReadBalance(cfg, s, t);
    NoWriteOnTheWay(cfg, s, t.addr);
    var rd, uq, qs := ReadKeys(s.pendingRd), TransKeys(s.unifiedQueue), QueueKeys(s.cq.queues);
    ReadBecomesPendingCommands(cfg.unifiedQueue, rd, s.cq.queues, t.addr);
    ReadBecomesPending(rd, uq, qs, t.addr, []);
    ReadBecomesPending(rd, uq, qs, t.addr, [Key(false, t.addr)]);
    TransAppend(s.unifiedQueue, t);
    assert uq + [] == uq;
  }

  lemma NoWriteOnTheWay(cfg: Config, s: State, a: nat)
    requires Matched(cfg, FlowOf(s)) && !Pending(s.pendingWr, a)
    ensures Key(true, a) !in QueueKeys(s.cq.queues) && Key(true, a) !in TransKeys(s.unifiedQueue)
  {
    if Key(true, a) in OnTheWay(FlowOf(s)) {
      AwaitedIsPending(cfg, s, Key(true, a));
    }
  }
}
