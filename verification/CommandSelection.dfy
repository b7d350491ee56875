// Which command goes next, stated over the banks, the windows and the queues alone: the
// first entry that nothing withholds, in the first open queue that has one, in turn.
module CommandSelection {
  import opened DramTypes
  import opened BankModel
  import opened ChannelModel
  import opened QueueModel

  // ---- What withholds an entry ----

  // The command that takes an access one step on: activate a closed bank, go out on a
  // row hit, precharge on a row miss.
  function StepOf(b: Bank, c: Command): CommandType {
    if b.status == Closed then Activate else if b.openRow == c.addr.row then c.cmdType else Precharge
  }

  // The rank has seen fewer than four (32) activations within the stored window, or the
  // oldest of them has expired.
  ghost predicate MayActivate(cfg: Config, ch: Channel, rank: int, clk: nat)
    requires 0 <= rank < |ch.fourAw| && 0 <= rank < |ch.thirtyTwoAw|
  {
    && (|ch.fourAw[rank]| < 4 || clk >= ch.fourAw[rank][0])
    && (cfg.gddr ==> |ch.thirtyTwoAw[rank]| < 32 || clk >= ch.thirtyTwoAw[rank][0])
  }

  ghost predicate OlderCommandForBank(queue: seq<Command>, i: nat)
    requires i < |queue|
  {
    exists p :: 0 <= p < i && queue[p].Id() == queue[i].Id()
  }

  ghost predicate RowHitFrom(queue: seq<Command>, i: nat, row: int)
    requires i < |queue|
  {
    exists p :: i <= p < |queue| && queue[p].Id() == queue[i].Id() && queue[p].addr.row == row
  }

  ghost predicate ReadOfPlaceBefore(queue: seq<Command>, i: nat)
    requires i < |queue|
  {
    exists p :: 0 <= p < i && (queue[p].cmdType == Read || queue[p].cmdType == ReadPrecharge) &&
      queue[p].addr.row == queue[i].addr.row && queue[p].addr.column == queue[i].addr.column &&
      queue[p].addr.bankgroup == queue[i].addr.bankgroup && queue[p].addr.bank == queue[i].addr.bank
  }

  ghost predicate Withheld(cfg: Config, ch: Channel, queue: seq<Command>, clk: nat, i: nat)
    requires ChannelShape(cfg, ch) && i < |queue| && cfg.InRange(queue[i].Id())
  {
    var c := queue[i];
    var b := ch.banks[c.Id()];
    || clk < b.Earliest(StepOf(b, c))
    || match StepOf(b, c)
       case Activate => !MayActivate(cfg, ch, c.addr.rank, clk)
       case Precharge => OlderCommandForBank(queue, i) || (RowHitFrom(queue, i, b.openRow) && b.rowHitCount < 4)
       case Write => ReadOfPlaceBefore(queue, i)
       case WritePrecharge => ReadOfPlaceBefore(queue, i)
       case _ => false
  }

  // ---- One queue ----

  ghost predicate Accesses(cfg: Config, queue: seq<Command>) {
    forall i :: 0 <= i < |queue| ==> queue[i].IsReadWrite() && cfg.InRange(queue[i].Id())
  }

  ghost predicate AllWithheld(cfg: Config, ch: Channel, queue: seq<Command>, clk: nat, n: nat)
    requires ChannelShape(cfg, ch) && n <= |queue| && Accesses(cfg, queue)
  {
    forall i :: 0 <= i < n ==> Withheld(cfg, ch, queue, clk, i)
  }

  // Entry i is the first that nothing withholds.
  ghost predicate FirstFree(cfg: Config, ch: Channel, queue: seq<Command>, clk: nat, i: nat)
    requires ChannelShape(cfg, ch) && Accesses(cfg, queue)
  {
    i < |queue| && AllWithheld(cfg, ch, queue, clk, i) && !Withheld(cfg, ch, queue, clk, i)
  }

  // The next step of an entry, addressed as the entry is.
  function StepCommand(ch: Channel, c: Command): Command
    requires c.Id() in ch.banks
  {
    Command(StepOf(ch.banks[c.Id()], c), c.addr, c.hexAddr)
  }

  // The answer of a search through one queue.
  ghost predicate Answers(cfg: Config, ch: Channel, queue: seq<Command>, clk: nat, r: Lookup) {
    && ChannelShape(cfg, ch) && Accesses(cfg, queue)
    && match r
       case Exit => false
       case NotReady => AllWithheld(cfg, ch, queue, clk, |queue|)
       case Issue(c) => exists i: nat :: FirstFree(cfg, ch, queue, clk, i) && c == StepCommand(ch, queue[i])
  }

  lemma ReadyStep(cfg: Config, ch: Channel, c: Command, clk: nat)
    requires ChannelShape(cfg, ch) && BanksOk(ch) && c.IsReadWrite() && cfg.InRange(c.Id())
    ensures var b := ch.banks[c.Id()];
            ReadyCommand(cfg, ch, c, clk) ==
            if clk < b.Earliest(StepOf(b, c)) || (StepOf(b, c) == Activate && !MayActivate(cfg, ch, c.addr.rank, clk))
            then NotReady else Issue(StepCommand(ch, c))
  {
  }

  lemma CandidateStep(cfg: Config, ch: Channel, queue: seq<Command>, clk: nat, i: nat)
    requires ChannelShape(cfg, ch) && BanksOk(ch) && Accesses(cfg, queue) && i < |queue|
    ensures Candidate(cfg, ch, queue, clk, i) ==
            if Withheld(cfg, ch, queue, clk, i) then NotReady else Issue(StepCommand(ch, queue[i]))
  {
    var c := queue[i];
    ReadyStep(cfg, ch, c, clk);
    ArbitrationSpec(ch, queue, i);
    DependencySpec(queue, i);
  }

  lemma ArbitrationSpec(ch: Channel, queue: seq<Command>, i: nat)
    requires i < |queue| && queue[i].Id() in ch.banks
    ensures var b := ch.banks[queue[i].Id()];
            ArbitratePrecharge(ch, queue, i) <==>
            !OlderCommandForBank(queue, i) && (RowHitFrom(queue, i, b.openRow) ==> b.rowHitCount >= 4)
  {
  }

  lemma DependencySpec(queue: seq<Command>, i: nat)
    requires i < |queue|
    ensures HasRWDependency(queue, i) <==> ReadOfPlaceBefore(queue, i)
  {
  }

  lemma {:induction false} SearchFrom(cfg: Config, ch: Channel, queue: seq<Command>, clk: nat, i: nat)
    requires ChannelShape(cfg, ch) && BanksOk(ch) && Accesses(cfg, queue) && i <= |queue|
    requires AllWithheld(cfg, ch, queue, clk, i)
    ensures Answers(cfg, ch, queue, clk, FirstReadyInQueue(cfg, ch, queue, clk, i))
    decreases |queue| - i
  {
    if i < |queue| {
      CandidateStep(cfg, ch, queue, clk, i);
      if Withheld(cfg, ch, queue, clk, i) {
        SearchFrom(cfg, ch, queue, clk, i + 1);
      } else {
        assert FirstFree(cfg, ch, queue, clk, i);
      }
    }
  }

  // The search in one queue answers with the first entry that nothing withholds.
  lemma SearchAnswers(cfg: Config, ch: Channel, queue: seq<Command>, clk: nat)
    requires ChannelShape(cfg, ch) && BanksOk(ch) && Accesses(cfg, queue)
    ensures Answers(cfg, ch, queue, clk, FirstReadyInQueue(cfg, ch, queue, clk, 0))
  {
    SearchFrom(cfg, ch, queue, clk, 0);
  }

  // Of two equal entries the first is never withheld when the second goes out.
  lemma EqualEntryIsFree(cfg: Config, ch: Channel, queue: seq<Command>, clk: nat, p: nat, i: nat)
    requires ChannelShape(cfg, ch) && Accesses(cfg, queue) && p < i < |queue| && queue[p] == queue[i]
    requires !Withheld(cfg, ch, queue, clk, i) && StepCommand(ch, queue[i]).IsReadWrite()
    ensures !Withheld(cfg, ch, queue, clk, p)
  {
  }

  // ---- The queues in turn ----

  // Queue number n after the current one, around the ring of N queues.
  function Slot(idx: nat, n: nat, N: nat): (q: nat)
    requires idx < N && n <= N
    ensures q < N
  {
    if idx + n < N then idx + n else idx + n - N
  }

  // Queue q yields an entry: no refresh keeps it closed, and not every entry is withheld.
  ghost predicate Yields(cfg: Config, cq: CmdQueue, ch: Channel, q: nat) {
    && ChannelShape(cfg, ch) && q < |cq.queues| && Accesses(cfg, cq.queues[q])
    && !(cq.inRef && q in cq.refIndices) && !AllWithheld(cfg, ch, cq.queues[q], cq.clk, |cq.queues[q]|)
  }

  // Entry i of queue q goes out with its next step: a read or write leaves its place in
  // the queue, nothing else moves.
  ghost function Taken(cfg: Config, cq: CmdQueue, ch: Channel, q: nat, i: nat): (CmdQueue, Lookup)
    requires q < |cq.queues| && i < |cq.queues[q]| && cq.queues[q][i].Id() in ch.banks
  {
    var queue := cq.queues[q];
    var c := StepCommand(ch, queue[i]);
    (cq.(queueIdx := q, queues := if c.IsReadWrite() then cq.queues[q := queue[..i] + queue[i + 1..]] else cq.queues),
     Issue(c))
  }

  // The first m queues behind the current one yield nothing.
  ghost predicate Passed(cfg: Config, cq: CmdQueue, ch: Channel, m: nat) {
    && cq.queueIdx < |cq.queues| && m <= |cq.queues|
    && forall d :: 1 <= d <= m ==> !Yields(cfg, cq, ch, Slot(cq.queueIdx, d, |cq.queues|))
  }

  // The answer is the first free entry i of the n-th queue from the current one, the
  // first that yields anything.
  ghost predicate Selects(cfg: Config, cq: CmdQueue, ch: Channel, r: (CmdQueue, Lookup), n: nat, i: nat) {
    && 1 <= n <= |cq.queues| && Passed(cfg, cq, ch, n - 1)
    && var q := Slot(cq.queueIdx, n, |cq.queues|);
       && Yields(cfg, cq, ch, q) && FirstFree(cfg, ch, cq.queues[q], cq.clk, i)
       && r == Taken(cfg, cq, ch, q, i)
  }

  ghost predicate NoneYields(cfg: Config, cq: CmdQueue, ch: Channel) {
    forall q :: 0 <= q < |cq.queues| ==> !Yields(cfg, cq, ch, q)
  }

  lemma PlacedAccesses(cfg: Config, cq: CmdQueue, q: nat)
    requires Placed(cfg, cq.queues) && q < |cq.queues|
    ensures Accesses(cfg, cq.queues[q])
  {
    forall i | 0 <= i < |cq.queues[q]|
      ensures cq.queues[q][i].IsReadWrite() && cfg.InRange(cq.queues[q][i].Id())
    {
      assert WellPlaced(cfg, cq.queues[q][i], q);
    }
  }

  // The entry that leaves is the entry selected.
  lemma FoundIsSelected(cfg: Config, ch: Channel, queue: seq<Command>, clk: nat, q: nat, i: nat)
    requires ChannelShape(cfg, ch) && Accesses(cfg, queue) && FirstFree(cfg, ch, queue, clk, i)
    requires forall j :: 0 <= j < |queue| ==> WellPlaced(cfg, queue[j], q)
    requires StepCommand(ch, queue[i]).IsReadWrite()
    ensures StepCommand(ch, queue[i]) == queue[i] && FindCommand(queue, queue[i], 0) == i
  {
    var k := FindCommand(queue, queue[i], 0);
    assert WellPlaced(cfg, queue[i], q) && WellPlaced(cfg, queue[k], q);
    if k < i {
      EqualEntryIsFree(cfg, ch, queue, clk, k, i);
      assert false;
    }
  }

  // What the current queue's turn yields when its search ends at entry i.
  lemma TurnTakes(cfg: Config, cq: CmdQueue, ch: Channel, i: nat)
    requires Placed(cfg, cq.queues) && cq.queueIdx < cfg.NumQueues() && ChannelShape(cfg, ch)
    requires Yields(cfg, cq, ch, cq.queueIdx) && FirstFree(cfg, ch, cq.queues[cq.queueIdx], cq.clk, i)
    requires FirstReadyInQueue(cfg, ch, cq.queues[cq.queueIdx], cq.clk, 0) == Issue(StepCommand(ch, cq.queues[cq.queueIdx][i]))
    ensures TryQueue(cfg, cq, ch) == Taken(cfg, cq, ch, cq.queueIdx, i)
  {
    var q := cq.queueIdx;
    var queue := cq.queues[q];
    if StepCommand(ch, queue[i]).IsReadWrite() {
      forall j | 0 <= j < |queue|
        ensures WellPlaced(cfg, queue[j], q)
      {
        assert WellPlaced(cfg, cq.queues[q][j], q);
      }
      FoundIsSelected(cfg, ch, queue, cq.clk, q, i);
    }
  }

  // The current queue's turn.
  lemma TurnAnswers(cfg: Config, cq: CmdQueue, ch: Channel) returns (i: nat)
    requires Placed(cfg, cq.queues) && cq.queueIdx < cfg.NumQueues() && ChannelShape(cfg, ch) && BanksOk(ch)
    ensures if Yields(cfg, cq, ch, cq.queueIdx) then
              FirstFree(cfg, ch, cq.queues[cq.queueIdx], cq.clk, i) &&
              TryQueue(cfg, cq, ch) == Taken(cfg, cq, ch, cq.queueIdx, i)
            else TryQueue(cfg, cq, ch).1 == NotReady
  {
    i := 0;
    var queue := cq.queues[cq.queueIdx];
    PlacedAccesses(cfg, cq, cq.queueIdx);
    SearchAnswers(cfg, ch, queue, cq.clk);
    var f := FirstReadyInQueue(cfg, ch, queue, cq.clk, 0);
    if f.Issue? {
      i := FreeEntry(cfg, ch, queue, cq.clk, f);
      if Yields(cfg, cq, ch, cq.queueIdx) {
        TurnTakes(cfg, cq, ch, i);
      }
    }
  }

  lemma FreeEntry(cfg: Config, ch: Channel, queue: seq<Command>, clk: nat, r: Lookup) returns (i: nat)
    requires Answers(cfg, ch, queue, clk, r) && r.Issue?
    ensures FirstFree(cfg, ch, queue, clk, i) && r == Issue(StepCommand(ch, queue[i]))
    ensures !AllWithheld(cfg, ch, queue, clk, |queue|)
  {
    i :| FirstFree(cfg, ch, queue, clk, i) && r.cmd == StepCommand(ch, queue[i]);
  }

  ghost function At(cq: CmdQueue, m: nat): CmdQueue
    requires cq.queueIdx < |cq.queues| && m <= |cq.queues|
  {
    cq.(queueIdx := Slot(cq.queueIdx, m, |cq.queues|))
  }

  // What the search yields with m queues behind it.
  ghost function Search(cfg: Config, cq: CmdQueue, ch: Channel, m: nat): (CmdQueue, Lookup)
    requires Placed(cfg, cq.queues) && cq.queueIdx < |cq.queues| && ChannelShape(cfg, ch) && m <= |cq.queues|
  {
    GetCommandToIssue(cfg, At(cq, m), ch, |cq.queues| - m)
  }

  // The n-th queue has its turn.
  lemma YieldTurn(cfg: Config, cq: CmdQueue, ch: Channel, n: nat) returns (i: nat)
    requires Placed(cfg, cq.queues) && ChannelShape(cfg, ch) && BanksOk(ch)
    requires cq.queueIdx < |cq.queues| && 1 <= n <= |cq.queues|
    requires Yields(cfg, cq, ch, Slot(cq.queueIdx, n, |cq.queues|))
    ensures var q := Slot(cq.queueIdx, n, |cq.queues|);
            FirstFree(cfg, ch, cq.queues[q], cq.clk, i) && Search(cfg, cq, ch, n - 1) == Taken(cfg, cq, ch, q, i)
  {
    NextTurn(cfg, cq, ch, n);
    i := TurnAnswers(cfg, At(cq, n), ch);
  }

  lemma SilentTurn(cfg: Config, cq: CmdQueue, ch: Channel, n: nat)
    requires Placed(cfg, cq.queues) && ChannelShape(cfg, ch) && BanksOk(ch)
    requires cq.queueIdx < |cq.queues| && 1 <= n <= |cq.queues|
    requires !Yields(cfg, cq, ch, Slot(cq.queueIdx, n, |cq.queues|))
    ensures Search(cfg, cq, ch, n - 1) == Search(cfg, cq, ch, n)
  {
    NextTurn(cfg, cq, ch, n);
    var i := TurnAnswers(cfg, At(cq, n), ch);
  }

  lemma NextTurn(cfg: Config, cq: CmdQueue, ch: Channel, n: nat)
    requires Placed(cfg, cq.queues) && ChannelShape(cfg, ch)
    requires cq.queueIdx < |cq.queues| && 1 <= n <= |cq.queues|
    ensures var t := TryQueue(cfg, At(cq, n), ch);
            Search(cfg, cq, ch, n - 1) == if t.1.NotReady? then Search(cfg, cq, ch, n) else t
    ensures Yields(cfg, At(cq, n), ch, At(cq, n).queueIdx) <==> Yields(cfg, cq, ch, At(cq, n).queueIdx)
  {
    assert At(cq, n - 1).(queueIdx := NextIndex(cfg, At(cq, n - 1).queueIdx)) == At(cq, n);
  }

  lemma PassedBefore(cfg: Config, cq: CmdQueue, ch: Channel, n: nat)
    requires Passed(cfg, cq, ch, n) && n > 0
    ensures Passed(cfg, cq, ch, n - 1) && !Yields(cfg, cq, ch, Slot(cq.queueIdx, n, |cq.queues|))
  {
  }

  // The search comes to every queue behind silent ones.
  lemma {:induction false} SilentTurns(cfg: Config, cq: CmdQueue, ch: Channel, n: nat)
    requires Placed(cfg, cq.queues) && ChannelShape(cfg, ch) && BanksOk(ch) && Passed(cfg, cq, ch, n)
    ensures Search(cfg, cq, ch, 0) == Search(cfg, cq, ch, n)
  {
    if n > 0 {
      PassedBefore(cfg, cq, ch, n);
      SilentTurns(cfg, cq, ch, n - 1);
      SilentTurn(cfg, cq, ch, n);
    }
  }

  // The queues up to the first that yields.
  lemma {:induction false} FirstYield(cfg: Config, cq: CmdQueue, ch: Channel, m: nat) returns (n: nat)
    requires Passed(cfg, cq, ch, m)
    ensures Passed(cfg, cq, ch, n)
    ensures n == |cq.queues| || Yields(cfg, cq, ch, Slot(cq.queueIdx, n + 1, |cq.queues|))
    decreases |cq.queues| - m
  {
    n := m;
    if m < |cq.queues| && !Yields(cfg, cq, ch, Slot(cq.queueIdx, m + 1, |cq.queues|)) {
      n := FirstYield(cfg, cq, ch, m + 1);
    }
  }

  // What GetCommandToIssue makes of the queues.
  ghost predicate Selected(cfg: Config, cq: CmdQueue, ch: Channel, r: (CmdQueue, Lookup)) {
    if NoneYields(cfg, cq, ch) then r == (cq, NotReady) else exists n, i :: Selects(cfg, cq, ch, r, n, i)
  }

  lemma WholeSearch(cfg: Config, cq: CmdQueue, ch: Channel)
    requires Placed(cfg, cq.queues) && cq.queueIdx < |cq.queues| && ChannelShape(cfg, ch)
    ensures Search(cfg, cq, ch, 0) == GetCommandToIssue(cfg, cq, ch, |cq.queues|)
    ensures Search(cfg, cq, ch, |cq.queues|) == (cq, NotReady)
  {
    assert At(cq, 0) == cq && At(cq, |cq.queues|) == cq;
  }

  // GetCommandToIssue looks at every queue once, beginning after the current one, and
  // answers with the first entry that nothing withholds in the first queue that has one;
  // it answers with nothing, and changes nothing, exactly when no queue yields an entry.
  lemma CommandSelected(cfg: Config, cq: CmdQueue, ch: Channel) returns (n: nat, i: nat)
    requires Placed(cfg, cq.queues) && cq.queueIdx < cfg.NumQueues() && ChannelShape(cfg, ch) && BanksOk(ch)
    ensures var r := GetCommandToIssue(cfg, cq, ch, cfg.NumQueues());
            if NoneYields(cfg, cq, ch) then r == (cq, NotReady) else Selects(cfg, cq, ch, r, n, i)
  {
    WholeSearch(cfg, cq, ch);
    var m := FirstYield(cfg, cq, ch, 0);
    SilentTurns(cfg, cq, ch, m);
    n, i := m + 1, 0;
    if m == |cq.queues| {
      AllPassed(cfg, cq, ch);
    } else {
      assert Yields(cfg, cq, ch, Slot(cq.queueIdx, m + 1, |cq.queues|));
      i := YieldSelects(cfg, cq, ch, n);
    }
  }

  lemma YieldSelects(cfg: Config, cq: CmdQueue, ch: Channel, n: nat) returns (i: nat)
    requires Placed(cfg, cq.queues) && ChannelShape(cfg, ch) && BanksOk(ch)
    requires 1 <= n <= |cq.queues| && Passed(cfg, cq, ch, n - 1) && Yields(cfg, cq, ch, Slot(cq.queueIdx, n, |cq.queues|))
    ensures Selects(cfg, cq, ch, Search(cfg, cq, ch, n - 1), n, i)
  {
    i := YieldTurn(cfg, cq, ch, n);
  }

  lemma AllPassed(cfg: Config, cq: CmdQueue, ch: Channel)
    requires Passed(cfg, cq, ch, |cq.queues|)
    ensures NoneYields(cfg, cq, ch)
  {
    forall q | 0 <= q < |cq.queues|
      ensures !Yields(cfg, cq, ch, q)
    {
      var d := if q > cq.queueIdx then q - cq.queueIdx else q + |cq.queues| - cq.queueIdx;
      assert Slot(cq.queueIdx, d, |cq.queues|) == q;
    }
  }

  // ---- The queues a refresh closes ----

  // One queue per bank, or one per rank.
  lemma QueuesApart(cfg: Config, a: BankId, b: BankId)
    requires cfg.InRange(a) && cfg.InRange(b)
    ensures QueueIndex(cfg, a) == QueueIndex(cfg, b) <==> if cfg.perBankQueues then a == b else a.rank == b.rank
  {
    if cfg.perBankQueues {
      RestOf(cfg, a);
      RestOf(cfg, b);
      Flatten(a.group, a.bank, cfg.bankgroups, cfg.banksPerGroup);
      Flatten(b.group, b.bank, cfg.bankgroups, cfg.banksPerGroup);
    }
  }

  lemma RestOf(cfg: Config, b: BankId)
    requires cfg.InRange(b) && cfg.perBankQueues
    ensures var rest := b.group * cfg.banksPerGroup + b.bank;
            QueueIndex(cfg, b) == b.rank * cfg.Banks() + rest && 0 <= rest < cfg.Banks()
            && QueueIndex(cfg, b) / cfg.Banks() == b.rank
  {
    Flatten(b.group, b.bank, cfg.bankgroups, cfg.banksPerGroup);
    QueueOfRank(cfg, b);
  }

  // Every queue belongs to a bank of its rank.
  lemma BankOfQueue(cfg: Config, q: nat) returns (b: BankId)
    requires cfg.Valid() && q < cfg.NumQueues()
    ensures cfg.InRange(b) && QueueIndex(cfg, b) == q
    ensures cfg.perBankQueues ==> cfg.Banks() > 0 && b.rank == q / cfg.Banks()
  {
    if cfg.perBankQueues {
      var r, rest := Divide(q, cfg.ranks, cfg.Banks());
      var g, k := Divide(rest, cfg.bankgroups, cfg.banksPerGroup);
      b := BankId(r, g, k);
      QueueOfRank(cfg, b);
    } else {
      b := BankId(q, 0, 0);
    }
  }

  lemma Divide(x: nat, R: nat, n: nat) returns (r: nat, rest: nat)
    requires x < R * n
    ensures r < R && rest < n && x == r * n + rest
  {
    PositiveFactor(R, n);
    r, rest := x / n, x % n;
    if r >= R {
      MulMono(R, r, n);
    }
  }

  lemma PositiveFactor(R: nat, n: nat)
    requires R * n > 0
    ensures n > 0
  {
  }

  // A refresh closes exactly the queues of the banks it covers.
  lemma ClosedQueues(cfg: Config, ref: Command, q: nat)
    requires cfg.Valid() && Addressed(cfg, ref) && ref.IsRefresh() && q < cfg.NumQueues()
    ensures q in RefQIndices(cfg, ref) <==>
            exists b: BankId :: cfg.InRange(b) && Covers(ref, b) && QueueIndex(cfg, b) == q
  {
    var b := BankOfQueue(cfg, q);
    if ref.cmdType == Refresh {
      assert Covers(ref, b) <==> b.rank == ref.addr.rank;
      forall a: BankId | cfg.InRange(a) && QueueIndex(cfg, a) == q
        ensures a.rank == b.rank
      {
        QueuesApart(cfg, a, b);
      }
    } else {
      assert Covers(ref, ref.Id());
    }
  }

  // ---- The refresh in front ----

  // An open bank of the rank whose precharge is due.
  ghost predicate Closable(ch: Channel, b: BankId, clk: nat) {
    b in ch.banks && |ch.banks[b].timing| == NUM_TYPES && ch.banks[b].status == Open && clk >= ch.banks[b].Earliest(Precharge)
  }

  ghost predicate ReadyToRefresh(ch: Channel, b: BankId, t: CommandType, clk: nat) {
    b in ch.banks && |ch.banks[b].timing| == NUM_TYPES && ch.banks[b].status == Closed && clk >= ch.banks[b].Earliest(t)
  }

  ghost predicate Before(a: BankId, b: BankId) {
    a.group < b.group || (a.group == b.group && a.bank < b.bank)
  }

  // The step a refresh of a whole rank takes: the first closable bank, by group and bank,
  // is precharged; with no such bank the refresh goes out if every bank is ready for it.
  ghost predicate RankStep(cfg: Config, ch: Channel, ref: Command, clk: nat, r: Lookup) {
    match r
    case Exit => false
    case Issue(c) =>
      if c == ref then forall b: BankId :: cfg.InRange(b) && b.rank == ref.addr.rank ==> ReadyToRefresh(ch, b, Refresh, clk)
      else exists b: BankId ::
        && cfg.InRange(b) && b.rank == ref.addr.rank && FirstClosable(cfg, ch, b, clk)
        && c == Command(Precharge, BankAddress(b), ref.hexAddr)
    case NotReady =>
      && (forall b: BankId :: cfg.InRange(b) && b.rank == ref.addr.rank ==> !Closable(ch, b, clk))
      && (exists b: BankId :: cfg.InRange(b) && b.rank == ref.addr.rank && !ReadyToRefresh(ch, b, Refresh, clk))
  }

  ghost predicate FirstClosable(cfg: Config, ch: Channel, b: BankId, clk: nat) {
    Closable(ch, b, clk) &&
    forall a: BankId :: cfg.InRange(a) && a.rank == b.rank && Before(a, b) ==> !Closable(ch, a, clk)
  }

  // The step a refresh of one bank takes.
  ghost predicate BankStep(ch: Channel, ref: Command, clk: nat, r: Lookup) {
    var b := ref.Id();
    r == if Closable(ch, b, clk) then Issue(Command(Precharge, ref.addr, ref.hexAddr))
         else if ReadyToRefresh(ch, b, RefreshBank, clk) then Issue(ref)
         else NotReady
  }

  lemma {:induction false} ScanAnswers(cfg: Config, ch: Channel, ref: Command, clk: nat, j: nat, k: nat)
    requires ChannelShape(cfg, ch) && BanksOk(ch) && ref.cmdType == Refresh && 0 <= ref.addr.rank < cfg.ranks
    requires j <= cfg.bankgroups && k <= cfg.banksPerGroup
    requires forall b: BankId :: cfg.InRange(b) && b.rank == ref.addr.rank && Before(b, BankId(b.rank, j, k)) ==>
               !Closable(ch, b, clk)
    ensures RankStep(cfg, ch, ref, clk, ScanRank(cfg, ch, ref, clk, j, k))
    decreases cfg.bankgroups - j, cfg.banksPerGroup - k
  {
    if j == cfg.bankgroups {
      AllReadySpec(cfg, ch, ref, clk);
    } else if k == cfg.banksPerGroup {
      ScanAnswers(cfg, ch, ref, clk, j + 1, 0);
    } else {
      var b := BankId(ref.addr.rank, j, k);
      assert b in ch.banks;
      RefreshOfBank(ch.banks[b], ref, clk);
      if Closable(ch, b, clk) {
        assert FirstClosable(cfg, ch, b, clk);
      } else {
        ScanAnswers(cfg, ch, ref, clk, j, k + 1);
      }
    }
  }

  lemma RefreshOfBank(b: Bank, ref: Command, clk: nat)
    requires |b.timing| == NUM_TYPES && b.status != SelfRefresh && ref.IsRefresh()
    ensures var t := if b.status == Open then Precharge else ref.cmdType;
            GetReady(b, ref, clk) == if clk >= b.Earliest(t) then Issue(Command(t, ref.addr, ref.hexAddr)) else NotReady
  {
  }

  lemma AllReadySpec(cfg: Config, ch: Channel, ref: Command, clk: nat)
    requires ChannelShape(cfg, ch) && BanksOk(ch) && ref.cmdType == Refresh
    ensures AllReady(cfg, ch, ref, clk) <==>
            forall b: BankId :: cfg.InRange(b) && b.rank == ref.addr.rank ==> ReadyToRefresh(ch, b, Refresh, clk)
  {
    forall b: BankId | cfg.InRange(b)
      ensures b in ch.banks && (GetReady(ch.banks[b], ref, clk) == Issue(ref) <==> ReadyToRefresh(ch, b, Refresh, clk))
    {
      assert b in cfg.AllBanks();
      RefreshOfBank(ch.banks[b], ref, clk);
    }
  }

  // FinishRefresh takes exactly the next step of the request in front, and the queues it
  // closed open again exactly when the request itself goes out.
  lemma RefreshStepTaken(cfg: Config, cq: CmdQueue, ch: Channel)
    requires ChannelShape(cfg, ch) && BanksOk(ch) && ch.refreshQ != []
    requires Addressed(cfg, ch.refreshQ[0]) && ch.refreshQ[0].IsRefresh()
    ensures var (after, r) := FinishRefresh(cfg, cq, ch);
            var ref := ch.refreshQ[0];
            && (if ref.cmdType == Refresh then RankStep(cfg, ch, ref, cq.clk, r) else BankStep(ch, ref, cq.clk, r))
            && after.inRef == (r != Issue(ref))
            && (r == Issue(ref) ==> after.refIndices == {})
  {
    var ref := ch.refreshQ[0];
    if ref.cmdType == Refresh {
      ScanAnswers(cfg, ch, ref, cq.clk, 0, 0);
    } else {
      RefreshOfBank(ch.banks[ref.Id()], ref, cq.clk);
    }
  }
}
