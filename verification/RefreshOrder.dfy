// refresh.cc over time: which rank or bank the k-th refresh request is for, and when it is
// made.
module RefreshOrder {
  import opened DramTypes
  import opened ChannelModel
  import opened ControllerModel

  // The k-th request, counting from 0: ranks in turn, or banks with the group running
  // fastest, then the bank of the group, then the rank.
  function RequestedBank(cfg: Config, k: nat): BankId
    requires cfg.Valid()
  {
    BankId(k / cfg.bankgroups / cfg.banksPerGroup % cfg.ranks, k % cfg.bankgroups, k / cfg.bankgroups % cfg.banksPerGroup)
  }

  function Request(cfg: Config, k: nat): Command
    requires cfg.Valid()
  {
    match cfg.refreshPolicy
    case RankStaggered => RankRequest(k % cfg.ranks)
    case BankStaggered => BankRequest(RequestedBank(cfg, k))
  }

  // The counters before the k-th request is made.
  function Counters(cfg: Config, clk: nat, k: nat): Refresher
    requires cfg.Valid()
  {
    match cfg.refreshPolicy
    case RankStaggered => Refresher(clk, k % cfg.ranks, 0, 0)
    case BankStaggered =>
      var b := RequestedBank(cfg, k);
      Refresher(clk, b.rank, b.group, b.bank)
  }

  lemma MulSign(d: int, n: nat)
    requires n > 0
    ensures d > 0 ==> d * n >= n
    ensures d < 0 ==> d * n + n <= 0
  {
  }

  lemma DivIs(k: nat, n: nat, q: int, r: nat)
    requires n > 0 && r < n && k == q * n + r
    ensures k / n == q && k % n == r
  {
    var d := k / n - q;
    assert d * n == k / n * n - q * n;
    MulSign(d, n);
  }

  lemma DivStep(k: nat, n: nat)
    requires n > 0
    ensures (k + 1) % n == (if k % n + 1 == n then 0 else k % n + 1) == (k % n + 1) % n
    ensures (k + 1) / n == k / n + if (k + 1) % n == 0 then 1 else 0
  {
    var q, r := k / n, k % n;
    if r + 1 == n {
      assert (q + 1) * n == q * n + n;
      DivIs(k + 1, n, q + 1, 0);
      DivIs(r + 1, n, 1, 0);
    } else {
      DivIs(k + 1, n, q, r + 1);
      DivIs(r + 1, n, 0, r + 1);
    }
  }

  lemma DivBelow(k: nat, n: nat, m: nat)
    requires n > 0 && k < m * n
    ensures k / n < m
  {
    var d := k / n - m;
    assert d * n == k / n * n - m * n;
    MulSign(d, n);
  }

  lemma CountersStart(cfg: Config)
    requires cfg.Valid()
    ensures Counters(cfg, 0, 0) == Refresher(0, 0, 0, 0)
  {
    DivIs(0, cfg.ranks, 0, 0);
    DivIs(0, cfg.bankgroups, 0, 0);
    DivIs(0, cfg.banksPerGroup, 0, 0);
  }

  lemma CountersStep(cfg: Config, clk: nat, k: nat)
    requires cfg.Valid()
    ensures IterateNext(cfg, Counters(cfg, clk, k)) == Counters(cfg, clk, k + 1)
  {
    match cfg.refreshPolicy
    case RankStaggered => DivStep(k, cfg.ranks);
    case BankStaggered =>
      var g := k / cfg.bankgroups;
      DivStep(k, cfg.bankgroups);
      DivStep(g, cfg.banksPerGroup);
      DivStep(g / cfg.banksPerGroup, cfg.ranks);
  }

  // n ticks of the refresh logic from the start.
  function Ticks(cfg: Config, ch: Channel, n: nat): (Refresher, Channel)
    requires cfg.Valid()
  {
    if n == 0 then (Refresher(0, 0, 0, 0), ch)
    else
      var (rf, before) := Ticks(cfg, ch, n - 1);
      RefreshTick(cfg, rf, before)
  }

  // How many requests the first n ticks make: one per interval, none at tick 0.
  function Made(cfg: Config, n: nat): nat
    requires cfg.Valid()
  {
    if n == 0 then 0 else (n - 1) / cfg.refreshInterval
  }

  // The first n requests.
  function Requests(cfg: Config, n: nat): (r: seq<Command>)
    requires cfg.Valid()
    ensures |r| == n && forall k :: 0 <= k < n ==> r[k] == Request(cfg, k)
  {
    if n == 0 then [] else Requests(cfg, n - 1) + [Request(cfg, n - 1)]
  }

  lemma AppendRequest(cfg: Config, q: seq<Command>, k: nat)
    requires cfg.Valid()
    ensures q + Requests(cfg, k) + [Request(cfg, k)] == q + Requests(cfg, k + 1)
  {
    assert q + (Requests(cfg, k) + [Request(cfg, k)]) == q + Requests(cfg, k) + [Request(cfg, k)];
  }

  // What tick n adds: nothing, or the next request.
  lemma NextRequest(cfg: Config, ch: Channel, n: nat)
    requires cfg.Valid()
    ensures var made, made' := Made(cfg, n), Made(cfg, n + 1);
            && made <= made' <= made + 1
            && RefreshTick(cfg, Counters(cfg, n, made), ch) ==
               (Counters(cfg, n + 1, made'),
                ch.(refreshQ := if made' == made then ch.refreshQ else ch.refreshQ + [Request(cfg, made)]))
  {
    if n > 0 {
      DivStep(n - 1, cfg.refreshInterval);
    }
    CountersStep(cfg, n, Made(cfg, n));
  }

  lemma RequestJoinsQueue(cfg: Config, ch: Channel, n: nat)
    requires cfg.Valid()
    ensures RefreshTick(cfg, Counters(cfg, n, Made(cfg, n)), ch.(refreshQ := ch.refreshQ + Requests(cfg, Made(cfg, n)))) ==
            (Counters(cfg, n + 1, Made(cfg, n + 1)), ch.(refreshQ := ch.refreshQ + Requests(cfg, Made(cfg, n + 1))))
  {
    NextRequest(cfg, ch.(refreshQ := ch.refreshQ + Requests(cfg, Made(cfg, n))), n);
    AppendRequest(cfg, ch.refreshQ, Made(cfg, n));
  }

  // In n ticks exactly the first Made(n) requests join the queue, in order.
  lemma {:induction false} RequestsInOrder(cfg: Config, ch: Channel, n: nat)
    requires cfg.Valid()
    ensures Ticks(cfg, ch, n) == (Counters(cfg, n, Made(cfg, n)), ch.(refreshQ := ch.refreshQ + Requests(cfg, Made(cfg, n))))
  {
    if n == 0 {
      CountersStart(cfg);
      assert ch.refreshQ + [] == ch.refreshQ;
    } else {
      RequestsInOrder(cfg, ch, n - 1);
      RequestJoinsQueue(cfg, ch, n - 1);
    }
  }

  // The place of a bank in a round.
  function Turn(cfg: Config, b: BankId): int {
    (b.rank * cfg.banksPerGroup + b.bank) * cfg.bankgroups + b.group
  }

  // Every bank has its turn exactly once per round of all banks.
  lemma EveryBankOnce(cfg: Config, b: BankId, k: nat)
    requires cfg.Valid() && cfg.InRange(b) && k < cfg.ranks * cfg.banksPerGroup * cfg.bankgroups
    ensures RequestedBank(cfg, k) == b <==> k == Turn(cfg, b)
  {
    var row := b.rank * cfg.banksPerGroup + b.bank;
    DivIs(row, cfg.banksPerGroup, b.rank, b.bank);
    DivIs(b.rank, cfg.ranks, 0, b.rank);
    assert row >= 0;
    assert row * cfg.bankgroups >= 0;
    DivIs(row * cfg.bankgroups + b.group, cfg.bankgroups, row, b.group);
    var g := k / cfg.bankgroups;
    DivBelow(k, cfg.bankgroups, cfg.ranks * cfg.banksPerGroup);
    DivBelow(g, cfg.banksPerGroup, cfg.ranks);
    var r := g / cfg.banksPerGroup;
    DivIs(r, cfg.ranks, 0, r);
    assert k == g * cfg.bankgroups + k % cfg.bankgroups;
    assert g == r * cfg.banksPerGroup + g % cfg.banksPerGroup;
  }

  // And every rank once per round of all ranks.
  lemma EveryRankOnce(cfg: Config, rank: nat, k: nat)
    requires cfg.Valid() && rank < cfg.ranks && k < cfg.ranks && cfg.refreshPolicy == RankStaggered
    ensures Request(cfg, k) == RankRequest(rank) <==> k == rank
  {
    DivIs(k, cfg.ranks, 0, k);
  }

  // Rounds repeat.
  lemma RoundsRepeat(cfg: Config, k: nat)
    requires cfg.Valid()
    ensures cfg.refreshPolicy == RankStaggered ==> Request(cfg, k + cfg.ranks) == Request(cfg, k)
    ensures RequestedBank(cfg, k + cfg.ranks * cfg.banksPerGroup * cfg.bankgroups) == RequestedBank(cfg, k)
  {
    var n, m, r := cfg.bankgroups, cfg.banksPerGroup, cfg.ranks;
    Shifted(k, r, 1);
    Shifted(k, n, r * m);
    Shifted(k / n, m, r);
    Shifted(k / n / m, r, 1);
  }

  lemma Shifted(k: nat, n: nat, c: nat)
    requires n > 0
    ensures (k + c * n) / n == k / n + c && (k + c * n) % n == k % n
  {
    assert (k / n + c) * n == k / n * n + c * n;
    DivIs(k + c * n, n, k / n + c, k % n);
  }
}
