// What every run of a channel controller satisfies.
module ControllerTheorems {
  import opened Options
  import opened DramTypes
  import opened ControllerModel
  import opened InFlight
  import opened ControllerTick
  import opened TraceSafety
  import opened ControllerRun

  // ---- Memory ----

  ghost function After(cfg: Config, events: seq<Event>): World
    requires cfg.Valid()
  {
    EveryRun(cfg, events);
    Run(cfg, events).value
  }

  // Event n adds a transaction: the controller was willing to take it.
  ghost predicate IsAccepted(cfg: Config, events: seq<Event>, n: nat)
    requires cfg.Valid() && n < |events|
  {
    events[n].Accept? && WillAccept(cfg, After(cfg, events[..n]).st, events[n].isWrite)
  }

  // A plain memory: the data of the last accepted write to the address, 0 before any.
  ghost function Stored(cfg: Config, events: seq<Event>, a: nat): int
    requires cfg.Valid()
    decreases |events|
  {
    if events == [] then 0
    else
      var n := |events| - 1;
      if IsAccepted(cfg, events, n) && events[n].isWrite && events[n].addr == a then events[n].data
      else Stored(cfg, events[..n], a)
  }

  // What one event does to the plain memory and to what the reads expect.
  lemma StepFrame(cfg: Config, w: World, e: Event)
    requires cfg.Valid() && Step(cfg, w, e).Some?
    ensures var w' := Step(cfg, w, e).value;
            if e.Accept? && WillAccept(cfg, w.st, e.isWrite) then
              && w'.nextId == w.nextId + 1
              && w'.latest == (if e.isWrite then w.latest[e.addr := e.data] else w.latest)
              && w'.expected == (if e.isWrite then w.expected else w.expected[w.nextId := At(w.latest, e.addr)])
            else w'.nextId == w.nextId && w'.latest == w.latest && w'.expected == w.expected
  {
    match e
    case Accept(a, isWrite, data) =>
    case Return(clk) =>
    case Tick => TickFrame(w, ClockTick(cfg, w.st));
  }

  lemma TickFrame(w: World, tick: Option<(State, Option<Command>)>)
    requires RecordTick(w, tick).Some?
    ensures var w' := RecordTick(w, tick).value;
            w'.nextId == w.nextId && w'.latest == w.latest && w'.expected == w.expected
  {
  }

  lemma RunStep(cfg: Config, events: seq<Event>)
    requires cfg.Valid() && events != []
    ensures var n := |events| - 1;
            Step(cfg, After(cfg, events[..n]), events[n]) == Some(After(cfg, events))
  {
    EveryRun(cfg, events);
    EveryRun(cfg, events[..|events| - 1]);
  }

  lemma {:induction false} LatestIsStored(cfg: Config, events: seq<Event>, a: nat)
    requires cfg.Valid()
    ensures At(After(cfg, events).latest, a) == Stored(cfg, events, a)
    decreases |events|
  {
    if events != [] {
      var n := |events| - 1;
      LatestIsStored(cfg, events[..n], a);
      RunStep(cfg, events);
      StepFrame(cfg, After(cfg, events[..n]), events[n]);
    }
  }

  lemma {:induction false} ExpectedIsStored(cfg: Config, events: seq<Event>, n: nat)
    requires cfg.Valid() && n < |events| && IsAccepted(cfg, events, n) && !events[n].isWrite
    ensures var id := After(cfg, events[..n]).nextId;
            var w := After(cfg, events);
            id < w.nextId && id in w.expected && w.expected[id] == Stored(cfg, events[..n], events[n].addr)
    decreases |events|
  {
    var last := |events| - 1;
    var front := events[..last];
    RunStep(cfg, events);
    StepFrame(cfg, After(cfg, front), events[last]);
    if n == last {
      LatestIsStored(cfg, front, events[n].addr);
    } else {
      assert front[..n] == events[..n];
      ExpectedIsStored(cfg, front, n);
    }
  }

  // The controller refines a plain memory: whatever it answers an accepted read with,
  // at whatever later point of the run, is what the last write accepted before that
  // read stored. No read leaves, or waits to leave, without its answer.
  lemma ReadsSeeTheLastAcceptedWrite(cfg: Config, events: seq<Event>, n: nat)
    requires cfg.Valid() && n < |events| && IsAccepted(cfg, events, n) && !events[n].isWrite
    ensures var id := After(cfg, events[..n]).nextId;
            var w := After(cfg, events);
            && (id in w.answered ==> w.answered[id] == Stored(cfg, events[..n], events[n].addr))
            && (forall t :: (t in w.delivered || t in w.st.returnQueue) && !t.isWrite ==> t.id in w.answered)
  {
    EveryRun(cfg, events);
    ExpectedIsStored(cfg, events, n);
  }

  // A write is issued only when no read of its address is pending.
  lemma WritesWaitForReads(cfg: Config, events: seq<Event>)
    requires cfg.Valid() && Run(cfg, events).Some?
    ensures var w := Run(cfg, events).value;
            match ClockTick(cfg, w.st)
            case Some((st, Some(c))) => c.IsWrite() ==> !Pending(w.st.pendingRd, c.hexAddr)
            case Some((st, None)) => true
            case None => false
  {
    EveryRun(cfg, events);
    var c, st := TickKeepsState(cfg, Run(cfg, events).value.st);
  }

  // ---- Conservation ----

  lemma IotaOnce(n: nat, x: nat)
    ensures multiset(Iota(n))[x] == if x < n then 1 else 0
  {
    if n > 0 {
      IotaOnce(n - 1, x);
      assert Iota(n) == Iota(n - 1) + [n - 1];
    }
  }

  lemma {:induction false} CountTwice(s: seq<nat>, i: nat, j: nat)
    requires i < j < |s| && s[i] == s[j]
    ensures multiset(s)[s[i]] >= 2
  {
    assert s == s[..i] + [s[i]] + s[i + 1..j] + [s[j]] + s[j + 1..];
  }

  // Accepted transactions are returned, queued for return, or pending reads; nothing is
  // delivered twice; what is pending matches the queued transactions and commands one
  // for one; no queue overflows.
  lemma NothingLostOrDuplicated(cfg: Config, events: seq<Event>)
    requires cfg.Valid()
    ensures Run(cfg, events).Some?
    ensures var w := Run(cfg, events).value;
            && w.nextId == |w.delivered| + |w.st.returnQueue| + |w.st.pendingRd|
            && (forall i, j :: 0 <= i < j < |w.delivered| ==> w.delivered[i].id != w.delivered[j].id)
            && (forall i :: 0 <= i < |w.delivered| ==> w.delivered[i].id < w.nextId)
            && OnTheWay(FlowOf(w.st)) == Awaited(FlowOf(w.st))
            && Capacity(cfg, FlowOf(w.st))
  {
    EveryRun(cfg, events);
    var w := Run(cfg, events).value;
    assert |multiset(Iota(w.nextId))| == w.nextId;
    var ids := Ids(w.delivered);
    forall i, j | 0 <= i < j < |w.delivered|
      ensures w.delivered[i].id != w.delivered[j].id
    {
      IotaOnce(w.nextId, ids[i]);
      if ids[i] == ids[j] {
        CountTwice(ids, i, j);
        assert false;
      }
    }
    forall i | 0 <= i < |w.delivered|
      ensures w.delivered[i].id < w.nextId
    {
      assert ids[i] in multiset(ids);
      IotaOnce(w.nextId, ids[i]);
    }
  }

  // ---- Commands ----

  lemma IssuedCommandsKeepAllDelays(cfg: Config, events: seq<Event>)
    requires cfg.Valid()
    ensures Run(cfg, events).Some?
    ensures var trace := Run(cfg, events).value.trace;
            && TimingSafe(cfg, trace)
            && (forall i, j :: 0 <= i < j < |trace| ==> trace[i].clk < trace[j].clk)
  {
    EveryRun(cfg, events);
  }

  lemma IssuedCommandsFollowTheRows(cfg: Config, events: seq<Event>)
    requires cfg.Valid()
    ensures Run(cfg, events).Some?
    ensures var trace := Run(cfg, events).value.trace; forall j :: 0 <= j < |trace| ==> RowProtocol(cfg, trace, j)
  {
    EveryRun(cfg, events);
  }

  // No five activations of one rank start within tFAW cycles, and for GDDR no 33 within
  // t32AW; the stored windows stay sorted and within 4 (32) entries.
  lemma ActivationsAreSpread(cfg: Config, events: seq<Event>, r: nat)
    requires cfg.Valid() && r < cfg.ranks
    ensures Run(cfg, events).Some?
    ensures var w := Run(cfg, events).value;
            var acts := Activations(w.trace, r);
            && (forall i :: 0 <= i && i + 4 < |acts| ==> acts[i + 4] - acts[i] >= cfg.tFAW)
            && (cfg.gddr ==> forall i :: 0 <= i && i + 32 < |acts| ==> acts[i + 32] - acts[i] >= cfg.t32AW)
            && r < |w.st.ch.fourAw| && |w.st.ch.fourAw[r]| <= 4
            && (forall i, j :: 0 <= i < j < |w.st.ch.fourAw[r]| ==> w.st.ch.fourAw[r][i] <= w.st.ch.fourAw[r][j])
            && (cfg.gddr ==> r < |w.st.ch.thirtyTwoAw| && |w.st.ch.thirtyTwoAw[r]| <= 32)
  {
    EveryRun(cfg, events);
    var w := Run(cfg, events).value;
    assert RankWindowsOk(cfg, w.st.ch.fourAw[r], w.st.ch.thirtyTwoAw[r], Activations(w.trace, r));
  }
}
