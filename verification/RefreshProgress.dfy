// A refresh that has started: what its banks receive, and when it is issued at the latest.
module RefreshProgress {
  import opened Options
  import opened DramTypes
  import opened ChannelModel
  import opened ControllerModel
  import opened ControllerTick
  import opened TraceSafety
  import opened ControllerRun

  // The run of some more events from a world.
  ghost function Continue(cfg: Config, w: World, events: seq<Event>): Option<World>
    requires cfg.Valid()
    decreases |events|
  {
    if events == [] then Some(w)
    else match Step(cfg, w, events[0])
      case None => None
      case Some(w1) => Continue(cfg, w1, events[1..])
  }

  // What one event does to the banks, the refresh queue and the trace.
  ghost predicate Effect(cfg: Config, w: World, e: Event, w': World)
    requires cfg.Valid()
  {
    if e != Tick then w'.st.ch == w.st.ch && w'.st.rf == w.st.rf && w'.st.clk == w.st.clk && w'.trace == w.trace
    else exists c :: TickEffect(cfg, w.st, c, w'.st) && ClockTick(cfg, w.st) == Some((w'.st, c)) &&
                     w'.trace == w.trace + Recorded(c, w.st.clk)
  }

  lemma TickRecorded(w: World, st: State, c: Option<Command>)
    ensures var w' := RecordTick(w, Some((st, c))).value;
            w'.st == st && w'.trace == w.trace + Recorded(c, w.st.clk)
  {
  }

  lemma AddedEffect(cfg: Config, w: World, a: nat, isWrite: bool, data: int)
    ensures var w' := AcceptTransaction(cfg, w, a, isWrite, data);
            w'.st.ch == w.st.ch && w'.st.rf == w.st.rf && w'.st.clk == w.st.clk && w'.trace == w.trace
  {
    AddParts(cfg, w.st, Transaction(w.nextId, a, 0, 0, isWrite));
  }

  lemma TickEffectOf(cfg: Config, w: World)
    requires StateInv(cfg, w.st)
    ensures Step(cfg, w, Tick).Some? && Effect(cfg, w, Tick, Step(cfg, w, Tick).value)
  {
    var c, st := TickKeepsState(cfg, w.st);
    TickRecorded(w, st, c);
  }

  lemma StepEffect(cfg: Config, w: World, e: Event)
    requires WorldInv(cfg, w)
    ensures Step(cfg, w, e).Some? && Effect(cfg, w, e, Step(cfg, w, e).value)
  {
    match e
    case Accept(a, isWrite, data) => AddedEffect(cfg, w, a, isWrite, data);
    case Return(clk) =>
    case Tick => TickEffectOf(cfg, w);
  }

  // ---- Isolation and order ----

  // Up to the moment the request in front is issued, every issued command either misses
  // its banks or precharges one of them.
  ghost predicate IsolatedUntilIssued(ref: Command, issued: Trace) {
    forall n :: 0 <= n < |issued| && (forall m :: 0 <= m < n ==> issued[m].cmd != ref) ==> Isolated(ref, issued[n].cmd)
  }

  lemma FrontStays(cfg: Config, s: State, c: Option<Command>, s': State)
    requires TickEffect(cfg, s, c, s') && s.ch.refreshQ != [] && BanksOk(s.ch)
    ensures c.Some? ==> Isolated(s.ch.refreshQ[0], c.value) && SparesRank(cfg, s.ch.refreshQ[0], c.value)
    ensures !(c.Some? && c.value == s.ch.refreshQ[0]) ==> s'.ch.refreshQ != [] && s'.ch.refreshQ[0] == s.ch.refreshQ[0]
    ensures c.Some? && c.value.IsRefresh() ==> c.value == s.ch.refreshQ[0] && s'.ch.refreshQ == AfterRefresh(cfg, s).ch.refreshQ[1..]
  {
    var ch := AfterRefresh(cfg, s).ch;
    assert s.ch.refreshQ <= ch.refreshQ;
    assert ch == s.ch.(refreshQ := ch.refreshQ);
    if c.Some? {
      ChannelAfter(cfg, ch, c.value, s.clk);
    }
  }

  ghost predicate InFront(w: World, ref: Command) {
    w.st.ch.refreshQ != [] && w.st.ch.refreshQ[0] == ref
  }

  function Recorded(c: Option<Command>, clk: nat): Trace {
    if c.None? then [] else [Issued(c.value, clk)]
  }

  // One event while `ref` is in front: the command issued, if any, is isolated from it,
  // and ref stays in front unless it is that command.
  lemma StepIsolated(cfg: Config, w: World, e: Event, ref: Command) returns (c: Option<Command>, w1: World)
    requires WorldInv(cfg, w) && InFront(w, ref)
    ensures Step(cfg, w, e) == Some(w1) && WorldInv(cfg, w1)
    ensures w1.trace == w.trace + Recorded(c, w.st.clk)
    ensures c.Some? ==> Isolated(ref, c.value)
    ensures c != Some(ref) ==> InFront(w1, ref)
  {
    StepEffect(cfg, w, e);
    StepKeeps(cfg, w, e);
    w1 := Step(cfg, w, e).value;
    c := EffectIsolated(cfg, w, e, w1, ref);
  }

  lemma EffectIsolated(cfg: Config, w: World, e: Event, w1: World, ref: Command) returns (c: Option<Command>)
    requires cfg.Valid() && Effect(cfg, w, e, w1) && InFront(w, ref) && BanksOk(w.st.ch)
    ensures w1.trace == w.trace + Recorded(c, w.st.clk)
    ensures c.Some? ==> Isolated(ref, c.value)
    ensures c != Some(ref) ==> InFront(w1, ref)
  {
    c := None;
    if e == Tick {
      c :| TickEffect(cfg, w.st, c, w1.st) && ClockTick(cfg, w.st) == Some((w1.st, c)) &&
           w1.trace == w.trace + Recorded(c, w.st.clk);
      FrontStays(cfg, w.st, c, w1.st);
    }
  }

  lemma {:induction false} RefreshIsIsolated(cfg: Config, w: World, events: seq<Event>)
    requires WorldInv(cfg, w) && w.st.ch.refreshQ != []
    ensures Continue(cfg, w, events).Some?
    ensures var w' := Continue(cfg, w, events).value;
            w.trace <= w'.trace && IsolatedUntilIssued(w.st.ch.refreshQ[0], w'.trace[|w.trace|..])
    decreases |events|
  {
    if events != [] {
      var ref := w.st.ch.refreshQ[0];
      var c, w1 := StepIsolated(cfg, w, events[0], ref);
      NeverExits(cfg, w1, events[1..]);
      TraceGrows(cfg, w1, events[1..]);
      var w' := Continue(cfg, w1, events[1..]).value;
      var rest := w'.trace[|w1.trace|..];
      SuffixJoin(w.trace, Recorded(c, w.st.clk), w'.trace);
      if c != Some(ref) {
        RefreshIsIsolated(cfg, w1, events[1..]);
      }
      IsolationJoins(ref, c, w.st.clk, rest);
    }
  }

  lemma SuffixJoin(a: Trace, r: Trace, t: Trace)
    requires a + r <= t
    ensures a <= t && t[|a|..] == r + t[|a + r|..]
  {
  }

  lemma IsolationJoins(ref: Command, c: Option<Command>, clk: nat, rest: Trace)
    requires c.Some? ==> Isolated(ref, c.value)
    requires c != Some(ref) ==> IsolatedUntilIssued(ref, rest)
    ensures IsolatedUntilIssued(ref, Recorded(c, clk) + rest)
  {
    if c.None? {
      assert Recorded(c, clk) + rest == rest;
    } else if c.value != ref {
      IsolationExtends(ref, c.value, clk, rest);
    } else {
      assert (Recorded(c, clk) + rest)[0].cmd == ref;
    }
  }

  lemma IsolationExtends(ref: Command, c: Command, clk: nat, rest: Trace)
    requires Isolated(ref, c) && c != ref && IsolatedUntilIssued(ref, rest)
    ensures IsolatedUntilIssued(ref, [Issued(c, clk)] + rest)
  {
    var all := [Issued(c, clk)] + rest;
    forall n | 0 <= n < |all| && (forall m :: 0 <= m < n ==> all[m].cmd != ref)
      ensures Isolated(ref, all[n].cmd)
    {
      if n > 0 {
        forall m | 0 <= m < n - 1
          ensures rest[m].cmd != ref
        {
          assert all[m + 1] == rest[m];
        }
        assert all[n] == rest[n - 1];
      }
    }
  }

  lemma {:induction false} NeverExits(cfg: Config, w: World, events: seq<Event>)
    requires WorldInv(cfg, w)
    ensures Continue(cfg, w, events).Some? && WorldInv(cfg, Continue(cfg, w, events).value)
    decreases |events|
  {
    if events != [] {
      StepKeeps(cfg, w, events[0]);
      NeverExits(cfg, Step(cfg, w, events[0]).value, events[1..]);
    }
  }

  lemma RecordGrows(w: World, tick: Option<(State, Option<Command>)>)
    requires RecordTick(w, tick).Some?
    ensures w.trace <= RecordTick(w, tick).value.trace
  {
  }

  lemma StepGrows(cfg: Config, w: World, e: Event)
    requires cfg.Valid() && Step(cfg, w, e).Some?
    ensures w.trace <= Step(cfg, w, e).value.trace
  {
    if e == Tick {
      RecordGrows(w, ClockTick(cfg, w.st));
    }
  }

  lemma {:induction false} TraceGrows(cfg: Config, w: World, events: seq<Event>)
    requires cfg.Valid() && Continue(cfg, w, events).Some?
    ensures w.trace <= Continue(cfg, w, events).value.trace
    decreases |events|
  {
    if events != [] {
      StepGrows(cfg, w, events[0]);
      TraceGrows(cfg, Step(cfg, w, events[0]).value, events[1..]);
    }
  }
}
