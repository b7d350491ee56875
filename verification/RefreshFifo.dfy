// The refreshes of a whole run: they are issued in the order in which they are requested,
// and requested in the fixed rounds of the refresh logic.
module RefreshFifo {
  import opened Options
  import opened DramTypes
  import opened ChannelModel
  import opened ControllerModel
  import opened ControllerTick
  import opened TraceSafety
  import opened ControllerRun
  import opened ControllerTheorems
  import opened RefreshOrder
  import opened RefreshProgress

  // The refresh commands of a trace.
  function Refreshes(trace: Trace): (r: seq<Command>) {
    if trace == [] then []
    else
      var c := trace[|trace| - 1].cmd;
      var before := Refreshes(trace[..|trace| - 1]);
      if c.IsRefresh() then before + [c] else before
  }

  // The refreshes issued and those waiting are the requests made so far.
  ghost predicate InOrder(cfg: Config, clk: nat, rf: Refresher, refreshQ: seq<Command>, trace: Trace)
    requires cfg.Valid()
  {
    && rf == Counters(cfg, clk, Made(cfg, clk))
    && Refreshes(trace) + refreshQ == Requests(cfg, Made(cfg, clk))
  }

  lemma OneMore(trace: Trace, c: Command, clk: nat)
    ensures Refreshes(trace + [Issued(c, clk)]) == Refreshes(trace) + if c.IsRefresh() then [c] else []
  {
    var t := trace + [Issued(c, clk)];
    assert t[..|t| - 1] == trace;
  }

  // After this tick's request has joined the queue.
  lemma RequestJoins(cfg: Config, s: State, trace: Trace)
    requires cfg.Valid() && InOrder(cfg, s.clk, s.rf, s.ch.refreshQ, trace)
    ensures var s1 := AfterRefresh(cfg, s);
            InOrder(cfg, s.clk + 1, s1.rf, s1.ch.refreshQ, trace)
  {
    NextRequest(cfg, s.ch, s.clk);
    var made := Made(cfg, s.clk);
    if Made(cfg, s.clk + 1) == made + 1 {
      assert Refreshes(trace) + (s.ch.refreshQ + [Request(cfg, made)]) == Requests(cfg, made + 1);
    }
  }

  // The queue after a command, which takes the oldest request if it is a refresh.
  lemma CommandTakesFirst(cfg: Config, ch: Channel, ch': Channel, c: Command, clk: nat, trace: Trace)
    requires Legal(cfg, ch, c, clk) && BanksOk(ch) && UpdateTimingAndStates(cfg, ch, c, clk) == Some(ch')
    requires c.IsRefresh() ==> ch.refreshQ != [] && c == ch.refreshQ[0]
    ensures Refreshes(trace + [Issued(c, clk)]) + ch'.refreshQ == Refreshes(trace) + ch.refreshQ
  {
    ChannelAfter(cfg, ch, c, clk);
    TakesFirst(ch.refreshQ, ch'.refreshQ, c, clk, trace);
  }

  lemma TakesFirst(q: seq<Command>, q': seq<Command>, c: Command, clk: nat, trace: Trace)
    requires if c.IsRefresh() then q != [] && c == q[0] && q' == q[1..] else q' == q
    ensures Refreshes(trace + [Issued(c, clk)]) + q' == Refreshes(trace) + q
  {
    OneMore(trace, c, clk);
    if c.IsRefresh() {
      assert q == [c] + q';
      assert Refreshes(trace) + [c] + q' == Refreshes(trace) + ([c] + q');
    }
  }

  lemma TickInOrder(cfg: Config, s: State, c: Option<Command>, s': State, trace: Trace)
    requires TickEffect(cfg, s, c, s') && BanksOk(s.ch) && InOrder(cfg, s.clk, s.rf, s.ch.refreshQ, trace)
    ensures InOrder(cfg, s'.clk, s'.rf, s'.ch.refreshQ, trace + Recorded(c, s.clk))
  {
    RequestJoins(cfg, s, trace);
    var ch := AfterRefresh(cfg, s).ch;
    assert ch == s.ch.(refreshQ := ch.refreshQ);
    if c.Some? {
      CommandTakesFirst(cfg, ch, s'.ch, c.value, s.clk, trace);
    } else {
      assert trace + [] == trace;
    }
  }

  lemma EffectInOrder(cfg: Config, w: World, e: Event, w': World)
    requires cfg.Valid() && Effect(cfg, w, e, w') && BanksOk(w.st.ch)
    requires InOrder(cfg, w.st.clk, w.st.rf, w.st.ch.refreshQ, w.trace)
    ensures InOrder(cfg, w'.st.clk, w'.st.rf, w'.st.ch.refreshQ, w'.trace)
  {
    if e == Tick {
      var c :| TickEffect(cfg, w.st, c, w'.st) && ClockTick(cfg, w.st) == Some((w'.st, c)) &&
               w'.trace == w.trace + Recorded(c, w.st.clk);
      TickInOrder(cfg, w.st, c, w'.st, w.trace);
    }
  }

  lemma {:induction false} EveryRunInOrder(cfg: Config, events: seq<Event>)
    requires cfg.Valid()
    ensures var w := After(cfg, events); InOrder(cfg, w.st.clk, w.st.rf, w.st.ch.refreshQ, w.trace)
    decreases |events|
  {
    if events == [] {
      CountersStart(cfg);
    } else {
      var n := |events| - 1;
      EveryRunInOrder(cfg, events[..n]);
      EveryRun(cfg, events[..n]);
      RunStep(cfg, events);
      StepEffect(cfg, After(cfg, events[..n]), events[n]);
      EffectInOrder(cfg, After(cfg, events[..n]), events[n], After(cfg, events));
    }
  }

  // The refreshes issued and those waiting are consecutive requests, `made` in all.
  ghost predicate FollowRounds(cfg: Config, issued: seq<Command>, waiting: seq<Command>, made: nat)
    requires cfg.Valid()
  {
    && |issued| + |waiting| == made
    && (forall k :: 0 <= k < |issued| ==> issued[k] == Request(cfg, k))
    && (forall k :: 0 <= k < |waiting| ==> waiting[k] == Request(cfg, |issued| + k))
  }

  lemma BothInOrder(cfg: Config, a: seq<Command>, b: seq<Command>, n: nat)
    requires cfg.Valid() && a + b == Requests(cfg, n)
    ensures FollowRounds(cfg, a, b, n)
  {
    forall k | 0 <= k < |b|
      ensures b[k] == Request(cfg, |a| + k)
    {
      assert (a + b)[|a| + k] == b[k];
    }
    forall k | 0 <= k < |a|
      ensures a[k] == Request(cfg, k)
    {
      assert (a + b)[k] == a[k];
    }
  }

  // In every run the k-th refresh issued is the k-th of the fixed rounds; those still waiting
  // are the next ones, and one has been requested per interval.
  lemma RefreshesFollowTheRounds(cfg: Config, events: seq<Event>)
    requires cfg.Valid()
    ensures var w := After(cfg, events);
            FollowRounds(cfg, Refreshes(w.trace), w.st.ch.refreshQ, Made(cfg, w.st.clk))
  {
    EveryRunInOrder(cfg, events);
    var w := After(cfg, events);
    BothInOrder(cfg, Refreshes(w.trace), w.st.ch.refreshQ, Made(cfg, w.st.clk));
  }
}
