// refresh.cc in place: the counters that decide which rank or bank is refreshed next.
module RefreshClass {
  import opened DramTypes
  import opened ControllerModel
  import opened ChannelStateClass

  class Refresh {
    const cfg: Config
    const channelState: ChannelState
    var clk: nat
    var nextRank: nat
    var nextGroup: nat
    var nextBank: nat

    constructor (c: Config, cs: ChannelState)
      ensures cfg == c && channelState == cs && View() == Refresher(0, 0, 0, 0)
    {
      cfg, channelState := c, cs;
      clk, nextRank, nextGroup, nextBank := 0, 0, 0, 0;
    }

    function View(): Refresher
      reads this
    {
      Refresher(clk, nextRank, nextGroup, nextBank)
    }

    ghost predicate Valid()
      reads this, channelState, channelState.bankStates.Values
    {
      cfg.Valid() && channelState.cfg == cfg && channelState.Valid()
    }

    method IterateNext()
      requires cfg.Valid()
      modifies this`nextRank, this`nextGroup, this`nextBank
      ensures View() == ControllerModel.IterateNext(cfg, old(View()))
    {
      match cfg.refreshPolicy
      case RankStaggered =>
        nextRank := (nextRank + 1) % cfg.ranks;
      case BankStaggered =>
        nextGroup := (nextGroup + 1) % cfg.bankgroups;
        if nextGroup == 0 {
          nextBank := (nextBank + 1) % cfg.banksPerGroup;
          if nextBank == 0 {
            nextRank := (nextRank + 1) % cfg.ranks;
          }
        }
    }

    method InsertRefresh()
      requires Valid()
      modifies this`nextRank, this`nextGroup, this`nextBank, channelState`refreshQ
      ensures Valid() && View() == ControllerModel.IterateNext(cfg, old(View()))
      ensures channelState.View() == ControllerModel.InsertRefresh(cfg, old(View()), old(channelState.View()))
    {
      match cfg.refreshPolicy {
        case RankStaggered => channelState.RankNeedRefresh(nextRank, true);
        case BankStaggered => channelState.BankNeedRefresh(BankId(nextRank, nextGroup, nextBank), true);
      }
      IterateNext();
    }

    // Every refreshInterval ticks, not counting tick 0, one request joins the queue.
    method ClockTick()
      requires Valid()
      modifies this`clk, this`nextRank, this`nextGroup, this`nextBank, channelState`refreshQ
      ensures Valid()
      ensures (View(), channelState.View()) == RefreshTick(cfg, old(View()), old(channelState.View()))
    {
      if clk % cfg.refreshInterval == 0 && clk > 0 {
        InsertRefresh();
      }
      clk := clk + 1;
    }
  }
}
