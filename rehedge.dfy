/** The dynamic delta rehedge of `tongfei_BS_trade` (round-4 trader): when no
    option trade is made, the underlying is bought back at its best ask after
    the option's delta fell and sold at its best bid after it rose, for the
    change in delta times the option position held. Both deltas are inputs. */
module Rehedge {
  import opened Common
  import opened Book
  import opened Position
  import opened Claims
  import opened Desks
  import opened Levels

  /** The orders of a rehedge and the venue of the underlying it leaves. */
  datatype Hedged = Hedged(orders: seq<Order>, venue: Venue)

  function RealAbs(x: real): real {
    if x < 0.0 then -x else x
  }

  /** `int(np.round(np.abs(previous_delta - delta) * np.abs(held)))`: the
      change in delta times the option position, rounded half to even. */
  function HedgeSize(previousDelta: real, delta: real, held: int): (n: int)
    ensures n >= 0
    ensures -0.5 <= (n as real) - RealAbs(previousDelta - delta) * (Abs(held) as real) <= 0.5
    ensures previousDelta == delta || held == 0 ==> n == 0
  {
    var x := RealAbs(previousDelta - delta) * (Abs(held) as real);
    RoundHalfEvenNonNegative(x);
    RoundHalfEven(x)
  }

  /** The three-way branch once the capacities and best levels of the
      underlying are known: a `kevin_market_take` at the best ask with the buy
      capacity when the delta fell, at the best bid with the sell capacity when
      it rose, nothing when it is unchanged. */
  function Rehedge(underlying: string, previousDelta: real, delta: real, held: int, caps: Caps,
                   q: Levels.Quote, v: Venue): Result<Hedged>
    requires WellFormed(v.depth)
  {
    var size := HedgeSize(previousDelta, delta, held);
    if previousDelta - delta > 0.0 then
      var c :- Take(underlying, q.ask, size, caps.buy, Buy, v);
      Success(Hedged(c.orders, c.venue))
    else if previousDelta - delta < 0.0 then
      var c :- Take(underlying, q.bid, size, caps.sell, Sell, v);
      Success(Hedged(c.orders, c.venue))
    else Success(Hedged([], v))
  }

  /** The neutral branch of `tongfei_BS_trade` on the underlying's venue: its
      capacities are computed first, then its best levels are read leniently;
      the position held is the option's live position. */
  function NeutralHedge(underlying: string, option: string, previousDelta: real, delta: real,
                        position: map<string, int>, limit: int, v: Venue): Result<Hedged>
    requires WellFormed(v.depth)
  {
    var caps := Capacity(limit, Live(position, underlying), v.net);
    Rehedge(underlying, previousDelta, delta, Live(position, option), caps, BestBidAsk(v.depth, Lenient).value, v)
  }

  /** An unchanged delta trades nothing. A fallen delta buys at the given ask,
      a risen one sells at the given bid: with capacity on that side the single
      order is for the hedge size clamped to the capacity, the net moves by it,
      and the level is consumed as `kevin_market_take` does; without capacity
      nothing is traded. */
  lemma RehedgeOutcome(underlying: string, previousDelta: real, delta: real, held: int, caps: Caps,
                       q: Levels.Quote, v: Venue)
    requires WellFormed(v.depth)
    ensures var r := Rehedge(underlying, previousDelta, delta, held, caps, q, v);
      var size := HedgeSize(previousDelta, delta, held);
      && (previousDelta == delta ==> r == Success(Hedged([], v)))
      && (previousDelta > delta && caps.buy == 0 ==> r == Success(Hedged([], v)))
      && (previousDelta < delta && caps.sell == 0 ==> r == Success(Hedged([], v)))
      && (previousDelta > delta && caps.buy != 0 ==>
            && (r.Success? <==> HasKey(v.depth.sells, q.ask))
            && (r.Success? ==>
                  && r.value.orders == [Order(underlying, q.ask, Min(size, caps.buy))]
                  && r.value.venue.net == v.net + Abs(Min(size, caps.buy))
                  && r.value.venue.depth.buys == v.depth.buys))
      && (previousDelta < delta && caps.sell != 0 ==>
            && (r.Success? <==> HasKey(v.depth.buys, q.bid))
            && (r.Success? ==>
                  && r.value.orders == [Order(underlying, q.bid, -Min(size, caps.sell))]
                  && r.value.venue.net == v.net - Abs(Min(size, caps.sell))
                  && r.value.venue.depth.sells == v.depth.sells))
  {
    var size := HedgeSize(previousDelta, delta, held);
    if previousDelta > delta {
      TakeOutcome(underlying, q.ask, size, caps.buy, Buy, v);
    } else if previousDelta < delta {
      TakeOutcome(underlying, q.bid, size, caps.sell, Sell, v);
    }
  }

  /** On the desk, the neutral branch prices the rehedge at the best levels of
      the underlying: a buy goes at the lowest resting ask, a sell at the
      highest resting bid, and neither exceeds the capacity on its side (a
      negative capacity passes through as an order against the signal). */
  lemma NeutralHedgePrices(underlying: string, option: string, previousDelta: real, delta: real,
                           position: map<string, int>, limit: int, v: Venue)
    requires WellFormed(v.depth)
    ensures var r := NeutralHedge(underlying, option, previousDelta, delta, position, limit, v);
      var caps := Capacity(limit, Live(position, underlying), v.net);
      r.Success? ==>
        && |r.value.orders| <= 1
        && (r.value.orders != [] && previousDelta > delta ==>
              && LowestResting(v.depth.sells, Sell, r.value.orders[0].price)
              && r.value.orders[0].quantity <= caps.buy
              && (caps.buy >= 0 ==> r.value.orders[0].quantity >= 0))
        && (r.value.orders != [] && previousDelta < delta ==>
              && HighestResting(v.depth.buys, Buy, r.value.orders[0].price)
              && -r.value.orders[0].quantity <= caps.sell
              && (caps.sell >= 0 ==> r.value.orders[0].quantity <= 0))
  {
    var caps := Capacity(limit, Live(position, underlying), v.net);
    var q := BestBidAsk(v.depth, Lenient).value;
    RehedgeOutcome(underlying, previousDelta, delta, Live(position, option), caps, q, v);
  }

  /** The neutral branch on the desk. Reading the option's capacity and best
      levels only fails when the option is untracked, which the precondition
      rules out. */
  method NeutralHedgeOnDesk(desk: Desk, underlying: string, option: string, previousDelta: real, delta: real,
                            position: map<string, int>, limit: int)
    returns (r: Result<Hedged>)
    requires desk.Valid() && desk.Tracks(underlying) && desk.Tracks(option)
    modifies desk
    ensures desk.Valid()
    ensures r == NeutralHedge(underlying, option, previousDelta, delta, position, limit, old(desk.VenueOf(underlying)))
    ensures r.Success? ==> desk.Became(underlying, r.value.venue)
  {
    var caps := Capacity(limit, Live(position, underlying), desk.ordered[underlying]);
    var q := BestBidAsk(desk.lob[underlying], Lenient).value;
    var size := HedgeSize(previousDelta, delta, Live(position, option));
    if previousDelta - delta > 0.0 {
      var c := desk.MarketTake(underlying, q.ask, size, caps.buy, Buy);
      if c.Failure? {
        return Failure(c.error);
      }
      r := Success(Hedged(c.value.orders, c.value.venue));
    } else if previousDelta - delta < 0.0 {
      var c := desk.MarketTake(underlying, q.bid, size, caps.sell, Sell);
      if c.Failure? {
        return Failure(c.error);
      }
      r := Success(Hedged(c.value.orders, c.value.venue));
    } else {
      r := Success(Hedged([], desk.VenueOf(underlying)));
    }
  }
}
