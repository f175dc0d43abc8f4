/** Position bookkeeping shared by every trader version: the live position the
    exchange reports, the provisional net of the orders already emitted this tick
    (`ordered_position`), and the capacities they leave under the position limit. */
module Position {
  import opened Common

  /** Buy and sell capacity, `(buy_available_position, sell_available_position)`. */
  datatype Caps = Caps(buy: int, sell: int)

  /** Position limits of the round-4 trader (Round4/round_4_trader_vega2.py). */
  const Round4Limits: map<string, int> := map[
    "AMETHYSTS" := 20, "STARFRUIT" := 20, "ORCHIDS" := 100, "CHOCOLATE" := 250,
    "STRAWBERRIES" := 350, "ROSES" := 60, "GIFT_BASKET" := 60, "COCONUT" := 300,
    "COCONUT_COUPON" := 600]

  /** Position limits of the round-3 trader (Round4/round_3_trader_local_testing.py). */
  const Round3Limits: map<string, int> := map[
    "AMETHYSTS" := 20, "STARFRUIT" := 20, "ORCHIDS" := 100, "CHOCOLATE" := 250,
    "STRAWBERRIES" := 350, "ROSES" := 60, "GIFT_BASKET" := 60]

  /** Position limits of both round-1 traders. */
  const Round1Limits: map<string, int> := map["AMETHYSTS" := 20, "STARFRUIT" := 20]

  /** `state.position[product] if product in state.position else 0`. */
  function Live(position: map<string, int>, product: string): (r: int)
    ensures product in position ==> r == position[product]
    ensures product !in position ==> r == 0
  {
    if product in position then position[product] else 0
  }

  /** `cal_available_position`: the limit minus the live position, and an open
      provisional net in the same direction is deducted as well. */
  function Capacity(limit: int, live: int, net: int): (c: Caps)
    // Spending the whole buy capacity on top of live + net reaches the limit,
    // or stays below it by the part of a short provisional net.
    ensures live + net + c.buy == limit + Min(net, 0)
    // Spending the whole sell capacity reaches -limit, or stays above it by a long net.
    ensures live + net - c.sell == Max(net, 0) - limit
  {
    var buy := limit - live;
    var sell := limit + live;
    if net > 0 then Caps(buy - net, sell)
    else if net < 0 then Caps(buy, sell + net)
    else Caps(buy, sell)
  }

  /** Whatever the provisional net, spending either full capacity keeps
      live + net within [-limit, limit] for that call. */
  lemma CapacityKeepsLimit(limit: int, live: int, net: int)
    ensures live + net + Capacity(limit, live, net).buy <= limit
    ensures live + net - Capacity(limit, live, net).sell >= -limit
    ensures net <= 0 ==> Capacity(limit, live, net).buy == limit - live
    ensures net >= 0 ==> Capacity(limit, live, net).sell == limit + live
  {
  }

  /** A provisional short restores the full buy capacity (and a long the full sell
      capacity): the bound holds per call, not across calls within a tick. */
  lemma CapacityForgetsOppositeNet(limit: int, live: int, net: int)
    requires net < 0
    ensures Capacity(limit, live, net).buy == Capacity(limit, live, 0).buy
    ensures Capacity(limit, live, net).sell == Capacity(limit, live, 0).sell + net
  {
  }

  /** `update_estimated_position`: add `side * abs(amount)` to the net. */
  function Commit(net: int, amount: int, dir: Direction): (r: int)
    ensures Abs(r - net) == Abs(amount)
    ensures dir.Buy? ==> r >= net
    ensures dir.Sell? ==> r <= net
  {
    net + dir.Apply(Abs(amount))
  }
}
