/** Basket arbitrage: `compute_basket_fair_price_deviation`, the fair price of
    one member of the gift-basket family implied by the mid prices of the
    others, and the two versions of `kevin_spread_trading`, which send one
    order at the worst level of the simulated book against a deviation
    (round-3 trader) or a predicted basket direction (round-4 trader). */
module Spread {
  import opened Common
  import opened Book
  import opened Position
  import opened Levels

  /** The products of `eligible_product`, in its order. */
  datatype Component = Chocolate | Strawberries | Roses | GiftBasket

  /** `assert product in eligible_product` */
  function Eligible(product: string): (r: Result<Component>)
    ensures r.Failure? <==> product !in ["CHOCOLATE", "STRAWBERRIES", "ROSES", "GIFT_BASKET"]
    ensures r.Failure? ==> r.error == AssertionError
  {
    if product == "CHOCOLATE" then Success(Chocolate)
    else if product == "STRAWBERRIES" then Success(Strawberries)
    else if product == "ROSES" then Success(Roses)
    else if product == "GIFT_BASKET" then Success(GiftBasket)
    else Failure(AssertionError)
  }

  /** The four mid prices of the family. */
  datatype Mids = Mids(chocolate: real, strawberries: real, roses: real, basket: real)

  /** `basket_premium` */
  const Premium: real := 379.4904833333333

  function MidOf(m: Mids, c: Component): real {
    match c
    case Chocolate => m.chocolate
    case Strawberries => m.strawberries
    case Roses => m.roses
    case GiftBasket => m.basket
  }

  /** The fair price of one product from the others: a basket is four
      chocolates, six strawberries, one rose and the premium. */
  function FairPrice(c: Component, m: Mids): real {
    match c
    case GiftBasket => 4.0 * m.chocolate + 6.0 * m.strawberries + m.roses + Premium
    case Chocolate => (m.basket - (6.0 * m.strawberries + m.roses) - Premium) / 4.0
    case Strawberries => (m.basket - (4.0 * m.chocolate + m.roses) - Premium) / 6.0
    case Roses => m.basket - (4.0 * m.chocolate + 6.0 * m.strawberries) - Premium
  }

  /** Every deviation is one spread, `B - (4C + 6S + R + premium)`, seen from
      one product: the basket's is the spread itself and a component's is minus
      the spread divided by the component's count in the basket. */
  function Share(c: Component, spread: real): real {
    match c
    case GiftBasket => spread
    case Chocolate => -spread / 4.0
    case Strawberries => -spread / 6.0
    case Roses => -spread
  }

  /** `(fair_price_deviation, fair_price)` */
  datatype Deviation = Deviation(deviation: real, fair: real)

  /** `compute_basket_fair_price_deviation(state, product)`: the product must be
      one of the family; the four mid prices are then read in the order of
      `eligible_product` with `calculate_mid_price`, which raises `KeyError` for
      a product the exchange has no book for and `IndexError` on an empty
      side, so the first of them to fail decides the error. */
  function BasketDeviation(product: string, depths: map<string, Depth>): (r: Result<Deviation>)
    ensures !Eligible(product).Success? ==> r == Failure(AssertionError)
    ensures r.Success? <==>
      && Eligible(product).Success?
      && MidPriceOf(depths, "CHOCOLATE").Success? && MidPriceOf(depths, "STRAWBERRIES").Success?
      && MidPriceOf(depths, "ROSES").Success? && MidPriceOf(depths, "GIFT_BASKET").Success?
    ensures Eligible(product).Success? && r.Failure? ==> r.error == KeyError || r.error == IndexError
    ensures Eligible(product).Success? && "CHOCOLATE" !in depths ==> r == Failure(KeyError)
    // With all four books present, only an empty side can fail a mid price.
    ensures r.Failure? && {"CHOCOLATE", "STRAWBERRIES", "ROSES", "GIFT_BASKET"} <= depths.Keys ==> r.error != KeyError
    ensures r.Success? ==>
      var m := Mids(MidPriceOf(depths, "CHOCOLATE").value, MidPriceOf(depths, "STRAWBERRIES").value,
                    MidPriceOf(depths, "ROSES").value, MidPriceOf(depths, "GIFT_BASKET").value);
      var c := Eligible(product).value;
      && r.value.fair == FairPrice(c, m) && r.value.deviation == MidOf(m, c) - FairPrice(c, m)
      && r.value.deviation == Share(c, m.basket - (4.0 * m.chocolate + 6.0 * m.strawberries + m.roses + Premium))
  {
    var c :- Eligible(product);
    var chocolate :- MidPriceOf(depths, "CHOCOLATE");
    var strawberries :- MidPriceOf(depths, "STRAWBERRIES");
    var roses :- MidPriceOf(depths, "ROSES");
    var basket :- MidPriceOf(depths, "GIFT_BASKET");
    var m := Mids(chocolate, strawberries, roses, basket);
    Success(Deviation(MidOf(m, c) - FairPrice(c, m), FairPrice(c, m)))
  }

  /** The orders of a spread trade and the net position it leaves; the
      simulated book is only read. */
  datatype Signal = Signal(orders: seq<Order>, net: int)

  /** `int(round(sum(side.values()) * liquidity_fraction))` */
  function Liquidity(s: Side, fraction: real): int {
    RoundHalfEven(Total(s) as real * fraction)
  }

  /** The shared body of both versions once the capacities are fixed: sell
      `min(sellCap, liquidity of the bids)` at the worst bid, or else buy
      `min(buyCap, liquidity of the asks)` at the worst ask, or do nothing. */
  function Fire(product: string, sell: bool, buy: bool, worst: Quote, buyCap: int, sellCap: int,
                fraction: real, v: Venue): Signal
  {
    if sell && sellCap > 0 then
      var pos := Min(sellCap, Liquidity(v.depth.buys, fraction));
      Signal([Order(product, worst.bid, -pos)], Position.Commit(v.net, -pos, Sell))
    else if buy && buyCap > 0 then
      var pos := Min(buyCap, -Liquidity(v.depth.sells, fraction));
      Signal([Order(product, worst.ask, pos)], Position.Commit(v.net, pos, Buy))
    else Signal([], v.net)
  }

  /** At most one order: a sell at the worst bid when the sell signal fires
      with sell capacity, otherwise a buy at the worst ask when the buy signal
      fires with buy capacity. Its size never exceeds the capacity it uses,
      and with bids of non-negative total, asks of non-positive total and a
      non-negative fraction it trades in the signalled direction; the net moves
      by its size. */
  lemma FireOutcome(product: string, sell: bool, buy: bool, worst: Quote, buyCap: int, sellCap: int,
                    fraction: real, v: Venue)
    ensures var s := Fire(product, sell, buy, worst, buyCap, sellCap, fraction, v);
      && |s.orders| <= 1
      && (s.orders == [] <==> !(sell && sellCap > 0) && !(buy && buyCap > 0))
      && (sell && sellCap > 0 ==>
            && s.orders[0].product == product && s.orders[0].price == worst.bid
            && -s.orders[0].quantity <= sellCap
            && s.net == v.net - Abs(s.orders[0].quantity)
            && (Total(v.depth.buys) >= 0 && fraction >= 0.0 ==> s.orders[0].quantity <= 0))
      && (!(sell && sellCap > 0) && buy && buyCap > 0 ==>
            && s.orders[0].product == product && s.orders[0].price == worst.ask
            && s.orders[0].quantity <= buyCap
            && s.net == v.net + Abs(s.orders[0].quantity)
            && (Total(v.depth.sells) <= 0 && fraction >= 0.0 ==> s.orders[0].quantity >= 0))
      && (s.orders == [] ==> s.net == v.net)
  {
    if sell && sellCap > 0 && Total(v.depth.buys) >= 0 && fraction >= 0.0 {
      RoundHalfEvenNonNegative(Total(v.depth.buys) as real * fraction);
    }
    if buy && buyCap > 0 && Total(v.depth.sells) <= 0 && fraction >= 0.0 {
      RoundHalfEvenNonNegative(-(Total(v.depth.sells) as real * fraction));
      RoundHalfEvenOdd(Total(v.depth.sells) as real * fraction);
    }
  }

  /** `kevin_spread_trading` of the round-3 trader: the worst levels of the
      simulated book (strict lookup), the capacities, then a sell when the
      deviation is above the threshold and a buy when it is below minus the
      threshold. */
  function ThresholdSpread(product: string, deviation: real, threshold: real, fraction: real,
                           live: int, limit: int, v: Venue): (r: Result<Signal>)
    ensures r.Failure? <==> WorstBidAsk(v.depth, Strict).Failure?
    ensures r.Success? ==>
      var caps := Capacity(limit, live, v.net);
      r.value == Fire(product, deviation > threshold, deviation < -threshold,
                      WorstBidAsk(v.depth, Strict).value, caps.buy, caps.sell, fraction, v)
  {
    var worst :- WorstBidAsk(v.depth, Strict);
    var caps := Capacity(limit, live, v.net);
    Success(Fire(product, deviation > threshold, deviation < -threshold, worst, caps.buy, caps.sell, fraction, v))
  }

  /** The round-3 spread trade: at most one order; a sell at the lowest resting
      bid when the deviation is above the threshold and there is sell capacity,
      otherwise a buy at the highest resting ask when the deviation is below
      minus the threshold and there is buy capacity; each never larger than its
      capacity, and the net moves by its size. */
  lemma ThresholdSpreadOutcome(product: string, deviation: real, threshold: real, fraction: real,
                               live: int, limit: int, v: Venue)
    ensures var r := ThresholdSpread(product, deviation, threshold, fraction, live, limit, v);
      var caps := Capacity(limit, live, v.net);
      var sell := deviation > threshold && caps.sell > 0;
      var buy := deviation < -threshold && caps.buy > 0;
      r.Success? ==>
        && |r.value.orders| <= 1
        && (r.value.orders == [] <==> !sell && !buy)
        && (r.value.orders == [] ==> r.value.net == v.net)
        && (sell ==>
              && r.value.orders[0].product == product
              && LowestResting(v.depth.buys, Buy, r.value.orders[0].price)
              && -r.value.orders[0].quantity <= caps.sell
              && r.value.net == v.net - Abs(r.value.orders[0].quantity))
        && (!sell && buy ==>
              && r.value.orders[0].product == product
              && HighestResting(v.depth.sells, Sell, r.value.orders[0].price)
              && r.value.orders[0].quantity <= caps.buy
              && r.value.net == v.net + Abs(r.value.orders[0].quantity))
  {
    var caps := Capacity(limit, live, v.net);
    var w := WorstBidAsk(v.depth, Strict);
    if w.Success? {
      FireOutcome(product, deviation > threshold, deviation < -threshold, w.value, caps.buy, caps.sell, fraction, v);
    }
  }

  /** `np.sign` on an integer. */
  function Sign(x: int): int {
    if x > 0 then 1 else if x < 0 then -1 else 0
  }

  /** The position a component should hold to match the basket: `|basket_live
      * trade_coef - live|`, or the basket's own limit for the basket. */
  function MatchPosition(product: string, basketLive: int, coef: int, live: int): int {
    if product != "GIFT_BASKET" then Abs(basketLive * coef - live) else Round4Limits["GIFT_BASKET"]
  }

  /** `kevin_spread_trading` of the round-4 trader: the worst levels of the
      simulated book (lenient lookup), the capacities capped by the match
      position, then a sell when `predicted_basket_direction * sign(trade_coef)`
      is negative and a buy when it is positive. */
  function MatchedSpread(product: string, direction: int, coef: int, fraction: real, live: int,
                         basketLive: int, limit: int, v: Venue): (r: Signal)
  {
    var worst := WorstBidAsk(v.depth, Lenient).value;
    var caps := Capacity(limit, live, v.net);
    var matched := MatchPosition(product, basketLive, coef, live);
    var action := direction * Sign(coef);
    Fire(product, action < 0, action > 0, worst, Min(caps.buy, matched), Min(caps.sell, matched), fraction, v)
  }

  /** The round-4 spread trade never trades more than the match position, nor
      more than the capacity on its side; it sells at the lowest resting bid
      and buys at the highest resting ask. */
  lemma MatchedSpreadBounds(product: string, direction: int, coef: int, fraction: real, live: int,
                            basketLive: int, limit: int, v: Venue)
    requires Total(v.depth.buys) >= 0 && Total(v.depth.sells) <= 0 && fraction >= 0.0
    ensures var s := MatchedSpread(product, direction, coef, fraction, live, basketLive, limit, v);
      var caps := Capacity(limit, live, v.net);
      var matched := MatchPosition(product, basketLive, coef, live);
      && |s.orders| <= 1
      && (s.orders == [] ==> s.net == v.net)
      && (s.orders != [] ==> direction * Sign(coef) != 0)
      && (s.orders != [] && direction * Sign(coef) < 0 ==>
            && 0 <= -s.orders[0].quantity <= Min(caps.sell, matched)
            && LowestResting(v.depth.buys, Buy, s.orders[0].price)
            && s.net == v.net + s.orders[0].quantity)
      && (s.orders != [] && direction * Sign(coef) > 0 ==>
            && 0 <= s.orders[0].quantity <= Min(caps.buy, matched)
            && HighestResting(v.depth.sells, Sell, s.orders[0].price)
            && s.net == v.net + s.orders[0].quantity)
  {
    var worst := WorstBidAsk(v.depth, Lenient).value;
    assert LowestResting(v.depth.buys, Buy, worst.bid) && HighestResting(v.depth.sells, Sell, worst.ask);
    var caps := Capacity(limit, live, v.net);
    var matched := MatchPosition(product, basketLive, coef, live);
    var action := direction * Sign(coef);
    FireOutcome(product, action < 0, action > 0, worst, Min(caps.buy, matched), Min(caps.sell, matched), fraction, v);
  }
}
