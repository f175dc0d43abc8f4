/** The quoting strategy `kevin_residual_market_maker`: it posts the whole
    remaining capacity one tick inside the best levels of the simulated book,
    writes each quote into that book and commits it to the provisional net. */
module Making {
  import opened Common
  import opened Book
  import opened Position
  import opened Claims
  import opened Desks
  import opened Levels

  /** Orders of a quoting strategy and the venue it leaves. */
  datatype Quoted = Quoted(orders: seq<Order>, venue: Venue)

  /** Which limit orders the market maker posts, `limit_buy` and `limit_sell`. */
  datatype Sides = Sides(buy: bool, sell: bool)

  /** The `if / elif / elif` chain of `kevin_residual_market_maker`. It decides
      each side on its own: the first branch fires exactly when both of the
      others would. */
  function MakerSides(bid: int, ask: int, acc: real, caps: Caps): (s: Sides)
    ensures s.sell <==> ask - bid > 0 && ((ask - 1) as real) > acc && caps.sell > 0
    ensures s.buy <==> ask - bid > 0 && ((bid + 1) as real) < acc && caps.buy > 0
  {
    if ask - bid <= 0 then Sides(false, false)
    else if ((ask - 1) as real) > acc > ((bid + 1) as real) && caps.sell > 0 && caps.buy > 0 then Sides(true, true)
    else if ((ask - 1) as real) > acc && caps.sell > 0 then Sides(false, true)
    else if ((bid + 1) as real) < acc && caps.buy > 0 then Sides(true, false)
    else Sides(false, false)
  }

  /** A limit order written into the simulated book: `book[price] = volume` on
      the side the order rests on, and the net moved by `|amount|` in `dir`. */
  function Quote(v: Venue, dir: Direction, price: int, volume: int, amount: int): (r: Venue)
    requires WellFormed(v.depth)
    ensures WellFormed(r.depth) && Facing(r.depth, dir) == Facing(v.depth, dir)
  {
    Venue(WithOwn(v.depth, dir, Put(Own(v.depth, dir), price, volume)), Commit(v.net, amount, dir))
  }

  /** The posting half of `kevin_residual_market_maker` once the capacities and
      the best bid and ask are known: the buy quote (`bid + 1`, the whole buy
      capacity) is written and committed before the sell quote (`ask - 1`, the
      whole sell capacity). */
  function Post(product: string, bid: int, ask: int, sides: Sides, caps: Caps, v: Venue): (r: Quoted)
    requires WellFormed(v.depth)
    ensures WellFormed(r.venue.depth)
  {
    var v1 := if sides.buy then Quote(v, Buy, bid + 1, caps.buy, caps.buy) else v;
    var v2 := if sides.sell then Quote(v1, Sell, ask - 1, -caps.sell, -caps.sell) else v1;
    var buys := if sides.buy then [Order(product, bid + 1, caps.buy)] else [];
    var sells := if sides.sell then [Order(product, ask - 1, -caps.sell)] else [];
    Quoted(buys + sells, v2)
  }

  /** `kevin_residual_market_maker`: capacities first, then the best levels of the
      simulated book, then the quotes. The round-4 trader reads the best levels
      leniently, the round-1 and round-3 traders strictly. */
  function Maker(acc: real, product: string, live: int, limit: int, lookup: Lookup, v: Venue): (r: Result<Quoted>)
    requires WellFormed(v.depth)
    ensures lookup.Lenient? ==> r.Success?
    ensures r.Failure? ==> r.error == KeyError
    // Every buy quote is below the fair price and every sell quote above it.
    ensures r.Success? ==> forall i :: 0 <= i < |r.value.orders| ==>
      if r.value.orders[i].quantity > 0 then (r.value.orders[i].price as real) < acc
      else r.value.orders[i].quantity < 0 && (r.value.orders[i].price as real) > acc
  {
    var caps := Capacity(limit, live, v.net);
    var q :- BestBidAsk(v.depth, lookup);
    MakerPrices(product, q.bid, q.ask, acc, caps, v);
    Success(Post(product, q.bid, q.ask, MakerSides(q.bid, q.ask, acc, caps), caps, v))
  }

  /** The orders of the posting half: the buy of the whole buy capacity at
      `bid + 1` comes first, the sell of the whole sell capacity at `ask - 1`
      last, and the net moves by both. */
  lemma PostOrders(product: string, bid: int, ask: int, sides: Sides, caps: Caps, v: Venue)
    requires WellFormed(v.depth)
    ensures var after := Post(product, bid, ask, sides, caps, v);
      && |after.orders| == (if sides.buy then 1 else 0) + (if sides.sell then 1 else 0)
      && (sides.buy ==> after.orders[0] == Order(product, bid + 1, caps.buy))
      && (sides.sell ==> after.orders[|after.orders| - 1] == Order(product, ask - 1, -caps.sell))
      && after.venue.net == v.net + (if sides.buy then Abs(caps.buy) else 0) - (if sides.sell then Abs(caps.sell) else 0)
  {
    var v1 := if sides.buy then Quote(v, Buy, bid + 1, caps.buy, caps.buy) else v;
    assert v1.net == v.net + (if sides.buy then Abs(caps.buy) else 0);
  }

  /** After posting, the bid side holds the buy quote at `bid + 1` and every
      other bid level is as before. */
  lemma PostBids(product: string, bid: int, ask: int, sides: Sides, caps: Caps, v: Venue, k: int)
    requires WellFormed(v.depth)
    ensures Get(Post(product, bid, ask, sides, caps, v).venue.depth.buys, k) ==
      if sides.buy && k == bid + 1 then Some(caps.buy) else Get(v.depth.buys, k)
  {
    if sides.buy {
      var v1 := Quote(v, Buy, bid + 1, caps.buy, caps.buy);
      assert v1.depth.buys == Put(v.depth.buys, bid + 1, caps.buy);
      assert Post(product, bid, ask, sides, caps, v).venue.depth.buys == v1.depth.buys;
      PutLookup(v.depth.buys, bid + 1, caps.buy);
    } else {
      assert Post(product, bid, ask, sides, caps, v).venue.depth.buys == v.depth.buys;
    }
  }

  /** After posting, the ask side holds the sell quote at `ask - 1` and every
      other ask level is as before. */
  lemma PostAsks(product: string, bid: int, ask: int, sides: Sides, caps: Caps, v: Venue, k: int)
    requires WellFormed(v.depth)
    ensures Get(Post(product, bid, ask, sides, caps, v).venue.depth.sells, k) ==
      if sides.sell && k == ask - 1 then Some(-caps.sell) else Get(v.depth.sells, k)
  {
    var v1 := if sides.buy then Quote(v, Buy, bid + 1, caps.buy, caps.buy) else v;
    assert v1.depth.sells == v.depth.sells;
    if sides.sell {
      var v2 := Quote(v1, Sell, ask - 1, -caps.sell, -caps.sell);
      assert v2.depth.sells == Put(v.depth.sells, ask - 1, -caps.sell);
      assert Post(product, bid, ask, sides, caps, v).venue.depth.sells == v2.depth.sells;
      PutLookup(v.depth.sells, ask - 1, -caps.sell);
    } else {
      assert Post(product, bid, ask, sides, caps, v).venue.depth.sells == v.depth.sells;
    }
  }

  /** With the sides the market maker picks, a buy is posted only below the fair
      price and a sell only above it, each for a positive quantity, and nothing
      is posted unless the best ask is above the best bid. */
  lemma MakerPrices(product: string, bid: int, ask: int, acc: real, caps: Caps, v: Venue)
    requires WellFormed(v.depth)
    ensures var after := Post(product, bid, ask, MakerSides(bid, ask, acc, caps), caps, v);
      && (after.orders != [] ==> ask > bid)
      && (forall i :: 0 <= i < |after.orders| ==>
            if after.orders[i].quantity > 0 then (after.orders[i].price as real) < acc
            else after.orders[i].quantity < 0 && (after.orders[i].price as real) > acc)
  {
    PostOrders(product, bid, ask, MakerSides(bid, ask, acc, caps), caps, v);
  }

  /** The desk version of `kevin_residual_market_maker`. */
  method ResidualMarketMaker(desk: Desk, acc: real, product: string, live: int, limit: int, lookup: Lookup)
    returns (r: Result<seq<Order>>)
    requires desk.Valid() && desk.Tracks(product)
    modifies desk
    ensures desk.Valid()
    ensures var spec := Maker(acc, product, live, limit, lookup, old(desk.VenueOf(product)));
      && (r.Success? <==> spec.Success?)
      && (spec.Success? ==> r.value == spec.value.orders && desk.Became(product, spec.value.venue))
  {
    ghost var v := desk.VenueOf(product);
    var caps := Capacity(limit, live, desk.ordered[product]);
    var q := BestBidAsk(desk.lob[product], lookup);
    if q.Failure? {
      return Failure(q.error);
    }
    var sides := MakerSides(q.value.bid, q.value.ask, acc, caps);
    assert Maker(acc, product, live, limit, lookup, v) == Success(Post(product, q.value.bid, q.value.ask, sides, caps, v));
    var orders := PostSides(desk, product, q.value.bid, q.value.ask, sides, caps);
    r := Success(orders);
  }

  /** The posting half on the desk: write and commit the buy quote, then the
      sell quote. */
  method PostSides(desk: Desk, product: string, bid: int, ask: int, sides: Sides, caps: Caps)
    returns (orders: seq<Order>)
    requires desk.Valid() && desk.Tracks(product)
    modifies desk
    ensures desk.Valid()
    ensures var spec := Post(product, bid, ask, sides, caps, old(desk.VenueOf(product)));
      orders == spec.orders && desk.Became(product, spec.venue)
  {
    ghost var v := desk.VenueOf(product);
    orders := [];
    ghost var v1 := v;
    if sides.buy {
      orders := orders + [Order(product, bid + 1, caps.buy)];
      PostOne(desk, product, Buy, bid + 1, caps.buy);
      v1 := Quote(v, Buy, bid + 1, caps.buy, caps.buy);
    }
    if sides.sell {
      orders := orders + [Order(product, ask - 1, -caps.sell)];
      PostOne(desk, product, Sell, ask - 1, -caps.sell);
      UpdateTwice(old(desk.lob), product, v1.depth, desk.lob[product]);
      UpdateTwice(old(desk.ordered), product, v1.net, desk.ordered[product]);
    }
  }

  /** One quote on the desk: `book[price] = volume` on the quoting side of `dir`,
      then `update_estimated_position(ordered_position, product, volume, dir)`. */
  method PostOne(desk: Desk, product: string, dir: Direction, price: int, volume: int)
    requires desk.Valid() && desk.Tracks(product)
    modifies desk
    ensures desk.Valid() && desk.Tracks(product)
    ensures desk.Became(product, Quote(old(desk.VenueOf(product)), dir, price, volume, volume))
  {
    var _ := desk.PostQuote(product, dir, price, volume);
    var _ := desk.Commit(product, volume, dir);
  }
}
