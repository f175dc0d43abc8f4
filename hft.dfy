/** The prediction-driven strategies: `kevin_price_hft`, which takes the levels
    of the simulated book priced through a band around a predicted price and
    then quotes the capacity left just inside the reference best levels, and
    `kevin_direction_hft`, which only builds one limit order in the predicted
    direction. */
module Hft {
  import opened Common
  import opened Book
  import opened Position
  import opened Claims
  import opened Desks
  import opened Levels

  /** Orders of `kevin_price_hft`, in the order they are emitted, and the venue
      it leaves. */
  datatype Traded = Traded(bought: seq<Order>, sold: seq<Order>, quotes: seq<Order>, venue: Venue)

  /** `ask <= acceptable_bid or (product_position < 0 and ask == acceptable_bid + 1)` */
  function BuyThrough(bidBound: real, short: bool): int -> bool {
    p => (p as real) <= bidBound || (short && (p as real) == bidBound + 1.0)
  }

  /** `bid >= acceptable_ask or (product_position > 0 and bid == acceptable_ask - 1)` */
  function SellThrough(askBound: real, long: bool): int -> bool {
    p => (p as real) >= askBound || (long && (p as real) == askBound - 1.0)
  }

  /** The reference best bid and ask, read from the simulated book before any
      take: the first elements of `stanford_values_extract` on each side, or
      `get_best_bid_ask` with its `.get` defaults. */
  function Reference(d: Depth, stanford: bool): (int, int) {
    if stanford then (StanfordScan(d.buys, Buy).best, StanfordScan(d.sells, Sell).best)
    else
      var q := BestBidAsk(d, Lenient);
      (q.value.bid, q.value.ask)
  }

  /** The provide phase: a sell of the sell capacity left at `best_ask - 1` when
      that price is at or above `acceptable_ask`, then a buy of the buy capacity
      left at `best_bid + 1` when that price is at or below `acceptable_bid`. */
  function Provide(product: string, bid: int, ask: int, askBound: real, bidBound: real,
                   buyLeft: int, sellLeft: int): seq<Order>
  {
    (if ((ask - 1) as real) >= askBound && sellLeft > 0 then [Order(product, ask - 1, -sellLeft)] else [])
    + (if ((bid + 1) as real) <= bidBound && buyLeft > 0 then [Order(product, bid + 1, buyLeft)] else [])
  }

  /** What the take phase leaves: the orders of both claim loops, the capacity
      each left, and the venue after both. */
  datatype Through = Through(bought: seq<Order>, sold: seq<Order>, buyLeft: int, sellLeft: int, venue: Venue)

  /** The take phase of `kevin_price_hft` with its capacities and position
      fixed: the asks of the simulated book (a copy of their list taken before
      the loop) bought through `kevin_market_take`, then its bids sold the same
      way. */
  function TakeThrough(pred: real, range: real, product: string, caps: Caps, pos: int, v: Venue): (r: Result<Through>)
    requires WellFormed(v.depth)
    ensures r.Success? ==> WellFormed(r.value.venue.depth)
  {
    var a :- Walk(v.depth.sells, BuyThrough(pred - range, pos < 0), Buy, product, Magnitude, caps.buy, v);
    var b :- Walk(a.venue.depth.buys, SellThrough(pred + range, pos > 0), Sell, product, Magnitude, caps.sell, a.venue);
    Success(Through(a.orders, b.orders, a.left, b.left, b.venue))
  }

  /** `kevin_price_hft` once the capacities, the position and the reference
      levels are known: the take phase, then the quotes of the capacity left,
      which are committed to the net position but not written into the book. */
  function Trade(pred: real, range: real, product: string, caps: Caps, pos: int, best: (int, int),
                 v: Venue): (r: Result<Traded>)
    requires WellFormed(v.depth)
    ensures r.Success? ==> WellFormed(r.value.venue.depth)
  {
    var t :- TakeThrough(pred, range, product, caps, pos, v);
    var quotes := Provide(product, best.0, best.1, pred + range, pred - range, t.buyLeft, t.sellLeft);
    Success(Traded(t.bought, t.sold, quotes, Venue(t.venue.depth, t.venue.net + Signed(quotes))))
  }

  /** `kevin_price_hft(predicted_price, product, ..., acceptable_range, standford_price)`:
      both capacities and the position `live + ordered` first, then the
      reference levels, then the take and provide phases. */
  function PriceHft(pred: real, range: real, product: string, live: int, limit: int, stanford: bool,
                    v: Venue): (r: Result<Traded>)
    requires WellFormed(v.depth)
  {
    Trade(pred, range, product, Capacity(limit, live, v.net), live + v.net, Reference(v.depth, stanford), v)
  }

  /** Both claim loops walk the simulated book's own levels, so the take phase
      never raises `KeyError`. */
  lemma TakeThroughTotal(pred: real, range: real, product: string, caps: Caps, pos: int, v: Venue)
    requires WellFormed(v.depth)
    ensures TakeThrough(pred, range, product, caps, pos, v).Success?
  {
    WalkOwnBook(BuyThrough(pred - range, pos < 0), Buy, product, Magnitude, caps.buy, v);
    var a := Walk(v.depth.sells, BuyThrough(pred - range, pos < 0), Buy, product, Magnitude, caps.buy, v);
    WalkOwnBook(SellThrough(pred + range, pos > 0), Sell, product, Magnitude, caps.sell, a.value.venue);
  }

  /** The take phase buys only asks through the lower band edge (or one tick
      above it when short) and sells only bids through the upper edge (or one
      tick below it when long); each side consumes exactly the capacity it does
      not leave, and never more than it had. */
  lemma TakeThroughOrders(pred: real, range: real, product: string, caps: Caps, pos: int, v: Venue)
    requires WellFormed(v.depth)
    ensures var r := TakeThrough(pred, range, product, caps, pos, v);
      r.Success? ==>
        && AllFit(r.value.bought, BuyThrough(pred - range, pos < 0), Buy, product)
        && AllFit(r.value.sold, SellThrough(pred + range, pos > 0), Sell, product)
        && Gross(r.value.bought) == caps.buy - r.value.buyLeft <= Max(0, caps.buy)
        && Gross(r.value.sold) == caps.sell - r.value.sellLeft <= Max(0, caps.sell)
  {
    var a := Walk(v.depth.sells, BuyThrough(pred - range, pos < 0), Buy, product, Magnitude, caps.buy, v);
    assert NonNegativeWants(v.depth.sells, Magnitude);
    WalkOrders(v.depth.sells, BuyThrough(pred - range, pos < 0), Buy, product, Magnitude, caps.buy, v);
    WalkAccounting(v.depth.sells, BuyThrough(pred - range, pos < 0), Buy, product, Magnitude, caps.buy, v);
    if a.Success? {
      var buys := a.value.venue.depth.buys;
      assert NonNegativeWants(buys, Magnitude);
      WalkOrders(buys, SellThrough(pred + range, pos > 0), Sell, product, Magnitude, caps.sell, a.value.venue);
      WalkAccounting(buys, SellThrough(pred + range, pos > 0), Sell, product, Magnitude, caps.sell, a.value.venue);
    }
  }

  /** The take phase moves the net position by what it bought less what it sold. */
  lemma TakeThroughNet(pred: real, range: real, product: string, caps: Caps, pos: int, v: Venue)
    requires WellFormed(v.depth)
    ensures var r := TakeThrough(pred, range, product, caps, pos, v);
      r.Success? ==> r.value.venue.net == v.net + Gross(r.value.bought) - Gross(r.value.sold)
  {
    var a := Walk(v.depth.sells, BuyThrough(pred - range, pos < 0), Buy, product, Magnitude, caps.buy, v);
    assert NonNegativeWants(v.depth.sells, Magnitude);
    WalkNet(v.depth.sells, BuyThrough(pred - range, pos < 0), Buy, product, Magnitude, caps.buy, v);
    if a.Success? {
      var buys := a.value.venue.depth.buys;
      assert NonNegativeWants(buys, Magnitude);
      WalkNet(buys, SellThrough(pred + range, pos > 0), Sell, product, Magnitude, caps.sell, a.value.venue);
    }
  }

  /** The take phase adds no price level to either side of the simulated book. */
  lemma TakeThroughNoNewLevel(pred: real, range: real, product: string, caps: Caps, pos: int, v: Venue, k: int)
    requires WellFormed(v.depth)
    ensures var r := TakeThrough(pred, range, product, caps, pos, v);
      r.Success? ==>
        && (Get(v.depth.sells, k) == None ==> Get(r.value.venue.depth.sells, k) == None)
        && (Get(v.depth.buys, k) == None ==> Get(r.value.venue.depth.buys, k) == None)
  {
    var a := Walk(v.depth.sells, BuyThrough(pred - range, pos < 0), Buy, product, Magnitude, caps.buy, v);
    if Get(v.depth.sells, k) == None {
      WalkNoNewLevel(v.depth.sells, BuyThrough(pred - range, pos < 0), Buy, product, Magnitude, caps.buy, v, k);
    }
    if a.Success? {
      var buys := a.value.venue.depth.buys;
      assert buys == v.depth.buys;
      var b := Walk(buys, SellThrough(pred + range, pos > 0), Sell, product, Magnitude, caps.sell, a.value.venue);
      if b.Success? {
        assert b.value.venue.depth.sells == a.value.venue.depth.sells;
      }
      if Get(buys, k) == None {
        WalkNoNewLevel(buys, SellThrough(pred + range, pos > 0), Sell, product, Magnitude, caps.sell, a.value.venue, k);
      }
    }
  }

  /** A walk never creates a level on the side it trades against. */
  lemma {:induction false} WalkNoNewLevel(levels: Side, accept: int -> bool, dir: Direction, product: string,
                                          sizing: Sizing, cap: int, v: Venue, k: int)
    requires WellFormed(v.depth) && Get(Facing(v.depth, dir), k) == None
    ensures var r := Walk(levels, accept, dir, product, sizing, cap, v);
      r.Success? ==> Get(Facing(r.value.venue.depth, dir), k) == None
    decreases |levels|
  {
    if levels != [] {
      if accept(levels[0].key) && cap > 0 {
        var c := Claim(product, levels[0], dir, sizing, cap, v);
        if c.Success? {
          assert k != levels[0].key;
          ClaimKeeps(product, levels[0], dir, sizing, cap, v, k);
          WalkNoNewLevel(levels[1..], accept, dir, product, sizing, c.value.left, c.value.venue, k);
        }
      } else {
        WalkNoNewLevel(levels[1..], accept, dir, product, sizing, cap, v, k);
      }
    }
  }

  /** The quotes: at most a sell and a buy, in that order. A sell quote is for
      exactly the sell capacity left, at `best_ask - 1` on or above the upper
      band edge; a buy quote for exactly the buy capacity left, at
      `best_bid + 1` on or below the lower edge. They move the net position by
      the buy quote less the sell quote. */
  lemma ProvideQuotes(product: string, bid: int, ask: int, askBound: real, bidBound: real,
                      buyLeft: int, sellLeft: int)
    ensures var quotes := Provide(product, bid, ask, askBound, bidBound, buyLeft, sellLeft);
      && |quotes| <= 2
      && (forall i :: 0 <= i < |quotes| ==>
            && quotes[i].product == product
            && if quotes[i].quantity < 0 then
                 && quotes[i] == Order(product, ask - 1, -sellLeft)
                 && (quotes[i].price as real) >= askBound
               else
                 && quotes[i] == Order(product, bid + 1, buyLeft)
                 && quotes[i].quantity > 0
                 && (quotes[i].price as real) <= bidBound)
      && Signed(quotes) ==
        (if ((bid + 1) as real) <= bidBound && buyLeft > 0 then buyLeft else 0)
        - (if ((ask - 1) as real) >= askBound && sellLeft > 0 then sellLeft else 0)
  {
    var sells := if ((ask - 1) as real) >= askBound && sellLeft > 0 then [Order(product, ask - 1, -sellLeft)] else [];
    var buys := if ((bid + 1) as real) <= bidBound && buyLeft > 0 then [Order(product, bid + 1, buyLeft)] else [];
    SignedAppend(sells, buys);
  }

  /** A quote of `kevin_price_hft` completes its side's capacity: a buy quote
      plus what was bought is exactly the buy capacity, a sell quote plus what
      was sold exactly the sell capacity, so the position never passes the limit
      through this strategy alone. The net position moves by everything emitted,
      and the book gains no level. */
  lemma TradeOutcome(pred: real, range: real, product: string, caps: Caps, pos: int, best: (int, int),
                     v: Venue, k: int)
    requires WellFormed(v.depth)
    ensures var r := Trade(pred, range, product, caps, pos, best, v);
      r.Success? ==>
        && (forall i :: 0 <= i < |r.value.quotes| ==>
              if r.value.quotes[i].quantity < 0 then Gross(r.value.sold) - r.value.quotes[i].quantity == caps.sell
              else Gross(r.value.bought) + r.value.quotes[i].quantity == caps.buy)
        && r.value.venue.net == v.net + Gross(r.value.bought) - Gross(r.value.sold) + Signed(r.value.quotes)
        && (Get(v.depth.sells, k) == None ==> Get(r.value.venue.depth.sells, k) == None)
        && (Get(v.depth.buys, k) == None ==> Get(r.value.venue.depth.buys, k) == None)
  {
    var t := TakeThrough(pred, range, product, caps, pos, v);
    if t.Success? {
      TakeThroughOrders(pred, range, product, caps, pos, v);
      TakeThroughNet(pred, range, product, caps, pos, v);
      TakeThroughNoNewLevel(pred, range, product, caps, pos, v, k);
      ProvideQuotes(product, best.0, best.1, pred + range, pred - range, t.value.buyLeft, t.value.sellLeft);
    }
  }

  /** The desk version of `kevin_price_hft`. */
  method PriceHftTrade(desk: Desk, pred: real, range: real, product: string, live: int, limit: int,
                       stanford: bool)
    returns (r: Result<seq<Order>>)
    requires desk.Valid() && desk.Tracks(product)
    modifies desk
    ensures desk.Valid()
    ensures var spec := PriceHft(pred, range, product, live, limit, stanford, old(desk.VenueOf(product)));
      && (r.Success? <==> spec.Success?)
      && (spec.Success? ==>
            && r.value == spec.value.bought + spec.value.sold + spec.value.quotes
            && desk.Became(product, spec.value.venue))
  {
    var caps := Capacity(limit, live, desk.ordered[product]);
    var pos := live + desk.ordered[product];
    var bid, ask := ReferenceLevels(desk.lob[product], stanford);
    r := TradeOnDesk(desk, pred, range, product, caps, pos, bid, ask);
  }

  /** Both phases on the desk. */
  method TradeOnDesk(desk: Desk, pred: real, range: real, product: string, caps: Caps, pos: int,
                     bid: int, ask: int)
    returns (r: Result<seq<Order>>)
    requires desk.Valid() && desk.Tracks(product)
    modifies desk
    ensures desk.Valid()
    ensures var spec := Trade(pred, range, product, caps, pos, (bid, ask), old(desk.VenueOf(product)));
      && (r.Success? <==> spec.Success?)
      && (spec.Success? ==>
            && r.value == spec.value.bought + spec.value.sold + spec.value.quotes
            && desk.Became(product, spec.value.venue))
  {
    ghost var v := desk.VenueOf(product);
    var t := TakeOnDesk(desk, pred, range, product, caps, pos);
    if t.Failure? {
      return Failure(t.error);
    }
    ghost var after := desk.VenueOf(product);
    var quotes := ProvideOnDesk(desk, product, bid, ask, pred + range, pred - range, t.value.buyLeft, t.value.sellLeft);
    UpdateTwice(old(desk.lob), product, after.depth, desk.lob[product]);
    UpdateTwice(old(desk.ordered), product, after.net, desk.ordered[product]);
    r := Success(t.value.bought + t.value.sold + quotes);
  }

  /** The take phase on the desk: the two claim loops over the simulated book's
      own asks, then its own bids. */
  method TakeOnDesk(desk: Desk, pred: real, range: real, product: string, caps: Caps, pos: int)
    returns (r: Result<Through>)
    requires desk.Valid() && desk.Tracks(product)
    modifies desk
    ensures desk.Valid()
    ensures r == TakeThrough(pred, range, product, caps, pos, old(desk.VenueOf(product)))
    ensures r.Success? ==> desk.Became(product, r.value.venue)
  {
    ghost var v := desk.VenueOf(product);
    var a := desk.WalkLevels(desk.lob[product].sells, BuyThrough(pred - range, pos < 0), Buy, product,
                             Magnitude, caps.buy);
    if a.Failure? {
      return Failure(a.error);
    }
    ghost var mid := desk.VenueOf(product);
    assert mid == a.value.venue;
    var b := desk.WalkLevels(desk.lob[product].buys, SellThrough(pred + range, pos > 0), Sell, product,
                             Magnitude, caps.sell);
    if b.Failure? {
      return Failure(b.error);
    }
    UpdateTwice(old(desk.lob), product, mid.depth, b.value.venue.depth);
    UpdateTwice(old(desk.ordered), product, mid.net, b.value.venue.net);
    r := Success(Through(a.value.orders, b.value.orders, a.value.left, b.value.left, b.value.venue));
  }

  /** The provide phase on the desk: each quote is emitted and committed to
      `ordered_position`, sell first; the book is left alone. */
  method ProvideOnDesk(desk: Desk, product: string, bid: int, ask: int, askBound: real, bidBound: real,
                       buyLeft: int, sellLeft: int)
    returns (quotes: seq<Order>)
    requires desk.Valid() && desk.Tracks(product)
    modifies desk
    ensures desk.Valid()
    ensures quotes == Provide(product, bid, ask, askBound, bidBound, buyLeft, sellLeft)
    ensures desk.Became(product, Venue(old(desk.lob[product]), old(desk.ordered[product]) + Signed(quotes)))
  {
    quotes := [];
    if ((ask - 1) as real) >= askBound && sellLeft > 0 {
      quotes := quotes + [Order(product, ask - 1, -sellLeft)];
      var _ := desk.Commit(product, -sellLeft, Sell);
    }
    if ((bid + 1) as real) <= bidBound && buyLeft > 0 {
      quotes := quotes + [Order(product, bid + 1, buyLeft)];
      var _ := desk.Commit(product, buyLeft, Buy);
    }
    ProvideQuotes(product, bid, ask, askBound, bidBound, buyLeft, sellLeft);
  }

  /** The reference levels of `kevin_price_hft`, computed by the scan loop of
      `stanford_values_extract` or by `get_best_bid_ask`. */
  method ReferenceLevels(d: Depth, stanford: bool) returns (bid: int, ask: int)
    ensures (bid, ask) == Reference(d, stanford)
  {
    if stanford {
      var bidTotal, askTotal;
      bid, bidTotal := StanfordValuesExtract(d.buys, Buy);
      ask, askTotal := StanfordValuesExtract(d.sells, Sell);
    } else {
      var q := BestBidAsk(d, Lenient);
      bid, ask := q.value.bid, q.value.ask;
    }
  }

  /** `kevin_direction_hft(predicted_direction, product, ...)`: the direction
      must be 1 or -1 (an `AssertionError` otherwise); the capacities come
      first, then the best levels of the simulated book with the strict
      lookup. It fails only on a bad direction or on a best level the strict
      lookup cannot read. Otherwise it emits at most one order, in the
      predicted direction, for the whole capacity of that side, one tick inside
      the best level, and nothing exactly when that capacity is not positive.
      The simulated book and the net position are only read. */
  function DirectionHft(direction: int, product: string, live: int, limit: int, v: Venue): (r: Result<seq<Order>>)
    ensures direction != 1 && direction != -1 ==> r == Failure(AssertionError)
    ensures direction == 1 || direction == -1 ==>
      && (r.Failure? <==> BestBidAsk(v.depth, Strict).Failure?)
      && (r.Failure? ==> r.error == KeyError)
    ensures r.Success? ==>
      var caps := Capacity(limit, live, v.net);
      var q := BestBidAsk(v.depth, Strict).value;
      && |r.value| <= 1
      && (r.value == [] <==> (if direction == 1 then caps.buy <= 0 else caps.sell <= 0))
      && (direction == 1 && r.value != [] ==> r.value[0] == Order(product, q.bid + 1, caps.buy))
      && (direction == -1 && r.value != [] ==> r.value[0] == Order(product, q.ask - 1, -caps.sell))
    // The one order never carries live + net past the limit on its side.
    ensures r.Success? && r.value != [] ==>
      if direction == 1 then live + v.net + r.value[0].quantity <= limit
      else live + v.net + r.value[0].quantity >= -limit
  {
    if direction != 1 && direction != -1 then Failure(AssertionError)
    else
      var caps := Capacity(limit, live, v.net);
      var q :- BestBidAsk(v.depth, Strict);
      if direction == 1 then
        if caps.buy > 0 then Success([Order(product, q.bid + 1, caps.buy)]) else Success([])
      else
        if caps.sell > 0 then Success([Order(product, q.ask - 1, -caps.sell)]) else Success([])
  }
}
