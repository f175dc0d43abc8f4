/** Cross-venue arbitrage, `kevin_exchange_arb` of the round-3 trader: carry the
    conversions owed from the previous tick (reconciled against this tick's own
    fills), take the local levels priced through the foreign fair bid and ask,
    then post one provision just outside them. The foreign fair bid and ask are
    inputs. */
module Exchange {
  import opened Common
  import opened Book
  import opened Position
  import opened Claims
  import opened Desks
  import opened Levels
  import opened Taking
  import Making

  /** A one-sided provision, cached at slots [2] (price) and [3] (signed amount). */
  datatype Provision = Provision(price: int, amount: int)

  /** The four slots of a product's cache list that the arbitrage owns: [0] the
      price of the last pure-arb take, [1] the conversions owed for this tick's
      takes, [2] and [3] the provision. `None` is the placeholder that
      `set_up_cached_trader_data` writes before the arbitrage runs. */
  datatype Slot = Slot(convPrice: Option<int>, conversions: Option<int>, provision: Option<Provision>)

  /** One own trade of `state.own_trades[product]`. */
  datatype Fill = Fill(price: int, quantity: int)

  /** One pass of the reconciliation loop: a fill at the provision's price whose
      quantity differs from `|conversions|` adds to the conversions when the
      provision was a sell (`np.sign(amount) == -1`) and subtracts otherwise. */
  function Settle(conv: int, p: Provision, t: Fill): int {
    if t.price == p.price && t.quantity != Abs(conv) then
      if p.amount < 0 then conv + t.quantity else conv - t.quantity
    else conv
  }

  /** The loop over the own fills, oldest first. Without a provision no fill
      matches (`trade.price == None` is false). */
  function Reconcile(conv: int, provision: Option<Provision>, trades: seq<Fill>): int
    decreases |trades|
  {
    if trades == [] || provision.None? then conv
    else Settle(Reconcile(conv, provision, trades[..|trades| - 1]), provision.value, trades[|trades| - 1])
  }

  /** The reconciliation loop itself. */
  method ReconcileFills(conv: int, provision: Option<Provision>, trades: seq<Fill>) returns (c: int)
    ensures c == Reconcile(conv, provision, trades)
  {
    c := conv;
    for i := 0 to |trades|
      invariant c == Reconcile(conv, provision, trades[..i])
    {
      assert trades[..i + 1][..i] == trades[..i];
      if provision.Some? && trades[i].price == provision.value.price && trades[i].quantity != Abs(c) {
        if provision.value.amount < 0 {
          c := c + trades[i].quantity;
        } else {
          c := c - trades[i].quantity;
        }
      }
    }
    assert trades[..|trades|] == trades;
  }

  /** The total quantity of the fills at `price`. */
  function Matched(trades: seq<Fill>, price: int): int
    decreases |trades|
  {
    if trades == [] then 0
    else Matched(trades[..|trades| - 1], price) + (if trades[|trades| - 1].price == price then trades[|trades| - 1].quantity else 0)
  }

  /** Fills at other prices leave the carried conversions alone. */
  lemma {:induction false} ReconcileUnmatched(conv: int, provision: Option<Provision>, trades: seq<Fill>)
    requires provision.Some? ==> forall i :: 0 <= i < |trades| ==> trades[i].price != provision.value.price
    ensures Reconcile(conv, provision, trades) == conv
    decreases |trades|
  {
    if trades != [] && provision.Some? {
      var init := trades[..|trades| - 1];
      assert forall i :: 0 <= i < |init| ==> init[i] == trades[i];
      ReconcileUnmatched(conv, provision, init);
    }
  }

  /** With fills of non-negative quantity, a filled sell provision can only
      raise the conversions (what was sold locally is bought back abroad) and a
      filled buy provision only lower them, by at most the quantity filled at
      the provision's price. */
  lemma {:induction false} ReconcileDirection(conv: int, p: Provision, trades: seq<Fill>)
    requires forall i :: 0 <= i < |trades| ==> trades[i].quantity >= 0
    ensures var c := Reconcile(conv, Some(p), trades);
      && (p.amount < 0 ==> conv <= c <= conv + Matched(trades, p.price))
      && (p.amount >= 0 ==> conv - Matched(trades, p.price) <= c <= conv)
    decreases |trades|
  {
    if trades != [] {
      var init := trades[..|trades| - 1];
      assert forall i :: 0 <= i < |init| ==> init[i] == trades[i];
      ReconcileDirection(conv, p, init);
    }
  }

  /** The conversions carried into this tick: 0 on the first tick for a product
      never held; otherwise slot [1] of the previous cache entry, reconciled.
      Reading the previous entry raises `IndexError` when the cache holds one
      entry and `KeyError` when it lacks the product; a placeholder `None` in
      slot [1] makes `abs(conversions)` raise `TypeError`. */
  function Carry(product: string, timestamp: int, position: map<string, int>,
                 cache: seq<map<string, Slot>>, trades: seq<Fill>): (r: Result<int>)
    ensures timestamp == 0 && product !in position ==> r == Success(0)
    ensures !(timestamp == 0 && product !in position) ==>
      && (|cache| < 2 ==> r == Failure(IndexError))
      && (|cache| >= 2 && product !in cache[|cache| - 2] ==> r == Failure(KeyError))
      && (|cache| >= 2 && product in cache[|cache| - 2] ==>
            var slot := cache[|cache| - 2][product];
            && (slot.conversions.None? ==> r == Failure(TypeError))
            && (slot.conversions.Some? ==> r == Success(Reconcile(slot.conversions.value, slot.provision, trades))))
  {
    if timestamp == 0 && product !in position then Success(0)
    else if |cache| < 2 then Failure(IndexError)
    else if product !in cache[|cache| - 2] then Failure(KeyError)
    else
      var slot := cache[|cache| - 2][product];
      if slot.conversions.None? then Failure(TypeError)
      else Success(Reconcile(slot.conversions.value, slot.provision, trades))
  }

  /** The pure-arb takes: the two claim loops and what they leave. */
  datatype Swept = Swept(bought: seq<Order>, sold: seq<Order>, buyLeft: int, sellLeft: int, venue: Venue)

  /** The two pure-arb loops over the snapshot: its asks below the foreign fair
      bid are bought, then its bids above the foreign fair ask are sold, each
      through `kevin_market_take` on the simulated book; every take also bumps
      the net by one unit in its direction. */
  function Sweep(product: string, snapshot: Depth, fairAsk: real, fairBid: real, buyCap: int, sellCap: int,
                 v: Venue): Result<Swept>
    requires WellFormed(v.depth)
  {
    var a :- Walk(snapshot.sells, Below(fairBid), Buy, product, Magnitude, buyCap, v);
    SweepSells(product, snapshot, fairAsk, sellCap, a)
  }

  /** The second pure-arb loop, once the first has left `a`: the net is bumped
      by one unit per buy before the bids are walked. */
  function SweepSells(product: string, snapshot: Depth, fairAsk: real, sellCap: int, a: Claimed): Result<Swept>
    requires WellFormed(a.venue.depth)
  {
    var bumped := Venue(a.venue.depth, a.venue.net + |a.orders|);
    var b :- Walk(snapshot.buys, Above(fairAsk), Sell, product, Magnitude, sellCap, bumped);
    Success(Swept(a.orders, b.orders, a.left, b.left, Venue(b.venue.depth, b.venue.net - |b.orders|)))
  }

  /** Every take buys below the foreign fair bid or sells above the foreign
      fair ask; each side uses exactly the capacity its orders add up to and
      never more than it had; the net moves by the gross quantities plus the
      one-unit bump of every take. */
  lemma SweepOutcome(product: string, snapshot: Depth, fairAsk: real, fairBid: real, buyCap: int, sellCap: int,
                     v: Venue)
    requires WellFormed(v.depth)
    ensures var r := Sweep(product, snapshot, fairAsk, fairBid, buyCap, sellCap, v);
      r.Success? ==>
        && AllFit(r.value.bought, Below(fairBid), Buy, product)
        && AllFit(r.value.sold, Above(fairAsk), Sell, product)
        && Gross(r.value.bought) == buyCap - r.value.buyLeft <= Max(0, buyCap)
        && Gross(r.value.sold) == sellCap - r.value.sellLeft <= Max(0, sellCap)
        && r.value.venue.net == v.net + Gross(r.value.bought) + |r.value.bought|
                                      - Gross(r.value.sold) - |r.value.sold|
  {
    var a := Walk(snapshot.sells, Below(fairBid), Buy, product, Magnitude, buyCap, v);
    if a.Success? {
      MagnitudeWalk(snapshot.sells, Below(fairBid), Buy, product, buyCap, v, a.value);
      SweepSellsOutcome(product, snapshot, fairAsk, sellCap, a.value);
    }
  }

  /** The second loop keeps what the first bought and sells only above the
      foreign fair ask, within its capacity, moving the bumped net down by the
      gross quantity sold and one unit per sale. */
  lemma SweepSellsOutcome(product: string, snapshot: Depth, fairAsk: real, sellCap: int, a: Claimed)
    requires WellFormed(a.venue.depth)
    ensures var r := SweepSells(product, snapshot, fairAsk, sellCap, a);
      r.Success? ==>
        && r.value.bought == a.orders && r.value.buyLeft == a.left
        && AllFit(r.value.sold, Above(fairAsk), Sell, product)
        && Gross(r.value.sold) == sellCap - r.value.sellLeft <= Max(0, sellCap)
        && r.value.venue.net == a.venue.net + |a.orders| - Gross(r.value.sold) - |r.value.sold|
  {
    var bumped := Venue(a.venue.depth, a.venue.net + |a.orders|);
    var b := Walk(snapshot.buys, Above(fairAsk), Sell, product, Magnitude, sellCap, bumped);
    if b.Success? {
      MagnitudeWalk(snapshot.buys, Above(fairAsk), Sell, product, sellCap, bumped, b.value);
    }
  }

  /** What one pure-arb loop promises: every take passes the acceptance test,
      the capacity spent is the gross quantity and never more than there was,
      and the net moves by that gross quantity. */
  lemma MagnitudeWalk(levels: Side, accept: int -> bool, dir: Direction, product: string, cap: int,
                      v: Venue, c: Claimed)
    requires WellFormed(v.depth)
    requires Walk(levels, accept, dir, product, Magnitude, cap, v) == Success(c)
    ensures AllFit(c.orders, accept, dir, product)
    ensures Gross(c.orders) == cap - c.left <= Max(0, cap)
    ensures c.venue.net == v.net + dir.Apply(Gross(c.orders))
  {
    WalkNet(levels, accept, dir, product, Magnitude, cap, v);
    WalkAccounting(levels, accept, dir, product, Magnitude, cap, v);
    WalkOrders(levels, accept, dir, product, Magnitude, cap, v);
  }

  /** The provision phase: what it posts, the venue it leaves, and the new
      slots [2] and [3] (`None`: left as they were). */
  datatype Provided = Provided(orders: seq<Order>, venue: Venue, provision: Option<Provision>)

  /** The sell provision qualifies when `best_ask - 1` is above the fair ask
      plus the margin with sell capacity left, the buy provision when
      `best_bid + 1` is below the fair bid less the margin with buy capacity
      left; when both do only the buy is posted. A provision is priced at the
      rounded fair level, carries the whole capacity left, is written into the
      simulated book and committed. */
  function Provide(product: string, q: Levels.Quote, fairAsk: real, fairBid: real, margin: real,
                   buyLeft: int, sellLeft: int, v: Venue): Provided
    requires WellFormed(v.depth)
  {
    var sell := ((q.ask - 1) as real) > fairAsk + margin && sellLeft > 0;
    var buy := ((q.bid + 1) as real) < fairBid - margin && buyLeft > 0;
    if buy then
      var price := RoundHalfEven(fairBid - margin);
      Provided([Order(product, price, buyLeft)], Making.Quote(v, Buy, price, buyLeft, buyLeft),
               Some(Provision(price, buyLeft)))
    else if sell then
      var price := RoundHalfEven(fairAsk + margin);
      Provided([Order(product, price, -sellLeft)], Making.Quote(v, Sell, price, -sellLeft, -sellLeft),
               Some(Provision(price, -sellLeft)))
    else Provided([], v, None)
  }

  /** At most one provision, posted exactly when one qualifies, the buy taking
      precedence; it is priced within half a tick of the fair level and outside
      it by the margin, carries the whole capacity left, is recorded in the
      slots as posted, rests in the simulated book at its price, and moves the
      net by its quantity; the other side of the book is untouched. */
  lemma ProvideOutcome(product: string, q: Levels.Quote, fairAsk: real, fairBid: real, margin: real,
                       buyLeft: int, sellLeft: int, v: Venue)
    requires WellFormed(v.depth)
    ensures var p := Provide(product, q, fairAsk, fairBid, margin, buyLeft, sellLeft, v);
      var sell := ((q.ask - 1) as real) > fairAsk + margin && sellLeft > 0;
      var buy := ((q.bid + 1) as real) < fairBid - margin && buyLeft > 0;
      && |p.orders| <= 1
      && (p.orders == [] <==> !buy && !sell)
      && (p.orders == [] ==> p.venue == v && p.provision.None?)
      && (p.orders != [] ==>
            && p.provision == Some(Provision(p.orders[0].price, p.orders[0].quantity))
            && p.orders[0].product == product
            && p.venue.net == v.net + p.orders[0].quantity)
      && (buy ==>
            && p.orders[0].quantity == buyLeft
            && -0.5 <= (p.orders[0].price as real) - (fairBid - margin) <= 0.5
            && Get(p.venue.depth.buys, p.orders[0].price) == Some(buyLeft)
            && p.venue.depth.sells == v.depth.sells)
      && (!buy && sell ==>
            && p.orders[0].quantity == -sellLeft
            && -0.5 <= (p.orders[0].price as real) - (fairAsk + margin) <= 0.5
            && Get(p.venue.depth.sells, p.orders[0].price) == Some(-sellLeft)
            && p.venue.depth.buys == v.depth.buys)
  {
    var sell := ((q.ask - 1) as real) > fairAsk + margin && sellLeft > 0;
    var buy := ((q.bid + 1) as real) < fairBid - margin && buyLeft > 0;
    if buy {
      var price := RoundHalfEven(fairBid - margin);
      PutLookup(v.depth.buys, price, buyLeft);
    } else if sell {
      var price := RoundHalfEven(fairAsk + margin);
      PutLookup(v.depth.sells, price, -sellLeft);
    }
  }

  /** What one call returns and leaves: the conversions to request now, the
      orders (takes, then the provision), the venue, and the new cache slots
      [0], [1] and (when `Some`) [2] and [3]. */
  datatype Arbed = Arbed(conversions: int, orders: seq<Order>, venue: Venue, convPrice: int, convCache: int,
                         provision: Option<Provision>)

  /** The arbitrage once the carried conversions are known: both capacities
      are capped at `max_limit` and widened by `|conversions|`, the pure-arb
      takes run, the best levels of the simulated book are read strictly
      (`KeyError` when a side has nothing resting), and the provision follows. */
  function Arb(product: string, conv: int, live: int, snapshot: Depth, fairAsk: real, fairBid: real,
               limit: int, maxLimit: int, margin: real, v: Venue): Result<Arbed>
    requires WellFormed(v.depth)
  {
    var caps := Widened(limit, live, v.net, maxLimit, conv);
    ArbWith(product, conv, caps.buy, caps.sell, snapshot, fairAsk, fairBid, margin, v)
  }

  /** `min(cap, max_limit) + abs(conversions)` on both sides. */
  function Widened(limit: int, live: int, net: int, maxLimit: int, conv: int): Caps {
    var caps := Capacity(limit, live, net);
    Caps(Min(caps.buy, maxLimit) + Abs(conv), Min(caps.sell, maxLimit) + Abs(conv))
  }

  /** The arbitrage once its capacities are fixed. */
  function ArbWith(product: string, conv: int, buyCap: int, sellCap: int, snapshot: Depth,
                   fairAsk: real, fairBid: real, margin: real, v: Venue): Result<Arbed>
    requires WellFormed(v.depth)
  {
    var s :- Sweep(product, snapshot, fairAsk, fairBid, buyCap, sellCap, v);
    var q :- BestBidAsk(s.venue.depth, Strict);
    Success(Finish(conv, s, Provide(product, q, fairAsk, fairBid, margin, s.buyLeft, s.sellLeft, s.venue)))
  }

  /** The result of one call from its phases: slot [0] gets the price of the
      last take (0 without one) and slot [1] the negated sum of the takes. */
  function Finish(conv: int, s: Swept, p: Provided): Arbed {
    var taken := s.bought + s.sold;
    Arbed(conv, taken + p.orders, p.venue, if taken == [] then 0 else taken[|taken| - 1].price,
          -Signed(taken), p.provision)
  }

  /** The newest cache entry holds a slot for `product`, so the call's closing
      writes `traderDataNew[-1][product][...] = ...` can land. */
  predicate Writable(product: string, cache: seq<map<string, Slot>>) {
    |cache| >= 1 && product in cache[|cache| - 1]
  }

  /** `kevin_exchange_arb(product, state, ...)`: the conversions are carried
      first, then the arbitrage runs on the venue of `product`, and finally
      its results are written into the newest cache entry, which raises
      `IndexError` on an empty cache and `KeyError` when that entry has no
      slot for the product. */
  function ExchangeArb(product: string, timestamp: int, position: map<string, int>,
                       cache: seq<map<string, Slot>>, trades: seq<Fill>, snapshot: Depth,
                       fairAsk: real, fairBid: real, limit: int, maxLimit: int, margin: real,
                       v: Venue): (r: Result<Arbed>)
    requires WellFormed(v.depth)
    ensures Carry(product, timestamp, position, cache, trades).Failure? ==>
      r == Failure(Carry(product, timestamp, position, cache, trades).error)
    ensures r.Success? ==> r.value.conversions == Carry(product, timestamp, position, cache, trades).value
    // A call that returns has written its slots into the newest entry.
    ensures r.Success? ==> Writable(product, cache)
    ensures Carry(product, timestamp, position, cache, trades).Success? && Writable(product, cache) ==>
      r == Arb(product, Carry(product, timestamp, position, cache, trades).value, Live(position, product),
               snapshot, fairAsk, fairBid, limit, maxLimit, margin, v)
    // An arbitrage that gets as far as the writes fails there exactly when the entry is missing.
    ensures var c := Carry(product, timestamp, position, cache, trades);
      var a := if c.Success? then Arb(product, c.value, Live(position, product), snapshot, fairAsk, fairBid,
                                      limit, maxLimit, margin, v) else Failure(c.error);
      a.Success? && !Writable(product, cache) ==> r == Failure(if |cache| == 0 then IndexError else KeyError)
  {
    var conv :- Carry(product, timestamp, position, cache, trades);
    var a :- Arb(product, conv, Live(position, product), snapshot, fairAsk, fairBid, limit, maxLimit, margin, v);
    if |cache| == 0 then Failure(IndexError)
    else if product !in cache[|cache| - 1] then Failure(KeyError)
    else Success(a)
  }

  /** At the first tick with the product not held the carry reads nothing, so
      a cache whose only entry lacks the product still fails at the writes. */
  lemma FirstTickWithoutSlot(product: string, cache: seq<map<string, Slot>>, trades: seq<Fill>, snapshot: Depth,
                             fairAsk: real, fairBid: real, limit: int, maxLimit: int, margin: real, v: Venue)
    requires WellFormed(v.depth) && cache == [map[]]
    requires Arb(product, 0, 0, snapshot, fairAsk, fairBid, limit, maxLimit, margin, v).Success?
    ensures ExchangeArb(product, 0, map[], cache, trades, snapshot, fairAsk, fairBid, limit, maxLimit, margin, v)
      == Failure(KeyError)
  {
    assert Live(map[], product) == 0;
  }

  /** One call's accounting once the capacities are fixed (`Arb` fixes them at
      `min(cap, max_limit) + |conversions|`): the conversions cached for the
      next tick undo the takes (sold less bought); the buy takes plus a buy
      provision use exactly the buy capacity and the sell takes plus a sell
      provision exactly the sell capacity, so neither side ever exceeds it. */
  lemma ArbAccounting(product: string, conv: int, buyCap: int, sellCap: int, snapshot: Depth,
                      fairAsk: real, fairBid: real, margin: real, v: Venue)
    requires WellFormed(v.depth)
    ensures var r := ArbWith(product, conv, buyCap, sellCap, snapshot, fairAsk, fairBid, margin, v);
      var s := Sweep(product, snapshot, fairAsk, fairBid, buyCap, sellCap, v);
      r.Success? ==>
        && s.Success?
        && r.value.convCache == Gross(s.value.sold) - Gross(s.value.bought)
        && Gross(s.value.bought) <= Max(0, buyCap) && Gross(s.value.sold) <= Max(0, sellCap)
        && (r.value.provision.Some? && r.value.provision.value.amount > 0 ==>
              Gross(s.value.bought) + r.value.provision.value.amount == buyCap)
        && (r.value.provision.Some? && r.value.provision.value.amount < 0 ==>
              Gross(s.value.sold) - r.value.provision.value.amount == sellCap)
  {
    var s := Sweep(product, snapshot, fairAsk, fairBid, buyCap, sellCap, v);
    SweepOutcome(product, snapshot, fairAsk, fairBid, buyCap, sellCap, v);
    if s.Success? {
      var sw := s.value;
      SignedOneWayFit(sw.bought, Below(fairBid), Buy, product);
      SignedOneWayFit(sw.sold, Above(fairAsk), Sell, product);
      SignedAppend(sw.bought, sw.sold);
      var q := BestBidAsk(sw.venue.depth, Strict);
      if q.Success? {
        ProvideAmount(product, q.value, fairAsk, fairBid, margin, sw.buyLeft, sw.sellLeft, sw.venue);
      }
    }
  }

  /** A provision records the whole capacity left on its side. */
  lemma ProvideAmount(product: string, q: Levels.Quote, fairAsk: real, fairBid: real, margin: real,
                      buyLeft: int, sellLeft: int, v: Venue)
    requires WellFormed(v.depth)
    ensures var p := Provide(product, q, fairAsk, fairBid, margin, buyLeft, sellLeft, v);
      p.provision.Some? ==>
        && (p.provision.value.amount > 0 ==> p.provision.value.amount == buyLeft)
        && (p.provision.value.amount < 0 ==> p.provision.value.amount == -sellLeft)
  {
  }

  /** Orders that all fit one direction add up to that direction's gross. */
  lemma SignedOneWayFit(orders: seq<Order>, accept: int -> bool, dir: Direction, product: string)
    requires AllFit(orders, accept, dir, product)
    ensures Signed(orders) == dir.Apply(Gross(orders))
  {
    forall i | 0 <= i < |orders| ensures dir.Along(orders[i].quantity) {
      assert Fits(orders[i], accept, dir, product);
    }
    SignedOneWay(orders, dir);
  }

  /** `kevin_exchange_arb` on the desk. */
  method ExchangeArbOnDesk(desk: Desk, product: string, timestamp: int, position: map<string, int>,
                           cache: seq<map<string, Slot>>, trades: seq<Fill>, snapshot: Depth,
                           fairAsk: real, fairBid: real, limit: int, maxLimit: int, margin: real)
    returns (r: Result<Arbed>)
    requires desk.Valid() && desk.Tracks(product)
    modifies desk
    ensures desk.Valid()
    ensures r == ExchangeArb(product, timestamp, position, cache, trades, snapshot, fairAsk, fairBid,
                             limit, maxLimit, margin, old(desk.VenueOf(product)))
    ensures r.Success? ==> desk.Became(product, r.value.venue)
  {
    var conv := 0;
    if !(timestamp == 0 && product !in position) {
      if |cache| < 2 {
        return Failure(IndexError);
      }
      if product !in cache[|cache| - 2] {
        return Failure(KeyError);
      }
      var slot := cache[|cache| - 2][product];
      if slot.conversions.None? {
        return Failure(TypeError);
      }
      conv := ReconcileFills(slot.conversions.value, slot.provision, trades);
    }
    r := ArbOnDesk(desk, product, conv, Live(position, product), snapshot, fairAsk, fairBid, limit, maxLimit, margin);
    if r.Success? && |cache| == 0 {
      return Failure(IndexError);
    }
    if r.Success? && product !in cache[|cache| - 1] {
      return Failure(KeyError);
    }
  }

  /** The arbitrage on the desk once the conversions are known. */
  method ArbOnDesk(desk: Desk, product: string, conv: int, live: int, snapshot: Depth,
                   fairAsk: real, fairBid: real, limit: int, maxLimit: int, margin: real)
    returns (r: Result<Arbed>)
    requires desk.Valid() && desk.Tracks(product)
    modifies desk
    ensures desk.Valid()
    ensures r == Arb(product, conv, live, snapshot, fairAsk, fairBid, limit, maxLimit, margin,
                     old(desk.VenueOf(product)))
    ensures r.Success? ==> desk.Became(product, r.value.venue)
  {
    var caps := Widened(limit, live, desk.ordered[product], maxLimit, conv);
    r := ArbWithOnDesk(desk, product, conv, caps.buy, caps.sell, snapshot, fairAsk, fairBid, margin);
  }

  /** The arbitrage on the desk once its capacities are fixed. */
  method ArbWithOnDesk(desk: Desk, product: string, conv: int, buyCap: int, sellCap: int, snapshot: Depth,
                       fairAsk: real, fairBid: real, margin: real)
    returns (r: Result<Arbed>)
    requires desk.Valid() && desk.Tracks(product)
    modifies desk
    ensures desk.Valid()
    ensures r == ArbWith(product, conv, buyCap, sellCap, snapshot, fairAsk, fairBid, margin,
                         old(desk.VenueOf(product)))
    ensures r.Success? ==> desk.Became(product, r.value.venue)
  {
    var s := SweepOnDesk(desk, product, snapshot, fairAsk, fairBid, buyCap, sellCap);
    if s.Failure? {
      return Failure(s.error);
    }
    var q := BestBidAsk(desk.lob[product], Strict);
    if q.Failure? {
      return Failure(q.error);
    }
    ghost var mid := desk.VenueOf(product);
    var p := ProvideOnDesk(desk, product, q.value, fairAsk, fairBid, margin, s.value.buyLeft, s.value.sellLeft);
    UpdateTwice(old(desk.lob), product, mid.depth, desk.lob[product]);
    UpdateTwice(old(desk.ordered), product, mid.net, desk.ordered[product]);
    r := Success(Finish(conv, s.value, p));
  }

  /** Both pure-arb loops on the desk. */
  method SweepOnDesk(desk: Desk, product: string, snapshot: Depth, fairAsk: real, fairBid: real,
                     buyCap: int, sellCap: int)
    returns (r: Result<Swept>)
    requires desk.Valid() && desk.Tracks(product)
    modifies desk
    ensures desk.Valid()
    ensures r == Sweep(product, snapshot, fairAsk, fairBid, buyCap, sellCap, old(desk.VenueOf(product)))
    ensures r.Success? ==>
      desk.lob == old(desk.lob)[product := r.value.venue.depth] && desk.ordered == old(desk.ordered)[product := r.value.venue.net]
  {
    ghost var v := desk.VenueOf(product);
    var a := WalkAndBump(desk, snapshot.sells, Below(fairBid), Buy, product, buyCap, v);
    if a.Failure? {
      return Failure(a.error);
    }
    ghost var mid := a.value.venue.net + Buy.Apply(|a.value.orders|);
    r := SweepSellsOnDesk(desk, product, snapshot, fairAsk, sellCap, a.value);
    if r.Success? {
      UpdateTwice(old(desk.lob), product, a.value.venue.depth, r.value.venue.depth);
      UpdateTwice(old(desk.ordered), product, mid, r.value.venue.net);
    }
  }

  /** The second pure-arb loop on the desk, once the first has left `a`. */
  method SweepSellsOnDesk(desk: Desk, product: string, snapshot: Depth, fairAsk: real, sellCap: int, a: Claimed)
    returns (r: Result<Swept>)
    requires desk.Valid() && desk.Tracks(product)
    requires desk.VenueOf(product) == Venue(a.venue.depth, a.venue.net + |a.orders|)
    modifies desk
    ensures desk.Valid()
    ensures r == SweepSells(product, snapshot, fairAsk, sellCap, a)
    ensures r.Success? ==>
      desk.lob == old(desk.lob)[product := r.value.venue.depth] && desk.ordered == old(desk.ordered)[product := r.value.venue.net]
  {
    var b := WalkAndBump(desk, snapshot.buys, Above(fairAsk), Sell, product, sellCap,
                         Venue(a.venue.depth, a.venue.net + |a.orders|));
    if b.Failure? {
      return Failure(b.error);
    }
    r := Success(Swept(a.orders, b.value.orders, a.left, b.value.left,
                       Venue(b.value.venue.depth, b.value.venue.net - |b.value.orders|)));
  }

  /** One pure-arb loop: the claims, each followed by
      `update_estimated_position(ordered_position, product, 1, side)`. The
      bumps are committed together after the loop; the claims do not read the
      net, so the outcome is the same. */
  method WalkAndBump(desk: Desk, levels: Side, accept: int -> bool, dir: Direction, product: string, cap: int,
                     ghost v: Venue)
    returns (r: Result<Claimed>)
    requires desk.Valid() && desk.Tracks(product) && desk.VenueOf(product) == v
    modifies desk
    ensures desk.Valid()
    ensures r == Walk(levels, accept, dir, product, Magnitude, cap, v)
    ensures r.Success? ==>
      && desk.lob == old(desk.lob)[product := r.value.venue.depth]
      && desk.ordered == old(desk.ordered)[product := r.value.venue.net + dir.Apply(|r.value.orders|)]
  {
    r := desk.WalkLevels(levels, accept, dir, product, Magnitude, cap);
    if r.Success? {
      var _ := desk.Commit(product, |r.value.orders|, dir);
      UpdateTwice(old(desk.ordered), product, r.value.venue.net, desk.ordered[product]);
    }
  }

  /** The provision phase on the desk. */
  method ProvideOnDesk(desk: Desk, product: string, q: Levels.Quote, fairAsk: real, fairBid: real, margin: real,
                       buyLeft: int, sellLeft: int)
    returns (p: Provided)
    requires desk.Valid() && desk.Tracks(product)
    modifies desk
    ensures desk.Valid()
    ensures p == Provide(product, q, fairAsk, fairBid, margin, buyLeft, sellLeft, old(desk.VenueOf(product)))
    ensures desk.Became(product, p.venue)
  {
    var sell := ((q.ask - 1) as real) > fairAsk + margin && sellLeft > 0;
    var buy := ((q.bid + 1) as real) < fairBid - margin && buyLeft > 0;
    if buy {
      var price := RoundHalfEven(fairBid - margin);
      Making.PostOne(desk, product, Buy, price, buyLeft);
      p := Provided([Order(product, price, buyLeft)], desk.VenueOf(product), Some(Provision(price, buyLeft)));
    } else if sell {
      var price := RoundHalfEven(fairAsk + margin);
      Making.PostOne(desk, product, Sell, price, -sellLeft);
      p := Provided([Order(product, price, -sellLeft)], desk.VenueOf(product), Some(Provision(price, -sellLeft)));
    } else {
      p := Provided([], desk.VenueOf(product), None);
    }
  }
}
