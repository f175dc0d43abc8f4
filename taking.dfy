/** Liquidity-taking strategies on integer-priced books: the walk-the-book take
    `kevin_acceptable_price_wtb_liquidity_take`, the best-level take
    `kevin_acceptable_price_BBO_liquidity_take` and `kevin_cover_position`.
    Each reads its levels from the exchange snapshot `state.order_depths[product]`
    and claims them from the simulated book. */
module Taking {
  import opened Common
  import opened Book
  import opened Position
  import opened Claims
  import opened Desks

  /** Orders of a taking strategy, buys first, and the venue it leaves. */
  datatype Taken = Taken(bought: seq<Order>, sold: seq<Order>, venue: Venue)

  /** `ask < acceptable_price` */
  function Below(bound: real): int -> bool {
    p => (p as real) < bound
  }

  /** `bid > acceptable_price` */
  function Above(bound: real): int -> bool {
    p => (p as real) > bound
  }

  function Every(): int -> bool {
    p => true
  }

  /** The two claim loops of the walk-the-book take once its capacities are
      fixed: the snapshot's asks below the fair price are bought, then its bids
      above it are sold, each in dict order. */
  function TakeBoth(acc: real, product: string, snapshot: Depth, buyCap: int, sellCap: int,
                    sellSizing: Sizing, v: Venue): Result<Taken>
    requires WellFormed(v.depth)
  {
    var a :- Walk(snapshot.sells, Below(acc), Buy, product, Magnitude, buyCap, v);
    var b :- Walk(snapshot.buys, Above(acc), Sell, product, sellSizing, sellCap, a.venue);
    Success(Taken(a.orders, b.orders, b.venue))
  }

  /** `kevin_acceptable_price_wtb_liquidity_take`: both capacities, less
      `limit_to_keep`, are fixed first, then both sides are walked.
      `sellSizing` is `Magnitude` where the sells go through `kevin_market_take`
      (round-3 trader) and `Raw` for the inline loop of the round-1 trader. */
  function WalkTheBook(acc: real, product: string, snapshot: Depth, live: int, limit: int, keep: int,
                       sellSizing: Sizing, v: Venue): Result<Taken>
    requires WellFormed(v.depth)
  {
    var caps := Capacity(limit, live, v.net);
    TakeBoth(acc, product, snapshot, caps.buy - keep, caps.sell - keep, sellSizing, v)
  }

  /** Both walks together buy at most `buyCap` and sell at most `sellCap`, and
      move the net position by what was bought less what was sold. */
  lemma TakeBothBounds(acc: real, product: string, snapshot: Depth, buyCap: int, sellCap: int,
                       sellSizing: Sizing, v: Venue)
    requires WellFormed(v.depth) && NonNegativeWants(snapshot.buys, sellSizing)
    ensures var r := TakeBoth(acc, product, snapshot, buyCap, sellCap, sellSizing, v);
      r.Success? ==>
        && Gross(r.value.bought) <= Max(0, buyCap)
        && Gross(r.value.sold) <= Max(0, sellCap)
        && r.value.venue.net == v.net + Gross(r.value.bought) - Gross(r.value.sold)
  {
    assert NonNegativeWants(snapshot.sells, Magnitude);
    var a := Walk(snapshot.sells, Below(acc), Buy, product, Magnitude, buyCap, v);
    WalkNet(snapshot.sells, Below(acc), Buy, product, Magnitude, buyCap, v);
    if a.Success? {
      WalkNet(snapshot.buys, Above(acc), Sell, product, sellSizing, sellCap, a.value.venue);
    }
  }

  /** Both walks buy only below the fair price and sell only above it. */
  lemma TakeBothPrices(acc: real, product: string, snapshot: Depth, buyCap: int, sellCap: int,
                       sellSizing: Sizing, v: Venue)
    requires WellFormed(v.depth) && NonNegativeWants(snapshot.buys, sellSizing)
    ensures var r := TakeBoth(acc, product, snapshot, buyCap, sellCap, sellSizing, v);
      r.Success? ==>
        && AllFit(r.value.bought, Below(acc), Buy, product)
        && AllFit(r.value.sold, Above(acc), Sell, product)
  {
    assert NonNegativeWants(snapshot.sells, Magnitude);
    var a := Walk(snapshot.sells, Below(acc), Buy, product, Magnitude, buyCap, v);
    WalkOrders(snapshot.sells, Below(acc), Buy, product, Magnitude, buyCap, v);
    if a.Success? {
      WalkOrders(snapshot.buys, Above(acc), Sell, product, sellSizing, sellCap, a.value.venue);
    }
  }

  /** On a book copied from the snapshot (the first strategy of the tick for this
      product) both walks always find their levels. */
  lemma TakeBothFresh(acc: real, product: string, snapshot: Depth, buyCap: int, sellCap: int,
                      sellSizing: Sizing, net: int)
    requires WellFormed(snapshot)
    ensures TakeBoth(acc, product, snapshot, buyCap, sellCap, sellSizing, Venue(snapshot, net)).Success?
  {
    var v := Venue(snapshot, net);
    WalkOwnBook(Below(acc), Buy, product, Magnitude, buyCap, v);
    var a := Walk(snapshot.sells, Below(acc), Buy, product, Magnitude, buyCap, v);
    assert Facing(a.value.venue.depth, Sell) == Own(a.value.venue.depth, Buy) == snapshot.buys;
    WalkOwnBook(Above(acc), Sell, product, sellSizing, sellCap, a.value.venue);
  }

  /** With the capacities the walk-the-book take computes, its buys never carry
      live + net past `limit - limit_to_keep` (nor its sells below
      `limit_to_keep - limit`) unless the position was already there, in which
      case that side does nothing. */
  lemma TakeBothLimit(acc: real, product: string, snapshot: Depth, live: int, limit: int, keep: int,
                      buyCap: int, sellCap: int, sellSizing: Sizing, v: Venue)
    requires WellFormed(v.depth) && NonNegativeWants(snapshot.buys, sellSizing)
    requires buyCap == Capacity(limit, live, v.net).buy - keep
    requires sellCap == Capacity(limit, live, v.net).sell - keep
    ensures var r := TakeBoth(acc, product, snapshot, buyCap, sellCap, sellSizing, v);
      r.Success? ==>
        && live + v.net + Gross(r.value.bought) <= Max(live + v.net, limit - keep)
        && live + v.net - Gross(r.value.sold) >= Min(live + v.net, keep - limit)
  {
    TakeBothBounds(acc, product, snapshot, buyCap, sellCap, sellSizing, v);
  }

  /** The round-1 inline sell loop and `kevin_market_take` claim alike whenever
      the bids carry non-negative volumes. */
  lemma {:induction false} InlineSellAgrees(levels: Side, accept: int -> bool, product: string,
                                            cap: int, v: Venue)
    requires WellFormed(v.depth) && NonNegativeWants(levels, Raw)
    ensures Walk(levels, accept, Sell, product, Raw, cap, v) == Walk(levels, accept, Sell, product, Magnitude, cap, v)
    decreases |levels|
  {
    if levels != [] {
      NonNegativeWantsTail(levels, Raw);
      if accept(levels[0].key) && cap > 0 {
        var c := Claim(product, levels[0], Sell, Raw, cap, v);
        assert c == Claim(product, levels[0], Sell, Magnitude, cap, v);
        if c.Success? {
          InlineSellAgrees(levels[1..], accept, product, c.value.left, c.value.venue);
        }
      } else {
        InlineSellAgrees(levels[1..], accept, product, cap, v);
      }
    }
  }

  /** The walk-the-book take on the desk: the two claim loops of
      `kevin_acceptable_price_wtb_liquidity_take`, buys then sells. */
  method WalkTheBookTake(desk: Desk, acc: real, product: string, snapshot: Depth, live: int, limit: int,
                         keep: int, sellSizing: Sizing)
    returns (r: Result<seq<Order>>)
    requires desk.Valid() && desk.Tracks(product)
    modifies desk
    ensures desk.Valid()
    ensures var spec := WalkTheBook(acc, product, snapshot, live, limit, keep, sellSizing, old(desk.VenueOf(product)));
      && (r.Success? <==> spec.Success?)
      && (spec.Success? ==> r.value == spec.value.bought + spec.value.sold && desk.Became(product, spec.value.venue))
  {
    var caps := Capacity(limit, live, desk.ordered[product]);
    r := TakeBothOnDesk(desk, acc, product, snapshot, caps.buy - keep, caps.sell - keep, sellSizing);
  }

  /** The two claim loops once the capacities are fixed: the snapshot's asks
      below the fair price, then its bids above it. */
  method TakeBothOnDesk(desk: Desk, acc: real, product: string, snapshot: Depth, buyCap: int, sellCap: int,
                        sellSizing: Sizing)
    returns (r: Result<seq<Order>>)
    requires desk.Valid() && desk.Tracks(product)
    modifies desk
    ensures desk.Valid()
    ensures var spec := TakeBoth(acc, product, snapshot, buyCap, sellCap, sellSizing, old(desk.VenueOf(product)));
      && (r.Success? <==> spec.Success?)
      && (spec.Failure? ==> r == Failure(spec.error))
      && (spec.Success? ==> r.value == spec.value.bought + spec.value.sold && desk.Became(product, spec.value.venue))
  {
    ghost var v := desk.VenueOf(product);
    ghost var spec := TakeBoth(acc, product, snapshot, buyCap, sellCap, sellSizing, v);
    var a := desk.WalkLevels(snapshot.sells, Below(acc), Buy, product, Magnitude, buyCap);
    if a.Failure? {
      assert spec.Failure?;
      return Failure(a.error);
    }
    ghost var mid := desk.VenueOf(product);
    assert mid == a.value.venue;
    var b := desk.WalkLevels(snapshot.buys, Above(acc), Sell, product, sellSizing, sellCap);
    if b.Failure? {
      assert spec.Failure?;
      return Failure(b.error);
    }
    assert spec.Success? && spec.value.bought == a.value.orders && spec.value.sold == b.value.orders;
    assert spec.value.venue == b.value.venue;
    UpdateTwice(old(desk.ordered), product, mid.net, b.value.venue.net);
    UpdateTwice(old(desk.lob), product, mid.depth, b.value.venue.depth);
    r := Success(a.value.orders + b.value.orders);
  }

  /** One side of `kevin_acceptable_price_BBO_liquidity_take`: the first level
      of the snapshot side, if its price beats the fair price, is taken whole
      unless that would push the live position past the limit, in which case
      the amount is clamped and the simulated level is left as it was. */
  function BboSide(first: Entry, accept: int -> bool, dir: Direction, product: string, live: int, limit: int,
                   v: Venue): (r: Result<Claimed>)
    requires WellFormed(v.depth)
    ensures r.Success? ==> WellFormed(r.value.venue.depth) && Own(r.value.venue.depth, dir) == Own(v.depth, dir)
  {
    if !accept(first.key) then Success(Claimed([], 0, v))
    else
      var breach := if dir.Buy? then live + Abs(first.volume) > limit else live - Abs(first.volume) < -limit;
      var clamp := if dir.Buy? then limit - live else live + limit;
      var s := Facing(v.depth, dir);
      if !breach && !HasKey(s, first.key) then Failure(KeyError)
      else
        var depth := if breach then v.depth else WithFacing(v.depth, dir, Remove(s, first.key));
        var amount := if breach then clamp else first.volume;
        if amount == 0 then Success(Claimed([], 0, Venue(depth, v.net)))
        else Success(Claimed([Order(product, first.key, dir.Apply(Abs(amount)))], 0,
                             Venue(depth, Position.Commit(v.net, amount, dir))))
  }

  /** `kevin_acceptable_price_BBO_liquidity_take`: the first ask, then the first bid. */
  function Bbo(acc: real, product: string, snapshot: Depth, live: int, limit: int, v: Venue): Result<Taken>
    requires WellFormed(v.depth)
  {
    var a :- if snapshot.sells == [] then Success(Claimed([], 0, v))
             else BboSide(snapshot.sells[0], Below(acc), Buy, product, live, limit, v);
    var b :- if snapshot.buys == [] then Success(Claimed([], 0, a.venue))
             else BboSide(snapshot.buys[0], Above(acc), Sell, product, live, limit, a.venue);
    Success(Taken(a.orders, b.orders, b.venue))
  }

  /** The best-level take on one side: it trades only at a price better than the
      fair price; with the live position within the limit the amount is
      `min(|volume|, headroom)`, so the live position plus the order stays within
      the limit; it deletes the simulated level exactly when it takes the level
      whole, and a clamp to zero emits nothing. */
  lemma BboSideBounds(first: Entry, accept: int -> bool, dir: Direction, product: string, live: int,
                      limit: int, v: Venue)
    requires WellFormed(v.depth) && -limit <= live <= limit
    ensures var r := BboSide(first, accept, dir, product, live, limit, v);
      var headroom := if dir.Buy? then limit - live else live + limit;
      var s := Facing(v.depth, dir);
      r.Success? ==>
        && (!accept(first.key) ==> r.value.orders == [] && r.value.venue == v)
        && (accept(first.key) && Abs(first.volume) <= headroom ==>
              && Facing(r.value.venue.depth, dir) == Remove(s, first.key)
              && (first.volume != 0 ==> r.value.orders == [Order(product, first.key, dir.Apply(Abs(first.volume)))]))
        && (accept(first.key) && Abs(first.volume) > headroom ==>
              && r.value.venue.depth == v.depth
              && (headroom == 0 ==> r.value.orders == [] && r.value.venue == v)
              && (headroom > 0 ==> r.value.orders == [Order(product, first.key, dir.Apply(headroom))]))
        && (forall i :: 0 <= i < |r.value.orders| ==>
              && accept(r.value.orders[i].price)
              && Abs(r.value.orders[i].quantity) <= headroom
              && dir.Apply(r.value.orders[i].quantity) > 0)
        && r.value.venue.net == v.net + Signed(r.value.orders)
  {
  }

  /** One side of the best-level take on the desk: pop the simulated level when
      it is taken whole, then commit the amount unless it was clamped to zero. */
  method BboSideTake(desk: Desk, first: Entry, accept: int -> bool, dir: Direction, product: string,
                     live: int, limit: int)
    returns (r: Result<Claimed>)
    requires desk.Valid() && desk.Tracks(product)
    modifies desk
    ensures desk.Valid() && desk.Tracks(product)
    ensures r == BboSide(first, accept, dir, product, live, limit, old(desk.VenueOf(product)))
    ensures r.Success? ==> desk.Became(product, r.value.venue)
  {
    ghost var v := desk.VenueOf(product);
    if !accept(first.key) {
      return Success(Claimed([], 0, desk.VenueOf(product)));
    }
    var amount := first.volume;
    var breach := if dir.Buy? then live + Abs(amount) > limit else live - Abs(amount) < -limit;
    if breach {
      amount := if dir.Buy? then limit - live else live + limit;
    } else {
      var d := desk.lob[product];
      var s := Facing(d, dir);
      if !HasKey(s, first.key) {
        return Failure(KeyError);
      }
      desk.Store(product, Venue(WithFacing(d, dir, Remove(s, first.key)), desk.ordered[product]));
    }
    var orders: seq<Order> := [];
    if amount != 0 {
      orders := [Order(product, first.key, dir.Apply(Abs(amount)))];
      desk.Store(product, Venue(desk.lob[product], Position.Commit(desk.ordered[product], amount, dir)));
    }
    r := Success(Claimed(orders, 0, desk.VenueOf(product)));
    UpdateTwice(old(desk.ordered), product, v.net, r.value.venue.net);
    UpdateTwice(old(desk.lob), product, v.depth, r.value.venue.depth);
  }

  /** `kevin_acceptable_price_BBO_liquidity_take` on the desk: the first ask,
      then the first bid. */
  method BboTake(desk: Desk, acc: real, product: string, snapshot: Depth, live: int, limit: int)
    returns (r: Result<seq<Order>>)
    requires desk.Valid() && desk.Tracks(product)
    modifies desk
    ensures desk.Valid()
    ensures var spec := Bbo(acc, product, snapshot, live, limit, old(desk.VenueOf(product)));
      && (r.Success? <==> spec.Success?)
      && (spec.Success? ==> r.value == spec.value.bought + spec.value.sold && desk.Became(product, spec.value.venue))
  {
    ghost var v := desk.VenueOf(product);
    ghost var spec := Bbo(acc, product, snapshot, live, limit, v);
    var a := Success(Claimed([], 0, desk.VenueOf(product)));
    if snapshot.sells != [] {
      a := BboSideTake(desk, snapshot.sells[0], Below(acc), Buy, product, live, limit);
    }
    if a.Failure? {
      assert spec.Failure?;
      return Failure(a.error);
    }
    ghost var mid := desk.VenueOf(product);
    assert mid == a.value.venue;
    var b := Success(Claimed([], 0, desk.VenueOf(product)));
    if snapshot.buys != [] {
      b := BboSideTake(desk, snapshot.buys[0], Above(acc), Sell, product, live, limit);
    }
    if b.Failure? {
      assert spec.Failure?;
      return Failure(b.error);
    }
    assert spec.Success? && spec.value.bought == a.value.orders && spec.value.sold == b.value.orders;
    assert spec.value.venue == b.value.venue;
    UpdateTwice(old(desk.ordered), product, mid.net, b.value.venue.net);
    UpdateTwice(old(desk.lob), product, mid.depth, b.value.venue.depth);
    r := Success(a.value.orders + b.value.orders);
  }

  /** `kevin_cover_position`: walk the snapshot's bids to sell off a long live
      position, or its asks to buy back a short one; the live position is the
      capacity. */
  function Cover(product: string, snapshot: Depth, live: int, v: Venue): Result<Claimed>
    requires WellFormed(v.depth)
  {
    if live > 0 then Walk(snapshot.buys, Every(), Sell, product, RawSigned, live, v)
    else if live < 0 then Walk(snapshot.sells, Every(), Buy, product, Magnitude, -live, v)
    else Success(Claimed([], 0, v))
  }

  /** Covering a long position only sells, for its own product, in total
      `min(live, Σ bid volume)`, and lowers the net by exactly that. */
  lemma CoverLong(product: string, snapshot: Depth, live: int, v: Venue)
    requires WellFormed(v.depth) && live > 0
    requires forall i :: 0 <= i < |snapshot.buys| ==> snapshot.buys[i].volume >= 0
    ensures var r := Cover(product, snapshot, live, v);
      r.Success? ==>
        && Gross(r.value.orders) == Min(live, Total(snapshot.buys))
        && r.value.venue.net == v.net - Gross(r.value.orders)
        && AllFit(r.value.orders, Every(), Sell, product)
  {
    var w := Walk(snapshot.buys, Every(), Sell, product, RawSigned, live, v);
    assert Cover(product, snapshot, live, v) == w;
    CoverSide(product, snapshot.buys, Sell, RawSigned, live, v);
    OfferedEverything(snapshot.buys, RawSigned);
    if w.Success? {
      assert Sell.Apply(Gross(w.value.orders)) == 0 - Gross(w.value.orders) as int;
    }
  }

  /** Covering a short position only buys, for its own product, in total
      `min(|live|, Σ |ask volume|)`, and raises the net by exactly that. */
  lemma CoverShort(product: string, snapshot: Depth, live: int, v: Venue)
    requires WellFormed(v.depth) && live < 0
    requires forall i :: 0 <= i < |snapshot.sells| ==> snapshot.sells[i].volume <= 0
    ensures var r := Cover(product, snapshot, live, v);
      r.Success? ==>
        && Gross(r.value.orders) == Min(-live, -Total(snapshot.sells))
        && r.value.venue.net == v.net + Gross(r.value.orders)
        && AllFit(r.value.orders, Every(), Buy, product)
  {
    var w := Walk(snapshot.sells, Every(), Buy, product, Magnitude, -live, v);
    assert Cover(product, snapshot, live, v) == w;
    CoverSide(product, snapshot.sells, Buy, Magnitude, -live, v);
    OfferedEverything(snapshot.sells, Magnitude);
    if w.Success? {
      assert Buy.Apply(Gross(w.value.orders)) == Gross(w.value.orders);
    }
  }

  lemma CoverSide(product: string, levels: Side, dir: Direction, sizing: Sizing, cap: int, v: Venue)
    requires WellFormed(v.depth) && NonNegativeWants(levels, sizing) && cap > 0
    ensures var r := Walk(levels, Every(), dir, product, sizing, cap, v);
      r.Success? ==>
        && Gross(r.value.orders) == Min(cap, Offered(levels, Every(), sizing))
        && r.value.venue.net == v.net + dir.Apply(Gross(r.value.orders))
        && AllFit(r.value.orders, Every(), dir, product)
  {
    WalkAccounting(levels, Every(), dir, product, sizing, cap, v);
    WalkFills(levels, Every(), dir, product, sizing, cap, v);
    WalkNet(levels, Every(), dir, product, sizing, cap, v);
    WalkOrders(levels, Every(), dir, product, sizing, cap, v);
  }

  /** With every level accepted, the offer is the side's total volume as sized. */
  lemma {:induction false} OfferedEverything(s: Side, sizing: Sizing)
    requires sizing.Magnitude? ==> forall i :: 0 <= i < |s| ==> s[i].volume <= 0
    ensures Offered(s, Every(), sizing) == if sizing.Magnitude? then -Total(s) else Total(s)
    decreases |s|
  {
    if s != [] {
      assert forall i :: 0 <= i < |s[1..]| ==> s[1..][i] == s[i + 1];
      OfferedEverything(s[1..], sizing);
    }
  }

  /** The loop of `kevin_cover_position`, which claims while the remaining
      position is non-zero rather than positive. */
  method CoverPosition(desk: Desk, product: string, snapshot: Depth, live: int)
    returns (r: Result<seq<Order>>)
    requires desk.Valid() && desk.Tracks(product)
    modifies desk
    ensures desk.Valid()
    ensures var spec := Cover(product, snapshot, live, old(desk.VenueOf(product)));
      && (r.Success? <==> spec.Success?)
      && (spec.Success? ==> r.value == spec.value.orders && desk.Became(product, spec.value.venue))
  {
    if live == 0 {
      return Success([]);
    }
    var levels, dir, sizing := snapshot.buys, Sell, RawSigned;
    if live < 0 {
      levels, dir, sizing := snapshot.sells, Buy, Magnitude;
    }
    var existing := Abs(live);
    var orders: seq<Order> := [];
    assert levels[0..] == levels;
    PrependNothing(Walk(levels, Every(), dir, product, sizing, existing, desk.VenueOf(product)));
    for i := 0 to |levels|
      invariant desk.Valid() && desk.Tracks(product)
      invariant existing >= 0
      invariant Walk(levels, Every(), dir, product, sizing, Abs(live), old(desk.VenueOf(product)))
             == Prepend(orders, Walk(levels[i..], Every(), dir, product, sizing, existing, desk.VenueOf(product)))
      invariant desk.Became(product, desk.VenueOf(product))
    {
      ghost var v := desk.VenueOf(product);
      WalkStep(levels[i..], Every(), dir, product, sizing, existing, v);
      assert levels[i..][0] == levels[i] && levels[i..][1..] == levels[i + 1..];
      if existing != 0 {
        var c := desk.ClaimLevel(product, levels[i], dir, sizing, existing, v);
        if c.Failure? {
          return Failure(c.error);
        }
        UpdateTwice(old(desk.ordered), product, v.net, c.value.venue.net);
        UpdateTwice(old(desk.lob), product, v.depth, c.value.venue.depth);
        PrependTwice(orders, c.value.orders,
                     Walk(levels[i + 1..], Every(), dir, product, sizing, c.value.left, c.value.venue));
        orders := orders + c.value.orders;
        existing := c.value.left;
      }
    }
    assert levels[|levels|..] == [] && orders + [] == orders;
    r := Success(orders);
  }
}
