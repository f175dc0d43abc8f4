/** The first-round trader at the top of the repository (`round_1_trader.py`).
    Its walk-the-book take keeps a fraction of the headroom in reserve; its
    market maker reads the first entries of the simulated book, compares their
    volumes with the fair price, and files its quotes under string keys; `run`
    chains the two for AMETHYSTS at a fair price of 10000 and caches the
    STARFRUIT mid price. Two readings of the market maker are modelled: the
    code as written and the behaviour its comments and the later traders
    intend. */
module FirstRound {
  import opened Common
  import opened Book
  import opened Position
  import opened Claims
  import opened Desks
  import opened Taking
  import Making
  import Levels
  import History

  /** The market maker as written, or as intended: capacities net of the live
      position (`cal_available_position`) and sides decided on prices. */
  datatype Reading = AsWritten | Intended

  /** The acceptable price `run` passes for AMETHYSTS. */
  const Fair: real := 10000.0
  /** `products`, the keys of the fresh `ordered_position`. */
  const Products: seq<string> := ["AMETHYSTS", "STARFRUIT"]

  /** The take's capacities: `np.round((limit ∓ live) * (1 - fraction_to_keep))`
      with the default fraction of 0.15 (the only one `run` uses), replaced by
      `limit - net` on the buy side when the provisional net is long and by
      `limit + net` on the sell side when it is short. */
  function TakeCaps(limit: int, live: int, net: int): Caps {
    var buy := RoundHalfEven(((limit - live) as real) * 0.85);
    var sell := RoundHalfEven(((limit + live) as real) * 0.85);
    if net > 0 then Caps(limit - net, sell)
    else if net < 0 then Caps(buy, limit + net)
    else Caps(buy, sell)
  }

  /** With no provisional net and the position within the limit, the take's
      capacities are non-negative, never exceed the headroom on their side, and
      leave 15% of that headroom unused (up to rounding). */
  lemma TakeCapsReserve(limit: int, live: int)
    requires -limit <= live <= limit
    ensures var c := TakeCaps(limit, live, 0);
      && 0 <= c.buy <= limit - live
      && 0 <= c.sell <= limit + live
      && ((live + c.buy) as real) <= (limit as real) - ((limit - live) as real) * 0.15 + 0.5
      && ((live - c.sell) as real) >= ((limit + live) as real) * 0.15 - (limit as real) - 0.5
  {
    RoundHalfEvenNonNegative(((limit - live) as real) * 0.85);
    RoundHalfEvenNonNegative(((limit + live) as real) * 0.85);
  }

  /** `kevin_acceptable_price_wtb_liquidity_take` of this trader: the capacities
      above, then the snapshot's asks below the fair price and its bids above
      it, the bids sized by their volume as stored. */
  function WalkTheBook(acc: real, product: string, snapshot: Depth, live: int, limit: int,
                       v: Venue): Result<Taken>
    requires WellFormed(v.depth)
  {
    var caps := TakeCaps(limit, live, v.net);
    TakeBoth(acc, product, snapshot, caps.buy, caps.sell, Raw, v)
  }

  /** The take buys only asks strictly below the fair price and sells only bids
      strictly above it, within its capacities, and moves the net by what it
      bought less what it sold. On a book freshly copied from the snapshot it
      always finds its levels. */
  lemma WalkTheBookOutcome(acc: real, product: string, snapshot: Depth, live: int, limit: int,
                           v: Venue)
    requires WellFormed(v.depth) && NonNegativeWants(snapshot.buys, Raw)
    ensures var r := WalkTheBook(acc, product, snapshot, live, limit, v);
      var caps := TakeCaps(limit, live, v.net);
      && (v.depth == snapshot ==> r.Success?)
      && (r.Success? ==>
            && AllFit(r.value.bought, Below(acc), Buy, product)
            && AllFit(r.value.sold, Above(acc), Sell, product)
            && Gross(r.value.bought) <= Max(0, caps.buy)
            && Gross(r.value.sold) <= Max(0, caps.sell)
            && r.value.venue.net == v.net + Gross(r.value.bought) - Gross(r.value.sold))
  {
    var caps := TakeCaps(limit, live, v.net);
    TakeBothBounds(acc, product, snapshot, caps.buy, caps.sell, Raw, v);
    TakeBothPrices(acc, product, snapshot, caps.buy, caps.sell, Raw, v);
    if v.depth == snapshot {
      TakeBothFresh(acc, product, snapshot, caps.buy, caps.sell, Raw, v.net);
    }
  }

  /** The market maker's capacities. As written: `limit - live` and
      `limit + live`, replaced by `limit - net` (buy) when the net is long and
      by `limit + net` (sell) when it is short, so that the live position is
      forgotten. Intended: `cal_available_position`. */
  function MakerCaps(reading: Reading, limit: int, live: int, net: int): Caps {
    if reading.Intended? then Capacity(limit, live, net)
    else if net > 0 then Caps(limit - net, limit + live)
    else if net < 0 then Caps(limit - live, limit + net)
    else Caps(limit - live, limit + live)
  }

  /** The two readings agree whenever the provisional net is flat, and only then
      (for a non-zero live position): each open net makes the written
      capacity on its side forget the live position. */
  lemma MakerCapsAgree(limit: int, live: int, net: int)
    ensures net == 0 ==> MakerCaps(AsWritten, limit, live, net) == MakerCaps(Intended, limit, live, net)
    ensures net > 0 ==> MakerCaps(AsWritten, limit, live, net).buy == MakerCaps(Intended, limit, live, net).buy + live
    ensures net < 0 ==> MakerCaps(AsWritten, limit, live, net).sell == MakerCaps(Intended, limit, live, net).sell - live
  {
  }

  /** `list(side.items())[0]`: the first entry of one dict of the simulated book.
      The integer-keyed levels copied from the exchange precede the quotes
      filed under `str(price)` keys, which are only ever inserted after them.
      An empty dict raises `IndexError`. */
  function FirstEntry(levels: Side, filed: Side): (r: Result<Entry>)
    ensures r.Success? <==> levels != [] || filed != []
    ensures r.Failure? ==> r.error == IndexError
    ensures levels != [] ==> r == Success(levels[0])
    ensures levels == [] && filed != [] ==> r == Success(filed[0])
  {
    if levels != [] then Success(levels[0])
    else if filed != [] then Success(filed[0])
    else Failure(IndexError)
  }

  /** The `if / elif / elif` chain of the market maker. As written it tests the
      spread on the prices but compares the volumes `ask_amount - 1` and
      `bid_amount + 1` with the fair price; intended, it compares the prices, as
      `Making.MakerSides` does. Either way each side is decided on its own. */
  function MakerSides(reading: Reading, bid: Entry, ask: Entry, acc: real, caps: Caps): (s: Making.Sides)
    ensures reading.AsWritten? ==>
      && (s.sell <==> ask.key - bid.key > 0 && ((ask.volume - 1) as real) > acc && caps.sell > 0)
      && (s.buy <==> ask.key - bid.key > 0 && ((bid.volume + 1) as real) < acc && caps.buy > 0)
    ensures reading.Intended? ==>
      && (s.sell <==> ask.key - bid.key > 0 && ((ask.key - 1) as real) > acc && caps.sell > 0)
      && (s.buy <==> ask.key - bid.key > 0 && ((bid.key + 1) as real) < acc && caps.buy > 0)
  {
    if reading.Intended? then Making.MakerSides(bid.key, ask.key, acc, caps)
    else if ask.key - bid.key <= 0 then Making.Sides(false, false)
    else if ((ask.volume - 1) as real) > acc > ((bid.volume + 1) as real) && caps.sell > 0 && caps.buy > 0 then
      Making.Sides(true, true)
    else if ((ask.volume - 1) as real) > acc && caps.sell > 0 then Making.Sides(false, true)
    else if ((bid.volume + 1) as real) < acc && caps.buy > 0 then Making.Sides(true, false)
    else Making.Sides(false, false)
  }

  /** `kevin_residual_market_maker` of this trader on the venue of `product` and
      its string-keyed quotes `filed`: capacities first, then the first bid and
      first ask, then the quotes. The buy quote (`bid + 1`, the whole buy
      capacity) is filed and committed before the sell quote (`ask - 1`, the
      whole sell capacity). The result's venue is the new string-keyed depth
      and net; the integer-keyed depth is only read. */
  function Maker(reading: Reading, acc: real, product: string, live: int, limit: int, v: Venue,
                 filed: Depth): Result<Making.Quoted>
    requires WellFormed(filed)
  {
    var caps := MakerCaps(reading, limit, live, v.net);
    var bid :- FirstEntry(v.depth.buys, filed.buys);
    var ask :- FirstEntry(v.depth.sells, filed.sells);
    Success(Making.Post(product, bid.key, ask.key, MakerSides(reading, bid, ask, acc, caps), caps, Venue(filed, v.net)))
  }

  /** The market maker fails only with `IndexError`, and exactly when a dict it
      reads is empty, string-keyed quotes included. */
  lemma MakerFails(reading: Reading, acc: real, product: string, live: int, limit: int, v: Venue,
                   filed: Depth)
    requires WellFormed(filed)
    ensures var r := Maker(reading, acc, product, live, limit, v, filed);
      && (r.Failure? <==> (v.depth.buys == [] && filed.buys == []) || (v.depth.sells == [] && filed.sells == []))
      && (r.Failure? ==> r.error == IndexError)
  {
  }

  /** A successful market maker emits at most a buy of the whole buy capacity
      at the first bid plus one, then a sell of the whole sell capacity at the
      first ask less one (each capacity positive, by `MakerSides`). */
  lemma MakerQuotes(reading: Reading, acc: real, product: string, live: int, limit: int, v: Venue,
                    filed: Depth, bid: Entry, ask: Entry, caps: Caps, sides: Making.Sides)
    requires WellFormed(filed)
    requires FirstEntry(v.depth.buys, filed.buys) == Success(bid)
    requires FirstEntry(v.depth.sells, filed.sells) == Success(ask)
    requires caps == MakerCaps(reading, limit, live, v.net)
    requires sides == MakerSides(reading, bid, ask, acc, caps)
    ensures var r := Maker(reading, acc, product, live, limit, v, filed);
      && r.Success?
      && |r.value.orders| == (if sides.buy then 1 else 0) + (if sides.sell then 1 else 0)
      && (sides.buy ==> r.value.orders[0] == Order(product, bid.key + 1, caps.buy))
      && (sides.sell ==> r.value.orders[|r.value.orders| - 1] == Order(product, ask.key - 1, -caps.sell))
  {
    MakerPosts(reading, acc, product, live, limit, v, filed, bid, ask, caps, sides);
    Making.PostOrders(product, bid.key, ask.key, sides, caps, Venue(filed, v.net));
  }

  /** Both capacities are fixed before either quote moves the net, which moves
      by the buy less the sell. */
  lemma MakerNet(reading: Reading, acc: real, product: string, live: int, limit: int, v: Venue,
                 filed: Depth, bid: Entry, ask: Entry, caps: Caps, sides: Making.Sides)
    requires WellFormed(filed)
    requires FirstEntry(v.depth.buys, filed.buys) == Success(bid)
    requires FirstEntry(v.depth.sells, filed.sells) == Success(ask)
    requires caps == MakerCaps(reading, limit, live, v.net)
    requires sides == MakerSides(reading, bid, ask, acc, caps)
    ensures var r := Maker(reading, acc, product, live, limit, v, filed);
      && r.Success?
      && r.value.venue.net == v.net + (if sides.buy then caps.buy else 0) - (if sides.sell then caps.sell else 0)
  {
    MakerPosts(reading, acc, product, live, limit, v, filed, bid, ask, caps, sides);
    Making.PostOrders(product, bid.key, ask.key, sides, caps, Venue(filed, v.net));
  }

  lemma MakerPosts(reading: Reading, acc: real, product: string, live: int, limit: int, v: Venue,
                   filed: Depth, bid: Entry, ask: Entry, caps: Caps, sides: Making.Sides)
    requires WellFormed(filed)
    requires FirstEntry(v.depth.buys, filed.buys) == Success(bid)
    requires FirstEntry(v.depth.sells, filed.sells) == Success(ask)
    requires caps == MakerCaps(reading, limit, live, v.net)
    requires sides == MakerSides(reading, bid, ask, acc, caps)
    ensures Maker(reading, acc, product, live, limit, v, filed)
            == Success(Making.Post(product, bid.key, ask.key, sides, caps, Venue(filed, v.net)))
  {
  }

  /** A successful market maker files its buy quote at its price among the
      string-keyed bids and leaves every other string-keyed bid as it was. */
  lemma MakerFilesBid(reading: Reading, acc: real, product: string, live: int, limit: int, v: Venue,
                      filed: Depth, bid: Entry, ask: Entry, caps: Caps, sides: Making.Sides, k: int)
    requires WellFormed(filed)
    requires FirstEntry(v.depth.buys, filed.buys) == Success(bid)
    requires FirstEntry(v.depth.sells, filed.sells) == Success(ask)
    requires caps == MakerCaps(reading, limit, live, v.net)
    requires sides == MakerSides(reading, bid, ask, acc, caps)
    ensures var r := Maker(reading, acc, product, live, limit, v, filed);
      && r.Success?
      && Get(r.value.venue.depth.buys, k) == (if sides.buy && k == bid.key + 1 then Some(caps.buy) else Get(filed.buys, k))
  {
    MakerPosts(reading, acc, product, live, limit, v, filed, bid, ask, caps, sides);
    Making.PostBids(product, bid.key, ask.key, sides, caps, Venue(filed, v.net), k);
  }

  /** A successful market maker files its sell quote at its price among the
      string-keyed asks and leaves every other string-keyed ask as it was. */
  lemma MakerFilesAsk(reading: Reading, acc: real, product: string, live: int, limit: int, v: Venue,
                      filed: Depth, bid: Entry, ask: Entry, caps: Caps, sides: Making.Sides, k: int)
    requires WellFormed(filed)
    requires FirstEntry(v.depth.buys, filed.buys) == Success(bid)
    requires FirstEntry(v.depth.sells, filed.sells) == Success(ask)
    requires caps == MakerCaps(reading, limit, live, v.net)
    requires sides == MakerSides(reading, bid, ask, acc, caps)
    ensures var r := Maker(reading, acc, product, live, limit, v, filed);
      && r.Success?
      && Get(r.value.venue.depth.sells, k) == (if sides.sell && k == ask.key - 1 then Some(-caps.sell) else Get(filed.sells, k))
  {
    MakerPosts(reading, acc, product, live, limit, v, filed, bid, ask, caps, sides);
    Making.PostAsks(product, bid.key, ask.key, sides, caps, Venue(filed, v.net), k);
  }

  /** As written, the market maker never posts a sell when the fair price is
      non-negative: every ask in the simulated book, integer- or string-keyed,
      carries a non-positive volume, so `ask_amount - 1 > acceptable_price`
      cannot hold. Every order it emits is a buy. */
  lemma SellNeverQuoted(acc: real, product: string, live: int, limit: int, v: Venue, filed: Depth)
    requires WellFormed(filed) && acc >= 0.0
    requires forall i :: 0 <= i < |v.depth.sells| ==> v.depth.sells[i].volume <= 0
    requires forall i :: 0 <= i < |filed.sells| ==> filed.sells[i].volume <= 0
    ensures var r := Maker(AsWritten, acc, product, live, limit, v, filed);
      r.Success? ==> forall i :: 0 <= i < |r.value.orders| ==> r.value.orders[i].quantity > 0
  {
    var r := Maker(AsWritten, acc, product, live, limit, v, filed);
    if r.Success? {
      var caps := MakerCaps(AsWritten, limit, live, v.net);
      var bid := FirstEntry(v.depth.buys, filed.buys).value;
      var ask := FirstEntry(v.depth.sells, filed.sells).value;
      assert ask.volume <= 0;
      var sides := MakerSides(AsWritten, bid, ask, acc, caps);
      assert !sides.sell;
      Making.PostOrders(product, bid.key, ask.key, sides, caps, Venue(filed, v.net));
    }
  }

  /** Intended, the market maker buys only below the fair price and sells only
      above it, and a quote never carries live + net past the limit: after the
      buy quote the position is at most `limit`, after the sell quote at least
      `-limit`, whatever the provisional net. */
  lemma IntendedKeepsLimit(acc: real, product: string, live: int, limit: int, v: Venue, filed: Depth)
    requires WellFormed(filed)
    ensures var r := Maker(Intended, acc, product, live, limit, v, filed);
      r.Success? ==> forall i :: 0 <= i < |r.value.orders| ==>
        var o := r.value.orders[i];
        if o.quantity > 0 then (o.price as real) < acc && live + v.net + o.quantity <= limit
        else o.quantity < 0 && (o.price as real) > acc && live + v.net + o.quantity >= -limit
  {
    var r := Maker(Intended, acc, product, live, limit, v, filed);
    if r.Success? {
      var caps := MakerCaps(Intended, limit, live, v.net);
      var bid := FirstEntry(v.depth.buys, filed.buys).value;
      var ask := FirstEntry(v.depth.sells, filed.sells).value;
      var sides := MakerSides(Intended, bid, ask, acc, caps);
      Making.PostOrders(product, bid.key, ask.key, sides, caps, Venue(filed, v.net));
    }
  }

  /** The outcome of the AMETHYSTS branch of `run`: all its orders, the
      simulated integer-keyed depth, the string-keyed quotes and the net it
      leaves. */
  datatype Tick = Tick(orders: seq<Order>, depth: Depth, filed: Depth, net: int)

  /** The AMETHYSTS branch of `run`: the walk-the-book take and then the market
      maker, both at the fair price 10000 and on the same simulated book and
      provisional net; the take's orders come first. */
  function Amethysts(reading: Reading, snapshot: Depth, live: int, v: Venue, filed: Depth): Result<Tick>
    requires WellFormed(v.depth) && WellFormed(filed)
  {
    var limit := Round1Limits["AMETHYSTS"];
    var t :- WalkTheBook(Fair, "AMETHYSTS", snapshot, live, limit, v);
    var m :- Maker(reading, Fair, "AMETHYSTS", live, limit, t.venue, filed);
    Success(Tick(t.bought + t.sold + m.orders, t.venue.depth, m.venue.depth, m.venue.net))
  }

  /** Every buy is priced below `acc` and every sell above it. */
  predicate OnSide(orders: seq<Order>, acc: real) {
    forall i :: 0 <= i < |orders| ==>
      && (orders[i].quantity > 0 ==> (orders[i].price as real) < acc)
      && (orders[i].quantity < 0 ==> (orders[i].price as real) > acc)
  }

  lemma OnSideAppend(a: seq<Order>, b: seq<Order>, acc: real)
    requires OnSide(a, acc) && OnSide(b, acc)
    ensures OnSide(a + b, acc)
  {
    forall i | 0 <= i < |a + b|
      ensures && ((a + b)[i].quantity > 0 ==> ((a + b)[i].price as real) < acc)
              && ((a + b)[i].quantity < 0 ==> ((a + b)[i].price as real) > acc)
    {
      if i >= |a| {
        assert (a + b)[i] == b[i - |a|];
      }
    }
  }

  lemma FitOnSide(orders: seq<Order>, accept: int -> bool, dir: Direction, product: string, acc: real)
    requires AllFit(orders, accept, dir, product)
    requires dir.Buy? ==> accept == Below(acc)
    requires dir.Sell? ==> accept == Above(acc)
    ensures OnSide(orders, acc)
  {
    forall i | 0 <= i < |orders|
      ensures && (orders[i].quantity > 0 ==> (orders[i].price as real) < acc)
              && (orders[i].quantity < 0 ==> (orders[i].price as real) > acc)
    {
      assert Fits(orders[i], accept, dir, product);
    }
  }

  /** At the start of a tick (the simulated book a copy of the snapshot, the net
      flat, no string-keyed quote yet) the take always succeeds, and the branch
      fails only with `IndexError`, exactly when the take has emptied a side of
      the book. */
  lemma AmethystsFresh(reading: Reading, snapshot: Depth, live: int)
    requires WellFormed(snapshot) && NonNegativeWants(snapshot.buys, Raw)
    ensures var r := Amethysts(reading, snapshot, live, Venue(snapshot, 0), Depth([], []));
      var t := WalkTheBook(Fair, "AMETHYSTS", snapshot, live, 20, Venue(snapshot, 0));
      && t.Success?
      && (r.Failure? <==> t.value.venue.depth.buys == [] || t.value.venue.depth.sells == [])
      && (r.Failure? ==> r.error == IndexError)
  {
    var v := Venue(snapshot, 0);
    assert Round1Limits["AMETHYSTS"] == 20;
    WalkTheBookOutcome(Fair, "AMETHYSTS", snapshot, live, 20, v);
    var t := WalkTheBook(Fair, "AMETHYSTS", snapshot, live, 20, v).value;
    MakerFails(reading, Fair, "AMETHYSTS", live, 20, t.venue, Depth([], []));
  }

  /** The take's orders come first and keep to the fair price; with the
      intended market maker every order of the branch buys below 10000 or
      sells above it. */
  lemma AmethystsPrices(reading: Reading, snapshot: Depth, live: int, v: Venue, filed: Depth)
    requires WellFormed(v.depth) && WellFormed(filed) && NonNegativeWants(snapshot.buys, Raw)
    ensures var r := Amethysts(reading, snapshot, live, v, filed);
      var t := WalkTheBook(Fair, "AMETHYSTS", snapshot, live, 20, v);
      r.Success? ==>
        && t.Success?
        && r.value.orders[..|t.value.bought| + |t.value.sold|] == t.value.bought + t.value.sold
        && OnSide(t.value.bought + t.value.sold, Fair)
        && (reading.Intended? ==> OnSide(r.value.orders, Fair))
  {
    assert Round1Limits["AMETHYSTS"] == 20;
    var r := Amethysts(reading, snapshot, live, v, filed);
    WalkTheBookOutcome(Fair, "AMETHYSTS", snapshot, live, 20, v);
    if r.Success? {
      var t := WalkTheBook(Fair, "AMETHYSTS", snapshot, live, 20, v).value;
      var m := Maker(reading, Fair, "AMETHYSTS", live, 20, t.venue, filed).value;
      assert r.value.orders == (t.bought + t.sold) + m.orders;
      FitOnSide(t.bought, Below(Fair), Buy, "AMETHYSTS", Fair);
      FitOnSide(t.sold, Above(Fair), Sell, "AMETHYSTS", Fair);
      OnSideAppend(t.bought, t.sold, Fair);
      if reading.Intended? {
        IntendedKeepsLimit(Fair, "AMETHYSTS", live, 20, t.venue, filed);
        assert OnSide(m.orders, Fair);
        OnSideAppend(t.bought + t.sold, m.orders, Fair);
      }
    }
  }

  /** The branch is its take followed by its market maker: once both are
      known, so are its orders, the simulated book, the string-keyed quotes
      and the net. */
  lemma AmethystsOf(reading: Reading, snapshot: Depth, live: int, v: Venue, filed: Depth, t: Taken,
                    m: Making.Quoted)
    requires WellFormed(v.depth) && WellFormed(filed)
    requires WalkTheBook(Fair, "AMETHYSTS", snapshot, live, 20, v) == Success(t)
    requires Maker(reading, Fair, "AMETHYSTS", live, 20, t.venue, filed) == Success(m)
    ensures Amethysts(reading, snapshot, live, v, filed)
            == Success(Tick(t.bought + t.sold + m.orders, t.venue.depth, m.venue.depth, m.venue.net))
  {
    assert Round1Limits["AMETHYSTS"] == 20;
  }

  /** A tick that breaches the position limit as written, first its take: long
      15, with a 3-lot ask at 9998 below the fair price, the take's buy
      capacity is round(5 × 0.85) = 4, so it buys the 3 lots and leaves the
      net at 3. */
  lemma OverLimitTake(snapshot: Depth)
    requires snapshot == Depth([Entry(9990, 5)], [Entry(9998, -3), Entry(10005, -4)])
    ensures WalkTheBook(Fair, "AMETHYSTS", snapshot, 15, 20, Venue(snapshot, 0))
            == Success(Taken([Order("AMETHYSTS", 9998, 3)], [], Venue(Depth([Entry(9990, 5)], [Entry(10005, -4)]), 3)))
  {
    var book := Depth([Entry(9990, 5)], [Entry(9998, -3), Entry(10005, -4)]);
    assert TakeCaps(20, 15, 0) == Caps(4, 30);
    var t := WalkTheBook(Fair, "AMETHYSTS", book, 15, 20, Venue(book, 0)).value;
    assert t.venue == Venue(Depth([Entry(9990, 5)], [Entry(10005, -4)]), 3);
    assert t.bought == [Order("AMETHYSTS", 9998, 3)] && t.sold == [];
  }

  /** Then its market maker as written. Its buy capacity forgets the live
      position: it bids for 20 - 3 = 17 more at 9991, so the position would
      reach 15 + 3 + 17 = 35, past the limit of 20. */
  lemma OverLimitWritten(v: Venue)
    requires v == Venue(Depth([Entry(9990, 5)], [Entry(10005, -4)]), 3)
    ensures Maker(AsWritten, Fair, "AMETHYSTS", 15, 20, v, Depth([], []))
            == Success(Making.Quoted([Order("AMETHYSTS", 9991, 17)], Venue(Depth([Entry(9991, 17)], []), 20)))
  {
    var bid, ask := Entry(9990, 5), Entry(10005, -4);
    var caps := MakerCaps(AsWritten, 20, 15, 3);
    assert caps == Caps(17, 35);
    var sides := MakerSides(AsWritten, bid, ask, Fair, caps);
    assert sides == Making.Sides(true, false);
    MakerPosts(AsWritten, Fair, "AMETHYSTS", 15, 20, v, Depth([], []), bid, ask, caps, sides);
    var post := Making.Post("AMETHYSTS", 9990, 10005, sides, caps, Venue(Depth([], []), 3));
    assert Put([], 9991, 17) == [Entry(9991, 17)];
    assert post.venue == Venue(Depth([Entry(9991, 17)], []), 20);
    assert post.orders == [Order("AMETHYSTS", 9991, 17)];
  }

  /** Then its market maker as intended: the bid is for 2, reaching exactly
      20, and a sell of 35 goes up at 10004. */
  lemma OverLimitIntended(v: Venue)
    requires v == Venue(Depth([Entry(9990, 5)], [Entry(10005, -4)]), 3)
    ensures Maker(Intended, Fair, "AMETHYSTS", 15, 20, v, Depth([], []))
            == Success(Making.Quoted([Order("AMETHYSTS", 9991, 2), Order("AMETHYSTS", 10004, -35)],
                                     Venue(Depth([Entry(9991, 2)], [Entry(10004, -35)]), -30)))
  {
    var bid, ask := Entry(9990, 5), Entry(10005, -4);
    var caps := MakerCaps(Intended, 20, 15, 3);
    assert caps == Caps(2, 35);
    var sides := MakerSides(Intended, bid, ask, Fair, caps);
    assert sides == Making.Sides(true, true);
    MakerPosts(Intended, Fair, "AMETHYSTS", 15, 20, v, Depth([], []), bid, ask, caps, sides);
    var w := Venue(Depth([], []), 3);
    assert Put([], 9991, 2) == [Entry(9991, 2)];
    assert Put([], 10004, -35) == [Entry(10004, -35)];
    var w1 := Making.Quote(w, Buy, 9991, 2, 2);
    assert w1 == Venue(Depth([Entry(9991, 2)], []), 5);
    assert Making.Quote(w1, Sell, 10004, -35, -35) == Venue(Depth([Entry(9991, 2)], [Entry(10004, -35)]), -30);
    var post := Making.Post("AMETHYSTS", 9990, 10005, sides, caps, w);
    assert post.venue == Venue(Depth([Entry(9991, 2)], [Entry(10004, -35)]), -30);
    assert post.orders == [Order("AMETHYSTS", 9991, 2), Order("AMETHYSTS", 10004, -35)];
  }

  /** A tick that buys above the fair price as written, first its take: flat,
      with a 30-lot bid at 10002 above the fair price, the take sells its
      capacity round(20 × 0.85) = 17 into it, leaving 13 lots there. */
  lemma AboveFairTake(snapshot: Depth)
    requires snapshot == Depth([Entry(10002, 30), Entry(9995, 5)], [Entry(10010, -5)])
    ensures WalkTheBook(Fair, "AMETHYSTS", snapshot, 0, 20, Venue(snapshot, 0))
            == Success(Taken([], [Order("AMETHYSTS", 10002, -17)],
                             Venue(Depth([Entry(10002, 13), Entry(9995, 5)], [Entry(10010, -5)]), -17)))
  {
    var book := Depth([Entry(10002, 30), Entry(9995, 5)], [Entry(10010, -5)]);
    assert TakeCaps(20, 0, 0) == Caps(17, 17);
    var t := WalkTheBook(Fair, "AMETHYSTS", book, 0, 20, Venue(book, 0)).value;
    assert t.venue == Venue(Depth([Entry(10002, 13), Entry(9995, 5)], [Entry(10010, -5)]), -17);
    assert t.bought == [] && t.sold == [Order("AMETHYSTS", 10002, -17)];
  }

  /** Then its market maker. As written it tests the bid's volume, 13 + 1 <
      10000, instead of its price, and bids for 20 at 10003, buying back above
      the price it just sold at. Intended, it offers the 3 lots of sell
      capacity left at 10009 instead. */
  lemma AboveFairMaker(reading: Reading, v: Venue)
    requires v == Venue(Depth([Entry(10002, 13), Entry(9995, 5)], [Entry(10010, -5)]), -17)
    ensures Maker(reading, Fair, "AMETHYSTS", 0, 20, v, Depth([], []))
            == Success(if reading.AsWritten? then
                         Making.Quoted([Order("AMETHYSTS", 10003, 20)], Venue(Depth([Entry(10003, 20)], []), 3))
                       else
                         Making.Quoted([Order("AMETHYSTS", 10009, -3)], Venue(Depth([], [Entry(10009, -3)]), -20)))
  {
    var bid, ask := Entry(10002, 13), Entry(10010, -5);
    var caps := MakerCaps(reading, 20, 0, -17);
    assert caps == Caps(20, 3);
    var sides := MakerSides(reading, bid, ask, Fair, caps);
    assert sides == if reading.AsWritten? then Making.Sides(true, false) else Making.Sides(false, true);
    MakerPosts(reading, Fair, "AMETHYSTS", 0, 20, v, Depth([], []), bid, ask, caps, sides);
    var w := Venue(Depth([], []), -17);
    var post := Making.Post("AMETHYSTS", 10002, 10010, sides, caps, w);
    if reading.AsWritten? {
      assert Put([], 10003, 20) == [Entry(10003, 20)];
      assert post.venue == Venue(Depth([Entry(10003, 20)], []), 3);
      assert post.orders == [Order("AMETHYSTS", 10003, 20)];
    } else {
      assert Put([], 10009, -3) == [Entry(10009, -3)];
      assert post.venue == Venue(Depth([], [Entry(10009, -3)]), -20);
      assert post.orders == [Order("AMETHYSTS", 10009, -3)];
    }
  }

  /** The cached value of a tick: the STARFRUIT mid price of the first ask and
      first bid of the snapshot. A missing product raises `KeyError`, an empty
      side `IndexError`. */
  function StarfruitMid(depths: map<string, Depth>): (r: Result<real>)
    ensures "STARFRUIT" !in depths ==> r == Failure(KeyError)
    ensures "STARFRUIT" in depths ==> r == Levels.MidPrice(depths["STARFRUIT"])
  {
    Levels.MidPriceOf(depths, "STARFRUIT")
  }

  /** The string-keyed levels of `estimated_traded_lob`: the quotes the market
      maker files under `str(price)`, per product. */
  class Filed {
    var levels: map<string, Depth>

    ghost predicate Valid()
      reads this
    {
      forall p :: p in levels ==> WellFormed(levels[p])
    }

    /** The string-keyed levels of one product; none before its first quote. */
    function Of(product: string): (d: Depth)
      reads this
      ensures Valid() ==> WellFormed(d)
      ensures product !in levels ==> d == Depth([], [])
    {
      if product in levels then levels[product] else Depth([], [])
    }

    /** A tick starts with no string-keyed level. */
    constructor ()
      ensures Valid() && levels == map[]
    {
      levels := map[];
    }

    /** `book.<side>_orders[str(price)] = volume` on the quoting side of `dir`. */
    method File(product: string, dir: Direction, price: int, volume: int)
      requires Valid()
      modifies this
      ensures Valid()
      ensures levels == old(levels)[product := WithOwn(old(Of(product)), dir, Put(Own(old(Of(product)), dir), price, volume))]
    {
      var d := Of(product);
      levels := levels[product := WithOwn(d, dir, Put(Own(d, dir), price, volume))];
    }
  }

  /** The take of this trader on the desk. */
  method WalkTheBookOnDesk(desk: Desk, acc: real, product: string, snapshot: Depth, live: int, limit: int)
    returns (r: Result<seq<Order>>)
    requires desk.Valid() && desk.Tracks(product)
    modifies desk
    ensures desk.Valid()
    ensures var spec := WalkTheBook(acc, product, snapshot, live, limit, old(desk.VenueOf(product)));
      && (r.Success? <==> spec.Success?)
      && (spec.Failure? ==> r == Failure(spec.error))
      && (spec.Success? ==> r.value == spec.value.bought + spec.value.sold && desk.Became(product, spec.value.venue))
  {
    var caps := TakeCaps(limit, live, desk.ordered[product]);
    r := TakeBothOnDesk(desk, acc, product, snapshot, caps.buy, caps.sell, Raw);
  }

  /** The market maker of this trader on the desk: it reads the first entries,
      files each quote under its string key and commits it. The integer-keyed
      book is left as it was. */
  method MakerOnDesk(desk: Desk, filed: Filed, reading: Reading, acc: real, product: string, live: int,
                     limit: int)
    returns (r: Result<seq<Order>>)
    requires desk.Valid() && desk.Tracks(product) && filed.Valid()
    modifies desk, filed
    ensures desk.Valid() && filed.Valid()
    ensures var spec := Maker(reading, acc, product, live, limit, old(desk.VenueOf(product)), old(filed.Of(product)));
      && (r.Success? <==> spec.Success?)
      && (spec.Failure? ==> r == Failure(spec.error))
      && (r.Failure? ==> desk.lob == old(desk.lob) && desk.ordered == old(desk.ordered) && filed.levels == old(filed.levels))
      && (spec.Success? ==>
            && r.value == spec.value.orders
            && desk.lob == old(desk.lob)
            && desk.ordered == old(desk.ordered)[product := spec.value.venue.net]
            && filed.Of(product) == spec.value.venue.depth
            && filed.levels - {product} == old(filed.levels) - {product})
  {
    ghost var v := desk.VenueOf(product);
    ghost var f := filed.Of(product);
    var caps := MakerCaps(reading, limit, live, desk.ordered[product]);
    var bid := FirstEntry(desk.lob[product].buys, filed.Of(product).buys);
    if bid.Failure? {
      return Failure(bid.error);
    }
    var ask := FirstEntry(desk.lob[product].sells, filed.Of(product).sells);
    if ask.Failure? {
      return Failure(ask.error);
    }
    var sides := MakerSides(reading, bid.value, ask.value, acc, caps);
    MakerPosts(reading, acc, product, live, limit, v, f, bid.value, ask.value, caps, sides);
    var orders := PostFiled(desk, filed, product, bid.value.key, ask.value.key, sides, caps);
    r := Success(orders);
  }

  /** The posting half of the market maker on the desk: the buy quote, then
      the sell quote, each filed and committed. */
  method PostFiled(desk: Desk, filed: Filed, product: string, bid: int, ask: int, sides: Making.Sides, caps: Caps)
    returns (orders: seq<Order>)
    requires desk.Valid() && desk.Tracks(product) && filed.Valid()
    modifies desk, filed
    ensures desk.Valid() && filed.Valid()
    ensures var spec := Making.Post(product, bid, ask, sides, caps, Venue(old(filed.Of(product)), old(desk.ordered[product])));
      && orders == spec.orders
      && desk.lob == old(desk.lob)
      && desk.ordered == old(desk.ordered)[product := spec.venue.net]
      && filed.Of(product) == spec.venue.depth
      && filed.levels - {product} == old(filed.levels) - {product}
  {
    ghost var w := Venue(filed.Of(product), desk.ordered[product]);
    ghost var w1 := if sides.buy then Making.Quote(w, Buy, bid + 1, caps.buy, caps.buy) else w;
    var buys := QuoteSide(desk, filed, product, sides.buy, Buy, bid + 1, caps.buy);
    var sells := QuoteSide(desk, filed, product, sides.sell, Sell, ask - 1, -caps.sell);
    UpdateTwice(old(desk.ordered), product, w1.net, desk.ordered[product]);
    orders := buys + sells;
  }

  /** One side of the market maker: when it posts, its quote is filed under
      its string key and then committed to the net; otherwise nothing changes. */
  method QuoteSide(desk: Desk, filed: Filed, product: string, post: bool, dir: Direction, price: int, volume: int)
    returns (orders: seq<Order>)
    requires desk.Valid() && desk.Tracks(product) && filed.Valid()
    modifies desk, filed
    ensures desk.Valid() && desk.Tracks(product) && filed.Valid()
    ensures var w := Venue(old(filed.Of(product)), old(desk.ordered[product]));
      var q := if post then Making.Quote(w, dir, price, volume, volume) else w;
      && orders == (if post then [Order(product, price, volume)] else [])
      && desk.lob == old(desk.lob)
      && desk.ordered == old(desk.ordered)[product := q.net]
      && filed.Of(product) == q.depth
      && filed.levels - {product} == old(filed.levels) - {product}
  {
    if !post {
      return [];
    }
    filed.File(product, dir, price, volume);
    var _ := desk.Commit(product, volume, dir);
    orders := [Order(product, price, volume)];
  }

  /** The AMETHYSTS branch of `run` on the desk: the take, then the market
      maker, their orders concatenated. */
  method AmethystsOnDesk(desk: Desk, filed: Filed, reading: Reading, snapshot: Depth, live: int)
    returns (r: Result<seq<Order>>)
    requires desk.Valid() && desk.Tracks("AMETHYSTS") && filed.Valid()
    modifies desk, filed
    ensures desk.Valid() && filed.Valid()
    ensures var spec := Amethysts(reading, snapshot, live, old(desk.VenueOf("AMETHYSTS")), old(filed.Of("AMETHYSTS")));
      && (r.Success? <==> spec.Success?)
      && (spec.Failure? ==> r == Failure(spec.error))
      && (spec.Success? ==>
            && r.value == spec.value.orders
            && desk.lob == old(desk.lob)["AMETHYSTS" := spec.value.depth]
            && desk.ordered == old(desk.ordered)["AMETHYSTS" := spec.value.net]
            && filed.Of("AMETHYSTS") == spec.value.filed
            && filed.levels - {"AMETHYSTS"} == old(filed.levels) - {"AMETHYSTS"})
  {
    ghost var v := desk.VenueOf("AMETHYSTS");
    ghost var f := filed.Of("AMETHYSTS");
    var limit := Round1Limits["AMETHYSTS"];
    var t := WalkTheBookOnDesk(desk, Fair, "AMETHYSTS", snapshot, live, limit);
    if t.Failure? {
      return Failure(t.error);
    }
    ghost var tv := WalkTheBook(Fair, "AMETHYSTS", snapshot, live, limit, v).value;
    assert desk.VenueOf("AMETHYSTS") == tv.venue;
    assert filed.Of("AMETHYSTS") == f;
    var m := MakerOnDesk(desk, filed, reading, Fair, "AMETHYSTS", live, limit);
    if m.Failure? {
      return Failure(m.error);
    }
    ghost var mv := Maker(reading, Fair, "AMETHYSTS", live, limit, tv.venue, f).value;
    UpdateTwice(old(desk.ordered), "AMETHYSTS", tv.venue.net, mv.venue.net);
    r := Success(t.value + m.value);
  }

  /** What `run` returns besides `conversions = 1`: the orders per product and
      the new cache. */
  datatype Outcome = Outcome(result: map<string, seq<Order>>, cache: seq<real>)

  /** `run` over the snapshot `depths` (its keys in dict order in `keys`): only
      AMETHYSTS trades, on a fresh simulated book and net; afterwards the
      STARFRUIT mid price is appended to the cache, which keeps the newest 101. */
  function Run(reading: Reading, depths: map<string, Depth>, position: map<string, int>, past: seq<real>,
               timestamp: int): Result<Outcome>
    requires forall p :: p in depths ==> WellFormed(depths[p])
  {
    var result :- if "AMETHYSTS" !in depths then Success(map[])
                  else
                    var d := depths["AMETHYSTS"];
                    var t :- Amethysts(reading, d, Live(position, "AMETHYSTS"), Venue(d, 0), Depth([], []));
                    Success(map["AMETHYSTS" := t.orders]);
    var mid :- StarfruitMid(depths);
    Success(Outcome(result, History.Remember(past, mid, timestamp, History.Round1Points)))
  }

  /** `run` fails only with `IndexError` or `KeyError`: the take never fails on
      the fresh book, and the market maker and the cache only read first
      entries and the STARFRUIT snapshot. On success the orders are for
      AMETHYSTS alone, and the cache holds at most 101 mid prices, this tick's
      last. */
  lemma RunOutcome(reading: Reading, depths: map<string, Depth>, position: map<string, int>, past: seq<real>,
                   timestamp: int)
    requires forall p :: p in depths ==> WellFormed(depths[p])
    requires "AMETHYSTS" in depths ==> NonNegativeWants(depths["AMETHYSTS"].buys, Raw)
    ensures var r := Run(reading, depths, position, past, timestamp);
      && (r.Failure? ==> r.error == IndexError || r.error == KeyError)
      && ("STARFRUIT" !in depths && "AMETHYSTS" !in depths ==> r == Failure(KeyError))
      && (r.Success? ==>
            && r.value.result.Keys <= {"AMETHYSTS"}
            && ("AMETHYSTS" in depths <==> "AMETHYSTS" in r.value.result)
            && 1 <= |r.value.cache| <= 101
            && 2.0 * r.value.cache[|r.value.cache| - 1]
               == (depths["STARFRUIT"].buys[0].key + depths["STARFRUIT"].sells[0].key) as real)
  {
    if "AMETHYSTS" in depths {
      AmethystsFresh(reading, depths["AMETHYSTS"], Live(position, "AMETHYSTS"));
    }
  }

  /** `run` on the desk: a fresh simulated book and net, the loop over the
      snapshot's products in which only AMETHYSTS trades, then the cache. */
  method RunTick(reading: Reading, depths: map<string, Depth>, keys: seq<string>, position: map<string, int>,
                 past: seq<real>, timestamp: int)
    returns (r: Result<Outcome>)
    requires forall p :: p in depths ==> WellFormed(depths[p])
    requires forall p :: p in keys <==> p in depths
    requires forall i, j :: 0 <= i < j < |keys| ==> keys[i] != keys[j]
    ensures r == Run(reading, depths, position, past, timestamp)
  {
    var desk := new Desk(depths, Products);
    var filed := new Filed();
    var result: map<string, seq<Order>> := map[];
    for i := 0 to |keys|
      invariant desk.Valid() && filed.Valid()
      invariant "AMETHYSTS" !in keys[..i] ==>
        && result == map[] && desk.lob == depths && "AMETHYSTS" in desk.ordered
        && desk.ordered["AMETHYSTS"] == 0 && filed.levels == map[]
      invariant "AMETHYSTS" in keys[..i] ==>
        var d := depths["AMETHYSTS"];
        var t := Amethysts(reading, d, Live(position, "AMETHYSTS"), Venue(d, 0), Depth([], []));
        t.Success? && result == map["AMETHYSTS" := t.value.orders]
    {
      if keys[i] == "AMETHYSTS" {
        assert "AMETHYSTS" !in keys[..i];
        assert desk.VenueOf("AMETHYSTS") == Venue(depths["AMETHYSTS"], 0);
        assert filed.Of("AMETHYSTS") == Depth([], []);
        var orders := AmethystsOnDesk(desk, filed, reading, depths["AMETHYSTS"], Live(position, "AMETHYSTS"));
        if orders.Failure? {
          return Failure(orders.error);
        }
        result := result["AMETHYSTS" := orders.value];
      }
      assert keys[..i + 1] == keys[..i] + [keys[i]];
    }
    assert keys[..|keys|] == keys;
    var mid := StarfruitMid(depths);
    if mid.Failure? {
      return Failure(mid.error);
    }
    r := Success(Outcome(result, History.Remember(past, mid.value, timestamp, History.Round1Points)));
  }
}
