/** Claiming liquidity from the simulated book. `kevin_market_take` claims volume
    at one price level; the liquidity-taking strategies walk a list of levels
    and claim each acceptable one while capacity lasts. */
module Claims {
  import opened Common
  import opened Book
  import opened Position

  /** The outcome of one claim: the orders it emits (zero or one), the capacity
      left, and the updated venue. */
  datatype Claimed = Claimed(orders: seq<Order>, left: int, venue: Venue)

  /** How an inline claim loop sizes a level.
      Magnitude: the level's absolute volume, as `kevin_market_take` and every
        inline buy loop do;
      Raw: the bid volume as stored, with an order of `-abs(q)` (the inline sell
        loop of the walk-the-book take);
      RawSigned: the bid volume as stored, with an order of `-q` (the sell loop
        of `kevin_cover_position`). */
  datatype Sizing = Magnitude | Raw | RawSigned

  /** The level update of one claim of `q` at `price` on the side `dir` trades
      against: `pop(price)` when the claim covers all that was wanted, otherwise
      the level moves by `q` towards zero (`+= q` on the asks, `-= q` on the bids). */
  function Consume(d: Depth, dir: Direction, price: int, whole: bool, q: int): (r: Depth)
    requires WellFormed(d) && HasKey(Facing(d, dir), price)
    ensures WellFormed(r) && Own(r, dir) == Own(d, dir)
  {
    var s := Facing(d, dir);
    if whole then WithFacing(d, dir, Remove(s, price))
    else WithFacing(d, dir, Put(s, price, Get(s, price).value + dir.Apply(q)))
  }

  /** After the update the claimed level is gone (or holds `q` less towards
      zero), and every other price reads as before. */
  lemma ConsumeLookup(d: Depth, dir: Direction, price: int, whole: bool, q: int)
    requires WellFormed(d) && HasKey(Facing(d, dir), price)
    ensures var s, s' := Facing(d, dir), Facing(Consume(d, dir, price, whole, q), dir);
      && (whole ==> Get(s', price) == None)
      && (!whole ==> Get(s', price) == Some(Get(s, price).value + dir.Apply(q)))
      && (forall k :: k != price ==> Get(s', k) == Get(s, k))
  {
    var s := Facing(d, dir);
    if whole {
      assert Facing(Consume(d, dir, price, whole, q), dir) == Remove(s, price);
      RemoveLookup(s, price);
    } else {
      var n := Get(s, price).value + dir.Apply(q);
      assert Facing(Consume(d, dir, price, whole, q), dir) == Put(s, price, n);
      PutLookup(s, price, n);
    }
  }

  /** `kevin_market_take(product, price, amount, available, side)` on the venue of
      `product`. With nothing available it is a no-op; otherwise it claims
      `q = min(|amount|, available)`, updates the level, and commits `q`. A
      level missing from the simulated book raises `KeyError`. */
  function Take(product: string, price: int, amount: int, available: int, dir: Direction,
                v: Venue): (r: Result<Claimed>)
    requires WellFormed(v.depth)
    ensures available == 0 ==> r == Success(Claimed([], available, v))
    ensures available != 0 && !HasKey(Facing(v.depth, dir), price) ==> r == Failure(KeyError)
    ensures available != 0 && HasKey(Facing(v.depth, dir), price) ==> r.Success?
    ensures r.Success? ==> WellFormed(r.value.venue.depth) && Own(r.value.venue.depth, dir) == Own(v.depth, dir)
  {
    var a := Abs(amount);
    if available == 0 then Success(Claimed([], available, v))
    else if !HasKey(Facing(v.depth, dir), price) then Failure(KeyError)
    else
      var q := if a > available then available else a;
      Success(Claimed([Order(product, price, dir.Apply(q))], available - q,
                      Venue(Consume(v.depth, dir, price, a <= available, q), Commit(v.net, q, dir))))
  }

  /** A successful take with capacity emits one order for `q = min(|amount|,
      available)`, leaves `available - q`, moves the net by `q` in its direction,
      and either deletes the level (the claim covers `|amount|`) or moves it by
      `available` towards zero; every other price keeps its volume. */
  lemma TakeOutcome(product: string, price: int, amount: int, available: int, dir: Direction,
                    v: Venue)
    requires WellFormed(v.depth)
    ensures var r := Take(product, price, amount, available, dir, v);
      r.Success? && available != 0 ==>
      var q := Min(Abs(amount), available);
      var s := Facing(v.depth, dir);
      var s' := Facing(r.value.venue.depth, dir);
      && r.value.orders == [Order(product, price, dir.Apply(q))]
      && r.value.left == available - q
      && r.value.venue.net == v.net + dir.Apply(Abs(q))
      && (Abs(amount) <= available ==> Get(s', price) == None)
      && (Abs(amount) > available ==> Get(s', price) == Some(Get(s, price).value + dir.Apply(available)))
      && (forall k :: k != price ==> Get(s', k) == Get(s, k))
  {
    if available != 0 && HasKey(Facing(v.depth, dir), price) {
      var a := Abs(amount);
      ConsumeLookup(v.depth, dir, price, a <= available, if a > available then available else a);
    }
  }

  /** The volume a claim of level `e` starts from under a sizing rule. */
  function Wanted(e: Entry, sizing: Sizing): int {
    if sizing.Magnitude? then Abs(e.volume) else e.volume
  }

  /** One inline claim of level `e` with capacity `cap > 0`. The magnitude rule is
      exactly `kevin_market_take`; the raw rules repeat its steps on the volume
      as stored. */
  function Claim(product: string, e: Entry, dir: Direction, sizing: Sizing, cap: int,
                 v: Venue): (r: Result<Claimed>)
    requires WellFormed(v.depth) && cap > 0
    ensures r.Success? <==> HasKey(Facing(v.depth, dir), e.key)
    ensures r.Success? ==> WellFormed(r.value.venue.depth) && Own(r.value.venue.depth, dir) == Own(v.depth, dir)
  {
    if sizing.Magnitude? then Take(product, e.key, e.volume, cap, dir, v)
    else if !HasKey(Facing(v.depth, dir), e.key) then Failure(KeyError)
    else
      var b := e.volume;
      var q := if b > cap then cap else b;
      var qty := if sizing.Raw? then dir.Apply(Abs(q)) else dir.Apply(q);
      Success(Claimed([Order(product, e.key, qty)], cap - q,
                      Venue(Consume(v.depth, dir, e.key, b <= cap, q), Commit(v.net, q, dir))))
  }

  /** What one successful claim emits and leaves: a single order at the level's
      price for `q = min(wanted, cap)`, the capacity reduced by `q`, and the net
      moved by `|q|` in the claim's direction. */
  lemma ClaimOutcome(product: string, e: Entry, dir: Direction, sizing: Sizing, cap: int,
                     v: Venue)
    requires WellFormed(v.depth) && cap > 0
    ensures var r := Claim(product, e, dir, sizing, cap, v);
      r.Success? ==>
      var q := Min(Wanted(e, sizing), cap);
      && |r.value.orders| == 1
      && r.value.orders[0].price == e.key
      && r.value.orders[0].product == product
      && r.value.left == cap - q
      && r.value.venue.net == v.net + dir.Apply(Abs(q))
      // Only the cover loop, on a bid stored with a negative volume, emits an
      // order against its own direction.
      && (if sizing.RawSigned? && q < 0 then r.value.orders[0].quantity == -dir.Apply(Abs(q))
          else r.value.orders[0].quantity == dir.Apply(Abs(q)))
  {
    if sizing.Magnitude? {
      TakeOutcome(product, e.key, e.volume, cap, dir, v);
    }
  }

  /** A claim leaves every other price of the side it trades against as it was. */
  lemma ClaimKeeps(product: string, e: Entry, dir: Direction, sizing: Sizing, cap: int, v: Venue, k: int)
    requires WellFormed(v.depth) && cap > 0 && k != e.key
    ensures var r := Claim(product, e, dir, sizing, cap, v);
      r.Success? ==> Get(Facing(r.value.venue.depth, dir), k) == Get(Facing(v.depth, dir), k)
  {
    if HasKey(Facing(v.depth, dir), e.key) {
      var w := Wanted(e, sizing);
      ConsumeLookup(v.depth, dir, e.key, w <= cap, if w > cap then cap else w);
    }
  }

  /** Prefix `orders` to a successful outcome; a failure stays a failure. */
  function Prepend(orders: seq<Order>, r: Result<Claimed>): Result<Claimed> {
    if r.Success? then Success(Claimed(orders + r.value.orders, r.value.left, r.value.venue)) else r
  }

  lemma PrependNothing(r: Result<Claimed>)
    ensures Prepend([], r) == r
  {
    if r.Success? {
      assert [] + r.value.orders == r.value.orders;
    }
  }

  lemma PrependTwice(a: seq<Order>, b: seq<Order>, r: Result<Claimed>)
    ensures Prepend(a, Prepend(b, r)) == Prepend(a + b, r)
  {
    if r.Success? {
      assert a + (b + r.value.orders) == (a + b) + r.value.orders;
    }
  }

  /** A claim loop over `levels` (a list of `(price, volume)` pairs in dict order):
      every level whose price `accept`s is claimed while the capacity is positive,
      and the capacity left by one claim is the capacity of the next. A claim at
      a price the simulated book no longer holds raises `KeyError`. */
  function Walk(levels: Side, accept: int -> bool, dir: Direction, product: string,
                            sizing: Sizing, cap: int, v: Venue): (r: Result<Claimed>)
    requires WellFormed(v.depth)
    ensures r.Success? ==> WellFormed(r.value.venue.depth)
    ensures r.Success? ==> Own(r.value.venue.depth, dir) == Own(v.depth, dir)
    decreases |levels|
  {
    if levels == [] then Success(Claimed([], cap, v))
    else if accept(levels[0].key) && cap > 0 then
      var c :- Claim(product, levels[0], dir, sizing, cap, v);
      Prepend(c.orders, Walk(levels[1..], accept, dir, product, sizing, c.left, c.venue))
    else
      Walk(levels[1..], accept, dir, product, sizing, cap, v)
  }

  /** A walk only touches the levels it visits: every other price of the side it
      trades against keeps its volume. */
  lemma {:induction false} WalkUntouched(levels: Side, accept: int -> bool, dir: Direction,
                                                  product: string, sizing: Sizing, cap: int, v: Venue, k: int)
    requires WellFormed(v.depth) && !HasKey(levels, k)
    ensures var r := Walk(levels, accept, dir, product, sizing, cap, v);
      r.Success? ==> Get(Facing(r.value.venue.depth, dir), k) == Get(Facing(v.depth, dir), k)
    decreases |levels|
  {
    if levels != [] {
      assert !HasKey(levels[1..], k) && k != levels[0].key;
      if accept(levels[0].key) && cap > 0 {
        var c := Claim(product, levels[0], dir, sizing, cap, v);
        ClaimKeeps(product, levels[0], dir, sizing, cap, v, k);
        if c.Success? {
          WalkUntouched(levels[1..], accept, dir, product, sizing, c.value.left, c.value.venue, k);
        }
      } else {
        WalkUntouched(levels[1..], accept, dir, product, sizing, cap, v, k);
      }
    }
  }

  /** One step of a walk, unfolded. */
  lemma WalkStep(levels: Side, accept: int -> bool, dir: Direction, product: string,
                          sizing: Sizing, cap: int, v: Venue)
    requires WellFormed(v.depth) && levels != []
    ensures !(accept(levels[0].key) && cap > 0) ==>
      Walk(levels, accept, dir, product, sizing, cap, v) == Walk(levels[1..], accept, dir, product, sizing, cap, v)
    ensures accept(levels[0].key) && cap > 0 ==>
      var c := Claim(product, levels[0], dir, sizing, cap, v);
      Walk(levels, accept, dir, product, sizing, cap, v) ==
        if c.Failure? then Failure(c.error)
        else Prepend(c.value.orders, Walk(levels[1..], accept, dir, product, sizing, c.value.left, c.value.venue))
  {
  }

  /** The loop form of a walk: if the whole walk is `orders` followed by the walk
      of the levels from `i` on, then after visiting level `i` it is the orders so
      far, plus that level's claim, followed by the walk from `i + 1` on. */
  lemma WalkAdvance(levels: Side, i: nat, accept: int -> bool, dir: Direction, product: string,
                             sizing: Sizing, cap: int, v: Venue, orders: seq<Order>,
                             whole: Result<Claimed>)
    requires WellFormed(v.depth) && i < |levels|
    requires whole == Prepend(orders, Walk(levels[i..], accept, dir, product, sizing, cap, v))
    ensures !(accept(levels[i].key) && cap > 0) ==>
      whole == Prepend(orders, Walk(levels[i + 1..], accept, dir, product, sizing, cap, v))
    ensures accept(levels[i].key) && cap > 0 ==>
      var c := Claim(product, levels[i], dir, sizing, cap, v);
      && (c.Failure? ==> whole == Failure(c.error))
      && (c.Success? ==>
            whole == Prepend(orders + c.value.orders,
                             Walk(levels[i + 1..], accept, dir, product, sizing, c.value.left, c.value.venue)))
  {
    WalkStep(levels[i..], accept, dir, product, sizing, cap, v);
    assert levels[i..][0] == levels[i] && levels[i..][1..] == levels[i + 1..];
    if accept(levels[i].key) && cap > 0 {
      var c := Claim(product, levels[i], dir, sizing, cap, v);
      if c.Success? {
        PrependTwice(orders, c.value.orders,
                     Walk(levels[i + 1..], accept, dir, product, sizing, c.value.left, c.value.venue));
      }
    }
  }

  /** One visit of the claim loop: level `e` is claimed when it passes the test
      with capacity left; otherwise nothing happens. */
  function Visit(e: Entry, accept: int -> bool, dir: Direction, product: string, sizing: Sizing,
                 cap: int, v: Venue): Result<Claimed>
    requires WellFormed(v.depth)
  {
    if accept(e.key) && cap > 0 then Claim(product, e, dir, sizing, cap, v) else Success(Claimed([], cap, v))
  }

  /** The loop form of a walk in terms of one visit: a failed visit is the
      outcome of the whole walk; a successful one is followed by the walk of the
      remaining levels from where it left the capacity and the venue. */
  lemma WalkVisit(levels: Side, i: nat, accept: int -> bool, dir: Direction, product: string,
                  sizing: Sizing, cap: int, v: Venue, orders: seq<Order>, whole: Result<Claimed>)
    requires WellFormed(v.depth) && i < |levels|
    requires whole == Prepend(orders, Walk(levels[i..], accept, dir, product, sizing, cap, v))
    ensures var c := Visit(levels[i], accept, dir, product, sizing, cap, v);
      && (c.Failure? ==> whole == Failure(c.error))
      && (c.Success? ==>
            && WellFormed(c.value.venue.depth)
            && whole == Prepend(orders + c.value.orders,
                                Walk(levels[i + 1..], accept, dir, product, sizing, c.value.left, c.value.venue)))
  {
    WalkAdvance(levels, i, accept, dir, product, sizing, cap, v, orders, whole);
    if !(accept(levels[i].key) && cap > 0) {
      assert orders + [] == orders;
    }
  }

  /** The volume a walk could claim if capacity were unlimited: the sized volume
      of every accepted level. */
  function Offered(levels: Side, accept: int -> bool, sizing: Sizing): int {
    if levels == [] then 0
    else (if accept(levels[0].key) then Wanted(levels[0], sizing) else 0) + Offered(levels[1..], accept, sizing)
  }

  /** Claims never grow the capacity when no level asks for a negative amount:
      always true for the magnitude rule, and for the raw rules on bids with
      non-negative volumes. */
  predicate NonNegativeWants(levels: Side, sizing: Sizing) {
    forall i :: 0 <= i < |levels| ==> Wanted(levels[i], sizing) >= 0
  }

  /** The net effect of a successful walk: it emits at most the capacity it
      started with (nothing when that is not positive), and the net position
      moves by exactly the gross quantity emitted, in the walk's direction. */
  lemma WalkNet(levels: Side, accept: int -> bool, dir: Direction, product: string,
                         sizing: Sizing, cap: int, v: Venue)
    requires WellFormed(v.depth) && NonNegativeWants(levels, sizing)
    ensures var r := Walk(levels, accept, dir, product, sizing, cap, v);
      r.Success? ==>
        && Gross(r.value.orders) <= Max(0, cap)
        && r.value.venue.net == v.net + dir.Apply(Gross(r.value.orders))
  {
    WalkAccounting(levels, accept, dir, product, sizing, cap, v);
    WalkMoves(levels, accept, dir, product, sizing, cap, v);
    WalkOrders(levels, accept, dir, product, sizing, cap, v);
    var r := Walk(levels, accept, dir, product, sizing, cap, v);
    if r.Success? {
      forall i | 0 <= i < |r.value.orders| ensures dir.Along(r.value.orders[i].quantity) {
        assert Fits(r.value.orders[i], accept, dir, product);
      }
      SignedOneWay(r.value.orders, dir);
    }
  }

  /** Accounting of a successful walk: it consumes exactly the gross quantity it
      emits and never more than the capacity it started with; with no capacity
      it does nothing. */
  lemma {:induction false} WalkAccounting(levels: Side, accept: int -> bool, dir: Direction,
                                          product: string, sizing: Sizing, cap: int, v: Venue)
    requires WellFormed(v.depth) && NonNegativeWants(levels, sizing)
    ensures var r := Walk(levels, accept, dir, product, sizing, cap, v);
      r.Success? ==>
        && (cap <= 0 ==> r.value == Claimed([], cap, v))
        && (cap > 0 ==> 0 <= r.value.left <= cap)
        && Gross(r.value.orders) == cap - r.value.left
    decreases |levels|
  {
    if levels != [] {
      NonNegativeWantsTail(levels, sizing);
      if accept(levels[0].key) && cap > 0 {
        var c := Claim(product, levels[0], dir, sizing, cap, v);
        ClaimOutcome(product, levels[0], dir, sizing, cap, v);
        if c.Success? {
          var rest := Walk(levels[1..], accept, dir, product, sizing, c.value.left, c.value.venue);
          WalkAccounting(levels[1..], accept, dir, product, sizing, c.value.left, c.value.venue);
          if rest.Success? {
            var o := c.value.orders[0];
            assert c.value.orders == [o];
            assert Gross([o]) == Abs(o.quantity);
            SignedAppend(c.value.orders, rest.value.orders);
            assert Walk(levels, accept, dir, product, sizing, cap, v) == Prepend(c.value.orders, rest);
          }
        }
      } else {
        WalkAccounting(levels[1..], accept, dir, product, sizing, cap, v);
      }
    }
  }

  /** The net position moves by the total quantity a successful walk emits. */
  lemma {:induction false} WalkMoves(levels: Side, accept: int -> bool, dir: Direction,
                                     product: string, sizing: Sizing, cap: int, v: Venue)
    requires WellFormed(v.depth) && NonNegativeWants(levels, sizing)
    ensures var r := Walk(levels, accept, dir, product, sizing, cap, v);
      r.Success? ==> r.value.venue.net == v.net + Signed(r.value.orders)
    decreases |levels|
  {
    if levels != [] {
      NonNegativeWantsTail(levels, sizing);
      if accept(levels[0].key) && cap > 0 {
        var c := Claim(product, levels[0], dir, sizing, cap, v);
        ClaimOutcome(product, levels[0], dir, sizing, cap, v);
        if c.Success? {
          var rest := Walk(levels[1..], accept, dir, product, sizing, c.value.left, c.value.venue);
          WalkMoves(levels[1..], accept, dir, product, sizing, c.value.left, c.value.venue);
          if rest.Success? {
            var o := c.value.orders[0];
            assert c.value.orders == [o];
            assert Signed([o]) == o.quantity;
            SignedAppend(c.value.orders, rest.value.orders);
            assert Walk(levels, accept, dir, product, sizing, cap, v) == Prepend(c.value.orders, rest);
          }
        }
      } else {
        WalkMoves(levels[1..], accept, dir, product, sizing, cap, v);
      }
    }
  }

  /** An order for `product` at a price `accept` admits, trading in direction `dir`. */
  predicate Fits(o: Order, accept: int -> bool, dir: Direction, product: string) {
    dir.Along(o.quantity) && accept(o.price) && o.product == product
  }

  predicate AllFit(orders: seq<Order>, accept: int -> bool, dir: Direction, product: string) {
    forall i :: 0 <= i < |orders| ==> Fits(orders[i], accept, dir, product)
  }

  lemma AllFitAppend(a: seq<Order>, b: seq<Order>, accept: int -> bool, dir: Direction, product: string)
    requires AllFit(a, accept, dir, product) && AllFit(b, accept, dir, product)
    ensures AllFit(a + b, accept, dir, product)
  {
    forall i | 0 <= i < |a + b| ensures Fits((a + b)[i], accept, dir, product) {
      if i < |a| {
        assert (a + b)[i] == a[i];
      } else {
        assert (a + b)[i] == b[i - |a|];
      }
    }
  }

  /** Every order of a successful walk is for the walk's product, at an accepted
      price, and trades in the walk's direction. */
  lemma {:induction false} WalkOrders(levels: Side, accept: int -> bool, dir: Direction,
                                      product: string, sizing: Sizing, cap: int, v: Venue)
    requires WellFormed(v.depth) && NonNegativeWants(levels, sizing)
    ensures var r := Walk(levels, accept, dir, product, sizing, cap, v);
      r.Success? ==> AllFit(r.value.orders, accept, dir, product)
    decreases |levels|
  {
    if levels != [] {
      NonNegativeWantsTail(levels, sizing);
      if accept(levels[0].key) && cap > 0 {
        var c := Claim(product, levels[0], dir, sizing, cap, v);
        ClaimOutcome(product, levels[0], dir, sizing, cap, v);
        if c.Success? {
          var rest := Walk(levels[1..], accept, dir, product, sizing, c.value.left, c.value.venue);
          WalkOrders(levels[1..], accept, dir, product, sizing, c.value.left, c.value.venue);
          if rest.Success? {
            assert Fits(c.value.orders[0], accept, dir, product);
            assert AllFit(c.value.orders, accept, dir, product);
            AllFitAppend(c.value.orders, rest.value.orders, accept, dir, product);
            assert Walk(levels, accept, dir, product, sizing, cap, v) == Prepend(c.value.orders, rest);
          }
        }
      } else {
        WalkOrders(levels[1..], accept, dir, product, sizing, cap, v);
      }
    }
  }

  lemma NonNegativeWantsTail(levels: Side, sizing: Sizing)
    requires levels != [] && NonNegativeWants(levels, sizing)
    ensures Wanted(levels[0], sizing) >= 0 && NonNegativeWants(levels[1..], sizing)
  {
    forall i | 0 <= i < |levels[1..]| ensures Wanted(levels[1..][i], sizing) >= 0 {
      assert levels[1..][i] == levels[i + 1];
    }
  }

  /** A successful walk fills greedily: it claims the whole offered volume, or
      the whole capacity when the offer exceeds it. */
  lemma {:induction false} WalkFills(levels: Side, accept: int -> bool, dir: Direction,
                                                 product: string, sizing: Sizing, cap: int, v: Venue)
    requires WellFormed(v.depth) && NonNegativeWants(levels, sizing) && cap >= 0
    ensures var r := Walk(levels, accept, dir, product, sizing, cap, v);
      r.Success? ==> cap - r.value.left == Min(cap, Offered(levels, accept, sizing))
    decreases |levels|
  {
    if levels != [] {
      NonNegativeWantsTail(levels, sizing);
      OfferedNonNegative(levels[1..], accept, sizing);
      if accept(levels[0].key) && cap > 0 {
        var c := Claim(product, levels[0], dir, sizing, cap, v);
        ClaimOutcome(product, levels[0], dir, sizing, cap, v);
        if c.Success? {
          WalkFills(levels[1..], accept, dir, product, sizing, c.value.left, c.value.venue);
        }
      } else {
        WalkFills(levels[1..], accept, dir, product, sizing, cap, v);
      }
    }
  }

  lemma {:induction false} OfferedNonNegative(levels: Side, accept: int -> bool, sizing: Sizing)
    requires NonNegativeWants(levels, sizing)
    ensures Offered(levels, accept, sizing) >= 0
    decreases |levels|
  {
    if levels != [] {
      NonNegativeWantsTail(levels, sizing);
      OfferedNonNegative(levels[1..], accept, sizing);
    }
  }

  /** A walk cannot raise `KeyError` when its levels are distinct and every
      accepted one is still in the simulated book when the walk starts. */
  lemma {:induction false} WalkTotal(levels: Side, accept: int -> bool, dir: Direction,
                                                 product: string, sizing: Sizing, cap: int, v: Venue)
    requires WellFormed(v.depth) && Distinct(levels)
    requires forall i :: 0 <= i < |levels| && accept(levels[i].key) ==> HasKey(Facing(v.depth, dir), levels[i].key)
    ensures Walk(levels, accept, dir, product, sizing, cap, v).Success?
    decreases |levels|
  {
    if levels != [] {
      var tail := levels[1..];
      assert forall i :: 0 <= i < |tail| ==> tail[i] == levels[i + 1];
      if accept(levels[0].key) && cap > 0 {
        assert HasKey(Facing(v.depth, dir), levels[0].key);
        var c := Claim(product, levels[0], dir, sizing, cap, v);
        ClaimOutcome(product, levels[0], dir, sizing, cap, v);
        var s, s' := Facing(v.depth, dir), Facing(c.value.venue.depth, dir);
        forall i | 0 <= i < |tail| && accept(tail[i].key)
          ensures HasKey(s', tail[i].key)
        {
          assert tail[i].key != levels[0].key;
          assert HasKey(s, tail[i].key);
          ClaimKeeps(product, levels[0], dir, sizing, cap, v, tail[i].key);
        }
        WalkTotal(tail, accept, dir, product, sizing, c.value.left, c.value.venue);
      } else {
        WalkTotal(tail, accept, dir, product, sizing, cap, v);
      }
    }
  }

  /** Walking the simulated book's own resting side, as the price-driven strategy
      does, never raises `KeyError`. */
  lemma WalkOwnBook(accept: int -> bool, dir: Direction, product: string, sizing: Sizing,
                                cap: int, v: Venue)
    requires WellFormed(v.depth)
    ensures Walk(Facing(v.depth, dir), accept, dir, product, sizing, cap, v).Success?
  {
    var s := Facing(v.depth, dir);
    forall i | 0 <= i < |s| ensures HasKey(s, s[i].key) { }
    WalkTotal(s, accept, dir, product, sizing, cap, v);
  }

  /** On a level whose volume has the resting sign (asks negative, bids positive)
      and a claim of its whole magnitude, `kevin_market_take` splits the level:
      what is claimed plus what stays in the book is the original volume, and a
      remainder keeps its sign. */
  lemma TakeConserves(product: string, price: int, volume: int, available: int, dir: Direction,
                                  v: Venue)
    requires WellFormed(v.depth) && available > 0
    requires Get(Facing(v.depth, dir), price) == Some(volume) && dir.Along(-volume)
    ensures var r := Take(product, price, volume, available, dir, v);
      && r.Success?
      && var rest := Get(Facing(r.value.venue.depth, dir), price);
      && Abs(r.value.orders[0].quantity) + (if rest.Some? then Abs(rest.value) else 0) == Abs(volume)
      && (rest.Some? ==> dir.Apply(rest.value) < 0)
  {
    TakeOutcome(product, price, volume, available, dir, v);
  }
}
