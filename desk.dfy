/** The per-tick mutable state every strategy threads through: the simulated
    book `estimated_traded_lob` (a deep copy of the exchange's order depths that
    the strategies deplete and quote into) and the provisional positions
    `ordered_position`. */
module Desks {
  import opened Common
  import opened Book
  import opened Position
  import opened Claims

  lemma UpdateTwice<V>(m: map<string, V>, p: string, a: V, b: V)
    ensures m[p := a][p := b] == m[p := b]
  {
  }

  /** An inline claim sized by the volume as stored, in closed form. */
  lemma ClaimStored(product: string, e: Entry, dir: Direction, sizing: Sizing, cap: int, v: Venue)
    requires WellFormed(v.depth) && cap > 0 && !sizing.Magnitude? && HasKey(Facing(v.depth, dir), e.key)
    ensures var q := if e.volume > cap then cap else e.volume;
      var s := Facing(v.depth, dir);
      var rest := if e.volume > cap then Put(s, e.key, Get(s, e.key).value + dir.Apply(q)) else Remove(s, e.key);
      Claim(product, e, dir, sizing, cap, v)
      == Success(Claimed([Order(product, e.key, if sizing.Raw? then dir.Apply(Abs(q)) else dir.Apply(q))], cap - q,
                         Venue(WithFacing(v.depth, dir, rest), Commit(v.net, q, dir))))
  {
  }

  class Desk {
    /** `estimated_traded_lob`: product -> simulated depth. */
    var lob: map<string, Depth>
    /** `ordered_position`: product -> provisional net of this tick's orders. */
    var ordered: map<string, int>

    ghost predicate Valid()
      reads this
    {
      forall p :: p in lob ==> WellFormed(lob[p])
    }

    predicate Tracks(product: string)
      reads this
    {
      product in lob && product in ordered
    }

    /** Only the venue of `product` changed since the method started, and it is now `v`. */
    twostate predicate Became(product: string, new v: Venue)
      reads this
    {
      lob == old(lob)[product := v.depth] && ordered == old(ordered)[product := v.net]
    }

    function VenueOf(product: string): (v: Venue)
      reads this
      requires Tracks(product)
      ensures v.depth == lob[product] && v.net == ordered[product]
    {
      Venue(lob[product], ordered[product])
    }

    /** Start of `run`: `ordered_position = {product: 0 for product in products}`
        and `estimated_traded_lob = copy.deepcopy(state.order_depths)`. */
    constructor (depths: map<string, Depth>, products: seq<string>)
      requires forall p :: p in depths ==> WellFormed(depths[p])
      ensures Valid()
      ensures lob == depths
      ensures ordered.Keys == set p | p in products
      ensures forall p :: p in ordered ==> ordered[p] == 0
    {
      lob := depths;
      ordered := map p | p in products :: 0;
    }

    /** Write back the venue of one product; nothing else changes. */
    method Store(product: string, v: Venue)
      requires Valid() && WellFormed(v.depth)
      modifies this
      ensures Valid() && Tracks(product) && VenueOf(product) == v
      ensures lob == old(lob)[product := v.depth] && ordered == old(ordered)[product := v.net]
    {
      lob := lob[product := v.depth];
      ordered := ordered[product := v.net];
    }

    /** `update_estimated_position(ordered_position, product, amount, side)`. */
    method Commit(product: string, amount: int, dir: Direction) returns (r: Result<int>)
      requires Valid()
      modifies this
      ensures Valid() && lob == old(lob)
      ensures product !in old(ordered) ==> r == Failure(KeyError) && ordered == old(ordered)
      ensures product in old(ordered) ==>
        && r == Success(Position.Commit(old(ordered[product]), amount, dir))
        && ordered == old(ordered)[product := r.value]
    {
      if product !in ordered {
        return Failure(KeyError);
      }
      ordered := ordered[product := ordered[product] + dir.Apply(Abs(amount))];
      r := Success(ordered[product]);
    }

    /** `kevin_market_take`: pop the level or move it by the available amount,
        then commit the claimed quantity. With nothing available it returns
        before either dict is read, so even a product without a book or a net
        gets no order and no error; its venue is then reported empty. */
    method MarketTake(product: string, price: int, amount: int, available: int, dir: Direction)
      returns (r: Result<Claimed>)
      requires Valid()
      modifies this
      ensures Valid()
      ensures !old(Tracks(product)) ==>
        r == if available == 0 then Success(Claimed([], 0, Venue(Depth([], []), 0))) else Failure(KeyError)
      ensures old(Tracks(product)) ==> r == Take(product, price, amount, available, dir, old(VenueOf(product)))
      ensures old(Tracks(product)) && r.Success? ==>
        && lob == old(lob)[product := r.value.venue.depth]
        && ordered == old(ordered)[product := r.value.venue.net]
      ensures !old(Tracks(product)) || r.Failure? ==> lob == old(lob) && ordered == old(ordered)
    {
      if available == 0 {
        if !Tracks(product) {
          return Success(Claimed([], 0, Venue(Depth([], []), 0)));
        }
        return Success(Claimed([], available, VenueOf(product)));
      }
      if !Tracks(product) {
        return Failure(KeyError);
      }
      var v := VenueOf(product);
      var a := Abs(amount);
      var d := lob[product];
      var s := Facing(d, dir);
      var cur := Get(s, price);
      if cur.None? {
        return Failure(KeyError);
      }
      var whole := a <= available;
      if a > available {
        a := available;
        s := Put(s, price, cur.value + dir.Apply(a));
      } else {
        s := Remove(s, price);
      }
      assert WithFacing(d, dir, s) == Consume(d, dir, price, whole, a);
      var v' := Venue(WithFacing(d, dir, s), Position.Commit(v.net, a, dir));
      assert Take(product, price, amount, available, dir, v) == Success(Claimed([Order(product, price, dir.Apply(a))], available - a, v'));
      Store(product, v');
      r := Success(Claimed([Order(product, price, dir.Apply(a))], available - a, v'));
    }

    /** One step of an inline claim loop over a snapshot level `e`. */
    method ClaimLevel(product: string, e: Entry, dir: Direction, sizing: Sizing, cap: int, ghost v: Venue)
      returns (r: Result<Claimed>)
      requires Valid() && cap > 0 && Tracks(product) && VenueOf(product) == v
      modifies this
      ensures Valid()
      ensures r == Claim(product, e, dir, sizing, cap, v)
      ensures r.Success? ==>
        && lob == old(lob)[product := r.value.venue.depth]
        && ordered == old(ordered)[product := r.value.venue.net]
    {
      if sizing.Magnitude? {
        r := MarketTake(product, e.key, e.volume, cap, dir);
      } else {
        r := ClaimAsStored(product, e, dir, sizing, cap);
      }
    }

    /** The inline sell claims that size a bid by its volume as stored. */
    method ClaimAsStored(product: string, e: Entry, dir: Direction, sizing: Sizing, cap: int)
      returns (r: Result<Claimed>)
      requires Valid() && cap > 0 && Tracks(product) && !sizing.Magnitude?
      modifies this
      ensures Valid()
      ensures r == Claim(product, e, dir, sizing, cap, old(VenueOf(product)))
      ensures r.Success? ==>
        && lob == old(lob)[product := r.value.venue.depth]
        && ordered == old(ordered)[product := r.value.venue.net]
    {
      var v := VenueOf(product);
      var d := lob[product];
      var s := Facing(d, dir);
      var cur := Get(s, e.key);
      if cur.None? {
        return Failure(KeyError);
      }
      var b := e.volume;
      var whole := b <= cap;
      if b > cap {
        b := cap;
        s := Put(s, e.key, cur.value + dir.Apply(b));
      } else {
        s := Remove(s, e.key);
      }
      var qty := if sizing.Raw? then dir.Apply(Abs(b)) else dir.Apply(b);
      var v' := Venue(WithFacing(d, dir, s), Position.Commit(v.net, b, dir));
      ClaimStored(product, e, dir, sizing, cap, v);
      Store(product, v');
      r := Success(Claimed([Order(product, e.key, qty)], cap - b, v'));
    }

    /** One iteration of the claim loop: `if accept(price) and cap > 0: claim`. */
    method VisitLevel(e: Entry, accept: int -> bool, dir: Direction, product: string, sizing: Sizing,
                      cap: int, ghost v: Venue)
      returns (r: Result<Claimed>)
      requires Valid() && Tracks(product) && VenueOf(product) == v
      modifies this
      ensures Valid()
      ensures r == Visit(e, accept, dir, product, sizing, cap, v)
      ensures r.Success? ==>
        && lob == old(lob)[product := r.value.venue.depth]
        && ordered == old(ordered)[product := r.value.venue.net]
    {
      if accept(e.key) && cap > 0 {
        r := ClaimLevel(product, e, dir, sizing, cap, v);
      } else {
        r := Success(Claimed([], cap, VenueOf(product)));
      }
    }

    /** The claim loop `for price, volume in levels: if accept(price) and cap > 0: claim`. */
    method WalkLevels(levels: Side, accept: int -> bool, dir: Direction, product: string,
                      sizing: Sizing, cap: int)
      returns (r: Result<Claimed>)
      requires Valid() && Tracks(product)
      modifies this
      ensures Valid()
      ensures r == Walk(levels, accept, dir, product, sizing, cap, old(VenueOf(product)))
      ensures r.Success? ==>
        && lob == old(lob)[product := r.value.venue.depth]
        && ordered == old(ordered)[product := r.value.venue.net]
    {
      var orders: seq<Order> := [];
      var left := cap;
      var i := 0;
      ghost var cur := VenueOf(product);
      assert levels[i..] == levels;
      PrependNothing(Walk(levels, accept, dir, product, sizing, left, cur));
      ghost var whole := Walk(levels, accept, dir, product, sizing, cap, cur);
      while i < |levels|
        invariant 0 <= i <= |levels|
        invariant Valid() && Tracks(product) && VenueOf(product) == cur
        invariant whole == Prepend(orders, Walk(levels[i..], accept, dir, product, sizing, left, cur))
        invariant lob == old(lob)[product := cur.depth] && ordered == old(ordered)[product := cur.net]
      {
        WalkVisit(levels, i, accept, dir, product, sizing, left, cur, orders, whole);
        var c := VisitLevel(levels[i], accept, dir, product, sizing, left, cur);
        if c.Failure? {
          return Failure(c.error);
        }
        UpdateTwice(old(ordered), product, cur.net, c.value.venue.net);
        UpdateTwice(old(lob), product, cur.depth, c.value.venue.depth);
        orders := orders + c.value.orders;
        left := c.value.left;
        cur := c.value.venue;
        i := i + 1;
      }
      assert levels[i..] == [] && orders + [] == orders;
      r := Success(Claimed(orders, left, VenueOf(product)));
    }

    /** `estimated_traded_lob[product].<side>_orders[price] = volume`: a resting
        quote written into the quoting side of `dir`. */
    method PostQuote(product: string, dir: Direction, price: int, volume: int) returns (r: Result<()>)
      requires Valid()
      modifies this
      ensures Valid() && ordered == old(ordered)
      ensures product !in old(lob) ==> r == Failure(KeyError) && lob == old(lob)
      ensures product in old(lob) ==>
        && r == Success(())
        && lob == old(lob)[product := WithOwn(old(lob[product]), dir, Put(Own(old(lob[product]), dir), price, volume))]
    {
      if product !in lob {
        return Failure(KeyError);
      }
      var d := lob[product];
      lob := lob[product := WithOwn(d, dir, Put(Own(d, dir), price, volume))];
      r := Success(());
    }
  }
}
