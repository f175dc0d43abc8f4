/** Read-only queries on an order depth with integer prices: best and worst
    levels, the first-entry mid price, and the volume scan `stanford_values_extract`. */
module Levels {
  import opened Common
  import opened Book

  /** `(best_bid, best_bid_amount, best_ask, best_ask_amount)` and the worst-level
      analogue. */
  datatype Quote = Quote(bid: int, bidVolume: int, ask: int, askVolume: int)

  /** How the volume at the chosen price is read: `.get(price, 0)` (round-4
      trader) or `[price]`, which raises `KeyError` (round-1 and round-3 traders). */
  datatype Lookup = Lenient | Strict

  /** A level rests on the quoting side of `dir`: a bid with positive volume or an
      ask with negative volume. */
  predicate Rests(e: Entry, dir: Direction) {
    dir.Apply(e.volume) > 0
  }

  /** The highest (or lowest) price among the resting levels of a side,
      `max(lob)` / `min(lob)` over the filtered key list; `None` when the list is empty. */
  function Extreme(s: Side, dir: Direction, highest: bool): (r: Option<int>)
    ensures r.None? <==> forall i :: 0 <= i < |s| ==> !Rests(s[i], dir)
    ensures r.Some? ==> exists i :: 0 <= i < |s| && s[i].key == r.value && Rests(s[i], dir)
    ensures r.Some? ==> forall i :: 0 <= i < |s| && Rests(s[i], dir) ==>
      if highest then s[i].key <= r.value else s[i].key >= r.value
    decreases |s|
  {
    if s == [] then None
    else
      var rest := Extreme(s[1..], dir, highest);
      assert forall i :: 1 <= i < |s| ==> s[i] == s[1..][i - 1];
      if !Rests(s[0], dir) then rest
      else if rest.None? then Some(s[0].key)
      else if highest then Some(Max(s[0].key, rest.value))
      else Some(Min(s[0].key, rest.value))
  }

  /** The volume stored at a chosen price. */
  function VolumeAt(s: Side, price: int, lookup: Lookup): (r: Result<int>)
    ensures r.Failure? <==> lookup.Strict? && !HasKey(s, price)
    ensures r.Success? && HasKey(s, price) ==> Get(s, price) == Some(r.value)
    ensures r.Success? && !HasKey(s, price) ==> r.value == 0
  {
    var g := Get(s, price);
    if g.Some? then Success(g.value)
    else if lookup.Lenient? then Success(0)
    else Failure(KeyError)
  }

  /** Assemble a quote from the chosen prices, 0 standing in for an empty side. */
  function QuoteAt(d: Depth, bid: Option<int>, ask: Option<int>, lookup: Lookup): Result<Quote> {
    var b := if bid.Some? then bid.value else 0;
    var a := if ask.Some? then ask.value else 0;
    var bv :- VolumeAt(d.buys, b, lookup);
    var av :- VolumeAt(d.sells, a, lookup);
    Success(Quote(b, bv, a, av))
  }

  /** `get_best_bid_ask`: the highest bid with positive volume and the lowest
      ask with negative volume, each 0 when its side has none. */
  function BestBidAsk(d: Depth, lookup: Lookup): (r: Result<Quote>)
    ensures lookup.Lenient? ==> r.Success?
    ensures r.Success? ==> HighestResting(d.buys, Buy, r.value.bid) && LowestResting(d.sells, Sell, r.value.ask)
    ensures r.Success? ==> VolumeAt(d.buys, r.value.bid, lookup) == Success(r.value.bidVolume)
    ensures r.Success? ==> VolumeAt(d.sells, r.value.ask, lookup) == Success(r.value.askVolume)
  {
    QuoteAt(d, Extreme(d.buys, Buy, true), Extreme(d.sells, Sell, false), lookup)
  }

  /** `get_worst_bid_ask`: the lowest resting bid and the highest resting ask. */
  function WorstBidAsk(d: Depth, lookup: Lookup): (r: Result<Quote>)
    ensures lookup.Lenient? ==> r.Success?
    ensures r.Success? ==> LowestResting(d.buys, Buy, r.value.bid) && HighestResting(d.sells, Sell, r.value.ask)
    ensures r.Success? ==> VolumeAt(d.buys, r.value.bid, lookup) == Success(r.value.bidVolume)
    ensures r.Success? ==> VolumeAt(d.sells, r.value.ask, lookup) == Success(r.value.askVolume)
  {
    QuoteAt(d, Extreme(d.buys, Buy, false), Extreme(d.sells, Sell, true), lookup)
  }

  /** `p` is the highest price resting on `s`, or 0 when nothing rests there. */
  predicate HighestResting(s: Side, dir: Direction, p: int) {
    if forall i :: 0 <= i < |s| ==> !Rests(s[i], dir) then p == 0
    else
      && (exists i :: 0 <= i < |s| && s[i].key == p && Rests(s[i], dir))
      && (forall i :: 0 <= i < |s| && Rests(s[i], dir) ==> s[i].key <= p)
  }

  /** `p` is the lowest price resting on `s`, or 0 when nothing rests there. */
  predicate LowestResting(s: Side, dir: Direction, p: int) {
    if forall i :: 0 <= i < |s| ==> !Rests(s[i], dir) then p == 0
    else
      && (exists i :: 0 <= i < |s| && s[i].key == p && Rests(s[i], dir))
      && (forall i :: 0 <= i < |s| && Rests(s[i], dir) ==> s[i].key >= p)
  }

  /** The strict lookup fails exactly when a side has no resting level and no
      entry at price 0 either. */
  lemma StrictBestFails(d: Depth)
    ensures BestBidAsk(d, Strict).Failure? <==>
      || ((forall i :: 0 <= i < |d.buys| ==> !Rests(d.buys[i], Buy)) && !HasKey(d.buys, 0))
      || ((forall i :: 0 <= i < |d.sells| ==> !Rests(d.sells[i], Sell)) && !HasKey(d.sells, 0))
  {
    var b, a := Extreme(d.buys, Buy, true), Extreme(d.sells, Sell, false);
    if b.Some? {
      var i :| 0 <= i < |d.buys| && d.buys[i].key == b.value && Rests(d.buys[i], Buy);
      assert HasKey(d.buys, b.value);
    }
    if a.Some? {
      var i :| 0 <= i < |d.sells| && d.sells[i].key == a.value && Rests(d.sells[i], Sell);
      assert HasKey(d.sells, a.value);
    }
  }

  /** `calculate_mid_price`: the average of the first bid and the first ask in
      dict order (not the best ones); an empty side raises `IndexError`. */
  function MidPrice(d: Depth): (r: Result<real>)
    ensures r.Success? <==> d.buys != [] && d.sells != []
    ensures r.Success? ==> 2.0 * r.value == (d.buys[0].key + d.sells[0].key) as real
    ensures r.Failure? ==> r.error == IndexError
  {
    if d.buys == [] || d.sells == [] then Failure(IndexError)
    else Success((d.buys[0].key + d.sells[0].key) as real / 2.0)
  }

  /** `calculate_mid_price(state, product)` on the exchange's depths: a product
      without a book raises `KeyError` before either side is read. */
  function MidPriceOf(depths: map<string, Depth>, product: string): (r: Result<real>)
    ensures r.Success? <==> product in depths && depths[product].buys != [] && depths[product].sells != []
    ensures r.Failure? ==> r.error == if product in depths then IndexError else KeyError
    ensures r.Success? ==>
      2.0 * r.value == (depths[product].buys[0].key + depths[product].sells[0].key) as real
  {
    if product !in depths then Failure(KeyError) else MidPrice(depths[product])
  }

  /** Running state of `stanford_values_extract`: `tot_vol`, `best_val`, `mxvol`. */
  datatype Scan = Scan(tot: int, best: int, mx: int)

  /** A level's volume as the scan reads it: sells are negated (`side == -1`). */
  function Adjusted(e: Entry, dir: Direction): int {
    if dir.Sell? then -e.volume else e.volume
  }

  /** `stanford_values_extract` as a left fold over the levels in dict order: the
      running total grows by each adjusted volume, and whenever it exceeds the
      recorded `mxvol` the current price becomes `best_val` and `mxvol` becomes
      the current level's volume (not the total). */
  function StanfordScan(s: Side, dir: Direction): Scan
    decreases |s|
  {
    if s == [] then Scan(0, -1, -1)
    else
      var p := StanfordScan(s[..|s| - 1], dir);
      var vol := Adjusted(s[|s| - 1], dir);
      var tot := p.tot + vol;
      if tot > p.mx then Scan(tot, s[|s| - 1].key, vol) else Scan(tot, p.best, p.mx)
  }

  /** The loop of `stanford_values_extract`, returning `(best_val, tot_vol)`. */
  method StanfordValuesExtract(s: Side, dir: Direction) returns (best: int, tot: int)
    ensures best == StanfordScan(s, dir).best && tot == StanfordScan(s, dir).tot
  {
    tot, best := 0, -1;
    var mx := -1;
    for i := 0 to |s|
      invariant StanfordScan(s[..i], dir) == Scan(tot, best, mx)
    {
      assert s[..i + 1][..i] == s[..i];
      var vol := s[i].volume;
      if dir.Sell? {
        vol := -vol;
      }
      tot := tot + vol;
      if tot > mx {
        mx := vol;
        best := s[i].key;
      }
    }
    assert s[..|s|] == s;
  }

  /** Sum of the adjusted volumes. */
  function AdjustedTotal(s: Side, dir: Direction): int
    decreases |s|
  {
    if s == [] then 0 else AdjustedTotal(s[..|s| - 1], dir) + Adjusted(s[|s| - 1], dir)
  }

  /** `tot_vol` is the total side-adjusted volume of the side: the bids' total,
      or the negated asks' total. */
  lemma {:induction false} StanfordTotal(s: Side, dir: Direction)
    ensures StanfordScan(s, dir).tot == AdjustedTotal(s, dir)
    ensures StanfordScan(s, dir).tot == if dir.Sell? then -Total(s) else Total(s)
    decreases |s|
  {
    if s != [] {
      StanfordTotal(s[..|s| - 1], dir);
      TotalSnoc(s[..|s| - 1], s[|s| - 1]);
      assert s[..|s| - 1] + [s[|s| - 1]] == s;
    }
  }

  lemma {:induction false} TotalSnoc(s: Side, e: Entry)
    ensures Total(s + [e]) == Total(s) + e.volume
    decreases |s|
  {
    if s == [] {
      assert [] + [e] == [e];
    } else {
      assert (s + [e])[1..] == s[1..] + [e];
      TotalSnoc(s[1..], e);
    }
  }

  /** An empty side scans to `(-1, 0)`. */
  lemma StanfordEmpty(dir: Direction)
    ensures StanfordScan([], dir).best == -1 && StanfordScan([], dir).tot == 0
  {
  }

  /** When every adjusted volume is positive the running total always beats the
      recorded volume, so the scan returns the last price in dict order rather
      than the price of the largest level. */
  lemma {:induction false} StanfordPositive(s: Side, dir: Direction)
    requires forall i :: 0 <= i < |s| ==> Adjusted(s[i], dir) > 0
    ensures 0 <= StanfordScan(s, dir).tot && StanfordScan(s, dir).mx <= StanfordScan(s, dir).tot
    ensures s != [] ==> StanfordScan(s, dir).best == s[|s| - 1].key
    decreases |s|
  {
    if s != [] {
      var init := s[..|s| - 1];
      assert forall i :: 0 <= i < |init| ==> init[i] == s[i];
      StanfordPositive(init, dir);
    }
  }
}
