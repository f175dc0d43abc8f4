# Order-book and position bookkeeping of a Prosperity 2024 trading bot

The trader reacts to one market snapshot per tick. For each product it holds
two pieces of tick-local state and threads them through every strategy that
runs in that tick:

- `estimated_traded_lob`: a deep copy of the exchange order depths. Each
  side is a dict from price to signed volume: bids are positive, asks are
  negative, and the dict is in insertion order. Strategies claim volume from
  it and write their own quotes into it.
- `ordered_position`: the provisional net of the orders decided so far this
  tick. It starts at 0 for every product.

`cal_available_position` turns the position limit, the live position and the
provisional net into a buy capacity and a sell capacity.
`update_estimated_position` commits a signed quantity. `kevin_market_take`
claims volume at one price level. The strategies are built from these
primitives:

- the walk-the-book take (three variants);
- the best-level take;
- the position cover;
- the residual market maker (three variants);
- the prediction-driven `kevin_price_hft` and `kevin_direction_hft`;
- basket spread trading (a deviation variant and a direction variant);
- cross-venue exchange arbitrage with conversion reconciliation;
- the neutral-signal delta rehedge.

A bounded history cache carries derived values from one tick to the next.

The model covers four Python files:

- `Round4/round_4_trader_vega2.py`
- `Round4/round_3_trader_local_testing.py`
- `Round1/round_1_trader.py`
- `round_1_trader.py` (the first-round trader at the root)

They are near-duplicates. One set of primitives is modelled, and the
variants are modelled where they differ.

Modules:

- `Common`: the `Result` type and Python's exceptions as values (`KeyError`,
  `IndexError`, `AssertionError`, `TypeError`). Also half-even rounding,
  which is what `round` and `np.round` do.
- `Book`: a book side is a sequence of `Entry(key, volume)` with distinct
  keys, kept in dict order. The module defines `Order`, and `Venue` (one
  product's simulated depth plus its provisional net). It gives the dict
  operations `get`, `pop` and item assignment.
- `Position`: the position limits of each round, `cal_available_position`
  and `update_estimated_position`.
- `Claims`: `kevin_market_take` (`Take`); the inline claims of the round-1
  loops (`Claim`); and the generic claim loop `Walk` over a list of levels,
  with its accounting lemmas.
- `Desks`: the class `Desk`, which holds the two tick-local dicts
  (`lob`, `ordered`). Its methods mutate them in place. Each method is proved
  against the function of the same operation in the other modules.
- `Levels`: the best and worst levels (`.get` defaults in the round-4
  trader, `KeyError` in the others); the first-entry mid price; and
  `stanford_values_extract`.
- `Making`: `kevin_residual_market_maker`.
- `Hft`: `kevin_price_hft` and `kevin_direction_hft`.
- `Taking`: the walk-the-book take, the best-level take and
  `kevin_cover_position`.
- `Spread`: `compute_basket_fair_price_deviation` and both
  `kevin_spread_trading` variants.
- `Exchange`: `kevin_exchange_arb` of the round-3 trader.
- `Rehedge`: the rehedge branches of `tongfei_BS_trade`.
- `History`: `set_up_cached_trader_data` (truncation) and
  `extract_from_cache`.
- `FirstRound`: the root first-round trader. This covers its
  fraction-to-keep take, its first-entry market maker with quotes filed
  under `str(price)` keys (class `Filed`), and the AMETHYSTS branch of `run`.

Every exception the modelled code raises on its inputs is an explicit
`Failure` (`KeyError`, `IndexError`, `AssertionError`, `TypeError`). The
exceptions are the lookups named under Left out: the position-limit table
and a product missing from the tick-local dicts. Floats are exact reals.

What the code does, which the model follows:

- **Errors abort the tick.** The code raises `KeyError`, `IndexError`,
  `AssertionError` and `TypeError` instead of skipping an operation, and
  nothing catches them.
- **Claim order.** The claim loops walk the levels in dict insertion order,
  not best level first.
- **Position limit.** The limit holds per call of `cal_available_position`,
  not after every commit. The exchange arbitrage widens both capacities by
  `|conversions|`, and the first-round market maker forgets the live position
  (see Findings).
- **Quotes in the book.** The residual market makers and the exchange
  arbitrage write their quotes into the simulated book. The quotes of
  `kevin_price_hft` only move the provisional net.
- **Covering.** The cover branch of the round-3 spread trading raises
  `RuntimeError` (see Left out).

## Model

Paths are relative to the repository root.

| member | source | states |
|---|---|---|
| Common.Abs | Round4/round_4_trader_vega2.py:86 | the result is the argument or its negation and is never negative |
| Common.RoundHalfEven | Round4/round_3_trader_local_testing.py:545 | Python's `round` and `np.round`: the result lies within 0.5 of the argument, and an exact tie goes to the even integer |
| Common.RoundHalfEvenOdd | Round4/round_4_trader_vega2.py:765 | rounding commutes with negation |
| Common.RoundHalfEvenNonNegative | round_1_trader.py:112-113 | a non-negative real rounds to a non-negative integer |
| Book.Get | Round4/round_4_trader_vega2.py:97 | `dict.get`: a value exactly when the key is present, and then the value stored under that key |
| Book.Remove | Round4/round_4_trader_vega2.py:156 | `dict.pop`: the side keeps distinct keys and loses exactly one entry when the key was present |
| Book.RemoveLookup | Round4/round_4_trader_vega2.py:168 | after `pop` the key is gone and every other key maps to the same volume |
| Book.Put | Round4/round_4_trader_vega2.py:227 | item assignment: an existing key keeps its position in dict order, and a new key is appended at the end |
| Book.PutLookup | Round4/round_4_trader_vega2.py:233 | after assignment the key maps to the new volume and every other key is unchanged |
| Position.Live | Round4/round_4_trader_vega2.py:134 | the live position, or 0 for a product that is not held |
| Position.Capacity | Round4/round_4_trader_vega2.py:133-143 | spending the whole buy capacity takes live + net exactly to the limit, or below it by the short part of the net; spending the whole sell capacity takes it to -limit, or above it by the long part |
| Position.CapacityKeepsLimit | Round4/round_4_trader_vega2.py:137-142 | either capacity spent in full keeps live + net within ±limit; a net that is not long leaves the buy capacity at limit - live, and one that is not short leaves the sell capacity at limit + live |
| Position.CapacityForgetsOppositeNet | Round4/round_4_trader_vega2.py:140-142 | a short net does not raise the buy capacity; it lowers the sell capacity by exactly its size |
| Position.Commit | Round4/round_4_trader_vega2.py:85-88 | the net moves by the magnitude of the amount, upward for a buy and downward for a sell, whatever the amount's own sign |
| Claims.Consume | Round4/round_4_trader_vega2.py:151-156 | claiming at one level keeps the book well formed and leaves the other side alone |
| Claims.ConsumeLookup | Round4/round_4_trader_vega2.py:163-168 | a whole take deletes the level; a partial take moves its volume by the quantity taken toward zero; every other level is unchanged |
| Claims.Take | Round4/round_4_trader_vega2.py:145-172 | zero capacity is a no-op; otherwise it raises `KeyError` exactly when the price is missing from the simulated side; it never touches the other side |
| Claims.TakeOutcome | Round4/round_4_trader_vega2.py:149-172 | one order of min(abs(amount), available) in the trade's direction; the capacity drops by that amount and the net moves by it; the level is deleted when abs(amount) is at most available (even for amount 0), and otherwise shrinks by exactly `available`; all other levels are unchanged |
| Claims.TakeConserves | Round4/round_4_trader_vega2.py:151-156 | taken plus left equals the level's volume, and a remainder still rests on its side |
| Claims.Claim | Round1/round_1_trader.py:140-152 | the inline claim succeeds exactly when the level is still in the simulated book, and it leaves the other side alone |
| Claims.ClaimOutcome | Round1/round_1_trader.py:137-167 | one order at the level's price for min(wanted, capacity); the capacity and net move by that amount; only a cover claim on a negative stored bid emits an order against its direction |
| Claims.ClaimKeeps | Round1/round_1_trader.py:145-148 | a claim changes no level at any other price |
| Claims.Walk | Round4/round_4_trader_vega2.py:182-202 | the claim loop over a list of levels keeps the book well formed and never touches the other side |
| Claims.WalkUntouched | Round4/round_4_trader_vega2.py:182-202 | a price that is not in the list being walked keeps its level |
| Claims.WalkStep | Round4/round_4_trader_vega2.py:185-192 | one iteration: a level that is rejected, or seen with no capacity left, is skipped; otherwise it is claimed and the loop goes on with the capacity and book that claim left |
| Claims.WalkAdvance | Round4/round_4_trader_vega2.py:185-192 | the same step, stated at index i of a loop that has already emitted `orders` |
| Claims.Visit | Round4/round_4_trader_vega2.py:185-192 | one guarded iteration: a rejected level, or one seen with no capacity left, is skipped, and otherwise the level is claimed; `WalkVisit` ties it to `Walk` |
| Claims.WalkVisit | Round4/round_4_trader_vega2.py:185-192 | the step of the desk loop: the level's visit either fails the whole walk or extends the orders and hands on the new capacity and venue |
| Claims.WalkNet | Round4/round_4_trader_vega2.py:182-203 | the gross quantity claimed never exceeds the capacity, and the net moves by exactly that gross quantity in the walk's direction |
| Claims.WalkAccounting | Round4/round_4_trader_vega2.py:182-203 | with no capacity nothing happens; otherwise the capacity left is between 0 and the start, and the gross claimed is the capacity spent |
| Claims.WalkMoves | Round1/round_1_trader.py:137-152 | the net moves by the signed sum of the orders emitted |
| Claims.WalkOrders | Round4/round_4_trader_vega2.py:185-192 | every order is for the product, at an accepted price, in the walk's direction |
| Claims.WalkFills | Round1/round_1_trader.py:209-219 | the capacity spent is min(capacity, volume offered at accepted levels) |
| Claims.WalkTotal | Round4/round_4_trader_vega2.py:182-203 | walking levels that are all present in the simulated side never raises `KeyError` |
| Claims.WalkOwnBook | Round4/round_4_trader_vega2.py:259-268 | walking the simulated book's own levels never raises `KeyError` |
| Desks.ClaimStored | Round1/round_1_trader.py:142-152 | an inline claim sized by the stored volume pops the level or decrements it by the capacity, emits one order and commits it |
| Desks.Desk.VenueOf | Round4/round_4_trader_vega2.py:153 | the product's simulated depth and provisional net |
| Desks.Desk.constructor | round_1_trader.py:222-223 | a tick starts from a copy of the snapshot with a zero net for every product |
| Desks.Desk.Commit | Round4/round_4_trader_vega2.py:85-88 | `update_estimated_position` in place; a product missing from the dict raises `KeyError` |
| Desks.Desk.MarketTake | Round4/round_4_trader_vega2.py:145-172 | `kevin_market_take` in place: with nothing available it returns no order, even for a product with no book or net; otherwise an untracked product raises `KeyError`, and a tracked one gets `Take` on its state, with only that product's book and net changed on success |
| Desks.Desk.ClaimLevel | Round1/round_1_trader.py:140-152 | one claim in place, equal to `Claim` on the product's venue; only that product changes |
| Desks.Desk.ClaimAsStored | Round1/round_1_trader.py:209-219 | the cover loop's claim in place, equal to `Claim`; only that product changes |
| Desks.Desk.VisitLevel | Round4/round_4_trader_vega2.py:185-192 | one iteration of the claim loop in place, equal to `Visit` |
| Desks.Desk.WalkLevels | Round4/round_4_trader_vega2.py:182-202 | the whole claim loop in place: the result equals `Walk` from the product's starting venue, and only that product's book and net change |
| Desks.Desk.PostQuote | Round4/round_4_trader_vega2.py:227 | `book[price] = volume` on the quoting side; a product with no book raises `KeyError`; the net is unchanged |
| Levels.Extreme | Round4/round_4_trader_vega2.py:93-96 | no value exactly when no level rests on the side; otherwise the highest (or lowest) price among the resting levels |
| Levels.VolumeAt | Round4/round_4_trader_vega2.py:97 | the stored volume; a missing price is 0 with `.get` and a `KeyError` with indexing |
| Levels.BestBidAsk | Round4/round_4_trader_vega2.py:91-97 | the highest resting bid and lowest resting ask (0 for a side where nothing rests), with the volumes the lookup reads there; the lenient lookup always succeeds |
| Levels.WorstBidAsk | Round4/round_4_trader_vega2.py:100-106 | the lowest resting bid and highest resting ask (0 for a side where nothing rests), with the volumes the lookup reads there; the lenient lookup always succeeds |
| Levels.StrictBestFails | Round4/round_3_trader_local_testing.py:85-91 | the strict best lookup raises exactly when a side has no resting level and no level at price 0 |
| Levels.MidPrice | Round4/round_4_trader_vega2.py:42-46 | defined exactly when both sides are non-empty; twice the result is the first bid plus the first ask, in dict order |
| Levels.MidPriceOf | Round4/round_3_trader_local_testing.py:36-40 | `calculate_mid_price(state, product)`: `KeyError` for a product without a book, `IndexError` for an empty side, and otherwise half the first bid plus the first ask |
| Levels.StanfordValuesExtract | Round4/round_3_trader_local_testing.py:43-54 | the loop computes the scan's best price and total |
| Levels.StanfordScan | Round4/round_3_trader_local_testing.py:43-54 | the recursive scan the loop is proved against: its total is the side-adjusted volume total (`StanfordTotal`), an empty side gives (-1, 0) (`StanfordEmpty`), and with positive volumes the best price is the last key (`StanfordPositive`) |
| Levels.StanfordTotal | Round4/round_3_trader_local_testing.py:49-50 | `tot_vol` is the side-adjusted volume total: the bid total, or minus the ask total |
| Levels.StanfordEmpty | Round4/round_3_trader_local_testing.py:44-45 | an empty side yields (-1, 0) |
| Levels.StanfordPositive | Round4/round_3_trader_local_testing.py:50-54 | when every side-adjusted volume is positive, the total is non-negative and at least the running maximum, and the best price is the last key |
| Making.MakerSides | Round4/round_4_trader_vega2.py:212-223 | the `elif` chain decides each side on its own: sell iff the spread is positive, ask - 1 > fair and sell capacity > 0; buy symmetrically |
| Making.Post | Round4/round_4_trader_vega2.py:224-235 | the posting half: the book stays well formed; its orders, net and written levels are given by `PostOrders`, `PostBids` and `PostAsks`, and its prices by `MakerPrices` |
| Making.Quote | Round4/round_4_trader_vega2.py:227-229 | writing a quote into its own side keeps the book well formed and leaves the facing side unchanged |
| Making.Maker | Round4/round_4_trader_vega2.py:205-236 | the lenient reading never fails, and the strict reading fails only with `KeyError`; every buy quote is below the fair price and every sell quote above it |
| Making.PostOrders | Round4/round_4_trader_vega2.py:224-235 | one order per posted side: the buy of the buy capacity at bid + 1 first, the sell of the sell capacity at ask - 1 last; the net rises by the buy posted and falls by the sell posted |
| Making.PostBids | Round4/round_4_trader_vega2.py:227 | the buy quote is written at bid + 1 with the buy capacity, and every other bid is unchanged |
| Making.PostAsks | Round4/round_4_trader_vega2.py:233 | the sell quote is written at ask - 1 with minus the sell capacity, and every other ask is unchanged |
| Making.MakerPrices | Round4/round_4_trader_vega2.py:212-235 | quotes appear only on a positive spread; every buy is priced below fair and every sell above it |
| Making.ResidualMarketMaker | Round4/round_4_trader_vega2.py:205-236 | in place it fails exactly when `Maker` fails; on success it returns `Maker`'s orders and leaves the product at `Maker`'s venue |
| Making.PostSides | Round4/round_4_trader_vega2.py:224-235 | the posting half in place equals `Post` |
| Making.PostOne | Round4/round_4_trader_vega2.py:226-229 | one quote in place: written, then committed |
| Hft.TakeThrough | Round4/round_4_trader_vega2.py:259-278 | the take phase keeps the simulated book well formed |
| Hft.Trade | Round4/round_4_trader_vega2.py:259-305 | the take and provide phases keep the simulated book well formed |
| Hft.PriceHft | Round4/round_4_trader_vega2.py:238-307 | `kevin_price_hft`: capacities from the live position and net, reference levels read before any take, then `Trade`; its accounting is `TradeOutcome` and its in-place version `PriceHftTrade` |
| Hft.Reference | Round4/round_4_trader_vega2.py:252-256 | the reference bid and ask: the Stanford scan's best prices or the lenient best bid and ask; the loop version `ReferenceLevels` is proved equal to it |
| Hft.Provide | Round4/round_4_trader_vega2.py:281-305 | the provide phase; `ProvideQuotes` states its quotes, prices and signed sum |
| Hft.BuyThrough | Round4/round_4_trader_vega2.py:260 | the buy acceptance test: at or below the bid band, or one tick above it when short; `TakeThroughOrders` holds every buy to it |
| Hft.SellThrough | Round4/round_4_trader_vega2.py:270 | the sell acceptance test: at or above the ask band, or one tick below it when long; `TakeThroughOrders` holds every sell to it |
| Hft.TakeThroughTotal | Round4/round_4_trader_vega2.py:259-278 | the take phase never raises: it walks the simulated book's own levels |
| Hft.TakeThroughOrders | Round4/round_4_trader_vega2.py:259-278 | buys only asks at or below predicted - range (or at predicted - range + 1 when short); sells only bids at or above predicted + range (or at predicted + range - 1 when long); each side spends at most its capacity |
| Hft.TakeThroughNet | Round4/round_4_trader_vega2.py:259-278 | the net moves by gross bought minus gross sold |
| Hft.TakeThroughNoNewLevel | Round4/round_4_trader_vega2.py:259-278 | the take phase creates no level at a price that had none |
| Hft.WalkNoNewLevel | Round4/round_4_trader_vega2.py:151-168 | a claim loop only shrinks or deletes levels and never creates one |
| Hft.ProvideQuotes | Round4/round_4_trader_vega2.py:281-305 | at most a sell of the sell capacity left at best ask - 1, when that is at or above the band, and a buy of the buy capacity left at best bid + 1, when that is at or below it; their signed sum says which fired |
| Hft.TradeOutcome | Round4/round_4_trader_vega2.py:245-307 | each quote plus the takes on its side uses exactly that side's capacity; the net moves by the takes plus the quotes; the quotes are not written into the book |
| Hft.PriceHftTrade | Round4/round_4_trader_vega2.py:238-307 | `kevin_price_hft` in place: it fails exactly when `PriceHft` fails; on success it returns the takes then the quotes, and leaves the product at `PriceHft`'s venue |
| Hft.TradeOnDesk | Round4/round_4_trader_vega2.py:259-305 | the take and provide phases in place equal `Trade` |
| Hft.TakeOnDesk | Round4/round_4_trader_vega2.py:259-278 | the two take loops in place equal `TakeThrough` |
| Hft.ProvideOnDesk | Round4/round_4_trader_vega2.py:281-305 | the provide phase in place: it returns `Provide`'s quotes, commits their signed sum to the net and leaves the book alone |
| Hft.ReferenceLevels | Round4/round_4_trader_vega2.py:252-256 | the reference levels are the Stanford scan's best prices, or the lenient best bid and ask |
| Hft.DirectionHft | Round1/round_1_trader.py:238-288 | a direction other than ±1 raises `AssertionError`; otherwise it fails only on the strict best lookup; it emits at most one order, for the whole capacity of the predicted side one tick inside the best level, and nothing exactly when that capacity is not positive; that order never carries live + net past ±limit |
| History.Remember | Round4/round_4_trader_vega2.py:127-131 | at timestamp 0 the cache is just the new entry; otherwise it is the last min(old + 1, N) entries of old followed by new; the newest entry is last |
| History.Extract | Round4/round_4_trader_vega2.py:37-39 | succeeds exactly when every entry has the product and the field; the field's values newest-first |
| History.ExtractRemembered | Round4/round_3_trader_local_testing.py:31-33 | reading back a freshly cached field gives this tick's value first, then the older values in reverse order, at most N of them |
| Spread.Eligible | Round4/round_3_trader_local_testing.py:513-514 | `AssertionError` exactly for products outside the basket family |
| Spread.FairPrice | Round4/round_3_trader_local_testing.py:517-530 | the fair price of one product from the other three mids; `BasketDeviation` states that mid minus it is the product's share of one basket spread |
| Spread.Liquidity | Round4/round_3_trader_local_testing.py:545 | `int(round(sum(side.values()) * liquidity_fraction))`, half-even; `FireOutcome` gives its sign when the side's volumes have theirs |
| Spread.BasketDeviation | Round4/round_3_trader_local_testing.py:512-532 | `AssertionError` outside the family; otherwise defined exactly when all four mid prices are, with `KeyError` for a product the exchange has no book for and `IndexError` for an empty side; the deviation is mid minus fair, and it is the product's share of B - (4C + 6S + R + premium): the whole spread for the basket, minus a quarter, a sixth and all of it for chocolate, strawberries and roses |
| Spread.Fire | Round4/round_3_trader_local_testing.py:542-562 | the order step of the deviation variant; `FireOutcome` states its order, price, bounds and net |
| Spread.FireOutcome | Round4/round_3_trader_local_testing.py:542-562 | at most one order: a sell at the worst bid of at most the sell capacity, or else a buy at the worst ask of at most the buy capacity; the net moves by its size; the sign is right when the book's volumes are |
| Spread.ThresholdSpread | Round4/round_3_trader_local_testing.py:534-562 | fails exactly when the strict worst lookup does; otherwise it sells above the threshold and buys below minus the threshold, on the capacities |
| Spread.ThresholdSpreadOutcome | Round4/round_3_trader_local_testing.py:542-562 | an order exactly when a side fires with capacity; a sell is at the lowest resting bid and a buy at the highest resting ask; the net moves by the size |
| Spread.MatchPosition | Round4/round_4_trader_vega2.py:470-473 | `match_position`: the component's distance from trade_coef times the basket position, or the basket's limit; `MatchedSpreadBounds` caps the size by it |
| Spread.MatchedSpread | Round4/round_4_trader_vega2.py:462-502 | the direction variant of `kevin_spread_trading`; `MatchedSpreadBounds` states its order, price, bounds and net |
| Spread.MatchedSpreadBounds | Round4/round_4_trader_vega2.py:470-499 | an order needs a non-zero action; its size is between 0 and min(capacity, match position); a sell is at the lowest resting bid and a buy at the highest resting ask; the book is only read |
| Taking.TakeBothBounds | Round4/round_3_trader_local_testing.py:176-205 | each side spends at most its capacity, and the net moves by bought minus sold |
| Taking.TakeBoth | Round4/round_3_trader_local_testing.py:184-205 | the buy loop over the snapshot's asks, then the sell loop over its bids, claiming from the simulated book; bounded, priced and proved total by `TakeBothBounds`, `TakeBothPrices` and `TakeBothFresh` |
| Taking.WalkTheBook | Round4/round_3_trader_local_testing.py:176-205 | capacities of `cal_available_position` less `limit_to_keep`, then `TakeBoth`; `TakeBothLimit` keeps the position within limit - keep |
| Taking.TakeBothPrices | Round4/round_3_trader_local_testing.py:184-203 | buys only asks strictly below the acceptable price and sells only bids strictly above it |
| Taking.TakeBothFresh | Round4/round_3_trader_local_testing.py:179 | on a simulated book that is still the snapshot, the take never raises `KeyError` |
| Taking.TakeBothLimit | Round4/round_3_trader_local_testing.py:181-183 | with `limit_to_keep` subtracted, a take never carries the position past limit - keep unless it was already there |
| Taking.InlineSellAgrees | Round1/round_1_trader.py:153-167 | the round-1 inline sell loop and the `kevin_market_take` sell loop produce the same result on bids of non-negative volume |
| Taking.WalkTheBookTake | Round4/round_3_trader_local_testing.py:176-205 | in place it fails exactly when `WalkTheBook` fails; on success it returns the buys then the sells and leaves the product at `WalkTheBook`'s venue |
| Taking.TakeBothOnDesk | Round4/round_3_trader_local_testing.py:184-205 | the two loops in place equal `TakeBoth`, including the error |
| Taking.BboSide | Round1/round_1_trader.py:89-126 | the best-level take keeps the book well formed and never touches the other side |
| Taking.Bbo | Round1/round_1_trader.py:81-127 | the best-level take: one `BboSide` on the first ask and one on the first bid of the snapshot; `BboSideBounds` states each side |
| Taking.BboSideBounds | Round1/round_1_trader.py:89-126 | a rejected level does nothing; an unclamped take pops the level and emits its whole volume; a take clamped to the headroom leaves the level untouched and emits the headroom, or nothing when that is 0; the net moves by the order |
| Taking.BboSideTake | Round1/round_1_trader.py:89-106 | one side of the best-level take in place equals `BboSide` |
| Taking.BboTake | Round1/round_1_trader.py:81-127 | the best-level take in place equals `Bbo` |
| Taking.CoverLong | Round1/round_1_trader.py:207-219 | a long position only sells, for min(position, total bid volume) in all, and the net drops by that |
| Taking.CoverShort | Round1/round_1_trader.py:220-234 | a short position only buys, for min(-position, total ask magnitude) in all, and the net rises by that |
| Taking.Cover | Round1/round_1_trader.py:203-236 | `kevin_cover_position`: with the live position as the capacity, sell into the snapshot's bids when long and buy its asks when short; `CoverLong` and `CoverShort` state how much |
| Taking.CoverSide | Round1/round_1_trader.py:209-234 | one cover loop spends min(capacity, volume offered), in its direction |
| Taking.OfferedEverything | Round1/round_1_trader.py:209-234 | the volume the cover loop sees is the side's total (the magnitude for asks) |
| Taking.CoverPosition | Round1/round_1_trader.py:203-236 | `kevin_cover_position` in place equals `Cover` |
| Rehedge.HedgeSize | Round4/round_4_trader_vega2.py:765 | the size is non-negative, within 0.5 of abs(change in delta) × abs(held), and 0 when delta is unchanged or nothing is held |
| Rehedge.Rehedge | Round4/round_4_trader_vega2.py:764-784 | the rehedge once the size inputs, capacities and best levels are known; `RehedgeOutcome` states every branch |
| Rehedge.NeutralHedge | Round4/round_4_trader_vega2.py:764-784 | capacities from the live position and net, the lenient best levels, then `Rehedge`; `NeutralHedgePrices` states its prices and bounds |
| Rehedge.RehedgeOutcome | Round4/round_4_trader_vega2.py:764-784 | nothing when delta is unchanged or that side has no capacity; after a fall it buys min(size, capacity) at the best ask, and after a rise it sells at the best bid; `KeyError` exactly when that level is missing; the other side is untouched |
| Rehedge.NeutralHedgePrices | Round4/round_4_trader_vega2.py:764-784 | at most one order, at the lowest resting ask or the highest resting bid, within capacity and in the right direction |
| Rehedge.NeutralHedgeOnDesk | Round4/round_4_trader_vega2.py:764-784 | the rehedge in place equals `NeutralHedge` on the underlying |
| Exchange.ReconcileFills | Round4/round_3_trader_local_testing.py:427-436 | the reconciliation loop computes `Reconcile` |
| Exchange.Settle | Round4/round_3_trader_local_testing.py:430-436 | one fill: a fill at the provision price that differs from abs(conversions) moves the conversions back by its quantity, up for a sell provision and down for a buy |
| Exchange.Reconcile | Round4/round_3_trader_local_testing.py:427-436 | the fold of `Settle` over the own trades; `ReconcileUnmatched` and `ReconcileDirection` bound it |
| Exchange.Matched | Round4/round_3_trader_local_testing.py:430 | the quantity filled at one price, the bound `ReconcileDirection` uses |
| Exchange.ReconcileUnmatched | Round4/round_3_trader_local_testing.py:428-430 | fills at other prices leave the carried conversions unchanged |
| Exchange.ReconcileDirection | Round4/round_3_trader_local_testing.py:430-436 | a filled sell provision only raises the conversions and a filled buy provision only lowers them, by at most the quantity filled at its price |
| Exchange.Carry | Round4/round_3_trader_local_testing.py:415-436 | 0 on the first tick for a product not held; otherwise `IndexError`, `KeyError` or `TypeError` exactly as the cache is short, lacks the product or holds a placeholder; otherwise the reconciled slot [1] |
| Exchange.ExchangeArb | Round4/round_3_trader_local_testing.py:413-510 | a carry failure is the call's failure, and the conversions returned are the carried ones; a call returns only when the newest cache entry holds the product, and an arbitrage that reaches the closing writes fails there with `IndexError` on an empty cache and `KeyError` when that entry lacks the product |
| Exchange.FirstTickWithoutSlot | Round4/round_3_trader_local_testing.py:507-508 | at the first tick with the product not held, a cache whose one entry lacks the product makes an otherwise successful call raise `KeyError` |
| Exchange.SweepOutcome | Round4/round_3_trader_local_testing.py:450-477 | buys only below the foreign fair bid and sells only above the foreign fair ask, within capacity; the net moves by the gross quantities plus one unit per take |
| Exchange.SweepSellsOutcome | Round4/round_3_trader_local_testing.py:465-477 | the sell loop keeps the buys, sells only above the fair ask within capacity, and lowers the bumped net by the gross sold plus one unit per sale |
| Exchange.MagnitudeWalk | Round4/round_3_trader_local_testing.py:450-462 | one pure-arb loop: every take is accepted, the capacity spent is the gross quantity and never more than the capacity, and the net moves by that quantity |
| Exchange.Sweep | Round4/round_3_trader_local_testing.py:450-477 | the two pure-arb loops; `SweepOutcome` states their prices, bounds and bumped net |
| Exchange.SweepSells | Round4/round_3_trader_local_testing.py:465-477 | the sell loop after the buys; `SweepSellsOutcome` states it |
| Exchange.ProvideOutcome | Round4/round_3_trader_local_testing.py:479-505 | at most one provision, posted exactly when one qualifies, the buy first; it is within 0.5 of the fair level, carries the whole capacity left, is cached as posted, rests in the book and moves the net |
| Exchange.ProvideAmount | Round4/round_3_trader_local_testing.py:490-505 | a provision records the whole capacity left on its side |
| Exchange.Provide | Round4/round_3_trader_local_testing.py:479-505 | the provision; `ProvideOutcome` states when it is posted, at what price, for how much, and where it rests |
| Exchange.Widened | Round4/round_3_trader_local_testing.py:444-447 | the capacities of `cal_available_position` capped at `max_limit` and widened by abs(conversions); `ArbAccounting` shows takes plus provision use exactly them |
| Exchange.ArbWith | Round4/round_3_trader_local_testing.py:448-510 | the sweep, then the strict best levels of the simulated book (`KeyError` when a side has nothing resting), then the provision and `Finish`; `ArbAccounting` states its accounting |
| Exchange.Finish | Round4/round_3_trader_local_testing.py:507-510 | the result of one call: the conversions carried, all orders, slot [0] the price of the last take (0 without one) and slot [1] minus the signed sum of the takes, which `ArbAccounting` shows is sold minus bought |
| Exchange.Arb | Round4/round_3_trader_local_testing.py:444-510 | `Widened`, then `ArbWith`; the in-place version is `ArbOnDesk` |
| Exchange.ArbAccounting | Round4/round_3_trader_local_testing.py:444-510 | the cached conversions undo the takes (sold minus bought); takes plus a provision use exactly one side's capacity; takes alone never exceed it |
| Exchange.ExchangeArbOnDesk | Round4/round_3_trader_local_testing.py:413-510 | `kevin_exchange_arb` in place equals `ExchangeArb`, and on success leaves the product at its venue |
| Exchange.ArbOnDesk | Round4/round_3_trader_local_testing.py:444-510 | the arbitrage in place, once the conversions are known, equals `Arb` |
| Exchange.ArbWithOnDesk | Round4/round_3_trader_local_testing.py:448-510 | the arbitrage in place, once the capacities are fixed, equals `ArbWith` |
| Exchange.SweepOnDesk | Round4/round_3_trader_local_testing.py:450-477 | both pure-arb loops in place equal `Sweep`; only the product changes |
| Exchange.SweepSellsOnDesk | Round4/round_3_trader_local_testing.py:465-477 | the sell loop in place equals `SweepSells` |
| Exchange.WalkAndBump | Round4/round_3_trader_local_testing.py:450-462 | one loop of takes in place equals `Walk`, with the one-unit bump per take added to the net |
| Exchange.ProvideOnDesk | Round4/round_3_trader_local_testing.py:479-505 | the provision in place equals `Provide` |
| FirstRound.TakeCapsReserve | round_1_trader.py:111-113 | with a flat net and the position within the limit, the take's capacities are non-negative, within the headroom, and leave 15% of it unused, up to rounding |
| FirstRound.TakeCaps | round_1_trader.py:111-119 | round((limit ∓ live) · 0.85), replaced by limit ∓ net when the net is open; `TakeCapsReserve` bounds it on a flat net |
| FirstRound.WalkTheBookOutcome | round_1_trader.py:106-150 | buys only below fair and sells only above it, within the capacities; the net moves by bought minus sold; on a fresh book the take never fails |
| FirstRound.WalkTheBook | round_1_trader.py:106-150 | `TakeCaps`, then the Raw-sized buy and sell loops; `WalkTheBookOutcome` states its prices, bounds, net and totality |
| FirstRound.MakerCapsAgree | round_1_trader.py:155-163 | the written capacities equal `cal_available_position` exactly when the net is flat; an open net makes that side's capacity forget the live position |
| FirstRound.MakerCaps | round_1_trader.py:155-165 | the market maker's capacities as written or as intended; `MakerCapsAgree` relates the two readings |
| FirstRound.FirstEntry | round_1_trader.py:166-167 | `list(items())[0]`: the first integer-keyed level, else the first string-keyed quote, else `IndexError` |
| FirstRound.MakerSides | round_1_trader.py:169-191 | as written, each side is decided on the volumes compared with fair; as intended, on the prices |
| FirstRound.Maker | round_1_trader.py:152-204 | the first-entry market maker; `MakerFails`, `MakerQuotes`, `MakerNet`, `MakerPosts` and `IntendedKeepsLimit` state it |
| FirstRound.MakerFails | round_1_trader.py:166-167 | the market maker fails only with `IndexError`, exactly when a dict it reads is empty |
| FirstRound.MakerQuotes | round_1_trader.py:192-203 | whenever both first entries exist the maker succeeds with one order per posted side: the buy of the buy capacity at first bid + 1 first, the sell of the sell capacity at first ask - 1 last |
| FirstRound.MakerNet | round_1_trader.py:155-203 | whenever both first entries exist, the net moves by the buy capacity posted minus the sell capacity posted |
| FirstRound.MakerPosts | round_1_trader.py:192-203 | whenever both first entries exist, the maker is the shared posting step run on the string-keyed quotes, with the integer-keyed book only read |
| FirstRound.MakerFilesBid | round_1_trader.py:195 | the buy quote is filed at its price among the string-keyed bids, and the others are kept |
| FirstRound.MakerFilesAsk | round_1_trader.py:201 | the sell quote is filed at its price among the string-keyed asks, and the others are kept |
| FirstRound.SellNeverQuoted | round_1_trader.py:173-188 | as written, with a non-negative fair price and asks stored negative, the market maker never sells |
| FirstRound.IntendedKeepsLimit | round_1_trader.py:155-163 | as intended, every buy is below fair and keeps live + net within the limit, and every sell is above fair and keeps it within -limit |
| FirstRound.AmethystsFresh | round_1_trader.py:222-240 | at the start of a tick the take succeeds, and the branch fails only with `IndexError`, exactly when the take emptied a side |
| FirstRound.Amethysts | round_1_trader.py:229-240 | the AMETHYSTS branch: take, then market maker; `AmethystsOf`, `AmethystsFresh` and `AmethystsPrices` state it |
| FirstRound.AmethystsPrices | round_1_trader.py:229-240 | the take's orders come first and keep to fair; with the intended maker every order does |
| FirstRound.AmethystsOf | round_1_trader.py:234-240 | the branch is its take followed by its market maker on the same book and net |
| FirstRound.OverLimitTake | round_1_trader.py:111-135 | long 15 with a 3-lot ask at 9998: the capacity is round(5 × 0.85) = 4, so the take buys 3 |
| FirstRound.OverLimitWritten | round_1_trader.py:155-197 | then the written market maker bids for 17 at 9991, taking the position to 35 against a limit of 20 |
| FirstRound.OverLimitIntended | round_1_trader.py:155-197 | on the same book the intended market maker bids for only 2, reaching exactly 20, and offers 35 at 10004 |
| FirstRound.AboveFairTake | round_1_trader.py:136-149 | flat with a 30-lot bid at 10002: the take sells 17 into it |
| FirstRound.AboveFairMaker | round_1_trader.py:169-197 | then the written market maker bids 20 at 10003, above the price it just sold at; the intended one offers 3 at 10009 |
| FirstRound.StarfruitMid | round_1_trader.py:25-27 | `KeyError` without STARFRUIT; otherwise the first-entry mid price |
| FirstRound.Filed.Of | round_1_trader.py:195 | a product's string-keyed quotes, none before its first |
| FirstRound.Filed.constructor | round_1_trader.py:223 | a tick starts with no string-keyed quote |
| FirstRound.Filed.File | round_1_trader.py:201 | `book[str(price)] = volume` on the quoting side, for that product only |
| FirstRound.WalkTheBookOnDesk | round_1_trader.py:106-150 | the take in place equals `WalkTheBook`, including the error |
| FirstRound.MakerOnDesk | round_1_trader.py:152-204 | the market maker in place equals `Maker`; the integer-keyed book is only read; on failure nothing changes |
| FirstRound.PostFiled | round_1_trader.py:192-203 | the posting half in place equals `Making.Post` on the string-keyed quotes |
| FirstRound.QuoteSide | round_1_trader.py:192-197 | one quote in place: filed, then committed, or nothing |
| FirstRound.AmethystsOnDesk | round_1_trader.py:229-240 | the AMETHYSTS branch in place equals `Amethysts` |
| FirstRound.RunOutcome | round_1_trader.py:218-259 | `run` fails only with `IndexError` or `KeyError`; its orders are for AMETHYSTS alone, present exactly when AMETHYSTS is in the snapshot; the cache holds 1 to 101 entries, this tick's mid last |
| FirstRound.Run | round_1_trader.py:218-259 | `run` over a snapshot; `RunOutcome` states its errors, orders and cache |
| FirstRound.RunTick | round_1_trader.py:218-259 | the loop over the snapshot's products, on a fresh desk, equals `Run` |

## Left out

- Options pricing is not modelled: Black-Scholes, the greeks, the Newton
  implied-volatility solver, the OLS forecast and the option trade of
  `tongfei_BS_trade`. These are floating-point transcendental code. The two
  deltas and the option position are inputs of `Rehedge`.
- The fitted predictors are not modelled: `shaoqin_*_pred`,
  `kevin_r1_starfruit_pred`, `calculate_imbalance`, `get_conversion_obs` and
  `overhead_calculation`. The predicted price, the predicted direction, the
  deviation and the foreign fair bid and ask are inputs.
- jsonpickle encoding, `decode_trader_data`, `print` and the logger are I/O
  and are not modelled. The cache is a plain sequence.
- The `datamodel` classes are plain records. Order quantities and book
  volumes are integers.
- Floats are exact reals, so `round` and `np.round` round half to even
  exactly.
- `run` is modelled only for the root first-round trader. In the other
  traders `run` wires float predictors into the strategies.
- The round-4 copy of `kevin_exchange_arb` is not modelled; the round-3 one
  is.
- The cover branch of the round-3 `kevin_spread_trading` (cover_position) is
  not modelled. It pops from the dict it iterates over, which raises
  `RuntimeError` in Python, and it passes a negative buy capacity.
- Position.Capacity: takes the position limit as a parameter. The source
  reads it from the trader's `POSITION_LIMIT` table, which raises `KeyError`
  for a product missing from the table; that error is not modelled. The
  tables are the constants `Position.Round4Limits`, `Position.Round3Limits`
  and `Position.Round1Limits`.
- Spread.ThresholdSpread: the spread strategies are modelled on values.
  They read the simulated book and return their order and the new net.
- Spread.MatchedSpreadBounds: it needs bid totals ≥ 0, ask totals ≤ 0 and a
  non-negative fraction before it bounds the size. With other volumes the
  `min` can pass a wrongly signed size.
- FirstRound.TakeCaps: fixes `fraction_to_keep` at 0.15, its default and the
  only value `run` passes.
- FirstRound.MakerQuotes: does not restate that a posted side's capacity is
  positive. `FirstRound.MakerSides` states it.
- Hft.PriceHftTrade: the non-Stanford reference levels use the round-4
  `.get` defaults. The round-3 copy of `kevin_price_hft` would read them
  with its `KeyError` lookup, but its only call is commented out.
- Exchange.WalkAndBump: the one-unit bump after each pure-arb take is
  committed once after the loop rather than once per take. The bump does
  not affect any capacity or claim inside the loop.
- Taking.WalkTheBookTake: none of the desk methods that return a `Result`
  specifies the desk state after a failure. In Python the exception
  abandons the whole tick, so that state is never used.
- Desks.Desk.WalkLevels: every desk method except `Desks.Desk.Commit` and
  `Desks.Desk.MarketTake` requires that the product be tracked. `run` builds the simulated book and the net from the same
  products, so a `KeyError` from a missing product is not modelled there.
- The best-level take of the root first-round trader is the same as the
  round-1 one, `Taking.BboTake`. `run` does not call it.

## Findings

| source | as written | input that shows it | evidently intended | confidence | as-written member | corrected member |
|---|---|---|---|---|---|---|
| round_1_trader.py:155-165 | with a non-zero provisional net, the market maker's capacity on that side is `limit - ordered` (or `limit + ordered`); the live position is dropped | AMETHYSTS, live 15, bids {9990: 5}, asks {9998: -3, 10005: -4}: the take buys 3, then the maker bids for 17 at 9991, so the position would reach 35 against a limit of 20 | the capacities of `cal_available_position`, net of both the live position and the provisional net, as in the other traders | not executed | FirstRound.OverLimitWritten | FirstRound.IntendedKeepsLimit |
| round_1_trader.py:173-189 | the market maker compares the volumes `ask_amount - 1` and `bid_amount + 1` with the fair price, not the prices | flat, bids {10002: 30, 9995: 5}, asks {10010: -5}: the take sells 17 at 10002, then the maker bids 20 at 10003, above the price it just sold at | compare `best_ask - 1` and `best_bid + 1` with the fair price, as the other traders do | not executed | FirstRound.AboveFairMaker | FirstRound.AmethystsPrices |

Both readings of the root market maker are kept. The parameter
`FirstRound.Reading` chooses one, from `FirstRound.Maker` up to
`FirstRound.RunTick`. The lemmas about the intended reading
(`FirstRound.IntendedKeepsLimit`, `FirstRound.AmethystsPrices`,
`FirstRound.OverLimitIntended`) state the promised behaviour.
