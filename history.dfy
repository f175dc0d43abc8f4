/** The bounded history carried from tick to tick in `traderData`:
    `set_up_cached_trader_data` appends this tick's entry and keeps the newest
    `NUM_OF_DATA_POINT` entries, and `extract_from_cache` reads one field of
    one product from every entry, newest first. */
module History {
  import opened Common

  /** `NUM_OF_DATA_POINT` of the round-4 trader. */
  const Round4Points: nat := 10
  /** `NUM_OF_DATA_POINT` of the round-3 trader. */
  const Round3Points: nat := 4
  /** The `[-101:]` slice of the round-1 traders. */
  const Round1Points: nat := 101

  /** `set_up_cached_trader_data`: at timestamp 0 the history is just this
      tick's entry; otherwise it is `(old + [current])[-n:]`, the newest `n`
      entries with the current one last. */
  function Remember<T>(past: seq<T>, current: T, timestamp: int, n: nat): (r: seq<T>)
    requires n > 0
    ensures timestamp == 0 ==> r == [current]
    ensures timestamp != 0 ==>
      && |r| == Min(|past| + 1, n)
      && r == (past + [current])[|past| + 1 - |r|..]
    ensures r != [] && r[|r| - 1] == current
  {
    if timestamp == 0 then [current]
    else
      var all := past + [current];
      if |all| <= n then all else all[|all| - n..]
  }

  /** A cache entry: product -> the list of values cached for it this tick. */
  type Entry<X> = map<string, seq<X>>

  /** `extract_from_cache(cache, product, position)`: the value at `position`
      of `product` in every entry, newest first. An entry without the product
      raises `KeyError` and one whose list is too short `IndexError`; the
      entries are read oldest first, so the oldest bad entry decides. */
  function Extract<X>(cache: seq<Entry<X>>, product: string, position: nat): (r: Result<seq<X>>)
    ensures r.Success? <==> forall i :: 0 <= i < |cache| ==> product in cache[i] && position < |cache[i][product]|
    ensures r.Success? ==>
      && |r.value| == |cache|
      && forall i :: 0 <= i < |cache| ==> r.value[i] == cache[|cache| - 1 - i][product][position]
    decreases |cache|
  {
    if cache == [] then Success([])
    else if product !in cache[0] then Failure(KeyError)
    else if position >= |cache[0][product]| then Failure(IndexError)
    else
      var rest :- Extract(cache[1..], product, position);
      Success(rest + [cache[0][product][position]])
  }

  /** Reading a history just remembered returns this tick's value first, then
      the values of the entries kept from before, newest first: entry `j` of
      the old history, when kept, is read at position `|past| - j`. */
  lemma ExtractRemembered<X>(past: seq<Entry<X>>, current: Entry<X>, timestamp: int, n: nat,
                             product: string, position: nat)
    requires n > 0
    requires product in current && position < |current[product]|
    ensures var r := Extract(Remember(past, current, timestamp, n), product, position);
      r.Success? ==> r.value[0] == current[product][position] && |r.value| <= n
    ensures var r := Extract(Remember(past, current, timestamp, n), product, position);
      r.Success? ==> forall j :: 0 <= j < |past| && |past| - j < |r.value| ==>
        && product in past[j] && position < |past[j][product]|
        && r.value[|past| - j] == past[j][product][position]
  {
    var kept := Remember(past, current, timestamp, n);
    var r := Extract(kept, product, position);
    if r.Success? && timestamp == 0 {
      assert |r.value| == |kept| == 1;
    } else if r.Success? {
      assert r.value[0] == kept[|kept| - 1][product][position];
      forall j | 0 <= j < |past| && |past| - j < |r.value|
        ensures && product in past[j] && position < |past[j][product]|
                && r.value[|past| - j] == past[j][product][position]
      {
        var k := |kept| - 1 - (|past| - j);
        assert kept[k] == (past + [current])[|past| + 1 - |kept| + k] == past[j];
      }
    }
  }
}
