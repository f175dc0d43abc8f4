/** The simulated order book. A Python `OrderDepth` holds two dicts, `buy_orders`
    and `sell_orders`, from price to volume (buy volumes positive, sell volumes
    negative by the exchange's convention). A dict iterates in insertion order,
    so each side is a sequence of entries; its keys are distinct. */
module Book {
  import opened Common

  datatype Entry = Entry(key: int, volume: int)

  /** One dict of an order depth, in insertion order. */
  type Side = seq<Entry>

  datatype Depth = Depth(buys: Side, sells: Side)

  /** `Order(product, price, quantity)`: a positive quantity buys, a negative one sells. */
  datatype Order = Order(product: string, price: int, quantity: int)

  /** What the trader tracks about one product during a tick: its simulated depth
      (`estimated_traded_lob[product]`) and its provisional net position
      (`ordered_position[product]`). */
  datatype Venue = Venue(depth: Depth, net: int)

  predicate Distinct(s: Side) {
    forall i, j :: 0 <= i < j < |s| ==> s[i].key != s[j].key
  }

  predicate WellFormed(d: Depth) {
    Distinct(d.buys) && Distinct(d.sells)
  }

  predicate HasKey(s: Side, k: int) {
    exists i :: 0 <= i < |s| && s[i].key == k
  }

  /** Position of the first entry with key `k`, or `|s|` when there is none. */
  function IndexOf(s: Side, k: int): (i: nat)
    ensures i <= |s|
    ensures i < |s| ==> s[i].key == k
    ensures forall j :: 0 <= j < i ==> s[j].key != k
  {
    if s == [] then 0
    else if s[0].key == k then 0
    else 1 + IndexOf(s[1..], k)
  }

  /** `d.get(k)`: the volume stored under `k`, if any. */
  function Get(s: Side, k: int): (r: Option<int>)
    ensures r.Some? <==> HasKey(s, k)
    ensures r.Some? ==> exists i :: 0 <= i < |s| && s[i] == Entry(k, r.value)
  {
    var i := IndexOf(s, k);
    if i < |s| then Some(s[i].volume) else None
  }

  /** `d.pop(k)` once `k` is known to be present: the entry leaves, the others
      keep their order. What it does to lookups is `RemoveLookup`. */
  function Remove(s: Side, k: int): (r: Side)
    requires Distinct(s)
    ensures Distinct(r)
    ensures |r| == if HasKey(s, k) then |s| - 1 else |s|
  {
    var i := IndexOf(s, k);
    if i == |s| then s
    else
      var r := s[..i] + s[i + 1..];
      assert forall j :: 0 <= j < |r| ==> r[j] == (if j < i then s[j] else s[j + 1]);
      r
  }

  /** After `d.pop(k)` the key is gone and every other key reads as before. */
  lemma RemoveLookup(s: Side, k: int)
    requires Distinct(s)
    ensures Get(Remove(s, k), k) == None
    ensures forall k' :: k' != k ==> Get(Remove(s, k), k') == Get(s, k')
  {
    var i := IndexOf(s, k);
    if i < |s| {
      var r := Remove(s, k);
      assert r == s[..i] + s[i + 1..];
      assert forall j :: 0 <= j < |r| ==> r[j] == (if j < i then s[j] else s[j + 1]);
      assert !HasKey(r, k);
      forall k' | k' != k
        ensures Get(r, k') == Get(s, k')
      {
        if HasKey(s, k') {
          var m := IndexOf(s, k');
          assert m != i;
          assert r[if m < i then m else m - 1] == s[m];
          assert HasKey(r, k');
        }
        if HasKey(r, k') {
          var j :| 0 <= j < |r| && r[j].key == k';
          assert s[if j < i then j else j + 1].key == k';
        }
      }
    }
  }

  /** `d[k] = v`: overwrite in place when `k` is present, otherwise append a new
      last entry. What it does to lookups is `PutLookup`. */
  function Put(s: Side, k: int, v: int): (r: Side)
    requires Distinct(s)
    ensures Distinct(r)
    ensures HasKey(s, k) ==> |r| == |s| && IndexOf(r, k) == IndexOf(s, k)
    ensures !HasKey(s, k) ==> r == s + [Entry(k, v)]
  {
    var i := IndexOf(s, k);
    var r := if i < |s| then s[i := Entry(k, v)] else s + [Entry(k, v)];
    assert forall j :: 0 <= j < |s| && j != i ==> r[j] == s[j];
    assert Distinct(r);
    GetAt(r, i);
    r
  }

  /** After `d[k] = v` the key reads `v` and every other key reads as before. */
  lemma PutLookup(s: Side, k: int, v: int)
    requires Distinct(s)
    ensures Get(Put(s, k, v), k) == Some(v)
    ensures forall k' :: k' != k ==> Get(Put(s, k, v), k') == Get(s, k')
  {
    var i := IndexOf(s, k);
    var r := Put(s, k, v);
    assert r == if i < |s| then s[i := Entry(k, v)] else s + [Entry(k, v)];
    assert forall j :: 0 <= j < |s| && j != i ==> r[j] == s[j];
    GetAt(r, i);
    forall k' | k' != k
      ensures Get(r, k') == Get(s, k')
    {
      if HasKey(s, k') {
        var m := IndexOf(s, k');
        GetAt(s, m);
        GetAt(r, m);
      }
      if HasKey(r, k') {
        var j :| 0 <= j < |r| && r[j].key == k';
        GetAt(r, j);
        GetAt(s, j);
      }
    }
  }

  /** In a side with distinct keys, looking up the key of entry `i` finds entry `i`. */
  lemma GetAt(s: Side, i: nat)
    requires Distinct(s) && i < |s|
    ensures IndexOf(s, s[i].key) == i
    ensures Get(s, s[i].key) == Some(s[i].volume)
  {
  }

  /** The side a trade in direction `dir` executes against: a buy lifts the
      asks, a sell hits the bids. */
  function Facing(d: Depth, dir: Direction): Side {
    if dir.Buy? then d.sells else d.buys
  }

  /** The side a resting quote in direction `dir` joins. */
  function Own(d: Depth, dir: Direction): Side {
    if dir.Buy? then d.buys else d.sells
  }

  function WithFacing(d: Depth, dir: Direction, s: Side): (r: Depth)
    ensures Facing(r, dir) == s && Own(r, dir) == Own(d, dir)
  {
    if dir.Buy? then d.(sells := s) else d.(buys := s)
  }

  function WithOwn(d: Depth, dir: Direction, s: Side): (r: Depth)
    ensures Own(r, dir) == s && Facing(r, dir) == Facing(d, dir)
  {
    if dir.Buy? then d.(buys := s) else d.(sells := s)
  }

  /** Sum of all volumes of a side, `sum(d.values())`. */
  function Total(s: Side): int {
    if s == [] then 0 else s[0].volume + Total(s[1..])
  }

  /** Sum of the quantities of a list of orders: its effect on the net position. */
  function Signed(orders: seq<Order>): int {
    if orders == [] then 0 else orders[0].quantity + Signed(orders[1..])
  }

  /** Sum of the absolute quantities of a list of orders: the capacity it consumes. */
  function Gross(orders: seq<Order>): nat {
    if orders == [] then 0 else Abs(orders[0].quantity) + Gross(orders[1..])
  }

  lemma {:induction false} SignedAppend(a: seq<Order>, b: seq<Order>)
    ensures Signed(a + b) == Signed(a) + Signed(b)
    ensures Gross(a + b) == Gross(a) + Gross(b)
  {
    if a == [] {
      assert a + b == b;
    } else {
      assert (a + b)[1..] == a[1..] + b;
      SignedAppend(a[1..], b);
    }
  }

  /** Orders that all trade in direction `dir` move the net position by exactly
      their gross quantity in that direction. */
  lemma {:induction false} SignedOneWay(orders: seq<Order>, dir: Direction)
    requires forall i :: 0 <= i < |orders| ==> dir.Along(orders[i].quantity)
    ensures Signed(orders) == dir.Apply(Gross(orders))
  {
    if orders != [] {
      SignedOneWay(orders[1..], dir);
    }
  }
}
