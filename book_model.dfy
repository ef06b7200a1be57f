/**
 * The order book of one stock as a value, and each `OrderBook` operation as a
 * function on it. The class in `orderbook.dfy` is proved to follow these
 * functions; the lemmas here say what the functions mean.
 *
 * The book keeps an order three ways: in `orders` under its reference number,
 * and in the sorted map of its side under its key. In the source the two maps
 * hold the same `Order` object, so a shares update through `orders` shows in
 * the side map too. Here an order is a value, and an update writes the new value
 * to both places. The side maps map keys to orders rather than holding bare keys:
 * a second order added under a reference already in the book replaces it in
 * `orders` but leaves the first order's key in its side map, and the model keeps
 * that stale entry just as the source does.
 */
module BookModel {
  import opened Wrappers
  import opened Keys
  import opened Levels

  /** An order; `side` is 'B' for a bid and anything else for an ask, the price
      is the raw ITCH field in units of 1/10000. */
  datatype Order = Order(timestamp: nat, ref: nat, side: char, shares: int, price: nat)

  /** A completed trade `(timestamp, shares, price)`. */
  datatype TradeRecord = TradeRecord(timestamp: nat, shares: int, price: nat)

  /** One row of the history: the timestamp, then four cells per level. */
  type Row = seq<Option<int>>

  datatype Book = Book(
    symbol: string,
    depth: int,
    orders: map<nat, Order>,
    buyOrders: map<Key, Order>,
    sellOrders: map<Key, Order>,
    trades: seq<TradeRecord>,
    history: seq<Row>)

  function Abs(x: int): nat {
    if x < 0 then -x else x
  }

  /** The price component of an order's key: negated for bids. */
  function SignedPrice(o: Order): int {
    if o.side == 'B' then -(o.price as int) else o.price
  }

  /** The key `add_order` files an order under. */
  function KeyOf(o: Order): Key {
    Key(SignedPrice(o), o.timestamp, o.ref)
  }

  /** The side map an order belongs in. */
  function SideOf(b: Book, o: Order): map<Key, Order> {
    if o.side == 'B' then b.buyOrders else b.sellOrders
  }

  /** The side map an order does not belong in. */
  function OtherSideOf(b: Book, o: Order): map<Key, Order> {
    if o.side == 'B' then b.sellOrders else b.buyOrders
  }

  // ---------------------------------------------------------------------------
  // The operations.

  /** `Order.update_order`: each field given a new value takes it, the others stay. */
  function UpdateOrder(o: Order, newTimestamp: Option<nat>, newShares: Option<int>,
                       newPrice: Option<nat>): (u: Order)
    ensures u.ref == o.ref && u.side == o.side
    ensures newTimestamp.Some? ==> u.timestamp == newTimestamp.value
    ensures newTimestamp.None? ==> u.timestamp == o.timestamp
    ensures newShares.Some? ==> u.shares == newShares.value
    ensures newShares.None? ==> u.shares == o.shares
    ensures newPrice.Some? ==> u.price == newPrice.value
    ensures newPrice.None? ==> u.price == o.price
  {
    var o1 := if newTimestamp.Some? then o.(timestamp := newTimestamp.value) else o;
    var o2 := if newShares.Some? then o1.(shares := newShares.value) else o1;
    if newPrice.Some? then o2.(price := newPrice.value) else o2
  }

  /** A new, empty book. */
  function NewBook(symbol: string, depth: int): (b: Book)
    ensures b.symbol == symbol && b.depth == depth
    ensures b.orders == map[] && b.buyOrders == map[] && b.sellOrders == map[]
    ensures b.trades == [] && b.history == []
  {
    Book(symbol, depth, map[], map[], map[], [], [])
  }

  /** `add_order`: no check for a reference already present. */
  function AddOrder(b: Book, o: Order): Book {
    var c := b.(orders := b.orders[o.ref := o]);
    if o.side == 'B' then c.(buyOrders := b.buyOrders[KeyOf(o) := o])
    else c.(sellOrders := b.sellOrders[KeyOf(o) := o])
  }

  /** `remove_order`: the key is built from the order's price and timestamp and
      the reference asked for; a missing key on the side map is tolerated. */
  function RemoveOrder(b: Book, r: nat): Book {
    if r !in b.orders then b
    else
      var o := b.orders[r];
      var c := b.(orders := b.orders - {r});
      if o.side == 'B' then c.(buyOrders := b.buyOrders - {Key(-(o.price as int), o.timestamp, r)})
      else c.(sellOrders := b.sellOrders - {Key(o.price, o.timestamp, r)})
  }

  /** `orders[r].update_order(None, shares, None)`: the order object is shared
      with its side map, so the entry under its key changes with it. */
  function UpdateShares(b: Book, r: nat, shares: int): Book
    requires r in b.orders
  {
    var o := b.orders[r];
    var u := UpdateOrder(o, None, Some(shares), None);
    var k := KeyOf(o);
    var c := b.(orders := b.orders[r := u]);
    if o.side == 'B' then
      (if k in b.buyOrders then c.(buyOrders := b.buyOrders[k := u]) else c)
    else
      (if k in b.sellOrders then c.(sellOrders := b.sellOrders[k := u]) else c)
  }

  /** `record_trade`. */
  function RecordTrade(b: Book, timestamp: nat, shares: int, price: nat): (c: Book)
    ensures c.trades == b.trades + [TradeRecord(timestamp, shares, price)]
    ensures c.(trades := b.trades) == b
  {
    b.(trades := b.trades + [TradeRecord(timestamp, shares, price)])
  }

  /** The book part of `process_trade`: the order goes when nothing would remain. */
  function Execute(b: Book, r: nat, shares: int): Book
    requires r in b.orders
  {
    var newShares := b.orders[r].shares - shares;
    if newShares <= 0 then RemoveOrder(b, r) else UpdateShares(b, r, newShares)
  }

  /** `process_trade`: an execution against a resting order. */
  function ProcessTrade(b: Book, timestamp: nat, r: nat, shares: int, price: Option<nat>,
                        printable: bool): Book
  {
    if r !in b.orders then b
    else
      var c := Execute(b, r, shares);
      if printable then RecordTrade(c, timestamp, shares, price.GetOr(b.orders[r].price)) else c
  }

  /** A side's orders in key order, each as `(|key price|, shares)`. */
  function Quotes(side: map<Key, Order>): (qs: seq<Level>)
    ensures |qs| == |side|
  {
    var ks := SortedKeys(side.Keys);
    SortedKeysSorted(side.Keys);
    seq(|ks|, i requires 0 <= i < |ks| => Level(Abs(ks[i].price), side[ks[i]].shares))
  }

  /** The `i`-th quote is the `i`-th key's order. */
  lemma QuoteAt(side: map<Key, Order>, i: nat)
    requires i < |side|
    ensures var ks := SortedKeys(side.Keys);
            |ks| == |side| && ks[i] in side
            && Quotes(side)[i] == Level(Abs(ks[i].price), side[ks[i]].shares)
  {
    SortedKeysSorted(side.Keys);
  }

  /** The quotes list every order of the side exactly once, in increasing key order,
      each as its key's absolute price and the order's shares. */
  lemma QuotesInKeyOrder(side: map<Key, Order>)
    ensures exists ks: seq<Key> ::
      && |ks| == |side|
      && (forall k :: k in side <==> k in ks)
      && (forall i, j :: 0 <= i < j < |ks| ==> Less(ks[i], ks[j]))
      && (forall i :: 0 <= i < |ks| ==> Quotes(side)[i] == Level(Abs(ks[i].price), side[ks[i]].shares))
  {
    var ks := SortedKeys(side.Keys);
    SortedKeysSorted(side.Keys);
    forall i | 0 <= i < |ks|
      ensures Quotes(side)[i] == Level(Abs(ks[i].price), side[ks[i]].shares)
    {
      QuoteAt(side, i);
    }
  }

  /** `_accumulate_order_levels` on one side. */
  function OrderLevels(side: map<Key, Order>, depth: int): seq<Level> {
    Accumulate(Quotes(side), depth)
  }

  function PriceCell(levels: seq<Level>, i: nat): Option<int> {
    if i < |levels| then Some(levels[i].price) else None
  }

  function SharesCell(levels: seq<Level>, i: nat): Option<int> {
    if i < |levels| then Some(levels[i].shares) else None
  }

  /** The cells of levels `0 .. n - 1`: bid price, bid shares, ask price, ask shares. */
  function Cells(buy: seq<Level>, sell: seq<Level>, n: int): (cells: seq<Option<int>>)
    ensures |cells| == if n <= 0 then 0 else 4 * n
    decreases n
  {
    if n <= 0 then []
    else
      var level := [PriceCell(buy, n - 1), SharesCell(buy, n - 1), PriceCell(sell, n - 1), SharesCell(sell, n - 1)];
      Cells(buy, sell, n - 1) + level
  }

  /** Appending level `i`'s four cells to a row ending in `Cells(.., i)` gives one ending in `Cells(.., i + 1)`. */
  lemma CellsNext(head: seq<Option<int>>, buy: seq<Level>, sell: seq<Level>, i: nat)
    ensures head + Cells(buy, sell, i) + [PriceCell(buy, i), SharesCell(buy, i), PriceCell(sell, i), SharesCell(sell, i)]
            == head + Cells(buy, sell, i + 1)
  {
  }

  /** The row `record_state` builds. */
  function Snapshot(b: Book, timestamp: nat): Row {
    [Some(timestamp)] + Cells(OrderLevels(b.buyOrders, b.depth), OrderLevels(b.sellOrders, b.depth), b.depth)
  }

  /** `record_state`: one row appended, nothing else changed. */
  function RecordState(b: Book, timestamp: nat): (c: Book)
    ensures |c.history| == |b.history| + 1 && c.history[..|b.history|] == b.history
    ensures c.(history := b.history) == b
  {
    b.(history := b.history + [Snapshot(b, timestamp)])
  }

  // ---------------------------------------------------------------------------
  // What each operation does to the book.

  /** `add_order` files the order under its reference and, on its own side only,
      under its key; every other entry stays. */
  lemma AddOrderEffect(b: Book, o: Order)
    ensures var c := AddOrder(b, o);
      && c.orders.Keys == b.orders.Keys + {o.ref} && c.orders[o.ref] == o
      && (forall r :: r in b.orders && r != o.ref ==> c.orders[r] == b.orders[r])
      && (o.side == 'B' ==> c.buyOrders.Keys == b.buyOrders.Keys + {KeyOf(o)} && c.sellOrders == b.sellOrders)
      && (o.side != 'B' ==> c.sellOrders.Keys == b.sellOrders.Keys + {KeyOf(o)} && c.buyOrders == b.buyOrders)
      && KeyOf(o) in SideOf(c, o) && SideOf(c, o)[KeyOf(o)] == o
      && (forall k :: k in SideOf(b, o) && k != KeyOf(o) ==> SideOf(c, o)[k] == SideOf(b, o)[k])
      && c.symbol == b.symbol && c.depth == b.depth && c.trades == b.trades && c.history == b.history
  {
  }

  /** `remove_order` of an absent reference changes nothing; of a present one it
      drops the reference and that one key of its side, and nothing else. */
  lemma RemoveOrderEffect(b: Book, r: nat)
    ensures r !in b.orders ==> RemoveOrder(b, r) == b
    ensures var c := RemoveOrder(b, r);
      && c.orders.Keys == b.orders.Keys - {r}
      && (forall q :: q in c.orders ==> c.orders[q] == b.orders[q])
      && (forall k :: k in c.buyOrders ==> c.buyOrders[k] == b.buyOrders[k])
      && (forall k :: k in c.sellOrders ==> c.sellOrders[k] == b.sellOrders[k])
      && c.symbol == b.symbol && c.depth == b.depth && c.trades == b.trades && c.history == b.history
    ensures r in b.orders && b.orders[r].side == 'B' ==>
      (var k := Key(-(b.orders[r].price as int), b.orders[r].timestamp, r);
       RemoveOrder(b, r).buyOrders.Keys == b.buyOrders.Keys - {k}
       && RemoveOrder(b, r).sellOrders == b.sellOrders)
    ensures r in b.orders && b.orders[r].side != 'B' ==>
      (var k := Key(b.orders[r].price, b.orders[r].timestamp, r);
       RemoveOrder(b, r).sellOrders.Keys == b.sellOrders.Keys - {k}
       && RemoveOrder(b, r).buyOrders == b.buyOrders)
  {
  }

  /** A shares update changes that order's shares, in `orders` and under its key
      on its side, and nothing else. */
  lemma UpdateSharesEffect(b: Book, r: nat, shares: int)
    requires r in b.orders
    ensures var c := UpdateShares(b, r, shares);
      && c.orders.Keys == b.orders.Keys
      && c.orders[r] == b.orders[r].(shares := shares)
      && (forall q :: q in b.orders && q != r ==> c.orders[q] == b.orders[q])
      && c.buyOrders.Keys == b.buyOrders.Keys && c.sellOrders.Keys == b.sellOrders.Keys
      && (forall k :: k in c.buyOrders && k != KeyOf(b.orders[r]) ==> c.buyOrders[k] == b.buyOrders[k])
      && (forall k :: k in c.sellOrders && k != KeyOf(b.orders[r]) ==> c.sellOrders[k] == b.sellOrders[k])
      && (KeyOf(b.orders[r]) in SideOf(b, b.orders[r]) ==>
            SideOf(c, b.orders[r])[KeyOf(b.orders[r])] == c.orders[r])
      && OtherSideOf(c, b.orders[r]) == OtherSideOf(b, b.orders[r])
      && c.symbol == b.symbol && c.depth == b.depth && c.trades == b.trades && c.history == b.history
  {
  }

  /** `process_trade`: an unknown reference changes nothing and records no trade;
      otherwise the order goes if the execution takes all its shares or more, else
      keeps the rest, and one trade is recorded exactly when it is printable, at the
      given price or else the order's own. */
  lemma ProcessTradeEffect(b: Book, timestamp: nat, r: nat, shares: int, price: Option<nat>,
                           printable: bool)
    ensures r !in b.orders ==> ProcessTrade(b, timestamp, r, shares, price, printable) == b
    ensures var c := ProcessTrade(b, timestamp, r, shares, price, printable);
      r in b.orders ==>
        && (r in c.orders <==> shares < b.orders[r].shares)
        && (r in c.orders ==> c.orders[r] == b.orders[r].(shares := b.orders[r].shares - shares))
        && (forall q :: q != r ==> (q in c.orders <==> q in b.orders))
        && (forall q :: q in c.orders && q != r ==> c.orders[q] == b.orders[q])
        && c.trades == b.trades
             + (if printable then [TradeRecord(timestamp, shares, price.GetOr(b.orders[r].price))] else [])
        && c.symbol == b.symbol && c.depth == b.depth && c.history == b.history
    ensures var c := ProcessTrade(b, timestamp, r, shares, price, printable);
      r in b.orders ==>
        var o := b.orders[r];
        && OtherSideOf(c, o) == OtherSideOf(b, o)
        && (shares >= o.shares ==>
              && SideOf(c, o).Keys == SideOf(b, o).Keys - {Key(SignedPrice(o), o.timestamp, r)}
              && (forall k :: k in SideOf(c, o) ==> SideOf(c, o)[k] == SideOf(b, o)[k]))
        && (shares < o.shares ==>
              && SideOf(c, o).Keys == SideOf(b, o).Keys
              && (KeyOf(o) in SideOf(b, o) ==> SideOf(c, o)[KeyOf(o)] == c.orders[r])
              && (forall k :: k in SideOf(c, o) && k != KeyOf(o) ==> SideOf(c, o)[k] == SideOf(b, o)[k]))
  {
    if r in b.orders {
      if b.orders[r].shares - shares <= 0 {
        RemoveOrderEffect(b, r);
      } else {
        UpdateSharesEffect(b, r, b.orders[r].shares - shares);
      }
    }
  }

  // ---------------------------------------------------------------------------
  // The book's invariants.

  /** Every side entry sits under its own order's key, on the side the order names. */
  predicate KeyedSides(buy: map<Key, Order>, sell: map<Key, Order>) {
    && (forall k :: k in buy ==> KeyOf(buy[k]) == k && buy[k].side == 'B')
    && (forall k :: k in sell ==> KeyOf(sell[k]) == k && sell[k].side != 'B')
  }

  /** Every order is filed under its own reference and, on its side, under its key. */
  predicate IndexedOrders(orders: map<nat, Order>, buy: map<Key, Order>, sell: map<Key, Order>) {
    forall r :: r in orders ==>
      && orders[r].ref == r
      && (orders[r].side == 'B' ==> KeyOf(orders[r]) in buy && buy[KeyOf(orders[r])] == orders[r])
      && (orders[r].side != 'B' ==> KeyOf(orders[r]) in sell && sell[KeyOf(orders[r])] == orders[r])
  }

  /** No side entry outlives its order: each one is the current order of its reference. */
  predicate CleanSides(orders: map<nat, Order>, buy: map<Key, Order>, sell: map<Key, Order>) {
    && (forall k :: k in buy ==> k.ref in orders && orders[k.ref] == buy[k])
    && (forall k :: k in sell ==> k.ref in orders && orders[k.ref] == sell[k])
  }

  predicate Keyed(b: Book) {
    KeyedSides(b.buyOrders, b.sellOrders)
  }

  /** What every operation keeps, whatever the input. */
  predicate Consistent(b: Book) {
    KeyedSides(b.buyOrders, b.sellOrders) && IndexedOrders(b.orders, b.buyOrders, b.sellOrders)
  }

  /** Holds while every order added has a new reference. */
  predicate Clean(b: Book) {
    CleanSides(b.orders, b.buyOrders, b.sellOrders)
  }

  lemma NewBookClean(symbol: string, depth: int)
    ensures Consistent(NewBook(symbol, depth)) && Clean(NewBook(symbol, depth))
  {
  }

  /** Recording a row or a trade leaves the orders, and so the invariant, alone. */
  lemma RecordsKeepConsistent(b: Book, timestamp: nat, shares: int, price: nat)
    requires Consistent(b)
    ensures Consistent(RecordState(b, timestamp)) && Consistent(RecordTrade(b, timestamp, shares, price))
  {
    assert RecordState(b, timestamp).orders == b.orders;
    assert RecordState(b, timestamp).buyOrders == b.buyOrders;
    assert RecordState(b, timestamp).sellOrders == b.sellOrders;
  }

  /** The row `record_state` appends is the snapshot of the book it leaves. */
  lemma RecordStateRow(b: Book, timestamp: nat)
    ensures RecordState(b, timestamp).history == b.history + [Snapshot(RecordState(b, timestamp), timestamp)]
  {
    var c := RecordState(b, timestamp);
    assert c.buyOrders == b.buyOrders && c.sellOrders == b.sellOrders && c.depth == b.depth;
  }

  lemma AddOrderConsistent(b: Book, o: Order)
    requires Consistent(b)
    ensures Consistent(AddOrder(b, o))
  {
    var c := AddOrder(b, o);
    forall r | r in c.orders
      ensures c.orders[r].ref == r && KeyOf(c.orders[r]) in SideOf(c, c.orders[r])
              && SideOf(c, c.orders[r])[KeyOf(c.orders[r])] == c.orders[r]
    {
      if r != o.ref {
        assert KeyOf(b.orders[r]) != KeyOf(o);
      }
    }
  }

  /** Adding an order under a new reference leaves no stale entry. */
  lemma AddFreshOrderClean(b: Book, o: Order)
    requires Consistent(b) && Clean(b) && o.ref !in b.orders
    ensures Clean(AddOrder(b, o))
  {
  }

  /** Adding a second order under a reference already in the book, at another
      price, leaves the first one's entry on its side map: both orders are then
      quoted, though `orders` holds only the second. */
  lemma DuplicateAddLeavesStale()
    ensures var o1 := Order(1, 7, 'B', 100, 500);
            var o2 := Order(2, 7, 'B', 50, 600);
            var b := AddOrder(AddOrder(NewBook("AAPL", 3), o1), o2);
            && |b.orders| == 1 && |b.buyOrders| == 2 && !Clean(b)
            && Quotes(b.buyOrders) == [Level(600, 50), Level(500, 100)]
  {
    var o1 := Order(1, 7, 'B', 100, 500);
    var o2 := Order(2, 7, 'B', 50, 600);
    var k1 := Key(-500, 1, 7);
    var k2 := Key(-600, 2, 7);
    var b1 := AddOrder(NewBook("AAPL", 3), o1);
    assert b1.buyOrders == map[k1 := o1];
    var b := AddOrder(b1, o2);
    assert b.buyOrders == map[k1 := o1, k2 := o2];
    assert b.orders == map[7 := o2];
    assert !Clean(b) by {
      assert k1 in b.buyOrders && b.orders[k1.ref] != b.buyOrders[k1];
    }
    assert Quotes(b.buyOrders) == [Level(600, 50), Level(500, 100)] by {
      assert b.buyOrders.Keys == {k2, k1};
      SortedPair(k2, k1);
    }
  }

  /** The keys of a two-key map in order. */
  lemma SortedPair(a: Key, b: Key)
    requires Less(a, b)
    ensures SortedKeys({a, b}) == [a, b]
  {
    var ks := SortedKeys({a, b});
    SortedKeysSorted({a, b});
    LessTotal(a, b);
    assert ks[0] in {a, b} && ks[1] in {a, b} && Less(ks[0], ks[1]);
  }

  lemma RemoveOrderConsistent(b: Book, r: nat)
    requires Consistent(b)
    ensures Consistent(RemoveOrder(b, r))
  {
    if r in b.orders {
      var c := RemoveOrder(b, r);
      forall q | q in c.orders
        ensures KeyOf(c.orders[q]) in SideOf(c, c.orders[q])
      {
        assert KeyOf(b.orders[q]) != KeyOf(b.orders[r]);
      }
    }
  }

  lemma RemoveOrderClean(b: Book, r: nat)
    requires Consistent(b) && Clean(b)
    ensures Clean(RemoveOrder(b, r))
  {
    if r in b.orders {
      var c := RemoveOrder(b, r);
      forall k | k in c.buyOrders
        ensures k.ref in c.orders
      {
        assert KeyOf(b.buyOrders[k]) == k;
      }
      forall k | k in c.sellOrders
        ensures k.ref in c.orders
      {
        assert KeyOf(b.sellOrders[k]) == k;
      }
    }
  }

  /** Removing an order just added under a new reference gives back the book. */
  lemma AddThenRemove(b: Book, o: Order)
    requires Consistent(b) && Clean(b) && o.ref !in b.orders
    ensures RemoveOrder(AddOrder(b, o), o.ref) == b
  {
    var k := KeyOf(o);
    assert b.orders[o.ref := o] - {o.ref} == b.orders;
    if o.side == 'B' {
      assert k !in b.buyOrders;
      assert b.buyOrders[k := o] - {k} == b.buyOrders;
    } else {
      assert k !in b.sellOrders;
      assert b.sellOrders[k := o] - {k} == b.sellOrders;
    }
  }

  lemma UpdateSharesConsistent(b: Book, r: nat, shares: int)
    requires Consistent(b) && r in b.orders
    ensures Consistent(UpdateShares(b, r, shares))
  {
    var c := UpdateShares(b, r, shares);
    forall q | q in c.orders
      ensures KeyOf(c.orders[q]) in SideOf(c, c.orders[q])
              && SideOf(c, c.orders[q])[KeyOf(c.orders[q])] == c.orders[q]
    {
      if q != r {
        assert KeyOf(b.orders[q]) != KeyOf(b.orders[r]);
      }
    }
  }

  lemma UpdateSharesClean(b: Book, r: nat, shares: int)
    requires Consistent(b) && Clean(b) && r in b.orders
    ensures Clean(UpdateShares(b, r, shares))
  {
    var c := UpdateShares(b, r, shares);
    forall k | k in c.buyOrders
      ensures c.orders[k.ref] == c.buyOrders[k]
    {
      assert KeyOf(b.buyOrders[k]) == k;
    }
    forall k | k in c.sellOrders
      ensures c.orders[k.ref] == c.sellOrders[k]
    {
      assert KeyOf(b.sellOrders[k]) == k;
    }
  }

  lemma ExecuteConsistent(b: Book, r: nat, shares: int)
    requires Consistent(b) && r in b.orders
    ensures Consistent(Execute(b, r, shares))
  {
    var c := Execute(b, r, shares);
    if b.orders[r].shares - shares <= 0 {
      RemoveOrderConsistent(b, r);
      assert c == RemoveOrder(b, r);
    } else {
      UpdateSharesConsistent(b, r, b.orders[r].shares - shares);
      assert c == UpdateShares(b, r, b.orders[r].shares - shares);
    }
  }

  lemma ExecuteClean(b: Book, r: nat, shares: int)
    requires Consistent(b) && Clean(b) && r in b.orders
    ensures Clean(Execute(b, r, shares))
  {
    if b.orders[r].shares - shares <= 0 {
      RemoveOrderClean(b, r);
    } else {
      UpdateSharesClean(b, r, b.orders[r].shares - shares);
    }
  }

  lemma ProcessTradeConsistent(b: Book, timestamp: nat, r: nat, shares: int, price: Option<nat>,
                               printable: bool)
    requires Consistent(b)
    ensures Consistent(ProcessTrade(b, timestamp, r, shares, price, printable))
  {
    if r in b.orders {
      ExecuteConsistent(b, r, shares);
    }
  }

  lemma ProcessTradeClean(b: Book, timestamp: nat, r: nat, shares: int, price: Option<nat>,
                          printable: bool)
    requires Consistent(b) && Clean(b)
    ensures Clean(ProcessTrade(b, timestamp, r, shares, price, printable))
  {
    if r in b.orders {
      ExecuteClean(b, r, shares);
    }
  }

  /** In a clean book an order has exactly one key on the two side maps together. */
  lemma ExactlyOneKey(b: Book, r: nat)
    requires Consistent(b) && Clean(b) && r in b.orders
    ensures (set k | k in b.buyOrders && k.ref == r) + (set k | k in b.sellOrders && k.ref == r)
            == {KeyOf(b.orders[r])}
  {
    forall k | k in b.buyOrders && k.ref == r
      ensures k == KeyOf(b.orders[r])
    {
      assert KeyOf(b.buyOrders[k]) == k;
    }
    forall k | k in b.sellOrders && k.ref == r
      ensures k == KeyOf(b.orders[r])
    {
      assert KeyOf(b.sellOrders[k]) == k;
    }
  }

  // ---------------------------------------------------------------------------
  // What a snapshot reports.

  /** Bids are quoted from the highest price down. */
  lemma BuyQuotesDescend(b: Book)
    requires Keyed(b)
    ensures NonIncreasing(Quotes(b.buyOrders))
  {
    var ks := SortedKeys(b.buyOrders.Keys);
    SortedKeysSorted(b.buyOrders.Keys);
    var qs := Quotes(b.buyOrders);
    forall i, j | 0 <= i <= j < |qs|
      ensures qs[i].price >= qs[j].price
    {
      IncreasingPrices(ks, i, j);
      assert ks[j] in b.buyOrders && KeyOf(b.buyOrders[ks[j]]) == ks[j];
    }
  }

  /** Asks are quoted from the lowest price up. */
  lemma SellQuotesAscend(b: Book)
    requires Keyed(b)
    ensures NonDecreasing(Quotes(b.sellOrders))
  {
    var ks := SortedKeys(b.sellOrders.Keys);
    SortedKeysSorted(b.sellOrders.Keys);
    var qs := Quotes(b.sellOrders);
    forall i, j | 0 <= i <= j < |qs|
      ensures qs[i].price <= qs[j].price
    {
      IncreasingPrices(ks, i, j);
      assert ks[i] in b.sellOrders && KeyOf(b.sellOrders[ks[i]]) == ks[i];
    }
  }

  /** Level `i` reports the price of run `i`. */
  lemma LevelPrice(quotes: seq<Level>, depth: int, i: nat)
    requires i < |Accumulate(quotes, depth)|
    ensures i < |Groups(quotes)| && Accumulate(quotes, depth)[i].price == Groups(quotes)[i].price
  {
    AccumulateIsCap(quotes, depth);
    CapLevel(Groups(quotes), depth, i);
  }

  /** A snapshot's bid levels have strictly falling prices, at most `depth` of them. */
  lemma BuyLevelsDescend(b: Book)
    requires Keyed(b)
    ensures |OrderLevels(b.buyOrders, b.depth)| <= if b.depth < 0 then 0 else b.depth
    ensures var levels := OrderLevels(b.buyOrders, b.depth);
            forall i, j :: 0 <= i < j < |levels| ==> levels[i].price > levels[j].price
  {
    var qs := Quotes(b.buyOrders);
    var levels := OrderLevels(b.buyOrders, b.depth);
    AccumulateLength(qs, b.depth);
    BuyQuotesDescend(b);
    GroupsDescend(qs);
    forall i, j | 0 <= i < j < |levels|
      ensures levels[i].price > levels[j].price
    {
      LevelPrice(qs, b.depth, i);
      LevelPrice(qs, b.depth, j);
    }
  }

  /** A snapshot's ask levels have strictly rising prices, at most `depth` of them. */
  lemma SellLevelsAscend(b: Book)
    requires Keyed(b)
    ensures |OrderLevels(b.sellOrders, b.depth)| <= if b.depth < 0 then 0 else b.depth
    ensures var levels := OrderLevels(b.sellOrders, b.depth);
            forall i, j :: 0 <= i < j < |levels| ==> levels[i].price < levels[j].price
  {
    var qs := Quotes(b.sellOrders);
    var levels := OrderLevels(b.sellOrders, b.depth);
    AccumulateLength(qs, b.depth);
    SellQuotesAscend(b);
    GroupsAscend(qs);
    forall i, j | 0 <= i < j < |levels|
      ensures levels[i].price < levels[j].price
    {
      LevelPrice(qs, b.depth, i);
      LevelPrice(qs, b.depth, j);
    }
  }

  /** Every bid level but the `depth`-th holds all the shares bid at its price. */
  lemma BuyLevelTotals(b: Book, i: nat)
    requires Keyed(b) && i < |OrderLevels(b.buyOrders, b.depth)| && i != b.depth - 1
    ensures OrderLevels(b.buyOrders, b.depth)[i].shares
            == SumAt(Quotes(b.buyOrders), OrderLevels(b.buyOrders, b.depth)[i].price)
  {
    BuyQuotesDescend(b);
    MonotoneGrouped(Quotes(b.buyOrders));
    LevelTotals(Quotes(b.buyOrders), b.depth, i);
  }

  /** Every ask level but the `depth`-th holds all the shares offered at its price. */
  lemma SellLevelTotals(b: Book, i: nat)
    requires Keyed(b) && i < |OrderLevels(b.sellOrders, b.depth)| && i != b.depth - 1
    ensures OrderLevels(b.sellOrders, b.depth)[i].shares
            == SumAt(Quotes(b.sellOrders), OrderLevels(b.sellOrders, b.depth)[i].price)
  {
    SellQuotesAscend(b);
    MonotoneGrouped(Quotes(b.sellOrders));
    LevelTotals(Quotes(b.sellOrders), b.depth, i);
  }

  /** The four cells of level `i` sit at `4 * i .. 4 * i + 4`. */
  lemma {:induction false} CellsAt(buy: seq<Level>, sell: seq<Level>, n: int, i: nat)
    requires i < n
    ensures Cells(buy, sell, n)[4 * i .. 4 * i + 4]
            == [PriceCell(buy, i), SharesCell(buy, i), PriceCell(sell, i), SharesCell(sell, i)]
    decreases n
  {
    var prefix := Cells(buy, sell, n - 1);
    if i < n - 1 {
      CellsAt(buy, sell, n - 1, i);
      assert Cells(buy, sell, n)[4 * i .. 4 * i + 4] == prefix[4 * i .. 4 * i + 4];
    } else {
      assert Cells(buy, sell, n)[4 * i .. 4 * i + 4] == Cells(buy, sell, n)[|prefix|..];
    }
  }

  /** Level `i` of a row: the four cells after the timestamp and the `i` levels before it. */
  lemma RowAt(timestamp: nat, buy: seq<Level>, sell: seq<Level>, n: int, i: nat)
    requires i < n
    ensures |[Some(timestamp)] + Cells(buy, sell, n)| == 1 + 4 * n
    ensures ([Some(timestamp)] + Cells(buy, sell, n))[1 + 4 * i .. 5 + 4 * i]
            == [PriceCell(buy, i), SharesCell(buy, i), PriceCell(sell, i), SharesCell(sell, i)]
  {
    var cells := Cells(buy, sell, n);
    CellsAt(buy, sell, n, i);
    assert ([Some(timestamp)] + cells)[1 + 4 * i .. 5 + 4 * i] == cells[4 * i .. 4 * i + 4];
  }

  /** Below `depth`, a side's level is empty exactly when the side has no run of prices that far. */
  lemma EmptyLevel(quotes: seq<Level>, depth: int, i: nat)
    requires i < depth
    ensures PriceCell(Accumulate(quotes, depth), i).None? <==> |Groups(quotes)| <= i
  {
    AccumulateLength(quotes, depth);
  }

  /** A snapshot is the timestamp and four cells per level up to `depth`; a
      level's cells are empty exactly when its side has no run of prices that far. */
  lemma SnapshotLayout(b: Book, timestamp: nat, i: nat)
    requires i < b.depth
    ensures |Snapshot(b, timestamp)| == 1 + 4 * b.depth
    ensures Snapshot(b, timestamp)[0] == Some(timestamp)
    ensures var buy := OrderLevels(b.buyOrders, b.depth);
            var sell := OrderLevels(b.sellOrders, b.depth);
            Snapshot(b, timestamp)[1 + 4 * i .. 5 + 4 * i]
            == [PriceCell(buy, i), SharesCell(buy, i), PriceCell(sell, i), SharesCell(sell, i)]
    ensures PriceCell(OrderLevels(b.buyOrders, b.depth), i).None?
            <==> |Groups(Quotes(b.buyOrders))| <= i
    ensures PriceCell(OrderLevels(b.sellOrders, b.depth), i).None?
            <==> |Groups(Quotes(b.sellOrders))| <= i
  {
    RowAt(timestamp, OrderLevels(b.buyOrders, b.depth), OrderLevels(b.sellOrders, b.depth), b.depth, i);
    EmptyLevel(Quotes(b.buyOrders), b.depth, i);
    EmptyLevel(Quotes(b.sellOrders), b.depth, i);
  }
}
