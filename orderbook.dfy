/**
 * The `OrderBook` class: its maps and lists are fields that its methods
 * reassign, and each method is proved to leave the state the matching function
 * of `BookModel` gives. `Order` objects are values here (see `BookModel`).
 */
module OrderBooks {
  import opened Wrappers
  import opened Keys
  import opened Levels
  import opened BookModel

  class OrderBook {
    const symbol: string
    const depth: int
    var orders: map<nat, Order>
    var buyOrders: map<Key, Order>
    var sellOrders: map<Key, Order>
    var trades: seq<TradeRecord>
    var history: seq<Row>

    /** The book as a value. */
    ghost function State(): Book
      reads this
    {
      Book(symbol, depth, orders, buyOrders, sellOrders, trades, history)
    }

    constructor (symbol: string, depth: int)
      ensures State() == NewBook(symbol, depth)
    {
      this.symbol := symbol;
      this.depth := depth;
      orders := map[];
      buyOrders := map[];
      sellOrders := map[];
      trades := [];
      history := [];
    }

    /** `add_order`: the order indexed by reference and filed on its side under its key. */
    method AddOrder(order: Order)
      modifies this
      ensures State() == BookModel.AddOrder(old(State()), order)
    {
      orders := orders[order.ref := order];
      if order.side == 'B' {
        var key := Key(-(order.price as int), order.timestamp, order.ref);
        buyOrders := buyOrders[key := order];
      } else {
        var key := Key(order.price, order.timestamp, order.ref);
        sellOrders := sellOrders[key := order];
      }
    }

    /** `remove_order`: a known reference is dropped from the index and from its side. */
    method RemoveOrder(r: nat)
      modifies this
      ensures State() == BookModel.RemoveOrder(old(State()), r)
    {
      if r in orders {
        var order := orders[r];
        orders := orders - {r};
        if order.side == 'B' {
          var key := Key(-(order.price as int), order.timestamp, r);
          buyOrders := buyOrders - {key};
        } else {
          var key := Key(order.price, order.timestamp, r);
          sellOrders := sellOrders - {key};
        }
      }
    }

    /** `orders[r].update_order(None, shares, None)` on the shared order object. */
    method UpdateShares(r: nat, shares: int)
      requires r in orders
      modifies this
      ensures State() == BookModel.UpdateShares(old(State()), r, shares)
    {
      var order := orders[r];
      var updated := UpdateOrder(order, None, Some(shares), None);
      var key := KeyOf(order);
      orders := orders[r := updated];
      if order.side == 'B' {
        if key in buyOrders {
          buyOrders := buyOrders[key := updated];
        }
      } else {
        if key in sellOrders {
          sellOrders := sellOrders[key := updated];
        }
      }
    }

    /**
     * `process_trade`: an unknown reference changes nothing; otherwise the
     * executed shares come off the order, which goes when none are left, and a
     * printable execution is recorded at the given price or the order's own.
     */
    method ProcessTrade(timestamp: nat, r: nat, shares: int, price: Option<nat>, printable: bool)
      modifies this
      ensures State() == BookModel.ProcessTrade(old(State()), timestamp, r, shares, price, printable)
    {
      if r in orders {
        var order := orders[r];
        var newShares := order.shares - shares;
        if newShares <= 0 {
          RemoveOrder(r);
        } else {
          UpdateShares(r, newShares);
        }
        if printable {
          RecordTrade(timestamp, shares, price.GetOr(order.price));
        }
      }
    }

    /** `_accumulate_order_levels`: the loop over the side's orders in key order. */
    method AccumulateOrderLevels(side: map<Key, Order>) returns (levels: seq<Level>)
      ensures levels == OrderLevels(side, depth)
    {
      ghost var quotes := Quotes(side);
      ghost var target := OrderLevels(side, depth);
      var keys := SortedKeys(side.Keys);
      levels := [];
      var i := 0;
      while i < |keys|
        invariant 0 <= i <= |keys| == |quotes|
        invariant AccumulateFrom(quotes[i..], depth, levels) == target
      {
        QuoteAt(side, i);
        var price := Abs(keys[i].price);
        var shares := side[keys[i]].shares;
        if |levels| < depth {
          AccumulateStep(quotes, i, depth, levels, price, shares);
          if |levels| == 0 || levels[|levels| - 1].price != price {
            levels := levels + [Level(price, shares)];
          } else {
            levels := levels[|levels| - 1 := Level(levels[|levels| - 1].price, levels[|levels| - 1].shares + shares)];
          }
        } else {
          break;
        }
        i := i + 1;
      }
    }

    /** `record_trade`: one trade appended. */
    method RecordTrade(timestamp: nat, shares: int, price: nat)
      modifies this
      ensures State() == BookModel.RecordTrade(old(State()), timestamp, shares, price)
    {
      trades := trades + [TradeRecord(timestamp, shares, price)];
    }

    /**
     * `record_state`: the timestamp, then for each of the `depth` levels the bid
     * price and shares and the ask price and shares, `None` past the last level.
     */
    method RecordState(timestamp: nat)
      modifies this
      ensures State() == BookModel.RecordState(old(State()), timestamp)
    {
      var buyLevels := AccumulateOrderLevels(buyOrders);
      var sellLevels := AccumulateOrderLevels(sellOrders);
      ghost var snap := [Some(timestamp)] + Cells(buyLevels, sellLevels, depth);
      assert snap == Snapshot(State(), timestamp);
      var record: Row := [Some(timestamp)];
      var i := 0;
      while i < depth
        invariant 0 <= i <= (if depth < 0 then 0 else depth)
        invariant record == [Some(timestamp)] + Cells(buyLevels, sellLevels, i)
        invariant unchanged(this)
      {
        CellsNext([Some(timestamp)], buyLevels, sellLevels, i);
        record := record + [
          PriceCell(buyLevels, i), SharesCell(buyLevels, i), PriceCell(sellLevels, i), SharesCell(sellLevels, i)
        ];
        i := i + 1;
      }
      assert Cells(buyLevels, sellLevels, i) == Cells(buyLevels, sellLevels, depth);
      history := history + [record];
    }
  }
}
