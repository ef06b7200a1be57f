/**
 * The replay loop of `reconstruct_orderbook`: read a one-byte message type, read
 * the payload size that type has, decode the payload when the type is one the
 * replay uses, and apply it to the order book of its stock when that stock was
 * selected by an earlier stock directory message.
 *
 * The file is a byte sequence here. `binary.read(n)` near the end of the file
 * returns fewer than `n` bytes; the decoders then fail as `struct.unpack` does,
 * with `StructError`, and the whole replay fails with it. A `KeyError` from an
 * order cancel or replace naming an unknown order fails it too.
 *
 * `Run` is the replay as a function on values; `ReconstructOrderbook` is the loop
 * over `OrderBook` objects, proved to end where `Run` does.
 */
module Reconstruct {
  import opened Wrappers
  import opened Bytes
  import Itch5
  import opened Keys
  import opened BookModel
  import opened OrderBooks

  // ---------------------------------------------------------------------------
  // Message types and payload sizes.

  /** The payload size read after each message type; other bytes read nothing. */
  function PayloadSize(tag: Byte): nat {
    if tag == 'S' as int then 11
    else if tag == 'R' as int then 38
    else if tag == 'H' as int then 24
    else if tag == 'Y' as int then 19
    else if tag == 'L' as int then 25
    else if tag == 'V' as int then 34
    else if tag == 'W' as int then 11
    else if tag == 'K' as int then 27
    else if tag == 'J' as int then 34
    else if tag == 'h' as int then 20
    else if tag == 'A' as int then 35
    else if tag == 'F' as int then 39
    else if tag == 'E' as int then 30
    else if tag == 'C' as int then 35
    else if tag == 'X' as int then 22
    else if tag == 'D' as int then 18
    else if tag == 'U' as int then 34
    else if tag == 'P' as int then 43
    else if tag == 'Q' as int then 39
    else if tag == 'B' as int then 18
    else if tag == 'I' as int then 49
    else 0
  }

  /** The message types whose payload the replay decodes. */
  predicate IsDecoded(tag: Byte) {
    tag in {'R' as int, 'A' as int, 'F' as int, 'E' as int, 'C' as int, 'X' as int, 'D' as int, 'U' as int,
            'P' as int, 'Q' as int}
  }

  function Min(a: nat, b: nat): nat {
    if a <= b then a else b
  }

  // ---------------------------------------------------------------------------
  // Decoded messages.

  datatype ReplayError = StructError | KeyError(ref: nat)

  /** What a decoded message asks of one stock's book. */
  datatype Event =
    | AddEvent(timestamp: nat, ref: nat, side: char, shares: nat, price: nat)
    | ExecuteEvent(timestamp: nat, ref: nat, shares: nat, execPrice: Option<nat>, printable: bool)
    | CancelEvent(timestamp: nat, ref: nat, shares: nat)
    | DeleteEvent(timestamp: nat, ref: nat)
    | ReplaceEvent(timestamp: nat, ref: nat, newRef: nat, shares: nat, price: nat)
    | TradeEvent(timestamp: nat, shares: nat, price: nat)

  datatype Message =
    | Directory(locate: nat, stock: string)
    | BookMessage(locate: nat, event: Event)
    | Skip

  /**
   * Decoding a payload: only the ten decoded types can fail, and they fail
   * exactly when the payload is not the full size (a short final read).
   */
  function Decode(tag: Byte, a: seq<Byte>): (r: Result<Message, ReplayError>)
    ensures r.Failure? <==> IsDecoded(tag) && |a| != PayloadSize(tag)
    ensures r.Failure? ==> r.error == StructError
    ensures !IsDecoded(tag) ==> r == Success(Skip)
  {
    if !IsDecoded(tag) then Success(Skip)
    else if |a| != PayloadSize(tag) then Failure(StructError)
    else if tag == 'R' as int then
      var m := Itch5.ParseStockDirectory(a);
      Success(Directory(m.locate, m.stock))
    else if tag == 'A' as int then
      var m := Itch5.ParseAddOrder(a);
      Success(BookMessage(m.locate, AddEvent(m.timestamp, m.ref, m.side, m.shares, m.price)))
    else if tag == 'F' as int then
      var m := Itch5.ParseAddOrderWithMpid(a);
      Success(BookMessage(m.locate, AddEvent(m.timestamp, m.ref, m.side, m.shares, m.price)))
    else if tag == 'E' as int then
      var m := Itch5.ParseOrderExecuted(a);
      Success(BookMessage(m.locate, ExecuteEvent(m.timestamp, m.ref, m.shares, None, true)))
    else if tag == 'C' as int then
      var m := Itch5.ParseOrderExecutedWithPrice(a);
      Success(BookMessage(m.locate,
        ExecuteEvent(m.timestamp, m.ref, m.shares, Some(m.price), m.printable == 'Y')))
    else if tag == 'X' as int then
      var m := Itch5.ParseOrderCancel(a);
      Success(BookMessage(m.locate, CancelEvent(m.timestamp, m.ref, m.cancelledShares)))
    else if tag == 'D' as int then
      var m := Itch5.ParseOrderDelete(a);
      Success(BookMessage(m.locate, DeleteEvent(m.timestamp, m.ref)))
    else if tag == 'U' as int then
      var m := Itch5.ParseOrderReplace(a);
      Success(BookMessage(m.locate,
        ReplaceEvent(m.timestamp, m.originalRef, m.newRef, m.shares, m.price)))
    else if tag == 'P' as int then
      var m := Itch5.ParseTrade(a);
      Success(BookMessage(m.locate, TradeEvent(m.timestamp, m.shares, m.price)))
    else
      var m := Itch5.ParseCrossTrade(a);
      Success(BookMessage(m.locate, TradeEvent(m.timestamp, m.shares, m.price)))
  }

  // ---------------------------------------------------------------------------
  // The replay on values.

  /** Whether a book message raises `KeyError`: a cancel or a replace of an unknown order. */
  predicate Unknown(b: Book, e: Event) {
    (e.CancelEvent? || e.ReplaceEvent?) && e.ref !in b.orders
  }

  /** What a book message other than a trade does to the orders, before the row is recorded. */
  function Apply(b: Book, e: Event): Book
    requires !e.TradeEvent? && !Unknown(b, e)
  {
    match e
    case AddEvent(timestamp, ref, side, shares, price) =>
      AddOrder(b, Order(timestamp, ref, side, shares, price))
    case ExecuteEvent(timestamp, ref, shares, price, printable) =>
      ProcessTrade(b, timestamp, ref, shares, price, printable)
    case CancelEvent(timestamp, ref, shares) =>
      UpdateShares(b, ref, b.orders[ref].shares - shares)
    case DeleteEvent(timestamp, ref) =>
      RemoveOrder(b, ref)
    case ReplaceEvent(timestamp, ref, newRef, shares, price) =>
      var og := b.orders[ref];
      AddOrder(RemoveOrder(b, og.ref), Order(timestamp, newRef, og.side, shares, price))
  }

  /**
   * One message applied to a selected stock's book. Every book message but a
   * trade ends with `record_state` at the message's timestamp; a cancel or a
   * replace of an order the book does not hold raises `KeyError`.
   */
  function OnEvent(b: Book, e: Event): (r: Result<Book, ReplayError>)
    ensures r.Failure? <==> (e.CancelEvent? || e.ReplaceEvent?) && e.ref !in b.orders
    ensures r.Failure? ==> r.error == KeyError(e.ref)
  {
    if Unknown(b, e) then Failure(KeyError(e.ref))
    else if e.TradeEvent? then Success(RecordTrade(b, e.timestamp, e.shares, e.price))
    else Success(RecordState(Apply(b, e), e.timestamp))
  }

  /**
   * One decoded message applied to the books, keyed by stock locate. The set of
   * selected locates is always the key set of the books: the source adds to
   * both together and removes from neither.
   */
  function Step(books: map<nat, Book>, symbols: set<string>, depth: int, msg: Message)
    : Result<map<nat, Book>, ReplayError>
  {
    match msg
    case Directory(locate, stock) =>
      if stock in symbols then Success(books[locate := NewBook(stock, depth)]) else Success(books)
    case BookMessage(locate, e) =>
      if locate !in books then Success(books)
      else
        var c :- OnEvent(books[locate], e);
        Success(books[locate := c])
    case Skip => Success(books)
  }

  /** Where the message starting at `pos` ends: after its payload, or at the end of the file. */
  function NextPos(data: seq<Byte>, pos: nat): nat
    requires pos < |data|
  {
    Min(pos + 1 + PayloadSize(data[pos]), |data|)
  }

  /** The replay of the messages from byte `pos` on. */
  function Run(data: seq<Byte>, pos: nat, symbols: set<string>, depth: int, books: map<nat, Book>)
    : Result<map<nat, Book>, ReplayError>
    requires pos <= |data|
    decreases |data| - pos
  {
    if pos == |data| then Success(books)
    else
      var next := NextPos(data, pos);
      var msg :- Decode(data[pos], data[pos + 1 .. next]);
      var after :- Step(books, symbols, depth, msg);
      Run(data, next, symbols, depth, after)
  }

  /** A payload that does not decode ends the replay with its error. */
  lemma RunDecodeFails(data: seq<Byte>, pos: nat, symbols: set<string>, depth: int, books: map<nat, Book>)
    requires pos < |data|
    requires Decode(data[pos], data[pos + 1 .. NextPos(data, pos)]).Failure?
    ensures Run(data, pos, symbols, depth, books) == Failure(StructError)
  {
  }

  /** A decoded message is applied, and the replay goes on after it or stops with its error. */
  lemma RunNext(data: seq<Byte>, pos: nat, symbols: set<string>, depth: int, books: map<nat, Book>,
                msg: Message)
    requires pos < |data|
    requires Decode(data[pos], data[pos + 1 .. NextPos(data, pos)]) == Success(msg)
    ensures var r := Step(books, symbols, depth, msg);
      && (r.Failure? ==> Run(data, pos, symbols, depth, books) == Failure(r.error))
      && (r.Success? ==> Run(data, pos, symbols, depth, books) == Run(data, NextPos(data, pos), symbols, depth, r.value))
  {
  }

  /** `reconstruct_orderbook` on the whole file. */
  function Reconstruct(data: seq<Byte>, symbols: set<string>, depth: int)
    : Result<map<nat, Book>, ReplayError>
  {
    Run(data, 0, symbols, depth, map[])
  }

  // ---------------------------------------------------------------------------
  // What the replay does with each kind of message.

  /** A stock directory message decodes to its locate and stripped symbol. */
  lemma DecodeStockDirectory(m: Itch5.StockDirectory)
    requires m.Valid()
    ensures Decode('R' as int, Itch5.EncodeStockDirectory(m)) == Success(Directory(m.locate, m.stock))
  {
    Itch5.StockDirectoryRoundTrip(m);
  }

  /** An add order message, with or without attribution, decodes to the order it adds. */
  lemma DecodeAddOrder(m: Itch5.AddOrder, attribution: seq<Byte>)
    requires m.Valid() && |attribution| == 4
    ensures var e := BookMessage(m.locate, AddEvent(m.timestamp, m.ref, m.side, m.shares, m.price));
      && Decode('A' as int, Itch5.EncodeAddOrder(m)) == Success(e)
      && Decode('F' as int, Itch5.EncodeAddOrder(m) + attribution) == Success(e)
  {
    Itch5.AddOrderRoundTrip(m);
    Itch5.AddOrderWithMpidRoundTrip(m, attribution);
  }

  /** An execution without a price is printable and takes the order's price. */
  lemma DecodeOrderExecuted(m: Itch5.OrderExecuted)
    requires m.Valid()
    ensures Decode('E' as int, Itch5.EncodeOrderExecuted(m))
            == Success(BookMessage(m.locate, ExecuteEvent(m.timestamp, m.ref, m.shares, None, true)))
  {
    Itch5.OrderExecutedRoundTrip(m);
  }

  /** An execution with a price carries it, and is printable exactly when flagged 'Y'. */
  lemma DecodeOrderExecutedWithPrice(m: Itch5.OrderExecutedWithPrice)
    requires m.Valid()
    ensures Decode('C' as int, Itch5.EncodeOrderExecutedWithPrice(m))
            == Success(BookMessage(m.locate,
                 ExecuteEvent(m.timestamp, m.ref, m.shares, Some(m.price), m.printable == 'Y')))
  {
    Itch5.OrderExecutedWithPriceRoundTrip(m);
  }

  lemma DecodeOrderCancel(m: Itch5.OrderCancel)
    requires m.Valid()
    ensures Decode('X' as int, Itch5.EncodeOrderCancel(m))
            == Success(BookMessage(m.locate, CancelEvent(m.timestamp, m.ref, m.cancelledShares)))
  {
    Itch5.OrderCancelRoundTrip(m);
  }

  lemma DecodeOrderDelete(m: Itch5.OrderDelete)
    requires m.Valid()
    ensures Decode('D' as int, Itch5.EncodeOrderDelete(m))
            == Success(BookMessage(m.locate, DeleteEvent(m.timestamp, m.ref)))
  {
    Itch5.OrderDeleteRoundTrip(m);
  }

  lemma DecodeOrderReplace(m: Itch5.OrderReplace)
    requires m.Valid()
    ensures Decode('U' as int, Itch5.EncodeOrderReplace(m))
            == Success(BookMessage(m.locate,
                 ReplaceEvent(m.timestamp, m.originalRef, m.newRef, m.shares, m.price)))
  {
    Itch5.OrderReplaceRoundTrip(m);
  }

  /** A trade message becomes a trade record of its shares and price. */
  lemma DecodeTrade(m: Itch5.Trade)
    requires m.Valid()
    ensures Decode('P' as int, Itch5.EncodeTrade(m))
            == Success(BookMessage(m.locate, TradeEvent(m.timestamp, m.shares, m.price)))
  {
    Itch5.TradeRoundTrip(m);
    TradeDecoded(Itch5.EncodeTrade(m));
  }

  lemma TradeDecoded(a: seq<Byte>)
    requires |a| == 43
    ensures var m := Itch5.ParseTrade(a);
      Decode('P' as int, a) == Success(BookMessage(m.locate, TradeEvent(m.timestamp, m.shares, m.price)))
  {
    var m := Itch5.ParseTrade(a);
    var r := Decode('P' as int, a);
    assert r.Success? && r.value.BookMessage?;
    assert r.value.locate == m.locate;
    assert r.value.event == TradeEvent(m.timestamp, m.shares, m.price);
  }

  /** So does a cross trade message. */
  lemma DecodeCrossTrade(m: Itch5.CrossTrade)
    requires m.Valid()
    ensures Decode('Q' as int, Itch5.EncodeCrossTrade(m))
            == Success(BookMessage(m.locate, TradeEvent(m.timestamp, m.shares, m.price)))
  {
    Itch5.CrossTradeRoundTrip(m);
    CrossTradeDecoded(Itch5.EncodeCrossTrade(m));
  }

  lemma CrossTradeDecoded(a: seq<Byte>)
    requires |a| == 39
    ensures var m := Itch5.ParseCrossTrade(a);
      Decode('Q' as int, a) == Success(BookMessage(m.locate, TradeEvent(m.timestamp, m.shares, m.price)))
  {
    var m := Itch5.ParseCrossTrade(a);
    var r := Decode('Q' as int, a);
    assert r.Success? && r.value.BookMessage?;
    assert r.value.locate == m.locate;
    assert r.value.event == TradeEvent(m.timestamp, m.shares, m.price);
  }

  /** A message type the replay does not decode is stepped over, payload and all;
      an unknown type byte is stepped over alone. */
  lemma SkippedMessage(data: seq<Byte>, pos: nat, symbols: set<string>, depth: int, books: map<nat, Book>)
    requires pos < |data| && !IsDecoded(data[pos])
    ensures Run(data, pos, symbols, depth, books) == Run(data, NextPos(data, pos), symbols, depth, books)
    ensures PayloadSize(data[pos]) == 0 ==> NextPos(data, pos) == pos + 1
  {
    RunNext(data, pos, symbols, depth, books, Skip);
  }

  /** A decoded message cut short by the end of the file fails the replay, whether
      or not its stock is selected: the payload is decoded before the locate is looked at. */
  lemma ShortPayloadFails(data: seq<Byte>, pos: nat, symbols: set<string>, depth: int,
                          books: map<nat, Book>)
    requires pos < |data| && IsDecoded(data[pos]) && |data| < pos + 1 + PayloadSize(data[pos])
    ensures Run(data, pos, symbols, depth, books) == Failure(StructError)
  {
    RunDecodeFails(data, pos, symbols, depth, books);
  }

  /** A message for a stock without a book changes nothing and cannot fail. */
  lemma UnselectedIgnored(books: map<nat, Book>, symbols: set<string>, depth: int, locate: nat, e: Event)
    requires locate !in books
    ensures Step(books, symbols, depth, BookMessage(locate, e)) == Success(books)
  {
  }

  /** A directory message for a selected symbol starts an empty book under its locate,
      replacing any book already there; other books are untouched. */
  lemma DirectoryStartsBook(books: map<nat, Book>, symbols: set<string>, depth: int, locate: nat,
                            stock: string)
    ensures var r := Step(books, symbols, depth, Directory(locate, stock));
      && r.Success?
      && (stock !in symbols ==> r.value == books)
      && (stock in symbols ==>
            && r.value.Keys == books.Keys + {locate}
            && r.value[locate] == NewBook(stock, depth)
            && (forall l :: l in books && l != locate ==> r.value[l] == books[l]))
  {
  }

  /** Every book message but a trade appends one row to the history: the snapshot
      of the book after the message, at the message's timestamp. */
  lemma EventRecordsState(b: Book, e: Event)
    requires !e.TradeEvent? && OnEvent(b, e).Success?
    ensures var c := OnEvent(b, e).value;
      && c.history == b.history + [Snapshot(c, e.timestamp)]
      && c.symbol == b.symbol && c.depth == b.depth
  {
    ApplyFrame(b, e);
    RecordStateRow(Apply(b, e), e.timestamp);
  }

  /** The orders part of a message leaves the symbol, the depth and the history alone. */
  lemma ApplyFrame(b: Book, e: Event)
    requires !e.TradeEvent? && !Unknown(b, e)
    ensures var a := Apply(b, e);
      a.symbol == b.symbol && a.depth == b.depth && a.history == b.history
  {
    if e.ExecuteEvent? {
      ProcessTradeEffect(b, e.timestamp, e.ref, e.shares, e.execPrice, e.printable);
    }
  }

  /** Recording the row after a book change keeps the orders and trades that the change left. */
  lemma OnEventOrders(b: Book, e: Event)
    requires !e.TradeEvent? && !Unknown(b, e)
    ensures OnEvent(b, e).Success?
    ensures var c := OnEvent(b, e).value;
      && c.orders == Apply(b, e).orders && c.buyOrders == Apply(b, e).buyOrders
      && c.sellOrders == Apply(b, e).sellOrders && c.trades == Apply(b, e).trades
  {
    assert OnEvent(b, e) == Success(RecordState(Apply(b, e), e.timestamp));
  }

  /** A trade message only appends a trade record: no order changes and no row is recorded. */
  lemma TradeRecordsTrade(b: Book, timestamp: nat, shares: nat, price: nat)
    ensures OnEvent(b, TradeEvent(timestamp, shares, price))
            == Success(b.(trades := b.trades + [TradeRecord(timestamp, shares, price)]))
  {
  }

  /** A cancel takes the shares off the order and never removes it, even when no
      shares are left (unlike an execution, which removes the order then). */
  lemma CancelKeepsOrder(b: Book, timestamp: nat, r: nat, shares: nat)
    requires r in b.orders
    ensures var c := OnEvent(b, CancelEvent(timestamp, r, shares));
      && c.Success?
      && c.value.orders.Keys == b.orders.Keys
      && c.value.orders[r] == b.orders[r].(shares := b.orders[r].shares - shares)
      && c.value.trades == b.trades
  {
    var e := CancelEvent(timestamp, r, shares);
    var a := UpdateShares(b, r, b.orders[r].shares - shares);
    assert Apply(b, e) == a;
    assert OnEvent(b, e) == Success(RecordState(a, timestamp));
    UpdateSharesEffect(b, r, b.orders[r].shares - shares);
  }

  /** An execution of at least the order's shares removes it. */
  lemma ExecutionRemovesFilledOrder(b: Book, timestamp: nat, r: nat, shares: nat, price: Option<nat>,
                                    printable: bool)
    requires r in b.orders && b.orders[r].shares <= shares
    ensures var c := OnEvent(b, ExecuteEvent(timestamp, r, shares, price, printable));
      && c.Success? && r !in c.value.orders
      && c.value.orders.Keys == b.orders.Keys - {r}
  {
    ProcessTradeEffect(b, timestamp, r, shares, price, printable);
  }

  /** A replace takes the original order out and adds the new reference on the
      same side, with the new shares, price and timestamp. */
  lemma ReplaceMovesOrder(b: Book, timestamp: nat, r: nat, newRef: nat, shares: nat, price: nat)
    requires Consistent(b) && r in b.orders
    ensures var c := OnEvent(b, ReplaceEvent(timestamp, r, newRef, shares, price));
      && c.Success?
      && c.value.orders.Keys == b.orders.Keys - {r} + {newRef}
      && c.value.orders[newRef] == Order(timestamp, newRef, b.orders[r].side, shares, price)
      && (forall q :: q in b.orders && q != r && q != newRef ==> c.value.orders[q] == b.orders[q])
  {
    var e := ReplaceEvent(timestamp, r, newRef, shares, price);
    var og := b.orders[r];
    assert og.ref == r;
    var a := AddOrder(RemoveOrder(b, r), Order(timestamp, newRef, og.side, shares, price));
    assert Apply(b, e) == a;
    assert OnEvent(b, e) == Success(RecordState(a, timestamp));
    RemoveOrderEffect(b, r);
    AddOrderEffect(RemoveOrder(b, r), Order(timestamp, newRef, og.side, shares, price));
  }

  /** On the side maps, a replace takes the original order's key out and files the
      new order under its own key on the same side; the other side is untouched. */
  lemma ReplaceMovesKey(b: Book, timestamp: nat, r: nat, newRef: nat, shares: nat, price: nat)
    requires Consistent(b) && r in b.orders
    ensures var a := Apply(b, ReplaceEvent(timestamp, r, newRef, shares, price));
      var og := b.orders[r];
      var n := Order(timestamp, newRef, og.side, shares, price);
      && SideOf(a, og).Keys == SideOf(b, og).Keys - {KeyOf(og)} + {KeyOf(n)}
      && SideOf(a, og)[KeyOf(n)] == n
      && (forall k :: k in SideOf(a, og) && k != KeyOf(n) ==> SideOf(a, og)[k] == SideOf(b, og)[k])
      && OtherSideOf(a, og) == OtherSideOf(b, og)
  {
    var og := b.orders[r];
    assert og.ref == r;
    var n := Order(timestamp, newRef, og.side, shares, price);
    assert Apply(b, ReplaceEvent(timestamp, r, newRef, shares, price)) == AddOrder(RemoveOrder(b, r), n);
    RemoveOrderEffect(b, r);
    AddOrderEffect(RemoveOrder(b, r), n);
  }

  /** The orders part of every book message but a trade keeps the book consistent. */
  lemma ApplyConsistent(b: Book, e: Event)
    requires Consistent(b) && !e.TradeEvent? && !Unknown(b, e)
    ensures Consistent(Apply(b, e)) && Apply(b, e).symbol == b.symbol && Apply(b, e).depth == b.depth
  {
    match e
    case AddEvent(timestamp, ref, side, shares, price) =>
      AddOrderConsistent(b, Order(timestamp, ref, side, shares, price));
    case ExecuteEvent(timestamp, ref, shares, price, printable) =>
      ProcessTradeConsistent(b, timestamp, ref, shares, price, printable);
      ProcessTradeEffect(b, timestamp, ref, shares, price, printable);
    case CancelEvent(timestamp, ref, shares) =>
      UpdateSharesConsistent(b, ref, b.orders[ref].shares - shares);
    case DeleteEvent(timestamp, ref) =>
      RemoveOrderConsistent(b, ref);
    case ReplaceEvent(timestamp, ref, newRef, shares, price) =>
      var og := b.orders[ref];
      RemoveOrderConsistent(b, og.ref);
      AddOrderConsistent(RemoveOrder(b, og.ref), Order(timestamp, newRef, og.side, shares, price));
  }

  /** Every book message keeps a book consistent, its symbol and its depth. */
  lemma OnEventConsistent(b: Book, e: Event)
    requires Consistent(b) && OnEvent(b, e).Success?
    ensures var c := OnEvent(b, e).value;
      Consistent(c) && c.symbol == b.symbol && c.depth == b.depth
  {
    if e.TradeEvent? {
      RecordsKeepConsistent(b, e.timestamp, e.shares, e.price);
    } else {
      ApplyConsistent(b, e);
      RecordsKeepConsistent(Apply(b, e), e.timestamp, 0, 0);
    }
  }

  /** The replay's invariant: every book is consistent, and was started for a
      selected symbol at the requested depth. */
  predicate Books(books: map<nat, Book>, symbols: set<string>, depth: int) {
    forall l :: l in books ==>
      Consistent(books[l]) && books[l].symbol in symbols && books[l].depth == depth
  }

  lemma StepKeepsBooks(books: map<nat, Book>, symbols: set<string>, depth: int, msg: Message)
    requires Books(books, symbols, depth) && Step(books, symbols, depth, msg).Success?
    ensures Books(Step(books, symbols, depth, msg).value, symbols, depth)
    ensures books.Keys <= Step(books, symbols, depth, msg).value.Keys
  {
    match msg
    case Directory(locate, stock) =>
      NewBookClean(stock, depth);
    case BookMessage(locate, e) =>
      if locate in books {
        OnEventConsistent(books[locate], e);
      }
    case Skip =>
  }

  /** No book is ever dropped, and every book stays consistent. */
  lemma {:induction false} RunKeepsBooks(data: seq<Byte>, pos: nat, symbols: set<string>, depth: int,
                                         books: map<nat, Book>)
    requires pos <= |data| && Books(books, symbols, depth)
    requires Run(data, pos, symbols, depth, books).Success?
    ensures Books(Run(data, pos, symbols, depth, books).value, symbols, depth)
    ensures books.Keys <= Run(data, pos, symbols, depth, books).value.Keys
    decreases |data| - pos
  {
    if pos < |data| {
      var msg := Decode(data[pos], data[pos + 1 .. NextPos(data, pos)]).value;
      RunNext(data, pos, symbols, depth, books, msg);
      StepKeepsBooks(books, symbols, depth, msg);
      RunKeepsBooks(data, NextPos(data, pos), symbols, depth, Step(books, symbols, depth, msg).value);
    }
  }

  /** Every book `reconstruct_orderbook` returns is consistent and belongs to a selected symbol. */
  lemma ReconstructBooks(data: seq<Byte>, symbols: set<string>, depth: int)
    requires Reconstruct(data, symbols, depth).Success?
    ensures Books(Reconstruct(data, symbols, depth).value, symbols, depth)
  {
    RunKeepsBooks(data, 0, symbols, depth, map[]);
  }

  // ---------------------------------------------------------------------------
  // The replay over objects.

  /** The books' states, by locate. */
  ghost function Snap(books: map<nat, OrderBook>): map<nat, Book>
    reads books.Values
  {
    map l | l in books :: books[l].State()
  }

  ghost predicate Distinct(books: map<nat, OrderBook>) {
    forall l, k :: l in books && k in books && l != k ==> books[l] != books[k]
  }

  /** The branches of the replay loop for a message on a selected stock. */
  method ApplyEvent(book: OrderBook, e: Event) returns (err: Option<ReplayError>)
    modifies book
    ensures var r := OnEvent(old(book.State()), e);
      && (r.Success? <==> err.None?)
      && (r.Success? ==> book.State() == r.value)
      && (r.Failure? ==> err == Some(r.error))
  {
    ghost var s0 := book.State();
    match e
    case AddEvent(timestamp, ref, side, shares, price) =>
      book.AddOrder(Order(timestamp, ref, side, shares, price));
      assert book.State() == Apply(s0, e);
      book.RecordState(timestamp);
      err := None;
    case ExecuteEvent(timestamp, ref, shares, price, printable) =>
      book.ProcessTrade(timestamp, ref, shares, price, printable);
      assert book.State() == Apply(s0, e);
      book.RecordState(timestamp);
      err := None;
    case CancelEvent(timestamp, ref, shares) =>
      if ref !in book.orders {
        return Some(KeyError(ref));
      }
      var order := book.orders[ref];
      book.UpdateShares(ref, order.shares - shares);
      assert book.State() == Apply(s0, e);
      book.RecordState(timestamp);
      err := None;
    case DeleteEvent(timestamp, ref) =>
      book.RemoveOrder(ref);
      assert book.State() == Apply(s0, e);
      book.RecordState(timestamp);
      err := None;
    case ReplaceEvent(timestamp, ref, newRef, shares, price) =>
      if ref !in book.orders {
        return Some(KeyError(ref));
      }
      var og := book.orders[ref];
      book.RemoveOrder(og.ref);
      book.AddOrder(Order(timestamp, newRef, og.side, shares, price));
      assert book.State() == Apply(s0, e);
      book.RecordState(timestamp);
      err := None;
    case TradeEvent(timestamp, shares, price) =>
      book.RecordTrade(timestamp, shares, price);
      err := None;
  }

  /** A directory message: a selected symbol gets a new, empty book under its locate. */
  method OpenBook(selected: set<nat>, books: map<nat, OrderBook>, symbols: set<string>, depth: int,
                  locate: nat, stock: string)
    returns (selected': set<nat>, books': map<nat, OrderBook>)
    requires selected == books.Keys && Distinct(books)
    ensures selected' == books'.Keys && Distinct(books')
    ensures forall l :: l in books' ==> (l in books && books'[l] == books[l]) || fresh(books'[l])
    ensures Snap(books') == if stock in symbols then Snap(books)[locate := NewBook(stock, depth)] else Snap(books)
  {
    selected', books' := selected, books;
    if stock in symbols {
      selected' := selected + {locate};
      var book := new OrderBook(stock, depth);
      books' := books[locate := book];
      assert Snap(books') == Snap(books)[locate := NewBook(stock, depth)];
    }
  }

  /** A book message: applied to its stock's book when the stock is selected, ignored otherwise. */
  method RouteEvent(books: map<nat, OrderBook>, symbols: set<string>, depth: int, locate: nat, e: Event)
    returns (err: Option<ReplayError>)
    requires Distinct(books)
    modifies books.Values
    ensures var r := Step(old(Snap(books)), symbols, depth, BookMessage(locate, e));
      && (r.Success? <==> err.None?)
      && (r.Success? ==> Snap(books) == r.value)
      && (r.Failure? ==> err == Some(r.error))
  {
    ghost var before := Snap(books);
    err := None;
    if locate in books {
      var book := books[locate];
      err := ApplyEvent(book, e);
      if err.None? {
        forall l | l in books
          ensures Snap(books)[l] == before[locate := book.State()][l]
        {
          if l != locate {
            assert books[l] != book;
          }
        }
      }
    }
  }

  /** The branches of the replay loop for a decoded message. */
  method Dispatch(selected: set<nat>, books: map<nat, OrderBook>, symbols: set<string>, depth: int,
                  msg: Message)
    returns (selected': set<nat>, books': map<nat, OrderBook>, err: Option<ReplayError>)
    requires selected == books.Keys && Distinct(books)
    modifies books.Values
    ensures selected' == books'.Keys && Distinct(books')
    ensures forall l :: l in books' ==> (l in books && books'[l] == books[l]) || fresh(books'[l])
    ensures var r := Step(old(Snap(books)), symbols, depth, msg);
      && (r.Success? <==> err.None?)
      && (r.Success? ==> Snap(books') == r.value)
      && (r.Failure? ==> err == Some(r.error))
  {
    selected', books', err := selected, books, None;
    match msg {
      case Directory(locate, stock) =>
        selected', books' := OpenBook(selected, books, symbols, depth, locate, stock);
      case BookMessage(locate, e) =>
        err := RouteEvent(books, symbols, depth, locate, e);
      case Skip =>
    }
  }

  /** `reconstruct_orderbook`: the books of the selected stocks, by locate, or the error raised. */
  method ReconstructOrderbook(data: seq<Byte>, symbols: set<string>, depth: int)
    returns (result: Result<map<nat, OrderBook>, ReplayError>)
    ensures result.Success? <==> Reconstruct(data, symbols, depth).Success?
    ensures result.Failure? ==> result.error == Reconstruct(data, symbols, depth).error
    ensures result.Success? ==>
      && (forall l :: l in result.value ==> fresh(result.value[l]))
      && Snap(result.value) == Reconstruct(data, symbols, depth).value
  {
    var selected: set<nat> := {};
    var books: map<nat, OrderBook> := map[];
    var pos := 0;
    while pos < |data|
      invariant pos <= |data|
      invariant selected == books.Keys
      invariant forall l :: l in books ==> fresh(books[l])
      invariant Distinct(books)
      invariant Run(data, pos, symbols, depth, Snap(books)) == Reconstruct(data, symbols, depth)
      decreases |data| - pos
    {
      var next := NextPos(data, pos);
      ghost var before := Snap(books);
      var msg := Decode(data[pos], data[pos + 1 .. next]);
      if msg.Failure? {
        RunDecodeFails(data, pos, symbols, depth, before);
        return Failure(msg.error);
      }
      RunNext(data, pos, symbols, depth, before, msg.value);
      var err;
      selected, books, err := Dispatch(selected, books, symbols, depth, msg.value);
      if err.Some? {
        return Failure(err.value);
      }
      pos := next;
    }
    return Success(books);
  }
}
