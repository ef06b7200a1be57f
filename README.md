# ITCH 5.0 order-book reconstruction, modelled in Dafny

The repository replays a NASDAQ TotalView-ITCH 5.0 file and rebuilds a limit
order book for each selected stock:

- **`parse_itch5.py`** decodes the fixed-layout, big-endian payload of each
  message type the replay uses.
- **`orderbook.py`** keeps one stock's book:
  - the live orders by reference number;
  - two sorted maps keyed `(price, timestamp, ref)`, with the bid price negated
    so the highest bid comes first;
  - a trade list;
  - a history with one row per add, execute, cancel, delete or replace message
    of its stock, even one naming an unknown order and changing nothing (the
    timestamp, then bid price, bid shares, ask price and ask shares for each of
    `depth` levels).
- **`reconstruct.py`** reads one type byte and then that type's payload, over
  and over:
  - a stock directory message for a selected symbol opens a new book under its
    locate code;
  - add, execute, cancel, delete and replace messages change the book of their
    locate code and record a history row;
  - trade and cross-trade messages record a trade.

The Dafny project has one module per concern:

| file | module | contents |
|---|---|---|
| `wrappers.dfy` | `Wrappers` | `Option` and `Result` |
| `bytes.dfy` | `Bytes` | Bytes as `nat < 256`. Big-endian unsigned integers, the `'!'` formats of `struct`. Byte-to-character decoding. Python's `str.strip()`. |
| `itch5.dfy` | `Itch5` | One record, parser and encoder per message type of `parse_itch5.py`. Each pair is proved to round-trip. |
| `keys.dfy` | `Keys` | The book's keys, Python's tuple order on them, and the keys of a map listed in that order (`SortedKeys`, what a `SortedDict` iterates). |
| `levels.dfy` | `Levels` | `_accumulate_order_levels` as written (`Accumulate`), proved equal to an independent reference: runs of equal prices, cut to `depth` (`Cap(Groups(..))`). |
| `book_model.dfy` | `BookModel` | The book as a value and every `OrderBook` operation as a function on it. Also the invariants the operations keep and the layout of a history row. |
| `orderbook.dfy` | `OrderBooks` | `class OrderBook`, whose methods update its fields in place. Each method is proved to leave the state its `BookModel` function gives. |
| `reconstruct.dfy` | `Reconstruct` | The replay loop twice: as a function on values (`Run`, `Reconstruct`), and as a method over `OrderBook` objects (`ReconstructOrderbook`). The method is proved to agree with the function. |

Prices are the raw 4-byte ITCH fields, in units of 1/10000 of a dollar. The
source divides them by 10000 as floats. The model keeps the integer, so price
comparisons and level merging are exact.

The `depth`-th (last) level of a snapshot is computed as the source writes it:
- the loop in `_accumulate_order_levels` stops as soon as `depth` levels exist;
- that level therefore carries only its first order's shares, while every other
  level carries the total of its price;
- `Levels.CapLevel`, `Levels.LevelTotals` and `Levels.LastLevelCountsFirstOrder`
  state this.

## Model

| member | source | states |
|---|---|---|
| Bytes.FromToBigEndian | parse_itch5.py:56 | Reading back the `w`-byte big-endian form of an integer below 256^w gives that integer. This is the unsigned `H`/`I`/`L`/`Q` fields of `struct.unpack('!…')`. |
| Bytes.ToFromBigEndian | parse_itch5.py:56 | Writing a decoded big-endian integer back at its width gives the original bytes. |
| Bytes.DecodeEncode | parse_itch5.py:58 | `bytes.decode()` undoes `str.encode()` on text whose characters each take one byte. |
| Bytes.EncodeDecode | parse_itch5.py:58 | Decoding bytes gives one-byte characters, and encoding them gives the bytes back. |
| Bytes.RStrip | parse_itch5.py:58 | The result is a prefix of the text. Everything dropped is whitespace. The result does not end in whitespace. |
| Bytes.Strip | parse_itch5.py:58 | `str.strip()` gives text no longer than its input, with no whitespace at either end. |
| Bytes.StripPadded | parse_itch5.py:58 | Stripping a stripped text padded on the right with spaces gives the text back (the 8-byte stock field). |
| Bytes.StripSpaces | parse_itch5.py:58 | A field of spaces strips to the empty string. |
| Bytes.StripInfix | parse_itch5.py:58 | `str.strip()` removes only whitespace and only at the ends: the result is a slice of the input with whitespace before and after it. |
| Bytes.StripKeepsByteText | parse_itch5.py:58 | Stripping keeps every character within one byte. |
| Itch5.UIntAt | parse_itch5.py:86 | A `w`-byte field holds a value below 256^w. |
| Itch5.UIntBytes | parse_itch5.py:86 | Re-encoding a decoded numeric field at its width gives back its bytes. |
| Itch5.AlphaAt | parse_itch5.py:89 | A decoded and stripped alpha field is at most `w` characters of one-byte text with no whitespace at either end. |
| Itch5.AlphaRoundTrip | parse_itch5.py:89 | A stripped text padded to `w` bytes decodes and strips back to itself. |
| Itch5.ParseStockDirectory | parse_itch5.py:56-59 | Every 38-byte payload parses to a well-formed stock directory record, with the stock symbol stripped. |
| Itch5.StockDirectoryRoundTrip | parse_itch5.py:56-59 | Parsing an encoded stock directory record gives the record back. |
| Itch5.StockDirectoryNumbers | parse_itch5.py:56-59 | Locate, tracking number, round lot size and ETP leverage factor survive encoding and parsing. |
| Itch5.StockDirectoryTexts | parse_itch5.py:56-59 | Timestamp bytes, symbol and issue sub-type survive encoding and parsing. |
| Itch5.StockDirectoryFlags | parse_itch5.py:56 | Each one-byte flag sits at its ITCH offset in the 38-byte payload. |
| Itch5.ParseAddOrder | parse_itch5.py:86-92 | Every 35-byte payload parses to a well-formed add-order record. The timestamp is a 6-byte big-endian integer, the side a one-byte character, the symbol stripped. |
| Itch5.AddOrderRoundTrip | parse_itch5.py:86-92 | Parsing an encoded add-order record gives the record back. |
| Itch5.ParseAddOrderWithMpid | parse_itch5.py:122-129 | Every 39-byte payload parses to a well-formed add-order record. |
| Itch5.AddOrderWithMpidIgnoresAttribution | parse_itch5.py:122-129 | The MPID form parses exactly as the plain form does on its first 35 bytes. The attribution is dropped. |
| Itch5.AddOrderWithMpidRoundTrip | parse_itch5.py:122-129 | An encoded add order followed by any 4-byte attribution parses back to the record. |
| Itch5.ParseOrderExecuted | parse_itch5.py:152-155 | Every 30-byte payload parses to a well-formed order-executed record. |
| Itch5.OrderExecutedRoundTrip | parse_itch5.py:152-155 | Parsing an encoded order-executed record gives the record back. |
| Itch5.OrderExecutedBytes | parse_itch5.py:152-155 | Encoding a parsed 30-byte payload gives the payload back: no byte is lost. |
| Itch5.ParseOrderExecutedWithPrice | parse_itch5.py:184-189 | Every 35-byte payload parses to a well-formed record with a one-byte printable flag. |
| Itch5.OrderExecutedWithPriceRoundTrip | parse_itch5.py:184-189 | Parsing an encoded executed-with-price record gives the record back. |
| Itch5.OrderExecutedWithPriceBytes | parse_itch5.py:184-189 | Encoding a parsed 35-byte payload gives the payload back. |
| Itch5.ExecutedWithPriceExtendsExecuted | parse_itch5.py:184-189 | The executed-with-price layout begins with the order-executed layout: the first six fields agree. |
| Itch5.ParseOrderCancel | parse_itch5.py:211-214 | Every 22-byte payload parses to a well-formed order-cancel record. |
| Itch5.OrderCancelRoundTrip | parse_itch5.py:211-214 | Parsing an encoded order-cancel record gives the record back. |
| Itch5.OrderCancelBytes | parse_itch5.py:211-214 | Encoding a parsed 22-byte payload gives the payload back. |
| Itch5.ParseOrderDelete | parse_itch5.py:235-238 | Every 18-byte payload parses to a well-formed order-delete record. |
| Itch5.OrderDeleteRoundTrip | parse_itch5.py:235-238 | Parsing an encoded order-delete record gives the record back. |
| Itch5.OrderDeleteBytes | parse_itch5.py:235-238 | Encoding a parsed 18-byte payload gives the payload back. |
| Itch5.DeleteFieldsLeadCancelAndExecuted | parse_itch5.py:235-238 | The delete layout is the common head of the cancel and executed layouts. |
| Itch5.ParseOrderReplace | parse_itch5.py:264-268 | Every 34-byte payload parses to a well-formed order-replace record. |
| Itch5.OrderReplaceRoundTrip | parse_itch5.py:264-268 | Parsing an encoded order-replace record gives the record back. |
| Itch5.OrderReplaceBytes | parse_itch5.py:264-268 | Encoding a parsed 34-byte payload gives the payload back. |
| Itch5.ParseTrade | parse_itch5.py:296-302 | Every 43-byte payload parses to a well-formed trade record, with the symbol stripped. |
| Itch5.TradeRoundTrip | parse_itch5.py:296-302 | Parsing an encoded trade record gives the record back. |
| Itch5.ParseCrossTrade | parse_itch5.py:329-334 | Every 39-byte payload parses to a well-formed cross-trade record with an 8-byte share count. |
| Itch5.CrossTradeRoundTrip | parse_itch5.py:329-334 | Parsing an encoded cross-trade record gives the record back. |
| Itch5.CrossTradeStock | parse_itch5.py:329-334 | Symbol and cross type survive encoding and parsing. |
| Itch5.CrossTradeNumbers | parse_itch5.py:329-334 | Locate, tracking, timestamp, shares, price and match number survive encoding and parsing. |
| Keys.LessTotal | orderbook.py:90-93 | Tuple order on keys is total and asymmetric. |
| Keys.SortedKeysSorted | orderbook.py:153 | The iteration order of a sorted map lists exactly its keys, each once, in strictly increasing tuple order. |
| Keys.IncreasingPrices | orderbook.py:153 | Along that order the price component never decreases. |
| Levels.AccumulateIsCap | orderbook.py:152-162 | The level loop computes the first `depth` runs of equal prices. Each level holds its run's total, except the `depth`-th, which holds its run's first quote. |
| Levels.AccumulateLength | orderbook.py:155-161 | There are `min(depth, number of distinct price runs)` levels, and none when `depth <= 0`. |
| Levels.CapLevel | orderbook.py:155-161 | Level `i` has its run's price. Its shares are the run's total, or only the first quote's when `i` is the `depth`-th level. |
| Levels.GroupsDistinct | orderbook.py:156 | When equal prices are adjacent, no two levels share a price. |
| Levels.GroupsAscend | orderbook.py:156 | Non-decreasing quote prices give strictly ascending levels. |
| Levels.GroupsDescend | orderbook.py:156 | Non-increasing quote prices give strictly descending levels. |
| Levels.GroupTotals | orderbook.py:156-159 | With equal prices adjacent, a run's total is the sum of the shares of every quote at its price. |
| Levels.LevelTotals | orderbook.py:152-162 | Every level but the `depth`-th carries the total shares quoted at its price. |
| Levels.LastLevelCountsFirstOrder | orderbook.py:155-161 | Two orders at one price with `depth` 1 give a single level of 10 shares, not the 15 quoted. |
| BookModel.UpdateOrder | orderbook.py:33-52 | Each field given a new value takes it. A field passed `None` keeps its value. Reference and side never change. |
| BookModel.NewBook | orderbook.py:56-78 | A new book has its symbol and depth and no orders, trades or history. |
| BookModel.AddOrderEffect | orderbook.py:80-94 | The order is indexed by its reference and filed under its key on its side. The other side, the other entries, trades and history are unchanged. |
| BookModel.RemoveOrderEffect | orderbook.py:96-110 | An unknown reference changes nothing. A known one leaves `orders`, and the key built from its price, timestamp and reference leaves its side. Nothing else changes. |
| BookModel.UpdateSharesEffect | reconstruct.py:106-107 | Only the order's shares change, in `orders` and in its side entry alike. All keys stay, and the other side map is untouched. |
| BookModel.ProcessTradeEffect | orderbook.py:112-139 | An unknown reference changes nothing. A known order stays exactly when fewer shares are executed than it holds, and then has the remainder. A trade is recorded only when printable, at the given price or else the order's price. On a full fill the key built from the order's price, timestamp and reference leaves its side map. Otherwise the side map keeps its keys and the entry under the order's key holds the remaining shares. Every other side entry, and the other side, is unchanged. |
| BookModel.RecordTrade | orderbook.py:164-179 | The trade is appended and nothing else changes. |
| BookModel.RecordState | orderbook.py:181-201 | One row is appended to the history and nothing else changes. |
| BookModel.RecordStateRow | orderbook.py:181-201 | The appended row is the snapshot of the book at that timestamp. |
| BookModel.SnapshotLayout | orderbook.py:191-200 | A row has `1 + 4 * depth` cells: the timestamp, then per level bid price, bid shares, ask price, ask shares. A level's cells are `None` exactly when the side has no price run at that level. |
| BookModel.QuotesInKeyOrder | orderbook.py:153-154 | The quotes a side yields list each of its orders exactly once, in strictly increasing key order, as the absolute key price and the order's shares. |
| BookModel.BuyQuotesDescend | orderbook.py:89-91 | Negated keys make the bid quotes come highest price first. |
| BookModel.SellQuotesAscend | orderbook.py:92-94 | Ask quotes come lowest price first. |
| BookModel.BuyLevelsDescend | orderbook.py:188 | Bid levels are at most `depth` and strictly descending in price. |
| BookModel.SellLevelsAscend | orderbook.py:189 | Ask levels are at most `depth` and strictly ascending in price. |
| BookModel.BuyLevelTotals | orderbook.py:188 | Each bid level but the last carries all shares bid at its price. |
| BookModel.SellLevelTotals | orderbook.py:189 | Each ask level but the last carries all shares offered at its price. |
| BookModel.NewBookClean | orderbook.py:72-78 | A new book is consistent and has no stale side entries. |
| BookModel.RecordsKeepConsistent | orderbook.py:164-201 | Recording a trade or a state keeps a book consistent. |
| BookModel.AddOrderConsistent | orderbook.py:80-94 | Adding any order keeps every order indexed under its reference and its key. |
| BookModel.AddFreshOrderClean | orderbook.py:80-94 | Adding an order with a new reference leaves no stale side entry. |
| BookModel.DuplicateAddLeavesStale | orderbook.py:87-91 | A second add with a used reference replaces the indexed order but leaves the first order's key in the side map, where snapshots still count it. |
| BookModel.SortedPair | orderbook.py:153 | Two keys in tuple order are iterated in that order. |
| BookModel.RemoveOrderConsistent | orderbook.py:96-110 | Removing keeps the book consistent. |
| BookModel.RemoveOrderClean | orderbook.py:96-110 | In a clean book, removing an order takes its side entry too. |
| BookModel.AddThenRemove | orderbook.py:80-110 | In a clean book, adding an order with a new reference and removing it restores the book. |
| BookModel.UpdateSharesConsistent | orderbook.py:49-50 | A shares update keeps the book consistent. |
| BookModel.UpdateSharesClean | orderbook.py:49-50 | A shares update keeps a clean book clean. |
| BookModel.ExecuteConsistent | orderbook.py:130-136 | Executing against a known order keeps the book consistent. |
| BookModel.ExecuteClean | orderbook.py:130-136 | Executing against a known order keeps a clean book clean. |
| BookModel.ProcessTradeConsistent | orderbook.py:112-139 | `process_trade` keeps the book consistent. |
| BookModel.ProcessTradeClean | orderbook.py:112-139 | `process_trade` keeps a clean book clean. |
| BookModel.ExactlyOneKey | orderbook.py:87-94 | In a clean book a live order has exactly one side entry, under its own key. |
| OrderBooks.OrderBook.constructor | orderbook.py:56-78 | The new object's state is the empty book of its symbol and depth. |
| OrderBooks.OrderBook.AddOrder | orderbook.py:80-94 | The fields are updated in place to `BookModel.AddOrder` of the old state. |
| OrderBooks.OrderBook.RemoveOrder | orderbook.py:96-110 | The fields are updated in place to `BookModel.RemoveOrder` of the old state. |
| OrderBooks.OrderBook.UpdateShares | orderbook.py:49-50 | The shared order object's shares change, in both maps. |
| OrderBooks.OrderBook.ProcessTrade | orderbook.py:112-139 | The fields are updated in place to `BookModel.ProcessTrade` of the old state. |
| OrderBooks.OrderBook.AccumulateOrderLevels | orderbook.py:141-162 | The loop with its early `break` returns the side's levels, `Accumulate` of its quotes in key order. |
| OrderBooks.OrderBook.RecordTrade | orderbook.py:164-179 | The trade list is extended in place. |
| OrderBooks.OrderBook.RecordState | orderbook.py:181-201 | The row-building loop appends the snapshot row and changes nothing else. |
| Reconstruct.Decode | reconstruct.py:51-138 | A payload of a decoded type fails with a struct error exactly when it is short. Every other type is skipped. |
| Reconstruct.OnEvent | reconstruct.py:76-134 | A book message fails with `KeyError` exactly when it is a cancel or replace of an unknown reference. |
| Reconstruct.RunDecodeFails | reconstruct.py:48-142 | A payload that fails to decode fails the whole replay with a struct error. |
| Reconstruct.RunNext | reconstruct.py:48-142 | After a decoded message the replay continues from the next type byte on the stepped books, or fails with the step's error. |
| Reconstruct.SkippedMessage | reconstruct.py:51-75 | A message the replay does not decode changes nothing. An unknown type byte reads no payload. |
| Reconstruct.ShortPayloadFails | reconstruct.py:53-134 | A decoded type whose payload runs past the end of the file fails the replay with a struct error. |
| Reconstruct.DecodeStockDirectory | reconstruct.py:53-58 | An encoded stock directory decodes to its locate code and symbol. |
| Reconstruct.DecodeAddOrder | reconstruct.py:76-89 | `A` and `F` messages of the same order give the same add event. |
| Reconstruct.DecodeOrderExecuted | reconstruct.py:90-95 | An `E` message is a printable execution with no price. |
| Reconstruct.DecodeOrderExecutedWithPrice | reconstruct.py:96-101 | A `C` message is an execution at its own price, printable exactly when the flag is `'Y'`. |
| Reconstruct.DecodeOrderCancel | reconstruct.py:102-108 | An `X` message decodes to a cancel of its shares. |
| Reconstruct.DecodeOrderDelete | reconstruct.py:109-114 | A `D` message decodes to a delete of its reference. |
| Reconstruct.DecodeOrderReplace | reconstruct.py:115-124 | A `U` message decodes to a replace with its new reference, shares and price. |
| Reconstruct.DecodeTrade | reconstruct.py:125-129 | A `P` message records its shares at its price. |
| Reconstruct.TradeDecoded | reconstruct.py:125-129 | Every full `P` payload decodes to the trade of its parsed fields. |
| Reconstruct.DecodeCrossTrade | reconstruct.py:130-134 | A `Q` message records its shares at its cross price. |
| Reconstruct.CrossTradeDecoded | reconstruct.py:130-134 | Every full `Q` payload decodes to the trade of its parsed fields. |
| Reconstruct.UnselectedIgnored | reconstruct.py:79-133 | A book message for a locate code with no book changes nothing. |
| Reconstruct.DirectoryStartsBook | reconstruct.py:53-58 | A directory message for a selected symbol opens a fresh book under its locate code, replacing any earlier one. Other books are untouched. An unselected symbol changes nothing. |
| Reconstruct.EventRecordsState | reconstruct.py:76-124 | Every book-changing message appends the snapshot of the changed book at the message's timestamp. |
| Reconstruct.ApplyFrame | reconstruct.py:76-124 | The book changes keep its symbol, depth and history. |
| Reconstruct.TradeRecordsTrade | reconstruct.py:125-134 | A trade message appends one trade and changes nothing else. |
| Reconstruct.CancelKeepsOrder | reconstruct.py:102-108 | A cancel keeps the order, even at zero shares, with its shares reduced. Trades are untouched. |
| Reconstruct.ExecutionRemovesFilledOrder | reconstruct.py:90-101 | An execution of at least the order's shares removes the order. |
| Reconstruct.ReplaceMovesOrder | reconstruct.py:115-124 | A replace removes the old reference and adds the new one on the same side, with the new timestamp, shares and price. |
| Reconstruct.ReplaceMovesKey | reconstruct.py:119-123 | A replace takes the original order's key out of its side map and files the new order under its own key on the same side. Every other entry, and the other side, is unchanged. |
| Reconstruct.OnEventOrders | reconstruct.py:76-124 | Recording the row after a book change keeps the orders, both side maps and the trades that the change left. |
| Reconstruct.ApplyConsistent | reconstruct.py:76-124 | Each book change keeps the book consistent. |
| Reconstruct.OnEventConsistent | reconstruct.py:76-134 | Every successful book message keeps the book consistent. |
| Reconstruct.StepKeepsBooks | reconstruct.py:49-142 | One message keeps every book consistent, of a selected symbol and of the given depth, and never closes a book. |
| Reconstruct.RunKeepsBooks | reconstruct.py:48-142 | The same holds for the rest of the replay. |
| Reconstruct.ReconstructBooks | reconstruct.py:12-145 | A successful replay yields only consistent books of selected symbols at the requested depth. |
| Reconstruct.ApplyEvent | reconstruct.py:76-134 | The branch for a message on a selected stock updates the book object as `OnEvent` says, or reports its error. |
| Reconstruct.OpenBook | reconstruct.py:53-58 | A selected symbol gets a fresh `OrderBook` under its locate code. The locate set and the book dictionary keep the same keys. |
| Reconstruct.RouteEvent | reconstruct.py:79-134 | A book message reaches only the book of its locate code, if any. |
| Reconstruct.Dispatch | reconstruct.py:49-138 | One pass of the loop body changes the books as `Step` says. |
| Reconstruct.ReconstructOrderbook | reconstruct.py:12-145 | The loop over the file fails exactly when `Reconstruct` fails, with the same error. Otherwise it returns fresh `OrderBook` objects whose states are the books `Reconstruct` computes. |

## Left out

- Prices are integers in 1/10000 dollar, not the source's `float(price) / 10000`. Float rounding is not modelled.
- The file is a byte sequence. Opening it, `os.path.exists` with its `FileNotFoundError`, and `os.path.getsize` are not modelled.
- The `tqdm` progress bar is not modelled: it does not affect the books.
- The `__main__` block and `export_to_csv` (CSV and file-system output) are not modelled.
- `SortedDict` is modelled as a map plus its keys listed in tuple order (`Keys.SortedKeys`). Its internal balancing is not modelled.
- `bytes.decode()` maps each byte to the character of the same code. This agrees with UTF-8 on ASCII, which ITCH alpha fields are. A `UnicodeDecodeError` on bytes above 127 is not modelled. `Bytes.Strip` therefore treats only the ASCII whitespace characters as whitespace.
- `BookModel.UpdateShares`: `Order` objects are values. The aliasing between `orders[ref]` and the side-map entry is modelled by writing the new value to both places.
- `Itch5.ParseStockDirectory` keeps the one-byte flags and the 6-byte timestamp as raw bytes, as the source does. Only the symbol is decoded.
- Messages whose type byte is not one of the 21 listed read no payload and are ignored, as in the source. A truncated payload of a skipped type ends the stream.
