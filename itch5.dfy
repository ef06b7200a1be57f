/**
 * Decoders for the NASDAQ TotalView-ITCH 5.0 messages the order-book replay reads.
 * Each decoder is one `struct.unpack` of a fixed-size `!` (network order, no padding)
 * payload, the message type byte excluded, so field `i` is the bytes from the sum of
 * the widths before it; the decoders below read each field at that offset. Then:
 * - the 6-byte timestamp becomes a big-endian integer (nanoseconds since midnight),
 *   except in the stock directory message, which keeps the raw 6 bytes;
 * - 8-byte alpha fields (stock symbols) are decoded and stripped of their padding;
 * - one-byte `c` fields are decoded to a character where the source decodes them,
 *   and stay a raw byte where it does not;
 * - prices stay raw integers in units of 1/10000 (the source divides them by
 *   10000 into floats).
 * Every decoder has an encoder beside it, and lemmas state the round trips.
 */
module Itch5 {
  import opened Bytes

  // ---------------------------------------------------------------------------
  // Field conversions shared by the decoders.

  /** An unsigned big-endian field (`H`, `I`, `L`, `Q`, or a `6s` timestamp
      passed through `int.from_bytes(..., "big")`) of `w` bytes at offset `off`. */
  function UIntAt(a: seq<Byte>, off: nat, w: nat): (n: nat)
    requires off + w <= |a|
    ensures n < Pow256(w)
  {
    FromBigEndian(a[off..off + w])
  }

  /** A decoded, stripped alpha field of width `w`. */
  predicate IsAlpha(s: string, w: nat) {
    |s| <= w && Stripped(s) && IsByteText(s)
  }

  /** `field.decode().strip()` of the `w`-byte field at offset `off`. */
  function AlphaAt(a: seq<Byte>, off: nat, w: nat): (s: string)
    requires off + w <= |a|
    ensures IsAlpha(s, w)
  {
    var r := Strip(Decode(a[off..off + w]));
    assert IsByteText(r) by {
      EncodeDecode(a[off..off + w]);
      StripKeepsByteText(Decode(a[off..off + w]));
    }
    r
  }

  /** `c.decode()` of the one-byte field at offset `off`. */
  function CharAt(a: seq<Byte>, off: nat): (c: char)
    requires off < |a|
    ensures c < 256 as char
  {
    a[off] as char
  }

  /** A text left-justified and space-padded to `w` bytes, as the exchange sends it. */
  function PadAlpha(s: string, w: nat): (b: seq<Byte>)
    requires IsAlpha(s, w)
    ensures |b| == w
  {
    var padded := s + Spaces(w - |s|);
    assert IsByteText(padded);
    Encode(padded)
  }

  /** Decoding and stripping a padded alpha field gives back the text. */
  lemma AlphaRoundTrip(s: string, w: nat)
    requires IsAlpha(s, w)
    ensures Strip(Decode(PadAlpha(s, w))) == s
  {
    var padded := s + Spaces(w - |s|);
    DecodeEncode(padded);
    StripPadded(s, w - |s|);
  }

  /** The unsigned big-endian field read back from its own encoding. */
  lemma UIntRoundTrip(a: seq<Byte>, off: nat, n: nat, w: nat)
    requires n < Pow256(w) && off + w <= |a| && a[off..off + w] == ToBigEndian(n, w)
    ensures UIntAt(a, off, w) == n
  {
    FromToBigEndian(n, w);
  }

  /** The bytes of a field written back from its decoded value. */
  lemma UIntBytes(a: seq<Byte>, off: nat, w: nat)
    requires off + w <= |a|
    ensures ToBigEndian(UIntAt(a, off, w), w) == a[off..off + w]
  {
    ToFromBigEndian(a[off..off + w]);
  }

  // ---------------------------------------------------------------------------
  // Stock Directory ('R'), format "!HH6s8sccIcc2scccccIc", 38 bytes
  // (section 4.2.1 of the ITCH 5.0 specification).

  /** Only the symbol is decoded; the `c` and `2s` fields stay bytes and the
      timestamp stays its raw 6 bytes. */
  datatype StockDirectory = StockDirectory(
    locate: nat, tracking: nat, timestamp: seq<Byte>, stock: string,
    marketCategory: Byte, financialStatus: Byte, roundLotSize: nat,
    roundLotsOnly: Byte, issueClassification: Byte, issueSubType: seq<Byte>,
    authenticity: Byte, shortSaleThreshold: Byte, ipoFlag: Byte,
    luldReferencePriceTier: Byte, etpFlag: Byte, etpLeverageFactor: nat,
    inverseIndicator: Byte)
  {
    /** What the format allows each field to be. */
    predicate Valid() {
      && locate < Pow256(2) && tracking < Pow256(2) && |timestamp| == 6 && IsAlpha(stock, 8)
      && roundLotSize < Pow256(4) && |issueSubType| == 2 && etpLeverageFactor < Pow256(4)
    }
  }

  function ParseStockDirectory(a: seq<Byte>): (m: StockDirectory)
    requires |a| == 38
    ensures m.Valid()
  {
    StockDirectory(UIntAt(a, 0, 2), UIntAt(a, 2, 2), a[4..10], AlphaAt(a, 10, 8),
      a[18], a[19], UIntAt(a, 20, 4), a[24], a[25], a[26..28], a[28], a[29], a[30],
      a[31], a[32], UIntAt(a, 33, 4), a[37])
  }

  function EncodeStockDirectory(m: StockDirectory): (a: seq<Byte>)
    requires m.Valid()
    ensures |a| == 38
  {
    ToBigEndian(m.locate, 2) + ToBigEndian(m.tracking, 2) + m.timestamp + PadAlpha(m.stock, 8)
    + [m.marketCategory, m.financialStatus] + ToBigEndian(m.roundLotSize, 4)
    + [m.roundLotsOnly, m.issueClassification] + m.issueSubType
    + [m.authenticity, m.shortSaleThreshold, m.ipoFlag, m.luldReferencePriceTier, m.etpFlag]
    + ToBigEndian(m.etpLeverageFactor, 4) + [m.inverseIndicator]
  }

  lemma StockDirectoryRoundTrip(m: StockDirectory)
    requires m.Valid()
    ensures ParseStockDirectory(EncodeStockDirectory(m)) == m
  {
    StockDirectoryNumbers(m);
    StockDirectoryTexts(m);
    StockDirectoryFlags(m);
  }

  lemma StockDirectoryNumbers(m: StockDirectory)
    requires m.Valid()
    ensures var p := ParseStockDirectory(EncodeStockDirectory(m));
            p.locate == m.locate && p.tracking == m.tracking
            && p.roundLotSize == m.roundLotSize && p.etpLeverageFactor == m.etpLeverageFactor
  {
    var a := EncodeStockDirectory(m);
    UIntRoundTrip(a, 0, m.locate, 2);
    UIntRoundTrip(a, 2, m.tracking, 2);
    UIntRoundTrip(a, 20, m.roundLotSize, 4);
    UIntRoundTrip(a, 33, m.etpLeverageFactor, 4);
  }

  lemma StockDirectoryTexts(m: StockDirectory)
    requires m.Valid()
    ensures var p := ParseStockDirectory(EncodeStockDirectory(m));
            p.timestamp == m.timestamp && p.stock == m.stock && p.issueSubType == m.issueSubType
  {
    var a := EncodeStockDirectory(m);
    assert a[4..10] == m.timestamp;
    assert a[10..18] == PadAlpha(m.stock, 8);
    AlphaRoundTrip(m.stock, 8);
    assert a[26..28] == m.issueSubType;
  }

  lemma StockDirectoryFlags(m: StockDirectory)
    requires m.Valid()
    ensures var a := EncodeStockDirectory(m);
            a[18] == m.marketCategory && a[19] == m.financialStatus && a[24] == m.roundLotsOnly
            && a[25] == m.issueClassification && a[28] == m.authenticity
            && a[29] == m.shortSaleThreshold && a[30] == m.ipoFlag
            && a[31] == m.luldReferencePriceTier && a[32] == m.etpFlag
            && a[37] == m.inverseIndicator
  {
  }

  // ---------------------------------------------------------------------------
  // Add Order ('A'), format "!HH6sQcI8sL", 35 bytes (ITCH 5.0 section 4.3.1), and
  // Add Order with MPID Attribution ('F'), format "!HH6sQcI8sL4s", 39 bytes
  // (ITCH 5.0 section 4.3.2), whose decoder drops the attribution and so returns the same fields.

  datatype AddOrder = AddOrder(
    locate: nat, tracking: nat, timestamp: nat, ref: nat, side: char, shares: nat,
    stock: string, price: nat)
  {
    predicate Valid() {
      && locate < Pow256(2) && tracking < Pow256(2) && timestamp < Pow256(6)
      && ref < Pow256(8) && side < 256 as char && shares < Pow256(4) && IsAlpha(stock, 8)
      && price < Pow256(4)
    }
  }

  function ParseAddOrder(a: seq<Byte>): (m: AddOrder)
    requires |a| == 35
    ensures m.Valid()
  {
    AddOrder(UIntAt(a, 0, 2), UIntAt(a, 2, 2), UIntAt(a, 4, 6), UIntAt(a, 10, 8),
      CharAt(a, 18), UIntAt(a, 19, 4), AlphaAt(a, 23, 8), UIntAt(a, 31, 4))
  }

  function ParseAddOrderWithMpid(a: seq<Byte>): (m: AddOrder)
    requires |a| == 39
    ensures m.Valid()
  {
    AddOrder(UIntAt(a, 0, 2), UIntAt(a, 2, 2), UIntAt(a, 4, 6), UIntAt(a, 10, 8),
      CharAt(a, 18), UIntAt(a, 19, 4), AlphaAt(a, 23, 8), UIntAt(a, 31, 4))
  }

  function EncodeAddOrder(m: AddOrder): (a: seq<Byte>)
    requires m.Valid()
    ensures |a| == 35
  {
    ToBigEndian(m.locate, 2) + ToBigEndian(m.tracking, 2) + ToBigEndian(m.timestamp, 6)
    + ToBigEndian(m.ref, 8) + [m.side as int] + ToBigEndian(m.shares, 4)
    + PadAlpha(m.stock, 8) + ToBigEndian(m.price, 4)
  }

  lemma AddOrderRoundTrip(m: AddOrder)
    requires m.Valid()
    ensures ParseAddOrder(EncodeAddOrder(m)) == m
  {
    var a := EncodeAddOrder(m);
    UIntRoundTrip(a, 0, m.locate, 2);
    UIntRoundTrip(a, 2, m.tracking, 2);
    UIntRoundTrip(a, 4, m.timestamp, 6);
    UIntRoundTrip(a, 10, m.ref, 8);
    UIntRoundTrip(a, 19, m.shares, 4);
    assert a[23..31] == PadAlpha(m.stock, 8);
    AlphaRoundTrip(m.stock, 8);
    UIntRoundTrip(a, 31, m.price, 4);
  }

  /** An 'F' message decodes to what its first 35 bytes decode to as an 'A'
      message, whatever its attribution: the replay treats both alike. */
  lemma AddOrderWithMpidIgnoresAttribution(a: seq<Byte>)
    requires |a| == 39
    ensures ParseAddOrderWithMpid(a) == ParseAddOrder(a[..35])
  {
    var b := a[..35];
    assert b[0..2] == a[0..2] && b[2..4] == a[2..4] && b[4..10] == a[4..10];
    assert b[10..18] == a[10..18] && b[19..23] == a[19..23] && b[23..31] == a[23..31];
    assert b[31..35] == a[31..35];
  }

  /** Attaching any attribution to an encoded 'A' payload gives an 'F' payload of the same order. */
  lemma AddOrderWithMpidRoundTrip(m: AddOrder, attribution: seq<Byte>)
    requires m.Valid() && |attribution| == 4
    ensures ParseAddOrderWithMpid(EncodeAddOrder(m) + attribution) == m
  {
    var a := EncodeAddOrder(m) + attribution;
    assert a[..35] == EncodeAddOrder(m);
    AddOrderWithMpidIgnoresAttribution(a);
    AddOrderRoundTrip(m);
  }

  // ---------------------------------------------------------------------------
  // Order Executed ('E'), format "!HH6sQIQ", 30 bytes (ITCH 5.0 section 4.4.1).

  datatype OrderExecuted = OrderExecuted(
    locate: nat, tracking: nat, timestamp: nat, ref: nat, shares: nat, matchNumber: nat)
  {
    predicate Valid() {
      && locate < Pow256(2) && tracking < Pow256(2) && timestamp < Pow256(6)
      && ref < Pow256(8) && shares < Pow256(4) && matchNumber < Pow256(8)
    }
  }

  function ParseOrderExecuted(a: seq<Byte>): (m: OrderExecuted)
    requires |a| == 30
    ensures m.Valid()
  {
    OrderExecuted(UIntAt(a, 0, 2), UIntAt(a, 2, 2), UIntAt(a, 4, 6), UIntAt(a, 10, 8),
      UIntAt(a, 18, 4), UIntAt(a, 22, 8))
  }

  function EncodeOrderExecuted(m: OrderExecuted): (a: seq<Byte>)
    requires m.Valid()
    ensures |a| == 30
  {
    ToBigEndian(m.locate, 2) + ToBigEndian(m.tracking, 2) + ToBigEndian(m.timestamp, 6)
    + ToBigEndian(m.ref, 8) + ToBigEndian(m.shares, 4) + ToBigEndian(m.matchNumber, 8)
  }

  lemma OrderExecutedRoundTrip(m: OrderExecuted)
    requires m.Valid()
    ensures ParseOrderExecuted(EncodeOrderExecuted(m)) == m
  {
    var a := EncodeOrderExecuted(m);
    UIntRoundTrip(a, 0, m.locate, 2);
    UIntRoundTrip(a, 2, m.tracking, 2);
    UIntRoundTrip(a, 4, m.timestamp, 6);
    UIntRoundTrip(a, 10, m.ref, 8);
    UIntRoundTrip(a, 18, m.shares, 4);
    UIntRoundTrip(a, 22, m.matchNumber, 8);
  }

  /** Every 30-byte payload is the encoding of what it decodes to. */
  lemma OrderExecutedBytes(a: seq<Byte>)
    requires |a| == 30
    ensures EncodeOrderExecuted(ParseOrderExecuted(a)) == a
  {
    UIntBytes(a, 0, 2);
    UIntBytes(a, 2, 2);
    UIntBytes(a, 4, 6);
    UIntBytes(a, 10, 8);
    UIntBytes(a, 18, 4);
    UIntBytes(a, 22, 8);
    assert a == a[0..2] + a[2..4] + a[4..10] + a[10..18] + a[18..22] + a[22..30];
  }

  // ---------------------------------------------------------------------------
  // Order Executed with Price ('C'), format "!HH6sQIQcL", 35 bytes (ITCH 5.0 section 4.4.2).

  datatype OrderExecutedWithPrice = OrderExecutedWithPrice(
    locate: nat, tracking: nat, timestamp: nat, ref: nat, shares: nat, matchNumber: nat,
    printable: char, price: nat)
  {
    predicate Valid() {
      && locate < Pow256(2) && tracking < Pow256(2) && timestamp < Pow256(6)
      && ref < Pow256(8) && shares < Pow256(4) && matchNumber < Pow256(8)
      && printable < 256 as char && price < Pow256(4)
    }
  }

  function ParseOrderExecutedWithPrice(a: seq<Byte>): (m: OrderExecutedWithPrice)
    requires |a| == 35
    ensures m.Valid()
  {
    OrderExecutedWithPrice(UIntAt(a, 0, 2), UIntAt(a, 2, 2), UIntAt(a, 4, 6),
      UIntAt(a, 10, 8), UIntAt(a, 18, 4), UIntAt(a, 22, 8), CharAt(a, 30), UIntAt(a, 31, 4))
  }

  function EncodeOrderExecutedWithPrice(m: OrderExecutedWithPrice): (a: seq<Byte>)
    requires m.Valid()
    ensures |a| == 35
  {
    ToBigEndian(m.locate, 2) + ToBigEndian(m.tracking, 2) + ToBigEndian(m.timestamp, 6)
    + ToBigEndian(m.ref, 8) + ToBigEndian(m.shares, 4) + ToBigEndian(m.matchNumber, 8)
    + [m.printable as int] + ToBigEndian(m.price, 4)
  }

  lemma OrderExecutedWithPriceRoundTrip(m: OrderExecutedWithPrice)
    requires m.Valid()
    ensures ParseOrderExecutedWithPrice(EncodeOrderExecutedWithPrice(m)) == m
  {
    var a := EncodeOrderExecutedWithPrice(m);
    UIntRoundTrip(a, 0, m.locate, 2);
    UIntRoundTrip(a, 2, m.tracking, 2);
    UIntRoundTrip(a, 4, m.timestamp, 6);
    UIntRoundTrip(a, 10, m.ref, 8);
    UIntRoundTrip(a, 18, m.shares, 4);
    UIntRoundTrip(a, 22, m.matchNumber, 8);
    UIntRoundTrip(a, 31, m.price, 4);
  }

  lemma OrderExecutedWithPriceBytes(a: seq<Byte>)
    requires |a| == 35
    ensures EncodeOrderExecutedWithPrice(ParseOrderExecutedWithPrice(a)) == a
  {
    UIntBytes(a, 0, 2);
    UIntBytes(a, 2, 2);
    UIntBytes(a, 4, 6);
    UIntBytes(a, 10, 8);
    UIntBytes(a, 18, 4);
    UIntBytes(a, 22, 8);
    UIntBytes(a, 31, 4);
    assert a == a[0..2] + a[2..4] + a[4..10] + a[10..18] + a[18..22] + a[22..30]
      + [a[30]] + a[31..35];
  }

  /** The first 30 bytes of a 'C' payload carry the fields of an 'E' message. */
  lemma ExecutedWithPriceExtendsExecuted(a: seq<Byte>)
    requires |a| == 35
    ensures var c := ParseOrderExecutedWithPrice(a);
            var e := ParseOrderExecuted(a[..30]);
            c.locate == e.locate && c.tracking == e.tracking && c.timestamp == e.timestamp
            && c.ref == e.ref && c.shares == e.shares && c.matchNumber == e.matchNumber
  {
    var b := a[..30];
    assert b[0..2] == a[0..2] && b[2..4] == a[2..4] && b[4..10] == a[4..10];
    assert b[10..18] == a[10..18] && b[18..22] == a[18..22] && b[22..30] == a[22..30];
  }

  // ---------------------------------------------------------------------------
  // Order Cancel ('X'), format "!HH6sQI", 22 bytes (ITCH 5.0 section 4.4.3).

  datatype OrderCancel = OrderCancel(
    locate: nat, tracking: nat, timestamp: nat, ref: nat, cancelledShares: nat)
  {
    predicate Valid() {
      && locate < Pow256(2) && tracking < Pow256(2) && timestamp < Pow256(6)
      && ref < Pow256(8) && cancelledShares < Pow256(4)
    }
  }

  function ParseOrderCancel(a: seq<Byte>): (m: OrderCancel)
    requires |a| == 22
    ensures m.Valid()
  {
    OrderCancel(UIntAt(a, 0, 2), UIntAt(a, 2, 2), UIntAt(a, 4, 6), UIntAt(a, 10, 8),
      UIntAt(a, 18, 4))
  }

  function EncodeOrderCancel(m: OrderCancel): (a: seq<Byte>)
    requires m.Valid()
    ensures |a| == 22
  {
    ToBigEndian(m.locate, 2) + ToBigEndian(m.tracking, 2) + ToBigEndian(m.timestamp, 6)
    + ToBigEndian(m.ref, 8) + ToBigEndian(m.cancelledShares, 4)
  }

  lemma OrderCancelRoundTrip(m: OrderCancel)
    requires m.Valid()
    ensures ParseOrderCancel(EncodeOrderCancel(m)) == m
  {
    var a := EncodeOrderCancel(m);
    UIntRoundTrip(a, 0, m.locate, 2);
    UIntRoundTrip(a, 2, m.tracking, 2);
    UIntRoundTrip(a, 4, m.timestamp, 6);
    UIntRoundTrip(a, 10, m.ref, 8);
    UIntRoundTrip(a, 18, m.cancelledShares, 4);
  }

  lemma OrderCancelBytes(a: seq<Byte>)
    requires |a| == 22
    ensures EncodeOrderCancel(ParseOrderCancel(a)) == a
  {
    UIntBytes(a, 0, 2);
    UIntBytes(a, 2, 2);
    UIntBytes(a, 4, 6);
    UIntBytes(a, 10, 8);
    UIntBytes(a, 18, 4);
    assert a == a[0..2] + a[2..4] + a[4..10] + a[10..18] + a[18..22];
  }

  // ---------------------------------------------------------------------------
  // Order Delete ('D'), format "!HH6sQ", 18 bytes (ITCH 5.0 section 4.4.4).

  datatype OrderDelete = OrderDelete(locate: nat, tracking: nat, timestamp: nat, ref: nat)
  {
    predicate Valid() {
      locate < Pow256(2) && tracking < Pow256(2) && timestamp < Pow256(6) && ref < Pow256(8)
    }
  }

  function ParseOrderDelete(a: seq<Byte>): (m: OrderDelete)
    requires |a| == 18
    ensures m.Valid()
  {
    OrderDelete(UIntAt(a, 0, 2), UIntAt(a, 2, 2), UIntAt(a, 4, 6), UIntAt(a, 10, 8))
  }

  function EncodeOrderDelete(m: OrderDelete): (a: seq<Byte>)
    requires m.Valid()
    ensures |a| == 18
  {
    ToBigEndian(m.locate, 2) + ToBigEndian(m.tracking, 2) + ToBigEndian(m.timestamp, 6)
    + ToBigEndian(m.ref, 8)
  }

  lemma OrderDeleteRoundTrip(m: OrderDelete)
    requires m.Valid()
    ensures ParseOrderDelete(EncodeOrderDelete(m)) == m
  {
    var a := EncodeOrderDelete(m);
    UIntRoundTrip(a, 0, m.locate, 2);
    UIntRoundTrip(a, 2, m.tracking, 2);
    UIntRoundTrip(a, 4, m.timestamp, 6);
    UIntRoundTrip(a, 10, m.ref, 8);
  }

  lemma OrderDeleteBytes(a: seq<Byte>)
    requires |a| == 18
    ensures EncodeOrderDelete(ParseOrderDelete(a)) == a
  {
    UIntBytes(a, 0, 2);
    UIntBytes(a, 2, 2);
    UIntBytes(a, 4, 6);
    UIntBytes(a, 10, 8);
    assert a == a[0..2] + a[2..4] + a[4..10] + a[10..18];
  }

  /** The first 18 bytes of an 'X' or an 'E' payload carry the fields of a 'D' message. */
  lemma DeleteFieldsLeadCancelAndExecuted(x: seq<Byte>, e: seq<Byte>)
    requires |x| == 22 && |e| == 30
    ensures var d := ParseOrderDelete(x[..18]);
            var c := ParseOrderCancel(x);
            c.locate == d.locate && c.tracking == d.tracking && c.timestamp == d.timestamp
            && c.ref == d.ref
    ensures var d := ParseOrderDelete(e[..18]);
            var f := ParseOrderExecuted(e);
            f.locate == d.locate && f.tracking == d.tracking && f.timestamp == d.timestamp
            && f.ref == d.ref
  {
    var b := x[..18];
    assert b[0..2] == x[0..2] && b[2..4] == x[2..4] && b[4..10] == x[4..10] && b[10..18] == x[10..18];
    var g := e[..18];
    assert g[0..2] == e[0..2] && g[2..4] == e[2..4] && g[4..10] == e[4..10] && g[10..18] == e[10..18];
  }

  // ---------------------------------------------------------------------------
  // Order Replace ('U'), format "!HH6sQQIL", 34 bytes (ITCH 5.0 section 4.4.5).

  datatype OrderReplace = OrderReplace(
    locate: nat, tracking: nat, timestamp: nat, originalRef: nat, newRef: nat, shares: nat,
    price: nat)
  {
    predicate Valid() {
      && locate < Pow256(2) && tracking < Pow256(2) && timestamp < Pow256(6)
      && originalRef < Pow256(8) && newRef < Pow256(8) && shares < Pow256(4)
      && price < Pow256(4)
    }
  }

  function ParseOrderReplace(a: seq<Byte>): (m: OrderReplace)
    requires |a| == 34
    ensures m.Valid()
  {
    OrderReplace(UIntAt(a, 0, 2), UIntAt(a, 2, 2), UIntAt(a, 4, 6), UIntAt(a, 10, 8),
      UIntAt(a, 18, 8), UIntAt(a, 26, 4), UIntAt(a, 30, 4))
  }

  function EncodeOrderReplace(m: OrderReplace): (a: seq<Byte>)
    requires m.Valid()
    ensures |a| == 34
  {
    ToBigEndian(m.locate, 2) + ToBigEndian(m.tracking, 2) + ToBigEndian(m.timestamp, 6)
    + ToBigEndian(m.originalRef, 8) + ToBigEndian(m.newRef, 8) + ToBigEndian(m.shares, 4)
    + ToBigEndian(m.price, 4)
  }

  lemma OrderReplaceRoundTrip(m: OrderReplace)
    requires m.Valid()
    ensures ParseOrderReplace(EncodeOrderReplace(m)) == m
  {
    var a := EncodeOrderReplace(m);
    UIntRoundTrip(a, 0, m.locate, 2);
    UIntRoundTrip(a, 2, m.tracking, 2);
    UIntRoundTrip(a, 4, m.timestamp, 6);
    UIntRoundTrip(a, 10, m.originalRef, 8);
    UIntRoundTrip(a, 18, m.newRef, 8);
    UIntRoundTrip(a, 26, m.shares, 4);
    UIntRoundTrip(a, 30, m.price, 4);
  }

  lemma OrderReplaceBytes(a: seq<Byte>)
    requires |a| == 34
    ensures EncodeOrderReplace(ParseOrderReplace(a)) == a
  {
    UIntBytes(a, 0, 2);
    UIntBytes(a, 2, 2);
    UIntBytes(a, 4, 6);
    UIntBytes(a, 10, 8);
    UIntBytes(a, 18, 8);
    UIntBytes(a, 26, 4);
    UIntBytes(a, 30, 4);
    assert a == a[0..2] + a[2..4] + a[4..10] + a[10..18] + a[18..26] + a[26..30] + a[30..34];
  }

  // ---------------------------------------------------------------------------
  // Trade, non-cross ('P'), format "!HH6sQcI8sLQ", 43 bytes (ITCH 5.0 section 4.5.1).

  datatype Trade = Trade(
    locate: nat, tracking: nat, timestamp: nat, ref: nat, side: char, shares: nat,
    stock: string, price: nat, matchNumber: nat)
  {
    predicate Valid() {
      && locate < Pow256(2) && tracking < Pow256(2) && timestamp < Pow256(6)
      && ref < Pow256(8) && side < 256 as char && shares < Pow256(4) && IsAlpha(stock, 8)
      && price < Pow256(4) && matchNumber < Pow256(8)
    }
  }

  function ParseTrade(a: seq<Byte>): (m: Trade)
    requires |a| == 43
    ensures m.Valid()
  {
    Trade(UIntAt(a, 0, 2), UIntAt(a, 2, 2), UIntAt(a, 4, 6), UIntAt(a, 10, 8),
      CharAt(a, 18), UIntAt(a, 19, 4), AlphaAt(a, 23, 8), UIntAt(a, 31, 4), UIntAt(a, 35, 8))
  }

  function EncodeTrade(m: Trade): (a: seq<Byte>)
    requires m.Valid()
    ensures |a| == 43
  {
    ToBigEndian(m.locate, 2) + ToBigEndian(m.tracking, 2) + ToBigEndian(m.timestamp, 6)
    + ToBigEndian(m.ref, 8) + [m.side as int] + ToBigEndian(m.shares, 4)
    + PadAlpha(m.stock, 8) + ToBigEndian(m.price, 4) + ToBigEndian(m.matchNumber, 8)
  }

  lemma TradeRoundTrip(m: Trade)
    requires m.Valid()
    ensures ParseTrade(EncodeTrade(m)) == m
  {
    var a := EncodeTrade(m);
    UIntRoundTrip(a, 0, m.locate, 2);
    UIntRoundTrip(a, 2, m.tracking, 2);
    UIntRoundTrip(a, 4, m.timestamp, 6);
    UIntRoundTrip(a, 10, m.ref, 8);
    UIntRoundTrip(a, 19, m.shares, 4);
    assert a[23..31] == PadAlpha(m.stock, 8);
    AlphaRoundTrip(m.stock, 8);
    UIntRoundTrip(a, 31, m.price, 4);
    UIntRoundTrip(a, 35, m.matchNumber, 8);
  }

  // ---------------------------------------------------------------------------
  // Cross Trade ('Q'), format "!HH6sQ8sLQc", 39 bytes (ITCH 5.0 section 4.5.2). The cross
  // type is not decoded and stays a byte.

  datatype CrossTrade = CrossTrade(
    locate: nat, tracking: nat, timestamp: nat, shares: nat, stock: string, price: nat,
    matchNumber: nat, crossType: Byte)
  {
    predicate Valid() {
      && locate < Pow256(2) && tracking < Pow256(2) && timestamp < Pow256(6)
      && shares < Pow256(8) && IsAlpha(stock, 8) && price < Pow256(4)
      && matchNumber < Pow256(8)
    }
  }

  function ParseCrossTrade(a: seq<Byte>): (m: CrossTrade)
    requires |a| == 39
    ensures m.Valid()
  {
    CrossTrade(UIntAt(a, 0, 2), UIntAt(a, 2, 2), UIntAt(a, 4, 6), UIntAt(a, 10, 8),
      AlphaAt(a, 18, 8), UIntAt(a, 26, 4), UIntAt(a, 30, 8), a[38])
  }

  function EncodeCrossTrade(m: CrossTrade): (a: seq<Byte>)
    requires m.Valid()
    ensures |a| == 39
  {
    ToBigEndian(m.locate, 2) + ToBigEndian(m.tracking, 2) + ToBigEndian(m.timestamp, 6)
    + ToBigEndian(m.shares, 8) + PadAlpha(m.stock, 8) + ToBigEndian(m.price, 4)
    + ToBigEndian(m.matchNumber, 8) + [m.crossType]
  }

  lemma CrossTradeRoundTrip(m: CrossTrade)
    requires m.Valid()
    ensures ParseCrossTrade(EncodeCrossTrade(m)) == m
  {
    CrossTradeNumbers(m);
    CrossTradeStock(m);
  }

  lemma CrossTradeStock(m: CrossTrade)
    requires m.Valid()
    ensures var p := ParseCrossTrade(EncodeCrossTrade(m));
            p.stock == m.stock && p.crossType == m.crossType
  {
    var a := EncodeCrossTrade(m);
    assert a[18..26] == PadAlpha(m.stock, 8);
    AlphaRoundTrip(m.stock, 8);
  }

  lemma CrossTradeNumbers(m: CrossTrade)
    requires m.Valid()
    ensures var p := ParseCrossTrade(EncodeCrossTrade(m));
            p.locate == m.locate && p.tracking == m.tracking && p.timestamp == m.timestamp
            && p.shares == m.shares && p.price == m.price && p.matchNumber == m.matchNumber
  {
    var a := EncodeCrossTrade(m);
    UIntRoundTrip(a, 0, m.locate, 2);
    UIntRoundTrip(a, 2, m.tracking, 2);
    UIntRoundTrip(a, 4, m.timestamp, 6);
    UIntRoundTrip(a, 10, m.shares, 8);
    UIntRoundTrip(a, 26, m.price, 4);
    UIntRoundTrip(a, 30, m.matchNumber, 8);
  }
}
