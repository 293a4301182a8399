/** The canonical bytes that OrderBook::digest hashes, and that they can be read back: equal
    preimages mean equal books, level by level and order by order. */
module BookDigest {
  import opened Types
  import opened Encoding
  import opened BookModel
  import opened BookView

  datatype OrderEntry = OrderEntry(reference: U64, remaining: U32, priority: U64)
  datatype LevelEntry = LevelEntry(price: U32, total: U64, orders: seq<OrderEntry>)
  datatype CanonicalBook = CanonicalBook(locate: U16, bids: seq<LevelEntry>, asks: seq<LevelEntry>)

  // ---------------------------------------------------------------- the encoding

  const DOMAIN: Bytes := [
    // "itchlab-book-state-v1" and a terminating zero
    105, 116, 99, 104, 108, 97, 98, 45, 98, 111, 111, 107, 45, 115, 116, 97, 116, 101, 45, 118, 49, 0]

  const BID_TAG: U8 := 66 // 'B'
  const ASK_TAG: U8 := 83 // 'S'

  function OrderBytes(o: OrderEntry): Bytes {
    BigEndian(o.reference, 8) + BigEndian(o.remaining, 8) + BigEndian(o.priority, 8)
  }

  function OrdersBytes(orders: seq<OrderEntry>): Bytes {
    if orders == [] then [] else OrdersBytes(orders[..|orders| - 1]) + OrderBytes(orders[|orders| - 1])
  }

  function LevelBytes(level: LevelEntry): Bytes {
    BigEndian(level.price, 4) + BigEndian(level.total, 8) + BigEndian(|level.orders|, 8) + OrdersBytes(level.orders)
  }

  function LevelsBytes(levels: seq<LevelEntry>): Bytes {
    if levels == [] then [] else LevelsBytes(levels[..|levels| - 1]) + LevelBytes(levels[|levels| - 1])
  }

  function SideBytes(tag: U8, levels: seq<LevelEntry>): Bytes {
    [tag] + BigEndian(|levels|, 8) + LevelsBytes(levels)
  }

  function Preimage(book: CanonicalBook): Bytes {
    DOMAIN + BigEndian(book.locate, 2) + SideBytes(BID_TAG, book.bids) + SideBytes(ASK_TAG, book.asks)
  }

  // ---------------------------------------------------------------- unique decodability

  /** Container sizes are 64-bit, as size_t is. */
  predicate LevelSized(level: LevelEntry) {
    |level.orders| <= U64_MAX
  }

  ghost predicate SideSized(levels: seq<LevelEntry>) {
    |levels| <= U64_MAX && forall i :: 0 <= i < |levels| ==> LevelSized(levels[i])
  }

  ghost predicate Sized(book: CanonicalBook) {
    SideSized(book.bids) && SideSized(book.asks)
  }

  lemma SplitAt(a: Bytes, x: Bytes, b: Bytes, y: Bytes)
    requires |a| == |b| && a + x == b + y
    ensures a == b && x == y
  {
    assert a == (a + x)[..|a|] && b == (b + y)[..|b|];
    assert x == (a + x)[|a|..] && y == (b + y)[|b|..];
  }

  lemma BigEndianInjective(v: nat, w: nat, width: nat)
    requires v < Limit(width) && w < Limit(width) && BigEndian(v, width) == BigEndian(w, width)
    ensures v == w
  {
    BigEndianRoundTrip(v, width);
    BigEndianRoundTrip(w, width);
  }

  /** A leading integer field can be read off. */
  lemma ReadField(v: nat, x: Bytes, w: nat, y: Bytes, width: nat)
    requires v < Limit(width) && w < Limit(width)
    requires BigEndian(v, width) + x == BigEndian(w, width) + y
    ensures v == w && x == y
  {
    SplitAt(BigEndian(v, width), x, BigEndian(w, width), y);
    BigEndianInjective(v, w, width);
  }

  lemma ReadOrder(o: OrderEntry, x: Bytes, p: OrderEntry, y: Bytes)
    requires OrderBytes(o) + x == OrderBytes(p) + y
    ensures o == p && x == y
  {
    hide BigEndian, Limit;
    Limits();
    var o1, p1 := BigEndian(o.priority, 8) + x, BigEndian(p.priority, 8) + y;
    var o2, p2 := BigEndian(o.remaining, 8) + o1, BigEndian(p.remaining, 8) + p1;
    assert OrderBytes(o) + x == BigEndian(o.reference, 8) + o2;
    assert OrderBytes(p) + y == BigEndian(p.reference, 8) + p2;
    ReadField(o.reference, o2, p.reference, p2, 8);
    ReadField(o.remaining, o1, p.remaining, p1, 8);
    ReadField(o.priority, x, p.priority, y, 8);
  }

  lemma OrdersBytesHead(orders: seq<OrderEntry>)
    requires orders != []
    ensures OrdersBytes(orders) == OrderBytes(orders[0]) + OrdersBytes(orders[1..])
  {
    hide OrderBytes;
    if |orders| > 1 {
      var init := orders[..|orders| - 1];
      OrdersBytesHead(init);
      assert orders[1..][..|orders| - 2] == init[1..];
    }
  }

  lemma {:induction false} ReadOrders(a: seq<OrderEntry>, x: Bytes, b: seq<OrderEntry>, y: Bytes)
    requires |a| == |b| && OrdersBytes(a) + x == OrdersBytes(b) + y
    ensures a == b && x == y
    decreases |a|
  {
    hide OrderBytes;
    if a != [] {
      OrdersBytesHead(a);
      OrdersBytesHead(b);
      var ra, rb := OrdersBytes(a[1..]) + x, OrdersBytes(b[1..]) + y;
      assert OrderBytes(a[0]) + ra == OrdersBytes(a) + x;
      assert OrderBytes(b[0]) + rb == OrdersBytes(b) + y;
      ReadOrder(a[0], ra, b[0], rb);
      ReadOrders(a[1..], x, b[1..], y);
      assert a == [a[0]] + a[1..] && b == [b[0]] + b[1..];
    } else {
      assert [] + x == x && [] + y == y;
    }
  }

  lemma ReadLevel(a: LevelEntry, x: Bytes, b: LevelEntry, y: Bytes)
    requires LevelSized(a) && LevelSized(b)
    requires LevelBytes(a) + x == LevelBytes(b) + y
    ensures a == b && x == y
  {
    hide BigEndian, Limit, OrdersBytes;
    Limits();
    var a1, b1 := OrdersBytes(a.orders) + x, OrdersBytes(b.orders) + y;
    var a2, b2 := BigEndian(|a.orders|, 8) + a1, BigEndian(|b.orders|, 8) + b1;
    var a3, b3 := BigEndian(a.total, 8) + a2, BigEndian(b.total, 8) + b2;
    assert LevelBytes(a) + x == BigEndian(a.price, 4) + a3;
    assert LevelBytes(b) + y == BigEndian(b.price, 4) + b3;
    ReadField(a.price, a3, b.price, b3, 4);
    ReadField(a.total, a2, b.total, b2, 8);
    ReadField(|a.orders|, a1, |b.orders|, b1, 8);
    ReadOrders(a.orders, x, b.orders, y);
  }

  lemma LevelsBytesHead(levels: seq<LevelEntry>)
    requires levels != []
    ensures LevelsBytes(levels) == LevelBytes(levels[0]) + LevelsBytes(levels[1..])
  {
    hide LevelBytes;
    if |levels| > 1 {
      var init := levels[..|levels| - 1];
      LevelsBytesHead(init);
      assert levels[1..][..|levels| - 2] == init[1..];
    }
  }

  lemma {:induction false} ReadLevels(a: seq<LevelEntry>, x: Bytes, b: seq<LevelEntry>, y: Bytes)
    requires SideSized(a) && SideSized(b)
    requires |a| == |b| && LevelsBytes(a) + x == LevelsBytes(b) + y
    ensures a == b && x == y
    decreases |a|
  {
    hide LevelBytes;
    if a != [] {
      LevelsBytesHead(a);
      LevelsBytesHead(b);
      var ra, rb := LevelsBytes(a[1..]) + x, LevelsBytes(b[1..]) + y;
      assert LevelBytes(a[0]) + ra == LevelsBytes(a) + x;
      assert LevelBytes(b[0]) + rb == LevelsBytes(b) + y;
      ReadLevel(a[0], ra, b[0], rb);
      ReadLevels(a[1..], x, b[1..], y);
      assert a == [a[0]] + a[1..] && b == [b[0]] + b[1..];
    } else {
      assert [] + x == x && [] + y == y;
    }
  }

  lemma ReadSide(tag: U8, a: seq<LevelEntry>, x: Bytes, b: seq<LevelEntry>, y: Bytes)
    requires SideSized(a) && SideSized(b)
    requires SideBytes(tag, a) + x == SideBytes(tag, b) + y
    ensures a == b && x == y
  {
    hide BigEndian, Limit, LevelsBytes;
    Limits();
    var a1, b1 := LevelsBytes(a) + x, LevelsBytes(b) + y;
    var a2, b2 := BigEndian(|a|, 8) + a1, BigEndian(|b|, 8) + b1;
    assert SideBytes(tag, a) + x == [tag] + a2;
    assert SideBytes(tag, b) + y == [tag] + b2;
    SplitAt([tag], a2, [tag], b2);
    ReadField(|a|, a1, |b|, b1, 8);
    ReadLevels(a, x, b, y);
  }

  /** The digest preimage is injective. */
  lemma PreimageInjective(a: CanonicalBook, b: CanonicalBook)
    requires Sized(a) && Sized(b) && Preimage(a) == Preimage(b)
    ensures a == b
  {
    hide BigEndian, Limit, SideBytes;
    Limits();
    var a1, b1 := SideBytes(ASK_TAG, a.asks), SideBytes(ASK_TAG, b.asks);
    var a2, b2 := SideBytes(BID_TAG, a.bids) + a1, SideBytes(BID_TAG, b.bids) + b1;
    var a3, b3 := BigEndian(a.locate, 2) + a2, BigEndian(b.locate, 2) + b2;
    assert Preimage(a) == DOMAIN + a3 && Preimage(b) == DOMAIN + b3;
    SplitAt(DOMAIN, a3, DOMAIN, b3);
    ReadField(a.locate, a2, b.locate, b2, 2);
    ReadSide(BID_TAG, a.bids, a1, b.bids, b1);
    assert a1 + [] == a1 && b1 + [] == b1;
    ReadSide(ASK_TAG, a.asks, [], b.asks, []);
  }

  // ---------------------------------------------------------------- the preimage of a plain map

  ghost function EntryOf(live: Live, r: U64): OrderEntry
    requires r in live
  {
    OrderEntry(r, live[r].remaining, live[r].priority)
  }

  ghost function EntriesOf(live: Live, queue: seq<U64>): (entries: seq<OrderEntry>)
    requires forall i :: 0 <= i < |queue| ==> queue[i] in live
    ensures |entries| == |queue| && forall i :: 0 <= i < |queue| ==> entries[i] == EntryOf(live, queue[i])
  {
    seq(|queue|, i requires 0 <= i < |queue| => EntryOf(live, queue[i]))
  }

  /** Everything a book needs so that its levels are queues with 64-bit totals. */
  ghost predicate Bookable(live: Live) {
    && TotalsFit(live)
    && (forall r :: r in live ==> live[r].side != NotApplicable)
    && (forall side, price :: HasQueue(live, side, price))
  }

  ghost function LevelEntryOf(live: Live, side: Side, price: U32): LevelEntry
    requires Bookable(live)
  {
    assert HasQueue(live, side, price);
    LevelEntry(price, LevelTotal(live, side, price), EntriesOf(live, Queue(live, side, price)))
  }

  ghost function SideOf(live: Live, side: Side): (levels: seq<LevelEntry>)
    requires Bookable(live)
    ensures |levels| == |PricesOf(live, side)|
  {
    var ranked := Ranked(side, PricesOf(live, side));
    seq(|ranked|, i requires 0 <= i < |ranked| => LevelEntryOf(live, side, ranked[i]))
  }

  ghost function CanonicalOf(locate: U16, live: Live): CanonicalBook
    requires Bookable(live)
  {
    CanonicalBook(locate, SideOf(live, Buy), SideOf(live, Sell))
  }

  /** The live orders without attribution, which the digest leaves out. */
  ghost function Unattributed(live: Live): map<U64, (Side, U32, U32, U64)> {
    map r | r in live :: (live[r].side, live[r].price, live[r].remaining, live[r].priority)
  }

  /** Reading an order back out of the canonical levels. */
  lemma EntryListed(live: Live, r: U64) returns (i: nat, j: nat)
    requires Bookable(live) && r in live
    ensures var levels := SideOf(live, live[r].side);
            && i < |levels| && levels[i].price == live[r].price
            && j < |levels[i].orders| && levels[i].orders[j] == EntryOf(live, r)
  {
    var side, price := live[r].side, live[r].price;
    var ranked := Ranked(side, PricesOf(live, side));
    assert price in PricesOf(live, side);
    i :| 0 <= i < |ranked| && ranked[i] == price;
    assert HasQueue(live, side, price);
    assert r in OrdersAt(live, side, price);
    var queue := Queue(live, side, price);
    j :| 0 <= j < |queue| && queue[j] == r;
  }

  lemma EntryResident(live: Live, side: Side, i: nat, j: nat)
    requires Bookable(live) && i < |SideOf(live, side)| && j < |SideOf(live, side)[i].orders|
    ensures var level := SideOf(live, side)[i];
            var r := level.orders[j].reference;
            r in live && live[r].side == side && live[r].price == level.price && level.orders[j] == EntryOf(live, r)
  {
    var price := Ranked(side, PricesOf(live, side))[i];
    assert HasQueue(live, side, price);
    var queue := Queue(live, side, price);
    assert queue[j] in OrdersAt(live, side, price);
  }

  lemma CanonicalDetermines(live: Live, other: Live, r: U64)
    requires Bookable(live) && Bookable(other) && r in live
    requires SideOf(live, Buy) == SideOf(other, Buy) && SideOf(live, Sell) == SideOf(other, Sell)
    ensures r in other && Unattributed(live)[r] == Unattributed(other)[r]
  {
    var i, j := EntryListed(live, r);
    EntryResident(other, live[r].side, i, j);
  }

  lemma SameBytesSameOrders(locate: U16, live: Live, otherLocate: U16, other: Live)
    requires Bookable(live) && Bookable(other)
    requires Sized(CanonicalOf(locate, live)) && Sized(CanonicalOf(otherLocate, other))
    requires Preimage(CanonicalOf(locate, live)) == Preimage(CanonicalOf(otherLocate, other))
    ensures locate == otherLocate && Unattributed(live) == Unattributed(other)
  {
    hide Preimage, Sized, Bookable, SideOf;
    PreimageInjective(CanonicalOf(locate, live), CanonicalOf(otherLocate, other));
    forall r | r in live ensures r in other && Unattributed(live)[r] == Unattributed(other)[r] {
      CanonicalDetermines(live, other, r);
    }
    forall r | r in other ensures r in live {
      CanonicalDetermines(other, live, r);
    }
  }

  /** Two books have the same digest preimage exactly when they are for the same instrument and hold
      the same live orders up to attribution. */
  lemma PreimageTellsBooks(locate: U16, live: Live, otherLocate: U16, other: Live)
    requires Bookable(live) && Bookable(other)
    requires Sized(CanonicalOf(locate, live)) && Sized(CanonicalOf(otherLocate, other))
    ensures Preimage(CanonicalOf(locate, live)) == Preimage(CanonicalOf(otherLocate, other)) <==>
            locate == otherLocate && Unattributed(live) == Unattributed(other)
  {
    hide Preimage, Sized, Bookable, SideOf, Unattributed;
    if Preimage(CanonicalOf(locate, live)) == Preimage(CanonicalOf(otherLocate, other)) {
      SameBytesSameOrders(locate, live, otherLocate, other);
    }
    if locate == otherLocate && Unattributed(live) == Unattributed(other) {
      SideUnattributed(live, other, Buy);
      SideUnattributed(live, other, Sell);
    }
  }

  lemma SideUnattributed(live: Live, other: Live, side: Side)
    requires Bookable(live) && Bookable(other) && Unattributed(live) == Unattributed(other)
    ensures SideOf(live, side) == SideOf(other, side)
  {
    SameKeys(live, other);
    assert PricesOf(live, side) == PricesOf(other, side);
    forall price ensures LevelEntryOf(live, side, price) == LevelEntryOf(other, side, price) {
      LevelUnattributed(live, other, side, price);
    }
  }

  lemma SameKeys(live: Live, other: Live)
    requires Unattributed(live) == Unattributed(other)
    ensures live.Keys == other.Keys
    ensures forall r :: r in live ==>
              live[r].side == other[r].side && live[r].price == other[r].price &&
              live[r].remaining == other[r].remaining && live[r].priority == other[r].priority
  {
    assert live.Keys == Unattributed(live).Keys && other.Keys == Unattributed(other).Keys;
    forall r | r in live
      ensures live[r].side == other[r].side && live[r].price == other[r].price &&
              live[r].remaining == other[r].remaining && live[r].priority == other[r].priority
    {
      assert Unattributed(live)[r] == Unattributed(other)[r];
    }
  }

  lemma LevelUnattributed(live: Live, other: Live, side: Side, price: U32)
    requires Bookable(live) && Bookable(other) && Unattributed(live) == Unattributed(other)
    ensures LevelEntryOf(live, side, price) == LevelEntryOf(other, side, price)
  {
    SameKeys(live, other);
    assert HasQueue(live, side, price) && HasQueue(other, side, price);
    assert OrdersAt(live, side, price) == OrdersAt(other, side, price);
    SharesOfFrame(live, other, OrdersAt(live, side, price));
    QueueIs(other, side, price, Queue(live, side, price));
  }
}
