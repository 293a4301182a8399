/** The level-3 order book of cpp/src/book/order_book.cpp: three structures updated in place.
    Every operation keeps the representation invariant and acts on the plain map of live orders
    exactly as BookModel says. */
module OrderBookModule {
  import opened Types
  import opened BookModel
  import opened BookView
  import opened BookRep
  import opened BookOutcomes
  import opened BookDigest
  import opened Encoding
  import Sha256

  datatype ViolationKind =
    | EmptyFifo | RepeatedOrder | UnknownOrder | ForeignFields | ZeroRemaining | WrongIterator
    | PriorityOrder | SumOverflow | WrongTotal | MissingOrder

  datatype Violation = Violation(kind: ViolationKind, reference: Option<U64>, price: Option<U32>)

  datatype InvariantReport = InvariantReport(
    orderCount: nat,
    bidLevelCount: nat,
    askLevelCount: nat,
    violations: seq<Violation>)

  datatype OrderView = OrderView(reference: U64, remaining: U64, priority: U64, attribution: Option<Attribution>)

  datatype PriceLevelView = PriceLevelView(price: U32, total: U64, orders: seq<OrderView>)

  class OrderBook {
    const locate: U16
    var bids: Levels
    var asks: Levels
    var orders: Orders
    var nextNode: nat

    function State(): Book
      reads this
    {
      Book(locate, bids, asks, orders)
    }

    ghost predicate Valid()
      reads this
    {
      Consistent(State())
    }

    function LiveOrders(): Live
      reads this
    {
      LiveOf(orders)
    }

    constructor (stockLocate: U16)
      ensures locate == stockLocate && Valid() && LiveOrders() == map[]
    {
      locate := stockLocate;
      bids, asks, orders, nextNode := map[], map[], map[], 0;
    }

    method SetLevels(side: Side, levels: Levels)
      modifies this`bids, this`asks
      ensures State() == old(State()).With(side, levels, orders)
    {
      if side == Buy {
        bids := levels;
      } else {
        asks := levels;
      }
    }

    method NewNode(reference: U64) returns (node: Node)
      modifies this`nextNode
      ensures node == Node(old(nextNode), reference)
    {
      node := Node(nextNode, reference);
      nextNode := nextNode + 1;
    }

    method ApplyAdd(m: BookMessage) returns (result: ApplyResult)
      requires m.Add?
      modifies this
      ensures result.Rejected? ==> State() == old(State())
      ensures old(Valid()) ==> Valid() && Outcome(LiveOrders(), result) == BookModel.ApplyAdd(old(LiveOrders()), locate, m)
    {
      if m.locate != locate {
        return Rejected(Invariant, m.reference);
      }
      if m.side != Buy && m.side != Sell {
        return Rejected(Invariant, m.reference);
      }
      var remaining := NarrowToU32(m.shares);
      if remaining.None? || remaining.value == 0 {
        return Rejected(Quantity, m.reference);
      }
      if m.reference in orders {
        return Rejected(OrderReference, m.reference);
      }

      result := AddToSide(m, remaining.value);
    }

    /** The part of the add that touches one side's levels. */
    method AddToSide(m: BookMessage, remaining: U32) returns (result: ApplyResult)
      requires m.Add? && AddChecked(State(), m) && remaining == m.shares
      modifies this
      ensures result.Rejected? ==> State() == old(State())
      ensures old(Valid()) ==> Valid() && Outcome(LiveOrders(), result) == BookModel.ApplyAdd(old(LiveOrders()), locate, m)
    {
      hide BookModel.ApplyAdd, Consistent, LevelOk, LiveOf;
      if Consistent(State()) {
        AddOutcome(State(), m, nextNode);
      }
      var levels := State().On(m.side);
      var fifo := [];
      var updatedTotal: U64 := remaining;
      if m.price in levels {
        var total := CheckedAdd(levels[m.price].total, remaining);
        if total.None? {
          return Rejected(Quantity, m.reference);
        }
        updatedTotal := total.value;
        fifo := levels[m.price].fifo;
        if fifo != [] {
          var tail := fifo[|fifo| - 1].reference;
          if tail !in orders || orders[tail].priority >= m.index {
            return Rejected(Invariant, m.reference);
          }
        }
      }

      var node := NewNode(m.reference);
      SetLevels(m.side, levels[m.price := Level(updatedTotal, fifo + [node])]);
      orders := orders[m.reference := AddedOrder(m, node)];
      result := Applied(BookDelta(AddKind, m.index, m.locate, m.reference, m.side, m.price, 0, m.shares, None));
    }

    /** E, C and X: the visible effect of an execution and of a partial cancel is the same. */
    method ApplyReduction(m: BookMessage) returns (result: ApplyResult)
      requires m.Execute? || m.Cancel?
      modifies this
      ensures result.Rejected? ==> State() == old(State())
      ensures old(Valid()) ==>
                Valid() && Outcome(LiveOrders(), result) == BookModel.ApplyReduction(old(LiveOrders()), locate, m)
    {
      hide Consistent;
      if m.locate != locate {
        return Rejected(Invariant, m.reference);
      }
      if m.reference !in orders {
        return Rejected(OrderReference, m.reference);
      }
      var order := orders[m.reference];
      if m.index <= order.priority {
        return Rejected(Invariant, m.reference);
      }
      var decrement := NarrowToU32(m.shares);
      if decrement.None? || decrement.value == 0 {
        return Rejected(Quantity, m.reference);
      }
      if decrement.value > order.remaining {
        return Rejected(Quantity, m.reference);
      }
      if order.side == Buy || order.side == Sell {
        result := ReduceOnSide(m, order);
      } else {
        if Consistent(State()) {
          EraseOutcome(State(), m.reference);
        }
        result := Rejected(Invariant, m.reference);
      }
    }

    method ReduceOnSide(m: BookMessage, order: StoredOrder) returns (result: ApplyResult)
      requires (m.Execute? || m.Cancel?) && m.locate == locate
      requires m.reference in orders && order == orders[m.reference] && order.side != NotApplicable
      requires order.priority < m.index && 0 < m.shares <= order.remaining
      modifies this
      ensures result.Rejected? ==> State() == old(State())
      ensures old(Valid()) ==>
                Valid() && Outcome(LiveOrders(), result) == BookModel.ApplyReduction(old(LiveOrders()), locate, m)
    {
      hide Consistent, LiveOf;
      if Consistent(State()) {
        LiveKeys(orders);
        EraseOutcome(State(), m.reference);
        if m.shares < order.remaining {
          ReduceOutcome(State(), m.reference, m.shares);
        }
      }
      var levels := State().On(order.side);
      if order.price !in levels || levels[order.price].fifo == [] || order.position == End ||
         order.position.node.reference != m.reference
      {
        return Rejected(Invariant, m.reference);
      }
      var level := levels[order.price];
      var nextRemaining := order.remaining - m.shares;
      var updatedTotal := CheckedSubtract(level.total, m.shares);
      if updatedTotal.None? {
        return Rejected(Invariant, m.reference);
      }
      var removesOrder := nextRemaining == 0;
      if removesOrder && (|level.fifo| == 1) != (updatedTotal.value == 0) {
        return Rejected(Invariant, m.reference);
      }
      if !removesOrder && updatedTotal.value == 0 {
        return Rejected(Invariant, m.reference);
      }
      result := Applied(BookDelta(if m.Execute? then ExecuteKind else CancelKind, m.index, m.locate, m.reference,
                                  order.side, order.price, order.remaining, nextRemaining, None));
      if !removesOrder {
        orders := orders[m.reference := order.(remaining := nextRemaining)];
        SetLevels(order.side, levels[order.price := Level(updatedTotal.value, level.fifo)]);
      } else {
        Unlink(m.reference, order, updatedTotal.value);
      }
    }

    /** Erase the list node and the index entry, then drop or re-total the level. */
    method Unlink(reference: U64, order: StoredOrder, updatedTotal: U64)
      requires reference in orders && order == orders[reference] && order.position.At?
      requires order.price in State().On(order.side)
      modifies this`bids, this`asks, this`orders
      ensures State() == Unlinked(old(State()), reference, updatedTotal)
    {
      var levels := State().On(order.side);
      var fifo := Without(levels[order.price].fifo, order.position.node);
      orders := orders - {reference};
      if fifo == [] {
        SetLevels(order.side, levels - {order.price});
      } else {
        SetLevels(order.side, levels[order.price := Level(updatedTotal, fifo)]);
      }
    }

    method ApplyDelete(m: BookMessage) returns (result: ApplyResult)
      requires m.Delete?
      modifies this
      ensures result.Rejected? ==> State() == old(State())
      ensures old(Valid()) ==>
                Valid() && Outcome(LiveOrders(), result) == BookModel.ApplyDelete(old(LiveOrders()), locate, m)
    {
      hide Consistent;
      if m.locate != locate {
        return Rejected(Invariant, m.reference);
      }
      if m.reference !in orders {
        return Rejected(OrderReference, m.reference);
      }
      var order := orders[m.reference];
      if m.index <= order.priority {
        return Rejected(Invariant, m.reference);
      }
      if order.side == Buy || order.side == Sell {
        result := EraseFromSide(m, order);
      } else {
        if Consistent(State()) {
          EraseOutcome(State(), m.reference);
        }
        result := Rejected(Invariant, m.reference);
      }
    }

    method EraseFromSide(m: BookMessage, order: StoredOrder) returns (result: ApplyResult)
      requires m.Delete? && m.locate == locate
      requires m.reference in orders && order == orders[m.reference] && order.side != NotApplicable
      requires order.priority < m.index
      modifies this
      ensures result.Rejected? ==> State() == old(State())
      ensures old(Valid()) ==>
                Valid() && Outcome(LiveOrders(), result) == BookModel.ApplyDelete(old(LiveOrders()), locate, m)
    {
      hide Consistent, LiveOf;
      if Consistent(State()) {
        LiveKeys(orders);
        EraseOutcome(State(), m.reference);
      }
      var levels := State().On(order.side);
      if order.price !in levels || levels[order.price].fifo == [] || order.position == End ||
         order.position.node.reference != m.reference
      {
        return Rejected(Invariant, m.reference);
      }
      var level := levels[order.price];
      var updatedTotal := CheckedSubtract(level.total, order.remaining);
      if updatedTotal.None? {
        return Rejected(Invariant, m.reference);
      }
      if (|level.fifo| == 1) != (updatedTotal.value == 0) {
        return Rejected(Invariant, m.reference);
      }
      result := Applied(BookDelta(DeleteKind, m.index, m.locate, m.reference, order.side, order.price,
                                  order.remaining, 0, None));
      Unlink(m.reference, order, updatedTotal.value);
    }

    method ApplyReplace(m: BookMessage) returns (result: ApplyResult)
      requires m.Replace?
      modifies this
      ensures result.Rejected? ==> State() == old(State())
      ensures old(Valid()) ==>
                Valid() && Outcome(LiveOrders(), result) == BookModel.ApplyReplace(old(LiveOrders()), locate, m)
    {
      hide Consistent;
      if m.locate != locate {
        return Rejected(Invariant, m.reference);
      }
      if m.reference == m.replacement {
        return Rejected(OrderReference, m.replacement);
      }
      if m.reference !in orders {
        return Rejected(OrderReference, m.reference);
      }
      if m.replacement in orders {
        return Rejected(OrderReference, m.replacement);
      }
      var original := orders[m.reference];
      if m.index <= original.priority {
        return Rejected(Invariant, m.reference);
      }
      var remaining := NarrowToU32(m.shares);
      if remaining.None? || remaining.value == 0 {
        return Rejected(Quantity, m.replacement);
      }
      if original.side == Buy || original.side == Sell {
        result := ReplaceOnSide(m, original);
      } else {
        if Consistent(State()) {
          EraseOutcome(State(), m.reference);
        }
        result := Rejected(Invariant, m.reference);
      }
    }

    method ReplaceOnSide(m: BookMessage, original: StoredOrder) returns (result: ApplyResult)
      requires ReplaceChecked(State(), m) && original == orders[m.reference] && original.side != NotApplicable
      modifies this
      ensures result.Rejected? ==> State() == old(State())
      ensures old(Valid()) ==>
                Valid() && Outcome(LiveOrders(), result) == BookModel.ApplyReplace(old(LiveOrders()), locate, m)
    {
      hide Consistent, LiveOf, BookModel.ApplyReplace;
      if Consistent(State()) {
        EraseOutcome(State(), m.reference);
        ReplaceOutcome(State(), m, nextNode);
      }
      var levels := State().On(original.side);
      if original.price !in levels || levels[original.price].fifo == [] || original.position == End ||
         original.position.node.reference != m.reference
      {
        return Rejected(Invariant, m.reference);
      }
      var source := levels[original.price];
      var sourceTotal := CheckedSubtract(source.total, original.remaining);
      if sourceTotal.None? {
        return Rejected(Invariant, m.reference);
      }
      if (|source.fifo| == 1) != (sourceTotal.value == 0) {
        return Rejected(Invariant, m.reference);
      }

      var sameLevel := m.price == original.price;
      var targetTotal := CheckedAdd(
        if sameLevel then sourceTotal.value else if m.price in levels then levels[m.price].total else 0,
        m.shares);
      if targetTotal.None? {
        return Rejected(Quantity, m.replacement);
      }
      if m.price in levels && levels[m.price].fifo != [] {
        var tail := levels[m.price].fifo[|levels[m.price].fifo| - 1].reference;
        if tail != m.reference && (tail !in orders || orders[tail].priority >= m.index) {
          return Rejected(Invariant, m.replacement);
        }
      }

      result := Applied(BookDelta(ReplaceKind, m.index, m.locate, m.reference, original.side, m.price,
                                  original.remaining, m.shares, Some(m.replacement)));
      Relink(m, original, sourceTotal.value, targetTotal.value);
    }

    /** Link the replacement at its price, index it, then unlink the original and re-total. */
    method Relink(m: BookMessage, original: StoredOrder, sourceTotal: U64, targetTotal: U64)
      requires ReplaceChecked(State(), m) && original == orders[m.reference]
      requires original.position.At? && original.price in State().On(original.side)
      modifies this
      ensures State() ==
              old(State()).With(
                original.side,
                Moved(old(State()).On(original.side), original.price, original.position.node, m.price,
                      Node(old(nextNode), m.replacement), sourceTotal, targetTotal),
                old(orders)[m.replacement := ReplacingOrder(m, original, Node(old(nextNode), m.replacement))] -
                {m.reference})
    {
      hide Without;
      var node := NewNode(m.replacement);
      var levels := State().On(original.side);
      var target := if m.price in levels then levels[m.price] else Level(0, []);
      levels := levels[m.price := Level(target.total, target.fifo + [node])];
      orders := orders[m.replacement := ReplacingOrder(m, original, node)];

      var source := levels[original.price];
      levels := levels[original.price := Level(source.total, Without(source.fifo, original.position.node))];
      orders := orders - {m.reference};
      if m.price == original.price {
        levels := levels[original.price := Level(targetTotal, levels[original.price].fifo)];
      } else {
        levels := levels[m.price := Level(targetTotal, levels[m.price].fifo)];
        if levels[original.price].fifo == [] {
          levels := levels - {original.price};
        } else {
          levels := levels[original.price := Level(sourceTotal, levels[original.price].fifo)];
        }
      }
      SetLevels(original.side, levels);
    }

    /** Any book message: the book keeps its invariant and acts on the live orders as the plain map
        does, and a rejected message changes nothing. */
    method Apply(m: BookMessage) returns (result: ApplyResult)
      modifies this
      ensures result.Rejected? ==> State() == old(State())
      ensures old(Valid()) ==>
                Valid() && Outcome(LiveOrders(), result) == BookModel.Apply(old(LiveOrders()), locate, m)
    {
      match m
      case Add(_, _, _, _, _, _, _) => result := ApplyAdd(m);
      case Execute(_, _, _, _) => result := ApplyReduction(m);
      case Cancel(_, _, _, _) => result := ApplyReduction(m);
      case Delete(_, _, _) => result := ApplyDelete(m);
      case Replace(_, _, _, _, _, _) => result := ApplyReplace(m);
    }

    // -------------------------------------------------------------- reading the book

    method TopOf(side: Side, depth: nat) returns (slots: seq<Option<AggregatedLevel>>)
      requires side != NotApplicable
      ensures Valid() ==> TotalsFit(LiveOrders()) && slots == TopSide(LiveOrders(), side, depth)
      ensures |slots| == depth
    {
      hide Consistent, TopSide, TotalsFit;
      var levels := State().On(side);
      var prices := Ranked(side, levels.Keys);
      slots := seq(depth, _ => None);
      var index := 0;
      while index < |prices| && index != depth
        invariant index <= |prices| && index <= depth && |slots| == depth
        invariant forall i :: 0 <= i < depth ==>
                    slots[i] == if i < index then Some(AggregatedLevel(prices[i], levels[prices[i]].total)) else None
      {
        slots := slots[index := Some(AggregatedLevel(prices[index], levels[prices[index]].total))];
        index := index + 1;
      }
      if Valid() {
        TopSideOf(State(), side, depth);
      }
    }

    /** Exactly `depth` slots per side, best price first. */
    method TopLevels(depth: U16) returns (top: TopLevels)
      ensures Valid() ==> TotalsFit(LiveOrders()) && top == Top(LiveOrders(), depth)
      ensures Valid() ==> HighestBids(LiveOrders(), top.bids) && LowestAsks(LiveOrders(), top.asks)
      ensures |top.bids| == |top.asks| == depth
    {
      hide TopSide, Consistent, HighestBids, LowestAsks;
      var b := TopOf(Buy, depth);
      var a := TopOf(Sell, depth);
      top := BestLevels(b, a);
      if Valid() {
        TopIsBest(LiveOrders(), depth);
      }
    }

    /** The FIFO of one price, or nothing when no order rests there. */
    method LevelView(side: Side, price: U32) returns (view: Option<PriceLevelView>)
      ensures Valid() ==>
                && (view.Some? <==> OrdersAt(LiveOrders(), side, price) != {})
                && (view.Some? ==>
                      && view.value.price == price
                      && view.value.total == LevelTotal(LiveOrders(), side, price)
                      && var queue := Queue(LiveOrders(), side, price);
                         && |view.value.orders| == |queue|
                         && forall i :: 0 <= i < |queue| ==>
                              && queue[i] in orders
                              && view.value.orders[i] == OrderView(queue[i], orders[queue[i]].remaining,
                                                                   orders[queue[i]].priority,
                                                                   orders[queue[i]].attribution))
    {
      if side != Buy && side != Sell {
        if Valid() {
          forall r | r in orders ensures r !in OrdersAt(LiveOrders(), side, price) {
            assert Placed(State(), r);
          }
        }
        return None;
      }
      var levels := State().On(side);
      if Valid() {
        QueueExists(State(), side, price);
        if price in levels {
          LevelIsQueue(State(), side, price);
        } else {
          NoLevelNoOrders(State(), side, price);
        }
      }
      if price !in levels {
        return None;
      }
      view := ViewFifo(price, levels[price]);
      if Valid() {
        assert LevelOk(locate, orders, side, price, levels[price]);
        forall i | 0 <= i < |levels[price].fifo| ensures levels[price].fifo[i].reference in orders {
          assert NodeOk(locate, orders, side, price, levels[price].fifo[i]);
        }
      }
    }

    method ViewFifo(price: U32, level: Level) returns (view: Option<PriceLevelView>)
      ensures view.Some? <==> forall i :: 0 <= i < |level.fifo| ==> level.fifo[i].reference in orders
      ensures view.Some? ==>
                && view.value.price == price && view.value.total == level.total
                && |view.value.orders| == |level.fifo|
                && forall i :: 0 <= i < |level.fifo| ==>
                     var r := level.fifo[i].reference;
                     view.value.orders[i] == OrderView(r, orders[r].remaining, orders[r].priority, orders[r].attribution)
    {
      var listed := [];
      for k := 0 to |level.fifo|
        invariant |listed| == k
        invariant forall i :: 0 <= i < k ==>
                    var r := level.fifo[i].reference;
                    && r in orders
                    && listed[i] == OrderView(r, orders[r].remaining, orders[r].priority, orders[r].attribution)
      {
        var reference := level.fifo[k].reference;
        if reference !in orders {
          return None;
        }
        var order := orders[reference];
        listed := listed + [OrderView(reference, order.remaining, order.priority, order.attribution)];
      }
      view := Some(PriceLevelView(price, level.total, listed));
    }

    // -------------------------------------------------------------- the canonical digest

    method AppendLevel(bytes: Bytes, side: Side, price: U32) returns (result: Bytes)
      requires Valid() && side != NotApplicable && price in State().On(side)
      ensures Bookable(LiveOrders())
      ensures result == bytes + LevelBytes(LevelEntryOf(LiveOrders(), side, price))
    {
      hide Consistent, BigEndian, Bookable, LiveOf, Queue, LevelTotal;
      ConsistentBookable(State());
      LiveKeys(orders);
      QueueExists(State(), side, price);
      LevelFacts(State(), side, price);
      var level := State().On(side)[price];
      ghost var entry := LevelEntryOf(LiveOrders(), side, price);
      result := AppendBigEndian(bytes, price, 4);
      result := AppendBigEndian(result, level.total, 8);
      result := AppendBigEndian(result, |level.fifo|, 8);
      result := AppendOrders(result, level.fifo, entry.orders);
      assert result == bytes + LevelBytes(entry);
    }

    method AppendOrders(bytes: Bytes, fifo: seq<Node>, ghost entries: seq<OrderEntry>) returns (result: Bytes)
      requires |fifo| == |entries|
      requires forall i :: 0 <= i < |fifo| ==>
                 var r := fifo[i].reference;
                 r in orders && entries[i] == OrderEntry(r, orders[r].remaining, orders[r].priority)
      ensures result == bytes + OrdersBytes(entries)
    {
      hide BigEndian;
      result := bytes;
      for k := 0 to |fifo|
        invariant result == bytes + OrdersBytes(entries[..k])
      {
        var reference := fifo[k].reference;
        var order := orders[reference];
        result := AppendBigEndian(result, reference, 8);
        result := AppendBigEndian(result, order.remaining, 8);
        result := AppendBigEndian(result, order.priority, 8);
        assert entries[..k + 1][..k] == entries[..k];
        assert result == bytes + (OrdersBytes(entries[..k]) + OrderBytes(entries[k]));
      }
      assert entries[..|fifo|] == entries;
    }

    method AppendSide(bytes: Bytes, side: Side, tag: U8) returns (result: Bytes)
      requires Valid() && side != NotApplicable
      ensures Bookable(LiveOrders())
      ensures result == bytes + SideBytes(tag, SideOf(LiveOrders(), side))
    {
      hide Consistent, BigEndian, LevelBytes, LevelEntryOf, Bookable, Ranked, LiveOf, PricesOf;
      ConsistentBookable(State());
      PricesAreKeys(State(), side);
      var levels := State().On(side);
      var prices := Ranked(side, levels.Keys);
      ghost var entries := SideOf(LiveOrders(), side);
      result := AppendBigEndian(bytes + [tag], |levels|, 8);
      ghost var prefix := result;
      for k := 0 to |prices|
        invariant result == prefix + LevelsBytes(entries[..k])
      {
        assert prices[k] in levels;
        result := AppendLevel(result, side, prices[k]);
        assert entries[..k + 1][..k] == entries[..k];
        assert result == prefix + (LevelsBytes(entries[..k]) + LevelBytes(entries[k]));
      }
      assert entries[..|prices|] == entries;
    }

    /** The hash covers the canonical bytes of the live orders, whatever the container layout. */
    method Digest() returns (hash: Bytes)
      requires Valid()
      ensures Bookable(LiveOrders())
      ensures hash == Sha256.Hash(Preimage(CanonicalOf(locate, LiveOrders())))
    {
      hide Consistent, BigEndian, SideBytes, SideOf;
      var canonical := AppendBigEndian(DOMAIN, locate, 2);
      canonical := AppendSide(canonical, Buy, BID_TAG);
      canonical := AppendSide(canonical, Sell, ASK_TAG);
      hash := Sha256.Hash(canonical);
    }

    // -------------------------------------------------------------- the runtime invariant check

    /** One level: nothing is reported exactly when the level is sound and repeats no order. */
    method CheckLevel(side: Side, price: U32, level: Level, seen: set<U64>, violations: seq<Violation>)
      returns (seen': set<U64>, violations': seq<Violation>)
      ensures seen' == seen + RefSet(level.fifo)
      ensures violations <= violations'
      ensures violations' == violations <==>
              LevelOk(locate, orders, side, price, level) && RefSet(level.fifo) !! seen
    {
      violations' := violations;
      if level.fifo == [] {
        violations' := violations' + [Violation(EmptyFifo, None, Some(price))];
      }
      assert level.fifo[..|level.fifo|] == level.fifo;
      var calculated;
      seen', violations', calculated := CheckFifo(side, price, level.fifo, seen, violations');
      if calculated != level.total {
        violations' := violations' + [Violation(WrongTotal, None, Some(price))];
      }
    }

    /** The nodes of one FIFO. `Clean` says what the first `k` of them must satisfy. */
    ghost predicate Clean(side: Side, price: U32, fifo: seq<Node>, seen: set<U64>, k: nat)
      requires k <= |fifo|
      reads this
    {
      && FifoOk(locate, orders, side, price, fifo[..k])
      && RefSet(fifo[..k]) !! seen
      && FifoTotal(orders, fifo[..k]) <= U64_MAX
    }

    method CheckFifo(side: Side, price: U32, fifo: seq<Node>, seen: set<U64>, violations: seq<Violation>)
      returns (seen': set<U64>, violations': seq<Violation>, calculated: U64)
      ensures seen' == seen + RefSet(fifo)
      ensures violations <= violations'
      ensures violations' == violations <==> Clean(side, price, fifo, seen, |fifo|)
      ensures violations' == violations ==> calculated == FifoTotal(orders, fifo)
    {
      seen', violations', calculated := seen, violations, 0;
      var previous: Option<U64> := None;
      for k := 0 to |fifo|
        invariant seen' == seen + RefSet(fifo[..k])
        invariant violations <= violations'
        invariant violations' == violations <==> Clean(side, price, fifo, seen, k)
        invariant violations' == violations ==>
                    && calculated == FifoTotal(orders, fifo[..k])
                    && (k == 0 ==> previous == None)
                    && (k > 0 ==> fifo[k - 1].reference in orders &&
                                  previous == Some(orders[fifo[k - 1].reference].priority))
      {
        ghost var before := violations';
        violations', calculated, previous := CheckNode(side, price, fifo[k], seen', violations', calculated, previous);
        seen' := seen' + {fifo[k].reference};
        CleanStep(side, price, fifo, seen, k);
        assert RefSet(fifo[..k + 1]) == RefSet(fifo[..k]) + {fifo[k].reference};
      }
      assert fifo[..|fifo|] == fifo;
    }

    /** What one more node has to satisfy. */
    lemma CleanStep(side: Side, price: U32, fifo: seq<Node>, seen: set<U64>, k: nat)
      requires k < |fifo|
      ensures Clean(side, price, fifo, seen, k + 1) <==>
              && Clean(side, price, fifo, seen, k)
              && fifo[k].reference !in seen + RefSet(fifo[..k])
              && NodeOk(locate, orders, side, price, fifo[k])
              && (k > 0 ==> fifo[k - 1].reference in orders &&
                            orders[fifo[k - 1].reference].priority < orders[fifo[k].reference].priority)
              && FifoTotal(orders, fifo[..k]) + RemainingOf(orders, fifo[k]) <= U64_MAX
      ensures FifoTotal(orders, fifo[..k + 1]) == FifoTotal(orders, fifo[..k]) + RemainingOf(orders, fifo[k])
    {
      CleanStepFifo(locate, orders, side, price, fifo, k);
      assert fifo[..k + 1][..k] == fifo[..k];
      assert RefSet(fifo[..k + 1]) == RefSet(fifo[..k]) + {fifo[k].reference};
    }

    /** The tests made on one node. */
    method CheckNode(side: Side, price: U32, node: Node, seen: set<U64>, violations: seq<Violation>,
                     calculated: U64, previous: Option<U64>)
      returns (violations': seq<Violation>, calculated': U64, previous': Option<U64>)
      ensures violations <= violations'
      ensures violations' == violations <==>
              && node.reference !in seen
              && NodeOk(locate, orders, side, price, node)
              && (previous.Some? ==> previous.value < orders[node.reference].priority)
              && calculated + RemainingOf(orders, node) <= U64_MAX
      ensures violations' == violations ==>
                && calculated' == calculated + RemainingOf(orders, node)
                && previous' == Some(orders[node.reference].priority)
    {
      violations', calculated', previous' := violations, calculated, previous;
      var found, at := Some(node.reference), Some(price);
      if node.reference in seen {
        violations' := violations' + [Violation(RepeatedOrder, found, at)];
      }
      if node.reference !in orders {
        violations' := violations' + [Violation(UnknownOrder, found, at)];
        return;
      }
      var order := orders[node.reference];
      if order.locate != locate || order.side != side || order.price != price {
        violations' := violations' + [Violation(ForeignFields, found, at)];
      }
      if order.remaining == 0 {
        violations' := violations' + [Violation(ZeroRemaining, found, at)];
      }
      if order.position != At(node) {
        violations' := violations' + [Violation(WrongIterator, found, at)];
      }
      if previous.Some? && previous.value >= order.priority {
        violations' := violations' + [Violation(PriorityOrder, found, at)];
      }
      previous' := Some(order.priority);
      var total := CheckedAdd(calculated, order.remaining);
      if total.None? {
        violations' := violations' + [Violation(SumOverflow, found, at)];
      } else {
        calculated' := total.value;
      }
    }

    method CheckSide(side: Side, seen: set<U64>, violations: seq<Violation>)
      returns (seen': set<U64>, violations': seq<Violation>)
      requires side != NotApplicable
      ensures forall r :: r in seen' <==> r in seen || Listed(State().On(side), Ranked(side, State().On(side).Keys), r)
      ensures violations <= violations'
      ensures violations' == [] ==> SideOk(State(), side)
      ensures (violations == [] && SideOk(State(), side) &&
               forall r :: r in seen && r in orders ==> orders[r].side != side)
              ==> violations' == []
    {
      hide LevelOk, Consistent;
      var levels := State().On(side);
      var prices := Ranked(side, levels.Keys);
      seen', violations' := seen, violations;
      ghost var clean := violations == [] && SideOk(State(), side) &&
                         forall r :: r in seen && r in orders ==> orders[r].side != side;
      for k := 0 to |prices|
        invariant forall r :: r in seen' <==> r in seen || Listed(levels, prices[..k], r)
        invariant violations <= violations'
        invariant violations' == [] ==>
                    forall i :: 0 <= i < k ==> LevelOk(locate, orders, side, prices[i], levels[prices[i]])
        invariant clean ==> violations' == []
      {
        var price := prices[k];
        assert price in levels;
        if clean {
          NoneListed(State(), side, seen, seen', prices, k);
        }
        seen', violations' := CheckLevel(side, price, levels[price], seen', violations');
        ListedNext(levels, prices, k);
      }
      assert prices[..|prices|] == prices;
    }

    /** The report is clean exactly when the representation invariant holds. */
    method CheckInvariants() returns (report: InvariantReport)
      ensures report.orderCount == |orders|
      ensures report.violations == [] <==> Valid()
    {
      hide LevelOk;
      var seen, violations := CheckSide(Buy, {}, []);
      if SideOk(State(), Buy) {
        forall r | r in seen && r in orders ensures orders[r].side != Sell {
          var p :| p in bids && r in RefSet(bids[p].fifo);
          ListedNamesLevel(State(), Buy, p, r);
        }
      }
      seen, violations := CheckSide(Sell, seen, violations);
      if SideOk(State(), Buy) && SideOk(State(), Sell) {
        SizeDecidesCompleteness(State(), seen);
      }
      if |seen| != |orders| {
        violations := violations + [Violation(MissingOrder, None, None)];
      }
      report := InvariantReport(|orders|, |bids|, |asks|, violations);
    }
  }
}
