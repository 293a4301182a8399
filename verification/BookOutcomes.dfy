/** What each operation decides on a sound book, told from the stored levels alone.  These lemmas
    show that every defensive branch of the operations is unreachable on a sound book. */
module BookOutcomes {
  import opened Types
  import opened BookModel
  import opened BookView
  import opened BookRep
  import opened BookDigest

  /** The checks an add passes before it looks at the levels. */
  predicate AddChecked(b: Book, m: BookMessage) {
    m.Add? && m.locate == b.locate && m.side != NotApplicable && 0 < m.shares <= U32_MAX && m.reference !in b.orders
  }

  function AddedOrder(m: BookMessage, node: Node): StoredOrder
    requires m.Add? && m.shares <= U32_MAX
  {
    StoredOrder(m.locate, m.side, m.price, m.shares, m.index, m.attribution, At(node))
  }

  /** The three outcomes of an add, told from the stored level alone. */
  lemma AddOutcome(b: Book, m: BookMessage, id: nat)
    requires Consistent(b) && AddChecked(b, m)
    ensures var live, levels := LiveOf(b.orders), b.On(m.side);
            var total := if m.price in levels then levels[m.price].total else 0;
            var added := AddedOrder(m, Node(id, m.reference));
            && (m.price in levels ==>
                  var fifo := levels[m.price].fifo;
                  fifo != [] && fifo[|fifo| - 1].reference in b.orders)
            && if total + m.shares > U64_MAX then
                 BookModel.ApplyAdd(live, b.locate, m) == Outcome(live, Rejected(Quantity, m.reference))
               else if m.price in levels &&
                       b.orders[levels[m.price].fifo[|levels[m.price].fifo| - 1].reference].priority >= m.index then
                 BookModel.ApplyAdd(live, b.locate, m) == Outcome(live, Rejected(Invariant, m.reference))
               else
                 var b' := b.With(m.side,
                                  levels[m.price := Level(total + m.shares,
                                                          (if m.price in levels then levels[m.price].fifo else []) +
                                                          [Node(id, m.reference)])],
                                  b.orders[m.reference := added]);
                 && Consistent(b')
                 && BookModel.ApplyAdd(live, b.locate, m) ==
                    Outcome(LiveOf(b'.orders),
                            Applied(BookDelta(AddKind, m.index, m.locate, m.reference, m.side, m.price, 0,
                                              m.shares, None)))
  {
    hide Consistent, LiveOf, LevelTotal, AllEarlier;
    LevelSummary(b, m.side, m.price, m.index);
    LiveKeys(b.orders);
    var added := AddedOrder(m, Node(id, m.reference));
    if Insertable(b, m.reference, added) {
      InsertedConsistent(b, m.reference, added);
      LiveOfUpdate(b.orders, m.reference, added);
      assert [] + [added.position.node] == [added.position.node];
    }
  }

  // ---------------------------------------------------------------- unlinking

  function Unlinked(b: Book, r: U64, updatedTotal: U64): Book
    requires r in b.orders && b.orders[r].position.At? && b.orders[r].price in b.On(b.orders[r].side)
  {
    var o := b.orders[r];
    var levels := b.On(o.side);
    var fifo := Without(levels[o.price].fifo, o.position.node);
    b.With(o.side,
           if fifo == [] then levels - {o.price} else levels[o.price := Level(updatedTotal, fifo)],
           b.orders - {r})
  }

  /** On a sound book every defensive test of the unlinking operations passes. */
  lemma EraseOutcome(b: Book, r: U64)
    requires Consistent(b) && r in b.orders
    ensures var o := b.orders[r];
            && o.side != NotApplicable
            && o.price in b.On(o.side)
            && o.position.At? && o.position.node.reference == r
            && var level := b.On(o.side)[o.price];
               && level.fifo != []
               && o.remaining <= level.total
               && (|level.fifo| == 1 <==> level.total == o.remaining)
               && Consistent(Unlinked(b, r, level.total - o.remaining))
               && LiveOf(b.orders - {r}) == LiveOf(b.orders) - {r}
  {
    hide Consistent, FifoOk, LiveOf;
    var i := EraseFacts(b, r);
    RestFifoOk(b, r);
    RestTotal(b, r);
    var o := b.orders[r];
    TotalZeroIffEmpty(b.locate, b.orders - {r}, o.side, o.price, Rest(b, r));
    ErasedConsistent(b, r);
    LiveOfRemove(b.orders, r);
    assert Erased(b, r) == Unlinked(b, r, b.On(o.side)[o.price].total - o.remaining);
  }

  /** A partial reduction leaves the level non-empty and the book sound. */
  lemma ReduceOutcome(b: Book, r: U64, taken: nat)
    requires Consistent(b) && Erasable(b, r) && taken < b.orders[r].remaining
    ensures taken < b.On(b.orders[r].side)[b.orders[r].price].total
    ensures Consistent(Reduced(b, r, taken))
    ensures var o := b.orders[r];
            LiveOf(b.orders[r := o.(remaining := o.remaining - taken)]) ==
            LiveOf(b.orders)[r := Forget(o).(remaining := o.remaining - taken)]
  {
    hide Consistent, LiveOf;
    var o := b.orders[r];
    EraseOutcome(b, r);
    ReducedConsistent(b, r, taken);
    LiveOfUpdate(b.orders, r, o.(remaining := o.remaining - taken));
  }

  // ---------------------------------------------------------------- replacing

  predicate ReplaceChecked(b: Book, m: BookMessage) {
    && m.Replace? && m.locate == b.locate && m.reference != m.replacement
    && m.reference in b.orders && m.replacement !in b.orders
    && b.orders[m.reference].priority < m.index
    && 0 < m.shares <= U32_MAX
  }

  function ReplacingOrder(m: BookMessage, original: StoredOrder, node: Node): StoredOrder
    requires m.Replace? && m.shares <= U32_MAX
  {
    StoredOrder(m.locate, original.side, m.price, m.shares, m.index, original.attribution, At(node))
  }

  /** The levels after `added` joins the price `to` and `gone` leaves the price `from`. */
  function Moved(levels: Levels, from: U32, gone: Node, to: U32, added: Node, sourceTotal: U64, targetTotal: U64): Levels
    requires from in levels
  {
    if from == to then levels[to := Level(targetTotal, Without(levels[to].fifo + [added], gone))]
    else
      var target := if to in levels then levels[to].fifo else [];
      var moved := levels[to := Level(targetTotal, target + [added])];
      var rest := Without(levels[from].fifo, gone);
      if rest == [] then moved - {from} else moved[from := Level(sourceTotal, rest)]
  }

  lemma {:induction false} WithoutAppend(fifo: seq<Node>, gone: Node, added: Node)
    requires gone in fifo
    ensures Without(fifo + [added], gone) == Without(fifo, gone) + [added]
  {
    if fifo[0] == gone {
      assert (fifo + [added])[1..] == fifo[1..] + [added];
    } else {
      WithoutAppend(fifo[1..], gone, added);
      assert (fifo + [added])[1..] == fifo[1..] + [added];
    }
  }

  /** Moving is erasing the original and then inserting the replacement. */
  lemma MovedIsEraseThenInsert(b: Book, m: BookMessage, added: StoredOrder, targetTotal: U64)
    requires Consistent(b) && ReplaceChecked(b, m) && Erasable(b, m.reference)
    requires var o, b1 := b.orders[m.reference], Erased(b, m.reference);
             && added.side == o.side && added.price == m.price && added.remaining == m.shares && added.position.At?
             && targetTotal == m.shares + if m.price in b1.On(o.side) then b1.On(o.side)[m.price].total else 0
    ensures var o := b.orders[m.reference];
            && o.remaining <= b.On(o.side)[o.price].total
            && Inserted(Erased(b, m.reference), m.replacement, added) ==
               b.With(o.side,
                      Moved(b.On(o.side), o.price, o.position.node, m.price, added.position.node,
                            b.On(o.side)[o.price].total - o.remaining, targetTotal),
                      b.orders[m.replacement := added] - {m.reference})
  {
    hide Consistent, LevelOk, LiveOf, Without;
    var i := Locate(b, m.reference);
    var o := b.orders[m.reference];
    WithoutAppend(b.On(o.side)[o.price].fifo, o.position.node, added.position.node);
    assert [] + [added.position.node] == [added.position.node];
    assert (b.orders - {m.reference})[m.replacement := added] == b.orders[m.replacement := added] - {m.reference};
  }

  /** What the target level looks like once the original is gone. */
  lemma TargetAfterErase(b: Book, m: BookMessage)
    requires Consistent(b) && ReplaceChecked(b, m) && Erasable(b, m.reference)
    ensures var o, b1 := b.orders[m.reference], Erased(b, m.reference);
            var levels := b.On(o.side);
            && LevelTotal(LiveOf(b1.orders), o.side, m.price) ==
               (if m.price in b1.On(o.side) then b1.On(o.side)[m.price].total else 0)
            && LevelTotal(LiveOf(b1.orders), o.side, m.price) ==
               (if m.price == o.price then levels[o.price].total - o.remaining
                else if m.price in levels then levels[m.price].total else 0)
  {
    hide Consistent;
    EraseOutcome(b, m.reference);
    ErasedConsistent(b, m.reference);
    LevelSummary(Erased(b, m.reference), b.orders[m.reference].side, m.price, m.index);
    RestLength(b, m.reference);
  }

  lemma RestLength(b: Book, r: U64)
    requires Consistent(b) && r in b.orders
    ensures Erasable(b, r) && |Rest(b, r)| == |b.On(b.orders[r].side)[b.orders[r].price].fifo| - 1
  {
    var i := EraseFacts(b, r);
    RestFifoOk(b, r);
  }

  /** The tail test of a replace, which ignores the original itself, decides for the others. */
  lemma TailWithoutOriginal(b: Book, m: BookMessage)
    requires Consistent(b) && ReplaceChecked(b, m)
    ensures var o := b.orders[m.reference];
            var levels := b.On(o.side);
            && (m.price in levels ==>
                  var fifo := levels[m.price].fifo; fifo != [] && fifo[|fifo| - 1].reference in b.orders)
            && (AllEarlier(LiveOf(b.orders - {m.reference}), o.side, m.price, m.index) <==>
                (m.price in levels ==>
                   var tail := levels[m.price].fifo[|levels[m.price].fifo| - 1].reference;
                   tail == m.reference || b.orders[tail].priority < m.index))
  {
    hide Consistent;
    var o := b.orders[m.reference];
    var live, others := LiveOf(b.orders), LiveOf(b.orders - {m.reference});
    EraseOutcome(b, m.reference);
    if m.price in b.On(o.side) {
      TailDecides(b, o.side, m.price, m.index);
      var fifo := b.On(o.side)[m.price].fifo;
      var tail := fifo[|fifo| - 1].reference;
      QueueOfLevel(b, o.side, m.price);
      QueueLast(live, OrdersAt(live, o.side, m.price), Refs(fifo));
      if tail != m.reference {
        assert tail in OrdersAt(others, o.side, m.price);
      }
      assert OrdersAt(others, o.side, m.price) <= OrdersAt(live, o.side, m.price);
    } else {
      NoLevelNoOrders(b, o.side, m.price);
      assert OrdersAt(others, o.side, m.price) <= OrdersAt(live, o.side, m.price);
    }
  }

  lemma ReplaceOutcome(b: Book, m: BookMessage, id: nat)
    requires Consistent(b) && ReplaceChecked(b, m)
    ensures Erasable(b, m.reference)
    ensures var live, o := LiveOf(b.orders), b.orders[m.reference];
            var levels := b.On(o.side);
            var node := Node(id, m.replacement);
            var sourceTotal := levels[o.price].total - o.remaining;
            var base := if m.price == o.price then sourceTotal
                        else if m.price in levels then levels[m.price].total else 0;
            && (m.price in levels ==>
                  var fifo := levels[m.price].fifo; fifo != [] && fifo[|fifo| - 1].reference in b.orders)
            && if base + m.shares > U64_MAX then
                 BookModel.ApplyReplace(live, b.locate, m) == Outcome(live, Rejected(Quantity, m.replacement))
               else if m.price in levels &&
                       var tail := levels[m.price].fifo[|levels[m.price].fifo| - 1].reference;
                       tail != m.reference && b.orders[tail].priority >= m.index then
                 BookModel.ApplyReplace(live, b.locate, m) == Outcome(live, Rejected(Invariant, m.replacement))
               else
                 var added := ReplacingOrder(m, o, node);
                 var b' := b.With(o.side,
                                  Moved(levels, o.price, o.position.node, m.price, node, sourceTotal, base + m.shares),
                                  b.orders[m.replacement := added] - {m.reference});
                 && Consistent(b')
                 && BookModel.ApplyReplace(live, b.locate, m) ==
                    Outcome(LiveOf(b'.orders),
                            Applied(BookDelta(ReplaceKind, m.index, m.locate, m.reference, o.side, m.price,
                                              o.remaining, m.shares, Some(m.replacement))))
  {
    hide Consistent, LiveOf, LevelTotal, AllEarlier, Moved;
    ErasedConsistent(b, m.reference);
    EraseOutcome(b, m.reference);
    TargetAfterErase(b, m);
    TailWithoutOriginal(b, m);
    LiveKeys(b.orders);
    var b1, o := Erased(b, m.reference), b.orders[m.reference];
    assert b1.orders == b.orders - {m.reference};
    var added := ReplacingOrder(m, o, Node(id, m.replacement));
    var total := LevelTotal(LiveOf(b1.orders), o.side, m.price) + m.shares;
    if total <= U64_MAX && AllEarlier(LiveOf(b1.orders), o.side, m.price, m.index) {
      MovedIsEraseThenInsert(b, m, added, total);
      InsertedConsistent(b1, m.replacement, added);
      LiveOfUpdate(b1.orders, m.replacement, added);
    }
  }

  // ---------------------------------------------------------------- reading the book

  lemma PricesAreKeys(b: Book, side: Side)
    requires Consistent(b) && side != NotApplicable
    ensures b.On(side).Keys == PricesOf(LiveOf(b.orders), side)
  {
    hide Consistent, LiveOf, PricesOf;
    var live := LiveOf(b.orders);
    forall p | p in b.On(side) ensures p in PricesOf(live, side) {
      KeyIsPrice(b, side, p);
    }
    forall p | p in PricesOf(live, side) ensures p in b.On(side) {
      PriceIsKey(b, side, p);
    }
  }

  lemma KeyIsPrice(b: Book, side: Side, p: U32)
    requires Consistent(b) && side != NotApplicable && p in b.On(side)
    ensures p in PricesOf(LiveOf(b.orders), side)
  {
    hide Consistent;
    var live := LiveOf(b.orders);
    LevelIsQueue(b, side, p);
    var r :| r in OrdersAt(live, side, p);
    assert live[r].price in PricesOf(live, side);
  }

  lemma PriceIsKey(b: Book, side: Side, p: U32)
    requires Consistent(b) && side != NotApplicable && p in PricesOf(LiveOf(b.orders), side)
    ensures p in b.On(side)
  {
    var live := LiveOf(b.orders);
    var r :| r in live && live[r].side == side && live[r].price == p;
    assert Placed(b, r);
  }

  lemma QueueExists(b: Book, side: Side, price: U32)
    requires Consistent(b)
    ensures LevelTotal(LiveOf(b.orders), side, price) <= U64_MAX
    ensures HasQueue(LiveOf(b.orders), side, price)
    ensures side != NotApplicable && price in b.On(side) ==>
              && LevelTotal(LiveOf(b.orders), side, price) == b.On(side)[price].total
              && Queue(LiveOf(b.orders), side, price) == Refs(b.On(side)[price].fifo)
  {
    var live := LiveOf(b.orders);
    if side == NotApplicable {
      forall r | r in b.orders ensures r !in OrdersAt(live, side, price) {
        assert Placed(b, r);
      }
      assert IsQueue(live, OrdersAt(live, side, price), []);
    } else if price in b.On(side) {
      LevelIsQueue(b, side, price);
      QueueIs(live, side, price, Refs(b.On(side)[price].fifo));
    } else {
      NoLevelNoOrders(b, side, price);
      assert IsQueue(live, OrdersAt(live, side, price), []);
    }
  }

  /** The live orders of a sound book form a book: queues everywhere and totals that fit. */
  lemma ConsistentBookable(b: Book)
    requires Consistent(b)
    ensures Bookable(LiveOf(b.orders))
  {
    var live := LiveOf(b.orders);
    forall side, price ensures LevelTotal(live, side, price) <= U64_MAX && HasQueue(live, side, price) {
      QueueExists(b, side, price);
    }
    forall r | r in live ensures live[r].side != NotApplicable {
      assert Placed(b, r);
    }
  }

  lemma BookableFits(live: Live)
    requires Bookable(live)
    ensures TotalsFit(live)
  {
  }

  /** The best stored levels are the top of the plain map. */
  lemma TopSideOf(b: Book, side: Side, depth: nat)
    requires Consistent(b) && side != NotApplicable
    ensures TotalsFit(LiveOf(b.orders))
    ensures var prices := Ranked(side, b.On(side).Keys);
            TopSide(LiveOf(b.orders), side, depth) ==
            seq(depth, i requires 0 <= i < depth =>
              if i < |prices| then Some(AggregatedLevel(prices[i], b.On(side)[prices[i]].total)) else None)
  {
    hide Consistent, Bookable, LevelTotal, LiveOf, HasQueue, Ranked, PricesOf, Queue;
    ConsistentBookable(b);
    BookableFits(LiveOf(b.orders));
    PricesAreKeys(b, side);
    var prices := Ranked(side, b.On(side).Keys);
    forall i | 0 <= i < |prices|
      ensures prices[i] in b.On(side) &&
              LevelTotal(LiveOf(b.orders), side, prices[i]) == b.On(side)[prices[i]].total
    {
      QueueExists(b, side, prices[i]);
    }
  }

  // ---------------------------------------------------------------- the runtime invariant check

  function RefSet(fifo: seq<Node>): set<U64> {
    set i | 0 <= i < |fifo| :: fifo[i].reference
  }

  ghost predicate Listed(levels: Levels, prices: seq<U32>, r: U64) {
    exists p :: p in prices && p in levels && r in RefSet(levels[p].fifo)
  }

  /** A listed order of a sound side names that side and the listing price. */
  lemma ListedNamesLevel(b: Book, side: Side, price: U32, r: U64)
    requires SideOk(b, side) && price in b.On(side)
    ensures r in RefSet(b.On(side)[price].fifo) ==>
              && r in b.orders && b.orders[r].side == side && b.orders[r].price == price
              && (side != NotApplicable ==> Placed(b, r))
  {
    var fifo := b.On(side)[price].fifo;
    assert LevelOk(b.locate, b.orders, side, price, b.On(side)[price]);
    if r in RefSet(fifo) {
      var i :| 0 <= i < |fifo| && fifo[i].reference == r;
      assert NodeOk(b.locate, b.orders, side, price, fifo[i]);
    }
  }

  lemma ListedStep(levels: Levels, prices: seq<U32>, k: nat, r: U64)
    requires k < |prices| && prices[k] in levels
    ensures Listed(levels, prices[..k + 1], r) <==>
            Listed(levels, prices[..k], r) || r in RefSet(levels[prices[k]].fifo)
  {
    assert prices[..k + 1] == prices[..k] + [prices[k]];
  }

  /** A sound side never lists an order at two of its prices. */
  lemma NotYetListed(b: Book, side: Side, seen: set<U64>, prices: seq<U32>, k: nat, r: U64)
    requires side != NotApplicable && SideOk(b, side) && BestFirst(side, prices) && k < |prices|
    requires forall p :: p in prices ==> p in b.On(side)
    requires forall s :: s in seen && s in b.orders ==> b.orders[s].side != side
    requires r in seen || Listed(b.On(side), prices[..k], r)
    ensures r !in RefSet(b.On(side)[prices[k]].fifo)
  {
    ListedNamesLevel(b, side, prices[k], r);
    if r !in seen {
      var p :| p in prices[..k] && p in b.On(side) && r in RefSet(b.On(side)[p].fifo);
      ListedNamesLevel(b, side, p, r);
    }
  }

  /** None of the orders seen so far rests at the next price. */
  lemma NoneListed(b: Book, side: Side, before: set<U64>, seen: set<U64>, prices: seq<U32>, k: nat)
    requires side != NotApplicable && SideOk(b, side) && BestFirst(side, prices) && k < |prices|
    requires forall p :: p in prices ==> p in b.On(side)
    requires forall s :: s in before && s in b.orders ==> b.orders[s].side != side
    requires forall r :: r in seen <==> r in before || Listed(b.On(side), prices[..k], r)
    ensures forall r :: r in seen ==> r !in RefSet(b.On(side)[prices[k]].fifo)
  {
    hide SideOk, Listed;
    forall r | r in seen ensures r !in RefSet(b.On(side)[prices[k]].fifo) {
      NotYetListed(b, side, before, prices, k, r);
    }
  }

  lemma ListedNext(levels: Levels, prices: seq<U32>, k: nat)
    requires k < |prices| && prices[k] in levels
    ensures forall r :: Listed(levels, prices[..k + 1], r) <==>
                        Listed(levels, prices[..k], r) || r in RefSet(levels[prices[k]].fifo)
  {
    hide Listed;
    forall r ensures Listed(levels, prices[..k + 1], r) <==>
                     Listed(levels, prices[..k], r) || r in RefSet(levels[prices[k]].fifo)
    {
      ListedStep(levels, prices, k, r);
    }
  }

  lemma CleanStepFifo(locate: U16, orders: Orders, side: Side, price: U32, fifo: seq<Node>, k: nat)
    requires k < |fifo|
    ensures FifoOk(locate, orders, side, price, fifo[..k + 1]) <==>
            && FifoOk(locate, orders, side, price, fifo[..k])
            && NodeOk(locate, orders, side, price, fifo[k])
            && (k > 0 ==> fifo[k - 1].reference in orders &&
                          orders[fifo[k - 1].reference].priority < orders[fifo[k].reference].priority)
    ensures FifoOk(locate, orders, side, price, fifo[..k + 1]) ==> fifo[k].reference !in RefSet(fifo[..k])
  {
    var a, b := fifo[..k], fifo[..k + 1];
    assert b == a + [fifo[k]];
    if FifoOk(locate, orders, side, price, b) {
      assert b[k] == fifo[k];
      if k > 0 {
        assert b[k - 1] == fifo[k - 1];
        assert NodeOk(locate, orders, side, price, b[k - 1]);
      }
      forall i | 0 <= i < k ensures a[i] == b[i] && NodeOk(locate, orders, side, price, a[i]) {
      }
    }
    if FifoOk(locate, orders, side, price, a) && NodeOk(locate, orders, side, price, fifo[k]) &&
       (k > 0 ==> fifo[k - 1].reference in orders &&
                  orders[fifo[k - 1].reference].priority < orders[fifo[k].reference].priority)
    {
      if k > 0 {
        assert a[k - 1] == fifo[k - 1];
      }
    }
  }

  /** What AppendLevel reads: the level is its queue and every listed order is indexed. */
  lemma LevelFacts(b: Book, side: Side, price: U32)
    requires Consistent(b) && side != NotApplicable && price in b.On(side)
    ensures forall i :: 0 <= i < |b.On(side)[price].fifo| ==> b.On(side)[price].fifo[i].reference in b.orders
  {
    var fifo := b.On(side)[price].fifo;
    assert LevelOk(b.locate, b.orders, side, price, b.On(side)[price]);
    forall i | 0 <= i < |fifo| ensures fifo[i].reference in b.orders {
      assert NodeOk(b.locate, b.orders, side, price, fifo[i]);
    }
  }

  /** Exactly the orders that the levels list. */
  ghost predicate SeenIs(b: Book, seen: set<U64>) {
    forall r :: r in seen <==>
      Listed(b.bids, Ranked(Buy, b.bids.Keys), r) || Listed(b.asks, Ranked(Sell, b.asks.Keys), r)
  }

  lemma SeenArePlaced(b: Book, seen: set<U64>, r: U64)
    requires SideOk(b, Buy) && SideOk(b, Sell) && SeenIs(b, seen) && r in seen
    ensures r in b.orders && Placed(b, r)
  {
    hide LevelOk, Ranked, Placed, SideOk;
    if Listed(b.bids, Ranked(Buy, b.bids.Keys), r) {
      var p :| p in b.bids && r in RefSet(b.bids[p].fifo);
      ListedNamesLevel(b, Buy, p, r);
    } else {
      var p :| p in b.asks && r in RefSet(b.asks[p].fifo);
      ListedNamesLevel(b, Sell, p, r);
    }
  }

  /** With every listed order in place, comparing two sizes decides that none is missing. */
  lemma SizeDecidesCompleteness(b: Book, seen: set<U64>)
    requires SideOk(b, Buy) && SideOk(b, Sell) && SeenIs(b, seen)
    ensures |seen| == |b.orders| <==> Consistent(b)
  {
    hide LevelOk, SideOk, Ranked, Placed, Listed;
    forall r | r in seen ensures r in b.orders && Placed(b, r) {
      SeenArePlaced(b, seen, r);
    }
    assert seen <= b.orders.Keys;
    if |seen| == |b.orders| {
      SameSize(seen, b.orders.Keys);
    }
    if Consistent(b) {
      forall r | r in b.orders ensures r in seen {
        PlacedIsListed(b, r);
      }
      assert seen == b.orders.Keys;
    }
  }

  lemma PlacedIsListed(b: Book, r: U64)
    requires r in b.orders && Placed(b, r)
    ensures var o := b.orders[r];
            && (o.side == Buy ==> Listed(b.bids, Ranked(Buy, b.bids.Keys), r))
            && (o.side == Sell ==> Listed(b.asks, Ranked(Sell, b.asks.Keys), r))
            && o.side != NotApplicable
  {
    hide Ranked;
    var o := b.orders[r];
    var fifo := b.On(o.side)[o.price].fifo;
    var i :| 0 <= i < |fifo| && fifo[i] == o.position.node;
    assert fifo[i].reference in RefSet(fifo);
    assert o.price in Ranked(o.side, b.On(o.side).Keys);
  }

  lemma SameSize(a: set<U64>, b: set<U64>)
    requires a <= b && |a| == |b|
    ensures a == b
  {
    assert |b - a| == 0;
  }

  // ---------------------------------------------------------------- plain maps that a book can index

  /** Some sound book holds exactly these live orders. */
  ghost predicate Indexable(locate: U16, live: Live) {
    exists b :: Consistent(b) && b.locate == locate && LiveOf(b.orders) == live
  }

  lemma EmptyIndexable(locate: U16)
    ensures Indexable(locate, map[])
  {
    var b := Book(locate, map[], map[], map[]);
    assert Consistent(b) && LiveOf(b.orders) == map[];
  }

  lemma AddIndexable(b: Book, m: BookMessage)
    requires Consistent(b) && m.Add?
    ensures Indexable(b.locate, BookModel.ApplyAdd(LiveOf(b.orders), b.locate, m).live)
  {
    hide Consistent, BookModel.ApplyAdd, LiveOf;
    LiveKeys(b.orders);
    if AddChecked(b, m) {
      AddOutcome(b, m, 0);
    } else {
      AddUnchecked(b, m);
    }
  }

  lemma AddUnchecked(b: Book, m: BookMessage)
    requires m.Add? && !AddChecked(b, m)
    ensures BookModel.ApplyAdd(LiveOf(b.orders), b.locate, m).live == LiveOf(b.orders)
  {
  }

  lemma ReductionIndexable(b: Book, m: BookMessage)
    requires Consistent(b) && (m.Execute? || m.Cancel?)
    ensures Indexable(b.locate, BookModel.ApplyReduction(LiveOf(b.orders), b.locate, m).live)
  {
    hide Consistent, LiveOf, Unlinked, Reduced;
    LiveKeys(b.orders);
    var out := BookModel.ApplyReduction(LiveOf(b.orders), b.locate, m);
    if out.result.Applied? {
      var r := m.reference;
      EraseOutcome(b, r);
      if m.shares == b.orders[r].remaining {
        var b' := Unlinked(b, r, b.On(b.orders[r].side)[b.orders[r].price].total - b.orders[r].remaining);
        UnlinkedOrders(b, r, b.On(b.orders[r].side)[b.orders[r].price].total - b.orders[r].remaining);
        assert Consistent(b');
      } else {
        ReduceOutcome(b, r, m.shares);
        ReducedOrders(b, r, m.shares);
        assert Consistent(Reduced(b, r, m.shares));
      }
    }
  }

  lemma UnlinkedOrders(b: Book, r: U64, total: U64)
    requires r in b.orders && b.orders[r].position.At? && b.orders[r].price in b.On(b.orders[r].side)
    ensures Unlinked(b, r, total).orders == b.orders - {r} && Unlinked(b, r, total).locate == b.locate
  {
  }

  lemma ReducedOrders(b: Book, r: U64, taken: nat)
    requires Erasable(b, r) && taken < b.orders[r].remaining
    ensures Reduced(b, r, taken).locate == b.locate
    ensures Reduced(b, r, taken).orders == b.orders[r := b.orders[r].(remaining := b.orders[r].remaining - taken)]
  {
  }

  lemma DeleteIndexable(b: Book, m: BookMessage)
    requires Consistent(b) && m.Delete?
    ensures Indexable(b.locate, BookModel.ApplyDelete(LiveOf(b.orders), b.locate, m).live)
  {
    hide Consistent, LiveOf, Unlinked;
    LiveKeys(b.orders);
    if BookModel.ApplyDelete(LiveOf(b.orders), b.locate, m).result.Applied? {
      var r := m.reference;
      EraseOutcome(b, r);
      var total := b.On(b.orders[r].side)[b.orders[r].price].total - b.orders[r].remaining;
      UnlinkedOrders(b, r, total);
      assert Consistent(Unlinked(b, r, total));
    }
  }

  lemma ReplaceIndexable(b: Book, m: BookMessage)
    requires Consistent(b) && m.Replace?
    ensures Indexable(b.locate, BookModel.ApplyReplace(LiveOf(b.orders), b.locate, m).live)
  {
    hide Consistent, LiveOf, BookModel.ApplyReplace, Moved;
    LiveKeys(b.orders);
    if ReplaceChecked(b, m) {
      ReplaceOutcome(b, m, 0);
    } else {
      ReplaceUnchecked(b, m);
    }
  }

  lemma ReplaceUnchecked(b: Book, m: BookMessage)
    requires m.Replace? && !ReplaceChecked(b, m)
    ensures BookModel.ApplyReplace(LiveOf(b.orders), b.locate, m).live == LiveOf(b.orders)
  {
  }

  /** Whatever message arrives, the plain map stays one that a sound book indexes. */
  lemma ApplyIndexable(locate: U16, live: Live, m: BookMessage)
    requires Indexable(locate, live)
    ensures Indexable(locate, BookModel.Apply(live, locate, m).live)
  {
    hide Consistent, BookModel.ApplyAdd, BookModel.ApplyReduction, BookModel.ApplyDelete, BookModel.ApplyReplace;
    var b :| Consistent(b) && b.locate == locate && LiveOf(b.orders) == live;
    match m
    case Add(_, _, _, _, _, _, _) => AddIndexable(b, m);
    case Delete(_, _, _) => DeleteIndexable(b, m);
    case Replace(_, _, _, _, _, _) => ReplaceIndexable(b, m);
    case _ => ReductionIndexable(b, m);
  }

  /** Live orders that a sound book indexes are positive, sided and form queues. */
  lemma IndexableFacts(locate: U16, live: Live)
    requires Indexable(locate, live)
    ensures Bookable(live)
    ensures forall r :: r in live ==> live[r].remaining > 0
  {
    var b :| Consistent(b) && b.locate == locate && LiveOf(b.orders) == live;
    ConsistentBookable(b);
    forall r | r in live ensures live[r].remaining > 0 {
      var i := Locate(b, r);
      var o := b.orders[r];
      assert NodeOk(b.locate, b.orders, o.side, o.price, b.On(o.side)[o.price].fifo[i]);
    }
  }
}
