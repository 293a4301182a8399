/** The three structures of the indexed book as one value: bid levels, ask levels and the order
    index, with the invariant that ties them together and what each kind of update does to it. */
module BookRep {
  import opened Types
  import opened BookModel
  import opened BookView

  /** A std::list node. Two nodes that carry the same reference are still different nodes. */
  datatype Node = Node(id: nat, reference: U64)

  datatype Iterator = End | At(node: Node)

  datatype Level = Level(total: U64, fifo: seq<Node>)

  datatype StoredOrder = StoredOrder(
    locate: U16,
    side: Side,
    price: U32,
    remaining: U32,
    priority: U64,
    attribution: Option<Attribution>,
    position: Iterator)

  type Levels = map<U32, Level>
  type Orders = map<U64, StoredOrder>

  datatype Book = Book(locate: U16, bids: Levels, asks: Levels, orders: Orders) {
    function On(side: Side): Levels {
      if side.Buy? then bids else asks
    }

    function With(side: Side, levels: Levels, newOrders: Orders): Book {
      if side.Buy? then Book(locate, levels, asks, newOrders) else Book(locate, bids, levels, newOrders)
    }
  }

  function Forget(o: StoredOrder): Order {
    Order(o.side, o.price, o.remaining, o.priority, o.attribution)
  }

  /** The plain map of live orders that the book indexes. */
  function LiveOf(orders: Orders): Live {
    map r | r in orders :: Forget(orders[r])
  }

  // ---------------------------------------------------------------- the invariant

  predicate NodeOk(locate: U16, orders: Orders, side: Side, price: U32, node: Node) {
    && node.reference in orders
    && var o := orders[node.reference];
       && o.locate == locate && o.side == side && o.price == price
       && o.remaining > 0
       && o.position == At(node)
  }

  ghost predicate FifoOk(locate: U16, orders: Orders, side: Side, price: U32, fifo: seq<Node>) {
    && (forall i :: 0 <= i < |fifo| ==> NodeOk(locate, orders, side, price, fifo[i]))
    && (forall i, j :: 0 <= i < j < |fifo| ==>
          orders[fifo[i].reference].priority < orders[fifo[j].reference].priority)
  }

  function RemainingOf(orders: Orders, node: Node): nat {
    if node.reference in orders then orders[node.reference].remaining else 0
  }

  ghost function FifoTotal(orders: Orders, fifo: seq<Node>): nat {
    if fifo == [] then 0
    else FifoTotal(orders, fifo[..|fifo| - 1]) + RemainingOf(orders, fifo[|fifo| - 1])
  }

  ghost predicate LevelOk(locate: U16, orders: Orders, side: Side, price: U32, level: Level) {
    && level.fifo != []
    && FifoOk(locate, orders, side, price, level.fifo)
    && level.total == FifoTotal(orders, level.fifo)
  }

  ghost predicate SideOk(b: Book, side: Side) {
    forall p :: p in b.On(side) ==> LevelOk(b.locate, b.orders, side, p, b.On(side)[p])
  }

  /** The order is in the FIFO that its own fields name. */
  ghost predicate Placed(b: Book, r: U64)
    requires r in b.orders
  {
    var o := b.orders[r];
    && o.side != NotApplicable
    && o.price in b.On(o.side)
    && o.position.At?
    && o.position.node.reference == r
    && o.position.node in b.On(o.side)[o.price].fifo
  }

  /** The representation invariant: every level is non-empty, lists live orders of this book, side
      and price with strictly increasing priorities, and totals their remainders; every order's
      iterator points to its own node; and no live order is missing from the levels. */
  ghost predicate Consistent(b: Book) {
    && SideOk(b, Buy)
    && SideOk(b, Sell)
    && forall r :: r in b.orders ==> Placed(b, r)
  }

  // ---------------------------------------------------------------- FIFO lists

  function Without(fifo: seq<Node>, node: Node): seq<Node> {
    if fifo == [] then []
    else if fifo[0] == node then fifo[1..]
    else [fifo[0]] + Without(fifo[1..], node)
  }

  lemma {:induction false} WithoutAt(fifo: seq<Node>, i: nat)
    requires i < |fifo| && forall j :: 0 <= j < i ==> fifo[j] != fifo[i]
    ensures Without(fifo, fifo[i]) == fifo[..i] + fifo[i + 1..]
  {
    if i > 0 {
      assert fifo[0] != fifo[i];
      WithoutAt(fifo[1..], i - 1);
      assert fifo[1..][i - 1] == fifo[i];
      assert [fifo[0]] + (fifo[1..][..i - 1] + fifo[1..][i..]) == fifo[..i] + fifo[i + 1..];
    }
  }

  lemma {:induction false} FifoTotalFrame(orders: Orders, other: Orders, fifo: seq<Node>)
    requires forall i :: 0 <= i < |fifo| ==> RemainingOf(orders, fifo[i]) == RemainingOf(other, fifo[i])
    ensures FifoTotal(orders, fifo) == FifoTotal(other, fifo)
  {
    if fifo != [] {
      FifoTotalFrame(orders, other, fifo[..|fifo| - 1]);
    }
  }

  lemma {:induction false} FifoTotalSplit(orders: Orders, fifo: seq<Node>, i: nat)
    requires i < |fifo|
    ensures FifoTotal(orders, fifo) == FifoTotal(orders, fifo[..i] + fifo[i + 1..]) + RemainingOf(orders, fifo[i])
  {
    var last := |fifo| - 1;
    if i == last {
      assert fifo[..i] + fifo[i + 1..] == fifo[..last];
    } else {
      FifoTotalSplit(orders, fifo[..last], i);
      var rest := fifo[..i] + fifo[i + 1..];
      assert rest[..|rest| - 1] == fifo[..last][..i] + fifo[..last][i + 1..];
      assert rest[|rest| - 1] == fifo[last];
    }
  }

  lemma FifoTotalPush(orders: Orders, fifo: seq<Node>, node: Node)
    ensures FifoTotal(orders, fifo + [node]) == FifoTotal(orders, fifo) + RemainingOf(orders, node)
  {
    assert (fifo + [node])[..|fifo|] == fifo;
  }

  /** A level does not notice changes to orders that it does not list. */
  lemma LevelFrame(locate: U16, orders: Orders, other: Orders, side: Side, price: U32, level: Level)
    requires LevelOk(locate, orders, side, price, level)
    requires forall i :: 0 <= i < |level.fifo| ==>
               level.fifo[i].reference in other &&
               other[level.fifo[i].reference] == orders[level.fifo[i].reference]
    ensures LevelOk(locate, other, side, price, level)
  {
    forall i | 0 <= i < |level.fifo| ensures NodeOk(locate, other, side, price, level.fifo[i]) {
      assert NodeOk(locate, orders, side, price, level.fifo[i]);
    }
    FifoTotalFrame(orders, other, level.fifo);
  }

  // ---------------------------------------------------------------- refinement of the plain map

  function Refs(fifo: seq<Node>): (refs: seq<U64>)
    ensures |refs| == |fifo| && forall i :: 0 <= i < |fifo| ==> refs[i] == fifo[i].reference
  {
    seq(|fifo|, i requires 0 <= i < |fifo| => fifo[i].reference)
  }

  /** Each stored level is the queue of its price in the plain map, with the right total. */
  lemma LevelIsQueue(b: Book, side: Side, price: U32)
    requires Consistent(b) && side != NotApplicable && price in b.On(side)
    ensures OrdersAt(LiveOf(b.orders), side, price) != {}
    ensures IsQueue(LiveOf(b.orders), OrdersAt(LiveOf(b.orders), side, price), Refs(b.On(side)[price].fifo))
    ensures b.On(side)[price].total == LevelTotal(LiveOf(b.orders), side, price)
  {
    var live, level := LiveOf(b.orders), b.On(side)[price];
    var refs := OrdersAt(live, side, price);
    assert LevelOk(b.locate, b.orders, side, price, level);
    QueueOfLevel(b, side, price);
    assert NodeOk(b.locate, b.orders, side, price, level.fifo[0]);
    FifoTotalIsQueueShares(b.orders, level.fifo);
    QueueSharesIsTotal(live, refs, Refs(level.fifo));
  }

  lemma QueueOfLevel(b: Book, side: Side, price: U32)
    requires Consistent(b) && side != NotApplicable && price in b.On(side)
    ensures IsQueue(LiveOf(b.orders), OrdersAt(LiveOf(b.orders), side, price), Refs(b.On(side)[price].fifo))
  {
    var live, fifo := LiveOf(b.orders), b.On(side)[price].fifo;
    assert LevelOk(b.locate, b.orders, side, price, b.On(side)[price]);
    forall r | r in OrdersAt(live, side, price) ensures r in Refs(fifo) {
      assert Placed(b, r);
      var i :| 0 <= i < |fifo| && fifo[i] == b.orders[r].position.node;
      assert Refs(fifo)[i] == r;
    }
    forall i | 0 <= i < |fifo| ensures Refs(fifo)[i] in OrdersAt(live, side, price) {
      assert NodeOk(b.locate, b.orders, side, price, fifo[i]);
    }
  }

  lemma {:induction false} FifoTotalIsQueueShares(orders: Orders, fifo: seq<Node>)
    requires forall i :: 0 <= i < |fifo| ==> fifo[i].reference in orders
    ensures FifoTotal(orders, fifo) == QueueShares(LiveOf(orders), Refs(fifo))
  {
    if fifo != [] {
      var init := fifo[..|fifo| - 1];
      FifoTotalIsQueueShares(orders, init);
      assert Refs(init) == Refs(fifo)[..|fifo| - 1];
    }
  }

  /** A price without a stored level has no live order. */
  lemma NoLevelNoOrders(b: Book, side: Side, price: U32)
    requires Consistent(b) && side != NotApplicable && price !in b.On(side)
    ensures OrdersAt(LiveOf(b.orders), side, price) == {}
    ensures LevelTotal(LiveOf(b.orders), side, price) == 0
  {
    forall r | r in b.orders ensures r !in OrdersAt(LiveOf(b.orders), side, price) {
      assert Placed(b, r);
    }
  }

  /** The priority test that the book makes on the FIFO tail speaks for the whole level. */
  lemma TailDecides(b: Book, side: Side, price: U32, index: U64)
    requires Consistent(b) && side != NotApplicable && price in b.On(side)
    ensures var fifo := b.On(side)[price].fifo;
            && fifo != [] && fifo[|fifo| - 1].reference in b.orders
            && (AllEarlier(LiveOf(b.orders), side, price, index) <==>
                b.orders[fifo[|fifo| - 1].reference].priority < index)
  {
    var live, fifo := LiveOf(b.orders), b.On(side)[price].fifo;
    assert LevelOk(b.locate, b.orders, side, price, b.On(side)[price]);
    assert NodeOk(b.locate, b.orders, side, price, fifo[|fifo| - 1]);
    QueueOfLevel(b, side, price);
    QueueLast(live, OrdersAt(live, side, price), Refs(fifo));
  }

  /** What the book reads off a stored level is what the plain map says about the price. */
  lemma LevelSummary(b: Book, side: Side, price: U32, index: U64)
    requires Consistent(b) && side != NotApplicable
    ensures LevelTotal(LiveOf(b.orders), side, price) == if price in b.On(side) then b.On(side)[price].total else 0
    ensures price in b.On(side) ==>
              var fifo := b.On(side)[price].fifo;
              fifo != [] && fifo[|fifo| - 1].reference in b.orders
    ensures AllEarlier(LiveOf(b.orders), side, price, index) <==>
            (price in b.On(side) ==>
               b.orders[b.On(side)[price].fifo[|b.On(side)[price].fifo| - 1].reference].priority < index)
  {
    if price in b.On(side) {
      LevelIsQueue(b, side, price);
      TailDecides(b, side, price, index);
    } else {
      NoLevelNoOrders(b, side, price);
    }
  }

  // ---------------------------------------------------------------- the updates

  lemma LiveKeys(orders: Orders)
    ensures LiveOf(orders).Keys == orders.Keys
    ensures forall r :: r in orders ==> LiveOf(orders)[r] == Forget(orders[r])
  {
  }

  lemma LiveOfUpdate(orders: Orders, r: U64, o: StoredOrder)
    ensures LiveOf(orders[r := o]) == LiveOf(orders)[r := Forget(o)]
  {
  }

  lemma LiveOfRemove(orders: Orders, r: U64)
    ensures LiveOf(orders - {r}) == LiveOf(orders) - {r}
  {
  }

  /** Append an order to the FIFO of its price. */
  function Inserted(b: Book, r: U64, o: StoredOrder): Book
    requires o.position.At?
    requires o.price in b.On(o.side) ==> b.On(o.side)[o.price].total + o.remaining <= U64_MAX
  {
    var levels := b.On(o.side);
    var level := if o.price in levels
                 then Level(levels[o.price].total + o.remaining, levels[o.price].fifo + [o.position.node])
                 else Level(o.remaining, [o.position.node]);
    b.With(o.side, levels[o.price := level], b.orders[r := o])
  }

  ghost predicate Insertable(b: Book, r: U64, o: StoredOrder) {
    && r !in b.orders
    && o.locate == b.locate && o.side != NotApplicable && o.remaining > 0
    && o.position.At? && o.position.node.reference == r
    && (o.price in b.On(o.side) ==>
          && b.On(o.side)[o.price].total + o.remaining <= U64_MAX
          && AllEarlier(LiveOf(b.orders), o.side, o.price, o.priority))
  }

  /** Nodes that were sound stay so when a new order is indexed. */
  lemma InsertedNode(b: Book, r: U64, o: StoredOrder, side: Side, price: U32, node: Node)
    requires r !in b.orders && NodeOk(b.locate, b.orders, side, price, node)
    ensures NodeOk(b.locate, b.orders[r := o], side, price, node)
    ensures b.orders[r := o][node.reference] == b.orders[node.reference]
  {
  }

  lemma InsertedFifoOk(b: Book, r: U64, o: StoredOrder, fifo: seq<Node>)
    requires r !in b.orders && o.locate == b.locate && o.remaining > 0
    requires o.position.At? && o.position.node.reference == r
    requires FifoOk(b.locate, b.orders, o.side, o.price, fifo)
    requires forall i :: 0 <= i < |fifo| ==> b.orders[fifo[i].reference].priority < o.priority
    ensures FifoOk(b.locate, b.orders[r := o], o.side, o.price, fifo + [o.position.node])
    ensures FifoTotal(b.orders[r := o], fifo + [o.position.node]) == FifoTotal(b.orders, fifo) + o.remaining
  {
    forall i | 0 <= i < |fifo|
      ensures NodeOk(b.locate, b.orders[r := o], o.side, o.price, fifo[i])
      ensures b.orders[r := o][fifo[i].reference] == b.orders[fifo[i].reference]
    {
      InsertedNode(b, r, o, o.side, o.price, fifo[i]);
    }
    FifoTotalFrame(b.orders, b.orders[r := o], fifo);
    FifoTotalPush(b.orders[r := o], fifo, o.position.node);
  }

  lemma InsertedLevel(b: Book, r: U64, o: StoredOrder)
    requires Consistent(b) && Insertable(b, r, o)
    ensures LevelOk(b.locate, b.orders[r := o], o.side, o.price, Inserted(b, r, o).On(o.side)[o.price])
  {
    if o.price in b.On(o.side) {
      hide FifoTotal;
      var fifo := b.On(o.side)[o.price].fifo;
      assert LevelOk(b.locate, b.orders, o.side, o.price, b.On(o.side)[o.price]);
      forall i | 0 <= i < |fifo| ensures b.orders[fifo[i].reference].priority < o.priority {
        assert NodeOk(b.locate, b.orders, o.side, o.price, fifo[i]);
        assert fifo[i].reference in OrdersAt(LiveOf(b.orders), o.side, o.price);
      }
      InsertedFifoOk(b, r, o, fifo);
    } else {
      InsertedFifoOk(b, r, o, []);
      assert [] + [o.position.node] == [o.position.node];
    }
  }

  lemma InsertedOther(b: Book, r: U64, o: StoredOrder, side: Side, price: U32)
    requires Consistent(b) && Insertable(b, r, o) && side != NotApplicable
    requires (side != o.side || price != o.price) && price in b.On(side)
    ensures var b' := Inserted(b, r, o);
            price in b'.On(side) && LevelOk(b'.locate, b'.orders, side, price, b'.On(side)[price])
  {
    var b' := Inserted(b, r, o);
    var level := b.On(side)[price];
    assert LevelOk(b.locate, b.orders, side, price, level);
    forall i | 0 <= i < |level.fifo|
      ensures level.fifo[i].reference in b'.orders &&
              b'.orders[level.fifo[i].reference] == b.orders[level.fifo[i].reference]
    {
      assert NodeOk(b.locate, b.orders, side, price, level.fifo[i]);
    }
    LevelFrame(b.locate, b.orders, b'.orders, side, price, level);
  }

  lemma InsertedSide(b: Book, r: U64, o: StoredOrder, side: Side)
    requires Consistent(b) && Insertable(b, r, o) && side != NotApplicable
    ensures SideOk(Inserted(b, r, o), side)
  {
    var b' := Inserted(b, r, o);
    forall price | price in b'.On(side)
      ensures LevelOk(b'.locate, b'.orders, side, price, b'.On(side)[price])
    {
      if side == o.side && price == o.price {
        InsertedLevel(b, r, o);
      } else {
        InsertedOther(b, r, o, side, price);
      }
    }
  }

  lemma InsertedPlaced(b: Book, r: U64, o: StoredOrder, s: U64)
    requires Consistent(b) && Insertable(b, r, o) && (s == r || s in b.orders)
    ensures Placed(Inserted(b, r, o), s)
  {
    var b' := Inserted(b, r, o);
    if s != r {
      assert Placed(b, s);
    } else {
      var fifo := b'.On(o.side)[o.price].fifo;
      assert fifo[|fifo| - 1] == o.position.node;
    }
  }

  lemma InsertedConsistent(b: Book, r: U64, o: StoredOrder)
    requires Consistent(b) && Insertable(b, r, o)
    ensures Consistent(Inserted(b, r, o))
  {
    InsertedSide(b, r, o, Buy);
    InsertedSide(b, r, o, Sell);
    forall s | s in Inserted(b, r, o).orders ensures Placed(Inserted(b, r, o), s) {
      InsertedPlaced(b, r, o, s);
    }
  }

  ghost predicate Erasable(b: Book, r: U64) {
    && r in b.orders && b.orders[r].position.At?
    && b.orders[r].price in b.On(b.orders[r].side)
    && b.orders[r].remaining <= b.On(b.orders[r].side)[b.orders[r].price].total
  }

  /** Unlink an order from its FIFO and drop its level when that empties it. */
  function Erased(b: Book, r: U64): Book
    requires r in b.orders && b.orders[r].position.At?
    requires b.orders[r].price in b.On(b.orders[r].side)
    requires b.orders[r].remaining <= b.On(b.orders[r].side)[b.orders[r].price].total
  {
    var o := b.orders[r];
    var levels := b.On(o.side);
    var fifo := Without(levels[o.price].fifo, o.position.node);
    b.With(o.side,
           if fifo == [] then levels - {o.price}
           else levels[o.price := Level(levels[o.price].total - o.remaining, fifo)],
           b.orders - {r})
  }

  lemma Locate(b: Book, r: U64) returns (i: nat)
    requires Consistent(b) && r in b.orders
    ensures Placed(b, r) && LevelOk(b.locate, b.orders, b.orders[r].side, b.orders[r].price,
                                    b.On(b.orders[r].side)[b.orders[r].price])
    ensures var fifo := b.On(b.orders[r].side)[b.orders[r].price].fifo;
            i < |fifo| && fifo[i] == b.orders[r].position.node
  {
    assert Placed(b, r);
    var o := b.orders[r];
    i :| 0 <= i < |b.On(o.side)[o.price].fifo| && b.On(o.side)[o.price].fifo[i] == o.position.node;
  }

  /** References never repeat in a sound FIFO. */
  lemma FifoDistinct(locate: U16, orders: Orders, side: Side, price: U32, fifo: seq<Node>, i: nat, j: nat)
    requires FifoOk(locate, orders, side, price, fifo) && i < |fifo| && j < |fifo| && i != j
    ensures fifo[i].reference in orders && fifo[i].reference != fifo[j].reference
  {
    assert NodeOk(locate, orders, side, price, fifo[i]);
    if i < j {
      assert orders[fifo[i].reference].priority < orders[fifo[j].reference].priority;
    } else {
      assert orders[fifo[j].reference].priority < orders[fifo[i].reference].priority;
    }
  }

  /** Where the order sits, and what the level is without it. */
  lemma EraseFacts(b: Book, r: U64) returns (i: nat)
    requires Consistent(b) && r in b.orders
    ensures Placed(b, r)
    ensures var o := b.orders[r];
            var level := b.On(o.side)[o.price];
            && i < |level.fifo| && level.fifo[i] == o.position.node
            && Without(level.fifo, o.position.node) == level.fifo[..i] + level.fifo[i + 1..]
            && level.total == FifoTotal(b.orders, level.fifo[..i] + level.fifo[i + 1..]) + o.remaining
            && (forall j :: 0 <= j < |level.fifo| && j != i ==>
                  level.fifo[j].reference in b.orders && level.fifo[j].reference != r)
  {
    i := Locate(b, r);
    var o := b.orders[r];
    var fifo := b.On(o.side)[o.price].fifo;
    forall j | 0 <= j < |fifo| && j != i ensures fifo[j].reference in b.orders && fifo[j].reference != r {
      FifoDistinct(b.locate, b.orders, o.side, o.price, fifo, j, i);
    }
    WithoutAt(fifo, i);
    FifoTotalSplit(b.orders, fifo, i);
  }

  /** Every listed order has a positive remainder, so a level is empty exactly when it totals 0. */
  lemma TotalZeroIffEmpty(locate: U16, orders: Orders, side: Side, price: U32, fifo: seq<Node>)
    requires FifoOk(locate, orders, side, price, fifo)
    ensures FifoTotal(orders, fifo) == 0 <==> fifo == []
  {
    if fifo != [] {
      assert NodeOk(locate, orders, side, price, fifo[|fifo| - 1]);
    }
  }

  /** The FIFO that an order leaves behind. */
  ghost function Rest(b: Book, r: U64): seq<Node>
    requires r in b.orders && b.orders[r].position.At? && b.orders[r].price in b.On(b.orders[r].side)
  {
    Without(b.On(b.orders[r].side)[b.orders[r].price].fifo, b.orders[r].position.node)
  }

  lemma DropFifoOk(locate: U16, orders: Orders, side: Side, price: U32, fifo: seq<Node>, i: nat)
    requires FifoOk(locate, orders, side, price, fifo) && i < |fifo|
    ensures FifoOk(locate, orders - {fifo[i].reference}, side, price, fifo[..i] + fifo[i + 1..])
  {
    var rest := fifo[..i] + fifo[i + 1..];
    var orders' := orders - {fifo[i].reference};
    forall j | 0 <= j < |rest|
      ensures NodeOk(locate, orders', side, price, rest[j])
      ensures orders'[rest[j].reference] == orders[rest[j].reference]
    {
      var k := if j < i then j else j + 1;
      assert rest[j] == fifo[k] && NodeOk(locate, orders, side, price, fifo[k]);
      assert NodeOk(locate, orders, side, price, fifo[i]);
    }
    forall j, k | 0 <= j < k < |rest|
      ensures orders'[rest[j].reference].priority < orders'[rest[k].reference].priority
    {
      assert rest[j] == fifo[if j < i then j else j + 1] && rest[k] == fifo[if k < i then k else k + 1];
    }
  }

  lemma RestFifoOk(b: Book, r: U64)
    requires Consistent(b) && r in b.orders
    ensures Erasable(b, r)
    ensures FifoOk(b.locate, b.orders - {r}, b.orders[r].side, b.orders[r].price, Rest(b, r))
  {
    var i := EraseFacts(b, r);
    var o := b.orders[r];
    assert LevelOk(b.locate, b.orders, o.side, o.price, b.On(o.side)[o.price]);
    DropFifoOk(b.locate, b.orders, o.side, o.price, b.On(o.side)[o.price].fifo, i);
  }

  lemma RestTotal(b: Book, r: U64)
    requires Consistent(b) && r in b.orders
    ensures Erasable(b, r)
    ensures FifoTotal(b.orders - {r}, Rest(b, r)) ==
            b.On(b.orders[r].side)[b.orders[r].price].total - b.orders[r].remaining
  {
    hide Consistent, LevelOk;
    var i := EraseFacts(b, r);
    var fifo, rest := b.On(b.orders[r].side)[b.orders[r].price].fifo, Rest(b, r);
    forall j | 0 <= j < |rest| ensures RemainingOf(b.orders - {r}, rest[j]) == RemainingOf(b.orders, rest[j]) {
      assert rest[j] == fifo[if j < i then j else j + 1];
    }
    FifoTotalFrame(b.orders, b.orders - {r}, rest);
  }

  lemma RestMember(b: Book, r: U64, s: U64)
    requires Consistent(b) && r in b.orders && s in b.orders && r != s
    requires b.orders[s].side == b.orders[r].side && b.orders[s].price == b.orders[r].price
    ensures Erasable(b, r) && Placed(b, s) && b.orders[s].position.node in Rest(b, r)
  {
    hide LevelOk, SideOk;
    var i := EraseFacts(b, r);
    var fifo, rest := b.On(b.orders[r].side)[b.orders[r].price].fifo, Rest(b, r);
    assert Placed(b, s);
    var k :| 0 <= k < |fifo| && fifo[k] == b.orders[s].position.node;
    assert rest[if k < i then k else k - 1] == fifo[k];
  }

  lemma ErasedOther(b: Book, r: U64, side: Side, price: U32)
    requires Consistent(b) && r in b.orders && side != NotApplicable && price in b.On(side)
    requires side != b.orders[r].side || price != b.orders[r].price
    ensures LevelOk(b.locate, b.orders - {r}, side, price, b.On(side)[price])
  {
    var level := b.On(side)[price];
    assert LevelOk(b.locate, b.orders, side, price, level);
    forall i | 0 <= i < |level.fifo|
      ensures level.fifo[i].reference in b.orders - {r} &&
              (b.orders - {r})[level.fifo[i].reference] == b.orders[level.fifo[i].reference]
    {
      assert NodeOk(b.locate, b.orders, side, price, level.fifo[i]);
    }
    LevelFrame(b.locate, b.orders, b.orders - {r}, side, price, level);
  }

  lemma ErasedSide(b: Book, r: U64, side: Side)
    requires Consistent(b) && Erasable(b, r) && side != NotApplicable
    ensures SideOk(Erased(b, r), side)
  {
    hide LevelOk, Consistent;
    var b' := Erased(b, r);
    forall price | price in b'.On(side)
      ensures LevelOk(b'.locate, b'.orders, side, price, b'.On(side)[price])
    {
      ErasedLevel(b, r, side, price);
    }
  }

  lemma ErasedLevel(b: Book, r: U64, side: Side, price: U32)
    requires Consistent(b) && Erasable(b, r) && side != NotApplicable && price in Erased(b, r).On(side)
    ensures LevelOk(b.locate, Erased(b, r).orders, side, price, Erased(b, r).On(side)[price])
  {
    var o := b.orders[r];
    if side != o.side || price != o.price {
      ErasedOther(b, r, side, price);
    } else {
      RestFifoOk(b, r);
      RestTotal(b, r);
    }
  }

  lemma ErasedPlaced(b: Book, r: U64, s: U64)
    requires Consistent(b) && Erasable(b, r) && s in b.orders && s != r
    ensures Placed(Erased(b, r), s)
  {
    assert Placed(b, s);
    if b.orders[s].side == b.orders[r].side && b.orders[s].price == b.orders[r].price {
      RestMember(b, r, s);
    }
  }

  lemma ErasedConsistent(b: Book, r: U64)
    requires Consistent(b) && r in b.orders
    ensures Erasable(b, r)
    ensures Consistent(Erased(b, r))
  {
    RestFifoOk(b, r);
    assert Placed(b, r);
    ErasedSide(b, r, Buy);
    ErasedSide(b, r, Sell);
    forall s | s in Erased(b, r).orders ensures Placed(Erased(b, r), s) {
      ErasedPlaced(b, r, s);
    }
  }

  /** Take `taken` shares off an order that keeps some. */
  function Reduced(b: Book, r: U64, taken: nat): Book
    requires Erasable(b, r) && taken < b.orders[r].remaining
  {
    var o := b.orders[r];
    var levels := b.On(o.side);
    b.With(o.side,
           levels[o.price := Level(levels[o.price].total - taken, levels[o.price].fifo)],
           b.orders[r := o.(remaining := o.remaining - taken)])
  }

  lemma ReducedFifoOk(b: Book, r: U64, taken: nat, side: Side, price: U32)
    requires Consistent(b) && Erasable(b, r) && taken < b.orders[r].remaining
    requires side != NotApplicable && price in b.On(side)
    ensures b.On(side)[price].fifo != []
    ensures FifoOk(b.locate, Reduced(b, r, taken).orders, side, price, b.On(side)[price].fifo)
  {
    var fifo, orders' := b.On(side)[price].fifo, Reduced(b, r, taken).orders;
    assert LevelOk(b.locate, b.orders, side, price, b.On(side)[price]);
    forall j | 0 <= j < |fifo|
      ensures NodeOk(b.locate, orders', side, price, fifo[j])
      ensures orders'[fifo[j].reference].priority == b.orders[fifo[j].reference].priority
    {
      assert NodeOk(b.locate, b.orders, side, price, fifo[j]);
    }
  }

  lemma ReducedTotal(b: Book, r: U64, taken: nat)
    requires Consistent(b) && Erasable(b, r) && taken < b.orders[r].remaining
    ensures var level := b.On(b.orders[r].side)[b.orders[r].price];
            FifoTotal(Reduced(b, r, taken).orders, level.fifo) == level.total - taken
  {
    hide Consistent, LevelOk;
    var i := EraseFacts(b, r);
    var fifo, orders' := b.On(b.orders[r].side)[b.orders[r].price].fifo, Reduced(b, r, taken).orders;
    var rest := fifo[..i] + fifo[i + 1..];
    FifoTotalSplit(orders', fifo, i);
    forall j | 0 <= j < |rest| ensures RemainingOf(b.orders, rest[j]) == RemainingOf(orders', rest[j]) {
      assert rest[j] == fifo[if j < i then j else j + 1];
    }
    FifoTotalFrame(b.orders, orders', rest);
  }

  lemma ReducedSide(b: Book, r: U64, taken: nat, side: Side)
    requires Consistent(b) && Erasable(b, r) && taken < b.orders[r].remaining && side != NotApplicable
    ensures SideOk(Reduced(b, r, taken), side)
  {
    hide Consistent, Erasable, LevelOk;
    var b' := Reduced(b, r, taken);
    forall price | price in b'.On(side)
      ensures LevelOk(b'.locate, b'.orders, side, price, b'.On(side)[price])
    {
      ReducedLevel(b, r, taken, side, price);
    }
  }

  lemma ReducedLevel(b: Book, r: U64, taken: nat, side: Side, price: U32)
    requires Consistent(b) && Erasable(b, r) && taken < b.orders[r].remaining && side != NotApplicable
    requires price in Reduced(b, r, taken).On(side)
    ensures var b' := Reduced(b, r, taken); LevelOk(b'.locate, b'.orders, side, price, b'.On(side)[price])
  {
    var o, b' := b.orders[r], Reduced(b, r, taken);
    ReducedFifoOk(b, r, taken, side, price);
    var level := b.On(side)[price];
    assert LevelOk(b.locate, b.orders, side, price, level);
    hide Consistent, FifoTotal, FifoOk;
    if side == o.side && price == o.price {
      ReducedTotal(b, r, taken);
    } else {
      ReducedElsewhere(b, r, taken, side, price);
    }
  }

  lemma ReducedElsewhere(b: Book, r: U64, taken: nat, side: Side, price: U32)
    requires Erasable(b, r) && taken < b.orders[r].remaining && side != NotApplicable && price in b.On(side)
    requires side != b.orders[r].side || price != b.orders[r].price
    requires LevelOk(b.locate, b.orders, side, price, b.On(side)[price])
    ensures FifoTotal(Reduced(b, r, taken).orders, b.On(side)[price].fifo) == FifoTotal(b.orders, b.On(side)[price].fifo)
  {
    hide FifoTotal;
    var orders, fifo := Reduced(b, r, taken).orders, b.On(side)[price].fifo;
    forall j | 0 <= j < |fifo| ensures RemainingOf(b.orders, fifo[j]) == RemainingOf(orders, fifo[j]) {
      assert NodeOk(b.locate, b.orders, side, price, fifo[j]);
    }
    FifoTotalFrame(b.orders, orders, fifo);
  }

  lemma ReducedPlaced(b: Book, r: U64, taken: nat, s: U64)
    requires Consistent(b) && Erasable(b, r) && taken < b.orders[r].remaining && s in b.orders
    ensures Placed(Reduced(b, r, taken), s)
  {
    assert Placed(b, r) && Placed(b, s);
  }

  lemma ReducedConsistent(b: Book, r: U64, taken: nat)
    requires Consistent(b) && Erasable(b, r) && taken < b.orders[r].remaining
    ensures Consistent(Reduced(b, r, taken))
  {
    ReducedSide(b, r, taken, Buy);
    ReducedSide(b, r, taken, Sell);
    forall s | s in Reduced(b, r, taken).orders ensures Placed(Reduced(b, r, taken), s) {
      ReducedPlaced(b, r, taken, s);
    }
  }
}
