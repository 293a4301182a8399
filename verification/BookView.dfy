/** What a plain map of live orders looks like as a book: the queue at each price, the prices
    best first and the aggregated top of the book.  All of it is determined by the map alone. */
module BookView {
  import opened Types
  import opened BookModel

  // ---------------------------------------------------------------- queues

  /** `queue` holds exactly the orders of `refs`, once each, in entry order. */
  ghost predicate IsQueue(live: Live, refs: set<U64>, queue: seq<U64>)
    requires refs <= live.Keys
  {
    && (forall i :: 0 <= i < |queue| ==> queue[i] in refs)
    && (forall r :: r in refs ==> r in queue)
    && (forall i, j :: 0 <= i < j < |queue| ==> live[queue[i]].priority < live[queue[j]].priority)
  }

  lemma {:induction false} IsQueueUnique(live: Live, refs: set<U64>, q1: seq<U64>, q2: seq<U64>)
    requires refs <= live.Keys && IsQueue(live, refs, q1) && IsQueue(live, refs, q2)
    ensures q1 == q2
    decreases |q1|
  {
    EmptyQueue(live, refs, q1);
    EmptyQueue(live, refs, q2);
    if refs != {} {
      var a, b := q1[|q1| - 1], q2[|q2| - 1];
      assert a == b by {
        QueueLast(live, refs, q1);
        QueueLast(live, refs, q2);
      }
      QueueInit(live, refs, q1);
      QueueInit(live, refs, q2);
      IsQueueUnique(live, refs - {a}, q1[..|q1| - 1], q2[..|q2| - 1]);
      assert q1 == q1[..|q1| - 1] + [a] && q2 == q2[..|q2| - 1] + [a];
    }
  }

  /** The tail of a queue is its latest entrant. */
  lemma QueueLast(live: Live, refs: set<U64>, queue: seq<U64>)
    requires refs <= live.Keys && IsQueue(live, refs, queue) && queue != []
    ensures var last := queue[|queue| - 1];
            last in refs && forall r :: r in refs ==> r == last || live[r].priority < live[last].priority
  {
    forall r | r in refs ensures r == queue[|queue| - 1] || live[r].priority < live[queue[|queue| - 1]].priority {
      var i :| 0 <= i < |queue| && queue[i] == r;
    }
  }

  lemma EmptyQueue(live: Live, refs: set<U64>, queue: seq<U64>)
    requires refs <= live.Keys && IsQueue(live, refs, queue)
    ensures queue == [] <==> refs == {}
  {
    if queue != [] {
      assert queue[0] in refs;
    }
  }

  lemma QueueInit(live: Live, refs: set<U64>, queue: seq<U64>)
    requires refs <= live.Keys && IsQueue(live, refs, queue) && queue != []
    ensures IsQueue(live, refs - {queue[|queue| - 1]}, queue[..|queue| - 1])
  {
    var last, init := queue[|queue| - 1], queue[..|queue| - 1];
    forall r | r in refs - {last} ensures r in init {
      var i :| 0 <= i < |queue| && queue[i] == r;
      assert init[i] == r;
    }
    forall i | 0 <= i < |init| ensures init[i] in refs - {last} {
      assert live[queue[i]].priority < live[last].priority;
    }
  }

  /** A queue sums to the level total of its orders. */
  ghost function QueueShares(live: Live, queue: seq<U64>): nat
    requires forall i :: 0 <= i < |queue| ==> queue[i] in live
  {
    if queue == [] then 0
    else QueueShares(live, queue[..|queue| - 1]) + live[queue[|queue| - 1]].remaining
  }

  lemma {:induction false} QueueSharesIsTotal(live: Live, refs: set<U64>, queue: seq<U64>)
    requires refs <= live.Keys && IsQueue(live, refs, queue)
    ensures QueueShares(live, queue) == SharesOf(live, refs)
    decreases |queue|
  {
    if queue == [] {
      assert refs == {};
    } else {
      var last := queue[|queue| - 1];
      QueueInit(live, refs, queue);
      QueueSharesIsTotal(live, refs - {last}, queue[..|queue| - 1]);
      SharesOfRemove(live, refs, last);
    }
  }

  ghost predicate HasQueue(live: Live, side: Side, price: U32) {
    exists q :: IsQueue(live, OrdersAt(live, side, price), q)
  }

  /** The FIFO at a price: its live orders sorted by priority. */
  ghost function Queue(live: Live, side: Side, price: U32): (queue: seq<U64>)
    ensures HasQueue(live, side, price) ==> IsQueue(live, OrdersAt(live, side, price), queue)
  {
    if HasQueue(live, side, price) then
      var q :| IsQueue(live, OrdersAt(live, side, price), q);
      q
    else []
  }

  lemma QueueIs(live: Live, side: Side, price: U32, queue: seq<U64>)
    requires IsQueue(live, OrdersAt(live, side, price), queue)
    ensures Queue(live, side, price) == queue
  {
    IsQueueUnique(live, OrdersAt(live, side, price), Queue(live, side, price), queue);
  }

  // ---------------------------------------------------------------- prices, best first

  predicate Better(side: Side, a: U32, b: U32) {
    if side.Buy? then a > b else a < b
  }

  predicate BestFirst(side: Side, prices: seq<U32>) {
    forall i, j :: 0 <= i < j < |prices| ==> Better(side, prices[i], prices[j])
  }

  predicate IsBest(side: Side, prices: set<U32>, p: U32) {
    p in prices && forall q :: q in prices ==> p == q || Better(side, p, q)
  }

  lemma {:induction false} BestExists(side: Side, prices: set<U32>)
    requires prices != {}
    ensures exists p :: IsBest(side, prices, p)
    decreases prices
  {
    var x :| x in prices;
    var rest := prices - {x};
    assert forall q :: q in prices ==> q == x || q in rest;
    if rest == {} {
      assert IsBest(side, prices, x);
    } else {
      BestExists(side, rest);
      var p :| IsBest(side, rest, p);
      assert IsBest(side, prices, if Better(side, x, p) then x else p);
    }
  }

  /** The iteration order of std::map with the side's comparator. */
  function Ranked(side: Side, prices: set<U32>): (ranked: seq<U32>)
    ensures forall p :: p in prices <==> p in ranked
    ensures BestFirst(side, ranked)
    ensures |ranked| == |prices|
  {
    if prices == {} then []
    else
      BestExists(side, prices);
      var best :| IsBest(side, prices, best);
      assert |prices - {best}| == |prices| - 1;
      assert forall p :: p in prices <==> p == best || p in prices - {best};
      [best] + Ranked(side, prices - {best})
  }

  /** Place i holds the price that exactly i of the others beat: a higher one for bids, a lower one for
      asks. */
  lemma RankedByPrice(side: Side, prices: set<U32>, i: nat)
    requires i < |Ranked(side, prices)|
    ensures var p := Ranked(side, prices)[i];
            && p in prices
            && (set q | q in prices && (if side == Buy then q > p else q < p)) == (set j | 0 <= j < i :: Ranked(side, prices)[j])
  {
    var ranked := Ranked(side, prices);
    forall q | q in prices && (if side == Buy then q > ranked[i] else q < ranked[i])
      ensures q in (set j | 0 <= j < i :: ranked[j])
    {
      var j :| 0 <= j < |ranked| && ranked[j] == q;
    }
    forall j | 0 <= j < i ensures ranked[j] in prices && Better(side, ranked[j], ranked[i]) {
      assert ranked[j] in ranked;
    }
  }

  ghost predicate SameMembers(a: seq<U32>, b: seq<U32>) {
    forall p :: p in a <==> p in b
  }

  /** A list of prices that is strictly best first is determined by its members. */
  lemma {:induction false} BestFirstUnique(side: Side, a: seq<U32>, b: seq<U32>)
    requires BestFirst(side, a) && BestFirst(side, b) && SameMembers(a, b)
    ensures a == b
    decreases |a|
  {
    assert |a| > 0 ==> a[0] in b;
    assert |b| > 0 ==> b[0] in a;
    if a != [] {
      HeadIsBest(side, a, b[0]);
      HeadIsBest(side, b, a[0]);
      assert a[0] == b[0];
      TailMembers(side, a);
      TailMembers(side, b);
      BestFirstUnique(side, a[1..], b[1..]);
      assert a == [a[0]] + a[1..] && b == [b[0]] + b[1..];
    }
  }

  lemma HeadIsBest(side: Side, a: seq<U32>, p: U32)
    requires BestFirst(side, a) && p in a
    ensures a[0] == p || Better(side, a[0], p)
  {
    var i :| 0 <= i < |a| && a[i] == p;
  }

  lemma TailMembers(side: Side, a: seq<U32>)
    requires BestFirst(side, a) && a != []
    ensures forall p :: p in a[1..] <==> p in a && p != a[0]
  {
    forall p | p in a && p != a[0] ensures p in a[1..] {
      var i :| 0 <= i < |a| && a[i] == p;
      assert a[1..][i - 1] == p;
    }
  }

  // ---------------------------------------------------------------- the aggregated top

  datatype AggregatedLevel = AggregatedLevel(price: U32, total: U64)
  datatype TopLevels = BestLevels(bids: seq<Option<AggregatedLevel>>, asks: seq<Option<AggregatedLevel>>)

  ghost function PricesOf(live: Live, side: Side): set<U32> {
    set r | r in live && live[r].side == side :: live[r].price
  }

  /** No level aggregate exceeds its 64-bit total. */
  ghost predicate TotalsFit(live: Live) {
    forall side, price :: LevelTotal(live, side, price) <= U64_MAX
  }

  ghost function TopSide(live: Live, side: Side, depth: nat): (levels: seq<Option<AggregatedLevel>>)
    requires TotalsFit(live)
    ensures |levels| == depth
  {
    var ranked := Ranked(side, PricesOf(live, side));
    seq(depth, i requires 0 <= i < depth =>
      if i < |ranked| then Some(AggregatedLevel(ranked[i], LevelTotal(live, side, ranked[i]))) else None)
  }

  /** The first `depth` distinct prices of each side, best first, each with the sum of its orders'
      remainders, padded with empties to exactly `depth`. */
  ghost function Top(live: Live, depth: nat): TopLevels
    requires TotalsFit(live)
  {
    BestLevels(TopSide(live, Buy, depth), TopSide(live, Sell, depth))
  }

  // ---------------------------------------------------------------- what best means

  /** Some order rests on the side at the price. */
  ghost predicate Resting(live: Live, side: Side, price: U32) {
    exists r :: r in live && live[r].side == side && live[r].price == price
  }

  /** Every filled slot is a resting price with its whole quantity. */
  ghost predicate SlotsRest(live: Live, side: Side, levels: seq<Option<AggregatedLevel>>) {
    forall i :: 0 <= i < |levels| && levels[i].Some? ==>
      Resting(live, side, levels[i].value.price) && levels[i].value.total == LevelTotal(live, side, levels[i].value.price)
  }

  /** The highest bids: the first slot is the greatest price of any buy order, the filled slots
      strictly fall, and no buy price above a slot, or above an empty slot, is missing before it. */
  ghost predicate HighestBids(live: Live, bids: seq<Option<AggregatedLevel>>) {
    && SlotsRest(live, Buy, bids)
    && (bids != [] ==> forall r :: r in live && live[r].side == Buy ==>
                         bids[0].Some? && live[r].price <= bids[0].value.price)
    && (forall i, j :: 0 <= i < j < |bids| && bids[j].Some? ==>
          bids[i].Some? && bids[i].value.price > bids[j].value.price)
    && (forall r, i :: r in live && live[r].side == Buy && 0 <= i < |bids| &&
                       (bids[i].None? || live[r].price > bids[i].value.price) ==>
          exists k :: 0 <= k < i && bids[k].Some? && bids[k].value.price == live[r].price)
  }

  /** The lowest asks, likewise. */
  ghost predicate LowestAsks(live: Live, asks: seq<Option<AggregatedLevel>>) {
    && SlotsRest(live, Sell, asks)
    && (asks != [] ==> forall r :: r in live && live[r].side == Sell ==>
                         asks[0].Some? && live[r].price >= asks[0].value.price)
    && (forall i, j :: 0 <= i < j < |asks| && asks[j].Some? ==>
          asks[i].Some? && asks[i].value.price < asks[j].value.price)
    && (forall r, i :: r in live && live[r].side == Sell && 0 <= i < |asks| &&
                       (asks[i].None? || live[r].price < asks[i].value.price) ==>
          exists k :: 0 <= k < i && asks[k].Some? && asks[k].value.price == live[r].price)
  }

  lemma SlotOfPrice(live: Live, side: Side, depth: nat, r: U64) returns (k: nat)
    requires TotalsFit(live) && r in live && live[r].side == side
    ensures k < |Ranked(side, PricesOf(live, side))| && Ranked(side, PricesOf(live, side))[k] == live[r].price
    ensures k < depth ==> TopSide(live, side, depth)[k].Some? && TopSide(live, side, depth)[k].value.price == live[r].price
  {
    hide Ranked;
    assert live[r].price in PricesOf(live, side);
    k :| 0 <= k < |Ranked(side, PricesOf(live, side))| && Ranked(side, PricesOf(live, side))[k] == live[r].price;
  }

  lemma SlotsAreResting(live: Live, side: Side, depth: nat)
    requires TotalsFit(live)
    ensures SlotsRest(live, side, TopSide(live, side, depth))
  {
    hide Ranked, LevelTotal, TotalsFit;
    var ranked, levels := Ranked(side, PricesOf(live, side)), TopSide(live, side, depth);
    forall i | 0 <= i < |levels| && levels[i].Some? ensures Resting(live, side, levels[i].value.price) {
      assert ranked[i] in PricesOf(live, side);
    }
  }

  lemma TopBidsAreHighest(live: Live, depth: nat)
    requires TotalsFit(live)
    ensures HighestBids(live, TopSide(live, Buy, depth))
  {
    hide Ranked, LevelTotal, TotalsFit, SlotsRest, PricesOf;
    SlotsAreResting(live, Buy, depth);
    var ranked, bids := Ranked(Buy, PricesOf(live, Buy)), TopSide(live, Buy, depth);
    assert forall i :: 0 <= i < depth && bids[i].Some? ==> i < |ranked| && bids[i].value.price == ranked[i];
    forall r, i | r in live && live[r].side == Buy && 0 <= i < |bids| && (bids[i].None? || live[r].price > bids[i].value.price)
      ensures exists k :: 0 <= k < i && bids[k].Some? && bids[k].value.price == live[r].price
    {
      var k := SlotOfPrice(live, Buy, depth, r);
      assert k < i;
    }
    if bids != [] {
      forall r | r in live && live[r].side == Buy ensures bids[0].Some? && live[r].price <= bids[0].value.price {
        var k := SlotOfPrice(live, Buy, depth, r);
      }
    }
  }

  lemma TopAsksAreLowest(live: Live, depth: nat)
    requires TotalsFit(live)
    ensures LowestAsks(live, TopSide(live, Sell, depth))
  {
    hide Ranked, LevelTotal, TotalsFit, SlotsRest, PricesOf;
    SlotsAreResting(live, Sell, depth);
    var ranked, asks := Ranked(Sell, PricesOf(live, Sell)), TopSide(live, Sell, depth);
    assert forall i :: 0 <= i < depth && asks[i].Some? ==> i < |ranked| && asks[i].value.price == ranked[i];
    forall r, i | r in live && live[r].side == Sell && 0 <= i < |asks| && (asks[i].None? || live[r].price < asks[i].value.price)
      ensures exists k :: 0 <= k < i && asks[k].Some? && asks[k].value.price == live[r].price
    {
      var k := SlotOfPrice(live, Sell, depth, r);
      assert k < i;
    }
    if asks != [] {
      forall r | r in live && live[r].side == Sell ensures asks[0].Some? && live[r].price >= asks[0].value.price {
        var k := SlotOfPrice(live, Sell, depth, r);
      }
    }
  }

  /** The top of the book, told with the order of numbers alone. */
  lemma TopIsBest(live: Live, depth: nat)
    requires TotalsFit(live)
    ensures var top := Top(live, depth);
            && |top.bids| == |top.asks| == depth
            && HighestBids(live, top.bids) && LowestAsks(live, top.asks)
  {
    hide TopSide, TotalsFit, HighestBids, LowestAsks;
    TopBidsAreHighest(live, depth);
    TopAsksAreLowest(live, depth);
  }
}
