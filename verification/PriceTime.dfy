/** Price-time priority on the map of live orders: what one message does to the total and to the queue
    of every price (cpp/src/book/order_book.cpp). */
module PriceTime {
  import opened Types
  import opened BookModel
  import opened BookView

  // ---------------------------------------------------------------- totals

  predicate At(o: Order, side: Side, price: U32) {
    o.side == side && o.price == price
  }

  lemma TotalOfRemove(live: Live, r: U64, side: Side, price: U32)
    requires r in live
    ensures LevelTotal(live, side, price) ==
            LevelTotal(live - {r}, side, price) + if At(live[r], side, price) then live[r].remaining else 0
  {
    var refs, rest := OrdersAt(live, side, price), OrdersAt(live - {r}, side, price);
    assert rest == refs - {r};
    if At(live[r], side, price) {
      SharesOfRemove(live, refs, r);
    } else {
      assert refs - {r} == refs;
    }
    SharesOfFrame(live, live - {r}, rest);
  }

  lemma TotalOfInsert(live: Live, r: U64, o: Order, side: Side, price: U32)
    requires r !in live
    ensures LevelTotal(live[r := o], side, price) ==
            LevelTotal(live, side, price) + if At(o, side, price) then o.remaining else 0
  {
    assert live[r := o] - {r} == live;
    TotalOfRemove(live[r := o], r, side, price);
  }

  /** The level of a delta gains what the delta reports, a replaced order's own level loses all of it, and
      every other level keeps its total. */
  lemma LevelsConserve(live: Live, locate: U16, m: BookMessage, side: Side, price: U32)
    requires Apply(live, locate, m).result.Applied?
    ensures var out, delta := Apply(live, locate, m).live, Apply(live, locate, m).result.delta;
            var gained := if side == delta.side && price == delta.price then delta.remaining else 0;
            var lost := if m.Add? then 0
                        else if m.reference in live && At(live[m.reference], side, price) then delta.previousRemaining
                        else 0;
            && LevelTotal(out, side, price) == LevelTotal(live, side, price) - lost + gained
            && (!m.Add? ==> m.reference in live && delta.previousRemaining == live[m.reference].remaining &&
                            delta.side == live[m.reference].side)
            && (!m.Add? && !m.Replace? ==> delta.price == live[m.reference].price)
  {
    hide LevelTotal, AllEarlier;
    var out := Apply(live, locate, m).live;
    match m
    case Add(_, _, r, _, _, _, _) =>
      TotalOfInsert(live, r, out[r], side, price);
    case Replace(_, _, r, n, _, _) =>
      TotalOfRemove(live, r, side, price);
      TotalOfInsert(live - {r}, n, out[n], side, price);
    case Delete(_, _, r) =>
      TotalOfRemove(live, r, side, price);
    case _ =>
      TotalOfRemove(live, m.reference, side, price);
      if m.shares != live[m.reference].remaining {
        var o := live[m.reference].(remaining := live[m.reference].remaining - m.shares);
        TotalOfInsert(live - {m.reference}, m.reference, o, side, price);
        assert (live - {m.reference})[m.reference := o] == live[m.reference := o];
      }
  }

  // ---------------------------------------------------------------- queues

  /** The queue without one order, the others in their places. */
  function Without(queue: seq<U64>, r: U64): seq<U64> {
    if queue == [] then []
    else
      var last := queue[|queue| - 1];
      Without(queue[..|queue| - 1], r) + if last == r then [] else [last]
  }

  lemma {:induction false} WithoutMembers(queue: seq<U64>, r: U64)
    ensures forall x :: x in Without(queue, r) <==> x in queue && x != r
  {
    if queue != [] {
      var init := queue[..|queue| - 1];
      WithoutMembers(init, r);
      assert queue == init + [queue[|queue| - 1]];
    }
  }

  /** Live orders in entry order. */
  predicate ByEntry(live: Live, queue: seq<U64>) {
    && (forall i :: 0 <= i < |queue| ==> queue[i] in live)
    && forall i, j :: 0 <= i < j < |queue| ==> live[queue[i]].priority < live[queue[j]].priority
  }

  lemma {:induction false} WithoutSorted(live: Live, queue: seq<U64>, r: U64)
    requires ByEntry(live, queue)
    ensures ByEntry(live, Without(queue, r))
  {
    if queue != [] {
      var init, last := queue[..|queue| - 1], queue[|queue| - 1];
      WithoutSorted(live, init, r);
      WithoutMembers(init, r);
      var kept := Without(init, r);
      forall i | 0 <= i < |kept| ensures kept[i] in live && live[kept[i]].priority < live[last].priority {
        assert kept[i] in init;
        var k :| 0 <= k < |init| && init[k] == kept[i];
        assert queue[k] == init[k];
      }
      assert Without(queue, r) == if last == r then kept else kept + [last];
    }
  }

  lemma QueueWithout(live: Live, r: U64, side: Side, price: U32, queue: seq<U64>)
    requires r in live && IsQueue(live, OrdersAt(live, side, price), queue)
    ensures IsQueue(live - {r}, OrdersAt(live - {r}, side, price), Without(queue, r))
  {
    var rest, refs := Without(queue, r), OrdersAt(live - {r}, side, price);
    assert refs == OrdersAt(live, side, price) - {r};
    WithoutMembers(queue, r);
    WithoutSorted(live, queue, r);
    forall i | 0 <= i < |rest| ensures rest[i] in refs {
      assert rest[i] in rest;
    }
  }

  lemma QueueWith(live: Live, r: U64, o: Order, side: Side, price: U32, queue: seq<U64>)
    requires r !in live && IsQueue(live, OrdersAt(live, side, price), queue)
    requires At(o, side, price) ==> AllEarlier(live, side, price, o.priority)
    ensures IsQueue(live[r := o], OrdersAt(live[r := o], side, price), queue + if At(o, side, price) then [r] else [])
  {
    var after, refs := live[r := o], OrdersAt(live, side, price);
    if At(o, side, price) {
      assert OrdersAt(after, side, price) == refs + {r};
      assert forall i :: 0 <= i < |queue| ==> queue[i] in refs && live[queue[i]].priority < o.priority;
    } else {
      assert OrdersAt(after, side, price) == refs;
      assert queue + [] == queue;
    }
  }

  /** A smaller remainder changes no queue. */
  lemma QueueReduced(live: Live, r: U64, remaining: U32, side: Side, price: U32, queue: seq<U64>)
    requires r in live && IsQueue(live, OrdersAt(live, side, price), queue)
    ensures var after := live[r := live[r].(remaining := remaining)];
            IsQueue(after, OrdersAt(after, side, price), queue)
  {
    var after := live[r := live[r].(remaining := remaining)];
    assert OrdersAt(after, side, price) == OrdersAt(live, side, price);
  }

  /** What a message leaves of the queue of one price. */
  function QueueAfter(live: Live, m: BookMessage, side: Side, price: U32, queue: seq<U64>): seq<U64> {
    match m
    case Add(_, _, r, s, _, p, _) => if s == side && p == price then queue + [r] else queue
    case Delete(_, _, r) => Without(queue, r)
    case Replace(_, _, r, n, _, p) =>
      Without(queue, r) + if r in live && live[r].side == side && p == price then [n] else []
    case _ => if m.reference in live && m.shares < live[m.reference].remaining then queue else Without(queue, m.reference)
  }

  /** Time priority: an added order goes to the end of the queue of its price, a partial execution or
      cancel keeps its place, a finished order leaves without disturbing the others, and a replace
      gives up its place and goes to the end of its new price. No other queue changes. */
  lemma TimePriority(live: Live, locate: U16, m: BookMessage, side: Side, price: U32)
    requires Apply(live, locate, m).result.Applied? && HasQueue(live, side, price)
    ensures var out := Apply(live, locate, m).live;
            && HasQueue(out, side, price)
            && Queue(out, side, price) == QueueAfter(live, m, side, price, Queue(live, side, price))
  {
    hide LevelTotal, IsQueue, Queue, AllEarlier, Without;
    var out, queue := Apply(live, locate, m).live, Queue(live, side, price);
    QueueOf(live, side, price);
    match m {
      case Add(_, _, r, s, _, p, _) =>
        QueueWith(live, r, out[r], side, price, queue);
        assert queue + [] == queue;
      case Replace(_, _, r, n, _, p) =>
        QueueWithout(live, r, side, price, queue);
        QueueWith(live - {r}, n, out[n], side, price, Without(queue, r));
      case Delete(_, _, r) =>
        QueueWithout(live, r, side, price, queue);
      case _ =>
        if m.shares == live[m.reference].remaining {
          QueueWithout(live, m.reference, side, price, queue);
        } else {
          QueueReduced(live, m.reference, live[m.reference].remaining - m.shares, side, price, queue);
        }
    }
    QueueIs(out, side, price, QueueAfter(live, m, side, price, queue));
  }

  lemma QueueOf(live: Live, side: Side, price: U32)
    requires HasQueue(live, side, price)
    ensures IsQueue(live, OrdersAt(live, side, price), Queue(live, side, price))
  {
  }
}
