/** The clock-window queues and rolling sums of _FeatureState
    (python/src/itchlab_research/datasets/features.py): pruned or retracted a little at a time, they
    equal their definition over everything seen. */
module ClockQueues {
  import opened Types
  import opened EventCodec
  import opened FlowModel
  import opened Labels
  import opened FeatureModel

  type Queue = seq<(int, int)>

  /** The in-session events of a category and side after a moment, in order. */
  function Since(events: seq<EventRow>, category: Category, side: int, low: int): Queue {
    if events == [] then []
    else
      var e := events[|events| - 1];
      Since(events[..|events| - 1], category, side, low) +
      (if e.inSession && Rated(e, category, side) && e.timestamp > low then [(e.timestamp, e.index)] else [])
  }

  /** Consumed events are in time order, and their session flag is right. */
  ghost predicate Ordered(context: Context, events: seq<EventRow>) {
    && (forall i, j :: 0 <= i < j < |events| ==> events[i].timestamp <= events[j].timestamp)
    && (forall i :: 0 <= i < |events| ==>
          (events[i].inSession <==> context.sessionStart <= events[i].timestamp < context.sessionEnd))
  }

  lemma SinceAppend(events: seq<EventRow>, e: EventRow, category: Category, side: int, low: int)
    ensures Since(events + [e], category, side, low) ==
            Since(events, category, side, low) +
            (if e.inSession && Rated(e, category, side) && e.timestamp > low then [(e.timestamp, e.index)] else [])
  {
    assert (events + [e])[..|events|] == events;
  }

  lemma OrderedPrefix(context: Context, events: seq<EventRow>)
    requires Ordered(context, events) && events != []
    ensures Ordered(context, events[..|events| - 1])
  {
  }

  lemma Regroup(a: Queue, b: Queue, c: Queue)
    ensures a + b + c == a + (b + c)
  {
  }

  /** Raising the bound drops a front part that lies at or below it. */
  lemma {:induction false} SinceSplit(context: Context, events: seq<EventRow>, category: Category, side: int, low: int,
                                      lower: int) returns (front: Queue)
    requires Ordered(context, events) && low <= lower
    ensures Since(events, category, side, low) == front + Since(events, category, side, lower)
    ensures forall i :: 0 <= i < |front| ==> front[i].0 <= lower
  {
    if events == [] {
      front := [];
    } else if events[|events| - 1].timestamp <= lower {
      hide Since, Ordered;
      NoneSince(context, events, category, side, lower);
      SinceIsBefore(context, events, category, side, low, lower);
      front := Since(events, category, side, low);
    } else {
      hide Since, Ordered, Rated;
      var n := |events| - 1;
      var e := events[n];
      OrderedPrefix(context, events);
      front := SinceSplit(context, events[..n], category, side, low, lower);
      assert events == events[..n] + [e];
      SinceAppend(events[..n], e, category, side, low);
      SinceAppend(events[..n], e, category, side, lower);
      Regroup(front, Since(events[..n], category, side, lower),
              if e.inSession && Rated(e, category, side) then [(e.timestamp, e.index)] else []);
    }
  }

  lemma {:induction false} SinceIsBefore(context: Context, events: seq<EventRow>, category: Category, side: int, low: int,
                                         lower: int)
    requires Ordered(context, events) && (events != [] ==> events[|events| - 1].timestamp <= lower)
    ensures forall i :: 0 <= i < |Since(events, category, side, low)| ==> Since(events, category, side, low)[i].0 <= lower
  {
    if events != [] {
      OrderedPrefix(context, events);
      EarlierToo(context, events);
      SinceIsBefore(context, events[..|events| - 1], category, side, low, lower);
    }
  }

  lemma {:induction false} SinceIsAfter(events: seq<EventRow>, category: Category, side: int, low: int)
    ensures forall i :: 0 <= i < |Since(events, category, side, low)| ==> Since(events, category, side, low)[i].0 > low
  {
    if events != [] {
      SinceIsAfter(events[..|events| - 1], category, side, low);
    }
  }

  lemma EarlierToo(context: Context, events: seq<EventRow>)
    requires Ordered(context, events) && events != []
    ensures |events| > 1 ==> events[|events| - 2].timestamp <= events[|events| - 1].timestamp
  {
  }

  lemma {:induction false} NoneSince(context: Context, events: seq<EventRow>, category: Category, side: int, lower: int)
    requires Ordered(context, events) && (events != [] ==> events[|events| - 1].timestamp <= lower)
    ensures Since(events, category, side, lower) == []
  {
    if events != [] {
      OrderedPrefix(context, events);
      if |events| > 1 {
        assert events[|events| - 2].timestamp <= events[|events| - 1].timestamp;
      }
      NoneSince(context, events[..|events| - 1], category, side, lower);
    }
  }

  /** Pop from the front while the oldest entry has left the window. */
  method Prune(context: Context, ghost events: seq<EventRow>, ghost category: Category, ghost side: int, queue: Queue,
               ghost low: int, lower: int) returns (kept: Queue)
    requires Ordered(context, events) && low <= lower && queue == Since(events, category, side, low)
    ensures kept == Since(events, category, side, lower)
  {
    hide Since, Ordered;
    ghost var front := SinceSplit(context, events, category, side, low, lower);
    SinceIsAfter(events, category, side, lower);
    kept := queue;
    ghost var popped := 0;
    while kept != [] && kept[0].0 <= lower
      invariant popped <= |front| && kept == front[popped..] + Since(events, category, side, lower)
      decreases |kept|
    {
      kept := kept[1..];
      popped := popped + 1;
    }
    assert kept[..|front| - popped] == front[popped..];
  }

  /** A complete window's queue length is the number of all consumed events in it: what lies in the
      window is in the session anyway. */
  lemma {:induction false} SinceCounts(context: Context, events: seq<EventRow>, category: Category, side: int, t: int, w: nat)
    requires Ordered(context, events) && t - context.sessionStart >= w && t < context.sessionEnd
    requires forall i :: 0 <= i < |events| ==> events[i].timestamp <= t
    ensures |Since(events, category, side, t - w)| == CountIn(events, category, side, t - w, t)
  {
    if events != [] {
      OrderedPrefix(context, events);
      SinceCounts(context, events[..|events| - 1], category, side, t, w);
    }
  }

  // ---------------------------------------------------------------- rolling sums

  lemma {:induction false} SumFirst(values: seq<real>)
    requires values != []
    ensures Sum(values) == values[0] + Sum(values[1..])
  {
    if |values| > 1 {
      var n := |values| - 1;
      SumFirst(values[..n]);
      assert values[1..][..n - 1] == values[..n][1..];
    }
  }

  lemma SumLast(values: seq<real>, value: real)
    ensures Sum(values + [value]) == Sum(values) + value
  {
    assert (values + [value])[..|values|] == values;
  }

  class RollingSum {
    const window: nat
    var values: seq<real>
    var total: real
    ghost var history: seq<real>

    ghost predicate Valid()
      reads this
    {
      window > 0 && values == Last(history, window) && total == Sum(values)
    }

    constructor (size: nat)
      requires size > 0
      ensures Valid() && window == size && history == []
    {
      window, values, total, history := size, [], 0.0, [];
    }

    /** The sum of the last values, kept by adding the newest and subtracting the oldest. */
    method Append(value: real)
      requires Valid()
      modifies this
      ensures Valid() && history == old(history) + [value]
    {
      hide Sum;
      LastAppend(history, value, window);
      SumLast(values, value);
      history := history + [value];
      values := values + [value];
      total := total + value;
      if |values| > window {
        SumFirst(values);
        total := total - values[0];
        values := values[1..];
      }
    }

    predicate Complete()
      reads this
      ensures Valid() ==> (Complete() <==> |history| >= window)
    {
      |values| == window
    }
  }
}
