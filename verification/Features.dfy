/** _FeatureState and build_feature_batches (python/src/itchlab_research/datasets/features.py): the
    streaming state is proved to produce exactly the rows of FeatureModel. */
module Features {
  import opened Types
  import opened EventCodec
  import opened FlowModel
  import opened ExecutionFlowModule
  import opened Labels
  import opened FeatureModel
  import opened ClockQueues

  datatype Key = Key(window: nat, category: Category, side: int)

  ghost predicate IsKey(config: FeatureConfig, key: Key) {
    key.window in config.clockWindows && (key.side == 1 || key.side == -1)
  }

  ghost predicate GoodWindows(windows: seq<nat>) {
    && windows != []
    && (forall j :: 0 <= j < |windows| ==> windows[j] > 0)
    && (forall i, j :: 0 <= i < j < |windows| ==> windows[i] != windows[j])
  }

  function LastTime(events: seq<EventRow>): int {
    if events == [] then 0 else events[|events| - 1].timestamp
  }

  // ---------------------------------------------------------------- clock queues

  /** A queue holds the events of its key after its floor, which is a full window in the past. */
  ghost predicate KeyOk(clock: map<Key, Queue>, floors: map<Key, int>, events: seq<EventRow>, key: Key) {
    && key in clock && key in floors
    && clock[key] == Since(events, key.category, key.side, floors[key])
    && floors[key] + key.window <= LastTime(events)
  }

  ghost predicate ClocksOk(config: FeatureConfig, clock: map<Key, Queue>, floors: map<Key, int>, events: seq<EventRow>) {
    forall key :: IsKey(config, key) ==> KeyOk(clock, floors, events, key)
  }

  lemma KeyKept(clock: map<Key, Queue>, floors: map<Key, int>, events: seq<EventRow>, e: EventRow, key: Key)
    requires KeyOk(clock, floors, events, key) && LastTime(events) <= e.timestamp
    requires !(e.inSession && Rated(e, key.category, key.side))
    ensures KeyOk(clock, floors, events + [e], key)
  {
    hide Since;
    SinceAppend(events, e, key.category, key.side, floors[key]);
  }

  lemma AllKept(config: FeatureConfig, clock: map<Key, Queue>, floors: map<Key, int>, events: seq<EventRow>, e: EventRow)
    requires ClocksOk(config, clock, floors, events) && LastTime(events) <= e.timestamp
    requires !e.inSession || CategoryOf(e.kind).None?
    ensures ClocksOk(config, clock, floors, events + [e])
  {
    forall key | IsKey(config, key) ensures KeyOk(clock, floors, events + [e], key) {
      KeyKept(clock, floors, events, e, key);
    }
  }

  ghost predicate SumsOk(sums: seq<RollingSum>, windows: seq<nat>, history: seq<real>)
    reads sums
  {
    && |sums| == |windows|
    && (forall j :: 0 <= j < |sums| ==> sums[j].window == windows[j] && sums[j].Valid() && sums[j].history == history)
  }

  ghost predicate Apart2(a: seq<RollingSum>, b: seq<RollingSum>) {
    forall i, j :: 0 <= i < |a| && 0 <= j < |b| ==> a[i] != b[j]
  }

  method OpenSums(windows: seq<nat>) returns (sums: seq<RollingSum>)
    requires GoodWindows(windows)
    ensures fresh(sums) && SumsOk(sums, windows, [])
  {
    sums := [];
    for j := 0 to |windows|
      invariant |sums| == j && fresh(sums)
      invariant forall i :: 0 <= i < j ==> sums[i].window == windows[i] && sums[i].Valid() && sums[i].history == []
    {
      var sum := new RollingSum(windows[j]);
      sums := sums + [sum];
    }
  }

  lemma DifferentSums(sums: seq<RollingSum>, windows: seq<nat>, history: seq<real>)
    requires SumsOk(sums, windows, history) && GoodWindows(windows)
    ensures forall i, j :: 0 <= i < j < |sums| ==> sums[i] != sums[j]
  {
  }

  /** One value into every window. */
  method AppendAll(sums: seq<RollingSum>, ghost windows: seq<nat>, ghost history: seq<real>, value: real)
    requires SumsOk(sums, windows, history) && GoodWindows(windows)
    modifies sums
    ensures SumsOk(sums, windows, history + [value])
  {
    hide RollingSum.Valid, GoodWindows;
    DifferentSums(sums, windows, history);
    for j := 0 to |sums|
      invariant forall i :: 0 <= i < |sums| ==>
                  && sums[i].window == windows[i] && sums[i].Valid()
                  && sums[i].history == if i < j then history + [value] else history
    {
      sums[j].Append(value);
    }
  }

  ghost predicate EventsOk(config: FeatureConfig, context: Context, events: seq<EventRow>, previous: Option<(int, int)>,
                           clock: map<Key, Queue>, floors: map<Key, int>)
  {
    && Ordered(context, events) && LastTime(events) >= 0
    && previous == LastPosition(events)
    && ClocksOk(config, clock, floors, events)
  }

  class FeatureState {
    const config: FeatureConfig
    const context: Context
    const flow: ExecutionFlow
    const ofi: seq<RollingSum>
    const depthSum: seq<RollingSum>
    const squaredReturn: seq<RollingSum>
    var previousEvent: Option<(int, int)>
    var previousSnapshot: Option<(int, int)>
    var previousTop: Option<Top>
    var qualifyingOrdinal: int
    var clock: map<Key, Queue>
    ghost var floors: map<Key, int>
    ghost var view: View

    /** The configuration and the parts that never change. */
    ghost predicate Wired() {
      && GoodWindows(config.eventWindows) && GoodWindows(config.clockWindows)
      && flow.span == Largest(config.eventWindows)
      && |flow.windows| == |config.eventWindows|
      && (forall j :: 0 <= j < |flow.windows| ==> flow.windows[j].window == config.eventWindows[j])
      && Apart2(ofi, depthSum) && Apart2(ofi, squaredReturn) && Apart2(depthSum, squaredReturn)
    }

    ghost predicate SumsFollow()
      reads this`view, ofi, depthSum, squaredReturn
    {
      && SumsOk(ofi, config.eventWindows, Increments(view.tops))
      && SumsOk(depthSum, config.eventWindows, Depths(view.tops))
      && SumsOk(squaredReturn, config.eventWindows, SquaredReturns(config, view.tops))
    }

    ghost predicate FlowFollows()
      reads this`view, flow, flow.windows, flow.Objects()
    {
      flow.Valid() && flow.model == view.flow
    }

    ghost predicate EventsFollow()
      reads this`view, this`previousEvent, this`clock, this`floors
    {
      EventsOk(config, context, view.consumed, previousEvent, clock, floors)
    }

    ghost predicate SnapshotsFollow()
      reads this`view, this`previousSnapshot, this`previousTop, this`qualifyingOrdinal
    {
      && previousSnapshot == view.lastSnapshot
      && qualifyingOrdinal == |view.tops| - 1
      && previousTop == (if view.tops == [] then None else Some(view.tops[|view.tops| - 1]))
      && (previousTop.Some? ==> previousTop.value.bid + previousTop.value.ask > 0)
    }

    ghost predicate Valid()
      reads this, flow, flow.windows, flow.Objects(), ofi, depthSum, squaredReturn
    {
      Wired() && SumsFollow() && FlowFollows() && EventsFollow() && SnapshotsFollow()
    }

    constructor (featureConfig: FeatureConfig, partition: Context)
      requires GoodWindows(featureConfig.eventWindows) && GoodWindows(featureConfig.clockWindows)
      ensures Valid() && config == featureConfig && context == partition && view == NOTHING_SEEN
      ensures fresh(flow) && fresh(flow.windows) && flow.Objects() == []
      ensures fresh(ofi) && fresh(depthSum) && fresh(squaredReturn)
    {
      hide SumsOk, ClocksOk, ExecutionFlow.Valid, ExecutionFlow.Objects, Increments, Depths, SquaredReturns, Ordered;
      hide Largest, GoodWindows;
      config, context := featureConfig, partition;
      previousEvent, previousSnapshot, previousTop, qualifyingOrdinal := None, None, None, -1;
      clock := EmptyClocks(featureConfig);
      floors := map key | key in EmptyClocks(featureConfig) :: 0 - key.window;
      view := NOTHING_SEEN;
      var first := OpenSums(featureConfig.eventWindows);
      var second := OpenSums(featureConfig.eventWindows);
      assert Apart2(first, second);
      var third := OpenSums(featureConfig.eventWindows);
      assert Apart2(first, third) && Apart2(second, third);
      ofi, depthSum, squaredReturn := first, second, third;
      LargestFacts(featureConfig.eventWindows);
      var executions := new ExecutionFlow(featureConfig.eventWindows, Largest(featureConfig.eventWindows));
      flow := executions;
      new;
      NothingFollows(featureConfig, partition, clock, floors);
      assert Wired();
      assert SumsFollow();
      assert FlowFollows();
      assert EventsFollow();
      assert SnapshotsFollow();
    }

    // ------------------------------------------------------------ events

    /** One event of the partition. */
    method ConsumeEvent(e: EventRow) returns (error: Option<DatasetError>)
      requires Valid()
      modifies this`previousEvent, this`clock, this`floors, this`view, flow, flow.windows, flow.Objects()
      ensures error == EventError(context, LastConsumed(old(view)), e)
      ensures error.None? ==> Valid() && view == AfterEvent(config, old(view), e)
      ensures forall i :: 0 <= i < |flow.Objects()| ==> flow.Objects()[i] in old(flow.Objects()) || fresh(flow.Objects()[i])
    {
      hide ClocksOk, Ordered, SumsOk, ExecutionFlow.Valid, ExecutionFlow.Objects, GoodWindows, Apart2;
      hide TradeBroken, Executed;
      if e.partition != context.partition {
        return Some(InvariantError);
      }
      if !(0 <= e.timestamp < NANOSECONDS_PER_DAY) {
        return Some(TimestampError);
      }
      if previousEvent.Some? && e.index <= previousEvent.value.0 {
        return Some(InvariantError);
      }
      if previousEvent.Some? && e.timestamp < previousEvent.value.1 {
        return Some(TimestampError);
      }
      OrderedNext(context, view, e);
      previousEvent := Some((e.index, e.timestamp));
      if e.inSession != (context.sessionStart <= e.timestamp < context.sessionEnd) {
        return Some(InvariantError);
      }
      if !e.inSession {
        AllKept(config, clock, floors, view.consumed, e);
        view := AfterEvent(config, view, e);
        return None;
      }
      error := ConsumeInSession(e, flow.Objects());
    }

    /** An event inside the session: rates, executions and broken trades. */
    method ConsumeInSession(e: EventRow, ghost objects: seq<Contribution>) returns (error: Option<DatasetError>)
      requires objects == flow.Objects() && Wired() && SumsFollow() && FlowFollows() && SnapshotsFollow() && e.inSession
      requires Ordered(context, view.consumed + [e]) && 0 <= LastTime(view.consumed) <= e.timestamp
      requires previousEvent == Some((e.index, e.timestamp)) && ClocksOk(config, clock, floors, view.consumed)
      requires EventError(context, LastConsumed(view), e) == EventError(context, None, e)
      requires e.partition == context.partition && 0 <= e.timestamp < NANOSECONDS_PER_DAY
      requires context.sessionStart <= e.timestamp < context.sessionEnd
      modifies this`clock, this`floors, this`view, flow, flow.windows, flow.Objects()
      ensures error == EventError(context, None, e)
      ensures error.None? ==> Valid() && view == AfterEvent(config, old(view), e)
      ensures forall i :: 0 <= i < |flow.Objects()| ==> flow.Objects()[i] in old(flow.Objects()) || fresh(flow.Objects()[i])
    {
      hide ClocksOk, Ordered, SumsOk, ExecutionFlow.Valid, ExecutionFlow.Objects, GoodWindows, Apart2;
      hide TradeBroken, Executed, Increments, Depths, SquaredReturns, Largest;
      error := UpdateRates(e);
      if error.Some? {
        return;
      }
      error := UpdateFlow(e);
      view := AfterEvent(config, view, e);
      if error.None? {
        assert EventsFollow();
        assert SnapshotsFollow();
        assert SumsFollow();
        assert FlowFollows();
      }
    }

    method UpdateRates(e: EventRow) returns (error: Option<DatasetError>)
      requires GoodWindows(config.clockWindows) && ClocksOk(config, clock, floors, view.consumed) && e.inSession
      requires Ordered(context, view.consumed + [e]) && LastTime(view.consumed) <= e.timestamp
      modifies this`clock, this`floors
      ensures error == if CategoryOf(e.kind).Some? && e.side != Some(1) && e.side != Some(-1)
                       then Some(InvariantError) else None
      ensures error.None? ==> ClocksOk(config, clock, floors, view.consumed + [e])
    {
      hide ClocksOk, Ordered, GoodWindows, LastTime;
      var category := CategoryOf(e.kind);
      if category.None? {
        AllKept(config, clock, floors, view.consumed, e);
        return None;
      }
      if e.side != Some(1) && e.side != Some(-1) {
        return Some(InvariantError);
      }
      PushClocks(e, category.value, e.side.value);
      error := None;
    }

    method UpdateFlow(e: EventRow) returns (error: Option<DatasetError>)
      requires flow.Valid() && e.inSession && (CategoryOf(e.kind).Some? ==> e.side.Some?)
      modifies flow, flow.windows, flow.Objects()
      ensures error == if (e.kind == ExecuteEvent || e.kind == ExecutePriceEvent) &&
                          (e.quantity.None? || e.quantity.value <= 0 || e.secondary.None?) then Some(InvariantError)
                       else if e.kind == BrokenTradeEvent && e.primary.None? then Some(InvariantError) else None
      ensures error.None? ==> flow.Valid() && flow.model == FlowAfter(old(flow.model), flow.span, e)
      ensures forall i :: 0 <= i < |flow.Objects()| ==> flow.Objects()[i] in old(flow.Objects()) || fresh(flow.Objects()[i])
    {
      hide ExecutionFlow.Valid, ExecutionFlow.Objects, TradeBroken, Executed;
      if e.kind == ExecuteEvent || e.kind == ExecutePriceEvent {
        if e.quantity.None? || e.quantity.value <= 0 || e.secondary.None? {
          return Some(InvariantError);
        }
        ghost var added := flow.Execute(e.secondary.value, e.side.value, e.quantity.value);
      } else if e.kind == BrokenTradeEvent {
        if e.primary.None? {
          return Some(InvariantError);
        }
        flow.BreakTrade(e.primary.value);
      }
      error := None;
    }

    /** Append to the queues of the event's category and side and prune them. */
    method PushClocks(e: EventRow, category: Category, side: int)
      requires e.inSession && Rated(e, category, side) && (side == 1 || side == -1)
      requires GoodWindows(config.clockWindows) && ClocksOk(config, clock, floors, view.consumed)
      requires Ordered(context, view.consumed + [e]) && LastTime(view.consumed) <= e.timestamp
      modifies this`clock, this`floors
      ensures ClocksOk(config, clock, floors, view.consumed + [e])
    {
      hide Since, Ordered, KeyOk, Rated, LastTime, GoodWindows;
      ghost var before, after := view.consumed, view.consumed + [e];
      for j := 0 to |config.clockWindows|
        invariant forall key :: IsKey(config, key) ==>
                    KeyOk(clock, floors, if Pushed(config, j, category, side, key) then after else before, key)
      {
        var key := Key(config.clockWindows[j], category, side);
        NotYetPushed(config, j, category, side);
        assert KeyOk(clock, floors, before, key);
        HasKey(clock, floors, before, key);
        PushOnto(e, before, after, key);
        forall other | IsKey(config, other)
          ensures Pushed(config, j + 1, category, side, other) <==> Pushed(config, j, category, side, other) || other == key
        {
          PushedNext(config, j, category, side, other);
        }
      }
      forall key | IsKey(config, key) ensures KeyOk(clock, floors, after, key) {
        if !Pushed(config, |config.clockWindows|, category, side, key) {
          NotRated(e, category, side, config, key);
          KeyKept(clock, floors, before, e, key);
        }
      }
    }

    method PushOnto(e: EventRow, ghost before: seq<EventRow>, ghost after: seq<EventRow>, key: Key)
      requires after == before + [e] && e.inSession && Rated(e, key.category, key.side) && key.window > 0
      requires KeyOk(clock, floors, before, key) && Ordered(context, after) && LastTime(before) <= e.timestamp
      modifies this`clock, this`floors
      ensures KeyOk(clock, floors, after, key)
      ensures forall other, events :: other != key && old(KeyOk(clock, floors, events, other)) ==>
                KeyOk(clock, floors, events, other)
    {
      hide Since, Ordered;
      SinceAppend(before, e, key.category, key.side, floors[key]);
      var queue := Prune(context, after, key.category, key.side, clock[key] + [(e.timestamp, e.index)], floors[key],
                         e.timestamp - key.window);
      clock := clock[key := queue];
      floors := floors[key := e.timestamp - key.window];
    }

    // ------------------------------------------------------------ snapshots

    method ValidateSnapshot(s: SnapshotRow, ghost objects: seq<Contribution>) returns (error: Option<DatasetError>)
      requires Valid() && objects == flow.Objects()
      modifies this`previousSnapshot, this`view
      ensures error == SnapshotError(context, old(view.lastSnapshot), s)
      ensures error.None? ==> Valid() && view == old(view).(lastSnapshot := Some((s.index, s.timestamp)))
    {
      hide ClocksOk, Ordered, SumsOk, ExecutionFlow.Valid, ExecutionFlow.Objects, GoodWindows, Apart2;
      if s.partition != context.partition {
        return Some(InvariantError);
      }
      if !(0 <= s.timestamp < NANOSECONDS_PER_DAY) {
        return Some(TimestampError);
      }
      if previousSnapshot.Some? && s.index <= previousSnapshot.value.0 {
        return Some(InvariantError);
      }
      if previousSnapshot.Some? && s.timestamp < previousSnapshot.value.1 {
        return Some(TimestampError);
      }
      if !(context.sessionStart <= s.timestamp < context.sessionEnd) {
        return Some(SessionWindowError);
      }
      previousSnapshot := Some((s.index, s.timestamp));
      view := view.(lastSnapshot := previousSnapshot);
      error := None;
    }

    method AppendTransition(top: Top)
      requires Wired() && SumsFollow() && top.bid + top.ask > 0
      requires previousTop == (if view.tops == [] then None else Some(view.tops[|view.tops| - 1]))
      requires previousTop.Some? ==> previousTop.value.bid + previousTop.value.ask > 0
      modifies this`previousTop, ofi, depthSum, squaredReturn
      ensures SumsOk(ofi, config.eventWindows, Increments(view.tops + [top]))
      ensures SumsOk(depthSum, config.eventWindows, Depths(view.tops + [top]))
      ensures SumsOk(squaredReturn, config.eventWindows, SquaredReturns(config, view.tops + [top]))
      ensures previousTop == Some(top)
    {
      hide SumsOk, GoodWindows, Increments, Depths, SquaredReturns;
      StepsNext(config, view.tops, top);
      if previousTop.None? {
        previousTop := Some(top);
        return;
      }
      var previous := previousTop.value;
      // Both mid-prices were checked to be positive before, so the source's price test never fires.
      assert top.bid + top.ask > 0 && previous.bid + previous.ask > 0;
      AppendAll(ofi, config.eventWindows, Increments(view.tops), Increment(previous, top) as real);
      AppendAll(depthSum, config.eventWindows, Depths(view.tops), Depth(top) as real);
      AppendAll(squaredReturn, config.eventWindows, SquaredReturns(config, view.tops), config.squaredReturn(previous, top));
      previousTop := Some(top);
    }

    method WindowRows(ghost objects: seq<Contribution>) returns (rows: seq<Option<WindowRow>>)
      requires objects == flow.Objects() && Wired() && SumsFollow() && FlowFollows()
      ensures |rows| == |config.eventWindows|
      ensures forall j :: 0 <= j < |rows| ==> rows[j] == WindowAt(config, view, config.eventWindows[j])
    {
      hide ExecutionFlow.Valid, ExecutionFlow.Objects, Increments, Depths, SquaredReturns, Flat, Last, Sum, GoodWindows;
      rows := [];
      for j := 0 to |config.eventWindows|
        invariant |rows| == j
        invariant forall i :: 0 <= i < j ==> rows[i] == WindowAt(config, view, config.eventWindows[i])
      {
        flow.TotalsCount(j);
        var row := None;
        if ofi[j].Complete() {
          row := Some(WindowRow(ofi[j].total, depthSum[j].total, squaredReturn[j].total,
                                flow.windows[j].signedQuantity, flow.windows[j].quantity));
        }
        rows := rows + [row];
      }
    }

    /** One clock rate: prune the queue to the window that ends now and count it. */
    method ClockRate(key: Key, t: int) returns (rate: Option<nat>)
      requires IsKey(config, key) && ClocksOk(config, clock, floors, view.consumed)
      requires Ordered(context, view.consumed) && LastTime(view.consumed) == t < context.sessionEnd
      modifies this`clock, this`floors
      ensures ClocksOk(config, clock, floors, view.consumed)
      ensures rate == RateAt(context, view, t, key.window, key.category, key.side)
    {
      hide Since, CountIn;
      assert KeyOk(clock, floors, view.consumed, key);
      var queue := Prune(context, view.consumed, key.category, key.side, clock[key], floors[key], t - key.window);
      clock := clock[key := queue];
      floors := floors[key := t - key.window];
      rate := None;
      if t - context.sessionStart >= key.window {
        AllBy(context, view.consumed, t);
        SinceCounts(context, view.consumed, key.category, key.side, t, key.window);
        rate := Some(|queue|);
      }
    }

    method ClockRates(t: int) returns (rates: seq<seq<Option<nat>>>)
      requires ClocksOk(config, clock, floors, view.consumed)
      requires Ordered(context, view.consumed) && LastTime(view.consumed) == t < context.sessionEnd
      modifies this`clock, this`floors
      ensures ClocksOk(config, clock, floors, view.consumed)
      ensures |rates| == |config.clockWindows|
      ensures forall j :: 0 <= j < |rates| ==> rates[j] == RatesAt(context, view, t, config.clockWindows[j])
    {
      hide ClocksOk, Ordered, RateAt;
      rates := [];
      for j := 0 to |config.clockWindows|
        invariant ClocksOk(config, clock, floors, view.consumed) && |rates| == j
        invariant forall i :: 0 <= i < j ==> rates[i] == RatesAt(context, view, t, config.clockWindows[i])
      {
        var w := config.clockWindows[j];
        var a := ClockRate(Key(w, AddRate, 1), t);
        var b := ClockRate(Key(w, AddRate, -1), t);
        var c := ClockRate(Key(w, CancelDeleteRate, 1), t);
        var d := ClockRate(Key(w, CancelDeleteRate, -1), t);
        var e := ClockRate(Key(w, ExecutionRate, 1), t);
        var f := ClockRate(Key(w, ExecutionRate, -1), t);
        rates := rates + [[a, b, c, d, e, f]];
      }
    }

    /** The row of a qualifying snapshot. */
    method Row(s: SnapshotRow, current: Option<EventRow>) returns (error: Option<DatasetError>, row: Option<FeatureRow>)
      requires Valid() && Qualifies(s) && context.sessionStart <= s.timestamp < context.sessionEnd
      requires current.Some? ==> view.consumed != [] && current.value == view.consumed[|view.consumed| - 1]
      modifies this, flow, flow.windows, flow.Objects(), ofi, depthSum, squaredReturn
      ensures error == RowRefusal(s, current)
      ensures error.None? ==>
                Valid() && view == AfterRow(config, old(view), s) && row == Some(RowOf(config, context, view, s))
      ensures forall i :: 0 <= i < |flow.Objects()| ==> flow.Objects()[i] in old(flow.Objects())
    {
      hide ClocksOk, Ordered, SumsOk, ExecutionFlow.Valid, ExecutionFlow.Objects, GoodWindows, Apart2;
      hide RowOf, AfterRow;
      var top := TopOfRow(s);
      if top.bidQuantity <= 0 || top.askQuantity <= 0 {
        return Some(QuantityError), None;
      }
      if top.bid + top.ask <= 0 {
        return Some(PriceError), None;
      }
      if top.ask <= top.bid {
        return Some(BookCrossedError), None;
      }
      if current.None? || current.value.timestamp != s.timestamp || current.value.kind != s.kind {
        return Some(InvariantError), None;
      }
      Advance(s, top, flow.Objects());
      var built := BuildRow(s, flow.Objects());
      error, row := None, Some(built);
    }

    /** The state after a qualifying snapshot. */
    method Advance(s: SnapshotRow, top: Top, ghost objects: seq<Contribution>)
      requires objects == flow.Objects() && Valid() && Qualifies(s) && top == TopOfRow(s) && top.bid + top.ask > 0
      modifies this`qualifyingOrdinal, this`previousTop, this`view
      modifies flow, flow.windows, flow.Objects(), ofi, depthSum, squaredReturn
      ensures Valid() && view == AfterRow(config, old(view), s)
      ensures forall i :: 0 <= i < |flow.Objects()| ==> flow.Objects()[i] in old(flow.Objects())
    {
      hide ClocksOk, Ordered, SumsOk, ExecutionFlow.Valid, ExecutionFlow.Objects, GoodWindows, Apart2;
      hide BucketClosed, Increments, Depths, SquaredReturns, EventsOk;
      qualifyingOrdinal := qualifyingOrdinal + 1;
      AppendTransition(top);
      AppendExecutionBucket(s, top, objects);
    }

    /** The execution bucket of the transition, after the rolling sums took it. */
    method AppendExecutionBucket(ghost s: SnapshotRow, ghost top: Top, ghost objects: seq<Contribution>)
      requires objects == flow.Objects() && Wired() && FlowFollows() && EventsFollow()
      requires SumsOk(ofi, config.eventWindows, Increments(view.tops + [top]))
      requires SumsOk(depthSum, config.eventWindows, Depths(view.tops + [top]))
      requires SumsOk(squaredReturn, config.eventWindows, SquaredReturns(config, view.tops + [top]))
      requires previousTop == Some(top) && qualifyingOrdinal == |view.tops| && previousSnapshot == view.lastSnapshot
      requires Qualifies(s) && top == TopOfRow(s) && top.bid + top.ask > 0
      modifies this`view, flow, flow.windows, flow.Objects()
      ensures Valid() && view == AfterRow(config, old(view), s)
      ensures forall i :: 0 <= i < |flow.Objects()| ==> flow.Objects()[i] in old(flow.Objects())
    {
      hide ClocksOk, Ordered, SumsOk, ExecutionFlow.Valid, ExecutionFlow.Objects, GoodWindows, Apart2;
      hide BucketClosed, Increments, Depths, SquaredReturns, EventsOk;
      flow.CloseBucket();
      view := AfterRow(config, view, s);
      assert SumsFollow();
      assert FlowFollows();
      assert EventsFollow();
      assert SnapshotsFollow();
    }

    method BuildRow(s: SnapshotRow, ghost objects: seq<Contribution>) returns (row: FeatureRow)
      requires objects == flow.Objects() && Valid() && LastTime(view.consumed) == s.timestamp < context.sessionEnd
      modifies this`clock, this`floors
      ensures Valid() && row == RowOf(config, context, view, s)
    {
      hide ClocksOk, Ordered, SumsOk, ExecutionFlow.Valid, ExecutionFlow.Objects, GoodWindows, Apart2, WindowAt, RatesAt;
      hide Largest;
      var windows := WindowRows(objects);
      var rates := ClockRates(s.timestamp);
      row := FeatureRow(context.partition, s.index, s.timestamp, qualifyingOrdinal,
                        qualifyingOrdinal >= Largest(config.eventWindows) &&
                        s.timestamp - context.sessionStart >= Largest(config.clockWindows), windows, rates);
    }
  }

  lemma StepsNext(config: FeatureConfig, tops: seq<Top>, top: Top)
    ensures tops == [] ==> Increments([top]) == Depths([top]) == SquaredReturns(config, [top]) == []
    ensures tops == [] ==> tops + [top] == [top] && Increments([]) == Depths([]) == SquaredReturns(config, []) == []
    ensures tops != [] ==>
              var last := tops[|tops| - 1];
              && Increments(tops + [top]) == Increments(tops) + [Increment(last, top) as real]
              && Depths(tops + [top]) == Depths(tops) + [Depth(top) as real]
              && SquaredReturns(config, tops + [top]) == SquaredReturns(config, tops) + [config.squaredReturn(last, top)]
  {
  }

  lemma AllBy(context: Context, events: seq<EventRow>, t: int)
    requires Ordered(context, events) && LastTime(events) == t
    ensures forall i :: 0 <= i < |events| ==> events[i].timestamp <= t
  {
  }

  function EmptyClocks(config: FeatureConfig): map<Key, Queue> {
    map w, category: Category, side | w in config.clockWindows && side in [1, -1] :: Key(w, category, side) := []
  }

  lemma NothingFollows(config: FeatureConfig, context: Context, clock: map<Key, Queue>, floors: map<Key, int>)
    requires clock == EmptyClocks(config) && floors == map key | key in clock :: 0 - key.window
    ensures Ordered(context, []) && ClocksOk(config, clock, floors, [])
    ensures Increments([]) == Depths([]) == SquaredReturns(config, []) == []
  {
    forall key | IsKey(config, key) ensures KeyOk(clock, floors, [], key) {
      assert key == Key(key.window, key.category, key.side) && key.side in [1, -1];
      assert key in clock;
    }
  }

  lemma LargestFacts(windows: seq<nat>)
    requires GoodWindows(windows)
    ensures Largest(windows) in windows
    ensures forall j :: 0 <= j < |windows| ==> 0 < windows[j] <= Largest(windows)
    ensures forall i, j :: 0 <= i < j < |windows| ==> windows[i] != windows[j]
  {
  }

  lemma OrderedNext(context: Context, v: View, e: EventRow)
    requires Ordered(context, v.consumed) && LastTime(v.consumed) >= 0 && e.timestamp >= 0
    requires LastConsumed(v).Some? ==> LastConsumed(v).value.1 <= e.timestamp
    ensures LastTime(v.consumed) <= e.timestamp == LastTime(v.consumed + [e])
    ensures (e.inSession <==> context.sessionStart <= e.timestamp < context.sessionEnd) ==>
              Ordered(context, v.consumed + [e])
  {
    var after := v.consumed + [e];
    forall i, j | 0 <= i < j < |after| ensures after[i].timestamp <= after[j].timestamp {
      if j == |v.consumed| {
        assert v.consumed[i].timestamp <= v.consumed[|v.consumed| - 1].timestamp;
      }
    }
  }

  ghost predicate Pushed(config: FeatureConfig, j: nat, category: Category, side: int, key: Key)
    requires j <= |config.clockWindows|
  {
    key.category == category && key.side == side && key.window in config.clockWindows[..j]
  }

  lemma PushedNext(config: FeatureConfig, j: nat, category: Category, side: int, key: Key)
    requires j < |config.clockWindows|
    ensures Pushed(config, j + 1, category, side, key) <==>
            Pushed(config, j, category, side, key) || key == Key(config.clockWindows[j], category, side)
  {
    assert config.clockWindows[..j + 1] == config.clockWindows[..j] + [config.clockWindows[j]];
  }

  lemma NotYetPushed(config: FeatureConfig, j: nat, category: Category, side: int)
    requires GoodWindows(config.clockWindows) && j < |config.clockWindows|
    ensures !Pushed(config, j, category, side, Key(config.clockWindows[j], category, side))
    ensures config.clockWindows[j] > 0
  {
  }

  lemma NotRated(e: EventRow, category: Category, side: int, config: FeatureConfig, key: Key)
    requires Rated(e, category, side) && IsKey(config, key) && !Pushed(config, |config.clockWindows|, category, side, key)
    ensures !Rated(e, key.category, key.side)
  {
    assert config.clockWindows[..|config.clockWindows|] == config.clockWindows;
  }

  lemma HasKey(clock: map<Key, Queue>, floors: map<Key, int>, events: seq<EventRow>, key: Key)
    requires KeyOk(clock, floors, events, key)
    ensures key in clock && key in floors
  {
  }

  // ---------------------------------------------------------------- the merge loop

  /** Consume the events up to a snapshot's index. */
  method ConsumeEvents(state: FeatureState, events: seq<EventRow>, next: nat, limit: int)
    returns (error: Option<DatasetError>, following: nat, current: Option<EventRow>)
    requires state.Valid() && next <= |events|
    modifies state, state.flow, state.flow.windows, state.flow.Objects()
    ensures following <= |events|
    ensures forall i :: 0 <= i < |state.flow.Objects()| ==>
              state.flow.Objects()[i] in old(state.flow.Objects()) || fresh(state.flow.Objects()[i])
    ensures match ConsumeUpTo(state.config, state.context, events, old(state.view), next, limit, None)
            case NotConsumed(e) => error == Some(e)
            case Consumed(view, n, c) =>
              error == None && state.Valid() && state.view == view && following == n && current == c
  {
    error, following, current := None, next, None;
    hide FeatureState.Valid, ConsumeUpTo, AfterEvent, EventError, ExecutionFlow.Objects;
    ghost var start := state.view;
    while following < |events| && events[following].index <= limit
      invariant next <= following <= |events|
      invariant state.Valid() && error.None?
      invariant forall i :: 0 <= i < |state.flow.Objects()| ==>
                  state.flow.Objects()[i] in old(state.flow.Objects()) || fresh(state.flow.Objects()[i])
      invariant ConsumeUpTo(state.config, state.context, events, start, next, limit, None) ==
                ConsumeUpTo(state.config, state.context, events, state.view, following, limit, current)
      decreases |events| - following
    {
      var e := events[following];
      ConsumeStep(state.config, state.context, events, state.view, following, limit, current);
      error := state.ConsumeEvent(e);
      if error.Some? {
        return;
      }
      following := following + 1;
      if e.index == limit {
        current := Some(e);
      }
    }
    ConsumeStop(state.config, state.context, events, state.view, following, limit, current);
  }

  lemma ConsumeStep(config: FeatureConfig, context: Context, events: seq<EventRow>, v: View, next: nat, limit: int,
                    current: Option<EventRow>)
    requires next < |events| && events[next].index <= limit
    ensures var e := events[next];
            var error := EventError(context, LastConsumed(v), e);
            ConsumeUpTo(config, context, events, v, next, limit, current) ==
            if error.Some? then NotConsumed(error.value)
            else ConsumeUpTo(config, context, events, AfterEvent(config, v, e), next + 1, limit,
                             if e.index == limit then Some(e) else current)
  {
    hide EventError, AfterEvent;
  }

  lemma ConsumeStop(config: FeatureConfig, context: Context, events: seq<EventRow>, v: View, next: nat, limit: int,
                    current: Option<EventRow>)
    requires next <= |events| && (next == |events| || events[next].index > limit)
    ensures ConsumeUpTo(config, context, events, v, next, limit, current) == Consumed(v, next, current)
  {
  }

  lemma {:induction false} CurrentIsLast(config: FeatureConfig, context: Context, events: seq<EventRow>, v: View, next: nat,
                                         limit: int, current: Option<EventRow>)
    requires next <= |events|
    requires current.Some? ==> v.consumed != [] && v.consumed[|v.consumed| - 1] == current.value && current.value.index == limit
    ensures var c := ConsumeUpTo(config, context, events, v, next, limit, current);
            c.Consumed? && c.current.Some? ==>
              c.view.consumed != [] && c.current.value == c.view.consumed[|c.view.consumed| - 1]
    ensures var c := ConsumeUpTo(config, context, events, v, next, limit, current);
            c.Consumed? ==> c.view.lastSnapshot == v.lastSnapshot && c.view.tops == v.tops
    decreases |events| - next
  {
    hide FlowAfter;
    if next < |events| && events[next].index <= limit {
      var e := events[next];
      if EventError(context, LastConsumed(v), e).None? {
        CurrentIsLast(config, context, events, AfterEvent(config, v, e), next + 1, limit,
                      if e.index == limit then Some(e) else current);
      }
    }
  }

  lemma {:induction false} MergeFails(config: FeatureConfig, context: Context, events: seq<EventRow>,
                                      snapshots: seq<SnapshotRow>, k: nat)
    requires k <= |snapshots| && Merged(config, context, events, snapshots[..k]).Failed?
    ensures Merged(config, context, events, snapshots) == Merged(config, context, events, snapshots[..k])
    decreases |snapshots|
  {
    hide MergeStep;
    if k == |snapshots| {
      assert snapshots[..k] == snapshots;
    } else {
      assert snapshots[..|snapshots| - 1][..k] == snapshots[..k];
      MergeFails(config, context, events, snapshots[..|snapshots| - 1], k);
    }
  }

  lemma MergeNext(config: FeatureConfig, context: Context, events: seq<EventRow>, snapshots: seq<SnapshotRow>, k: nat)
    requires k < |snapshots| && Merged(config, context, events, snapshots[..k]).Going?
    ensures Merged(config, context, events, snapshots[..k + 1]) ==
            MergeStep(config, context, events, Merged(config, context, events, snapshots[..k]).progress, snapshots[k])
  {
    hide MergeStep;
    assert snapshots[..k + 1][..k] == snapshots[..k];
  }

  /** One snapshot: validate it, consume the events before it and, if it qualifies, build its row. */
  method AddSnapshot(state: FeatureState, events: seq<EventRow>, next: nat, s: SnapshotRow, ghost rows: seq<FeatureRow>)
    returns (error: Option<DatasetError>, following: nat, row: Option<FeatureRow>)
    requires state.Valid() && next <= |events|
    modifies state, state.flow, state.flow.windows, state.flow.Objects(), state.ofi, state.depthSum, state.squaredReturn
    ensures following <= |events|
    ensures forall i :: 0 <= i < |state.flow.Objects()| ==>
              state.flow.Objects()[i] in old(state.flow.Objects()) || fresh(state.flow.Objects()[i])
    ensures match MergeStep(state.config, state.context, events, Progress(old(state.view), next, rows), s)
            case Failed(e) => error == Some(e)
            case Going(p) =>
              && error == None && state.Valid() && state.view == p.view && following == p.next
              && p.rows == (if row.Some? then rows + [row.value] else rows)
  {
    hide FeatureState.Valid, ConsumeUpTo, ExecutionFlow.Objects, RowRefusal, SnapshotError, AfterRow, RowOf;
    following, row := next, None;
    error := state.ValidateSnapshot(s, state.flow.Objects());
    if error.Some? {
      return;
    }
    CurrentIsLast(state.config, state.context, events, state.view, next, s.index, None);
    var current;
    error, following, current := ConsumeEvents(state, events, next, s.index);
    if error.Some? || !Qualifies(s) {
      return;
    }
    SnapshotInSession(state.context, old(state.view.lastSnapshot), s);
    error, row := state.Row(s, current);
  }

  lemma SnapshotInSession(context: Context, last: Option<(int, int)>, s: SnapshotRow)
    requires SnapshotError(context, last, s).None?
    ensures context.sessionStart <= s.timestamp < context.sessionEnd
  {
  }

  lemma VersionOneWindows()
    ensures GoodWindows(EVENT_WINDOWS) && GoodWindows(CLOCK_WINDOWS)
  {
  }

  /** All feature rows of a day and symbol: the streaming pass computes exactly the offline rows. */
  method BuildFeatures(events: seq<EventRow>, snapshots: seq<SnapshotRow>, config: FeatureConfig, context: Context)
    returns (error: Option<DatasetError>, rows: seq<FeatureRow>)
    ensures config.eventWindows != EVENT_WINDOWS || config.clockWindows != CLOCK_WINDOWS ==> error == Some(ConfigSchemaError)
    ensures config.eventWindows == EVENT_WINDOWS && config.clockWindows == CLOCK_WINDOWS ==>
              match Merged(config, context, events, snapshots)
              case Failed(e) => error == Some(e)
              case Going(p) => error == None && rows == p.rows
  {
    hide FeatureState.Valid, MergeStep, ExecutionFlow.Objects, GoodWindows;
    rows := [];
    if config.eventWindows != EVENT_WINDOWS || config.clockWindows != CLOCK_WINDOWS {
      return Some(ConfigSchemaError), rows;
    }
    VersionOneWindows();
    var state := new FeatureState(config, context);
    var next: nat := 0;
    for k := 0 to |snapshots|
      invariant fresh(state) && fresh(state.flow) && fresh(state.flow.windows) && fresh(state.flow.Objects())
      invariant fresh(state.ofi) && fresh(state.depthSum) && fresh(state.squaredReturn)
      invariant state.Valid() && state.config == config && state.context == context && next <= |events|
      invariant Merged(config, context, events, snapshots[..k]) == Going(Progress(state.view, next, rows))
    {
      MergeNext(config, context, events, snapshots, k);
      var row;
      error, next, row := AddSnapshot(state, events, next, snapshots[k], rows);
      if error.Some? {
        MergeFails(config, context, events, snapshots, k + 1);
        return;
      }
      if row.Some? {
        rows := rows + [row.value];
      }
    }
    assert snapshots[..|snapshots|] == snapshots;
    error := None;
  }
}
