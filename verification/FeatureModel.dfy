/** What a feature row is, told offline from all consumed events and qualifying snapshots
    (python/src/itchlab_research/datasets/features.py), and the merge of the two streams. */
module FeatureModel {
  import opened Types
  import opened EventCodec
  import opened FlowModel
  import opened Labels

  datatype EventRow = EventRow(
    partition: Partition,
    index: int,
    timestamp: int,
    inSession: bool,
    kind: EventKind,
    side: Option<int>,
    quantity: Option<int>,
    primary: Option<int>,
    secondary: Option<int>)

  datatype Category = AddRate | CancelDeleteRate | ExecutionRate

  datatype Top = Top(bid: int, ask: int, bidQuantity: int, askQuantity: int)

  /** The squared logarithmic return between two tops stays a parameter. */
  datatype FeatureConfig = FeatureConfig(eventWindows: seq<nat>, clockWindows: seq<nat>, squaredReturn: (Top, Top) -> real)

  const EVENT_WINDOWS: seq<nat> := [20, 100, 500]
  const CLOCK_WINDOWS: seq<nat> := [100_000_000, 1_000_000_000]

  function CategoryOf(kind: EventKind): Option<Category> {
    match kind
    case AddEvent => Some(AddRate)
    case CancelEvent => Some(CancelDeleteRate)
    case DeleteEvent => Some(CancelDeleteRate)
    case ExecuteEvent => Some(ExecutionRate)
    case ExecutePriceEvent => Some(ExecutionRate)
    case _ => None
  }

  function Largest(windows: seq<nat>): (largest: nat)
    ensures forall j :: 0 <= j < |windows| ==> windows[j] <= largest
    ensures windows != [] ==> largest in windows
  {
    if windows == [] then 0
    else
      var n := |windows| - 1;
      var earlier := Largest(windows[..n]);
      if windows[n] > earlier || n == 0 then windows[n] else earlier
  }

  // ---------------------------------------------------------------- events

  function EventError(context: Context, previous: Option<(int, int)>, e: EventRow): Option<DatasetError> {
    if e.partition != context.partition then Some(InvariantError)
    else if !(0 <= e.timestamp < NANOSECONDS_PER_DAY) then Some(TimestampError)
    else if previous.Some? && e.index <= previous.value.0 then Some(InvariantError)
    else if previous.Some? && e.timestamp < previous.value.1 then Some(TimestampError)
    else if e.inSession != (context.sessionStart <= e.timestamp < context.sessionEnd) then Some(InvariantError)
    else if !e.inSession then None
    else if CategoryOf(e.kind).Some? && e.side != Some(1) && e.side != Some(-1) then Some(InvariantError)
    else if (e.kind == ExecuteEvent || e.kind == ExecutePriceEvent) &&
            (e.quantity.None? || e.quantity.value <= 0 || e.secondary.None?) then Some(InvariantError)
    else if e.kind == BrokenTradeEvent && e.primary.None? then Some(InvariantError)
    else None
  }

  datatype View = View(consumed: seq<EventRow>, lastSnapshot: Option<(int, int)>, tops: seq<Top>, flow: Flow)

  const NOTHING_SEEN: View := View([], None, [], NO_FLOW)

  function LastPosition(events: seq<EventRow>): Option<(int, int)> {
    if events == [] then None else Some((events[|events| - 1].index, events[|events| - 1].timestamp))
  }

  function LastConsumed(v: View): Option<(int, int)> {
    LastPosition(v.consumed)
  }

  function FlowAfter(f: Flow, span: nat, e: EventRow): Flow {
    if !e.inSession then f
    else if e.kind == ExecuteEvent || e.kind == ExecutePriceEvent then
      Executed(f, e.secondary.GetOr(0), -e.side.GetOr(0) * e.quantity.GetOr(0), e.quantity.GetOr(0))
    else if e.kind == BrokenTradeEvent then TradeBroken(f, span, e.primary.GetOr(0))
    else f
  }

  function AfterEvent(config: FeatureConfig, v: View, e: EventRow): View {
    v.(consumed := v.consumed + [e], flow := FlowAfter(v.flow, Largest(config.eventWindows), e))
  }

  // ---------------------------------------------------------------- snapshots

  function SnapshotError(context: Context, last: Option<(int, int)>, s: SnapshotRow): Option<DatasetError> {
    if s.partition != context.partition then Some(InvariantError)
    else if !(0 <= s.timestamp < NANOSECONDS_PER_DAY) then Some(TimestampError)
    else if last.Some? && s.index <= last.value.0 then Some(InvariantError)
    else if last.Some? && s.timestamp < last.value.1 then Some(TimestampError)
    else if !(context.sessionStart <= s.timestamp < context.sessionEnd) then Some(SessionWindowError)
    else None
  }

  function TopOfRow(s: SnapshotRow): Top
    requires Qualifies(s)
  {
    Top(s.bid.value, s.ask.value, s.bidQuantity.value, s.askQuantity.value)
  }

  function RowRefusal(s: SnapshotRow, current: Option<EventRow>): Option<DatasetError>
    requires Qualifies(s)
  {
    var top := TopOfRow(s);
    if top.bidQuantity <= 0 || top.askQuantity <= 0 then Some(QuantityError)
    else if top.bid + top.ask <= 0 then Some(PriceError)
    else if top.ask <= top.bid then Some(BookCrossedError)
    else if current.None? || current.value.timestamp != s.timestamp || current.value.kind != s.kind then
      Some(InvariantError)
    else None
  }

  function AfterRow(config: FeatureConfig, v: View, s: SnapshotRow): View
    requires Qualifies(s)
  {
    v.(tops := v.tops + [TopOfRow(s)], flow := BucketClosed(v.flow, Largest(config.eventWindows)))
  }

  // ---------------------------------------------------------------- the definition of a row

  /** Order-flow imbalance of one transition. */
  function Increment(previous: Top, top: Top): int {
    (if top.bid >= previous.bid then top.bidQuantity else 0)
    - (if top.bid <= previous.bid then previous.bidQuantity else 0)
    - (if top.ask <= previous.ask then top.askQuantity else 0)
    + (if top.ask >= previous.ask then previous.askQuantity else 0)
  }

  function Depth(top: Top): int {
    top.bidQuantity + top.askQuantity
  }

  function Steps(tops: seq<Top>): nat {
    if tops == [] then 0 else |tops| - 1
  }

  function Increments(tops: seq<Top>): (values: seq<real>)
    ensures |values| == Steps(tops)
  {
    seq(Steps(tops), i requires 0 <= i < Steps(tops) => Increment(tops[i], tops[i + 1]) as real)
  }

  function Depths(tops: seq<Top>): (values: seq<real>)
    ensures |values| == Steps(tops)
  {
    seq(Steps(tops), i requires 0 <= i < Steps(tops) => Depth(tops[i + 1]) as real)
  }

  function SquaredReturns(config: FeatureConfig, tops: seq<Top>): (values: seq<real>)
    ensures |values| == Steps(tops)
  {
    seq(Steps(tops), i requires 0 <= i < Steps(tops) => config.squaredReturn(tops[i], tops[i + 1]))
  }

  function Sum(values: seq<real>): real {
    if values == [] then 0.0 else Sum(values[..|values| - 1]) + values[|values| - 1]
  }

  datatype WindowRow = WindowRow(ofi: real, depth: real, squared: real, signed: int, quantity: int)

  /** The sums over the last w transitions and the flow of the last w buckets, once w transitions
      were seen. */
  function WindowAt(config: FeatureConfig, v: View, w: nat): Option<WindowRow> {
    if Steps(v.tops) < w then None
    else
      Some(WindowRow(Sum(Last(Increments(v.tops), w)), Sum(Last(Depths(v.tops), w)),
                     Sum(Last(SquaredReturns(config, v.tops), w)),
                     SignedTotal(Flat(Last(v.flow.history, w)), v.flow.retracted),
                     QuantityTotal(Flat(Last(v.flow.history, w)), v.flow.retracted)))
  }

  predicate Rated(e: EventRow, category: Category, side: int) {
    CategoryOf(e.kind) == Some(category) && e.side == Some(side)
  }

  /** How many consumed events of the category and side fall in (low, high]. */
  function CountIn(events: seq<EventRow>, category: Category, side: int, low: int, high: int): nat {
    if events == [] then 0
    else
      var e := events[|events| - 1];
      CountIn(events[..|events| - 1], category, side, low, high) +
      (if Rated(e, category, side) && low < e.timestamp <= high then 1 else 0)
  }

  function RateAt(context: Context, v: View, t: int, w: nat, category: Category, side: int): Option<nat> {
    if t - context.sessionStart >= w then Some(CountIn(v.consumed, category, side, t - w, t)) else None
  }

  /** The six rates of one clock window, in the order of the catalogue. */
  function RatesAt(context: Context, v: View, t: int, w: nat): seq<Option<nat>> {
    [RateAt(context, v, t, w, AddRate, 1), RateAt(context, v, t, w, AddRate, -1),
     RateAt(context, v, t, w, CancelDeleteRate, 1), RateAt(context, v, t, w, CancelDeleteRate, -1),
     RateAt(context, v, t, w, ExecutionRate, 1), RateAt(context, v, t, w, ExecutionRate, -1)]
  }

  datatype FeatureRow = FeatureRow(
    partition: Partition,
    index: int,
    timestamp: int,
    ordinal: int,
    historyComplete: bool,
    windows: seq<Option<WindowRow>>,
    rates: seq<seq<Option<nat>>>)

  /** The row of a qualifying snapshot, from everything seen up to and including it. */
  function RowOf(config: FeatureConfig, context: Context, v: View, s: SnapshotRow): FeatureRow {
    FeatureRow(context.partition, s.index, s.timestamp, |v.tops| - 1,
               |v.tops| - 1 >= Largest(config.eventWindows) &&
               s.timestamp - context.sessionStart >= Largest(config.clockWindows),
               seq(|config.eventWindows|, j requires 0 <= j < |config.eventWindows| =>
                 WindowAt(config, v, config.eventWindows[j])),
               seq(|config.clockWindows|, j requires 0 <= j < |config.clockWindows| =>
                 RatesAt(context, v, s.timestamp, config.clockWindows[j])))
  }

  // ---------------------------------------------------------------- the merge of the two streams

  datatype Progress = Progress(view: View, next: nat, rows: seq<FeatureRow>)

  datatype Merge = Going(progress: Progress) | Failed(error: DatasetError)

  datatype Consumption = Consumed(view: View, next: nat, current: Option<EventRow>) | NotConsumed(error: DatasetError)

  /** Consume events up to an index; `current` is the event at that index, if any. */
  function ConsumeUpTo(config: FeatureConfig, context: Context, events: seq<EventRow>, v: View, next: nat, limit: int,
                       current: Option<EventRow>): (result: Consumption)
    requires next <= |events|
    ensures result.Consumed? ==> next <= result.next <= |events|
    decreases |events| - next
  {
    if next == |events| || events[next].index > limit then Consumed(v, next, current)
    else
      var e := events[next];
      if EventError(context, LastConsumed(v), e).Some? then NotConsumed(EventError(context, LastConsumed(v), e).value)
      else ConsumeUpTo(config, context, events, AfterEvent(config, v, e), next + 1, limit,
                       if e.index == limit then Some(e) else current)
  }

  function MergeStep(config: FeatureConfig, context: Context, events: seq<EventRow>, p: Progress, s: SnapshotRow): (m: Merge)
    requires p.next <= |events|
    ensures m.Going? ==> p.next <= m.progress.next <= |events|
  {
    if SnapshotError(context, p.view.lastSnapshot, s).Some? then
      Failed(SnapshotError(context, p.view.lastSnapshot, s).value)
    else
      var v := p.view.(lastSnapshot := Some((s.index, s.timestamp)));
      match ConsumeUpTo(config, context, events, v, p.next, s.index, None)
      case NotConsumed(error) => Failed(error)
      case Consumed(seen, next, current) =>
        if !Qualifies(s) then Going(Progress(seen, next, p.rows))
        else if RowRefusal(s, current).Some? then Failed(RowRefusal(s, current).value)
        else
          var after := AfterRow(config, seen, s);
          Going(Progress(after, next, p.rows + [RowOf(config, context, after, s)]))
  }

  function Merged(config: FeatureConfig, context: Context, events: seq<EventRow>, snapshots: seq<SnapshotRow>): (m: Merge)
    ensures m.Going? ==> m.progress.next <= |events|
  {
    if snapshots == [] then Going(Progress(NOTHING_SEEN, 0, []))
    else
      match Merged(config, context, events, snapshots[..|snapshots| - 1])
      case Failed(error) => Failed(error)
      case Going(p) => MergeStep(config, context, events, p, snapshots[|snapshots| - 1])
  }

  // ---------------------------------------------------------------- causality

  /** Two event streams that agree on everything up to an index. */
  ghost predicate AgreeFor(events: seq<EventRow>, other: seq<EventRow>, limit: int, n: nat) {
    && n <= |events| && n <= |other| && events[..n] == other[..n]
    && (n < |events| ==> events[n].index > limit)
    && (n < |other| ==> other[n].index > limit)
  }

  lemma {:induction false} ConsumeAgrees(config: FeatureConfig, context: Context, events: seq<EventRow>,
                                         other: seq<EventRow>, n: nat, v: View, next: nat, limit: int, bound: int,
                                         current: Option<EventRow>)
    requires AgreeFor(events, other, bound, n) && next <= n && limit <= bound
    ensures ConsumeUpTo(config, context, events, v, next, limit, current) ==
            ConsumeUpTo(config, context, other, v, next, limit, current)
    ensures var c := ConsumeUpTo(config, context, events, v, next, limit, current); c.Consumed? ==> c.next <= n
    decreases n - next
  {
    if next < n {
      assert events[next] == events[..n][next] == other[..n][next] == other[next];
      var e := events[next];
      if e.index <= limit && EventError(context, LastConsumed(v), e).None? {
        ConsumeAgrees(config, context, events, other, n, AfterEvent(config, v, e), next + 1, limit, bound,
                      if e.index == limit then Some(e) else current);
      }
    }
  }

  /** Causality: rows depend only on the snapshots so far and on the events up to their indices.
      Whatever follows, in either stream, leaves them as they are. */
  lemma {:induction false} RowsAreCausal(config: FeatureConfig, context: Context, events: seq<EventRow>,
                                         other: seq<EventRow>, snapshots: seq<SnapshotRow>, bound: int, n: nat)
    requires AgreeFor(events, other, bound, n)
    requires forall k :: 0 <= k < |snapshots| ==> snapshots[k].index <= bound
    ensures Merged(config, context, events, snapshots) == Merged(config, context, other, snapshots)
    ensures var m := Merged(config, context, events, snapshots); m.Going? ==> m.progress.next <= n
  {
    hide RowOf, AfterRow, AfterEvent, SnapshotError, RowRefusal, ConsumeUpTo;
    if snapshots != [] {
      var earlier, s := snapshots[..|snapshots| - 1], snapshots[|snapshots| - 1];
      RowsAreCausal(config, context, events, other, earlier, bound, n);
      var m := Merged(config, context, events, earlier);
      if m.Going? {
        var v := m.progress.view.(lastSnapshot := Some((s.index, s.timestamp)));
        ConsumeAgrees(config, context, events, other, n, v, m.progress.next, s.index, bound, None);
      }
    }
  }

  /** More snapshots only add rows. */
  lemma RowsOnlyGrow(config: FeatureConfig, context: Context, events: seq<EventRow>, snapshots: seq<SnapshotRow>,
                     s: SnapshotRow)
    requires Merged(config, context, events, snapshots + [s]).Going?
    ensures Merged(config, context, events, snapshots).Going?
    ensures Merged(config, context, events, snapshots).progress.rows <=
            Merged(config, context, events, snapshots + [s]).progress.rows
  {
    hide RowOf, AfterRow, SnapshotError, RowRefusal, ConsumeUpTo;
    assert (snapshots + [s])[..|snapshots|] == snapshots;
  }
}
