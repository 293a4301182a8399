/** What the clock rates of a feature row count, told from the event stream alone, and which way an
    execution flows (python/src/itchlab_research/datasets/features.py). */
module RateMeaning {
  import opened Types
  import opened EventCodec
  import opened FlowModel
  import opened Labels
  import opened FeatureModel

  /** The first n events of the given kinds and resting side, up to an index, later than `low` and not
      later than `high`, by their places in the stream. */
  function Places(events: seq<EventRow>, n: nat, limit: int, kinds: set<EventKind>, side: int, low: int, high: int): set<nat>
    requires n <= |events|
  {
    set i: nat | 0 <= i < n && events[i].index <= limit && events[i].kind in kinds && events[i].side == Some(side) &&
                 low < events[i].timestamp <= high
  }

  function Rate(complete: bool, places: set<nat>): Option<nat> {
    if complete then Some(|places|) else None
  }

  /** The six rates of one window of length w: adds, cancels and deletes, and executions, each of bids
      and then of asks. */
  ghost predicate RatesTold(context: Context, events: seq<EventRow>, n: nat, row: FeatureRow, rates: seq<Option<nat>>, w: nat)
    requires n <= |events|
  {
    var t := row.timestamp;
    var complete, low := t - context.sessionStart >= w, t - w;
    && |rates| == 6
    && rates[0] == Rate(complete, Places(events, n, row.index, {AddEvent}, 1, low, t))
    && rates[1] == Rate(complete, Places(events, n, row.index, {AddEvent}, -1, low, t))
    && rates[2] == Rate(complete, Places(events, n, row.index, {CancelEvent, DeleteEvent}, 1, low, t))
    && rates[3] == Rate(complete, Places(events, n, row.index, {CancelEvent, DeleteEvent}, -1, low, t))
    && rates[4] == Rate(complete, Places(events, n, row.index, {ExecuteEvent, ExecutePriceEvent}, 1, low, t))
    && rates[5] == Rate(complete, Places(events, n, row.index, {ExecuteEvent, ExecutePriceEvent}, -1, low, t))
  }

  ghost predicate RowRatesTold(config: FeatureConfig, context: Context, events: seq<EventRow>, n: nat, row: FeatureRow)
    requires n <= |events|
  {
    && |row.rates| == |config.clockWindows|
    && forall j :: 0 <= j < |config.clockWindows| ==>
         RatesTold(context, events, n, row, row.rates[j], config.clockWindows[j])
  }

  // ---------------------------------------------------------------- counting

  predicate KindsOf(category: Category, kinds: set<EventKind>) {
    forall kind: EventKind :: CategoryOf(kind) == Some(category) <==> kind in kinds
  }

  lemma {:induction false} CountIsPlaces(events: seq<EventRow>, n: nat, limit: int, category: Category,
                                         kinds: set<EventKind>, side: int, low: int, high: int)
    requires n <= |events| && KindsOf(category, kinds)
    requires forall i :: 0 <= i < n ==> events[i].index <= limit
    ensures CountIn(events[..n], category, side, low, high) == |Places(events, n, limit, kinds, side, low, high)|
  {
    hide Places, Rated, KindsOf;
    if n == 0 {
      NoPlaces(events, limit, kinds, side, low, high);
    } else {
      CountIsPlaces(events, n - 1, limit, category, kinds, side, low, high);
      assert events[..n][..n - 1] == events[..n - 1];
      RatedMeans(events[n - 1], category, kinds, side);
      PlacesNext(events, n - 1, limit, kinds, side, low, high);
    }
  }

  lemma RatedMeans(e: EventRow, category: Category, kinds: set<EventKind>, side: int)
    requires KindsOf(category, kinds)
    ensures Rated(e, category, side) <==> e.kind in kinds && e.side == Some(side)
  {
  }

  lemma NoPlaces(events: seq<EventRow>, limit: int, kinds: set<EventKind>, side: int, low: int, high: int)
    ensures Places(events, 0, limit, kinds, side, low, high) == {}
  {
  }

  lemma PlacesNext(events: seq<EventRow>, n: nat, limit: int, kinds: set<EventKind>, side: int, low: int, high: int)
    requires n < |events| && events[n].index <= limit
    ensures |Places(events, n + 1, limit, kinds, side, low, high)| ==
            |Places(events, n, limit, kinds, side, low, high)| +
            if events[n].kind in kinds && events[n].side == Some(side) && low < events[n].timestamp <= high then 1 else 0
  {
    var earlier, places := Places(events, n, limit, kinds, side, low, high), Places(events, n + 1, limit, kinds, side, low, high);
    if events[n].kind in kinds && events[n].side == Some(side) && low < events[n].timestamp <= high {
      assert places == earlier + {n};
    } else {
      assert places == earlier;
    }
  }

  lemma CategoryKinds()
    ensures KindsOf(AddRate, {AddEvent}) && KindsOf(CancelDeleteRate, {CancelEvent, DeleteEvent})
    ensures KindsOf(ExecutionRate, {ExecuteEvent, ExecutePriceEvent})
  {
  }

  lemma WindowCounts(context: Context, events: seq<EventRow>, n: nat, v: View, row: FeatureRow, w: nat)
    requires n <= |events| && v.consumed == events[..n]
    requires forall i :: 0 <= i < n ==> events[i].index <= row.index
    ensures RatesTold(context, events, n, row, RatesAt(context, v, row.timestamp, w), w)
  {
    hide CountIn, Places, KindsOf;
    var t := row.timestamp;
    CategoryKinds();
    CountIsPlaces(events, n, row.index, AddRate, {AddEvent}, 1, t - w, t);
    CountIsPlaces(events, n, row.index, AddRate, {AddEvent}, -1, t - w, t);
    CountIsPlaces(events, n, row.index, CancelDeleteRate, {CancelEvent, DeleteEvent}, 1, t - w, t);
    CountIsPlaces(events, n, row.index, CancelDeleteRate, {CancelEvent, DeleteEvent}, -1, t - w, t);
    CountIsPlaces(events, n, row.index, ExecutionRate, {ExecuteEvent, ExecutePriceEvent}, 1, t - w, t);
    CountIsPlaces(events, n, row.index, ExecutionRate, {ExecuteEvent, ExecutePriceEvent}, -1, t - w, t);
  }

  /** Events past a row's index add no place. */
  lemma LaterPlaces(events: seq<EventRow>, n: nat, m: nat, limit: int, kinds: set<EventKind>, side: int, low: int, high: int)
    requires n <= m <= |events| && forall i :: n <= i < m ==> events[i].index > limit
    ensures Places(events, m, limit, kinds, side, low, high) == Places(events, n, limit, kinds, side, low, high)
  {
  }

  lemma LaterRates(context: Context, events: seq<EventRow>, n: nat, m: nat, row: FeatureRow, rates: seq<Option<nat>>, w: nat)
    requires n <= m <= |events| && forall i :: n <= i < m ==> events[i].index > row.index
    requires RatesTold(context, events, n, row, rates, w)
    ensures RatesTold(context, events, m, row, rates, w)
  {
    hide Places;
    var t := row.timestamp;
    LaterPlaces(events, n, m, row.index, {AddEvent}, 1, t - w, t);
    LaterPlaces(events, n, m, row.index, {AddEvent}, -1, t - w, t);
    LaterPlaces(events, n, m, row.index, {CancelEvent, DeleteEvent}, 1, t - w, t);
    LaterPlaces(events, n, m, row.index, {CancelEvent, DeleteEvent}, -1, t - w, t);
    LaterPlaces(events, n, m, row.index, {ExecuteEvent, ExecutePriceEvent}, 1, t - w, t);
    LaterPlaces(events, n, m, row.index, {ExecuteEvent, ExecutePriceEvent}, -1, t - w, t);
  }

  // ---------------------------------------------------------------- the merge

  ghost predicate Increasing(events: seq<EventRow>) {
    forall i, j :: 0 <= i < j < |events| ==> events[i].index < events[j].index
  }

  /** What has been consumed is a prefix with increasing indices, and the next event is past the limit. */
  ghost predicate ConsumedTo(events: seq<EventRow>, v: View, next: nat) {
    next <= |events| && v.consumed == events[..next] && Increasing(events[..next])
  }

  lemma ConsumingTo(config: FeatureConfig, context: Context, events: seq<EventRow>, v: View, next: nat, limit: int,
                    current: Option<EventRow>)
    requires ConsumedTo(events, v, next)
    ensures var c := ConsumeUpTo(config, context, events, v, next, limit, current);
            c.Consumed? ==>
              && ConsumedTo(events, c.view, c.next) && next <= c.next
              && c.view.lastSnapshot == v.lastSnapshot
              && (forall i :: next <= i < c.next ==> events[i].index <= limit)
              && (c.next < |events| ==> events[c.next].index > limit)
    decreases |events| - next
  {
    if next < |events| && events[next].index <= limit {
      var e := events[next];
      if EventError(context, LastConsumed(v), e).None? {
        NextConsumed(config, context, events, v, next);
        ConsumingTo(config, context, events, AfterEvent(config, v, e), next + 1, limit,
                    if e.index == limit then Some(e) else current);
      }
    }
  }

  lemma NextConsumed(config: FeatureConfig, context: Context, events: seq<EventRow>, v: View, next: nat)
    requires ConsumedTo(events, v, next) && next < |events|
    requires EventError(context, LastConsumed(v), events[next]).None?
    ensures ConsumedTo(events, AfterEvent(config, v, events[next]), next + 1)
  {
    hide FlowAfter;
    var e := events[next];
    var prefix := events[..next + 1];
    assert prefix == events[..next] + [e];
    forall i, j | 0 <= i < j < |prefix| ensures prefix[i].index < prefix[j].index {
      if j == next && i < next - 1 {
        assert events[..next][i].index < events[..next][next - 1].index;
      } else if j < next {
        assert events[..next][i].index < events[..next][j].index;
      }
    }
  }

  /** Every row's rates are told, and whatever comes next is past all rows. */
  ghost predicate AllRatesTold(config: FeatureConfig, context: Context, events: seq<EventRow>, p: Progress) {
    && ConsumedTo(events, p.view, p.next)
    && (p.view.lastSnapshot.None? ==> p.rows == [])
    && (p.view.lastSnapshot.Some? && p.next < |events| ==> events[p.next].index > p.view.lastSnapshot.value.0)
    && (p.view.lastSnapshot.Some? ==> forall i :: 0 <= i < p.next ==> events[i].index <= p.view.lastSnapshot.value.0)
    && (p.view.lastSnapshot.None? ==> p.next == 0)
    && forall k :: 0 <= k < |p.rows| ==>
         p.rows[k].index <= p.view.lastSnapshot.value.0 && RowRatesTold(config, context, events, p.next, p.rows[k])
  }

  /** Consumed events after a row's snapshot are past its index. */
  lemma PastTheRow(events: seq<EventRow>, v: View, n: nat, m: nat, limit: int)
    requires ConsumedTo(events, v, m) && n <= m && (n < |events| ==> events[n].index > limit)
    ensures forall i :: n <= i < m ==> events[i].index > limit
  {
    forall i | n <= i < m ensures events[i].index > limit {
      if i > n {
        assert events[..m][n].index < events[..m][i].index;
      }
    }
  }

  lemma RowStaysTold(config: FeatureConfig, context: Context, events: seq<EventRow>, n: nat, m: nat, row: FeatureRow)
    requires n <= m <= |events| && forall i :: n <= i < m ==> events[i].index > row.index
    requires RowRatesTold(config, context, events, n, row)
    ensures RowRatesTold(config, context, events, m, row)
  {
    hide RatesTold;
    forall j | 0 <= j < |config.clockWindows| ensures RatesTold(context, events, m, row, row.rates[j], config.clockWindows[j]) {
      LaterRates(context, events, n, m, row, row.rates[j], config.clockWindows[j]);
    }
  }

  lemma NewRowTold(config: FeatureConfig, context: Context, events: seq<EventRow>, n: nat, v: View, s: SnapshotRow)
    requires n <= |events| && v.consumed == events[..n] && forall i :: 0 <= i < n ==> events[i].index <= s.index
    ensures RowRatesTold(config, context, events, n, RowOf(config, context, v, s))
  {
    hide RatesTold, RatesAt, WindowAt, Largest;
    var row := RowOf(config, context, v, s);
    forall j | 0 <= j < |config.clockWindows| ensures RatesTold(context, events, n, row, row.rates[j], config.clockWindows[j]) {
      WindowCounts(context, events, n, v, row, config.clockWindows[j]);
    }
  }

  lemma StepRatesTold(config: FeatureConfig, context: Context, events: seq<EventRow>, p: Progress, s: SnapshotRow)
    requires p.next <= |events| && AllRatesTold(config, context, events, p)
    requires MergeStep(config, context, events, p, s).Going?
    ensures AllRatesTold(config, context, events, MergeStep(config, context, events, p, s).progress)
  {
    hide RowRefusal, ConsumeUpTo, RowOf, RowRatesTold, ConsumedTo, Qualifies, TopOfRow, BucketClosed;
    var after := MergeStep(config, context, events, p, s).progress;
    var v := p.view.(lastSnapshot := Some((s.index, s.timestamp)));
    SameConsumed(events, p.view, v, p.next);
    ConsumingTo(config, context, events, v, p.next, s.index, None);
    var seen := ConsumeUpTo(config, context, events, v, p.next, s.index, None);
    EarlierEvents(context, events, p, s, seen.next);
    forall k | 0 <= k < |p.rows| ensures RowRatesTold(config, context, events, after.next, p.rows[k]) {
      PastTheRow(events, seen.view, p.next, seen.next, p.rows[k].index);
      RowStaysTold(config, context, events, p.next, after.next, p.rows[k]);
    }
    SameConsumed(events, seen.view, after.view, seen.next);
    if Qualifies(s) {
      ConsumedIs(events, after.view, after.next);
      NewRowTold(config, context, events, after.next, after.view, s);
      RowIndex(config, context, after.view, s);
      assert after.rows == p.rows + [RowOf(config, context, after.view, s)];
    }
  }

  lemma RowIndex(config: FeatureConfig, context: Context, v: View, s: SnapshotRow)
    ensures RowOf(config, context, v, s).index == s.index
  {
  }

  lemma ConsumedIs(events: seq<EventRow>, v: View, next: nat)
    requires ConsumedTo(events, v, next)
    ensures next <= |events| && v.consumed == events[..next]
  {
  }

  lemma SameConsumed(events: seq<EventRow>, v: View, w: View, next: nat)
    requires ConsumedTo(events, v, next)
    ensures w.consumed == v.consumed ==> ConsumedTo(events, w, next)
  {
  }

  lemma EarlierEvents(context: Context, events: seq<EventRow>, p: Progress, s: SnapshotRow, n: nat)
    requires p.next <= n <= |events| && SnapshotError(context, p.view.lastSnapshot, s).None?
    requires p.view.lastSnapshot.Some? ==> forall i :: 0 <= i < p.next ==> events[i].index <= p.view.lastSnapshot.value.0
    requires p.view.lastSnapshot.None? ==> p.next == 0
    requires forall i :: p.next <= i < n ==> events[i].index <= s.index
    ensures forall i :: 0 <= i < n ==> events[i].index <= s.index
    ensures p.view.lastSnapshot.Some? ==> p.view.lastSnapshot.value.0 < s.index
  {
  }

  lemma {:induction false} MergedRatesTold(config: FeatureConfig, context: Context, events: seq<EventRow>,
                                           snapshots: seq<SnapshotRow>)
    requires Merged(config, context, events, snapshots).Going?
    ensures AllRatesTold(config, context, events, Merged(config, context, events, snapshots).progress)
  {
    hide MergeStep, AllRatesTold;
    if snapshots == [] {
      NoRates(config, context, events);
    } else {
      var earlier := snapshots[..|snapshots| - 1];
      MergedRatesTold(config, context, events, earlier);
      StepRatesTold(config, context, events, Merged(config, context, events, earlier).progress, snapshots[|snapshots| - 1]);
    }
  }

  lemma NoRates(config: FeatureConfig, context: Context, events: seq<EventRow>)
    ensures AllRatesTold(config, context, events, Progress(NOTHING_SEEN, 0, []))
  {
  }

  /** Row k of a pass that succeeds: once its window is complete, each clock rate is the number of
      consumed events of the kinds and the resting side, up to the row's index, in the half-open time
      window that ends at the row. */
  lemma RatesCountEvents(config: FeatureConfig, context: Context, events: seq<EventRow>, snapshots: seq<SnapshotRow>,
                         k: nat, j: nat)
    requires Merged(config, context, events, snapshots).Going?
    requires k < |Merged(config, context, events, snapshots).progress.rows| && j < |config.clockWindows|
    ensures var p := Merged(config, context, events, snapshots).progress;
            && p.next <= |events| && j < |p.rows[k].rates|
            && RatesTold(context, events, p.next, p.rows[k], p.rows[k].rates[j], config.clockWindows[j])
  {
    hide Merged, RatesTold, ConsumedTo;
    MergedRatesTold(config, context, events, snapshots);
  }

  // ---------------------------------------------------------------- the direction of flow

  /** An in-session execution against a resting bid is selling, one against a resting ask buying, of
      its whole quantity. */
  lemma ExecutionFlowsAgainst(config: FeatureConfig, v: View, e: EventRow)
    requires e.inSession && e.kind in {ExecuteEvent, ExecutePriceEvent} && e.side in {Some(1), Some(-1)}
    requires e.quantity.Some? && e.secondary.Some?
    ensures var before, after := v.flow, AfterEvent(config, v, e).flow;
            && |after.pending| == |before.pending| + 1 && after.pending[..|before.pending|] == before.pending
            && var exec := after.pending[|before.pending|];
               && exec.matchNumber == e.secondary.value && exec.quantity == e.quantity.value
               && (if e.side == Some(1) then exec.signed == -e.quantity.value else exec.signed == e.quantity.value)
               && (exec.id in after.retracted <==> exec.matchNumber in before.broken || exec.id in before.retracted)
    ensures AfterEvent(config, v, e).flow.history == v.flow.history && AfterEvent(config, v, e).flow.broken == v.flow.broken
  {
  }
}
