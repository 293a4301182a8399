/** What a feature row says, told from the two input streams alone
    (python/src/itchlab_research/datasets/features.py): order-flow imbalance and depth from the tops of
    the qualifying snapshots, and clock rates from the kinds, sides and times of the events. */
module RowMeaning {
  import opened Types
  import opened EventCodec
  import opened FlowModel
  import opened Labels
  import opened FeatureModel

  // ---------------------------------------------------------------- tops

  /** The tops of the snapshots whose top changed while trading, with both sides quoted. */
  function QualifyingTops(snapshots: seq<SnapshotRow>): seq<Top> {
    if snapshots == [] then []
    else
      var earlier, s := QualifyingTops(snapshots[..|snapshots| - 1]), snapshots[|snapshots| - 1];
      if s.topChanged && s.trading && s.bid.Some? && s.ask.Some? && s.bidQuantity.Some? && s.askQuantity.Some?
      then earlier + [Top(s.bid.value, s.ask.value, s.bidQuantity.value, s.askQuantity.value)]
      else earlier
  }

  /** Buying interest gained: a higher bid adds all of the new quantity, a lower one takes all of the
      old away, and an unchanged price changes by the difference. */
  function BidMove(a: Top, b: Top): int {
    if b.bid > a.bid then b.bidQuantity
    else if b.bid < a.bid then -a.bidQuantity
    else b.bidQuantity - a.bidQuantity
  }

  /** Selling interest gained: a lower ask adds, a higher one takes away. */
  function AskMove(a: Top, b: Top): int {
    if b.ask < a.ask then b.askQuantity
    else if b.ask > a.ask then -a.askQuantity
    else b.askQuantity - a.askQuantity
  }

  /** Net buying interest gained over a run of tops. */
  function Pressure(tops: seq<Top>): int {
    if |tops| <= 1 then 0
    else
      var n := |tops| - 1;
      Pressure(tops[..n]) + BidMove(tops[n - 1], tops[n]) - AskMove(tops[n - 1], tops[n])
  }

  function QuotedQuantity(tops: seq<Top>): int {
    if tops == [] then 0
    else
      var top := tops[|tops| - 1];
      QuotedQuantity(tops[..|tops| - 1]) + top.bidQuantity + top.askQuantity
  }

  function ReturnsSquared(config: FeatureConfig, tops: seq<Top>): real {
    if |tops| <= 1 then 0.0
    else
      var n := |tops| - 1;
      ReturnsSquared(config, tops[..n]) + config.squaredReturn(tops[n - 1], tops[n])
  }

  lemma {:induction false} SquaresAreReturns(config: FeatureConfig, tops: seq<Top>)
    ensures Sum(SquaredReturns(config, tops)) == ReturnsSquared(config, tops)
  {
    if |tops| > 1 {
      var n := |tops| - 1;
      SquaresAreReturns(config, tops[..n]);
      assert SquaredReturns(config, tops)[..n - 1] == SquaredReturns(config, tops[..n]);
    }
  }

  lemma {:induction false} IncrementsArePressure(tops: seq<Top>)
    ensures Sum(Increments(tops)) == Pressure(tops) as real
  {
    if |tops| > 1 {
      var n := |tops| - 1;
      IncrementsArePressure(tops[..n]);
      assert Increments(tops)[..n - 1] == Increments(tops[..n]);
    }
  }

  lemma {:induction false} DepthsAreQuantities(tops: seq<Top>)
    requires tops != []
    ensures Sum(Depths(tops)) == QuotedQuantity(tops[1..]) as real
  {
    if |tops| > 1 {
      var n := |tops| - 1;
      DepthsAreQuantities(tops[..n]);
      assert Depths(tops)[..n - 1] == Depths(tops[..n]);
      assert tops[1..][..n - 1] == tops[..n][1..];
    }
  }

  lemma WindowOfSteps(config: FeatureConfig, tops: seq<Top>, w: nat)
    requires w < |tops|
    ensures Last(Increments(tops), w) == Increments(tops[|tops| - 1 - w..])
    ensures Last(Depths(tops), w) == Depths(tops[|tops| - 1 - w..])
    ensures Last(SquaredReturns(config, tops), w) == SquaredReturns(config, tops[|tops| - 1 - w..])
  {
  }

  /** A row is marked complete exactly when none of its windows and none of its rates is null. */
  predicate CompleteTold(row: FeatureRow) {
    row.historyComplete <==>
    && (forall j :: 0 <= j < |row.windows| ==> row.windows[j].Some?)
    && (forall j, r :: 0 <= j < |row.rates| && 0 <= r < |row.rates[j]| ==> row.rates[j][r].Some?)
  }

  lemma RowIsComplete(config: FeatureConfig, context: Context, v: View, s: SnapshotRow)
    requires v.tops != [] && s.timestamp >= context.sessionStart
    ensures CompleteTold(RowOf(config, context, v, s))
  {
    hide Increments, Depths, SquaredReturns, Sum, Last, CountIn;
    var row := RowOf(config, context, v, s);
    if forall j, r :: 0 <= j < |row.rates| && 0 <= r < |row.rates[j]| ==> row.rates[j][r].Some? {
      forall j | 0 <= j < |config.clockWindows| ensures s.timestamp - context.sessionStart >= config.clockWindows[j] {
        assert row.rates[j] == RatesAt(context, v, s.timestamp, config.clockWindows[j]);
        assert row.rates[j][0].Some?;
      }
    }
    if forall j :: 0 <= j < |row.windows| ==> row.windows[j].Some? {
      forall j | 0 <= j < |config.eventWindows| ensures |v.tops| - 1 >= config.eventWindows[j] {
        assert row.windows[j].Some?;
      }
    }
    LargestIsEmptyOrIn(config.eventWindows);
    LargestIsEmptyOrIn(config.clockWindows);
  }

  lemma LargestIsEmptyOrIn(windows: seq<nat>)
    ensures Largest(windows) == 0 || exists j :: 0 <= j < |windows| && windows[j] == Largest(windows)
  {
  }

  /** The windows of a row, from the tops up to the row's own. */
  ghost predicate TopsTold(config: FeatureConfig, row: FeatureRow, tops: seq<Top>) {
    && row.ordinal == |tops| - 1 && CompleteTold(row)
    && |row.windows| == |config.eventWindows|
    && forall j :: 0 <= j < |config.eventWindows| ==> WindowTold(config, row.windows[j], config.eventWindows[j], tops)
  }

  ghost predicate WindowTold(config: FeatureConfig, row: Option<WindowRow>, w: nat, tops: seq<Top>) {
    && (row.Some? <==> w < |tops|)
    && (row.Some? ==>
          && row.value.ofi == Pressure(tops[|tops| - 1 - w..]) as real
          && row.value.depth == QuotedQuantity(tops[|tops| - w..]) as real
          && row.value.squared == ReturnsSquared(config, tops[|tops| - 1 - w..]))
  }

  lemma WindowShowsTops(config: FeatureConfig, v: View, w: nat)
    requires v.tops != []
    ensures WindowTold(config, WindowAt(config, v, w), w, v.tops)
  {
    hide Increments, Depths, SquaredReturns, Sum, Last, Pressure, QuotedQuantity, ReturnsSquared;
    if w < |v.tops| {
      var tops := v.tops[|v.tops| - 1 - w..];
      WindowOfSteps(config, v.tops, w);
      SquaresAreReturns(config, tops);
      IncrementsArePressure(tops);
      DepthsAreQuantities(tops);
      assert tops[1..] == v.tops[|v.tops| - w..];
    }
  }

  lemma RowShowsTops(config: FeatureConfig, context: Context, v: View, s: SnapshotRow)
    requires v.tops != [] && s.timestamp >= context.sessionStart
    ensures TopsTold(config, RowOf(config, context, v, s), v.tops)
  {
    RowIsComplete(config, context, v, s);
    hide WindowAt, WindowTold, RatesAt, CompleteTold, Largest;
    var row := RowOf(config, context, v, s);
    forall j | 0 <= j < |config.eventWindows| ensures WindowTold(config, row.windows[j], config.eventWindows[j], v.tops) {
      WindowShowsTops(config, v, config.eventWindows[j]);
    }
  }

  // ---------------------------------------------------------------- the merge

  lemma ConsumingKeepsTops(config: FeatureConfig, context: Context, events: seq<EventRow>, v: View, next: nat,
                           limit: int, current: Option<EventRow>)
    requires next <= |events|
    ensures var c := ConsumeUpTo(config, context, events, v, next, limit, current); c.Consumed? ==> c.view.tops == v.tops
    decreases |events| - next
  {
    if next < |events| && events[next].index <= limit {
      var e := events[next];
      if EventError(context, LastConsumed(v), e).None? {
        ConsumingKeepsTops(config, context, events, AfterEvent(config, v, e), next + 1, limit,
                           if e.index == limit then Some(e) else current);
      }
    }
  }

  /** Row k shows the tops of the first k + 1 qualifying snapshots. */
  ghost predicate RowsTold(config: FeatureConfig, p: Progress, tops: seq<Top>) {
    && p.view.tops == tops && |p.rows| == |tops|
    && forall k :: 0 <= k < |tops| ==> TopsTold(config, p.rows[k], tops[..k + 1])
  }

  lemma RowsToldAppend(config: FeatureConfig, p: Progress, tops: seq<Top>, row: FeatureRow, top: Top, after: Progress)
    requires RowsTold(config, p, tops) && TopsTold(config, row, tops + [top])
    requires after.rows == p.rows + [row] && after.view.tops == tops + [top]
    ensures RowsTold(config, after, tops + [top])
  {
    hide TopsTold;
    forall k | 0 <= k < |tops| + 1 ensures TopsTold(config, after.rows[k], (tops + [top])[..k + 1]) {
      if k < |tops| {
        assert (tops + [top])[..k + 1] == tops[..k + 1];
      } else {
        assert (tops + [top])[..k + 1] == tops + [top];
      }
    }
  }

  lemma TopsNext(snapshots: seq<SnapshotRow>)
    requires snapshots != []
    ensures var before, s := QualifyingTops(snapshots[..|snapshots| - 1]), snapshots[|snapshots| - 1];
            QualifyingTops(snapshots) == if Qualifies(s) then before + [TopOfRow(s)] else before
  {
  }

  lemma StepTold(config: FeatureConfig, context: Context, events: seq<EventRow>, p: Progress, snapshots: seq<SnapshotRow>)
    requires snapshots != [] && p.next <= |events|
    requires RowsTold(config, p, QualifyingTops(snapshots[..|snapshots| - 1]))
    requires MergeStep(config, context, events, p, snapshots[|snapshots| - 1]).Going?
    ensures RowsTold(config, MergeStep(config, context, events, p, snapshots[|snapshots| - 1]).progress,
                     QualifyingTops(snapshots))
  {
    hide SnapshotError, RowRefusal, ConsumeUpTo, RowOf, RowsTold, QualifyingTops, Qualifies, TopOfRow, BucketClosed;
    TopsNext(snapshots);
    var s := snapshots[|snapshots| - 1];
    AcceptedTime(context, p.view.lastSnapshot, s);
    var v := p.view.(lastSnapshot := Some((s.index, s.timestamp)));
    ConsumingKeepsTops(config, context, events, v, p.next, s.index, None);
    var before := QualifyingTops(snapshots[..|snapshots| - 1]);
    ToldTops(config, p, before);
    var seen := ConsumeUpTo(config, context, events, v, p.next, s.index, None).view;
    if Qualifies(s) {
      var after := AfterRow(config, seen, s);
      RowShowsTops(config, context, after, s);
      RowsToldAppend(config, p, before, RowOf(config, context, after, s), TopOfRow(s),
                     MergeStep(config, context, events, p, s).progress);
    } else {
      SameRowsTold(config, p, before, MergeStep(config, context, events, p, s).progress);
    }
  }

  lemma AcceptedTime(context: Context, last: Option<(int, int)>, s: SnapshotRow)
    requires SnapshotError(context, last, s).None?
    ensures s.timestamp >= context.sessionStart
  {
  }

  lemma ToldTops(config: FeatureConfig, p: Progress, tops: seq<Top>)
    requires RowsTold(config, p, tops)
    ensures p.view.tops == tops
  {
  }

  lemma SameRowsTold(config: FeatureConfig, p: Progress, tops: seq<Top>, after: Progress)
    requires RowsTold(config, p, tops) && after.rows == p.rows && after.view.tops == p.view.tops
    ensures RowsTold(config, after, tops)
  {
    hide TopsTold;
  }

  lemma {:induction false} MergedTold(config: FeatureConfig, context: Context, events: seq<EventRow>,
                                      snapshots: seq<SnapshotRow>)
    requires Merged(config, context, events, snapshots).Going?
    ensures RowsTold(config, Merged(config, context, events, snapshots).progress, QualifyingTops(snapshots))
  {
    hide MergeStep, RowsTold;
    if snapshots == [] {
      NothingTold(config);
    } else {
      var earlier := snapshots[..|snapshots| - 1];
      MergedTold(config, context, events, earlier);
      StepTold(config, context, events, Merged(config, context, events, earlier).progress, snapshots);
    }
  }

  lemma NothingTold(config: FeatureConfig)
    ensures RowsTold(config, Progress(NOTHING_SEEN, 0, []), [])
  {
  }

  /** Row k of a pass that succeeds is complete exactly when none of its values is null; a window of w transitions is there once w transitions were seen, its
      imbalance is the net buying interest gained over the last w + 1 tops, its depth is what the last w
      tops quote on both sides, and its squared returns are those between consecutive ones. */
  lemma RowsShowPressure(config: FeatureConfig, context: Context, events: seq<EventRow>, snapshots: seq<SnapshotRow>,
                         k: nat, j: nat)
    requires Merged(config, context, events, snapshots).Going?
    requires k < |Merged(config, context, events, snapshots).progress.rows| && j < |config.eventWindows|
    ensures var rows, tops, w := Merged(config, context, events, snapshots).progress.rows, QualifyingTops(snapshots),
                                 config.eventWindows[j];
            && |rows| == |tops| && |rows[k].windows| == |config.eventWindows|
            && rows[k].ordinal == k && CompleteTold(rows[k])
            && (rows[k].windows[j].Some? <==> w <= k)
            && (w <= k ==>
                  && rows[k].windows[j].value.ofi == Pressure(tops[k - w..k + 1]) as real
                  && rows[k].windows[j].value.depth == QuotedQuantity(tops[k + 1 - w..k + 1]) as real
                  && rows[k].windows[j].value.squared == ReturnsSquared(config, tops[k - w..k + 1]))
  {
    hide Merged, Pressure, QuotedQuantity, ReturnsSquared, QualifyingTops, CompleteTold;
    MergedTold(config, context, events, snapshots);
    var tops, w := QualifyingTops(snapshots), config.eventWindows[j];
    assert TopsTold(config, Merged(config, context, events, snapshots).progress.rows[k], tops[..k + 1]);
    if w <= k {
      assert tops[..k + 1][k - w..] == tops[k - w..k + 1];
      assert tops[..k + 1][k + 1 - w..] == tops[k + 1 - w..k + 1];
    }
  }

  // ---------------------------------------------------------------- what the imbalance is

  /** The quoted prices stay the same. */
  predicate Steady(tops: seq<Top>) {
    forall i :: 0 <= i < |tops| - 1 ==> tops[i + 1].bid == tops[i].bid && tops[i + 1].ask == tops[i].ask
  }

  lemma {:induction false} SteadyPressure(tops: seq<Top>)
    requires tops != [] && Steady(tops)
    ensures var first, last := tops[0], tops[|tops| - 1];
            Pressure(tops) == (last.bidQuantity - first.bidQuantity) - (last.askQuantity - first.askQuantity)
  {
    if |tops| > 1 {
      var n := |tops| - 1;
      forall i | 0 <= i < n - 1 ensures tops[..n][i + 1].bid == tops[..n][i].bid && tops[..n][i + 1].ask == tops[..n][i].ask {
        assert tops[i + 1].bid == tops[i].bid;
      }
      SteadyPressure(tops[..n]);
      assert tops[n - 1 + 1].bid == tops[n - 1].bid;
    }
  }

  /** In a window of constant prices the imbalance telescopes: the bid quantity gained minus the ask
      quantity gained between its first and its last top. */
  lemma SteadyWindow(config: FeatureConfig, context: Context, events: seq<EventRow>, snapshots: seq<SnapshotRow>,
                     k: nat, j: nat)
    requires Merged(config, context, events, snapshots).Going?
    requires k < |Merged(config, context, events, snapshots).progress.rows| && j < |config.eventWindows|
    requires config.eventWindows[j] <= k < |QualifyingTops(snapshots)|
    requires Steady(QualifyingTops(snapshots)[k - config.eventWindows[j]..k + 1])
    ensures var rows, tops, w := Merged(config, context, events, snapshots).progress.rows, QualifyingTops(snapshots),
                                 config.eventWindows[j];
            && j < |rows[k].windows| && rows[k].windows[j].Some?
            && var first, last := tops[k - w], tops[k];
               rows[k].windows[j].value.ofi ==
               ((last.bidQuantity - first.bidQuantity) - (last.askQuantity - first.askQuantity)) as real
  {
    hide Merged, Pressure, QualifyingTops, Steady;
    RowsShowPressure(config, context, events, snapshots, k, j);
    SteadyPressure(QualifyingTops(snapshots)[k - config.eventWindows[j]..k + 1]);
  }

  /** One move at the end of a steady window: a bid rise adds the new bid quantity and a bid fall takes
      the old one away; an ask fall takes the new ask quantity away and an ask rise gives the old one
      back. */
  lemma MovedWindow(config: FeatureConfig, context: Context, events: seq<EventRow>, snapshots: seq<SnapshotRow>,
                    k: nat, j: nat)
    requires Merged(config, context, events, snapshots).Going?
    requires k < |Merged(config, context, events, snapshots).progress.rows| && j < |config.eventWindows|
    requires 0 < config.eventWindows[j] <= k < |QualifyingTops(snapshots)|
    requires Steady(QualifyingTops(snapshots)[k - config.eventWindows[j]..k])
    ensures var rows, tops, w := Merged(config, context, events, snapshots).progress.rows, QualifyingTops(snapshots),
                                 config.eventWindows[j];
            && j < |rows[k].windows| && rows[k].windows[j].Some?
            && var first, before, after := tops[k - w], tops[k - 1], tops[k];
               var steady := (before.bidQuantity - first.bidQuantity) - (before.askQuantity - first.askQuantity);
               var bids := if after.bid > before.bid then after.bidQuantity
                           else if after.bid < before.bid then -before.bidQuantity
                           else after.bidQuantity - before.bidQuantity;
               var asks := if after.ask < before.ask then -after.askQuantity
                           else if after.ask > before.ask then before.askQuantity
                           else before.askQuantity - after.askQuantity;
               rows[k].windows[j].value.ofi == (steady + bids + asks) as real
  {
    hide Merged, QualifyingTops, Steady;
    RowsShowPressure(config, context, events, snapshots, k, j);
    var tops, w := QualifyingTops(snapshots), config.eventWindows[j];
    var window := tops[k - w..k + 1];
    assert window[..w] == tops[k - w..k] && window[w] == tops[k] && window[w - 1] == tops[k - 1];
    SteadyPressure(tops[k - w..k]);
  }
}
