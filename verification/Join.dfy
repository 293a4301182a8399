/** Whole-day splits and the guarded join of features with labels
    (python/src/itchlab_research/datasets/splits.py). */
module Join {
  import opened Types
  import opened Labels
  import opened FeatureModel

  datatype Split = Train | Validation | Test

  /** Configured trading days, as day numbers. */
  datatype SplitConfig = SplitConfig(train: seq<int>, validation: seq<int>, test: seq<int>)

  function Rank(split: Split): nat {
    match split
    case Train => 0
    case Validation => 1
    case Test => 2
  }

  /** Non-empty ascending days, all training days before all validation days before all test days. */
  ghost predicate SplitsOk(config: SplitConfig) {
    && config.train != [] && config.validation != [] && config.test != []
    && Ascending(config.train) && Ascending(config.validation) && Ascending(config.test)
    && (forall a, b :: a in config.train && b in config.validation ==> a < b)
    && (forall a, b :: a in config.validation && b in config.test ==> a < b)
  }

  /** dates == sorted(dates) with no repetition. */
  method SortedUnique(dates: seq<int>) returns (ok: bool)
    ensures ok <==> Ascending(dates)
  {
    ok := true;
    for i := 0 to |dates|
      invariant ok ==> forall j, k :: 0 <= j < k < i ==> dates[j] < dates[k]
      invariant !ok ==> !Ascending(dates)
    {
      if i > 0 && dates[i - 1] >= dates[i] {
        ok := false;
      }
    }
  }

  method Extremes(dates: seq<int>) returns (least: int, greatest: int)
    requires dates != []
    ensures least in dates && greatest in dates
    ensures forall d :: d in dates ==> least <= d <= greatest
  {
    least, greatest := dates[0], dates[0];
    for i := 1 to |dates|
      invariant least in dates && greatest in dates
      invariant forall j :: 0 <= j < i ==> least <= dates[j] <= greatest
    {
      if dates[i] < least {
        least := dates[i];
      }
      if dates[i] > greatest {
        greatest := dates[i];
      }
    }
  }

  /** Each configured day belongs to exactly one split, in chronological order of the splits. */
  method PartitionMapping(config: SplitConfig) returns (error: Option<DatasetError>, mapping: map<int, Split>)
    ensures error == if SplitsOk(config) then None else Some(PartitionError)
    ensures error.None? ==>
              && (forall d :: d in mapping <==> d in config.train || d in config.validation || d in config.test)
              && (forall d :: d in mapping && mapping[d] == Train ==> d in config.train)
              && (forall d :: d in mapping && mapping[d] == Validation ==> d in config.validation)
              && (forall d :: d in mapping && mapping[d] == Test ==> d in config.test)
              && (forall d, e :: d in mapping && e in mapping && Rank(mapping[d]) < Rank(mapping[e]) ==> d < e)
  {
    hide Ascending;
    if config.train == [] || config.validation == [] || config.test == [] {
      return Some(PartitionError), map[];
    }
    var a := SortedUnique(config.train);
    var b := SortedUnique(config.validation);
    var c := SortedUnique(config.test);
    if !a || !b || !c {
      return Some(PartitionError), map[];
    }
    var firstTrain, lastTrain := Extremes(config.train);
    var firstValidation, lastValidation := Extremes(config.validation);
    var firstTest, lastTest := Extremes(config.test);
    // Days repeated across splits contradict the order as well, with the same error.
    if !(lastTrain < firstValidation && lastValidation < firstTest) {
      return Some(PartitionError), map[];
    }
    mapping := (map d | d in config.train :: Train) + (map d | d in config.validation :: Validation) +
               (map d | d in config.test :: Test);
    error := None;
  }

  // ---------------------------------------------------------------- the join

  datatype DatasetRow = DatasetRow(split: Split, feature: FeatureRow, labels: seq<Option<int>>)

  datatype JoinCounts = JoinCounts(qualifying: nat, incompleteHistory: nat, noLabel: nat, byStride: nat, retained: nat,
                                   down: nat, flat: nat, up: nat)

  /** What becomes of a pair of rows. */
  datatype Fate = IncompleteHistory | NoLabel | ByStride | Retained

  function FateOf(f: FeatureRow, l: LabelRow, primary: nat, stride: nat): Fate
    requires primary < |l.labels| && stride > 0
  {
    if !f.historyComplete then IncompleteHistory
    else if l.labels[primary].None? then NoLabel
    else if f.ordinal % stride != 0 then ByStride
    else Retained
  }

  function PairError(f: FeatureRow, l: LabelRow, day: int, primary: nat, stride: nat): Option<DatasetError>
    requires primary < |l.labels| && stride > 0
  {
    if f.partition.tradingDate != l.partition.tradingDate || f.partition.symbol != l.partition.symbol ||
       f.index != l.index then Some(LeakageGuardError)
    else if f.partition.tradingDate != day then Some(PartitionError)
    else if f.partition.symbolId != l.partition.symbolId || f.timestamp != l.timestamp || f.ordinal != l.ordinal then
      Some(LeakageGuardError)
    else if FateOf(f, l, primary, stride) == Retained && l.labels[primary].value !in [-1, 0, 1] then Some(InvariantError)
    else None
  }

  ghost predicate Labelled(labels: seq<LabelRow>, count: nat) {
    forall k :: 0 <= k < |labels| ==> |labels[k].labels| == count
  }

  /** The first error among the first n pairs. */
  ghost function FirstPairError(features: seq<FeatureRow>, labels: seq<LabelRow>, day: int, primary: nat, count: nat,
                                stride: nat, n: nat): Option<DatasetError>
    requires n <= |features| && n <= |labels| && Labelled(labels, count) && primary < count && stride > 0
  {
    if n == 0 then None
    else
      var earlier := FirstPairError(features, labels, day, primary, count, stride, n - 1);
      if earlier.Some? then earlier else PairError(features[n - 1], labels[n - 1], day, primary, stride)
  }

  ghost function JoinFailure(features: seq<FeatureRow>, labels: seq<LabelRow>, day: int, primary: nat, count: nat,
                             stride: nat): Option<DatasetError>
    requires Labelled(labels, count) && primary < count && stride > 0
  {
    var common := if |features| <= |labels| then |features| else |labels|;
    var first := FirstPairError(features, labels, day, primary, count, stride, common);
    if first.Some? then first
    else if |features| != |labels| then Some(LeakageGuardError)
    else None
  }

  /** The dataset rows of the first n pairs. */
  ghost function Joined(features: seq<FeatureRow>, labels: seq<LabelRow>, split: Split, primary: nat, count: nat,
                        stride: nat, n: nat): seq<DatasetRow>
    requires n <= |features| && n <= |labels| && Labelled(labels, count) && primary < count && stride > 0
  {
    if n == 0 then []
    else
      Joined(features, labels, split, primary, count, stride, n - 1) +
      (if FateOf(features[n - 1], labels[n - 1], primary, stride) == Retained
       then [DatasetRow(split, features[n - 1], labels[n - 1].labels)] else [])
  }

  ghost function CountFate(features: seq<FeatureRow>, labels: seq<LabelRow>, fate: Fate, primary: nat, count: nat,
                           stride: nat, n: nat): nat
    requires n <= |features| && n <= |labels| && Labelled(labels, count) && primary < count && stride > 0
  {
    if n == 0 then 0
    else
      CountFate(features, labels, fate, primary, count, stride, n - 1) +
      (if FateOf(features[n - 1], labels[n - 1], primary, stride) == fate then 1 else 0)
  }

  ghost function CountClass(rows: seq<DatasetRow>, primary: nat, value: int): nat {
    if rows == [] then 0
    else
      var row := rows[|rows| - 1];
      CountClass(rows[..|rows| - 1], primary, value) +
      (if primary < |row.labels| && row.labels[primary] == Some(value) then 1 else 0)
  }

  ghost predicate CountsAre(counts: JoinCounts, features: seq<FeatureRow>, labels: seq<LabelRow>, rows: seq<DatasetRow>,
                            primary: nat, count: nat, stride: nat, n: nat)
    requires n <= |features| && n <= |labels| && Labelled(labels, count) && primary < count && stride > 0
  {
    && counts.qualifying == n
    && counts.incompleteHistory == CountFate(features, labels, IncompleteHistory, primary, count, stride, n)
    && counts.noLabel == CountFate(features, labels, NoLabel, primary, count, stride, n)
    && counts.byStride == CountFate(features, labels, ByStride, primary, count, stride, n)
    && counts.retained == CountFate(features, labels, Retained, primary, count, stride, n) == |rows|
    && counts.down == CountClass(rows, primary, -1)
    && counts.flat == CountClass(rows, primary, 0)
    && counts.up == CountClass(rows, primary, 1)
  }

  lemma CountClassAppend(rows: seq<DatasetRow>, row: DatasetRow, primary: nat, value: int)
    ensures CountClass(rows + [row], primary, value) ==
            CountClass(rows, primary, value) + (if primary < |row.labels| && row.labels[primary] == Some(value) then 1 else 0)
  {
    assert (rows + [row])[..|rows|] == rows;
  }

  lemma {:induction false} FirstErrorStays(features: seq<FeatureRow>, labels: seq<LabelRow>, day: int, primary: nat,
                                           count: nat, stride: nat, k: nat, n: nat)
    requires k <= n <= |features| && n <= |labels| && Labelled(labels, count) && primary < count && stride > 0
    requires FirstPairError(features, labels, day, primary, count, stride, k).Some?
    ensures FirstPairError(features, labels, day, primary, count, stride, n) ==
            FirstPairError(features, labels, day, primary, count, stride, k)
    decreases n
  {
    if k < n {
      FirstErrorStays(features, labels, day, primary, count, stride, k, n - 1);
    }
  }

  /** Join two row streams of one day and symbol. */
  method JoinRows(features: seq<FeatureRow>, labels: seq<LabelRow>, day: int, split: Split, primary: nat, count: nat,
                  stride: nat) returns (error: Option<DatasetError>, output: seq<DatasetRow>, counts: JoinCounts)
    requires Labelled(labels, count) && primary < count && stride > 0
    ensures error == JoinFailure(features, labels, day, primary, count, stride)
    ensures error.None? ==>
              && |features| == |labels|
              && output == Joined(features, labels, split, primary, count, stride, |features|)
              && CountsAre(counts, features, labels, output, primary, count, stride, |features|)
  {
    hide PairError, FateOf, Joined, CountsAre;
    NothingJoined(features, labels, split, primary, count, stride);
    output, counts := [], JoinCounts(0, 0, 0, 0, 0, 0, 0, 0);
    var n := 0;
    while n < |features| || n < |labels|
      invariant n <= |features| && n <= |labels|
      invariant FirstPairError(features, labels, day, primary, count, stride, n).None?
      invariant output == Joined(features, labels, split, primary, count, stride, n)
      invariant CountsAre(counts, features, labels, output, primary, count, stride, n)
      invariant counts.qualifying == counts.incompleteHistory + counts.noLabel + counts.byStride + counts.retained
      decreases |features| + |labels| - n
    {
      if n == |features| || n == |labels| {
        return Some(LeakageGuardError), output, counts;
      }
      var f, l := features[n], labels[n];
      error := PairError(f, l, day, primary, stride);
      if error.Some? {
        FirstErrorStays(features, labels, day, primary, count, stride, n + 1,
                        if |features| <= |labels| then |features| else |labels|);
        return;
      }
      output, counts := AddPair(features, labels, n, split, primary, count, stride, day, output, counts);
      n := n + 1;
    }
    // The reconciliation of the counts cannot fail.
    assert counts.qualifying == counts.incompleteHistory + counts.noLabel + counts.byStride + counts.retained;
    error := None;
  }

  lemma NothingJoined(features: seq<FeatureRow>, labels: seq<LabelRow>, split: Split, primary: nat, count: nat, stride: nat)
    requires Labelled(labels, count) && primary < count && stride > 0
    ensures Joined(features, labels, split, primary, count, stride, 0) == []
    ensures CountsAre(JoinCounts(0, 0, 0, 0, 0, 0, 0, 0), features, labels, [], primary, count, stride, 0)
  {
  }

  /** Filter, sample and count one pair. */
  method AddPair(features: seq<FeatureRow>, labels: seq<LabelRow>, n: nat, split: Split, primary: nat, ghost count: nat,
                 stride: nat, ghost day: int, output: seq<DatasetRow>, counts: JoinCounts)
    returns (next: seq<DatasetRow>, counted: JoinCounts)
    requires n < |features| && n < |labels| && Labelled(labels, count) && primary < count && stride > 0
    requires PairError(features[n], labels[n], day, primary, stride).None?
    requires output == Joined(features, labels, split, primary, count, stride, n)
    requires CountsAre(counts, features, labels, output, primary, count, stride, n)
    requires counts.qualifying == counts.incompleteHistory + counts.noLabel + counts.byStride + counts.retained
    ensures next == Joined(features, labels, split, primary, count, stride, n + 1)
    ensures CountsAre(counted, features, labels, next, primary, count, stride, n + 1)
    ensures counted.qualifying == counted.incompleteHistory + counted.noLabel + counted.byStride + counted.retained
  {
    var f, l := features[n], labels[n];
    next, counted := output, counts.(qualifying := counts.qualifying + 1);
    if !f.historyComplete {
      counted := counted.(incompleteHistory := counted.incompleteHistory + 1);
      return;
    }
    if l.labels[primary].None? {
      counted := counted.(noLabel := counted.noLabel + 1);
      return;
    }
    if f.ordinal % stride != 0 {
      counted := counted.(byStride := counted.byStride + 1);
      return;
    }
    var row := DatasetRow(split, f, l.labels);
    CountClassAppend(output, row, primary, -1);
    CountClassAppend(output, row, primary, 0);
    CountClassAppend(output, row, primary, 1);
    next := output + [row];
    counted := counted.(retained := counted.retained + 1);
    var value := l.labels[primary].value;
    if value == -1 {
      counted := counted.(down := counted.down + 1);
    } else if value == 0 {
      counted := counted.(flat := counted.flat + 1);
    } else {
      counted := counted.(up := counted.up + 1);
    }
  }

  // ---------------------------------------------------------------- two passes over the same snapshots

  /** Feature rows and label observations name the same qualifying snapshots. */
  lemma {:induction false} SameKeys(config: FeatureConfig, context: Context, events: seq<EventRow>,
                                    snapshots: seq<SnapshotRow>)
    requires Merged(config, context, events, snapshots).Going? && FirstError(context, snapshots).None?
    ensures var p, seen := Merged(config, context, events, snapshots).progress, Observations(snapshots);
            && |p.rows| == |p.view.tops| == |seen|
            && forall k :: 0 <= k < |seen| ==>
                 && p.rows[k].partition == seen[k].partition == context.partition
                 && p.rows[k].index == seen[k].index && p.rows[k].timestamp == seen[k].timestamp
                 && p.rows[k].ordinal == seen[k].ordinal == k
  {
    hide SnapshotError, RowRefusal, FlowAfter, EventError;
    if snapshots != [] {
      var earlier, s := snapshots[..|snapshots| - 1], snapshots[|snapshots| - 1];
      SameKeys(config, context, events, earlier);
      KeysStep(config, context, events, Merged(config, context, events, earlier).progress, s);
    }
  }

  lemma KeysStep(config: FeatureConfig, context: Context, events: seq<EventRow>, p: Progress, s: SnapshotRow)
    requires p.next <= |events| && MergeStep(config, context, events, p, s).Going? && |p.rows| == |p.view.tops|
    ensures var after := MergeStep(config, context, events, p, s).progress;
            && |after.rows| == |after.view.tops|
            && (!Qualifies(s) ==> after.rows == p.rows)
            && (Qualifies(s) ==>
                  && |after.rows| == |p.rows| + 1 && after.rows[..|p.rows|] == p.rows
                  && var row := after.rows[|p.rows|];
                     && row.partition == context.partition && row.index == s.index && row.timestamp == s.timestamp
                     && row.ordinal == |p.rows|)
  {
    hide SnapshotError, RowRefusal, ConsumeUpTo, WindowAt, RatesAt;
    var v := p.view.(lastSnapshot := Some((s.index, s.timestamp)));
    TopsKept(config, context, events, v, p.next, s.index, None);
  }

  lemma {:induction false} TopsKept(config: FeatureConfig, context: Context, events: seq<EventRow>, v: View, next: nat,
                                    limit: int, current: Option<EventRow>)
    requires next <= |events|
    ensures var c := ConsumeUpTo(config, context, events, v, next, limit, current); c.Consumed? ==> c.view.tops == v.tops
    decreases |events| - next
  {
    hide FlowAfter, EventError;
    if next < |events| && events[next].index <= limit {
      var e := events[next];
      if EventError(context, LastConsumed(v), e).None? {
        TopsKept(config, context, events, AfterEvent(config, v, e), next + 1, limit,
                 if e.index == limit then Some(e) else current);
      }
    }
  }

  /** When the feature pass and the label pass both succeed on the same snapshots, their join never
      trips the leakage guard: it fails for no reason at all, and keeps exactly the rows with complete
      history, a primary label and an ordinal that the stride divides. */
  lemma PassesJoin(config: FeatureConfig, context: Context, events: seq<EventRow>, snapshots: seq<SnapshotRow>,
                   threshold: nat, horizons: seq<nat>, primary: nat, stride: nat)
    requires Merged(config, context, events, snapshots).Going? && FirstError(context, snapshots).None?
    requires primary < |horizons| && stride > 0
    ensures var features := Merged(config, context, events, snapshots).progress.rows;
            var seen := Observations(snapshots);
            var labels := Rows(seen, threshold, horizons, |seen|);
            && Labelled(labels, |horizons|)
            && JoinFailure(features, labels, context.partition.tradingDate, primary, |horizons|, stride) == None
            && |features| == |labels|
            && forall k :: 0 <= k < |features| ==>
                 (FateOf(features[k], labels[k], primary, stride) == Retained <==>
                    features[k].historyComplete && k + horizons[primary] < |seen| && k % stride == 0)
  {
    hide Merged, Observations, FirstError;
    SameKeys(config, context, events, snapshots);
    var features := Merged(config, context, events, snapshots).progress.rows;
    var seen := Observations(snapshots);
    var labels := Rows(seen, threshold, horizons, |seen|);
    NoPairError(features, labels, context.partition.tradingDate, primary, |horizons|, stride, |features|);
  }

  lemma {:induction false} NoPairError(features: seq<FeatureRow>, labels: seq<LabelRow>, day: int, primary: nat,
                                       count: nat, stride: nat, n: nat)
    requires n <= |features| && n <= |labels| && Labelled(labels, count) && primary < count && stride > 0
    requires forall k :: 0 <= k < n ==> PairError(features[k], labels[k], day, primary, stride).None?
    ensures FirstPairError(features, labels, day, primary, count, stride, n).None?
  {
    hide PairError;
    if n > 0 {
      NoPairError(features, labels, day, primary, count, stride, n - 1);
    }
  }
}
