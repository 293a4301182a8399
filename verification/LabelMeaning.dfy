/** What labels, label streams and joined rows say in plain inequalities
    (python/src/itchlab_research/datasets/labels.py, python/src/itchlab_research/datasets/splits.py). */
module LabelMeaning {
  import opened Types
  import opened Labels
  import opened FeatureModel
  import opened RowMeaning
  import opened Join

  // ---------------------------------------------------------------- labels

  /** Twice the mid-price of a top. */
  function Mid2(top: Top): int {
    top.bid + top.ask
  }

  lemma {:induction false} ObservationsAreTops(rows: seq<SnapshotRow>)
    ensures |Observations(rows)| == |QualifyingTops(rows)|
    ensures forall i :: 0 <= i < |Observations(rows)| ==> Observations(rows)[i].mid2 == Mid2(QualifyingTops(rows)[i])
  {
    if rows != [] {
      ObservationsAreTops(rows[..|rows| - 1]);
    }
  }

  /** A label compares two mids: up when the later one is higher by more than the threshold, down when it
      is lower by more, flat when it is within, and null exactly when the horizon is past the end. */
  lemma LabelsCompareMids(rows: seq<SnapshotRow>, threshold: nat, horizons: seq<nat>, i: nat, k: nat)
    requires i < |Observations(rows)| && k < |horizons|
    ensures var tops, seen, h := QualifyingTops(rows), Observations(rows), horizons[k];
            var labels := Rows(seen, threshold, horizons, |seen|)[i].labels;
            && |tops| == |seen| && |labels| == |horizons|
            && (labels[k].None? <==> i + h >= |tops|)
            && (labels[k] == Some(1) <==> i + h < |tops| && Mid2(tops[i + h]) > Mid2(tops[i]) + threshold)
            && (labels[k] == Some(-1) <==> i + h < |tops| && Mid2(tops[i + h]) < Mid2(tops[i]) - threshold)
            && (labels[k] == Some(0) <==>
                  i + h < |tops| && Mid2(tops[i]) - threshold <= Mid2(tops[i + h]) <= Mid2(tops[i]) + threshold)
  {
    hide Mid2, QualifyingTops, Observations;
    ObservationsAreTops(rows);
  }

  // ---------------------------------------------------------------- which streams are labelled

  /** A row that may qualify has a positive uncrossed top with quantities. */
  predicate RowSound(context: Context, row: SnapshotRow) {
    && row.partition == context.partition && context.sessionStart <= row.timestamp < context.sessionEnd
    && (row.topChanged && row.trading && row.bid.Some? && row.bidQuantity.Some? && row.ask.Some? && row.askQuantity.Some? ==>
          && 0 < row.bid.value < row.ask.value && row.bidQuantity.value > 0 && row.askQuantity.value > 0)
  }

  ghost predicate StreamSound(context: Context, rows: seq<SnapshotRow>) {
    && (forall k :: 0 <= k < |rows| ==> RowSound(context, rows[k]))
    && (forall i, j :: 0 <= i < j < |rows| ==> rows[i].index < rows[j].index && rows[i].timestamp <= rows[j].timestamp)
  }

  lemma RowErrorMeans(context: Context, previous: Option<SnapshotRow>, row: SnapshotRow)
    ensures RowError(context, previous, row).None? <==>
            RowSound(context, row) &&
            (previous.Some? ==> previous.value.index < row.index && previous.value.timestamp <= row.timestamp)
  {
  }

  /** A label pass accepts exactly the streams whose rows are sound, with strictly increasing indices and
      never decreasing times. */
  lemma {:induction false} StreamAccepted(context: Context, rows: seq<SnapshotRow>)
    ensures FirstError(context, rows).None? <==> StreamSound(context, rows)
  {
    hide RowError, RowSound;
    if rows != [] {
      var earlier, row := rows[..|rows| - 1], rows[|rows| - 1];
      StreamAccepted(context, earlier);
      RowErrorMeans(context, LastOf(earlier), row);
      StreamGrows(context, rows);
    }
  }

  lemma StreamGrows(context: Context, rows: seq<SnapshotRow>)
    requires rows != []
    ensures var earlier, row := rows[..|rows| - 1], rows[|rows| - 1];
            StreamSound(context, rows) <==>
            && StreamSound(context, earlier) && RowSound(context, row)
            && (earlier != [] ==> earlier[|earlier| - 1].index < row.index && earlier[|earlier| - 1].timestamp <= row.timestamp)
  {
    hide RowSound;
    var earlier := rows[..|rows| - 1];
    assert forall i :: 0 <= i < |earlier| ==> earlier[i] == rows[i];
  }

  // ---------------------------------------------------------------- the join

  /** The two rows are about the same snapshot. */
  predicate SameSnapshot(f: FeatureRow, l: LabelRow) {
    && f.partition.tradingDate == l.partition.tradingDate && f.partition.symbol == l.partition.symbol
    && f.partition.symbolId == l.partition.symbolId && f.index == l.index && f.timestamp == l.timestamp
    && f.ordinal == l.ordinal
  }

  /** The pair would be kept: complete history, a primary label, and an ordinal on the stride. */
  predicate Kept(f: FeatureRow, l: LabelRow, primary: nat, stride: nat)
    requires primary < |l.labels| && stride > 0
  {
    f.historyComplete && l.labels[primary].Some? && f.ordinal % stride == 0
  }

  predicate PairSound(f: FeatureRow, l: LabelRow, day: int, primary: nat, stride: nat)
    requires primary < |l.labels| && stride > 0
  {
    && SameSnapshot(f, l) && f.partition.tradingDate == day
    && (Kept(f, l, primary, stride) ==> -1 <= l.labels[primary].value <= 1)
  }

  lemma PairErrorMeans(f: FeatureRow, l: LabelRow, day: int, primary: nat, stride: nat)
    requires primary < |l.labels| && stride > 0
    ensures PairError(f, l, day, primary, stride).None? <==> PairSound(f, l, day, primary, stride)
    ensures f.partition.tradingDate == day && !SameSnapshot(f, l) ==>
              PairError(f, l, day, primary, stride) == Some(LeakageGuardError)
    ensures f.partition.tradingDate != day && SameSnapshot(f, l) ==>
              PairError(f, l, day, primary, stride) == Some(PartitionError)
  {
  }

  lemma {:induction false} PairsAccepted(features: seq<FeatureRow>, labels: seq<LabelRow>, day: int, primary: nat,
                                         count: nat, stride: nat, n: nat)
    requires n <= |features| && n <= |labels| && Labelled(labels, count) && primary < count && stride > 0
    ensures FirstPairError(features, labels, day, primary, count, stride, n).None? <==>
            forall k :: 0 <= k < n ==> PairSound(features[k], labels[k], day, primary, stride)
  {
    hide PairError, PairSound;
    if n > 0 {
      PairsAccepted(features, labels, day, primary, count, stride, n - 1);
      PairErrorMeans(features[n - 1], labels[n - 1], day, primary, stride);
    }
  }

  /** The join accepts exactly equally long streams whose rows pair up snapshot by snapshot, all of the
      expected day, with one of the three labels wherever a row is kept. */
  lemma JoinAccepts(features: seq<FeatureRow>, labels: seq<LabelRow>, day: int, primary: nat, count: nat, stride: nat)
    requires Labelled(labels, count) && primary < count && stride > 0
    ensures JoinFailure(features, labels, day, primary, count, stride).None? <==>
            |features| == |labels| &&
            forall k :: 0 <= k < |features| ==> PairSound(features[k], labels[k], day, primary, stride)
  {
    hide PairSound, FirstPairError;
    var common := if |features| <= |labels| then |features| else |labels|;
    PairsAccepted(features, labels, day, primary, count, stride, common);
  }

  /** The first two rows of the expected day that are not about the same snapshot trip the leakage guard. */
  lemma MismatchIsRefused(features: seq<FeatureRow>, labels: seq<LabelRow>, day: int, primary: nat, count: nat,
                          stride: nat, k: nat)
    requires Labelled(labels, count) && primary < count && stride > 0 && k < |features| && k < |labels|
    requires forall i :: 0 <= i < k ==> PairSound(features[i], labels[i], day, primary, stride)
    requires features[k].partition.tradingDate == day && !SameSnapshot(features[k], labels[k])
    ensures JoinFailure(features, labels, day, primary, count, stride) == Some(LeakageGuardError)
  {
    hide PairSound, PairError, SameSnapshot;
    var common := if |features| <= |labels| then |features| else |labels|;
    PairsAccepted(features, labels, day, primary, count, stride, k);
    PairErrorMeans(features[k], labels[k], day, primary, stride);
    FirstErrorStays(features, labels, day, primary, count, stride, k + 1, common);
  }

  // ---------------------------------------------------------------- the rows kept

  /** The first n pairs that are kept, by their places. */
  ghost function KeptPlaces(features: seq<FeatureRow>, labels: seq<LabelRow>, primary: nat, count: nat, stride: nat,
                            n: nat): set<nat>
    requires n <= |features| && n <= |labels| && Labelled(labels, count) && primary < count && stride > 0
  {
    set k: nat | 0 <= k < n && Kept(features[k], labels[k], primary, stride)
  }

  lemma KeptNext(features: seq<FeatureRow>, labels: seq<LabelRow>, primary: nat, count: nat, stride: nat, n: nat)
    requires n < |features| && n < |labels| && Labelled(labels, count) && primary < count && stride > 0
    ensures |KeptPlaces(features, labels, primary, count, stride, n + 1)| ==
            |KeptPlaces(features, labels, primary, count, stride, n)| +
            if Kept(features[n], labels[n], primary, stride) then 1 else 0
  {
    hide Kept;
    var earlier := KeptPlaces(features, labels, primary, count, stride, n);
    var places := KeptPlaces(features, labels, primary, count, stride, n + 1);
    if Kept(features[n], labels[n], primary, stride) {
      assert places == earlier + {n};
    } else {
      assert places == earlier;
    }
  }

  lemma RetainedIsKept(f: FeatureRow, l: LabelRow, primary: nat, stride: nat)
    requires primary < |l.labels| && stride > 0
    ensures FateOf(f, l, primary, stride) == Retained <==> Kept(f, l, primary, stride)
  {
  }

  lemma JoinedNext(features: seq<FeatureRow>, labels: seq<LabelRow>, split: Split, primary: nat, count: nat, stride: nat,
                   n: nat)
    requires n < |features| && n < |labels| && Labelled(labels, count) && primary < count && stride > 0
    ensures |Joined(features, labels, split, primary, count, stride, n + 1)| ==
            |Joined(features, labels, split, primary, count, stride, n)| +
            if FateOf(features[n], labels[n], primary, stride) == Retained then 1 else 0
  {
    hide FateOf;
  }

  lemma {:induction false} JoinedSize(features: seq<FeatureRow>, labels: seq<LabelRow>, split: Split, primary: nat,
                                      count: nat, stride: nat, n: nat)
    requires n <= |features| && n <= |labels| && Labelled(labels, count) && primary < count && stride > 0
    ensures |Joined(features, labels, split, primary, count, stride, n)| ==
            |KeptPlaces(features, labels, primary, count, stride, n)|
  {
    hide KeptPlaces, FateOf, Kept, Joined;
    if n == 0 {
      NoneKept(features, labels, primary, count, stride);
      NoneJoined(features, labels, split, primary, count, stride);
    } else {
      JoinedSize(features, labels, split, primary, count, stride, n - 1);
      KeptNext(features, labels, primary, count, stride, n - 1);
      RetainedIsKept(features[n - 1], labels[n - 1], primary, stride);
      JoinedNext(features, labels, split, primary, count, stride, n - 1);
    }
  }

  lemma NoneJoined(features: seq<FeatureRow>, labels: seq<LabelRow>, split: Split, primary: nat, count: nat, stride: nat)
    requires Labelled(labels, count) && primary < count && stride > 0
    ensures Joined(features, labels, split, primary, count, stride, 0) == []
  {
  }

  lemma NoneKept(features: seq<FeatureRow>, labels: seq<LabelRow>, primary: nat, count: nat, stride: nat)
    requires Labelled(labels, count) && primary < count && stride > 0
    ensures KeptPlaces(features, labels, primary, count, stride, 0) == {}
  {
  }

  /** The dataset rows are the kept pairs and no others, in order: pair k, if kept, stands after exactly the
      kept pairs before it, with its own feature row and labels. */
  lemma {:induction false} RowsAreKeptPairs(features: seq<FeatureRow>, labels: seq<LabelRow>, split: Split, primary: nat,
                                            count: nat, stride: nat, n: nat, k: nat)
    requires k < n <= |features| && n <= |labels| && Labelled(labels, count) && primary < count && stride > 0
    requires Kept(features[k], labels[k], primary, stride)
    ensures var rows := Joined(features, labels, split, primary, count, stride, n);
            var place := |KeptPlaces(features, labels, primary, count, stride, k)|;
            && |rows| == |KeptPlaces(features, labels, primary, count, stride, n)|
            && place < |rows| && rows[place] == DatasetRow(split, features[k], labels[k].labels)
  {
    hide KeptPlaces, FateOf, Kept;
    JoinedSize(features, labels, split, primary, count, stride, n);
    RetainedIsKept(features[n - 1], labels[n - 1], primary, stride);
    if k < n - 1 {
      RowsAreKeptPairs(features, labels, split, primary, count, stride, n - 1, k);
    } else {
      JoinedSize(features, labels, split, primary, count, stride, n - 1);
    }
  }

  /** The first n pairs whose history is incomplete, and those that have it but no primary label. */
  ghost function IncompletePlaces(features: seq<FeatureRow>, n: nat): set<nat>
    requires n <= |features|
  {
    set k: nat | 0 <= k < n && !features[k].historyComplete
  }

  predicate Unlabelled(f: FeatureRow, l: LabelRow, primary: nat)
    requires primary < |l.labels|
  {
    f.historyComplete && l.labels[primary].None?
  }

  ghost function UnlabelledPlaces(features: seq<FeatureRow>, labels: seq<LabelRow>, primary: nat, count: nat, n: nat): set<nat>
    requires n <= |features| && n <= |labels| && Labelled(labels, count) && primary < count
  {
    set k: nat | 0 <= k < n && Unlabelled(features[k], labels[k], primary)
  }

  lemma IncompleteNext(features: seq<FeatureRow>, n: nat)
    requires n < |features|
    ensures |IncompletePlaces(features, n + 1)| ==
            |IncompletePlaces(features, n)| + if features[n].historyComplete then 0 else 1
  {
    var earlier := IncompletePlaces(features, n);
    assert IncompletePlaces(features, n + 1) == if features[n].historyComplete then earlier else earlier + {n};
  }

  lemma UnlabelledNext(features: seq<FeatureRow>, labels: seq<LabelRow>, primary: nat, count: nat, n: nat)
    requires n < |features| && n < |labels| && Labelled(labels, count) && primary < count
    ensures |UnlabelledPlaces(features, labels, primary, count, n + 1)| ==
            |UnlabelledPlaces(features, labels, primary, count, n)| +
            if Unlabelled(features[n], labels[n], primary) then 1 else 0
  {
    hide Unlabelled;
    var earlier, places := UnlabelledPlaces(features, labels, primary, count, n),
                           UnlabelledPlaces(features, labels, primary, count, n + 1);
    if Unlabelled(features[n], labels[n], primary) {
      assert places == earlier + {n};
    } else {
      assert places == earlier;
    }
  }

  /** Every pair that is not kept is counted for its first reason: incomplete history, then no primary
      label, then the stride. */
  lemma {:induction false} FatesCounted(features: seq<FeatureRow>, labels: seq<LabelRow>, primary: nat, count: nat,
                                        stride: nat, n: nat)
    requires n <= |features| && n <= |labels| && Labelled(labels, count) && primary < count && stride > 0
    ensures CountFate(features, labels, IncompleteHistory, primary, count, stride, n) == |IncompletePlaces(features, n)|
    ensures CountFate(features, labels, NoLabel, primary, count, stride, n) ==
            |UnlabelledPlaces(features, labels, primary, count, n)|
    ensures CountFate(features, labels, Retained, primary, count, stride, n) ==
            |KeptPlaces(features, labels, primary, count, stride, n)|
    ensures CountFate(features, labels, ByStride, primary, count, stride, n) ==
            n - |IncompletePlaces(features, n)| - |UnlabelledPlaces(features, labels, primary, count, n)| -
            |KeptPlaces(features, labels, primary, count, stride, n)|
  {
    if n > 0 {
      FatesCounted(features, labels, primary, count, stride, n - 1);
      RetainedIsKept(features[n - 1], labels[n - 1], primary, stride);
      hide Kept, KeptPlaces, IncompletePlaces, UnlabelledPlaces;
      IncompleteNext(features, n - 1);
      UnlabelledNext(features, labels, primary, count, n - 1);
      KeptNext(features, labels, primary, count, stride, n - 1);
    } else {
      NoneKept(features, labels, primary, count, stride);
      assert IncompletePlaces(features, 0) == {} && UnlabelledPlaces(features, labels, primary, count, 0) == {};
    }
  }
}
