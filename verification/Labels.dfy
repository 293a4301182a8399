/** Future-horizon labels over an ordered snapshot partition
    (python/src/itchlab_research/datasets/labels.py): a bounded buffer that is proved to compute the
    definition of each label. */
module Labels {
  import opened Types
  import opened EventCodec

  datatype DatasetError =
    | InvariantError | SessionWindowError | TimestampError | BookCrossedError | QuantityError | HorizonError
    | PriceError | ConfigSchemaError | LeakageGuardError | PartitionError | RowStrideError

  datatype LabelConfig = LabelConfig(primary: int, secondary: seq<int>, flatThresholdTicks: int)

  datatype Partition = Partition(tradingDate: int, symbol: string, symbolId: int)

  datatype Context = Context(partition: Partition, tickSize: nat, sessionStart: int, sessionEnd: int)

  datatype SnapshotRow = SnapshotRow(
    partition: Partition,
    index: int,
    timestamp: int,
    kind: EventKind,
    topChanged: bool,
    trading: bool,
    bid: Option<int>,
    bidQuantity: Option<int>,
    ask: Option<int>,
    askQuantity: Option<int>)

  /** A qualifying snapshot; `mid2` is twice its mid-price. */
  datatype Observation = Observation(partition: Partition, index: int, timestamp: int, ordinal: nat, mid2: int)

  datatype LabelRow = LabelRow(partition: Partition, index: int, timestamp: int, ordinal: nat, labels: seq<Option<int>>)

  const OUTPUT_BATCH_ROWS: nat := 65_536

  // ---------------------------------------------------------------- horizons

  predicate Ascending(values: seq<int>) {
    forall i, j :: 0 <= i < j < |values| ==> values[i] < values[j]
  }

  predicate HorizonsOk(config: LabelConfig) {
    && config.primary > 0 && config.primary !in config.secondary
    && (forall h :: h in config.secondary ==> h > 0)
    && Ascending(config.secondary)
    && config.flatThresholdTicks >= 0
  }

  function Insert(values: seq<int>, value: int): (result: seq<int>)
    requires Ascending(values) && value !in values
    ensures Ascending(result) && |result| == |values| + 1
    ensures forall v :: v in result <==> v == value || v in values
  {
    if values == [] || value < values[0] then [value] + values
    else
      var rest := Insert(values[1..], value);
      assert forall k :: 0 <= k < |rest| ==> rest[k] > values[0] by {
        forall k | 0 <= k < |rest| ensures rest[k] > values[0] {
          assert rest[k] in rest;
        }
      }
      [values[0]] + rest
  }

  /** The configured horizons in numeric order; an unsorted or repeated list is refused. */
  method LabelHorizons(config: LabelConfig) returns (error: Option<DatasetError>, horizons: seq<nat>)
    ensures error == if HorizonsOk(config) then None else Some(HorizonError)
    ensures HorizonsOk(config) ==>
              && Ascending(horizons) && (forall k :: 0 <= k < |horizons| ==> horizons[k] > 0)
              && (forall h: int :: h in horizons <==> h == config.primary || h in config.secondary)
  {
    hide HorizonsOk;
    var values := [config.primary] + config.secondary;
    HorizonsOkMeans(config, values);
    if exists i :: 0 <= i < |values| && values[i] <= 0 {
      return Some(HorizonError), [];
    }
    if exists i :: 0 <= i < |config.secondary| - 1 && config.secondary[i] > config.secondary[i + 1] {
      return Some(HorizonError), [];
    }
    if exists i, j :: 0 <= i < j < |values| && values[i] == values[j] {
      return Some(HorizonError), [];
    }
    if config.flatThresholdTicks < 0 {
      return Some(HorizonError), [];
    }
    SortedAndDistinct(config.secondary, values);
    var sorted := Insert(config.secondary, config.primary);
    assert forall k :: 0 <= k < |sorted| ==> sorted[k] in sorted;
    error, horizons := None, sorted;
  }

  /** Acceptable horizons, in terms of the tests that the source makes one after the other. */
  lemma HorizonsOkMeans(config: LabelConfig, values: seq<int>)
    requires values == [config.primary] + config.secondary
    ensures HorizonsOk(config) <==>
            && (forall i :: 0 <= i < |values| ==> values[i] > 0)
            && (forall i :: 0 <= i < |config.secondary| - 1 ==> config.secondary[i] <= config.secondary[i + 1])
            && (forall i, j :: 0 <= i < j < |values| ==> values[i] != values[j])
            && config.flatThresholdTicks >= 0
    ensures HorizonsOk(config) ==> forall h :: h == config.primary || h in config.secondary ==> h > 0
  {
    assert values[0] == config.primary && values[1..] == config.secondary;
    forall i | 1 <= i < |values| ensures values[i] == config.secondary[i - 1] && values[i] in config.secondary {
    }
    if HorizonsOk(config) {
      forall i, j | 0 <= i < j < |values| ensures values[i] != values[j] {
        assert i > 0 ==> values[i] == config.secondary[i - 1];
      }
    }
    if (forall i :: 0 <= i < |values| ==> values[i] > 0) &&
       (forall i :: 0 <= i < |config.secondary| - 1 ==> config.secondary[i] <= config.secondary[i + 1]) &&
       (forall i, j :: 0 <= i < j < |values| ==> values[i] != values[j])
    {
      SortedAndDistinct(config.secondary, values);
      forall h | h in config.secondary ensures h > 0 {
        var i :| 0 <= i < |config.secondary| && config.secondary[i] == h;
        assert values[i + 1] == h;
      }
    }
  }

  lemma SortedAndDistinct(secondary: seq<int>, values: seq<int>)
    requires |values| == |secondary| + 1 && values[1..] == secondary
    requires forall i :: 0 <= i < |secondary| - 1 ==> secondary[i] <= secondary[i + 1]
    requires forall i, j :: 0 <= i < j < |values| ==> values[i] != values[j]
    ensures Ascending(secondary) && values[0] !in secondary
  {
    forall i, j | 0 <= i < j < |secondary| ensures secondary[i] < secondary[j] {
      Climb(secondary, i, j);
      assert values[i + 1] != values[j + 1];
    }
    forall i | 0 <= i < |secondary| ensures secondary[i] != values[0] {
      assert values[i + 1] == secondary[i];
    }
  }

  lemma {:induction false} Climb(values: seq<int>, i: nat, j: nat)
    requires i <= j < |values| && forall k :: 0 <= k < |values| - 1 ==> values[k] <= values[k + 1]
    ensures values[i] <= values[j]
    decreases j - i
  {
    if i < j {
      Climb(values, i, j - 1);
      assert values[j - 1] <= values[j - 1 + 1];
    }
  }

  // ---------------------------------------------------------------- the definition

  predicate Qualifies(row: SnapshotRow) {
    row.topChanged && row.trading && row.bid.Some? && row.bidQuantity.Some? && row.ask.Some? && row.askQuantity.Some?
  }

  function RowError(context: Context, previous: Option<SnapshotRow>, row: SnapshotRow): Option<DatasetError> {
    if row.partition != context.partition then Some(InvariantError)
    else if !(context.sessionStart <= row.timestamp < context.sessionEnd) then Some(SessionWindowError)
    else if previous.Some? && row.index <= previous.value.index then Some(InvariantError)
    else if previous.Some? && row.timestamp < previous.value.timestamp then Some(TimestampError)
    else if !Qualifies(row) then None
    else if row.bid.value <= 0 || row.ask.value <= row.bid.value then Some(BookCrossedError)
    else if row.bidQuantity.value <= 0 || row.askQuantity.value <= 0 then Some(QuantityError)
    else None
  }

  function LastOf(rows: seq<SnapshotRow>): Option<SnapshotRow> {
    if rows == [] then None else Some(rows[|rows| - 1])
  }

  /** The error of the first row that has one. */
  function FirstError(context: Context, rows: seq<SnapshotRow>): Option<DatasetError> {
    if rows == [] then None
    else
      var earlier := rows[..|rows| - 1];
      if FirstError(context, earlier).Some? then FirstError(context, earlier)
      else RowError(context, LastOf(earlier), rows[|rows| - 1])
  }

  /** The qualifying snapshots, numbered from zero. */
  function Observations(rows: seq<SnapshotRow>): (seen: seq<Observation>)
    ensures forall i :: 0 <= i < |seen| ==> seen[i].ordinal == i
  {
    if rows == [] then []
    else
      var earlier, row := Observations(rows[..|rows| - 1]), rows[|rows| - 1];
      if Qualifies(row)
      then earlier + [Observation(row.partition, row.index, row.timestamp, |earlier|, row.bid.value + row.ask.value)]
      else earlier
  }

  function Sign(delta: int, threshold: nat): int {
    if delta > threshold then 1 else if -delta > threshold then -1 else 0
  }

  /** The label of observation i at a horizon; null exactly when the future is not known. */
  function LabelAt(seen: seq<Observation>, threshold: nat, i: nat, horizon: nat): Option<int>
    requires i < |seen|
  {
    if i + horizon < |seen| then Some(Sign(seen[i + horizon].mid2 - seen[i].mid2, threshold)) else None
  }

  function RowAt(seen: seq<Observation>, threshold: nat, horizons: seq<nat>, i: nat): LabelRow
    requires i < |seen|
  {
    LabelRow(seen[i].partition, seen[i].index, seen[i].timestamp, seen[i].ordinal,
             seq(|horizons|, k requires 0 <= k < |horizons| => LabelAt(seen, threshold, i, horizons[k])))
  }

  /** The first `count` label rows. */
  function Rows(seen: seq<Observation>, threshold: nat, horizons: seq<nat>, count: nat): (rows: seq<LabelRow>)
    requires count <= |seen|
    ensures |rows| == count
  {
    seq(count, i requires 0 <= i < count => RowAt(seen, threshold, horizons, i))
  }

  /** No later observation changes a row whose horizons have all passed. */
  lemma CompleteRowsAreFinal(seen: seq<Observation>, more: seq<Observation>, threshold: nat, horizons: seq<nat>, count: nat)
    requires seen <= more
    requires count > 0 ==> forall k :: 0 <= k < |horizons| ==> count + horizons[k] <= |seen|
    requires count <= |seen|
    ensures Rows(seen, threshold, horizons, count) == Rows(more, threshold, horizons, count)
  {
    forall i | 0 <= i < count
      ensures RowAt(seen, threshold, horizons, i) == RowAt(more, threshold, horizons, i)
    {
      assert forall k :: 0 <= k < |horizons| ==>
               LabelAt(seen, threshold, i, horizons[k]) == LabelAt(more, threshold, i, horizons[k]);
    }
  }

  lemma RowsStay(seen: seq<Observation>, next: Observation, threshold: nat, horizons: seq<nat>, count: nat)
    requires count <= |seen| && (count > 0 ==> forall k :: 0 <= k < |horizons| ==> count + horizons[k] <= |seen|)
    ensures Rows(seen, threshold, horizons, count) == Rows(seen + [next], threshold, horizons, count)
  {
    CompleteRowsAreFinal(seen, seen + [next], threshold, horizons, count);
  }

  // ---------------------------------------------------------------- the streaming pass

  ghost function Flatten<T>(batches: seq<seq<T>>): seq<T> {
    if batches == [] then [] else Flatten(batches[..|batches| - 1]) + batches[|batches| - 1]
  }

  lemma FlattenAppend<T>(batches: seq<seq<T>>, batch: seq<T>)
    ensures Flatten(batches + [batch]) == Flatten(batches) + batch
  {
    assert (batches + [batch])[..|batches|] == batches;
  }

  class LabelPass {
    const partition: Partition
    const horizons: seq<nat>
    const maximum: nat
    const threshold: nat
    var buffer: seq<Observation>
    var output: seq<LabelRow>
    var yielded: seq<seq<LabelRow>>
    var qualifyingOrdinal: int
    ghost var seen: seq<Observation>

    ghost function Emitted(): seq<LabelRow>
      reads this`yielded, this`output
    {
      Flatten(yielded) + output
    }

    /** The buffer is the unlabelled end of what was seen, and it never outgrows the largest
        horizon between two input rows. */
    ghost predicate Valid()
      reads this
    {
      && Holding()
      && |buffer| <= maximum
      && (|seen| > |buffer| ==> |buffer| == maximum)
    }

    ghost predicate Holding()
      reads this
    {
      && (forall k :: 0 <= k < |horizons| ==> 0 < horizons[k] <= maximum)
      && qualifyingOrdinal == |seen| - 1
      && IsTail(seen, buffer)
      && |output| < OUTPUT_BATCH_ROWS
      && (forall k :: 0 <= k < |yielded| ==> |yielded[k]| == OUTPUT_BATCH_ROWS)
      && |buffer| <= |seen|
      && Emitted() == Rows(seen, threshold, horizons, |seen| - |buffer|)
    }

    constructor (identity: Partition, ordered: seq<nat>, limit: nat)
      requires ordered != [] && Ascending(ordered) && forall k :: 0 <= k < |ordered| ==> ordered[k] > 0
      ensures Valid() && seen == [] && partition == identity && horizons == ordered && threshold == limit
      ensures maximum == ordered[|ordered| - 1]
    {
      partition, horizons, maximum, threshold := identity, ordered, ordered[|ordered| - 1], limit;
      buffer, output, yielded, qualifyingOrdinal, seen := [], [], [], -1, [];
    }

    /** Label and drop the oldest buffered observation. */
    method EmitOldest() returns (row: LabelRow)
      requires Holding() && buffer != []
      modifies this`buffer
      ensures buffer == old(buffer)[1..]
      ensures row == RowAt(seen, threshold, horizons, |seen| - |old(buffer)|)
    {
      var current := buffer[0];
      var labels: seq<Option<int>> := [];
      ghost var i := |seen| - |buffer|;
      for k := 0 to |horizons|
        invariant |labels| == k
        invariant forall j :: 0 <= j < k ==> labels[j] == LabelAt(seen, threshold, i, horizons[j])
      {
        var sign := if horizons[k] < |buffer| then Some(Sign(buffer[horizons[k]].mid2 - current.mid2, threshold)) else None;
        assert horizons[k] < |buffer| ==> buffer[horizons[k]] == seen[i + horizons[k]];
        labels := labels + [sign];
      }
      row := LabelRow(current.partition, current.index, current.timestamp, current.ordinal, labels);
      buffer := buffer[1..];
    }

    /** Queue a finished row and yield a full batch. */
    method Push(row: LabelRow)
      requires |output| < OUTPUT_BATCH_ROWS && forall k :: 0 <= k < |yielded| ==> |yielded[k]| == OUTPUT_BATCH_ROWS
      modifies this`output, this`yielded
      ensures |output| < OUTPUT_BATCH_ROWS && forall k :: 0 <= k < |yielded| ==> |yielded[k]| == OUTPUT_BATCH_ROWS
      ensures Emitted() == old(Emitted()) + [row]
    {
      output := output + [row];
      if |output| == OUTPUT_BATCH_ROWS {
        FlattenAppend(yielded, output);
        yielded := yielded + [output];
        output := [];
      }
    }

    method PushOldest()
      requires Holding() && buffer != []
      modifies this`buffer, this`output, this`yielded
      ensures Holding() && |buffer| == |old(buffer)| - 1
    {
      hide Rows, RowAt, LabelPass.Emitted, IsTail;
      TailSlides(seen, buffer);
      var row := EmitOldest();
      RowsNext(seen, threshold, horizons, |seen| - |buffer| - 1);
      Push(row);
    }

    /** One qualifying snapshot. */
    method Consume(row: SnapshotRow)
      requires Valid() && Qualifies(row) && row.partition == partition
      modifies this
      ensures Valid()
      ensures seen == old(seen) + [Observation(partition, row.index, row.timestamp, |old(seen)|, row.bid.value + row.ask.value)]
    {
      hide Rows, RowAt, LabelPass.Emitted, IsTail, Flatten, Ascending;
      qualifyingOrdinal := qualifyingOrdinal + 1;
      var observation := Observation(partition, row.index, row.timestamp, qualifyingOrdinal, row.bid.value + row.ask.value);
      RowsStay(seen, observation, threshold, horizons, |seen| - |buffer|);
      TailGrows(seen, buffer, observation);
      seen := seen + [observation];
      buffer := buffer + [observation];
      if |buffer| > maximum {
        PushOldest();
      }
    }

    /** The end of the stream: the remaining rows, with nulls where the future is missing. */
    method Finish()
      requires Valid()
      modifies this
      ensures seen == old(seen) && Flatten(yielded) == Rows(seen, threshold, horizons, |seen|)
      ensures forall k :: 0 <= k < |yielded| - 1 ==> |yielded[k]| == OUTPUT_BATCH_ROWS
      ensures yielded != [] ==> 0 < |yielded[|yielded| - 1]| <= OUTPUT_BATCH_ROWS
    {
      hide Rows, RowAt, Flatten;
      while buffer != []
        invariant Holding() && seen == old(seen)
        decreases |buffer|
      {
        PushOldest();
      }
      if output != [] {
        FlattenAppend(yielded, output);
        yielded := yielded + [output];
        output := [];
      }
    }
  }

  ghost predicate IsTail<T>(all: seq<T>, tail: seq<T>) {
    |tail| <= |all| && tail == all[|all| - |tail|..]
  }

  lemma TailGrows<T>(all: seq<T>, tail: seq<T>, next: T)
    requires IsTail(all, tail)
    ensures IsTail(all + [next], tail + [next])
  {
  }

  lemma TailSlides<T>(all: seq<T>, tail: seq<T>)
    requires IsTail(all, tail) && tail != []
    ensures IsTail(all, tail[1..])
  {
  }

  lemma RowsNext(seen: seq<Observation>, threshold: nat, horizons: seq<nat>, count: nat)
    requires count < |seen|
    ensures Rows(seen, threshold, horizons, count + 1) ==
            Rows(seen, threshold, horizons, count) + [RowAt(seen, threshold, horizons, count)]
  {
  }

  lemma {:induction false} ErrorPersists(context: Context, rows: seq<SnapshotRow>, k: nat)
    requires k <= |rows| && FirstError(context, rows[..k]).Some?
    ensures FirstError(context, rows) == FirstError(context, rows[..k])
    decreases |rows|
  {
    if k == |rows| {
      assert rows[..k] == rows;
    } else {
      assert rows[..|rows| - 1][..k] == rows[..k];
      ErrorPersists(context, rows[..|rows| - 1], k);
    }
  }

  /** The horizons as the pass uses them. */
  ghost predicate InOrder(config: LabelConfig, horizons: seq<nat>) {
    Ascending(horizons) && forall h: int :: h in horizons <==> h == config.primary || h in config.secondary
  }

  /** Every qualifying snapshot is labelled once, in order, by definition; a faulty stream stops at
      its first fault, and what was yielded before it is final. */
  method BuildLabels(rows: seq<SnapshotRow>, config: LabelConfig, context: Context)
    returns (error: Option<DatasetError>, batches: seq<seq<LabelRow>>, ghost horizons: seq<nat>)
    ensures error == if !HorizonsOk(config) then Some(HorizonError) else FirstError(context, rows)
    ensures !HorizonsOk(config) ==> batches == []
    ensures HorizonsOk(config) ==>
              var threshold := 2 * context.tickSize * config.flatThresholdTicks;
              && InOrder(config, horizons)
              && |Flatten(batches)| <= |Observations(rows)|
              && Flatten(batches) == Rows(Observations(rows), threshold, horizons, |Flatten(batches)|)
              && (error.None? ==> |Flatten(batches)| == |Observations(rows)|)
    ensures forall k :: 0 <= k < |batches| - 1 ==> |batches[k]| == OUTPUT_BATCH_ROWS
  {
    hide LabelPass.Valid, Rows, RowError, Flatten, Ascending;
    var ordered;
    error, ordered := LabelHorizons(config);
    if error.Some? {
      return error, [], [];
    }
    horizons := ordered;
    assert config.primary in ordered;
    var pass := new LabelPass(context.partition, ordered, 2 * context.tickSize * config.flatThresholdTicks);
    var previous: Option<SnapshotRow> := None;
    for k := 0 to |rows|
      invariant fresh(pass) && pass.Valid() && pass.horizons == ordered && pass.partition == context.partition
      invariant pass.threshold == 2 * context.tickSize * config.flatThresholdTicks
      invariant pass.seen == Observations(rows[..k])
      invariant previous == LastOf(rows[..k]) && FirstError(context, rows[..k]).None?
    {
      var row := rows[k];
      assert rows[..k + 1][..k] == rows[..k];
      error := RowError(context, previous, row);
      if error.Some? {
        ErrorPersists(context, rows, k + 1);
        YieldedIsFinal(pass, rows, k);
        BatchesFull(pass);
        return error, pass.yielded, horizons;
      }
      OwnRow(context, previous, row);
      previous := Some(row);
      if Qualifies(row) {
        pass.Consume(row);
      }
    }
    assert rows[..|rows|] == rows;
    pass.Finish();
    error, batches := None, pass.yielded;
  }

  lemma OwnRow(context: Context, previous: Option<SnapshotRow>, row: SnapshotRow)
    requires RowError(context, previous, row).None?
    ensures row.partition == context.partition
  {
  }

  lemma {:induction false} ObservationsGrow(rows: seq<SnapshotRow>, k: nat)
    requires k <= |rows|
    ensures Observations(rows[..k]) <= Observations(rows)
    decreases |rows|
  {
    if k == |rows| {
      assert rows[..k] == rows;
    } else {
      assert rows[..|rows| - 1][..k] == rows[..k];
      ObservationsGrow(rows[..|rows| - 1], k);
    }
  }

  lemma BatchesFull(pass: LabelPass)
    requires pass.Valid()
    ensures forall k :: 0 <= k < |pass.yielded| ==> |pass.yielded[k]| == OUTPUT_BATCH_ROWS
  {
  }

  lemma YieldedIsFinal(pass: LabelPass, rows: seq<SnapshotRow>, k: nat)
    requires pass.Valid() && k <= |rows| && pass.seen == Observations(rows[..k])
    ensures |Flatten(pass.yielded)| <= |Observations(rows)|
    ensures Flatten(pass.yielded) ==
            Rows(Observations(rows), pass.threshold, pass.horizons, |Flatten(pass.yielded)|)
  {
    hide Rows, Flatten, Observations;
    ObservationsGrow(rows, k);
    var count := |pass.seen| - |pass.buffer|;
    CompleteRowsAreFinal(pass.seen, Observations(rows), pass.threshold, pass.horizons, count);
    var all := Rows(Observations(rows), pass.threshold, pass.horizons, count);
    assert pass.Emitted() == all;
    var n := |Flatten(pass.yielded)|;
    assert Flatten(pass.yielded) == all[..n];
    RowsPrefix(Observations(rows), pass.threshold, pass.horizons, count, n);
  }

  lemma RowsPrefix(seen: seq<Observation>, threshold: nat, horizons: seq<nat>, count: nat, n: nat)
    requires n <= count <= |seen|
    ensures Rows(seen, threshold, horizons, count)[..n] == Rows(seen, threshold, horizons, n)
  {
  }
}
