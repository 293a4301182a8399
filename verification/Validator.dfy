/** Deep validation of an event file (cpp/src/validation/validator.cpp): every record is decoded on
    its own and applied to fresh order books, whose final counts and digests are compared with the
    manifest. */
module DeepValidator {
  import opened Types
  import opened BookModel
  import opened BookRep
  import opened BookDigest
  import opened BookOutcomes
  import opened OrderBookModule
  import opened InstrumentDirectoryModule
  import opened EventCodec
  import opened ReplayModel
  import opened ReplayLog
  import opened ReplayStream
  import opened ReplayBooks
  import opened ReplayRun
  import opened ReplaySnapshots
  import opened SnapshotCodec
  import opened ValidatorModel
  import Sha256

  /** What the manifest says about one instrument. */
  datatype Expected = Expected(orderCount: nat, digest: Bytes)

  ghost predicate BookMatches(locate: U16, live: Live, expected: Expected) {
    |live| == expected.orderCount && Bookable(live) && Sha256.Hash(Preimage(CanonicalOf(locate, live))) == expected.digest
  }

  /** The records rebuild books that agree with the manifest. */
  ghost predicate Accepts(c: Config, dictionary: seq<U16>, records: seq<Bytes>, manifest: seq<Expected>)
    requires Records72(records)
  {
    var rebuilt := Validate(c, dictionary, records);
    && rebuilt.Some?
    && |manifest| == |dictionary|
    && forall i :: 0 <= i < |dictionary| ==> BookMatches(dictionary[i], rebuilt.value.books[i], manifest[i])
  }

  ghost function Lives(books: seq<OrderBook>): (lives: seq<Live>)
    reads books
    ensures |lives| == |books|
  {
    seq(|books|, i requires 0 <= i < |books| reads books => books[i].LiveOrders())
  }

  /** One sound book for each entry of the dictionary. */
  ghost predicate BooksFor(dictionary: seq<U16>, books: seq<OrderBook>)
    reads books
  {
    && |books| == |dictionary|
    && (forall i :: 0 <= i < |books| ==> books[i].Valid() && books[i].locate == dictionary[i])
    && (forall i, j :: 0 <= i < j < |books| ==> books[i] != books[j])
  }

  method OpenBooks(dictionary: seq<U16>) returns (books: seq<OrderBook>)
    ensures BooksFor(dictionary, books) && fresh(books) && Lives(books) == FreshBooks(|dictionary|)
  {
    hide OrderBook.Valid;
    books := [];
    for i := 0 to |dictionary|
      invariant |books| == i && fresh(books)
      invariant forall j :: 0 <= j < i ==>
                  books[j].Valid() && books[j].locate == dictionary[j] && books[j].LiveOrders() == map[]
      invariant forall j, k :: 0 <= j < k < i ==> books[j] != books[k]
    {
      var book := new OrderBook(dictionary[i]);
      books := books + [book];
    }
  }

  /** Apply a decoded event to its instrument's book and compare the recorded mutation. */
  method ApplyReconstructed(dictionary: seq<U16>, books: seq<OrderBook>, e: DecodedEvent) returns (ok: bool)
    requires BooksFor(dictionary, books) && 1 <= e.symbolId <= |dictionary|
    modifies books[e.symbolId - 1]
    ensures BooksFor(dictionary, books)
    ensures var i := e.symbolId - 1;
            var message := MessageOf(e, dictionary[i]);
            if message.None? then ok && Lives(books) == old(Lives(books))
            else
              var out := Apply(old(Lives(books))[i], dictionary[i], message.value);
              && (ok <==> out.result.Applied? && RecordedAsApplied(e, out.result.delta))
              && Lives(books) == old(Lives(books))[i := out.live]
  {
    hide OrderBook.Valid, Apply, MessageOf;
    var i := e.symbolId - 1;
    var message := MessageOf(e, dictionary[i]);
    if message.None? {
      return true;
    }
    var result := books[i].Apply(message.value);
    forall j | 0 <= j < |books| && j != i ensures books[j].Valid() && books[j].LiveOrders() == old(books[j].LiveOrders()) {
      assert books[j] != books[i];
    }
    ok := result.Applied? && RecordedAsApplied(e, result.delta);
  }

  lemma {:induction false} ValidateFails(c: Config, dictionary: seq<U16>, records: seq<Bytes>, k: nat)
    requires Records72(records) && k <= |records| && Validate(c, dictionary, records[..k]).None?
    ensures Validate(c, dictionary, records).None?
    decreases |records|
  {
    hide ValidateRecord;
    if k == |records| {
      assert records[..k] == records;
    } else {
      assert records[..|records| - 1][..k] == records[..k];
      ValidateFails(c, dictionary, records[..|records| - 1], k);
    }
  }

  lemma NothingYet(c: Config, dictionary: seq<U16>, records: seq<Bytes>)
    requires Records72(records)
    ensures Validate(c, dictionary, records[..0]) == Some(Rebuilt(FreshBooks(|dictionary|), None))
  {
    hide ValidateRecord;
    assert records[..0] == [];
  }

  lemma ValidateStep(c: Config, dictionary: seq<U16>, records: seq<Bytes>, k: nat)
    requires Records72(records) && k < |records| && Validate(c, dictionary, records[..k]).Some?
    ensures Validate(c, dictionary, records[..k + 1]) ==
            ValidateRecord(c, dictionary, Validate(c, dictionary, records[..k]).value, records[k])
  {
    hide ValidateRecord;
    assert records[..k + 1][..k] == records[..k];
  }

  /** One record against the books rebuilt so far. */
  method ExamineRecord(c: Config, dictionary: seq<U16>, books: seq<OrderBook>, last: Option<Position>, record: Bytes)
    returns (ok: bool, next: Option<Position>)
    requires BooksFor(dictionary, books) && |record| == 72
    modifies books
    ensures BooksFor(dictionary, books)
    ensures var result := ValidateRecord(c, dictionary, Rebuilt(old(Lives(books)), last), record);
            && (ok <==> result.Some?)
            && (ok ==> result.value == Rebuilt(Lives(books), next))
  {
    hide OrderBook.Valid, DecodeRecord, Apply, MessageOf, RecordedAsApplied, InSession;
    next := last;
    var decoded := DecodeRecord(record, |dictionary|, last);
    if decoded.Refused? {
      return false, next;
    }
    var e := decoded.event;
    next := Some(Position(e.index, e.timestamp));
    if e.timestamp >= c.sessionEnd || e.inSession != InSession(c, e.timestamp) {
      return false, next;
    }
    ok := ApplyReconstructed(dictionary, books, e);
  }

  /** The final comparison with the manifest. */
  method CompareBooks(dictionary: seq<U16>, books: seq<OrderBook>, manifest: seq<Expected>) returns (ok: bool)
    requires BooksFor(dictionary, books)
    ensures ok <==> |manifest| == |dictionary| &&
                    forall i :: 0 <= i < |dictionary| ==> BookMatches(dictionary[i], Lives(books)[i], manifest[i])
  {
    hide OrderBook.Valid, Bookable, CanonicalOf, Preimage, Sha256.Hash;
    if |manifest| != |books| {
      return false;
    }
    for i := 0 to |books|
      invariant forall j :: 0 <= j < i ==> BookMatches(dictionary[j], Lives(books)[j], manifest[j])
    {
      SameCount(books[i].orders);
      if |books[i].orders| != manifest[i].orderCount {
        assert !BookMatches(dictionary[i], Lives(books)[i], manifest[i]);
        return false;
      }
      var digest := books[i].Digest();
      if digest != manifest[i].digest {
        assert !BookMatches(dictionary[i], Lives(books)[i], manifest[i]);
        return false;
      }
    }
    ok := true;
  }

  /** Deep validation of the whole record region. */
  method ValidateEvents(c: Config, dictionary: seq<U16>, records: seq<Bytes>, manifest: seq<Expected>)
    returns (accepted: bool)
    requires Records72(records)
    ensures accepted <==> Accepts(c, dictionary, records, manifest)
  {
    hide BooksFor, ValidateRecord, BookMatches;
    var books := OpenBooks(dictionary);
    var last := None;
    NothingYet(c, dictionary, records);
    for k := 0 to |records|
      invariant fresh(books) && BooksFor(dictionary, books)
      invariant Validate(c, dictionary, records[..k]) == Some(Rebuilt(Lives(books), last))
    {
      ValidateStep(c, dictionary, records, k);
      var ok;
      ok, last := ExamineRecord(c, dictionary, books, last, records[k]);
      if !ok {
        ValidateFails(c, dictionary, records, k + 1);
        return false;
      }
    }
    assert records[..|records|] == records;
    accepted := CompareBooks(dictionary, books, manifest);
  }

  // ---------------------------------------------------------------- a run validates

  /** The symbol dictionary that a completed run writes. */
  function DictionaryIn(summary: Summary): (dictionary: seq<U16>)
    ensures |dictionary| == |summary.instruments|
  {
    seq(|summary.instruments|, i requires 0 <= i < |summary.instruments| => summary.instruments[i].instrument.locate)
  }

  /** The manifest that a completed run writes. */
  function ManifestOf(summary: Summary): (manifest: seq<Expected>)
    ensures |manifest| == |summary.instruments|
  {
    seq(|summary.instruments|, i requires 0 <= i < |summary.instruments| =>
      Expected(summary.instruments[i].orderCount, summary.instruments[i].digest))
  }

  lemma DictionaryIsListed(c: Config, st: Replay, summary: Summary)
    requires |c.symbols| <= U16_MAX && SummaryOf(c, st, summary)
    ensures DictionaryOf(c, st.market.learned, DictionaryIn(summary))
  {
    hide Selected, Bookable, CanonicalOf, Preimage, Sha256.Hash;
    var dictionary := DictionaryIn(summary);
    forall i | 0 <= i < |dictionary| ensures IdOf(c, st.market.learned, dictionary[i]) == i + 1 {
      assert Summarises(c, st, summary.instruments[i], i + 1);
    }
  }

  /** Whatever a run completes with, strict or permissive, deep validation of its own event file
      against its own manifest succeeds if and only if every event it wrote is clean. */
  lemma ValidatesOwnOutput(c: Config, frames: seq<Frame>, summary: Summary)
    requires ConfigOk(c) && Run(c, frames).Next? && SummaryOf(c, Run(c, frames).st, summary)
    ensures var events := Run(c, frames).st.market.events;
            Accepts(c, DictionaryIn(summary), RecordsOf(events), ManifestOf(summary)) <==> AllClean(events)
  {
    hide Run, Wired, Validate, AllClean, Bookable, DictionaryOf, Selected, CanonicalOf, Preimage, Sha256.Hash;
    var st, dictionary := Run(c, frames).st, DictionaryIn(summary);
    DictionaryIsListed(c, st, summary);
    LogReconstructsState(c, frames, dictionary);
    var rebuilt := Validate(c, dictionary, RecordsOf(st.market.events));
    if rebuilt.Some? {
      forall i | 0 <= i < |dictionary| ensures BookMatches(dictionary[i], rebuilt.value.books[i], ManifestOf(summary)[i]) {
        assert Summarises(c, st, summary.instruments[i], i + 1);
      }
    }
  }

  /** So a stream with positive print quantities and printable text always validates. */
  lemma CleanStreamValidates(c: Config, frames: seq<Frame>, summary: Summary)
    requires ConfigOk(c) && Numbered(frames) && CleanFrames(frames)
    requires Run(c, frames).Next? && SummaryOf(c, Run(c, frames).st, summary)
    ensures Accepts(c, DictionaryIn(summary), RecordsOf(Run(c, frames).st.market.events), ManifestOf(summary))
  {
    hide Run, Wired, SummaryOf, Accepts, RecordsOf, AllClean, Numbered, CleanFrames;
    CleanFramesCleanLog(c, frames);
    ValidatesOwnOutput(c, frames, summary);
  }

  // ---------------------------------------------------------------- the snapshot file

  /** The position that a snapshot record carries. */
  function PositionIn(record: Bytes): Position
    requires |record| >= FIXED_SIZE
  {
    Position(Field64(record, 0), Field64(record, 8))
  }

  function LastPositionIn(records: seq<Bytes>): Option<Position>
    requires forall k :: 0 <= k < |records| ==> |records[k]| >= FIXED_SIZE
  {
    if records == [] then None else Some(PositionIn(records[|records| - 1]))
  }

  ghost predicate SnapshotSizes(records: seq<Bytes>, depth: nat) {
    forall k :: 0 <= k < |records| ==> |records[k]| == RecordSize(depth) >= FIXED_SIZE
  }

  /** Record k is sound after its predecessors. */
  ghost predicate SnapshotOkAt(records: seq<Bytes>, k: nat, depth: nat, symbols: nat)
    requires SnapshotSizes(records, depth) && k < |records|
  {
    SnapshotOk(records[k], depth, symbols, LastPositionIn(records[..k]))
  }

  ghost predicate AcceptsSnapshots(records: seq<Bytes>, depth: nat, symbols: nat) {
    SnapshotSizes(records, depth) && forall k :: 0 <= k < |records| ==> SnapshotOkAt(records, k, depth, symbols)
  }

  /** Deep validation of the whole snapshot region. */
  method ValidateSnapshots(records: seq<Bytes>, depth: nat, symbols: nat) returns (ok: bool)
    requires SnapshotSizes(records, depth)
    ensures ok <==> AcceptsSnapshots(records, depth, symbols)
  {
    hide SnapshotOk, Field64;
    var last := None;
    for n := 0 to |records|
      invariant last == LastPositionIn(records[..n])
      invariant forall k :: 0 <= k < n ==> SnapshotOkAt(records, k, depth, symbols)
    {
      ok := ValidateSnapshotRecord(records[n], depth, symbols, last);
      if !ok {
        assert !SnapshotOkAt(records, n, depth, symbols);
        return;
      }
      last := Some(PositionIn(records[n]));
    }
    ok := true;
  }

  ghost predicate SlotsFill(snapshots: seq<Snapshot>, depth: nat) {
    forall k :: 0 <= k < |snapshots| ==> |snapshots[k].top.bids| == |snapshots[k].top.asks| == depth
  }

  lemma RunSlotsFill(c: Config, frames: seq<Frame>)
    requires ConfigOk(c) && Run(c, frames).Next?
    ensures SlotsFill(Run(c, frames).st.market.snapshots, c.depth)
  {
    hide Run, SnapshotOk, SnapshotClean, SnapshotRecord, TriggeredBy, BidsAt, AsksAt;
    var snapshots := Run(c, frames).st.market.snapshots;
    forall k | 0 <= k < |snapshots| ensures |snapshots[k].top.bids| == |snapshots[k].top.asks| == c.depth {
      SnapshotsValidate(c, frames, k);
    }
  }

  lemma SlotsDecideSizes(snapshots: seq<Snapshot>, depth: nat)
    requires SlotsFill(snapshots, depth)
    ensures SnapshotSizes(SnapshotRecords(snapshots), depth)
  {
    hide SnapshotRecord, SnapshotRecords;
    var records := SnapshotRecords(snapshots);
    assert RecordSize(depth) >= FIXED_SIZE;
    forall k | 0 <= k < |records| ensures |records[k]| == RecordSize(depth) {
      assert |SnapshotRecord(snapshots[k])| == RecordSize(|snapshots[k].top.bids|);
    }
  }

  lemma RecordOkAt(c: Config, frames: seq<Frame>, k: nat)
    requires ConfigOk(c) && Run(c, frames).Next? && k < |Run(c, frames).st.market.snapshots|
    requires SlotsFill(Run(c, frames).st.market.snapshots, c.depth)
    requires SnapshotSizes(SnapshotRecords(Run(c, frames).st.market.snapshots), c.depth)
    ensures var snapshots := Run(c, frames).st.market.snapshots;
            SnapshotOkAt(SnapshotRecords(snapshots), k, c.depth, |c.symbols|) <==> SnapshotClean(snapshots[k])
  {
    hide Run, SnapshotOk, SnapshotClean, SnapshotRecord, SnapshotRecords, TriggeredBy, BidsAt, AsksAt;
    hide LastPositionIn, LastSnapshot;
    var snapshots := Run(c, frames).st.market.snapshots;
    SnapshotsValidate(c, frames, k);
    LastPositions(snapshots, k);
  }

  /** The whole snapshot file of a run validates if and only if no frame writes a snapshot while the
      latest print of its instrument, that frame included, is one of zero shares. */
  lemma SnapshotFileValidates(c: Config, frames: seq<Frame>)
    requires ConfigOk(c) && Numbered(frames) && Run(c, frames).Next?
    ensures var snapshots := Run(c, frames).st.market.snapshots;
            && SlotsFill(snapshots, c.depth)
            && (AcceptsSnapshots(SnapshotRecords(snapshots), c.depth, |c.symbols|) <==>
                forall k :: 0 <= k < |frames| ==> ShowsShares(c, frames, k))
  {
    hide Run, SnapshotOkAt, SnapshotSizes, SnapshotClean, SnapshotRecord, ShowsShares, Numbered;
    var snapshots := Run(c, frames).st.market.snapshots;
    RunSlotsFill(c, frames);
    SlotsDecideSizes(snapshots, c.depth);
    forall k | 0 <= k < |snapshots|
      ensures SnapshotOkAt(SnapshotRecords(snapshots), k, c.depth, |c.symbols|) <==> SnapshotClean(snapshots[k])
    {
      RecordOkAt(c, frames, k);
    }
    SnapshotsCleanExactly(c, frames);
  }

  /** So a stream whose trades and crosses have shares always writes a snapshot file that validates. */
  lemma PositivePrintsValidate(c: Config, frames: seq<Frame>)
    requires ConfigOk(c) && Numbered(frames) && PositivePrints(frames) && Run(c, frames).Next?
    ensures SlotsFill(Run(c, frames).st.market.snapshots, c.depth)
    ensures AcceptsSnapshots(SnapshotRecords(Run(c, frames).st.market.snapshots), c.depth, |c.symbols|)
  {
    hide Run, AcceptsSnapshots, SnapshotRecord, ShowsShares, Numbered, PositivePrints, AllSnapshotsClean;
    SnapshotFileValidates(c, frames);
    PositivePrintsCleanSnapshots(c, frames);
    SnapshotsCleanExactly(c, frames);
  }

  lemma LastPositions(snapshots: seq<Snapshot>, k: nat)
    requires k <= |snapshots| && forall i :: 0 <= i < |snapshots| ==> |snapshots[i].top.bids| == |snapshots[i].top.asks|
    ensures LastPositionIn(SnapshotRecords(snapshots)[..k]) == LastSnapshot(snapshots[..k])
  {
    hide Field64, PrefixBytes, EntriesBytes;
    if k > 0 {
      PrefixRead(snapshots[k - 1], SnapshotRecord(snapshots[k - 1]));
    }
  }
}
