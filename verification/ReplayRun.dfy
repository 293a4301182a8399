/** The whole run of cpp/src/replay/replay_coordinator.cpp: the loop over the framed messages, the
    checks at the end of the stream and the summary. */
module ReplayRun {
  import opened Types
  import opened Counting
  import opened BookModel
  import opened BookRep
  import opened BookDigest
  import opened OrderBookModule
  import opened InstrumentDirectoryModule
  import opened EventCodec
  import opened SnapshotCodec
  import opened ReplayModel
  import opened ReplayCounts
  import opened ReplayLog
  import opened ReplayCoordinatorModule
  import opened Writers
  import Sha256

  datatype InstrumentSummary = InstrumentSummary(instrument: Instrument, orderCount: nat, digest: Bytes,
                                                 state: TradingState)

  datatype Summary = Summary(
    tally: Tally,
    selectedEvents: U64,
    snapshotsWritten: U64,
    errors: U64,
    skipped: U64,
    degraded: bool,
    countsByCode: map<ErrorCode, U64>,
    instruments: seq<InstrumentSummary>)

  datatype RunResult = Completed(summary: Summary) | Failed(code: ErrorCode)

  /** How a run over these frames fails, if it does; `ending` is the framed reader's final error. */
  ghost function Failure(c: Config, frames: seq<Frame>, ending: Option<ErrorCode>): Option<ErrorCode> {
    if !ConfigOk(c) then Some(ConfigSchema)
    else
      match Run(c, frames)
      case Halt(code) => Some(code)
      case Next(st) =>
        if ending.Some? then ending
        else if !AllResolved(c.symbols, st.market.learned) then Some(UnknownSymbol)
        else None
  }

  /** The summary line of one instrument tells its final book and state. */
  ghost predicate Summarises(c: Config, st: Replay, s: InstrumentSummary, id: nat)
    requires |c.symbols| <= U16_MAX
  {
    && IsSelected(c.symbols, st.market.learned, s.instrument, id)
    && var l := s.instrument.locate;
       && l in st.market.books && l in st.market.session.states
       && s.orderCount == |st.market.books[l]|
       && Bookable(st.market.books[l])
       && s.digest == Sha256.Hash(Preimage(CanonicalOf(l, st.market.books[l])))
       && s.state == st.market.session.states[l]
  }

  ghost predicate SummaryOf(c: Config, st: Replay, summary: Summary)
    requires |c.symbols| <= U16_MAX
  {
    && summary.tally == st.tally
    && summary.selectedEvents == |st.market.events| && summary.snapshotsWritten == |st.market.snapshots|
    && summary.errors == st.policy.errors && summary.skipped == st.policy.skipped
    && (summary.degraded <==> st.policy.skipped != 0) && summary.countsByCode == st.policy.byCode
    && |summary.instruments| == |c.symbols|
    && forall i :: 0 <= i < |summary.instruments| ==> Summarises(c, st, summary.instruments[i], i + 1)
  }

  /** A run that stopped stays stopped. */
  lemma {:induction false} HaltPersists(c: Config, frames: seq<Frame>, k: nat)
    requires ConfigOk(c) && k <= |frames| && Run(c, frames[..k]).Halt?
    ensures Run(c, frames) == Run(c, frames[..k])
    decreases |frames|
  {
    hide Step, Wired;
    if k == |frames| {
      assert frames[..k] == frames;
    } else {
      var earlier := frames[..|frames| - 1];
      assert earlier[..k] == frames[..k];
      HaltPersists(c, earlier, k);
    }
  }

  lemma RunNext(c: Config, frames: seq<Frame>, k: nat)
    requires ConfigOk(c) && k < |frames| && Run(c, frames[..k]).Next?
    ensures Run(c, frames[..k + 1]) == Step(c, Run(c, frames[..k]).st, frames[k])
  {
    hide Step, Wired;
    assert frames[..k + 1][..k] == frames[..k];
  }

  /** Replay a stream of frames.  The files hold exactly the encoded events and snapshots of the
      run, and a run that fails leaves none. */
  method RunReplay(c: Config, frames: seq<Frame>, ending: Option<ErrorCode>)
    returns (result: RunResult, eventFile: seq<Bytes>, snapshotFile: seq<Bytes>)
    ensures match Failure(c, frames, ending)
            case Some(code) => result == Failed(code)
            case None => result.Completed?
    ensures result.Completed? ==>
              && ConfigOk(c) && Run(c, frames).Next?
              && var st := Run(c, frames).st;
                 && SummaryOf(c, st, result.summary)
                 && eventFile == RecordsOf(st.market.events)
                 && |snapshotFile| == |st.market.snapshots|
                 && forall k :: 0 <= k < |snapshotFile| ==>
                      && |st.market.snapshots[k].top.bids| == |st.market.snapshots[k].top.asks|
                      && snapshotFile[k] == SnapshotRecord(st.market.snapshots[k])
  {
    hide Step, Wired, SummaryOf, RecordsOf, SnapshotRecord, AllResolved, ReplayCoordinator.LiveBooks;
    hide ReplayCoordinator.BooksValid, InstrumentDirectory.Valid;
    eventFile, snapshotFile := [], [];
    if c.symbols == [] || |c.symbols| > U16_MAX {
      return Failed(ConfigSchema), [], [];
    }
    if c.invariantInterval == 0 {
      return Failed(ConfigSchema), [], [];
    }
    var run := new ReplayCoordinator(c);
    for k := 0 to |frames|
      invariant fresh(run) && run.c == c && fresh(run.books.Values)
      invariant fresh(run.directory) && fresh(run.session) && fresh(run.policy) && fresh(run.events) && fresh(run.snapshots)
      invariant run.Valid()
      invariant Run(c, frames[..k]) == Next(run.View())
    {
      hide ReplayCoordinator.Valid, ReplayCoordinator.View;
      RunNext(c, frames, k);
      var error := run.Step(frames[k]);
      if error.Some? {
        HaltPersists(c, frames, k + 1);
        return Failed(error.value), [], [];
      }
    }
    assert frames[..|frames|] == frames;
    if ending.Some? {
      return Failed(ending.value), [], [];
    }
    result := Finish(run, frames);
    eventFile, snapshotFile := run.events.output, run.snapshots.output;
  }

  /** After the last frame. */
  method Finish(run: ReplayCoordinator, ghost frames: seq<Frame>) returns (result: RunResult)
    requires run.Valid() && ConfigOk(run.c) && Run(run.c, frames) == Next(run.View())
    ensures var st := run.View();
            if AllResolved(run.c.symbols, st.market.learned)
            then result.Completed? && SummaryOf(run.c, st, result.summary)
            else result == Failed(UnknownSymbol)
  {
    hide Run, Wired, Summarises, AllResolved, ReplayCoordinator.BooksValid, ReplayCoordinator.LiveBooks;
    hide InstrumentDirectory.Valid, EventWriter.Valid, SnapshotWriter.Valid, OneToOne, Selected;
    var resolved := run.directory.AllRequestedResolved();
    if !resolved {
      return Failed(UnknownSymbol);
    }
    Reconcile(run.c, run.tally, frames);
    var listed := run.directory.SelectedInstruments();
    var summaries := [];
    for i := 0 to |listed|
      invariant |summaries| == i
      invariant forall j :: 0 <= j < i ==> Summarises(run.c, run.View(), summaries[j], j + 1)
    {
      var summary := Summarise(run, listed[i]);
      summaries := summaries + [summary];
    }
    result := Completed(Summary(run.tally, run.selectedEvents, run.snapshotsWritten, run.policy.errorCount,
                                run.policy.skippedMessages, run.policy.skippedMessages != 0,
                                run.policy.countsByCode, summaries));
  }

  /** The source fails here when the counters do not reconcile, which cannot happen. */
  method Reconcile(c: Config, tally: Tally, ghost frames: seq<Frame>)
    requires ConfigOk(c) && Run(c, frames).Next? && Run(c, frames).st.tally == tally
  {
    hide Run;
    ReconciliationNeverFails(c, frames);
    var all := CountTotal(tally.allByType);
    var chosen := CountTotal(tally.selectedByType);
    var instruments := CheckedAdd(tally.selected, tally.filtered);
    assert all.Some? && chosen.Some? && instruments.Some?;
    var directories := CheckedAdd(tally.directory, instruments.value);
    assert directories.Some?;
    var categorised := CheckedAdd(tally.system, directories.value);
    var processed := CheckedAdd(tally.decoded, tally.skippedDecode);
    assert categorised.Some? && processed.Some?;
    assert all.value == tally.decoded && chosen.value == tally.selected && categorised.value == tally.decoded &&
           processed.value == tally.processed;
  }

  lemma SameCount(orders: Orders)
    ensures |LiveOf(orders)| == |orders|
  {
    LiveKeys(orders);
    assert |orders.Keys| == |orders| && |LiveOf(orders).Keys| == |LiveOf(orders)|;
  }

  /** A resolved instrument has a book, a clean invariant report and a state. */
  method Summarise(run: ReplayCoordinator, instrument: Instrument) returns (summary: InstrumentSummary)
    requires run.Valid() && IsSelected(run.c.symbols, run.directory.identities, instrument, instrument.id)
    ensures Summarises(run.c, run.View(), summary, instrument.id)
  {
    hide InstrumentDirectory.Valid, Selected, OrderBook.Valid, Bookable, CanonicalOf;
    var l := instrument.locate;
    assert l in run.MarketView().books;
    var book := run.books[l];
    assert book.Valid();
    var report := book.CheckInvariants();
    assert report.violations == [];
    SameCount(book.orders);
    var digest := book.Digest();
    summary := InstrumentSummary(instrument, report.orderCount, digest, run.session.states[l]);
  }
}
