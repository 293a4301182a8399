/** The replay accepts what deep validation refuses (cpp/src/replay/replay_coordinator.cpp against
    cpp/src/validation/validator.cpp): trades of zero shares, in the event file and in the snapshots
    that repeat them, and unprintable text.  Short strict runs that show each. */
module Refusals {
  import opened Types
  import opened BookModel
  import opened BookView
  import opened Counting
  import opened Messages
  import opened Session
  import opened ErrorPolicyModule
  import opened InstrumentDirectoryModule
  import opened EventCodec
  import opened SnapshotCodec
  import opened ReplayModel
  import opened ReplayLog
  import opened ReplayStream
  import opened ReplayBooks
  import opened ReplaySnapshots
  import opened ValidatorModel
  import opened DeepValidator

  const SYMBOL: Bytes := ['A' as int]
  const STOCK: Stock := ['A' as int, 0x20, 0x20, 0x20, 0x20, 0x20, 0x20, 0x20]
  const BELLS: Reason := [7, 7, 7, 7]

  /** One symbol, strict, depth one; the session is the whole day. */
  const CONFIG: Config := Config([SYMBOL], 0, NANOSECONDS_PER_DAY, false, 1, false, PolicyConfig(false, 0), 1)
  /** The same with a session that starts one nanosecond into the day. */
  const LATER: Config := CONFIG.(sessionStart := 1)

  const ANNOUNCEMENT: Message := Directory(1, 0, STOCK, 'Q' as int, 'N' as int, 100, 'N' as int)
  const PRINT: Message := Trade(1, 0, 0, Buy, 0, STOCK, 100, 7)
  const ORDER: Message := AddOrder(1, 0, 5, Buy, 10, STOCK, 100)
  const RESUME: Message := Action(1, 0, STOCK, 'T' as int, BELLS)
  const START_FRAME: Frame := Good(1, ANNOUNCEMENT)
  const INSTRUMENT: Instrument := Instrument(1, 1, IdentityOf(ANNOUNCEMENT))

  lemma {:induction false} TrimPadded(text: Bytes, field: Bytes)
    requires |text| <= |field| && field[..|text|] == text && (text != [] ==> text[|text| - 1] != PADDING)
    requires forall i :: |text| <= i < |field| ==> field[i] == PADDING
    ensures Trimmed(field) == text
  {
    if |text| < |field| {
      var rest := field[..|field| - 1];
      assert rest[..|text|] == text;
      TrimPadded(text, rest);
    } else {
      assert field == text;
    }
  }

  lemma StockIsSymbol()
    ensures Trimmed(STOCK) == SYMBOL
  {
    TrimPadded(SYMBOL, STOCK);
  }

  // ---------------------------------------------------------------- the states on the way

  function Announced(): Replay {
    Replay(Market(map[1 := IdentityOf(ANNOUNCEMENT)], SessionView(None, map[1 := Preopen]), map[1 := map[]],
                  map[1 := None], [], []),
           map[1 := 0], {}, FRESH_POLICY,
           Tally(1, 1, 0, 0, 1, 0, 0, map['R' as int := 1], map[]))
  }

  function Printed(): Replay {
    Replay(Announced().market.(lastTrades := map[1 := Some(LastTrade(100, 0))],
                               events := [PrintEvent(CONFIG, PRINT, 2, 1)]),
           map[1 := 0], {}, FRESH_POLICY,
           Tally(2, 2, 0, 0, 1, 1, 0, map['R' as int := 1, 'P' as int := 1], map['P' as int := 1]))
  }

  lemma AnnouncedSelects()
    ensures Selected([SYMBOL], Announced().market.learned, 1) == Some(INSTRUMENT)
    ensures AllResolved([SYMBOL], Announced().market.learned)
    ensures DictionaryOf(CONFIG, Announced().market.learned, [1])
    ensures DictionaryOf(LATER, Announced().market.learned, [1])
  {
    StockIsSymbol();
    hide Trimmed;
    assert RequestedId([SYMBOL], SYMBOL) == 1;
    assert Selected([SYMBOL], Announced().market.learned, 1) == Some(INSTRUMENT);
    assert Resolved([SYMBOL], Announced().market.learned, 1);
  }

  lemma Announces(c: Config)
    requires c.symbols == [SYMBOL] && c.invariantInterval > 0
    ensures Wired(c, START) && Step(c, START, START_FRAME) == Next(Announced())
    ensures Run(c, [START_FRAME]) == Next(Announced())
  {
    StartWired(c);
    StockIsSymbol();
    hide Trimmed;
    assert ValidSourceSymbol(SYMBOL);
    assert !DirectoryRefused(map[], ANNOUNCEMENT);
    var learned := AfterDirectory(map[], ANNOUNCEMENT);
    assert RequestedId([SYMBOL], SYMBOL) == 1;
    assert Selected([SYMBOL], learned, 1).Some?;
    var counted := START.(tally := START.tally.(processed := 1, decoded := 1, allByType := Bump(map[], 'R' as int)));
    assert Step(c, START, START_FRAME) == HandleDirectory(c, counted, ANNOUNCEMENT);
    assert [START_FRAME][..0] == [];
  }

  lemma RunNext(c: Config, earlier: seq<Frame>, f: Frame)
    requires ConfigOk(c) && Run(c, earlier).Next?
    ensures Run(c, earlier + [f]) == Step(c, Run(c, earlier).st, f)
  {
    hide Step;
    assert (earlier + [f])[..|earlier|] == earlier;
  }

  /** The counters after one more message of a requested instrument. */
  function Counted(st: Replay, m: Message): Replay
    requires st.tally.processed < U64_MAX && st.tally.decoded < U64_MAX && st.tally.selected < U64_MAX
    requires Count(st.tally.allByType, SourceType(m)) < U64_MAX && Count(st.tally.selectedByType, SourceType(m)) < U64_MAX
  {
    st.(tally := st.tally.(processed := st.tally.processed + 1, decoded := st.tally.decoded + 1,
                           selected := st.tally.selected + 1,
                           allByType := Bump(st.tally.allByType, SourceType(m)),
                           selectedByType := Bump(st.tally.selectedByType, SourceType(m))))
  }

  /** A message of the announced instrument is handled. */
  lemma StepHandles(c: Config, st: Replay, index: U64, m: Message)
    requires c.symbols == [SYMBOL] && Wired(c, st) && st.market.learned == Announced().market.learned
    requires ConcernsMarket(m) && m.locate == 1 && m.timestamp < c.sessionEnd && EmbeddedSymbol(m) == Some(SYMBOL)
    requires st.tally.processed < U64_MAX && st.tally.decoded < U64_MAX && st.tally.selected < U64_MAX
    requires Count(st.tally.allByType, SourceType(m)) < U64_MAX && Count(st.tally.selectedByType, SourceType(m)) < U64_MAX
    ensures Registered(st.market, 1) && 1 in st.mutations
    ensures Step(c, st, Good(index, m)) == Handle(c, Counted(st, m), index, m, 1)
  {
    AnnouncedSelects();
    StockIsSymbol();
    hide Selected, Trimmed, EmbeddedSymbol, SourceType, Count, Bump, Handle, OneToOne;
    assert st.market.session.states.Keys == st.market.books.Keys == st.market.lastTrades.Keys;
    var counted := st.(tally := st.tally.(processed := st.tally.processed + 1, decoded := st.tally.decoded + 1,
                                          allByType := Bump(st.tally.allByType, SourceType(m))));
    assert Step(c, st, Good(index, m)) == HandleSelected(c, counted, index, m, INSTRUMENT);
  }

  // ---------------------------------------------------------------- a trade of zero shares

  const TRADED: seq<Frame> := [START_FRAME] + [Good(2, PRINT)]

  lemma PrintIsWritten()
    ensures WritePrint(CONFIG, Announced().market, 2, PRINT, 1) == Wrote(Printed().market)
  {
    assert EncodeError(PrintEvent(CONFIG, PRINT, 2, 1)) == None;
  }

  lemma Trades()
    ensures Run(CONFIG, TRADED) == Next(Printed())
  {
    hide Trimmed, Run, Step, Wired, WritePrint, PrintEvent;
    Announces(CONFIG);
    StockIsSymbol();
    RunNext(CONFIG, [START_FRAME], Good(2, PRINT));
    StepHandles(CONFIG, Announced(), 2, PRINT);
    PrintIsWritten();
  }

  lemma PrintIsUnclean()
    ensures !AllClean(Printed().market.events)
  {
    assert !Clean(Printed().market.events[0]);
  }

  /** The run succeeds in strict mode and every symbol is resolved, but its log does not validate. */
  lemma ZeroShareTradeIsRefused()
    ensures ConfigOk(CONFIG) && Numbered(TRADED)
    ensures var run := Run(CONFIG, TRADED);
            && run.Next?
            && AllResolved(CONFIG.symbols, run.st.market.learned)
            && DictionaryOf(CONFIG, run.st.market.learned, [1])
            && Validate(CONFIG, [1], RecordsOf(run.st.market.events)).None?
  {
    hide Run, Validate, AllClean, DictionaryOf, AllResolved, PrintEvent;
    Trades();
    PrintIsUnclean();
    AnnouncedSelects();
    LogReconstructsState(CONFIG, TRADED, [1]);
  }

  // ---------------------------------------------------------------- a snapshot that shows it

  const ADDED: seq<Frame> := TRADED + [Good(3, ORDER)]

  function Resting(): Live {
    map[5 := Order(Buy, 100, 10, 3, None)]
  }

  lemma OrderRests()
    ensures BookMessageOf(ORDER, 3) == Some(Add(3, 1, 5, Buy, 10, 100, None))
    ensures AppliedOutcome(Printed().market, 3, ORDER) ==
            Outcome(Resting(), Applied(BookDelta(AddKind, 3, 1, 5, Buy, 100, 0, 10, None)))
  {
    assert OrdersAt(map[], Buy, 100) == {};
  }

  /** An empty book has an empty top slot, which the order fills. */
  lemma TopChanges()
    ensures TopOf(map[], 1) != TopOf(Resting(), 1)
  {
    hide Ranked;
    forall side, price ensures LevelTotal(map[], side, price) == 0 {
      assert OrdersAt(map[], side, price) == {};
    }
    assert PricesOf(map[], Buy) == {};
    assert TopOf(map[], 1).bids[0] == None;
    if TotalsFit(Resting()) {
      assert Resting()[5].side == Buy && Resting()[5].price == 100;
      assert 100 in PricesOf(Resting(), Buy);
      assert TopOf(Resting(), 1).bids[0].Some?;
    }
  }

  lemma OrderPasses()
    ensures ReachesLog(CONFIG, Printed().market, Good(3, ORDER))
    ensures TakesSnapshot(CONFIG, Printed().market, Good(3, ORDER))
    ensures EventRefusal(CONFIG, Printed().market.events, EventOf(CONFIG, Printed().market, Good(3, ORDER))) == None
  {
    AnnouncedSelects();
    OrderRests();
    TopChanges();
    hide Trimmed, TopOf, AppliedOutcome, Selected;
  }

  lemma Adds()
    ensures Run(CONFIG, ADDED).Next? && Run(CONFIG, ADDED).st.market.learned == Announced().market.learned
    ensures |Run(CONFIG, ADDED).st.market.snapshots| == 1
  {
    hide Run, Step, Wired, Selected, WriteMutation, AppliedOutcome, Emit, ReachesLog, TakesSnapshot, EventRefusal;
    hide EventOf, Touched, MaybeSnapshot, AfterFrame, SnapshotOf, Trimmed;
    Trades();
    OrderPasses();
    OrderRests();
    OrderWires();
    RunNext(CONFIG, TRADED, Good(3, ORDER));
    StepHandles(CONFIG, Printed(), 3, ORDER);
    OrderIsWritten();
  }

  lemma OrderWires()
    ensures Wired(CONFIG, Printed()) && EmbeddedSymbol(ORDER) == Some(SYMBOL)
  {
    hide Step;
    Trades();
    StockIsSymbol();
  }

  lemma OrderIsWritten()
    ensures Registered(Printed().market, 1) && AppliedOutcome(Printed().market, 3, ORDER).result.Applied?
    ensures var written := WriteMutation(CONFIG, Printed().market, 3, ORDER, 1);
            && written.Wrote? && written.market.learned == Announced().market.learned
            && |written.market.snapshots| == 1
  {
    hide Run, Selected, WriteMutation, Emit, TakesSnapshot, EventOf, SnapshotOf, EventRefusal, AppliedOutcome;
    var f := Good(3, ORDER);
    Trades();
    OrderPasses();
    OrderRests();
    AnnouncedSelects();
    SnapshotNeverRefused(CONFIG, TRADED, f);
    MutationIsEmit(CONFIG, Printed().market, f);
    AfterFrameLogs(CONFIG, Printed().market, f);
  }

  lemma LatestIsZero()
    ensures LatestPrint(CONFIG, ADDED, 1) == Some(PRINT)
  {
    Announces(CONFIG);
    AnnouncedSelects();
    RunFollowsStream(CONFIG, [START_FRAME]);
    assert ADDED[..2] == TRADED && TRADED[..1] == [START_FRAME];
    hide Run, Follow, Selected;
    assert Prints(CONFIG, Announced().market, Good(2, PRINT));
  }

  lemma OrderShowsZero()
    ensures !ShowsShares(CONFIG, ADDED, 2)
  {
    hide Run, LatestPrint, TakesSnapshot, ReachesLog, Follow, Printed;
    Trades();
    OrderPasses();
    LatestIsZero();
    RunFollowsStream(CONFIG, TRADED);
    assert ADDED[..2] == TRADED && ADDED[..3] == ADDED;
  }

  /** The run succeeds in strict mode and every symbol is resolved, but the snapshot that the order
      writes repeats the trade of zero shares, so the snapshot file does not validate. */
  lemma ZeroShareTradeIsShown()
    ensures ConfigOk(CONFIG) && Numbered(ADDED)
    ensures var run := Run(CONFIG, ADDED);
            && run.Next?
            && AllResolved(CONFIG.symbols, run.st.market.learned)
            && |run.st.market.snapshots| == 1
            && SlotsFill(run.st.market.snapshots, 1)
            && !AcceptsSnapshots(SnapshotRecords(run.st.market.snapshots), 1, 1)
  {
    hide Run, AllResolved, AcceptsSnapshots, SnapshotRecords, ShowsShares, SlotsFill;
    Adds();
    AnnouncedSelects();
    OrderShowsZero();
    SnapshotFileValidates(CONFIG, ADDED);
  }

  // ---------------------------------------------------------------- unprintable text

  const RESUMED: seq<Frame> := [START_FRAME] + [Good(2, RESUME)]

  lemma BellsAreText()
    ensures Trimmed(BELLS) == BELLS
  {
  }

  lemma ReasonIsWritten()
    ensures var written := WriteAction(LATER, Announced().market, 2, RESUME, 1);
            && written.Wrote? && written.market.learned == Announced().market.learned
            && written.market.events == [StateEvent(LATER, RESUME, 2, 1)]
  {
    BellsAreText();
    hide Trimmed;
    assert EncodeError(StateEvent(LATER, RESUME, 2, 1)) == None;
  }

  lemma Resumes()
    ensures Run(LATER, RESUMED).Next? && Run(LATER, RESUMED).st.market.learned == Announced().market.learned
    ensures Run(LATER, RESUMED).st.market.events == [StateEvent(LATER, RESUME, 2, 1)]
  {
    hide Trimmed, Run, Step, Wired, WriteAction, StateEvent;
    Announces(LATER);
    StockIsSymbol();
    RunNext(LATER, [START_FRAME], Good(2, RESUME));
    StepHandles(LATER, Announced(), 2, RESUME);
    ReasonIsWritten();
  }

  lemma BellsAreUnclean()
    ensures !AllClean([StateEvent(LATER, RESUME, 2, 1)])
  {
    BellsAreText();
    var events := [StateEvent(LATER, RESUME, 2, 1)];
    assert events[0].aux == Some(BELLS) && !Printable(BELLS[0]);
    assert !Clean(events[0]);
  }

  /** The run succeeds in strict mode and every symbol is resolved, but its log does not validate. */
  lemma UnprintableReasonIsRefused()
    ensures ConfigOk(LATER) && Numbered(RESUMED)
    ensures var run := Run(LATER, RESUMED);
            && run.Next?
            && AllResolved(LATER.symbols, run.st.market.learned)
            && DictionaryOf(LATER, run.st.market.learned, [1])
            && Validate(LATER, [1], RecordsOf(run.st.market.events)).None?
  {
    hide Run, Validate, AllClean, DictionaryOf, AllResolved, StateEvent;
    Resumes();
    BellsAreUnclean();
    AnnouncedSelects();
    LogReconstructsState(LATER, RESUMED, [1]);
  }
}
