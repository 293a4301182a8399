/** The replay coordinator of cpp/src/replay/replay_coordinator.cpp: one long-running object whose
    books, session, directory, policy, counters and writers are updated in place.  Each message is
    proved to take exactly the step of ReplayModel. */
module ReplayCoordinatorModule {
  import opened Types
  import opened Counting
  import opened BookModel
  import opened BookView
  import opened BookDigest
  import opened BookOutcomes
  import opened OrderBookModule
  import opened Messages
  import opened Session
  import opened InstrumentDirectoryModule
  import opened ErrorPolicyModule
  import opened EventCodec
  import opened SnapshotCodec
  import opened ReplayModel
  import opened Writers

  class ReplayCoordinator {
    const c: Config
    const directory: InstrumentDirectory
    const session: SessionState
    const policy: ErrorPolicy
    const events: EventWriter
    const snapshots: SnapshotWriter
    var books: map<U16, OrderBook>
    var mutations: map<U16, U64>
    var lastTrades: map<U16, Option<LastTrade>>
    var unresolved: set<U16>
    var tally: Tally
    var selectedEvents: U64
    var snapshotsWritten: U64

    ghost function LiveBooks(): (live: map<U16, Live>)
      reads this`books, books.Values
      ensures live.Keys == books.Keys
    {
      map l | l in books :: books[l].LiveOrders()
    }

    ghost function MarketView(): Market
      reads this`books, this`lastTrades, directory, session, events, snapshots, books.Values
    {
      Market(directory.identities, session.View(), LiveBooks(), lastTrades, events.events, snapshots.snapshots)
    }

    /** The state of the run as the step model sees it. */
    ghost function View(): Replay
      reads this`books, this`lastTrades, this`mutations, this`unresolved, this`tally
      reads directory, session, policy, events, snapshots, books.Values
    {
      Replay(MarketView(), mutations, unresolved, policy.View(), tally)
    }

    /** Each locate has its own sound book. */
    ghost predicate BooksValid()
      reads this`books, books.Values
    {
      && (forall l :: l in books ==> books[l].Valid() && books[l].locate == l)
      && (forall k, l :: k in books && l in books && k != l ==> books[k] != books[l])
    }

    ghost predicate SinksValid()
      reads this`selectedEvents, this`snapshotsWritten, events, snapshots
    {
      && events.Valid() && events.expectedSymbols == |c.symbols| && selectedEvents == events.recordCount == |events.events|
      && snapshots.Valid() && snapshots.expectedSymbols == |c.symbols| && snapshots.depth == c.depth
      && snapshotsWritten == snapshots.recordCount == |snapshots.snapshots|
    }

    /** Each part is sound on its own. */
    ghost predicate PartsValid()
      reads this`books, this`selectedEvents, this`snapshotsWritten
      reads directory, policy, events, snapshots, books.Values
    {
      && directory.Valid() && directory.requested == c.symbols
      && policy.config == c.policy
      && c.invariantInterval > 0
      && SinksValid()
      && BooksValid()
    }

    ghost predicate Valid()
      reads this, directory, session, policy, events, snapshots, books.Values
    {
      PartsValid() && Wired(c, View())
    }

    lemma PartsFacts()
      requires PartsValid()
      ensures directory.Valid() && directory.requested == c.symbols && c.invariantInterval > 0
    {
    }

    lemma BookListed(locate: U16)
      requires locate in MarketView().books
      ensures locate in books && books[locate] in books.Values
    {
    }

    constructor (config: Config)
      requires ConfigOk(config)
      ensures Valid() && c == config && View() == START
      ensures fresh(directory) && fresh(session) && fresh(policy) && fresh(events) && fresh(snapshots)
    {
      c := config;
      directory := new InstrumentDirectory(config.symbols);
      session := new SessionState();
      policy := new ErrorPolicy(config.policy);
      events := new EventWriter(|config.symbols|);
      snapshots := new SnapshotWriter(|config.symbols|, config.depth);
      books, mutations, lastTrades, unresolved := map[], map[], map[], {};
      tally := START.tally;
      selectedEvents, snapshotsWritten := 0, 0;
      new;
      assert LiveBooks() == map[];
      StartWired(config);
    }

    // ------------------------------------------------------------ writing

    /** Write the event and, when asked to, the snapshot that shows the instrument's book. */
    method Emit(e: Event, locate: U16, withSnapshot: bool, changed: bool, price: Option<U32>, quantity: Option<U64>)
      returns (error: Option<ErrorCode>)
      requires Valid() && Registered(MarketView(), locate)
      modifies this`selectedEvents, this`snapshotsWritten, events, snapshots
      ensures var s := if withSnapshot
                       then Some(SnapshotFor(c, old(MarketView()), e, locate, changed, price, quantity)) else None;
              match ReplayModel.Emit(c, old(MarketView()), e, s)
              case NotWritten(code) => error == Some(code)
              case Wrote(market) => error == None && Valid() && View() == old(View()).(market := market)
    {
      hide Wired, PartsValid, MarketView, EventRefusal, SnapshotRefusal, SnapshotFor;
      ghost var start := View();
      error := EmitEvent(e);
      if error.Some? {
        return;
      }
      if withSnapshot {
        SnapshotIgnoresLogs(c, start.market, MarketView(), e, locate, changed, price, quantity);
        error := EmitSnapshot(e, locate, changed, price, quantity);
      }
      if error.None? {
        WiredIgnoresLogs(c, start, View());
      }
    }

    method EmitEvent(e: Event) returns (error: Option<ErrorCode>)
      requires PartsValid()
      modifies this`selectedEvents, events
      ensures var a := old(MarketView());
              && error == EventRefusal(c, a.events, e)
              && (error.None? ==> PartsValid() && View() == old(View()).(market := a.(events := a.events + [e])))
    {
      hide EncodeError, BooksValid, LiveBooks, Follows, LastEvent, InstrumentDirectory.Valid, EventWriter.Valid;
      hide SnapshotWriter.Valid;
      if selectedEvents == U64_MAX {
        return Some(Internal);
      }
      error := events.WriteEvent(e);
      if error.Some? {
        return;
      }
      selectedEvents := selectedEvents + 1;
    }

    method EmitSnapshot(e: Event, locate: U16, changed: bool, price: Option<U32>, quantity: Option<U64>)
      returns (error: Option<ErrorCode>)
      requires PartsValid() && Registered(MarketView(), locate)
      modifies this`snapshotsWritten, snapshots
      ensures var a := old(MarketView());
              var s := SnapshotFor(c, a, e, locate, changed, price, quantity);
              && error == SnapshotRefusal(c, a.snapshots, s)
              && (error.None? ==> PartsValid() && View() == old(View()).(market := a.(snapshots := a.snapshots + [s])))
    {
      hide SnapshotError, SnapshotFor, BooksValid, LiveBooks, Follows, LastSnapshot, SnapshotWriter.Valid;
      hide EventWriter.Valid, InstrumentDirectory.Valid;
      if snapshotsWritten == U64_MAX {
        return Some(Internal);
      }
      var s := BuildSnapshot(e, locate, changed, price, quantity);
      error := snapshots.WriteSnapshot(s);
      if error.Some? {
        return;
      }
      snapshotsWritten := snapshotsWritten + 1;
    }

    method BuildSnapshot(e: Event, locate: U16, changed: bool, price: Option<U32>, quantity: Option<U64>)
      returns (s: Snapshot)
      requires PartsValid() && Registered(MarketView(), locate)
      ensures s == SnapshotFor(c, MarketView(), e, locate, changed, price, quantity)
    {
      hide PartsValid, TopOf;
      var trade := lastTrades[locate];
      var top := TopOfBook(locate);
      s := Snapshot(e.index, e.timestamp, e.symbolId, e.kind, changed, price, quantity,
                    if trade.Some? then Some(trade.value.price) else None,
                    if trade.Some? then Some(trade.value.quantity) else None,
                    session.states[locate], top);
    }

    // ------------------------------------------------------------ messages of a selected instrument

    method HandleAction(index: U64, m: Message, id: U16) returns (error: Option<ErrorCode>)
      requires Valid() && m.Action? && Registered(MarketView(), m.locate)
      modifies this`selectedEvents, this`snapshotsWritten, session, events, snapshots
      ensures match WriteAction(c, old(MarketView()), index, m, id)
              case NotWritten(code) => error == Some(code)
              case Wrote(market) => error == None && Valid() && View() == old(View()).(market := market)
    {
      hide Wired, BooksValid, SinksValid, LiveBooks, InstrumentDirectory.Valid, ReplayModel.Emit, StateEvent, SnapshotFor;
      ghost var start := View();
      var changed;
      error, changed := session.ApplyAction(m.locate, m.state);
      if error.Some? {
        return;
      }
      WiredIgnoresLogs(c, start, View());
      assert Valid();
      var e := StateEvent(c, m, index, id);
      error := Emit(e, m.locate, InSession(c, m.timestamp) && changed, false, None, None);
    }

    method HandlePrint(index: U64, m: Message, id: U16) returns (error: Option<ErrorCode>)
      requires Valid() && (m.Trade? || m.Cross? || m.Broken?) && Registered(MarketView(), m.locate)
      modifies this`lastTrades, this`selectedEvents, this`snapshotsWritten, events, snapshots
      ensures match WritePrint(c, old(MarketView()), index, m, id)
              case NotWritten(code) => error == Some(code)
              case Wrote(market) => error == None && Valid() && View() == old(View()).(market := market)
    {
      hide Wired, BooksValid, SinksValid, LiveBooks, InstrumentDirectory.Valid, ReplayModel.Emit, PrintEvent, SnapshotFor;
      ghost var start := View();
      if !m.Broken? {
        lastTrades := lastTrades[m.locate := Some(LastTrade(m.price, m.shares))];
      }
      WiredIgnoresLogs(c, start, View());
      assert Valid();
      var e := PrintEvent(c, m, index, id);
      var wanted := !m.Broken? && InSession(c, m.timestamp) && c.emitUnchanged &&
                       MayTrade(c, session.View(), m.locate);
      error := Emit(e, m.locate, wanted, false, e.price, e.quantity);
    }

    /** The book takes the message or the error policy decides what a rejection means. */
    method HandleBook(index: U64, m: Message, id: U16) returns (error: Option<ErrorCode>)
      requires Valid() && BookMessageOf(m, index).Some? && Registered(MarketView(), m.locate) && m.locate in mutations
      modifies this`mutations, this`selectedEvents, this`snapshotsWritten, policy, events, snapshots, books.Values
      ensures books == old(books)
      ensures match ReplayModel.HandleBook(c, old(View()), index, m, id)
              case Halt(code) => error == Some(code)
              case Next(st) => error == None && Valid() && View() == st
    {
      hide Wired, BooksValid, SinksValid, LiveBooks, InstrumentDirectory.Valid, WriteMutation, BookMessageOf, Apply;
      hide TopOf, DecisionOf, Observed, SafelySkippable, PartsValid, MarketView;
      var message := BookMessageOf(m, index).value;
      ghost var start := View();
      var before := TopOfBook(m.locate);
      BookListed(m.locate);
      var applied := ApplyToBook(m.locate, message);
      if applied.Rejected? {
        RejectionIsSkippable(start.market.books[m.locate], m.locate, message);
        assert start.market.books[m.locate := start.market.books[m.locate]] == start.market.books;
        error := HandleRejection(applied.code);
        return;
      }
      WiredIgnoresLogs(c, start, View());
      assert Valid();
      error := HandleMutation(index, m, id, applied.delta, before, start);
    }

    /** Count the mutation, check the book from time to time, and record what changed. */
    method HandleMutation(index: U64, m: Message, id: U16, delta: BookDelta, before: TopLevels, ghost start: Replay)
      returns (error: Option<ErrorCode>)
      requires Valid() && BookMessageOf(m, index).Some? && Registered(MarketView(), m.locate) && m.locate in mutations
      requires Registered(start.market, m.locate) && AppliedOutcome(start.market, index, m).result == Applied(delta)
      requires View() == start.(market := start.market.(
                 books := start.market.books[m.locate := AppliedOutcome(start.market, index, m).live]))
      requires before == TopOf(start.market.books[m.locate], c.depth)
      modifies this`mutations, this`selectedEvents, this`snapshotsWritten, events, snapshots
      ensures if start.mutations[m.locate] == U64_MAX then error == Some(Internal)
              else match WriteMutation(c, start.market, index, m, id)
                   case NotWritten(code) => error == Some(code)
                   case Wrote(market) =>
                     && error == None && Valid()
                     && View() == start.(market := market,
                                         mutations := start.mutations[m.locate := start.mutations[m.locate] + 1])
    {
      hide Wired, BooksValid, SinksValid, LiveBooks, InstrumentDirectory.Valid, WriteMutation, AppliedOutcome, TopOf;
      hide BookMessageOf, PartsValid, MarketView;
      ghost var reached := View();
      PartsFacts();
      if mutations[m.locate] == U64_MAX {
        return Some(Internal);
      }
      mutations := mutations[m.locate := mutations[m.locate] + 1];
      if mutations[m.locate] % c.invariantInterval == 0 {
        CheckBook(m.locate);
      }
      WiredIgnoresLogs(c, reached, View());
      assert Valid();
      var after := TopOfBook(m.locate);
      error := RecordMutation(index, m, id, delta, before != after, start);
    }

    method HandleRejection(code: ErrorCode) returns (error: Option<ErrorCode>)
      requires Valid()
      modifies policy
      ensures var decision := DecisionOf(c.policy, old(policy.View()), FromBookApply, code);
              if decision.overflow then error == Some(Internal)
              else if decision.disposition == SkipMessage then
                && error == None && Valid()
                && View() == old(View()).(policy := Observed(c.policy, old(policy.View()), FromBookApply, code))
              else error == Some(code)
    {
      hide Wired, BooksValid, SinksValid, LiveBooks, InstrumentDirectory.Valid;
      ghost var start := View();
      var decision := policy.Observe(FromBookApply, code);
      if decision.overflow {
        return Some(Internal);
      }
      if decision.disposition == SkipMessage {
        WiredIgnoresLogs(c, start, View());
        return None;
      }
      error := Some(code);
    }

    method RecordMutation(index: U64, m: Message, id: U16, delta: BookDelta, topChanged: bool, ghost start: Replay)
      returns (error: Option<ErrorCode>)
      requires Valid() && BookMessageOf(m, index).Some? && Registered(MarketView(), m.locate)
      requires Registered(start.market, m.locate) && AppliedOutcome(start.market, index, m).result == Applied(delta)
      requires MarketView() == start.market.(
                 books := start.market.books[m.locate := AppliedOutcome(start.market, index, m).live])
      requires topChanged <==> TopOf(start.market.books[m.locate], c.depth) != TopOf(MarketView().books[m.locate], c.depth)
      modifies this`selectedEvents, this`snapshotsWritten, events, snapshots
      ensures match WriteMutation(c, start.market, index, m, id)
              case NotWritten(code) => error == Some(code)
              case Wrote(market) => error == None && Valid() && View() == old(View()).(market := market)
    {
      hide Valid, AppliedOutcome, BookMessageOf, BookEvent, TopOf, ReplayModel.Emit, SnapshotFor, LiveBooks;
      var e := BookEvent(c, m, index, id, delta);
      var price := if MessagePrice(m).Some? then MessagePrice(m) else Some(delta.price);
      var wanted := InSession(c, m.timestamp) && topChanged && MayTrade(c, session.View(), m.locate);
      error := Emit(e, m.locate, wanted, true, price, e.quantity);
    }

    method TopOfBook(locate: U16) returns (top: TopLevels)
      requires PartsValid() && locate in MarketView().books
      ensures top == TopOf(MarketView().books[locate], c.depth)
    {
      hide Top, OrderBook.Valid, SinksValid, InstrumentDirectory.Valid;
      top := books[locate].TopLevels(c.depth);
      assert books[locate].Valid();
    }

    /** The periodic invariant check: on a sound book its report is clean, so the source's failure
        branch is never taken. */
    method CheckBook(locate: U16)
      requires PartsValid() && locate in MarketView().books
    {
      hide OrderBook.Valid, SinksValid, InstrumentDirectory.Valid;
      assert books[locate].Valid();
      var report := books[locate].CheckInvariants();
      assert report.violations == [];
    }

    method ApplyToBook(locate: U16, message: BookMessage) returns (result: ApplyResult)
      requires PartsValid() && locate in MarketView().books
      modifies books[locate]
      ensures PartsValid()
      ensures var a := old(MarketView());
              var out := Apply(a.books[locate], locate, message);
              && result == out.result
              && View() == old(View()).(market := a.(books := a.books[locate := out.live]))
    {
      hide OrderBook.Valid, Apply, SinksValid, InstrumentDirectory.Valid;
      assert books[locate].Valid();
      result := books[locate].Apply(message);
      forall l | l in books
        ensures books[l].Valid() && books[l].locate == l
        ensures l != locate ==> books[l].LiveOrders() == old(books[l].LiveOrders())
      {
        if l != locate {
          assert books[l] != books[locate];
        }
      }
    }

    // ------------------------------------------------------------ routing

    method Handle(index: U64, m: Message, id: U16) returns (error: Option<ErrorCode>)
      requires Valid() && Registered(MarketView(), m.locate) && m.locate in mutations && ConcernsMarket(m)
      modifies this`mutations, this`lastTrades, this`selectedEvents, this`snapshotsWritten
      modifies session, policy, events, snapshots, books.Values
      ensures books == old(books)
      ensures match ReplayModel.Handle(c, old(View()), index, m, id)
              case Halt(code) => error == Some(code)
              case Next(st) => error == None && Valid() && View() == st
    {
      hide Valid, WriteAction, WritePrint, ReplayModel.HandleBook, BookMessageOf;
      if m.Action? {
        error := HandleAction(index, m, id);
      } else if BookMessageOf(m, index).Some? {
        error := HandleBook(index, m, id);
      } else {
        assert m.Trade? || m.Cross? || m.Broken? by {
          PrintsRemain(m, index);
        }
        error := HandlePrint(index, m, id);
      }
    }

    method HandleSystem(m: Message) returns (error: Option<ErrorCode>)
      requires Valid() && m.System?
      modifies this`tally, session
      ensures match ReplayModel.HandleSystem(old(View()), m)
              case Halt(code) => error == Some(code)
              case Next(st) => error == None && Valid() && View() == st
    {
      hide Wired, BooksValid, SinksValid, LiveBooks, InstrumentDirectory.Valid, AfterPhase;
      ghost var start := View();
      error := session.ApplySystem(m.locate, m.code);
      if error.Some? {
        return;
      }
      if tally.system == U64_MAX {
        return Some(Internal);
      }
      tally := tally.(system := tally.system + 1);
      WiredIgnoresLogs(c, start, View());
    }

    method HandleFiltered(m: Message) returns (error: Option<ErrorCode>)
      requires Valid()
      modifies this`tally, this`unresolved
      ensures match ReplayModel.HandleFiltered(c, old(View()), m)
              case Halt(code) => error == Some(code)
              case Next(st) => error == None && Valid() && View() == st
    {
      hide Wired, PartsValid, LiveBooks, EmbeddedSymbol;
      ghost var start := View();
      var symbol := EmbeddedSymbol(m);
      if symbol.Some? && symbol.value in c.symbols {
        return Some(if m.locate in directory.identities then Invariant else UnknownSymbol);
      }
      if m.locate !in directory.identities {
        unresolved := unresolved + {m.locate};
      }
      if tally.filtered == U64_MAX {
        return Some(Internal);
      }
      tally := tally.(filtered := tally.filtered + 1);
      WiredIgnoresLogs(c, start, View());
      error := None;
    }

    method HandleDirectory(m: Message) returns (error: Option<ErrorCode>)
      requires Valid() && m.Directory?
      modifies this`tally, this`books, this`mutations, this`lastTrades, directory, session
      ensures fresh(books.Values - old(books.Values))
      ensures match ReplayModel.HandleDirectory(c, old(View()), m)
              case Halt(code) => error == Some(code)
              case Next(st) => error == None && Valid() && View() == st
    {
      hide Wired, BooksValid, SinksValid, LiveBooks, InstrumentDirectory.Valid, DirectoryRefused, Selected, AfterDirectory;
      hide AfterRegister, InitialState, ReplayModel.HandleDirectory, Announce;
      ghost var start := View();
      assert |c.symbols| <= U16_MAX && AnnounceNeeds(c, start, m) by {
        AnnounceFacts(c, start, m);
      }
      DirectoryCases(c, start, m);
      var resolved;
      error, resolved := directory.Apply(m);
      if error.Some? {
        return;
      }
      if tally.directory == U64_MAX {
        return Some(Internal);
      }
      tally := tally.(directory := tally.directory + 1);
      error := OpenResolved(m, resolved, start);
    }

    /** The record was learned; if it resolved a requested symbol, the instrument is opened. */
    method OpenResolved(m: Message, resolved: Option<Instrument>, ghost start: Replay) returns (error: Option<ErrorCode>)
      requires PartsValid() && m.Directory? && Wired(c, start) && !DirectoryRefused(start.market.learned, m)
      requires start.tally.directory < U64_MAX && resolved == Resolution(c, start, m)
      requires View() == start.(market := start.market.(learned := AfterDirectory(start.market.learned, m)),
                                tally := start.tally.(directory := start.tally.directory + 1))
      modifies this`books, this`mutations, this`lastTrades, session
      ensures fresh(books.Values - old(books.Values))
      ensures match ReplayModel.HandleDirectory(c, start, m)
              case Halt(code) => error == Some(code)
              case Next(st) => error == None && Valid() && View() == st
    {
      hide Wired, BooksValid, SinksValid, LiveBooks, InstrumentDirectory.Valid, DirectoryRefused, Selected, AfterDirectory;
      hide AfterRegister, ReplayModel.HandleDirectory, Announce, Resolution;
      AnnounceFacts(c, start, m);
      DirectoryCases(c, start, m);
      if resolved.Some? {
        if m.locate in unresolved {
          return Some(UnknownSymbol);
        }
        AnnouncedIsNew(c, start, m);
        Resolve(m);
      }
      DirectoryNext(c, start, m);
      AnnounceWired(c, start, m);
      error := None;
    }

    /** A requested symbol was announced for the first time: give it a state, a book and counters. */
    method Resolve(m: Message)
      requires m.Directory? && m.locate != 0 && m.locate !in books && BooksValid()
      modifies this`books, this`mutations, this`lastTrades, session
      ensures BooksValid() && fresh(books.Values - old(books.Values))
      ensures var a := old(View()).market;
              View() == old(View()).(market := a.(session := AfterRegister(a.session, m.locate),
                                                  books := a.books[m.locate := map[]],
                                                  lastTrades := a.lastTrades[m.locate := None]),
                                     mutations := old(mutations)[m.locate := 0])
    {
      hide BooksValid, LiveBooks, AfterRegister;
      // Directory records with locate zero were refused before, so registration cannot fail.
      var error := session.RegisterInstrument(m.locate);
      assert error == None;
      OpenBook(m.locate);
      mutations := mutations[m.locate := 0];
      lastTrades := lastTrades[m.locate := None];
    }

    method OpenBook(locate: U16)
      requires BooksValid() && locate !in books
      modifies this`books
      ensures BooksValid() && fresh(books.Values - old(books.Values))
      ensures LiveBooks() == old(LiveBooks())[locate := map[]]
    {
      hide OrderBook.Valid;
      var book := new OrderBook(locate);
      books := books[locate := book];
    }

    method HandleSelected(index: U64, m: Message, instrument: Instrument) returns (error: Option<ErrorCode>)
      requires Valid() && Registered(MarketView(), m.locate) && m.locate in mutations && !m.System? && !m.Directory?
      modifies this`mutations, this`lastTrades, this`selectedEvents, this`snapshotsWritten, this`tally
      modifies session, policy, events, snapshots, books.Values
      ensures books == old(books)
      ensures match ReplayModel.HandleSelected(c, old(View()), index, m, instrument)
              case Halt(code) => error == Some(code)
              case Next(st) => error == None && Valid() && View() == st
    {
      hide Wired, PartsValid, MarketView, EmbeddedSymbol, SourceType, Count, Bump;
      hide ReplayModel.Handle;
      ghost var start := View();
      if tally.selected == U64_MAX || Count(tally.selectedByType, SourceType(m)) == U64_MAX {
        return Some(Internal);
      }
      tally := tally.(selected := tally.selected + 1, selectedByType := Bump(tally.selectedByType, SourceType(m)));
      WiredIgnoresLogs(c, start, View());
      assert Valid();
      var symbol := EmbeddedSymbol(m);
      if symbol.Some? && symbol.value != instrument.identity.symbol {
        return Some(Invariant);
      }
      if m.Ignored? {
        return None;
      }
      if m.timestamp >= c.sessionEnd {
        return None;
      }
      error := Handle(index, m, instrument.id);
    }

    /** One frame of the source. */
    method Step(f: Frame) returns (error: Option<ErrorCode>)
      requires Valid()
      modifies this, directory, session, policy, events, snapshots, books.Values
      ensures fresh(books.Values - old(books.Values))
      ensures match ReplayModel.Step(c, old(View()), f)
              case Halt(code) => error == Some(code)
              case Next(st) => error == None && Valid() && View() == st
    {
      hide Wired, PartsValid, MarketView, Dispatch, SourceType, Count, Bump;
      hide DecisionOf, Observed;
      ghost var start := View();
      if tally.processed == U64_MAX {
        return Some(Internal);
      }
      tally := tally.(processed := tally.processed + 1);
      WiredIgnoresLogs(c, start, View());
      assert Valid();
      match f
      case Bad(_, code) => error := SkipFrame(code);
      case Good(index, m) => error := TakeMessage(index, m);
    }

    /** A frame that did not decode. */
    method SkipFrame(code: ErrorCode) returns (error: Option<ErrorCode>)
      requires Valid()
      modifies this`tally, policy
      ensures var start, decision := old(View()), DecisionOf(c.policy, old(policy.View()), FromDecoder, code);
              if decision.overflow then error == Some(Internal)
              else if decision.disposition != SkipMessage then error == Some(code)
              else if start.tally.skippedDecode == U64_MAX then error == Some(Internal)
              else
                && error == None && Valid()
                && View() == start.(policy := Observed(c.policy, start.policy, FromDecoder, code),
                                    tally := start.tally.(skippedDecode := start.tally.skippedDecode + 1))
    {
      hide Wired, BooksValid, SinksValid, LiveBooks, InstrumentDirectory.Valid, DecisionOf, Observed;
      ghost var start := View();
      var decision := policy.Observe(FromDecoder, code);
      if decision.overflow {
        return Some(Internal);
      }
      if decision.disposition != SkipMessage {
        return Some(code);
      }
      if tally.skippedDecode == U64_MAX {
        return Some(Internal);
      }
      tally := tally.(skippedDecode := tally.skippedDecode + 1);
      WiredIgnoresLogs(c, start, View());
      error := None;
    }

    /** A decoded message is counted and routed. */
    method TakeMessage(index: U64, m: Message) returns (error: Option<ErrorCode>)
      requires Valid()
      modifies this, directory, session, policy, events, snapshots, books.Values
      ensures fresh(books.Values - old(books.Values))
      ensures var start := old(View());
              if start.tally.decoded == U64_MAX || Count(start.tally.allByType, SourceType(m)) == U64_MAX then
                error == Some(Internal)
              else
                match Dispatch(c, start.(tally := start.tally.(decoded := start.tally.decoded + 1,
                                                               allByType := Bump(start.tally.allByType, SourceType(m)))),
                               index, m)
                case Halt(code) => error == Some(code)
                case Next(st) => error == None && Valid() && View() == st
    {
      hide Wired, PartsValid, MarketView, Dispatch, SourceType, Count, Bump;
      ghost var start := View();
      if tally.decoded == U64_MAX || Count(tally.allByType, SourceType(m)) == U64_MAX {
        return Some(Internal);
      }
      tally := tally.(decoded := tally.decoded + 1, allByType := Bump(tally.allByType, SourceType(m)));
      WiredIgnoresLogs(c, start, View());
      assert Valid();
      error := Route(index, m);
    }

    method Route(index: U64, m: Message) returns (error: Option<ErrorCode>)
      requires Valid()
      modifies this, directory, session, policy, events, snapshots, books.Values
      ensures fresh(books.Values - old(books.Values))
      ensures match Dispatch(c, old(View()), index, m)
              case Halt(code) => error == Some(code)
              case Next(st) => error == None && Valid() && View() == st
    {
      hide Wired, PartsValid, MarketView, Selected, InstrumentDirectory.Valid, ReplayModel.HandleSystem;
      hide ReplayModel.HandleDirectory, ReplayModel.HandleFiltered, ReplayModel.HandleSelected;
      if m.System? {
        error := HandleSystem(m);
      } else if m.Directory? {
        error := HandleDirectory(m);
      } else {
        PartsFacts();
        KnownIdentities();
        var instrument := directory.SelectedByLocate(m.locate);
        if instrument.None? {
          error := HandleFiltered(m);
        } else {
          SelectedIsRegistered(c, View(), m.locate);
          error := HandleSelected(index, m, instrument.value);
        }
      }
    }

    lemma KnownIdentities()
      ensures MarketView().learned == directory.identities
    {
    }
  }

  lemma PrintsRemain(m: Message, index: U64)
    requires ConcernsMarket(m) && !m.Action? && BookMessageOf(m, index).None?
    ensures m.Trade? || m.Cross? || m.Broken?
  {
  }

  lemma SelectedIsRegistered(c: Config, st: Replay, l: U16)
    requires Wired(c, st) && Selected(c.symbols, st.market.learned, l).Some?
    ensures Registered(st.market, l) && l in st.mutations
  {
    hide Selected, OneToOne;
  }

  /** A locate that is about to be announced has no book yet, and is not the global locate. */
  ghost predicate AnnounceNeeds(c: Config, st: Replay, m: Message)
    requires m.Directory?
  {
    && (!DirectoryRefused(st.market.learned, m) ==> m.locate != 0)
    && (m.locate !in st.market.learned ==> m.locate !in st.market.books)
  }

  lemma AnnouncedIsNew(c: Config, st: Replay, m: Message)
    requires Wired(c, st) && m.Directory? && !DirectoryRefused(st.market.learned, m) && Resolution(c, st, m).Some?
    ensures m.locate != 0 && m.locate !in st.market.books
  {
    AnnounceFacts(c, st, m);
  }

  lemma AnnounceFacts(c: Config, st: Replay, m: Message)
    requires Wired(c, st) && m.Directory?
    ensures |c.symbols| <= U16_MAX && AnnounceNeeds(c, st, m)
  {
  }

  lemma SnapshotIgnoresLogs(c: Config, a: Market, b: Market, e: Event, locate: U16, changed: bool,
                            price: Option<U32>, quantity: Option<U64>)
    requires Registered(a, locate) && b.books == a.books && b.lastTrades == a.lastTrades && b.session == a.session
    ensures SnapshotFor(c, b, e, locate, changed, price, quantity) ==
            SnapshotFor(c, a, e, locate, changed, price, quantity)
  {
  }

  /** Wiring is about the directory, the books and the session only. */
  lemma WiredIgnoresLogs(c: Config, st: Replay, st': Replay)
    requires Wired(c, st)
    requires st'.mutations.Keys == st.mutations.Keys
    requires st'.market.learned == st.market.learned && st'.market.books.Keys == st.market.books.Keys
    requires st'.market.lastTrades.Keys == st.market.lastTrades.Keys
    requires st'.market.session.states.Keys == st.market.session.states.Keys
    ensures Wired(c, st')
  {
    hide OneToOne, Selected;
  }
}
