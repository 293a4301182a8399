/** The replay as a state machine over plain books: what one frame does to the directory, the
    session, the books, the counters and the two output logs.  ReplayCoordinator.dfy proves that
    the in-place coordinator takes exactly these steps. */
module ReplayModel {
  import opened Types
  import opened BookModel
  import opened BookView
  import opened Messages
  import opened Session
  import opened InstrumentDirectoryModule
  import opened ErrorPolicyModule
  import opened Counting
  import opened EventCodec
  import opened SnapshotCodec

  datatype Config = Config(
    symbols: seq<Bytes>,
    sessionStart: U64,
    sessionEnd: U64,
    requireTradingState: bool,
    depth: U16,
    emitUnchanged: bool,
    policy: PolicyConfig,
    invariantInterval: U64)

  predicate ConfigOk(c: Config) {
    1 <= |c.symbols| <= U16_MAX && c.invariantInterval > 0
  }

  predicate InSession(c: Config, timestamp: U64) {
    c.sessionStart <= timestamp < c.sessionEnd
  }

  /** A frame of the source, after decoding. */
  datatype Frame = Good(index: U64, message: Message) | Bad(index: U64, code: ErrorCode)

  datatype LastTrade = LastTrade(price: U32, quantity: U64)

  datatype Tally = Tally(
    processed: U64,
    decoded: U64,
    skippedDecode: U64,
    system: U64,
    directory: U64,
    selected: U64,
    filtered: U64,
    allByType: map<U8, U64>,
    selectedByType: map<U8, U64>)

  /** What the replay knows about the market and what it has written. */
  datatype Market = Market(
    learned: Learned,
    session: SessionView,
    books: map<U16, Live>,
    lastTrades: map<U16, Option<LastTrade>>,
    events: seq<Event>,
    snapshots: seq<Snapshot>)

  datatype Replay = Replay(
    market: Market,
    mutations: map<U16, U64>,
    unresolved: set<U16>,
    policy: PolicyView,
    tally: Tally)

  const EMPTY_MARKET: Market := Market(map[], SessionView(None, map[]), map[], map[], [], [])

  const START: Replay := Replay(EMPTY_MARKET, map[], {}, FRESH_POLICY, Tally(0, 0, 0, 0, 0, 0, 0, map[], map[]))

  datatype WriteResult = Wrote(market: Market) | NotWritten(code: ErrorCode)

  datatype StepResult = Next(st: Replay) | Halt(code: ErrorCode)

  // ---------------------------------------------------------------- the output logs

  function LastEvent(events: seq<Event>): Option<Position> {
    if events == [] then None
    else Some(Position(events[|events| - 1].index, events[|events| - 1].timestamp))
  }

  function LastSnapshot(snapshots: seq<Snapshot>): Option<Position> {
    if snapshots == [] then None
    else Some(Position(snapshots[|snapshots| - 1].index, snapshots[|snapshots| - 1].timestamp))
  }

  function EventRefusal(c: Config, events: seq<Event>, e: Event): Option<ErrorCode> {
    if |events| >= U64_MAX then Some(Internal)
    else if !Follows(e.index, e.timestamp, LastEvent(events)) then Some(Invariant)
    else if e.symbolId > |c.symbols| then Some(Invariant)
    else EncodeError(e)
  }

  function SnapshotRefusal(c: Config, snapshots: seq<Snapshot>, s: Snapshot): Option<ErrorCode> {
    if |snapshots| >= U64_MAX then Some(Internal)
    else if !Follows(s.index, s.timestamp, LastSnapshot(snapshots)) then Some(Invariant)
    else if s.symbolId > |c.symbols| then Some(Invariant)
    else SnapshotError(s, c.depth)
  }

  /** Write the event and then, if there is one, the snapshot. */
  function Emit(c: Config, a: Market, e: Event, s: Option<Snapshot>): WriteResult {
    if EventRefusal(c, a.events, e).Some? then NotWritten(EventRefusal(c, a.events, e).value)
    else
      var written := a.(events := a.events + [e]);
      if s.None? then Wrote(written)
      else if SnapshotRefusal(c, a.snapshots, s.value).Some? then NotWritten(SnapshotRefusal(c, a.snapshots, s.value).value)
      else Wrote(written.(snapshots := a.snapshots + [s.value]))
  }

  // ---------------------------------------------------------------- building the records

  function BookMessageOf(m: Message, index: U64): Option<BookMessage> {
    match m
    case AddOrder(l, _, r, side, shares, _, price) => Some(Add(index, l, r, side, shares, price, None))
    case AddAttributed(l, _, r, side, shares, _, price, a) => Some(Add(index, l, r, side, shares, price, Some(a)))
    case Executed(l, _, r, shares, _) => Some(Execute(index, l, r, shares))
    case ExecutedPrice(l, _, r, shares, _, _) => Some(Execute(index, l, r, shares))
    case CancelOrder(l, _, r, shares) => Some(Cancel(index, l, r, shares))
    case DeleteOrder(l, _, r) => Some(Delete(index, l, r))
    case ReplaceOrder(l, _, r, n, shares, price) => Some(Replace(index, l, r, n, shares, price))
    case _ => None
  }

  function KindOfMessage(m: Message): EventKind {
    match m
    case AddOrder(_, _, _, _, _, _, _) => AddEvent
    case AddAttributed(_, _, _, _, _, _, _, _) => AddEvent
    case Executed(_, _, _, _, _) => ExecuteEvent
    case ExecutedPrice(_, _, _, _, _, _) => ExecutePriceEvent
    case CancelOrder(_, _, _, _) => CancelEvent
    case DeleteOrder(_, _, _) => DeleteEvent
    case ReplaceOrder(_, _, _, _, _, _) => ReplaceEvent
    case Trade(_, _, _, _, _, _, _, _) => TradeEvent
    case Cross(_, _, _, _, _, _, _) => CrossEvent
    case Broken(_, _, _) => BrokenTradeEvent
    case _ => TradingStateEvent
  }

  function PrimaryOf(m: Message): Option<U64> {
    match m
    case AddOrder(_, _, r, _, _, _, _) => Some(r)
    case AddAttributed(_, _, r, _, _, _, _, _) => Some(r)
    case Executed(_, _, r, _, _) => Some(r)
    case ExecutedPrice(_, _, r, _, _, _) => Some(r)
    case CancelOrder(_, _, r, _) => Some(r)
    case DeleteOrder(_, _, r) => Some(r)
    case ReplaceOrder(_, _, r, _, _, _) => Some(r)
    case Trade(_, _, r, _, _, _, _, _) => Some(r)
    case Broken(_, _, n) => Some(n)
    case _ => None
  }

  function SecondaryOf(m: Message): Option<U64> {
    match m
    case Executed(_, _, _, _, n) => Some(n)
    case ExecutedPrice(_, _, _, _, n, _) => Some(n)
    case ReplaceOrder(_, _, _, n, _, _) => Some(n)
    case Trade(_, _, _, _, _, _, _, n) => Some(n)
    case Cross(_, _, _, _, _, n, _) => Some(n)
    case _ => None
  }

  /** The price that the message itself carries for the event, if any. */
  function MessagePrice(m: Message): Option<U32> {
    match m
    case AddOrder(_, _, _, _, _, _, price) => Some(price)
    case AddAttributed(_, _, _, _, _, _, price, _) => Some(price)
    case ReplaceOrder(_, _, _, _, _, price) => Some(price)
    case Trade(_, _, _, _, _, _, price, _) => Some(price)
    case Cross(_, _, _, _, price, _, _) => Some(price)
    case _ => None
  }

  function MessageQuantity(m: Message): Option<U64> {
    match m
    case AddOrder(_, _, _, _, shares, _, _) => Some(shares)
    case AddAttributed(_, _, _, _, shares, _, _, _) => Some(shares)
    case Executed(_, _, _, shares, _) => Some(shares)
    case ExecutedPrice(_, _, _, shares, _, _) => Some(shares)
    case CancelOrder(_, _, _, shares) => Some(shares)
    case ReplaceOrder(_, _, _, _, shares, _) => Some(shares)
    case Trade(_, _, _, _, shares, _, _, _) => Some(shares)
    case Cross(_, _, shares, _, _, _, _) => Some(shares)
    case _ => None
  }

  function BookEvent(c: Config, m: Message, index: U64, id: U16, delta: BookDelta): Event {
    Event(index, m.timestamp, id, KindOfMessage(m), SourceType(m), PrimaryOf(m), SecondaryOf(m),
          Some(delta.side), Some(delta.price),
          if m.ExecutedPrice? then Some(m.price) else None,
          if MessageQuantity(m).None? && delta.kind == DeleteKind then Some(delta.previousRemaining)
          else MessageQuantity(m),
          Some(delta.remaining),
          if m.AddAttributed? then Some(Trimmed(m.attribution)) else None,
          None, InSession(c, m.timestamp))
  }

  function StateEvent(c: Config, m: Message, index: U64, id: U16): Event
    requires m.Action?
  {
    var reason := Trimmed(m.reason);
    Event(index, m.timestamp, id, TradingStateEvent, SourceType(m), None, None, None, None, None, None, None,
          if reason == [] then None else Some(reason), Some(m.state), InSession(c, m.timestamp))
  }

  /** Trades, crosses and broken trades leave the visible book alone. */
  function PrintEvent(c: Config, m: Message, index: U64, id: U16): Event {
    Event(index, m.timestamp, id, KindOfMessage(m), SourceType(m), PrimaryOf(m), SecondaryOf(m),
          if m.Trade? then Some(m.side) else None,
          MessagePrice(m), None, MessageQuantity(m), None, None,
          if m.Cross? then Some(m.crossType) else None, InSession(c, m.timestamp))
  }

  ghost function TopOf(live: Live, depth: U16): TopLevels {
    if TotalsFit(live) then Top(live, depth) else BestLevels([], [])
  }

  ghost predicate Registered(a: Market, locate: U16) {
    locate in a.books && locate in a.lastTrades && locate in a.session.states
  }

  ghost function SnapshotFor(c: Config, a: Market, e: Event, locate: U16, changed: bool, price: Option<U32>,
                             quantity: Option<U64>): Snapshot
    requires Registered(a, locate)
  {
    var trade := a.lastTrades[locate];
    Snapshot(e.index, e.timestamp, e.symbolId, e.kind, changed, price, quantity,
             if trade.Some? then Some(trade.value.price) else None,
             if trade.Some? then Some(trade.value.quantity) else None,
             a.session.states[locate], TopOf(a.books[locate], c.depth))
  }

  predicate MayTrade(c: Config, session: SessionView, locate: U16) {
    !c.requireTradingState || Tradable(session, locate)
  }

  // ---------------------------------------------------------------- messages of a selected instrument

  ghost function WriteAction(c: Config, a: Market, index: U64, m: Message, id: U16): WriteResult
    requires m.Action? && Registered(a, m.locate)
  {
    if ActionRefused(a.session, m.locate, m.state) then NotWritten(Invariant)
    else
      var session := AfterAction(a.session, m.locate, m.state);
      var next := a.(session := session);
      var e := StateEvent(c, m, index, id);
      var changed := a.session.states[m.locate] != session.states[m.locate];
      Emit(c, next, e,
           if InSession(c, m.timestamp) && changed then Some(SnapshotFor(c, next, e, m.locate, false, None, None))
           else None)
  }

  ghost function AppliedOutcome(a: Market, index: U64, m: Message): Outcome
    requires BookMessageOf(m, index).Some? && m.locate in a.books
  {
    Apply(a.books[m.locate], m.locate, BookMessageOf(m, index).value)
  }

  /** After the book accepted the message. */
  ghost function WriteMutation(c: Config, a: Market, index: U64, m: Message, id: U16): WriteResult
    requires BookMessageOf(m, index).Some? && Registered(a, m.locate)
    requires AppliedOutcome(a, index, m).result.Applied?
  {
    var out := AppliedOutcome(a, index, m);
    var delta := out.result.delta;
    var next := a.(books := a.books[m.locate := out.live]);
    var e := BookEvent(c, m, index, id, delta);
    var price := if MessagePrice(m).Some? then MessagePrice(m) else Some(delta.price);
    Emit(c, next, e,
         if InSession(c, m.timestamp) && TopOf(a.books[m.locate], c.depth) != TopOf(out.live, c.depth) &&
            MayTrade(c, a.session, m.locate)
         then Some(SnapshotFor(c, next, e, m.locate, true, price, e.quantity))
         else None)
  }

  ghost function WritePrint(c: Config, a: Market, index: U64, m: Message, id: U16): WriteResult
    requires (m.Trade? || m.Cross? || m.Broken?) && Registered(a, m.locate)
  {
    var next := if m.Broken? then a
                else a.(lastTrades := a.lastTrades[m.locate := Some(LastTrade(m.price, m.shares))]);
    var e := PrintEvent(c, m, index, id);
    Emit(c, next, e,
         if !m.Broken? && InSession(c, m.timestamp) && c.emitUnchanged && MayTrade(c, a.session, m.locate)
         then Some(SnapshotFor(c, next, e, m.locate, false, e.price, e.quantity))
         else None)
  }

  ghost function Resume(st: Replay, written: WriteResult): StepResult {
    match written
    case Wrote(market) => Next(st.(market := market))
    case NotWritten(code) => Halt(code)
  }

  ghost function HandleBook(c: Config, st: Replay, index: U64, m: Message, id: U16): StepResult
    requires BookMessageOf(m, index).Some? && Registered(st.market, m.locate) && m.locate in st.mutations
  {
    match AppliedOutcome(st.market, index, m).result
    case Rejected(code, _) =>
      var decision := DecisionOf(c.policy, st.policy, FromBookApply, code);
      if decision.overflow then Halt(Internal)
      else if decision.disposition == SkipMessage then
        Next(st.(policy := Observed(c.policy, st.policy, FromBookApply, code)))
      else Halt(code)
    case Applied(_) =>
      if st.mutations[m.locate] == U64_MAX then Halt(Internal)
      else
        Resume(st.(mutations := st.mutations[m.locate := st.mutations[m.locate] + 1]),
               WriteMutation(c, st.market, index, m, id))
  }

  predicate ConcernsMarket(m: Message) {
    !m.Ignored? && !m.System? && !m.Directory?
  }

  ghost function Handle(c: Config, st: Replay, index: U64, m: Message, id: U16): StepResult
    requires Registered(st.market, m.locate) && m.locate in st.mutations && ConcernsMarket(m)
  {
    if m.Action? then Resume(st, WriteAction(c, st.market, index, m, id))
    else if BookMessageOf(m, index).Some? then HandleBook(c, st, index, m, id)
    else Resume(st, WritePrint(c, st.market, index, m, id))
  }

  // ---------------------------------------------------------------- routing

  ghost function HandleSystem(st: Replay, m: Message): StepResult
    requires m.System?
  {
    var a := st.market;
    if SystemRefused(a.session, m.locate, m.code) then Halt(Invariant)
    else if st.tally.system == U64_MAX then Halt(Internal)
    else
      Next(st.(market := a.(session := AfterSystem(a.session, m.code)),
               tally := st.tally.(system := st.tally.system + 1)))
  }

  /** The market once a directory record is accepted: a requested symbol seen for the first time
      gets an empty book and a session state. */
  ghost function Announce(c: Config, a: Market, m: Message): Market
    requires m.Directory? && |c.symbols| <= U16_MAX
  {
    var next := a.(learned := AfterDirectory(a.learned, m));
    if m.locate in a.learned || Selected(c.symbols, next.learned, m.locate).None? then next
    else
      next.(session := AfterRegister(a.session, m.locate),
            books := a.books[m.locate := map[]],
            lastTrades := a.lastTrades[m.locate := None])
  }

  ghost function HandleDirectory(c: Config, st: Replay, m: Message): StepResult
    requires m.Directory? && |c.symbols| <= U16_MAX
  {
    var a := st.market;
    if DirectoryRefused(a.learned, m) then Halt(Invariant)
    else if st.tally.directory == U64_MAX then Halt(Internal)
    else
      var counted := st.(market := Announce(c, a, m), tally := st.tally.(directory := st.tally.directory + 1));
      if m.locate in a.learned || Selected(c.symbols, counted.market.learned, m.locate).None? then Next(counted)
      else if m.locate in st.unresolved then Halt(UnknownSymbol)
      else Next(counted.(mutations := st.mutations[m.locate := 0]))
  }

  ghost function HandleFiltered(c: Config, st: Replay, m: Message): StepResult {
    var symbol := EmbeddedSymbol(m);
    if symbol.Some? && symbol.value in c.symbols then
      Halt(if m.locate in st.market.learned then Invariant else UnknownSymbol)
    else if st.tally.filtered == U64_MAX then Halt(Internal)
    else
      Next(st.(unresolved := if m.locate in st.market.learned then st.unresolved else st.unresolved + {m.locate},
               tally := st.tally.(filtered := st.tally.filtered + 1)))
  }

  ghost function HandleSelected(c: Config, st: Replay, index: U64, m: Message, instrument: Instrument): StepResult
    requires Registered(st.market, m.locate) && m.locate in st.mutations && !m.System? && !m.Directory?
  {
    if st.tally.selected == U64_MAX || Count(st.tally.selectedByType, SourceType(m)) == U64_MAX then Halt(Internal)
    else
      var next := st.(tally := st.tally.(selected := st.tally.selected + 1,
                                         selectedByType := Bump(st.tally.selectedByType, SourceType(m))));
      if EmbeddedSymbol(m).Some? && EmbeddedSymbol(m).value != instrument.identity.symbol then Halt(Invariant)
      else if m.Ignored? || m.timestamp >= c.sessionEnd then Next(next)
      else Handle(c, next, index, m, instrument.id)
  }

  /** Learned identities are one to one, and exactly the resolved instruments have a book, a last
      trade slot, a mutation counter and a session state. */
  ghost predicate Wired(c: Config, st: Replay) {
    && |c.symbols| <= U16_MAX
    && OneToOne(st.market.learned)
    && (forall l :: l in st.market.books <==> Selected(c.symbols, st.market.learned, l).Some?)
    && st.market.lastTrades.Keys == st.market.books.Keys
    && st.mutations.Keys == st.market.books.Keys
    && st.market.session.states.Keys == st.market.books.Keys
  }

  ghost function Dispatch(c: Config, st: Replay, index: U64, m: Message): StepResult
    requires Wired(c, st)
  {
    if m.System? then HandleSystem(st, m)
    else if m.Directory? then HandleDirectory(c, st, m)
    else
      var instrument := Selected(c.symbols, st.market.learned, m.locate);
      if instrument.None? then HandleFiltered(c, st, m)
      else HandleSelected(c, st, index, m, instrument.value)
  }

  ghost function Step(c: Config, st: Replay, f: Frame): StepResult
    requires Wired(c, st)
  {
    if st.tally.processed == U64_MAX then Halt(Internal)
    else
      var seen := st.(tally := st.tally.(processed := st.tally.processed + 1));
      match f
      case Bad(_, code) =>
        var decision := DecisionOf(c.policy, st.policy, FromDecoder, code);
        if decision.overflow then Halt(Internal)
        else if decision.disposition != SkipMessage then Halt(code)
        else if st.tally.skippedDecode == U64_MAX then Halt(Internal)
        else
          Next(seen.(policy := Observed(c.policy, st.policy, FromDecoder, code),
                     tally := seen.tally.(skippedDecode := st.tally.skippedDecode + 1)))
      case Good(index, m) =>
        if st.tally.decoded == U64_MAX || Count(st.tally.allByType, SourceType(m)) == U64_MAX then Halt(Internal)
        else
          var counted := seen.(tally := seen.tally.(decoded := st.tally.decoded + 1,
                                                    allByType := Bump(st.tally.allByType, SourceType(m))));
          Dispatch(c, counted, index, m)
  }

  // ---------------------------------------------------------------- what a step does to the market

  /** The write that a routed message makes, if it makes one. */
  ghost predicate Routed(c: Config, a: Market, index: U64, m: Message, id: U16, b: Market) {
    && |c.symbols| <= U16_MAX && ConcernsMarket(m) && m.timestamp < c.sessionEnd
    && Registered(a, m.locate)
    && Selected(c.symbols, a.learned, m.locate).Some? && Selected(c.symbols, a.learned, m.locate).value.id == id
    && if m.Action? then WriteAction(c, a, index, m, id) == Wrote(b)
       else if BookMessageOf(m, index).Some? then
         AppliedOutcome(a, index, m).result.Applied? && WriteMutation(c, a, index, m, id) == Wrote(b)
       else WritePrint(c, a, index, m, id) == Wrote(b)
  }

  /** The routing guard, told from the market before the frame: a message of a requested instrument
      before the end of the session, which the book accepts if it is for the book. */
  ghost predicate ReachesLog(c: Config, a: Market, f: Frame) {
    && f.Good? && ConcernsMarket(f.message) && f.message.timestamp < c.sessionEnd
    && |c.symbols| <= U16_MAX && Selected(c.symbols, a.learned, f.message.locate).Some?
    && Registered(a, f.message.locate)
    && (BookMessageOf(f.message, f.index).Some? ==> AppliedOutcome(a, f.index, f.message).result.Applied?)
  }

  /** What a frame does to the market: a new phase, a learned identity, the write of a routed
      message, and nothing at all in every other case. */
  ghost predicate MarketStep(c: Config, a: Market, f: Frame, b: Market) {
    && |c.symbols| <= U16_MAX
    && if f.Good? && f.message.System? then
         !SystemRefused(a.session, f.message.locate, f.message.code) &&
         b == a.(session := AfterSystem(a.session, f.message.code))
       else if f.Good? && f.message.Directory? then
         !DirectoryRefused(a.learned, f.message) && b == Announce(c, a, f.message)
       else if ReachesLog(c, a, f) then
         Routed(c, a, f.index, f.message, Selected(c.symbols, a.learned, f.message.locate).value.id, b)
       else b == a
  }

  lemma HandleWrites(c: Config, st: Replay, index: U64, m: Message, id: U16, st': Replay)
    requires Registered(st.market, m.locate) && m.locate in st.mutations && ConcernsMarket(m)
    requires Handle(c, st, index, m, id) == Next(st')
    ensures if m.Action? then WriteAction(c, st.market, index, m, id) == Wrote(st'.market)
            else if BookMessageOf(m, index).Some? then
              if AppliedOutcome(st.market, index, m).result.Applied?
              then WriteMutation(c, st.market, index, m, id) == Wrote(st'.market)
              else st'.market == st.market
            else WritePrint(c, st.market, index, m, id) == Wrote(st'.market)
    ensures st'.mutations.Keys == st.mutations.Keys && st'.tally == st.tally && st'.unresolved == st.unresolved
  {
    hide WriteAction, WriteMutation, WritePrint, AppliedOutcome, BookMessageOf;
  }

  /** The message is for the market and in time, so it is handled. */
  lemma SelectedIsHandled(c: Config, st: Replay, index: U64, m: Message, instrument: Instrument, st': Replay)
    requires Registered(st.market, m.locate) && m.locate in st.mutations && !m.System? && !m.Directory?
    requires HandleSelected(c, st, index, m, instrument) == Next(st')
    ensures if ConcernsMarket(m) && m.timestamp < c.sessionEnd
            then if m.Action? then WriteAction(c, st.market, index, m, instrument.id) == Wrote(st'.market)
                 else if BookMessageOf(m, index).Some? then
                   if AppliedOutcome(st.market, index, m).result.Applied?
                   then WriteMutation(c, st.market, index, m, instrument.id) == Wrote(st'.market)
                   else st'.market == st.market
                 else WritePrint(c, st.market, index, m, instrument.id) == Wrote(st'.market)
            else st'.market == st.market
    ensures st'.mutations.Keys == st.mutations.Keys
  {
    hide Handle, WriteAction, WriteMutation, WritePrint, AppliedOutcome, BookMessageOf, EmbeddedSymbol, SourceType;
    hide Bump, Count;
    var next := st.(tally := st.tally.(selected := st.tally.selected + 1,
                                       selectedByType := Bump(st.tally.selectedByType, SourceType(m))));
    if !m.Ignored? && m.timestamp < c.sessionEnd {
      HandleWrites(c, next, index, m, instrument.id, st');
    }
  }

  lemma HandleIsRouted(c: Config, st: Replay, index: U64, m: Message, instrument: Instrument, st': Replay)
    requires Wired(c, st) && !m.System? && !m.Directory?
    requires Selected(c.symbols, st.market.learned, m.locate) == Some(instrument)
    requires HandleSelected(c, st, index, m, instrument) == Next(st')
    ensures if ReachesLog(c, st.market, Good(index, m))
            then Routed(c, st.market, index, m, instrument.id, st'.market)
            else st'.market == st.market
    ensures st'.mutations.Keys == st.mutations.Keys
  {
    hide OneToOne, HandleSelected, WriteAction, WriteMutation, WritePrint, AppliedOutcome, Selected;
    SelectedIsHandled(c, st, index, m, instrument, st');
  }

  lemma StepIsMarketStep(c: Config, st: Replay, f: Frame)
    requires Wired(c, st) && Step(c, st, f).Next?
    ensures MarketStep(c, st.market, f, Step(c, st, f).st.market)
  {
    hide OneToOne, Announce, HandleSelected, Routed, DirectoryRefused, Selected, BookMessageOf, AppliedOutcome;
    if f.Good? && !f.message.System? && !f.message.Directory? {
      var m := f.message;
      assert f == Good(f.index, m);
      var instrument := Selected(c.symbols, st.market.learned, m.locate);
      if instrument.Some? {
        var counted := st.(tally := st.tally.(processed := st.tally.processed + 1, decoded := st.tally.decoded + 1,
                                              allByType := Bump(st.tally.allByType, SourceType(m))));
        HandleIsRouted(c, counted, f.index, m, instrument.value, Step(c, st, f).st);
      }
    }
  }

  // ---------------------------------------------------------------- wiring is kept

  /** The instrument that a directory record resolves, if any. */
  function Resolution(c: Config, st: Replay, m: Message): Option<Instrument>
    requires m.Directory? && |c.symbols| <= U16_MAX
  {
    if m.locate in st.market.learned then None
    else Selected(c.symbols, AfterDirectory(st.market.learned, m), m.locate)
  }

  /** When a directory record stops the run. */
  lemma DirectoryCases(c: Config, st: Replay, m: Message)
    requires m.Directory? && |c.symbols| <= U16_MAX
    ensures HandleDirectory(c, st, m).Next? <==>
              && !DirectoryRefused(st.market.learned, m) && st.tally.directory != U64_MAX
              && (Resolution(c, st, m).Some? ==> m.locate !in st.unresolved)
    ensures HandleDirectory(c, st, m).Halt? ==>
              HandleDirectory(c, st, m).code ==
              if DirectoryRefused(st.market.learned, m) then Invariant
              else if st.tally.directory == U64_MAX then Internal
              else UnknownSymbol
  {
    hide Selected, DirectoryRefused;
  }

  /** What the run looks like after a directory record that does not stop it. */
  lemma DirectoryNext(c: Config, st: Replay, m: Message)
    requires m.Directory? && |c.symbols| <= U16_MAX && HandleDirectory(c, st, m).Next?
    ensures var a := st.market;
            var counted := st.(market := a.(learned := AfterDirectory(a.learned, m)),
                               tally := st.tally.(directory := st.tally.directory + 1));
            HandleDirectory(c, st, m).st ==
            if Resolution(c, st, m).None? then counted
            else counted.(market := counted.market.(session := AfterRegister(a.session, m.locate),
                                                    books := a.books[m.locate := map[]],
                                                    lastTrades := a.lastTrades[m.locate := None]),
                          mutations := st.mutations[m.locate := 0])
  {
    hide Selected, DirectoryRefused;
  }

  lemma AnnounceWired(c: Config, st: Replay, m: Message)
    requires Wired(c, st) && m.Directory? && HandleDirectory(c, st, m).Next?
    ensures Wired(c, HandleDirectory(c, st, m).st)
  {
    hide HandleDirectory, Selected, OneToOne, DirectoryRefused, IdentityOf, InitialState;
    DirectoryCases(c, st, m);
    DirectoryNext(c, st, m);
    AfterDirectoryOneToOne(st.market.learned, m);
    SelectedFrame(c.symbols, st.market.learned, m.locate, IdentityOf(m));
    if m.locate in st.market.learned {
      LearnedAlready(st.market.learned, m);
    }
  }

  lemma LearnedAlready(learned: Learned, m: Message)
    requires m.Directory? && !DirectoryRefused(learned, m) && m.locate in learned
    ensures AfterDirectory(learned, m) == learned
  {
  }

  lemma ActionWired(c: Config, a: Market, index: U64, m: Message, id: U16, b: Market)
    requires m.Action? && Registered(a, m.locate) && WriteAction(c, a, index, m, id) == Wrote(b)
    ensures SameWiring(a, b)
  {
    hide EventRefusal, SnapshotRefusal, SnapshotFor, StateEvent;
  }

  lemma MutationWired(c: Config, a: Market, index: U64, m: Message, id: U16, b: Market)
    requires BookMessageOf(m, index).Some? && Registered(a, m.locate) && AppliedOutcome(a, index, m).result.Applied?
    requires WriteMutation(c, a, index, m, id) == Wrote(b)
    ensures SameWiring(a, b)
  {
    hide EventRefusal, SnapshotRefusal, SnapshotFor, BookEvent, AppliedOutcome, BookMessageOf, TopOf;
  }

  lemma PrintWired(c: Config, a: Market, index: U64, m: Message, id: U16, b: Market)
    requires (m.Trade? || m.Cross? || m.Broken?) && Registered(a, m.locate) && WritePrint(c, a, index, m, id) == Wrote(b)
    ensures SameWiring(a, b)
  {
    hide EventRefusal, SnapshotRefusal, SnapshotFor, PrintEvent;
  }

  ghost predicate SameWiring(a: Market, b: Market) {
    && b.learned == a.learned && b.books.Keys == a.books.Keys && b.lastTrades.Keys == a.lastTrades.Keys
    && b.session.rank == a.session.rank && b.session.states.Keys == a.session.states.Keys
  }

  lemma RoutedWired(c: Config, a: Market, index: U64, m: Message, id: U16, b: Market)
    requires Routed(c, a, index, m, id, b)
    ensures SameWiring(a, b)
  {
    hide WriteAction, WriteMutation, WritePrint, AppliedOutcome, Selected;
    if m.Action? {
      ActionWired(c, a, index, m, id, b);
    } else if BookMessageOf(m, index).Some? {
      MutationWired(c, a, index, m, id, b);
    } else {
      PrintWired(c, a, index, m, id, b);
    }
  }

  lemma StepWired(c: Config, st: Replay, f: Frame)
    requires Wired(c, st) && Step(c, st, f).Next?
    ensures Wired(c, Step(c, st, f).st)
  {
    hide OneToOne, HandleDirectory, HandleSelected, Selected, Routed, SourceType, EmbeddedSymbol, ReachesLog;
    if f.Good? {
      var m := f.message;
      var counted := st.(tally := st.tally.(processed := st.tally.processed + 1, decoded := st.tally.decoded + 1,
                                            allByType := Bump(st.tally.allByType, SourceType(m))));
      if m.Directory? {
        AnnounceWired(c, counted, m);
      } else if !m.System? {
        var instrument := Selected(c.symbols, st.market.learned, m.locate);
        if instrument.Some? {
          var st' := Step(c, st, f).st;
          HandleIsRouted(c, counted, f.index, m, instrument.value, st');
          if ReachesLog(c, st.market, f) {
            RoutedWired(c, st.market, f.index, m, instrument.value.id, st'.market);
          }
        }
      }
    }
  }

  // ---------------------------------------------------------------- whole runs

  lemma StartWired(c: Config)
    requires ConfigOk(c)
    ensures Wired(c, START)
  {
  }

  /** The state after all frames, or the error that stopped the run. */
  ghost function Run(c: Config, frames: seq<Frame>): (result: StepResult)
    requires ConfigOk(c)
    ensures result.Next? ==> Wired(c, result.st)
  {
    StartWired(c);
    if frames == [] then Next(START)
    else
      match Run(c, frames[..|frames| - 1])
      case Halt(code) => Halt(code)
      case Next(st) =>
        var f := frames[|frames| - 1];
        if Step(c, st, f).Next? then StepWired(c, st, f); Step(c, st, f) else Step(c, st, f)
  }
}
