/** The snapshot log mirrors the books: each snapshot belongs to the event just written, passes the
    writer's checks and decodes again, and once an instrument has a snapshot the latest one shows
    its current top of book whenever the instrument may trade, across halts and resumptions. */
module ReplaySnapshots {
  import opened Types
  import opened BookModel
  import opened BookView
  import opened BookOutcomes
  import opened BookDigest
  import opened Messages
  import opened Session
  import opened InstrumentDirectoryModule
  import opened EventCodec
  import opened SnapshotCodec
  import opened ReplayModel
  import opened ReplayLog
  import opened ReplayStream
  import opened ReplayBooks

  // ---------------------------------------------------------------- tops are ladders

  lemma SharesPositive(live: Live, refs: set<U64>)
    requires refs <= live.Keys && refs != {}
    requires forall r :: r in live ==> live[r].remaining > 0
    ensures SharesOf(live, refs) > 0
  {
    var r :| r in refs;
    SharesOfRemove(live, refs, r);
  }

  lemma RankedLevelPositive(live: Live, side: Side, price: U32)
    requires price in PricesOf(live, side) && forall r :: r in live ==> live[r].remaining > 0
    ensures LevelTotal(live, side, price) > 0
  {
    var r :| r in live && live[r].side == side && live[r].price == price;
    assert r in OrdersAt(live, side, price);
    SharesPositive(live, OrdersAt(live, side, price));
  }

  lemma TopLadder(locate: U16, live: Live, side: Side, depth: nat)
    requires Indexable(locate, live)
    ensures TotalsFit(live) && Ladder(side, TopSide(live, side, depth))
  {
    hide Indexable, Ranked, Bookable, LevelTotal, PricesOf;
    IndexableFacts(locate, live);
    BookableFits(live);
    var prices, levels := Ranked(side, PricesOf(live, side)), TopSide(live, side, depth);
    forall i | 0 <= i < |levels| && levels[i].Some? ensures levels[i].value.total > 0 {
      assert prices[i] in PricesOf(live, side);
      RankedLevelPositive(live, side, prices[i]);
    }
    forall i, j | 0 <= i < j < |levels| && levels[j].Some?
      ensures levels[i].Some? && Better(side, levels[i].value.price, levels[j].value.price)
    {
      assert levels[i].value.price == prices[i] && levels[j].value.price == prices[j];
    }
  }

  // ---------------------------------------------------------------- invariants of the snapshot log

  /** The kind decides which trigger fields a snapshot carries. */
  predicate SnapshotShape(s: Snapshot) {
    match s.kind
    case TradeEvent => s.eventPrice.Some? && s.eventQuantity.Some? && !s.topChanged
    case CrossEvent => s.eventPrice.Some? && s.eventQuantity.Some? && !s.topChanged
    case TradingStateEvent => s.eventPrice.None? && s.eventQuantity.None? && !s.topChanged
    case BrokenTradeEvent => false
    case _ => s.eventPrice.Some? && s.eventQuantity.Some? && s.topChanged
  }

  predicate SnapshotClean(s: Snapshot) {
    s.eventQuantity != Some(0) && s.lastTradeQuantity != Some(0)
  }

  ghost predicate TriggeredBy(s: Snapshot, events: seq<Event>) {
    exists j :: 0 <= j < |events| && Triggers(events[j], s)
  }

  predicate Triggers(e: Event, s: Snapshot) {
    e.index == s.index && e.timestamp == s.timestamp && e.kind == s.kind && e.symbolId == s.symbolId
  }

  ghost predicate SnapshotEntryOk(c: Config, a: Market, k: nat)
    requires k < |a.snapshots|
  {
    var s := a.snapshots[k];
    && SnapshotError(s, c.depth) == None
    && s.symbolId <= |c.symbols|
    && Follows(s.index, s.timestamp, LastSnapshot(a.snapshots[..k]))
    && SnapshotShape(s)
    && TriggeredBy(s, a.events)
  }

  /** The snapshot log never runs ahead of the event log. */
  ghost predicate Behind(c: Config, a: Market) {
    && |a.snapshots| <= |a.events| <= U64_MAX
    && (a.snapshots != [] ==>
          var e, s := a.events[|a.events| - 1], a.snapshots[|a.snapshots| - 1];
          s.index <= e.index && s.timestamp <= e.timestamp && c.sessionStart <= e.timestamp)
  }

  function LatestFor(snapshots: seq<Snapshot>, id: nat): Option<Snapshot> {
    if snapshots == [] then None
    else if snapshots[|snapshots| - 1].symbolId == id then Some(snapshots[|snapshots| - 1])
    else LatestFor(snapshots[..|snapshots| - 1], id)
  }

  lemma LatestAppend(snapshots: seq<Snapshot>, s: Snapshot, id: nat)
    ensures LatestFor(snapshots + [s], id) == if s.symbolId == id then Some(s) else LatestFor(snapshots, id)
  {
    assert (snapshots + [s])[..|snapshots|] == snapshots;
  }

  lemma {:induction false} LatestNone(snapshots: seq<Snapshot>, id: nat)
    requires forall k :: 0 <= k < |snapshots| ==> snapshots[k].symbolId != id
    ensures LatestFor(snapshots, id) == None
  {
    if snapshots != [] {
      LatestNone(snapshots[..|snapshots| - 1], id);
    }
  }

  /** The latest snapshot of an instrument that may trade shows its current top of book. */
  ghost predicate Mirrors(c: Config, a: Market, l: U16)
    requires |c.symbols| <= U16_MAX && l in a.books
  {
    var latest := LatestFor(a.snapshots, IdOf(c, a.learned, l));
    latest.Some? && MayTrade(c, a.session, l) ==> latest.value.top == TopOf(a.books[l], c.depth)
  }

  ghost predicate SnapshotsOk(c: Config, a: Market) {
    && |c.symbols| <= U16_MAX
    && Behind(c, a)
    && (forall k :: 0 <= k < |a.snapshots| ==> SnapshotEntryOk(c, a, k))
    && (forall l :: l in a.books ==> Mirrors(c, a, l))
  }

  // ---------------------------------------------------------------- one write

  lemma TriggeredMore(s: Snapshot, events: seq<Event>, e: Event)
    requires TriggeredBy(s, events)
    ensures TriggeredBy(s, events + [e])
  {
    var j :| 0 <= j < |events| && Triggers(events[j], s);
    assert (events + [e])[j] == events[j];
  }

  /** Everything about a write that the snapshot log needs to know. */
  ghost predicate Written(c: Config, a: Market, l: U16, e: Event, s: Option<Snapshot>, b: Market) {
    && |c.symbols| <= U16_MAX && l in a.books
    && IdOf(c, a.learned, l) == e.symbolId > 0
    && b.learned == a.learned && b.books.Keys == a.books.Keys
    && |a.events| < U64_MAX
    && b.events == a.events + [e]
    && b.snapshots == (if s.Some? then a.snapshots + [s.value] else a.snapshots)
    && Follows(e.index, e.timestamp, LastEvent(a.events))
    && e.timestamp < c.sessionEnd
    && (forall m :: m in a.books && m != l ==>
          b.books[m] == a.books[m] && MayTrade(c, b.session, m) == MayTrade(c, a.session, m))
    && (s.Some? ==>
          && Triggers(e, s.value) && SnapshotShape(s.value) && c.sessionStart <= e.timestamp
          && SnapshotRefusal(c, a.snapshots, s.value) == None
          && s.value.top == TopOf(b.books[l], c.depth))
    && (s.None? && InSession(c, e.timestamp) && MayTrade(c, b.session, l) ==>
          MayTrade(c, a.session, l) && TopOf(b.books[l], c.depth) == TopOf(a.books[l], c.depth))
  }

  lemma WrittenBehind(c: Config, a: Market, l: U16, e: Event, s: Option<Snapshot>, b: Market)
    requires SnapshotsOk(c, a) && Written(c, a, l, e, s, b)
    ensures Behind(c, b)
  {
    hide Mirrors, SnapshotEntryOk, IdOf, TopOf, SnapshotShape, SnapshotRefusal;
  }

  lemma WrittenEntries(c: Config, a: Market, l: U16, e: Event, s: Option<Snapshot>, b: Market, k: nat)
    requires SnapshotsOk(c, a) && Written(c, a, l, e, s, b) && k < |b.snapshots|
    ensures SnapshotEntryOk(c, b, k)
  {
    hide Mirrors, IdOf, TopOf, SnapshotShape, SnapshotError, Follows, LastSnapshot, Behind;
    if k < |a.snapshots| {
      assert SnapshotEntryOk(c, a, k);
      assert b.snapshots[..k] == a.snapshots[..k] && b.snapshots[k] == a.snapshots[k];
      TriggeredMore(a.snapshots[k], a.events, e);
    } else {
      assert b.snapshots[..k] == a.snapshots && b.snapshots[k] == s.value;
      assert b.events[|a.events|] == e;
    }
  }

  lemma WrittenMirrors(c: Config, a: Market, l: U16, e: Event, s: Option<Snapshot>, b: Market, m: U16)
    requires SnapshotsOk(c, a) && Written(c, a, l, e, s, b) && OneToOne(a.learned) && m in b.books
    ensures Mirrors(c, b, m)
  {
    hide SnapshotEntryOk, IdOf, TopOf, SnapshotShape, SnapshotRefusal, OneToOne, MayTrade;
    assert Mirrors(c, a, m);
    var id := IdOf(c, a.learned, m);
    if s.Some? {
      LatestAppend(a.snapshots, s.value, id);
    }
    if m != l && id == e.symbolId {
      IdsDistinct(c, a.learned, m, l);
    }
    if m == l && LatestFor(a.snapshots, id).Some? {
      assert a.snapshots != [];
      assert InSession(c, e.timestamp);
    }
  }

  lemma WrittenOk(c: Config, a: Market, l: U16, e: Event, s: Option<Snapshot>, b: Market)
    requires SnapshotsOk(c, a) && Written(c, a, l, e, s, b) && OneToOne(a.learned)
    ensures SnapshotsOk(c, b)
  {
    assert SnapshotsOk(c, a) && |c.symbols| <= U16_MAX;
    hide SnapshotsOk, Written, OneToOne;
    WrittenBehind(c, a, l, e, s, b);
    forall k | 0 <= k < |b.snapshots| ensures SnapshotEntryOk(c, b, k) {
      WrittenEntries(c, a, l, e, s, b, k);
    }
    forall m | m in b.books ensures Mirrors(c, b, m) {
      WrittenMirrors(c, a, l, e, s, b, m);
    }
    AllOk(c, b);
  }

  lemma AllOk(c: Config, b: Market)
    requires |c.symbols| <= U16_MAX && Behind(c, b)
    requires forall k :: 0 <= k < |b.snapshots| ==> SnapshotEntryOk(c, b, k)
    requires forall m :: m in b.books ==> Mirrors(c, b, m)
    ensures SnapshotsOk(c, b)
  {
  }

  // ---------------------------------------------------------------- the three kinds of write

  lemma ActionWrites(c: Config, a: Market, index: U64, m: Message, id: U16, b: Market)
    requires m.Action? && Routed(c, a, index, m, id, b) && Behind(c, a)
    ensures exists e, s :: Written(c, a, m.locate, e, s, b)
  {
    hide Emit, StateEvent, EncodeError, Selected, IdOf, TopOf, SnapshotRefusal;
    RegisteredId(c, a, m.locate, id);
    var e := StateEvent(c, m, index, id);
    StateEventFields(c, m, index, id);
    var next := a.(session := AfterAction(a.session, m.locate, m.state));
    var changed := a.session.states[m.locate] != next.session.states[m.locate];
    var s := if InSession(c, m.timestamp) && changed
             then Some(SnapshotFor(c, next, e, m.locate, false, None, None)) else None;
    EmitWrites(c, next, e, s, b);
    NotFull(c, next, e, s, b);
    assert Written(c, a, m.locate, e, s, b);
  }

  lemma NotFull(c: Config, a: Market, e: Event, s: Option<Snapshot>, b: Market)
    requires Emit(c, a, e, s) == Wrote(b)
    ensures |a.events| < U64_MAX
  {
    hide EncodeError, Follows;
  }

  /** What makes a write sound, told from the market just before the records are written. */
  lemma WrittenFrom(c: Config, a: Market, next: Market, l: U16, e: Event, s: Option<Snapshot>, b: Market)
    requires |c.symbols| <= U16_MAX && l in a.books && l in next.books && IdOf(c, a.learned, l) == e.symbolId > 0
    requires next.learned == a.learned && next.books.Keys == a.books.Keys && next.session == a.session
    requires next.events == a.events && next.snapshots == a.snapshots && e.timestamp < c.sessionEnd
    requires forall m :: m in a.books && m != l ==> next.books[m] == a.books[m]
    requires Emit(c, next, e, s) == Wrote(b)
    requires s.Some? ==>
               && Triggers(e, s.value) && SnapshotShape(s.value) && c.sessionStart <= e.timestamp
               && s.value.top == TopOf(next.books[l], c.depth)
    requires s.None? && InSession(c, e.timestamp) && MayTrade(c, a.session, l) ==>
               TopOf(next.books[l], c.depth) == TopOf(a.books[l], c.depth)
    ensures Written(c, a, l, e, s, b)
  {
    hide Emit, EncodeError, IdOf, TopOf, SnapshotRefusal, SnapshotShape, MayTrade, Follows, LastEvent, InSession, Triggers;
    EmitWrites(c, next, e, s, b);
    NotFull(c, next, e, s, b);
  }

  lemma SnapshotFields(c: Config, a: Market, e: Event, l: U16, changed: bool, price: Option<U32>, quantity: Option<U64>)
    requires Registered(a, l)
    ensures var s := SnapshotFor(c, a, e, l, changed, price, quantity);
            && Triggers(e, s) && s.kind == e.kind && s.topChanged == changed
            && s.eventPrice == price && s.eventQuantity == quantity && s.top == TopOf(a.books[l], c.depth)
  {
    hide TopOf;
  }

  lemma MutationWrites(c: Config, a: Market, index: U64, m: Message, id: U16, b: Market)
    requires BookMessageOf(m, index).Some? && Routed(c, a, index, m, id, b) && Behind(c, a)
    ensures exists e, s :: Written(c, a, m.locate, e, s, b)
  {
    assert !m.Action?;
    hide Emit, BookEvent, Selected, IdOf, TopOf, Apply, BookMessageOf, MessagePrice, SnapshotFor, Triggers, Written;
    hide SnapshotShape, MayTrade;
    RegisteredId(c, a, m.locate, id);
    var out := AppliedOutcome(a, index, m);
    var e := BookEvent(c, m, index, id, out.result.delta);
    BookEventFields(c, m, index, id, out.result.delta);
    BookEventQuantity(c, a.books[m.locate], m, index, id);
    var next := a.(books := a.books[m.locate := out.live]);
    var price := if MessagePrice(m).Some? then MessagePrice(m) else Some(out.result.delta.price);
    var s := if InSession(c, m.timestamp) && TopOf(a.books[m.locate], c.depth) != TopOf(out.live, c.depth) &&
                MayTrade(c, a.session, m.locate)
             then Some(SnapshotFor(c, next, e, m.locate, true, price, e.quantity)) else None;
    SnapshotFields(c, next, e, m.locate, true, price, e.quantity);
    if s.Some? {
      MutationShape(s.value);
    }
    WrittenFrom(c, a, next, m.locate, e, s, b);
    assert Written(c, a, m.locate, e, s, b);
  }

  lemma MutationShape(s: Snapshot)
    requires s.kind in {AddEvent, ExecuteEvent, ExecutePriceEvent, CancelEvent, DeleteEvent, ReplaceEvent}
    requires s.topChanged && s.eventPrice.Some? && s.eventQuantity.Some?
    ensures SnapshotShape(s)
  {
  }

  lemma BookEventQuantity(c: Config, live: Live, m: Message, index: U64, id: U16)
    requires BookMessageOf(m, index).Some?
    requires Apply(live, m.locate, BookMessageOf(m, index).value).result.Applied?
    ensures BookEvent(c, m, index, id, Apply(live, m.locate, BookMessageOf(m, index).value).result.delta).quantity.Some?
    ensures KindOfMessage(m) in {AddEvent, ExecuteEvent, ExecutePriceEvent, CancelEvent, DeleteEvent, ReplaceEvent}
  {
    hide LevelTotal, AllEarlier, Trimmed;
  }

  lemma PrintWrites(c: Config, a: Market, index: U64, m: Message, id: U16, b: Market)
    requires (m.Trade? || m.Cross? || m.Broken?) && Routed(c, a, index, m, id, b) && Behind(c, a)
    ensures exists e, s :: Written(c, a, m.locate, e, s, b)
  {
    hide Emit, PrintEvent, Selected, IdOf, TopOf, SnapshotFor, Triggers, Written, MayTrade;
    RegisteredId(c, a, m.locate, id);
    var e := PrintEvent(c, m, index, id);
    PrintEventFields(c, m, index, id);
    PrintEventTrigger(c, m, index, id);
    var next := if m.Broken? then a
                else a.(lastTrades := a.lastTrades[m.locate := Some(LastTrade(m.price, m.shares))]);
    var s := if !m.Broken? && InSession(c, m.timestamp) && c.emitUnchanged && MayTrade(c, a.session, m.locate)
             then Some(SnapshotFor(c, next, e, m.locate, false, e.price, e.quantity)) else None;
    SnapshotFields(c, next, e, m.locate, false, e.price, e.quantity);
    WrittenFrom(c, a, next, m.locate, e, s, b);
  }

  lemma PrintEventTrigger(c: Config, m: Message, index: U64, id: U16)
    requires m.Trade? || m.Cross? || m.Broken?
    ensures var e := PrintEvent(c, m, index, id);
            && (m.Trade? ==> e.kind == TradeEvent) && (m.Cross? ==> e.kind == CrossEvent)
            && (!m.Broken? ==> e.price.Some? && e.quantity.Some?)
  {
  }

  lemma RoutedWrites(c: Config, a: Market, index: U64, m: Message, id: U16, b: Market)
    requires Routed(c, a, index, m, id, b) && Behind(c, a)
    ensures exists e, s :: Written(c, a, m.locate, e, s, b)
  {
    hide WriteAction, WriteMutation, WritePrint, AppliedOutcome, Written, Behind;
    if m.Action? {
      ActionWrites(c, a, index, m, id, b);
    } else if BookMessageOf(m, index).Some? {
      MutationWrites(c, a, index, m, id, b);
    } else {
      PrintWrites(c, a, index, m, id, b);
    }
  }

  // ---------------------------------------------------------------- every step keeps the invariants

  /** A phase change never makes anything tradable, so no mirror duty arises. */
  lemma SystemKeepsSnapshots(c: Config, a: Market, m: Message)
    requires SnapshotsOk(c, a) && m.System? && !SystemRefused(a.session, m.locate, m.code)
    ensures SnapshotsOk(c, a.(session := AfterSystem(a.session, m.code)))
  {
    var b := a.(session := AfterSystem(a.session, m.code));
    hide SnapshotEntryOk, TopOf, LatestFor, IdOf, SystemRefused, AfterSystem, Tradable;
    forall l | l in b.books ensures Mirrors(c, b, l) {
      assert Mirrors(c, a, l);
      OnlyActionsResume(a.session, m.locate, l, m.code);
    }
    forall k | 0 <= k < |b.snapshots| ensures SnapshotEntryOk(c, b, k) {
      assert SnapshotEntryOk(c, a, k);
      SessionIrrelevant(c, a, b, k);
    }
  }

  lemma SessionIrrelevant(c: Config, a: Market, b: Market, k: nat)
    requires k < |a.snapshots| && SnapshotEntryOk(c, a, k) && b.snapshots == a.snapshots && b.events == a.events
    ensures SnapshotEntryOk(c, b, k)
  {
    hide SnapshotError, Follows, SnapshotShape, TriggeredBy;
  }

  lemma AnnounceKeepsSnapshots(c: Config, a: Market, m: Message)
    requires SnapshotsOk(c, a) && LogOk(c, a) && m.Directory? && !DirectoryRefused(a.learned, m)
    ensures SnapshotsOk(c, Announce(c, a, m))
  {
    hide SnapshotEntryOk, TopOf, DirectoryRefused, OneToOne, LogOk, Selected, Mirrors;
    var b := Announce(c, a, m);
    if m.locate in a.learned {
      LearnedAlready(a.learned, m);
    } else {
      forall k | 0 <= k < |b.snapshots| ensures SnapshotEntryOk(c, b, k) {
        assert SnapshotEntryOk(c, a, k);
        SessionIrrelevant(c, a, b, k);
      }
      forall l | l in b.books ensures Mirrors(c, b, l) {
        AnnounceMirrors(c, a, m, l);
      }
    }
  }

  lemma AnnounceMirrors(c: Config, a: Market, m: Message, l: U16)
    requires SnapshotsOk(c, a) && LogOk(c, a) && m.Directory? && !DirectoryRefused(a.learned, m)
    requires m.locate !in a.learned && l in Announce(c, a, m).books
    ensures Mirrors(c, Announce(c, a, m), l)
  {
    hide SnapshotEntryOk, TopOf, DirectoryRefused, OneToOne, LogOk, Selected, Tradable;
    var b := Announce(c, a, m);
    SelectedFrame(c.symbols, a.learned, m.locate, IdentityOf(m));
    OnlyActionsResume(a.session, m.locate, l, 0);
    if l == m.locate {
      forall k | 0 <= k < |a.snapshots| ensures a.snapshots[k].symbolId != IdOf(c, b.learned, l) {
        NewIdHasNoSnapshot(c, a, m, k);
      }
      LatestNone(a.snapshots, IdOf(c, b.learned, l));
    } else {
      assert Mirrors(c, a, l);
    }
  }

  lemma NewIdHasNoSnapshot(c: Config, a: Market, m: Message, k: nat)
    requires SnapshotsOk(c, a) && LogOk(c, a) && m.Directory? && !DirectoryRefused(a.learned, m)
    requires m.locate !in a.learned && k < |a.snapshots|
    ensures a.snapshots[k].symbolId != IdOf(c, AfterDirectory(a.learned, m), m.locate)
  {
    hide DirectoryRefused, OneToOne, LogOk, Selected, SnapshotError, Mirrors, IdOf;
    assert SnapshotEntryOk(c, a, k);
    var j :| 0 <= j < |a.events| && Triggers(a.events[j], a.snapshots[k]);
    NewIdIsUnused(c, a, m, j);
  }

  lemma StepKeepsSnapshots(c: Config, a: Market, f: Frame, b: Market)
    requires SnapshotsOk(c, a) && LogOk(c, a) && MarketStep(c, a, f, b)
    ensures SnapshotsOk(c, b)
  {
    assert Behind(c, a) && OneToOne(a.learned);
    hide SnapshotsOk, LogOk, Routed, Announce, DirectoryRefused, OneToOne, Written, Behind, SystemRefused;
    if ReachesLog(c, a, f) {
      RoutedWrites(c, a, f.index, f.message, Selected(c.symbols, a.learned, f.message.locate).value.id, b);
      var e, s :| Written(c, a, f.message.locate, e, s, b);
      WrittenOk(c, a, f.message.locate, e, s, b);
    } else if f.Bad? || (!f.message.System? && !f.message.Directory?) {
      assert b == a;
    } else if f.message.System? {
      SystemKeepsSnapshots(c, a, f.message);
    } else {
      AnnounceKeepsSnapshots(c, a, f.message);
    }
  }

  /** At every point of every run the snapshot log is sound and mirrors the books. */
  lemma {:induction false} RunKeepsSnapshots(c: Config, frames: seq<Frame>)
    requires ConfigOk(c) && Run(c, frames).Next?
    ensures SnapshotsOk(c, Run(c, frames).st.market)
  {
    hide Step, LogOk, Wired, MarketStep, SnapshotEntryOk, Mirrors;
    if frames != [] {
      var earlier, f := frames[..|frames| - 1], frames[|frames| - 1];
      RunKeepsSnapshots(c, earlier);
      RunKeepsLog(c, earlier);
      StepIsMarketStep(c, Run(c, earlier).st, f);
      StepKeepsSnapshots(c, Run(c, earlier).st.market, f, Run(c, frames).st.market);
    }
  }

  // ---------------------------------------------------------------- the writer never refuses

  /** The depth slots of a sound book always pass the writer's level checks, and the log's ordering
      carries over from the event. */
  lemma SnapshotAccepted(c: Config, a: Market, e: Event, locate: U16, changed: bool, price: Option<U32>,
                         quantity: Option<U64>)
    requires Behind(c, a) && Registered(a, locate) && Indexable(locate, a.books[locate])
    requires EventRefusal(c, a.events, e) == None
    ensures SnapshotRefusal(c, a.snapshots, SnapshotFor(c, a, e, locate, changed, price, quantity)) == None
  {
    hide Indexable, Ladder, TopSide;
    TopLadder(locate, a.books[locate], Buy, c.depth);
    TopLadder(locate, a.books[locate], Sell, c.depth);
  }

  lemma TouchedBookOk(c: Config, a: Market, f: Frame, next: nat)
    requires ReachesLog(c, a, f) && BooksOk(a, next) && next <= f.index
    ensures Registered(Touched(c, a, f), f.message.locate)
    ensures Indexable(f.message.locate, Touched(c, a, f).books[f.message.locate])
  {
    hide Indexable, Apply, Selected, EnteredBefore;
    var l := f.message.locate;
    assert BookOk(l, a.books[l], next);
    if !f.message.Action? && BookMessageOf(f.message, f.index).Some? {
      Later(a.books[l], next, f.index);
      MessageKeepsIndex(f.message, f.index);
      ApplyIndexable(l, a.books[l], BookMessageOf(f.message, f.index).value);
    }
  }

  /** At any point of any run: once the event of a frame is accepted, the snapshot that goes with it
      is accepted too, and the frame is written. */
  lemma SnapshotNeverRefused(c: Config, frames: seq<Frame>, f: Frame)
    requires ConfigOk(c) && Numbered(frames + [f]) && Run(c, frames).Next?
    requires ReachesLog(c, Run(c, frames).st.market, f)
    requires var a := Run(c, frames).st.market; EventRefusal(c, a.events, EventOf(c, a, f)) == None
    ensures var a := Run(c, frames).st.market;
            Emit(c, Touched(c, a, f), EventOf(c, a, f), MaybeSnapshot(c, a, f)) == Wrote(AfterFrame(c, a, f))
  {
    hide Run, ReachesLog, TakesSnapshot, EventOf, Touched, EventRefusal, SnapshotRefusal, Behind, Indexable, BooksOk;
    NextAfter(frames, f);
    RunKeepsBooks(c, frames);
    RunKeepsSnapshots(c, frames);
    var a := Run(c, frames).st.market;
    var next := Touched(c, a, f);
    TouchedBookOk(c, a, f, NextIndex(frames));
    TouchedKeepsLogs(c, a, f);
    NotAnnounced(c, a, f);
    SameBehind(c, a, next);
    MaybeAccepted(c, a, f);
  }

  lemma SameBehind(c: Config, a: Market, b: Market)
    requires Behind(c, a) && b.events == a.events && b.snapshots == a.snapshots
    ensures Behind(c, b)
  {
  }

  lemma MaybeAccepted(c: Config, a: Market, f: Frame)
    requires ReachesLog(c, a, f) && Behind(c, Touched(c, a, f)) && Registered(Touched(c, a, f), f.message.locate)
    requires Indexable(f.message.locate, Touched(c, a, f).books[f.message.locate])
    requires EventRefusal(c, Touched(c, a, f).events, EventOf(c, a, f)) == None
    ensures SnapshotRefusal(c, Touched(c, a, f).snapshots, SnapshotOf(c, a, f)) == None
  {
    hide EventOf, Touched, EventRefusal, SnapshotRefusal, Behind, Indexable, SnapshotFor, Selected;
    hide AppliedOutcome, MessagePrice, BookMessageOf;
    var m, e, next := f.message, EventOf(c, a, f), Touched(c, a, f);
    var s := SnapshotOf(c, a, f);
    if m.Action? {
      SnapshotAccepted(c, next, e, m.locate, false, None, None);
    } else if BookMessageOf(m, f.index).Some? {
      var delta := AppliedOutcome(a, f.index, m).result.delta;
      SnapshotAccepted(c, next, e, m.locate, true,
                       if MessagePrice(m).Some? then MessagePrice(m) else Some(delta.price), e.quantity);
    } else {
      SnapshotAccepted(c, next, e, m.locate, false, e.price, e.quantity);
    }
  }

  lemma NextAfter(frames: seq<Frame>, f: Frame)
    requires Numbered(frames + [f])
    ensures Numbered(frames) && NextIndex(frames) <= f.index
  {
    assert forall i :: 0 <= i < |frames| ==> frames[i] == (frames + [f])[i];
    if frames != [] {
      assert (frames + [f])[|frames| - 1].index < (frames + [f])[|frames|].index;
    }
  }

  // ---------------------------------------------------------------- which snapshots are clean

  ghost predicate AllSnapshotsClean(snapshots: seq<Snapshot>) {
    forall k :: 0 <= k < |snapshots| ==> SnapshotClean(snapshots[k])
  }

  /** If frame k writes a snapshot, the latest print of its instrument, frame k included, has shares. */
  ghost predicate ShowsShares(c: Config, frames: seq<Frame>, k: nat)
    requires |c.symbols| <= U16_MAX && k < |frames|
  {
    TakesSnapshot(c, Follow(c, frames[..k]), frames[k]) ==>
      var latest := LatestPrint(c, frames[..k + 1], frames[k].message.locate);
      latest.Some? ==> latest.value.shares > 0
  }

  /** The quantities that a snapshot shows: never a zero of its own message unless that is the print
      it also shows as the last trade. */
  lemma SnapshotQuantities(c: Config, a: Market, f: Frame, next: nat)
    requires TakesSnapshot(c, a, f) && ReachesLog(c, a, f) && BooksOk(a, next)
    ensures Registered(Touched(c, a, f), f.message.locate)
    ensures var trade := Touched(c, a, f).lastTrades[f.message.locate];
            SnapshotClean(SnapshotOf(c, a, f)) <==> trade.None? || trade.value.quantity > 0
  {
    hide Apply, Selected, TopOf, MayTrade, Indexable, BookEvent, StateEvent;
    var m, l := f.message, f.message.locate;
    TouchedKeepsLogs(c, a, f);
    if !m.Action? && BookMessageOf(m, f.index).Some? {
      assert BookOk(l, a.books[l], next);
      IndexableFacts(l, a.books[l]);
      BookEventShape(c, a.books[l], m, f.index, Selected(c.symbols, a.learned, l).value.id);
    }
  }

  lemma SameShows(c: Config, frames: seq<Frame>, k: nat)
    requires |c.symbols| <= U16_MAX && k < |frames| - 1
    ensures ShowsShares(c, frames, k) <==> ShowsShares(c, frames[..|frames| - 1], k)
  {
    hide Follow, TakesSnapshot, LatestPrint;
    assert frames[..|frames| - 1][..k] == frames[..k];
    assert frames[..|frames| - 1][..k + 1] == frames[..k + 1];
  }

  lemma LastShows(c: Config, frames: seq<Frame>)
    requires ConfigOk(c) && Numbered(frames) && frames != [] && Run(c, frames).Next?
    ensures var n := |frames| - 1;
            AllSnapshotsClean(Run(c, frames).st.market.snapshots) <==>
            AllSnapshotsClean(Run(c, frames[..n]).st.market.snapshots) && ShowsShares(c, frames, n)
  {
    hide Step, Wired, BooksOk, SnapshotClean, TakesSnapshot, ReachesLog, SnapshotOf, EventOf, LatestPrint, AfterFrame, Touched;
    var n := |frames| - 1;
    var earlier, f := frames[..n], frames[n];
    assert frames[..n + 1] == frames;
    LoggedExactly(c, frames, n);
    RunFollowsStream(c, earlier);
    RunFollowsStream(c, frames);
    RunKeepsBooks(c, earlier);
    var a := Follow(c, earlier);
    if TakesSnapshot(c, a, f) {
      NoSnapshot(c, a, f);
      SnapshotQuantities(c, a, f, NextIndex(earlier));
      LastTradeIsLatestPrint(c, frames, f.message.locate);
      AfterTouched(c, a, f);
      var before, s := a.snapshots, SnapshotOf(c, a, f);
      assert (before + [s])[|before|] == s && forall k :: 0 <= k < |before| ==> (before + [s])[k] == before[k];
    }
  }

  lemma AfterTouched(c: Config, a: Market, f: Frame)
    requires ReachesLog(c, a, f)
    ensures AfterFrame(c, a, f).lastTrades == Touched(c, a, f).lastTrades
  {
    hide ReachesLog, Touched, EventOf, MaybeSnapshot;
    NotAnnounced(c, a, f);
  }

  /** The snapshot log is clean if and only if no frame writes a snapshot while the latest print of
      its instrument is one of zero shares. */
  lemma {:induction false} SnapshotsCleanExactly(c: Config, frames: seq<Frame>)
    requires ConfigOk(c) && Numbered(frames) && Run(c, frames).Next?
    ensures AllSnapshotsClean(Run(c, frames).st.market.snapshots) <==>
            forall k :: 0 <= k < |frames| ==> ShowsShares(c, frames, k)
  {
    hide Step, Wired, AllSnapshotsClean, ShowsShares;
    if frames == [] {
      NoSnapshotsClean();
    } else {
      var n := |frames| - 1;
      var earlier := frames[..n];
      SnapshotsCleanExactly(c, earlier);
      forall k | 0 <= k < n ensures ShowsShares(c, frames, k) <==> ShowsShares(c, earlier, k) {
        SameShows(c, frames, k);
      }
      LastShows(c, frames);
    }
  }

  lemma NoSnapshotsClean()
    ensures AllSnapshotsClean([])
  {
  }

  /** Trades and crosses of positive shares. */
  ghost predicate PositivePrints(frames: seq<Frame>) {
    forall i :: 0 <= i < |frames| && frames[i].Good? && (frames[i].message.Trade? || frames[i].message.Cross?) ==>
      frames[i].message.shares > 0
  }

  lemma {:induction false} PositiveLatest(c: Config, frames: seq<Frame>, l: U16)
    requires |c.symbols| <= U16_MAX && PositivePrints(frames)
    ensures LatestPrint(c, frames, l).Some? ==> LatestPrint(c, frames, l).value.shares > 0
  {
    hide Follow;
    if frames != [] {
      PositiveLatest(c, frames[..|frames| - 1], l);
    }
  }

  /** In particular when every trade and cross of the stream has shares. */
  lemma PositivePrintsCleanSnapshots(c: Config, frames: seq<Frame>)
    requires ConfigOk(c) && Numbered(frames) && PositivePrints(frames) && Run(c, frames).Next?
    ensures AllSnapshotsClean(Run(c, frames).st.market.snapshots)
  {
    hide Run, AllSnapshotsClean, Numbered, TakesSnapshot, ReachesLog, Follow, LatestPrint;
    SnapshotsCleanExactly(c, frames);
    forall k | 0 <= k < |frames| ensures ShowsShares(c, frames, k) {
      if TakesSnapshot(c, Follow(c, frames[..k]), frames[k]) {
        NoSnapshot(c, Follow(c, frames[..k]), frames[k]);
        NotAnnounced(c, Follow(c, frames[..k]), frames[k]);
        PositiveLatest(c, frames[..k + 1], frames[k].message.locate);
      }
    }
  }

  // ---------------------------------------------------------------- through the validator

  function SnapshotRecords(snapshots: seq<Snapshot>): (records: seq<Bytes>)
    requires forall k :: 0 <= k < |snapshots| ==> |snapshots[k].top.bids| == |snapshots[k].top.asks|
    ensures |records| == |snapshots|
    ensures forall k :: 0 <= k < |records| ==> records[k] == SnapshotRecord(snapshots[k])
  {
    seq(|snapshots|, k requires 0 <= k < |snapshots| => SnapshotRecord(snapshots[k]))
  }

  lemma ShapeDecides(c: Config, s: Snapshot, last: Option<Position>)
    requires SnapshotShape(s) && s.symbolId <= |c.symbols| && Follows(s.index, s.timestamp, last)
    ensures SnapshotAcceptable(s, |c.symbols|, last) <==> SnapshotClean(s)
  {
  }

  /** The main result for snapshots. Every snapshot of every run was triggered by an event with the
      same position, time, kind and symbol; its record reads back to its levels; and the validator
      accepts the record, after its predecessors, exactly when no zero quantity is involved. */
  lemma SnapshotsValidate(c: Config, frames: seq<Frame>, k: nat)
    requires ConfigOk(c) && Run(c, frames).Next? && k < |Run(c, frames).st.market.snapshots|
    ensures var a := Run(c, frames).st.market;
            var s := a.snapshots[k];
            && TriggeredBy(s, a.events)
            && |s.top.bids| == |s.top.asks| == c.depth
            && var record := SnapshotRecord(s);
               && BidsAt(record, c.depth) == s.top.bids && AsksAt(record, c.depth) == s.top.asks
               && (SnapshotOk(record, c.depth, |c.symbols|, LastSnapshot(a.snapshots[..k])) <==> SnapshotClean(s))
  {
    hide Run, Mirrors, SnapshotRecord, SnapshotOk, SnapshotShape, SnapshotAcceptable, Follows, LastSnapshot;
    RunKeepsSnapshots(c, frames);
    var a := Run(c, frames).st.market;
    assert SnapshotEntryOk(c, a, k);
    ShapeDecides(c, a.snapshots[k], LastSnapshot(a.snapshots[..k]));
    ValidateEncoded(a.snapshots[k], c.depth, |c.symbols|, LastSnapshot(a.snapshots[..k]));
  }

  /** The mirror, read at any point of a run: an instrument that has a snapshot and may trade shows
      its current top of book in the latest one. */
  lemma LatestSnapshotIsCurrent(c: Config, frames: seq<Frame>, l: U16)
    requires ConfigOk(c) && Numbered(frames) && Run(c, frames).Next? && l in Run(c, frames).st.market.books
    requires MayTrade(c, Run(c, frames).st.market.session, l)
    requires LatestFor(Run(c, frames).st.market.snapshots, IdOf(c, Run(c, frames).st.market.learned, l)).Some?
    ensures var a := Run(c, frames).st.market;
            && TotalsFit(a.books[l])
            && LatestFor(a.snapshots, IdOf(c, a.learned, l)).value.top == Top(a.books[l], c.depth)
  {
    hide Run, Indexable, Top;
    RunKeepsSnapshots(c, frames);
    RunKeepsBooks(c, frames);
    var a := Run(c, frames).st.market;
    assert Mirrors(c, a, l);
    assert BookOk(l, a.books[l], NextIndex(frames));
    IndexableFacts(l, a.books[l]);
  }
}
