/** The event log reconstructs the live state: replaying the written records into fresh books gives
    every instrument the book that the run ended with, even when a permissive run skipped
    messages.  The validator accepts the log exactly when no event has a zero quantity or an
    unprintable auxiliary byte. */
module ReplayLog {
  import opened Types
  import opened BookModel
  import opened Messages
  import opened Session
  import opened InstrumentDirectoryModule
  import opened EventCodec
  import opened SnapshotCodec
  import opened ReplayModel
  import opened ValidatorModel

  // ---------------------------------------------------------------- what every emitted event satisfies

  /** The two things the writer accepts and the validator does not: a zero quantity, and an
      auxiliary byte that is ASCII but not printable. */
  ghost predicate Clean(e: Event) {
    && e.quantity != Some(0)
    && (e.aux.Some? ==> AllPrintable(e.aux.value))
  }

  /** Everything else that the validator asks of a record on its own. */
  ghost predicate WellMade(c: Config, e: Event) {
    && EncodeError(e) == None
    && e.symbolId <= |c.symbols|
    && e.timestamp < c.sessionEnd && e.inSession == InSession(c, e.timestamp)
    && FlagsFit(e.kind, e.source, FlagBits(e))
    && (e.kind == AddEvent || e.kind == ReplaceEvent ==> e.remaining == e.quantity)
    && (e.kind == DeleteEvent ==> e.remaining == Some(0))
    && (e.kind == TradingStateEvent ==> e.subtype.Some? && StateCode(e.subtype.value))
  }

  lemma WellMadeAcceptable(c: Config, e: Event, last: Option<Position>)
    requires WellMade(c, e) && Follows(e.index, e.timestamp, last)
    ensures Acceptable(e, |c.symbols|, last) <==> Clean(e)
  {
    hide FlagsFit, EncodeError, AllPrintable;
  }

  // ---------------------------------------------------------------- events are well made

  lemma TrimmedPads(field: Bytes)
    requires |field| == 4
    ensures Trimmed(field) + seq(4 - |Trimmed(field)|, _ => SPACE) == field
  {
  }

  lemma MutationFlags(c: Config, m: Message, index: U64, id: U16, delta: BookDelta)
    requires BookMessageOf(m, index).Some? && (m.DeleteOrder? <==> delta.kind == DeleteKind)
    ensures var e := BookEvent(c, m, index, id, delta);
            KindMatchesSource(e.kind, e.source) && FlagsFit(e.kind, e.source, FlagBits(e))
  {
    hide BookEvent, FlagsFit, KindMatchesSource, FlagBits;
    if m.AddOrder? || m.AddAttributed? || m.ReplaceOrder? {
      EntryFlags(c, m, index, id, delta);
    } else {
      ExitFlags(c, m, index, id, delta);
    }
  }

  lemma EntryFlags(c: Config, m: Message, index: U64, id: U16, delta: BookDelta)
    requires (m.AddOrder? || m.AddAttributed? || m.ReplaceOrder?) && delta.kind != DeleteKind
    ensures var e := BookEvent(c, m, index, id, delta);
            KindMatchesSource(e.kind, e.source) && FlagsFit(e.kind, e.source, FlagBits(e))
  {
    hide Trimmed;
  }

  lemma ExitFlags(c: Config, m: Message, index: U64, id: U16, delta: BookDelta)
    requires m.Executed? || m.ExecutedPrice? || m.CancelOrder? || m.DeleteOrder?
    requires m.DeleteOrder? <==> delta.kind == DeleteKind
    ensures var e := BookEvent(c, m, index, id, delta);
            KindMatchesSource(e.kind, e.source) && FlagsFit(e.kind, e.source, FlagBits(e))
  {
    hide Trimmed;
  }

  /** What the delta of an accepted message says about the message. */
  lemma DeltaOf(live: Live, m: Message, index: U64)
    requires BookMessageOf(m, index).Some?
    requires Apply(live, m.locate, BookMessageOf(m, index).value).result.Applied?
    ensures var delta := Apply(live, m.locate, BookMessageOf(m, index).value).result.delta;
            && (m.DeleteOrder? <==> delta.kind == DeleteKind)
            && (m.AddOrder? || m.AddAttributed? || m.ReplaceOrder? ==> Some(delta.remaining) == MessageQuantity(m))
            && (m.DeleteOrder? ==> delta.remaining == 0 && m.reference in live &&
                                   delta.previousRemaining == live[m.reference].remaining)
            && (!m.DeleteOrder? ==> MessageQuantity(m).Some? && MessageQuantity(m) != Some(0))
  {
    hide LevelTotal, AllEarlier;
  }

  /** A mutation event has the fields of its kind and stands for the message that caused it. */
  lemma BookEventShape(c: Config, live: Live, m: Message, index: U64, id: U16)
    requires BookMessageOf(m, index).Some?
    requires Apply(live, m.locate, BookMessageOf(m, index).value).result.Applied?
    ensures var delta := Apply(live, m.locate, BookMessageOf(m, index).value).result.delta;
            var e := BookEvent(c, m, index, id, delta);
            && KindMatchesSource(e.kind, e.source)
            && FlagsFit(e.kind, e.source, FlagBits(e))
            && (e.kind == AddEvent || e.kind == ReplaceEvent ==> e.remaining == e.quantity)
            && (e.kind == DeleteEvent ==> e.remaining == Some(0))
            && e.kind != TradingStateEvent
            && ((forall r :: r in live ==> live[r].remaining > 0) ==> e.quantity.Some? && e.quantity != Some(0))
  {
    hide Trimmed, FlagsFit, KindMatchesSource, FlagBits, Apply;
    DeltaOf(live, m, index);
    MutationFlags(c, m, index, id, Apply(live, m.locate, BookMessageOf(m, index).value).result.delta);
  }

  lemma BookEventReproduces(c: Config, live: Live, m: Message, index: U64, id: U16)
    requires BookMessageOf(m, index).Some?
    requires Apply(live, m.locate, BookMessageOf(m, index).value).result.Applied?
    ensures var out := Apply(live, m.locate, BookMessageOf(m, index).value);
            var e := BookEvent(c, m, index, id, out.result.delta);
            && MessageOfEvent(e, m.locate) == BookMessageOf(m, index)
            && Reproduces(live, m.locate, e)
            && AfterEvent(live, m.locate, e) == out.live
  {
    hide LevelTotal, AllEarlier, Trimmed;
    if m.AddAttributed? {
      TrimmedPads(m.attribution);
    }
    match m
    case AddOrder(_, _, _, _, _, _, _) =>
    case AddAttributed(_, _, _, _, _, _, _, _) =>
    case Executed(_, _, _, _, _) =>
    case ExecutedPrice(_, _, _, _, _, _) =>
    case CancelOrder(_, _, _, _) =>
    case DeleteOrder(_, _, _) =>
    case ReplaceOrder(_, _, _, _, _, _) =>
  }

  lemma PrintEventShape(c: Config, m: Message, index: U64, id: U16)
    requires m.Trade? || m.Cross? || m.Broken?
    ensures var e := PrintEvent(c, m, index, id);
            && FlagsFit(e.kind, e.source, FlagBits(e))
            && e.kind in {TradeEvent, CrossEvent, BrokenTradeEvent}
            && e.aux.None?
  {
  }

  lemma StateEventShape(c: Config, m: Message, index: U64, id: U16)
    requires m.Action? && DecodeState(m.state).Some?
    ensures var e := StateEvent(c, m, index, id);
            && FlagsFit(e.kind, e.source, FlagBits(e))
            && e.subtype.Some? && StateCode(e.subtype.value) && e.quantity.None?
  {
    hide Trimmed;
  }

  // ---------------------------------------------------------------- the log invariant

  function IdOf(c: Config, learned: Learned, l: U16): nat
    requires |c.symbols| <= U16_MAX
  {
    if Selected(c.symbols, learned, l).Some? then Selected(c.symbols, learned, l).value.id else 0
  }

  ghost predicate HasInstrument(c: Config, learned: Learned, e: Event)
    requires |c.symbols| <= U16_MAX
  {
    e.symbolId > 0 && exists l: U16 :: IdOf(c, learned, l) == e.symbolId
  }

  /** Event k does to its instrument's rebuilt book what it recorded. */
  ghost predicate EntryReproduces(c: Config, learned: Learned, events: seq<Event>, k: nat, l: U16)
    requires |c.symbols| <= U16_MAX && k < |events|
  {
    IdOf(c, learned, l) == events[k].symbolId ==>
      Reproduces(LogLive(events[..k], events[k].symbolId, l), l, events[k])
  }

  ghost predicate EntryOk(c: Config, learned: Learned, events: seq<Event>, k: nat)
    requires |c.symbols| <= U16_MAX && k < |events|
  {
    && WellMade(c, events[k])
    && Follows(events[k].index, events[k].timestamp, LastEvent(events[..k]))
    && HasInstrument(c, learned, events[k])
    && forall l: U16 :: EntryReproduces(c, learned, events, k, l)
  }

  /** Every entry is sound and each live book is what its log rebuilds. */
  ghost predicate LogOk(c: Config, a: Market) {
    && |c.symbols| <= U16_MAX
    && OneToOne(a.learned)
    && (forall k :: 0 <= k < |a.events| ==> EntryOk(c, a.learned, a.events, k))
    && (forall l :: l in a.books ==> a.books[l] == LogLive(a.events, IdOf(c, a.learned, l), l))
  }

  lemma EntryAppend(c: Config, learned: Learned, events: seq<Event>, e: Event, k: nat)
    requires |c.symbols| <= U16_MAX && k < |events| && EntryOk(c, learned, events, k)
    ensures EntryOk(c, learned, events + [e], k)
  {
    hide WellMade, HasInstrument, Reproduces, IdOf;
    var after := events + [e];
    assert after[..k] == events[..k] && after[k] == events[k];
    forall l: U16 ensures EntryReproduces(c, learned, after, k, l) {
      assert EntryReproduces(c, learned, events, k, l);
    }
  }

  lemma IdsDistinct(c: Config, learned: Learned, k: U16, l: U16)
    requires |c.symbols| <= U16_MAX && OneToOne(learned)
    ensures IdOf(c, learned, k) == IdOf(c, learned, l) > 0 ==> k == l
  {
    if IdOf(c, learned, k) == IdOf(c, learned, l) > 0 {
      SelectedIsOneToOne(c.symbols, learned, k, l);
    }
  }

  /** Writing one sound event and moving its book along keeps the log sound. */
  lemma LogAppend(c: Config, a: Market, l: U16, e: Event, b: Market)
    requires LogOk(c, a) && l in a.books && IdOf(c, a.learned, l) == e.symbolId > 0
    requires WellMade(c, e) && Follows(e.index, e.timestamp, LastEvent(a.events))
    requires Reproduces(a.books[l], l, e)
    requires b.learned == a.learned && b.events == a.events + [e]
    requires b.books == a.books[l := AfterEvent(a.books[l], l, e)]
    ensures LogOk(c, b)
  {
    hide WellMade, Reproduces, IdOf, AfterEvent, OneToOne, EntryOk, Follows, LastEvent;
    forall k | 0 <= k < |b.events| ensures EntryOk(c, b.learned, b.events, k) {
      if k < |a.events| {
        EntryAppend(c, a.learned, a.events, e, k);
      } else {
        NewEntry(c, a, l, e);
      }
    }
    forall m | m in b.books ensures b.books[m] == LogLive(b.events, IdOf(c, b.learned, m), m) {
      LogLiveAppend(a.events, e, IdOf(c, a.learned, m), m);
      if IdOf(c, a.learned, m) == e.symbolId {
        IdsDistinct(c, a.learned, m, l);
      }
    }
  }

  lemma NewEntry(c: Config, a: Market, l: U16, e: Event)
    requires LogOk(c, a) && l in a.books && IdOf(c, a.learned, l) == e.symbolId > 0
    requires WellMade(c, e) && Follows(e.index, e.timestamp, LastEvent(a.events))
    requires Reproduces(a.books[l], l, e)
    ensures EntryOk(c, a.learned, a.events + [e], |a.events|)
  {
    hide WellMade, Reproduces, IdOf, OneToOne, Follows, LastEvent;
    var after := a.events + [e];
    assert after[..|a.events|] == a.events && after[|a.events|] == e;
    forall m: U16 ensures EntryReproduces(c, a.learned, after, |a.events|, m) {
      if IdOf(c, a.learned, m) == e.symbolId {
        IdsDistinct(c, a.learned, m, l);
      }
    }
  }

  // ---------------------------------------------------------------- every step keeps it

  /** What a successful write leaves behind. */
  lemma EmitWrites(c: Config, a: Market, e: Event, s: Option<Snapshot>, b: Market)
    requires Emit(c, a, e, s) == Wrote(b)
    ensures EncodeError(e) == None && e.symbolId <= |c.symbols|
    ensures Follows(e.index, e.timestamp, LastEvent(a.events))
    ensures s.Some? ==> SnapshotRefusal(c, a.snapshots, s.value) == None
    ensures b == a.(events := a.events + [e],
                    snapshots := if s.Some? then a.snapshots + [s.value] else a.snapshots)
  {
    hide EncodeError, Follows, SnapshotRefusal;
  }

  lemma RegisteredId(c: Config, a: Market, l: U16, id: U16)
    requires |c.symbols| <= U16_MAX && Selected(c.symbols, a.learned, l).Some?
    requires Selected(c.symbols, a.learned, l).value.id == id
    ensures IdOf(c, a.learned, l) == id > 0
  {
  }

  lemma ActionKeepsLog(c: Config, a: Market, index: U64, m: Message, id: U16, b: Market)
    requires LogOk(c, a) && m.Action? && Routed(c, a, index, m, id, b)
    ensures LogOk(c, b)
  {
    hide LogOk, SnapshotFor, Emit, StateEvent, FlagsFit, EncodeError, Selected, IdOf;
    RegisteredId(c, a, m.locate, id);
    var e := StateEvent(c, m, index, id);
    StateEventShape(c, m, index, id);
    StateEventFields(c, m, index, id);
    var next := a.(session := AfterAction(a.session, m.locate, m.state));
    var changed := a.session.states[m.locate] != next.session.states[m.locate];
    EmitWrites(c, next, e,
               if InSession(c, m.timestamp) && changed
               then Some(SnapshotFor(c, next, e, m.locate, false, None, None)) else None, b);
    PrintReproduces(a.books[m.locate], m.locate, e);
    LogAppend(c, a, m.locate, e, b);
  }

  lemma StateEventFields(c: Config, m: Message, index: U64, id: U16)
    requires m.Action?
    ensures var e := StateEvent(c, m, index, id);
            && e.index == index && e.timestamp == m.timestamp && e.symbolId == id && e.kind == TradingStateEvent
            && e.inSession == InSession(c, m.timestamp)
  {
    hide Trimmed;
  }

  /** Events without a book message move no book. */
  lemma PrintReproduces(live: Live, locate: U16, e: Event)
    requires e.kind in {TradeEvent, CrossEvent, BrokenTradeEvent, TradingStateEvent}
    ensures Reproduces(live, locate, e) && AfterEvent(live, locate, e) == live
  {
    hide Apply;
  }

  lemma PrintKeepsLog(c: Config, a: Market, index: U64, m: Message, id: U16, b: Market)
    requires LogOk(c, a) && (m.Trade? || m.Cross? || m.Broken?) && Routed(c, a, index, m, id, b)
    ensures LogOk(c, b)
  {
    hide LogOk, SnapshotFor, Emit, PrintEvent, FlagsFit, EncodeError, Selected, IdOf;
    RegisteredId(c, a, m.locate, id);
    var e := PrintEvent(c, m, index, id);
    PrintEventShape(c, m, index, id);
    PrintEventFields(c, m, index, id);
    var next := if m.Broken? then a
                else a.(lastTrades := a.lastTrades[m.locate := Some(LastTrade(m.price, m.shares))]);
    EmitWrites(c, next, e,
               if !m.Broken? && InSession(c, m.timestamp) && c.emitUnchanged && MayTrade(c, a.session, m.locate)
               then Some(SnapshotFor(c, next, e, m.locate, false, e.price, e.quantity)) else None, b);
    PrintReproduces(a.books[m.locate], m.locate, e);
    LogAppend(c, a, m.locate, e, b);
  }

  lemma PrintEventFields(c: Config, m: Message, index: U64, id: U16)
    requires m.Trade? || m.Cross? || m.Broken?
    ensures var e := PrintEvent(c, m, index, id);
            && e.index == index && e.timestamp == m.timestamp && e.symbolId == id
            && e.inSession == InSession(c, m.timestamp)
  {
  }

  lemma MutationKeepsLog(c: Config, a: Market, index: U64, m: Message, id: U16, b: Market)
    requires LogOk(c, a) && BookMessageOf(m, index).Some? && Routed(c, a, index, m, id, b)
    ensures LogOk(c, b)
  {
    assert !m.Action?;
    hide LogOk, SnapshotFor, Emit, BookEvent, FlagsFit, EncodeError, Selected, IdOf, Apply, TopOf, BookMessageOf;
    hide Reproduces, AfterEvent, MessagePrice;
    RegisteredId(c, a, m.locate, id);
    var live := a.books[m.locate];
    var out := AppliedOutcome(a, index, m);
    var e := BookEvent(c, m, index, id, out.result.delta);
    BookEventShape(c, live, m, index, id);
    BookEventReproduces(c, live, m, index, id);
    BookEventFields(c, m, index, id, out.result.delta);
    var next := a.(books := a.books[m.locate := out.live]);
    var price := if MessagePrice(m).Some? then MessagePrice(m) else Some(out.result.delta.price);
    EmitWrites(c, next, e,
               if InSession(c, m.timestamp) && TopOf(live, c.depth) != TopOf(out.live, c.depth) &&
                  MayTrade(c, a.session, m.locate)
               then Some(SnapshotFor(c, next, e, m.locate, true, price, e.quantity)) else None, b);
    LogAppend(c, a, m.locate, e, b);
  }

  lemma BookEventFields(c: Config, m: Message, index: U64, id: U16, delta: BookDelta)
    ensures var e := BookEvent(c, m, index, id, delta);
            && e.index == index && e.timestamp == m.timestamp && e.symbolId == id && e.kind == KindOfMessage(m)
            && e.inSession == InSession(c, m.timestamp)
  {
    hide Trimmed;
  }

  /** A newly announced instrument has no events yet. */
  lemma AnnounceKeepsLog(c: Config, a: Market, m: Message)
    requires LogOk(c, a) && m.Directory? && !DirectoryRefused(a.learned, m)
    ensures LogOk(c, Announce(c, a, m))
  {
    hide WellMade, Reproduces, Selected, DirectoryRefused, OneToOne, HasInstrument, EntryReproduces;
    var b := Announce(c, a, m);
    AfterDirectoryOneToOne(a.learned, m);
    if m.locate in a.learned {
      LearnedAlready(a.learned, m);
    } else {
      forall k | 0 <= k < |a.events| ensures EntryOk(c, b.learned, a.events, k) {
        AnnounceEntry(c, a, m, k);
      }
      forall l | l in b.books ensures b.books[l] == LogLive(b.events, IdOf(c, b.learned, l), l) {
        SelectedFrame(c.symbols, a.learned, m.locate, IdentityOf(m));
        if l == m.locate && Selected(c.symbols, b.learned, l).Some? {
          forall k | 0 <= k < |a.events| ensures a.events[k].symbolId != IdOf(c, b.learned, l) {
            NewIdIsUnused(c, a, m, k);
          }
          LogLiveNone(a.events, IdOf(c, b.learned, l), l);
        } else if l == m.locate {
          UnselectedHasNoEvents(c, a, m);
        }
      }
    }
  }

  /** The id of a first-seen locate belongs to no earlier event. */
  lemma NewIdIsUnused(c: Config, a: Market, m: Message, k: nat)
    requires LogOk(c, a) && m.Directory? && !DirectoryRefused(a.learned, m) && m.locate !in a.learned
    requires k < |a.events|
    ensures IdOf(c, AfterDirectory(a.learned, m), m.locate) != a.events[k].symbolId
  {
    hide WellMade, EntryReproduces;
    AfterDirectoryOneToOne(a.learned, m);
    SelectedFrame(c.symbols, a.learned, m.locate, IdentityOf(m));
    assert EntryOk(c, a.learned, a.events, k);
    var l: U16 :| IdOf(c, a.learned, l) == a.events[k].symbolId;
    var after := AfterDirectory(a.learned, m);
    assert l != m.locate && IdOf(c, after, l) == IdOf(c, a.learned, l);
    IdsDistinct(c, after, l, m.locate);
  }

  lemma UnselectedHasNoEvents(c: Config, a: Market, m: Message)
    requires LogOk(c, a)
    ensures LogLive(a.events, 0, m.locate) == map[]
  {
    hide WellMade, EntryReproduces;
    forall k | 0 <= k < |a.events| ensures a.events[k].symbolId != 0 {
      assert EntryOk(c, a.learned, a.events, k);
    }
    LogLiveNone(a.events, 0, m.locate);
  }

  lemma AnnounceEntry(c: Config, a: Market, m: Message, k: nat)
    requires LogOk(c, a) && m.Directory? && !DirectoryRefused(a.learned, m) && m.locate !in a.learned
    requires k < |a.events|
    ensures EntryOk(c, AfterDirectory(a.learned, m), a.events, k)
  {
    hide WellMade, Reproduces, DirectoryRefused, OneToOne, Selected;
    assert EntryOk(c, a.learned, a.events, k);
    var after := AfterDirectory(a.learned, m);
    SelectedFrame(c.symbols, a.learned, m.locate, IdentityOf(m));
    NewIdIsUnused(c, a, m, k);
    var l: U16 :| IdOf(c, a.learned, l) == a.events[k].symbolId;
    assert IdOf(c, after, l) == a.events[k].symbolId;
    forall l: U16 ensures EntryReproduces(c, after, a.events, k, l) {
      assert EntryReproduces(c, a.learned, a.events, k, l);
    }
  }

  lemma StepKeepsLog(c: Config, a: Market, f: Frame, b: Market)
    requires LogOk(c, a) && MarketStep(c, a, f, b)
    ensures LogOk(c, b)
  {
    hide WellMade, EntryOk, Routed, Announce, DirectoryRefused, OneToOne, IdOf, Selected;
    if f.Good? && f.message.Directory? {
      AnnounceKeepsLog(c, a, f.message);
    } else if ReachesLog(c, a, f) {
      RoutedKeepsLog(c, a, f.index, f.message, Selected(c.symbols, a.learned, f.message.locate).value.id, b);
    }
  }

  lemma RoutedKeepsLog(c: Config, a: Market, index: U64, m: Message, id: U16, b: Market)
    requires LogOk(c, a) && Routed(c, a, index, m, id, b)
    ensures LogOk(c, b)
  {
    hide LogOk, WriteAction, WriteMutation, WritePrint, AppliedOutcome;
    if m.Action? {
      ActionKeepsLog(c, a, index, m, id, b);
    } else if BookMessageOf(m, index).Some? {
      MutationKeepsLog(c, a, index, m, id, b);
    } else {
      PrintKeepsLog(c, a, index, m, id, b);
    }
  }

  lemma {:induction false} RunKeepsLog(c: Config, frames: seq<Frame>)
    requires ConfigOk(c) && Run(c, frames).Next?
    ensures LogOk(c, Run(c, frames).st.market)
  {
    hide Step, LogOk, Wired, MarketStep;
    if frames == [] {
      EmptyLog(c);
    } else {
      var earlier, f := frames[..|frames| - 1], frames[|frames| - 1];
      RunKeepsLog(c, earlier);
      StepIsMarketStep(c, Run(c, earlier).st, f);
      StepKeepsLog(c, Run(c, earlier).st.market, f, Run(c, frames).st.market);
    }
  }

  lemma EmptyLog(c: Config)
    requires ConfigOk(c)
    ensures LogOk(c, EMPTY_MARKET)
  {
  }

  // ---------------------------------------------------------------- the log through the validator

  function RecordsOf(events: seq<Event>): (records: seq<Bytes>)
    ensures |records| == |events|
    ensures forall i :: 0 <= i < |records| ==> |records[i]| == 72
  {
    seq(|events|, i requires 0 <= i < |events| => Record(events[i]))
  }

  /** Every requested symbol was announced, at the locate that the dictionary lists for it. */
  ghost predicate DictionaryOf(c: Config, learned: Learned, dictionary: seq<U16>) {
    && |c.symbols| <= U16_MAX
    && |dictionary| == |c.symbols|
    && forall i :: 0 <= i < |dictionary| ==> IdOf(c, learned, dictionary[i]) == i + 1
  }

  ghost predicate AllClean(events: seq<Event>) {
    forall k :: 0 <= k < |events| ==> Clean(events[k])
  }

  ghost function RebuiltFrom(c: Config, dictionary: seq<U16>, events: seq<Event>): Rebuilt {
    Rebuilt(seq(|dictionary|, i requires 0 <= i < |dictionary| => LogLive(events, i + 1, dictionary[i])),
            LastEvent(events))
  }

  /** Record by record: the validator accepts a clean prefix and rebuilds its books; from the first
      unclean record on it refuses. */
  lemma {:induction false} ValidatePrefix(c: Config, a: Market, dictionary: seq<U16>, k: nat)
    requires LogOk(c, a) && DictionaryOf(c, a.learned, dictionary) && k <= |a.events|
    ensures Validate(c, dictionary, RecordsOf(a.events[..k])) ==
            if AllClean(a.events[..k]) then Some(RebuiltFrom(c, dictionary, a.events[..k])) else None
  {
    hide LogOk, Record, ValidateRecord, Clean, LogLive, LastEvent, IdOf;
    var events := a.events[..k];
    if k == 0 {
      NothingRebuilt(c, dictionary);
    } else {
      var earlier := a.events[..k - 1];
      ValidatePrefix(c, a, dictionary, k - 1);
      assert events == earlier + [a.events[k - 1]];
      assert RecordsOf(events)[..k - 1] == RecordsOf(earlier);
      assert AllClean(events) <==> AllClean(earlier) && Clean(a.events[k - 1]);
      if AllClean(earlier) {
        ValidateNext(c, a, dictionary, k - 1);
      }
    }
  }

  lemma NothingRebuilt(c: Config, dictionary: seq<U16>)
    ensures RebuiltFrom(c, dictionary, []) == Rebuilt(FreshBooks(|dictionary|), None)
  {
  }

  lemma ValidateNext(c: Config, a: Market, dictionary: seq<U16>, k: nat)
    requires LogOk(c, a) && DictionaryOf(c, a.learned, dictionary) && k < |a.events|
    ensures ValidateRecord(c, dictionary, RebuiltFrom(c, dictionary, a.events[..k]), Record(a.events[k])) ==
            if Clean(a.events[k]) then Some(RebuiltFrom(c, dictionary, a.events[..k + 1])) else None
  {
    hide Record, ValidateRecord, Clean, Reproduces, AfterEvent, Follows, Acceptable;
    var e, before := a.events[k], RebuiltFrom(c, dictionary, a.events[..k]);
    assert EntryOk(c, a.learned, a.events, k);
    var l: U16 :| IdOf(c, a.learned, l) == e.symbolId;
    var i := e.symbolId - 1;
    assert IdOf(c, a.learned, dictionary[i]) == i + 1;
    assert EntryReproduces(c, a.learned, a.events, k, dictionary[i]);
    ValidateOne(c, dictionary, before, e);
    WellMadeAcceptable(c, e, LastEvent(a.events[..k]));
    RebuiltNext(c, dictionary, a.events, k);
  }

  lemma RebuiltNext(c: Config, dictionary: seq<U16>, events: seq<Event>, k: nat)
    requires k < |events| && 1 <= events[k].symbolId <= |dictionary|
    ensures var before, i := RebuiltFrom(c, dictionary, events[..k]), events[k].symbolId - 1;
            RebuiltFrom(c, dictionary, events[..k + 1]) ==
            Rebuilt(before.books[i := AfterEvent(before.books[i], dictionary[i], events[k])],
                    Some(Position(events[k].index, events[k].timestamp)))
  {
    hide AfterEvent, LogLive;
    assert events[..k + 1] == events[..k] + [events[k]];
    forall j | 0 <= j < |dictionary|
      ensures LogLive(events[..k + 1], j + 1, dictionary[j]) ==
              if events[k].symbolId == j + 1
              then AfterEvent(LogLive(events[..k], j + 1, dictionary[j]), dictionary[j], events[k])
              else LogLive(events[..k], j + 1, dictionary[j])
    {
      LogLiveAppend(events[..k], events[k], j + 1, dictionary[j]);
    }
  }

  lemma LiveIsRebuilt(c: Config, st: Replay, dictionary: seq<U16>, i: nat)
    requires Wired(c, st) && LogOk(c, st.market) && DictionaryOf(c, st.market.learned, dictionary) && i < |dictionary|
    ensures dictionary[i] in st.market.books
    ensures st.market.books[dictionary[i]] == LogLive(st.market.events, i + 1, dictionary[i])
  {
    hide LogLive, EntryOk, OneToOne;
    assert IdOf(c, st.market.learned, dictionary[i]) == i + 1;
  }

  lemma LogReconstructs(c: Config, st: Replay, dictionary: seq<U16>)
    requires Wired(c, st) && LogOk(c, st.market) && DictionaryOf(c, st.market.learned, dictionary)
    ensures var rebuilt := Validate(c, dictionary, RecordsOf(st.market.events));
            && (rebuilt.Some? <==> AllClean(st.market.events))
            && (rebuilt.Some? ==>
                  forall i :: 0 <= i < |dictionary| ==>
                    dictionary[i] in st.market.books && rebuilt.value.books[i] == st.market.books[dictionary[i]])
  {
    hide LogOk, Wired, Validate, IdOf, AllClean, LogLive, DictionaryOf;
    ValidatePrefix(c, st.market, dictionary, |st.market.events|);
    assert st.market.events[..|st.market.events|] == st.market.events;
    forall i | 0 <= i < |dictionary|
      ensures dictionary[i] in st.market.books &&
              st.market.books[dictionary[i]] == LogLive(st.market.events, i + 1, dictionary[i])
    {
      LiveIsRebuilt(c, st, dictionary, i);
    }
  }

  /** The main result. For every configuration, strict or permissive, and every stream on which the
      run succeeds with all symbols announced: deep validation of the written records succeeds if
      and only if every event is clean, and then each rebuilt book is the live one. */
  lemma LogReconstructsState(c: Config, frames: seq<Frame>, dictionary: seq<U16>)
    requires ConfigOk(c) && Run(c, frames).Next?
    requires DictionaryOf(c, Run(c, frames).st.market.learned, dictionary)
    ensures var market := Run(c, frames).st.market;
            var rebuilt := Validate(c, dictionary, RecordsOf(market.events));
            && (rebuilt.Some? <==> AllClean(market.events))
            && (rebuilt.Some? ==>
                  forall i :: 0 <= i < |dictionary| ==>
                    dictionary[i] in market.books && rebuilt.value.books[i] == market.books[dictionary[i]])
  {
    hide Run, LogOk, Wired, Validate, AllClean, DictionaryOf;
    RunKeepsLog(c, frames);
    LogReconstructs(c, Run(c, frames).st, dictionary);
  }
}
