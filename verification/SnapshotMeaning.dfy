/** What the bytes of a written snapshot say about the message that triggered it, the last trade, the
    trading state and the book (cpp/src/replay/replay_coordinator.cpp, cpp/src/output/snapshot_writer.cpp). */
module SnapshotMeaning {
  import opened Types
  import opened BookModel
  import opened BookView
  import opened BookOutcomes
  import opened Messages
  import opened Session
  import opened InstrumentDirectoryModule
  import opened EventCodec
  import opened SnapshotCodec
  import opened ReplayModel
  import opened ReplayLog
  import opened ReplayStream
  import opened ReplayBooks
  import opened ReplaySnapshots
  import opened RecordMeaning

  /** The state byte of each trading state. */
  predicate StateByte(state: TradingState, code: nat) {
    || (state == Unknown && code == 0) || (state == Preopen && code == 1) || (state == Trading && code == 2)
    || (state == Halted && code == 3) || (state == Paused && code == 4) || (state == QuotationOnly && code == 5)
    || (state == Closed && code == 6)
  }

  /** Kind, price and quantity of the trigger: the message's own, or those of the order it acts on. */
  ghost predicate TriggerTold(m: Message, live: Live, record: Bytes)
    requires |record| >= FIXED_SIZE
  {
    var price, quantity := Field32(record, 20), Field64(record, 24);
    match m
    case AddOrder(_, _, _, _, shares, _, p) => record[18] == 1 && price == p && quantity == shares
    case AddAttributed(_, _, _, _, shares, _, p, _) => record[18] == 1 && price == p && quantity == shares
    case Executed(_, _, r, shares, _) => record[18] == 2 && r in live && price == live[r].price && quantity == shares
    case ExecutedPrice(_, _, r, shares, _, _) =>
      record[18] == 3 && r in live && price == live[r].price && quantity == shares
    case CancelOrder(_, _, r, shares) => record[18] == 4 && r in live && price == live[r].price && quantity == shares
    case DeleteOrder(_, _, r) =>
      record[18] == 5 && r in live && price == live[r].price && quantity == live[r].remaining
    case ReplaceOrder(_, _, _, _, shares, p) => record[18] == 6 && price == p && quantity == shares
    case Trade(_, _, _, _, shares, _, p, _) => record[18] == 7 && price == p && quantity == shares
    case Cross(_, _, shares, _, p, _, _) => record[18] == 8 && price == p && quantity == shares
    case Action(_, _, _, _, _) => record[18] == 10 && price == 0 && quantity == 0
    case _ => false
  }

  /** The flag byte: 3 for a trigger with price and quantity, 4 for a last trade, the trading state in
      the bits from 8 on, 64 for a changed top. */
  ghost predicate FlagsTold(m: Message, trade: Option<LastTrade>, state: TradingState, flags: U8) {
    exists code: nat :: StateByte(state, code) &&
      flags == (if m.Action? then 0 else 3) + (if trade.Some? then 4 else 0) + 8 * code +
               (if m.Action? || m.Trade? || m.Cross? then 0 else 64)
  }

  ghost predicate TellsSnapshot(c: Config, index: U64, m: Message, id: U16, before: Live, after: Live,
                                trade: Option<LastTrade>, state: TradingState, record: Bytes)
    requires |record| == RecordSize(c.depth)
  {
    && Field64(record, 0) == index && Field64(record, 8) == m.timestamp && Field16(record, 16) == id
    && TriggerTold(m, before, record) && FlagsTold(m, trade, state, record[19])
    && Field32(record, 32) == (if trade.Some? then trade.value.price else 0)
    && Field64(record, 40) == (if trade.Some? then trade.value.quantity else 0)
    && HighestBids(after, BidsAt(record, c.depth)) && LowestAsks(after, AsksAt(record, c.depth))
    && c.sessionStart <= m.timestamp < c.sessionEnd
    && (c.requireTradingState && !m.Action? ==> state == Trading)
  }

  lemma TriggerIs(c: Config, a: Market, f: Frame, record: Bytes)
    requires TakesSnapshot(c, a, f) && ReachesLog(c, a, f) && |record| >= FIXED_SIZE
    requires Registered(Touched(c, a, f), f.message.locate)
    requires var s := SnapshotOf(c, a, f);
             && record[18] == KindCode(s.kind) && Field32(record, 20) == s.eventPrice.GetOr(0)
             && Field64(record, 24) == s.eventQuantity.GetOr(0)
    ensures TriggerTold(f.message, a.books[f.message.locate], record)
  {
    hide Field32, Field64, TopOf, Trimmed, LevelTotal, AllEarlier, Selected;
  }

  lemma FlagsAreTold(c: Config, a: Market, f: Frame)
    requires TakesSnapshot(c, a, f) && ReachesLog(c, a, f) && Registered(Touched(c, a, f), f.message.locate)
    ensures var next := Touched(c, a, f);
            FlagsTold(f.message, next.lastTrades[f.message.locate], next.session.states[f.message.locate],
                      SnapshotFlags(SnapshotOf(c, a, f)))
  {
    hide TopOf, Trimmed, Apply, Selected, Touched;
    var state := Touched(c, a, f).session.states[f.message.locate];
    assert StateByte(state, StateCodeOf(state));
    ShapeOfSnapshot(c, a, f);
  }

  lemma ShapeOfSnapshot(c: Config, a: Market, f: Frame)
    requires TakesSnapshot(c, a, f) && ReachesLog(c, a, f) && Registered(Touched(c, a, f), f.message.locate)
    ensures var s, next, l := SnapshotOf(c, a, f), Touched(c, a, f), f.message.locate;
            && s.index == f.index && s.timestamp == f.message.timestamp
            && s.symbolId == Selected(c.symbols, a.learned, l).value.id
            && (s.eventPrice.Some? <==> !f.message.Action?) && (s.eventQuantity.Some? <==> !f.message.Action?)
            && (s.topChanged <==> !f.message.Action? && !f.message.Trade? && !f.message.Cross?)
            && s.state == next.session.states[l] && s.top == TopOf(next.books[l], c.depth)
            && s.lastTradePrice == (if next.lastTrades[l].Some? then Some(next.lastTrades[l].value.price) else None)
            && s.lastTradeQuantity == (if next.lastTrades[l].Some? then Some(next.lastTrades[l].value.quantity) else None)
  {
    hide TopOf, Trimmed, LevelTotal, AllEarlier, Selected;
  }

  /** The snapshot of a frame that passes the snapshot guard. */
  lemma FrameTellsSnapshot(c: Config, a: Market, f: Frame, next: nat)
    requires TakesSnapshot(c, a, f) && ReachesLog(c, a, f) && BooksOk(a, next) && next <= f.index
    requires SnapshotError(SnapshotOf(c, a, f), c.depth) == None
    ensures Registered(Touched(c, a, f), f.message.locate)
    ensures var after, l := Touched(c, a, f), f.message.locate;
            TellsSnapshot(c, f.index, f.message, Selected(c.symbols, a.learned, l).value.id, a.books[l], after.books[l],
                          after.lastTrades[l], after.session.states[l], SnapshotRecord(SnapshotOf(c, a, f)))
  {
    hide Field16, Field32, Field64, SnapshotRecord, PrefixBytes, TriggerTold, FlagsTold, HighestBids, LowestAsks, TopOf;
    hide SnapshotOf, Selected, Indexable, BooksOk, BidsAt, AsksAt, SnapshotFlags, Ladder, ReachesLog, SnapshotOk;
    hide Touched, TakesSnapshot;
    LoggedIsRegistered(c, a, f);
    var s, l := SnapshotOf(c, a, f), f.message.locate;
    var record := SnapshotRecord(s);
    TouchedBookOk(c, a, f, next);
    ShapeOfSnapshot(c, a, f);
    SnapshotPrefix(s, c.depth);
    TriggerIs(c, a, f, record);
    FlagsAreTold(c, a, f);
    TopTold(l, Touched(c, a, f).books[l], c.depth);
    ValidateEncoded(s, c.depth, 0, None);
    GuardTold(c, a, f);
  }

  lemma SnapshotPrefix(s: Snapshot, depth: nat)
    requires SnapshotError(s, depth) == None
    ensures var bytes := SnapshotRecord(s);
            && Field64(bytes, 0) == s.index && Field64(bytes, 8) == s.timestamp && Field16(bytes, 16) == s.symbolId
            && bytes[18] == KindCode(s.kind) && bytes[19] == SnapshotFlags(s)
            && Field32(bytes, 20) == s.eventPrice.GetOr(0) && Field64(bytes, 24) == s.eventQuantity.GetOr(0)
            && Field32(bytes, 32) == s.lastTradePrice.GetOr(0) && Field64(bytes, 40) == s.lastTradeQuantity.GetOr(0)
  {
    hide Field16, Field32, Field64, PrefixBytes, EntriesBytes, SnapshotFlags, Ladder;
    assert SnapshotRecord(s)[..FIXED_SIZE] == PrefixBytes(s);
    PrefixRead(s, SnapshotRecord(s));
  }

  lemma TopTold(locate: U16, live: Live, depth: U16)
    requires Indexable(locate, live)
    ensures HighestBids(live, TopOf(live, depth).bids) && LowestAsks(live, TopOf(live, depth).asks)
  {
    hide Indexable, HighestBids, LowestAsks, TopSide, TotalsFit;
    TopLadder(locate, live, Buy, depth);
    TopIsBest(live, depth);
  }

  lemma GuardTold(c: Config, a: Market, f: Frame)
    requires TakesSnapshot(c, a, f) && ReachesLog(c, a, f) && Registered(Touched(c, a, f), f.message.locate)
    ensures c.sessionStart <= f.message.timestamp < c.sessionEnd
    ensures c.requireTradingState && !f.message.Action? ==>
              Touched(c, a, f).session.states[f.message.locate] == Trading
  {
    hide TopOf, Apply, Selected, BookMessageOf;
  }

  // ---------------------------------------------------------------- whole runs

  /** In a successful run each frame that passes the snapshot guard has its own snapshot record, the next
      one in the file. It tells the frame's message, the state that the message leaves, the latest
      print of the instrument, this frame included, and the best prices of the book that it leaves. */
  lemma RunTellsSnapshot(c: Config, frames: seq<Frame>, k: nat)
    requires ConfigOk(c) && Numbered(frames) && k < |frames| && Run(c, frames).Next?
    requires TakesSnapshot(c, Follow(c, frames[..k]), frames[k])
    ensures var a, b, m, n := Follow(c, frames[..k]), Follow(c, frames[..k + 1]), frames[k].message,
                              |Follow(c, frames[..k]).snapshots|;
            var snapshots, latest := Run(c, frames).st.market.snapshots, LatestPrint(c, frames[..k + 1], m.locate);
            && n < |snapshots| && |snapshots[n].top.bids| == |snapshots[n].top.asks| == c.depth
            && m.locate in a.books && m.locate in b.books && m.locate in b.session.states
            && Selected(c.symbols, a.learned, m.locate).Some?
            && TellsSnapshot(c, frames[k].index, m, Selected(c.symbols, a.learned, m.locate).value.id,
                             a.books[m.locate], b.books[m.locate],
                             if latest.Some? then Some(LastTrade(latest.value.price, latest.value.shares)) else None,
                             b.session.states[m.locate], SnapshotRecord(snapshots[n]))
  {
    hide Run, Follow, ReachesLog, TakesSnapshot, TellsSnapshot, SnapshotRecord, SnapshotOf, SnapshotError, Selected;
    hide BooksOk, Mirrors, EventOf, LatestPrint, Touched, AfterFrame, Numbered;
    var a, f, n := Follow(c, frames[..k]), frames[k], |Follow(c, frames[..k]).snapshots|;
    NoSnapshot(c, a, f);
    LoggedIsRegistered(c, a, f);
    PrefixRuns(c, frames, k);
    PrefixRuns(c, frames, k + 1);
    RunFollowsStream(c, frames);
    RunFollowsStream(c, frames[..k]);
    RunFollowsStream(c, frames[..k + 1]);
    NumberedPrefix(frames, k);
    RunKeepsBooks(c, frames[..k]);
    RunKeepsSnapshots(c, frames);
    FollowNext(c, frames, k);
    AfterFrameLogs(c, a, f);
    AfterReached(c, a, f);
    EventsStay(c, frames, k + 1);
    var snapshots := Run(c, frames).st.market.snapshots;
    assert Follow(c, frames[..k + 1]).snapshots[n] == SnapshotOf(c, a, f);
    assert snapshots[n] == SnapshotOf(c, a, f);
    SnapshotEncodes(c, Run(c, frames).st.market, n);
    FrameTellsSnapshot(c, a, f, NextIndex(frames[..k]));
    LastTradeIsLatestPrint(c, frames[..k + 1], f.message.locate);
  }

  lemma NumberedPrefix(frames: seq<Frame>, k: nat)
    requires Numbered(frames) && k < |frames|
    ensures Numbered(frames[..k]) && NextIndex(frames[..k]) <= frames[k].index
  {
    if k > 0 {
      assert frames[k - 1].index < frames[k].index;
    }
  }

  lemma AfterReached(c: Config, a: Market, f: Frame)
    requires ReachesLog(c, a, f)
    ensures AfterFrame(c, a, f).books == Touched(c, a, f).books
    ensures AfterFrame(c, a, f).lastTrades == Touched(c, a, f).lastTrades
    ensures AfterFrame(c, a, f).session == Touched(c, a, f).session
  {
    hide ReachesLog, Touched, EventOf, MaybeSnapshot;
    NotAnnounced(c, a, f);
  }

  lemma SnapshotEncodes(c: Config, a: Market, k: nat)
    requires SnapshotsOk(c, a) && k < |a.snapshots|
    ensures SnapshotError(a.snapshots[k], c.depth) == None
    ensures |a.snapshots[k].top.bids| == |a.snapshots[k].top.asks| == c.depth
  {
    hide Mirrors, Behind, TriggeredBy, SnapshotShape, Ladder;
    assert SnapshotEntryOk(c, a, k);
  }
}
