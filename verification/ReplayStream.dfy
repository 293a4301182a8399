/** What a stream alone says: the market that its frames describe, both output logs included, built
    frame by frame without counters, budgets or refusals.  Whenever a run succeeds it ends in exactly
    this market, so which messages are logged and which write a snapshot is decided by the routing
    guard on the market before them. */
module ReplayStream {
  import opened Types
  import opened BookModel
  import opened Messages
  import opened Session
  import opened InstrumentDirectoryModule
  import opened EventCodec
  import opened SnapshotCodec
  import opened ReplayModel
  import opened ReplayLog

  // ---------------------------------------------------------------- one frame

  /** The market after a frame, apart from the logs. */
  ghost function Touched(c: Config, a: Market, f: Frame): Market
    requires ReachesLog(c, a, f)
  {
    var m := f.message;
    if m.Action? then
      if DecodeState(m.state).Some? then a.(session := AfterAction(a.session, m.locate, m.state)) else a
    else if BookMessageOf(m, f.index).Some? then
      a.(books := a.books[m.locate := AppliedOutcome(a, f.index, m).live])
    else if m.Broken? then a
    else a.(lastTrades := a.lastTrades[m.locate := Some(LastTrade(m.price, m.shares))])
  }

  ghost function EventOf(c: Config, a: Market, f: Frame): Event
    requires ReachesLog(c, a, f)
  {
    var m := f.message;
    var id := Selected(c.symbols, a.learned, m.locate).value.id;
    if m.Action? then StateEvent(c, m, f.index, id)
    else if BookMessageOf(m, f.index).Some? then
      BookEvent(c, m, f.index, id, AppliedOutcome(a, f.index, m).result.delta)
    else PrintEvent(c, m, f.index, id)
  }

  /** The snapshot guard: an action that changes the state, a book message that changes the top of
      the book, or a trade or cross when unchanged tops are wanted; in session, and apart from actions
      only while the instrument may trade. */
  ghost predicate TakesSnapshot(c: Config, a: Market, f: Frame) {
    && ReachesLog(c, a, f) && InSession(c, f.message.timestamp)
    && var m := f.message;
       if m.Action? then DecodeState(m.state) != Some(a.session.states[m.locate])
       else
         && MayTrade(c, a.session, m.locate)
         && if BookMessageOf(m, f.index).Some? then
              TopOf(a.books[m.locate], c.depth) != TopOf(AppliedOutcome(a, f.index, m).live, c.depth)
            else !m.Broken? && c.emitUnchanged
  }

  ghost function SnapshotOf(c: Config, a: Market, f: Frame): Snapshot
    requires ReachesLog(c, a, f)
  {
    var m, e, next := f.message, EventOf(c, a, f), Touched(c, a, f);
    if m.Action? then SnapshotFor(c, next, e, m.locate, false, None, None)
    else if BookMessageOf(m, f.index).Some? then
      var delta := AppliedOutcome(a, f.index, m).result.delta;
      SnapshotFor(c, next, e, m.locate, true,
                  if MessagePrice(m).Some? then MessagePrice(m) else Some(delta.price), e.quantity)
    else SnapshotFor(c, next, e, m.locate, false, e.price, e.quantity)
  }

  ghost function MaybeSnapshot(c: Config, a: Market, f: Frame): Option<Snapshot>
    requires ReachesLog(c, a, f)
  {
    if TakesSnapshot(c, a, f) then Some(SnapshotOf(c, a, f)) else None
  }

  /** The market after a frame that the replay takes. */
  ghost function AfterFrame(c: Config, a: Market, f: Frame): Market
    requires |c.symbols| <= U16_MAX
  {
    if f.Good? && f.message.System? then
      if SystemRefused(a.session, f.message.locate, f.message.code) then a
      else a.(session := AfterSystem(a.session, f.message.code))
    else if f.Good? && f.message.Directory? then Announce(c, a, f.message)
    else if ReachesLog(c, a, f) then
      var s := MaybeSnapshot(c, a, f);
      Touched(c, a, f).(events := a.events + [EventOf(c, a, f)],
                      snapshots := if s.Some? then a.snapshots + [s.value] else a.snapshots)
    else a
  }

  // ---------------------------------------------------------------- a write is the frame's write

  lemma TouchedKeepsLogs(c: Config, a: Market, f: Frame)
    requires ReachesLog(c, a, f)
    ensures Touched(c, a, f).events == a.events && Touched(c, a, f).snapshots == a.snapshots
    ensures Registered(Touched(c, a, f), f.message.locate)
  {
    hide BookMessageOf, AppliedOutcome, Selected;
  }

  lemma ActionIsEmit(c: Config, a: Market, f: Frame)
    requires ReachesLog(c, a, f) && f.message.Action? && !ActionRefused(a.session, f.message.locate, f.message.state)
    ensures WriteAction(c, a, f.index, f.message, Selected(c.symbols, a.learned, f.message.locate).value.id) ==
            Emit(c, Touched(c, a, f), EventOf(c, a, f), MaybeSnapshot(c, a, f))
  {
    hide Emit, StateEvent, Selected, TopOf, SnapshotFor;
  }

  lemma MutationIsEmit(c: Config, a: Market, f: Frame)
    requires ReachesLog(c, a, f) && !f.message.Action? && BookMessageOf(f.message, f.index).Some?
    ensures WriteMutation(c, a, f.index, f.message, Selected(c.symbols, a.learned, f.message.locate).value.id) ==
            Emit(c, Touched(c, a, f), EventOf(c, a, f), MaybeSnapshot(c, a, f))
  {
    hide Emit, BookEvent, Selected, TopOf, SnapshotFor, BookMessageOf, AppliedOutcome, MessagePrice, MayTrade;
  }

  lemma PrintIsEmit(c: Config, a: Market, f: Frame)
    requires ReachesLog(c, a, f) && !f.message.Action? && BookMessageOf(f.message, f.index).None?
    ensures WritePrint(c, a, f.index, f.message, Selected(c.symbols, a.learned, f.message.locate).value.id) ==
            Emit(c, Touched(c, a, f), EventOf(c, a, f), MaybeSnapshot(c, a, f))
  {
    hide Emit, PrintEvent, Selected, TopOf, SnapshotFor, AppliedOutcome, MayTrade;
  }

  /** A routed message is written as Emit writes its event and its snapshot. */
  lemma RoutedIsEmit(c: Config, a: Market, f: Frame, b: Market)
    requires ReachesLog(c, a, f)
    requires Routed(c, a, f.index, f.message, Selected(c.symbols, a.learned, f.message.locate).value.id, b)
    ensures Emit(c, Touched(c, a, f), EventOf(c, a, f), MaybeSnapshot(c, a, f)) == Wrote(b)
  {
    var m := f.message;
    assert m.Action? ==> BookMessageOf(m, f.index).None?;
    hide Emit, WriteMutation, WritePrint, Selected, BookMessageOf, AppliedOutcome, EventOf, Touched, MaybeSnapshot;
    hide StateEvent, SnapshotFor;
    if m.Action? {
      ActionIsEmit(c, a, f);
    } else if BookMessageOf(m, f.index).Some? {
      MutationIsEmit(c, a, f);
    } else {
      PrintIsEmit(c, a, f);
    }
  }

  /** A step of the market writes what the frame alone determines. */
  lemma StepIsAfterFrame(c: Config, a: Market, f: Frame, b: Market)
    requires MarketStep(c, a, f, b)
    ensures b == AfterFrame(c, a, f)
  {
    hide Routed, Announce, Touched, EventOf, MaybeSnapshot, Emit, Selected, ReachesLog, SystemRefused, DirectoryRefused;
    if ReachesLog(c, a, f) {
      NotAnnounced(c, a, f);
      RoutedIsEmit(c, a, f, b);
      EmitWrites(c, Touched(c, a, f), EventOf(c, a, f), MaybeSnapshot(c, a, f), b);
      TouchedKeepsLogs(c, a, f);
    }
  }

  // ---------------------------------------------------------------- whole streams

  /** The market that a stream describes. */
  ghost function Follow(c: Config, frames: seq<Frame>): Market
    requires |c.symbols| <= U16_MAX
  {
    if frames == [] then EMPTY_MARKET
    else AfterFrame(c, Follow(c, frames[..|frames| - 1]), frames[|frames| - 1])
  }

  /** Whatever the policy, the budget and the counters did on the way: a run that succeeds ends in
      the market that its stream describes, with exactly these events and snapshots. */
  lemma {:induction false} RunFollowsStream(c: Config, frames: seq<Frame>)
    requires ConfigOk(c) && Run(c, frames).Next?
    ensures Run(c, frames).st.market == Follow(c, frames)
  {
    hide Step, Wired, MarketStep, AfterFrame;
    if frames != [] {
      var earlier, f := frames[..|frames| - 1], frames[|frames| - 1];
      RunFollowsStream(c, earlier);
      StepIsMarketStep(c, Run(c, earlier).st, f);
      StepIsAfterFrame(c, Run(c, earlier).st.market, f, Run(c, frames).st.market);
    }
  }

  /** Frame k is logged, told from the frames before it. */
  ghost predicate Logged(c: Config, frames: seq<Frame>, k: nat)
    requires |c.symbols| <= U16_MAX && k < |frames|
  {
    ReachesLog(c, Follow(c, frames[..k]), frames[k])
  }

  /** The guards are exact: in a successful run frame k writes one event if it passes the routing
      guard, one snapshot if it passes the snapshot guard, and nothing otherwise. */
  lemma LoggedExactly(c: Config, frames: seq<Frame>, k: nat)
    requires ConfigOk(c) && k < |frames| && Run(c, frames).Next?
    ensures Run(c, frames[..k]).Next? && Run(c, frames[..k + 1]).Next?
    ensures var a, b := Run(c, frames[..k]).st.market, Run(c, frames[..k + 1]).st.market;
            b.events == if Logged(c, frames, k) then a.events + [EventOf(c, Follow(c, frames[..k]), frames[k])]
                        else a.events
    ensures var a, b := Run(c, frames[..k]).st.market, Run(c, frames[..k + 1]).st.market;
            b.snapshots == if TakesSnapshot(c, Follow(c, frames[..k]), frames[k])
                           then a.snapshots + [SnapshotOf(c, Follow(c, frames[..k]), frames[k])] else a.snapshots
  {
    hide Step, Wired, AfterFrame, ReachesLog, TakesSnapshot, EventOf, SnapshotOf;
    PrefixRuns(c, frames, k);
    PrefixRuns(c, frames, k + 1);
    RunFollowsStream(c, frames[..k]);
    RunFollowsStream(c, frames[..k + 1]);
    assert frames[..k + 1][..k] == frames[..k];
    AfterFrameLogs(c, Follow(c, frames[..k]), frames[k]);
  }

  lemma AfterFrameLogs(c: Config, a: Market, f: Frame)
    requires |c.symbols| <= U16_MAX
    ensures AfterFrame(c, a, f).events == if ReachesLog(c, a, f) then a.events + [EventOf(c, a, f)] else a.events
    ensures AfterFrame(c, a, f).snapshots ==
            if TakesSnapshot(c, a, f) then a.snapshots + [SnapshotOf(c, a, f)] else a.snapshots
  {
    hide ReachesLog, EventOf, SnapshotOf, Touched, SystemRefused, Selected;
    if ReachesLog(c, a, f) {
      NotAnnounced(c, a, f);
    } else {
      NoSnapshot(c, a, f);
    }
  }

  lemma NoSnapshot(c: Config, a: Market, f: Frame)
    ensures TakesSnapshot(c, a, f) ==> ReachesLog(c, a, f)
  {
  }

  lemma NotAnnounced(c: Config, a: Market, f: Frame)
    requires ReachesLog(c, a, f)
    ensures f.Good? && !f.message.System? && !f.message.Directory?
  {
  }

  /** A run that succeeds has succeeded on every prefix. */
  lemma {:induction false} PrefixRuns(c: Config, frames: seq<Frame>, k: nat)
    requires ConfigOk(c) && k <= |frames| && Run(c, frames).Next?
    ensures Run(c, frames[..k]).Next?
    decreases |frames|
  {
    hide Step, Wired;
    if k == |frames| {
      assert frames[..k] == frames;
    } else {
      assert frames[..|frames| - 1][..k] == frames[..k];
      PrefixRuns(c, frames[..|frames| - 1], k);
    }
  }

  // ---------------------------------------------------------------- the latest print

  ghost predicate Prints(c: Config, a: Market, f: Frame) {
    ReachesLog(c, a, f) && (f.message.Trade? || f.message.Cross?)
  }

  /** The latest logged trade or cross of an instrument. */
  ghost function LatestPrint(c: Config, frames: seq<Frame>, l: U16): (latest: Option<Message>)
    requires |c.symbols| <= U16_MAX
    ensures latest.Some? ==> latest.value.Trade? || latest.value.Cross?
  {
    if frames == [] then None
    else
      var earlier, f := frames[..|frames| - 1], frames[|frames| - 1];
      if Prints(c, Follow(c, earlier), f) && f.message.locate == l then Some(f.message)
      else LatestPrint(c, earlier, l)
  }

  /** The last trade that the market keeps for an instrument is the latest print. */
  ghost predicate TradesMatch(c: Config, a: Market, frames: seq<Frame>, l: U16)
    requires |c.symbols| <= U16_MAX
  {
    var latest := LatestPrint(c, frames, l);
    if l in a.lastTrades then
      a.lastTrades[l] == if latest.Some? then Some(LastTrade(latest.value.price, latest.value.shares)) else None
    else latest.None?
  }

  lemma {:induction false} LastTradeIsLatestPrint(c: Config, frames: seq<Frame>, l: U16)
    requires ConfigOk(c) && Run(c, frames).Next?
    ensures TradesMatch(c, Run(c, frames).st.market, frames, l)
  {
    hide Step, Routed, ReachesLog, Wired, Follow, SystemRefused, DirectoryRefused, AfterFrame, Announce;
    if frames != [] {
      var earlier, f := frames[..|frames| - 1], frames[|frames| - 1];
      LastTradeIsLatestPrint(c, earlier, l);
      RunFollowsStream(c, earlier);
      StepIsMarketStep(c, Run(c, earlier).st, f);
      StepIsAfterFrame(c, Run(c, earlier).st.market, f, Run(c, frames).st.market);
      StepKeepsTrades(c, Run(c, earlier).st, f, l);
    }
  }

  /** What one frame does to the last trade of an instrument. */
  lemma StepKeepsTrades(c: Config, st: Replay, f: Frame, l: U16)
    requires Wired(c, st)
    requires f.Good? && f.message.Directory? ==> !DirectoryRefused(st.market.learned, f.message)
    ensures var a := st.market;
            var b := AfterFrame(c, a, f);
            if Prints(c, a, f) && f.message.locate == l then
              l in b.lastTrades && b.lastTrades[l] == Some(LastTrade(f.message.price, f.message.shares))
            else if l in a.lastTrades then l in b.lastTrades && b.lastTrades[l] == a.lastTrades[l]
            else l in b.lastTrades ==> b.lastTrades[l] == None
  {
    hide ReachesLog, EventOf, MaybeSnapshot, Touched, Wired, SystemRefused, DirectoryRefused, Announce;
    if ReachesLog(c, st.market, f) {
      NotAnnounced(c, st.market, f);
      TouchedTrades(c, st.market, f);
    } else if f.Good? && f.message.Directory? {
      AnnouncedTrades(c, st, f.message, l);
    }
  }

  lemma TouchedTrades(c: Config, a: Market, f: Frame)
    requires ReachesLog(c, a, f)
    ensures f.message.locate in a.lastTrades
    ensures Touched(c, a, f).lastTrades ==
            if f.message.Trade? || f.message.Cross?
            then a.lastTrades[f.message.locate := Some(LastTrade(f.message.price, f.message.shares))]
            else a.lastTrades
  {
    hide Selected, AppliedOutcome;
  }

  /** A newly announced instrument starts without a last trade, and nothing else changes. */
  lemma AnnouncedTrades(c: Config, st: Replay, m: Message, l: U16)
    requires Wired(c, st) && m.Directory? && !DirectoryRefused(st.market.learned, m)
    ensures var a, b := st.market, Announce(c, st.market, m);
            if l in a.lastTrades then l in b.lastTrades && b.lastTrades[l] == a.lastTrades[l]
            else l in b.lastTrades ==> b.lastTrades[l] == None
  {
    hide Selected, OneToOne, DirectoryRefused;
    if m.locate in st.market.lastTrades {
      assert Selected(c.symbols, st.market.learned, m.locate).Some?;
      SelectedIsLearned(c, st.market.learned, m.locate);
    }
  }

  lemma SelectedIsLearned(c: Config, learned: Learned, l: U16)
    requires |c.symbols| <= U16_MAX && Selected(c.symbols, learned, l).Some?
    ensures l in learned
  {
  }
}
