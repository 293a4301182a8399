/** Trading states over whole runs, told from the bytes of the messages: the latest logged action
    decides until the market closes, and system events come in the order of the trading day
    (cpp/src/replay/session_state.cpp, cpp/src/replay/replay_coordinator.cpp). */
module SessionRuns {
  import opened Types
  import opened Messages
  import opened Session
  import opened InstrumentDirectoryModule
  import opened ReplayModel
  import opened ReplayLog
  import opened ReplayStream

  ghost predicate Acts(c: Config, a: Market, f: Frame) {
    ReachesLog(c, a, f) && f.message.Action?
  }

  /** The latest logged trading action of an instrument. */
  ghost function LatestAction(c: Config, frames: seq<Frame>, l: U16): (latest: Option<Message>)
    requires |c.symbols| <= U16_MAX
    ensures latest.Some? ==> latest.value.Action?
  {
    if frames == [] then None
    else
      var earlier, f := frames[..|frames| - 1], frames[|frames| - 1];
      if Acts(c, Follow(c, earlier), f) && f.message.locate == l then Some(f.message)
      else LatestAction(c, earlier, l)
  }

  predicate Closes(f: Frame) {
    f.Good? && f.message.System? && f.message.code in {'M' as int, 'E' as int, 'C' as int}
  }

  /** End of market hours, of system hours or of messages was announced. */
  predicate MarketClosed(frames: seq<Frame>) {
    exists i :: 0 <= i < |frames| && Closes(frames[i])
  }

  lemma ClosedNext(frames: seq<Frame>)
    requires frames != []
    ensures MarketClosed(frames) <==> MarketClosed(frames[..|frames| - 1]) || Closes(frames[|frames| - 1])
  {
    var earlier := frames[..|frames| - 1];
    if MarketClosed(earlier) {
      var i :| 0 <= i < |earlier| && Closes(earlier[i]);
      assert Closes(frames[i]);
    }
    if MarketClosed(frames) {
      var i :| 0 <= i < |frames| && Closes(frames[i]);
      assert i < |earlier| ==> Closes(earlier[i]);
    }
  }

  /** The state of an instrument, told from its latest action and from whether the market closed. */
  ghost predicate StateTold(v: SessionView, latest: Option<Message>, closed: bool, l: U16)
    requires latest.Some? ==> latest.value.Action?
  {
    if l !in v.states then latest.None?
    else if closed then v.states[l] == Closed
    else if latest.None? then v.states[l] in {Preopen, Halted}
    else MeansState(latest.value.state, v.states[l])
  }

  // ---------------------------------------------------------------- one step

  lemma SystemTold(v: SessionView, locate: U16, code: U8, latest: Option<Message>, closed: bool, l: U16)
    requires !SystemRefused(v, locate, code) && (AtLeast(v.rank, 3) <==> closed)
    requires latest.Some? ==> latest.value.Action?
    requires StateTold(v, latest, closed, l)
    ensures var now := closed || code in {'M' as int, 'E' as int, 'C' as int};
            && (AtLeast(AfterSystem(v, code).rank, 3) <==> now)
            && StateTold(AfterSystem(v, code), latest, now, l)
  {
  }

  lemma ActionTold(v: SessionView, m: Message, latest: Option<Message>, closed: bool, l: U16)
    requires m.Action? && !ActionRefused(v, m.locate, m.state) && (AtLeast(v.rank, 3) <==> closed)
    requires latest.Some? ==> latest.value.Action?
    requires StateTold(v, latest, closed, l)
    ensures var after := AfterAction(v, m.locate, m.state);
            && (AtLeast(after.rank, 3) <==> closed)
            && StateTold(after, if m.locate == l then Some(m) else latest, closed, l)
  {
    hide AfterAction, DecodeState;
    ActionDecides(v, m.locate, m.state);
    ActionKeys(v, m.locate, m.state);
  }

  lemma ActionKeys(v: SessionView, locate: U16, code: U8)
    requires !ActionRefused(v, locate, code)
    ensures AfterAction(v, locate, code).states.Keys == v.states.Keys
  {
  }

  lemma AnnounceTold(c: Config, st: Replay, m: Message, latest: Option<Message>, closed: bool, l: U16)
    requires Wired(c, st) && m.Directory? && !DirectoryRefused(st.market.learned, m)
    requires AtLeast(st.market.session.rank, 3) <==> closed
    requires latest.Some? ==> latest.value.Action?
    requires StateTold(st.market.session, latest, closed, l)
    ensures var v := Announce(c, st.market, m).session;
            (AtLeast(v.rank, 3) <==> closed) && StateTold(v, latest, closed, l)
  {
    hide OneToOne, DirectoryRefused, Selected, MeansState;
  }

  /** What a routed message does to the session: an action is taken, everything else leaves it. */
  lemma RoutedSession(c: Config, a: Market, f: Frame, b: Market)
    requires ReachesLog(c, a, f)
    requires Routed(c, a, f.index, f.message, Selected(c.symbols, a.learned, f.message.locate).value.id, b)
    ensures if f.message.Action?
            then !ActionRefused(a.session, f.message.locate, f.message.state) &&
                 b.session == AfterAction(a.session, f.message.locate, f.message.state)
            else b.session == a.session
  {
    hide EventRefusal, SnapshotRefusal, SnapshotFor, BookEvent, StateEvent, PrintEvent, TopOf, Selected, AppliedOutcome;
    hide MessagePrice, BookMessageOf, ActionRefused, AfterAction;
    assert f.message.Action? ==> BookMessageOf(f.message, f.index).None? by {
      ActionIsNoBookMessage(f.message, f.index);
    }
  }

  lemma ActionIsNoBookMessage(m: Message, index: U64)
    ensures m.Action? ==> BookMessageOf(m, index).None?
  {
  }

  // ---------------------------------------------------------------- whole runs

  lemma {:induction false} RunTold(c: Config, frames: seq<Frame>, l: U16)
    requires ConfigOk(c) && Run(c, frames).Next?
    ensures var v := Run(c, frames).st.market.session;
            && (AtLeast(v.rank, 3) <==> MarketClosed(frames))
            && StateTold(v, LatestAction(c, frames, l), MarketClosed(frames), l)
  {
    hide Step, Wired, ReachesLog, Routed, StateTold, AtLeast, MarketClosed, Follow, SystemRefused, ActionRefused;
    hide AfterSystem, AfterAction, Announce, DirectoryRefused, Selected;
    if frames == [] {
      NothingTold(l);
    } else {
      var earlier, f := frames[..|frames| - 1], frames[|frames| - 1];
      RunTold(c, earlier, l);
      ClosedNext(frames);
      RunFollowsStream(c, earlier);
      var st, b := Run(c, earlier).st, Run(c, frames).st.market;
      var latest, closed := LatestAction(c, earlier, l), MarketClosed(earlier);
      StepIsMarketStep(c, st, f);
      if ReachesLog(c, st.market, f) {
        NotAnnounced(c, st.market, f);
        RoutedSession(c, st.market, f, b);
        if f.message.Action? {
          ActionTold(st.market.session, f.message, latest, closed, l);
        }
      } else if f.Good? && f.message.System? {
        SystemTold(st.market.session, f.message.locate, f.message.code, latest, closed, l);
      } else if f.Good? && f.message.Directory? {
        AnnounceTold(c, st, f.message, latest, closed, l);
      }
    }
  }

  lemma NothingTold(l: U16)
    ensures !MarketClosed([]) && !AtLeast(EMPTY_MARKET.session.rank, 3)
    ensures StateTold(EMPTY_MARKET.session, None, false, l)
  {
  }

  /** At any point of a successful run an instrument can trade exactly when its latest logged action
      carries 'T' and no system event 'M', 'E' or 'C' has been accepted. */
  lemma TradableExactly(c: Config, frames: seq<Frame>, l: U16)
    requires ConfigOk(c) && Run(c, frames).Next?
    ensures var latest := LatestAction(c, frames, l);
            Tradable(Run(c, frames).st.market.session, l) <==>
            latest.Some? && latest.value.state == 'T' as int && !MarketClosed(frames)
  {
    hide Run, LatestAction, MarketClosed;
    RunTold(c, frames, l);
  }

  /** The state of an instrument at any point of a successful run: closed once the market closed, else
      what its latest logged action says, else halted if its trading was withheld, else pre-open. */
  lemma StateExactly(c: Config, frames: seq<Frame>, l: U16)
    requires ConfigOk(c) && Run(c, frames).Next? && l in Run(c, frames).st.market.session.states
    ensures var latest, state := LatestAction(c, frames, l), Run(c, frames).st.market.session.states[l];
            if MarketClosed(frames) then state == Closed
            else if latest.Some? then MeansState(latest.value.state, state)
            else state == if Withheld(frames, l) then Halted else Preopen
  {
    hide Run, LatestAction, MarketClosed, MeansState, Withheld;
    RunTold(c, frames, l);
    if !MarketClosed(frames) && LatestAction(c, frames, l).None? {
      RunWaits(c, frames, l);
    }
  }

  // ---------------------------------------------------------------- before the first action

  predicate Announces(f: Frame, l: U16) {
    f.Good? && f.message.Directory? && f.message.locate == l
  }

  predicate Begins(f: Frame) {
    f.Good? && f.message.System? && f.message.code in {'S' as int, 'Q' as int}
  }

  /** A directory record of the instrument has been seen. */
  predicate Announced(frames: seq<Frame>, l: U16) {
    frames != [] && (Announced(frames[..|frames| - 1], l) || Announces(frames[|frames| - 1], l))
  }

  /** Start of system hours or of market hours has been seen. */
  predicate Begun(frames: seq<Frame>) {
    frames != [] && (Begun(frames[..|frames| - 1]) || Begins(frames[|frames| - 1]))
  }

  /** What keeps an instrument halted until its first action: start of system hours at any time, or start
      of market hours before the instrument was announced. */
  predicate Withheld(frames: seq<Frame>, l: U16) {
    frames != [] &&
    var earlier, last := frames[..|frames| - 1], frames[|frames| - 1];
    Withheld(earlier, l) || (Begins(last) && (last.message.code == 'S' as int || !Announced(earlier, l)))
  }

  /** Before its announcement every start of system or market hours counts. */
  lemma {:induction false} UnannouncedWithheld(frames: seq<Frame>, l: U16)
    requires !Announced(frames, l)
    ensures Withheld(frames, l) <==> Begun(frames)
  {
    if frames != [] {
      UnannouncedWithheld(frames[..|frames| - 1], l);
    }
  }

  /** An instrument that waits for its first action is halted when its trading is withheld and pre-open
      otherwise. */
  ghost predicate WaitTold(v: SessionView, withheld: bool, l: U16) {
    l in v.states ==> v.states[l] == if withheld then Halted else Preopen
  }

  lemma SystemWaits(v: SessionView, locate: U16, code: U8, withheld: bool, l: U16)
    requires !SystemRefused(v, locate, code) && WaitTold(v, withheld, l)
    ensures !AtLeast(AfterSystem(v, code).rank, 3) ==> WaitTold(AfterSystem(v, code), withheld || code == 'S' as int, l)
  {
  }

  lemma SystemRank(v: SessionView, locate: U16, code: U8)
    requires !SystemRefused(v, locate, code)
    ensures AtLeast(AfterSystem(v, code).rank, 1) <==> AtLeast(v.rank, 1) || code != 'O' as int
    ensures code in {'O' as int, 'S' as int, 'Q' as int, 'M' as int, 'E' as int, 'C' as int}
    ensures AfterSystem(v, code).states.Keys == v.states.Keys
  {
  }

  lemma AnnouncedWaits(c: Config, a: Market, m: Message, withheld: bool, l: U16)
    requires |c.symbols| <= U16_MAX && m.Directory? && !DirectoryRefused(a.learned, m)
    requires WaitTold(a.session, withheld, l) && !AtLeast(a.session.rank, 3)
    requires l !in a.learned ==> (AtLeast(a.session.rank, 1) <==> withheld)
    ensures WaitTold(Announce(c, a, m).session, withheld, l)
  {
    hide DirectoryRefused, Selected;
  }

  lemma AnnouncedKnown(c: Config, a: Market, m: Message, l: U16)
    requires |c.symbols| <= U16_MAX && m.Directory?
    ensures l in Announce(c, a, m).learned <==> l in a.learned || m.locate == l
    ensures Announce(c, a, m).session.rank == a.session.rank
  {
    hide Selected;
  }

  lemma RoutedKnown(c: Config, a: Market, f: Frame, b: Market)
    requires ReachesLog(c, a, f)
    requires Routed(c, a, f.index, f.message, Selected(c.symbols, a.learned, f.message.locate).value.id, b)
    ensures b.learned == a.learned
  {
    hide Selected, BookMessageOf, AppliedOutcome;
    RoutedWired(c, a, f.index, f.message, Selected(c.symbols, a.learned, f.message.locate).value.id, b);
  }

  /** What is known is what was announced, and the phase says what has begun. */
  lemma {:induction false} RunKnown(c: Config, frames: seq<Frame>, l: U16)
    requires ConfigOk(c) && Run(c, frames).Next?
    ensures l in Run(c, frames).st.market.learned <==> Announced(frames, l)
    ensures AtLeast(Run(c, frames).st.market.session.rank, 1) <==> Begun(frames) || MarketClosed(frames)
  {
    hide Step, Wired, ReachesLog, Routed, AtLeast, MarketClosed, SystemRefused, AfterSystem, AfterAction, Announce;
    hide DirectoryRefused, Selected;
    if frames == [] {
      NothingTold(l);
      NothingBegun();
    } else {
      var earlier, f := frames[..|frames| - 1], frames[|frames| - 1];
      RunKnown(c, earlier, l);
      ClosedNext(frames);
      var st, b := Run(c, earlier).st, Run(c, frames).st.market;
      StepIsMarketStep(c, st, f);
      if ReachesLog(c, st.market, f) {
        NotAnnounced(c, st.market, f);
        RoutedSession(c, st.market, f, b);
        RoutedKnown(c, st.market, f, b);
        if f.message.Action? {
          ActionKeepsRank(st.market.session, f.message.locate, f.message.state);
        }
      } else if f.Good? && f.message.System? {
        SystemRank(st.market.session, f.message.locate, f.message.code);
      } else if f.Good? && f.message.Directory? {
        AnnouncedKnown(c, st.market, f.message, l);
      }
    }
  }

  lemma NothingBegun()
    ensures !AtLeast(EMPTY_MARKET.session.rank, 1) && EMPTY_MARKET.learned == map[]
  {
  }

  lemma ActionKeepsRank(v: SessionView, locate: U16, code: U8)
    ensures !ActionRefused(v, locate, code) ==> AfterAction(v, locate, code).rank == v.rank
    ensures !ActionRefused(v, locate, code) ==>
              forall l :: l in v.states && l != locate ==> AfterAction(v, locate, code).states[l] == v.states[l]
    ensures !ActionRefused(v, locate, code) ==> AfterAction(v, locate, code).states.Keys == v.states.Keys
  {
  }

  lemma KnownWhenStated(c: Config, st: Replay, l: U16)
    requires Wired(c, st)
    ensures l in st.market.session.states ==> l in st.market.learned
  {
    hide OneToOne;
  }

  /** Until the market closes, an instrument without a logged action waits. */
  lemma {:induction false} RunWaits(c: Config, frames: seq<Frame>, l: U16)
    requires ConfigOk(c) && Run(c, frames).Next? && LatestAction(c, frames, l).None? && !MarketClosed(frames)
    ensures WaitTold(Run(c, frames).st.market.session, Withheld(frames, l), l)
  {
    hide Step, Wired, ReachesLog, Routed, AtLeast, MarketClosed, SystemRefused, AfterSystem, AfterAction, Announce;
    hide DirectoryRefused, Selected, WaitTold, Announced, Begun, Follow, Closes, ActionRefused;
    if frames == [] {
      NothingWaits(l);
    } else {
      var earlier, f := frames[..|frames| - 1], frames[|frames| - 1];
      ClosedNext(frames);
      RunWaits(c, earlier, l);
      RunTold(c, earlier, l);
      RunTold(c, frames, l);
      RunKnown(c, earlier, l);
      RunFollowsStream(c, earlier);
      var st, b := Run(c, earlier).st, Run(c, frames).st.market;
      StepIsMarketStep(c, st, f);
      if ReachesLog(c, st.market, f) {
        NotAnnounced(c, st.market, f);
        RoutedSession(c, st.market, f, b);
        if f.message.Action? {
          ActionKeepsRank(st.market.session, f.message.locate, f.message.state);
          OtherWaits(st.market.session, b.session, Withheld(earlier, l), l);
        }
      } else if f.Good? && f.message.System? {
        SystemStep(c, st, f, earlier, l);
      } else if f.Good? && f.message.Directory? {
        if !Announced(earlier, l) {
          UnannouncedWithheld(earlier, l);
        }
        AnnouncedWaits(c, st.market, f.message, Withheld(earlier, l), l);
      }
    }
  }

  lemma NothingWaits(l: U16)
    ensures WaitTold(EMPTY_MARKET.session, false, l)
  {
  }

  lemma OtherWaits(v: SessionView, after: SessionView, withheld: bool, l: U16)
    requires WaitTold(v, withheld, l) && after.states.Keys == v.states.Keys
    requires l in v.states ==> after.states[l] == v.states[l]
    ensures WaitTold(after, withheld, l)
  {
  }

  lemma SystemStep(c: Config, st: Replay, f: Frame, earlier: seq<Frame>, l: U16)
    requires Wired(c, st) && f.Good? && f.message.System? && !SystemRefused(st.market.session, f.message.locate, f.message.code)
    requires WaitTold(st.market.session, Withheld(earlier, l), l) && (l in st.market.learned <==> Announced(earlier, l))
    requires !AtLeast(AfterSystem(st.market.session, f.message.code).rank, 3)
    ensures WaitTold(AfterSystem(st.market.session, f.message.code), Withheld(earlier + [f], l), l)
  {
    hide Withheld, Announced, Wired, SystemRefused, AfterSystem, AtLeast, WaitTold;
    var v, code := st.market.session, f.message.code;
    KnownWhenStated(c, st, l);
    SystemWaits(v, f.message.locate, code, Withheld(earlier, l), l);
    SystemRank(v, f.message.locate, code);
    WithheldNext(earlier, f, l);
    if l !in AfterSystem(v, code).states {
      AbsentWaits(AfterSystem(v, code), Withheld(earlier + [f], l), l);
    }
  }

  lemma AbsentWaits(v: SessionView, withheld: bool, l: U16)
    requires l !in v.states
    ensures WaitTold(v, withheld, l)
  {
  }

  lemma WithheldNext(earlier: seq<Frame>, f: Frame, l: U16)
    ensures Withheld(earlier + [f], l) <==>
            Withheld(earlier, l) || (Begins(f) && (f.message.code == 'S' as int || !Announced(earlier, l)))
  {
    hide Announced, Begins;
    assert (earlier + [f])[..|earlier|] == earlier;
  }

  // ---------------------------------------------------------------- the order of the day

  /** Letter a comes before letter b in the trading day. */
  predicate Earlier(a: U8, b: U8) {
    exists p, q :: 0 <= p < q < 6 && "OSQMEC"[p] as int == a && "OSQMEC"[q] as int == b
  }

  lemma PhasesEarlier(a: U8, b: U8)
    requires PhaseRank(a).Some? && PhaseRank(b).Some? && PhaseRank(a).value < PhaseRank(b).value
    ensures Earlier(a, b)
  {
    var p, q := PhaseRank(a).value, PhaseRank(b).value;
    assert "OSQMEC"[p] as int == a && "OSQMEC"[q] as int == b;
  }

  lemma {:induction false} RankReached(c: Config, frames: seq<Frame>, i: nat)
    requires ConfigOk(c) && Run(c, frames).Next? && i < |frames| && frames[i].Good? && frames[i].message.System?
    ensures PhaseRank(frames[i].message.code).Some?
    ensures AtLeast(Run(c, frames).st.market.session.rank, PhaseRank(frames[i].message.code).value)
    decreases |frames|
  {
    hide Step, Wired, ReachesLog, Routed, ActionRefused, Announce, DirectoryRefused, Selected, PhaseRank, AfterPhase;
    var earlier, f := frames[..|frames| - 1], frames[|frames| - 1];
    var st, b := Run(c, earlier).st, Run(c, frames).st.market;
    StepIsMarketStep(c, st, f);
    if i < |earlier| {
      RankReached(c, earlier, i);
      if ReachesLog(c, st.market, f) {
        NotAnnounced(c, st.market, f);
        RoutedSession(c, st.market, f, b);
      } else if f.Good? && f.message.Directory? {
        AnnounceKeepsRank(c, st.market, f.message);
      }
    }
  }

  lemma AnnounceKeepsRank(c: Config, a: Market, m: Message)
    requires m.Directory? && |c.symbols| <= U16_MAX
    ensures Announce(c, a, m).session.rank == a.session.rank
  {
    hide Selected;
  }

  /** In a successful run the system events come in the order O, S, Q, M, E, C, each at most once. */
  lemma {:induction false} SystemEventsInOrder(c: Config, frames: seq<Frame>, i: nat, j: nat)
    requires ConfigOk(c) && Run(c, frames).Next? && i < j < |frames|
    requires frames[i].Good? && frames[i].message.System? && frames[j].Good? && frames[j].message.System?
    ensures Earlier(frames[i].message.code, frames[j].message.code)
  {
    hide Run, Step, Wired, PhaseRank, MarketStep, Earlier;
    var before := frames[..j];
    PrefixRuns(c, frames, j);
    PrefixRuns(c, frames, j + 1);
    RankReached(c, before, i);
    AcceptedPhase(c, frames, j);
    PhasesEarlier(frames[i].message.code, frames[j].message.code);
  }

  lemma AcceptedPhase(c: Config, frames: seq<Frame>, j: nat)
    requires ConfigOk(c) && j < |frames| && frames[j].Good? && frames[j].message.System?
    requires Run(c, frames[..j]).Next? && Run(c, frames[..j + 1]).Next?
    ensures !SystemRefused(Run(c, frames[..j]).st.market.session, frames[j].message.locate, frames[j].message.code)
  {
    hide Step, Wired, SystemRefused;
    assert frames[..j + 1][..j] == frames[..j];
    StepIsMarketStep(c, Run(c, frames[..j]).st, frames[j]);
  }
}
