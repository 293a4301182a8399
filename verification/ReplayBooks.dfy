/** Every book of a run stays one that a sound order book can index, with orders older than the
    next frame, so the only rejections a book can produce are the two that may be skipped; and the
    rebuilt books have the live digests. */
module ReplayBooks {
  import opened Types
  import opened Encoding
  import opened BookModel
  import opened BookView
  import opened BookOutcomes
  import opened BookDigest
  import opened Messages
  import opened Session
  import opened ErrorPolicyModule
  import opened InstrumentDirectoryModule
  import opened EventCodec
  import opened SnapshotCodec
  import opened ReplayModel
  import opened ValidatorModel
  import opened ReplayLog
  import opened ReplayStream

  /** Frame positions strictly increase, as the framed reader numbers them. */
  ghost predicate Numbered(frames: seq<Frame>) {
    forall i, j :: 0 <= i < j < |frames| ==> frames[i].index < frames[j].index
  }

  function NextIndex(frames: seq<Frame>): nat {
    if frames == [] then 0 else frames[|frames| - 1].index + 1
  }

  ghost predicate BookOk(locate: U16, live: Live, next: nat) {
    Indexable(locate, live) && EnteredBefore(live, next)
  }

  ghost predicate BooksOk(a: Market, next: nat) {
    forall l :: l in a.books ==> BookOk(l, a.books[l], next)
  }

  lemma Later(live: Live, now: nat, next: nat)
    requires EnteredBefore(live, now) && now <= next
    ensures EnteredBefore(live, next)
  {
  }

  lemma RoutedBooks(c: Config, a: Market, index: U64, m: Message, id: U16, b: Market)
    requires Routed(c, a, index, m, id, b)
    ensures m.locate in a.books
    ensures b.books == a.books ||
            (!m.Action? && BookMessageOf(m, index).Some? &&
             b.books == a.books[m.locate := AppliedOutcome(a, index, m).live])
  {
    hide EventRefusal, SnapshotRefusal, SnapshotFor, BookEvent, StateEvent, PrintEvent, TopOf, Selected, AppliedOutcome;
    hide MessagePrice;
  }

  lemma MessageKeepsIndex(m: Message, index: U64)
    ensures BookMessageOf(m, index).Some? ==> BookMessageOf(m, index).value.index == index
    ensures BookMessageOf(m, index).Some? ==> BookMessageOf(m, index).value.locate == m.locate
  {
  }

  lemma StepKeepsBooks(c: Config, a: Market, f: Frame, b: Market, next: nat)
    requires BooksOk(a, next) && next <= f.index && MarketStep(c, a, f, b)
    ensures BooksOk(b, f.index + 1)
  {
    hide Routed, Indexable, EnteredBefore, Apply, Selected, DirectoryRefused;
    forall l | l in b.books ensures BookOk(l, b.books[l], f.index + 1) {
      if l in a.books {
        assert BookOk(l, a.books[l], next);
        Later(a.books[l], next, f.index + 1);
        Later(a.books[l], next, f.index);
      }
      if f.Good? && f.message.Directory? {
        NewBookOk(f.message.locate, f.index + 1);
      }
      if ReachesLog(c, a, f) {
        RoutedBooks(c, a, f.index, f.message, Selected(c.symbols, a.learned, f.message.locate).value.id, b);
        if BookMessageOf(f.message, f.index).Some? && l == f.message.locate {
          var message := BookMessageOf(f.message, f.index).value;
          MessageKeepsIndex(f.message, f.index);
          ApplyIndexable(l, a.books[l], message);
          ApplyEnteredBefore(a.books[l], l, message, f.index + 1);
        }
      }
    }
  }

  lemma NewBookOk(locate: U16, next: nat)
    ensures BookOk(locate, map[], next)
  {
    EmptyIndexable(locate);
  }

  lemma {:induction false} RunKeepsBooks(c: Config, frames: seq<Frame>)
    requires ConfigOk(c) && Numbered(frames) && Run(c, frames).Next?
    ensures BooksOk(Run(c, frames).st.market, NextIndex(frames))
  {
    hide Step, Wired, MarketStep, BookOk;
    if frames != [] {
      var earlier, f := frames[..|frames| - 1], frames[|frames| - 1];
      RunKeepsBooks(c, earlier);
      StepIsMarketStep(c, Run(c, earlier).st, f);
      StepKeepsBooks(c, Run(c, earlier).st.market, f, Run(c, frames).st.market, NextIndex(earlier));
    }
  }

  // ---------------------------------------------------------------- skipping

  /** In any run, whatever a book rejects may be skipped: a permissive run stops at a book
      rejection only because its budget is used up. */
  lemma BookRejectionIsSkippable(c: Config, frames: seq<Frame>, f: Frame)
    requires ConfigOk(c) && Numbered(frames + [f]) && Run(c, frames).Next? && f.Good?
    requires BookMessageOf(f.message, f.index).Some? && f.message.locate in Run(c, frames).st.market.books
    requires RoutedHere(BookMessageOf(f.message, f.index).value, f.message.locate)
    ensures var st := Run(c, frames).st;
            var result := AppliedOutcome(st.market, f.index, f.message).result;
            result.Rejected? ==>
              && AppliedOutcome(st.market, f.index, f.message).live == st.market.books[f.message.locate]
              && SafelySkippable(FromBookApply, result.code)
              && (c.policy.permissive && st.policy.skipped < c.policy.maxSkipped &&
                  !DecisionOf(c.policy, st.policy, FromBookApply, result.code).overflow
                  ==> DecisionOf(c.policy, st.policy, FromBookApply, result.code).disposition == SkipMessage)
  {
    hide Run, Indexable, Apply, DecisionOf, SafelySkippable;
    assert forall i :: 0 <= i < |frames| ==> frames[i] == (frames + [f])[i];
    RunKeepsBooks(c, frames);
    SkippedInBudget(c.policy, Run(c, frames).st.policy);
    var st := Run(c, frames).st;
    var live, message := st.market.books[f.message.locate], BookMessageOf(f.message, f.index).value;
    assert BookOk(f.message.locate, live, NextIndex(frames));
    assert NextIndex(frames) <= f.index by {
      if frames != [] {
        assert (frames + [f])[|frames| - 1].index < (frames + [f])[|frames|].index;
      }
    }
    Later(live, NextIndex(frames), f.index);
    MessageKeepsIndex(f.message, f.index);
    RejectionIsSkippable(live, f.message.locate, message);
  }

  lemma SkippedInBudget(c: PolicyConfig, v: PolicyView)
    ensures forall code :: SafelySkippable(FromBookApply, code) <==> code in {OrderReference, Quantity}
    ensures forall code ::
              SafelySkippable(FromBookApply, code) && c.permissive && v.skipped < c.maxSkipped &&
              !DecisionOf(c, v, FromBookApply, code).overflow
              ==> DecisionOf(c, v, FromBookApply, code).disposition == SkipMessage
  {
  }

  // ---------------------------------------------------------------- digests of rebuilt books

  /** With a clean log the validator's books have the order counts and the digest preimages of the
      live books, so its final count and digest comparisons succeed. */
  lemma RebuiltDigestsAgree(c: Config, frames: seq<Frame>, dictionary: seq<U16>, i: nat)
    requires ConfigOk(c) && Numbered(frames) && Run(c, frames).Next?
    requires DictionaryOf(c, Run(c, frames).st.market.learned, dictionary) && i < |dictionary|
    requires AllClean(Run(c, frames).st.market.events)
    ensures var market := Run(c, frames).st.market;
            var rebuilt := Validate(c, dictionary, RecordsOf(market.events));
            && rebuilt.Some? && dictionary[i] in market.books
            && var live, again := market.books[dictionary[i]], rebuilt.value.books[i];
               && |again| == |live|
               && Bookable(live) && Bookable(again)
               && Preimage(CanonicalOf(dictionary[i], again)) == Preimage(CanonicalOf(dictionary[i], live))
  {
    hide Run, Validate, Indexable;
    LogReconstructsState(c, frames, dictionary);
    RunKeepsBooks(c, frames);
    var market := Run(c, frames).st.market;
    assert BookOk(dictionary[i], market.books[dictionary[i]], NextIndex(frames));
    IndexableFacts(dictionary[i], market.books[dictionary[i]]);
  }

  // ---------------------------------------------------------------- when the log is clean

  /** Positive shares and printable text in the messages that can reach the log. */
  ghost predicate CleanMessage(m: Message) {
    match m
    case Trade(_, _, _, _, shares, _, _, _) => shares > 0
    case Cross(_, _, shares, _, _, _, _) => shares > 0
    case Action(_, _, _, _, reason) => AllPrintable(reason)
    case AddAttributed(_, _, _, _, _, _, _, attribution) => AllPrintable(attribution)
    case _ => true
  }

  ghost predicate CleanFrames(frames: seq<Frame>) {
    forall i :: 0 <= i < |frames| && frames[i].Good? ==> CleanMessage(frames[i].message)
  }

  /** Trimming removes printable padding only. */
  lemma TrimmedPrintable(field: Bytes)
    ensures AllPrintable(field) <==> AllPrintable(Trimmed(field))
  {
    hide Trimmed;
    var text := Trimmed(field);
    forall i | 0 <= i < |text| ensures text[i] == field[i] {
      assert text == field[..|text|];
    }
    forall i | |text| <= i < |field| ensures Printable(field[i]) {
      assert field[i] == PADDING;
    }
    if AllPrintable(text) {
      forall i | 0 <= i < |field| ensures Printable(field[i]) {
        assert i < |text| ==> Printable(text[i]);
      }
    }
    if AllPrintable(field) {
      forall i | 0 <= i < |text| ensures Printable(text[i]) {
        assert Printable(field[i]);
      }
    }
  }

  lemma MutationIsClean(c: Config, live: Live, m: Message, index: U64, id: U16)
    requires BookMessageOf(m, index).Some?
    requires forall r :: r in live ==> live[r].remaining > 0
    requires Apply(live, m.locate, BookMessageOf(m, index).value).result.Applied?
    ensures Clean(BookEvent(c, m, index, id, Apply(live, m.locate, BookMessageOf(m, index).value).result.delta)) <==>
            CleanMessage(m)
  {
    hide Trimmed, LevelTotal, AllEarlier;
    BookEventShape(c, live, m, index, id);
    if m.AddAttributed? {
      TrimmedPrintable(m.attribution);
    }
  }

  lemma PrintIsClean(c: Config, m: Message, index: U64, id: U16)
    requires m.Trade? || m.Cross? || m.Broken?
    ensures Clean(PrintEvent(c, m, index, id)) <==> CleanMessage(m)
  {
  }

  lemma StateIsClean(c: Config, m: Message, index: U64, id: U16)
    requires m.Action?
    ensures Clean(StateEvent(c, m, index, id)) <==> CleanMessage(m)
  {
    hide Trimmed;
    TrimmedPrintable(m.reason);
  }

  lemma CleanAppend(events: seq<Event>, e: Event)
    ensures AllClean(events + [e]) <==> AllClean(events) && Clean(e)
  {
    hide Clean;
    var after := events + [e];
    assert after[|events|] == e && forall k :: 0 <= k < |events| ==> after[k] == events[k];
  }

  /** The event of a logged message is clean if and only if the message is. */
  lemma EventIsClean(c: Config, a: Market, f: Frame, next: nat)
    requires ReachesLog(c, a, f) && BooksOk(a, next)
    ensures Clean(EventOf(c, a, f)) <==> CleanMessage(f.message)
  {
    var m := f.message;
    hide Clean, BookEvent, StateEvent, PrintEvent, Apply, CleanMessage, Indexable, BookMessageOf, Selected;
    var id := Selected(c.symbols, a.learned, m.locate).value.id;
    if m.Action? {
      StateIsClean(c, m, f.index, id);
    } else if BookMessageOf(m, f.index).Some? {
      assert BookOk(m.locate, a.books[m.locate], next);
      IndexableFacts(m.locate, a.books[m.locate]);
      MutationIsClean(c, a.books[m.locate], m, f.index, id);
    } else {
      PrintRemains(m, f.index);
      PrintIsClean(c, m, f.index, id);
    }
  }

  lemma PrintRemains(m: Message, index: U64)
    requires ConcernsMarket(m) && !m.Action? && BookMessageOf(m, index).None?
    ensures m.Trade? || m.Cross? || m.Broken?
  {
  }

  ghost predicate LoggedClean(c: Config, frames: seq<Frame>, k: nat)
    requires |c.symbols| <= U16_MAX && k < |frames|
  {
    Logged(c, frames, k) ==> CleanMessage(frames[k].message)
  }

  /** The log is clean if and only if every message that the routing guard lets through is: positive
      quantities on trades and crosses, printable text on actions and attributed adds. */
  lemma {:induction false} LogCleanExactly(c: Config, frames: seq<Frame>)
    requires ConfigOk(c) && Numbered(frames) && Run(c, frames).Next?
    ensures AllClean(Run(c, frames).st.market.events) <==> forall k :: 0 <= k < |frames| ==> LoggedClean(c, frames, k)
  {
    hide Step, Wired, BooksOk, Clean, CleanMessage, AllClean, LoggedClean;
    if frames == [] {
      NothingUnclean();
    } else {
      var n := |frames| - 1;
      var earlier := frames[..n];
      LogCleanExactly(c, earlier);
      forall k | 0 <= k < n ensures LoggedClean(c, frames, k) <==> LoggedClean(c, earlier, k) {
        assert earlier[..k] == frames[..k];
        SameLogged(c, frames, k);
      }
      LastLogged(c, frames);
    }
  }

  lemma NothingUnclean()
    ensures AllClean([])
  {
  }

  lemma SameLogged(c: Config, frames: seq<Frame>, k: nat)
    requires |c.symbols| <= U16_MAX && k < |frames| - 1
    ensures LoggedClean(c, frames, k) <==> LoggedClean(c, frames[..|frames| - 1], k)
  {
    hide Follow, ReachesLog, CleanMessage;
    assert frames[..|frames| - 1][..k] == frames[..k];
  }

  lemma LastLogged(c: Config, frames: seq<Frame>)
    requires ConfigOk(c) && Numbered(frames) && frames != [] && Run(c, frames).Next?
    ensures var n := |frames| - 1;
            AllClean(Run(c, frames).st.market.events) <==>
            AllClean(Run(c, frames[..n]).st.market.events) && LoggedClean(c, frames, n)
  {
    hide Step, Wired, BooksOk, Clean, CleanMessage, AllClean, ReachesLog, EventOf, Follow;
    var n := |frames| - 1;
    var earlier, f := frames[..n], frames[n];
    assert frames[..n + 1] == frames;
    LoggedExactly(c, frames, n);
    RunFollowsStream(c, earlier);
    RunKeepsBooks(c, earlier);
    if Logged(c, frames, n) {
      EventIsClean(c, Follow(c, earlier), f, NextIndex(earlier));
      CleanAppend(Follow(c, earlier).events, EventOf(c, Follow(c, earlier), f));
    }
  }

  /** In particular when every message of the stream is clean. */
  lemma CleanFramesCleanLog(c: Config, frames: seq<Frame>)
    requires ConfigOk(c) && Numbered(frames) && CleanFrames(frames) && Run(c, frames).Next?
    ensures AllClean(Run(c, frames).st.market.events)
  {
    hide Run, AllClean, Numbered, CleanMessage, Follow;
    LogCleanExactly(c, frames);
  }
}
