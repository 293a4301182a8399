/** What a successful run says about its messages as they stand in the stream: the symbol each one
    names, the identity each locate keeps, and which frames could be skipped
    (cpp/src/replay/replay_coordinator.cpp). */
module RoutingRuns {
  import opened Types
  import opened BookModel
  import opened Messages
  import opened Session
  import opened InstrumentDirectoryModule
  import opened ErrorPolicyModule
  import opened Counting
  import opened ReplayModel
  import opened ReplayLog
  import opened ReplayStream

  /** The stock field of the messages that have one. */
  function StockOf(m: Message): Option<Stock> {
    match m
    case Action(_, _, stock, _, _) => Some(stock)
    case AddOrder(_, _, _, _, _, stock, _) => Some(stock)
    case AddAttributed(_, _, _, _, _, stock, _, _) => Some(stock)
    case Trade(_, _, _, _, _, stock, _, _) => Some(stock)
    case Cross(_, _, _, stock, _, _, _) => Some(stock)
    case _ => None
  }

  /** The text of a field: the field is the text and then spaces only. */
  predicate IsText(text: Bytes, field: Bytes) {
    && |text| <= |field| && field[..|text|] == text
    && (text != [] ==> text[|text| - 1] != 0x20)
    && forall i :: |text| <= i < |field| ==> field[i] == 0x20
  }

  // ---------------------------------------------------------------- one step

  lemma StepEmbedded(c: Config, st: Replay, f: Frame)
    requires Wired(c, st) && Step(c, st, f).Next? && f.Good? && !f.message.System? && !f.message.Directory?
    ensures var instrument, symbol := Selected(c.symbols, st.market.learned, f.message.locate), EmbeddedSymbol(f.message);
            symbol.Some? ==>
              if instrument.Some? then symbol.value == instrument.value.identity.symbol else symbol.value !in c.symbols
  {
    hide OneToOne, Handle, SourceType, Bump, Count, EmbeddedSymbol, Selected;
  }

  /** A message of a requested instrument names that instrument's symbol, if it names one; a message of
      any other locate names no requested symbol. */
  lemma StepNames(c: Config, st: Replay, f: Frame)
    requires Wired(c, st) && Step(c, st, f).Next? && f.Good? && !f.message.System? && !f.message.Directory?
    requires StockOf(f.message).Some?
    ensures var instrument := Selected(c.symbols, st.market.learned, f.message.locate);
            if instrument.Some? then
              1 <= instrument.value.id <= |c.symbols| &&
              IsText(c.symbols[instrument.value.id - 1], StockOf(f.message).value)
            else forall i :: 0 <= i < |c.symbols| ==> !IsText(c.symbols[i], StockOf(f.message).value)
  {
    hide OneToOne, Step, Trimmed, IsText, RequestedId;
    StepEmbedded(c, st, f);
    var stock := StockOf(f.message).value;
    assert EmbeddedSymbol(f.message) == Some(Trimmed(stock));
    TrimmedIsText(stock);
    var instrument := Selected(c.symbols, st.market.learned, f.message.locate);
    if instrument.Some? {
      SelectedSymbol(c.symbols, st.market.learned, f.message.locate);
    } else {
      forall i | 0 <= i < |c.symbols| ensures !IsText(c.symbols[i], stock) {
        if IsText(c.symbols[i], stock) {
          TextIsTrimmed(c.symbols[i], stock);
        }
      }
    }
  }

  lemma TrimmedIsText(field: Bytes)
    ensures IsText(Trimmed(field), field)
  {
    hide Trimmed;
  }

  lemma SelectedSymbol(requested: seq<Bytes>, learned: Learned, locate: U16)
    requires |requested| <= U16_MAX && Selected(requested, learned, locate).Some?
    ensures var instrument := Selected(requested, learned, locate).value;
            1 <= instrument.id <= |requested| && requested[instrument.id - 1] == instrument.identity.symbol
  {
    hide RequestedId;
  }

  lemma {:induction false} TextIsTrimmed(text: Bytes, field: Bytes)
    requires IsText(text, field)
    ensures Trimmed(field) == text
  {
    if |text| < |field| {
      assert field[..|field| - 1][..|text|] == text;
      TextIsTrimmed(text, field[..|field| - 1]);
    } else {
      assert field == text;
    }
  }

  lemma StepAt(c: Config, frames: seq<Frame>, k: nat)
    requires ConfigOk(c) && k < |frames| && Run(c, frames).Next?
    ensures Run(c, frames[..k]).Next? && Step(c, Run(c, frames[..k]).st, frames[k]).Next?
    ensures Step(c, Run(c, frames[..k]).st, frames[k]) == Run(c, frames[..k + 1])
  {
    hide Step, Wired;
    PrefixRuns(c, frames, k);
    PrefixRuns(c, frames, k + 1);
    assert frames[..k + 1][..k] == frames[..k];
  }

  /** In a successful run every message that carries a stock field names its instrument: the requested
      symbol of its locate, or no requested symbol at all when its locate was not requested. */
  lemma MessagesNameTheirInstrument(c: Config, frames: seq<Frame>, k: nat)
    requires ConfigOk(c) && k < |frames| && Run(c, frames).Next? && frames[k].Good? && StockOf(frames[k].message).Some?
    ensures var instrument := Selected(c.symbols, Follow(c, frames[..k]).learned, frames[k].message.locate);
            var stock := StockOf(frames[k].message).value;
            if instrument.Some? then
              1 <= instrument.value.id <= |c.symbols| && IsText(c.symbols[instrument.value.id - 1], stock)
            else forall i :: 0 <= i < |c.symbols| ==> !IsText(c.symbols[i], stock)
  {
    hide Run, Step, Wired, Follow, IsText;
    StepAt(c, frames, k);
    RunFollowsStream(c, frames[..k]);
    StepNames(c, Run(c, frames[..k]).st, frames[k]);
  }

  // ---------------------------------------------------------------- identities

  /** A directory record and what the directory holds for its locate say the same. */
  predicate SameIdentity(m: Message, identity: Identity)
    requires m.Directory?
  {
    && IsText(identity.symbol, m.stock) && identity.marketCategory == m.marketCategory
    && identity.financialStatus == m.financialStatus && identity.roundLotSize == m.roundLotSize
    && (if identity.roundLotsOnly then m.roundLotsOnly == 'Y' as int else m.roundLotsOnly == 'N' as int)
    && 1 <= |identity.symbol| <= 8 && identity.symbol[0] != 0x20
    && forall i :: 0 <= i < |identity.symbol| ==> 0x20 <= identity.symbol[i] <= 0x7E
  }

  lemma AcceptedIdentity(learned: Learned, m: Message)
    requires m.Directory? && !DirectoryRefused(learned, m)
    ensures var after := AfterDirectory(learned, m);
            && m.locate in after && SameIdentity(m, after[m.locate])
            && (forall l :: l in learned ==> l in after && after[l] == learned[l])
  {
    hide Trimmed;
  }

  lemma StepKeepsIdentities(c: Config, a: Market, f: Frame, b: Market)
    requires MarketStep(c, a, f, b)
    ensures forall l :: l in a.learned ==> l in b.learned && b.learned[l] == a.learned[l]
    ensures f.Good? && f.message.Directory? ==>
              f.message.locate in b.learned && SameIdentity(f.message, b.learned[f.message.locate])
  {
    hide Routed, BookMessageOf, AppliedOutcome, DirectoryRefused, SystemRefused, Selected, SameIdentity, AfterDirectory;
    if f.Good? && f.message.Directory? {
      AcceptedIdentity(a.learned, f.message);
    } else if ReachesLog(c, a, f) {
      RoutedWired(c, a, f.index, f.message, Selected(c.symbols, a.learned, f.message.locate).value.id, b);
    }
  }

  lemma {:induction false} IdentityHeld(c: Config, frames: seq<Frame>, k: nat)
    requires ConfigOk(c) && k < |frames| && Run(c, frames).Next? && frames[k].Good? && frames[k].message.Directory?
    ensures var learned := Run(c, frames).st.market.learned;
            frames[k].message.locate in learned && SameIdentity(frames[k].message, learned[frames[k].message.locate])
    decreases |frames|
  {
    hide Step, Wired, MarketStep, SameIdentity;
    var earlier, f := frames[..|frames| - 1], frames[|frames| - 1];
    StepIsMarketStep(c, Run(c, earlier).st, f);
    StepKeepsIdentities(c, Run(c, earlier).st.market, f, Run(c, frames).st.market);
    if k < |earlier| {
      IdentityHeld(c, earlier, k);
    }
  }

  /** In a successful run two directory records of one locate agree in everything that is kept: symbol
      text, market category, financial status, round lot size and round-lots flag. */
  lemma RepeatedRecordsAgree(c: Config, frames: seq<Frame>, i: nat, j: nat)
    requires ConfigOk(c) && i < j < |frames| && Run(c, frames).Next?
    requires frames[i].Good? && frames[i].message.Directory? && frames[j].Good? && frames[j].message.Directory?
    requires frames[i].message.locate == frames[j].message.locate
    ensures var m, n := frames[i].message, frames[j].message;
            && m.stock == n.stock && m.marketCategory == n.marketCategory && m.financialStatus == n.financialStatus
            && m.roundLotSize == n.roundLotSize && m.roundLotsOnly == n.roundLotsOnly
  {
    hide Run;
    IdentityHeld(c, frames, i);
    IdentityHeld(c, frames, j);
    var symbol := Run(c, frames).st.market.learned[frames[i].message.locate].symbol;
    SameField(symbol, frames[i].message.stock, frames[j].message.stock);
  }

  lemma SameField(text: Bytes, field: Bytes, other: Bytes)
    requires |field| == |other| && IsText(text, field) && IsText(text, other)
    ensures field == other
  {
    forall i | 0 <= i < |field| ensures field[i] == other[i] {
      assert i < |text| ==> field[..|text|][i] == other[..|text|][i];
    }
  }

  // ---------------------------------------------------------------- what may be skipped

  /** A frame that did not decode survives only in permissive mode, for these errors. */
  lemma UndecodedFrames(c: Config, frames: seq<Frame>, k: nat)
    requires ConfigOk(c) && k < |frames| && Run(c, frames).Next? && frames[k].Bad?
    ensures c.policy.permissive && frames[k].code in {MessageLength, UnknownMessage, Timestamp, Invariant}
  {
    hide Run, Wired, Count, Bump;
    StepAt(c, frames, k);
  }

  /** The guard without the book's verdict. */
  ghost predicate Addressed(c: Config, a: Market, f: Frame) {
    && f.Good? && ConcernsMarket(f.message) && f.message.timestamp < c.sessionEnd
    && |c.symbols| <= U16_MAX && Selected(c.symbols, a.learned, f.message.locate).Some?
    && Registered(a, f.message.locate)
  }

  /** A message that its book rejects survives only in permissive mode, for an unknown or repeated
      reference or for a quantity. In strict mode every addressed message is logged. */
  lemma RejectedMessages(c: Config, frames: seq<Frame>, k: nat)
    requires ConfigOk(c) && k < |frames| && Run(c, frames).Next? && Addressed(c, Follow(c, frames[..k]), frames[k])
    ensures Logged(c, frames, k) ||
            (c.policy.permissive && BookMessageOf(frames[k].message, frames[k].index).Some? &&
             var result := AppliedOutcome(Follow(c, frames[..k]), frames[k].index, frames[k].message).result;
             result.Rejected? && result.code in {OrderReference, Quantity})
  {
    hide Run, Wired, Follow, Step;
    StepAt(c, frames, k);
    RunFollowsStream(c, frames[..k]);
    if !Logged(c, frames, k) {
      SkippedStep(c, Run(c, frames[..k]).st, frames[k]);
    }
  }

  lemma SkippedStep(c: Config, st: Replay, f: Frame)
    requires Wired(c, st) && Step(c, st, f).Next? && Addressed(c, st.market, f) && !ReachesLog(c, st.market, f)
    ensures c.policy.permissive && BookMessageOf(f.message, f.index).Some?
    ensures var result := AppliedOutcome(st.market, f.index, f.message).result;
            result.Rejected? && result.code in {OrderReference, Quantity}
  {
    hide OneToOne, WriteMutation, Selected, Count, Bump, SourceType, EmbeddedSymbol, AppliedOutcome;
  }
}
