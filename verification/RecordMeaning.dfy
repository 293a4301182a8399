/** What the bytes of a written record say about the message that caused it
    (cpp/src/replay/replay_coordinator.cpp, cpp/src/output/event_writer.cpp): every field at its
    offset is the message's own, or that of the order it acts on. */
module RecordMeaning {
  import opened Types
  import opened Encoding
  import opened BookModel
  import opened Messages
  import opened Session
  import opened InstrumentDirectoryModule
  import opened EventCodec
  import opened RecordShape
  import opened SnapshotCodec
  import opened ReplayModel
  import opened ReplayLog
  import opened ReplayStream

  predicate SideByteIs(record: Bytes, side: Side)
    requires |record| == 72
  {
    (side == Buy && record[55] == 1) || (side == Sell && record[55] == 0xFF)
  }

  /** Kind byte, source letter and flag word; 512 marks an event in session. */
  predicate Coded(record: Bytes, kind: U8, source: char, flags: nat, inSession: bool)
    requires |record| == 72
  {
    record[54] == kind && record[56] == source as int && Field16(record, 57) == flags + if inSession then 512 else 0
  }

  predicate NoText(record: Bytes)
    requires |record| == 72
  {
    record[60..64] == [0, 0, 0, 0]
  }

  predicate Blank(text: Bytes) {
    forall i :: 0 <= i < |text| ==> text[i] == 0x20
  }

  /** The order that a message acts on, as the book holds it. */
  predicate OrderTold(record: Bytes, live: Live, r: U64)
    requires |record| == 72
  {
    r in live && Field64(record, 16) == r && SideByteIs(record, live[r].side)
  }

  /** The record of a message: references at 16 and 24, quantity at 32, price at 40, remainder at 44,
      execution price at 48, symbol at 52, kind, side and source from 54, flags at 57, text at 60 and
      subtype at 64. `live` is the instrument's book before the message. */
  ghost predicate Tells(c: Config, index: U64, m: Message, live: Live, id: U16, record: Bytes)
    requires |record| == 72
  {
    var inSession := c.sessionStart <= m.timestamp < c.sessionEnd;
    && Field64(record, 0) == index && Field64(record, 8) == m.timestamp && Field16(record, 52) == id
    && (m.ExecutedPrice? || Field32(record, 48) == 0)
    && (m.AddAttributed? || m.Action? || NoText(record))
    && (m.Cross? || m.Action? || record[64] == 0)
    && match m
       case AddOrder(_, _, r, side, shares, _, price) =>
         && Coded(record, 1, 'A', 61, inSession) && SideByteIs(record, side)
         && Field64(record, 16) == r && Field64(record, 24) == 0
         && Field64(record, 32) == shares && Field32(record, 40) == price && Field32(record, 44) == shares
       case AddAttributed(_, _, r, side, shares, _, price, attribution) =>
         && Coded(record, 1, 'F', 189, inSession) && SideByteIs(record, side)
         && Field64(record, 16) == r && Field64(record, 24) == 0
         && Field64(record, 32) == shares && Field32(record, 40) == price && Field32(record, 44) == shares
         && record[60..64] == attribution
       case Executed(_, _, r, shares, matchNumber) =>
         && Coded(record, 2, 'E', 63, inSession) && OrderTold(record, live, r) && Field64(record, 24) == matchNumber
         && Field64(record, 32) == shares && Field32(record, 40) == live[r].price
         && Field32(record, 44) == live[r].remaining - shares
       case ExecutedPrice(_, _, r, shares, matchNumber, price) =>
         && Coded(record, 3, 'C', 127, inSession) && OrderTold(record, live, r) && Field64(record, 24) == matchNumber
         && Field64(record, 32) == shares && Field32(record, 40) == live[r].price
         && Field32(record, 44) == live[r].remaining - shares && Field32(record, 48) == price
       case CancelOrder(_, _, r, shares) =>
         && Coded(record, 4, 'X', 61, inSession) && OrderTold(record, live, r) && Field64(record, 24) == 0
         && Field64(record, 32) == shares && Field32(record, 40) == live[r].price
         && Field32(record, 44) == live[r].remaining - shares
       case DeleteOrder(_, _, r) =>
         && Coded(record, 5, 'D', 61, inSession) && OrderTold(record, live, r) && Field64(record, 24) == 0
         && Field64(record, 32) == live[r].remaining && Field32(record, 40) == live[r].price && Field32(record, 44) == 0
       case ReplaceOrder(_, _, r, n, shares, price) =>
         && Coded(record, 6, 'U', 63, inSession) && OrderTold(record, live, r) && Field64(record, 24) == n
         && Field64(record, 32) == shares && Field32(record, 40) == price && Field32(record, 44) == shares
       case Trade(_, _, r, side, shares, _, price, matchNumber) =>
         && Coded(record, 7, 'P', 31, inSession) && SideByteIs(record, side)
         && Field64(record, 16) == r && Field64(record, 24) == matchNumber
         && Field64(record, 32) == shares && Field32(record, 40) == price && Field32(record, 44) == 0
       case Cross(_, _, shares, _, price, matchNumber, crossType) =>
         && Coded(record, 8, 'Q', 282, inSession) && record[55] == 0
         && Field64(record, 16) == 0 && Field64(record, 24) == matchNumber
         && Field64(record, 32) == shares && Field32(record, 40) == price && Field32(record, 44) == 0
         && record[64] == crossType
       case Broken(_, _, matchNumber) =>
         && Coded(record, 9, 'B', 1, inSession) && record[55] == 0
         && Field64(record, 16) == matchNumber && Field64(record, 24) == 0
         && Field64(record, 32) == 0 && Field32(record, 40) == 0 && Field32(record, 44) == 0
       case Action(_, _, _, state, reason) =>
         && Coded(record, 10, 'H', if Blank(reason) then 256 else 384, inSession) && record[55] == 0
         && Field64(record, 16) == 0 && Field64(record, 24) == 0
         && Field64(record, 32) == 0 && Field32(record, 40) == 0 && Field32(record, 44) == 0
         && record[64] == state && (if Blank(reason) then NoText(record) else record[60..64] == reason)
       case _ => false
  }

  // ---------------------------------------------------------------- the flag word

  /** The flag word of an event, by weight. */
  lemma FlagsAre(e: Event)
    ensures Flags(e) ==
            Bit(e.primary.Some?) + 2 * Bit(e.secondary.Some?) + 4 * Bit(e.side.Some?) + 8 * Bit(e.price.Some?) +
            16 * Bit(e.quantity.Some?) + 32 * Bit(e.remaining.Some?) + 64 * Bit(e.executionPrice.Some?) +
            128 * Bit(e.aux.Some?) + 256 * Bit(e.subtype.Some?) + 512 * Bit(e.inSession)
  {
    hide Pack, Bit, FlagBits, Flags, PowerOfTwo;
    var bits := FlagBits(e);
    FlagsArePacked(e);
    BitsAre(e);
    PackSixteen(bits);
    ReservedBits(bits);
  }

  lemma FlagsArePacked(e: Event)
    ensures Flags(e) == Pack(FlagBits(e))
  {
    hide Pack, FlagBits, PowerOfTwo;
  }

  lemma ReservedBits(bits: seq<bool>)
    requires |bits| == 16 && forall i :: 10 <= i < 16 ==> !bits[i]
    ensures Pack(bits[10..]) == 0
  {
    PackZeros(bits[10..]);
  }

  lemma BitsAre(e: Event)
    ensures var bits := FlagBits(e);
            && Bit(bits[0]) == Bit(e.primary.Some?) && Bit(bits[1]) == Bit(e.secondary.Some?)
            && Bit(bits[2]) == Bit(e.side.Some?) && Bit(bits[3]) == Bit(e.price.Some?)
            && Bit(bits[4]) == Bit(e.quantity.Some?) && Bit(bits[5]) == Bit(e.remaining.Some?)
            && Bit(bits[6]) == Bit(e.executionPrice.Some?) && Bit(bits[7]) == Bit(e.aux.Some?)
            && Bit(bits[8]) == Bit(e.subtype.Some?) && Bit(bits[9]) == Bit(e.inSession)
            && forall i :: 10 <= i < 16 ==> !bits[i]
  {
  }

  // ---------------------------------------------------------------- one message

  /** The fields of an encoded event, read off its record. */
  ghost predicate Shows(e: Event, record: Bytes)
    requires |record| == 72
  {
    && Field64(record, 0) == e.index && Field64(record, 8) == e.timestamp
    && Field64(record, 16) == e.primary.GetOr(0) && Field64(record, 24) == e.secondary.GetOr(0)
    && Field64(record, 32) == e.quantity.GetOr(0) && Field32(record, 40) == e.price.GetOr(0)
    && Field32(record, 44) == e.remaining.GetOr(0) && Field32(record, 48) == e.executionPrice.GetOr(0)
    && Field16(record, 52) == e.symbolId && record[54] == KindCode(e.kind) && record[55] == SideByte(e.side)
    && record[56] == e.source && Field16(record, 57) == Flags(e) && record[64] == e.subtype.GetOr(0)
    && |e.aux.GetOr([])| <= 4
    && record[60..64] == (if e.aux.None? then [0, 0, 0, 0] else e.aux.value + seq(4 - |e.aux.value|, _ => 0x20))
  }

  lemma RecordShows(e: Event)
    requires EncodeError(e) == None
    ensures Shows(e, Record(e))
  {
    hide Record, Field16, Field32, Field64, Flags, KindCode, SideByte, IsAscii;
    FieldsRead(e);
    CodeFields(e);
  }

  lemma BlankTrims(field: Bytes)
    ensures Trimmed(field) == [] <==> Blank(field)
  {
    hide Trimmed;
    var text := Trimmed(field);
    if text != [] {
      assert field[|text| - 1] == text[|text| - 1] != 0x20;
    }
  }

  lemma BookRecordTells(c: Config, index: U64, m: Message, live: Live, id: U16, record: Bytes)
    requires |record| == 72 && BookMessageOf(m, index).Some?
    requires Apply(live, m.locate, BookMessageOf(m, index).value).result.Applied?
    requires var e := BookEvent(c, m, index, id, Apply(live, m.locate, BookMessageOf(m, index).value).result.delta);
             EncodeError(e) == None && Shows(e, record)
    ensures Tells(c, index, m, live, id, record)
  {
    hide Field16, Field32, Field64, Flags, Trimmed, LevelTotal, AllEarlier, IsAscii;
    var e := BookEvent(c, m, index, id, Apply(live, m.locate, BookMessageOf(m, index).value).result.delta);
    FlagsAre(e);
    if m.AddAttributed? {
      TrimmedPads(m.attribution);
    }
    match m
    case AddOrder(_, _, _, _, _, _, _) =>
    case AddAttributed(_, _, _, _, _, _, _, _) =>
    case Executed(_, _, _, _, _) =>
    case ExecutedPrice(_, _, _, _, _, _) =>
    case CancelOrder(_, _, _, _) =>
    case DeleteOrder(_, _, _) =>
    case ReplaceOrder(_, _, _, _, _, _) =>
  }

  lemma PrintRecordTells(c: Config, index: U64, m: Message, live: Live, id: U16, record: Bytes)
    requires |record| == 72 && (m.Trade? || m.Cross? || m.Broken?)
    requires var e := PrintEvent(c, m, index, id); EncodeError(e) == None && Shows(e, record)
    ensures Tells(c, index, m, live, id, record)
  {
    hide Field16, Field32, Field64, Flags, IsAscii;
    FlagsAre(PrintEvent(c, m, index, id));
  }

  lemma ActionRecordTells(c: Config, index: U64, m: Message, live: Live, id: U16, record: Bytes)
    requires |record| == 72 && m.Action?
    requires var e := StateEvent(c, m, index, id); EncodeError(e) == None && Shows(e, record)
    ensures Tells(c, index, m, live, id, record)
  {
    hide Field16, Field32, Field64, Flags, Trimmed, IsAscii, Blank;
    FlagsAre(StateEvent(c, m, index, id));
    BlankTrims(m.reason);
    TrimmedPads(m.reason);
  }

  /** The record of a frame that passes the routing guard tells its message. */
  lemma FrameTells(c: Config, a: Market, f: Frame)
    requires ReachesLog(c, a, f) && EncodeError(EventOf(c, a, f)) == None
    ensures Tells(c, f.index, f.message, a.books[f.message.locate],
                  Selected(c.symbols, a.learned, f.message.locate).value.id, Record(EventOf(c, a, f)))
  {
    hide Record, Tells, Shows, BookEvent, StateEvent, PrintEvent, EncodeError, Apply, Selected, BookMessageOf;
    var m, id, e := f.message, Selected(c.symbols, a.learned, f.message.locate).value.id, EventOf(c, a, f);
    RecordShows(e);
    if m.Action? {
      ActionRecordTells(c, f.index, m, a.books[m.locate], id, Record(e));
    } else if BookMessageOf(m, f.index).Some? {
      BookRecordTells(c, f.index, m, a.books[m.locate], id, Record(e));
    } else {
      PrintRemains(m, f.index);
      PrintRecordTells(c, f.index, m, a.books[m.locate], id, Record(e));
    }
  }

  lemma PrintRemains(m: Message, index: U64)
    requires ConcernsMarket(m) && !m.Action? && BookMessageOf(m, index).None?
    ensures m.Trade? || m.Cross? || m.Broken?
  {
  }

  // ---------------------------------------------------------------- whole runs

  /** What is written stays written. */
  lemma {:induction false} EventsStay(c: Config, frames: seq<Frame>, k: nat)
    requires ConfigOk(c) && k <= |frames|
    ensures Follow(c, frames[..k]).events <= Follow(c, frames).events
    ensures Follow(c, frames[..k]).snapshots <= Follow(c, frames).snapshots
    decreases |frames|
  {
    hide AfterFrame;
    if k == |frames| {
      assert frames[..k] == frames;
    } else {
      var earlier := frames[..|frames| - 1];
      assert earlier[..k] == frames[..k];
      EventsStay(c, earlier, k);
      AfterFrameLogs(c, Follow(c, earlier), frames[|frames| - 1]);
    }
  }

  /** In a successful run each frame that passes the routing guard has its own record, the next one in
      the file, and that record tells the frame's message and the order it acts on. */
  lemma RunTells(c: Config, frames: seq<Frame>, k: nat)
    requires ConfigOk(c) && k < |frames| && Run(c, frames).Next? && Logged(c, frames, k)
    ensures var a, m, n := Follow(c, frames[..k]), frames[k].message, |Follow(c, frames[..k]).events|;
            var records := RecordsOf(Run(c, frames).st.market.events);
            && n < |records|
            && m.locate in a.books && Selected(c.symbols, a.learned, m.locate).Some?
            && Tells(c, frames[k].index, m, a.books[m.locate], Selected(c.symbols, a.learned, m.locate).value.id, records[n])
  {
    hide Run, Follow, ReachesLog, Tells, Record, EventOf, EncodeError, Selected, EntryOk;
    var a, f, n := Follow(c, frames[..k]), frames[k], |Follow(c, frames[..k]).events|;
    RunFollowsStream(c, frames);
    RunKeepsLog(c, frames);
    FollowNext(c, frames, k);
    AfterFrameLogs(c, a, f);
    EventsStay(c, frames, k + 1);
    var events := Run(c, frames).st.market.events;
    assert Follow(c, frames[..k + 1]).events[n] == EventOf(c, a, f);
    assert events[n] == EventOf(c, a, f);
    EventEncodes(c, Run(c, frames).st.market, n);
    LoggedIsRegistered(c, a, f);
    FrameTells(c, a, f);
  }

  lemma LoggedIsRegistered(c: Config, a: Market, f: Frame)
    requires ReachesLog(c, a, f)
    ensures f.Good? && f.message.locate in a.books && |c.symbols| <= U16_MAX
    ensures Selected(c.symbols, a.learned, f.message.locate).Some?
  {
  }

  lemma FollowNext(c: Config, frames: seq<Frame>, k: nat)
    requires ConfigOk(c) && k < |frames|
    ensures Follow(c, frames[..k + 1]) == AfterFrame(c, Follow(c, frames[..k]), frames[k])
  {
    hide AfterFrame;
    assert frames[..k + 1][..k] == frames[..k];
  }

  lemma EventEncodes(c: Config, a: Market, k: nat)
    requires LogOk(c, a) && k < |a.events|
    ensures EncodeError(a.events[k]) == None
  {
    hide FlagsFit, HasInstrument, EntryReproduces, EncodeError;
    assert EntryOk(c, a.learned, a.events, k);
  }
}
