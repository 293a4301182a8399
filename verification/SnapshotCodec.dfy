/** The snapshot-v1 record: the writer's level checks and encoder
    (cpp/src/output/snapshot_writer.cpp) and the validator's independent check of the bytes
    (cpp/src/validation/validator.cpp). */
module SnapshotCodec {
  import opened Types
  import opened Encoding
  import opened BookModel
  import opened BookView
  import opened EventCodec

  datatype Snapshot = Snapshot(
    index: U64,
    timestamp: U64,
    symbolId: U16,
    kind: EventKind,
    topChanged: bool,
    eventPrice: Option<U32>,
    eventQuantity: Option<U64>,
    lastTradePrice: Option<U32>,
    lastTradeQuantity: Option<U64>,
    state: TradingState,
    top: TopLevels)

  const FIXED_SIZE: nat := 48
  const ENTRY_SIZE: nat := 28

  function RecordSize(depth: nat): nat { FIXED_SIZE + ENTRY_SIZE * depth }

  function StateCodeOf(state: TradingState): (code: nat)
    ensures code <= 6
  {
    match state
    case Unknown => 0
    case Preopen => 1
    case Trading => 2
    case Halted => 3
    case Paused => 4
    case QuotationOnly => 5
    case Closed => 6
  }

  // ---------------------------------------------------------------- levels best to worst

  type Slots = seq<Option<AggregatedLevel>>

  /** Positive totals, prices strictly best first and no gap before a filled slot. */
  predicate Ladder(side: Side, levels: Slots) {
    && (forall i :: 0 <= i < |levels| && levels[i].Some? ==> levels[i].value.total > 0)
    && (forall i, j :: 0 <= i < j < |levels| && levels[j].Some? ==>
          levels[i].Some? && Better(side, levels[i].value.price, levels[j].value.price))
  }

  /** Bids as the writer and the validator accept them: filled slots come first, with a total, and
      their prices strictly fall. */
  predicate Falling(levels: Slots) {
    && (forall i :: 0 <= i < |levels| && levels[i].Some? ==> levels[i].value.total > 0)
    && (forall i, j :: 0 <= i < j < |levels| && levels[j].Some? ==>
          levels[i].Some? && levels[i].value.price > levels[j].value.price)
  }

  /** Asks: the same with prices that strictly rise. */
  predicate Rising(levels: Slots) {
    && (forall i :: 0 <= i < |levels| && levels[i].Some? ==> levels[i].value.total > 0)
    && (forall i, j :: 0 <= i < j < |levels| && levels[j].Some? ==>
          levels[i].Some? && levels[i].value.price < levels[j].value.price)
  }

  lemma LadderDirection(levels: Slots)
    ensures Ladder(Buy, levels) <==> Falling(levels)
    ensures Ladder(Sell, levels) <==> Rising(levels)
  {
  }

  /** A filled prefix of a ladder ends at its last filled slot. */
  ghost predicate Tail(levels: Slots, sawEmpty: bool, previous: Option<U32>) {
    && (sawEmpty <==> exists i :: 0 <= i < |levels| && levels[i].None?)
    && (previous.None? ==> forall i :: 0 <= i < |levels| ==> levels[i].None?)
    && (previous.Some? ==> exists i :: 0 <= i < |levels| && levels[i].Some? && levels[i].value.price == previous.value &&
                                       forall j :: i < j < |levels| ==> levels[j].None?)
  }

  /** A filled slot extends a ladder exactly when it has a total, follows no gap and is worse than
      the slot before it. */
  lemma LadderExtend(side: Side, a: Slots, slot: Option<AggregatedLevel>, sawEmpty: bool, previous: Option<U32>)
    requires Ladder(side, a) && Tail(a, sawEmpty, previous) && slot.Some?
    ensures Ladder(side, a + [slot]) <==>
            && !sawEmpty
            && slot.value.total > 0
            && (previous.Some? ==> Better(side, previous.value, slot.value.price))
  {
    var b := a + [slot];
    assert b[|a|] == slot;
    assert forall i :: 0 <= i < |a| ==> b[i] == a[i];
    if previous.Some? {
      var i :| 0 <= i < |a| && a[i].Some? && a[i].value.price == previous.value && forall j :: i < j < |a| ==> a[j].None?;
      assert i < |a| - 1 ==> a[i + 1].None?;
      assert !sawEmpty ==> i == |a| - 1;
      assert b[i] == a[i];
    }
  }

  lemma TailExtend(side: Side, a: Slots, slot: Option<AggregatedLevel>, sawEmpty: bool, previous: Option<U32>)
    requires Tail(a, sawEmpty, previous)
    ensures Tail(a + [slot], sawEmpty || slot.None?, if slot.Some? then Some(slot.value.price) else previous)
  {
    var b := a + [slot];
    assert b[|a|] == slot;
    assert forall i :: 0 <= i < |a| ==> b[i] == a[i];
    if sawEmpty {
      var i :| 0 <= i < |a| && a[i].None?;
      assert b[i].None?;
    }
    if previous.Some? && slot.None? {
      var i :| 0 <= i < |a| && a[i].Some? && a[i].value.price == previous.value && forall j :: i < j < |a| ==> a[j].None?;
      assert b[i] == a[i] && forall j :: i < j < |b| ==> b[j].None?;
    }
  }

  lemma LadderStep(side: Side, levels: Slots, k: nat, sawEmpty: bool, previous: Option<U32>)
    requires k < |levels| && Ladder(side, levels[..k]) && Tail(levels[..k], sawEmpty, previous)
    ensures Ladder(side, levels[..k + 1]) <==>
            (levels[k].Some? ==>
               && !sawEmpty
               && levels[k].value.total > 0
               && (previous.Some? ==> Better(side, previous.value, levels[k].value.price)))
    ensures Tail(levels[..k + 1], sawEmpty || levels[k].None?,
                 if levels[k].Some? then Some(levels[k].value.price) else previous)
  {
    assert levels[..k + 1] == levels[..k] + [levels[k]];
    TailExtend(side, levels[..k], levels[k], sawEmpty, previous);
    if levels[k].Some? {
      LadderExtend(side, levels[..k], levels[k], sawEmpty, previous);
    }
  }

  /** The writer's check of one side. */
  method ValidateLevels(levels: Slots, side: Side) returns (error: Option<ErrorCode>)
    ensures error == if Ladder(side, levels) then None else Some(Invariant)
    ensures side == Buy ==> (error.None? <==> Falling(levels))
    ensures side == Sell ==> (error.None? <==> Rising(levels))
  {
    hide Falling, Rising;
    LadderDirection(levels);
    var sawEmpty := false;
    var previous: Option<U32> := None;
    for k := 0 to |levels|
      invariant Ladder(side, levels[..k]) && Tail(levels[..k], sawEmpty, previous)
    {
      LadderStep(side, levels, k, sawEmpty, previous);
      if levels[k].None? {
        sawEmpty := true;
        continue;
      }
      if sawEmpty || levels[k].value.total == 0 {
        LadderPrefix(side, levels, k + 1);
        return Some(Invariant);
      }
      if previous.Some? && !Better(side, previous.value, levels[k].value.price) {
        LadderPrefix(side, levels, k + 1);
        return Some(Invariant);
      }
      previous := Some(levels[k].value.price);
    }
    assert levels[..|levels|] == levels;
    error := None;
  }

  lemma LadderPrefix(side: Side, levels: Slots, k: nat)
    requires k <= |levels|
    ensures Ladder(side, levels) ==> Ladder(side, levels[..k])
  {
  }

  // ---------------------------------------------------------------- the encoder

  function SnapshotFlags(s: Snapshot): (flags: U8) {
    (if s.eventPrice.Some? then 1 else 0) + (if s.eventQuantity.Some? then 2 else 0) +
    (if s.lastTradePrice.Some? then 4 else 0) + 8 * StateCodeOf(s.state) + (if s.topChanged then 64 else 0)
  }

  function SnapshotError(s: Snapshot, depth: nat): Option<ErrorCode> {
    if !IsValidTimestamp(s.timestamp) then Some(Timestamp)
    else if s.symbolId == 0 || |s.top.bids| != depth || |s.top.asks| != depth then Some(Invariant)
    else if s.lastTradePrice.Some? != s.lastTradeQuantity.Some? then Some(Invariant)
    else if !Ladder(Buy, s.top.bids) || !Ladder(Sell, s.top.asks) then Some(Invariant)
    else None
  }

  function PrefixBytes(s: Snapshot): (bytes: Bytes)
    ensures |bytes| == FIXED_SIZE
  {
    LittleEndian(s.index, 8) + LittleEndian(s.timestamp, 8) + LittleEndian(s.symbolId, 2) +
    [KindCode(s.kind), SnapshotFlags(s)] +
    LittleEndian(s.eventPrice.GetOr(0), 4) + LittleEndian(s.eventQuantity.GetOr(0), 8) +
    LittleEndian(s.lastTradePrice.GetOr(0), 4) + Zeros(4) + LittleEndian(s.lastTradeQuantity.GetOr(0), 8)
  }

  function PriceField(slot: Option<AggregatedLevel>): U32 {
    if slot.Some? then slot.value.price else 0
  }

  function QuantityField(slot: Option<AggregatedLevel>): U64 {
    if slot.Some? then slot.value.total else 0
  }

  function EntryBytes(bid: Option<AggregatedLevel>, ask: Option<AggregatedLevel>): (bytes: Bytes)
    ensures |bytes| == ENTRY_SIZE
  {
    [if bid.Some? then 1 else 0, if ask.Some? then 1 else 0, 0, 0] +
    LittleEndian(PriceField(bid), 4) + LittleEndian(QuantityField(bid), 8) +
    LittleEndian(PriceField(ask), 4) + LittleEndian(QuantityField(ask), 8)
  }

  function EntriesBytes(bids: Slots, asks: Slots): (bytes: Bytes)
    requires |bids| == |asks|
    ensures |bytes| == ENTRY_SIZE * |bids|
  {
    if bids == [] then []
    else
      var last := |bids| - 1;
      EntriesBytes(bids[..last], asks[..last]) + EntryBytes(bids[last], asks[last])
  }

  function SnapshotRecord(s: Snapshot): (bytes: Bytes)
    requires |s.top.bids| == |s.top.asks|
    ensures |bytes| == RecordSize(|s.top.bids|)
  {
    PrefixBytes(s) + EntriesBytes(s.top.bids, s.top.asks)
  }

  method EncodeSnapshotRecord(s: Snapshot, depth: nat) returns (error: Option<ErrorCode>, record: Bytes)
    ensures error == SnapshotError(s, depth)
    ensures error == None ==> record == SnapshotRecord(s)
  {
    hide Ladder;
    record := [];
    if !IsValidTimestamp(s.timestamp) {
      return Some(Timestamp), record;
    }
    if s.symbolId == 0 || |s.top.bids| != depth || |s.top.asks| != depth {
      return Some(Invariant), record;
    }
    if s.lastTradePrice.Some? != s.lastTradeQuantity.Some? {
      return Some(Invariant), record;
    }
    error := ValidateLevels(s.top.bids, Buy);
    if error.Some? {
      return;
    }
    error := ValidateLevels(s.top.asks, Sell);
    if error.Some? {
      return;
    }
    var output := new U8[RecordSize(depth)](_ => 0);
    assert output[..] == Zeros(RecordSize(depth));
    PutPrefix(s, output);
    PutEntries(s, output);
    record := output[..];
  }

  method PutIdentity(s: Snapshot, output: array<U8>)
    requires output.Length >= FIXED_SIZE && output[..] == Zeros(output.Length)
    modifies output
    ensures output[..] == LittleEndian(s.index, 8) + LittleEndian(s.timestamp, 8) + LittleEndian(s.symbolId, 2) +
                          [KindCode(s.kind), SnapshotFlags(s)] + Zeros(output.Length - 20)
  {
    hide LittleEndian, SnapshotFlags;
    ghost var p := [];
    assert output[..] == p + Zeros(output.Length);
    Put(output, p, 0, s.index, 8);
    p := p + LittleEndian(s.index, 8);
    Put(output, p, 8, s.timestamp, 8);
    p := p + LittleEndian(s.timestamp, 8);
    Put(output, p, 16, s.symbolId, 2);
    p := p + LittleEndian(s.symbolId, 2);
    output[18] := KindCode(s.kind);
    output[19] := SnapshotFlags(s);
    assert output[..] == p + [KindCode(s.kind), SnapshotFlags(s)] + Zeros(output.Length - 20);
  }

  method PutPrefix(s: Snapshot, output: array<U8>)
    requires output.Length >= FIXED_SIZE && output[..] == Zeros(output.Length)
    modifies output
    ensures output[..] == PrefixBytes(s) + Zeros(output.Length - FIXED_SIZE)
  {
    hide LittleEndian, SnapshotFlags;
    PutIdentity(s, output);
    ghost var p := LittleEndian(s.index, 8) + LittleEndian(s.timestamp, 8) + LittleEndian(s.symbolId, 2) +
                   [KindCode(s.kind), SnapshotFlags(s)];
    Put(output, p, 20, s.eventPrice.GetOr(0), 4);
    p := p + LittleEndian(s.eventPrice.GetOr(0), 4);
    Put(output, p, 24, s.eventQuantity.GetOr(0), 8);
    p := p + LittleEndian(s.eventQuantity.GetOr(0), 8);
    Put(output, p, 32, s.lastTradePrice.GetOr(0), 4);
    p := p + LittleEndian(s.lastTradePrice.GetOr(0), 4) + Zeros(4);
    assert output[..] == p + Zeros(output.Length - 40);
    Put(output, p, 40, s.lastTradeQuantity.GetOr(0), 8);
    p := p + LittleEndian(s.lastTradeQuantity.GetOr(0), 8);
    assert p == PrefixBytes(s);
  }

  method PutEntries(s: Snapshot, output: array<U8>)
    requires |s.top.bids| == |s.top.asks| && output.Length == RecordSize(|s.top.bids|)
    requires output[..] == PrefixBytes(s) + Zeros(output.Length - FIXED_SIZE)
    modifies output
    ensures output[..] == SnapshotRecord(s)
  {
    hide EntryBytes, PrefixBytes;
    var depth := |s.top.bids|;
    for index := 0 to depth
      invariant output[..] == PrefixBytes(s) + EntriesBytes(s.top.bids[..index], s.top.asks[..index]) +
                              Zeros(ENTRY_SIZE * (depth - index))
    {
      ghost var done := PrefixBytes(s) + EntriesBytes(s.top.bids[..index], s.top.asks[..index]);
      PutEntry(output, done, FIXED_SIZE + index * ENTRY_SIZE, s.top.bids[index], s.top.asks[index]);
      assert s.top.bids[..index + 1][..index] == s.top.bids[..index];
      assert s.top.asks[..index + 1][..index] == s.top.asks[..index];
    }
    assert s.top.bids[..depth] == s.top.bids && s.top.asks[..depth] == s.top.asks;
  }

  method PutEntry(output: array<U8>, ghost done: Bytes, offset: nat, bid: Option<AggregatedLevel>,
                  ask: Option<AggregatedLevel>)
    requires |done| == offset && offset + ENTRY_SIZE <= output.Length
    requires output[..] == done + Zeros(output.Length - offset)
    modifies output
    ensures output[..] == done + EntryBytes(bid, ask) + Zeros(output.Length - offset - ENTRY_SIZE)
  {
    hide LittleEndian, EntryBytes;
    output[offset] := if bid.Some? then 1 else 0;
    output[offset + 1] := if ask.Some? then 1 else 0;
    ghost var p := done + [if bid.Some? then 1 else 0, if ask.Some? then 1 else 0, 0, 0];
    assert output[..] == p + Zeros(output.Length - offset - 4);
    PutSlot(output, p, offset + 4, bid);
    p := p + LittleEndian(PriceField(bid), 4) + LittleEndian(QuantityField(bid), 8);
    PutSlot(output, p, offset + 16, ask);
    EntryPieces(done, bid, ask);
  }

  lemma EntryPieces(done: Bytes, bid: Option<AggregatedLevel>, ask: Option<AggregatedLevel>)
    ensures done + [if bid.Some? then 1 else 0, if ask.Some? then 1 else 0, 0, 0] +
            LittleEndian(PriceField(bid), 4) + LittleEndian(QuantityField(bid), 8) +
            LittleEndian(PriceField(ask), 4) + LittleEndian(QuantityField(ask), 8) == done + EntryBytes(bid, ask)
  {
    hide LittleEndian;
  }

  /** An empty slot keeps the zero bytes that are already there. */
  method PutSlot(output: array<U8>, ghost done: Bytes, offset: nat, slot: Option<AggregatedLevel>)
    requires |done| == offset && offset + 12 <= output.Length
    requires output[..] == done + Zeros(output.Length - offset)
    modifies output
    ensures output[..] == done + LittleEndian(PriceField(slot), 4) + LittleEndian(QuantityField(slot), 8) +
                          Zeros(output.Length - offset - 12)
  {
    hide LittleEndian;
    if slot.Some? {
      Put(output, done, offset, slot.value.price, 4);
      Put(output, done + LittleEndian(slot.value.price, 4), offset + 4, slot.value.total, 8);
    } else {
      LittleEndianZero(4);
      LittleEndianZero(8);
      assert LittleEndian(0, 4) == Zeros(4) && LittleEndian(0, 8) == Zeros(8);
    }
  }

  // ---------------------------------------------------------------- the validator

  /** One depth slot as the validator reads it. */
  function SlotAt(bytes: Bytes, valid: U8, offset: nat): Option<AggregatedLevel>
    requires offset + 12 <= |bytes|
  {
    if valid == 1 then Some(AggregatedLevel(Field32(bytes, offset), Field64(bytes, offset + 4))) else None
  }

  function Offset(level: nat): nat { FIXED_SIZE + level * ENTRY_SIZE }

  function BidAt(bytes: Bytes, level: nat): Option<AggregatedLevel>
    requires Offset(level + 1) <= |bytes|
  {
    SlotAt(bytes, bytes[Offset(level)], Offset(level) + 4)
  }

  function AskAt(bytes: Bytes, level: nat): Option<AggregatedLevel>
    requires Offset(level + 1) <= |bytes|
  {
    SlotAt(bytes, bytes[Offset(level) + 1], Offset(level) + 16)
  }

  function BidsAt(bytes: Bytes, depth: nat): (bids: Slots)
    requires RecordSize(depth) <= |bytes|
    ensures |bids| == depth
  {
    seq(depth, i requires 0 <= i < depth => BidAt(bytes, i))
  }

  function AsksAt(bytes: Bytes, depth: nat): (asks: Slots)
    requires RecordSize(depth) <= |bytes|
    ensures |asks| == depth
  {
    seq(depth, i requires 0 <= i < depth => AskAt(bytes, i))
  }

  /** The reserved bytes and validity bytes of one depth entry, and zeros where a slot is empty. */
  predicate EntryCanonical(bytes: Bytes, level: nat)
    requires Offset(level + 1) <= |bytes|
  {
    var o := Offset(level);
    && bytes[o] <= 1 && bytes[o + 1] <= 1
    && BytesAreZero(bytes, o + 2, 2)
    && (bytes[o] == 0 ==> Field32(bytes, o + 4) == 0 && Field64(bytes, o + 8) == 0)
    && (bytes[o + 1] == 0 ==> Field32(bytes, o + 16) == 0 && Field64(bytes, o + 20) == 0)
  }

  /** The fixed part: kind, flags, ordering and nullable fields. */
  predicate PrefixOk(bytes: Bytes, symbols: nat, last: Option<Position>)
    requires |bytes| >= FIXED_SIZE
  {
    var flags := bytes[19];
    var price, quantity, trade, changed := flags % 2 == 1, flags / 2 % 2 == 1, flags / 4 % 2 == 1, flags / 64 % 2 == 1;
    && KindOf(bytes[18]).Some?
    && flags < 128 && flags / 8 % 8 <= 6
    && BytesAreZero(bytes, 36, 4)
    && Field16(bytes, 16) != 0 && Field16(bytes, 16) <= symbols
    && IsValidTimestamp(Field64(bytes, 8))
    && Follows(Field64(bytes, 0), Field64(bytes, 8), last)
    && (!price ==> Field32(bytes, 20) == 0)
    && (quantity <==> Field64(bytes, 24) != 0)
    && (!trade ==> Field32(bytes, 32) == 0)
    && (trade <==> Field64(bytes, 40) != 0)
    && match KindOf(bytes[18]).value
       case TradeEvent => price && quantity && !changed
       case CrossEvent => price && quantity && !changed
       case TradingStateEvent => !price && !quantity && !changed
       case BrokenTradeEvent => false
       case _ => price && quantity && changed
  }

  /** What the validator requires of a snapshot record. */
  ghost predicate SnapshotOk(bytes: Bytes, depth: nat, symbols: nat, last: Option<Position>)
    requires |bytes| == RecordSize(depth)
  {
    && PrefixOk(bytes, symbols, last)
    && (forall level :: 0 <= level < depth ==> EntryCanonical(bytes, level))
    && Ladder(Buy, BidsAt(bytes, depth))
    && Ladder(Sell, AsksAt(bytes, depth))
  }

  /** The validator's loop over the depth entries, with its gap flags and previous prices. */
  method ValidateSnapshotRecord(bytes: Bytes, depth: nat, symbols: nat, last: Option<Position>) returns (ok: bool)
    requires |bytes| == RecordSize(depth)
    ensures ok <==> SnapshotOk(bytes, depth, symbols, last)
  {
    hide Ladder, PrefixOk, Tail, Field32, Field64, EntryCanonical;
    if !PrefixOk(bytes, symbols, last) {
      return false;
    }
    var bidGap, askGap := false, false;
    var previousBid, previousAsk: Option<U32> := None, None;
    ghost var bids, asks := BidsAt(bytes, depth), AsksAt(bytes, depth);
    EmptyLadder(Buy);
    EmptyLadder(Sell);
    assert bids[..0] == [] && asks[..0] == [];
    for level := 0 to depth
      invariant forall i :: 0 <= i < level ==> EntryCanonical(bytes, i)
      invariant Ladder(Buy, bids[..level]) && Tail(bids[..level], bidGap, previousBid)
      invariant Ladder(Sell, asks[..level]) && Tail(asks[..level], askGap, previousAsk)
    {
      LadderStep(Buy, bids, level, bidGap, previousBid);
      LadderStep(Sell, asks, level, askGap, previousAsk);
      LadderPrefix(Buy, bids, level + 1);
      LadderPrefix(Sell, asks, level + 1);
      if !EntryCanonical(bytes, level) {
        return false;
      }
      var bid, ask := BidAt(bytes, level), AskAt(bytes, level);
      if bid.Some? && (bid.value.total == 0 || bidGap ||
                       (previousBid.Some? && !Better(Buy, previousBid.value, bid.value.price))) {
        return false;
      }
      if ask.Some? && (ask.value.total == 0 || askGap ||
                       (previousAsk.Some? && !Better(Sell, previousAsk.value, ask.value.price))) {
        return false;
      }
      if bid.None? {
        bidGap := true;
      } else {
        previousBid := Some(bid.value.price);
      }
      if ask.None? {
        askGap := true;
      } else {
        previousAsk := Some(ask.value.price);
      }
    }
    assert bids[..depth] == bids && asks[..depth] == asks;
    ok := true;
  }

  lemma EmptyLadder(side: Side)
    ensures Ladder(side, []) && Tail([], false, None)
  {
  }

  /** Whatever the bytes of an accepted record are, its bids fall and its asks rise. */
  lemma AcceptedLevels(bytes: Bytes, depth: nat, symbols: nat, last: Option<Position>)
    requires |bytes| == RecordSize(depth) && SnapshotOk(bytes, depth, symbols, last)
    ensures Falling(BidsAt(bytes, depth)) && Rising(AsksAt(bytes, depth))
  {
    hide Falling, Rising, Ladder, PrefixOk, EntryCanonical, BidsAt, AsksAt;
    LadderDirection(BidsAt(bytes, depth));
    LadderDirection(AsksAt(bytes, depth));
  }

  /** And so are those of every snapshot that the writer accepts. */
  lemma WrittenLevels(s: Snapshot, depth: nat)
    requires SnapshotError(s, depth) == None
    ensures Falling(s.top.bids) && Rising(s.top.asks)
  {
    hide Falling, Rising, Ladder;
    LadderDirection(s.top.bids);
    LadderDirection(s.top.asks);
  }

  // ---------------------------------------------------------------- the round trip

  /** What an encoded snapshot must satisfy for the validator to accept its record. */
  predicate SnapshotAcceptable(s: Snapshot, symbols: nat, last: Option<Position>) {
    && s.symbolId <= symbols
    && Follows(s.index, s.timestamp, last)
    && s.eventQuantity != Some(0) && s.lastTradeQuantity != Some(0)
    && match s.kind
       case TradeEvent => s.eventPrice.Some? && s.eventQuantity.Some? && !s.topChanged
       case CrossEvent => s.eventPrice.Some? && s.eventQuantity.Some? && !s.topChanged
       case TradingStateEvent => s.eventPrice.None? && s.eventQuantity.None? && !s.topChanged
       case BrokenTradeEvent => false
       case _ => s.eventPrice.Some? && s.eventQuantity.Some? && s.topChanged
  }

  lemma PrefixSlices(s: Snapshot)
    ensures var p := PrefixBytes(s);
            && p[0..8] == LittleEndian(s.index, 8) && p[8..16] == LittleEndian(s.timestamp, 8)
            && p[16..18] == LittleEndian(s.symbolId, 2) && p[18] == KindCode(s.kind) && p[19] == SnapshotFlags(s)
            && p[20..24] == LittleEndian(s.eventPrice.GetOr(0), 4)
            && p[24..32] == LittleEndian(s.eventQuantity.GetOr(0), 8)
            && p[32..36] == LittleEndian(s.lastTradePrice.GetOr(0), 4) && p[36..40] == Zeros(4)
            && p[40..48] == LittleEndian(s.lastTradeQuantity.GetOr(0), 8)
  {
    hide LittleEndian, SnapshotFlags;
  }

  lemma PrefixRead(s: Snapshot, bytes: Bytes)
    requires |bytes| >= FIXED_SIZE && bytes[..FIXED_SIZE] == PrefixBytes(s)
    ensures Field64(bytes, 0) == s.index && Field64(bytes, 8) == s.timestamp && Field16(bytes, 16) == s.symbolId
    ensures bytes[18] == KindCode(s.kind) && bytes[19] == SnapshotFlags(s)
    ensures Field32(bytes, 20) == s.eventPrice.GetOr(0) && Field64(bytes, 24) == s.eventQuantity.GetOr(0)
    ensures Field32(bytes, 32) == s.lastTradePrice.GetOr(0) && Field64(bytes, 40) == s.lastTradeQuantity.GetOr(0)
    ensures BytesAreZero(bytes, 36, 4)
  {
    hide LittleEndian, SnapshotFlags, PrefixBytes;
    var p := PrefixBytes(s);
    PrefixSlices(s);
    Limits();
    SliceOfPrefix(bytes, p, 0, 8);
    SliceOfPrefix(bytes, p, 8, 16);
    SliceOfPrefix(bytes, p, 16, 18);
    SliceOfPrefix(bytes, p, 20, 24);
    SliceOfPrefix(bytes, p, 24, 32);
    SliceOfPrefix(bytes, p, 32, 36);
    SliceOfPrefix(bytes, p, 36, 40);
    SliceOfPrefix(bytes, p, 40, 48);
    LittleEndianRoundTrip(s.index, 8);
    LittleEndianRoundTrip(s.timestamp, 8);
    LittleEndianRoundTrip(s.symbolId, 2);
    LittleEndianRoundTrip(s.eventPrice.GetOr(0), 4);
    LittleEndianRoundTrip(s.eventQuantity.GetOr(0), 8);
    LittleEndianRoundTrip(s.lastTradePrice.GetOr(0), 4);
    LittleEndianRoundTrip(s.lastTradeQuantity.GetOr(0), 8);
    assert bytes[18] == p[18] && bytes[19] == p[19];
    forall i | 36 <= i < 40 ensures bytes[i] == 0 {
      assert bytes[i] == bytes[36..40][i - 36];
    }
  }

  lemma SliceOfPrefix(bytes: Bytes, prefix: Bytes, from: nat, end: nat)
    requires from <= end <= |prefix| <= |bytes| && bytes[..|prefix|] == prefix
    ensures bytes[from..end] == prefix[from..end]
  {
    forall i | from <= i < end ensures bytes[i] == prefix[i] {
      assert bytes[i] == bytes[..|prefix|][i];
    }
  }

  /** Each flag of a snapshot can be read off its flags byte. */
  lemma FlagsRead(s: Snapshot)
    ensures var f := SnapshotFlags(s);
            && (f % 2 == 1 <==> s.eventPrice.Some?) && (f / 2 % 2 == 1 <==> s.eventQuantity.Some?)
            && (f / 4 % 2 == 1 <==> s.lastTradePrice.Some?) && (f / 64 % 2 == 1 <==> s.topChanged)
            && f < 128 && f / 8 % 8 <= 6
  {
    WeightsRead(if s.eventPrice.Some? then 1 else 0, if s.eventQuantity.Some? then 1 else 0,
                if s.lastTradePrice.Some? then 1 else 0, StateCodeOf(s.state), if s.topChanged then 1 else 0);
  }

  lemma WeightsRead(price: nat, quantity: nat, trade: nat, state: nat, changed: nat)
    requires price <= 1 && quantity <= 1 && trade <= 1 && state <= 6 && changed <= 1
    ensures var f := price + 2 * quantity + 4 * trade + 8 * state + 64 * changed;
            && f % 2 == price && f / 2 % 2 == quantity && f / 4 % 2 == trade && f / 8 % 8 == state
            && f / 64 % 2 == changed && f < 128
  {
  }

  lemma PrefixAccepted(s: Snapshot, bytes: Bytes, depth: nat, symbols: nat, last: Option<Position>)
    requires SnapshotError(s, depth) == None
    requires |bytes| >= FIXED_SIZE && bytes[..FIXED_SIZE] == PrefixBytes(s)
    ensures PrefixOk(bytes, symbols, last) <==> SnapshotAcceptable(s, symbols, last)
  {
    hide PrefixBytes, SnapshotFlags, Field16, Field32, Field64, BytesAreZero, KindCode, KindOf, Ladder;
    PrefixRead(s, bytes);
    FlagsRead(s);
    KindRoundTrip(s.kind);
  }

  lemma {:induction false} EntryAt(bids: Slots, asks: Slots, level: nat)
    requires |bids| == |asks| && level < |bids|
    ensures ENTRY_SIZE * level + ENTRY_SIZE <= |EntriesBytes(bids, asks)|
    ensures EntriesBytes(bids, asks)[ENTRY_SIZE * level..ENTRY_SIZE * level + ENTRY_SIZE] ==
            EntryBytes(bids[level], asks[level])
    decreases |bids|
  {
    hide EntryBytes;
    var last := |bids| - 1;
    var whole, init := EntriesBytes(bids, asks), EntriesBytes(bids[..last], asks[..last]);
    if level < last {
      EntryAt(bids[..last], asks[..last], level);
      assert whole[ENTRY_SIZE * level..ENTRY_SIZE * level + ENTRY_SIZE] ==
             init[ENTRY_SIZE * level..ENTRY_SIZE * level + ENTRY_SIZE];
    }
  }

  lemma EntrySlices(bid: Option<AggregatedLevel>, ask: Option<AggregatedLevel>)
    ensures var e := EntryBytes(bid, ask);
            && e[0] == (if bid.Some? then 1 else 0) && e[1] == (if ask.Some? then 1 else 0) && e[2] == 0 && e[3] == 0
            && e[4..8] == LittleEndian(PriceField(bid), 4) && e[8..16] == LittleEndian(QuantityField(bid), 8)
            && e[16..20] == LittleEndian(PriceField(ask), 4) && e[20..28] == LittleEndian(QuantityField(ask), 8)
  {
    hide LittleEndian;
  }

  /** Every encoded depth entry is canonical and reads back as its two slots. */
  lemma EntryRead(s: Snapshot, level: nat)
    requires |s.top.bids| == |s.top.asks| && level < |s.top.bids|
    ensures var bytes := SnapshotRecord(s);
            && EntryCanonical(bytes, level)
            && BidAt(bytes, level) == s.top.bids[level] && AskAt(bytes, level) == s.top.asks[level]
  {
    hide LittleEndian, EntryBytes, PrefixBytes, EntriesBytes;
    var bytes, o := SnapshotRecord(s), Offset(level);
    var bid, ask := s.top.bids[level], s.top.asks[level];
    var e := EntryBytes(bid, ask);
    EntryAt(s.top.bids, s.top.asks, level);
    assert bytes[o..o + ENTRY_SIZE] == e by {
      var entries := EntriesBytes(s.top.bids, s.top.asks);
      assert bytes[o..o + ENTRY_SIZE] == entries[ENTRY_SIZE * level..ENTRY_SIZE * level + ENTRY_SIZE];
    }
    EntrySlices(bid, ask);
    assert bytes[o] == e[0] && bytes[o + 1] == e[1] && bytes[o + 2] == e[2] && bytes[o + 3] == e[3];
    EntryField(bytes, o, e, 4, 8);
    EntryField(bytes, o, e, 8, 16);
    EntryField(bytes, o, e, 16, 20);
    EntryField(bytes, o, e, 20, 28);
    Limits();
    LittleEndianRoundTrip(PriceField(bid), 4);
    LittleEndianRoundTrip(QuantityField(bid), 8);
    LittleEndianRoundTrip(PriceField(ask), 4);
    LittleEndianRoundTrip(QuantityField(ask), 8);
  }

  lemma EntryField(bytes: Bytes, offset: nat, entry: Bytes, from: nat, end: nat)
    requires from <= end <= |entry| && offset + |entry| <= |bytes| && bytes[offset..offset + |entry|] == entry
    ensures bytes[offset + from..offset + end] == entry[from..end]
  {
    forall i | from <= i < end ensures bytes[i + offset] == entry[i] {
      assert bytes[i + offset] == bytes[offset..offset + |entry|][i];
    }
    assert |bytes[offset + from..offset + end]| == |entry[from..end]|;
    forall i | 0 <= i < end - from ensures bytes[offset + from..offset + end][i] == entry[from..end][i] {
      assert bytes[(from + i) + offset] == entry[from + i];
    }
  }

  /** The codec's law, both ways: the validator accepts an encoded snapshot if and only if the
      snapshot is acceptable; its levels always read back as they were. */
  lemma ValidateEncoded(s: Snapshot, depth: nat, symbols: nat, last: Option<Position>)
    requires SnapshotError(s, depth) == None
    ensures SnapshotOk(SnapshotRecord(s), depth, symbols, last) <==> SnapshotAcceptable(s, symbols, last)
    ensures BidsAt(SnapshotRecord(s), depth) == s.top.bids && AsksAt(SnapshotRecord(s), depth) == s.top.asks
  {
    hide PrefixBytes, EntriesBytes, PrefixOk, SnapshotAcceptable, Ladder, EntryCanonical, BidAt, AskAt;
    var bytes := SnapshotRecord(s);
    assert bytes[..FIXED_SIZE] == PrefixBytes(s);
    PrefixAccepted(s, bytes, depth, symbols, last);
    forall level | 0 <= level < depth
      ensures EntryCanonical(bytes, level)
      ensures BidAt(bytes, level) == s.top.bids[level] && AskAt(bytes, level) == s.top.asks[level]
    {
      EntryRead(s, level);
    }
    assert BidsAt(bytes, depth) == s.top.bids;
    assert AsksAt(bytes, depth) == s.top.asks;
  }
}
