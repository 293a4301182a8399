/** The 72-byte event-v1 record: the writer's encoder (cpp/src/output/event_writer.cpp) and the
    validator's independent decoder (cpp/src/validation/validator.cpp). */
module EventCodec {
  import opened Types
  import opened Encoding

  datatype EventKind =
    | AddEvent | ExecuteEvent | ExecutePriceEvent | CancelEvent | DeleteEvent | ReplaceEvent
    | TradeEvent | CrossEvent | BrokenTradeEvent | TradingStateEvent

  function KindCode(kind: EventKind): (code: U8)
    ensures 1 <= code <= 10
  {
    match kind
    case AddEvent => 1
    case ExecuteEvent => 2
    case ExecutePriceEvent => 3
    case CancelEvent => 4
    case DeleteEvent => 5
    case ReplaceEvent => 6
    case TradeEvent => 7
    case CrossEvent => 8
    case BrokenTradeEvent => 9
    case TradingStateEvent => 10
  }

  function KindOf(code: U8): Option<EventKind> {
    match code
    case 1 => Some(AddEvent)
    case 2 => Some(ExecuteEvent)
    case 3 => Some(ExecutePriceEvent)
    case 4 => Some(CancelEvent)
    case 5 => Some(DeleteEvent)
    case 6 => Some(ReplaceEvent)
    case 7 => Some(TradeEvent)
    case 8 => Some(CrossEvent)
    case 9 => Some(BrokenTradeEvent)
    case 10 => Some(TradingStateEvent)
    case _ => None
  }

  predicate KindMatchesSource(kind: EventKind, source: U8) {
    match kind
    case AddEvent => source == 'A' as int || source == 'F' as int
    case ExecuteEvent => source == 'E' as int
    case ExecutePriceEvent => source == 'C' as int
    case CancelEvent => source == 'X' as int
    case DeleteEvent => source == 'D' as int
    case ReplaceEvent => source == 'U' as int
    case TradeEvent => source == 'P' as int
    case CrossEvent => source == 'Q' as int
    case BrokenTradeEvent => source == 'B' as int
    case TradingStateEvent => source == 'H' as int
  }

  /** A normalised event; the fields that event-v1 does not store are left out. */
  datatype Event = Event(
    index: U64,
    timestamp: U64,
    symbolId: U16,
    kind: EventKind,
    source: U8,
    primary: Option<U64>,
    secondary: Option<U64>,
    side: Option<Side>,
    price: Option<U32>,
    executionPrice: Option<U32>,
    quantity: Option<U64>,
    remaining: Option<U64>,
    aux: Option<Bytes>,
    subtype: Option<U8>,
    inSession: bool)

  // ---------------------------------------------------------------- validity flags

  /** Sixteen flag bits, least significant first. */
  function Pack(bits: seq<bool>): nat {
    if bits == [] then 0 else (if bits[0] then 1 else 0) + 2 * Pack(bits[1..])
  }

  function Unpack(word: nat, count: nat): (bits: seq<bool>)
    ensures |bits| == count
  {
    if count == 0 then [] else [word % 2 == 1] + Unpack(word / 2, count - 1)
  }

  lemma {:induction false} UnpackPack(bits: seq<bool>)
    ensures Unpack(Pack(bits), |bits|) == bits
  {
    if bits != [] {
      UnpackPack(bits[1..]);
    }
  }

  function PowerOfTwo(n: nat): nat {
    if n == 0 then 1 else 2 * PowerOfTwo(n - 1)
  }

  lemma {:induction false} PackBound(bits: seq<bool>)
    ensures Pack(bits) < PowerOfTwo(|bits|)
  {
    if bits != [] {
      PackBound(bits[1..]);
    }
  }

  lemma PowerOfTwo16()
    ensures PowerOfTwo(16) == 0x1_0000
  {
    assert PowerOfTwo(8) == 256;
  }

  const PRIMARY: nat := 0
  const SECONDARY: nat := 1
  const SIDE: nat := 2
  const PRICE: nat := 3
  const QUANTITY: nat := 4
  const REMAINING: nat := 5
  const EXECUTION_PRICE: nat := 6
  const AUX: nat := 7
  const SUBTYPE: nat := 8
  const IN_SESSION: nat := 9

  function FlagBits(e: Event): (bits: seq<bool>)
    ensures |bits| == 16
  {
    [e.primary.Some?, e.secondary.Some?, e.side.Some?, e.price.Some?, e.quantity.Some?, e.remaining.Some?,
     e.executionPrice.Some?, e.aux.Some?, e.subtype.Some?, e.inSession,
     false, false, false, false, false, false]
  }

  function Flags(e: Event): U16 {
    PackBound(FlagBits(e));
    PowerOfTwo16();
    Pack(FlagBits(e))
  }

  // ---------------------------------------------------------------- the encoder

  function SideByte(side: Option<Side>): U8 {
    match side
    case Some(Sell) => 0xFF
    case Some(Buy) => 1
    case _ => 0
  }

  /** Why the encoder refuses an event, if it does. */
  function EncodeError(e: Event): Option<ErrorCode> {
    if !KindMatchesSource(e.kind, e.source) then Some(Invariant)
    else if !IsValidTimestamp(e.timestamp) then Some(Timestamp)
    else if e.symbolId == 0 then Some(Invariant)
    else if e.side == Some(NotApplicable) then Some(Invariant)
    else if e.aux.Some? && (|e.aux.value| > 4 || !IsAscii(e.aux.value)) then Some(Invariant)
    else if e.subtype.Some? && e.subtype.value > 0x7F then Some(Invariant)
    else if e.remaining.Some? && NarrowToU32(e.remaining.value).None? then Some(Quantity)
    else None
  }

  const SPACE: U8 := 0x20

  function AuxBytes(e: Event): (bytes: Bytes)
    ensures |bytes| == 4
  {
    if e.aux.Some? && |e.aux.value| <= 4 then Padded(e.aux.value, 4, SPACE) else [0, 0, 0, 0]
  }

  /** The first 54 bytes: message identity, references, quantities and prices. */
  function NumericPart(e: Event): (bytes: Bytes)
    ensures |bytes| == 54
  {
    LittleEndian(e.index, 8) + LittleEndian(e.timestamp, 8) +
    LittleEndian(e.primary.GetOr(0), 8) + LittleEndian(e.secondary.GetOr(0), 8) +
    LittleEndian(e.quantity.GetOr(0), 8) + LittleEndian(e.price.GetOr(0), 4) +
    LittleEndian(e.remaining.GetOr(0), 4) + LittleEndian(e.executionPrice.GetOr(0), 4) +
    LittleEndian(e.symbolId, 2)
  }

  /** The last 18 bytes: kind, side, source type, flags, auxiliary code and subtype. */
  function CodePart(e: Event): (bytes: Bytes)
    ensures |bytes| == 18
  {
    [KindCode(e.kind), SideByte(e.side), e.source] + LittleEndian(Flags(e), 2) + [0] + AuxBytes(e) +
    [e.subtype.GetOr(0)] + Zeros(7)
  }

  function Record(e: Event): (bytes: Bytes)
    ensures |bytes| == 72
  {
    NumericPart(e) + CodePart(e)
  }

  /** Write the record in place, or refuse. */
  method EncodeEventRecord(e: Event, output: array<U8>) returns (error: Option<ErrorCode>)
    requires output.Length == 72
    modifies output
    ensures error == EncodeError(e)
    ensures error == None ==> output[..] == Record(e)
  {
    hide LittleEndian, Pack, AuxBytes;
    if !KindMatchesSource(e.kind, e.source) {
      return Some(Invariant);
    }
    if !IsValidTimestamp(e.timestamp) {
      return Some(Timestamp);
    }
    if e.symbolId == 0 {
      return Some(Invariant);
    }
    if e.side.Some? && e.side.value == NotApplicable {
      return Some(Invariant);
    }
    if e.aux.Some? && (|e.aux.value| > 4 || !IsAscii(e.aux.value)) {
      return Some(Invariant);
    }
    if e.subtype.Some? && e.subtype.value > 0x7F {
      return Some(Invariant);
    }
    var remaining: U32 := 0;
    if e.remaining.Some? {
      var narrowed := NarrowToU32(e.remaining.value);
      if narrowed.None? {
        return Some(Quantity);
      }
      remaining := narrowed.value;
    }
    PutNumeric(e, remaining, output);
    PutCodes(e, output);
    error := None;
  }

  method PutNumeric(e: Event, remaining: U32, output: array<U8>)
    requires output.Length == 72 && remaining == e.remaining.GetOr(0)
    modifies output
    ensures output[..] == NumericPart(e) + Zeros(18)
  {
    hide LittleEndian;
    for i := 0 to 72
      invariant forall j :: 0 <= j < i ==> output[j] == 0
    {
      output[i] := 0;
    }
    assert output[..] == [] + Zeros(72);
    ghost var p := [];
    Put(output, p, 0, e.index, 8);
    p := p + LittleEndian(e.index, 8);
    Put(output, p, 8, e.timestamp, 8);
    p := p + LittleEndian(e.timestamp, 8);
    Put(output, p, 16, e.primary.GetOr(0), 8);
    p := p + LittleEndian(e.primary.GetOr(0), 8);
    Put(output, p, 24, e.secondary.GetOr(0), 8);
    p := p + LittleEndian(e.secondary.GetOr(0), 8);
    Put(output, p, 32, e.quantity.GetOr(0), 8);
    p := p + LittleEndian(e.quantity.GetOr(0), 8);
    Put(output, p, 40, e.price.GetOr(0), 4);
    p := p + LittleEndian(e.price.GetOr(0), 4);
    Put(output, p, 44, remaining, 4);
    p := p + LittleEndian(remaining, 4);
    Put(output, p, 48, e.executionPrice.GetOr(0), 4);
    p := p + LittleEndian(e.executionPrice.GetOr(0), 4);
    Put(output, p, 52, e.symbolId, 2);
    p := p + LittleEndian(e.symbolId, 2);
    assert p == NumericPart(e);
  }

  method PutCodes(e: Event, output: array<U8>)
    requires output.Length == 72 && output[..] == NumericPart(e) + Zeros(18)
    requires EncodeError(e) == None
    modifies output
    ensures output[..] == Record(e)
  {
    hide LittleEndian, NumericPart, Pack, FlagBits;
    ghost var n := NumericPart(e);
    assert output[..] == (n + [0, 0, 0]) + Zeros(15);
    Put(output, n + [0, 0, 0], 57, Flags(e), 2);
    output[54] := KindCode(e.kind);
    output[55] := SideByte(e.side);
    output[56] := e.source;
    ghost var q := n + [KindCode(e.kind), SideByte(e.side), e.source] + LittleEndian(Flags(e), 2) + [0];
    assert output[..] == q + Zeros(12);
    PutText(e, output, q);
    assert q + AuxBytes(e) + [e.subtype.GetOr(0)] + Zeros(7) == Record(e);
  }

  method PutText(e: Event, output: array<U8>, ghost q: Bytes)
    requires |q| == 60 && output.Length == 72 && output[..] == q + Zeros(12) && EncodeError(e) == None
    modifies output
    ensures output[..] == q + AuxBytes(e) + [e.subtype.GetOr(0)] + Zeros(7)
  {
    if e.aux.Some? {
      OverwriteZeros(q, 12, Padded(e.aux.value, 4, SPACE));
      var ok := EncodePaddedAscii(output, 60, 4, e.aux.value, SPACE);
    } else {
      assert q + Zeros(12) == q + [0, 0, 0, 0] + Zeros(8);
    }
    assert output[..] == q + AuxBytes(e) + Zeros(8);
    if e.subtype.Some? {
      output[64] := e.subtype.value;
    }
  }

  // ---------------------------------------------------------------- the validator's decoder

  datatype DecodedEvent = DecodedEvent(
    index: U64,
    timestamp: U64,
    primary: U64,
    secondary: U64,
    quantity: U64,
    price: U32,
    remaining: U32,
    symbolId: U16,
    kind: EventKind,
    side: Side,
    source: U8,
    inSession: bool,
    aux: Attribution)

  datatype DecodeResult = Decoded(event: DecodedEvent) | Refused(code: ErrorCode)

  datatype Position = Position(index: U64, timestamp: U64)

  /** Whether a record follows the previous one: later in the source, not earlier in time. */
  predicate Follows(index: U64, timestamp: U64, last: Option<Position>) {
    last.Some? ==> index > last.value.index && timestamp >= last.value.timestamp
  }

  function RequiredBits(kind: EventKind, source: U8): (bits: seq<bool>)
    ensures |bits| == 16
  {
    var none := seq(16, _ => false);
    match kind
    case AddEvent =>
      none[PRIMARY := true][SIDE := true][PRICE := true][QUANTITY := true][REMAINING := true]
          [AUX := source == 'F' as int]
    case ExecuteEvent =>
      none[PRIMARY := true][SECONDARY := true][SIDE := true][PRICE := true][QUANTITY := true][REMAINING := true]
    case ExecutePriceEvent =>
      none[PRIMARY := true][SECONDARY := true][SIDE := true][PRICE := true][QUANTITY := true][REMAINING := true]
          [EXECUTION_PRICE := true]
    case CancelEvent => none[PRIMARY := true][SIDE := true][PRICE := true][QUANTITY := true][REMAINING := true]
    case DeleteEvent => none[PRIMARY := true][SIDE := true][PRICE := true][QUANTITY := true][REMAINING := true]
    case ReplaceEvent =>
      none[PRIMARY := true][SECONDARY := true][SIDE := true][PRICE := true][QUANTITY := true][REMAINING := true]
    case TradeEvent =>
      none[PRIMARY := true][SECONDARY := true][SIDE := true][PRICE := true][QUANTITY := true]
    case CrossEvent => none[SECONDARY := true][PRICE := true][QUANTITY := true][SUBTYPE := true]
    case BrokenTradeEvent => none[PRIMARY := true]
    case TradingStateEvent => none[SUBTYPE := true]
  }

  predicate OptionalBit(kind: EventKind, i: nat) {
    i == IN_SESSION || (i == AUX && kind == TradingStateEvent)
  }

  /** Exactly the fields that the kind requires, plus those it allows. */
  predicate FlagsFit(kind: EventKind, source: U8, bits: seq<bool>)
    requires |bits| == 16
  {
    && (forall i :: 10 <= i < 16 ==> !bits[i])
    && (forall i :: 0 <= i < 16 && RequiredBits(kind, source)[i] ==> bits[i])
    && (forall i :: 0 <= i < 16 && bits[i] ==> RequiredBits(kind, source)[i] || OptionalBit(kind, i))
  }

  predicate BytesAreZero(bytes: Bytes, offset: nat, size: nat)
    requires offset + size <= |bytes|
  {
    forall i :: offset <= i < offset + size ==> bytes[i] == 0
  }

  predicate AbsentFieldsZero(bytes: Bytes, bits: seq<bool>)
    requires |bytes| == 72 && |bits| == 16
  {
    && (bits[PRIMARY] || BytesAreZero(bytes, 16, 8))
    && (bits[SECONDARY] || BytesAreZero(bytes, 24, 8))
    && (bits[QUANTITY] || BytesAreZero(bytes, 32, 8))
    && (bits[PRICE] || BytesAreZero(bytes, 40, 4))
    && (bits[REMAINING] || BytesAreZero(bytes, 44, 4))
    && (bits[EXECUTION_PRICE] || BytesAreZero(bytes, 48, 4))
    && (bits[SIDE] || BytesAreZero(bytes, 55, 1))
    && (bits[AUX] || BytesAreZero(bytes, 60, 4))
    && (bits[SUBTYPE] || BytesAreZero(bytes, 64, 1))
  }

  predicate Printable(byte: U8) {
    0x20 <= byte <= 0x7E
  }

  predicate AllPrintable(bytes: Bytes) {
    forall i :: 0 <= i < |bytes| ==> Printable(bytes[i])
  }

  predicate StateCode(subtype: U8) {
    subtype in {'H' as int, 'P' as int, 'Q' as int, 'T' as int}
  }

  function SideOfByte(byte: U8): Side {
    if byte == 0xFF then Sell else if byte == 1 then Buy else NotApplicable
  }

  function Field(bytes: Bytes, offset: nat, width: nat): nat
    requires offset + width <= |bytes|
  {
    FromLittleEndian(bytes[offset..offset + width])
  }

  lemma {:induction false} FieldBound(bytes: Bytes)
    ensures FromLittleEndian(bytes) < Limit(|bytes|)
  {
    if bytes != [] {
      FieldBound(bytes[1..]);
    }
  }

  function Field16(bytes: Bytes, offset: nat): U16
    requires offset + 2 <= |bytes|
  {
    Limits();
    FieldBound(bytes[offset..offset + 2]);
    Field(bytes, offset, 2)
  }

  function Field32(bytes: Bytes, offset: nat): U32
    requires offset + 4 <= |bytes|
  {
    Limits();
    FieldBound(bytes[offset..offset + 4]);
    Field(bytes, offset, 4)
  }

  function Field64(bytes: Bytes, offset: nat): U64
    requires offset + 8 <= |bytes|
  {
    Limits();
    FieldBound(bytes[offset..offset + 8]);
    Field(bytes, offset, 8)
  }

  /** Decode one record, or refuse it as the deep validator does. */
  function DecodeRecord(bytes: Bytes, symbols: nat, last: Option<Position>): (result: DecodeResult)
    requires |bytes| == 72
    ensures result.Decoded? ==> 1 <= result.event.symbolId <= symbols && IsValidTimestamp(result.event.timestamp)
    ensures result.Decoded? ==> Follows(result.event.index, result.event.timestamp, last)
  {
    var index, timestamp := Field64(bytes, 0), Field64(bytes, 8);
    var quantity, remaining := Field64(bytes, 32), Field32(bytes, 44);
    var symbolId := Field16(bytes, 52);
    var bits := Unpack(Field16(bytes, 57), 16);
    var kindCode, side, source := bytes[54], bytes[55], bytes[56];
    if KindOf(kindCode).None? || !KindMatchesSource(KindOf(kindCode).value, source) then Refused(Invariant)
    else
      var kind := KindOf(kindCode).value;
      if !FlagsFit(kind, source, bits) || !BytesAreZero(bytes, 59, 1) || !BytesAreZero(bytes, 65, 7) then
        Refused(Invariant)
      else if symbolId == 0 || symbolId > symbols || !IsValidTimestamp(timestamp) ||
              !Follows(index, timestamp, last) then
        Refused(Invariant)
      else if !AbsentFieldsZero(bytes, bits) then Refused(Invariant)
      else if (bits[SIDE] && side != 0xFF && side != 1) || (!bits[SIDE] && side != 0) then Refused(Invariant)
      else if bits[QUANTITY] && quantity == 0 then Refused(Quantity)
      else if kind == AddEvent && remaining != quantity then Refused(Quantity)
      else if kind == DeleteEvent && remaining != 0 then Refused(Quantity)
      else if kind == ReplaceEvent && remaining != quantity then Refused(Quantity)
      else if bits[AUX] && !(forall i :: 60 <= i < 64 ==> Printable(bytes[i])) then Refused(Invariant)
      else if bits[SUBTYPE] && (bytes[64] > 0x7F || (kind == TradingStateEvent && !StateCode(bytes[64]))) then
        Refused(Invariant)
      else
        Decoded(DecodedEvent(index, timestamp, Field64(bytes, 16), Field64(bytes, 24), quantity, Field32(bytes, 40),
                             remaining, symbolId, kind, SideOfByte(side), source, bits[IN_SESSION], bytes[60..64]))
  }

  // ---------------------------------------------------------------- the round trip

  /** What an encoded event must satisfy for the validator to accept its record. */
  ghost predicate Acceptable(e: Event, symbols: nat, last: Option<Position>) {
    && FlagsFit(e.kind, e.source, FlagBits(e))
    && e.symbolId <= symbols
    && Follows(e.index, e.timestamp, last)
    && e.quantity != Some(0)
    && (e.kind == AddEvent || e.kind == ReplaceEvent ==> e.remaining == e.quantity)
    && (e.kind == DeleteEvent ==> e.remaining == Some(0))
    && (e.aux.Some? ==> AllPrintable(e.aux.value))
    && (e.kind == TradingStateEvent ==> e.subtype.Some? && StateCode(e.subtype.value))
  }

  function DecodedOf(e: Event): DecodedEvent
    requires EncodeError(e) == None
  {
    DecodedEvent(e.index, e.timestamp, e.primary.GetOr(0), e.secondary.GetOr(0), e.quantity.GetOr(0),
                 e.price.GetOr(0), e.remaining.GetOr(0), e.symbolId, e.kind, e.side.GetOr(NotApplicable), e.source,
                 e.inSession, AuxBytes(e))
  }

  lemma NumericFields(e: Event)
    ensures var r := Record(e);
            && r[0..8] == LittleEndian(e.index, 8) && r[8..16] == LittleEndian(e.timestamp, 8)
            && r[16..24] == LittleEndian(e.primary.GetOr(0), 8) && r[24..32] == LittleEndian(e.secondary.GetOr(0), 8)
            && r[32..40] == LittleEndian(e.quantity.GetOr(0), 8) && r[40..44] == LittleEndian(e.price.GetOr(0), 4)
            && r[44..48] == LittleEndian(e.remaining.GetOr(0), 4)
            && r[48..52] == LittleEndian(e.executionPrice.GetOr(0), 4)
            && r[52..54] == LittleEndian(e.symbolId, 2)
  {
    hide LittleEndian, CodePart;
  }

  lemma CodeFields(e: Event)
    ensures var r := Record(e);
            && r[54] == KindCode(e.kind) && r[55] == SideByte(e.side) && r[56] == e.source
            && r[57..59] == LittleEndian(Flags(e), 2) && r[59] == 0
            && r[60..64] == AuxBytes(e) && r[64] == e.subtype.GetOr(0) && r[65..72] == Zeros(7)
  {
    hide LittleEndian, NumericPart, AuxBytes, Flags;
  }


  /** Reading back what the encoder wrote. */
  lemma FieldsRead(e: Event)
    requires EncodeError(e) == None
    ensures var r := Record(e);
            && Field64(r, 0) == e.index && Field64(r, 8) == e.timestamp
            && Field64(r, 16) == e.primary.GetOr(0) && Field64(r, 24) == e.secondary.GetOr(0)
            && Field64(r, 32) == e.quantity.GetOr(0) && Field32(r, 40) == e.price.GetOr(0)
            && Field32(r, 44) == e.remaining.GetOr(0) && Field32(r, 48) == e.executionPrice.GetOr(0)
            && Field16(r, 52) == e.symbolId && Field16(r, 57) == Flags(e)
            && Unpack(Field16(r, 57), 16) == FlagBits(e)
  {
    hide LittleEndian, Record, FlagBits;
    NumericFields(e);
    CodeFields(e);
    Limits();
    LittleEndianRoundTrip(e.index, 8);
    LittleEndianRoundTrip(e.timestamp, 8);
    LittleEndianRoundTrip(e.primary.GetOr(0), 8);
    LittleEndianRoundTrip(e.secondary.GetOr(0), 8);
    LittleEndianRoundTrip(e.quantity.GetOr(0), 8);
    LittleEndianRoundTrip(e.price.GetOr(0), 4);
    LittleEndianRoundTrip(e.remaining.GetOr(0), 4);
    LittleEndianRoundTrip(e.executionPrice.GetOr(0), 4);
    LittleEndianRoundTrip(e.symbolId, 2);
    LittleEndianRoundTrip(Flags(e), 2);
    UnpackPack(FlagBits(e));
  }

  lemma ZeroField(bytes: Bytes, offset: nat, width: nat)
    requires offset + width <= |bytes| && bytes[offset..offset + width] == LittleEndian(0, width)
    ensures BytesAreZero(bytes, offset, width)
  {
    LittleEndianZero(width);
    forall i | offset <= i < offset + width ensures bytes[i] == 0 {
      assert bytes[i] == bytes[offset..offset + width][i - offset];
    }
  }

  lemma ReservedAreZero(e: Event)
    ensures BytesAreZero(Record(e), 59, 1) && BytesAreZero(Record(e), 65, 7)
    ensures e.aux.None? ==> BytesAreZero(Record(e), 60, 4)
    ensures e.side.None? ==> BytesAreZero(Record(e), 55, 1)
    ensures e.subtype.None? ==> BytesAreZero(Record(e), 64, 1)
  {
    hide Record;
    CodeFields(e);
    var r := Record(e);
    forall i | 65 <= i < 72 ensures r[i] == 0 {
      assert r[i] == r[65..72][i - 65];
    }
    forall i | 60 <= i < 64 ensures r[i] == AuxBytes(e)[i - 60] {
      assert r[i] == r[60..64][i - 60];
    }
  }

  lemma ReferencesAbsent(e: Event)
    ensures e.primary.None? ==> BytesAreZero(Record(e), 16, 8)
    ensures e.secondary.None? ==> BytesAreZero(Record(e), 24, 8)
    ensures e.quantity.None? ==> BytesAreZero(Record(e), 32, 8)
  {
    hide LittleEndian, Record, BytesAreZero;
    NumericFields(e);
    if e.primary.None? { ZeroField(Record(e), 16, 8); }
    if e.secondary.None? { ZeroField(Record(e), 24, 8); }
    if e.quantity.None? { ZeroField(Record(e), 32, 8); }
  }

  lemma PricesAbsent(e: Event)
    ensures e.price.None? ==> BytesAreZero(Record(e), 40, 4)
    ensures e.remaining.None? ==> BytesAreZero(Record(e), 44, 4)
    ensures e.executionPrice.None? ==> BytesAreZero(Record(e), 48, 4)
  {
    hide LittleEndian, Record, BytesAreZero;
    NumericFields(e);
    if e.price.None? { ZeroField(Record(e), 40, 4); }
    if e.remaining.None? { ZeroField(Record(e), 44, 4); }
    if e.executionPrice.None? { ZeroField(Record(e), 48, 4); }
  }

  /** The encoder always uses the canonical zero representation for absent fields. */
  lemma AbsentAreZero(e: Event)
    ensures AbsentFieldsZero(Record(e), FlagBits(e))
  {
    hide Record, BytesAreZero;
    ReferencesAbsent(e);
    PricesAbsent(e);
    ReservedAreZero(e);
  }

  lemma AuxByte(e: Event, i: nat)
    requires EncodeError(e) == None && e.aux.Some? && i < 4
    ensures Record(e)[60 + i] == if i < |e.aux.value| then e.aux.value[i] else SPACE
  {
    hide Record;
    CodeFields(e);
    assert Record(e)[60 + i] == Record(e)[60..64][i];
  }

  /** Padding is printable, so the four bytes are printable exactly when the text is. */
  lemma AuxPrintable(e: Event)
    requires EncodeError(e) == None && e.aux.Some?
    ensures (forall i :: 60 <= i < 64 ==> Printable(Record(e)[i])) <==> AllPrintable(e.aux.value)
  {
    hide Record;
    var r, v := Record(e), e.aux.value;
    if forall i :: 60 <= i < 64 ==> Printable(r[i]) {
      forall i | 0 <= i < |v| ensures Printable(v[i]) {
        AuxByte(e, i);
        assert Printable(r[60 + i]);
      }
    }
    if AllPrintable(v) {
      forall i | 60 <= i < 64 ensures Printable(r[i]) {
        AuxByte(e, i - 60);
      }
    }
  }

  lemma AcceptableDecodes(e: Event, symbols: nat, last: Option<Position>)
    requires EncodeError(e) == None && Acceptable(e, symbols, last)
    ensures DecodeRecord(Record(e), symbols, last).Decoded?
  {
    hide LittleEndian, Record, FlagsFit, AbsentFieldsZero, AuxBytes, Unpack, BytesAreZero, KindMatchesSource, KindOf;
    hide Field16, Field32, Field64, IsAscii, AllPrintable, Follows, SideOfByte;
    FieldsRead(e);
    CodeFields(e);
    KindRoundTrip(e.kind);
    AbsentAreZero(e);
    ReservedAreZero(e);
    FlagsTell(e);
    if e.aux.Some? {
      AuxPrintable(e);
    }
  }

  lemma DecodedIsAcceptable(e: Event, symbols: nat, last: Option<Position>)
    requires EncodeError(e) == None && DecodeRecord(Record(e), symbols, last).Decoded?
    ensures Acceptable(e, symbols, last)
  {
    hide LittleEndian, Record, FlagsFit, AbsentFieldsZero, AuxBytes, Unpack, BytesAreZero, KindMatchesSource, KindOf;
    hide Field16, Field32, Field64, IsAscii, AllPrintable, Follows, SideOfByte;
    FieldsRead(e);
    CodeFields(e);
    KindRoundTrip(e.kind);
    FlagsTell(e);
    if e.aux.Some? {
      AuxPrintable(e);
    }
  }

  lemma DecodeReads(e: Event, symbols: nat, last: Option<Position>)
    requires EncodeError(e) == None && DecodeRecord(Record(e), symbols, last).Decoded?
    ensures DecodeRecord(Record(e), symbols, last) == Decoded(DecodedOf(e))
  {
    hide LittleEndian, Record, FlagsFit, AbsentFieldsZero, AuxBytes, Unpack, BytesAreZero, KindMatchesSource, KindOf;
    hide Field16, Field32, Field64, IsAscii, AllPrintable, Follows, Acceptable;
    FieldsRead(e);
    CodeFields(e);
    KindRoundTrip(e.kind);
  }

  /** The codec's law, both ways: the validator decodes an encoded event, to exactly what was
      encoded, if and only if the event is acceptable. */
  lemma DecodeEncoded(e: Event, symbols: nat, last: Option<Position>)
    requires EncodeError(e) == None
    ensures DecodeRecord(Record(e), symbols, last).Decoded? <==> Acceptable(e, symbols, last)
    ensures Acceptable(e, symbols, last) ==> DecodeRecord(Record(e), symbols, last) == Decoded(DecodedOf(e))
  {
    hide DecodeRecord, Record, Acceptable, DecodedOf;
    if Acceptable(e, symbols, last) {
      AcceptableDecodes(e, symbols, last);
      DecodeReads(e, symbols, last);
    }
    if DecodeRecord(Record(e), symbols, last).Decoded? {
      DecodedIsAcceptable(e, symbols, last);
    }
  }

  lemma KindRoundTrip(kind: EventKind)
    ensures KindOf(KindCode(kind)) == Some(kind)
  {
  }

  /** Which fields a fitting event carries where its kind constrains their values. */
  lemma FlagsTell(e: Event)
    requires FlagsFit(e.kind, e.source, FlagBits(e))
    ensures e.kind in {AddEvent, DeleteEvent, ReplaceEvent} ==> e.quantity.Some? && e.remaining.Some?
    ensures e.kind == TradingStateEvent ==> e.subtype.Some?
  {
    var bits, required := FlagBits(e), RequiredBits(e.kind, e.source);
    assert required[QUANTITY] ==> bits[QUANTITY];
    assert required[REMAINING] ==> bits[REMAINING];
    assert required[SUBTYPE] ==> bits[SUBTYPE];
  }
}
