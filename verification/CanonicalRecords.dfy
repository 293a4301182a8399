/** Canonical files: the decoders of cpp/src/validation/validator.cpp accept exactly the bytes that the
    encoders of cpp/src/output/ produce, and nothing else. */
module CanonicalRecords {
  import opened Types
  import opened Encoding
  import opened BookModel
  import opened BookView
  import opened EventCodec
  import opened SnapshotCodec
  import opened RecordShape

  // ---------------------------------------------------------------- fields back to bytes

  lemma {:induction false} LittleEndianBack(bytes: Bytes)
    ensures LittleEndian(FromLittleEndian(bytes), |bytes|) == bytes
  {
    if bytes != [] {
      var rest := FromLittleEndian(bytes[1..]);
      LittleEndianBack(bytes[1..]);
      ByteSplit(bytes[0], rest);
      assert LittleEndian(bytes[0] + 256 * rest, |bytes|) == [bytes[0]] + LittleEndian(rest, |bytes| - 1);
    }
  }

  lemma ByteSplit(byte: U8, rest: nat)
    ensures (byte + 256 * rest) % 256 == byte && (byte + 256 * rest) / 256 == rest
  {
  }

  lemma FieldBack(bytes: Bytes, offset: nat, width: nat)
    requires offset + width <= |bytes|
    ensures LittleEndian(Field(bytes, offset, width), width) == bytes[offset..offset + width]
  {
    LittleEndianBack(bytes[offset..offset + width]);
  }

  lemma ZeroBack(bytes: Bytes, offset: nat, width: nat)
    requires offset + width <= |bytes| && BytesAreZero(bytes, offset, width)
    ensures LittleEndian(0, width) == bytes[offset..offset + width]
  {
    LittleEndianZero(width);
  }

  /** A field is stored, or absent and zero. */
  lemma OptionalBack(bytes: Bytes, offset: nat, width: nat, present: bool)
    requires offset + width <= |bytes| && (present || BytesAreZero(bytes, offset, width))
    ensures LittleEndian(if present then Field(bytes, offset, width) else 0, width) == bytes[offset..offset + width]
  {
    hide LittleEndian, BytesAreZero, Field;
    if present {
      FieldBack(bytes, offset, width);
    } else {
      ZeroBack(bytes, offset, width);
    }
  }

  // ---------------------------------------------------------------- events

  function When<T>(present: bool, value: T): (field: Option<T>)
    ensures field.Some? == present
  {
    if present then Some(value) else None
  }

  /** The event whose record these bytes would be. */
  ghost function EventOfBytes(bytes: Bytes): Event
    requires |bytes| == 72 && KindOf(bytes[54]).Some?
  {
    var bits := Unpack(Field16(bytes, 57), 16);
    Event(Field64(bytes, 0), Field64(bytes, 8), Field16(bytes, 52), KindOf(bytes[54]).value, bytes[56],
          When(bits[PRIMARY], Field64(bytes, 16)), When(bits[SECONDARY], Field64(bytes, 24)),
          When(bits[SIDE], SideOfByte(bytes[55])), When(bits[PRICE], Field32(bytes, 40)),
          When(bits[EXECUTION_PRICE], Field32(bytes, 48)), When(bits[QUANTITY], Field64(bytes, 32)),
          When(bits[REMAINING], Field32(bytes, 44)), When(bits[AUX], bytes[60..64]), When(bits[SUBTYPE], bytes[64]),
          bits[IN_SESSION])
  }

  lemma BitsBack(bytes: Bytes)
    requires |bytes| == 72 && KindOf(bytes[54]).Some?
    requires forall i :: 10 <= i < 16 ==> !Unpack(Field16(bytes, 57), 16)[i]
    ensures FlagBits(EventOfBytes(bytes)) == Unpack(Field16(bytes, 57), 16)
  {
    hide Field16, Field32, Field64, Unpack, SideOfByte, KindOf, When;
    SixteenBits(Unpack(Field16(bytes, 57), 16));
  }

  lemma SixteenBits(bits: seq<bool>)
    requires |bits| == 16 && forall i :: 10 <= i < 16 ==> !bits[i]
    ensures bits == [bits[0], bits[1], bits[2], bits[3], bits[4], bits[5], bits[6], bits[7], bits[8], bits[9],
                     false, false, false, false, false, false]
  {
  }

  lemma FlagsBack(bytes: Bytes, symbols: nat, last: Option<Position>)
    requires |bytes| == 72 && DecodeRecord(bytes, symbols, last).Decoded?
    ensures FlagBits(EventOfBytes(bytes)) == Unpack(Field16(bytes, 57), 16)
    ensures Flags(EventOfBytes(bytes)) == Field16(bytes, 57)
  {
    hide Field16, Field32, Field64, Unpack, Pack, FlagsFit, AbsentFieldsZero, BytesAreZero, SideOfByte;
    PowerOfTwo16();
    PackUnpack(Field16(bytes, 57), 16);
    var bits := Unpack(Field16(bytes, 57), 16);
    FittingBits(KindOf(bytes[54]).value, bytes[56], bits);
    BitsBack(bytes);
  }

  lemma NumericBack(bytes: Bytes, e: Event)
    requires |bytes| == 72 && KindOf(bytes[54]).Some? && e == EventOfBytes(bytes)
    requires AbsentFieldsZero(bytes, Unpack(Field16(bytes, 57), 16))
    ensures NumericPart(e) == bytes[..54]
  {
    hide LittleEndian, Unpack, BytesAreZero, Field;
    FieldBack(bytes, 0, 8);
    FieldBack(bytes, 8, 8);
    FieldBack(bytes, 52, 2);
    ReferencesBack(bytes, e);
    PricesBack(bytes, e);
    NumericPieces(bytes);
  }

  lemma ReferencesBack(bytes: Bytes, e: Event)
    requires |bytes| == 72 && KindOf(bytes[54]).Some? && e == EventOfBytes(bytes)
    requires AbsentFieldsZero(bytes, Unpack(Field16(bytes, 57), 16))
    ensures LittleEndian(e.primary.GetOr(0), 8) == bytes[16..24]
    ensures LittleEndian(e.secondary.GetOr(0), 8) == bytes[24..32]
    ensures LittleEndian(e.quantity.GetOr(0), 8) == bytes[32..40]
  {
    hide LittleEndian, Unpack, BytesAreZero, Field;
    var bits := Unpack(Field16(bytes, 57), 16);
    OptionalBack(bytes, 16, 8, bits[PRIMARY]);
    OptionalBack(bytes, 24, 8, bits[SECONDARY]);
    OptionalBack(bytes, 32, 8, bits[QUANTITY]);
  }

  lemma PricesBack(bytes: Bytes, e: Event)
    requires |bytes| == 72 && KindOf(bytes[54]).Some? && e == EventOfBytes(bytes)
    requires AbsentFieldsZero(bytes, Unpack(Field16(bytes, 57), 16))
    ensures LittleEndian(e.price.GetOr(0), 4) == bytes[40..44]
    ensures LittleEndian(e.remaining.GetOr(0), 4) == bytes[44..48]
    ensures LittleEndian(e.executionPrice.GetOr(0), 4) == bytes[48..52]
  {
    hide LittleEndian, Unpack, BytesAreZero, Field;
    var bits := Unpack(Field16(bytes, 57), 16);
    OptionalBack(bytes, 40, 4, bits[PRICE]);
    OptionalBack(bytes, 44, 4, bits[REMAINING]);
    OptionalBack(bytes, 48, 4, bits[EXECUTION_PRICE]);
  }

  lemma NumericPieces(bytes: Bytes)
    requires |bytes| == 72
    ensures bytes[0..8] + bytes[8..16] + bytes[16..24] + bytes[24..32] + bytes[32..40] + bytes[40..44] +
            bytes[44..48] + bytes[48..52] + bytes[52..54] == bytes[..54]
  {
  }

  lemma CodesBack(bytes: Bytes, symbols: nat, last: Option<Position>)
    requires |bytes| == 72 && DecodeRecord(bytes, symbols, last).Decoded?
    ensures CodePart(EventOfBytes(bytes)) == bytes[54..]
  {
    hide LittleEndian, Unpack, Pack, Field32, Field64, FlagsFit, Flags;
    var e := EventOfBytes(bytes);
    FlagsBack(bytes, symbols, last);
    FieldBack(bytes, 57, 2);
    KindByte(bytes[54]);
    assert SideByte(e.side) == bytes[55];
    assert AuxBytes(e) == bytes[60..64];
    assert e.subtype.GetOr(0) == bytes[64];
    assert Zeros(7) == bytes[65..72];
    assert bytes[54..] == [bytes[54], bytes[55], bytes[56]] + bytes[57..59] + [bytes[59]] + bytes[60..64] + [bytes[64]] +
                          bytes[65..72];
  }

  lemma DecodedIsNotRefused(bytes: Bytes, symbols: nat, last: Option<Position>)
    requires |bytes| == 72 && DecodeRecord(bytes, symbols, last).Decoded?
    ensures EncodeError(EventOfBytes(bytes)) == None
  {
    hide LittleEndian, Unpack, Field16, Field32, Field64, FlagsFit, AbsentFieldsZero, BytesAreZero;
    assert forall i :: 0 <= i < 4 ==> bytes[60..64][i] == bytes[60 + i];
  }

  lemma DecodedEncodes(bytes: Bytes, symbols: nat, last: Option<Position>)
    requires |bytes| == 72 && DecodeRecord(bytes, symbols, last).Decoded?
    ensures var e := EventOfBytes(bytes);
            EncodeError(e) == None && Record(e) == bytes && Acceptable(e, symbols, last)
  {
    hide EventOfBytes, NumericPart, CodePart, EncodeError, Acceptable, FlagsFit, BytesAreZero, Unpack;
    hide Field16, Field32, Field64;
    var e := EventOfBytes(bytes);
    CodesBack(bytes, symbols, last);
    NumericBack(bytes, e);
    assert bytes == bytes[..54] + bytes[54..];
    DecodedIsNotRefused(bytes, symbols, last);
    DecodedIsAcceptable(e, symbols, last);
  }

  /** A record is accepted if and only if it is the encoding of an acceptable event: absent fields,
      padding and reserved bytes have one form only. */
  lemma AcceptedRecordsAreCanonical(bytes: Bytes, symbols: nat, last: Option<Position>)
    requires |bytes| == 72
    ensures DecodeRecord(bytes, symbols, last).Decoded? <==>
            exists e :: EncodeError(e) == None && Acceptable(e, symbols, last) && Record(e) == bytes
  {
    hide DecodeRecord, Record, Acceptable, EncodeError;
    if DecodeRecord(bytes, symbols, last).Decoded? {
      DecodedEncodes(bytes, symbols, last);
    }
    forall e | EncodeError(e) == None && Acceptable(e, symbols, last) && Record(e) == bytes
      ensures DecodeRecord(bytes, symbols, last).Decoded?
    {
      AcceptableDecodes(e, symbols, last);
    }
  }

  // ---------------------------------------------------------------- snapshots

  function StateOfCode(code: nat): TradingState {
    match code
    case 1 => Preopen
    case 2 => Trading
    case 3 => Halted
    case 4 => Paused
    case 5 => QuotationOnly
    case 6 => Closed
    case _ => Unknown
  }

  /** The snapshot whose record these bytes would be. */
  ghost function SnapshotOfBytes(bytes: Bytes, depth: nat): Snapshot
    requires |bytes| == RecordSize(depth) && KindOf(bytes[18]).Some?
  {
    var flags := bytes[19];
    Snapshot(Field64(bytes, 0), Field64(bytes, 8), Field16(bytes, 16), KindOf(bytes[18]).value, flags / 64 % 2 == 1,
             When(flags % 2 == 1, Field32(bytes, 20)), When(flags / 2 % 2 == 1, Field64(bytes, 24)),
             When(flags / 4 % 2 == 1, Field32(bytes, 32)), When(flags / 4 % 2 == 1, Field64(bytes, 40)),
             StateOfCode(flags / 8 % 8), BestLevels(BidsAt(bytes, depth), AsksAt(bytes, depth)))
  }

  lemma FlagsSplit(flags: nat)
    requires flags < 128
    ensures flags == flags % 2 + 2 * (flags / 2 % 2) + 4 * (flags / 4 % 2) + 8 * (flags / 8 % 8) + 64 * (flags / 64 % 2)
  {
    assert flags / 4 == flags / 2 / 2 && flags / 8 == flags / 4 / 2 && flags / 64 == flags / 8 / 8;
  }

  lemma SnapshotFlagsBack(bytes: Bytes, depth: nat, symbols: nat, last: Option<Position>)
    requires |bytes| == RecordSize(depth) && PrefixOk(bytes, symbols, last)
    ensures SnapshotFlags(SnapshotOfBytes(bytes, depth)) == bytes[19]
  {
    hide Field16, Field32, Field64, BytesAreZero, KindOf, BidsAt, AsksAt;
    FlagsSplit(bytes[19]);
  }

  lemma PrefixBack(bytes: Bytes, depth: nat, symbols: nat, last: Option<Position>)
    requires |bytes| == RecordSize(depth) && PrefixOk(bytes, symbols, last)
    ensures PrefixBytes(SnapshotOfBytes(bytes, depth)) == bytes[..FIXED_SIZE]
  {
    hide LittleEndian, Field, SnapshotFlags, BidsAt, AsksAt;
    SnapshotFlagsBack(bytes, depth, symbols, last);
    KindByte(bytes[18]);
    FieldBack(bytes, 0, 8);
    FieldBack(bytes, 8, 8);
    FieldBack(bytes, 16, 2);
    FieldBack(bytes, 20, 4);
    FieldBack(bytes, 24, 8);
    FieldBack(bytes, 32, 4);
    FieldBack(bytes, 40, 8);
    assert Zeros(4) == bytes[36..40];
    assert bytes[..FIXED_SIZE] == bytes[0..8] + bytes[8..16] + bytes[16..18] + [bytes[18], bytes[19]] + bytes[20..24] +
                                  bytes[24..32] + bytes[32..36] + bytes[36..40] + bytes[40..48];
  }

  lemma EntryBack(bytes: Bytes, level: nat)
    requires Offset(level + 1) <= |bytes| && EntryCanonical(bytes, level)
    ensures EntryBytes(BidAt(bytes, level), AskAt(bytes, level)) == bytes[Offset(level)..Offset(level + 1)]
  {
    hide LittleEndian, Field;
    var o := Offset(level);
    FieldBack(bytes, o + 4, 4);
    FieldBack(bytes, o + 8, 8);
    FieldBack(bytes, o + 16, 4);
    FieldBack(bytes, o + 20, 8);
    EntrySplit(bytes, o);
  }

  lemma EntrySplit(bytes: Bytes, o: nat)
    requires o + ENTRY_SIZE <= |bytes|
    ensures bytes[o..o + ENTRY_SIZE] ==
            [bytes[o], bytes[o + 1], bytes[o + 2], bytes[o + 3]] + bytes[o + 4..o + 8] + bytes[o + 8..o + 16] +
            bytes[o + 16..o + 20] + bytes[o + 20..o + 28]
  {
  }

  lemma {:induction false} EntriesBack(bytes: Bytes, depth: nat, count: nat)
    requires |bytes| == RecordSize(depth) && count <= depth
    requires forall level :: 0 <= level < depth ==> EntryCanonical(bytes, level)
    ensures EntriesBytes(BidsAt(bytes, depth)[..count], AsksAt(bytes, depth)[..count]) == bytes[FIXED_SIZE..Offset(count)]
  {
    hide EntryBytes, EntryCanonical, BidAt, AskAt;
    if count > 0 {
      var last := count - 1;
      EntriesBack(bytes, depth, last);
      EntryBack(bytes, last);
      assert BidsAt(bytes, depth)[..count][..last] == BidsAt(bytes, depth)[..last];
      assert AsksAt(bytes, depth)[..count][..last] == AsksAt(bytes, depth)[..last];
    }
  }

  lemma ValidatedEncodes(bytes: Bytes, depth: nat, symbols: nat, last: Option<Position>)
    requires |bytes| == RecordSize(depth) && SnapshotOk(bytes, depth, symbols, last)
    ensures var s := SnapshotOfBytes(bytes, depth);
            SnapshotError(s, depth) == None && SnapshotRecord(s) == bytes && SnapshotAcceptable(s, symbols, last)
  {
    hide PrefixBytes, EntriesBytes, EntryCanonical, Ladder, BidsAt, AsksAt, Field16, Field32, Field64, SnapshotAcceptable;
    var s := SnapshotOfBytes(bytes, depth);
    PrefixBack(bytes, depth, symbols, last);
    EntriesBack(bytes, depth, depth);
    assert s.top.bids[..depth] == s.top.bids && s.top.asks[..depth] == s.top.asks;
    assert bytes == bytes[..FIXED_SIZE] + bytes[FIXED_SIZE..];
    ValidateEncoded(s, depth, symbols, last);
  }

  /** The same for snapshots: accepted if and only if they are the encoding of an acceptable one. */
  lemma AcceptedSnapshotsAreCanonical(bytes: Bytes, depth: nat, symbols: nat, last: Option<Position>)
    requires |bytes| == RecordSize(depth)
    ensures SnapshotOk(bytes, depth, symbols, last) <==>
            exists s :: && SnapshotError(s, depth) == None && SnapshotAcceptable(s, symbols, last)
                        && SnapshotRecord(s) == bytes
  {
    hide SnapshotOk, SnapshotRecord, SnapshotAcceptable;
    if SnapshotOk(bytes, depth, symbols, last) {
      ValidatedEncodes(bytes, depth, symbols, last);
    }
    forall s | SnapshotError(s, depth) == None && SnapshotAcceptable(s, symbols, last) && SnapshotRecord(s) == bytes
      ensures SnapshotOk(bytes, depth, symbols, last)
    {
      ValidateEncoded(s, depth, symbols, last);
    }
  }
}
