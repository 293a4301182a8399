/** What deep validation pins down in any event file, whoever wrote it: each accepted record tells
    the order that it moves, so a record with a changed side, price or quantity is refused
    (cpp/src/validation/validator.cpp). */
module Tampering {
  import opened Types
  import opened BookModel
  import opened EventCodec
  import opened RecordShape
  import opened ReplayModel
  import opened ReplayLog
  import opened ValidatorModel
  import opened DeepValidator

  predicate SideTold(record: Bytes, side: Side)
    requires |record| == 72
  {
    (side == Buy && record[55] == 1) || (side == Sell && record[55] == 0xFF)
  }

  /** The bytes of a mutation record agree with the book just before it: side byte, price at 40,
      remaining at 44 and quantity at 32, for the order whose reference is at 16. */
  ghost predicate TellsOrder(live: Live, record: Bytes)
    requires |record| == 72
  {
    var r, quantity, price, remaining := Field64(record, 16), Field64(record, 32), Field32(record, 40), Field32(record, 44);
    match record[54]
    case 1 => r !in live && record[55] in {1, 0xFF} && remaining == quantity > 0
    case 2 => r in live && SideTold(record, live[r].side) && price == live[r].price && quantity > 0 &&
              remaining == live[r].remaining - quantity
    case 3 => r in live && SideTold(record, live[r].side) && price == live[r].price && quantity > 0 &&
              remaining == live[r].remaining - quantity
    case 4 => r in live && SideTold(record, live[r].side) && price == live[r].price && quantity > 0 &&
              remaining == live[r].remaining - quantity
    case 5 => r in live && SideTold(record, live[r].side) && price == live[r].price &&
              quantity == live[r].remaining && remaining == 0
    case 6 => r in live && SideTold(record, live[r].side) && remaining == quantity > 0 && Field64(record, 24) !in live
    case _ => true
  }

  /** The book after a mutation record, told from its bytes. */
  ghost function MovedByRecord(live: Live, record: Bytes): Live
    requires |record| == 72
  {
    var r, n, quantity, price := Field64(record, 16), Field64(record, 24), Field64(record, 32), Field32(record, 40);
    var index: U64 := Field64(record, 0);
    if record[54] == 1 && quantity <= U32_MAX then
      live[r := Order(if record[55] == 1 then Buy else Sell, price, quantity, index,
                      if record[56] == 'F' as int then Some(record[60..64]) else None)]
    else if record[54] in {2, 3, 4} && r in live && quantity <= live[r].remaining then
      if quantity == live[r].remaining then live - {r}
      else live[r := live[r].(remaining := live[r].remaining - quantity)]
    else if record[54] == 5 then live - {r}
    else if record[54] == 6 && r in live && quantity <= U32_MAX then
      (live - {r})[n := Order(live[r].side, price, quantity, index, live[r].attribution)]
    else live
  }

  /** Whatever file it stands in, an accepted record tells the order it moves and moves it as its bytes
      say; no other book changes. */
  lemma AcceptedTells(c: Config, dictionary: seq<U16>, v: Rebuilt, record: Bytes)
    requires |record| == 72 && |v.books| == |dictionary| && ValidateRecord(c, dictionary, v, record).Some?
    ensures 1 <= Field16(record, 52) <= |dictionary|
    ensures var i := Field16(record, 52) - 1;
            && TellsOrder(v.books[i], record)
            && ValidateRecord(c, dictionary, v, record).value.books ==
               v.books[i := MovedByRecord(v.books[i], record)]
  {
    hide DecodeRecord, Apply, Field16, Field32, Field64, LevelTotal, AllEarlier, InSession, TellsOrder, MovedByRecord;
    AcceptedShape(record, |dictionary|, v.last);
    AcceptedFields(record, |dictionary|, v.last);
    var e := DecodeRecord(record, |dictionary|, v.last).event;
    var i := e.symbolId - 1;
    if record[54] <= 6 {
      AppliedTells(v.books[i], dictionary[i], record, e);
    } else {
      PrintMovesNothing(v.books[i], record);
    }
  }

  /** Accepted records are before the end of the session, and flagged with 512 exactly inside it. */
  lemma AcceptedInSession(c: Config, dictionary: seq<U16>, v: Rebuilt, record: Bytes)
    requires |record| == 72 && |v.books| == |dictionary| && ValidateRecord(c, dictionary, v, record).Some?
    ensures Field64(record, 8) < c.sessionEnd
    ensures Field16(record, 57) >= 512 <==> c.sessionStart <= Field64(record, 8)
  {
    hide DecodeRecord, Apply, Field16, Field32, Field64, RecordedAsApplied, MessageOf;
    AcceptedShape(record, |dictionary|, v.last);
    AcceptedFields(record, |dictionary|, v.last);
  }

  lemma PrintMovesNothing(live: Live, record: Bytes)
    requires |record| == 72 && record[54] > 6
    ensures TellsOrder(live, record) && MovedByRecord(live, record) == live
  {
  }

  /** The decoder reads each field where the record has it. */
  lemma AcceptedFields(record: Bytes, symbols: nat, last: Option<Position>)
    requires |record| == 72 && DecodeRecord(record, symbols, last).Decoded?
    ensures FieldsOf(record, DecodeRecord(record, symbols, last).event)
  {
    hide Field16, Field32, Field64, FlagsFit, AbsentFieldsZero, Unpack, BytesAreZero;
    KindByte(record[54]);
  }

  predicate FieldsOf(record: Bytes, e: DecodedEvent)
    requires |record| == 72
  {
    && e.index == Field64(record, 0) && e.timestamp == Field64(record, 8)
    && e.primary == Field64(record, 16) && e.secondary == Field64(record, 24)
    && e.quantity == Field64(record, 32) && e.price == Field32(record, 40) && e.remaining == Field32(record, 44)
    && e.symbolId == Field16(record, 52) && record[54] == KindCode(e.kind)
    && e.side == (if record[55] == 0xFF then Sell else if record[55] == 1 then Buy else NotApplicable)
    && e.source == record[56] && e.aux == record[60..64]
  }

  lemma AppliedTells(live: Live, locate: U16, record: Bytes, e: DecodedEvent)
    requires |record| == 72 && FieldsOf(record, e) && 1 <= record[54] <= 6 && record[55] in {1, 0xFF}
    requires record[54] in {1, 6} ==> Field32(record, 44) == Field64(record, 32)
    requires MessageOf(e, locate).Some?
    requires Apply(live, locate, MessageOf(e, locate).value).result.Applied?
    requires RecordedAsApplied(e, Apply(live, locate, MessageOf(e, locate).value).result.delta)
    ensures TellsOrder(live, record)
    ensures Apply(live, locate, MessageOf(e, locate).value).live == MovedByRecord(live, record)
  {
    hide Field16, Field32, Field64, LevelTotal, AllEarlier;
  }

  // ---------------------------------------------------------------- whole files

  lemma BooksBefore(c: Config, dictionary: seq<U16>, records: seq<Bytes>, k: nat)
    requires Records72(records) && k < |records| && Validate(c, dictionary, records).Some?
    ensures Validate(c, dictionary, records[..k]).Some?
    ensures ValidateRecord(c, dictionary, Validate(c, dictionary, records[..k]).value, records[k]).Some?
  {
    hide ValidateRecord;
    if Validate(c, dictionary, records[..k]).None? {
      ValidateFails(c, dictionary, records, k);
    }
    ValidateStep(c, dictionary, records, k);
    if Validate(c, dictionary, records[..k + 1]).None? {
      ValidateFails(c, dictionary, records, k + 1);
    }
  }

  /** In every accepted file each record tells its order in the book that the records before it
      rebuild. */
  lemma AcceptedFileTells(c: Config, dictionary: seq<U16>, records: seq<Bytes>, k: nat)
    requires Records72(records) && k < |records| && Validate(c, dictionary, records).Some?
    ensures Validate(c, dictionary, records[..k]).Some? && 1 <= Field16(records[k], 52) <= |dictionary|
    ensures TellsOrder(Validate(c, dictionary, records[..k]).value.books[Field16(records[k], 52) - 1], records[k])
  {
    hide ValidateRecord, TellsOrder, Field16, MovedByRecord;
    BooksBefore(c, dictionary, records, k);
    AcceptedTells(c, dictionary, Validate(c, dictionary, records[..k]).value, records[k]);
  }

  /** Positions strictly increase and times never decrease through an accepted file. */
  lemma {:induction false} AcceptedFileOrdered(c: Config, dictionary: seq<U16>, records: seq<Bytes>, j: nat, k: nat)
    requires Records72(records) && j < k < |records| && Validate(c, dictionary, records).Some?
    ensures Field64(records[j], 0) < Field64(records[k], 0) && Field64(records[j], 8) <= Field64(records[k], 8)
    decreases k
  {
    hide ValidateRecord, Field64;
    BooksBefore(c, dictionary, records, k);
    BooksBefore(c, dictionary, records, k - 1);
    ValidateStep(c, dictionary, records, k - 1);
    PositionKept(c, dictionary, Validate(c, dictionary, records[..k - 1]).value, records[k - 1]);
    PositionKept(c, dictionary, Validate(c, dictionary, records[..k]).value, records[k]);
    if j < k - 1 {
      AcceptedFileOrdered(c, dictionary, records, j, k - 1);
    }
  }

  lemma PositionKept(c: Config, dictionary: seq<U16>, v: Rebuilt, record: Bytes)
    requires |record| == 72 && |v.books| == |dictionary| && ValidateRecord(c, dictionary, v, record).Some?
    ensures ValidateRecord(c, dictionary, v, record).value.last == Some(Position(Field64(record, 0), Field64(record, 8)))
    ensures v.last.Some? ==> Field64(record, 0) > v.last.value.index && Field64(record, 8) >= v.last.value.timestamp
  {
    hide DecodeRecord, Apply, Field16, Field32, Field64, RecordedAsApplied;
    AcceptedShape(record, |dictionary|, v.last);
    AcceptedFields(record, |dictionary|, v.last);
  }

  // ---------------------------------------------------------------- tampering

  /** The same kind of record about the same order, with the same quantity unless it is a delete. */
  predicate SameClaim(record: Bytes, other: Bytes)
    requires |record| == |other| == 72
  {
    && other[54] == record[54] && Field64(other, 16) == Field64(record, 16) && Field16(other, 52) == Field16(record, 52)
    && (record[54] != 5 ==> Field64(other, 32) == Field64(record, 32))
  }

  /** A side, a price or a remainder was changed, or the quantity of a delete. */
  predicate Falsified(record: Bytes, other: Bytes)
    requires |record| == |other| == 72
  {
    || (2 <= record[54] <= 6 && other[55] != record[55])
    || (2 <= record[54] <= 5 && Field32(other, 40) != Field32(record, 40))
    || (1 <= record[54] <= 6 && Field32(other, 44) != Field32(record, 44))
    || (record[54] == 5 && Field64(other, 32) != Field64(record, 32))
  }

  lemma OnlyOneTelling(live: Live, record: Bytes, other: Bytes)
    requires |record| == |other| == 72 && SameClaim(record, other) && Falsified(record, other)
    ensures !(TellsOrder(live, record) && TellsOrder(live, other))
  {
    hide Field16, Field32, Field64;
  }

  /** A falsified record makes an accepted record region a refused one. */
  lemma FalsifiedIsRefused(c: Config, dictionary: seq<U16>, records: seq<Bytes>, k: nat, other: Bytes)
    requires Records72(records) && k < |records| && Validate(c, dictionary, records).Some?
    requires |other| == 72 && SameClaim(records[k], other) && Falsified(records[k], other)
    ensures Validate(c, dictionary, records[k := other]).None?
  {
    hide Validate, TellsOrder, Falsified, Field16, Field32, Field64;
    var tampered := records[k := other];
    if Validate(c, dictionary, tampered).Some? {
      assert tampered[..k] == records[..k];
      AcceptedFileTells(c, dictionary, records, k);
      AcceptedFileTells(c, dictionary, tampered, k);
      OnlyOneTelling(Validate(c, dictionary, records[..k]).value.books[Field16(records[k], 52) - 1], records[k], other);
    }
  }

  /** So an accepted file is not accepted once the side, the price or the remainder of one execution,
      cancel or delete is changed, or the quantity of a delete, or the side of a replace, or the
      remainder of an add or a replace. */
  lemma TamperedFileIsRefused(c: Config, dictionary: seq<U16>, records: seq<Bytes>, tampered: seq<Bytes>,
                              manifest: seq<Expected>, k: nat)
    requires Records72(records) && Records72(tampered) && k < |records| == |tampered|
    requires forall i :: 0 <= i < |records| && i != k ==> tampered[i] == records[i]
    requires SameClaim(records[k], tampered[k]) && Falsified(records[k], tampered[k])
    requires Accepts(c, dictionary, records, manifest)
    ensures !Accepts(c, dictionary, tampered, manifest)
  {
    hide Validate, BookMatches, Falsified, SameClaim;
    FalsifiedIsRefused(c, dictionary, records, k, tampered[k]);
    assert tampered == records[k := tampered[k]];
  }
}
