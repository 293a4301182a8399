/** The bytes of an event-v1 record, told as numbers: which kind, source and flags go together, and
    what every accepted record satisfies whoever wrote it. */
module RecordShape {
  import opened Types
  import opened Encoding
  import opened EventCodec

  // ---------------------------------------------------------------- the flag word as a number

  function Bit(b: bool): nat {
    if b then 1 else 0
  }

  lemma PackFrom(bits: seq<bool>, i: nat)
    requires i < |bits|
    ensures Pack(bits[i..]) == Bit(bits[i]) + 2 * Pack(bits[i + 1..])
  {
    assert bits[i..][1..] == bits[i + 1..];
  }

  lemma PackFive(bits: seq<bool>, i: nat)
    requires i + 5 <= |bits|
    ensures Pack(bits[i..]) ==
            Bit(bits[i]) + 2 * Bit(bits[i + 1]) + 4 * Bit(bits[i + 2]) + 8 * Bit(bits[i + 3]) + 16 * Bit(bits[i + 4]) +
            32 * Pack(bits[i + 5..])
  {
    hide Pack, Bit;
    PackFrom(bits, i);
    PackFrom(bits, i + 1);
    PackFrom(bits, i + 2);
    PackFrom(bits, i + 3);
    PackFrom(bits, i + 4);
  }

  /** Each flag has the weight of its position. */
  lemma PackSixteen(bits: seq<bool>)
    requires |bits| == 16
    ensures Pack(bits) ==
            Bit(bits[0]) + 2 * Bit(bits[1]) + 4 * Bit(bits[2]) + 8 * Bit(bits[3]) + 16 * Bit(bits[4]) +
            32 * Bit(bits[5]) + 64 * Bit(bits[6]) + 128 * Bit(bits[7]) + 256 * Bit(bits[8]) + 512 * Bit(bits[9]) +
            1024 * Pack(bits[10..])
  {
    hide Pack, Bit;
    assert bits[0..] == bits;
    PackFive(bits, 0);
    PackFive(bits, 5);
  }

  lemma {:induction false} PackZeros(bits: seq<bool>)
    requires forall i :: 0 <= i < |bits| ==> !bits[i]
    ensures Pack(bits) == 0
  {
    if bits != [] {
      PackZeros(bits[1..]);
    }
  }

  lemma {:induction false} PackUnpack(word: nat, count: nat)
    requires word < PowerOfTwo(count)
    ensures Pack(Unpack(word, count)) == word
  {
    if count > 0 {
      PackUnpack(word / 2, count - 1);
      assert Unpack(word, count)[1..] == Unpack(word / 2, count - 1);
    }
  }

  /** The kind byte, the source byte and the flag word that go together; 512 marks an event that is in
      session. */
  predicate Shaped(kind: U8, source: U8, flags: nat) {
    var base := if flags >= 512 then flags - 512 else flags;
    || (kind == 1 && source == 'A' as int && base == 61)
    || (kind == 1 && source == 'F' as int && base == 189)
    || (kind == 2 && source == 'E' as int && base == 63)
    || (kind == 3 && source == 'C' as int && base == 127)
    || (kind == 4 && source == 'X' as int && base == 61)
    || (kind == 5 && source == 'D' as int && base == 61)
    || (kind == 6 && source == 'U' as int && base == 63)
    || (kind == 7 && source == 'P' as int && base == 31)
    || (kind == 8 && source == 'Q' as int && base == 282)
    || (kind == 9 && source == 'B' as int && base == 1)
    || (kind == 10 && source == 'H' as int && base in {256, 384})
  }

  /** Below the session flag, the flags are exactly the required ones, save that a state change may
      carry a reason. */
  lemma FittingBits(kind: EventKind, source: U8, bits: seq<bool>)
    requires |bits| == 16 && FlagsFit(kind, source, bits)
    ensures forall i :: 0 <= i < 9 && !(i == 7 && kind == TradingStateEvent) ==> bits[i] == RequiredBits(kind, source)[i]
    ensures forall i :: 10 <= i < 16 ==> !bits[i]
  {
    hide RequiredBits;
  }

  lemma FittingWord(kind: EventKind, source: U8, bits: seq<bool>)
    requires |bits| == 16 && FlagsFit(kind, source, bits) && KindMatchesSource(kind, source)
    ensures Shaped(KindCode(kind), source, Pack(bits))
    ensures bits[9] <==> Pack(bits) >= 512
  {
    FittingBits(kind, source, bits);
    PackSixteen(bits);
    PackZeros(bits[10..]);
    hide Pack, FlagsFit;
    var required := RequiredBits(kind, source);
    assert bits[0] == required[0] && bits[1] == required[1] && bits[2] == required[2] && bits[3] == required[3];
    assert bits[4] == required[4] && bits[5] == required[5] && bits[6] == required[6] && bits[8] == required[8];
    assert kind != TradingStateEvent ==> bits[7] == required[7];
  }

  // ---------------------------------------------------------------- what an accepted record is

  lemma KindByte(code: U8)
    ensures KindOf(code).Some? ==> KindCode(KindOf(code).value) == code
  {
  }

  /** Every record that the decoder accepts, whoever wrote it. */
  lemma AcceptedShape(bytes: Bytes, symbols: nat, last: Option<Position>)
    requires |bytes| == 72 && DecodeRecord(bytes, symbols, last).Decoded?
    ensures Shaped(bytes[54], bytes[56], Field16(bytes, 57))
    ensures DecodeRecord(bytes, symbols, last).event.inSession <==> Field16(bytes, 57) >= 512
    ensures 1 <= Field16(bytes, 52) <= symbols && Field64(bytes, 8) < 86_400_000_000_000
    ensures last.Some? ==> Field64(bytes, 0) > last.value.index && Field64(bytes, 8) >= last.value.timestamp
    ensures bytes[54] <= 7 ==> bytes[55] == 1 || bytes[55] == 0xFF
    ensures bytes[54] > 7 ==> bytes[55] == 0
    ensures bytes[54] <= 8 ==> Field64(bytes, 32) > 0
    ensures bytes[54] in {1, 6} ==> Field32(bytes, 44) == Field64(bytes, 32)
    ensures bytes[54] == 5 ==> Field32(bytes, 44) == 0
    ensures bytes[54] == 10 ==> bytes[64] in {'H' as int, 'P' as int, 'Q' as int, 'T' as int}
    ensures bytes[56] == 'F' as int || Field16(bytes, 57) % 512 == 384 ==> forall i :: 60 <= i < 64 ==> 0x20 <= bytes[i] <= 0x7E
  {
    hide Field16, Field32, Field64, Pack, Unpack, AbsentFieldsZero, BytesAreZero, FlagsFit, RequiredBits;
    var word := Field16(bytes, 57);
    var bits := Unpack(word, 16);
    PowerOfTwo16();
    PackUnpack(word, 16);
    KindByte(bytes[54]);
    var kind, source := KindOf(bytes[54]).value, bytes[56];
    FittingWord(kind, source, bits);
    FittingSides(kind, source, bits);
  }

  lemma FittingSides(kind: EventKind, source: U8, bits: seq<bool>)
    requires |bits| == 16 && FlagsFit(kind, source, bits) && KindMatchesSource(kind, source)
    ensures bits[SIDE] <==> KindCode(kind) <= 7
    ensures bits[QUANTITY] <==> KindCode(kind) <= 8
    ensures bits[SUBTYPE] <==> KindCode(kind) in {8, 10}
    ensures bits[AUX] <==> source == 'F' as int || Pack(bits) in {384, 896}
  {
    FittingBits(kind, source, bits);
    PackSixteen(bits);
    PackZeros(bits[10..]);
    hide Pack, FlagsFit;
    var required := RequiredBits(kind, source);
    assert bits[0] == required[0] && bits[1] == required[1] && bits[2] == required[2] && bits[3] == required[3];
    assert bits[4] == required[4] && bits[5] == required[5] && bits[6] == required[6] && bits[8] == required[8];
    assert kind != TradingStateEvent ==> bits[7] == required[7];
  }
}
