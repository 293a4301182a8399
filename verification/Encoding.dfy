/** Byte encodings: the big-endian appenders of cpp/src/book/order_book.cpp and the in-place
    little-endian and padded-ASCII encoders of cpp/src/output/binary_encode.cpp. */
module Encoding {
  import opened Types

  /** 256 to the power `width`. */
  function Limit(width: nat): (limit: nat)
    ensures limit >= 1
  {
    if width == 0 then 1 else 256 * Limit(width - 1)
  }

  /** value >> (8 * count). */
  function ShiftRight8(value: nat, count: nat): nat {
    if count == 0 then value else ShiftRight8(value / 256, count - 1)
  }

  function Zeros(count: nat): (bytes: Bytes)
    ensures |bytes| == count
  {
    seq(count, _ => 0)
  }

  /** Most significant byte first; what does not fit in `width` bytes is dropped. */
  function BigEndian(value: nat, width: nat): (bytes: Bytes)
    ensures |bytes| == width
  {
    if width == 0 then [] else BigEndian(value / 256, width - 1) + [value % 256]
  }

  function FromBigEndian(bytes: Bytes): nat {
    if bytes == [] then 0 else 256 * FromBigEndian(bytes[..|bytes| - 1]) + bytes[|bytes| - 1]
  }

  /** Least significant byte first. */
  function LittleEndian(value: nat, width: nat): (bytes: Bytes)
    ensures |bytes| == width
  {
    if width == 0 then [] else [value % 256] + LittleEndian(value / 256, width - 1)
  }

  function FromLittleEndian(bytes: Bytes): nat {
    if bytes == [] then 0 else bytes[0] + 256 * FromLittleEndian(bytes[1..])
  }

  lemma {:induction false} BigEndianRoundTrip(value: nat, width: nat)
    requires value < Limit(width)
    ensures FromBigEndian(BigEndian(value, width)) == value
  {
    if width > 0 {
      BigEndianRoundTrip(value / 256, width - 1);
      assert BigEndian(value, width)[..width - 1] == BigEndian(value / 256, width - 1);
    }
  }

  lemma {:induction false} LittleEndianRoundTrip(value: nat, width: nat)
    requires value < Limit(width)
    ensures FromLittleEndian(LittleEndian(value, width)) == value
  {
    if width > 0 {
      LittleEndianRoundTrip(value / 256, width - 1);
      assert LittleEndian(value, width)[1..] == LittleEndian(value / 256, width - 1);
    }
  }

  lemma {:induction false} BigEndianAt(value: nat, width: nat, i: nat)
    requires i < width
    ensures BigEndian(value, width)[i] == ShiftRight8(value, width - 1 - i) % 256
  {
    if i < width - 1 {
      BigEndianAt(value / 256, width - 1, i);
    }
  }

  lemma {:induction false} LittleEndianAt(value: nat, width: nat, i: nat)
    requires i < width
    ensures LittleEndian(value, width)[i] == ShiftRight8(value, i) % 256
  {
    if i > 0 {
      LittleEndianAt(value / 256, width - 1, i - 1);
    }
  }

  lemma {:induction false} LittleEndianZero(width: nat)
    ensures forall i :: 0 <= i < width ==> LittleEndian(0, width)[i] == 0
  {
    if width > 0 {
      LittleEndianZero(width - 1);
    }
  }

  lemma Limits()
    ensures Limit(1) == 0x100 && Limit(2) == 0x1_0000 && Limit(4) == 0x1_0000_0000
    ensures Limit(8) == 0x1_0000_0000_0000_0000
  {
    assert Limit(3) == 0x100_0000 && Limit(5) == 0x100_0000_0000 && Limit(6) == 0x1_0000_0000_0000;
    assert Limit(7) == 0x100_0000_0000_0000;
  }

  /** append_u16, append_u32 and append_u64: shift out one byte at a time. */
  method AppendBigEndian(bytes: Bytes, value: nat, width: nat) returns (result: Bytes)
    ensures result == bytes + BigEndian(value, width)
  {
    result := bytes;
    for index := 0 to width
      invariant result == bytes + BigEndian(value, width)[..index]
    {
      BigEndianAt(value, width, index);
      result := result + [ShiftRight8(value, width - 1 - index) % 256];
    }
  }

  predicate ContainsRange(size: nat, offset: nat, width: nat) {
    offset <= size && width <= size - offset
  }

  /** The bytes of `output` with `part` written over it at `offset`. */
  function Overwrite(output: Bytes, offset: nat, part: Bytes): (result: Bytes)
    requires offset + |part| <= |output|
    ensures |result| == |output|
    ensures result[offset..offset + |part|] == part
  {
    output[..offset] + part + output[offset + |part|..]
  }

  method EncodeLittleEndian(output: array<U8>, offset: nat, value: nat, width: nat) returns (ok: bool)
    modifies output
    ensures ok <==> offset + width <= output.Length
    ensures output[..] == if ok then Overwrite(old(output[..]), offset, LittleEndian(value, width)) else old(output[..])
  {
    if !ContainsRange(output.Length, offset, width) {
      return false;
    }
    for index := 0 to width
      invariant output[..] == old(output[..])[..offset] + LittleEndian(value, width)[..index] +
                              old(output[..])[offset + index..]
    {
      LittleEndianAt(value, width, index);
      output[offset + index] := ShiftRight8(value, index) % 256;
    }
    ok := true;
  }

  predicate IsAscii(value: Bytes) {
    forall i :: 0 <= i < |value| ==> value[i] <= 0x7F
  }

  function Padded(value: Bytes, width: nat, padding: U8): (result: Bytes)
    requires |value| <= width
    ensures |result| == width
  {
    value + seq(width - |value|, _ => padding)
  }

  method EncodePaddedAscii(output: array<U8>, offset: nat, width: nat, value: Bytes, padding: U8) returns (ok: bool)
    modifies output
    ensures ok <==> offset + width <= output.Length && |value| <= width && IsAscii(value) && padding <= 0x7F
    ensures output[..] == if ok then Overwrite(old(output[..]), offset, Padded(value, width, padding)) else old(output[..])
  {
    if !ContainsRange(output.Length, offset, width) || |value| > width || !IsAscii(value) || padding > 0x7F {
      return false;
    }
    for index := 0 to width
      invariant output[..] == old(output[..])[..offset] + Padded(value, width, padding)[..index] +
                              old(output[..])[offset + index..]
    {
      output[offset + index] := if index < |value| then value[index] else padding;
    }
    ok := true;
  }

  // ---------------------------------------------------------------- filling a zeroed buffer

  lemma OverwriteZeros(prefix: Bytes, count: nat, part: Bytes)
    requires |part| <= count
    ensures Overwrite(prefix + Zeros(count), |prefix|, part) == prefix + part + Zeros(count - |part|)
  {
    var whole := prefix + Zeros(count);
    assert whole[..|prefix|] == prefix;
    assert whole[|prefix| + |part|..] == Zeros(count - |part|);
  }

  /** Write the next little-endian field of a buffer that is still zero from `offset` on. */
  method Put(output: array<U8>, ghost prefix: Bytes, offset: nat, value: nat, width: nat)
    requires |prefix| == offset && offset + width <= output.Length
    requires output[..] == prefix + Zeros(output.Length - offset)
    modifies output
    ensures output[..] == prefix + LittleEndian(value, width) + Zeros(output.Length - offset - width)
  {
    OverwriteZeros(prefix, output.Length - offset, LittleEndian(value, width));
    var ok := EncodeLittleEndian(output, offset, value, width);
  }
}
