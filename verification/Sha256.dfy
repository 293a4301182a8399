/** Incremental SHA-256 (cpp/src/core/sha256.cpp) against the definition of FIPS 180-4. */
module Sha256 {
  import opened Types
  import opened Encoding

  type Word = bv32

  // ---------------------------------------------------------------- section 4: functions, constants

  const CONSTANTS: seq<seq<Word>> := [
    [0x428a2f98, 0x71374491, 0xb5c0fbcf, 0xe9b5dba5, 0x3956c25b, 0x59f111f1, 0x923f82a4, 0xab1c5ed5],
    [0xd807aa98, 0x12835b01, 0x243185be, 0x550c7dc3, 0x72be5d74, 0x80deb1fe, 0x9bdc06a7, 0xc19bf174],
    [0xe49b69c1, 0xefbe4786, 0x0fc19dc6, 0x240ca1cc, 0x2de92c6f, 0x4a7484aa, 0x5cb0a9dc, 0x76f988da],
    [0x983e5152, 0xa831c66d, 0xb00327c8, 0xbf597fc7, 0xc6e00bf3, 0xd5a79147, 0x06ca6351, 0x14292967],
    [0x27b70a85, 0x2e1b2138, 0x4d2c6dfc, 0x53380d13, 0x650a7354, 0x766a0abb, 0x81c2c92e, 0x92722c85],
    [0xa2bfe8a1, 0xa81a664b, 0xc24b8b70, 0xc76c51a3, 0xd192e819, 0xd6990624, 0xf40e3585, 0x106aa070],
    [0x19a4c116, 0x1e376c08, 0x2748774c, 0x34b0bcb5, 0x391c0cb3, 0x4ed8aa4a, 0x5b9cca4f, 0x682e6ff3],
    [0x748f82ee, 0x78a5636f, 0x84c87814, 0x8cc70208, 0x90befffa, 0xa4506ceb, 0xbef9a3f7, 0xc67178f2]]

  function K(t: nat): Word
    requires t < 64
  {
    CONSTANTS[t / 8][t % 8]
  }

  function Choose(x: Word, y: Word, z: Word): Word { (x & y) ^ (!x & z) }

  function Majority(x: Word, y: Word, z: Word): Word { (x & y) ^ (x & z) ^ (y & z) }

  function BigSigma0(x: Word): Word { x.RotateRight(2) ^ x.RotateRight(13) ^ x.RotateRight(22) }

  function BigSigma1(x: Word): Word { x.RotateRight(6) ^ x.RotateRight(11) ^ x.RotateRight(25) }

  function SmallSigma0(x: Word): Word { x.RotateRight(7) ^ x.RotateRight(18) ^ (x >> 3) }

  function SmallSigma1(x: Word): Word { x.RotateRight(17) ^ x.RotateRight(19) ^ (x >> 10) }

  // ---------------------------------------------------------------- section 6.2.2: one block

  function BlockWord(block: Bytes, t: nat): Word
    requires |block| == 64 && t < 16
  {
    ((block[4 * t] as Word) << 24) | ((block[4 * t + 1] as Word) << 16) |
    ((block[4 * t + 2] as Word) << 8) | (block[4 * t + 3] as Word)
  }

  /** Step 1: the message schedule. */
  function W(block: Bytes, t: nat): Word
    requires |block| == 64 && t < 64
  {
    if t < 16 then BlockWord(block, t)
    else ScheduleWord(W(block, t - 2), W(block, t - 7), W(block, t - 15), W(block, t - 16))
  }

  function ScheduleWord(w2: Word, w7: Word, w15: Word, w16: Word): Word {
    SmallSigma1(w2) + w7 + SmallSigma0(w15) + w16
  }

  /** Step 3: one round on the eight working variables. */
  function Round(v: seq<Word>, k: Word, w: Word): (next: seq<Word>)
    requires |v| == 8
    ensures |next| == 8
  {
    var temp1 := Temp1(v[4], v[5], v[6], v[7], k, w);
    var temp2 := Temp2(v[0], v[1], v[2]);
    [Sum(temp1, temp2), v[0], v[1], v[2], Sum(v[3], temp1), v[4], v[5], v[6]]
  }

  function Temp1(e: Word, f: Word, g: Word, h: Word, k: Word, w: Word): Word {
    h + BigSigma1(e) + Choose(e, f, g) + k + w
  }

  function Temp2(a: Word, b: Word, c: Word): Word {
    BigSigma0(a) + Majority(a, b, c)
  }

  /** Addition modulo 2^32. */
  function Sum(x: Word, y: Word): Word { x + y }

  function Rounds(h: seq<Word>, block: Bytes, t: nat): (v: seq<Word>)
    requires |h| == 8 && |block| == 64 && t <= 64
    ensures |v| == 8
  {
    if t == 0 then h else Round(Rounds(h, block, t - 1), K(t - 1), W(block, t - 1))
  }

  /** Steps 2 to 4: the block function. */
  function Compress(h: seq<Word>, block: Bytes): (next: seq<Word>)
    requires |h| == 8 && |block| == 64
    ensures |next| == 8
  {
    var v := Rounds(h, block, 64);
    seq(8, i requires 0 <= i < 8 => Sum(h[i], v[i]))
  }

  // ---------------------------------------------------------------- sections 5.1.1, 5.2.1, 5.3.3

  const INITIAL: seq<Word> := [
    0x6a09e667, 0xbb67ae85, 0x3c6ef372, 0xa54ff53a, 0x510e527f, 0x9b05688c, 0x1f83d9ab, 0x5be0cd19]

  /** The block function folded over the 64-byte blocks of a whole number of blocks. */
  function Fold(message: Bytes): (h: seq<Word>)
    requires |message| % 64 == 0
    ensures |h| == 8
  {
    if message == [] then INITIAL
    else Compress(Fold(message[..|message| - 64]), message[|message| - 64..])
  }

  lemma PaddedSize(size: nat)
    ensures (size + 9 + (55 - size) % 64) % 64 == 0
  {
    var q, z := (55 - size) / 64, (55 - size) % 64;
    assert size + 9 + z == 64 * (1 - q);
  }

  /** A single 1 bit, the least number of zero bits, then the 64-bit length. */
  function Pad(message: Bytes): (padded: Bytes)
    ensures |padded| % 64 == 0
  {
    PaddedSize(|message|);
    message + [0x80] + Zeros((55 - |message|) % 64) + BigEndian(8 * |message|, 8)
  }

  function WordBytes(h: seq<Word>): (bytes: Bytes)
    ensures |bytes| == 4 * |h|
  {
    if h == [] then []
    else WordBytes(h[..|h| - 1]) + BigEndian(h[|h| - 1] as nat, 4)
  }

  /** SHA-256 of a whole message. */
  function Hash(message: Bytes): (digest: Bytes)
    ensures |digest| == 32
  {
    WordBytes(Fold(Pad(message)))
  }

  lemma FoldBlock(message: Bytes, block: Bytes)
    requires |message| % 64 == 0 && |block| == 64
    ensures Fold(message + block) == Compress(Fold(message), block)
  {
    assert (message + block)[..|message|] == message;
    assert (message + block)[|message|..] == block;
  }

  // ---------------------------------------------------------------- the block function in place

  method Schedule(block: Bytes) returns (words: array<Word>)
    requires |block| == 64
    ensures fresh(words) && words.Length == 64
    ensures forall t :: 0 <= t < 64 ==> words[t] == W(block, t)
  {
    hide BlockWord, ScheduleWord;
    words := new Word[64];
    for index := 0 to 16
      invariant forall t :: 0 <= t < index ==> words[t] == W(block, t)
    {
      words[index] := BlockWord(block, index);
    }
    for index := 16 to 64
      invariant forall t :: 0 <= t < index ==> words[t] == W(block, t)
    {
      words[index] := ScheduleWord(words[index - 2], words[index - 7], words[index - 15], words[index - 16]);
    }
  }

  method RunRounds(start: seq<Word>, block: Bytes) returns (v: seq<Word>)
    requires |start| == 8 && |block| == 64
    ensures v == Rounds(start, block, 64)
  {
    hide Temp1, Temp2, Sum, W, K;
    var words := Schedule(block);
    var a, b, c, d := start[0], start[1], start[2], start[3];
    var e, f, g, h := start[4], start[5], start[6], start[7];
    assert start == [a, b, c, d, e, f, g, h];
    for index := 0 to 64
      invariant [a, b, c, d, e, f, g, h] == Rounds(start, block, index)
    {
      var temp1 := Temp1(e, f, g, h, K(index), words[index]);
      var temp2 := Temp2(a, b, c);
      h, g, f, e := g, f, e, Sum(d, temp1);
      d, c, b, a := c, b, a, Sum(temp1, temp2);
    }
    v := [a, b, c, d, e, f, g, h];
  }

  method ProcessBlock(state: array<Word>, block: Bytes)
    requires state.Length == 8 && |block| == 64
    modifies state
    ensures state[..] == Compress(old(state[..]), block)
  {
    hide Rounds, Sum;
    var v := RunRounds(state[..], block);
    for i := 0 to 8
      invariant forall j :: 0 <= j < 8 ==> state[j] == if j < i then Sum(old(state[j]), v[j]) else old(state[j])
    {
      state[i] := Sum(state[i], v[i]);
    }
    assert state[..] == Compress(old(state[..]), block);
  }

  // ---------------------------------------------------------------- the incremental hasher

  function WholeBlocks(size: nat): (whole: nat)
    ensures whole <= size && whole % 64 == 0 && size - whole < 64
  {
    size - size % 64
  }

  lemma LastBlock(position: nat, rest: nat)
    requires position % 64 == 0 && rest < 64
    ensures WholeBlocks(position) == position && WholeBlocks(position + rest) == position
    ensures (position + rest) % 64 == rest
  {
  }

  /** Extending the folded prefix by its next block. */
  lemma FoldNext(message: Bytes, position: nat)
    requires position % 64 == 0 && position + 64 <= |message|
    ensures Fold(message[..position + 64]) == Compress(Fold(message[..position]), message[position..position + 64])
  {
    FoldBlock(message[..position], message[position..position + 64]);
    assert message[..position] + message[position..position + 64] == message[..position + 64];
  }

  lemma SliceGrows(s: Bytes, from: nat, end: nat)
    requires from <= end < |s|
    ensures s[from..end + 1] == s[from..end] + [s[end]]
  {
  }

  lemma SliceJoin(s: Bytes, from: nat, middle: nat, end: nat)
    requires from <= middle <= end <= |s|
    ensures s[from..end] == s[from..middle] + s[middle..end]
  {
  }

  lemma SliceOfInput(message: Bytes, start: nat, input: Bytes, from: nat, end: nat)
    requires start + |input| == |message| && message[start..] == input && from <= end <= |input|
    ensures message[start + from..start + end] == input[from..end]
  {
    forall i | 0 <= i < end - from ensures message[start + from..start + end][i] == input[from..end][i] {
      assert message[start..][from + i] == input[from + i];
    }
  }

  /** Input that arrives later leaves the blocks and the pending bytes as they are. */
  lemma SamePrefix(before: Bytes, input: Bytes)
    ensures WholeBlocks(|before|) <= |before|
    ensures (before + input)[..WholeBlocks(|before|)] == before[..WholeBlocks(|before|)]
    ensures (before + input)[WholeBlocks(|before|)..|before|] == before[WholeBlocks(|before|)..|before|]
    ensures (before + input)[|before|..] == input
  {
  }

  class Sha256Hasher {
    const state: array<Word>
    const pending: array<U8>
    var pendingSize: nat
    var totalBytes: nat
    var finalised: bool
    ghost var consumed: Bytes

    /** The first `position` bytes of `message` are in: whole blocks folded, the rest pending. */
    ghost predicate Absorbed(message: Bytes, position: nat)
      reads this, state, pending
    {
      && state.Length == 8 && pending.Length == 64
      && position <= |message|
      && pendingSize == position % 64
      && state[..] == Fold(message[..WholeBlocks(position)])
      && pending[..pendingSize] == message[WholeBlocks(position)..position]
    }

    ghost predicate Valid()
      reads this, state, pending
    {
      && state.Length == 8 && pending.Length == 64
      && totalBytes == |consumed| <= U64_MAX / 8
      && (!finalised ==> Absorbed(consumed, |consumed|))
    }

    constructor ()
      ensures Valid() && !finalised && consumed == [] && fresh(state) && fresh(pending)
    {
      state := new Word[8](i requires 0 <= i < 8 => INITIAL[i]);
      pending := new U8[64](_ => 0);
      pendingSize, totalBytes, finalised, consumed := 0, 0, false, [];
      new;
      assert state[..] == INITIAL;
    }

    /** Accepts any chunk while the bit length fits 64 bits. What has been consumed is the
        concatenation of the accepted chunks, however the input was cut. */
    method Update(input: Bytes) returns (ok: bool)
      requires Valid()
      modifies this, state, pending
      ensures Valid()
      ensures ok <==> !old(finalised) && |old(consumed)| + |input| <= U64_MAX / 8
      ensures finalised == old(finalised)
      ensures consumed == if ok then old(consumed) + input else old(consumed)
    {
      hide Fold, Compress, WholeBlocks;
      if finalised || |input| > U64_MAX - totalBytes || totalBytes + |input| > U64_MAX / 8 {
        return false;
      }
      totalBytes := totalBytes + |input|;
      ghost var start := |consumed|;
      consumed := consumed + input;
      SamePrefix(old(consumed), input);
      assert Absorbed(consumed, start);

      var offset := 0;
      if pendingSize != 0 {
        offset := TopUp(input, start);
      }
      offset := FoldBlocks(input, start, offset);
      var remaining := |input| - offset;
      if remaining != 0 {
        LastBlock(start + offset, remaining);
        assert consumed[start + offset..] == input[offset..];
        KeepPending(input[offset..]);
      }
      ok := true;
    }

    /** Fill the pending block first; fold it when it is full. */
    method TopUp(input: Bytes, ghost start: nat) returns (offset: nat)
      requires start + |input| == |consumed| && consumed[start..] == input
      requires Absorbed(consumed, start) && pendingSize != 0
      modifies this`pendingSize, state, pending
      ensures offset <= |input| && (pendingSize == 0 || offset == |input|)
      ensures Absorbed(consumed, start + offset)
    {
      hide Fold, Compress;
      offset := if |input| < 64 - pendingSize then |input| else 64 - pendingSize;
      ghost var whole := WholeBlocks(start);
      FillPending(input, offset);
      SliceOfInput(consumed, start, input, 0, offset);
      SliceJoin(consumed, whole, start, start + offset);
      pendingSize := pendingSize + offset;
      if pendingSize == 64 {
        FoldNext(consumed, whole);
        assert pending[..] == pending[..64] == consumed[whole..whole + 64];
        ProcessBlock(state, pending[..]);
        pendingSize := 0;
      }
    }

    /** Append the first bytes of the input to the pending ones. */
    method FillPending(input: Bytes, count: nat)
      requires count <= |input| && pendingSize + count <= 64 == pending.Length
      modifies pending
      ensures pending[..pendingSize + count] == old(pending[..pendingSize]) + input[..count]
    {
      ghost var before := pending[..pendingSize];
      for index := 0 to count
        invariant pending[..pendingSize + index] == before + input[..index]
      {
        ghost var filled := pending[..pendingSize + index];
        pending[pendingSize + index] := input[index];
        assert pending[..pendingSize + index] == filled;
        assert pending[..pendingSize + index + 1] == filled + [input[index]];
        SliceGrows(input, 0, index);
      }
    }

    method FoldBlocks(input: Bytes, ghost start: nat, from: nat) returns (offset: nat)
      requires start + |input| == |consumed| && consumed[start..] == input
      requires from <= |input| && (pendingSize == 0 || from == |input|)
      requires Absorbed(consumed, start + from)
      modifies state
      ensures from <= offset <= |input| && |input| - offset < 64 && (pendingSize == 0 || offset == |input|)
      ensures Absorbed(consumed, start + offset)
    {
      hide Fold, Compress;
      offset := from;
      while |input| - offset >= 64
        invariant from <= offset <= |input| && (pendingSize == 0 || offset == |input|)
        invariant Absorbed(consumed, start + offset)
      {
        FoldNext(consumed, start + offset);
        SliceOfInput(consumed, start, input, offset, offset + 64);
        ProcessBlock(state, input[offset..offset + 64]);
        offset := offset + 64;
      }
    }

    method KeepPending(rest: Bytes)
      requires pending.Length == 64 && |rest| < 64
      modifies this`pendingSize, pending
      ensures pendingSize == |rest| && pending[..pendingSize] == rest
    {
      for index := 0 to |rest|
        invariant pending[..index] == rest[..index]
      {
        pending[index] := rest[index];
      }
      pendingSize := |rest|;
    }

    /** The digest of everything consumed, once. */
    method Finalise() returns (digest: Option<Bytes>)
      requires Valid()
      modifies this, state
      ensures Valid() && finalised && consumed == old(consumed)
      ensures digest == if old(finalised) then None else Some(Hash(consumed))
    {
      hide Fold, Compress, BigEndian;
      if finalised {
        return None;
      }
      finalised := true;
      var paddedSize := if pendingSize < 56 then 64 else 128;
      var blank := pending[..pendingSize] + [0x80] + Zeros(128 - pendingSize - 1);
      var tail := blank[..paddedSize - 8] + BigEndian(8 * totalBytes, 8) + blank[paddedSize..];
      assert blank[..paddedSize - 8] == pending[..pendingSize] + [0x80] + Zeros(paddedSize - 9 - pendingSize);

      ghost var whole := WholeBlocks(|consumed|);
      ghost var padded := Pad(consumed);
      ZeroCount(|consumed|);
      assert consumed == consumed[..whole] + consumed[whole..];
      PadSplit(consumed[..whole], consumed[whole..], paddedSize - 9 - pendingSize);
      assert padded == consumed[..whole] + tail[..paddedSize];
      FoldNext(padded, whole);
      assert padded[..whole] == consumed[..whole];
      assert padded[whole..whole + 64] == tail[..64];
      ProcessBlock(state, tail[..64]);
      if paddedSize == 128 {
        FoldNext(padded, whole + 64);
        assert padded[whole + 64..whole + 128] == tail[64..];
        ProcessBlock(state, tail[64..]);
      }
      assert padded[..whole + paddedSize] == padded;
      var bytes := StateBytes();
      digest := Some(bytes);
    }

    /** The eight state words as big-endian bytes. */
    method StateBytes() returns (bytes: Bytes)
      requires state.Length == 8
      ensures bytes == WordBytes(state[..])
    {
      bytes := [];
      for word := 0 to 8
        invariant bytes == WordBytes(state[..word])
      {
        bytes := bytes + BigEndian(state[word] as nat, 4);
        assert state[..word + 1][..word] == state[..word];
      }
      assert state[..8] == state[..];
    }
  }

  /** Padding only touches what follows the whole blocks. */
  lemma PadSplit(whole: Bytes, last: Bytes, count: nat)
    requires (55 - |whole + last|) % 64 == count
    ensures Pad(whole + last) == whole + (last + [0x80] + Zeros(count) + BigEndian(8 * |whole + last|, 8))
  {
  }

  lemma ZeroCount(size: nat)
    ensures (55 - size) % 64 == (if size % 64 < 56 then 55 else 119) - size % 64
  {
    var q := size / 64;
    assert 55 - size == 64 * -q + (55 - size % 64);
    if size % 64 >= 56 {
      assert 55 - size == 64 * (-q - 1) + (119 - size % 64);
    }
  }

  /** Chunk independence: the digest after any accepted updates is a function of their
      concatenation alone. */
  function Concat(chunks: seq<Bytes>): Bytes {
    if chunks == [] then [] else Concat(chunks[..|chunks| - 1]) + chunks[|chunks| - 1]
  }

  method HashChunks(chunks: seq<Bytes>) returns (digest: Option<Bytes>)
    ensures digest == if |Concat(chunks)| <= U64_MAX / 8 then Some(Hash(Concat(chunks))) else None
  {
    hide Hash, Sha256Hasher.Absorbed;
    var hasher := new Sha256Hasher();
    for i := 0 to |chunks|
      invariant fresh(hasher) && fresh(hasher.state) && fresh(hasher.pending)
      invariant hasher.Valid() && !hasher.finalised && hasher.consumed == Concat(chunks[..i])
    {
      assert chunks[..i + 1][..i] == chunks[..i];
      var ok := hasher.Update(chunks[i]);
      if !ok {
        ConcatPrefix(chunks, i + 1);
        return None;
      }
    }
    assert chunks[..|chunks|] == chunks;
    digest := hasher.Finalise();
  }

  lemma {:induction false} ConcatPrefix(chunks: seq<Bytes>, i: nat)
    requires i <= |chunks|
    ensures |Concat(chunks[..i])| <= |Concat(chunks)|
    decreases |chunks|
  {
    if i < |chunks| {
      ConcatPrefix(chunks[..|chunks| - 1], i);
      assert chunks[..|chunks| - 1][..i] == chunks[..i];
    } else {
      assert chunks[..i] == chunks;
    }
  }
}
