/** The framed reader (cpp/src/input/framed_reader.cpp): two-byte big-endian lengths and payloads of
    1 to 512 bytes, read from a source that may deliver its bytes in chunks of any size. */
module FramedReader {
  import opened Types
  import opened Encoding

  const MAXIMUM_PAYLOAD: int := 512

  /** A byte source: its bytes, then end of file or a fixed error. */
  datatype ReadOutcome = Delivered(count: nat) | EndOfFile | SourceFailed(code: ErrorCode)

  class ByteSource {
    const data: Bytes
    const failure: Option<ErrorCode>
    var position: nat

    ghost predicate Valid()
      reads this
    {
      position <= |data|
    }

    constructor (bytes: Bytes, ending: Option<ErrorCode>)
      ensures Valid() && data == bytes && failure == ending && position == 0
    {
      data, failure, position := bytes, ending, 0;
    }

    /** Deliver at least one byte and at most the wanted number: how many is up to the source. */
    method Read(destination: array<U8>, from: nat, end: nat) returns (outcome: ReadOutcome)
      requires Valid() && from < end <= destination.Length
      modifies this, destination
      ensures Valid() && old(position) <= position
      ensures outcome.Delivered? ==>
                && 1 <= outcome.count <= end - from && position == old(position) + outcome.count
                && destination[..] == old(destination[..from]) + data[old(position)..position] +
                                      old(destination[from + outcome.count..])
      ensures !outcome.Delivered? ==> position == old(position) == |data| && destination[..] == old(destination[..])
      ensures outcome.EndOfFile? ==> failure.None?
      ensures outcome.SourceFailed? ==> failure == Some(outcome.code)
    {
      if position == |data| {
        return if failure.Some? then SourceFailed(failure.value) else EndOfFile;
      }
      var count :| 1 <= count <= end - from && count <= |data| - position;
      forall i | 0 <= i < count {
        destination[from + i] := data[position + i];
      }
      position := position + count;
      outcome := Delivered(count);
    }
  }

  datatype ExactRead = ExactRead(bytesRead: nat, endOfFile: bool, failure: Option<ErrorCode>)

  /** Fill the first `size` bytes of the buffer unless the source ends before. */
  method ReadExact(source: ByteSource, destination: array<U8>, size: nat) returns (result: ExactRead)
    requires source.Valid() && size <= destination.Length
    modifies source, destination
    ensures source.Valid()
    ensures var available := |source.data| - old(source.position);
            if size <= available then
              && result == ExactRead(size, false, None) && source.position == old(source.position) + size
              && destination[..size] == source.data[old(source.position)..old(source.position) + size]
            else
              && source.position == |source.data|
              && result == ExactRead(available, source.failure.None?, source.failure)
  {
    var total := 0;
    while total < size
      invariant total <= size && source.Valid() && source.position == old(source.position) + total
      invariant destination[..total] == source.data[old(source.position)..old(source.position) + total]
    {
      ghost var start := source.position;
      ghost var kept := destination[..total];
      var outcome := source.Read(destination, total, size);
      match outcome
      case SourceFailed(code) => return ExactRead(total, false, Some(code));
      case EndOfFile => return ExactRead(total, true, None);
      case Delivered(count) =>
        // A source that keeps its contract delivered between 1 and the wanted number of bytes.
        assert destination[..total + count] == kept + source.data[start..start + count];
        total := total + count;
    }
    result := ExactRead(total, false, None);
  }

  // ---------------------------------------------------------------- what the bytes mean

  datatype Framed = Framed(index: U64, offset: U64, payload: Bytes)

  datatype Next = NextFrame(frame: Framed) | CleanEnd | Broken(code: ErrorCode, index: U64, offset: U64)

  function PayloadLength(data: Bytes, offset: nat): nat
    requires offset + 2 <= |data|
  {
    var high: nat, low: nat := data[offset], data[offset + 1];
    high * 256 + low
  }

  /** The frame that starts at an offset, told from the bytes alone. */
  function FrameAt(data: Bytes, failure: Option<ErrorCode>, index: U64, offset: U64): (next: Next)
    requires offset <= |data|
    ensures next.NextFrame? ==>
              && 1 <= |next.frame.payload| <= MAXIMUM_PAYLOAD && offset + 2 + |next.frame.payload| <= |data|
              && offset + 2 + |next.frame.payload| <= U64_MAX && index < U64_MAX
  {
    if |data| - offset < 2 then
      if failure.Some? then Broken(failure.value, index, offset)
      else if offset == |data| then CleanEnd
      else Broken(TruncatedMessage, index, offset)
    else
      var length := PayloadLength(data, offset);
      if length == 0 || length > MAXIMUM_PAYLOAD then Broken(Framing, index, offset)
      else if |data| - offset - 2 < length then
        Broken(if failure.Some? then failure.value else TruncatedMessage, index, offset)
      else if offset + 2 + length > U64_MAX || index == U64_MAX then Broken(Internal, index, offset)
      else NextFrame(Framed(index, offset, data[offset + 2..offset + 2 + length]))
  }

  datatype Stream = Stream(frames: seq<Framed>, ending: Next)

  /** All frames from an offset on, and how the stream ends. */
  function StreamFrom(data: Bytes, failure: Option<ErrorCode>, index: U64, offset: U64): (stream: Stream)
    requires offset <= |data|
    ensures !stream.ending.NextFrame?
    decreases |data| - offset
  {
    var next := FrameAt(data, failure, index, offset);
    if next.NextFrame? then
      var rest := StreamFrom(data, failure, index + 1, offset + 2 + |next.frame.payload|);
      Stream([next.frame] + rest.frames, rest.ending)
    else Stream([], next)
  }

  // ---------------------------------------------------------------- the reader

  class FramedMessageReader {
    const source: ByteSource
    const payload: array<U8>
    var nextIndex: U64
    var nextOffset: U64
    var endOfFile: bool
    var terminal: Option<Next>

    /** Until it ends, the reader stands at the start of the next frame. */
    ghost predicate Valid()
      reads this, source
    {
      && payload.Length == MAXIMUM_PAYLOAD
      && source.Valid() && nextOffset <= |source.data|
      && (terminal.None? && !endOfFile ==> source.position == nextOffset)
      && (terminal.Some? ==> terminal.value.Broken? && terminal.value == FrameAt(source.data, source.failure, nextIndex, nextOffset))
      && (endOfFile ==> FrameAt(source.data, source.failure, nextIndex, nextOffset) == CleanEnd)
    }

    constructor (bytes: ByteSource)
      requires bytes.Valid() && bytes.position == 0
      ensures Valid() && source == bytes && fresh(payload) && nextIndex == 0 && nextOffset == 0
      ensures terminal.None? && !endOfFile
    {
      source := bytes;
      payload := new U8[512];
      nextIndex, nextOffset, endOfFile, terminal := 0, 0, false, None;
    }

    method Fail(code: ErrorCode) returns (next: Next)
      modifies this
      ensures next == Broken(code, nextIndex, nextOffset) && terminal == Some(next)
      ensures nextIndex == old(nextIndex) && nextOffset == old(nextOffset) && endOfFile == old(endOfFile)
    {
      terminal := Some(Broken(code, nextIndex, nextOffset));
      next := terminal.value;
    }

    /** The next frame depends only on the bytes, however the source chunks them; after the end or
        an error every further call repeats it. */
    method Read() returns (next: Next)
      requires Valid()
      modifies this, source, payload
      ensures Valid()
      ensures next == FrameAt(source.data, source.failure, old(nextIndex), old(nextOffset))
      ensures nextIndex == if next.NextFrame? then old(nextIndex) + 1 else old(nextIndex)
      ensures nextOffset == if next.NextFrame? then old(nextOffset) + 2 + |next.frame.payload| else old(nextOffset)
    {
      if terminal.Some? {
        return terminal.value;
      }
      if endOfFile {
        return CleanEnd;
      }
      var prefix := new U8[2];
      var head := ReadExact(source, prefix, 2);
      if head.failure.Some? {
        next := Fail(head.failure.value);
        return;
      }
      if head.endOfFile {
        if head.bytesRead == 0 {
          endOfFile := true;
          return CleanEnd;
        }
        next := Fail(TruncatedMessage);
        return;
      }
      assert prefix[..2][0] == source.data[nextOffset] && prefix[..2][1] == source.data[nextOffset + 1];
      var high: nat, low: nat := prefix[0], prefix[1];
      var length := high * 256 + low;
      if length == 0 {
        next := Fail(Framing);
        return;
      }
      if length > MAXIMUM_PAYLOAD {
        next := Fail(Framing);
        return;
      }
      var body := ReadExact(source, payload, length);
      if body.failure.Some? {
        next := Fail(body.failure.value);
        return;
      }
      if body.endOfFile {
        next := Fail(TruncatedMessage);
        return;
      }
      var followingOffset := CheckedAdd(nextOffset, length + 2);
      var followingIndex := CheckedAdd(nextIndex, 1);
      if followingOffset.None? || followingIndex.None? {
        next := Fail(Internal);
        return;
      }
      next := NextFrame(Framed(nextIndex, nextOffset, payload[..length]));
      nextOffset := followingOffset.value;
      nextIndex := followingIndex.value;
    }
  }

  lemma StreamStep(data: Bytes, failure: Option<ErrorCode>, index: U64, offset: U64)
    requires offset <= |data|
    ensures var next, stream := FrameAt(data, failure, index, offset), StreamFrom(data, failure, index, offset);
            if next.NextFrame? then
              var rest := StreamFrom(data, failure, index + 1, offset + 2 + |next.frame.payload|);
              && stream.ending == rest.ending && stream.frames == [next.frame] + rest.frames
              && PayloadsOf(stream.frames) == [next.frame.payload] + PayloadsOf(rest.frames)
            else stream == Stream([], next)
  {
    hide FrameAt;
  }

  /** The replay's read loop: every frame, then the ending. */
  method ReadAll(bytes: Bytes, failure: Option<ErrorCode>) returns (stream: Stream)
    ensures stream == StreamFrom(bytes, failure, 0, 0)
  {
    hide FrameAt, StreamFrom;
    var source := new ByteSource(bytes, failure);
    var reader := new FramedMessageReader(source);
    var frames := [];
    ghost var rest := StreamFrom(bytes, failure, 0, 0);
    StreamStep(bytes, failure, 0, 0);
    var next := reader.Read();
    while next.NextFrame?
      invariant reader.Valid() && fresh(reader) && fresh(reader.payload) && reader.source == source
      invariant frames + rest.frames == StreamFrom(bytes, failure, 0, 0).frames
      invariant rest.ending == StreamFrom(bytes, failure, 0, 0).ending
      invariant if next.NextFrame? then
                  var following := StreamFrom(bytes, failure, reader.nextIndex, reader.nextOffset);
                  rest == Stream([next.frame] + following.frames, following.ending)
                else rest == Stream([], next)
      decreases |bytes| - reader.nextOffset, next.NextFrame?
    {
      frames := frames + [next.frame];
      rest := StreamFrom(bytes, failure, reader.nextIndex, reader.nextOffset);
      StreamStep(bytes, failure, reader.nextIndex, reader.nextOffset);
      next := reader.Read();
    }
    stream := Stream(frames, next);
  }

  // ---------------------------------------------------------------- framing and unframing

  predicate Legal(payload: Bytes) {
    1 <= |payload| <= MAXIMUM_PAYLOAD
  }

  function Prefixed(payload: Bytes): Bytes
    requires Legal(payload)
  {
    BigEndian(|payload|, 2) + payload
  }

  function Written(payloads: seq<Bytes>): (data: Bytes)
    requires forall k :: 0 <= k < |payloads| ==> Legal(payloads[k])
  {
    if payloads == [] then [] else Prefixed(payloads[0]) + Written(payloads[1..])
  }

  function PayloadsOf(frames: seq<Framed>): (payloads: seq<Bytes>)
    ensures |payloads| == |frames| && forall k :: 0 <= k < |frames| ==> payloads[k] == frames[k].payload
  {
    seq(|frames|, k requires 0 <= k < |frames| => frames[k].payload)
  }

  /** Bytes taken by a prefix of the frames. */
  function Span(frames: seq<Framed>): nat {
    if frames == [] then 0 else 2 + |frames[0].payload| + Span(frames[1..])
  }

  lemma TwoBytes(length: nat)
    requires length < 65536
    ensures BigEndian(length, 2) == [length / 256, length % 256]
  {
    assert BigEndian(length, 2) == BigEndian(length / 256, 1) + [length % 256];
    assert BigEndian(length / 256, 1) == BigEndian(length / 256 / 256, 0) + [length / 256 % 256];
  }

  /** Whatever the stream is, its frames are numbered from the start and each lies where the earlier
      ones end. */
  lemma {:induction false} FramesInPlace(data: Bytes, failure: Option<ErrorCode>, index: U64, offset: U64, k: nat)
    requires offset <= |data| && k < |StreamFrom(data, failure, index, offset).frames|
    ensures var frames := StreamFrom(data, failure, index, offset).frames;
            && frames[k].index == index + k
            && frames[k].offset == offset + Span(frames[..k])
            && Legal(frames[k].payload)
            && frames[k].offset + 2 + |frames[k].payload| <= |data|
            && data[frames[k].offset..frames[k].offset + 2 + |frames[k].payload|] == Prefixed(frames[k].payload)
    decreases |data| - offset
  {
    hide FrameAt, StreamFrom, Prefixed, Span, PayloadsOf;
    var next := FrameAt(data, failure, index, offset);
    var frames := StreamFrom(data, failure, index, offset).frames;
    StreamStep(data, failure, index, offset);
    FrameBytes(data, failure, index, offset);
    var length := |next.frame.payload|;
    if k == 0 {
      NoSpan();
    } else {
      FramesInPlace(data, failure, index + 1, offset + 2 + length, k - 1);
      assert frames[..k] == [frames[0]] + frames[1..][..k - 1];
      SpanFirst(frames[0], frames[1..][..k - 1]);
    }
  }

  lemma NoSpan()
    ensures Span([]) == 0
  {
  }

  lemma SpanFirst(first: Framed, rest: seq<Framed>)
    ensures Span([first] + rest) == 2 + |first.payload| + Span(rest)
  {
    assert ([first] + rest)[1..] == rest;
  }

  lemma AtEnd(data: Bytes, index: U64)
    requires |data| <= U64_MAX
    ensures FrameAt(data, None, index, |data|) == CleanEnd
  {
  }

  lemma FirstFrame(data: Bytes, offset: U64, payload: Bytes, rest: Bytes, index: U64)
    requires offset <= |data| <= U64_MAX && index < U64_MAX && Legal(payload)
    requires data[offset..] == Prefixed(payload) + rest
    ensures offset + 2 + |payload| <= |data| && data[offset + 2 + |payload|..] == rest
    ensures FrameAt(data, None, index, offset) == NextFrame(Framed(index, offset, payload))
  {
    hide BigEndian;
    TwoBytes(|payload|);
    var tail := data[offset..];
    assert |data| == offset + |tail| && |tail| == 2 + |payload| + |rest|;
    assert tail[0] == |payload| / 256 && tail[1] == |payload| % 256 && tail[2..2 + |payload|] == payload;
    assert data[offset] == tail[0] && data[offset + 1] == tail[1];
    assert data[offset + 2..offset + 2 + |payload|] == payload;
    assert data[offset + 2 + |payload|..] == tail[2 + |payload|..] == rest;
  }

  lemma WrittenFirst(payloads: seq<Bytes>)
    requires payloads != [] && forall k :: 0 <= k < |payloads| ==> Legal(payloads[k])
    ensures Written(payloads) == Prefixed(payloads[0]) + Written(payloads[1..])
  {
    hide Prefixed;
  }

  /** Reading back what was written: a source of legal frames yields exactly them and a clean end. */
  lemma {:induction false} ReadWritten(data: Bytes, payloads: seq<Bytes>, index: U64, offset: U64)
    requires forall k :: 0 <= k < |payloads| ==> Legal(payloads[k])
    requires offset <= |data| <= U64_MAX && index + |payloads| <= U64_MAX && data[offset..] == Written(payloads)
    ensures var stream := StreamFrom(data, None, index, offset);
            PayloadsOf(stream.frames) == payloads && stream.ending == CleanEnd
    decreases |payloads|
  {
    hide FrameAt, Prefixed, StreamFrom, PayloadsOf;
    StreamStep(data, None, index, offset);
    if payloads == [] {
      AtEnd(data, index);
    } else {
      WrittenFirst(payloads);
      hide Written;
      FirstFrame(data, offset, payloads[0], Written(payloads[1..]), index);
      ReadWritten(data, payloads[1..], index + 1, offset + 2 + |payloads[0]|);
    }
  }

  lemma FrameBytes(data: Bytes, failure: Option<ErrorCode>, index: U64, offset: U64)
    requires offset <= |data| && FrameAt(data, failure, index, offset).NextFrame?
    ensures var payload := FrameAt(data, failure, index, offset).frame.payload;
            && Legal(payload) && data[offset..] == Prefixed(payload) + data[offset + 2 + |payload|..]
            && data[offset..offset + 2 + |payload|] == Prefixed(payload)
    ensures FrameAt(data, failure, index, offset).frame.index == index
    ensures FrameAt(data, failure, index, offset).frame.offset == offset
  {
    hide BigEndian;
    var payload := FrameAt(data, failure, index, offset).frame.payload;
    TwoBytes(|payload|);
    assert data[offset..] == data[offset..offset + 2] + payload + data[offset + 2 + |payload|..];
  }

  lemma NothingLeft(data: Bytes, failure: Option<ErrorCode>, index: U64, offset: U64)
    requires offset <= |data| && FrameAt(data, failure, index, offset) == CleanEnd
    ensures failure.None? && data[offset..] == Written(PayloadsOf([]))
  {
  }

  /** And only such bytes end cleanly. */
  lemma {:induction false} CleanMeansWritten(data: Bytes, failure: Option<ErrorCode>, index: U64, offset: U64)
    requires offset <= |data| && StreamFrom(data, failure, index, offset).ending == CleanEnd
    ensures failure.None?
    ensures var payloads := PayloadsOf(StreamFrom(data, failure, index, offset).frames);
            && (forall k :: 0 <= k < |payloads| ==> Legal(payloads[k]))
            && data[offset..] == Written(payloads)
    decreases |data| - offset
  {
    hide FrameAt, Prefixed, StreamFrom, Written, PayloadsOf;
    var next := FrameAt(data, failure, index, offset);
    StreamStep(data, failure, index, offset);
    if !next.NextFrame? {
      NothingLeft(data, failure, index, offset);
    } else {
      FrameBytes(data, failure, index, offset);
      CleanMeansWritten(data, failure, index + 1, offset + 2 + |next.frame.payload|);
      var payloads := PayloadsOf(StreamFrom(data, failure, index, offset).frames);
      assert payloads[1..] == PayloadsOf(StreamFrom(data, failure, index + 1, offset + 2 + |next.frame.payload|).frames);
      WrittenFirst(payloads);
    }
  }

  /** The stream ends cleanly if and only if it is a concatenation of legal frames, within the
      64-bit counters, and no source error follows. */
  lemma EndsCleanly(data: Bytes, failure: Option<ErrorCode>)
    requires |data| <= U64_MAX
    ensures StreamFrom(data, failure, 0, 0).ending == CleanEnd <==>
            failure.None? && exists payloads: seq<Bytes> ::
              && (forall k :: 0 <= k < |payloads| ==> Legal(payloads[k]))
              && data == Written(payloads)
  {
    if StreamFrom(data, failure, 0, 0).ending == CleanEnd {
      CleanMeansWritten(data, failure, 0, 0);
      assert data[0..] == data;
    }
    if failure.None? && exists payloads: seq<Bytes> ::
         (forall k :: 0 <= k < |payloads| ==> Legal(payloads[k])) && data == Written(payloads)
    {
      var payloads: seq<Bytes> :| (forall k :: 0 <= k < |payloads| ==> Legal(payloads[k])) && data == Written(payloads);
      WrittenSize(payloads);
      assert data[0..] == data;
      ReadWritten(data, payloads, 0, 0);
    }
  }

  lemma {:induction false} WrittenSize(payloads: seq<Bytes>)
    requires forall k :: 0 <= k < |payloads| ==> Legal(payloads[k])
    ensures |payloads| <= |Written(payloads)|
  {
    if payloads != [] {
      WrittenSize(payloads[1..]);
    }
  }
}
