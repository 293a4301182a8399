/** From source bytes to validated files: the framed reader numbers the messages that the replay
    consumes, and deep validation accepts what the replay wrote exactly when the messages allow it. */
module Pipeline {
  import opened Types
  import opened Messages
  import opened FramedReader
  import opened ReplayModel
  import opened ReplayLog
  import opened ReplayBooks
  import opened ReplaySnapshots
  import opened ReplayRun
  import opened DeepValidator

  datatype Decoded = DecodedAs(message: Message) | NotDecoded(code: ErrorCode)

  /** The frames of a stream after decoding; the payload decoder is a parameter. */
  function FramesOf(framed: seq<Framed>, decode: Bytes -> Decoded): (frames: seq<Frame>)
    ensures |frames| == |framed|
  {
    seq(|framed|, k requires 0 <= k < |framed| =>
      match decode(framed[k].payload)
      case DecodedAs(message) => Good(framed[k].index, message)
      case NotDecoded(code) => Bad(framed[k].index, code))
  }

  function EndingOf(stream: Stream): Option<ErrorCode> {
    if stream.ending.Broken? then Some(stream.ending.code) else None
  }

  /** However the source chunks its bytes, the replay sees messages numbered in order. */
  lemma SourceIsNumbered(data: Bytes, failure: Option<ErrorCode>, decode: Bytes -> Decoded)
    ensures Numbered(FramesOf(StreamFrom(data, failure, 0, 0).frames, decode))
  {
    hide StreamFrom;
    var framed := StreamFrom(data, failure, 0, 0).frames;
    forall k | 0 <= k < |framed| ensures framed[k].index == k {
      FramesInPlace(data, failure, 0, 0, k);
    }
  }

  /** For every source, decoder and configuration, strict or permissive: when the replay completes,
      deep validation accepts its event file against its manifest if and only if every message that
      passes the routing guard is clean. */
  lemma ReplayValidates(c: Config, data: Bytes, failure: Option<ErrorCode>, decode: Bytes -> Decoded, summary: Summary)
    requires var stream := StreamFrom(data, failure, 0, 0);
             var frames := FramesOf(stream.frames, decode);
             && Failure(c, frames, EndingOf(stream)).None?
             && SummaryOf(c, Run(c, frames).st, summary)
    ensures var frames := FramesOf(StreamFrom(data, failure, 0, 0).frames, decode);
            Accepts(c, DictionaryIn(summary), RecordsOf(Run(c, frames).st.market.events), ManifestOf(summary)) <==>
            forall k :: 0 <= k < |frames| ==> LoggedClean(c, frames, k)
  {
    hide StreamFrom, Run, SummaryOf, Accepts, AllClean, LoggedClean, Numbered, RecordsOf;
    var frames := FramesOf(StreamFrom(data, failure, 0, 0).frames, decode);
    SourceIsNumbered(data, failure, decode);
    LogCleanExactly(c, frames);
    ValidatesOwnOutput(c, frames, summary);
  }

  /** The same for the snapshot file: deep validation accepts it if and only if no message writes a
      snapshot while the latest logged trade or cross of its instrument is one of zero shares. */
  lemma ReplaySnapshotsValidate(c: Config, data: Bytes, failure: Option<ErrorCode>, decode: Bytes -> Decoded)
    requires var stream := StreamFrom(data, failure, 0, 0);
             Failure(c, FramesOf(stream.frames, decode), EndingOf(stream)).None?
    ensures var frames := FramesOf(StreamFrom(data, failure, 0, 0).frames, decode);
            var snapshots := Run(c, frames).st.market.snapshots;
            && SlotsFill(snapshots, c.depth)
            && (AcceptsSnapshots(SnapshotRecords(snapshots), c.depth, |c.symbols|) <==>
                forall k :: 0 <= k < |frames| ==> ShowsShares(c, frames, k))
  {
    hide StreamFrom, Run, AcceptsSnapshots, ShowsShares, Numbered, SnapshotRecords;
    var frames := FramesOf(StreamFrom(data, failure, 0, 0).frames, decode);
    SourceIsNumbered(data, failure, decode);
    SnapshotFileValidates(c, frames);
  }
}
