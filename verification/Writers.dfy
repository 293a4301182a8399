/** The event and snapshot writers: ordering checks, encoding and the record count
    (cpp/src/output/event_writer.cpp, cpp/src/output/snapshot_writer.cpp). Files are growing
    sequences of records. */
module Writers {
  import opened Types
  import opened EventCodec
  import opened SnapshotCodec
  import opened ReplayModel
  import opened ReplayLog

  class EventWriter {
    const expectedSymbols: nat
    var output: seq<Bytes>
    var recordCount: U64
    var last: Option<Position>
    ghost var events: seq<Event>

    /** The file holds the record of every event written, in order. */
    ghost predicate Valid()
      reads this
    {
      output == RecordsOf(events) && recordCount == |events| && last == LastEvent(events)
    }

    constructor (symbols: nat)
      ensures Valid() && expectedSymbols == symbols && events == [] && recordCount == 0
    {
      expectedSymbols, output, recordCount, last, events := symbols, [], 0, None, [];
    }

    method WriteEvent(e: Event) returns (error: Option<ErrorCode>)
      requires Valid()
      modifies this
      ensures Valid()
      ensures error == if !Follows(e.index, e.timestamp, LastEvent(old(events))) then Some(Invariant)
                       else if e.symbolId > expectedSymbols then Some(Invariant)
                       else if old(recordCount) == U64_MAX then Some(Internal)
                       else EncodeError(e)
      ensures recordCount == if error.Some? then old(recordCount) else old(recordCount) + 1
      ensures events == if error.Some? then old(events) else old(events) + [e]
    {
      hide Record, EncodeError;
      if last.Some? && e.index <= last.value.index {
        return Some(Invariant);
      }
      if last.Some? && e.timestamp < last.value.timestamp {
        return Some(Invariant);
      }
      if e.symbolId > expectedSymbols {
        return Some(Invariant);
      }
      if recordCount == U64_MAX {
        return Some(Internal);
      }
      var record := new U8[72];
      error := EncodeEventRecord(e, record);
      if error.Some? {
        return;
      }
      output := output + [record[..]];
      recordCount := recordCount + 1;
      last := Some(Position(e.index, e.timestamp));
      events := events + [e];
    }
  }

  class SnapshotWriter {
    const expectedSymbols: nat
    const depth: U16
    var output: seq<Bytes>
    var recordCount: U64
    var last: Option<Position>
    ghost var snapshots: seq<Snapshot>

    ghost predicate Valid()
      reads this
    {
      && |output| == recordCount == |snapshots| && last == LastSnapshot(snapshots)
      && forall k :: 0 <= k < |snapshots| ==>
           && |snapshots[k].top.bids| == |snapshots[k].top.asks|
           && output[k] == SnapshotRecord(snapshots[k])
    }

    constructor (symbols: nat, levels: U16)
      ensures Valid() && expectedSymbols == symbols && depth == levels && snapshots == [] && recordCount == 0
    {
      expectedSymbols, depth, output, recordCount, last, snapshots := symbols, levels, [], 0, None, [];
    }

    method WriteSnapshot(s: Snapshot) returns (error: Option<ErrorCode>)
      requires Valid()
      modifies this
      ensures Valid()
      ensures error == if !Follows(s.index, s.timestamp, LastSnapshot(old(snapshots))) then Some(Invariant)
                       else if s.symbolId > expectedSymbols then Some(Invariant)
                       else if old(recordCount) == U64_MAX then Some(Internal)
                       else SnapshotError(s, depth)
      ensures recordCount == if error.Some? then old(recordCount) else old(recordCount) + 1
      ensures snapshots == if error.Some? then old(snapshots) else old(snapshots) + [s]
    {
      hide SnapshotRecord, Ladder;
      if last.Some? && s.index <= last.value.index {
        return Some(Invariant);
      }
      if last.Some? && s.timestamp < last.value.timestamp {
        return Some(Invariant);
      }
      if s.symbolId > expectedSymbols {
        return Some(Invariant);
      }
      if recordCount == U64_MAX {
        return Some(Internal);
      }
      var record;
      error, record := EncodeSnapshotRecord(s, depth);
      if error.Some? {
        return;
      }
      output := output + [record];
      recordCount := recordCount + 1;
      last := Some(Position(s.index, s.timestamp));
      snapshots := snapshots + [s];
    }
  }
}
