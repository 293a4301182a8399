/** Conversion to partitioned files with a bounded number of open writers
    (python/src/itchlab_research/conversion/service.py): least-recently-used writers are closed and
    later parts opened, and still each partition's parts concatenate to its records in order. */
module Conversion {
  import opened Types
  import opened Labels

  const MAX_OPEN_FILES: nat := 32

  datatype Record = Record(symbolId: nat, index: int, fields: Bytes)

  /** A finished replay, its records in the chunks in which they are read. */
  datatype Parent = Parent(replayId: string, date: int, depth: nat, degraded: bool, names: map<nat, string>,
                           chunks: seq<seq<Record>>)

  datatype Key = Key(date: int, symbol: string)

  datatype Row = Row(key: Key, record: Record)

  /** The rows of one partition, in order. */
  function OfKey(rows: seq<Row>, key: Key): seq<Row> {
    if rows == [] then []
    else
      var row := rows[|rows| - 1];
      OfKey(rows[..|rows| - 1], key) + (if row.key == key then [row] else [])
  }

  lemma {:induction false} OfKeyConcat(a: seq<Row>, b: seq<Row>, key: Key)
    ensures OfKey(a + b, key) == OfKey(a, key) + OfKey(b, key)
  {
    if b == [] {
      assert a + b == a;
    } else {
      var n := |b| - 1;
      assert (a + b)[..|a| + n] == a + b[..n];
      OfKeyConcat(a, b[..n], key);
    }
  }

  lemma {:induction false} OfKeyUniform(rows: seq<Row>, own: Key, key: Key)
    requires forall i :: 0 <= i < |rows| ==> rows[i].key == own
    ensures OfKey(rows, key) == if key == own then rows else []
  {
    if rows != [] {
      OfKeyUniform(rows[..|rows| - 1], own, key);
    }
  }

  // ---------------------------------------------------------------- the writers

  datatype Writer = Writer(key: Key, part: nat)

  function PartCount(nextPart: map<Key, nat>, key: Key): nat {
    if key in nextPart then nextPart[key] else 0
  }

  /** The parts of a partition, concatenated by part number. */
  function Parts(files: map<Writer, seq<Row>>, key: Key, count: nat): seq<Row>
    requires forall p :: 0 <= p < count ==> Writer(key, p) in files
  {
    if count == 0 then [] else Parts(files, key, count - 1) + files[Writer(key, count - 1)]
  }

  lemma {:induction false} PartsSame(files: map<Writer, seq<Row>>, other: map<Writer, seq<Row>>, key: Key, count: nat)
    requires forall p :: 0 <= p < count ==> Writer(key, p) in files && Writer(key, p) in other
    requires forall p :: 0 <= p < count ==> files[Writer(key, p)] == other[Writer(key, p)]
    ensures Parts(files, key, count) == Parts(other, key, count)
  {
    if count > 0 {
      PartsSame(files, other, key, count - 1);
    }
  }

  ghost predicate FilesFollow(files: map<Writer, seq<Row>>, nextPart: map<Key, nat>) {
    forall key, p: nat :: Writer(key, p) in files <==> p < PartCount(nextPart, key)
  }

  /** A partition is open at most once, always at its last part. */
  ghost predicate OpenAtLastPart(writers: seq<Writer>, nextPart: map<Key, nat>) {
    && (forall i :: 0 <= i < |writers| ==> writers[i].part + 1 == PartCount(nextPart, writers[i].key))
    && (forall i, j :: 0 <= i < j < |writers| ==> writers[i].key != writers[j].key)
  }

  ghost predicate PartsHold(files: map<Writer, seq<Row>>, nextPart: map<Key, nat>, written: seq<Row>)
    requires FilesFollow(files, nextPart)
  {
    forall key :: Parts(files, key, PartCount(nextPart, key)) == OfKey(written, key)
  }

  class DatasetWriter {
    var writers: seq<Writer>
    var nextPart: map<Key, nat>
    var files: map<Writer, seq<Row>>
    ghost var written: seq<Row>

    /** At most 32 writers are open, and every partition's parts hold its written rows in order. */
    ghost predicate Valid()
      reads this
    {
      && |writers| <= MAX_OPEN_FILES
      && FilesFollow(files, nextPart)
      && OpenAtLastPart(writers, nextPart)
      && PartsHold(files, nextPart, written)
    }

    constructor ()
      ensures Valid() && written == []
    {
      writers, nextPart, files, written := [], map[], map[], [];
    }

    /** Find the partition's writer, open a new part if there is none, and make it the most recently
        used; the least recently used writer is closed when all are taken. */
    method Acquire(key: Key) returns (writer: Writer)
      requires Valid()
      modifies this`writers, this`nextPart, this`files
      ensures Valid() && writer.key == key && writers != [] && writers[|writers| - 1] == writer
      ensures forall w :: w in old(files) ==> w in files && files[w] == old(files[w])
      ensures forall w :: w in files && w !in old(files) ==> files[w] == []
    {
      hide Parts, OfKey;
      var found: Option<nat> := None;
      for i := 0 to |writers|
        invariant found.Some? ==> found.value < |writers| && writers[found.value].key == key
        invariant found.None? ==> forall j :: 0 <= j < i ==> writers[j].key != key
      {
        if writers[i].key == key {
          found := Some(i);
        }
      }
      if found.Some? {
        writer := writers[found.value];
        writers := writers[..found.value] + writers[found.value + 1..] + [writer];
      } else {
        writer := OpenPart(key);
      }
    }

    /** No writer of the partition is open: start its next part. */
    method OpenPart(key: Key) returns (writer: Writer)
      requires Valid() && forall j :: 0 <= j < |writers| ==> writers[j].key != key
      modifies this`writers, this`nextPart, this`files
      ensures Valid() && writer.key == key && writers != [] && writers[|writers| - 1] == writer
      ensures forall w :: w in old(files) ==> w in files && files[w] == old(files[w])
      ensures forall w :: w in files && w !in old(files) ==> files[w] == []
    {
      hide Parts, OfKey, FilesFollow, PartsHold;
      if |writers| >= MAX_OPEN_FILES {
        writers := writers[1..];
      }
      var part := PartCount(nextPart, key);
      writer := Writer(key, part);
      NewPart(files, nextPart, written, key);
      nextPart := nextPart[key := part + 1];
      files := files[writer := []];
      writers := writers + [writer];
    }

    /** One batch of a single partition. */
    method WriteBatch(key: Key, rows: seq<Row>)
      requires Valid() && forall i :: 0 <= i < |rows| ==> rows[i].key == key
      modifies this
      ensures Valid() && written == old(written) + rows
    {
      hide Parts, OfKey;
      var writer := Acquire(key);
      MoreRows(files, nextPart, written, writer, rows);
      files := files[writer := files[writer] + rows];
      written := written + rows;
    }
  }

  lemma NewPart(files: map<Writer, seq<Row>>, nextPart: map<Key, nat>, written: seq<Row>, key: Key)
    requires FilesFollow(files, nextPart) && PartsHold(files, nextPart, written)
    ensures var part := PartCount(nextPart, key);
            && Writer(key, part) !in files
            && FilesFollow(files[Writer(key, part) := []], nextPart[key := part + 1])
            && PartsHold(files[Writer(key, part) := []], nextPart[key := part + 1], written)
  {
    var part := PartCount(nextPart, key);
    var more, next := files[Writer(key, part) := []], nextPart[key := part + 1];
    forall other ensures Parts(more, other, PartCount(next, other)) == OfKey(written, other) {
      PartsSame(files, more, other, PartCount(nextPart, other));
    }
  }

  /** Rows appended to the last part are appended to the partition. */
  lemma MoreRows(files: map<Writer, seq<Row>>, nextPart: map<Key, nat>, written: seq<Row>, writer: Writer, rows: seq<Row>)
    requires FilesFollow(files, nextPart) && PartsHold(files, nextPart, written)
    requires writer.part + 1 == PartCount(nextPart, writer.key)
    requires forall i :: 0 <= i < |rows| ==> rows[i].key == writer.key
    ensures writer in files
    ensures FilesFollow(files[writer := files[writer] + rows], nextPart)
    ensures PartsHold(files[writer := files[writer] + rows], nextPart, written + rows)
  {
    hide OfKey, Parts;
    assert writer == Writer(writer.key, writer.part);
    var more := files[writer := files[writer] + rows];
    forall other ensures Parts(more, other, PartCount(nextPart, other)) == OfKey(written + rows, other) {
      MoreRowsOf(files, nextPart, written, writer, rows, other);
    }
  }

  lemma MoreRowsOf(files: map<Writer, seq<Row>>, nextPart: map<Key, nat>, written: seq<Row>, writer: Writer,
                   rows: seq<Row>, other: Key)
    requires FilesFollow(files, nextPart) && PartsHold(files, nextPart, written) && writer in files
    requires writer.part + 1 == PartCount(nextPart, writer.key)
    requires forall i :: 0 <= i < |rows| ==> rows[i].key == writer.key
    requires FilesFollow(files[writer := files[writer] + rows], nextPart)
    ensures Parts(files[writer := files[writer] + rows], other, PartCount(nextPart, other)) == OfKey(written + rows, other)
  {
    hide OfKey, Parts, PartsHold;
    PartsHoldFor(files, nextPart, written, other);
    OfKeyConcat(written, rows, other);
    OfKeyUniform(rows, writer.key, other);
    PartsGrow(files, writer, rows, other, PartCount(nextPart, other));
  }

  /** Rows appended to a partition's last part end up at its end, and in no other partition. */
  lemma PartsGrow(files: map<Writer, seq<Row>>, writer: Writer, rows: seq<Row>, key: Key, count: nat)
    requires writer in files && (key == writer.key ==> writer.part + 1 == count)
    requires forall p :: 0 <= p < count ==> Writer(key, p) in files
    ensures Parts(files[writer := files[writer] + rows], key, count) ==
            Parts(files, key, count) + if key == writer.key then rows else []
  {
    var more := files[writer := files[writer] + rows];
    if key == writer.key {
      assert writer == Writer(key, writer.part);
      PartsSame(files, more, key, writer.part);
    } else {
      PartsSame(files, more, key, count);
    }
  }

  lemma PartsHoldFor(files: map<Writer, seq<Row>>, nextPart: map<Key, nat>, written: seq<Row>, key: Key)
    requires FilesFollow(files, nextPart) && PartsHold(files, nextPart, written)
    ensures Parts(files, key, PartCount(nextPart, key)) == OfKey(written, key)
  {
    hide Parts, OfKey;
  }

  // ---------------------------------------------------------------- grouping a chunk by symbol

  function WithId(records: seq<Record>, id: nat): seq<Record> {
    if records == [] then []
    else
      var record := records[|records| - 1];
      WithId(records[..|records| - 1], id) + (if record.symbolId == id then [record] else [])
  }

  function RowsOf(date: int, names: map<nat, string>, records: seq<Record>): (rows: seq<Row>)
    requires forall i :: 0 <= i < |records| ==> records[i].symbolId in names
    ensures |rows| == |records|
  {
    seq(|records|, i requires 0 <= i < |records| => Row(Key(date, names[records[i].symbolId]), records[i]))
  }

  lemma {:induction false} Least(ids: set<nat>) returns (least: nat)
    requires ids != {}
    ensures least in ids && forall other :: other in ids ==> least <= other
    decreases |ids|
  {
    var id :| id in ids;
    least := id;
    var rest := ids - {id};
    assert forall other :: other in ids ==> other == id || other in rest;
    if rest != {} {
      var smallest := Least(rest);
      least := if id < smallest then id else smallest;
    }
  }

  method SortedIds(ids: set<nat>) returns (sorted: seq<nat>)
    ensures Ascending(sorted) && forall id :: id in sorted <==> id in ids
  {
    sorted := [];
    var rest := ids;
    while rest != {}
      invariant Ascending(sorted) && (forall id :: id in sorted <==> id in ids && id !in rest)
      invariant forall i, id :: 0 <= i < |sorted| && id in rest ==> sorted[i] < id
      invariant rest <= ids
      decreases |rest|
    {
      ghost var witnessed := Least(rest);
      var least :| least in rest && forall other :: other in rest ==> least <= other;
      rest := rest - {least};
      sorted := sorted + [least];
    }
  }

  datatype Group = Group(id: nat, records: seq<Record>)

  /** The groups of a chunk: ids ascending, each group in the order of the chunk, none missing. */
  ghost predicate GroupsOf(groups: seq<Group>, records: seq<Record>) {
    && (forall i, j :: 0 <= i < j < |groups| ==> groups[i].id < groups[j].id)
    && (forall i :: 0 <= i < |groups| ==> groups[i].records == WithId(records, groups[i].id) != [])
    && (forall id :: WithId(records, id) != [] ==> exists j :: 0 <= j < |groups| && groups[j].id == id)
  }

  lemma WithIdNext(records: seq<Record>, n: nat, id: nat)
    requires n < |records|
    ensures WithId(records[..n + 1], id) ==
            WithId(records[..n], id) + (if records[n].symbolId == id then [records[n]] else [])
  {
    assert records[..n + 1][..n] == records[..n];
  }

  ghost predicate Filled(grouped: map<nat, seq<Record>>, records: seq<Record>) {
    forall id: nat ::
      && (id in grouped <==> WithId(records, id) != [])
      && (id in grouped ==> grouped[id] == WithId(records, id))
  }

  lemma FilledNext(grouped: map<nat, seq<Record>>, records: seq<Record>, n: nat)
    requires n < |records| && Filled(grouped, records[..n])
    ensures var id := records[n].symbolId;
            var earlier := if id in grouped then grouped[id] else [];
            Filled(grouped[id := earlier + [records[n]]], records[..n + 1])
  {
    hide WithId;
    forall id: nat ensures WithId(records[..n + 1], id) ==
                           WithId(records[..n], id) + (if records[n].symbolId == id then [records[n]] else [])
    {
      WithIdNext(records, n, id);
    }
  }

  /** The records of a chunk by symbol. */
  method GroupBatch(records: seq<Record>) returns (groups: seq<Group>)
    ensures GroupsOf(groups, records)
  {
    hide Filled, WithId;
    var grouped: map<nat, seq<Record>> := map[];
    NothingFilled(records);
    for n := 0 to |records|
      invariant Filled(grouped, records[..n])
    {
      var record := records[n];
      var earlier := if record.symbolId in grouped then grouped[record.symbolId] else [];
      FilledNext(grouped, records, n);
      grouped := grouped[record.symbolId := earlier + [record]];
    }
    assert records[..|records|] == records;
    groups := EmitGroups(grouped, records);
  }

  method EmitGroups(grouped: map<nat, seq<Record>>, ghost records: seq<Record>) returns (groups: seq<Group>)
    requires Filled(grouped, records)
    ensures GroupsOf(groups, records)
  {
    hide WithId;
    var ids := SortedIds(grouped.Keys);
    groups := [];
    for k := 0 to |ids|
      invariant |groups| == k
      invariant forall i :: 0 <= i < k ==> ids[i] in grouped && groups[i] == Group(ids[i], grouped[ids[i]])
    {
      assert ids[k] in ids;
      groups := groups + [Group(ids[k], grouped[ids[k]])];
    }
    forall id | WithId(records, id) != [] ensures exists j :: 0 <= j < |groups| && groups[j].id == id {
      assert id in ids;
      var j :| 0 <= j < |ids| && ids[j] == id;
      assert groups[j].id == id;
    }
  }

  lemma NothingFilled(records: seq<Record>)
    ensures Filled(map[], records[..0])
  {
  }

  // ---------------------------------------------------------------- a whole conversion

  /** Symbols of one replay have different names, and every record belongs to one of them. */
  ghost predicate ParentOk(parent: Parent) {
    && (forall a, b :: a in parent.names && b in parent.names && parent.names[a] == parent.names[b] ==> a == b)
    && (forall c :: 0 <= c < |parent.chunks| ==> Named(parent, parent.chunks[c]))
  }

  ghost predicate Named(parent: Parent, records: seq<Record>) {
    forall i :: 0 <= i < |records| ==> records[i].symbolId in parent.names
  }

  ghost function ChunkRows(parent: Parent, n: nat): seq<Row>
    requires ParentOk(parent) && n <= |parent.chunks|
  {
    if n == 0 then [] else ChunkRows(parent, n - 1) + RowsOf(parent.date, parent.names, parent.chunks[n - 1])
  }

  /** All rows of the first n parents, in their original order. */
  ghost function ParentRows(parents: seq<Parent>, n: nat): seq<Row>
    requires n <= |parents| && forall k :: 0 <= k < |parents| ==> ParentOk(parents[k])
  {
    if n == 0 then [] else ParentRows(parents, n - 1) + ChunkRows(parents[n - 1], |parents[n - 1].chunks|)
  }

  function GroupRows(parent: Parent, group: Group): (rows: seq<Row>)
    requires group.id in parent.names
  {
    seq(|group.records|, i requires 0 <= i < |group.records| =>
      Row(Key(parent.date, parent.names[group.id]), group.records[i]))
  }

  /** The groups of a chunk one after the other. */
  ghost function AllGroupRows(parent: Parent, groups: seq<Group>, n: nat): seq<Row>
    requires n <= |groups| && forall i :: 0 <= i < |groups| ==> groups[i].id in parent.names
  {
    if n == 0 then [] else AllGroupRows(parent, groups, n - 1) + GroupRows(parent, groups[n - 1])
  }

  lemma {:induction false} WithIdRows(parent: Parent, records: seq<Record>, id: nat)
    requires Named(parent, records) && id in parent.names
    requires forall a, b :: a in parent.names && b in parent.names && parent.names[a] == parent.names[b] ==> a == b
    ensures OfKey(RowsOf(parent.date, parent.names, records), Key(parent.date, parent.names[id])) ==
            GroupRows(parent, Group(id, WithId(records, id)))
  {
    if records != [] {
      var n := |records| - 1;
      WithIdRows(parent, records[..n], id);
      assert RowsOf(parent.date, parent.names, records)[..n] == RowsOf(parent.date, parent.names, records[..n]);
    }
  }

  lemma {:induction false} ForeignKey(parent: Parent, records: seq<Record>, key: Key)
    requires Named(parent, records)
    requires forall id :: id in parent.names ==> key != Key(parent.date, parent.names[id])
    ensures OfKey(RowsOf(parent.date, parent.names, records), key) == []
  {
    if records != [] {
      var n := |records| - 1;
      ForeignKey(parent, records[..n], key);
      assert RowsOf(parent.date, parent.names, records)[..n] == RowsOf(parent.date, parent.names, records[..n]);
    }
  }

  /** Of the first n groups, only the group of the key contributes to it. */
  lemma {:induction false} GroupsOfKey(parent: Parent, groups: seq<Group>, n: nat, id: nat)
    requires n <= |groups| && id in parent.names && forall i :: 0 <= i < |groups| ==> groups[i].id in parent.names
    requires forall i, j :: 0 <= i < j < |groups| ==> groups[i].id < groups[j].id
    requires forall a, b :: a in parent.names && b in parent.names && parent.names[a] == parent.names[b] ==> a == b
    ensures var key, part := Key(parent.date, parent.names[id]), OfKey(AllGroupRows(parent, groups, n), Key(parent.date, parent.names[id]));
            && (forall j :: 0 <= j < n && groups[j].id == id ==> part == GroupRows(parent, groups[j]))
            && ((forall j :: 0 <= j < n ==> groups[j].id != id) ==> part == [])
  {
    if n > 0 {
      var key := Key(parent.date, parent.names[id]);
      GroupsOfKey(parent, groups, n - 1, id);
      OfKeyConcat(AllGroupRows(parent, groups, n - 1), GroupRows(parent, groups[n - 1]), key);
      OfKeyUniform(GroupRows(parent, groups[n - 1]), Key(parent.date, parent.names[groups[n - 1].id]), key);
    }
  }

  lemma {:induction false} GroupsForeign(parent: Parent, groups: seq<Group>, n: nat, key: Key)
    requires n <= |groups| && forall i :: 0 <= i < |groups| ==> groups[i].id in parent.names
    requires forall id :: id in parent.names ==> key != Key(parent.date, parent.names[id])
    ensures OfKey(AllGroupRows(parent, groups, n), key) == []
  {
    if n > 0 {
      GroupsForeign(parent, groups, n - 1, key);
      OfKeyConcat(AllGroupRows(parent, groups, n - 1), GroupRows(parent, groups[n - 1]), key);
      OfKeyUniform(GroupRows(parent, groups[n - 1]), Key(parent.date, parent.names[groups[n - 1].id]), key);
    }
  }

  /** Regrouping a chunk by symbol keeps every partition's order. */
  lemma GroupingKeepsOrder(parent: Parent, records: seq<Record>, groups: seq<Group>, key: Key)
    requires Named(parent, records) && GroupsOf(groups, records)
    requires forall i :: 0 <= i < |groups| ==> groups[i].id in parent.names
    requires forall a, b :: a in parent.names && b in parent.names && parent.names[a] == parent.names[b] ==> a == b
    ensures OfKey(AllGroupRows(parent, groups, |groups|), key) == OfKey(RowsOf(parent.date, parent.names, records), key)
  {
    hide OfKey, WithId, AllGroupRows, RowsOf;
    if id :| id in parent.names && key == Key(parent.date, parent.names[id]) {
      WithIdRows(parent, records, id);
      GroupsOfKey(parent, groups, |groups|, id);
      if WithId(records, id) != [] {
        var j :| 0 <= j < |groups| && groups[j].id == id;
        assert groups[j] == Group(id, WithId(records, id));
      } else {
        assert GroupRows(parent, Group(id, WithId(records, id))) == [];
      }
    } else {
      ForeignKey(parent, records, key);
      GroupsForeign(parent, groups, |groups|, key);
    }
  }

  datatype ConversionError = RepeatedParents | DepthsDiffer | DegradedParent

  ghost predicate DistinctParents(parents: seq<Parent>) {
    forall i, j :: 0 <= i < j < |parents| ==>
      parents[i].replayId != parents[j].replayId && parents[i].date != parents[j].date
  }

  ghost predicate SameDepth(parents: seq<Parent>) {
    parents != [] && forall i :: 0 <= i < |parents| ==> parents[i].depth == parents[0].depth
  }

  /** Parents name different replays and different days, share one depth and are not degraded unless
      that is allowed. */
  method ValidateParentSet(parents: seq<Parent>, allowDegraded: bool) returns (error: Option<ConversionError>)
    ensures error == if !DistinctParents(parents) then Some(RepeatedParents)
                     else if !SameDepth(parents) then Some(DepthsDiffer)
                     else if !allowDegraded && exists i :: 0 <= i < |parents| && parents[i].degraded then Some(DegradedParent)
                     else None
  {
    var ids: set<string>, dates: set<int>, depths: set<nat> := {}, {}, {};
    var repeated, degraded := false, false;
    for i := 0 to |parents|
      invariant forall r :: r in ids <==> exists k :: 0 <= k < i && parents[k].replayId == r
      invariant forall d :: d in dates <==> exists k :: 0 <= k < i && parents[k].date == d
      invariant forall d :: d in depths <==> exists k :: 0 <= k < i && parents[k].depth == d
      invariant repeated <==> !DistinctParents(parents[..i])
      invariant degraded <==> exists k :: 0 <= k < i && parents[k].degraded
    {
      if parents[i].replayId in ids || parents[i].date in dates {
        repeated := true;
      }
      ids, dates, depths := ids + {parents[i].replayId}, dates + {parents[i].date}, depths + {parents[i].depth};
      if parents[i].degraded {
        degraded := true;
      }
    }
    assert parents[..|parents|] == parents;
    if repeated {
      return Some(RepeatedParents);
    }
    OneDepth(parents, depths);
    if |depths| != 1 {
      return Some(DepthsDiffer);
    }
    if !allowDegraded && degraded {
      return Some(DegradedParent);
    }
    error := None;
  }

  lemma OneDepth(parents: seq<Parent>, depths: set<nat>)
    requires forall d :: d in depths <==> exists k :: 0 <= k < |parents| && parents[k].depth == d
    ensures |depths| == 1 <==> SameDepth(parents)
  {
    if parents == [] {
      assert depths == {};
    } else {
      assert parents[0].depth in depths;
      if SameDepth(parents) {
        assert depths == {parents[0].depth};
      }
      if |depths| == 1 {
        assert |depths - {parents[0].depth}| == 0;
        forall i | 0 <= i < |parents| ensures parents[i].depth == parents[0].depth {
          assert parents[i].depth in depths;
        }
      }
    }
  }

  /** Write the groups of one chunk. */
  method WriteChunk(writer: DatasetWriter, parent: Parent, records: seq<Record>)
    requires writer.Valid() && ParentOk(parent) && Named(parent, records)
    modifies writer
    ensures writer.Valid()
    ensures forall key :: OfKey(writer.written, key) ==
                          OfKey(old(writer.written) + RowsOf(parent.date, parent.names, records), key)
  {
    hide OfKey, DatasetWriter.Valid, RowsOf;
    var groups := GroupBatch(records);
    GroupsNamed(parent, records, groups);
    for n := 0 to |groups|
      invariant writer.Valid() && writer.written == old(writer.written) + AllGroupRows(parent, groups, n)
    {
      var group := groups[n];
      var rows := GroupRows(parent, group);
      writer.WriteBatch(Key(parent.date, parent.names[group.id]), rows);
    }
    forall key ensures OfKey(writer.written, key) ==
                       OfKey(old(writer.written) + RowsOf(parent.date, parent.names, records), key)
    {
      GroupingKeepsOrder(parent, records, groups, key);
      OfKeyConcat(old(writer.written), AllGroupRows(parent, groups, |groups|), key);
      OfKeyConcat(old(writer.written), RowsOf(parent.date, parent.names, records), key);
    }
  }

  lemma GroupsNamed(parent: Parent, records: seq<Record>, groups: seq<Group>)
    requires Named(parent, records) && GroupsOf(groups, records)
    ensures forall i :: 0 <= i < |groups| ==> groups[i].id in parent.names
  {
    forall i | 0 <= i < |groups| ensures groups[i].id in parent.names {
      if groups[i].id !in parent.names {
        NoneNamed(parent, records, groups[i].id);
      }
    }
  }

  lemma {:induction false} NoneNamed(parent: Parent, records: seq<Record>, id: nat)
    requires Named(parent, records) && id !in parent.names
    ensures WithId(records, id) == []
  {
    if records != [] {
      NoneNamed(parent, records[..|records| - 1], id);
    }
  }

  /** Convert all parents: for every partition the parts concatenated by number are exactly that
      day's and symbol's records in their original order, whatever was evicted in between. */
  method Convert(parents: seq<Parent>, allowDegraded: bool)
    returns (error: Option<ConversionError>, files: map<Writer, seq<Row>>, nextPart: map<Key, nat>)
    requires forall k :: 0 <= k < |parents| ==> ParentOk(parents[k])
    ensures error.None? <==> DistinctParents(parents) && SameDepth(parents) &&
                             (allowDegraded || forall i :: 0 <= i < |parents| ==> !parents[i].degraded)
    ensures error.None? ==>
              && FilesFollow(files, nextPart)
              && forall key :: Parts(files, key, PartCount(nextPart, key)) == OfKey(ParentRows(parents, |parents|), key)
  {
    hide OfKey, Parts, DatasetWriter.Valid, ParentOk;
    files, nextPart := map[], map[];
    error := ValidateParentSet(parents, allowDegraded);
    if error.Some? {
      return;
    }
    var writer := new DatasetWriter();
    for k := 0 to |parents|
      invariant fresh(writer) && writer.Valid()
      invariant forall key :: OfKey(writer.written, key) == OfKey(ParentRows(parents, k), key)
    {
      WriteParent(writer, parents[k], ParentRows(parents, k));
    }
    files, nextPart := writer.files, writer.nextPart;
    FinalParts(writer);
  }

  lemma FinalParts(writer: DatasetWriter)
    requires writer.Valid()
    ensures FilesFollow(writer.files, writer.nextPart) && PartsHold(writer.files, writer.nextPart, writer.written)
  {
  }

  method WriteParent(writer: DatasetWriter, parent: Parent, ghost before: seq<Row>)
    requires writer.Valid() && ParentOk(parent)
    requires forall key :: OfKey(writer.written, key) == OfKey(before, key)
    modifies writer
    ensures writer.Valid()
    ensures forall key :: OfKey(writer.written, key) == OfKey(before + ChunkRows(parent, |parent.chunks|), key)
  {
    hide OfKey, DatasetWriter.Valid, RowsOf;
    assert before + ChunkRows(parent, 0) == before;
    for c := 0 to |parent.chunks|
      invariant writer.Valid()
      invariant forall key :: OfKey(writer.written, key) == OfKey(before + ChunkRows(parent, c), key)
    {
      ghost var reached := writer.written;
      WriteChunk(writer, parent, parent.chunks[c]);
      forall key ensures OfKey(writer.written, key) == OfKey(before + ChunkRows(parent, c + 1), key) {
        ghost var rows := RowsOf(parent.date, parent.names, parent.chunks[c]);
        OfKeyConcat(reached, rows, key);
        OfKeyConcat(before + ChunkRows(parent, c), rows, key);
        assert before + ChunkRows(parent, c + 1) == before + ChunkRows(parent, c) + rows;
      }
    }
  }

  // ---------------------------------------------------------------- the order check

  ghost predicate IndexAscending(rows: seq<Row>) {
    forall i, j :: 0 <= i < j < |rows| ==> rows[i].record.index < rows[j].record.index
  }

  /** One file of a partition, after the last index of its earlier parts. */
  method ValidateSortedIndices(rows: seq<Row>, ghost before: seq<Row>, previous: Option<int>)
    returns (ok: bool, last: Option<int>)
    requires IndexAscending(before)
    requires previous == if before == [] then None else Some(before[|before| - 1].record.index)
    ensures ok <==> IndexAscending(before + rows)
    ensures ok ==> last == if before + rows == [] then None else Some((before + rows)[|before + rows| - 1].record.index)
  {
    last := previous;
    for i := 0 to |rows|
      invariant IndexAscending(before + rows[..i])
      invariant last == if before + rows[..i] == [] then None
                        else Some((before + rows[..i])[|before + rows[..i]| - 1].record.index)
    {
      var value := rows[i].record.index;
      ghost var seen := before + rows[..i];
      assert before + rows[..i + 1] == seen + [rows[i]];
      if last.Some? && value <= last.value {
        NotAscending(before + rows, |before| + i);
        return false, last;
      }
      AscendingNext(seen, rows[i]);
      last := Some(value);
    }
    assert rows[..|rows|] == rows;
    ok := true;
  }

  lemma NotAscending(rows: seq<Row>, i: nat)
    requires 0 < i < |rows| && rows[i].record.index <= rows[i - 1].record.index
    ensures !IndexAscending(rows)
  {
  }

  lemma AscendingNext(rows: seq<Row>, row: Row)
    requires IndexAscending(rows) && (rows != [] ==> rows[|rows| - 1].record.index < row.record.index)
    ensures IndexAscending(rows + [row])
  {
  }

  /** All parts of one partition, by part number. */
  method ValidatePartition(files: map<Writer, seq<Row>>, key: Key, count: nat) returns (ok: bool)
    requires forall p :: 0 <= p < count ==> Writer(key, p) in files
    ensures ok <==> IndexAscending(Parts(files, key, count))
  {
    hide IndexAscending;
    NoRowsAscend();
    var last: Option<int> := None;
    for p := 0 to count
      invariant IndexAscending(Parts(files, key, p))
      invariant var seen := Parts(files, key, p);
                last == if seen == [] then None else Some(seen[|seen| - 1].record.index)
    {
      ok, last := ValidateSortedIndices(files[Writer(key, p)], Parts(files, key, p), last);
      if !ok {
        LaterPartsTooLate(files, key, p + 1, count);
        return;
      }
    }
    ok := true;
  }

  lemma NoRowsAscend()
    ensures IndexAscending([])
  {
  }

  lemma {:induction false} LaterPartsTooLate(files: map<Writer, seq<Row>>, key: Key, p: nat, count: nat)
    requires p <= count && forall q :: 0 <= q < count ==> Writer(key, q) in files
    requires !IndexAscending(Parts(files, key, p))
    ensures !IndexAscending(Parts(files, key, count))
    decreases count
  {
    if p < count {
      LaterPartsTooLate(files, key, p, count - 1);
      var all, earlier := Parts(files, key, count), Parts(files, key, count - 1);
      var i, j :| 0 <= i < j < |earlier| && earlier[i].record.index >= earlier[j].record.index;
      assert all[i] == earlier[i] && all[j] == earlier[j];
    }
  }

  /** When each parent's indices strictly increase, the order check accepts every partition of a
      conversion: a day belongs to one parent only. */
  lemma ConvertedIsSorted(parents: seq<Parent>, key: Key)
    requires forall k :: 0 <= k < |parents| ==> ParentOk(parents[k])
    requires DistinctParents(parents)
    requires forall k :: 0 <= k < |parents| ==> IndexAscending(ChunkRows(parents[k], |parents[k].chunks|))
    ensures IndexAscending(OfKey(ParentRows(parents, |parents|), key))
  {
    SortedUpTo(parents, |parents|, key);
  }

  lemma {:induction false} SortedUpTo(parents: seq<Parent>, n: nat, key: Key)
    requires n <= |parents| && forall k :: 0 <= k < |parents| ==> ParentOk(parents[k])
    requires DistinctParents(parents)
    requires forall k :: 0 <= k < |parents| ==> IndexAscending(ChunkRows(parents[k], |parents[k].chunks|))
    ensures IndexAscending(OfKey(ParentRows(parents, n), key))
    ensures (forall k :: 0 <= k < n ==> parents[k].date != key.date) ==> OfKey(ParentRows(parents, n), key) == []
  {
    hide OfKey, ParentOk;
    if n == 0 {
      NoRows(key);
    } else {
      var parent := parents[n - 1];
      var rows := ChunkRows(parent, |parent.chunks|);
      SortedUpTo(parents, n - 1, key);
      OfKeyConcat(ParentRows(parents, n - 1), rows, key);
      if parent.date == key.date {
        FilterAscending(rows, key);
      } else {
        OtherDay(parent, |parent.chunks|, key);
      }
    }
  }

  lemma NoRows(key: Key)
    ensures OfKey([], key) == []
  {
  }

  lemma {:induction false} FilterAscending(rows: seq<Row>, key: Key)
    requires IndexAscending(rows)
    ensures IndexAscending(OfKey(rows, key))
    ensures OfKey(rows, key) != [] ==>
              OfKey(rows, key)[|OfKey(rows, key)| - 1].record.index <= rows[|rows| - 1].record.index
  {
    if rows != [] {
      FilterAscending(rows[..|rows| - 1], key);
    }
  }

  lemma {:induction false} OtherDay(parent: Parent, n: nat, key: Key)
    requires ParentOk(parent) && n <= |parent.chunks| && parent.date != key.date
    ensures OfKey(ChunkRows(parent, n), key) == []
  {
    if n > 0 {
      OtherDay(parent, n - 1, key);
      OfKeyConcat(ChunkRows(parent, n - 1), RowsOf(parent.date, parent.names, parent.chunks[n - 1]), key);
      ForeignKey(parent, parent.chunks[n - 1], key);
    }
  }
}
