/** Snapshots and their differences (`src/snapshot.rs`). */
module Snapshots {
  import opened Words
  import opened Events
  import opened Stacks

  datatype SnapshotRecord = SnapshotRecord(
    allocations: U64, currentBytes: I64, deallocations: U64, stack: Option<StackMetadata>, stackId: StackId,
    totalAllocated: U64, totalFreed: U64)

  datatype Snapshot = Snapshot(records: seq<SnapshotRecord>, droppedEvents: U64)

  datatype SnapshotDelta = SnapshotDelta(records: seq<SnapshotRecord>, droppedEvents: I64)

  /** `iter().find(..)`: the first record of a stack. */
  function Find(records: seq<SnapshotRecord>, id: StackId): (r: Option<SnapshotRecord>)
    ensures r.Some? ==> r.value in records && r.value.stackId == id
    ensures r.None? ==> forall x :: x in records ==> x.stackId != id
  {
    if |records| == 0 then None
    else if records[0].stackId == id then Some(records[0])
    else Find(records[1..], id)
  }

  /** No record before it is of the same stack. */
  lemma {:induction false} FindIsFirst(records: seq<SnapshotRecord>, id: StackId)
    ensures Find(records, id).Some? ==> exists i ::
      && 0 <= i < |records| && records[i] == Find(records, id).value
      && forall j :: 0 <= j < i ==> records[j].stackId != id
  {
    if |records| > 0 {
      if records[0].stackId == id {
        assert records[0] == Find(records, id).value;
      } else {
        FindIsFirst(records[1..], id);
        if Find(records, id).Some? {
          var i :| 0 <= i < |records[1..]| && records[1..][i] == Find(records, id).value
            && forall j :: 0 <= j < i ==> records[1..][j].stackId != id;
          assert forall j :: 0 < j < i + 1 ==> records[j] == records[1..][j - 1];
          assert records[i + 1] == Find(records, id).value;
        }
      }
    }
  }

  /** The difference of one record; the `i64` subtraction is unchecked in a release build and wraps. */
  function Difference(record: SnapshotRecord, baseline: Option<SnapshotRecord>): SnapshotRecord {
    match baseline
    case None => record
    case Some(prev) => SnapshotRecord(
      SaturatingSub(record.allocations, prev.allocations),
      WrapI64(record.currentBytes - prev.currentBytes),
      SaturatingSub(record.deallocations, prev.deallocations),
      record.stack,
      record.stackId,
      SaturatingSub(record.totalAllocated, prev.totalAllocated),
      SaturatingSub(record.totalFreed, prev.totalFreed))
  }

  function DeltaOf(newer: Snapshot, older: Snapshot): SnapshotDelta {
    SnapshotDelta(
      seq(|newer.records|, i requires 0 <= i < |newer.records| =>
        Difference(newer.records[i], Find(older.records, newer.records[i].stackId))),
      ClampI64(newer.droppedEvents - older.droppedEvents))
  }

  method FromSnapshots(newer: Snapshot, older: Snapshot) returns (delta: SnapshotDelta)
    ensures delta == DeltaOf(newer, older)
  {
    var deltas := [];
    for i := 0 to |newer.records|
      invariant |deltas| == i
      invariant forall k :: 0 <= k < i ==>
        deltas[k] == Difference(newer.records[k], Find(older.records, newer.records[k].stackId))
    {
      var record := newer.records[i];
      var baseline := None;
      var j := 0;
      while j < |older.records| && baseline.None?
        invariant 0 <= j <= |older.records|
        invariant Find(older.records, record.stackId)
          == if baseline.Some? then baseline else Find(older.records[j..], record.stackId)
        decreases |older.records| - j, if baseline.None? then 1 else 0
      {
        if older.records[j].stackId == record.stackId {
          baseline := Some(older.records[j]);
        }
        assert older.records[j..][1..] == older.records[j + 1..];
        j := j + 1;
      }
      deltas := deltas + [Difference(record, baseline)];
    }
    delta := SnapshotDelta(deltas, ClampI64(newer.droppedEvents - older.droppedEvents));
  }

  ghost predicate Descending(records: seq<SnapshotRecord>) {
    forall i :: 0 < i < |records| ==> records[i - 1].currentBytes >= records[i].currentBytes
  }

  lemma PlacedAt(sorted: seq<SnapshotRecord>, k: nat, r: SnapshotRecord)
    requires Descending(sorted) && k <= |sorted|
    requires k > 0 ==> sorted[k - 1].currentBytes >= r.currentBytes
    requires k < |sorted| ==> sorted[k].currentBytes < r.currentBytes
    ensures var placed := sorted[..k] + [r] + sorted[k..];
      multiset(placed) == multiset(sorted) + multiset{r} && Descending(placed)
  {
    assert sorted == sorted[..k] + sorted[k..];
    var placed := sorted[..k] + [r] + sorted[k..];
    forall i | 0 < i < |placed| ensures placed[i - 1].currentBytes >= placed[i].currentBytes {
      if i < k {
        assert placed[i - 1] == sorted[i - 1] && placed[i] == sorted[i];
      } else if i > k + 1 {
        assert placed[i - 1] == sorted[i - 2] && placed[i] == sorted[i - 1];
      }
    }
  }

  /** Places one record into a sorted list, after the records that are not smaller. */
  method PlaceDescending(sorted: seq<SnapshotRecord>, r: SnapshotRecord) returns (placed: seq<SnapshotRecord>)
    requires Descending(sorted)
    ensures multiset(placed) == multiset(sorted) + multiset{r} && Descending(placed)
  {
    var k := |sorted|;
    while k > 0 && sorted[k - 1].currentBytes < r.currentBytes
      invariant 0 <= k <= |sorted|
      invariant k < |sorted| ==> sorted[k].currentBytes < r.currentBytes
    {
      k := k - 1;
    }
    PlacedAt(sorted, k, r);
    placed := sorted[..k] + [r] + sorted[k..];
  }

  /** `sort_by` in decreasing order of live bytes. */
  method SortDescending(records: seq<SnapshotRecord>) returns (sorted: seq<SnapshotRecord>)
    ensures multiset(sorted) == multiset(records) && Descending(sorted)
  {
    sorted := [];
    for i := 0 to |records|
      invariant multiset(sorted) == multiset(records[..i]) && Descending(sorted)
    {
      sorted := PlaceDescending(sorted, records[i]);
      assert records[..i + 1] == records[..i] + [records[i]];
    }
    assert records[..|records|] == records;
  }
}
