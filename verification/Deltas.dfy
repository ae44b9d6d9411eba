/** What a snapshot difference means in terms of the events ingested between the snapshots. */
module Deltas {
  import opened Words
  import opened Sums
  import opened Events
  import opened Stacks
  import opened Snapshots
  import opened Aggregation

  function StatsIn(r: SnapshotRecord): AllocationStats {
    AllocationStats(r.allocations, r.currentBytes, r.deallocations, r.totalAllocated, r.totalFreed)
  }

  /** No total of the stack leaves its range: the bytes fit an `i64`, the counts a `u64`. */
  ghost predicate InRange(events: Batch, id: StackId) {
    BytesInRange(events, id) && Sum(Allocs(id), events) <= U64_MAX && Sum(Frees(id), events) <= U64_MAX
  }

  /** In range, aggregation is exact. */
  lemma ExactStats(events: Batch, id: StackId)
    requires InRange(events, id)
    ensures var r := StatsOf(IngestedAll(EMPTY, events), id);
      && r.allocations == Sum(Allocs(id), events)
      && r.deallocations == Sum(Frees(id), events)
      && r.totalAllocated == Sum(AllocBytes(id), events)
      && r.totalFreed == Sum(FreedBytes(id), events)
      && r.currentBytes == ExactBytes(events, id)
  {
    CountersAreCappedSums(EMPTY, events, id);
    BytesExact(events, id);
  }

  lemma SumsSplit(a: Batch, b: Batch, id: StackId)
    ensures Sum(AllocBytes(id), a + b) == Sum(AllocBytes(id), a) + Sum(AllocBytes(id), b)
    ensures Sum(FreedBytes(id), a + b) == Sum(FreedBytes(id), a) + Sum(FreedBytes(id), b)
    ensures Sum(Allocs(id), a + b) == Sum(Allocs(id), a) + Sum(Allocs(id), b)
    ensures Sum(Frees(id), a + b) == Sum(Frees(id), a) + Sum(Frees(id), b)
    ensures Sum(DropUnits(), a + b) == Sum(DropUnits(), a) + Sum(DropUnits(), b)
  {
    SumConcat(AllocBytes(id), a, b);
    SumConcat(FreedBytes(id), a, b);
    SumConcat(Allocs(id), a, b);
    SumConcat(Frees(id), a, b);
    SumConcat(DropUnits(), a, b);
  }

  lemma InRangeParts(a: Batch, b: Batch, id: StackId)
    requires InRange(a + b, id)
    ensures InRange(a, id) && InRange(b, id)
  {
    SumsSplit(a, b, id);
    ExactSumsNonNegative(a, id);
    ExactSumsNonNegative(b, id);
  }

  /** Looking a stack up in a snapshot finds its aggregate. */
  lemma FindInSnapshot(s: Snapshot, t: Totals, resolve: map<StackId, StackMetadata>, id: StackId)
    requires IsSnapshotOf(s, t, resolve)
    ensures Find(s.records, id) == if id in t.stats then Some(RecordOf(t, id, resolve)) else None
  {
    var r := RecordOf(t, id, resolve);
    var found := Find(s.records, id);
    if id in t.stats {
      assert multiset(s.records)[r] == 1;
      assert r in s.records;
    }
    if found.Some? {
      assert multiset(s.records)[found.value] > 0;
    }
  }

  lemma RecordInSnapshot(s: Snapshot, t: Totals, resolve: map<StackId, StackMetadata>, k: nat)
    requires IsSnapshotOf(s, t, resolve) && k < |s.records|
    ensures s.records[k].stackId in t.stats && s.records[k] == RecordOf(t, s.records[k].stackId, resolve)
  {
    assert s.records[k] in multiset(s.records);
    assert multiset(s.records)[s.records[k]] > 0;
  }

  /** Exactly when the unchecked subtraction of live bytes is right: the difference fits an `i64`. */
  lemma DifferenceExactIff(record: SnapshotRecord, prev: SnapshotRecord)
    ensures Difference(record, Some(prev)).currentBytes == record.currentBytes - prev.currentBytes
      <==> I64_MIN <= record.currentBytes - prev.currentBytes <= I64_MAX
  {
    var d := record.currentBytes - prev.currentBytes;
    if 0 <= d <= I64_MAX {
      assert d % (U64_MAX + 1) == d;
    } else if I64_MIN <= d < 0 {
      assert d % (U64_MAX + 1) == d + U64_MAX + 1;
    }
  }

  /** The live bytes of a stack did not saturate. */
  ghost predicate Exact(events: Batch, id: StackId) {
    CurrentBytes(events, id) == ExactBytes(events, id)
  }

  /**
   * Exactly when a delta between two exact snapshots reports the right live bytes: what the interval allocated
   * minus what it freed fits an `i64`.
   */
  lemma DeltaBytesExactIff(
    before: Batch, during: Batch, older: Snapshot, newer: Snapshot,
    resolve0: map<StackId, StackMetadata>, resolve1: map<StackId, StackMetadata>, k: nat)
    requires IsSnapshotOf(older, IngestedAll(EMPTY, before), resolve0)
    requires IsSnapshotOf(newer, IngestedAll(EMPTY, before + during), resolve1)
    requires k < |newer.records|
    requires Exact(before, newer.records[k].stackId) && Exact(before + during, newer.records[k].stackId)
    ensures var id := newer.records[k].stackId;
      DeltaOf(newer, older).records[k].currentBytes == ExactBytes(during, id)
      <==> I64_MIN <= ExactBytes(during, id) <= I64_MAX
  {
    hide IngestedAll, Sum;
    var id := newer.records[k].stackId;
    SumsSplit(before, during, id);
    FindInSnapshot(older, IngestedAll(EMPTY, before), resolve0, id);
    RecordInSnapshot(newer, IngestedAll(EMPTY, before + during), resolve1, k);
    var prev := Find(older.records, id);
    if prev.Some? {
      DifferenceExactIff(newer.records[k], prev.value);
    }
  }

  /** The largest block freed, then two such blocks allocated: the delta over the latter reports minus two bytes. */
  lemma DeltaCanWrap() returns (older: Snapshot, newer: Snapshot)
    ensures var block := AllocationEvent(Allocation, 1, I64_MAX, 7);
      var freed := AllocationEvent(Deallocation, 1, I64_MAX, 7);
      && IsSnapshotOf(older, IngestedAll(EMPTY, [freed]), map[])
      && IsSnapshotOf(newer, IngestedAll(EMPTY, [freed] + [block, block]), map[])
    ensures |older.records| == |newer.records| == 1
    ensures older.records[0].currentBytes == -I64_MAX && newer.records[0].currentBytes == I64_MAX
    ensures DeltaOf(newer, older).records[0].currentBytes == -2
  {
    var block := AllocationEvent(Allocation, 1, I64_MAX, 7);
    var freed := AllocationEvent(Deallocation, 1, I64_MAX, 7);
    ThreeIngested(freed, block, block);
    assert [freed] + [block, block] == [freed, block, block];
    assert IngestedAll(EMPTY, [freed]) == Ingested(EMPTY, freed);
    var t0, t1 := IngestedAll(EMPTY, [freed]), IngestedAll(EMPTY, [freed] + [block, block]);
    older := Snapshots.Snapshot([RecordOf(t0, 7, map[])], t0.droppedEvents);
    newer := Snapshots.Snapshot([RecordOf(t1, 7, map[])], t1.droppedEvents);
  }

  /** The difference for one stack is the aggregate of the interval alone. */
  lemma DifferenceIsInterval(
    before: Batch, during: Batch, id: StackId,
    resolve0: map<StackId, StackMetadata>, resolve1: map<StackId, StackMetadata>)
    requires InRange(before + during, id)
    ensures var t0, t1 := IngestedAll(EMPTY, before), IngestedAll(EMPTY, before + during);
      var baseline := if id in t0.stats then Some(RecordOf(t0, id, resolve0)) else None;
      StatsIn(Difference(RecordOf(t1, id, resolve1), baseline)) == StatsOf(IngestedAll(EMPTY, during), id)
  {
    InRangeParts(before, during, id);
    ExactStats(before, id);
    ExactStats(during, id);
    ExactStats(before + during, id);
    SumsSplit(before, during, id);
    ExactSumsNonNegative(before, id);
    ExactSumsNonNegative(during, id);
    DifferenceExactIff(
      RecordOf(IngestedAll(EMPTY, before + during), id, resolve1), RecordOf(IngestedAll(EMPTY, before), id, resolve0));
  }

  /** A stack touched in the interval has a record in the newer snapshot. */
  lemma TouchedStackHasRecord(
    before: Batch, during: Batch, newer: Snapshot, resolve1: map<StackId, StackMetadata>, id: StackId)
    requires IsSnapshotOf(newer, IngestedAll(EMPTY, before + during), resolve1)
    requires id in IngestedAll(EMPTY, during).stats
    ensures Find(newer.records, id).Some?
  {
    FindInSnapshot(newer, IngestedAll(EMPTY, before + during), resolve1, id);
    CountersAreCappedSums(EMPTY, during, id);
    CountersAreCappedSums(EMPTY, before + during, id);
    SumsSplit(before, during, id);
    ExactSumsNonNegative(before, id);
  }

  /**
   * Differencing is a homomorphism: over one run without a reset, every record of the delta equals the
   * aggregate of just the events ingested between the two snapshots, hence is zero for an idle stack.
   */
  lemma DeltaRecordIsInterval(
    before: Batch, during: Batch, older: Snapshot, newer: Snapshot,
    resolve0: map<StackId, StackMetadata>, resolve1: map<StackId, StackMetadata>, k: nat)
    requires IsSnapshotOf(older, IngestedAll(EMPTY, before), resolve0)
    requires IsSnapshotOf(newer, IngestedAll(EMPTY, before + during), resolve1)
    requires k < |newer.records| && InRange(before + during, newer.records[k].stackId)
    ensures var r := DeltaOf(newer, older).records[k];
      && r.stackId == newer.records[k].stackId
      && r.stack == Lookup(resolve1, r.stackId)
      && StatsIn(r) == StatsOf(IngestedAll(EMPTY, during), r.stackId)
  {
    var id := newer.records[k].stackId;
    RecordInSnapshot(newer, IngestedAll(EMPTY, before + during), resolve1, k);
    FindInSnapshot(older, IngestedAll(EMPTY, before), resolve0, id);
    DifferenceIsInterval(before, during, id, resolve0, resolve1);
  }

  /** What a delta says about one stack; nothing recorded means nothing happened. */
  function DeltaStats(d: SnapshotDelta, id: StackId): AllocationStats {
    match Find(d.records, id)
    case None => NO_STATS
    case Some(r) => StatsIn(r)
  }

  lemma {:induction false} FindDelta(records: seq<SnapshotRecord>, deltas: seq<SnapshotRecord>, id: StackId)
    requires |records| == |deltas|
    requires forall k :: 0 <= k < |records| ==> records[k].stackId == deltas[k].stackId
    ensures Find(deltas, id).Some? <==> Find(records, id).Some?
  {
    if |records| > 0 && records[0].stackId != id {
      FindDelta(records[1..], deltas[1..], id);
    }
  }

  /** So a delta, looked up by stack, is the aggregate of the interval. */
  lemma DeltaIsIntervalAggregate(
    before: Batch, during: Batch, older: Snapshot, newer: Snapshot,
    resolve0: map<StackId, StackMetadata>, resolve1: map<StackId, StackMetadata>, id: StackId)
    requires IsSnapshotOf(older, IngestedAll(EMPTY, before), resolve0)
    requires IsSnapshotOf(newer, IngestedAll(EMPTY, before + during), resolve1)
    requires InRange(before + during, id)
    ensures DeltaStats(DeltaOf(newer, older), id) == StatsOf(IngestedAll(EMPTY, during), id)
  {
    var delta := DeltaOf(newer, older);
    FindDelta(newer.records, delta.records, id);
    var found := Find(delta.records, id);
    if found.Some? {
      var k :| 0 <= k < |delta.records| && delta.records[k] == found.value;
      DeltaRecordIsInterval(before, during, older, newer, resolve0, resolve1, k);
    } else if id in IngestedAll(EMPTY, during).stats {
      TouchedStackHasRecord(before, during, newer, resolve1, id);
    }
  }

  ghost predicate AddsUp(a: AllocationStats, b: AllocationStats, total: AllocationStats) {
    && total.allocations == a.allocations + b.allocations
    && total.currentBytes == a.currentBytes + b.currentBytes
    && total.deallocations == a.deallocations + b.deallocations
    && total.totalAllocated == a.totalAllocated + b.totalAllocated
    && total.totalFreed == a.totalFreed + b.totalFreed
  }

  lemma IntervalsAdd(a: Batch, b: Batch, id: StackId)
    requires InRange(a + b, id)
    ensures AddsUp(
      StatsOf(IngestedAll(EMPTY, a), id), StatsOf(IngestedAll(EMPTY, b), id), StatsOf(IngestedAll(EMPTY, a + b), id))
  {
    InRangeParts(a, b, id);
    ExactStats(a, id);
    ExactStats(b, id);
    ExactStats(a + b, id);
    SumsSplit(a, b, id);
  }

  /** Deltas over adjacent intervals add up to the delta over the whole, field by field. */
  lemma DeltasAddUp(
    e0: Batch, e1: Batch, e2: Batch, s0: Snapshot, s1: Snapshot, s2: Snapshot,
    resolve: seq<map<StackId, StackMetadata>>, id: StackId)
    requires |resolve| == 3
    requires IsSnapshotOf(s0, IngestedAll(EMPTY, e0), resolve[0])
    requires IsSnapshotOf(s1, IngestedAll(EMPTY, e0 + e1), resolve[1])
    requires IsSnapshotOf(s2, IngestedAll(EMPTY, e0 + e1 + e2), resolve[2])
    requires InRange(e0 + e1 + e2, id)
    ensures AddsUp(
      DeltaStats(DeltaOf(s1, s0), id), DeltaStats(DeltaOf(s2, s1), id), DeltaStats(DeltaOf(s2, s0), id))
  {
    assert e0 + e1 + e2 == e0 + (e1 + e2);
    InRangeParts(e0 + e1, e2, id);
    InRangeParts(e0, e1 + e2, id);
    DeltaIsIntervalAggregate(e0, e1, s0, s1, resolve[0], resolve[1], id);
    DeltaIsIntervalAggregate(e0 + e1, e2, s1, s2, resolve[1], resolve[2], id);
    DeltaIsIntervalAggregate(e0, e1 + e2, s0, s2, resolve[0], resolve[2], id);
    IntervalsAdd(e1, e2, id);
  }

  /**
   * Across a reset the newer snapshot starts from nothing: each counter of a delta is by how much it has grown, and
   * 0 if it has shrunk, while the live bytes may go down.
   */
  lemma DeltaAfterReset(
    before: Batch, during: Batch, older: Snapshot, newer: Snapshot,
    resolve0: map<StackId, StackMetadata>, resolve1: map<StackId, StackMetadata>, k: nat)
    requires IsSnapshotOf(older, IngestedAll(EMPTY, before), resolve0)
    requires IsSnapshotOf(newer, IngestedAll(EMPTY, during), resolve1)
    requires k < |newer.records|
    requires InRange(before, newer.records[k].stackId) && InRange(during, newer.records[k].stackId)
    ensures var r := DeltaOf(newer, older).records[k];
      var id := newer.records[k].stackId;
      && r.stackId == id && r.stack == newer.records[k].stack
      && r.allocations == Grown(Sum(Allocs(id), before), Sum(Allocs(id), during))
      && r.deallocations == Grown(Sum(Frees(id), before), Sum(Frees(id), during))
      && r.totalAllocated == Grown(Sum(AllocBytes(id), before), Sum(AllocBytes(id), during))
      && r.totalFreed == Grown(Sum(FreedBytes(id), before), Sum(FreedBytes(id), during))
      && (I64_MIN <= ExactBytes(during, id) - ExactBytes(before, id) <= I64_MAX ==>
            r.currentBytes == ExactBytes(during, id) - ExactBytes(before, id))
  {
    hide IngestedAll, Sum, Allocs, Frees, AllocBytes, FreedBytes;
    var id := newer.records[k].stackId;
    RecordInSnapshot(newer, IngestedAll(EMPTY, during), resolve1, k);
    FindInSnapshot(older, IngestedAll(EMPTY, before), resolve0, id);
    ExactStats(before, id);
    ExactStats(during, id);
    ExactSumsNonNegative(during, id);
    if Find(older.records, id).Some? {
      DifferenceExactIff(newer.records[k], Find(older.records, id).value);
    }
  }

  /** How much more there is after than before. */
  ghost function Grown(before: int, after: int): int {
    if after > before then after - before else 0
  }

  /** The drop difference goes both ways, and stops at the ends of an `i64`. */
  lemma DeltaDropsSigned(newer: Snapshot, older: Snapshot)
    ensures var d := DeltaOf(newer, older).droppedEvents;
      && (I64_MIN <= newer.droppedEvents - older.droppedEvents <= I64_MAX ==>
            d == newer.droppedEvents - older.droppedEvents)
      && (newer.droppedEvents - older.droppedEvents > I64_MAX ==> d == I64_MAX)
      && (newer.droppedEvents - older.droppedEvents < I64_MIN ==> d == I64_MIN)
  {
  }

  /** The drop difference of two snapshots is the number of drops ingested in between. */
  lemma DeltaDropsAreInterval(before: Batch, during: Batch, older: Snapshot, newer: Snapshot)
    requires older.droppedEvents == IngestedAll(EMPTY, before).droppedEvents
    requires newer.droppedEvents == IngestedAll(EMPTY, before + during).droppedEvents
    requires Sum(DropUnits(), before + during) <= U64_MAX && Sum(DropUnits(), during) <= I64_MAX
    ensures DeltaOf(newer, older).droppedEvents == IngestedAll(EMPTY, during).droppedEvents
         == Sum(DropUnits(), during)
  {
    SumsSplit(before, during, 0);
    ExactSumsNonNegative(before, 0);
    ExactSumsNonNegative(during, 0);
    CountersAreCappedSums(EMPTY, before, 0);
    CountersAreCappedSums(EMPTY, during, 0);
    CountersAreCappedSums(EMPTY, before + during, 0);
  }
}
