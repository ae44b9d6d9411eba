/** Per-stack statistics and their aggregation (`src/aggregator.rs`). */
module Aggregation {
  import opened Words
  import opened Sums
  import opened Events
  import opened Stacks
  import opened Snapshots

  datatype AllocationStats = AllocationStats(
    allocations: U64, currentBytes: I64, deallocations: U64, totalAllocated: U64, totalFreed: U64)
  {
    function OnAllocation(sizeSigned: I64, sizeUnsigned: U64): AllocationStats {
      this.(
        currentBytes := ClampI64(currentBytes + sizeSigned),
        allocations := SaturatingAdd(allocations, 1),
        totalAllocated := SaturatingAdd(totalAllocated, sizeUnsigned))
    }

    function OnDeallocation(sizeSigned: I64, sizeUnsigned: U64): AllocationStats {
      this.(
        currentBytes := ClampI64(currentBytes - sizeSigned),
        deallocations := SaturatingAdd(deallocations, 1),
        totalFreed := SaturatingAdd(totalFreed, sizeUnsigned))
    }
  }

  const NO_STATS := AllocationStats(0, 0, 0, 0, 0)

  /** The size as `i64` and as `u64`; only the first conversion can fail. */
  function ConvertSize(size: U64): Option<(I64, U64)> {
    if size <= I64_MAX then Some((size, size)) else None
  }

  /** The abstract value of an `Aggregator`. */
  datatype Totals = Totals(droppedEvents: U64, stats: map<StackId, AllocationStats>)

  const EMPTY := Totals(0, map[])

  /** `stats.entry(id).or_default()`. */
  function StatsOf(t: Totals, id: StackId): AllocationStats {
    if id in t.stats then t.stats[id] else NO_STATS
  }

  function Ingested(t: Totals, e: AllocationEvent): Totals {
    match e.kind
    case Dropped(count) => t.(droppedEvents := SaturatingAdd(t.droppedEvents, count))
    case Allocation =>
      (match ConvertSize(e.size)
       case None => t.(droppedEvents := SaturatingAdd(t.droppedEvents, 1))
       case Some(p) => t.(stats := t.stats[e.stackId := StatsOf(t, e.stackId).OnAllocation(p.0, p.1)]))
    case Deallocation =>
      (match ConvertSize(e.size)
       case None => t.(droppedEvents := SaturatingAdd(t.droppedEvents, 1))
       case Some(p) => t.(stats := t.stats[e.stackId := StatsOf(t, e.stackId).OnDeallocation(p.0, p.1)]))
  }

  function IngestedAll(t: Totals, events: Batch): Totals {
    if |events| == 0 then t
    else Ingested(IngestedAll(t, events[..|events| - 1]), events[|events| - 1])
  }

  // The exact (unbounded) sums that the saturating counters approximate.

  ghost predicate Counts(e: AllocationEvent, id: StackId) {
    e.stackId == id && e.size <= I64_MAX
  }

  ghost function AllocBytes(id: StackId): AllocationEvent -> int {
    (e: AllocationEvent) => if e.kind == Allocation && Counts(e, id) then e.size else 0
  }

  ghost function FreedBytes(id: StackId): AllocationEvent -> int {
    (e: AllocationEvent) => if e.kind == Deallocation && Counts(e, id) then e.size else 0
  }

  ghost function Allocs(id: StackId): AllocationEvent -> int {
    (e: AllocationEvent) => if e.kind == Allocation && Counts(e, id) then 1 else 0
  }

  ghost function Frees(id: StackId): AllocationEvent -> int {
    (e: AllocationEvent) => if e.kind == Deallocation && Counts(e, id) then 1 else 0
  }

  ghost function DropUnits(): AllocationEvent -> int {
    (e: AllocationEvent) =>
      match e.kind
      case Dropped(count) => count
      case _ => if e.size <= I64_MAX then 0 else 1
  }

  function RecordOf(t: Totals, id: StackId, resolve: map<StackId, StackMetadata>): SnapshotRecord {
    var s := StatsOf(t, id);
    SnapshotRecord(
      s.allocations, s.currentBytes, s.deallocations, Lookup(resolve, id), id, s.totalAllocated, s.totalFreed)
  }

  /** Exactly one record for each stack in `ids`, and nothing else. */
  ghost predicate OneRecordEach(
    records: seq<SnapshotRecord>, t: Totals, ids: set<StackId>, resolve: map<StackId, StackMetadata>)
  {
    forall r: SnapshotRecord ::
      multiset(records)[r] == (if r.stackId in ids && r == RecordOf(t, r.stackId, resolve) then 1 else 0)
  }

  /** A snapshot holds one record for each stack, largest live bytes first. */
  ghost predicate IsSnapshotOf(s: Snapshot, t: Totals, resolve: map<StackId, StackMetadata>) {
    && s.droppedEvents == t.droppedEvents
    && Descending(s.records)
    && OneRecordEach(s.records, t, t.stats.Keys, resolve)
  }

  class Aggregator {
    var droppedEvents: U64
    var stats: map<StackId, AllocationStats>

    ghost function State(): Totals
      reads this
    {
      Totals(droppedEvents, stats)
    }

    constructor ()
      ensures State() == EMPTY
    {
      droppedEvents := 0;
      stats := map[];
    }

    method Ingest(events: Batch)
      modifies this
      ensures State() == IngestedAll(old(State()), events)
    {
      for i := 0 to |events|
        invariant State() == IngestedAll(old(State()), events[..i])
      {
        var event := events[i];
        assert events[..i + 1][..i] == events[..i];
        match event.kind {
          case Allocation =>
            match ConvertSize(event.size) {
              case Some((signed, unsigned)) =>
                var entry := if event.stackId in stats then stats[event.stackId] else NO_STATS;
                stats := stats[event.stackId := entry.OnAllocation(signed, unsigned)];
              case None =>
                droppedEvents := SaturatingAdd(droppedEvents, 1);
            }
          case Deallocation =>
            match ConvertSize(event.size) {
              case Some((signed, unsigned)) =>
                var entry := if event.stackId in stats then stats[event.stackId] else NO_STATS;
                stats := stats[event.stackId := entry.OnDeallocation(signed, unsigned)];
              case None =>
                droppedEvents := SaturatingAdd(droppedEvents, 1);
            }
          case Dropped(count) =>
            droppedEvents := SaturatingAdd(droppedEvents, count);
        }
      }
      assert events[..|events|] == events;
    }

    /** `resolve` is the id map of the stack table. */
    method Snapshot(resolve: map<StackId, StackMetadata>) returns (snapshot: Snapshot)
      ensures IsSnapshotOf(snapshot, State(), resolve)
    {
      var records := [];
      var rest := stats.Keys;
      while rest != {}
        invariant rest <= stats.Keys
        invariant OneRecordEach(records, State(), stats.Keys - rest, resolve)
      {
        var id :| id in rest;
        var entry := stats[id];
        records := records + [SnapshotRecord(
          entry.allocations, entry.currentBytes, entry.deallocations, Lookup(resolve, id), id,
          entry.totalAllocated, entry.totalFreed)];
        rest := rest - {id};
      }
      records := SortDescending(records);
      snapshot := Snapshots.Snapshot(records, droppedEvents);
    }

    method Reset()
      modifies this
      ensures State() == EMPTY
    {
      stats := map[];
      droppedEvents := 0;
    }
  }

  /** How events are split into batches does not matter. */
  lemma {:induction false} IngestConcat(t: Totals, a: Batch, b: Batch)
    ensures IngestedAll(t, a + b) == IngestedAll(IngestedAll(t, a), b)
  {
    if |b| == 0 {
      assert a + b == a;
    } else {
      assert (a + b)[..|a + b| - 1] == a + b[..|b| - 1];
      IngestConcat(t, a, b[..|b| - 1]);
    }
  }

  lemma ExactSumsNonNegative(events: Batch, id: StackId)
    ensures Sum(AllocBytes(id), events) >= 0 && Sum(FreedBytes(id), events) >= 0
    ensures Sum(Allocs(id), events) >= 0 && Sum(Frees(id), events) >= 0 && Sum(DropUnits(), events) >= 0
  {
    SumNonNegative(AllocBytes(id), events);
    SumNonNegative(FreedBytes(id), events);
    SumNonNegative(Allocs(id), events);
    SumNonNegative(Frees(id), events);
    SumNonNegative(DropUnits(), events);
  }

  lemma IngestedStep(t: Totals, e: AllocationEvent, id: StackId)
    ensures var s, r := StatsOf(t, id), StatsOf(Ingested(t, e), id);
      && r.totalAllocated == Min(U64_MAX, s.totalAllocated + AllocBytes(id)(e))
      && r.totalFreed == Min(U64_MAX, s.totalFreed + FreedBytes(id)(e))
      && r.allocations == Min(U64_MAX, s.allocations + Allocs(id)(e))
      && r.deallocations == Min(U64_MAX, s.deallocations + Frees(id)(e))
      && r.currentBytes == ClampI64(s.currentBytes + AllocBytes(id)(e) - FreedBytes(id)(e))
    ensures Ingested(t, e).droppedEvents == Min(U64_MAX, t.droppedEvents + DropUnits()(e))
    ensures id in Ingested(t, e).stats <==> id in t.stats || Allocs(id)(e) + Frees(id)(e) > 0
  {
  }

  /** What ingesting means: each counter is the exact sum, cut off at the largest `u64`. */
  lemma {:induction false} CountersAreCappedSums(t: Totals, events: Batch, id: StackId)
    ensures var s, r := StatsOf(t, id), StatsOf(IngestedAll(t, events), id);
      && r.totalAllocated == Min(U64_MAX, s.totalAllocated + Sum(AllocBytes(id), events))
      && r.totalFreed == Min(U64_MAX, s.totalFreed + Sum(FreedBytes(id), events))
      && r.allocations == Min(U64_MAX, s.allocations + Sum(Allocs(id), events))
      && r.deallocations == Min(U64_MAX, s.deallocations + Sum(Frees(id), events))
    ensures IngestedAll(t, events).droppedEvents == Min(U64_MAX, t.droppedEvents + Sum(DropUnits(), events))
    ensures id in IngestedAll(t, events).stats
      <==> id in t.stats || Sum(Allocs(id), events) + Sum(Frees(id), events) > 0
  {
    if |events| > 0 {
      var most, last := events[..|events| - 1], events[|events| - 1];
      CountersAreCappedSums(t, most, id);
      ExactSumsNonNegative(most, id);
      IngestedStep(IngestedAll(t, most), last, id);
      assert AllocBytes(id)(last) >= 0 && FreedBytes(id)(last) >= 0 && Allocs(id)(last) >= 0;
      assert Frees(id)(last) >= 0 && DropUnits()(last) >= 0;
    }
  }

  /** Every order of the same events gives the same counters, the same stacks and the same drop count. */
  lemma CountersIgnoreOrder(t: Totals, a: Batch, b: Batch, id: StackId)
    requires multiset(a) == multiset(b)
    ensures var ra, rb := IngestedAll(t, a), IngestedAll(t, b);
      && StatsOf(ra, id).(currentBytes := 0) == StatsOf(rb, id).(currentBytes := 0)
      && (id in ra.stats <==> id in rb.stats)
      && ra.droppedEvents == rb.droppedEvents
  {
    hide IngestedAll, Sum;
    CountersAreCappedSums(t, a, id);
    CountersAreCappedSums(t, b, id);
    SumPermutation(AllocBytes(id), a, b);
    SumPermutation(FreedBytes(id), a, b);
    SumPermutation(Allocs(id), a, b);
    SumPermutation(Frees(id), a, b);
    SumPermutation(DropUnits(), a, b);
  }

  ghost function ExactBytes(events: Batch, id: StackId): int {
    Sum(AllocBytes(id), events) - Sum(FreedBytes(id), events)
  }

  /** The bytes allocated on one stack fit in an `i64`, and those freed do not exceed 2^63. */
  ghost predicate BytesInRange(events: Batch, id: StackId) {
    Sum(AllocBytes(id), events) <= I64_MAX && Sum(FreedBytes(id), events) <= -I64_MIN
  }

  ghost function CurrentBytes(events: Batch, id: StackId): I64 {
    StatsOf(IngestedAll(EMPTY, events), id).currentBytes
  }

  lemma {:induction false} BytesExact(events: Batch, id: StackId)
    requires BytesInRange(events, id)
    ensures CurrentBytes(events, id) == ExactBytes(events, id)
  {
    ExactSumsNonNegative(events, id);
    if |events| > 0 {
      ExactSumsNonNegative(events[..|events| - 1], id);
      BytesExact(events[..|events| - 1], id);
    }
  }

  /** While nothing is freed, the running bytes saturate at the top only. */
  lemma {:induction false} BytesWhileNoFrees(a: Batch, b: Batch, id: StackId)
    requires forall i :: 0 <= i < |b| ==> b[i].kind != Deallocation
    ensures CurrentBytes(a + b, id) == Min(I64_MAX, CurrentBytes(a, id) + Sum(AllocBytes(id), b))
  {
    if |b| == 0 {
      assert a + b == a;
    } else {
      var most := b[..|b| - 1];
      assert (a + b)[..|a + b| - 1] == a + most;
      BytesWhileNoFrees(a, most, id);
      ExactSumsNonNegative(most, id);
    }
  }

  /** While nothing is allocated, they saturate at the bottom only. */
  lemma {:induction false} BytesWhileOnlyFrees(a: Batch, b: Batch, id: StackId)
    requires forall i :: 0 <= i < |b| ==> b[i].kind == Deallocation
    ensures CurrentBytes(a + b, id) == Max(I64_MIN, CurrentBytes(a, id) - Sum(FreedBytes(id), b))
  {
    if |b| == 0 {
      assert a + b == a;
    } else {
      var most := b[..|b| - 1];
      assert (a + b)[..|a + b| - 1] == a + most;
      BytesWhileOnlyFrees(a, most, id);
      ExactSumsNonNegative(most, id);
    }
  }

  ghost function Selected(keep: AllocationEvent -> bool, events: Batch): Batch {
    if |events| == 0 then []
    else
      var most := Selected(keep, events[..|events| - 1]);
      if keep(events[|events| - 1]) then most + [events[|events| - 1]] else most
  }

  ghost function Freeing(): AllocationEvent -> bool {
    (e: AllocationEvent) => e.kind == Deallocation
  }

  ghost function NotFreeing(): AllocationEvent -> bool {
    (e: AllocationEvent) => e.kind != Deallocation
  }

  lemma {:induction false} SelectedParts(events: Batch)
    ensures var f, n := Selected(Freeing(), events), Selected(NotFreeing(), events);
      && multiset(f) + multiset(n) == multiset(events)
      && (forall i :: 0 <= i < |f| ==> f[i].kind == Deallocation)
      && (forall i :: 0 <= i < |n| ==> n[i].kind != Deallocation)
  {
    if |events| > 0 {
      var most, last := events[..|events| - 1], events[|events| - 1];
      SelectedParts(most);
      assert events == most + [last];
    }
  }

  /** Events can be separated into frees and the rest without changing what they sum to. */
  lemma Separate(events: Batch, id: StackId)
    returns (frees: Batch, others: Batch)
    ensures multiset(frees + others) == multiset(others + frees) == multiset(events)
    ensures forall i :: 0 <= i < |frees| ==> frees[i].kind == Deallocation
    ensures forall i :: 0 <= i < |others| ==> others[i].kind != Deallocation
    ensures Sum(FreedBytes(id), frees) == Sum(FreedBytes(id), events)
    ensures Sum(AllocBytes(id), others) == Sum(AllocBytes(id), events)
  {
    frees, others := Selected(Freeing(), events), Selected(NotFreeing(), events);
    SelectedParts(events);
    assert multiset(frees + others) == multiset(events);
    SumPermutation(FreedBytes(id), frees + others, events);
    SumPermutation(AllocBytes(id), frees + others, events);
    SumConcat(FreedBytes(id), frees, others);
    SumConcat(AllocBytes(id), frees, others);
    SumZero(FreedBytes(id), others);
    SumZero(AllocBytes(id), frees);
  }

  lemma BytesFromNothing(b: Batch, id: StackId)
    ensures (forall i :: 0 <= i < |b| ==> b[i].kind != Deallocation) ==>
      CurrentBytes(b, id) == Min(I64_MAX, Sum(AllocBytes(id), b))
    ensures (forall i :: 0 <= i < |b| ==> b[i].kind == Deallocation) ==>
      CurrentBytes(b, id) == Max(I64_MIN, -Sum(FreedBytes(id), b))
  {
    assert [] + b == b;
    ExactSumsNonNegative(b, id);
    if forall i :: 0 <= i < |b| ==> b[i].kind != Deallocation {
      BytesWhileNoFrees([], b, id);
    }
    if forall i :: 0 <= i < |b| ==> b[i].kind == Deallocation {
      BytesWhileOnlyFrees([], b, id);
    }
  }

  /** One extreme order: all frees come first. */
  lemma FreesFirst(events: Batch, id: StackId) returns (order: Batch)
    ensures multiset(order) == multiset(events)
    ensures CurrentBytes(order, id) ==
      Min(I64_MAX, Max(I64_MIN, -Sum(FreedBytes(id), events)) + Sum(AllocBytes(id), events))
  {
    var f, n := Separate(events, id);
    order := f + n;
    BytesFromNothing(f, id);
    BytesWhileNoFrees(f, n, id);
  }

  /** The other: all frees come last. */
  lemma FreesLast(events: Batch, id: StackId) returns (order: Batch)
    ensures multiset(order) == multiset(events)
    ensures CurrentBytes(order, id) ==
      Max(I64_MIN, Min(I64_MAX, Sum(AllocBytes(id), events)) - Sum(FreedBytes(id), events))
  {
    var f, n := Separate(events, id);
    order := n + f;
    BytesFromNothing(n, id);
    BytesWhileOnlyFrees(n, f, id);
  }

  /**
   * Exactly when `current_bytes` is trustworthy: every order of the events yields the exact difference if and
   * only if the bytes allocated fit in an `i64` and the bytes freed do not exceed 2^63.
   */
  lemma BytesExactInEveryOrderIff(events: Batch, id: StackId)
    ensures (forall order :: multiset(order) == multiset(events) ==>
        CurrentBytes(order, id) == ExactBytes(events, id))
      <==> BytesInRange(events, id)
  {
    if BytesInRange(events, id) {
      forall order | multiset(order) == multiset(events)
        ensures CurrentBytes(order, id) == ExactBytes(events, id)
      {
        SumPermutation(AllocBytes(id), order, events);
        SumPermutation(FreedBytes(id), order, events);
        BytesExact(order, id);
      }
    } else {
      ExactSumsNonNegative(events, id);
      var first := FreesFirst(events, id);
      var last := FreesLast(events, id);
      assert CurrentBytes(first, id) != ExactBytes(events, id)
          || CurrentBytes(last, id) != ExactBytes(events, id);
    }
  }

  const BIG_BLOCK := AllocationEvent(Allocation, 1, I64_MAX, 7)
  const ONE_BYTE := AllocationEvent(Allocation, 2, 1, 7)
  const BYTE_FREED := AllocationEvent(Deallocation, 2, 1, 7)

  /**
   * Two orders of the same three events, an allocation of 2^63 - 1 bytes and one of a single byte and its release:
   * with the release last, the byte that saturation swallowed is subtracted all the same.
   */
  lemma BytesDependOnOrder()
    ensures multiset([BIG_BLOCK, ONE_BYTE, BYTE_FREED]) == multiset([ONE_BYTE, BYTE_FREED, BIG_BLOCK])
    ensures CurrentBytes([BIG_BLOCK, ONE_BYTE, BYTE_FREED], 7) == I64_MAX - 1
    ensures CurrentBytes([ONE_BYTE, BYTE_FREED, BIG_BLOCK], 7) == I64_MAX
    ensures ExactBytes([ONE_BYTE, BYTE_FREED, BIG_BLOCK], 7) == I64_MAX
  {
    hide CurrentBytes, ExactBytes;
    ThreeBytes(BIG_BLOCK, ONE_BYTE, BYTE_FREED, 7);
    ThreeBytes(ONE_BYTE, BYTE_FREED, BIG_BLOCK, 7);
    ThreeExactBytes(ONE_BYTE, BYTE_FREED, BIG_BLOCK, 7);
  }

  lemma ThreeExactBytes(x: AllocationEvent, y: AllocationEvent, z: AllocationEvent, id: StackId)
    ensures ExactBytes([x, y, z], id)
      == AllocBytes(id)(x) + AllocBytes(id)(y) + AllocBytes(id)(z)
         - FreedBytes(id)(x) - FreedBytes(id)(y) - FreedBytes(id)(z)
  {
    hide AllocBytes, FreedBytes;
    assert [x, y, z] == [x] + [y] + [z];
    SumSnoc(AllocBytes(id), [x] + [y], z);
    SumSnoc(AllocBytes(id), [x], y);
    SumOne(AllocBytes(id), x);
    SumSnoc(FreedBytes(id), [x] + [y], z);
    SumSnoc(FreedBytes(id), [x], y);
    SumOne(FreedBytes(id), x);
  }

  lemma ThreeIngested(x: AllocationEvent, y: AllocationEvent, z: AllocationEvent)
    ensures IngestedAll(EMPTY, [x, y, z]) == Ingested(Ingested(Ingested(EMPTY, x), y), z)
  {
    assert [x, y, z][..2] == [x, y] && [x, y][..1] == [x];
    assert IngestedAll(EMPTY, [x]) == Ingested(EMPTY, x);
  }

  /** Three events, each clamping the live bytes. */
  lemma ThreeBytes(x: AllocationEvent, y: AllocationEvent, z: AllocationEvent, id: StackId)
    ensures var a := ClampI64(AllocBytes(id)(x) - FreedBytes(id)(x));
      var b := ClampI64(a + AllocBytes(id)(y) - FreedBytes(id)(y));
      CurrentBytes([x, y, z], id) == ClampI64(b + AllocBytes(id)(z) - FreedBytes(id)(z))
  {
    hide Ingested, IngestedAll;
    ThreeIngested(x, y, z);
    IngestedStep(EMPTY, x, id);
    IngestedStep(Ingested(EMPTY, x), y, id);
    IngestedStep(Ingested(Ingested(EMPTY, x), y), z, id);
  }

  /** Two event sequences weigh the same on one stack, and drop the same number of events. */
  ghost predicate SameSums(a: Batch, b: Batch, id: StackId) {
    && Sum(AllocBytes(id), a) == Sum(AllocBytes(id), b)
    && Sum(FreedBytes(id), a) == Sum(FreedBytes(id), b)
    && Sum(Allocs(id), a) == Sum(Allocs(id), b)
    && Sum(Frees(id), a) == Sum(Frees(id), b)
    && Sum(DropUnits(), a) == Sum(DropUnits(), b)
  }

  /** Two aggregates agree in everything but possibly the live bytes, whose saturation depends on the order. */
  ghost predicate AgreeOnCounters(a: Totals, b: Totals) {
    && a.droppedEvents == b.droppedEvents
    && a.stats.Keys == b.stats.Keys
    && forall id: StackId :: StatsOf(a, id).(currentBytes := 0) == StatsOf(b, id).(currentBytes := 0)
  }

  lemma SumsDetermineStats(a: Batch, b: Batch, id: StackId)
    requires SameSums(a, b, id)
    ensures var ra, rb := IngestedAll(EMPTY, a), IngestedAll(EMPTY, b);
      && StatsOf(ra, id).(currentBytes := 0) == StatsOf(rb, id).(currentBytes := 0)
      && (id in ra.stats <==> id in rb.stats)
      && ra.droppedEvents == rb.droppedEvents
  {
    CountersAreCappedSums(EMPTY, a, id);
    CountersAreCappedSums(EMPTY, b, id);
  }

  /** The exact sums determine the counters. */
  lemma SumsDetermineCounters(a: Batch, b: Batch)
    requires forall id :: SameSums(a, b, id)
    ensures AgreeOnCounters(IngestedAll(EMPTY, a), IngestedAll(EMPTY, b))
  {
    hide IngestedAll, SameSums, StatsOf;
    forall id: StackId
      ensures StatsOf(IngestedAll(EMPTY, a), id).(currentBytes := 0)
           == StatsOf(IngestedAll(EMPTY, b), id).(currentBytes := 0)
      ensures id in IngestedAll(EMPTY, a).stats.Keys <==> id in IngestedAll(EMPTY, b).stats.Keys
    {
      assert SameSums(a, b, id);
      SumsDetermineStats(a, b, id);
    }
    assert SameSums(a, b, 0);
    SumsDetermineStats(a, b, 0);
  }

  /** With all totals in range, they determine the whole aggregate. */
  lemma SumsDetermineAggregate(a: Batch, b: Batch)
    requires forall id :: SameSums(a, b, id)
    requires forall id :: BytesInRange(a, id)
    ensures IngestedAll(EMPTY, a) == IngestedAll(EMPTY, b)
  {
    var ra, rb := IngestedAll(EMPTY, a), IngestedAll(EMPTY, b);
    SumsDetermineCounters(a, b);
    forall id | id in ra.stats
      ensures id in rb.stats && ra.stats[id] == rb.stats[id]
    {
      assert SameSums(a, b, id) && BytesInRange(a, id);
      assert StatsOf(ra, id).(currentBytes := 0) == StatsOf(rb, id).(currentBytes := 0);
      assert id in rb.stats.Keys;
      BytesExact(a, id);
      BytesExact(b, id);
    }
    assert ra.stats.Keys == rb.stats.Keys;
    assert ra.stats == rb.stats;
  }

  /** With all totals in `i64` range, every part of the aggregate is independent of order and batching. */
  lemma AggregateIgnoresOrder(a: Batch, b: Batch)
    requires multiset(a) == multiset(b)
    requires forall id :: BytesInRange(a, id)
    ensures IngestedAll(EMPTY, a) == IngestedAll(EMPTY, b)
  {
    forall id ensures SameSums(a, b, id) {
      SumPermutation(AllocBytes(id), a, b);
      SumPermutation(FreedBytes(id), a, b);
      SumPermutation(Allocs(id), a, b);
      SumPermutation(Frees(id), a, b);
      SumPermutation(DropUnits(), a, b);
    }
    SumsDetermineAggregate(a, b);
  }
}
