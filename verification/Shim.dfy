/**
 * The allocator shim and its map of block sizes (`py/src/lib.rs`).
 *
 * The shim remembers the size of every block it has seen, because `free` and `realloc` do not tell it. Its map
 * has to agree with the tracer's index and with the program's heap.
 */
module Shim {
  import opened Words
  import opened Sums
  import opened Events
  import opened Aggregation
  import opened Tracing
  import T = Tracing
  import P = Pipeline
  import PI = PipelineIndex

  type Blocks = map<U64, U64>

  /** The shim's map, the tracer's index, and whether the tracer is enabled. */
  datatype State = State(allocations: Blocks, index: Index, enabled: bool)

  function SizeOf(blocks: Blocks, address: U64): U64 {
    if address in blocks then blocks[address] else 0
  }

  function AllocationRecorded(s: State, address: U64, size: U64, sampled: bool, stackId: StackId): (State, Batch) {
    if size == 0 || !s.enabled then (s, [])
    else
      var (index, hot) := PreparedAllocation(s.index, address, size, sampled, stackId);
      (s.(index := index, allocations := s.allocations[address := size]), HotEvents(hot))
  }

  function DeallocationRecorded(sampling: bool, s: State, address: U64): (State, Batch) {
    var s' := s.(allocations := Without(s.allocations, address));
    if !s.enabled then (s', [])
    else
      var (index, hot) := PreparedDeallocation(s.index, address, SizeOf(s.allocations, address), sampling);
      (s'.(index := index), HotEvents(hot))
  }

  /** The map is updated even while the tracer is disabled. */
  function ReallocationRecorded(
    sampling: bool, s: State, oldAddress: U64, newAddress: U64, newSize: U64, sampled: bool, stackId: StackId):
    (State, Batch)
  {
    var rest := Without(s.allocations, oldAddress);
    var s' := s.(allocations := if newSize > 0 then rest[newAddress := newSize] else rest);
    if !s.enabled then (s', [])
    else
      var oldSize := SizeOf(s.allocations, oldAddress);
      var (index, prepared) :=
        Reallocated(s.index, oldAddress, oldSize, newAddress, newSize, sampled, stackId, sampling);
      (s'.(index := index), ReallocationEvents(prepared))
  }

  /**
   * While the tracer is enabled, growing or shrinking a tracked block is freeing it and allocating the new one; an
   * unknown block only moves on in the map. While it is disabled any block does, and nothing is enqueued.
   */
  lemma ReallocationIsFreeThenAllocation(
    sampling: bool, s: State, oldAddress: U64, newAddress: U64, newSize: U64, sampled: bool, stackId: StackId)
    requires newSize > 0
    ensures var (after, events) :=
        ReallocationRecorded(sampling, s, oldAddress, newAddress, newSize, sampled, stackId);
      var (rest, freed) := DeallocationRecorded(sampling, s, oldAddress);
      var (both, made) := AllocationRecorded(rest, newAddress, newSize, sampled, stackId);
      if s.enabled && oldAddress in s.index then after == both && events == freed + made
      else
        && after == s.(allocations := rest.allocations[newAddress := newSize])
        && events == if s.enabled && !sampling then [DroppedEvent(2)] else []
  {
    T.ReallocationIsFreeThenAllocation(
      s.index, oldAddress, SizeOf(s.allocations, oldAddress), newAddress, newSize, sampled, stackId, sampling);
  }

  /** `clear`: the tracer's reset, then the shim's. */
  function Cleared(s: State): State {
    s.(allocations := map[], index := map[])
  }

  /** The shim of one thread's calls; the result of a call is what it enqueues. */
  class ShimState {
    const tracer: TracerIndex
    var allocations: Blocks
    var enabled: bool
    var inTracer: bool

    ghost function Abstract(): State
      reads this, tracer
    {
      State(allocations, tracer.index, enabled)
    }

    constructor (tracer: TracerIndex, enabled: bool)
      ensures this.tracer == tracer && allocations == map[] && this.enabled == enabled && !inTracer
    {
      this.tracer := tracer;
      this.enabled := enabled;
      allocations := map[];
      inTracer := false;
    }

    method RecordAllocation(address: U64, size: U64, sampled: bool, stackId: StackId) returns (events: Batch)
      modifies this, tracer
      ensures inTracer == old(inTracer)
      ensures old(inTracer) ==> Abstract() == old(Abstract()) && events == []
      ensures !old(inTracer) ==>
        (Abstract(), events) == AllocationRecorded(old(Abstract()), address, size, sampled, stackId)
    {
      events := [];
      if size == 0 || inTracer {
        return;
      }
      inTracer := true;
      if enabled {
        var hot := tracer.PrepareHotEvent(Allocation, address, size, sampled, stackId);
        events := HotEvents(hot);
        allocations := allocations[address := size];
      }
      inTracer := false;
    }

    method RecordDeallocation(address: U64) returns (events: Batch)
      modifies this, tracer
      ensures inTracer == old(inTracer)
      ensures old(inTracer) ==> Abstract() == old(Abstract()) && events == []
      ensures !old(inTracer) ==> (Abstract(), events) == DeallocationRecorded(tracer.sampling, old(Abstract()), address)
    {
      events := [];
      if inTracer {
        return;
      }
      inTracer := true;
      var size := SizeOf(allocations, address);
      allocations := Without(allocations, address);
      if enabled {
        var hot := tracer.PrepareHotEvent(Deallocation, address, size, false, 0);
        events := HotEvents(hot);
      }
      inTracer := false;
    }

    method RecordReallocation(
      oldAddress: U64, newAddress: U64, newSize: U64, sampled: bool, stackId: StackId)
      returns (events: Batch)
      modifies this, tracer
      ensures inTracer == old(inTracer)
      ensures old(inTracer) ==> Abstract() == old(Abstract()) && events == []
      ensures !old(inTracer) ==> ((Abstract(), events)
        == ReallocationRecorded(tracer.sampling, old(Abstract()), oldAddress, newAddress, newSize, sampled, stackId))
    {
      events := [];
      if inTracer {
        return;
      }
      inTracer := true;
      var oldSize := SizeOf(allocations, oldAddress);
      if enabled {
        var p := tracer.PrepareReallocation(oldAddress, oldSize, newAddress, newSize, sampled, stackId);
        events := ReallocationEvents(p);
      }
      allocations := Without(allocations, oldAddress);
      if newSize > 0 {
        allocations := allocations[newAddress := newSize];
      }
      inTracer := false;
    }

    method ClearAllocations()
      modifies this
      ensures allocations == map[] && enabled == old(enabled) && inTracer == old(inTracer)
    {
      allocations := map[];
    }
  }

  // The program's heap, and runs.

  /**
   * What the program and its user do. `seen` is false for a call made while the thread is already inside the
   * shim: the heap changes, and the shim ignores it.
   */
  datatype Op =
    | Malloc(address: U64, size: U64, sampled: bool, stackId: StackId, seen: bool)
    | Free(address: U64, seen: bool)
    | Realloc(address: U64, newAddress: U64, newSize: U64, sampled: bool, stackId: StackId, seen: bool)
    | Enable
    | Disable
    | Clear

  /** `heap` holds the true size of every live block; `emitted` the events enqueued since the last reset. */
  datatype World = World(heap: Blocks, shim: State, emitted: Batch)

  /** What an allocator promises: blocks in use are not handed out again, and only blocks in use come back. */
  predicate Legal(w: World, op: Op) {
    match op
    case Malloc(address, _, _, _, _) => address !in w.heap
    case Free(address, _) => address in w.heap
    case Realloc(address, newAddress, newSize, _, _, _) =>
      address in w.heap && newSize > 0 && (newAddress == address || newAddress !in w.heap)
    case _ => true
  }

  function HeapAfter(heap: Blocks, op: Op): Blocks {
    match op
    case Malloc(address, size, _, _, _) => heap[address := size]
    case Free(address, _) => Without(heap, address)
    case Realloc(address, newAddress, newSize, _, _, _) => Without(heap, address)[newAddress := newSize]
    case _ => heap
  }

  function Shimmed(sampling: bool, s: State, op: Op): (State, Batch) {
    match op
    case Malloc(address, size, sampled, stackId, seen) =>
      if seen then AllocationRecorded(s, address, size, sampled, stackId) else (s, [])
    case Free(address, seen) => if seen then DeallocationRecorded(sampling, s, address) else (s, [])
    case Realloc(address, newAddress, newSize, sampled, stackId, seen) =>
      if seen then ReallocationRecorded(sampling, s, address, newAddress, newSize, sampled, stackId) else (s, [])
    case Enable => (s.(enabled := true), [])
    case Disable => (s.(enabled := false), [])
    case Clear => (Cleared(s), [])
  }

  function Done(sampling: bool, w: World, op: Op): World {
    var (shim, events) := Shimmed(sampling, w.shim, op);
    World(HeapAfter(w.heap, op), shim, if op.Clear? then [] else w.emitted + events)
  }

  function DoneAll(sampling: bool, w: World, ops: seq<Op>): World {
    if |ops| == 0 then w else Done(sampling, DoneAll(sampling, w, ops[..|ops| - 1]), ops[|ops| - 1])
  }

  /** The index is a sub-map of the shim's map, with equal sizes, and that of the heap. */
  ghost predicate Agree(w: World) {
    && (forall a :: a in w.shim.index ==>
          a in w.shim.allocations && w.shim.allocations[a] == w.shim.index[a].size)
    && (forall a :: a in w.shim.allocations ==>
          a in w.heap && w.heap[a] == w.shim.allocations[a] && w.heap[a] > 0)
  }

  /**
   * What a call must not do: free or resize a block the shim's map holds without the shim seeing it, or one the
   * index holds while the tracer is disabled. Resizing in place to the same size does no harm.
   */
  predicate Undisturbed(s: State, op: Op) {
    match op
    case Free(address, seen) =>
      if !seen then address !in s.allocations else !s.enabled ==> address !in s.index
    case Realloc(address, newAddress, newSize, _, _, seen) =>
      if !seen then address in s.allocations ==> newAddress == address && newSize == s.allocations[address]
      else !s.enabled && address in s.index ==> newAddress == address && newSize == s.index[address].size
    case _ => true
  }

  lemma ReallocAgreesIff(sampling: bool, w: World, op: Op)
    requires Agree(w) && Legal(w, op) && op.Realloc?
    ensures Agree(Done(sampling, w, op)) <==> Undisturbed(w.shim, op)
  {
    hide HotEvents, ReallocationEvents;
    var w' := Done(sampling, w, op);
    if !Undisturbed(w.shim, op) {
      assert op.address in w.shim.allocations && op.address in w.heap;
      assert op.address in w'.shim.allocations || op.address in w'.shim.index;
    }
  }

  /** Exactly when a step keeps the agreement of index, map and heap. */
  lemma StepAgreesIff(sampling: bool, w: World, op: Op)
    requires Agree(w) && Legal(w, op)
    ensures Agree(Done(sampling, w, op)) <==> Undisturbed(w.shim, op)
  {
    hide HotEvents, ReallocationEvents;
    if op.Realloc? {
      ReallocAgreesIff(sampling, w, op);
    } else if !Undisturbed(w.shim, op) {
      var w' := Done(sampling, w, op);
      assert op.address in w.shim.allocations && op.address in w.heap;
      assert op.address in w'.shim.allocations || op.address in w'.shim.index;
    }
  }

  /** A run of legal steps, each undisturbed. */
  ghost predicate Calm(sampling: bool, w: World, ops: seq<Op>) {
    forall i :: 0 <= i < |ops| ==> CalmStep(DoneAll(sampling, w, ops[..i]), ops[i])
  }

  ghost predicate CalmStep(w: World, op: Op) {
    Legal(w, op) && Undisturbed(w.shim, op)
  }

  lemma CalmPrefix(sampling: bool, w: World, ops: seq<Op>)
    requires |ops| > 0 && Calm(sampling, w, ops)
    ensures Calm(sampling, w, ops[..|ops| - 1])
    ensures CalmStep(DoneAll(sampling, w, ops[..|ops| - 1]), ops[|ops| - 1])
  {
    var most := ops[..|ops| - 1];
    forall i | 0 <= i < |most| ensures CalmStep(DoneAll(sampling, w, most[..i]), most[i]) {
      assert most[..i] == ops[..i];
      assert CalmStep(DoneAll(sampling, w, ops[..i]), ops[i]);
    }
  }

  /** The shim just installed, over any heap. */
  ghost predicate Installed(w: World) {
    w.shim.allocations == map[] && w.shim.index == map[] && w.emitted == []
  }

  /** After a reset everything is as if just installed, and as enabled as before. */
  lemma ClearInstalls(sampling: bool, w: World)
    ensures var w' := Done(sampling, w, Clear);
      Installed(w') && w'.heap == w.heap && w'.shim.enabled == w.shim.enabled
  {
  }

  // What the agreement is for.

  /** Every deallocation carries the size and the stack of the allocation it ends. */
  ghost predicate FreesExact(events: Batch) {
    forall i :: 0 <= i < |events| ==> FreeExact(events[..i], events[i])
  }

  ghost predicate FreeExact(before: Batch, e: AllocationEvent) {
    e.kind.Deallocation? ==> Replay(before, e.address) == Live(Record(e.size, e.stackId))
  }

  ghost predicate Alternating(events: Batch, index: Index) {
    forall a :: Replay(events, a) == PI.Status(index, a)
  }

  /** The events are exact, alternate address by address, and add up to the index stack by stack. */
  ghost predicate Ledger(events: Batch, index: Index) {
    FreesExact(events) && Alternating(events, index) && PI.AllMatch(events, index)
  }

  lemma FreesExactSnoc(events: Batch, e: AllocationEvent)
    requires FreesExact(events) && FreeExact(events, e)
    ensures FreesExact(events + [e])
  {
    var longer := events + [e];
    forall i | 0 <= i < |longer| ensures FreeExact(longer[..i], longer[i]) {
      assert longer[..i] == events[..i];
      assert i == |events| ==> events[..i] == events;
    }
  }

  lemma AllocationKeepsLedger(events: Batch, index: Index, address: U64, r: Record)
    requires Ledger(events, index) && address !in index
    ensures Ledger(events + [AllocationOf(address, r)], index[address := r])
  {
    hide PI.AllMatch, FreesExact;
    var e := AllocationOf(address, r);
    FreesExactSnoc(events, e);
    PI.InsertKeepsLedgerIff(events, index, address, r);
    forall a ensures Replay(events + [e], a) == PI.Status(index[address := r], a) {
      assert Replay(events, a) == PI.Status(index, a);
      ReplaySnoc(events, e, a);
    }
  }

  lemma DeallocationKeepsLedger(events: Batch, index: Index, address: U64)
    requires Ledger(events, index) && address in index
    ensures Ledger(events + [DeallocationOf(address, index[address].size, index[address])], Without(index, address))
  {
    hide PI.AllMatch, FreesExact;
    var e := DeallocationOf(address, index[address].size, index[address]);
    assert Replay(events, address) == PI.Status(index, address);
    FreesExactSnoc(events, e);
    PI.RemoveKeepsLedgerIff(events, index, address, index[address].size);
    forall a ensures Replay(events + [e], a) == PI.Status(Without(index, address), a) {
      assert Replay(events, a) == PI.Status(index, a);
      ReplaySnoc(events, e, a);
    }
  }

  lemma DroppedKeepsLedger(events: Batch, index: Index, count: U64)
    requires Ledger(events, index)
    ensures Ledger(events + [DroppedEvent(count)], index)
  {
    var e := DroppedEvent(count);
    FreesExactSnoc(events, e);
    forall a ensures Replay(events + [e], a) == PI.Status(index, a) {
      assert Replay(events, a) == PI.Status(index, a);
      ReplaySnoc(events, e, a);
    }
    forall id ensures PI.BytesMatch(events + [e], index, id) && PI.CountMatches(events + [e], index, id) {
      assert PI.BytesMatch(events, index, id) && PI.CountMatches(events, index, id);
      SumSnoc(PI.SignedBytes(id), events, e);
      SumSnoc(PI.SignedCount(id), events, e);
    }
  }

  lemma StepLedger(sampling: bool, w: World, op: Op)
    requires Agree(w) && CalmStep(w, op) && Ledger(w.emitted, w.shim.index) && !op.Clear?
    ensures var w' := Done(sampling, w, op); Ledger(w'.emitted, w'.shim.index)
  {
    hide Ledger;
    assert w.emitted + [] == w.emitted;
    var index := w.shim.index;
    if w.shim.enabled && (op.Malloc? || op.Free? || op.Realloc?) && op.seen {
      match op
      case Malloc(address, size, sampled, stackId, _) =>
        AllocationKeepsLedger(w.emitted, index, address, Record(size, stackId));
      case Free(address, _) =>
        if address in index {
          DeallocationKeepsLedger(w.emitted, index, address);
        } else {
          DroppedKeepsLedger(w.emitted, index, 1);
        }
      case Realloc(address, newAddress, newSize, sampled, stackId, _) =>
        if address in index {
          DeallocationKeepsLedger(w.emitted, index, address);
          var e := DeallocationOf(address, index[address].size, index[address]);
          var rest, r := Without(index, address), Record(newSize, stackId);
          AllocationKeepsLedger(w.emitted + [e], rest, newAddress, r);
          assert w.emitted + [e] + [AllocationOf(newAddress, r)] == w.emitted + [e, AllocationOf(newAddress, r)];
        } else {
          DroppedKeepsLedger(w.emitted, index, 2);
        }
    }
  }

  /**
   * Shadow-map agreement, over every calm run with any sampling verdicts: the index is a sub-map of the shim's
   * map with equal sizes, and so of the heap; every deallocation event carries exactly the size and the stack of
   * the allocation it ends; and the events of each stack add up to its blocks in the index.
   */
  lemma {:induction false} ShimAgrees(sampling: bool, w: World, ops: seq<Op>)
    requires Installed(w) && Calm(sampling, w, ops)
    ensures var w' := DoneAll(sampling, w, ops); Agree(w') && Ledger(w'.emitted, w'.shim.index)
  {
    assert Ledger([], map[]);
    if |ops| > 0 {
      hide Ledger;
      CalmPrefix(sampling, w, ops);
      ShimAgrees(sampling, w, ops[..|ops| - 1]);
      var before := DoneAll(sampling, w, ops[..|ops| - 1]);
      StepAgreesIff(sampling, before, ops[|ops| - 1]);
      if !ops[|ops| - 1].Clear? {
        StepLedger(sampling, before, ops[|ops| - 1]);
      }
    }
  }

  /** The blocks in the index, with the sizes they have in the heap. */
  ghost function Tracked(w: World): Index
    requires Agree(w)
  {
    map a | a in w.shim.index :: Record(w.heap[a], w.shim.index[a].stackId)
  }

  /** What is reported for a stack is what its tracked blocks really occupy. */
  lemma ReportedBytesAreHeapBytes(sampling: bool, w: World, ops: seq<Op>, id: StackId)
    requires Installed(w) && Calm(sampling, w, ops)
    ensures var w' := DoneAll(sampling, w, ops);
      && Agree(w')
      && Sum(PI.SignedBytes(id), w'.emitted) == MapSum(PI.LiveBytes(id), Tracked(w'))
      && Sum(PI.SignedCount(id), w'.emitted) == MapSum(PI.LiveCount(id), Tracked(w'))
  {
    ShimAgrees(sampling, w, ops);
    var w' := DoneAll(sampling, w, ops);
    assert Tracked(w') == w'.shim.index;
    assert PI.BytesMatch(w'.emitted, w'.shim.index, id) && PI.CountMatches(w'.emitted, w'.shim.index, id);
  }

  /** And so is what the aggregate shows once these events are ingested, while its counters stay in range. */
  lemma AggregateShowsHeapBytes(sampling: bool, w: World, ops: seq<Op>, id: StackId)
    requires Installed(w) && Calm(sampling, w, ops)
    requires var events := DoneAll(sampling, w, ops).emitted;
      && PI.Convertible(events) && BytesInRange(events, id)
      && Sum(Allocs(id), events) <= U64_MAX && Sum(Frees(id), events) <= U64_MAX
    ensures var w' := DoneAll(sampling, w, ops);
      var r := StatsOf(IngestedAll(EMPTY, w'.emitted), id);
      && Agree(w')
      && r.currentBytes == MapSum(PI.LiveBytes(id), Tracked(w'))
      && r.allocations - r.deallocations == MapSum(PI.LiveCount(id), Tracked(w'))
  {
    hide IngestedAll, Sum, MapSum;
    ReportedBytesAreHeapBytes(sampling, w, ops, id);
    PI.IngestedBytesAndCounts(DoneAll(sampling, w, ops).emitted, id);
  }

  /**
   * So the shim keeps to its side of the pipeline's ledger: it passes the size that the index records, and the
   * addresses it inserts are fresh.
   */
  lemma ShimCallsAreTame(sampling: bool, w: World, ops: seq<Op>, op: Op, p: P.State, agent: nat)
    requires Installed(w) && Calm(sampling, w, ops) && Legal(DoneAll(sampling, w, ops), op)
    requires p.index == DoneAll(sampling, w, ops).shim.index
    ensures var s := DoneAll(sampling, w, ops).shim;
      match op
      case Malloc(address, size, sampled, stackId, _) =>
        PI.Fresh(p, P.Allocate(agent, address, size, sampled, stackId))
      case Free(address, _) => PI.Sized(p, P.Deallocate(agent, address, SizeOf(s.allocations, address)))
      case Realloc(address, newAddress, newSize, sampled, _, _) =>
        && PI.Sized(
             p, P.ReallocRemove(agent, address, SizeOf(s.allocations, address), newAddress, newSize, sampled))
        && newAddress !in Without(p.index, address)
      case _ => true
  {
    hide Ledger;
    ShimAgrees(sampling, w, ops);
  }

  // What is tracked and what is remembered.

  /** The block that an allocation or a reallocation has made. */
  function Made(op: Op): U64
    requires op.Malloc? || op.Realloc?
  {
    if op.Malloc? then op.address else op.newAddress
  }

  predicate LeavesAlone(op: Op, address: U64) {
    match op
    case Malloc(made, _, _, _, _) => made != address
    case Free(freed, _) => freed != address
    case Realloc(freed, made, _, _, _, _) => freed != address && made != address
    case Clear => false
    case _ => true
  }

  /** Under what size and stack the call means to track the block it makes. */
  function MeantRecord(s: State, op: Op): Option<Record>
    requires op.Malloc? || op.Realloc?
  {
    match op
    case Malloc(_, size, sampled, stackId, _) =>
      if size > 0 && sampled then Some(Record(size, stackId)) else None
    case Realloc(address, _, newSize, sampled, stackId, _) =>
      if address in s.index && sampled then Some(Record(newSize, stackId)) else None
  }

  lemma StepTracks(sampling: bool, w: World, op: Op)
    requires Agree(w) && Legal(w, op) && (op.Malloc? || op.Realloc?) && op.seen && w.shim.enabled
    ensures Lookup(Done(sampling, w, op).shim.index, Made(op)) == MeantRecord(w.shim, op)
  {
  }

  lemma StepLeavesAlone(sampling: bool, w: World, op: Op, address: U64)
    requires LeavesAlone(op, address)
    ensures Lookup(Done(sampling, w, op).shim.index, address) == Lookup(w.shim.index, address)
  {
  }

  /**
   * A block is tracked as the call that made it was seen: over every calm run, with exactly the size and the stack
   * of that call, if it was sampled and had any bytes, and not at all otherwise, until the block is touched again.
   */
  lemma {:induction false} BlockIsTrackedAsMade(sampling: bool, w: World, ops: seq<Op>, i: nat)
    requires Installed(w) && Calm(sampling, w, ops)
    requires i < |ops| && (ops[i].Malloc? || ops[i].Realloc?) && ops[i].seen
    requires DoneAll(sampling, w, ops[..i]).shim.enabled
    requires forall j :: i < j < |ops| ==> LeavesAlone(ops[j], Made(ops[i]))
    ensures Lookup(DoneAll(sampling, w, ops).shim.index, Made(ops[i]))
      == MeantRecord(DoneAll(sampling, w, ops[..i]).shim, ops[i])
  {
    hide Agree, Ledger, Legal, Undisturbed, LeavesAlone, Made, MeantRecord, Done;
    var n := |ops| - 1;
    CalmPrefix(sampling, w, ops);
    if i == n {
      ShimAgrees(sampling, w, ops[..n]);
      StepTracks(sampling, DoneAll(sampling, w, ops[..n]), ops[n]);
    } else {
      assert ops[..n][..i] == ops[..i];
      BlockIsTrackedAsMade(sampling, w, ops[..n], i);
      StepLeavesAlone(sampling, DoneAll(sampling, w, ops[..n]), ops[n], Made(ops[i]));
    }
  }

  /** The size map holds every block with any bytes in it. */
  ghost predicate Remembered(w: World) {
    forall a :: a in w.heap && w.heap[a] > 0 ==> a in w.shim.allocations
  }

  /** A call that leaves no block of the heap unremembered. */
  ghost predicate Remembering(w: World, op: Op) {
    match op
    case Malloc(_, size, _, _, seen) => size == 0 || (seen && w.shim.enabled)
    case Realloc(address, newAddress, _, _, _, seen) => seen || (newAddress == address && address in w.shim.allocations)
    case Clear => forall a :: a in w.heap ==> w.heap[a] == 0
    case _ => true
  }

  /**
   * Exactly when a step keeps the whole heap in the size map, whatever is sampled: an allocation must be seen while
   * the tracer is enabled, a reallocation only be seen.
   */
  lemma StepRemembersIff(sampling: bool, w: World, op: Op)
    requires Agree(w) && Remembered(w) && Legal(w, op)
    ensures Remembered(Done(sampling, w, op)) <==> Remembering(w, op)
  {
    var w' := Done(sampling, w, op);
    match op
    case Malloc(address, _, _, _, _) => assert address in w'.heap;
    case Realloc(address, newAddress, _, _, _, _) => assert newAddress in w'.heap;
    case Clear =>
    case _ =>
  }

  // How much of the heap is tracked.

  /** Every block with any bytes in it is in the index. */
  ghost predicate Complete(w: World) {
    forall a :: a in w.heap && w.heap[a] > 0 ==> a in w.shim.index
  }

  /** A call that leaves no block of the heap untracked. */
  ghost predicate Covering(w: World, op: Op) {
    var s := w.shim;
    match op
    case Malloc(_, size, sampled, _, seen) => size == 0 || (seen && s.enabled && sampled)
    case Realloc(address, newAddress, _, sampled, _, seen) =>
      address in s.index && if seen && s.enabled then sampled else newAddress == address
    case Clear => forall a :: a in w.heap ==> w.heap[a] == 0
    case _ => true
  }

  /**
   * Exactly when a step keeps the whole heap tracked. A block that was unknown when it was resized stays
   * untracked, though the shim's map holds it from then on: that is why the index is only a sub-map. A block
   * allocated with size 0 is such a block.
   */
  lemma StepCompleteIff(sampling: bool, w: World, op: Op)
    requires Agree(w) && Complete(w) && Legal(w, op)
    ensures Complete(Done(sampling, w, op)) <==> Covering(w, op)
  {
    var w' := Done(sampling, w, op);
    match op
    case Malloc(address, _, _, _, _) => assert address in w'.heap;
    case Realloc(address, newAddress, _, _, _, _) => assert newAddress in w'.heap;
    case Clear =>
    case _ =>
  }

  /** With the whole heap tracked, the index holds all of its bytes. */
  lemma {:induction false} CompleteIndexHoldsTheHeap(index: Index, heap: Blocks)
    requires forall a :: a in index ==> a in heap && heap[a] == index[a].size
    requires forall a :: a in heap && heap[a] > 0 ==> a in index
    ensures MapSum((r: Record) => r.size, index) == MapSum((x: U64) => x, heap)
    decreases |heap|
  {
    if heap == map[] {
      assert index == map[];
    } else {
      var a :| a in heap;
      MapSumRemove((x: U64) => x, heap, a);
      if a in index {
        MapSumRemove((r: Record) => r.size, index, a);
        CompleteIndexHoldsTheHeap(Without(index, a), Without(heap, a));
      } else {
        CompleteIndexHoldsTheHeap(index, Without(heap, a));
      }
    }
  }

  // What goes wrong when the tracer is disabled in between.

  /**
   * A block of 10 bytes is freed while the tracer is disabled; the address comes back with 20 bytes, unsampled.
   * Its deallocation is then reported with 20 bytes on the stack of the first block.
   */
  lemma DisabledFreeMisreports()
    ensures var ops := [Malloc(1, 10, true, 7, true), Disable, Free(1, true), Enable,
                        Malloc(1, 20, false, 8, true), Free(1, true)];
      var w := DoneAll(true, World(map[], State(map[], map[], true), []), ops);
      && w.emitted == [AllocationEvent(Allocation, 1, 10, 7), AllocationEvent(Deallocation, 1, 20, 7)]
      && Sum(PI.SignedBytes(7), w.emitted) == -10
  {
    var w0 := World(map[], State(map[], map[], true), []);
    var ops := [Malloc(1, 10, true, 7, true), Disable, Free(1, true), Enable,
                Malloc(1, 20, false, 8, true), Free(1, true)];
    var e, f := AllocationEvent(Allocation, 1, 10, 7), AllocationEvent(Deallocation, 1, 20, 7);
    SumOne(PI.SignedBytes(7), e);
    SumSnoc(PI.SignedBytes(7), [e], f);
    assert [e] + [f] == [e, f];
    Unfolded(true, w0, ops, 1);
    Unfolded(true, w0, ops, 2);
    Unfolded(true, w0, ops, 3);
    Unfolded(true, w0, ops, 4);
    Unfolded(true, w0, ops, 5);
    Unfolded(true, w0, ops, 6);
    assert ops[..0] == [] && ops[..6] == ops;
  }

  /** A block of no bytes is grown to 20, everything seen, enabled and sampled: it is remembered but not tracked. */
  lemma GrownFromNothingIsUntracked()
    ensures var ops := [Malloc(1, 0, true, 7, true), Realloc(1, 1, 20, true, 7, true)];
      var w := DoneAll(false, World(map[], State(map[], map[], true), []), ops);
      && Calm(false, World(map[], State(map[], map[], true), []), ops)
      && w.heap == map[1 := 20] && w.shim.allocations == map[1 := 20] && w.shim.index == map[]
      && w.emitted == [DroppedEvent(2)]
  {
    var w0 := World(map[], State(map[], map[], true), []);
    var ops := [Malloc(1, 0, true, 7, true), Realloc(1, 1, 20, true, 7, true)];
    Unfolded(false, w0, ops, 1);
    Unfolded(false, w0, ops, 2);
    assert ops[..0] == [] && ops[..2] == ops;
  }

  lemma Unfolded(sampling: bool, w: World, ops: seq<Op>, n: nat)
    requires 0 < n <= |ops|
    ensures DoneAll(sampling, w, ops[..n]) == Done(sampling, DoneAll(sampling, w, ops[..n - 1]), ops[n - 1])
  {
    assert ops[..n][..n - 1] == ops[..n - 1];
  }
}
