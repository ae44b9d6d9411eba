/** The index of live allocations and the events drawn from it (`src/state.rs`, `prepare_*`). */
module Tracing {
  import opened Words
  import opened Events

  datatype Record = Record(size: U64, stackId: StackId)

  type Index = map<U64, Record>

  datatype HotEvent = Missing | Sampled(event: AllocationEvent) | Skipped

  datatype PreparedReallocation =
    | Events(allocation: Option<AllocationEvent>, deallocation: AllocationEvent)
    | MissingBoth
    | SkippedBoth

  function AllocationOf(address: U64, r: Record): AllocationEvent {
    AllocationEvent(Allocation, address, r.size, r.stackId)
  }

  /** A caller that does not know the size passes 0 and gets the recorded one. */
  function DeallocationOf(address: U64, size: U64, r: Record): AllocationEvent {
    AllocationEvent(Deallocation, address, if size == 0 then r.size else size, r.stackId)
  }

  /**
   * The allocation branch of `prepare_hot_event`. `sampled` is the sampler's verdict and `stackId` the id of the
   * captured stack.
   */
  function PreparedAllocation(index: Index, address: U64, size: U64, sampled: bool, stackId: StackId):
    (Index, HotEvent)
  {
    if !sampled then (index, Skipped)
    else (index[address := Record(size, stackId)], Sampled(AllocationOf(address, Record(size, stackId))))
  }

  /** The deallocation branch. `sampling` says whether any sampling is configured. */
  function PreparedDeallocation(index: Index, address: U64, size: U64, sampling: bool): (Index, HotEvent) {
    if address !in index then (index, if sampling then Skipped else Missing)
    else (Without(index, address), Sampled(DeallocationOf(address, size, index[address])))
  }

  function Reallocated(
    index: Index, oldAddress: U64, oldSize: U64, newAddress: U64, newSize: U64, sampled: bool, stackId: StackId,
    sampling: bool): (Index, PreparedReallocation)
  {
    if oldAddress !in index then (index, if sampling then SkippedBoth else MissingBoth)
    else
      var rest := Without(index, oldAddress);
      var dealloc := DeallocationOf(oldAddress, oldSize, index[oldAddress]);
      if newSize == 0 || !sampled then (rest, Events(None, dealloc))
      else
        var r := Record(newSize, stackId);
        (rest[newAddress := r], Events(Some(AllocationOf(newAddress, r)), dealloc))
  }

  // What `record_*` enqueues.

  /** What `record_*` hands to `enqueue_event`, in order. */
  function HotEvents(h: HotEvent): Batch {
    match h
    case Sampled(event) => [event]
    case Skipped => []
    case Missing => [DroppedEvent(1)]
  }

  function ReallocationEvents(p: PreparedReallocation): Batch {
    match p
    case Events(None, deallocation) => [deallocation]
    case Events(Some(allocation), deallocation) => [deallocation, allocation]
    case SkippedBoth => []
    case MissingBoth => [DroppedEvent(2)]
  }

  /**
   * A reallocation of a tracked block is its deallocation followed by the allocation of the new one, which is not
   * recorded if it has no bytes or is not sampled. One of an unknown block misses both.
   */
  lemma ReallocationIsFreeThenAllocation(
    index: Index, oldAddress: U64, oldSize: U64, newAddress: U64, newSize: U64, sampled: bool, stackId: StackId,
    sampling: bool)
    ensures var (after, p) :=
        Reallocated(index, oldAddress, oldSize, newAddress, newSize, sampled, stackId, sampling);
      var (rest, freed) := PreparedDeallocation(index, oldAddress, oldSize, sampling);
      var (both, made) := PreparedAllocation(rest, newAddress, newSize, newSize > 0 && sampled, stackId);
      if oldAddress in index then after == both && ReallocationEvents(p) == HotEvents(freed) + HotEvents(made)
      else after == index && ReallocationEvents(p) == if sampling then [] else [DroppedEvent(2)]
  {
  }

  class TracerIndex {
    const sampling: bool
    var index: Index

    constructor (sampling: bool)
      ensures this.sampling == sampling && index == map[]
    {
      this.sampling := sampling;
      index := map[];
    }

    method PrepareHotEvent(kind: EventKind, address: U64, size: U64, sampled: bool, stackId: StackId)
      returns (hot: HotEvent)
      modifies this
      ensures kind == Allocation ==> (index, hot) == PreparedAllocation(old(index), address, size, sampled, stackId)
      ensures kind == Deallocation ==> (index, hot) == PreparedDeallocation(old(index), address, size, sampling)
      ensures kind.Dropped? ==> (index, hot) == (old(index), Skipped)
    {
      match kind {
        case Allocation =>
          if !sampled {
            return Skipped;
          }
          index := index[address := Record(size, stackId)];
          hot := Sampled(AllocationEvent(kind, address, size, stackId));
        case Deallocation =>
          if address !in index {
            return if sampling then Skipped else Missing;
          }
          var record := index[address];
          index := Without(index, address);
          hot := Sampled(AllocationEvent(kind, address, if size == 0 then record.size else size, record.stackId));
        case Dropped(_) =>
          hot := Skipped;
      }
    }

    method PrepareReallocation(
      oldAddress: U64, oldSize: U64, newAddress: U64, newSize: U64, sampled: bool, stackId: StackId)
      returns (p: PreparedReallocation)
      modifies this
      ensures (index, p)
        == Reallocated(old(index), oldAddress, oldSize, newAddress, newSize, sampled, stackId, sampling)
    {
      if oldAddress !in index {
        return if sampling then SkippedBoth else MissingBoth;
      }
      var record := index[oldAddress];
      index := Without(index, oldAddress);
      var recordedOldSize := if oldSize == 0 then record.size else oldSize;
      var dealloc := AllocationEvent(Deallocation, oldAddress, recordedOldSize, record.stackId);
      if newSize == 0 || !sampled {
        return Events(None, dealloc);
      }
      index := index[newAddress := Record(newSize, stackId)];
      p := Events(Some(AllocationEvent(Allocation, newAddress, newSize, stackId)), dealloc);
    }

    method Clear()
      modifies this
      ensures index == map[]
    {
      index := map[];
    }
  }

  // The history of one address.

  /** What the events of one address add up to: nothing live, one live record, or events out of turn. */
  datatype History = Dead | Live(record: Record) | Broken

  ghost function Advanced(h: History, e: AllocationEvent, address: U64): History {
    if e.address != address || e.kind.Dropped? then h
    else
      match (h, e.kind)
      case (Dead, Allocation) => Live(Record(e.size, e.stackId))
      case (Live(r), Deallocation) => if e.stackId == r.stackId then Dead else Broken
      case _ => Broken
  }

  /**
   * Replays the events of one address. The result is not `Broken` exactly when they alternate, starting with an
   * allocation, and each deallocation carries the stack of the allocation before it.
   */
  ghost function Replay(events: Batch, address: U64): History {
    if |events| == 0 then Dead else Advanced(Replay(events[..|events| - 1], address), events[|events| - 1], address)
  }

  lemma ReplaySnoc(events: Batch, e: AllocationEvent, address: U64)
    ensures Replay(events + [e], address) == Advanced(Replay(events, address), e, address)
  {
    assert (events + [e])[..|events|] == events;
  }
}
