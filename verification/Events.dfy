/** Allocation events (`src/event.rs`); the timestamp plays no part in any computation and is not modelled. */
module Events {
  import opened Words

  type StackId = U64

  datatype EventKind = Allocation | Deallocation | Dropped(count: U64)

  datatype AllocationEvent = AllocationEvent(kind: EventKind, address: U64, size: U64, stackId: StackId)

  type Batch = seq<AllocationEvent>

  /** `EventKind::Dropped { count }.into()`: every other field is zero. */
  function DroppedEvent(count: U64): AllocationEvent {
    AllocationEvent(Dropped(count), 0, 0, 0)
  }
}
