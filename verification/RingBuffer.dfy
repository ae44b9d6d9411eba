/** The bounded per-thread event buffer (`src/ring_buffer.rs`). */
module RingBuffer {
  import opened Words
  import opened Events

  datatype DrainAction = FlushPending | Noop

  /** The number of slots for a byte budget; a budget below one event falls back to 1024 slots. */
  function MaxEvents(ringBufferBytes: U64, eventSize: U64): (slots: U64)
    ensures slots > 0
  {
    var n := ringBufferBytes / Max(eventSize, 1);
    if n == 0 then 1024 else n
  }

  lemma Quotient(x: nat, d: nat)
    requires d > 0
    ensures (x / d) * d <= x < (x / d + 1) * d
    ensures x / d == 0 <==> x < d
  {
    assert x == (x / d) * d + x % d;
    assert (x / d + 1) * d == (x / d) * d + d;
  }

  /** The slots fill the budget: one more event would not fit into it. */
  lemma SlotsFillBudget(ringBufferBytes: U64, eventSize: U64)
    ensures var c := ConfiguredRing(ringBufferBytes, eventSize).capacity;
      if ringBufferBytes < Max(eventSize, 1) then c == 1024
      else c * Max(eventSize, 1) <= ringBufferBytes < (c + 1) * Max(eventSize, 1)
  {
    Quotient(ringBufferBytes, Max(eventSize, 1));
  }

  function FlushThreshold(maxEvents: U64): U64 {
    Max(SaturatingSub(maxEvents, maxEvents / 4), 1)
  }

  /** The abstract value of a buffer: the `ArrayQueue` contents, oldest first, and the drop counter. */
  datatype Ring = Ring(capacity: U64, flushThreshold: U64, queue: seq<AllocationEvent>, dropped: U64)
  {
    ghost predicate Valid() {
      1 <= flushThreshold <= capacity && |queue| <= capacity
    }
  }

  function NewRing(capacity: U64, flushThreshold: U64): (r: Ring)
    ensures r.Valid()
  {
    var c := Max(capacity, 1);
    Ring(c, Max(Min(flushThreshold, c), 1), [], 0)
  }

  /** The buffer `ThreadBuffer::new` creates for a configuration. */
  function ConfiguredRing(ringBufferBytes: U64, eventSize: U64): (r: Ring)
    ensures r.Valid()
  {
    var n := MaxEvents(ringBufferBytes, eventSize);
    NewRing(n, FlushThreshold(n))
  }

  function Recorded(r: Ring, event: AllocationEvent): (Ring, DrainAction) {
    if |r.queue| < r.capacity then
      var q := r.queue + [event];
      (r.(queue := q), if |q| >= r.flushThreshold then FlushPending else Noop)
    else
      (r.(dropped := WrappingAdd(r.dropped, 1)), FlushPending)
  }

  /** A burst: pushes with no drain in between, and the action returned by each. */
  function RecordedAll(r: Ring, events: seq<AllocationEvent>): (Ring, seq<DrainAction>) {
    if |events| == 0 then (r, [])
    else
      var (before, actions) := RecordedAll(r, events[..|events| - 1]);
      var (after, action) := Recorded(before, events[|events| - 1]);
      (after, actions + [action])
  }

  /** What a drain takes from one buffer: its queue, then a report of what it turned away. */
  function Contribution(queue: Batch, dropped: U64): Batch {
    queue + if dropped > 0 then [DroppedEvent(dropped)] else []
  }

  /** A registered buffer as a drain finds it; `live` says whether a thread still holds it. */
  datatype Source = Source(queue: Batch, dropped: U64, live: bool)

  function TakenFrom(source: Source): Batch {
    if source.live then Contribution(source.queue, source.dropped) else []
  }

  /** The batch a drain gathers from all registered buffers, in registry order. */
  function Gathered(sources: seq<Source>): Batch {
    if |sources| == 0 then []
    else Gathered(sources[..|sources| - 1]) + TakenFrom(sources[|sources| - 1])
  }

  lemma GatheredSnoc(sources: seq<Source>, x: Source)
    ensures Gathered(sources + [x]) == Gathered(sources) + TakenFrom(x)
  {
    assert (sources + [x])[..|sources|] == sources;
  }

  lemma GatheredMore(sources: seq<Source>, n: nat)
    requires n < |sources|
    ensures Gathered(sources[..n + 1]) == Gathered(sources[..n]) + TakenFrom(sources[n])
  {
    assert sources[..n + 1][..n] == sources[..n];
  }

  lemma {:induction false} GatheredHead(sources: seq<Source>)
    requires |sources| > 0
    ensures Gathered(sources) == TakenFrom(sources[0]) + Gathered(sources[1..])
  {
    hide TakenFrom;
    var n := |sources| - 1;
    if n == 0 {
      assert sources[..0] == [] && sources[1..] == [];
    } else {
      GatheredHead(sources[..n]);
      assert sources[..n][1..] == sources[1..][..n - 1];
    }
  }

  class ThreadBufferInner {
    const capacity: U64
    const flushThreshold: U64
    var queue: seq<AllocationEvent>
    var dropped: U64

    ghost predicate Valid()
      reads this
    {
      State().Valid()
    }

    ghost function State(): Ring
      reads this
    {
      Ring(capacity, flushThreshold, queue, dropped)
    }

    constructor (ringBufferBytes: U64, eventSize: U64)
      ensures Valid() && State() == ConfiguredRing(ringBufferBytes, eventSize)
      ensures if ringBufferBytes < Max(eventSize, 1) then capacity == 1024
        else capacity * Max(eventSize, 1) <= ringBufferBytes < (capacity + 1) * Max(eventSize, 1)
    {
      SlotsFillBudget(ringBufferBytes, eventSize);
      var maxEvents := MaxEvents(ringBufferBytes, eventSize);
      var threshold := FlushThreshold(maxEvents);
      capacity := Max(maxEvents, 1);
      flushThreshold := Max(Min(threshold, Max(maxEvents, 1)), 1);
      queue := [];
      dropped := 0;
    }

    method Record(event: AllocationEvent) returns (action: DrainAction)
      requires Valid()
      modifies this
      ensures Valid() && (State(), action) == Recorded(old(State()), event)
    {
      if |queue| < capacity {
        queue := queue + [event];
        action := if |queue| >= flushThreshold then FlushPending else Noop;
      } else {
        dropped := WrappingAdd(dropped, 1);
        action := FlushPending;
      }
    }

    /** Pops until the queue is empty, then takes the drop counter. */
    method DrainInto(output: seq<AllocationEvent>) returns (filled: seq<AllocationEvent>, lost: U64)
      requires Valid()
      modifies this
      ensures Valid() && filled == output + old(queue) && lost == old(dropped)
      ensures State() == old(State()).(queue := [], dropped := 0)
    {
      filled := output;
      while |queue| > 0
        invariant |queue| <= capacity && dropped == old(dropped)
        invariant filled + queue == output + old(queue)
        decreases |queue|
      {
        filled := filled + [queue[0]];
        queue := queue[1..];
      }
      lost := dropped;
      dropped := 0;
    }
  }

  /** For every configuration, a flush is first requested when a quarter of the slots, rounded down, is left. */
  lemma ThresholdLeavesAQuarter(ringBufferBytes: U64, eventSize: U64)
    ensures var r := ConfiguredRing(ringBufferBytes, eventSize);
      r.flushThreshold == r.capacity - r.capacity / 4 && r.queue == [] && r.dropped == 0
  {
    assert forall n: int :: n >= 1 ==> n - n / 4 >= 1;
  }

  /**
   * The burst law: a full buffer keeps the oldest events, counts every other push as a drop, and asks for a
   * flush from the threshold on, hence before the first push that is turned away.
   */
  lemma {:induction false} BurstLaw(r: Ring, events: seq<AllocationEvent>)
    requires r.Valid()
    ensures var (after, actions) := RecordedAll(r, events);
      && after.Valid()
      && after.queue == (r.queue + events)[..Min(r.capacity, |r.queue| + |events|)]
      && after.dropped == WrappingAdd(r.dropped, Max(0, |r.queue| + |events| - r.capacity))
      && |actions| == |events|
      && (forall i :: 0 <= i < |events| ==>
            (actions[i] == FlushPending <==> |r.queue| + i + 1 >= r.flushThreshold))
      && after.capacity == r.capacity && after.flushThreshold == r.flushThreshold
  {
    if |events| == 0 {
      assert r.queue + events == r.queue;
    } else {
      var n := |events| - 1;
      var (before, actions) := RecordedAll(r, events[..n]);
      BurstLaw(r, events[..n]);
      if |r.queue| + n < r.capacity {
        assert before.queue == r.queue + events[..n];
        assert before.queue + [events[n]] == r.queue + events;
        assert (r.queue + events)[..|r.queue| + |events|] == r.queue + events;
      } else {
        WrappingAddSucc(r.dropped, |r.queue| + n - r.capacity);
        assert (r.queue + events)[..r.capacity] == (r.queue + events[..n])[..r.capacity];
      }
    }
  }

  /** From an empty configured buffer: the first flush request comes with exactly a quarter of the slots free. */
  lemma FirstFlushRequest(ringBufferBytes: U64, eventSize: U64, events: seq<AllocationEvent>, i: nat)
    requires i < |events|
    ensures var r := ConfiguredRing(ringBufferBytes, eventSize);
      |RecordedAll(r, events).1| == |events|
    ensures var r := ConfiguredRing(ringBufferBytes, eventSize);
      var (before, _) := RecordedAll(r, events[..i]);
      var (_, actions) := RecordedAll(r, events);
      && (actions[i] == FlushPending <==> i + 1 >= r.capacity - r.capacity / 4)
      && (|before.queue| == r.capacity ==> exists j :: 0 <= j < i && actions[j] == FlushPending)
  {
    var r := ConfiguredRing(ringBufferBytes, eventSize);
    ThresholdLeavesAQuarter(ringBufferBytes, eventSize);
    BurstLaw(r, events[..i]);
    BurstLaw(r, events);
    var (before, _) := RecordedAll(r, events[..i]);
    var (_, actions) := RecordedAll(r, events);
    if |before.queue| == r.capacity {
      assert actions[r.flushThreshold - 1] == FlushPending;
    }
  }
}
