/** The tracer's own state and the calls on it that are not interleaved with others (`src/state.rs`). */
module TracerState {
  import opened Words
  import opened Sums
  import opened Events
  import opened Stacks
  import opened Snapshots
  import opened RingBuffer
  import opened Aggregation
  import opened Tracing

  /** The registered buffers as a drain finds them. */
  ghost function Sources(buffers: seq<ThreadBufferInner>, held: set<ThreadBufferInner>): (r: seq<Source>)
    reads buffers
    ensures |r| == |buffers|
    ensures forall i :: 0 <= i < |r| ==> r[i] == Source(buffers[i].queue, buffers[i].dropped, buffers[i] in held)
  {
    if |buffers| == 0 then []
    else
      var b := buffers[|buffers| - 1];
      Sources(buffers[..|buffers| - 1], held) + [Source(b.queue, b.dropped, b in held)]
  }

  function Retained(buffers: seq<ThreadBufferInner>, held: set<ThreadBufferInner>): seq<ThreadBufferInner> {
    if |buffers| == 0 then []
    else
      var n := |buffers| - 1;
      Retained(buffers[..n], held) + if buffers[n] in held then [buffers[n]] else []
  }

  ghost predicate Distinct(buffers: seq<ThreadBufferInner>) {
    forall i, j :: 0 <= i < j < |buffers| ==> buffers[i] != buffers[j]
  }

  lemma {:induction false} RetainedMember(
    buffers: seq<ThreadBufferInner>, held: set<ThreadBufferInner>, b: ThreadBufferInner)
    ensures b in Retained(buffers, held) <==> b in buffers && b in held
  {
    if |buffers| > 0 {
      RetainedMember(buffers[..|buffers| - 1], held, b);
    }
  }

  lemma RetainedMore(buffers: seq<ThreadBufferInner>, held: set<ThreadBufferInner>, n: nat)
    requires n < |buffers|
    ensures Retained(buffers[..n + 1], held)
      == Retained(buffers[..n], held) + if buffers[n] in held then [buffers[n]] else []
  {
    assert buffers[..n + 1][..n] == buffers[..n];
  }

  lemma DistinctFrom(buffers: seq<ThreadBufferInner>, i: nat)
    requires Distinct(buffers) && i < |buffers|
    ensures forall j :: 0 <= j < |buffers| && j != i ==> buffers[j] != buffers[i]
  {
  }

  lemma {:induction false} RetainedDistinct(buffers: seq<ThreadBufferInner>, held: set<ThreadBufferInner>)
    requires Distinct(buffers)
    ensures Distinct(Retained(buffers, held))
  {
    if |buffers| > 0 {
      var n := |buffers| - 1;
      RetainedDistinct(buffers[..n], held);
      assert buffers[n] !in buffers[..n];
      RetainedMember(buffers[..n], held, buffers[n]);
    }
  }

  /** A buffer emptied, as a drain leaves it. */
  function Emptied(r: Ring): Ring {
    r.(queue := [], dropped := 0)
  }

  /** What a drain does to one buffer: empties it if its thread holds it, and otherwise leaves it. */
  predicate Swept(after: Ring, before: Ring, held: bool) {
    after == if held then Emptied(before) else before
  }

  class TracerInner {
    /** Weak references; `held` says which of them can be upgraded. */
    var buffers: seq<ThreadBufferInner>
    var held: set<ThreadBufferInner>
    var pendingFlush: bool
    const aggregator: Aggregator
    const allocationIndex: TracerIndex

    ghost predicate Valid()
      reads this, buffers
    {
      Distinct(buffers) && forall b :: b in buffers ==> b.Valid()
    }

    constructor (sampling: bool)
      ensures Valid() && buffers == [] && held == {} && !pendingFlush
      ensures fresh(aggregator) && aggregator.State() == EMPTY
      ensures fresh(allocationIndex) && allocationIndex.index == map[] && allocationIndex.sampling == sampling
    {
      buffers := [];
      held := {};
      pendingFlush := false;
      aggregator := new Aggregator();
      allocationIndex := new TracerIndex(sampling);
    }

    method RegisterThreadBuffer(ringBufferBytes: U64, eventSize: U64) returns (buffer: ThreadBufferInner)
      requires Valid()
      modifies this
      ensures Valid() && fresh(buffer) && buffer.State() == ConfiguredRing(ringBufferBytes, eventSize)
      ensures buffers == old(buffers) + [buffer] && held == old(held) + {buffer}
      ensures pendingFlush == old(pendingFlush)
    {
      buffer := new ThreadBufferInner(ringBufferBytes, eventSize);
      buffers := buffers + [buffer];
      held := held + {buffer};
    }

    /** A thread exits and its buffer's last strong reference goes. */
    method Release(buffer: ThreadBufferInner)
      requires Valid()
      modifies this
      ensures Valid() && buffers == old(buffers) && held == old(held) - {buffer}
      ensures pendingFlush == old(pendingFlush)
    {
      held := held - {buffer};
    }

    /** Only the first request since the worker's last look wakes it. */
    method NotifyFlush() returns (notified: bool)
      modifies this`pendingFlush
      ensures pendingFlush && notified == !old(pendingFlush)
    {
      notified := !pendingFlush;
      pendingFlush := true;
    }

    method EnqueueEvent(buffer: ThreadBufferInner, event: AllocationEvent) returns (notified: bool)
      requires Valid() && buffer in buffers
      modifies this`pendingFlush, buffer
      ensures Valid() && buffer.State() == Recorded(old(buffer.State()), event).0
      ensures var flush := Recorded(old(buffer.State()), event).1 == FlushPending;
        && pendingFlush == (old(pendingFlush) || flush)
        && notified == (flush && !old(pendingFlush))
    {
      var action := buffer.Record(event);
      notified := false;
      if action == FlushPending {
        notified := NotifyFlush();
      }
    }

    /** What `retain` does with one entry: it empties a buffer that it can upgrade, and keeps only those. */
    method RetainOne(buffer: ThreadBufferInner, events: Batch) returns (filled: Batch, keep: bool)
      requires buffer.Valid()
      modifies buffer
      ensures buffer.Valid() && keep == (buffer in held) && Swept(buffer.State(), old(buffer.State()), keep)
      ensures filled == events + old(TakenFrom(Source(buffer.queue, buffer.dropped, buffer in held)))
    {
      if buffer !in held {
        return events, false;
      }
      var dropped;
      filled, dropped := buffer.DrainInto(events);
      if dropped > 0 {
        filled := filled + [DroppedEvent(dropped)];
      }
      keep := true;
    }

    /** The part under the buffers lock: empties every held buffer into one batch. */
    method Collect() returns (events: Batch, retained: seq<ThreadBufferInner>)
      requires Valid()
      modifies buffers
      ensures Valid() && retained == Retained(buffers, held)
      ensures forall j :: 0 <= j < |buffers| ==> Swept(buffers[j].State(), old(buffers[j].State()), buffers[j] in held)
      ensures events == old(Gathered(Sources(buffers, held)))
    {
      events, retained := [], [];
      ghost var sources := Sources(buffers, held);
      assert sources[..|buffers|] == sources && buffers[..|buffers|] == buffers;
      assert Retained(buffers[..0], held) == [];
      hide Sources, Gathered, TakenFrom, Distinct, Retained, Swept, ThreadBufferInner.Valid, ThreadBufferInner.State;
      for i := 0 to |buffers|
        invariant retained == Retained(buffers[..i], held) && events == Gathered(sources[..i])
        invariant forall b :: b in buffers ==> b.Valid()
        invariant forall j :: 0 <= j < i ==> Swept(buffers[j].State(), old(buffers[j].State()), buffers[j] in held)
        invariant forall j :: i <= j < |buffers| ==> unchanged(buffers[j])
      {
        RetainedMore(buffers, held, i);
        GatheredMore(sources, i);
        DistinctFrom(buffers, i);
        var keep;
        events, keep := RetainOne(buffers[i], events);
        if keep {
          retained := retained + [buffers[i]];
        }
      }
    }

    /**
     * Drains every held buffer into one batch, drops the references to the others, and ingests the batch. A
     * buffer that is no longer held is left as it is.
     */
    method DrainBuffers()
      requires Valid()
      modifies this`buffers, buffers, aggregator
      ensures Valid() && buffers == Retained(old(buffers), held)
      ensures forall b :: b in old(buffers) ==> Swept(b.State(), old(b.State()), b in held)
      ensures aggregator.State() == IngestedAll(old(aggregator.State()), old(Gathered(Sources(buffers, held))))
    {
      hide Sources, Gathered, Contribution;
      var events, retained := Collect();
      RetainedDistinct(buffers, held);
      forall b | b in retained ensures b in buffers && b in held {
        RetainedMember(buffers, held, b);
      }
      buffers := retained;
      if |events| > 0 {
        aggregator.Ingest(events);
      }
    }

    /** `Tracer::snapshot`; `resolve` is the id map of the stack table. */
    method Snapshot(resolve: map<StackId, StackMetadata>) returns (snapshot: Snapshot)
      requires Valid()
      modifies this`buffers, buffers, aggregator
      ensures Valid() && buffers == Retained(old(buffers), held)
      ensures aggregator.State() == IngestedAll(old(aggregator.State()), old(Gathered(Sources(buffers, held))))
      ensures IsSnapshotOf(snapshot, aggregator.State(), resolve)
    {
      DrainBuffers();
      snapshot := aggregator.Snapshot(resolve);
    }

    /** `Tracer::reset`, with no other call in progress. */
    method Reset()
      requires Valid()
      modifies this`buffers, buffers, aggregator, allocationIndex
      ensures Valid() && buffers == Retained(old(buffers), held)
      ensures aggregator.State() == EMPTY && allocationIndex.index == map[]
      ensures Gathered(Sources(buffers, held)) == []
    {
      hide Gathered, Sources, Contribution, Retained;
      DrainBuffers();
      aggregator.Reset();
      allocationIndex.Clear();
      forall b | b in buffers ensures b.queue == [] && b.dropped == 0 {
        RetainedMember(old(buffers), held, b);
      }
      EmptyGatherNothing(buffers, held);
    }
  }

  lemma {:induction false} EmptyGatherNothing(buffers: seq<ThreadBufferInner>, held: set<ThreadBufferInner>)
    requires forall b :: b in buffers ==> b.queue == [] && b.dropped == 0
    ensures Gathered(Sources(buffers, held)) == []
  {
    if |buffers| > 0 {
      EmptyGatherNothing(buffers[..|buffers| - 1], held);
      var b := buffers[|buffers| - 1];
      GatheredSnoc(Sources(buffers[..|buffers| - 1], held), Source(b.queue, b.dropped, b in held));
    }
  }

  lemma ReportIngested(t: Totals, events: Batch, dropped: U64)
    ensures var before, after := IngestedAll(t, events), IngestedAll(t, events + [DroppedEvent(dropped)]);
      after == before.(droppedEvents := SaturatingAdd(before.droppedEvents, dropped))
  {
    assert (events + [DroppedEvent(dropped)])[..|events|] == events;
  }

  /**
   * A burst into an empty buffer, and the drain after it: the statistics are those of the events that fitted,
   * which are the oldest, and each of the others counts as exactly one drop.
   */
  lemma BurstThenDrain(r: Ring, events: Batch, t: Totals)
    requires r.Valid() && r.queue == [] && r.dropped == 0 && |events| <= U64_MAX
    ensures var after := RecordedAll(r, events).0;
      var fitted := events[..Min(r.capacity, |events|)];
      var result := IngestedAll(t, Contribution(after.queue, after.dropped));
      && result.stats == IngestedAll(t, fitted).stats
      && result.droppedEvents
           == Min(U64_MAX, t.droppedEvents + Sum(DropUnits(), fitted) + |events| - |fitted|)
  {
    hide IngestedAll, RecordedAll, Sum;
    BurstLaw(r, events);
    var after := RecordedAll(r, events).0;
    var fitted := events[..Min(r.capacity, |events|)];
    assert r.queue + events == events;
    assert after.queue == fitted && after.dropped == |events| - |fitted|;
    CountersAreCappedSums(t, fitted, 0);
    SumNonNegative(DropUnits(), fitted);
    if after.dropped > 0 {
      ReportIngested(t, fitted, after.dropped);
    } else {
      assert Contribution(after.queue, after.dropped) == fitted;
    }
  }
}
