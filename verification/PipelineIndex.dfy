/** The events emitted and the allocation index tell the same story, over all interleavings. */
module PipelineIndex {
  import opened Words
  import opened Sums
  import opened Events
  import opened Aggregation
  import opened Tracing
  import opened Pipeline
  import opened PipelineStructure
  import opened PipelineLedgers
  import opened PipelineRefinement

  /** The exact signed size of an event on one stack, and its signed count. */
  ghost function SignedBytes(id: StackId): Weight {
    (e: AllocationEvent) =>
      if e.stackId != id then 0
      else match e.kind case Allocation => e.size case Deallocation => 0 - e.size case Dropped(_) => 0
  }

  ghost function SignedCount(id: StackId): Weight {
    (e: AllocationEvent) =>
      if e.stackId != id then 0
      else match e.kind case Allocation => 1 case Deallocation => -1 case Dropped(_) => 0
  }

  ghost function LiveBytes(id: StackId): Record -> int {
    (r: Record) => if r.stackId == id then r.size else 0
  }

  ghost function LiveCount(id: StackId): Record -> int {
    (r: Record) => if r.stackId == id then 1 else 0
  }

  /** What the index records about an address. */
  ghost function Status(index: Index, address: U64): History {
    if address in index then Live(index[address]) else Dead
  }

  ghost predicate BytesMatch(events: Batch, index: Index, id: StackId) {
    Sum(SignedBytes(id), events) == MapSum(LiveBytes(id), index)
  }

  ghost predicate CountMatches(events: Batch, index: Index, id: StackId) {
    Sum(SignedCount(id), events) == MapSum(LiveCount(id), index)
  }

  /** The ledger of every stack is in balance. */
  ghost predicate AllMatch(events: Batch, index: Index) {
    forall id :: BytesMatch(events, index, id) && CountMatches(events, index, id)
  }

  // The three index operations, one by one.

  lemma InsertMatches(events: Batch, index: Index, address: U64, r: Record, id: StackId)
    requires address !in index
    ensures BytesMatch(events, index, id) ==> BytesMatch(events + [AllocationOf(address, r)], index[address := r], id)
    ensures CountMatches(events, index, id) ==>
      CountMatches(events + [AllocationOf(address, r)], index[address := r], id)
  {
    SumSnoc(SignedBytes(id), events, AllocationOf(address, r));
    SumSnoc(SignedCount(id), events, AllocationOf(address, r));
    MapSumInsert(LiveBytes(id), index, address, r);
    MapSumInsert(LiveCount(id), index, address, r);
  }

  /** Overwriting an entry: the index changes by the difference of the two records. */
  lemma ReplaceSums(index: Index, address: U64, r: Record, id: StackId)
    requires address in index
    ensures MapSum(LiveBytes(id), index[address := r])
      == MapSum(LiveBytes(id), index) - LiveBytes(id)(index[address]) + LiveBytes(id)(r)
    ensures MapSum(LiveCount(id), index[address := r])
      == MapSum(LiveCount(id), index) - LiveCount(id)(index[address]) + LiveCount(id)(r)
  {
    hide MapSum;
    var rest := Without(index, address);
    assert index[address := r] == rest[address := r];
    MapSumRemove(LiveBytes(id), index, address);
    MapSumRemove(LiveCount(id), index, address);
    MapSumInsert(LiveBytes(id), rest, address, r);
    MapSumInsert(LiveCount(id), rest, address, r);
  }

  /**
   * Exactly when recording an allocation keeps the ledger of every stack: its address is not in the index, where
   * the insertion would silently replace a live record.
   */
  lemma InsertKeepsLedgerIff(events: Batch, index: Index, address: U64, r: Record)
    requires AllMatch(events, index)
    ensures AllMatch(events + [AllocationOf(address, r)], index[address := r]) <==> address !in index
  {
    var events', index' := events + [AllocationOf(address, r)], index[address := r];
    if address !in index {
      forall id ensures BytesMatch(events', index', id) && CountMatches(events', index', id) {
        InsertMatches(events, index, address, r, id);
      }
    } else {
      var id := index[address].stackId;
      ReplaceSums(index, address, r, id);
      SumSnoc(SignedCount(id), events, AllocationOf(address, r));
      assert CountMatches(events, index, id);
      assert !CountMatches(events', index', id);
    }
  }

  lemma RemoveSums(events: Batch, index: Index, address: U64, size: U64, id: StackId)
    requires address in index
    ensures var e := DeallocationOf(address, size, index[address]);
      && MapSum(LiveBytes(id), Without(index, address)) == MapSum(LiveBytes(id), index) - LiveBytes(id)(index[address])
      && MapSum(LiveCount(id), Without(index, address)) == MapSum(LiveCount(id), index) - LiveCount(id)(index[address])
      && Sum(SignedBytes(id), events + [e])
           == Sum(SignedBytes(id), events) - (if e.stackId == id then e.size else 0)
      && Sum(SignedCount(id), events + [e])
           == Sum(SignedCount(id), events) - (if e.stackId == id then 1 else 0)
  {
    var e := DeallocationOf(address, size, index[address]);
    MapSumRemove(LiveBytes(id), index, address);
    MapSumRemove(LiveCount(id), index, address);
    SumSnoc(SignedBytes(id), events, e);
    SumSnoc(SignedCount(id), events, e);
  }

  /**
   * Exactly when recording a deallocation keeps the ledger of every stack: the caller's size is 0 or the recorded
   * one. The counts match in any case.
   */
  lemma RemoveKeepsLedgerIff(events: Batch, index: Index, address: U64, size: U64)
    requires address in index
    requires AllMatch(events, index)
    ensures var e := DeallocationOf(address, size, index[address]);
      && (forall id :: CountMatches(events + [e], Without(index, address), id))
      && (AllMatch(events + [e], Without(index, address)) <==> size == 0 || size == index[address].size)
  {
    var e := DeallocationOf(address, size, index[address]);
    forall id
      ensures CountMatches(events + [e], Without(index, address), id)
      ensures BytesMatch(events + [e], Without(index, address), id)
        <==> (id == e.stackId ==> e.size == index[address].size)
    {
      assert BytesMatch(events, index, id) && CountMatches(events, index, id);
      RemoveSums(events, index, address, size, id);
    }
    assert BytesMatch(events + [e], Without(index, address), e.stackId) <==> e.size == index[address].size;
  }

  // Steps and runs.

  /** The address of an insertion is new to the index. */
  ghost predicate Fresh(s: State, a: Action) {
    match a
    case Allocate(_, address, _, sampled, _) => sampled ==> address !in s.index
    case ReallocInsert(i, _) =>
      i < |s.agents| && s.agents[i].pending.Some? ==> s.agents[i].pending.value.address !in s.index
    case _ => true
  }

  /** The caller of a removal knows the size, or passes 0. */
  ghost predicate Sized(s: State, a: Action) {
    match a
    case Deallocate(_, address, size) => address in s.index ==> size == 0 || size == s.index[address].size
    case ReallocRemove(_, address, size, _, _, _) => address in s.index ==> size == 0 || size == s.index[address].size
    case _ => true
  }

  ghost predicate TameStep(c: Config, s: State, s': State) {
    exists a :: Enabled(c, s, a) && Fresh(s, a) && Sized(s, a) && s' == Next(c, s, a)
  }

  /** A run in which callers keep to their side: fresh addresses and known sizes. */
  ghost predicate TameRun(c: Config, trace: seq<State>) {
    && |trace| > 0
    && Init(trace[0])
    && forall i :: 0 < i < |trace| ==> TameStep(c, trace[i - 1], trace[i])
  }

  lemma TameRunIsRun(c: Config, trace: seq<State>)
    requires TameRun(c, trace)
    ensures Run(c, trace)
  {
    forall i | 0 < i < |trace| ensures Step(c, trace[i - 1], trace[i]) {
      assert TameStep(c, trace[i - 1], trace[i]);
    }
  }

  ghost predicate LedgerInv(s: State, id: StackId) {
    BytesMatch(s.emitted, s.index, id) && CountMatches(s.emitted, s.index, id)
  }

  lemma UntrackedEvents(s: State, events: Batch, id: StackId)
    requires LedgerInv(s, id)
    requires forall i :: 0 <= i < |events| ==> events[i].kind.Dropped?
    ensures BytesMatch(s.emitted + events, s.index, id) && CountMatches(s.emitted + events, s.index, id)
  {
    SumConcat(SignedBytes(id), s.emitted, events);
    SumConcat(SignedCount(id), s.emitted, events);
    SumZero(SignedBytes(id), events);
    SumZero(SignedCount(id), events);
  }

  lemma RemovalMatches(s: State, address: U64, size: U64, id: StackId)
    requires LedgerInv(s, id) && address in s.index && (size == 0 || size == s.index[address].size)
    ensures var e := DeallocationOf(address, size, s.index[address]);
      BytesMatch(s.emitted + [e], Without(s.index, address), id)
      && CountMatches(s.emitted + [e], Without(s.index, address), id)
  {
    RemoveSums(s.emitted, s.index, address, size, id);
  }

  lemma StepLedger(c: Config, s: State, a: Action, id: StackId)
    requires LedgerInv(s, id) && Enabled(c, s, a) && Fresh(s, a) && Sized(s, a)
    ensures LedgerInv(Next(c, s, a), id)
  {
    hide BytesMatch, CountMatches;
    assert s.emitted + [] == s.emitted;
    match a
    case Allocate(_, address, size, sampled, stackId) =>
      if sampled {
        InsertMatches(s.emitted, s.index, address, Record(size, stackId), id);
      }
    case Deallocate(_, address, size) =>
      if address in s.index {
        RemovalMatches(s, address, size, id);
      } else {
        UntrackedEvents(s, if c.sampling then [] else [DroppedEvent(1)], id);
      }
    case ReallocRemove(_, address, oldSize, _, _, _) =>
      if address in s.index {
        RemovalMatches(s, address, oldSize, id);
      } else {
        UntrackedEvents(s, if c.sampling then [] else [DroppedEvent(2)], id);
      }
    case ReallocInsert(i, stackId) =>
      var p := s.agents[i].pending.value;
      InsertMatches(s.emitted, s.index, p.address, Record(p.size, stackId), id);
    case _ =>
  }

  lemma {:induction false} RunLedger(c: Config, trace: seq<State>, id: StackId)
    requires TameRun(c, trace)
    ensures LedgerInv(Last(trace), id)
  {
    if |trace| > 1 {
      RunLedger(c, trace[..|trace| - 1], id);
      var s, s' := trace[|trace| - 2], trace[|trace| - 1];
      assert TameStep(c, s, s');
      var a :| Enabled(c, s, a) && Fresh(s, a) && Sized(s, a) && s' == Next(c, s, a);
      StepLedger(c, s, a, id);
    }
  }

  /** All events anywhere in the pipeline. */
  ghost function Everywhere(s: State): Batch {
    Hands(s.agents) + Queues(s.buffers) + Batches(s.agents) + s.ingested + s.rejected + s.lost
  }

  lemma EverywhereSum(c: Config, w: Weight, trace: seq<State>)
    requires Run(c, trace)
    requires forall e: AllocationEvent :: e.kind.Dropped? ==> w(e) == 0
    ensures Sum(w, Everywhere(Last(trace))) == Sum(w, Last(trace).emitted) + Sum(w, Last(trace).external)
  {
    var s := Last(trace);
    RunBalanced(c, w, trace);
    RunDrops(c, trace);
    SumZero(w, s.synthesized);
    SumOfAgents(w, s.agents);
    SumOfBuffers(w, s.buffers);
    Sum4(w, Hands(s.agents), Queues(s.buffers), Batches(s.agents), s.ingested);
    Sum3(w, Hands(s.agents) + Queues(s.buffers) + Batches(s.agents) + s.ingested, s.rejected, s.lost);
  }

  /**
   * The ledger: at every moment of every tame run, for each stack, the signed bytes and the allocations minus
   * frees of all events in hand, queued, in flight, ingested, rejected or lost, less those of events passed to
   * `record_event` from outside, are the total size and the number of the stack's entries in the index.
   */
  lemma LedgerHolds(c: Config, trace: seq<State>, id: StackId)
    requires TameRun(c, trace)
    ensures var s := Last(trace);
      && Sum(SignedBytes(id), Everywhere(s)) - Sum(SignedBytes(id), s.external) == MapSum(LiveBytes(id), s.index)
      && Sum(SignedCount(id), Everywhere(s)) - Sum(SignedCount(id), s.external) == MapSum(LiveCount(id), s.index)
  {
    TameRunIsRun(c, trace);
    RunLedger(c, trace, id);
    EverywhereSum(c, SignedBytes(id), trace);
    EverywhereSum(c, SignedCount(id), trace);
  }

  /** Every size that occurs can be aggregated. */
  ghost predicate Convertible(events: Batch) {
    forall i :: 0 <= i < |events| ==> events[i].size <= I64_MAX
  }

  lemma SignedIsDifference(events: Batch, id: StackId)
    requires Convertible(events)
    ensures Sum(SignedBytes(id), events) == Sum(AllocBytes(id), events) - Sum(FreedBytes(id), events)
    ensures Sum(SignedCount(id), events) == Sum(Allocs(id), events) - Sum(Frees(id), events)
  {
    SumDifference(AllocBytes(id), FreedBytes(id), SignedBytes(id), events);
    SumDifference(Allocs(id), Frees(id), SignedCount(id), events);
  }

  /** No event is anywhere but ingested, and none came from outside. */
  ghost predicate AllIngested(s: State) {
    && Settled(s)
    && (forall i :: 0 <= i < |s.agents| ==> s.agents[i].hand == [])
    && s.rejected == [] && s.lost == [] && s.external == []
  }

  lemma {:induction false} EmptyHands(agents: seq<Agent>)
    requires forall i :: 0 <= i < |agents| ==> agents[i].hand == []
    ensures Hands(agents) == []
  {
    if |agents| > 0 { EmptyHands(agents[..|agents| - 1]); }
  }

  /**
   * End to end: in a tame run that has come to rest without losing an event, the aggregate of each stack reports
   * exactly the bytes and the number of allocations that are live in the index.
   */
  lemma SnapshotReportsLiveMemory(c: Config, trace: seq<State>, id: StackId)
    requires TameRun(c, trace) && AllIngested(Last(trace))
    requires Convertible(Last(trace).ingested) && BytesInRange(Last(trace).ingested, id)
    requires Sum(Allocs(id), Last(trace).ingested) <= U64_MAX && Sum(Frees(id), Last(trace).ingested) <= U64_MAX
    ensures var s := Last(trace);
      && StatsOf(s.totals, id).currentBytes == MapSum(LiveBytes(id), s.index)
      && StatsOf(s.totals, id).allocations - StatsOf(s.totals, id).deallocations == MapSum(LiveCount(id), s.index)
  {
    var s := Last(trace);
    LedgerHolds(c, trace, id);
    NothingElsewhere(s, id);
    assert s.totals == IngestedAll(EMPTY, s.ingested) by {
      TameRunIsRun(c, trace);
      RunStructured(c, trace);
    }
    IngestedBytesAndCounts(s.ingested, id);
  }

  lemma IngestedBytesAndCounts(events: Batch, id: StackId)
    requires Convertible(events) && BytesInRange(events, id)
    requires Sum(Allocs(id), events) <= U64_MAX && Sum(Frees(id), events) <= U64_MAX
    ensures var r := StatsOf(IngestedAll(EMPTY, events), id);
      && r.currentBytes == Sum(SignedBytes(id), events)
      && r.allocations - r.deallocations == Sum(SignedCount(id), events)
  {
    SignedIsDifference(events, id);
    BytesExact(events, id);
    CountersAreCappedSums(EMPTY, events, id);
  }

  lemma NothingElsewhere(s: State, id: StackId)
    requires AllIngested(s)
    ensures Sum(SignedBytes(id), Everywhere(s)) - Sum(SignedBytes(id), s.external) == Sum(SignedBytes(id), s.ingested)
    ensures Sum(SignedCount(id), Everywhere(s)) - Sum(SignedCount(id), s.external) == Sum(SignedCount(id), s.ingested)
  {
    EmptyHands(s.agents);
    EmptyBatches(s.agents);
    EmptyQueues(s.buffers);
    assert Everywhere(s) == s.ingested;
  }

  // Alternation, address by address.

  ghost predicate FreshStep(c: Config, s: State, s': State) {
    exists a :: Enabled(c, s, a) && Fresh(s, a) && s' == Next(c, s, a)
  }

  /** A run with fresh addresses; sizes may be anything. */
  ghost predicate FreshRun(c: Config, trace: seq<State>) {
    && |trace| > 0
    && Init(trace[0])
    && forall i :: 0 < i < |trace| ==> FreshStep(c, trace[i - 1], trace[i])
  }

  lemma StepReplay(c: Config, s: State, a: Action, address: U64)
    requires Enabled(c, s, a) && Fresh(s, a)
    requires Replay(s.emitted, address) == Status(s.index, address)
    ensures var s' := Next(c, s, a); Replay(s'.emitted, address) == Status(s'.index, address)
  {
    hide Replay;
    var s' := Next(c, s, a);
    if |s'.emitted| > |s.emitted| {
      var e := s'.emitted[|s.emitted|];
      assert s'.emitted == s.emitted + [e];
      ReplaySnoc(s.emitted, e, address);
    } else {
      assert s'.emitted == s.emitted;
    }
  }

  /**
   * Alternation: over every run with fresh addresses, through in-place and moving reallocations and any sampling
   * verdicts, the emitted events of each address alternate between allocations and deallocations, each
   * deallocation carrying the stack of the allocation before it; and the index shows whose turn it is.
   */
  lemma {:induction false} AddressesAlternate(c: Config, trace: seq<State>, address: U64)
    requires FreshRun(c, trace)
    ensures var s := Last(trace);
      Replay(s.emitted, address) == Status(s.index, address) && Replay(s.emitted, address) != Broken
  {
    if |trace| > 1 {
      AddressesAlternate(c, trace[..|trace| - 1], address);
      var s, s' := trace[|trace| - 2], trace[|trace| - 1];
      assert FreshStep(c, s, s');
      var a :| Enabled(c, s, a) && Fresh(s, a) && s' == Next(c, s, a);
      StepReplay(c, s, a, address);
    }
  }

  /** Exactly when an insertion keeps an address's history in order: the address is not in the index. */
  lemma InsertAlternatesIff(events: Batch, index: Index, address: U64, r: Record)
    requires Replay(events, address) == Status(index, address)
    ensures Replay(events + [AllocationOf(address, r)], address) == Status(index[address := r], address)
      <==> address !in index
  {
    ReplaySnoc(events, AllocationOf(address, r), address);
  }

  /**
   * The two steps of a reallocation, with nothing in between, do to the index and to the agent's hand what
   * `prepare_reallocation` does in one call.
   */
  lemma ReallocationIsTwoSteps(c: Config, s: State, a: Action, stackId: StackId)
    requires Enabled(c, s, a) && a.ReallocRemove?
    ensures var s1 := Next(c, s, a);
      var p := Reallocated(
        s.index, a.address, a.oldSize, a.newAddress, a.newSize, a.sampled, stackId, c.sampling);
      if s1.agents[a.agent].pending.None? then
        s1.index == p.0 && s1.agents[a.agent].hand == ReallocationEvents(p.1)
      else
        var second := ReallocInsert(a.agent, stackId);
        && Enabled(c, s1, second)
        && Next(c, s1, second).index == p.0
        && Next(c, s1, second).agents[a.agent].hand == ReallocationEvents(p.1)
  {
  }

  // Runs in which callers do not keep to their side.

  const ONE_SLOT := Config(1, 1, false)

  ghost function Start(agents: nat): (s: State)
    ensures Init(s)
  {
    State(map[], seq(agents, i => NEW_AGENT), [], [], None, EMPTY, [], [], [], [], [], [], [], 0, [])
  }

  /** The next state of a run, with what matters of it. */
  lemma Tracked(trace: seq<State>, i: nat, address: U64, size: U64, id: StackId) returns (longer: seq<State>)
    requires Run(ONE_SLOT, trace) && i < |Last(trace).agents| && Idle(Last(trace).agents[i])
    ensures Run(ONE_SLOT, longer)
    ensures var s, s' := Last(trace), Last(longer);
      var e := AllocationOf(address, Record(size, id));
      && s' == s.(index := s.index[address := Record(size, id)], emitted := s.emitted + [e], agents := s'.agents)
      && s'.agents == s.agents[i := s.agents[i].(hand := s.agents[i].hand + [e])]
  {
    longer := RunExtended(ONE_SLOT, trace, Allocate(i, address, size, true, id));
  }

  /** Two threads record an allocation at the same address: 30 bytes are reported, and the index knows of 20. */
  lemma AllocationReplacesRecord() returns (trace: seq<State>)
    ensures Run(ONE_SLOT, trace)
    ensures var s := Last(trace);
      && s.index == map[1 := Record(20, 7)]
      && Sum(SignedBytes(7), s.emitted) == 30 && MapSum(LiveBytes(7), s.index) == 20
  {
    var e, f := AllocationOf(1, Record(10, 7)), AllocationOf(1, Record(20, 7));
    SumSnoc(SignedBytes(7), [e], f);
    SumOne(SignedBytes(7), e);
    MapSumInsert(LiveBytes(7), map[], 1, Record(20, 7));
    hide Enabled, Next, Sum, MapSum;
    trace := [Start(2)];
    trace := Tracked(trace, 0, 1, 10, 7);
    trace := Tracked(trace, 1, 1, 20, 7);
    assert Last(trace).emitted == [e] + [f];
    assert Last(trace).index == map[][1 := Record(20, 7)];
  }

  /** A thread releases a block of 10 bytes as one of 4: 6 bytes stay reported for a stack with nothing live. */
  lemma DeallocationOverridesSize() returns (trace: seq<State>)
    ensures Run(ONE_SLOT, trace)
    ensures var s := Last(trace); s.index == map[] && Sum(SignedBytes(7), s.emitted) == 6
  {
    trace := [Start(2)];
    trace := Tracked(trace, 0, 1, 10, 7);
    trace := RunExtended(ONE_SLOT, trace, Deallocate(1, 1, 4));
    var e, f := AllocationOf(1, Record(10, 7)), DeallocationOf(1, 4, Record(10, 7));
    assert Last(trace).emitted == [e] + [f];
    SumSnoc(SignedBytes(7), [e], f);
    SumOne(SignedBytes(7), e);
  }

  /** A thread with a buffer of one slot has filled it. */
  lemma Filled() returns (trace: seq<State>)
    ensures Run(ONE_SLOT, trace)
    ensures var s := Last(trace);
      && |s.agents| == 1 && |s.buffers| == 1 && s.agents[0] == NEW_AGENT.(buffer := Some(0))
      && |s.buffers[0].queue| == 1 && s.buffers[0].dropped == 0 && s.index.Keys == {1}
      && s.rejected == [] && s.synthesized == [] && s.lostDrops == 0
  {
    trace := [Start(1)];
    trace := Tracked(trace, 0, 1, 10, 7);
    trace := RunExtended(ONE_SLOT, trace, Register(0));
    trace := RunExtended(ONE_SLOT, trace, Push(0));
  }

  /**
   * The thread then reallocates a block the index does not know. That is two missing operations, reported as one
   * event; the event is turned away, and one drop is counted.
   */
  lemma RejectedDropCountsOnce() returns (trace: seq<State>)
    ensures Run(ONE_SLOT, trace)
    ensures var s := Last(trace);
      && s.rejected == [DroppedEvent(2)]
      && |s.agents| == 1 && !s.agents[0].uncounted && |s.buffers| == 1 && s.buffers[0].dropped == 1
      && s.synthesized == [] && s.lostDrops == 0
      && !RejectionsFullyReported(s)
  {
    trace := Filled();
    trace := RunExtended(ONE_SLOT, trace, ReallocRemove(0, 2, 0, 3, 20, true));
    trace := RunExtended(ONE_SLOT, trace, Push(0));
    trace := RunExtended(ONE_SLOT, trace, CountDrop(0));
    RejectionsFullyReportedIff(ONE_SLOT, trace);
    assert ManyDrops(Last(trace).rejected[0]);
  }
}
