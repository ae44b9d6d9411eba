/**
 * The tracing pipeline as a step system (`src/state.rs`, `src/ring_buffer.rs`, `src/aggregator.rs`).
 *
 * Agents are the program's threads and the drain worker. Each step is one atomic operation on shared state: an
 * insertion or removal in the allocation index, a push to or pop from a bounded queue, an update of a drop
 * counter, a lock acquisition or release, or one critical section of the aggregator lock. Steps of different
 * agents interleave freely.
 */
module Pipeline {
  import opened Words
  import opened Events
  import opened Aggregation
  import opened Tracing

  type Threshold = n: nat | n >= 1 witness 1

  /** The slots of a buffer, the queue length from which it asks for a flush, and whether sampling is on. */
  datatype Config = Config(capacity: nat, flushThreshold: Threshold, sampling: bool)

  /**
   * A thread buffer. `owned` says whether its thread still holds it; `accepted` and `popped` record all events
   * ever pushed successfully and ever popped, in order.
   */
  datatype Buffer = Buffer(queue: Batch, dropped: U64, owned: bool, accepted: Batch, popped: Batch)

  const NEW_BUFFER := Buffer([], 0, true, [], [])

  /** Where an agent is in `drain_buffers`; positions index the registry. */
  datatype Drain = NotDraining | Visiting(at: nat) | Popping(at: nat) | Swapping(at: nat) | Ingesting

  /** A reallocation between its removal from and its insertion into the index. */
  datatype Pending = Pending(address: U64, size: U64)

  /**
   * An agent: events it has still to enqueue, a rejected push it has still to count, its own buffer, and the
   * events it has popped but not yet ingested.
   */
  datatype Agent = Agent(
    hand: Batch, uncounted: bool, pending: Option<Pending>, buffer: Option<nat>, drain: Drain, batch: Batch)

  const NEW_AGENT := Agent([], false, None, None, NotDraining, [])

  /**
   * `registry` is the vector of weak references, under `lock` (held by an agent). The last eight fields are
   * histories: events emitted by tracked operations, passed in by `record_event`, made by drains to report
   * drops, accepted by a queue, rejected by one, ingested, or lost with a dead buffer; and lost drop counts.
   */
  datatype State = State(
    index: Index, agents: seq<Agent>, buffers: seq<Buffer>, registry: seq<nat>, lock: Option<nat>, totals: Totals,
    emitted: Batch, external: Batch, synthesized: Batch, accepted: Batch, rejected: Batch,
    ingested: Batch, lost: Batch, lostDrops: nat, log: Batch)

  ghost predicate Init(s: State) {
    && s.index == map[] && s.buffers == [] && s.registry == [] && s.lock == None && s.totals == EMPTY
    && (forall i :: 0 <= i < |s.agents| ==> s.agents[i] == NEW_AGENT)
    && s.emitted == [] && s.external == [] && s.synthesized == [] && s.accepted == [] && s.rejected == []
    && s.ingested == [] && s.lost == [] && s.lostDrops == 0 && s.log == []
  }

  datatype Action =
    | Allocate(agent: nat, address: U64, size: U64, sampled: bool, stackId: StackId)
    | Deallocate(agent: nat, address: U64, size: U64)
    | ReallocRemove(agent: nat, address: U64, oldSize: U64, newAddress: U64, newSize: U64, sampled: bool)
    | ReallocInsert(agent: nat, stackId: StackId)
    | RecordEvent(agent: nat, event: AllocationEvent)
    | Register(agent: nat)
    | Push(agent: nat)
    | CountDrop(agent: nat)
    | Exit(agent: nat)
    | BeginDrain(agent: nat)
    | Visit(agent: nat)
    | Pop(agent: nat)
    | SeeEmpty(agent: nat)
    | Swap(agent: nat)
    | EndVisit(agent: nat)
    | Ingest(agent: nat)

  /** Between two calls into the tracer. */
  predicate Idle(g: Agent) {
    g.hand == [] && g.pending.None? && !g.uncounted && g.drain.NotDraining?
  }

  /** The buffer an agent's drain is working on. */
  predicate AtBuffer(s: State, at: nat) {
    at < |s.registry| && s.registry[at] < |s.buffers|
  }

  /** A thread whose buffer a drain is just emptying leaves it to the drain, which holds it too. */
  predicate BeingDrained(s: State, b: nat) {
    && s.lock.Some? && s.lock.value < |s.agents|
    && var d := s.agents[s.lock.value].drain;
       (d.Popping? || d.Swapping?) && d.at < |s.registry| && s.registry[d.at] == b
  }

  predicate Enabled(c: Config, s: State, a: Action) {
    && a.agent < |s.agents|
    && var g := s.agents[a.agent];
       match a
       case Allocate(_, _, _, _, _) => Idle(g)
       case Deallocate(_, _, _) => Idle(g)
       case ReallocRemove(_, _, _, _, _, _) => Idle(g)
       case ReallocInsert(_, _) => g.pending.Some?
       case RecordEvent(_, _) => Idle(g)
       case Register(_) => g.hand != [] && g.pending.None? && g.buffer.None? && s.lock.None?
       case Push(_) =>
         g.hand != [] && g.pending.None? && !g.uncounted && g.buffer.Some? && g.buffer.value < |s.buffers|
       case CountDrop(_) =>
         g.uncounted && g.buffer.Some? && g.buffer.value < |s.buffers| && s.buffers[g.buffer.value].dropped < U64_MAX
       case Exit(_) => Idle(g) && g.buffer.Some? && g.buffer.value < |s.buffers|
       case BeginDrain(_) => Idle(g) && s.lock.None?
       case Visit(_) => g.drain.Visiting? && AtBuffer(s, g.drain.at)
       case Pop(_) => g.drain.Popping? && AtBuffer(s, g.drain.at) && s.buffers[s.registry[g.drain.at]].queue != []
       case SeeEmpty(_) => g.drain.Popping? && AtBuffer(s, g.drain.at) && s.buffers[s.registry[g.drain.at]].queue == []
       case Swap(_) => g.drain.Swapping? && AtBuffer(s, g.drain.at)
       case EndVisit(_) => g.drain.Visiting? && g.drain.at == |s.registry|
       case Ingest(_) => g.drain.Ingesting?
  }

  /** The agent takes `events` in hand, in addition to what it holds. */
  function Hold(s: State, i: nat, events: Batch): State
    requires i < |s.agents|
  {
    s.(agents := s.agents[i := s.agents[i].(hand := s.agents[i].hand + events)], emitted := s.emitted + events)
  }

  function Allocated(s: State, a: Action): State
    requires a.Allocate? && a.agent < |s.agents|
  {
    var (index, hot) := PreparedAllocation(s.index, a.address, a.size, a.sampled, a.stackId);
    Hold(s.(index := index), a.agent, HotEvents(hot))
  }

  function Deallocated(c: Config, s: State, a: Action): State
    requires a.Deallocate? && a.agent < |s.agents|
  {
    var (index, hot) := PreparedDeallocation(s.index, a.address, a.size, c.sampling);
    Hold(s.(index := index), a.agent, HotEvents(hot))
  }

  /** The first half of `prepare_reallocation`; the insertion, if there is one, is a step of its own. */
  function RemovedForRealloc(c: Config, s: State, a: Action): State
    requires a.ReallocRemove? && a.agent < |s.agents|
  {
    if a.address !in s.index then Hold(s, a.agent, if c.sampling then [] else [DroppedEvent(2)])
    else
      var s' := Hold(
        s.(index := Without(s.index, a.address)), a.agent,
        [DeallocationOf(a.address, a.oldSize, s.index[a.address])]);
      if a.newSize == 0 || !a.sampled then s'
      else s'.(agents := s'.agents[a.agent := s'.agents[a.agent].(pending := Some(Pending(a.newAddress, a.newSize)))])
  }

  function InsertedForRealloc(s: State, a: Action): State
    requires a.ReallocInsert? && a.agent < |s.agents| && s.agents[a.agent].pending.Some?
  {
    var p := s.agents[a.agent].pending.value;
    var r := Record(p.size, a.stackId);
    var s' := s.(index := s.index[p.address := r],
                 agents := s.agents[a.agent := s.agents[a.agent].(pending := None)]);
    Hold(s', a.agent, [AllocationOf(p.address, r)])
  }

  function Recorded(s: State, a: Action): State
    requires a.RecordEvent? && a.agent < |s.agents|
  {
    s.(agents := s.agents[a.agent := s.agents[a.agent].(hand := s.agents[a.agent].hand + [a.event])],
       external := s.external + [a.event])
  }

  function Registered(s: State, a: Action): State
    requires a.agent < |s.agents|
  {
    s.(agents := s.agents[a.agent := s.agents[a.agent].(buffer := Some(|s.buffers|))],
       buffers := s.buffers + [NEW_BUFFER], registry := s.registry + [|s.buffers|])
  }

  /** `ArrayQueue::push`; a push that is turned away is counted in a step of its own. */
  function Pushed(c: Config, s: State, a: Action): State
    requires a.Push? && Enabled(c, s, a)
  {
    var g := s.agents[a.agent];
    var b, e := g.buffer.value, g.hand[0];
    var buf := s.buffers[b];
    if |buf.queue| < c.capacity then
      s.(agents := s.agents[a.agent := g.(hand := g.hand[1..])],
         buffers := s.buffers[b := buf.(queue := buf.queue + [e], accepted := buf.accepted + [e])],
         accepted := s.accepted + [e], log := s.log + [e])
    else
      s.(agents := s.agents[a.agent := g.(hand := g.hand[1..], uncounted := true)],
         rejected := s.rejected + [e], log := s.log + [DroppedEvent(1)])
  }

  function Counted(c: Config, s: State, a: Action): State
    requires a.CountDrop? && Enabled(c, s, a)
  {
    var g := s.agents[a.agent];
    var b := g.buffer.value;
    s.(agents := s.agents[a.agent := g.(uncounted := false)],
       buffers := s.buffers[b := s.buffers[b].(dropped := WrappingAdd(s.buffers[b].dropped, 1))])
  }

  /** A dead buffer goes with everything in it, drop count included. */
  function Discarded(s: State, b: nat): State
    requires b < |s.buffers|
  {
    var buf := s.buffers[b];
    s.(buffers := s.buffers[b := buf.(queue := [], dropped := 0, owned := false)],
       lost := s.lost + buf.queue, lostDrops := s.lostDrops + buf.dropped)
  }

  function Exited(c: Config, s: State, a: Action): State
    requires a.Exit? && Enabled(c, s, a)
  {
    var b := s.agents[a.agent].buffer.value;
    var s' := s.(agents := s.agents[a.agent := s.agents[a.agent].(buffer := None)]);
    if BeingDrained(s, b) then s'.(buffers := s.buffers[b := s.buffers[b].(owned := false)])
    else Discarded(s', b)
  }

  function Moved(s: State, i: nat, drain: Drain): State
    requires i < |s.agents|
  {
    s.(agents := s.agents[i := s.agents[i].(drain := drain)])
  }

  /** `upgrade`: a live buffer is drained, the entry of a dead one is not retained. */
  function Visited(c: Config, s: State, a: Action): State
    requires a.Visit? && Enabled(c, s, a)
  {
    var at := s.agents[a.agent].drain.at;
    if s.buffers[s.registry[at]].owned then Moved(s, a.agent, Popping(at))
    else s.(registry := s.registry[..at] + s.registry[at + 1..])
  }

  function Popped(c: Config, s: State, a: Action): State
    requires a.Pop? && Enabled(c, s, a)
  {
    var g := s.agents[a.agent];
    var b := s.registry[g.drain.at];
    var buf := s.buffers[b];
    s.(agents := s.agents[a.agent := g.(batch := g.batch + [buf.queue[0]])],
       buffers := s.buffers[b := buf.(queue := buf.queue[1..], popped := buf.popped + [buf.queue[0]])])
  }

  /** Takes the drop count; if the owner has left meanwhile the buffer dies with what was pushed since. */
  function Swapped(c: Config, s: State, a: Action): State
    requires a.Swap? && Enabled(c, s, a)
  {
    var g := s.agents[a.agent];
    var b := s.registry[g.drain.at];
    var buf := s.buffers[b];
    var report := if buf.dropped > 0 then [DroppedEvent(buf.dropped)] else [];
    var s' := s.(
      agents := s.agents[a.agent := g.(batch := g.batch + report, drain := Visiting(g.drain.at + 1))],
      buffers := s.buffers[b := buf.(dropped := 0)],
      synthesized := s.synthesized + report);
    if buf.owned then s' else Discarded(s', b)
  }

  function Merged(s: State, a: Action): State
    requires a.agent < |s.agents|
  {
    var g := s.agents[a.agent];
    s.(agents := s.agents[a.agent := g.(batch := [], drain := NotDraining)],
       totals := IngestedAll(s.totals, g.batch), ingested := s.ingested + g.batch)
  }

  function Next(c: Config, s: State, a: Action): State
    requires Enabled(c, s, a)
  {
    match a
    case Allocate(_, _, _, _, _) => Allocated(s, a)
    case Deallocate(_, _, _) => Deallocated(c, s, a)
    case ReallocRemove(_, _, _, _, _, _) => RemovedForRealloc(c, s, a)
    case ReallocInsert(_, _) => InsertedForRealloc(s, a)
    case RecordEvent(_, _) => Recorded(s, a)
    case Register(_) => Registered(s, a)
    case Push(_) => Pushed(c, s, a)
    case CountDrop(_) => Counted(c, s, a)
    case Exit(_) => Exited(c, s, a)
    case BeginDrain(i) => Moved(s, i, Visiting(0)).(lock := Some(i))
    case Visit(_) => Visited(c, s, a)
    case Pop(_) => Popped(c, s, a)
    case SeeEmpty(i) => Moved(s, i, Swapping(s.agents[i].drain.at))
    case Swap(_) => Swapped(c, s, a)
    case EndVisit(i) => Moved(s, i, Ingesting).(lock := None)
    case Ingest(_) => Merged(s, a)
  }

  /** How many events each buffer has accepted so far. */
  function Lengths(buffers: seq<Buffer>): (r: seq<nat>)
    ensures |r| == |buffers| && forall b :: 0 <= b < |r| ==> r[b] == |buffers[b].accepted|
  {
    seq(|buffers|, b requires 0 <= b < |buffers| => |buffers[b].accepted|)
  }

  ghost predicate Step(c: Config, s: State, s': State) {
    exists a :: Enabled(c, s, a) && s' == Next(c, s, a)
  }

  /** A run: any interleaving of any agents' steps. */
  ghost predicate Run(c: Config, trace: seq<State>) {
    && |trace| > 0
    && Init(trace[0])
    && forall i :: 0 < i < |trace| ==> Step(c, trace[i - 1], trace[i])
  }

  function Last(trace: seq<State>): State
    requires |trace| > 0
  {
    trace[|trace| - 1]
  }

  /** The actions that a run takes. */
  ghost predicate Takes(c: Config, trace: seq<State>, acts: seq<Action>) {
    && |trace| == |acts| + 1
    && forall k :: 0 <= k < |acts| ==> TakesOne(c, trace[k], acts[k], trace[k + 1])
  }

  ghost predicate TakesOne(c: Config, s: State, a: Action, s': State) {
    Enabled(c, s, a) && s' == Next(c, s, a)
  }

  lemma RunPrefix(c: Config, trace: seq<State>)
    requires Run(c, trace) && |trace| > 1
    ensures Run(c, trace[..|trace| - 1])
    ensures Step(c, Last(trace[..|trace| - 1]), Last(trace))
  {
  }

  // Structure: who holds the lock, and that no live buffer escapes the registry.

  predicate HoldsLock(d: Drain) {
    d.Visiting? || d.Popping? || d.Swapping?
  }

  ghost predicate AgentInv(g: Agent, i: nat, lock: Option<nat>, entries: nat, buffers: seq<Buffer>) {
    && (HoldsLock(g.drain) <==> lock == Some(i))
    && (g.drain.Visiting? ==> g.drain.at <= entries)
    && (g.drain.Popping? || g.drain.Swapping? ==> g.drain.at < entries)
    && (g.drain.NotDraining? ==> g.batch == [])
    && (!g.drain.NotDraining? ==> g.hand == [] && g.pending.None? && !g.uncounted)
    && (g.uncounted ==> g.buffer.Some?)
    && (g.buffer.Some? ==> g.buffer.value < |buffers| && buffers[g.buffer.value].owned)
  }

  /** Two threads never share a buffer. */
  ghost predicate OwnBuffers(s: State) {
    forall i, j :: 0 <= i < j < |s.agents| && s.agents[i].buffer.Some? ==> s.agents[i].buffer != s.agents[j].buffer
  }

  ghost predicate Registry(s: State) {
    && (forall k :: 0 <= k < |s.registry| ==> s.registry[k] < |s.buffers|)
    && (forall b :: 0 <= b < |s.buffers| && s.buffers[b].owned ==> b in s.registry)
  }

  /** Queues are bounded and first-in first-out: what was accepted was popped, in order, or is still queued. */
  ghost predicate BufferInv(c: Config, buf: Buffer) {
    && (|buf.queue| <= c.capacity)
    && buf.popped + buf.queue <= buf.accepted
    && (buf.owned || buf.queue != [] ==> buf.popped + buf.queue == buf.accepted)
  }

  predicate Unreported(buf: Buffer) {
    buf.queue != [] || buf.dropped > 0
  }

  ghost predicate Structured(c: Config, s: State) {
    && (forall i :: 0 <= i < |s.agents| ==> AgentInv(s.agents[i], i, s.lock, |s.registry|, s.buffers))
    && OwnBuffers(s)
    && Registry(s)
    && (s.lock.Some? ==> s.lock.value < |s.agents|)
    && (forall b :: 0 <= b < |s.buffers| ==> BufferInv(c, s.buffers[b]))
    && (forall b :: 0 <= b < |s.buffers| && !s.buffers[b].owned && Unreported(s.buffers[b]) ==> BeingDrained(s, b))
    && s.totals == IngestedAll(EMPTY, s.ingested)
  }
}
