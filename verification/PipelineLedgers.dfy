/**
 * Conservation in the pipeline: for every way of weighing events, what went in equals what is in hand, queued, in
 * flight, ingested, rejected or lost.
 */
module PipelineLedgers {
  import opened Words
  import opened Sums
  import opened Events
  import opened Tracing
  import opened Pipeline

  type Weight = AllocationEvent -> int

  ghost function InHand(w: Weight): Agent -> int {
    (g: Agent) => Sum(w, g.hand)
  }

  ghost function InFlight(w: Weight): Agent -> int {
    (g: Agent) => Sum(w, g.batch)
  }

  ghost function InQueue(w: Weight): Buffer -> int {
    (b: Buffer) => Sum(w, b.queue)
  }

  ghost function EverPopped(w: Weight): Buffer -> int {
    (b: Buffer) => Sum(w, b.popped)
  }

  ghost function EverAccepted(w: Weight): Buffer -> int {
    (b: Buffer) => Sum(w, b.accepted)
  }

  /** Weighs any event as one drop. */
  ghost function AsDrop(w: Weight): Weight {
    (e: AllocationEvent) => w(DroppedEvent(1))
  }

  /** Everything handed to `enqueue_event` is still in hand, accepted, or rejected. */
  ghost predicate OfferedBalance(w: Weight, s: State) {
    Sum(w, s.emitted) + Sum(w, s.external)
      == Sum(InHand(w), s.agents) + Sum(w, s.accepted) + Sum(w, s.rejected)
  }

  /** Everything accepted, and every drop report, is queued, in flight, ingested, or lost. */
  ghost predicate AcceptedBalance(w: Weight, s: State) {
    Sum(w, s.accepted) + Sum(w, s.synthesized)
      == Sum(InQueue(w), s.buffers) + Sum(InFlight(w), s.agents) + Sum(w, s.ingested) + Sum(w, s.lost)
  }

  /** Everything popped, and every drop report, is in flight or ingested. */
  ghost predicate PoppedBalance(w: Weight, s: State) {
    Sum(EverPopped(w), s.buffers) + Sum(w, s.synthesized) == Sum(InFlight(w), s.agents) + Sum(w, s.ingested)
  }

  /** The eager log holds every accepted event, and one drop for every rejected one. */
  ghost predicate LogBalance(w: Weight, s: State) {
    Sum(w, s.log) == Sum(w, s.accepted) + Sum(AsDrop(w), s.rejected)
  }

  /** Everything accepted was accepted by some buffer. */
  ghost predicate BufferBalance(w: Weight, s: State) {
    Sum(w, s.accepted) == Sum(EverAccepted(w), s.buffers)
  }

  ghost predicate Balanced(w: Weight, s: State) {
    && OfferedBalance(w, s) && AcceptedBalance(w, s) && PoppedBalance(w, s) && LogBalance(w, s)
    && BufferBalance(w, s)
  }

  lemma AgentUpdated(w: Weight, agents: seq<Agent>, i: nat, g: Agent)
    requires i < |agents|
    ensures Sum(InHand(w), agents[i := g]) == Sum(InHand(w), agents) - Sum(w, agents[i].hand) + Sum(w, g.hand)
    ensures Sum(InFlight(w), agents[i := g]) == Sum(InFlight(w), agents) - Sum(w, agents[i].batch) + Sum(w, g.batch)
  {
    SumUpdate(InHand(w), agents, i, g);
    SumUpdate(InFlight(w), agents, i, g);
  }

  lemma BufferUpdated(w: Weight, buffers: seq<Buffer>, b: nat, buf: Buffer)
    requires b < |buffers|
    ensures Sum(InQueue(w), buffers[b := buf])
      == Sum(InQueue(w), buffers) - Sum(w, buffers[b].queue) + Sum(w, buf.queue)
    ensures Sum(EverPopped(w), buffers[b := buf])
      == Sum(EverPopped(w), buffers) - Sum(w, buffers[b].popped) + Sum(w, buf.popped)
    ensures Sum(EverAccepted(w), buffers[b := buf])
      == Sum(EverAccepted(w), buffers) - Sum(w, buffers[b].accepted) + Sum(w, buf.accepted)
  {
    SumUpdate(EverAccepted(w), buffers, b, buf);
    SumUpdate(InQueue(w), buffers, b, buf);
    SumUpdate(EverPopped(w), buffers, b, buf);
  }

  lemma HoldBalanced(w: Weight, s: State, i: nat, events: Batch)
    requires Balanced(w, s) && i < |s.agents|
    ensures Balanced(w, Hold(s, i, events))
  {
    var s' := Hold(s, i, events);
    AgentUpdated(w, s.agents, i, s'.agents[i]);
    SumConcat(w, s.agents[i].hand, events);
    SumConcat(w, s.emitted, events);
  }

  /** A step that changes an agent's position but moves no event. */
  lemma AgentNeutral(w: Weight, s: State, i: nat, g: Agent, s': State)
    requires Balanced(w, s) && i < |s.agents|
    requires g.hand == s.agents[i].hand && g.batch == s.agents[i].batch
    requires s' == s.(index := s'.index, agents := s.agents[i := g], registry := s'.registry, lock := s'.lock)
    ensures Balanced(w, s')
  {
    AgentUpdated(w, s.agents, i, g);
  }

  lemma HotBalanced(w: Weight, s: State, index: Index, i: nat, events: Batch)
    requires Balanced(w, s) && i < |s.agents|
    ensures Balanced(w, Hold(s.(index := index), i, events))
  {
    HoldBalanced(w, s.(index := index), i, events);
  }

  lemma ReallocRemoveBalanced(c: Config, w: Weight, s: State, a: Action)
    requires Balanced(w, s) && a.ReallocRemove? && a.agent < |s.agents|
    ensures Balanced(w, RemovedForRealloc(c, s, a))
  {
    if a.address !in s.index {
      HoldBalanced(w, s, a.agent, if c.sampling then [] else [DroppedEvent(2)]);
    } else {
      var held := s.(index := Without(s.index, a.address));
      var dealloc := DeallocationOf(a.address, a.oldSize, s.index[a.address]);
      HoldBalanced(w, held, a.agent, [dealloc]);
      var s' := RemovedForRealloc(c, s, a);
      AgentNeutral(w, Hold(held, a.agent, [dealloc]), a.agent, s'.agents[a.agent], s');
    }
  }

  lemma ReallocInsertBalanced(w: Weight, s: State, a: Action)
    requires Balanced(w, s) && a.ReallocInsert? && a.agent < |s.agents| && s.agents[a.agent].pending.Some?
    ensures Balanced(w, InsertedForRealloc(s, a))
  {
    var p := s.agents[a.agent].pending.value;
    var r := Record(p.size, a.stackId);
    var g := s.agents[a.agent].(pending := None);
    var s' := s.(index := s.index[p.address := r], agents := s.agents[a.agent := g]);
    AgentNeutral(w, s, a.agent, g, s');
    HoldBalanced(w, s', a.agent, [AllocationOf(p.address, r)]);
  }

  lemma RecordBalanced(w: Weight, s: State, a: Action)
    requires Balanced(w, s) && a.RecordEvent? && a.agent < |s.agents|
    ensures Balanced(w, Recorded(s, a))
  {
    AgentUpdated(w, s.agents, a.agent, Recorded(s, a).agents[a.agent]);
    SumSnoc(w, s.agents[a.agent].hand, a.event);
    SumSnoc(w, s.external, a.event);
  }

  lemma RegisterBalanced(w: Weight, s: State, a: Action)
    requires Balanced(w, s) && a.agent < |s.agents|
    ensures Balanced(w, Registered(s, a))
  {
    AgentUpdated(w, s.agents, a.agent, Registered(s, a).agents[a.agent]);
    SumSnoc(InQueue(w), s.buffers, NEW_BUFFER);
    SumSnoc(EverPopped(w), s.buffers, NEW_BUFFER);
    SumSnoc(EverAccepted(w), s.buffers, NEW_BUFFER);
  }

  lemma PushBalanced(c: Config, w: Weight, s: State, a: Action)
    requires Balanced(w, s) && a.Push? && Enabled(c, s, a)
    ensures Balanced(w, Pushed(c, s, a))
  {
    var g := s.agents[a.agent];
    var b, e := g.buffer.value, g.hand[0];
    var s' := Pushed(c, s, a);
    AgentUpdated(w, s.agents, a.agent, s'.agents[a.agent]);
    SumHead(w, g.hand);
    if |s.buffers[b].queue| < c.capacity {
      BufferUpdated(w, s.buffers, b, s'.buffers[b]);
      SumSnoc(w, s.buffers[b].queue, e);
      SumSnoc(w, s.buffers[b].accepted, e);
      SumSnoc(w, s.accepted, e);
      SumSnoc(w, s.log, e);
    } else {
      SumSnoc(w, s.rejected, e);
      SumSnoc(w, s.log, DroppedEvent(1));
      SumSnoc(AsDrop(w), s.rejected, e);
    }
  }

  lemma CountDropBalanced(c: Config, w: Weight, s: State, a: Action)
    requires Balanced(w, s) && a.CountDrop? && Enabled(c, s, a)
    ensures Balanced(w, Counted(c, s, a))
  {
    var b := s.agents[a.agent].buffer.value;
    AgentUpdated(w, s.agents, a.agent, Counted(c, s, a).agents[a.agent]);
    BufferUpdated(w, s.buffers, b, Counted(c, s, a).buffers[b]);
  }

  lemma DiscardBalanced(w: Weight, s: State, b: nat)
    requires Balanced(w, s) && b < |s.buffers|
    ensures Balanced(w, Discarded(s, b))
  {
    BufferUpdated(w, s.buffers, b, Discarded(s, b).buffers[b]);
    SumConcat(w, s.lost, s.buffers[b].queue);
  }

  lemma ExitBalanced(c: Config, w: Weight, s: State, a: Action)
    requires Balanced(w, s) && a.Exit? && Enabled(c, s, a)
    ensures Balanced(w, Exited(c, s, a))
  {
    var b := s.agents[a.agent].buffer.value;
    var g := s.agents[a.agent].(buffer := None);
    var s' := s.(agents := s.agents[a.agent := g]);
    AgentNeutral(w, s, a.agent, g, s');
    if BeingDrained(s, b) {
      BufferUpdated(w, s.buffers, b, s.buffers[b].(owned := false));
    } else {
      DiscardBalanced(w, s', b);
    }
  }

  lemma VisitBalanced(c: Config, w: Weight, s: State, a: Action)
    requires Balanced(w, s) && a.Visit? && Enabled(c, s, a)
    ensures Balanced(w, Visited(c, s, a))
  {
    var s' := Visited(c, s, a);
    AgentNeutral(w, s, a.agent, s'.agents[a.agent], s');
  }

  lemma PopBalanced(c: Config, w: Weight, s: State, a: Action)
    requires Balanced(w, s) && a.Pop? && Enabled(c, s, a)
    ensures Balanced(w, Popped(c, s, a))
  {
    var g := s.agents[a.agent];
    var b := s.registry[g.drain.at];
    var e := s.buffers[b].queue[0];
    AgentUpdated(w, s.agents, a.agent, Popped(c, s, a).agents[a.agent]);
    BufferUpdated(w, s.buffers, b, Popped(c, s, a).buffers[b]);
    SumHead(w, s.buffers[b].queue);
    SumSnoc(w, s.buffers[b].popped, e);
    SumSnoc(w, g.batch, e);
  }

  /** A drain moves on with a drop report added to its batch. */
  lemma ReportBalanced(w: Weight, s: State, i: nat, b: nat, buf: Buffer, report: Batch, drain: Drain)
    requires Balanced(w, s) && i < |s.agents| && b < |s.buffers|
    requires buf.queue == s.buffers[b].queue && buf.popped == s.buffers[b].popped
    requires buf.accepted == s.buffers[b].accepted
    ensures Balanced(w, s.(
      agents := s.agents[i := s.agents[i].(batch := s.agents[i].batch + report, drain := drain)],
      buffers := s.buffers[b := buf],
      synthesized := s.synthesized + report))
  {
    AgentUpdated(w, s.agents, i, s.agents[i].(batch := s.agents[i].batch + report, drain := drain));
    BufferUpdated(w, s.buffers, b, buf);
    SumConcat(w, s.agents[i].batch, report);
    SumConcat(w, s.synthesized, report);
  }

  lemma SwapBalanced(c: Config, w: Weight, s: State, a: Action)
    requires Balanced(w, s) && a.Swap? && Enabled(c, s, a)
    ensures Balanced(w, Swapped(c, s, a))
  {
    hide Balanced;
    var g := s.agents[a.agent];
    var b := s.registry[g.drain.at];
    var buf := s.buffers[b];
    var report := if buf.dropped > 0 then [DroppedEvent(buf.dropped)] else [];
    var s' := s.(
      agents := s.agents[a.agent := g.(batch := g.batch + report, drain := Visiting(g.drain.at + 1))],
      buffers := s.buffers[b := buf.(dropped := 0)],
      synthesized := s.synthesized + report);
    ReportBalanced(w, s, a.agent, b, buf.(dropped := 0), report, Visiting(g.drain.at + 1));
    DiscardBalanced(w, s', b);
  }

  lemma IngestBalanced(w: Weight, s: State, a: Action)
    requires Balanced(w, s) && a.agent < |s.agents|
    ensures Balanced(w, Merged(s, a))
  {
    AgentUpdated(w, s.agents, a.agent, Merged(s, a).agents[a.agent]);
    SumConcat(w, s.ingested, s.agents[a.agent].batch);
  }

  lemma StepBalanced(c: Config, w: Weight, s: State, a: Action)
    requires Balanced(w, s) && Enabled(c, s, a)
    ensures Balanced(w, Next(c, s, a))
  {
    hide Balanced;
    match a
    case Allocate(_, _, _, _, _) =>
      var (index, hot) := PreparedAllocation(s.index, a.address, a.size, a.sampled, a.stackId);
      HotBalanced(w, s, index, a.agent, HotEvents(hot));
    case Deallocate(_, _, _) =>
      var (index, hot) := PreparedDeallocation(s.index, a.address, a.size, c.sampling);
      HotBalanced(w, s, index, a.agent, HotEvents(hot));
    case ReallocRemove(_, _, _, _, _, _) => ReallocRemoveBalanced(c, w, s, a);
    case ReallocInsert(_, _) => ReallocInsertBalanced(w, s, a);
    case RecordEvent(_, _) => RecordBalanced(w, s, a);
    case Register(_) => RegisterBalanced(w, s, a);
    case Push(_) => PushBalanced(c, w, s, a);
    case CountDrop(_) => CountDropBalanced(c, w, s, a);
    case Exit(_) => ExitBalanced(c, w, s, a);
    case BeginDrain(i) => AgentNeutral(w, s, i, s.agents[i].(drain := Visiting(0)), Next(c, s, a));
    case Visit(_) => VisitBalanced(c, w, s, a);
    case Pop(_) => PopBalanced(c, w, s, a);
    case SeeEmpty(i) => AgentNeutral(w, s, i, s.agents[i].(drain := Swapping(s.agents[i].drain.at)), Next(c, s, a));
    case Swap(_) => SwapBalanced(c, w, s, a);
    case EndVisit(i) => AgentNeutral(w, s, i, s.agents[i].(drain := Ingesting), Next(c, s, a));
    case Ingest(_) => IngestBalanced(w, s, a);
  }

  lemma {:induction false} RunBalanced(c: Config, w: Weight, trace: seq<State>)
    requires Run(c, trace)
    ensures Balanced(w, Last(trace))
  {
    if |trace| == 1 {
      SumZero(InHand(w), trace[0].agents);
      SumZero(InFlight(w), trace[0].agents);
    } else {
      RunPrefix(c, trace);
      RunBalanced(c, w, trace[..|trace| - 1]);
      var s, s' := Last(trace[..|trace| - 1]), Last(trace);
      var a :| Enabled(c, s, a) && s' == Next(c, s, a);
      StepBalanced(c, w, s, a);
    }
  }
}
