/** The lossy, batched, reordered pipeline agrees with an eager tracer that applies every event at once. */
module PipelineRefinement {
  import opened Words
  import opened Sums
  import opened Events
  import opened Aggregation
  import opened Tracing
  import opened Pipeline
  import opened PipelineStructure
  import opened PipelineLedgers

  // What is in all the hands, batches and queues together.

  ghost function Hands(agents: seq<Agent>): Batch {
    if |agents| == 0 then [] else Hands(agents[..|agents| - 1]) + agents[|agents| - 1].hand
  }

  ghost function Batches(agents: seq<Agent>): Batch {
    if |agents| == 0 then [] else Batches(agents[..|agents| - 1]) + agents[|agents| - 1].batch
  }

  ghost function Queues(buffers: seq<Buffer>): Batch {
    if |buffers| == 0 then [] else Queues(buffers[..|buffers| - 1]) + buffers[|buffers| - 1].queue
  }

  ghost function Taken(buffers: seq<Buffer>): Batch {
    if |buffers| == 0 then [] else Taken(buffers[..|buffers| - 1]) + buffers[|buffers| - 1].popped
  }

  ghost function AllAccepted(buffers: seq<Buffer>): Batch {
    if |buffers| == 0 then [] else AllAccepted(buffers[..|buffers| - 1]) + buffers[|buffers| - 1].accepted
  }

  lemma {:induction false} SumOfAgents(w: Weight, agents: seq<Agent>)
    ensures Sum(w, Hands(agents)) == Sum(InHand(w), agents)
    ensures Sum(w, Batches(agents)) == Sum(InFlight(w), agents)
  {
    if |agents| > 0 {
      var most, last := agents[..|agents| - 1], agents[|agents| - 1];
      SumOfAgents(w, most);
      SumConcat(w, Hands(most), last.hand);
      SumConcat(w, Batches(most), last.batch);
    }
  }

  lemma {:induction false} SumOfBuffers(w: Weight, buffers: seq<Buffer>)
    ensures Sum(w, Queues(buffers)) == Sum(InQueue(w), buffers)
    ensures Sum(w, Taken(buffers)) == Sum(EverPopped(w), buffers)
    ensures Sum(w, AllAccepted(buffers)) == Sum(EverAccepted(w), buffers)
  {
    if |buffers| > 0 {
      var most, last := buffers[..|buffers| - 1], buffers[|buffers| - 1];
      SumOfBuffers(w, most);
      SumConcat(w, Queues(most), last.queue);
      SumConcat(w, Taken(most), last.popped);
      SumConcat(w, AllAccepted(most), last.accepted);
    }
  }

  lemma SameBag(a: Batch, b: Batch)
    requires forall x :: Sum(Occurs(x), a) == Sum(Occurs(x), b)
    ensures multiset(a) == multiset(b)
  {
    forall x ensures multiset(a)[x] == multiset(b)[x] {
      SumOccurs(x, a);
      SumOccurs(x, b);
    }
  }

  lemma Sum3(w: Weight, a: Batch, b: Batch, c: Batch)
    ensures Sum(w, a + b + c) == Sum(w, a) + Sum(w, b) + Sum(w, c)
  {
    SumConcat(w, a + b, c);
    SumConcat(w, a, b);
  }

  lemma Sum4(w: Weight, a: Batch, b: Batch, c: Batch, d: Batch)
    ensures Sum(w, a + b + c + d) == Sum(w, a) + Sum(w, b) + Sum(w, c) + Sum(w, d)
  {
    SumConcat(w, a + b + c, d);
    Sum3(w, a, b, c);
  }

  /** Each accepted event was accepted by one buffer. */
  lemma AcceptedByBuffers(c: Config, trace: seq<State>)
    requires Run(c, trace)
    ensures multiset(Last(trace).accepted) == multiset(AllAccepted(Last(trace).buffers))
  {
    var s := Last(trace);
    forall x ensures Sum(Occurs(x), s.accepted) == Sum(Occurs(x), AllAccepted(s.buffers)) {
      RunBalanced(c, Occurs(x), trace);
      SumOfBuffers(Occurs(x), s.buffers);
    }
    SameBag(s.accepted, AllAccepted(s.buffers));
  }

  /**
   * Conservation: at every moment of every run, each event handed to `enqueue_event` is in exactly one place: in
   * a hand, rejected, or accepted; and each accepted event or drop report is in exactly one of a queue, a
   * drainer's batch, the ingested events and the events lost with a dead buffer.
   */
  lemma EventsConserved(c: Config, trace: seq<State>)
    requires Run(c, trace)
    ensures var s := Last(trace);
      && multiset(s.emitted + s.external) == multiset(Hands(s.agents) + s.accepted + s.rejected)
      && multiset(s.accepted + s.synthesized)
           == multiset(Queues(s.buffers) + Batches(s.agents) + s.ingested + s.lost)
      && multiset(Taken(s.buffers) + s.synthesized) == multiset(Batches(s.agents) + s.ingested)
  {
    var s := Last(trace);
    forall x
      ensures Sum(Occurs(x), s.emitted + s.external) == Sum(Occurs(x), Hands(s.agents) + s.accepted + s.rejected)
      ensures Sum(Occurs(x), s.accepted + s.synthesized)
        == Sum(Occurs(x), Queues(s.buffers) + Batches(s.agents) + s.ingested + s.lost)
      ensures Sum(Occurs(x), Taken(s.buffers) + s.synthesized) == Sum(Occurs(x), Batches(s.agents) + s.ingested)
    {
      var w := Occurs(x);
      RunBalanced(c, w, trace);
      SumOfAgents(w, s.agents);
      SumOfBuffers(w, s.buffers);
      SumConcat(w, s.emitted, s.external);
      SumConcat(w, s.accepted, s.synthesized);
      SumConcat(w, Taken(s.buffers), s.synthesized);
      SumConcat(w, Batches(s.agents), s.ingested);
      Sum3(w, Hands(s.agents), s.accepted, s.rejected);
      Sum4(w, Queues(s.buffers), Batches(s.agents), s.ingested, s.lost);
    }
    SameBag(s.emitted + s.external, Hands(s.agents) + s.accepted + s.rejected);
    SameBag(s.accepted + s.synthesized, Queues(s.buffers) + Batches(s.agents) + s.ingested + s.lost);
    SameBag(Taken(s.buffers) + s.synthesized, Batches(s.agents) + s.ingested);
  }

  // Drops.

  ghost function Dropping(): Buffer -> int {
    (b: Buffer) => b.dropped
  }

  ghost function Uncounted(): Agent -> int {
    (g: Agent) => if g.uncounted then 1 else 0
  }

  /** Drops counted by a buffer, or about to be, that no drain has reported. */
  ghost function PendingDrops(s: State): int {
    Sum(Dropping(), s.buffers) + Sum(Uncounted(), s.agents)
  }

  /** Each rejected push is counted once: pending, reported by a drain, or lost with a dead buffer. */
  ghost predicate DropsBalanced(s: State) {
    && PendingDrops(s) + s.lostDrops + Sum(DropUnits(), s.synthesized) == |s.rejected|
    && forall i :: 0 <= i < |s.synthesized| ==> s.synthesized[i].kind.Dropped?
  }

  lemma DropsUnmoved(s: State, i: nat, g: Agent, s': State)
    requires DropsBalanced(s) && i < |s.agents| && s'.agents == s.agents[i := g]
    requires g.uncounted == s.agents[i].uncounted
    requires s'.buffers == s.buffers && s'.lostDrops == s.lostDrops
    requires s'.synthesized == s.synthesized && s'.rejected == s.rejected
    ensures DropsBalanced(s')
  {
    SumUpdate(Uncounted(), s.agents, i, g);
  }

  lemma PushDrops(c: Config, s: State, a: Action)
    requires DropsBalanced(s) && a.Push? && Enabled(c, s, a)
    ensures DropsBalanced(Pushed(c, s, a))
  {
    var b := s.agents[a.agent].buffer.value;
    var s' := Pushed(c, s, a);
    SumUpdate(Uncounted(), s.agents, a.agent, s'.agents[a.agent]);
    SumUpdate(Dropping(), s.buffers, b, s'.buffers[b]);
    if |s.buffers[b].queue| >= c.capacity {
      assert s'.buffers == s.buffers;
    }
  }

  lemma CountDrops(c: Config, s: State, a: Action)
    requires DropsBalanced(s) && a.CountDrop? && Enabled(c, s, a)
    ensures DropsBalanced(Counted(c, s, a))
  {
    var b := s.agents[a.agent].buffer.value;
    SumUpdate(Uncounted(), s.agents, a.agent, Counted(c, s, a).agents[a.agent]);
    SumUpdate(Dropping(), s.buffers, b, Counted(c, s, a).buffers[b]);
  }

  lemma DiscardDrops(s: State, b: nat)
    requires DropsBalanced(s) && b < |s.buffers|
    ensures DropsBalanced(Discarded(s, b))
  {
    SumUpdate(Dropping(), s.buffers, b, Discarded(s, b).buffers[b]);
  }

  lemma ExitDrops(c: Config, s: State, a: Action)
    requires DropsBalanced(s) && a.Exit? && Enabled(c, s, a)
    ensures DropsBalanced(Exited(c, s, a))
  {
    var b := s.agents[a.agent].buffer.value;
    var g := s.agents[a.agent].(buffer := None);
    var s' := s.(agents := s.agents[a.agent := g]);
    DropsUnmoved(s, a.agent, g, s');
    if BeingDrained(s, b) {
      SumUpdate(Dropping(), s.buffers, b, s.buffers[b].(owned := false));
    } else {
      DiscardDrops(s', b);
    }
  }

  lemma SwapDrops(c: Config, s: State, a: Action)
    requires DropsBalanced(s) && a.Swap? && Enabled(c, s, a)
    ensures DropsBalanced(Swapped(c, s, a))
  {
    hide Sum;
    var g := s.agents[a.agent];
    var b := s.registry[g.drain.at];
    var buf := s.buffers[b];
    var report := if buf.dropped > 0 then [DroppedEvent(buf.dropped)] else [];
    var g' := g.(batch := g.batch + report, drain := Visiting(g.drain.at + 1));
    var s' := s.(agents := s.agents[a.agent := g'], buffers := s.buffers[b := buf.(dropped := 0)],
                 synthesized := s.synthesized + report);
    SumUpdate(Uncounted(), s.agents, a.agent, g');
    SumUpdate(Dropping(), s.buffers, b, buf.(dropped := 0));
    if buf.dropped > 0 {
      SumSnoc(DropUnits(), s.synthesized, DroppedEvent(buf.dropped));
    } else {
      assert s.synthesized + report == s.synthesized;
    }
    DiscardDrops(s', b);
  }

  lemma RegisterDrops(c: Config, s: State, a: Action)
    requires DropsBalanced(s) && Enabled(c, s, a) && a.Register?
    ensures DropsBalanced(Next(c, s, a))
  {
    var s' := Next(c, s, a);
    SumSnoc(Dropping(), s.buffers, NEW_BUFFER);
    SumUpdate(Uncounted(), s.agents, a.agent, s'.agents[a.agent]);
  }

  lemma PopDrops(c: Config, s: State, a: Action)
    requires DropsBalanced(s) && Enabled(c, s, a) && a.Pop?
    ensures DropsBalanced(Next(c, s, a))
  {
    var s', i := Next(c, s, a), a.agent;
    var b := s.registry[s.agents[i].drain.at];
    SumUpdate(Dropping(), s.buffers, b, s'.buffers[b]);
    SumUpdate(Uncounted(), s.agents, i, s'.agents[i]);
  }

  lemma StepDrops(c: Config, s: State, a: Action)
    requires DropsBalanced(s) && Enabled(c, s, a)
    ensures DropsBalanced(Next(c, s, a))
  {
    hide DropsBalanced, HotEvents, PreparedAllocation, PreparedDeallocation, IngestedAll;
    var s', i := Next(c, s, a), a.agent;
    match a
    case Register(_) => RegisterDrops(c, s, a);
    case Push(_) => PushDrops(c, s, a);
    case CountDrop(_) => CountDrops(c, s, a);
    case Exit(_) => ExitDrops(c, s, a);
    case Swap(_) => SwapDrops(c, s, a);
    case Pop(_) => PopDrops(c, s, a);
    case _ => DropsUnmoved(s, i, s'.agents[i], s');
  }

  lemma {:induction false} RunDrops(c: Config, trace: seq<State>)
    requires Run(c, trace)
    ensures DropsBalanced(Last(trace))
  {
    if |trace| == 1 {
      SumZero(Uncounted(), trace[0].agents);
    } else {
      RunPrefix(c, trace);
      RunDrops(c, trace[..|trace| - 1]);
      var s, s' := Last(trace[..|trace| - 1]), Last(trace);
      var a :| Enabled(c, s, a) && s' == Next(c, s, a);
      StepDrops(c, s, a);
    }
  }

  /**
   * Drop accounting: the drop units ingested, in flight, queued, pending or lost are exactly one per rejected
   * push, plus those of the accepted events themselves (a `Dropped` event counts for its count, an event whose
   * size does not fit an `i64` for one). A rejected `Dropped` event counts for one, whatever its count.
   */
  lemma DropUnitsConserved(c: Config, trace: seq<State>)
    requires Run(c, trace)
    ensures var s := Last(trace);
      var u := DropUnits();
      Sum(u, s.ingested) + Sum(u, Batches(s.agents)) + Sum(u, Queues(s.buffers)) + PendingDrops(s)
        + Sum(u, s.lost) + s.lostDrops
      == |s.rejected| + Sum(u, s.accepted)
  {
    var s := Last(trace);
    RunBalanced(c, DropUnits(), trace);
    RunDrops(c, trace);
    SumOfAgents(DropUnits(), s.agents);
    SumOfBuffers(DropUnits(), s.buffers);
  }

  /** What an event is worth if it is not to go unreported: a `Dropped` event its count, any event at least one. */
  ghost function OwnUnits(): Weight {
    (e: AllocationEvent) => match e.kind case Dropped(count) => Max(1, count) case _ => 1
  }

  predicate ManyDrops(e: AllocationEvent) {
    e.kind.Dropped? && e.kind.count > 1
  }

  lemma {:induction false} OwnUnitsAreOnes(events: Batch)
    ensures Sum(OwnUnits(), events) >= |events|
    ensures Sum(OwnUnits(), events) == |events| <==> forall i :: 0 <= i < |events| ==> !ManyDrops(events[i])
  {
    if |events| > 0 {
      var n := |events| - 1;
      OwnUnitsAreOnes(events[..n]);
      assert forall i :: 0 <= i < n ==> events[i] == events[..n][i];
    }
  }

  /** No drop is forgotten: each rejected event is accounted for at its own worth. */
  ghost predicate RejectionsFullyReported(s: State) {
    var u := DropUnits();
    Sum(u, s.ingested) + Sum(u, Batches(s.agents)) + Sum(u, Queues(s.buffers)) + PendingDrops(s)
      + Sum(u, s.lost) + s.lostDrops
    == Sum(OwnUnits(), s.rejected) + Sum(u, s.accepted)
  }

  /** Exactly when that holds: no `Dropped` event with a count above one was ever rejected. */
  lemma RejectionsFullyReportedIff(c: Config, trace: seq<State>)
    requires Run(c, trace)
    ensures RejectionsFullyReported(Last(trace))
      <==> forall i :: 0 <= i < |Last(trace).rejected| ==> !ManyDrops(Last(trace).rejected[i])
  {
    DropUnitsConserved(c, trace);
    OwnUnitsAreOnes(Last(trace).rejected);
  }

  // Refinement.

  ghost function Repeat(e: AllocationEvent, n: nat): Batch {
    if n == 0 then [] else Repeat(e, n - 1) + [e]
  }

  lemma {:induction false} SumRepeat(w: Weight, e: AllocationEvent, n: nat)
    ensures w(e) == 0 ==> Sum(w, Repeat(e, n)) == 0
    ensures w(e) == 1 ==> Sum(w, Repeat(e, n)) == n
  {
    if n > 0 {
      SumRepeat(w, e, n - 1);
      SumSnoc(w, Repeat(e, n - 1), e);
    }
  }

  /**
   * What the aggregator has not been told: other drainers' batches, the queues, the drops not yet reported, and
   * what went with dead buffers, which it will never be told.
   */
  ghost function Outstanding(s: State): Batch {
    Batches(s.agents) + Queues(s.buffers) + s.lost + Repeat(DroppedEvent(1), MissingDrops(s))
  }

  ghost function MissingDrops(s: State): nat {
    Max(0, PendingDrops(s)) + s.lostDrops
  }

  /** A weight that ignores drop reports sees the same in the log and in what was ingested or is outstanding. */
  lemma StackSums(c: Config, w: Weight, trace: seq<State>)
    requires Run(c, trace)
    requires forall count :: w(DroppedEvent(count)) == 0
    requires forall e: AllocationEvent :: e.kind.Dropped? ==> w(e) == 0
    ensures Sum(w, Last(trace).log) == Sum(w, Last(trace).ingested + Outstanding(Last(trace)))
  {
    var s := Last(trace);
    var n := MissingDrops(s);
    RunBalanced(c, w, trace);
    RunDrops(c, trace);
    SumOfAgents(w, s.agents);
    SumOfBuffers(w, s.buffers);
    SumZero(w, s.synthesized);
    SumZero(AsDrop(w), s.rejected);
    SumRepeat(w, DroppedEvent(1), n);
    SumConcat(w, s.ingested, Outstanding(s));
    Sum4(w, Batches(s.agents), Queues(s.buffers), s.lost, Repeat(DroppedEvent(1), n));
  }

  lemma {:induction false} SumOfOnes(w: Weight, a: Batch)
    requires w(DroppedEvent(1)) == 1
    ensures Sum(AsDrop(w), a) == |a|
  {
    if |a| > 0 {
      SumOfOnes(w, a[..|a| - 1]);
    }
  }

  lemma DropSums(c: Config, trace: seq<State>)
    requires Run(c, trace)
    ensures Sum(DropUnits(), Last(trace).log) == Sum(DropUnits(), Last(trace).ingested + Outstanding(Last(trace)))
  {
    var s, u := Last(trace), DropUnits();
    var n := MissingDrops(s);
    RunBalanced(c, u, trace);
    DropUnitsConserved(c, trace);
    SumNonNegative(Dropping(), s.buffers);
    SumNonNegative(Uncounted(), s.agents);
    SumOfOnes(u, s.rejected);
    SumRepeat(u, DroppedEvent(1), n);
    SumConcat(u, s.ingested, Outstanding(s));
    Sum4(u, Batches(s.agents), Queues(s.buffers), s.lost, Repeat(DroppedEvent(1), n));
  }

  lemma LogSums(c: Config, trace: seq<State>, id: StackId)
    requires Run(c, trace)
    ensures SameSums(Last(trace).log, Last(trace).ingested + Outstanding(Last(trace)), id)
  {
    StackSums(c, AllocBytes(id), trace);
    StackSums(c, FreedBytes(id), trace);
    StackSums(c, Allocs(id), trace);
    StackSums(c, Frees(id), trace);
    DropSums(c, trace);
  }

  /**
   * Refinement of an eager tracer. The log is what an eager tracer would have ingested: every accepted event at
   * the moment it was accepted, and one drop for every rejected one. At every moment of every run, ingesting
   * the outstanding events on top of the current aggregate gives the eager counters; a snapshot is thus behind by
   * exactly the queues, the batches of other drainers, and whatever died with a buffer.
   */
  lemma PipelineRefinesEager(c: Config, trace: seq<State>)
    requires Run(c, trace)
    ensures var s := Last(trace);
      && AgreeOnCounters(IngestedAll(EMPTY, s.log), IngestedAll(s.totals, Outstanding(s)))
      && ((forall id :: BytesInRange(s.log, id)) ==>
            IngestedAll(EMPTY, s.log) == IngestedAll(s.totals, Outstanding(s)))
  {
    var s := Last(trace);
    RunStructured(c, trace);
    IngestConcat(EMPTY, s.ingested, Outstanding(s));
    forall id ensures SameSums(s.log, s.ingested + Outstanding(s), id) {
      LogSums(c, trace, id);
    }
    SumsDetermineCounters(s.log, s.ingested + Outstanding(s));
    if forall id :: BytesInRange(s.log, id) {
      SumsDetermineAggregate(s.log, s.ingested + Outstanding(s));
    }
  }

  /** Nothing is queued, counted or in flight. */
  ghost predicate Settled(s: State) {
    && (forall i :: 0 <= i < |s.agents| ==> s.agents[i].batch == [] && !s.agents[i].uncounted)
    && (forall b :: 0 <= b < |s.buffers| ==> s.buffers[b].queue == [] && s.buffers[b].dropped == 0)
  }

  lemma {:induction false} EmptyBatches(agents: seq<Agent>)
    requires forall i :: 0 <= i < |agents| ==> agents[i].batch == []
    ensures Batches(agents) == []
  {
    if |agents| > 0 { EmptyBatches(agents[..|agents| - 1]); }
  }

  lemma {:induction false} EmptyQueues(buffers: seq<Buffer>)
    requires forall b :: 0 <= b < |buffers| ==> buffers[b].queue == []
    ensures Queues(buffers) == []
  {
    if |buffers| > 0 { EmptyQueues(buffers[..|buffers| - 1]); }
  }

  /** Once everything is drained, for any drain schedule, the aggregate is the eager one. */
  lemma SettledAggregateIsEager(c: Config, trace: seq<State>)
    requires Run(c, trace) && Settled(Last(trace)) && Last(trace).lost == [] && Last(trace).lostDrops == 0
    ensures var s := Last(trace);
      && AgreeOnCounters(IngestedAll(EMPTY, s.log), s.totals)
      && ((forall id :: BytesInRange(s.log, id)) ==> IngestedAll(EMPTY, s.log) == s.totals)
  {
    var s := Last(trace);
    EmptyBatches(s.agents);
    EmptyQueues(s.buffers);
    SumZero(Dropping(), s.buffers);
    SumZero(Uncounted(), s.agents);
    assert Outstanding(s) == [];
    PipelineRefinesEager(c, trace);
  }
}
