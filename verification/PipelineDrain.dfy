/**
 * A drain that nothing interrupts: its atomic steps, taken one after the other, do what the drain loop does in one
 * call, and a snapshot taken then is the eager tracer's.
 */
module PipelineDrain {
  import opened Words
  import opened Sums
  import opened Events
  import opened Aggregation
  import opened Tracing
  import opened Pipeline
  import opened PipelineStructure
  import opened PipelineCoverage
  import opened PipelineRefinement
  import RB = RingBuffer

  /** The registered buffers as a drain finds them. */
  function Sources(buffers: seq<Buffer>, registry: seq<nat>): (r: seq<RB.Source>)
    requires InBounds(buffers, registry)
    ensures |r| == |registry|
  {
    if |registry| == 0 then []
    else
      var buf := buffers[registry[0]];
      [RB.Source(buf.queue, buf.dropped, buf.owned)] + Sources(buffers, registry[1..])
  }

  /** The batch a drain gathers from them, in the order in which it is gathered. */
  function Batched(buffers: seq<Buffer>, registry: seq<nat>): (batch: Batch)
    requires InBounds(buffers, registry)
    ensures batch == RB.Gathered(Sources(buffers, registry))
  {
    if |registry| == 0 then []
    else
      var buf := buffers[registry[0]];
      RB.GatheredHead(Sources(buffers, registry));
      (if buf.owned then RB.Contribution(buf.queue, buf.dropped) else []) + Batched(buffers, registry[1..])
  }

  /** The registry entries a drain retains. */
  function Kept(buffers: seq<Buffer>, registry: seq<nat>): seq<nat>
    requires InBounds(buffers, registry)
  {
    if |registry| == 0 then []
    else (if buffers[registry[0]].owned then [registry[0]] else []) + Kept(buffers, registry[1..])
  }

  predicate InBounds(buffers: seq<Buffer>, registry: seq<nat>) {
    forall k :: 0 <= k < |registry| ==> registry[k] < |buffers|
  }

  function EmptiedBuffer(buf: Buffer): Buffer {
    buf.(queue := [], dropped := 0, popped := buf.popped + buf.queue)
  }

  ghost predicate AllEmptied(buffers: seq<Buffer>, registry: seq<nat>, after: seq<Buffer>) {
    && |after| == |buffers|
    && forall b :: 0 <= b < |buffers| ==>
         after[b] == if buffers[b].owned && b in registry then EmptiedBuffer(buffers[b]) else buffers[b]
  }

  ghost predicate NoRepeats(registry: seq<nat>) {
    forall j, k :: 0 <= j < k < |registry| ==> registry[j] != registry[k]
  }

  lemma StepKeepsRegistry(c: Config, s: State, a: Action)
    requires Structured(c, s) && NoRepeats(s.registry) && Enabled(c, s, a)
    ensures NoRepeats(Next(c, s, a).registry)
  {
    hide OwnBuffers, BufferInv, BeingDrained, HotEvents, IngestedAll;
  }

  /** No buffer is ever registered twice. */
  lemma {:induction false} RunKeepsRegistry(c: Config, trace: seq<State>)
    requires Run(c, trace)
    ensures NoRepeats(Last(trace).registry)
  {
    hide Structured, Enabled, Next;
    if |trace| > 1 {
      RunPrefix(c, trace);
      RunKeepsRegistry(c, trace[..|trace| - 1]);
      RunStructured(c, trace[..|trace| - 1]);
      var s, s' := Last(trace[..|trace| - 1]), Last(trace);
      assert Step(c, s, s');
      var a :| Enabled(c, s, a) && s' == Next(c, s, a);
      StepKeepsRegistry(c, s, a);
    }
  }

  predicate At(s: State, i: nat, d: Drain) {
    i < |s.agents| && s.agents[i].drain == d
  }

  /** One live buffer has been drained: queue and drop report are in the batch, and the drain moves on. */
  function BufferDrained(s: State, i: nat, at: nat): State
    requires i < |s.agents| && AtBuffer(s, at)
  {
    var g, b := s.agents[i], s.registry[at];
    var buf := s.buffers[b];
    var batch := g.batch + RB.Contribution(buf.queue, buf.dropped);
    s.(agents := s.agents[i := g.(batch := batch, drain := Visiting(at + 1))],
       buffers := s.buffers[b := EmptiedBuffer(buf)],
       synthesized := s.synthesized + RB.Contribution([], buf.dropped))
  }

  lemma SwapAlone(c: Config, s: State, i: nat, at: nat)
    requires At(s, i, Popping(at)) && AtBuffer(s, at) && s.buffers[s.registry[at]].owned
    requires s.buffers[s.registry[at]].queue == []
    ensures Enabled(c, s, SeeEmpty(i)) && Enabled(c, Next(c, s, SeeEmpty(i)), Swap(i))
    ensures Next(c, Next(c, s, SeeEmpty(i)), Swap(i)) == BufferDrained(s, i, at)
  {
    var s1 := Next(c, s, SeeEmpty(i));
    var s2, e := Next(c, s1, Swap(i)), BufferDrained(s, i, at);
    var buf := s.buffers[s.registry[at]];
    assert s2.agents[i].batch == e.agents[i].batch;
    assert s2.agents == e.agents;
    assert buf.popped + [] == buf.popped;
    assert s2.buffers == e.buffers;
  }

  lemma PopAlone(c: Config, s: State, i: nat, at: nat)
    requires At(s, i, Popping(at)) && AtBuffer(s, at) && s.buffers[s.registry[at]].queue != []
    ensures Enabled(c, s, Pop(i))
    ensures var s1 := Next(c, s, Pop(i));
      && At(s1, i, Popping(at)) && AtBuffer(s1, at) && s1.registry == s.registry
      && BufferDrained(s1, i, at) == BufferDrained(s, i, at)
      && s1.buffers[s.registry[at]]
           == s.buffers[s.registry[at]].(queue := s.buffers[s.registry[at]].queue[1..],
                popped := s.buffers[s.registry[at]].popped + [s.buffers[s.registry[at]].queue[0]])
  {
    var s1 := Next(c, s, Pop(i));
    var q := s.buffers[s.registry[at]].queue;
    assert [q[0]] + q[1..] == q;
    var e, e1 := BufferDrained(s, i, at), BufferDrained(s1, i, at);
    assert e1.agents[i].batch == e.agents[i].batch;
    assert e1.agents == e.agents;
    assert e1.buffers[s.registry[at]].popped == e.buffers[s.registry[at]].popped;
    assert e1.buffers == e.buffers;
  }

  /** The pop loop. */
  lemma PopAll(c: Config, trace: seq<State>, i: nat, at: nat) returns (longer: seq<State>)
    requires Run(c, trace) && At(Last(trace), i, Popping(at)) && AtBuffer(Last(trace), at)
    requires Last(trace).buffers[Last(trace).registry[at]].owned
    ensures Run(c, longer) && trace <= longer && Last(longer) == BufferDrained(Last(trace), i, at)
    decreases |Last(trace).buffers[Last(trace).registry[at]].queue|
  {
    hide Init, Step, Enabled, Next, BufferDrained;
    var s := Last(trace);
    if s.buffers[s.registry[at]].queue == [] {
      SwapAlone(c, s, i, at);
      longer := RunExtended(c, trace, SeeEmpty(i));
      longer := RunExtended(c, longer, Swap(i));
    } else {
      PopAlone(c, s, i, at);
      longer := RunExtended(c, trace, Pop(i));
      longer := PopAll(c, longer, i, at);
    }
  }

  /** The drain from one registry position to its end. */
  function DrainedFrom(s: State, i: nat, at: nat): State
    requires i < |s.agents| && at <= |s.registry| && InBounds(s.buffers, s.registry)
    decreases |s.registry| - at
  {
    if at == |s.registry| then Merged(Moved(s, i, Ingesting).(lock := None), Ingest(i))
    else if s.buffers[s.registry[at]].owned then DrainedFrom(BufferDrained(s, i, at), i, at + 1)
    else DrainedFrom(s.(registry := s.registry[..at] + s.registry[at + 1..]), i, at)
  }

  lemma VisitAlone(c: Config, s: State, i: nat, at: nat)
    requires At(s, i, Visiting(at)) && AtBuffer(s, at)
    ensures Enabled(c, s, Visit(i))
    ensures var s1 := Next(c, s, Visit(i));
      if s.buffers[s.registry[at]].owned
      then At(s1, i, Popping(at)) && s1.registry == s.registry && s1.buffers == s.buffers
        && BufferDrained(s1, i, at) == BufferDrained(s, i, at)
      else s1 == s.(registry := s.registry[..at] + s.registry[at + 1..])
  {
    var s1 := Next(c, s, Visit(i));
    if s.buffers[s.registry[at]].owned {
      assert BufferDrained(s1, i, at).agents == BufferDrained(s, i, at).agents;
    }
  }

  lemma EndAlone(c: Config, s: State, i: nat)
    requires At(s, i, Visiting(|s.registry|)) && InBounds(s.buffers, s.registry)
    ensures Enabled(c, s, EndVisit(i)) && Enabled(c, Next(c, s, EndVisit(i)), Ingest(i))
    ensures Next(c, Next(c, s, EndVisit(i)), Ingest(i)) == DrainedFrom(s, i, |s.registry|)
  {
  }

  /** Every step of such a drain is enabled, and together they come to its end. */
  lemma DrainReaches(c: Config, trace: seq<State>, i: nat, at: nat) returns (longer: seq<State>)
    requires Run(c, trace) && At(Last(trace), i, Visiting(at))
    requires at <= |Last(trace).registry| && InBounds(Last(trace).buffers, Last(trace).registry)
    ensures Run(c, longer) && trace <= longer && Last(longer) == DrainedFrom(Last(trace), i, at)
    decreases |Last(trace).registry| - at
  {
    hide Init, Step, Enabled, Next;
    var s := Last(trace);
    if at == |s.registry| {
      EndAlone(c, s, i);
      longer := RunExtended(c, trace, EndVisit(i));
      longer := RunExtended(c, longer, Ingest(i));
    } else {
      VisitAlone(c, s, i, at);
      longer := RunExtended(c, trace, Visit(i));
      if s.buffers[s.registry[at]].owned {
        longer := PopAll(c, longer, i, at);
        longer := DrainReaches(c, longer, i, at + 1);
      } else {
        longer := DrainReaches(c, longer, i, at);
      }
    }
  }

  // What the end looks like.

  lemma {:induction false} GatheredElsewhere(buffers: seq<Buffer>, after: seq<Buffer>, registry: seq<nat>)
    requires InBounds(buffers, registry) && InBounds(after, registry)
    requires forall k :: 0 <= k < |registry| ==> after[registry[k]] == buffers[registry[k]]
    ensures Batched(after, registry) == Batched(buffers, registry)
    ensures Kept(after, registry) == Kept(buffers, registry)
  {
    if |registry| > 0 {
      assert after[registry[0]] == buffers[registry[0]];
      GatheredElsewhere(buffers, after, registry[1..]);
    }
  }

  /** What a drain by agent `i`, with `rest` of the registry still to visit, leaves behind. */
  ghost predicate DrainEffect(s: State, i: nat, at: nat, s': State)
    requires i < |s.agents| && at <= |s.registry| && InBounds(s.buffers, s.registry)
  {
    var rest := s.registry[at..];
    && s'.totals == IngestedAll(s.totals, s.agents[i].batch + Batched(s.buffers, rest))
    && s'.registry == s.registry[..at] + Kept(s.buffers, rest)
    && AllEmptied(s.buffers, rest, s'.buffers)
    && s'.agents == s.agents[i := s.agents[i].(batch := [], drain := NotDraining)]
    && s'.lock == None && s'.index == s.index && s'.log == s.log && s'.lost == s.lost && s'.lostDrops == s.lostDrops
  }

  /** Emptying the first entry's buffer and then those of the others empties all; no entry repeats. */
  lemma OneEmptied(buffers: seq<Buffer>, registry: seq<nat>, after: seq<Buffer>)
    requires |registry| > 0 && NoRepeats(registry) && InBounds(buffers, registry) && buffers[registry[0]].owned
    requires AllEmptied(buffers[registry[0] := EmptiedBuffer(buffers[registry[0]])], registry[1..], after)
    ensures AllEmptied(buffers, registry, after)
  {
    forall b | 0 <= b < |buffers|
      ensures after[b] == if buffers[b].owned && b in registry then EmptiedBuffer(buffers[b]) else buffers[b]
    {
      assert b in registry <==> b == registry[0] || b in registry[1..];
    }
  }

  /** Draining one buffer leaves those further on alone. */
  lemma BufferDrainedElsewhere(s: State, i: nat, at: nat)
    requires i < |s.agents| && at < |s.registry| && InBounds(s.buffers, s.registry) && NoRepeats(s.registry)
    ensures var s1, tail := BufferDrained(s, i, at), s.registry[at + 1..];
      && s1.registry == s.registry && InBounds(s1.buffers, s1.registry)
      && Batched(s1.buffers, tail) == Batched(s.buffers, tail) && Kept(s1.buffers, tail) == Kept(s.buffers, tail)
  {
    hide RB.Contribution;
    GatheredElsewhere(s.buffers, BufferDrained(s, i, at).buffers, s.registry[at + 1..]);
  }

  lemma RestSplits(buffers: seq<Buffer>, registry: seq<nat>, at: nat)
    requires at < |registry| && InBounds(buffers, registry) && buffers[registry[at]].owned
    ensures var buf, tail := buffers[registry[at]], registry[at + 1..];
      && Batched(buffers, registry[at..]) == RB.Contribution(buf.queue, buf.dropped) + Batched(buffers, tail)
      && Kept(buffers, registry[at..]) == [registry[at]] + Kept(buffers, tail)
  {
    hide RB.Contribution;
    assert registry[at..][1..] == registry[at + 1..];
  }

  lemma Regrouped<T>(a: seq<T>, b: seq<T>, c: seq<T>)
    ensures a + b + c == a + (b + c)
  {
  }

  lemma BufferDrainedBatch(s: State, i: nat, at: nat)
    requires i < |s.agents| && at < |s.registry| && InBounds(s.buffers, s.registry) && NoRepeats(s.registry)
    requires s.buffers[s.registry[at]].owned
    ensures var s1 := BufferDrained(s, i, at);
      && s1.registry == s.registry && InBounds(s1.buffers, s1.registry)
      && s1.agents[i].batch + Batched(s1.buffers, s1.registry[at + 1..])
           == s.agents[i].batch + Batched(s.buffers, s.registry[at..])
      && s1.registry[..at + 1] + Kept(s1.buffers, s1.registry[at + 1..])
           == s.registry[..at] + Kept(s.buffers, s.registry[at..])
  {
    var tail := s.registry[at + 1..];
    var buf := s.buffers[s.registry[at]];
    BufferDrainedElsewhere(s, i, at);
    RestSplits(s.buffers, s.registry, at);
    hide RB.Contribution, NoRepeats, Batched, Kept;
    Regrouped(s.agents[i].batch, RB.Contribution(buf.queue, buf.dropped), Batched(s.buffers, tail));
    Regrouped(s.registry[..at], [s.registry[at]], Kept(s.buffers, tail));
    assert s.registry[..at + 1] == s.registry[..at] + [s.registry[at]];
  }

  lemma BufferDrainedEffect(s: State, i: nat, at: nat, s': State)
    requires i < |s.agents| && at < |s.registry| && InBounds(s.buffers, s.registry) && NoRepeats(s.registry)
    requires s.buffers[s.registry[at]].owned && DrainEffect(BufferDrained(s, i, at), i, at + 1, s')
    ensures DrainEffect(s, i, at, s')
  {
    hide AllEmptied, IngestedAll, Batched, Kept, RB.Contribution;
    BufferDrainedBatch(s, i, at);
    var rest := s.registry[at..];
    assert rest[1..] == s.registry[at + 1..];
    assert s'.agents == s.agents[i := s.agents[i].(batch := [], drain := NotDraining)];
    assert NoRepeats(rest);
    hide NoRepeats;
    OneEmptied(s.buffers, rest, s'.buffers);
  }

  lemma RemovedEffect(s: State, i: nat, at: nat, s': State)
    requires i < |s.agents| && at < |s.registry| && InBounds(s.buffers, s.registry)
    requires !s.buffers[s.registry[at]].owned
    requires DrainEffect(s.(registry := s.registry[..at] + s.registry[at + 1..]), i, at, s')
    ensures DrainEffect(s, i, at, s')
  {
    var s1 := s.(registry := s.registry[..at] + s.registry[at + 1..]);
    var rest, tail := s.registry[at..], s.registry[at + 1..];
    assert s1.registry[at..] == tail && s1.registry[..at] == s.registry[..at];
    assert rest[0] == s.registry[at] && rest[1..] == tail;
    assert [] + Batched(s.buffers, tail) == Batched(s.buffers, tail);
    assert [] + Kept(s.buffers, tail) == Kept(s.buffers, tail);
    assert AllEmptied(s.buffers, rest, s'.buffers) by {
      forall b | 0 <= b < |s.buffers|
        ensures s'.buffers[b]
          == if s.buffers[b].owned && b in rest then EmptiedBuffer(s.buffers[b]) else s.buffers[b]
      {
        assert b in rest <==> b == rest[0] || b in tail;
      }
    }
  }

  lemma {:induction false} DrainedFromEffect(s: State, i: nat, at: nat)
    requires i < |s.agents| && at <= |s.registry| && InBounds(s.buffers, s.registry) && NoRepeats(s.registry)
    ensures DrainEffect(s, i, at, DrainedFrom(s, i, at))
    decreases |s.registry| - at
  {
    hide DrainEffect, BufferDrained;
    if at == |s.registry| {
      EndEffect(s, i);
    } else if s.buffers[s.registry[at]].owned {
      BufferDrainedShape(s, i, at);
      DrainedFromEffect(BufferDrained(s, i, at), i, at + 1);
      BufferDrainedEffect(s, i, at, DrainedFrom(s, i, at));
    } else {
      var s1 := s.(registry := s.registry[..at] + s.registry[at + 1..]);
      DrainedFromEffect(s1, i, at);
      RemovedEffect(s, i, at, DrainedFrom(s, i, at));
    }
  }

  lemma BufferDrainedShape(s: State, i: nat, at: nat)
    requires i < |s.agents| && AtBuffer(s, at)
    ensures var s1 := BufferDrained(s, i, at);
      |s1.agents| == |s.agents| && |s1.buffers| == |s.buffers| && s1.registry == s.registry
  {
  }

  lemma EndEffect(s: State, i: nat)
    requires i < |s.agents| && InBounds(s.buffers, s.registry)
    ensures DrainEffect(s, i, |s.registry|, DrainedFrom(s, i, |s.registry|))
  {
    var rest := s.registry[|s.registry|..];
    assert rest == [];
    assert s.agents[i].batch + Batched(s.buffers, rest) == s.agents[i].batch;
    assert s.registry[..|s.registry|] + Kept(s.buffers, rest) == s.registry;
  }

  /**
   * An uninterrupted drain can always run to its end, and then it has done what the loop over buffers does: the
   * aggregate has ingested one batch with each live buffer's queue and drop report in registry order, live
   * buffers are empty, dead entries are gone, and nothing else has changed.
   */
  lemma DrainIsItsSteps(c: Config, trace: seq<State>, i: nat) returns (longer: seq<State>)
    requires Run(c, trace) && Enabled(c, Last(trace), BeginDrain(i))
    ensures Run(c, longer) && trace <= longer
    ensures var s, s' := Last(trace), Last(longer);
      && InBounds(s.buffers, s.registry)
      && s'.totals == IngestedAll(s.totals, RB.Gathered(Sources(s.buffers, s.registry)))
      && s'.registry == Kept(s.buffers, s.registry)
      && AllEmptied(s.buffers, s.registry, s'.buffers)
      && s'.agents == s.agents && s'.lock == None && s'.index == s.index
      && s'.log == s.log && s'.lost == s.lost && s'.lostDrops == s.lostDrops
  {
    hide Init, Step, DrainEffect, DrainedFrom, Batched, Kept, AllEmptied;
    var s := Last(trace);
    RunStructured(c, trace);
    RunKeepsRegistry(c, trace);
    longer := RunExtended(c, trace, BeginDrain(i));
    var s1 := Last(longer);
    DrainedFromEffect(s1, i, 0);
    longer := DrainReaches(c, longer, i, 0);
    BeganEffect(c, s, i, Last(longer));
  }

  lemma BeganEffect(c: Config, s: State, i: nat, s': State)
    requires Structured(c, s) && Enabled(c, s, BeginDrain(i)) && InBounds(s.buffers, s.registry)
    requires DrainEffect(Next(c, s, BeginDrain(i)), i, 0, s')
    ensures s'.totals == IngestedAll(s.totals, Batched(s.buffers, s.registry))
    ensures s'.registry == Kept(s.buffers, s.registry) && AllEmptied(s.buffers, s.registry, s'.buffers)
    ensures s'.agents == s.agents && s'.lock == None && s'.index == s.index
    ensures s'.log == s.log && s'.lost == s.lost && s'.lostDrops == s.lostDrops
  {
    hide OwnBuffers, BufferInv, IngestedAll, Batched, Kept;
    AgentOf(c, s, i);
    assert s.registry[0..] == s.registry;
    assert [] + Batched(s.buffers, s.registry) == Batched(s.buffers, s.registry);
    assert [] + Kept(s.buffers, s.registry) == Kept(s.buffers, s.registry);
    assert s.agents[i] == s.agents[i].(batch := [], drain := NotDraining);
  }

  /** What an uninterrupted drain leaves outstanding: what others have in flight, uncounted or lost. */
  ghost function StillOutstanding(s: State): Batch {
    Batches(s.agents) + s.lost + Repeat(DroppedEvent(1), Max(0, Sum(Uncounted(), s.agents)) + s.lostDrops)
  }

  /** No agent holds a batch or a rejection it has not counted, and no buffer has died with anything in it. */
  ghost predicate Alone(s: State) {
    && (forall j :: 0 <= j < |s.agents| ==> s.agents[j].batch == [] && !s.agents[j].uncounted)
    && s.lost == [] && s.lostDrops == 0
  }

  lemma NothingQueued(c: Config, s: State, s': State)
    requires Structured(c, s) && s.lock.None? && AllEmptied(s.buffers, s.registry, s'.buffers)
    ensures forall b :: 0 <= b < |s'.buffers| ==> s'.buffers[b].queue == [] && s'.buffers[b].dropped == 0
  {
    forall b | 0 <= b < |s'.buffers| ensures s'.buffers[b].queue == [] && s'.buffers[b].dropped == 0 {
      if s.buffers[b].owned {
        assert b in s.registry;
      } else {
        assert !BeingDrained(s, b);
        assert !Unreported(s.buffers[b]);
      }
    }
  }

  /**
   * A snapshot whose drain nothing interrupts is behind the eager tracer, at that moment, by exactly the batches of
   * other drainers, the rejections not yet counted, and what died with a buffer; nothing queued is missing. So with
   * no such batch, rejection or loss, it is the eager tracer's.
   */
  lemma SnapshotIsBehindByBatches(c: Config, trace: seq<State>, i: nat) returns (longer: seq<State>)
    requires Run(c, trace) && Enabled(c, Last(trace), BeginDrain(i))
    ensures Run(c, longer) && trace <= longer
    ensures var s, s' := Last(trace), Last(longer);
      && InBounds(s.buffers, s.registry)
      && s'.totals == IngestedAll(s.totals, RB.Gathered(Sources(s.buffers, s.registry)))
      && s'.agents == s.agents && s'.log == s.log
      && AgreeOnCounters(IngestedAll(EMPTY, s.log), IngestedAll(s'.totals, StillOutstanding(s)))
      && ((forall id :: BytesInRange(s.log, id)) ==>
            IngestedAll(EMPTY, s.log) == IngestedAll(s'.totals, StillOutstanding(s)))
      && (Alone(s) ==> StillOutstanding(s) == [] && Settled(s'))
  {
    hide Init, Step, RB.Gathered, Sources, Kept, AgreeOnCounters, IngestedAll, BytesInRange;
    longer := DrainIsItsSteps(c, trace, i);
    var s, s' := Last(trace), Last(longer);
    RunStructured(c, trace);
    NothingQueued(c, s, s');
    hide Structured, AllEmptied;
    EmptyQueues(s'.buffers);
    SumZero(Dropping(), s'.buffers);
    assert Outstanding(s') == StillOutstanding(s);
    PipelineRefinesEager(c, longer);
    if Alone(s) {
      EmptyBatches(s.agents);
      SumZero(Uncounted(), s.agents);
    }
  }

  // A drain ends.

  /** Steps a drain may need for these registry entries: a visit, the pops, a look at the empty queue, a swap. */
  function Work(buffers: seq<Buffer>, registry: seq<nat>): nat {
    if |registry| == 0 then 0
    else (if registry[0] < |buffers| then 3 + |buffers[registry[0]].queue| else 3) + Work(buffers, registry[1..])
  }

  /** Steps agent `i`'s drain may still need. */
  function Remaining(s: State, i: nat): nat
    requires i < |s.agents|
  {
    match s.agents[i].drain
    case NotDraining => 0
    case Visiting(at) => if at <= |s.registry| then 2 + Work(s.buffers, s.registry[at..]) else 0
    case Popping(at) => if at < |s.registry| then 1 + Work(s.buffers, s.registry[at..]) else 0
    case Swapping(at) => if at < |s.registry| then 3 + Work(s.buffers, s.registry[at + 1..]) else 0
    case Ingesting => 1
  }

  /** Queues other than that of `b` do not grow, and that one by `more` at most. */
  ghost predicate GrowBy(buffers: seq<Buffer>, after: seq<Buffer>, b: nat, more: nat) {
    && |buffers| <= |after|
    && forall k :: 0 <= k < |buffers| ==> |after[k].queue| <= |buffers[k].queue| + if k == b then more else 0
  }

  lemma {:induction false} WorkGrows(buffers: seq<Buffer>, after: seq<Buffer>, registry: seq<nat>, b: nat, more: nat)
    requires InBounds(buffers, registry) && NoRepeats(registry) && GrowBy(buffers, after, b, more)
    ensures Work(after, registry) <= Work(buffers, registry) + if b in registry then more else 0
  {
    if |registry| > 0 {
      assert registry[0] !in registry[1..];
      WorkGrows(buffers, after, registry[1..], b, more);
    }
  }

  /** Only a push makes a queue longer, by one. */
  lemma QueuesGrow(c: Config, s: State, a: Action) returns (b: nat)
    requires Structured(c, s) && Enabled(c, s, a)
    ensures GrowBy(s.buffers, Next(c, s, a).buffers, b, if a.Push? then 1 else 0)
  {
    hide Structured, BeingDrained, PreparedAllocation, PreparedDeallocation, HotEvents, IngestedAll;
    b := if a.Push? then s.agents[a.agent].buffer.value else 0;
  }

  lemma OthersRemaining(c: Config, s: State, a: Action, i: nat)
    requires Structured(c, s) && NoRepeats(s.registry) && Enabled(c, s, a) && i < |s.agents| && a.agent != i
    ensures i < |Next(c, s, a).agents|
    ensures Remaining(Next(c, s, a), i) <= Remaining(s, i) + if a.Push? then 1 else 0
  {
    var s' := Next(c, s, a);
    OthersLeaveAgent(c, s, a, i);
    AgentOf(c, s, i);
    var b := QueuesGrow(c, s, a);
    assert InBounds(s.buffers, s.registry);
    hide Structured, Enabled, Next, GrowBy;
    var d := s.agents[i].drain;
    if HoldsLock(d) {
      var at := if d.Swapping? then d.at + 1 else d.at;
      assert NoRepeats(s.registry[at..]) && InBounds(s.buffers, s.registry[at..]);
      WorkGrows(s.buffers, s'.buffers, s.registry[at..], b, if a.Push? then 1 else 0);
    }
  }

  /** A visit, or a look at the empty queue, or the end. */
  lemma MoveRemaining(c: Config, s: State, a: Action)
    requires Structured(c, s) && Enabled(c, s, a) && (a.Visit? || a.SeeEmpty? || a.EndVisit? || a.Ingest?)
    ensures a.agent < |Next(c, s, a).agents| && Remaining(Next(c, s, a), a.agent) < Remaining(s, a.agent)
  {
    AgentOf(c, s, a.agent);
    hide Structured, IngestedAll, BeingDrained;
    var d := s.agents[a.agent].drain;
    if a.Visit? && !s.buffers[s.registry[d.at]].owned {
      assert Next(c, s, a).registry[d.at..] == s.registry[d.at..][1..];
    } else if a.SeeEmpty? {
      assert s.registry[d.at..][1..] == s.registry[d.at + 1..];
    }
  }

  /** A pop takes one event and stays, a swap moves on. */
  lemma TakeMoves(c: Config, s: State, a: Action)
    requires Structured(c, s) && Enabled(c, s, a) && (a.Pop? || a.Swap?)
    ensures var d, s' := s.agents[a.agent].drain, Next(c, s, a);
      && (if a.Pop? then d.Popping? else d.Swapping?) && d.at < |s.registry|
      && s'.registry == s.registry && a.agent < |s'.agents|
      && s'.agents[a.agent].drain == (if a.Pop? then d else Visiting(d.at + 1))
      && s.registry[d.at] < |s.buffers| && |s.buffers| == |s'.buffers|
      && (a.Pop? ==> |s'.buffers[s.registry[d.at]].queue| == |s.buffers[s.registry[d.at]].queue| - 1)
  {
    hide Structured, BeingDrained;
  }

  lemma TakeRemaining(c: Config, s: State, a: Action)
    requires Structured(c, s) && NoRepeats(s.registry) && Enabled(c, s, a) && (a.Pop? || a.Swap?)
    ensures a.agent < |Next(c, s, a).agents| && Remaining(Next(c, s, a), a.agent) < Remaining(s, a.agent)
  {
    var s' := Next(c, s, a);
    TakeMoves(c, s, a);
    var b := QueuesGrow(c, s, a);
    assert InBounds(s.buffers, s.registry);
    hide Structured, Enabled, Next, GrowBy;
    var d := s.agents[a.agent].drain;
    var rest := s.registry[d.at + 1..];
    assert s.registry[d.at..][1..] == rest;
    assert NoRepeats(rest) && InBounds(s.buffers, rest);
    WorkGrows(s.buffers, s'.buffers, rest, b, 0);
  }

  /** Each step of a drain's own uses up some of what it may need. */
  lemma OwnRemaining(c: Config, s: State, a: Action)
    requires Structured(c, s) && NoRepeats(s.registry) && Enabled(c, s, a) && IsDrainStep(a) && !a.BeginDrain?
    ensures a.agent < |Next(c, s, a).agents| && Remaining(Next(c, s, a), a.agent) < Remaining(s, a.agent)
  {
    if a.Pop? || a.Swap? {
      TakeRemaining(c, s, a);
    } else {
      MoveRemaining(c, s, a);
    }
  }

  ghost function StepsOf(i: nat): Action -> int {
    (a: Action) => if a.agent == i then 1 else 0
  }

  ghost function Pushes(): Action -> int {
    (a: Action) => if a.Push? then 1 else 0
  }

  lemma StepRemaining(c: Config, trace: seq<State>, a: Action, i: nat, k: nat)
    requires Run(c, trace) && k + 1 < |trace| && TakesOne(c, trace[k], a, trace[k + 1])
    requires i < |trace[k].agents| && !trace[k].agents[i].drain.NotDraining?
    ensures i < |trace[k + 1].agents|
    ensures Remaining(trace[k + 1], i) + StepsOf(i)(a) <= Remaining(trace[k], i) + Pushes()(a)
  {
    hide Structured, Init, Step, Next, Remaining, NoRepeats;
    RunStructuredAt(c, trace, k);
    RunUpTo(c, trace, k);
    RunKeepsRegistry(c, trace[..k + 1]);
    if a.agent == i {
      OnlyDrainSteps(c, trace[k], a);
      OwnRemaining(c, trace[k], a);
      assert !a.Push?;
    } else {
      OthersRemaining(c, trace[k], a, i);
    }
  }

  /**
   * A drain ends unless it is fed for ever: from its beginning on, whatever the others do, it takes no more steps
   * than the registered buffers and their queues called for then, and one for each push made since.
   */
  lemma {:induction false} DrainEndsUnlessFed(
    c: Config, trace: seq<State>, acts: seq<Action>, i: nat, m: nat, n: nat)
    requires Run(c, trace) && InOneDrain(trace, i, m, n) && Takes(c, trace, acts)
    ensures Sum(StepsOf(i), acts[m..n]) + Remaining(trace[n], i) <= Remaining(trace[m], i) + Sum(Pushes(), acts[m..n])
    decreases n
  {
    hide Run, Remaining, TakesOne, StepsOf, Pushes;
    if n == m {
      assert acts[m..n] == [];
    } else {
      hide Sum;
      assert InOneDrain(trace, i, m, n - 1);
      DrainEndsUnlessFed(c, trace, acts, i, m, n - 1);
      StepRemaining(c, trace, acts[n - 1], i, n - 1);
      assert acts[m..n] == acts[m..n - 1] + [acts[n - 1]];
      SumSnoc(StepsOf(i), acts[m..n - 1], acts[n - 1]);
      SumSnoc(Pushes(), acts[m..n - 1], acts[n - 1]);
    }
  }
}
