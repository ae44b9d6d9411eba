/** A queue that has grown long enough is always announced, though the worker can sleep through it. */
module FlushRequests {
  import opened Words
  import opened Aggregation
  import opened Tracing
  import opened PipelineCoverage
  import opened Shutdown
  import opened ShutdownDrain
  import opened ShutdownProgress
  import P = Pipeline
  import RB = RingBuffer

  /** A buffer of the pipeline as a ring. */
  function RingOf(c: P.Config, buf: P.Buffer): RB.Ring
    requires c.capacity <= U64_MAX && c.flushThreshold <= U64_MAX
  {
    RB.Ring(c.capacity, c.flushThreshold, buf.queue, buf.dropped)
  }

  /**
   * The steps of `enqueue_event`, with nothing in between, do to the buffer what one `record` does, and ask for a
   * flush exactly if it says so.
   */
  lemma EnqueueIsItsSteps(c: P.Config, s: State, i: nat)
    requires c.capacity <= U64_MAX && c.flushThreshold <= U64_MAX && Enabled(c, s, OtherAgent(P.Push(i)))
    requires s.pipe.buffers[s.pipe.agents[i].buffer.value].dropped < U64_MAX
    ensures var b := s.pipe.agents[i].buffer.value;
      var (ring, action) := RB.Recorded(RingOf(c, s.pipe.buffers[b]), s.pipe.agents[i].hand[0]);
      var s1 := Next(c, s, OtherAgent(P.Push(i)));
      var second := if s1.asking[i].MustCheck? then CheckLength(i) else OtherAgent(P.CountDrop(i));
      && Enabled(c, s1, second)
      && var s2 := Next(c, s1, second);
         && |s2.pipe.buffers| == |s.pipe.buffers| && RingOf(c, s2.pipe.buffers[b]) == ring
         && (forall k :: 0 <= k < |s.pipe.buffers| && k != b ==> s2.pipe.buffers[k] == s.pipe.buffers[k])
         && s2.asking == s.asking[i := if action.FlushPending? then MustAsk else NotAsking]
  {
    hide PreparedAllocation, PreparedDeallocation, HotEvents, IngestedAll, Controlled, P.Lengths;
    var s1 := Next(c, s, OtherAgent(P.Push(i)));
    assert s1.asking[i := MustAsk] == s.asking[i := MustAsk];
    assert s1.asking[i := NotAsking] == s.asking[i := NotAsking];
  }

  predicate LongQueue(c: P.Config, buf: P.Buffer) {
    buf.owned && |buf.queue| >= c.flushThreshold
  }

  /** The worker's drain, at `d`, has still to empty buffer `b`. */
  predicate Ahead(d: P.Drain, registry: seq<nat>, b: nat) {
    match d
    case Visiting(at) => at <= |registry| && b in registry[at..]
    case Popping(at) => at <= |registry| && b in registry[at..]
    case Swapping(at) => at < |registry| && b in registry[at + 1..]
    case _ => false
  }

  predicate DrainComing(pc: WorkerPc, d: P.Drain, registry: seq<nat>, b: nat) {
    BeforeDrain(pc) || (InDrain(pc) && Ahead(d, registry, b))
  }

  /** Its thread is about to look at its length, or to raise the flag. */
  predicate AboutToAsk(asking: AskPc, g: P.Agent, b: nat) {
    (asking.MustCheck? || asking.MustAsk?) && g.buffer == Some(b)
  }

  ghost predicate OwnerAsks(asking: seq<AskPc>, agents: seq<P.Agent>, b: nat) {
    exists i :: 0 <= i < |asking| && i < |agents| && AboutToAsk(asking[i], agents[i], b)
  }

  /** The flag is up, or soon will be, or the worker is about to drain the buffer. */
  ghost predicate Announced(s: State, b: nat) {
    || s.pending
    || OwnerAsks(s.asking, s.pipe.agents, b)
    || (|s.pipe.agents| > WORKER && DrainComing(s.pc, s.pipe.agents[WORKER].drain, s.pipe.registry, b))
  }

  ghost predicate QueuesAnnounced(c: P.Config, s: State) {
    forall b :: 0 <= b < |s.pipe.buffers| && LongQueue(c, s.pipe.buffers[b]) ==> Announced(s, b)
  }

  /** A live buffer with a long queue had it before, or its owner has just pushed. */
  lemma LongQueueBefore(c: P.Config, p: P.State, step: P.Action, b: nat)
    requires P.Structured(c, p) && P.Enabled(c, p, step)
    requires b < |P.Next(c, p, step).buffers| && LongQueue(c, P.Next(c, p, step).buffers[b])
    ensures (b < |p.buffers| && LongQueue(c, p.buffers[b]))
      || (AskAfter(c, p, step).MustCheck? && P.Next(c, p, step).agents[step.agent].buffer == Some(b))
  {
    hide P.OwnBuffers, P.Registry, P.BufferInv, P.BeingDrained, PreparedAllocation, PreparedDeallocation, HotEvents,
      IngestedAll;
  }

  lemma OthersKeepAnnounced(c: P.Config, s: State, a: Action, b: nat)
    requires ThreadsInv(s) && P.Structured(c, s.pipe) && Enabled(c, s, a) && a.OtherAgent?
    requires InDrain(s.pc) <==> !s.pipe.agents[WORKER].drain.NotDraining?
    requires Announced(s, b)
    ensures Announced(Next(c, s, a), b)
  {
    OthersUnmoved(c, s.pipe, a.step);
    OthersLeaveAgent(c, s.pipe, a.step, WORKER);
    hide P.Structured, P.Enabled, P.Next, AskAfter;
    var s' := Next(c, s, a);
    if !s.pending && OwnerAsks(s.asking, s.pipe.agents, b) {
      var i :| 0 <= i < |s.asking| && i < |s.pipe.agents| && AboutToAsk(s.asking[i], s.pipe.agents[i], b);
      assert AboutToAsk(s'.asking[i], s'.pipe.agents[i], b);
    }
  }

  lemma OtherAgentAnnounced(c: P.Config, s: State, a: Action)
    requires QueuesAnnounced(c, s) && ThreadsInv(s) && P.Structured(c, s.pipe) && Enabled(c, s, a) && a.OtherAgent?
    requires InDrain(s.pc) <==> !s.pipe.agents[WORKER].drain.NotDraining?
    ensures QueuesAnnounced(c, Next(c, s, a))
  {
    var s' := Next(c, s, a);
    OthersUnmoved(c, s.pipe, a.step);
    hide P.Structured, P.Enabled, P.Next, AskAfter, Announced, LongQueue;
    forall b | 0 <= b < |s'.pipe.buffers| && LongQueue(c, s'.pipe.buffers[b]) ensures Announced(s', b) {
      LongQueueBefore(c, s.pipe, a.step, b);
      if b < |s.pipe.buffers| && LongQueue(c, s.pipe.buffers[b]) {
        OthersKeepAnnounced(c, s, a, b);
      } else {
        OwnerAnnounces(s', a.step.agent, b);
      }
    }
  }

  lemma OwnerAnnounces(s: State, i: nat, b: nat)
    requires i < |s.asking| && i < |s.pipe.agents| && AboutToAsk(s.asking[i], s.pipe.agents[i], b)
    ensures Announced(s, b)
  {
  }

  lemma VisitStaysAhead(c: P.Config, p: P.State, b: nat)
    requires P.Enabled(c, p, P.Visit(WORKER))
    requires b < |p.buffers| && p.buffers[b].owned && Ahead(p.agents[WORKER].drain, p.registry, b)
    ensures var p' := P.Next(c, p, P.Visit(WORKER)); Ahead(p'.agents[WORKER].drain, p'.registry, b)
  {
    var at := p.agents[WORKER].drain.at;
    if !p.buffers[p.registry[at]].owned {
      assert p.registry[at..] == [p.registry[at]] + p.registry[at + 1..];
      assert (p.registry[..at] + p.registry[at + 1..])[at..] == p.registry[at + 1..];
    }
  }

  /** A drain passes a buffer only once it has found it empty. */
  lemma DrainStaysAhead(c: P.Config, p: P.State, step: P.Action, b: nat)
    requires P.Structured(c, p) && P.Enabled(c, p, step) && step.agent == WORKER
    requires IsDrainStep(step)
    requires b < |p.buffers| && LongQueue(c, p.buffers[b])
    ensures var d, p' := p.agents[WORKER].drain, P.Next(c, p, step);
      && (step.BeginDrain? ==> Ahead(p'.agents[WORKER].drain, p'.registry, b))
      && (Ahead(d, p.registry, b) ==> Ahead(p'.agents[WORKER].drain, p'.registry, b))
  {
    hide P.OwnBuffers, P.AgentInv, P.BufferInv, P.BeingDrained, IngestedAll;
    var d := p.agents[WORKER].drain;
    if step.Visit? {
      if Ahead(d, p.registry, b) {
        VisitStaysAhead(c, p, b);
      }
    } else if step.BeginDrain? {
      assert b in p.registry && p.registry[0..] == p.registry;
    } else if step.SeeEmpty? {
      assert p.registry[d.at..] == [p.registry[d.at]] + p.registry[d.at + 1..];
    }
  }

  lemma WorkerDrainsAnnounced(c: P.Config, s: State, a: Action)
    requires QueuesAnnounced(c, s) && ThreadsInv(s) && P.Structured(c, s.pipe) && Enabled(c, s, a) && a.WorkerDrains?
    requires InDrain(s.pc) <==> !s.pipe.agents[WORKER].drain.NotDraining?
    ensures QueuesAnnounced(c, Next(c, s, a))
  {
    var s' := Next(c, s, a);
    OthersUnmoved(c, s.pipe, a.step);
    forall b | 0 <= b < |s'.pipe.buffers| && LongQueue(c, s'.pipe.buffers[b]) ensures Announced(s', b) {
      WorkerKeepsAnnounced(c, s, a, b);
    }
  }

  lemma WorkerDrainStep(c: P.Config, s: State, a: Action)
    requires Enabled(c, s, a) && a.WorkerDrains?
    ensures IsDrainStep(a.step) && a.step.agent == WORKER < |s.pipe.agents| && P.Enabled(c, s.pipe, a.step)
    ensures var s' := Next(c, s, a);
      && s'.pipe == P.Next(c, s.pipe, a.step)
      && (if a.step.BeginDrain? then InDrain(s'.pc) else InDrain(s.pc))
      && (a.step.BeginDrain? || a.step.Ingest? || s'.pc == s.pc)
  {
    hide P.Next, P.Lengths;
  }

  lemma DrainKeepsComing(c: P.Config, s: State, a: Action, b: nat)
    requires P.Structured(c, s.pipe) && Enabled(c, s, a) && a.WorkerDrains?
    requires InDrain(s.pc) <==> !s.pipe.agents[WORKER].drain.NotDraining?
    requires b < |s.pipe.buffers| && LongQueue(c, s.pipe.buffers[b])
    requires DrainComing(s.pc, s.pipe.agents[WORKER].drain, s.pipe.registry, b)
    ensures var s' := Next(c, s, a);
      && |s'.pipe.agents| > WORKER
      && DrainComing(s'.pc, s'.pipe.agents[WORKER].drain, s'.pipe.registry, b)
  {
    hide P.Structured, Enabled, Next, P.Enabled, P.Next, LongQueue;
    WorkerDrainStep(c, s, a);
    DrainStaysAhead(c, s.pipe, a.step, b);
    DrainMoves(c, s.pipe, a.step);
    OthersUnmoved(c, s.pipe, a.step);
  }

  lemma WorkerKeepsAnnounced(c: P.Config, s: State, a: Action, b: nat)
    requires QueuesAnnounced(c, s) && ThreadsInv(s) && P.Structured(c, s.pipe) && Enabled(c, s, a) && a.WorkerDrains?
    requires InDrain(s.pc) <==> !s.pipe.agents[WORKER].drain.NotDraining?
    requires var p' := Next(c, s, a).pipe; b < |p'.buffers| && LongQueue(c, p'.buffers[b])
    ensures Announced(Next(c, s, a), b)
  {
    LongQueueBefore(c, s.pipe, a.step, b);
    OthersUnmoved(c, s.pipe, a.step);
    OwnersKeepAsking(s, Next(c, s, a), b);
    hide P.Structured, P.Enabled, P.Next, LongQueue, DrainComing, OwnerAsks;
    if DrainComing(s.pc, s.pipe.agents[WORKER].drain, s.pipe.registry, b) {
      DrainKeepsComing(c, s, a, b);
    }
  }

  /** The worker never asks, and changes nobody else. */
  lemma OwnersKeepAsking(s: State, s': State, b: nat)
    requires ThreadsInv(s) && s'.asking == s.asking && |s'.pipe.agents| == |s.pipe.agents|
    requires forall i :: 0 <= i < |s.pipe.agents| && i != WORKER ==> s'.pipe.agents[i] == s.pipe.agents[i]
    ensures OwnerAsks(s.asking, s.pipe.agents, b) ==> OwnerAsks(s'.asking, s'.pipe.agents, b)
  {
    if OwnerAsks(s.asking, s.pipe.agents, b) {
      var i :| 0 <= i < |s.asking| && i < |s.pipe.agents| && AboutToAsk(s.asking[i], s.pipe.agents[i], b);
      assert AboutToAsk(s'.asking[i], s'.pipe.agents[i], b);
    }
  }

  /** The worker's control steps give up a drain to come, or the flag, only for one another; stoppers touch neither. */
  lemma ControlAnnounced(c: P.Config, s: State, a: Action)
    requires QueuesAnnounced(c, s) && ThreadsInv(s) && Enabled(c, s, a) && (a.WorkerControl? || IsCaller(a))
    ensures QueuesAnnounced(c, Next(c, s, a))
  {
    hide P.Enabled, P.Next, Ahead, OwnerAsks, LongQueue, P.Lengths;
    var s' := Next(c, s, a);
    forall b | 0 <= b < |s'.pipe.buffers| && LongQueue(c, s'.pipe.buffers[b]) ensures Announced(s', b) {
      assert Announced(s, b);
    }
  }

  /** A thread stops asking for its buffer only when the queue is short or the flag is up. */
  lemma AskAnnounced(c: P.Config, s: State, a: Action)
    requires QueuesAnnounced(c, s) && ThreadsInv(s) && Enabled(c, s, a)
    requires a.CheckLength? || a.NotifySwap? || a.NotifyOne?
    ensures QueuesAnnounced(c, Next(c, s, a))
  {
    hide P.Enabled, P.Next, Ahead;
    var s' := Next(c, s, a);
    forall b | 0 <= b < |s'.pipe.buffers| && LongQueue(c, s'.pipe.buffers[b]) ensures Announced(s', b) {
      assert Announced(s, b);
      if !s.pending && OwnerAsks(s.asking, s.pipe.agents, b) {
        var i :| 0 <= i < |s.asking| && i < |s.pipe.agents| && AboutToAsk(s.asking[i], s.pipe.agents[i], b);
        assert s'.pending || AboutToAsk(s'.asking[i], s'.pipe.agents[i], b);
      }
    }
  }

  lemma NothingQueued(c: P.Config, s: State)
    requires Init(s)
    ensures QueuesAnnounced(c, s)
  {
  }

  /**
   * No queue fills up unannounced: at every moment of every run, if a live buffer holds as many events as ask for
   * a flush, then the flag is up, or the buffer's thread is about to look or to raise it, or the worker is about
   * to drain and has not passed the buffer.
   */
  lemma {:induction false} LongQueuesAreAnnounced(c: P.Config, trace: seq<State>)
    requires Run(c, trace)
    ensures QueuesAnnounced(c, Last(trace))
  {
    hide P.Structured, Enabled, Next, QueuesAnnounced, ThreadsInv, MarksInv, Coverage;
    if |trace| == 1 {
      NothingQueued(c, trace[0]);
    } else {
      var before := trace[..|trace| - 1];
      LongQueuesAreAnnounced(c, before);
      PipeStructured(c, before);
      RunThreads(c, before);
      RunDrainInv(c, before);
      var s, s' := trace[|trace| - 2], trace[|trace| - 1];
      assert Step(c, s, s');
      var a :| Enabled(c, s, a) && s' == Next(c, s, a);
      if a.OtherAgent? {
        OtherAgentAnnounced(c, s, a);
      } else if a.WorkerDrains? {
        WorkerDrainsAnnounced(c, s, a);
      } else if a.WorkerControl? || IsCaller(a) {
        ControlAnnounced(c, s, a);
      } else {
        AskAnnounced(c, s, a);
      }
    }
  }

  /**
   * So the worker is blocked while a live queue is long, and nobody is about to ask or to notify, only if a
   * notification fell between its look at the flag and its wait.
   */
  lemma SleepsOnlyIfMissed(c: P.Config, trace: seq<State>, b: nat)
    requires Run(c, trace) && Last(trace).pc.Waiting?
    requires forall i :: 0 <= i < |Last(trace).asking| ==> Last(trace).asking[i].NotAsking?
    requires b < |Last(trace).pipe.buffers| && LongQueue(c, Last(trace).pipe.buffers[b])
    ensures Last(trace).pending && Last(trace).missed
  {
    LongQueuesAreAnnounced(c, trace);
    BlockedRequestIff(c, trace);
  }
}
