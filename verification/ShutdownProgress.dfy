/** Nothing in the worker's protocol waits for ever: some step is always open, and after a stop the steps run out. */
module ShutdownProgress {
  import opened Words
  import opened Tracing
  import opened PipelineCoverage
  import opened Shutdown
  import opened ShutdownDrain
  import P = Pipeline
  import PS = PipelineStructure

  /** How far the worker is from the end once `stop_flag` is up. */
  function Rank(pc: WorkerPc): nat {
    match pc
    case DrainCalled => 13
    case Draining => 12
    case Drained => 11
    case WantLock => 10
    case HasLock => 9
    case AtSwap => 8
    case AboutToWait => 7
    case Waiting => 6
    case Woken => 5
    case Releasing(_) => 4
    case AtTop => 3
    case FinalCalled => 2
    case FinalDraining => 1
    case Finished => 0
  }

  lemma ControlMakesProgress(c: P.Config, s: State)
    requires s.stop && Enabled(c, s, WorkerControl)
    ensures Controlled(s).stop && Rank(Controlled(s).pc) < Rank(s.pc)
  {
    hide P.Lengths;
  }

  /** After the flag is raised every step of the worker's own brings it nearer to the end, and none sets it back. */
  lemma StopMakesProgress(c: P.Config, s: State, a: Action)
    requires s.stop && Enabled(c, s, a)
    ensures var s' := Next(c, s, a);
      && s'.stop
      && Rank(s'.pc) <= Rank(s.pc)
      && (a.WorkerControl? ==> Rank(s'.pc) < Rank(s.pc))
      && (a.WorkerDrains? && (a.step.BeginDrain? || a.step.Ingest?) ==> Rank(s'.pc) < Rank(s.pc))
  {
    hide P.Enabled, P.Next, AskAfter, P.Lengths, HasBuffer;
    if a.WorkerControl? {
      hide Rank, Controlled, Enabled;
      ControlMakesProgress(c, s);
    } else if a.OtherAgent? || IsCaller(a) {
      hide Rank, DrainStepAllowed;
    }
  }

  // No deadlock.

  /** A thread that is asking for a flush does not drain, and the worker does nothing but drain. */
  ghost predicate ThreadsInv(s: State) {
    && |s.asking| == |s.pipe.agents| && |s.pipe.agents| > WORKER
    && s.asking[WORKER].NotAsking? && OnlyDrains(s.pipe.agents[WORKER])
    && forall i :: 0 <= i < |s.asking| ==> AskerInv(s.asking[i], s.pipe.agents[i])
  }

  predicate OnlyDrains(g: P.Agent) {
    g.hand == [] && g.pending.None? && !g.uncounted && g.buffer.None?
  }

  predicate AskerInv(asking: AskPc, g: P.Agent) {
    && (!asking.NotAsking? ==> g.drain.NotDraining?)
    && (asking.MustCheck? || asking.MustAsk? ==> g.buffer.Some?)
  }

  /** A step of an agent changes no other agent. */
  lemma OthersUnmoved(c: P.Config, p: P.State, step: P.Action)
    requires P.Enabled(c, p, step)
    ensures var p' := P.Next(c, p, step);
      |p'.agents| == |p.agents| && forall i :: 0 <= i < |p.agents| && i != step.agent ==> p'.agents[i] == p.agents[i]
  {
    hide PreparedAllocation, PreparedDeallocation, HotEvents;
  }

  lemma AskerStep(c: P.Config, p: P.State, step: P.Action)
    requires P.Structured(c, p) && P.Enabled(c, p, step) && step.agent < |P.Next(c, p, step).agents|
    ensures AskerInv(AskAfter(c, p, step), P.Next(c, p, step).agents[step.agent])
  {
    hide P.Structured;
    PS.AgentOf(c, p, step.agent);
  }

  lemma WorkerOnlyDrains(c: P.Config, p: P.State, step: P.Action)
    requires P.Enabled(c, p, step) && IsDrainStep(step)
    requires OnlyDrains(p.agents[step.agent])
    ensures OnlyDrains(P.Next(c, p, step).agents[step.agent])
  {
  }

  lemma StepOtherThread(c: P.Config, s: State, a: Action)
    requires ThreadsInv(s) && P.Structured(c, s.pipe) && Enabled(c, s, a) && a.OtherAgent?
    ensures ThreadsInv(Next(c, s, a))
  {
    OthersUnmoved(c, s.pipe, a.step);
    AskerStep(c, s.pipe, a.step);
    hide P.Structured, P.Enabled, P.Next, AskAfter, AskerInv, OnlyDrains;
  }

  lemma StepWorkerThread(c: P.Config, s: State, a: Action)
    requires ThreadsInv(s) && Enabled(c, s, a) && a.WorkerDrains?
    ensures ThreadsInv(Next(c, s, a))
  {
    OthersUnmoved(c, s.pipe, a.step);
    WorkerOnlyDrains(c, s.pipe, a.step);
    hide P.Enabled, P.Next, AskerInv, OnlyDrains;
  }

  lemma StepProtocolThread(c: P.Config, s: State, a: Action)
    requires ThreadsInv(s) && Enabled(c, s, a) && !a.OtherAgent? && !a.WorkerDrains?
    ensures ThreadsInv(Next(c, s, a))
  {
    PipeStays(c, s, a);
    hide P.Enabled, P.Next, P.Lengths, OnlyDrains;
  }

  lemma StepThreads(c: P.Config, s: State, a: Action)
    requires ThreadsInv(s) && P.Structured(c, s.pipe) && Enabled(c, s, a)
    ensures ThreadsInv(Next(c, s, a))
  {
    hide P.Structured, Enabled, Next, ThreadsInv;
    if a.OtherAgent? {
      StepOtherThread(c, s, a);
    } else if a.WorkerDrains? {
      StepWorkerThread(c, s, a);
    } else {
      StepProtocolThread(c, s, a);
    }
  }

  lemma {:induction false} RunThreads(c: P.Config, trace: seq<State>)
    requires Run(c, trace)
    ensures ThreadsInv(Last(trace))
  {
    hide P.Structured, Enabled, Next;
    if |trace| > 1 {
      var before := trace[..|trace| - 1];
      RunThreads(c, before);
      PipeStructured(c, before);
      var s, s' := trace[|trace| - 2], trace[|trace| - 1];
      assert Step(c, s, s');
      var a :| Enabled(c, s, a) && s' == Next(c, s, a);
      StepThreads(c, s, a);
    }
  }

  /** An agent that drains always has a step of its drain open, whatever the others do. */
  lemma DrainNeverStuck(c: P.Config, trace: seq<P.State>, i: nat) returns (a: P.Action)
    requires P.Run(c, trace) && i < |P.Last(trace).agents| && !P.Last(trace).agents[i].drain.NotDraining?
    ensures a.agent == i && P.Enabled(c, P.Last(trace), a)
    ensures a.Visit? || a.Pop? || a.SeeEmpty? || a.Swap? || a.EndVisit? || a.Ingest?
  {
    PS.RunStructured(c, trace);
    var s := P.Last(trace);
    PS.AgentOf(c, s, i);
    match s.agents[i].drain
    case Visiting(at) => a := if at == |s.registry| then P.EndVisit(i) else P.Visit(i);
    case Popping(at) => a := if s.buffers[s.registry[at]].queue == [] then P.SeeEmpty(i) else P.Pop(i);
    case Swapping(at) => a := P.Swap(i);
    case Ingesting => a := P.Ingest(i);
  }

  /**
   * The worker is never stuck: at every moment of every run it has finished, or has a step open, or waits for a
   * lock whose holder has one: the buffers lock, held by another drainer, or the mutex, held by the stopper.
   */
  lemma WorkerNeverStuck(c: P.Config, trace: seq<State>) returns (a: Action)
    requires Run(c, trace) && !Last(trace).pc.Finished?
    ensures var s := Last(trace);
      && Enabled(c, s, a)
      && (|| a.WorkerControl? || a.WorkerDrains?
          || (a.OtherAgent? && (s.pc.DrainCalled? || s.pc.FinalCalled?) && s.pipe.lock == Some(a.step.agent))
          || (a.StopUnlock? && (s.pc.WantLock? || s.pc.Woken?) && s.mutex == Some(Caller(a.i))))
  {
    hide Init, Step, P.Init, P.Step;
    var s := Last(trace);
    RunProtocol(c, trace);
    RunDrainInv(c, trace);
    RunThreads(c, trace);
    hide MissedInv, FlushInv, MarksInv, Coverage;
    var pipes := RunProjects(c, trace);
    if InDrain(s.pc) {
      var step := DrainNeverStuck(c, pipes, WORKER);
      a := WorkerDrains(step);
    } else if s.pc.DrainCalled? || s.pc.FinalCalled? {
      if s.pipe.lock.None? {
        a := WorkerDrains(P.BeginDrain(WORKER));
      } else {
        a := LockHolderMoves(c, trace, pipes);
      }
    } else if s.mutex.Some? && s.mutex.value.Caller? && (s.pc.WantLock? || s.pc.Woken?) {
      assert CallerInv(s.callers[s.mutex.value.i], s.mutex.value.i, s);
      a := StopUnlock(s.mutex.value.i);
    } else {
      a := WorkerControl;
    }
  }

  lemma LockHolderMoves(c: P.Config, trace: seq<State>, pipes: seq<P.State>) returns (a: Action)
    requires |trace| > 0 && P.Run(c, pipes) && P.Last(pipes) == Last(trace).pipe && ThreadsInv(Last(trace))
    requires Last(trace).pipe.lock.Some? && Last(trace).pipe.agents[WORKER].drain.NotDraining?
    ensures Enabled(c, Last(trace), a) && a.OtherAgent? && Last(trace).pipe.lock == Some(a.step.agent)
  {
    var p := Last(trace).pipe;
    var j := p.lock.value;
    PS.RunStructured(c, pipes);
    PS.AgentOf(c, p, j);
    PS.AgentOf(c, p, WORKER);
    hide P.Structured, P.Init, P.Step;
    var step := DrainNeverStuck(c, pipes, j);
    assert AskerInv(Last(trace).asking[j], p.agents[j]);
    a := OtherAgent(step);
  }
}
