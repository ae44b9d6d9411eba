/** What a completed shutdown guarantees about the events recorded before it. */
module ShutdownDrain {
  import opened PipelineCoverage
  import opened Shutdown
  import P = Pipeline
  import PS = PipelineStructure

  lemma PipeStays(c: P.Config, s: State, a: Action)
    requires Enabled(c, s, a) && !a.OtherAgent? && !a.WorkerDrains?
    ensures Next(c, s, a).pipe == s.pipe
  {
  }

  /** Every step of the composed system is a step of the pipeline or leaves it alone. */
  lemma StepProjects(c: P.Config, pipes: seq<P.State>, s: State, s': State) returns (longer: seq<P.State>)
    requires P.Run(c, pipes) && P.Last(pipes) == s.pipe && Step(c, s, s')
    ensures P.Run(c, longer) && P.Last(longer) == s'.pipe
  {
    hide P.Init, P.Step, P.Enabled, P.Next, P.Lengths, AskAfter, DrainStepAllowed;
    var a :| Enabled(c, s, a) && s' == Next(c, s, a);
    longer := pipes;
    if a.OtherAgent? || a.WorkerDrains? {
      assert s'.pipe == P.Next(c, s.pipe, a.step);
      longer := PS.RunExtended(c, pipes, a.step);
    } else {
      PipeStays(c, s, a);
    }
  }

  /**
   * The composed system runs the pipeline: forgetting the protocol leaves a run of the pipeline, so that all its
   * theorems hold here too.
   */
  lemma {:induction false} RunProjects(c: P.Config, trace: seq<State>) returns (pipes: seq<P.State>)
    requires Run(c, trace)
    ensures P.Run(c, pipes) && P.Last(pipes) == Last(trace).pipe
  {
    hide P.Init, P.Step, Step;
    if |trace| == 1 {
      assert P.Init(trace[0].pipe);
      pipes := [trace[0].pipe];
    } else {
      pipes := RunProjects(c, trace[..|trace| - 1]);
      pipes := StepProjects(c, pipes, trace[|trace| - 2], trace[|trace| - 1]);
    }
  }

  lemma PipeStructured(c: P.Config, trace: seq<State>)
    requires Run(c, trace)
    ensures P.Structured(c, Last(trace).pipe)
  {
    var pipes := RunProjects(c, trace);
    PS.RunStructured(c, pipes);
  }

  /** Between clearing the flag, or raising the stop flag, and the drain that follows. */
  predicate BeforeDrain(pc: WorkerPc) {
    pc.Releasing? || pc.AtTop? || pc.DrainCalled? || pc.FinalCalled?
  }

  ghost predicate MarksInv(s: State) {
    && Reached(s.pipe, s.marks) && Reached(s.pipe, s.flagged) && Reached(s.pipe, s.begun)
    && (!s.stop ==> s.marks == [])
    && (!BeforeDrain(s.pc) ==> Below(s.flagged, s.begun))
    && (s.pc.FinalDraining? || s.pc.Finished? ==> Below(s.marks, s.begun))
  }

  /** Every drain of the worker has covered, as far as it has come, what was accepted when it began. */
  ghost predicate DrainInv(s: State) {
    && |s.pipe.agents| > WORKER
    && MarksInv(s)
    && (InDrain(s.pc) <==> !s.pipe.agents[WORKER].drain.NotDraining?)
    && Coverage(s.pipe, s.begun, s.pipe.agents[WORKER].drain)
  }

  lemma OtherAgentMarks(c: P.Config, s: State, a: Action)
    requires MarksInv(s) && P.Structured(c, s.pipe) && Enabled(c, s, a) && a.OtherAgent?
    ensures MarksInv(Next(c, s, a))
  {
    var p, p' := s.pipe, P.Next(c, s.pipe, a.step);
    BuffersEvolve(c, p, a.step);
    ReachedStays(p, p', s.marks);
    ReachedStays(p, p', s.flagged);
    ReachedStays(p, p', s.begun);
    hide P.Structured, P.Enabled, P.Next, AskAfter, BuffersEvolved, Reached;
  }

  lemma OtherAgentDrain(c: P.Config, s: State, a: Action)
    requires DrainInv(s) && P.Structured(c, s.pipe) && Enabled(c, s, a) && a.OtherAgent?
    ensures DrainInv(Next(c, s, a))
  {
    OtherAgentMarks(c, s, a);
    OthersLeaveAgent(c, s.pipe, a.step, WORKER);
    OthersKeepCoverage(c, s.pipe, a.step, s.begun, WORKER);
    hide P.Structured, P.Enabled, P.Next, AskAfter, Coverage;
  }

  lemma WorkerMarks(c: P.Config, s: State, a: Action)
    requires DrainInv(s) && P.Structured(c, s.pipe) && Enabled(c, s, a) && a.WorkerDrains?
    ensures MarksInv(Next(c, s, a))
  {
    var p, p' := s.pipe, P.Next(c, s.pipe, a.step);
    BuffersEvolve(c, p, a.step);
    DrainMoves(c, p, a.step);
    ReachedStays(p, p', s.marks);
    ReachedStays(p, p', s.flagged);
    ReachedStays(p, p', s.begun);
    hide P.Structured, P.Enabled, P.Next, Evolved, Coverage;
  }

  lemma WorkerDrainInv(c: P.Config, s: State, a: Action)
    requires DrainInv(s) && P.Structured(c, s.pipe) && Enabled(c, s, a) && a.WorkerDrains?
    ensures DrainInv(Next(c, s, a))
  {
    WorkerMarks(c, s, a);
    DrainMoves(c, s.pipe, a.step);
    if !a.step.BeginDrain? {
      DrainCovers(c, s.pipe, s.begun, a.step);
    }
    hide P.Structured, P.Enabled, P.Next, Covered, MarksInv;
  }

  lemma LengthsAreReached(p: P.State)
    ensures Reached(p, P.Lengths(p.buffers)) && Reached(p, [])
  {
  }

  lemma ProtocolDrainInv(c: P.Config, s: State, a: Action)
    requires DrainInv(s) && ProtocolInv(s) && Enabled(c, s, a) && !a.OtherAgent? && !a.WorkerDrains?
    ensures DrainInv(Next(c, s, a))
  {
    hide P.Enabled, P.Next, Coverage, Reached, P.Lengths, CallerInv, FlushInv, AskAfter, DrainStepAllowed;
    LengthsAreReached(s.pipe);
    PipeStays(c, s, a);
  }

  lemma InitDrainInv(s: State)
    requires Init(s)
    ensures DrainInv(s)
  {
    assert s.pipe.agents[WORKER] == P.NEW_AGENT;
  }

  lemma {:induction false} RunDrainInv(c: P.Config, trace: seq<State>)
    requires Run(c, trace)
    ensures DrainInv(Last(trace))
  {
    hide DrainInv, ProtocolInv, MissedInv, P.Structured;
    if |trace| == 1 {
      InitDrainInv(trace[0]);
    } else {
      var before := trace[..|trace| - 1];
      RunDrainInv(c, before);
      PipeStructured(c, before);
      RunProtocol(c, before);
      var s, s' := trace[|trace| - 2], trace[|trace| - 1];
      assert Step(c, s, s');
      StepDrainInv(c, s, s');
    }
  }

  lemma StepDrainInv(c: P.Config, s: State, s': State)
    requires DrainInv(s) && ProtocolInv(s) && P.Structured(c, s.pipe) && Step(c, s, s')
    ensures DrainInv(s')
  {
    hide DrainInv, ProtocolInv, P.Structured, Enabled, Next;
    var a :| Enabled(c, s, a) && s' == Next(c, s, a);
    if a.OtherAgent? {
      OtherAgentDrain(c, s, a);
    } else if a.WorkerDrains? {
      WorkerDrainInv(c, s, a);
    } else {
      ProtocolDrainInv(c, s, a);
    }
  }

  // What completed drains guarantee.

  /**
   * Each of the worker's drains does its work: whenever the worker is not in one, every event that a buffer had
   * accepted when the last one began has been ingested, is in the batch of another drainer, or died with its
   * buffer; and of a live buffer, all of them have been popped, in order.
   */
  lemma DrainsAreComplete(c: P.Config, trace: seq<State>)
    requires Run(c, trace) && !InDrain(Last(trace).pc)
    ensures Kept(Last(trace).pipe, Last(trace).begun, WORKER)
  {
    hide Init, Step, Kept, Covered;
    RunDrainInv(c, trace);
    var pipes := RunProjects(c, trace);
    CoveredIsKept(c, pipes, Last(trace).begun, WORKER);
  }

  /**
   * A flush request is honoured: when the worker waits, or has finished, everything accepted before it last
   * cleared the flag has been drained by a complete drain begun since.
   */
  lemma FlushesAreServed(c: P.Config, trace: seq<State>)
    requires Run(c, trace) && (Last(trace).pc.Waiting? || Last(trace).pc.Finished?)
    ensures var s := Last(trace);
      && Below(s.flagged, s.begun) && Kept(s.pipe, s.flagged, WORKER)
      && (s.requests > s.served ==> s.pending)
  {
    hide Init, Step, Kept, Covered;
    var s := Last(trace);
    RunDrainInv(c, trace);
    RunProtocol(c, trace);
    var pipes := RunProjects(c, trace);
    BelowIsCovered(s.pipe, s.flagged, s.begun);
    CoveredIsKept(c, pipes, s.flagged, WORKER);
  }

  /**
   * Shutdown loses nothing: when `join` returns, every event that a buffer had accepted before `stop_flag` was
   * raised has been ingested, is in the batch of another drainer, or died with its buffer, counted with
   * multiplicity. Of the buffers still alive none died, and all of those events have been popped, in order.
   */
  lemma JoinMeansIngested(c: P.Config, trace: seq<State>, i: nat)
    requires Run(c, trace) && i < |Last(trace).callers| && Last(trace).callers[i].Joined?
    ensures var s := Last(trace); s.pc.Finished? && Below(s.marks, s.begun) && Kept(s.pipe, s.marks, WORKER)
  {
    hide Init, Step, Kept, Covered;
    var s := Last(trace);
    RunDrainInv(c, trace);
    RunProtocol(c, trace);
    assert CallerInv(s.callers[i], i, s);
    var pipes := RunProjects(c, trace);
    BelowIsCovered(s.pipe, s.marks, s.begun);
    CoveredIsKept(c, pipes, s.marks, WORKER);
  }

  /**
   * Buffer by buffer: when `join` returns, each buffer whose thread is still alive has had everything popped, in
   * order, that it had accepted when `stop_flag` was raised.
   */
  lemma JoinMeansDrained(c: P.Config, trace: seq<State>, i: nat, b: nat)
    requires Run(c, trace) && i < |Last(trace).callers| && Last(trace).callers[i].Joined?
    requires b < |Last(trace).marks|
    ensures var s := Last(trace);
      && b < |s.pipe.buffers| && s.marks[b] <= |s.pipe.buffers[b].accepted|
      && (s.pipe.buffers[b].owned ==> s.pipe.buffers[b].accepted[..s.marks[b]] <= s.pipe.buffers[b].popped)
  {
    JoinMeansIngested(c, trace, i);
  }
}
