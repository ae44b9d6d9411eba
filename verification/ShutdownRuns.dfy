/** Two short runs of the worker and one thread: a shutdown that completes, and a wake-up that is missed. */
module ShutdownRuns {
  import opened Words
  import opened Aggregation
  import opened Tracing
  import opened Shutdown
  import P = Pipeline

  lemma RunExtended(c: P.Config, trace: seq<State>, a: Action, s': State) returns (longer: seq<State>)
    requires Run(c, trace) && Enabled(c, Last(trace), a) && s' == Next(c, Last(trace), a)
    ensures Run(c, longer) && longer == trace + [s'] && Last(longer) == s'
  {
    hide Init, Enabled, Next;
    longer := trace + [s'];
    forall k | 0 < k < |longer| ensures Step(c, longer[k - 1], longer[k]) {
      if k < |trace| {
        assert Step(c, trace[k - 1], trace[k]);
      }
    }
  }

  // The thread and its buffer of one slot.

  const ONE_SLOT := P.Config(1, 1, false)
  const IDLE_PIPE :=
    P.State(map[], [P.NEW_AGENT, P.NEW_AGENT], [], [], None, EMPTY, [], [], [], [], [], [], [], 0, [])
  const START :=
    State(IDLE_PIPE, AtTop, false, false, None, [NotAsking, NotAsking], [], 0, 0, 0, false, [], [], [])

  const BLOCK := Record(10, 7)
  const EVENT := AllocationOf(1, BLOCK)
  const TRACKED := IDLE_PIPE.(index := map[1 := BLOCK], emitted := [EVENT])
  const HELD := TRACKED.(agents := [P.NEW_AGENT, P.NEW_AGENT.(hand := [EVENT])])
  const REGISTERED :=
    TRACKED.(agents := [P.NEW_AGENT, P.NEW_AGENT.(hand := [EVENT], buffer := Some(0))],
             buffers := [P.NEW_BUFFER], registry := [0])
  const FULL :=
    TRACKED.(agents := [P.NEW_AGENT, P.NEW_AGENT.(buffer := Some(0))], registry := [0],
             buffers := [P.NEW_BUFFER.(queue := [EVENT], accepted := [EVENT])], accepted := [EVENT], log := [EVENT])

  lemma ThreadAllocates()
    ensures P.Enabled(ONE_SLOT, IDLE_PIPE, P.Allocate(1, 1, 10, true, 7))
    ensures P.Next(ONE_SLOT, IDLE_PIPE, P.Allocate(1, 1, 10, true, 7)) == HELD
  {
    var s := P.Next(ONE_SLOT, IDLE_PIPE, P.Allocate(1, 1, 10, true, 7));
    assert [] + [EVENT] == [EVENT];
    assert s.agents[1] == HELD.agents[1];
    assert s.agents == HELD.agents;
  }

  lemma ThreadFills()
    ensures P.Enabled(ONE_SLOT, REGISTERED, P.Push(1)) && P.Next(ONE_SLOT, REGISTERED, P.Push(1)) == FULL
  {
    var s := P.Next(ONE_SLOT, REGISTERED, P.Push(1));
    assert [] + [EVENT] == [EVENT] && [EVENT][1..] == [];
    assert s.agents[1] == FULL.agents[1] && s.buffers[0] == FULL.buffers[0];
    assert s.agents == FULL.agents && s.buffers == FULL.buffers;
  }

  lemma ThreadGetsBuffer()
    ensures P.Enabled(ONE_SLOT, HELD, P.Register(1)) && P.Next(ONE_SLOT, HELD, P.Register(1)) == REGISTERED
  {
    var s := P.Next(ONE_SLOT, HELD, P.Register(1));
    assert s.agents[1] == REGISTERED.agents[1];
    assert s.agents == REGISTERED.agents;
  }

  // A shutdown.

  const BEGUN := START.(callers := [Outside])
  const PUSHED := BEGUN.(pipe := FULL, asking := [NotAsking, MustCheck])
  const STOPPED := PUSHED.(stop := true, marks := [1], callers := [StopSet])
  const FINAL := STOPPED.(pc := FinalDraining, begun := [1])

  /** What the final drain has made of the pipeline when it works on the buffer. */
  const AT_BUFFER :=
    FULL.(agents := [P.NEW_AGENT.(drain := P.Visiting(0)), P.NEW_AGENT.(buffer := Some(0))], lock := Some(0))
  const POPPING :=
    AT_BUFFER.(agents := [P.NEW_AGENT.(drain := P.Popping(0)), P.NEW_AGENT.(buffer := Some(0))])
  const TAKEN :=
    AT_BUFFER.(agents := [P.NEW_AGENT.(drain := P.Popping(0), batch := [EVENT]), P.NEW_AGENT.(buffer := Some(0))],
               buffers := [P.NEW_BUFFER.(accepted := [EVENT], popped := [EVENT])])
  const EMPTIED :=
    TAKEN.(agents := [P.NEW_AGENT.(drain := P.Swapping(0), batch := [EVENT]), P.NEW_AGENT.(buffer := Some(0))])
  const PASSED :=
    TAKEN.(agents := [P.NEW_AGENT.(drain := P.Visiting(1), batch := [EVENT]), P.NEW_AGENT.(buffer := Some(0))])
  const GATHERED :=
    TAKEN.(agents := [P.NEW_AGENT.(drain := P.Ingesting, batch := [EVENT]), P.NEW_AGENT.(buffer := Some(0))],
           lock := None)
  const INGESTED :=
    TAKEN.(agents := [P.NEW_AGENT, P.NEW_AGENT.(buffer := Some(0))], lock := None,
           totals := IngestedAll(EMPTY, [EVENT]), ingested := [EVENT])

  lemma WorkerPops()
    ensures P.Enabled(ONE_SLOT, POPPING, P.Pop(0)) && P.Next(ONE_SLOT, POPPING, P.Pop(0)) == TAKEN
  {
    var s := P.Next(ONE_SLOT, POPPING, P.Pop(0));
    assert [] + [EVENT] == [EVENT] && [EVENT][1..] == [];
    assert s.agents[0] == TAKEN.agents[0] && s.buffers[0] == TAKEN.buffers[0];
    assert s.agents == TAKEN.agents && s.buffers == TAKEN.buffers;
  }

  lemma WorkerSwaps()
    ensures P.Enabled(ONE_SLOT, EMPTIED, P.Swap(0)) && P.Next(ONE_SLOT, EMPTIED, P.Swap(0)) == PASSED
  {
    var s := P.Next(ONE_SLOT, EMPTIED, P.Swap(0));
    assert [EVENT] + [] == [EVENT] && s.synthesized == [];
    assert s.agents[0] == PASSED.agents[0] && s.buffers[0] == PASSED.buffers[0];
    assert s.agents == PASSED.agents && s.buffers == PASSED.buffers;
  }

  lemma WorkerMovesOn()
    ensures P.Enabled(ONE_SLOT, AT_BUFFER, P.Visit(0)) && P.Next(ONE_SLOT, AT_BUFFER, P.Visit(0)) == POPPING
    ensures P.Enabled(ONE_SLOT, TAKEN, P.SeeEmpty(0)) && P.Next(ONE_SLOT, TAKEN, P.SeeEmpty(0)) == EMPTIED
  {
  }

  lemma WorkerEndsVisits()
    ensures P.Enabled(ONE_SLOT, PASSED, P.EndVisit(0)) && P.Next(ONE_SLOT, PASSED, P.EndVisit(0)) == GATHERED
  {
  }

  lemma WorkerIngests()
    ensures P.Enabled(ONE_SLOT, GATHERED, P.Ingest(0)) && P.Next(ONE_SLOT, GATHERED, P.Ingest(0)) == INGESTED
  {
    var s := P.Next(ONE_SLOT, GATHERED, P.Ingest(0));
    assert [] + [EVENT] == [EVENT];
    assert s.agents == INGESTED.agents;
  }

  /** The thread allocates and gets its buffer, */
  lemma BufferRegistered() returns (trace: seq<State>)
    ensures Run(ONE_SLOT, trace) && Last(trace) == BEGUN.(pipe := REGISTERED)
  {
    var c := ONE_SLOT;
    trace := [BEGUN];
    ThreadAllocates();
    ThreadGetsBuffer();
    hide P.Enabled, P.Next;
    trace := RunExtended(c, trace, OtherAgent(P.Allocate(1, 1, 10, true, 7)), BEGUN.(pipe := HELD));
    trace := RunExtended(c, trace, OtherAgent(P.Register(1)), BEGUN.(pipe := REGISTERED));
  }

  /** pushes its event, */
  lemma EventPushed() returns (trace: seq<State>)
    ensures Run(ONE_SLOT, trace) && Last(trace) == PUSHED
  {
    trace := BufferRegistered();
    ThreadFills();
    hide P.Enabled, P.Next, P.Init;
    trace := RunExtended(ONE_SLOT, trace, OtherAgent(P.Push(1)), PUSHED);
  }

  /** the caller raises the stop flag, and the worker begins its final drain, */
  lemma StopFlagRaised() returns (trace: seq<State>)
    ensures Run(ONE_SLOT, trace) && Last(trace) == FINAL.(pipe := AT_BUFFER)
  {
    var c := ONE_SLOT;
    trace := EventPushed();
    LengthsOfFull();
    trace := RunExtended(c, trace, StopSwap(0), STOPPED);
    trace := RunExtended(c, trace, WorkerControl, STOPPED.(pc := FinalCalled));
    trace := RunExtended(c, trace, WorkerDrains(P.BeginDrain(0)), FINAL.(pipe := AT_BUFFER));
  }

  lemma LengthsOfFull()
    ensures P.Lengths(FULL.buffers) == [1]
  {
  }

  /** takes the event, */
  lemma EventTaken() returns (trace: seq<State>)
    ensures Run(ONE_SLOT, trace) && Last(trace) == FINAL.(pipe := EMPTIED)
  {
    var c := ONE_SLOT;
    trace := StopFlagRaised();
    WorkerMovesOn();
    WorkerPops();
    hide P.Enabled, P.Next, P.Init;
    trace := RunExtended(c, trace, WorkerDrains(P.Visit(0)), FINAL.(pipe := POPPING));
    trace := RunExtended(c, trace, WorkerDrains(P.Pop(0)), FINAL.(pipe := TAKEN));
    trace := RunExtended(c, trace, WorkerDrains(P.SeeEmpty(0)), FINAL.(pipe := EMPTIED));
  }

  /** leaves the buffer behind, */
  lemma EventGathered() returns (trace: seq<State>)
    ensures Run(ONE_SLOT, trace) && Last(trace) == FINAL.(pipe := GATHERED)
  {
    var c := ONE_SLOT;
    trace := EventTaken();
    WorkerSwaps();
    WorkerEndsVisits();
    hide P.Enabled, P.Next, P.Init;
    trace := RunExtended(c, trace, WorkerDrains(P.Swap(0)), FINAL.(pipe := PASSED));
    trace := RunExtended(c, trace, WorkerDrains(P.EndVisit(0)), FINAL.(pipe := GATHERED));
  }

  /** and ingests the event. */
  lemma EventIngested() returns (trace: seq<State>)
    ensures Run(ONE_SLOT, trace) && Last(trace) == FINAL.(pipe := INGESTED, pc := Finished)
  {
    trace := EventGathered();
    WorkerIngests();
    hide P.Enabled, P.Next, P.Init;
    trace := RunExtended(ONE_SLOT, trace, WorkerDrains(P.Ingest(0)), FINAL.(pipe := INGESTED, pc := Finished));
  }

  /** A shutdown completes: the caller joins the worker, which has ingested what the thread had pushed. */
  lemma ShutdownCompletes() returns (trace: seq<State>)
    ensures Run(ONE_SLOT, trace)
    ensures var s := Last(trace); s.callers == [Joined] && s.marks == [1] && s.pipe.ingested == [EVENT]
  {
    var c, s := ONE_SLOT, FINAL.(pipe := INGESTED, pc := Finished);
    trace := EventIngested();
    trace := RunExtended(c, trace, StopLock(0), s.(callers := [StopLocked], mutex := Some(Caller(0))));
    trace := RunExtended(c, trace, StopUnlock(0), s.(callers := [MustNotifyAll]));
    trace := RunExtended(c, trace, NotifyAll(0), s.(callers := [MustJoin]));
    trace := RunExtended(c, trace, Join(0), s.(callers := [Joined]));
  }

  // A flush request that is missed.

  const VISITING := IDLE_PIPE.(agents := [P.NEW_AGENT.(drain := P.Visiting(0)), P.NEW_AGENT], lock := Some(0))
  const INGESTING := IDLE_PIPE.(agents := [P.NEW_AGENT.(drain := P.Ingesting), P.NEW_AGENT])
  const ASLEEP := START.(pc := AboutToWait, mutex := Some(Worker))

  /** The worker finds no buffer to drain, */
  lemma FirstVisit() returns (trace: seq<State>)
    ensures Run(ONE_SLOT, trace) && Last(trace) == START.(pc := Draining, pipe := VISITING)
  {
    var c := ONE_SLOT;
    trace := [START];
    trace := RunExtended(c, trace, WorkerControl, START.(pc := DrainCalled));
    trace := RunExtended(c, trace, WorkerDrains(P.BeginDrain(0)), START.(pc := Draining, pipe := VISITING));
  }

  /** so it ingests nothing, */
  lemma FirstIngest() returns (trace: seq<State>)
    ensures Run(ONE_SLOT, trace) && Last(trace) == START.(pc := Drained)
  {
    var c := ONE_SLOT;
    trace := FirstVisit();
    trace := RunExtended(c, trace, WorkerDrains(P.EndVisit(0)), START.(pc := Draining, pipe := INGESTING));
    trace := RunExtended(c, trace, WorkerDrains(P.Ingest(0)), START.(pc := Drained));
  }

  /** takes its mutex, finds no request, and is about to wait. */
  lemma NothingRequested() returns (trace: seq<State>)
    ensures Run(ONE_SLOT, trace) && Last(trace) == START.(pc := AboutToWait, mutex := Some(Worker))
  {
    var c := ONE_SLOT;
    trace := FirstIngest();
    trace := RunExtended(c, trace, WorkerControl, START.(pc := WantLock));
    trace := RunExtended(c, trace, WorkerControl, START.(pc := HasLock, mutex := Some(Worker)));
    trace := RunExtended(c, trace, WorkerControl, START.(pc := AtSwap, mutex := Some(Worker)));
    trace := RunExtended(c, trace, WorkerControl, START.(pc := AboutToWait, mutex := Some(Worker)));
  }

  /** Meanwhile the thread allocates, gets a buffer, */
  lemma ThreadRegisters() returns (trace: seq<State>)
    ensures Run(ONE_SLOT, trace) && Last(trace) == ASLEEP.(pipe := REGISTERED)
  {
    var c := ONE_SLOT;
    trace := NothingRequested();
    ThreadAllocates();
    ThreadGetsBuffer();
    hide P.Enabled, P.Next, P.Init;
    trace := RunExtended(c, trace, OtherAgent(P.Allocate(1, 1, 10, true, 7)), ASLEEP.(pipe := HELD));
    trace := RunExtended(c, trace, OtherAgent(P.Register(1)), ASLEEP.(pipe := REGISTERED));
  }

  /** fills it with its event, and sees that it has to ask for a flush. */
  lemma ThreadPushes() returns (trace: seq<State>)
    ensures Run(ONE_SLOT, trace) && Last(trace) == ASLEEP.(pipe := FULL, asking := [NotAsking, MustAsk])
  {
    var c := ONE_SLOT;
    trace := ThreadRegisters();
    ThreadFills();
    trace := RunExtended(c, trace, OtherAgent(P.Push(1)), ASLEEP.(pipe := FULL, asking := [NotAsking, MustCheck]));
    trace := RunExtended(c, trace, CheckLength(1), ASLEEP.(pipe := FULL, asking := [NotAsking, MustAsk]));
  }

  /**
   * The wake-up of a flush request, unlike that of a shutdown, can be lost: `notify_flush` does not take the
   * mutex, so its notification can fall between the worker's look at the flag and its wait. The worker then
   * blocks, with a full buffer and the request pending, until the drain interval ends.
   */
  lemma FlushWakeUpCanBeMissed() returns (trace: seq<State>)
    ensures Run(ONE_SLOT, trace)
    ensures var s := Last(trace);
      && s.pc.Waiting? && s.pending && s.missed && s.asking == [NotAsking, NotAsking]
      && |s.pipe.buffers| == 1 && s.pipe.buffers[0].owned && |s.pipe.buffers[0].queue| == ONE_SLOT.capacity
  {
    var c := ONE_SLOT;
    trace := ThreadPushes();
    var s := ASLEEP.(pipe := FULL, pending := true, requests := 1);
    trace := RunExtended(c, trace, NotifySwap(1), s.(asking := [NotAsking, MustNotify]));
    trace := RunExtended(c, trace, NotifyOne(1), s.(missed := true));
    trace := RunExtended(c, trace, WorkerControl, s.(missed := true, pc := Waiting, mutex := None));
  }
}
