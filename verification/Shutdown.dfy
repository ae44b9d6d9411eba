/**
 * The drain worker's wake-up and shutdown protocol (`src/state.rs`, `run_worker`, `notify_flush`,
 * `request_shutdown`), composed with the pipeline it drains: flags, the worker mutex, the condition variable and
 * the join, one atomic operation a step.
 */
module Shutdown {
  import opened Words
  import P = Pipeline

  /** Where the worker is in `run_worker`; a drain in progress has its own position in the pipeline. */
  datatype WorkerPc =
    | AtTop                    // about to test `stop_flag` at the head of the loop
    | DrainCalled | Draining   // in the loop's `drain_buffers`, before and after taking the buffers lock
    | Drained                  // about to test `stop_flag` again
    | WantLock | HasLock       // taking the mutex; holding it, about to test `stop_flag` under it
    | AtSwap                   // about to swap `pending_flush`
    | AboutToWait | Waiting    // about to enter `wait_timeout`; blocked in it, without the mutex
    | Woken                    // leaving `wait_timeout`, once it has the mutex back
    | Releasing(leave: bool)   // about to drop the guard, and leave the loop or not
    | FinalCalled | FinalDraining | Finished

  /** A thread in `enqueue_event` after its push, and in `notify_flush`. */
  datatype AskPc =
    | NotAsking
    | MustCheck                // pushed, about to read the length of its queue
    | MustAsk                  // has to ask for a flush, about to raise `pending_flush`
    | MustNotify               // raised it, about to call `notify_one`

  /** A thread in `request_shutdown`. */
  datatype CallerPc =
    | Outside
    | StopSet                  // the first to raise `stop_flag`, about to take the mutex
    | StopLocked               // holding the mutex
    | MustNotifyAll            // released it, about to call `notify_all`
    | MustJoin                 // about to join the worker
    | Joined

  datatype Owner = Worker | Caller(i: nat)

  /**
   * `asking` has an entry for each agent of the pipeline, `callers` one for each thread that may shut down.
   *
   * The rest is history. `requests` counts flush requests; `cleared` and `served` are its values when the worker
   * last cleared the flag and last began a drain. `missed` says that a notification arrived after the worker's
   * last look at the flag but before it waited. `marks`, `flagged` and `begun` are the numbers of events each
   * buffer had accepted when `stop_flag` was raised, when the worker last cleared the flag, and when it last began
   * a drain.
   */
  datatype State = State(
    pipe: P.State, pc: WorkerPc, stop: bool, pending: bool, mutex: Option<Owner>, asking: seq<AskPc>,
    callers: seq<CallerPc>, requests: nat, cleared: nat, served: nat, missed: bool,
    marks: seq<nat>, flagged: seq<nat>, begun: seq<nat>)

  /** The worker is agent 0 of the pipeline. */
  const WORKER: nat := 0

  ghost predicate Init(s: State) {
    && P.Init(s.pipe) && |s.pipe.agents| > WORKER
    && s.pc == AtTop && !s.stop && !s.pending && s.mutex == None
    && |s.asking| == |s.pipe.agents| && (forall i :: 0 <= i < |s.asking| ==> s.asking[i] == NotAsking)
    && (forall i :: 0 <= i < |s.callers| ==> s.callers[i] == Outside)
    && s.requests == 0 && s.cleared == 0 && s.served == 0 && !s.missed
    && s.marks == [] && s.flagged == [] && s.begun == []
  }

  datatype Action =
    | OtherAgent(step: P.Action)
    | WorkerDrains(step: P.Action)
    | WorkerControl
    | CheckLength(i: nat) | NotifySwap(i: nat) | NotifyOne(i: nat)
    | StopSwap(i: nat) | StopLock(i: nat) | StopUnlock(i: nat) | NotifyAll(i: nat) | Join(i: nat)

  predicate InDrain(pc: WorkerPc) {
    pc.Draining? || pc.FinalDraining?
  }

  predicate DrainStepAllowed(pc: WorkerPc, step: P.Action) {
    match step
    case BeginDrain(_) => pc.DrainCalled? || pc.FinalCalled?
    case Visit(_) => InDrain(pc)
    case Pop(_) => InDrain(pc)
    case SeeEmpty(_) => InDrain(pc)
    case Swap(_) => InDrain(pc)
    case EndVisit(_) => InDrain(pc)
    case Ingest(_) => InDrain(pc)
    case _ => false
  }

  predicate HasBuffer(p: P.State, i: nat) {
    i < |p.agents| && p.agents[i].buffer.Some? && p.agents[i].buffer.value < |p.buffers|
  }

  /** How many events an agent's own buffer holds. */
  function QueueLength(p: P.State, i: nat): nat
    requires HasBuffer(p, i)
  {
    |p.buffers[p.agents[i].buffer.value].queue|
  }

  /** After a push a thread looks at the length of its queue; after a rejection it asks for a flush at once. */
  function AskAfter(c: P.Config, p: P.State, step: P.Action): AskPc
    requires P.Enabled(c, p, step)
  {
    match step
    case Push(i) => if QueueLength(p, i) < c.capacity then MustCheck else NotAsking
    case CountDrop(_) => MustAsk
    case _ => NotAsking
  }

  predicate Enabled(c: P.Config, s: State, a: Action) {
    match a
    case OtherAgent(step) =>
      && step.agent != WORKER && step.agent < |s.asking| && s.asking[step.agent].NotAsking?
      && P.Enabled(c, s.pipe, step)
    case WorkerDrains(step) => step.agent == WORKER && DrainStepAllowed(s.pc, step) && P.Enabled(c, s.pipe, step)
    case WorkerControl =>
      (match s.pc
       case WantLock => s.mutex.None?
       case Woken => s.mutex.None?
       case DrainCalled => false
       case Draining => false
       case FinalCalled => false
       case FinalDraining => false
       case Finished => false
       case _ => true)
    case CheckLength(i) => i < |s.asking| && s.asking[i].MustCheck? && HasBuffer(s.pipe, i)
    case NotifySwap(i) => i < |s.asking| && s.asking[i].MustAsk?
    case NotifyOne(i) => i < |s.asking| && s.asking[i].MustNotify?
    case StopSwap(i) => i < |s.callers| && s.callers[i].Outside?
    case StopLock(i) => i < |s.callers| && s.callers[i].StopSet? && s.mutex.None?
    case StopUnlock(i) => i < |s.callers| && s.callers[i].StopLocked?
    case NotifyAll(i) => i < |s.callers| && s.callers[i].MustNotifyAll?
    case Join(i) => i < |s.callers| && s.callers[i].MustJoin? && s.pc.Finished?
  }

  /** The worker's own operations. A wait ends by a notification or, as here, by timeout or spuriously. */
  function Controlled(s: State): State {
    match s.pc
    case AtTop => s.(pc := if s.stop then FinalCalled else DrainCalled)
    case Drained => s.(pc := if s.stop then FinalCalled else WantLock)
    case WantLock => s.(pc := HasLock, mutex := Some(Worker))
    case HasLock => s.(pc := if s.stop then Releasing(true) else AtSwap)
    case AtSwap =>
      if s.pending then
        s.(pc := Releasing(false), pending := false, cleared := s.requests, missed := false,
           flagged := P.Lengths(s.pipe.buffers))
      else s.(pc := AboutToWait, missed := false)
    case AboutToWait => s.(pc := Waiting, mutex := None)
    case Waiting => s.(pc := Woken)
    case Woken => s.(pc := Releasing(false), mutex := Some(Worker))
    case Releasing(leave) => s.(pc := if leave then FinalCalled else AtTop, mutex := None)
    case _ => s
  }

  /** `n` operations of the worker with nothing in between. */
  function ControlledTimes(s: State, n: nat): State {
    if n == 0 then s else Controlled(ControlledTimes(s, n - 1))
  }

  lemma TakesMutexAlone(s: State)
    requires s.pc.Drained? && s.mutex.None? && !s.stop
    ensures ControlledTimes(s, 3) == s.(pc := AtSwap, mutex := Some(Worker))
  {
    hide P.Lengths;
    assert ControlledTimes(s, 1) == Controlled(s);
    assert ControlledTimes(s, 2) == s.(pc := HasLock, mutex := Some(Worker));
  }

  /**
   * The rest of the loop's body after its drain, with nothing in between: after a stop the worker goes on to the
   * final drain at once; a pending flush it clears and begins again; otherwise it waits.
   */
  lemma LoopAlone(s: State)
    requires s.pc.Drained? && s.mutex.None?
    ensures s.stop ==> Controlled(s) == s.(pc := FinalCalled)
    ensures !s.stop && s.pending ==> (ControlledTimes(s, 5)
      == s.(pc := AtTop, pending := false, cleared := s.requests, missed := false,
            flagged := P.Lengths(s.pipe.buffers)))
    ensures !s.stop && !s.pending ==> ControlledTimes(s, 5) == s.(pc := Waiting, missed := false)
  {
    hide P.Lengths;
    if !s.stop {
      TakesMutexAlone(s);
      assert ControlledTimes(s, 4) == Controlled(ControlledTimes(s, 3));
    }
  }

  /**
   * `notify_flush` with nothing in between: the flag is up, and if it was down a worker that waits is woken; a flag
   * that is up already is left to whoever raised it.
   */
  lemma NotifyFlushAlone(c: P.Config, s: State, i: nat)
    requires i < |s.asking| && s.asking[i].MustAsk?
    ensures var s1 := Next(c, s, NotifySwap(i));
      && s1.pending && s1.requests == s.requests + 1 && s1.pc == s.pc
      && (if s.pending then s1.asking == s.asking[i := NotAsking]
          else
            && Enabled(c, s1, NotifyOne(i))
            && var s2 := Next(c, s1, NotifyOne(i));
               && s2.pending && s2.asking == s.asking[i := NotAsking]
               && s2.pc == if s.pc.Waiting? then Woken else s.pc)
  {
  }

  /**
   * `request_shutdown` up to the join, with nothing in between: the first caller raises the flag and wakes the worker,
   * leaving the mutex free; any other returns at once.
   */
  lemma RequestShutdownAlone(c: P.Config, s: State, i: nat)
    requires Enabled(c, s, StopSwap(i)) && s.mutex.None?
    ensures var s1 := Next(c, s, StopSwap(i));
      if s.stop then s1 == s
      else
        && Enabled(c, s1, StopLock(i))
        && var s2 := Next(c, s1, StopLock(i));
           && Enabled(c, s2, StopUnlock(i))
           && var s3 := Next(c, s2, StopUnlock(i));
              && Enabled(c, s3, NotifyAll(i))
              && Next(c, s3, NotifyAll(i)) == s.(
                   stop := true, callers := s.callers[i := MustJoin], pc := if s.pc.Waiting? then Woken else s.pc,
                   marks := P.Lengths(s.pipe.buffers))
  {
    hide P.Lengths, P.Enabled, P.Next;
    var s1 := Next(c, s, StopSwap(i));
    if !s.stop {
      assert s1.callers[i := StopLocked][i := MustNotifyAll][i := MustJoin] == s.callers[i := MustJoin];
    }
  }

  /** A stop that comes while it takes the mutex it sees under the mutex, which it then drops. */
  lemma StopSeenUnderMutex(s: State)
    requires s.pc.HasLock? && s.stop
    ensures ControlledTimes(s, 2) == s.(pc := FinalCalled, mutex := None)
  {
    assert ControlledTimes(s, 1) == Controlled(s);
  }

  function Drains(c: P.Config, s: State, step: P.Action): State
    requires P.Enabled(c, s.pipe, step)
  {
    var s' := s.(pipe := P.Next(c, s.pipe, step));
    match step
    case BeginDrain(_) =>
      s'.(pc := if s.pc.DrainCalled? then Draining else FinalDraining, served := s.requests,
          begun := P.Lengths(s.pipe.buffers))
    case Ingest(_) => s'.(pc := if s.pc.Draining? then Drained else Finished)
    case _ => s'
  }

  function SetCaller(s: State, i: nat, pc: CallerPc): State
    requires i < |s.callers|
  {
    s.(callers := s.callers[i := pc])
  }

  function SetAsk(s: State, i: nat, pc: AskPc): State
    requires i < |s.asking|
  {
    s.(asking := s.asking[i := pc])
  }

  function Next(c: P.Config, s: State, a: Action): State
    requires Enabled(c, s, a)
  {
    match a
    case OtherAgent(step) => SetAsk(s, step.agent, AskAfter(c, s.pipe, step)).(pipe := P.Next(c, s.pipe, step))
    case WorkerDrains(step) => Drains(c, s, step)
    case WorkerControl => Controlled(s)
    case CheckLength(i) => SetAsk(s, i, if QueueLength(s.pipe, i) >= c.flushThreshold then MustAsk else NotAsking)
    case NotifySwap(i) =>
      SetAsk(s, i, if s.pending then NotAsking else MustNotify).(pending := true, requests := s.requests + 1)
    case NotifyOne(i) =>
      SetAsk(s, i, NotAsking).(
        pc := if s.pc.Waiting? then Woken else s.pc, missed := s.missed || (s.pc.AboutToWait? && s.pending))
    case StopSwap(i) =>
      if s.stop then s
      else SetCaller(s, i, StopSet).(stop := true, marks := P.Lengths(s.pipe.buffers))
    case StopLock(i) => SetCaller(s, i, StopLocked).(mutex := Some(Caller(i)))
    case StopUnlock(i) => SetCaller(s, i, MustNotifyAll).(mutex := None)
    case NotifyAll(i) => SetCaller(s, i, MustJoin).(pc := if s.pc.Waiting? then Woken else s.pc)
    case Join(i) => SetCaller(s, i, Joined)
  }

  ghost predicate Step(c: P.Config, s: State, s': State) {
    exists a :: Enabled(c, s, a) && s' == Next(c, s, a)
  }

  ghost predicate Run(c: P.Config, trace: seq<State>) {
    && |trace| > 0
    && Init(trace[0])
    && forall i :: 0 < i < |trace| ==> Step(c, trace[i - 1], trace[i])
  }

  function Last(trace: seq<State>): State
    requires |trace| > 0
  {
    trace[|trace| - 1]
  }

  // The protocol invariant.

  predicate WorkerHasMutex(pc: WorkerPc) {
    pc.HasLock? || pc.AtSwap? || pc.AboutToWait? || pc.Releasing?
  }

  /** In `request_shutdown`, past the critical section of the mutex. */
  predicate PastMutex(pc: CallerPc) {
    pc.MustNotifyAll? || pc.MustJoin? || pc.Joined?
  }

  ghost predicate CallerInv(caller: CallerPc, i: nat, s: State) {
    && (s.mutex == Some(Caller(i)) <==> caller.StopLocked?)
    && (!caller.Outside? ==> s.stop)
    && (PastMutex(caller) || caller.StopLocked? ==> !s.pc.AtSwap? && !s.pc.AboutToWait?)
    && (caller.MustJoin? || caller.Joined? ==> !s.pc.Waiting?)
    && (caller.Joined? ==> s.pc.Finished?)
  }

  /** The requests not served by a drain begun since are announced by the flag, or a drain is coming. */
  ghost predicate FlushInv(s: State) {
    && s.cleared <= s.requests && s.served <= s.requests
    && (s.pending <==> s.requests > s.cleared)
    && (s.cleared > s.served ==> s.pc == Releasing(false) || s.pc.AtTop? || s.pc.DrainCalled? || s.pc.FinalCalled?)
  }

  ghost predicate SomeoneNotifies(asking: seq<AskPc>) {
    exists i :: 0 <= i < |asking| && asking[i].MustNotify?
  }

  /** Why a blocked worker may leave a request waiting. */
  ghost predicate MissedInv(s: State) {
    && (s.missed && (s.pc.AboutToWait? || s.pc.Waiting?) ==> s.pending)
    && (s.pc.AboutToWait? || s.pc.Waiting? ==>
          (s.pending ==> s.missed || SomeoneNotifies(s.asking)))
  }

  ghost predicate ProtocolInv(s: State) {
    && (s.mutex == Some(Worker) <==> WorkerHasMutex(s.pc))
    && (s.mutex.Some? && s.mutex.value.Caller? ==> s.mutex.value.i < |s.callers|)
    && (forall i :: 0 <= i < |s.callers| ==> CallerInv(s.callers[i], i, s))
    && (s.pc == Releasing(true) || s.pc.FinalCalled? || s.pc.FinalDraining? || s.pc.Finished? ==> s.stop)
    && FlushInv(s)
  }

  lemma OtherAgentProtocol(c: P.Config, s: State, a: Action)
    requires ProtocolInv(s) && Enabled(c, s, a) && a.OtherAgent?
    ensures ProtocolInv(Next(c, s, a))
  {
    hide P.Enabled, P.Next, AskAfter;
    var s' := Next(c, s, a);
    forall i | 0 <= i < |s'.callers| ensures CallerInv(s'.callers[i], i, s') {
      assert CallerInv(s.callers[i], i, s);
    }
  }

  lemma WorkerDrainProtocol(c: P.Config, s: State, a: Action)
    requires ProtocolInv(s) && Enabled(c, s, a) && a.WorkerDrains?
    ensures ProtocolInv(Next(c, s, a))
  {
    hide P.Enabled, P.Next, P.Lengths;
    var s' := Next(c, s, a);
    forall i | 0 <= i < |s'.callers| ensures CallerInv(s'.callers[i], i, s') {
      assert CallerInv(s.callers[i], i, s);
    }
  }

  lemma WorkerCallers(c: P.Config, s: State, i: nat)
    requires ProtocolInv(s) && Enabled(c, s, WorkerControl) && i < |s.callers|
    ensures Controlled(s).callers == s.callers && CallerInv(s.callers[i], i, Controlled(s))
  {
    hide P.Lengths, FlushInv;
    assert CallerInv(s.callers[i], i, s);
  }

  lemma WorkerProtocol(c: P.Config, s: State, a: Action)
    requires ProtocolInv(s) && Enabled(c, s, a) && a.WorkerControl?
    ensures ProtocolInv(Next(c, s, a))
  {
    hide P.Enabled, P.Next, P.Lengths, CallerInv;
    var s' := Next(c, s, a);
    forall i | 0 <= i < |s'.callers| ensures CallerInv(s'.callers[i], i, s') {
      WorkerCallers(c, s, i);
    }
  }

  /** A step of a thread in `request_shutdown`. */
  predicate IsCaller(a: Action) {
    a.StopSwap? || a.StopLock? || a.StopUnlock? || a.NotifyAll? || a.Join?
  }

  lemma CallerProtocol(c: P.Config, s: State, a: Action)
    requires ProtocolInv(s) && Enabled(c, s, a) && IsCaller(a)
    ensures ProtocolInv(Next(c, s, a))
  {
    hide P.Enabled, P.Next;
    var s' := Next(c, s, a);
    forall i | 0 <= i < |s'.callers| ensures CallerInv(s'.callers[i], i, s') {
      assert CallerInv(s.callers[i], i, s);
      assert CallerInv(s.callers[a.i], a.i, s);
    }
  }

  lemma AskProtocol(c: P.Config, s: State, a: Action)
    requires ProtocolInv(s) && Enabled(c, s, a) && (a.CheckLength? || a.NotifySwap? || a.NotifyOne?)
    ensures ProtocolInv(Next(c, s, a))
  {
    hide P.Enabled, P.Next;
    var s' := Next(c, s, a);
    forall i | 0 <= i < |s'.callers| ensures CallerInv(s'.callers[i], i, s') {
      assert CallerInv(s.callers[i], i, s);
    }
  }

  lemma StepProtocol(c: P.Config, s: State, a: Action)
    requires ProtocolInv(s) && Enabled(c, s, a)
    ensures ProtocolInv(Next(c, s, a))
  {
    if a.OtherAgent? {
      OtherAgentProtocol(c, s, a);
    } else if a.WorkerDrains? {
      WorkerDrainProtocol(c, s, a);
    } else if a.WorkerControl? {
      WorkerProtocol(c, s, a);
    } else if IsCaller(a) {
      CallerProtocol(c, s, a);
    } else {
      AskProtocol(c, s, a);
    }
  }

  lemma StillNotifies(asking: seq<AskPc>, i: nat, pc: AskPc)
    requires i < |asking|
    ensures pc.MustNotify? || (SomeoneNotifies(asking) && !asking[i].MustNotify?) ==>
      SomeoneNotifies(asking[i := pc])
  {
    if pc.MustNotify? {
      assert asking[i := pc][i].MustNotify?;
    } else if SomeoneNotifies(asking) {
      var j :| 0 <= j < |asking| && asking[j].MustNotify?;
      assert j != i ==> asking[i := pc][j].MustNotify?;
    }
  }

  lemma StepMissed(c: P.Config, s: State, a: Action)
    requires MissedInv(s) && Enabled(c, s, a)
    ensures MissedInv(Next(c, s, a))
  {
    hide P.Enabled, P.Next, P.Lengths, SomeoneNotifies;
    var s' := Next(c, s, a);
    if a.OtherAgent? {
      StillNotifies(s.asking, a.step.agent, s'.asking[a.step.agent]);
    } else if a.CheckLength? || a.NotifySwap? {
      StillNotifies(s.asking, a.i, s'.asking[a.i]);
    }
  }

  lemma {:induction false} RunProtocol(c: P.Config, trace: seq<State>)
    requires Run(c, trace)
    ensures ProtocolInv(Last(trace)) && MissedInv(Last(trace))
  {
    if |trace| > 1 {
      RunProtocol(c, trace[..|trace| - 1]);
      var s, s' := trace[|trace| - 2], trace[|trace| - 1];
      assert Step(c, s, s');
      var a :| Enabled(c, s, a) && s' == Next(c, s, a);
      StepProtocol(c, s, a);
      StepMissed(c, s, a);
    }
  }

  /** In `request_shutdown`, past the swap of the flag: only the first caller gets there. */
  predicate Stopping(pc: CallerPc) {
    !pc.Outside?
  }

  ghost predicate OneStopperInv(s: State) {
    forall i, j :: 0 <= i < j < |s.callers| ==> !Stopping(s.callers[i]) || !Stopping(s.callers[j])
  }

  lemma NobodyStopping(s: State)
    requires ProtocolInv(s) && !s.stop
    ensures forall k :: 0 <= k < |s.callers| ==> !Stopping(s.callers[k])
  {
    hide FlushInv;
    forall k | 0 <= k < |s.callers| ensures !Stopping(s.callers[k]) {
      assert CallerInv(s.callers[k], k, s);
    }
  }

  /** A step concerns one caller at most, who starts to stop only by raising the flag. */
  lemma OneCallerMoves(c: P.Config, s: State, a: Action)
    requires Enabled(c, s, a)
    ensures var s' := Next(c, s, a);
      if IsCaller(a) then
        && a.i < |s.callers| && |s'.callers| == |s.callers|
        && (forall k :: 0 <= k < |s.callers| && k != a.i ==> s'.callers[k] == s.callers[k])
        && (Stopping(s'.callers[a.i]) ==> Stopping(s.callers[a.i]) || !s.stop)
      else s'.callers == s.callers
  {
    hide P.Enabled, P.Next, AskAfter, DrainStepAllowed, P.Lengths;
  }

  lemma StepOneStopper(c: P.Config, s: State, a: Action)
    requires ProtocolInv(s) && OneStopperInv(s) && Enabled(c, s, a)
    ensures OneStopperInv(Next(c, s, a))
  {
    hide ProtocolInv, Enabled, Next, Stopping;
    OneCallerMoves(c, s, a);
    if !s.stop {
      NobodyStopping(s);
    }
  }

  lemma {:induction false} OneStopper(c: P.Config, trace: seq<State>)
    requires Run(c, trace)
    ensures OneStopperInv(Last(trace))
  {
    if |trace| > 1 {
      var before := trace[..|trace| - 1];
      OneStopper(c, before);
      RunProtocol(c, before);
      var s, s' := trace[|trace| - 2], trace[|trace| - 1];
      assert Step(c, s, s');
      var a :| Enabled(c, s, a) && s' == Next(c, s, a);
      StepOneStopper(c, s, a);
    }
  }

  /**
   * No lost wake-up at shutdown: once the first caller of `request_shutdown` has run `notify_all`, the worker is
   * not blocked in `wait_timeout`, nor will it be: it is past its last wait, and only the stop branches are open.
   */
  lemma NoLostWakeUp(c: P.Config, trace: seq<State>, i: nat)
    requires Run(c, trace) && i < |Last(trace).callers|
    requires Last(trace).callers[i].MustJoin? || Last(trace).callers[i].Joined?
    ensures var s := Last(trace);
      && s.stop
      && !s.pc.Waiting? && !s.pc.AboutToWait? && !s.pc.AtSwap?
      && (s.mutex == None || s.mutex == Some(Worker))
  {
    RunProtocol(c, trace);
    var s := Last(trace);
    assert CallerInv(s.callers[i], i, s);
    if s.mutex.Some? && s.mutex.value.Caller? {
      assert CallerInv(s.callers[s.mutex.value.i], s.mutex.value.i, s);
      OneStopper(c, trace);
    }
  }

  /**
   * Flush requests are not discarded: whenever the worker waits or has finished, every request was followed by
   * the beginning of a drain, or the flag is still up.
   */
  lemma FlushRequestsKept(c: P.Config, trace: seq<State>)
    requires Run(c, trace) && (Last(trace).pc.Waiting? || Last(trace).pc.Finished?)
    ensures var s := Last(trace); s.served >= s.cleared && (s.requests > s.served ==> s.pending)
  {
    RunProtocol(c, trace);
  }

  /**
   * Exactly when a flush request leaves the worker blocked with the flag up and no notification coming: the
   * notification fell between the worker's last look at the flag and its wait.
   */
  lemma BlockedRequestIff(c: P.Config, trace: seq<State>)
    requires Run(c, trace) && Last(trace).pc.Waiting?
    requires forall i :: 0 <= i < |Last(trace).asking| ==> !Last(trace).asking[i].MustNotify?
    ensures Last(trace).pending <==> Last(trace).missed
  {
    RunProtocol(c, trace);
  }
}
