/** What the drain of any agent guarantees about the events accepted before it began, whatever interferes. */
module PipelineCoverage {
  import opened Events
  import opened Aggregation
  import opened Tracing
  import opened Pipeline
  import opened PipelineStructure
  import opened PipelineRefinement

  /** The steps of `drain_buffers`. */
  predicate IsDrainStep(step: Action) {
    || step.BeginDrain? || step.Visit? || step.Pop? || step.SeeEmpty? || step.Swap? || step.EndVisit?
    || step.Ingest?
  }

  // How buffers evolve.

  /** A buffer that died has nothing left. */
  predicate Gone(b: Buffer) {
    !b.owned && b.queue == []
  }

  /** Every event accepted before the mark has been popped, or the buffer is gone. */
  predicate Covered(buffers: seq<Buffer>, marks: seq<nat>, b: nat) {
    b < |buffers| && b < |marks| ==> |buffers[b].popped| >= marks[b] || Gone(buffers[b])
  }

  ghost predicate Evolved(b: Buffer, b': Buffer) {
    b.popped <= b'.popped && b.accepted <= b'.accepted && (Gone(b) ==> Gone(b'))
  }

  ghost predicate BuffersEvolved(p: State, p': State) {
    && |p.buffers| <= |p'.buffers|
    && forall b :: 0 <= b < |p.buffers| ==> Evolved(p.buffers[b], p'.buffers[b])
  }

  lemma BuffersEvolve(c: Config, s: State, a: Action)
    requires Structured(c, s) && Enabled(c, s, a)
    ensures BuffersEvolved(s, Next(c, s, a))
  {
    hide Structured, BeingDrained, PreparedAllocation, PreparedDeallocation, HotEvents, IngestedAll;
    AgentOf(c, s, a.agent);
  }

  /** Other agents neither move an agent nor, while it holds the lock, touch the registry. */
  lemma OthersLeaveAgent(c: Config, s: State, a: Action, i: nat)
    requires Structured(c, s) && Enabled(c, s, a) && a.agent != i && i < |s.agents|
    ensures var s' := Next(c, s, a);
      && |s'.agents| > i && s'.agents[i] == s.agents[i]
      && (HoldsLock(s.agents[i].drain) ==> s'.registry == s.registry)
  {
    hide Structured, PreparedAllocation, PreparedDeallocation, HotEvents, IngestedAll, BeingDrained;
    AgentOf(c, s, i);
    AgentOf(c, s, a.agent);
  }

  ghost predicate AllCovered(p: State, marks: seq<nat>) {
    forall b :: 0 <= b < |marks| ==> Covered(p.buffers, marks, b)
  }

  ghost predicate CoveredUpTo(p: State, marks: seq<nat>, n: nat) {
    forall k :: 0 <= k < n && k < |p.registry| ==> Covered(p.buffers, marks, p.registry[k])
  }

  /** What the position of a drain says about the marks it began with. */
  ghost predicate Coverage(p: State, marks: seq<nat>, d: Drain) {
    match d
    case NotDraining => AllCovered(p, marks)
    case Visiting(at) => CoveredUpTo(p, marks, at)
    case Popping(at) => CoveredUpTo(p, marks, at)
    case Swapping(at) => CoveredUpTo(p, marks, at + 1)
    case Ingesting => AllCovered(p, marks)
  }

  /** Marks are taken from histories that only grow. */
  ghost predicate Reached(p: State, marks: seq<nat>) {
    && |marks| <= |p.buffers|
    && (forall b :: 0 <= b < |marks| ==> marks[b] <= |p.buffers[b].accepted|)
  }

  ghost predicate Below(marks: seq<nat>, later: seq<nat>) {
    |marks| <= |later| && forall b :: 0 <= b < |marks| ==> marks[b] <= later[b]
  }

  lemma CoverageStays(p: State, p': State, marks: seq<nat>)
    requires BuffersEvolved(p, p') && |marks| <= |p.buffers|
    ensures forall b :: Covered(p.buffers, marks, b) ==> Covered(p'.buffers, marks, b)
    ensures AllCovered(p, marks) ==> AllCovered(p', marks)
  {
    forall b: nat | Covered(p.buffers, marks, b) ensures Covered(p'.buffers, marks, b) {
      if b < |marks| {
        assert Evolved(p.buffers[b], p'.buffers[b]);
      }
    }
  }

  lemma CoverageUpToStays(p: State, p': State, marks: seq<nat>, n: nat)
    requires BuffersEvolved(p, p') && |marks| <= |p.buffers| && CoveredUpTo(p, marks, n)
    requires forall k :: 0 <= k < n && k < |p'.registry| ==> k < |p.registry| && p'.registry[k] == p.registry[k]
    ensures CoveredUpTo(p', marks, n)
  {
    CoverageStays(p, p', marks);
    hide Covered;
    forall k | 0 <= k < n && k < |p'.registry| ensures Covered(p'.buffers, marks, p'.registry[k]) {
      var b := p'.registry[k];
      assert k < |p.registry| && b == p.registry[k];
      assert Covered(p.buffers, marks, p.registry[k]);
    }
  }

  lemma ReachedStays(p: State, p': State, marks: seq<nat>)
    requires BuffersEvolved(p, p') && Reached(p, marks)
    ensures Reached(p', marks)
  {
    forall b | 0 <= b < |marks| ensures marks[b] <= |p'.buffers[b].accepted| {
      assert Evolved(p.buffers[b], p'.buffers[b]);
    }
  }

  /** Having visited the whole registry, the drain has covered every buffer: a live one is registered. */
  lemma RegistryCoversAll(c: Config, p: State, marks: seq<nat>, i: nat)
    requires Structured(c, p) && i < |p.agents| && p.agents[i].drain.Visiting?
    requires |marks| <= |p.buffers| && CoveredUpTo(p, marks, |p.registry|)
    ensures AllCovered(p, marks)
  {
    AgentOf(c, p, i);
    forall b | 0 <= b < |marks| ensures Covered(p.buffers, marks, b) {
      assert !BeingDrained(p, b);
      if p.buffers[b].owned {
        assert b in p.registry;
        var k :| 0 <= k < |p.registry| && p.registry[k] == b;
        assert Covered(p.buffers, marks, p.registry[k]);
      } else {
        assert !Unreported(p.buffers[b]);
      }
    }
  }

  lemma PopsCover(c: Config, p: State, marks: seq<nat>, step: Action)
    requires Structured(c, p) && Enabled(c, p, step) && |marks| <= |p.buffers|
    requires Coverage(p, marks, p.agents[step.agent].drain)
    requires step.Visit? || step.Pop? || step.Swap?
    ensures Coverage(Next(c, p, step), marks, Next(c, p, step).agents[step.agent].drain)
  {
    var p' := Next(c, p, step);
    var d := p.agents[step.agent].drain;
    BuffersEvolve(c, p, step);
    hide Evolved, Covered, CoveredUpTo, Structured;
    CoverageUpToStays(p, p', marks, if step.Swap? then d.at + 1 else d.at);
  }

  lemma EmptyCovers(c: Config, p: State, marks: seq<nat>, step: Action)
    requires Structured(c, p) && Enabled(c, p, step) && Reached(p, marks)
    requires Coverage(p, marks, p.agents[step.agent].drain) && step.SeeEmpty?
    ensures Coverage(Next(c, p, step), marks, Next(c, p, step).agents[step.agent].drain)
  {
    var p' := Next(c, p, step);
    assert BufferInv(c, p.buffers[p.registry[p.agents[step.agent].drain.at]]);
    assert Covered(p.buffers, marks, p.registry[p.agents[step.agent].drain.at]);
    hide Covered, Structured;
    assert p'.buffers == p.buffers && p'.registry == p.registry;
  }

  lemma DrainCovers(c: Config, p: State, marks: seq<nat>, step: Action)
    requires Structured(c, p) && Enabled(c, p, step) && Reached(p, marks)
    requires Coverage(p, marks, p.agents[step.agent].drain) && !step.BeginDrain?
    requires IsDrainStep(step)
    ensures Coverage(Next(c, p, step), marks, Next(c, p, step).agents[step.agent].drain)
  {
    if step.Visit? || step.Pop? || step.Swap? {
      PopsCover(c, p, marks, step);
    } else if step.SeeEmpty? {
      EmptyCovers(c, p, marks, step);
    } else {
      if step.EndVisit? {
        RegistryCoversAll(c, p, marks, step.agent);
      }
      hide Covered, Structured;
      assert Next(c, p, step).buffers == p.buffers;
    }
  }

  lemma DrainMoves(c: Config, p: State, step: Action)
    requires Enabled(c, p, step) && IsDrainStep(step)
    ensures var p' := Next(c, p, step);
      var d, d' := p.agents[step.agent].drain, p'.agents[step.agent].drain;
      && |p'.agents| == |p.agents|
      && (step.BeginDrain? ==> d.NotDraining? && d' == Visiting(0) && p'.buffers == p.buffers)
      && (step.Ingest? ==> d.Ingesting? && d'.NotDraining?)
      && (!step.BeginDrain? && !step.Ingest? ==> !d.NotDraining? && !d'.NotDraining?)
  {
  }

  // What a completed drain guarantees.

  lemma CoveredIsPopped(c: Config, p: State, marks: seq<nat>, b: nat)
    requires Structured(c, p) && Reached(p, marks) && AllCovered(p, marks) && b < |marks|
    ensures p.buffers[b].owned ==> p.buffers[b].accepted[..marks[b]] <= p.buffers[b].popped
    ensures p.buffers[b].accepted[..marks[b]] <= p.buffers[b].popped || Gone(p.buffers[b])
  {
    assert Covered(p.buffers, marks, b);
    var buf := p.buffers[b];
    assert BufferInv(c, buf);
    if !Gone(buf) {
      assert buf.accepted[..marks[b]] == buf.popped[..marks[b]];
    }
  }

  /** The events the first `n` buffers had accepted at a mark: all of them, or only those still alive. */
  ghost function Promised(buffers: seq<Buffer>, marks: seq<nat>, n: nat, dead: bool): Batch
    requires n <= |marks| <= |buffers|
    requires forall b :: 0 <= b < |marks| ==> marks[b] <= |buffers[b].accepted|
  {
    if n == 0 then []
    else
      Promised(buffers, marks, n - 1, dead)
      + if buffers[n - 1].owned || dead then buffers[n - 1].accepted[..marks[n - 1]] else []
  }

  /** What has left the buffers: popped or, if `dead`, gone with a buffer that died. */
  ghost function Left(buffers: seq<Buffer>, dead: bool): Batch {
    if |buffers| == 0 then []
    else
      var n := |buffers| - 1;
      Left(buffers[..n], dead) + if dead && Gone(buffers[n]) then buffers[n].accepted else buffers[n].popped
  }

  lemma PrefixBag(prefix: Batch, whole: Batch)
    requires prefix <= whole
    ensures multiset(prefix) <= multiset(whole)
  {
    assert whole == prefix + whole[|prefix|..];
  }

  lemma MoreWithPrefix(a: Batch, a': Batch, prefix: Batch, whole: Batch)
    requires multiset(a) <= multiset(a') && prefix <= whole
    ensures multiset(a + prefix) <= multiset(a' + whole)
  {
    PrefixBag(prefix, whole);
  }

  lemma {:induction false} PromisedLeft(c: Config, p: State, marks: seq<nat>, n: nat, dead: bool)
    requires Structured(c, p) && Reached(p, marks) && AllCovered(p, marks) && n <= |marks|
    ensures multiset(Promised(p.buffers, marks, n, dead)) <= multiset(Left(p.buffers[..n], dead))
  {
    hide Structured, AllCovered, Covered;
    if n > 0 {
      PromisedLeft(c, p, marks, n - 1, dead);
      var buf := p.buffers[n - 1];
      CoveredIsPopped(c, p, marks, n - 1);
      assert p.buffers[..n][..n - 1] == p.buffers[..n - 1];
      var promised := if buf.owned || dead then buf.accepted[..marks[n - 1]] else [];
      var left := if dead && Gone(buf) then buf.accepted else buf.popped;
      MoreWithPrefix(Promised(p.buffers, marks, n - 1, dead), Left(p.buffers[..n - 1], dead), promised, left);
    }
  }

  lemma {:induction false} LeftGrows(buffers: seq<Buffer>, n: nat, dead: bool)
    requires n <= |buffers|
    ensures multiset(Left(buffers[..n], dead)) <= multiset(Left(buffers, dead))
    decreases |buffers|
  {
    if n == |buffers| {
      assert buffers[..n] == buffers;
    } else {
      LeftGrows(buffers[..|buffers| - 1], n, dead);
      assert buffers[..|buffers| - 1][..n] == buffers[..n];
    }
  }

  lemma {:induction false} LeftIsTaken(buffers: seq<Buffer>)
    ensures Left(buffers, false) == Taken(buffers)
  {
    if |buffers| > 0 {
      LeftIsTaken(buffers[..|buffers| - 1]);
    }
  }

  /** What has left the buffers and what is queued is all that they accepted. */
  lemma {:induction false} LeftAndQueued(c: Config, buffers: seq<Buffer>)
    requires forall b :: 0 <= b < |buffers| ==> BufferInv(c, buffers[b])
    ensures multiset(Left(buffers, true)) + multiset(Queues(buffers)) == multiset(AllAccepted(buffers))
  {
    if |buffers| > 0 {
      var most, last := buffers[..|buffers| - 1], buffers[|buffers| - 1];
      LeftAndQueued(c, most);
      assert BufferInv(c, last);
      if !Gone(last) {
        assert multiset(last.popped + last.queue) == multiset(last.popped) + multiset(last.queue);
      }
    }
  }

  /** Where everything is that has left the buffers. */
  lemma LeftIsKept(c: Config, pipes: seq<State>)
    requires Run(c, pipes)
    ensures var p := Last(pipes);
      && multiset(Left(p.buffers, false)) <= multiset(Batches(p.agents) + p.ingested)
      && multiset(Left(p.buffers, true)) <= multiset(Batches(p.agents) + p.ingested + p.lost)
  {
    hide Init, Step;
    var p := Last(pipes);
    EventsConserved(c, pipes);
    AcceptedByBuffers(c, pipes);
    LeftIsTaken(p.buffers);
    RunStructured(c, pipes);
    LeftAndQueued(c, p.buffers);
    BagArithmetic(p);
  }

  lemma BagArithmetic(p: State)
    requires multiset(Taken(p.buffers) + p.synthesized) == multiset(Batches(p.agents) + p.ingested)
    requires multiset(p.accepted + p.synthesized)
      == multiset(Queues(p.buffers) + Batches(p.agents) + p.ingested + p.lost)
    requires multiset(p.accepted) == multiset(AllAccepted(p.buffers))
    requires multiset(Left(p.buffers, true)) + multiset(Queues(p.buffers)) == multiset(AllAccepted(p.buffers))
    ensures multiset(Taken(p.buffers)) <= multiset(Batches(p.agents) + p.ingested)
    ensures multiset(Left(p.buffers, true)) <= multiset(Batches(p.agents) + p.ingested + p.lost)
  {
    hide Left, Taken, Queues, Batches, AllAccepted;
    assert multiset(Taken(p.buffers) + p.synthesized) == multiset(Taken(p.buffers)) + multiset(p.synthesized);
    assert multiset(p.accepted + p.synthesized) == multiset(p.accepted) + multiset(p.synthesized);
    var rest := Batches(p.agents) + p.ingested + p.lost;
    assert Queues(p.buffers) + Batches(p.agents) + p.ingested + p.lost == Queues(p.buffers) + rest;
    assert multiset(Queues(p.buffers) + rest) == multiset(Queues(p.buffers)) + multiset(rest);
    Cancelled(multiset(Left(p.buffers, true)), multiset(Queues(p.buffers)), multiset(p.accepted),
              multiset(p.synthesized), multiset(rest));
  }

  lemma Cancelled<T(!new)>(l: multiset<T>, q: multiset<T>, a: multiset<T>, s: multiset<T>, rest: multiset<T>)
    requires l + q == a && a + s == q + rest
    ensures l <= rest
  {
    forall x ensures l[x] <= rest[x] {
      assert l[x] + q[x] == a[x] && a[x] + s[x] == (q + rest)[x];
    }
  }

  /**
   * The marked events are where they should be, and agent `i` has none of them in flight: those of live buffers
   * ingested or in another drainer's batch, and all of them there or lost with a dead buffer.
   */
  ghost predicate Kept(p: State, marks: seq<nat>, i: nat) {
    && Reached(p, marks) && i < |p.agents| && p.agents[i].batch == []
    && (forall b :: 0 <= b < |marks| && p.buffers[b].owned ==>
          p.buffers[b].accepted[..marks[b]] <= p.buffers[b].popped)
    && multiset(Promised(p.buffers, marks, |marks|, false)) <= multiset(Batches(p.agents) + p.ingested)
    && multiset(Promised(p.buffers, marks, |marks|, true))
         <= multiset(Batches(p.agents) + p.ingested + p.lost)
  }

  lemma CoveredIsKept(c: Config, pipes: seq<State>, marks: seq<nat>, i: nat)
    requires Run(c, pipes)
    requires var p := Last(pipes);
      && i < |p.agents| && p.agents[i].drain.NotDraining? && Reached(p, marks) && AllCovered(p, marks)
    ensures Kept(Last(pipes), marks, i)
  {
    hide Init, Step, AllCovered, Covered;
    var p := Last(pipes);
    RunStructured(c, pipes);
    AgentOf(c, p, i);
    hide Structured;
    LeftIsKept(c, pipes);
    PromisedLeft(c, p, marks, |marks|, false);
    PromisedLeft(c, p, marks, |marks|, true);
    LeftGrows(p.buffers, |marks|, false);
    LeftGrows(p.buffers, |marks|, true);
    forall b | 0 <= b < |marks| && p.buffers[b].owned
      ensures p.buffers[b].accepted[..marks[b]] <= p.buffers[b].popped
    {
      CoveredIsPopped(c, p, marks, b);
    }
  }

  lemma BelowIsCovered(p: State, marks: seq<nat>, later: seq<nat>)
    requires Below(marks, later) && AllCovered(p, later) && |later| <= |p.buffers|
    ensures AllCovered(p, marks)
  {
    forall b | 0 <= b < |marks| ensures Covered(p.buffers, marks, b) {
      assert Covered(p.buffers, later, b);
    }
  }

  // Any agent, any interleaving.

  /** Agent `i` is in one drain from state `m` to state `n` of a run, which it began in the step before `m`. */
  ghost predicate InOneDrain(trace: seq<State>, i: nat, m: nat, n: nat) {
    && 0 < m <= n < |trace|
    && (forall k :: m - 1 <= k <= n ==> i < |trace[k].agents|)
    && trace[m - 1].agents[i].drain.NotDraining?
    && (forall k :: m <= k <= n ==> !trace[k].agents[i].drain.NotDraining?)
  }

  /** An agent in a drain takes no other step. */
  lemma OnlyDrainSteps(c: Config, p: State, step: Action)
    requires Structured(c, p) && Enabled(c, p, step) && !p.agents[step.agent].drain.NotDraining?
    ensures IsDrainStep(step) && !step.BeginDrain?
  {
    AgentOf(c, p, step.agent);
  }

  lemma OthersKeepCoverage(c: Config, s: State, a: Action, marks: seq<nat>, i: nat)
    requires Structured(c, s) && Enabled(c, s, a) && a.agent != i && i < |s.agents|
    requires |marks| <= |s.buffers| && Coverage(s, marks, s.agents[i].drain)
    ensures var s' := Next(c, s, a); i < |s'.agents| && Coverage(s', marks, s'.agents[i].drain)
  {
    BuffersEvolve(c, s, a);
    OthersLeaveAgent(c, s, a, i);
    CoverageStays(s, Next(c, s, a), marks);
    hide Structured, Enabled, Next, Evolved, Covered;
  }

  /** What a step does to a drain in progress, of this agent or another. */
  lemma StepCovers(c: Config, p: State, p': State, marks: seq<nat>, i: nat)
    requires Structured(c, p) && Step(c, p, p') && i < |p.agents| && !p.agents[i].drain.NotDraining?
    requires Reached(p, marks) && Coverage(p, marks, p.agents[i].drain)
    ensures i < |p'.agents| && Reached(p', marks) && Coverage(p', marks, p'.agents[i].drain)
  {
    var step :| Enabled(c, p, step) && p' == Next(c, p, step);
    BuffersEvolve(c, p, step);
    ReachedStays(p, p', marks);
    hide Structured, Enabled, Next, BuffersEvolved, Reached, Coverage, IsDrainStep;
    if step.agent == i {
      OnlyDrainSteps(c, p, step);
      DrainMoves(c, p, step);
      DrainCovers(c, p, marks, step);
    } else {
      OthersKeepCoverage(c, p, step, marks, i);
    }
  }

  /** The first step of a drain moves no event. */
  lemma BeginCovers(c: Config, p: State, p': State, i: nat)
    requires Structured(c, p) && Step(c, p, p') && i < |p.agents| && i < |p'.agents|
    requires p.agents[i].drain.NotDraining? && !p'.agents[i].drain.NotDraining?
    ensures Reached(p', Lengths(p.buffers)) && Coverage(p', Lengths(p.buffers), p'.agents[i].drain)
  {
    var step :| Enabled(c, p, step) && p' == Next(c, p, step);
    if step.agent != i {
      OthersLeaveAgent(c, p, step, i);
    } else {
      OnlyBeginBegins(c, p, step);
      DrainMoves(c, p, step);
    }
    hide Structured, Enabled, Next;
  }

  lemma OnlyBeginBegins(c: Config, p: State, step: Action)
    requires Enabled(c, p, step) && p.agents[step.agent].drain.NotDraining?
    requires step.agent < |Next(c, p, step).agents| && !Next(c, p, step).agents[step.agent].drain.NotDraining?
    ensures step.BeginDrain?
  {
    hide PreparedAllocation, PreparedDeallocation, HotEvents, IngestedAll;
  }

  lemma {:induction false} DrainCoversUpTo(c: Config, trace: seq<State>, i: nat, m: nat, n: nat)
    requires Run(c, trace) && InOneDrain(trace, i, m, n)
    ensures var marks := Lengths(trace[m - 1].buffers);
      Reached(trace[n], marks) && Coverage(trace[n], marks, trace[n].agents[i].drain)
    decreases n
  {
    hide Structured, Init, Step, Coverage, Reached;
    RunStructuredAt(c, trace, n - 1);
    if n == m {
      BeginCovers(c, trace[n - 1], trace[n], i);
    } else {
      DrainCoversUpTo(c, trace, i, m, n - 1);
      StepCovers(c, trace[n - 1], trace[n], Lengths(trace[m - 1].buffers), i);
    }
  }

  lemma RunUpTo(c: Config, trace: seq<State>, k: nat)
    requires Run(c, trace) && k < |trace|
    ensures Run(c, trace[..k + 1]) && Last(trace[..k + 1]) == trace[k]
  {
    hide Init, Step;
  }

  lemma RunStructuredAt(c: Config, trace: seq<State>, k: nat)
    requires Run(c, trace) && k < |trace|
    ensures Structured(c, trace[k])
    ensures k + 1 < |trace| ==> Step(c, trace[k], trace[k + 1])
  {
    hide Init, Step, Structured;
    RunUpTo(c, trace, k);
    RunStructured(c, trace[..k + 1]);
  }

  /**
   * Whoever drains, the worker or the caller of a snapshot or a reset, and whatever the others do meanwhile: when
   * the drain is over, every event that a buffer had accepted when it began has been ingested, is in the batch of
   * another drainer, or died with its buffer; and of a live buffer, all of them have been popped, in order.
   */
  lemma EveryDrainIsComplete(c: Config, trace: seq<State>, i: nat, m: nat, n: nat)
    requires Run(c, trace) && InOneDrain(trace, i, m, n)
    requires n + 1 < |trace| && i < |trace[n + 1].agents| && trace[n + 1].agents[i].drain.NotDraining?
    ensures Kept(trace[n + 1], Lengths(trace[m - 1].buffers), i)
  {
    hide Structured, Init, Step, Coverage, Reached, Kept;
    var marks := Lengths(trace[m - 1].buffers);
    DrainCoversUpTo(c, trace, i, m, n);
    RunStructuredAt(c, trace, n);
    StepCovers(c, trace[n], trace[n + 1], marks, i);
    RunUpTo(c, trace, n + 1);
    NoDrainMeansCovered(trace[n + 1], marks, i);
    CoveredIsKept(c, trace[..n + 2], marks, i);
  }

  lemma NoDrainMeansCovered(p: State, marks: seq<nat>, i: nat)
    requires i < |p.agents| && p.agents[i].drain.NotDraining? && Coverage(p, marks, p.agents[i].drain)
    ensures AllCovered(p, marks)
  {
  }
}
