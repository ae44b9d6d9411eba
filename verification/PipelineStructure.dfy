/** Every step of the pipeline keeps its structure. */
module PipelineStructure {
  import opened Aggregation
  import opened Tracing
  import opened Pipeline

  lemma RunExtended(c: Config, trace: seq<State>, a: Action) returns (longer: seq<State>)
    requires Run(c, trace) && Enabled(c, Last(trace), a)
    ensures Run(c, longer) && trace <= longer && Last(longer) == Next(c, Last(trace), a)
  {
    hide Init, Enabled, Next;
    longer := trace + [Next(c, Last(trace), a)];
    forall k | 0 < k < |longer| ensures Step(c, longer[k - 1], longer[k]) {
      if k < |trace| {
        assert Step(c, trace[k - 1], trace[k]);
      }
    }
  }

  /** A step that only changes what its agent has in hand, or the index, keeps the structure. */
  lemma HandChanged(c: Config, s: State, s': State, i: nat)
    requires Structured(c, s) && i < |s.agents|
    requires var g := s'.agents; |g| == |s.agents| && g == s.agents[i := g[i]]
    requires s'.agents[i].buffer == s.agents[i].buffer && s'.agents[i].drain == s.agents[i].drain
    requires s'.buffers == s.buffers && s'.registry == s.registry && s'.lock == s.lock
    requires s'.totals == s.totals && s'.ingested == s.ingested
    requires AgentInv(s'.agents[i], i, s.lock, |s.registry|, s.buffers)
    ensures Structured(c, s')
  {
    hide BufferInv, AgentInv, IngestedAll;
  }

  lemma AgentOf(c: Config, s: State, i: nat)
    requires Structured(c, s) && i < |s.agents|
    ensures AgentInv(s.agents[i], i, s.lock, |s.registry|, s.buffers)
  {
  }

  /** The steps before an event is enqueued. */
  lemma HandStructured(c: Config, s: State, a: Action)
    requires Structured(c, s) && Enabled(c, s, a)
    requires a.Allocate? || a.Deallocate? || a.ReallocRemove? || a.ReallocInsert? || a.RecordEvent?
    ensures Structured(c, Next(c, s, a))
  {
    hide Structured, PreparedAllocation, PreparedDeallocation, HotEvents;
    AgentOf(c, s, a.agent);
    var s' := Next(c, s, a);
    assert s'.agents == s.agents[a.agent := s'.agents[a.agent]];
    HandChanged(c, s, s', a.agent);
  }

  lemma RegisterStructured(c: Config, s: State, a: Action)
    requires Structured(c, s) && Enabled(c, s, a) && a.Register?
    ensures Structured(c, Next(c, s, a))
  {
  }

  lemma AcceptedStructured(c: Config, s: State, a: Action)
    requires Structured(c, s) && Enabled(c, s, a) && a.Push?
    requires |s.buffers[s.agents[a.agent].buffer.value].queue| < c.capacity
    ensures Structured(c, Next(c, s, a))
  {
    var b := s.agents[a.agent].buffer.value;
    var buf, buf' := s.buffers[b], Next(c, s, a).buffers[b];
    assert BufferInv(c, buf') by {
      assert BufferInv(c, buf);
      assert buf'.popped + buf'.queue == buf'.accepted;
    }
  }

  lemma RejectedStructured(c: Config, s: State, a: Action)
    requires Structured(c, s) && Enabled(c, s, a) && a.Push?
    requires |s.buffers[s.agents[a.agent].buffer.value].queue| >= c.capacity
    ensures Structured(c, Next(c, s, a))
  {
    hide IngestedAll, HotEvents;
  }

  lemma CountDropStructured(c: Config, s: State, a: Action)
    requires Structured(c, s) && Enabled(c, s, a) && a.CountDrop?
    ensures Structured(c, Next(c, s, a))
  {
    hide IngestedAll, HotEvents;
  }

  lemma HandedOverStructured(c: Config, s: State, a: Action)
    requires Structured(c, s) && Enabled(c, s, a) && a.Exit? && BeingDrained(s, s.agents[a.agent].buffer.value)
    ensures Structured(c, Next(c, s, a))
  {
    hide IngestedAll, HotEvents;
  }

  lemma DiscardedStructured(c: Config, s: State, a: Action)
    requires Structured(c, s) && Enabled(c, s, a) && a.Exit? && !BeingDrained(s, s.agents[a.agent].buffer.value)
    ensures Structured(c, Next(c, s, a))
  {
    hide IngestedAll, HotEvents;
  }

  /** The steps of a drain that touch no buffer. */
  lemma MovedStructured(c: Config, s: State, a: Action)
    requires Structured(c, s) && Enabled(c, s, a) && (a.BeginDrain? || a.SeeEmpty? || a.EndVisit?)
    ensures Structured(c, Next(c, s, a))
  {
    hide BufferInv, IngestedAll;
  }

  lemma VisitStructured(c: Config, s: State, a: Action)
    requires Structured(c, s) && Enabled(c, s, a) && a.Visit?
    ensures Structured(c, Next(c, s, a))
  {
    hide IngestedAll, HotEvents;
  }

  lemma PopStructured(c: Config, s: State, a: Action)
    requires Structured(c, s) && Enabled(c, s, a) && a.Pop?
    ensures Structured(c, Next(c, s, a))
  {
    hide IngestedAll, HotEvents;
  }

  lemma SwapOwnedStructured(c: Config, s: State, a: Action)
    requires Structured(c, s) && Enabled(c, s, a) && a.Swap?
    requires s.buffers[s.registry[s.agents[a.agent].drain.at]].owned
    ensures Structured(c, Next(c, s, a))
  {
    hide IngestedAll, HotEvents;
  }

  lemma SwapDeadStructured(c: Config, s: State, a: Action)
    requires Structured(c, s) && Enabled(c, s, a) && a.Swap?
    requires !s.buffers[s.registry[s.agents[a.agent].drain.at]].owned
    ensures Structured(c, Next(c, s, a))
  {
    hide IngestedAll, HotEvents;
  }

  lemma IngestStructured(c: Config, s: State, a: Action)
    requires Structured(c, s) && Enabled(c, s, a) && a.Ingest?
    ensures Structured(c, Next(c, s, a))
  {
    IngestConcat(EMPTY, s.ingested, s.agents[a.agent].batch);
  }

  lemma StepStructured(c: Config, s: State, a: Action)
    requires Structured(c, s) && Enabled(c, s, a)
    ensures Structured(c, Next(c, s, a))
  {
    hide Structured;
    match a
    case Allocate(_, _, _, _, _) => HandStructured(c, s, a);
    case Deallocate(_, _, _) => HandStructured(c, s, a);
    case ReallocRemove(_, _, _, _, _, _) => HandStructured(c, s, a);
    case ReallocInsert(_, _) => HandStructured(c, s, a);
    case RecordEvent(_, _) => HandStructured(c, s, a);
    case Register(_) => RegisterStructured(c, s, a);
    case Push(i) =>
      if |s.buffers[s.agents[i].buffer.value].queue| < c.capacity {
        AcceptedStructured(c, s, a);
      } else {
        RejectedStructured(c, s, a);
      }
    case CountDrop(_) => CountDropStructured(c, s, a);
    case Exit(i) =>
      if BeingDrained(s, s.agents[i].buffer.value) {
        HandedOverStructured(c, s, a);
      } else {
        DiscardedStructured(c, s, a);
      }
    case BeginDrain(_) => MovedStructured(c, s, a);
    case Visit(_) => VisitStructured(c, s, a);
    case Pop(_) => PopStructured(c, s, a);
    case SeeEmpty(_) => MovedStructured(c, s, a);
    case Swap(i) =>
      if s.buffers[s.registry[s.agents[i].drain.at]].owned {
        SwapOwnedStructured(c, s, a);
      } else {
        SwapDeadStructured(c, s, a);
      }
    case EndVisit(_) => MovedStructured(c, s, a);
    case Ingest(_) => IngestStructured(c, s, a);
  }

  lemma {:induction false} RunStructured(c: Config, trace: seq<State>)
    requires Run(c, trace)
    ensures Structured(c, Last(trace))
  {
    if |trace| > 1 {
      RunPrefix(c, trace);
      RunStructured(c, trace[..|trace| - 1]);
      var s, s' := Last(trace[..|trace| - 1]), Last(trace);
      var a :| Enabled(c, s, a) && s' == Next(c, s, a);
      StepStructured(c, s, a);
    }
  }
}
