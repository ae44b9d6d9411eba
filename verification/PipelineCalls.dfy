/** What the calls of a run leave in the index, and how many of them it reports as missing. */
module PipelineCalls {
  import opened Words
  import opened Sums
  import opened Events
  import opened Aggregation
  import opened Tracing
  import opened Pipeline

  // The index holds what the last call on an address has put there.

  /** The step inserts or removes the address. */
  predicate Touches(s: State, a: Action, address: U64) {
    match a
    case Allocate(_, inserted, _, sampled, _) => sampled && inserted == address
    case Deallocate(_, freed, _) => freed == address
    case ReallocRemove(_, freed, _, _, _, _) => freed == address
    case ReallocInsert(i, _) =>
      i < |s.agents| && s.agents[i].pending.Some? && s.agents[i].pending.value.address == address
    case _ => false
  }

  /** What such a step means to leave under the address. */
  function Meant(s: State, a: Action, address: U64): Option<Record>
    requires Touches(s, a, address)
  {
    match a
    case Allocate(_, _, size, _, stackId) => Some(Record(size, stackId))
    case ReallocInsert(i, stackId) => Some(Record(s.agents[i].pending.value.size, stackId))
    case _ => None
  }

  lemma StepIndexes(c: Config, s: State, a: Action, address: U64)
    requires Enabled(c, s, a)
    ensures Lookup(Next(c, s, a).index, address)
      == if Touches(s, a, address) then Meant(s, a, address) else Lookup(s.index, address)
  {
  }

  lemma {:induction false} UntouchedStays(
    c: Config, trace: seq<State>, acts: seq<Action>, address: U64, m: nat, n: nat)
    requires Takes(c, trace, acts) && m <= n < |trace|
    requires forall k :: m <= k < n ==> !Touches(trace[k], acts[k], address)
    ensures Lookup(trace[n].index, address) == Lookup(trace[m].index, address)
    decreases n
  {
    hide Touches, Enabled, Next;
    if m < n {
      UntouchedStays(c, trace, acts, address, m, n - 1);
      assert TakesOne(c, trace[n - 1], acts[n - 1], trace[n]);
      StepIndexes(c, trace[n - 1], acts[n - 1], address);
    }
  }

  /**
   * Over any interleaving an address is in the index as the last step on it meant: with the size and the stack of
   * the allocation, or not at all after a removal, whatever happens to others since.
   */
  lemma IndexIsLastCall(c: Config, trace: seq<State>, acts: seq<Action>, address: U64, m: nat, n: nat)
    requires Takes(c, trace, acts) && m < n < |trace| && Touches(trace[m], acts[m], address)
    requires forall k :: m < k < n ==> !Touches(trace[k], acts[k], address)
    ensures Lookup(trace[n].index, address) == Meant(trace[m], acts[m], address)
  {
    hide Touches, Meant, Enabled, Next;
    assert TakesOne(c, trace[m], acts[m], trace[m + 1]);
    StepIndexes(c, trace[m], acts[m], address);
    UntouchedStays(c, trace, acts, address, m + 1, n);
  }

  lemma StepPends(c: Config, s: State, a: Action, i: nat)
    requires Enabled(c, s, a) && i < |s.agents|
    ensures var s' := Next(c, s, a);
      && |s'.agents| == |s.agents|
      && (a.agent != i ==> s'.agents[i].pending == s.agents[i].pending)
      && (a.ReallocRemove? && a.agent == i ==>
            s'.agents[i].pending
              == if a.address in s.index && a.newSize > 0 && a.sampled then Some(Pending(a.newAddress, a.newSize))
                 else None)
  {
    hide PreparedAllocation, PreparedDeallocation, HotEvents, IngestedAll;
  }

  /**
   * After the removal of a reallocation the new block is still to be inserted exactly if the old one was tracked and
   * the new one has any bytes and is sampled, with its address and size, until the agent's own next step.
   */
  lemma {:induction false} ReallocationPends(
    c: Config, trace: seq<State>, acts: seq<Action>, m: nat, n: nat)
    requires Takes(c, trace, acts) && m < n < |trace| && acts[m].ReallocRemove?
    requires forall k :: m < k < n ==> acts[k].agent != acts[m].agent
    ensures var a := acts[m];
      && a.agent < |trace[n].agents|
      && trace[n].agents[a.agent].pending
           == if a.address in trace[m].index && a.newSize > 0 && a.sampled then Some(Pending(a.newAddress, a.newSize))
              else None
    decreases n
  {
    hide Next;
    var i := acts[m].agent;
    assert TakesOne(c, trace[m], acts[m], trace[m + 1]) && TakesOne(c, trace[n - 1], acts[n - 1], trace[n]);
    if n == m + 1 {
      StepPends(c, trace[m], acts[m], i);
    } else {
      ReallocationPends(c, trace, acts, m, n - 1);
      StepPends(c, trace[n - 1], acts[n - 1], i);
    }
  }

  // Drops report what the index did not know.

  /** The drops that an event reports. */
  ghost function Reported(): AllocationEvent -> int {
    (e: AllocationEvent) => match e.kind case Dropped(count) => count case _ => 0
  }

  /** How many operations the call on an address that is not in the index stands for. */
  function MissedBy(index: Index, a: Action): nat {
    match a
    case Deallocate(_, address, _) => if address in index then 0 else 1
    case ReallocRemove(_, address, _, _, _, _) => if address in index then 0 else 2
    case _ => 0
  }

  ghost function Missed(trace: seq<State>, acts: seq<Action>): nat
    requires |acts| <= |trace|
  {
    if |acts| == 0 then 0
    else
      var n := |acts| - 1;
      Missed(trace, acts[..n]) + MissedBy(trace[n].index, acts[n])
  }

  ghost predicate NoDrops(events: Batch) {
    forall e :: e in events ==> !e.kind.Dropped?
  }

  lemma StepEmits(c: Config, s: State, a: Action) returns (events: Batch)
    requires Enabled(c, s, a)
    ensures Next(c, s, a).emitted == s.emitted + events && |events| <= 1
    ensures if MissedBy(s.index, a) == 0 then NoDrops(events)
      else events == if c.sampling then [] else [DroppedEvent(MissedBy(s.index, a))]
  {
    assert s.emitted + [] == s.emitted;
    events := Next(c, s, a).emitted[|s.emitted|..];
  }

  lemma StepReports(c: Config, s: State, a: Action)
    requires Enabled(c, s, a)
    ensures Sum(Reported(), Next(c, s, a).emitted)
      == Sum(Reported(), s.emitted) + if c.sampling then 0 else MissedBy(s.index, a)
    ensures c.sampling && NoDrops(s.emitted) ==> NoDrops(Next(c, s, a).emitted)
  {
    hide Next, Enabled;
    var events := StepEmits(c, s, a);
    SumConcat(Reported(), s.emitted, events);
    assert |events| == 1 ==> events == [events[0]];
    if |events| == 1 {
      SumOne(Reported(), events[0]);
    }
  }

  /**
   * Drops tell what the index did not know, over any interleaving: without sampling their sum is exactly one for each
   * deallocation and two for each reallocation of an address that was not in the index at that moment. With sampling,
   * where such an address means nothing, none is ever emitted.
   */
  lemma {:induction false} DropsReportMissing(c: Config, trace: seq<State>, acts: seq<Action>)
    requires Takes(c, trace, acts) && Init(trace[0])
    ensures Sum(Reported(), Last(trace).emitted) == if c.sampling then 0 else Missed(trace, acts)
    ensures c.sampling ==> NoDrops(Last(trace).emitted)
  {
    hide Enabled, Next;
    if |acts| > 0 {
      var n := |acts| - 1;
      DropsReportMissing(c, trace[..n + 1], acts[..n]);
      MissedPrefix(trace, acts[..n], n + 1);
      assert TakesOne(c, trace[n], acts[n], trace[n + 1]);
      StepReports(c, trace[n], acts[n]);
    }
  }

  lemma {:induction false} MissedPrefix(trace: seq<State>, acts: seq<Action>, n: nat)
    requires |acts| <= n <= |trace|
    ensures Missed(trace[..n], acts) == Missed(trace, acts)
  {
    if |acts| > 0 {
      MissedPrefix(trace, acts[..|acts| - 1], n);
    }
  }
}
