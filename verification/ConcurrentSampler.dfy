/**
 * The byte sampler under interleaving: any number of threads run `SamplingBytes::should_sample` at once, each
 * atomic operation (`fetch_add`, `load`, `compare_exchange`) being one step.
 */
module ConcurrentSampling {
  import opened Words
  import opened Sums
  import opened Sampling

  /** Where a thread is in its call, what it remembers, and how many of its exchanges have failed. */
  datatype Call = Idle | Fetched(total: U64, fails: nat) | Loaded(total: U64, next: U64, fails: nat)

  /**
   * `sizes` lists the sizes of all calls in the order of their `fetch_add`, `added` their totals, and `settled`
   * with `verdicts` the totals and results of the finished ones in the order of the atomic operation that decided
   * them.
   */
  datatype State = State(
    nextSample: U64, totalObserved: U64, calls: seq<Call>,
    sizes: seq<U64>, added: seq<nat>, settled: seq<nat>, verdicts: seq<bool>)

  datatype Action = FetchAdd(thread: nat, size: U64) | Load(thread: nat) | CompareExchange(thread: nat)

  ghost predicate Init(interval: Interval, s: State) {
    && s.nextSample == interval && s.totalObserved == 0
    && (forall t :: 0 <= t < |s.calls| ==> s.calls[t] == Idle)
    && s.sizes == [] && s.added == [] && s.settled == [] && s.verdicts == []
  }

  /** The counter is assumed not to come within one interval of the largest `u64`. */
  predicate Enabled(interval: Interval, s: State, a: Action) {
    && a.thread < |s.calls|
    && match a
       case FetchAdd(t, size) => s.calls[t].Idle? && size > 0 && s.totalObserved + size + interval <= U64_MAX
       case Load(t) => s.calls[t].Fetched?
       case CompareExchange(t) => s.calls[t].Loaded?
  }

  function Settle(s: State, t: nat, total: U64, sampled: bool): State
    requires t < |s.calls|
  {
    s.(calls := s.calls[t := Idle], settled := s.settled + [total], verdicts := s.verdicts + [sampled])
  }

  function Next(interval: Interval, s: State, a: Action): State
    requires Enabled(interval, s, a)
  {
    match a
    case FetchAdd(t, size) =>
      var total := SaturatingAdd(s.totalObserved, size);
      s.(totalObserved := WrappingAdd(s.totalObserved, size), calls := s.calls[t := Fetched(total, 0)],
         sizes := s.sizes + [size], added := s.added + [total])
    case Load(t) =>
      var c := s.calls[t];
      if c.total < s.nextSample then Settle(s, t, c.total, false)
      else s.(calls := s.calls[t := Loaded(c.total, s.nextSample, c.fails)])
    case CompareExchange(t) =>
      var c := s.calls[t];
      if s.nextSample == c.next then
        Settle(s, t, c.total, true).(nextSample := SaturatingAdd(c.next, Max(interval, 1)))
      else
        s.(calls := s.calls[t := Fetched(c.total, c.fails + 1)])
  }

  ghost predicate Step(interval: Interval, s: State, s': State) {
    exists a :: Enabled(interval, s, a) && s' == Next(interval, s, a)
  }

  /** A run: consecutive states are related by steps of any threads in any order. */
  ghost predicate Run(interval: Interval, trace: seq<State>) {
    && |trace| > 0
    && Init(interval, trace[0])
    && forall i :: 0 < i < |trace| ==> Step(interval, trace[i - 1], trace[i])
  }

  lemma RunExtended(interval: Interval, trace: seq<State>, a: Action, s': State)
    requires Run(interval, trace) && Enabled(interval, trace[|trace| - 1], a)
    requires s' == Next(interval, trace[|trace| - 1], a)
    ensures Run(interval, trace + [s'])
  {
    var longer := trace + [s'];
    forall i | 0 < i < |longer| ensures Step(interval, longer[i - 1], longer[i]) {
      if i < |trace| {
        assert Step(interval, trace[i - 1], trace[i]);
      }
    }
  }

  /** The steps of one call, with nothing in between, do what the call does alone. */
  lemma CallIsItsSteps(interval: Interval, s: State, t: nat, size: U64)
    requires Enabled(interval, s, FetchAdd(t, size))
    ensures var (after, sampled) := Offered(interval, Sampler(s.nextSample, s.totalObserved), size);
      var s1 := Next(interval, s, FetchAdd(t, size));
      var s2 := Next(interval, s1, Load(t));
      var s' := if s2.calls[t].Idle? then s2 else Next(interval, s2, CompareExchange(t));
      && Sampler(s'.nextSample, s'.totalObserved) == after
      && s'.calls == s.calls && s'.sizes == s.sizes + [size] && s'.verdicts == s.verdicts + [sampled]
  {
    var s1 := Next(interval, s, FetchAdd(t, size));
    var s2 := Next(interval, s1, Load(t));
    assert s1.calls[t := Idle] == s.calls && s2.calls[t := Idle] == s.calls;
  }

  ghost predicate CallInv(interval: Interval, nextSample: int, totalObserved: int, c: Call) {
    match c
    case Idle => true
    case Fetched(total, fails) =>
      && total <= totalObserved && Multiple(interval, fails) <= total && Multiple(interval, fails + 1) <= nextSample
    case Loaded(total, next, fails) =>
      && next <= total <= totalObserved && Multiple(interval, fails + 1) <= next
      && (next == nextSample || next + interval <= nextSample)
  }

  /** Every verdict is the greedy rule's, given the offers settled before. */
  ghost predicate GreedyVerdicts(interval: Interval, settled: seq<nat>, verdicts: seq<bool>) {
    && |verdicts| == |settled|
    && forall i :: 0 <= i < |settled| ==>
         (verdicts[i] <==> settled[i] >= Multiple(interval, Taken(interval, settled[..i]) + 1))
  }

  ghost predicate Inv(interval: Interval, s: State) {
    && s.totalObserved + interval <= U64_MAX
    && s.nextSample == Multiple(interval, Taken(interval, s.settled) + 1)
    && Multiple(interval, Taken(interval, s.settled)) <= s.totalObserved
    && GreedyVerdicts(interval, s.settled, s.verdicts)
    && (forall t :: 0 <= t < |s.calls| ==> CallInv(interval, s.nextSample, s.totalObserved, s.calls[t]))
  }

  lemma SettledVerdict(interval: Interval, settled: seq<nat>, verdicts: seq<bool>, total: nat, sampled: bool)
    requires GreedyVerdicts(interval, settled, verdicts)
    requires sampled <==> total >= Multiple(interval, Taken(interval, settled) + 1)
    ensures GreedyVerdicts(interval, settled + [total], verdicts + [sampled])
    ensures Taken(interval, settled + [total]) == Taken(interval, settled) + (if sampled then 1 else 0)
  {
    var n := |settled|;
    assert (settled + [total])[..n] == settled;
    assert forall i :: 0 <= i < n ==> (settled + [total])[..i] == settled[..i];
  }

  lemma FetchAddInv(interval: Interval, s: State, a: Action)
    requires Inv(interval, s) && Enabled(interval, s, a) && a.FetchAdd?
    ensures Inv(interval, Next(interval, s, a))
  {
    MultipleGrows(interval, 1, Taken(interval, s.settled) + 1);
    assert Multiple(interval, 0) == 0;
  }

  lemma LoadInv(interval: Interval, s: State, a: Action)
    requires Inv(interval, s) && Enabled(interval, s, a) && a.Load?
    ensures Inv(interval, Next(interval, s, a))
  {
    hide Multiple, Taken, GreedyVerdicts;
    var c := s.calls[a.thread];
    if c.total < s.nextSample {
      SettledVerdict(interval, s.settled, s.verdicts, c.total, false);
    }
  }

  lemma FailedExchangeInv(interval: Interval, s: State, a: Action)
    requires Inv(interval, s) && Enabled(interval, s, a) && a.CompareExchange?
    requires s.nextSample != s.calls[a.thread].next
    ensures Inv(interval, Next(interval, s, a))
  {
    var c := s.calls[a.thread];
    assert Multiple(interval, c.fails + 2) == Multiple(interval, c.fails + 1) + interval;
  }

  lemma SuccessfulExchangeInv(interval: Interval, s: State, a: Action)
    requires Inv(interval, s) && Enabled(interval, s, a) && a.CompareExchange?
    requires s.nextSample == s.calls[a.thread].next
    ensures Inv(interval, Next(interval, s, a))
  {
    hide Taken, GreedyVerdicts;
    var c := s.calls[a.thread];
    var s' := Next(interval, s, a);
    SettledVerdict(interval, s.settled, s.verdicts, c.total, true);
    assert s'.nextSample == s.nextSample + interval;
    assert s'.nextSample == Multiple(interval, Taken(interval, s.settled) + 2);
    CallsSurviveSample(interval, s);
    assert forall t :: 0 <= t < |s'.calls| ==> s'.calls[t] == Idle || s'.calls[t] == s.calls[t];
  }

  /** When the threshold moves on, every other call stays as it was, possibly with a stale threshold. */
  lemma CallsSurviveSample(interval: Interval, s: State)
    requires Inv(interval, s)
    ensures forall t :: 0 <= t < |s.calls| ==>
      CallInv(interval, s.nextSample + interval, s.totalObserved, s.calls[t])
  {
    forall t | 0 <= t < |s.calls| ensures CallInv(interval, s.nextSample + interval, s.totalObserved, s.calls[t]) {
      assert CallInv(interval, s.nextSample, s.totalObserved, s.calls[t]);
    }
  }

  lemma StepInv(interval: Interval, s: State, s': State)
    requires Inv(interval, s) && Step(interval, s, s')
    ensures Inv(interval, s')
  {
    var a :| Enabled(interval, s, a) && s' == Next(interval, s, a);
    match a
    case FetchAdd(_, _) => FetchAddInv(interval, s, a);
    case Load(_) => LoadInv(interval, s, a);
    case CompareExchange(t) =>
      if s.nextSample == s.calls[t].next {
        SuccessfulExchangeInv(interval, s, a);
      } else {
        FailedExchangeInv(interval, s, a);
      }
  }

  lemma {:induction false} RunInv(interval: Interval, trace: seq<State>)
    requires Run(interval, trace)
    ensures Inv(interval, trace[|trace| - 1])
  {
    if |trace| == 1 {
      assert Multiple(interval, 1) == interval;
    } else {
      RunInv(interval, trace[..|trace| - 1]);
      StepInv(interval, trace[|trace| - 2], trace[|trace| - 1]);
    }
  }

  ghost function Successes(s: State): nat {
    multiset(s.verdicts)[true]
  }

  lemma GreedyPrefix(interval: Interval, settled: seq<nat>, verdicts: seq<bool>)
    requires GreedyVerdicts(interval, settled, verdicts) && |settled| > 0
    ensures GreedyVerdicts(interval, settled[..|settled| - 1], verdicts[..|settled| - 1])
  {
    hide Multiple, Taken;
    var most := settled[..|settled| - 1];
    assert forall i :: 0 <= i < |most| ==> most[..i] == settled[..i];
  }

  lemma {:induction false} SuccessesAreTaken(interval: Interval, settled: seq<nat>, verdicts: seq<bool>)
    requires GreedyVerdicts(interval, settled, verdicts)
    ensures multiset(verdicts)[true] == Taken(interval, settled)
  {
    hide Multiple;
    var n := |settled| - 1;
    if n >= 0 {
      GreedyPrefix(interval, settled, verdicts);
      SuccessesAreTaken(interval, settled[..n], verdicts[..n]);
      assert verdicts == verdicts[..n] + [verdicts[n]];
    }
  }

  /**
   * Under every interleaving the threshold counts the samples, and the samples never outnumber the intervals
   * observed.
   */
  lemma SamplesBounded(interval: Interval, trace: seq<State>)
    requires Run(interval, trace)
    ensures var s := trace[|trace| - 1];
      && s.nextSample == interval * (Successes(s) + 1)
      && interval * Successes(s) <= s.totalObserved
      && Successes(s) <= s.totalObserved / interval
  {
    RunInv(interval, trace);
    var s := trace[|trace| - 1];
    SuccessesAreTaken(interval, s.settled, s.verdicts);
    Quotient(interval, s.totalObserved, Successes(s));
    IntervalsIsQuotient(interval, s.totalObserved);
    MultipleIsProduct(interval, Successes(s));
    MultipleIsProduct(interval, Successes(s) + 1);
  }

  /**
   * Linearizability: whatever the interleaving, the verdicts are those of the greedy rule applied to the totals
   * in the order in which the calls settled, as if each call had run alone at that moment.
   */
  lemma VerdictsAreGreedy(interval: Interval, trace: seq<State>)
    requires Run(interval, trace)
    ensures var s := trace[|trace| - 1];
      GreedyVerdicts(interval, s.settled, s.verdicts) && Successes(s) == Taken(interval, s.settled)
  {
    RunInv(interval, trace);
    SuccessesAreTaken(interval, trace[|trace| - 1].settled, trace[|trace| - 1].verdicts);
  }

  /**
   * The termination measure: when an exchange fails, the threshold has moved past the value the call saw by at
   * least one interval, so the gap between the call's fixed total and the threshold has shrunk by as much.
   */
  lemma FailedExchangeShrinksGap(interval: Interval, trace: seq<State>, t: nat)
    requires Run(interval, trace) && t < |trace[|trace| - 1].calls|
    requires var s := trace[|trace| - 1]; s.calls[t].Loaded? && s.calls[t].next != s.nextSample
    ensures var s := trace[|trace| - 1];
      s.calls[t].total - s.nextSample <= s.calls[t].total - s.calls[t].next - interval
  {
    RunInv(interval, trace);
    var s := trace[|trace| - 1];
    assert CallInv(interval, s.nextSample, s.totalObserved, s.calls[t]);
  }

  /** Hence no call, whatever the other threads do, fails more often than its total has intervals. */
  lemma FailuresBounded(interval: Interval, trace: seq<State>, t: nat)
    requires Run(interval, trace) && t < |trace[|trace| - 1].calls|
    requires var c := trace[|trace| - 1].calls[t]; c.Fetched? || c.Loaded?
    ensures var c := trace[|trace| - 1].calls[t]; c.fails <= c.total / interval
  {
    RunInv(interval, trace);
    var s := trace[|trace| - 1];
    var c := s.calls[t];
    assert CallInv(interval, s.nextSample, s.totalObserved, c);
    Quotient(interval, c.total, c.fails);
    IntervalsIsQuotient(interval, c.total);
  }

  // Nothing is decided twice and nothing is forgotten.

  ghost function Pending(x: nat): Call -> int {
    (c: Call) => if (c.Fetched? || c.Loaded?) && c.total == x then 1 else 0
  }

  ghost predicate Accounted(s: State) {
    forall x :: multiset(s.settled)[x] + Sum(Pending(x), s.calls) == multiset(s.added)[x]
  }

  /** One call moves on: what it owes and what is settled change together. */
  lemma MovedCall(s: State, t: nat, c': Call, s': State, x: nat)
    requires t < |s.calls| && s'.calls == s.calls[t := c']
    requires multiset(s'.settled)[x] + Pending(x)(c') + multiset(s.added)[x]
          == multiset(s.settled)[x] + Pending(x)(s.calls[t]) + multiset(s'.added)[x]
    requires multiset(s.settled)[x] + Sum(Pending(x), s.calls) == multiset(s.added)[x]
    ensures multiset(s'.settled)[x] + Sum(Pending(x), s'.calls) == multiset(s'.added)[x]
  {
    SumUpdate(Pending(x), s.calls, t, c');
  }

  lemma StepAccounted(interval: Interval, s: State, a: Action, x: nat)
    requires Enabled(interval, s, a)
    requires multiset(s.settled)[x] + Sum(Pending(x), s.calls) == multiset(s.added)[x]
    ensures var s' := Next(interval, s, a); multiset(s'.settled)[x] + Sum(Pending(x), s'.calls) == multiset(s'.added)[x]
  {
    hide Sum, Multiple;
    var s' := Next(interval, s, a);
    MovedCall(s, a.thread, s'.calls[a.thread], s', x);
  }

  lemma {:induction false} RunAccounted(interval: Interval, trace: seq<State>)
    requires Run(interval, trace)
    ensures Accounted(trace[|trace| - 1])
  {
    if |trace| == 1 {
      forall x ensures Sum(Pending(x), trace[0].calls) == 0 {
        SumZero(Pending(x), trace[0].calls);
      }
    } else {
      var s, s' := trace[|trace| - 2], trace[|trace| - 1];
      RunAccounted(interval, trace[..|trace| - 1]);
      forall x ensures multiset(s'.settled)[x] + Sum(Pending(x), s'.calls) == multiset(s'.added)[x] {
        var a :| Enabled(interval, s, a) && s' == Next(interval, s, a);
        StepAccounted(interval, s, a, x);
      }
    }
  }

  ghost predicate Quiet(s: State) {
    forall t :: 0 <= t < |s.calls| ==> s.calls[t].Idle?
  }

  lemma QuietSettled(interval: Interval, trace: seq<State>)
    requires Run(interval, trace) && Quiet(trace[|trace| - 1])
    ensures var s := trace[|trace| - 1]; multiset(s.settled) == multiset(s.added)
  {
    RunAccounted(interval, trace);
    var s := trace[|trace| - 1];
    forall x ensures multiset(s.settled)[x] == multiset(s.added)[x] {
      SumZero(Pending(x), s.calls);
    }
  }

  /**
   * Once no call is in progress, the calls have settled in some order of their totals, and the samples number
   * the longest climb in that order.
   */
  lemma QuietCount(interval: Interval, trace: seq<State>) returns (picks: seq<nat>)
    requires Run(interval, trace) && Quiet(trace[|trace| - 1])
    ensures var s := trace[|trace| - 1];
      && multiset(s.settled) == multiset(s.added)
      && Climbs(interval, s.settled, picks) && Successes(s) == |picks|
      && (forall other :: Climbs(interval, s.settled, other) ==> |other| <= |picks|)
  {
    var s := trace[|trace| - 1];
    QuietSettled(interval, trace);
    VerdictsAreGreedy(interval, trace);
    picks := TakenClimbs(interval, s.settled);
    forall other | Climbs(interval, s.settled, other) ensures |other| <= |picks| {
      TakenIsLongestClimb(interval, s.settled, other);
    }
  }

  /** In particular, once one whole interval has been observed, something has been sampled. */
  lemma QuietSamplesSomething(interval: Interval, trace: seq<State>, i: nat)
    requires Run(interval, trace) && Quiet(trace[|trace| - 1])
    requires i < |trace[|trace| - 1].added| && trace[|trace| - 1].added[i] >= interval
    ensures Successes(trace[|trace| - 1]) >= 1
  {
    var s := trace[|trace| - 1];
    var picks := QuietCount(interval, trace);
    assert s.added[i] in multiset(s.added);
    assert s.added[i] in multiset(s.settled);
    var j :| 0 <= j < |s.settled| && s.settled[j] == s.added[i];
    assert Multiple(interval, 1) == interval;
    assert Climbs(interval, s.settled, [j]);
  }

  // Interleaving can only lose samples.

  ghost predicate SizesInv(interval: Interval, s: State) {
    && Positive(s.sizes) && Total(s.sizes) == s.totalObserved && s.added == Totals(s.sizes)
    && s.totalObserved + interval <= U64_MAX
  }

  lemma {:induction false} RunSizes(interval: Interval, trace: seq<State>)
    requires Run(interval, trace)
    ensures SizesInv(interval, trace[|trace| - 1])
  {
    if |trace| > 1 {
      RunSizes(interval, trace[..|trace| - 1]);
      StepSizes(interval, trace[|trace| - 2], trace[|trace| - 1]);
    }
  }

  lemma StepSizes(interval: Interval, s: State, s': State)
    requires SizesInv(interval, s) && Step(interval, s, s')
    ensures SizesInv(interval, s')
  {
    var a :| Enabled(interval, s, a) && s' == Next(interval, s, a);
    if a.FetchAdd? {
      TotalsSnoc(s.sizes, a.size);
    }
    hide Total, Totals;
  }

  lemma TotalsSnoc(sizes: seq<U64>, size: U64)
    ensures Total(sizes + [size]) == Total(sizes) + size
    ensures Totals(sizes + [size]) == Totals(sizes) + [Total(sizes) + size]
  {
    assert (sizes + [size])[..|sizes|] == sizes;
  }

  ghost function Above(x: nat): nat -> int {
    (y: nat) => if y > x then 1 else 0
  }

  lemma {:induction false} TakenAtMost(interval: Interval, totals: seq<nat>, x: nat)
    ensures Taken(interval, totals) <= Intervals(interval, x) + Sum(Above(x), totals)
  {
    if |totals| > 0 {
      var most, last := totals[..|totals| - 1], totals[|totals| - 1];
      TakenAtMost(interval, most, x);
      SumNonNegative(Above(x), most);
      if last <= x && last >= Multiple(interval, Taken(interval, most) + 1) {
        Quotient(interval, x, Taken(interval, most) + 1);
      }
    }
  }

  lemma {:induction false} TotalsAbove(sizes: seq<U64>, j: nat)
    requires Positive(sizes) && j <= |sizes|
    ensures Sum(Above(Total(sizes[..j])), Totals(sizes)) == |sizes| - j
    ensures Total(sizes[..j]) <= Total(sizes)
  {
    if j == |sizes| {
      assert sizes[..j] == sizes;
      if j > 0 {
        AllTotalsAtMost(sizes, Total(sizes));
      }
    } else {
      var most := sizes[..|sizes| - 1];
      assert most[..j] == sizes[..j];
      TotalsAbove(most, j);
      SumSnoc(Above(Total(sizes[..j])), Totals(most), Total(sizes));
    }
  }

  lemma {:induction false} AllTotalsAtMost(sizes: seq<U64>, x: nat)
    requires Total(sizes) <= x
    ensures Sum(Above(x), Totals(sizes)) == 0
  {
    if |sizes| > 0 {
      AllTotalsAtMost(sizes[..|sizes| - 1], x);
      SumSnoc(Above(x), Totals(sizes[..|sizes| - 1]), Total(sizes));
    }
  }

  /** In no order do the same totals give more samples than in the order of their additions. */
  lemma NoOrderGains(interval: Interval, sizes: seq<U64>, order: seq<nat>)
    requires Positive(sizes) && Total(sizes) + interval <= U64_MAX && multiset(order) == multiset(Totals(sizes))
    ensures Taken(interval, order) <= Sampled(interval, sizes)
  {
    hide Taken, Sampled, Sum;
    SampledIsLowerEnvelope(interval, sizes);
    var n := |sizes|;
    var j :| 0 <= j <= n && Sampled(interval, sizes) == Intervals(interval, Total(sizes[..j])) + n - j;
    TakenAtMost(interval, order, Total(sizes[..j]));
    SumPermutation(Above(Total(sizes[..j])), order, Totals(sizes));
    TotalsAbove(sizes, j);
  }

  /** At rest, interleaved calls have never sampled more than the same calls made one after the other. */
  lemma InterleavingNeverGains(interval: Interval, trace: seq<State>)
    requires Run(interval, trace) && Quiet(trace[|trace| - 1])
    ensures var s := trace[|trace| - 1]; Successes(s) <= Sampled(interval, s.sizes)
  {
    var s := trace[|trace| - 1];
    RunSizes(interval, trace);
    QuietSettled(interval, trace);
    VerdictsAreGreedy(interval, trace);
    NoOrderGains(interval, s.sizes, s.settled);
  }

  /**
   * Exactly when interleaved calls sample as often as the same calls in turn: the order in which they settled
   * still holds a climb of that length.
   */
  lemma SequentialCountMetIff(interval: Interval, trace: seq<State>)
    requires Run(interval, trace) && Quiet(trace[|trace| - 1])
    ensures var s := trace[|trace| - 1];
      Successes(s) == Sampled(interval, s.sizes)
      <==> exists picks :: Climbs(interval, s.settled, picks) && |picks| == Sampled(interval, s.sizes)
  {
    hide Climbs, Sampled, Successes;
    var picks := QuietCount(interval, trace);
    InterleavingNeverGains(interval, trace);
  }

  /** In particular they do if they settle in the order of their additions. */
  lemma SettlingInOrderMeetsCount(interval: Interval, trace: seq<State>)
    requires Run(interval, trace) && trace[|trace| - 1].settled == trace[|trace| - 1].added
    ensures var s := trace[|trace| - 1]; Successes(s) == Sampled(interval, s.sizes)
  {
    hide Multiple, Intervals, Taken;
    VerdictsAreGreedy(interval, trace);
    RunSizes(interval, trace);
    PositiveSizesAreGreedy(interval, trace[|trace| - 1].sizes);
  }

  // Which sizes lose nothing in any order.

  ghost function AtLeast(x: nat): nat -> int {
    (y: nat) => if y >= x then 1 else 0
  }

  /** Enough of the totals have reached the last threshold of the sequential calls. */
  ghost predicate ManyLargeTotals(interval: Interval, sizes: seq<U64>) {
    var k := Sampled(interval, sizes);
    Sum(AtLeast(Multiple(interval, k)), Totals(sizes)) >= k
  }

  /** `k` totals of at least `k` intervals are enough for `k` samples, in any order. */
  lemma {:induction false} LargeTotalsAreTaken(interval: Interval, order: seq<nat>, k: nat)
    ensures Taken(interval, order) >= Min(k, Sum(AtLeast(Multiple(interval, k)), order))
  {
    if |order| > 0 {
      var most := order[..|order| - 1];
      LargeTotalsAreTaken(interval, most, k);
      var taken := Taken(interval, most);
      if taken < k {
        MultipleGrows(interval, taken + 1, k);
      }
    }
  }

  /** The unfavourable order: the totals of at least `x` first. */
  function LargeFirst(totals: seq<nat>, x: nat): seq<nat> {
    if |totals| == 0 then []
    else
      var most, last := totals[..|totals| - 1], totals[|totals| - 1];
      if last >= x then [last] + LargeFirst(most, x) else LargeFirst(most, x) + [last]
  }

  lemma {:induction false} LargeFirstIsOrder(totals: seq<nat>, x: nat)
    ensures multiset(LargeFirst(totals, x)) == multiset(totals)
  {
    if |totals| > 0 {
      var most, last := totals[..|totals| - 1], totals[|totals| - 1];
      LargeFirstIsOrder(most, x);
      assert totals == most + [last];
    }
  }

  /** A total short of `k` intervals is never the `k`-th sample. */
  lemma SmallTotalTaken(interval: Interval, order: seq<nat>, y: nat, k: nat)
    requires Taken(interval, order) < k && y < Multiple(interval, k)
    ensures Taken(interval, order + [y]) < k
  {
    hide Multiple;
    assert (order + [y])[..|order|] == order;
  }

  /** After the large ones, which are too few, nothing lifts the samples to `k`. */
  lemma {:induction false} FewLargeTotals(interval: Interval, totals: seq<nat>, before: seq<nat>, k: nat)
    requires |before| + Sum(AtLeast(Multiple(interval, k)), totals) < k
    ensures Taken(interval, before + LargeFirst(totals, Multiple(interval, k))) < k
    decreases |totals|
  {
    hide Taken, Multiple;
    var x := Multiple(interval, k);
    if |totals| == 0 {
      assert before + LargeFirst(totals, x) == before;
      TakenAtMostAll(interval, before);
    } else {
      var most, last := totals[..|totals| - 1], totals[|totals| - 1];
      if last >= x {
        FewLargeTotals(interval, most, before + [last], k);
        assert before + LargeFirst(totals, x) == before + [last] + LargeFirst(most, x);
      } else {
        FewLargeTotals(interval, most, before, k);
        SmallTotalTaken(interval, before + LargeFirst(most, x), last, k);
        assert before + LargeFirst(totals, x) == before + LargeFirst(most, x) + [last];
      }
    }
  }

  lemma {:induction false} TakenAtMostAll(interval: Interval, totals: seq<nat>)
    ensures Taken(interval, totals) <= |totals|
  {
    if |totals| > 0 {
      TakenAtMostAll(interval, totals[..|totals| - 1]);
    }
  }

  /**
   * Exactly which sizes sample as often in every order as in turn: as many of their totals as are sampled in turn
   * have reached that many intervals.
   */
  lemma EveryOrderMeetsCountIff(interval: Interval, sizes: seq<U64>)
    requires Positive(sizes) && Total(sizes) + interval <= U64_MAX
    ensures (forall order: seq<nat> :: multiset(order) == multiset(Totals(sizes)) ==>
        Taken(interval, order) == Sampled(interval, sizes))
      <==> ManyLargeTotals(interval, sizes)
  {
    hide Taken, Sampled, Sum;
    var k, totals := Sampled(interval, sizes), Totals(sizes);
    var x := Multiple(interval, k);
    if ManyLargeTotals(interval, sizes) {
      forall order: seq<nat> | multiset(order) == multiset(totals) ensures Taken(interval, order) == k {
        NoOrderGains(interval, sizes, order);
        LargeTotalsAreTaken(interval, order, k);
        SumPermutation(AtLeast(x), order, totals);
      }
    } else {
      FewLargeTotals(interval, totals, [], k);
      LargeFirstIsOrder(totals, x);
      assert [] + LargeFirst(totals, x) == LargeFirst(totals, x);
    }
  }

  // Every order happens.

  ghost predicate NoneLoaded(s: State) {
    forall t :: 0 <= t < |s.calls| ==> !s.calls[t].Loaded?
  }

  /** The first `n` of as many threads as there are sizes have added theirs, in order. */
  lemma {:induction false} AllFetched(interval: Interval, sizes: seq<U64>, n: nat) returns (trace: seq<State>)
    requires Positive(sizes) && Total(sizes) + interval <= U64_MAX && n <= |sizes|
    ensures Run(interval, trace)
    ensures var s := trace[|trace| - 1];
      && |s.calls| == |sizes| && s.sizes == sizes[..n] && s.settled == []
      && forall t :: 0 <= t < |sizes| ==> if t < n then s.calls[t].Fetched? else s.calls[t].Idle?
  {
    if n == 0 {
      trace := [State(interval, 0, seq(|sizes|, t => Idle), [], [], [], [])];
    } else {
      trace := AllFetched(interval, sizes, n - 1);
      var s := trace[|trace| - 1];
      RunSizes(interval, trace);
      TotalsAbove(sizes, n);
      assert sizes[..n] == sizes[..n - 1] + [sizes[n - 1]];
      TotalsSnoc(sizes[..n - 1], sizes[n - 1]);
      var s' := Next(interval, s, FetchAdd(n - 1, sizes[n - 1]));
      RunExtended(interval, trace, FetchAdd(n - 1, sizes[n - 1]), s');
      trace := trace + [s'];
    }
  }

  /** A call that has added its size settles, with no other in between. */
  lemma OneSettles(interval: Interval, trace: seq<State>, t: nat) returns (longer: seq<State>)
    requires Run(interval, trace)
    requires var s := trace[|trace| - 1]; NoneLoaded(s) && t < |s.calls| && s.calls[t].Fetched?
    ensures Run(interval, longer)
    ensures var s, s' := trace[|trace| - 1], longer[|longer| - 1];
      NoneLoaded(s') && s'.settled == s.settled + [s.calls[t].total] && s'.sizes == s.sizes && s'.added == s.added
  {
    var s := trace[|trace| - 1];
    var s1 := Next(interval, s, Load(t));
    RunExtended(interval, trace, Load(t), s1);
    longer := trace + [s1];
    if s1.calls[t].Loaded? {
      var s2 := Next(interval, s1, CompareExchange(t));
      RunExtended(interval, longer, CompareExchange(t), s2);
      longer := longer + [s2];
    }
  }

  lemma PendingCall(calls: seq<Call>, x: nat) returns (t: nat)
    requires Sum(Pending(x), calls) > 0
    ensures t < |calls| && (calls[t].Fetched? || calls[t].Loaded?) && calls[t].total == x
  {
    if forall i :: 0 <= i < |calls| ==> Pending(x)(calls[i]) == 0 {
      SumZero(Pending(x), calls);
    }
    t :| t < |calls| && Pending(x)(calls[t]) != 0;
  }

  /** The calls settle in any order of their totals. */
  lemma {:induction false} SettleInOrder(interval: Interval, trace: seq<State>, order: seq<nat>)
    returns (longer: seq<State>)
    requires Run(interval, trace)
    requires var s := trace[|trace| - 1]; NoneLoaded(s) && s.settled <= order && multiset(order) == multiset(s.added)
    ensures Run(interval, longer)
    ensures var s, s' := trace[|trace| - 1], longer[|longer| - 1];
      Quiet(s') && s'.settled == order && s'.sizes == s.sizes
    decreases |order| - |trace[|trace| - 1].settled|
  {
    hide Init, Step, Sum;
    var s := trace[|trace| - 1];
    var k := |s.settled|;
    RunAccounted(interval, trace);
    if k == |order| {
      longer := trace;
      assert s.settled == order;
      forall t | 0 <= t < |s.calls| ensures s.calls[t].Idle? {
        if s.calls[t].Fetched? {
          SumAtLeast(Pending(s.calls[t].total), s.calls, t);
        }
      }
    } else {
      assert order == s.settled + order[k..] && order[k] in order[k..];
      assert multiset(order) == multiset(s.settled) + multiset(order[k..]);
      var t := PendingCall(s.calls, order[k]);
      longer := OneSettles(interval, trace, t);
      longer := SettleInOrder(interval, longer, order);
    }
  }

  /** Every order of the totals is the order in which some run settles. */
  lemma EveryOrderHappens(interval: Interval, sizes: seq<U64>, order: seq<nat>) returns (trace: seq<State>)
    requires Positive(sizes) && Total(sizes) + interval <= U64_MAX && multiset(order) == multiset(Totals(sizes))
    ensures Run(interval, trace) && Quiet(trace[|trace| - 1])
    ensures trace[|trace| - 1].sizes == sizes && trace[|trace| - 1].settled == order
  {
    trace := AllFetched(interval, sizes, |sizes|);
    assert sizes[..|sizes|] == sizes;
    RunSizes(interval, trace);
    hide Init, Step, Totals;
    trace := SettleInOrder(interval, trace, order);
  }

  /** A run of calls of these sizes that has come to rest. */
  ghost predicate Rests(interval: Interval, trace: seq<State>, sizes: seq<U64>) {
    Run(interval, trace) && Quiet(trace[|trace| - 1]) && trace[|trace| - 1].sizes == sizes
  }

  /**
   * Exactly which sizes are safe from interleaving: whatever the threads do, as many are sampled as in turn, if and
   * only if as many totals as that have reached that many intervals.
   */
  lemma InterleavingLosesNothingIff(interval: Interval, sizes: seq<U64>)
    requires Positive(sizes) && Total(sizes) + interval <= U64_MAX
    ensures (forall trace :: Rests(interval, trace, sizes) ==>
        Successes(trace[|trace| - 1]) == Sampled(interval, sizes))
      <==> ManyLargeTotals(interval, sizes)
  {
    hide Taken, Sampled, Sum, Init, Step, Successes, ManyLargeTotals, GreedyVerdicts, Totals;
    EveryOrderMeetsCountIff(interval, sizes);
    if ManyLargeTotals(interval, sizes) {
      forall trace | Rests(interval, trace, sizes)
        ensures Successes(trace[|trace| - 1]) == Sampled(interval, sizes)
      {
        QuietSettled(interval, trace);
        RunSizes(interval, trace);
        VerdictsAreGreedy(interval, trace);
      }
    } else {
      var order: seq<nat> :| multiset(order) == multiset(Totals(sizes))
        && Taken(interval, order) != Sampled(interval, sizes);
      var trace := EveryOrderHappens(interval, sizes, order);
      VerdictsAreGreedy(interval, trace);
      assert Rests(interval, trace, sizes);
    }
  }

  /** Two calls have added their sizes, and the second has loaded the threshold. */
  lemma LaterTotalFirst() returns (trace: seq<State>)
    ensures Run(10, trace)
    ensures trace[|trace| - 1] == State(10, 20, [Fetched(10, 0), Loaded(20, 10, 0)], [10, 10], [10, 20], [], [])
  {
    var s0 := State(10, 0, [Idle, Idle], [], [], [], []);
    var s1 := State(10, 10, [Fetched(10, 0), Idle], [10], [10], [], []);
    var s2 := State(10, 20, [Fetched(10, 0), Fetched(20, 0)], [10, 10], [10, 20], [], []);
    var s3 := State(10, 20, [Fetched(10, 0), Loaded(20, 10, 0)], [10, 10], [10, 20], [], []);
    trace := [s0];
    RunExtended(10, trace, FetchAdd(0, 10), s1);
    trace := trace + [s1];
    RunExtended(10, trace, FetchAdd(1, 10), s2);
    trace := trace + [s2];
    RunExtended(10, trace, Load(1), s3);
    trace := trace + [s3];
  }

  /**
   * The sequential count is not guaranteed: two calls of size 10 with interval 10 take one sample if the later
   * total runs its exchange first, where two calls in turn take two.
   */
  lemma InterleavingLosesASample() returns (trace: seq<State>)
    ensures Run(10, trace)
    ensures var s := trace[|trace| - 1];
      Quiet(s) && s.sizes == [10, 10] && s.verdicts == [true, false] && Sampled(10, s.sizes) == 2
  {
    var s4 := State(20, 20, [Fetched(10, 0), Idle], [10, 10], [10, 20], [20], [true]);
    var s5 := State(20, 20, [Idle, Idle], [10, 10], [10, 20], [20, 10], [true, false]);
    trace := LaterTotalFirst();
    RunExtended(10, trace, CompareExchange(1), s4);
    trace := trace + [s4];
    RunExtended(10, trace, Load(0), s5);
    trace := trace + [s5];
    TwoInTurn();
  }

  lemma TwoInTurn()
    ensures Sampled(10, [10, 10]) == 2
  {
    assert [10, 10][..1] == [10] && [10][..0] == [];
    assert OfferedAll(10, [10]) == Sampler(20, 10);
    assert Sampled(10, [10]) == 1;
  }
}
