/** The byte sampler used by one thread at a time (`src/state.rs`, `SamplingBytes`). */
module Sampling {
  import opened Words

  type Interval = x: int | 1 <= x <= U64_MAX witness 1

  /** The abstract value of a sampler: its two atomics. */
  datatype Sampler = Sampler(nextSample: U64, totalObserved: U64)

  function NewSampler(interval: Interval): Sampler {
    Sampler(interval, 0)
  }

  /** One call made alone: the new state and the verdict. */
  function Offered(interval: Interval, s: Sampler, size: U64): (Sampler, bool) {
    if size == 0 then (s, false)
    else
      var total := SaturatingAdd(s.totalObserved, size);
      var observed := WrappingAdd(s.totalObserved, size);
      if total < s.nextSample then (Sampler(s.nextSample, observed), false)
      else (Sampler(SaturatingAdd(s.nextSample, interval), observed), true)
  }

  class SamplingBytes {
    const interval: Interval
    var nextSample: U64
    var totalObserved: U64

    ghost function State(): Sampler
      reads this
    {
      Sampler(nextSample, totalObserved)
    }

    constructor (interval: Interval)
      ensures this.interval == interval && State() == NewSampler(interval)
    {
      this.interval := interval;
      nextSample := interval;
      totalObserved := 0;
    }

    /** `compare_exchange` on `next_sample`. */
    method CompareExchange(expected: U64, replacement: U64) returns (ok: bool)
      modifies this`nextSample
      ensures ok == (old(nextSample) == expected)
      ensures nextSample == if ok then replacement else old(nextSample)
    {
      ok := nextSample == expected;
      if ok {
        nextSample := replacement;
      }
    }

    method ShouldSample(size: U64) returns (sampled: bool)
      modifies this
      ensures (State(), sampled) == Offered(interval, old(State()), size)
    {
      if size == 0 {
        return false;
      }
      var previous := totalObserved;
      totalObserved := WrappingAdd(totalObserved, size);
      var total := SaturatingAdd(previous, size);
      sampled := false;
      var settled := false;
      while !settled
        invariant totalObserved == WrappingAdd(old(totalObserved), size)
        invariant !settled ==> nextSample == old(nextSample) && !sampled
        invariant settled ==> (State(), sampled) == Offered(interval, old(State()), size)
        decreases !settled
      {
        var next := nextSample;
        if total < next {
          settled := true;
        } else {
          var newNext := SaturatingAdd(next, Max(interval, 1));
          settled := CompareExchange(next, newNext);
          sampled := settled;
        }
      }
    }
  }

  /** The running total after each call. */
  ghost function Total(sizes: seq<U64>): nat {
    if |sizes| == 0 then 0 else Total(sizes[..|sizes| - 1]) + sizes[|sizes| - 1]
  }

  function OfferedAll(interval: Interval, sizes: seq<U64>): Sampler {
    if |sizes| == 0 then NewSampler(interval)
    else Offered(interval, OfferedAll(interval, sizes[..|sizes| - 1]), sizes[|sizes| - 1]).0
  }

  /** How many of the calls sampled. */
  function Sampled(interval: Interval, sizes: seq<U64>): nat {
    if |sizes| == 0 then 0
    else
      var most := sizes[..|sizes| - 1];
      Sampled(interval, most) + if Offered(interval, OfferedAll(interval, most), sizes[|sizes| - 1]).1 then 1 else 0
  }

  /** The product `interval * k`, as a running sum. */
  function Multiple(interval: Interval, k: nat): nat {
    if k == 0 then 0 else Multiple(interval, k - 1) + interval
  }

  lemma {:induction false} MultipleIsProduct(interval: Interval, k: nat)
    ensures Multiple(interval, k) == interval * k
  {
    if k > 0 {
      MultipleIsProduct(interval, k - 1);
      assert interval * k == interval * (k - 1) + interval;
    }
  }

  lemma MultipleGrows(interval: Interval, a: nat, b: nat)
    requires a <= b
    ensures Multiple(interval, a) <= Multiple(interval, b)
    decreases b
  {
    if a < b {
      MultipleGrows(interval, a, b - 1);
    }
  }

  /**
   * The greedy rule behind the verdicts: an offer at total `x` is taken when `x` has reached the next multiple
   * of the interval, counting from the number taken so far.
   */
  function Taken(interval: Interval, totals: seq<nat>): nat {
    if |totals| == 0 then 0
    else
      var k := Taken(interval, totals[..|totals| - 1]);
      if totals[|totals| - 1] >= Multiple(interval, k + 1) then k + 1 else k
  }

  ghost function Totals(sizes: seq<U64>): (r: seq<nat>)
    ensures |r| == |sizes|
  {
    if |sizes| == 0 then [] else Totals(sizes[..|sizes| - 1]) + [Total(sizes)]
  }

  ghost predicate Positive(sizes: seq<U64>) {
    forall i :: 0 <= i < |sizes| ==> sizes[i] > 0
  }

  /** The quotient `x / interval`, by repeated subtraction. */
  function Intervals(interval: Interval, x: nat): nat {
    if x < interval then 0 else 1 + Intervals(interval, x - interval)
  }

  lemma {:induction false} IntervalsOfSum(interval: Interval, q: nat, r: nat)
    requires r < interval
    ensures Intervals(interval, Multiple(interval, q) + r) == q
  {
    if q > 0 {
      IntervalsOfSum(interval, q - 1, r);
    }
  }

  lemma DivMod(interval: Interval, x: nat) returns (q: nat, r: nat)
    ensures x == interval * q + r && r < interval && q == x / interval
  {
    q, r := x / interval, x % interval;
  }

  lemma IntervalsIsQuotient(interval: Interval, x: nat)
    ensures Intervals(interval, x) == x / interval
  {
    hide Intervals, Multiple;
    var q, r := DivMod(interval, x);
    IntervalsOfSum(interval, q, r);
    MultipleIsProduct(interval, q);
  }

  lemma {:induction false} Quotient(interval: Interval, x: nat, k: nat)
    ensures k <= Intervals(interval, x) <==> Multiple(interval, k) <= x
  {
    if k > 0 && x >= interval {
      Quotient(interval, x - interval, k - 1);
    } else if k > 0 {
      MultipleGrows(interval, 1, k);
      assert Multiple(interval, 1) == interval;
    }
  }

  /** When totals grow, an offer is taken exactly if the total has room for one more interval. */
  lemma TakenStep(interval: Interval, k: nat, before: nat, x: nat)
    requires k <= Intervals(interval, before) && before <= x
    ensures (if x >= Multiple(interval, k + 1) then k + 1 else k) == Min(k + 1, Intervals(interval, x))
  {
    Quotient(interval, x, k + 1);
    Quotient(interval, x, k);
    Quotient(interval, before, k);
  }

  /** One call while nothing overflows. */
  lemma OfferedStep(interval: Interval, s: Sampler, k: nat, size: U64)
    requires size > 0 && s.totalObserved + size + interval <= U64_MAX
    requires s.nextSample == Multiple(interval, k + 1) && k <= Intervals(interval, s.totalObserved)
    ensures var (s', sampled) := Offered(interval, s, size);
      && s'.totalObserved == s.totalObserved + size
      && (sampled <==> s.totalObserved + size >= Multiple(interval, k + 1))
      && s'.nextSample == (if sampled then Multiple(interval, k + 2) else Multiple(interval, k + 1))
      && (if sampled then k + 1 else k) == Min(k + 1, Intervals(interval, s.totalObserved + size))
  {
    TakenStep(interval, k, s.totalObserved, s.totalObserved + size);
  }

  lemma NothingOffered(interval: Interval)
    ensures var s := OfferedAll(interval, []);
      && s.totalObserved == Total([]) == 0 && s.nextSample == Multiple(interval, 1)
      && Sampled(interval, []) == Taken(interval, Totals([])) == 0
  {
    assert Multiple(interval, 1) == interval;
  }

  lemma OneMoreOffered(interval: Interval, sizes: seq<U64>)
    requires |sizes| > 0
    ensures var most, last := sizes[..|sizes| - 1], sizes[|sizes| - 1];
      var (s, sampled) := Offered(interval, OfferedAll(interval, most), last);
      && OfferedAll(interval, sizes) == s && Total(sizes) == Total(most) + last
      && Sampled(interval, sizes) == Sampled(interval, most) + if sampled then 1 else 0
  {
    hide Offered;
  }

  lemma TakenTotals(interval: Interval, sizes: seq<U64>)
    requires |sizes| > 0
    ensures var k := Taken(interval, Totals(sizes[..|sizes| - 1]));
      Taken(interval, Totals(sizes)) == if Total(sizes) >= Multiple(interval, k + 1) then k + 1 else k
  {
    hide Total, Multiple;
    assert Totals(sizes)[..|sizes| - 1] == Totals(sizes[..|sizes| - 1]);
  }

  /** While nothing overflows the sampler follows the greedy rule, and its threshold counts the samples. */
  lemma {:induction false} PositiveSizesAreGreedy(interval: Interval, sizes: seq<U64>)
    requires Positive(sizes) && Total(sizes) + interval <= U64_MAX
    ensures var s, k := OfferedAll(interval, sizes), Sampled(interval, sizes);
      && s.totalObserved == Total(sizes)
      && s.nextSample == Multiple(interval, k + 1)
      && k == Taken(interval, Totals(sizes))
      && k <= Intervals(interval, Total(sizes))
    ensures |sizes| > 0 ==> (Sampled(interval, sizes)
      == Min(Sampled(interval, sizes[..|sizes| - 1]) + 1, Intervals(interval, Total(sizes))))
  {
    hide Multiple, Intervals, Offered, OfferedAll, Sampled, Total, Totals, Taken;
    if |sizes| == 0 {
      NothingOffered(interval);
    } else {
      var most, last := sizes[..|sizes| - 1], sizes[|sizes| - 1];
      OneMoreOffered(interval, sizes);
      PositiveSizesAreGreedy(interval, most);
      OfferedStep(interval, OfferedAll(interval, most), Sampled(interval, most), last);
      TakenTotals(interval, sizes);
    }
  }

  /** The calls that count: a size of 0 is turned down before anything is added. */
  function Positives(sizes: seq<U64>): (r: seq<U64>)
    ensures Positive(r)
  {
    if |sizes| == 0 then []
    else
      var n := |sizes| - 1;
      Positives(sizes[..n]) + if sizes[n] > 0 then [sizes[n]] else []
  }

  lemma {:induction false} ZeroSizesChangeNothing(interval: Interval, sizes: seq<U64>)
    ensures OfferedAll(interval, sizes) == OfferedAll(interval, Positives(sizes))
    ensures Sampled(interval, sizes) == Sampled(interval, Positives(sizes))
    ensures Total(sizes) == Total(Positives(sizes))
  {
    if |sizes| > 0 {
      var n := |sizes| - 1;
      ZeroSizesChangeNothing(interval, sizes[..n]);
      if sizes[n] > 0 {
        assert Positives(sizes)[..|Positives(sizes)| - 1] == Positives(sizes[..n]);
      } else {
        assert Positives(sizes) == Positives(sizes[..n]);
      }
    }
  }

  /** For all sizes: the threshold counts the samples, and the verdicts are greedy on the positive calls' totals. */
  lemma SamplerIsGreedy(interval: Interval, sizes: seq<U64>)
    requires Total(sizes) + interval <= U64_MAX
    ensures var s, k := OfferedAll(interval, sizes), Sampled(interval, sizes);
      && s.totalObserved == Total(sizes)
      && s.nextSample == Multiple(interval, k + 1)
      && k == Taken(interval, Totals(Positives(sizes)))
      && k <= Intervals(interval, Total(sizes))
  {
    hide Multiple, Intervals, Offered, Taken;
    ZeroSizesChangeNothing(interval, sizes);
    PositiveSizesAreGreedy(interval, Positives(sizes));
  }

  // Without any bound on the sizes.

  /** The bytes observed have wrapped around, and the threshold counts `k` samples up to its saturation. */
  ghost predicate Counting(interval: Interval, s: Sampler, total: nat, k: nat) {
    s.totalObserved == total % (U64_MAX + 1) && s.nextSample == Min(U64_MAX, Multiple(interval, k + 1))
  }

  /** What the call observes, cut off at the largest `u64`, has reached the threshold. */
  ghost predicate Reached(interval: Interval, total: nat, k: nat, size: U64) {
    size > 0 && Min(U64_MAX, total % (U64_MAX + 1) + size) >= Min(U64_MAX, Multiple(interval, k + 1))
  }

  lemma ObservedStep(total: nat, size: nat)
    ensures (total % (U64_MAX + 1) + size) % (U64_MAX + 1) == (total + size) % (U64_MAX + 1)
  {
    var m := U64_MAX + 1;
    assert total + size == total % m + size + m * (total / m);
  }

  lemma OfferedCounts(interval: Interval, s: Sampler, total: nat, k: nat, size: U64)
    requires Counting(interval, s, total, k)
    ensures var (s', sampled) := Offered(interval, s, size);
      && (sampled <==> Reached(interval, total, k, size))
      && Counting(interval, s', total + size, if sampled then k + 1 else k)
  {
    ObservedStep(total, size);
    assert Multiple(interval, k + 2) == Multiple(interval, k + 1) + interval;
  }

  /**
   * For calls of any sizes: the bytes observed wrap around, the threshold is the interval times one more than the
   * samples until it saturates, and the next call is sampled exactly if it reaches it.
   */
  lemma {:induction false} SamplerForAllSizes(interval: Interval, sizes: seq<U64>, size: U64)
    ensures var s, k := OfferedAll(interval, sizes), Sampled(interval, sizes);
      && Counting(interval, s, Total(sizes), k)
      && Sampled(interval, sizes + [size]) == if Reached(interval, Total(sizes), k, size) then k + 1 else k
  {
    hide OfferedAll, Sampled, Total, Counting, Reached, Offered;
    assert (sizes + [size])[..|sizes|] == sizes;
    OneMoreOffered(interval, sizes + [size]);
    SamplerCounts(interval, sizes);
    OfferedCounts(interval, OfferedAll(interval, sizes), Total(sizes), Sampled(interval, sizes), size);
  }

  lemma {:induction false} SamplerCounts(interval: Interval, sizes: seq<U64>)
    ensures Counting(interval, OfferedAll(interval, sizes), Total(sizes), Sampled(interval, sizes))
  {
    hide OfferedAll, Sampled, Total, Offered;
    if |sizes| == 0 {
      NothingOffered(interval);
      assert Multiple(interval, 1) == interval;
    } else {
      var most := sizes[..|sizes| - 1];
      SamplerCounts(interval, most);
      OneMoreOffered(interval, sizes);
      OfferedCounts(
        interval, OfferedAll(interval, most), Total(most), Sampled(interval, most), sizes[|sizes| - 1]);
    }
  }

  /**
   * The closed form: after n calls with positive sizes and running totals T_0 = 0, T_1, .., T_n, the number
   * sampled is the minimum over j in 0..n of T_j / interval + n - j.
   */
  ghost predicate IsLowerEnvelope(interval: Interval, sizes: seq<U64>, k: int) {
    && (forall j :: 0 <= j <= |sizes| ==> k <= Intervals(interval, Total(sizes[..j])) + |sizes| - j)
    && (exists j :: 0 <= j <= |sizes| && k == Intervals(interval, Total(sizes[..j])) + |sizes| - j)
  }

  lemma {:induction false} SampledIsLowerEnvelope(interval: Interval, sizes: seq<U64>)
    requires Positive(sizes) && Total(sizes) + interval <= U64_MAX
    ensures IsLowerEnvelope(interval, sizes, Sampled(interval, sizes))
  {
    assert sizes[..|sizes|] == sizes;
    PositiveSizesAreGreedy(interval, sizes);
    if |sizes| == 0 {
      assert Sampled(interval, sizes) == Intervals(interval, Total(sizes[..0])) + |sizes| - 0;
    } else {
      hide Total, Totals, Sampled, OfferedAll, Taken, Multiple, Intervals, IsLowerEnvelope;
      SampledIsLowerEnvelope(interval, sizes[..|sizes| - 1]);
      EnvelopeStep(interval, sizes, Sampled(interval, sizes[..|sizes| - 1]));
    }
  }

  lemma EnvelopeStep(interval: Interval, sizes: seq<U64>, before: nat)
    requires |sizes| > 0 && IsLowerEnvelope(interval, sizes[..|sizes| - 1], before)
    ensures IsLowerEnvelope(interval, sizes, Min(before + 1, Intervals(interval, Total(sizes))))
  {
    var n, most := |sizes|, sizes[..|sizes| - 1];
    var k := Min(before + 1, Intervals(interval, Total(sizes)));
    assert sizes[..n] == sizes;
    forall j | 0 <= j <= n ensures k <= Intervals(interval, Total(sizes[..j])) + n - j {
      if j < n {
        assert most[..j] == sizes[..j];
        assert before <= Intervals(interval, Total(most[..j])) + |most| - j;
      }
    }
    if k == Intervals(interval, Total(sizes)) {
      assert k == Intervals(interval, Total(sizes[..n])) + n - n;
    } else {
      var j :| 0 <= j <= |most| && before == Intervals(interval, Total(most[..j])) + |most| - j;
      assert most[..j] == sizes[..j];
      assert k == Intervals(interval, Total(sizes[..j])) + n - j;
    }
  }

  lemma {:induction false} SmallSizesMissNothing(interval: Interval, sizes: seq<U64>)
    requires Positive(sizes) && Total(sizes) + interval <= U64_MAX
    requires forall i :: 0 <= i < |sizes| ==> sizes[i] <= interval
    ensures Sampled(interval, sizes) == Intervals(interval, Total(sizes))
  {
    if |sizes| > 0 {
      var most, last := sizes[..|sizes| - 1], sizes[|sizes| - 1];
      SmallSizesMissNothing(interval, most);
      PositiveSizesAreGreedy(interval, sizes);
      QuotientGrowsByOne(interval, Total(most), last);
    }
  }

  lemma {:induction false} PositivesStaySmall(interval: Interval, sizes: seq<U64>)
    requires forall i :: 0 <= i < |sizes| ==> sizes[i] <= interval
    ensures forall i :: 0 <= i < |Positives(sizes)| ==> Positives(sizes)[i] <= interval
  {
    if |sizes| > 0 {
      PositivesStaySmall(interval, sizes[..|sizes| - 1]);
    }
  }

  /** With every size at most the interval, exactly one sample per interval of bytes. */
  lemma OneSamplePerInterval(interval: Interval, sizes: seq<U64>)
    requires Total(sizes) + interval <= U64_MAX
    requires forall i :: 0 <= i < |sizes| ==> sizes[i] <= interval
    ensures Sampled(interval, sizes) == Total(sizes) / interval
  {
    hide Total, Sampled, Positives;
    ZeroSizesChangeNothing(interval, sizes);
    PositivesStaySmall(interval, sizes);
    SmallSizesMissNothing(interval, Positives(sizes));
    IntervalsIsQuotient(interval, Total(sizes));
  }

  lemma {:induction false} QuotientGrowsByOne(interval: Interval, x: nat, d: nat)
    requires d <= interval
    ensures Intervals(interval, x + d) <= Intervals(interval, x) + 1
  {
    if x >= interval {
      QuotientGrowsByOne(interval, x - interval, d);
    }
  }

  /**
   * What the greedy rule achieves on totals in any order (as interleaved calls present them): the longest
   * series of offers whose m-th member has reached m intervals.
   */
  ghost predicate Climbs(interval: Interval, totals: seq<nat>, picks: seq<nat>) {
    && (forall m :: 0 <= m < |picks| ==> picks[m] < |totals| && totals[picks[m]] >= Multiple(interval, m + 1))
    && (forall m :: 0 < m < |picks| ==> picks[m - 1] < picks[m])
  }

  lemma ClimbGoesOn(interval: Interval, totals: seq<nat>, picks: seq<nat>)
    requires |totals| > 0 && Climbs(interval, totals[..|totals| - 1], picks)
    ensures Climbs(interval, totals, picks)
    ensures totals[|totals| - 1] >= Multiple(interval, |picks| + 1) ==> Climbs(interval, totals, picks + [|totals| - 1])
  {
    hide Multiple;
    var most := totals[..|totals| - 1];
    assert forall m :: 0 <= m < |picks| ==> picks[m] < |most| && totals[picks[m]] == most[picks[m]];
  }

  lemma {:induction false} TakenClimbs(interval: Interval, totals: seq<nat>) returns (picks: seq<nat>)
    ensures Climbs(interval, totals, picks) && |picks| == Taken(interval, totals)
  {
    picks := [];
    if |totals| > 0 {
      hide Multiple, Climbs;
      picks := TakenClimbs(interval, totals[..|totals| - 1]);
      ClimbGoesOn(interval, totals, picks);
      if totals[|totals| - 1] >= Multiple(interval, |picks| + 1) {
        picks := picks + [|totals| - 1];
      }
    }
  }

  lemma {:induction false} TakenIsLongestClimb(interval: Interval, totals: seq<nat>, picks: seq<nat>)
    requires Climbs(interval, totals, picks)
    ensures |picks| <= Taken(interval, totals)
  {
    hide Multiple;
    if |picks| > 0 {
      assert picks[0] < |totals|;
      var n := |totals| - 1;
      var most, fewer := totals[..n], picks[..|picks| - 1];
      var last := picks[|picks| - 1];
      ClimbsIncrease(interval, totals, picks);
      assert Climbs(interval, most, fewer);
      TakenIsLongestClimb(interval, most, fewer);
      if last < n {
        assert Climbs(interval, most, picks);
        TakenIsLongestClimb(interval, most, picks);
      } else if Taken(interval, most) == |fewer| {
        assert totals[n] >= Multiple(interval, |fewer| + 1);
      }
    }
  }

  lemma {:induction false} ClimbsIncrease(interval: Interval, totals: seq<nat>, picks: seq<nat>)
    requires Climbs(interval, totals, picks) && |picks| > 0
    ensures forall m :: 0 <= m < |picks| - 1 ==> picks[m] < picks[|picks| - 1]
  {
    if |picks| > 1 {
      var fewer := picks[..|picks| - 1];
      ClimbsIncrease(interval, totals, fewer);
      assert forall m :: 0 <= m < |fewer| ==> fewer[m] == picks[m];
      assert picks[|picks| - 2] < picks[|picks| - 1];
    }
  }
}
