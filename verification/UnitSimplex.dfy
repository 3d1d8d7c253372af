/** The worker's market model in backend/scripts/devraya_worker.py: probabilities that drift, are
    renormalised and are then rounded so that they add up to one exactly; and its failure backoff.
    Rounded probabilities are integers at `unit` to one, `unit` being a power of ten. */
module UnitSimplex {
  import opened Prelude

  function SumInt(a: seq<int>): int {
    if a == [] then 0 else SumInt(a[..|a| - 1]) + a[|a| - 1]
  }

  function Normalize(p: seq<real>): (q: seq<real>)
    requires Sum(p) != 0.0
    ensures |q| == |p|
  {
    var total := Sum(p);
    seq(|p|, i requires 0 <= i < |p| => Share(p[i], total))
  }

  /** `p` counted in units. */
  function Units(p: real, unit: int): (u: real)
    ensures p >= 0.0 && unit > 0 ==> u >= 0.0
  {
    p * unit as real
  }

  function Plain(p: seq<real>, unit: int): (r: seq<int>)
    ensures |r| == |p|
  {
    seq(|p|, i requires 0 <= i < |p| => RoundHalfEven(Units(p[i], unit)))
  }

  /** `idx` holds the greatest entry, and no earlier one does. */
  ghost predicate FirstMaximum(a: seq<int>, idx: nat) {
    && idx < |a|
    && (forall i :: 0 <= i < |a| ==> a[i] <= a[idx])
    && (forall i :: 0 <= i < idx ==> a[i] < a[idx])
  }

  method ArgMax(a: seq<int>) returns (idx: nat)
    requires a != []
    ensures FirstMaximum(a, idx)
  {
    idx := 0;
    for i := 1 to |a|
      invariant idx < i
      invariant forall j :: 0 <= j < i ==> a[j] <= a[idx]
      invariant forall j :: 0 <= j < idx ==> a[j] < a[idx]
    {
      if a[i] > a[idx] {
        idx := i;
      }
    }
  }

  /** The plain rounding is to the nearest unit. */
  lemma PlainIsNearest(probs: seq<real>, unit: int)
    ensures forall i :: 0 <= i < |probs| ==> IsNearest(Plain(probs, unit)[i], probs[i] * unit as real)
  {
    forall i | 0 <= i < |probs| ensures IsNearest(Plain(probs, unit)[i], probs[i] * unit as real) {
      RoundHalfEvenIff(Units(probs[i], unit), Plain(probs, unit)[i]);
    }
  }

  lemma UnitsRounded(probs: seq<real>, unit: int)
    ensures forall i :: 0 <= i < |probs| ==> IsNearest(Plain(probs, unit)[i], Units(probs[i], unit))
  {
    PlainIsNearest(probs, unit);
  }

  /** The plain rounding, corrected at its first maximal entry so that the sum is exactly one. */
  method RoundToUnitSimplex(probs: seq<real>, unit: int) returns (rounded: seq<int>)
    requires probs != [] && unit > 0
    ensures |rounded| == |probs| && SumInt(rounded) == unit
    ensures exists idx :: FirstMaximum(Plain(probs, unit), idx) && forall i :: 0 <= i < |probs| && i != idx ==> rounded[i] == Plain(probs, unit)[i]
  {
    rounded := Plain(probs, unit);
    var residual := unit - SumInt(rounded);
    var idx := ArgMax(rounded);
    if residual != 0 {
      SumUpdate(rounded, idx, rounded[idx] + residual);
      rounded := rounded[idx := rounded[idx] + residual];
    }
  }

  lemma {:induction false} SumUpdate(a: seq<int>, idx: nat, x: int)
    requires idx < |a|
    ensures SumInt(a[idx := x]) == SumInt(a) - a[idx] + x
  {
    var n := |a| - 1;
    if idx == n {
      assert a[idx := x][..n] == a[..n];
    } else {
      SumUpdate(a[..n], idx, x);
      assert a[idx := x][..n] == a[..n][idx := x];
    }
  }

  /** A result of the rounding, as the method above promises it. */
  ghost predicate Corrected(probs: seq<real>, unit: int, rounded: seq<int>, idx: nat) {
    && |rounded| == |probs| && SumInt(rounded) == unit
    && FirstMaximum(Plain(probs, unit), idx)
    && forall i :: 0 <= i < |probs| && i != idx ==> rounded[i] == Plain(probs, unit)[i]
  }

  lemma UnitsAdd(p: real, q: real, unit: int)
    ensures Units(p, unit) + Units(q, unit) == Units(p + q, unit)
  {
  }

  lemma {:induction false} PlainSumError(p: seq<real>, unit: int)
    ensures -(|p| as real) <= 2.0 * (SumInt(Plain(p, unit)) as real - Units(Sum(p), unit)) <= |p| as real
  {
    if p != [] {
      var n := |p| - 1;
      PlainSumError(p[..n], unit);
      var plain := Plain(p, unit);
      assert forall i :: 0 <= i < n ==> plain[..n][i] == Plain(p[..n], unit)[i];
      assert plain[..n] == Plain(p[..n], unit);
      UnitsAdd(Sum(p[..n]), p[n], unit);
    }
  }

  lemma {:induction false} SumAtMost(a: seq<int>, top: int)
    requires forall i :: 0 <= i < |a| ==> a[i] <= top
    ensures SumInt(a) <= |a| * top
  {
    if a != [] {
      SumAtMost(a[..|a| - 1], top);
      assert |a| * top == (|a| - 1) * top + top;
    }
  }

  /** When the probabilities add up to one, the corrected entry moves by at most half a unit per
      entry, and no entry is negative as long as `n * (n - 1)` is at most twice the resolution. */
  lemma CorrectionIsSmall(probs: seq<real>, unit: int, rounded: seq<int>, idx: nat)
    requires unit > 0 && Sum(probs) == 1.0 && forall i :: 0 <= i < |probs| ==> probs[i] >= 0.0
    requires Corrected(probs, unit, rounded, idx)
    ensures -|probs| <= 2 * (rounded[idx] - Plain(probs, unit)[idx]) <= |probs|
    ensures |probs| * (|probs| - 1) <= 2 * unit ==> forall i :: 0 <= i < |probs| ==> rounded[i] >= 0
  {
    var plain, n := Plain(probs, unit), |probs|;
    var moved := rounded[idx] - plain[idx];
    assert rounded == plain[idx := rounded[idx]];
    SumUpdate(plain, idx, rounded[idx]);
    PlainSumError(probs, unit);
    assert Units(1.0, unit) == unit as real;
    assert unit == SumInt(plain) + moved;
    SumAtMost(plain, plain[idx]);
    if n * (n - 1) <= 2 * unit {
      TopStaysPositive(n, plain[idx], moved, unit);
      forall i | 0 <= i < n ensures rounded[i] >= 0 {
        assert Units(probs[i], unit) >= 0.0;
      }
    }
  }

  lemma NonNegativeProduct(k: int, x: int)
    requires k >= 0 && x >= 0
    ensures k * x >= 0
  {
  }

  lemma Distribute(k: int, x: int, y: int)
    ensures k * (x + y) == k * x + k * y
  {
  }

  lemma TopStaysPositive(n: int, top: int, moved: int, unit: int)
    requires n > 0 && unit - moved <= n * top && -n <= 2 * moved && n * (n - 1) <= 2 * unit
    ensures top + moved >= 0
  {
    var k := n - 1;
    NonNegativeProduct(k, 2 * moved + n);
    Distribute(k, 2 * moved, n);
    Distribute(n, top, moved);
    assert k * (2 * moved) == 2 * (k * moved) && n * moved == k * moved + moved;
    assert n * (n - 1) == k * n;
    assert 2 * (n * (top + moved)) >= 0;
    SignOfFactor(n, top + moved);
  }

  lemma SignOfFactor(n: int, x: int)
    requires n > 0 && n * x >= 0
    ensures x >= 0
  {
  }

  // ----- The drifting market -----

  const PROB_FLOOR := 0.01
  const MEAN_REVERSION := 0.01
  const UNIT := 10000

  ghost predicate OnSimplex(p: seq<real>) {
    Sum(p) == 1.0 && Positive(p)
  }

  function Drifted(p: real, anchor: real, noise: real): real {
    Max(PROB_FLOOR, p + MEAN_REVERSION * (anchor - p) + noise)
  }

  function Share(x: real, total: real): (y: real)
    requires total != 0.0
    ensures x > 0.0 && total > 0.0 ==> y > 0.0
  {
    x / total
  }

  lemma SharesOfSum(x: real, y: real, total: real)
    requires total > 0.0
    ensures Share(x, total) + Share(y, total) == Share(x + y, total)
  {
  }

  lemma {:induction false} SumOfShares(p: seq<real>, q: seq<real>, total: real)
    requires |p| == |q| && total > 0.0 && forall i :: 0 <= i < |p| ==> q[i] == Share(p[i], total)
    ensures Sum(q) == Share(Sum(p), total)
  {
    if p != [] {
      var n := |p| - 1;
      SumOfShares(p[..n], q[..n], total);
      SharesOfSum(Sum(p[..n]), p[n], total);
    } else {
      assert Share(0.0, total) == 0.0;
    }
  }

  lemma ShareTimesTotal(x: real, total: real)
    requires total > 0.0
    ensures Share(x, total) * total == x
  {
  }

  /** Normalised weights keep their proportions. */
  lemma NormalizeKeepsProportions(p: seq<real>, i: nat)
    requires p != [] && Positive(p) && i < |p| && Sum(p) > 0.0
    ensures Normalize(p)[i] * Sum(p) == p[i]
  {
    hide Share, Sum;
    ShareTimesTotal(p[i], Sum(p));
    assert Normalize(p)[i] == Share(p[i], Sum(p));
  }

  /** Normalised weights add up to one. */
  lemma NormalizeOnSimplex(p: seq<real>)
    requires p != [] && Positive(p)
    ensures Sum(p) > 0.0 && OnSimplex(Normalize(p))
  {
    SumPositive(p);
    SumOfShares(p, Normalize(p), Sum(p));
    ShareOfAll(Sum(p));
  }

  lemma ShareOfAll(x: real)
    requires x > 0.0
    ensures Share(x, x) == 1.0
  {
    var y := Share(x, x);
    assert (y - 1.0) * x == 0.0;
  }

  /** Each probability pulled towards its anchor, shaken, and kept off zero. */
  function DriftAll(probs: seq<real>, anchors: seq<real>, noise: seq<real>): (drifted: seq<real>)
    requires |probs| == |anchors| == |noise|
    ensures |drifted| == |probs| && forall i :: 0 <= i < |drifted| ==> drifted[i] >= PROB_FLOOR
    ensures drifted != [] ==> Sum(drifted) > 0.0
  {
    var drifted := seq(|probs|, i requires 0 <= i < |probs| => Drifted(probs[i], anchors[i], noise[i]));
    SumPositive(drifted);
    drifted
  }

  /** Without noise a probability above the floor closes a hundredth of the distance to its anchor; noise
      shifts it, and the floor of one in a hundred holds. */
  lemma DriftPulls(p: real, anchor: real, noise: real)
    requires p >= 0.01 && anchor >= 0.01
    ensures Drifted(p, anchor, 0.0) - anchor == 0.99 * (p - anchor)
    ensures Drifted(p, anchor, noise) == Max(0.01, Drifted(p, anchor, 0.0) + noise)
  {
  }

  class Market {
    const prior: seq<real>
    var probs: seq<real>

    ghost predicate Valid()
      reads this
    {
      |prior| == 3 && |probs| == 3 && OnSimplex(prior) && OnSimplex(probs)
    }

    constructor (weights: seq<real>)
      requires |weights| == 3 && forall i :: 0 <= i < 3 ==> weights[i] > 0.0
      ensures Valid() && probs == prior && Sum(weights) > 0.0 && prior == Normalize(weights)
    {
      NormalizeOnSimplex(weights);
      prior := Normalize(weights);
      probs := Normalize(weights);
    }

    /** One drift step: whatever the noise, the three published probabilities are non-negative and
        add up to exactly one. */
    method Step(noise: seq<real>) returns (published: seq<int>)
      requires Valid() && |noise| == 3
      modifies this
      ensures Valid()
      ensures |published| == 3 && published[0] + published[1] + published[2] == 10000
      ensures forall i :: 0 <= i < 3 ==> published[i] >= 0
      ensures probs == Normalize(DriftAll(old(probs), prior, noise))
      ensures exists idx :: 0 <= idx < 3 && Corrected(probs, UNIT, published, idx)
                && forall i :: 0 <= i < 3 && i != idx ==> IsNearest(published[i], Units(probs[i], 10000))
    {
      hide Units, Drifted, Share, IsNearest, OnSimplex, SumInt;
      var drifted: seq<real> := [];
      for i := 0 to 3
        invariant drifted == DriftAll(probs, prior, noise)[..i]
      {
        drifted := drifted + [Drifted(probs[i], prior[i], noise[i])];
      }
      assert drifted == DriftAll(probs, prior, noise);
      NormalizeOnSimplex(drifted);
      probs := Normalize(drifted);
      published := RoundToUnitSimplex(probs, UNIT);
      ghost var idx :| FirstMaximum(Plain(probs, UNIT), idx) && forall i :: 0 <= i < |probs| && i != idx ==> published[i] == Plain(probs, UNIT)[i];
      assert Corrected(probs, UNIT, published, idx);
      CorrectionIsSmall(probs, UNIT, published, idx);
      UnitsRounded(probs, UNIT);
      SumOfThree(published);
    }
  }

  lemma SumOfThree(a: seq<int>)
    requires |a| == 3
    ensures SumInt(a) == a[0] + a[1] + a[2]
  {
    assert a[..2][..1] == a[..1] && a[..1][..0] == [];
    assert SumInt(a[..1]) == a[0];
    assert SumInt(a[..2]) == SumInt(a[..1]) + a[1];
  }

  // ----- Backoff -----

  const MAX_BACKOFF := 10.0

  /** What became of one batch: its size and the response's status, if there was a response. */
  datatype Attempt = Attempt(size: nat, status: Option<int>) {
    predicate Succeeded() {
      status.Some? && 200 <= status.value < 300
    }
  }

  class Engine {
    var consecutiveFailures: nat
    var batchesSent: nat
    var ticksSent: nat
    ghost var history: seq<Attempt>

    ghost predicate Valid()
      reads this
    {
      && consecutiveFailures == TrailingFailures(history)
      && batchesSent == Successes(history)
      && ticksSent == TicksOf(history)
    }

    constructor ()
      ensures Valid() && history == []
    {
      consecutiveFailures, batchesSent, ticksSent, history := 0, 0, 0, [];
    }

    method EmitBatch(attempt: Attempt)
      requires Valid()
      modifies this
      ensures Valid() && history == old(history) + [attempt]
    {
      if attempt.status.None? {
        consecutiveFailures := consecutiveFailures + 1;
      } else if 200 <= attempt.status.value < 300 {
        consecutiveFailures := 0;
        batchesSent := batchesSent + 1;
        ticksSent := ticksSent + attempt.size;
      } else {
        consecutiveFailures := consecutiveFailures + 1;
      }
      history := history + [attempt];
      assert history[..|history| - 1] == old(history);
    }
  }

  function TrailingFailures(history: seq<Attempt>): nat {
    if history == [] || history[|history| - 1].Succeeded() then 0
    else 1 + TrailingFailures(history[..|history| - 1])
  }

  function Successes(history: seq<Attempt>): nat {
    if history == [] then 0
    else Successes(history[..|history| - 1]) + (if history[|history| - 1].Succeeded() then 1 else 0)
  }

  function TicksOf(history: seq<Attempt>): nat {
    if history == [] then 0
    else TicksOf(history[..|history| - 1]) + (if history[|history| - 1].Succeeded() then history[|history| - 1].size else 0)
  }

  /** No response, or a status that is not 2xx. */
  predicate Failed(a: Attempt) {
    match a.status
    case None => true
    case Some(code) => code < 200 || code > 299
  }

  /** The failure counter is the length of the stretch of failures at the end of the history: all of them
      failed, and the attempt before them, if any, succeeded. */
  lemma {:induction false} FailuresAtTheEnd(history: seq<Attempt>)
    ensures var n := TrailingFailures(history);
            && n <= |history| && (forall i :: |history| - n <= i < |history| ==> Failed(history[i]))
            && (n < |history| ==> !Failed(history[|history| - n - 1]))
  {
    if history != [] && Failed(history[|history| - 1]) {
      FailuresAtTheEnd(history[..|history| - 1]);
    }
  }

  /** The other two counters add up over the history: an attempt that failed counts for nothing, one that
      succeeded as one batch and all its ticks. */
  lemma {:induction false} SuccessesAddUp(before: seq<Attempt>, after: seq<Attempt>)
    ensures Successes(before + after) == Successes(before) + Successes(after)
    ensures TicksOf(before + after) == TicksOf(before) + TicksOf(after)
    ensures |after| == 1 ==> Successes(after) == (if Failed(after[0]) then 0 else 1)
                             && TicksOf(after) == (if Failed(after[0]) then 0 else after[0].size)
  {
    if after == [] {
      assert before + after == before;
    } else {
      var n := |after| - 1;
      SuccessesAddUp(before, after[..n]);
      assert (before + after)[..|before| + n] == before + after[..n];
    }
  }

  function PowerOfTwo(n: nat): (r: nat)
    ensures r >= 1
  {
    if n == 0 then 1 else 2 * PowerOfTwo(n - 1)
  }

  function NextDelay(base: real, failures: nat): real {
    if failures == 0 then base
    else Min(MAX_BACKOFF, base * PowerOfTwo(if failures <= 6 then failures else 6) as real)
  }

  lemma {:induction false} PowersGrow(m: nat, n: nat)
    requires m <= n
    ensures PowerOfTwo(m) <= PowerOfTwo(n)
  {
    if m < n {
      PowersGrow(m, n - 1);
    }
  }

  /** For every base delay in the configured range, further failures never shorten the wait, it
      never exceeds ten seconds, and from the sixth failure in a row on it is exactly that. */
  lemma BackoffSaturates(base: real, fewer: nat, more: nat)
    requires 0.3 <= base <= 1.2 && fewer <= more
    ensures base <= NextDelay(base, fewer) <= NextDelay(base, more) <= 10.0
    ensures more >= 6 ==> NextDelay(base, more) == 10.0
  {
    var a, b := if fewer <= 6 then fewer else 6, if more <= 6 then more else 6;
    PowersGrow(0, a);
    PowersGrow(a, b);
    assert PowerOfTwo(0) == 1;
    SixDoublings();
    hide PowerOfTwo;
    ScaledUp(base, 1, PowerOfTwo(a));
    ScaledUp(base, PowerOfTwo(a), PowerOfTwo(b));
    if more >= 6 {
      assert base * 64.0 >= 10.0;
    }
  }

  /** Every failure up to the sixth doubles the wait, as far as ten seconds allow; without failures it is
      the plain interval. */
  lemma EveryFailureDoubles(base: real, failures: nat)
    requires 0.3 <= base <= 1.2
    ensures NextDelay(base, 0) == base
    ensures NextDelay(base, failures + 1) == Min(10.0, 2.0 * NextDelay(base, failures))
  {
    if failures >= 6 {
      BackoffSaturates(base, 6, failures);
      BackoffSaturates(base, 6, failures + 1);
    } else {
      OneMoreDoubling(base, failures);
      CappedTwice(base * PowerOfTwo(failures) as real);
      hide PowerOfTwo;
    }
  }

  lemma OneMoreDoubling(base: real, n: nat)
    ensures base * PowerOfTwo(n + 1) as real == 2.0 * (base * PowerOfTwo(n) as real)
    ensures n == 0 ==> base * PowerOfTwo(n) as real == base
  {
    var p := PowerOfTwo(n);
    assert PowerOfTwo(n + 1) == 2 * p;
    assert base * (2 * p) as real == 2.0 * (base * p as real);
  }

  lemma CappedTwice(delay: real)
    ensures Min(10.0, 2.0 * Min(10.0, delay)) == Min(10.0, 2.0 * delay)
  {
  }

  lemma SixDoublings()
    ensures PowerOfTwo(6) == 64
  {
  }

  lemma ScaledUp(base: real, x: nat, y: nat)
    requires base >= 0.0 && x <= y
    ensures base * x as real <= base * y as real
  {
    assert base * (y as real - x as real) >= 0.0;
  }
}
