/** One simulated market of scrapers/devraya/main.py: a rounded random walk that freezes during
    suspensions. Odds are in hundredths and probabilities in ten-thousandths, the grids the source
    rounds to; random draws are inputs. */
module MarketTicker {
  import opened Prelude

  const MIN_ODDS := 101
  const MAX_ODDS := 2000
  const MAX_EDGE := 0.08
  const MEAN_REVERSION := 0.02
  const EDGE_DECAY := 0.95

  /** What one tick takes from the random source. */
  datatype Draw = Draw(suspend: bool, length: int, step: int, noise: real) {
    predicate Valid() {
      3 <= length <= 10 && -2 <= step <= 2
    }
  }

  datatype Market = Market(opening: int, odds: int, edge: real, suspended: nat) {
    predicate Valid() {
      MIN_ODDS <= opening <= MAX_ODDS && MIN_ODDS <= odds <= MAX_ODDS && -MAX_EDGE <= edge <= MAX_EDGE
    }
  }

  datatype Tick = Tick(odds: int, probability: int, suspended: bool)

  function Countdown(m: Market, d: Draw): nat
    requires d.Valid()
  {
    if m.suspended > 0 then m.suspended - 1 else if d.suspend then d.length else 0
  }

  function NextOdds(m: Market, d: Draw): int {
    RoundHalfEven(Clamp((m.odds + d.step) as real + MEAN_REVERSION * (m.opening - m.odds) as real, MIN_ODDS as real, MAX_ODDS as real))
  }

  function Next(m: Market, d: Draw): Market
    requires d.Valid()
  {
    var suspended := Countdown(m, d);
    m.(suspended := suspended,
       odds := if suspended > 0 then m.odds else NextOdds(m, d),
       edge := Clamp(m.edge * EDGE_DECAY + d.noise, -MAX_EDGE, MAX_EDGE))
  }

  /** The market's view, one in so many, tilted by the edge. */
  function FairChance(odds: int, edge: real): real
    requires odds > 0
  {
    100.0 / odds as real * (1.0 + edge)
  }

  function TrueProbability(odds: int, edge: real): int
    requires odds > 0
  {
    RoundHalfEven(10000.0 * Clamp(FairChance(odds, edge), 0.01, 0.99))
  }

  function Emit(m: Market): Tick
    requires m.odds > 0
  {
    Tick(m.odds, TrueProbability(m.odds, m.edge), m.suspended > 0)
  }

  class MarketState {
    const opening: int
    var odds: int
    var edge: real
    var suspendedTicks: nat

    ghost function Value(): Market
      reads this
    {
      Market(opening, odds, edge, suspendedTicks)
    }

    constructor (opening: int)
      requires MIN_ODDS <= opening <= MAX_ODDS
      ensures Value() == Market(opening, opening, 0.0, 0) && Value().Valid()
    {
      this.opening, odds, edge, suspendedTicks := opening, opening, 0.0, 0;
    }

    method NextTick(d: Draw) returns (tick: Tick)
      requires Value().Valid() && d.Valid()
      modifies this
      ensures Value() == Next(old(Value()), d) && Value().Valid()
      ensures tick == Emit(Value())
    {
      NextIsValid(Value(), d);
      if suspendedTicks > 0 {
        suspendedTicks := suspendedTicks - 1;
      } else if d.suspend {
        suspendedTicks := d.length;
      }
      var isSuspended := suspendedTicks > 0;
      if !isSuspended {
        var reversion := MEAN_REVERSION * (opening - odds) as real;
        odds := RoundHalfEven(Clamp((odds + d.step) as real + reversion, MIN_ODDS as real, MAX_ODDS as real));
      }
      edge := Clamp(edge * EDGE_DECAY + d.noise, -MAX_EDGE, MAX_EDGE);
      tick := Tick(odds, TrueProbability(odds, edge), isSuspended);
    }
  }

  lemma NextIsValid(m: Market, d: Draw)
    requires m.Valid() && d.Valid()
    ensures Next(m, d).Valid()
  {
    RoundStaysWithin(Clamp((m.odds + d.step) as real + MEAN_REVERSION * (m.opening - m.odds) as real, MIN_ODDS as real, MAX_ODDS as real), MIN_ODDS, MAX_ODDS);
  }

  /** The ticks one market emits for a sequence of draws. */
  function Trace(m: Market, draws: seq<Draw>): (ticks: seq<Tick>)
    requires m.Valid() && forall d :: d in draws ==> d.Valid()
    ensures |ticks| == |draws|
    decreases |draws|
  {
    if draws == [] then []
    else
      assert draws[0] in draws;
      NextIsValid(m, draws[0]);
      var next := Next(m, draws[0]);
      [Emit(next)] + Trace(next, draws[1..])
  }

  /** Along a whole trace odds stay in [1.01, 20.00] and probabilities in [0.01, 0.99]. */
  lemma {:induction false} TraceWithinBounds(m: Market, draws: seq<Draw>)
    requires m.Valid() && forall d :: d in draws ==> d.Valid()
    ensures forall t :: t in Trace(m, draws) ==> 101 <= t.odds <= 2000 && 100 <= t.probability <= 9900
    decreases |draws|
  {
    if draws != [] {
      assert draws[0] in draws;
      NextIsValid(m, draws[0]);
      var next := Next(m, draws[0]);
      RoundStaysWithin(10000.0 * Clamp(FairChance(next.odds, next.edge), 0.01, 0.99), 100, 9900);
      TraceWithinBounds(next, draws[1..]);
    }
  }

  // ----- How prices, edges and probabilities move -----

  /** Where an open market's price is heading, in hundredths: the drawn step, and two hundredths of the
      way back to the opening price. */
  function Target(m: Market, step: int): real {
    m.odds as real + step as real + 0.02 * (m.opening as real - m.odds as real)
  }

  /** An open tick moves the price to a nearest hundredth of its target, as far as that is between 1.01
      and 20.00, and else to the end of that range. */
  lemma OpenTickMoves(m: Market, d: Draw)
    requires m.Valid() && d.Valid() && !Emit(Next(m, d)).suspended
    ensures var odds, target := Emit(Next(m, d)).odds, Target(m, d.step);
            if target <= 101.0 then odds == 101
            else if target >= 2000.0 then odds == 2000
            else -0.5 <= odds as real - target <= 0.5
  {
    NextIsValid(m, d);
  }

  /** With no step drawn the price never leaves the stretch between where it is and where it opened. */
  lemma PriceReverts(m: Market, d: Draw)
    requires m.Valid() && d.Valid() && d.step == 0
    ensures m.odds <= m.opening ==> m.odds <= Next(m, d).odds <= m.opening
    ensures m.odds >= m.opening ==> m.odds >= Next(m, d).odds >= m.opening
  {
    NextIsValid(m, d);
    if m.odds <= m.opening {
      RoundStaysWithin(Target(m, 0), m.odds, m.opening);
    } else {
      RoundStaysWithin(Target(m, 0), m.opening, m.odds);
    }
  }

  /** The edge loses a twentieth per tick, suspended or not, and takes the noise, within 8%. */
  lemma EdgeMoves(m: Market, d: Draw)
    requires m.Valid() && d.Valid()
    ensures var e := 0.95 * m.edge + d.noise;
            && (-0.08 <= e <= 0.08 ==> Next(m, d).edge == e)
            && (e > 0.08 ==> Next(m, d).edge == 0.08) && (e < -0.08 ==> Next(m, d).edge == -0.08)
  {
  }

  /** The published probability times the odds is one plus the edge, up to rounding to the nearest
      ten-thousandth, unless that leaves [0.01, 0.99], whose nearer end it then is. */
  lemma ProbabilityCarriesEdge(m: Market)
    requires m.Valid()
    ensures NearestShare(Emit(m).probability, m.odds as real, 1_000_000.0 * (1.0 + m.edge))
  {
    var x := 10000.0 * FairChance(m.odds, m.edge);
    ChanceTimesOdds(m.odds, m.edge);
    ClampScales(FairChance(m.odds, m.edge), x);
    hide FairChance, NearestShare;
    NearestOfQuotient(Emit(m).probability, x, m.odds as real, 1_000_000.0 * (1.0 + m.edge));
  }

  lemma ChanceTimesOdds(odds: int, edge: real)
    requires odds > 0
    ensures 10000.0 * FairChance(odds, edge) * odds as real == 1_000_000.0 * (1.0 + edge)
  {
    var fair := 100.0 / odds as real;
    assert fair * odds as real == 100.0;
    assert fair * (1.0 + edge) * odds as real == fair * odds as real * (1.0 + edge);
  }

  /** `p * odds` is `fair` to within half the odds, `p` being kept between 100 and 9900. */
  ghost predicate NearestShare(p: int, odds: real, fair: real) {
    if fair <= 100.0 * odds then p == 100
    else if fair >= 9900.0 * odds then p == 9900
    else -odds <= 2.0 * (p as real * odds) - 2.0 * fair <= odds
  }

  lemma NearestOfQuotient(p: int, x: real, o: real, fair: real)
    requires o > 0.0 && x * o == fair
    requires p == RoundHalfEven(if x <= 100.0 then 100.0 else if x >= 9900.0 then 9900.0 else x)
    ensures NearestShare(p, o, fair)
  {
    QuotientOrder(fair, o, x, 100.0);
    QuotientOrder(fair, o, x, 9900.0);
    if 100.0 < x < 9900.0 {
      TimesOdds(p as real, x, o, fair);
    }
  }

  lemma QuotientOrder(fair: real, o: real, x: real, bound: real)
    requires o > 0.0 && x * o == fair
    ensures x <= bound <==> fair <= bound * o
    ensures x >= bound <==> fair >= bound * o
  {
    assert (x - bound) * o == fair - bound * o;
  }

  lemma ClampScales(y: real, x: real)
    requires x == 10000.0 * y
    ensures 10000.0 * Clamp(y, 0.01, 0.99) == if x <= 100.0 then 100.0 else if x >= 9900.0 then 9900.0 else x
  {
  }

  lemma NonNegative(a: real, b: real)
    requires a >= 0.0 && b >= 0.0
    ensures a * b >= 0.0
  {
  }

  lemma TimesOdds(p: real, x: real, o: real, fair: real)
    requires -0.5 <= p - x <= 0.5 && o > 0.0 && x * o == fair
    ensures -o <= 2.0 * (p * o) - 2.0 * fair <= o
  {
    var over, under := 0.5 - (p - x), 0.5 + (p - x);
    NonNegative(over, o);
    NonNegative(under, o);
    assert over * o == 0.5 * o - p * o + x * o;
    assert under * o == 0.5 * o + p * o - x * o;
  }

  /** An open market suspends exactly when its draw says so, and a suspended one takes no notice of it. */
  lemma SuspendsOnDraw(m: Market, d: Draw)
    requires m.Valid() && d.Valid()
    ensures m.suspended == 0 ==> (Emit(Next(m, d)).suspended <==> d.suspend)
    ensures m.suspended > 0 ==> Next(m, d).suspended == m.suspended - 1
  {
  }

  /** `[i, j)` is a maximal run of suspended ticks of a market that starts open. */
  ghost predicate SuspendedRun(m: Market, ticks: seq<Tick>, i: nat, j: nat) {
    && i < j <= |ticks|
    && (if i == 0 then m.suspended == 0 else !ticks[i - 1].suspended)
    && (forall n :: i <= n < j ==> ticks[n].suspended)
    && (j < |ticks| ==> !ticks[j].suspended)
  }

  /** The first `k` ticks, as far as there are any, are suspended at `odds`; the next is open. */
  ghost predicate Frozen(ticks: seq<Tick>, k: nat, odds: int) {
    && (forall n :: 0 <= n < k && n < |ticks| ==> ticks[n].suspended && ticks[n].odds == odds)
    && (k < |ticks| ==> !ticks[k].suspended)
  }

  lemma FrozenPrepend(tick: Tick, tail: seq<Tick>, k: nat)
    requires k > 0 && tick.suspended && Frozen(tail, k - 1, tick.odds)
    ensures Frozen([tick] + tail, k, tick.odds)
  {
  }

  /** A market with `k` suspended ticks to go, counting the one just emitted, emits the others at a
      frozen price and then reopens. */
  lemma {:induction false} FrozenThenOpen(m: Market, draws: seq<Draw>)
    requires m.Valid() && m.suspended > 0 && forall d :: d in draws ==> d.Valid()
    ensures Frozen(Trace(m, draws), m.suspended - 1, m.odds)
    decreases |draws|
  {
    if draws != [] {
      assert draws[0] in draws;
      NextIsValid(m, draws[0]);
      var next := Next(m, draws[0]);
      if next.suspended > 0 {
        FrozenThenOpen(next, draws[1..]);
        FrozenPrepend(Emit(next), Trace(next, draws[1..]), next.suspended);
      }
    }
  }

  /** A suspension lasts exactly as many ticks as its draw says. */
  lemma SuspensionFromDraw(m: Market, draws: seq<Draw>)
    requires m.Valid() && forall d :: d in draws ==> d.Valid()
    requires draws != [] && m.suspended == 0 && Trace(m, draws)[0].suspended
    ensures Frozen(Trace(m, draws), draws[0].length, m.odds)
  {
    assert draws[0] in draws;
    NextIsValid(m, draws[0]);
    var next := Next(m, draws[0]);
    FrozenThenOpen(next, draws[1..]);
    FrozenPrepend(Emit(next), Trace(next, draws[1..]), next.suspended);
  }

  lemma RunInTail(m: Market, next: Market, tail: seq<Tick>, i: nat, j: nat)
    requires next.odds > 0 && i > 0 && SuspendedRun(m, [Emit(next)] + tail, i, j)
    ensures SuspendedRun(next, tail, i - 1, j - 1)
  {
    var ticks := [Emit(next)] + tail;
    assert forall n :: 0 <= n < |tail| ==> tail[n] == ticks[n + 1];
  }

  /** Every maximal suspended run lasts at most ten ticks, at least three unless the trace ends in
      it, and keeps the price that stood before it. */
  lemma {:induction false} SuspensionRuns(m: Market, draws: seq<Draw>, i: nat, j: nat)
    requires m.Valid() && forall d :: d in draws ==> d.Valid()
    requires SuspendedRun(m, Trace(m, draws), i, j)
    ensures j - i <= 10 && (j < |draws| ==> 3 <= j - i)
    ensures forall n :: i <= n < j ==> Trace(m, draws)[n].odds == if i == 0 then m.odds else Trace(m, draws)[i - 1].odds
    decreases i
  {
    assert draws[0] in draws;
    if i == 0 {
      SuspensionFromDraw(m, draws);
    } else {
      NextIsValid(m, draws[0]);
      var next, rest := Next(m, draws[0]), draws[1..];
      var ticks, tail := Trace(m, draws), Trace(next, rest);
      assert ticks == [Emit(next)] + tail;
      RunInTail(m, next, tail, i, j);
      SuspensionRuns(next, rest, i - 1, j - 1);
      forall n | i <= n < j ensures ticks[n].odds == ticks[i - 1].odds {
        assert ticks[n] == tail[n - 1];
      }
    }
  }
}
