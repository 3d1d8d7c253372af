/** Match outcome probabilities from two truncated Poisson goal counts, as computed in
    backend/app/db/seed_historical_ticks.py. Reals are exact, and `exp(-lam)` is a positive input. */
module OutcomeModel {
  import opened Prelude

  const MAX_GOALS := 12

  /** From the weight of `k - 1` goals to the weight of `k`. */
  function NextTerm(t: real, lam: real, k: int): (r: real)
    requires k > 0
    ensures t > 0.0 && lam > 0.0 ==> r > 0.0
  {
    t * lam / k as real
  }

  /** The weight of one score line. */
  function Joint(a: real, b: real): (r: real)
    ensures a > 0.0 && b > 0.0 ==> r > 0.0
  {
    a * b
  }

  /** A goal rate with the value of `exp(-lam)` for it. */
  datatype Rate = Rate(lam: real, scale: real) {
    predicate Valid() {
      lam > 0.0 && scale > 0.0
    }

    /** The weight of `k` goals. */
    function Term(k: nat): (t: real)
      requires Valid()
      ensures t > 0.0
    {
      if k == 0 then scale else NextTerm(Term(k - 1), lam, k)
    }

    function Vector(): (p: seq<real>)
      requires Valid()
    {
      seq(MAX_GOALS + 1, k requires k >= 0 => Term(k))
    }
  }

  datatype Outcome = Outcome(home: real, draw: real, away: real, over: real, under: real)

  predicate HomeWins(i: nat, j: nat) { i > j }
  predicate Level(i: nat, j: nat) { i == j }
  predicate AwayWins(i: nat, j: nat) { i < j }
  predicate AtMostTwo(i: nat, j: nat) { i + j <= 2 }
  predicate AnyScore(i: nat, j: nat) { true }

  type Pick = (nat, nat) -> bool

  /** The sum of the picked products in row `i`, whose weight is `x`. */
  function RowSum(x: real, b: seq<real>, i: nat, pick: Pick): real {
    if b == [] then 0.0
    else
      var j := |b| - 1;
      RowSum(x, b[..j], i, pick) + (if pick(i, j) then Joint(x, b[j]) else 0.0)
  }

  /** The sum of `a[i] * b[j]` over the picked score lines. */
  function GridSum(a: seq<real>, b: seq<real>, pick: Pick): real {
    if a == [] then 0.0
    else
      var i := |a| - 1;
      GridSum(a[..i], b, pick) + RowSum(a[i], b, i, pick)
  }

  method Poisson(r: Rate) returns (p: seq<real>)
    requires r.Valid()
    ensures p == r.Vector()
  {
    p := [r.scale];
    for k := 1 to MAX_GOALS + 1
      invariant |p| == k
      invariant forall i :: 0 <= i < k ==> p[i] == r.Term(i)
    {
      p := p + [NextTerm(p[|p| - 1], r.lam, k)];
    }
  }

  /** `x` of `total` is `part`. */
  ghost predicate IsShare(x: real, total: real, part: real) {
    x * total == part
  }

  /** What the source returns, in terms of sums over score lines. */
  ghost predicate Describes(o: Outcome, ph: seq<real>, pa: seq<real>) {
    var total := GridSum(ph, pa, HomeWins) + GridSum(ph, pa, Level) + GridSum(ph, pa, AwayWins);
    && IsShare(o.home, total, GridSum(ph, pa, HomeWins))
    && IsShare(o.draw, total, GridSum(ph, pa, Level))
    && IsShare(o.away, total, GridSum(ph, pa, AwayWins))
    && IsShare(o.under, total, GridSum(ph, pa, AtMostTwo))
    && o.over == 1.0 - o.under
  }

  function Normalised(home: real, draw: real, away: real, under: real): (o: Outcome)
    requires home + draw + away > 0.0
    ensures var total := home + draw + away;
            IsShare(o.home, total, home) && IsShare(o.draw, total, draw) && IsShare(o.away, total, away) && IsShare(o.under, total, under)
  {
    var total := home + draw + away;
    Outcome(home / total, draw / total, away / total, 1.0 - under / total, under / total)
  }

  /** The nested accumulation over all score lines. */
  method Accumulate(ph: seq<real>, pa: seq<real>) returns (home: real, draw: real, away: real, under: real)
    ensures home == GridSum(ph, pa, HomeWins) && draw == GridSum(ph, pa, Level) && away == GridSum(ph, pa, AwayWins)
    ensures under == GridSum(ph, pa, AtMostTwo)
  {
    hide Joint;
    home, draw, away, under := 0.0, 0.0, 0.0, 0.0;
    for i := 0 to |ph|
      invariant home == GridSum(ph[..i], pa, HomeWins)
      invariant draw == GridSum(ph[..i], pa, Level)
      invariant away == GridSum(ph[..i], pa, AwayWins)
      invariant under == GridSum(ph[..i], pa, AtMostTwo)
    {
      for j := 0 to |pa|
        invariant home == GridSum(ph[..i], pa, HomeWins) + RowSum(ph[i], pa[..j], i, HomeWins)
        invariant draw == GridSum(ph[..i], pa, Level) + RowSum(ph[i], pa[..j], i, Level)
        invariant away == GridSum(ph[..i], pa, AwayWins) + RowSum(ph[i], pa[..j], i, AwayWins)
        invariant under == GridSum(ph[..i], pa, AtMostTwo) + RowSum(ph[i], pa[..j], i, AtMostTwo)
      {
        var joint := Joint(ph[i], pa[j]);
        assert pa[..j + 1][..j] == pa[..j];
        if i > j {
          home := home + joint;
        } else if i == j {
          draw := draw + joint;
        } else {
          away := away + joint;
        }
        if i + j <= 2 {
          under := under + joint;
        }
      }
      assert pa[..|pa|] == pa;
      assert ph[..i + 1][..i] == ph[..i];
    }
    assert ph[..|ph|] == ph;
  }

  method OutcomeProbabilities(lamHome: Rate, lamAway: Rate) returns (o: Outcome)
    requires lamHome.Valid() && lamAway.Valid()
    ensures Describes(o, lamHome.Vector(), lamAway.Vector())
  {
    var ph := Poisson(lamHome);
    var pa := Poisson(lamAway);
    var home, draw, away, under := Accumulate(ph, pa);
    PositiveVector(lamHome);
    PositiveVector(lamAway);
    Partition(ph, pa);
    TotalPositive(ph, pa);
    o := Normalised(home, draw, away, under);
  }

  lemma PositiveVector(r: Rate)
    requires r.Valid()
    ensures Positive(r.Vector()) && |r.Vector()| == MAX_GOALS + 1
  {
  }

  // ----- Sums over score lines -----

  lemma {:induction false} RowPartition(x: real, b: seq<real>, i: nat)
    ensures RowSum(x, b, i, HomeWins) + RowSum(x, b, i, Level) + RowSum(x, b, i, AwayWins) == RowSum(x, b, i, AnyScore)
  {
    if b != [] {
      RowPartition(x, b[..|b| - 1], i);
    }
  }

  /** Every score line is a home win, a draw or an away win. */
  lemma {:induction false} Partition(a: seq<real>, b: seq<real>)
    ensures GridSum(a, b, HomeWins) + GridSum(a, b, Level) + GridSum(a, b, AwayWins) == GridSum(a, b, AnyScore)
  {
    if a != [] {
      Partition(a[..|a| - 1], b);
      RowPartition(a[|a| - 1], b, |a| - 1);
    }
  }

  lemma {:induction false} RowIsProduct(x: real, b: seq<real>, i: nat)
    ensures RowSum(x, b, i, AnyScore) == x * Sum(b)
  {
    if b != [] {
      RowIsProduct(x, b[..|b| - 1], i);
    }
  }

  /** The whole grid is the product of the two vector sums. */
  lemma {:induction false} GridIsProduct(a: seq<real>, b: seq<real>)
    ensures GridSum(a, b, AnyScore) == Sum(a) * Sum(b)
  {
    if a != [] {
      GridIsProduct(a[..|a| - 1], b);
      RowIsProduct(a[|a| - 1], b, |a| - 1);
    }
  }

  lemma TotalPositive(a: seq<real>, b: seq<real>)
    requires Positive(a) && Positive(b) && a != [] && b != []
    ensures GridSum(a, b, AnyScore) > 0.0
  {
    GridIsProduct(a, b);
    SumPositive(a);
    SumPositive(b);
  }

  lemma {:induction false} RowWithin(x: real, b: seq<real>, i: nat, pick: Pick)
    requires x > 0.0 && Positive(b)
    ensures 0.0 <= RowSum(x, b, i, pick) <= RowSum(x, b, i, AnyScore)
  {
    if b != [] {
      RowWithin(x, b[..|b| - 1], i, pick);
      assert x * b[|b| - 1] > 0.0;
    }
  }

  lemma {:induction false} GridWithin(a: seq<real>, b: seq<real>, pick: Pick)
    requires Positive(a) && Positive(b)
    ensures 0.0 <= GridSum(a, b, pick) <= GridSum(a, b, AnyScore)
  {
    if a != [] {
      GridWithin(a[..|a| - 1], b, pick);
      RowWithin(a[|a| - 1], b, |a| - 1, pick);
    }
  }

  lemma ShareIsUnit(x: real, total: real, part: real)
    requires total > 0.0 && IsShare(x, total, part) && 0.0 <= part <= total
    ensures 0.0 <= x <= 1.0
  {
    assert x == part / total;
  }

  lemma SharesAdd(x: real, y: real, z: real, total: real, a: real, b: real, c: real)
    requires total > 0.0 && a + b + c == total
    requires IsShare(x, total, a) && IsShare(y, total, b) && IsShare(z, total, c)
    ensures x + y + z == 1.0
  {
    var w := x + y + z;
    assert w * total == x * total + y * total + z * total;
    assert w == total / total;
  }

  /** The result is two probability distributions, and the normaliser is the product of the two
      truncated masses. */
  lemma Distributions(o: Outcome, ph: seq<real>, pa: seq<real>)
    requires Positive(ph) && Positive(pa) && ph != [] && pa != [] && Describes(o, ph, pa)
    ensures o.home + o.draw + o.away == 1.0 && o.over + o.under == 1.0
    ensures 0.0 <= o.home <= 1.0 && 0.0 <= o.draw <= 1.0 && 0.0 <= o.away <= 1.0
    ensures 0.0 <= o.over <= 1.0 && 0.0 <= o.under <= 1.0
    ensures GridSum(ph, pa, HomeWins) + GridSum(ph, pa, Level) + GridSum(ph, pa, AwayWins) == Sum(ph) * Sum(pa)
  {
    Partition(ph, pa);
    TotalPositive(ph, pa);
    GridIsProduct(ph, pa);
    var total := GridSum(ph, pa, AnyScore);
    var h, d, a, u := GridSum(ph, pa, HomeWins), GridSum(ph, pa, Level), GridSum(ph, pa, AwayWins), GridSum(ph, pa, AtMostTwo);
    GridWithin(ph, pa, HomeWins);
    GridWithin(ph, pa, Level);
    GridWithin(ph, pa, AwayWins);
    GridWithin(ph, pa, AtMostTwo);
    ShareIsUnit(o.home, total, h);
    ShareIsUnit(o.draw, total, d);
    ShareIsUnit(o.away, total, a);
    ShareIsUnit(o.under, total, u);
    SharesAdd(o.home, o.draw, o.away, total, h, d, a);
  }

  // ----- The sums written out -----

  function Factorial(k: nat): (f: nat)
    ensures f >= 1
  {
    if k == 0 then 1 else k * Factorial(k - 1)
  }

  function Raised(x: real, k: nat): real {
    if k == 0 then 1.0 else Joint(Raised(x, k - 1), x)
  }

  lemma NextTermTimes(t: real, lam: real, k: int)
    requires k > 0
    ensures Joint(NextTerm(t, lam, k), k as real) == Joint(t, lam)
  {
  }

  lemma JointRegroups(t: real, k: real, f: real, lam: real, u: real)
    requires Joint(t, k) == Joint(u, lam)
    ensures Joint(t, Joint(k, f)) == Joint(Joint(u, f), lam)
  {
    assert t * (k * f) == t * k * f;
    assert u * lam * f == u * f * lam;
  }

  lemma FactorialStep(k: nat)
    requires k > 0
    ensures Joint(k as real, Factorial(k - 1) as real) == Factorial(k) as real
  {
  }

  lemma JointAssociates(a: real, b: real, c: real)
    ensures Joint(Joint(a, b), c) == Joint(a, Joint(b, c))
  {
  }

  /** The weights are those of the Poisson distribution: `exp(-lam) * lam^k / k!`. */
  lemma {:induction false} PoissonTerm(r: Rate, k: nat)
    requires r.Valid()
    ensures Joint(r.Term(k), Factorial(k) as real) == Joint(r.scale, Raised(r.lam, k))
  {
    if k > 0 {
      PoissonTerm(r, k - 1);
      hide Joint, NextTerm, Factorial;
      NextTermTimes(r.Term(k - 1), r.lam, k);
      JointRegroups(r.Term(k), k as real, Factorial(k - 1) as real, r.lam, r.Term(k - 1));
      FactorialStep(k);
      JointAssociates(r.scale, Raised(r.lam, k - 1), r.lam);
    }
  }

  /** A vector holds the weights of none to twelve goals. */
  lemma PoissonVector(r: Rate)
    requires r.Valid()
    ensures |r.Vector()| == 13
    ensures forall k :: 0 <= k <= 12 ==> Joint(r.Vector()[k], Factorial(k) as real) == Joint(r.scale, Raised(r.lam, k))
  {
    forall k | 0 <= k <= 12 ensures Joint(r.Vector()[k], Factorial(k) as real) == Joint(r.scale, Raised(r.lam, k)) {
      PoissonTerm(r, k);
    }
  }

  /** Equal goals on both sides. */
  function Diagonal(a: seq<real>, b: seq<real>): real
    requires |a| <= |b|
  {
    if a == [] then 0.0 else Diagonal(a[..|a| - 1], b) + Joint(a[|a| - 1], b[|a| - 1])
  }

  /** Each number of goals on the first side with every lower one on the second. */
  function Superior(a: seq<real>, b: seq<real>): real
    requires |a| <= |b|
  {
    if a == [] then 0.0 else Superior(a[..|a| - 1], b) + Joint(a[|a| - 1], Sum(b[..|a| - 1]))
  }

  lemma JointDistributes(x: real, y: real, z: real)
    ensures Joint(x, y) + Joint(x, z) == Joint(x, y + z)
    ensures Joint(x, 0.0) == 0.0
  {
  }

  lemma {:induction false} RowsWrittenOut(x: real, b: seq<real>, i: nat)
    ensures RowSum(x, b, i, Level) == if i < |b| then Joint(x, b[i]) else 0.0
    ensures RowSum(x, b, i, HomeWins) == Joint(x, Sum(if i < |b| then b[..i] else b))
  {
    if b == [] {
      JointDistributes(x, 0.0, 0.0);
    } else {
      var n := |b| - 1;
      RowsWrittenOut(x, b[..n], i);
      hide Joint;
      if i < n {
        assert b[..n][..i] == b[..i];
      } else if i == n {
      } else {
        JointDistributes(x, Sum(b[..n]), b[n]);
      }
    }
  }

  lemma {:induction false} GridsWrittenOut(a: seq<real>, b: seq<real>)
    requires |a| <= |b|
    ensures GridSum(a, b, Level) == Diagonal(a, b) && GridSum(a, b, HomeWins) == Superior(a, b)
  {
    if a != [] {
      GridsWrittenOut(a[..|a| - 1], b);
      RowsWrittenOut(a[|a| - 1], b, |a| - 1);
    }
  }

  lemma {:induction false} LateColumnsAddNothing(x: real, b: seq<real>, i: nat, n: nat)
    requires n <= |b| && i + n >= 3
    ensures RowSum(x, b, i, AtMostTwo) == RowSum(x, b[..n], i, AtMostTwo)
  {
    if n < |b| {
      var m := |b| - 1;
      LateColumnsAddNothing(x, b[..m], i, n);
      assert b[..m][..n] == b[..n];
    } else {
      assert b[..n] == b;
    }
  }

  lemma {:induction false} LateRowsAddNothing(a: seq<real>, b: seq<real>, n: nat)
    requires 3 <= n <= |a|
    ensures GridSum(a, b, AtMostTwo) == GridSum(a[..n], b, AtMostTwo)
  {
    if n < |a| {
      var m := |a| - 1;
      LateRowsAddNothing(a[..m], b, n);
      LateColumnsAddNothing(a[m], b, m, 0);
      assert a[..m][..n] == a[..n] && b[..0] == [];
    } else {
      assert a[..n] == a;
    }
  }

  lemma ShortRow(x: real, b: seq<real>, i: nat)
    requires |b| >= 3 && i <= 2
    ensures RowSum(x, b, i, AtMostTwo)
         == (if i == 0 then Joint(x, b[0]) + Joint(x, b[1]) + Joint(x, b[2]) else if i == 1 then Joint(x, b[0]) + Joint(x, b[1]) else Joint(x, b[0]))
  {
    hide Joint;
    LateColumnsAddNothing(x, b, i, 3 - i);
    var c := b[..3 - i];
    RowSteps(x, c, i);
  }

  lemma RowSteps(x: real, c: seq<real>, i: nat)
    requires 1 <= |c| <= 3 && i + |c| <= 3
    ensures RowSum(x, c, i, AtMostTwo) == Joint(x, c[0]) + (if |c| > 1 then Joint(x, c[1]) else 0.0) + (if |c| > 2 then Joint(x, c[2]) else 0.0)
  {
    hide Joint;
    var n := |c| - 1;
    if n == 0 {
      assert c[..0] == [];
    } else {
      RowSteps(x, c[..n], i);
    }
  }

  /** Under two and a half goals are the six score lines with at most two. */
  lemma UnderWrittenOut(a: seq<real>, b: seq<real>)
    requires |a| >= 3 && |b| >= 3
    ensures GridSum(a, b, AtMostTwo)
         == Joint(a[0], b[0]) + Joint(a[0], b[1]) + Joint(a[0], b[2]) + Joint(a[1], b[0]) + Joint(a[1], b[1]) + Joint(a[2], b[0])
  {
    hide Joint, RowSum;
    LateRowsAddNothing(a, b, 3);
    ShortRow(a[0], b, 0);
    ShortRow(a[1], b, 1);
    ShortRow(a[2], b, 2);
    var c := a[..3];
    assert c[..2][..1] == a[..1] && c[..2] == a[..2] && a[..1][..0] == [];
    assert GridSum(a[..1], b, AtMostTwo) == GridSum([], b, AtMostTwo) + RowSum(a[0], b, 0, AtMostTwo);
    assert GridSum(a[..2], b, AtMostTwo) == GridSum(a[..1], b, AtMostTwo) + RowSum(a[1], b, 1, AtMostTwo);
  }

  /** What the five numbers are, each as a share of the product of the two vector sums: HOME the score
      lines in which home scores more, DRAW those on the diagonal, AWAY those in which away scores more,
      UNDER the six with at most two goals, and OVER the rest. */
  lemma ExactShares(o: Outcome, ph: seq<real>, pa: seq<real>)
    requires Positive(ph) && Positive(pa) && |ph| == |pa| >= 3 && Describes(o, ph, pa)
    ensures var total := Sum(ph) * Sum(pa);
            && IsShare(o.home, total, Superior(ph, pa)) && IsShare(o.away, total, Superior(pa, ph))
            && IsShare(o.draw, total, Diagonal(ph, pa))
            && IsShare(o.under, total, Joint(ph[0], pa[0]) + Joint(ph[0], pa[1]) + Joint(ph[0], pa[2])
                                       + Joint(ph[1], pa[0]) + Joint(ph[1], pa[1]) + Joint(ph[2], pa[0]))
            && o.over == 1.0 - o.under
  {
    hide Joint;
    Distributions(o, ph, pa);
    GridsWrittenOut(ph, pa);
    GridsWrittenOut(pa, ph);
    TransposedPicks(ph, pa);
    UnderWrittenOut(ph, pa);
  }

  // ----- Swapping the teams -----

  function Flip(pick: Pick): Pick {
    (i: nat, j: nat) => pick(j, i)
  }

  /** The grid without its last column, plus that column read as a row. */
  lemma {:induction false} SplitColumn(a: seq<real>, b: seq<real>, pick: Pick)
    requires b != []
    ensures GridSum(a, b, pick) == GridSum(a, b[..|b| - 1], pick) + RowSum(b[|b| - 1], a, |b| - 1, Flip(pick))
  {
    if a != [] {
      SplitColumn(a[..|a| - 1], b, pick);
    }
  }

  lemma {:induction false} EmptyColumns(a: seq<real>, pick: Pick)
    ensures GridSum(a, [], pick) == 0.0
  {
    if a != [] {
      EmptyColumns(a[..|a| - 1], pick);
    }
  }

  lemma {:induction false} Transpose(a: seq<real>, b: seq<real>, pick: Pick)
    ensures GridSum(a, b, pick) == GridSum(b, a, Flip(pick))
  {
    if b == [] {
      EmptyColumns(a, pick);
    } else {
      SplitColumn(a, b, pick);
      Transpose(a, b[..|b| - 1], pick);
    }
  }

  lemma {:induction false} SamePick(a: seq<real>, b: seq<real>, p: Pick, q: Pick)
    requires forall i: nat, j: nat :: p(i, j) == q(i, j)
    ensures GridSum(a, b, p) == GridSum(a, b, q)
  {
    if a != [] {
      SamePick(a[..|a| - 1], b, p, q);
      SameRow(a[|a| - 1], b, |a| - 1, p, q);
    }
  }

  lemma {:induction false} SameRow(x: real, b: seq<real>, i: nat, p: Pick, q: Pick)
    requires forall i: nat, j: nat :: p(i, j) == q(i, j)
    ensures RowSum(x, b, i, p) == RowSum(x, b, i, q)
  {
    if b != [] {
      SameRow(x, b[..|b| - 1], i, p, q);
    }
  }

  lemma TransposedPicks(a: seq<real>, b: seq<real>)
    ensures GridSum(a, b, HomeWins) == GridSum(b, a, AwayWins)
    ensures GridSum(a, b, AwayWins) == GridSum(b, a, HomeWins)
    ensures GridSum(a, b, Level) == GridSum(b, a, Level)
    ensures GridSum(a, b, AtMostTwo) == GridSum(b, a, AtMostTwo)
  {
    Transpose(a, b, HomeWins);
    SamePick(b, a, Flip(HomeWins), AwayWins);
    Transpose(a, b, AwayWins);
    SamePick(b, a, Flip(AwayWins), HomeWins);
    Transpose(a, b, Level);
    SamePick(b, a, Flip(Level), Level);
    Transpose(a, b, AtMostTwo);
    SamePick(b, a, Flip(AtMostTwo), AtMostTwo);
  }

  lemma ShareOrder(x: real, y: real, total: real, a: real, b: real)
    requires total > 0.0 && IsShare(x, total, a) && IsShare(y, total, b)
    ensures x > y <==> a > b
    ensures x == y <==> a == b
  {
    assert x == a / total && y == b / total;
    assert (x - y) * total == a - b;
  }

  /** Swapping the two rates swaps HOME and AWAY and leaves DRAW, OVER and UNDER as they were. */
  lemma SwapTeams(o: Outcome, swapped: Outcome, ph: seq<real>, pa: seq<real>)
    requires Positive(ph) && Positive(pa) && ph != [] && pa != []
    requires Describes(o, ph, pa) && Describes(swapped, pa, ph)
    ensures swapped == Outcome(o.away, o.draw, o.home, o.over, o.under)
  {
    TransposedPicks(ph, pa);
    Partition(ph, pa);
    TotalPositive(ph, pa);
    var total := GridSum(ph, pa, AnyScore);
    ShareOrder(swapped.home, o.away, total, GridSum(pa, ph, HomeWins), GridSum(ph, pa, AwayWins));
    ShareOrder(swapped.draw, o.draw, total, GridSum(pa, ph, Level), GridSum(ph, pa, Level));
    ShareOrder(swapped.away, o.home, total, GridSum(pa, ph, AwayWins), GridSum(ph, pa, HomeWins));
    ShareOrder(swapped.under, o.under, total, GridSum(pa, ph, AtMostTwo), GridSum(ph, pa, AtMostTwo));
  }

  // ----- The stronger side -----

  /** The higher rate gains weight with every further goal. */
  lemma {:induction false} HigherRateShifts(r: Rate, s: Rate, i: nat, j: nat)
    requires r.Valid() && s.Valid() && r.lam > s.lam && i > j
    ensures Joint(r.Term(i), s.Term(j)) > Joint(s.Term(i), r.Term(j))
  {
    if i > j + 1 {
      HigherRateShifts(r, s, i - 1, j);
    }
    CrossStep(r.Term(i - 1), s.Term(i - 1), r.Term(j), s.Term(j), r.lam, s.lam, i);
  }

  lemma CrossStep(p: real, q: real, u: real, v: real, lam: real, mu: real, k: int)
    requires p > 0.0 && q > 0.0 && u > 0.0 && v > 0.0 && lam > mu > 0.0 && k > 0
    requires Joint(p, v) >= Joint(q, u)
    ensures Joint(NextTerm(p, lam, k), v) > Joint(NextTerm(q, mu, k), u)
  {
    var x, y, n := p * v, q * u, k as real;
    assert p * lam / n * v == x * (lam / n);
    assert q * mu / n * u == y * (mu / n);
    assert lam / n > mu / n > 0.0;
    Products(x, y, lam / n, mu / n);
  }

  lemma Products(x: real, y: real, u: real, v: real)
    requires x >= y > 0.0 && u > v > 0.0
    ensures x * u > y * v
  {
    assert (x - y) * u >= 0.0;
    assert y * (u - v) > 0.0;
  }

  lemma {:induction false} RowLess(x: real, b: seq<real>, y: real, c: seq<real>, i: nat, pick: Pick)
    requires |b| == |c|
    requires forall j :: 0 <= j < |b| && pick(i, j) ==> Joint(x, b[j]) > Joint(y, c[j])
    ensures RowSum(x, b, i, pick) >= RowSum(y, c, i, pick)
    ensures b != [] && pick(i, 0) ==> RowSum(x, b, i, pick) > RowSum(y, c, i, pick)
  {
    if b != [] {
      RowLess(x, b[..|b| - 1], y, c[..|b| - 1], i, pick);
    }
  }

  lemma RateRowLess(r: Rate, s: Rate, i: nat)
    requires r.Valid() && s.Valid() && r.lam > s.lam && i <= MAX_GOALS
    ensures var x, y := RowSum(r.Term(i), s.Vector(), i, HomeWins), RowSum(s.Term(i), r.Vector(), i, HomeWins);
            x >= y && (i > 0 ==> x > y)
  {
    var a, b := r.Vector(), s.Vector();
    forall j: nat | j < |b| && HomeWins(i, j) ensures Joint(r.Term(i), b[j]) > Joint(s.Term(i), a[j]) {
      HigherRateShifts(r, s, i, j);
    }
    RowLess(r.Term(i), b, s.Term(i), a, i, HomeWins);
  }

  lemma {:induction false} GridLess(r: Rate, s: Rate, n: nat)
    requires r.Valid() && s.Valid() && r.lam > s.lam && n <= MAX_GOALS + 1
    ensures var x, y := GridSum(r.Vector()[..n], s.Vector(), HomeWins), GridSum(s.Vector()[..n], r.Vector(), HomeWins);
            x >= y && (n > 1 ==> x > y)
  {
    if n > 0 {
      var i := n - 1;
      var a, b := r.Vector(), s.Vector();
      GridLess(r, s, i);
      assert a[..n][..i] == a[..i] && b[..n][..i] == b[..i];
      RateRowLess(r, s, i);
    }
  }

  /** The side with the higher goal rate, and only that side, is the likelier winner. */
  lemma FavouriteLeads(home: Rate, away: Rate, o: Outcome)
    requires home.Valid() && away.Valid() && Describes(o, home.Vector(), away.Vector())
    requires home.lam == away.lam ==> home.scale == away.scale
    ensures o.home > o.away <==> home.lam > away.lam
  {
    var a, b := home.Vector(), away.Vector();
    PositiveVector(home);
    PositiveVector(away);
    TransposedPicks(a, b);
    Partition(a, b);
    TotalPositive(a, b);
    ShareOrder(o.home, o.away, GridSum(a, b, AnyScore), GridSum(a, b, HomeWins), GridSum(a, b, AwayWins));
    assert a[..MAX_GOALS + 1] == a && b[..MAX_GOALS + 1] == b;
    if home.lam > away.lam {
      GridLess(home, away, MAX_GOALS + 1);
    } else if home.lam < away.lam {
      GridLess(away, home, MAX_GOALS + 1);
    }
  }
}
