/** The power margin of backend/app/db/seed_historical_ticks.py: a bisection for the exponent whose
    powers of the fair probabilities add up to a book sum. The power function is a parameter of
    which only a few laws of real powers are used. */
module PowerMargin {
  import opened Prelude
  import PriceLadder

  type Power = (real, real) -> real

  ghost predicate PowerLaws(pw: Power) {
    && (forall x, k :: x > 0.0 ==> pw(x, k) > 0.0)
    && (forall x :: x > 0.0 ==> pw(x, 1.0) == x)
    && (forall x, a, b :: 0.0 < x <= 1.0 && a <= b ==> pw(x, b) <= pw(x, a))
    && (forall x, y, k :: 0.0 < x <= y && k > 0.0 ==> pw(x, k) <= pw(y, k))
    && (forall x, y, k {:trigger pw(Product(x, y), k)} :: x > 0.0 && y > 0.0 ==> Product(pw(x, k), pw(y, k)) == pw(Product(x, y), k))
  }

  function Product(x: real, y: real): real {
    x * y
  }

  ghost predicate Fair(probs: seq<real>) {
    Sum(probs) == 1.0 && forall i :: 0 <= i < |probs| ==> 0.0 < probs[i] <= 1.0
  }

  function Powers(pw: Power, probs: seq<real>, k: real): (q: seq<real>)
    ensures |q| == |probs|
  {
    seq(|probs|, i requires 0 <= i < |probs| => pw(probs[i], k))
  }

  /** `steps` halvings of the interval that is thought to hold the exponent. */
  function Bisect(pw: Power, probs: seq<real>, booksum: real, lo: real, hi: real, steps: nat): (real, real)
    decreases steps
  {
    if steps == 0 then (lo, hi)
    else
      var k := (lo + hi) / 2.0;
      if Sum(Powers(pw, probs, k)) > booksum then Bisect(pw, probs, booksum, k, hi, steps - 1)
      else Bisect(pw, probs, booksum, lo, k, steps - 1)
  }

  const LOW := 0.3
  const HIGH := 1.0
  const STEPS := 60

  function Bracket(pw: Power, probs: seq<real>, booksum: real, steps: nat): (real, real) {
    Bisect(pw, probs, booksum, LOW, HIGH, steps)
  }

  function Exponent(pw: Power, probs: seq<real>, booksum: real, steps: nat): real {
    var (lo, hi) := Bracket(pw, probs, booksum, steps);
    (lo + hi) / 2.0
  }

  /** `w` doubled `n` times. */
  function Doubled(w: real, n: nat): real {
    if n == 0 then w else 2.0 * Doubled(w, n - 1)
  }

  lemma {:induction false} BisectHalves(pw: Power, probs: seq<real>, booksum: real, lo: real, hi: real, steps: nat)
    requires lo < hi
    ensures var (l, h) := Bisect(pw, probs, booksum, lo, hi, steps);
            lo <= l < h <= hi && Doubled(h - l, steps) == hi - lo
    decreases steps
  {
    if steps > 0 {
      var k := (lo + hi) / 2.0;
      if Sum(Powers(pw, probs, k)) > booksum {
        BisectHalves(pw, probs, booksum, k, hi, steps - 1);
      } else {
        BisectHalves(pw, probs, booksum, lo, k, steps - 1);
      }
    }
  }

  /** The bisection moves an end only to a point it has tested. */
  lemma {:induction false} BisectKeeps(pw: Power, probs: seq<real>, booksum: real, lo: real, hi: real, steps: nat)
    requires Sum(Powers(pw, probs, hi)) <= booksum
    ensures var (l, h) := Bisect(pw, probs, booksum, lo, hi, steps);
            && Sum(Powers(pw, probs, h)) <= booksum
            && (l == lo || Sum(Powers(pw, probs, l)) > booksum)
    decreases steps
  {
    if steps > 0 {
      var k := (lo + hi) / 2.0;
      if Sum(Powers(pw, probs, k)) > booksum {
        BisectKeeps(pw, probs, booksum, k, hi, steps - 1);
      } else {
        BisectKeeps(pw, probs, booksum, lo, k, steps - 1);
      }
    }
  }

  lemma {:induction false} SumMonotone(a: seq<real>, b: seq<real>)
    requires |a| == |b| && forall i :: 0 <= i < |a| ==> a[i] <= b[i]
    ensures Sum(a) <= Sum(b)
  {
    if a != [] {
      SumMonotone(a[..|a| - 1], b[..|b| - 1]);
    }
  }

  lemma PowersAntitone(pw: Power, probs: seq<real>, a: real, b: real)
    requires PowerLaws(pw) && Fair(probs) && a <= b
    ensures Sum(Powers(pw, probs, b)) <= Sum(Powers(pw, probs, a))
  {
    SumMonotone(Powers(pw, probs, b), Powers(pw, probs, a));
  }

  lemma PowersAtOne(pw: Power, probs: seq<real>)
    requires PowerLaws(pw) && Fair(probs)
    ensures Powers(pw, probs, 1.0) == probs
  {
  }

  /** The bracket's width doubled once per halving is 0.7, so it is 0.7 / 2^60 for the sixty the
      source makes, and the powers at its upper end never exceed the book sum. It brackets the book
      sum from below too, as the source promises, exactly when the lowest exponent it would consider
      already reaches it. */
  lemma BracketHolds(pw: Power, probs: seq<real>, booksum: real, steps: nat)
    requires PowerLaws(pw) && Fair(probs) && booksum >= 1.0
    ensures var (lo, hi) := Bracket(pw, probs, booksum, steps);
            && LOW <= lo < hi <= HIGH && Doubled(hi - lo, steps) == HIGH - LOW
            && Sum(Powers(pw, probs, hi)) <= booksum
            && (Sum(Powers(pw, probs, lo)) > booksum <==> Sum(Powers(pw, probs, LOW)) > booksum)
  {
    PowersAtOne(pw, probs);
    BisectHalves(pw, probs, booksum, LOW, HIGH, steps);
    BisectKeeps(pw, probs, booksum, LOW, HIGH, steps);
    var (lo, hi) := Bracket(pw, probs, booksum, steps);
    PowersAntitone(pw, probs, LOW, lo);
  }

  /** The returned margin lies between the two ends of the bracket and is never negative. */
  lemma ImpliedSum(pw: Power, probs: seq<real>, booksum: real, steps: nat)
    requires PowerLaws(pw) && Fair(probs) && booksum >= 1.0
    ensures var (lo, hi) := Bracket(pw, probs, booksum, steps);
            var total := Sum(Powers(pw, probs, Exponent(pw, probs, booksum, steps)));
            Sum(Powers(pw, probs, hi)) <= total <= Sum(Powers(pw, probs, lo)) && total >= 1.0
  {
    BracketHolds(pw, probs, booksum, steps);
    PowersAtOne(pw, probs);
    var (lo, hi) := Bracket(pw, probs, booksum, steps);
    var k := Exponent(pw, probs, booksum, steps);
    PowersAntitone(pw, probs, lo, k);
    PowersAntitone(pw, probs, k, hi);
    PowersAntitone(pw, probs, k, 1.0);
  }

  lemma OneRaised(pw: Power, k: real)
    requires PowerLaws(pw)
    ensures pw(1.0, k) == 1.0
  {
    PowerOfProduct(pw, 1.0, 1.0, k);
    hide PowerLaws;
    assert Product(1.0, 1.0) == 1.0;
    OwnSquare(pw(1.0, k));
  }

  lemma OwnSquare(x: real)
    requires x > 0.0 && Product(x, x) == x
    ensures x == 1.0
  {
    assert x * (x - 1.0) == 0.0;
  }

  // ----- How close the sum comes -----

  /** No power changes faster than `slope` times its exponent, over the exponents considered. */
  ghost predicate SlowInExponent(pw: Power, slope: real) {
    forall x, a, b :: 0.0 < x <= 1.0 && LOW <= a <= b <= HIGH ==> pw(x, a) <= pw(x, b) + Product(slope, b - a)
  }

  lemma {:induction false} SumGap(a: seq<real>, b: seq<real>, gap: real)
    requires |a| == |b| && forall i :: 0 <= i < |a| ==> a[i] <= b[i] + gap
    ensures Sum(a) <= Sum(b) + Product(|a| as real, gap)
  {
    if a != [] {
      var n := |a| - 1;
      SumGap(a[..n], b[..n], gap);
      OneMore(n, gap);
      hide Product;
    }
  }

  lemma OneMore(n: nat, gap: real)
    ensures Product((n + 1) as real, gap) == Product(n as real, gap) + gap
  {
  }

  /** Whenever the lowest exponent reaches the book sum, the returned probabilities add up to it as
      closely as the bracket's width allows: within the number of runners times the slope times a
      width that is 0.7 / 2^60 for the source's sixty halvings. */
  lemma MarginIsClose(pw: Power, probs: seq<real>, booksum: real, steps: nat, slope: real)
    requires PowerLaws(pw) && Fair(probs) && booksum >= 1.0 && SlowInExponent(pw, slope)
    requires Sum(Powers(pw, probs, LOW)) > booksum
    ensures var (lo, hi) := Bracket(pw, probs, booksum, steps);
            var total := Sum(Powers(pw, probs, Exponent(pw, probs, booksum, steps)));
            var reach := Product(|probs| as real, Product(slope, hi - lo));
            booksum - reach <= total <= booksum + reach && Doubled(hi - lo, steps) == HIGH - LOW
  {
    BracketHolds(pw, probs, booksum, steps);
    ImpliedSum(pw, probs, booksum, steps);
    var (lo, hi) := Bracket(pw, probs, booksum, steps);
    SumGap(Powers(pw, probs, lo), Powers(pw, probs, hi), Product(slope, hi - lo));
  }

  function TwoTo(n: nat): nat {
    if n == 0 then 1 else 2 * TwoTo(n - 1)
  }

  lemma {:induction false} DoubledScales(w: real, n: nat)
    ensures Doubled(w, n) == Product(TwoTo(n) as real, w)
  {
    if n > 0 {
      DoubledScales(w, n - 1);
      assert 2.0 * Product(TwoTo(n - 1) as real, w) == Product(TwoTo(n) as real, w);
    }
  }

  lemma {:induction false} TwoToAdds(m: nat, n: nat)
    ensures TwoTo(m + n) == TwoTo(m) * TwoTo(n)
  {
    if n > 0 {
      TwoToAdds(m, n - 1);
    }
  }

  lemma TwoToTwenty()
    ensures TwoTo(20) == 1048576
  {
    assert TwoTo(5) == 32;
    TwoToAdds(5, 5);
    TwoToAdds(10, 10);
  }

  /** Sixty doublings multiply by 2^60. */
  lemma SixtyDoublings(w: real)
    ensures Doubled(w, 60) == 1152921504606846976.0 * w
  {
    TwoToTwenty();
    hide Doubled, TwoTo;
    TwoToAdds(20, 20);
    TwoToAdds(40, 20);
    DoubledScales(w, 60);
  }

  /** How far the sum of the returned probabilities may lie from the book sum. */
  function Tolerance(runners: nat, slope: real): real {
    runners as real * slope * 0.7 / 1152921504606846976.0
  }

  lemma ReachIsTolerance(runners: nat, slope: real, width: real)
    requires 1152921504606846976.0 * width == 0.7
    ensures Product(runners as real, Product(slope, width)) == Tolerance(runners, slope)
  {
    assert width == 0.7 / 1152921504606846976.0;
  }

  lemma SixtyHalvingsAreClose(pw: Power, probs: seq<real>, booksum: real, slope: real)
    requires PowerLaws(pw) && Fair(probs) && booksum >= 1.0 && SlowInExponent(pw, slope)
    requires Sum(Powers(pw, probs, 0.3)) > booksum
    ensures var total := Sum(Powers(pw, probs, Exponent(pw, probs, booksum, STEPS)));
            booksum - Tolerance(|probs|, slope) <= total <= booksum + Tolerance(|probs|, slope)
  {
    hide PowerLaws, Fair, SlowInExponent, Powers, Bracket, Tolerance, Product;
    MarginIsClose(pw, probs, booksum, STEPS, slope);
    var (lo, hi) := Bracket(pw, probs, booksum, STEPS);
    SixtyDoublings(hi - lo);
    hide Doubled;
    ReachIsTolerance(|probs|, slope, hi - lo);
  }

  /** What the runners' chances, each raised to `k`, add up to. */
  function Raised(pw: Power, probs: seq<real>, k: real): real {
    if probs == [] then 0.0 else Raised(pw, probs[..|probs| - 1], k) + pw(probs[|probs| - 1], k)
  }

  /** Every runner's chance raised to the same exponent. */
  predicate EachRaised(q: seq<real>, pw: Power, probs: seq<real>, k: real) {
    |q| == |probs| && forall i :: 0 <= i < |probs| ==> q[i] == pw(probs[i], k)
  }

  lemma PowersRaiseEach(pw: Power, probs: seq<real>, k: real)
    ensures EachRaised(Powers(pw, probs, k), pw, probs, k)
  {
  }

  lemma {:induction false} RaisedIsSum(pw: Power, probs: seq<real>, k: real)
    ensures Raised(pw, probs, k) == Sum(Powers(pw, probs, k))
  {
    if probs != [] {
      RaisedIsSum(pw, probs[..|probs| - 1], k);
      assert Powers(pw, probs, k)[..|probs| - 1] == Powers(pw, probs[..|probs| - 1], k);
    }
  }

  /** Sixty halvings of the interval from 0.3 to 1. The result is the fair probabilities raised to one
      exponent of that interval, and whenever the exponent 0.3 reaches the book sum, the result adds
      up to it within the number of runners times the slope times 0.7 / 2^60. */
  method Implied(pw: Power, probs: seq<real>, booksum: real) returns (implied: seq<real>)
    ensures implied == Powers(pw, probs, Exponent(pw, probs, booksum, STEPS))
    ensures exists k :: 0.3 <= k <= 1.0 && EachRaised(implied, pw, probs, k)
    ensures forall slope :: PowerLaws(pw) && Fair(probs) && booksum >= 1.0 && SlowInExponent(pw, slope) && Raised(pw, probs, 0.3) > booksum
              ==> booksum - Tolerance(|probs|, slope) <= Sum(implied) <= booksum + Tolerance(|probs|, slope)
  {
    hide PowerLaws, Fair, SlowInExponent, Powers, Tolerance, Sum;
    var lo, hi := LOW, HIGH;
    for n := 0 to STEPS
      invariant Bisect(pw, probs, booksum, lo, hi, STEPS - n) == Bracket(pw, probs, booksum, STEPS)
      invariant 0.3 <= lo < hi <= 1.0
    {
      var k := (lo + hi) / 2.0;
      var powers := Powers(pw, probs, k);
      if Sum(powers) > booksum {
        lo := k;
      } else {
        hi := k;
      }
    }
    var k := (lo + hi) / 2.0;
    implied := Powers(pw, probs, k);
    assert k == Exponent(pw, probs, booksum, STEPS);
    PowersRaiseEach(pw, probs, k);
    RaisedIsSum(pw, probs, 0.3);
    hide Exponent, Raised;
    forall slope | PowerLaws(pw) && Fair(probs) && booksum >= 1.0 && SlowInExponent(pw, slope) && Raised(pw, probs, 0.3) > booksum
      ensures booksum - Tolerance(|probs|, slope) <= Sum(implied) <= booksum + Tolerance(|probs|, slope)
    {
      SixtyHalvingsAreClose(pw, probs, booksum, slope);
    }
  }

  // ----- An input that misses its book sum -----

  /** Exponents of one base add up. */
  ghost predicate ExponentsAdd(pw: Power) {
    forall x, a, b {:trigger Product(pw(x, a), pw(x, b))} :: x > 0.0 ==> Product(pw(x, a), pw(x, b)) == pw(x, a + b)
  }

  function Times(x: real, n: nat): (y: real)
    requires x > 0.0
    ensures y > 0.0
  {
    if n == 0 then 1.0 else Product(Times(x, n - 1), x)
  }

  /** `k` added up `n` times. */
  function Multiple(k: real, n: nat): real {
    if n == 0 then 0.0 else Multiple(k, n - 1) + k
  }

  lemma {:induction false} PowerOfTimes(pw: Power, x: real, n: nat, k: real)
    requires PowerLaws(pw) && x > 0.0
    ensures pw(x, k) > 0.0 && pw(Times(x, n), k) == Times(pw(x, k), n)
  {
    if n == 0 {
      OneRaised(pw, k);
    } else {
      PowerOfTimes(pw, x, n - 1, k);
      PowerOfProduct(pw, Times(x, n - 1), x, k);
      hide PowerLaws, Product;
    }
  }

  lemma {:induction false} TimesOfPower(pw: Power, x: real, n: nat, k: real)
    requires PowerLaws(pw) && ExponentsAdd(pw) && x > 0.0 && n >= 1
    ensures pw(x, k) > 0.0 && Times(pw(x, k), n) == pw(x, Multiple(k, n))
  {
    if n == 1 {
      assert Times(pw(x, k), 1) == Product(1.0, pw(x, k)) == pw(x, k);
    } else {
      TimesOfPower(pw, x, n - 1, k);
      hide PowerLaws, Product;
      assert Product(pw(x, Multiple(k, n - 1)), pw(x, k)) == pw(x, Multiple(k, n - 1) + k);
    }
  }

  const SIXTEENTH := 1.0 / 16.0

  /** One chance in 2^40. */
  const LONGSHOT := Times(SIXTEENTH, 10)

  /** 2^-40 to the power 0.3 is 2^-12. */
  lemma LongshotRaised(pw: Power)
    requires PowerLaws(pw) && ExponentsAdd(pw)
    ensures pw(LONGSHOT, LOW) == Times(SIXTEENTH, 3)
  {
    PowerOfTimes(pw, SIXTEENTH, 10, LOW);
    TimesOfPower(pw, SIXTEENTH, 10, LOW);
    TimesOfPower(pw, SIXTEENTH, 3, 1.0);
    TenTenths();
    assert pw(SIXTEENTH, 1.0) == SIXTEENTH;
    hide Times, Multiple, PowerLaws, ExponentsAdd;
  }

  lemma TenTenths()
    ensures Multiple(LOW, 10) == Multiple(1.0, 3)
  {
  }

  lemma LongshotSmall()
    ensures 0.0 < LONGSHOT <= Times(SIXTEENTH, 3) == 1.0 / 4096.0
  {
  }

  /** A favourite and two longshots. */
  function Longshots(p: real): (probs: seq<real>)
    ensures |probs| == 3
  {
    [1.0 - 2.0 * p, p, p]
  }

  lemma LongshotsFair(p: real)
    requires 0.0 < p < 0.5
    ensures Fair(Longshots(p))
  {
    SumOfThree(Longshots(p));
  }

  /** At the lowest exponent the favourite is worth at most 1, and each longshot its raised chance. */
  lemma LongshotsTotal(pw: Power, p: real)
    requires PowerLaws(pw) && 0.0 < p < 0.5
    ensures Sum(Powers(pw, Longshots(p), LOW)) <= 1.0 + 2.0 * pw(p, LOW)
  {
    SumOfThree(Powers(pw, Longshots(p), LOW));
    OneRaised(pw, LOW);
    RaisedInOrder(pw, 1.0 - 2.0 * p, 1.0, LOW);
    hide PowerLaws;
  }

  /** With two longshots of one chance in 2^40 each, a market of three runners cannot be brought to
      any book sum above 1 + 2^-11, so to none that a book of the source asks for, the least of which
      is 1.004. */
  lemma LongshotsMissBooksum(pw: Power, booksum: real, steps: nat)
    requires PowerLaws(pw) && ExponentsAdd(pw) && booksum >= 1.004
    ensures 0.0 < LONGSHOT < 0.5 && Fair(Longshots(LONGSHOT))
    ensures Sum(Powers(pw, Longshots(LONGSHOT), Exponent(pw, Longshots(LONGSHOT), booksum, steps))) <= 1.0 + 1.0 / 2048.0 < booksum
  {
    LongshotSmall();
    LongshotRaised(pw);
    hide Times, PowerLaws, ExponentsAdd, Longshots, Exponent, Powers, Sum, Fair;
    LongshotsFair(LONGSHOT);
    LongshotsTotal(pw, LONGSHOT);
    ExponentInRange(pw, Longshots(LONGSHOT), booksum, steps);
    PowersAntitone(pw, Longshots(LONGSHOT), LOW, Exponent(pw, Longshots(LONGSHOT), booksum, steps));
  }

  lemma SumOfThree(a: seq<real>)
    requires |a| == 3
    ensures Sum(a) == a[0] + a[1] + a[2]
  {
    assert Sum(a[..1]) == a[0] by {
      assert a[..1][..0] == [];
    }
    assert a[..2][..1] == a[..1];
    assert Sum(a[..2]) == Sum(a[..1]) + a[1];
  }

  // ----- The shape of the margin -----

  lemma ExponentInRange(pw: Power, probs: seq<real>, booksum: real, steps: nat)
    requires PowerLaws(pw) && Fair(probs) && booksum >= 1.0
    ensures LOW <= Exponent(pw, probs, booksum, steps) <= HIGH
  {
    BracketHolds(pw, probs, booksum, steps);
  }

  /** The implied probabilities keep the fair order, none is below its fair one, and the shorter a
      runner's chance the larger its share of the margin. */
  lemma MarginShape(pw: Power, probs: seq<real>, booksum: real, steps: nat, i: nat, j: nat)
    requires PowerLaws(pw) && Fair(probs) && booksum >= 1.0
    requires i < |probs| && j < |probs| && probs[i] <= probs[j]
    ensures var q := Powers(pw, probs, Exponent(pw, probs, booksum, steps));
            && probs[i] <= q[i] <= q[j]
            && Product(q[i], probs[j]) >= Product(q[j], probs[i])
  {
    ExponentInRange(pw, probs, booksum, steps);
    hide PowerLaws, Exponent, Product;
    PairShape(pw, probs[i], probs[j], Exponent(pw, probs, booksum, steps));
  }

  lemma RaisedNotBelow(pw: Power, x: real, k: real)
    requires PowerLaws(pw) && 0.0 < x <= 1.0 && 0.0 < k <= 1.0
    ensures x <= pw(x, k)
  {
    assert pw(x, 1.0) <= pw(x, k);
  }

  lemma RaisedInOrder(pw: Power, p: real, r: real, k: real)
    requires PowerLaws(pw) && 0.0 < p <= r && k > 0.0
    ensures pw(p, k) <= pw(r, k)
  {
  }

  lemma PowerOfProduct(pw: Power, x: real, r: real, k: real)
    requires PowerLaws(pw) && x > 0.0 && r > 0.0
    ensures Product(pw(x, k), pw(r, k)) == pw(Product(x, r), k) && pw(r, k) > 0.0
  {
    hide Product;
  }

  lemma PairShape(pw: Power, p: real, r: real, k: real)
    requires PowerLaws(pw) && 0.0 < p <= r <= 1.0 && 0.0 < k <= 1.0
    ensures p <= pw(p, k) <= pw(r, k)
    ensures Product(pw(p, k), r) >= Product(pw(r, k), p)
  {
    hide PowerLaws, Product;
    RaisedNotBelow(pw, p, k);
    RaisedInOrder(pw, p, r, k);
    var x := Ratio(p, r);
    RaisedNotBelow(pw, x, k);
    PowerOfProduct(pw, x, r, k);
    LongshotBias(pw(x, k), x, pw(r, k), r);
  }

  lemma Ratio(p: real, r: real) returns (x: real)
    requires 0.0 < p <= r
    ensures 0.0 < x <= 1.0 && Product(x, r) == p
  {
    x := p / r;
  }

  lemma LongshotBias(a: real, x: real, q: real, r: real)
    requires a >= x > 0.0 && q > 0.0 && r > 0.0
    ensures Product(Product(a, q), r) >= Product(q, Product(x, r))
  {
    var w := q * r;
    assert w > 0.0;
    assert (a - x) * w >= 0.0;
    assert (a - x) * w == a * w - x * w;
    assert Product(Product(a, q), r) == a * w;
    assert Product(q, Product(x, r)) == x * w;
  }

  // ----- Quoted prices -----

  /** The price, in thousandths, a book quotes for an implied probability. */
  function Quote(q: real, ladder: PriceLadder.Ladder): int
    requires q > 0.0
  {
    PriceLadder.RoundOdds(1000.0 / q, ladder)
  }

  lemma Reciprocal(p: real, q: real)
    requires 0.0 < p <= q
    ensures 1000.0 / q <= 1000.0 / p
  {
  }

  /** A quote is the best price of the book's ladder that the implied probability allows, taken as at
      least 1.01. So it never beats the fair price, unless that is below 1.01, which is then quoted. */
  lemma QuoteNeverBeatsFair(pw: Power, probs: seq<real>, booksum: real, steps: nat, i: nat, ladder: PriceLadder.Ladder)
    requires PowerLaws(pw) && Fair(probs) && booksum >= 1.0 && i < |probs|
    ensures var q := Powers(pw, probs, Exponent(pw, probs, booksum, steps))[i];
            && q > 0.0 && PriceLadder.IsGreatestBelow(Quote(q, ladder), Max(1000.0 / q, 1010.0), ladder)
            && Quote(q, ladder) as real <= Max(1000.0 / probs[i], 1010.0)
  {
    MarginShape(pw, probs, booksum, steps, i, i);
    var q := Powers(pw, probs, Exponent(pw, probs, booksum, steps))[i];
    hide PowerLaws, Exponent;
    Reciprocal(probs[i], q);
    PriceLadder.RoundsToGreatest(1000.0 / q, ladder);
  }

  /** The implied price is not below the floor of 1.01. */
  predicate ClearOfFloor(q: real) {
    q > 0.0 && 1000.0 / q >= PriceLadder.LOWEST as real
  }

  /** What the book keeps of one unit on a runner: the reciprocal of its price. */
  function Charge(q: real, ladder: PriceLadder.Ladder): real
    requires q > 0.0
  {
    PriceLadder.RoundsToGreatest(1000.0 / q, ladder);
    1000.0 / Quote(q, ladder) as real
  }

  lemma ChargeCovers(q: real, ladder: PriceLadder.Ladder)
    requires ClearOfFloor(q)
    ensures Charge(q, ladder) >= q
  {
    PriceLadder.RoundsToGreatest(1000.0 / q, ladder);
    var price := 1000.0 / q;
    Reciprocal(Quote(q, ladder) as real, price);
    BackAgain(q, price);
  }

  lemma BackAgain(q: real, price: real)
    requires q > 0.0 && price == 1000.0 / q
    ensures price > 0.0 && 1000.0 / price == q
  {
    assert price * q == 1000.0;
  }

  /** What a complete quote charges. */
  function Charged(q: seq<real>, ladder: PriceLadder.Ladder): real
    requires forall i :: 0 <= i < |q| ==> q[i] > 0.0
  {
    if q == [] then 0.0 else Charged(q[..|q| - 1], ladder) + Charge(q[|q| - 1], ladder)
  }

  lemma {:induction false} ChargedCovers(q: seq<real>, ladder: PriceLadder.Ladder)
    requires forall i :: 0 <= i < |q| ==> q[i] > 0.0 && ClearOfFloor(q[i])
    ensures Charged(q, ladder) >= Sum(q)
  {
    hide Charge, ClearOfFloor;
    if q != [] {
      ChargedCovers(q[..|q| - 1], ladder);
      ChargeCovers(q[|q| - 1], ladder);
    }
  }

  /** A complete quote is worth at least 100% to the book as long as no runner is so short that it
      meets the 1.01 floor. */
  lemma BookIsOverround(pw: Power, probs: seq<real>, booksum: real, steps: nat, ladder: PriceLadder.Ladder)
    requires PowerLaws(pw) && Fair(probs) && booksum >= 1.0
    requires var q := Powers(pw, probs, Exponent(pw, probs, booksum, steps));
             forall i :: 0 <= i < |q| ==> q[i] > 0.0 && ClearOfFloor(q[i])
    ensures Charged(Powers(pw, probs, Exponent(pw, probs, booksum, steps)), ladder) >= 1.0
  {
    hide PowerLaws, Exponent, ClearOfFloor, Charged;
    ImpliedSum(pw, probs, booksum, steps);
    ChargedCovers(Powers(pw, probs, Exponent(pw, probs, booksum, steps)), ladder);
  }
}
