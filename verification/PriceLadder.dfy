/** The price grids of backend/app/db/seed_historical_ticks.py. Prices are whole thousandths, which
    every grid in use divides; a quoted value is a real number of thousandths. */
module PriceLadder {
  import opened Prelude

  datatype Ladder = Betfair | Cents | Bookmaker

  const LOWEST := 1010
  const HIGHEST := 1000000

  /** The exchange's bands: below `ceiling`, prices move in `step`s. */
  datatype Band = Band(ceiling: int, step: int)

  const BETFAIR_BANDS := [
    Band(2000, 10), Band(3000, 20), Band(4000, 50), Band(6000, 100), Band(10000, 200),
    Band(20000, 500), Band(30000, 1000), Band(50000, 2000), Band(100000, 5000), Band(1000000, 10000)]

  /** The largest multiple of `step` that is not above `value`. */
  function FloorTo(value: real, step: int): int
    requires step > 0
  {
    (value / step as real).Floor * step
  }

  function MaxInt(a: int, b: int): int {
    if a >= b then a else b
  }

  function BetfairFrom(value: real, bands: seq<Band>): int
    requires forall b :: b in bands ==> b.step > 0
  {
    if bands == [] then HIGHEST
    else if value < bands[0].ceiling as real then MaxInt(LOWEST, FloorTo(value, bands[0].step))
    else BetfairFrom(value, bands[1..])
  }

  /** Down to the book's grid, with 1.01 as the least price. */
  function RoundOdds(odds: real, ladder: Ladder): int {
    var value := Max(odds, LOWEST as real);
    match ladder
    case Betfair => BetfairFrom(value, BETFAIR_BANDS)
    case Cents => MaxInt(LOWEST, value.Floor)
    case Bookmaker =>
      var step := if value < 4000.0 then 10 else if value < 10000.0 then 50 else 250;
      MaxInt(LOWEST, FloorTo(value, step))
  }

  // ----- The grids, defined without rounding -----

  function BookmakerStep(price: int): int {
    if price < 4000 then 10 else if price < 10000 then 50 else 250
  }

  /** Multiples of a band's step inside the band, and the top price. */
  predicate OnBands(price: int, bands: seq<Band>)
    requires forall b :: b in bands ==> b.step > 0
  {
    if bands == [] then price == HIGHEST
    else if price < bands[0].ceiling then price % bands[0].step == 0
    else OnBands(price, bands[1..])
  }

  predicate OnLadder(price: int, ladder: Ladder) {
    && price >= LOWEST
    && match ladder
       case Betfair => OnBands(price, BETFAIR_BANDS)
       case Cents => true
       case Bookmaker => price % BookmakerStep(price) == 0
  }

  /** `price` is the greatest price of the grid that is not above `value`. */
  ghost predicate IsGreatestBelow(price: int, value: real, ladder: Ladder) {
    && OnLadder(price, ladder)
    && price as real <= value
    && forall other :: OnLadder(other, ladder) && other as real <= value ==> other <= price
  }

  lemma Scale(q: real, x: real, value: real, s: real)
    requires s > 0.0 && q <= x < q + 1.0 && value == x * s
    ensures q * s <= value < q * s + s
  {
    var qs, d := q * s, q + 1.0 - x;
    var ds := d * s;
    assert ds > 0.0;
    assert d * s == (q + 1.0) * s - x * s;
    assert (q + 1.0) * s == qs + s;
    assert ds == qs + s - value;
    assert (x - q) * s == value - qs;
    assert qs <= value < qs + s;
  }

  lemma FloorToBounds(value: real, step: int)
    requires step > 0
    ensures FloorTo(value, step) as real <= value < FloorTo(value, step) as real + step as real
  {
    var x := value / step as real;
    var q := x.Floor;
    Scale(q as real, x, value, step as real);
    assert (q * step) as real == q as real * step as real;
  }

  lemma FloorToIsGreatestMultiple(value: real, step: int)
    requires step > 0
    ensures FloorTo(value, step) % step == 0
    ensures FloorTo(value, step) as real <= value < FloorTo(value, step) as real + step as real
    ensures forall m :: m % step == 0 && m as real <= value ==> m <= FloorTo(value, step)
  {
    FloorToBounds(value, step);
    var q := (value / step as real).Floor;
    MultipleMod(q, step);
    forall m | m % step == 0 && m as real <= value ensures m <= FloorTo(value, step) {
      NextMultiple(q, m, step);
    }
  }

  lemma Times(a: int, b: int, step: int)
    requires a <= b && step > 0
    ensures a * step <= b * step
  {
  }

  lemma MultipleMod(q: int, step: int)
    requires step > 0
    ensures (q * step) % step == 0
  {
    var d := (q * step) / step;
    assert (q * step) % step == q * step - d * step;
    if q < d {
      Times(q + 1, d, step);
    } else if q > d {
      Times(d + 1, q, step);
    }
  }

  lemma NextMultiple(q: int, m: int, step: int)
    requires step > 0 && m % step == 0
    ensures m <= q * step || m >= q * step + step
  {
    var p := m / step;
    assert m == p * step;
    if p <= q {
      Times(p, q, step);
    } else {
      Times(q + 1, p, step);
    }
  }

  /** Each band starts on its own grid where the one below ends. */
  predicate BandsFit(bands: seq<Band>, start: int) {
    if bands == [] then start == HIGHEST
    else bands[0].step > 0 && start % bands[0].step == 0 && start < bands[0].ceiling && BandsFit(bands[1..], bands[0].ceiling)
  }

  lemma UpperBandsFit()
    ensures BandsFit(BETFAIR_BANDS[5..], 10000)
  {
    var b := BETFAIR_BANDS;
    assert BandsFit(b[10..], 1000000);
    assert b[9..][1..] == b[10..] && BandsFit(b[9..], 100000);
    assert b[8..][1..] == b[9..] && BandsFit(b[8..], 50000);
    assert b[7..][1..] == b[8..] && BandsFit(b[7..], 30000);
    assert b[6..][1..] == b[7..] && BandsFit(b[6..], 20000);
    assert b[5..][1..] == b[6..];
  }

  lemma BetfairBandsFit()
    ensures BandsFit(BETFAIR_BANDS, LOWEST)
  {
    UpperBandsFit();
    var b := BETFAIR_BANDS;
    assert b[4..][1..] == b[5..] && BandsFit(b[4..], 6000);
    assert b[3..][1..] == b[4..] && BandsFit(b[3..], 4000);
    assert b[2..][1..] == b[3..] && BandsFit(b[2..], 3000);
    assert b[1..][1..] == b[2..] && BandsFit(b[1..], 2000);
    assert b[0..] == b && b[0..][1..] == b[1..];
  }

  /** The walk over a well-formed table finds the greatest grid price. */
  lemma {:induction false} WalkIsGreatest(value: real, bands: seq<Band>, start: int)
    requires BandsFit(bands, start) && start >= LOWEST && value >= start as real
    requires forall b :: b in bands ==> b.step > 0
    ensures var r := BetfairFrom(value, bands);
            && start <= r && r as real <= value && OnBands(r, bands)
            && forall other :: other as real <= value && OnBands(other, bands) ==> other <= r
  {
    if bands != [] {
      if value < bands[0].ceiling as real {
        FloorToIsGreatestMultiple(value, bands[0].step);
      } else {
        WalkIsGreatest(value, bands[1..], bands[0].ceiling);
      }
    }
  }

  lemma BookmakerIsGreatest(value: real)
    requires value >= LOWEST as real
    ensures IsGreatestBelow(RoundOdds(value, Bookmaker), value, Bookmaker)
  {
    var step := if value < 4000.0 then 10 else if value < 10000.0 then 50 else 250;
    FloorToIsGreatestMultiple(value, step);
    var r := FloorTo(value, step);
    assert r >= LOWEST && BookmakerStep(r) == step;
    forall other | OnLadder(other, Bookmaker) && other as real <= value ensures other <= r {
      if BookmakerStep(other) == step {
        assert other % step == 0;
      }
    }
  }

  /** `round_odds` gives the greatest grid price not above the odds, taken as at least 1.01. */
  lemma RoundsToGreatest(odds: real, ladder: Ladder)
    ensures IsGreatestBelow(RoundOdds(odds, ladder), Max(odds, LOWEST as real), ladder)
  {
    var value := Max(odds, LOWEST as real);
    match ladder
    case Betfair =>
      BetfairBandsFit();
      WalkIsGreatest(value, BETFAIR_BANDS, LOWEST);
    case Cents =>
    case Bookmaker => BookmakerIsGreatest(value);
  }

  lemma Monotone(a: real, b: real, ladder: Ladder)
    requires a <= b
    ensures RoundOdds(a, ladder) <= RoundOdds(b, ladder)
  {
    RoundsToGreatest(a, ladder);
    RoundsToGreatest(b, ladder);
  }

  /** A price is left alone exactly when it is on the grid. */
  lemma FixedPoints(price: int, ladder: Ladder)
    ensures RoundOdds(price as real, ladder) == price <==> OnLadder(price, ladder)
  {
    RoundsToGreatest(price as real, ladder);
  }

  lemma Idempotent(odds: real, ladder: Ladder)
    ensures RoundOdds(RoundOdds(odds, ladder) as real, ladder) == RoundOdds(odds, ladder)
  {
    RoundsToGreatest(odds, ladder);
    FixedPoints(RoundOdds(odds, ladder), ladder);
  }

  predicate Multiple(price: int, step: int, from: int, to: int)
    requires step > 0
  {
    from <= price < to && price % step == 0
  }

  lemma BandStep(price: int, k: nat)
    requires k < |BETFAIR_BANDS|
    ensures var b := BETFAIR_BANDS;
            OnBands(price, b[k..]) <==> if price < b[k].ceiling then price % b[k].step == 0 else OnBands(price, b[k + 1..])
  {
    assert BETFAIR_BANDS[k..][1..] == BETFAIR_BANDS[k + 1..];
  }

  /** The exchange's prices from 10.00 up, band by band. */
  lemma UpperGrid(price: int)
    requires price >= 10000
    ensures OnBands(price, BETFAIR_BANDS[5..]) <==>
      || Multiple(price, 500, 10000, 20000) || Multiple(price, 1000, 20000, 30000) || Multiple(price, 2000, 30000, 50000)
      || Multiple(price, 5000, 50000, 100000) || Multiple(price, 10000, 100000, 1000000) || price == 1000000
  {
    BandStep(price, 5);
    BandStep(price, 6);
    BandStep(price, 7);
    BandStep(price, 8);
    BandStep(price, 9);
    assert OnBands(price, BETFAIR_BANDS[10..]) <==> price == 1000000;
    hide OnBands;
  }

  lemma BetfairGrid(price: int)
    ensures OnBands(price, BETFAIR_BANDS) <==>
      if price < 10000 then
        price % (if price < 2000 then 10 else if price < 3000 then 20 else if price < 4000 then 50 else if price < 6000 then 100 else 200) == 0
      else OnBands(price, BETFAIR_BANDS[5..])
  {
    assert BETFAIR_BANDS[0..] == BETFAIR_BANDS;
    BandStep(price, 0);
    BandStep(price, 1);
    BandStep(price, 2);
    BandStep(price, 3);
    BandStep(price, 4);
    hide OnBands;
  }

  /** The three grids written out: every price from 1.01 in thousandths; hundredths below 4.00, then
      0.05 and from 10.00 on 0.25; and the exchange's ten bands up to 1000. */
  lemma Grids(price: int)
    ensures OnLadder(price, Cents) <==> price >= 1010
    ensures OnLadder(price, Bookmaker) <==>
      Multiple(price, 10, 1010, 4000) || Multiple(price, 50, 4000, 10000) || (price >= 10000 && price % 250 == 0)
    ensures OnLadder(price, Betfair) <==>
      || Multiple(price, 10, 1010, 2000) || Multiple(price, 20, 2000, 3000) || Multiple(price, 50, 3000, 4000)
      || Multiple(price, 100, 4000, 6000) || Multiple(price, 200, 6000, 10000)
      || Multiple(price, 500, 10000, 20000) || Multiple(price, 1000, 20000, 30000) || Multiple(price, 2000, 30000, 50000)
      || Multiple(price, 5000, 50000, 100000) || Multiple(price, 10000, 100000, 1000000) || price == 1000000
  {
    BetfairGrid(price);
    if price >= 10000 {
      UpperGrid(price);
    }
    hide OnBands;
  }

  /** The source's promise that a quoted price is never better than the fair one holds exactly for
      odds of at least 1.01; below that the floor price is quoted. */
  lemma NeverBetterIff(odds: real, ladder: Ladder)
    ensures RoundOdds(odds, ladder) as real <= odds <==> odds >= 1010.0
    ensures odds < 1010.0 ==> RoundOdds(odds, ladder) == 1010
  {
    RoundsToGreatest(odds, ladder);
  }
}
