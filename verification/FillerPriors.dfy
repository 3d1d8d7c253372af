/** What `_fill` of backend/app/db/seed_historical_ticks.py says of its re-quotes, that each nudges a
    book's own last price by up to 1.5%, against what it does: when the tick it starts from is the
    runner's latest one, and when the nudge stays within 1.5%. */
module FillerPriors {
  import opened Prelude
  import opened TickData
  import opened DatasetBuilder
  import PriceLadder

  // ----- Which tick comes last -----

  /** The lookup for instant `at` finds a tick than which no eligible tick of the runner is later. */
  ghost predicate LatestAt(ticks: seq<Tick>, k: Key, at: int) {
    var last := LastOf(ticks, k, Some(at));
    last.Some? ==> forall u :: u in ticks && u.Key() == k && u.at <= at ==> u.at <= last.value.at
  }

  /** The lookup is right for every instant up to `limit`. */
  ghost predicate GivesLatest(ticks: seq<Tick>, k: Key, limit: int) {
    forall at :: at <= limit ==> LatestAt(ticks, k, at)
  }

  /** At `j` stands a tick of the runner stamped `at`, and none after it is stamped earlier. */
  ghost predicate ClosesStamp(ticks: seq<Tick>, k: Key, at: int, j: nat) {
    && j < |ticks| && ticks[j].Key() == k && ticks[j].at == at
    && forall m :: j < m < |ticks| && ticks[m].Key() == k ==> ticks[m].at >= at
  }

  /** Every stamp of the runner up to `limit` is closed at or after each tick that bears it. */
  ghost predicate Settled(ticks: seq<Tick>, k: Key, limit: int) {
    forall i :: 0 <= i < |ticks| && ticks[i].Key() == k && ticks[i].at <= limit
      ==> exists j :: i <= j && ClosesStamp(ticks, k, ticks[i].at, j)
  }

  lemma {:induction false} LastOfAt(ticks: seq<Tick>, k: Key, at: int) returns (j: nat)
    requires LastOf(ticks, k, Some(at)).Some?
    ensures j < |ticks| && ticks[j] == LastOf(ticks, k, Some(at)).value
    ensures forall m :: j < m < |ticks| && ticks[m].Key() == k ==> ticks[m].at > at
  {
    var n := |ticks| - 1;
    if ticks[n].Key() == k && ticks[n].at <= at {
      j := n;
    } else {
      j := LastOfAt(ticks[..n], k, at);
    }
  }

  lemma LatestNeedsSettled(ticks: seq<Tick>, k: Key, limit: int)
    requires GivesLatest(ticks, k, limit)
    ensures Settled(ticks, k, limit)
  {
    hide LastOf;
    forall i | 0 <= i < |ticks| && ticks[i].Key() == k && ticks[i].at <= limit
      ensures exists j :: i <= j && ClosesStamp(ticks, k, ticks[i].at, j)
    {
      LastOfFinds(ticks, k, Some(ticks[i].at), ticks[i]);
      var j := LastOfAt(ticks, k, ticks[i].at);
      assert LatestAt(ticks, k, ticks[i].at);
      assert ClosesStamp(ticks, k, ticks[i].at, j);
    }
  }

  lemma ClosedIsNotLater(ticks: seq<Tick>, k: Key, stamp: int, j: nat, at: int, last: nat)
    requires ClosesStamp(ticks, k, stamp, j) && stamp <= at && last < |ticks| && ticks[last].Key() == k
    requires forall m :: last < m < |ticks| && ticks[m].Key() == k ==> ticks[m].at > at
    ensures stamp <= ticks[last].at
  {
  }

  lemma SettledGivesLatest(ticks: seq<Tick>, k: Key, limit: int)
    requires Settled(ticks, k, limit)
    ensures GivesLatest(ticks, k, limit)
  {
    hide LastOf, ClosesStamp;
    forall at | at <= limit ensures LatestAt(ticks, k, at) {
      if LastOf(ticks, k, Some(at)).Some? {
        var last := LastOfAt(ticks, k, at);
        forall u | u in ticks && u.Key() == k && u.at <= at ensures u.at <= ticks[last].at {
          var i :| 0 <= i < |ticks| && ticks[i] == u;
          var j :| i <= j && ClosesStamp(ticks, k, ticks[i].at, j);
          ClosedIsNotLater(ticks, k, u.at, j, at, last);
        }
      }
    }
  }

  /** The tick that comes last in the list is a latest one, for every instant up to `limit`, if and only
      if every stamp of the runner is closed. */
  lemma LatestIff(ticks: seq<Tick>, k: Key, limit: int)
    ensures GivesLatest(ticks, k, limit) <==> Settled(ticks, k, limit)
  {
    if GivesLatest(ticks, k, limit) {
      LatestNeedsSettled(ticks, k, limit);
    }
    if Settled(ticks, k, limit) {
      SettledGivesLatest(ticks, k, limit);
    }
  }

  /** A runner whose ticks are in time order is settled. */
  lemma SortedIsSettled(ticks: seq<Tick>, k: Key, limit: int)
    requires forall i, j :: 0 <= i < j < |ticks| && ticks[i].Key() == k && ticks[j].Key() == k ==> ticks[i].at <= ticks[j].at
    ensures Settled(ticks, k, limit) && GivesLatest(ticks, k, limit)
  {
    forall i | 0 <= i < |ticks| && ticks[i].Key() == k && ticks[i].at <= limit
      ensures exists j :: i <= j && ClosesStamp(ticks, k, ticks[i].at, j)
    {
      assert ClosesStamp(ticks, k, ticks[i].at, i);
    }
    SettledGivesLatest(ticks, k, limit);
  }

  /** No tick of the runner up to `limit` is stamped later than `at`. */
  ghost predicate NoneLater(ticks: seq<Tick>, k: Key, at: int, limit: int) {
    forall u :: u in ticks && u.Key() == k && u.at <= limit ==> u.at <= at
  }

  lemma StampStaysClosed(ticks: seq<Tick>, t: Tick, at: int, j: nat)
    requires ClosesStamp(ticks, t.Key(), at, j) && at <= t.at
    ensures ClosesStamp(ticks + [t], t.Key(), at, j)
  {
  }

  lemma LaterFillerSettles(ticks: seq<Tick>, t: Tick, limit: int)
    requires Settled(ticks, t.Key(), limit) && NoneLater(ticks, t.Key(), t.at, limit)
    ensures Settled(ticks + [t], t.Key(), limit)
  {
    var k, more := t.Key(), ticks + [t];
    assert ClosesStamp(more, k, t.at, |ticks|);
    forall i | 0 <= i < |more| && more[i].Key() == k && more[i].at <= limit
      ensures exists j :: i <= j && ClosesStamp(more, k, more[i].at, j)
    {
      if i < |ticks| {
        var j :| i <= j && ClosesStamp(ticks, k, ticks[i].at, j);
        hide ClosesStamp;
        assert ticks[i] in ticks;
        StampStaysClosed(ticks, t, ticks[i].at, j);
      }
    }
  }

  /** A filler leaves the lookup right, if it was, exactly when no tick of its runner up to `limit` is
      stamped later than the filler itself. */
  lemma FillerKeepsLatestIff(ticks: seq<Tick>, t: Tick, limit: int)
    requires GivesLatest(ticks, t.Key(), limit) && t.at <= limit
    ensures GivesLatest(ticks + [t], t.Key(), limit) <==> NoneLater(ticks, t.Key(), t.at, limit)
  {
    var k, more := t.Key(), ticks + [t];
    if GivesLatest(more, k, limit) {
      forall u | u in ticks && u.Key() == k && u.at <= limit ensures u.at <= t.at {
        var at := PriceLadder.MaxInt(u.at, t.at);
        LastOfAppended(ticks, t, at);
        assert LatestAt(more, k, at) && u in more;
      }
    }
    if NoneLater(ticks, k, t.at, limit) {
      LatestNeedsSettled(ticks, k, limit);
      LaterFillerSettles(ticks, t, limit);
      SettledGivesLatest(more, k, limit);
    }
  }

  lemma LastOfAppended(ticks: seq<Tick>, t: Tick, at: int)
    requires t.at <= at
    ensures LastOf(ticks + [t], t.Key(), Some(at)) == Some(t)
  {
  }

  // ----- A run in which it fails -----

  /** One round with every nudge neutral. */
  function Round(ticks: seq<Tick>, c: Choice, first: nat): (added: seq<Tick>)
    requires forall l :: l in c.selections ==> LastOf(ticks, Runner(c.book, c.market, l), Some(c.at)).Some?
    ensures |added| == |c.selections|
  {
    seq(|c.selections|, i requires 0 <= i < |c.selections| =>
      Nudge(LastOf(ticks, Runner(c.book, c.market, c.selections[i]), Some(c.at)).value, 1.0, first + i, c.at))
  }

  lemma RoundRequotes(ticks: seq<Tick>, c: Choice, first: nat)
    requires forall l :: l in c.selections ==> LastOf(ticks, Runner(c.book, c.market, l), Some(c.at)).Some?
    ensures Requotes(Round(ticks, c, first), ticks, c)
  {
    hide Nudge, LastOf, Filler;
    forall i | 0 <= i < |c.selections|
      ensures RequotesLast(Round(ticks, c, first)[i], ticks, Runner(c.book, c.market, c.selections[i]), c.at)
    {
      NudgeIsFiller(LastOf(ticks, Runner(c.book, c.market, c.selections[i]), Some(c.at)).value, 1.0, first + i, c.at);
    }
  }

  /** Three rounds that put five missing rows into one fixture: the match odds of the exchange, then its
      home price an instant earlier, then its home price once more at the first instant. */
  function Misled(span: Span): seq<Choice> {
    var at := span.opening + MINUTE;
    [Choice(BetfairEx, MatchOdds, Labels(MatchOdds), at + 1),
     Choice(BetfairEx, MatchOdds, [Home], at),
     Choice(BetfairEx, MatchOdds, [Home], at + 1)]
  }

  lemma StillFound(ticks: seq<Tick>, extra: seq<Tick>, k: Key, at: int)
    requires LastOf(ticks, k, Some(at)).Some?
    ensures LastOf(ticks + extra, k, Some(at)).Some?
  {
    var t := LastOf(ticks, k, Some(at)).value;
    assert t in ticks + extra;
    LastOfFinds(ticks + extra, k, Some(at), t);
  }

  lemma MisledFits(f: FixtureState, span: Span)
    requires WellBuilt(f, span.opening, span.closing)
    ensures var c := Misled(span);
            && ChoiceFits(c[0], f.markets, 5) && ChoiceFits(c[1], f.markets, 2) && ChoiceFits(c[2], f.markets, 1)
            && forall i :: 0 <= i < 3 ==> span.opening + MINUTE <= c[i].at <= span.closing - MINUTE
    ensures forall l :: l in Labels(MatchOdds) ==> LastOf(f.ticks, Runner(BetfairEx, MatchOdds, l), Some(span.opening + MINUTE + 1)).Some?
    ensures LastOf(f.ticks, EXCHANGE_HOME, Some(span.opening + MINUTE)).Some?
  {
    FillerSetup(f, span);
    hide LastOf;
    forall l | l in Labels(MatchOdds) ensures LastOf(f.ticks, Runner(BetfairEx, MatchOdds, l), Some(span.opening + MINUTE + 1)).Some? {
      PriorExists(f, span, Runner(BetfairEx, MatchOdds, l), span.opening + MINUTE + 1);
    }
    PriorExists(f, span, EXCHANGE_HOME, span.opening + MINUTE);
  }

  const EXCHANGE_HOME := Runner(BetfairEx, MatchOdds, Home)

  /** A round of one runner. */
  lemma OneRound(ticks: seq<Tick>, at: int, id: nat) returns (t: Tick)
    requires LastOf(ticks, EXCHANGE_HOME, Some(at)).Some?
    ensures Requotes([t], ticks, Choice(BetfairEx, MatchOdds, [Home], at))
    ensures t.Key() == EXCHANGE_HOME && t.at == at
  {
    var c := Choice(BetfairEx, MatchOdds, [Home], at);
    RoundRequotes(ticks, c, id);
    hide LastOf, Nudge;
    t := Round(ticks, c, id)[0];
    assert Round(ticks, c, id) == [t];
    assert RequotesLast(t, ticks, EXCHANGE_HOME, at);
  }

  lemma WholeMarketRound(ticks: seq<Tick>, at: int, first: nat) returns (added: seq<Tick>)
    requires forall l :: l in Labels(MatchOdds) ==> LastOf(ticks, Runner(BetfairEx, MatchOdds, l), Some(at)).Some?
    ensures |added| == 3 && Requotes(added, ticks, Choice(BetfairEx, MatchOdds, Labels(MatchOdds), at))
    ensures added[0].Key() == EXCHANGE_HOME && added[0].at == at
  {
    var c := Choice(BetfairEx, MatchOdds, Labels(MatchOdds), at);
    RoundRequotes(ticks, c, first);
    hide LastOf, Nudge;
    added := Round(ticks, c, first);
    assert RequotesLast(added[0], ticks, EXCHANGE_HOME, at);
  }

  /** In every well-built fixture the last price in the list need not be the latest one: three rounds the
      source may take, one after the other while five, two and one rows are missing, end with a filler
      that repeats the second round's price although the first round's is stamped later. */
  lemma LatestCanFail(f: FixtureState, span: Span, first: nat) returns (added: seq<Tick>, earlier: Tick, misled: Tick)
    requires WellBuilt(f, span.opening, span.closing)
    ensures var c := Misled(span);
            && ChoiceFits(c[0], f.markets, 5) && ChoiceFits(c[1], f.markets, 2) && ChoiceFits(c[2], f.markets, 1)
            && (forall i :: 0 <= i < 3 ==> span.opening + MINUTE <= c[i].at <= span.closing - MINUTE)
            && Requotes(added, f.ticks, c[0]) && Requotes([earlier], f.ticks + added, c[1])
            && Requotes([misled], f.ticks + added + [earlier], c[2])
    ensures |added| == 3 && added[0].Key() == earlier.Key() == misled.Key()
    ensures LastOf(f.ticks + added + [earlier], misled.Key(), Some(misled.at)) == Some(earlier)
    ensures earlier.at < added[0].at <= misled.at
    ensures !GivesLatest(f.ticks + added + [earlier], misled.Key(), span.closing - MINUTE)
  {
    var at := span.opening + MINUTE;
    MisledFits(f, span);
    hide WellBuilt, LastOf, Requotes, ChoiceFits;
    added := WholeMarketRound(f.ticks, at + 1, first);
    StillFound(f.ticks, added, EXCHANGE_HOME, at);
    earlier := OneRound(f.ticks + added, at, first + 3);
    var all := f.ticks + added + [earlier];
    LastOfAppended(f.ticks + added, earlier, at + 1);
    misled := OneRound(all, at + 1, first + 4);
    assert added[0] in added;
    NotLatest(all, added[0], EXCHANGE_HOME, at + 1);
  }

  lemma NotLatest(ticks: seq<Tick>, later: Tick, k: Key, limit: int)
    requires LastOf(ticks, k, Some(later.at)).Some? && LastOf(ticks, k, Some(later.at)).value.at < later.at
    requires later in ticks && later.Key() == k && later.at <= limit
    ensures forall l :: l >= limit ==> !GivesLatest(ticks, k, l)
  {
    assert !LatestAt(ticks, k, later.at);
  }

  // ----- How far a nudge goes -----

  /** At most 1.5% away from `prior`. */
  predicate Within(price: int, prior: int) {
    985 * prior <= 1000 * price <= 1015 * prior
  }

  lemma {:induction false} LeastFrom(ladder: PriceLadder.Ladder, bound: int, some: int) returns (least: int)
    requires PriceLadder.OnLadder(some, ladder) && some >= bound
    ensures PriceLadder.OnLadder(least, ladder) && bound <= least <= some
    ensures forall g :: PriceLadder.OnLadder(g, ladder) && g >= bound ==> g >= least
    decreases some - bound
  {
    hide PriceLadder.OnLadder;
    if g :| PriceLadder.OnLadder(g, ladder) && bound <= g < some {
      least := LeastFrom(ladder, bound, g);
    } else {
      least := some;
    }
  }

  /** For every price on a ladder there are two prices of that ladder, the least one not more than 1.5%
      below it and the least one more than 1.5% above it if there is any, between which the raw nudge
      must fall: exactly then the nudged price stays within 1.5%. */
  lemma NudgeThresholds(prior: int, ladder: PriceLadder.Ladder) returns (low: int, high: Option<int>)
    requires PriceLadder.OnLadder(prior, ladder)
    ensures PriceLadder.OnLadder(low, ladder) && 985 * prior <= 1000 * low <= 1000 * prior
    ensures high.Some? ==> PriceLadder.OnLadder(high.value, ladder) && 1000 * high.value > 1015 * prior
    ensures forall g :: PriceLadder.OnLadder(g, ladder) ==> !(985 * prior <= 1000 * g < 1000 * low)
    ensures forall g :: PriceLadder.OnLadder(g, ladder) && 1000 * g > 1015 * prior ==> high.Some? && g >= high.value
    ensures forall factor: real :: Within(NudgedPrice(prior, factor, ladder), prior) <==>
              (low as real <= RawNudge(prior, factor) && (high.Some? ==> RawNudge(prior, factor) < high.value as real))
  {
    assert prior >= PriceLadder.LOWEST;
    hide PriceLadder.OnLadder;
    low := LeastFrom(ladder, (985 * prior + 999) / 1000, prior);
    if g :| PriceLadder.OnLadder(g, ladder) && 1000 * g > 1015 * prior {
      var least := LeastFrom(ladder, 1015 * prior / 1000 + 1, g);
      high := Some(least);
    } else {
      high := None;
    }
    forall factor: real
      ensures Within(NudgedPrice(prior, factor, ladder), prior) <==>
        (low as real <= RawNudge(prior, factor) && (high.Some? ==> RawNudge(prior, factor) < high.value as real))
    {
      NudgeBetween(prior, factor, ladder, low, high);
    }
  }

  lemma NudgeBetween(prior: int, factor: real, ladder: PriceLadder.Ladder, low: int, high: Option<int>)
    requires PriceLadder.OnLadder(low, ladder) && 985 * prior <= 1000 * low
    requires high.Some? ==> PriceLadder.OnLadder(high.value, ladder) && 1000 * high.value > 1015 * prior
    requires forall g :: PriceLadder.OnLadder(g, ladder) && g < low ==> 1000 * g < 985 * prior
    requires forall g :: PriceLadder.OnLadder(g, ladder) && 1000 * g > 1015 * prior ==> high.Some? && g >= high.value
    ensures Within(NudgedPrice(prior, factor, ladder), prior) <==>
      (low as real <= RawNudge(prior, factor) && (high.Some? ==> RawNudge(prior, factor) < high.value as real))
  {
    PriceLadder.RoundsToGreatest(prior as real * factor, ladder);
    var price, raw := NudgedPrice(prior, factor, ladder), RawNudge(prior, factor);
    assert PriceLadder.IsGreatestBelow(price, raw, ladder);
    hide PriceLadder.OnLadder, PriceLadder.RoundOdds, NudgedPrice, RawNudge;
  }

  /** A factor of 1.02 moves a price by more than 1.5% even on the finest ladder, and on a coarse one even a
      factor of 0.9999 does, because the price falls to the next lower one of the ladder. */
  lemma NudgeCanExceed()
    ensures PriceLadder.OnLadder(2000, PriceLadder.Cents) && !Within(NudgedPrice(2000, 1.02, PriceLadder.Cents), 2000)
    ensures PriceLadder.OnLadder(10250, PriceLadder.Bookmaker) && !Within(NudgedPrice(10250, 0.9999, PriceLadder.Bookmaker), 10250)
  {
    assert NudgedPrice(10250, 0.9999, PriceLadder.Bookmaker) == 10000;
  }
}
