/** What a finished dataset of backend/app/db/seed_historical_ticks.py looks like to its reader, in
    plain numbers: microseconds, thousandths of a price, names of books. */
module DatasetFacts {
  import opened Prelude
  import opened TickData
  import opened FixtureBuilder
  import opened DatasetBuilder
  import opened DatasetGenerator
  import PriceLadder
  import Sorting

  // ----- Where and in which currency -----

  /** The books' grids and currencies as the source lists them. */
  ghost predicate OnGrid(t: Tick) {
    match t.book
    case Pinnacle => t.odds >= 1010 && t.currency == USD
    case BetfairEx => PriceLadder.OnLadder(t.odds, PriceLadder.Betfair) && t.currency == GBP
    case WilliamHill => PriceLadder.OnLadder(t.odds, PriceLadder.Bookmaker) && t.currency == GBP
    case Unibet => PriceLadder.OnLadder(t.odds, PriceLadder.Bookmaker) && t.currency == EUR
  }

  lemma SoundIsOnGrid(t: Tick, fixture: nat, markets: seq<Market>)
    requires Sound(t, fixture, markets)
    ensures OnGrid(t)
    ensures if t.market == MatchOdds then t.selection in {Home, Draw, Away} else t.selection in {Over, Under}
  {
  }

  /** Every tick is on its book's grid, in its book's currency, about a runner of its market; and only
      the two soft books are ever suspended. */
  lemma EveryTick(d: Dataset, rows: nat, start: int, days: int, p: Plan, t: Tick)
    requires PlanFits(p, rows, start, days) && Promised(d, rows, start, days, p) && t in d.ticks
    ensures OnGrid(t) && (t.suspended ==> t.book == WilliamHill || t.book == Unibet)
    ensures if t.market == MatchOdds then t.selection in {Home, Draw, Away} else t.selection in {Over, Under}
  {
    hide PriceLadder.OnLadder, PlanFits, Complete, Sound, OnGrid;
    AllTicksHas(d.fixtures);
    Sorting.SameElements(d.ticks, AllTicks(d.fixtures));
    var i :| 0 <= i < |d.fixtures| && t in d.fixtures[i].ticks;
    assert Finished(d.fixtures[i], p.spans[i], p.first);
    SoundIsOnGrid(t, d.fixtures[i].id, d.fixtures[i].markets);
    if t.suspended {
      assert KeptAndFilled(d.fixtures[i], p.built[i], p.first);
      BuiltSuspensions(p, rows, start, days, i, t);
    }
  }

  lemma BuiltSuspensions(p: Plan, rows: nat, start: int, days: int, i: nat, t: Tick)
    requires PlanFits(p, rows, start, days) && i < |p.built| && t in p.built[i].ticks && t.suspended
    ensures t.book == WilliamHill || t.book == Unibet
  {
    hide AllWellBuilt, AllPolled, AllBelow, KickoffsFit, RepeatsLast;
    var ticks := p.built[i].ticks;
    assert SuspensionsRepeat(ticks);
    var n :| 0 <= n < |ticks| && ticks[n] == t;
  }

  // ----- When -----

  /** The first tick is at the very start, the last within the second after the last day; the first
      kick-off is a week after the start, the last a quarter of an hour after the last day, and every
      other one at 11:30, 14:00, 16:30, 19:00 or 19:45 of some day between. */
  lemma Calendar(d: Dataset, rows: nat, start: int, days: int, p: Plan)
    requires days >= 30 && PlanFits(p, rows, start, days) && Promised(d, rows, start, days, p)
    ensures |d.ticks| == rows && d.ticks != [] && d.ticks[0].at == start
    ensures 0 <= d.ticks[|d.ticks| - 1].at - (start + days * 86_400_000_000) < 1_000_000
    ensures |p.kickoffs| >= 2 && p.kickoffs[0] == start + 7 * 86_400_000_000
    ensures p.kickoffs[|p.kickoffs| - 1] == start + days * 86_400_000_000 + 900_000_000
    ensures forall i :: 0 < i < |p.kickoffs| - 1 ==>
              (p.kickoffs[i] - start) % 86_400_000_000 in
                {41_400_000_000, 50_400_000_000, 59_400_000_000, 68_400_000_000, 71_100_000_000}
              && start + 8 * 86_400_000_000 <= p.kickoffs[i] < start + days * 86_400_000_000
  {
    hide AllWellBuilt, AllPolled, AllBelow, AllRepeat, AllFinished, AllKeptAndFilled, NoMoreThanNeeded;
    forall i | 0 < i < |p.kickoffs| - 1
      ensures (p.kickoffs[i] - start) % 86_400_000_000 in
                {41_400_000_000, 50_400_000_000, 59_400_000_000, 68_400_000_000, 71_100_000_000}
              && start + 8 * 86_400_000_000 <= p.kickoffs[i] < start + days * 86_400_000_000
    {
      SlotOfDay(p.kickoffs[i], start, days);
    }
  }

  lemma SlotOfDay(kickoff: int, start: int, days: int)
    requires days >= 30 && OnSlot(kickoff, start + OPENING, days - 8)
    ensures (kickoff - start) % 86_400_000_000 in {41_400_000_000, 50_400_000_000, 59_400_000_000, 68_400_000_000, 71_100_000_000}
    ensures start + 8 * 86_400_000_000 <= kickoff < start + days * 86_400_000_000
  {
    var day, slot :| 1 <= day <= days - 8 && 0 <= slot < |SLOTS| && kickoff == SlotTime(start + OPENING, day, slot);
    var time := SLOTS[slot];
    assert time in {41_400_000_000, 50_400_000_000, 59_400_000_000, 68_400_000_000, 71_100_000_000};
    assert kickoff - start == (day + 7) * 86_400_000_000 + time;
    RestOfDay(day + 7, time);
  }

  lemma RestOfDay(day: int, time: int)
    requires 0 <= time < 86_400_000_000
    ensures (day * 86_400_000_000 + time) % 86_400_000_000 == time
  {
  }

  /** Every fixture has a complete open market of all four books in the second from a week before its
      kick-off, and again in the second from a quarter of an hour before it; only the first fixture's
      opening is moved, to the start. No tick of the fixture lies outside. */
  lemma OpensAndCloses(d: Dataset, rows: nat, start: int, days: int, p: Plan, i: nat, book: Book, selection: Selection)
    requires days >= 30 && PlanFits(p, rows, start, days) && Promised(d, rows, start, days, p)
    requires i < |d.fixtures| && selection in {Home, Draw, Away}
    ensures |d.fixtures| == |p.kickoffs| && d.fixtures[i].commence == p.kickoffs[i]
    ensures forall t :: t in d.fixtures[i].ticks ==> t.fixture == i
    ensures var k := d.fixtures[i].commence;
            && exists t :: t in d.fixtures[i].ticks && t.book == book && t.market == MatchOdds && t.selection == selection && !t.suspended
                 && 0 <= t.at - (k - 604_800_000_000) < 1_000_000
    ensures var k := d.fixtures[i].commence;
            && exists t :: t in d.fixtures[i].ticks && t.book == book && t.market == MatchOdds && t.selection == selection && !t.suspended
                 && 0 <= t.at - (k - 900_000_000) < 1_000_000
    ensures forall t :: t in d.fixtures[i].ticks ==>
              p.kickoffs[i] - 604_800_000_000 <= t.at < p.kickoffs[i] - 900_000_000 + 1_000_000
  {
    hide AllWellBuilt, AllPolled, AllBelow, AllRepeat, AllKeptAndFilled, NoMoreThanNeeded, KickoffsFit;
    var f, k := d.fixtures[i], Runner(book, MatchOdds, selection);
    assert SpanFits(p.spans[i], p.kickoffs[i]);
    assert Finished(f, p.spans[i], p.first) && IsKey(k, f.markets);
    assert Quoted(f.ticks, k, p.spans[i].opening, {}) && Quoted(f.ticks, k, p.spans[i].closing, {});
    var a :| a in f.ticks && a.Key() == k && a.at == p.spans[i].opening && !a.suspended;
    var z :| z in f.ticks && z.Key() == k && z.at == p.spans[i].closing && !z.suspended;
    assert a.book == book && a.market == MatchOdds && a.selection == selection;
    assert z.book == book && z.market == MatchOdds && z.selection == selection;
  }

  // ----- How many -----

  /** If everything built fits, it is all kept; else fewer than twenty ticks are fillers. */
  lemma FewFillersOrNoneLost(d: Dataset, rows: nat, start: int, days: int, p: Plan)
    requires PlanFits(p, rows, start, days) && Promised(d, rows, start, days, p)
    ensures TotalTicks(p.built) > rows ==> Fillers(d.fixtures, p.first) < 20
    ensures TotalTicks(p.built) <= rows ==> forall i, t :: 0 <= i < |p.built| && t in p.built[i].ticks ==> t in d.fixtures[i].ticks
  {
    hide AllWellBuilt, AllBelow, AllRepeat, AllFinished, AllKeptAndFilled, KickoffsFit, TotalTicks, Fillers, PolledInside;
    if TotalTicks(p.built) > rows {
      var i, s :| 0 <= i < |p.built| && s in p.built[i].snapshots && Fillers(d.fixtures, p.first) < |s|;
      assert Polled(p.built[i]);
    }
  }

  /** As many fixtures as 0.86 of the rows at 92 a fixture, to the nearest, and at least two. */
  lemma FixturesAsEstimated(rows: int)
    requires rows >= 500
    ensures FixtureCount(rows) >= 2
    ensures -0.5 <= FixtureCount(rows) as real - rows as real * 0.86 / 92.0 <= 0.5
  {
  }

  // ----- The final order -----

  function BookName(b: Book): string {
    match b
    case Pinnacle => "pinnacle"
    case BetfairEx => "betfair_ex_uk"
    case WilliamHill => "williamhill"
    case Unibet => "unibet_eu"
  }

  function MarketName(m: Market): string {
    match m
    case MatchOdds => "Match Odds"
    case Totals => "Over/Under 2.5"
  }

  function SelectionName(s: Selection): string {
    match s
    case Home => "HOME"
    case Draw => "DRAW"
    case Away => "AWAY"
    case Over => "OVER"
    case Under => "UNDER"
  }

  /** Strings in dictionary order, as the sort key compares them. */
  predicate Before(a: string, b: string) {
    a == "" || (b != "" && (a[0] < b[0] || (a[0] == b[0] && Before(a[1..], b[1..]))))
  }

  /** The ranks of the sort key order books, markets and selections as their names do. */
  lemma RanksFollowNames()
    ensures forall a, b: Book :: BookRank(a) <= BookRank(b) <==> Before(BookName(a), BookName(b))
    ensures forall a, b: Market :: MarketRank(a) <= MarketRank(b) <==> Before(MarketName(a), MarketName(b))
    ensures forall a, b: Selection :: SelectionRank(a) <= SelectionRank(b) <==> Before(SelectionName(a), SelectionName(b))
  {
    forall a, b: Book ensures BookRank(a) <= BookRank(b) <==> Before(BookName(a), BookName(b)) {
      FirstDecides(BookName(a), BookName(b));
    }
    forall a, b: Market ensures MarketRank(a) <= MarketRank(b) <==> Before(MarketName(a), MarketName(b)) {
      FirstDecides(MarketName(a), MarketName(b));
    }
    forall a, b: Selection ensures SelectionRank(a) <= SelectionRank(b) <==> Before(SelectionName(a), SelectionName(b)) {
      FirstDecides(SelectionName(a), SelectionName(b));
    }
  }

  /** No two of the names in use share their first letter. */
  lemma FirstDecides(a: string, b: string)
    requires a != "" && b != ""
    ensures a[0] != b[0] ==> (Before(a, b) <==> a[0] < b[0])
    ensures a == b ==> Before(a, b)
  {
    if a == b {
      BeforeItself(a);
    }
  }

  lemma {:induction false} BeforeItself(a: string)
    ensures Before(a, a)
  {
    if a != "" {
      BeforeItself(a[1..]);
    }
  }

  /** The source's sort key: time, then fixture, then the names of market, book and selection. */
  predicate KeyInOrder(a: Tick, b: Tick) {
    if a.at != b.at then a.at < b.at
    else if a.fixture != b.fixture then a.fixture < b.fixture
    else if a.market != b.market then Before(MarketName(a.market), MarketName(b.market))
    else if a.book != b.book then Before(BookName(a.book), BookName(b.book))
    else Before(SelectionName(a.selection), SelectionName(b.selection))
  }

  /** A finished dataset lists its ticks in the order of that key, and each of its fixtures in the order
      of time. */
  lemma InOrder(d: Dataset, rows: nat, start: int, days: int, p: Plan)
    requires Promised(d, rows, start, days, p)
    ensures forall i, j :: 0 <= i < j < |d.ticks| ==> KeyInOrder(d.ticks[i], d.ticks[j])
    ensures forall n, i, j :: 0 <= n < |d.fixtures| && 0 <= i < j < |d.fixtures[n].ticks| ==> d.fixtures[n].ticks[i].at <= d.fixtures[n].ticks[j].at
  {
    hide AllKeptAndFilled, NoMoreThanNeeded, Complete, FillersDerived, AllSound;
    forall i, j | 0 <= i < j < |d.ticks| ensures KeyInOrder(d.ticks[i], d.ticks[j]) {
      assert ByKey(d.ticks[i], d.ticks[j]);
      ByKeyIsKeyOrder(d.ticks[i], d.ticks[j]);
    }
    forall n, i, j | 0 <= n < |d.fixtures| && 0 <= i < j < |d.fixtures[n].ticks|
      ensures d.fixtures[n].ticks[i].at <= d.fixtures[n].ticks[j].at
    {
      assert Finished(d.fixtures[n], p.spans[n], p.first);
      assert ByTime(d.fixtures[n].ticks[i], d.fixtures[n].ticks[j]);
    }
  }

  lemma ByKeyIsKeyOrder(a: Tick, b: Tick)
    ensures ByKey(a, b) <==> KeyInOrder(a, b)
  {
    RanksFollowNames();
    hide Before;
  }

  /** The final order is stable: ticks with equal keys keep the order they had. */
  lemma TiesKeepOrder(ticks: seq<Tick>, t: Tick)
    ensures var same := (u: Tick) => ByKey(t, u) && ByKey(u, t);
            Sorting.Keep(Sorting.Sort(ticks, ByKey), same) == Sorting.Keep(ticks, same)
  {
    ByKeyIsOrder();
    Sorting.SortIsStable(ticks, ByKey, (u: Tick) => ByKey(t, u) && ByKey(u, t));
  }
}
