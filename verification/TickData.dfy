/** Ticks, fixtures and what keeps them well formed while backend/app/db/seed_historical_ticks.py
    builds a dataset. Times are whole microseconds, prices whole thousandths; `id` is the identity of
    a tick object, which the source compares when it trims a snapshot. */
module TickData {
  import opened Prelude
  import PriceLadder

  datatype Market = MatchOdds | Totals

  datatype Selection = Home | Draw | Away | Over | Under

  datatype Book = Pinnacle | BetfairEx | WilliamHill | Unibet

  datatype Currency = USD | GBP | EUR

  const BOOKS := [Pinnacle, BetfairEx, WilliamHill, Unibet]

  function Labels(market: Market): (labels: seq<Selection>)
    ensures 1 <= |labels| <= 3
  {
    match market
    case MatchOdds => [Home, Draw, Away]
    case Totals => [Over, Under]
  }

  function LadderOf(book: Book): PriceLadder.Ladder {
    match book
    case Pinnacle => PriceLadder.Cents
    case BetfairEx => PriceLadder.Betfair
    case _ => PriceLadder.Bookmaker
  }

  function CurrencyOf(book: Book): Currency {
    match book
    case Pinnacle => USD
    case Unibet => EUR
    case _ => GBP
  }

  predicate Sharp(book: Book) {
    book == Pinnacle || book == BetfairEx
  }

  const SECOND := 1_000_000
  const MINUTE := 60 * SECOND
  const HOUR := 60 * MINUTE
  const DAY := 24 * HOUR
  const JITTER := 999_000
  const OPENING := 168 * HOUR
  const CLOSING := 15 * MINUTE

  datatype Key = Runner(book: Book, market: Market, selection: Selection)

  datatype Tick = Tick(
    id: nat, fixture: nat, market: Market, selection: Selection, book: Book,
    odds: int, liquidity: int, currency: Currency, suspended: bool, at: int)
  {
    function Key(): Key {
      Runner(book, market, selection)
    }
  }

  /** The parts of a fixture that trimming and filling read or change. */
  datatype FixtureState = FixtureState(
    id: nat, commence: int, markets: seq<Market>, ticks: seq<Tick>, snapshots: seq<seq<Tick>>)

  // ----- Well-formed fixtures -----

  predicate IsKey(k: Key, markets: seq<Market>) {
    k.market in markets && k.selection in Labels(k.market)
  }

  /** On its book's ladder, in its book's currency, and one of its fixture's runners. */
  predicate Sound(t: Tick, fixture: nat, markets: seq<Market>) {
    && t.fixture == fixture && IsKey(t.Key(), markets)
    && PriceLadder.OnLadder(t.odds, LadderOf(t.book)) && t.currency == CurrencyOf(t.book)
  }

  ghost predicate AllSound(f: FixtureState) {
    forall t :: t in f.ticks ==> Sound(t, f.id, f.markets)
  }

  function Ids(ticks: seq<Tick>): set<nat> {
    set t | t in ticks :: t.id
  }

  ghost predicate DistinctIds(ticks: seq<Tick>) {
    forall i, j :: 0 <= i < j < |ticks| ==> ticks[i].id != ticks[j].id
  }

  function SnapshotIds(snapshots: seq<seq<Tick>>): set<nat> {
    if snapshots == [] then {} else SnapshotIds(snapshots[..|snapshots| - 1]) + Ids(snapshots[|snapshots| - 1])
  }

  /** A quote of `k` stamped `at` that no removable snapshot holds. */
  ghost predicate Quoted(ticks: seq<Tick>, k: Key, at: int, removable: set<nat>) {
    exists t :: t in ticks && t.Key() == k && t.at == at && !t.suspended && t.id !in removable
  }

  /** Every book quotes every runner at `at`. */
  ghost predicate Complete(ticks: seq<Tick>, markets: seq<Market>, at: int, removable: set<nat>) {
    forall k :: IsKey(k, markets) ==> Quoted(ticks, k, at, removable)
  }

  /** Snapshots are non-empty batches of the fixture's own ticks that do not overlap. */
  ghost predicate SnapshotsFit(f: FixtureState) {
    && (forall i :: 0 <= i < |f.snapshots| ==> f.snapshots[i] != [] && DistinctIds(f.snapshots[i]) && Ids(f.snapshots[i]) <= Ids(f.ticks))
    && (forall i, j :: 0 <= i < j < |f.snapshots| ==> Ids(f.snapshots[i]) !! Ids(f.snapshots[j]))
  }

  /** The first tick opens the fixture; every other one is of the same instant or at least a minute
      later, and none is later than `latest`. */
  ghost predicate Timed(ticks: seq<Tick>, opening: int, latest: int) {
    && ticks != [] && ticks[0].at == opening
    && forall t :: t in ticks ==> opening <= t.at <= latest && (t.at == opening || t.at >= opening + MINUTE)
  }

  ghost predicate Partial(f: FixtureState, opening: int, latest: int) {
    && Timed(f.ticks, opening, latest)
    && f.ticks[0].id !in SnapshotIds(f.snapshots)
    && DistinctIds(f.ticks) && AllSound(f) && SnapshotsFit(f)
    && MatchOdds in f.markets
    && Complete(f.ticks, f.markets, opening, SnapshotIds(f.snapshots))
  }

  ghost predicate WellBuilt(f: FixtureState, opening: int, closing: int) {
    && Partial(f, opening, closing)
    && Complete(f.ticks, f.markets, closing, SnapshotIds(f.snapshots))
    && closing >= opening + 2 * MINUTE + SECOND
  }

  // ----- Appending -----

  function Append(f: FixtureState, extra: seq<Tick>): FixtureState {
    f.(ticks := f.ticks + extra)
  }

  /** Identities handed out one after the other from `first`. */
  ghost predicate FreshFrom(ticks: seq<Tick>, first: nat) {
    forall i :: 0 <= i < |ticks| ==> ticks[i].id == first + i
  }

  ghost predicate IdsBelow(ticks: seq<Tick>, bound: nat) {
    forall t :: t in ticks ==> t.id < bound
  }

  lemma QuotedGrows(ticks: seq<Tick>, extra: seq<Tick>, k: Key, at: int, removable: set<nat>)
    requires Quoted(ticks, k, at, removable)
    ensures Quoted(ticks + extra, k, at, removable)
  {
    var t :| t in ticks && t.Key() == k && t.at == at && !t.suspended && t.id !in removable;
    assert t in ticks + extra;
  }

  lemma CompleteGrows(ticks: seq<Tick>, extra: seq<Tick>, markets: seq<Market>, at: int, removable: set<nat>)
    requires Complete(ticks, markets, at, removable)
    ensures Complete(ticks + extra, markets, at, removable)
  {
    forall k | IsKey(k, markets) ensures Quoted(ticks + extra, k, at, removable) {
      QuotedGrows(ticks, extra, k, at, removable);
    }
  }

  lemma DistinctGrows(ticks: seq<Tick>, extra: seq<Tick>, first: nat)
    requires DistinctIds(ticks) && IdsBelow(ticks, first) && FreshFrom(extra, first)
    ensures DistinctIds(ticks + extra) && IdsBelow(ticks + extra, first + |extra|)
  {
    var all := ticks + extra;
    forall i, j | 0 <= i < j < |all| ensures all[i].id != all[j].id {
      if i < |ticks| {
        assert all[i] in ticks;
      }
    }
    forall t | t in all ensures t.id < first + |extra| {
      if t !in ticks {
        assert t in extra;
      }
    }
  }

  lemma IdsGrow(ticks: seq<Tick>, extra: seq<Tick>)
    ensures Ids(ticks + extra) == Ids(ticks) + Ids(extra)
  {
    assert forall t :: t in ticks + extra <==> t in ticks || t in extra;
  }

  /** Appending fresh, sound and timely ticks keeps a fixture in order. */
  lemma AppendKeeps(f: FixtureState, extra: seq<Tick>, opening: int, latest: int, later: int, first: nat)
    requires Partial(f, opening, latest) && latest <= later
    requires IdsBelow(f.ticks, first) && FreshFrom(extra, first)
    requires forall t :: t in extra ==> Sound(t, f.id, f.markets) && opening + MINUTE <= t.at <= later
    ensures Partial(Append(f, extra), opening, later)
    ensures IdsBelow(Append(f, extra).ticks, first + |extra|)
  {
    DistinctGrows(f.ticks, extra, first);
    CompleteGrows(f.ticks, extra, f.markets, opening, SnapshotIds(f.snapshots));
    IdsGrow(f.ticks, extra);
    assert forall t :: t in f.ticks + extra <==> t in f.ticks || t in extra;
  }

  // ----- Dropping a snapshot -----

  function Without(ticks: seq<Tick>, dropped: set<nat>): seq<Tick> {
    if ticks == [] then []
    else
      var n := |ticks| - 1;
      var before := Without(ticks[..n], dropped);
      if ticks[n].id in dropped then before else before + [ticks[n]]
  }

  function RemoveAt<T>(s: seq<T>, j: nat): seq<T>
    requires j < |s|
  {
    s[..j] + s[j + 1..]
  }

  function Drop(f: FixtureState, j: nat): FixtureState
    requires j < |f.snapshots|
  {
    f.(ticks := Without(f.ticks, Ids(f.snapshots[j])), snapshots := RemoveAt(f.snapshots, j))
  }

  lemma {:induction false} WithoutHas(ticks: seq<Tick>, dropped: set<nat>)
    ensures forall t :: t in Without(ticks, dropped) <==> t in ticks && t.id !in dropped
    ensures ticks != [] && ticks[0].id !in dropped ==> Without(ticks, dropped) != [] && Without(ticks, dropped)[0] == ticks[0]
  {
    if ticks != [] {
      var n := |ticks| - 1;
      WithoutHas(ticks[..n], dropped);
      assert forall t :: t in ticks <==> t in ticks[..n] || t == ticks[n];
    }
  }

  lemma {:induction false} WithoutDistinct(ticks: seq<Tick>, dropped: set<nat>)
    requires DistinctIds(ticks)
    ensures DistinctIds(Without(ticks, dropped))
  {
    if ticks != [] {
      var n := |ticks| - 1;
      WithoutDistinct(ticks[..n], dropped);
      WithoutHas(ticks[..n], dropped);
      var before := Without(ticks[..n], dropped);
      forall i | 0 <= i < |before| ensures before[i].id != ticks[n].id {
        assert before[i] in ticks[..n];
      }
    }
  }

  lemma LastIdIsNew(ticks: seq<Tick>)
    requires DistinctIds(ticks) && ticks != []
    ensures var n := |ticks| - 1;
            ticks[n].id !in Ids(ticks[..n]) && Ids(ticks) == Ids(ticks[..n]) + {ticks[n].id}
  {
    var n := |ticks| - 1;
    var pre, last := ticks[..n], ticks[n];
    assert ticks == pre + [last];
    IdsGrow(pre, [last]);
    assert Ids([last]) == {last.id};
    forall t | t in pre ensures t.id != last.id {
      var i :| 0 <= i < n && pre[i] == t;
      assert ticks[i].id != ticks[n].id;
    }
  }

  lemma {:induction false} WithoutCounts(ticks: seq<Tick>, dropped: set<nat>)
    requires DistinctIds(ticks)
    ensures |Without(ticks, dropped)| == |ticks| - |dropped * Ids(ticks)|
  {
    if ticks != [] {
      var n := |ticks| - 1;
      var pre, last := ticks[..n], ticks[n];
      WithoutCounts(pre, dropped);
      LastIdIsNew(ticks);
      hide DistinctIds, Ids;
      if last.id in dropped {
        assert dropped * Ids(ticks) == dropped * Ids(pre) + {last.id};
      } else {
        assert dropped * Ids(ticks) == dropped * Ids(pre);
      }
    } else {
      assert dropped * Ids(ticks) == {};
    }
  }

  lemma {:induction false} IdsCount(ticks: seq<Tick>)
    requires DistinctIds(ticks)
    ensures |Ids(ticks)| == |ticks|
  {
    if ticks != [] {
      var n := |ticks| - 1;
      var pre, last := ticks[..n], ticks[n];
      IdsCount(pre);
      LastIdIsNew(ticks);
    }
  }

  lemma {:induction false} SnapshotIdsHas(snapshots: seq<seq<Tick>>, id: nat)
    ensures id in SnapshotIds(snapshots) <==> exists i :: 0 <= i < |snapshots| && id in Ids(snapshots[i])
  {
    if snapshots != [] {
      var n := |snapshots| - 1;
      SnapshotIdsHas(snapshots[..n], id);
      if id in SnapshotIds(snapshots[..n]) {
        var i :| 0 <= i < n && id in Ids(snapshots[..n][i]);
        assert id in Ids(snapshots[i]);
      }
      if i :| 0 <= i < |snapshots| && id in Ids(snapshots[i]) {
        if i < n {
          assert id in Ids(snapshots[..n][i]);
        }
      }
    }
  }

  lemma RemovedIds(snapshots: seq<seq<Tick>>, j: nat)
    requires j < |snapshots|
    ensures SnapshotIds(RemoveAt(snapshots, j)) <= SnapshotIds(snapshots)
    ensures Ids(snapshots[j]) <= SnapshotIds(snapshots)
  {
    var rest := RemoveAt(snapshots, j);
    forall id | id in SnapshotIds(rest) ensures id in SnapshotIds(snapshots) {
      SnapshotIdsHas(rest, id);
      SnapshotIdsHas(snapshots, id);
      var i :| 0 <= i < |rest| && id in Ids(rest[i]);
      assert id in Ids(snapshots[if i < j then i else i + 1]);
    }
    forall id | id in Ids(snapshots[j]) ensures id in SnapshotIds(snapshots) {
      SnapshotIdsHas(snapshots, id);
    }
  }

  lemma CompleteShrinks(ticks: seq<Tick>, markets: seq<Market>, at: int, removable: set<nat>, dropped: set<nat>, left: set<nat>)
    requires Complete(ticks, markets, at, removable) && dropped <= removable && left <= removable
    ensures Complete(Without(ticks, dropped), markets, at, left)
  {
    WithoutHas(ticks, dropped);
    forall k | IsKey(k, markets) ensures Quoted(Without(ticks, dropped), k, at, left) {
      assert Quoted(ticks, k, at, removable);
      var t :| t in ticks && t.Key() == k && t.at == at && !t.suspended && t.id !in removable;
      assert t in Without(ticks, dropped);
    }
  }

  lemma DropKeepsSnapshots(f: FixtureState, j: nat)
    requires SnapshotsFit(f) && j < |f.snapshots|
    ensures SnapshotsFit(Drop(f, j))
  {
    var d := Drop(f, j);
    WithoutHas(f.ticks, Ids(f.snapshots[j]));
    forall i | 0 <= i < |d.snapshots| ensures Ids(d.snapshots[i]) <= Ids(d.ticks) {
      var was := if i < j then i else i + 1;
      assert d.snapshots[i] == f.snapshots[was];
      assert Ids(f.snapshots[was]) !! Ids(f.snapshots[j]);
      forall id | id in Ids(d.snapshots[i]) ensures id in Ids(d.ticks) {
        assert id in Ids(f.ticks);
        var t :| t in f.ticks && t.id == id;
        assert t in d.ticks;
      }
    }
  }

  lemma DropCounts(f: FixtureState, j: nat)
    requires DistinctIds(f.ticks) && SnapshotsFit(f) && j < |f.snapshots|
    ensures |Drop(f, j).ticks| == |f.ticks| - |f.snapshots[j]|
  {
    var dropped := Ids(f.snapshots[j]);
    WithoutCounts(f.ticks, dropped);
    IdsCount(f.snapshots[j]);
    assert dropped * Ids(f.ticks) == dropped;
  }

  lemma DropKeepsPartial(f: FixtureState, j: nat, opening: int, latest: int)
    requires Partial(f, opening, latest) && j < |f.snapshots|
    ensures Partial(Drop(f, j), opening, latest)
  {
    var d, dropped := Drop(f, j), Ids(f.snapshots[j]);
    RemovedIds(f.snapshots, j);
    WithoutHas(f.ticks, dropped);
    WithoutDistinct(f.ticks, dropped);
    DropKeepsSnapshots(f, j);
    CompleteShrinks(f.ticks, f.markets, opening, SnapshotIds(f.snapshots), dropped, SnapshotIds(d.snapshots));
    assert Timed(d.ticks, opening, latest);
  }

  /** Trimming a snapshot takes away exactly its ticks and leaves a well-built fixture, with its
      opening and closing markets complete. */
  lemma DropKeeps(f: FixtureState, j: nat, opening: int, closing: int)
    requires WellBuilt(f, opening, closing) && j < |f.snapshots|
    ensures WellBuilt(Drop(f, j), opening, closing)
    ensures |Drop(f, j).ticks| == |f.ticks| - |f.snapshots[j]|
  {
    DropKeepsPartial(f, j, opening, closing);
    RemovedIds(f.snapshots, j);
    CompleteShrinks(f.ticks, f.markets, closing, SnapshotIds(f.snapshots), Ids(f.snapshots[j]), SnapshotIds(Drop(f, j).snapshots));
    DropCounts(f, j);
  }

  // ----- Counting -----

  function Lengths<T>(batches: seq<seq<T>>): nat {
    if batches == [] then 0 else Lengths(batches[..|batches| - 1]) + |batches[|batches| - 1]|
  }

  lemma {:induction false} LengthsRemove<T>(batches: seq<seq<T>>, j: nat)
    requires j < |batches|
    ensures Lengths(RemoveAt(batches, j)) == Lengths(batches) - |batches[j]|
  {
    var n := |batches| - 1;
    var rest := RemoveAt(batches, j);
    if j == n {
      assert rest == batches[..n];
    } else {
      LengthsRemove(batches[..n], j);
      assert rest[..n - 1] == RemoveAt(batches[..n], j);
    }
  }

  /** The ticks of a fixture that no snapshot can take away. */
  function Fixed(f: FixtureState): int {
    |f.ticks| - Lengths(f.snapshots)
  }

  function TotalTicks(fs: seq<FixtureState>): nat {
    if fs == [] then 0 else TotalTicks(fs[..|fs| - 1]) + |fs[|fs| - 1].ticks|
  }

  function TotalFixed(fs: seq<FixtureState>): int {
    if fs == [] then 0 else TotalFixed(fs[..|fs| - 1]) + Fixed(fs[|fs| - 1])
  }

  lemma {:induction false} TotalsUpdate(fs: seq<FixtureState>, i: nat, f: FixtureState)
    requires i < |fs|
    ensures TotalTicks(fs[i := f]) == TotalTicks(fs) - |fs[i].ticks| + |f.ticks|
    ensures TotalFixed(fs[i := f]) == TotalFixed(fs) - Fixed(fs[i]) + Fixed(f)
  {
    var n := |fs| - 1;
    if i == n {
      assert fs[i := f][..n] == fs[..n];
    } else {
      TotalsUpdate(fs[..n], i, f);
      assert fs[i := f][..n] == fs[..n][i := f];
    }
  }

  lemma {:induction false} NothingRemovable(fs: seq<FixtureState>)
    requires forall i :: 0 <= i < |fs| ==> fs[i].snapshots == []
    ensures TotalFixed(fs) == TotalTicks(fs)
  {
    if fs != [] {
      NothingRemovable(fs[..|fs| - 1]);
    }
  }

  lemma {:induction false} FixedAtMostTicks(fs: seq<FixtureState>)
    ensures TotalFixed(fs) <= TotalTicks(fs)
  {
    if fs != [] {
      FixedAtMostTicks(fs[..|fs| - 1]);
    }
  }

  // ----- Looking a runner up -----

  /** The tick of `k` that comes last in list order, of those stamped no later than `limit` if one
      is given. */
  function LastOf(ticks: seq<Tick>, k: Key, limit: Option<int>): (last: Option<Tick>)
    ensures last.Some? ==> last.value in ticks && last.value.Key() == k && (limit.Some? ==> last.value.at <= limit.value)
  {
    if ticks == [] then None
    else
      var n := |ticks| - 1;
      if ticks[n].Key() == k && (limit.None? || ticks[n].at <= limit.value) then Some(ticks[n])
      else LastOf(ticks[..n], k, limit)
  }

  lemma {:induction false} LastOfFinds(ticks: seq<Tick>, k: Key, limit: Option<int>, t: Tick)
    requires t in ticks && t.Key() == k && (limit.Some? ==> t.at <= limit.value)
    ensures LastOf(ticks, k, limit).Some?
  {
    var n := |ticks| - 1;
    if t != ticks[n] {
      assert t in ticks[..n];
      LastOfFinds(ticks[..n], k, limit, t);
    }
  }

  /** The opening snapshot has a price for every runner of every book at any later instant, so no
      lookup a suspension or a filler makes comes back empty. */
  lemma OpeningHasPrior(f: FixtureState, opening: int, latest: int, k: Key, limit: Option<int>)
    requires Partial(f, opening, latest) && IsKey(k, f.markets) && (limit.Some? ==> limit.value >= opening)
    ensures LastOf(f.ticks, k, limit).Some?
  {
    assert Quoted(f.ticks, k, opening, SnapshotIds(f.snapshots));
    var t :| t in f.ticks && t.Key() == k && t.at == opening && !t.suspended && t.id !in SnapshotIds(f.snapshots);
    LastOfFinds(f.ticks, k, limit, t);
  }
}
