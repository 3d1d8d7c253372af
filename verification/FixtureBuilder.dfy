/** Building one fixture of backend/app/db/seed_historical_ticks.py: polls of every book, news bursts
    between them, suspensions, and which polls may be trimmed later. The random source is
    nondeterministic; prices and stakes are whatever it yields. */
module FixtureBuilder {
  import opened Prelude
  import opened TickData
  import PriceLadder

  /** The random source, together with the identities of the objects made so far. */
  class Source {
    var nextId: nat

    constructor ()
      ensures nextId == 0
    {
      nextId := 0;
    }

    method IntIn(low: int, high: int) returns (x: int)
      requires low <= high
      ensures low <= x <= high
    {
      x := *;
      if x < low || high < x {
        x := low;
      }
    }

    method Flip() returns (b: bool) {
      b := *;
    }

    method Real() returns (x: real) {
      x := *;
    }
  }

  class Fixture {
    const id: nat
    const commence: int
    const markets: seq<Market>
    var ticks: seq<Tick>
    var snapshots: seq<seq<Tick>>

    ghost function Value(): FixtureState
      reads this
    {
      FixtureState(id, commence, markets, ticks, snapshots)
    }

    constructor (id: nat, commence: int, markets: seq<Market>)
      ensures Value() == FixtureState(id, commence, markets, [], [])
    {
      this.id, this.commence, this.markets := id, commence, markets;
      ticks, snapshots := [], [];
    }
  }

  // ----- Quotes -----

  ghost predicate Offers(ticks: seq<Tick>, k: Key) {
    exists t :: t in ticks && t.Key() == k
  }

  ghost predicate QuoteOf(t: Tick, fixture: nat, markets: seq<Market>, at: int) {
    Sound(t, fixture, markets) && t.at == at && !t.suspended
  }

  /** The runners of one market in the order the source lists them. */
  function Runners(book: Book, market: Market, labels: seq<Selection>): (keys: seq<Key>)
    ensures |keys| == |labels|
  {
    seq(|labels|, i requires 0 <= i < |labels| => Runner(book, market, labels[i]))
  }

  function RunnersOf(book: Book, markets: seq<Market>): seq<Key> {
    if markets == [] then []
    else
      var n := |markets| - 1;
      RunnersOf(book, markets[..n]) + Runners(book, markets[n], Labels(markets[n]))
  }

  function KeysOf(ticks: seq<Tick>): (keys: seq<Key>)
    ensures |keys| == |ticks|
  {
    seq(|ticks|, i requires 0 <= i < |ticks| => ticks[i].Key())
  }

  lemma KeysGrow(ticks: seq<Tick>, extra: seq<Tick>)
    ensures KeysOf(ticks + extra) == KeysOf(ticks) + KeysOf(extra)
  {
  }

  lemma RunnersGrow(book: Book, market: Market, labels: seq<Selection>, j: nat)
    requires j < |labels|
    ensures Runners(book, market, labels[..j + 1]) == Runners(book, market, labels[..j]) + [Runner(book, market, labels[j])]
  {
  }

  /** The list of a book's runners leaves none out. */
  lemma {:induction false} EveryRunner(book: Book, markets: seq<Market>, k: Key)
    requires k.book == book && IsKey(k, markets)
    ensures k in RunnersOf(book, markets)
  {
    var n := |markets| - 1;
    if k.market == markets[n] {
      var j :| 0 <= j < |Labels(k.market)| && Labels(k.market)[j] == k.selection;
      assert Runners(book, markets[n], Labels(markets[n]))[j] == k;
    } else {
      assert k.market in markets[..n];
      EveryRunner(book, markets[..n], k);
    }
  }

  /** One book re-quotes every runner of the fixture, one tick each. */
  method Requote(src: Source, fixture: nat, markets: seq<Market>, book: Book, at: int) returns (ticks: seq<Tick>)
    modifies src
    ensures FreshFrom(ticks, old(src.nextId)) && src.nextId == old(src.nextId) + |ticks|
    ensures forall t :: t in ticks ==> QuoteOf(t, fixture, markets, at) && t.book == book
    ensures KeysOf(ticks) == RunnersOf(book, markets)
  {
    hide QuoteOf, Labels;
    ticks := [];
    for i := 0 to |markets|
      invariant FreshFrom(ticks, old(src.nextId)) && src.nextId == old(src.nextId) + |ticks|
      invariant forall t :: t in ticks ==> QuoteOf(t, fixture, markets, at) && t.book == book
      invariant KeysOf(ticks) == RunnersOf(book, markets[..i])
    {
      assert markets[..i + 1][..i] == markets[..i];
      var labels := Labels(markets[i]);
      ghost var keys := KeysOf(ticks);
      for j := 0 to |labels|
        invariant FreshFrom(ticks, old(src.nextId)) && src.nextId == old(src.nextId) + |ticks|
        invariant forall t :: t in ticks ==> QuoteOf(t, fixture, markets, at) && t.book == book
        invariant KeysOf(ticks) == keys + Runners(book, markets[i], labels[..j])
      {
        var tick := NewQuote(src, fixture, markets[i], labels[j], book, at);
        RunnersGrow(book, markets[i], labels, j);
        KeysGrow(ticks, [tick]);
        ticks := ticks + [tick];
      }
      assert labels[..|labels|] == labels;
    }
    assert markets[..|markets|] == markets;
  }

  /** Every runner of the book is among the re-quoted ones. */
  lemma QuotesOffer(ticks: seq<Tick>, book: Book, markets: seq<Market>, k: Key)
    requires KeysOf(ticks) == RunnersOf(book, markets) && k.book == book && IsKey(k, markets)
    ensures Offers(ticks, k)
  {
    EveryRunner(book, markets, k);
    var i :| 0 <= i < |ticks| && KeysOf(ticks)[i] == k;
    assert ticks[i] in ticks && ticks[i].Key() == k;
  }

  lemma OffersGrow(ticks: seq<Tick>, extra: seq<Tick>, k: Key)
    requires Offers(ticks, k) || Offers(extra, k)
    ensures Offers(ticks + extra, k)
  {
    if t :| t in ticks && t.Key() == k {
      assert t in ticks + extra;
    } else {
      var t :| t in extra && t.Key() == k;
      assert t in ticks + extra;
    }
  }

  /** A price on the book's ladder and a stake, from whatever the random source yields. */
  method NewQuote(src: Source, fixture: nat, market: Market, selection: Selection, book: Book, at: int) returns (tick: Tick)
    requires selection in Labels(market)
    modifies src
    ensures src.nextId == old(src.nextId) + 1 && tick.id == old(src.nextId)
    ensures tick.Key() == Runner(book, market, selection) && QuoteOf(tick, fixture, [market], at)
    ensures forall markets :: market in markets ==> QuoteOf(tick, fixture, markets, at)
  {
    var raw := src.Real();
    var liquidity := src.IntIn(0, 9_000_000_000);
    var odds := PriceLadder.RoundOdds(raw, LadderOf(book));
    PriceLadder.RoundsToGreatest(raw, LadderOf(book));
    tick := Tick(src.nextId, fixture, market, selection, book, odds, liquidity, CurrencyOf(book), false, at);
    src.nextId := src.nextId + 1;
  }

  function PollKeys(books: seq<Book>, markets: seq<Market>): seq<Key> {
    if books == [] then []
    else
      var n := |books| - 1;
      PollKeys(books[..n], markets) + RunnersOf(books[n], markets)
  }

  /** One tick for every runner of every book, all of one instant. */
  ghost predicate FullPoll(batch: seq<Tick>, fixture: nat, markets: seq<Market>, at: int) {
    && batch != [] && KeysOf(batch) == PollKeys(BOOKS, markets)
    && (forall t :: t in batch ==> QuoteOf(t, fixture, markets, at))
    && (forall k: Key :: IsKey(k, markets) ==> Offers(batch, k))
  }

  /** One poll: every book's market in the same fetch. */
  method Poll(src: Source, fixture: nat, markets: seq<Market>, at: int) returns (batch: seq<Tick>)
    requires MatchOdds in markets
    modifies src
    ensures FreshFrom(batch, old(src.nextId)) && src.nextId == old(src.nextId) + |batch|
    ensures FullPoll(batch, fixture, markets, at)
  {
    hide QuoteOf, IsKey, RunnersOf;
    batch := [];
    for b := 0 to |BOOKS|
      invariant FreshFrom(batch, old(src.nextId)) && src.nextId == old(src.nextId) + |batch|
      invariant forall t :: t in batch ==> QuoteOf(t, fixture, markets, at)
      invariant KeysOf(batch) == PollKeys(BOOKS[..b], markets)
      invariant forall k: Key :: k.book in BOOKS[..b] && IsKey(k, markets) ==> Offers(batch, k)
    {
      var ticks := Requote(src, fixture, markets, BOOKS[b], at);
      KeysGrow(batch, ticks);
      assert BOOKS[..b + 1][..b] == BOOKS[..b];
      forall k: Key | k.book in BOOKS[..b + 1] && IsKey(k, markets) ensures Offers(batch + ticks, k) {
        assert k.book == BOOKS[b] || k.book in BOOKS[..b];
        if k.book == BOOKS[b] {
          QuotesOffer(ticks, BOOKS[b], markets, k);
        }
        OffersGrow(batch, ticks, k);
      }
      batch := batch + ticks;
    }
    EveryBook();
    assert BOOKS[..|BOOKS|] == BOOKS;
    HomeIsKey(markets);
    assert Offers(batch, Runner(Pinnacle, MatchOdds, Home));
  }

  lemma HomeIsKey(markets: seq<Market>)
    requires MatchOdds in markets
    ensures IsKey(Runner(Pinnacle, MatchOdds, Home), markets)
  {
  }

  lemma EveryBook()
    ensures forall b: Book :: b in BOOKS[..|BOOKS|]
  {
    assert BOOKS[..|BOOKS|] == BOOKS;
    forall b: Book ensures b in BOOKS {
      match b
      case Pinnacle => assert BOOKS[0] == b;
      case BetfairEx => assert BOOKS[1] == b;
      case WilliamHill => assert BOOKS[2] == b;
      case Unibet => assert BOOKS[3] == b;
    }
  }

  /** The book's last price and stake for the runner, in list order. */
  ghost predicate RepeatsLast(t: Tick, ticks: seq<Tick>) {
    var last := LastOf(ticks, t.Key(), None);
    last.Some? && t.odds == last.value.odds && t.liquidity == last.value.liquidity
  }

  /** Every suspended tick is a soft book's and repeats that book's last price and stake of the runner
      in the list before it. */
  ghost predicate SuspensionsRepeat(ticks: seq<Tick>) {
    forall i :: 0 <= i < |ticks| && ticks[i].suspended ==> !Sharp(ticks[i].book) && RepeatsLast(ticks[i], ticks[..i])
  }

  lemma OpenTicksGrow(ticks: seq<Tick>, extra: seq<Tick>)
    requires SuspensionsRepeat(ticks) && forall t :: t in extra ==> !t.suspended
    ensures SuspensionsRepeat(ticks + extra)
  {
    var all := ticks + extra;
    assert forall i :: |ticks| <= i < |all| ==> all[i] in extra;
    forall i | 0 <= i < |all| && all[i].suspended ensures !Sharp(all[i].book) && RepeatsLast(all[i], all[..i]) {
      assert all[..i] == ticks[..i];
    }
  }

  /** Ticks that repeat the same last prices hide none of them. */
  lemma {:induction false} RepeatsThrough(before: seq<Tick>, block: seq<Tick>, t: Tick)
    requires RepeatsLast(t, before) && forall b :: b in block ==> RepeatsLast(b, before)
    ensures RepeatsLast(t, before + block)
  {
    if block == [] {
      assert before + block == before;
    } else {
      var n := |block| - 1;
      RepeatsThrough(before, block[..n], t);
      assert (before + block)[..|before| + n] == before + block[..n];
      assert block[n] in block;
    }
  }

  lemma FrozenTicksGrow(ticks: seq<Tick>, frozen: seq<Tick>)
    requires SuspensionsRepeat(ticks) && forall t :: t in frozen ==> !Sharp(t.book) && RepeatsLast(t, ticks)
    ensures SuspensionsRepeat(ticks + frozen)
  {
    hide RepeatsLast;
    var all := ticks + frozen;
    forall i | 0 <= i < |all| && all[i].suspended ensures !Sharp(all[i].book) && RepeatsLast(all[i], all[..i]) {
      if i < |ticks| {
        assert all[..i] == ticks[..i];
      } else {
        assert all[i] in frozen && all[..i] == ticks + frozen[..i - |ticks|];
        RepeatsThrough(ticks, frozen[..i - |ticks|], all[i]);
      }
    }
  }

  /** A soft book's last price of one runner again, marked suspended. */
  method Frozen(src: Source, f: Fixture, k: Key, pause: int, ghost opening: int, ghost latest: int) returns (tick: Tick)
    requires Partial(f.Value(), opening, latest) && IsKey(k, f.markets)
    modifies src
    ensures tick.id == old(src.nextId) && src.nextId == old(src.nextId) + 1
    ensures tick.Key() == k && FrozenTick(tick, f.ticks, f.id, f.markets, pause)
  {
    OpeningHasPrior(f.Value(), opening, latest, k, None);
    var prior := LastOf(f.ticks, k, None).value;
    assert Sound(prior, f.id, f.markets);
    tick := Tick(src.nextId, f.id, k.market, k.selection, k.book, prior.odds, prior.liquidity, CurrencyOf(k.book), true, pause);
    src.nextId := src.nextId + 1;
  }

  ghost predicate FrozenTick(t: Tick, ticks: seq<Tick>, fixture: nat, markets: seq<Market>, pause: int) {
    Sound(t, fixture, markets) && t.suspended && t.at == pause && RepeatsLast(t, ticks)
  }

  /** A soft book suspends: its last price of every runner again, marked suspended, one tick per
      runner. The lookups cannot miss, because the opening poll quoted every runner. */
  method Suspend(src: Source, f: Fixture, book: Book, pause: int, ghost opening: int, ghost latest: int) returns (ticks: seq<Tick>)
    requires Partial(f.Value(), opening, latest)
    modifies src
    ensures FreshFrom(ticks, old(src.nextId)) && src.nextId == old(src.nextId) + |ticks|
    ensures forall t :: t in ticks ==> t.book == book && FrozenTick(t, f.ticks, f.id, f.markets, pause)
    ensures KeysOf(ticks) == RunnersOf(book, f.markets)
  {
    hide Partial, FrozenTick, RepeatsLast, LastOf, Labels;
    ticks := [];
    for i := 0 to |f.markets|
      invariant FreshFrom(ticks, old(src.nextId)) && src.nextId == old(src.nextId) + |ticks|
      invariant forall t :: t in ticks ==> t.book == book && FrozenTick(t, f.ticks, f.id, f.markets, pause)
      invariant KeysOf(ticks) == RunnersOf(book, f.markets[..i])
    {
      assert f.markets[..i + 1][..i] == f.markets[..i];
      var market := f.markets[i];
      var labels := Labels(market);
      ghost var keys := KeysOf(ticks);
      for j := 0 to |labels|
        invariant FreshFrom(ticks, old(src.nextId)) && src.nextId == old(src.nextId) + |ticks|
        invariant forall t :: t in ticks ==> t.book == book && FrozenTick(t, f.ticks, f.id, f.markets, pause)
        invariant KeysOf(ticks) == keys + Runners(book, market, labels[..j])
      {
        assert market in f.markets && labels[j] in labels;
        var tick := Frozen(src, f, Runner(book, market, labels[j]), pause, opening, latest);
        RunnersGrow(book, market, labels, j);
        KeysGrow(ticks, [tick]);
        ticks := ticks + [tick];
      }
      assert labels[..|labels|] == labels;
    }
    assert f.markets[..|f.markets|] == f.markets;
  }

  // ----- News -----

  const SHORTEST_GAP := 45 * MINUTE

  /** What news adds: sound ticks strictly between two polls, suspended ones of soft books only. */
  ghost predicate NewsTick(t: Tick, fixture: nat, markets: seq<Market>, low: int, at: int) {
    Sound(t, fixture, markets) && low < t.at < at && (t.suspended ==> !Sharp(t.book))
  }

  ghost predicate NewsSince(f: FixtureState, from: nat, low: int, at: int) {
    from <= |f.ticks| && forall i :: from <= i < |f.ticks| ==> NewsTick(f.ticks[i], f.id, f.markets, low, at)
  }

  /** Append what news made. */
  method AddNews(src: Source, f: Fixture, ticks: seq<Tick>, ghost opening: int, ghost low: int, ghost at: int)
    requires Partial(f.Value(), opening, at) && opening + MINUTE <= low
    requires |ticks| <= src.nextId && FreshFrom(ticks, src.nextId - |ticks|) && IdsBelow(f.ticks, src.nextId - |ticks|)
    requires forall t :: t in ticks ==> NewsTick(t, f.id, f.markets, low, at)
    modifies f`ticks
    ensures f.ticks == old(f.ticks) + ticks
    ensures Partial(f.Value(), opening, at) && IdsBelow(f.ticks, src.nextId)
  {
    AppendKeeps(f.Value(), ticks, opening, at, at, src.nextId - |ticks|);
    f.ticks := f.ticks + ticks;
  }

  /** What one book takes from the random source at a news burst: whether it would suspend, how long
      after the news, and after how long it re-quotes. */
  datatype NewsDraw = NewsDraw(suspends: bool, wait: int, lag: int) {
    predicate Valid() {
      500_000 <= wait <= 2_500_000 && 400_000 <= lag <= 900_000_000
    }
  }

  /** A soft book suspends within seconds of the news if its draw says so. */
  method FreezeForNews(src: Source, f: Fixture, book: Book, draw: NewsDraw, newsAt: int, at: int, ghost opening: int, ghost low: int)
    returns (frozen: seq<Tick>)
    requires Partial(f.Value(), opening, at) && IdsBelow(f.ticks, src.nextId) && draw.Valid()
    requires opening + MINUTE <= low < newsAt < at - 3 * SECOND
    modifies src, f`ticks
    ensures Partial(f.Value(), opening, at) && IdsBelow(f.ticks, src.nextId) && src.nextId >= old(src.nextId)
    ensures f.ticks == old(f.ticks) + frozen && forall t :: t in frozen ==> NewsTick(t, f.id, f.markets, low, at)
    ensures if !Sharp(book) && draw.suspends then KeysOf(frozen) == RunnersOf(book, f.markets) else frozen == []
    ensures forall t :: t in frozen ==> t.suspended && t.book == book && t.at == newsAt + draw.wait && RepeatsLast(t, old(f.ticks))
  {
    hide Partial, IdsBelow, Sound, RunnersOf, RepeatsLast;
    frozen := [];
    if !Sharp(book) && draw.suspends {
      frozen := Suspend(src, f, book, newsAt + draw.wait, opening, at);
      AddNews(src, f, frozen, opening, low, at);
    }
  }

  /** A book re-quotes every runner, unless its lag would carry it past the next poll. */
  method RequoteForNews(src: Source, f: Fixture, book: Book, draw: NewsDraw, newsAt: int, at: int, ghost opening: int, ghost low: int)
    returns (quotes: seq<Tick>)
    requires Partial(f.Value(), opening, at) && IdsBelow(f.ticks, src.nextId) && draw.Valid()
    requires opening + MINUTE <= low < newsAt
    modifies src, f`ticks
    ensures Partial(f.Value(), opening, at) && IdsBelow(f.ticks, src.nextId) && src.nextId >= old(src.nextId)
    ensures f.ticks == old(f.ticks) + quotes && forall t :: t in quotes ==> NewsTick(t, f.id, f.markets, low, at)
    ensures if newsAt + draw.lag < at then KeysOf(quotes) == RunnersOf(book, f.markets) else quotes == []
    ensures forall t :: t in quotes ==> !t.suspended && t.at == newsAt + draw.lag
  {
    hide Partial, IdsBelow, Sound, RunnersOf;
    quotes := [];
    var requoteAt := newsAt + draw.lag;
    if requoteAt < at {
      quotes := Requote(src, f.id, f.markets, book, requoteAt);
      AddNews(src, f, quotes, opening, low, at);
    }
  }

  /** One book at a news burst: its suspension, if any, then its new prices, if they come in time. */
  method NewsForBook(src: Source, f: Fixture, book: Book, draw: NewsDraw, newsAt: int, at: int, ghost opening: int, ghost low: int)
    returns (frozen: seq<Tick>, quotes: seq<Tick>)
    requires Partial(f.Value(), opening, at) && IdsBelow(f.ticks, src.nextId) && SuspensionsRepeat(f.ticks) && draw.Valid()
    requires opening + MINUTE <= low < newsAt < at - 3 * SECOND
    modifies src, f`ticks
    ensures Partial(f.Value(), opening, at) && IdsBelow(f.ticks, src.nextId) && src.nextId >= old(src.nextId)
    ensures f.ticks == old(f.ticks) + (frozen + quotes) && NewsSince(f.Value(), |old(f.ticks)|, low, at)
    ensures if !Sharp(book) && draw.suspends then KeysOf(frozen) == RunnersOf(book, f.markets) else frozen == []
    ensures if newsAt + draw.lag < at then KeysOf(quotes) == RunnersOf(book, f.markets) else quotes == []
    ensures forall t :: t in frozen ==> t.suspended && t.at == newsAt + draw.wait
    ensures forall t :: t in quotes ==> !t.suspended && t.at == newsAt + draw.lag
    ensures SuspensionsRepeat(f.ticks)
  {
    hide Partial, IdsBelow, NewsTick, RunnersOf, KeysOf, SuspensionsRepeat, RepeatsLast;
    ghost var before := f.ticks;
    frozen := FreezeForNews(src, f, book, draw, newsAt, at, opening, low);
    FrozenTicksGrow(before, frozen);
    quotes := RequoteForNews(src, f, book, draw, newsAt, at, opening, low);
    OpenTicksGrow(before + frozen, quotes);
    assert f.ticks == before + (frozen + quotes);
  }

  /** News between two polls reaches every book in turn. */
  method News(src: Source, f: Fixture, at: int, gap: int, ghost opening: int, ghost latest: int)
    requires Partial(f.Value(), opening, latest) && IdsBelow(f.ticks, src.nextId) && SuspensionsRepeat(f.ticks)
    requires gap >= SHORTEST_GAP && latest <= at && opening <= at - gap + JITTER
    modifies src, f`ticks
    ensures Partial(f.Value(), opening, at) && IdsBelow(f.ticks, src.nextId) && src.nextId >= old(src.nextId)
    ensures old(f.ticks) <= f.ticks && NewsSince(f.Value(), |old(f.ticks)|, at - gap + MINUTE + JITTER, at)
    ensures SuspensionsRepeat(f.ticks)
  {
    var back := src.IntIn(gap / 4, gap * 85 / 100);
    LaterLimit(f.Value(), opening, latest, at);
    hide Partial, IdsBelow, NewsTick, SuspensionsRepeat, KeysOf, RunnersOf;
    for b := 0 to |BOOKS|
      invariant Partial(f.Value(), opening, at) && IdsBelow(f.ticks, src.nextId) && src.nextId >= old(src.nextId)
      invariant old(f.ticks) <= f.ticks && NewsSince(f.Value(), |old(f.ticks)|, at - gap + MINUTE + JITTER, at)
      invariant SuspensionsRepeat(f.ticks)
    {
      var suspends := src.Flip();
      var wait := src.IntIn(SECOND / 2, 5 * SECOND / 2);
      var lag := src.IntIn(2 * SECOND / 5, 900 * SECOND);
      var frozen, quotes := NewsForBook(src, f, BOOKS[b], NewsDraw(suspends, wait, lag), at - back, at, opening, at - gap + MINUTE + JITTER);
    }
  }

  lemma LaterLimit(f: FixtureState, opening: int, latest: int, at: int)
    requires Partial(f, opening, latest) && latest <= at
    ensures Partial(f, opening, at)
  {
  }

  // ----- Polls -----

  lemma QuotedByBatch(ticks: seq<Tick>, batch: seq<Tick>, fixture: nat, markets: seq<Market>, at: int, removable: set<nat>, first: nat)
    requires forall k: Key :: IsKey(k, markets) ==> Offers(batch, k)
    requires forall t :: t in batch ==> QuoteOf(t, fixture, markets, at)
    requires FreshFrom(batch, first) && forall id :: id in removable ==> id < first
    ensures Complete(ticks + batch, markets, at, removable)
  {
    forall k: Key | IsKey(k, markets) ensures Quoted(ticks + batch, k, at, removable) {
      assert Offers(batch, k);
      var t :| t in batch && t.Key() == k;
      assert t in ticks + batch && t.id >= first;
    }
  }

  lemma SnapshotIdsBelow(f: FixtureState, first: nat)
    requires SnapshotsFit(f) && IdsBelow(f.ticks, first)
    ensures forall id :: id in SnapshotIds(f.snapshots) ==> id < first
  {
    forall id | id in SnapshotIds(f.snapshots) ensures id < first {
      SnapshotIdsHas(f.snapshots, id);
      var i :| 0 <= i < |f.snapshots| && id in Ids(f.snapshots[i]);
      assert id in Ids(f.ticks);
    }
  }

  /** The first poll opens the fixture. */
  lemma FirstPoll(f: FixtureState, batch: seq<Tick>, at: int, first: nat)
    requires f.ticks == [] && f.snapshots == [] && MatchOdds in f.markets
    requires batch != [] && FreshFrom(batch, first) && forall t :: t in batch ==> QuoteOf(t, f.id, f.markets, at)
    requires forall k: Key :: IsKey(k, f.markets) ==> Offers(batch, k)
    ensures Partial(Append(f, batch), at, at) && IdsBelow(Append(f, batch).ticks, first + |batch|)
  {
    QuotedByBatch([], batch, f.id, f.markets, at, {}, first);
    assert [] + batch == batch;
    DistinctGrows([], batch, first);
  }

  /** A later poll is complete at its own instant, and stays so because nothing can remove it yet. */
  lemma LaterPoll(f: FixtureState, batch: seq<Tick>, opening: int, latest: int, at: int, first: nat)
    requires Partial(f, opening, latest) && IdsBelow(f.ticks, first) && latest <= at && opening + MINUTE <= at
    requires FreshFrom(batch, first) && forall t :: t in batch ==> QuoteOf(t, f.id, f.markets, at)
    requires forall k: Key :: IsKey(k, f.markets) ==> Offers(batch, k)
    ensures Partial(Append(f, batch), opening, at) && IdsBelow(Append(f, batch).ticks, first + |batch|)
    ensures Complete(Append(f, batch).ticks, f.markets, at, SnapshotIds(f.snapshots))
  {
    AppendKeeps(f, batch, opening, latest, at, first);
    SnapshotIdsBelow(f, first);
    QuotedByBatch(f.ticks, batch, f.id, f.markets, at, SnapshotIds(f.snapshots), first);
  }

  lemma RemovableSnapshotsFit(f: FixtureState, batch: seq<Tick>, first: nat)
    requires SnapshotsFit(f) && IdsBelow(f.ticks, first) && batch != [] && FreshFrom(batch, first)
    ensures SnapshotsFit(Append(f, batch).(snapshots := f.snapshots + [batch]))
  {
    var more := f.snapshots + [batch];
    IdsGrow(f.ticks, batch);
    assert forall id :: id in Ids(batch) ==> id >= first;
    forall i, j | 0 <= i < j < |more| ensures Ids(more[i]) !! Ids(more[j]) {
      if j == |f.snapshots| {
        assert Ids(f.snapshots[i]) <= Ids(f.ticks);
      }
    }
  }

  lemma CompleteBeside(f: FixtureState, batch: seq<Tick>, at: int, first: nat)
    requires IdsBelow(f.ticks, first) && FreshFrom(batch, first)
    requires Complete(f.ticks, f.markets, at, SnapshotIds(f.snapshots))
    ensures Complete(f.ticks + batch, f.markets, at, SnapshotIds(f.snapshots) + Ids(batch))
  {
    forall k: Key | IsKey(k, f.markets) ensures Quoted(f.ticks + batch, k, at, SnapshotIds(f.snapshots) + Ids(batch)) {
      assert Quoted(f.ticks, k, at, SnapshotIds(f.snapshots));
      var t :| t in f.ticks && t.Key() == k && t.at == at && !t.suspended && t.id !in SnapshotIds(f.snapshots);
      assert t in f.ticks + batch && t.id !in Ids(batch);
    }
  }

  /** An inner poll may be declared removable: it shares no tick with the opening poll or with the
      other removable ones. */
  lemma PollBecomesRemovable(f: FixtureState, batch: seq<Tick>, opening: int, latest: int, at: int, first: nat)
    requires Partial(f, opening, latest) && IdsBelow(f.ticks, first) && Partial(Append(f, batch), opening, at)
    requires batch != [] && FreshFrom(batch, first)
    ensures Partial(Append(f, batch).(snapshots := f.snapshots + [batch]), opening, at)
  {
    var more := f.snapshots + [batch];
    assert more[..|more| - 1] == f.snapshots;
    assert SnapshotIds(more) == SnapshotIds(f.snapshots) + Ids(batch);
    RemovableSnapshotsFit(f, batch, first);
    CompleteBeside(f, batch, opening, first);
    assert f.ticks[0] in f.ticks;
  }

  // ----- The whole fixture -----

  /** Hours before kick-off, from the opening poll to the closing one, as the source spaces them. */
  ghost predicate Schedule(hours: seq<int>) {
    && |hours| >= 2 && hours[0] == OPENING && hours[|hours| - 1] == CLOSING
    && (forall i :: 1 <= i < |hours| ==> hours[i - 1] - hours[i] >= SHORTEST_GAP && hours[i] <= 96 * HOUR)
    && forall i :: 1 <= i < |hours| - 1 ==> hours[i] in INNER
  }

  const INNER := [96 * HOUR, 48 * HOUR, 24 * HOUR, 12 * HOUR, 6 * HOUR, 3 * HOUR, 1 * HOUR]

  /** Two to four of the inner poll times, in order. */
  method PollTimes(src: Source) returns (hours: seq<int>)
    ensures Schedule(hours) && 4 <= |hours| <= 6
  {
    var inner := INNER;
    var count := src.IntIn(2, 4);
    hours := [OPENING];
    for i := 0 to |inner|
      invariant 1 <= |hours| <= count + 1 && count + 1 - |hours| <= |inner| - i
      invariant hours[0] == OPENING
      invariant i < |inner| ==> hours[|hours| - 1] - inner[i] >= 2 * HOUR
      invariant hours[|hours| - 1] >= HOUR && forall n :: 1 <= n < |hours| ==> hours[n] in INNER
      invariant forall n :: 1 <= n < |hours| ==> hours[n - 1] - hours[n] >= SHORTEST_GAP && hours[n] <= 96 * HOUR
    {
      var wanted := src.Flip();
      var missing := count + 1 - |hours|;
      if missing > 0 && (wanted || missing == |inner| - i) {
        hours := hours + [inner[i]];
      }
    }
    hours := hours + [CLOSING];
  }

  method OpeningPoll(src: Source, f: Fixture, at: int) returns (ghost polled: int)
    requires f.ticks == [] && f.snapshots == [] && MatchOdds in f.markets
    modifies src, f`ticks
    ensures Partial(f.Value(), polled, polled) && at <= polled <= at + JITTER
    ensures IdsBelow(f.ticks, src.nextId) && src.nextId >= old(src.nextId) && f.snapshots == []
    ensures FullPoll(f.ticks, f.id, f.markets, polled) && SuspensionsRepeat(f.ticks)
  {
    var millis := src.IntIn(0, 999);
    polled := at + millis * 1000;
    var batch := Poll(src, f.id, f.markets, at + millis * 1000);
    FirstPoll(f.Value(), batch, polled, src.nextId - |batch|);
    OpenTicksGrow([], batch);
    assert [] + batch == batch;
    f.ticks := f.ticks + batch;
  }

  /** A later poll: removable unless it is the closing one. */
  method LaterPollOf(src: Source, f: Fixture, at: int, removable: bool, ghost opening: int, ghost latest: int)
    returns (ghost polled: int, batch: seq<Tick>)
    requires Partial(f.Value(), opening, latest) && IdsBelow(f.ticks, src.nextId) && latest <= at && opening + MINUTE <= at
    modifies src, f`ticks, f`snapshots
    ensures Partial(f.Value(), opening, polled) && at <= polled <= at + JITTER
    ensures IdsBelow(f.ticks, src.nextId) && src.nextId >= old(src.nextId)
    ensures FullPoll(batch, f.id, f.markets, polled) && f.ticks == old(f.ticks) + batch
    ensures f.snapshots == if removable then old(f.snapshots) + [batch] else old(f.snapshots)
    ensures !removable ==> Complete(f.ticks, f.markets, polled, SnapshotIds(f.snapshots))
  {
    var millis := src.IntIn(0, 999);
    polled := at + millis * 1000;
    batch := Poll(src, f.id, f.markets, at + millis * 1000);
    ghost var first, before := src.nextId - |batch|, f.Value();
    LaterPoll(before, batch, opening, latest, polled, first);
    f.ticks := f.ticks + batch;
    if removable {
      PollBecomesRemovable(before, batch, opening, latest, polled, first);
      f.snapshots := f.snapshots + [batch];
    }
  }

  lemma PollKeepsRepeats(ticks: seq<Tick>, batch: seq<Tick>, fixture: nat, markets: seq<Market>, at: int)
    requires SuspensionsRepeat(ticks) && FullPoll(batch, fixture, markets, at)
    ensures SuspensionsRepeat(ticks + batch)
  {
    OpenTicksGrow(ticks, batch);
  }

  /** What happens between one poll and the next, and the next poll, which comes last in the list. */
  method Gap(src: Source, f: Fixture, at: int, gap: int, removable: bool, ghost opening: int, ghost latest: int)
    returns (ghost polled: int, batch: seq<Tick>)
    requires Partial(f.Value(), opening, latest) && IdsBelow(f.ticks, src.nextId) && SuspensionsRepeat(f.ticks)
    requires gap >= SHORTEST_GAP && latest <= at - gap + JITTER && opening <= at - gap + JITTER
    modifies src, f`ticks, f`snapshots
    ensures Partial(f.Value(), opening, polled) && at <= polled <= at + JITTER
    ensures IdsBelow(f.ticks, src.nextId) && src.nextId >= old(src.nextId)
    ensures FullPoll(batch, f.id, f.markets, polled) && old(f.ticks) <= f.ticks
    ensures |old(f.ticks)| + |batch| <= |f.ticks| && f.ticks[|f.ticks| - |batch|..] == batch
    ensures forall i :: |old(f.ticks)| <= i < |f.ticks| - |batch| ==>
              NewsTick(f.ticks[i], f.id, f.markets, at - gap + MINUTE + JITTER, at)
    ensures f.snapshots == if removable then old(f.snapshots) + [batch] else old(f.snapshots)
    ensures !removable ==> Complete(f.ticks, f.markets, polled, SnapshotIds(f.snapshots))
    ensures SuspensionsRepeat(f.ticks)
  {
    hide Partial, FullPoll, Complete, IdsBelow, NewsTick, SuspensionsRepeat;
    ghost var reached := latest;
    var news := src.Flip();
    if news {
      News(src, f, at, gap, opening, latest);
      reached := at;
    }
    ghost var before := f.ticks;
    polled, batch := LaterPollOf(src, f, at, removable, opening, reached);
    PollKeepsRepeats(before, batch, f.id, f.markets, polled);
  }

  /** A removable snapshot is one whole poll. */
  ghost predicate IsPoll(batch: seq<Tick>, fixture: nat, markets: seq<Market>) {
    batch != [] && FullPoll(batch, fixture, markets, batch[0].at)
  }

  lemma PollIsPoll(batch: seq<Tick>, fixture: nat, markets: seq<Market>, at: int)
    requires FullPoll(batch, fixture, markets, at)
    ensures IsPoll(batch, fixture, markets)
  {
    assert batch[0] in batch;
  }

  /** A snapshot polled within a second of one of the inner times: 96, 48, 24, 12, 6, 3 or 1 hours
      before the kick-off. */
  ghost predicate PolledInside(batch: seq<Tick>, commence: int) {
    batch != [] && exists h :: h in [96, 48, 24, 12, 6, 3, 1] && Lead(h, commence) <= batch[0].at < Lead(h, commence) + 1_000_000
  }

  /** `h` hours before kick-off. */
  function Lead(h: int, commence: int): int {
    commence - h * 3_600_000_000
  }

  lemma InnerPoll(batch: seq<Tick>, fixture: nat, markets: seq<Market>, commence: int, hour: int, polled: int)
    requires FullPoll(batch, fixture, markets, polled) && hour in INNER && commence - hour <= polled <= commence - hour + JITTER
    ensures PolledInside(batch, commence)
  {
    assert batch[0] in batch;
    var h := hour / 3_600_000_000;
    assert h in [96, 48, 24, 12, 6, 3, 1] && hour == h * 3_600_000_000;
    assert Lead(h, commence) <= batch[0].at;
  }

  /** A poll is twelve ticks, or twenty with a totals market. */
  lemma PollSize(batch: seq<Tick>, fixture: nat, markets: seq<Market>, at: int)
    requires FullPoll(batch, fixture, markets, at)
    ensures markets == [MatchOdds] ==> |batch| == 12
    ensures markets == [MatchOdds, Totals] ==> |batch| == 20
  {
    assert |batch| == |KeysOf(batch)|;
    if markets == [MatchOdds] || markets == [MatchOdds, Totals] {
      var runners := if markets == [MatchOdds] then 3 else 5;
      forall book ensures |RunnersOf(book, markets)| == runners {
        assert markets[..1] == [MatchOdds];
        assert |RunnersOf(book, [MatchOdds])| == 3 by {
          assert [MatchOdds][..0] == [];
        }
      }
      PollKeysSize(BOOKS, markets, runners);
    }
  }

  lemma {:induction false} PollKeysSize(books: seq<Book>, markets: seq<Market>, runners: nat)
    requires forall book :: |RunnersOf(book, markets)| == runners
    ensures |PollKeys(books, markets)| == |books| * runners
  {
    if books != [] {
      PollKeysSize(books[..|books| - 1], markets, runners);
      hide RunnersOf;
      assert |books| * runners == (|books| - 1) * runners + runners;
    }
  }

  /** Polls from a week before kick-off to a quarter of an hour before it, with news between some of
      them. The inner polls, two to four, are the removable snapshots. */
  method Build(src: Source, f: Fixture) returns (ghost opening: int, ghost closing: int)
    requires f.ticks == [] && f.snapshots == [] && MatchOdds in f.markets
    modifies src, f
    ensures WellBuilt(f.Value(), opening, closing) && IdsBelow(f.ticks, src.nextId) && src.nextId >= old(src.nextId)
    ensures 2 <= |f.snapshots| <= 4
    ensures forall s :: s in f.snapshots ==> IsPoll(s, f.id, f.markets) && PolledInside(s, f.commence)
    ensures f.commence - OPENING <= opening <= f.commence - OPENING + JITTER
    ensures f.commence - CLOSING <= closing <= f.commence - CLOSING + JITTER
    ensures SuspensionsRepeat(f.ticks)
  {
    hide Partial, IsPoll, FullPoll, Complete, IdsBelow, NewsTick, SuspensionsRepeat, PolledInside;
    var hours := PollTimes(src);
    closing := 0;
    opening := OpeningPoll(src, f, f.commence - hours[0]);
    closing := opening;
    for gap := 1 to |hours|
      invariant src.nextId >= old(src.nextId) && IdsBelow(f.ticks, src.nextId)
      invariant Partial(f.Value(), opening, closing) && SuspensionsRepeat(f.ticks)
      invariant f.commence - hours[gap - 1] <= closing <= f.commence - hours[gap - 1] + JITTER
      invariant |f.snapshots| == if gap < |hours| then gap - 1 else gap - 2
      invariant forall s :: s in f.snapshots ==> IsPoll(s, f.id, f.markets) && PolledInside(s, f.commence)
      invariant gap == |hours| ==> Complete(f.ticks, f.markets, closing, SnapshotIds(f.snapshots))
    {
      var batch;
      assert hours[gap - 1] - hours[gap] >= SHORTEST_GAP && hours[gap - 1] <= OPENING;
      closing, batch := Gap(src, f, f.commence - hours[gap], hours[gap - 1] - hours[gap], gap < |hours| - 1, opening, closing);
      PollIsPoll(batch, f.id, f.markets, closing);
      if gap < |hours| - 1 {
        InnerPoll(batch, f.id, f.markets, f.commence, hours[gap], closing);
      }
    }
  }
}
