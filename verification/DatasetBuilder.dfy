/** The generate, trim and fill scheme of backend/app/db/seed_historical_ticks.py, which promises
    exactly the requested number of ticks. */
module DatasetBuilder {
  import opened Prelude
  import opened TickData
  import opened FixtureBuilder
  import Sorting
  import PriceLadder

  datatype BuildError = TooFewRows | TooFewDays | CannotTrim

  /** When a fixture's opening and closing polls happened. */
  datatype Span = Span(opening: int, closing: int)

  ghost function States(fs: seq<Fixture>): (states: seq<FixtureState>)
    reads fs
    ensures |states| == |fs| && forall i :: 0 <= i < |fs| ==> states[i] == fs[i].Value()
  {
    seq(|fs|, i requires 0 <= i < |fs| reads fs => fs[i].Value())
  }

  ghost predicate Distinct(fs: seq<Fixture>) {
    forall i, j :: 0 <= i < j < |fs| ==> fs[i] != fs[j]
  }

  ghost predicate AllWellBuilt(states: seq<FixtureState>, spans: seq<Span>) {
    |states| == |spans| && forall i :: 0 <= i < |states| ==> WellBuilt(states[i], spans[i].opening, spans[i].closing)
  }

  ghost predicate AllBelow(states: seq<FixtureState>, bound: nat) {
    forall i :: 0 <= i < |states| ==> IdsBelow(states[i].ticks, bound)
  }

  // ----- Trimming -----

  /** Pop one removable snapshot and take its ticks out of the fixture. */
  method DropSnapshot(f: Fixture, j: nat) returns (count: nat)
    requires j < |f.snapshots|
    modifies f`ticks, f`snapshots
    ensures f.Value() == Drop(old(f.Value()), j) && count == |old(f.snapshots[j])|
  {
    var batch := f.snapshots[j];
    f.snapshots := f.snapshots[..j] + f.snapshots[j + 1..];
    var dropped := set t | t in batch :: t.id;
    f.ticks := Without(f.ticks, dropped);
    count := |batch|;
  }

  method Candidates(fs: seq<Fixture>) returns (candidates: seq<nat>)
    ensures forall c :: c in candidates ==> c < |fs| && fs[c].snapshots != []
    ensures candidates == [] ==> forall i :: 0 <= i < |fs| ==> fs[i].snapshots == []
  {
    candidates := [];
    for i := 0 to |fs|
      invariant forall c :: c in candidates ==> c < |fs| && fs[c].snapshots != []
      invariant candidates == [] ==> forall j :: 0 <= j < i ==> fs[j].snapshots == []
    {
      if fs[i].snapshots != [] {
        candidates := candidates + [i];
      }
    }
  }

  lemma DropStaysBelow(f: FixtureState, j: nat, opening: int, closing: int, bound: nat)
    requires WellBuilt(f, opening, closing) && j < |f.snapshots| && IdsBelow(f.ticks, bound)
    ensures IdsBelow(Drop(f, j).ticks, bound) && f.snapshots[j] != []
  {
    WithoutHas(f.ticks, Ids(f.snapshots[j]));
  }

  /** Trimming took nothing but ticks of removable snapshots. */
  ghost predicate TrimmedFrom(f: FixtureState, whole: FixtureState) {
    && (forall t :: t in f.ticks ==> t in whole.ticks)
    && (forall t :: t in whole.ticks && t.id !in SnapshotIds(whole.snapshots) ==> t in f.ticks)
    && SnapshotIds(f.snapshots) <= SnapshotIds(whole.snapshots)
    && (forall s :: s in f.snapshots ==> s in whole.snapshots)
  }

  ghost predicate AllTrimmedFrom(states: seq<FixtureState>, whole: seq<FixtureState>) {
    |states| == |whole| && forall i :: 0 <= i < |states| ==> TrimmedFrom(states[i], whole[i])
  }

  lemma DropTrims(f: FixtureState, whole: FixtureState, j: nat)
    requires TrimmedFrom(f, whole) && j < |f.snapshots|
    ensures TrimmedFrom(Drop(f, j), whole)
  {
    WithoutHas(f.ticks, Ids(f.snapshots[j]));
    RemovedIds(f.snapshots, j);
  }

  lemma TrimStepKeeps(states: seq<FixtureState>, whole: seq<FixtureState>, v: nat, j: nat)
    requires AllTrimmedFrom(states, whole) && v < |states| && j < |states[v].snapshots|
    ensures AllTrimmedFrom(states[v := Drop(states[v], j)], whole)
  {
    hide TrimmedFrom;
    DropTrims(states[v], whole[v], j);
  }

  lemma UntrimmedYet(states: seq<FixtureState>)
    ensures AllTrimmedFrom(states, states)
  {
  }

  lemma TrimStep(states: seq<FixtureState>, spans: seq<Span>, v: nat, j: nat, bound: nat)
    requires AllWellBuilt(states, spans) && AllBelow(states, bound) && v < |states| && j < |states[v].snapshots|
    ensures var after := states[v := Drop(states[v], j)];
            && AllWellBuilt(after, spans) && AllBelow(after, bound)
            && TotalTicks(after) == TotalTicks(states) - |states[v].snapshots[j]| < TotalTicks(states)
            && TotalFixed(after) == TotalFixed(states)
  {
    hide WellBuilt, IdsBelow;
    var f := states[v];
    DropKeeps(f, j, spans[v].opening, spans[v].closing);
    LengthsRemove(f.snapshots, j);
    TotalsUpdate(states, v, Drop(f, j));
    DropStaysBelow(f, j, spans[v].opening, spans[v].closing, bound);
  }

  /** With `kept` ticks left, giving some removable snapshot back would be too many. */
  ghost predicate DropNeeded(whole: seq<FixtureState>, kept: nat, rows: nat) {
    exists i, s :: 0 <= i < |whole| && s in whole[i].snapshots && rows < kept + |s|
  }

  lemma LastDrop(states: seq<FixtureState>, whole: seq<FixtureState>, v: nat, j: nat, base: nat, rows: nat)
    requires AllTrimmedFrom(states, whole) && v < |states| && j < |states[v].snapshots|
    requires rows < base && |states[v].snapshots[j]| <= base
    ensures DropNeeded(whole, base - |states[v].snapshots[j]|, rows)
  {
    assert TrimmedFrom(states[v], whole[v]);
    assert states[v].snapshots[j] in whole[v].snapshots;
  }

  /** One random removable snapshot of one random candidate goes. */
  method DropOne(src: Source, fs: seq<Fixture>, candidates: seq<nat>, base: nat, ghost rows: nat, ghost spans: seq<Span>,
                 ghost whole: seq<FixtureState>) returns (left: nat)
    requires Distinct(fs) && AllWellBuilt(States(fs), spans) && AllBelow(States(fs), src.nextId) && AllTrimmedFrom(States(fs), whole)
    requires candidates != [] && forall c :: c in candidates ==> c < |fs| && fs[c].snapshots != []
    requires base == TotalTicks(States(fs)) && base > rows
    modifies fs
    ensures AllWellBuilt(States(fs), spans) && AllBelow(States(fs), src.nextId) && AllTrimmedFrom(States(fs), whole)
    ensures left == TotalTicks(States(fs)) && left < base && DropNeeded(whole, left, rows)
    ensures TotalFixed(States(fs)) == TotalFixed(old(States(fs)))
  {
    hide AllWellBuilt, AllBelow, AllTrimmedFrom, DropNeeded, TotalTicks, TotalFixed, Drop;
    var c := src.IntIn(0, |candidates| - 1);
    var v := candidates[c];
    assert v in candidates;
    var j := src.IntIn(0, |fs[v].snapshots| - 1);
    ghost var before := States(fs);
    TrimStep(before, spans, v, j, src.nextId);
    TrimStepKeeps(before, whole, v, j);
    LastDrop(before, whole, v, j, base, rows);
    var count := DropSnapshot(fs[v], j);
    assert States(fs) == before[v := Drop(before[v], j)];
    left := base - count;
  }

  /** Whole inner snapshots go, at random, until the count fits; `base` stays the true count. This
      fails exactly when the ticks that no snapshot can take away are already too many, whatever the
      random choices. It stops as soon as the count fits: nothing goes if it fits already, and else
      the last snapshot to go was one too many. */
  method Trim(src: Source, fs: seq<Fixture>, rows: nat, total: nat, ghost spans: seq<Span>) returns (ok: bool, base: nat)
    requires Distinct(fs) && AllWellBuilt(States(fs), spans) && AllBelow(States(fs), src.nextId)
    requires total == TotalTicks(States(fs))
    modifies fs
    ensures AllWellBuilt(States(fs), spans) && AllBelow(States(fs), src.nextId)
    ensures AllTrimmedFrom(States(fs), old(States(fs)))
    ensures ok <==> TotalFixed(old(States(fs))) <= rows
    ensures ok ==> base == TotalTicks(States(fs)) && base <= rows
    ensures total <= rows ==> base == total && States(fs) == old(States(fs))
    ensures ok && total > rows ==> DropNeeded(old(States(fs)), base, rows)
  {
    hide AllWellBuilt, AllBelow, AllTrimmedFrom, DropNeeded, TotalTicks, TotalFixed;
    base := total;
    ghost var whole := States(fs);
    UntrimmedYet(whole);
    while base > rows
      invariant AllWellBuilt(States(fs), spans) && AllBelow(States(fs), src.nextId) && AllTrimmedFrom(States(fs), whole)
      invariant base == TotalTicks(States(fs)) && TotalFixed(States(fs)) == TotalFixed(whole)
      invariant if base == total then States(fs) == whole else total > rows && base < total && DropNeeded(whole, base, rows)
      decreases base
    {
      var candidates := Candidates(fs);
      if candidates == [] {
        NothingRemovable(States(fs));
        return false, base;
      }
      base := DropOne(src, fs, candidates, base, rows, spans, whole);
    }
    FixedAtMostTicks(States(fs));
    ok := true;
  }

  // ----- Filling -----

  /** Re-quoted from an earlier tick object of the same book and runner, stamped no later than it. */
  ghost predicate Derived(t: Tick, ticks: seq<Tick>) {
    exists p :: p in ticks && p.id < t.id && p.Key() == t.Key() && p.at <= t.at && p.liquidity == t.liquidity
  }

  /** The ticks made since identity `first` are all derived. */
  ghost predicate FillersDerived(ticks: seq<Tick>, first: nat) {
    forall t :: t in ticks && t.id >= first ==> !t.suspended && Derived(t, ticks)
  }

  lemma FillerDerives(ticks: seq<Tick>, prior: Tick, t: Tick, first: nat)
    requires FillersDerived(ticks, first) && prior in ticks
    requires prior.id < t.id && prior.Key() == t.Key() && prior.at <= t.at && prior.liquidity == t.liquidity && !t.suspended
    ensures FillersDerived(ticks + [t], first)
  {
    var more := ticks + [t];
    forall u | u in more && u.id >= first ensures !u.suspended && Derived(u, more) {
      if u == t {
        assert prior in more;
      } else {
        assert Derived(u, ticks);
        var p :| p in ticks && p.id < u.id && p.Key() == u.Key() && p.at <= u.at && p.liquidity == u.liquidity;
        assert p in more;
      }
    }
  }

  lemma LastOfStep(ticks: seq<Tick>, n: nat, k: Key, limit: Option<int>)
    requires n < |ticks|
    ensures LastOf(ticks[..n + 1], k, limit)
         == if ticks[n].Key() == k && (limit.None? || ticks[n].at <= limit.value) then Some(ticks[n]) else LastOf(ticks[..n], k, limit)
  {
    assert ticks[..n + 1][..n] == ticks[..n];
  }

  /** For every runner its last tick, in list order, stamped no later than `at`. */
  method LatestBefore(ticks: seq<Tick>, at: int) returns (latest: map<Key, Tick>)
    ensures forall k :: (k in latest <==> LastOf(ticks, k, Some(at)).Some?) && (k in latest ==> latest[k] == LastOf(ticks, k, Some(at)).value)
  {
    latest := map[];
    for n := 0 to |ticks|
      invariant forall k :: (k in latest <==> LastOf(ticks[..n], k, Some(at)).Some?) && (k in latest ==> latest[k] == LastOf(ticks[..n], k, Some(at)).value)
    {
      forall k {
        LastOfStep(ticks, n, k, Some(at));
      }
      if ticks[n].at <= at {
        latest := latest[ticks[n].Key() := ticks[n]];
      }
    }
    assert ticks[..|ticks|] == ticks;
  }

  /** The latest instant at which the fixture was quoted and open. */
  method LastOpen(ticks: seq<Tick>) returns (m: int)
    requires exists t :: t in ticks && !t.suspended
    ensures exists t :: t in ticks && !t.suspended && t.at == m
    ensures forall t :: t in ticks && !t.suspended ==> t.at <= m
  {
    var found := false;
    m := 0;
    for n := 0 to |ticks|
      invariant found <==> exists t :: t in ticks[..n] && !t.suspended
      invariant found ==> exists t :: t in ticks[..n] && !t.suspended && t.at == m
      invariant found ==> forall t :: t in ticks[..n] && !t.suspended ==> t.at <= m
    {
      assert ticks[..n + 1] == ticks[..n] + [ticks[n]];
      assert ticks[n] in ticks[..n + 1];
      if !ticks[n].suspended && (!found || ticks[n].at > m) {
        found, m := true, ticks[n].at;
      } else if found {
        var t :| t in ticks[..n] && !t.suspended && t.at == m;
        assert t in ticks[..n + 1];
      }
    }
    assert ticks[..|ticks|] == ticks;
  }

  lemma CloseIsLastOpen(f: FixtureState, span: Span, m: int)
    requires WellBuilt(f, span.opening, span.closing)
    requires exists t :: t in f.ticks && !t.suspended && t.at == m
    requires forall t :: t in f.ticks && !t.suspended ==> t.at <= m
    ensures m == span.closing
  {
    assert Quoted(f.ticks, Runner(Pinnacle, MatchOdds, Home), span.closing, SnapshotIds(f.snapshots));
  }

  /** What the filler reads at the start of a round. */
  lemma FillerSetup(f: FixtureState, span: Span)
    requires WellBuilt(f, span.opening, span.closing)
    ensures f.ticks != [] && f.ticks[0].at == span.opening && MatchOdds in f.markets
    ensures span.closing >= span.opening + 2 * MINUTE + SECOND
    ensures exists t :: t in f.ticks && !t.suspended
  {
    assert Quoted(f.ticks, Runner(Pinnacle, MatchOdds, Home), span.closing, SnapshotIds(f.snapshots));
  }

  /** The lookup of the prior price never misses, because the opening poll is never trimmed. */
  lemma PriorExists(f: FixtureState, span: Span, k: Key, at: int)
    requires WellBuilt(f, span.opening, span.closing) && IsKey(k, f.markets) && at >= span.opening
    ensures LastOf(f.ticks, k, Some(at)).Some?
  {
    OpeningHasPrior(f, span.opening, span.closing, k, Some(at));
  }

  /** A tick of the prior's runner, made now and stamped within the fixture's span. */
  ghost predicate Filler(t: Tick, prior: Tick) {
    && t.Key() == prior.Key() && t.fixture == prior.fixture && t.liquidity == prior.liquidity
    && !t.suspended && t.currency == CurrencyOf(prior.book)
    && PriceLadder.OnLadder(t.odds, LadderOf(prior.book))
  }

  lemma FillerKeeps(f: FixtureState, span: Span, prior: Tick, t: Tick, first: nat)
    requires WellBuilt(f, span.opening, span.closing) && IdsBelow(f.ticks, t.id) && FillersDerived(f.ticks, first)
    requires prior in f.ticks && Filler(t, prior) && prior.at <= t.at
    requires span.opening + MINUTE <= t.at <= span.closing
    ensures WellBuilt(Append(f, [t]), span.opening, span.closing)
    ensures IdsBelow(f.ticks + [t], t.id + 1) && FillersDerived(f.ticks + [t], first)
  {
    assert Sound(prior, f.id, f.markets);
    AppendKeeps(f, [t], span.opening, span.closing, span.closing, t.id);
    CompleteGrows(f.ticks, [t], f.markets, span.closing, SnapshotIds(f.snapshots));
    FillerDerives(f.ticks, prior, t, first);
  }

  /** What the filler re-quotes: a whole market while three rows or more are missing, then one
      exchange runner. */
  method ChooseRunners(src: Source, markets: seq<Market>, remaining: nat) returns (book: Book, market: Market, selections: seq<Selection>)
    requires MatchOdds in markets && remaining > 0
    ensures market in markets && selections != [] && forall l :: l in selections ==> l in Labels(market)
    ensures if remaining >= 3 then selections == Labels(market) else book == BetfairEx && |selections| == 1
  {
    // A market never has more than three runners, so the source's check for one larger than what is
    // missing cannot succeed in the first branch.
    var m := src.IntIn(0, |markets| - 1);
    market := markets[m];
    if remaining >= 3 {
      var b := src.IntIn(0, |BOOKS| - 1);
      book := BOOKS[b];
      selections := Labels(market);
    } else {
      book := BetfairEx;
      var l := src.IntIn(0, |Labels(market)| - 1);
      selections := [Labels(market)[l]];
    }
  }

  /** An instant at least a minute after the opening poll and before the last open one. */
  method FillInstant(src: Source, ticks: seq<Tick>, ghost f: FixtureState, ghost span: Span) returns (at: int)
    requires ticks == f.ticks && WellBuilt(f, span.opening, span.closing)
    ensures span.opening + MINUTE <= at <= span.closing - MINUTE
  {
    FillerSetup(f, span);
    hide WellBuilt;
    var opening := ticks[0].at;
    var closing := LastOpen(ticks);
    CloseIsLastOpen(f, span, closing);
    var reach := if closing - opening - MINUTE >= MINUTE + SECOND then closing - opening - MINUTE else MINUTE + SECOND;
    var offset := src.IntIn(MINUTE, reach);
    at := opening + offset;
  }

  /** Append the prior price, nudged, at `at`. */
  method AddFiller(src: Source, f: Fixture, prior: Tick, at: int, ghost span: Span, ghost first: nat)
    requires WellBuilt(f.Value(), span.opening, span.closing) && span.opening + MINUTE <= at <= span.closing
    requires IdsBelow(f.ticks, src.nextId) && FillersDerived(f.ticks, first) && prior in f.ticks && prior.at <= at
    modifies src, f`ticks
    ensures |f.ticks| == |old(f.ticks)| + 1 && old(f.ticks) <= f.ticks
    ensures Filler(f.ticks[|old(f.ticks)|], prior) && f.ticks[|old(f.ticks)|].at == at && f.ticks[|old(f.ticks)|].id == old(src.nextId)
    ensures WellBuilt(f.Value(), span.opening, span.closing)
    ensures IdsBelow(f.ticks, src.nextId) && old(src.nextId) <= src.nextId && FillersDerived(f.ticks, first)
  {
    hide WellBuilt, IdsBelow, FillersDerived, Filler, PriceLadder.IsGreatestBelow;
    var factor := src.Real();
    var tick := Nudged(src, prior, factor, at);
    FillerKeeps(f.Value(), span, prior, tick, first);
    f.ticks := f.ticks + [tick];
  }

  /** What one round re-quotes, and when. */
  datatype Choice = Choice(book: Book, market: Market, selections: seq<Selection>, at: int)

  /** The added ticks re-quote the chosen runners in order, each from that runner's last earlier tick
      in the list as it was when the round began. */
  ghost predicate Requotes(added: seq<Tick>, whole: seq<Tick>, c: Choice) {
    |added| <= |c.selections| && forall i :: 0 <= i < |added| ==> RequotesLast(added[i], whole, Runner(c.book, c.market, c.selections[i]), c.at)
  }

  ghost predicate RequotesLast(t: Tick, whole: seq<Tick>, k: Key, at: int) {
    var last := LastOf(whole, k, Some(at));
    last.Some? && Filler(t, last.value) && t.at == at
  }

  lemma FillerRequotes(t: Tick, whole: seq<Tick>, prior: Tick, k: Key, at: int)
    requires LastOf(whole, k, Some(at)) == Some(prior) && Filler(t, prior) && t.at == at
    ensures RequotesLast(t, whole, k, at)
  {
  }

  lemma RequotesGrow(before: seq<Tick>, after: seq<Tick>, whole: seq<Tick>, c: Choice, n: nat)
    requires |whole| <= |before| && |before| == |whole| + n && n < |c.selections|
    requires |after| == |before| + 1 && before <= after && Requotes(before[|whole|..], whole, c)
    requires RequotesLast(after[|before|], whole, Runner(c.book, c.market, c.selections[n]), c.at)
    ensures Requotes(after[|whole|..], whole, c)
  {
    hide RequotesLast;
    assert after[|whole|..] == before[|whole|..] + [after[|before|]];
  }

  /** A whole market while three rows or more are missing, else one runner of the exchange. */
  predicate ChoiceFits(c: Choice, markets: seq<Market>, missing: nat) {
    && c.market in markets && (forall l :: l in c.selections ==> l in Labels(c.market))
    && if missing >= 3 then c.selections == Labels(c.market) else c.book == BetfairEx && |c.selections| == 1
  }

  /** Nothing but new ticks was added, and at the end. */
  ghost predicate GrownFrom(before: seq<Tick>, after: seq<Tick>, first: nat) {
    before <= after && forall j :: |before| <= j < |after| ==> after[j].id >= first
  }

  /** One re-quote of one fixture: all the chosen runners, at least one and never more than missing. */
  method FillOnce(src: Source, f: Fixture, remaining: nat, ghost span: Span, ghost first: nat) returns (left: nat, ghost choice: Choice)
    requires remaining > 0 && WellBuilt(f.Value(), span.opening, span.closing)
    requires IdsBelow(f.ticks, src.nextId) && first <= src.nextId && FillersDerived(f.ticks, first)
    modifies src, f`ticks
    ensures left < remaining && |f.ticks| + left == |old(f.ticks)| + remaining && old(f.ticks) <= f.ticks
    ensures ChoiceFits(choice, f.markets, remaining) && span.opening + MINUTE <= choice.at <= span.closing - MINUTE
    ensures |f.ticks| == |old(f.ticks)| + |choice.selections| && Requotes(f.ticks[|old(f.ticks)|..], old(f.ticks), choice)
    ensures GrownFrom(old(f.ticks), f.ticks, old(src.nextId))
    ensures WellBuilt(f.Value(), span.opening, span.closing)
    ensures IdsBelow(f.ticks, src.nextId) && old(src.nextId) <= src.nextId && FillersDerived(f.ticks, first)
  {
    hide WellBuilt, IdsBelow, FillersDerived, Filler, LastOf, Labels, RequotesLast;
    FillerSetup(f.Value(), span);
    var at := FillInstant(src, f.ticks, f.Value(), span);
    var latest := LatestBefore(f.ticks, at);
    var book, market, selections := ChooseRunners(src, f.markets, remaining);
    choice := Choice(book, market, selections, at);
    left := remaining;
    ghost var start := f.Value();
    for n := 0 to |selections|
      invariant left == remaining - n && |f.ticks| == |start.ticks| + n && start.ticks <= f.ticks
      invariant Requotes(f.ticks[|start.ticks|..], start.ticks, choice) && GrownFrom(start.ticks, f.ticks, old(src.nextId))
      invariant WellBuilt(f.Value(), span.opening, span.closing)
      invariant IdsBelow(f.ticks, src.nextId) && old(src.nextId) <= src.nextId && FillersDerived(f.ticks, first)
    {
      var k := Runner(book, market, selections[n]);
      assert selections[n] in selections;
      PriorExists(start, span, k, at);
      var prior := latest[k];
      assert prior in start.ticks && prior in f.ticks;
      ghost var before := f.ticks;
      AddFiller(src, f, prior, at, span, first);
      FillerRequotes(f.ticks[|before|], start.ticks, prior, k, at);
      RequotesGrow(before, f.ticks, start.ticks, choice, n);
      left := left - 1;
      if left == 0 {
        return;
      }
    }
  }

  /** A price of the ladder, taken by `factor` and put back on the ladder. */
  function NudgedPrice(price: int, factor: real, ladder: PriceLadder.Ladder): int {
    PriceLadder.RoundOdds(price as real * factor, ladder)
  }

  /** A tick that re-quotes the prior's runner at the nudged price. */
  function Nudge(prior: Tick, factor: real, id: nat, at: int): Tick {
    prior.(id := id, odds := NudgedPrice(prior.odds, factor, LadderOf(prior.book)),
           currency := CurrencyOf(prior.book), suspended := false, at := at)
  }

  /** The price the nudge aims at, not below the floor. */
  function RawNudge(price: int, factor: real): real {
    Max(price as real * factor, PriceLadder.LOWEST as real)
  }

  lemma NudgedIsGreatest(price: int, factor: real, ladder: PriceLadder.Ladder)
    ensures PriceLadder.IsGreatestBelow(NudgedPrice(price, factor, ladder), RawNudge(price, factor), ladder)
    ensures PriceLadder.OnLadder(NudgedPrice(price, factor, ladder), ladder)
  {
    PriceLadder.RoundsToGreatest(price as real * factor, ladder);
  }

  lemma NudgeIsFiller(prior: Tick, factor: real, id: nat, at: int)
    ensures Filler(Nudge(prior, factor, id, at), prior) && Nudge(prior, factor, id, at).at == at
  {
    NudgedIsGreatest(prior.odds, factor, LadderOf(prior.book));
    hide PriceLadder.OnLadder, NudgedPrice;
  }

  /** The prior price of the runner, nudged and put back on the book's ladder. */
  method Nudged(src: Source, prior: Tick, factor: real, at: int) returns (tick: Tick)
    modifies src
    ensures src.nextId == old(src.nextId) + 1 && tick.id == old(src.nextId)
    ensures Filler(tick, prior) && tick.at == at
    ensures PriceLadder.IsGreatestBelow(tick.odds, RawNudge(prior.odds, factor), LadderOf(prior.book))
  {
    hide NudgedPrice, RawNudge, PriceLadder.IsGreatestBelow, PriceLadder.OnLadder;
    NudgeIsFiller(prior, factor, src.nextId, at);
    NudgedIsGreatest(prior.odds, factor, LadderOf(prior.book));
    tick := Nudge(prior, factor, src.nextId, at);
    src.nextId := src.nextId + 1;
  }

  ghost predicate AllFilling(states: seq<FixtureState>, first: nat) {
    forall i :: 0 <= i < |states| ==> FillersDerived(states[i].ticks, first)
  }

  lemma FillRound(states: seq<FixtureState>, spans: seq<Span>, v: nat, after: FixtureState, first: nat, bound: nat, later: nat)
    requires AllWellBuilt(states, spans) && AllBelow(states, bound) && AllFilling(states, first) && bound <= later && v < |states|
    requires WellBuilt(after, spans[v].opening, spans[v].closing) && IdsBelow(after.ticks, later) && FillersDerived(after.ticks, first)
    ensures AllWellBuilt(states[v := after], spans) && AllBelow(states[v := after], later) && AllFilling(states[v := after], first)
    ensures TotalTicks(states[v := after]) == TotalTicks(states) - |states[v].ticks| + |after.ticks|
  {
    hide WellBuilt, FillersDerived;
    TotalsUpdate(states, v, after);
  }

  lemma NothingFilledYet(states: seq<FixtureState>, first: nat)
    requires AllBelow(states, first)
    ensures AllFilling(states, first)
  {
  }

  /** The filling rounds: exactly the missing ticks are added, whatever the random choices. */
  method FillRounds(src: Source, fs: seq<Fixture>, missing: nat, ghost spans: seq<Span>)
    requires Distinct(fs) && fs != [] && AllWellBuilt(States(fs), spans) && AllBelow(States(fs), src.nextId)
    modifies src, fs
    ensures TotalTicks(States(fs)) == TotalTicks(old(States(fs))) + missing
    ensures AllWellBuilt(States(fs), spans) && AllFilling(States(fs), old(src.nextId))
    ensures forall i :: 0 <= i < |fs| ==> GrownFrom(old(fs[i].ticks), fs[i].ticks, old(src.nextId))
  {
    hide AllWellBuilt, AllBelow, AllFilling, TotalTicks, WellBuilt, IdsBelow, FillersDerived, Requotes, ChoiceFits;
    var remaining := missing;
    ghost var first := src.nextId;
    NothingFilledYet(States(fs), first);
    while remaining > 0
      invariant TotalTicks(States(fs)) + remaining == TotalTicks(old(States(fs))) + missing
      invariant AllWellBuilt(States(fs), spans) && AllBelow(States(fs), src.nextId) && AllFilling(States(fs), first)
      invariant first <= src.nextId
      invariant forall i :: 0 <= i < |fs| ==> GrownFrom(old(fs[i].ticks), fs[i].ticks, first)
      decreases remaining
    {
      var v := src.IntIn(0, |fs| - 1);
      ghost var before, bound := States(fs), src.nextId;
      AtIndex(before, spans, v, first, bound);
      var left;
      ghost var choice;
      left, choice := FillOnce(src, fs[v], remaining, spans[v], first);
      assert States(fs) == before[v := fs[v].Value()];
      FillRound(before, spans, v, fs[v].Value(), first, bound, src.nextId);
      remaining := left;
    }
  }

  lemma AtIndex(states: seq<FixtureState>, spans: seq<Span>, v: nat, first: nat, bound: nat)
    requires AllWellBuilt(states, spans) && AllBelow(states, bound) && AllFilling(states, first) && v < |states|
    ensures v < |spans| && WellBuilt(states[v], spans[v].opening, spans[v].closing)
    ensures IdsBelow(states[v].ticks, bound) && FillersDerived(states[v].ticks, first)
  {
  }

  // ----- Finished fixtures -----

  predicate ByTime(a: Tick, b: Tick) {
    a.at <= b.at
  }

  /** A fixture of the result: sorted, every tick sound and within its span, complete markets at the
      opening and at the closing instant, and every filler derived. */
  ghost predicate Finished(f: FixtureState, span: Span, first: nat) {
    && Sorting.SortedBy(f.ticks, ByTime)
    && AllSound(f) && MatchOdds in f.markets
    && (forall t :: t in f.ticks ==> span.opening <= t.at <= span.closing)
    && Complete(f.ticks, f.markets, span.opening, {})
    && Complete(f.ticks, f.markets, span.closing, {})
    && FillersDerived(f.ticks, first)
  }

  lemma CompleteSame(ticks: seq<Tick>, other: seq<Tick>, markets: seq<Market>, at: int, removable: set<nat>)
    requires Complete(ticks, markets, at, removable) && forall t :: t in ticks <==> t in other
    ensures Complete(other, markets, at, {})
  {
    forall k | IsKey(k, markets) ensures Quoted(other, k, at, {}) {
      assert Quoted(ticks, k, at, removable);
      var t :| t in ticks && t.Key() == k && t.at == at && !t.suspended && t.id !in removable;
      assert t in other;
    }
  }

  lemma DerivedSame(ticks: seq<Tick>, other: seq<Tick>, first: nat)
    requires FillersDerived(ticks, first) && forall t :: t in ticks <==> t in other
    ensures FillersDerived(other, first)
  {
    forall t | t in other && t.id >= first ensures !t.suspended && Derived(t, other) {
      assert Derived(t, ticks);
      var p :| p in ticks && p.id < t.id && p.Key() == t.Key() && p.at <= t.at && p.liquidity == t.liquidity;
      assert p in other;
    }
  }

  lemma SortingFinishes(f: FixtureState, span: Span, first: nat)
    requires WellBuilt(f, span.opening, span.closing) && FillersDerived(f.ticks, first)
    ensures Finished(f.(ticks := Sorting.Sort(f.ticks, ByTime)), span, first)
    ensures |Sorting.Sort(f.ticks, ByTime)| == |f.ticks|
  {
    var sorted := Sorting.Sort(f.ticks, ByTime);
    Sorting.SortSorts(f.ticks, ByTime);
    Sorting.SameElements(sorted, f.ticks);
    CompleteSame(f.ticks, sorted, f.markets, span.opening, SnapshotIds(f.snapshots));
    CompleteSame(f.ticks, sorted, f.markets, span.closing, SnapshotIds(f.snapshots));
    DerivedSame(f.ticks, sorted, first);
  }

  ghost predicate AllFinished(states: seq<FixtureState>, spans: seq<Span>, first: nat) {
    |states| == |spans| && forall i :: 0 <= i < |states| ==> Finished(states[i], spans[i], first)
  }

  function InTimeOrder(f: FixtureState): FixtureState {
    f.(ticks := Sorting.Sort(f.ticks, ByTime))
  }

  lemma {:induction false} SameLengthsSameTotal(a: seq<FixtureState>, b: seq<FixtureState>)
    requires |a| == |b| && forall i :: 0 <= i < |a| ==> |a[i].ticks| == |b[i].ticks|
    ensures TotalTicks(a) == TotalTicks(b)
  {
    if a != [] {
      SameLengthsSameTotal(a[..|a| - 1], b[..|b| - 1]);
    }
  }

  lemma AllSortedFinish(sorted: seq<FixtureState>, filled: seq<FixtureState>, spans: seq<Span>, first: nat)
    requires AllWellBuilt(filled, spans) && AllFilling(filled, first)
    requires |sorted| == |filled| && forall i :: 0 <= i < |sorted| ==> sorted[i] == InTimeOrder(filled[i])
    ensures TotalTicks(sorted) == TotalTicks(filled) && AllFinished(sorted, spans, first)
  {
    hide WellBuilt, FillersDerived, Finished, TotalTicks, Sorting.Sort;
    forall i | 0 <= i < |sorted| ensures Finished(sorted[i], spans[i], first) && |sorted[i].ticks| == |filled[i].ticks| {
      SortingFinishes(filled[i], spans[i], first);
    }
    SameLengthsSameTotal(sorted, filled);
  }

  /** Every fixture's ticks in time order. */
  method SortFixtures(fs: seq<Fixture>, ghost spans: seq<Span>, ghost first: nat)
    requires Distinct(fs) && AllWellBuilt(States(fs), spans) && AllFilling(States(fs), first)
    modifies fs
    ensures TotalTicks(States(fs)) == TotalTicks(old(States(fs))) && AllFinished(States(fs), spans, first)
    ensures forall i :: 0 <= i < |fs| ==> fs[i].ticks == Sorting.Sort(old(fs[i].ticks), ByTime)
  {
    hide AllWellBuilt, AllFilling, AllFinished, TotalTicks, Sorting.Sort, ByTime;
    ghost var filled := States(fs);
    for n := 0 to |fs|
      invariant forall i :: n <= i < |fs| ==> fs[i].Value() == filled[i]
      invariant forall i :: 0 <= i < n ==> fs[i].Value() == InTimeOrder(filled[i])
    {
      fs[n].ticks := Sorting.Sort(fs[n].ticks, ByTime);
    }
    AllSortedFinish(States(fs), filled, spans, first);
  }

  /** The whole fill: the rounds, then the sorting. */
  method Fill(src: Source, fs: seq<Fixture>, missing: nat, ghost spans: seq<Span>)
    requires Distinct(fs) && fs != [] && AllWellBuilt(States(fs), spans) && AllBelow(States(fs), src.nextId)
    modifies src, fs
    ensures TotalTicks(States(fs)) == TotalTicks(old(States(fs))) + missing
    ensures AllFinished(States(fs), spans, old(src.nextId))
    ensures AllFilledFrom(States(fs), old(States(fs)), old(src.nextId))
    ensures Fillers(States(fs), old(src.nextId)) == missing
  {
    hide AllWellBuilt, AllFilling, AllFinished, AllBelow, TotalTicks, Fillers, Sorting.Sort, GrownFrom, FilledFrom;
    ghost var first := src.nextId;
    ghost var trimmed := States(fs);
    FillRounds(src, fs, missing, spans);
    ghost var filled := States(fs);
    GrownByFillers(filled, trimmed, first);
    SortFixtures(fs, spans, first);
    SameFillers(States(fs), filled, first);
    forall i | 0 <= i < |fs| ensures FilledFrom(fs[i].ticks, trimmed[i].ticks, first) {
      SortedIsFilledFrom(filled[i].ticks, trimmed[i].ticks, first);
    }
  }

  function IsFiller(first: nat): Tick -> bool {
    (t: Tick) => t.id >= first
  }

  /** How many ticks have an identity from `first` on. */
  function Fillers(states: seq<FixtureState>, first: nat): nat {
    if states == [] then 0
    else Fillers(states[..|states| - 1], first) + Sorting.Count(states[|states| - 1].ticks, IsFiller(first))
  }

  lemma GrownCounts(before: seq<Tick>, after: seq<Tick>, first: nat)
    requires GrownFrom(before, after, first) && IdsBelow(before, first)
    ensures Sorting.Count(after, IsFiller(first)) == |after| - |before|
  {
    var added := after[|before|..];
    assert after == before + added;
    Sorting.CountConcat(before, added, IsFiller(first));
    Sorting.CountAll(before, IsFiller(first));
    Sorting.CountAll(added, IsFiller(first));
    assert forall t :: t in added ==> t.id >= first;
  }

  lemma {:induction false} GrownByFillers(filled: seq<FixtureState>, trimmed: seq<FixtureState>, first: nat)
    requires |filled| == |trimmed| && AllBelow(trimmed, first)
    requires forall i :: 0 <= i < |filled| ==> GrownFrom(trimmed[i].ticks, filled[i].ticks, first)
    ensures Fillers(filled, first) == TotalTicks(filled) - TotalTicks(trimmed)
  {
    if filled != [] {
      var n := |filled| - 1;
      GrownCounts(trimmed[n].ticks, filled[n].ticks, first);
      GrownByFillers(filled[..n], trimmed[..n], first);
    }
  }

  lemma {:induction false} SameFillers(sorted: seq<FixtureState>, filled: seq<FixtureState>, first: nat)
    requires |sorted| == |filled| && forall i :: 0 <= i < |sorted| ==> sorted[i].ticks == Sorting.Sort(filled[i].ticks, ByTime)
    ensures Fillers(sorted, first) == Fillers(filled, first)
  {
    if sorted != [] {
      var n := |sorted| - 1;
      Sorting.SortCounts(filled[n].ticks, ByTime, IsFiller(first));
      SameFillers(sorted[..n], filled[..n], first);
    }
  }

  /** All of `before` is still there, and everything else is new. */
  ghost predicate FilledFrom(after: seq<Tick>, before: seq<Tick>, first: nat) {
    (forall t :: t in before ==> t in after) && (forall t :: t in after ==> t in before || t.id >= first)
  }

  ghost predicate AllFilledFrom(states: seq<FixtureState>, before: seq<FixtureState>, first: nat) {
    |states| == |before| && forall i :: 0 <= i < |states| ==> FilledFrom(states[i].ticks, before[i].ticks, first)
  }

  lemma SortedIsFilledFrom(filled: seq<Tick>, before: seq<Tick>, first: nat)
    requires GrownFrom(before, filled, first)
    ensures FilledFrom(Sorting.Sort(filled, ByTime), before, first)
  {
    ByTimeIsOrder();
    Sorting.SortSorts(filled, ByTime);
    Sorting.SameElements(Sorting.Sort(filled, ByTime), filled);
    hide Sorting.Sort;
    forall t | t in filled ensures t in before || t.id >= first {
      var j :| 0 <= j < |filled| && filled[j] == t;
      if j < |before| {
        assert before[j] == t;
      }
    }
  }

  // ----- From the fixtures as built to the fixtures as finished -----

  /** A tick of the same book and runner, with the same stake, stamped no later. */
  ghost predicate TracesTo(t: Tick, whole: seq<Tick>) {
    exists p :: p in whole && p.Key() == t.Key() && p.at <= t.at && p.liquidity == t.liquidity
  }

  /** Every filler goes back, in one or more steps, to a tick that is none. */
  lemma {:induction false} FillerTraces(ticks: seq<Tick>, first: nat, t: Tick)
    requires FillersDerived(ticks, first) && t in ticks
    ensures t.id < first || exists p :: p in ticks && p.id < first && p.Key() == t.Key() && p.at <= t.at && p.liquidity == t.liquidity
    decreases t.id
  {
    if t.id >= first {
      assert Derived(t, ticks);
      var p :| p in ticks && p.id < t.id && p.Key() == t.Key() && p.at <= t.at && p.liquidity == t.liquidity;
      if p.id >= first {
        FillerTraces(ticks, first, p);
      }
    }
  }

  /** A finished fixture against the fixture as built: every tick was built, or is an open filler that
      repeats an earlier tick object of its runner and goes back to a built one; and every tick that
      no removable snapshot held is still there. */
  ghost predicate KeptAndFilled(f: FixtureState, built: FixtureState, first: nat) {
    && (forall t :: t in f.ticks ==> t in built.ticks || (t.id >= first && !t.suspended && Derived(t, f.ticks) && TracesTo(t, built.ticks)))
    && (forall t :: t in built.ticks && t.id !in SnapshotIds(built.snapshots) ==> t in f.ticks)
  }

  ghost predicate AllKeptAndFilled(states: seq<FixtureState>, built: seq<FixtureState>, first: nat) {
    |states| == |built| && forall i :: 0 <= i < |states| ==> KeptAndFilled(states[i], built[i], first)
  }

  lemma FinishedKeeps(f: FixtureState, trimmed: FixtureState, built: FixtureState, first: nat)
    requires TrimmedFrom(trimmed, built) && FilledFrom(f.ticks, trimmed.ticks, first) && FillersDerived(f.ticks, first)
    ensures KeptAndFilled(f, built, first)
  {
    hide Derived;
    forall t | t in f.ticks && t !in built.ticks
      ensures t.id >= first && !t.suspended && Derived(t, f.ticks) && TracesTo(t, built.ticks)
    {
      FillerTraces(f.ticks, first, t);
    }
  }

  lemma AllFinishedKeep(states: seq<FixtureState>, trimmed: seq<FixtureState>, built: seq<FixtureState>, spans: seq<Span>, first: nat)
    requires AllTrimmedFrom(trimmed, built) && AllFilledFrom(states, trimmed, first) && AllFinished(states, spans, first)
    ensures AllKeptAndFilled(states, built, first)
  {
    hide KeptAndFilled, TrimmedFrom, FilledFrom, FillersDerived;
    forall i | 0 <= i < |states| ensures KeptAndFilled(states[i], built[i], first) {
      FinishedKeeps(states[i], trimmed[i], built[i], first);
    }
  }

  lemma ByTimeIsOrder()
    ensures Sorting.TotalPreorder(ByTime)
  {
  }
}
