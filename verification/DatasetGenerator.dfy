/** `generate_dataset` as a whole (backend/app/db/seed_historical_ticks.py): kick-off times, building,
    the exact start instant, trimming, filling and the final order. */
module DatasetGenerator {
  import opened Prelude
  import opened TickData
  import opened FixtureBuilder
  import opened DatasetBuilder
  import Sorting

  datatype Dataset = Dataset(fixtures: seq<FixtureState>, ticks: seq<Tick>)

  // ----- Kick-offs -----

  predicate Ascending(a: int, b: int) {
    a <= b
  }

  const SLOTS := [11 * HOUR + 30 * MINUTE, 14 * HOUR, 16 * HOUR + 30 * MINUTE, 19 * HOUR, 19 * HOUR + 45 * MINUTE]

  /** One of the five daily kick-off times, one to `whole` days after the first kick-off. */
  ghost predicate OnSlot(kickoff: int, first: int, whole: int) {
    exists day, slot :: 1 <= day <= whole && 0 <= slot < |SLOTS| && kickoff == SlotTime(first, day, slot)
  }

  function SlotTime(first: int, day: int, slot: int): int
    requires 0 <= slot < |SLOTS|
  {
    first + day * DAY + SLOTS[slot]
  }

  lemma SlotBounds(kickoff: int, first: int, whole: int)
    requires OnSlot(kickoff, first, whole)
    ensures first + DAY <= kickoff <= first + whole * DAY + 20 * HOUR
  {
    var day, slot :| 1 <= day <= whole && 0 <= slot < |SLOTS| && kickoff == SlotTime(first, day, slot);
    assert 0 <= SLOTS[slot] <= 20 * HOUR;
    assert DAY <= day * DAY <= whole * DAY;
  }

  /** Kick-offs in order: the first a week after the start, the last so that its closing poll falls
      on the last day's end, and the others on a slot of a day between a day after the first and the
      last whole day. */
  ghost predicate KickoffsFit(kickoffs: seq<int>, start: int, days: int) {
    && |kickoffs| >= 2
    && kickoffs[0] == start + OPENING
    && kickoffs[|kickoffs| - 1] == start + days * DAY + CLOSING
    && Sorting.SortedBy(kickoffs, Ascending)
    && forall i :: 0 < i < |kickoffs| - 1 ==> OnSlot(kickoffs[i], start + OPENING, days - 8)
  }

  /** The kick-offs between the first and the last: a day and a slot each. */
  method MiddleKickoffs(src: Source, count: nat, first: int, whole: int) returns (middle: seq<int>)
    ensures |middle| == count
    ensures forall k :: k in middle ==> OnSlot(k, first, if whole >= 1 then whole else 1)
  {
    var span := if whole >= 1 then whole else 1;
    middle := [];
    for i := 0 to count
      invariant |middle| == i
      invariant forall k :: k in middle ==> OnSlot(k, first, span)
    {
      var day := src.IntIn(1, span);
      var slot := src.IntIn(0, 4);
      assert OnSlot(SlotTime(first, day, slot), first, span);
      middle := middle + [SlotTime(first, day, slot)];
    }
  }

  /** The whole days strictly between the first and the last kick-off. */
  function WholeDays(first: int, last: int): int {
    (last - first) / DAY - 1
  }

  lemma WholeDaysOf(start: int, days: int)
    ensures WholeDays(start + OPENING, start + days * DAY + CLOSING) == days - 8
  {
    assert start + days * DAY + CLOSING - (start + OPENING) == (days - 7) * DAY + CLOSING;
  }

  lemma FramedInOrder(first: int, middle: seq<int>, last: int)
    requires first <= last && Sorting.SortedBy(middle, Ascending)
    requires forall i :: 0 <= i < |middle| ==> first <= middle[i] <= last
    ensures Sorting.SortedBy([first] + middle + [last], Ascending)
  {
    var all := [first] + middle + [last];
    forall i, j | 0 <= i < j < |all| ensures Ascending(all[i], all[j]) {
      if 0 < i && j < |all| - 1 {
        assert Ascending(middle[i - 1], middle[j - 1]);
      }
    }
  }

  lemma SlotsBetween(middle: seq<int>, start: int, days: int)
    requires days >= 30 && forall k :: k in middle ==> OnSlot(k, start + OPENING, days - 8)
    ensures forall k :: k in middle ==> start + OPENING <= k <= start + days * DAY + CLOSING
  {
    hide OnSlot;
    forall k | k in middle ensures start + OPENING <= k <= start + days * DAY + CLOSING {
      SlotBounds(k, start + OPENING, days - 8);
    }
  }

  lemma KickoffsInOrder(middle: seq<int>, start: int, days: int)
    requires days >= 30
    requires forall k :: k in middle ==> OnSlot(k, start + OPENING, days - 8)
    ensures KickoffsFit([start + OPENING] + Sorting.Sort(middle, Ascending) + [start + days * DAY + CLOSING], start, days)
  {
    var sorted := Sorting.Sort(middle, Ascending);
    Sorting.SortSorts(middle, Ascending);
    Sorting.SameElements(sorted, middle);
    hide Sorting.Sort, Sorting.SortedBy, OnSlot;
    assert forall i :: 0 <= i < |sorted| ==> sorted[i] in middle;
    SlotsBetween(middle, start, days);
    var first, last := start + OPENING, start + days * DAY + CLOSING;
    FramedInOrder(first, sorted, last);
    var all := [first] + sorted + [last];
    assert forall i :: 0 < i < |all| - 1 ==> all[i] == sorted[i - 1];
  }

  method Kickoffs(src: Source, n: nat, start: int, days: int) returns (kickoffs: seq<int>)
    requires n >= 2 && days >= 30
    ensures |kickoffs| == n && KickoffsFit(kickoffs, start, days)
  {
    hide Sorting.Sort, KickoffsFit, WholeDays, OnSlot;
    var first := start + OPENING;
    var last := start + days * DAY + CLOSING;
    WholeDaysOf(start, days);
    var middle := MiddleKickoffs(src, n - 2, first, WholeDays(first, last));
    KickoffsInOrder(middle, start, days);
    Sorting.SortSorts(middle, Ascending);
    kickoffs := [first] + Sorting.Sort(middle, Ascending) + [last];
  }

  // ----- The exact start -----

  function Snap(ticks: seq<Tick>, origin: int): (snapped: seq<Tick>)
    ensures |snapped| == |ticks|
  {
    seq(|ticks|, i requires 0 <= i < |ticks| => if ticks[i].at < origin + 2 * SECOND then ticks[i].(at := origin) else ticks[i])
  }

  /** Moving stamps does not change which tick of a runner comes last. */
  lemma {:induction false} SnapLast(ticks: seq<Tick>, origin: int, k: Key)
    ensures var last, moved := LastOf(ticks, k, None), LastOf(Snap(ticks, origin), k, None);
            last.Some? == moved.Some?
            && (last.Some? ==> moved.value.odds == last.value.odds && moved.value.liquidity == last.value.liquidity)
  {
    if ticks != [] {
      var n := |ticks| - 1;
      SnapLast(ticks[..n], origin, k);
      assert Snap(ticks, origin)[..n] == Snap(ticks[..n], origin);
    }
  }

  lemma SnapRepeats(ticks: seq<Tick>, origin: int)
    requires SuspensionsRepeat(ticks)
    ensures SuspensionsRepeat(Snap(ticks, origin))
  {
    var snapped := Snap(ticks, origin);
    forall i | 0 <= i < |snapped| && snapped[i].suspended ensures !Sharp(snapped[i].book) && RepeatsLast(snapped[i], snapped[..i]) {
      SnapLast(ticks[..i], origin, ticks[i].Key());
      assert snapped[..i] == Snap(ticks[..i], origin);
      assert RepeatsLast(ticks[i], ticks[..i]);
    }
  }

  lemma SnapQuotes(ticks: seq<Tick>, markets: seq<Market>, origin: int, at: int, removable: set<nat>)
    requires Complete(ticks, markets, at, removable)
    ensures Complete(Snap(ticks, origin), markets, if at < origin + 2 * SECOND then origin else at, removable)
  {
    var snapped := Snap(ticks, origin);
    var to := if at < origin + 2 * SECOND then origin else at;
    forall k | IsKey(k, markets) ensures Quoted(snapped, k, to, removable) {
      assert Quoted(ticks, k, at, removable);
      var t :| t in ticks && t.Key() == k && t.at == at && !t.suspended && t.id !in removable;
      var i :| 0 <= i < |ticks| && ticks[i] == t;
      assert snapped[i] in snapped && snapped[i].Key() == k;
    }
  }

  lemma SnapIds(ticks: seq<Tick>, origin: int)
    ensures Ids(Snap(ticks, origin)) == Ids(ticks)
  {
    var snapped := Snap(ticks, origin);
    forall id | id in Ids(ticks) ensures id in Ids(snapped) {
      var i :| 0 <= i < |ticks| && ticks[i].id == id;
      assert snapped[i] in snapped && snapped[i].id == id;
    }
    forall id | id in Ids(snapped) ensures id in Ids(ticks) {
      var i :| 0 <= i < |snapped| && snapped[i].id == id;
      assert ticks[i] in ticks && ticks[i].id == id;
    }
  }

  lemma SnapTimes(f: FixtureState, origin: int, opening: int, closing: int)
    requires Timed(f.ticks, opening, closing) && origin <= opening <= origin + JITTER
    ensures Timed(Snap(f.ticks, origin), origin, closing)
  {
    var snapped := Snap(f.ticks, origin);
    forall t | t in snapped ensures origin <= t.at <= closing && (t.at == origin || t.at >= origin + MINUTE) {
      var i :| 0 <= i < |snapped| && snapped[i] == t;
      assert f.ticks[i] in f.ticks;
    }
  }

  lemma SnapSound(f: FixtureState, origin: int, bound: nat)
    requires AllSound(f) && DistinctIds(f.ticks) && IdsBelow(f.ticks, bound)
    ensures AllSound(f.(ticks := Snap(f.ticks, origin)))
    ensures DistinctIds(Snap(f.ticks, origin)) && IdsBelow(Snap(f.ticks, origin), bound)
  {
    var snapped := Snap(f.ticks, origin);
    forall t | t in snapped ensures Sound(t, f.id, f.markets) && t.id < bound {
      var i :| 0 <= i < |snapped| && snapped[i] == t;
      assert f.ticks[i] in f.ticks;
    }
  }

  /** Moving the opening poll of the first fixture to the exact start keeps the fixture in order. */
  lemma SnapKeeps(f: FixtureState, origin: int, opening: int, closing: int, bound: nat)
    requires WellBuilt(f, opening, closing) && origin <= opening <= origin + JITTER && IdsBelow(f.ticks, bound)
    ensures WellBuilt(f.(ticks := Snap(f.ticks, origin)), origin, closing) && IdsBelow(Snap(f.ticks, origin), bound)
  {
    SnapTimes(f, origin, opening, closing);
    SnapSound(f, origin, bound);
    SnapIds(f.ticks, origin);
    SnapQuotes(f.ticks, f.markets, origin, opening, SnapshotIds(f.snapshots));
    SnapQuotes(f.ticks, f.markets, origin, closing, SnapshotIds(f.snapshots));
  }

  // ----- The final order -----

  function MarketRank(m: Market): int {
    if m.MatchOdds? then 0 else 1
  }

  function BookRank(b: Book): int {
    match b
    case BetfairEx => 0
    case Pinnacle => 1
    case Unibet => 2
    case WilliamHill => 3
  }

  function SelectionRank(s: Selection): int {
    match s
    case Away => 0
    case Draw => 1
    case Home => 2
    case Over => 3
    case Under => 4
  }

  /** By time, then fixture, market, book and selection. */
  predicate ByKey(a: Tick, b: Tick) {
    a.at < b.at || (a.at == b.at && (
      a.fixture < b.fixture || (a.fixture == b.fixture && (
        MarketRank(a.market) < MarketRank(b.market) || (MarketRank(a.market) == MarketRank(b.market) && (
          BookRank(a.book) < BookRank(b.book) || (BookRank(a.book) == BookRank(b.book)
            && SelectionRank(a.selection) <= SelectionRank(b.selection))))))))
  }

  lemma ByKeyIsOrder()
    ensures Sorting.TotalPreorder(ByKey)
  {
  }

  function AllTicks(fs: seq<FixtureState>): seq<Tick> {
    if fs == [] then [] else AllTicks(fs[..|fs| - 1]) + fs[|fs| - 1].ticks
  }

  ghost predicate InSome(t: Tick, fs: seq<FixtureState>) {
    exists i :: 0 <= i < |fs| && t in fs[i].ticks
  }

  lemma InSomeSplits(t: Tick, fs: seq<FixtureState>)
    requires fs != []
    ensures InSome(t, fs) <==> InSome(t, fs[..|fs| - 1]) || t in fs[|fs| - 1].ticks
  {
    var pre := fs[..|fs| - 1];
    if i :| 0 <= i < |fs| - 1 && t in fs[i].ticks {
      assert t in pre[i].ticks;
    }
    if i :| 0 <= i < |pre| && t in pre[i].ticks {
      assert t in fs[i].ticks;
    }
  }

  lemma {:induction false} AllTicksHas(fs: seq<FixtureState>)
    ensures |AllTicks(fs)| == TotalTicks(fs)
    ensures forall t :: t in AllTicks(fs) <==> InSome(t, fs)
  {
    if fs != [] {
      AllTicksHas(fs[..|fs| - 1]);
      hide InSome;
      forall t ensures t in AllTicks(fs) <==> InSome(t, fs) {
        InSomeSplits(t, fs);
      }
    }
  }

  // ----- The result -----

  /** Every poll of a fixture falls where its kick-off puts it. */
  ghost predicate SpanFits(span: Span, kickoff: int) {
    && kickoff - OPENING <= span.opening <= kickoff - OPENING + JITTER
    && kickoff - CLOSING <= span.closing <= kickoff - CLOSING + JITTER
  }

  ghost predicate SpansFit(spans: seq<Span>, kickoffs: seq<int>) {
    |spans| == |kickoffs| && forall i :: 0 <= i < |spans| ==> SpanFits(spans[i], kickoffs[i])
  }

  /** How many fixtures are generated for so many rows. */
  function FixtureCount(rows: int): int {
    var estimate := RoundHalfEven(rows as real * 0.86 / 92.0);
    if estimate >= 2 then estimate else 2
  }

  /** How a dataset came about: the kick-offs, when each fixture was first and last polled, the
      fixtures before trimming, and the identity from which on ticks are fillers. */
  datatype Plan = Plan(kickoffs: seq<int>, spans: seq<Span>, built: seq<FixtureState>, first: nat)

  /** Match odds with or without a totals market, and two to four removable snapshots, each one poll of
      twelve or twenty ticks at one of the inner times. */
  ghost predicate Polled(f: FixtureState) {
    && (f.markets == [MatchOdds] || f.markets == [MatchOdds, Totals])
    && 2 <= |f.snapshots| <= 4
    && forall s :: s in f.snapshots ==> |s| == (if f.markets == [MatchOdds] then 12 else 20) && PolledInside(s, f.commence)
  }

  ghost predicate AllPolled(states: seq<FixtureState>) {
    forall i :: 0 <= i < |states| ==> Polled(states[i])
  }

  lemma WholePolls(f: FixtureState)
    requires (f.markets == [MatchOdds] || f.markets == [MatchOdds, Totals]) && 2 <= |f.snapshots| <= 4
    requires forall s :: s in f.snapshots ==> IsPoll(s, f.id, f.markets) && PolledInside(s, f.commence)
    ensures Polled(f)
  {
    hide PolledInside, FullPoll;
    forall s: seq<Tick> | s in f.snapshots ensures |s| == if f.markets == [MatchOdds] then 12 else 20 {
      PollSize(s, f.id, f.markets, s[0].at);
    }
  }

  ghost predicate AllRepeat(states: seq<FixtureState>) {
    forall i :: 0 <= i < |states| ==> SuspensionsRepeat(states[i].ticks)
  }

  /** What holds of the fixtures before trimming, whatever the random source yields: as many as the
      estimate asks for, complete and sound, the first one opening exactly at the start, suspensions
      only of soft books and at their last prices, and no filler yet. */
  ghost predicate PlanFits(p: Plan, rows: int, start: int, days: int) {
    && |p.kickoffs| == FixtureCount(rows) && KickoffsFit(p.kickoffs, start, days)
    && SpansFit(p.spans, p.kickoffs) && p.spans[0].opening == start
    && AllWellBuilt(p.built, p.spans) && AllBelow(p.built, p.first) && AllRepeat(p.built) && AllPolled(p.built)
  }

  /** What the source promises of a dataset: exactly `rows` ticks in time order, the first at the
      start of the first day and the last within a second of the end of the last; finished fixtures,
      one per kick-off, whose ticks are exactly the dataset's. Each fixture keeps what trimming must
      keep, and whatever it has that was not built is a filler that goes back to a built tick of the
      same book and runner, stamped no later. No more is trimmed and
      filled than the count asks for. */
  ghost predicate Promised(d: Dataset, rows: nat, start: int, days: int, p: Plan) {
    && |d.ticks| == rows
    && Sorting.SortedBy(d.ticks, ByKey)
    && d.ticks != [] && d.ticks[0].at == start
    && start + days * DAY <= d.ticks[|d.ticks| - 1].at < start + days * DAY + SECOND
    && (forall i :: 0 <= i < |d.fixtures| && i < |p.kickoffs| ==> d.fixtures[i].commence == p.kickoffs[i] && d.fixtures[i].id == i)
    && AllFinished(d.fixtures, p.spans, p.first)
    && AllKeptAndFilled(d.fixtures, p.built, p.first) && NoMoreThanNeeded(d.fixtures, p.built, rows, p.first)
    && multiset(d.ticks) == multiset(AllTicks(d.fixtures))
  }

  lemma SpanBounds(spans: seq<Span>, kickoffs: seq<int>, start: int, days: int, i: nat)
    requires KickoffsFit(kickoffs, start, days) && SpansFit(spans, kickoffs) && i < |spans| && days >= 30
    ensures start <= spans[i].opening && spans[i].closing <= start + days * DAY + JITTER
  {
    assert SpanFits(spans[i], kickoffs[i]);
  }

  lemma SomeTickAt(f: FixtureState, span: Span, first: nat)
    requires Finished(f, span, first)
    ensures exists t :: t in f.ticks && t.at == span.opening
    ensures exists t :: t in f.ticks && t.at == span.closing
  {
    assert Quoted(f.ticks, Runner(Pinnacle, MatchOdds, Home), span.opening, {});
    assert Quoted(f.ticks, Runner(Pinnacle, MatchOdds, Home), span.closing, {});
  }

  /** The sorted ticks start and end where the first and the last fixture do. */
  lemma FirstAndLast(states: seq<FixtureState>, spans: seq<Span>, kickoffs: seq<int>, start: int, days: int, first: nat, ticks: seq<Tick>)
    requires KickoffsFit(kickoffs, start, days) && SpansFit(spans, kickoffs) && days >= 30
    requires spans[0].opening == start && AllFinished(states, spans, first)
    requires Sorting.SortedBy(ticks, ByKey) && multiset(ticks) == multiset(AllTicks(states))
    ensures ticks != [] && ticks[0].at == start
    ensures start + days * DAY <= ticks[|ticks| - 1].at < start + days * DAY + SECOND
  {
    hide Finished, KickoffsFit;
    AllTicksHas(states);
    Sorting.SameElements(ticks, AllTicks(states));
    forall t | t in ticks ensures start <= t.at <= start + days * DAY + JITTER {
      var i :| 0 <= i < |states| && t in states[i].ticks;
      WithinSpan(states[i], spans[i], first, t);
      SpanBounds(spans, kickoffs, start, days, i);
    }
    var n := |states| - 1;
    LastSpan(spans, kickoffs, start, days);
    SomeTickAt(states[0], spans[0], first);
    SomeTickAt(states[n], spans[n], first);
    var a :| a in states[0].ticks && a.at == start;
    var z :| z in states[n].ticks && z.at == spans[n].closing;
    assert a in ticks && z in ticks;
    EndsOfSorted(ticks, a);
    EndsOfSorted(ticks, z);
    assert ticks[0] in ticks && ticks[|ticks| - 1] in ticks;
  }

  lemma WithinSpan(f: FixtureState, span: Span, first: nat, t: Tick)
    requires Finished(f, span, first) && t in f.ticks
    ensures span.opening <= t.at <= span.closing
  {
  }

  lemma LastSpan(spans: seq<Span>, kickoffs: seq<int>, start: int, days: int)
    requires KickoffsFit(kickoffs, start, days) && SpansFit(spans, kickoffs)
    ensures |spans| >= 2 && start + days * DAY <= spans[|spans| - 1].closing
  {
    assert SpanFits(spans[|spans| - 1], kickoffs[|spans| - 1]);
  }

  lemma EndsOfSorted(ticks: seq<Tick>, t: Tick)
    requires Sorting.SortedBy(ticks, ByKey) && t in ticks
    ensures ticks[0].at <= t.at <= ticks[|ticks| - 1].at
  {
    var i :| 0 <= i < |ticks| && ticks[i] == t;
    assert i > 0 ==> ByKey(ticks[0], ticks[i]);
    assert i < |ticks| - 1 ==> ByKey(ticks[i], ticks[|ticks| - 1]);
  }

  // ----- The whole generator -----

  /** One fixture, with or without a totals market. */
  method BuildOne(src: Source, id: nat, kickoff: int) returns (f: Fixture, ghost span: Span)
    modifies src
    ensures fresh(f) && f.commence == kickoff && f.id == id && SpanFits(span, kickoff) && src.nextId >= old(src.nextId)
    ensures WellBuilt(f.Value(), span.opening, span.closing) && IdsBelow(f.ticks, src.nextId) && SuspensionsRepeat(f.ticks)
    ensures Polled(f.Value())
  {
    hide WellBuilt, SuspensionsRepeat, IsPoll, PolledInside;
    var both := src.Flip();
    f := new Fixture(id, kickoff, if both then [MatchOdds, Totals] else [MatchOdds]);
    ghost var opening, closing;
    opening, closing := Build(src, f);
    WholePolls(f.Value());
    span := Span(opening, closing);
  }

  /** A fixture per kick-off. */
  method BuildAll(src: Source, kickoffs: seq<int>) returns (fs: seq<Fixture>, ghost spans: seq<Span>)
    modifies src
    ensures |fs| == |kickoffs| && Distinct(fs) && fresh(set f | f in fs)
    ensures AllWellBuilt(States(fs), spans) && AllBelow(States(fs), src.nextId) && SpansFit(spans, kickoffs)
    ensures AllRepeat(States(fs)) && AllPolled(States(fs)) && forall i :: 0 <= i < |fs| ==> fs[i].commence == kickoffs[i] && fs[i].id == i
  {
    hide WellBuilt, IdsBelow, SpanFits, SuspensionsRepeat, Polled;
    fs, spans := [], [];
    for i := 0 to |kickoffs|
      invariant |fs| == |spans| == i && Distinct(fs) && fresh(set f | f in fs)
      invariant AllWellBuilt(States(fs), spans) && AllBelow(States(fs), src.nextId)
      invariant AllRepeat(States(fs)) && AllPolled(States(fs))
      invariant forall j :: 0 <= j < i ==> SpanFits(spans[j], kickoffs[j]) && fs[j].commence == kickoffs[j] && fs[j].id == j
    {
      ghost var before, bound := States(fs), src.nextId;
      var f;
      ghost var span;
      f, span := BuildOne(src, i, kickoffs[i]);
      assert f !in fs && States(fs) == before;
      BelowLater(before, bound, src.nextId);
      fs, spans := fs + [f], spans + [span];
      assert States(fs) == before + [f.Value()];
    }
  }

  lemma BelowLater(states: seq<FixtureState>, bound: nat, later: nat)
    requires AllBelow(states, bound) && bound <= later
    ensures AllBelow(states, later)
  {
  }

  /** The first fixture's opening snapshot becomes the dataset's first instant; its other ticks and
      the other fixtures stay as they are. */
  method SnapFirst(fs: seq<Fixture>, origin: int, ghost spans: seq<Span>, ghost bound: nat) returns (ghost snapped: seq<Span>)
    requires Distinct(fs) && fs != [] && AllWellBuilt(States(fs), spans) && AllBelow(States(fs), bound)
    requires AllRepeat(States(fs)) && AllPolled(States(fs))
    requires origin <= spans[0].opening <= origin + JITTER
    modifies fs[0]
    ensures fs[0].snapshots == old(fs[0].snapshots) && |fs[0].ticks| == |old(fs[0].ticks)|
    ensures forall i :: 0 <= i < |fs[0].ticks| ==>
              var t := old(fs[0].ticks)[i];
              fs[0].ticks[i] == if t.at < origin + 2 * SECOND then t.(at := origin) else t
    ensures snapped == spans[0 := spans[0].(opening := origin)]
    ensures AllWellBuilt(States(fs), snapped) && AllBelow(States(fs), bound) && AllRepeat(States(fs)) && AllPolled(States(fs))
  {
    hide WellBuilt, SuspensionsRepeat, PolledInside;
    ghost var before := States(fs);
    SnapKeeps(before[0], origin, spans[0].opening, spans[0].closing, bound);
    SnapRepeats(before[0].ticks, origin);
    fs[0].ticks := Snap(fs[0].ticks, origin);
    snapped := spans[0 := spans[0].(opening := origin)];
    assert States(fs) == before[0 := before[0].(ticks := Snap(before[0].ticks, origin))];
  }

  /** The fixtures before trimming, the first one opening exactly at the start. */
  method Prepare(src: Source, rows: int, start: int, days: int) returns (fs: seq<Fixture>, ghost plan: Plan)
    requires days >= 30
    modifies src
    ensures fs != [] && |fs| == |plan.kickoffs| && Distinct(fs) && fresh(set f | f in fs)
    ensures PlanFits(plan, rows, start, days) && plan.built == States(fs) && plan.first == src.nextId
    ensures forall i :: 0 <= i < |fs| ==> fs[i].commence == plan.kickoffs[i] && fs[i].id == i
  {
    hide AllWellBuilt, AllBelow, AllRepeat, AllPolled, KickoffsFit, SpanFits;
    var times := Kickoffs(src, FixtureCount(rows), start, days);
    ghost var polled;
    fs, polled := BuildAll(src, times);
    FirstOpens(polled, times, start, days);
    ghost var spans := SnapFirst(fs, start, polled, src.nextId);
    SnappedFits(polled, times, start, days);
    plan := Plan(times, spans, States(fs), src.nextId);
  }

  /** When everything built fits, all of it is kept and only the rest is filled; else the fillers are
      fewer than one removable snapshot. */
  ghost predicate NoMoreThanNeeded(states: seq<FixtureState>, built: seq<FixtureState>, rows: nat, first: nat) {
    if TotalTicks(built) <= rows then
      && Fillers(states, first) == rows - TotalTicks(built)
      && |states| == |built| && forall i, t :: 0 <= i < |built| && t in built[i].ticks ==> t in states[i].ticks
    else
      exists i, s :: 0 <= i < |built| && s in built[i].snapshots && Fillers(states, first) < |s|
  }

  lemma FewFillers(states: seq<FixtureState>, built: seq<FixtureState>, trimmed: seq<FixtureState>, base: nat, rows: nat, first: nat)
    requires base <= rows && Fillers(states, first) == rows - base && AllFilledFrom(states, trimmed, first)
    requires TotalTicks(built) <= rows ==> base == TotalTicks(built) && trimmed == built
    requires TotalTicks(built) > rows ==> DropNeeded(built, base, rows)
    ensures NoMoreThanNeeded(states, built, rows, first)
  {
    hide TotalTicks, Fillers;
    if TotalTicks(built) > rows {
      var i, s :| 0 <= i < |built| && s in built[i].snapshots && rows < base + |s|;
    }
  }

  /** Trimmed down to at most `rows`, then filled up to them, unless trimming cannot get there. */
  method TrimAndFill(src: Source, fs: seq<Fixture>, rows: nat, ghost spans: seq<Span>) returns (ok: bool)
    requires Distinct(fs) && fs != [] && AllWellBuilt(States(fs), spans) && AllBelow(States(fs), src.nextId)
    modifies src, fs
    ensures ok <==> TotalFixed(old(States(fs))) <= rows
    ensures ok ==> TotalTicks(States(fs)) == rows && AllFinished(States(fs), spans, old(src.nextId))
    ensures ok ==> AllKeptAndFilled(States(fs), old(States(fs)), old(src.nextId))
    ensures ok ==> NoMoreThanNeeded(States(fs), old(States(fs)), rows, old(src.nextId))
  {
    hide AllWellBuilt, AllBelow, AllTrimmedFrom, AllFilledFrom, AllFinished, AllKeptAndFilled, TotalTicks, TotalFixed, Fillers;
    var total := CountTicks(fs);
    var base;
    ok, base := Trim(src, fs, rows, total, spans);
    if ok {
      ghost var trimmed := States(fs);
      Fill(src, fs, rows - base, spans);
      AllFinishedKeep(States(fs), trimmed, old(States(fs)), spans, old(src.nextId));
      FewFillers(States(fs), old(States(fs)), trimmed, base, rows, old(src.nextId));
    }
  }

  /** The finished fixtures and their ticks in the final order. */
  method Assemble(fs: seq<Fixture>, start: int, days: int, ghost plan: Plan, ghost rows: nat) returns (d: Dataset)
    requires |fs| == |plan.kickoffs| && forall i :: 0 <= i < |fs| ==> fs[i].commence == plan.kickoffs[i] && fs[i].id == i
    requires KickoffsFit(plan.kickoffs, start, days) && SpansFit(plan.spans, plan.kickoffs) && plan.spans[0].opening == start && days >= 30
    requires AllFinished(States(fs), plan.spans, plan.first) && AllKeptAndFilled(States(fs), plan.built, plan.first)
    requires rows == TotalTicks(States(fs)) && NoMoreThanNeeded(States(fs), plan.built, rows, plan.first)
    ensures Promised(d, rows, start, days, plan)
  {
    hide AllFinished, AllKeptAndFilled, NoMoreThanNeeded, TotalTicks, KickoffsFit, SpanFits, Sorting.Sort, ByKey;
    var ticks, fixtures := Gather(fs);
    AllTicksHas(fixtures);
    ByKeyIsOrder();
    Sorting.SortSorts(ticks, ByKey);
    var sorted := Sorting.Sort(ticks, ByKey);
    FirstAndLast(fixtures, plan.spans, plan.kickoffs, start, days, plan.first, sorted);
    d := Dataset(fixtures, sorted);
  }

  /** Exactly `rows` ticks or an error. The errors are the two argument checks and a trim that cannot
      get down to `rows`, which happens exactly when the ticks that no snapshot holds are too many. */
  method GenerateDataset(src: Source, rows: int, start: int, days: int) returns (r: Result<Dataset, BuildError>, ghost plan: Plan)
    modifies src
    ensures rows < 500 ==> r == Failure(TooFewRows)
    ensures rows >= 500 && days < 30 ==> r == Failure(TooFewDays)
    ensures rows >= 500 && days >= 30 ==> PlanFits(plan, rows, start, days)
    ensures rows >= 500 && days >= 30 && TotalFixed(plan.built) > rows ==> r == Failure(CannotTrim)
    ensures rows >= 500 && days >= 30 && TotalFixed(plan.built) <= rows ==> r.Success? && Promised(r.value, rows, start, days, plan)
  {
    hide AllWellBuilt, AllBelow, AllRepeat, AllPolled, AllFinished, AllKeptAndFilled, NoMoreThanNeeded, TotalTicks, TotalFixed, KickoffsFit, SpansFit, Promised, FixtureCount;
    if rows < 500 {
      return Failure(TooFewRows), Plan([], [], [], 0);
    }
    if days < 30 {
      return Failure(TooFewDays), Plan([], [], [], 0);
    }
    var fs;
    fs, plan := Prepare(src, rows, start, days);
    var ok := TrimAndFill(src, fs, rows, plan.spans);
    if !ok {
      return Failure(CannotTrim), plan;
    }
    var d := Assemble(fs, start, days, plan, rows);
    r := Success(d);
  }

  lemma FirstOpens(spans: seq<Span>, kickoffs: seq<int>, start: int, days: int)
    requires KickoffsFit(kickoffs, start, days) && SpansFit(spans, kickoffs)
    ensures |spans| >= 2 && start <= spans[0].opening <= start + JITTER
  {
    assert SpanFits(spans[0], kickoffs[0]);
  }

  lemma SnappedFits(spans: seq<Span>, kickoffs: seq<int>, start: int, days: int)
    requires KickoffsFit(kickoffs, start, days) && SpansFit(spans, kickoffs)
    ensures SpansFit(spans[0 := spans[0].(opening := start)], kickoffs)
  {
    var snapped := spans[0 := spans[0].(opening := start)];
    forall i | 0 <= i < |snapped| ensures SpanFits(snapped[i], kickoffs[i]) {
      assert SpanFits(spans[i], kickoffs[i]);
    }
  }

  method CountTicks(fs: seq<Fixture>) returns (total: nat)
    ensures total == TotalTicks(States(fs))
  {
    total := 0;
    ghost var states := States(fs);
    for i := 0 to |fs|
      invariant total == TotalTicks(states[..i])
    {
      assert states[..i + 1][..i] == states[..i];
      total := total + |fs[i].ticks|;
    }
    assert states[..|fs|] == states;
  }

  /** All ticks of all fixtures, and the fixtures as values. */
  method Gather(fs: seq<Fixture>) returns (ticks: seq<Tick>, fixtures: seq<FixtureState>)
    ensures fixtures == States(fs) && ticks == AllTicks(fixtures)
  {
    ticks, fixtures := [], [];
    ghost var states := States(fs);
    for i := 0 to |fs|
      invariant fixtures == states[..i] && ticks == AllTicks(fixtures)
    {
      var f := fs[i];
      ghost var shorter := fixtures;
      fixtures := fixtures + [FixtureState(f.id, f.commence, f.markets, f.ticks, f.snapshots)];
      assert fixtures[..i] == shorter;
      ticks := ticks + f.ticks;
    }
    assert states[..|fs|] == states;
  }
}
