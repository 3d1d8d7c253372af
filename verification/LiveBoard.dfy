/** The live-odds board of backend/app/core/live_odds.py: a hash of latest ticks, a time index used
    for pruning, and a short price history per cell. Each publish is one atomic step; the result is
    compared with the plain log of everything published. */
module LiveBoard {
  import opened Prelude

  datatype Tick = Tick(key: string, odds: real, probability: real, suspended: bool)

  /** A member of a cell's history: the time to the millisecond, the odds and the probability. */
  datatype Point = Point(millis: int, odds: real, probability: real)

  datatype History = History(points: map<Point, real>, expiresAt: real)

  datatype Settings = Settings(ttl: real, window: real) {
    predicate Valid() {
      ttl > 0.0 && window > 0.0
    }
  }

  datatype Store = Store(board: map<string, Tick>, stamps: map<string, real>, histories: map<string, History>)

  const EMPTY := Store(map[], map[], map[])

  /** One tick as it was published. */
  datatype Update = Update(at: real, tick: Tick) {
    function Member(): Point {
      Point(RoundHalfEven(at * 1000.0), tick.odds, tick.probability)
    }
  }

  // ----- One publish -----

  function Prune<V>(m: map<string, V>, stale: set<string>): map<string, V> {
    map k | k in m && k !in stale :: m[k]
  }

  function Stale(s: Store, cutoff: real): set<string> {
    set k | k in s.stamps && s.stamps[k] <= cutoff
  }

  function WriteTicks(board: map<string, Tick>, ticks: seq<Tick>): map<string, Tick> {
    if ticks == [] then board
    else
      var n := |ticks| - 1;
      WriteTicks(board, ticks[..n])[ticks[n].key := ticks[n]]
  }

  function WriteStamps(stamps: map<string, real>, ticks: seq<Tick>, now: real): map<string, real> {
    if ticks == [] then stamps
    else
      var n := |ticks| - 1;
      WriteStamps(stamps, ticks[..n], now)[ticks[n].key := now]
  }

  /** The history commands of one tick: add, trim to the window, renew the expiry. */
  function Record(h: map<string, History>, u: Update, window: real): map<string, History> {
    if u.tick.odds <= 1.0 then h
    else
      var key := u.tick.key;
      var live := if key in h && u.at <= h[key].expiresAt then h[key].points else map[];
      var added := live[u.Member() := u.at];
      h[key := History(map p | p in added && added[p] > u.at - window :: added[p], u.at + window)]
  }

  function RecordAll(h: map<string, History>, ticks: seq<Tick>, now: real, window: real): map<string, History> {
    if ticks == [] then h
    else
      var n := |ticks| - 1;
      Record(RecordAll(h, ticks[..n], now, window), Update(now, ticks[n]), window)
  }

  function Published(c: Settings, s: Store, ticks: seq<Tick>, now: real): Store {
    if ticks == [] then s
    else
      var stale := Stale(s, now - c.ttl);
      Store(WriteTicks(Prune(s.board, stale), ticks),
            WriteStamps(Prune(s.stamps, stale), ticks, now),
            RecordAll(s.histories, ticks, now, c.window))
  }

  /** The cells updated since the cutoff. */
  function Snapshot(c: Settings, s: Store, now: real): map<string, Tick> {
    map k | k in s.stamps && s.stamps[k] >= now - c.ttl && k in s.board :: s.board[k]
  }

  /** Whether there is a Redis to talk to, and whether it answers. */
  datatype Redis = NoRedis | Unreachable | Reachable

  class LiveOdds {
    const settings: Settings
    var board: map<string, Tick>
    var stamps: map<string, real>
    var histories: map<string, History>

    ghost function Value(): Store
      reads this
    {
      Store(board, stamps, histories)
    }

    constructor (settings: Settings)
      ensures this.settings == settings && Value() == EMPTY
    {
      this.settings := settings;
      board, stamps, histories := map[], map[], map[];
    }

    /** Add a priced tick to its cell's history, trim to the window, renew the expiry. */
    method AddToHistory(update: Update)
      requires update.tick.odds > 1.0
      modifies this`histories
      ensures histories == Record(old(histories), update, settings.window)
    {
      var key := update.tick.key;
      var live := if key in histories && update.at <= histories[key].expiresAt then histories[key].points else map[];
      var added := live[update.Member() := update.at];
      var kept := map p | p in added && added[p] > update.at - settings.window :: added[p];
      histories := histories[key := History(kept, update.at + settings.window)];
    }

    method AddToHistories(ticks: seq<Tick>, now: real)
      modifies this`histories
      ensures histories == RecordAll(old(histories), ticks, now, settings.window)
    {
      for i := 0 to |ticks|
        invariant histories == RecordAll(old(histories), ticks[..i], now, settings.window)
      {
        assert ticks[..i + 1][..i] == ticks[..i];
        if ticks[i].odds > 1.0 {
          AddToHistory(Update(now, ticks[i]));
        }
      }
      assert ticks[..|ticks|] == ticks;
    }

    /** False, and nothing stored, without a Redis or when it cannot be reached; an empty batch does
        not try to reach it. */
    method Publish(redis: Redis, ticks: seq<Tick>, now: real) returns (ok: bool)
      modifies this
      ensures ok <==> redis == Reachable || (redis == Unreachable && ticks == [])
      ensures Value() == if ok then Published(settings, old(Value()), ticks, now) else old(Value())
    {
      if redis == NoRedis || ticks == [] {
        return redis != NoRedis;
      }
      if redis == Unreachable {
        return false;
      }
      var cutoff := now - settings.ttl;
      var stale := set k | k in stamps && stamps[k] <= cutoff;
      if stale != {} {
        board := Prune(board, stale);
        stamps := Prune(stamps, stale);
      } else {
        assert Prune(board, stale) == board && Prune(stamps, stale) == stamps;
      }
      board := WriteTicks(board, ticks);
      stamps := WriteStamps(stamps, ticks, now);
      hide RecordAll;
      AddToHistories(ticks, now);
      return true;
    }
  }

  // ----- The log -----

  datatype Batch = Batch(at: real, ticks: seq<Tick>)

  /** Publish times never go back, and none is later than `now`. */
  ghost predicate InOrder(log: seq<Batch>, now: real) {
    log == [] || (log[|log| - 1].at <= now && InOrder(log[..|log| - 1], log[|log| - 1].at))
  }

  function StoreAfter(c: Settings, log: seq<Batch>): Store {
    if log == [] then EMPTY
    else
      var last := log[|log| - 1];
      Published(c, StoreAfter(c, log[..|log| - 1]), last.ticks, last.at)
  }

  /** The last tick of a key in one batch. */
  function LastTick(ticks: seq<Tick>, key: string): Option<Tick> {
    if ticks == [] then None
    else
      var n := |ticks| - 1;
      if ticks[n].key == key then Some(ticks[n]) else LastTick(ticks[..n], key)
  }

  /** The last update of a key anywhere in the log. */
  function LastUpdate(log: seq<Batch>, key: string): Option<Update> {
    if log == [] then None
    else
      var n := |log| - 1;
      match LastTick(log[n].ticks, key)
      case Some(tick) => Some(Update(log[n].at, tick))
      case None => LastUpdate(log[..n], key)
  }

  /** When something was last published: the moment of the last pruning. */
  function LastPublish(log: seq<Batch>): Option<real> {
    if log == [] then None
    else
      var n := |log| - 1;
      if log[n].ticks != [] then Some(log[n].at) else LastPublish(log[..n])
  }

  lemma {:induction false} WriteTicksAt(board: map<string, Tick>, ticks: seq<Tick>, key: string)
    ensures var w := WriteTicks(board, ticks);
            match LastTick(ticks, key)
            case Some(tick) => key in w && w[key] == tick
            case None => (key in w <==> key in board) && (key in board ==> w[key] == board[key])
  {
    if ticks != [] {
      WriteTicksAt(board, ticks[..|ticks| - 1], key);
    }
  }

  lemma {:induction false} WriteStampsAt(stamps: map<string, real>, ticks: seq<Tick>, now: real, key: string)
    ensures var w := WriteStamps(stamps, ticks, now);
            if LastTick(ticks, key).Some? then key in w && w[key] == now
            else (key in w <==> key in stamps) && (key in stamps ==> w[key] == stamps[key])
  {
    if ticks != [] {
      WriteStampsAt(stamps, ticks[..|ticks| - 1], now, key);
    }
  }

  lemma {:induction false} UpdatesNotAfter(log: seq<Batch>, key: string, now: real)
    requires InOrder(log, now)
    ensures LastUpdate(log, key).Some? ==> LastPublish(log).Some? && LastUpdate(log, key).value.at <= LastPublish(log).value
    ensures LastPublish(log).Some? ==> LastPublish(log).value <= now
  {
    if log != [] {
      var n := |log| - 1;
      UpdatesNotAfter(log[..n], key, log[n].at);
    }
  }

  /** Hash and index hold a key exactly when its last update was younger than the TTL at the last
      pruning, and then they hold that update. */
  lemma {:induction false} BoardRefinesLog(c: Settings, log: seq<Batch>, now: real, key: string)
    requires c.Valid() && InOrder(log, now)
    ensures var s := StoreAfter(c, log);
            match LastUpdate(log, key)
            case None => key !in s.board && key !in s.stamps
            case Some(u) =>
              && LastPublish(log).Some?
              && (key in s.board <==> u.at > LastPublish(log).value - c.ttl)
              && (key in s.stamps <==> key in s.board)
              && (key in s.board ==> s.board[key] == u.tick && s.stamps[key] == u.at)
  {
    if log != [] {
      var n := |log| - 1;
      var last, pre := log[n], log[..n];
      BoardRefinesLog(c, pre, last.at, key);
      UpdatesNotAfter(pre, key, last.at);
      if last.ticks != [] {
        var s := StoreAfter(c, pre);
        var stale := Stale(s, last.at - c.ttl);
        WriteTicksAt(Prune(s.board, stale), last.ticks, key);
        WriteStampsAt(Prune(s.stamps, stale), last.ticks, last.at, key);
      } else {
        assert LastTick(last.ticks, key) == None;
      }
    }
  }

  /** The hash and the time index always have the same keys. */
  lemma SameKeys(c: Settings, log: seq<Batch>, now: real)
    requires c.Valid() && InOrder(log, now)
    ensures StoreAfter(c, log).board.Keys == StoreAfter(c, log).stamps.Keys
  {
    forall key ensures key in StoreAfter(c, log).board <==> key in StoreAfter(c, log).stamps {
      BoardRefinesLog(c, log, now, key);
    }
  }

  /** What a reader gets at `now`: the last tick of every key updated strictly within the TTL, and
      nothing older. A key whose last update is exactly one TTL old is there unless something was
      published at this very instant. */
  lemma SnapshotRefinesLog(c: Settings, log: seq<Batch>, now: real, key: string)
    requires c.Valid() && InOrder(log, now)
    ensures var view := Snapshot(c, StoreAfter(c, log), now);
            match LastUpdate(log, key)
            case None => key !in view
            case Some(u) =>
              && (key in view <==> u.at > now - c.ttl || (u.at == now - c.ttl && LastPublish(log) != Some(now)))
              && (key in view ==> view[key] == u.tick)
  {
    BoardRefinesLog(c, log, now, key);
    UpdatesNotAfter(log, key, now);
  }

  // ----- Histories -----

  /** Every tick of the log in order, with its publish time. */
  function Updates(log: seq<Batch>): seq<Update> {
    if log == [] then []
    else
      var n := |log| - 1;
      Updates(log[..n]) + Stamped(log[n].ticks, log[n].at)
  }

  function Stamped(ticks: seq<Tick>, at: real): (u: seq<Update>)
    ensures |u| == |ticks|
  {
    seq(|ticks|, i requires 0 <= i < |ticks| => Update(at, ticks[i]))
  }

  function RecordUpdates(updates: seq<Update>, window: real): map<string, History> {
    if updates == [] then map[]
    else Record(RecordUpdates(updates[..|updates| - 1], window), updates[|updates| - 1], window)
  }

  lemma {:induction false} RecordAllIsUpdates(updates: seq<Update>, ticks: seq<Tick>, now: real, window: real)
    ensures RecordAll(RecordUpdates(updates, window), ticks, now, window) == RecordUpdates(updates + Stamped(ticks, now), window)
  {
    var all := updates + Stamped(ticks, now);
    if ticks == [] {
      assert all == updates;
    } else {
      var n := |ticks| - 1;
      RecordAllIsUpdates(updates, ticks[..n], now, window);
      assert all[..|all| - 1] == updates + Stamped(ticks[..n], now);
    }
  }

  lemma {:induction false} HistoriesFromUpdates(c: Settings, log: seq<Batch>)
    ensures StoreAfter(c, log).histories == RecordUpdates(Updates(log), c.window)
  {
    if log != [] {
      var n := |log| - 1;
      HistoriesFromUpdates(c, log[..n]);
      RecordAllIsUpdates(Updates(log[..n]), log[n].ticks, log[n].at, c.window);
      if log[n].ticks == [] {
        assert Updates(log) == Updates(log[..n]);
      }
    }
  }

  ghost predicate UpdatesInOrder(updates: seq<Update>, now: real) {
    updates == [] || (updates[|updates| - 1].at <= now && UpdatesInOrder(updates[..|updates| - 1], updates[|updates| - 1].at))
  }

  lemma {:induction false} StampedInOrder(updates: seq<Update>, ticks: seq<Tick>, now: real)
    requires UpdatesInOrder(updates, now)
    ensures UpdatesInOrder(updates + Stamped(ticks, now), now)
  {
    var all := updates + Stamped(ticks, now);
    if ticks == [] {
      assert all == updates;
    } else {
      StampedInOrder(updates, ticks[..|ticks| - 1], now);
      assert all[..|all| - 1] == updates + Stamped(ticks[..|ticks| - 1], now);
    }
  }

  lemma {:induction false} LogInOrder(log: seq<Batch>, now: real)
    requires InOrder(log, now)
    ensures UpdatesInOrder(Updates(log), now)
  {
    if log != [] {
      var n := |log| - 1;
      LogInOrder(log[..n], log[n].at);
      StampedInOrder(Updates(log[..n]), log[n].ticks, log[n].at);
      LaterIsFine(Updates(log), log[n].at, now);
    }
  }

  lemma LaterIsFine(updates: seq<Update>, now: real, later: real)
    requires UpdatesInOrder(updates, now) && now <= later
    ensures UpdatesInOrder(updates, later)
  {
  }

  /** When the cell was last priced above 1. */
  function LastPriced(updates: seq<Update>, key: string): Option<real> {
    if updates == [] then None
    else
      var n := |updates| - 1;
      if updates[n].tick.key == key && updates[n].tick.odds > 1.0 then Some(updates[n].at) else LastPriced(updates[..n], key)
  }

  /** `p` is how the update appears in a history: its odds, its probability and its time to the nearest
      millisecond, an even one at a tie. */
  ghost predicate IsPointOf(p: Point, u: Update) {
    p.odds == u.tick.odds && p.probability == u.tick.probability && IsNearest(p.millis, 1000.0 * u.at)
  }

  lemma MemberIff(u: Update, p: Point)
    ensures u.Member() == p <==> IsPointOf(p, u)
  {
    RoundHalfEvenIff(1000.0 * u.at, p.millis);
  }

  /** Updates with different odds or probabilities, or more than a millisecond apart, never share a
      point, so neither hides the other in a history. */
  lemma PointsDiffer(u: Update, v: Update, p: Point)
    requires u.tick.odds != v.tick.odds || u.tick.probability != v.tick.probability || u.at > v.at + 0.001
    ensures !(IsPointOf(p, u) && IsPointOf(p, v))
  {
  }

  /** An update of the cell with odds above 1 that appears as `p`. */
  ghost predicate Prices(u: Update, key: string, p: Point) {
    u.tick.key == key && u.tick.odds > 1.0 && IsPointOf(p, u)
  }

  /** When this point of the cell was last published. */
  ghost function LastAdded(updates: seq<Update>, key: string, p: Point): Option<real> {
    if updates == [] then None
    else
      var n := |updates| - 1;
      if Prices(updates[n], key, p) then Some(updates[n].at) else LastAdded(updates[..n], key, p)
  }

  lemma {:induction false} AddedNotAfterPriced(updates: seq<Update>, key: string, p: Point, now: real)
    requires UpdatesInOrder(updates, now)
    ensures LastPriced(updates, key).Some? ==> LastPriced(updates, key).value <= now
    ensures LastAdded(updates, key, p).Some? ==> LastPriced(updates, key).Some? && LastAdded(updates, key, p).value <= LastPriced(updates, key).value
  {
    if updates != [] {
      var n := |updates| - 1;
      AddedNotAfterPriced(updates[..n], key, p, updates[n].at);
    }
  }

  /** A history is what was added strictly within the window before the cell was last priced. */
  lemma {:induction false} HistoryAt(updates: seq<Update>, key: string, p: Point, now: real, window: real)
    requires window > 0.0 && UpdatesInOrder(updates, now)
    ensures var h := RecordUpdates(updates, window);
            match LastPriced(updates, key)
            case None => key !in h
            case Some(u) =>
              && key in h && h[key].expiresAt == u + window
              && var added := LastAdded(updates, key, p);
                 && (p in h[key].points <==> added.Some? && added.value > u - window)
                 && (p in h[key].points ==> h[key].points[p] == added.value)
  {
    if updates != [] {
      var n := |updates| - 1;
      HistoryAt(updates[..n], key, p, updates[n].at, window);
      MemberIff(updates[n], p);
      hide IsPointOf;
      AddedNotAfterPriced(updates[..n], key, p, updates[n].at);
    }
  }

  lemma {:induction false} AddedMeansPublished(updates: seq<Update>, key: string, p: Point, now: real, since: real)
    requires UpdatesInOrder(updates, now)
    ensures LastAdded(updates, key, p).Some? && LastAdded(updates, key, p).value > since
       <==> exists u :: u in updates && Prices(u, key, p) && u.at > since
  {
    if updates != [] {
      var n := |updates| - 1;
      var pre, last := updates[..n], updates[n];
      AddedMeansPublished(pre, key, p, last.at, since);
      hide IsPointOf;
      assert forall u :: u in updates <==> u in pre || u == last;
      forall u | u in pre ensures u.at <= last.at {
        NoneAfter(pre, last.at, u);
      }
    }
  }

  lemma {:induction false} NoneAfter(updates: seq<Update>, now: real, u: Update)
    requires UpdatesInOrder(updates, now) && u in updates
    ensures u.at <= now
  {
    var n := |updates| - 1;
    if u != updates[n] {
      assert u in updates[..n];
      NoneAfter(updates[..n], updates[n].at, u);
    }
  }

  lemma {:induction false} PricedInBatch(updates: seq<Update>, ticks: seq<Tick>, at: real, key: string)
    requires exists t :: t in ticks && t.key == key && t.odds > 1.0
    ensures LastPriced(updates + Stamped(ticks, at), key) == Some(at)
  {
    var n := |ticks| - 1;
    var all := updates + Stamped(ticks, at);
    if !(ticks[n].key == key && ticks[n].odds > 1.0) {
      var t :| t in ticks && t.key == key && t.odds > 1.0;
      assert t in ticks[..n];
      PricedInBatch(updates, ticks[..n], at, key);
      assert all[..|all| - 1] == updates + Stamped(ticks[..n], at);
    }
  }

  /** Right after a publish that prices a cell, the cell's history holds exactly the points of the
      updates with odds above 1 published strictly within the window: odds, probability and nearest
      millisecond. */
  lemma {:induction false} HistoryIsWindow(c: Settings, log: seq<Batch>, key: string)
    requires c.Valid() && log != [] && InOrder(log, log[|log| - 1].at)
    requires exists t :: t in log[|log| - 1].ticks && t.key == key && t.odds > 1.0
    ensures var now := log[|log| - 1].at;
            var h := StoreAfter(c, log).histories;
            && key in h
            && forall p :: p in h[key].points <==> exists u :: u in Updates(log) && Prices(u, key, p) && u.at > now - c.window
  {
    var now := log[|log| - 1].at;
    var updates := Updates(log);
    PricedInBatch(Updates(log[..|log| - 1]), log[|log| - 1].ticks, now, key);
    LogInOrder(log, now);
    HistoriesFromUpdates(c, log);
    HistoryAt(updates, key, Point(0, 0.0, 0.0), now, c.window);
    hide Prices;
    var h := StoreAfter(c, log).histories;
    forall p ensures p in h[key].points <==> exists u :: u in updates && Prices(u, key, p) && u.at > now - c.window {
      HistoryAt(updates, key, p, now, c.window);
      AddedMeansPublished(updates, key, p, now, now - c.window);
    }
  }
}
