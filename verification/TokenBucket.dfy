/** The per-key token bucket of backend/app/core/rate_limit.py.

    The stored bucket is written only by an admitted call and disappears when its key expires.
    It is compared with two simpler forms: an eager meter that is updated by every call and never
    expires, and a closed inequality over the times of the calls admitted so far. */
module TokenBucket {
  import opened Prelude

  /** What one caller of `check_rate_limit` passes: settings keep both numbers positive. */
  datatype Limit = Limit(capacity: int, rate: real) {
    predicate Valid() {
      capacity >= 1 && rate > 0.0
    }

    function Full(): real {
      capacity as real
    }

    /** Tokens regained over a stretch of time. */
    function Refill(elapsed: real): real {
      elapsed * rate
    }

    /** Seconds a written key lives. */
    function Lifetime(): int
      requires Valid()
    {
      Ceil(Full() / rate)
    }
  }

  datatype Bucket = Bucket(tokens: real, lastUpdate: real, expiresAt: real)

  type Store = map<string, Bucket>

  /** What HMGET finds: an expired key is absent. */
  function Lookup(store: Store, key: string, now: real): Option<Bucket> {
    if key in store && now <= store[key].expiresAt then Some(store[key]) else None
  }

  /** Tokens available to a call at `now`. */
  function Level(bucket: Option<Bucket>, limit: Limit, now: real): real {
    match bucket
    case None => limit.Full()
    case Some(b) => Min(limit.Full(), b.tokens + limit.Refill(Max(0.0, now - b.lastUpdate)))
  }

  predicate Admits(store: Store, key: string, limit: Limit, now: real) {
    Level(Lookup(store, key, now), limit, now) >= 1.0
  }

  function AfterCall(store: Store, key: string, limit: Limit, now: real): Store
    requires limit.Valid()
  {
    if Admits(store, key, limit, now) then
      var left := Level(Lookup(store, key, now), limit, now) - 1.0;
      store[key := Bucket(left, now, now + limit.Lifetime() as real)]
    else
      store
  }

  class RateLimiter {
    var store: Store

    constructor ()
      ensures store == map[]
    {
      store := map[];
    }

    /** One atomic run of the script. */
    method Check(key: string, limit: Limit, now: real) returns (allowed: bool)
      requires limit.Valid()
      modifies this
      ensures allowed == Admits(old(store), key, limit, now)
      ensures store == AfterCall(old(store), key, limit, now)
    {
      var requested := 1.0;
      var tokens, lastUpdate;
      if key !in store || now > store[key].expiresAt {
        tokens, lastUpdate := limit.capacity as real, now;
      } else {
        tokens, lastUpdate := store[key].tokens, store[key].lastUpdate;
        var timePassed := Max(0.0, now - lastUpdate);
        tokens := Min(limit.capacity as real, tokens + timePassed * limit.rate);
      }
      if tokens >= requested {
        tokens := tokens - requested;
        store := store[key := Bucket(tokens, now, now + Ceil(limit.capacity as real / limit.rate) as real)];
        return true;
      } else {
        return false;
      }
    }
  }

  // ----- Runs -----

  datatype Call = Call(key: string, at: real)

  /** Call times never go back, and none is later than `now`. */
  ghost predicate InOrder(calls: seq<Call>, now: real) {
    calls == [] || (calls[|calls| - 1].at <= now && InOrder(calls[..|calls| - 1], calls[|calls| - 1].at))
  }

  /** The store after a run of calls that starts with no keys. */
  function StoreAfter(limit: Limit, calls: seq<Call>): Store
    requires limit.Valid()
  {
    if calls == [] then map[]
    else
      var last := calls[|calls| - 1];
      AfterCall(StoreAfter(limit, calls[..|calls| - 1]), last.key, limit, last.at)
  }

  /** Would the stored bucket admit `next` after the run `calls`? */
  predicate Decision(limit: Limit, calls: seq<Call>, next: Call)
    requires limit.Valid()
  {
    Admits(StoreAfter(limit, calls), next.key, limit, next.at)
  }

  /** The times at which the run admitted calls of `key`. */
  function Admissions(limit: Limit, calls: seq<Call>, key: string): seq<real>
    requires limit.Valid()
  {
    if calls == [] then []
    else
      var pre, last := calls[..|calls| - 1], calls[|calls| - 1];
      var before := Admissions(limit, pre, key);
      if last.key == key && Decision(limit, pre, last) then before + [last.at] else before
  }

  // ----- The eager meter: every call writes, nothing expires -----

  datatype Meter = Meter(level: real, at: real)

  function MeterLevel(meters: map<string, Meter>, key: string, limit: Limit, now: real): real {
    if key in meters then Min(limit.Full(), meters[key].level + limit.Refill(now - meters[key].at)) else limit.Full()
  }

  function MeterCall(meters: map<string, Meter>, key: string, limit: Limit, now: real): map<string, Meter> {
    var level := MeterLevel(meters, key, limit, now);
    meters[key := Meter(if level >= 1.0 then level - 1.0 else level, now)]
  }

  function MetersAfter(limit: Limit, calls: seq<Call>): map<string, Meter> {
    if calls == [] then map[]
    else
      var last := calls[|calls| - 1];
      MeterCall(MetersAfter(limit, calls[..|calls| - 1]), last.key, limit, last.at)
  }

  lemma RefillAdds(limit: Limit, a: real, b: real)
    ensures limit.Refill(a) + limit.Refill(b) == limit.Refill(a + b)
  {
  }

  lemma RefillMonotone(limit: Limit, a: real, b: real)
    requires limit.Valid() && a <= b
    ensures limit.Refill(a) <= limit.Refill(b)
  {
    assert (b - a) * limit.rate >= 0.0;
    RefillAdds(limit, a, b - a);
  }

  /** Expiry never grants a token the refill would not have: once the key's lifetime is over the
      bucket would be full anyway. */
  lemma ExpiryGrantsNothing(limit: Limit, tokens: real, elapsed: real)
    requires limit.Valid() && tokens >= 0.0 && elapsed >= limit.Lifetime() as real
    ensures tokens + limit.Refill(elapsed) >= limit.Full()
  {
    var whole := limit.Full() / limit.rate;
    assert limit.Refill(whole) == limit.Full();
    RefillMonotone(limit, whole, elapsed);
  }

  /** At any moment after a run, the stored bucket and the eager meter of every key offer the same
      number of tokens. */
  lemma {:induction false} LevelsAgree(limit: Limit, calls: seq<Call>, key: string, now: real)
    requires limit.Valid() && InOrder(calls, now)
    ensures Level(Lookup(StoreAfter(limit, calls), key, now), limit, now) == MeterLevel(MetersAfter(limit, calls), key, limit, now)
  {
    if calls != [] {
      var pre, last := calls[..|calls| - 1], calls[|calls| - 1];
      LevelsAgree(limit, pre, key, now);
      if last.key == key {
        LevelsAgree(limit, pre, key, last.at);
        AgreeAfterOwnCall(limit, StoreAfter(limit, pre), MetersAfter(limit, pre), last, now);
      }
    }
  }

  lemma AgreeAfterOwnCall(limit: Limit, store: Store, meters: map<string, Meter>, call: Call, now: real)
    requires limit.Valid() && call.at <= now
    requires Level(Lookup(store, call.key, now), limit, now) == MeterLevel(meters, call.key, limit, now)
    requires Level(Lookup(store, call.key, call.at), limit, call.at) == MeterLevel(meters, call.key, limit, call.at)
    ensures Level(Lookup(AfterCall(store, call.key, limit, call.at), call.key, now), limit, now)
         == MeterLevel(MeterCall(meters, call.key, limit, call.at), call.key, limit, now)
  {
    var level := MeterLevel(meters, call.key, limit, call.at);
    var elapsed := now - call.at;
    if level >= 1.0 {
      if now > call.at + limit.Lifetime() as real {
        ExpiryGrantsNothing(limit, level - 1.0, elapsed);
      }
    } else {
      RefillMonotone(limit, 0.0, elapsed);
      if call.key in meters {
        RefillAdds(limit, call.at - meters[call.key].at, elapsed);
      }
    }
  }

  /** On every call of every run with a clock that does not go back, the stored bucket decides as
      the eager meter does. */
  lemma StoredBucketRefinesMeter(limit: Limit, calls: seq<Call>, next: Call)
    requires limit.Valid() && InOrder(calls, next.at)
    ensures Decision(limit, calls, next) <==> MeterLevel(MetersAfter(limit, calls), next.key, limit, next.at) >= 1.0
  {
    LevelsAgree(limit, calls, next.key, next.at);
  }

  /** Only an admission writes: a key is stored exactly when one of its calls was admitted, and then as
      of the last admission, to live from there for the least whole number of seconds in which an empty
      bucket fills. */
  lemma {:induction false} StoredAtLastAdmission(limit: Limit, calls: seq<Call>, key: string)
    requires limit.Valid()
    ensures var store, admitted := StoreAfter(limit, calls), Admissions(limit, calls, key);
            && (key in store <==> admitted != [])
            && (key in store ==>
                  var lived := store[key].expiresAt - store[key].lastUpdate;
                  && store[key].lastUpdate == admitted[|admitted| - 1]
                  && limit.Refill(lived - 1.0) < limit.Full() <= limit.Refill(lived))
  {
    if calls != [] {
      var pre, last := calls[..|calls| - 1], calls[|calls| - 1];
      StoredAtLastAdmission(limit, pre, key);
      LifetimeIsLeast(limit);
    }
  }

  lemma LifetimeIsLeast(limit: Limit)
    requires limit.Valid()
    ensures limit.Refill(limit.Lifetime() as real - 1.0) < limit.Full() <= limit.Refill(limit.Lifetime() as real)
  {
    var whole := limit.Full() / limit.rate;
    assert limit.Refill(whole) == limit.Full();
    RefillMonotone(limit, whole, limit.Lifetime() as real);
    var short := whole - (limit.Lifetime() as real - 1.0);
    assert short > 0.0;
    assert short * limit.rate > 0.0;
    RefillAdds(limit, limit.Lifetime() as real - 1.0, short);
  }

  // ----- The admission law -----

  /** Non-decreasing times, none later than `now`. */
  ghost predicate Sorted(times: seq<real>, now: real) {
    times == [] || (times[|times| - 1] <= now && Sorted(times[..|times| - 1], times[|times| - 1]))
  }

  /** `want` more tokens fit at `now` beside the admissions already made: counted from any earlier
      admission, and from no admission at all, the capacity and the refill since then cover them. */
  ghost predicate Fits(limit: Limit, admitted: seq<real>, now: real, want: real) {
    && want <= limit.Full()
    && forall i :: 0 <= i < |admitted| ==> (|admitted| - i) as real + want <= limit.Full() + limit.Refill(now - admitted[i])
  }

  lemma {:induction false} AdmissionsSorted(limit: Limit, calls: seq<Call>, key: string, now: real)
    requires limit.Valid() && InOrder(calls, now)
    ensures Sorted(Admissions(limit, calls, key), now)
  {
    if calls != [] {
      var pre, last := calls[..|calls| - 1], calls[|calls| - 1];
      AdmissionsSorted(limit, pre, key, last.at);
      var before := Admissions(limit, pre, key);
      assert (before + [last.at])[..|before|] == before;
    }
  }

  /** What the meter holds is exactly what the admissions leave room for. */
  lemma {:induction false} MeterLaw(limit: Limit, calls: seq<Call>, key: string, now: real, want: real)
    requires limit.Valid() && InOrder(calls, now)
    ensures want <= MeterLevel(MetersAfter(limit, calls), key, limit, now) <==> Fits(limit, Admissions(limit, calls, key), now, want)
  {
    if calls != [] {
      var pre, last := calls[..|calls| - 1], calls[|calls| - 1];
      var meters, before := MetersAfter(limit, pre), Admissions(limit, pre, key);
      if last.key != key {
        MeterLaw(limit, pre, key, now, want);
      } else {
        StoredBucketRefinesMeter(limit, pre, last);
        MeterStep(limit, meters, key, last.at, now, want);
        if MeterLevel(meters, key, limit, last.at) >= 1.0 {
          MeterLaw(limit, pre, key, last.at, want + 1.0 - limit.Refill(now - last.at));
          FitsAfterAdmission(limit, before, last.at, now, want);
        } else {
          MeterLaw(limit, pre, key, now, want);
        }
      }
    }
  }

  /** What one call of the key leaves in the meter at a later moment. */
  lemma MeterStep(limit: Limit, meters: map<string, Meter>, key: string, at: real, now: real, want: real)
    requires limit.Valid() && at <= now
    ensures var level := MeterLevel(meters, key, limit, at);
            var later := MeterLevel(MeterCall(meters, key, limit, at), key, limit, now);
            if level >= 1.0 then
              want <= later <==> want <= limit.Full() && want + 1.0 - limit.Refill(now - at) <= level
            else
              later == MeterLevel(meters, key, limit, now)
  {
    RefillMonotone(limit, 0.0, now - at);
    if key in meters {
      RefillAdds(limit, at - meters[key].at, now - at);
    }
  }

  lemma FitsAfterAdmission(limit: Limit, admitted: seq<real>, at: real, now: real, want: real)
    requires limit.Valid() && at <= now
    ensures Fits(limit, admitted + [at], now, want)
       <==> want <= limit.Full() && Fits(limit, admitted, at, want + 1.0 - limit.Refill(now - at))
  {
    var more := admitted + [at];
    var gain := limit.Refill(now - at);
    var n := |admitted|;
    forall i | 0 <= i < n ensures limit.Refill(now - admitted[i]) == limit.Refill(at - admitted[i]) + gain {
      RefillAdds(limit, at - admitted[i], now - at);
    }
    assert forall i :: 0 <= i < n ==> more[i] == admitted[i];
    assert more[n] == at;
    if Fits(limit, more, now, want) {
      assert (|more| - n) as real + want <= limit.Full() + limit.Refill(now - more[n]);
      forall i | 0 <= i < n
        ensures (n - i) as real + (want + 1.0 - gain) <= limit.Full() + limit.Refill(at - admitted[i])
      {
        assert (|more| - i) as real + want <= limit.Full() + limit.Refill(now - more[i]);
      }
    }
  }

  /** The exact admission law: a call is admitted just when one more token fits. */
  lemma AdmissionLaw(limit: Limit, calls: seq<Call>, next: Call)
    requires limit.Valid() && InOrder(calls, next.at)
    ensures Decision(limit, calls, next) <==> Fits(limit, Admissions(limit, calls, next.key), next.at, 1.0)
  {
    StoredBucketRefinesMeter(limit, calls, next);
    MeterLaw(limit, calls, next.key, next.at, 1.0);
  }

  /** A key that has used less than its capacity in all is never refused. */
  lemma BurstIsAdmitted(limit: Limit, calls: seq<Call>, next: Call)
    requires limit.Valid() && InOrder(calls, next.at)
    requires |Admissions(limit, calls, next.key)| < limit.capacity
    ensures Decision(limit, calls, next)
  {
    AdmissionLaw(limit, calls, next);
    var admitted := Admissions(limit, calls, next.key);
    AdmissionsSorted(limit, calls, next.key, next.at);
    forall i | 0 <= i < |admitted|
      ensures (|admitted| - i) as real + 1.0 <= limit.Full() + limit.Refill(next.at - admitted[i])
    {
      SortedNotAfter(admitted, next.at, i);
      RefillMonotone(limit, 0.0, next.at - admitted[i]);
    }
  }

  lemma {:induction false} SortedNotAfter(times: seq<real>, now: real, i: nat)
    requires Sorted(times, now) && i < |times|
    ensures times[i] <= now
  {
    if i < |times| - 1 {
      SortedNotAfter(times[..|times| - 1], times[|times| - 1], i);
    }
  }

  // ----- Windows -----

  /** How many of `times` lie in the closed window. */
  function CountIn(times: seq<real>, from: real, to: real): (n: nat)
    ensures n <= |times|
  {
    if times == [] then 0
    else
      var last := times[|times| - 1];
      CountIn(times[..|times| - 1], from, to) + (if from <= last <= to then 1 else 0)
  }

  lemma {:induction false} WindowIsSuffix(times: seq<real>, from: real, to: real)
    requires Sorted(times, to) && CountIn(times, from, to) > 0
    ensures times[|times| - CountIn(times, from, to)] >= from
  {
    var pre, last := times[..|times| - 1], times[|times| - 1];
    if last < from {
      NoneIn(pre, last, from, to);
    } else if CountIn(pre, from, to) > 0 {
      WindowIsSuffix(pre, from, to);
    }
  }

  lemma {:induction false} NoneIn(times: seq<real>, now: real, from: real, to: real)
    requires Sorted(times, now) && now < from
    ensures CountIn(times, from, to) == 0
  {
    if times != [] {
      NoneIn(times[..|times| - 1], times[|times| - 1], from, to);
    }
  }

  /** Room for one more token at `at` keeps every window that holds `at` within the bound. */
  lemma WindowStep(limit: Limit, before: seq<real>, at: real, from: real, to: real)
    requires limit.Valid() && Sorted(before, at) && from <= at <= to
    requires Fits(limit, before, at, 1.0)
    ensures CountIn(before + [at], from, to) as real <= limit.Full() + limit.Refill(to - from)
  {
    assert (before + [at])[..|before|] == before;
    var count := CountIn(before, from, to);
    if count == 0 {
      RefillMonotone(limit, 0.0, to - from);
    } else {
      WindowIsSuffix(before, from, to);
      var i := |before| - count;
      assert (|before| - i) as real + 1.0 <= limit.Full() + limit.Refill(at - before[i]);
      RefillMonotone(limit, at - before[i], to - from);
    }
  }

  /** No window of any run holds more admissions of a key than the capacity and the refill over the
      window's length. */
  lemma {:induction false} WindowBound(limit: Limit, calls: seq<Call>, key: string, now: real, from: real, to: real)
    requires limit.Valid() && InOrder(calls, now) && from <= to
    ensures CountIn(Admissions(limit, calls, key), from, to) as real <= limit.Full() + limit.Refill(to - from)
  {
    if calls == [] {
      RefillMonotone(limit, 0.0, to - from);
    } else {
      var pre, last := calls[..|calls| - 1], calls[|calls| - 1];
      WindowBound(limit, pre, key, last.at, from, to);
      if last.key == key && Decision(limit, pre, last) {
        var before := Admissions(limit, pre, key);
        assert (before + [last.at])[..|before|] == before;
        if from <= last.at <= to {
          AdmissionLaw(limit, pre, last);
          AdmissionsSorted(limit, pre, key, last.at);
          WindowStep(limit, before, last.at, from, to);
        }
      }
    }
  }

  /** The pair the middleware passes for a setting of `rpm` requests a minute. */
  function PerMinute(rpm: int): Limit {
    Limit(rpm, rpm as real / 60.0)
  }

  /** With the middleware's numbers no minute, wherever it starts, admits more than twice the
      setting, and a key is kept for exactly one minute. */
  lemma MinuteBound(rpm: int, calls: seq<Call>, key: string, now: real, from: real)
    requires rpm > 0 && InOrder(calls, now)
    ensures PerMinute(rpm).Valid() && PerMinute(rpm).Lifetime() == 60
    ensures CountIn(Admissions(PerMinute(rpm), calls, key), from, from + 60.0) <= 2 * rpm
  {
    hide Admissions;
    var limit := PerMinute(rpm);
    var r := rpm as real;
    assert r / (r / 60.0) == 60.0;
    WindowBound(limit, calls, key, now, from, from + 60.0);
    assert limit.Refill(60.0) == r;
  }

  /** Counted from any earlier admission, the admissions and the new request stay within the setting plus
      what a sixtieth of it per second regains. */
  ghost predicate FitsMinutes(rpm: int, admitted: seq<real>, now: real) {
    forall i :: 0 <= i < |admitted| ==> FitsSince(rpm, |admitted| - i + 1, now - admitted[i])
  }

  ghost predicate FitsSince(rpm: int, count: int, seconds: real) {
    60.0 * (count - rpm) as real <= rpm as real * seconds
  }

  lemma FitsSinceIff(rpm: int, count: int, seconds: real)
    requires rpm > 0
    ensures FitsSince(rpm, count, seconds) <==> count as real <= PerMinute(rpm).Full() + PerMinute(rpm).Refill(seconds)
  {
    var gain := PerMinute(rpm).Refill(seconds);
    assert 60.0 * gain == rpm as real * seconds;
  }

  /** The middleware's decision in its own numbers, and what it grants: the first `rpm` requests of a key
      pass at whatever pace they come. */
  lemma MinuteLaw(rpm: int, calls: seq<Call>, next: Call)
    requires rpm > 0 && InOrder(calls, next.at)
    ensures PerMinute(rpm).Valid()
    ensures Decision(PerMinute(rpm), calls, next) <==> FitsMinutes(rpm, Admissions(PerMinute(rpm), calls, next.key), next.at)
    ensures |Admissions(PerMinute(rpm), calls, next.key)| < rpm ==> Decision(PerMinute(rpm), calls, next)
  {
    var limit := PerMinute(rpm);
    var admitted := Admissions(limit, calls, next.key);
    if |admitted| < rpm {
      BurstIsAdmitted(limit, calls, next);
    }
    AdmissionLaw(limit, calls, next);
    hide Admissions, Decision, FitsSince;
    forall i | 0 <= i < |admitted|
      ensures FitsSince(rpm, |admitted| - i + 1, next.at - admitted[i])
         <==> (|admitted| - i) as real + 1.0 <= limit.Full() + limit.Refill(next.at - admitted[i])
    {
      FitsSinceIff(rpm, |admitted| - i + 1, next.at - admitted[i]);
    }
  }
}
