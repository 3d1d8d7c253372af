/** The sockets of one worker and its broadcasts (backend/app/core/websockets.py).

    Connects, disconnects and any number of broadcasts interleave at their awaits: a step is what one
    coroutine does between two of them. Whether a send succeeds, fails or times out is a parameter. */
module Connections {
  import opened LiveBoard
  import opened Prelude

  type Socket = nat

  // ----- The manager's own state -----

  /** The fields every coroutine shares: the sockets, the keys of the lock map and the cache. */
  datatype Hub = Hub(active: set<Socket>, locked: set<Socket>, cache: map<string, Tick>)

  function Register(h: Hub, ws: Socket): Hub {
    h.(active := h.active + {ws}, locked := h.locked + {ws})
  }

  function Unregister(h: Hub, ws: Socket): Hub {
    h.(active := h.active - {ws}, locked := h.locked - {ws})
  }

  class ConnectionManager {
    var activeConnections: set<Socket>
    var sendLocks: map<Socket, nat>
    var nextLock: nat
    var cache: map<string, Tick>

    ghost function Value(): Hub
      reads this
    {
      Hub(activeConnections, sendLocks.Keys, cache)
    }

    constructor ()
      ensures Value() == Hub({}, {}, map[])
    {
      activeConnections, sendLocks, nextLock, cache := {}, map[], 0, map[];
    }

    /** Connect, after the socket was accepted: a fresh lock, then the socket. */
    method Connect(ws: Socket)
      modifies this
      ensures Value() == Register(old(Value()), ws)
    {
      sendLocks := sendLocks[ws := nextLock];
      nextLock := nextLock + 1;
      activeConnections := activeConnections + {ws};
    }

    method Disconnect(ws: Socket)
      modifies this
      ensures Value() == Unregister(old(Value()), ws)
    {
      activeConnections := activeConnections - {ws};
      sendLocks := sendLocks - {ws};
    }

    /** A broadcast up to its first await: remember the ticks, then fix the sockets to send to. */
    method BeginBroadcast(ticks: seq<Tick>) returns (targets: set<Socket>)
      modifies this
      ensures Value() == old(Value()).(cache := WriteTicks(old(cache), ticks))
      ensures targets == if ticks == [] then {} else activeConnections
    {
      if ticks == [] {
        return {};
      }
      for i := 0 to |ticks|
        invariant activeConnections == old(activeConnections) && sendLocks == old(sendLocks)
        invariant cache == WriteTicks(old(cache), ticks[..i])
      {
        assert ticks[..i + 1][..i] == ticks[..i];
        cache := cache[ticks[i].key := ticks[i]];
      }
      assert ticks[..|ticks|] == ticks;
      return activeConnections;
    }
  }

  // ----- Broadcasts in flight -----

  datatype Send = Waiting | InFlight | Delivered | Failed

  datatype Phase = Sending | Evicting | Finished

  /** One broadcast: the sockets it started with, how each send stands, and whom it evicted. */
  datatype Cast = Cast(sends: map<Socket, Send>, phase: Phase, evicted: set<Socket>) {
    function FailedSends(): set<Socket> {
      set ws | ws in sends && sends[ws] == Failed
    }
  }

  datatype State = State(hub: Hub, casts: seq<Cast>, batches: seq<seq<Tick>>)

  const START := State(Hub({}, {}, map[]), [], [])

  datatype Step =
    | Join(ws: Socket)
    | Leave(ws: Socket)
    | Begin(ticks: seq<Tick>)
    | StartSend(cast: nat, ws: Socket)
    | EndSend(cast: nat, ws: Socket, ok: bool)
    | Gathered(cast: nat)
    | Evict(cast: nat, ws: Socket)
    | Finish(cast: nat)

  predicate Enabled(s: State, step: Step) {
    match step
    case Join(_) => true
    case Leave(_) => true
    case Begin(ticks) => ticks != []
    case StartSend(c, ws) => c < |s.casts| && s.casts[c].phase == Sending && ws in s.casts[c].sends && s.casts[c].sends[ws] == Waiting
    case EndSend(c, ws, _) => c < |s.casts| && s.casts[c].phase == Sending && ws in s.casts[c].sends && s.casts[c].sends[ws] == InFlight
    case Gathered(c) =>
      c < |s.casts| && s.casts[c].phase == Sending && forall ws :: ws in s.casts[c].sends ==> s.casts[c].sends[ws] in {Delivered, Failed}
    case Evict(c, ws) => c < |s.casts| && s.casts[c].phase == Evicting && ws in s.casts[c].FailedSends() && ws !in s.casts[c].evicted
    case Finish(c) => c < |s.casts| && s.casts[c].phase == Evicting && s.casts[c].FailedSends() <= s.casts[c].evicted
  }

  function SetSend(s: State, c: nat, ws: Socket, send: Send): State
    requires c < |s.casts|
  {
    var cast := s.casts[c];
    s.(casts := s.casts[c := cast.(sends := cast.sends[ws := send])])
  }

  function Apply(s: State, step: Step): State
    requires Enabled(s, step)
  {
    match step
    case Join(ws) => s.(hub := Register(s.hub, ws))
    case Leave(ws) => s.(hub := Unregister(s.hub, ws))
    case Begin(ticks) =>
      s.(hub := s.hub.(cache := WriteTicks(s.hub.cache, ticks)),
         casts := s.casts + [Cast(map ws | ws in s.hub.active :: Waiting, Sending, {})],
         batches := s.batches + [ticks])
    case StartSend(c, ws) => SetSend(s, c, ws, if ws in s.hub.locked then InFlight else Failed)
    case EndSend(c, ws, ok) => SetSend(s, c, ws, if ok then Delivered else Failed)
    case Gathered(c) => s.(casts := s.casts[c := s.casts[c].(phase := Evicting)])
    case Evict(c, ws) =>
      s.(hub := Unregister(s.hub, ws),
         casts := s.casts[c := s.casts[c].(evicted := s.casts[c].evicted + {ws})])
    case Finish(c) => s.(casts := s.casts[c := s.casts[c].(phase := Finished)])
  }

  // ----- Every interleaving -----

  ghost predicate CastInv(cast: Cast) {
    && cast.evicted <= cast.FailedSends()
    && (cast.phase == Sending ==> cast.evicted == {})
    && (cast.phase != Sending ==> forall ws :: ws in cast.sends ==> cast.sends[ws] in {Delivered, Failed})
    && (cast.phase == Finished ==> cast.evicted == cast.FailedSends())
  }

  /** The last tick of a key over all batches, oldest first. */
  function LastBroadcast(batches: seq<seq<Tick>>, key: string): Option<Tick> {
    if batches == [] then None
    else
      var n := |batches| - 1;
      match LastTick(batches[n], key)
      case Some(tick) => Some(tick)
      case None => LastBroadcast(batches[..n], key)
  }

  ghost predicate CacheIsLast(cache: map<string, Tick>, batches: seq<seq<Tick>>) {
    forall key :: (key in cache <==> LastBroadcast(batches, key).Some?) && (key in cache ==> LastBroadcast(batches, key) == Some(cache[key]))
  }

  ghost predicate Inv(s: State) {
    && s.hub.active == s.hub.locked
    && CacheIsLast(s.hub.cache, s.batches)
    && forall c :: 0 <= c < |s.casts| ==> CastInv(s.casts[c])
  }

  lemma BeginKeepsCache(cache: map<string, Tick>, batches: seq<seq<Tick>>, ticks: seq<Tick>)
    requires CacheIsLast(cache, batches)
    ensures CacheIsLast(WriteTicks(cache, ticks), batches + [ticks])
  {
    var more := batches + [ticks];
    assert more[..|more| - 1] == batches;
    forall key
      ensures (key in WriteTicks(cache, ticks) <==> LastBroadcast(more, key).Some?)
           && (key in WriteTicks(cache, ticks) ==> LastBroadcast(more, key) == Some(WriteTicks(cache, ticks)[key]))
    {
      WriteTicksAt(cache, ticks, key);
    }
  }

  lemma StepKeepsInv(s: State, step: Step)
    requires Inv(s) && Enabled(s, step)
    ensures Inv(Apply(s, step))
  {
    if step.Begin? {
      BeginKeepsCache(s.hub.cache, s.batches, step.ticks);
    }
  }

  ghost predicate IsRun(s: State, steps: seq<Step>)
    decreases |steps|
  {
    steps == [] || (Enabled(s, steps[0]) && IsRun(Apply(s, steps[0]), steps[1..]))
  }

  ghost function After(s: State, steps: seq<Step>): State
    requires IsRun(s, steps)
    decreases |steps|
  {
    if steps == [] then s else After(Apply(s, steps[0]), steps[1..])
  }

  /** In every reachable state the active sockets are exactly those with a send lock, the cache is
      the last tick per key over everything broadcast, and a finished broadcast has evicted exactly
      those of its sockets whose send failed. */
  lemma {:induction false} Consistent(s: State, steps: seq<Step>)
    requires Inv(s) && IsRun(s, steps)
    ensures Inv(After(s, steps))
    decreases |steps|
  {
    if steps != [] {
      StepKeepsInv(s, steps[0]);
      Consistent(Apply(s, steps[0]), steps[1..]);
    }
  }

  lemma Reachable(steps: seq<Step>, c: nat)
    requires IsRun(START, steps) && c < |After(START, steps).casts|
    ensures var s := After(START, steps);
            && s.hub.active == s.hub.locked
            && CacheIsLast(s.hub.cache, s.batches)
            && s.casts[c].evicted <= s.casts[c].FailedSends() <= s.casts[c].sends.Keys
            && (s.casts[c].phase == Finished ==> s.casts[c].evicted == s.casts[c].FailedSends())
  {
    Consistent(START, steps);
  }

  // ----- What a broadcast does to the sockets -----

  lemma {:induction false} RunSplits(s: State, first: seq<Step>, rest: seq<Step>)
    requires IsRun(s, first + rest)
    ensures IsRun(s, first) && IsRun(After(s, first), rest) && After(After(s, first), rest) == After(s, first + rest)
    decreases |first|
  {
    if first == [] {
      assert first + rest == rest;
    } else {
      assert (first + rest)[1..] == first[1..] + rest;
      RunSplits(Apply(s, first[0]), first[1..], rest);
    }
  }

  /** A broadcast keeps the sockets it started with, whatever happens afterwards. */
  lemma {:induction false} TargetsStay(s: State, steps: seq<Step>, c: nat)
    requires IsRun(s, steps) && c < |s.casts|
    ensures c < |After(s, steps).casts| && After(s, steps).casts[c].sends.Keys == s.casts[c].sends.Keys
    decreases |steps|
  {
    if steps != [] {
      TargetsStay(Apply(s, steps[0]), steps[1..], c);
    }
  }

  /** Whether a step takes `ws` out of the active set. */
  predicate Removes(step: Step, ws: Socket) {
    step == Leave(ws) || (step.Evict? && step.ws == ws)
  }

  /** Whether `ws` is active after the steps: the last one that joins or removes it decides. */
  predicate Present(was: bool, steps: seq<Step>, ws: Socket) {
    if steps == [] then was
    else
      var n := |steps| - 1;
      if steps[n] == Join(ws) then true
      else if Removes(steps[n], ws) then false
      else Present(was, steps[..n], ws)
  }

  /** Who is active after any run: each socket whose last joining or removing step is a join, and each
      one that was active and met no such step. */
  lemma {:induction false} ActiveAfter(s: State, steps: seq<Step>, ws: Socket)
    requires IsRun(s, steps)
    ensures ws in After(s, steps).hub.active <==> Present(ws in s.hub.active, steps, ws)
    decreases |steps|
  {
    if steps != [] {
      var n := |steps| - 1;
      assert steps == steps[..n] + [steps[n]];
      RunSplits(s, steps[..n], [steps[n]]);
      ActiveAfter(s, steps[..n], ws);
      var t := After(s, steps[..n]);
      assert After(t, [steps[n]]) == Apply(t, steps[n]);
    }
  }

  lemma {:induction false} NoJoin(was: bool, steps: seq<Step>, ws: Socket)
    requires Join(ws) !in steps
    ensures Present(was, steps, ws) <==> was && forall step :: step in steps ==> !Removes(step, ws)
  {
    if steps != [] {
      var n := |steps| - 1;
      NoJoin(was, steps[..n], ws);
      assert forall step :: step in steps <==> step in steps[..n] || step == steps[n];
    }
  }

  /** The field that records evictions is true to the run: it grows by the broadcast's own evictions
      and by nothing else. */
  lemma {:induction false} EvictedInRun(s: State, steps: seq<Step>, c: nat, ws: Socket)
    requires IsRun(s, steps) && c < |s.casts|
    ensures c < |After(s, steps).casts|
    ensures ws in After(s, steps).casts[c].evicted <==> ws in s.casts[c].evicted || Evict(c, ws) in steps
    decreases |steps|
  {
    if steps != [] {
      EvictedInRun(Apply(s, steps[0]), steps[1..], c, ws);
      assert Evict(c, ws) in steps <==> Evict(c, ws) == steps[0] || Evict(c, ws) in steps[1..];
    }
  }

  /** The state in which a broadcast of `ticks` has just begun, after the steps `pre`. */
  ghost function Begun(pre: seq<Step>, ticks: seq<Tick>): State
    requires IsRun(START, pre) && ticks != []
  {
    Apply(After(START, pre), Begin(ticks))
  }

  /** Every run in which a broadcast begins splits there. */
  lemma SplitAtBegin(pre: seq<Step>, ticks: seq<Tick>, rest: seq<Step>)
    requires IsRun(START, pre + [Begin(ticks)] + rest)
    ensures IsRun(START, pre) && ticks != [] && IsRun(Begun(pre, ticks), rest)
    ensures After(START, pre + [Begin(ticks)] + rest) == After(Begun(pre, ticks), rest)
  {
    RunSplits(START, pre + [Begin(ticks)], rest);
    RunSplits(START, pre, [Begin(ticks)]);
    var t := After(START, pre);
    assert After(t, [Begin(ticks)]) == After(Apply(t, Begin(ticks)), []);
  }

  /** A broadcast within any run: it sends to exactly the sockets that were active when it began. */
  lemma Targets(pre: seq<Step>, ticks: seq<Tick>, rest: seq<Step>)
    requires IsRun(START, pre) && ticks != [] && IsRun(Begun(pre, ticks), rest)
    ensures var c, s := |After(START, pre).casts|, After(Begun(pre, ticks), rest);
            c < |s.casts| && s.casts[c].sends.Keys == After(START, pre).hub.active
  {
    TargetsStay(Begun(pre, ticks), rest, |After(START, pre).casts|);
  }

  /** Along the run the send of broadcast `c` to `ws` goes wrong: it ends in an error or a timeout, or
      it is tried when the socket is no longer registered. */
  ghost predicate FailsInRun(s: State, steps: seq<Step>, c: nat, ws: Socket)
    requires IsRun(s, steps)
    decreases |steps|
  {
    steps != [] &&
    (|| steps[0] == EndSend(c, ws, false)
     || (steps[0] == StartSend(c, ws) && ws !in s.hub.active)
     || FailsInRun(Apply(s, steps[0]), steps[1..], c, ws))
  }

  lemma StepFails(s: State, step: Step, c: nat, ws: Socket)
    requires Inv(s) && Enabled(s, step) && c < |s.casts|
    ensures c < |Apply(s, step).casts|
    ensures ws in Apply(s, step).casts[c].FailedSends() <==>
      ws in s.casts[c].FailedSends() || step == EndSend(c, ws, false) || (step == StartSend(c, ws) && ws !in s.hub.active)
  {
    hide CacheIsLast;
  }

  /** The sends recorded as failed are exactly those that went wrong in the run. */
  lemma {:induction false} FailedInRun(s: State, steps: seq<Step>, c: nat, ws: Socket)
    requires Inv(s) && IsRun(s, steps) && c < |s.casts|
    ensures c < |After(s, steps).casts|
    ensures ws in After(s, steps).casts[c].FailedSends() <==> ws in s.casts[c].FailedSends() || FailsInRun(s, steps, c, ws)
    decreases |steps|
  {
    if steps != [] {
      StepFails(s, steps[0], c, ws);
      StepKeepsInv(s, steps[0]);
      FailedInRun(Apply(s, steps[0]), steps[1..], c, ws);
    }
  }

  lemma BegunFresh(pre: seq<Step>, ticks: seq<Tick>)
    requires IsRun(START, pre) && ticks != []
    ensures var s, t := After(START, pre), Begun(pre, ticks);
            && Inv(t) && t.hub.active == s.hub.active && |t.casts| == |s.casts| + 1
            && t.casts[|s.casts|].FailedSends() == {} == t.casts[|s.casts|].evicted
  {
    Consistent(START, pre);
    StepKeepsInv(After(START, pre), Begin(ticks));
  }

  /** A finished broadcast has evicted exactly the starting sockets whose send went wrong. */
  lemma EvictsExactlyFailed(pre: seq<Step>, ticks: seq<Tick>, rest: seq<Step>, ws: Socket)
    requires IsRun(START, pre) && ticks != [] && IsRun(Begun(pre, ticks), rest)
    requires var c, s := |After(START, pre).casts|, After(Begun(pre, ticks), rest);
             c < |s.casts| && s.casts[c].phase == Finished
    ensures Evict(|After(START, pre).casts|, ws) in rest <==> FailsInRun(Begun(pre, ticks), rest, |After(START, pre).casts|, ws)
  {
    var c, t := |After(START, pre).casts|, Begun(pre, ticks);
    BegunFresh(pre, ticks);
    Consistent(t, rest);
    FailedInRun(t, rest, c, ws);
    EvictedInRun(t, rest, c, ws);
    assert CastInv(After(t, rest).casts[c]);
  }

  /** Once a broadcast has finished, a socket that it started with and that has not joined anew is
      still active if and only if its send did not go wrong, it did not leave, and no other broadcast
      evicted it meanwhile. So a send that goes wrong always costs the socket its place. */
  lemma BroadcastOutcome(pre: seq<Step>, ticks: seq<Tick>, rest: seq<Step>, ws: Socket)
    requires IsRun(START, pre) && ticks != [] && IsRun(Begun(pre, ticks), rest)
    requires var c, s := |After(START, pre).casts|, After(Begun(pre, ticks), rest);
             c < |s.casts| && s.casts[c].phase == Finished
    requires ws in After(START, pre).hub.active && Join(ws) !in rest
    ensures var c, s := |After(START, pre).casts|, After(Begun(pre, ticks), rest);
            ws in s.hub.active <==>
              && !FailsInRun(Begun(pre, ticks), rest, c, ws)
              && Leave(ws) !in rest && forall other :: other != c ==> Evict(other, ws) !in rest
  {
    var t := Begun(pre, ticks);
    BegunFresh(pre, ticks);
    EvictsExactlyFailed(pre, ticks, rest, ws);
    ActiveAfter(t, rest, ws);
    NoJoin(true, rest, ws);
    hide FailsInRun;
  }

  /** When nothing but the broadcast itself happens, the active sockets lose exactly those whose send
      went wrong. */
  lemma BroadcastAlone(pre: seq<Step>, ticks: seq<Tick>, rest: seq<Step>, ws: Socket)
    requires IsRun(START, pre) && ticks != [] && IsRun(Begun(pre, ticks), rest)
    requires var c, s := |After(START, pre).casts|, After(Begun(pre, ticks), rest);
             c < |s.casts| && s.casts[c].phase == Finished && forall step :: step in rest ==> OwnStep(step, c)
    ensures var c, s := |After(START, pre).casts|, After(Begun(pre, ticks), rest);
            ws in s.hub.active <==> ws in After(START, pre).hub.active && EndSend(c, ws, false) !in rest
  {
    var c, t := |After(START, pre).casts|, Begun(pre, ticks);
    BegunFresh(pre, ticks);
    assert Join(ws) !in rest && Leave(ws) !in rest;
    assert forall other :: other != c ==> Evict(other, ws) !in rest;
    if ws in t.hub.active {
      BroadcastOutcome(pre, ticks, rest, ws);
      OnlyEndsFail(t, rest, c, ws);
    } else {
      ActiveAfter(t, rest, ws);
      NoJoin(false, rest, ws);
    }
  }

  /** While only the broadcast itself runs, an active socket stays registered until its own eviction, so
      its send fails only by ending badly. */
  lemma {:induction false} OnlyEndsFail(s: State, steps: seq<Step>, c: nat, ws: Socket)
    requires Inv(s) && IsRun(s, steps) && c < |s.casts| && forall step :: step in steps ==> OwnStep(step, c)
    requires ws in s.hub.active || (s.casts[c].phase != Sending)
    ensures FailsInRun(s, steps, c, ws) <==> EndSend(c, ws, false) in steps
    decreases |steps|
  {
    if steps != [] {
      assert steps[0] in steps;
      StepKeepsInv(s, steps[0]);
      OnlyEndsFail(Apply(s, steps[0]), steps[1..], c, ws);
      assert EndSend(c, ws, false) in steps <==> EndSend(c, ws, false) == steps[0] || EndSend(c, ws, false) in steps[1..];
    }
  }

  // ----- What the cache holds -----

  /** The batches broadcast in a run, in order. */
  function BroadcastInRun(steps: seq<Step>): seq<seq<Tick>> {
    if steps == [] then []
    else (if steps[0].Begin? then [steps[0].ticks] else []) + BroadcastInRun(steps[1..])
  }

  lemma {:induction false} BatchesInRun(s: State, steps: seq<Step>)
    requires IsRun(s, steps)
    ensures After(s, steps).batches == s.batches + BroadcastInRun(steps)
    decreases |steps|
  {
    if steps == [] {
      assert s.batches + [] == s.batches;
    } else {
      BatchesInRun(Apply(s, steps[0]), steps[1..]);
      assert s.batches + [] == s.batches;
      var begun := if steps[0].Begin? then [steps[0].ticks] else [];
      assert s.batches + begun + BroadcastInRun(steps[1..]) == s.batches + (begun + BroadcastInRun(steps[1..]));
    }
  }

  /** In every reachable state the cache is the last tick per key over everything the run broadcast. */
  lemma CacheFollowsRun(steps: seq<Step>)
    requires IsRun(START, steps)
    ensures CacheIsLast(After(START, steps).hub.cache, BroadcastInRun(steps))
  {
    Consistent(START, steps);
    BatchesInRun(START, steps);
    assert [] + BroadcastInRun(steps) == BroadcastInRun(steps);
  }

  /** Evicting a socket again changes nothing, whoever evicted it first. */
  lemma EvictionIsIdempotent(h: Hub, ws: Socket, other: Socket)
    ensures Unregister(Unregister(h, ws), ws) == Unregister(h, ws)
    ensures Unregister(Unregister(h, ws), other) == Unregister(Unregister(h, other), ws)
  {
    assert h.active - {ws} - {ws} == h.active - {ws} && h.locked - {ws} - {ws} == h.locked - {ws};
    assert h.active - {ws} - {other} == h.active - {other} - {ws};
    assert h.locked - {ws} - {other} == h.locked - {other} - {ws};
  }

  /** `ws` is registered and no broadcast has a failed send to it. */
  ghost predicate Healthy(s: State, ws: Socket) {
    && ws in s.hub.active && ws in s.hub.locked
    && forall c :: 0 <= c < |s.casts| ==> ws !in s.casts[c].FailedSends()
  }

  /** A socket that does not leave and whose sends do not fail is never dropped, whatever the other
      sockets and the other broadcasts do. */
  lemma {:induction false} HealthySocketStays(s: State, steps: seq<Step>, ws: Socket)
    requires IsRun(s, steps) && Healthy(s, ws)
    requires forall step :: step in steps ==> step != Leave(ws) && !(step.EndSend? && step.ws == ws && !step.ok)
    ensures Healthy(After(s, steps), ws)
    decreases |steps|
  {
    if steps != [] {
      assert steps[0] in steps;
      StepKeepsHealthy(s, steps[0], ws);
      HealthySocketStays(Apply(s, steps[0]), steps[1..], ws);
    }
  }

  lemma StepKeepsHealthy(s: State, step: Step, ws: Socket)
    requires Enabled(s, step) && Healthy(s, ws)
    requires step != Leave(ws) && !(step.EndSend? && step.ws == ws && !step.ok)
    ensures Healthy(Apply(s, step), ws)
  {
    var t := Apply(s, step);
    forall c | 0 <= c < |t.casts| ensures ws !in t.casts[c].FailedSends() {
      if c < |s.casts| {
        assert ws !in s.casts[c].FailedSends();
      }
    }
    if step.Evict? {
      assert ws !in s.casts[step.cast].FailedSends();
    }
  }

  /** A broadcast that has not finished can always take a step of its own: no socket, however slow,
      holds it up for good, since a send may always time out. */
  lemma BroadcastAdvances(s: State, c: nat) returns (step: Step)
    requires c < |s.casts| && s.casts[c].phase != Finished
    ensures Enabled(s, step)
    ensures OwnStep(step, c)
  {
    var cast := s.casts[c];
    if cast.phase == Evicting {
      if ws :| ws in cast.FailedSends() && ws !in cast.evicted {
        step := Evict(c, ws);
      } else {
        step := Finish(c);
      }
    } else if ws :| ws in cast.sends && cast.sends[ws] == Waiting {
      step := StartSend(c, ws);
    } else if ws :| ws in cast.sends && cast.sends[ws] == InFlight {
      step := EndSend(c, ws, false);
    } else {
      step := Gathered(c);
    }
  }

  predicate OwnStep(step: Step, c: nat) {
    (step.StartSend? || step.EndSend? || step.Gathered? || step.Evict? || step.Finish?) && step.cast == c
  }

  function Standing(sends: map<Socket, Send>, send: Send): set<Socket> {
    set ws | ws in sends && sends[ws] == send
  }

  /** A bound on the steps a broadcast still has to take. */
  function Budget(cast: Cast): nat {
    2 * |Standing(cast.sends, Waiting)| + |Standing(cast.sends, InFlight)|
    + |cast.sends.Keys - cast.evicted|
    + (match cast.phase case Sending => 2 case Evicting => 1 case Finished => 0)
  }

  lemma StandingAfter(sends: map<Socket, Send>, ws: Socket, send: Send, asked: Send)
    requires ws in sends
    ensures Standing(sends[ws := send], asked) == if send == asked then Standing(sends, asked) + {ws} else Standing(sends, asked) - {ws}
    ensures ws in Standing(sends, asked) <==> sends[ws] == asked
  {
  }

  /** A send that changes its standing leaves one and joins another. */
  lemma StandingSize(sends: map<Socket, Send>, ws: Socket, send: Send, asked: Send)
    requires ws in sends && sends[ws] != send
    ensures var before, after := |Standing(sends, asked)|, |Standing(sends[ws := send], asked)|;
            after == before + (if send == asked then 1 else 0) - (if sends[ws] == asked then 1 else 0)
  {
    StandingAfter(sends, ws, send, asked);
    hide Standing;
    if sends[ws] != asked {
      assert Standing(sends, asked) - {ws} == Standing(sends, asked);
    }
  }

  lemma SendUsesBudget(cast: Cast, ws: Socket, send: Send)
    requires ws in cast.sends && cast.sends[ws] in {Waiting, InFlight} && send != Waiting && send != cast.sends[ws]
    ensures Budget(cast.(sends := cast.sends[ws := send])) < Budget(cast)
  {
    hide Standing;
    StandingSize(cast.sends, ws, send, Waiting);
    StandingSize(cast.sends, ws, send, InFlight);
    assert cast.sends[ws := send].Keys == cast.sends.Keys;
  }

  /** A broadcast's own steps use up its budget and nobody else's steps add to it, so with `n` sockets
      it ends after at most `3 * n + 2` steps of its own. */
  lemma BroadcastUsesBudget(s: State, step: Step, c: nat)
    requires Enabled(s, step) && c < |s.casts|
    ensures var t := Apply(s, step);
            c < |t.casts| && if OwnStep(step, c) then Budget(t.casts[c]) < Budget(s.casts[c]) else t.casts[c] == s.casts[c]
  {
    if OwnStep(step, c) {
      var cast := s.casts[c];
      match step
      case StartSend(_, ws) => SendUsesBudget(cast, ws, if ws in s.hub.locked then InFlight else Failed);
      case EndSend(_, ws, ok) => SendUsesBudget(cast, ws, if ok then Delivered else Failed);
      case Evict(_, ws) =>
        assert ws in cast.sends.Keys - cast.evicted;
        assert cast.sends.Keys - (cast.evicted + {ws}) == (cast.sends.Keys - cast.evicted) - {ws};
      case Gathered(_) =>
      case Finish(_) =>
    }
  }

  lemma FreshBudget(active: set<Socket>)
    ensures Budget(Cast(map ws | ws in active :: Waiting, Sending, {})) == 3 * |active| + 2
  {
    var sends := map ws | ws in active :: Waiting;
    assert Standing(sends, Waiting) == active && Standing(sends, InFlight) == {};
    assert sends.Keys - {} == active;
  }
}
