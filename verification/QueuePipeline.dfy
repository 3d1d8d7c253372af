/** The producer/flusher pipeline of scrapers/devraya/main.py as a state machine.

    A step is what one coroutine does between two awaits. Random choices, HTTP outcomes, timers and
    signals are step parameters or freely enabled steps. Three fields record history only: what was
    produced, what became of each tick that left the queue, and what was posted. */
module QueuePipeline {
  datatype Config = Config(batchSize: nat, capacity: nat) {
    predicate Valid() {
      batchSize >= 1 && capacity == batchSize * 100
    }
  }

  /** Where the flusher is suspended. */
  datatype Flusher<T> =
    | Head
    | Collecting
    | Filling(batch: seq<T>)
    | Posting(batch: seq<T>)
    | AwaitProducers
    | DrainHead
    | DrainPosting(batch: seq<T>)
    | Done
  {
    function Batch(): seq<T> {
      if Filling? || Posting? || DrainPosting? then batch else []
    }

    predicate Draining() {
      DrainHead? || DrainPosting? || Done?
    }
  }

  datatype Outcome = Accepted | Rejected | Unreachable | KeyRejected

  /** How a tick left the queue. */
  datatype Fate = Dropped | Taken

  datatype State<T> = State(
    queue: seq<T>,
    shutdown: bool,
    running: seq<bool>,
    producersDone: bool,
    flusher: Flusher<T>,
    deadline: bool,
    sent: nat,
    failed: nat,
    produced: seq<T>,
    fates: seq<Fate>,
    posted: seq<T>,
    accepted: seq<bool>)

  function Initial<T>(producers: nat): State<T> {
    State([], false, seq(producers, _ => true), false, Head, false, 0, 0, [], [], [], [])
  }

  datatype Step<T> =
    | Produce(producer: nat, tick: T)
    | Return(producer: nat)
    | Crash(producer: nat)
    | FinishProducers
    | Signal
    | LeaveHead
    | CollectTimeout
    | TakeFirst
    | Fill
    | Settle(outcome: Outcome)
    | StartDrain
    | DeadlinePasses
    | DrainNext
    | DrainStop
    | DrainSettle(outcome: Outcome)

  predicate Enabled<T>(s: State<T>, step: Step<T>) {
    match step
    case Produce(p, _) => p < |s.running| && s.running[p] && !s.shutdown
    case Return(p) => p < |s.running| && s.running[p] && s.shutdown
    case Crash(p) => p < |s.running| && s.running[p]
    case FinishProducers => !s.producersDone && true !in s.running
    case Signal => !s.shutdown
    case LeaveHead => s.flusher.Head?
    case CollectTimeout => s.flusher.Collecting?
    case TakeFirst => s.flusher.Collecting? && s.queue != []
    case Fill => s.flusher.Filling?
    case Settle(_) => s.flusher.Posting?
    case StartDrain => s.flusher.AwaitProducers? && s.producersDone
    case DeadlinePasses => (s.flusher.DrainHead? || s.flusher.DrainPosting?) && !s.deadline
    case DrainNext => s.flusher.DrainHead? && s.queue != [] && !s.deadline
    case DrainStop => s.flusher.DrainHead? && (s.queue == [] || s.deadline)
    case DrainSettle(_) => s.flusher.DrainPosting?
  }

  /** The producer's loop body: a full queue gives up its oldest tick, so the newest always fits. */
  function Enqueue<T>(c: Config, s: State<T>, tick: T): State<T>
    requires c.Valid()
  {
    if |s.queue| >= c.capacity then
      s.(queue := s.queue[1..] + [tick], fates := s.fates + [Dropped], produced := s.produced + [tick])
    else
      s.(queue := s.queue + [tick], produced := s.produced + [tick])
  }

  /** The flusher takes the `n` oldest ticks. */
  function Take<T>(s: State<T>, n: nat): State<T>
    requires n <= |s.queue|
  {
    s.(queue := s.queue[n..], fates := s.fates + AllTaken(n))
  }

  function AllTaken(n: nat): seq<Fate> {
    seq(n, _ => Taken)
  }

  function Flags(n: nat, flag: bool): seq<bool> {
    seq(n, _ => flag)
  }

  function MinNat(a: nat, b: nat): nat {
    if a <= b then a else b
  }

  /** A request came back: the whole batch counts as sent or as failed, and a rejected key shuts
      the pipeline down. */
  function Book<T>(s: State<T>, batch: seq<T>, outcome: Outcome, next: Flusher<T>): State<T> {
    var ok := outcome == Accepted;
    s.(flusher := next,
       shutdown := s.shutdown || outcome == KeyRejected,
       sent := if ok then s.sent + |batch| else s.sent,
       failed := if ok then s.failed else s.failed + |batch|,
       posted := s.posted + batch,
       accepted := s.accepted + Flags(|batch|, ok))
  }

  function Apply<T>(c: Config, s: State<T>, step: Step<T>): State<T>
    requires c.Valid() && Enabled(s, step)
  {
    match step
    case Produce(_, tick) => Enqueue(c, s, tick)
    case Return(p) => s.(running := s.running[p := false])
    case Crash(p) => s.(running := s.running[p := false])
    case FinishProducers => s.(producersDone := true)
    case Signal => s.(shutdown := true)
    case LeaveHead => s.(flusher := if s.shutdown then AwaitProducers else Collecting)
    case CollectTimeout => s.(flusher := Head)
    case TakeFirst => Take(s, 1).(flusher := Filling([s.queue[0]]))
    case Fill =>
      var n := if |s.flusher.batch| >= c.batchSize then 0 else MinNat(c.batchSize - |s.flusher.batch|, |s.queue|);
      Take(s, n).(flusher := Posting(s.flusher.batch + s.queue[..n]))
    case Settle(outcome) => Book(s, s.flusher.batch, outcome, Head)
    case StartDrain => s.(flusher := DrainHead, deadline := false)
    case DeadlinePasses => s.(deadline := true)
    case DrainNext =>
      var n := MinNat(c.batchSize, |s.queue|);
      Take(s, n).(flusher := DrainPosting(s.queue[..n]))
    case DrainStop => s.(flusher := Done)
    case DrainSettle(outcome) => Book(s, s.flusher.batch, outcome, DrainHead)
  }

  // ----- What every reachable state keeps -----

  /** The ticks the flusher took, in the order they were produced. */
  function TakenOf<T>(ticks: seq<T>, fates: seq<Fate>): seq<T>
    requires |fates| <= |ticks|
  {
    if fates == [] then []
    else
      var n := |fates| - 1;
      var before := TakenOf(ticks, fates[..n]);
      if fates[n] == Taken then before + [ticks[n]] else before
  }

  function CountFate(fates: seq<Fate>, fate: Fate): nat {
    if fates == [] then 0
    else CountFate(fates[..|fates| - 1], fate) + (if fates[|fates| - 1] == fate then 1 else 0)
  }

  function CountFlag(flags: seq<bool>, flag: bool): nat {
    if flags == [] then 0
    else CountFlag(flags[..|flags| - 1], flag) + (if flags[|flags| - 1] == flag then 1 else 0)
  }

  ghost predicate Conserved<T>(s: State<T>) {
    && |s.fates| + |s.queue| == |s.produced|
    && s.queue == s.produced[|s.fates|..]
    && TakenOf(s.produced, s.fates) == s.posted + s.flusher.Batch()
    && |s.accepted| == |s.posted|
    && s.sent == CountFlag(s.accepted, true)
    && s.failed == CountFlag(s.accepted, false)
  }

  ghost predicate Staged<T>(s: State<T>) {
    && (s.producersDone ==> true !in s.running)
    && (s.flusher.AwaitProducers? ==> s.shutdown)
    && (s.flusher.Draining() ==> s.shutdown && s.producersDone)
    && (s.deadline ==> s.flusher.Draining())
    && (s.flusher.Done? ==> s.queue == [] || s.deadline)
  }

  ghost predicate Inv<T>(c: Config, s: State<T>) {
    && |s.queue| <= c.capacity
    && (s.flusher.Filling? || s.flusher.Posting? || s.flusher.DrainPosting? ==> 1 <= |s.flusher.batch| <= c.batchSize)
    && Conserved(s)
    && Staged(s)
  }

  lemma {:induction false} TakenIgnoresLater<T>(ticks: seq<T>, more: seq<T>, fates: seq<Fate>)
    requires |fates| <= |ticks|
    ensures TakenOf(ticks + more, fates) == TakenOf(ticks, fates)
  {
    if fates != [] {
      TakenIgnoresLater(ticks, more, fates[..|fates| - 1]);
    }
  }

  lemma {:induction false} TakenExtends<T>(ticks: seq<T>, fates: seq<Fate>, n: nat)
    requires |fates| + n <= |ticks|
    ensures TakenOf(ticks, fates + AllTaken(n)) == TakenOf(ticks, fates) + ticks[|fates|..][..n]
  {
    if n > 0 {
      TakenExtends(ticks, fates, n - 1);
      var more := fates + AllTaken(n);
      assert more[..|more| - 1] == fates + AllTaken(n - 1);
      assert ticks[|fates|..][..n] == ticks[|fates|..][..n - 1] + [ticks[|fates| + n - 1]];
    } else {
      assert fates + AllTaken(0) == fates;
    }
  }

  lemma {:induction false} FlagsExtend(flags: seq<bool>, n: nat, ok: bool, flag: bool)
    ensures CountFlag(flags + Flags(n, ok), flag) == CountFlag(flags, flag) + (if ok == flag then n else 0)
  {
    var more := flags + Flags(n, ok);
    if n > 0 {
      FlagsExtend(flags, n - 1, ok, flag);
      assert more[..|more| - 1] == flags + Flags(n - 1, ok);
    } else {
      assert more == flags;
    }
  }

  lemma TakeConserves<T>(s: State<T>, n: nat, next: Flusher<T>)
    requires Conserved(s) && n <= |s.queue| && next.Batch() == s.flusher.Batch() + s.queue[..n]
    ensures Conserved(Take(s, n).(flusher := next)) && |Take(s, n).queue| <= |s.queue|
  {
    TakenExtends(s.produced, s.fates, n);
    var t := Take(s, n);
    assert t.posted + next.Batch() == s.posted + s.flusher.Batch() + s.queue[..n];
  }

  lemma BookConserves<T>(s: State<T>, outcome: Outcome, next: Flusher<T>)
    requires Conserved(s) && next.Batch() == []
    ensures Conserved(Book(s, s.flusher.Batch(), outcome, next))
    ensures Book(s, s.flusher.Batch(), outcome, next).queue == s.queue
  {
    var batch := s.flusher.Batch();
    FlagsExtend(s.accepted, |batch|, outcome == Accepted, true);
    FlagsExtend(s.accepted, |batch|, outcome == Accepted, false);
    var t := Book(s, batch, outcome, next);
    assert t.posted + t.flusher.Batch() == s.posted + batch;
  }

  lemma TakenSkipsDropped<T>(ticks: seq<T>, fates: seq<Fate>)
    requires |fates| < |ticks|
    ensures TakenOf(ticks, fates + [Dropped]) == TakenOf(ticks, fates)
  {
    assert (fates + [Dropped])[..|fates|] == fates;
  }

  lemma SuffixGrows<T>(ticks: seq<T>, n: nat, tick: T)
    requires n <= |ticks|
    ensures (ticks + [tick])[n..] == ticks[n..] + [tick]
    ensures n < |ticks| ==> (ticks + [tick])[n + 1..] == ticks[n..][1..] + [tick]
  {
  }

  lemma EnqueueConserves<T>(c: Config, s: State<T>, tick: T)
    requires c.Valid() && Conserved(s) && |s.queue| <= c.capacity
    ensures Conserved(Enqueue(c, s, tick)) && |Enqueue(c, s, tick).queue| <= c.capacity
  {
    TakenIgnoresLater(s.produced, [tick], s.fates);
    SuffixGrows(s.produced, |s.fates|, tick);
    if |s.queue| >= c.capacity {
      TakenSkipsDropped(s.produced + [tick], s.fates);
    }
    hide TakenOf, CountFlag;
  }

  lemma SameLedger<T>(s: State<T>, t: State<T>)
    requires Conserved(s) && t.flusher.Batch() == s.flusher.Batch()
    requires t.queue == s.queue && t.produced == s.produced && t.fates == s.fates
    requires t.posted == s.posted && t.accepted == s.accepted && t.sent == s.sent && t.failed == s.failed
    ensures Conserved(t)
  {
  }

  lemma StepConserves<T>(c: Config, s: State<T>, step: Step<T>)
    requires c.Valid() && Conserved(s) && |s.queue| <= c.capacity && Enabled(s, step)
    ensures Conserved(Apply(c, s, step)) && |Apply(c, s, step).queue| <= c.capacity
  {
    hide Conserved, Book, Take, Enqueue;
    var t := Apply(c, s, step);
    match step
    case Produce(_, tick) => EnqueueConserves(c, s, tick);
    case TakeFirst =>
      assert [s.queue[0]] == s.flusher.Batch() + s.queue[..1];
      TakeConserves(s, 1, Filling([s.queue[0]]));
    case Fill =>
      var n := if |s.flusher.batch| >= c.batchSize then 0 else MinNat(c.batchSize - |s.flusher.batch|, |s.queue|);
      TakeConserves(s, n, t.flusher);
    case DrainNext =>
      var n := MinNat(c.batchSize, |s.queue|);
      assert s.queue[..n] == s.flusher.Batch() + s.queue[..n];
      TakeConserves(s, n, t.flusher);
    case Settle(outcome) => BookConserves(s, outcome, Head);
    case DrainSettle(outcome) => BookConserves(s, outcome, DrainHead);
    case _ => SameLedger(s, t);
  }

  lemma StepKeepsStages<T>(c: Config, s: State<T>, step: Step<T>)
    requires c.Valid() && Staged(s) && Enabled(s, step)
    ensures Staged(Apply(c, s, step))
  {
  }

  lemma StepKeepsInv<T>(c: Config, s: State<T>, step: Step<T>)
    requires c.Valid() && Inv(c, s) && Enabled(s, step)
    ensures Inv(c, Apply(c, s, step))
  {
    hide Conserved, Staged;
    StepConserves(c, s, step);
    StepKeepsStages(c, s, step);
  }

  // ----- Runs -----

  ghost predicate IsRun<T>(c: Config, s: State<T>, steps: seq<Step<T>>)
    requires c.Valid()
    decreases |steps|
  {
    steps == [] || (Enabled(s, steps[0]) && IsRun(c, Apply(c, s, steps[0]), steps[1..]))
  }

  ghost function After<T>(c: Config, s: State<T>, steps: seq<Step<T>>): State<T>
    requires c.Valid() && IsRun(c, s, steps)
    decreases |steps|
  {
    if steps == [] then s else After(c, Apply(c, s, steps[0]), steps[1..])
  }

  lemma {:induction false} RunKeepsInv<T>(c: Config, s: State<T>, steps: seq<Step<T>>)
    requires c.Valid() && Inv(c, s) && IsRun(c, s, steps)
    ensures Inv(c, After(c, s, steps))
    decreases |steps|
  {
    if steps != [] {
      StepKeepsInv(c, s, steps[0]);
      RunKeepsInv(c, Apply(c, s, steps[0]), steps[1..]);
    }
  }

  /** `part` is `whole` with some elements left out. */
  ghost predicate IsSubsequence<T>(part: seq<T>, whole: seq<T>) {
    if part == [] then true
    else if whole == [] then false
    else
      || IsSubsequence(part, whole[..|whole| - 1])
      || (part[|part| - 1] == whole[|whole| - 1] && IsSubsequence(part[..|part| - 1], whole[..|whole| - 1]))
  }

  lemma {:induction false} TakenIsSubsequence<T>(ticks: seq<T>, fates: seq<Fate>)
    requires |fates| <= |ticks|
    ensures IsSubsequence(TakenOf(ticks, fates), ticks[..|fates|])
    ensures |TakenOf(ticks, fates)| + CountFate(fates, Dropped) == |fates|
  {
    if fates != [] {
      var n := |fates| - 1;
      TakenIsSubsequence(ticks, fates[..n]);
      assert ticks[..|fates|][..n] == ticks[..n];
      var before := TakenOf(ticks, fates[..n]);
      assert (before + [ticks[n]])[..|before|] == before;
    }
  }

  lemma {:induction false} FlagsSplit(flags: seq<bool>)
    ensures CountFlag(flags, true) + CountFlag(flags, false) == |flags|
  {
    if flags != [] {
      FlagsSplit(flags[..|flags| - 1]);
    }
  }

  /** Conservation and order in every reachable state, whatever the interleaving: each produced tick
      is dropped, sent, failed, in flight or queued; the queue is bounded and is the newest stretch
      of what was produced; and what was posted or is in flight kept its order. */
  lemma Conservation<T>(c: Config, producers: nat, steps: seq<Step<T>>)
    requires c.Valid() && IsRun(c, Initial(producers), steps)
    ensures var s := After(c, Initial(producers), steps);
            && |s.produced| == CountFate(s.fates, Dropped) + s.sent + s.failed + |s.flusher.Batch()| + |s.queue|
            && |s.queue| <= c.capacity
            && |s.fates| <= |s.produced| && s.queue == s.produced[|s.fates|..]
            && IsSubsequence(s.posted + s.flusher.Batch(), s.produced[..|s.fates|])
            && s.sent == CountFlag(s.accepted, true) && |s.accepted| == |s.posted|
  {
    RunKeepsInv(c, Initial(producers), steps);
    var s := After(c, Initial(producers), steps);
    TakenIsSubsequence(s.produced, s.fates);
    FlagsSplit(s.accepted);
  }

  // ----- What a run does, read off its steps -----

  predicate IsResponse<T>(step: Step<T>) {
    step.Settle? || step.DrainSettle?
  }

  /** The ticks that the run's responses of the asked kind, accepted or not, were about. */
  function Answered<T>(c: Config, s: State<T>, steps: seq<Step<T>>, ok: bool): nat
    requires c.Valid() && IsRun(c, s, steps)
    decreases |steps|
  {
    if steps == [] then 0
    else
      (if IsResponse(steps[0]) && (steps[0].outcome == Accepted) == ok then |s.flusher.batch| else 0)
      + Answered(c, Apply(c, s, steps[0]), steps[1..], ok)
  }

  lemma StepCounts<T>(c: Config, s: State<T>, step: Step<T>)
    requires c.Valid() && Enabled(s, step)
    ensures Apply(c, s, step).sent == s.sent + (if IsResponse(step) && step.outcome == Accepted then |s.flusher.batch| else 0)
    ensures Apply(c, s, step).failed == s.failed + (if IsResponse(step) && step.outcome != Accepted then |s.flusher.batch| else 0)
  {
  }

  /** Along every run `sent` grows by the batches whose response accepted them and `failed` by those
      of every other response, rejections and unreachable servers alike. */
  lemma {:induction false} CountersFollowResponses<T>(c: Config, s: State<T>, steps: seq<Step<T>>)
    requires c.Valid() && IsRun(c, s, steps)
    ensures After(c, s, steps).sent == s.sent + Answered(c, s, steps, true)
    ensures After(c, s, steps).failed == s.failed + Answered(c, s, steps, false)
    decreases |steps|
  {
    if steps != [] {
      StepCounts(c, s, steps[0]);
      CountersFollowResponses(c, Apply(c, s, steps[0]), steps[1..]);
      hide Apply;
    }
  }

  /** The batches the run posted, in order. */
  function PostedInRun<T>(c: Config, s: State<T>, steps: seq<Step<T>>): seq<T>
    requires c.Valid() && IsRun(c, s, steps)
    decreases |steps|
  {
    if steps == [] then []
    else (if IsResponse(steps[0]) then s.flusher.batch else []) + PostedInRun(c, Apply(c, s, steps[0]), steps[1..])
  }

  /** The ticks the run's producers made, in order. */
  function MadeInRun<T>(steps: seq<Step<T>>): seq<T> {
    if steps == [] then []
    else (if steps[0].Produce? then [steps[0].tick] else []) + MadeInRun(steps[1..])
  }

  /** How often a producer found the queue full. */
  function FullInRun<T>(c: Config, s: State<T>, steps: seq<Step<T>>): nat
    requires c.Valid() && IsRun(c, s, steps)
    decreases |steps|
  {
    if steps == [] then 0
    else (if steps[0].Produce? && |s.queue| >= c.batchSize * 100 then 1 else 0) + FullInRun(c, Apply(c, s, steps[0]), steps[1..])
  }

  lemma CountFateAppends(fates: seq<Fate>, n: nat)
    ensures CountFate(fates + AllTaken(n), Dropped) == CountFate(fates, Dropped)
    ensures CountFate(fates + [Dropped], Dropped) == CountFate(fates, Dropped) + 1
  {
    if n > 0 {
      var more := fates + AllTaken(n);
      CountFateAppends(fates, n - 1);
      assert more[..|more| - 1] == fates + AllTaken(n - 1);
    } else {
      assert fates + AllTaken(0) == fates;
    }
    assert (fates + [Dropped])[..|fates|] == fates;
  }

  lemma StepDrops<T>(c: Config, s: State<T>, step: Step<T>)
    requires c.Valid() && Enabled(s, step)
    ensures CountFate(Apply(c, s, step).fates, Dropped)
         == CountFate(s.fates, Dropped) + (if step.Produce? && |s.queue| >= c.batchSize * 100 then 1 else 0)
  {
    hide CountFate;
    match step
    case Produce(_, _) => CountFateAppends(s.fates, 0);
    case TakeFirst => CountFateAppends(s.fates, 1);
    case Fill => CountFateAppends(s.fates, if |s.flusher.batch| >= c.batchSize then 0 else MinNat(c.batchSize - |s.flusher.batch|, |s.queue|));
    case DrainNext => CountFateAppends(s.fates, MinNat(c.batchSize, |s.queue|));
    case _ =>
  }

  lemma StepRecords<T>(c: Config, s: State<T>, step: Step<T>)
    requires c.Valid() && Enabled(s, step)
    ensures Apply(c, s, step).produced == s.produced + (if step.Produce? then [step.tick] else [])
    ensures Apply(c, s, step).posted == s.posted + (if IsResponse(step) then s.flusher.batch else [])
  {
  }

  lemma Regroup<T>(a: seq<T>, b: seq<T>, c: seq<T>)
    ensures a + b + c == a + (b + c)
  {
  }

  /** The three fields that record history are true to the run: what was produced is what the
      producers made, what was posted are the batches answered, and a tick was dropped exactly each
      time a producer found a hundred batches queued. */
  lemma {:induction false} HistoryIsTrue<T>(c: Config, s: State<T>, steps: seq<Step<T>>)
    requires c.Valid() && IsRun(c, s, steps)
    ensures After(c, s, steps).produced == s.produced + MadeInRun(steps)
    ensures After(c, s, steps).posted == s.posted + PostedInRun(c, s, steps)
    ensures CountFate(After(c, s, steps).fates, Dropped) == CountFate(s.fates, Dropped) + FullInRun(c, s, steps)
    decreases |steps|
  {
    if steps == [] {
      assert s.produced + [] == s.produced && s.posted + [] == s.posted;
    } else {
      var next, rest := Apply(c, s, steps[0]), steps[1..];
      StepDrops(c, s, steps[0]);
      StepRecords(c, s, steps[0]);
      HistoryIsTrue(c, next, rest);
      hide CountFate, Apply;
      Regroup(s.produced, if steps[0].Produce? then [steps[0].tick] else [], MadeInRun(rest));
      Regroup(s.posted, if IsResponse(steps[0]) then s.flusher.batch else [], PostedInRun(c, next, rest));
    }
  }

  lemma TakenThenLeft<T>(batch: seq<T>, queue: seq<T>, n: nat)
    requires n <= |queue|
    ensures batch + queue[..n] + queue[n..] == batch + queue
  {
  }

  /** A batch is never posted short of its size while ticks are queued, and it takes them in order. */
  lemma FillIsGreedy<T>(c: Config, s: State<T>)
    requires c.Valid() && s.flusher.Filling? && 1 <= |s.flusher.batch| <= c.batchSize
    ensures var t := Apply(c, s, Fill);
            && t.flusher.Posting? && t.flusher.batch + t.queue == s.flusher.batch + s.queue
            && 1 <= |t.flusher.batch| <= c.batchSize && (|t.flusher.batch| == c.batchSize || t.queue == [])
  {
    hide Enqueue, Book;
    TakenThenLeft(s.flusher.batch, s.queue, MinNat(c.batchSize - |s.flusher.batch|, |s.queue|));
  }

  /** The same in the drain, so no drain batch is empty. */
  lemma DrainIsGreedy<T>(c: Config, s: State<T>)
    requires c.Valid() && Enabled(s, DrainNext)
    ensures var t := Apply(c, s, DrainNext);
            && t.flusher.DrainPosting? && t.flusher.batch + t.queue == s.queue
            && 1 <= |t.flusher.batch| <= c.batchSize && (|t.flusher.batch| == c.batchSize || t.queue == [])
  {
    hide Enqueue, Book;
    var n := MinNat(c.batchSize, |s.queue|);
    assert s.queue[..n] + s.queue[n..] == s.queue;
  }

  lemma FirstThenFill<T>(queue: seq<T>, n: nat)
    requires 1 <= n <= |queue|
    ensures queue[1..][n - 1..] == queue[n..] && [queue[0]] + queue[1..][..n - 1] == queue[..n]
  {
  }

  lemma CollectsOldest<T>(c: Config, s: State<T>)
    requires c.Valid() && s.flusher.Collecting? && s.queue != []
    ensures var n, t := MinNat(c.batchSize, |s.queue|), Apply(c, Apply(c, s, TakeFirst), Fill);
            && t.flusher == Posting(s.queue[..n]) && t.queue == s.queue[n..] && t.posted == s.posted
  {
    hide Enqueue, Book, AllTaken;
    FirstThenFill(s.queue, MinNat(c.batchSize, |s.queue|));
  }

  /** As long as shutdown is not asked for, one round of the flusher takes the oldest queued ticks, up to
      the batch size, posts them and comes back for more. */
  lemma RoundPostsOldest<T>(c: Config, s: State<T>, outcome: Outcome)
    requires c.Valid() && s.flusher.Head? && !s.shutdown && s.queue != []
    ensures var round := [LeaveHead, TakeFirst, Fill, Settle(outcome)];
            var n := MinNat(c.batchSize, |s.queue|);
            && IsRun(c, s, round) && After(c, s, round).flusher.Head?
            && After(c, s, round).posted == s.posted + s.queue[..n] && After(c, s, round).queue == s.queue[n..]
  {
    CollectsOldest(c, Apply(c, s, LeaveHead));
    FourSteps(c, s, LeaveHead, TakeFirst, Fill, Settle(outcome));
    hide Take, Enqueue, AllTaken, IsRun, After, Flags;
  }

  lemma FourSteps<T>(c: Config, s: State<T>, a: Step<T>, b: Step<T>, d: Step<T>, e: Step<T>)
    requires c.Valid() && Enabled(s, a) && Enabled(Apply(c, s, a), b) && Enabled(Apply(c, Apply(c, s, a), b), d)
    requires Enabled(Apply(c, Apply(c, Apply(c, s, a), b), d), e)
    ensures IsRun(c, s, [a, b, d, e]) && After(c, s, [a, b, d, e]) == Apply(c, Apply(c, Apply(c, Apply(c, s, a), b), d), e)
  {
    hide Apply, Enabled;
    TwoSteps(c, Apply(c, Apply(c, s, a), b), d, e);
    assert [a, b, d, e][1..] == [b, d, e] && [b, d, e][1..] == [d, e];
    assert IsRun(c, Apply(c, s, a), [b, d, e]) && After(c, Apply(c, s, a), [b, d, e]) == After(c, Apply(c, Apply(c, s, a), b), [d, e]);
  }

  lemma TwoSteps<T>(c: Config, s: State<T>, a: Step<T>, b: Step<T>)
    requires c.Valid() && Enabled(s, a) && Enabled(Apply(c, s, a), b)
    ensures IsRun(c, s, [a, b]) && After(c, s, [a, b]) == Apply(c, Apply(c, s, a), b)
  {
    hide Apply, Enabled;
    assert [a, b][1..] == [b] && [b][1..] == [];
    assert IsRun(c, Apply(c, Apply(c, s, a), b), []);
    assert IsRun(c, Apply(c, s, a), [b]) && After(c, Apply(c, s, a), [b]) == After(c, Apply(c, Apply(c, s, a), b), []);
  }

  /** The drain does the same until the queue is empty or its time is up. */
  lemma DrainRoundPostsOldest<T>(c: Config, s: State<T>, outcome: Outcome)
    requires c.Valid() && s.flusher.DrainHead? && !s.deadline && s.queue != []
    ensures var round := [DrainNext, DrainSettle(outcome)];
            var n := MinNat(c.batchSize, |s.queue|);
            && IsRun(c, s, round) && After(c, s, round).flusher.DrainHead?
            && After(c, s, round).posted == s.posted + s.queue[..n] && After(c, s, round).queue == s.queue[n..]
  {
    TwoSteps(c, s, DrainNext, DrainSettle(outcome));
    hide IsRun, After, AllTaken, Enqueue;
  }

  /** The drain's time is up only if the clock says so. */
  lemma {:induction false} DeadlineCause<T>(c: Config, s: State<T>, steps: seq<Step<T>>)
    requires c.Valid() && Inv(c, s) && IsRun(c, s, steps)
    ensures After(c, s, steps).deadline <==> s.deadline || DeadlinePasses in steps
    decreases |steps|
  {
    if steps != [] {
      StepKeepsInv(c, s, steps[0]);
      hide Conserved;
      DeadlineCause(c, Apply(c, s, steps[0]), steps[1..]);
      assert DeadlinePasses in steps <==> DeadlinePasses == steps[0] || DeadlinePasses in steps[1..];
    }
  }

  /** What a whole run from the start adds up to, in terms of its steps alone: everything made was
      dropped from a full queue, accepted, not accepted, or is still in flight or queued. */
  lemma Ledger<T>(c: Config, producers: nat, steps: seq<Step<T>>)
    requires c.Valid() && IsRun(c, Initial(producers), steps)
    ensures var s0, s := Initial<T>(producers), After(c, Initial(producers), steps);
            && |MadeInRun(steps)| == FullInRun(c, s0, steps) + Answered(c, s0, steps, true) + Answered(c, s0, steps, false)
                                     + |s.flusher.Batch()| + |s.queue|
            && s.sent == Answered(c, s0, steps, true) && s.failed == Answered(c, s0, steps, false)
            && IsSubsequence(PostedInRun(c, s0, steps) + s.flusher.Batch(), MadeInRun(steps)[..|MadeInRun(steps)| - |s.queue|])
            && s.queue == MadeInRun(steps)[|MadeInRun(steps)| - |s.queue|..]
  {
    var s0, s := Initial<T>(producers), After(c, Initial(producers), steps);
    Conservation(c, producers, steps);
    RunKeepsInv(c, s0, steps);
    CountersFollowResponses(c, s0, steps);
    HistoryIsTrue(c, s0, steps);
    assert [] + MadeInRun(steps) == MadeInRun(steps) && [] + PostedInRun(c, s0, steps) == PostedInRun(c, s0, steps);
  }

  // ----- Shutdown -----

  /** A signal, or a response that rejects the ingestion key. */
  predicate AsksShutdown<T>(step: Step<T>) {
    step.Signal? || (IsResponse(step) && step.outcome == KeyRejected)
  }

  /** Shutdown is set exactly by a signal or by a rejected key; no other response sets it, and nothing
      takes it back. */
  lemma {:induction false} ShutdownCause<T>(c: Config, s: State<T>, steps: seq<Step<T>>)
    requires c.Valid() && IsRun(c, s, steps)
    ensures After(c, s, steps).shutdown <==> s.shutdown || exists step :: step in steps && AsksShutdown(step)
    decreases |steps|
  {
    if steps != [] {
      ShutdownCause(c, Apply(c, s, steps[0]), steps[1..]);
      assert steps[0] in steps;
      assert forall step :: step in steps <==> step == steps[0] || step in steps[1..];
    }
  }

  /** Nothing is enqueued once draining has started, and `producersDone` means what it says. */
  lemma NoTickAfterDrain<T>(c: Config, producers: nat, steps: seq<Step<T>>, step: Step<T>)
    requires c.Valid() && IsRun(c, Initial(producers), steps)
    requires Enabled(After(c, Initial(producers), steps), step)
    ensures var s := After(c, Initial(producers), steps);
            && (s.producersDone ==> true !in s.running)
            && (s.flusher.Draining() ==> s.producersDone && Apply(c, s, step).produced == s.produced)
  {
    RunKeepsInv(c, Initial(producers), steps);
  }

  function CountRunning(running: seq<bool>): nat {
    CountFlag(running, true)
  }

  lemma {:induction false} StoppingOneCounts(running: seq<bool>, p: nat)
    requires p < |running| && running[p]
    ensures CountRunning(running) == CountRunning(running[p := false]) + 1
  {
    var n := |running| - 1;
    var after := running[p := false];
    if p == n {
      assert after[..n] == running[..n];
    } else {
      StoppingOneCounts(running[..n], p);
      assert after[..n] == running[..n][p := false];
    }
  }

  /** An upper bound on the steps the flusher can still take once shutdown is set. */
  function FlusherSteps<T>(flusher: Flusher<T>, queued: nat): nat {
    match flusher
    case Filling(_) => 2 * queued + 5
    case Collecting => 2 * queued + 4
    case Posting(_) => 2 * queued + 4
    case Head => 2 * queued + 3
    case AwaitProducers => 2 * queued + 2
    case DrainPosting(_) => 2 * queued + 2
    case DrainHead => 2 * queued + 1
    case Done => 0
  }

  function StepsLeft<T>(s: State<T>): nat {
    CountRunning(s.running) + (if s.producersDone then 0 else 1) + (if s.deadline then 0 else 1) + FlusherSteps(s.flusher, |s.queue|)
  }

  lemma StepUsesBudget<T>(c: Config, s: State<T>, step: Step<T>)
    requires c.Valid() && Inv(c, s) && s.shutdown && Enabled(s, step)
    ensures var t := Apply(c, s, step);
            t.shutdown && t.produced == s.produced && StepsLeft(t) < StepsLeft(s)
  {
    hide Conserved, CountRunning;
    if step.Return? || step.Crash? {
      StoppingOneCounts(s.running, step.producer);
    }
  }

  /** From shutdown on, no run is longer than the budget of its first state: no livelock. */
  lemma {:induction false} ShutdownTerminates<T>(c: Config, s: State<T>, steps: seq<Step<T>>)
    requires c.Valid() && Inv(c, s) && s.shutdown && IsRun(c, s, steps)
    ensures |steps| + StepsLeft(After(c, s, steps)) <= StepsLeft(s)
    decreases |steps|
  {
    if steps != [] {
      StepUsesBudget(c, s, steps[0]);
      StepKeepsInv(c, s, steps[0]);
      ShutdownTerminates(c, Apply(c, s, steps[0]), steps[1..]);
    }
  }

  /** From shutdown on, every state short of the end has an enabled step that needs neither a
      signal, nor a crash, nor the deadline: no deadlock. */
  lemma NoDeadlock<T>(c: Config, s: State<T>) returns (step: Step<T>)
    requires c.Valid() && Inv(c, s) && s.shutdown && !s.flusher.Done?
    ensures Enabled(s, step) && !step.Signal? && !step.Crash? && !step.DeadlinePasses?
  {
    match s.flusher
    case Head => step := LeaveHead;
    case Collecting => step := CollectTimeout;
    case Filling(_) => step := Fill;
    case Posting(_) => step := Settle(Accepted);
    case DrainHead => step := if s.queue == [] || s.deadline then DrainStop else DrainNext;
    case DrainPosting(_) => step := DrainSettle(Accepted);
    case AwaitProducers =>
      if s.producersDone {
        step := StartDrain;
      } else if p :| 0 <= p < |s.running| && s.running[p] {
        step := Return(p);
      } else {
        step := FinishProducers;
      }
  }

  /** A run that cannot be continued after shutdown has finished: all producers returned, and every
      tick ever produced was dropped from a full queue or posted, unless the drain deadline passed
      with ticks still queued. */
  lemma ShutdownCompletes<T>(c: Config, producers: nat, steps: seq<Step<T>>)
    requires c.Valid() && IsRun(c, Initial(producers), steps)
    requires var s := After(c, Initial(producers), steps);
             s.shutdown && forall step :: !Enabled(s, step)
    ensures var s := After(c, Initial(producers), steps);
            && s.flusher.Done? && true !in s.running
            && (DeadlinePasses in steps || |s.produced| == CountFate(s.fates, Dropped) + s.sent + s.failed)
  {
    var s := After(c, Initial(producers), steps);
    RunKeepsInv(c, Initial(producers), steps);
    Conservation(c, producers, steps);
    DeadlineCause(c, Initial(producers), steps);
    if !s.flusher.Done? {
      var step := NoDeadlock(c, s);
      assert false;
    }
  }

  // ----- The code that touches the queue -----

  class Pipeline<T> {
    const config: Config
    var queue: seq<T>
    var shutdown: bool
    var running: seq<bool>
    var producersDone: bool
    var flusher: Flusher<T>
    var deadline: bool
    var sent: nat
    var failed: nat
    ghost var produced: seq<T>
    ghost var fates: seq<Fate>
    ghost var posted: seq<T>
    ghost var accepted: seq<bool>

    ghost function Value(): State<T>
      reads this
    {
      State(queue, shutdown, running, producersDone, flusher, deadline, sent, failed, produced, fates, posted, accepted)
    }

    constructor (batchSize: nat, producers: nat)
      requires batchSize >= 1
      ensures config.Valid() && Value() == Initial(producers) && Inv(config, Value())
    {
      config := Config(batchSize, batchSize * 100);
      queue, shutdown, producersDone, flusher, deadline := [], false, false, Head, false;
      running := seq(producers, _ => true);
      sent, failed := 0, 0;
      produced, fates, posted, accepted := [], [], [], [];
    }

    /** One turn of a market producer up to its wait. */
    method ProducerTurn(p: nat, tick: T)
      requires config.Valid() && p < |running| && running[p]
      modifies this
      ensures Value() == Apply(config, old(Value()), if old(shutdown) then Return(p) else Produce(p, tick))
    {
      if shutdown {
        running := running[p := false];
        return;
      }
      if |queue| >= config.capacity {
        queue := queue[1..];
        fates := fates + [Dropped];
      }
      queue := queue + [tick];
      produced := produced + [tick];
    }

    /** The loop head of the flusher. */
    method HeadTurn()
      requires config.Valid() && flusher.Head?
      modifies this`flusher
      ensures Value() == Apply(config, old(Value()), LeaveHead)
    {
      flusher := if shutdown then AwaitProducers else Collecting;
    }

    /** Waiting for the first tick of a batch ends with a tick or with the timeout. */
    method CollectFirst(timedOut: bool)
      requires config.Valid() && flusher.Collecting? && (timedOut || queue != [])
      modifies this`queue, this`flusher, this`fates
      ensures Value() == Apply(config, old(Value()), if timedOut then CollectTimeout else TakeFirst)
    {
      if timedOut {
        flusher := Head;
        return;
      }
      flusher := Filling([queue[0]]);
      queue := queue[1..];
      fates := fates + AllTaken(1);
    }

    /** The end of `run_producers`. */
    method ProducersReturned()
      requires config.Valid() && true !in running && !producersDone
      modifies this`producersDone
      ensures Value() == Apply(config, old(Value()), FinishProducers)
    {
      producersDone := true;
    }

    /** The greedy half of collecting a batch, after the first tick arrived. */
    method FillBatch()
      requires config.Valid() && flusher.Filling?
      modifies this`queue, this`flusher, this`fates
      ensures Value() == Apply(config, old(Value()), Fill)
    {
      var batch := flusher.batch;
      ghost var taken := 0;
      while |batch| < config.batchSize
        invariant taken <= |old(queue)| && queue == old(queue)[taken..]
        invariant batch == old(flusher.batch) + old(queue)[..taken]
        invariant taken > 0 ==> |batch| <= config.batchSize
        invariant fates == old(fates) + AllTaken(taken)
      {
        if queue == [] {
          break;
        }
        batch := batch + [queue[0]];
        queue := queue[1..];
        fates := fates + [Taken];
        taken := taken + 1;
      }
      flusher := Posting(batch);
    }

    /** One pass of the drain loop up to its request, or the end of the loop. */
    method DrainPass()
      requires config.Valid() && flusher.DrainHead?
      modifies this`queue, this`flusher, this`fates
      ensures Value() == Apply(config, old(Value()), if old(queue) != [] && !deadline then DrainNext else DrainStop)
    {
      if queue == [] || deadline {
        flusher := Done;
        return;
      }
      var batch: seq<T> := [];
      while |batch| < config.batchSize && queue != []
        invariant |batch| <= config.batchSize && |batch| <= |old(queue)|
        invariant batch == old(queue)[..|batch|] && queue == old(queue)[|batch|..]
        invariant fates == old(fates) + AllTaken(|batch|)
      {
        batch := batch + [queue[0]];
        queue := queue[1..];
        fates := fates + [Taken];
      }
      flusher := DrainPosting(batch);
    }

    /** The request itself: a rejected key asks for shutdown. */
    method PostBatch(outcome: Outcome) returns (ok: bool)
      modifies this`shutdown
      ensures ok == (outcome == Accepted)
      ensures shutdown == (old(shutdown) || outcome == KeyRejected)
    {
      if outcome == KeyRejected {
        shutdown := true;
      }
      ok := outcome == Accepted;
    }

    /** What the main loop and the drain do with a response: count the whole batch. */
    method BookBatch(batch: seq<T>, outcome: Outcome, next: Flusher<T>)
      modifies this
      ensures Value() == Book(old(Value()), batch, outcome, next)
    {
      hide Flags;
      var ok := PostBatch(outcome);
      if ok {
        sent := sent + |batch|;
      } else {
        failed := failed + |batch|;
      }
      posted := posted + batch;
      accepted := accepted + Flags(|batch|, ok);
      flusher := next;
    }

    /** The response to a posted batch, in the main loop or while draining. */
    method SettleBatch(outcome: Outcome)
      requires config.Valid() && (flusher.Posting? || flusher.DrainPosting?)
      modifies this
      ensures Value() == Apply(config, old(Value()), if old(flusher).Posting? then Settle(outcome) else DrainSettle(outcome))
    {
      hide Book;
      BookBatch(flusher.batch, outcome, if flusher.Posting? then Head else DrainHead);
    }
  }
}
