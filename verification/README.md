# Betdoc: verified model of the market pipeline, limiter, seeder, board, vault and resolver

A Dafny model of the algorithms and protocols of the Betdoc backend and its odds simulators, with
proofs of what they promise. `dafny verify dfyconfig.toml` checks everything.

| file | models |
|---|---|
| `TokenBucket.dfy` | the Redis token bucket: stored form, eager form, exact admission law |
| `MarketTicker.dfy`, `QueuePipeline.dfy` | the queue-based odds simulator: one market's suspensions; producers, flusher, shutdown and drain |
| `PriceLadder.dfy`, `OutcomeModel.dfy`, `PowerMargin.dfy` | the seeder's mathematics: price grids, Poisson outcome probabilities, the margin bisection |
| `TickData.dfy`, `FixtureBuilder.dfy`, `DatasetBuilder.dfy`, `DatasetGenerator.dfy`, `Sorting.dfy` | the seeder's generate, trim and fill scheme |
| `DatasetFacts.dfy` | what a finished dataset looks like to its reader, in plain numbers |
| `FillerPriors.dfy` | what the seeder's fill promises of its re-quotes, against what it does |
| `LiveBoard.dfy`, `Connections.dfy` | the live-odds board against the log of publishes; sockets and broadcasts of one worker |
| `Base64Url.dfy`, `Vault.dfy` | vault tokens: text form, framing, key ring, rotation, blind indexes |
| `UnitSimplex.dfy` | exact rounding of probabilities, and the failure backoff of the stand-alone worker |
| `DottedPath.dfy` | the dotted-path resolver |
| `Prelude.dfy` | options, results, sums, rounding |

## Conventions

- Floats and decimals are exact: reals, or integers on the grid the source rounds to (odds in
  hundredths or thousandths, probabilities in ten-thousandths, times in microseconds).
- Random draws, clocks, HTTP and Redis outcomes are parameters, or nondeterministic results of the
  class `FixtureBuilder.Source`, so every statement holds for all of them.
- Concurrent code is a state machine whose steps are what one coroutine does between two awaits;
  statements about runs quantify over all interleavings. Where the source's text keeps several
  steps together, splitting them only adds interleavings.
- The power function of the margin and the ciphers of the vault are parameters. `PowerLaws`, for one
  result `ExponentsAdd` and for one `SlowInExponent` (a bound on the slope in the exponent), and
  `Crypto.Lawful` are the laws assumed of them.
- An expired Redis key is absent strictly after its expiry. `ExpiryGrantsNothing` covers the instant
  itself as well.

## Where code and documentation part

The model follows the code; these are the findings.

- `round_odds` says a quote is never better than the fair price implies. Below 1.01 it is: the floor
  price is quoted. `PriceLadder.NeverBetterIff` gives the exact condition.
- `_power_margin` says the implied probabilities sum to the book sum. They fall short when even the
  exponent 0.3 does not reach it; `PowerMargin.BracketHolds` gives the exact condition,
  `PowerMargin.LongshotsMissBooksum` a three-runner input, and `PowerMargin.MarginIsClose` how close
  the sum comes otherwise.
- `read_snapshot` promises every tick updated within the TTL. A tick exactly one TTL old is present
  unless another publish happened at that instant; `LiveBoard.SnapshotRefinesLog` is exact.
- A key-id clash in the vault makes the newer key answer for the older one's tokens;
  `Vault.OpeningSealed` says what then happens.
- `_fill` says each re-quote nudges the book's own last price. The code takes the runner's last tick
  in list order among those stamped no later than the new one, which need not be the latest in time:
  `FillerPriors.LatestCanFail` gives a run, `FillerPriors.LatestIff` and
  `FillerPriors.FillerKeepsLatestIff` the exact conditions.
- `_fill` says "by up to 1.5%". `FillerPriors.NudgeCanExceed` gives two inputs that go further, and
  `FillerPriors.NudgeThresholds` the exact condition on the factor, the prior price and the ladder.
- The seeder can fail for want of removable snapshots; `DatasetBuilder.Trim` shows that this depends
  on the generated ticks only, not on which snapshots are picked.

## Model

| member | source | states |
|---|---|---|
| TokenBucket.RateLimiter.Check | backend/app/core/rate_limit.py:13-40 | One run of the script: the decision and the whole new store, with every other key untouched, are those of `Admits` and `AfterCall` |
| TokenBucket.ExpiryGrantsNothing | backend/app/core/rate_limit.py:35 | Once a key's lifetime is over, the refill alone would have filled its bucket, so losing the key grants nothing |
| TokenBucket.LevelsAgree | backend/app/core/rate_limit.py:20-38 | After every run with a non-decreasing clock, the write-on-success bucket with expiry offers, for every key and later moment, as many tokens as a meter that every call updates and that never expires |
| TokenBucket.StoredBucketRefinesMeter | backend/app/core/rate_limit.py:24-38 | Both forms decide alike on every call of every run |
| TokenBucket.StoredAtLastAdmission | backend/app/core/rate_limit.py:31-38 | Only admissions write: after any run a key is stored exactly if one of its calls was admitted, as of the last such call, to live for the least whole number of seconds in which an empty bucket fills |
| TokenBucket.MeterLaw | backend/app/core/rate_limit.py:24-33 | `want` tokens are available exactly when they fit beside the earlier admissions: none since any of those admissions exceeds capacity plus refill |
| TokenBucket.AdmissionLaw | backend/app/core/rate_limit.py:20-39 | The exact admission law, both directions: admitted if and only if, counted from every earlier admission, admissions plus one stay within capacity plus refill |
| TokenBucket.BurstIsAdmitted | backend/app/core/rate_limit.py:24-33 | A key with fewer admissions than its capacity is never refused |
| TokenBucket.WindowBound | backend/app/core/rate_limit.py:20-39 | No time window of any run holds more admissions of a key than capacity plus the refill over the window |
| TokenBucket.MinuteBound | backend/app/core/rate_limit.py:77-82 | With the middleware's pair a key lives exactly 60 s and no minute admits more than twice the setting |
| TokenBucket.MinuteLaw | backend/app/core/rate_limit.py:77-82 | The middleware's decision in its own numbers, if and only if, and its grant: the first requests up to the setting pass at any pace |
| MarketTicker.MarketState.NextTick | scrapers/devraya/main.py:123-151 | One tick: the new state and the emitted tick, and the state stays within its bounds |
| MarketTicker.TraceWithinBounds | scrapers/devraya/main.py:87-93 | Along any trace odds stay in [1.01, 20.00] and probabilities in [0.01, 0.99] |
| MarketTicker.OpenTickMoves | scrapers/devraya/main.py:132-136 | An open tick moves the price to a nearest hundredth of price plus step plus two hundredths of the way back, or to the end of [1.01, 20.00] |
| MarketTicker.PriceReverts | scrapers/devraya/main.py:134-136 | With no step drawn the price never leaves the stretch between where it is and where it opened |
| MarketTicker.EdgeMoves | scrapers/devraya/main.py:140 | The edge loses a twentieth and takes the noise, within 8%, suspended or not |
| MarketTicker.ProbabilityCarriesEdge | scrapers/devraya/main.py:141 | Published probability times odds is one plus the edge up to the rounding, unless a bound of [0.01, 0.99] is met |
| MarketTicker.SuspendsOnDraw | scrapers/devraya/main.py:125-130 | An open market suspends if and only if its draw says so; a suspended one ignores it |
| MarketTicker.SuspensionFromDraw | scrapers/devraya/main.py:125-130 | A suspension drawn with length k gives k suspended ticks at the price before it, then an open one |
| MarketTicker.SuspensionRuns | scrapers/devraya/main.py:124-136 | Every maximal suspended run of every trace lasts at most 10 ticks, at least 3 unless the trace ends in it, at a constant price |
| QueuePipeline.Pipeline.ProducerTurn | scrapers/devraya/main.py:164-176 | A producer's turn: stop when shutdown is set, else enqueue and drop the oldest of a full queue |
| QueuePipeline.Pipeline.HeadTurn | scrapers/devraya/main.py:248 | The loop head goes on collecting until shutdown is set, then waits for the producers |
| QueuePipeline.Pipeline.CollectFirst | scrapers/devraya/main.py:191-196 | The wait for the first tick of a batch ends with the oldest queued tick or empty-handed |
| QueuePipeline.Pipeline.FillBatch | scrapers/devraya/main.py:198-203 | The greedy loop takes exactly the oldest ticks up to the batch size, in order |
| QueuePipeline.Pipeline.SettleBatch | scrapers/devraya/main.py:251-254 | The whole batch is booked by its outcome, in the main loop and in the drain, and a rejected key asks for shutdown; `CountersFollowResponses` says what booking means |
| QueuePipeline.Pipeline.DrainPass | scrapers/devraya/main.py:273-280 | A drain pass takes a non-empty batch of the oldest ticks, or ends the drain when the queue is empty or the deadline has passed |
| QueuePipeline.Pipeline.ProducersReturned | scrapers/devraya/main.py:332-342 | With no producer running, the end of `run_producers` is the step that sets `producers_done`; that it is set in no other state is part of `NoTickAfterDrain` |
| QueuePipeline.StepKeepsInv | scrapers/devraya/main.py:164-283 | Every step of every coroutine keeps the pipeline invariant: conservation, order, bounds and the shutdown stages |
| QueuePipeline.TakenIsSubsequence | scrapers/devraya/main.py:191-203 | What the flusher took is an in-order subsequence of what left the queue, the rest having been dropped |
| QueuePipeline.Conservation | scrapers/devraya/main.py:170-176 | In every reachable state produced = dropped + sent + failed + in flight + queued; the queue is bounded and is a suffix of what was produced; posted ticks keep their order |
| QueuePipeline.CountersFollowResponses | scrapers/devraya/main.py:251-280 | Along every run `sent` grows by exactly the batches whose response accepted them and `failed` by those of every other response |
| QueuePipeline.HistoryIsTrue | scrapers/devraya/main.py:164-203 | The history fields are true to the steps: what producers made, what was answered, and a drop exactly each time a producer found a hundred batches queued |
| QueuePipeline.Ledger | scrapers/devraya/main.py:164-280 | For every run from the start, in terms of its steps alone: made = dropped from a full queue + accepted + not accepted + in flight + queued, in order |
| QueuePipeline.FillIsGreedy | scrapers/devraya/main.py:198-203 | A batch is posted short of its size only when the queue is empty |
| QueuePipeline.DrainIsGreedy | scrapers/devraya/main.py:273-276 | So is a drain batch, and it is never empty |
| QueuePipeline.RoundPostsOldest | scrapers/devraya/main.py:248-254 | Without shutdown one round of the flusher posts the oldest ticks up to the batch size and comes back for more |
| QueuePipeline.DrainRoundPostsOldest | scrapers/devraya/main.py:273-280 | So does one round of the drain |
| QueuePipeline.NoTickAfterDrain | scrapers/devraya/main.py:264-266 | Once draining has started all producers have returned and no step produces a tick |
| QueuePipeline.ShutdownCause | scrapers/devraya/main.py:206-234 | Along every run shutdown is set if and only if it was, a signal came or a response rejected the key |
| QueuePipeline.DeadlineCause | scrapers/devraya/main.py:268-273 | The drain's time is up if and only if the clock passed the deadline |
| QueuePipeline.StepUsesBudget | scrapers/devraya/main.py:248-283 | After shutdown every step lowers a measure and produces nothing |
| QueuePipeline.ShutdownTerminates | scrapers/devraya/main.py:248-283 | After shutdown no run is longer than the measure of its first state |
| QueuePipeline.NoDeadlock | scrapers/devraya/main.py:248-283 | After shutdown every state short of the end has an enabled step that is no signal, crash or deadline |
| QueuePipeline.ShutdownCompletes | scrapers/devraya/main.py:264-285 | A run that cannot go on after shutdown has finished, with every produced tick dropped from a full queue, sent or failed, unless the clock passed the drain deadline |
| PriceLadder.RoundsToGreatest | backend/app/db/seed_historical_ticks.py:192-207 | On all three ladders `round_odds` gives the greatest grid price not above the odds, taken as at least 1.01 (1000 at most on the exchange), against a grid defined without rounding |
| PriceLadder.Grids | backend/app/db/seed_historical_ticks.py:192-207 | The three grids written out in numbers, the exchange's ten bands included |
| PriceLadder.BetfairBandsFit | backend/app/db/seed_historical_ticks.py:192 | Every exchange band starts on its own grid where the one below ends |
| PriceLadder.Monotone | backend/app/db/seed_historical_ticks.py:195-207 | Higher odds never round to a lower price, across band edges too |
| PriceLadder.FixedPoints | backend/app/db/seed_historical_ticks.py:195-207 | A price is left alone if and only if it is on the grid |
| PriceLadder.Idempotent | backend/app/db/seed_historical_ticks.py:195-207 | Rounding twice is rounding once |
| PriceLadder.NeverBetterIff | backend/app/db/seed_historical_ticks.py:196-197 | The promise that a quoted price is never better than the fair one holds if and only if the odds are at least 1.01; below, 1.01 is quoted |
| OutcomeModel.Poisson | backend/app/db/seed_historical_ticks.py:152-156 | The loop computes the truncated Poisson vector |
| OutcomeModel.PoissonVector | backend/app/db/seed_historical_ticks.py:152-156 | The vector holds exp(-lam) lam^k / k! for none to twelve goals |
| OutcomeModel.OutcomeProbabilities | backend/app/db/seed_historical_ticks.py:159-175 | The nested accumulation is the normalised sums over home wins, draws, away wins and scores of at most two goals |
| OutcomeModel.ExactShares | backend/app/db/seed_historical_ticks.py:159-175 | Each number as a share of the product of the vector sums: HOME and AWAY the score lines with more goals, DRAW the diagonal, UNDER the six lines with at most two goals |
| OutcomeModel.Accumulate | backend/app/db/seed_historical_ticks.py:162-173 | The nested loop over score lines accumulates the five sums of the whole grid |
| OutcomeModel.Partition | backend/app/db/seed_historical_ticks.py:163-174 | Home wins, draws and away wins together are the whole score grid |
| OutcomeModel.Distributions | backend/app/db/seed_historical_ticks.py:174-175 | HOME + DRAW + AWAY = 1 and OVER + UNDER = 1, all in [0, 1], and the normaliser is the product of the two vector sums |
| OutcomeModel.Transpose | backend/app/db/seed_historical_ticks.py:163-173 | A double sum over score lines equals the one with teams and condition exchanged |
| OutcomeModel.SwapTeams | backend/app/db/seed_historical_ticks.py:159-175 | Swapping the two rates swaps HOME and AWAY and leaves DRAW, OVER and UNDER unchanged |
| OutcomeModel.FavouriteLeads | backend/app/db/seed_historical_ticks.py:159-175 | HOME exceeds AWAY if and only if the home rate exceeds the away rate |
| PowerMargin.Implied | backend/app/db/seed_historical_ticks.py:178-189 | The returned probabilities are the fair ones raised to one exponent in [0.3, 1], and whenever 0.3 reaches the book sum they add up to it within runners times slope times 0.7 / 2^60 |
| PowerMargin.BracketHolds | backend/app/db/seed_historical_ticks.py:181-187 | The bracket keeps sum(p^hi) <= booksum and halves every time (0.7 / 2^60 after 60); sum(p^lo) > booksum if and only if already the lowest exponent reaches it |
| PowerMargin.ImpliedSum | backend/app/db/seed_historical_ticks.py:188-189 | The returned sum lies between the sums at the two ends of the bracket and is never below 1 |
| PowerMargin.MarginIsClose | backend/app/db/seed_historical_ticks.py:179-189 | Whenever the lowest exponent reaches the book sum, the returned sum is within runners times slope times bracket width of it, the width being 0.7 / 2^60 after the sixty halvings |
| PowerMargin.LongshotsMissBooksum | backend/app/db/seed_historical_ticks.py:179 | A three-runner input that misses its book sum: with two chances of 2^-40 the sum is at most 1 + 2^-11, below every book sum the books use |
| PowerMargin.MarginShape | backend/app/db/seed_historical_ticks.py:178-180 | Implied probabilities keep the fair order, never fall below it, and carry a larger share of margin the longer the shot |
| PowerMargin.QuoteNeverBeatsFair | backend/app/db/seed_historical_ticks.py:247-256 | A quote is the best ladder price the implied probability allows, so it never beats the fair one except where the 1.01 floor applies |
| PowerMargin.BookIsOverround | backend/app/db/seed_historical_ticks.py:252-256 | A complete quote is worth at least 100% unless a runner meets the 1.01 floor |
| FixtureBuilder.Requote | backend/app/db/seed_historical_ticks.py:273-280 | One book quotes every runner of the fixture exactly once, in the listed order, each on its ladder and stamped alike |
| FixtureBuilder.Poll | backend/app/db/seed_historical_ticks.py:313-316 | A poll holds exactly one tick for every book, market and runner, in the listed order, all of one instant |
| FixtureBuilder.Suspend | backend/app/db/seed_historical_ticks.py:302-308 | A suspension repeats the book's last price and stake of every runner exactly once; its lookups cannot miss |
| FixtureBuilder.FreezeForNews | backend/app/db/seed_historical_ticks.py:302-308 | A soft book whose draw says so suspends all its runners at the drawn instant, each at its last price and stake, and else none; a sharp book never does |
| FixtureBuilder.RequoteForNews | backend/app/db/seed_historical_ticks.py:309-311 | A book re-quotes all its runners at its drawn instant if that is before the next poll, and else none |
| FixtureBuilder.NewsForBook | backend/app/db/seed_historical_ticks.py:301-311 | A book adds its suspension, if drawn, then its new prices, if they come in time; every suspended tick in the list still repeats the last price before it |
| FixtureBuilder.News | backend/app/db/seed_historical_ticks.py:296-311 | Everything a news burst adds falls strictly between two polls and only soft books are suspended, at their last prices; the fixture stays in order |
| FixtureBuilder.Gap | backend/app/db/seed_historical_ticks.py:293-319 | After possible news, all of it before the next poll, that poll is appended whole; an inner one, and only an inner one, is recorded as removable |
| FixtureBuilder.Build | backend/app/db/seed_historical_ticks.py:283-320 | A built fixture has complete opening and closing markets outside every removable snapshot, two to four disjoint snapshots that are each one whole poll at one of the inner times, ladder prices only, all ticks within its span, and suspensions only of soft books and at their last prices |
| TickData.DropKeeps | backend/app/db/seed_historical_ticks.py:405-408 | Dropping a snapshot removes exactly its ticks and leaves opening and closing markets complete |
| TickData.OpeningHasPrior | backend/app/db/seed_historical_ticks.py:423-441 | At any instant from the opening on every book, market and runner has an earlier tick, so the missing-prior branch is unreachable |
| DatasetBuilder.DropSnapshot | backend/app/db/seed_historical_ticks.py:406-409 | Popping a snapshot and filtering by object identity is the value-level `Drop`, and the count returned is the number removed |
| DatasetBuilder.Trim | backend/app/db/seed_historical_ticks.py:400-409 | Trimming terminates, `base` stays the tick count, only snapshot ticks go, and it fails if and only if the ticks no snapshot holds exceed `rows`; it stops as soon as the count fits: nothing goes if it fits already, and else giving some snapshot back would be too many |
| DatasetBuilder.DropOne | backend/app/db/seed_historical_ticks.py:402-409 | One random removable snapshot goes, and with it still there the count was too high |
| DatasetBuilder.LatestBefore | backend/app/db/seed_historical_ticks.py:425-428 | The dictionary maps every runner to its last tick in list order stamped no later than the instant |
| DatasetBuilder.LastOpen | backend/app/db/seed_historical_ticks.py:423 | The latest instant at which the fixture was quoted and not suspended |
| DatasetBuilder.ChooseRunners | backend/app/db/seed_historical_ticks.py:429-437 | A full market while three rows or more are missing, then one exchange runner |
| DatasetBuilder.FillInstant | backend/app/db/seed_historical_ticks.py:423-424 | The chosen instant lies at least a minute after the opening poll and a minute before the last open one |
| DatasetBuilder.AddFiller | backend/app/db/seed_historical_ticks.py:442-443 | One derived tick is appended and the fixture stays well built |
| DatasetBuilder.Nudged | backend/app/db/seed_historical_ticks.py:442-443 | A filler keeps the prior's book, runner and stake and gets the greatest ladder price not above the nudged one |
| DatasetBuilder.FillOnce | backend/app/db/seed_historical_ticks.py:422-446 | Every round re-quotes the chosen runners completely, each from its last earlier tick in the list as the round found it; at least one tick is added and never more than are missing |
| DatasetBuilder.FillRounds | backend/app/db/seed_historical_ticks.py:421-446 | The rounds end with exactly the missing number of ticks added |
| DatasetBuilder.SortFixtures | backend/app/db/seed_historical_ticks.py:447-448 | Sorting every fixture keeps the total and finishes every fixture |
| DatasetBuilder.SortingFinishes | backend/app/db/seed_historical_ticks.py:447-448 | Sorting a fixture's ticks keeps both complete markets, soundness and derivations |
| DatasetBuilder.Fill | backend/app/db/seed_historical_ticks.py:417-448 | The fill adds exactly the missing ticks, keeps all earlier ones, adds only new ones and finishes every fixture |
| DatasetBuilder.FillerTraces | backend/app/db/seed_historical_ticks.py:423-443 | Every filler goes back, through fillers, to a tick of the same book, runner and stake that is none and is stamped no later |
| DatasetBuilder.FinishedKeeps | backend/app/db/seed_historical_ticks.py:400-448 | A finished fixture has every tick that no snapshot held, and everything it has that was not built is an open filler that goes back to a built tick |
| FillerPriors.LatestIff | backend/app/db/seed_historical_ticks.py:418-428 | The last tick in list order is a latest one, for every instant up to a limit, if and only if every stamp of the runner is closed: after some tick bearing it, none is stamped earlier |
| FillerPriors.SortedIsSettled | backend/app/db/seed_historical_ticks.py:425-428 | A runner whose ticks are in time order meets that condition |
| FillerPriors.FillerKeepsLatestIff | backend/app/db/seed_historical_ticks.py:442-443 | A filler keeps the lookup right if and only if no tick of its runner up to the limit is stamped later than it |
| FillerPriors.LatestCanFail | backend/app/db/seed_historical_ticks.py:418-443 | In every well-built fixture with five rows missing there are three rounds whose last filler repeats a price that is not its runner's latest |
| FillerPriors.NudgeThresholds | backend/app/db/seed_historical_ticks.py:419-442 | For every ladder price there are two ladder prices between which the raw nudge must fall: exactly then the nudged price stays within 1.5% |
| FillerPriors.NudgeCanExceed | backend/app/db/seed_historical_ticks.py:419-442 | Two inputs beyond 1.5%: a factor of 1.02 on the finest ladder, and a factor of 0.9999 that falls to the next lower price of a coarse one |
| DatasetGenerator.Kickoffs | backend/app/db/seed_historical_ticks.py:339-348 | Kick-offs are sorted, the first a week after the start, the last 15 minutes after the last day, and each other one on one of the five slots of a day from the one after the first to the last whole day |
| DatasetGenerator.SnapFirst | backend/app/db/seed_historical_ticks.py:396-399 | Exactly the first fixture's ticks stamped within two seconds of the start move to it, nothing else changes, and every fixture stays well built |
| DatasetGenerator.Prepare | backend/app/db/seed_historical_ticks.py:375-399 | The estimated number of well-built fixtures, one per kick-off, the first opening exactly at the start, suspensions at last prices |
| DatasetGenerator.TrimAndFill | backend/app/db/seed_historical_ticks.py:400-411 | Ends with exactly `rows` ticks if and only if the ticks no snapshot holds do not exceed `rows`; then every fixture keeps those, what it gains are fillers that go back to built ticks, and no more is trimmed and filled than needed |
| DatasetGenerator.Assemble | backend/app/db/seed_historical_ticks.py:412-414 | The result holds exactly the fixtures' ticks, in the final order |
| DatasetGenerator.FirstAndLast | backend/app/db/seed_historical_ticks.py:412 | The sorted dataset starts exactly at the start and ends within a second after start + days |
| DatasetGenerator.GenerateDataset | backend/app/db/seed_historical_ticks.py:368-414 | An argument error, or a failed trim if and only if the built ticks that no snapshot holds exceed `rows`, or else a dataset of exactly `rows` sorted ticks over the promised span, all fixtures finished, every filler going back to a built tick of the same book and runner stamped no later |
| DatasetFacts.EveryTick | backend/app/db/seed_historical_ticks.py:73-78 | Every tick of a dataset is on its book's grid and in its book's currency, about a runner of its market, and suspended only at the two soft books |
| DatasetFacts.Calendar | backend/app/db/seed_historical_ticks.py:339-348 | First and last tick and every kick-off in microseconds: the start, a week later, the end of the last day, and the five daily slots between |
| DatasetFacts.OpensAndCloses | backend/app/db/seed_historical_ticks.py:283-319 | Every fixture has a complete open market of all four books a week and again a quarter of an hour before its kick-off, and no tick outside |
| DatasetFacts.FewFillersOrNoneLost | backend/app/db/seed_historical_ticks.py:400-411 | If what was built fits, all of it is kept; else fewer than twenty ticks, one whole poll, are fillers |
| DatasetFacts.FixturesAsEstimated | backend/app/db/seed_historical_ticks.py:378-379 | The number of fixtures is 0.86 of the rows at 92 each, to the nearest, and at least two |
| DatasetFacts.RanksFollowNames | backend/app/db/seed_historical_ticks.py:412 | The model's ranks order books, markets and selections as the names in the sort key do |
| DatasetFacts.InOrder | backend/app/db/seed_historical_ticks.py:412 | A dataset lists its ticks by time, then fixture, then the names of market, book and selection, and each fixture by time |
| DatasetFacts.TiesKeepOrder | backend/app/db/seed_historical_ticks.py:412 | Ticks with equal sort keys keep the order they had |
| Sorting.SortIsStable | backend/app/db/seed_historical_ticks.py:447-448 | Sorting is stable: elements the order does not tell apart stay in the order they had |
| LiveBoard.LiveOdds.Publish | backend/app/core/live_odds.py:88-117 | One publish: pruning, hash, time index and histories; False and no change without a Redis, or when there is something to publish and it is unreachable |
| LiveBoard.LiveOdds.AddToHistory | backend/app/core/live_odds.py:107-111 | One history entry: added, trimmed to the window, expiry renewed, other cells untouched |
| LiveBoard.BoardRefinesLog | backend/app/core/live_odds.py:98-105 | For every log, hash and index hold a key if and only if its last update was within the TTL at the last pruning, and then that update |
| LiveBoard.SameKeys | backend/app/core/live_odds.py:98-105 | Hash and time index always have the same keys |
| LiveBoard.SnapshotRefinesLog | backend/app/core/live_odds.py:120-132 | A reader gets the last tick of every key updated strictly within the TTL and nothing older; the exact cutoff instant is decided both ways |
| LiveBoard.HistoryAt | backend/app/core/live_odds.py:106-111 | A cell's history is exactly what was added strictly within the window before its last pricing, despite the key's expiry |
| LiveBoard.HistoryIsWindow | backend/app/core/live_odds.py:106-111 | Right after a publish that prices a cell its history is exactly the odds, probability and nearest millisecond of its updates with odds above 1 strictly inside the window |
| LiveBoard.MemberIff | backend/app/core/live_odds.py:109 | A history member is the update's odds, its probability and its time to the nearest millisecond |
| LiveBoard.PointsDiffer | backend/app/core/live_odds.py:109 | Updates that differ in odds or probability, or lie more than a millisecond apart, are different members |
| Connections.ConnectionManager.Connect | backend/app/core/websockets.py:30-34 | Registers the socket in both places |
| Connections.ConnectionManager.Disconnect | backend/app/core/websockets.py:46-48 | Removes the socket from both places, registered or not |
| Connections.ConnectionManager.BeginBroadcast | backend/app/core/websockets.py:70-84 | The synchronous prefix of a broadcast: the cache takes the last tick per key, and the targets are the sockets active now |
| Connections.StepKeepsInv | backend/app/core/websockets.py:30-99 | Every step of every interleaving keeps active sockets equal to lock keys, the cache equal to the last ticks broadcast, and evictions within failures |
| Connections.Reachable | backend/app/core/websockets.py:30-99 | In every reachable state those hold, and a finished broadcast has evicted exactly those of its sockets whose send failed |
| Connections.ActiveAfter | backend/app/core/websockets.py:30-65 | After any run a socket is active if and only if the last step that joined or removed it joined it, or there was none and it was active |
| Connections.Targets | backend/app/core/websockets.py:84-90 | In every run a broadcast sends to exactly the sockets that were active when it began |
| Connections.FailedInRun | backend/app/core/websockets.py:86-96 | Along every run the sends recorded as failed are exactly those that ended badly or were tried on a socket no longer registered |
| Connections.EvictsExactlyFailed | backend/app/core/websockets.py:91-99 | A finished broadcast has evicted exactly the sockets whose send went wrong |
| Connections.CacheFollowsRun | backend/app/core/websockets.py:70-74 | In every reachable state the cache is the last tick per key over all batches the run broadcast |
| Connections.BroadcastOutcome | backend/app/core/websockets.py:83-99 | Once a broadcast has finished, a socket it started with that has not joined anew is active if and only if its send did not go wrong in the run, it did not leave and no other broadcast evicted it |
| Connections.BroadcastAlone | backend/app/core/websockets.py:83-99 | A broadcast undisturbed by other steps removes exactly the sockets whose send ended in an error or a timeout |
| Connections.EvictionIsIdempotent | backend/app/core/websockets.py:60-65 | Evictions may be repeated and reordered without effect |
| Connections.HealthySocketStays | backend/app/core/websockets.py:83-99 | A socket that does not leave and whose sends succeed is never dropped |
| Connections.BroadcastAdvances | backend/app/core/websockets.py:86-99 | An unfinished broadcast can always take a step of its own |
| Connections.BroadcastUsesBudget | backend/app/core/websockets.py:86-99 | A broadcast's own steps lower its budget and no other step changes it |
| Connections.FreshBudget | backend/app/core/websockets.py:84-99 | The budget of a fresh broadcast is three per socket plus two |
| Base64Url.StripIsBare | backend/app/core/security_vault.py:120 | Stripping the padding leaves the unpadded text of sections 3.2 and 5 of RFC 4648 |
| Base64Url.SymbolsOfTheTable | backend/app/core/security_vault.py:120 | The symbols are those of Table 2 in section 5 of RFC 4648, and the decoder reads the two of the standard alphabet as well |
| Base64Url.GroupSpelt | backend/app/core/security_vault.py:120 | Every group of bytes, read as a number, is what its symbols spell in base 64, most significant first |
| Base64Url.ForeignIsSkipped | backend/app/core/security_vault.py:78-79 | Characters outside both alphabets carry nothing, wherever they stand |
| Base64Url.RejectedTexts | backend/app/core/security_vault.py:78-79 | A text with a character outside ASCII, or with one symbol left over, is no base64 |
| Base64Url.DecodeUndoesEncode | backend/app/core/security_vault.py:78-79 | The tolerant decoder undoes the padded encoding of every byte string |
| Base64Url.RoundTrip | backend/app/core/security_vault.py:78-79 | Stripping "=" and restoring `-len % 4` of them recovers every byte string |
| Vault.Framing | backend/app/core/security_vault.py:117-139 | Slicing key id, nonce and sealed part inverts the concatenation, through the text form |
| Vault.SealedIsFramed | backend/app/core/security_vault.py:117-120 | A sealed token is "v2." and the unpadded text of the primary's key id, the nonce and the ciphertext in its context |
| Vault.FailsBeforeOpening | backend/app/core/security_vault.py:122-137 | The error cases before any cipher: empty, outside ASCII, not base64, shorter than 32 bytes |
| Vault.LookupIsFirst | backend/app/core/security_vault.py:103-105 | The key dictionary answers with the newest key of an id: the primary wins a clash |
| Vault.OpeningSealed | backend/app/core/security_vault.py:117-143 | What any ring makes of any sealed token in any context: unknown key, the plaintext, or what the newest key of that id makes of it |
| Vault.ContextBinds | backend/app/core/security_vault.py:140-143 | With a cipher that rejects a foreign context, a token copied into another record opens nowhere |
| Vault.OpeningFernet | backend/app/core/security_vault.py:125-129 | A Fernet token opens if and only if its key is in the ring |
| Vault.CurrentMeansPrimary | backend/app/core/security_vault.py:168-175 | `is_current` holds of a sealed token if and only if it was sealed under the primary's id |
| Vault.FernetIsNeverCurrent | backend/app/core/security_vault.py:170-171 | A Fernet token is never current |
| Vault.Rotate | backend/app/core/security_vault.py:160-166 | Rotation opens and re-seals under the primary, fails as opening fails, and leaves the buffer that held the plaintext all zero |
| Vault.Wipe | backend/app/core/security_vault.py:166 | The buffer is overwritten with zeros |
| Vault.TokenSurvives | backend/app/core/security_vault.py:99-166 | Through every run of promotions and rotations with distinct key ids a stored token, GCM or Fernet, still opens to its plaintext under its context |
| Vault.RotationIsCurrent | backend/app/core/security_vault.py:160-175 | A rotated token opens to the same plaintext and is current |
| Vault.BlindIndexes | backend/app/core/security_vault.py:182-189 | Current digest first, no duplicates, and exactly the digests of the keys in the dictionary |
| Vault.EveryKeyIndexed | backend/app/core/security_vault.py:103-105 | With distinct ids every held key is in the dictionary, so rows indexed under any of them still match |
| UnitSimplex.RoundToUnitSimplex | backend/scripts/devraya_worker.py:93-99 | The entries sum to exactly one, and all but the first maximal one are the plain rounding |
| UnitSimplex.PlainIsNearest | backend/scripts/devraya_worker.py:94 | The plain rounding is to the nearest unit, an even one at a tie |
| UnitSimplex.CorrectionIsSmall | backend/scripts/devraya_worker.py:93-99 | For probabilities summing to 1 the corrected entry moves by at most n/2 units, and none is negative when n(n-1) <= 2 * 10^places |
| UnitSimplex.NormalizeOnSimplex | backend/scripts/devraya_worker.py:88-90 | Normalising positive weights gives positive probabilities summing to 1 |
| UnitSimplex.NormalizeKeepsProportions | backend/scripts/devraya_worker.py:88-90 | Normalising keeps proportions |
| UnitSimplex.DriftPulls | backend/scripts/devraya_worker.py:121-125 | Without noise a probability closes a hundredth of the distance to its anchor; noise shifts it, down to the floor |
| UnitSimplex.Market.Step | backend/scripts/devraya_worker.py:118-127 | The new probabilities are the drifted old ones, normalised; whatever the noise, the three published ones are non-negative and sum to exactly 1.0000 |
| UnitSimplex.Engine.EmitBatch | backend/scripts/devraya_worker.py:195-225 | The counters are the trailing failures, the successes and the ticks of the successes over the whole history |
| UnitSimplex.FailuresAtTheEnd | backend/scripts/devraya_worker.py:195-225 | The failure counter is the length of the stretch of failures, no response or no 2xx status, at the end of the history |
| UnitSimplex.SuccessesAddUp | backend/scripts/devraya_worker.py:210-225 | A 2xx response counts as one batch and all its ticks, anything else as nothing, added up over the history |
| UnitSimplex.BackoffSaturates | backend/scripts/devraya_worker.py:227-232 | More failures never shorten the wait, it never exceeds 10 s and is exactly 10 s from the sixth failure on |
| UnitSimplex.EveryFailureDoubles | backend/scripts/devraya_worker.py:227-232 | Every further failure doubles the wait, as far as ten seconds allow |
| DottedPath.ResolvePath | backend/app/adapters/base_adapter.py:56-71 | The loop computes the recursive resolution, with the first failing segment as the error |
| DottedPath.FieldSegment | backend/app/adapters/base_adapter.py:60-63 | A segment picks a field by name; a missing one is an error |
| DottedPath.IndexSegment | backend/app/adapters/base_adapter.py:64-68 | A decimal number picks a list item from the front, with a minus sign from the back; numbers out of range and words are errors |
| DottedPath.ScalarSegment | backend/app/adapters/base_adapter.py:69-70 | Nothing can be named inside a scalar |
| DottedPath.SplitJoins | backend/app/adapters/base_adapter.py:59 | Splitting cuts at every dot and nowhere else |
| DottedPath.PathsCompose | backend/app/adapters/base_adapter.py:56-71 | Resolving p.q is resolving p, then q in the result, failures included |
| DottedPath.EmptySegmentsIgnored | backend/app/adapters/base_adapter.py:59 | Leading, trailing and doubled dots change nothing |
| DottedPath.ResolvesVisiblePart | backend/app/adapters/base_adapter.py:60-71 | Resolution sees only the fields and items on the path and the sizes of the lists it passes |
| DottedPath.AgreementSuffices | backend/app/adapters/base_adapter.py:56-71 | Documents that agree along a path resolve it alike |

## Left out

- Object-relational models, migrations, the ledger, the pricing and betting domain, the front end and the wiring of the applications.
- Transport: HTTP, Redis and database failures beyond their outcome, and a publish that stops halfway through its pipeline; each publish is one atomic step.
- The limiter's fail-open path, a clock that runs backwards, and a limit that changes between calls of one key.
- Float rounding error, `%.3f` ties decided by binary representation, and the statistical shape of the generator (drift, noise, lags within their ranges, liquidity, score draws, FX fixings).
- Determinism for a seed: the random source is nondeterministic.
- Fixture names, team choice and the naming of duplicate fixtures: a fixture is identified by its position, which also stands for its name in the final sort order.
- FixtureBuilder.Build: any subset of the gaps may carry news, where the source picks at most four.
- Tick objects of the seeder are values with an identity; the snapshot lists therefore do not see the first fixture's opening ticks move, which no snapshot holds.
- QueuePipeline: cancellation and the second Ctrl+C, and exceptions other than HTTP errors inside the flusher; statistics logging.
- Connections: the order in which the per-socket lock admits two senders, the initial board sent to a new socket, and the close frame of an evicted one.
- LiveBoard: JSON text, the order of a snapshot's ticks, and the dropping of malformed messages; the board stores ticks themselves.
- Vault: the strength of the ciphers; tampering is whatever the cipher parameter answers. Fernet key parsing, and text encoding of plaintexts.
- DottedPath: index tokens outside ASCII digits, signs, spaces and underscores; the error message's copy of the whole path. Payload normalisation, timestamps and the adapter registry.
- UnitSimplex: the conversion of probabilities to odds, and an empty list, on which the source raises.
