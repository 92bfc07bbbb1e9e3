# Goldmine: a verified model

Goldmine is a C++20 trading engine for gold. Four threads hand ticks, indicator snapshots, signals and
outcomes to each other through lock-free queues; rules over the indicators form a 1024-bit mask whose
weighted sum is the conviction; an online learner adjusts the weights; and three loops trade on the
result: a paper engine inside the pipeline, the live engine, and a single-threaded backtester. This
project models those parts in Dafny and proves what they guarantee over whole runs.

`dafny verify dfyconfig.toml` checks the whole project.

## How it is organised

| area | files |
|---|---|
| lock-free hand-off | `SpscProtocol`, `SpscQueue`, `PingPong`, `Pipeline` (with `Subsequences`, `Remainders`) |
| windowed indicators | `TickStore`, `Lanes`, `Indicators`, `WindowStatistics`, `Distribution` (with `Sums`, `Statistics`, `Smoothing`) |
| rule mask, score, learner | `Bits`, `RuleMask`, `Scoring`, `OnlineLearner` |
| trading state machines | `Backtest`, `BacktestTrades`, `PaperTrading`, `LiveEngine`, `LiveDecisions`, `TransactionCosts`, `Account`, `RiskEngine` (with `Accounting`) |
| feature file, trade log | `FeatureExporter`, `TradeStore` |

Concurrent code appears twice. In the state machines `SpscProtocol` and `PingPong` a step is one shared
access; an acquire load may return any value published since the thread's last load, and a plain read any
write not hidden by a visible later one. `Pipeline` and `TradeStore` build on the queue and buffer
behaviour proved there, with one hand-off per step; `Pipeline.PingPongStepsHere` and
`Pipeline.QueueStepsHere` are the link. The classes `SpscQueue.Queue`, `PingPong.Buffer` and
`TradeStore.Store` are the same code as its owners call it, call by call. Code that updates objects or
arrays in place is a class or an array method proved against a function of its history; loops are loops
with invariants.

The backtest results assume positive prices: the code uses a trailing stop of 0 for "not armed". Prices
are real numbers, as the build enables `-ffast-math`. The square root is a parameter: where its value
matters it is required to be the non-negative root. Mask words are naturals below 2^64 with bit-wise
operations defined bit by bit.

## Where the code and its comments part

- `online_learner.hpp` says the dense decay happens every 100 updates; the code does it every 128.
- `compute_atr` saves `prev_atr` before its last two steps, so it lags by two.
- `feature_exporter.hpp` says the tick of 50 ago is written; it is the tick of 63 ago.
- `PaperTradeSummary::peak_equity` starts at 0, so drawdown from the starting capital is not seen until a
  close has reached it (`PaperTrading.PeakForgetsCapital` says exactly when). Its profits are per unit:
  the lot size plays no part.
- The backtester sizes positions for 1% risk, but the cap of 2 lots always binds
  (`Backtest.LotSizeIsAlwaysTheCap`). The position closed after the last tick enters the totals but
  neither the exit counters nor the drawdown.
- The 5% risk cap of the live engine can fail for a risk that the command line writes between the gate's
  store and its use (`LiveEngine.WrittenRiskEscapesTheCap`); `LiveEngine.StopKeepsCapIff` says exactly when.
- The live engine loads each command-line override twice, to test it and to use it. One cleared in between
  (`sl 0`) can put a stop at the entry or on the winning side (`LiveEngine.ClearedStopIsOnTheWrongSide`), but
  only of a position that holds nothing; `LiveEngine.SidesIff` says exactly when, for stop and target.
- The limit of five orders a second holds for a second exactly when at most five calls of it pass the price
  bound or timestamps do not come back to it (`RiskEngine.FivePerSecond`).
- Logging a frame does not look at the stop flag: one accepted after the worker has finished is never
  written (`TradeStore.FrameAfterStopIsLost`); being logged before the stop is exactly what makes storage sure
  (`TradeStore.LoggedBeforeStopIff`).
- A ping-pong load can be torn once two stores overtake it (`PingPong.OvertakenLoadTears`); the pipeline
  result is stated for loads that are not.
- The correlation asks for 900 ticks of a ring that holds 512, so its window is the ring.

## Model

| member | source | states |
|---|---|---|
| `SpscProtocol.FifoInEveryRun` | include/goldmine/lockfree_queue.hpp:59-93 | in every interleaving and under every stale or reordered read the memory allows, what was popped is a prefix of what was accepted and at most N-1 items wait |
| `SpscProtocol.CachesOnlyLag` | include/goldmine/lockfree_queue.hpp:64-66 | in unwrapped counters tail_cache <= tail <= head_cache <= head <= tail_cache + N-1, and every stored index is its counter modulo N |
| `SpscProtocol.EveryReadIsTheOldest` | include/goldmine/lockfree_queue.hpp:89-92 | whatever write a racy read of the slot could return, a pop obtains the oldest waiting item |
| `SpscProtocol.WriteNeverRaces` | include/goldmine/lockfree_queue.hpp:69-71 | the slot the producer is about to write holds no waiting item, is not being copied, and all earlier copies out of it happened before an acquired index |
| `SpscProtocol.RefusalIsConservative` | include/goldmine/lockfree_queue.hpp:61-67 | a push is refused exactly when N-1 items separate the loaded tail from the head: never accepted when full, and a fresh load is exact |
| `SpscProtocol.EmptyAnswerIsConservative` | include/goldmine/lockfree_queue.hpp:81-87 | a pop answers empty exactly when the loaded head equals the tail: always when empty, and a fresh load is exact |
| `SpscProtocol.PushStartsByCache` | include/goldmine/lockfree_queue.hpp:59-73 | in every run a starting push never answers by itself: it goes to its write exactly when the queue is the cached one and N-1 items do not separate the cached tail from the head, and otherwise to a load of the tail |
| `SpscProtocol.PopStartsByCache` | include/goldmine/lockfree_queue.hpp:80-93 | the same for a starting pop: it reads exactly when the cached head shows an item, and otherwise loads the head |
| `SpscProtocol.AnswersFollowLoads` | include/goldmine/lockfree_queue.hpp:59-93 | in every reachable state a push ends by publishing its item or by a load in the same call, and a pop by taking one or by a load |
| `SpscProtocol.FreshPush` | include/goldmine/lockfree_queue.hpp:59-73 | from every reachable state with an idle producer its own steps with a fresh load end the push, with the item accepted if and only if fewer than N-1 items wait |
| `SpscProtocol.FreshPop` | include/goldmine/lockfree_queue.hpp:80-93 | from every reachable state with an idle consumer its own steps with a fresh load end the pop, with the oldest waiting item taken if and only if something waits |
| `SpscProtocol.QueueMakesProgress` | include/goldmine/lockfree_queue.hpp:59-93 | both, from every state of every run of either queue |
| `SpscProtocol.RunKeepsInv` | include/goldmine/execution/binance_connector.hpp:22-41 | the counter and slot invariant holds in every run of either queue; the uncached machine is LockFreeOrderQueue, which loads the other index on every call |
| `SpscProtocol.RefinesBoundedFifo` | include/goldmine/execution/binance_connector.hpp:22-41 | every step of both queues is a step of one bounded FIFO: publishing the producer index appends, publishing the consumer index removes the front, all else changes nothing |
| `SpscProtocol.ApproxSizeIsExact` | include/goldmine/lockfree_queue.hpp:103-107 | (h - t + N) mod N counts the waiting items when both indices are current |
| `SpscProtocol.MaskedSuccessor` | include/goldmine/lockfree_queue.hpp:61 | for a power-of-two capacity, masking the successor of an index wraps it to 0 exactly at the capacity |
| `SpscQueue.Queue.constructor` | include/goldmine/lockfree_queue.hpp:113-125 | an empty queue of the given capacity |
| `SpscQueue.Queue.TryPush` | include/goldmine/lockfree_queue.hpp:59-73 | accepts exactly when fewer than capacity - 1 items wait and then appends the item |
| `SpscQueue.Queue.TryPop` | include/goldmine/lockfree_queue.hpp:80-93 | removes and returns the oldest item, or nothing exactly when there is none |
| `SpscQueue.Queue.ApproxSize` | include/goldmine/lockfree_queue.hpp:103-107 | the number of waiting items |
| `PingPong.LoadsAreWhole` | include/goldmine/lockfree_queue.hpp:157-171 | indices of successful loads strictly increase, and a load of index k copied exactly the k-th stored value if store k+2 had not begun when the copy ended; store k+1 may overlap |
| `PingPong.TornWordsComeFromLaterStores` | include/goldmine/lockfree_queue.hpp:157-171 | with no proviso, every copied word belongs to store k or to a later store into the same slot |
| `PingPong.WordIsSafeIff` | include/goldmine/lockfree_queue.hpp:168 | a word being copied is certain to be that of store k if and only if no later store has written a different value into it |
| `PingPong.LoadFetchesWhenNew` | include/goldmine/lockfree_queue.hpp:165-171 | in every run a load whose index is the one last loaded changes nothing, and any other starts a copy of that index |
| `PingPong.FreshLoad` | include/goldmine/lockfree_queue.hpp:165-171 | from every reachable state with an idle reader that has missed a store, reader steps load the latest published value whole, wherever the writer is in its next store |
| `PingPong.StoreThenLoadDelivers` | include/goldmine/lockfree_queue.hpp:157-171 | from every state of every run with both threads idle, steps of one store and one load deliver exactly the value stored |
| `PingPong.OvertakenLoadTears` | include/goldmine/lockfree_queue.hpp:157-171 | a legal run in which a load of index 1 returns a value that was never stored, once store 3 has begun |
| `PingPong.RunKeepsInv` | include/goldmine/lockfree_queue.hpp:157-171 | the invariant tying buffer words, published indices and the copy in progress holds in every run |
| `PingPong.Buffer.Store` | include/goldmine/lockfree_queue.hpp:157-162 | appends to the stored values and keeps the last two in the slots |
| `PingPong.Buffer.Load` | include/goldmine/lockfree_queue.hpp:165-171 | returns the latest value, and returns one exactly when something was stored since the last load |
| `Pipeline.PolledSignalsFollowTicks` | core/include/goldmine/pipeline.hpp:81-191 | over any run of the four threads the polled signal times are a subsequence of the times of accepted gold ticks, in order and each tick at most once, and the indicator store was fed a prefix of the accepted ticks |
| `Pipeline.LoadKeepsOrder` | core/include/goldmine/pipeline.hpp:152-155 | taking any newer snapshot, skipping others, keeps all signals downstream in tick order |
| `Pipeline.LossKeepsOrder` | core/include/goldmine/pipeline.hpp:189-190 | a signal dropped by a full queue disappears without disturbing the order of the others |
| `Pipeline.HandOffKeepsDownstream` | core/include/goldmine/pipeline.hpp:285-307 | handing a signal on, through the risk thread to the poller, changes nothing in the sequence downstream |
| `Pipeline.StepKeepsInv` | core/include/goldmine/pipeline.hpp:81-127 | every step of every thread keeps: accepted ticks are those in the store, the one in hand and those queued, in that order, and the signals downstream follow the snapshots taken |
| `Pipeline.EverythingCanBeDelivered` | core/include/goldmine/pipeline.hpp:81-191 | from every reachable state some schedule delivers everything: nothing is left under way, the indicator store has all accepted ticks, and what was downstream plus the time of every accepted tick not yet loaded has been polled, in order |
| `Pipeline.EveryTickCanBePolled` | core/include/goldmine/pipeline.hpp:81-191 | in every run with room for a tick, a tick fed next can be the last signal polled, after everything before it |
| `Pipeline.PingPongStepsHere` | include/goldmine/lockfree_queue.hpp:157-171 | every step of the word-wise ping-pong is a step of the pipeline or none: publishing stores the snapshot, and finishing a load that was not overtaken loads exactly the snapshot of its index |
| `Pipeline.QueueStepsHere` | include/goldmine/lockfree_queue.hpp:59-93 | every step of the tick queue protocol is a feed, a pop of the oldest tick, or no step of the pipeline |
| `TickStore.Store.Push` | include/goldmine/types.hpp:133-145 | the history grows by one row and the ring holds its last N rows, column by column |
| `TickStore.Store.SlotOf` | include/goldmine/types.hpp:133-149 | the slot (count - k + i) mod N holds the i-th of the last k ticks |
| `Lanes.Avx2Sum` | include/goldmine/indicators.hpp:46-65 | four accumulators, the horizontal add and the scalar tail give the plain sum |
| `Lanes.Avx2SumSq` | include/goldmine/indicators.hpp:68-84 | the same for the sum of squares |
| `Lanes.Avx2Dot` | include/goldmine/indicators.hpp:87-105 | the same for the dot product |
| `Smoothing.BlendedMoves` | include/goldmine/indicators.hpp:233 | a smoothing step leaves the share 1 - alpha of the distance to the new value |
| `Smoothing.SmoothIsWeightedSum` | include/goldmine/indicators.hpp:259-263 | the smoothing loop in closed form: the seed keeps the share (1 - alpha)^n, the value k steps back weighs alpha * (1 - alpha)^k |
| `Smoothing.SeededSmoothIsWeightedSum` | include/goldmine/indicators.hpp:245-266 | the same when the seed is the mean of the first period values |
| `Indicators.AlphasAre` | include/goldmine/indicators.hpp:108-110 | the Wilder share times the period is 1 (and the EMA share of lines 245-266 times the period plus one is 2) |
| `Indicators.TrueRangeSpans` | include/goldmine/indicators.hpp:226-228 | for an uncrossed quote the true range spans the tick and the previous price: the highest of ask and previous price less the lowest of bid and previous price |
| `Indicators.ComputeVwap` | include/goldmine/indicators.hpp:153-185 | volume-weighted mean of the session window, deviation of the last price and spread of prices; zero without volume |
| `Indicators.VwapHull` | include/goldmine/indicators.hpp:153-185 | with non-negative volumes summing to at least 1e-10 the VWAP lies between the lowest and highest price of the window |
| `Indicators.ComputeAtr` | include/goldmine/indicators.hpp:195-237 | Wilder smoothing of the true ranges of the whole ring; prev_atr is the value two steps earlier |
| `Indicators.AtrHull` | include/goldmine/indicators.hpp:195-237 | the ATR lies in the hull of its true ranges |
| `Indicators.ComputeEma` | include/goldmine/indicators.hpp:245-266 | mean of the first period prices of the window, smoothed over the rest; zero on too few ticks |
| `Indicators.EmaHull` | include/goldmine/indicators.hpp:245-266 | the EMA lies between the lowest and highest price of its window |
| `Indicators.ComputeRsi` | include/goldmine/indicators.hpp:350-385 | the ratio of smoothed gains and losses of the ring, 50 on too few ticks, always in [0, 100] |
| `Indicators.RsiBounds` | include/goldmine/indicators.hpp:382-384 | the RSI formula stays in [0, 100] for any non-negative gain and positive loss |
| `Indicators.RsiIsShare` | include/goldmine/indicators.hpp:382-384 | with losses the RSI is the share of the gains in all movement, in percent |
| `Indicators.MovesSplit` | include/goldmine/indicators.hpp:373-377 | each price move is its gain less its loss, of which one is zero |
| `Indicators.ComputeTrendStrength` | include/goldmine/indicators.hpp:637-648 | the net change never exceeds the path length, so the strength, their ratio in percent, is in [0, 100] |
| `Indicators.StrengthIsShare` | include/goldmine/indicators.hpp:647 | strength times path length is 100 times the net change, and without a path it is 0 |
| `WindowStatistics.ComputeZscore` | include/goldmine/indicators.hpp:324-342 | mean, deviation with its 1e-10 fallback and z-score of the last n prices, with zscore squared at most n-1 |
| `WindowStatistics.ZscoreIsBounded` | include/goldmine/indicators.hpp:324-342 | Samuelson's inequality for the reported z-score on both branches of the deviation |
| `WindowStatistics.DeviationsAreRoots` | include/goldmine/indicators.hpp:335-341 | both deviations square to the variance whenever that is positive |
| `Statistics.Samuelson` | include/goldmine/indicators.hpp:335-341 | (last - mean)^2 <= (n-1) * variance for every non-empty window, and the computed variance is not negative |
| `WindowStatistics.ComputeBollinger` | include/goldmine/indicators.hpp:277-298 | mean and bands of the last period prices; zero on too few ticks |
| `WindowStatistics.FewPricesOutside` | include/goldmine/indicators.hpp:277-298 | Chebyshev: with multiplier 2 at most a quarter of the window's prices lie outside the bands |
| `WindowStatistics.ComputeCorrelation` | include/goldmine/indicators.hpp:400-444 | covariance of the centred windows over the root of the product of their sums of squares, zero without spread, always in [-1, 1] |
| `Statistics.CorrelationIsBounded` | include/goldmine/indicators.hpp:428-441 | Cauchy-Schwarz for the centred windows bounds the reported ratio by one |
| `Sums.CauchySchwarz` | include/goldmine/indicators.hpp:428-441 | the square of a dot product is at most the product of the sums of squares |
| `WindowStatistics.ComputeRollingOls` | include/goldmine/indicators.hpp:537-566 | slope, intercept, last residual and mean squared error of price on yield; slope 0 when the yields do not vary |
| `WindowStatistics.OlsIsOptimal` | include/goldmine/indicators.hpp:537-566 | when sxx > 1e-12 no other line has a smaller mean squared error on the window, and the residuals sum to zero |
| `WindowStatistics.OlsOnBothBranches` | include/goldmine/indicators.hpp:537-566 | with or without spread the residuals sum to zero and no other intercept does better with the reported slope; without spread no line does better if and only if price and yield do not vary together |
| `Distribution.InsertionSort` | include/goldmine/indicators.hpp:481-486 | sorts in place: a sorted permutation of what was there |
| `Distribution.Percentiles` | include/goldmine/indicators.hpp:481-487 | p01 and p99 are the intended order statistics of the sorted returns, and p01 <= p99 |
| `Distribution.ComputeMoments` | include/goldmine/indicators.hpp:468-473 | one pass over the returns gives the second, third and fourth central moments |
| `Distribution.MomentsObeyPearson` | include/goldmine/indicators.hpp:468-473 | m3^2 <= m2 * (m4 - m2^2) for the computed moments |
| `Distribution.MomentsAre` | include/goldmine/indicators.hpp:468-473 | the moments are the means of second, third and fourth powers of deviations that sum to zero |
| `Distribution.ReturnsLead` | include/goldmine/indicators.hpp:459-463 | each price is the one before plus its return times the one before, when all prices exceed 1e-8 |
| `Distribution.ComputeTailRatio` | include/goldmine/indicators.hpp:488-493 | total of the returns above two deviations over the total size of those below minus two, or 1 without the latter |
| `Distribution.TailAdds` | include/goldmine/indicators.hpp:488-492 | the upper tail of a concatenation is the sum of the upper tails |
| `Distribution.TailOfOne` | include/goldmine/indicators.hpp:488-492 | a single return is in the tail with its value exactly when it exceeds the cut |
| `Distribution.TailRatioIs` | include/goldmine/indicators.hpp:493 | the tail ratio times the size of the losses beyond two deviations is that of the gains, or 1 without such losses |
| `Distribution.ComputeReturnDistribution` | include/goldmine/indicators.hpp:452-495 | mean, deviation, skew, excess kurtosis, percentiles, tail ratio and last return of the window, or all zero on too few |
| `Distribution.KurtosisAboveSkew` | include/goldmine/indicators.hpp:473-476 | when m2 > 1e-15 the reported excess kurtosis is at least the squared reported skew minus 2 |
| `Distribution.ShapeIs` | include/goldmine/indicators.hpp:474-476 | skew times the cubed deviation is the third moment, and excess kurtosis plus 3 times the squared variance the fourth; both are 0 without variance |
| `Bits.ScanVisitsSetBits` | include/goldmine/bitmask_engine.hpp:105-109 | repeatedly taking and clearing the lowest set bit visits each set bit once, in order, in popcount steps |
| `Bits.ClearLowestBit` | include/goldmine/bitmask_engine.hpp:108 | bits & (bits - 1) has the bits of bits without the lowest one |
| `Bits.CtzIsLowest` | include/goldmine/bitmask_engine.hpp:106 | the counted trailing zeros are the position of the lowest set bit |
| `Bits.BitIsShift` | include/goldmine/types.hpp:74-76 | the bit test, defined by halving, is the shift and mask of the code |
| `Scoring.MaskScanLists` | include/goldmine/bitmask_engine.hpp:102-110 | the scan of all words lists the set bits of the mask, each once and in order |
| `Scoring.SparseIsDense` | include/goldmine/bitmask_engine.hpp:97-112 | the sum over scanned bits is the sum over all indices of the mask |
| `Scoring.ScoreMask` | include/goldmine/bitmask_engine.hpp:97-112 | score_mask computes the dense sum over all 1024 indices |
| `Scoring.SparseDot` | include/goldmine/online_learner.hpp:67-79 | the learner's prediction loop computes the dense sum over the registered set bits |
| `Scoring.ClampScore` | include/goldmine/bitmask_engine.hpp:117-126 | sums of at least 1 score 1, sums of at most -1 score -1, and those between are left alone |
| `Scoring.ClampIsNearest` | include/goldmine/bitmask_engine.hpp:117-126 | no other point of [-1, 1] is closer to the sum |
| `RuleMask.AndInplace` | include/goldmine/bitmask_engine.hpp:19-30 | the block-wise AND is set intersection |
| `RuleMask.OrInplace` | include/goldmine/bitmask_engine.hpp:35-45 | the block-wise OR is set union |
| `RuleMask.XorInplace` | include/goldmine/bitmask_engine.hpp:50-60 | the block-wise XOR is symmetric difference |
| `RuleMask.AndNotInplace` | include/goldmine/bitmask_engine.hpp:65-75 | the block-wise ANDNOT is set difference |
| `RuleMask.AnySet` | include/goldmine/bitmask_engine.hpp:80-87 | true exactly when the set is not empty |
| `RuleMask.Set` | include/goldmine/types.hpp:68-70 | adds exactly that index to the set |
| `RuleMask.Clear` | include/goldmine/types.hpp:71-73 | removes exactly that index from the set |
| `RuleMask.SetIf` | include/goldmine/types.hpp:86-88 | adds the index exactly when the condition holds and never removes one |
| `RuleMask.Reset` | include/goldmine/types.hpp:77 | leaves the empty set |
| `Scoring.Registry.AddRule` | include/goldmine/rule_registry.hpp:61-70 | registers at the next index, or changes nothing and answers 1024 when full |
| `Scoring.Registry.EvaluateAll` | include/goldmine/rule_registry.hpp:82-93 | the mask is the set of indices of exactly the rules that fire |
| `Scoring.Registry.ScoreState` | include/goldmine/rule_registry.hpp:82-105 | score(evaluate_all(s)) is 1 when the weights of exactly the firing rules total at least 1, -1 when they total at most -1, and that total otherwise |
| `Scoring.DenseIsWeight` | include/goldmine/rule_registry.hpp:99-105 | the dense sum over a mask is the total weight of the set it stands for |
| `OnlineLearner.Learner.Initialize` | include/goldmine/online_learner.hpp:51-56 | copies the first min(count, 1024) weights and leaves the others |
| `OnlineLearner.Learner.Update` | include/goldmine/online_learner.hpp:64-107 | the sparse bit loops and the decay every 128 updates change the weights as the dense definition says; unregistered weights stay, registered inactive ones stay or shrink by 1 - decay on every 128th update |
| `OnlineLearner.WeightAfterUpdate` | include/goldmine/online_learner.hpp:81-106 | weight by weight: unregistered unchanged; active ones become w + lr*(y - p) - decay*w cut to [-2, 2] and inactive ones stay, both times 1 - decay on every 128th update |
| `OnlineLearner.Learner.ApplyTo` | include/goldmine/online_learner.hpp:115-120 | copies the first min(count, registered) weights and leaves the rest of the target |
| `OnlineLearner.ErrorNeverGrows` | include/goldmine/online_learner.hpp:64-98 | without decay and with 0 <= k*lr <= 2, one update never increases the error on its own outcome, clamping or not; without clamping the error becomes exactly (1 - k*lr) times itself |
| `OnlineLearner.ErrorGrowsOutsideTheRange` | include/goldmine/online_learner.hpp:64-98 | for an update that clamps nothing the error does not grow if and only if 0 <= k*lr <= 2 |
| `OnlineLearner.RepeatedOutcomeConverges` | include/goldmine/online_learner.hpp:64-98 | n updates with one outcome that clamp nothing multiply its error by exactly (1 - k*lr)^n |
| `OnlineLearner.RepeatedOutcomeNeverHurts` | include/goldmine/online_learner.hpp:64-98 | clamping or not, over any number of updates with one outcome the error on it never grows |
| `OnlineLearner.ErrorWithDecay` | include/goldmine/online_learner.hpp:64-106 | with any decay an update that clamps nothing turns the error e into (1 - k*lr)*e + decay*prediction, and every 128th shrinks the prediction by 1 - decay as well |
| `OnlineLearner.RepeatedOutcomeSettles` | include/goldmine/online_learner.hpp:64-98 | with decay, n updates with one outcome that clamp nothing and miss the dense decay multiply the distance of the prediction from the fixed point (k*lr + decay)*star = k*lr*label by exactly (1 - k*lr - decay)^n |
| `OnlineLearner.PlainUpdateContracts` | include/goldmine/online_learner.hpp:64-98 | one such update multiplies that distance by 1 - k*lr - decay |
| `OnlineLearner.DefaultFactorContracts` | include/goldmine/online_learner.hpp:38-39 | with the shipped rate and decay and any active rule the factor is strictly between -1 and 1 |
| `OnlineLearner.DefaultRateIsInRange` | include/goldmine/online_learner.hpp:38 | with the shipped learning rate k*lr is within [0, 1.024] for every mask |
| `OnlineLearner.UpdateKeepsRange` | include/goldmine/online_learner.hpp:92-105 | for 0 <= decay <= 1 an update keeps all weights in [-2, 2], whatever the label and learning rate |
| `OnlineLearner.RunKeepsRange` | include/goldmine/online_learner.hpp:64-107 | the same over any run of updates |
| `Backtest.Simulate` | tests/backtest_harness.cpp:148-402 | the tick loop and the final close compute the run and report that the results below are about |
| `Backtest.Track` | tests/backtest_harness.cpp:278-293 | best price and trailing stop after one more mark |
| `Backtest.Close` | tests/backtest_harness.cpp:304-334 | the accounting, the exit counters and the deque after one close |
| `Backtest.Streak` | tests/backtest_harness.cpp:342-347 | the reverse walk counts the losses at the end of the deque |
| `Backtest.TrackingIsExact` | tests/backtest_harness.cpp:278-293 | the best gain is the running maximum, and the trailing stop is always 0 up to 30% of the target distance and exactly 60% of the best gain beyond it |
| `Backtest.TrailRatchets` | tests/backtest_harness.cpp:282-293 | an armed stop stays armed, only moves towards profit, and lies strictly between entry plus 0.18 of the target distance and the best price |
| `Backtest.ExitsExclude` | tests/backtest_harness.cpp:275-304 | target never coincides with stop or trail; an armed position at its stop has also hit its trail; targets are gains of at least 1 and stops losses of at least 3 per unit |
| `Backtest.Distances` | tests/backtest_harness.cpp:361-370 | target distance in [1, 0.6 of the stop distance]; the stop is widened to exactly twice the target if that is more, but to no more than 15 |
| `Backtest.DistancesByCase` | tests/backtest_harness.cpp:361-368 | both distances in every range of ATR and volatility: 5, 3, 1.5 times ATR or 15 for the stop; 2, 1, 50 times volatility or 0.6 of the stop for the target |
| `Backtest.LotSizeIsAlwaysTheCap` | tests/backtest_harness.cpp:377-381 | for every stop distance the loop can choose the lot size is exactly 2: the 1% risk budget never binds |
| `Backtest.LotSizeByCase` | tests/backtest_harness.cpp:377-381 | for any stop distance: the lot risks 1000 at the stop, cut to between 0.01 and 2 |
| `Backtest.StreakOfSuffix` | tests/backtest_harness.cpp:342-348 | the streak of the latest trades is that of the whole history, cut at the number kept |
| `Backtest.CooldownOfLatest` | tests/backtest_harness.cpp:328-348 | the 30-element deque decides the cooldown as the full history would |
| `Backtest.ThreeLosses` | tests/backtest_harness.cpp:342-348 | the long cooldown applies exactly when the last three trades exist and none was profitable |
| `Backtest.RunKeepsInv` | tests/backtest_harness.cpp:176-389 | in every run on positive prices: balanced books, sound trades and cooldowns, counters backed by that many ticks of conviction, and a sound open position |
| `Backtest.TradesAreSpaced` | tests/backtest_harness.cpp:348-356 | each entry is at least 30 ticks after the previous exit, 300 after three losses in a row, and more than 30 after the previous entry |
| `Backtest.PositionsOfRun` | tests/backtest_harness.cpp:272-335 | after tick i an open position is younger than 1200 ticks, its best price is the best mark since entry and short of the target, its stop exact; no completed stop-loss exit was armed, every target exit won, every trail exit was armed, every timed exit was due |
| `Backtest.ExitsOfRun` | tests/backtest_harness.cpp:272-327 | at the next tick of any run on positive prices the target is never hit together with the stop or the trailing stop, and an armed position at its stop is counted as a trail exit |
| `Backtest.ReportBalances` | tests/backtest_harness.cpp:304-402 | winners + losers = trades; target, trail, stop and time exits add up to the trades closed in the loop; equity = 10000 + gross profit - gross loss; drawdown is the true maximum over closes |
| `Backtest.EntryIsBacked` | tests/backtest_harness.cpp:340-356 | an entry has eight ticks in a row of conviction of its sign behind it and keeps the cooldown |
| `BacktestTrades.PricesOfRun` | tests/backtest_harness.cpp:296-389 | in every run on positive prices an open long was bought at the ask and a short sold at the bid of its entry tick, with stop and target at the distances of that tick; each trade earned twice the difference to the other side of its exit tick; counters and gross profit tally with the trades |
| `BacktestTrades.ReportIsPriced` | tests/backtest_harness.cpp:304-402 | total, winners and gross profit of the report are those of the trades and of the forced close at the last tick, in terms of its prices; the exit counters are those of the trades alone |
| `BacktestTrades.LeavesIff` | tests/backtest_harness.cpp:272-335 | in every run on positive prices the open position is left at the next tick, for the stated reason and as one trade, if and only if its gain reaches the target or minus the stop, it has fallen to 60% of a best gain above 30% of the target, it is 400 ticks old with a gain of 0.05, or 1200 ticks old; otherwise nothing but its trail changes |
| `BacktestTrades.EntersIff` | tests/backtest_harness.cpp:340-389 | in every such run a flat backtester enters at the next tick if and only if 100 ticks have passed, the cooldown of its trades is over, the spread is within twice its average or that below 0.01, and eight ticks of one sign have just been seen; on that side |
| `BacktestTrades.RunCounts` | tests/backtest_harness.cpp:258-267 | in every run the confirmation counters are the lengths of the current streaks of conviction since the last entry |
| `BacktestTrades.StreakIsPersistence` | tests/backtest_harness.cpp:258-267 | a streak of at least n is conviction of that sign at each of the last n ticks |
| `BacktestTrades.SpreadAverageMoves` | tests/backtest_harness.cpp:209-211 | each tick leaves 95% of the distance between the spread average and the new spread |
| `Accounting.PeakIsMaximum` | tests/backtest_harness.cpp:318-319 | the running peak is the largest of its initial value and the equities after each close |
| `Accounting.OneMoreClose` | tests/backtest_harness.cpp:318-321 | raising the peak and the drawdown at each close keeps the drawdown the maximum distance below the peak |
| `PaperTrading.Record` | core/include/goldmine/pipeline.hpp:242-253 | one close keeps the summary exact: counts, total, equity = 10000 + total, peak, true maximum drawdown, true mean latency |
| `PaperTrading.RunningMean` | core/include/goldmine/pipeline.hpp:251-252 | the incremental formula yields the mean of all holding times |
| `PaperTrading.PeakForgetsCapital` | include/goldmine/types.hpp:318-330 | because the peak starts at 0, the drawdown after a close equals the one from the starting capital if and only if some close so far has reached 10000 |
| `PaperTrading.FirstLossIsForgotten` | include/goldmine/types.hpp:318-330 | after a single close at a loss of 100 the reported drawdown is 0 and the one from the starting capital is 100 |
| `PaperTrading.Engine.constructor` | core/include/goldmine/pipeline.hpp:272-275 | starts flat with an empty log and capital 10000 |
| `PaperTrading.Engine.ClosePosition` | core/include/goldmine/pipeline.hpp:237-266 | books each close once, keeps all totals and the fill ring exact, and pushes one outcome unless the queue is full or absent |
| `PaperTrading.Engine.OpenPosition` | core/include/goldmine/pipeline.hpp:215-234 | logs one fill and opens exactly that position; the ring keeps the last 1024 fills and fill_count = total_trades + 1 |
| `PaperTrading.Engine.OnSignal` | core/include/goldmine/pipeline.hpp:200-235 | closes when the mark reaches stop or target and then, in the same call, opens when the signal is actionable; nothing else changes |
| `PaperTrading.FillsAreWorse` | core/include/goldmine/pipeline.hpp:215-234 | a long fills at 1.00005 times the ask, a short at 0.99995 times the bid, half a basis point worse as its record says, with stop and target at the suggested distances on their sides |
| `PaperTrading.RoundTripEarns` | core/include/goldmine/pipeline.hpp:215-241 | what a position opened by a fill earns at a later quote: bid less fill for a long, fill less ask for a short, less 3.5 |
| `PaperTrading.ClosesUnlessBetween` | core/include/goldmine/pipeline.hpp:203-210 | a position is closed exactly when the quote is not strictly between its levels |
| `PaperTrading.OutcomeTells` | core/include/goldmine/pipeline.hpp:255-264 | the outcome carries rules and conviction of the opening, and label 1 exactly for a profit and -1 otherwise |
| `TransactionCosts.HurdleIsExact` | core/include/goldmine/cost_model.hpp:71-121 | a trade nets at least nothing if and only if the price has moved by at least min_profit_price |
| `TransactionCosts.NetPnlIsBeyondHurdle` | core/include/goldmine/cost_model.hpp:83-121 | the net profit is the price move beyond the hurdle times the quantity |
| `TransactionCosts.HurdleOfNothing` | core/include/goldmine/cost_model.hpp:101-106 | without quantity or price a target clears the hurdle exactly when it is at least a billion |
| `TransactionCosts.RoundTripIsTwoLegs` | core/include/goldmine/cost_model.hpp:63-77 | the round trip is a taker leg and a maker leg, each with slippage and half the spread |
| `TransactionCosts.CostIsShareOfNotional` | core/include/goldmine/cost_model.hpp:79-86 | the cost in dollars is that many hundredths of a percent of the value traded |
| `TransactionCosts.SpreadMoves` | core/include/goldmine/cost_model.hpp:128-136 | the first usable quote sets the average, later ones leave 98% of its distance to their spread, and unusable ones nothing |
| `TransactionCosts.TargetPays` | core/include/goldmine/cost_model.hpp:101-121 | a move of one and a half hurdles nets at least nothing while the round trip costs at most half again as much |
| `TransactionCosts.SpreadStaysInHull` | core/include/goldmine/cost_model.hpp:128-136 | the spread average lies between the observed spreads once one usable quote was seen, cold starts included |
| `TransactionCosts.CostsGrowByHalfAtMost` | core/include/goldmine/cost_model.hpp:61-77 | a band hi <= 1.5*lo + half the fixed costs for the spread keeps the round trip within 1.5 times itself |
| `TransactionCosts.CostModel.UpdateSpreadCost` | core/include/goldmine/cost_model.hpp:128-136 | the field is the average over all quotes seen |
| `Account.SizeIsBounded` | core/include/goldmine/account_state.hpp:45-62 | quantity times entry never exceeds the equity, quantity times stop distance never exceeds the risk budget, and one limit is used up unless nothing is traded |
| `Account.StopKeepsShareIff` | core/include/goldmine/account_state.hpp:45-62 | the stop risks at most a given share of the equity if and only if nothing is traded, the risk asked for is at most that share, or the stop distance is at most that share of the entry |
| `Account.LongLossIsCovered` | core/include/goldmine/account_state.hpp:45-62 | a long opened with positive equity cannot lose more than that equity at any non-negative price |
| `Account.DrawdownIsPercentage` | core/include/goldmine/account_state.hpp:92-95 | the drawdown is the percentage of the peak that is missing: at least 0, at most 100 if and only if the equity is not negative or there is no peak, and 0 without a peak |
| `Account.AccountState.RecordTrade` | core/include/goldmine/account_state.hpp:81-87 | equity is the starting equity plus all recorded profits and the peak the highest equity after any trade |
| `Account.AccountState.ComputePositionSize` | core/include/goldmine/account_state.hpp:45-62 | the sequence of caps gives the size that the bounds are about |
| `RiskEngine.RiskIsCapped` | core/include/goldmine/risk_engine.hpp:68-89 | for every sequence of parameter versions the risk fraction is at most 5% and comes from the newest version read |
| `RiskEngine.RiskEngine.SyncParameters` | core/include/goldmine/risk_engine.hpp:68-89 | takes a reading exactly when its version is newer |
| `RiskEngine.RiskEngine.UpdateMarketState` | core/include/goldmine/risk_engine.hpp:94-101 | after an update the price average lies between the lowest and the highest mid price ever seen |
| `RiskEngine.EmaStaysInHull` | core/include/goldmine/risk_engine.hpp:94-101 | the same for every sequence of mid prices, cold starts included |
| `LiveEngine.Trade` | core/src/expert_engine.cpp:176-350 | the main loop over account, cost model and risk gate objects computes the run that the results below are about |
| `LiveEngine.Engine.Manage` | core/src/expert_engine.cpp:216-267 | closes on force, stop or target, books the net profit and stops the loop at the breaker |
| `LiveEngine.Engine.Drain` | core/src/expert_engine.cpp:274-278 | the last polled conviction and the last suggested stop above 0.5, or 2.0 |
| `LiveEngine.Engine.Consider` | core/src/expert_engine.cpp:280-343 | the gates in order: halted or open, model gate, cost hurdle; rejections reset the confirmation counters |
| `LiveEngine.Engine.Open` | core/src/expert_engine.cpp:309-342 | refuses exactly automatic orders whose target is below the hurdle, otherwise opens on the stated terms |
| `LiveEngine.RunKeepsInv` | core/src/expert_engine.cpp:176-350 | every position was opened and every trade closed on sound terms, running means above the breaker or untraded, in every run |
| `LiveDecisions.HoldsIff` | core/src/expert_engine.cpp:216-225 | in every run and for every next input an open position stays as it is if and only if nobody forces it closed and the tick is strictly between its levels; otherwise exactly one closing is appended, at the bid of a long or the ask of a short, with its net profit |
| `LiveDecisions.OpensIff` | core/src/expert_engine.cpp:280-343 | in every run and for every next input that finds or leaves the engine flat, a position opens if and only if the equity is above the breaker and there is a manual order, or conviction persisted for eight inputs, the model gate is open and the target clears the hurdle; on the side of the manual order, else of the conviction, long at the ask or short at the bid, with the stated levels and quantity |
| `LiveDecisions.CountersOfRun` | core/src/expert_engine.cpp:280-285 | in every run the confirmation counters are the lengths of the current runs of conviction since the last order or rejection |
| `LiveDecisions.LastStopIs` | core/src/expert_engine.cpp:273-278 | the fallback 2.0 exactly when no polled stop exceeds 0.5, else the last one that does |
| `LiveDecisions.SpreadAndEquityMove` | core/src/expert_engine.cpp:195-225 | in every run and for every next input the spread average is set by, or leaves 98% of its distance to, the spread of the tick relative to its last price, and at most one net profit is booked, which the equity moves by |
| `LiveEngine.OpenPositions` | core/src/expert_engine.cpp:287-342 | in every run an open position was opened above the breaker, costs no more than the equity, as a long loses at most the equity, and if it holds anything has its stop strictly on the losing side of its entry |
| `LiveEngine.SidesIff` | core/src/expert_engine.cpp:309-337 | in every run the stop of an open position is strictly on the losing side of its entry if and only if the stop override was not cleared between its two loads; its target is strictly on the winning side if and only if the same holds for the target distance, nothing is held, or the round trip costs something |
| `LiveEngine.ClearedStopIsOnTheWrongSide` | core/src/expert_engine.cpp:309-336 | a run of one manual order, for every value at most 0 stored between the two loads: a position of quantity 0 opens with its stop at its entry or on the winning side |
| `LiveEngine.ClearedTargetIsOnTheWrongSide` | core/src/expert_engine.cpp:310-337 | the same for the target of a position of quantity 2 when trading costs nothing |
| `LiveEngine.StopKeepsCapIff` | core/src/expert_engine.cpp:294-314 | in every run, whoever wrote the risk, the stop of an open position risks at most 5% of the equity if and only if nothing is traded, the risk used is at most 5%, or the stop is within 5% of the entry; a risk the gate has just stored always is |
| `LiveEngine.RiskUsed` | core/src/expert_engine.cpp:294-311 | the risk of an opening is what the command line wrote in between, else what the gate stored, else the value before |
| `LiveEngine.WrittenRiskEscapesTheCap` | core/src/expert_engine.cpp:298-314 | a run of one input in which a risk of one half written by the command line opens a position whose stop risks more than 5% of the equity |
| `LiveEngine.BreakerIsFinal` | core/src/expert_engine.cpp:261-287 | the loop stops exactly when a trade leaves the equity at or below the breaker, flat, and no later input changes anything |
| `LiveEngine.TargetExitPays` | core/src/expert_engine.cpp:216-225 | in every run a trade closed at its target with quantity at least 1e-15 nets at least nothing if its round trip costs at most 1.5 times those at opening |
| `LiveEngine.TargetExitsPay` | core/src/expert_engine.cpp:195-225 | and it always does while all observed spreads stay in a band that narrow |
| `RiskEngine.FivePerSecond` | core/include/goldmine/risk_engine.hpp:211-223 | for any stream of calls in any order: the accepted orders of a clock second number min(5, calls of it that pass the price bound), and are at most five, if and only if at most five pass or the stream does not come back to the second after leaving it; non-decreasing timestamps never do |
| `RiskEngine.RefusedAfterFiveInARow` | core/include/goldmine/risk_engine.hpp:211-223 | for any stream: a call that passes the price bound is refused exactly when the five passed calls before it are of its own second |
| `RiskEngine.TenPerWindow` | core/include/goldmine/risk_engine.hpp:211-223 | a window of up to one second contains at most ten accepted orders when the two seconds it meets keep the limit, as they do for non-decreasing timestamps |
| `RiskEngine.FlippingDefeatsTheLimit` | core/include/goldmine/risk_engine.hpp:211-221 | when timestamps flip by a nanosecond across the boundary of two seconds every call is accepted, any number within two nanoseconds |
| `RiskEngine.RiskEngine.ValidateExecution` | core/include/goldmine/risk_engine.hpp:199-223 | accepts exactly when the price is within 3% of the average and the order is among the first five of its unbroken run of passed calls in one second |
| `RiskEngine.DeviationIs` | core/include/goldmine/risk_engine.hpp:201-207 | the relative deviation exceeds the bound exactly when the absolute one exceeds the bound times the average |
| `RiskEngine.BoundIsThreePercent` | core/include/goldmine/risk_engine.hpp:201-207 | with an average, an order passes the bound exactly when its price is between 97% and 103% of it |
| `RiskEngine.EmaMoves` | core/include/goldmine/risk_engine.hpp:94-101 | a new mid price leaves 96.1% of its distance to the average |
| `FeatureExporter.Exporter.RecordTick` | include/goldmine/feature_exporter.hpp:51-90 | the file opened before any tick holds, after n ticks, exactly the records of ticks 0 to n-64 in order, each with its own mask and conviction and the returns of the ticks 10 and 50 later; one opened later holds those that became due since |
| `FeatureExporter.Exporter.Open` | include/goldmine/feature_exporter.hpp:44-47 | empties the file and keeps ring and counters; a failed open leaves nothing to write to |
| `FeatureExporter.Exporter.Close` | include/goldmine/feature_exporter.hpp:96-98 | nothing is recorded until the next open |
| `FeatureExporter.Exporter.Emit` | include/goldmine/feature_exporter.hpp:66-89 | the ring slots read still hold the ticks they are read for |
| `FeatureExporter.EveryUsableTickOnce` | include/goldmine/feature_exporter.hpp:66-89 | every due tick with a price above 1e-8 has exactly one record, at its place in the order |
| `FeatureExporter.LabelsAreFinal` | include/goldmine/feature_exporter.hpp:66-89 | later ticks never change a record that is due |
| `FeatureExporter.LabelsLeadToLaterPrices` | include/goldmine/feature_exporter.hpp:66-89 | the price 10 ticks later is the price of the record times 1 + return10/100 and that 50 ticks later times 1 + return50/100, and mask, conviction and stamp are those of its own tick |
| `TradeStore.EveryFrameOnce` | include/goldmine/trade_store.hpp:87-166 | in every interleaving of producer and worker, logging after the stop included, accepted frames are inserted, in hand or queued in that order; when the worker is done a prefix of them is inserted, once, in order, in committed transactions of 1 to 1000 rows; it covers all accepted before the stop, and all of them exactly when the queue is empty |
| `TradeStore.LoggedBeforeStopIff` | include/goldmine/trade_store.hpp:87-118 | for any run: a frame accepted next is stored in every schedule in which the worker finishes if and only if it is logged before the stop |
| `TradeStore.StoredForSureIff` | include/goldmine/trade_store.hpp:87-166 | for any run and any accepted frame: it is stored in all such schedules if and only if it was accepted before the stop or the worker has already taken it |
| `TradeStore.MayFinishAt` | include/goldmine/trade_store.hpp:112-166 | after the stop the worker may finish with exactly the first k accepted frames stored, for any k that covers those accepted before the stop and those already taken |
| `TradeStore.LateFrameMayBeLost` | include/goldmine/trade_store.hpp:98-118 | after the stop, from any run in which the worker has not finished, it may drain the queue, finish, and leave any frame accepted afterwards as the only one not stored |
| `TradeStore.FrameAfterStopIsLost` | include/goldmine/trade_store.hpp:98-104 | a run in which a frame logged after the worker has finished is accepted and never inserted |
| `TradeStore.DoneIsFinal` | include/goldmine/trade_store.hpp:116-118 | no later step changes the database once the worker has finished |
| `TradeStore.QueueIsBounded` | include/goldmine/trade_store.hpp:98-104 | in every run at most 8191 frames wait, and a frame may be accepted exactly when fewer do |
| `TradeStore.FramesMayWaitWhenStopped` | include/goldmine/trade_store.hpp:112-117 | a run in which a frame still waits when the flag falls, which the final drain is for |
| `TradeStore.Persist` | include/goldmine/trade_store.hpp:125-160 | one popped frame adds one row and keeps the transaction bookkeeping |
| `TradeStore.DrainOneMore` | include/goldmine/trade_store.hpp:123-160 | the statements written for a whole drain grow by those of its next frame exactly as the worker writes them |
| `TradeStore.Store.LogFrame` | include/goldmine/trade_store.hpp:98-104 | accepts exactly when fewer than 8191 frames wait |
| `TradeStore.Store.ProcessQueue` | include/goldmine/trade_store.hpp:120-166 | leaves the queue empty and all accepted frames inserted in order; a transaction begins at every 1000th frame from the first and is committed after 1000 frames or when the queue is empty |
| `TradeStore.Store.Stop` | include/goldmine/trade_store.hpp:87-95 | when it returns every accepted frame is in the database |

## Left out

- Pipeline.PolledSignalsFollowTicks: speaks of timestamps only; rule inputs that read `latest_tick` and the shared weights without synchronisation are not modelled.
- TradeStore.EveryFrameOnce: keeps SQLite as a trace of BEGIN, INSERT and COMMIT, with three fields of a trade frame and two of an equity frame; failures of the database are not modelled.
- RiskEngine.FivePerSecond: the order counter is unbounded, so its overflow after 2^31 calls in one second is not modelled.
- Backtest.Simulate: takes conviction, ATR and volatility as inputs of each tick; the session context and the scoring of conviction from the snapshot are not modelled, nor the write-only `entry_atr`.
- FeatureExporter.Exporter.RecordTick: conviction and returns are real numbers; their narrowing to `float` is not modelled.
- IEEE rounding, NaN and infinities, and the overflow of 64-bit counters and indices.
- Kinematics, VWAP gradient, GARCH, Hurst, realised volatility, Keltner channels, gold/silver ratio, order flow and the assembly of the snapshot: no exact property, or easy ones.
- The DXY, silver and yield queues, the session context and the draining of outcomes inside the pipeline machine.
- Kelly sizing and order routing of `RiskEngine`, which the live engine does not call.
- `PaperConnector`, `OrderManager`, the exchange worker, shared memory, replay files, tick packing, configuration, the command line parser, printing and CPU pinning.
