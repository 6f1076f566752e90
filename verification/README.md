# polymaker in Dafny

polymaker is a market-making bot for prediction markets. It watches an order book and a flow of prints, decides on a
regime, computes the orders it wants to rest, compares them with the orders it believes are resting, and sends the
difference to the exchange. Fills come back as trade events that may be repeated, reordered or rolled back.

This project models that decision and state logic and proves what it keeps:

- **Order protocol** (`OrderMaps`, `OrderProtocol`, `Engine`, `Recovery`, `Settling`): the engine's code between two awaits is one
  step; exchange, REST reads, user events and the loops interleave in any order. No acknowledged live order is ever
  forgotten while its market's lock is free, and none is replaced blindly after something went wrong.
- **Reconciler** (`Reconciler`, `Execution`): greedy matching of targets to live orders, its quality against any other
  assignment, and what an executed plan leaves.
- **Ledger** (`Ledgers`, `StateStore`, `Tracker`, `RiskManager`, `LedgerRuns`, `Inflight`, `Equity`, `CostBasis`, `Reversals`): the trade lifecycle
  counts every trade once, guards count open trades, restarts and replays change nothing, equity is what trades earned.
- **Quotes** (`Ticks`, `Quoting`, `MakerSafety`, `MakerControl`, `MakerTargets`, `MakerWitnesses`, `OneWay`, `OneWaySafety`,
  `OneWayTargets`): both strategies, with the safety bounds of every quote set, and exactly which quotes it holds.
- **Signals** (`Estimators`, `OrderBook`, `RegimeMachine`): flow score, book, regime and cool-off over any run.
- **Budget and hysteresis** (`TokenBucket`, `Adaptive`, `Hysteresis`, `FactorLaws`): rate bound and no chatter over any run.
- **End to end** (`Pipeline`): from the book and the regime to what rests on the exchange.

`Numerics`, `Dict` and `Domain` hold exact arithmetic with Python's `round`, insertion-ordered dictionaries, and the core
types. Objects that the source updates in place are classes whose methods are proved equal to functions on values; the
theorems are about runs of those functions. Numbers are exact reals; the 1e-9 guards are kept. Clock readings, gateway
results and REST reads are arguments.

Where code and documentation differ, the model follows the code: the reconciler's plan is not always the smallest
(`Reconciler.NotMinimal`); a failed trade keeps its cash flow, and its reversal acts on whatever is held by then: a BUY is
taken back in full only while that many shares remain, and the average price stays only in the cases of
`Reversals.WhatAFailureTakesBack`; equity is off by what failed trades cost and by
what was clipped at zero (`Equity.EquityIdentity`); toxicity shrinks the money behind a
bid but can raise its share count (`MakerControl.ToxicityGrowsShares`); the reward bump can spend more than the base size
(`MakerControl.EntriesCost`); a post-only SELL of the one-way quoter can be moved onto the bid or below it
(`OneWaySafety.SellsCanCross`); and a recalculation divides by zero exactly when the cached factor was set to zero for lack
of history and the history is still short (`Hysteresis.RaisesIff`), as it is for a market configured to stay unquoted
(`Hysteresis.ZeroFactorSticks`).

## Model

| member | source | states |
|---|---|---|
| Reconciler.GroupByKey | src/polymaker/execution/reconciler.py:39-41 | the grouping loop files every live order under its token and side, in order |
| Reconciler.FindMatch | src/polymaker/execution/reconciler.py:48-57 | the inner loop returns the first free order within both tolerances, or none |
| Reconciler.CancelList | src/polymaker/execution/reconciler.py:63 | the ids to cancel are those of the live orders not kept, in order |
| Reconciler.Reconcile | src/polymaker/execution/reconciler.py:29-64 | the loops compute the plan of the greedy matching |
| Reconciler.GreedyFacts | src/polymaker/execution/reconciler.py:47-59 | a partner is live, on the target's token and side, within tolerance, and was free when chosen |
| Reconciler.PartnersDistinct | src/polymaker/execution/reconciler.py:50-59 | no live order serves two targets |
| Reconciler.Maximal | src/polymaker/execution/reconciler.py:47-63 | no target left to place fits any order outside the kept ones |
| Reconciler.PlanSeparates | src/polymaker/execution/reconciler.py:58-64 | every placed quote is a target that fits no cancelled order, and only live orders are cancelled |
| Reconciler.CancelledAndPlacedDiffer | src/polymaker/execution/reconciler.py:53-63 | a cancelled order never satisfies a placed quote: other token or side, price off by more than the reprice ticks, or size off by more than the resize fraction |
| Reconciler.KeptIsFirstToSatisfy | src/polymaker/execution/reconciler.py:47-59 | a kept order satisfies its target, and any earlier order on the list that does is kept for an earlier target |
| Reconciler.OneForOne | src/polymaker/execution/reconciler.py:47-64 | one order is left alone for one target exactly if it satisfies it, otherwise cancelled and the target placed |
| Reconciler.HalfOfOptimum | src/polymaker/execution/reconciler.py:39-63 | at least half as many orders are kept as any one-to-one assignment within tolerance could keep |
| Reconciler.OptimalWhenUnambiguous | src/polymaker/execution/reconciler.py:39-63 | the most possible are kept when no order fits two targets, or no target fits two orders |
| Reconciler.PlanSize | src/polymaker/execution/reconciler.py:1-7 | the number of actions is fixed by the number of kept orders, so keeping more is acting less |
| Reconciler.NotMinimal | src/polymaker/execution/reconciler.py:3-4 | a concrete book where one order is kept and two could be: the promised smallest plan fails and the factor two is attained |
| Execution.Quiescence | src/polymaker/engine.py:539-580 | once a plan is executed in full, reconciling the same targets again does nothing, for any targets, orders and non-negative tolerances |
| Execution.SecondPassIsGreedy | src/polymaker/execution/reconciler.py:47-64 | the second pass picks exactly the old partner of each matched target and the placed order of each other one |
| Execution.ExposureBound | src/polymaker/execution/reconciler.py:50-63 | after an executed plan the live size of a token and side is at most the target size, stretched by the resize tolerance and one guard per target |
| OrderMaps.GetReplaced | src/polymaker/state/store.py:230-251 | after a snapshot: listed orders are taken over, unlisted ones of the token go unless younger than the grace, all else stays |
| OrderMaps.GetForgotten | src/polymaker/engine.py:646-655 | quarantine drops the orders of one token from the local view and no others |
| OrderMaps.GetUpsertAll | src/polymaker/engine.py:579-580 | recording acknowledged orders makes each retrievable under its id and leaves the rest |
| OrderMaps.FiledReplace | src/polymaker/state/store.py:230-251 | orders stay filed once, under their own id, across a snapshot |
| OrderProtocol.StepKeepsInv | src/polymaker/engine.py:546-663 | every enabled step of engine, exchange and loops keeps the invariant: the view is sound, pending reads are explainable, no acknowledged live order is missing outside a quarantine |
| OrderProtocol.AlwaysInv | src/polymaker/engine.py:546-784 | so does every run from an empty start, whatever the interleaving |
| OrderProtocol.Coverage | src/polymaker/engine.py:539-544 | whenever a market's lock is free, every acknowledged live order of its tokens is in the list the reconciler sees |
| OrderProtocol.ViewUnique | src/polymaker/engine.py:539-541 | that list never repeats an order id |
| OrderProtocol.NoDoubleOrders | src/polymaker/engine.py:539-570 | the record of an acknowledged live order has the token, side and price of the order on the exchange, and a quote placed beside it fits it only if it is kept for another target |
| OrderProtocol.Adoption | src/polymaker/state/store.py:230-251 | an order the engine never heard of is taken over by the first snapshot applied to its token that lists it: refresh, reconcile loop or heartbeat recovery |
| OrderProtocol.EmptyReadForgets | src/polymaker/state/store.py:230-251 | after an empty list is taken over for both tokens an order is still known exactly if it is of another market or younger than the grace |
| OrderProtocol.FailedReadKeepsCoverage | src/polymaker/engine.py:764-778 | applying the empty list of a failed read as if it had succeeded keeps coverage exactly if no known live order of the market is as old as the grace |
| OrderProtocol.FailedReadForgets | src/polymaker/execution/gateway.py:640-642 | a concrete state where it breaks |
| Recovery.AfterPlanning | src/polymaker/engine.py:546-572 | a plan leads to its cancels if it has any, else to its placements if it has any and the budget allows, else to a free lock |
| Recovery.AfterCancelling | src/polymaker/engine.py:546-572 | cancels lead to a resync exactly if they failed, else to the placements of the plan if it has any and the budget allows, else to a free lock |
| Recovery.PlacingFollowsItsPlan | src/polymaker/engine.py:546-572 | while quotes are on their way, every order their plan cancelled has left the exchange, the budget allowed placing, and the expected count is that of the plan |
| Recovery.ResyncBeforeRelease | src/polymaker/engine.py:553-557 | after a failed cancel, or fewer than five soft rejections in a row, the lock is free again only after a read was taken over that kept every order younger than ten seconds |
| Recovery.NothingPlacedBlindly | src/polymaker/engine.py:553-557 | after a failed cancel nothing is placed before such a resync and a new plan |
| Recovery.AfterPlacing | src/polymaker/engine.py:612-637 | a placement leads to a resync, a quarantine or a free lock, each exactly when the rejections in a row and the shortfall say so |
| Recovery.QuarantineBeforeRelease | src/polymaker/engine.py:646-655 | after a short placement, or five soft rejections in a row, the lock is free again only after both tokens were wiped and read back, and then nothing unlisted is known |
| Recovery.NothingOutlivesTheWipe | src/polymaker/engine.py:728-733 | whatever is known after the exchange wiped the orders was learned since |
| Recovery.RecoveryIsTheList | src/polymaker/engine.py:734-736 | once a market is read back after the wipe, it knows nothing that is not on the list |
| Recovery.LoopForgets | src/polymaker/engine.py:764-778 | the reconcile loop forgets an unlisted order exactly if no trade of its token is in flight and it is ten seconds old |
| Engine.Engine.Recompute | src/polymaker/engine.py:539-560 | the code up to the first gateway call is one enabled plan step and returns the reconciler's plan |
| Engine.Engine.CancelReturned | src/polymaker/engine.py:546-557 | the code after a cancel is one step: forget on success, resync and place nothing on failure |
| Engine.Engine.PlaceReturned | src/polymaker/engine.py:572-637 | the code after placing is one step: record, then soft recovery, quarantine or release |
| Engine.Engine.AssetCancelled | src/polymaker/engine.py:646-655 | one half of a quarantine is one step, whatever the gateway answered |
| Engine.Engine.TakeOver | src/polymaker/engine.py:657-663 | both tokens take a read over, with the grace of the caller |
| Engine.Engine.OrdersReturned | src/polymaker/engine.py:657-659 | the returned read of a resync or quarantine is kept with its time: one step |
| Engine.Engine.TokenOrdersRead | src/polymaker/engine.py:655-663 | ending a resync or a quarantine with that is one step, which releases the lock |
| Engine.Engine.HeartbeatRecovered | src/polymaker/engine.py:728-733 | forgetting every order after the exchange wiped them is one step |
| Engine.Engine.RecoveryOrdersRead | src/polymaker/engine.py:734-736 | reading one market back without grace and without its lock is one step |
| Engine.Engine.ReconcileMarket | src/polymaker/engine.py:764-778 | one market of the reconcile loop is one step; tokens with trades in flight are skipped |
| Settling.SettledIsExecuted | src/polymaker/engine.py:546-580 | cancelled ids removed and acknowledged orders recorded, the store shows the executed plan on every token and side |
| Settling.StepsSettle | src/polymaker/engine.py:546-637 | the steps plan, cancel and place in sequence leave exactly those orders and release the lock |
| Settling.RecomputeSettles | src/polymaker/engine.py:539-637 | after a recompute whose calls all succeed, the next one for the same targets has nothing to do |
| StateStore.StateStore.GetPosition | src/polymaker/state/store.py:127-128 | the stored position, or a flat one |
| StateStore.StateStore.ApplyFill | src/polymaker/state/store.py:130-168 | rejects a known trade id and changes nothing, else records fill, position, row and fill time |
| StateStore.StateStore.SetPosition | src/polymaker/state/store.py:170-173 | overwrites one position and its row, never below zero |
| StateStore.StateStore.ReconcilePositions | src/polymaker/state/store.py:175-184 | the loop over REST sizes equals the fold of single overwrites, skipping guarded and freshly filled tokens |
| StateStore.StateStore.MarkInflight | src/polymaker/state/store.py:187-189 | raises one guard and dates it if it was not dated |
| StateStore.StateStore.ClearInflight | src/polymaker/state/store.py:191-195 | lowers one guard, never below zero, and drops its date at zero |
| StateStore.StateStore.ExpireInflight | src/polymaker/state/store.py:200-214 | zeroes exactly the guards dated longer ago than the limit and returns them |
| StateStore.StateStore.OrdersFor | src/polymaker/state/store.py:217-218 | lists the orders of one token in insertion order |
| StateStore.StateStore.UpsertOrder | src/polymaker/state/store.py:220-225 | files the order, or drops it when it is in a final state |
| StateStore.StateStore.ReplaceOpenOrders | src/polymaker/state/store.py:230-251 | the two loops equal retiring and taking over on values |
| StateStore.StateStore.Load | src/polymaker/state/store.py:272-277 | loads the positive rows, in order |
| Tracker.UserEventProcessor.OnTrade | src/polymaker/state/tracker.py:63-102 | store, applied trades and cash move as the value-level trade step says, for every status |
| Tracker.UserEventProcessor.OnOrder | src/polymaker/state/tracker.py:104-112 | a cancelled or filled order goes, any other is filed with its remaining size |
| Tracker.OrderEventIs | src/polymaker/state/tracker.py:104-112 | after an event the order is gone, or known with the token, side, price and remaining size reported; all others are as before |
| RiskManager.RiskManager.NoteFill | src/polymaker/risk/manager.py:41-42 | cash moves by the signed notional of the fill |
| RiskManager.RiskManager.UpdateMark | src/polymaker/risk/manager.py:44-45 | sets one mark and no other |
| RiskManager.RiskManager.Inventory | src/polymaker/risk/manager.py:47-52 | the loop sums positive positions at their mark, or at their average price without one |
| RiskManager.RiskManager.Equity | src/polymaker/risk/manager.py:63-64 | cash plus inventory value |
| LedgerRuns.ExactlyOnce | src/polymaker/state/tracker.py:63-102 | after any run of events, duplicates, reorderings, overrides and restarts the fills table holds one forward fill per matched trade, one reversal per failed open one, and nothing else |
| LedgerRuns.AlwaysMirrored | src/polymaker/state/store.py:258-263 | at every operation boundary the position rows mirror the positions in memory |
| LedgerRuns.RestartIsTransparent | src/polymaker/state/store.py:272-277 | a restart after any run changes no position and drops every guard |
| LedgerRuns.ReplayIsIdle | src/polymaker/state/store.py:139-148 | after a restart, replaying any earlier trade events in any order and number changes nothing |
| Inflight.GuardsCountOpenTrades | src/polymaker/state/tracker.py:64-102 | guards never exceed the open trades of their token, equal them while nothing expires, and are dated exactly while positive |
| Inflight.ExpiryBoundsAge | src/polymaker/state/store.py:200-214 | after expiry no guard is older than the limit, and expired guards are zero |
| Inflight.RestSkipsGuarded | src/polymaker/state/store.py:175-184 | REST never changes a token that is guarded, filled in the last five seconds, or not reported |
| Inflight.RestOverwrites | src/polymaker/state/store.py:175-184 | REST does overwrite every other reported token, with the reported size and price |
| Inflight.GuardKeepsItsDate | src/polymaker/state/store.py:187-195 | a guard is dated by the trade that raised it from zero and keeps that date while positive |
| Inflight.RestWaitsForFills | src/polymaker/state/store.py:175-184 | in any run REST leaves a token alone that is guarded or was last filled less than five seconds ago |
| Inflight.RestIsTakenOver | src/polymaker/state/store.py:175-184 | and takes any other reported token over |
| Equity.InventoryIsReflected | src/polymaker/state/store.py:149-168 | without overrides every position is the running sum of its fills reflected at zero |
| Equity.LowWaterIsLeast | src/polymaker/state/store.py:161 | the reflecting term is the least prefix sum, or zero |
| Equity.InventoryOfStandingTrades | src/polymaker/risk/manager.py:47-52 | inventory is the marked sum over the trades that stand plus the marked shortfalls that were clipped at zero; plainly that sum if nothing was oversold |
| Equity.EquityIdentity | src/polymaker/risk/manager.py:41-64 | equity is the gain of the standing trades less the cost of the failed ones plus the marked shortfalls that were clipped; it is right if and only if those two cancel |
| Equity.EquityWithoutFailures | src/polymaker/engine.py:346-354 | without failures equity is the sum over distinct trades of signed size times mark less fill price, plus the marked shortfalls that were clipped |
| CostBasis.FillMovesCost | src/polymaker/state/store.py:150-163 | a BUY adds price times size to average times size; a SELL that leaves shares keeps the average, the last share takes it away |
| CostBasis.AverageIsMoneySpent | src/polymaker/state/store.py:150-163 | in any run without overrides, for a token only bought since it was last flat, average times size is the money those fills cost |
| CostBasis.UnmarkedPurchasesAreWorthTheirCost | src/polymaker/risk/manager.py:47-64 | while a run only buys and nothing has a mark, equity stays zero |
| Reversals.ReversedBuy | src/polymaker/state/store.py:150-163 | a reversed BUY gives back the size, and the whole position exactly if it was flat or the trade was at its average price |
| Reversals.ReversedSell | src/polymaker/state/store.py:150-163 | a reversed SELL gives back the size exactly if it was held, and the whole position exactly if the trade was at its average price too |
| Reversals.WhatAFailureTakesBack | src/polymaker/state/tracker.py:92-102 | whenever in a run an open trade fails, its signed size comes back exactly if it was a SELL or no larger than what is held; when the average price stays; cash never moves |
| Reversals.TraceOfAFailure | src/polymaker/state/tracker.py:92-102 | afterwards each size is what the other fills alone lead to, exactly if trade and reversal did not change how far the running sum ever fell |
| Reversals.FailedBuyTakesLaterShares | src/polymaker/state/store.py:161 | ten bought, ten sold, five bought; the first purchase fails and nothing is left, where the others lead to five |
| Reversals.WhatAFailureRestores | src/polymaker/state/tracker.py:92-102 | a trade that fails right after its match restores size and position under the conditions of `ReversedBuy` and `ReversedSell`, and cash only if it was free |
| TokenBucket.TokenBucket.Acquire | src/polymaker/execution/ratelimit.py:28-36 | observed for any number of turns: a request within capacity is granted after at most one sleep, none exactly if the tokens are there; a larger one never |
| TokenBucket.TokenBucket.Pressure | src/polymaker/execution/ratelimit.py:38-42 | the missing share of the capacity: in [0, 1], one exactly on an empty bucket; it only refills |
| TokenBucket.RateBound | src/polymaker/execution/ratelimit.py:23-36 | in every run the tokens granted in any window of time are at most capacity plus rate times its length; stored tokens stay in range |
| TokenBucket.ReadsAreInvisible | src/polymaker/execution/ratelimit.py:38-42 | removing the pressure reads of a run changes no grant and no later budget |
| TokenBucket.NeverAffords | src/polymaker/execution/ratelimit.py:28-36 | a request above capacity is never granted |
| RegimeMachine.RegimeMachine.Decide | src/polymaker/strategy/regime.py:44-70 | decision and cool-off end are those of the value-level step |
| RegimeMachine.RegimeMachine.CooloffRemaining | src/polymaker/strategy/regime.py:76-78 | the time left, positive exactly during the cool-off |
| RegimeMachine.EventIffCoolingOff | src/polymaker/strategy/regime.py:44-70 | in any run a non-halted decision is EVENT exactly if it fires itself or an earlier one fired less than the cool-off ago |
| RegimeMachine.CooloffIsSilent | src/polymaker/strategy/regime.py:51-57 | during the cool-off only EVENT or HALTED is decided |
| RegimeMachine.RegimeFollowsInputs | src/polymaker/strategy/regime.py:44-70 | over any run every decision is HALTED, EVENT, REDUCE_ONLY, TRENDING or QUIET, in that order, by conditions on the inputs alone |
| Estimators.Ewma.Update | src/polymaker/strategy/estimators.py:34-44 | the first value seeds the mean, later ones share the weight with the decayed past |
| Estimators.Ewma.DecayTo | src/polymaker/strategy/estimators.py:46-55 | ages an initialized mean toward zero |
| Estimators.FlowEstimator.Update | src/polymaker/strategy/estimators.py:110-113 | feeds both means one signed print and keeps the signed one dominated |
| Estimators.FlowEstimator.Score | src/polymaker/strategy/estimators.py:123-127 | the signed mean over the absolute one, nothing below the guard |
| Estimators.AlwaysDominated | src/polymaker/strategy/estimators.py:101-127 | over any prints and silences with any timestamps the signed mean never exceeds the absolute one |
| Estimators.ScoreBounded | src/polymaker/strategy/estimators.py:123-127 | so the flow score lies in [-1, 1] |
| Estimators.FlowIsWeighted | src/polymaker/strategy/estimators.py:101-121 | after any run both means are the prints weighted by age alone, the signed one with bought sizes counting up and sold ones down |
| Estimators.OneSidedFlow | src/polymaker/strategy/estimators.py:123-127 | prints of buyers alone take the score to one, of sellers alone to minus one |
| OrderBook.OrderBook.ApplySnapshot | src/polymaker/marketdata/orderbook.py:74-85 | rebuilds both sides, sorted and positive |
| OrderBook.OrderBook.ApplyDelta | src/polymaker/marketdata/orderbook.py:87-94 | changes one price of one side as a map update or removal and keeps the side sorted and positive |
| OrderBook.SnapshotIsMap | src/polymaker/marketdata/orderbook.py:81-82 | a rebuilt side maps each price to the last positive size given for it |
| OrderBook.OrderBook.GetBestBid | src/polymaker/marketdata/orderbook.py:104-108 | the highest bid |
| OrderBook.OrderBook.GetBestAsk | src/polymaker/marketdata/orderbook.py:110-114 | the lowest ask |
| OrderBook.OrderBook.GetMicroprice | src/polymaker/marketdata/orderbook.py:117-134 | the depth-weighted price of the touches, none on an empty side, between the touches on an uncrossed book |
| OrderBook.MicropriceBetween | src/polymaker/marketdata/orderbook.py:117-134 | on an uncrossed book the microprice lies between the touches, for any number of levels |
| OrderBook.MicropriceBalances | src/polymaker/marketdata/orderbook.py:117-134 | it divides the spread in proportion to the depths of the nearest levels: closer to the ask exactly if the bids are deeper |
| Ticks.RoundDown | src/polymaker/strategy/quoting.py:37-42 | rounding down gives a printable price in [tick, 1 - tick], above its argument only by the guard or the clamp |
| Ticks.RoundDownBelow | src/polymaker/strategy/quoting.py:37-42 | it never passes a grid price its argument does not exceed, and reaches it exactly within the guard |
| Ticks.RoundUpAbove | src/polymaker/strategy/quoting.py:37-42 | rounding up never falls below a grid price its argument reaches |
| Quoting.AddLayers | src/polymaker/strategy/quoting.py:204-236 | the consolidation and layer loops append exactly the specified ladder to the shared list |
| Quoting.MaybeExit | src/polymaker/strategy/quoting.py:239-260 | appends the specified exit, or nothing |
| Quoting.ConstructMakerQuotes | src/polymaker/strategy/quoting.py:100-168 | the shared list ends up as the specified entries and exits, in order |
| MakerSafety.ConsolidateIsLargest | src/polymaker/strategy/quoting.py:219-226 | the loop ends at the largest layer count whose orders reach half the reward floor, or at one |
| MakerSafety.LayersMembers | src/polymaker/strategy/quoting.py:227-236 | every emitted order reaches the exchange minimum and, stepping down, is at or below the top price |
| MakerSafety.LayersSize | src/polymaker/strategy/quoting.py:217-236 | the emitted total is at most twice the requested size plus a hundredth per layer |
| MakerSafety.LockedEdge | src/polymaker/strategy/quoting.py:130-160 | with a minimum edge and fair value in its band, every BUY of YES plus every BUY of NO of one quote set costs less than one, also when a leg is clamped up to a tick |
| MakerSafety.BidsAtMostOne | src/polymaker/strategy/quoting.py:120-160 | for every input the two bids cost at most one together, and one exactly when a leg is rounded to the highest price; the other then bids a tick |
| MakerSafety.PairsAtMostOne | src/polymaker/strategy/quoting.py:130-160 | so does every pair of BUYs in a quote set whose layers descend, and a pair at one is quoted exactly then |
| MakerSafety.TopsWithinGuard | src/polymaker/strategy/quoting.py:37-42 | on a grid that divides one, that is a price within the guard of one less a tick |
| MakerWitnesses.PairReachesOne | src/polymaker/strategy/quoting.py:114-160 | a quote set with a BUY of YES at 0.99 and a BUY of NO at 0.01 |
| MakerWitnesses.ClimbingLayersBreakTheLock | src/polymaker/strategy/quoting.py:231-236 | a quote set whose negative layer step yields a pair above one |
| MakerSafety.BidIsPassive | src/polymaker/strategy/quoting.py:178-194 | a bid keeps its edge, stays at or behind the best bid and below the ask; exactly when it can meet the ask |
| MakerSafety.ExitIsPassive | src/polymaker/strategy/quoting.py:239-260 | an exit rests at least a tick above the best bid and sells no more than is held |
| MakerSafety.MakerOnly | src/polymaker/strategy/quoting.py:178-260 | the same for every quote of a whole quote set, token by token |
| MakerSafety.FairValueNearTouch | src/polymaker/strategy/quoting.py:45-48 | a flow score in [-1, 1] moves fair value at most half a tick beyond the touches |
| MakerSafety.FairValueFollowsFlow | src/polymaker/strategy/quoting.py:45-48 | more buying pressure never lowers fair value; unclamped it moves by half a tick per unit of score |
| MakerControl.BuysNeedRoom | src/polymaker/strategy/quoting.py:139-153 | buys appear only in QUIET or TRENDING and below the soft cap of their own side |
| MakerControl.PlaceBidMonotone | src/polymaker/strategy/quoting.py:178-194 | a higher target never bids less, except exactly where no bid stands below the ask, the lower target is rounded up to the ask and the higher one is sent a tick below it |
| MakerControl.InventoryLeansQuotes | src/polymaker/strategy/quoting.py:114-132 | with that exception, holding more YES never raises the YES bid and never lowers the NO bid if risk aversion times volatility is not negative, and the other way round if it is not positive |
| MakerControl.SpreadBounds | src/polymaker/strategy/quoting.py:122-128 | the half-spread is at least a tick; in QUIET it exceeds the reward band exactly if the base or a tick does |
| MakerControl.HalfSpreadIs | src/polymaker/strategy/quoting.py:122-128 | the half-spread is the minimum plus what volatility and toxicity add, inside the reward band in QUIET, at least a tick |
| MakerControl.VolatilityWidens | src/polymaker/strategy/quoting.py:122-128 | more volatility never narrows the half-spread, and where no clamp acts adds exactly its weight |
| MakerControl.VolatilityLowersBids | src/polymaker/strategy/quoting.py:114-132 | without net inventory more volatility never raises a bid, with the exception of `PlaceBidMonotone` |
| MakerControl.ToxicityWidens | src/polymaker/strategy/quoting.py:122-160 | more toxicity never narrows the spread and opens or closes no side; with that exception it never raises a bid |
| MakerControl.ToxicityLowersNotional | src/polymaker/strategy/quoting.py:134-160 | a bid costs at most the base size times a scale that toxicity never raises, up to rounding |
| MakerControl.ToxicityGrowsShares | src/polymaker/strategy/quoting.py:197-201 | its share count before rounding grows exactly if the price falls faster than the scale; rounded, not otherwise, and surely once more than a hundredth larger |
| MakerWitnesses.ToxicityEnlargesAnOrder | src/polymaker/strategy/quoting.py:122-201 | a market where two hundredths of toxicity turn 625 shares into 1041.67 |
| MakerControl.EntriesCost | src/polymaker/strategy/quoting.py:143-160 | the orders emitted for one token cost at most the scaled base size, or twice that where the reward bump applies, up to rounding |
| MakerTargets.BidIsHighest | src/polymaker/strategy/quoting.py:178-194 | a bid is the highest grid price that target, minimum edge and touch allow, a tick if they allow none |
| MakerTargets.BidIsOnGrid | src/polymaker/strategy/quoting.py:37-42 | it is a grid price itself, or one less a tick |
| MakerTargets.UtilizationIs | src/polymaker/strategy/quoting.py:114-117 | utilization is net inventory at fair value over its cap, between minus one and one |
| MakerTargets.BidsAreHighest | src/polymaker/strategy/quoting.py:120-160 | both bids are so with targets leaned by risk aversion, volatility and utilization and set off by the half-spread |
| MakerTargets.ScaleIs | src/polymaker/strategy/quoting.py:134-148 | the scale of an entry: half while trending, times what risk grants and inventory leaves, over one plus ten times toxicity |
| MakerTargets.SizeIs | src/polymaker/strategy/quoting.py:197-201 | the size is what the scaled base buys at the bid, to half a hundredth of a share |
| MakerTargets.EntriesAre | src/polymaker/strategy/quoting.py:204-236 | an order is an entry exactly if it is one of the equal layers a step apart, as many as reach half the larger of reward size and minimum, bumped up to that |
| MakerTargets.AskIs | src/polymaker/strategy/quoting.py:246-254 | the ask is on the way from fair value plus half-spread to a tick above the bid, as far as urgency says, at least half in REDUCE_ONLY |
| MakerTargets.UrgencyLowersAsk | src/polymaker/strategy/quoting.py:246-254 | more urgency never raises the ask; at one it is a tick above the bid |
| MakerTargets.ExitIs | src/polymaker/strategy/quoting.py:239-260 | one exit for the whole hundredths of a holding that reach the minimum, and no other |
| MakerTargets.ExitIsLowest | src/polymaker/strategy/quoting.py:255 | its price is the lowest grid price that reaches the ask |
| MakerTargets.QuotesAre | src/polymaker/strategy/quoting.py:100-168 | the quote set holds just the entries below the soft cap of each side and the exits of each holding, in the regimes that allow them |
| MakerWitnesses.BumpExceedsTheBase | src/polymaker/strategy/quoting.py:227-228 | a base size of 50 bumped to 150 shares that cost 75 |
| OneWay.FindSize | src/polymaker/strategy/one_way.py:141-146 | the inner loop finds the size of the lowest level within half a tick |
| OneWay.AdjustPriceForWall | src/polymaker/strategy/one_way.py:95-154 | the loop over three prices moves in front of the first foreign wall, or nowhere |
| OneWay.BuildPyramid | src/polymaker/strategy/one_way.py:251-282 | the loop with its early stop emits every layer with a positive price; it raises exactly when it has to index an empty weight list |
| OneWay.BuildOffers | src/polymaker/strategy/one_way.py:330-368 | the sell loop with its breaks emits the specified ladder |
| OneWay.ConstructOneWayQuotes | src/polymaker/strategy/one_way.py:157-370 | buys then sells, nothing in EVENT or HALTED, or the exception |
| OneWay.NothingBelowZero | src/polymaker/strategy/one_way.py:267-273 | stopping at the first non-positive price loses no layer |
| OneWaySafety.FairValueDecays | src/polymaker/strategy/one_way.py:29-69 | fair value never rises, stays between nothing and its initial value, and is nothing from the end date on |
| OneWaySafety.BuyLadder | src/polymaker/strategy/one_way.py:222-265 | unrounded buy prices fall strictly from at most the best bid and stay positive |
| OneWaySafety.BuysNeverCross | src/polymaker/strategy/one_way.py:214-282 | on an uncrossed book no rounded BUY passes the best bid or reaches the ask |
| OneWaySafety.SpendBounded | src/polymaker/strategy/one_way.py:275-282 | with no more layers than weights summing to at most one, the ladder costs at most the base size times the throttle |
| OneWaySafety.NeverOversells | src/polymaker/strategy/one_way.py:331-368 | the SELL targets of the traded token sum to at most the holding; other tokens have none |
| OneWaySafety.BrakesHold | src/polymaker/strategy/one_way.py:206-220 | buys respect the inventory brake, the end date and the regime; sells respect panic and the order minimum |
| OneWaySafety.WallShift | src/polymaker/strategy/one_way.py:123-154 | a SELL on the grid lands on the bid exactly when it aims at most two ticks above it and a foreign wall rests one tick above it |
| OneWaySafety.SellAboveBidIff | src/polymaker/strategy/one_way.py:353-368 | on a grid book every SELL, of any layer, rests above the best bid exactly if no foreign wall's front pulls its guarded target down to it |
| OneWaySafety.WideSpreadKeepsSellsAbove | src/polymaker/strategy/one_way.py:353-368 | with three ticks between the touches every SELL rests at least a tick above the bid |
| OneWaySafety.TwoTicksOfRoom | src/polymaker/strategy/one_way.py:123-154 | with two ticks a target is pulled down only from the middle between two ticks, where rounding to six decimals decides |
| OneWaySafety.SellsCanCross | src/polymaker/strategy/one_way.py:353-368 | a quote set with one SELL on the best bid and one below it |
| OneWaySafety.FirstSellAboveBid | src/polymaker/strategy/one_way.py:315-368 | on a grid book the first SELL is never below the best bid, and on it exactly when a foreign wall rests one tick above the bid |
| OneWayTargets.FairIsProportional | src/polymaker/strategy/one_way.py:42-69 | between start and end date fair value falls in proportion to the time left; before it is the initial one, after it is nothing |
| OneWayTargets.UtilizationReaches | src/polymaker/strategy/one_way.py:181-184 | utilization reaches a share exactly if the holding at fair value reaches that share of the cap |
| OneWayTargets.PriceIs | src/polymaker/strategy/one_way.py:251-265 | the recursive pyramid in closed form: whole gaps below fair value, or ticks below the first layer where that is not lower |
| OneWayTargets.BuysAre | src/polymaker/strategy/one_way.py:214-282 | a BUY is quoted exactly if buying is on and it is one of the layers, with its price and its weight of the base size |
| OneWayTargets.RaisesExactly | src/polymaker/strategy/one_way.py:277-279 | the exception is raised exactly if a layer is due and there is no weight |
| OneWayTargets.SellsAre | src/polymaker/strategy/one_way.py:285-368 | a SELL is quoted exactly if it is one of the layers of the holding, each at its target or a tick in front of the lowest wall near it |
| Adaptive.AdaptiveCache.MaybeUpdate | src/polymaker/catalog/adaptive.py:63-94 | adopts, keeps or raises as the value-level rule says, and stores exactly what it returns |
| Adaptive.AdaptiveEngine.GetFactors | src/polymaker/catalog/adaptive.py:259-310 | within the interval the cached factors are used; otherwise they are recalculated, and a failure leaves cache and clock alone |
| Hysteresis.KeepsOrPlain | src/polymaker/catalog/adaptive.py:368-391 | the tier is kept exactly between the eased threshold below and the plain one above; otherwise the plain tier is taken |
| Hysteresis.RegimeKeepsOrPlain | src/polymaker/catalog/adaptive.py:155-179 | the volatility factor takes its plain value exactly outside the buffer of the factor in force; inside it stays, exactly if that factor is one of the three |
| Hysteresis.TransitionIsNeither | src/polymaker/catalog/adaptive.py:155-179 | from the default transition factor 1.2 it goes to 1.0 where the plain value is 1.5 |
| Hysteresis.NoChatter | src/polymaker/catalog/adaptive.py:346-351 | over any run in normal mode and from any cached factor the downward tier switches, times hysteresis and low threshold, are at most the total fall of the average volume, plus one if the cache holds a higher tier at the start |
| Hysteresis.OutliersOnlyLower | src/polymaker/catalog/adaptive.py:337-344 | leaving out outliers never raises the average and keeps it non-negative |
| FactorLaws.AverageIs | src/polymaker/catalog/adaptive.py:337-344 | the average volume is the mean of the volumes below three times the mean |
| FactorLaws.PlainRegimeIs | src/polymaker/catalog/adaptive.py:118-166 | without a factor in force: low if four fifths of the snapshots are, else high if half are |
| FactorLaws.FactorsAre | src/polymaker/catalog/adaptive.py:312-366 | the factors come from the newest twelve snapshots, by the mode their number allows |
| FactorLaws.VolFactorIs | src/polymaker/catalog/adaptive.py:100-116 | the volume factor is 0.3, 0.7, 1.0 or 1.5 by the thresholds reached |
| FactorLaws.AdoptedIff | src/polymaker/catalog/adaptive.py:69-94 | from a positive cache new factors are adopted exactly if the mode changes or one is off by the hysteresis |
| FactorLaws.UsedIsClose | src/polymaker/catalog/adaptive.py:69-94 | what is used is of the computed mode and off by less than the hysteresis |
| Hysteresis.RaisesIff | src/polymaker/catalog/adaptive.py:84-86 | for every configuration and run a recalculation divides by zero exactly if the cached conservative factor is zero and the history is short |
| Hysteresis.RaisesOnSomeRun | src/polymaker/catalog/adaptive.py:318-335 | a configuration divides by zero on some run exactly if a factor it sets for an empty or a short history is zero |
| Hysteresis.NeverRaises | src/polymaker/catalog/adaptive.py:84-86 | with all of those factors non-zero every recalculation of every run succeeds |
| Hysteresis.StaysStuck | src/polymaker/catalog/adaptive.py:84-86 | a conservative factor that cannot be divided by survives any number of short histories, each of which fails |
| Hysteresis.ZeroFactorSticks | src/polymaker/catalog/adaptive.py:318-326 | with new markets unquoted, a market seen without history at any point of any run has factor zero from then on, through every short history, and a recalculation fails exactly on a short one |
| Pipeline.FairValueBounded | src/polymaker/strategy/quoting.py:45-48 | for any flow and any uncrossed book inside the tick band the fair value is within half a tick of the touches |
| Pipeline.FlowNeverTrends | src/polymaker/strategy/regime.py:66 | a flow threshold above one is never met: TRENDING then means volatility |
| Pipeline.CooloffClearsTheMarket | src/polymaker/strategy/regime.py:51-57 | within the cool-off both strategies quote nothing, the plan cancels every live order and places none, and nothing is left |
| Pipeline.ReduceOnlyNeverBuys | src/polymaker/strategy/regime.py:60-63 | while risk says reduce-only, inventory is at its cap or the end is near, neither strategy quotes a BUY |
| Pipeline.MakerLiveSells | src/polymaker/strategy/quoting.py:255-260 | after any executed maker plan the live SELL size is at most the holding, stretched by the resize tolerance and one guard |
| Pipeline.OneWayLiveSells | src/polymaker/strategy/one_way.py:331-368 | the same for the one-way quoter, with one guard per layer |
| Pipeline.EveryOrderHasATarget | src/polymaker/execution/reconciler.py:47-63 | after an executed plan every live order serves some target within the tolerances |
| Pipeline.LivePairBound | src/polymaker/strategy/quoting.py:130-160 | a resting BUY pair costs at most one plus the reprice tolerance of each leg, for every edge and fair value |
| Pipeline.LivePairLocked | src/polymaker/strategy/quoting.py:130-160 | with fair value in its band and a minimum edge above twice the reprice tolerance, resting pairs stay below one however far kept orders drifted |

## Left out

- Float representation: all arithmetic is exact. One visible gap is the volatility factor moving from 1.0 to 0.8, which is exactly the default hysteresis in reals and just under it in floats; `Hysteresis.NoChatter` therefore speaks of the volume tier only.
- Scheduling inside asyncio: whole steps between two awaits interleave; the heartbeat wipe is taken to be real on the exchange.
- Aliasing of `Position` objects and of lists shared with readers: positions and orders are values.
- OrderProtocol.Coverage: assumes that reads succeed and list every live order, that a cancel answered with True really cancelled, and that a snapshot is applied while younger than the grace of its call (or still complete); `OrderProtocol.FailedReadForgets` shows why the first is needed.
- LedgerRuns.ExactlyOnce: exchange trade ids do not end in ":reverse", the suffix the tracker uses itself, and fill sizes are not negative.
- LedgerRuns.RestartIsTransparent: restarts happen between operations; a crash between the two commits of one fill is not modelled.
- Equity.EquityIdentity: holds from a flat start without restarts, REST or forced overwrites, and with a mark for every token held so far.
- Reversals.TraceOfAFailure: no REST or forced overwrite of a position happens in the run.
- TokenBucket.TokenBucket.Acquire: the loop is observed for a number of turns, since for a request above capacity it has no last one.
- MakerTargets.BidsAreHighest: books are uncrossed and on the tick grid, as the exchange's are.
- OneWayTargets.SellsAre: ask sizes are not negative, as in every book the model builds.
- FactorLaws.AdoptedIff: the factors in force are positive; for a zero one see `Hysteresis.RaisesIff`.
- MakerSafety.PairsAtMostOne: layers step down or there is one; `MakerWitnesses.ClimbingLayersBreakTheLock` shows why.
- MakerControl.InventoryLeansQuotes: an ask with no bid below it lies on the tick grid, as the exchange only accepts such prices.
- MakerSafety.MakerOnly: touches lie on the tick grid, as the exchange only accepts such prices.
- OneWaySafety.SellAboveBidIff: the bid and the asks lie on the tick grid and ticks are whole millionths, as the exchange's are.
- Hysteresis.NoChatter: the thresholds lie further apart than the hysteresis, as the defaults do.
- Hysteresis.ZeroFactorSticks: the hysteresis is at most one and configured factors have no negative sign.
- Pipeline.LivePairLocked: plan and quotes use the same tick, above four guards, and the drift of both legs and three ticks stay below one.
- MakerControl.ToxicityGrowsShares: exact before rounding; rounding to hundredths can hide a growth of at most a hundredth of a share.
- OneWaySafety.SpendBounded: at unrounded prices; rounding to printed decimals can move a price by half a unit.
- Adaptive.AdaptiveEngine.GetFactors: returns the factors; scaling the profile by them is field arithmetic and left out, as are the log lines.
- The risk manager's headroom and halt rules, kill switch and error rate: independent one-branch formulas.
- Markout tracking, volatility estimators and sweep detection: markouts of NO fills are recorded and evaluated in different terms, so no law holds to state.
- Book extras: depth, imbalance, the NO view derived from a YES book, the unused wall search of the one-way quoter.
- Merging pairs, on-chain sync, journal, alerts, catalog, configuration loading, signing and transport.
- The order table and the context columns of the store: only positions and fills survive a restart in a way that matters here.
