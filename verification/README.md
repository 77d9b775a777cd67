# A verified model of the SIBILLA trading desk

SIBILLA decides whether orders may exist, sizes them, throttles its own network calls, talks to a language model,
and judges itself by backtests and calibration. This project models the deterministic core of that desk in Dafny and
proves what it promises about every input, every run and every reachable state. Money and prices are exact reals,
times are reals or whole seconds, and the parts of the desk that update fields in place are classes.
`dafny verify dfyconfig.toml` checks everything.

| files | part of the desk |
|---|---|
| `Limits`, `Pricing`, `Sizing`, `Exposure`, `Margin`, `RiskEngine`, `Approvable`, `Portfolio` | the risk kernel: about thirty checks, and the portfolio after any sequence of approvals and closings |
| `EtoroAdapter`, `EtoroRunner`, `EtoroCycles`, `Pairs`, `Statistics` | the two eToro strategies, one cycle of their runner on a stale snapshot, and what happens under the default limits |
| `Features`, `Sorting`, `Backtest`, `BacktestEntries`, `BacktestPromises`, `WalkForward` | price lookups, the event backtest, walk-forward windows |
| `RateLimit`, `Http`, `HttpOverlap`, `LlmBudget`, `LlmClient` | token bucket, circuit breaker, retry loop, hourly and daily budget, the turn loop |
| `Calibration`, `Drawdown` | Brier score and calibration error, maximum drawdown |
| `News`, `KillSwitch` | news clusters as shared mutable records; the kill switch over restarts |

How the files are built: a method follows the code step by step and is proved equal to a specification (`Evaluate` to
`Acceptable`, `RunLoop` to the turn rules `Setup.Step`, `RunCycle` to `AfterMomentum` and `PairsFrom`, `Simulate` to
`RunEvents`, the methods of `KillSwitch` to `Step`), and the promises are lemmas about that specification.

## What the proofs say about the code that its documentation does not

- **Structured retries.** A rejected answer uses up a turn and also lowers the bound of the turns. A model that never
  gives a valid answer, in text or through the schema tool, is asked again for all of the R retries exactly when R plus
  the rounds of tools are at most the M turns, and otherwise half of M + R less those rounds times
  (`LlmClient.ReasksMade`). With the default of two retries and no tools, one re-ask is made, not two
  (`LlmClient.TwoRetriesOneReask`).
- **eToro limits.** The configuration says 55 reads and 18 writes a minute. Any 60 seconds can hold 56 and 19, and the
  bound is reached (`RateLimit.EtoroWindows`, `RateLimit.PerMinuteBoundTight`).
- **Breaker.** "Open exactly when the failures reach the threshold" is an invariant exactly for thresholds of at least
  one. An exhausted request adds two failures, or one when its last attempt was spent on a proxy or DNS fallback or
  when no attempt is allowed; a 4xx whose text looks like a DNS problem is retried and has already cleared the breaker.
  Requests that overlap can call on an open circuit, exactly when another one has brought the count to the threshold
  since they were let through and nothing has closed it again (`HttpOverlap.CallsOnOpenCircuitIff`).
- **One snapshot per cycle.** All orders of a cycle are judged on the same snapshot. An order fits it when it is within
  the per-trade, absolute stake, open-risk and position caps there. Together n such orders exceed the open-risk cap by
  at most n - 1 of the smaller per-trade cap (`EtoroRunner.StaleSnapshotBound`). Every n orders that fit keep the cap
  exactly when the snapshot has room for n of the largest that fits (`EtoroRunner.CapKeptIff`); a cycle that ends at
  24.9 against a cap of 20, with one position too many, is `EtoroCycles.CycleExceedsCaps`.
- **Failed judgements.** A brief is remembered before it is judged, so one whose judgement fails is not judged again
  until the brief changes (`EtoroRunner.FailedJudgementIsFinal`).
- **Half-open pairs.** Both legs are submitted, or none, unless the call for the first raises; but a rejected leg is only
  logged. A pair is left half open exactly when the first leg is confirmed and the second is not, or the first is
  rejected and the second confirmed (`EtoroRunner.HalfOpenIff`), and this needs no exception
  (`EtoroCycles.HalfOpenWithoutException`).
- **Horizon of the eToro strategies.** Their proposals ask for six hours. With the other default limits either strategy
  trades at all exactly when the holding limit is at least that; the default is four
  (`EtoroCycles.TradesIffSixHours`).
- **Sizing.** The branchy budget is the minimum of its caps except when the cap itself is negative and a still lower
  request is clamped up to zero (`Sizing.BudgetIsSmallestCap`, an equivalence).
- **Kill switch.** `set_state(RUNNING)` lifts a block for any actor and leaves the kill event open. After any run with
  working writes that ends running, a restart blocks exactly when `load` reads the database and something was
  triggered after the last clear by a human (`KillSwitch.RestartAfterRunBlocksIff`); a blocked system stays blocked
  exactly when `load` reads the database (`KillSwitch.RestartKeepsBlock`).
- **News.** A cluster is overwritten, and its records lost from the index, exactly when a title of which normalising
  leaves nothing comes after another such title, as long as fingerprints do not collide
  (`News.NewsClusterer.LostIffBlank`, `News.NothingLostIff`, and `News.SecondBlankReplacesFirst` for the input).
- **Pair levels.** Stop and target lie on their sides of the entry exactly when the four per cent move passes the middle
  of the cent the price is in: for prices in whole cents from 13 cents on, and for all from 12.5 cents on
  (`EtoroAdapter.LegLevelsOnTheirSidesIff`). At one cent both levels are the entry itself.
- **Calibration.** The counts of the curve add up to the number of pairs exactly when every probability is in [0, 1.01).

## Model

| member | source | states |
|---|---|---|
| `Pricing.StepMultipleExact` | src/core/pricing.py:145-156 | the final rounding to ten decimals changes no multiple of a step that has ten decimals |
| `Pricing.UnitsOfValue` | src/core/pricing.py:149-155 | down is the steps that fit, up the fewest that cover, nearest within half a step |
| `Pricing.KellyWithinProbability` | src/core/pricing.py:159-165 | the Kelly fraction is between 0 and the clamped probability, for every probability and reward/risk |
| `Pricing.KellyStakes` | src/core/pricing.py:159-165 | something is staked if and only if the bet gains on average, and stake times reward is that gain |
| `Pricing.WorsePriceCosts` | src/core/pricing.py:53-57 | a slipped price costs the side that trades the slippage on the price |
| `Pricing.LevelsAtDistance` | src/core/pricing.py:100-105 | at its stop a position of either direction has lost the distance, at its limit gained it |
| `Pricing.NotionalOfMove` | src/core/pricing.py:94-97 | a relative move of x makes or loses x times the notional |
| `Pricing.MarginIsPercentage` | src/core/pricing.py:130-132 | the margin is the margin factor in per cent of the notional |
| `Sizing.ComputeBudget` | src/risk/sizing.py:66-82 | the branches compute the budget, its reason and the Kelly cap of the specification the lemmas below are about |
| `Sizing.BudgetIsSmallestCap` | src/risk/sizing.py:66-82 | budget = smallest of cap, clamped request and Kelly stake, if and only if not (negative cap, lower request, no lower Kelly stake) |
| `Sizing.BudgetOfSolventAccount` | src/risk/sizing.py:66-82 | with equity and stake cap not negative it always is that minimum, lies in [0, per-trade cap] and within the absolute cap |
| `Sizing.ComputeSize` | src/risk/sizing.py:46-108 | ValueError exactly for stops that are not positive; otherwise every field of the sizing result |
| `Sizing.SizeOptimal` | src/risk/sizing.py:84-91 | the size is 0 or a whole number of steps, at least the minimum, with loss at stop within the budget, and no admissible number of steps is larger |
| `Sizing.PositiveSizeSigns` | src/risk/sizing.py:84-103 | a positive size implies positive value per point and risk, and notional and margin not negative |
| `Sizing.RiskIsLossAtStop` | src/risk/sizing.py:84-99 | risk_eur is the loss in euro at the stop level, and the limit level gains the limit distance |
| `Sizing.KellyCapBound` | src/risk/sizing.py:75-79 | the Kelly stake is at most the configured fraction of equity times probability |
| `Sizing.FractionClamped` | src/risk/sizing.py:66-67 | the requested fraction of the smaller cap, all of it from one on and nothing from zero down |
| `Exposure.BuildExposure` | src/risk/correlation.py:46-63 | every dictionary and total equals the sum over exactly the positions of that epic, class, currency or factor |
| `Exposure.OppositesCancel` | src/risk/correlation.py:54-57 | a long position adds its loading times the amount to a factor, and its opposite takes exactly that away |
| `Exposure.CloseTotals` | src/risk/correlation.py:53-62 | removing any one position takes exactly that position out of every total |
| `Exposure.ClampIsIdle` | src/market/instrument_registry.py:514-523 | by Cauchy-Schwarz the clamp of the factor cosine never changes anything |
| `Exposure.CorrelatedRisk` | src/risk/correlation.py:66-83 | the loop adds the risk share of each position whose signed correlation reaches 0.4 |
| `Exposure.CorrelatedWithinOpenRisk` | src/risk/correlation.py:74-83 | correlated risk is between 0 and open risk for every portfolio, so the all-stops scenario dominates |
| `Exposure.ShareFacts` | src/risk/correlation.py:78-81 | a position counts if and only if the product of the factor vectors, signed by both directions, is positive and its square at least 0.16 of the norms; its share is then its risk times the cosine |
| `Exposure.SameFactorsShare` | src/risk/correlation.py:78-81 | the same factors count with the whole risk in the same direction and with nothing in the opposite one |
| `Exposure.SameBetsCount` | src/risk/correlation.py:77-83 | the correlated risk is at least all the open risk on the same factors in the same direction |
| `Exposure.HedgesDoNotCount` | src/risk/correlation.py:77-83 | positions against the new trade on its factors count nothing |
| `Margin.MarginStressTest` | src/risk/margin.py:8-53 | the scenario table has exactly the configured shocks and the two portfolio-wide ones with the rounded ratios; pass if and only if usage, free margin and every unrounded scenario hold |
| `Margin.Worst` | src/risk/engine.py:209 | the minimum of the scenario table |
| `Margin.StressSound` | src/risk/margin.py:24-41 | a pass on the rounded table covers every smaller loss: equity stays positive and free margin is at the limit less 0.00005 |
| `RiskEngine.RewardChecks` | src/risk/engine.py:126-143 | passes exactly when reward/risk, net alpha and the slippage guard hold |
| `RiskEngine.RiskChecks` | src/risk/engine.py:182-188 | passes exactly when open, event and correlated risk stay within their caps |
| `RiskEngine.ExposureChecks` | src/risk/engine.py:190-203 | quotient checks pass exactly when equity is positive and the four totals with the new position are within their multiples |
| `RiskEngine.MarginChecks` | src/risk/engine.py:205-210 | with positive equity passes exactly when margin usage, free margin and all rounded scenarios hold |
| `RiskEngine.Evaluate` | src/risk/engine.py:80-238 | approved if and only if the order is acceptable on all counts; size and risk then from the sizing, else 0; the reasons are exactly the failed checks |
| `RiskEngine.NoReasonsMeansAllPassed` | src/risk/engine.py:82-89 | no rejection reason if and only if every check passed |
| `RiskEngine.ApprovedExposure` | src/risk/engine.py:195-197 | no approval with equity at or below 0; an approved order has positive size and risk |
| `RiskEngine.ApprovedSurvivesStress` | src/risk/engine.py:204-212 | after an approval every loss up to the largest modelled scenario leaves equity and the least free margin; among them each configured multiple of the new risk, and all open stops |
| `RiskEngine.ApprovedInNumbers` | src/risk/engine.py:176-208 | an approval in numbers: risk, notional and margin of the portfolio with the order within every cap |
| `RiskEngine.ApprovedEntryWithinSlippage` | src/risk/engine.py:138-143 | the worst entry of an approved order is within the slippage of the offer for BUY, of the bid for SELL |
| `RiskEngine.SizedFromProposal` | src/risk/engine.py:157-171 | sized at the offer or the bid, for the requested risk, fraction and calibrated probability |
| `RiskEngine.OpensWhatWasAsked` | src/risk/engine.py:190-194 | the position an order would open has its instrument, direction and factors and the size's notional and risk |
| `RiskEngine.DrawdownOkIff` | src/risk/engine.py:148-149 | the drawdown check without its quotient, missing and non-positive peaks included |
| `RiskEngine.BrokerMinimumReached` | src/risk/engine.py:117-121 | the broker minimum in points or in per cent of the middle of the quote, without its quotient |
| `RiskEngine.RepeatedBetRefused` | src/risk/engine.py:187-188 | a bet repeated on the same factors is refused once its open risk and the new one exceed the correlated cap |
| `Approvable.DefaultsApprove` | src/core/config.py:36-81 | the default limits are valid, and an order exists that every check accepts under them |
| `Portfolio.EmptyIsSafe` | src/risk/engine.py:150-203 | the empty portfolio is within all caps |
| `Portfolio.OpenKeepsSafe` | src/risk/engine.py:150-203 | an approval keeps every cap of every epic, class and currency, although only the touched ones are checked |
| `Portfolio.CloseKeepsSafe` | src/risk/engine.py:150-203 | closing any position keeps every cap |
| `Portfolio.RunStaysSafe` | src/risk/engine.py:150-203 | portfolio safety in every state of every run of approvals and closings at fixed equity |
| `Portfolio.SafeInNumbers` | src/risk/engine.py:150-203 | what safety means in numbers, for every epic, class and currency |
| `Portfolio.NoEquityOnlyCloses` | src/core/pricing.py:135-136 | in a run without equity every step is a closing |
| `EtoroAdapter.LegLevelsOnTheirSidesIff` | src/risk/etoro_pairs_adapter.py:35-40 | for every price: stop and target of both directions are strictly on their sides if and only if the move of four per cent passes the middle of the cent |
| `EtoroAdapter.LegLevelsOnTheirSides` | src/risk/etoro_pairs_adapter.py:35-40 | for prices in whole cents if and only if 13 cents or more; always from 12.5 cents on |
| `EtoroAdapter.LegLevelsCollapse` | src/risk/etoro_pairs_adapter.py:35-40 | at one cent both levels equal the entry |
| `EtoroRunner.NothingBelowSixHours` | src/risk/engine.py:124 | a proposal for six hours gets no units under a shorter holding limit, whatever the other limits |
| `EtoroCycles.TradesIffSixHours` | src/risk/etoro_pairs_adapter.py:80 | with the other default limits some candidate is bought, and some pair gets both legs, if and only if the holding limit is at least six hours |
| `EtoroRunner.ApprovedOrderFits` | src/workers/etoro_runner.py:156-167 | whole units of an approved order fit the per-trade, absolute stake, open-risk and position caps of the snapshot |
| `EtoroRunner.Order.LevelsHold` | src/risk/etoro_pairs_adapter.py:35-40 | levels within half a cent of the approved distances are strictly on their sides from half a cent on, and the risk at the stop sent is the approved one to half a cent a unit |
| `EtoroRunner.BuyIsLevelled` | src/workers/etoro_runner.py:163-167 | the stop and the target sent for a momentum order are the approved distances from the offer, to half a cent |
| `EtoroRunner.LegIsLevelled` | src/workers/etoro_runner.py:222-226 | the same for the legs of a pair, in both directions |
| `EtoroRunner.LegOrdersOnSides` | src/workers/etoro_runner.py:222-226 | both legs at one price have their levels strictly on their sides if and only if the four per cent move passes the half cent |
| `EtoroRunner.BuyOnSidesIff` | src/workers/etoro_runner.py:165 | a momentum order at a price in whole cents has its levels on their sides if and only if it is at least eight cents |
| `EtoroRunner.ProposalsInNumbers` | src/risk/etoro_adapter.py:43-90 | distances, requested risk, alpha, horizon and direction that both strategies ask for |
| `EtoroRunner.OrdersStartAtTheQuote` | src/risk/etoro_pairs_adapter.py:31-32 | orders start from the offer for BUY and the bid for SELL |
| `EtoroRunner.RiskOfHeld` | src/workers/etoro_runner.py:121-128 | a held position risks the distance to its stop, on whichever side, times its size |
| `EtoroRunner.OrdersRisk` | src/workers/etoro_runner.py:129-170 | n fitting orders risk at most n of the smaller per-trade cap, and n times the largest risk the snapshot allows |
| `EtoroRunner.StaleSnapshotBound` | src/workers/etoro_runner.py:129-170 | open risk with n orders of one cycle is at most the open-risk cap plus n - 1 of the smaller of the relative and the absolute per-trade cap; positions at most the cap minus 1 plus n |
| `EtoroRunner.CapKeptIff` | src/workers/etoro_runner.py:129-170 | every n orders that fit the per-trade, stake, open-risk and position caps of the snapshot keep the open-risk cap together if and only if n times the largest fits what the cap leaves, or nothing fits |
| `EtoroCycles.CycleExceedsCaps` | src/workers/etoro_runner.py:129-168 | the input: two confirmed buys on one snapshot bring the open risk to 24.9 against 20 and the positions one over |
| `EtoroRunner.Runner.NewsChanged` | src/workers/etoro_runner.py:147-149 | a brief is judged exactly when it differs from the last one judged for the instrument, over all cycles |
| `EtoroRunner.Runner.Consider` | src/workers/etoro_runner.py:134-168 | one candidate: which are skipped, at which calls (news, judge, proposal, gateway) the cycle may end, and the exact order handed over |
| `EtoroRunner.FailedJudgementIsFinal` | src/workers/etoro_runner.py:147-153 | whatever becomes of a judgement, a later cycle judges the instrument again if and only if its brief is another one |
| `EtoroRunner.MomentumOrders` | src/workers/etoro_runner.py:134-168 | for any candidates the momentum phase sends at most one order each, all BUY and all fitting the snapshot, and judgements only grow |
| `EtoroRunner.Runner.RunPairsPhase` | src/workers/etoro_runner.py:189-234 | the orders sent for the first of at most five signals that gets both legs, whatever the gateway replies; quotes or proposals that raise end it |
| `EtoroRunner.PairsAllOrNothing` | src/workers/etoro_runner.py:197-234 | two opposite fitting orders are sent or none; only the first exactly when its call raises |
| `EtoroRunner.HalfOpenIff` | src/execution/etoro/gateway.py:62-83 | of a submitted pair one leg is confirmed alone if and only if the first is confirmed and the second is not, or the first is rejected and the second confirmed |
| `EtoroRunner.ConfirmedFit` | src/execution/etoro/gateway.py:69-83 | what the broker confirms fits the snapshot too, so the bound covers it |
| `EtoroCycles.HalfOpenWithoutException` | src/workers/etoro_runner.py:225-234 | the input: with one leg confirmed and the other rejected, in either order, the phase ends half open and nothing raises |
| `EtoroRunner.Runner.RunCycle` | src/workers/etoro_runner.py:85-170 | the whole cycle: nothing when blocked or when gathering its data raises; at most 10 + 2 orders sent, even those whose call raises, each with the approved stop and target on their sides; a brief never judged twice in a row for an instrument; the stale-snapshot bound |
| `Statistics.CauchySchwarz` | src/strategies/etoro_pairs.py:47-49 | cov squared is at most var_x times var_y |
| `Statistics.CosineBounded` | src/strategies/etoro_pairs.py:47-52 | with a true square root the quotient is in [-1, 1] and symmetric |
| `Statistics.CenteredAddsToNothing` | src/strategies/etoro_pairs.py:46-49 | deviations from the mean add up to nothing |
| `Pairs.PearsonIsCorrelation` | src/strategies/etoro_pairs.py:41-52 | for any two lists the result is in [-1, 1] and the same from either side |
| `Pairs.WindowIsTheTail` | src/strategies/etoro_pairs.py:42-46 | correlated are the last values that both lists have, as deviations from their mean |
| `Pairs.PearsonFacts` | src/strategies/etoro_pairs.py:47-52 | the sign is that of the covariance, and the square times both variances is the covariance squared |
| `Pairs.SellsTheExpensiveLeg` | src/strategies/etoro_pairs.py:79-94 | a signal sells exactly the leg whose price ratio is above its history and buys the other |
| `Pairs.TodayIsTheLast` | src/strategies/etoro_pairs.py:67-73 | today is the last close and the history the 59 closes before it |
| `Pairs.SignalPrices` | src/strategies/etoro_pairs.py:95-102 | the prices of a signal are the last closes of its two candidates |
| `Pairs.OnlyRecentSessionsCount` | src/strategies/etoro_pairs.py:63-73 | locality: lists that agree on the last sixty closes of every candidate have the same signals, whatever came before |
| `Pairs.TodayHasNoSay` | src/strategies/etoro_pairs.py:56-62 | the session being judged changes neither the correlation nor the usual ratios |
| `Pairs.ZScoreFacts` | src/strategies/etoro_pairs.py:79-87 | z times the standard deviation of the usual ratios is how far today's ratio is above their mean |
| `Pairs.ReturnsLeadOn` | src/strategies/etoro_pairs.py:37-38 | on positive closes each return leads from one close to the next |
| `Pairs.RatiosMultiply` | src/strategies/etoro_pairs.py:79 | on positive prices ratio times second price is the first |
| `Pairs.QualifiesInNumbers` | src/strategies/etoro_pairs.py:75-89 | the thresholds: correlation at least 0.75 and z at or beyond 2 on either side |
| `Pairs.VisitPairs` | src/strategies/etoro_pairs.py:65-103 | the two loops collect the findings of i < j row by row |
| `Pairs.FindPairSignals` | src/strategies/etoro_pairs.py:55-105 | the list is the stable sort by strength of those findings over the eligible candidates |
| `Pairs.SignalsFound` | src/strategies/etoro_pairs.py:63-105 | a signal is in the list if and only if it belongs to two eligible candidates passing both thresholds |
| `Pairs.SignalsCount` | src/strategies/etoro_pairs.py:63-105 | as many signals as unordered pairs that pass: each is examined once |
| `Pairs.StrongestFirst` | src/strategies/etoro_pairs.py:104 | the list is sorted by absolute z-score, largest first |
| `Sorting.StableSortInOrder` | src/quant/features.py:17-18 | the sort is in order of its key |
| `Sorting.StableSortIsStable` | src/strategies/etoro_pairs.py:104 | elements with equal keys keep their order |
| `Features.PriceAtOrBefore` | src/quant/features.py:21-29 | a latest point at or before the time in whatever order the series comes; None if and only if there is none |
| `Features.UpToOfSorted` | src/quant/features.py:17-18 | dropping the points after a time before or after the stable sort makes no difference |
| `Features.PriceUsesPast` | src/quant/features.py:21-29 | for series in any order the price depends only on points up to the time |
| `Features.VolatilityUsesPast` | src/quant/features.py:77-89 | series in any order that agree up to a time have the same volatility there |
| `Features.VolatilityFacts` | src/quant/features.py:77-89 | known if and only if there are five prices and three returns; its square is the sum of squared deviations over the returns less one |
| `Features.BetweenMembers` | src/quant/features.py:79 | the prices of the window, both ends included |
| `Features.LogReturnsOfSteps` | src/quant/features.py:62-67 | on positive prices one logarithm a step, of the later price over the earlier |
| `Backtest.FindHit` | src/evaluation/backtest.py:110-124 | the exit scan finds the first hit after the decision and not after the deadline, stop before target |
| `Backtest.PlayEvent` | src/evaluation/backtest.py:75-133 | one event ends as the specified trade, skip or crash |
| `Backtest.Simulate` | src/evaluation/backtest.py:53-135 | the event loop equals the fold of outcomes over the events, equity carried; a division by zero ends the run |
| `BacktestEntries.NotSkippedIff` | src/evaluation/backtest.py:84-96 | with both prices, an event is not skipped for want of alpha if and only if the move already made in its direction is at most the expected one less spread, slippage and least alpha |
| `BacktestEntries.CrashesIff` | src/evaluation/backtest.py:101-105 | an event worth trading ends in a division by zero if and only if there is no size step or its stop is worth nothing |
| `BacktestEntries.NoChasing` | src/evaluation/backtest.py:89-96 | an event whose expected move has already been made is never traded |
| `BacktestEntries.RunTradesWorthTrading` | src/evaluation/backtest.py:73-133 | every trade of a run is of an event of the list that was worth trading; realized and residual move add up to the expected one |
| `BacktestEntries.EntryCosts` | src/evaluation/backtest.py:99-100 | entering and leaving at the same market costs the spread and the slippage on the price quoted |
| `BacktestEntries.StopFollowsVolatility` | src/evaluation/backtest.py:97-101 | the stop is the larger of 8 basis points and the multiple of the hour's volatility, or of 0.001 when unknown |
| `BacktestEntries.SizeRisksTheShare` | src/evaluation/backtest.py:103-106 | a size above the minimum risks the configured share of the equity to within half a step |
| `BacktestEntries.ExitWasSeen` | src/evaluation/backtest.py:116-124 | a stop or target exit is at a point of the series whose price really was past the level |
| `BacktestEntries.FirstHitCounts` | src/evaluation/backtest.py:111-124 | on ordered series every earlier price after the decision was strictly between the levels |
| `BacktestEntries.TradeAddsUp` | src/evaluation/backtest.py:132-133 | the result is the move from entry to exit in the trade's direction times size and value, from the slipped quote of the decision |
| `BacktestPromises.RunConserves` | src/evaluation/backtest.py:73-135 | trades plus skips = events, and carried equity = start plus all results |
| `BacktestPromises.ExitPriceAlwaysKnown` | src/evaluation/backtest.py:125-129 | for a holding time not negative the no_exit_price skip cannot happen |
| `BacktestPromises.ExitPays` | src/evaluation/backtest.py:116-133 | STOP_HIT loses exactly risk_eur, TARGET_HIT gains exactly reward_risk times it, both in time |
| `BacktestPromises.TimeStopPaysBetween` | src/evaluation/backtest.py:105-132 | on ordered series, for instruments of positive minimum size and value per point, a TIME_STOP with a price after the decision pays strictly between the two |
| `BacktestPromises.DecisionUsesPast` | src/evaluation/backtest.py:84-108 | entry, size, stop and target depend only on points up to the decision, for series in any order |
| `BacktestPromises.OutcomeUsesPast` | src/evaluation/backtest.py:74-133 | the outcome of an event depends only on points up to its deadline |
| `BacktestPromises.RunUsesPast` | src/evaluation/backtest.py:53-135 | runs over events whose horizon has passed have the same trades and equity |
| `BacktestPromises.RunExtends` | src/evaluation/backtest.py:73-135 | a longer run begins with the trades of the shorter one and adds only trades of later events |
| `BacktestPromises.NoLookahead` | src/evaluation/backtest.py:53-135 | no lookahead over whole runs: two price maps that agree up to T give the same trades and equity for all events due by T |
| `WalkForward.Roll` | src/evaluation/backtest.py:138-154 | exactly the windows whose end is at most a day after the last event, each with non-empty train and test |
| `WalkForward.TrainBeforeTest` | src/evaluation/backtest.py:146-153 | every training event is strictly before every test event of its window |
| `WalkForward.WindowLengths` | src/evaluation/backtest.py:147-152 | every reported window has the configured lengths in days |
| `WalkForward.TestPeriodsDisjoint` | src/evaluation/backtest.py:146-153 | of two reported windows the test of the earlier ends before that of the later begins |
| `RateLimit.SlidingWindowBound` | src/core/ratelimit.py:23-33 | in every run and every window of length T at most capacity + rps * T tokens are granted |
| `RateLimit.PerMinuteBound` | src/core/ratelimit.py:14-33 | a limit of n a minute grants at most n requests and a full bucket more in any 60 seconds: n + 1 up to 60 a minute, n + n / 60 above |
| `RateLimit.PerMinuteBoundTight` | src/core/ratelimit.py:14-33 | and n + 1 are reached |
| `RateLimit.EtoroWindows` | src/execution/etoro/client.py:35-50 | at most 56 reads and 19 writes in any 60 seconds under the configured 55 and 18 |
| `RateLimit.GrantedIffAffordable` | src/core/ratelimit.py:25-33 | some later poll grants an amount if and only if it is at most the capacity |
| `RateLimit.NewTokenBucket` | src/core/ratelimit.py:14-21 | ValueError exactly for a rate that is not positive; otherwise a full bucket of the burst, or of max(1, rps) |
| `RateLimit.TokenBucket.Try` | src/core/ratelimit.py:26-32 | one pass is one step of the run the bounds are about |
| `RateLimit.TokenBucket.Acquire` | src/core/ratelimit.py:23-33 | the passes of the waiting loop for any amount: one that fits the bucket is granted once, at the second pass at the latest; a larger one is refused in every pass |
| `RateLimit.BreakerReachable` | src/core/ratelimit.py:58-76 | in every reachable state the circuit has an opening time if and only if failures have reached the threshold, all in a row |
| `RateLimit.BreakerInvariantIffPositiveThreshold` | src/core/ratelimit.py:53-76 | that equivalence holds in all states if and only if the threshold is at least 1 |
| `RateLimit.CircuitBreaker.IsOpen` | src/core/ratelimit.py:58-67 | open until the reset timeout; asking after it closes the circuit and clears the count |
| `RateLimit.CircuitBreaker.RecordSuccess` | src/core/ratelimit.py:69-71 | success closes the circuit |
| `RateLimit.CircuitBreaker.RecordFailure` | src/core/ratelimit.py:73-76 | failure counts, and stamps the opening time from the threshold on |
| `Http.HttpClient.TakeToken` | src/core/http.py:131 | each attempt takes exactly one token |
| `Http.StatusKinds` | src/core/http.py:148-170 | success below 400, nine statuses retried, the rest definitive |
| `Http.HttpClient.Attempt` | src/core/http.py:133-195 | which answers end the request, fall back, count as failure or escape the loop, and what each does to breaker, proxy and bypass |
| `Http.HttpClient.RunAttempts` | src/core/http.py:126-207 | at most the allowed attempts, a token each, at most two fallbacks, and all the doubling pauses up to eight seconds |
| `Http.BackoffInNumbers` | src/core/http.py:127-207 | the pauses are half a second, one, two, four, and eight from then on |
| `Http.VerdictCounts` | src/core/http.py:171-207 | the counts of fallbacks and failures are those of the attempts that ended so |
| `Http.HttpClient.Request` | src/core/http.py:115-214 | nothing is sent while open; definitive answers leave the breaker closed; other exceptions leave it as it was; exhausted requests add exactly 2 failures, or 1 |
| `HttpOverlap.CallsOnOpenCircuitIff` | src/core/http.py:125-209 | among overlapping requests a call meets an open circuit if and only if, since the caller was let through, another request's failure reached the threshold, nothing closed the circuit after it, and the reset timeout has not passed |
| `HttpOverlap.OpenOnlyThroughOthers` | src/core/http.py:125-209 | among overlapping requests a call meets an open circuit only if another request has recorded a failure since the caller was let through |
| `HttpOverlap.OneAtATimeNeverOpen` | src/core/http.py:125-209 | so requests one at a time never call on an open circuit |
| `HttpOverlap.OverlapCallsOnOpenCircuit` | src/core/http.py:125-137 | the input: two requests that start together |
| `LlmBudget.Budget.Check` | src/intelligence/llm.py:98-113 | admitted if and only if today's spend plus estimate fits and the last hour has room; the day resets the spend |
| `LlmBudget.Budget.RecordCost` | src/intelligence/llm.py:115-117 | the spend grows by the cost and the admissions are untouched |
| `LlmBudget.AdmitKeepsLimit` | src/intelligence/llm.py:109-113 | admitting on the trimmed list keeps the hourly limit on all admissions ever |
| `LlmBudget.NoHourOverLimit` | src/intelligence/llm.py:109-113 | no hour, wherever it starts, holds more admitted calls than the limit |
| `LlmBudget.CountIsOfCalls` | src/intelligence/llm.py:110 | the calls counted are those of the 3600 seconds from the start |
| `LlmClient.Post` | src/intelligence/llm.py:165-195 | at most four posts; the first answer that is not retried, or the last failure |
| `LlmClient.PostedMeans` | src/intelligence/llm.py:168-195 | the result by the provider's last answer: four tries for timeouts, busy statuses and passing errors, one for all else |
| `LlmClient.RunToolCalls` | src/intelligence/llm.py:357-375 | exactly the allowed calls before the first forbidden or interrupted one run, in order; the last schema call is the answer |
| `LlmClient.FinalArgsOfLast` | src/intelligence/llm.py:363-365 | the final answer is that of the last call of the schema tool, if and only if there is one |
| `LlmClient.AllowedToolsRun` | src/intelligence/llm.py:366-368 | allowed tools that finish all run, in order |
| `LlmClient.ThroughIff` | src/intelligence/llm.py:359-375 | a message gets through if and only if every call is of the schema tool or of an allowed tool that finishes |
| `LlmClient.Setup.Reachable` | src/intelligence/llm.py:295-430 | in every reachable state rounds = turns + refunds (at most 2) + fallback (at most 1), and tokens have doubled once per refund |
| `LlmClient.Setup.EndsSoundly` | src/intelligence/llm.py:295-430 | a normal return under a schema carries a validated answer, within max turns + structured retries + 4 rounds |
| `LlmClient.Setup.PayloadsOk` | src/intelligence/llm.py:297-354 | no payload exceeds four times the role's tokens; the schema is asked for in exactly one way |
| `LlmClient.Setup.OnlyAllowedRan` | src/intelligence/llm.py:470-478 | only tools of the allowed map ever run, in any conversation |
| `LlmClient.ReasksMade` | src/intelligence/llm.py:295-430 | a conversation without a valid answer ends as LLMOutputError; re-asks = retries if retries and tool rounds are at most the turns, else half of turns plus retries less tool rounds; all are made if and only if the former |
| `LlmClient.TwoRetriesOneReask` | src/intelligence/llm.py:282-287 | the input: one turn and two retries make one re-ask, by text and by schema tool |
| `LlmClient.FourPostsEach` | src/intelligence/llm.py:165-195 | a conversation makes at most four posts per request |
| `LlmClient.CostWhenAllReported` | src/intelligence/llm.py:333-342 | all rounds report a cost: the total is their sum |
| `LlmClient.TokensPriced` | src/intelligence/llm.py:155-157 | a million times the cost is prompt tokens at the input price plus completion tokens at the output price |
| `LlmClient.CostWhenNoneReported` | src/intelligence/llm.py:333-342 | no round reports: the total is that price of all prompt and completion tokens |
| `LlmClient.CostAfterLastUnreported` | src/intelligence/llm.py:333-342 | mixed: less what was reported after the last unreported round, the total is the price of all tokens up to it |
| `LlmClient.RunLoop` | src/intelligence/llm.py:295-430 | the loop ends, and plays the conversation that the turn rules give for the provider's answers, with its cost |
| `LlmClient.Client.Complete` | src/intelligence/llm.py:259-468 | refused by the budget before anything is sent, or played to its end; the cost is recorded exactly once however it ends: the tokens at their prices when no round reports, the sum when all do |
| `Calibration.CalibrationMetrics` | src/evaluation/calibration.py:14-35 | Brier, ECE and a curve with one point per non-empty bucket, in order, with its size and means |
| `Calibration.BrierIsMean` | src/evaluation/calibration.py:18 | the Brier score is the mean squared gap between forecast and outcome |
| `Calibration.OneBucketEach` | src/evaluation/calibration.py:11-24 | a number is in exactly one bucket if and only if it is in [0, 1.01) |
| `Calibration.BucketsPartition` | src/evaluation/calibration.py:23-28 | bucket counts, predicted and observed mass add up to those of all pairs |
| `Calibration.AllCountedIff` | src/evaluation/calibration.py:23-28 | the counts add up to n if and only if every probability is in [0, 1.01) |
| `Calibration.EceBounds` | src/evaluation/calibration.py:17-29 | ECE is at most the mean absolute error and its square at most the Brier score, for any list |
| `Drawdown.MaxDrawdown` | src/evaluation/pnl.py:21-25 | the running peak finds the largest fall between any two points of the curve |
| `Drawdown.MaxDrawdownUnique` | src/evaluation/pnl.py:21-25 | the quadratic definition determines the number |
| `Drawdown.DrawdownGrows` | src/evaluation/pnl.py:22-25 | one more result never lowers the drawdown and raises it by at most its loss |
| `News.Text.SameNormalForm` | src/collectors/news/dedup.py:40-48 | titles with one normal form are similar if and only if something is left of them |
| `News.Text.SimilarIff` | src/collectors/news/dedup.py:40-48 | six in ten of all the words shared, or a fuzzy ratio of 82; never with an empty title |
| `News.NewsClusterer.FindCluster` | src/collectors/news/dedup.py:61-63 | the first cluster, in insertion order, whose head has a similar title |
| `News.NewsClusterer.Relabel` | src/collectors/news/dedup.py:65-71 | all members truthfully labelled: one original, the first earliest; domains minus 1 confirmations; confirmed never reverts |
| `News.DomainsOfUrls` | src/collectors/news/dedup.py:65 | the domains counted are those of the members' addresses |
| `News.NewsClusterer.Join` | src/collectors/news/dedup.py:64-72 | the record joins that cluster and no other changes |
| `News.NewsClusterer.Start` | src/collectors/news/dedup.py:73-79 | the record alone, in place of a cluster with its fingerprint |
| `News.NewsClusterer.Assign` | src/collectors/news/dedup.py:60-79 | labels stay true and the clusters partition the records; nothing is lost if and only if there was a match or a new fingerprint |
| `News.NewsClusterer.LostIffBlank` | src/collectors/news/dedup.py:61-78 | without collisions a record overwrites a cluster if and only if nothing is left of its title and a record held has such a title |
| `News.NewsClusterer.AssignAll` | src/collectors/news/dedup.py:60-79 | any run over fresh records leaves a truthfully labelled partition of all of them but the blank titles replaced by a later one |
| `News.NothingLostIff` | src/collectors/news/dedup.py:60-79 | a run keeps every record, old and new, if and only if no blank title comes after another |
| `News.SecondBlankReplacesFirst` | src/collectors/news/dedup.py:41-42 | the input: of two records without a title the second replaces the first |
| `News.PlainTextIsSane` | src/collectors/news/dedup.py:32-48 | the assumptions on the text functions can be met together, without collisions |
| `News.NewsClusterer.Confirmations` | src/collectors/news/dedup.py:84-95 | the report agrees with the stored fields of every member |
| `KillSwitch.KillSwitch.Guard` | src/risk/kill_switch.py:45-49 | raises exactly when a reason is active or the state is not RUNNING |
| `KillSwitch.KillSwitch.TriggerSwitch` | src/risk/kill_switch.py:51-63 | memory blocks at once, rows follow if the database answers |
| `KillSwitch.KillSwitch.ClearSwitch` | src/risk/kill_switch.py:69-79 | only an actor that is not a model, agent or system clears |
| `KillSwitch.HumanIff` | src/risk/kill_switch.py:71-72 | refused are exactly the names that begin, in letters of either size, with llm, agent or system |
| `KillSwitch.KillSwitch.ChangeState` | src/risk/kill_switch.py:83-89 | RUNNING clears memory and leaves the kill event open |
| `KillSwitch.KillSwitch.LoadRows` | src/risk/kill_switch.py:92-103 | the latest open event and the stored state become memory |
| `KillSwitch.LatestOpenIsLast` | src/core/repository.py:905-911 | the reason in force is that of the last event that is not cleared |
| `KillSwitch.ClearAllOnlyClears` | src/core/repository.py:913-919 | clearing marks every event and changes nothing else |
| `KillSwitch.Restart` | src/risk/kill_switch.py:92-103 | a restart is fresh memory over the same rows, then load |
| `KillSwitch.BlockedUntilLifted` | src/risk/kill_switch.py:45-63 | over any run without a lift or restart a triggered guard raises, database or not |
| `KillSwitch.UnblockedIffLifted` | src/risk/kill_switch.py:69-90 | one operation unblocks a triggered switch if and only if it is a human clear or RUNNING |
| `KillSwitch.RunKeepsSynced` | src/core/repository.py:905-933 | while all writes succeed memory and rows agree in every state |
| `KillSwitch.RestartKeepsBlock` | src/risk/kill_switch.py:92-103 | after any such run a restart keeps the block, reason and state, if and only if the database can be read |
| `KillSwitch.TriggerSurvivesRestarts` | src/risk/kill_switch.py:51-103 | a trigger survives any number of restarts until it is lifted |
| `KillSwitch.RestartBlocksIff` | src/risk/kill_switch.py:92-103 | in every synced state a restart of a running system blocks if and only if the database is read and some kill event is open |
| `KillSwitch.RestartAfterRunBlocksIff` | src/risk/kill_switch.py:51-103 | after any run with working writes that ends running: if and only if it is read and something was triggered after the last human clear |
| `KillSwitch.RestartMayBlockARunningSystem` | src/risk/kill_switch.py:86-101 | the input: set_state(RUNNING) after a trigger runs, and a restart then blocks |

## Left out

- Broker, language model, RSS, database and HTTP input and output are arbitrary inputs of the model; logging, audit
  events, latencies and statistics counters (`HttpStats`) are not modelled.
- Logarithm and square root are function parameters; where a proof needs it, the square root is a true one.
- Display rounding of metrics, floating-point error, log loss, accuracy, precision and recall; the other metrics of
  `performance_metrics`; attribution shares.
- `round_to_step` is exact only for steps with at most ten decimals; the size is optimal for those.
- RateLimit.TokenBucket.Acquire: watches a given number of passes of the waiting loop; the source goes on for ever when
  the amount is over the capacity. A sleep takes at least as long as asked; waiting callers take turns by the lock.
- Http.HttpClient.Request: runs one request from start to end; of overlapping requests `HttpOverlap` models what they do
  to the breaker, not their fallbacks. The breaker and the event loop share one clock, and the reset timeout is the
  default 30 seconds.
- Margin.MarginStressTest: scenario labels are one per shock; the source prints the shock with six significant digits,
  so two shocks that print alike would share a row.
- RiskEngine.Evaluate: the detail texts of the checks, and the risk per event is taken from the context as given.
- Portfolio.RunStaysSafe: equity is fixed; margin over whole runs is not tracked (each approval goes through the stress test).
- LlmClient.Client.Complete: contents of messages and history, the persisted decision, and exceptions from answers of
  an unexpected shape (their cost is recorded by the same `finally`); pauses between posts. Cost records of overlapping
  conversations commute.
- LlmBudget.Budget.Check: `sync_from_db` and the lock; time does not go back.
- EtoroRunner.Runner.RunCycle: the momentum screening, the market hours, the time stop and the main loop; news briefs are
  never None; proposals carry no event history because the runner's context has none. Whether the broker executed an
  order whose call raised, or filled one it confirmed, is not known to the runner nor to the model.
- KillSwitch: details and times of the events; writes succeed or fail as a whole.
- News.NewsClusterer.Assign: clusters handed to the constructor (`existing`). Normalising, splitting, the fuzzy ratio,
  hashing and domains are arbitrary functions; a run assumes that an empty title normalises to nothing, that exactly
  the normal forms that are nothing have no words, that the fuzzy ratio of nothing with a normal form is below the
  threshold, and that no two titles in play collide.
- WalkForward.Roll: the test length is positive; the source does not end for zero.
- BacktestPromises.OutcomeUsesPast: which skip is counted may differ (no data or no price) when a series begins only
  after the limit; trades and equity do not.
- Features: None values are taken to be filtered already; per-second volatility, ATR and the other features.
- The helpers that derive a stop from volatility, invalidation or risk.
