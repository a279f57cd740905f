# MAS Financial Market Laboratory: trading agents and simulation engine in Dafny

This project models the decision core of the MAS Financial Market Laboratory. It is a multi-agent market simulation: heterogeneous trading agents act on macro ticks (the economy changes) and micro ticks (intraday trading). Each agent reads a view of the market and returns *intents* (place an order, cancel an order, open a deposit). The engine routes those intents to the market environment and hands the replies back as *feedback*.

The model covers:

- **MarketMaker** (`market_maker.dfy`). Three strictly prioritised layers:
  - SURVIVE: cancel everything, then send one aggressive order when the inventory ratio breaches a risk bound.
  - STABILIZE: skewed quotes with asymmetric sizes; only the risk side is cancelled selectively.
  - PROVIDE: symmetric quotes around the mid price, behind a `wait_time` refresh gate.
  - It also covers price estimation, quantity validation, quote equivalence, and the feedback and clean-up bookkeeping.
- **ValueInvestor** (`value_investor.dfy`). A belief–desire–intention loop:
  - the belief comes from the optimism and the fair-value interval;
  - optimism moves with the perceived PnL;
  - mispricing and position fraction select one intention, in priority ACCUMULATE > DISTRIBUTE > PARK_CAPITAL > WAIT;
  - the intention is executed as at most one intent.
- **MomentumTrader** (`momentum_trader.dfy`):
  - a bounded price history;
  - a recency-weighted momentum signal with a directional bias;
  - an entry/exit signal;
  - a liquidity amplifier;
  - market orders for long entry, short entry and exit.
- **Agents** (`agents.dfy`). The four agent kinds as one sum type with `decide` and `update`, as the abstract `Agent` class defines them. The NoiseTrader's rule is an input (see Left out).
- **AgentManager** (`agent_manager.dfy`):
  - the distribution sampler `_sample_value`;
  - the four `_initialize_*` loops, with their id blocks 10000/20000/30000/40000 and the RuntimeError on a refused registration;
  - `initialize_agents`;
  - the registry (one dictionary of all agents plus one per kind);
  - the macro and micro tick schedules.
- **Engine** (`engine.dfy`):
  - `_process_intents`, which routes a batch to the market and collects the feedback;
  - the view refreshes;
  - one agent's turn of `_agent_loop`: view construction, the economy view only for ValueInvestors and MarketMakers, no `update` after an empty batch, and the assertion that only ValueInvestors request deposits;
  - the loop over a schedule;
  - one pass of `run`: on micro tick 0 the session expires, both views refresh and every agent acts; otherwise only market data refreshes and the ValueInvestors sit out.

The supporting modules:

- `Dicts` models Python dictionaries as insertion-ordered association lists. The order matters: it decides the order of cancel intents and of feedback.
- `Domain` holds the shared intents, views, feedback and intent numbering.
- `Numeric` models `int()` truncation and affordability.
- `Permutations` models `rng.shuffle` as an input permutation.
- `Wrappers` holds `Option` and `Result`.

Python exceptions (ZeroDivisionError, ValueError, RuntimeError, AssertionError, AttributeError, IndexError) are values of `Domain.Raised`, carried by `Result`.

**The `wait_time` gate comes first.** `_should_refresh_quotes` (market_maker.py:418-451) checks the `wait_time` gate before the fill and layer-change triggers, so while the gate is closed neither a fill nor a layer change forces a requote. `MarketMaker.ShouldRefreshQuotes` and `MarketMaker.DecideProvideWaits` state this behaviour.

Other behaviours of the code that the model keeps:

- The MarketMaker chooses its layer with the price remembered from before the current decision.
- A best deposit term of 0 counts as no opportunity.
- A ValueInvestor's initial capital values shares at a fixed 100.0.
- A ValueInvestor's done orders and matured deposits are never removed, because the clean-up helpers are never called.
- A MarketMaker's fill flag is reset only by `update`, which the engine skips after an empty batch.

## Model

All paths below are relative to the repository root. The prefixes are `MASFinancialMarketLaboratory/agents/agents/` for the agents and `MASFinancialMarketLaboratory/simulation/core/` for the engine and manager.

| member | source | states |
|---|---|---|
| MarketMaker.InitInvariant | MASFinancialMarketLaboratory/agents/agents/market_maker.py:64-79 | A freshly constructed market maker (empty caches, no remembered price, counter 0) satisfies the invariant every later decision relies on: positive remembered prices and caches keyed by order id on their own side |
| MarketMaker.InventoryRatio | MASFinancialMarketLaboratory/agents/agents/market_maker.py:571-586 | The ratio is the cash share of total wealth at the remembered price (ratio × wealth = cash); without a price or with non-positive wealth it is the target fraction |
| MarketMaker.InventoryRatioInUnitInterval | MASFinancialMarketLaboratory/agents/agents/market_maker.py:571-586 | For a non-negative account the ratio lies in [0, 1]; all cash gives 1 and all shares gives 0 |
| MarketMaker.DetermineLayer | MASFinancialMarketLaboratory/agents/agents/market_maker.py:126-131 | Exactly one layer: SURVIVE iff the ratio is outside the risk band; STABILIZE iff inside the band but further than the tolerance from the target; PROVIDE otherwise |
| MarketMaker.EstimatePrice | MASFinancialMarketLaboratory/agents/agents/market_maker.py:546-569 | A quoted price is used and remembered; otherwise the remembered price; otherwise the centre of the fair-value interval, which is not remembered. With valid inputs the estimate is positive, so a price always exists |
| MarketMaker.EstimatePriceIdempotent | MASFinancialMarketLaboratory/agents/agents/market_maker.py:546-569 | Estimating again with the remembered price gives the same estimate and memory, so the repeated calls within one decision agree |
| MarketMaker.ValidateBidQuantity | MASFinancialMarketLaboratory/agents/agents/market_maker.py:588-603 | The validated bid lies between 0 and the request. It is affordable with fee at the remembered price, and one more share is not (unless the request is met). It is positive whenever a request is positive and one share is affordable |
| MarketMaker.ValidateAskQuantity | MASFinancialMarketLaboratory/agents/agents/market_maker.py:605-611 | A positive ask is clamped to the shares held (the request or the holding); a non-positive request gives 0 |
| MarketMaker.HasEquivalentWorkingOrder | MASFinancialMarketLaboratory/agents/agents/market_maker.py:472-491 | True iff the side's cache holds a working order of that side within the equivalence tolerance of the target |
| MarketMaker.CancelAllOrders | MASFinancialMarketLaboratory/agents/agents/market_maker.py:453-470 | Only cancels. First one cancel for each working bid, in the order the bid cache holds them; then one for each working ask, in the ask cache's order. Nothing else is cancelled, and with distinct ids across the caches no order is cancelled twice |
| MarketMaker.CancelNonEquivalentOrders | MASFinancialMarketLaboratory/agents/agents/market_maker.py:493-513 | The cancels are exactly the working orders of either side that are not equivalent to the new target of their side |
| MarketMaker.SelectiveStabilizeCancel | MASFinancialMarketLaboratory/agents/agents/market_maker.py:515-544 | Below target exactly the non-equivalent working bids are cancelled; at or above target exactly the non-equivalent working asks |
| MarketMaker.SupportiveSideNeverCancelled | MASFinancialMarketLaboratory/agents/agents/market_maker.py:515-544 | When bid and ask ids are distinct, no order of the rebalancing side is ever cancelled by the stabilize step |
| MarketMaker.PanicSell | MASFinancialMarketLaboratory/agents/agents/market_maker.py:182-204 | With shares, a limit sell of min(shares, 3 × order size) at 5 spreads under the estimate, floored at 0.01; without shares nothing happens and no price is estimated |
| MarketMaker.PanicBuy | MASFinancialMarketLaboratory/agents/agents/market_maker.py:206-234 | With cash, a buy exists iff the order size is positive and one share is affordable, with fee, at 5 spreads over the estimate. The buy is a limit order at that price for the largest affordable quantity up to 3 × order size, and the estimate becomes the last mid price. Without cash nothing happens |
| MarketMaker.AffordableUpTo | MASFinancialMarketLaboratory/agents/agents/market_maker.py:217-223 | The quantity never exceeds the cap. It is positive iff the cap is positive and one share is affordable; a positive quantity is affordable; and below the cap, one more share is not affordable |
| MarketMaker.SurviveLayer | MASFinancialMarketLaboratory/agents/agents/market_maker.py:160-180 | The batch is the cancels of `CancelAllOrders`, in order, followed by exactly one more action iff a panic order is due. That action is the panic order of the breached side. The mid price is remembered, nothing else in the state changes, and no deposit is requested |
| MarketMaker.PanicOrder | MASFinancialMarketLaboratory/agents/agents/market_maker.py:160-180 | A panic order is due iff the ratio is below the lower bound with shares held, or above the upper bound with cash and an affordable share. The order is then the panic sell (min(shares, 3 × order size), at 5 spreads under the estimate floored at 0.01) or the maximal affordable panic buy |
| MarketMaker.SkewedPrices | MASFinancialMarketLaboratory/agents/agents/market_maker.py:303-323 | The bid is the larger of 0.01 and the skew-shifted centre minus half a spread and one fee; the ask is the larger of 0.01 and the centre plus the same amount. The bid is never above the ask, and the shift follows the sign of the skew and is at most half a spread |
| MarketMaker.SupportiveMultiplier | MASFinancialMarketLaboratory/agents/agents/market_maker.py:329-333 | The size multiplier of the rebalancing side lies in [2, 3] |
| MarketMaker.RiskMultiplier | MASFinancialMarketLaboratory/agents/agents/market_maker.py:329-334 | The size multiplier of the side that adds to the imbalance lies in [0.25, 0.5] |
| MarketMaker.SkewedQuantities | MASFinancialMarketLaboratory/agents/agents/market_maker.py:325-349 | With too much cash (ratio above target) the bid is the validated supportive size and the ask the validated risk size; otherwise the bid is the validated risk size and the ask the validated supportive size. So the bid is affordable and the ask is held |
| MarketMaker.SizesFavourRebalancing | MASFinancialMarketLaboratory/agents/agents/market_maker.py:325-349 | The supportive side is offered at least twice the order size, and the risk side at most half of it |
| MarketMaker.StabilizeLayer | MASFinancialMarketLaboratory/agents/agents/market_maker.py:243-291 | The selective cancels of the risk side come first. Then comes a bid at the skewed bid target iff its validated skewed size is positive and no equivalent working bid exists, and likewise an ask; the bid comes before the ask. Each quote is sound, and the estimate is remembered as the last mid price |
| MarketMaker.StabilizeLayerCancelsRiskSide | MASFinancialMarketLaboratory/agents/agents/market_maker.py:243-291 | Every cancel STABILIZE emits names an order of the risk-side cache |
| MarketMaker.ProvidePrices | MASFinancialMarketLaboratory/agents/agents/market_maker.py:404-416 | The quotes sit half a spread plus half the round-trip fee either side of the mid price, floored at 0.01. Unfloored, they are symmetric about the mid |
| MarketMaker.ShouldRefreshQuotes | MASFinancialMarketLaboratory/agents/agents/market_maker.py:418-451 | The first quote always refreshes. While fewer than `wait_time` ticks have passed, nothing refreshes. After that, a refresh happens iff there was a fill, a layer change, drift beyond the threshold, or a side without a working order |
| MarketMaker.ProvideLayer | MASFinancialMarketLaboratory/agents/agents/market_maker.py:351-402 | Nothing when the quotes would cross or no refresh is due. Otherwise the non-equivalent cancels come first, then exactly the quotes still needed: a bid iff its validated size is positive and no equivalent working bid exists, likewise an ask, bid first. The quote tick and mid are recorded iff something was sent |
| MarketMaker.ProvideLayerNeverCrosses | MASFinancialMarketLaboratory/agents/agents/market_maker.py:351-402 | Every bid PROVIDE places is below every ask of the same batch |
| MarketMaker.RunLayer | MASFinancialMarketLaboratory/agents/agents/market_maker.py:117-123 | Whichever layer runs, the caches and layer are unchanged, the remembered price stays positive, and no deposit is requested |
| MarketMaker.EnterTick | MASFinancialMarketLaboratory/agents/agents/market_maker.py:95-114 | The global tick is macro × micro-ticks-per-macro + micro. The layer is recomputed, and the change flag is set iff the layer differs or the ratio crossed the target |
| MarketMaker.Decide | MASFinancialMarketLaboratory/agents/agents/market_maker.py:89-123 | The intents are exactly the actions of the layer the inventory ratio selects, in order, numbered consecutively from the counter. The state is that layer's state with the counter advanced. It keeps the invariant, never requests a deposit, records the chosen layer, and leaves the caches untouched |
| MarketMaker.DecideSurvivePriority | MASFinancialMarketLaboratory/agents/agents/market_maker.py:117-118 | When a risk bound is breached, the batch is every cancel of `CancelAllOrders` followed by exactly one more intent iff a panic order is due, whatever the other layers would do |
| MarketMaker.DecideStabilizeCancelsRiskSide | MASFinancialMarketLaboratory/agents/agents/market_maker.py:120-121 | In STABILIZE every cancel names a bid when below target and an ask otherwise |
| MarketMaker.DecideProvideNeverCrosses | MASFinancialMarketLaboratory/agents/agents/market_maker.py:123 | In PROVIDE the decision never quotes a bid at or above an ask |
| MarketMaker.FirstDecideProvidesTwoQuotes | MASFinancialMarketLaboratory/agents/agents/market_maker.py:351-416 | Worked case: a first PROVIDE decision at price 10 quotes a bid of 8.99 and an ask of 11.01 for 10 shares each, symmetric about the mid |
| MarketMaker.DecideProvideWaits | MASFinancialMarketLaboratory/agents/agents/market_maker.py:418-426 | Within `wait_time` of the last quote PROVIDE emits nothing, even after a fill or a layer change |
| MarketMaker.FileResults | MASFinancialMarketLaboratory/agents/agents/market_maker.py:137-144 | Every returned order is filed under its id, buys with the bids and everything else with the asks. For each id the last reply is the one kept, and nothing else enters a cache |
| MarketMaker.PurgeDone | MASFinancialMarketLaboratory/agents/agents/market_maker.py:613-625 | Exactly the done orders are dropped, and the fill flag is true iff one of them ended filled |
| MarketMaker.Update | MASFinancialMarketLaboratory/agents/agents/market_maker.py:134-146 | The caches become the filed results minus done orders, the fill flag is set iff a purged order was filled, and nothing else changes |
| MarketMaker.UpdateKeepsLastResults | MASFinancialMarketLaboratory/agents/agents/market_maker.py:134-146 | The last working reply for an id is in its side's cache after `update`, and, for well-formed caches, the id of a last reply that is done is no longer a key of its side's cache |
| MarketMaker.UpdateLeavesNoDoneOrders | MASFinancialMarketLaboratory/agents/agents/market_maker.py:134-146 | After `update` both caches hold only working orders |
| MarketMaker.UpdateKeepsInvariant | MASFinancialMarketLaboratory/agents/agents/market_maker.py:134-146 | `update` preserves the invariant `decide` relies on |
| ValueInvestor.Init | MASFinancialMarketLaboratory/agents/agents/value_investor.py:85-95 | Optimism starts at its initial value, intention WAIT, counter 0, empty books. Initial capital is cash plus shares valued at a fixed 100.0 |
| ValueInvestor.InitInvariant | MASFinancialMarketLaboratory/agents/agents/value_investor.py:85-95 | A freshly constructed value investor satisfies the decision invariant |
| ValueInvestor.BeliefFrom | MASFinancialMarketLaboratory/agents/agents/value_investor.py:130-144 | The belief interpolates the fair-value interval: optimism 0 gives the low end and 1 the high end |
| ValueInvestor.BeliefInInterval | MASFinancialMarketLaboratory/agents/agents/value_investor.py:130-144 | An optimism in [0, 1] keeps the belief inside the fair-value interval |
| ValueInvestor.BeliefMonotone | MASFinancialMarketLaboratory/agents/agents/value_investor.py:130-144 | A more optimistic investor never believes in a lower value |
| ValueInvestor.UpdatedOptimism | MASFinancialMarketLaboratory/agents/agents/value_investor.py:146-158 | A profit gives min(1, optimism + delta), a loss max(0, optimism − delta), and a flat PnL keeps the optimism |
| ValueInvestor.OptimismBounded | MASFinancialMarketLaboratory/agents/agents/value_investor.py:146-158 | Optimism stays in [0, 1], never falls after a profit and never rises after a loss |
| ValueInvestor.EstimateMarketPrice | MASFinancialMarketLaboratory/agents/agents/value_investor.py:356-369 | Mid price, else last traded price, else the remembered price; the estimate is what is remembered |
| ValueInvestor.EstimateMarketPriceIdempotent | MASFinancialMarketLaboratory/agents/agents/value_investor.py:356-369 | Estimating again within one decision gives the same price and memory |
| ValueInvestor.PerceivedPnl | MASFinancialMarketLaboratory/agents/agents/value_investor.py:160-171 | The PnL plus the initial capital is the wealth at the estimate, or at the belief when there is no estimate |
| ValueInvestor.Mispricing | MASFinancialMarketLaboratory/agents/agents/value_investor.py:173-184 | mispricing × belief = belief − price for a positive price; 0 otherwise |
| ValueInvestor.MispricingSign | MASFinancialMarketLaboratory/agents/agents/value_investor.py:173-184 | For a positive belief the market is undervalued iff the price is below the belief, and overvalued iff above |
| ValueInvestor.PositionFraction | MASFinancialMarketLaboratory/agents/agents/value_investor.py:186-200 | The fraction × wealth is the stock value at the remembered price; 0 without a price or positive wealth |
| ValueInvestor.PositionFractionInUnitInterval | MASFinancialMarketLaboratory/agents/agents/value_investor.py:186-200 | For a non-negative account the fraction lies in [0, 1] |
| ValueInvestor.BestIndex | MASFinancialMarketLaboratory/agents/agents/value_investor.py:210-221 | The chosen term scores at least as well as every term and strictly better than every earlier one (first best wins) |
| ValueInvestor.DepositOpportunity | MASFinancialMarketLaboratory/agents/agents/value_investor.py:202-230 | Nothing without rates. Otherwise the first best-scoring term, offered iff its term is non-zero and its rate reaches the affinity; an offer is always one of the listed rates |
| ValueInvestor.OpportunityIsFirstBest | MASFinancialMarketLaboratory/agents/agents/value_investor.py:202-230 | An offered deposit is a listed term that scores at least as well as all offers and strictly better than all before it |
| ValueInvestor.SelectIntention | MASFinancialMarketLaboratory/agents/agents/value_investor.py:232-259 | Strict priority, each intention stated as an iff: ACCUMULATE, then DISTRIBUTE, then PARK_CAPITAL (an opportunity and a cash share above 0.2), else WAIT |
| ValueInvestor.ExecuteAccumulate | MASFinancialMarketLaboratory/agents/agents/value_investor.py:279-305 | At most one limit buy at the discounted estimate. It is the largest affordable quantity up to the maximum order size, and it exists whenever one share is affordable |
| ValueInvestor.ExecuteDistribute | MASFinancialMarketLaboratory/agents/agents/value_investor.py:307-329 | With shares and a price, exactly one limit sell at the premium price of min(shares, maximum order size); otherwise nothing |
| ValueInvestor.DepositAmount | MASFinancialMarketLaboratory/agents/agents/value_investor.py:342-345 | The parked amount is positive for positive cash and fraction, and never exceeds the cash for a fraction ≤ 1 |
| ValueInvestor.ExecutePark | MASFinancialMarketLaboratory/agents/agents/value_investor.py:331-354 | At most one deposit of the configured fraction of the cash, for the chosen term, with a positive amount; nothing without cash or opportunity |
| ValueInvestor.ExecuteIntention | MASFinancialMarketLaboratory/agents/agents/value_investor.py:261-277 | WAIT emits nothing; every other intention emits at most one action, of the matching kind (buy iff ACCUMULATE, sell iff DISTRIBUTE, deposit iff PARK_CAPITAL), never a cancel. The action exists whenever its executor's conditions hold: an affordable share at a known price, shares at a known price, or cash, an opportunity and a positive fraction |
| ValueInvestor.Decide | MASFinancialMarketLaboratory/agents/agents/value_investor.py:105-117 | Keeps the invariant and emits at most one intent, numbered from the counter. The intention is the one `SelectIntention` picks from the new belief, estimate and opportunity, and the intents are exactly what executing it yields. Belief, optimism, PnL and remembered price follow the update order of the source; nothing else changes |
| ValueInvestor.DecideKeepsOptimismBounded | MASFinancialMarketLaboratory/agents/agents/value_investor.py:105-117 | Across decisions optimism stays in [0, 1] and the belief inside the fair-value interval |
| ValueInvestor.DecideActsOnIntention | MASFinancialMarketLaboratory/agents/agents/value_investor.py:105-117 | The single intent is a buy iff ACCUMULATE, a sell iff DISTRIBUTE, and a deposit iff PARK_CAPITAL |
| ValueInvestor.RecordDeposits | MASFinancialMarketLaboratory/agents/agents/value_investor.py:121-123 | Every returned deposit is recorded under its deposit id, the last reply for an id being the one kept, and nothing else is added |
| ValueInvestor.Update | MASFinancialMarketLaboratory/agents/agents/value_investor.py:120-127 | The recorded deposits and orders grow by exactly the returned ids, the last reply for each id is the one recorded, and nothing else changes |
| ValueInvestor.UpdateNeverForgets | MASFinancialMarketLaboratory/agents/agents/value_investor.py:120-127 | Recorded ids are never lost, and the invariant is kept |
| ValueInvestor.CleanupMaturedDeposits | MASFinancialMarketLaboratory/agents/agents/value_investor.py:371-375 | Keeps exactly the deposits not yet matured |
| MomentumTrader.InitInvariant | MASFinancialMarketLaboratory/agents/agents/momentum_trader.py:33-63 | A fresh momentum trader has an empty history and cache, which satisfy the invariant |
| MomentumTrader.CurrentPrice | MASFinancialMarketLaboratory/agents/agents/momentum_trader.py:106-120 | Last traded price, else mid, else micro price; a price exists iff one of them does, and it is positive on valid data |
| MomentumTrader.ObservePrice | MASFinancialMarketLaboratory/agents/agents/momentum_trader.py:95-104 | Appends the current price if any, drops the oldest beyond the window, and keeps the history within the window and positive |
| MomentumTrader.ObserveKeepsLatest | MASFinancialMarketLaboratory/agents/agents/momentum_trader.py:95-104 | Within the window, one observation leaves the latest `momentum_window` prices |
| MomentumTrader.HistoryHoldsLatestPrices | MASFinancialMarketLaboratory/agents/agents/momentum_trader.py:95-104 | From empty, after any run of observations the history is the latest `momentum_window` prices seen |
| MomentumTrader.CalculateMomentumSignal | MASFinancialMarketLaboratory/agents/agents/momentum_trader.py:122-146 | The loop computes the recency-weighted average return defined independently as `Momentum` |
| MomentumTrader.MomentumSign | MASFinancialMarketLaboratory/agents/agents/momentum_trader.py:122-146 | Strictly rising prices give positive momentum, strictly falling ones negative, and flat ones zero |
| MomentumTrader.EvaluateSignal | MASFinancialMarketLaboratory/agents/agents/momentum_trader.py:153-164 | Each signal stated as an iff: long above the entry threshold, short below its negative, exit inside the exit band, else hold |
| MomentumTrader.SignalSymmetric | MASFinancialMarketLaboratory/agents/agents/momentum_trader.py:148-164 | Negating the momentum swaps long and short and keeps exit and hold; a long needs positive momentum and a short negative |
| MomentumTrader.Amplifier | MASFinancialMarketLaboratory/agents/agents/momentum_trader.py:166-192 | 1 for an empty book. Otherwise the clamp of baseline / liquidity into [0.5, 2], and exactly baseline / liquidity when that lies inside the band. A zero baseline with liquidity raises ZeroDivisionError, and only then |
| MomentumTrader.AmplifierAntitone | MASFinancialMarketLaboratory/agents/agents/momentum_trader.py:166-192 | More displayed liquidity never amplifies more |
| MomentumTrader.LongOrder | MASFinancialMarketLaboratory/agents/agents/momentum_trader.py:229-249 | A market buy exists iff there is a shortfall and one share is affordable. It is at most the shortfall, affordable, and maximal when it falls short |
| MomentumTrader.EnterLongOrder | MASFinancialMarketLaboratory/agents/agents/momentum_trader.py:208-250 | Raises iff a price exists and the amplifier raises. Nothing without a price; otherwise the long order for the amplified target shortfall |
| MomentumTrader.ShortOrder | MASFinancialMarketLaboratory/agents/agents/momentum_trader.py:269-285 | A market sell exists iff the scaled holding reaches one share. Its quantity is min(int(scaled), shares): never more than the scaled holding or the holding, and below the holding one more share would exceed the scaled holding |
| MomentumTrader.EnterShortOrder | MASFinancialMarketLaboratory/agents/agents/momentum_trader.py:252-286 | Raises iff shares, a price and a raising amplifier coincide. Nothing without shares or price; otherwise the short order of the aggressiveness-scaled holding |
| MomentumTrader.ShortEntrySellsAllWhenAggressive | MASFinancialMarketLaboratory/agents/agents/momentum_trader.py:252-286 | With effective aggressiveness ≥ 1 a short entry sells the whole holding |
| MomentumTrader.ExitPosition | MASFinancialMarketLaboratory/agents/agents/momentum_trader.py:288-305 | Sells the whole holding at market iff there is one |
| MomentumTrader.ActOnSignal | MASFinancialMarketLaboratory/agents/agents/momentum_trader.py:194-206 | At most one market order: buy iff long entry, sells never exceed holdings, nothing on HOLD. It raises only on an entry with a zero baseline |
| MomentumTrader.Decide | MASFinancialMarketLaboratory/agents/agents/momentum_trader.py:71-85 | Observes the price, then emits exactly the order `ActOnSignal` gives for the signal of the updated history, numbered from the counter; it fails iff that does. It raises only ZeroDivisionError from the amplifier, and keeps the invariant |
| MomentumTrader.DecideFollowsSignal | MASFinancialMarketLaboratory/agents/agents/momentum_trader.py:71-85 | The trade follows the signal of the updated history: a buy iff long entry, nothing on HOLD |
| MomentumTrader.NoBuyAgainstTheTrend | MASFinancialMarketLaboratory/agents/agents/momentum_trader.py:148-164 | Without bias, a long entry needs positive momentum, so a falling or flat history never triggers a buy |
| MomentumTrader.Update | MASFinancialMarketLaboratory/agents/agents/momentum_trader.py:87-93 | Returned orders are recorded under their id and done orders dropped. The last working reply for an id is in the cache, a last done reply's id is not, untouched working orders are kept, and nothing else enters the cache |
| MomentumTrader.UpdateKeepsInvariant | MASFinancialMarketLaboratory/agents/agents/momentum_trader.py:87-93 | `update` preserves the invariant |
| Domain.Stamp | MASFinancialMarketLaboratory/agents/agents/market_maker.py:82-86 | Reading the `intent_id` property once per emitted intent numbers the batch consecutively from the counter, keeping actions and order |
| Domain.StampIdRange | MASFinancialMarketLaboratory/agents/agents/value_investor.py:98-102 | A batch of n stamped intents uses exactly the ids next … next+n−1 |
| Domain.DropDoneOrders | MASFinancialMarketLaboratory/agents/agents/momentum_trader.py:307-310 | Exactly the done orders are dropped |
| Agents.Decide | MASFinancialMarketLaboratory/agents/agents/agent.py:27-30 | Dispatch by kind; the kind, id and invariant are kept. Only ValueInvestors and MomentumTraders raise (ZeroDivisionError). MarketMakers and MomentumTraders never request deposits, and the modelled kinds number their intents from their counter |
| Agents.DecideValueInvestor | MASFinancialMarketLaboratory/agents/agents/value_investor.py:105-117 | A ValueInvestor raises ZeroDivisionError iff its mispricing divides by a zero belief |
| Agents.Update | MASFinancialMarketLaboratory/agents/agents/agent.py:32-34 | `update` keeps the kind, id and invariant, and leaves the intent counter of a MarketMaker, ValueInvestor or MomentumTrader unchanged |
| AgentManager.IdBlock | MASFinancialMarketLaboratory/simulation/core/agent_manager.py:101-102 | The first n agents of a kind get exactly the ids base … base+n−1, where the base is 10000 × (kind position + 1) |
| AgentManager.IdBlocksDisjoint | MASFinancialMarketLaboratory/simulation/core/agent_manager.py:101-102 | Up to 10000 agents per kind, two agents share an id iff they are the same position of the same kind |
| AgentManager.IdBlocksOverlapBeyondLimit | MASFinancialMarketLaboratory/simulation/core/agent_manager.py:101-102 | The 10001st market maker gets the first value investor's id: the blocks collide past 10000 |
| AgentManager.SampleValue | MASFinancialMarketLaboratory/simulation/core/agent_manager.py:73-93 | A sample either succeeds or raises one of AttributeError, IndexError and ValueError |
| AgentManager.ConstantIgnoresGenerator | MASFinancialMarketLaboratory/simulation/core/agent_manager.py:76-77 | A constant distribution yields its `value` regardless of the generator, and raises iff `value` is missing |
| AgentManager.UnknownDistributionRaises | MASFinancialMarketLaboratory/simulation/core/agent_manager.py:93 | Any distribution name other than the four known ones raises ValueError |
| AgentManager.UniformWithinBounds | MASFinancialMarketLaboratory/simulation/core/agent_manager.py:79-82 | A uniform sample lies between its bounds |
| AgentManager.DiscreteIsListed | MASFinancialMarketLaboratory/simulation/core/agent_manager.py:84-86 | A discrete sample is one of the listed values |
| AgentManager.LognormalPositive | MASFinancialMarketLaboratory/simulation/core/agent_manager.py:88-91 | A lognormal sample is positive; it raises iff `mean` or `std` is missing or the mean is not positive |
| AgentManager.CreateAgent | MASFinancialMarketLaboratory/simulation/core/agent_manager.py:101-128 | One iteration: a sampling error propagates, a refused registration raises RuntimeError, and a created agent has the kind and the block id of its position |
| AgentManager.Register | MASFinancialMarketLaboratory/simulation/core/agent_manager.py:127-128 | The agent enters the registry and its own kind's dictionary; the other kinds are untouched |
| AgentManager.RegisterKeepsWellFormed | MASFinancialMarketLaboratory/simulation/core/agent_manager.py:127-128 | Registering a new agent, or replacing one with the same kind and id, keeps every agent filed under exactly its kind |
| AgentManager.RegisterCreated | MASFinancialMarketLaboratory/simulation/core/agent_manager.py:101-128 | The loop stops at the first raising iteration and raises its exception. Otherwise every created agent is registered, in order |
| AgentManager.InitializeGroup | MASFinancialMarketLaboratory/simulation/core/agent_manager.py:96-128 | A kind's loop succeeds iff each of its `count` creations does; a failure is the first failing creation's exception; on success the kind's block is registered |
| AgentManager.RegisterAllWellFormed | MASFinancialMarketLaboratory/simulation/core/agent_manager.py:127-128 | Registering a block of unused ids keeps the registry well formed |
| AgentManager.InitializedShape | MASFinancialMarketLaboratory/simulation/core/agent_manager.py:45-51 | Up to 10000 agents per kind, the initialized registry is well formed and files each kind exactly under its own id block |
| AgentManager.InitializedReady | MASFinancialMarketLaboratory/simulation/core/agent_manager.py:45-51 | With sane sampled parameters every registered agent satisfies its kind's invariant |
| AgentManager.InitializeAgents | MASFinancialMarketLaboratory/simulation/core/agent_manager.py:45-51 | Market makers, then value investors, momentum traders and noise traders. It succeeds iff every creation does; the result is shaped by id blocks and every agent is ready |
| AgentManager.MacroTickAgents | MASFinancialMarketLaboratory/simulation/core/agent_manager.py:240-243 | Every registered agent exactly once, in the shuffled order |
| AgentManager.MicroTickAgents | MASFinancialMarketLaboratory/simulation/core/agent_manager.py:246-253 | Exactly the registered agents not filed as value investors, once each |
| AgentManager.MicroTickSkipsValueInvestors | MASFinancialMarketLaboratory/simulation/core/agent_manager.py:246-253 | In a well-formed registry the micro schedule is exactly the agents that are not ValueInvestors |
| Engine.ProcessIntents | MASFinancialMarketLaboratory/simulation/core/engine.py:104-139 | Each intent is sent in order, and its reply is recorded under its intent id: orders and cancels in the order results, deposits in the deposit results |
| Engine.FeedbackKeysAreIntentIds | MASFinancialMarketLaboratory/simulation/core/engine.py:109-133 | The two result maps are keyed by exactly the batch's intent ids; with distinct ids no id is in both |
| Engine.EveryIntentAnswered | MASFinancialMarketLaboratory/simulation/core/engine.py:112-133 | With distinct ids, every placement holds the market's reply to it, every cancel holds `None`, and every deposit holds its reply |
| Engine.RefreshMacro | MASFinancialMarketLaboratory/simulation/core/engine.py:58-62 | Both shared views are read afresh |
| Engine.RefreshMicro | MASFinancialMarketLaboratory/simulation/core/engine.py:65-68 | Only market data is read afresh; the economy view is kept |
| Engine.BuildView | MASFinancialMarketLaboratory/simulation/core/engine.py:79-91 | Market data for everyone; the economy view iff the agent is a ValueInvestor or MarketMaker |
| Engine.AgentTurn | MASFinancialMarketLaboratory/simulation/core/engine.py:79-101 | A turn carries feedback iff its batch is non-empty, and that feedback is the market's answer keyed by exactly the batch's intent ids, with the requests appended to the log. A successful non-ValueInvestor turn sends no deposit; AssertionError comes only from noise traders. The kind, id, invariant and counter advance are kept, and only MarketMakers never raise |
| Engine.AgentTurnDecidesThenUpdates | MASFinancialMarketLaboratory/simulation/core/engine.py:79-101 | A turn is the agent's `decide` on the view built for it: a raise propagates, an empty batch leaves the agent as decided, a deposit from a non-ValueInvestor raises AssertionError, and otherwise the batch is sent and the decided agent is updated with exactly its feedback |
| Engine.ModelledAgentsHearEveryAnswer | MASFinancialMarketLaboratory/simulation/core/engine.py:93-101 | An updated MarketMaker, ValueInvestor or MomentumTrader gets an answer for every intent it sent |
| Engine.AgentLoop | MASFinancialMarketLaboratory/simulation/core/engine.py:71-101 | The loop's outcome is exactly `RunTurns` over the schedule: every scheduled agent takes its turn in order, and the first raise ends the loop. Without a raise the registry keeps its shape and invariants, unscheduled agents are untouched, and only agent requests are sent. A raise names a scheduled agent of a kind that can raise it |
| Engine.RunTurnsStep | MASFinancialMarketLaboratory/simulation/core/engine.py:79-101 | From any position, a raising turn ends the run with its exception; otherwise the run continues at the next position, with the agent put back into the registry and the turn's log |
| Engine.Schedule | MASFinancialMarketLaboratory/simulation/core/engine.py:41-52 | Micro tick 0 schedules every agent; any other micro tick schedules every agent but the ValueInvestors |
| Engine.ValueInvestorNotScheduled | MASFinancialMarketLaboratory/simulation/core/engine.py:48-52 | No ValueInvestor acts on a micro tick other than 0 |
| Engine.Tick | MASFinancialMarketLaboratory/simulation/core/engine.py:41-52 | The outcome is `RunTurns` over `Schedule` on the refreshed views: on micro tick 0 the session expires first, both views refresh, and the macro list (everyone) acts; otherwise only market data refreshes and the micro list acts. The registry keeps its shape, ValueInvestors are untouched on micro ticks, and only ZeroDivisionError or AssertionError escape |

## Left out

- The market environment (`create_order`, `cancel_order`, `create_deposit`, `register_agent`, `get_market_data`, `get_economy_insight`, `expire_session`) is not part of this model. Replies and views are arbitrary functions of the request log sent so far (`Engine.Environment`), and registration is a function of id, cash and shares (`AgentManager.World`).
- The random generator: `rng.shuffle` is an input permutation, and uniform, lognormal and discrete draws are inputs (`AgentManager.Draw`). Per-agent seeds are not modelled.
- Floating point: prices and cash are mathematical reals. `int()` is modelled as truncation toward zero. `math.log` and `lognormvariate` become a positive input draw.
- The `while True` driver and `step_hybrid_time`: `Engine.Tick` models one pass of `run`'s loop body, and the caller supplies the ticks.
- The wall-clock timestamp of `AgentView` (`time.time()`), every `print`, and `time.sleep` in `initialize_agents`.
- The configuration classes (pydantic schemas, `_get_agent_constants`): the sampled parameters are given as records.
- The NoiseTrader's decision rule: `noise_trader.py` is not part of this model. A noise trader's intents are an input of the environment, and its state is opaque.
- ZeroDivisionError and similar paths are excluded by preconditions rather than modelled:
  - non-positive prices in the market data (`ValidMarketData`, required of every snapshot by `SaneEnvironment`);
  - a fair-value interval that is not positive and ordered, or a maximum deposit term of 0 (`ValidEconomy`);
  - a negative fee rate or spread size (`SaneWorld`, `ParamsOk`).
  - The two divisions that valid data can still reach are modelled as raises: the MomentumTrader's zero liquidity baseline and the ValueInvestor's zero belief.
- AgentManager.InitializedShape: requires at most 10000 agents per kind. Beyond that the id blocks collide and a later kind overwrites an earlier kind's registry entries; `AgentManager.IdBlocksOverlapBeyondLimit` exhibits the collision.
- Engine.Tick: requires usable shared views on a micro tick other than 0. Otherwise a MarketMaker's `decide` would fail its assertion on a missing economy view. The engine always starts on micro tick 0, which establishes them.
- Engine.AgentTurn: models Python `assert` as always enabled. Under `python -O` the deposit assertion is skipped.
- Agents.Decide: the `assert view.agent_id == self.agent_id` and non-`None` view assertions inside each agent's `decide` are preconditions, which the engine's view construction meets (`Engine.BuiltViewFits`).
- MomentumTrader `_apply_directional_bias` is inlined as `Momentum(h) + directionalBias` and has no member of its own.
