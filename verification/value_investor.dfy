/** The value investor: a belief-desire-intention agent. Each decision it
    refreshes its belief about fair value, picks one of four intentions by
    strict priority and executes it as at most one intent. */
module ValueInvestor {
  import opened Wrappers
  import opened Numeric
  import opened Dicts
  import opened Domain

  datatype Intention = Wait | Accumulate | Distribute | ParkCapital

  datatype Params = Params(
    agentId: int,
    initialOptimism: real,
    stubbornness: real,
    beliefUpdateRate: real,
    mispricingThreshold: real,
    maxPositionFraction: real,
    depositAffinity: real,
    depositAllocationFraction: real,
    depositHorizonPreference: real,
    maxOrderSize: int,
    patienceDiscount: real,
    patiencePremium: real)

  datatype State = State(
    optimism: real,
    belief: real,
    perceivedPnl: real,
    initialCapital: real,
    intention: Intention,
    activeDeposits: Dict<DepositView>,
    pendingOrders: Dict<OrderView>,
    lastKnownPrice: Option<real>,
    nextIntentId: int)

  datatype Decision = Decision(state: State, intents: seq<Intent>)

  /** A deposit the investor is willing to make: its term and rate. */
  datatype Opportunity = Opportunity(term: int, rate: real)

  /** The value of a portfolio at `price`. */
  function Wealth(acct: Account, price: real): real
  {
    acct.cash + acct.shares as real * price
  }

  /** A freshly constructed value investor. Its belief starts at 100.0 and its
      initial capital values the shares at a fixed 100.0, not at any market
      price. */
  function Init(p: Params, acct: Account): (s: State)
    ensures s.optimism == p.initialOptimism && s.intention == Wait && s.nextIntentId == 0
    ensures s.initialCapital == Wealth(acct, 100.0) && s.perceivedPnl == 0.0
    ensures s.pendingOrders == [] && s.activeDeposits == [] && s.lastKnownPrice.None?
  {
    State(p.initialOptimism, 100.0, 0.0, acct.cash + acct.shares as real * 100.0, Wait, [], [], None, 0)
  }

  /** A fee rate under which no cost per share is zero, remembered prices that
      are positive and caches without repeated keys. */
  predicate Invariant(c: Constants, s: State)
  {
    && c.feeRate >= 0.0
    && PositivePrice(s.lastKnownPrice)
    && Valid(s.pendingOrders)
    && Valid(s.activeDeposits)
  }

  lemma InitInvariant(p: Params, c: Constants, acct: Account)
    requires c.feeRate >= 0.0
    ensures Invariant(c, Init(p, acct))
  {
  }

  // ---------------------------------------------------------------------
  // Beliefs
  // ---------------------------------------------------------------------

  /** The belief: the point `optimism` of the way through the fair-value
      interval. */
  function BeliefFrom(optimism: real, e: EconomyInsight): (b: real)
    ensures optimism == 0.0 ==> b == e.tvLow
    ensures optimism == 1.0 ==> b == e.tvHigh
  {
    e.tvLow + optimism * (e.tvHigh - e.tvLow)
  }

  /** An optimism in [0, 1] puts the belief inside the fair-value interval. */
  lemma BeliefInInterval(optimism: real, e: EconomyInsight)
    requires e.tvLow <= e.tvHigh && 0.0 <= optimism <= 1.0
    ensures e.tvLow <= BeliefFrom(optimism, e) <= e.tvHigh
  {
    var w := e.tvHigh - e.tvLow;
    MulMonotone(0.0, optimism, w);
    MulMonotone(optimism, 1.0, w);
    assert 0.0 <= optimism * w <= w;
    var b := BeliefFrom(optimism, e);
    assert b == e.tvLow + optimism * w;
    assert b <= e.tvLow + w == e.tvHigh;
  }

  /** A more optimistic investor never believes in a lower fair value. */
  lemma BeliefMonotone(o1: real, o2: real, e: EconomyInsight)
    requires o1 <= o2 && e.tvLow <= e.tvHigh
    ensures BeliefFrom(o1, e) <= BeliefFrom(o2, e)
  {
    var w := e.tvHigh - e.tvLow;
    calc {
      BeliefFrom(o1, e);
    ==
      e.tvLow + o1 * w;
    <=  { AffineMonotone(e.tvLow, o1, o2, w); }
      e.tvLow + o2 * w;
    ==
      BeliefFrom(o2, e);
    }
  }

  /** The step by which a profit or a loss moves optimism. */
  function OptimismDelta(p: Params): real
  {
    p.beliefUpdateRate * (1.0 - p.stubbornness)
  }

  /** `_update_optimism`: a profit raises optimism by the delta, capped at 1; a
      loss lowers it, floored at 0; a flat result leaves it. */
  function UpdatedOptimism(p: Params, optimism: real, pnl: real): (o: real)
    ensures pnl == 0.0 ==> o == optimism
    ensures pnl > 0.0 ==> o <= 1.0 && o <= optimism + OptimismDelta(p) && (o == 1.0 || o == optimism + OptimismDelta(p))
    ensures pnl < 0.0 ==> o >= 0.0 && o >= optimism - OptimismDelta(p) && (o == 0.0 || o == optimism - OptimismDelta(p))
  {
    if pnl > 0.0 then MinReal(1.0, optimism + OptimismDelta(p))
    else if pnl < 0.0 then MaxReal(0.0, optimism - OptimismDelta(p))
    else optimism
  }

  /** With a non-negative delta, optimism stays in [0, 1], never falls after a
      profit and never rises after a loss. */
  lemma OptimismBounded(p: Params, optimism: real, pnl: real)
    requires OptimismDelta(p) >= 0.0 && 0.0 <= optimism <= 1.0
    ensures 0.0 <= UpdatedOptimism(p, optimism, pnl) <= 1.0
    ensures pnl > 0.0 ==> UpdatedOptimism(p, optimism, pnl) >= optimism
    ensures pnl < 0.0 ==> UpdatedOptimism(p, optimism, pnl) <= optimism
  {
  }

  /** `_estimate_market_price`: the mid price, else the last traded price
      (either is remembered), else the remembered price. Returns the estimate
      and the new remembered price. */
  function EstimateMarketPrice(md: MarketData, lastKnown: Option<real>): (r: (Option<real>, Option<real>))
    ensures md.midPrice.Some? ==> r == (md.midPrice, md.midPrice)
    ensures md.midPrice.None? && md.lastTradedPrice.Some? ==> r == (md.lastTradedPrice, md.lastTradedPrice)
    ensures md.midPrice.None? && md.lastTradedPrice.None? ==> r == (lastKnown, lastKnown)
    ensures r.0 == r.1
  {
    if md.midPrice.Some? then (md.midPrice, md.midPrice)
    else if md.lastTradedPrice.Some? then (md.lastTradedPrice, md.lastTradedPrice)
    else (lastKnown, lastKnown)
  }

  /** Estimating again within the same decision yields the same price and
      remembers the same price, so the repeated calls in `decide` agree. */
  lemma EstimateMarketPriceIdempotent(md: MarketData, lastKnown: Option<real>)
    ensures var (price, known) := EstimateMarketPrice(md, lastKnown);
      EstimateMarketPrice(md, known) == (price, known)
  {
  }

  /** `_update_perceived_pnl`: the portfolio valued at the estimate (or at the
      belief when there is none) minus the initial capital. */
  function PerceivedPnl(acct: Account, price: Option<real>, belief: real, initialCapital: real): (pnl: real)
    ensures pnl + initialCapital == Wealth(acct, price.GetOr(belief))
  {
    acct.cash + acct.shares as real * price.GetOr(belief) - initialCapital
  }

  // ---------------------------------------------------------------------
  // Desires
  // ---------------------------------------------------------------------

  /** `_calculate_mispricing`: (belief - price) / belief, 0 when there is no
      positive price. Positive means undervalued. */
  function Mispricing(belief: real, price: Option<real>): (m: real)
    requires price.Some? && price.value > 0.0 ==> belief != 0.0
    ensures price.None? || price.value <= 0.0 ==> m == 0.0
    ensures price.Some? && price.value > 0.0 ==> m * belief == belief - price.value
  {
    if price.None? || price.value <= 0.0 then 0.0
    else (belief - price.value) / belief
  }

  /** For a positive belief, the market looks undervalued exactly when the
      price is below the belief and overvalued exactly when above. */
  lemma MispricingSign(belief: real, price: real)
    requires belief > 0.0 && price > 0.0
    ensures Mispricing(belief, Some(price)) > 0.0 <==> price < belief
    ensures Mispricing(belief, Some(price)) < 0.0 <==> price > belief
  {
    var m := Mispricing(belief, Some(price));
    assert m == (belief - price) / belief;
  }

  /** `_calculate_position_fraction`: the share of wealth held in stock at the
      remembered price; 0 without a price or with non-positive wealth. */
  function PositionFraction(acct: Account, lastKnown: Option<real>): (f: real)
    ensures lastKnown.None? ==> f == 0.0
    ensures lastKnown.Some? && Wealth(acct, lastKnown.value) <= 0.0 ==> f == 0.0
    ensures lastKnown.Some? && Wealth(acct, lastKnown.value) > 0.0 ==>
      f * Wealth(acct, lastKnown.value) == acct.shares as real * lastKnown.value
  {
    match lastKnown
    case None => 0.0
    case Some(price) =>
      var held := acct.shares as real * price;
      var total := acct.cash + held;
      assert total == Wealth(acct, price);
      if total <= 0.0 then 0.0 else
        var f := held / total;
        assert f * total == held;
        f
  }

  /** With non-negative cash and shares and a positive price the position
      fraction lies in [0, 1]. */
  lemma PositionFractionInUnitInterval(acct: Account, lastKnown: Option<real>)
    requires acct.cash >= 0.0 && acct.shares >= 0 && PositivePrice(lastKnown)
    ensures 0.0 <= PositionFraction(acct, lastKnown) <= 1.0
  {
    if lastKnown.Some? && Wealth(acct, lastKnown.value) > 0.0 {
      var held := acct.shares as real * lastKnown.value;
      var total := Wealth(acct, lastKnown.value);
      assert held >= 0.0 && held <= total;
      DivUnit(held, total);
      assert PositionFraction(acct, lastKnown) == held / total;
    }
  }

  /** The score of a deposit: its rate minus a horizon penalty that grows with
      the term relative to the longest term on offer. */
  function Score(p: Params, term: int, rate: real, maxTerm: int): real
    requires maxTerm != 0
  {
    rate - (1.0 - p.depositHorizonPreference) * (term as real / maxTerm as real)
  }

  /** The position of the first best-scoring entry among the first `n`
      entries: a later entry replaces the best only with a strictly higher
      score. */
  function BestIndex(p: Params, rates: Dict<real>, maxTerm: int, n: nat): (b: nat)
    requires 0 < n <= |rates| && maxTerm != 0
    ensures b < n
    ensures forall i :: 0 <= i < n ==> Score(p, rates[i].0, rates[i].1, maxTerm) <= Score(p, rates[b].0, rates[b].1, maxTerm)
    ensures forall i :: 0 <= i < b ==> Score(p, rates[i].0, rates[i].1, maxTerm) < Score(p, rates[b].0, rates[b].1, maxTerm)
  {
    if n == 1 then 0
    else
      var b := BestIndex(p, rates, maxTerm, n - 1);
      if Score(p, rates[n - 1].0, rates[n - 1].1, maxTerm) > Score(p, rates[b].0, rates[b].1, maxTerm) then n - 1
      else b
  }

  /** `_evaluate_deposit_opportunity`: the first best-scoring term, offered
      only when its rate reaches the deposit affinity. A best term of 0 counts
      as no opportunity (the source tests the term's truthiness). */
  function DepositOpportunity(p: Params, e: EconomyInsight): (r: Option<Opportunity>)
    requires ValidEconomy(e)
    ensures |e.depositRates| == 0 ==> r.None?
    ensures |e.depositRates| > 0 ==>
      var rates := e.depositRates;
      var b := BestIndex(p, rates, MaxTerm(rates), |rates|);
      r == (if rates[b].0 != 0 && rates[b].1 >= p.depositAffinity then Some(Opportunity(rates[b].0, rates[b].1)) else None)
    ensures r.Some? ==>
      (r.value.term, r.value.rate) in e.depositRates && r.value.term != 0 && r.value.rate >= p.depositAffinity
  {
    var rates := e.depositRates;
    if |rates| == 0 then None
    else
      var best := BestIndex(p, rates, MaxTerm(rates), |rates|);
      var term := rates[best].0;
      if term != 0 then
        assert (term, rates[best].1) in rates;
        GetEntry(rates, term, rates[best].1);
        var rate := Get(rates, term).value;
        if rate >= p.depositAffinity then Some(Opportunity(term, rate)) else None
      else None
  }

  /** Whatever opportunity is chosen scores at least as well as every term on
      offer, and strictly better than every term listed before it. */
  lemma OpportunityIsFirstBest(p: Params, e: EconomyInsight)
    requires ValidEconomy(e) && DepositOpportunity(p, e).Some?
    ensures var o := DepositOpportunity(p, e).value;
      var m := MaxTerm(e.depositRates);
      exists k :: 0 <= k < |e.depositRates| && e.depositRates[k] == (o.term, o.rate)
        && (forall i :: 0 <= i < |e.depositRates| ==>
              Score(p, e.depositRates[i].0, e.depositRates[i].1, m) <= Score(p, o.term, o.rate, m))
        && (forall i :: 0 <= i < k ==>
              Score(p, e.depositRates[i].0, e.depositRates[i].1, m) < Score(p, o.term, o.rate, m))
  {
    var rates := e.depositRates;
    var b := BestIndex(p, rates, MaxTerm(rates), |rates|);
    assert rates[b] == (DepositOpportunity(p, e).value.term, DepositOpportunity(p, e).value.rate);
  }

  // ---------------------------------------------------------------------
  // Intentions
  // ---------------------------------------------------------------------

  /** `_select_intention`: strict priority ACCUMULATE > DISTRIBUTE >
      PARK_CAPITAL > WAIT. */
  function SelectIntention(p: Params, acct: Account, mispricing: real, fraction: real,
                           opportunity: Option<Opportunity>, lastKnown: Option<real>): (i: Intention)
    ensures i == Accumulate <==> mispricing > p.mispricingThreshold && fraction < p.maxPositionFraction
    ensures i == Distribute <==>
      !(mispricing > p.mispricingThreshold && fraction < p.maxPositionFraction)
      && mispricing < -p.mispricingThreshold && fraction > 0.1
    ensures i == ParkCapital <==>
      !(mispricing > p.mispricingThreshold && fraction < p.maxPositionFraction)
      && !(mispricing < -p.mispricingThreshold && fraction > 0.1)
      && opportunity.Some? && lastKnown.Some?
      && Wealth(acct, lastKnown.value) > 0.0 && acct.cash / Wealth(acct, lastKnown.value) > 0.2
  {
    if mispricing > p.mispricingThreshold && fraction < p.maxPositionFraction then Accumulate
    else if mispricing < -p.mispricingThreshold && fraction > 0.1 then Distribute
    else if opportunity.Some? && lastKnown.Some? &&
            (var total := acct.cash + acct.shares as real * lastKnown.value;
             total > 0.0 && acct.cash / total > 0.2)
    then ParkCapital
    else Wait
  }

  /** `_execute_accumulate`: a limit buy below the estimate of as many shares
      as the cash pays for at the estimate plus fee, at most the maximum order
      size; nothing without cash, price or a positive quantity. */
  function ExecuteAccumulate(p: Params, c: Constants, acct: Account, price: Option<real>): (r: seq<Action>)
    requires c.feeRate >= 0.0 && PositivePrice(price)
    ensures |r| <= 1
    ensures acct.cash <= 0.0 || price.None? || p.maxOrderSize <= 0 ==> r == []
    ensures |r| == 1 ==> var a := r[0];
      && a.PlaceOrder? && a.side == Buy && a.orderType == Limit
      && 0 < a.quantity <= p.maxOrderSize
      && price.Some? && a.price == Some(price.value * (1.0 - p.patienceDiscount))
      && Affordable(a.quantity, price.value, c.feeRate, acct.cash)
      && (a.quantity == p.maxOrderSize || !Affordable(a.quantity + 1, price.value, c.feeRate, acct.cash))
    ensures acct.cash > 0.0 && price.Some? && p.maxOrderSize > 0 && CostPerShare(price.value, c.feeRate) <= acct.cash ==> |r| == 1
  {
    if acct.cash <= 0.0 then []
    else if price.None? then []
    else
      var unit := CostPerShare(price.value, c.feeRate);
      AffordableQuantity(acct.cash, unit);
      var quantity := MinInt(Trunc(acct.cash / unit), p.maxOrderSize);
      if quantity <= 0 then []
      else
        assert quantity as real * unit <= acct.cash by {
          MulMonotone(quantity as real, Trunc(acct.cash / unit) as real, unit);
        }
        [PlaceOrder(Buy, Limit, quantity, Some(price.value * (1.0 - p.patienceDiscount)))]
  }

  /** `_execute_distribute`: a limit sell above the estimate of the holdings,
      at most the maximum order size. The quantity is not checked to be
      positive, as in the source. */
  function ExecuteDistribute(p: Params, acct: Account, price: Option<real>): (r: seq<Action>)
    ensures |r| <= 1
    ensures acct.shares <= 0 || price.None? ==> r == []
    ensures acct.shares > 0 && price.Some? ==> |r| == 1
    ensures |r| == 1 ==> var a := r[0];
      && a.PlaceOrder? && a.side == Sell && a.orderType == Limit
      && a.quantity <= acct.shares && a.quantity <= p.maxOrderSize
      && (a.quantity == acct.shares || a.quantity == p.maxOrderSize)
      && price.Some? && a.price == Some(price.value * (1.0 + p.patiencePremium))
  {
    if acct.shares <= 0 then []
    else if price.None? then []
    else [PlaceOrder(Sell, Limit, MinInt(acct.shares, p.maxOrderSize), Some(price.value * (1.0 + p.patiencePremium)))]
  }

  /** The amount parked: the configured fraction of the cash. It is positive
      for positive cash and fraction, and a fraction of at most 1 never parks
      more than the cash. */
  function DepositAmount(cash: real, fraction: real): (a: real)
    ensures cash > 0.0 && fraction > 0.0 ==> a > 0.0
    ensures cash >= 0.0 && fraction <= 1.0 ==> a <= cash
  {
    if cash >= 0.0 then FractionAtMost(cash, fraction); cash * fraction
    else cash * fraction
  }

  /** `_execute_park_capital`: a deposit of the configured fraction of the
      cash for the chosen term; nothing without cash, opportunity or a
      positive amount. */
  function ExecutePark(p: Params, acct: Account, opportunity: Option<Opportunity>): (r: seq<Action>)
    ensures |r| <= 1
    ensures acct.cash <= 0.0 || opportunity.None? ==> r == []
    ensures |r| == 1 ==>
      && opportunity.Some?
      && r[0] == CreateDeposit(DepositAmount(acct.cash, p.depositAllocationFraction), opportunity.value.term)
      && r[0].amount > 0.0
    ensures acct.cash > 0.0 && opportunity.Some? && p.depositAllocationFraction > 0.0 ==> |r| == 1
    ensures |r| == 1 && p.depositAllocationFraction <= 1.0 ==> r[0].amount <= acct.cash
  {
    if acct.cash <= 0.0 then []
    else if opportunity.None? then []
    else
      var amount := DepositAmount(acct.cash, p.depositAllocationFraction);
      if amount <= 0.0 then []
      else [CreateDeposit(amount, opportunity.value.term)]
  }

  /** `_execute_intention`. */
  function ExecuteIntention(p: Params, c: Constants, acct: Account, intention: Intention,
                            price: Option<real>, opportunity: Option<Opportunity>): (r: seq<Action>)
    requires c.feeRate >= 0.0 && PositivePrice(price)
    ensures |r| <= 1
    ensures intention == Wait ==> r == []
    ensures (intention == Accumulate && acct.cash > 0.0 && price.Some? && p.maxOrderSize > 0
             && CostPerShare(price.value, c.feeRate) <= acct.cash) ==> |r| == 1
    ensures intention == Distribute && acct.shares > 0 && price.Some? ==> |r| == 1
    ensures intention == ParkCapital && acct.cash > 0.0 && opportunity.Some? && p.depositAllocationFraction > 0.0 ==> |r| == 1
    ensures forall a :: a in r ==>
      && (a.PlaceOrder? && a.side == Buy <==> intention == Accumulate)
      && (a.PlaceOrder? && a.side == Sell <==> intention == Distribute)
      && (a.CreateDeposit? <==> intention == ParkCapital)
      && !a.CancelOrder?
  {
    match intention
    case Wait => []
    case Accumulate => ExecuteAccumulate(p, c, acct, price)
    case Distribute => ExecuteDistribute(p, acct, price)
    case ParkCapital => ExecutePark(p, acct, opportunity)
  }

  // ---------------------------------------------------------------------
  // decide / update
  // ---------------------------------------------------------------------

  /** The mispricing would divide by a zero belief: a positive price is quoted
      and the new belief is 0 (Python raises ZeroDivisionError). */
  predicate DividesByZeroBelief(s: State, md: MarketData, e: EconomyInsight)
  {
    var price := EstimateMarketPrice(md, s.lastKnownPrice).0;
    price.Some? && price.value > 0.0 && BeliefFrom(s.optimism, e) == 0.0
  }

  /** `decide`: update beliefs (the belief from the optimism held before this
      decision, then the optimism from the previous decision's perceived PnL,
      then the new PnL), select the intention and execute it. The repeated
      price estimates inside the source all agree (see
      `EstimateMarketPriceIdempotent`), so the estimate is taken once. */
  function Decide(p: Params, c: Constants, acct: Account, s: State, view: AgentView): (r: Decision)
    requires view.agentId == p.agentId && view.marketData.Some? && view.economy.Some?
    requires Invariant(c, s) && ValidMarketData(view.marketData.value) && ValidEconomy(view.economy.value)
    requires !DividesByZeroBelief(s, view.marketData.value, view.economy.value)
    ensures Invariant(c, r.state)
    ensures |r.intents| <= 1
    ensures r.state.nextIntentId == s.nextIntentId + |r.intents|
    ensures |r.intents| == 1 ==> r.intents[0].intentId == s.nextIntentId
    ensures r.state.belief == BeliefFrom(s.optimism, view.economy.value)
    ensures r.state.optimism == UpdatedOptimism(p, s.optimism, s.perceivedPnl)
    ensures r.state.lastKnownPrice == EstimateMarketPrice(view.marketData.value, s.lastKnownPrice).1
    ensures r.state.perceivedPnl + s.initialCapital ==
      Wealth(acct, EstimateMarketPrice(view.marketData.value, s.lastKnownPrice).0.GetOr(r.state.belief))
    ensures forall a :: a in r.intents ==> !a.action.CancelOrder?
    ensures r.state.intention == Wait ==> r.intents == []
    ensures var price := EstimateMarketPrice(view.marketData.value, s.lastKnownPrice).0;
      var opportunity := DepositOpportunity(p, view.economy.value);
      && r.state.intention == SelectIntention(p, acct, Mispricing(r.state.belief, price),
                                              PositionFraction(acct, r.state.lastKnownPrice), opportunity, r.state.lastKnownPrice)
      && ActionsOf(r.intents) == ExecuteIntention(p, c, acct, r.state.intention, price, opportunity)
    ensures r.state == s.(optimism := r.state.optimism, belief := r.state.belief,
                          perceivedPnl := r.state.perceivedPnl, intention := r.state.intention,
                          lastKnownPrice := r.state.lastKnownPrice, nextIntentId := r.state.nextIntentId)
  {
    var md := view.marketData.value;
    var e := view.economy.value;
    var belief := BeliefFrom(s.optimism, e);
    var optimism := UpdatedOptimism(p, s.optimism, s.perceivedPnl);
    var (price, known) := EstimateMarketPrice(md, s.lastKnownPrice);
    var pnl := PerceivedPnl(acct, price, belief, s.initialCapital);
    var mispricing := Mispricing(belief, price);
    var fraction := PositionFraction(acct, known);
    var opportunity := DepositOpportunity(p, e);
    var intention := SelectIntention(p, acct, mispricing, fraction, opportunity, known);
    var actions := ExecuteIntention(p, c, acct, intention, price, opportunity);
    var s1 := s.(optimism := optimism, belief := belief, perceivedPnl := pnl, intention := intention,
                 lastKnownPrice := known, nextIntentId := s.nextIntentId + |actions|);
    StampActions(actions, s.nextIntentId);
    Decision(s1, Stamp(actions, s.nextIntentId))
  }

  /** Optimism stays in [0, 1] across decisions when it starts there and the
      update step is non-negative. */
  lemma DecideKeepsOptimismBounded(p: Params, c: Constants, acct: Account, s: State, view: AgentView)
    requires view.agentId == p.agentId && view.marketData.Some? && view.economy.Some?
    requires Invariant(c, s) && ValidMarketData(view.marketData.value) && ValidEconomy(view.economy.value)
    requires !DividesByZeroBelief(s, view.marketData.value, view.economy.value)
    requires OptimismDelta(p) >= 0.0 && 0.0 <= s.optimism <= 1.0
    ensures 0.0 <= Decide(p, c, acct, s, view).state.optimism <= 1.0
    ensures view.economy.value.tvLow <= Decide(p, c, acct, s, view).state.belief <= view.economy.value.tvHigh
  {
    OptimismBounded(p, s.optimism, s.perceivedPnl);
    BeliefInInterval(s.optimism, view.economy.value);
  }

  /** The single intent, when there is one, is of the kind its intention
      names: a buy for ACCUMULATE, a sell for DISTRIBUTE, a deposit for
      PARK_CAPITAL. */
  lemma DecideActsOnIntention(p: Params, c: Constants, acct: Account, s: State, view: AgentView)
    requires view.agentId == p.agentId && view.marketData.Some? && view.economy.Some?
    requires Invariant(c, s) && ValidMarketData(view.marketData.value) && ValidEconomy(view.economy.value)
    requires !DividesByZeroBelief(s, view.marketData.value, view.economy.value)
    ensures var r := Decide(p, c, acct, s, view);
      |r.intents| == 1 ==>
        && (r.state.intention == Accumulate <==> r.intents[0].action.PlaceOrder? && r.intents[0].action.side == Buy)
        && (r.state.intention == Distribute <==> r.intents[0].action.PlaceOrder? && r.intents[0].action.side == Sell)
        && (r.state.intention == ParkCapital <==> r.intents[0].action.CreateDeposit?)
  {
    var r := Decide(p, c, acct, s, view);
    if |r.intents| == 1 {
      var md := view.marketData.value;
      var e := view.economy.value;
      var belief := BeliefFrom(s.optimism, e);
      var (price, known) := EstimateMarketPrice(md, s.lastKnownPrice);
      var opportunity := DepositOpportunity(p, e);
      var actions := ExecuteIntention(p, c, acct, r.state.intention, price, opportunity);
      assert r.intents[0].action == actions[0] && actions[0] in actions;
    }
  }

  function DepositIdOf(v: DepositView): int { v.depositId }

  /** The deposit ids of the non-empty results of a feedback. */
  function DepositIds(results: Dict<Option<DepositView>>): set<int>
  {
    ResultKeys(results, DepositIdOf)
  }

  /** `update`: every returned deposit is recorded under its deposit id, in
      feedback order. */
  function RecordDeposits(d: Dict<DepositView>, results: Dict<Option<DepositView>>): (r: Dict<DepositView>)
    ensures KeySet(r) == KeySet(d) + DepositIds(results)
    ensures Valid(d) ==> Valid(r)
    ensures forall e {:trigger e in d} {:trigger e in r} :: e in r ==> e in d || exists i :: 0 <= i < |results| && results[i].1 == Some(e.1)
    ensures forall i :: LastFor(results, DepositIdOf, i) ==> (results[i].1.value.depositId, results[i].1.value) in r
  {
    RecordResults(d, results, DepositIdOf)
  }

  /** `update`. Nothing is ever removed: done orders and matured deposits stay
      recorded, because the clean-up helpers are never called. */
  function Update(s: State, fb: Feedback): (s': State)
    ensures KeySet(s'.activeDeposits) ==
      KeySet(s.activeDeposits) + DepositIds(fb.depositResults)
    ensures KeySet(s'.pendingOrders) ==
      KeySet(s.pendingOrders) + OrderIds(fb.orderResults)
    ensures forall i :: LastFor(fb.depositResults, DepositIdOf, i) ==>
      (fb.depositResults[i].1.value.depositId, fb.depositResults[i].1.value) in s'.activeDeposits
    ensures forall i :: LastFor(fb.orderResults, OrderIdOf, i) ==>
      (fb.orderResults[i].1.value.orderId, fb.orderResults[i].1.value) in s'.pendingOrders
    ensures s' == s.(activeDeposits := s'.activeDeposits, pendingOrders := s'.pendingOrders)
  {
    s.(activeDeposits := RecordDeposits(s.activeDeposits, fb.depositResults),
       pendingOrders := RecordOrders(s.pendingOrders, fb.orderResults))
  }

  /** The recorded order ids only ever grow, and `update` keeps the invariant. */
  lemma UpdateNeverForgets(c: Constants, s: State, fb: Feedback)
    requires Invariant(c, s)
    ensures KeySet(s.pendingOrders) <= KeySet(Update(s, fb).pendingOrders)
    ensures KeySet(s.activeDeposits) <= KeySet(Update(s, fb).activeDeposits)
    ensures Invariant(c, Update(s, fb))
  {
  }

  /** `_cleanup_matured_deposits` (defined but never called by the agent):
      keeps exactly the deposits not yet matured at `macroTick`. */
  function CleanupMaturedDeposits(d: Dict<DepositView>, macroTick: int): (r: Dict<DepositView>)
    ensures forall e {:trigger e in d} {:trigger e in r} :: e in r <==> e in d && macroTick < e.1.maturityMacroTick
    ensures Valid(d) ==> Valid(r)
  {
    Filter(d, (v: DepositView) => macroTick < v.maturityMacroTick)
  }
}
