/** The momentum trader: OBSERVE (a bounded history of prices), EVALUATE (a
    recency-weighted mean return plus a directional bias, compared with an
    entry and an exit threshold), ACT (at most one market order). */
module MomentumTrader {
  import opened Wrappers
  import opened Numeric
  import opened Dicts
  import opened Domain

  datatype Params = Params(
    agentId: int,
    momentumWindow: int,
    entryThreshold: real,
    exitThreshold: real,
    aggressiveness: real,
    maxExposureFraction: real,
    directionalBias: real,
    liquidityBaseline: int)

  datatype State = State(
    priceHistory: seq<real>,
    activeOrders: Dict<OrderView>,
    nextIntentId: int)

  /** The result of `decide`: the new state and the numbered intents. */
  datatype Decision = Decision(state: State, intents: seq<Intent>)

  datatype Signal = EnterLong | EnterShort | Exit | Hold

  /** A freshly constructed momentum trader. */
  function Init(): State
  {
    State([], [], 0)
  }

  /** The history never exceeds the window and holds positive prices only;
      the order cache has no repeated id. */
  predicate Invariant(p: Params, s: State)
  {
    && |s.priceHistory| <= MaxInt(p.momentumWindow, 0)
    && (forall i :: 0 <= i < |s.priceHistory| ==> s.priceHistory[i] > 0.0)
    && Valid(s.activeOrders)
  }

  lemma InitInvariant(p: Params)
    ensures Invariant(p, Init())
  {
  }

  // ---------------------------------------------------------------------
  // OBSERVE
  // ---------------------------------------------------------------------

  /** `_get_current_price`: the last traded price, else the mid, else the
      micro price. */
  function CurrentPrice(md: MarketData): (r: Option<real>)
    ensures r.Some? <==> md.lastTradedPrice.Some? || md.midPrice.Some? || md.microPrice.Some?
    ensures md.lastTradedPrice.Some? ==> r == md.lastTradedPrice
    ensures md.lastTradedPrice.None? && md.midPrice.Some? ==> r == md.midPrice
    ensures ValidMarketData(md) ==> PositivePrice(r)
  {
    if md.lastTradedPrice.Some? then md.lastTradedPrice
    else if md.midPrice.Some? then md.midPrice
    else md.microPrice
  }

  /** The last `n` elements of `xs` (all of them when there are fewer, none
      when `n` is not positive). */
  function Latest(xs: seq<real>, n: int): (r: seq<real>)
    ensures |r| == MinInt(|xs|, MaxInt(n, 0))
    ensures r == xs[|xs| - |r|..]
  {
    xs[|xs| - MinInt(|xs|, MaxInt(n, 0))..]
  }

  /** `_update_price_history`: appends the current price, if any, and then
      drops the oldest entry once when the history exceeds the window. */
  function ObservePrice(p: Params, h: seq<real>, price: Option<real>): (r: seq<real>)
    ensures price.None? ==> r == h
    ensures price.Some? ==> r == h + [price.value] || r == (h + [price.value])[1..]
    ensures |h| <= MaxInt(p.momentumWindow, 0) ==> |r| <= MaxInt(p.momentumWindow, 0)
    ensures (forall i :: 0 <= i < |h| ==> h[i] > 0.0) && PositivePrice(price) ==> forall i :: 0 <= i < |r| ==> r[i] > 0.0
  {
    match price
    case None => h
    case Some(x) =>
      var grown := h + [x];
      assert forall i :: 0 <= i < |grown| ==> grown[i] == if i < |h| then h[i] else x;
      if |grown| > p.momentumWindow then grown[1..] else grown
  }

  /** Within the window, observing a price keeps the latest `momentum_window`
      prices of the extended history. */
  lemma ObserveKeepsLatest(p: Params, h: seq<real>, x: real)
    requires |h| <= MaxInt(p.momentumWindow, 0)
    ensures ObservePrice(p, h, Some(x)) == Latest(h + [x], p.momentumWindow)
  {
    var grown := h + [x];
    if |grown| > p.momentumWindow {
      assert MinInt(|grown|, MaxInt(p.momentumWindow, 0)) == |grown| - 1;
    } else {
      assert MinInt(|grown|, MaxInt(p.momentumWindow, 0)) == |grown|;
    }
  }

  /** The history after observing a sequence of snapshots' prices in order. */
  function ObserveAll(p: Params, h: seq<real>, prices: seq<Option<real>>): seq<real>
  {
    if |prices| == 0 then h
    else ObservePrice(p, ObserveAll(p, h, prices[..|prices| - 1]), prices[|prices| - 1])
  }

  /** The prices that were present, in order. */
  function Present(prices: seq<Option<real>>): seq<real>
  {
    if |prices| == 0 then []
    else
      var last := prices[|prices| - 1];
      Present(prices[..|prices| - 1]) + (if last.Some? then [last.value] else [])
  }

  lemma LatestAppend(xs: seq<real>, x: real, n: int)
    ensures Latest(Latest(xs, n) + [x], n) == Latest(xs + [x], n)
  {
    var k := MinInt(|xs|, MaxInt(n, 0));
    var ys := Latest(xs, n) + [x];
    var a := Latest(ys, n);
    var b := Latest(xs + [x], n);
    assert |a| == |b|;
    forall i | 0 <= i < |a| ensures a[i] == b[i] {
      assert a[i] == ys[|ys| - |a| + i];
      assert b[i] == (xs + [x])[|xs| + 1 - |b| + i];
    }
  }

  /** Starting empty, the history is always the most recent `momentum_window`
      prices seen (all of them while fewer were seen). */
  lemma {:induction false} HistoryHoldsLatestPrices(p: Params, prices: seq<Option<real>>)
    ensures ObserveAll(p, [], prices) == Latest(Present(prices), p.momentumWindow)
    decreases |prices|
  {
    if |prices| == 0 {
    } else {
      var init := prices[..|prices| - 1];
      var h := ObserveAll(p, [], init);
      HistoryHoldsLatestPrices(p, init);
      match prices[|prices| - 1]
      case None =>
        assert Present(prices) == Present(init) + [];
      case Some(x) =>
        assert Present(prices) == Present(init) + [x];
        ObserveKeepsLatest(p, h, x);
        LatestAppend(Present(init), x, p.momentumWindow);
    }
  }

  // ---------------------------------------------------------------------
  // EVALUATE
  // ---------------------------------------------------------------------

  /** The return from `h[i-1]` to `h[i]`, weighted by `i`, summed over
      `1 <= i < n`, counting only steps whose earlier price is positive. */
  function WeightedReturnSum(h: seq<real>, n: int): real
    requires n <= |h|
    decreases n
  {
    if n <= 1 then 0.0
    else
      WeightedReturnSum(h, n - 1)
      + (if h[n - 2] > 0.0 then (h[n - 1] - h[n - 2]) / h[n - 2] * (n - 1) as real else 0.0)
  }

  /** The weights `i` of the steps `WeightedReturnSum` counts. */
  function TotalWeight(h: seq<real>, n: int): real
    requires n <= |h|
    decreases n
  {
    if n <= 1 then 0.0
    else TotalWeight(h, n - 1) + (if h[n - 2] > 0.0 then (n - 1) as real else 0.0)
  }

  /** The weighted mean return of the history: recent steps weigh more; 0
      for fewer than two prices or when no step counts. */
  function Momentum(h: seq<real>): real
  {
    if |h| < 2 then 0.0
    else if TotalWeight(h, |h|) > 0.0 then WeightedReturnSum(h, |h|) / TotalWeight(h, |h|)
    else 0.0
  }

  /** `_calculate_momentum_signal`: the loop computes `Momentum`. */
  method CalculateMomentumSignal(h: seq<real>) returns (m: real)
    ensures m == Momentum(h)
  {
    if |h| < 2 {
      return 0.0;
    }
    var totalWeight := 0.0;
    var weightedReturn := 0.0;
    var i := 1;
    while i < |h|
      invariant 1 <= i <= |h|
      invariant totalWeight == TotalWeight(h, i)
      invariant weightedReturn == WeightedReturnSum(h, i)
    {
      var pricePrev := h[i - 1];
      var priceCurr := h[i];
      if pricePrev > 0.0 {
        var ret := (priceCurr - pricePrev) / pricePrev;
        weightedReturn := weightedReturn + ret * i as real;
        totalWeight := totalWeight + i as real;
      }
      i := i + 1;
    }
    if totalWeight > 0.0 {
      m := weightedReturn / totalWeight;
    } else {
      m := 0.0;
    }
  }

  /** Positive prices, each later one above every earlier one. */
  predicate Rising(h: seq<real>)
  {
    && (forall i :: 0 <= i < |h| ==> h[i] > 0.0)
    && (forall i, j :: 0 <= i < j < |h| ==> h[i] < h[j])
  }

  /** Positive prices, each later one below every earlier one. */
  predicate Falling(h: seq<real>)
  {
    && (forall i :: 0 <= i < |h| ==> h[i] > 0.0)
    && (forall i, j :: 0 <= i < j < |h| ==> h[i] > h[j])
  }

  /** One price throughout. */
  predicate Flat(h: seq<real>)
  {
    forall i, j :: 0 <= i < j < |h| ==> h[i] == h[j]
  }

  lemma {:induction false} RisingSums(h: seq<real>, n: int)
    requires 2 <= n <= |h| && Rising(h)
    ensures WeightedReturnSum(h, n) > 0.0 && TotalWeight(h, n) > 0.0
    decreases n
  {
    var prev, cur := h[n - 2], h[n - 1];
    assert 0.0 < prev < cur by {
      assert h[n - 2] > 0.0;
    }
    assert (cur - prev) / prev > 0.0;
    assert (cur - prev) / prev * (n - 1) as real > 0.0;
    if n > 2 {
      RisingSums(h, n - 1);
    }
  }

  lemma {:induction false} FallingSums(h: seq<real>, n: int)
    requires 2 <= n <= |h| && Falling(h)
    ensures WeightedReturnSum(h, n) < 0.0 && TotalWeight(h, n) > 0.0
    decreases n
  {
    var prev, cur := h[n - 2], h[n - 1];
    assert prev > cur > 0.0 by {
      assert h[n - 1] > 0.0;
    }
    assert (cur - prev) / prev < 0.0;
    assert (cur - prev) / prev * (n - 1) as real < 0.0;
    if n > 2 {
      FallingSums(h, n - 1);
    }
  }

  lemma {:induction false} FlatSum(h: seq<real>, n: int)
    requires n <= |h| && Flat(h)
    ensures WeightedReturnSum(h, n) == 0.0
    decreases n
  {
    if n > 1 {
      assert h[n - 1] - h[n - 2] == 0.0;
      FlatSum(h, n - 1);
    }
  }

  /** A strictly rising history of at least two prices has positive
      momentum, a strictly falling one negative momentum, a flat one none. */
  lemma MomentumSign(h: seq<real>)
    ensures |h| >= 2 && Rising(h) ==> Momentum(h) > 0.0
    ensures |h| >= 2 && Falling(h) ==> Momentum(h) < 0.0
    ensures Flat(h) ==> Momentum(h) == 0.0
  {
    if |h| >= 2 && Rising(h) {
      RisingSums(h, |h|);
    }
    if |h| >= 2 && Falling(h) {
      FallingSums(h, |h|);
    }
    if Flat(h) {
      FlatSum(h, |h|);
    }
  }

  /** `_evaluate_signal` on the biased momentum `b`. */
  function EvaluateSignal(p: Params, b: real): (r: Signal)
    ensures r == EnterLong <==> b > p.entryThreshold
    ensures r == EnterShort <==> b <= p.entryThreshold && b < -p.entryThreshold
    ensures r == Exit <==> -p.entryThreshold <= b <= p.entryThreshold && Abs(b) < p.exitThreshold
  {
    if b > p.entryThreshold then EnterLong
    else if b < -p.entryThreshold then EnterShort
    else if Abs(b) < p.exitThreshold then Exit
    else Hold
  }

  function Mirror(s: Signal): Signal
  {
    match s
    case EnterLong => EnterShort
    case EnterShort => EnterLong
    case Exit => Exit
    case Hold => Hold
  }

  /** With a non-negative entry threshold the signal is symmetric: negating
      the biased momentum swaps long and short entries and keeps EXIT and
      HOLD; a long entry needs positive momentum and a short one negative. */
  lemma SignalSymmetric(p: Params, b: real)
    requires p.entryThreshold >= 0.0
    ensures EvaluateSignal(p, -b) == Mirror(EvaluateSignal(p, b))
    ensures EvaluateSignal(p, b) == EnterLong ==> b > 0.0
    ensures EvaluateSignal(p, b) == EnterShort ==> b < 0.0
  {
    assert Abs(-b) == Abs(b);
  }

  // ---------------------------------------------------------------------
  // ACT
  // ---------------------------------------------------------------------

  /** The displayed size on both sides of the top of the book. */
  function TotalLiquidity(md: MarketData): int
  {
    (if md.bestBid.Some? then md.bestBid.value.size else 0)
    + (if md.bestAsk.Some? then md.bestAsk.value.size else 0)
  }

  /** `_calculate_liquidity_amplifier`: 1 for an empty book, otherwise the
      inverse of the liquidity ratio clamped to [0.5, 2]; dividing by a zero
      baseline raises. */
  function Amplifier(total: int, baseline: int): (r: Result<real, Raised>)
    ensures r.Failure? <==> total != 0 && baseline == 0
    ensures r.Failure? ==> r.error == ZeroDivisionError
    ensures total == 0 ==> r == Success(1.0)
    ensures r.Success? ==> 0.5 <= r.value <= 2.0
    ensures total != 0 && baseline > 0 && 2 * total <= baseline ==> r == Success(2.0)
    ensures baseline > 0 && 2 * baseline <= total ==> r == Success(0.5)
    ensures total != 0 && baseline != 0 && 0.5 <= total as real / baseline as real <= 2.0 ==>
      r == Success(baseline as real / total as real)
  {
    if total == 0 then Success(1.0)
    else if baseline == 0 then Failure(ZeroDivisionError)
    else
      var ratio := total as real / baseline as real;
      var clamped := MaxReal(0.5, MinReal(2.0, ratio));
      assert 0.5 <= clamped <= 2.0;
      assert 0.5 <= ratio <= 2.0 ==> 1.0 / clamped == baseline as real / total as real by {
        if 0.5 <= ratio <= 2.0 { ReciprocalOfQuotient(total as real, baseline as real); }
      }
      ReciprocalAntitone(clamped, 2.0);
      ReciprocalAntitone(0.5, clamped);
      if baseline > 0 then
        DivBounds(total as real, 0.5, baseline as real);
        DivBounds(total as real, 2.0, baseline as real);
        Success(1.0 / clamped)
      else
        Success(1.0 / clamped)
  }

  /** Thinner books amplify more: for a positive baseline the amplifier does
      not increase with the displayed liquidity. */
  lemma AmplifierAntitone(t1: int, t2: int, baseline: int)
    requires 0 < t1 <= t2 && baseline > 0
    ensures Amplifier(t2, baseline).value <= Amplifier(t1, baseline).value
  {
    var r1 := t1 as real / baseline as real;
    var r2 := t2 as real / baseline as real;
    assert r1 <= r2;
    var c1 := MaxReal(0.5, MinReal(2.0, r1));
    var c2 := MaxReal(0.5, MinReal(2.0, r2));
    assert 0.5 <= c1 <= c2;
    ReciprocalAntitone(c1, c2);
  }

  /** The position `_enter_long` aims at: the configured fraction of wealth,
      scaled by the effective aggressiveness, in whole shares. */
  function TargetShares(p: Params, acct: Account, price: real, amp: real): int
    requires price > 0.0
  {
    var wealth := acct.cash + acct.shares as real * price;
    Trunc(wealth * p.maxExposureFraction * (p.aggressiveness * amp) / price)
  }

  /** How many shares a long entry buys: the shortfall to the target, cut to
      what `cash` pays for at `unit` per share. */
  function LongQuantity(cash: real, unit: real, shortfall: int): (q: int)
    requires unit > 0.0 && shortfall > 0
    ensures q <= shortfall
    ensures q > 0 ==> q as real * unit <= cash
    ensures 0 < q < shortfall ==> cash < (q + 1) as real * unit
    ensures q > 0 <==> unit <= cash
  {
    var affordable := cash / unit;
    if shortfall as real * unit <= cash then
      MulMonotone(1.0, shortfall as real, unit);
      shortfall
    else if cash <= 0.0 then
      DivBounds(cash, 0.0, unit);
      Trunc(affordable)
    else
      AffordableQuantity(cash, unit);
      DivBelow(cash, shortfall as real, unit);
      if unit <= cash then
        DivAtLeastOne(cash, unit);
        Trunc(affordable)
      else
        DivBelow(cash, 1.0, unit);
        Trunc(affordable)
  }

  /** The order of a long entry for a given shortfall: none when there is no
      shortfall or not one share is affordable. */
  function LongOrder(c: Constants, acct: Account, price: real, shortfall: int): (r: seq<Action>)
    requires price > 0.0 && c.feeRate >= 0.0
    ensures |r| <= 1
    ensures r != [] <==> shortfall > 0 && CostPerShare(price, c.feeRate) <= acct.cash
    ensures r != [] ==>
      var a := r[0];
      && a.PlaceOrder? && a.side == Buy && a.orderType == MarketOrder && a.price == None
      && 0 < a.quantity <= shortfall
      && Affordable(a.quantity, price, c.feeRate, acct.cash)
      && (a.quantity < shortfall ==> !Affordable(a.quantity + 1, price, c.feeRate, acct.cash))
  {
    if shortfall <= 0 then []
    else
      CostPerSharePositive(price, c.feeRate);
      var q := LongQuantity(acct.cash, CostPerShare(price, c.feeRate), shortfall);
      if q <= 0 then [] else [PlaceOrder(Buy, MarketOrder, q, None)]
  }

  /** `_enter_long`: one market buy of the shortfall to the target position,
      cut to what the cash pays for; nothing without a price, without a
      shortfall or when not one share is affordable. */
  function EnterLongOrder(p: Params, c: Constants, acct: Account, md: MarketData): (r: Result<seq<Action>, Raised>)
    requires c.feeRate >= 0.0 && ValidMarketData(md)
    ensures r.Failure? <==> CurrentPrice(md).Some? && Amplifier(TotalLiquidity(md), p.liquidityBaseline).Failure?
    ensures r.Success? && CurrentPrice(md).None? ==> r.value == []
    ensures r.Success? && CurrentPrice(md).Some? ==>
      var price := CurrentPrice(md).value;
      var amp := Amplifier(TotalLiquidity(md), p.liquidityBaseline).value;
      r.value == LongOrder(c, acct, price, TargetShares(p, acct, price, amp) - acct.shares)
  {
    match CurrentPrice(md)
    case None => Success([])
    case Some(price) =>
      match Amplifier(TotalLiquidity(md), p.liquidityBaseline)
      case Failure(err) => Failure(err)
      case Success(amp) => Success(LongOrder(c, acct, price, TargetShares(p, acct, price, amp) - acct.shares))
  }

  /** How many shares a short entry sells out of a positive holding, given
      the holding scaled by the effective aggressiveness: the whole part of
      the scaled holding, never more than is held. */
  function ShortQuantity(shares: int, scaled: real): (q: int)
    requires shares > 0
    ensures q <= shares
    ensures q > 0 <==> scaled >= 1.0
    ensures q > 0 ==> q as real <= scaled && (q < shares ==> scaled < (q + 1) as real)
    ensures scaled >= shares as real ==> q == shares
  {
    MinInt(Trunc(scaled), shares)
  }

  /** The order of a short entry: none when the scaled holding is below one
      share. */
  function ShortOrder(shares: int, scaled: real): (r: seq<Action>)
    requires shares > 0
    ensures |r| <= 1
    ensures r != [] <==> scaled >= 1.0
    ensures r != [] ==>
      var a := r[0];
      && a.PlaceOrder? && a.side == Sell && a.orderType == MarketOrder && a.price == None
      && 0 < a.quantity <= shares
      && a.quantity as real <= scaled
      && (a.quantity < shares ==> scaled < (a.quantity + 1) as real)
    ensures scaled >= shares as real ==> r == [PlaceOrder(Sell, MarketOrder, shares, None)]
  {
    var q := ShortQuantity(shares, scaled);
    if q <= 0 then [] else [PlaceOrder(Sell, MarketOrder, q, None)]
  }

  /** The holding scaled by the effective aggressiveness. */
  function ScaledHolding(shares: int, aggressiveness: real, amp: real): real
  {
    shares as real * (aggressiveness * amp)
  }

  /** `_enter_short`: sells the aggressiveness-scaled part of the holding,
      never more than is held; nothing without shares or a price. */
  function EnterShortOrder(p: Params, acct: Account, md: MarketData): (r: Result<seq<Action>, Raised>)
    ensures r.Failure? <==>
      acct.shares > 0 && CurrentPrice(md).Some? && Amplifier(TotalLiquidity(md), p.liquidityBaseline).Failure?
    ensures r.Success? && (acct.shares <= 0 || CurrentPrice(md).None?) ==> r.value == []
    ensures r.Success? && acct.shares > 0 && CurrentPrice(md).Some? ==>
      var amp := Amplifier(TotalLiquidity(md), p.liquidityBaseline);
      r.value == ShortOrder(acct.shares, ScaledHolding(acct.shares, p.aggressiveness, amp.value))
  {
    if acct.shares <= 0 then Success([])
    else if CurrentPrice(md).None? then Success([])
    else
      var amp := Amplifier(TotalLiquidity(md), p.liquidityBaseline);
      if amp.Failure? then Failure(amp.error)
      else Success(ShortOrder(acct.shares, ScaledHolding(acct.shares, p.aggressiveness, amp.value)))
  }

  /** With an effective aggressiveness of at least 1 a short entry sells the
      whole holding. */
  lemma ShortEntrySellsAllWhenAggressive(p: Params, acct: Account, md: MarketData)
    requires acct.shares > 0 && CurrentPrice(md).Some?
    requires Amplifier(TotalLiquidity(md), p.liquidityBaseline).Success?
    requires p.aggressiveness * Amplifier(TotalLiquidity(md), p.liquidityBaseline).value >= 1.0
    ensures EnterShortOrder(p, acct, md) == Success([PlaceOrder(Sell, MarketOrder, acct.shares, None)])
  {
    var amp := Amplifier(TotalLiquidity(md), p.liquidityBaseline).value;
    MulMonotone(1.0, p.aggressiveness * amp, acct.shares as real);
    assert ScaledHolding(acct.shares, p.aggressiveness, amp) >= acct.shares as real;
  }

  /** `_exit_position`: sells the whole holding, if any. */
  function ExitPosition(acct: Account): (r: seq<Action>)
    ensures r != [] <==> acct.shares > 0
    ensures r != [] ==> r == [PlaceOrder(Sell, MarketOrder, acct.shares, None)]
  {
    if acct.shares > 0 then [PlaceOrder(Sell, MarketOrder, acct.shares, None)] else []
  }

  /** A market order with a positive quantity and no limit price. */
  predicate IsMarketOrder(a: Action)
  {
    a.PlaceOrder? && a.orderType == MarketOrder && a.price == None && a.quantity > 0
  }

  /** `_act_on_signal`: at most one market order, buying only on a long
      entry, selling only on a short entry or an exit, nothing on HOLD. */
  function ActOnSignal(p: Params, c: Constants, acct: Account, md: MarketData, signal: Signal): (r: Result<seq<Action>, Raised>)
    requires c.feeRate >= 0.0 && ValidMarketData(md)
    ensures r.Failure? ==>
      (signal == EnterLong || signal == EnterShort)
      && r.error == ZeroDivisionError && TotalLiquidity(md) != 0 && p.liquidityBaseline == 0
    ensures r.Success? ==> |r.value| <= 1
    ensures r.Success? ==> forall a :: a in r.value ==>
      IsMarketOrder(a) && (a.side == Buy <==> signal == EnterLong) && (a.side == Sell ==> a.quantity <= acct.shares)
    ensures signal == Hold ==> r == Success([])
  {
    match signal
    case EnterLong => EnterLongOrder(p, c, acct, md)
    case EnterShort => EnterShortOrder(p, acct, md)
    case Exit => Success(ExitPosition(acct))
    case Hold => Success([])
  }

  /** `decide`: observe the price, evaluate the biased momentum, act; the
      actions are numbered with consecutive intent ids. Raises only when a
      position change divides by a zero liquidity baseline. */
  function Decide(p: Params, c: Constants, acct: Account, s: State, view: AgentView): (r: Result<Decision, Raised>)
    requires view.agentId == p.agentId && view.marketData.Some?
    requires c.feeRate >= 0.0 && ValidMarketData(view.marketData.value)
    ensures r.Failure? ==>
      r.error == ZeroDivisionError && TotalLiquidity(view.marketData.value) != 0 && p.liquidityBaseline == 0
    ensures r.Success? ==>
      && r.value.state.priceHistory == ObservePrice(p, s.priceHistory, CurrentPrice(view.marketData.value))
      && r.value.state.activeOrders == s.activeOrders
      && r.value.state.nextIntentId == s.nextIntentId + |r.value.intents|
      && |r.value.intents| <= 1
      && (forall i :: 0 <= i < |r.value.intents| ==>
            r.value.intents[i].intentId == s.nextIntentId + i && IsMarketOrder(r.value.intents[i].action))
    ensures r.Success? && Invariant(p, s) ==> Invariant(p, r.value.state)
    ensures var history := ObservePrice(p, s.priceHistory, CurrentPrice(view.marketData.value));
      var acted := ActOnSignal(p, c, acct, view.marketData.value, EvaluateSignal(p, Momentum(history) + p.directionalBias));
      && (r.Success? <==> acted.Success?)
      && (r.Success? ==> ActionsOf(r.value.intents) == acted.value)
  {
    var md := view.marketData.value;
    var history := ObservePrice(p, s.priceHistory, CurrentPrice(md));
    var signal := EvaluateSignal(p, Momentum(history) + p.directionalBias);
    var actions :- ActOnSignal(p, c, acct, md, signal);
    StampActions(actions, s.nextIntentId);
    assert forall i :: 0 <= i < |actions| ==> actions[i] in actions;
    Success(Decision(s.(priceHistory := history, nextIntentId := s.nextIntentId + |actions|),
                     Stamp(actions, s.nextIntentId)))
  }

  /** The trade follows the signal of the updated history: a buy exactly on
      a long entry, no order at all on HOLD. */
  lemma DecideFollowsSignal(p: Params, c: Constants, acct: Account, s: State, view: AgentView)
    requires view.agentId == p.agentId && view.marketData.Some?
    requires c.feeRate >= 0.0 && ValidMarketData(view.marketData.value)
    requires Decide(p, c, acct, s, view).Success?
    ensures var d := Decide(p, c, acct, s, view).value;
      var signal := EvaluateSignal(p, Momentum(d.state.priceHistory) + p.directionalBias);
      && (signal == Hold ==> d.intents == [])
      && (forall i :: 0 <= i < |d.intents| ==> (d.intents[i].action.side == Buy <==> signal == EnterLong))
  {
    var md := view.marketData.value;
    var history := ObservePrice(p, s.priceHistory, CurrentPrice(md));
    var signal := EvaluateSignal(p, Momentum(history) + p.directionalBias);
    var actions := ActOnSignal(p, c, acct, md, signal).value;
    assert forall i :: 0 <= i < |actions| ==> actions[i] in actions;
  }

  /** Without a bias and with a non-negative entry threshold, a long entry
      is only ever signalled on a history whose momentum is positive; in
      particular a falling or flat history never triggers a buy. */
  lemma NoBuyAgainstTheTrend(p: Params, h: seq<real>)
    requires p.directionalBias == 0.0 && p.entryThreshold >= 0.0
    ensures EvaluateSignal(p, Momentum(h) + p.directionalBias) == EnterLong ==> Momentum(h) > 0.0
    ensures (|h| >= 2 && Falling(h)) || Flat(h) ==> EvaluateSignal(p, Momentum(h) + p.directionalBias) != EnterLong
  {
    MomentumSign(h);
  }

  // ---------------------------------------------------------------------
  // Feedback
  // ---------------------------------------------------------------------

  /** `update`: records every returned order under its id, then drops the
      done ones. */
  function Update(s: State, fb: Feedback): (s': State)
    ensures forall e {:trigger e in s'.activeOrders} :: e in s'.activeOrders ==> e.1.lifecycle == Working
    ensures KeySet(s'.activeOrders) <= KeySet(s.activeOrders) + OrderIds(fb.orderResults)
    ensures forall e {:trigger e in s'.activeOrders} {:trigger e in s.activeOrders} :: e in s.activeOrders && e.0 !in OrderIds(fb.orderResults) && e.1.lifecycle == Working ==>
      e in s'.activeOrders
    ensures forall e {:trigger e in s.activeOrders} {:trigger e in s'.activeOrders} :: e in s'.activeOrders ==>
      e in s.activeOrders || exists i :: 0 <= i < |fb.orderResults| && fb.orderResults[i].1 == Some(e.1)
    ensures Valid(s.activeOrders) ==> Valid(s'.activeOrders)
    ensures forall i :: LastFor(fb.orderResults, OrderIdOf, i) && fb.orderResults[i].1.value.lifecycle != Done ==>
      (fb.orderResults[i].1.value.orderId, fb.orderResults[i].1.value) in s'.activeOrders
    ensures Valid(s.activeOrders) ==> forall i :: LastFor(fb.orderResults, OrderIdOf, i) && fb.orderResults[i].1.value.lifecycle == Done ==>
      fb.orderResults[i].1.value.orderId !in KeySet(s'.activeOrders)
    ensures s' == s.(activeOrders := s'.activeOrders)
  {
    var recorded := RecordOrders(s.activeOrders, fb.orderResults);
    var kept := DropDoneOrders(recorded);
    assert Valid(s.activeOrders) ==> forall i :: LastFor(fb.orderResults, OrderIdOf, i) && fb.orderResults[i].1.value.lifecycle == Done ==>
      fb.orderResults[i].1.value.orderId !in KeySet(kept) by {
      if Valid(s.activeOrders) {
        forall i | LastFor(fb.orderResults, OrderIdOf, i) && fb.orderResults[i].1.value.lifecycle == Done
          ensures fb.orderResults[i].1.value.orderId !in KeySet(kept)
        {
          DoneResultDropped(recorded, fb.orderResults[i].1.value);
        }
      }
    }
    s.(activeOrders := kept)
  }

  lemma UpdateKeepsInvariant(p: Params, s: State, fb: Feedback)
    requires Invariant(p, s)
    ensures Invariant(p, Update(s, fb))
  {
  }
}
