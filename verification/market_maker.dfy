/** The market maker: a quoting state machine with three layers in strict
    priority order, SURVIVE > STABILIZE > PROVIDE, chosen on every decision
    from the inventory ratio cash / (cash + shares * last known price). */
module MarketMaker {
  import opened Wrappers
  import opened Numeric
  import opened Dicts
  import opened Domain

  datatype Layer = Survive | Stabilize | Provide

  datatype Params = Params(
    agentId: int,
    targetInventoryFraction: real,
    riskLowerBound: real,
    riskUpperBound: real,
    stabilizationTolerance: real,
    spreadSize: int,
    orderSize: int,
    waitTime: int,
    skewFactor: int)

  datatype State = State(
    activeBids: Dict<OrderView>,
    activeAsks: Dict<OrderView>,
    lastKnownPrice: Option<real>,
    currentMicroTick: int,
    currentGlobalTick: int,
    lastMidPrice: Option<real>,
    lastInventoryRatio: Option<real>,
    layerChanged: bool,
    orderFilledThisTick: bool,
    lastLayer: Layer,
    lastQuoteGlobalTick: Option<int>,
    nextIntentId: int)

  /** The result of one layer: the new state and the actions, not yet numbered. */
  datatype Step = Step(state: State, actions: seq<Action>)

  /** The result of `decide`: the new state and the numbered intents. */
  datatype Decision = Decision(state: State, intents: seq<Intent>)

  /** A freshly constructed market maker: no caches, no price, last layer PROVIDE. */
  function Init(): State
  {
    State([], [], None, 0, 0, None, None, false, false, Provide, None, 0)
  }

  /** A non-negative spread and fee rate: under these no quote computation
      divides by zero. */
  predicate ParamsOk(p: Params, c: Constants)
  {
    p.spreadSize >= 0 && c.feeRate >= 0.0
  }

  /** Every cached order is keyed by its own id and sits in the cache of its side. */
  predicate CacheOk(d: Dict<OrderView>, side: Side)
  {
    Valid(d) && forall e {:trigger e in d} :: e in d ==> e.1.orderId == e.0 && e.1.side == side
  }

  predicate Invariant(p: Params, c: Constants, s: State)
  {
    && ParamsOk(p, c)
    && PositivePrice(s.lastKnownPrice)
    && CacheOk(s.activeBids, Buy)
    && CacheOk(s.activeAsks, Sell)
  }

  lemma InitInvariant(p: Params, c: Constants)
    requires ParamsOk(p, c)
    ensures Invariant(p, c, Init())
  {
  }

  // ---------------------------------------------------------------------
  // Inventory ratio and layer selection
  // ---------------------------------------------------------------------

  function Wealth(acct: Account, price: real): real
  {
    acct.cash + acct.shares as real * price
  }

  /** `_calculate_inventory_ratio`: the cash share of total wealth at the last
      known price; the target fraction when no price is known or wealth is not
      positive. */
  function InventoryRatio(p: Params, acct: Account, lastKnownPrice: Option<real>): (r: real)
    ensures lastKnownPrice.None? ==> r == p.targetInventoryFraction
    ensures lastKnownPrice.Some? && Wealth(acct, lastKnownPrice.value) <= 0.0 ==>
      r == p.targetInventoryFraction
    ensures lastKnownPrice.Some? && Wealth(acct, lastKnownPrice.value) > 0.0 ==>
      r * Wealth(acct, lastKnownPrice.value) == acct.cash
  {
    match lastKnownPrice
    case None => p.targetInventoryFraction
    case Some(price) =>
      var total := acct.cash + acct.shares as real * price;
      if total <= 0.0 then p.targetInventoryFraction else acct.cash / total
  }

  /** With a non-negative account and a target inside [0, 1], the ratio lies
      in [0, 1]: 0 when everything is in shares, 1 when everything is cash. */
  lemma InventoryRatioInUnitInterval(p: Params, acct: Account, lastKnownPrice: Option<real>)
    requires 0.0 <= p.targetInventoryFraction <= 1.0
    requires acct.cash >= 0.0 && acct.shares >= 0 && PositivePrice(lastKnownPrice)
    ensures 0.0 <= InventoryRatio(p, acct, lastKnownPrice) <= 1.0
    ensures lastKnownPrice.Some? && acct.shares == 0 && acct.cash > 0.0 ==>
      InventoryRatio(p, acct, lastKnownPrice) == 1.0
    ensures lastKnownPrice.Some? && acct.shares > 0 && acct.cash == 0.0 ==>
      InventoryRatio(p, acct, lastKnownPrice) == 0.0
  {
    if lastKnownPrice.Some? {
      var w := Wealth(acct, lastKnownPrice.value);
      var r := InventoryRatio(p, acct, lastKnownPrice);
      if w > 0.0 {
        assert acct.shares as real * lastKnownPrice.value >= 0.0;
        assert r == acct.cash / w;
        DivUnit(acct.cash, w);
      }
    }
  }

  predicate ShouldSurvive(p: Params, ratio: real)
  {
    ratio < p.riskLowerBound || ratio > p.riskUpperBound
  }

  predicate ShouldStabilize(p: Params, ratio: real)
  {
    Abs(ratio - p.targetInventoryFraction) > p.stabilizationTolerance
  }

  /** `_determine_current_layer`: exactly one layer, by strict priority. */
  function DetermineLayer(p: Params, ratio: real): (l: Layer)
    ensures l == Survive <==> ratio < p.riskLowerBound || ratio > p.riskUpperBound
    ensures l == Stabilize <==>
      p.riskLowerBound <= ratio <= p.riskUpperBound
      && Abs(ratio - p.targetInventoryFraction) > p.stabilizationTolerance
    ensures l == Provide <==>
      p.riskLowerBound <= ratio <= p.riskUpperBound
      && Abs(ratio - p.targetInventoryFraction) <= p.stabilizationTolerance
  {
    if ShouldSurvive(p, ratio) then Survive
    else if ShouldStabilize(p, ratio) then Stabilize
    else Provide
  }

  // ---------------------------------------------------------------------
  // Price estimate
  // ---------------------------------------------------------------------

  /** The first quoted market price, in the market maker's preference order. */
  function QuotedPrice(md: MarketData): Option<real>
  {
    if md.midPrice.Some? then md.midPrice
    else if md.microPrice.Some? then md.microPrice
    else md.lastTradedPrice
  }

  /** `_estimate_price`: returns the estimate and the new last known price.
      A quoted price is remembered; without one the remembered price is used,
      and without that the centre of the fair-value interval (which is not
      remembered). It never fails to produce a price. */
  function EstimatePrice(md: MarketData, e: EconomyInsight, lastKnown: Option<real>): (r: (real, Option<real>))
    ensures QuotedPrice(md).Some? ==> r.1 == QuotedPrice(md) && r.0 == QuotedPrice(md).value
    ensures QuotedPrice(md).None? ==> r.1 == lastKnown
    ensures QuotedPrice(md).None? && lastKnown.Some? ==> r.0 == lastKnown.value
    ensures QuotedPrice(md).None? && lastKnown.None? ==> r.0 == (e.tvLow + e.tvHigh) / 2.0
    ensures ValidMarketData(md) && ValidEconomy(e) && PositivePrice(lastKnown) ==>
      r.0 > 0.0 && PositivePrice(r.1)
  {
    if md.midPrice.Some? then (md.midPrice.value, md.midPrice)
    else if md.microPrice.Some? then (md.microPrice.value, md.microPrice)
    else if md.lastTradedPrice.Some? then (md.lastTradedPrice.value, md.lastTradedPrice)
    else if lastKnown.Some? then (lastKnown.value, lastKnown)
    else ((e.tvLow + e.tvHigh) / 2.0, None)
  }

  /** Estimating twice in one tick gives what estimating once gave. */
  lemma EstimatePriceIdempotent(md: MarketData, e: EconomyInsight, lastKnown: Option<real>)
    ensures EstimatePrice(md, e, EstimatePrice(md, e, lastKnown).1) == EstimatePrice(md, e, lastKnown)
  {
  }

  // ---------------------------------------------------------------------
  // Quantity validation
  // ---------------------------------------------------------------------

  /** `_validate_bid_quantity`: clamps a bid to what the cash can pay for at
      the last known price plus fee; 0 without cash, price or a positive request. */
  function ValidateBidQuantity(c: Constants, acct: Account, lastKnown: Option<real>, q: int): (r: int)
    requires c.feeRate >= 0.0 && PositivePrice(lastKnown)
    ensures q <= 0 || acct.cash <= 0.0 || lastKnown.None? ==> r == 0
    ensures 0 <= r && r <= MaxInt(q, 0)
    ensures r > 0 ==> lastKnown.Some? && Affordable(r, lastKnown.value, c.feeRate, acct.cash)
    ensures 0 < r < q ==> !Affordable(r + 1, lastKnown.value, c.feeRate, acct.cash)
    ensures q > 0 && lastKnown.Some? && 0.0 < CostPerShare(lastKnown.value, c.feeRate) <= acct.cash ==> r > 0
  {
    if q <= 0 then 0
    else if acct.cash <= 0.0 then 0
    else if lastKnown.None? then 0
    else
      var unit := CostPerShare(lastKnown.value, c.feeRate);
      AffordableQuantity(acct.cash, unit);
      MinInt(q, Trunc(acct.cash / unit))
  }

  /** `_validate_ask_quantity`: clamps an ask to the shares held; 0 for a
      non-positive request. */
  function ValidateAskQuantity(acct: Account, q: int): (r: int)
    ensures q <= 0 ==> r == 0
    ensures q > 0 ==> r <= q && r <= acct.shares && (r == q || r == acct.shares)
  {
    if q <= 0 then 0 else MinInt(q, acct.shares)
  }

  // ---------------------------------------------------------------------
  // Quote equivalence and cancellation
  // ---------------------------------------------------------------------

  predicate IsWorking(o: OrderView)
  {
    o.lifecycle == Working
  }

  /** `_is_quote_equivalent`: a working order on the same side whose price is
      within 1.0 of the target. */
  predicate IsQuoteEquivalent(o: OrderView, target: real, side: Side)
  {
    o.lifecycle == Working && o.side == side && o.price.Some? && Abs(o.price.value - target) <= 1.0
  }

  function CacheFor(s: State, side: Side): Dict<OrderView>
  {
    if side == Buy then s.activeBids else s.activeAsks
  }

  function AnyEquivalent(d: Dict<OrderView>, target: real, side: Side): (b: bool)
    ensures b <==> exists e {:trigger e in d} :: e in d && IsQuoteEquivalent(e.1, target, side)
  {
    if |d| == 0 then false
    else
      assert forall e :: e in d <==> e == d[0] || e in d[1..];
      assert d[0] in d;
      IsQuoteEquivalent(d[0].1, target, side) || AnyEquivalent(d[1..], target, side)
  }

  /** `_has_equivalent_working_order`: the cache of that side holds an
      equivalent working order. */
  function HasEquivalentWorkingOrder(s: State, side: Side, target: real): (b: bool)
    ensures b <==> exists e {:trigger e in CacheFor(s, side)} :: e in CacheFor(s, side) && IsQuoteEquivalent(e.1, target, side)
  {
    AnyEquivalent(CacheFor(s, side), target, side)
  }

  function CancelActions(entries: Dict<OrderView>): (r: seq<Action>)
    ensures |r| == |entries|
    ensures forall i :: 0 <= i < |r| ==> r[i] == CancelOrder(entries[i].0)
  {
    seq(|entries|, i requires 0 <= i < |entries| => CancelOrder(entries[i].0))
  }

  /** Every action of `r` cancels a cached order of `d` that `sel` picks. */
  ghost predicate CancelsOnlySelected(r: seq<Action>, d: Dict<OrderView>, sel: OrderView -> bool)
  {
    forall i :: 0 <= i < |r| ==> r[i].CancelOrder? && exists v :: (r[i].orderId, v) in d && sel(v)
  }

  /** Every cached order of `d` that `sel` picks is cancelled by `r`. */
  ghost predicate CancelsAllSelected(r: seq<Action>, d: Dict<OrderView>, sel: OrderView -> bool)
  {
    forall e {:trigger e in d} :: e in d && sel(e.1) ==> CancelOrder(e.0) in r
  }

  /** Actions `i` and `j` of `r` cancel orders cached in that order in `d`. */
  ghost predicate CancelledInOrder(r: seq<Action>, d: Dict<OrderView>, i: int, j: int)
    requires 0 <= i < j < |r|
  {
    exists a, b :: 0 <= a < b < |d| && CancelOrder(d[a].0) == r[i] && CancelOrder(d[b].0) == r[j]
  }

  /** The cancels of `r` follow the order of the cache `d`. */
  ghost predicate CancelsInCacheOrder(r: seq<Action>, d: Dict<OrderView>)
  {
    forall i, j :: 0 <= i < j < |r| ==> CancelledInOrder(r, d, i, j)
  }

  /** `r` cancels exactly the cached orders of `d` that `sel` picks, in the
      order in which they sit in the cache. */
  ghost predicate CancelsExactly(r: seq<Action>, d: Dict<OrderView>, sel: OrderView -> bool)
  {
    CancelsOnlySelected(r, d, sel) && CancelsAllSelected(r, d, sel) && CancelsInCacheOrder(r, d)
  }

  /** In a cache without repeated ids, cancels in cache order name each
      order once. */
  lemma CancelsInOrderDistinct(r: seq<Action>, d: Dict<OrderView>)
    requires Valid(d) && CancelsInCacheOrder(r, d)
    ensures forall i, j :: 0 <= i < j < |r| ==> r[i] != r[j]
  {
    forall i, j | 0 <= i < j < |r| ensures r[i] != r[j] {
      assert CancelledInOrder(r, d, i, j);
      var a, b :| 0 <= a < b < |d| && CancelOrder(d[a].0) == r[i] && CancelOrder(d[b].0) == r[j];
      assert d[a].0 != d[b].0;
    }
  }

  lemma FilteredCancelsAreSelected(d: Dict<OrderView>, sel: OrderView -> bool)
    ensures CancelsOnlySelected(CancelActions(Filter(d, sel)), d, sel)
  {
    var f := Filter(d, sel);
    var r := CancelActions(f);
    forall i | 0 <= i < |r| ensures r[i].CancelOrder? && exists v :: (r[i].orderId, v) in d && sel(v) {
      assert f[i] in f;
      assert (r[i].orderId, f[i].1) in d;
    }
  }

  lemma SelectedAreCancelled(d: Dict<OrderView>, sel: OrderView -> bool)
    ensures CancelsAllSelected(CancelActions(Filter(d, sel)), d, sel)
  {
    var f := Filter(d, sel);
    var r := CancelActions(f);
    forall e {:trigger e in d} | e in d && sel(e.1) ensures CancelOrder(e.0) in r {
      var i :| 0 <= i < |f| && f[i] == e;
      assert r[i] == CancelOrder(e.0);
    }
  }

  lemma FilteredCancelsInOrder(d: Dict<OrderView>, sel: OrderView -> bool)
    ensures CancelsInCacheOrder(CancelActions(Filter(d, sel)), d)
  {
    var f := Filter(d, sel);
    var r := CancelActions(f);
    FilterInOrder(d, sel);
    forall i, j | 0 <= i < j < |r| ensures CancelledInOrder(r, d, i, j) {
      assert OccurInOrder(f, d, i, j);
      var a, b :| 0 <= a < b < |d| && d[a] == f[i] && d[b] == f[j];
      assert CancelOrder(d[a].0) == r[i] && CancelOrder(d[b].0) == r[j];
    }
  }

  /** One cancel per cached order selected by `sel`, in cache order. */
  function CancelWhere(d: Dict<OrderView>, sel: OrderView -> bool): (r: seq<Action>)
    ensures |r| == |Filter(d, sel)|
    ensures CancelsExactly(r, d, sel)
    ensures forall a :: a in r ==> a.CancelOrder? && exists v :: (a.orderId, v) in d && sel(v)
    ensures forall e {:trigger e in d} :: e in d && sel(e.1) ==> CancelOrder(e.0) in r
    ensures Valid(d) ==> forall i, j :: 0 <= i < j < |r| ==> r[i] != r[j]
  {
    var r := CancelActions(Filter(d, sel));
    FilteredCancelsAreSelected(d, sel);
    SelectedAreCancelled(d, sel);
    FilteredCancelsInOrder(d, sel);
    assert Valid(d) ==> forall i, j :: 0 <= i < j < |r| ==> r[i] != r[j] by {
      if Valid(d) { CancelsInOrderDistinct(r, d); }
    }
    r
  }

  /** Cancels of bids and cancels of asks never coincide when no order id
      is both a bid and an ask. */
  lemma DisjointCancels(bids: seq<Action>, asks: seq<Action>, s: State)
    requires CancelsOnlySelected(bids, s.activeBids, IsWorking) && CancelsOnlySelected(asks, s.activeAsks, IsWorking)
    requires Valid(s.activeBids) && Valid(s.activeAsks) && KeySet(s.activeBids) !! KeySet(s.activeAsks)
    requires CancelsInCacheOrder(bids, s.activeBids) && CancelsInCacheOrder(asks, s.activeAsks)
    ensures forall i, j :: 0 <= i < j < |bids + asks| ==> (bids + asks)[i] != (bids + asks)[j]
  {
    CancelsInOrderDistinct(bids, s.activeBids);
    CancelsInOrderDistinct(asks, s.activeAsks);
    var r := bids + asks;
    forall i, j | 0 <= i < j < |r| ensures r[i] != r[j] {
      if i < |bids| <= j {
        var v :| (bids[i].orderId, v) in s.activeBids && IsWorking(v);
        var w :| (asks[j - |bids|].orderId, w) in s.activeAsks && IsWorking(w);
        KeySetMember(s.activeBids, bids[i].orderId, v);
        KeySetMember(s.activeAsks, asks[j - |bids|].orderId, w);
      } else if j < |bids| {
        assert r[i] == bids[i] && r[j] == bids[j];
      } else {
        assert r[i] == asks[i - |bids|] && r[j] == asks[j - |bids|];
      }
    }
  }

  /** `_cancel_all_orders`: a cancel for every working bid, then every
      working ask, each side in cache order. */
  function CancelAllOrders(s: State): (r: seq<Action>)
    ensures var nb := |Filter(s.activeBids, IsWorking)|;
      && |r| == nb + |Filter(s.activeAsks, IsWorking)|
      && CancelsExactly(r[..nb], s.activeBids, IsWorking)
      && CancelsExactly(r[nb..], s.activeAsks, IsWorking)
    ensures Valid(s.activeBids) && Valid(s.activeAsks) && KeySet(s.activeBids) !! KeySet(s.activeAsks) ==>
      forall i, j :: 0 <= i < j < |r| ==> r[i] != r[j]
    ensures forall a :: a in r ==> a.CancelOrder?
    ensures forall e {:trigger e in s.activeBids} :: e in s.activeBids && IsWorking(e.1) ==> CancelOrder(e.0) in r
    ensures forall e {:trigger e in s.activeAsks} :: e in s.activeAsks && IsWorking(e.1) ==> CancelOrder(e.0) in r
    ensures forall a :: a in r ==>
      (exists v :: (a.orderId, v) in s.activeBids && IsWorking(v))
      || (exists v :: (a.orderId, v) in s.activeAsks && IsWorking(v))
  {
    var bids := CancelWhere(s.activeBids, IsWorking);
    var asks := CancelWhere(s.activeAsks, IsWorking);
    assert (bids + asks)[..|bids|] == bids && (bids + asks)[|bids|..] == asks;
    assert Valid(s.activeBids) && Valid(s.activeAsks) && KeySet(s.activeBids) !! KeySet(s.activeAsks) ==>
      forall i, j :: 0 <= i < j < |bids + asks| ==> (bids + asks)[i] != (bids + asks)[j] by {
      if Valid(s.activeBids) && Valid(s.activeAsks) && KeySet(s.activeBids) !! KeySet(s.activeAsks) {
        DisjointCancels(bids, asks, s);
      }
    }
    bids + asks
  }

  /** `_cancel_non_equivalent_orders`: cancels every working order of either
      side that is not equivalent to the new target of its side. */
  function CancelNonEquivalentOrders(s: State, bid: real, ask: real): (r: seq<Action>)
    ensures forall a :: a in r ==> a.CancelOrder?
    ensures forall a :: a in r ==>
      (exists v :: (a.orderId, v) in s.activeBids && IsWorking(v) && !IsQuoteEquivalent(v, bid, Buy))
      || (exists v :: (a.orderId, v) in s.activeAsks && IsWorking(v) && !IsQuoteEquivalent(v, ask, Sell))
    ensures forall e {:trigger e in s.activeBids} :: e in s.activeBids && IsWorking(e.1) && !IsQuoteEquivalent(e.1, bid, Buy) ==>
      CancelOrder(e.0) in r
    ensures forall e {:trigger e in s.activeAsks} :: e in s.activeAsks && IsWorking(e.1) && !IsQuoteEquivalent(e.1, ask, Sell) ==>
      CancelOrder(e.0) in r
  {
    CancelWhere(s.activeBids, o => IsWorking(o) && !IsQuoteEquivalent(o, bid, Buy))
    + CancelWhere(s.activeAsks, o => IsWorking(o) && !IsQuoteEquivalent(o, ask, Sell))
  }

  /** `_selective_stabilize_cancel`: below target (too many shares) only
      non-equivalent working bids are cancelled, otherwise only non-equivalent
      working asks; the side that rebalances the inventory keeps its orders. */
  function SelectiveStabilizeCancel(p: Params, s: State, ratio: real, bid: real, ask: real): (r: seq<Action>)
    ensures forall a :: a in r ==> a.CancelOrder?
    ensures ratio < p.targetInventoryFraction ==> forall a :: a in r ==>
      exists v :: (a.orderId, v) in s.activeBids && IsWorking(v) && !IsQuoteEquivalent(v, bid, Buy)
    ensures ratio >= p.targetInventoryFraction ==> forall a :: a in r ==>
      exists v :: (a.orderId, v) in s.activeAsks && IsWorking(v) && !IsQuoteEquivalent(v, ask, Sell)
    ensures ratio < p.targetInventoryFraction ==> forall e {:trigger e in s.activeBids} ::
      e in s.activeBids && IsWorking(e.1) && !IsQuoteEquivalent(e.1, bid, Buy) ==> CancelOrder(e.0) in r
    ensures ratio >= p.targetInventoryFraction ==> forall e {:trigger e in s.activeAsks} ::
      e in s.activeAsks && IsWorking(e.1) && !IsQuoteEquivalent(e.1, ask, Sell) ==> CancelOrder(e.0) in r
  {
    if ratio < p.targetInventoryFraction then
      CancelWhere(s.activeBids, o => IsWorking(o) && !IsQuoteEquivalent(o, bid, Buy))
    else
      CancelWhere(s.activeAsks, o => IsWorking(o) && !IsQuoteEquivalent(o, ask, Sell))
  }

  /** When bids and asks carry distinct order ids, the stabilize cancel never
      touches the supportive cache: asks below target, bids at or above it. */
  lemma SupportiveSideNeverCancelled(p: Params, s: State, ratio: real, bid: real, ask: real)
    requires KeySet(s.activeBids) !! KeySet(s.activeAsks)
    ensures ratio < p.targetInventoryFraction ==> forall e {:trigger e in s.activeAsks} ::
      e in s.activeAsks ==> CancelOrder(e.0) !in SelectiveStabilizeCancel(p, s, ratio, bid, ask)
    ensures ratio >= p.targetInventoryFraction ==> forall e {:trigger e in s.activeBids} ::
      e in s.activeBids ==> CancelOrder(e.0) !in SelectiveStabilizeCancel(p, s, ratio, bid, ask)
  {
    var r := SelectiveStabilizeCancel(p, s, ratio, bid, ask);
    var cache := if ratio < p.targetInventoryFraction then s.activeBids else s.activeAsks;
    var other := if ratio < p.targetInventoryFraction then s.activeAsks else s.activeBids;
    forall a | a in r ensures a.orderId in KeySet(cache) {
      var v :| (a.orderId, v) in cache;
      KeySetMember(cache, a.orderId, v);
    }
    forall e {:trigger e in other} | e in other ensures e.0 in KeySet(other) {
      KeySetMember(other, e.0, e.1);
    }
  }

  // ---------------------------------------------------------------------
  // SURVIVE
  // ---------------------------------------------------------------------

  /** `_create_panic_sell_intent`: with shares on hand, a limit sell of up to
      three order sizes, 5 spreads under the estimate and never below 0.01.
      Without shares the price is not even estimated. */
  function PanicSell(p: Params, acct: Account, s: State, md: MarketData, e: EconomyInsight): (r: (State, Option<Action>))
    ensures acct.shares <= 0 ==> r == (s, None)
    ensures acct.shares > 0 ==> r.1.Some?
    ensures r.1.Some? ==> var a := r.1.value;
      && a.PlaceOrder? && a.side == Sell && a.orderType == Limit
      && a.quantity == MinInt(acct.shares, 3 * p.orderSize)
      && a.price.Some? && a.price.value >= 0.01
      && r.0.lastMidPrice == Some(EstimatePrice(md, e, s.lastKnownPrice).0)
      && a.price.value >= r.0.lastMidPrice.value - 5.0 * p.spreadSize as real
      && (a.price.value == 0.01 || a.price.value == r.0.lastMidPrice.value - 5.0 * p.spreadSize as real)
    ensures r.0 == s.(lastKnownPrice := r.0.lastKnownPrice, lastMidPrice := r.0.lastMidPrice)
    ensures acct.shares > 0 ==> r.0.lastKnownPrice == EstimatePrice(md, e, s.lastKnownPrice).1
  {
    if acct.shares <= 0 then (s, None)
    else
      var (mid, known) := EstimatePrice(md, e, s.lastKnownPrice);
      var price := MaxReal(0.01, mid - (5 * p.spreadSize) as real);
      var quantity := MinInt(acct.shares, p.orderSize * 3);
      (s.(lastKnownPrice := known, lastMidPrice := Some(mid)), Some(PlaceOrder(Sell, Limit, quantity, Some(price))))
  }

  /** `_create_panic_buy_intent`: with cash on hand, a limit buy 5 spreads over
      the estimate of as many shares as the cash pays for (fee included), at
      most three order sizes; nothing when that is not positive. */
  function PanicBuy(p: Params, c: Constants, acct: Account, s: State, md: MarketData, e: EconomyInsight): (r: (State, Option<Action>))
    requires ParamsOk(p, c) && PositivePrice(s.lastKnownPrice) && ValidMarketData(md) && ValidEconomy(e)
    ensures acct.cash <= 0.0 ==> r == (s, None)
    ensures r.1.Some? ==> var a := r.1.value;
      && a.PlaceOrder? && a.side == Buy && a.orderType == Limit
      && 0 < a.quantity <= 3 * p.orderSize
      && a.price.Some? && a.price.value > 0.0
      && Affordable(a.quantity, a.price.value, c.feeRate, acct.cash)
      && r.0.lastMidPrice == Some(EstimatePrice(md, e, s.lastKnownPrice).0)
      && a.price.value == r.0.lastMidPrice.value + 5.0 * p.spreadSize as real
    ensures r.0 == s.(lastKnownPrice := r.0.lastKnownPrice, lastMidPrice := r.0.lastMidPrice)
    ensures acct.cash > 0.0 ==> r.0.lastKnownPrice == EstimatePrice(md, e, s.lastKnownPrice).1
    ensures r.1.None? ==> r.0.lastMidPrice == s.lastMidPrice
    ensures acct.cash > 0.0 ==>
      (r.1.Some? <==> p.orderSize > 0 && Affordable(1, PanicBuyPrice(p, md, e, s.lastKnownPrice), c.feeRate, acct.cash))
    ensures r.1.Some? ==> r.1.value.price == Some(PanicBuyPrice(p, md, e, s.lastKnownPrice))
    ensures r.1.Some? && r.1.value.quantity < 3 * p.orderSize ==>
      !Affordable(r.1.value.quantity + 1, r.1.value.price.value, c.feeRate, acct.cash)
  {
    if acct.cash <= 0.0 then (s, None)
    else
      var (mid, known) := EstimatePrice(md, e, s.lastKnownPrice);
      var s1 := s.(lastKnownPrice := known);
      var price := mid + (5 * p.spreadSize) as real;
      CostPerSharePositive(price, c.feeRate);
      var quantity := AffordableUpTo(acct.cash, price, c.feeRate, p.orderSize * 3);
      if quantity <= 0 then (s1, None)
      else (s1.(lastMidPrice := Some(mid)), Some(PlaceOrder(Buy, Limit, quantity, Some(price))))
  }

  /** `min(int(cash / (price * (1 + fee))), cap)`: the most shares that
      `cash` pays for at `price` plus fee, but no more than `cap`. */
  function AffordableUpTo(cash: real, price: real, feeRate: real, cap: int): (q: int)
    requires cash > 0.0 && price > 0.0 && feeRate >= 0.0
    ensures q <= cap
    ensures q > 0 <==> cap > 0 && Affordable(1, price, feeRate, cash)
    ensures q > 0 ==> Affordable(q, price, feeRate, cash)
    ensures q < cap ==> !Affordable(q + 1, price, feeRate, cash)
  {
    var unit := CostPerShare(price, feeRate);
    CostPerSharePositive(price, feeRate);
    AffordableQuantity(cash, unit);
    var most := Trunc(cash / unit);
    assert unit <= cash ==> most >= 1 by {
      if unit <= cash { DivAtLeastOne(cash, unit); }
    }
    var q := MinInt(most, cap);
    assert q > 0 ==> q as real * unit <= cash && unit <= cash by {
      if q > 0 { FewerAffordable(q, most, unit, cash); }
    }
    q
  }

  /** The price of a panic buy: 5 spreads over the estimate. */
  function PanicBuyPrice(p: Params, md: MarketData, e: EconomyInsight, lastKnown: Option<real>): real
  {
    EstimatePrice(md, e, lastKnown).0 + (5 * p.spreadSize) as real
  }

  function OptionToSeq(o: Option<Action>): (r: seq<Action>)
    ensures o.None? ==> r == []
    ensures o.Some? ==> r == [o.value]
  {
    if o.Some? then [o.value] else []
  }

  /** SURVIVE emits its aggressive order: below the lower risk bound when
      shares are held, above the upper bound when the cash pays for one share
      at the panic buy price and the order size is positive. */
  predicate PanicOrderDue(p: Params, c: Constants, acct: Account, s: State, md: MarketData, e: EconomyInsight)
  {
    var ratio := InventoryRatio(p, acct, s.lastKnownPrice);
    || (ratio < p.riskLowerBound && acct.shares > 0)
    || (p.riskLowerBound <= ratio && ratio > p.riskUpperBound && acct.cash > 0.0 && p.orderSize > 0
        && Affordable(1, PanicBuyPrice(p, md, e, s.lastKnownPrice), c.feeRate, acct.cash))
  }

  /** The order SURVIVE emits when its panic order is due: a sell of the
      held shares (at most three order sizes) 5 spreads under the estimate,
      floored at 0.01, below the lower bound; above the upper bound a buy 5
      spreads over the estimate of the most shares the cash pays for, at most
      three order sizes. */
  predicate IsPanicOrder(p: Params, c: Constants, acct: Account, s: State, md: MarketData, e: EconomyInsight, a: Action)
  {
    var ratio := InventoryRatio(p, acct, s.lastKnownPrice);
    var mid := EstimatePrice(md, e, s.lastKnownPrice).0;
    && a.PlaceOrder? && a.orderType == Limit && a.price.Some?
    && (ratio < p.riskLowerBound ==>
          && a.side == Sell && a.quantity == MinInt(acct.shares, 3 * p.orderSize)
          && a.price.value >= 0.01 && a.price.value >= mid - 5.0 * p.spreadSize as real
          && (a.price.value == 0.01 || a.price.value == mid - 5.0 * p.spreadSize as real))
    && (ratio >= p.riskLowerBound ==>
          && a.side == Buy && a.price.value == PanicBuyPrice(p, md, e, s.lastKnownPrice)
          && 0 < a.quantity <= 3 * p.orderSize
          && Affordable(a.quantity, a.price.value, c.feeRate, acct.cash)
          && (a.quantity < 3 * p.orderSize ==> !Affordable(a.quantity + 1, a.price.value, c.feeRate, acct.cash)))
  }

  /** The aggressive order of SURVIVE, if any: a panic sell below the lower
      risk bound, a panic buy above the upper bound, nothing inside the band.
      The estimate is remembered as the last known price whenever a panic
      order is attempted, and as the last mid price when one is emitted. */
  function PanicOrder(p: Params, c: Constants, acct: Account, s: State, md: MarketData, e: EconomyInsight): (r: (State, Option<Action>))
    requires ParamsOk(p, c) && PositivePrice(s.lastKnownPrice) && ValidMarketData(md) && ValidEconomy(e)
    ensures r.1.Some? <==> PanicOrderDue(p, c, acct, s, md, e)
    ensures r.1.Some? ==> IsPanicOrder(p, c, acct, s, md, e, r.1.value)
    ensures var ratio := InventoryRatio(p, acct, s.lastKnownPrice);
      r.0.lastKnownPrice ==
        if (ratio < p.riskLowerBound && acct.shares > 0) || (p.riskLowerBound <= ratio && ratio > p.riskUpperBound && acct.cash > 0.0)
        then EstimatePrice(md, e, s.lastKnownPrice).1 else s.lastKnownPrice
    ensures r.0.lastMidPrice == if r.1.Some? then Some(EstimatePrice(md, e, s.lastKnownPrice).0) else s.lastMidPrice
    ensures r.0 == s.(lastKnownPrice := r.0.lastKnownPrice, lastMidPrice := r.0.lastMidPrice)
    ensures PositivePrice(r.0.lastKnownPrice)
  {
    var ratio := InventoryRatio(p, acct, s.lastKnownPrice);
    if ratio < p.riskLowerBound then PanicSell(p, acct, s, md, e)
    else if ratio > p.riskUpperBound then PanicBuy(p, c, acct, s, md, e)
    else (s, None)
  }

  /** `_survive_layer`: first a cancel for every working order (bids, then
      asks, as `CancelAllOrders` states), then the panic order when it is due
      and nothing else. */
  function SurviveLayer(p: Params, c: Constants, acct: Account, s: State, md: MarketData, e: EconomyInsight): (r: Step)
    requires ParamsOk(p, c) && PositivePrice(s.lastKnownPrice) && ValidMarketData(md) && ValidEconomy(e)
    ensures var cancels := CancelAllOrders(s);
      && |r.actions| == |cancels| + (if PanicOrderDue(p, c, acct, s, md, e) then 1 else 0)
      && (forall i :: 0 <= i < |cancels| ==> r.actions[i] == cancels[i])
      && (PanicOrderDue(p, c, acct, s, md, e) ==> IsPanicOrder(p, c, acct, s, md, e, r.actions[|cancels|]))
    ensures r.state.lastMidPrice ==
      if PanicOrderDue(p, c, acct, s, md, e) then Some(EstimatePrice(md, e, s.lastKnownPrice).0) else s.lastMidPrice
    ensures r.state == s.(lastKnownPrice := r.state.lastKnownPrice, lastMidPrice := r.state.lastMidPrice)
    ensures PositivePrice(r.state.lastKnownPrice)
    ensures forall a :: a in r.actions ==> !a.CreateDeposit?
  {
    var (s1, o) := PanicOrder(p, c, acct, s, md, e);
    var cancels := CancelAllOrders(s);
    assert (cancels + OptionToSeq(o))[..|cancels|] == cancels;
    Step(s1, cancels + OptionToSeq(o))
  }

  // ---------------------------------------------------------------------
  // STABILIZE
  // ---------------------------------------------------------------------

  /** `_calculate_skew`: positive when the ratio is below target. */
  function Skew(p: Params, ratio: real): real
  {
    -(ratio - p.targetInventoryFraction) * p.skewFactor as real
  }

  /** The shift of the quote centre: in the direction of the skew, `skew`
      percent of the mid price, at most half the spread. */
  function PriceShift(p: Params, mid: real, skew: real): (shift: real)
    requires p.spreadSize >= 0
    ensures Abs(shift) <= p.spreadSize as real / 2.0
    ensures mid > 0.0 && skew > 0.0 ==> shift >= 0.0
    ensures mid > 0.0 && skew < 0.0 ==> shift <= 0.0
    ensures skew == 0.0 ==> shift == 0.0
  {
    var maxShift := p.spreadSize as real / 2.0;
    var direction := if skew > 0.0 then 1.0 else if skew < 0.0 then -1.0 else 0.0;
    direction * MinReal(Abs(skew / 100.0 * mid), maxShift)
  }

  /** `_calculate_skewed_prices`: bid and ask half a spread around the shifted
      centre, each padded outward by one fee on the mid price, floored at 0.01. */
  function SkewedPrices(p: Params, c: Constants, mid: real, skew: real): (r: (real, real))
    requires ParamsOk(p, c) && mid > 0.0
    ensures r.0 >= 0.01 && r.1 >= 0.01 && r.0 <= r.1
    ensures var centre := mid + PriceShift(p, mid, skew);
      var half := p.spreadSize as real / 2.0 + mid * c.feeRate;
      && (r.0 == 0.01 || r.0 == centre - half)
      && (r.1 == 0.01 || r.1 == centre + half)
      && r.0 >= centre - half
      && r.1 >= centre + half
  {
    var shiftedMid := mid + PriceShift(p, mid, skew);
    var halfSpread := p.spreadSize as real / 2.0;
    var feePerShare := mid * c.feeRate;
    var bid := shiftedMid - halfSpread - feePerShare;
    var ask := shiftedMid + halfSpread + feePerShare;
    (MaxReal(0.01, bid), MaxReal(0.01, ask))
  }

  /** The size multiplier of the side that reduces the imbalance, in [2, 3]. */
  function SupportiveMultiplier(deviation: real): (m: real)
    requires deviation >= 0.0
    ensures 2.0 <= m <= 3.0
  {
    MinReal(2.0 + deviation * 2.0, 3.0)
  }

  /** The size multiplier of the side that adds to the imbalance, in [0.25, 0.5]. */
  function RiskMultiplier(deviation: real): (m: real)
    requires deviation >= 0.0
    ensures 0.25 <= m <= 0.5
  {
    MaxReal(0.5 - deviation, 0.25)
  }

  /** The raw size of the side that reduces the imbalance. */
  function SupportiveSize(p: Params, ratio: real): int
  {
    Trunc(p.orderSize as real * SupportiveMultiplier(Abs(ratio - p.targetInventoryFraction)))
  }

  /** The raw size of the side that adds to the imbalance. */
  function RiskSize(p: Params, ratio: real): int
  {
    Trunc(p.orderSize as real * RiskMultiplier(Abs(ratio - p.targetInventoryFraction)))
  }

  /** `_calculate_skewed_quantities`: with too much cash (ratio above target)
      the bid gets the supportive size and the ask the risk size, otherwise the
      reverse; both then pass validation against cash and holdings. */
  function SkewedQuantities(p: Params, c: Constants, acct: Account, lastKnown: Option<real>, ratio: real): (r: (int, int))
    requires c.feeRate >= 0.0 && PositivePrice(lastKnown)
    ensures r.0 > 0 ==> lastKnown.Some? && Affordable(r.0, lastKnown.value, c.feeRate, acct.cash)
    ensures r.1 > 0 ==> r.1 <= acct.shares
    ensures ratio > p.targetInventoryFraction ==> r.0 <= MaxInt(SupportiveSize(p, ratio), 0) && r.1 <= MaxInt(RiskSize(p, ratio), 0)
    ensures ratio <= p.targetInventoryFraction ==> r.0 <= MaxInt(RiskSize(p, ratio), 0) && r.1 <= MaxInt(SupportiveSize(p, ratio), 0)
    ensures ratio > p.targetInventoryFraction ==>
      r == (ValidateBidQuantity(c, acct, lastKnown, SupportiveSize(p, ratio)), ValidateAskQuantity(acct, RiskSize(p, ratio)))
    ensures ratio <= p.targetInventoryFraction ==>
      r == (ValidateBidQuantity(c, acct, lastKnown, RiskSize(p, ratio)), ValidateAskQuantity(acct, SupportiveSize(p, ratio)))
  {
    var (bidSize, askSize) :=
      if ratio > p.targetInventoryFraction then (SupportiveSize(p, ratio), RiskSize(p, ratio))
      else (RiskSize(p, ratio), SupportiveSize(p, ratio));
    (ValidateBidQuantity(c, acct, lastKnown, bidSize), ValidateAskQuantity(acct, askSize))
  }

  /** With a non-negative order size the side that reduces the imbalance is
      offered at least twice the order size and the other side at most half of
      it, so the supportive side always gets the larger raw size. */
  lemma SizesFavourRebalancing(p: Params, ratio: real)
    requires p.orderSize >= 0
    ensures SupportiveSize(p, ratio) >= 2 * p.orderSize
    ensures 0 <= RiskSize(p, ratio) && RiskSize(p, ratio) as real <= p.orderSize as real / 2.0
    ensures RiskSize(p, ratio) <= SupportiveSize(p, ratio)
  {
    var dev := Abs(ratio - p.targetInventoryFraction);
    var sm := SupportiveMultiplier(dev);
    var rm := RiskMultiplier(dev);
    MulMonotone(2.0, sm, p.orderSize as real);
    MulMonotone(rm, 0.5, p.orderSize as real);
    assert (2 * p.orderSize) as real <= p.orderSize as real * sm;
  }

  /** The fallback quotes when skewing leaves bid >= ask: the mid price plus or
      minus the larger of 1.0 and half the spread. */
  function RecentredPrices(p: Params, mid: real): (r: (real, real))
    ensures r.0 < mid < r.1 && r.1 - mid == mid - r.0 >= 1.0
  {
    var spread := MaxReal(1.0, p.spreadSize as real / 2.0);
    (mid - spread, mid + spread)
  }

  /** The bid and ask STABILIZE quotes at: the skewed prices, or the recentred
      ones when skewing does not leave the bid below the ask. */
  function StabilizeTargets(p: Params, c: Constants, mid: real, ratio: real): (r: (real, real))
    requires ParamsOk(p, c) && mid > 0.0
    ensures r.0 < r.1
    ensures SkewedPrices(p, c, mid, Skew(p, ratio)).0 < SkewedPrices(p, c, mid, Skew(p, ratio)).1 ==>
      r == SkewedPrices(p, c, mid, Skew(p, ratio))
  {
    var (bid, ask) := SkewedPrices(p, c, mid, Skew(p, ratio));
    if bid >= ask then RecentredPrices(p, mid) else (bid, ask)
  }

  /** A quote the agent can honour: a limit order of positive size at a
      positive price, a bid the cash pays for at the known price plus fee, an
      ask the holdings cover. */
  predicate SoundQuote(c: Constants, acct: Account, known: Option<real>, a: Action)
  {
    && a.PlaceOrder? && a.orderType == Limit && a.quantity > 0
    && a.price.Some? && a.price.value > 0.0
    && (a.side == Buy ==> known.Some? && Affordable(a.quantity, known.value, c.feeRate, acct.cash))
    && (a.side == Sell ==> a.quantity <= acct.shares)
  }

  /** A side needs a new quote when no equivalent working order covers it
      and its size and price are positive. */
  predicate NeedsQuote(s: State, side: Side, quantity: int, price: real)
  {
    !HasEquivalentWorkingOrder(s, side, price) && quantity > 0 && price > 0.0
  }

  /** `tail` quotes exactly the sides that need a quote, each once, the bid
      before the ask. */
  predicate QuotesExactly(tail: seq<Action>, s: State, bid: real, bidQuantity: int, ask: real, askQuantity: int)
  {
    var b := PlaceOrder(Buy, Limit, bidQuantity, Some(bid));
    var a := PlaceOrder(Sell, Limit, askQuantity, Some(ask));
    && |tail| <= 2
    && (b in tail <==> NeedsQuote(s, Buy, bidQuantity, bid))
    && (a in tail <==> NeedsQuote(s, Sell, askQuantity, ask))
    && (forall x :: x in tail ==> x == b || x == a)
    && (|tail| == 2 ==> tail[0] == b && tail[1] == a)
  }

  function QuoteIfNeeded(s: State, side: Side, quantity: int, price: real): (r: seq<Action>)
    ensures |r| <= 1
    ensures |r| == 1 <==> NeedsQuote(s, side, quantity, price)
    ensures |r| == 1 ==> r[0] == PlaceOrder(side, Limit, quantity, Some(price))
  {
    if NeedsQuote(s, side, quantity, price) then [PlaceOrder(side, Limit, quantity, Some(price))] else []
  }

  /** The new quotes of a layer, bid first: each side only when no equivalent
      working order already covers it and its size and price are positive. */
  function Quotes(s: State, bid: real, bidQuantity: int, ask: real, askQuantity: int): (r: seq<Action>)
    ensures QuotesExactly(r, s, bid, bidQuantity, ask, askQuantity)
    ensures forall a :: a in r ==>
      && a.PlaceOrder? && a.orderType == Limit && a.quantity > 0 && a.price.Some? && a.price.value > 0.0
      && !HasEquivalentWorkingOrder(s, a.side, a.price.value)
      && (a.side == Buy ==> a.price.value == bid && a.quantity == bidQuantity)
      && (a.side == Sell ==> a.price.value == ask && a.quantity == askQuantity)
  {
    QuoteIfNeeded(s, Buy, bidQuantity, bid) + QuoteIfNeeded(s, Sell, askQuantity, ask)
  }

  /** Quotes whose sizes already passed validation are sound. */
  function ValidatedQuotes(c: Constants, acct: Account, s: State, known: Option<real>,
                           bid: real, bidQuantity: int, ask: real, askQuantity: int): (r: seq<Action>)
    requires bidQuantity > 0 ==> known.Some? && Affordable(bidQuantity, known.value, c.feeRate, acct.cash)
    requires askQuantity > 0 ==> askQuantity <= acct.shares
    ensures QuotesExactly(r, s, bid, bidQuantity, ask, askQuantity)
    ensures forall a :: a in r ==>
      && SoundQuote(c, acct, known, a)
      && !HasEquivalentWorkingOrder(s, a.side, a.price.value)
      && a.price.value == (if a.side == Buy then bid else ask)
  {
    Quotes(s, bid, bidQuantity, ask, askQuantity)
  }

  /** The quotes of STABILIZE at the given targets, sized by `SkewedQuantities`. */
  function StabilizeQuotes(p: Params, c: Constants, acct: Account, s: State, known: Option<real>, ratio: real, bid: real, ask: real): (r: seq<Action>)
    requires c.feeRate >= 0.0 && PositivePrice(known)
    ensures var q := SkewedQuantities(p, c, acct, known, ratio); QuotesExactly(r, s, bid, q.0, ask, q.1)
    ensures forall a :: a in r ==>
      && SoundQuote(c, acct, known, a)
      && !HasEquivalentWorkingOrder(s, a.side, a.price.value)
      && a.price.value == (if a.side == Buy then bid else ask)
  {
    var quantities := SkewedQuantities(p, c, acct, known, ratio);
    ValidatedQuotes(c, acct, s, known, bid, quantities.0, ask, quantities.1)
  }

  /** `_stabilize_layer`: skewed quotes with asymmetric sizes. Only the risk
      side's non-equivalent orders are cancelled; then each side is quoted
      unless an equivalent working order already covers it. The estimate is
      remembered as the last mid price whether or not anything is quoted. */
  function StabilizeLayer(p: Params, c: Constants, acct: Account, s: State, md: MarketData, e: EconomyInsight): (r: Step)
    requires ParamsOk(p, c) && PositivePrice(s.lastKnownPrice) && ValidMarketData(md) && ValidEconomy(e)
    ensures var ratio := InventoryRatio(p, acct, s.lastKnownPrice);
      var (mid, known) := EstimatePrice(md, e, s.lastKnownPrice);
      var (bid, ask) := StabilizeTargets(p, c, mid, ratio);
      var cancels := SelectiveStabilizeCancel(p, s, ratio, bid, ask);
      var q := SkewedQuantities(p, c, acct, known, ratio);
      && r.state == s.(lastKnownPrice := known, lastMidPrice := Some(mid))
      && |cancels| <= |r.actions| <= |cancels| + 2
      && r.actions[..|cancels|] == cancels
      && QuotesExactly(r.actions[|cancels|..], s, bid, q.0, ask, q.1)
      && (forall a :: a in r.actions[|cancels|..] ==>
            && SoundQuote(c, acct, known, a)
            && !HasEquivalentWorkingOrder(s, a.side, a.price.value)
            && a.price.value == (if a.side == Buy then bid else ask))
    ensures forall a :: a in r.actions ==> !a.CreateDeposit?
  {
    var ratio := InventoryRatio(p, acct, s.lastKnownPrice);
    var (mid, known) := EstimatePrice(md, e, s.lastKnownPrice);
    var (bid, ask) := StabilizeTargets(p, c, mid, ratio);
    var cancels := SelectiveStabilizeCancel(p, s, ratio, bid, ask);
    var quotes := StabilizeQuotes(p, c, acct, s, known, ratio, bid, ask);
    assert (cancels + quotes)[..|cancels|] == cancels;
    assert (cancels + quotes)[|cancels|..] == quotes;
    Step(s.(lastKnownPrice := known, lastMidPrice := Some(mid)), cancels + quotes)
  }

  // ---------------------------------------------------------------------
  // PROVIDE
  // ---------------------------------------------------------------------

  /** `_calculate_provide_prices`: half a spread either side of the mid price,
      each padded by half the round-trip fee, floored at 0.01. Unfloored, the
      quotes are symmetric about the mid price. */
  function ProvidePrices(p: Params, c: Constants, mid: real): (r: (real, real))
    requires ParamsOk(p, c) && mid > 0.0
    ensures r.0 >= 0.01 && r.1 >= 0.01 && r.0 <= r.1
    ensures var half := p.spreadSize as real / 2.0 + c.feeRate * mid;
      && (r.1 == 0.01 || r.1 == mid + half) && r.1 >= mid + half
      && (r.0 == 0.01 || r.0 == mid - half)
      && (mid - half >= 0.01 ==> r.0 + r.1 == 2.0 * mid)
  {
    var halfSpread := p.spreadSize as real / 2.0;
    var feePerSide := c.feeRate * mid;
    var totalFee := 2.0 * feePerSide;
    assert totalFee / 2.0 == feePerSide;
    MulMonotone(0.0, c.feeRate, mid);
    assert feePerSide >= 0.0;
    var bid := mid - halfSpread - totalFee / 2.0;
    var ask := mid + halfSpread + totalFee / 2.0;
    (MaxReal(0.01, bid), MaxReal(0.01, ask))
  }

  predicate HasWorkingOrder(d: Dict<OrderView>)
  {
    exists e {:trigger e in d} :: e in d && IsWorking(e.1)
  }

  /** Relative drift of the mid price since the last quote exceeds the drift
      tolerance spread / (2 * last mid). */
  predicate DriftExceeded(p: Params, lastMid: real, mid: real)
  {
    var drift := if lastMid > 0.0 then Abs(mid - lastMid) / lastMid else 0.0;
    var tolerance := if lastMid > 0.0 then p.spreadSize as real / (2.0 * lastMid) else 0.01;
    drift > tolerance
  }

  /** `_should_refresh_quotes`. The `wait_time` gate comes first: while it is
      closed nothing, not even a fill or a layer change, forces a requote.
      Otherwise the first quote, a fill, a layer change, a drift of the mid
      price or a side without working orders does. */
  function ShouldRefreshQuotes(p: Params, s: State, mid: real): (b: bool)
    ensures s.lastQuoteGlobalTick.Some? && s.currentGlobalTick - s.lastQuoteGlobalTick.value < p.waitTime ==> !b
    ensures s.lastQuoteGlobalTick.None? ==> b
    ensures s.lastQuoteGlobalTick.Some? && s.currentGlobalTick - s.lastQuoteGlobalTick.value >= p.waitTime ==>
      (b <==> s.orderFilledThisTick || s.layerChanged
              || (s.lastMidPrice.Some? && DriftExceeded(p, s.lastMidPrice.value, mid))
              || !HasWorkingOrder(s.activeBids) || !HasWorkingOrder(s.activeAsks))
  {
    if s.lastQuoteGlobalTick.Some? && s.currentGlobalTick - s.lastQuoteGlobalTick.value < p.waitTime then false
    else if s.lastQuoteGlobalTick.None? then true
    else if s.orderFilledThisTick then true
    else if s.layerChanged then true
    else if s.lastMidPrice.Some? && DriftExceeded(p, s.lastMidPrice.value, mid) then true
    else !HasWorkingOrder(s.activeBids) || !HasWorkingOrder(s.activeAsks)
  }

  /** The quotes of PROVIDE: the configured order size on each side, validated. */
  function ProvideQuotes(p: Params, c: Constants, acct: Account, s: State, known: Option<real>, bid: real, ask: real): (r: seq<Action>)
    requires c.feeRate >= 0.0 && PositivePrice(known)
    ensures QuotesExactly(r, s, bid, ValidateBidQuantity(c, acct, known, p.orderSize), ask, ValidateAskQuantity(acct, p.orderSize))
    ensures forall a :: a in r ==>
      && SoundQuote(c, acct, known, a)
      && !HasEquivalentWorkingOrder(s, a.side, a.price.value)
      && a.price.value == (if a.side == Buy then bid else ask)
  {
    ValidatedQuotes(c, acct, s, known, bid, ValidateBidQuantity(c, acct, known, p.orderSize),
                    ask, ValidateAskQuantity(acct, p.orderSize))
  }

  /** `_provide_layer`: symmetric quotes of the configured size around the mid
      price. Nothing when the quotes would cross or no refresh is due;
      otherwise every working order not equivalent to the new quotes is
      cancelled and each side without an equivalent working order is quoted.
      A non-empty batch records the quote tick and the mid price. */
  function ProvideLayer(p: Params, c: Constants, acct: Account, s: State, md: MarketData, e: EconomyInsight): (r: Step)
    requires ParamsOk(p, c) && PositivePrice(s.lastKnownPrice) && ValidMarketData(md) && ValidEconomy(e)
    ensures var (mid, known) := EstimatePrice(md, e, s.lastKnownPrice);
      var (bid, ask) := ProvidePrices(p, c, mid);
      var cancels := CancelNonEquivalentOrders(s, bid, ask);
      && (bid >= ask || !ShouldRefreshQuotes(p, s, mid) ==> r.actions == [])
      && (bid < ask && ShouldRefreshQuotes(p, s, mid) ==>
            && |cancels| <= |r.actions| <= |cancels| + 2
            && r.actions[..|cancels|] == cancels
            && QuotesExactly(r.actions[|cancels|..], s, bid, ValidateBidQuantity(c, acct, known, p.orderSize),
                             ask, ValidateAskQuantity(acct, p.orderSize))
            && (forall a :: a in r.actions[|cancels|..] ==>
                  && SoundQuote(c, acct, known, a)
                  && !HasEquivalentWorkingOrder(s, a.side, a.price.value)
                  && a.price.value == (if a.side == Buy then bid else ask)))
      && (r.actions == [] ==> r.state == s.(lastKnownPrice := known))
      && (r.actions != [] ==>
            && bid < ask && ShouldRefreshQuotes(p, s, mid)
            && r.state == s.(lastKnownPrice := known, lastMidPrice := Some(mid),
                             lastQuoteGlobalTick := Some(s.currentGlobalTick)))
    ensures forall a :: a in r.actions ==> !a.CreateDeposit?
  {
    var (mid, known) := EstimatePrice(md, e, s.lastKnownPrice);
    var s1 := s.(lastKnownPrice := known);
    var (bid, ask) := ProvidePrices(p, c, mid);
    if bid >= ask || !ShouldRefreshQuotes(p, s, mid) then Step(s1, [])
    else
      var actions := ProvideBatch(p, c, acct, s, known, bid, ask);
      if |actions| > 0 then
        Step(s1.(lastQuoteGlobalTick := Some(s.currentGlobalTick), lastMidPrice := Some(mid)), actions)
      else
        Step(s1, actions)
  }

  /** The batch of a due PROVIDE refresh: the cancels of the working orders
      not equivalent to the new quotes, then the quotes still needed. */
  function ProvideBatch(p: Params, c: Constants, acct: Account, s: State, known: Option<real>, bid: real, ask: real): (r: seq<Action>)
    requires c.feeRate >= 0.0 && PositivePrice(known)
    ensures var cancels := CancelNonEquivalentOrders(s, bid, ask);
      && |cancels| <= |r| <= |cancels| + 2
      && r[..|cancels|] == cancels
      && QuotesExactly(r[|cancels|..], s, bid, ValidateBidQuantity(c, acct, known, p.orderSize),
                       ask, ValidateAskQuantity(acct, p.orderSize))
      && (forall a :: a in r[|cancels|..] ==>
            && SoundQuote(c, acct, known, a)
            && !HasEquivalentWorkingOrder(s, a.side, a.price.value)
            && a.price.value == (if a.side == Buy then bid else ask))
    ensures forall a :: a in r ==> !a.CreateDeposit?
  {
    var cancels := CancelNonEquivalentOrders(s, bid, ask);
    var quotes := ProvideQuotes(p, c, acct, s, known, bid, ask);
    assert (cancels + quotes)[..|cancels|] == cancels;
    assert (cancels + quotes)[|cancels|..] == quotes;
    cancels + quotes
  }

  // ---------------------------------------------------------------------
  // decide
  // ---------------------------------------------------------------------

  /** The inventory ratio moved from one side of the target to the other. */
  predicate CrossedTarget(p: Params, previous: Option<real>, ratio: real)
  {
    previous.Some? &&
    (previous.value - p.targetInventoryFraction) * (ratio - p.targetInventoryFraction) < 0.0
  }

  /** The layer step for the chosen layer: it keeps the caches and the known
      price positive, and emits only order placements and cancellations. */
  function RunLayer(p: Params, c: Constants, acct: Account, s: State, md: MarketData, e: EconomyInsight, layer: Layer): (r: Step)
    requires ParamsOk(p, c) && PositivePrice(s.lastKnownPrice) && ValidMarketData(md) && ValidEconomy(e)
    ensures PositivePrice(r.state.lastKnownPrice)
    ensures r.state.activeBids == s.activeBids && r.state.activeAsks == s.activeAsks
    ensures r.state.lastLayer == s.lastLayer
    ensures forall a :: a in r.actions ==> !a.CreateDeposit?
  {
    match layer
    case Survive => SurviveLayer(p, c, acct, s, md, e)
    case Stabilize => StabilizeLayer(p, c, acct, s, md, e)
    case Provide => ProvideLayer(p, c, acct, s, md, e)
  }

  /** The state after the bookkeeping `decide` does before running a layer:
      tick counters, the layer (chosen with the price known before this
      decision) and the layer-change flag. */
  function EnterTick(p: Params, c: Constants, acct: Account, s: State, view: AgentView): (s1: State)
    ensures var ratio := InventoryRatio(p, acct, s.lastKnownPrice);
      && s1.lastLayer == DetermineLayer(p, ratio)
      && (s1.layerChanged <==> s.lastLayer != DetermineLayer(p, ratio) || CrossedTarget(p, s.lastInventoryRatio, ratio))
      && s1.lastInventoryRatio == Some(ratio)
    ensures s1.currentGlobalTick == view.macroTick * c.microTicksPerMacro + view.microTick
    ensures s1 == s.(currentMicroTick := s1.currentMicroTick, currentGlobalTick := s1.currentGlobalTick,
                     layerChanged := s1.layerChanged, lastLayer := s1.lastLayer,
                     lastInventoryRatio := s1.lastInventoryRatio)
  {
    var ratio := InventoryRatio(p, acct, s.lastKnownPrice);
    var layer := DetermineLayer(p, ratio);
    var changed := s.lastLayer != layer || CrossedTarget(p, s.lastInventoryRatio, ratio);
    s.(currentMicroTick := view.microTick,
       currentGlobalTick := view.macroTick * c.microTicksPerMacro + view.microTick,
       layerChanged := changed,
       lastLayer := layer,
       lastInventoryRatio := Some(ratio))
  }

  /** `decide`: bookkeeping, then the chosen layer, then the actions numbered
      with consecutive intent ids. */
  function Decide(p: Params, c: Constants, acct: Account, s: State, view: AgentView): (r: Decision)
    requires view.agentId == p.agentId && view.marketData.Some? && view.economy.Some?
    requires Invariant(p, c, s) && ValidMarketData(view.marketData.value) && ValidEconomy(view.economy.value)
    ensures Invariant(p, c, r.state)
    ensures r.state.nextIntentId == s.nextIntentId + |r.intents|
    ensures forall i :: 0 <= i < |r.intents| ==> r.intents[i].intentId == s.nextIntentId + i
    ensures forall i :: 0 <= i < |r.intents| ==> !r.intents[i].action.CreateDeposit?
    ensures r.state.lastLayer == DetermineLayer(p, InventoryRatio(p, acct, s.lastKnownPrice))
    ensures r.state.activeBids == s.activeBids && r.state.activeAsks == s.activeAsks
    ensures var step := RunLayer(p, c, acct, EnterTick(p, c, acct, s, view), view.marketData.value, view.economy.value,
                                 DetermineLayer(p, InventoryRatio(p, acct, s.lastKnownPrice)));
      && ActionsOf(r.intents) == step.actions
      && r.state == step.state.(nextIntentId := s.nextIntentId + |step.actions|)
  {
    var s1 := EnterTick(p, c, acct, s, view);
    var step := RunLayer(p, c, acct, s1, view.marketData.value, view.economy.value, s1.lastLayer);
    StampActions(step.actions, s.nextIntentId);
    assert forall i :: 0 <= i < |step.actions| ==> step.actions[i] in step.actions;
    Decision(step.state.(nextIntentId := s.nextIntentId + |step.actions|), Stamp(step.actions, s.nextIntentId))
  }

  /** Priority: when the ratio breaches a risk bound, `decide` first cancels
      every working order and then emits the panic order when it is due and
      nothing else, whatever the STABILIZE or PROVIDE logic would have done. */
  lemma DecideSurvivePriority(p: Params, c: Constants, acct: Account, s: State, view: AgentView)
    requires view.agentId == p.agentId && view.marketData.Some? && view.economy.Some?
    requires Invariant(p, c, s) && ValidMarketData(view.marketData.value) && ValidEconomy(view.economy.value)
    requires ShouldSurvive(p, InventoryRatio(p, acct, s.lastKnownPrice))
    ensures var r := Decide(p, c, acct, s, view);
      var md := view.marketData.value;
      var e := view.economy.value;
      var cancels := CancelAllOrders(s);
      && |r.intents| == |cancels| + (if PanicOrderDue(p, c, acct, s, md, e) then 1 else 0)
      && (forall i :: 0 <= i < |cancels| ==> r.intents[i].action == cancels[i])
      && (PanicOrderDue(p, c, acct, s, md, e) ==> IsPanicOrder(p, c, acct, s, md, e, r.intents[|cancels|].action))
  {
    var md := view.marketData.value;
    var e := view.economy.value;
    var s1 := EnterTick(p, c, acct, s, view);
    var step := SurviveLayer(p, c, acct, s1, md, e);
    assert CancelAllOrders(s1) == CancelAllOrders(s);
    assert PanicOrderDue(p, c, acct, s1, md, e) == PanicOrderDue(p, c, acct, s, md, e);
    assert forall a :: IsPanicOrder(p, c, acct, s1, md, e, a) == IsPanicOrder(p, c, acct, s, md, e, a);
    var cancels := CancelAllOrders(s);
    assert forall i :: 0 <= i < |cancels| ==> step.actions[i] == step.actions[..|cancels|][i];
  }

  /** The cancels of STABILIZE name orders of the risk-side cache only. */
  lemma StabilizeLayerCancelsRiskSide(p: Params, c: Constants, acct: Account, s: State, md: MarketData, e: EconomyInsight)
    requires ParamsOk(p, c) && PositivePrice(s.lastKnownPrice) && ValidMarketData(md) && ValidEconomy(e)
    ensures var ratio := InventoryRatio(p, acct, s.lastKnownPrice);
      var cache := if ratio < p.targetInventoryFraction then s.activeBids else s.activeAsks;
      forall a :: a in StabilizeLayer(p, c, acct, s, md, e).actions && a.CancelOrder? ==> a.orderId in KeySet(cache)
  {
    var step := StabilizeLayer(p, c, acct, s, md, e);
    var ratio := InventoryRatio(p, acct, s.lastKnownPrice);
    var (bid, ask) := StabilizeTargets(p, c, EstimatePrice(md, e, s.lastKnownPrice).0, ratio);
    var cancels := SelectiveStabilizeCancel(p, s, ratio, bid, ask);
    var cache := if ratio < p.targetInventoryFraction then s.activeBids else s.activeAsks;
    assert step.actions == cancels + step.actions[|cancels|..];
    forall a | a in step.actions && a.CancelOrder? ensures a.orderId in KeySet(cache) {
      if a in cancels {
        var v :| (a.orderId, v) in cache;
        KeySetMember(cache, a.orderId, v);
      }
    }
  }

  /** STABILIZE only ever cancels orders of the risk side: bids when the ratio
      is below target, asks otherwise. */
  lemma DecideStabilizeCancelsRiskSide(p: Params, c: Constants, acct: Account, s: State, view: AgentView)
    requires view.agentId == p.agentId && view.marketData.Some? && view.economy.Some?
    requires Invariant(p, c, s) && ValidMarketData(view.marketData.value) && ValidEconomy(view.economy.value)
    requires DetermineLayer(p, InventoryRatio(p, acct, s.lastKnownPrice)) == Stabilize
    ensures var r := Decide(p, c, acct, s, view);
      var ratio := InventoryRatio(p, acct, s.lastKnownPrice);
      forall i :: 0 <= i < |r.intents| && r.intents[i].action.CancelOrder? ==>
        (ratio < p.targetInventoryFraction ==> r.intents[i].action.orderId in KeySet(s.activeBids))
        && (ratio >= p.targetInventoryFraction ==> r.intents[i].action.orderId in KeySet(s.activeAsks))
  {
    var s1 := EnterTick(p, c, acct, s, view);
    var step := StabilizeLayer(p, c, acct, s1, view.marketData.value, view.economy.value);
    StabilizeLayerCancelsRiskSide(p, c, acct, s1, view.marketData.value, view.economy.value);
    assert forall i :: 0 <= i < |step.actions| ==> step.actions[i] in step.actions;
  }

  /** Every bid of a batch is priced below every ask of the batch. */
  predicate BidsBelowAsks(actions: seq<Action>)
  {
    forall a, b :: a in actions && b in actions && a.PlaceOrder? && b.PlaceOrder? && a.side == Buy && b.side == Sell ==>
      a.price.Some? && b.price.Some? && a.price.value < b.price.value
  }

  lemma ProvideLayerNeverCrosses(p: Params, c: Constants, acct: Account, s: State, md: MarketData, e: EconomyInsight)
    requires ParamsOk(p, c) && PositivePrice(s.lastKnownPrice) && ValidMarketData(md) && ValidEconomy(e)
    ensures BidsBelowAsks(ProvideLayer(p, c, acct, s, md, e).actions)
  {
    var step := ProvideLayer(p, c, acct, s, md, e);
    var (bid, ask) := ProvidePrices(p, c, EstimatePrice(md, e, s.lastKnownPrice).0);
    var cancels := CancelNonEquivalentOrders(s, bid, ask);
    if step.actions != [] {
      assert step.actions == cancels + step.actions[|cancels|..];
      forall a | a in step.actions && a.PlaceOrder?
        ensures a.price == Some(if a.side == Buy then bid else ask)
      {
        assert a !in cancels;
      }
    }
  }

  /** PROVIDE never quotes a bid at or above the ask of the same batch. */
  lemma DecideProvideNeverCrosses(p: Params, c: Constants, acct: Account, s: State, view: AgentView)
    requires view.agentId == p.agentId && view.marketData.Some? && view.economy.Some?
    requires Invariant(p, c, s) && ValidMarketData(view.marketData.value) && ValidEconomy(view.economy.value)
    requires DetermineLayer(p, InventoryRatio(p, acct, s.lastKnownPrice)) == Provide
    ensures BidsBelowAsks(ActionsOf(Decide(p, c, acct, s, view).intents))
  {
    var s1 := EnterTick(p, c, acct, s, view);
    var step := ProvideLayer(p, c, acct, s1, view.marketData.value, view.economy.value);
    assert RunLayer(p, c, acct, s1, view.marketData.value, view.economy.value, s1.lastLayer) == step;
    StampActions(step.actions, s.nextIntentId);
    ProvideLayerNeverCrosses(p, c, acct, s1, view.marketData.value, view.economy.value);
  }

  /** The worked case: a market maker that last saw a price of 10, holding
      cash 1000 and 50 shares (ratio 1000 / 1500, inside the risk band and
      within tolerance of the target 0.5), enters PROVIDE on its first decision
      and quotes exactly one bid and one ask, symmetric about the mid price 10. */
  lemma FirstDecideProvidesTwoQuotes()
    ensures var p := Params(1, 0.5, 0.2, 0.8, 0.2, 2, 10, 5, 1);
      var c := Constants(10, 0.001);
      var s := Init().(lastKnownPrice := Some(10.0));
      var md := MarketData(Some(10.0), None, None, None, None);
      var view := AgentView(1, 0, 1, Some(md), Some(EconomyInsight(9.0, 11.0, [])));
      var r := Decide(p, c, Account(1000.0, 50), s, view);
      && r.state.lastLayer == Provide
      && |r.intents| == 2
      && r.intents[0].action == PlaceOrder(Buy, Limit, 10, Some(8.99))
      && r.intents[1].action == PlaceOrder(Sell, Limit, 10, Some(11.01))
      && 8.99 + 11.01 == 2.0 * 10.0
  {
    var p := Params(1, 0.5, 0.2, 0.8, 0.2, 2, 10, 5, 1);
    var c := Constants(10, 0.001);
    var acct := Account(1000.0, 50);
    var s := Init().(lastKnownPrice := Some(10.0));
    var md := MarketData(Some(10.0), None, None, None, None);
    var e := EconomyInsight(9.0, 11.0, []);
    var view := AgentView(1, 0, 1, Some(md), Some(e));
    assert InventoryRatio(p, acct, s.lastKnownPrice) == 1000.0 / 1500.0;
    assert DetermineLayer(p, 1000.0 / 1500.0) == Provide;
    var s1 := EnterTick(p, c, acct, s, view);
    assert s1 == s.(currentMicroTick := 1, currentGlobalTick := 1, layerChanged := false,
                    lastLayer := Provide, lastInventoryRatio := Some(1000.0 / 1500.0));
    assert EstimatePrice(md, e, s1.lastKnownPrice) == (10.0, Some(10.0));
    assert ProvidePrices(p, c, 10.0) == (8.99, 11.01);
    assert ShouldRefreshQuotes(p, s1, 10.0);
    assert !HasEquivalentWorkingOrder(s1, Buy, 8.99) && !HasEquivalentWorkingOrder(s1, Sell, 11.01);
    var q := ValidateBidQuantity(c, acct, Some(10.0), 10);
    assert CostPerShare(10.0, 0.001) == 10.01;
    assert q == 10 by {
      assert q > 0;
      MulMonotone((MinInt(q, 9) + 1) as real, 10.0, 10.01);
    }
    assert ValidateAskQuantity(acct, 10) == 10;
    assert CancelNonEquivalentOrders(s1, 8.99, 11.01) == [];
    var quotes := [PlaceOrder(Buy, Limit, 10, Some(8.99)), PlaceOrder(Sell, Limit, 10, Some(11.01))];
    assert Quotes(s1, 8.99, 10, 11.01, 10) == quotes;
    assert ProvideQuotes(p, c, acct, s1, Some(10.0), 8.99, 11.01) == quotes;
    var step := ProvideLayer(p, c, acct, s1, md, e);
    assert step.actions == quotes;
    assert RunLayer(p, c, acct, s1, md, e, Provide) == step;
  }

  /** With a quote on record and fewer than `wait_time` ticks since, PROVIDE
      emits nothing, even after a fill or a layer change. */
  lemma DecideProvideWaits(p: Params, c: Constants, acct: Account, s: State, view: AgentView)
    requires view.agentId == p.agentId && view.marketData.Some? && view.economy.Some?
    requires Invariant(p, c, s) && ValidMarketData(view.marketData.value) && ValidEconomy(view.economy.value)
    requires DetermineLayer(p, InventoryRatio(p, acct, s.lastKnownPrice)) == Provide
    requires s.lastQuoteGlobalTick.Some?
    requires view.macroTick * c.microTicksPerMacro + view.microTick - s.lastQuoteGlobalTick.value < p.waitTime
    ensures Decide(p, c, acct, s, view).intents == []
  {
    var s1 := EnterTick(p, c, acct, s, view);
    var step := ProvideLayer(p, c, acct, s1, view.marketData.value, view.economy.value);
  }

  // -- update ------------------------------------------------------------

  /** The results of a batch with every order of the other side blanked out,
      positions kept. */
  function OnSide(results: Dict<Option<OrderView>>, side: Side): (r: Dict<Option<OrderView>>)
    ensures |r| == |results|
    ensures forall i :: 0 <= i < |r| ==>
      r[i] == if results[i].1.Some? && results[i].1.value.side == side then results[i] else (results[i].0, None)
  {
    seq(|results|, i requires 0 <= i < |results| =>
      if results[i].1.Some? && results[i].1.value.side == side then results[i] else (results[i].0, None))
  }

  /** The order ids of the non-empty results whose side is `side`. */
  function FiledIds(results: Dict<Option<OrderView>>, side: Side): set<int>
  {
    OrderIds(OnSide(results, side))
  }

  /** Files every non-empty order result, in feedback order, under its order
      id: buys into the bid cache, everything else into the ask cache. The
      source does this in one pass; as each result touches one cache only,
      the two caches are filed independently here. */
  function FileResults(bids: Dict<OrderView>, asks: Dict<OrderView>, results: Dict<Option<OrderView>>): (r: (Dict<OrderView>, Dict<OrderView>))
    ensures KeySet(r.0) == KeySet(bids) + FiledIds(results, Buy)
    ensures KeySet(r.1) == KeySet(asks) + FiledIds(results, Sell)
    ensures CacheOk(bids, Buy) ==> CacheOk(r.0, Buy)
    ensures CacheOk(asks, Sell) ==> CacheOk(r.1, Sell)
    ensures forall e {:trigger e in bids} {:trigger e in r.0} :: e in r.0 ==> e in bids || exists i :: 0 <= i < |results| && results[i].1 == Some(e.1)
    ensures forall e {:trigger e in asks} {:trigger e in r.1} :: e in r.1 ==> e in asks || exists i :: 0 <= i < |results| && results[i].1 == Some(e.1)
    ensures forall i :: LastFor(results, OrderIdOf, i) ==> var v := results[i].1.value;
      (v.orderId, v) in (if v.side == Buy then r.0 else r.1)
  {
    (FileSide(bids, results, Buy), FileSide(asks, results, Sell))
  }

  /** Files the results of one side into that side's cache. */
  function FileSide(d: Dict<OrderView>, results: Dict<Option<OrderView>>, side: Side): (r: Dict<OrderView>)
    ensures KeySet(r) == KeySet(d) + FiledIds(results, side)
    ensures CacheOk(d, side) ==> CacheOk(r, side)
    ensures forall e {:trigger e in d} {:trigger e in r} :: e in r ==> e in d || exists i :: 0 <= i < |results| && results[i].1 == Some(e.1)
    ensures forall i :: LastFor(results, OrderIdOf, i) && results[i].1.value.side == side ==>
      (results[i].1.value.orderId, results[i].1.value) in r
  {
    var masked := OnSide(results, side);
    var r := RecordResults(d, masked, OrderIdOf);
    assert forall i :: LastFor(results, OrderIdOf, i) && results[i].1.value.side == side ==> LastFor(masked, OrderIdOf, i) by {
      forall i | LastFor(results, OrderIdOf, i) && results[i].1.value.side == side
        ensures LastFor(masked, OrderIdOf, i)
      {
        forall j | i < j < |masked| && masked[j].1.Some?
          ensures OrderIdOf(masked[j].1.value) != OrderIdOf(masked[i].1.value)
        {
          assert masked[j] == results[j];
        }
      }
    }
    assert forall e {:trigger e in d} {:trigger e in r} :: e in r && e !in d ==> exists i :: 0 <= i < |results| && results[i].1 == Some(e.1) && e.1.side == side by {
      forall e {:trigger e in d} {:trigger e in r} | e in r && e !in d
        ensures exists i :: 0 <= i < |results| && results[i].1 == Some(e.1) && e.1.side == side
      {
        var i :| 0 <= i < |masked| && masked[i].1 == Some(e.1);
        assert results[i].1 == Some(e.1);
      }
    }
    r
  }

  predicate IsFilledDone(o: OrderView)
  {
    o.lifecycle == Done && o.endReason == Some(Filled)
  }

  function AnyFilledDone(d: Dict<OrderView>): (b: bool)
    ensures b <==> exists e {:trigger e in d} :: e in d && IsFilledDone(e.1)
  {
    if |d| == 0 then false
    else
      assert forall e :: e in d <==> e == d[0] || e in d[1..];
      assert d[0] in d;
      IsFilledDone(d[0].1) || AnyFilledDone(d[1..])
  }

  /** `_cleanup_done_orders` on one cache: drops the done orders and reports
      whether one of them was filled. */
  function PurgeDone(d: Dict<OrderView>): (r: (Dict<OrderView>, bool))
    ensures forall e {:trigger e in d} {:trigger e in r.0} :: e in r.0 <==> e in d && e.1.lifecycle != Done
    ensures r.1 <==> exists e {:trigger e in d} :: e in d && e.1.lifecycle == Done && e.1.endReason == Some(Filled)
    ensures Valid(d) ==> Valid(r.0)
  {
    (DropDoneOrders(d), AnyFilledDone(d))
  }

  /** `update`: files the results, purges done orders from both caches and sets
      the fill flag iff a purged order was filled. */
  function Update(s: State, fb: Feedback): (s': State)
    ensures var filed := FileResults(s.activeBids, s.activeAsks, fb.orderResults);
      && (forall e {:trigger e in filed.0} {:trigger e in s'.activeBids} :: e in s'.activeBids <==> e in filed.0 && e.1.lifecycle != Done)
      && (forall e {:trigger e in filed.1} {:trigger e in s'.activeAsks} :: e in s'.activeAsks <==> e in filed.1 && e.1.lifecycle != Done)
      && (s'.orderFilledThisTick <==>
            (exists e {:trigger e in filed.0} :: e in filed.0 && IsFilledDone(e.1)) || (exists e {:trigger e in filed.1} :: e in filed.1 && IsFilledDone(e.1)))
    ensures KeySet(s'.activeBids) <= KeySet(s.activeBids) + FiledIds(fb.orderResults, Buy)
    ensures KeySet(s'.activeAsks) <= KeySet(s.activeAsks) + FiledIds(fb.orderResults, Sell)
    ensures CacheOk(s.activeBids, Buy) ==> CacheOk(s'.activeBids, Buy)
    ensures CacheOk(s.activeAsks, Sell) ==> CacheOk(s'.activeAsks, Sell)
    ensures s' == s.(activeBids := s'.activeBids, activeAsks := s'.activeAsks,
                     orderFilledThisTick := s'.orderFilledThisTick)
  {
    var (bids, asks) := FileResults(s.activeBids, s.activeAsks, fb.orderResults);
    var (keptBids, filledBid) := PurgeDone(bids);
    var (keptAsks, filledAsk) := PurgeDone(asks);
    s.(activeBids := keptBids, activeAsks := keptAsks, orderFilledThisTick := filledBid || filledAsk)
  }

  /** After `update` each order holds its last reported state: the last
      result for an order id is cached on its side unless it is done, and a
      done one leaves no entry with that id. */
  lemma UpdateKeepsLastResults(s: State, fb: Feedback)
    ensures forall i :: LastFor(fb.orderResults, OrderIdOf, i) && fb.orderResults[i].1.value.lifecycle != Done ==>
      var v := fb.orderResults[i].1.value;
      (v.orderId, v) in (if v.side == Buy then Update(s, fb).activeBids else Update(s, fb).activeAsks)
    ensures CacheOk(s.activeBids, Buy) && CacheOk(s.activeAsks, Sell) ==>
      forall i :: LastFor(fb.orderResults, OrderIdOf, i) && fb.orderResults[i].1.value.lifecycle == Done ==>
        var v := fb.orderResults[i].1.value;
        v.orderId !in KeySet(if v.side == Buy then Update(s, fb).activeBids else Update(s, fb).activeAsks)
  {
    var (bids, asks) := FileResults(s.activeBids, s.activeAsks, fb.orderResults);
    var s' := Update(s, fb);
    if CacheOk(s.activeBids, Buy) && CacheOk(s.activeAsks, Sell) {
      forall i | LastFor(fb.orderResults, OrderIdOf, i) && fb.orderResults[i].1.value.lifecycle == Done
        ensures var v := fb.orderResults[i].1.value;
          v.orderId !in KeySet(if v.side == Buy then s'.activeBids else s'.activeAsks)
      {
        var v := fb.orderResults[i].1.value;
        if v.side == Buy {
          DoneResultDropped(bids, v);
        } else {
          DoneResultDropped(asks, v);
        }
      }
    }
  }

  /** After `update` neither cache holds a done order. */
  lemma UpdateLeavesNoDoneOrders(s: State, fb: Feedback)
    ensures forall e {:trigger e in Update(s, fb).activeBids} :: e in Update(s, fb).activeBids ==> e.1.lifecycle == Working
    ensures forall e {:trigger e in Update(s, fb).activeAsks} :: e in Update(s, fb).activeAsks ==> e.1.lifecycle == Working
  {
  }

  /** `update` keeps the invariant `decide` relies on. */
  lemma UpdateKeepsInvariant(p: Params, c: Constants, s: State, fb: Feedback)
    requires Invariant(p, c, s)
    ensures Invariant(p, c, Update(s, fb))
  {
  }
}
