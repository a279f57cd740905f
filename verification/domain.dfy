/** The boundary data model between the simulation engine, the agents and the
    external market: views the agents read, intents they emit and the
    feedback they receive. */
module Domain {
  import opened Wrappers
  import opened Dicts

  datatype Side = Buy | Sell

  datatype OrderType = Limit | MarketOrder

  datatype Lifecycle = Working | Done

  /** Why an order reached `Done`; `OtherEnd` stands for every reason besides
      a fill or a cancellation. */
  datatype EndReason = Filled | Cancelled | OtherEnd

  /** The market's view of one order, as copied into an agent's cache. */
  datatype OrderView = OrderView(
    orderId: int,
    side: Side,
    lifecycle: Lifecycle,
    endReason: Option<EndReason>,
    price: Option<real>)

  datatype DepositView = DepositView(depositId: int, maturityMacroTick: int)

  /** One side of the top of the book: `(price, size, #orders)`. */
  datatype BookLevel = BookLevel(price: real, size: int, orderCount: int)

  /** The market-data snapshot shared by all agents in a tick. */
  datatype MarketData = MarketData(
    midPrice: Option<real>,
    microPrice: Option<real>,
    lastTradedPrice: Option<real>,
    bestBid: Option<BookLevel>,
    bestAsk: Option<BookLevel>)

  /** The economy-insight snapshot: the fair-value interval and the deposit
      rate offered for each term (in the order the economy lists them). */
  datatype EconomyInsight = EconomyInsight(
    tvLow: real,
    tvHigh: real,
    depositRates: Dict<real>)

  /** What one agent sees on one tick (the wall-clock timestamp is left out). */
  datatype AgentView = AgentView(
    agentId: int,
    macroTick: int,
    microTick: int,
    marketData: Option<MarketData>,
    economy: Option<EconomyInsight>)

  /** Shared per-population constants: micro ticks per macro tick and the fee
      rate as a fraction. */
  datatype Constants = Constants(microTicksPerMacro: int, feeRate: real)

  /** The live account the market keeps for an agent, read at decision time. */
  datatype Account = Account(cash: real, shares: int)

  /** The request an intent carries. */
  datatype Action =
    | PlaceOrder(side: Side, orderType: OrderType, quantity: int, price: Option<real>)
    | CancelOrder(orderId: int)
    | CreateDeposit(amount: real, term: int)

  /** An action together with the agent-local sequence number that correlates
      it with its feedback. */
  datatype Intent = Intent(intentId: int, action: Action)

  /** The market's answers to one batch of intents, keyed by intent id. */
  datatype Feedback = Feedback(
    agentId: int,
    orderResults: Dict<Option<OrderView>>,
    depositResults: Dict<Option<DepositView>>)

  /** The Python exceptions the modelled code can raise; a raise ends the
      simulation, so a `Failure` is never caught. */
  datatype Raised =
    | ZeroDivisionError
    | ValueError
    | RuntimeError
    | AssertionError
    | AttributeError
    | IndexError

  /** What one share costs at `price` once the proportional fee is added. */
  function CostPerShare(price: real, feeRate: real): real
  {
    price * (1.0 + feeRate)
  }

  lemma CostPerSharePositive(price: real, feeRate: real)
    requires price > 0.0 && feeRate >= 0.0
    ensures CostPerShare(price, feeRate) >= price > 0.0
  {
  }

  /** `quantity` shares at `price` plus fee cost no more than `cash`. */
  predicate Affordable(quantity: int, price: real, feeRate: real, cash: real)
  {
    quantity as real * CostPerShare(price, feeRate) <= cash
  }

  /** Market prices, when quoted, are positive. */
  predicate PositivePrice(p: Option<real>)
  {
    p.Some? ==> p.value > 0.0
  }

  predicate ValidMarketData(md: MarketData)
  {
    && PositivePrice(md.midPrice)
    && PositivePrice(md.microPrice)
    && PositivePrice(md.lastTradedPrice)
  }

  /** The largest deposit term on offer (Python's `max(deposit_rates.keys())`). */
  function MaxTerm(rates: Dict<real>): (m: int)
    requires |rates| > 0
    ensures m in KeySet(rates)
    ensures forall i :: 0 <= i < |rates| ==> rates[i].0 <= m
  {
    if |rates| == 1 then
      assert rates[0].0 in KeySet(rates);
      rates[0].0
    else
      var m := MaxTerm(rates[..|rates| - 1]);
      assert forall i :: 0 <= i < |rates| - 1 ==> rates[..|rates| - 1][i] == rates[i];
      assert rates[|rates| - 1].0 in KeySet(rates);
      assert m in KeySet(rates) by {
        var i :| 0 <= i < |rates[..|rates| - 1]| && rates[..|rates| - 1][i].0 == m;
        assert rates[i].0 == m;
      }
      if rates[|rates| - 1].0 > m then rates[|rates| - 1].0 else m
  }

  /** A positive fair-value interval and a rate table that does not make the
      horizon penalty divide by a zero maximal term. */
  predicate ValidEconomy(e: EconomyInsight)
  {
    && 0.0 < e.tvLow <= e.tvHigh
    && Valid(e.depositRates)
    && (|e.depositRates| > 0 ==> MaxTerm(e.depositRates) != 0)
  }

  /** Numbers a batch of actions with consecutive intent ids starting at
      `next`, as reading the agent's `intent_id` property once per emitted
      intent does: each read yields the counter and increments it. */
  function Stamp(actions: seq<Action>, next: int): (r: seq<Intent>)
    ensures |r| == |actions|
    ensures forall i :: 0 <= i < |r| ==> r[i].intentId == next + i && r[i].action == actions[i]
  {
    if |actions| == 0 then []
    else [Intent(next, actions[0])] + Stamp(actions[1..], next + 1)
  }

  /** The ids of one stamped batch are strictly increasing from `next`, so
      they are pairwise distinct and all at least `next`. */
  lemma StampIdsIncreasing(actions: seq<Action>, next: int)
    ensures forall i, j :: 0 <= i < j < |actions| ==>
      next <= Stamp(actions, next)[i].intentId < Stamp(actions, next)[j].intentId
  {
    var r := Stamp(actions, next);
    forall i, j | 0 <= i < j < |actions| ensures next <= r[i].intentId < r[j].intentId {
      assert r[i].intentId == next + i && r[j].intentId == next + j;
    }
  }

  /** The actions a batch of intents carries, in order. */
  function ActionsOf(intents: seq<Intent>): (r: seq<Action>)
    ensures |r| == |intents|
    ensures forall i :: 0 <= i < |r| ==> r[i] == intents[i].action
  {
    seq(|intents|, i requires 0 <= i < |intents| => intents[i].action)
  }

  /** Numbering a batch keeps its actions and their order. */
  lemma StampActions(actions: seq<Action>, next: int)
    ensures ActionsOf(Stamp(actions, next)) == actions
  {
  }

  function IntentIds(intents: seq<Intent>): set<int>
  {
    set i | 0 <= i < |intents| :: intents[i].intentId
  }

  /** A stamped batch of `n` actions uses exactly the ids `next .. next+n-1`. */
  lemma StampIdRange(actions: seq<Action>, next: int)
    ensures forall id :: id in IntentIds(Stamp(actions, next)) <==> next <= id < next + |actions|
  {
    var r := Stamp(actions, next);
    forall id | next <= id < next + |actions| ensures id in IntentIds(r) {
      assert r[id - next].intentId == id;
    }
  }

  function OrderIdOf(o: OrderView): int { o.orderId }

  /** The order ids of the non-empty results of a feedback. */
  function OrderIds(results: Dict<Option<OrderView>>): set<int>
  {
    ResultKeys(results, OrderIdOf)
  }

  /** Records every non-empty order result under its order id, in feedback
      order (`pending_orders[order_view.order_id] = order_view`). */
  function RecordOrders(d: Dict<OrderView>, results: Dict<Option<OrderView>>): (r: Dict<OrderView>)
    ensures KeySet(r) == KeySet(d) + OrderIds(results)
    ensures Valid(d) ==> Valid(r)
    ensures forall e {:trigger e in d} {:trigger e in r} :: e in r ==> e in d || exists i :: 0 <= i < |results| && results[i].1 == Some(e.1)
    ensures forall e {:trigger e in r} {:trigger e in d} :: e in d && e.0 !in OrderIds(results) ==> e in r
    ensures forall i :: LastFor(results, OrderIdOf, i) ==> (results[i].1.value.orderId, results[i].1.value) in r
  {
    RecordResults(d, results, OrderIdOf)
  }

  /** A done order recorded under its own id leaves no entry with that id
      once the done orders are dropped. */
  lemma DoneResultDropped(d: Dict<OrderView>, v: OrderView)
    requires Valid(d) && (v.orderId, v) in d && v.lifecycle == Done
    ensures v.orderId !in KeySet(DropDoneOrders(d))
  {
    var r := DropDoneOrders(d);
    if v.orderId in KeySet(r) {
      var i :| 0 <= i < |r| && r[i].0 == v.orderId;
      assert r[i] in r;
      ValidEntriesAgree(d, v.orderId, v, r[i].1);
      assert false;
    }
  }

  /** `_cleanup_done_orders`: drops exactly the done orders. */
  function DropDoneOrders(d: Dict<OrderView>): (r: Dict<OrderView>)
    ensures forall e {:trigger e in d} {:trigger e in r} :: e in r <==> e in d && e.1.lifecycle != Done
    ensures KeySet(r) <= KeySet(d)
    ensures Valid(d) ==> Valid(r)
  {
    Filter(d, (o: OrderView) => o.lifecycle != Done)
  }
}
