/** The agent interface (`decide` / `update`) over the four agent kinds of the
    simulation. The NoiseTrader's decision rule is not part of this model: its
    batch of intents is an input and its `update` leaves it as it was. */
module Agents {
  import opened Wrappers
  import opened Domain
  import MarketMaker
  import ValueInvestor
  import MomentumTrader

  datatype Kind = MarketMakerKind | ValueInvestorKind | MomentumTraderKind | NoiseTraderKind

  datatype Agent =
    | MarketMakerAgent(mmParams: MarketMaker.Params, mmState: MarketMaker.State)
    | ValueInvestorAgent(viParams: ValueInvestor.Params, viState: ValueInvestor.State)
    | MomentumTraderAgent(mtParams: MomentumTrader.Params, mtState: MomentumTrader.State)
    | NoiseTraderAgent(noiseId: int)

  function KindOf(a: Agent): Kind
  {
    match a
    case MarketMakerAgent(_, _) => MarketMakerKind
    case ValueInvestorAgent(_, _) => ValueInvestorKind
    case MomentumTraderAgent(_, _) => MomentumTraderKind
    case NoiseTraderAgent(_) => NoiseTraderKind
  }

  function IdOf(a: Agent): int
  {
    match a
    case MarketMakerAgent(p, _) => p.agentId
    case ValueInvestorAgent(p, _) => p.agentId
    case MomentumTraderAgent(p, _) => p.agentId
    case NoiseTraderAgent(id) => id
  }

  /** Only ValueInvestors and MarketMakers are shown the economy insight. */
  predicate ReadsEconomy(k: Kind)
  {
    k == ValueInvestorKind || k == MarketMakerKind
  }

  /** The intent-id counter of an agent whose code is modelled. */
  function NextIntentId(a: Agent): int
    requires !a.NoiseTraderAgent?
  {
    match a
    case MarketMakerAgent(_, s) => s.nextIntentId
    case ValueInvestorAgent(_, s) => s.nextIntentId
    case MomentumTraderAgent(_, s) => s.nextIntentId
  }

  /** The state invariant each kind keeps from one call to the next. */
  predicate Ready(c: Constants, a: Agent)
  {
    match a
    case MarketMakerAgent(p, s) => MarketMaker.Invariant(p, c, s)
    case ValueInvestorAgent(_, s) => ValueInvestor.Invariant(c, s)
    case MomentumTraderAgent(p, s) => c.feeRate >= 0.0 && MomentumTrader.Invariant(p, s)
    case NoiseTraderAgent(_) => true
  }

  /** A view an agent can be handed: its own id, a market-data snapshot with
      positive prices and, for the kinds that read it, a usable economy
      insight. */
  predicate ViewFor(a: Agent, view: AgentView)
  {
    && view.agentId == IdOf(a)
    && view.marketData.Some? && ValidMarketData(view.marketData.value)
    && (ReadsEconomy(KindOf(a)) ==> view.economy.Some? && ValidEconomy(view.economy.value))
  }

  predicate NoDeposits(intents: seq<Intent>)
  {
    forall i :: 0 <= i < |intents| ==> !intents[i].action.CreateDeposit?
  }

  /** The intents are numbered consecutively from `next`. */
  predicate NumberedFrom(intents: seq<Intent>, next: int)
  {
    forall i :: 0 <= i < |intents| ==> intents[i].intentId == next + i
  }

  function DecideMarketMaker(c: Constants, p: MarketMaker.Params, s: MarketMaker.State, acct: Account, view: AgentView): (r: (Agent, seq<Intent>))
    requires ViewFor(MarketMakerAgent(p, s), view) && MarketMaker.Invariant(p, c, s)
    ensures r.0.MarketMakerAgent? && r.0.mmParams == p && MarketMaker.Invariant(p, c, r.0.mmState)
    ensures NumberedFrom(r.1, s.nextIntentId) && r.0.mmState.nextIntentId == s.nextIntentId + |r.1|
    ensures NoDeposits(r.1)
  {
    var d := MarketMaker.Decide(p, c, acct, s, view);
    (MarketMakerAgent(p, d.state), d.intents)
  }

  function DecideValueInvestor(c: Constants, p: ValueInvestor.Params, s: ValueInvestor.State, acct: Account, view: AgentView): (r: Result<(Agent, seq<Intent>), Raised>)
    requires ViewFor(ValueInvestorAgent(p, s), view) && ValueInvestor.Invariant(c, s)
    ensures r.Failure? <==> ValueInvestor.DividesByZeroBelief(s, view.marketData.value, view.economy.value)
    ensures r.Failure? ==> r.error == ZeroDivisionError
    ensures r.Success? ==>
      && r.value.0.ValueInvestorAgent? && r.value.0.viParams == p && ValueInvestor.Invariant(c, r.value.0.viState)
      && NumberedFrom(r.value.1, s.nextIntentId) && r.value.0.viState.nextIntentId == s.nextIntentId + |r.value.1|
  {
    if ValueInvestor.DividesByZeroBelief(s, view.marketData.value, view.economy.value) then
      Failure(ZeroDivisionError)
    else
      var d := ValueInvestor.Decide(p, c, acct, s, view);
      Success((ValueInvestorAgent(p, d.state), d.intents))
  }

  function DecideMomentumTrader(c: Constants, p: MomentumTrader.Params, s: MomentumTrader.State, acct: Account, view: AgentView): (r: Result<(Agent, seq<Intent>), Raised>)
    requires ViewFor(MomentumTraderAgent(p, s), view) && c.feeRate >= 0.0 && MomentumTrader.Invariant(p, s)
    ensures r.Failure? ==> r.error == ZeroDivisionError
    ensures r.Success? ==>
      && r.value.0.MomentumTraderAgent? && r.value.0.mtParams == p && MomentumTrader.Invariant(p, r.value.0.mtState)
      && NumberedFrom(r.value.1, s.nextIntentId) && r.value.0.mtState.nextIntentId == s.nextIntentId + |r.value.1|
      && NoDeposits(r.value.1)
  {
    var d := MomentumTrader.Decide(p, c, acct, s, view);
    if d.Failure? then Failure(d.error)
    else
      var next := d.value;
      assert forall i :: 0 <= i < |next.intents| ==> MomentumTrader.IsMarketOrder(next.intents[i].action);
      Success((MomentumTraderAgent(p, next.state), next.intents))
  }

  /** `agent.decide(view)`: the agent after deciding, and its intents. A
      ValueInvestor whose mispricing would divide by a zero belief raises
      ZeroDivisionError, and so does a MomentumTrader whose liquidity
      amplifier divides by a zero baseline; nothing else raises. */
  function Decide(c: Constants, a: Agent, acct: Account, view: AgentView, noise: seq<Intent>): (r: Result<(Agent, seq<Intent>), Raised>)
    requires Ready(c, a) && ViewFor(a, view)
    ensures r.Failure? ==> r.error == ZeroDivisionError && (a.ValueInvestorAgent? || a.MomentumTraderAgent?)
    ensures a.MarketMakerAgent? ==> r.Success?
    ensures r.Success? ==>
      && Ready(c, r.value.0) && KindOf(r.value.0) == KindOf(a) && IdOf(r.value.0) == IdOf(a)
    ensures r.Success? && !a.NoiseTraderAgent? ==>
      && NumberedFrom(r.value.1, NextIntentId(a))
      && NextIntentId(r.value.0) == NextIntentId(a) + |r.value.1|
    ensures r.Success? && (a.MarketMakerAgent? || a.MomentumTraderAgent?) ==> NoDeposits(r.value.1)
    ensures a.NoiseTraderAgent? ==> r == Success((a, noise))
  {
    match a
    case MarketMakerAgent(p, s) => Success(DecideMarketMaker(c, p, s, acct, view))
    case ValueInvestorAgent(p, s) => DecideValueInvestor(c, p, s, acct, view)
    case MomentumTraderAgent(p, s) => DecideMomentumTrader(c, p, s, acct, view)
    case NoiseTraderAgent(_) => Success((a, noise))
  }

  /** `agent.update(feedback)`. */
  function Update(c: Constants, a: Agent, fb: Feedback): (r: Agent)
    requires Ready(c, a)
    ensures Ready(c, r) && KindOf(r) == KindOf(a) && IdOf(r) == IdOf(a)
    ensures !a.NoiseTraderAgent? ==> NextIntentId(r) == NextIntentId(a)
  {
    match a
    case MarketMakerAgent(p, s) =>
      MarketMaker.UpdateKeepsInvariant(p, c, s, fb);
      MarketMakerAgent(p, MarketMaker.Update(s, fb))
    case ValueInvestorAgent(p, s) =>
      ValueInvestor.UpdateNeverForgets(c, s, fb);
      ValueInvestorAgent(p, ValueInvestor.Update(s, fb))
    case MomentumTraderAgent(p, s) =>
      MomentumTrader.UpdateKeepsInvariant(p, s, fb);
      MomentumTraderAgent(p, MomentumTrader.Update(s, fb))
    case NoiseTraderAgent(_) => a
  }
}
