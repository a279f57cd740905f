/** The simulation engine's tick: refresh the views all agents share, pick
    the macro-tick or micro-tick schedule, and give each scheduled agent its
    turn: build its view, let it decide, send its intents to the market and
    hand the market's answers back through `update`. */
module Engine {
  import opened Wrappers
  import opened Dicts
  import opened Domain
  import opened Agents
  import opened AgentManager
  import opened Permutations

  // ---------------------------------------------------------------------
  // the environment
  // ---------------------------------------------------------------------

  /** A request the engine makes of the market: one agent's action, or the
      session expiry at the start of a macro tick. */
  datatype Request = AgentRequest(agentId: int, action: Action) | ExpireSession

  /** The market and ledger, which are not part of this model, seen through
      what the engine asks of them. Their state is whatever the requests
      they have received made of it, so every answer is a function of the
      request log: the reply to the order or deposit request that ends the
      log, the market data and economy insight they publish, and the live
      account of an agent. The batch a NoiseTrader emits (its rule is not
      part of this model) is an input of the same kind. */
  datatype Environment = Environment(
    orderReply: seq<Request> -> Option<OrderView>,
    depositReply: seq<Request> -> Option<DepositView>,
    marketData: seq<Request> -> MarketData,
    economy: seq<Request> -> EconomyInsight,
    account: (seq<Request>, int) -> Account,
    noiseIntents: (seq<Request>, int) -> seq<Intent>)

  /** The market publishes positive prices and a usable economy insight. */
  ghost predicate SaneEnvironment(env: Environment)
  {
    forall log :: ValidMarketData(env.marketData(log)) && ValidEconomy(env.economy(log))
  }

  // ---------------------------------------------------------------------
  // routing a batch of intents (`_process_intents`)
  // ---------------------------------------------------------------------

  /** The requests a batch of intents sends, in order. */
  function Requests(agentId: int, intents: seq<Intent>): (r: seq<Request>)
    ensures |r| == |intents|
    ensures forall i :: 0 <= i < |intents| ==> r[i] == AgentRequest(agentId, intents[i].action)
  {
    seq(|intents|, i requires 0 <= i < |intents| => AgentRequest(agentId, intents[i].action))
  }

  /** The ids of the batch's order placements and cancellations. */
  function OrderIntentIds(intents: seq<Intent>): set<int>
  {
    set i | 0 <= i < |intents| && !intents[i].action.CreateDeposit? :: intents[i].intentId
  }

  /** The ids of the batch's deposit requests. */
  function DepositIntentIds(intents: seq<Intent>): set<int>
  {
    set i | 0 <= i < |intents| && intents[i].action.CreateDeposit? :: intents[i].intentId
  }

  /** No two intents of the batch share an id. */
  predicate DistinctIds(intents: seq<Intent>)
  {
    forall i, j :: 0 <= i < j < |intents| ==> intents[i].intentId != intents[j].intentId
  }

  /** Extending a batch by one intent adds that intent's id to the set of
      its kind. */
  lemma IdsSnoc(intents: seq<Intent>)
    requires |intents| > 0
    ensures
      var n := |intents| - 1;
      var id := intents[n].intentId;
      && OrderIntentIds(intents) == OrderIntentIds(intents[..n]) + (if intents[n].action.CreateDeposit? then {} else {id})
      && DepositIntentIds(intents) == DepositIntentIds(intents[..n]) + (if intents[n].action.CreateDeposit? then {id} else {})
  {
    var n := |intents| - 1;
    assert forall i :: 0 <= i < n ==> intents[..n][i] == intents[i];
  }

  /** `_process_intents`: each placement is sent to the market and its reply
      recorded under the intent's id; each cancellation is sent and `None`
      recorded; each deposit request is sent and its reply recorded in the
      deposit map. The market receives exactly the batch's requests, in
      order; the order map's keys are the placement and cancellation ids and
      the deposit map's keys the deposit ids, so no key comes from outside
      the batch. */
  function ProcessIntents(env: Environment, agentId: int, log: seq<Request>, intents: seq<Intent>): (r: (Feedback, seq<Request>))
    ensures r.0.agentId == agentId
    ensures r.1 == log + Requests(agentId, intents)
    ensures Valid(r.0.orderResults) && KeySet(r.0.orderResults) == OrderIntentIds(intents)
    ensures Valid(r.0.depositResults) && KeySet(r.0.depositResults) == DepositIntentIds(intents)
    decreases |intents|
  {
    if |intents| == 0 then (Feedback(agentId, [], []), log)
    else
      var n := |intents| - 1;
      var prev := ProcessIntents(env, agentId, log, intents[..n]);
      var it := intents[n];
      var sent := prev.1 + [AgentRequest(agentId, it.action)];
      IdsSnoc(intents);
      assert sent == log + Requests(agentId, intents);
      var fb := prev.0;
      match it.action
      case PlaceOrder(_, _, _, _) =>
        (fb.(orderResults := Put(fb.orderResults, it.intentId, env.orderReply(sent))), sent)
      case CancelOrder(_) =>
        (fb.(orderResults := Put(fb.orderResults, it.intentId, None)), sent)
      case CreateDeposit(_, _) =>
        (fb.(depositResults := Put(fb.depositResults, it.intentId, env.depositReply(sent))), sent)
  }

  /** Between them the two maps are keyed by exactly the batch's intent ids,
      and no id is in both when the ids are distinct. */
  lemma FeedbackKeysAreIntentIds(env: Environment, agentId: int, log: seq<Request>, intents: seq<Intent>)
    ensures
      var fb := ProcessIntents(env, agentId, log, intents).0;
      KeySet(fb.orderResults) + KeySet(fb.depositResults) == IntentIds(intents)
    ensures
      var fb := ProcessIntents(env, agentId, log, intents).0;
      DistinctIds(intents) ==> KeySet(fb.orderResults) !! KeySet(fb.depositResults)
  {
    var fb := ProcessIntents(env, agentId, log, intents).0;
    forall id | id in IntentIds(intents) ensures id in OrderIntentIds(intents) + DepositIntentIds(intents) {
      var i :| 0 <= i < |intents| && intents[i].intentId == id;
      if intents[i].action.CreateDeposit? {
        assert id in DepositIntentIds(intents);
      } else {
        assert id in OrderIntentIds(intents);
      }
    }
    if DistinctIds(intents) {
      forall id | id in OrderIntentIds(intents) ensures id !in DepositIntentIds(intents) {
        var i :| 0 <= i < |intents| && !intents[i].action.CreateDeposit? && intents[i].intentId == id;
        forall j | 0 <= j < |intents| && intents[j].action.CreateDeposit? ensures intents[j].intentId != id {
          assert i != j;
        }
      }
    }
  }

  /** What the `i`-th intent of a batch leaves in the feedback: a placement's
      id maps to the market's reply to that very request, a cancellation's
      id to `None`, a deposit request's id to the market's reply. */
  ghost predicate Answered(env: Environment, agentId: int, log: seq<Request>, intents: seq<Intent>, fb: Feedback, i: int)
    requires 0 <= i < |intents|
  {
    var id := intents[i].intentId;
    var sent := log + Requests(agentId, intents[..i + 1]);
    match intents[i].action
    case PlaceOrder(_, _, _, _) => (id, env.orderReply(sent)) in fb.orderResults
    case CancelOrder(_) => (id, None) in fb.orderResults
    case CreateDeposit(_, _) => (id, env.depositReply(sent)) in fb.depositResults
  }

  /** With distinct intent ids, every intent of the batch is answered: later
      intents never overwrite an earlier one's entry. */
  lemma {:induction false} EveryIntentAnswered(env: Environment, agentId: int, log: seq<Request>, intents: seq<Intent>)
    requires DistinctIds(intents)
    ensures forall i :: 0 <= i < |intents| ==> Answered(env, agentId, log, intents, ProcessIntents(env, agentId, log, intents).0, i)
    decreases |intents|
  {
    if |intents| > 0 {
      var n := |intents| - 1;
      var prefix := intents[..n];
      assert forall i :: 0 <= i < n ==> prefix[i] == intents[i];
      EveryIntentAnswered(env, agentId, log, prefix);
      var pfb := ProcessIntents(env, agentId, log, prefix).0;
      var fb := ProcessIntents(env, agentId, log, intents).0;
      forall i | 0 <= i < |intents| ensures Answered(env, agentId, log, intents, fb, i) {
        if i < n {
          assert intents[..i + 1] == prefix[..i + 1];
          assert Answered(env, agentId, log, prefix, pfb, i);
          assert intents[i].intentId != intents[n].intentId;
        } else {
          assert intents[..i + 1] == intents;
        }
      }
    }
  }

  // ---------------------------------------------------------------------
  // views
  // ---------------------------------------------------------------------

  /** The views the engine keeps for all agents between ticks. */
  datatype SharedViews = SharedViews(marketData: Option<MarketData>, economy: Option<EconomyInsight>)

  /** Both shared views are present and usable. */
  predicate ViewsReady(v: SharedViews)
  {
    && v.marketData.Some? && ValidMarketData(v.marketData.value)
    && v.economy.Some? && ValidEconomy(v.economy.value)
  }

  /** `_update_views_macro`: both views are read afresh from the market. */
  function RefreshMacro(env: Environment, log: seq<Request>): (r: SharedViews)
    requires SaneEnvironment(env)
    ensures ViewsReady(r)
    ensures r.economy == Some(env.economy(log)) && r.marketData == Some(env.marketData(log))
  {
    SharedViews(Some(env.marketData(log)), Some(env.economy(log)))
  }

  /** `_update_views_micro`: only the market data is read afresh; the
      economy insight stays what the last macro tick read. */
  function RefreshMicro(env: Environment, log: seq<Request>, views: SharedViews): (r: SharedViews)
    requires SaneEnvironment(env)
    ensures r.economy == views.economy && r.marketData == Some(env.marketData(log))
    ensures ViewsReady(views) ==> ViewsReady(r)
  {
    views.(marketData := Some(env.marketData(log)))
  }

  /** The view `_agent_loop` builds for one agent: the shared market data
      for everyone, the shared economy insight only for ValueInvestors and
      MarketMakers (the wall-clock timestamp is left out). */
  function BuildView(views: SharedViews, id: int, a: Agent, macro: int, micro: int): (v: AgentView)
    ensures v.agentId == id && v.macroTick == macro && v.microTick == micro
    ensures v.marketData == views.marketData
    ensures v.economy.Some? <==> ReadsEconomy(KindOf(a)) && views.economy.Some?
    ensures v.economy.Some? ==> v.economy == views.economy
  {
    AgentView(id, macro, micro, views.marketData, if ReadsEconomy(KindOf(a)) then views.economy else None)
  }

  /** With usable shared views, the built view is one the agent can be
      handed. */
  lemma BuiltViewFits(views: SharedViews, id: int, a: Agent, macro: int, micro: int)
    requires ViewsReady(views) && IdOf(a) == id
    ensures ViewFor(a, BuildView(views, id, a, macro, micro))
  {
  }

  // ---------------------------------------------------------------------
  // one agent's turn
  // ---------------------------------------------------------------------

  /** An agent's turn that did not raise: the agent afterwards, the batch it
      decided on, the feedback it was updated with (`None` when it was not
      updated) and the market's request log afterwards. */
  datatype Turn = Turn(agent: Agent, intents: seq<Intent>, feedback: Option<Feedback>, log: seq<Request>)

  /** One iteration of `_agent_loop`. The agent decides on the view built
      for it and its live account; an empty batch ends the turn without
      `update`; a batch with a deposit request from anything but a
      ValueInvestor fails the engine's assertion; any other batch is routed
      to the market and the agent is updated with the feedback. */
  function AgentTurn(c: Constants, env: Environment, views: SharedViews, macro: int, micro: int,
                     log: seq<Request>, id: int, a: Agent): (r: Result<Turn, Raised>)
    requires Ready(c, a) && IdOf(a) == id && ViewsReady(views)
    ensures r.Success? ==>
      && Ready(c, r.value.agent) && KindOf(r.value.agent) == KindOf(a) && IdOf(r.value.agent) == id
      && (r.value.feedback.None? <==> |r.value.intents| == 0)
      && r.value.log == log + Requests(id, r.value.intents)
    ensures r.Success? && r.value.feedback.Some? ==>
      && r.value.feedback.value == ProcessIntents(env, id, log, r.value.intents).0
      && r.value.feedback.value.agentId == id
      && KeySet(r.value.feedback.value.orderResults) == OrderIntentIds(r.value.intents)
      && KeySet(r.value.feedback.value.depositResults) == DepositIntentIds(r.value.intents)
    ensures r.Success? && KindOf(a) != ValueInvestorKind ==> NoDeposits(r.value.intents)
    ensures r.Success? && !a.NoiseTraderAgent? ==>
      && NumberedFrom(r.value.intents, NextIntentId(a))
      && NextIntentId(r.value.agent) == NextIntentId(a) + |r.value.intents|
    ensures r.Failure? ==> r.error == ZeroDivisionError || r.error == AssertionError
    ensures r.Failure? && r.error == ZeroDivisionError ==> a.ValueInvestorAgent? || a.MomentumTraderAgent?
    ensures r.Failure? && r.error == AssertionError ==> a.NoiseTraderAgent?
    ensures a.MarketMakerAgent? ==> r.Success?
  {
    var view := BuildView(views, id, a, macro, micro);
    BuiltViewFits(views, id, a, macro, micro);
    var d :- Decide(c, a, env.account(log, id), view, env.noiseIntents(log, id));
    var decided := d.0;
    var intents := d.1;
    if |intents| == 0 then
      Success(Turn(decided, intents, None, log))
    else if KindOf(a) != ValueInvestorKind && !NoDeposits(intents) then
      Failure(AssertionError)
    else
      var routed := ProcessIntents(env, id, log, intents);
      Success(Turn(Update(c, decided, routed.0), intents, Some(routed.0), routed.1))
  }

  /** A turn is the agent's decision, then (for a non-empty batch it may
      send) the routing and the agent's update with the market's answer: a
      raising decision raises unchanged, an empty batch leaves the decided
      agent as it is, and otherwise the turn's agent is the decided agent
      updated with the turn's feedback. */
  lemma AgentTurnDecidesThenUpdates(c: Constants, env: Environment, views: SharedViews, macro: int, micro: int,
                                    log: seq<Request>, id: int, a: Agent)
    requires Ready(c, a) && IdOf(a) == id && ViewsReady(views)
    ensures var d := Decide(c, a, env.account(log, id), BuildView(views, id, a, macro, micro), env.noiseIntents(log, id));
      var r := AgentTurn(c, env, views, macro, micro, log, id, a);
      && (d.Failure? ==> r == Failure(d.error))
      && (d.Success? && |d.value.1| == 0 ==> r == Success(Turn(d.value.0, [], None, log)))
      && (d.Success? && |d.value.1| > 0 && KindOf(a) != ValueInvestorKind && !NoDeposits(d.value.1) ==>
            r == Failure(AssertionError))
      && (d.Success? && |d.value.1| > 0 && (KindOf(a) == ValueInvestorKind || NoDeposits(d.value.1)) ==>
            && r.Success? && r.value.intents == d.value.1 && r.value.feedback.Some?
            && r.value.agent == Update(c, d.value.0, r.value.feedback.value))
  {
    BuiltViewFits(views, id, a, macro, micro);
  }

  /** Consecutively numbered intents have distinct ids. */
  lemma NumberedDistinct(intents: seq<Intent>, next: int)
    requires NumberedFrom(intents, next)
    ensures DistinctIds(intents)
  {
  }

  /** A MarketMaker, ValueInvestor or MomentumTrader that is updated gets an
      answer for every intent of its batch: the agents number their intents
      consecutively, so no answer overwrites another. */
  lemma ModelledAgentsHearEveryAnswer(c: Constants, env: Environment, views: SharedViews, macro: int, micro: int,
                                      log: seq<Request>, id: int, a: Agent)
    requires Ready(c, a) && IdOf(a) == id && ViewsReady(views) && !a.NoiseTraderAgent?
    requires AgentTurn(c, env, views, macro, micro, log, id, a).Success?
    ensures
      var t := AgentTurn(c, env, views, macro, micro, log, id, a).value;
      t.feedback.Some? ==> forall i :: 0 <= i < |t.intents| ==> Answered(env, id, log, t.intents, t.feedback.value, i)
  {
    var t := AgentTurn(c, env, views, macro, micro, log, id, a).value;
    NumberedDistinct(t.intents, NextIntentId(a));
    EveryIntentAnswered(env, id, log, t.intents);
  }

  // ---------------------------------------------------------------------
  // the agent loop
  // ---------------------------------------------------------------------

  /** `m` is a well-formed registry of ready agents with the same ids, filed
      under the same kinds, as `m0`. */
  predicate Kept(c: Constants, m0: Manager, m: Manager)
  {
    && WellFormed(m) && AllReady(c, m)
    && KeySet(m.agents) == KeySet(m0.agents)
    && forall k :: KindIds(m, k) == KindIds(m0, k)
  }

  /** Putting back a registered agent after its turn, with its kind and id
      unchanged and its invariant kept, keeps the registry's shape. */
  lemma ReplaceKeeps(c: Constants, m0: Manager, m: Manager, e: (int, Agent), b: Agent)
    requires Kept(c, m0, m) && e in m.agents
    requires KindOf(b) == KindOf(e.1) && IdOf(b) == e.0 && Ready(c, b)
    ensures Kept(c, m0, Register(m, b))
  {
    assert Compatible(m, b) by {
      forall x {:trigger x in m.agents} | x in m.agents && x.0 == IdOf(b) ensures KindOf(x.1) == KindOf(b) {
        UniqueEntry(m.agents, e.0, x.1, e.1);
      }
    }
    RegisterKeepsWellFormed(m, b);
    RegisterKeepsReady(c, m, b);
    KeySetMember(m.agents, e.0, e.1);
    assert e.0 in KindIds(m, KindOf(e.1));
  }

  /** The log only grows, and only by agent requests. */
  predicate AgentRequestsAppended(log0: seq<Request>, log: seq<Request>)
  {
    && |log0| <= |log| && log[..|log0|] == log0
    && forall j :: |log0| <= j < |log| ==> log[j].AgentRequest?
  }

  lemma AppendRequests(log0: seq<Request>, log: seq<Request>, id: int, intents: seq<Intent>)
    requires AgentRequestsAppended(log0, log)
    ensures AgentRequestsAppended(log0, log + Requests(id, intents))
  {
    var log' := log + Requests(id, intents);
    assert log'[..|log0|] == log[..|log0|];
    forall j | |log0| <= j < |log'| ensures log'[j].AgentRequest? {
      if j >= |log| {
        assert log'[j] == Requests(id, intents)[j - |log|];
      }
    }
  }

  /** Every agent of the schedule is keyed by its own id and may take a turn. */
  predicate Schedulable(c: Constants, schedule: Dict<Agent>)
  {
    forall e {:trigger e in schedule} :: e in schedule ==> Ready(c, e.1) && IdOf(e.1) == e.0
  }

  /** The turns of `_agent_loop`, one scheduled agent after another, each on
      the log the previous turns left and each putting its agent back into
      the registry; the first raising turn ends the loop with its exception. */
  function RunTurns(c: Constants, env: Environment, views: SharedViews, macro: int, micro: int,
                    m: Manager, log: seq<Request>, schedule: Dict<Agent>): Result<(Manager, seq<Request>), Raised>
    requires ViewsReady(views) && Schedulable(c, schedule)
    decreases |schedule|
  {
    if |schedule| == 0 then Success((m, log))
    else
      var e := schedule[0];
      assert e in schedule;
      match AgentTurn(c, env, views, macro, micro, log, e.0, e.1)
      case Failure(err) => Failure(err)
      case Success(t) =>
        assert forall x :: x in schedule[1..] ==> x in schedule;
        RunTurns(c, env, views, macro, micro, Register(m, t.agent), t.log, schedule[1..])
  }

  lemma SchedulableSuffix(c: Constants, schedule: Dict<Agent>, i: int)
    requires Schedulable(c, schedule) && 0 <= i <= |schedule|
    ensures Schedulable(c, schedule[i..])
  {
    forall e | e in schedule[i..] ensures e in schedule {
    }
  }

  /** One turn of the loop from position `i`: a raise ends the run with that
      exception; otherwise the run goes on from the next position with the
      agent put back and the turn's log. */
  lemma RunTurnsStep(c: Constants, env: Environment, views: SharedViews, macro: int, micro: int,
                     m: Manager, log: seq<Request>, schedule: Dict<Agent>, i: int)
    requires ViewsReady(views) && Schedulable(c, schedule) && 0 <= i < |schedule|
    ensures Schedulable(c, schedule[i..]) && Schedulable(c, schedule[i + 1..])
    ensures schedule[i] in schedule
    ensures var t := AgentTurn(c, env, views, macro, micro, log, schedule[i].0, schedule[i].1);
      && (t.Failure? ==> RunTurns(c, env, views, macro, micro, m, log, schedule[i..]) == Failure(t.error))
      && (t.Success? ==> RunTurns(c, env, views, macro, micro, m, log, schedule[i..])
                         == RunTurns(c, env, views, macro, micro, Register(m, t.value.agent), t.value.log, schedule[i + 1..]))
  {
    SchedulableSuffix(c, schedule, i);
    SchedulableSuffix(c, schedule, i + 1);
    assert schedule[i..][0] == schedule[i] && schedule[i..][1..] == schedule[i + 1..];
  }

  /** `_agent_loop` over a schedule of registered agents. Each turn puts the
      agent back into the registry (the Python loop mutates the very objects
      the registry holds). When no turn raises, the registry keeps its shape
      and invariants, agents outside the schedule are untouched, and the
      market has received only agent requests. A raise is a ZeroDivisionError
      from a ValueInvestor or MomentumTrader, or the engine's assertion, which
      only a NoiseTrader's batch can fail. */
  method AgentLoop(c: Constants, env: Environment, views: SharedViews, macro: int, micro: int,
                   m0: Manager, log0: seq<Request>, schedule: Dict<Agent>)
    returns (r: Result<(Manager, seq<Request>), Raised>)
    requires WellFormed(m0) && AllReady(c, m0) && ViewsReady(views)
    requires Valid(schedule) && forall e :: e in schedule ==> e in m0.agents
    ensures r == RunTurns(c, env, views, macro, micro, m0, log0, schedule)
    ensures r.Success? ==> Kept(c, m0, r.value.0)
    ensures r.Success? ==> AgentRequestsAppended(log0, r.value.1)
    ensures r.Success? ==> forall e {:trigger e in m0.agents} :: e in m0.agents && e.0 !in KeySet(schedule) ==> e in r.value.0.agents
    ensures r.Failure? ==> r.error == ZeroDivisionError || r.error == AssertionError
    ensures r.Failure? && r.error == ZeroDivisionError ==>
      exists e :: e in schedule && (e.1.ValueInvestorAgent? || e.1.MomentumTraderAgent?)
    ensures r.Failure? && r.error == AssertionError ==> exists e :: e in schedule && e.1.NoiseTraderAgent?
  {
    var m := m0;
    var log := log0;
    var i := 0;
    assert Schedulable(c, schedule);
    assert schedule[0..] == schedule;
    while i < |schedule|
      invariant 0 <= i <= |schedule|
      invariant Schedulable(c, schedule[i..])
      invariant RunTurns(c, env, views, macro, micro, m, log, schedule[i..]) == RunTurns(c, env, views, macro, micro, m0, log0, schedule)
      invariant Kept(c, m0, m)
      invariant AgentRequestsAppended(log0, log)
      invariant forall j :: i <= j < |schedule| ==> schedule[j] in m.agents
      invariant forall e {:trigger e in m0.agents} :: e in m0.agents && e.0 !in KeySet(schedule) ==> e in m.agents
    {
      var e := schedule[i];
      assert IdOf(e.1) == e.0;
      var t := AgentTurn(c, env, views, macro, micro, log, e.0, e.1);
      RunTurnsStep(c, env, views, macro, micro, m, log, schedule, i);
      if t.Failure? {
        assert e in schedule;
        return Failure(t.error);
      }
      ReplaceKeeps(c, m0, m, e, t.value.agent);
      AppendRequests(log0, log, e.0, t.value.intents);
      forall j | i < j < |schedule| ensures schedule[j] in Register(m, t.value.agent).agents {
        assert schedule[j].0 != e.0;
      }
      forall x {:trigger x in m0.agents} | x in m0.agents && x.0 !in KeySet(schedule)
        ensures x in Register(m, t.value.agent).agents
      {
        assert x.0 != e.0;
      }
      m := Register(m, t.value.agent);
      log := t.value.log;
      i := i + 1;
    }
    r := Success((m, log));
  }

  // ---------------------------------------------------------------------
  // the tick
  // ---------------------------------------------------------------------

  /** How many agents the tick's schedule holds. */
  function ScheduleSize(m: Manager, micro: int): nat
  {
    if micro == 0 then |m.agents| else |MicroCandidates(m)|
  }

  /** The agents that act on a tick: `macro_tick_agents()` when the micro
      tick is 0 (everyone), `micro_tick_agents()` otherwise (everyone but the
      ValueInvestors), in the shuffled order `perm` gives. */
  function Schedule(m: Manager, micro: int, perm: seq<int>): (r: Dict<Agent>)
    requires WellFormed(m) && IsIndexPermutation(perm, ScheduleSize(m, micro))
    ensures Valid(r)
    ensures micro == 0 ==> forall e {:trigger e in r} {:trigger e in m.agents} :: e in r <==> e in m.agents
    ensures micro != 0 ==>
      forall e {:trigger e in r} {:trigger e in m.agents} :: e in r <==> e in m.agents && KindOf(e.1) != ValueInvestorKind
  {
    if micro == 0 then MacroTickAgents(m, perm)
    else
      MicroTickSkipsValueInvestors(m, perm);
      MicroTickAgents(m, perm)
  }

  /** A ValueInvestor's id is not on a micro tick's schedule. */
  lemma ValueInvestorNotScheduled(m: Manager, micro: int, perm: seq<int>, e: (int, Agent))
    requires WellFormed(m) && IsIndexPermutation(perm, ScheduleSize(m, micro)) && micro != 0
    requires e in m.agents && KindOf(e.1) == ValueInvestorKind
    ensures e.0 !in KeySet(Schedule(m, micro, perm))
  {
    var s := Schedule(m, micro, perm);
    FiledUnderOwnKind(m, e, ValueInvestorKind);
    forall i | 0 <= i < |s| ensures s[i].0 != e.0 {
      assert s[i] in s;
      FiledUnderOwnKind(m, s[i], ValueInvestorKind);
    }
  }

  /** The state a tick that did not raise leaves behind. */
  datatype Ticked = Ticked(manager: Manager, views: SharedViews, log: seq<Request>)

  /** One pass of `run`'s loop. On micro tick 0 the session is expired, both
      views are refreshed and every agent acts; on any other micro tick only
      the market data is refreshed and every agent but the ValueInvestors
      acts. The market sees the session expiry first exactly on macro
      ticks. */
  method Tick(c: Constants, env: Environment, views: SharedViews, m: Manager, log: seq<Request>,
              macro: int, micro: int, perm: seq<int>) returns (r: Result<Ticked, Raised>)
    requires SaneEnvironment(env) && WellFormed(m) && AllReady(c, m)
    requires IsIndexPermutation(perm, ScheduleSize(m, micro))
    requires micro != 0 ==> ViewsReady(views)
    ensures var expired := if micro == 0 then log + [ExpireSession] else log;
      var refreshed := if micro == 0 then RefreshMacro(env, expired) else RefreshMicro(env, log, views);
      var run := RunTurns(c, env, refreshed, macro, micro, m, expired, Schedule(m, micro, perm));
      && (r.Success? <==> run.Success?)
      && (r.Success? ==> r.value == Ticked(run.value.0, refreshed, run.value.1))
      && (r.Failure? ==> r.error == run.error)
    ensures r.Success? ==> Kept(c, m, r.value.manager) && ViewsReady(r.value.views)
    ensures r.Success? ==> |r.value.log| >= |log| && r.value.log[..|log|] == log
    ensures r.Success? ==> (micro == 0 <==> |r.value.log| > |log| && r.value.log[|log|] == ExpireSession)
    ensures r.Success? && micro == 0 ==>
      r.value.views == SharedViews(Some(env.marketData(log + [ExpireSession])), Some(env.economy(log + [ExpireSession])))
    ensures r.Success? && micro != 0 ==>
      r.value.views == SharedViews(Some(env.marketData(log)), views.economy)
    ensures r.Success? && micro != 0 ==>
      forall e {:trigger e in m.agents} :: e in m.agents && KindOf(e.1) == ValueInvestorKind ==> e in r.value.manager.agents
    ensures r.Failure? ==> r.error == ZeroDivisionError || r.error == AssertionError
  {
    var schedule := Schedule(m, micro, perm);
    assert forall e :: e in schedule ==> e in m.agents;
    if micro == 0 {
      var expired := log + [ExpireSession];
      var refreshed := RefreshMacro(env, expired);
      var res := AgentLoop(c, env, refreshed, macro, micro, m, expired, schedule);
      if res.Failure? {
        return Failure(res.error);
      }
      assert res.value.1[..|expired|][..|log|] == log;
      assert res.value.1[|log|] == res.value.1[..|expired|][|log|];
      r := Success(Ticked(res.value.0, refreshed, res.value.1));
    } else {
      var refreshed := RefreshMicro(env, log, views);
      var res := AgentLoop(c, env, refreshed, macro, micro, m, log, schedule);
      if res.Failure? {
        return Failure(res.error);
      }
      forall e {:trigger e in m.agents} | e in m.agents && KindOf(e.1) == ValueInvestorKind
        ensures e in res.value.0.agents
      {
        ValueInvestorNotScheduled(m, micro, perm, e);
      }
      r := Success(Ticked(res.value.0, refreshed, res.value.1));
    }
  }
}
