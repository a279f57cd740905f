/** Creation and scheduling of the agent population: identifier blocks per
    agent kind, endowment sampling, registration with the environment, and
    the shuffled lists of agents that act on macro and micro ticks. */
module AgentManager {
  import opened Wrappers
  import opened Numeric
  import opened Dicts
  import opened Domain
  import opened Agents
  import opened Permutations
  import MarketMaker
  import ValueInvestor
  import MomentumTrader

  // ---------------------------------------------------------------------
  // identifiers
  // ---------------------------------------------------------------------

  /** Each kind numbers its agents from its own base. */
  function IdBase(k: Kind): (b: int)
    ensures b % 10000 == 0 && 10000 <= b <= 40000
  {
    match k
    case MarketMakerKind => 10000
    case ValueInvestorKind => 20000
    case MomentumTraderKind => 30000
    case NoiseTraderKind => 40000
  }

  /** The id of the `i`-th agent of kind `k`. */
  function AgentIdFor(k: Kind, i: int): int
  {
    IdBase(k) + i
  }

  /** The ids handed to the first `n` agents of kind `k`. */
  function IdBlock(k: Kind, n: nat): (r: set<int>)
    ensures forall id :: id in r <==> IdBase(k) <= id < IdBase(k) + n
    ensures |r| == n
  {
    if n == 0 then {} else IdBlock(k, n - 1) + {AgentIdFor(k, n - 1)}
  }

  /** Up to 10000 agents per kind, the kinds' id blocks do not meet, and
      within a kind the position determines the id. */
  lemma IdBlocksDisjoint(k1: Kind, i1: int, k2: Kind, i2: int)
    requires 0 <= i1 < 10000 && 0 <= i2 < 10000
    ensures AgentIdFor(k1, i1) == AgentIdFor(k2, i2) <==> k1 == k2 && i1 == i2
  {
    if k1 != k2 {
      assert IdBase(k1) != IdBase(k2);
    }
  }

  /** Past 10000 agents a kind runs into the next kind's block: the
      10001st market maker gets the first value investor's id. */
  lemma IdBlocksOverlapBeyondLimit()
    ensures AgentIdFor(MarketMakerKind, 10000) == AgentIdFor(ValueInvestorKind, 0)
  {
  }

  // ---------------------------------------------------------------------
  // sampling
  // ---------------------------------------------------------------------

  /** A distribution from the configuration: its name, the numeric
      attributes it carries and, for `discrete_uniform`, its list of values.
      An attribute the configuration does not give is absent. */
  datatype DistributionConfig = DistributionConfig(
    distribution: string,
    attrs: map<string, real>,
    values: Option<seq<real>>)

  /** What the random generator yields for one sample: a uniform variate in
      `[0, 1)`, the index `choice` draws below the list length, and a
      lognormal variate. */
  datatype Draw = Draw(unit: real, index: nat, lognormal: real)

  predicate ValidDraw(g: Draw)
  {
    0.0 <= g.unit < 1.0 && g.lognormal > 0.0
  }

  /** `_sample_value`: a sample of the configured distribution, with the
      exceptions Python raises for a missing attribute (AttributeError), an
      empty list (IndexError), a non-positive lognormal mean (the domain
      error of `math.log`, a ValueError) and an unknown name (ValueError). */
  function SampleValue(d: DistributionConfig, g: Draw): (r: Result<real, Raised>)
    ensures r.Failure? ==> r.error in {AttributeError, IndexError, ValueError}
  {
    if d.distribution == "constant" then
      if "value" in d.attrs then Success(d.attrs["value"]) else Failure(AttributeError)
    else if d.distribution == "uniform" then
      if "min" !in d.attrs || "max" !in d.attrs then Failure(AttributeError)
      else Success(d.attrs["min"] + (d.attrs["max"] - d.attrs["min"]) * g.unit)
    else if d.distribution == "discrete_uniform" then
      if d.values.None? then Failure(AttributeError)
      else if |d.values.value| == 0 then Failure(IndexError)
      else Success(d.values.value[g.index % |d.values.value|])
    else if d.distribution == "lognormal" then
      if "mean" !in d.attrs || "std" !in d.attrs then Failure(AttributeError)
      else if d.attrs["mean"] <= 0.0 then Failure(ValueError)
      else Success(g.lognormal)
    else
      Failure(ValueError)
  }

  /** A constant distribution yields its value whatever the generator does. */
  lemma ConstantIgnoresGenerator(d: DistributionConfig, g1: Draw, g2: Draw)
    requires d.distribution == "constant"
    ensures SampleValue(d, g1) == SampleValue(d, g2)
    ensures "value" in d.attrs <==> SampleValue(d, g1).Success?
    ensures "value" in d.attrs ==> SampleValue(d, g1).value == d.attrs["value"]
  {
  }

  /** Only the four known distribution names yield a sample. */
  lemma UnknownDistributionRaises(d: DistributionConfig, g: Draw)
    requires d.distribution !in {"constant", "uniform", "discrete_uniform", "lognormal"}
    ensures SampleValue(d, g) == Failure(ValueError)
  {
  }

  /** A uniform sample lies between its bounds. */
  lemma UniformWithinBounds(d: DistributionConfig, g: Draw)
    requires d.distribution == "uniform" && "min" in d.attrs && "max" in d.attrs
    requires ValidDraw(g) && d.attrs["min"] <= d.attrs["max"]
    ensures SampleValue(d, g).Success?
    ensures d.attrs["min"] <= SampleValue(d, g).value <= d.attrs["max"]
  {
    var lo, hi := d.attrs["min"], d.attrs["max"];
    Interpolate(lo, hi, g.unit);
    assert SampleValue(d, g).value == lo + (hi - lo) * g.unit;
  }

  /** A discrete sample is one of the listed values. */
  lemma DiscreteIsListed(d: DistributionConfig, g: Draw)
    requires d.distribution == "discrete_uniform" && d.values.Some? && |d.values.value| > 0
    ensures SampleValue(d, g).Success? && SampleValue(d, g).value in d.values.value
  {
  }

  /** A lognormal sample with a valid draw is positive. */
  lemma LognormalPositive(d: DistributionConfig, g: Draw)
    requires d.distribution == "lognormal" && ValidDraw(g)
    ensures SampleValue(d, g).Success? ==> SampleValue(d, g).value > 0.0
    ensures SampleValue(d, g).Failure? <==> "mean" !in d.attrs || "std" !in d.attrs || d.attrs["mean"] <= 0.0
  {
  }

  // ---------------------------------------------------------------------
  // creation
  // ---------------------------------------------------------------------

  datatype Endowment = Endowment(cash: DistributionConfig, shares: DistributionConfig)

  /** The configured population: a count per kind, the market makers'
      endowment and the endowment of everyone else. */
  datatype Population = Population(
    marketMakers: int,
    valueInvestors: int,
    momentumTraders: int,
    noiseTraders: int,
    marketMakerEndowment: Endowment,
    othersEndowment: Endowment)

  /** Everything creation consults outside this model: the generator's draws
      for each agent's endowment, the environment's registration callback
      (which returns the account view or nothing), and the outcome of
      sampling and converting each agent's parameters by id. */
  datatype World = World(
    cashDraw: (Kind, int) -> Draw,
    sharesDraw: (Kind, int) -> Draw,
    register: (int, real, int) -> Option<Account>,
    marketMakerParams: int -> Result<MarketMaker.Params, Raised>,
    valueInvestorParams: int -> Result<ValueInvestor.Params, Raised>,
    momentumTraderParams: int -> Result<MomentumTrader.Params, Raised>,
    noiseTraderParams: int -> Option<Raised>)

  /** The agent object built for `id` once it is registered. */
  function Construct(k: Kind, id: int, acct: Account, w: World): (r: Result<Agent, Raised>)
    ensures r.Success? ==> KindOf(r.value) == k && IdOf(r.value) == id
  {
    match k
    case MarketMakerKind =>
      var p :- w.marketMakerParams(id);
      Success(MarketMakerAgent(p.(agentId := id), MarketMaker.Init()))
    case ValueInvestorKind =>
      var p :- w.valueInvestorParams(id);
      Success(ValueInvestorAgent(p.(agentId := id), ValueInvestor.Init(p.(agentId := id), acct)))
    case MomentumTraderKind =>
      var p :- w.momentumTraderParams(id);
      Success(MomentumTraderAgent(p.(agentId := id), MomentumTrader.Init()))
    case NoiseTraderKind =>
      if w.noiseTraderParams(id).Some? then Failure(w.noiseTraderParams(id).value)
      else Success(NoiseTraderAgent(id))
  }

  /** One iteration of an `_initialize_*` loop: sample the cash and the share
      count (truncated toward zero as `int` does), register the account,
      and build the agent. A registration the environment refuses raises
      RuntimeError before any parameter is sampled. */
  function CreateAgent(k: Kind, i: int, e: Endowment, w: World): (r: Result<Agent, Raised>)
    ensures r.Success? ==> KindOf(r.value) == k && IdOf(r.value) == AgentIdFor(k, i)
    ensures SampleValue(e.cash, w.cashDraw(k, i)).Failure? ==> r == Failure(SampleValue(e.cash, w.cashDraw(k, i)).error)
    ensures
      var cash, shares := SampleValue(e.cash, w.cashDraw(k, i)), SampleValue(e.shares, w.sharesDraw(k, i));
      cash.Success? && shares.Success? && w.register(AgentIdFor(k, i), cash.value, Trunc(shares.value)).None? ==>
        r == Failure(RuntimeError)
    ensures r.Success? ==>
      var cash, shares := SampleValue(e.cash, w.cashDraw(k, i)), SampleValue(e.shares, w.sharesDraw(k, i));
      cash.Success? && shares.Success? && w.register(AgentIdFor(k, i), cash.value, Trunc(shares.value)).Some?
  {
    var id := AgentIdFor(k, i);
    var cash :- SampleValue(e.cash, w.cashDraw(k, i));
    var shares :- SampleValue(e.shares, w.sharesDraw(k, i));
    var acct := w.register(id, cash, Trunc(shares));
    if acct.None? then Failure(RuntimeError) else Construct(k, id, acct.value, w)
  }

  // ---------------------------------------------------------------------
  // the registry
  // ---------------------------------------------------------------------

  /** The manager's dictionaries. `agents` holds every agent by id; each
      kind's dictionary holds the same objects as `agents` does, so the
      model keeps only its keys (what `len` and `in` observe) and reads the
      agent itself from `agents`. */
  datatype Manager = Manager(
    agents: Dict<Agent>,
    marketMakers: set<int>,
    valueInvestors: set<int>,
    momentumTraders: set<int>,
    noiseTraders: set<int>)

  function Empty(): Manager
  {
    Manager([], {}, {}, {}, {})
  }

  function KindIds(m: Manager, k: Kind): set<int>
  {
    match k
    case MarketMakerKind => m.marketMakers
    case ValueInvestorKind => m.valueInvestors
    case MomentumTraderKind => m.momentumTraders
    case NoiseTraderKind => m.noiseTraders
  }

  /** Every registered agent is keyed by its own id and filed under its kind. */
  predicate AgentsFiled(m: Manager)
  {
    forall e {:trigger e in m.agents} :: e in m.agents ==> IdOf(e.1) == e.0 && e.0 in KindIds(m, KindOf(e.1))
  }

  /** The kind dictionaries only name registered agents, and no id is filed
      under two kinds. */
  predicate KindsPartition(m: Manager)
  {
    && (forall k :: KindIds(m, k) <= KeySet(m.agents))
    && (forall k1, k2 :: k1 != k2 ==> KindIds(m, k1) !! KindIds(m, k2))
  }

  /** The kind dictionaries partition `agents` by kind, every entry is keyed
      by its agent's own id, and no id is registered twice. */
  predicate WellFormed(m: Manager)
  {
    Valid(m.agents) && AgentsFiled(m) && KindsPartition(m)
  }

  lemma EmptyWellFormed()
    ensures WellFormed(Empty())
  {
  }

  /** Under `WellFormed`, an agent's id is filed under exactly its kind. */
  lemma FiledUnderOwnKind(m: Manager, e: (int, Agent), k: Kind)
    requires WellFormed(m) && e in m.agents
    ensures e.0 in KindIds(m, k) <==> KindOf(e.1) == k
  {
    if KindOf(e.1) != k {
      assert e.0 in KindIds(m, KindOf(e.1));
      assert KindIds(m, KindOf(e.1)) !! KindIds(m, k);
    }
  }

  /** `m` with kind `k`'s dictionary holding the ids `ids`. */
  function WithKindIds(m: Manager, k: Kind, ids: set<int>): (r: Manager)
    ensures r.agents == m.agents && KindIds(r, k) == ids
    ensures forall k' :: k' != k ==> KindIds(r, k') == KindIds(m, k')
  {
    match k
    case MarketMakerKind => m.(marketMakers := ids)
    case ValueInvestorKind => m.(valueInvestors := ids)
    case MomentumTraderKind => m.(momentumTraders := ids)
    case NoiseTraderKind => m.(noiseTraders := ids)
  }

  /** `self.<kind dict>[agent_id] = agent; self.agents[agent_id] = agent`. */
  function Register(m: Manager, a: Agent): (r: Manager)
    ensures r.agents == Put(m.agents, IdOf(a), a)
    ensures KindIds(r, KindOf(a)) == KindIds(m, KindOf(a)) + {IdOf(a)}
    ensures forall k :: k != KindOf(a) ==> KindIds(r, k) == KindIds(m, k)
  {
    WithKindIds(m.(agents := Put(m.agents, IdOf(a), a)), KindOf(a), KindIds(m, KindOf(a)) + {IdOf(a)})
  }

  /** Any agent already registered under `a`'s id is of `a`'s kind. */
  predicate Compatible(m: Manager, a: Agent)
  {
    forall e {:trigger e in m.agents} :: e in m.agents && e.0 == IdOf(a) ==> KindOf(e.1) == KindOf(a)
  }

  lemma UniqueEntry<V>(d: Dict<V>, k: int, v: V, w: V)
    requires Valid(d) && (k, v) in d && (k, w) in d
    ensures v == w
  {
    GetEntry(d, k, v);
    GetEntry(d, k, w);
  }

  /** Every agent in the registry after `Register` is filed under its kind. */
  lemma {:induction false} RegisterKeepsAgentsFiled(m: Manager, a: Agent)
    requires Valid(m.agents) && AgentsFiled(m)
    ensures AgentsFiled(Register(m, a))
  {
    var r := Register(m, a);
    forall e {:trigger e in r.agents} | e in r.agents
      ensures IdOf(e.1) == e.0 && e.0 in KindIds(r, KindOf(e.1))
    {
      if e != (IdOf(a), a) {
        if e.0 == IdOf(a) {
          UniqueEntry(r.agents, IdOf(a), e.1, a);
        }
        assert e in m.agents;
      }
    }
  }

  /** An id filed under some kind other than `a`'s is not `a`'s id. */
  lemma OtherKindsMissId(m: Manager, a: Agent, k: Kind)
    requires WellFormed(m) && Compatible(m, a) && k != KindOf(a)
    ensures IdOf(a) !in KindIds(m, k)
  {
    if IdOf(a) in KindIds(m, k) {
      var i := IndexOf(m.agents, IdOf(a));
      FiledUnderOwnKind(m, m.agents[i], k);
      assert false;
    }
  }

  /** Registering a new agent, or replacing one by an agent of the same
      kind and id, keeps the registry well formed. */
  lemma RegisterKeepsWellFormed(m: Manager, a: Agent)
    requires WellFormed(m) && Compatible(m, a)
    ensures WellFormed(Register(m, a))
  {
    RegisterKeepsAgentsFiled(m, a);
    var r := Register(m, a);
    forall k1, k2 | k1 != k2 ensures KindIds(r, k1) !! KindIds(r, k2) {
      if k1 == KindOf(a) {
        OtherKindsMissId(m, a, k2);
      } else if k2 == KindOf(a) {
        OtherKindsMissId(m, a, k1);
      }
    }
  }

  /** The registry holds only agents that satisfy their kind's invariant. */
  predicate AllReady(c: Constants, m: Manager)
  {
    forall e {:trigger e in m.agents} :: e in m.agents ==> Ready(c, e.1)
  }

  lemma RegisterKeepsReady(c: Constants, m: Manager, a: Agent)
    requires AllReady(c, m) && Ready(c, a)
    ensures AllReady(c, Register(m, a))
  {
  }

  // ---------------------------------------------------------------------
  // initialization
  // ---------------------------------------------------------------------

  /** How many agents `range(count)` creates. */
  function Count(count: int): nat
  {
    if count < 0 then 0 else count
  }

  /** `create(i)` is the outcome of the loop's `i`-th iteration; whatever it
      builds is of kind `k` with the `i`-th id of that kind. */
  ghost predicate MakesBlock(k: Kind, create: int -> Result<Agent, Raised>)
  {
    forall i :: create(i).Success? ==> KindOf(create(i).value) == k && IdOf(create(i).value) == AgentIdFor(k, i)
  }

  /** The iterations of `_initialize_*` for kind `k`. */
  function Creator(k: Kind, e: Endowment, w: World): (create: int -> Result<Agent, Raised>)
    ensures forall i :: create(i) == CreateAgent(k, i, e, w)
    ensures MakesBlock(k, create)
  {
    i => CreateAgent(k, i, e, w)
  }

  /** The first iteration below `n` whose creation raises, or `n`. */
  function FirstFailure(create: int -> Result<Agent, Raised>, n: nat): (f: nat)
    ensures f <= n
    ensures forall j :: 0 <= j < f ==> create(j).Success?
    ensures f < n ==> create(f).Failure?
  {
    if n == 0 then 0
    else
      var f := FirstFailure(create, n - 1);
      if f < n - 1 then f
      else if create(n - 1).Failure? then n - 1
      else n
  }

  lemma {:induction false} FirstFailureAt(create: int -> Result<Agent, Raised>, n: nat, i: nat)
    requires i < n && create(i).Failure? && forall j :: 0 <= j < i ==> create(j).Success?
    ensures FirstFailure(create, n) == i
    decreases n
  {
    if i < n - 1 {
      FirstFailureAt(create, n - 1, i);
    }
  }

  lemma {:induction false} NoFailure(create: int -> Result<Agent, Raised>, n: nat)
    requires forall j :: 0 <= j < n ==> create(j).Success?
    ensures FirstFailure(create, n) == n
    decreases n
  {
    if n > 0 {
      NoFailure(create, n - 1);
    }
  }

  /** The agents the first `n` iterations create, when none of them raises. */
  ghost function Made(create: int -> Result<Agent, Raised>, n: nat): (r: seq<Agent>)
    requires forall j :: 0 <= j < n ==> create(j).Success?
    ensures |r| == n && forall j :: 0 <= j < n ==> r[j] == create(j).value
  {
    if n == 0 then [] else Made(create, n - 1) + [create(n - 1).value]
  }

  /** `made` is a run of agents of kind `k`, the `j`-th carrying the kind's
      `j`-th id. */
  predicate IsBlockOf(k: Kind, made: seq<Agent>)
  {
    forall j :: 0 <= j < |made| ==> KindOf(made[j]) == k && IdOf(made[j]) == AgentIdFor(k, j)
  }

  lemma MadeIsBlock(k: Kind, create: int -> Result<Agent, Raised>, n: nat)
    requires MakesBlock(k, create) && forall j :: 0 <= j < n ==> create(j).Success?
    ensures IsBlockOf(k, Made(create, n))
  {
  }

  /** `m` with the agents of `made` registered one after another. */
  function RegisterAll(m: Manager, made: seq<Agent>): Manager
    decreases |made|
  {
    if |made| == 0 then m else Register(RegisterAll(m, made[..|made| - 1]), made[|made| - 1])
  }

  lemma LastDropped(made: seq<Agent>, k: Kind)
    requires |made| > 0 && IsBlockOf(k, made)
    ensures IsBlockOf(k, made[..|made| - 1])
    ensures KindOf(made[|made| - 1]) == k && IdOf(made[|made| - 1]) == AgentIdFor(k, |made| - 1)
  {
  }

  /** `cur` is `m` with a run of agents of kind `k` added: the registry and
      kind `k`'s dictionary gain exactly the ids of `IdBlock(k, |made|)`, the
      other kinds' dictionaries are untouched, and the `j`-th agent of the run
      is registered under the `j`-th id. */
  ghost predicate BlockAdded(m: Manager, k: Kind, made: seq<Agent>, cur: Manager)
  {
    && KeySet(cur.agents) == KeySet(m.agents) + IdBlock(k, |made|)
    && KindIds(cur, k) == KindIds(m, k) + IdBlock(k, |made|)
    && (forall k' :: k' != k ==> KindIds(cur, k') == KindIds(m, k'))
    && (forall j :: 0 <= j < |made| ==> (AgentIdFor(k, j), made[j]) in cur.agents)
  }

  lemma {:induction false} RegisterAllKeys(m: Manager, k: Kind, made: seq<Agent>)
    requires IsBlockOf(k, made)
    ensures KeySet(RegisterAll(m, made).agents) == KeySet(m.agents) + IdBlock(k, |made|)
    decreases |made|
  {
    if |made| == 0 {
      assert IdBlock(k, 0) == {};
    } else {
      var n := |made| - 1;
      LastDropped(made, k);
      RegisterAllKeys(m, k, made[..n]);
      assert IdBlock(k, n + 1) == IdBlock(k, n) + {AgentIdFor(k, n)};
      UnionStep(KeySet(RegisterAll(m, made[..n]).agents), KeySet(m.agents), IdBlock(k, n), AgentIdFor(k, n));
    }
  }

  lemma {:induction false} RegisterAllKinds(m: Manager, k: Kind, made: seq<Agent>)
    requires IsBlockOf(k, made)
    ensures KindIds(RegisterAll(m, made), k) == KindIds(m, k) + IdBlock(k, |made|)
    ensures forall k' :: k' != k ==> KindIds(RegisterAll(m, made), k') == KindIds(m, k')
    decreases |made|
  {
    if |made| == 0 {
      assert IdBlock(k, 0) == {};
    } else {
      var n := |made| - 1;
      LastDropped(made, k);
      RegisterAllKinds(m, k, made[..n]);
      assert IdBlock(k, n + 1) == IdBlock(k, n) + {AgentIdFor(k, n)};
      UnionStep(KindIds(RegisterAll(m, made[..n]), k), KindIds(m, k), IdBlock(k, n), AgentIdFor(k, n));
    }
  }

  lemma {:induction false} RegisterAllEntries(m: Manager, k: Kind, made: seq<Agent>)
    requires IsBlockOf(k, made)
    ensures forall j :: 0 <= j < |made| ==> (AgentIdFor(k, j), made[j]) in RegisterAll(m, made).agents
    decreases |made|
  {
    if |made| > 0 {
      var n := |made| - 1;
      LastDropped(made, k);
      RegisterAllEntries(m, k, made[..n]);
      RegisterKeepsEntries(RegisterAll(m, made[..n]), k, made);
    }
  }

  /** Registering the last agent of a run keeps the earlier ones and adds it. */
  lemma RegisterKeepsEntries(cur: Manager, k: Kind, made: seq<Agent>)
    requires |made| > 0 && IsBlockOf(k, made)
    requires forall j :: 0 <= j < |made| - 1 ==> (AgentIdFor(k, j), made[j]) in cur.agents
    ensures forall j :: 0 <= j < |made| ==> (AgentIdFor(k, j), made[j]) in Register(cur, made[|made| - 1]).agents
  {
    var n := |made| - 1;
    forall j | 0 <= j < |made| ensures (AgentIdFor(k, j), made[j]) in Register(cur, made[n]).agents {
      if j < n {
        assert AgentIdFor(k, j) != AgentIdFor(k, n);
      }
    }
  }

  lemma RegisterAllAddsBlock(m: Manager, k: Kind, made: seq<Agent>)
    requires IsBlockOf(k, made)
    ensures BlockAdded(m, k, made, RegisterAll(m, made))
  {
    RegisterAllKeys(m, k, made);
    RegisterAllKinds(m, k, made);
    RegisterAllEntries(m, k, made);
  }

  /** Registering a run of fresh ids into a well-formed registry keeps it
      well formed. */
  lemma {:induction false} RegisterAllWellFormed(m: Manager, k: Kind, made: seq<Agent>)
    requires IsBlockOf(k, made)
    requires WellFormed(m) && KeySet(m.agents) !! IdBlock(k, |made|)
    ensures WellFormed(RegisterAll(m, made))
    decreases |made|
  {
    if |made| > 0 {
      var n := |made| - 1;
      var id := AgentIdFor(k, n);
      assert id in IdBlock(k, n + 1);
      LastDropped(made, k);
      RegisterAllWellFormed(m, k, made[..n]);
      RegisterAllKeys(m, k, made[..n]);
      assert id !in IdBlock(k, n);
      RegisterFresh(RegisterAll(m, made[..n]), made[n]);
    }
  }

  /** Registering agents that satisfy their invariants into a registry of
      such agents gives a registry of such agents. */
  lemma {:induction false} RegisterAllReady(c: Constants, m: Manager, made: seq<Agent>)
    requires AllReady(c, m) && forall a :: a in made ==> Ready(c, a)
    ensures AllReady(c, RegisterAll(m, made))
    decreases |made|
  {
    if |made| > 0 {
      var n := |made| - 1;
      RegisterAllReady(c, m, made[..n]);
      assert made[n] in made;
    }
  }

  /** A creation loop of `n` iterations starting from the registry `m`: it
      stops at the first iteration whose creation raises, and that exception
      is the loop's; otherwise every created agent is registered, in
      creation order. */
  method RegisterCreated(m: Manager, n: nat, create: int -> Result<Agent, Raised>) returns (r: Result<Manager, Raised>)
    ensures r.Success? <==> FirstFailure(create, n) == n
    ensures r.Failure? ==> create(FirstFailure(create, n)) == Failure(r.error)
    ensures r.Success? ==>
      && (forall j :: 0 <= j < n ==> create(j).Success?)
      && r.value == RegisterAll(m, Made(create, n))
  {
    var cur := m;
    var i := 0;
    ghost var made: seq<Agent> := [];
    while i < n
      invariant 0 <= i <= n
      invariant FirstFailure(create, i) == i
      invariant made == Made(create, i)
      invariant cur == RegisterAll(m, made)
    {
      var a := create(i);
      if a.Failure? {
        FirstFailureAt(create, n, i);
        return Failure(a.error);
      }
      assert (made + [a.value])[..i] == made;
      cur := Register(cur, a.value);
      made := made + [a.value];
      i := i + 1;
    }
    NoFailure(create, n);
    r := Success(cur);
  }

  /** The `_initialize_*` loop for kind `k`, starting from the registry `m`:
      `range(count)` iterations, each creating the kind's next agent from the
      kind's endowment. It raises what the first failing creation raises and
      otherwise registers the kind's agents in creation order
      (`RegisterAllAddsBlock` says what that adds to the registry). */
  method InitializeGroup(m: Manager, pop: Population, w: World, k: Kind) returns (r: Result<Manager, Raised>)
    ensures r.Success? <==> GroupCreated(pop, w, k)
    ensures r.Failure? ==>
      var create := Creator(k, EndowmentOf(pop, k), w);
      create(FirstFailure(create, CountOf(pop, k))) == Failure(r.error)
    ensures r.Success? ==> r.value == RegisterAll(m, GroupMade(pop, w, k))
  {
    r := RegisterCreated(m, CountOf(pop, k), Creator(k, EndowmentOf(pop, k), w));
  }

  lemma UnionStep(s: set<int>, base: set<int>, block: set<int>, x: int)
    requires s == base + block
    ensures s + {x} == base + (block + {x})
  {
  }

  /** Every agent `create` makes satisfies its kind's invariant. */
  ghost predicate ReadyCreations(c: Constants, create: int -> Result<Agent, Raised>)
  {
    forall i :: create(i).Success? ==> Ready(c, create(i).value)
  }

  lemma MadeReady(c: Constants, create: int -> Result<Agent, Raised>, n: nat)
    requires ReadyCreations(c, create) && forall j :: 0 <= j < n ==> create(j).Success?
    ensures forall j :: 0 <= j < n ==> Ready(c, Made(create, n)[j])
  {
  }

  /** Registering an agent under an id not yet in use keeps the registry
      well formed. */
  lemma RegisterFresh(cur: Manager, a: Agent)
    requires WellFormed(cur) && IdOf(a) !in KeySet(cur.agents)
    ensures WellFormed(Register(cur, a))
  {
    assert Compatible(cur, a) by {
      forall x {:trigger x in cur.agents} | x in cur.agents ensures x.0 != IdOf(a) {
        KeySetMember(cur.agents, x.0, x.1);
      }
    }
    RegisterKeepsWellFormed(cur, a);
  }

  /** The sampled parameters keep every agent's invariant: a non-negative
      fee rate and non-negative market-maker spreads. */
  ghost predicate SaneWorld(c: Constants, w: World)
  {
    && c.feeRate >= 0.0
    && forall id :: w.marketMakerParams(id).Success? ==> w.marketMakerParams(id).value.spreadSize >= 0
  }

  /** A freshly created agent satisfies its kind's invariant. */
  lemma CreatedReady(c: Constants, k: Kind, i: int, e: Endowment, w: World)
    requires SaneWorld(c, w) && CreateAgent(k, i, e, w).Success?
    ensures Ready(c, CreateAgent(k, i, e, w).value)
  {
    var a := CreateAgent(k, i, e, w).value;
    match a
    case MarketMakerAgent(p, _) =>
      assert w.marketMakerParams(AgentIdFor(k, i)).Success?;
      MarketMaker.InitInvariant(p, c);
    case ValueInvestorAgent(p, s) =>
      ValueInvestor.InitInvariant(p, c, w.register(AgentIdFor(k, i), SampleValue(e.cash, w.cashDraw(k, i)).value, Trunc(SampleValue(e.shares, w.sharesDraw(k, i)).value)).value);
    case MomentumTraderAgent(p, _) =>
      MomentumTrader.InitInvariant(p);
    case NoiseTraderAgent(_) =>
  }

  lemma CreatorsReady(c: Constants, w: World)
    requires SaneWorld(c, w)
    ensures forall k, e :: ReadyCreations(c, Creator(k, e, w))
  {
    forall k, e, i | Creator(k, e, w)(i).Success?
      ensures Ready(c, Creator(k, e, w)(i).value)
    {
      CreatedReady(c, k, i, e, w);
    }
  }

  /** The population each kind is configured with. */
  function CountOf(pop: Population, k: Kind): nat
  {
    match k
    case MarketMakerKind => Count(pop.marketMakers)
    case ValueInvestorKind => Count(pop.valueInvestors)
    case MomentumTraderKind => Count(pop.momentumTraders)
    case NoiseTraderKind => Count(pop.noiseTraders)
  }

  function EndowmentOf(pop: Population, k: Kind): Endowment
  {
    if k == MarketMakerKind then pop.marketMakerEndowment else pop.othersEndowment
  }

  /** Kind `k`'s loop runs to completion. */
  predicate GroupCreated(pop: Population, w: World, k: Kind)
  {
    FirstFailure(Creator(k, EndowmentOf(pop, k), w), CountOf(pop, k)) == CountOf(pop, k)
  }

  /** Every kind's loop runs to completion. */
  predicate AllCreated(pop: Population, w: World)
  {
    && GroupCreated(pop, w, MarketMakerKind) && GroupCreated(pop, w, ValueInvestorKind)
    && GroupCreated(pop, w, MomentumTraderKind) && GroupCreated(pop, w, NoiseTraderKind)
  }

  /** No kind has more than 10000 agents, so the id blocks stay apart. */
  predicate Bounded(pop: Population)
  {
    && pop.marketMakers <= 10000 && pop.valueInvestors <= 10000
    && pop.momentumTraders <= 10000 && pop.noiseTraders <= 10000
  }

  /** Up to 10000 agents per kind, two kinds' id blocks do not meet. */
  lemma BlocksApart(k1: Kind, n1: nat, k2: Kind, n2: nat)
    requires k1 != k2 && n1 <= 10000 && n2 <= 10000
    ensures IdBlock(k1, n1) !! IdBlock(k2, n2)
  {
    forall id | id in IdBlock(k1, n1) ensures id !in IdBlock(k2, n2) {
      if id in IdBlock(k2, n2) {
        IdBlocksDisjoint(k1, id - IdBase(k1), k2, id - IdBase(k2));
        assert false;
      }
    }
  }

  /** In a well-formed registry the agents are exactly those the four kind
      dictionaries name. */
  lemma KeySetIsUnion(m: Manager)
    requires WellFormed(m)
    ensures KeySet(m.agents) == KindIds(m, MarketMakerKind) + KindIds(m, ValueInvestorKind)
                               + KindIds(m, MomentumTraderKind) + KindIds(m, NoiseTraderKind)
  {
    forall id | id in KeySet(m.agents)
      ensures id in KindIds(m, MarketMakerKind) + KindIds(m, ValueInvestorKind)
                    + KindIds(m, MomentumTraderKind) + KindIds(m, NoiseTraderKind)
    {
      var i := IndexOf(m.agents, id);
      assert m.agents[i] in m.agents;
    }
  }

  /** The order in which `initialize_agents` creates the kinds. */
  function CreationRank(k: Kind): nat
  {
    match k
    case MarketMakerKind => 0
    case ValueInvestorKind => 1
    case MomentumTraderKind => 2
    case NoiseTraderKind => 3
  }

  /** The `i`-th kind `initialize_agents` creates. */
  function KindAt(i: int): (k: Kind)
    requires 0 <= i < 4
    ensures CreationRank(k) == i
  {
    if i == 0 then MarketMakerKind
    else if i == 1 then ValueInvestorKind
    else if i == 2 then MomentumTraderKind
    else NoiseTraderKind
  }

  /** Partway through `initialize_agents`, after the first `i` kinds: a
      well-formed registry whose finished kinds hold their full id blocks and
      whose other kinds are still empty. */
  ghost predicate Stage(m: Manager, pop: Population, i: int)
  {
    WellFormed(m) && KindsFilled(m, pop, i)
  }

  /** The kind dictionaries after the first `i` kinds: full blocks before, empty after. */
  ghost predicate KindsFilled(m: Manager, pop: Population, i: int)
  {
    forall k :: KindIds(m, k) == if CreationRank(k) < i then IdBlock(k, CountOf(pop, k)) else {}
  }

  lemma EmptyStage(pop: Population)
    ensures Stage(Empty(), pop, 0)
  {
    EmptyWellFormed();
  }

  /** At a stage, the ids of the next kind are all unused. */
  lemma StageLeavesBlockFree(m: Manager, pop: Population, i: int)
    requires Bounded(pop) && Stage(m, pop, i) && 0 <= i < 4
    ensures KeySet(m.agents) !! IdBlock(KindAt(i), CountOf(pop, KindAt(i)))
  {
    var k := KindAt(i);
    var n := CountOf(pop, k);
    forall k' ensures KindIds(m, k') !! IdBlock(k, n) {
      if CreationRank(k') < i {
        BlocksApart(k', CountOf(pop, k'), k, n);
      }
    }
    KeySetIsUnion(m);
    UnionDisjoint(KindIds(m, MarketMakerKind), KindIds(m, ValueInvestorKind),
                  KindIds(m, MomentumTraderKind), KindIds(m, NoiseTraderKind), IdBlock(k, n));
  }

  lemma UnionDisjoint(a: set<int>, b: set<int>, c: set<int>, d: set<int>, x: set<int>)
    requires a !! x && b !! x && c !! x && d !! x
    ensures a + b + c + d !! x
  {
  }

  /** Running the next kind's loop to completion advances the stage. */
  lemma StageStep(m: Manager, pop: Population, i: int, made: seq<Agent>)
    requires Bounded(pop) && Stage(m, pop, i) && 0 <= i < 4
    requires IsBlockOf(KindAt(i), made) && |made| == CountOf(pop, KindAt(i))
    ensures Stage(RegisterAll(m, made), pop, i + 1)
  {
    StageLeavesBlockFree(m, pop, i);
    RegisterAllWellFormed(m, KindAt(i), made);
    KindsFilledStep(m, pop, i, made);
  }

  /** Registering the next kind's block fills that kind's dictionary and no other. */
  lemma KindsFilledStep(m: Manager, pop: Population, i: int, made: seq<Agent>)
    requires KindsFilled(m, pop, i) && 0 <= i < 4
    requires IsBlockOf(KindAt(i), made) && |made| == CountOf(pop, KindAt(i))
    ensures KindsFilled(RegisterAll(m, made), pop, i + 1)
  {
    forall k' ensures KindIds(RegisterAll(m, made), k') == if CreationRank(k') < i + 1 then IdBlock(k', CountOf(pop, k')) else {} {
      KindFilledStep(m, pop, i, made, k');
    }
  }

  /** The same for one kind `k'`, from that kind's entry before the step. */
  lemma KindFilledStep(m: Manager, pop: Population, i: int, made: seq<Agent>, k': Kind)
    requires 0 <= i < 4 && IsBlockOf(KindAt(i), made) && |made| == CountOf(pop, KindAt(i))
    requires KindIds(m, k') == if CreationRank(k') < i then IdBlock(k', CountOf(pop, k')) else {}
    ensures KindIds(RegisterAll(m, made), k') == if CreationRank(k') < i + 1 then IdBlock(k', CountOf(pop, k')) else {}
  {
    RegisterAllKinds(m, KindAt(i), made);
    if k' == KindAt(i) {
      assert KindIds(m, k') == {};
    }
  }

  /** The agents kind `k`'s loop creates when it runs to completion. */
  ghost function GroupMade(pop: Population, w: World, k: Kind): (r: seq<Agent>)
    requires GroupCreated(pop, w, k)
    ensures |r| == CountOf(pop, k) && IsBlockOf(k, r)
  {
    MadeIsBlock(k, Creator(k, EndowmentOf(pop, k), w), CountOf(pop, k));
    Made(Creator(k, EndowmentOf(pop, k), w), CountOf(pop, k))
  }

  /** The registry after the market-maker loop. */
  ghost function AfterMarketMakers(pop: Population, w: World): Manager
    requires GroupCreated(pop, w, MarketMakerKind)
  {
    RegisterAll(Empty(), GroupMade(pop, w, MarketMakerKind))
  }

  /** The registry after the value-investor loop. */
  ghost function AfterValueInvestors(pop: Population, w: World): Manager
    requires GroupCreated(pop, w, MarketMakerKind) && GroupCreated(pop, w, ValueInvestorKind)
  {
    RegisterAll(AfterMarketMakers(pop, w), GroupMade(pop, w, ValueInvestorKind))
  }

  /** The registry after the momentum-trader loop. */
  ghost function AfterMomentumTraders(pop: Population, w: World): Manager
    requires GroupCreated(pop, w, MarketMakerKind) && GroupCreated(pop, w, ValueInvestorKind)
    requires GroupCreated(pop, w, MomentumTraderKind)
  {
    RegisterAll(AfterValueInvestors(pop, w), GroupMade(pop, w, MomentumTraderKind))
  }

  /** The registry `initialize_agents` builds when no creation raises. */
  ghost function Initialized(pop: Population, w: World): Manager
    requires AllCreated(pop, w)
  {
    RegisterAll(AfterMomentumTraders(pop, w), GroupMade(pop, w, NoiseTraderKind))
  }

  lemma {:induction false} StageOne(pop: Population, w: World)
    requires AllCreated(pop, w) && Bounded(pop)
    ensures Stage(AfterMarketMakers(pop, w), pop, 1)
  {
    EmptyStage(pop);
    StageStep(Empty(), pop, 0, GroupMade(pop, w, KindAt(0)));
  }

  lemma {:induction false} StageTwo(pop: Population, w: World)
    requires AllCreated(pop, w) && Bounded(pop)
    ensures Stage(AfterValueInvestors(pop, w), pop, 2)
  {
    StageOne(pop, w);
    StageStep(AfterMarketMakers(pop, w), pop, 1, GroupMade(pop, w, KindAt(1)));
  }

  lemma {:induction false} StageThree(pop: Population, w: World)
    requires AllCreated(pop, w) && Bounded(pop)
    ensures Stage(AfterMomentumTraders(pop, w), pop, 3)
  {
    StageTwo(pop, w);
    StageStep(AfterValueInvestors(pop, w), pop, 2, GroupMade(pop, w, KindAt(2)));
  }

  lemma {:induction false} StageFour(pop: Population, w: World)
    requires AllCreated(pop, w) && Bounded(pop)
    ensures Stage(Initialized(pop, w), pop, 4)
  {
    StageThree(pop, w);
    StageStep(AfterMomentumTraders(pop, w), pop, 3, GroupMade(pop, w, KindAt(3)));
  }

  /** With at most 10000 agents per kind, the registry files each kind's
      agents under exactly its id block and is well formed. */
  lemma InitializedShape(pop: Population, w: World)
    requires AllCreated(pop, w) && Bounded(pop)
    ensures WellFormed(Initialized(pop, w))
    ensures forall k :: KindIds(Initialized(pop, w), k) == IdBlock(k, CountOf(pop, k))
  {
    StageFour(pop, w);
    var m := Initialized(pop, w);
    forall k ensures KindIds(m, k) == IdBlock(k, CountOf(pop, k)) {
      assert CreationRank(k) < 4;
    }
  }

  /** When the sampled parameters are sane, every registered agent satisfies
      its kind's invariant. */
  lemma InitializedReady(pop: Population, c: Constants, w: World)
    requires AllCreated(pop, w) && SaneWorld(c, w)
    ensures AllReady(c, Initialized(pop, w))
  {
    GroupReady(pop, c, w, MarketMakerKind, Empty());
    GroupReady(pop, c, w, ValueInvestorKind, AfterMarketMakers(pop, w));
    GroupReady(pop, c, w, MomentumTraderKind, AfterValueInvestors(pop, w));
    GroupReady(pop, c, w, NoiseTraderKind, AfterMomentumTraders(pop, w));
  }

  /** Registering a kind's freshly created agents keeps every registered
      agent within its kind's invariant. */
  lemma GroupReady(pop: Population, c: Constants, w: World, k: Kind, m: Manager)
    requires GroupCreated(pop, w, k) && SaneWorld(c, w) && AllReady(c, m)
    ensures AllReady(c, RegisterAll(m, GroupMade(pop, w, k)))
  {
    CreatorsReady(c, w);
    MadeReady(c, Creator(k, EndowmentOf(pop, k), w), CountOf(pop, k));
    RegisterAllReady(c, m, GroupMade(pop, w, k));
  }

  /** What the registry `initialize_agents` builds satisfies: with at most
      10000 agents of each kind it files kind `k`'s agents under exactly the
      ids `IdBase(k) .. IdBase(k) + count - 1`, registers nothing else and is
      well formed; when the sampled parameters are sane every registered
      agent satisfies its kind's invariant. */
  ghost predicate InitializedProperly(pop: Population, c: Constants, w: World, m: Manager)
  {
    && (Bounded(pop) ==>
      && WellFormed(m)
      && (forall k :: KindIds(m, k) == IdBlock(k, CountOf(pop, k)))
      && KeySet(m.agents) == IdBlock(MarketMakerKind, CountOf(pop, MarketMakerKind))
           + IdBlock(ValueInvestorKind, CountOf(pop, ValueInvestorKind))
           + IdBlock(MomentumTraderKind, CountOf(pop, MomentumTraderKind))
           + IdBlock(NoiseTraderKind, CountOf(pop, NoiseTraderKind)))
    && (SaneWorld(c, w) ==> AllReady(c, m))
  }

  lemma InitializedIsProper(pop: Population, c: Constants, w: World)
    requires AllCreated(pop, w)
    ensures InitializedProperly(pop, c, w, Initialized(pop, w))
  {
    if Bounded(pop) {
      InitializedShape(pop, w);
      KeySetIsUnion(Initialized(pop, w));
    }
    if SaneWorld(c, w) {
      InitializedReady(pop, c, w);
    }
  }

  /** `initialize_agents`: market makers from the market-maker endowment,
      then value investors, momentum traders and noise traders from the
      shared endowment. It succeeds exactly when every creation does, and
      then returns the registry `Initialized` describes. */
  method InitializeAgents(pop: Population, c: Constants, w: World) returns (r: Result<Manager, Raised>)
    ensures r.Success? <==> AllCreated(pop, w)
    ensures r.Success? ==> InitializedProperly(pop, c, w, r.value)
  {
    var r1 := InitializeGroup(Empty(), pop, w, MarketMakerKind);
    if r1.Failure? {
      return Failure(r1.error);
    }
    var r2 := InitializeGroup(r1.value, pop, w, ValueInvestorKind);
    if r2.Failure? {
      return Failure(r2.error);
    }
    var r3 := InitializeGroup(r2.value, pop, w, MomentumTraderKind);
    if r3.Failure? {
      return Failure(r3.error);
    }
    r := InitializeGroup(r3.value, pop, w, NoiseTraderKind);
    if r.Success? {
      assert r1.value == AfterMarketMakers(pop, w);
      assert r2.value == AfterValueInvestors(pop, w);
      assert r3.value == AfterMomentumTraders(pop, w);
      assert r.value == Initialized(pop, w);
      InitializedIsProper(pop, c, w);
    }
  }

  // ---------------------------------------------------------------------
  // scheduling
  // ---------------------------------------------------------------------

  /** A shuffle of a dict with distinct keys has distinct keys. */
  lemma ShuffleKeepsValid(d: Dict<Agent>, perm: seq<int>)
    requires Valid(d) && IsIndexPermutation(perm, |d|)
    ensures Valid(Shuffle(d, perm))
  {
    var r := Shuffle(d, perm);
    forall i, j | 0 <= i < j < |r| ensures r[i].0 != r[j].0 {
      assert r[i] == d[perm[i]] && r[j] == d[perm[j]];
    }
  }

  /** `macro_tick_agents`: every registered agent once, in shuffled order. */
  function MacroTickAgents(m: Manager, perm: seq<int>): (r: seq<(int, Agent)>)
    requires Valid(m.agents) && IsIndexPermutation(perm, |m.agents|)
    ensures |r| == |m.agents| && Valid(r)
    ensures forall e :: e in r <==> e in m.agents
  {
    ShuffleKeepsValid(m.agents, perm);
    Shuffle(m.agents, perm)
  }

  /** The agents that act on a micro tick, before shuffling. */
  function MicroCandidates(m: Manager): (r: Dict<Agent>)
    ensures forall e {:trigger e in m.agents} {:trigger e in r} :: e in r <==> e in m.agents && e.0 !in m.valueInvestors
    ensures Valid(m.agents) ==> Valid(r)
  {
    Without(m.agents, m.valueInvestors)
  }

  /** `micro_tick_agents`: every registered agent that is not filed as a
      value investor, once each, in shuffled order. */
  function MicroTickAgents(m: Manager, perm: seq<int>): (r: seq<(int, Agent)>)
    requires Valid(m.agents) && IsIndexPermutation(perm, |MicroCandidates(m)|)
    ensures Valid(r)
    ensures forall e {:trigger e in m.agents} {:trigger e in r} :: e in r <==> e in m.agents && e.0 !in m.valueInvestors
  {
    ShuffleKeepsValid(MicroCandidates(m), perm);
    Shuffle(MicroCandidates(m), perm)
  }

  /** In a well-formed registry the micro-tick schedule is exactly the
      agents that are not value investors. */
  lemma MicroTickSkipsValueInvestors(m: Manager, perm: seq<int>)
    requires WellFormed(m) && IsIndexPermutation(perm, |MicroCandidates(m)|)
    ensures forall e {:trigger e in m.agents} {:trigger e in MicroTickAgents(m, perm)} :: e in MicroTickAgents(m, perm) <==> e in m.agents && KindOf(e.1) != ValueInvestorKind
  {
    forall e {:trigger e in m.agents} | e in m.agents
      ensures e.0 in m.valueInvestors <==> KindOf(e.1) == ValueInvestorKind
    {
      FiledUnderOwnKind(m, e, ValueInvestorKind);
    }
  }
}
