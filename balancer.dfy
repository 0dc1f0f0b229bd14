/** The load balancer: one pool of agent instances per agent type, a per-type
    counter shared by round-robin and weighted round-robin, a per-type weight,
    and the active selection algorithm. Every operation below changes these
    fields in place as the balancer's methods do. */
module Balancer {
  import opened Common
  import opened Instances
  import opened Selection
  import opened Pools

  /** The first `k` pools listed in `order` are checked versions of those in `before`, the rest
      are as they were. */
  ghost predicate CheckedUpTo(before: map<string, Pool>, after: map<string, Pool>, order: seq<string>,
                              k: nat, probe: AgentInstance -> Probe)
    requires k <= |order|
    requires forall j :: 0 <= j < |order| ==> order[j] in before && order[j] in after
  {
    && (forall j :: 0 <= j < k ==> after[order[j]] == CheckedPool(before[order[j]], probe))
    && (forall j :: k <= j < |order| ==> after[order[j]] == before[order[j]])
  }

  /** Checking the pool listed at position `k` extends the checked prefix by one. */
  lemma CheckedUpToStep(before: map<string, Pool>, mid: map<string, Pool>, order: seq<string>,
                        k: nat, probe: AgentInstance -> Probe)
    requires k < |order|
    requires forall i, j :: 0 <= i < j < |order| ==> order[i] != order[j]
    requires forall j :: 0 <= j < |order| ==> order[j] in before && order[j] in mid
    requires CheckedUpTo(before, mid, order, k, probe)
    ensures var after := mid[order[k] := CheckedPool(mid[order[k]], probe)];
      CheckedUpTo(before, after, order, k + 1, probe)
  {
  }

  /** The first `k` pools listed in `order` are auto-scaled versions of those in `before`, the
      rest are as they were. */
  ghost predicate ScaledUpTo(before: map<string, Pool>, after: map<string, Pool>, order: seq<string>,
                             k: nat, now: real)
    requires k <= |order|
    requires forall j :: 0 <= j < |order| ==> order[j] in before && order[j] in after
  {
    && (forall j :: 0 <= j < k ==> AutoScaled(before[order[j]], after[order[j]], order[j], now))
    && (forall j :: k <= j < |order| ==> after[order[j]] == before[order[j]])
  }

  /** Auto-scaling the pool listed at position `k` extends the scaled prefix by one. */
  lemma ScaledUpToStep(before: map<string, Pool>, mid: map<string, Pool>, order: seq<string>,
                       k: nat, scaled: Pool, now: real)
    requires k < |order|
    requires forall i, j :: 0 <= i < j < |order| ==> order[i] != order[j]
    requires forall j :: 0 <= j < |order| ==> order[j] in before && order[j] in mid
    requires ScaledUpTo(before, mid, order, k, now)
    requires AutoScaled(mid[order[k]], scaled, order[k], now)
    ensures ScaledUpTo(before, mid[order[k] := scaled], order, k + 1, now)
  {
  }

  /** The pools grown among the first `k` listed in `order` carry their new instance's handle
      in list order: the handle drawn after those of the grown pools listed before them. */
  ghost predicate HandledUpTo(before: map<string, Pool>, after: map<string, Pool>, order: seq<string>,
                              k: nat, first: Handle)
    requires k <= |order|
    requires forall j :: 0 <= j < |order| ==> order[j] in before && order[j] in after
  {
    forall j :: 0 <= j < k ==> HandlesFrom(before[order[j]], after[order[j]], first + GrowCount(before, order[..j]))
  }

  /** Adding the pool listed at position `k`, carrying the handles drawn after those of the
      grown pools listed before it, extends the handled prefix by one. */
  lemma HandledUpToStep(before: map<string, Pool>, mid: map<string, Pool>, after: map<string, Pool>,
                        order: seq<string>, k: nat, first: Handle)
    requires k < |order|
    requires forall j :: 0 <= j < |order| ==> order[j] in before && order[j] in mid && order[j] in after
    requires HandledUpTo(before, mid, order, k, first)
    requires forall j :: 0 <= j < k ==> after[order[j]] == mid[order[j]]
    requires HandlesFrom(before[order[k]], after[order[k]], first + GrowCount(before, order[..k]))
    ensures HandledUpTo(before, after, order, k + 1, first)
  {
    forall j | 0 <= j < k + 1
      ensures HandlesFrom(before[order[j]], after[order[j]], first + GrowCount(before, order[..j]))
    {
      if j < k {
        assert HandlesFrom(before[order[j]], mid[order[j]], first + GrowCount(before, order[..j]));
      }
    }
  }

  /** Progress of one auto-scale pass over `order`: the same keys, the first `k` listed pools
      auto-scaled and carrying their new instances' handles in list order, and `handle` the
      next handle after those drawn so far. */
  ghost predicate ScaleProgress(before: map<string, Pool>, after: map<string, Pool>, order: seq<string>,
                                k: nat, now: real, first: Handle, handle: Handle)
  {
    && k <= |order|
    && (forall j :: 0 <= j < |order| ==> order[j] in before && order[j] in after)
    && after.Keys == before.Keys
    && ScaledUpTo(before, after, order, k, now)
    && HandledUpTo(before, after, order, k, first)
    && handle == first + GrowCount(before, order[..k])
  }

  /** A pass over a map keyed by the listed types starts with nothing scaled and no handle drawn. */
  lemma ScaleProgressStart(pools: map<string, Pool>, order: seq<string>, now: real, handle: Handle)
    requires forall t :: t in pools <==> t in order
    ensures ScaleProgress(pools, pools, order, 0, now, handle, handle)
  {
    forall j | 0 <= j < |order|
      ensures order[j] in pools
    {
      assert order[j] in order;
    }
    assert order[..0] == [];
  }

  /** Auto-scaling the pool listed at position `k`, with the next handle, extends the progress
      by one and draws one more handle exactly when that pool grows. */
  lemma AutoScaleStep(before: map<string, Pool>, mid: map<string, Pool>, after: map<string, Pool>,
                      order: seq<string>, k: nat, now: real, first: Handle, handle: Handle, next: Handle)
    requires k < |order|
    requires forall i, j :: 0 <= i < j < |order| ==> order[i] != order[j]
    requires ScaleProgress(before, mid, order, k, now, first, handle)
    requires order[k] in after && after == mid[order[k] := after[order[k]]]
    requires AutoScaled(mid[order[k]], after[order[k]], order[k], now)
    requires HandlesFrom(mid[order[k]], after[order[k]], handle)
    requires next == handle + if AutoScaleDecision(mid[order[k]]) == Grow then 1 else 0
    ensures ScaleProgress(before, after, order, k + 1, now, first, next)
  {
    var t := order[k];
    assert mid[t] == before[t];
    ScaledUpToStep(before, mid, order, k, after[t], now);
    GrowCountStep(before, order, k);
    forall j | 0 <= j < k
      ensures order[j] != t && after[order[j]] == mid[order[j]]
    {
    }
    HandledUpToStep(before, mid, after, order, k, first);
  }

  /** Every pool of `after` is the auto-scaled version of the pool of its type in `before`. */
  ghost predicate PoolsAutoScaled(before: map<string, Pool>, after: map<string, Pool>, now: real)
  {
    && after.Keys == before.Keys
    && forall t :: t in after ==> t in before && AutoScaled(before[t], after[t], t, now)
  }

  /** A completed pass: every pool is auto-scaled, the handles drawn are one per grown pool,
      and the grown pools carry them in list order. */
  lemma ScaleProgressDone(before: map<string, Pool>, after: map<string, Pool>, order: seq<string>,
                          k: nat, now: real, first: Handle, handle: Handle)
    requires k == |order| && ScaleProgress(before, after, order, k, now, first, handle)
    requires forall t :: t in after <==> t in order
    ensures PoolsAutoScaled(before, after, now)
    ensures handle == first + GrowCount(before, order)
    ensures HandledUpTo(before, after, order, |order|, first)
  {
    assert order[..|order|] == order;
    ScaledUpToAll(before, after, order, now);
  }

  /** Pools auto-scaled after a health check are auto-scaled versions of the checked pools. */
  lemma CheckedScaled(before: map<string, Pool>, checked: map<string, Pool>, after: map<string, Pool>,
                      probe: AgentInstance -> Probe, now: real)
    requires checked.Keys == before.Keys
    requires forall t :: t in checked ==> checked[t] == CheckedPool(before[t], probe)
    requires PoolsAutoScaled(checked, after, now)
    ensures after.Keys == before.Keys
    ensures forall t :: t in after ==> AutoScaled(CheckedPool(before[t], probe), after[t], t, now)
  {
    forall t | t in after
      ensures AutoScaled(CheckedPool(before[t], probe), after[t], t, now)
    {
      assert AutoScaled(checked[t], after[t], t, now);
    }
  }

  /** A health check changes no connection count and no length, so the checked pools grow as
      many as the unchecked ones would, and the new handles sit at the same positions. */
  lemma CheckedHandled(before: map<string, Pool>, checked: map<string, Pool>, after: map<string, Pool>,
                       order: seq<string>, probe: AgentInstance -> Probe, first: Handle)
    requires forall j :: 0 <= j < |order| ==> order[j] in before && order[j] in checked && order[j] in after
    requires forall j :: 0 <= j < |order| ==> checked[order[j]] == CheckedPool(before[order[j]], probe)
    requires HandledUpTo(checked, after, order, |order|, first)
    ensures GrowCount(checked, order) == GrowCount(before, order)
    ensures HandledUpTo(before, after, order, |order|, first)
  {
    forall j | 0 <= j < |order|
      ensures AutoScaleDecision(checked[order[j]]) == AutoScaleDecision(before[order[j]])
    {
      CheckedKeepsDecision(before[order[j]], probe);
    }
    forall j | 0 <= j < |order|
      ensures HandlesFrom(before[order[j]], after[order[j]], first + GrowCount(before, order[..j]))
    {
      GrowCountSame(checked, before, order, j);
      assert HandlesFrom(checked[order[j]], after[order[j]], first + GrowCount(checked, order[..j]));
    }
    GrowCountSame(checked, before, order, |order|);
    assert order[..|order|] == order;
  }

  /** Auto-scaling pools that were only health-checked acts as auto-scaling the unchecked pools
      would: a check changes no connection count, so it changes no decision and no length. */
  lemma CheckedThenScaled(before: map<string, Pool>, checked: map<string, Pool>, after: map<string, Pool>,
                          order: seq<string>, probe: AgentInstance -> Probe, now: real, first: Handle, next: Handle)
    requires checked.Keys == before.Keys
    requires forall t :: t in checked ==> checked[t] == CheckedPool(before[t], probe)
    requires PoolsAutoScaled(checked, after, now)
    requires forall t :: t in after <==> t in order
    requires next == first + GrowCount(checked, order)
    requires HandledUpTo(checked, after, order, |order|, first)
    ensures after.Keys == before.Keys
    ensures forall t :: t in after ==> AutoScaled(CheckedPool(before[t], probe), after[t], t, now)
    ensures next == first + GrowCount(before, order)
    ensures HandledUpTo(before, after, order, |order|, first)
  {
    CheckedScaled(before, checked, after, probe, now);
    forall j | 0 <= j < |order|
      ensures order[j] in before && order[j] in checked && order[j] in after
    {
      assert order[j] in order;
    }
    CheckedHandled(before, checked, after, order, probe, first);
  }

  /** Once every listed pool is auto-scaled, every pool of a map keyed by the listed types is. */
  lemma ScaledUpToAll(before: map<string, Pool>, after: map<string, Pool>, order: seq<string>, now: real)
    requires forall j :: 0 <= j < |order| ==> order[j] in before && order[j] in after
    requires forall t :: t in after ==> t in order
    requires ScaledUpTo(before, after, order, |order|, now)
    ensures forall t :: t in after ==> t in before && AutoScaled(before[t], after[t], t, now)
  {
    forall t | t in after
      ensures t in before && AutoScaled(before[t], after[t], t, now)
    {
      var j :| 0 <= j < |order| && order[j] == t;
    }
  }

  class LoadBalancer {
    var algorithm: Algorithm
    /** The pools, keyed by agent type. */
    var pools: map<string, Pool>
    /** The pool keys in insertion order, as the dictionary iterates them. */
    var typeOrder: seq<string>
    /** Selection counters; a type without an entry reads as 0. */
    var counters: map<string, nat>
    /** Per-type weights; a type without an entry gets `DefaultWeight`. */
    var weights: map<string, int>
    /** The agent factory, as a supply of handles: the next one it hands out. */
    var nextHandle: Handle

    /** The keys are listed once each in insertion order, every instance sits in the pool of
        its own type, and every handle was drawn from the factory. */
    ghost predicate Valid()
      reads this
    {
      && (forall i, j :: 0 <= i < j < |typeOrder| ==> typeOrder[i] != typeOrder[j])
      && (forall t :: t in pools <==> t in typeOrder)
      && (forall t :: t in pools ==> OfType(pools[t], t, nextHandle))
    }

    function PoolOf(agentType: string): Pool
      reads this
    {
      if agentType in pools then pools[agentType] else []
    }

    function WeightOf(agentType: string): int
      reads this
    {
      if agentType in weights then weights[agentType] else DefaultWeight
    }

    function CounterOf(agentType: string): nat
      reads this
    {
      if agentType in counters then counters[agentType] else 0
    }

    /** Start-up: the three agent types, in this order, with two, one and one instances and
        weights 3, 2 and 2; counters start empty. */
    constructor (algorithm: Algorithm, now: real)
      ensures Valid()
      ensures this.algorithm == algorithm && counters == map[] && weights == InitialWeights()
      ensures typeOrder == [ConsultantType, AuditorType, TaxType]
      ensures pools[ConsultantType] == [NewInstance(ConsultantType, 0, 0, 3, now), NewInstance(ConsultantType, 1, 1, 3, now)]
      ensures pools[AuditorType] == [NewInstance(AuditorType, 0, 2, 2, now)]
      ensures pools[TaxType] == [NewInstance(TaxType, 0, 3, 2, now)]
      ensures nextHandle == 4
    {
      this.algorithm := algorithm;
      pools := map[];
      typeOrder := [];
      counters := map[];
      weights := InitialWeights();
      nextHandle := 0;
      new;
      InitializeAgentPools(now);
    }

    /** Create the start-up instances: two of the consultant type, then one auditor and one tax
        agent, each with its configured weight. */
    method InitializeAgentPools(now: real)
      requires Valid() && pools == map[] && typeOrder == [] && nextHandle == 0
      requires weights == InitialWeights()
      modifies this
      ensures Valid()
      ensures typeOrder == [ConsultantType, AuditorType, TaxType]
      ensures pools[ConsultantType] == [NewInstance(ConsultantType, 0, 0, 3, now), NewInstance(ConsultantType, 1, 1, 3, now)]
      ensures pools[AuditorType] == [NewInstance(AuditorType, 0, 2, 2, now)]
      ensures pools[TaxType] == [NewInstance(TaxType, 0, 3, 2, now)]
      ensures nextHandle == 4
      ensures algorithm == old(algorithm) && counters == old(counters) && weights == old(weights)
    {
      assert ConsultantType != AuditorType && ConsultantType != TaxType && AuditorType != TaxType by {
        assert ConsultantType[0] == 'D' && AuditorType[0] == 'A' && TaxType[0] == 'T';
      }
      assert WeightOf(ConsultantType) == 3 && WeightOf(AuditorType) == 2 && WeightOf(TaxType) == 2;
      CreateInitialInstances(ConsultantType, 2, now);
      CreateInitialInstances(AuditorType, 1, now);
      CreateInitialInstances(TaxType, 1, now);
    }

    /** Create `count` instances of a type that has no pool yet, one after the other: the k-th
        gets id number k, the k-th handle drawn and the type's configured weight. */
    method CreateInitialInstances(agentType: string, count: nat, now: real)
      requires Valid() && agentType !in pools && count > 0
      modifies this
      ensures Valid()
      ensures agentType in pools && pools == old(pools)[agentType := pools[agentType]]
      ensures |pools[agentType]| == count
      ensures forall k :: 0 <= k < count ==>
        pools[agentType][k] == NewInstance(agentType, k, old(nextHandle) + k, old(WeightOf(agentType)), now)
      ensures typeOrder == old(typeOrder) + [agentType]
      ensures nextHandle == old(nextHandle) + count
      ensures algorithm == old(algorithm) && counters == old(counters) && weights == old(weights)
    {
      var i := 0;
      while i < count
        invariant 0 <= i <= count
        invariant Valid()
        invariant i == 0 ==> pools == old(pools) && typeOrder == old(typeOrder)
        invariant i > 0 ==> agentType in pools && pools == old(pools)[agentType := pools[agentType]]
        invariant i > 0 ==> typeOrder == old(typeOrder) + [agentType]
        invariant |PoolOf(agentType)| == i
        invariant FreshRun(PoolOf(agentType), agentType, old(nextHandle), old(WeightOf(agentType)), now)
        invariant nextHandle == old(nextHandle) + i
        invariant algorithm == old(algorithm) && counters == old(counters) && weights == old(weights)
      {
        ghost var mid := PoolOf(agentType);
        ghost var weight := WeightOf(agentType);
        assert weight == old(WeightOf(agentType));
        var inst := CreateAgentInstance(agentType, now);
        UpdateTwice(old(pools), agentType, mid, pools[agentType]);
        assert inst == NewInstance(agentType, |mid|, old(nextHandle) + |mid|, weight, now);
        assert PoolOf(agentType) == mid + [inst];
        FreshRunStep(mid, agentType, old(nextHandle), weight, now);
        i := i + 1;
      }
    }

    /** Append a fresh instance to the pool of `agentType` (creating the pool if needed), with
        the type's configured weight and an id numbered by the pool length. */
    method CreateAgentInstance(agentType: string, now: real) returns (inst: AgentInstance)
      requires Valid()
      modifies this
      ensures Valid()
      ensures inst == NewInstance(agentType, |old(PoolOf(agentType))|, old(nextHandle), old(WeightOf(agentType)), now)
      ensures pools == old(pools)[agentType := old(PoolOf(agentType)) + [inst]]
      ensures typeOrder == if agentType in old(pools) then old(typeOrder) else old(typeOrder) + [agentType]
      ensures nextHandle == old(nextHandle) + 1
      ensures algorithm == old(algorithm) && counters == old(counters) && weights == old(weights)
    {
      var handle := nextHandle;
      nextHandle := nextHandle + 1;
      var pool := PoolOf(agentType);
      inst := AgentInstance(AgentIdFor(agentType, |pool|), agentType, handle, WeightOf(agentType),
                            0, 0, 0.0, 0.0, Healthy, now);
      if agentType !in pools {
        typeOrder := typeOrder + [agentType];
      }
      pools := pools[agentType := pool + [inst]];
    }

    /** Pick one of the candidates with the active algorithm; round-robin stores the position
        after the pick, weighted round-robin adds one to the counter, the others leave it. */
    method SelectInstance(cands: Pool, agentType: string) returns (r: Result<nat, string>)
      requires |cands| > 0
      modifies this
      ensures var s := Select(algorithm, cands, old(CounterOf(agentType)));
        && (s.Err? ==> r == Err(s.error))
        && (s.Ok? ==> r == Ok(s.value.0) && CounterOf(agentType) == s.value.1)
        && (s.Err? ==> CounterOf(agentType) == old(CounterOf(agentType)))
      ensures counters == old(counters) || (agentType in counters && counters == old(counters)[agentType := counters[agentType]])
      ensures algorithm == old(algorithm) && pools == old(pools) && typeOrder == old(typeOrder)
      ensures weights == old(weights) && nextHandle == old(nextHandle)
    {
      var counter := CounterOf(agentType);
      match algorithm
      case RoundRobin =>
        r := Ok(counter % |cands|);
        counters := counters[agentType := (counter + 1) % |cands|];
      case LeastConnections =>
        r := Ok(FirstMinIndex(ConnectionKeys(cands)));
      case ResponseTime =>
        r := Ok(FirstMinIndex(ResponseTimeKeys(cands)));
      case WeightedRoundRobin =>
        r := WeightedRoundRobinSelect(cands, agentType);
    }

    /** The weighted loop: walk the candidates accumulating weights and pick the first whose
        running total exceeds the counter modulo the total weight; a zero total raises, and
        when no running total exceeds the target the first candidate is returned and the
        counter is left as it was. */
    method WeightedRoundRobinSelect(cands: Pool, agentType: string) returns (r: Result<nat, string>)
      requires |cands| > 0
      modifies this
      ensures var s := WeightedStep(Weights(cands), old(CounterOf(agentType)));
        && (s.Err? ==> r == Err(s.error) && CounterOf(agentType) == old(CounterOf(agentType)))
        && (s.Ok? ==> r == Ok(s.value.0) && CounterOf(agentType) == s.value.1)
      ensures counters == old(counters) || (agentType in counters && counters == old(counters)[agentType := counters[agentType]])
      ensures algorithm == old(algorithm) && pools == old(pools) && typeOrder == old(typeOrder)
      ensures weights == old(weights) && nextHandle == old(nextHandle)
    {
      var ws := Weights(cands);
      var total := Sum(ws);
      if total == 0 {
        return Err(ModuloByZero);
      }
      var counter := CounterOf(agentType);
      var target := PyMod(counter, total);
      var current := 0;
      var k := 0;
      while k < |cands|
        invariant 0 <= k <= |cands|
        invariant current == Sum(ws[..k])
        invariant forall j :: 0 <= j < k ==> RunningTotal(ws, j) <= target
        invariant unchanged(this)
      {
        SumPrefixSnoc(ws, k);
        current := current + cands[k].weight;
        assert RunningTotal(ws, k) == current;
        if target < current {
          counters := counters[agentType := counter + 1];
          assert Band(ws, target) == Some(k);
          return Ok(k);
        }
        k := k + 1;
      }
      assert Band(ws, target) == None;
      return Ok(0);
    }

    /** Hand out an agent of the type: provision the pool, select among its healthy instances,
        and record the new connection and request on the selected instance. */
    method GetAgent(agentType: string, now: real) returns (r: Result<Handle, string>)
      requires Valid()
      modifies this
      ensures Valid()
      ensures
        var o := Serve(old(PoolOf(agentType)), agentType, old(WeightOf(agentType)), old(nextHandle),
                       old(algorithm), old(CounterOf(agentType)), now);
        && r == o.result
        && pools == old(pools)[agentType := o.pool]
        && CounterOf(agentType) == o.counter
        && nextHandle == old(nextHandle) + o.drawn
      ensures counters == old(counters) || (agentType in counters && counters == old(counters)[agentType := counters[agentType]])
      ensures typeOrder == if agentType in old(pools) then old(typeOrder) else old(typeOrder) + [agentType]
      ensures algorithm == old(algorithm) && weights == old(weights)
    {
      ghost var pool, weight, handle := PoolOf(agentType), WeightOf(agentType), nextHandle;
      ghost var counter := CounterOf(agentType);
      var idx := ProvisionPool(agentType, now);
      assert CounterOf(agentType) == counter;
      ghost var provided := Provision(pool, agentType, weight, handle, now);
      ghost var mid := pools;
      r := SelectAndRecord(agentType, idx, now);
      ghost var q := SelectOn(provided.0, idx, algorithm, counter, now);
      assert r == q.result && pools == mid[agentType := q.pool] && CounterOf(agentType) == q.counter;
      assert mid == old(pools)[agentType := provided.0];
      UpdateTwice(old(pools), agentType, provided.0, q.pool);
      ServeUnfold(pool, agentType, weight, handle, algorithm, counter, now);
    }

    /** The second half of `get_agent`: select among the candidates at positions `idx` of the
        type's pool and record the selection on the chosen instance. */
    method SelectAndRecord(agentType: string, idx: seq<nat>, now: real) returns (r: Result<Handle, string>)
      requires Valid() && agentType in pools && |idx| > 0
      requires forall k :: 0 <= k < |idx| ==> idx[k] < |pools[agentType]|
      modifies this
      ensures Valid()
      ensures
        var o := SelectOn(old(pools[agentType]), idx, old(algorithm), old(CounterOf(agentType)), now);
        && r == o.result
        && pools == old(pools)[agentType := o.pool]
        && CounterOf(agentType) == o.counter
      ensures counters == old(counters) || (agentType in counters && counters == old(counters)[agentType := counters[agentType]])
      ensures algorithm == old(algorithm) && typeOrder == old(typeOrder)
      ensures weights == old(weights) && nextHandle == old(nextHandle)
    {
      var pool := pools[agentType];
      var s := SelectInstance(Candidates(pool, idx), agentType);
      match s
      case Err(e) =>
        r := Err(e);
        assert pools == old(pools)[agentType := pool];
      case Ok(k) =>
        var i := idx[k];
        r := Ok(pool[i].agent);
        RecordSelection(agentType, i, now);
    }

    /** The metric update of `get_agent` on the selected instance. */
    method RecordSelection(agentType: string, i: nat, now: real)
      requires Valid() && agentType in pools && i < |pools[agentType]|
      modifies this
      ensures Valid()
      ensures pools == old(pools)[agentType := Touch(old(pools[agentType]), i, now)]
      ensures algorithm == old(algorithm) && typeOrder == old(typeOrder) && counters == old(counters)
      ensures weights == old(weights) && nextHandle == old(nextHandle)
    {
      var inst := pools[agentType][i];
      pools := pools[agentType := pools[agentType][i := inst.(activeConnections := inst.activeConnections + 1,
                                                              totalRequests := inst.totalRequests + 1,
                                                              lastUsed := now)]];
    }

    /** The first half of `get_agent`: create an instance when the pool is missing or empty, and
        one more when none is healthy; return the positions of the candidates, which are the
        healthy instances, or the fallback instance alone. */
    method ProvisionPool(agentType: string, now: real) returns (idx: seq<nat>)
      requires Valid()
      modifies this
      ensures Valid()
      ensures
        var (p, drawn) := Provision(old(PoolOf(agentType)), agentType, old(WeightOf(agentType)), old(nextHandle), now);
        && agentType in pools
        && pools == old(pools)[agentType := p]
        && nextHandle == old(nextHandle) + drawn
        && idx == HealthyIndices(p)
      ensures |idx| > 0
      ensures typeOrder == if agentType in old(pools) then old(typeOrder) else old(typeOrder) + [agentType]
      ensures algorithm == old(algorithm) && counters == old(counters) && weights == old(weights)
    {
      ProvisionCandidates(PoolOf(agentType), agentType, WeightOf(agentType), nextHandle, now);
      if agentType !in pools || pools[agentType] == [] {
        var _ := CreateAgentInstance(agentType, now);
      }
      idx := HealthyIndices(pools[agentType]);
      if idx == [] {
        var _ := CreateAgentInstance(agentType, now);
        idx := [|pools[agentType]| - 1];
      }
    }

    /** Give back a connection of the type: the most recently used instance loses one active
        connection (never going negative) and accumulates the response time; nothing happens
        for an unknown type or an empty pool. */
    method ReleaseAgent(agentType: string, responseTime: real)
      requires Valid()
      modifies this
      ensures Valid()
      ensures pools == if agentType in old(pools) && old(pools[agentType]) != []
                       then old(pools)[agentType := Release(old(pools[agentType]), responseTime)]
                       else old(pools)
      ensures algorithm == old(algorithm) && typeOrder == old(typeOrder) && counters == old(counters)
      ensures weights == old(weights) && nextHandle == old(nextHandle)
    {
      if agentType in pools {
        var instances := pools[agentType];
        if instances != [] {
          var i := MostRecentIndex(instances);
          var inst := instances[i];
          var released := if inst.activeConnections > 0 then inst.activeConnections - 1 else 0;
          pools := pools[agentType := instances[i := inst.(activeConnections := released,
                                                           totalResponseTime := inst.totalResponseTime + responseTime)]];
        }
      }
    }

    /** Append a fresh instance with the given weight (the type's configured weight is not
        changed) and return its id. */
    method AddAgentInstance(agentType: string, weight: int, now: real) returns (id: string)
      requires Valid()
      modifies this
      ensures Valid()
      ensures agentType in pools
      ensures pools == old(pools)[agentType := pools[agentType]]
      ensures GrownBy(old(PoolOf(agentType)), pools[agentType], agentType, 1, weight, now)
      ensures id == AgentIdFor(agentType, |old(PoolOf(agentType))|)
      ensures pools[agentType][|old(PoolOf(agentType))|].agent == old(nextHandle)
      ensures typeOrder == if agentType in old(pools) then old(typeOrder) else old(typeOrder) + [agentType]
      ensures nextHandle == old(nextHandle) + 1
      ensures algorithm == old(algorithm) && counters == old(counters) && weights == old(weights)
    {
      ghost var before := PoolOf(agentType);
      var inst := CreateAgentInstance(agentType, now);
      ghost var order := typeOrder;
      assert order == if agentType in old(pools) then old(typeOrder) else old(typeOrder) + [agentType];
      var pool := pools[agentType];
      var added := inst.(weight := weight);
      assert added == NewInstance(agentType, |before|, old(nextHandle), weight, now);
      pools := pools[agentType := pool[|pool| - 1 := added]];
      assert pools[agentType] == before + [added];
      GrownByOne(before, added, agentType, weight, now);
      UpdateTwice(old(pools), agentType, pool, pools[agentType]);
      assert typeOrder == order;
      id := inst.agentId;
    }

    /** Remove the first instance of the type carrying the id; true exactly when one existed. */
    method RemoveAgentInstance(agentType: string, agentId: string) returns (removed: bool)
      requires Valid()
      modifies this
      ensures Valid()
      ensures removed <==> agentType in old(pools) && agentId in Ids(old(pools[agentType]))
      ensures pools == if agentType in old(pools)
                       then old(pools)[agentType := RemoveFirstById(old(pools[agentType]), agentId)]
                       else old(pools)
      ensures algorithm == old(algorithm) && typeOrder == old(typeOrder) && counters == old(counters)
      ensures weights == old(weights) && nextHandle == old(nextHandle)
    {
      if agentType in pools {
        var instances := pools[agentType];
        var i := 0;
        while i < |instances|
          invariant 0 <= i <= |instances|
          invariant forall j :: 0 <= j < i ==> instances[j].agentId != agentId
          invariant unchanged(this)
        {
          if instances[i].agentId == agentId {
            RemoveFirstByIdAt(instances, agentId, i);
            pools := pools[agentType := instances[..i] + instances[i + 1..]];
            return true;
          }
          i := i + 1;
        }
        assert agentId !in Ids(instances);
        RemoveFirstByIdAbsent(instances, agentId);
      }
      return false;
    }

    /** Add `count` instances of the type one after the other, each with weight 1. */
    method ScaleUp(agentType: string, count: int, now: real)
      requires Valid()
      modifies this
      ensures Valid()
      ensures count <= 0 ==> pools == old(pools)
      ensures typeOrder == if count <= 0 || agentType in old(pools) then old(typeOrder) else old(typeOrder) + [agentType]
      ensures count > 0 ==>
        && agentType in pools
        && pools == old(pools)[agentType := pools[agentType]]
        && GrownBy(old(PoolOf(agentType)), pools[agentType], agentType, count, DefaultWeight, now)
        && HandlesFrom(old(PoolOf(agentType)), pools[agentType], old(nextHandle))
      ensures nextHandle == old(nextHandle) + if count < 0 then 0 else count
      ensures algorithm == old(algorithm) && counters == old(counters) && weights == old(weights)
    {
      var before := PoolOf(agentType);
      var i := 0;
      while i < count
        invariant 0 <= i <= if count < 0 then 0 else count
        invariant Valid()
        invariant algorithm == old(algorithm) && counters == old(counters) && weights == old(weights)
        invariant typeOrder == if i == 0 || agentType in old(pools) then old(typeOrder) else old(typeOrder) + [agentType]
        invariant i == 0 ==> pools == old(pools)
        invariant i > 0 ==> agentType in pools && pools == old(pools)[agentType := pools[agentType]]
        invariant GrownBy(before, PoolOf(agentType), agentType, i, DefaultWeight, now)
        invariant nextHandle == old(nextHandle) + i
        invariant HandlesFrom(before, PoolOf(agentType), old(nextHandle))
      {
        ghost var mid := PoolOf(agentType);
        var _ := AddAgentInstance(agentType, DefaultWeight, now);
        UpdateTwice(old(pools), agentType, mid, pools[agentType]);
        GrownByStep(before, mid, pools[agentType], agentType, i, DefaultWeight, now);
        HandlesFromStep(before, mid, pools[agentType], old(nextHandle));
        i := i + 1;
      }
    }

    /** Remove `count` instances of the type, those with the fewest active connections first,
        unless that would leave fewer than one. */
    method ScaleDown(agentType: string, count: int)
      requires Valid()
      modifies this
      ensures Valid()
      ensures pools == if agentType in old(pools)
                       then old(pools)[agentType := ScaleDownPool(old(pools[agentType]), count)]
                       else old(pools)
      ensures algorithm == old(algorithm) && typeOrder == old(typeOrder) && counters == old(counters)
      ensures weights == old(weights) && nextHandle == old(nextHandle)
    {
      if agentType in pools {
        var instances := pools[agentType];
        if |instances| <= count {
          return;
        }
        var sorted := SortByConnections(instances);
        RemoveInOrder(agentType, sorted, count);
        assert count > 0 ==> Ids(sorted)[..count] == Ids(sorted[..count]);
      }
    }

    /** The removal loop of scale-down: for each of the first `count` positions of `sorted`,
        remove the first instance of the type carrying that position's id. */
    method RemoveInOrder(agentType: string, sorted: Pool, count: int)
      requires Valid()
      requires agentType in pools && count <= |sorted|
      modifies this
      ensures Valid()
      ensures agentType in pools
      ensures pools == old(pools)[agentType := RemoveIds(old(pools[agentType]), Ids(sorted)[..if count < 0 then 0 else count])]
      ensures algorithm == old(algorithm) && typeOrder == old(typeOrder) && counters == old(counters)
      ensures weights == old(weights) && nextHandle == old(nextHandle)
    {
      var instances := pools[agentType];
      ghost var order := Ids(sorted);
      var i := 0;
      while i < count
        invariant 0 <= i <= if count < 0 then 0 else count
        invariant Valid()
        invariant agentType in pools && pools == old(pools)[agentType := pools[agentType]]
        invariant pools[agentType] == RemoveIds(instances, order[..i])
        invariant algorithm == old(algorithm) && typeOrder == old(typeOrder) && counters == old(counters)
        invariant weights == old(weights) && nextHandle == old(nextHandle)
      {
        if i < |sorted| {
          ghost var before := pools;
          assert order[..i + 1] == order[..i] + [order[i]];
          RemoveIdsSnoc(instances, order[..i], order[i]);
          var _ := RemoveAgentInstance(agentType, sorted[i].agentId);
          assert pools == before[agentType := pools[agentType]];
          UpdateTwice(old(pools), agentType, before[agentType], pools[agentType]);
          assert pools[agentType] == RemoveIds(instances, order[..i + 1]);
        }
        i := i + 1;
      }
    }

    /** One auto-scale pass over the pools in insertion order: each non-empty pool grows by one
        when its mean load is above 70% of the connection ceiling and it has fewer than five
        instances, and otherwise shrinks by one when its mean load is below 30% and it has
        more than one. */
    method AutoScale(now: real)
      requires Valid()
      modifies this
      ensures Valid()
      ensures typeOrder == old(typeOrder) && PoolsAutoScaled(old(pools), pools, now)
      ensures nextHandle == old(nextHandle) + GrowCount(old(pools), typeOrder)
      ensures HandledUpTo(old(pools), pools, typeOrder, |typeOrder|, old(nextHandle))
      ensures algorithm == old(algorithm) && counters == old(counters) && weights == old(weights)
    {
      ghost var before, first := pools, nextHandle;
      ScaleProgressStart(pools, typeOrder, now, nextHandle);
      var k := 0;
      while k < |typeOrder|
        invariant k <= |typeOrder| && Valid() && typeOrder == old(typeOrder)
        invariant ScaleProgress(before, pools, typeOrder, k, now, first, nextHandle)
        invariant algorithm == old(algorithm) && counters == old(counters) && weights == old(weights)
      {
        AutoScaleListed(k, now, before, first);
        k := k + 1;
      }
      ScaleProgressDone(before, pools, typeOrder, k, now, first, nextHandle);
    }

    /** Auto-scale the pool listed at position `k` of the type order, extending a pass begun
        on the pools `before` with the handle `first` by one pool. */
    method AutoScaleListed(k: nat, now: real, ghost before: map<string, Pool>, ghost first: Handle)
      requires Valid() && k < |typeOrder|
      requires ScaleProgress(before, pools, typeOrder, k, now, first, nextHandle)
      modifies this
      ensures Valid()
      ensures ScaleProgress(before, pools, typeOrder, k + 1, now, first, nextHandle)
      ensures algorithm == old(algorithm) && typeOrder == old(typeOrder) && counters == old(counters)
      ensures weights == old(weights)
    {
      ghost var mid, handle := pools, nextHandle;
      AutoScalePool(typeOrder[k], now);
      AutoScaleStep(before, mid, pools, typeOrder, k, now, first, handle, nextHandle);
    }

    /** The auto-scale step for one pool: grow it by one instance, shrink it by one, or leave it,
        as the load rule decides. */
    method AutoScalePool(agentType: string, now: real)
      requires Valid() && agentType in pools
      modifies this
      ensures Valid()
      ensures agentType in pools && pools == old(pools)[agentType := pools[agentType]]
      ensures AutoScaled(old(pools[agentType]), pools[agentType], agentType, now)
      ensures nextHandle == old(nextHandle) + if AutoScaleDecision(old(pools[agentType])) == Grow then 1 else 0
      ensures HandlesFrom(old(pools[agentType]), pools[agentType], old(nextHandle))
      ensures algorithm == old(algorithm) && typeOrder == old(typeOrder) && counters == old(counters)
      ensures weights == old(weights)
    {
      var decision := AutoScaleDecision(pools[agentType]);
      if decision == Grow {
        ScaleUp(agentType, 1, now);
      } else if decision == Shrink {
        ScaleDown(agentType, 1);
        ScaleDownEffect(old(pools[agentType]), 1);
      }
    }

    /** Health-check one instance of the type with the given probe outcome. */
    method HealthCheckInstance(agentType: string, i: nat, probe: Probe)
      requires Valid()
      requires agentType in pools && i < |pools[agentType]|
      modifies this
      ensures Valid()
      ensures pools == old(pools)[agentType := old(pools[agentType])[i := old(pools[agentType][i]).(
                health := ClassifyHealth(probe, old(pools[agentType][i]).activeConnections))]]
      ensures algorithm == old(algorithm) && typeOrder == old(typeOrder) && counters == old(counters)
      ensures weights == old(weights) && nextHandle == old(nextHandle)
    {
      var inst := pools[agentType][i];
      var health := ClassifyHealth(probe, inst.activeConnections);
      pools := pools[agentType := pools[agentType][i := inst.(health := health)]];
    }

    /** Health-check every instance of every pool, each with its own probe outcome. */
    method HealthCheckAll(probe: AgentInstance -> Probe)
      requires Valid()
      modifies this
      ensures Valid()
      ensures pools.Keys == old(pools).Keys
      ensures forall t :: t in pools ==> pools[t] == CheckedPool(old(pools[t]), probe)
      ensures algorithm == old(algorithm) && typeOrder == old(typeOrder) && counters == old(counters)
      ensures weights == old(weights) && nextHandle == old(nextHandle)
    {
      var k := 0;
      while k < |typeOrder|
        invariant 0 <= k <= |typeOrder|
        invariant Valid()
        invariant pools.Keys == old(pools).Keys
        invariant forall j :: 0 <= j < |typeOrder| ==> typeOrder[j] in old(pools)
        invariant CheckedUpTo(old(pools), pools, typeOrder, k, probe)
        invariant algorithm == old(algorithm) && typeOrder == old(typeOrder) && counters == old(counters)
        invariant weights == old(weights) && nextHandle == old(nextHandle)
      {
        CheckedUpToStep(old(pools), pools, typeOrder, k, probe);
        HealthCheckPool(typeOrder[k], probe);
        k := k + 1;
      }
    }

    /** Health-check every instance of one pool, in pool order. */
    method HealthCheckPool(agentType: string, probe: AgentInstance -> Probe)
      requires Valid() && agentType in pools
      modifies this
      ensures Valid()
      ensures pools == old(pools)[agentType := CheckedPool(old(pools[agentType]), probe)]
      ensures algorithm == old(algorithm) && typeOrder == old(typeOrder) && counters == old(counters)
      ensures weights == old(weights) && nextHandle == old(nextHandle)
    {
      var before := pools[agentType];
      var i := 0;
      while i < |before|
        invariant 0 <= i <= |before|
        invariant Valid()
        invariant agentType in pools && pools == old(pools)[agentType := pools[agentType]]
        invariant |pools[agentType]| == |before|
        invariant forall k :: 0 <= k < i ==> pools[agentType][k] == CheckedPool(before, probe)[k]
        invariant forall k :: i <= k < |before| ==> pools[agentType][k] == before[k]
        invariant algorithm == old(algorithm) && typeOrder == old(typeOrder) && counters == old(counters)
        invariant weights == old(weights) && nextHandle == old(nextHandle)
      {
        ghost var mid := pools[agentType];
        HealthCheckInstance(agentType, i, probe(pools[agentType][i]));
        UpdateTwice(old(pools), agentType, mid, pools[agentType]);
        i := i + 1;
      }
      assert pools[agentType] == CheckedPool(before, probe);
    }

    /** One round of the background checker: check every instance, then auto-scale. */
    method HealthCheckerRound(probe: AgentInstance -> Probe, now: real)
      requires Valid()
      modifies this
      ensures Valid()
      ensures pools.Keys == old(pools).Keys
      ensures forall t :: t in pools ==> AutoScaled(CheckedPool(old(pools[t]), probe), pools[t], t, now)
      ensures typeOrder == old(typeOrder)
      ensures nextHandle == old(nextHandle) + GrowCount(old(pools), typeOrder)
      ensures HandledUpTo(old(pools), pools, typeOrder, |typeOrder|, old(nextHandle))
      ensures algorithm == old(algorithm) && counters == old(counters) && weights == old(weights)
    {
      HealthCheckAll(probe);
      ghost var checked := pools;
      AutoScale(now);
      CheckedThenScaled(old(pools), checked, pools, typeOrder, probe, now, old(nextHandle), nextHandle);
    }

    /** Switch the selection algorithm; nothing else changes. */
    method SetAlgorithm(algorithm: Algorithm)
      modifies this
      ensures this.algorithm == algorithm
      ensures pools == old(pools) && typeOrder == old(typeOrder) && counters == old(counters)
      ensures weights == old(weights) && nextHandle == old(nextHandle)
    {
      this.algorithm := algorithm;
    }

    /** Record the weight for the type and give it to every existing instance of the type. */
    method SetAgentWeight(agentType: string, weight: int)
      requires Valid()
      modifies this
      ensures Valid()
      ensures weights == old(weights)[agentType := weight]
      ensures pools == if agentType in old(pools)
                       then old(pools)[agentType := Reweighted(old(pools[agentType]), weight)]
                       else old(pools)
      ensures algorithm == old(algorithm) && typeOrder == old(typeOrder) && counters == old(counters)
      ensures nextHandle == old(nextHandle)
    {
      weights := weights[agentType := weight];
      if agentType in pools {
        var before := pools[agentType];
        var updated := before;
        var i := 0;
        while i < |updated|
          invariant 0 <= i <= |updated| == |before|
          invariant forall k :: 0 <= k < i ==> updated[k] == before[k].(weight := weight)
          invariant forall k :: i <= k < |updated| ==> updated[k] == before[k]
        {
          updated := updated[i := updated[i].(weight := weight)];
          i := i + 1;
        }
        assert updated == Reweighted(before, weight);
        pools := pools[agentType := updated];
      }
    }

    /** The statistics snapshot: one entry per pool, keyed by its type, in the order the types
        were first seen. */
    function Stats(): (s: seq<(string, TypeStats)>)
      requires Valid()
      reads this
      ensures |s| == |typeOrder|
      ensures forall k :: 0 <= k < |s| ==> s[k].0 == typeOrder[k] && s[k].0 in pools && s[k].1 == StatsOf(pools[s[k].0])
      ensures forall t :: t in pools <==> exists k :: 0 <= k < |s| && s[k].0 == t
    {
      seq(|typeOrder|, k requires 0 <= k < |typeOrder| && typeOrder[k] in pools reads this =>
        (typeOrder[k], StatsOf(pools[typeOrder[k]])))
    }
  }
}
