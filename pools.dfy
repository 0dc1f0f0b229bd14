/** Operations on one pool (the ordered list of instances of one agent type):
    the healthy filter, on-demand provisioning, the metric updates of a
    selection and of a release, removal by id, the scale-down order, the
    auto-scale rule and the statistics snapshot. */
module Pools {
  import opened Common
  import opened Instances
  import opened Selection

  type Pool = seq<AgentInstance>

  /** Every instance of the pool belongs to the type and holds a handle below `bound`. */
  predicate OfType(pool: Pool, agentType: string, bound: Handle)
  {
    forall i :: 0 <= i < |pool| ==> pool[i].agentType == agentType && pool[i].agent < bound
  }

  /** `after` is `before` followed by `n` instances freshly created for the type with the
      given weight, each numbered by the pool length at its creation. */
  predicate GrownBy(before: Pool, after: Pool, agentType: string, n: nat, weight: int, now: real)
  {
    && |after| == |before| + n
    && after[..|before|] == before
    && forall k :: |before| <= k < |after| ==> IsNewInstance(after[k], agentType, k, weight, now)
  }

  /** A pool made only of fresh instances of the type, the k-th numbered k and carrying the
      k-th handle from `first` on. */
  predicate FreshRun(pool: Pool, agentType: string, first: Handle, weight: int, now: real)
  {
    forall k :: 0 <= k < |pool| ==> pool[k] == NewInstance(agentType, k, first + k, weight, now)
  }

  /** Appending the next fresh instance extends such a pool. */
  lemma FreshRunStep(pool: Pool, agentType: string, first: Handle, weight: int, now: real)
    requires FreshRun(pool, agentType, first, weight, now)
    ensures FreshRun(pool + [NewInstance(agentType, |pool|, first + |pool|, weight, now)], agentType, first, weight, now)
  {
    var after := pool + [NewInstance(agentType, |pool|, first + |pool|, weight, now)];
    forall k | 0 <= k < |after|
      ensures after[k] == NewInstance(agentType, k, first + k, weight, now)
    {
      if k < |pool| {
        assert after[k] == pool[k];
      }
    }
  }

  /** The instances `after` adds to `before` carry consecutive handles from `first` on. */
  predicate HandlesFrom(before: Pool, after: Pool, first: int)
  {
    forall k :: |before| <= k < |after| ==> after[k].agent == first + (k - |before|)
  }

  /** One more instance, carrying the next handle, extends the run of consecutive handles. */
  lemma HandlesFromStep(before: Pool, mid: Pool, after: Pool, first: int)
    requires HandlesFrom(before, mid, first)
    requires |before| <= |mid| && |after| == |mid| + 1 && after[..|mid|] == mid
    requires after[|mid|].agent == first + (|mid| - |before|)
    ensures HandlesFrom(before, after, first)
  {
    forall k | |before| <= k < |after|
      ensures after[k].agent == first + (k - |before|)
    {
      if k < |mid| {
        assert after[k] == mid[k];
      }
    }
  }

  /** Appending one fresh instance numbered by the pool length is growing by one. */
  lemma GrownByOne(before: Pool, x: AgentInstance, agentType: string, weight: int, now: real)
    requires IsNewInstance(x, agentType, |before|, weight, now)
    ensures GrownBy(before, before + [x], agentType, 1, weight, now)
  {
    assert (before + [x])[..|before|] == before;
  }

  /** Growing by `n` and then by one more fresh instance is growing by `n + 1`. */
  lemma GrownByStep(before: Pool, mid: Pool, after: Pool, agentType: string, n: nat, weight: int, now: real)
    requires GrownBy(before, mid, agentType, n, weight, now)
    requires GrownBy(mid, after, agentType, 1, weight, now)
    ensures GrownBy(before, after, agentType, n + 1, weight, now)
  {
    assert after[..|before|] == after[..|mid|][..|before|];
  }

  // ---------------------------------------------------------------------------
  // Healthy candidates

  /** Positions of the healthy instances, in pool order. */
  function HealthyIndices(pool: Pool): (r: seq<nat>)
    ensures |r| <= |pool|
    ensures forall k :: 0 <= k < |r| ==> r[k] < |pool| && pool[r[k]].health == Healthy
    ensures forall i :: 0 <= i < |pool| && pool[i].health == Healthy ==> i in r
  {
    if pool == [] then []
    else
      var rest := HealthyIndices(pool[..|pool| - 1]);
      if pool[|pool| - 1].health == Healthy then rest + [|pool| - 1] else rest
  }

  /** The healthy positions are listed in pool order, each once. */
  lemma {:induction false} HealthyIndicesInOrder(pool: Pool)
    ensures forall k, l :: 0 <= k < l < |HealthyIndices(pool)| ==> HealthyIndices(pool)[k] < HealthyIndices(pool)[l]
  {
    if pool != [] {
      var rest := HealthyIndices(pool[..|pool| - 1]);
      HealthyIndicesInOrder(pool[..|pool| - 1]);
      assert forall k :: 0 <= k < |rest| ==> rest[k] < |pool| - 1;
      if pool[|pool| - 1].health == Healthy {
        var r := rest + [|pool| - 1];
        assert HealthyIndices(pool) == r;
        assert forall k :: 0 <= k < |rest| ==> r[k] == rest[k];
      } else {
        assert HealthyIndices(pool) == rest;
        assert forall k, l :: 0 <= k < l < |rest| ==> rest[k] < rest[l];
      }
    }
  }

  /** The positions of the healthy instances, as a set. */
  ghost function HealthySet(pool: Pool): set<nat>
  {
    set i: nat | i < |pool| && pool[i].health == Healthy
  }

  /** The healthy positions are listed once each: there are as many as healthy instances. */
  lemma {:induction false} HealthyIndicesCount(pool: Pool)
    ensures |HealthyIndices(pool)| == |HealthySet(pool)|
  {
    if pool != [] {
      var init := pool[..|pool| - 1];
      var last := |pool| - 1;
      HealthyIndicesCount(init);
      HealthySetSnoc(pool);
      if pool[last].health == Healthy {
        assert last !in HealthySet(init);
        assert HealthyIndices(pool) == HealthyIndices(init) + [last];
      }
    }
  }

  /** Adding one instance at the end adds its position exactly when it is healthy. */
  lemma HealthySetSnoc(pool: Pool)
    requires pool != []
    ensures HealthySet(pool) == HealthySet(pool[..|pool| - 1])
                              + if pool[|pool| - 1].health == Healthy then {|pool| - 1} else {}
  {
    var init := pool[..|pool| - 1];
    assert forall i :: 0 <= i < |init| ==> pool[i] == init[i];
  }

  /** The instances at the given positions. */
  function Candidates(pool: Pool, idx: seq<nat>): (c: Pool)
    requires forall k :: 0 <= k < |idx| ==> idx[k] < |pool|
    ensures |c| == |idx|
    ensures forall k :: 0 <= k < |idx| ==> c[k] == pool[idx[k]]
  {
    seq(|idx|, k requires 0 <= k < |idx| => pool[idx[k]])
  }

  // ---------------------------------------------------------------------------
  // Provisioning before a selection

  /** The pool `get_agent` selects from, and how many handles it drew. The source creates an
      instance when the pool is missing or empty and then one more when none is healthy; as a
      created instance is healthy, the two cases never both apply, so exactly one instance is
      appended when (and only when) the pool has no healthy instance. */
  function Provision(pool: Pool, agentType: string, weight: int, handle: Handle, now: real): (r: (Pool, nat))
    ensures r.1 <= 1 && |r.0| == |pool| + r.1
    ensures r.0[..|pool|] == pool
  {
    if HealthyIndices(pool) != [] then (pool, 0)
    else
      var grown := pool + [NewInstance(agentType, |pool|, handle, weight, now)];
      assert grown[..|pool|] == pool;
      (grown, 1)
  }

  /** After provisioning there is a candidate; nothing is created while a healthy instance
      exists, and otherwise the only candidate is the instance just appended. */
  lemma ProvisionCandidates(pool: Pool, agentType: string, weight: int, handle: Handle, now: real)
    ensures var r := Provision(pool, agentType, weight, handle, now);
      && |HealthyIndices(r.0)| > 0
      && (HealthyIndices(pool) != [] ==> r == (pool, 0))
      && (HealthyIndices(pool) == [] ==>
            && r.1 == 1
            && r.0[|pool|] == NewInstance(agentType, |pool|, handle, weight, now)
            && HealthyIndices(r.0) == [|pool|])
  {
    var r := Provision(pool, agentType, weight, handle, now);
    if HealthyIndices(pool) == [] {
      assert r.0[..|r.0| - 1] == pool;
    }
  }

  /** The metric update of a selection: one more active connection and one more request on
      instance `i`, last used now. */
  function Touch(pool: Pool, i: nat, now: real): Pool
    requires i < |pool|
  {
    pool[i := pool[i].(activeConnections := pool[i].activeConnections + 1,
                       totalRequests := pool[i].totalRequests + 1,
                       lastUsed := now)]
  }

  /** The outcome of one `get_agent` on a pool: what the caller gets, the pool afterwards,
      the type's counter afterwards and how many handles the factory handed out. */
  datatype Served = Served(result: Result<Handle, string>, pool: Pool, counter: nat, drawn: nat)

  /** Selection among the instances at positions `idx`, then the metric update of the chosen one;
      a raising selection leaves the pool and the counter as they were. */
  function SelectOn(pool: Pool, idx: seq<nat>, algorithm: Algorithm, counter: nat, now: real): Served
    requires |idx| > 0
    requires forall k :: 0 <= k < |idx| ==> idx[k] < |pool|
  {
    var s := Select(algorithm, Candidates(pool, idx), counter);
    if s.Err? then Served(Err(s.error), pool, counter, 0)
    else Served(Ok(pool[idx[s.value.0]].agent), Touch(pool, idx[s.value.0], now), s.value.1, 0)
  }

  /** The whole of `get_agent` on one pool: provision, then select among the healthy instances. */
  function Serve(pool: Pool, agentType: string, weight: int, handle: Handle,
                 algorithm: Algorithm, counter: nat, now: real): Served
  {
    ProvisionCandidates(pool, agentType, weight, handle, now);
    var provided := Provision(pool, agentType, weight, handle, now);
    var q := SelectOn(provided.0, HealthyIndices(provided.0), algorithm, counter, now);
    Served(q.result, q.pool, q.counter, provided.1)
  }

  /** `get_agent` on a pool is the selection on the provisioned pool, with the provisioning's draw. */
  lemma ServeUnfold(pool: Pool, agentType: string, weight: int, handle: Handle,
                    algorithm: Algorithm, counter: nat, now: real)
    ensures |HealthyIndices(Provision(pool, agentType, weight, handle, now).0)| > 0
    ensures var provided := Provision(pool, agentType, weight, handle, now);
      var q := SelectOn(provided.0, HealthyIndices(provided.0), algorithm, counter, now);
      Serve(pool, agentType, weight, handle, algorithm, counter, now) == Served(q.result, q.pool, q.counter, provided.1)
  {
    ProvisionCandidates(pool, agentType, weight, handle, now);
  }

  /** A successful selection hands out the agent of one of the candidates and touches exactly
      that instance; a raising one happens only under weighted round-robin and keeps the counter. */
  lemma SelectOnTouchesCandidate(pool: Pool, idx: seq<nat>, algorithm: Algorithm, counter: nat, now: real)
    requires |idx| > 0
    requires forall k :: 0 <= k < |idx| ==> idx[k] < |pool|
    ensures var o := SelectOn(pool, idx, algorithm, counter, now);
      o.result.Ok? ==>
        exists k :: 0 <= k < |idx| && o.result.value == pool[idx[k]].agent && o.pool == Touch(pool, idx[k], now)
    ensures var o := SelectOn(pool, idx, algorithm, counter, now);
      o.result.Err? ==> algorithm == WeightedRoundRobin && o.counter == counter && o.pool == pool
  {
    var s := Select(algorithm, Candidates(pool, idx), counter);
    if s.Ok? {
      var k := s.value.0;
      assert SelectOn(pool, idx, algorithm, counter, now).pool == Touch(pool, idx[k], now);
    }
  }

  /** What `get_agent` hands out is the agent of an instance that was healthy, or of the one
      instance it had to create because none was; only that instance is touched (one more
      connection and request, last used now). A selection can raise only under weighted
      round-robin, and then the counter is left as it was. */
  lemma {:induction false} ServeHandsOutHealthy(pool: Pool, agentType: string, weight: int, handle: Handle,
                             algorithm: Algorithm, counter: nat, now: real)
    ensures var o := Serve(pool, agentType, weight, handle, algorithm, counter, now);
      o.result.Ok? ==>
        exists i :: 0 <= i < |o.pool| && o.pool[i].agent == o.result.value
          && o.pool == Touch(Provision(pool, agentType, weight, handle, now).0, i, now)
          && (i < |pool| ==> pool[i].health == Healthy)
          && (i >= |pool| ==> HealthyIndices(pool) == [] && o.pool[i].agent == handle)
    ensures var o := Serve(pool, agentType, weight, handle, algorithm, counter, now);
      o.result.Err? ==> algorithm == WeightedRoundRobin && o.counter == counter
  {
    ProvisionCandidates(pool, agentType, weight, handle, now);
    var p := Provision(pool, agentType, weight, handle, now).0;
    var idx := HealthyIndices(p);
    var o := Serve(pool, agentType, weight, handle, algorithm, counter, now);
    var q := SelectOn(p, idx, algorithm, counter, now);
    assert o.result == q.result && o.pool == q.pool && o.counter == q.counter;
    SelectOnTouchesCandidate(p, idx, algorithm, counter, now);
    if o.result.Ok? {
      var k :| 0 <= k < |idx| && q.result.value == p[idx[k]].agent && q.pool == Touch(p, idx[k], now);
      var i := idx[k];
      ProvisionedHealthyOrigin(pool, agentType, weight, handle, now, i);
      assert o.pool[i].agent == o.result.value;
    }
  }

  /** A healthy instance after provisioning was healthy before, or is the one just created
      because none was. */
  lemma ProvisionedHealthyOrigin(pool: Pool, agentType: string, weight: int, handle: Handle, now: real, i: nat)
    requires i < |Provision(pool, agentType, weight, handle, now).0|
    requires Provision(pool, agentType, weight, handle, now).0[i].health == Healthy
    ensures i < |pool| ==> pool[i].health == Healthy
    ensures i >= |pool| ==> HealthyIndices(pool) == [] && Provision(pool, agentType, weight, handle, now).0[i].agent == handle
  {
    var p := Provision(pool, agentType, weight, handle, now).0;
    ProvisionCandidates(pool, agentType, weight, handle, now);
    if i < |pool| {
      assert p[i] == p[..|pool|][i];
    }
  }

  // ---------------------------------------------------------------------------
  // Release

  /** The first position holding the largest key, as `max(..., key=...)` scans left to right. */
  function FirstMaxIndex(keys: seq<real>): (i: nat)
    requires |keys| > 0
    ensures i < |keys|
    ensures forall j :: 0 <= j < |keys| ==> keys[j] <= keys[i]
    ensures forall j :: 0 <= j < i ==> keys[j] < keys[i]
  {
    if |keys| == 1 then 0
    else
      var m := FirstMaxIndex(keys[..|keys| - 1]);
      if keys[m] < keys[|keys| - 1] then |keys| - 1 else m
  }

  function LastUsedKeys(pool: Pool): (keys: seq<real>)
    ensures |keys| == |pool|
    ensures forall i :: 0 <= i < |pool| ==> keys[i] == pool[i].lastUsed
  {
    seq(|pool|, i requires 0 <= i < |pool| => pool[i].lastUsed)
  }

  /** The instance `release_agent` acts on: the first one most recently used. */
  function MostRecentIndex(pool: Pool): (i: nat)
    requires |pool| > 0
    ensures i < |pool|
    ensures forall j :: 0 <= j < |pool| ==> pool[j].lastUsed <= pool[i].lastUsed
    ensures forall j :: 0 <= j < i ==> pool[j].lastUsed < pool[i].lastUsed
  {
    var keys := LastUsedKeys(pool);
    var i := FirstMaxIndex(keys);
    assert forall j :: 0 <= j < |pool| ==> keys[j] == pool[j].lastUsed;
    i
  }

  /** The release update: one connection fewer (never below zero) and the response time added. */
  function Release(pool: Pool, responseTime: real): Pool
    requires |pool| > 0
  {
    var i := MostRecentIndex(pool);
    var inst := pool[i];
    pool[i := inst.(activeConnections := if inst.activeConnections > 0 then inst.activeConnections - 1 else 0,
                    totalResponseTime := inst.totalResponseTime + responseTime)]
  }

  /** When the clock has moved past every earlier use, releasing right after a selection acts
      on the instance just selected and gives its connection back: the pool differs from the
      one before the selection only in that instance's request count, last use and
      accumulated response time. */
  lemma ReleaseUndoesSelection(pool: Pool, i: nat, now: real, responseTime: real)
    requires i < |pool|
    requires forall j :: 0 <= j < |pool| ==> pool[j].lastUsed < now
    ensures MostRecentIndex(Touch(pool, i, now)) == i
    ensures Release(Touch(pool, i, now), responseTime) ==
      pool[i := pool[i].(totalRequests := pool[i].totalRequests + 1,
                         lastUsed := now,
                         totalResponseTime := pool[i].totalResponseTime + responseTime)]
  {
    var touched := Touch(pool, i, now);
    assert touched[i].lastUsed == now;
    assert forall j :: 0 <= j < |touched| && j != i ==> touched[j].lastUsed < now;
  }

  // ---------------------------------------------------------------------------
  // Removal by id

  function Ids(pool: Pool): (ids: seq<string>)
    ensures |ids| == |pool|
    ensures forall i :: 0 <= i < |pool| ==> ids[i] == pool[i].agentId
  {
    seq(|pool|, i requires 0 <= i < |pool| => pool[i].agentId)
  }

  /** The ids of a pool that starts with `x`. */
  lemma IdsCons(x: AgentInstance, rest: Pool)
    ensures Ids([x] + rest) == [x.agentId] + Ids(rest)
    ensures multiset(Ids([x] + rest)) == multiset{x.agentId} + multiset(Ids(rest))
  {
    var ids := Ids([x] + rest);
    var expected := [x.agentId] + Ids(rest);
    forall i | 0 <= i < |ids|
      ensures ids[i] == expected[i]
    {
      if i > 0 {
        assert ([x] + rest)[i] == rest[i - 1];
      }
    }
    assert ids == expected;
  }

  /** The ids of a non-empty pool: the first entry's, then those of the rest. */
  lemma IdsHead(pool: Pool)
    requires pool != []
    ensures Ids(pool) == [pool[0].agentId] + Ids(pool[1..])
    ensures multiset(Ids(pool)) == multiset{pool[0].agentId} + multiset(Ids(pool[1..]))
  {
    assert pool == [pool[0]] + pool[1..];
    IdsCons(pool[0], pool[1..]);
  }

  /** `remove_agent_instance` on one pool: the first entry carrying the id is deleted. */
  function RemoveFirstById(pool: Pool, id: string): Pool
  {
    if pool == [] then []
    else if pool[0].agentId == id then pool[1..]
    else [pool[0]] + RemoveFirstById(pool[1..], id)
  }

  /** When position `i` holds the first entry with the id, removal cuts exactly that entry. */
  lemma {:induction false} RemoveFirstByIdAt(pool: Pool, id: string, i: nat)
    requires i < |pool| && pool[i].agentId == id
    requires forall j :: 0 <= j < i ==> pool[j].agentId != id
    ensures RemoveFirstById(pool, id) == pool[..i] + pool[i + 1..]
  {
    if i > 0 {
      var tail := pool[1..];
      RemoveFirstByIdAt(tail, id, i - 1);
      assert RemoveFirstById(pool, id) == [pool[0]] + (tail[..i - 1] + tail[i..]);
      assert pool[..i] == [pool[0]] + tail[..i - 1];
      assert pool[i + 1..] == tail[i..];
      assert [pool[0]] + (tail[..i - 1] + tail[i..]) == ([pool[0]] + tail[..i - 1]) + tail[i..];
    } else {
      assert pool[..i] + pool[i + 1..] == pool[1..];
    }
  }

  /** Removing an id the pool does not carry changes nothing. */
  lemma {:induction false} RemoveFirstByIdAbsent(pool: Pool, id: string)
    requires id !in Ids(pool)
    ensures RemoveFirstById(pool, id) == pool
  {
    if pool != [] {
      assert Ids(pool) == [pool[0].agentId] + Ids(pool[1..]);
      RemoveFirstByIdAbsent(pool[1..], id);
    }
  }

  /** Removing an id the pool carries deletes exactly one entry, and exactly one copy of the id. */
  lemma {:induction false} RemoveFirstByIdPresent(pool: Pool, id: string)
    requires id in Ids(pool)
    ensures |RemoveFirstById(pool, id)| == |pool| - 1
    ensures multiset(Ids(RemoveFirstById(pool, id))) == multiset(Ids(pool)) - multiset{id}
  {
    IdsHead(pool);
    if pool[0].agentId == id {
      assert RemoveFirstById(pool, id) == pool[1..];
    } else {
      assert id in Ids(pool[1..]);
      RemoveFirstByIdPresent(pool[1..], id);
      var rest := RemoveFirstById(pool[1..], id);
      assert RemoveFirstById(pool, id) == [pool[0]] + rest;
      IdsCons(pool[0], rest);
    }
  }

  /** Remove, one after the other, the first entry carrying each id of `ids`. */
  function RemoveIds(pool: Pool, ids: seq<string>): Pool
    decreases |ids|
  {
    if ids == [] then pool else RemoveIds(RemoveFirstById(pool, ids[0]), ids[1..])
  }

  lemma {:induction false} RemoveIdsSnoc(pool: Pool, ids: seq<string>, id: string)
    ensures RemoveIds(pool, ids + [id]) == RemoveFirstById(RemoveIds(pool, ids), id)
    decreases |ids|
  {
    if ids == [] {
      assert [id][1..] == [];
    } else {
      assert (ids + [id])[1..] == ids[1..] + [id];
      RemoveIdsSnoc(RemoveFirstById(pool, ids[0]), ids[1..], id);
    }
  }

  /** Removing ids that all occur (with multiplicity) removes exactly that many entries, and
      exactly those ids. */
  lemma {:induction false} RemoveIdsEffect(pool: Pool, ids: seq<string>)
    requires multiset(ids) <= multiset(Ids(pool))
    ensures |RemoveIds(pool, ids)| == |pool| - |ids|
    ensures multiset(Ids(RemoveIds(pool, ids))) == multiset(Ids(pool)) - multiset(ids)
    decreases |ids|
  {
    if ids != [] {
      var id := ids[0];
      assert ids == [id] + ids[1..];
      assert id in multiset(Ids(pool));
      RemoveFirstByIdPresent(pool, id);
      var rest := RemoveFirstById(pool, id);
      assert multiset(ids[1..]) <= multiset(Ids(rest));
      RemoveIdsEffect(rest, ids[1..]);
    }
  }

  // ---------------------------------------------------------------------------
  // Scale-down order: Python's stable `sorted` by active connections

  predicate SortedByConnections(pool: Pool)
  {
    forall i, j :: 0 <= i < j < |pool| ==> pool[i].activeConnections <= pool[j].activeConnections
  }

  /** Insert before the first entry with at least as many connections. */
  function InsertByConnections(x: AgentInstance, sorted: Pool): (r: Pool)
    ensures |r| == |sorted| + 1
    ensures r[0] == x || (sorted != [] && r[0] == sorted[0])
  {
    if sorted == [] || x.activeConnections <= sorted[0].activeConnections then [x] + sorted
    else [sorted[0]] + InsertByConnections(x, sorted[1..])
  }

  /** Insertion into a sorted pool keeps it sorted. */
  lemma {:induction false} InsertByConnectionsSorted(x: AgentInstance, sorted: Pool)
    requires SortedByConnections(sorted)
    ensures SortedByConnections(InsertByConnections(x, sorted))
  {
    if !(sorted == [] || x.activeConnections <= sorted[0].activeConnections) {
      var rest := InsertByConnections(x, sorted[1..]);
      InsertByConnectionsSorted(x, sorted[1..]);
      assert sorted[0].activeConnections <= rest[0].activeConnections;
    }
  }

  /** Insertion adds exactly `x`. */
  lemma {:induction false} InsertByConnectionsCounts(x: AgentInstance, sorted: Pool)
    ensures multiset(InsertByConnections(x, sorted)) == multiset{x} + multiset(sorted)
  {
    if !(sorted == [] || x.activeConnections <= sorted[0].activeConnections) {
      InsertByConnectionsCounts(x, sorted[1..]);
      assert sorted == [sorted[0]] + sorted[1..];
    }
  }

  /** Insertion adds exactly the id of `x`. */
  lemma {:induction false} InsertByConnectionsIds(x: AgentInstance, sorted: Pool)
    ensures multiset(Ids(InsertByConnections(x, sorted))) == multiset{x.agentId} + multiset(Ids(sorted))
  {
    if sorted == [] || x.activeConnections <= sorted[0].activeConnections {
      IdsCons(x, sorted);
    } else {
      var rest := InsertByConnections(x, sorted[1..]);
      InsertByConnectionsIds(x, sorted[1..]);
      assert sorted == [sorted[0]] + sorted[1..];
      IdsCons(sorted[0], sorted[1..]);
      IdsCons(sorted[0], rest);
    }
  }

  /** The scale-down order: the pool sorted by active connections (insertion sort, stable). */
  function SortByConnections(pool: Pool): (r: Pool)
    ensures SortedByConnections(r)
    ensures |r| == |pool|
    ensures multiset(r) == multiset(pool)
    ensures multiset(Ids(r)) == multiset(Ids(pool))
  {
    if pool == [] then []
    else
      assert pool == [pool[0]] + pool[1..];
      assert Ids(pool) == [pool[0].agentId] + Ids(pool[1..]);
      InsertByConnectionsSorted(pool[0], SortByConnections(pool[1..]));
      InsertByConnectionsCounts(pool[0], SortByConnections(pool[1..]));
      InsertByConnectionsIds(pool[0], SortByConnections(pool[1..]));
      InsertByConnections(pool[0], SortByConnections(pool[1..]))
  }

  /** The entries with exactly `c` active connections, in pool order. */
  function WithConnections(pool: Pool, c: nat): (r: Pool)
    ensures |r| <= |pool|
    ensures forall k :: 0 <= k < |r| ==> r[k].activeConnections == c && r[k] in pool
  {
    if pool == [] then []
    else (if pool[0].activeConnections == c then [pool[0]] else []) + WithConnections(pool[1..], c)
  }

  /** Filtering a pool that starts with `y`. */
  lemma WithConnectionsCons(y: AgentInstance, rest: Pool, c: nat)
    ensures WithConnections([y] + rest, c) == (if y.activeConnections == c then [y] else []) + WithConnections(rest, c)
  {
    assert ([y] + rest)[0] == y && ([y] + rest)[1..] == rest;
  }

  /** Insertion puts `x` after every entry with fewer connections and before every other one,
      so among the entries with any one count it comes first exactly when it has that count. */
  lemma {:induction false} InsertByConnectionsStable(x: AgentInstance, sorted: Pool, c: nat)
    ensures WithConnections(InsertByConnections(x, sorted), c)
         == (if x.activeConnections == c then [x] else []) + WithConnections(sorted, c)
  {
    if sorted == [] || x.activeConnections <= sorted[0].activeConnections {
      WithConnectionsCons(x, sorted, c);
    } else {
      var rest := InsertByConnections(x, sorted[1..]);
      var tail := WithConnections(sorted[1..], c);
      assert InsertByConnections(x, sorted) == [sorted[0]] + rest;
      InsertByConnectionsStable(x, sorted[1..], c);
      WithConnectionsCons(sorted[0], rest, c);
      if x.activeConnections == c {
        assert WithConnections([sorted[0]] + rest, c) == WithConnections(rest, c) == [x] + tail;
        assert WithConnections(sorted, c) == tail;
      } else {
        assert WithConnections(rest, c) == tail;
      }
    }
  }

  /** The sort is stable: the entries with any one count of connections keep their relative
      order, so ties are broken by pool order. */
  lemma {:induction false} SortByConnectionsStable(pool: Pool, c: nat)
    ensures WithConnections(SortByConnections(pool), c) == WithConnections(pool, c)
  {
    if pool != [] {
      SortByConnectionsStable(pool[1..], c);
      InsertByConnectionsStable(pool[0], SortByConnections(pool[1..]), c);
    }
  }

  /** `scale_down(n)` on one pool: nothing when the pool has at most `n` entries (it never goes
      below one instance) or `n` is not positive; otherwise the ids of the `n` entries with the
      fewest connections are removed one by one. */
  function ScaleDownPool(pool: Pool, n: int): Pool
  {
    if n <= 0 || |pool| <= n then pool
    else RemoveIds(pool, Ids(SortByConnections(pool)[..n]))
  }

  /** Scale-down keeps at least one instance of a non-empty pool; below the threshold it removes
      exactly `n` entries, carrying the ids of the `n` least-loaded ones. */
  lemma ScaleDownEffect(pool: Pool, n: int)
    ensures |pool| >= 1 ==> |ScaleDownPool(pool, n)| >= 1
    ensures |pool| <= n ==> ScaleDownPool(pool, n) == pool
    ensures 0 < n < |pool| ==>
      && |ScaleDownPool(pool, n)| == |pool| - n
      && multiset(Ids(ScaleDownPool(pool, n))) == multiset(Ids(pool)) - multiset(Ids(SortByConnections(pool)[..n]))
  {
    if 0 < n < |pool| {
      var sorted := SortByConnections(pool);
      var removed := Ids(sorted[..n]);
      assert Ids(sorted) == removed + Ids(sorted[n..]);
      assert multiset(removed) <= multiset(Ids(sorted));
      RemoveIdsEffect(pool, removed);
    }
  }

  // ---------------------------------------------------------------------------
  // Auto-scaling

  function Connections(pool: Pool): (xs: seq<int>)
    ensures |xs| == |pool|
    ensures forall i :: 0 <= i < |pool| ==> xs[i] == pool[i].activeConnections
  {
    seq(|pool|, i requires 0 <= i < |pool| => pool[i].activeConnections)
  }

  function TotalConnections(pool: Pool): int
  {
    Sum(Connections(pool))
  }

  datatype ScaleDecision = Grow | Shrink | Keep

  /** The auto-scale rule for one pool, with the mean load compared to 70% and 30% of the
      per-instance connection ceiling (cross-multiplied by the pool size): grow by one when
      above 70% and below the size cap; otherwise shrink by one when below 30% and more than one
      instance remains. Empty pools are skipped. */
  function AutoScaleDecision(pool: Pool): (d: ScaleDecision)
    ensures d == Grow <==>
      |pool| > 0 && TotalConnections(pool) * 10 > 7 * MaxConnectionsPerAgent * |pool| && |pool| < MaxPoolSize
    ensures d == Shrink <==>
      && |pool| > 1
      && !(TotalConnections(pool) * 10 > 7 * MaxConnectionsPerAgent * |pool|)
      && TotalConnections(pool) * 10 < 3 * MaxConnectionsPerAgent * |pool|
  {
    if pool == [] then Keep
    else
      var total := TotalConnections(pool);
      if total * 10 > 7 * MaxConnectionsPerAgent * |pool| then
        if |pool| < MaxPoolSize then Grow else Keep
      else if total * 10 < 3 * MaxConnectionsPerAgent * |pool| && |pool| > 1 then Shrink
      else Keep
  }

  /** The pool size after one auto-scale pass. */
  function AutoScaledSize(pool: Pool): nat
  {
    match AutoScaleDecision(pool)
    case Grow => |pool| + 1
    case Shrink => |ScaleDownPool(pool, 1)|
    case Keep => |pool|
  }

  /** Auto-scaling never grows a pool past the cap and never empties a non-empty pool; each
      pass changes a size by at most one. */
  lemma AutoScaleBounds(pool: Pool)
    ensures |pool| >= 1 ==> AutoScaledSize(pool) >= 1
    ensures AutoScaledSize(pool) > |pool| ==> AutoScaledSize(pool) <= MaxPoolSize
    ensures |pool| - 1 <= AutoScaledSize(pool) <= |pool| + 1
    ensures |pool| == 0 ==> AutoScaledSize(pool) == 0
  {
    ScaleDownEffect(pool, 1);
  }

  /** What one auto-scale pass leaves in a pool: one appended default-weight instance when
      growing, the scale-down by one when shrinking, the pool itself otherwise. */
  predicate AutoScaled(before: Pool, after: Pool, agentType: string, now: real)
  {
    match AutoScaleDecision(before)
    case Grow => GrownBy(before, after, agentType, 1, DefaultWeight, now)
    case Shrink => after == ScaleDownPool(before, 1)
    case Keep => after == before
  }

  /** How many of the pools listed in `order` the auto-scale rule grows: each of them draws one
      fresh agent handle, in list order. */
  function GrowCount(pools: map<string, Pool>, order: seq<string>): (n: nat)
    requires forall j :: 0 <= j < |order| ==> order[j] in pools
    ensures n <= |order|
  {
    if order == [] then 0
    else
      GrowCount(pools, order[..|order| - 1])
        + if AutoScaleDecision(pools[order[|order| - 1]]) == Grow then 1 else 0
  }

  /** Counting one more listed pool adds one exactly when that pool grows. */
  lemma GrowCountStep(pools: map<string, Pool>, order: seq<string>, k: nat)
    requires k < |order|
    requires forall j :: 0 <= j < |order| ==> order[j] in pools
    ensures GrowCount(pools, order[..k + 1])
         == GrowCount(pools, order[..k]) + if AutoScaleDecision(pools[order[k]]) == Grow then 1 else 0
  {
    assert order[..k + 1][..k] == order[..k];
  }

  /** Two maps whose listed pools the rule decides alike grow equally many. */
  lemma {:induction false} GrowCountSame(a: map<string, Pool>, b: map<string, Pool>, order: seq<string>, n: nat)
    requires n <= |order|
    requires forall j :: 0 <= j < |order| ==> order[j] in a && order[j] in b
    requires forall j :: 0 <= j < |order| ==> AutoScaleDecision(a[order[j]]) == AutoScaleDecision(b[order[j]])
    ensures GrowCount(a, order[..n]) == GrowCount(b, order[..n])
  {
    if n > 0 {
      GrowCountSame(a, b, order, n - 1);
      GrowCountStep(a, order, n - 1);
      GrowCountStep(b, order, n - 1);
    }
  }

  /** A health check changes no connection count, so it leaves the auto-scale decision. */
  lemma CheckedKeepsDecision(pool: Pool, probe: AgentInstance -> Probe)
    ensures AutoScaleDecision(CheckedPool(pool, probe)) == AutoScaleDecision(pool)
  {
    var checked := CheckedPool(pool, probe);
    forall i | 0 <= i < |pool|
      ensures checked[i].activeConnections == pool[i].activeConnections
    {
      assert checked[i].(health := pool[i].health) == pool[i];
    }
    assert Connections(checked) == Connections(pool);
  }

  /** A pool as auto-scaling leaves it has the size the rule prescribes. */
  lemma AutoScaledHasSize(before: Pool, after: Pool, agentType: string, now: real)
    requires AutoScaled(before, after, agentType, now)
    ensures |after| == AutoScaledSize(before)
  {
  }

  // ---------------------------------------------------------------------------
  // Health check and weights

  /** One health check of every instance: only the health fields change, each to the verdict
      of its own probe; afterwards an instance is healthy exactly when its probe answered
      within the latency ceiling and it is not over the connection ceiling. */
  function CheckedPool(pool: Pool, probe: AgentInstance -> Probe): (r: Pool)
    ensures |r| == |pool|
    ensures forall i :: 0 <= i < |pool| ==> r[i].(health := pool[i].health) == pool[i]
    ensures forall i :: 0 <= i < |pool| ==>
      (r[i].health == Healthy <==>
        probe(pool[i]).Responded? && probe(pool[i]).latency <= MaxResponseTime
        && pool[i].activeConnections <= MaxConnectionsPerAgent)
  {
    seq(|pool|, i requires 0 <= i < |pool| => pool[i].(health := ClassifyHealth(probe(pool[i]), pool[i].activeConnections)))
  }

  /** Every instance of the pool with the given weight, nothing else changed. */
  function Reweighted(pool: Pool, weight: int): (r: Pool)
    ensures |r| == |pool|
    ensures forall i :: 0 <= i < |pool| ==> r[i].weight == weight && r[i].(weight := pool[i].weight) == pool[i]
  {
    seq(|pool|, i requires 0 <= i < |pool| => pool[i].(weight := weight))
  }

  /** Candidates sharing one weight have total weight that weight times their number. */
  lemma {:induction false} UniformWeightsSum(cands: Pool, weight: int)
    requires forall i :: 0 <= i < |cands| ==> cands[i].weight == weight
    ensures Sum(Weights(cands)) == weight * |cands|
  {
    if cands != [] {
      UniformWeightsSum(cands[1..], weight);
      assert Weights(cands) == [weight] + Weights(cands[1..]);
    }
  }

  /** After a type's weight is set, weighted selection among any of its instances raises
      exactly when that weight is 0. */
  lemma UniformWeightSelect(cands: Pool, weight: int, counter: nat)
    requires |cands| > 0
    requires forall i :: 0 <= i < |cands| ==> cands[i].weight == weight
    ensures Select(WeightedRoundRobin, cands, counter).Err? <==> weight == 0
  {
    UniformWeightsSum(cands, weight);
  }

  // ---------------------------------------------------------------------------
  // Statistics

  function Requests(pool: Pool): (xs: seq<int>)
    ensures |xs| == |pool|
    ensures forall i :: 0 <= i < |pool| ==> xs[i] == pool[i].totalRequests
  {
    seq(|pool|, i requires 0 <= i < |pool| => pool[i].totalRequests)
  }

  function SumReal(xs: seq<real>): real
  {
    if xs == [] then 0.0 else xs[0] + SumReal(xs[1..])
  }

  function ResponseTimes(pool: Pool): (xs: seq<real>)
    ensures |xs| == |pool|
    ensures forall i :: 0 <= i < |pool| ==> xs[i] == pool[i].totalResponseTime
  {
    seq(|pool|, i requires 0 <= i < |pool| => pool[i].totalResponseTime)
  }

  datatype InstanceStats = InstanceStats(
    agentId: string,
    weight: int,
    activeConnections: nat,
    totalRequests: nat,
    health: HealthStatus,
    lastUsed: real,
    avgResponseTime: real)

  datatype TypeStats = TypeStats(
    instanceCount: nat,
    healthyInstances: nat,
    totalConnections: int,
    totalRequests: int,
    averageResponseTime: real,
    instances: seq<InstanceStats>)

  /** One instance's line: its own fields, with the mean response time per request. */
  function InstanceStatsOf(inst: AgentInstance): (r: InstanceStats)
    ensures r.agentId == inst.agentId && r.weight == inst.weight && r.health == inst.health
    ensures r.activeConnections == inst.activeConnections && r.totalRequests == inst.totalRequests
    ensures r.lastUsed == inst.lastUsed
    ensures inst.totalRequests > 0 ==> r.avgResponseTime * inst.totalRequests as real == inst.totalResponseTime
    ensures inst.totalRequests == 0 ==> r.avgResponseTime == 0.0
  {
    InstanceStats(inst.agentId, inst.weight, inst.activeConnections, inst.totalRequests,
                  inst.health, inst.lastUsed, AvgResponseTime(inst))
  }

  /** The overall mean: total time over total requests, 0 with no requests. */
  function Mean(totalTime: real, requests: int): (m: real)
    ensures requests > 0 ==> m * requests as real == totalTime
    ensures requests <= 0 ==> m == 0.0
  {
    if requests > 0 then totalTime / requests as real else 0.0
  }

  /** The `get_stats` entry of one pool: counts, sums, the overall mean response time (0 with no
      requests) and one line per instance in pool order. */
  function StatsOf(pool: Pool): (s: TypeStats)
    ensures s.instanceCount == |pool|
    ensures s.healthyInstances <= s.instanceCount
    ensures s.healthyInstances == |HealthySet(pool)|
    ensures s.totalConnections == Sum(Connections(pool))
    ensures s.totalRequests == Sum(Requests(pool))
    ensures s.averageResponseTime == Mean(SumReal(ResponseTimes(pool)), s.totalRequests)
    ensures |s.instances| == |pool|
    ensures forall i :: 0 <= i < |pool| ==> s.instances[i] == InstanceStatsOf(pool[i])
  {
    HealthyIndicesCount(pool);
    var requests := Sum(Requests(pool));
    var totalTime := SumReal(ResponseTimes(pool));
    TypeStats(
      |pool|,
      |HealthyIndices(pool)|,
      TotalConnections(pool),
      requests,
      Mean(totalTime, requests),
      seq(|pool|, i requires 0 <= i < |pool| => InstanceStatsOf(pool[i])))
  }

  /** A selection adds exactly one connection and one request to its type's totals and leaves
      the instance count and the healthy count as they were. */
  lemma SelectionStats(pool: Pool, i: nat, now: real)
    requires i < |pool|
    ensures StatsOf(Touch(pool, i, now)).totalConnections == StatsOf(pool).totalConnections + 1
    ensures StatsOf(Touch(pool, i, now)).totalRequests == StatsOf(pool).totalRequests + 1
    ensures StatsOf(Touch(pool, i, now)).instanceCount == StatsOf(pool).instanceCount
    ensures StatsOf(Touch(pool, i, now)).healthyInstances == StatsOf(pool).healthyInstances
  {
    var touched := Touch(pool, i, now);
    assert Connections(touched) == Connections(pool)[i := pool[i].activeConnections + 1];
    SumUpdate(Connections(pool), i, pool[i].activeConnections + 1);
    assert Requests(touched) == Requests(pool)[i := pool[i].totalRequests + 1];
    SumUpdate(Requests(pool), i, pool[i].totalRequests + 1);
    HealthyUnchanged(pool, touched);
  }

  /** The healthy positions depend on the health fields only. */
  lemma {:induction false} HealthyUnchanged(a: Pool, b: Pool)
    requires |a| == |b|
    requires forall i :: 0 <= i < |a| ==> a[i].health == b[i].health
    ensures HealthyIndices(a) == HealthyIndices(b)
    decreases |a|
  {
    if a != [] {
      HealthyUnchanged(a[..|a| - 1], b[..|b| - 1]);
    }
  }
}
