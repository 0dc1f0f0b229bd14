/** One agent instance of a pool: the opaque agent handle plus the metrics the
    balancer keeps about it, the balancer's constants, and the health
    classifier applied to an instance by the periodic check. */
module Instances {
  import opened Common

  /** An opaque agent handle; the agent factory is modelled as a supply of fresh ones. */
  type Handle = nat

  datatype HealthStatus = Healthy | Unhealthy | Overloaded

  datatype AgentInstance = AgentInstance(
    agentId: string,
    agentType: string,
    agent: Handle,
    weight: int,
    activeConnections: nat,
    totalRequests: nat,
    totalResponseTime: real,
    lastUsed: real,
    health: HealthStatus,
    createdAt: real)

  /** A probe answers after some latency (seconds), or raises. */
  datatype Probe = Responded(latency: real) | Raised

  /** Probe latency above this many seconds makes an instance unhealthy. */
  const MaxResponseTime: real := 30.0
  /** More active connections than this make an instance overloaded. */
  const MaxConnectionsPerAgent: nat := 10
  /** `auto_scale` does not grow a pool that already has this many instances. */
  const MaxPoolSize: nat := 5
  /** The weight of an agent type that has none configured, and the default of `add_agent_instance`. */
  const DefaultWeight: int := 1

  /** The agent types created at start-up, in creation order, with their instance counts and weights. */
  const ConsultantType: string := "Dabby Consultant"
  const AuditorType: string := "Auditor Agent"
  const TaxType: string := "Tax Agent"

  function InitialWeights(): map<string, int>
  {
    map[ConsultantType := 3, AuditorType := 2, TaxType := 2]
  }

  /** The id given to the instance created when its pool holds `poolLength` entries. */
  function AgentIdFor(agentType: string, poolLength: nat): string
  {
    agentType + "_" + NatToString(poolLength)
  }

  /** Within one type, two creations get the same id exactly when they saw the same pool length. */
  lemma AgentIdForInjective(agentType: string, m: nat, n: nat)
    ensures AgentIdFor(agentType, m) == AgentIdFor(agentType, n) <==> m == n
  {
    if AgentIdFor(agentType, m) == AgentIdFor(agentType, n) {
      var k := |agentType| + 1;
      assert AgentIdFor(agentType, m)[k..] == NatToString(m);
      assert AgentIdFor(agentType, n)[k..] == NatToString(n);
      NatToStringInjective(m, n);
    }
  }

  /** A freshly created instance: no traffic yet, healthy, stamped with the creation time. */
  function NewInstance(agentType: string, poolLength: nat, handle: Handle, weight: int, now: real): AgentInstance
  {
    AgentInstance(AgentIdFor(agentType, poolLength), agentType, handle, weight, 0, 0, 0.0, 0.0, Healthy, now)
  }

  /** Whether `inst` is what instance creation yields for this type, pool length, weight and time, whatever its handle. */
  predicate IsNewInstance(inst: AgentInstance, agentType: string, poolLength: nat, weight: int, now: real)
  {
    inst == NewInstance(agentType, poolLength, inst.agent, weight, now)
  }

  /** The response-time key: mean response time per request, 0 for an instance with no requests. */
  function AvgResponseTime(inst: AgentInstance): real
  {
    if inst.totalRequests == 0 then 0.0 else inst.totalResponseTime / inst.totalRequests as real
  }

  /** The health verdict of one check: an instance is routed to only when the probe
      answered within the ceiling and it is not over the connection ceiling;
      overload wins over the latency verdict; a raising probe means unhealthy. */
  function ClassifyHealth(probe: Probe, activeConnections: nat): (h: HealthStatus)
    ensures h == Healthy <==>
      probe.Responded? && probe.latency <= MaxResponseTime && activeConnections <= MaxConnectionsPerAgent
    ensures h == Overloaded <==> probe.Responded? && activeConnections > MaxConnectionsPerAgent
    ensures probe.Raised? ==> h == Unhealthy
  {
    match probe
    case Raised => Unhealthy
    case Responded(latency) =>
      var byLatency := if latency > MaxResponseTime then Unhealthy else Healthy;
      if activeConnections > MaxConnectionsPerAgent then Overloaded else byLatency
  }
}
