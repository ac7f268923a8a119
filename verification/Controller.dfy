/**
 The agent controller as it runs: an object fetched from the API server, changed field by field, and
 written back.  Each method is proved against the pure lifecycle.
 */
module Controller {
  import opened Types
  import opened Slices
  import opened Conditions
  import opened Lifecycle
  import opened Store
  import Cards

  /** What one HTTP fetch of a card yields. */
  datatype Attempt = Fetched(card: Card, hash: string, latency: nat) | FetchFailed(error: string)

  const WELL_KNOWN_PATHS := ["/.well-known/agent-card.json", "/.well-known/agent.json"]

  /** Everything the environment decides during one call of Reconcile. */
  datatype Call = Call(
    getFails: bool,
    updateFails: bool,
    listFails: bool,
    statusFails: bool,
    registriesFail: bool,
    order: seq<Key>,
    registries: seq<RegistrySpec>,
    attempts: seq<Attempt>,
    registerTime: nat,
    approvalTime: nat,
    checkTime: nat,
    conditionTime: nat)

  datatype Result = Done(requeueAfter: Option<int>) | Failed

  class Metrics {
    var healthCheckFailures: nat
    var cardFetchErrors: nat
    var registrations: nat
    var deregistrations: nat

    constructor ()
      ensures healthCheckFailures == 0 && cardFetchErrors == 0 && registrations == 0 && deregistrations == 0
    {
      healthCheckFailures, cardFetchErrors, registrations, deregistrations := 0, 0, 0, 0;
    }
  }

  // ----- fetching the card

  /** The first fetched card, or the last error when every path failed. */
  function FirstFetched(attempts: seq<Attempt>): Attempt
    requires attempts != []
  {
    if attempts[0].Fetched? || |attempts| == 1 then attempts[0] else FirstFetched(attempts[1..])
  }

  /** The fallback order matters: an earlier success wins, and a failure is total and reports the last error. */
  lemma {:induction false} FirstFetchedIsFirst(attempts: seq<Attempt>)
    requires attempts != []
    ensures FirstFetched(attempts).FetchFailed? <==> forall i :: 0 <= i < |attempts| ==> attempts[i].FetchFailed?
    ensures FirstFetched(attempts).FetchFailed? ==> FirstFetched(attempts) == attempts[|attempts| - 1]
    ensures forall i :: 0 <= i < |attempts| && attempts[i].Fetched? && (forall j :: 0 <= j < i ==> attempts[j].FetchFailed?)
              ==> FirstFetched(attempts) == attempts[i]
  {
    if !attempts[0].Fetched? && |attempts| > 1 {
      FirstFetchedIsFirst(attempts[1..]);
      assert forall i :: 0 < i < |attempts| ==> attempts[i] == attempts[1..][i - 1];
      forall i | 0 <= i < |attempts| && attempts[i].Fetched? && (forall j :: 0 <= j < i ==> attempts[j].FetchFailed?)
        ensures FirstFetched(attempts) == attempts[i]
      {
        assert forall j :: 0 <= j < i - 1 ==> attempts[1..][j].FetchFailed?;
      }
    }
  }

  function ProbeOf(a: Attempt): Probe {
    match a
    case Fetched(card, hash, latency) => Probe(true, latency, hash, Some(card), "")
    case FetchFailed(error) => Probe(false, 0, "", None, error)
  }

  method FetchCard(attempts: seq<Attempt>, metrics: Metrics) returns (r: Attempt)
    requires |attempts| == |WELL_KNOWN_PATHS|
    modifies metrics`cardFetchErrors
    ensures r == FirstFetched(attempts)
    ensures metrics.cardFetchErrors == old(metrics.cardFetchErrors) + (if r.FetchFailed? then 1 else 0)
  {
    var lastError := "";
    var i := 0;
    while i < |WELL_KNOWN_PATHS|
      invariant 0 <= i <= |WELL_KNOWN_PATHS|
      invariant i < |attempts| ==> FirstFetched(attempts) == FirstFetched(attempts[i..])
      invariant i == |attempts| ==> FirstFetched(attempts) == FetchFailed(lastError)
    {
      var attempt := attempts[i];
      if attempt.Fetched? {
        return attempt;
      }
      lastError := attempt.error;
      assert attempts[i..][1..] == attempts[i + 1..];
      i := i + 1;
    }
    metrics.cardFetchErrors := metrics.cardFetchErrors + 1;
    return FetchFailed(lastError);
  }

  method CheckWithAuth(attempts: seq<Attempt>, metrics: Metrics) returns (result: Probe)
    requires |attempts| == |WELL_KNOWN_PATHS|
    modifies metrics`cardFetchErrors
    ensures result == ProbeOf(FirstFetched(attempts))
    ensures result.healthy <==> exists i :: 0 <= i < |attempts| && attempts[i].Fetched?
    ensures result.healthy ==>
              result.card.Some? && FirstFetched(attempts) == Fetched(result.card.value, result.cardHash, result.latency)
    ensures !result.healthy ==> attempts[|attempts| - 1] == FetchFailed(result.error) && result.card.None?
    ensures metrics.cardFetchErrors == old(metrics.cardFetchErrors) + (if result.healthy then 0 else 1)
  {
    FirstFetchedIsFirst(attempts);
    var fetched := FetchCard(attempts, metrics);
    match fetched
    case Fetched(card, hash, latency) => result := Probe(true, latency, hash, Some(card), "");
    case FetchFailed(error) => result := Probe(false, 0, "", None, error);
  }

  // ----- the fetched object

  class AgentObject {
    const key: Key
    const uid: nat
    const generation: int
    const spec: Spec
    const deleting: bool
    var version: nat
    var finalizer: bool
    var phase: Phase
    var health: Health
    var message: Message
    var lastHeartbeat: Option<nat>
    var cardHash: string
    var observedGeneration: int
    var consecutiveFailures: int32
    var registeredAt: Option<nat>
    var conditions: Slice<Condition>

    ghost predicate Valid()
      reads this
    {
      conditions.Valid()
    }

    ghost function Status(): Status
      requires Valid()
      reads this, conditions.data
    {
      Types.Status.Status(phase, health, message, lastHeartbeat, cardHash, observedGeneration,
                          consecutiveFailures, registeredAt, conditions.View())
    }

    ghost function Value(): Agent
      requires Valid()
      reads this, conditions.data
    {
      Agent(uid, generation, spec, Status(), finalizer, deleting)
    }

    constructor Decode(key: Key, stored: Stored)
      ensures Valid() && fresh(conditions.data) && conditions.data != null
      ensures this.key == key && version == stored.version && Value() == stored.agent
    {
      var st := stored.agent.status;
      this.key, version := key, stored.version;
      uid, generation, spec := stored.agent.uid, stored.agent.generation, stored.agent.spec;
      finalizer, deleting := stored.agent.finalizer, stored.agent.deleting;
      phase, health, message := st.phase, st.health, st.message;
      lastHeartbeat, cardHash, observedGeneration := st.lastHeartbeat, st.cardHash, st.observedGeneration;
      consecutiveFailures, registeredAt := st.consecutiveFailures, st.registeredAt;
      var data := new Condition[|st.conditions|](i requires 0 <= i < |st.conditions| => st.conditions[i]);
      assert data[..] == st.conditions;
      conditions := Slice(data, |st.conditions|);
    }

    /** Merges one condition into the object's own list. */
    method SetCondition(c: Condition)
      requires Valid()
      modifies this`conditions, conditions.data
      ensures Valid() && (conditions.data == old(conditions.data) || fresh(conditions.data)) && conditions.data != null
      ensures Status() == old(Status()).(conditions := Merge(old(Status()).conditions, c))
    {
      var merged := MergeCondition(conditions, c);
      conditions := merged;
    }

    method UpdateConditions(healthy: bool, now: nat)
      requires Valid()
      modifies this`conditions, conditions.data
      ensures Valid() && (conditions.data == old(conditions.data) || fresh(conditions.data)) && conditions.data != null
      ensures Status() == Lifecycle.UpdateConditions(old(Status()), healthy, generation, now)
    {
      var healthCondition := if healthy
        then Condition(HEALTH_CHECKED, ConditionTrue, generation, now, "HealthCheckPassed", Text("Agent is reachable and healthy."))
        else Condition(HEALTH_CHECKED, ConditionFalse, generation, now, "HealthCheckFailed", message);
      var readyCondition := if phase == Ready
        then Condition(READY, ConditionTrue, generation, now, "AgentReady", Text("Agent is registered and healthy."))
        else Condition(READY, ConditionFalse, generation, now, "AgentNotReady", message);
      SetCondition(healthCondition);
      SetCondition(readyCondition);
    }
  }

  // ----- the specification of a whole call

  function ConfigRead(call: Call): Option<RegistrySpec> {
    if call.registriesFail || call.registries == [] then None else Some(call.registries[0])
  }

  function EnvOf(call: Call): Env
    requires call.attempts != []
  {
    Env(ConfigRead(call), ProbeOf(FirstFetched(call.attempts)),
        call.registerTime, call.approvalTime, call.checkTime, call.conditionTime)
  }

  function ConflictRead(c: Cluster, key: Key, url: string, call: Call): Option<Key>
    requires forall k :: k in call.order ==> k in c.agents
  {
    if call.listFails then None else Conflict(c, call.order, key, url)
  }

  /**
   The configuration that was read demands approval exactly when the listing succeeded and the first
   listed registry demands it: a failed listing waives the demand.  What is read is that registry's.
   */
  lemma DemandReadIff(call: Call)
    ensures RequiresApproval(ConfigRead(call)) <==>
              !call.registriesFail && call.registries != [] && call.registries[0].requireApproval
    ensures SkipsCheck(ConfigRead(call)) <==>
              !call.registriesFail && call.registries != [] && !call.registries[0].requireHealthCheck
    ensures ConfigRead(call).Some? <==> !call.registriesFail && call.registries != []
    ensures ConfigRead(call).Some? ==> ConfigRead(call).value == call.registries[0]
  {
  }

  /** Under a first registry that demands approval, an unapproved agent is checked exactly when reading it fails. */
  lemma CheckedUnapprovedIffReadFails(spec: Spec, generation: int, st: Status, call: Call)
    requires call.attempts != [] && call.registries != [] && call.registries[0].requireApproval
    requires spec.enabled && !IsApproved(st.conditions)
    ensures IsCheck(Decide(spec, generation, st, None, EnvOf(call)).exit) <==> call.registriesFail
  {
    hide Decide, FirstFetched;
    ExitOrder(spec, generation, st, None, EnvOf(call));
    DemandReadIff(call);
  }

  /** How much a reconcile that leaves by this exit adds to the failed health checks. */
  function Failures(exit: Exit): nat {
    if exit == CheckFailed then 1 else 0
  }

  /** What a whole call does to the store, to the events and to the four counters. */
  datatype Effect = Effect(
    cluster: Cluster, events: seq<Event>, registrations: nat, deregistrations: nat, fetchErrors: nat, failures: nat, result: Result)

  /** The part of a call that comes after the finalizer is in place. */
  ghost function LiveEffect(c: Cluster, key: Key, call: Call): (e: Effect)
    requires Lists(call.order, c) && call.attempts != [] && key in c.agents
    ensures e.deregistrations == 0
  {
    var a := c.agents[key].agent;
    var conflict := ConflictRead(c, key, a.spec.url, call);
    var o := Decide(a.spec, a.generation, a.status, conflict, EnvOf(call));
    var registrations := if a.status.registeredAt.None? then 1 else 0;
    var fetchErrors := if Probes(a.spec, a.status, conflict, EnvOf(call)) && FirstFetched(call.attempts).FetchFailed? then 1 else 0;
    var failures := Failures(o.exit);
    if o.written && call.statusFails then Effect(c, o.events, registrations, 0, fetchErrors, failures, Failed)
    else Effect(if o.written then PutStatus(c, key, o.status) else c,
                o.events, registrations, 0, fetchErrors, failures, Done(o.requeueAfter))
  }

  lemma LiveCountsAlike(c: Cluster, key: Key, call: Call)
    requires Lists(call.order, c) && call.attempts != [] && key in c.agents
    ensures LiveEffect(c, key, call).fetchErrors == LiveEffect(c, key, call).failures
  {
    hide Decide, Conflict, FirstFetched;
    var a := c.agents[key].agent;
    ExitOrder(a.spec, a.generation, a.status, ConflictRead(c, key, a.spec.url, call), EnvOf(call));
  }

  ghost function ReconcileEffect(c: Cluster, key: Key, call: Call): Effect
    requires Lists(call.order, c) && call.attempts != []
  {
    if call.getFails then Effect(c, [], 0, 0, 0, 0, Failed)
    else if key !in c.agents then Effect(c, [], 0, 0, 0, 0, Done(None))
    else
      var a := c.agents[key].agent;
      if a.deleting then
        if !a.finalizer then Effect(c, [], 0, 0, 0, 0, Done(None))
        else if call.updateFails then Effect(c, [], 0, 0, 0, 0, Failed)
        else Effect(Remove(c, key), [FinalizerRemoved], 0, 1, 0, 0, Done(None))
      else if a.finalizer then LiveEffect(c, key, call)
      else if call.updateFails then Effect(c, [], 0, 0, 0, 0, Failed)
      else LiveEffect(Put(c, key, a.(finalizer := true)), key, call)
  }

  /** A call gets past reading and past the finalizer, and the agent is not being deleted. */
  ghost predicate GoesLive(c: Cluster, key: Key, call: Call) {
    !call.getFails && key in c.agents && !c.agents[key].agent.deleting && (c.agents[key].agent.finalizer || !call.updateFails)
  }

  /** It removes the finalizer of an agent that is being deleted. */
  ghost predicate Releases(c: Cluster, key: Key, call: Call) {
    !call.getFails && key in c.agents && c.agents[key].agent.deleting && c.agents[key].agent.finalizer && !call.updateFails
  }

  /**
   What a call counts and where it stops.  A registration is counted by each live call on an agent
   without a registration time, a deregistration by the call that lets an agent go; and a call that
   does neither leaves the store as it is.  A call fails only when one of its requests does.
   */
  lemma CallCounts(c: Cluster, key: Key, call: Call)
    requires Lists(call.order, c) && call.attempts != []
    ensures var e := ReconcileEffect(c, key, call);
            && e.registrations == (if GoesLive(c, key, call) && c.agents[key].agent.status.registeredAt.None? then 1 else 0)
            && e.deregistrations == (if Releases(c, key, call) then 1 else 0)
            && (Releases(c, key, call) ==>
                  e.events == [FinalizerRemoved] && e.result == Done(None) && e.cluster == c.(agents := c.agents - {key}))
            && (!GoesLive(c, key, call) && !Releases(c, key, call) ==> e.cluster == c && e.events == [] && e.failures == 0)
            && (e.result == Failed ==> call.getFails || call.updateFails || call.statusFails)
            && (call.getFails ==> e.result == Failed)
            && (GoesLive(c, key, call) ==>
                  && e.cluster.agents.Keys == c.agents.Keys && e.cluster.agents[key].agent.finalizer
                  && (call.statusFails ==> e.cluster.agents[key].agent.status == c.agents[key].agent.status)
                  && forall k :: k in c.agents && k != key ==> e.cluster.agents[k] == c.agents[k])
  {
    hide Decide, Conflict, FirstFetched, Probes;
  }

  /** A call, and the store it was made on: between two calls anything may have happened to it. */
  datatype Served = Served(cluster: Cluster, key: Key, call: Call)

  ghost predicate Answerable(served: seq<Served>) {
    forall i :: 0 <= i < |served| ==> Lists(served[i].call.order, served[i].cluster) && served[i].call.attempts != []
  }

  ghost function EffectAt(served: seq<Served>, i: nat): Effect
    requires Answerable(served) && i < |served|
  {
    ReconcileEffect(served[i].cluster, served[i].key, served[i].call)
  }

  /** The card-fetch errors and the failed health checks that a sequence of calls counts. */
  ghost function Counted(served: seq<Served>): (nat, nat)
    requires Answerable(served)
  {
    if served == [] then (0, 0)
    else
      var e := EffectAt(served, |served| - 1);
      var (fetchErrors, failures) := Counted(served[..|served| - 1]);
      (fetchErrors + e.fetchErrors, failures + e.failures)
  }

  /** Over any sequence of calls, with any faults, the two failure metrics stay equal. */
  lemma {:induction false} CallsCountAlike(served: seq<Served>)
    requires Answerable(served)
    ensures Counted(served).0 == Counted(served).1
  {
    hide LiveEffect;
    if served != [] {
      var s := served[|served| - 1];
      CallsCountAlike(served[..|served| - 1]);
      if s.key in s.cluster.agents {
        var a := s.cluster.agents[s.key].agent;
        LiveCountsAlike(s.cluster, s.key, s.call);
        LiveCountsAlike(Put(s.cluster, s.key, a.(finalizer := true)), s.key, s.call);
      }
    }
  }

  // ----- the reconciler and the approver

  /** The client every actor shares: it reads and writes one store. */
  class ApiClient {
    var cluster: Cluster

    constructor (cluster: Cluster)
      ensures this.cluster == cluster
    {
      this.cluster := cluster;
    }

    /** Writes the finalizer of a fetched object back, unless it is overtaken; the server answers with the new version. */
    method UpdateFinalizer(agent: AgentObject, fails: bool) returns (ok: bool)
      requires agent.Valid()
      requires Current(cluster, agent.key, agent.version) ==>
                 cluster.agents[agent.key].agent == agent.Value().(finalizer := cluster.agents[agent.key].agent.finalizer)
      modifies this`cluster, agent`version
      ensures ok <==> !fails && Current(old(cluster), agent.key, old(agent.version))
      ensures !ok ==> cluster == old(cluster)
      ensures ok && agent.deleting && !agent.finalizer ==> cluster == Remove(old(cluster), agent.key)
      ensures ok && !(agent.deleting && !agent.finalizer) ==>
                cluster == Put(old(cluster), agent.key, agent.Value()) && Current(cluster, agent.key, agent.version)
    {
      if fails || agent.key !in cluster.agents || cluster.agents[agent.key].version != agent.version {
        return false;
      }
      if agent.deleting && !agent.finalizer {
        cluster := Remove(cluster, agent.key);
      } else {
        agent.version := cluster.nextVersion;
        var a := cluster.agents[agent.key].agent.(finalizer := agent.finalizer);
        cluster := Put(cluster, agent.key, a);
      }
      return true;
    }

    /** Status().Update of a fetched object: refused when the object has been written since it was read. */
    method UpdateStatus(agent: AgentObject, fails: bool) returns (ok: bool)
      requires agent.Valid()
      modifies this`cluster, agent`version
      ensures ok <==> !fails && Current(old(cluster), agent.key, old(agent.version))
      ensures !ok ==> cluster == old(cluster)
      ensures ok ==> cluster == PutStatus(old(cluster), agent.key, agent.Status())
    {
      if fails || agent.key !in cluster.agents || cluster.agents[agent.key].version != agent.version {
        return false;
      }
      var conditions := if agent.conditions.data == null then [] else agent.conditions.data[..agent.conditions.len];
      var st := Types.Status.Status(agent.phase, agent.health, agent.message, agent.lastHeartbeat, agent.cardHash,
                                    agent.observedGeneration, agent.consecutiveFailures, agent.registeredAt, conditions);
      agent.version := cluster.nextVersion;
      cluster := PutStatus(cluster, agent.key, st);
      return true;
    }
  }

  class AgentReconciler {
    const client: ApiClient
    const metrics: Metrics
    var events: seq<Event>

    constructor (client: ApiClient, metrics: Metrics)
      ensures this.client == client && this.metrics == metrics && events == []
    {
      this.client, this.metrics, events := client, metrics, [];
    }

    method CheckUrlConflict(key: Key, url: string, call: Call) returns (conflict: Option<Key>)
      requires Lists(call.order, client.cluster)
      ensures conflict == ConflictRead(client.cluster, key, url, call)
    {
      if call.listFails {
        return None;
      }
      var i := 0;
      while i < |call.order|
        invariant 0 <= i <= |call.order|
        invariant Conflict(client.cluster, call.order, key, url) == Conflict(client.cluster, call.order[i..], key, url)
      {
        var other := call.order[i];
        assert call.order[i..][0] == other && call.order[i..][1..] == call.order[i + 1..];
        if other != key {
          if client.cluster.agents[other].agent.spec.url == url {
            return Some(other);
          }
        }
        i := i + 1;
      }
      return None;
    }

    method GetRegistryConfig(call: Call) returns (config: Option<RegistrySpec>)
      ensures config == ConfigRead(call)
    {
      if call.registriesFail || |call.registries| == 0 {
        return None;
      }
      return Some(call.registries[0]);
    }

    /** Health checks are switched off: the agent is taken to be healthy. */
    method Skipped(agent: AgentObject, checkTime: nat, ghost env: Env)
      requires agent.Valid() && env.checkTime == checkTime
      modifies agent`phase, agent`health, agent`lastHeartbeat, agent`message, agent`consecutiveFailures
      ensures agent.Status() == Skip(old(agent.Status()), env)
    {
      agent.phase := Ready;
      agent.health := Healthy;
      agent.lastHeartbeat := Some(checkTime);
      agent.message := Text("Health check disabled by registry configuration.");
      agent.consecutiveFailures := 0;
    }

    /** A healthy probe: success first, then the card may still be refused. */
    method Passed(agent: AgentObject, config: Option<RegistrySpec>, result: Probe, checkTime: nat, ghost env: Env)
      requires agent.Valid() && env.config == config && env.probe == result && env.checkTime == checkTime
      modifies this`events, agent`phase, agent`health, agent`lastHeartbeat, agent`message, agent`cardHash, agent`consecutiveFailures
      ensures agent.Status() == Pass(agent.spec, old(agent.Status()), env)
      ensures events == old(events) + PassEvents(agent.spec, old(agent.phase), env)
    {
      hide Cards.CardMatch;
      var previousPhase := agent.phase;
      agent.phase := Ready;
      agent.health := Healthy;
      agent.lastHeartbeat := Some(checkTime);
      agent.message := CheckPassedIn(result.latency);
      if result.cardHash != "" {
        agent.cardHash := result.cardHash;
      }
      agent.consecutiveFailures := 0;
      if previousPhase == Error || previousPhase == Unreachable {
        events := events + [HealthCheckRecovered(previousPhase)];
      }
      if config.Some? && config.value.requireCardMatch && result.card.Some? {
        var mismatch := Cards.CheckCardMatch(agent.spec, result.card.value);
        if mismatch.Some? {
          agent.health := Unhealthy;
          agent.phase := Error;
          agent.message := CardMismatchOf(mismatch.value);
          events := events + [CardMismatchEvent(mismatch.value)];
        }
      }
    }

    /** An unhealthy probe: count it and compare with the threshold. */
    method NotPassed(agent: AgentObject, result: Probe, ghost env: Env)
      requires agent.Valid() && env.probe == result
      modifies this`events, agent`phase, agent`health, agent`message, agent`consecutiveFailures
      ensures agent.Status() == Fail(agent.spec, old(agent.Status()), env)
      ensures events == old(events) + FailEvents(old(agent.phase), agent.Status(), env)
    {
      var previousPhase := agent.phase;
      agent.health := Unhealthy;
      agent.message := CheckFailedWith(result.error);
      var failureThreshold: int32 := 3;
      if agent.spec.healthCheck.Some? && agent.spec.healthCheck.value.failureThreshold > 0 {
        failureThreshold := agent.spec.healthCheck.value.failureThreshold;
      }
      agent.consecutiveFailures := Next32(agent.consecutiveFailures);
      if agent.consecutiveFailures >= failureThreshold {
        agent.phase := Unreachable;
        if previousPhase != Unreachable {
          events := events + [AgentUnreachable(agent.consecutiveFailures)];
        }
      } else {
        agent.phase := Error;
        if previousPhase != Error {
          events := events + [HealthCheckFailed(result.error)];
        }
      }
    }

    /** The agent's own interval wins over the registry's, and sixty seconds are left when neither is set. */
    method RequeueInterval(config: Option<RegistrySpec>, spec: Spec) returns (interval: int32)
      ensures interval == Interval(config, spec)
    {
      interval := 60;
      if config.Some? && config.value.intervalSeconds > 0 {
        interval := config.value.intervalSeconds;
      }
      if spec.healthCheck.Some? {
        if spec.healthCheck.value.intervalSeconds > 0 {
          interval := spec.healthCheck.value.intervalSeconds;
        }
      }
    }

    /** The check of an object past the gates, by configuration or by probing. */
    method Assess(agent: AgentObject, config: Option<RegistrySpec>, call: Call, ghost env: Env)
      requires agent.Valid() && |call.attempts| == |WELL_KNOWN_PATHS| && env == EnvOf(call) && config == env.config
      modifies this`events, metrics`cardFetchErrors, metrics`healthCheckFailures
      modifies agent`phase, agent`health, agent`lastHeartbeat, agent`message, agent`cardHash, agent`consecutiveFailures
      ensures agent.Status() == Checked(agent.spec, old(agent.Status()), env)
      ensures events == old(events) + CheckEvents(agent.spec, old(agent.Status()), env)
      ensures metrics.healthCheckFailures == old(metrics.healthCheckFailures) + Failures(CheckExit(env))
      ensures metrics.cardFetchErrors == old(metrics.cardFetchErrors) + Failures(CheckExit(env))
    {
      hide Pass, Fail, Skip, PassEvents, FailEvents, FirstFetched;
      if config.Some? && !config.value.requireHealthCheck {
        Skipped(agent, call.checkTime, env);
      } else {
        var result := CheckWithAuth(call.attempts, metrics);
        if !result.healthy {
          metrics.healthCheckFailures := metrics.healthCheckFailures + 1;
        }
        if result.healthy {
          Passed(agent, config, result, call.checkTime, env);
        } else {
          NotPassed(agent, result, env);
        }
      }
    }

    method RunCheck(agent: AgentObject, config: Option<RegistrySpec>, call: Call) returns (interval: int32)
      requires agent.Valid() && config == ConfigRead(call) && |call.attempts| == |WELL_KNOWN_PATHS|
      modifies this`events, agent, agent.conditions.data, metrics`cardFetchErrors, metrics`healthCheckFailures
      ensures agent.Valid() && (agent.conditions.data == old(agent.conditions.data) || fresh(agent.conditions.data))
      ensures agent.version == old(agent.version)
      ensures var o := Check(agent.spec, agent.generation, old(agent.Status()), EnvOf(call));
              && agent.Status() == o.status && events == old(events) + o.events && o.requeueAfter == Some(interval) && o.written
              && metrics.healthCheckFailures == old(metrics.healthCheckFailures) + Failures(o.exit)
              && metrics.cardFetchErrors == old(metrics.cardFetchErrors) + Failures(o.exit)
    {
      hide Lifecycle.UpdateConditions, Checked, CheckEvents, CheckExit, FirstFetched, Interval, ConfigRead;
      ghost var env := EnvOf(call);
      interval := RequeueInterval(config, agent.spec);
      Assess(agent, config, call, env);
      agent.observedGeneration := agent.generation;
      var isHealthy := agent.health == Healthy;
      agent.UpdateConditions(isHealthy, call.conditionTime);
    }

    method StopForApproval(agent: AgentObject, now: nat, fails: bool) returns (result: Result)
      requires agent.Valid() && Current(client.cluster, agent.key, agent.version)
      modifies client`cluster, agent, agent.conditions.data
      ensures result == if fails then Failed else Done(Some(30))
      ensures var st := old(agent.Status());
              client.cluster == if fails then old(client.cluster) else
                PutStatus(old(client.cluster), agent.key,
                          st.(phase := Pending, health := Unknown, message := Text("Waiting for approval."),
                              conditions := Merge(st.conditions, ApprovalCondition(false, agent.generation, now))))
    {
      agent.phase := Pending;
      agent.health := Unknown;
      agent.message := Text("Waiting for approval.");
      agent.SetCondition(Condition(APPROVED, ConditionFalse, agent.generation, now,
                             "PendingApproval", Text("Agent requires manual approval.")));
      var ok := client.UpdateStatus(agent, fails);
      return if ok then Done(Some(30)) else Failed;
    }

    /** An enabled agent past the URL gate: approval, check, and the status write. */
    method ReconcileEnabled(agent: AgentObject, call: Call) returns (result: Result)
      requires agent.Valid() && Current(client.cluster, agent.key, agent.version) && |call.attempts| == |WELL_KNOWN_PATHS|
      modifies client`cluster, this`events, metrics`cardFetchErrors, metrics`healthCheckFailures, agent, agent.conditions.data
      ensures var o := DecideEnabled(agent.spec, agent.generation, old(agent.Status()), EnvOf(call));
              && o.written && events == old(events) + o.events
              && result == (if call.statusFails then Failed else Done(o.requeueAfter))
              && client.cluster == (if call.statusFails then old(client.cluster) else PutStatus(old(client.cluster), agent.key, o.status))
              && metrics.healthCheckFailures == old(metrics.healthCheckFailures) + Failures(o.exit)
              && metrics.cardFetchErrors == old(metrics.cardFetchErrors) + Failures(o.exit)
    {
      hide Check, Merge, IsApproved, FirstFetched;
      var config := GetRegistryConfig(call);
      if config.Some? && config.value.requireApproval {
        var approved := IsApprovedScan(agent.conditions);
        if !approved {
          result := StopForApproval(agent, call.approvalTime, call.statusFails);
          return;
        }
        agent.SetCondition(Condition(APPROVED, ConditionTrue, agent.generation, call.approvalTime,
                               "Approved", Text("Agent has been approved.")));
      }
      var interval := RunCheck(agent, config, call);
      var ok := client.UpdateStatus(agent, call.statusFails);
      return if ok then Done(Some(interval)) else Failed;
    }

    method StopAtConflict(agent: AgentObject, holder: Key, fails: bool) returns (result: Result)
      requires agent.Valid() && Current(client.cluster, agent.key, agent.version)
      modifies client`cluster, agent
      ensures result == if fails then Failed else Done(Some(300))
      ensures client.cluster == if fails then old(client.cluster) else
                PutStatus(old(client.cluster), agent.key, old(agent.Status()).(phase := Error, health := Unhealthy,
                                                                        message := UrlConflict(agent.spec.url, holder)))
    {
      agent.phase := Error;
      agent.health := Unhealthy;
      agent.message := UrlConflict(agent.spec.url, holder);
      var ok := client.UpdateStatus(agent, fails);
      return if ok then Done(Some(300)) else Failed;
    }

    /** A disabled agent that is already Pending is not written at all. */
    method StopDisabled(agent: AgentObject, fails: bool) returns (result: Result)
      requires agent.Valid() && Current(client.cluster, agent.key, agent.version)
      modifies client`cluster, agent
      ensures result == if old(agent.phase) != Pending && fails then Failed else Done(None)
      ensures client.cluster == if old(agent.phase) == Pending || fails then old(client.cluster) else
                PutStatus(old(client.cluster), agent.key, old(agent.Status()).(phase := Pending, health := Unknown,
                                                                        message := Text("Agent is disabled.")))
    {
      if agent.phase != Pending {
        agent.phase := Pending;
        agent.health := Unknown;
        agent.message := Text("Agent is disabled.");
        var ok := client.UpdateStatus(agent, fails);
        return if ok then Done(None) else Failed;
      }
      return Done(None);
    }

    /** The call had this effect on the store, the events and the counters. */
    twostate predicate Did(e: Effect, result: Result)
      reads this, client, metrics
    {
      && client.cluster == e.cluster && result == e.result && events == old(events) + e.events
      && metrics.registrations == old(metrics.registrations) + e.registrations
      && metrics.deregistrations == old(metrics.deregistrations) + e.deregistrations
      && metrics.healthCheckFailures == old(metrics.healthCheckFailures) + e.failures
      && metrics.cardFetchErrors == old(metrics.cardFetchErrors) + e.fetchErrors
    }

    /** Everything after the finalizer: registration, the gates, the check, and the status write. */
    method ReconcileLive(agent: AgentObject, call: Call) returns (result: Result)
      requires agent.Valid() && Current(client.cluster, agent.key, agent.version) && client.cluster.agents[agent.key].agent == agent.Value()
      requires Lists(call.order, client.cluster) && |call.attempts| == |WELL_KNOWN_PATHS|
      modifies client`cluster, this`events, metrics, agent, agent.conditions.data
      ensures Did(LiveEffect(old(client.cluster), agent.key, call), result)
    {
      hide DecideEnabled, Merge, Conflict, FirstFetched, Probes;
      LiveCountsAlike(client.cluster, agent.key, call);
      if agent.registeredAt.None? {
        agent.registeredAt := Some(call.registerTime);
        metrics.registrations := metrics.registrations + 1;
      }
      var conflict := CheckUrlConflict(agent.key, agent.spec.url, call);
      if conflict.Some? {
        result := StopAtConflict(agent, conflict.value, call.statusFails);
        return;
      }
      if !agent.spec.enabled {
        result := StopDisabled(agent, call.statusFails);
        return;
      }
      result := ReconcileEnabled(agent, call);
    }

    /**
     One call of Reconcile.  A failed probe raises the fetch-error and the failure counter together,
     so the two never drift apart, whether or not the status write goes through.
     */
    method Reconcile(key: Key, call: Call) returns (result: Result)
      requires Lists(call.order, client.cluster) && |call.attempts| == |WELL_KNOWN_PATHS|
      modifies client`cluster, this`events, metrics
      ensures Did(ReconcileEffect(old(client.cluster), key, call), result)
    {
      hide LiveEffect;
      if call.getFails {
        return Failed;
      }
      if key !in client.cluster.agents {
        return Done(None);
      }
      var agent := new AgentObject.Decode(key, client.cluster.agents[key]);
      if agent.deleting {
        if agent.finalizer {
          agent.finalizer := false;
          var ok := client.UpdateFinalizer(agent, call.updateFails);
          if !ok {
            return Failed;
          }
          metrics.deregistrations := metrics.deregistrations + 1;
          events := events + [FinalizerRemoved];
        }
        return Done(None);
      }
      if !agent.finalizer {
        agent.finalizer := true;
        var ok := client.UpdateFinalizer(agent, call.updateFails);
        if !ok {
          return Failed;
        }
      }
      result := ReconcileLive(agent, call);
    }
  }

  /** The dashboard's approval handler, a second writer of status. */
  class ApprovalHandler {
    const client: ApiClient

    constructor (client: ApiClient)
      ensures this.client == client
    {
      this.client := client;
    }

    method ApproveAgent(key: Key, now: nat, fails: bool) returns (ok: bool)
      modifies client`cluster
      ensures ok == (key in old(client.cluster).agents && !fails)
      ensures !ok ==> client.cluster == old(client.cluster)
      ensures ok ==> var a := old(client.cluster).agents[key].agent;
                     client.cluster == PutStatus(old(client.cluster), key, Approve(a.status, a.generation, now))
    {
      if key !in client.cluster.agents {
        return false;
      }
      var agent := new AgentObject.Decode(key, client.cluster.agents[key]);
      agent.SetCondition(Condition(APPROVED, ConditionTrue, agent.generation, now,
                             "Approved", Text("Agent has been approved via dashboard.")));
      ok := client.UpdateStatus(agent, fails);
    }
  }
}
