/**
 The interleaved steps, run without interruption, are the controller's call, faults included; and
 runs in which a promise fails because something did interrupt, a listing failed, or the code
 promises something else.
 */
module Limits {
  import opened Types
  import opened Conditions
  import opened Lifecycle
  import opened Store
  import opened History
  import opened Protocol
  import Controller
  import Urls
  import Discovery

  /** The five steps of one reconcile. */
  function Steps(id: nat, key: Key, listed: bool, order: seq<Key>, env: Env): seq<Action> {
    [Get(id, key), Finalize(id), CheckUrl(id, listed, order), DecideStatus(id, env), CommitStatus(id)]
  }

  ghost function Solo(s: State, id: nat, key: Key, listed: bool, order: seq<Key>, env: Env): State {
    var s1 := Read(s, id, key, ForReconcile);
    var s2 := FinalizeStep(s1, id);
    var s3 := CheckUrlStep(s2, id, listed, order);
    var s4 := DecideStep(s3, id, env);
    CommitStep(s4, id)
  }

  lemma RunOneMore(s: State, actions: seq<Action>, a: Action)
    ensures RunFrom(s, actions + [a]) == Step(RunFrom(s, actions), a)
  {
    assert (actions + [a])[..|actions|] == actions;
  }

  lemma RunSteps(actions: seq<Action>, id: nat, key: Key, listed: bool, order: seq<Key>, env: Env)
    ensures Run(actions + Steps(id, key, listed, order, env)) == Solo(Run(actions), id, key, listed, order, env)
  {
    hide Read, FinalizeStep, CheckUrlStep, DecideStep, CommitStep, RunFrom;
    var a1 := actions + [Get(id, key)];
    var a2 := a1 + [Finalize(id)];
    var a3 := a2 + [CheckUrl(id, listed, order)];
    var a4 := a3 + [DecideStatus(id, env)];
    RunOneMore(INIT, actions, Get(id, key));
    RunOneMore(INIT, a1, Finalize(id));
    RunOneMore(INIT, a2, CheckUrl(id, listed, order));
    RunOneMore(INIT, a3, DecideStatus(id, env));
    RunOneMore(INIT, a4, CommitStatus(id));
    assert actions + Steps(id, key, listed, order, env) == a4 + [CommitStatus(id)];
  }

  function Finalized(c: Cluster, key: Key): Cluster
    requires key in c.agents
  {
    var a := c.agents[key].agent;
    if a.finalizer then c else Put(c, key, a.(finalizer := true))
  }

  lemma FinalizedLists(c: Cluster, key: Key, order: seq<Key>)
    requires key in c.agents && Lists(order, c)
    ensures var c' := Finalized(c, key);
            && Lists(order, c') && c'.agents.Keys == c.agents.Keys
            && c'.agents[key].agent == c.agents[key].agent.(finalizer := true)
  {
  }

  /** The first three steps of a call lead to its URL gate. */
  function AtDecision(s: State, id: nat, key: Key, conflict: Option<Key>): State
    requires key in s.cluster.agents
  {
    var c := Finalized(s.cluster, key);
    var a := c.agents[key];
    s.(cluster := c, tasks := s.tasks[id := UrlChecked(key, a.version, a.agent, |LogOf(s, a.agent.uid)|, conflict)])
  }

  lemma CallBegins(s: State, id: nat, key: Key, listed: bool, order: seq<Key>)
    requires id !in s.tasks && key in s.cluster.agents && !s.cluster.agents[key].agent.deleting && Lists(order, s.cluster)
    ensures var c := Finalized(s.cluster, key);
            var conflict := if listed then Conflict(c, order, key, c.agents[key].agent.spec.url) else None;
            Lists(order, c) && CheckUrlStep(FinalizeStep(Read(s, id, key, ForReconcile), id), id, listed, order) == AtDecision(s, id, key, conflict)
  {
    FinalizedLists(s.cluster, key, order);
    hide Decide, Conflict, Stale, Lists;
  }

  lemma FinalizedHas(c: Cluster, key: Key)
    requires key in c.agents
    ensures key in Finalized(c, key).agents
  {
  }

  /** The last two steps take the decision and write it, or lose it. */
  lemma LastSteps(s: State, id: nat, env: Env)
    requires id in s.tasks && s.tasks[id].UrlChecked? && Current(s.cluster, s.tasks[id].key, s.tasks[id].version)
    ensures var t := s.tasks[id];
            var o := Decide(t.agent.spec, t.agent.generation, t.agent.status, t.conflict, env);
            var s1 := DecideStep(s, id, env);
            var written := CommitStep(s1, id);
            var lost := Abandon(s1, id);
            && written == s1.(cluster := written.cluster, logs := written.logs, tasks := s.tasks - {id})
            && written.cluster == (if o.written then PutStatus(s.cluster, t.key, o.status) else s.cluster)
            && written.logs == (if o.written
                                then s.logs[t.agent.uid := LogOf(s, t.agent.uid)
                                                           + [Reconciled(t.agent.spec, t.agent.generation, t.conflict, env)]]
                                else s.logs)
            && lost == s1.(tasks := s.tasks - {id}, lost := lost.lost) && s1.cluster == s.cluster
            && s1.fetchErrors == s.fetchErrors
                                 + (if Probes(t.agent.spec, t.agent.status, t.conflict, env) && !env.probe.healthy then 1 else 0)
            && s1.failures == s.failures + (if o.exit == CheckFailed then 1 else 0)
  {
    hide Decide, Probes, PutStatus;
  }

  /** What an uninterrupted reconcile leaves behind. */
  lemma SoloWrites(s: State, id: nat, key: Key, listed: bool, order: seq<Key>, env: Env)
    requires id !in s.tasks && key in s.cluster.agents && !s.cluster.agents[key].agent.deleting && Lists(order, s.cluster)
    ensures var c := Finalized(s.cluster, key);
            var a := s.cluster.agents[key].agent;
            var s' := Solo(s, id, key, listed, order, env);
            && Lists(order, c) && s'.tasks == s.tasks
            && var conflict := if listed then Conflict(c, order, key, a.spec.url) else None;
               var o := Decide(a.spec, a.generation, a.status, conflict, env);
            && s'.cluster == (if o.written then PutStatus(c, key, o.status) else c)
            && s'.logs == (if o.written
                           then s.logs[a.uid := LogOf(s, a.uid) + [Reconciled(a.spec, a.generation, conflict, env)]] else s.logs)
  {
    hide Decide, Conflict, Stale, Read, FinalizeStep, CheckUrlStep, DecideStep, CommitStep, Put, PutStatus;
    FinalizedLists(s.cluster, key, order);
    CallBegins(s, id, key, listed, order);
    var c := Finalized(s.cluster, key);
    var s3 := AtDecision(s, id, key, if listed then Conflict(c, order, key, c.agents[key].agent.spec.url) else None);
    LastSteps(s3, id, env);
    assert s3.tasks - {id} == s.tasks;
  }

  /** The steps of one call: each fault of the call ends it early, with its work in flight lost. */
  function CallSteps(s: State, id: nat, key: Key, call: Controller.Call): seq<Action>
    requires call.attempts != []
  {
    if call.getFails || key !in s.cluster.agents then []
    else
      var a := s.cluster.agents[key].agent;
      if a.deleting then
        [Get(id, key), if a.finalizer && call.updateFails then Lose(id) else Finalize(id)]
      else if !a.finalizer && call.updateFails then [Get(id, key), Lose(id)]
      else [Get(id, key), Finalize(id), CheckUrl(id, !call.listFails, call.order), DecideStatus(id, Controller.EnvOf(call)),
            if call.statusFails then Lose(id) else CommitStatus(id)]
  }

  /** The protocol's state has changed as the controller's call says. */
  ghost predicate Affected(s: State, s': State, e: Controller.Effect) {
    && s'.cluster == e.cluster && s'.tasks == s.tasks
    && s'.fetchErrors == s.fetchErrors + e.fetchErrors && s'.failures == s.failures + e.failures
  }

  /** Whatever its faults, an uninterrupted call of the controller is a run of the protocol's steps. */
  lemma CallIsSteps(s: State, id: nat, key: Key, call: Controller.Call)
    requires id !in s.tasks && call.attempts != [] && Lists(call.order, s.cluster)
    ensures Affected(s, RunFrom(s, CallSteps(s, id, key, call)), Controller.ReconcileEffect(s.cluster, key, call))
  {
    if !call.getFails && key in s.cluster.agents {
      var a := s.cluster.agents[key].agent;
      if a.deleting || (!a.finalizer && call.updateFails) {
        ShortCall(s, id, key, call);
      } else {
        LongCall(s, id, key, call);
      }
    }
  }

  lemma RunTwo(s: State, a: Action, b: Action)
    ensures RunFrom(s, [a, b]) == Step(Step(s, a), b)
  {
    hide Step;
    RunOneMore(s, [], a);
    RunOneMore(s, [a], b);
    assert [] + [a] == [a] && [a] + [b] == [a, b];
  }

  lemma ShortCall(s: State, id: nat, key: Key, call: Controller.Call)
    requires id !in s.tasks && call.attempts != [] && Lists(call.order, s.cluster) && !call.getFails && key in s.cluster.agents
    requires var a := s.cluster.agents[key].agent; a.deleting || (!a.finalizer && call.updateFails)
    ensures Affected(s, RunFrom(s, CallSteps(s, id, key, call)), Controller.ReconcileEffect(s.cluster, key, call))
  {
    hide Decide, Stale, RunFrom;
    var steps := CallSteps(s, id, key, call);
    RunTwo(s, steps[0], steps[1]);
    assert steps == [steps[0], steps[1]];
    var s1 := Read(s, id, key, ForReconcile);
    assert s1.tasks - {id} == s.tasks;
  }

  lemma RunFive(s: State, a: Action, b: Action, c: Action, d: Action, e: Action)
    ensures RunFrom(s, [a, b, c, d, e]) == Step(Step(Step(Step(Step(s, a), b), c), d), e)
  {
    hide Step;
    RunTwo(s, a, b);
    RunOneMore(s, [a, b], c);
    RunOneMore(s, [a, b, c], d);
    RunOneMore(s, [a, b, c, d], e);
    assert [a, b] + [c] == [a, b, c] && [a, b, c] + [d] == [a, b, c, d] && [a, b, c, d] + [e] == [a, b, c, d, e];
  }

  lemma CallEnds(s: State, id: nat, key: Key, call: Controller.Call)
    requires id !in s.tasks && key in s.cluster.agents && call.attempts != []
    requires Lists(call.order, Finalized(s.cluster, key))
    ensures var c := Finalized(s.cluster, key);
            var s1 := DecideStep(AtDecision(s, id, key, Controller.ConflictRead(c, key, c.agents[key].agent.spec.url, call)),
                                 id, Controller.EnvOf(call));
            Affected(s, if call.statusFails then Abandon(s1, id) else CommitStep(s1, id), Controller.LiveEffect(c, key, call))
  {
    hide Decide, Probes, PutStatus, Controller.ConflictRead, Controller.FirstFetched, Put, DecideStep, CommitStep, Abandon;
    assert key in Finalized(s.cluster, key).agents by { FinalizedHas(s.cluster, key); }
    var c := Finalized(s.cluster, key);
    var s3 := AtDecision(s, id, key, Controller.ConflictRead(c, key, c.agents[key].agent.spec.url, call));
    LastSteps(s3, id, Controller.EnvOf(call));
    assert s3.tasks - {id} == s.tasks;
  }

  lemma LongCall(s: State, id: nat, key: Key, call: Controller.Call)
    requires id !in s.tasks && call.attempts != [] && Lists(call.order, s.cluster) && !call.getFails && key in s.cluster.agents
    requires var a := s.cluster.agents[key].agent; !a.deleting && (a.finalizer || !call.updateFails)
    ensures Affected(s, RunFrom(s, CallSteps(s, id, key, call)), Controller.ReconcileEffect(s.cluster, key, call))
  {
    hide Affected, Conflict, Read, FinalizeStep, CheckUrlStep, RunFrom, DecideStep, CommitStep, Abandon, Finalized,
         Controller.ReconcileEffect, Controller.LiveEffect, Controller.EnvOf, AtDecision, Lists;
    EffectOfLive(s.cluster, key, call);
    CallBegins(s, id, key, !call.listFails, call.order);
    CallEnds(s, id, key, call);
    RunFive(s, Get(id, key), Finalize(id), CheckUrl(id, !call.listFails, call.order), DecideStatus(id, Controller.EnvOf(call)),
            if call.statusFails then Lose(id) else CommitStatus(id));
  }

  lemma EffectOfLive(c: Cluster, key: Key, call: Controller.Call)
    requires call.attempts != [] && Lists(call.order, c) && !call.getFails && key in c.agents
    requires var a := c.agents[key].agent; !a.deleting && (a.finalizer || !call.updateFails)
    ensures Lists(call.order, Finalized(c, key))
    ensures Controller.ReconcileEffect(c, key, call) == Controller.LiveEffect(Finalized(c, key), key, call)
  {
    hide Controller.LiveEffect;
    FinalizedLists(c, key, call.order);
  }

  /** An uninterrupted approval is the approval handler's read and write. */
  lemma ApprovalIsSteps(s: State, id: nat, key: Key, now: nat)
    requires id !in s.tasks && key in s.cluster.agents
    ensures var s' := RunFrom(s, [GetForApproval(id, key), CommitApproval(id, now)]);
            var a := s.cluster.agents[key].agent;
            s'.cluster == PutStatus(s.cluster, key, Approve(a.status, a.generation, now)) && s'.tasks == s.tasks
  {
    hide Approve, Put, RunFrom;
    RunTwo(s, GetForApproval(id, key), CommitApproval(id, now));
    assert Read(s, id, key, ForApproval).tasks - {id} == s.tasks;
  }

  /** A valid registration without faults is the protocol's registration of what the request asks for. */
  lemma RegistrationIsStep(s: State, call: Discovery.RegisterCall)
    requires Lists(call.order, s.cluster) && call.req.name != "" && call.req.url != "" && !call.listFails && !call.createFails
    ensures Step(s, RegisterAgent(Discovery.RequestedKey(call.req, call.k8sName), Discovery.RequestedSpec(call.req))).cluster ==
            Discovery.RegisterEffect(s.cluster, call).cluster
  {
    hide Create;
    Discovery.HolderIs(s.cluster, call.order, call.req.url);
    CreateTaken(s.cluster, Discovery.RequestedKey(call.req, call.k8sName), Discovery.RequestedSpec(call.req));
  }

  lemma CreateTaken(c: Cluster, key: Key, spec: Spec)
    ensures key in c.agents ==> Create(c, key, spec) == c
  {
  }

  // ----- a fixed scene for the runs below

  const K1 := Key("ns", "a")
  const K2 := Key("ns", "b")
  const SPEC := Spec("agent", "", "", "http://a", Capabilities(false, false), [], None, [], [], None, "1.0", [],
                     Some(HealthCheck(60, 10, 1)), true)

  const CARD := Card("agent", "", "", ["http://a"], Capabilities(false, false), [], [], [])

  /** Everything goes well with this call, except that the registries cannot be listed and the probe is as given. */
  function SceneCall(healthy: bool, time: nat): Controller.Call {
    var attempt := if healthy then Controller.Fetched(CARD, "", 0) else Controller.FetchFailed("");
    Controller.Call(false, false, false, false, true, [K1], [DEMANDING], [attempt, attempt], 0, 0, time, 0)
  }

  const DEMANDING := RegistrySpec("Cluster", "", [], true, true, false, 60, 10, 8082, "0.0.0.0")

  /** What that call reads: no configuration, and the probe. */
  function EnvAt(healthy: bool, time: nat): Env {
    Controller.EnvOf(SceneCall(healthy, time))
  }

  lemma EnvAtIs(healthy: bool, time: nat)
    ensures EnvAt(healthy, time) == Env(None, Probe(healthy, 0, "", if healthy then Some(CARD) else None, ""), 0, 0, time, 0)
  {
    var attempts := SceneCall(healthy, time).attempts;
    assert attempts[1..] == [attempts[0]] && Controller.FirstFetched(attempts[1..]) == attempts[0];
  }

  /** What a solo reconcile that passes the URL gate leaves of an agent: Ready after a good probe, Unreachable after a bad one. */
  ghost predicate Assessed(before: Agent, after: Agent, healthy: bool, time: nat) {
    && after == before.(finalizer := true, status := after.status)
    && UniqueKinds(after.status.conditions)
    && IsApproved(after.status.conditions) == IsApproved(before.status.conditions)
    && (healthy ==> after.status.phase == Ready && after.status.lastHeartbeat == Some(time) && after.status.consecutiveFailures == 0)
    && (!healthy ==> after.status.phase == Unreachable && after.status.lastHeartbeat == before.status.lastHeartbeat)
  }

  lemma SoloProbe(s: State, id: nat, key: Key, order: seq<Key>, listed: bool, healthy: bool, time: nat)
    requires id !in s.tasks && key in s.cluster.agents && !s.cluster.agents[key].agent.deleting
    requires s.cluster.agents[key].agent.spec.(url := SPEC.url) == SPEC && UniqueKinds(s.cluster.agents[key].agent.status.conditions)
    requires Lists(order, s.cluster) && (listed ==> !Taken(s.cluster, key, Url(s.cluster, key)))
    requires !healthy ==> s.cluster.agents[key].agent.status.consecutiveFailures == 0
    ensures var s' := Solo(s, id, key, listed, order, EnvAt(healthy, time));
            && s'.tasks == s.tasks
            && s'.cluster.agents.Keys == s.cluster.agents.Keys
            && (forall k :: k in s.cluster.agents && k != key ==> s'.cluster.agents[k] == s.cluster.agents[k])
            && Assessed(s.cluster.agents[key].agent, s'.cluster.agents[key].agent, healthy, time)
  {
    hide Decide, Conflict, Solo, EnvAt;
    var a := s.cluster.agents[key].agent;
    SoloWrites(s, id, key, listed, order, EnvAt(healthy, time));
    var c := Finalized(s.cluster, key);
    assert forall k :: k in s.cluster.agents ==> Url(c, k) == Url(s.cluster, k);
    ConflictIffTaken(c, order, key, a.spec.url);
    SceneOutcome(a.spec, a.generation, a.status, healthy, time);
  }

  lemma SceneOutcome(spec: Spec, generation: int, st: Status, healthy: bool, time: nat)
    requires spec.(url := SPEC.url) == SPEC && UniqueKinds(st.conditions) && (!healthy ==> st.consecutiveFailures == 0)
    ensures var o := Decide(spec, generation, st, None, EnvAt(healthy, time));
            && o.written && UniqueKinds(o.status.conditions)
            && IsApproved(o.status.conditions) == IsApproved(st.conditions)
            && (healthy ==> o.status.phase == Ready && o.status.lastHeartbeat == Some(time) && o.status.consecutiveFailures == 0)
            && (!healthy ==> o.status.phase == Unreachable && o.status.lastHeartbeat == st.lastHeartbeat)
  {
    var env := EnvAt(healthy, time);
    EnvAtIs(healthy, time);
    hide EnvAt;
    CheckKeeps(spec, generation, Stamp(st, 0), env);
    ExitOrder(spec, generation, st, None, env);
    ExitFrame(spec, generation, st, None, env);
    if healthy {
      HealthyProbeRecovers(spec, generation, st, env);
    } else {
      FailedCheck(spec, generation, st, None, env);
    }
  }

  /** Two agents, created one after the other. */
  function CreateTwo(spec: Spec, other: Spec): seq<Action> {
    [CreateAgent(K1, spec), CreateAgent(K2, other)]
  }

  lemma TwoAgents(spec: Spec, other: Spec)
    ensures var s := Run(CreateTwo(spec, other));
            && s.tasks == map[] && Lists([K1, K2], s.cluster)
            && s.cluster.agents[K1].agent == Agent(0, 1, spec, EMPTY_STATUS, false, false)
            && s.cluster.agents[K2].agent == Agent(1, 1, other, EMPTY_STATUS, false, false)
  {
    RunOneMore(INIT, [], CreateAgent(K1, spec));
    RunOneMore(INIT, [CreateAgent(K1, spec)], CreateAgent(K2, other));
    assert [] + [CreateAgent(K1, spec)] == [CreateAgent(K1, spec)];
    assert [CreateAgent(K1, spec)] + [CreateAgent(K2, other)] == CreateTwo(spec, other);
  }

  /** Two agents, both found healthy, with or without URL listings. */
  function BothProbed(spec: Spec, other: Spec, listed: bool): seq<Action> {
    CreateTwo(spec, other) + Steps(0, K1, listed, [K1, K2], EnvAt(true, 0)) + Steps(0, K2, listed, [K1, K2], EnvAt(true, 0))
  }

  lemma BothReady(spec: Spec, other: Spec, listed: bool)
    requires spec.(url := SPEC.url) == SPEC && other.(url := SPEC.url) == SPEC && (listed ==> spec.url != other.url)
    ensures var c := Run(BothProbed(spec, other, listed)).cluster;
            && K1 in c.agents && K2 in c.agents && c.agents[K1].agent.spec == spec && c.agents[K2].agent.spec == other
            && c.agents[K1].agent.status.phase == Ready && c.agents[K2].agent.status.phase == Ready
  {
    hide Solo, Run, Steps, CreateTwo, EnvAt;
    var a0 := CreateTwo(spec, other);
    var a1 := a0 + Steps(0, K1, listed, [K1, K2], EnvAt(true, 0));
    TwoAgents(spec, other);
    RunSteps(a0, 0, K1, listed, [K1, K2], EnvAt(true, 0));
    SoloProbe(Run(a0), 0, K1, [K1, K2], listed, true, 0);
    assert Lists([K1, K2], Run(a1).cluster);
    RunSteps(a1, 0, K2, listed, [K1, K2], EnvAt(true, 0));
    SoloProbe(Run(a1), 0, K2, [K1, K2], listed, true, 0);
  }

  ghost predicate TwoReadyOnOneUrl(c: Cluster) {
    && K1 in c.agents && K2 in c.agents && Url(c, K1) == Url(c, K2)
    && c.agents[K1].agent.status.phase == Ready && c.agents[K2].agent.status.phase == Ready
  }

  /** The URL gate fails open: when its listings fail, two Ready agents can share a URL. */
  lemma FailedListingsBreakUniqueness()
    ensures exists actions :: TwoReadyOnOneUrl(Run(actions).cluster)
  {
    BothReady(SPEC, SPEC, false);
    assert TwoReadyOnOneUrl(Run(BothProbed(SPEC, SPEC, false)).cluster);
  }

  /** So can they when every listing succeeds and one of them is moved to the URL of the other. */
  lemma EditBreaksUniqueness()
    ensures exists actions, spec :: TwoReadyOnOneUrl(Run(actions + [SetSpec(K2, spec)]).cluster)
                                    && forall i :: 0 <= i < |actions| && actions[i].CheckUrl? ==> actions[i].listed
  {
    var other := SPEC.(url := "http://b");
    var probed := BothProbed(SPEC, other, true);
    BothReady(SPEC, other, true);
    hide BothProbed, RunFrom;
    RunOneMore(INIT, probed, SetSpec(K2, SPEC));
    assert TwoReadyOnOneUrl(Run(probed + [SetSpec(K2, SPEC)]).cluster);
    ProbedListings(SPEC, other);
  }

  lemma ProbedListings(spec: Spec, other: Spec)
    ensures var actions := BothProbed(spec, other, true);
            forall i :: 0 <= i < |actions| && actions[i].CheckUrl? ==> actions[i].listed
  {
  }

  /**
   The approval gate fails open as well: while the only registry demands approval, an agent that
   nobody approved becomes Ready when the registries cannot be listed.
   */
  lemma FailedReadSkipsApproval()
    ensures exists call: Controller.Call :: call.attempts != [] && call.registriesFail
              && call.registries == [DEMANDING] && DEMANDING.requireApproval
              && var c := Run([CreateAgent(K1, SPEC)] + Steps(0, K1, true, [K1], Controller.EnvOf(call))).cluster;
                 K1 in c.agents && c.agents[K1].agent.status.phase == Ready && !IsApproved(c.agents[K1].agent.status.conditions)
  {
    hide Solo, Run, Steps;
    var a0 := [CreateAgent(K1, SPEC)];
    OneAgent();
    RunSteps(a0, 0, K1, true, [K1], EnvAt(true, 0));
    SoloProbe(Run(a0), 0, K1, [K1], true, true, 0);
    assert SceneCall(true, 0).registriesFail && SceneCall(true, 0).attempts != [];
  }

  /**
   Registration lists and then creates.  Two of them in parallel both find the URL free and both
   create.  In general a create keeps URLs distinct exactly when the URL is still free, or the name
   is taken, at the moment it lands.
   */
  lemma RegistrationRace(c: Cluster, key: Key, spec: Spec)
    requires Urls.Distinct(c)
    ensures Urls.Distinct(Create(c, key, spec)) <==> key in c.agents || !UrlInUse(c, spec.url)
    ensures !UrlInUse(EMPTY_CLUSTER, SPEC.url) && !Urls.Distinct(Create(Create(EMPTY_CLUSTER, K1, SPEC), K2, SPEC))
  {
    if key !in c.agents {
      var c' := Create(c, key, spec);
      assert Url(c', key) == spec.url && forall k :: k in c.agents ==> Url(c', k) == Url(c, k);
      if UrlInUse(c, spec.url) {
        var k :| k in c.agents && Url(c, k) == spec.url;
        assert Url(c', k) == Url(c', key);
      }
    }
    var both := Create(Create(EMPTY_CLUSTER, K1, SPEC), K2, SPEC);
    assert K1 in both.agents && K2 in both.agents && Url(both, K1) == Url(both, K2);
  }

  /** The only agent is found healthy. */
  function ReadyScene(): seq<Action> {
    [CreateAgent(K1, SPEC)] + Steps(0, K1, true, [K1], EnvAt(true, 0))
  }

  /** And fails its next check, more than seven days later. */
  function FailedScene(): seq<Action> {
    ReadyScene() + Steps(0, K1, true, [K1], EnvAt(false, WEEK + 1))
  }

  lemma FailedSceneState()
    ensures K1 in Run(ReadyScene()).cluster.agents && Run(ReadyScene()).cluster.agents[K1].agent.status.phase == Ready
    ensures var s := Run(FailedScene());
            && s.tasks == map[] && Lists([K1], s.cluster)
            && var a := s.cluster.agents[K1].agent;
            && a.status.phase == Unreachable && a.status.lastHeartbeat == Some(0) && UniqueKinds(a.status.conditions)
            && a.spec == SPEC && a.finalizer && !a.deleting
  {
    hide Solo, Run, Steps, EnvAt;
    var a0 := [CreateAgent(K1, SPEC)];
    OneAgent();
    RunSteps(a0, 0, K1, true, [K1], EnvAt(true, 0));
    SoloProbe(Run(a0), 0, K1, [K1], true, true, 0);
    RunSteps(ReadyScene(), 0, K1, true, [K1], EnvAt(false, WEEK + 1));
    assert Lists([K1], Run(ReadyScene()).cluster);
    SoloProbe(Run(ReadyScene()), 0, K1, [K1], true, false, WEEK + 1);
  }

  /** And is listed for pruning in the same second. */
  function ListedScene(): seq<Action> {
    FailedScene() + [ListStale(1, K1, WEEK + 1)]
  }

  lemma ListedSceneState()
    ensures var s := Run(FailedScene());
            && K1 in s.cluster.agents
            && Run(ListedScene()) == s.(tasks := map[1 := Snapshot(s, K1, ForPruning(WEEK + 1))])
  {
    hide Run, FailedScene;
    FailedSceneState();
    RunOneMore(INIT, FailedScene(), ListStale(1, K1, WEEK + 1));
    RunIsFromInit(FailedScene());
    RunIsFromInit(ListedScene());
  }

  /** The listed agent recovers. */
  function RecoveredScene(): seq<Action> {
    ListedScene() + Steps(0, K1, true, [K1], EnvAt(true, WEEK + 1))
  }

  lemma RecoveredSceneState()
    ensures var s := Run(RecoveredScene());
            && 1 in s.tasks && s.tasks[1].Pruning? && s.tasks[1].key == K1 && K1 in s.cluster.agents
            && s.cluster.agents[K1].agent.status.phase == Ready && s.cluster.agents[K1].agent.finalizer
  {
    hide Solo, Run, Steps, FailedScene, ListedScene, LogOf, EnvAt;
    FailedSceneState();
    ListedSceneState();
    RunSteps(ListedScene(), 0, K1, true, [K1], EnvAt(true, WEEK + 1));
    assert Lists([K1], Run(ListedScene()).cluster);
    SoloProbe(Run(ListedScene()), 0, K1, [K1], true, true, WEEK + 1);
  }

  /** The agent this prune will hit is Ready. */
  ghost predicate AboutToHitReady(s: State, id: nat) {
    && id in s.tasks && s.tasks[id].Pruning? && s.tasks[id].key in s.cluster.agents
    && s.cluster.agents[s.tasks[id].key].agent.status.phase == Ready
  }

  ghost predicate MarkedForDeletion(c: Cluster, key: Key) {
    key in c.agents && c.agents[key].agent.deleting
  }

  /** A prune that was listed before a recovery still deletes: the agent it hits is Ready. */
  lemma PruneCanHitRecovered()
    ensures exists actions, id :: AboutToHitReady(Run(actions), id)
                                  && MarkedForDeletion(Run(actions + [Prune(id)]).cluster, Run(actions).tasks[id].key)
  {
    hide Run, RecoveredScene;
    var recovered := RecoveredScene();
    RecoveredSceneState();
    RunOneMore(INIT, recovered, Prune(1));
    RunIsFromInit(recovered);
    RunIsFromInit(recovered + [Prune(1)]);
    assert Run(recovered + [Prune(1)]) == PruneStep(Run(recovered), 1);
    assert AboutToHitReady(Run(recovered), 1);
    assert MarkedForDeletion(Run(recovered + [Prune(1)]).cluster, Run(recovered).tasks[1].key);
  }

  lemma RunIsFromInit(actions: seq<Action>)
    ensures Run(actions) == RunFrom(INIT, actions)
  {
  }

  lemma OneAgent()
    ensures var s := Run([CreateAgent(K1, SPEC)]);
            && s.tasks == map[] && Lists([K1], s.cluster) && s.logs == map[0 := []]
            && s.cluster.agents[K1].agent == Agent(0, 1, SPEC, EMPTY_STATUS, false, false)
  {
    RunOneMore(INIT, [], CreateAgent(K1, SPEC));
    assert [] + [CreateAgent(K1, SPEC)] == [CreateAgent(K1, SPEC)];
  }

  /** The agent is Ready after these actions, and pruned in the very second of the check that follows them. */
  ghost predicate PrunedAtOnce(actions: seq<Action>) {
    && K1 in Run(actions).cluster.agents && Run(actions).cluster.agents[K1].agent.status.phase == Ready
    && MarkedForDeletion(Run(actions + Steps(0, K1, true, [K1], EnvAt(false, WEEK + 1))
                             + [ListStale(1, K1, WEEK + 1)] + [Prune(1)]).cluster, K1)
  }

  /** The documentation promises a prune after seven days in Unreachable; this agent spends no time there. */
  lemma PrunedWithoutAWeekUnreachable()
    ensures exists actions :: PrunedAtOnce(actions)
  {
    FailedSceneState();
    ListedScenePruned();
    hide Run, ReadyScene, Steps, EnvAt;
    assert PrunedAtOnce(ReadyScene());
  }

  lemma ListedScenePruned()
    ensures MarkedForDeletion(Run(ListedScene() + [Prune(1)]).cluster, K1)
  {
    hide Run, ListedScene;
    FailedSceneState();
    ListedSceneState();
    RunOneMore(INIT, ListedScene(), Prune(1));
    RunIsFromInit(ListedScene());
    RunIsFromInit(ListedScene() + [Prune(1)]);
  }

  /** And one that never succeeded stays Unreachable without ever being prunable. */
  lemma UnreachableForeverUnpruned()
    ensures exists actions :: K1 in Run(actions).cluster.agents
              && var a := Run(actions).cluster.agents[K1].agent;
                 a.status.phase == Unreachable && Checks(LogOf(Run(actions), a.uid)) == [CheckRecord(false, 0)]
                 && forall now :: !Stale(a.status, now)
  {
    hide Solo, Run, Steps, EnvAt, Decide, Conflict;
    var env := EnvAt(false, 0);
    var a0 := [CreateAgent(K1, SPEC)];
    OneAgent();
    RunSteps(a0, 0, K1, true, [K1], env);
    SoloProbe(Run(a0), 0, K1, [K1], true, false, 0);
    SoloWrites(Run(a0), 0, K1, true, [K1], env);
    var a := Run(a0).cluster.agents[K1].agent;
    ConflictIffTaken(Finalized(Run(a0).cluster, K1), [K1], K1, SPEC.url);
    SceneOutcome(SPEC, 1, EMPTY_STATUS, false, 0);
    OneFailedCheck(env);
    var after := Run(a0 + Steps(0, K1, true, [K1], env));
    assert LogOf(after, 0) == [Reconciled(SPEC, 1, None, env)];
    assert after.cluster.agents[K1].agent.status.lastHeartbeat.None?;
  }

  lemma OneFailedCheck(env: Env)
    requires env == EnvAt(false, 0)
    ensures Checks([Reconciled(SPEC, 1, None, env)]) == [CheckRecord(false, 0)]
  {
    hide Decide;
    EnvAtIs(false, 0);
    var log := [Reconciled(SPEC, 1, None, env)];
    assert log[..0] == [] && Replay([]) == EMPTY_STATUS && Checks([]) == [];
    ExitOrder(SPEC, 1, EMPTY_STATUS, None, env);
    assert Checks(log) == Checks(log[..0]) + Result(Replay(log[..0]), log[0]);
  }
}
