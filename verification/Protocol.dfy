/**
 Every actor on one store, interleaved.  A reconcile is four separate steps (get and finalizer, URL
 listing, configuration and probe, status write); an approval and a prune are two; users create,
 edit and delete agents at any time; any step in flight may be lost.  Writes are version-checked.
 */
module Protocol {
  import opened Types
  import opened Lifecycle
  import opened Store
  import opened History

  /** Work in flight: what it read, and how many commits the agent it read had behind it. */
  datatype Task =
    | Fetched(key: Key, version: nat, agent: Agent, seen: nat)
    | UrlChecked(key: Key, version: nat, agent: Agent, seen: nat, conflict: Option<Key>)
    | Decided(key: Key, version: nat, agent: Agent, seen: nat, conflict: Option<Key>, env: Env)
    | Approving(key: Key, version: nat, agent: Agent, seen: nat)
    | Pruning(key: Key, version: nat, agent: Agent, seen: nat, now: nat)

  /**
   Logs are kept per uid, also for agents that are gone; events and lost events are counted per uid.
   The card-fetch errors and the failed health checks of the process are counted where each arises.
   */
  datatype State = State(
    cluster: Cluster,
    tasks: map<nat, Task>,
    logs: map<nat, Log>,
    fetchErrors: nat,
    failures: nat,
    announced: multiset<nat>,
    lost: multiset<nat>)

  const INIT := State(EMPTY_CLUSTER, map[], map[], 0, 0, multiset{}, multiset{})

  datatype Action =
    | CreateAgent(key: Key, spec: Spec)
    | RegisterAgent(key: Key, spec: Spec)
    | SetSpec(key: Key, spec: Spec)
    | DeleteAgent(key: Key)
    | Get(id: nat, key: Key)
    | Finalize(id: nat)
    | CheckUrl(id: nat, listed: bool, order: seq<Key>)
    | DecideStatus(id: nat, env: Env)
    | CommitStatus(id: nat)
    | GetForApproval(id: nat, key: Key)
    | CommitApproval(id: nat, now: nat)
    | ListStale(id: nat, key: Key, now: nat)
    | Prune(id: nat)
    | Lose(id: nat)

  function LogOf(s: State, uid: nat): Log {
    if uid in s.logs then s.logs[uid] else []
  }

  function OutcomeOf(t: Task): Outcome
    requires t.Decided?
  {
    Decide(t.agent.spec, t.agent.generation, t.agent.status, t.conflict, t.env)
  }

  function NewAgent(s: State, key: Key, spec: Spec): State {
    if key in s.cluster.agents then s
    else s.(cluster := Create(s.cluster, key, spec), logs := s.logs[s.cluster.nextUid := []])
  }

  /** RegisterAgent when nothing comes between its listing and its create. */
  ghost function Register(s: State, key: Key, spec: Spec): State {
    if UrlInUse(s.cluster, spec.url) then s else NewAgent(s, key, spec)
  }

  function Edit(s: State, key: Key, spec: Spec): State {
    s.(cluster := UpdateSpec(s.cluster, key, spec))
  }

  function Drop(s: State, key: Key): State {
    s.(cluster := Delete(s.cluster, key))
  }

  /** What a read of an agent remembers: its version, its value, and how many commits it has behind it. */
  datatype Reader = ForReconcile | ForApproval | ForPruning(now: nat)

  function Snapshot(s: State, key: Key, reader: Reader): Task
    requires key in s.cluster.agents
  {
    var stored := s.cluster.agents[key];
    var seen := |LogOf(s, stored.agent.uid)|;
    match reader
    case ForReconcile => Fetched(key, stored.version, stored.agent, seen)
    case ForApproval => Approving(key, stored.version, stored.agent, seen)
    case ForPruning(now) => Pruning(key, stored.version, stored.agent, seen, now)
  }

  function Read(s: State, id: nat, key: Key, reader: Reader): State {
    if id in s.tasks || key !in s.cluster.agents then s
    else if reader.ForPruning? && !Stale(s.cluster.agents[key].agent.status, reader.now) then s
    else s.(tasks := s.tasks[id := Snapshot(s, key, reader)])
  }

  /** A lost task is gone; an event it announced will not be followed by its write. */
  function Abandon(s: State, id: nat): State {
    if id !in s.tasks then s
    else
      var t := s.tasks[id];
      s.(tasks := s.tasks - {id},
         lost := if t.Decided? && Announces(OutcomeOf(t).events) then s.lost + multiset{t.agent.uid} else s.lost)
  }

  function FinalizeStep(s: State, id: nat): State {
    if id !in s.tasks || !s.tasks[id].Fetched? then s
    else
      var t := s.tasks[id];
      if t.agent.deleting then
        s.(tasks := s.tasks - {id},
           cluster := if t.agent.finalizer && Current(s.cluster, t.key, t.version) then Remove(s.cluster, t.key) else s.cluster)
      else if t.agent.finalizer then s
      else if !Current(s.cluster, t.key, t.version) then Abandon(s, id)
      else
        var a := s.cluster.agents[t.key].agent.(finalizer := true);
        s.(cluster := Put(s.cluster, t.key, a),
           tasks := s.tasks[id := Fetched(t.key, s.cluster.nextVersion, a, t.seen)])
  }

  ghost function CheckUrlStep(s: State, id: nat, listed: bool, order: seq<Key>): State {
    if id !in s.tasks || !s.tasks[id].Fetched? || !Lists(order, s.cluster) then s
    else
      var t := s.tasks[id];
      if t.agent.deleting || !t.agent.finalizer then s
      else
        var conflict := if listed then Conflict(s.cluster, order, t.key, t.agent.spec.url) else None;
        s.(tasks := s.tasks[id := UrlChecked(t.key, t.version, t.agent, t.seen, conflict)])
  }

  function DecideStep(s: State, id: nat, env: Env): State {
    if id !in s.tasks || !s.tasks[id].UrlChecked? then s
    else
      var t := s.tasks[id];
      var d := Decided(t.key, t.version, t.agent, t.seen, t.conflict, env);
      var o := OutcomeOf(d);
      s.(tasks := if o.written then s.tasks[id := d] else s.tasks - {id},
         fetchErrors := s.fetchErrors
                        + (if Probes(t.agent.spec, t.agent.status, t.conflict, env) && !env.probe.healthy then 1 else 0),
         failures := s.failures + (if o.exit == CheckFailed then 1 else 0),
         announced := if Announces(o.events) then s.announced + multiset{t.agent.uid} else s.announced)
  }

  /** A version-checked status write: it lands only on the version its writer read. */
  function WriteStatus(s: State, id: nat, status: Status, commit: Commit): State
    requires id in s.tasks
  {
    var t := s.tasks[id];
    if Current(s.cluster, t.key, t.version)
    then s.(cluster := PutStatus(s.cluster, t.key, status),
            logs := s.logs[t.agent.uid := LogOf(s, t.agent.uid) + [commit]],
            tasks := s.tasks - {id})
    else Abandon(s, id)
  }

  function CommitStep(s: State, id: nat): State {
    if id !in s.tasks || !s.tasks[id].Decided? then s
    else
      var t := s.tasks[id];
      WriteStatus(s, id, OutcomeOf(t).status, Reconciled(t.agent.spec, t.agent.generation, t.conflict, t.env))
  }

  function ApprovalStep(s: State, id: nat, now: nat): State {
    if id !in s.tasks || !s.tasks[id].Approving? then s
    else
      var t := s.tasks[id];
      WriteStatus(s, id, Approve(t.agent.status, t.agent.generation, now), Approved(t.agent.generation, now))
  }

  /** The registry deletes by name, whatever has happened to the agent since it was listed. */
  function PruneStep(s: State, id: nat): State {
    if id !in s.tasks || !s.tasks[id].Pruning? then s
    else s.(cluster := Delete(s.cluster, s.tasks[id].key), tasks := s.tasks - {id})
  }

  /** An action that cannot happen in the current state changes nothing. */
  ghost function Step(s: State, a: Action): State {
    match a
    case CreateAgent(key, spec) => NewAgent(s, key, spec)
    case RegisterAgent(key, spec) => Register(s, key, spec)
    case SetSpec(key, spec) => Edit(s, key, spec)
    case DeleteAgent(key) => Drop(s, key)
    case Get(id, key) => Read(s, id, key, ForReconcile)
    case Finalize(id) => FinalizeStep(s, id)
    case CheckUrl(id, listed, order) => CheckUrlStep(s, id, listed, order)
    case DecideStatus(id, env) => DecideStep(s, id, env)
    case CommitStatus(id) => CommitStep(s, id)
    case GetForApproval(id, key) => Read(s, id, key, ForApproval)
    case CommitApproval(id, now) => ApprovalStep(s, id, now)
    case ListStale(id, key, now) => Read(s, id, key, ForPruning(now))
    case Prune(id) => PruneStep(s, id)
    case Lose(id) => Abandon(s, id)
  }

  /** The state after a run from any starting state. */
  ghost function RunFrom(s: State, actions: seq<Action>): State {
    if actions == [] then s else Step(RunFrom(s, actions[..|actions| - 1]), actions[|actions| - 1])
  }

  ghost function Run(actions: seq<Action>): State {
    RunFrom(INIT, actions)
  }

  // ----- serializability: the store always holds the replay of the committed log

  ghost predicate StoredOk(s: State, key: Key)
    requires key in s.cluster.agents
  {
    var stored := s.cluster.agents[key];
    && stored.version < s.cluster.nextVersion
    && stored.agent.uid in s.logs
    && stored.agent.status == Replay(s.logs[stored.agent.uid])
  }

  /** A task's snapshot is a committed state of its agent, and the present one while the version is current. */
  ghost predicate TaskOk(s: State, t: Task) {
    && t.version < s.cluster.nextVersion
    && t.agent.uid in s.logs
    && t.seen <= |s.logs[t.agent.uid]|
    && t.agent.status == Replay(s.logs[t.agent.uid][..t.seen])
    && (Current(s.cluster, t.key, t.version) ==> s.cluster.agents[t.key].agent == t.agent && t.seen == |s.logs[t.agent.uid]|)
    && (t.Decided? ==> OutcomeOf(t).written)
    && (t.Pruning? ==> Stale(t.agent.status, t.now))
  }

  ghost predicate Inv(s: State) {
    && (forall k :: k in s.cluster.agents ==> StoredOk(s, k))
    && (forall k, j :: k in s.cluster.agents && j in s.cluster.agents && k != j ==>
                         s.cluster.agents[k].agent.uid != s.cluster.agents[j].agent.uid)
    && (forall id :: id in s.tasks ==> TaskOk(s, s.tasks[id]))
    && (forall uid :: uid in s.logs ==> uid < s.cluster.nextUid)
  }

  /** Logs only grow, versions are never reused, and what keeps its version is untouched. */
  ghost predicate Evolves(s: State, s': State) {
    && s.cluster.nextVersion <= s'.cluster.nextVersion
    && (forall uid :: uid in s.logs ==> uid in s'.logs && s.logs[uid] <= s'.logs[uid])
    && (forall k :: k in s'.cluster.agents && s'.cluster.agents[k].version < s.cluster.nextVersion ==>
          && k in s.cluster.agents && s'.cluster.agents[k] == s.cluster.agents[k]
          && LogOf(s', s.cluster.agents[k].agent.uid) == LogOf(s, s.cluster.agents[k].agent.uid))
  }

  lemma TaskOkStable(s: State, s': State, t: Task)
    requires TaskOk(s, t) && Evolves(s, s')
    ensures TaskOk(s', t)
  {
    hide Decide, Replay;
    assert s'.logs[t.agent.uid][..t.seen] == s.logs[t.agent.uid][..t.seen];
  }

  lemma TasksStable(s: State, s': State)
    requires Inv(s) && Evolves(s, s')
    requires forall id :: id in s'.tasks ==> (id in s.tasks && s'.tasks[id] == s.tasks[id]) || TaskOk(s', s'.tasks[id])
    ensures forall id :: id in s'.tasks ==> TaskOk(s', s'.tasks[id])
  {
    hide Decide, Replay, StoredOk;
    forall id | id in s'.tasks && id in s.tasks && s'.tasks[id] == s.tasks[id] ensures TaskOk(s', s'.tasks[id]) {
      TaskOkStable(s, s', s.tasks[id]);
    }
  }

  /** A step that keeps the invariant and only moves forward. */
  ghost predicate Good(s: State, s': State) {
    Inv(s') && Evolves(s, s')
  }

  lemma WriteEvolves(s: State, s': State, key: Key, agent: Agent, log: Log)
    requires Inv(s) && key in s.cluster.agents && agent.uid == s.cluster.agents[key].agent.uid
    requires agent.uid in s.logs && s.logs[agent.uid] <= log
    requires s'.cluster == Put(s.cluster, key, agent) && s'.logs == s.logs[agent.uid := log]
    ensures Evolves(s, s')
  {
    hide Decide, Replay, TaskOk, StoredOk;
  }

  /** A write of one live agent that keeps its uid and appends to its log at most. */
  lemma WriteKeeps(s: State, s': State, key: Key, agent: Agent, log: Log)
    requires Inv(s) && key in s.cluster.agents
    requires agent.uid == s.cluster.agents[key].agent.uid && agent.status == Replay(log)
    requires agent.uid in s.logs && s.logs[agent.uid] <= log
    requires s'.cluster == Put(s.cluster, key, agent) && s'.logs == s.logs[agent.uid := log]
    requires forall id :: id in s'.tasks ==> (id in s.tasks && s'.tasks[id] == s.tasks[id]) || TaskOk(s', s'.tasks[id])
    ensures Good(s, s')
  {
    hide Decide, Replay, TaskOk;
    WriteEvolves(s, s', key, agent, log);
    hide Evolves;
    TasksStable(s, s');
    forall k | k in s'.cluster.agents ensures StoredOk(s', k) {
      assert k in s.cluster.agents && StoredOk(s, k);
    }
  }

  lemma FreshUid(s: State)
    requires Inv(s)
    ensures s.cluster.nextUid !in s.logs
    ensures forall k :: k in s.cluster.agents ==> s.cluster.agents[k].agent.uid < s.cluster.nextUid
  {
    hide Replay, TaskOk;
    forall k | k in s.cluster.agents ensures s.cluster.agents[k].agent.uid < s.cluster.nextUid {
      assert StoredOk(s, k);
    }
  }

  lemma NewAgentEvolves(s: State, key: Key, spec: Spec)
    requires Inv(s) && key !in s.cluster.agents
    ensures Evolves(s, NewAgent(s, key, spec))
  {
    hide Replay, TaskOk, StoredOk;
    FreshUid(s);
  }

  lemma NewAgentKeeps(s: State, key: Key, spec: Spec)
    requires Inv(s)
    ensures Good(s, NewAgent(s, key, spec))
  {
    assert Replay([]) == EMPTY_STATUS;
    hide Replay, TaskOk;
    var s' := NewAgent(s, key, spec);
    if key !in s.cluster.agents {
      FreshUid(s);
      NewAgentEvolves(s, key, spec);
      hide Evolves;
      TasksStable(s, s');
      forall k | k in s'.cluster.agents ensures StoredOk(s', k) {
        if k != key {
          assert StoredOk(s, k);
        }
      }
    }
  }

  /** Removing agents and replacing tasks by good ones keeps everything. */
  lemma ShrinkKeeps(s: State, s': State)
    requires Inv(s) && s'.logs == s.logs
    requires s'.cluster.nextVersion == s.cluster.nextVersion && s'.cluster.nextUid == s.cluster.nextUid
    requires forall k :: k in s'.cluster.agents ==> k in s.cluster.agents && s'.cluster.agents[k] == s.cluster.agents[k]
    requires forall id :: id in s'.tasks ==> (id in s.tasks && s'.tasks[id] == s.tasks[id]) || TaskOk(s', s'.tasks[id])
    ensures Good(s, s')
  {
    hide Decide, Replay, TaskOk;
    TasksStable(s, s');
    forall k | k in s'.cluster.agents ensures StoredOk(s', k) {
      assert StoredOk(s, k);
    }
  }

  lemma DeleteKeeps(s: State, s': State, key: Key)
    requires Inv(s) && s'.cluster == Delete(s.cluster, key) && s'.logs == s.logs
    requires forall id :: id in s'.tasks ==> id in s.tasks && s'.tasks[id] == s.tasks[id]
    ensures Good(s, s')
  {
    hide Replay, TaskOk;
    if key in s.cluster.agents && s.cluster.agents[key].agent.finalizer && !s.cluster.agents[key].agent.deleting {
      var a := s.cluster.agents[key].agent;
      assert StoredOk(s, key) && s'.logs == s.logs[a.uid := s.logs[a.uid]];
      WriteKeeps(s, s', key, a.(deleting := true), s.logs[a.uid]);
    } else {
      ShrinkKeeps(s, s');
    }
  }

  lemma EditKeeps(s: State, key: Key, spec: Spec)
    requires Inv(s)
    ensures Good(s, Edit(s, key, spec))
  {
    hide Replay, TaskOk;
    if key in s.cluster.agents {
      var x := s.cluster.agents[key].agent;
      assert StoredOk(s, key) && s.logs == s.logs[x.uid := s.logs[x.uid]];
      WriteKeeps(s, Edit(s, key, spec), key, x.(spec := spec, generation := x.generation + 1), s.logs[x.uid]);
    } else {
      ShrinkKeeps(s, s);
    }
  }

  lemma ReadKeeps(s: State, id: nat, key: Key, reader: Reader)
    requires Inv(s)
    ensures Good(s, Read(s, id, key, reader))
  {
    hide Decide, Replay;
    var s' := Read(s, id, key, reader);
    if s' != s {
      var uid := s.cluster.agents[key].agent.uid;
      assert StoredOk(s, key) && s.logs[uid][..|s.logs[uid]|] == s.logs[uid];
      assert TaskOk(s', s'.tasks[id]);
    }
    ShrinkKeeps(s, s');
  }

  lemma AbandonKeeps(s: State, id: nat)
    requires Inv(s)
    ensures Good(s, Abandon(s, id))
  {
    hide Decide, Replay, TaskOk;
    ShrinkKeeps(s, Abandon(s, id));
  }

  lemma FinalizeKeeps(s: State, id: nat)
    requires Inv(s)
    ensures Good(s, FinalizeStep(s, id))
  {
    hide Decide, Replay, Good;
    var s' := FinalizeStep(s, id);
    if id !in s.tasks || !s.tasks[id].Fetched? || s.tasks[id].agent.deleting || s.tasks[id].agent.finalizer {
      ShrinkKeeps(s, s');
    } else {
      var t := s.tasks[id];
      assert TaskOk(s, t);
      if Current(s.cluster, t.key, t.version) {
        var a := t.agent.(finalizer := true);
        assert s.logs == s.logs[a.uid := s.logs[a.uid]] && s.logs[a.uid][..t.seen] == s.logs[a.uid];
        assert TaskOk(s', s'.tasks[id]);
        WriteKeeps(s, s', t.key, a, s.logs[a.uid]);
      } else {
        AbandonKeeps(s, id);
      }
    }
  }

  lemma CheckUrlKeeps(s: State, id: nat, listed: bool, order: seq<Key>)
    requires Inv(s)
    ensures Good(s, CheckUrlStep(s, id, listed, order))
  {
    hide Decide, Replay, Good, Conflict;
    var s' := CheckUrlStep(s, id, listed, order);
    if s' != s {
      assert TaskOk(s, s.tasks[id]);
      assert TaskOk(s', s'.tasks[id]);
    }
    ShrinkKeeps(s, s');
  }

  lemma DecideStepKeeps(s: State, id: nat, env: Env)
    requires Inv(s)
    ensures Good(s, DecideStep(s, id, env))
  {
    hide Decide, Replay, Good;
    var s' := DecideStep(s, id, env);
    if id in s.tasks && s.tasks[id].UrlChecked? {
      assert TaskOk(s, s.tasks[id]);
      assert id in s'.tasks ==> TaskOk(s', s'.tasks[id]);
    }
    ShrinkKeeps(s, s');
  }

  lemma WriteStatusKeeps(s: State, id: nat, status: Status, commit: Commit)
    requires Inv(s) && id in s.tasks && status == Apply(s.tasks[id].agent.status, commit)
    ensures Good(s, WriteStatus(s, id, status, commit))
  {
    hide Decide, Apply, Good;
    var t := s.tasks[id];
    assert TaskOk(s, t);
    if Current(s.cluster, t.key, t.version) {
      var log := s.logs[t.agent.uid];
      assert log[..t.seen] == log && (log + [commit])[..|log|] == log;
      WriteKeeps(s, WriteStatus(s, id, status, commit), t.key, t.agent.(status := status), log + [commit]);
    } else {
      AbandonKeeps(s, id);
    }
  }

  lemma CommitKeeps(s: State, id: nat)
    requires Inv(s)
    ensures Good(s, CommitStep(s, id))
  {
    hide Decide, Replay, Approve, Inv, Good, WriteStatus;
    if id in s.tasks && s.tasks[id].Decided? {
      var t := s.tasks[id];
      WriteStatusKeeps(s, id, OutcomeOf(t).status, Reconciled(t.agent.spec, t.agent.generation, t.conflict, t.env));
    } else {
      ShrinkKeeps(s, s);
    }
  }

  lemma ApprovalKeeps(s: State, id: nat, now: nat)
    requires Inv(s)
    ensures Good(s, ApprovalStep(s, id, now))
  {
    hide Decide, Replay, Approve, Inv, Good, WriteStatus;
    if id in s.tasks && s.tasks[id].Approving? {
      var t := s.tasks[id];
      WriteStatusKeeps(s, id, Approve(t.agent.status, t.agent.generation, now), Approved(t.agent.generation, now));
    } else {
      ShrinkKeeps(s, s);
    }
  }

  lemma PruneKeeps(s: State, id: nat)
    requires Inv(s)
    ensures Good(s, PruneStep(s, id))
  {
    hide Replay, TaskOk, Good, Delete;
    if id in s.tasks && s.tasks[id].Pruning? {
      DeleteKeeps(s, PruneStep(s, id), s.tasks[id].key);
    } else {
      ShrinkKeeps(s, s);
    }
  }

  lemma StepKeeps(s: State, a: Action)
    requires Inv(s)
    ensures Good(s, Step(s, a))
  {
    hide Good, Inv, NewAgent, Read, FinalizeStep, DecideStep, CheckUrlStep, CommitStep, ApprovalStep, PruneStep, Abandon, Delete, Edit;
    match a
    case CreateAgent(key, spec) => NewAgentKeeps(s, key, spec);
    case RegisterAgent(key, spec) => NewAgentKeeps(s, key, spec); ShrinkKeeps(s, s);
    case SetSpec(key, spec) => EditKeeps(s, key, spec);
    case DeleteAgent(key) => DeleteKeeps(s, Drop(s, key), key);
    case Get(id, key) => ReadKeeps(s, id, key, ForReconcile);
    case Finalize(id) => FinalizeKeeps(s, id);
    case CheckUrl(id, listed, order) => CheckUrlKeeps(s, id, listed, order);
    case DecideStatus(id, env) => DecideStepKeeps(s, id, env);
    case CommitStatus(id) => CommitKeeps(s, id);
    case GetForApproval(id, key) => ReadKeeps(s, id, key, ForApproval);
    case CommitApproval(id, now) => ApprovalKeeps(s, id, now);
    case ListStale(id, key, now) => ReadKeeps(s, id, key, ForPruning(now));
    case Prune(id) => PruneKeeps(s, id);
    case Lose(id) => AbandonKeeps(s, id);
  }

  /**
   In every run, whatever the interleaving, every stored status is the replay of the writes committed
   for that agent, in commit order, each applied to the status the one before left.
   */
  lemma {:induction false} RunsAreSerial(actions: seq<Action>)
    ensures Inv(Run(actions))
  {
    if actions != [] {
      RunsAreSerial(actions[..|actions| - 1]);
      StepKeeps(Run(actions[..|actions| - 1]), actions[|actions| - 1]);
    }
  }
}
