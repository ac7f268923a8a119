/** URLs over all runs: who may be Ready, and what registration through the API guarantees. */
module Urls {
  import opened Types
  import opened Conditions
  import opened Lifecycle
  import opened Store
  import opened History
  import opened Protocol

  // ----- one Ready agent per URL

  /** Everyone else with this URL was created later. */
  ghost predicate Oldest(c: Cluster, key: Key, uid: nat, url: string) {
    forall j :: j in c.agents && j != key && Url(c, j) == url ==> uid < c.agents[j].agent.uid
  }

  /** A reconcile that has passed the URL gate, by finding no conflict or by failing to list. */
  predicate Cleared(t: Task) {
    (t.UrlChecked? || t.Decided?) && t.conflict.None?
  }

  /** While its write could still land, a cleared task belongs to the oldest holder of its URL. */
  ghost predicate ClearedOk(c: Cluster, t: Task) {
    Cleared(t) && Current(c, t.key, t.version) ==> Oldest(c, t.key, t.agent.uid, t.agent.spec.url)
  }

  ghost predicate UrlInv(s: State) {
    && (forall k :: k in s.cluster.agents && s.cluster.agents[k].agent.status.phase == Ready ==>
                    Oldest(s.cluster, k, s.cluster.agents[k].agent.uid, Url(s.cluster, k)))
    && (forall id :: id in s.tasks ==> ClearedOk(s.cluster, s.tasks[id]))
  }

  /** The agent is Ready, or a write in flight may still make it so. */
  ghost predicate Entitled(s: State, key: Key)
    requires key in s.cluster.agents
  {
    || s.cluster.agents[key].agent.status.phase == Ready
    || exists id :: id in s.tasks && Cleared(s.tasks[id]) && s.tasks[id].key == key && Current(s.cluster, key, s.tasks[id].version)
  }

  /** An agent that is Ready moves below the other holders of the new URL only, and nobody moves below one that is entitled to it. */
  ghost predicate EditFits(s: State, key: Key, url: string) {
    key in s.cluster.agents ==>
      var a := s.cluster.agents[key].agent;
      && (a.status.phase == Ready ==> Oldest(s.cluster, key, a.uid, url))
      && forall j :: j in s.cluster.agents && j != key && Url(s.cluster, j) == url && Entitled(s, j) ==>
                     s.cluster.agents[j].agent.uid < a.uid
  }

  /** The task is about to list for URL conflicts. */
  ghost predicate AtUrlGate(s: State, id: nat, order: seq<Key>) {
    && id in s.tasks && s.tasks[id].Fetched? && !s.tasks[id].agent.deleting && s.tasks[id].agent.finalizer
    && Lists(order, s.cluster)
  }

  /** A listing may fail for the oldest holder of a URL, and for a reconcile whose write will be refused. */
  ghost predicate FailureFits(s: State, id: nat, order: seq<Key>) {
    AtUrlGate(s, id, order) ==>
      var t := s.tasks[id];
      Current(s.cluster, t.key, t.version) ==> Oldest(s.cluster, t.key, t.agent.uid, t.agent.spec.url)
  }

  /** What edits and failed listings may do; nothing else is restricted. */
  ghost predicate KeepsUrls(s: State, a: Action) {
    && (a.SetSpec? ==> EditFits(s, a.key, a.spec.url))
    && (a.CheckUrl? && !a.listed ==> FailureFits(s, a.id, a.order))
  }

  ghost predicate UrlsKept(actions: seq<Action>) {
    actions != [] ==> UrlsKept(actions[..|actions| - 1]) && KeepsUrls(Run(actions[..|actions| - 1]), actions[|actions| - 1])
  }

  /** Uids and URLs stay, agents may go, and nobody becomes Ready except possibly the one named. */
  ghost predicate UrlsPersist(c: Cluster, c': Cluster, but: Option<Key>) {
    forall k :: k in c'.agents ==>
      && k in c.agents && c'.agents[k].agent.uid == c.agents[k].agent.uid && Url(c', k) == Url(c, k)
      && (c'.agents[k].agent.status.phase == Ready && but != Some(k) ==> c.agents[k].agent.status.phase == Ready)
  }

  lemma OldestPersists(c: Cluster, c': Cluster, but: Option<Key>, key: Key, uid: nat, url: string)
    requires UrlsPersist(c, c', but) && Oldest(c, key, uid, url)
    ensures Oldest(c', key, uid, url)
  {
  }

  /** Versions are never reused, so a task that is current now was current before. */
  lemma CurrentBefore(s: State, s': State, t: Task)
    requires TaskOk(s, t) && Evolves(s, s') && Current(s'.cluster, t.key, t.version)
    ensures Current(s.cluster, t.key, t.version)
  {
    hide Decide, Replay;
  }

  lemma ClearedPersists(s: State, s': State, but: Option<Key>, t: Task)
    requires TaskOk(s, t) && Evolves(s, s') && UrlsPersist(s.cluster, s'.cluster, but) && ClearedOk(s.cluster, t)
    ensures ClearedOk(s'.cluster, t)
  {
    hide TaskOk, Evolves, Oldest, UrlsPersist;
    if Cleared(t) && Current(s'.cluster, t.key, t.version) {
      CurrentBefore(s, s', t);
      OldestPersists(s.cluster, s'.cluster, but, t.key, t.agent.uid, t.agent.spec.url);
    }
  }

  lemma UrlInvPersists(s: State, s': State, but: Option<Key>)
    requires Inv(s) && Evolves(s, s') && UrlInv(s) && UrlsPersist(s.cluster, s'.cluster, but)
    requires forall id :: id in s'.tasks ==> (id in s.tasks && s'.tasks[id] == s.tasks[id]) || ClearedOk(s'.cluster, s'.tasks[id])
    requires forall k :: but == Some(k) && k in s'.cluster.agents && s'.cluster.agents[k].agent.status.phase == Ready ==>
                         Oldest(s.cluster, k, s.cluster.agents[k].agent.uid, Url(s.cluster, k))
    ensures UrlInv(s')
  {
    hide TaskOk, StoredOk, Evolves, ClearedOk;
    forall k | k in s'.cluster.agents && s'.cluster.agents[k].agent.status.phase == Ready
      ensures Oldest(s'.cluster, k, s'.cluster.agents[k].agent.uid, Url(s'.cluster, k))
    {
      OldestPersists(s.cluster, s'.cluster, but, k, s.cluster.agents[k].agent.uid, Url(s.cluster, k));
    }
    forall id | id in s'.tasks ensures ClearedOk(s'.cluster, s'.tasks[id]) {
      if id in s.tasks && s'.tasks[id] == s.tasks[id] {
        ClearedPersists(s, s', but, s.tasks[id]);
      }
    }
  }

  /** A younger agent makes no difference to who is oldest. */
  lemma OldestNewAgent(c: Cluster, key: Key, spec: Spec, k: Key, uid: nat, url: string)
    requires key !in c.agents && uid < c.nextUid && Oldest(c, k, uid, url)
    ensures Oldest(Create(c, key, spec), k, uid, url)
  {
  }

  lemma UidsBelow(s: State)
    requires Inv(s)
    ensures forall k :: k in s.cluster.agents ==> s.cluster.agents[k].agent.uid < s.cluster.nextUid
    ensures forall id :: id in s.tasks ==> s.tasks[id].agent.uid < s.cluster.nextUid && s.tasks[id].version < s.cluster.nextVersion
  {
    hide Replay;
    forall k | k in s.cluster.agents ensures s.cluster.agents[k].agent.uid < s.cluster.nextUid {
      assert StoredOk(s, k);
    }
    forall id | id in s.tasks ensures s.tasks[id].agent.uid < s.cluster.nextUid && s.tasks[id].version < s.cluster.nextVersion {
      assert TaskOk(s, s.tasks[id]);
    }
  }

  /** A new agent is the youngest and is not Ready. */
  lemma UrlInvNewAgent(s: State, key: Key, spec: Spec)
    requires Inv(s) && UrlInv(s)
    ensures UrlInv(NewAgent(s, key, spec))
  {
    UidsBelow(s);
    hide Inv, Oldest;
    var s' := NewAgent(s, key, spec);
    if key !in s.cluster.agents {
      forall id | id in s'.tasks ensures ClearedOk(s'.cluster, s'.tasks[id]) {
        var t := s.tasks[id];
        if Cleared(t) && Current(s'.cluster, t.key, t.version) {
          assert ClearedOk(s.cluster, t);
          OldestNewAgent(s.cluster, key, spec, t.key, t.agent.uid, t.agent.spec.url);
        }
      }
      forall k | k in s'.cluster.agents && s'.cluster.agents[k].agent.status.phase == Ready
        ensures Oldest(s'.cluster, k, s'.cluster.agents[k].agent.uid, Url(s'.cluster, k))
      {
        OldestNewAgent(s.cluster, key, spec, k, s.cluster.agents[k].agent.uid, Url(s.cluster, k));
      }
    }
  }

  lemma OnlyClearedBecomeReady(t: Task)
    requires t.Decided? && OutcomeOf(t).status.phase == Ready
    ensures t.conflict.None?
  {
    hide Decide;
    ExitOrder(t.agent.spec, t.agent.generation, t.agent.status, t.conflict, t.env);
    ExitFrame(t.agent.spec, t.agent.generation, t.agent.status, t.conflict, t.env);
  }

  lemma UrlCommit(s: State, id: nat)
    requires Inv(s) && UrlInv(s)
    ensures UrlInv(CommitStep(s, id))
  {
    hide Decide, Replay, Evolves, StoredOk;
    CommitKeeps(s, id);
    if id in s.tasks && s.tasks[id].Decided? {
      var t := s.tasks[id];
      assert TaskOk(s, t) && ClearedOk(s.cluster, t);
      if OutcomeOf(t).status.phase == Ready {
        OnlyClearedBecomeReady(t);
      }
      UrlInvPersists(s, CommitStep(s, id), Some(t.key));
    }
  }

  lemma UrlApproval(s: State, id: nat, now: nat)
    requires Inv(s) && UrlInv(s)
    ensures UrlInv(ApprovalStep(s, id, now))
  {
    hide Decide, Replay, Merge, Evolves, StoredOk;
    ApprovalKeeps(s, id, now);
    if id in s.tasks && s.tasks[id].Approving? {
      assert TaskOk(s, s.tasks[id]);
      UrlInvPersists(s, ApprovalStep(s, id, now), None);
    }
  }

  /** The URL gate does its work exactly when it could list, or the one it let through was the oldest anyway. */
  lemma GateKeepsUrlsIff(s: State, id: nat, listed: bool, order: seq<Key>)
    requires Inv(s) && UrlInv(s)
    ensures UrlInv(CheckUrlStep(s, id, listed, order)) <==> listed || FailureFits(s, id, order)
  {
    hide Decide, Conflict, Replay, Evolves, StoredOk, Oldest;
    var s' := CheckUrlStep(s, id, listed, order);
    if AtUrlGate(s, id, order) {
      var t := s.tasks[id];
      CheckUrlKeeps(s, id, listed, order);
      ConflictIffTaken(s.cluster, order, t.key, t.agent.spec.url);
      NotTakenIsOldest(s.cluster, t.key, t.agent.uid, t.agent.spec.url);
      if listed || FailureFits(s, id, order) {
        assert ClearedOk(s'.cluster, s'.tasks[id]);
        UrlInvPersists(s, s', None);
      } else {
        assert !ClearedOk(s'.cluster, s'.tasks[id]);
      }
    }
  }

  lemma NotTakenIsOldest(c: Cluster, key: Key, uid: nat, url: string)
    ensures !Taken(c, key, url) ==> Oldest(c, key, uid, url)
  {
  }

  lemma UrlDecide(s: State, id: nat, env: Env)
    requires Inv(s) && UrlInv(s)
    ensures UrlInv(DecideStep(s, id, env))
  {
    hide Decide, Replay, Evolves, StoredOk, TaskOk;
    DecideStepKeeps(s, id, env);
    if id in s.tasks {
      assert ClearedOk(s.cluster, s.tasks[id]);
    }
    UrlInvPersists(s, DecideStep(s, id, env), None);
  }

  /** Steps after which every stored agent is an old one with its old uid, URL and phase. */
  lemma UrlCalm(s: State, s': State)
    requires Inv(s) && Good(s, s') && UrlInv(s) && UrlsPersist(s.cluster, s'.cluster, None)
    requires forall id :: id in s'.tasks ==> (id in s.tasks && s'.tasks[id] == s.tasks[id])
                                             || !(s'.tasks[id].UrlChecked? || s'.tasks[id].Decided?)
    ensures UrlInv(s')
  {
    hide Inv, UrlInv, UrlsPersist, Evolves;
    UrlInvPersists(s, s', None);
  }

  lemma UrlDelete(s: State, s': State, key: Key)
    requires Inv(s) && UrlInv(s) && s'.cluster == Delete(s.cluster, key) && s'.logs == s.logs
    requires forall id :: id in s'.tasks ==> id in s.tasks && s'.tasks[id] == s.tasks[id]
    ensures UrlInv(s')
  {
    hide UrlInv, Inv, Good;
    DeleteKeeps(s, s', key);
    UrlCalm(s, s');
  }

  lemma UrlRead(s: State, id: nat, key: Key, reader: Reader)
    requires Inv(s) && UrlInv(s)
    ensures UrlInv(Read(s, id, key, reader))
  {
    hide UrlInv, Inv, Good;
    ReadKeeps(s, id, key, reader);
    UrlCalm(s, Read(s, id, key, reader));
  }

  lemma UrlLose(s: State, id: nat)
    requires Inv(s) && UrlInv(s)
    ensures UrlInv(Abandon(s, id))
  {
    hide Decide, UrlInv, Inv, Good;
    AbandonKeeps(s, id);
    UrlCalm(s, Abandon(s, id));
  }

  lemma PutPersists(c: Cluster, key: Key, agent: Agent)
    requires key in c.agents && agent.uid == c.agents[key].agent.uid && agent.spec.url == Url(c, key)
    requires agent.status == c.agents[key].agent.status
    ensures UrlsPersist(c, Put(c, key, agent), None)
  {
  }

  lemma UrlFinalize(s: State, id: nat)
    requires Inv(s) && UrlInv(s)
    ensures UrlInv(FinalizeStep(s, id))
  {
    hide Decide, Replay, UrlInv, StoredOk, Good;
    FinalizeKeeps(s, id);
    if id in s.tasks && s.tasks[id].Fetched? && !s.tasks[id].agent.deleting && !s.tasks[id].agent.finalizer {
      var t := s.tasks[id];
      assert TaskOk(s, t);
      hide Inv, TaskOk;
      if Current(s.cluster, t.key, t.version) {
        PutPersists(s.cluster, t.key, t.agent.(finalizer := true));
        hide Put, UrlsPersist;
        UrlCalm(s, FinalizeStep(s, id));
      } else {
        UrlLose(s, id);
      }
    } else {
      hide Inv;
      UrlCalm(s, FinalizeStep(s, id));
    }
  }

  // ----- edits

  /** An entitled agent is the oldest holder of its URL. */
  lemma EntitledIsOldest(s: State, key: Key)
    requires Inv(s) && UrlInv(s) && key in s.cluster.agents && Entitled(s, key)
    ensures Oldest(s.cluster, key, s.cluster.agents[key].agent.uid, Url(s.cluster, key))
  {
    hide Decide, Replay, Oldest, StoredOk;
    if s.cluster.agents[key].agent.status.phase != Ready {
      var id :| id in s.tasks && Cleared(s.tasks[id]) && s.tasks[id].key == key && Current(s.cluster, key, s.tasks[id].version);
      assert TaskOk(s, s.tasks[id]) && ClearedOk(s.cluster, s.tasks[id]);
    }
  }

  lemma OldestAfterEdit(c: Cluster, key: Key, spec: Spec, k: Key, uid: nat, url: string)
    requires key in c.agents
    ensures Oldest(UpdateSpec(c, key, spec), key, uid, url) <==> Oldest(c, key, uid, url)
    ensures k != key && Oldest(c, k, uid, url) && (url == spec.url ==> uid < c.agents[key].agent.uid) ==>
              Oldest(UpdateSpec(c, key, spec), k, uid, url)
    ensures k != key && Oldest(UpdateSpec(c, key, spec), k, uid, url) && url == spec.url ==> uid < c.agents[key].agent.uid
  {
    var c' := UpdateSpec(c, key, spec);
    assert forall j :: j in c.agents && j != key ==> c'.agents[j] == c.agents[j];
    assert Url(c', key) == spec.url && c'.agents[key].agent.uid == c.agents[key].agent.uid;
  }

  lemma FittingEdit(s: State, key: Key, spec: Spec)
    requires Inv(s) && UrlInv(s) && key in s.cluster.agents && EditFits(s, key, spec.url)
    ensures UrlInv(Edit(s, key, spec))
  {
    hide Decide, Replay, Oldest, StoredOk;
    var s' := Edit(s, key, spec);
    forall k | k in s'.cluster.agents && s'.cluster.agents[k].agent.status.phase == Ready
      ensures Oldest(s'.cluster, k, s'.cluster.agents[k].agent.uid, Url(s'.cluster, k))
    {
      if k != key {
        assert Entitled(s, k);
      }
      OldestAfterEdit(s.cluster, key, spec, k, s.cluster.agents[k].agent.uid, Url(s'.cluster, k));
    }
    forall id | id in s'.tasks ensures ClearedOk(s'.cluster, s'.tasks[id]) {
      var t := s.tasks[id];
      assert TaskOk(s, t) && ClearedOk(s.cluster, t);
      if Cleared(t) && Current(s'.cluster, t.key, t.version) {
        assert t.key != key && Current(s.cluster, t.key, t.version);
        assert Entitled(s, t.key);
        OldestAfterEdit(s.cluster, key, spec, t.key, t.agent.uid, t.agent.spec.url);
      }
    }
  }

  lemma OnlyFittingEdits(s: State, key: Key, spec: Spec)
    requires Inv(s) && key in s.cluster.agents && UrlInv(Edit(s, key, spec))
    ensures EditFits(s, key, spec.url)
  {
    hide Decide, Replay, Oldest, StoredOk, TaskOk;
    var s' := Edit(s, key, spec);
    var a := s.cluster.agents[key].agent;
    OldestAfterEdit(s.cluster, key, spec, key, a.uid, spec.url);
    assert Url(s'.cluster, key) == spec.url;
    forall j | j in s.cluster.agents && j != key && Url(s.cluster, j) == spec.url && Entitled(s, j)
      ensures s.cluster.agents[j].agent.uid < a.uid
    {
      assert s'.cluster.agents[j] == s.cluster.agents[j];
      EntitledAfterEdit(s, key, spec, j);
      OldestAfterEdit(s.cluster, key, spec, j, s.cluster.agents[j].agent.uid, spec.url);
    }
  }

  lemma EntitledAfterEdit(s: State, key: Key, spec: Spec, j: Key)
    requires Inv(s) && key in s.cluster.agents && UrlInv(Edit(s, key, spec))
    requires j in s.cluster.agents && j != key && Entitled(s, j)
    ensures Oldest(Edit(s, key, spec).cluster, j, s.cluster.agents[j].agent.uid, Url(s.cluster, j))
  {
    hide Decide, Replay, Oldest, StoredOk;
    var s' := Edit(s, key, spec);
    assert s'.cluster.agents[j] == s.cluster.agents[j];
    if s.cluster.agents[j].agent.status.phase == Ready {
      assert Oldest(s'.cluster, j, s'.cluster.agents[j].agent.uid, Url(s'.cluster, j));
    } else {
      var id :| id in s.tasks && Cleared(s.tasks[id]) && s.tasks[id].key == j && Current(s.cluster, j, s.tasks[id].version);
      assert TaskOk(s, s.tasks[id]) && ClearedOk(s'.cluster, s'.tasks[id]);
    }
  }

  /** An edit keeps the Ready agents the oldest holders of their URLs exactly when it fits. */
  lemma EditKeepsUrlsIff(s: State, key: Key, spec: Spec)
    requires Inv(s) && UrlInv(s)
    ensures UrlInv(Edit(s, key, spec)) <==> EditFits(s, key, spec.url)
  {
    hide UrlInv, EditFits, Inv;
    if key in s.cluster.agents {
      if EditFits(s, key, spec.url) {
        FittingEdit(s, key, spec);
      }
      if UrlInv(Edit(s, key, spec)) {
        OnlyFittingEdits(s, key, spec);
      }
    } else {
      assert EditFits(s, key, spec.url) by { AbsentFits(s, key, spec.url); }
    }
  }

  lemma AbsentFits(s: State, key: Key, url: string)
    requires key !in s.cluster.agents
    ensures EditFits(s, key, url)
  {
  }

  // ----- every step, and every run

  lemma UrlOther(s: State, a: Action)
    requires Inv(s) && UrlInv(s) && (a.DeleteAgent? || a.Prune? || a.Lose?)
    ensures UrlInv(Step(s, a))
  {
    hide Decide, UrlInv, Inv, UrlsPersist, Delete;
    match a
    case DeleteAgent(key) => UrlDelete(s, Drop(s, key), key);
    case Prune(id) => if id in s.tasks && s.tasks[id].Pruning? { UrlDelete(s, PruneStep(s, id), s.tasks[id].key); }
    case Lose(id) => UrlLose(s, id);
  }

  /** No other action can disturb who may be Ready, and these two do exactly when they do not fit. */
  lemma StepKeepsUrlsIff(s: State, a: Action)
    requires Inv(s) && UrlInv(s)
    ensures UrlInv(Step(s, a)) <==> KeepsUrls(s, a)
  {
    if a.DeleteAgent? || a.Prune? || a.Lose? {
      UrlOther(s, a);
    } else {
      hide Inv, UrlInv, NewAgent, Read, FinalizeStep, DecideStep, CheckUrlStep, CommitStep, ApprovalStep, EditFits, FailureFits, Edit;
      match a
      case CreateAgent(key, spec) => UrlInvNewAgent(s, key, spec);
      case RegisterAgent(key, spec) => UrlInvNewAgent(s, key, spec);
      case SetSpec(key, spec) => EditKeepsUrlsIff(s, key, spec);
      case Get(id, key) => UrlRead(s, id, key, ForReconcile);
      case Finalize(id) => UrlFinalize(s, id);
      case CheckUrl(id, listed, order) => GateKeepsUrlsIff(s, id, listed, order);
      case DecideStatus(id, env) => UrlDecide(s, id, env);
      case CommitStatus(id) => UrlCommit(s, id);
      case GetForApproval(id, key) => UrlRead(s, id, key, ForApproval);
      case CommitApproval(id, now) => UrlApproval(s, id, now);
      case ListStale(id, key, now) => UrlRead(s, id, key, ForPruning(now));
    }
  }

  lemma {:induction false} UrlRun(actions: seq<Action>)
    requires UrlsKept(actions)
    ensures UrlInv(Run(actions))
  {
    hide Step;
    if actions != [] {
      UrlRun(actions[..|actions| - 1]);
      RunsAreSerial(actions[..|actions| - 1]);
      StepKeepsUrlsIff(Run(actions[..|actions| - 1]), actions[|actions| - 1]);
    }
  }

  /**
   When every edit fits, and every failed listing belonged to the oldest holder of its URL or to a
   write that is refused, a Ready agent is always the oldest holder of its URL, so no two Ready
   agents ever share one, under any mix of creates, deletes, approvals, prunes and configurations,
   and with any delay between the URL listing and the status write.
   */
  lemma OneReadyPerUrl(actions: seq<Action>, k: Key, j: Key)
    requires UrlsKept(actions)
    requires k in Run(actions).cluster.agents && j in Run(actions).cluster.agents && k != j
    requires Run(actions).cluster.agents[k].agent.status.phase == Ready && Url(Run(actions).cluster, k) == Url(Run(actions).cluster, j)
    ensures Run(actions).cluster.agents[k].agent.uid < Run(actions).cluster.agents[j].agent.uid
    ensures Run(actions).cluster.agents[j].agent.status.phase != Ready
  {
    hide Run;
    UrlRun(actions);
    var s := Run(actions);
    assert Oldest(s.cluster, k, s.cluster.agents[k].agent.uid, Url(s.cluster, k));
    assert s.cluster.agents[j].agent.status.phase == Ready ==> Oldest(s.cluster, j, s.cluster.agents[j].agent.uid, Url(s.cluster, j));
  }

  /** Every edit keeps the URL or moves to one that nobody else has, and every URL listing succeeds. */
  ghost predicate PlainStep(s: State, a: Action) {
    && (a.SetSpec? && a.key in s.cluster.agents ==> a.spec.url == Url(s.cluster, a.key) || !Taken(s.cluster, a.key, a.spec.url))
    && (a.CheckUrl? ==> a.listed)
  }

  ghost predicate PlainUrls(actions: seq<Action>) {
    actions != [] ==> PlainUrls(actions[..|actions| - 1]) && PlainStep(Run(actions[..|actions| - 1]), actions[|actions| - 1])
  }

  lemma PlainEditFits(s: State, key: Key, url: string)
    requires Inv(s) && UrlInv(s) && key in s.cluster.agents && (url == Url(s.cluster, key) || !Taken(s.cluster, key, url))
    ensures EditFits(s, key, url)
  {
    hide Inv, UrlInv, Entitled;
    forall j | j in s.cluster.agents && j != key && Url(s.cluster, j) == url && Entitled(s, j)
      ensures s.cluster.agents[j].agent.uid < s.cluster.agents[key].agent.uid
    {
      EntitledIsOldest(s, j);
    }
    if s.cluster.agents[key].agent.status.phase == Ready && url == Url(s.cluster, key) {
      assert Entitled(s, key) by { ReadyIsEntitled(s, key); }
      EntitledIsOldest(s, key);
    }
  }

  lemma ReadyIsEntitled(s: State, key: Key)
    requires key in s.cluster.agents && s.cluster.agents[key].agent.status.phase == Ready
    ensures Entitled(s, key)
  {
  }

  /** In particular URLs that are fixed after creation are kept, when no listing fails. */
  lemma {:induction false} PlainUrlsAreKept(actions: seq<Action>)
    requires PlainUrls(actions)
    ensures UrlsKept(actions)
  {
    hide Step, EditFits;
    if actions != [] {
      var rest := actions[..|actions| - 1];
      var a := actions[|actions| - 1];
      PlainUrlsAreKept(rest);
      RunsAreSerial(rest);
      UrlRun(rest);
      if a.SetSpec? {
        if a.key in Run(rest).cluster.agents {
          PlainEditFits(Run(rest), a.key, a.spec.url);
        } else {
          AbsentFits(Run(rest), a.key, a.spec.url);
        }
      }
    }
  }

  // ----- agents created through the registration API only

  /** Agents come from RegisterAgent alone, whose listing and create are not interrupted. */
  ghost predicate ApiOnly(actions: seq<Action>) {
    forall i :: 0 <= i < |actions| ==> !actions[i].CreateAgent?
  }

  /** Every edit keeps clear of the URLs of other agents. */
  ghost predicate UrlsApart(actions: seq<Action>) {
    actions != [] ==>
      var rest := actions[..|actions| - 1];
      var a := actions[|actions| - 1];
      UrlsApart(rest) && (a.SetSpec? ==> a.key !in Run(rest).cluster.agents || !Taken(Run(rest).cluster, a.key, a.spec.url))
  }

  ghost predicate Distinct(c: Cluster) {
    forall k, j :: k in c.agents && j in c.agents && k != j ==> Url(c, k) != Url(c, j)
  }

  ghost predicate NoConflictIn(log: Log) {
    forall i :: 0 <= i < |log| && log[i].Reconciled? ==> log[i].conflict.None?
  }

  /** A task that saw a conflict has been overtaken. */
  ghost predicate ConflictIsStale(c: Cluster, t: Task) {
    (t.UrlChecked? || t.Decided?) && t.conflict.Some? ==> !Current(c, t.key, t.version)
  }

  ghost predicate ApiInv(s: State) {
    && Distinct(s.cluster)
    && (forall id :: id in s.tasks ==> ConflictIsStale(s.cluster, s.tasks[id]))
    && (forall uid :: uid in s.logs ==> NoConflictIn(s.logs[uid]))
  }

  /** What is overtaken stays overtaken, because versions are never reused. */
  lemma StaleStays(s: State, s': State, t: Task)
    requires TaskOk(s, t) && Evolves(s, s') && ConflictIsStale(s.cluster, t)
    ensures ConflictIsStale(s'.cluster, t)
  {
    hide Decide, Replay;
  }

  lemma ApiTasks(s: State, s': State)
    requires Inv(s) && ApiInv(s) && Good(s, s')
    requires forall id :: id in s'.tasks ==> (id in s.tasks && s'.tasks[id] == s.tasks[id]) || ConflictIsStale(s'.cluster, s'.tasks[id])
    ensures forall id :: id in s'.tasks ==> ConflictIsStale(s'.cluster, s'.tasks[id])
  {
    hide Decide, Replay, Evolves, ConflictIsStale, TaskOk;
    forall id | id in s'.tasks ensures ConflictIsStale(s'.cluster, s'.tasks[id]) {
      if id in s.tasks && s'.tasks[id] == s.tasks[id] {
        StaleStays(s, s', s.tasks[id]);
      }
    }
  }

  /** Steps that create nobody, keep URLs and write no log. */
  lemma ApiCalm(s: State, s': State)
    requires Inv(s) && ApiInv(s) && Good(s, s')
    requires s'.logs == s.logs
    requires forall k :: k in s'.cluster.agents ==> k in s.cluster.agents && Url(s'.cluster, k) == Url(s.cluster, k)
    requires forall id :: id in s'.tasks ==> (id in s.tasks && s'.tasks[id] == s.tasks[id]) || ConflictIsStale(s'.cluster, s'.tasks[id])
    ensures ApiInv(s')
  {
    hide Decide, Replay, Good, Inv, ConflictIsStale, NoConflictIn;
    ApiTasks(s, s');
  }

  lemma ApiRegister(s: State, key: Key, spec: Spec)
    requires Inv(s) && ApiInv(s)
    ensures ApiInv(Register(s, key, spec))
  {
    hide Replay, TaskOk, StoredOk;
    var s' := Register(s, key, spec);
    if s' != s {
      NewAgentKeeps(s, key, spec);
      ApiTasks(s, s');
      assert NoConflictIn([]);
      forall k | k in s'.cluster.agents && k != key ensures Url(s'.cluster, k) != spec.url {
        assert k in s.cluster.agents && Url(s.cluster, k) == Url(s'.cluster, k);
      }
    }
  }

  lemma ApiCheck(s: State, id: nat, listed: bool, order: seq<Key>)
    requires Inv(s) && ApiInv(s)
    ensures ApiInv(CheckUrlStep(s, id, listed, order))
  {
    hide Decide, Replay, Conflict;
    var s' := CheckUrlStep(s, id, listed, order);
    CheckUrlKeeps(s, id, listed, order);
    if s' != s {
      var t := s.tasks[id];
      assert TaskOk(s, t);
      ConflictIffTaken(s.cluster, order, t.key, t.agent.spec.url);
      assert ConflictIsStale(s'.cluster, s'.tasks[id]);
    }
    ApiCalm(s, s');
  }

  lemma ApiDecide(s: State, id: nat, env: Env)
    requires Inv(s) && ApiInv(s)
    ensures ApiInv(DecideStep(s, id, env))
  {
    hide Decide, Replay, Good, Inv;
    DecideStepKeeps(s, id, env);
    if id in s.tasks {
      assert ConflictIsStale(s.cluster, s.tasks[id]);
    }
    ApiCalm(s, DecideStep(s, id, env));
  }

  lemma PutStatusUrls(c: Cluster, key: Key, status: Status)
    requires key in c.agents && Distinct(c)
    ensures Distinct(PutStatus(c, key, status))
  {
    var c' := PutStatus(c, key, status);
    assert forall k :: k in c'.agents ==> k in c.agents && Url(c', k) == Url(c, k);
  }

  lemma ApiWrite(s: State, id: nat, status: Status, commit: Commit)
    requires Inv(s) && ApiInv(s) && id in s.tasks && Good(s, WriteStatus(s, id, status, commit))
    requires commit.Reconciled? && Current(s.cluster, s.tasks[id].key, s.tasks[id].version) ==> commit.conflict.None?
    ensures ApiInv(WriteStatus(s, id, status, commit))
  {
    hide Decide, Replay, Good, PutStatus, Inv, ConflictIsStale, Distinct;
    var s' := WriteStatus(s, id, status, commit);
    var t := s.tasks[id];
    ApiTasks(s, s');
    if Current(s.cluster, t.key, t.version) {
      PutStatusUrls(s.cluster, t.key, status);
      assert NoConflictIn(LogOf(s, t.agent.uid));
    }
  }

  lemma ApiCommit(s: State, id: nat)
    requires Inv(s) && ApiInv(s)
    ensures ApiInv(CommitStep(s, id))
  {
    hide Decide, Replay, Good, WriteStatus;
    CommitKeeps(s, id);
    if id in s.tasks && s.tasks[id].Decided? {
      var t := s.tasks[id];
      assert ConflictIsStale(s.cluster, t);
      ApiWrite(s, id, OutcomeOf(t).status, Reconciled(t.agent.spec, t.agent.generation, t.conflict, t.env));
    }
  }

  lemma ApiApproval(s: State, id: nat, now: nat)
    requires Inv(s) && ApiInv(s)
    ensures ApiInv(ApprovalStep(s, id, now))
  {
    hide Decide, Replay, Approve, Good, Inv, ApiInv, WriteStatus;
    ApprovalKeeps(s, id, now);
    if id in s.tasks && s.tasks[id].Approving? {
      var t := s.tasks[id];
      ApiWrite(s, id, Approve(t.agent.status, t.agent.generation, now), Approved(t.agent.generation, now));
    }
  }

  lemma DeleteUrls(c: Cluster, key: Key)
    ensures forall k :: k in Delete(c, key).agents ==> k in c.agents && Url(Delete(c, key), k) == Url(c, k)
  {
  }

  lemma ApiDelete(s: State, s': State, key: Key)
    requires Inv(s) && ApiInv(s) && s'.cluster == Delete(s.cluster, key) && s'.logs == s.logs
    requires forall id :: id in s'.tasks ==> id in s.tasks && s'.tasks[id] == s.tasks[id]
    ensures ApiInv(s')
  {
    hide Good, Inv, ApiInv, Delete;
    DeleteKeeps(s, s', key);
    DeleteUrls(s.cluster, key);
    ApiCalm(s, s');
  }

  lemma ApiEdit(s: State, key: Key, spec: Spec)
    requires Inv(s) && ApiInv(s) && (key in s.cluster.agents ==> !Taken(s.cluster, key, spec.url))
    ensures ApiInv(Edit(s, key, spec))
  {
    hide Good, Inv, NoConflictIn, ConflictIsStale, Distinct;
    EditKeeps(s, key, spec);
    ApiTasks(s, Edit(s, key, spec));
    EditKeepsDistinctIff(s.cluster, key, spec);
  }

  /** An edit keeps distinct URLs distinct exactly when nobody else has the new one. */
  lemma EditKeepsDistinctIff(c: Cluster, key: Key, spec: Spec)
    requires Distinct(c)
    ensures Distinct(UpdateSpec(c, key, spec)) <==> key !in c.agents || !Taken(c, key, spec.url)
  {
    if key in c.agents {
      var c' := UpdateSpec(c, key, spec);
      assert Url(c', key) == spec.url && forall k :: k in c.agents && k != key ==> Url(c', k) == Url(c, k);
      if Taken(c, key, spec.url) {
        var k :| k in c.agents && k != key && Url(c, k) == spec.url;
        assert k in c'.agents && Url(c', k) == Url(c', key);
      }
    }
  }

  lemma ApiLose(s: State, id: nat)
    requires Inv(s) && ApiInv(s)
    ensures ApiInv(Abandon(s, id))
  {
    hide OutcomeOf;
    AbandonKeeps(s, id);
    hide Good, Inv, ApiInv;
    ApiCalm(s, Abandon(s, id));
  }

  lemma ApiFinalize(s: State, id: nat)
    requires Inv(s) && ApiInv(s)
    ensures ApiInv(FinalizeStep(s, id))
  {
    hide Decide, Replay, Good, ApiInv, Evolves, StoredOk;
    var s' := FinalizeStep(s, id);
    if id in s.tasks && s.tasks[id].Fetched? && !s.tasks[id].agent.deleting && !s.tasks[id].agent.finalizer {
      var t := s.tasks[id];
      assert TaskOk(s, t);
      hide TaskOk;
      if Current(s.cluster, t.key, t.version) {
        FinalizeKeeps(s, id);
        hide Inv;
        ApiCalm(s, s');
      } else {
        ApiLose(s, id);
      }
    } else if s' != s {
      FinalizeKeeps(s, id);
      hide Inv;
      ApiCalm(s, s');
    }
  }

  lemma ApiRead(s: State, id: nat, key: Key, reader: Reader)
    requires Inv(s) && ApiInv(s)
    ensures ApiInv(Read(s, id, key, reader))
  {
    hide Good, Inv, ApiInv;
    ReadKeeps(s, id, key, reader);
    ApiCalm(s, Read(s, id, key, reader));
  }

  lemma ApiOther(s: State, a: Action)
    requires Inv(s) && ApiInv(s) && (a.SetSpec? ==> a.key !in s.cluster.agents || !Taken(s.cluster, a.key, a.spec.url))
    requires (a.SetSpec? || a.DeleteAgent? || a.Prune? || a.Lose?)
    ensures ApiInv(Step(s, a))
  {
    hide Inv, ApiInv, Delete, Edit, Abandon;
    match a
    case SetSpec(key, spec) => ApiEdit(s, key, spec);
    case DeleteAgent(key) => ApiDelete(s, Drop(s, key), key);
    case Prune(id) => if id in s.tasks && s.tasks[id].Pruning? { ApiDelete(s, PruneStep(s, id), s.tasks[id].key); }
    case Lose(id) => ApiLose(s, id);
  }

  lemma ApiStep(s: State, a: Action)
    requires Inv(s) && ApiInv(s) && (a.SetSpec? ==> a.key !in s.cluster.agents || !Taken(s.cluster, a.key, a.spec.url))
    requires !a.CreateAgent?
    ensures ApiInv(Step(s, a))
  {
    if a.SetSpec? || a.DeleteAgent? || a.Prune? || a.Lose? {
      ApiOther(s, a);
    } else {
      hide Inv, ApiInv, Register, Read, FinalizeStep, DecideStep, CheckUrlStep, CommitStep, ApprovalStep;
      match a
      case RegisterAgent(key, spec) => ApiRegister(s, key, spec);
      case Get(id, key) => ApiRead(s, id, key, ForReconcile);
      case Finalize(id) => ApiFinalize(s, id);
      case CheckUrl(id, listed, order) => ApiCheck(s, id, listed, order);
      case DecideStatus(id, env) => ApiDecide(s, id, env);
      case CommitStatus(id) => ApiCommit(s, id);
      case GetForApproval(id, key) => ApiRead(s, id, key, ForApproval);
      case CommitApproval(id, now) => ApiApproval(s, id, now);
      case ListStale(id, key, now) => ApiRead(s, id, key, ForPruning(now));
    }
  }

  /**
   When agents are created only by uninterrupted registrations and edits keep apart, all URLs are
   pairwise distinct in every reachable state and no status of the conflict exit is ever committed:
   a conflict can only be seen by a reconcile whose agent has meanwhile been replaced.
   */
  lemma {:induction false} RegistrationKeepsUrlsDistinct(actions: seq<Action>)
    requires UrlsApart(actions) && ApiOnly(actions)
    ensures Distinct(Run(actions).cluster)
    ensures forall uid :: uid in Run(actions).logs ==> NoConflictIn(Run(actions).logs[uid])
    ensures ApiInv(Run(actions))
  {
    hide Step;
    if actions != [] {
      var rest := actions[..|actions| - 1];
      assert forall i :: 0 <= i < |rest| ==> rest[i] == actions[i];
      RegistrationKeepsUrlsDistinct(rest);
      RunsAreSerial(rest);
      ApiStep(Run(rest), actions[|actions| - 1]);
    }
  }
}
