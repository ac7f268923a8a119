/** What is counted over a whole run: failed checks and AgentUnreachable events. */
module Conservation {
  import opened Types
  import opened Lifecycle
  import opened Store
  import opened History
  import opened MapSums
  import opened Protocol

  // ----- failures

  lemma StepCountsAlike(s: State, a: Action)
    ensures Step(s, a).fetchErrors - s.fetchErrors == Step(s, a).failures - s.failures
  {
    hide Decide, Conflict, Delete, Create, Put, Lists;
    if a.DecideStatus? && a.id in s.tasks && s.tasks[a.id].UrlChecked? {
      var t := s.tasks[a.id];
      ExitOrder(t.agent.spec, t.agent.generation, t.agent.status, t.conflict, a.env);
    }
  }

  /**
   The two failure metrics agree after every run of one process: an agent's card fetch fails exactly
   when a health check of it does, whether or not any status write goes through.
   */
  lemma {:induction false} FetchErrorsAreFailures(actions: seq<Action>)
    ensures Run(actions).fetchErrors == Run(actions).failures
  {
    hide Step;
    if actions != [] {
      FetchErrorsAreFailures(actions[..|actions| - 1]);
      StepCountsAlike(Run(actions[..|actions| - 1]), actions[|actions| - 1]);
    }
  }

  /** The failures a status stands for; a counter that has wrapped below zero stands for none. */
  function Streak(st: Status): int {
    if st.consecutiveFailures > 0 then st.consecutiveFailures else 0
  }

  function StoredStreak(stored: Stored): int {
    Streak(stored.agent.status)
  }

  function FailingTask(t: Task): int {
    if t.Decided? && OutcomeOf(t).exit == CheckFailed then 1 else 0
  }

  /** The failures stored with live agents, and those that are decided but not yet written. */
  ghost function Held(s: State): int {
    Sum(s.cluster.agents, StoredStreak) + Sum(s.tasks, FailingTask)
  }

  lemma PutStreak(c: Cluster, key: Key, agent: Agent)
    ensures Sum(Put(c, key, agent).agents, StoredStreak) ==
            Sum(c.agents, StoredStreak) - (if key in c.agents then StoredStreak(c.agents[key]) else 0) + Streak(agent.status)
  {
    SumUpdate(c.agents, StoredStreak, key, Stored(c.nextVersion, agent));
    SumRemove(c.agents, StoredStreak, key);
  }

  lemma SetTask(s: State, id: nat, t: Task)
    ensures Sum(s.tasks[id := t], FailingTask) ==
            Sum(s.tasks, FailingTask) - (if id in s.tasks then FailingTask(s.tasks[id]) else 0) + FailingTask(t)
  {
    SumUpdate(s.tasks, FailingTask, id, t);
    SumRemove(s.tasks, FailingTask, id);
  }

  lemma AbandonHeld(s: State, id: nat)
    ensures Held(Abandon(s, id)) <= Held(s)
  {
    hide Decide, Sum;
    SumRemove(s.tasks, FailingTask, id);
  }

  /** A status write adds at most the failure its task was holding. */
  lemma WriteHeld(s: State, id: nat, status: Status, commit: Commit)
    requires Inv(s) && id in s.tasks
    requires Streak(status) <= Streak(s.tasks[id].agent.status) + FailingTask(s.tasks[id])
    ensures Held(WriteStatus(s, id, status, commit)) <= Held(s)
  {
    hide Decide, Replay, Put, Sum, Streak;
    var t := s.tasks[id];
    assert TaskOk(s, t);
    if Current(s.cluster, t.key, t.version) {
      PutStreak(s.cluster, t.key, t.agent.(status := status));
      SumRemove(s.tasks, FailingTask, id);
    } else {
      AbandonHeld(s, id);
    }
  }

  lemma DecidedStreak(t: Task)
    requires t.Decided?
    ensures Streak(OutcomeOf(t).status) <= Streak(t.agent.status) + FailingTask(t)
  {
    hide Decide;
    ExitOrder(t.agent.spec, t.agent.generation, t.agent.status, t.conflict, t.env);
    ExitFrame(t.agent.spec, t.agent.generation, t.agent.status, t.conflict, t.env);
    if OutcomeOf(t).exit == CheckFailed {
      FailedCheck(t.agent.spec, t.agent.generation, t.agent.status, t.conflict, t.env);
    }
  }

  lemma CommitHeld(s: State, id: nat)
    requires Inv(s)
    ensures Held(CommitStep(s, id)) <= Held(s)
  {
    hide Decide, Inv, WriteStatus, Sum, Streak, FailingTask;
    if id in s.tasks && s.tasks[id].Decided? {
      var t := s.tasks[id];
      DecidedStreak(t);
      WriteHeld(s, id, OutcomeOf(t).status, Reconciled(t.agent.spec, t.agent.generation, t.conflict, t.env));
    }
  }

  lemma ApprovalHeld(s: State, id: nat, now: nat)
    requires Inv(s)
    ensures Held(ApprovalStep(s, id, now)) <= Held(s)
  {
    hide Decide, Inv, WriteStatus, Sum;
    if id in s.tasks && s.tasks[id].Approving? {
      var t := s.tasks[id];
      WriteHeld(s, id, Approve(t.agent.status, t.agent.generation, now), Approved(t.agent.generation, now));
    }
  }

  lemma DecideHeld(s: State, id: nat, env: Env)
    ensures Held(DecideStep(s, id, env)) - DecideStep(s, id, env).failures <= Held(s) - s.failures
  {
    hide Sum, Decide;
    if id in s.tasks && s.tasks[id].UrlChecked? {
      var t := s.tasks[id];
      SetTask(s, id, Decided(t.key, t.version, t.agent, t.seen, t.conflict, env));
      SumRemove(s.tasks, FailingTask, id);
    }
  }

  lemma FinalizeHeld(s: State, id: nat)
    requires Inv(s)
    ensures Held(FinalizeStep(s, id)) <= Held(s)
  {
    hide Decide, Replay, Sum, Put;
    if id in s.tasks && s.tasks[id].Fetched? {
      var t := s.tasks[id];
      assert TaskOk(s, t);
      AbandonHeld(s, id);
      SumRemove(s.tasks, FailingTask, id);
      SumRemove(s.cluster.agents, StoredStreak, t.key);
      PutStreak(s.cluster, t.key, t.agent.(finalizer := true));
      SetTask(s, id, Fetched(t.key, s.cluster.nextVersion, t.agent.(finalizer := true), t.seen));
    }
  }

  lemma DeleteHeld(c: Cluster, key: Key)
    ensures Sum(Delete(c, key).agents, StoredStreak) <= Sum(c.agents, StoredStreak)
  {
    hide Sum, Put;
    SumRemove(c.agents, StoredStreak, key);
    if key in c.agents {
      PutStreak(c, key, c.agents[key].agent.(deleting := true));
    }
  }

  lemma UserHeld(s: State, key: Key, spec: Spec)
    ensures Held(NewAgent(s, key, spec)) == Held(s) && Held(Edit(s, key, spec)) == Held(s)
  {
    hide Sum, Put;
    PutStreak(s.cluster, key, Agent(s.cluster.nextUid, 1, spec, EMPTY_STATUS, false, false));
    if key in s.cluster.agents {
      var a := s.cluster.agents[key].agent;
      PutStreak(s.cluster, key, a.(spec := spec, generation := a.generation + 1));
    }
  }

  lemma DropHeld(s: State, key: Key)
    ensures Held(Drop(s, key)) <= Held(s)
  {
    hide Sum, Delete;
    DeleteHeld(s.cluster, key);
  }

  lemma ReadHeld(s: State, id: nat, key: Key, reader: Reader)
    ensures Held(Read(s, id, key, reader)) == Held(s)
  {
    hide Sum;
    if id !in s.tasks && key in s.cluster.agents {
      SetTask(s, id, Snapshot(s, key, reader));
    }
  }

  lemma CheckUrlHeld(s: State, id: nat, listed: bool, order: seq<Key>)
    ensures Held(CheckUrlStep(s, id, listed, order)) == Held(s)
  {
    hide Sum, Conflict;
    if CheckUrlStep(s, id, listed, order) != s {
      SetTask(s, id, CheckUrlStep(s, id, listed, order).tasks[id]);
    }
  }

  lemma PruneHeld(s: State, id: nat)
    ensures Held(PruneStep(s, id)) <= Held(s)
  {
    hide Sum, Delete;
    SumRemove(s.tasks, FailingTask, id);
    if id in s.tasks && s.tasks[id].Pruning? {
      DeleteHeld(s.cluster, s.tasks[id].key);
    }
  }

  lemma StepHeld(s: State, a: Action)
    requires Inv(s)
    ensures Held(Step(s, a)) - Step(s, a).failures <= Held(s) - s.failures
  {
    hide Held, Inv, Abandon, FinalizeStep, DecideStep, CheckUrlStep, CommitStep, ApprovalStep, PruneStep;
    match a
    case CreateAgent(key, spec) => UserHeld(s, key, spec);
    case RegisterAgent(key, spec) => UserHeld(s, key, spec);
    case SetSpec(key, spec) => UserHeld(s, key, spec);
    case DeleteAgent(key) => DropHeld(s, key);
    case Get(id, key) => ReadHeld(s, id, key, ForReconcile);
    case Finalize(id) => FinalizeHeld(s, id); TotalOnlyGrows(s, a);
    case CheckUrl(id, listed, order) => CheckUrlHeld(s, id, listed, order); TotalOnlyGrows(s, a);
    case DecideStatus(id, env) => DecideHeld(s, id, env);
    case CommitStatus(id) => CommitHeld(s, id); TotalOnlyGrows(s, a);
    case GetForApproval(id, key) => ReadHeld(s, id, key, ForApproval);
    case CommitApproval(id, now) => ApprovalHeld(s, id, now); TotalOnlyGrows(s, a);
    case ListStale(id, key, now) => ReadHeld(s, id, key, ForPruning(now));
    case Prune(id) => PruneHeld(s, id); TotalOnlyGrows(s, a);
    case Lose(id) => AbandonHeld(s, id); TotalOnlyGrows(s, a);
  }

  lemma TotalOnlyGrows(s: State, a: Action)
    ensures Step(s, a).failures >= s.failures
  {
    hide Decide, Conflict, Delete, Create, Put;
  }

  lemma {:induction false} HeldBounded(actions: seq<Action>)
    ensures Held(Run(actions)) <= Run(actions).failures
  {
    hide Step, Held;
    if actions == [] {
      assert Held(INIT) == 0 by { HeldInit(); }
    } else {
      var rest := actions[..|actions| - 1];
      HeldBounded(rest);
      RunsAreSerial(rest);
      StepHeld(Run(rest), actions[|actions| - 1]);
    }
  }

  lemma HeldInit()
    ensures Held(INIT) == 0
  {
  }

  /**
   From an empty store, the failures stored with live agents never exceed the failures the metric
   has counted, whatever status writes are lost or rejected and whichever agents are deleted.  Each
   failed probe is on record at most once: with its agent or with the write still to come.
   */
  lemma FailuresConserved(actions: seq<Action>)
    ensures Sum(Run(actions).cluster.agents, StoredStreak) + Sum(Run(actions).tasks, FailingTask) <= Run(actions).failures
    ensures Sum(Run(actions).cluster.agents, StoredStreak) <= Run(actions).failures
  {
    hide Run, Decide;
    HeldBounded(actions);
    SumNonNegative(Run(actions).tasks, FailingTask);
  }

  // ----- events

  /** One for a task of this agent that has announced AgentUnreachable and has not written yet. */
  function Announcing(uid: nat): Task -> int {
    (t: Task) => if t.Decided? && t.agent.uid == uid && Announces(OutcomeOf(t).events) then 1 else 0
  }

  /** Announcements that no commit and no live task accounts for, minus the lost ones. */
  ghost function Unaccounted(s: State, uid: nat): int {
    s.announced[uid] - s.lost[uid] - UnreachableEvents(LogOf(s, uid)) - Sum(s.tasks, Announcing(uid))
  }

  lemma AbandonAccounts(s: State, id: nat, uid: nat)
    ensures Unaccounted(Abandon(s, id), uid) == Unaccounted(s, uid)
  {
    hide Decide, Sum, UnreachableEvents;
    SumRemove(s.tasks, Announcing(uid), id);
  }

  lemma TaskAccounts(s: State, id: nat, t: Task, uid: nat)
    requires id in s.tasks ==> Announcing(uid)(s.tasks[id]) == 0
    requires Announcing(uid)(t) == 0
    ensures Sum(s.tasks[id := t], Announcing(uid)) == Sum(s.tasks, Announcing(uid))
    ensures Sum(s.tasks - {id}, Announcing(uid)) == Sum(s.tasks, Announcing(uid))
  {
    hide Sum, Announcing;
    SumUpdate(s.tasks, Announcing(uid), id, t);
    SumRemove(s.tasks, Announcing(uid), id);
  }

  lemma WriteAccounts(s: State, id: nat, status: Status, commit: Commit, uid: nat)
    requires Inv(s) && id in s.tasks
    requires commit.Reconciled? == s.tasks[id].Decided?
    requires var t := s.tasks[id];
             commit.Reconciled? ==> commit == Reconciled(t.agent.spec, t.agent.generation, t.conflict, t.env)
    ensures Unaccounted(WriteStatus(s, id, status, commit), uid) == Unaccounted(s, uid)
  {
    hide Decide, Sum, Replay, Put;
    var t := s.tasks[id];
    assert TaskOk(s, t);
    if Current(s.cluster, t.key, t.version) {
      SumRemove(s.tasks, Announcing(uid), id);
      var log := s.logs[t.agent.uid];
      assert log[..t.seen] == log && (log + [commit])[..|log|] == log;
    } else {
      AbandonAccounts(s, id, uid);
    }
  }

  lemma DecideAccounts(s: State, id: nat, env: Env, uid: nat)
    ensures Unaccounted(DecideStep(s, id, env), uid) == Unaccounted(s, uid)
  {
    hide Decide, Sum, UnreachableEvents;
    if id in s.tasks && s.tasks[id].UrlChecked? {
      var t := s.tasks[id];
      var d := Decided(t.key, t.version, t.agent, t.seen, t.conflict, env);
      ExitOrder(t.agent.spec, t.agent.generation, t.agent.status, t.conflict, env);
      ExitFrame(t.agent.spec, t.agent.generation, t.agent.status, t.conflict, env);
      assert !OutcomeOf(d).written ==> !Announces(OutcomeOf(d).events);
      SumUpdate(s.tasks, Announcing(uid), id, d);
      SumRemove(s.tasks, Announcing(uid), id);
    }
  }

  lemma FinalizeAccounts(s: State, id: nat, uid: nat)
    ensures Unaccounted(FinalizeStep(s, id), uid) == Unaccounted(s, uid)
  {
    hide Decide, Sum, UnreachableEvents;
    if id in s.tasks && s.tasks[id].Fetched? {
      AbandonAccounts(s, id, uid);
      TaskAccounts(s, id, s.tasks[id], uid);
      if id in FinalizeStep(s, id).tasks {
        TaskAccounts(s, id, FinalizeStep(s, id).tasks[id], uid);
      }
    }
  }

  lemma PlainAccounts(s: State, a: Action, uid: nat)
    requires Inv(s)
    requires a.CreateAgent? || a.RegisterAgent? || a.SetSpec? || a.DeleteAgent? || a.Get? || a.GetForApproval? || a.ListStale?
             || a.CheckUrl? || a.Prune?
    ensures Unaccounted(Step(s, a), uid) == Unaccounted(s, uid)
  {
    hide Decide, Sum, Conflict, Delete, UpdateSpec, TaskOk, StoredOk;
    var s' := Step(s, a);
    FreshUid(s);
    assert LogOf(s', uid) == LogOf(s, uid);
    if !a.CreateAgent? && !a.RegisterAgent? && !a.SetSpec? && !a.DeleteAgent? && s' != s {
      if a.id in s'.tasks {
        TaskAccounts(s, a.id, s'.tasks[a.id], uid);
      } else {
        TaskAccounts(s, a.id, s.tasks[a.id], uid);
      }
    }
  }

  lemma StepAccounts(s: State, a: Action, uid: nat)
    requires Inv(s)
    ensures Unaccounted(Step(s, a), uid) == Unaccounted(s, uid)
  {
    hide Unaccounted, Inv, Abandon, FinalizeStep, DecideStep, CheckUrlStep, WriteStatus, PruneStep, Delete, Create, OutcomeOf, Approve;
    match a
    case Finalize(id) => FinalizeAccounts(s, id, uid);
    case DecideStatus(id, env) => DecideAccounts(s, id, env, uid);
    case CommitStatus(id) =>
      if id in s.tasks && s.tasks[id].Decided? {
        var t := s.tasks[id];
        WriteAccounts(s, id, OutcomeOf(t).status, Reconciled(t.agent.spec, t.agent.generation, t.conflict, t.env), uid);
      }
    case CommitApproval(id, now) =>
      if id in s.tasks && s.tasks[id].Approving? {
        var t := s.tasks[id];
        WriteAccounts(s, id, Approve(t.agent.status, t.agent.generation, now), Approved(t.agent.generation, now), uid);
      }
    case Lose(id) => AbandonAccounts(s, id, uid);
    case _ => PlainAccounts(s, a, uid);
  }

  lemma {:induction false} AccountsBalance(actions: seq<Action>, uid: nat)
    ensures Unaccounted(Run(actions), uid) == 0
  {
    hide Step, Unaccounted;
    if actions == [] {
      assert Unaccounted(INIT, uid) == 0 by { InitAccounts(uid); }
    } else {
      var rest := actions[..|actions| - 1];
      AccountsBalance(rest, uid);
      RunsAreSerial(rest);
      StepAccounts(Run(rest), actions[|actions| - 1], uid);
    }
  }

  lemma InitAccounts(uid: nat)
    ensures Unaccounted(INIT, uid) == 0
  {
  }

  /**
   AgentUnreachable events balance in every run: those emitted for a live agent, minus its committed
   exits from Unreachable, are one if it is Unreachable now, plus those whose status write is still
   to come or was lost.
   */
  lemma EventsConserved(actions: seq<Action>, key: Key)
    requires key in Run(actions).cluster.agents
    ensures var s := Run(actions);
            var a := s.cluster.agents[key].agent;
            s.announced[a.uid] - ExitsFromUnreachable(LogOf(s, a.uid)) ==
              (if a.status.phase == Unreachable then 1 else 0) + Sum(s.tasks, Announcing(a.uid)) + s.lost[a.uid]
  {
    hide Run, Decide, Replay, UnreachableEvents, ExitsFromUnreachable, Sum;
    var s := Run(actions);
    RunsAreSerial(actions);
    assert StoredOk(s, key);
    var uid := s.cluster.agents[key].agent.uid;
    AccountsBalance(actions, uid);
    EventsBalance(s.logs[uid]);
  }

  /** Once no reconcile of the agent is in flight and no announcing write was lost, the balance is exact. */
  lemma EventsConservedAtRest(actions: seq<Action>, key: Key)
    requires key in Run(actions).cluster.agents
    requires var s := Run(actions);
             var uid := s.cluster.agents[key].agent.uid;
             s.lost[uid] == 0 && forall id :: id in s.tasks && s.tasks[id].Decided? ==> s.tasks[id].agent.uid != uid
    ensures var s := Run(actions);
            var a := s.cluster.agents[key].agent;
            s.announced[a.uid] - ExitsFromUnreachable(LogOf(s, a.uid)) == (if a.status.phase == Unreachable then 1 else 0)
  {
    hide Run, Decide;
    var s := Run(actions);
    EventsConserved(actions, key);
    SumOfZeros(s.tasks, Announcing(s.cluster.agents[key].agent.uid));
  }
}
