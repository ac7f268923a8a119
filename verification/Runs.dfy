/** Every reachable status, approvals and pruning, over all runs of the interleaved system. */
module Runs {
  import opened Types
  import opened Conditions
  import opened Lifecycle
  import opened Store
  import opened History
  import opened Protocol

  // ----- every reachable status

  /**
   Whatever the interleaving, every stored status obeys the lifecycle invariant, its counter is the
   run of failures that ends its committed checks, and its heartbeat is the last success before it.
   */
  lemma EveryReachableStatus(actions: seq<Action>, key: Key)
    requires key in Run(actions).cluster.agents
    ensures var s := Run(actions);
            var a := s.cluster.agents[key].agent;
            var checks := Checks(LogOf(s, a.uid));
            && WellFormed(a.status)
            && a.status.consecutiveFailures == Count32(FailingSuffix(checks))
            && a.status.lastHeartbeat == LastSuccess(checks)
  {
    hide Decide, Replay, Run;
    var s := Run(actions);
    RunsAreSerial(actions);
    assert StoredOk(s, key);
    EveryStatusWellFormed(s.logs[s.cluster.agents[key].agent.uid]);
    StatusRemembersChecks(s.logs[s.cluster.agents[key].agent.uid]);
  }

  /**
   In every reachable state an agent is Ready exactly when its last committed reconcile passed: no
   conflict, enabled, approved by a committed approval if it read that one is demanded, and found
   healthy, by configuration or by a probe whose card agrees where it must.
   */
  lemma ReadyIffLastCommittedPassed(actions: seq<Action>, key: Key)
    requires key in Run(actions).cluster.agents
    ensures var s := Run(actions);
            var a := s.cluster.agents[key].agent;
            a.status.phase == Ready <==>
              exists i :: LastReconcile(LogOf(s, a.uid), i) && Passes(LogOf(s, a.uid), i)
  {
    hide Decide, Replay, Run, Passes, LastReconcile;
    var s := Run(actions);
    RunsAreSerial(actions);
    assert StoredOk(s, key);
    var uid := s.cluster.agents[key].agent.uid;
    assert LogOf(s, uid) == s.logs[uid];
    ReadyIffLastPassed(LogOf(s, uid));
  }

  lemma {:induction false} LogsGrow(s: State, more: seq<Action>)
    requires Inv(s)
    ensures Inv(RunFrom(s, more))
    ensures forall uid :: uid in s.logs ==> uid in RunFrom(s, more).logs && s.logs[uid] <= RunFrom(s, more).logs[uid]
  {
    hide Decide;
    if more != [] {
      LogsGrow(s, more[..|more| - 1]);
      StepKeeps(RunFrom(s, more[..|more| - 1]), more[|more| - 1]);
    }
  }

  /** A registration time in the store stays for as long as the agent lives, however the run goes on. */
  lemma RegistrationNeverChanges(before: seq<Action>, more: seq<Action>, key: Key, later: Key)
    requires key in Run(before).cluster.agents && Run(before).cluster.agents[key].agent.status.registeredAt.Some?
    requires var s := RunFrom(Run(before), more);
             later in s.cluster.agents && s.cluster.agents[later].agent.uid == Run(before).cluster.agents[key].agent.uid
    ensures RunFrom(Run(before), more).cluster.agents[later].agent.status.registeredAt ==
            Run(before).cluster.agents[key].agent.status.registeredAt
  {
    hide Decide, Replay, Run;
    var s := Run(before);
    var s' := RunFrom(s, more);
    RunsAreSerial(before);
    LogsGrow(s, more);
    assert StoredOk(s, key) && StoredOk(s', later);
    var log := s.logs[s.cluster.agents[key].agent.uid];
    var log' := s'.logs[s.cluster.agents[key].agent.uid];
    assert log'[..|log|] == log;
    RegisteredOnce(log', |log|);
  }

  // ----- approvals

  /**
   A committed approval is never lost: however the run goes on, every status committed for the agent
   afterwards is approved, and so is the one in the store as long as the agent lives.
   */
  lemma ApprovalNeverLost(before: seq<Action>, more: seq<Action>, uid: nat, i: nat)
    requires uid in Run(before).logs && i < |Run(before).logs[uid]| && Run(before).logs[uid][i].Approved?
    ensures var s := RunFrom(Run(before), more);
            && uid in s.logs
            && (forall j :: i < j <= |s.logs[uid]| ==> IsApproved(Replay(s.logs[uid][..j]).conditions))
            && (forall key :: key in s.cluster.agents && s.cluster.agents[key].agent.uid == uid ==>
                              IsApproved(s.cluster.agents[key].agent.status.conditions))
  {
    hide Decide, Replay, Run;
    var s := RunFrom(Run(before), more);
    RunsAreSerial(before);
    LogsGrow(Run(before), more);
    forall j | i < j <= |s.logs[uid]| ensures IsApproved(Replay(s.logs[uid][..j]).conditions) {
      assert s.logs[uid][..j][i] == Run(before).logs[uid][i];
      ApprovalIsKept(s.logs[uid][..j], i);
    }
    forall key | key in s.cluster.agents && s.cluster.agents[key].agent.uid == uid
      ensures IsApproved(s.cluster.agents[key].agent.status.conditions)
    {
      assert StoredOk(s, key) && s.logs[uid][..|s.logs[uid]|] == s.logs[uid];
    }
  }

  /** Every configuration read in the run demands approval. */
  ghost predicate Demanding(actions: seq<Action>) {
    forall i :: 0 <= i < |actions| && actions[i].DecideStatus? ==> RequiresApproval(actions[i].env.config)
  }

  ghost predicate DemandInv(s: State) {
    && (forall uid :: uid in s.logs ==> AlwaysDemanded(s.logs[uid]))
    && (forall id :: id in s.tasks && s.tasks[id].Decided? ==> RequiresApproval(s.tasks[id].env.config))
  }

  lemma DemandWrite(s: State, id: nat, status: Status, commit: Commit)
    requires Inv(s) && DemandInv(s) && id in s.tasks && (commit.Reconciled? ==> RequiresApproval(commit.env.config))
    ensures DemandInv(WriteStatus(s, id, status, commit))
  {
    hide Decide, Replay, PutStatus;
    assert TaskOk(s, s.tasks[id]) && AlwaysDemanded(s.logs[s.tasks[id].agent.uid]);
  }

  lemma DemandStep(s: State, a: Action)
    requires Inv(s) && DemandInv(s) && (a.DecideStatus? ==> RequiresApproval(a.env.config))
    ensures DemandInv(Step(s, a))
  {
    hide Decide, Create, Delete, UpdateSpec, Put, WriteStatus, Inv, AlwaysDemanded, Approve;
    match a
    case CreateAgent(_, _) => assert AlwaysDemanded([]) by { EmptyDemanded(); }
    case RegisterAgent(_, _) => assert AlwaysDemanded([]) by { EmptyDemanded(); }
    case CommitStatus(id) =>
      if id in s.tasks && s.tasks[id].Decided? {
        var t := s.tasks[id];
        DemandWrite(s, id, OutcomeOf(t).status, Reconciled(t.agent.spec, t.agent.generation, t.conflict, t.env));
      }
    case CommitApproval(id, now) =>
      if id in s.tasks && s.tasks[id].Approving? {
        var t := s.tasks[id];
        DemandWrite(s, id, Approve(t.agent.status, t.agent.generation, now), Approved(t.agent.generation, now));
      }
    case _ =>
  }

  lemma EmptyDemanded()
    ensures AlwaysDemanded([])
  {
  }

  lemma {:induction false} DemandRun(actions: seq<Action>)
    requires Demanding(actions)
    ensures DemandInv(Run(actions))
  {
    hide Step;
    if actions != [] {
      var rest := actions[..|actions| - 1];
      assert forall i :: 0 <= i < |rest| ==> rest[i] == actions[i];
      DemandRun(rest);
      RunsAreSerial(rest);
      DemandStep(Run(rest), actions[|actions| - 1]);
    }
  }

  /**
   Exactly which reconciles check, in every run and whatever configurations were read: a check in
   flight, even one whose write will be rejected, belongs to an enabled agent without URL conflict,
   and its configuration demanded no approval or a committed one precedes its snapshot.
   */
  lemma CheckBegunIff(actions: seq<Action>, id: nat)
    requires id in Run(actions).tasks && Run(actions).tasks[id].Decided?
    ensures var s := Run(actions);
            var t := s.tasks[id];
            IsCheck(OutcomeOf(t).exit) <==>
              t.conflict.None? && t.agent.spec.enabled
              && (RequiresApproval(t.env.config) ==> ApprovedWithin(LogOf(s, t.agent.uid), t.seen))
  {
    hide Decide, Replay, Run;
    var s := Run(actions);
    var t := s.tasks[id];
    RunsAreSerial(actions);
    assert TaskOk(s, t);
    ApprovedIffCommitted(s.logs[t.agent.uid][..t.seen]);
    ApprovedWithinPrefix(s.logs[t.agent.uid], t.seen);
    ExitOrder(t.agent.spec, t.agent.generation, t.agent.status, t.conflict, t.env);
  }

  /**
   While every configuration that is read demands approval, an agent without a committed approval
   never shows Ready or Unreachable, and no check runs for it: any check in flight, even one whose
   write will be rejected, was begun on a snapshot that an approval precedes.
   */
  lemma NoCheckBeforeApproval(actions: seq<Action>)
    requires Demanding(actions)
    ensures forall key :: key in Run(actions).cluster.agents ==>
              var a := Run(actions).cluster.agents[key].agent;
              NeverApproved(LogOf(Run(actions), a.uid)) ==>
                a.status.phase !in {Ready, Unreachable} && Checks(LogOf(Run(actions), a.uid)) == []
    ensures forall id :: id in Run(actions).tasks && Run(actions).tasks[id].Decided? ==>
              var t := Run(actions).tasks[id];
              IsCheck(OutcomeOf(t).exit) ==>
                ApprovedWithin(LogOf(Run(actions), t.agent.uid), t.seen)
  {
    hide Decide, Replay, Run;
    var s := Run(actions);
    RunsAreSerial(actions);
    DemandRun(actions);
    forall key | key in s.cluster.agents && NeverApproved(LogOf(s, s.cluster.agents[key].agent.uid))
      ensures s.cluster.agents[key].agent.status.phase !in {Ready, Unreachable} && Checks(LogOf(s, s.cluster.agents[key].agent.uid)) == []
    {
      assert StoredOk(s, key);
      NothingBeforeApproval(s.logs[s.cluster.agents[key].agent.uid]);
    }
    forall id | id in s.tasks && s.tasks[id].Decided? && IsCheck(OutcomeOf(s.tasks[id]).exit)
      ensures ApprovedWithin(LogOf(s, s.tasks[id].agent.uid), s.tasks[id].seen)
    {
      CheckBegunIff(actions, id);
    }
  }

  // ----- pruning

  /**
   A prune deletes whatever the key names when it fires.  What it deletes then deserves it exactly
   when the staleness test still holds at that moment, and it does if nothing was written since the
   registry listed the agent, whose life up to the listing deserved it in any case.
   */
  lemma PruneSafeIffStillStale(actions: seq<Action>, id: nat)
    requires id in Run(actions).tasks && Run(actions).tasks[id].Pruning? && Run(actions).tasks[id].key in Run(actions).cluster.agents
    ensures var s := Run(actions);
            var t := s.tasks[id];
            var a := s.cluster.agents[t.key].agent;
            var log := LogOf(s, a.uid);
            && (Stale(a.status, t.now) <==> LongFailing(Checks(log), t.now) && exists i :: EndsInThreshold(log, i))
            && (Current(s.cluster, t.key, t.version) ==> Stale(a.status, t.now))
            && t.seen <= |LogOf(s, t.agent.uid)| && LongFailing(Checks(LogOf(s, t.agent.uid)[..t.seen]), t.now)
            && exists i :: EndsInThreshold(LogOf(s, t.agent.uid)[..t.seen], i)
  {
    hide Decide, Replay, Run;
    var s := Run(actions);
    var t := s.tasks[id];
    RunsAreSerial(actions);
    assert StoredOk(s, t.key) && TaskOk(s, t);
    StaleIffLongFailing(s.logs[s.cluster.agents[t.key].agent.uid], t.now);
    StaleIffLongFailing(s.logs[t.agent.uid][..t.seen], t.now);
  }
}
