/**
 What a reconcile leaves behind, field by field, in the terms of what it read: the resource, the
 configuration, the probe and the clocks.  These laws mention none of the functions that compute it.
 */
module Outcomes {
  import opened Types
  import opened Conditions
  import opened Lifecycle
  import Cards

  ghost predicate Demanded(env: Env) {
    env.config.Some? && env.config.value.requireApproval
  }

  ghost predicate HasApproval(st: Status) {
    exists i :: 0 <= i < |st.conditions| && st.conditions[i].kind == "Approved" && st.conditions[i].status == ConditionTrue
  }

  /** The reconcile gets past every gate. */
  ghost predicate Reached(spec: Spec, st: Status, conflict: Option<Key>, env: Env) {
    conflict.None? && spec.enabled && (Demanded(env) ==> HasApproval(st))
  }

  ghost predicate ChecksOff(env: Env) {
    env.config.Some? && !env.config.value.requireHealthCheck
  }

  /** Health checks are switched off, or the probe is healthy and a card that must match agrees with the spec. */
  ghost predicate Passing(spec: Spec, env: Env) {
    || ChecksOff(env)
    || (env.probe.healthy && (env.config.Some? && env.config.value.requireCardMatch && env.probe.card.Some? ==>
                                Cards.Agrees(spec, env.probe.card.value)))
  }

  // ----- the phase

  /**
   The threshold in force is the agent's own when that is positive, and three otherwise: a failed
   check leaves Unreachable exactly when the new count reaches it, and Error when it does not.
   */
  lemma FailedPhase(spec: Spec, generation: int, st: Status, conflict: Option<Key>, env: Env)
    requires Decide(spec, generation, st, conflict, env).exit == CheckFailed
    ensures var after := Decide(spec, generation, st, conflict, env).status;
            var own := spec.healthCheck.Some? && spec.healthCheck.value.failureThreshold > 0;
            && after.consecutiveFailures == (if st.consecutiveFailures == 0x7fff_ffff then -0x8000_0000 else st.consecutiveFailures + 1)
            && (own ==> (after.phase == Unreachable <==> after.consecutiveFailures >= spec.healthCheck.value.failureThreshold))
            && (!own ==> (after.phase == Unreachable <==> after.consecutiveFailures >= 3))
            && (after.phase != Unreachable ==> after.phase == Error)
  {
    hide Merge;
  }

  lemma CheckedReady(spec: Spec, generation: int, st: Status, env: Env)
    ensures var after := Check(spec, generation, st, env).status;
            && (after.phase == Ready <==>
                  || (env.config.Some? && !env.config.value.requireHealthCheck)
                  || (env.probe.healthy && (env.config.Some? && env.config.value.requireCardMatch && env.probe.card.Some? ==>
                                              Cards.CardMatch(spec, env.probe.card.value).None?)))
            && (after.phase == Ready ==> after.health == Healthy && after.consecutiveFailures == 0
                                         && after.lastHeartbeat == Some(env.checkTime))
            && after.phase != Pending
  {
    hide Merge, Cards.CardMatch, Threshold, Interval, PassEvents, FailEvents;
  }

  lemma DecidedReady(spec: Spec, generation: int, st: Status, conflict: Option<Key>, env: Env)
    ensures var o := Decide(spec, generation, st, conflict, env);
            && (o.status.phase == Ready <==>
                  && conflict.None? && spec.enabled && (RequiresApproval(env.config) ==> IsApproved(st.conditions))
                  && (|| SkipsCheck(env.config)
                      || (env.probe.healthy && (env.config.Some? && env.config.value.requireCardMatch && env.probe.card.Some? ==>
                                                  Cards.CardMatch(spec, env.probe.card.value).None?))))
            && (o.status.phase == Ready ==> o.written && o.status.health == Healthy && o.status.consecutiveFailures == 0
                                            && o.status.lastHeartbeat == Some(env.checkTime))
  {
    hide Check, Merge, Cards.CardMatch, IsApproved;
    var stamped := Stamp(st, env.registerTime);
    CheckedReady(spec, generation, stamped, env);
    CheckedReady(spec, generation,
      stamped.(conditions := Merge(stamped.conditions, ApprovalCondition(true, generation, env.approvalTime))), env);
    ExitOrder(spec, generation, st, conflict, env);
  }

  /**
   A reconcile ends in Ready exactly when it found no conflict, the agent is enabled, approved if
   that is demanded, and passes.  Ready comes with Healthy, a counter of zero and a new heartbeat.
   */
  lemma ReadyIff(spec: Spec, generation: int, st: Status, conflict: Option<Key>, env: Env)
    ensures var o := Decide(spec, generation, st, conflict, env);
            var after := o.status;
            && (after.phase == Ready <==> Reached(spec, st, conflict, env) && Passing(spec, env))
            && (after.phase == Ready ==> o.written && after.health == Healthy && after.consecutiveFailures == 0
                                         && after.lastHeartbeat == Some(env.checkTime))
  {
    if env.probe.card.Some? {
      Cards.CardMatchIsAgreement(spec, env.probe.card.value);
    }
    hide Decide, Cards.CardMatch, Cards.Agrees;
    DecidedReady(spec, generation, st, conflict, env);
  }

  // ----- the other fields

  /** The gated exits: a conflict shows Error and names the holder, the other two show Pending. */
  lemma GatedOutcomes(spec: Spec, generation: int, st: Status, conflict: Option<Key>, env: Env)
    ensures var o := Decide(spec, generation, st, conflict, env);
            var after := o.status;
            && (conflict.Some? ==> o.written && after.phase == Error && after.health == Unhealthy
                                   && after.message == UrlConflict(spec.url, conflict.value))
            && (conflict.None? && !spec.enabled ==>
                  && (o.written <==> st.phase != Pending) && after.phase == Pending
                  && (o.written ==> after.health == Unknown && after.message == Text("Agent is disabled.")))
            && (conflict.None? && spec.enabled && Demanded(env) && !HasApproval(st) ==>
                  && o.written && after.phase == Pending && after.health == Unknown && after.message == Text("Waiting for approval."))
            && (after.phase == Pending ==> conflict.None? && (!spec.enabled || (Demanded(env) && !HasApproval(st))))
  {
    hide Merge, Cards.CardMatch, Threshold, Interval, PassEvents, FailEvents;
  }

  /** What a reconcile that gets past all gates writes. */
  lemma CheckedFields(spec: Spec, generation: int, st: Status, env: Env)
    ensures var after := Check(spec, generation, st, env).status;
            var skipped := ChecksOff(env);
            var passed := skipped || env.probe.healthy;
            && after.registeredAt == st.registeredAt && after.observedGeneration == generation
            && after.lastHeartbeat == (if passed then Some(env.checkTime) else st.lastHeartbeat)
            && after.cardHash == (if !skipped && env.probe.healthy && env.probe.cardHash != "" then env.probe.cardHash else st.cardHash)
            && (passed ==> after.consecutiveFailures == 0)
            && (skipped ==> after.message == Text("Health check disabled by registry configuration."))
            && (!passed ==> after.message == CheckFailedWith(env.probe.error))
            && (!skipped && passed ==>
                  if after.phase == Ready then after.message == CheckPassedIn(env.probe.latency) else after.message.CardMismatchOf?)
  {
    hide Merge, Cards.CardMatch, Threshold, Interval, PassEvents, FailEvents;
  }

  /**
   The recorded fields: registration is stamped once, heartbeat, generation and counter move with
   checks only, and the card hash is replaced by the one a healthy probe brings.
   */
  lemma RecordedFields(spec: Spec, generation: int, st: Status, conflict: Option<Key>, env: Env)
    ensures var after := Decide(spec, generation, st, conflict, env).status;
            var checked := Reached(spec, st, conflict, env);
            var skipped := ChecksOff(env);
            var passed := skipped || env.probe.healthy;
            && after.registeredAt == (if st.registeredAt.Some? then st.registeredAt else Some(env.registerTime))
            && after.observedGeneration == (if checked then generation else st.observedGeneration)
            && after.lastHeartbeat == (if checked && passed then Some(env.checkTime) else st.lastHeartbeat)
            && after.cardHash == (if checked && !skipped && env.probe.healthy && env.probe.cardHash != ""
                                  then env.probe.cardHash else st.cardHash)
            && (!checked ==> after.consecutiveFailures == st.consecutiveFailures)
            && (checked && passed ==> after.consecutiveFailures == 0)
  {
    hide Check, Merge;
    var stamped := Stamp(st, env.registerTime);
    CheckedFields(spec, generation, stamped, env);
    CheckedFields(spec, generation,
      stamped.(conditions := Merge(stamped.conditions, ApprovalCondition(true, generation, env.approvalTime))), env);
  }

  lemma CheckedConditions(spec: Spec, generation: int, st: Status, env: Env, kind: string)
    ensures var after := Check(spec, generation, st, env).status;
            var now := env.conditionTime;
            Lookup(after.conditions, kind) ==
              if kind == "Ready" then
                Some(if after.phase == Ready
                     then Condition("Ready", ConditionTrue, generation, now, "AgentReady", Text("Agent is registered and healthy."))
                     else Condition("Ready", ConditionFalse, generation, now, "AgentNotReady", after.message))
              else if kind == "HealthChecked" then
                Some(if after.phase == Ready
                     then Condition("HealthChecked", ConditionTrue, generation, now, "HealthCheckPassed",
                                    Text("Agent is reachable and healthy."))
                     else Condition("HealthChecked", ConditionFalse, generation, now, "HealthCheckFailed", after.message))
              else Lookup(st.conditions, kind)
  {
    hide Cards.CardMatch, Threshold, Interval, PassEvents, FailEvents, Merge;
    var checked := Checked(spec, st, env).(observedGeneration := generation);
    var healthy := checked.health == Healthy;
    assert healthy <==> checked.phase == Ready;
    var hc := HealthCondition(healthy, generation, env.conditionTime, checked.message);
    var rc := ReadyCondition(checked.phase == Ready, generation, env.conditionTime, checked.message);
    MergeLookup(st.conditions, hc, kind);
    MergeLookup(Merge(st.conditions, hc), rc, kind);
  }

  /**
   The conditions after a reconcile, kind by kind.  A check renews Ready and HealthChecked, the
   approval gate renews Approved when approval is demanded, and nothing else is touched.
   */
  lemma ConditionsAfter(spec: Spec, generation: int, st: Status, conflict: Option<Key>, env: Env, kind: string)
    ensures var after := Decide(spec, generation, st, conflict, env).status;
            var checked := Reached(spec, st, conflict, env);
            var now := env.conditionTime;
            Lookup(after.conditions, kind) ==
              if kind == "Approved" && conflict.None? && spec.enabled && Demanded(env) then
                Some(if HasApproval(st)
                     then Condition("Approved", ConditionTrue, generation, env.approvalTime, "Approved", Text("Agent has been approved."))
                     else Condition("Approved", ConditionFalse, generation, env.approvalTime, "PendingApproval",
                                    Text("Agent requires manual approval.")))
              else if kind == "Ready" && checked then
                Some(if after.phase == Ready
                     then Condition("Ready", ConditionTrue, generation, now, "AgentReady", Text("Agent is registered and healthy."))
                     else Condition("Ready", ConditionFalse, generation, now, "AgentNotReady", after.message))
              else if kind == "HealthChecked" && checked then
                Some(if after.phase == Ready
                     then Condition("HealthChecked", ConditionTrue, generation, now, "HealthCheckPassed",
                                    Text("Agent is reachable and healthy."))
                     else Condition("HealthChecked", ConditionFalse, generation, now, "HealthCheckFailed", after.message))
              else Lookup(st.conditions, kind)
  {
    hide Check, Merge, Lookup;
    var stamped := Stamp(st, env.registerTime);
    var yes := ApprovalCondition(true, generation, env.approvalTime);
    MergeLookup(st.conditions, yes, kind);
    MergeLookup(st.conditions, ApprovalCondition(false, generation, env.approvalTime), kind);
    CheckedConditions(spec, generation, stamped, env, kind);
    CheckedConditions(spec, generation, stamped.(conditions := Merge(stamped.conditions, yes)), env, kind);
  }

  /** An approval renews the Approved condition and changes nothing else. */
  lemma ApprovalChangesOnlyApproved(st: Status, generation: int, now: nat, kind: string)
    ensures var after := Approve(st, generation, now);
            && after == st.(conditions := after.conditions)
            && Lookup(after.conditions, kind) ==
                 if kind == "Approved"
                 then Some(Condition("Approved", ConditionTrue, generation, now, "Approved",
                                     Text("Agent has been approved via dashboard.")))
                 else Lookup(st.conditions, kind)
  {
    MergeLookup(st.conditions, Condition(APPROVED, ConditionTrue, generation, now, "Approved",
                                         Text("Agent has been approved via dashboard.")), kind);
  }

  lemma CheckedEvents(spec: Spec, generation: int, st: Status, env: Env)
    ensures var o := Check(spec, generation, st, env);
            var probed := !ChecksOff(env);
            var before, after := st.phase, o.status.phase;
            && (forall p :: HealthCheckRecovered(p) in o.events <==>
                              probed && env.probe.healthy && before == p && p in {Error, Unreachable})
            && (forall m :: CardMismatchEvent(m) in o.events <==> probed && env.probe.healthy && o.status.message == CardMismatchOf(m))
            && (forall n :: AgentUnreachable(n) in o.events <==>
                              after == Unreachable && before != Unreachable && n == o.status.consecutiveFailures)
            && (forall e :: HealthCheckFailed(e) in o.events <==>
                              probed && !env.probe.healthy && after == Error && before != Error && e == env.probe.error)
            && FinalizerRemoved !in o.events && |o.events| <= 2
  {
    hide Merge, Cards.CardMatch, Threshold, Interval;
  }

  /** Exactly which events a reconcile emits: each is about a check, and only entering a bad phase is announced. */
  lemma EventsAre(spec: Spec, generation: int, st: Status, conflict: Option<Key>, env: Env)
    ensures var o := Decide(spec, generation, st, conflict, env);
            var probed := Reached(spec, st, conflict, env) && !ChecksOff(env);
            var before, after := st.phase, o.status.phase;
            && (forall p :: HealthCheckRecovered(p) in o.events <==>
                              probed && env.probe.healthy && before == p && p in {Error, Unreachable})
            && (forall m :: CardMismatchEvent(m) in o.events <==> probed && env.probe.healthy && o.status.message == CardMismatchOf(m))
            && (forall n :: AgentUnreachable(n) in o.events <==>
                              after == Unreachable && before != Unreachable && n == o.status.consecutiveFailures)
            && (forall e :: HealthCheckFailed(e) in o.events <==>
                              probed && !env.probe.healthy && after == Error && before != Error && e == env.probe.error)
            && FinalizerRemoved !in o.events && |o.events| <= 2
  {
    hide Check, Merge;
    var stamped := Stamp(st, env.registerTime);
    CheckedEvents(spec, generation, stamped, env);
    CheckedEvents(spec, generation,
      stamped.(conditions := Merge(stamped.conditions, ApprovalCondition(true, generation, env.approvalTime))), env);
    DecideSays(spec, generation, st, conflict, env);
    ExitOrder(spec, generation, st, conflict, env);
  }

  /** When the agent is looked at again: never while disabled, else after a time that its gate or its configuration sets. */
  lemma RequeuedAfter(spec: Spec, generation: int, st: Status, conflict: Option<Key>, env: Env)
    ensures var o := Decide(spec, generation, st, conflict, env);
            var own := if spec.healthCheck.Some? then spec.healthCheck.value.intervalSeconds else 0;
            var shared := if env.config.Some? then env.config.value.intervalSeconds else 0;
            o.requeueAfter ==
              if conflict.Some? then Some(5 * 60)
              else if !spec.enabled then None
              else if Demanded(env) && !HasApproval(st) then Some(30)
              else if own > 0 then Some(own)
              else if shared > 0 then Some(shared)
              else Some(60)
  {
    hide Checked, CheckEvents, Lifecycle.UpdateConditions, Merge;
  }
}
