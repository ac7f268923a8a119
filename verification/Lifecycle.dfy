/**
 One reconcile of one agent as a function of what it read: the ordered gates, the two ways of
 checking, and the condition updates of controllers/a2aagent_controller.go.
 */
module Lifecycle {
  import opened Types
  import opened Conditions
  import Cards

  /** The gate or branch a reconcile of a live agent leaves by. */
  datatype Exit = ConflictExit | DisabledExit | ApprovalExit | CheckSkipped | CheckPassed | CheckFailed

  /** What the environment decides during one reconcile: configuration read, probe result and clocks. */
  datatype Env = Env(
    config: Option<RegistrySpec>,
    probe: Probe,
    registerTime: nat,
    approvalTime: nat,
    checkTime: nat,
    conditionTime: nat)

  /** The status a reconcile arrives at, whether it tries to write it, and what it emits on the way. */
  datatype Outcome = Outcome(exit: Exit, status: Status, written: bool, events: seq<Event>, requeueAfter: Option<int>)

  predicate RequiresApproval(config: Option<RegistrySpec>) {
    config.Some? && config.value.requireApproval
  }

  predicate SkipsCheck(config: Option<RegistrySpec>) {
    config.Some? && !config.value.requireHealthCheck
  }

  function Threshold(spec: Spec): (t: int32)
    ensures t >= 1
  {
    if spec.healthCheck.Some? && spec.healthCheck.value.failureThreshold > 0
    then spec.healthCheck.value.failureThreshold else 3
  }

  function Interval(config: Option<RegistrySpec>, spec: Spec): (i: int32)
    ensures i > 0
  {
    if spec.healthCheck.Some? && spec.healthCheck.value.intervalSeconds > 0 then spec.healthCheck.value.intervalSeconds
    else if config.Some? && config.value.intervalSeconds > 0 then config.value.intervalSeconds
    else 60
  }

  function ApprovalCondition(approved: bool, generation: int, now: nat): Condition {
    if approved
    then Condition(APPROVED, ConditionTrue, generation, now, "Approved", Text("Agent has been approved."))
    else Condition(APPROVED, ConditionFalse, generation, now, "PendingApproval", Text("Agent requires manual approval."))
  }

  function HealthCondition(healthy: bool, generation: int, now: nat, message: Message): Condition {
    if healthy
    then Condition(HEALTH_CHECKED, ConditionTrue, generation, now, "HealthCheckPassed", Text("Agent is reachable and healthy."))
    else Condition(HEALTH_CHECKED, ConditionFalse, generation, now, "HealthCheckFailed", message)
  }

  function ReadyCondition(ready: bool, generation: int, now: nat, message: Message): Condition {
    if ready
    then Condition(READY, ConditionTrue, generation, now, "AgentReady", Text("Agent is registered and healthy."))
    else Condition(READY, ConditionFalse, generation, now, "AgentNotReady", message)
  }

  function UpdateConditions(st: Status, healthy: bool, generation: int, now: nat): Status {
    st.(conditions := Merge(Merge(st.conditions, HealthCondition(healthy, generation, now, st.message)),
                            ReadyCondition(st.phase == Ready, generation, now, st.message)))
  }

  function Stamp(st: Status, now: nat): Status {
    if st.registeredAt.None? then st.(registeredAt := Some(now)) else st
  }

  function Skip(st: Status, env: Env): Status {
    st.(phase := Ready, health := Healthy, lastHeartbeat := Some(env.checkTime),
        message := Text("Health check disabled by registry configuration."), consecutiveFailures := 0)
  }

  function CardVerdict(spec: Spec, env: Env): Option<Mismatch> {
    if env.config.Some? && env.config.value.requireCardMatch && env.probe.card.Some?
    then Cards.CardMatch(spec, env.probe.card.value) else None
  }

  function Pass(spec: Spec, st: Status, env: Env): Status {
    var hash := if env.probe.cardHash != "" then env.probe.cardHash else st.cardHash;
    var st := st.(lastHeartbeat := Some(env.checkTime), cardHash := hash, consecutiveFailures := 0);
    match CardVerdict(spec, env)
    case None => st.(phase := Ready, health := Healthy, message := CheckPassedIn(env.probe.latency))
    case Some(m) => st.(phase := Error, health := Unhealthy, message := CardMismatchOf(m))
  }

  function Fail(spec: Spec, st: Status, env: Env): Status {
    var failures := Next32(st.consecutiveFailures);
    st.(phase := if failures >= Threshold(spec) then Unreachable else Error,
        health := Unhealthy, message := CheckFailedWith(env.probe.error), consecutiveFailures := failures)
  }

  function PassEvents(spec: Spec, before: Phase, env: Env): seq<Event> {
    (if before == Error || before == Unreachable then [HealthCheckRecovered(before)] else [])
    + (match CardVerdict(spec, env) case None => [] case Some(m) => [CardMismatchEvent(m)])
  }

  function FailEvents(before: Phase, after: Status, env: Env): seq<Event> {
    if after.phase == Unreachable && before != Unreachable then [AgentUnreachable(after.consecutiveFailures)]
    else if after.phase == Error && before != Error then [HealthCheckFailed(env.probe.error)]
    else []
  }

  function CheckExit(env: Env): Exit {
    if SkipsCheck(env.config) then CheckSkipped else if env.probe.healthy then CheckPassed else CheckFailed
  }

  function Checked(spec: Spec, st: Status, env: Env): Status {
    match CheckExit(env)
    case CheckSkipped => Skip(st, env)
    case CheckPassed => Pass(spec, st, env)
    case _ => Fail(spec, st, env)
  }

  function CheckEvents(spec: Spec, st: Status, env: Env): seq<Event> {
    match CheckExit(env)
    case CheckSkipped => []
    case CheckPassed => PassEvents(spec, st.phase, env)
    case _ => FailEvents(st.phase, Fail(spec, st, env), env)
  }

  function Check(spec: Spec, generation: int, st: Status, env: Env): Outcome {
    var checked := Checked(spec, st, env);
    Outcome(CheckExit(env),
            UpdateConditions(checked.(observedGeneration := generation), checked.health == Healthy, generation, env.conditionTime),
            true, CheckEvents(spec, st, env), Some(Interval(env.config, spec)))
  }

  /** An enabled agent without URL conflict: the approval gate, then the check. */
  function DecideEnabled(spec: Spec, generation: int, st: Status, env: Env): Outcome {
    if RequiresApproval(env.config) && !IsApproved(st.conditions) then
      Outcome(ApprovalExit,
              st.(phase := Pending, health := Unknown, message := Text("Waiting for approval."),
                  conditions := Merge(st.conditions, ApprovalCondition(false, generation, env.approvalTime))),
              true, [], Some(30))
    else if RequiresApproval(env.config) then
      Check(spec, generation,
            st.(conditions := Merge(st.conditions, ApprovalCondition(true, generation, env.approvalTime))), env)
    else Check(spec, generation, st, env)
  }

  /** The reconcile of a live agent that already carries the finalizer. */
  function Decide(spec: Spec, generation: int, before: Status, conflict: Option<Key>, env: Env): Outcome {
    var st := Stamp(before, env.registerTime);
    if conflict.Some? then
      Outcome(ConflictExit,
              st.(phase := Error, health := Unhealthy, message := UrlConflict(spec.url, conflict.value)),
              true, [], Some(300))
    else if !spec.enabled then
      if st.phase == Pending then Outcome(DisabledExit, st, false, [], None)
      else Outcome(DisabledExit,
                   st.(phase := Pending, health := Unknown, message := Text("Agent is disabled.")), true, [], None)
    else DecideEnabled(spec, generation, st, env)
  }

  /** What ApproveAgent writes. */
  function Approve(st: Status, generation: int, now: nat): Status {
    st.(conditions := Merge(st.conditions,
          Condition(APPROVED, ConditionTrue, generation, now, "Approved", Text("Agent has been approved via dashboard."))))
  }

  /** Whether a reconcile reaches the point where it fetches the agent's card. */
  predicate Probes(spec: Spec, st: Status, conflict: Option<Key>, env: Env) {
    conflict.None? && spec.enabled && (RequiresApproval(env.config) ==> IsApproved(st.conditions)) && !SkipsCheck(env.config)
  }

  // ----- what every step keeps

  function StatusOf(st: Status, kind: string): Option<ConditionStatus> {
    match Lookup(st.conditions, kind)
    case None => None
    case Some(c) => Some(c.status)
  }

  ghost predicate LegalPair(phase: Phase, health: Health) {
    match phase
    case NoPhase => health == NoHealth
    case Pending => health == Unknown
    case Ready => health == Healthy
    case Error => health == Unhealthy
    case Unreachable => health == Unhealthy
  }

  /** The invariant of every status the two writers can produce. */
  ghost predicate WellFormed(st: Status) {
    && LegalPair(st.phase, st.health)
    && UniqueKinds(st.conditions)
    && StatusOf(st, READY) == StatusOf(st, HEALTH_CHECKED)
    && (st.phase == Ready ==> st.consecutiveFailures == 0 && st.lastHeartbeat.Some? && StatusOf(st, READY) == Some(ConditionTrue))
    && (st.phase == Unreachable ==> st.consecutiveFailures >= 1 && StatusOf(st, READY) == Some(ConditionFalse))
    && (st.phase != NoPhase ==> st.registeredAt.Some?)
    && (st.message.UrlConflict? ==> st.phase == Error)
    && (st.phase == NoPhase ==> st.lastHeartbeat.None? && StatusOf(st, READY).None?)
  }

  lemma UpdatedConditions(st: Status, healthy: bool, generation: int, now: nat)
    requires UniqueKinds(st.conditions)
    ensures var after := UpdateConditions(st, healthy, generation, now);
            && UniqueKinds(after.conditions)
            && StatusOf(after, HEALTH_CHECKED) == Some(if healthy then ConditionTrue else ConditionFalse)
            && StatusOf(after, READY) == Some(if st.phase == Ready then ConditionTrue else ConditionFalse)
            && IsApproved(after.conditions) == IsApproved(st.conditions)
  {
    var hc := HealthCondition(healthy, generation, now, st.message);
    var rc := ReadyCondition(st.phase == Ready, generation, now, st.message);
    var mid := Merge(st.conditions, hc);
    MergeKeepsUnique(st.conditions, hc);
    MergeKeepsUnique(mid, rc);
    MergeLookup(st.conditions, hc, HEALTH_CHECKED);
    MergeLookup(mid, rc, HEALTH_CHECKED);
    MergeLookup(mid, rc, READY);
    MergeApproved(st.conditions, hc);
    MergeApproved(mid, rc);
  }

  /** Merging an Approved condition is invisible to the other kinds and keeps kinds unique. */
  lemma ApprovalMerge(st: Status, c: Condition)
    requires c.kind == APPROVED && UniqueKinds(st.conditions)
    ensures var after := st.(conditions := Merge(st.conditions, c));
            && UniqueKinds(after.conditions)
            && StatusOf(after, READY) == StatusOf(st, READY)
            && StatusOf(after, HEALTH_CHECKED) == StatusOf(st, HEALTH_CHECKED)
            && (IsApproved(after.conditions) <==> c.status == ConditionTrue)
  {
    MergeKeepsUnique(st.conditions, c);
    MergeLookup(st.conditions, c, READY);
    MergeLookup(st.conditions, c, HEALTH_CHECKED);
    MergeApproved(st.conditions, c);
  }

  lemma CheckKeeps(spec: Spec, generation: int, st: Status, env: Env)
    requires UniqueKinds(st.conditions) && st.registeredAt.Some?
    ensures WellFormed(Check(spec, generation, st, env).status)
    ensures IsApproved(Check(spec, generation, st, env).status.conditions) == IsApproved(st.conditions)
  {
    var checked := Checked(spec, st, env);
    UpdatedConditions(checked.(observedGeneration := generation), checked.health == Healthy, generation, env.conditionTime);
  }

  lemma ApprovalGateKeeps(st: Status, generation: int, now: nat)
    requires WellFormed(st) && st.registeredAt.Some?
    ensures WellFormed(st.(phase := Pending, health := Unknown, message := Text("Waiting for approval."),
                           conditions := Merge(st.conditions, ApprovalCondition(false, generation, now))))
  {
    ApprovalMerge(st, ApprovalCondition(false, generation, now));
  }

  /** Every reconcile keeps the invariant, from any status that has it. */
  lemma DecideKeeps(spec: Spec, generation: int, st: Status, conflict: Option<Key>, env: Env)
    requires WellFormed(st)
    ensures WellFormed(Decide(spec, generation, st, conflict, env).status)
  {
    var stamped := Stamp(st, env.registerTime);
    assert WellFormed(stamped);
    if conflict.Some? || !spec.enabled {
    } else if !RequiresApproval(env.config) {
      CheckKeeps(spec, generation, stamped, env);
    } else if IsApproved(st.conditions) {
      var yes := ApprovalCondition(true, generation, env.approvalTime);
      ApprovalMerge(stamped, yes);
      CheckKeeps(spec, generation, stamped.(conditions := Merge(stamped.conditions, yes)), env);
    } else {
      ApprovalGateKeeps(stamped, generation, env.approvalTime);
    }
  }

  lemma ApproveKeeps(st: Status, generation: int, now: nat)
    requires WellFormed(st)
    ensures WellFormed(Approve(st, generation, now)) && IsApproved(Approve(st, generation, now).conditions)
  {
    ApprovalMerge(st, Condition(APPROVED, ConditionTrue, generation, now, "Approved", Text("Agent has been approved via dashboard.")));
  }

  /** A reconcile neither grants nor revokes an approval, and with one on record the approval gate is open. */
  lemma DecideKeepsApproval(spec: Spec, generation: int, st: Status, conflict: Option<Key>, env: Env)
    requires UniqueKinds(st.conditions)
    ensures IsApproved(Decide(spec, generation, st, conflict, env).status.conditions) == IsApproved(st.conditions)
    ensures IsApproved(st.conditions) ==> Decide(spec, generation, st, conflict, env).exit != ApprovalExit
  {
    hide Check, Merge;
    var stamped := Stamp(st, env.registerTime);
    var approved := stamped.(conditions := Merge(stamped.conditions, ApprovalCondition(true, generation, env.approvalTime)));
    ExitOrder(spec, generation, st, conflict, env);
    ApprovalMerge(stamped, ApprovalCondition(true, generation, env.approvalTime));
    ApprovalMerge(stamped, ApprovalCondition(false, generation, env.approvalTime));
    CheckKeeps(spec, generation, approved, env);
    CheckKeeps(spec, generation, stamped, env);
  }

  /** Which exit is taken: the gates in order, then the kind of check. */
  lemma ExitOrder(spec: Spec, generation: int, st: Status, conflict: Option<Key>, env: Env)
    ensures var o := Decide(spec, generation, st, conflict, env);
            var gated := conflict.Some? || !spec.enabled || (RequiresApproval(env.config) && !IsApproved(st.conditions));
            && (o.exit == ConflictExit <==> conflict.Some?)
            && (o.exit == DisabledExit <==> conflict.None? && !spec.enabled)
            && (o.exit == ApprovalExit <==> gated && conflict.None? && spec.enabled)
            && (o.exit == CheckSkipped <==> !gated && SkipsCheck(env.config))
            && (o.exit == CheckPassed <==> !gated && !SkipsCheck(env.config) && env.probe.healthy)
            && (o.exit == CheckFailed <==> !gated && !SkipsCheck(env.config) && !env.probe.healthy)
            && (o.written <==> !(o.exit == DisabledExit && st.phase == Pending))
  {
  }

  predicate IsCheck(exit: Exit) {
    exit in {CheckSkipped, CheckPassed, CheckFailed}
  }

  lemma CheckFrame(spec: Spec, generation: int, st: Status, env: Env)
    ensures var o := Check(spec, generation, st, env);
            var after := o.status;
            && IsCheck(o.exit) && after.observedGeneration == generation
            && (o.exit == CheckFailed ==> after.lastHeartbeat == st.lastHeartbeat && after.cardHash == st.cardHash)
            && (o.exit != CheckFailed ==> after.lastHeartbeat == Some(env.checkTime) && after.consecutiveFailures == 0
                                          && after.phase in {Ready, Error})
  {
    hide Cards.CardMatch, Merge, Threshold, Interval, PassEvents, FailEvents;
  }

  /**
   What each exit shows and what it leaves alone.  A gated exit emits nothing and touches neither
   the counter, the heartbeat, the card hash, the observed generation nor the Ready and
   HealthChecked conditions, however stale they are; only a check does, and only a failed check
   leaves the heartbeat.
   */
  lemma ExitFrame(spec: Spec, generation: int, st: Status, conflict: Option<Key>, env: Env)
    ensures var o := Decide(spec, generation, st, conflict, env);
            var after := o.status;
            && (o.exit == ConflictExit ==> after.phase == Error && after.health == Unhealthy && after.message.UrlConflict?
                                           && after.conditions == st.conditions)
            && (o.exit == DisabledExit ==> after.phase == Pending && after.conditions == st.conditions)
            && (o.exit == ApprovalExit ==> after.phase == Pending && after.health == Unknown)
            && (!IsCheck(o.exit) ==>
                  && after.consecutiveFailures == st.consecutiveFailures && after.lastHeartbeat == st.lastHeartbeat
                  && after.cardHash == st.cardHash && after.observedGeneration == st.observedGeneration
                  && StatusOf(after, READY) == StatusOf(st, READY)
                  && StatusOf(after, HEALTH_CHECKED) == StatusOf(st, HEALTH_CHECKED)
                  && o.events == [])
            && (IsCheck(o.exit) ==> after.observedGeneration == generation)
            && (o.exit == CheckFailed ==> after.lastHeartbeat == st.lastHeartbeat && after.cardHash == st.cardHash)
            && (o.exit in {CheckSkipped, CheckPassed} ==> after.lastHeartbeat == Some(env.checkTime) && after.consecutiveFailures == 0
                                                          && after.phase in {Ready, Error})
            && (o.exit == ApprovalExit ==> !IsApproved(after.conditions))
  {
    hide Check, Merge;
    var stamped := Stamp(st, env.registerTime);
    var no := ApprovalCondition(false, generation, env.approvalTime);
    MergeLookup(stamped.conditions, no, READY);
    MergeLookup(stamped.conditions, no, HEALTH_CHECKED);
    MergeApproved(stamped.conditions, no);
    CheckFrame(spec, generation, stamped, env);
    CheckFrame(spec, generation,
      stamped.(conditions := Merge(stamped.conditions, ApprovalCondition(true, generation, env.approvalTime))), env);
  }

  /** A failed check counts one more failure and compares the new count with the threshold. */
  lemma FailedCheck(spec: Spec, generation: int, st: Status, conflict: Option<Key>, env: Env)
    requires Decide(spec, generation, st, conflict, env).exit == CheckFailed
    ensures var after := Decide(spec, generation, st, conflict, env).status;
            && after.consecutiveFailures == Next32(st.consecutiveFailures)
            && after.phase == (if after.consecutiveFailures >= Threshold(spec) then Unreachable else Error)
            && after.health == Unhealthy
  {
  }

  /** A check never reports a URL conflict, and finds an agent unreachable only by failing at the threshold. */
  lemma CheckSays(spec: Spec, generation: int, st: Status, env: Env)
    ensures var o := Check(spec, generation, st, env);
            && !o.status.message.UrlConflict?
            && (o.status.phase == Unreachable ==> o.exit == CheckFailed && o.status.consecutiveFailures >= Threshold(spec))
  {
    hide Cards.CardMatch, Merge, Threshold, Interval, PassEvents, FailEvents;
  }

  lemma DecideSays(spec: Spec, generation: int, st: Status, conflict: Option<Key>, env: Env)
    ensures var o := Decide(spec, generation, st, conflict, env);
            && (o.written ==> (o.status.message.UrlConflict? <==> conflict.Some?))
            && (o.status.phase == Unreachable ==> o.exit == CheckFailed && o.status.consecutiveFailures >= Threshold(spec))
  {
    hide Check, Merge, IsApproved, Threshold;
    var stamped := Stamp(st, env.registerTime);
    CheckSays(spec, generation, stamped, env);
    CheckSays(spec, generation,
      stamped.(conditions := Merge(stamped.conditions, ApprovalCondition(true, generation, env.approvalTime))), env);
  }

  predicate Announces(events: seq<Event>) {
    exists i :: 0 <= i < |events| && events[i].AgentUnreachable?
  }

  lemma CheckAnnounces(spec: Spec, generation: int, st: Status, env: Env)
    ensures var o := Check(spec, generation, st, env);
            Announces(o.events) <==> st.phase != Unreachable && o.status.phase == Unreachable
  {
    hide Cards.CardMatch, Merge;
    var o := Check(spec, generation, st, env);
    if o.exit == CheckFailed && st.phase != Unreachable && o.status.phase == Unreachable {
      assert o.events[0].AgentUnreachable?;
    }
  }

  /** AgentUnreachable is emitted by exactly the reconciles that enter Unreachable. */
  lemma AnnouncesIffEnters(spec: Spec, generation: int, st: Status, conflict: Option<Key>, env: Env)
    ensures var o := Decide(spec, generation, st, conflict, env);
            Announces(o.events) <==> st.phase != Unreachable && o.status.phase == Unreachable
  {
    hide Check, Merge;
    var stamped := Stamp(st, env.registerTime);
    CheckAnnounces(spec, generation, stamped, env);
    CheckAnnounces(spec, generation,
      stamped.(conditions := Merge(stamped.conditions, ApprovalCondition(true, generation, env.approvalTime))), env);
  }

  /** One healthy probe whose card is accepted recovers an ungated agent completely, whatever its status was. */
  lemma HealthyProbeRecovers(spec: Spec, generation: int, st: Status, env: Env)
    requires spec.enabled && (RequiresApproval(env.config) ==> IsApproved(st.conditions))
    requires UniqueKinds(st.conditions)
    requires !SkipsCheck(env.config) && env.probe.healthy && CardVerdict(spec, env).None?
    ensures var after := Decide(spec, generation, st, None, env).status;
            after.phase == Ready && after.health == Healthy && after.consecutiveFailures == 0 && WellFormed(after)
  {
    var stamped := Stamp(st, env.registerTime);
    var approved := stamped.(conditions := Merge(stamped.conditions, ApprovalCondition(true, generation, env.approvalTime)));
    ApprovalMerge(stamped, ApprovalCondition(true, generation, env.approvalTime));
    CheckKeeps(spec, generation, approved, env);
    CheckKeeps(spec, generation, stamped, env);
  }
}
