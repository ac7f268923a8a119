/**
 The whole life of one agent as the sequence of status writes that were committed for it.  The
 interleaved system is shown elsewhere to store exactly the replay of this log, so everything
 proved here holds of every reachable agent.
 */
module History {
  import opened Types
  import opened Conditions
  import opened Lifecycle
  import Outcomes

  /** A committed status write, with everything its writer had read. */
  datatype Commit =
    | Reconciled(spec: Spec, generation: int, conflict: Option<Key>, env: Env)
    | Approved(generation: int, now: nat)

  type Log = seq<Commit>

  function Apply(st: Status, c: Commit): Status {
    match c
    case Reconciled(spec, generation, conflict, env) => Decide(spec, generation, st, conflict, env).status
    case Approved(generation, now) => Approve(st, generation, now)
  }

  function Replay(log: Log): Status {
    if log == [] then EMPTY_STATUS else Apply(Replay(log[..|log| - 1]), log[|log| - 1])
  }

  /** The outcome of the i-th commit, which must be a reconcile. */
  function OutcomeAt(log: Log, i: nat): Outcome
    requires i < |log| && log[i].Reconciled?
  {
    Decide(log[i].spec, log[i].generation, Replay(log[..i]), log[i].conflict, log[i].env)
  }

  predicate ExitsBy(log: Log, i: nat, exit: Exit)
    requires i < |log|
  {
    log[i].Reconciled? && OutcomeAt(log, i).exit == exit
  }

  /** Every status in the life of an agent satisfies the lifecycle invariant. */
  lemma {:induction false} EveryStatusWellFormed(log: Log)
    ensures WellFormed(Replay(log))
  {
    hide Decide;
    if log != [] {
      var before := Replay(log[..|log| - 1]);
      EveryStatusWellFormed(log[..|log| - 1]);
      match log[|log| - 1]
      case Reconciled(spec, generation, conflict, env) => DecideKeeps(spec, generation, before, conflict, env);
      case Approved(generation, now) => ApproveKeeps(before, generation, now);
    }
  }

  lemma RegistrationKept(st: Status, c: Commit)
    requires st.registeredAt.Some?
    ensures Apply(st, c).registeredAt == st.registeredAt
  {
  }

  /** The registration time is set by the first reconcile that commits and never changes afterwards. */
  lemma {:induction false} RegisteredOnce(log: Log, i: nat)
    requires i <= |log| && Replay(log[..i]).registeredAt.Some?
    ensures Replay(log).registeredAt == Replay(log[..i]).registeredAt
  {
    hide Apply;
    if i == |log| {
      assert log[..i] == log;
    } else {
      var rest := log[..|log| - 1];
      assert rest[..i] == log[..i];
      RegisteredOnce(rest, i);
      RegistrationKept(Replay(rest), log[|log| - 1]);
    }
  }

  // ----- the failure counter

  /** A committed check: whether it counts as a success, and when it began. */
  datatype CheckRecord = CheckRecord(ok: bool, time: nat)

  /** What a commit contributes to the check history: one record for a check, nothing for anything else. */
  function Result(st: Status, c: Commit): seq<CheckRecord> {
    match c
    case Approved(_, _) => []
    case Reconciled(spec, generation, conflict, env) =>
      match Decide(spec, generation, st, conflict, env).exit
      case CheckFailed => [CheckRecord(false, env.checkTime)]
      case CheckPassed => [CheckRecord(true, env.checkTime)]
      case CheckSkipped => [CheckRecord(true, env.checkTime)]
      case _ => []
  }

  /** The checks that were committed, oldest first; a skipped check counts as a success. */
  function Checks(log: Log): seq<CheckRecord> {
    if log == [] then []
    else Checks(log[..|log| - 1]) + Result(Replay(log[..|log| - 1]), log[|log| - 1])
  }

  /** The length of the longest suffix without a success. */
  function FailingSuffix(checks: seq<CheckRecord>): (n: nat)
    ensures n <= |checks|
    ensures forall i :: |checks| - n <= i < |checks| ==> !checks[i].ok
    ensures n < |checks| ==> checks[|checks| - n - 1].ok
  {
    if checks == [] || checks[|checks| - 1].ok then 0 else 1 + FailingSuffix(checks[..|checks| - 1])
  }

  lemma SuffixStep(checks: seq<CheckRecord>, r: CheckRecord)
    ensures FailingSuffix(checks + [r]) == if r.ok then 0 else FailingSuffix(checks) + 1
    ensures FailingSuffix(checks + []) == FailingSuffix(checks)
  {
    assert (checks + [r])[..|checks|] == checks;
    assert checks + [] == checks;
  }

  /** The heartbeat that a check history leaves: the time of its last success. */
  function LastSuccess(checks: seq<CheckRecord>): Option<nat> {
    var n := FailingSuffix(checks);
    if n == |checks| then None else Some(checks[|checks| - n - 1].time)
  }

  /** A commit moves the counter and the heartbeat exactly as its check record says, if it has one. */
  lemma StepEffect(st: Status, c: Commit)
    ensures var r := Result(st, c);
            var after := Apply(st, c);
            && (r == [] || r == [r[0]])
            && after.consecutiveFailures ==
                 (if r == [] then st.consecutiveFailures else if r[0].ok then 0 else Next32(st.consecutiveFailures))
            && after.lastHeartbeat == (if r != [] && r[0].ok then Some(r[0].time) else st.lastHeartbeat)
  {
    hide Decide;
    if c.Reconciled? {
      ExitFrame(c.spec, c.generation, st, c.conflict, c.env);
      if Decide(c.spec, c.generation, st, c.conflict, c.env).exit == CheckFailed {
        FailedCheck(c.spec, c.generation, st, c.conflict, c.env);
      }
    }
  }

  lemma StepKeepsHistory(st: Status, c: Commit, checks: seq<CheckRecord>)
    requires st.consecutiveFailures == Count32(FailingSuffix(checks)) && st.lastHeartbeat == LastSuccess(checks)
    ensures Apply(st, c).consecutiveFailures == Count32(FailingSuffix(checks + Result(st, c)))
    ensures Apply(st, c).lastHeartbeat == LastSuccess(checks + Result(st, c))
  {
    hide Apply, Result;
    StepEffect(st, c);
    var r := Result(st, c);
    if r == [] {
      assert checks + r == checks;
    } else {
      SuffixStep(checks, r[0]);
    }
  }

  /**
   The stored counter is the length of the run of failures that ends the committed checks, kept as
   an int32, and the heartbeat is the time of the check just before that run.  URL-conflict,
   disabled and unapproved reconciles and approvals are invisible to both.
   */
  lemma {:induction false} StatusRemembersChecks(log: Log)
    ensures Replay(log).consecutiveFailures == Count32(FailingSuffix(Checks(log)))
    ensures Replay(log).lastHeartbeat == LastSuccess(Checks(log))
  {
    hide Decide;
    if log != [] {
      StatusRemembersChecks(log[..|log| - 1]);
      StepKeepsHistory(Replay(log[..|log| - 1]), log[|log| - 1], Checks(log[..|log| - 1]));
    }
  }

  ghost predicate LastAllFailed(checks: seq<CheckRecord>, n: nat) {
    n <= |checks| && forall i :: |checks| - n <= i < |checks| ==> !checks[i].ok
  }

  lemma LastAllFailedIffSuffix(checks: seq<CheckRecord>, n: nat)
    ensures LastAllFailed(checks, n) <==> FailingSuffix(checks) >= n
  {
    var k := FailingSuffix(checks);
    if k < n <= |checks| {
      assert checks[|checks| - k - 1].ok;
    }
  }

  /**
   Right after a failed check the agent is Unreachable exactly when the last T committed checks all
   failed, T being the agent's own threshold when that is positive and three otherwise, provided the
   run of failures fits the counter.  In full generality the wrapped counter decides.
   */
  lemma UnreachableIffThresholdFailed(log: Log)
    requires log != [] && ExitsBy(log, |log| - 1, CheckFailed)
    ensures var own := log[|log| - 1].spec.healthCheck;
            var t := if own.Some? && own.value.failureThreshold > 0 then own.value.failureThreshold else 3;
            var n := FailingSuffix(Checks(log));
            && Replay(log).phase in {Error, Unreachable}
            && (Replay(log).phase == Unreachable <==> Count32(n) >= t)
            && (n < 0x8000_0000 ==> (Replay(log).phase == Unreachable <==> LastAllFailed(Checks(log), t)))
  {
    hide Decide;
    var c := log[|log| - 1];
    StatusRemembersChecks(log);
    Count32Value(FailingSuffix(Checks(log)));
    var own := c.spec.healthCheck;
    LastAllFailedIffSuffix(Checks(log), if own.Some? && own.value.failureThreshold > 0 then own.value.failureThreshold else 3);
    Outcomes.FailedPhase(c.spec, c.generation, Replay(log[..|log| - 1]), c.conflict, c.env);
  }

  // ----- what the phase says about the last reconcile

  /** The i-th commit is a reconcile, and only approvals follow it. */
  ghost predicate LastReconcile(log: Log, i: nat) {
    i < |log| && log[i].Reconciled? && forall j :: i < j < |log| ==> log[j].Approved?
  }

  lemma {:induction false} LastReconcileDecides(log: Log)
    ensures (exists i :: LastReconcile(log, i)) || Replay(log).phase == NoPhase
    ensures forall i :: LastReconcile(log, i) ==> Replay(log).phase == OutcomeAt(log, i).status.phase
  {
    hide Decide;
    if log != [] {
      var k := |log| - 1;
      var rest := log[..k];
      LastReconcileDecides(rest);
      if log[k].Reconciled? {
        assert LastReconcile(log, k);
      } else {
        forall i: nat ensures LastReconcile(log, i) <==> LastReconcile(rest, i) {
          assert forall j :: 0 <= j < k ==> log[j] == rest[j];
        }
        forall i: nat | LastReconcile(log, i) ensures Replay(log).phase == OutcomeAt(log, i).status.phase {
          assert LastReconcile(rest, i) && rest[..i] == log[..i];
        }
        if exists i :: LastReconcile(rest, i) {
          var i: nat :| LastReconcile(rest, i);
          assert LastReconcile(log, i);
        }
      }
    }
  }

  /** The i-th commit read everything that makes an agent Ready; an approval counts when it was committed before. */
  ghost predicate Passes(log: Log, i: nat)
    requires i < |log| && log[i].Reconciled?
  {
    && log[i].conflict.None? && log[i].spec.enabled
    && (Outcomes.Demanded(log[i].env) ==> ApprovedWithin(log, i))
    && Outcomes.Passing(log[i].spec, log[i].env)
  }

  lemma ReadyAtIff(log: Log, i: nat)
    requires i < |log| && log[i].Reconciled?
    ensures OutcomeAt(log, i).status.phase == Ready <==> Passes(log, i)
  {
    hide Decide, Replay, Outcomes.Passing;
    ApprovedIffCommitted(log[..i]);
    ApprovedWithinPrefix(log, i);
    Outcomes.ReadyIff(log[i].spec, log[i].generation, Replay(log[..i]), log[i].conflict, log[i].env);
  }

  /** An agent is Ready exactly when its last committed reconcile read everything that makes it so. */
  lemma ReadyIffLastPassed(log: Log)
    ensures Replay(log).phase == Ready <==> exists i :: LastReconcile(log, i) && Passes(log, i)
  {
    hide Decide, Replay, Passes, LastReconcile;
    LastReconcileDecides(log);
    forall i: nat | LastReconcile(log, i) ensures i < |log| && log[i].Reconciled? && (Replay(log).phase == Ready <==> Passes(log, i)) {
      LastIsReconcile(log, i);
      ReadyAtIff(log, i);
    }
  }

  lemma LastIsReconcile(log: Log, i: nat)
    requires LastReconcile(log, i)
    ensures i < |log| && log[i].Reconciled?
  {
  }

  /** The wrap-around is real: after 2^31 failures in a row a failing agent drops back from Unreachable to Error. */
  lemma WrapDefeatsThreshold(log: Log)
    requires log != [] && ExitsBy(log, |log| - 1, CheckFailed)
    requires FailingSuffix(Checks(log)) == 0x8000_0000
    ensures Replay(log).phase == Error && LastAllFailed(Checks(log), Threshold(log[|log| - 1].spec))
  {
    hide Decide;
    Count32Value(0x8000_0000);
    UnreachableIffThresholdFailed(log);
    LastAllFailedIffSuffix(Checks(log), Threshold(log[|log| - 1].spec));
  }

  // ----- approvals

  /** An approval is among the first n commits. */
  ghost predicate ApprovedWithin(log: Log, n: nat) {
    exists i :: 0 <= i < n && i < |log| && log[i].Approved?
  }

  lemma ApprovedWithinPrefix(log: Log, n: nat)
    requires n <= |log|
    ensures ApprovedWithin(log[..n], n) <==> ApprovedWithin(log, n)
  {
    forall i | 0 <= i < n ensures log[..n][i] == log[i] {
    }
    if ApprovedWithin(log, n) {
      var i :| 0 <= i < n && i < |log| && log[i].Approved?;
      assert log[..n][i].Approved?;
    }
  }

  /** An agent is approved exactly when an approval has been committed: no reconcile grants or revokes one. */
  lemma {:induction false} ApprovedIffCommitted(log: Log)
    ensures IsApproved(Replay(log).conditions) <==> ApprovedWithin(log, |log|)
  {
    hide Decide;
    if log != [] {
      var last := |log| - 1;
      var before := Replay(log[..last]);
      EveryStatusWellFormed(log[..last]);
      ApprovedIffCommitted(log[..last]);
      ApprovedWithinPrefix(log, last);
      match log[last]
      case Approved(generation, now) =>
        ApproveKeeps(before, generation, now);
        assert log[last].Approved?;
      case Reconciled(spec, generation, conflict, env) =>
        DecideKeepsApproval(spec, generation, before, conflict, env);
        assert ApprovedWithin(log, |log|) <==> ApprovedWithin(log, last);
    }
  }

  /** Once an approval is committed every later committed status carries it. */
  lemma ApprovalIsKept(log: Log, i: nat)
    requires i < |log| && log[i].Approved?
    ensures IsApproved(Replay(log).conditions)
  {
    ApprovedIffCommitted(log);
  }

  /**
   Exactly which reconciles check the agent: those past the URL gate of an enabled agent whose
   configuration, as read, does not demand approval or is preceded by a committed one.
   */
  lemma CheckedIff(log: Log, i: nat)
    requires i < |log| && log[i].Reconciled?
    ensures IsCheck(OutcomeAt(log, i).exit) <==>
              log[i].conflict.None? && log[i].spec.enabled && (RequiresApproval(log[i].env.config) ==> ApprovedWithin(log, i))
  {
    hide Decide, Replay;
    ApprovedIffCommitted(log[..i]);
    ApprovedWithinPrefix(log, i);
    ExitOrder(log[i].spec, log[i].generation, Replay(log[..i]), log[i].conflict, log[i].env);
  }

  /** Every reconcile in the log read a configuration that demands approval. */
  ghost predicate AlwaysDemanded(log: Log) {
    forall i :: 0 <= i < |log| && log[i].Reconciled? ==> RequiresApproval(log[i].env.config)
  }

  ghost predicate NeverApproved(log: Log) {
    forall i :: 0 <= i < |log| ==> !log[i].Approved?
  }

  /** While approval is demanded and not given, no check is committed and the agent never gets past the gates. */
  lemma {:induction false} NothingBeforeApproval(log: Log)
    requires AlwaysDemanded(log) && NeverApproved(log)
    ensures !IsApproved(Replay(log).conditions) && Checks(log) == []
    ensures Replay(log).phase !in {Ready, Unreachable} && Replay(log).lastHeartbeat.None?
  {
    hide Decide;
    if log != [] {
      var i := |log| - 1;
      var before := Replay(log[..i]);
      assert forall j :: 0 <= j < i ==> log[..i][j] == log[j];
      NothingBeforeApproval(log[..i]);
      EveryStatusWellFormed(log[..i]);
      assert log[i].Reconciled?;
      ExitOrder(log[i].spec, log[i].generation, before, log[i].conflict, log[i].env);
      ExitFrame(log[i].spec, log[i].generation, before, log[i].conflict, log[i].env);
      MergeApproved(before.conditions, ApprovalCondition(false, log[i].generation, log[i].env.approvalTime));
    }
  }

  // ----- heartbeats and pruning

  const WEEK: nat := 7 * 24 * 60 * 60

  /** What the registry prunes at time now. */
  predicate Stale(st: Status, now: nat) {
    st.phase == Unreachable && st.lastHeartbeat.Some? && st.lastHeartbeat.value < now - WEEK
  }

  /** The prune test in its own terms: Unreachable, and more than 604800 seconds since the last success. */
  lemma StaleAfterSevenDays(st: Status, now: nat)
    ensures Stale(st, now) <==> st.phase == Unreachable && exists t :: st.lastHeartbeat == Some(t) && now - t > 604_800
  {
  }

  /** The i-th commit is a failed check whose counter reached the threshold, and only approvals follow it. */
  ghost predicate EndsInThreshold(log: Log, i: nat) {
    && i < |log| && ExitsBy(log, i, CheckFailed)
    && Replay(log[..i + 1]).consecutiveFailures >= Threshold(log[i].spec)
    && forall j :: i < j < |log| ==> log[j].Approved?
  }

  lemma EndsInThresholdExtends(log: Log, k: nat, i: nat)
    requires k + 1 == |log| && EndsInThreshold(log[..k], i) && log[k].Approved?
    ensures EndsInThreshold(log, i)
  {
    hide Decide;
    assert log[..k][..i] == log[..i] && log[..k][..i + 1] == log[..i + 1];
  }

  lemma {:induction false} UnreachableEndsInThreshold(log: Log)
    requires Replay(log).phase == Unreachable
    ensures exists i :: EndsInThreshold(log, i)
  {
    hide Decide;
    var k := |log| - 1;
    match log[k]
    case Reconciled(spec, generation, conflict, env) =>
      DecideSays(spec, generation, Replay(log[..k]), conflict, env);
      assert log[..k + 1] == log;
      assert EndsInThreshold(log, k);
    case Approved(_, _) =>
      UnreachableEndsInThreshold(log[..k]);
      var i: nat :| EndsInThreshold(log[..k], i);
      EndsInThresholdExtends(log, k, i);
  }

  /** The last success began more than seven days before now, and only failed checks came after it. */
  ghost predicate LongFailing(checks: seq<CheckRecord>, now: nat) {
    exists s :: 0 <= s < |checks| && checks[s].ok && checks[s].time < now - WEEK
                && forall i :: s < i < |checks| ==> !checks[i].ok
  }

  lemma LongFailingIffLastSuccess(checks: seq<CheckRecord>, now: nat)
    ensures LongFailing(checks, now) <==> LastSuccess(checks).Some? && LastSuccess(checks).value < now - WEEK
  {
    var last := |checks| - FailingSuffix(checks) - 1;
    if LongFailing(checks, now) {
      var s :| 0 <= s < |checks| && checks[s].ok && checks[s].time < now - WEEK
               && forall i :: s < i < |checks| ==> !checks[i].ok;
      assert last >= 0 && checks[last].ok;
      assert s == last;
    } else if last >= 0 {
      assert checks[last].ok;
    }
  }

  lemma {:induction false} EndsInThresholdIsUnreachable(log: Log, i: nat)
    requires EndsInThreshold(log, i)
    ensures Replay(log).phase == Unreachable
  {
    hide Decide;
    var k := |log| - 1;
    if i == k {
      assert log[..k + 1] == log;
      FailedCheck(log[k].spec, log[k].generation, Replay(log[..k]), log[k].conflict, log[k].env);
    } else {
      assert log[..k][..i] == log[..i] && log[..k][..i + 1] == log[..i + 1];
      EndsInThresholdIsUnreachable(log[..k], i);
    }
  }

  /**
   Pruning is safe, and it misses nothing: a status is stale exactly when the last committed success
   began more than seven days ago, only failed checks were committed after it, and the last
   reconcile was a failed check whose counter had reached the threshold.  In particular an agent
   that never succeeded is never stale.
   */
  lemma StaleIffLongFailing(log: Log, now: nat)
    ensures Stale(Replay(log), now) <==> LongFailing(Checks(log), now) && exists i :: EndsInThreshold(log, i)
  {
    hide Apply;
    StatusRemembersChecks(log);
    LongFailingIffLastSuccess(Checks(log), now);
    if Replay(log).phase == Unreachable {
      UnreachableEndsInThreshold(log);
    } else if exists i: nat :: EndsInThreshold(log, i) {
      var i: nat :| EndsInThreshold(log, i);
      EndsInThresholdIsUnreachable(log, i);
    }
  }

  // ----- events

  function UnreachableEvents(log: Log): nat {
    if log == [] then 0
    else
      var i := |log| - 1;
      UnreachableEvents(log[..i])
      + (if log[i].Reconciled? && Announces(OutcomeAt(log, i).events) then 1 else 0)
  }

  function ExitsFromUnreachable(log: Log): nat {
    if log == [] then 0
    else
      var i := |log| - 1;
      ExitsFromUnreachable(log[..i])
      + (if Replay(log[..i]).phase == Unreachable && Replay(log).phase != Unreachable then 1 else 0)
  }

  /** AgentUnreachable is announced once per stay in Unreachable: on entering it and at no other time. */
  lemma {:induction false} EventsBalance(log: Log)
    ensures UnreachableEvents(log) == ExitsFromUnreachable(log) + (if Replay(log).phase == Unreachable then 1 else 0)
  {
    hide Decide;
    if log != [] {
      var i := |log| - 1;
      assert log[..i + 1] == log;
      EventsBalance(log[..i]);
      if log[i].Reconciled? {
        AnnouncesIffEnters(log[i].spec, log[i].generation, Replay(log[..i]), log[i].conflict, log[i].env);
      }
    }
  }

  // ----- continuous failure

  /** A reconcile that gets past the gates, as far as the approval on record allows, and fails its probe. */
  ghost predicate FailsUngated(c: Commit, threshold: int32, approved: bool) {
    c.Reconciled? && c.conflict.None? && c.spec.enabled && (RequiresApproval(c.env.config) ==> approved)
    && !SkipsCheck(c.env.config) && !c.env.probe.healthy && Threshold(c.spec) == threshold
  }

  function From(st: Status, commits: Log): Status {
    if commits == [] then st else Apply(From(st, commits[..|commits| - 1]), commits[|commits| - 1])
  }

  /**
   Under continuous failure at a fixed threshold T, an agent leaves its n-th failing check as
   Unreachable exactly when its counter plus n, in int32 arithmetic, is at least T.  As long as a
   non-negative counter does not wrap, that is from n = max(1, T - counter) on.
   */
  lemma {:induction false} UnreachableAfterExactly(st: Status, commits: Log, threshold: int32)
    requires WellFormed(st)
    requires forall i :: 0 <= i < |commits| ==> FailsUngated(commits[i], threshold, IsApproved(st.conditions))
    ensures WellFormed(From(st, commits)) && (IsApproved(st.conditions) ==> IsApproved(From(st, commits).conditions))
    ensures From(st, commits).consecutiveFailures == Plus32(st.consecutiveFailures, |commits|)
    ensures commits != [] ==>
              From(st, commits).phase == if Plus32(st.consecutiveFailures, |commits|) >= threshold then Unreachable else Error
    ensures var first := if threshold - st.consecutiveFailures > 1 then threshold - st.consecutiveFailures else 1;
            commits != [] && st.consecutiveFailures + |commits| < 0x8000_0000 ==>
              From(st, commits).phase == if |commits| >= first then Unreachable else Error
  {
    hide Decide;
    Plus32Value(st.consecutiveFailures, |commits|);
    if commits != [] {
      var c := commits[|commits| - 1];
      var before := From(st, commits[..|commits| - 1]);
      UnreachableAfterExactly(st, commits[..|commits| - 1], threshold);
      DecideKeeps(c.spec, c.generation, before, c.conflict, c.env);
      if IsApproved(st.conditions) {
        DecideKeepsApproval(c.spec, c.generation, before, c.conflict, c.env);
      }
      ExitOrder(c.spec, c.generation, before, c.conflict, c.env);
      FailedCheck(c.spec, c.generation, before, c.conflict, c.env);
    }
  }

  // ----- staleness against time spent in Unreachable

  /**
   What makes an agent stale is the age of its last success, not time spent in Unreachable: a failed
   check leaves an agent stale, whatever it was before, exactly when it reaches the threshold and
   the last success is more than seven days old.
   */
  lemma FailedCheckMakesStaleIff(log: Log, c: Commit, now: nat)
    requires c.Reconciled? && Decide(c.spec, c.generation, Replay(log), c.conflict, c.env).exit == CheckFailed
    ensures Stale(Replay(log + [c]), now) <==>
              Next32(Replay(log).consecutiveFailures) >= Threshold(c.spec)
              && exists t :: Replay(log).lastHeartbeat == Some(t) && t < now - WEEK
  {
    hide Decide;
    assert (log + [c])[..|log|] == log;
    ExitFrame(c.spec, c.generation, Replay(log), c.conflict, c.env);
    FailedCheck(c.spec, c.generation, Replay(log), c.conflict, c.env);
  }

  /** From Ready, that takes a threshold of one. */
  lemma OneFailureMakesStaleIff(log: Log, c: Commit, threshold: int32, now: nat)
    requires Replay(log).phase == Ready && FailsUngated(c, threshold, IsApproved(Replay(log).conditions))
    ensures Stale(Replay(log + [c]), now) <==> threshold == 1 && exists t :: Replay(log).lastHeartbeat == Some(t) && t < now - WEEK
  {
    hide Decide, Replay;
    EveryStatusWellFormed(log);
    ExitOrder(c.spec, c.generation, Replay(log), c.conflict, c.env);
    FailedCheckMakesStaleIff(log, c, now);
  }

  ghost predicate InOrder(checks: seq<CheckRecord>) {
    forall i, j :: 0 <= i < j < |checks| ==> checks[i].time <= checks[j].time
  }

  /** The e-th check failed more than seven days ago, and every later one failed too. */
  ghost predicate FailingForAWeek(checks: seq<CheckRecord>, e: nat, now: nat) {
    e < |checks| && checks[e].time < now - WEEK && forall i :: e <= i < |checks| ==> !checks[i].ok
  }

  /**
   And an Unreachable agent that has been failing for more than seven days is stale exactly when
   some check of it ever succeeded: one that never did is never pruned.
   */
  lemma FailingForAWeekIsStaleIff(log: Log, e: nat, now: nat)
    requires Replay(log).phase == Unreachable && InOrder(Checks(log)) && FailingForAWeek(Checks(log), e, now)
    ensures Stale(Replay(log), now) <==> exists i :: 0 <= i < |Checks(log)| && Checks(log)[i].ok
  {
    hide Replay, Checks;
    StatusRemembersChecks(log);
    var checks := Checks(log);
    var last := |checks| - FailingSuffix(checks) - 1;
    if last >= 0 {
      assert checks[last].ok && last < e;
    }
  }
}
