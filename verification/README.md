# Agent lifecycle of an A2A registry operator

A model of a Kubernetes operator that registers A2A agents, probes them, and publishes the ones that are
healthy. The agent reconciler is a chain of ordered gates (deletion, registration, URL conflict, disabled,
approval) followed by a check (skipped by configuration, passed or failed). It shares one store with the
dashboard's approval handler, the registry reconciler that counts and prunes, the registration API, and
users who create, edit and delete agents at any time.

The main results are about all runs of these actors, interleaved at the grain of single API calls:

- **Serializability.** Every stored status is the replay of the status writes committed for that agent
  (`Protocol.RunsAreSerial`). Facts about one agent's life are proved on that log (`History`) and so hold of every
  reachable agent; the main ones are restated for runs (`Runs`).
- **What a status means.** The failure counter is the length of the run of failures that ends the committed
  checks, the heartbeat is the last success before it, Unreachable is the threshold reached, and Ready is a last
  reconcile that read everything that makes it so.
- **Approvals** are never lost and never granted by a reconcile. A check runs exactly when the configuration that
  its reconcile read demands no approval or one was committed before. A registry listing that fails waives the demand.
- **URLs.** The only Ready agent with a URL is the oldest holder of that URL, as long as edits and failed listings
  fit; for each of these two steps the condition is exact.
- **Pruning** removes exactly the agents whose last success is more than seven days old, that failed ever
  since, and whose last reconcile reached the threshold.
- **Conservation** of failures (stored and in flight against the metric), of AgentUnreachable events, and of
  the registry's counts.
- **Order independence.** A sweep over distinct agents is one pointwise update, whatever the order.

Around them: the condition-list algebra and its in-place implementation, card construction against card
matching, defaulting against validation, the list and search filters, and the heap separation of the deep
copies.

## How it is organised

| file | contents |
|---|---|
| `Types`, `Strings`, `MapSums` | values of the API, ASCII string operations, sums over maps |
| `Conditions`, `Cards` | condition lists over shared slices, card matching |
| `Lifecycle`, `Outcomes` | one reconcile of one agent as a function of what it read (`Decide`), and what it keeps; what it leaves, field by field, without naming that function's parts |
| `Store`, `Controller` | the versioned store; the reconciler, resolver, checker and approval handler as they run, on mutable objects, proved against `Decide` |
| `History` | the life of one agent as a log of commits |
| `Protocol`, `Runs`, `Urls`, `Conservation` | the interleaved system and its run-level theorems |
| `Sweep`, `Limits` | many reconciles in a row; the protocol's steps against the controller's call; runs in which a promise fails |
| `Registry`, `Discovery`, `Webhooks`, `ApiObjects` | the registry pass, the HTTP handlers' logic, admission, the structs in memory |

`dafny verify dfyconfig.toml` verifies everything.

## Assumptions

- The store is read at its current state. A listing may fail, and what the code's fail-open branches then let
  through is stated exactly (`Urls.GateKeepsUrlsIff`, `Controller.CheckedUnapprovedIffReadFails`).
  Updates succeed only on the version that was read. A write can also fail or be lost for any reason.
- Status is written by the agent reconciler and by the approval handler only. The approval by `kubectl patch`
  that the repository's `README.md:426-431` describes would be a third writer, and a merge patch that replaces
  the whole condition list without a version check; it is excluded. The single finalizer is the operator's own.
- Time is in whole seconds. Clocks, probe results, listing orders, URL parsing, the generated resource name
  and the spare capacity of an appended slice are inputs, left open. No clock is assumed to be monotone.
- Go's `int32` counters wrap, and the model wraps with them. Theorems about the counter say where it matters.
- Status messages and validation errors are structured values instead of formatted text.
- `dashboard.go:69-77` is a copy of `conditions.go:14-22` and shares its model.

## Where the code and its documentation differ

- The documentation promises a prune after seven consecutive days in Unreachable (the repository's `README.md:49`,
  `README.md:509`). The code compares the last heartbeat, and both halves of the promise fail. An agent can be pruned
  without having spent a week there: `History.FailedCheckMakesStaleIff` says exactly when a failed check makes it
  prunable at once, from any phase, and `Limits.PrunedWithoutAWeekUnreachable` is such a run. And an agent can spend any
  time there unpruned: `History.FailingForAWeekIsStaleIff` says that this is exactly an agent that never succeeded, and
  `Limits.UnreachableForeverUnpruned` is such a run.
- An approval that the registry demands (`README.md:264`) is skipped when the registries cannot be listed:
  `Controller.CheckedUnapprovedIffReadFails` is the exact condition, `Limits.FailedReadSkipsApproval` such a run.
- `README.md:333` says `spec.enabled: false` takes an agent out of service. With the webhooks on, defaulting
  turns it back on whenever a URL is set, so every agent that passes admission is enabled
  (`Webhooks.DefaultingAgents`).
- Discovery scope is said to be enforced at the API level (`README.md:43`). `Search` ignores it
  (`Discovery.SkillSearchAgreesIffInScope`). `ListAgents` compares it with `Namespace` exactly, while the validator
  accepts any case, and the chart's CRD, unlike the one under `config/crd`, has no enumeration
  (`deploy/helm/a2a-registry/crds/a2a.io_a2aregistries.yaml:94-96`): `Webhooks.ScopeEnforcedIff` gives the exact
  condition, `Webhooks.LowerCaseScopeIsIgnored` a valid registry whose namespaces are ignored.
- A conflicting URL is said to be detected and marked Error (`README.md:41`). When the listing fails it is not, and two
  Ready agents can share a URL (`Limits.FailedListingsBreakUniqueness`); the gate keeps its promise exactly when it
  could list, or let the oldest holder through (`Urls.GateKeepsUrlsIff`). An edit of a URL can break it as well
  (`Limits.EditBreaksUniqueness`, `Urls.EditKeepsUrlsIff`). The registration handler refuses URLs in use, but two
  registrations that list before either creates both succeed (`Limits.RegistrationRace`).
- A prune deletes by name what was listed earlier. `Limits.PruneCanHitRecovered` is a run in which it hits an
  agent that is Ready again; `Runs.PruneSafeIffStillStale` says when a prune is deserved.
- Defaulting is idempotent but does not always keep a valid resource valid; `Webhooks.DefaultingAgents` and
  `Webhooks.DefaultingRegistries` give the exact exceptions.

## Model

| member | source | states |
|---|---|---|
| Types.Count32Value | api/v1/a2aagent_types.go:134-135 | an int32 counter is exact for fewer than 2^31 increments, then wraps to the smallest value, and never exceeds the true count |
| Types.Plus32Value | controllers/a2aagent_controller.go:221 | incrementing n times from any counter is addition in 32-bit two's complement |
| Slices.Append | controllers/conditions.go:21 | append keeps the old view intact and either reuses the backing array or moves to a new one |
| Conditions.MergeLookup | controllers/conditions.go:14-22 | a merge returns the merged value on lookup and is invisible to every other type |
| Conditions.MergeInPlace | controllers/conditions.go:14-22 | a merge overwrites the first entry of its type in place, or appends; order and all other entries stay |
| Conditions.MergeKeepsUnique | controllers/conditions.go:14-22 | unique types stay unique |
| Conditions.MergeTwice | controllers/conditions.go:14-22 | repeated merges of one type are last-write-wins |
| Conditions.MergeApproved | controllers/a2aagent_controller.go:371-378 | the approval scan after any merge, for any list: unaffected by other types, on after True, off after anything else unless a second Approved entry hides a True, which unique types exclude |
| Conditions.MergeCondition | controllers/conditions.go:14-22 | the in-place loop computes the merge; it reuses the caller's slice exactly when the type is present and otherwise leaves the caller's view unchanged |
| Conditions.IsApprovedScan | controllers/a2aagent_controller.go:371-378 | true exactly when some Approved condition is True |
| Cards.MissingIsFirst | controllers/a2aagent_controller.go:292-303 | a skill report names the first spec skill the card lacks, and there is none exactly when the card has all |
| Cards.CardMatchIsAgreement | controllers/a2aagent_controller.go:282-305 | the check accepts exactly when every non-empty name, description and version agrees and the spec's skill ids are among the card's |
| Cards.FieldReports | controllers/a2aagent_controller.go:283-291 | a field report is about the first of name, description and version that disagrees, with both values |
| Cards.CheckCardMatch | controllers/a2aagent_controller.go:282-305 | the nested loops with the found flag compute that verdict |
| Cards.PublishedCardMatches | internal/registry/handler.go:575-606 | the card built from any spec passes the card check against that spec |
| Cards.AgentToCard | internal/registry/handler.go:575-606 | the appending loop builds the card, field by field: identity, the URL as its interface, capabilities, modes, and every skill at its index |
| Lifecycle.UpdatedConditions | controllers/a2aagent_controller.go:334-369 | after updateConditions types are unique, HealthChecked follows the health, Ready follows the phase, and approval is unchanged |
| Lifecycle.DecideKeeps | controllers/a2aagent_controller.go:84-246 | every reconcile keeps the status invariant: legal (phase, health), Ready implies counter 0, heartbeat and both conditions True, Unreachable implies counter at least 1, the two conditions agree, a non-empty phase implies a registration time |
| Lifecycle.ApproveKeeps | internal/registry/dashboard.go:46-56 | an approval keeps the invariant and leaves the agent approved |
| Lifecycle.DecideKeepsApproval | controllers/a2aagent_controller.go:123-151 | a reconcile neither grants nor revokes an approval and never stops an approved agent at the approval gate |
| Lifecycle.ExitOrder | controllers/a2aagent_controller.go:91-212 | which of the six exits is taken, and when no status is written: the gates in their order, both directions |
| Lifecycle.ExitFrame | controllers/a2aagent_controller.go:91-151 | gated exits leave counter, heartbeat, hash, observed generation and the Ready and HealthChecked conditions untouched and emit nothing; only a success moves the heartbeat |
| Outcomes.FailedPhase | controllers/a2aagent_controller.go:212-236 | a failed check counts one more failure, in int32, and is Unreachable exactly when the count reaches the agent's own threshold if that is positive, and three otherwise; else Error |
| Outcomes.ReadyIff | controllers/a2aagent_controller.go:91-211 | a reconcile ends in Ready exactly when there is no conflict, the agent is enabled, approved if that is demanded, and health checks are off or the probe is healthy and a card that must match agrees; Ready comes with Healthy, counter 0 and the new heartbeat |
| Outcomes.GatedOutcomes | controllers/a2aagent_controller.go:92-142 | phase, health and message of the conflict, disabled and approval exits, and Pending comes from the last two only |
| Outcomes.RecordedFields | controllers/a2aagent_controller.go:84-239 | registration time, observed generation, heartbeat, card hash and counter after any reconcile, from what it read |
| Outcomes.CheckedFields | controllers/a2aagent_controller.go:166-241 | the same for the check itself, with its message |
| Outcomes.ConditionsAfter | controllers/a2aagent_controller.go:122-151 | every condition after a reconcile, kind by kind, with status, reason, message, generation and time; other kinds are untouched |
| Outcomes.CheckedConditions | controllers/a2aagent_controller.go:334-369 | the two conditions a check renews |
| Outcomes.ApprovalChangesOnlyApproved | internal/registry/dashboard.go:46-56 | an approval renews the Approved condition and changes nothing else |
| Outcomes.EventsAre | controllers/a2aagent_controller.go:197-235 | exactly which events a reconcile emits, with their contents |
| Outcomes.RequeuedAfter | controllers/a2aagent_controller.go:92-162 | five minutes after a conflict, never while disabled, 30 s before approval, else the agent's interval, the registry's, or 60 s |
| Lifecycle.FailedCheck | controllers/a2aagent_controller.go:221-235 | the count that is compared with the threshold is the one just raised, and the health is Unhealthy on both sides of it |
| Lifecycle.DecideSays | controllers/a2aagent_controller.go:91-236 | a written status reports a URL conflict exactly when one was found, and Unreachable comes from a failed check at the threshold only |
| Lifecycle.AnnouncesIffEnters | controllers/a2aagent_controller.go:222-229 | AgentUnreachable is emitted exactly by the reconciles that enter Unreachable, through any gate |
| Lifecycle.HealthyProbeRecovers | controllers/a2aagent_controller.go:185-211 | one healthy probe with an accepted card gives Ready, Healthy, counter 0, from any status of an ungated agent |
| Store.ConflictHit | controllers/a2aagent_controller.go:262-271 | the scan names another agent with the URL, or there is none |
| Store.ConflictIffTaken | controllers/a2aagent_controller.go:257-272 | a conflict is found exactly when another agent has the URL, whatever the listing order |
| Controller.FirstFetchedIsFirst | internal/registry/resolver.go:66-80 | the first path that answers wins, and a failure means that all failed and reports the last error |
| Controller.FetchCard | internal/registry/resolver.go:66-80 | the fallback loop returns that result and counts one fetch error exactly when every path failed |
| Controller.CheckWithAuth | internal/healthcheck/checker.go:40-57 | the probe is healthy exactly when some path answered, and carries that card, hash and latency, or the last error; a failure is counted once |
| Controller.AgentObject.UpdateConditions | controllers/a2aagent_controller.go:334-369 | two in-place merges on the object's own list give the specified conditions |
| Controller.ApiClient.UpdateStatus | controllers/a2aagent_controller.go:243-246 | a status write succeeds exactly when it does not fail and the version read is still current; it then changes the status of one agent and its version, otherwise nothing |
| Controller.AgentReconciler.CheckUrlConflict | controllers/a2aagent_controller.go:257-272 | the scanning loop finds the first listed conflict, and none when the listing fails |
| Controller.DemandReadIff | controllers/a2aagent_controller.go:274-280 | the configuration read is the first listed registry's, and approval is demanded, and checks are skipped, exactly when the listing succeeds and it says so |
| Controller.CheckedUnapprovedIffReadFails | controllers/a2aagent_controller.go:119-142 | under a first registry that demands approval, an enabled unapproved agent without conflict is checked exactly when the registries cannot be listed |
| Controller.CallCounts | controllers/a2aagent_controller.go:46-89 | which calls count a registration or a deregistration, which let an agent go, which leave the store alone, and that a call touches one agent |
| Controller.CallsCountAlike | controllers/a2aagent_controller.go:178-183 | over any sequence of calls, on any stores and with any faults, as many card fetches fail as health checks |
| Controller.AgentReconciler.Passed | controllers/a2aagent_controller.go:185-211 | the field-by-field success path, and its reversal on a card mismatch, end in the specified status and events |
| Controller.AgentReconciler.NotPassed | controllers/a2aagent_controller.go:212-236 | the field-by-field failure path ends in the specified status and event |
| Controller.AgentReconciler.RequeueInterval | controllers/a2aagent_controller.go:153-162 | agent before registry before sixty seconds |
| Controller.AgentReconciler.Assess | controllers/a2aagent_controller.go:166-237 | skip or probe; both failure metrics rise by one exactly on a failed check |
| Controller.AgentReconciler.RunCheck | controllers/a2aagent_controller.go:153-241 | the whole check computes the pure check's status, events and requeue interval |
| Controller.AgentReconciler.StopForApproval | controllers/a2aagent_controller.go:124-142 | the approval gate writes Pending with Approved=False and requeues after 30 s |
| Controller.AgentReconciler.StopAtConflict | controllers/a2aagent_controller.go:92-101 | the conflict exit writes Error and Unhealthy naming the holder, and requeues after five minutes |
| Controller.AgentReconciler.StopDisabled | controllers/a2aagent_controller.go:104-116 | the disabled exit writes Pending unless it is there already |
| Controller.AgentReconciler.ReconcileEnabled | controllers/a2aagent_controller.go:118-253 | approval gate, check and status write have exactly the pure outcome as their effect |
| Controller.AgentReconciler.ReconcileLive | controllers/a2aagent_controller.go:84-253 | everything after the finalizer has the specified effect on store, events, metrics and result, with and without faults |
| Controller.AgentReconciler.Reconcile | controllers/a2aagent_controller.go:43-254 | one call, deletion and finalizer included, has exactly the specified effect; the fetch-error and failure metrics move together even when the status write fails |
| Controller.ApprovalHandler.ApproveAgent | internal/registry/dashboard.go:26-66 | read, in-place merge and write leave the approved status, or nothing changes |
| History.EveryStatusWellFormed | controllers/a2aagent_controller.go:84-246 | every status in the life of an agent satisfies the invariant |
| History.RegisteredOnce | controllers/a2aagent_controller.go:84-89 | a registration time, once committed, never changes |
| History.StepEffect | controllers/a2aagent_controller.go:169-236 | how one commit moves counter and heartbeat, from its check record alone |
| History.StatusRemembersChecks | controllers/a2aagent_controller.go:169-236 | the counter is the length of the longest failing suffix of the committed checks (as int32) and the heartbeat the success before it; gated reconciles and approvals are invisible |
| History.UnreachableIffThresholdFailed | controllers/a2aagent_controller.go:216-235 | after a failed check the phase is Unreachable exactly when the last T committed checks failed, T the agent's own threshold if positive and three otherwise; beyond 2^31 the wrapped counter decides |
| History.ReadyIffLastPassed | controllers/a2aagent_controller.go:91-211 | an agent is Ready exactly when its last committed reconcile read everything that makes it so, a demanded approval being one committed before |
| History.WrapDefeatsThreshold | controllers/a2aagent_controller.go:221-222 | at the 2^31st failure in a row the agent falls back from Unreachable to Error |
| History.ApprovedIffCommitted | controllers/a2aagent_controller.go:123-151 | an agent is approved exactly when an approval has been committed for it |
| History.ApprovalIsKept | controllers/a2aagent_controller.go:123-151 | after a committed approval every committed status is approved |
| History.CheckedIff | controllers/a2aagent_controller.go:91-178 | a reconcile checks exactly when it found no conflict, the agent is enabled, and the configuration it read demands no approval or one was committed before |
| History.NothingBeforeApproval | controllers/a2aagent_controller.go:123-142 | while every configuration that is read demands approval and none is given, no check commits, and the phase is neither Ready nor Unreachable; `History.CheckedIff` is the statement without the hypothesis |
| History.UnreachableEndsInThreshold | controllers/a2aagent_controller.go:222-223 | an Unreachable agent's last reconcile was a failed check at the threshold, with only approvals after it |
| History.EndsInThresholdIsUnreachable | controllers/a2aagent_controller.go:222-223 | and conversely such a life ends in Unreachable |
| History.StaleAfterSevenDays | controllers/a2aregistry_controller.go:97-102 | the prune test is Unreachable and more than 604800 seconds since the last success |
| History.StaleIffLongFailing | controllers/a2aregistry_controller.go:96-102 | the prune test holds exactly when the last success is more than seven days old, only failures followed, and the last reconcile failed at the threshold |
| History.EventsBalance | controllers/a2aagent_controller.go:222-229 | committed AgentUnreachable events minus exits from Unreachable is 1 if Unreachable now, else 0 |
| History.UnreachableAfterExactly | controllers/a2aagent_controller.go:212-236 | under continuous failure at threshold T, from any counter c, the phase after n failing checks is Unreachable exactly when c + n in int32 arithmetic is at least T, and Error otherwise; without wrapping that is from the max(1, T-c)-th on |
| History.FailedCheckMakesStaleIff | controllers/a2aregistry_controller.go:96-102 | a failed check makes an agent prunable, whatever it was before, exactly when the new counter reaches the threshold and the last success is more than seven days old |
| History.OneFailureMakesStaleIff | controllers/a2aregistry_controller.go:96-102 | from Ready, that is exactly a threshold of 1 and a last success more than seven days old |
| History.FailingForAWeekIsStaleIff | controllers/a2aregistry_controller.go:96-102 | an Unreachable agent that has been failing for more than seven days is prunable exactly when it ever succeeded |
| Protocol.WriteStatusKeeps | controllers/a2aagent_controller.go:243 | a version-checked write lands on the status it was computed from or not at all, keeping store and log in step |
| Protocol.PruneKeeps | controllers/a2aregistry_controller.go:109 | a delete by name, however late, keeps the invariant |
| Protocol.StepKeeps | controllers/a2aagent_controller.go:43-254 | every step of every actor keeps the invariant, and logs only grow |
| Protocol.RunsAreSerial | controllers/a2aagent_controller.go:43-254 | in every interleaving each stored status is the replay of the commits for that agent |
| Runs.EveryReachableStatus | controllers/a2aagent_controller.go:84-246 | every reachable status is well-formed and remembers its committed checks |
| Runs.ReadyIffLastCommittedPassed | controllers/a2aagent_controller.go:91-211 | in every reachable state an agent is Ready exactly when the last committed reconcile of the agent passed |
| Runs.LogsGrow | controllers/a2aagent_controller.go:243 | what is committed stays committed, however the run goes on |
| Runs.ApprovalNeverLost | internal/registry/dashboard.go:40-61 | a committed approval survives every continuation: all later committed statuses and the stored one are approved |
| Runs.CheckBegunIff | controllers/a2aagent_controller.go:91-178 | in every run, a reconcile in flight checks exactly when it found no conflict, the agent is enabled, and the configuration it read demands no approval or one was committed before its snapshot |
| Runs.NoCheckBeforeApproval | controllers/a2aagent_controller.go:123-142 | while every configuration that is read demands approval, an agent without a committed approval is never Ready or Unreachable, and even a check whose write will be rejected began after an approval; `Runs.CheckBegunIff` is the statement without the hypothesis |
| Runs.RegistrationNeverChanges | controllers/a2aagent_controller.go:84-89 | a stored registration time is the same in every later state of the run, as long as the agent lives |
| Runs.PruneSafeIffStillStale | controllers/a2aregistry_controller.go:96-114 | what a prune hits deserves it exactly when it is still stale then; it is if nothing was written since the listing, and the life up to the listing was long failing and ended at the threshold in any case |
| Urls.GateKeepsUrlsIff | controllers/a2aagent_controller.go:257-272 | the URL gate keeps every Ready agent the oldest holder of its URL exactly when it could list, or the agent it let through is the oldest holder or already overtaken |
| Urls.EditKeepsUrlsIff | controllers/a2aagent_controller.go:262-271 | an edit does so exactly when a Ready agent moves above no older holder of the new URL, and nobody moves below an agent that is Ready on it or may still become so |
| Urls.StepKeepsUrlsIff | controllers/a2aagent_controller.go:92-101 | no other step of any actor can disturb it |
| Urls.OneReadyPerUrl | controllers/a2aagent_controller.go:92-101 | in every run whose edits and failed listings fit, a Ready agent is older than every other holder of its URL, so no two Ready agents share one |
| Urls.PlainUrlsAreKept | controllers/a2aagent_controller.go:92-101 | they fit in particular when no listing fails and URLs are fixed, or move only to URLs nobody else has |
| Urls.EditKeepsDistinctIff | internal/registry/handler.go:358-367 | an edit keeps distinct URLs distinct exactly when nobody else has the new one |
| Urls.RegistrationKeepsUrlsDistinct | internal/registry/handler.go:358-402 | with agents created by atomic registrations only and edits that keep clear of the URLs of others, all URLs stay distinct and no conflict is ever committed, whatever listings fail |
| Conservation.FailuresConserved | controllers/a2aagent_controller.go:178-183 | counters of live agents plus failures still to be written never exceed the failure metric, through lost writes and deletions |
| Conservation.EventsConserved | controllers/a2aagent_controller.go:222-229 | events minus exits from Unreachable is 1 if Unreachable now, plus the announcements still unwritten or lost, in every run |
| Conservation.EventsConservedAtRest | controllers/a2aagent_controller.go:222-229 | with no reconcile of the agent in flight and no announcing write lost, it is 1 if Unreachable now, else 0 |
| Conservation.FetchErrorsAreFailures | internal/registry/resolver.go:69-79 | after every run of one process the two failure metrics are equal |
| Sweep.ReconcileOne | controllers/a2aagent_controller.go:43-254 | a faultless reconcile changes its own agent only, and reads nothing of the others but their URLs |
| Sweep.SweepIsPointwise | controllers/a2aagent_controller.go:91-116 | reconciling distinct live agents one after the other is one simultaneous pointwise update of the first store |
| Sweep.SweepOrderIrrelevant | controllers/a2aagent_controller.go:91-116 | any two orders give the same agents |
| Sweep.SharedUrlsAreFlagged | controllers/a2aagent_controller.go:91-116 | after a sweep exactly the agents sharing a URL report the conflict with Error and Unhealthy, enabled or not, naming a real holder |
| Limits.SoloWrites | controllers/a2aagent_controller.go:43-254 | what five uninterrupted steps of one reconcile leave behind |
| Limits.CallIsSteps | controllers/a2aagent_controller.go:43-254 | a whole call of the controller, deletion, finalizer and every fault included, is a run of the protocol's steps: same store, same metrics, nothing left in flight |
| Limits.ApprovalIsSteps | internal/registry/dashboard.go:40-61 | an uninterrupted approval is the protocol's read and write |
| Limits.RegistrationIsStep | internal/registry/handler.go:346-402 | a valid registration without faults is the protocol's registration step |
| Limits.FailedListingsBreakUniqueness | controllers/a2aagent_controller.go:259-261 | a run with failed listings and two Ready agents on one URL |
| Limits.EditBreaksUniqueness | controllers/a2aagent_controller.go:257-272 | a run in which every listing succeeds and an edit leaves two Ready agents on one URL |
| Limits.FailedReadSkipsApproval | controllers/a2aagent_controller.go:274-278 | a run in which an agent nobody approved becomes Ready under a registry that demands approval |
| Limits.RegistrationRace | internal/registry/handler.go:358-402 | a create keeps URLs distinct exactly when the name is taken or the URL is free as it lands; two creates after an empty listing break it |
| Limits.PruneCanHitRecovered | controllers/a2aregistry_controller.go:98-112 | a run in which a prune marks an agent that is Ready again |
| Limits.PrunedWithoutAWeekUnreachable | controllers/a2aregistry_controller.go:96-114 | a run in which an agent is Ready, fails one check, and is pruned in the second of that check |
| Limits.UnreachableForeverUnpruned | controllers/a2aregistry_controller.go:100-102 | a run whose agent is Unreachable since its first check and at no time prunable |
| Registry.GaugeTotal | controllers/a2aregistry_controller.go:80-94 | the gauge cells add up to the number of agents |
| Registry.GaugeCounts | controllers/a2aregistry_controller.go:80-94 | every cell holds the number of agents in it, and exists only if somebody is |
| Registry.GaugeIs | controllers/a2aregistry_controller.go:85-93 | a cell holds the number of listed agents with its phase and health, an empty phase counting as Pending and an empty health as Unknown |
| Registry.HealthyCountIs | controllers/a2aregistry_controller.go:82-84 | the healthy count is the number of listed agents that are enabled and Healthy |
| Registry.PassCountsThePhases | controllers/a2aregistry_controller.go:77-94 | in every reachable state the four legal cells hold the numbers of agents that are Ready, in Error, Unreachable, and Pending or never reconciled, and the healthy count that of the enabled Healthy ones |
| Registry.SurvivorsAre | controllers/a2aregistry_controller.go:98-102 | the survivors are the listed agents that are not stale |
| Registry.PruningKeepsHealthyCount | controllers/a2aregistry_controller.go:81-114 | the healthy count taken before pruning is that of the survivors |
| Registry.PassConservesCounts | controllers/a2aregistry_controller.go:77-118 | in every reachable state: the cells add up, only the four legal cells are non-zero, and the healthy count survives the prune |
| Registry.PrunesExactlyTheStale | controllers/a2aregistry_controller.go:98-114 | the prune loop deletes or marks exactly the stale agents whose delete is not refused, and touches nobody else |
| Registry.PassPrunesExactlyTheDeserving | controllers/a2aregistry_controller.go:96-114 | in every reachable state the pass prunes exactly the agents whose committed checks ended in a week-long failure at the threshold |
| Registry.RegistryReconciler.CountAgents | controllers/a2aregistry_controller.go:77-94 | the counting loop leaves in every cell the number of listed agents that show there, and counts those enabled and Healthy |
| Registry.StaleKeysAreStale | controllers/a2aregistry_controller.go:100-108 | one AgentPruned event is emitted for each stale agent and for nobody else, whether or not their delete is refused |
| Registry.RegistryReconciler.PruneStale | controllers/a2aregistry_controller.go:96-114 | the prune loop over the listing leaves the pruned store and those events |
| Registry.RegistryReconciler.Reconcile | controllers/a2aregistry_controller.go:71-118 | a pass leaves the pruned store, the prune events, the gauge and both counts, all taken from the listing |
| Strings.SplitUndoesJoin | internal/registry/handler.go:244 | splitting undoes joining when no piece contains the separator |
| Strings.SplitIff | internal/registry/handler.go:244 | a split yields exactly the pieces between separators |
| Strings.ContainsIff | internal/registry/handler.go:491-492 | a lower-cased text contains a lower-cased query exactly when a slice of the text is the query, but for case |
| Strings.TrimSpaceIs | internal/registry/handler.go:622 | trimming takes away exactly the white space at both ends |
| Strings.FoldIff | internal/registry/handler.go:643 | folding compares all but the case of letters |
| Discovery.HasAnyTag | internal/registry/handler.go:619-628 | true exactly when a filter tag and an agent tag agree, trimmed and case-folded |
| Discovery.HasTag | internal/registry/handler.go:631-638 | true exactly when a tag folds to the given one |
| Discovery.HasSkill | internal/registry/handler.go:641-648 | true exactly when a skill id folds to the given one |
| Discovery.FilterMembers | internal/registry/handler.go:217-259 | what is returned is what was listed and meets the filter |
| Discovery.ListAgents | internal/registry/handler.go:217-259 | in list order exactly the enabled agents in the scope's namespaces, with a tag that is one of the comma-separated ones but for case and white space, and with the skill |
| Discovery.JoinedTagsListTheUnion | internal/registry/handler.go:242-248 | listing by comma-joined tags selects the union of the single-tag listings |
| Discovery.Search | internal/registry/handler.go:478-522 | in list order exactly the enabled agents with the text in name or description, the tag, the skill and the capability, each only if asked for |
| Discovery.ListedIff | internal/registry/handler.go:222-255 | the listing filter keeps exactly the agents that answer the request |
| Discovery.FoundIff | internal/registry/handler.go:484-519 | the search filter does, on queries that are lower-cased first |
| Discovery.QueryCaseIsIrrelevant | internal/registry/handler.go:478-481 | the case of all four search parameters is irrelevant |
| Discovery.SkillSearchAgreesIffInScope | internal/registry/handler.go:461-526 | on a skill query Search and ListAgents agree exactly when every match is in scope, in particular under Cluster scope |
| Discovery.RegistrationRefusedIff | internal/registry/handler.go:346-402 | when a registration is malformed, refused, fails or succeeds, under which name, and that a refusal leaves the store alone |
| Discovery.RegistrationStores | internal/registry/handler.go:369-397 | what a registration stores, field by field and skill by skill |
| Discovery.SecondRegistrationRefused | internal/registry/handler.go:358-367 | a later registration of the same URL, on any store that still has the agent, is refused, and names that agent when nobody else has the URL |
| Discovery.RegisterAgent | internal/registry/handler.go:346-404 | the listing and appending loops have that effect, and each success is counted |
| ApiObjects.CopySkills | api/v1/a2aagent_types.go:241-247 | nested slice copy: same values, every array new, nil exactly where the original is nil, at both levels |
| ApiObjects.AuthenticationObject.DeepCopyInto | api/v1/a2aagent_types.go:363-375 | same value, nothing shared, nil schemes stay nil |
| ApiObjects.SpecObject.DeepCopyInto | api/v1/a2aagent_types.go:239-278 | same value, every array and pointed-to object of the copy is new, and every slice is nil exactly where the original is |
| ApiObjects.StatusObject.DeepCopyInto | api/v1/a2aagent_types.go:291-310 | same value, every array and pointed-to object of the copy is new, and nil conditions stay nil |
| ApiObjects.SpecValueSays | api/v1/a2aagent_types.go:239-278 | the value by which copies are compared has every field of the spec in memory and the contents of what it refers to |
| ApiObjects.SkillValueSays | api/v1/a2aagent_types.go:338-350 | and of every skill at its index |
| ApiObjects.StatusValueSays | api/v1/a2aagent_types.go:291-310 | and of the status |
| ApiObjects.StatusObject.MergeIntoCopy | controllers/conditions.go:14-22 | an in-place merge on a deep copy leaves the original unchanged |
| ApiObjects.StatusObject.MergeIntoShallowCopy | controllers/conditions.go:14-22 | on a plain struct copy it rewrites the original exactly when the type is present |
| Webhooks.SkillLoopSilentIff | api/v1/a2aagent_webhook.go:69-84 | no skill error exactly when ids are non-empty and pairwise distinct and names non-empty |
| Webhooks.DuplicateCount | api/v1/a2aagent_webhook.go:69-84 | the number of duplicate-id errors is the number of non-empty ids minus the number of distinct ones |
| Webhooks.NoErrorsIffValid | api/v1/a2aagent_webhook.go:50-111 | validation is silent exactly on the valid specs |
| Webhooks.AgentErrorsSay | api/v1/a2aagent_webhook.go:53-104 | each report appears exactly when what it says is so |
| Webhooks.ValidateAgent | api/v1/a2aagent_webhook.go:50-111 | the appending validator reports those errors in that order |
| Webhooks.DefaultingAgents | api/v1/a2aagent_webhook.go:121-154 | defaulting is idempotent, keeps a valid agent valid except exactly for interval 0 with a timeout above 60, enables every agent that passes, and makes a non-negative interval independent of the registry |
| Webhooks.DefaultsFillGaps | api/v1/a2aagent_webhook.go:121-154 | defaulting fills what is open with 1.0, 60, 10 and 3, enables agents with a URL, and keeps everything else |
| Webhooks.DefaultingKeepsOutcomes | api/v1/a2aagent_webhook.go:134-151 | for an enabled agent it changes nothing that a reconcile writes or emits, the failure threshold included |
| Webhooks.DefaultAgentObject | api/v1/a2aagent_webhook.go:121-154 | writing through the object and its health check pointer turns its value into the defaulted one and keeps the pointer it had |
| Webhooks.NoRegistryErrorsIffValid | api/v1/a2aregistry_webhook.go:47-79 | validation is silent exactly on the valid registries: scope in any case with namespaces to go with it, a 16-bit port or none, and a timeout within the interval |
| Webhooks.RegistryErrorsSay | api/v1/a2aregistry_webhook.go:51-73 | each report appears exactly when what it says is so |
| Webhooks.ValidateRegistry | api/v1/a2aregistry_webhook.go:47-79 | the appending validator reports the specified errors in order, and none exactly on a valid registry |
| Webhooks.RegistryObject.Default | api/v1/a2aregistry_webhook.go:89-109 | the field-by-field defaulter gives the defaulted spec |
| Webhooks.RegistryDefaultsFillGaps | api/v1/a2aregistry_webhook.go:89-109 | it fills what is open with Cluster, 8082, 0.0.0.0, 60 and 10, and keeps everything else |
| Webhooks.DefaultingRegistries | api/v1/a2aregistry_webhook.go:89-109 | idempotent, and keeps a valid registry valid except exactly for (interval 0, timeout above 60) and (interval 1 to 9, timeout 0) |
| Webhooks.ScopeEnforcedIff | internal/registry/handler.go:227-240 | a listing keeps to the namespaces of a valid registry exactly when its scope does not mean namespaces or is spelt Namespace |
| Webhooks.LowerCaseScopeIsIgnored | internal/registry/handler.go:227-240 | a registry that passes validation and whose namespaces are ignored |

## Left out

- HTTP servers, JSON, the dashboard page, TLS, and the fetch, hash and decoding of a card: input and output; the outcome of a fetch is an input.
- Authentication headers, secrets, `agentToEntry`, path extraction, address normalisation and name generation: they would only add easy members.
- Watches, caches, predicates, leader election and requeue timing: the framework decides when a step fires, and the model lets any step fire at any time.
- Label selectors and the namespace parameter of a listing: applied by the server, so the listed items are an input.
- Unicode case folding and white space: the filters are modelled over ASCII.
- The registry object's own finalizer, conditions, status write and its `RegistryActive` event: only the counts and the prune are modelled.
- The discovery configuration's locking: handlers read it through a raw pointer, so no theorem is claimed; a handler call has one configuration.
- The meaning of the registration and deregistration metrics: the reconciler's increments are in the effect of a call, but API and reconciler count the same agents, so no equality with a number of agents is claimed.
- Object metadata, type metadata and the deep copies of the whole resource and of lists: copies of framework types.
- The difference between a nil and an empty slice is kept in the structs in memory, and dropped in their values.
- Order of the error texts inside a joined message, and the exact wording of messages.
- Discovery.ListAgents: returns the listed objects rather than their API entries.
- Discovery.RegisterAgent: is one call that nothing interrupts; what an interruption between its listing and its create can do is shown by the registration race.
- Discovery.Search: returns the listed objects rather than their API entries.
- Discovery.SkillSearchAgreesIffInScope: compares the two handlers on skills, the one filter they share; a tag is trimmed by one and not by the other, and text and capability exist in one only.
- Registry.RegistryReconciler.Reconcile: does not write the registry's own status, condition and finalizer.
- Urls.OneReadyPerUrl: is sufficient over whole runs, and exact for each step; a run may disturb the invariant and restore it before two agents are Ready.
