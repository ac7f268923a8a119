/**
 The values the operator works on: the custom resources of api/v1, the agent card, and the
 result of a health check.  Durations and instants are whole seconds.
 */
module Types {

  datatype Option<+T> = None | Some(value: T)

  type int32 = x: int | -0x8000_0000 <= x < 0x8000_0000

  /** Go's ++ on an int32: the largest value wraps to the smallest. */
  function Next32(c: int32): int32 {
    if c == 0x7fff_ffff then -0x8000_0000 else c + 1
  }

  /** An int32 counter that has been incremented n times since it was zero. */
  function Count32(n: nat): int32 {
    if n == 0 then 0 else Next32(Count32(n - 1))
  }

  /** Such a counter is exact until it wraps, wraps after 2^31 increments, and in between never exceeds n. */
  lemma {:induction false} Count32Value(n: nat)
    ensures n < 0x8000_0000 ==> Count32(n) == n
    ensures n == 0x8000_0000 ==> Count32(n) == -0x8000_0000
    ensures Count32(n) <= n
  {
    if n > 0 {
      Count32Value(n - 1);
    }
  }

  /** A counter that has been incremented n times since it was c. */
  function Plus32(c: int32, n: nat): int32 {
    if n == 0 then c else Next32(Plus32(c, n - 1))
  }

  /** It is the sum in 32-bit two's complement. */
  lemma {:induction false} Plus32Value(c: int32, n: nat)
    ensures Plus32(c, n) == (c + n + 0x8000_0000) % 0x1_0000_0000 - 0x8000_0000
    ensures c + n < 0x8000_0000 ==> Plus32(c, n) == c + n
  {
    if n > 0 {
      Plus32Value(c, n - 1);
    }
  }

  datatype Key = Key(namespace: string, name: string)

  datatype Phase = NoPhase | Pending | Ready | Error | Unreachable

  datatype Health = NoHealth | Unknown | Healthy | Unhealthy

  datatype ConditionStatus = ConditionTrue | ConditionFalse | ConditionUnknown

  /** The first disagreement found between a spec and a fetched card. */
  datatype Mismatch =
    | NameMismatch(specName: string, cardName: string)
    | DescriptionMismatch
    | VersionMismatch(specVersion: string, cardVersion: string)
    | MissingSkill(id: string)

  /** Status messages, kept structured instead of formatted. */
  datatype Message =
    | Text(text: string)
    | UrlConflict(url: string, holder: Key)
    | CheckPassedIn(latency: nat)
    | CheckFailedWith(error: string)
    | CardMismatchOf(mismatch: Mismatch)

  datatype Condition = Condition(
    kind: string,
    status: ConditionStatus,
    observedGeneration: int,
    lastTransition: nat,
    reason: string,
    message: Message)

  const APPROVED := "Approved"
  const READY := "Ready"
  const HEALTH_CHECKED := "HealthChecked"

  datatype Capabilities = Capabilities(streaming: bool, pushNotifications: bool)

  datatype Skill = Skill(id: string, name: string, description: string, tags: seq<string>, examples: seq<string>)

  datatype HealthCheck = HealthCheck(intervalSeconds: int32, timeoutSeconds: int32, failureThreshold: int32)

  datatype Authentication = Authentication(schemes: seq<string>, secretRef: Option<string>)

  datatype Provider = Provider(organization: string, url: string)

  datatype Spec = Spec(
    name: string,
    description: string,
    version: string,
    url: string,
    capabilities: Capabilities,
    skills: seq<Skill>,
    authentication: Option<Authentication>,
    inputModes: seq<string>,
    outputModes: seq<string>,
    provider: Option<Provider>,
    protocolVersion: string,
    tags: seq<string>,
    healthCheck: Option<HealthCheck>,
    enabled: bool)

  datatype Status = Status(
    phase: Phase,
    health: Health,
    message: Message,
    lastHeartbeat: Option<nat>,
    cardHash: string,
    observedGeneration: int,
    consecutiveFailures: int32,
    registeredAt: Option<nat>,
    conditions: seq<Condition>)

  /** The status of an agent nobody has written yet: the status subresource drops what a create sends. */
  const EMPTY_STATUS := Status(NoPhase, NoHealth, Text(""), None, "", 0, 0, None, [])

  datatype RegistrySpec = RegistrySpec(
    scope: string,
    labelSelector: string,
    namespaces: seq<string>,
    requireApproval: bool,
    requireHealthCheck: bool,
    requireCardMatch: bool,
    intervalSeconds: int32,
    timeoutSeconds: int32,
    port: int32,
    bindAddress: string)

  datatype CardSkill = CardSkill(id: string, name: string, description: string, tags: seq<string>, examples: seq<string>)

  datatype Card = Card(
    name: string,
    description: string,
    version: string,
    interfaces: seq<string>,
    capabilities: Capabilities,
    skills: seq<CardSkill>,
    inputModes: seq<string>,
    outputModes: seq<string>)

  /** What a health check reports. */
  datatype Probe = Probe(healthy: bool, latency: nat, cardHash: string, card: Option<Card>, error: string)

  datatype Event = HealthCheckRecovered(from: Phase) | CardMismatchEvent(mismatch: Mismatch)
                 | AgentUnreachable(failures: int32) | HealthCheckFailed(error: string)
                 | FinalizerRemoved
}
