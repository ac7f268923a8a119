/** Admission: defaulting and validation of agents and registries. */
module Webhooks {
  import opened Types
  import opened Strings
  import opened ApiObjects
  import opened Discovery
  import Lifecycle
  import Conditions

  // ----- agents: validation

  datatype AgentError =
    | EmptyName | EmptyUrl | BadUrl | EmptySkillId | DuplicateSkillId(id: string) | EmptySkillName(id: string)
    | IntervalTooShort | TimeoutExceedsInterval | BadProtocolVersion

  /** The errors one skill adds, given the ids seen before it. */
  function SkillProblems(skill: Skill, seen: set<string>): seq<AgentError> {
    if skill.id == "" then [EmptySkillId]
    else (if skill.id in seen then [DuplicateSkillId(skill.id)] else [])
         + (if skill.name == "" then [EmptySkillName(skill.id)] else [])
  }

  function SeenWith(skill: Skill, seen: set<string>): set<string> {
    if skill.id == "" then seen else seen + {skill.id}
  }

  /** The errors of the skill loop. */
  function SkillErrors(skills: seq<Skill>, seen: set<string>): seq<AgentError> {
    if skills == [] then []
    else SkillProblems(skills[0], seen) + SkillErrors(skills[1..], SeenWith(skills[0], seen))
  }

  function HealthCheckErrors(h: Option<HealthCheck>): seq<AgentError> {
    if h.None? then []
    else
      (if 0 < h.value.intervalSeconds < 10 then [IntervalTooShort] else [])
      + (if h.value.timeoutSeconds > 0 && h.value.intervalSeconds > 0 && h.value.timeoutSeconds > h.value.intervalSeconds
         then [TimeoutExceedsInterval] else [])
  }

  /** parses says which URLs parse with an http or https scheme. */
  function UrlErrors(spec: Spec, parses: string -> bool): seq<AgentError> {
    if spec.url == "" then [EmptyUrl] else if !parses(spec.url) then [BadUrl] else []
  }

  function AgentErrors(spec: Spec, parses: string -> bool): seq<AgentError> {
    (if spec.name == "" then [EmptyName] else [])
    + UrlErrors(spec, parses)
    + SkillErrors(spec.skills, {})
    + HealthCheckErrors(spec.healthCheck)
    + (if spec.protocolVersion != "" && |Split(spec.protocolVersion, '.')| < 2 then [BadProtocolVersion] else [])
  }

  ghost predicate GoodSkills(skills: seq<Skill>, seen: set<string>) {
    && (forall i :: 0 <= i < |skills| ==> skills[i].id != "" && skills[i].name != "" && skills[i].id !in seen)
    && (forall i, j :: 0 <= i < j < |skills| ==> skills[i].id != skills[j].id)
  }

  lemma GoodSkillsStep(skills: seq<Skill>, seen: set<string>)
    requires skills != []
    ensures GoodSkills(skills, seen) <==>
            skills[0].id != "" && skills[0].name != "" && skills[0].id !in seen && GoodSkills(skills[1..], seen + {skills[0].id})
  {
    var rest := skills[1..];
    assert forall i :: 0 <= i < |rest| ==> rest[i] == skills[i + 1];
    if GoodSkills(rest, seen + {skills[0].id}) && skills[0].id != "" && skills[0].name != "" && skills[0].id !in seen {
      forall i | 0 <= i < |skills| ensures skills[i].id != "" && skills[i].name != "" && skills[i].id !in seen {
        assert i > 0 ==> rest[i - 1] == skills[i];
      }
      forall i, j | 0 <= i < j < |skills| ensures skills[i].id != skills[j].id {
        assert rest[j - 1] == skills[j] && (i > 0 ==> rest[i - 1] == skills[i]);
      }
    }
  }

  /** The skill loop is silent exactly when all ids are non-empty and pairwise distinct and all names non-empty. */
  lemma {:induction false} SkillLoopSilentIff(skills: seq<Skill>, seen: set<string>)
    ensures SkillErrors(skills, seen) == [] <==> GoodSkills(skills, seen)
  {
    if skills != [] {
      GoodSkillsStep(skills, seen);
      hide GoodSkills;
      SkillLoopSilentIff(skills[1..], seen + {skills[0].id});
    }
  }

  function Duplicates(errs: seq<AgentError>): nat {
    if errs == [] then 0 else (if errs[0].DuplicateSkillId? then 1 else 0) + Duplicates(errs[1..])
  }

  lemma {:induction false} DuplicatesSum(a: seq<AgentError>, b: seq<AgentError>)
    ensures Duplicates(a + b) == Duplicates(a) + Duplicates(b)
  {
    if a == [] {
      assert a + b == b;
    } else {
      DuplicatesSum(a[1..], b);
      assert (a + b)[1..] == a[1..] + b;
    }
  }

  function NamedIds(skills: seq<Skill>): seq<string> {
    if skills == [] then [] else (if skills[0].id == "" then [] else [skills[0].id]) + NamedIds(skills[1..])
  }

  /** The distinct non-empty ids. */
  function IdSet(skills: seq<Skill>): set<string> {
    set id | id in NamedIds(skills)
  }

  lemma IdSetStep(skills: seq<Skill>)
    requires skills != []
    ensures IdSet(skills) == (if skills[0].id == "" then {} else {skills[0].id}) + IdSet(skills[1..])
  {
  }

  lemma DuplicateStep(skills: seq<Skill>, seen: set<string>)
    requires skills != []
    ensures Duplicates(SkillErrors(skills, seen)) ==
            (if skills[0].id != "" && skills[0].id in seen then 1 else 0)
            + Duplicates(SkillErrors(skills[1..], SeenWith(skills[0], seen)))
  {
    var dup := if skills[0].id in seen then [DuplicateSkillId(skills[0].id)] else [];
    var unnamed := if skills[0].name == "" then [EmptySkillName(skills[0].id)] else [];
    DuplicatesSum(SkillProblems(skills[0], seen), SkillErrors(skills[1..], SeenWith(skills[0], seen)));
    DuplicatesSum(dup, unnamed);
  }

  /** Taking one more id as seen lowers the number of unseen ones by one if it was unseen. */
  lemma UnseenStep(skills: seq<Skill>, seen: set<string>)
    requires skills != [] && skills[0].id != ""
    ensures |IdSet(skills) - seen| == |IdSet(skills[1..]) - (seen + {skills[0].id})| + (if skills[0].id in seen then 0 else 1)
  {
    IdSetStep(skills);
    hide IdSet;
    var id := skills[0].id;
    var unseen := IdSet(skills[1..]) - (seen + {id});
    assert IdSet(skills) - seen == if id in seen then unseen else unseen + {id};
  }

  lemma {:induction false} DuplicatesBeyond(skills: seq<Skill>, seen: set<string>)
    ensures Duplicates(SkillErrors(skills, seen)) == |NamedIds(skills)| - |IdSet(skills) - seen|
  {
    hide Duplicates, IdSet;
    if skills == [] {
      NoDuplicates(seen);
    } else {
      hide SkillErrors;
      DuplicateStep(skills, seen);
      DuplicatesBeyond(skills[1..], SeenWith(skills[0], seen));
      if skills[0].id == "" {
        IdSetStep(skills);
        assert IdSet(skills) == IdSet(skills[1..]);
      } else {
        UnseenStep(skills, seen);
      }
    }
  }

  lemma NoDuplicates(seen: set<string>)
    ensures Duplicates(SkillErrors([], seen)) == 0 && IdSet([]) - seen == {}
  {
  }

  /** The number of duplicate-id errors is the number of non-empty ids minus the number of distinct ones. */
  lemma DuplicateCount(skills: seq<Skill>)
    ensures Duplicates(SkillErrors(skills, {})) == |NamedIds(skills)| - |IdSet(skills)|
  {
    DuplicatesBeyond(skills, {});
    assert IdSet(skills) - {} == IdSet(skills);
  }

  /** What a valid agent is, independently of the order in which errors are collected. */
  ghost predicate ValidAgent(spec: Spec, parses: string -> bool) {
    && spec.name != "" && spec.url != "" && parses(spec.url)
    && GoodSkills(spec.skills, {})
    && (spec.healthCheck.Some? ==>
          var h := spec.healthCheck.value;
          && (h.intervalSeconds <= 0 || h.intervalSeconds >= 10)
          && (h.timeoutSeconds > 0 && h.intervalSeconds > 0 ==> h.timeoutSeconds <= h.intervalSeconds))
    && (spec.protocolVersion == "" || '.' in spec.protocolVersion)
  }

  lemma NoErrorsIffValid(spec: Spec, parses: string -> bool)
    ensures AgentErrors(spec, parses) == [] <==> ValidAgent(spec, parses)
  {
    SkillLoopSilentIff(spec.skills, {});
    SplitCount(spec.protocolVersion, '.');
  }

  /** Each report means what it says, and only it. */
  lemma AgentErrorsSay(spec: Spec, parses: string -> bool)
    ensures var errs := AgentErrors(spec, parses);
            var h := spec.healthCheck;
            && (EmptyName in errs <==> spec.name == "")
            && (EmptyUrl in errs <==> spec.url == "")
            && (BadUrl in errs <==> spec.url != "" && !parses(spec.url))
            && (EmptySkillId in errs <==> LacksId(spec.skills))
            && (forall id :: EmptySkillName(id) in errs <==> LacksName(spec.skills, id))
            && (IntervalTooShort in errs <==> h.Some? && 0 < h.value.intervalSeconds < 10)
            && (TimeoutExceedsInterval in errs <==>
                  h.Some? && h.value.intervalSeconds > 0 && h.value.timeoutSeconds > h.value.intervalSeconds)
            && (BadProtocolVersion in errs <==> spec.protocolVersion != "" && '.' !in spec.protocolVersion)
  {
    SplitCount(spec.protocolVersion, '.');
    SkillErrorsSay(spec.skills, {});
    HealthCheckErrorsSay(spec.healthCheck);
    hide SkillErrors, HealthCheckErrors, Split, AgentErrors, LacksId, LacksName;
    forall e ensures e in AgentErrors(spec, parses) <==>
                       e in UrlErrors(spec, parses) || e in SkillErrors(spec.skills, {}) || e in HealthCheckErrors(spec.healthCheck)
                       || (e == EmptyName && spec.name == "")
                       || (e == BadProtocolVersion && spec.protocolVersion != "" && |Split(spec.protocolVersion, '.')| < 2)
    {
      AgentErrorsIn(spec, parses, e);
    }
  }

  lemma AgentErrorsIn(spec: Spec, parses: string -> bool, e: AgentError)
    ensures e in AgentErrors(spec, parses) <==>
              e in UrlErrors(spec, parses) || e in SkillErrors(spec.skills, {}) || e in HealthCheckErrors(spec.healthCheck)
              || (e == EmptyName && spec.name == "")
              || (e == BadProtocolVersion && spec.protocolVersion != "" && |Split(spec.protocolVersion, '.')| < 2)
  {
    hide SkillErrors, HealthCheckErrors, Split;
  }

  lemma HealthCheckErrorsSay(h: Option<HealthCheck>)
    ensures var errs := HealthCheckErrors(h);
            && (IntervalTooShort in errs <==> h.Some? && 0 < h.value.intervalSeconds < 10)
            && (TimeoutExceedsInterval in errs <==>
                  h.Some? && h.value.intervalSeconds > 0 && h.value.timeoutSeconds > h.value.intervalSeconds)
            && (forall e :: e in errs ==> e.IntervalTooShort? || e.TimeoutExceedsInterval?)
  {
  }

  lemma SkillProblemsSay(skill: Skill, seen: set<string>)
    ensures var errs := SkillProblems(skill, seen);
            && (EmptySkillId in errs <==> skill.id == "")
            && (forall id :: EmptySkillName(id) in errs <==> id != "" && skill.id == id && skill.name == "")
            && (forall e :: e in errs ==> e.EmptySkillId? || e.EmptySkillName? || e.DuplicateSkillId?)
  {
  }

  ghost predicate LacksId(skills: seq<Skill>) {
    exists i :: 0 <= i < |skills| && skills[i].id == ""
  }

  ghost predicate LacksName(skills: seq<Skill>, id: string) {
    id != "" && exists i :: 0 <= i < |skills| && skills[i].id == id && skills[i].name == ""
  }

  lemma LacksStep(skills: seq<Skill>, id: string)
    requires skills != []
    ensures LacksId(skills) <==> skills[0].id == "" || LacksId(skills[1..])
    ensures LacksName(skills, id) <==> (id != "" && skills[0].id == id && skills[0].name == "") || LacksName(skills[1..], id)
  {
    assert forall i :: 0 < i < |skills| ==> skills[i] == skills[1..][i - 1];
    if LacksId(skills[1..]) {
      var i :| 0 <= i < |skills[1..]| && skills[1..][i].id == "";
      assert skills[i + 1].id == "";
    }
    if LacksName(skills[1..], id) {
      var i :| 0 <= i < |skills[1..]| && skills[1..][i].id == id && skills[1..][i].name == "";
      assert skills[i + 1].id == id;
    }
  }

  lemma {:induction false} SkillErrorsSay(skills: seq<Skill>, seen: set<string>)
    ensures var errs := SkillErrors(skills, seen);
            && (EmptySkillId in errs <==> LacksId(skills))
            && (forall id :: EmptySkillName(id) in errs <==> LacksName(skills, id))
            && (forall e :: e in errs ==> e.EmptySkillId? || e.EmptySkillName? || e.DuplicateSkillId?)
  {
    if skills != [] {
      SkillErrorsSay(skills[1..], SeenWith(skills[0], seen));
      SkillProblemsSay(skills[0], seen);
      forall id ensures LacksName(skills, id) <==> (id != "" && skills[0].id == id && skills[0].name == "") || LacksName(skills[1..], id) {
        LacksStep(skills, id);
      }
      LacksStep(skills, "");
      hide SkillProblems, LacksId, LacksName, SeenWith;
    }
  }

  method CheckSkill(skill: Skill, skillIds: map<string, bool>) returns (errs: seq<AgentError>, ids: map<string, bool>)
    requires forall id :: id in skillIds ==> skillIds[id]
    ensures errs == SkillProblems(skill, skillIds.Keys) && ids.Keys == SeenWith(skill, skillIds.Keys)
    ensures forall id :: id in ids ==> ids[id]
  {
    errs := [];
    ids := skillIds;
    if skill.id == "" {
      errs := errs + [EmptySkillId];
      return;
    }
    if skill.id in skillIds && skillIds[skill.id] {
      errs := errs + [DuplicateSkillId(skill.id)];
    }
    ids := ids[skill.id := true];
    if skill.name == "" {
      errs := errs + [EmptySkillName(skill.id)];
    }
  }

  /** The skill loop: a set of ids seen so far, kept as a map to true. */
  method CheckSkills(skills: seq<Skill>) returns (errs: seq<AgentError>)
    ensures errs == SkillErrors(skills, {})
  {
    hide SkillProblems, SeenWith;
    errs := [];
    var skillIds: map<string, bool> := map[];
    assert skills[0..] == skills && skillIds.Keys == {};
    for i := 0 to |skills|
      invariant forall id :: id in skillIds ==> skillIds[id]
      invariant SkillErrors(skills, {}) == errs + SkillErrors(skills[i..], skillIds.Keys)
    {
      assert skills[i..][0] == skills[i] && skills[i..][1..] == skills[i + 1..];
      var problems, ids := CheckSkill(skills[i], skillIds);
      errs, skillIds := errs + problems, ids;
    }
  }

  method CheckHealthCheck(healthCheck: Option<HealthCheck>) returns (errs: seq<AgentError>)
    ensures errs == HealthCheckErrors(healthCheck)
  {
    errs := [];
    if healthCheck.Some? {
      var h := healthCheck.value;
      if h.intervalSeconds > 0 && h.intervalSeconds < 10 {
        errs := errs + [IntervalTooShort];
      }
      if h.timeoutSeconds > 0 && h.intervalSeconds > 0 && h.timeoutSeconds > h.intervalSeconds {
        errs := errs + [TimeoutExceedsInterval];
      }
    }
  }

  method ValidateAgent(spec: Spec, parses: string -> bool) returns (errs: seq<AgentError>)
    ensures errs == AgentErrors(spec, parses)
    ensures errs == [] <==> ValidAgent(spec, parses)
  {
    NoErrorsIffValid(spec, parses);
    hide ValidAgent, SkillErrors, HealthCheckErrors, Split;
    errs := [];
    if spec.name == "" {
      errs := errs + [EmptyName];
    }
    if spec.url == "" {
      errs := errs + [EmptyUrl];
    } else if !parses(spec.url) {
      errs := errs + [BadUrl];
    }
    var skillErrs := CheckSkills(spec.skills);
    var healthCheckErrs := CheckHealthCheck(spec.healthCheck);
    errs := errs + skillErrs + healthCheckErrs;
    if spec.protocolVersion != "" {
      var parts := Split(spec.protocolVersion, '.');
      if |parts| < 2 {
        errs := errs + [BadProtocolVersion];
      }
    }
  }

  // ----- agents: defaulting

  function DefaultHealthCheck(h: Option<HealthCheck>): HealthCheck {
    if h.None? then HealthCheck(60, 10, 3)
    else HealthCheck(if h.value.intervalSeconds == 0 then 60 else h.value.intervalSeconds,
                     if h.value.timeoutSeconds == 0 then 10 else h.value.timeoutSeconds,
                     if h.value.failureThreshold == 0 then 3 else h.value.failureThreshold)
  }

  function DefaultAgent(spec: Spec): Spec {
    spec.(protocolVersion := if spec.protocolVersion == "" then "1.0" else spec.protocolVersion,
          enabled := spec.enabled || spec.url != "",
          healthCheck := Some(DefaultHealthCheck(spec.healthCheck)))
  }

  /**
   Defaulting twice is defaulting once.  It keeps a valid agent valid except exactly when its health
   check leaves the interval open and asks for a timeout above the sixty seconds it gets; and a valid
   agent comes out enabled, with an interval of its own if it did not ask for a negative one.
   */
  lemma DefaultingAgents(spec: Spec, parses: string -> bool, config: Option<RegistrySpec>)
    ensures DefaultAgent(DefaultAgent(spec)) == DefaultAgent(spec)
    ensures AgentErrors(spec, parses) == [] ==>
              (AgentErrors(DefaultAgent(spec), parses) == [] <==>
                 !(spec.healthCheck.Some? && spec.healthCheck.value.intervalSeconds == 0 && spec.healthCheck.value.timeoutSeconds > 60))
    ensures AgentErrors(DefaultAgent(spec), parses) == [] ==> DefaultAgent(spec).enabled
    ensures (spec.healthCheck.Some? ==> spec.healthCheck.value.intervalSeconds >= 0) ==>
              Lifecycle.Interval(config, DefaultAgent(spec)) == Lifecycle.Interval(None, DefaultAgent(spec))
  {
    NoErrorsIffValid(spec, parses);
    NoErrorsIffValid(DefaultAgent(spec), parses);
    assert "1.0"[1] == '.';
  }

  method FillHealthCheck(h: HealthCheckBox)
    modifies h
    ensures h.Value() == DefaultHealthCheck(Some(old(h.Value())))
  {
    if h.intervalSeconds == 0 {
      h.intervalSeconds := 60;
    }
    if h.timeoutSeconds == 0 {
      h.timeoutSeconds := 10;
    }
    if h.failureThreshold == 0 {
      h.failureThreshold := 3;
    }
  }

  lemma SkillsReachNoBox(skills: seq<SkillStruct>, h: HealthCheckBox)
    requires SkillsValid(skills)
    ensures h !in SkillsReach(skills)
  {
  }

  /**
   Defaulting fills gaps only: the threshold, interval and timeout become 3, 60 and 10 where the
   spec leaves them at zero or has no health check, a missing protocol version becomes 1.0, and an
   agent with a URL is enabled.  Everything else is kept.
   */
  lemma DefaultsFillGaps(spec: Spec)
    ensures var r := DefaultAgent(spec);
            var h := spec.healthCheck;
            && r == spec.(protocolVersion := r.protocolVersion, enabled := r.enabled, healthCheck := r.healthCheck)
            && r.protocolVersion == (if spec.protocolVersion == "" then "1.0" else spec.protocolVersion)
            && (r.enabled <==> spec.enabled || spec.url != "")
            && r.healthCheck.Some?
            && r.healthCheck.value.intervalSeconds == (if h.None? || h.value.intervalSeconds == 0 then 60 else h.value.intervalSeconds)
            && r.healthCheck.value.timeoutSeconds == (if h.None? || h.value.timeoutSeconds == 0 then 10 else h.value.timeoutSeconds)
            && r.healthCheck.value.failureThreshold == (if h.None? || h.value.failureThreshold == 0 then 3 else h.value.failureThreshold)
  {
  }

  /** For an enabled agent defaulting changes nothing that a reconcile writes or emits, the threshold included. */
  lemma DefaultingKeepsOutcomes(spec: Spec, generation: int, st: Status, conflict: Option<Key>, env: Lifecycle.Env)
    requires spec.enabled
    ensures var o := Lifecycle.Decide(spec, generation, st, conflict, env);
            var o' := Lifecycle.Decide(DefaultAgent(spec), generation, st, conflict, env);
            o' == o.(requeueAfter := o'.requeueAfter)
  {
    VerdictIgnoresDefaults(spec, env);
    hide Conditions.Merge, Lifecycle.CardVerdict, Lifecycle.UpdateConditions, Lifecycle.Interval, Conditions.IsApproved;
  }

  lemma VerdictIgnoresDefaults(spec: Spec, env: Lifecycle.Env)
    ensures Lifecycle.CardVerdict(DefaultAgent(spec), env) == Lifecycle.CardVerdict(spec, env)
  {
  }

  /** Filling in a health check changes a spec that points to it in that part only. */
  method FillSpec(s: SpecStruct)
    requires s.Valid() && s.healthCheck != null
    modifies s.healthCheck
    ensures s.Valid() && s.skills.View() == old(s.skills.View())
    ensures s.Value() == old(s.Value()).(healthCheck := Some(DefaultHealthCheck(old(s.Value()).healthCheck)))
  {
    hide DefaultHealthCheck;
    SkillsReachNoBox(s.skills.View(), s.healthCheck);
    FillHealthCheck(s.healthCheck);
    assert s.skills.View() == old(s.skills.View());
    assert SkillValues(s.skills.View()) == old(SkillValues(s.skills.View()));
  }

  method WithNewHealthCheck(s: SpecStruct) returns (r: SpecStruct)
    requires s.Valid() && s.healthCheck == null
    ensures r == s.(healthCheck := r.healthCheck) && r.healthCheck != null && fresh(r.healthCheck)
    ensures old(s.Value()).healthCheck.None?
    ensures r.Valid() && r.Value() == old(s.Value()).(healthCheck := Some(DefaultHealthCheck(None)))
  {
    var h := new HealthCheckBox(HealthCheck(60, 10, 3));
    assert SkillValues(s.skills.View()) == old(SkillValues(s.skills.View()));
    r := s.(healthCheck := h);
  }

  lemma PlainFields(s: SpecStruct, version: string, enabled: bool)
    requires s.Valid()
    ensures var r := s.(protocolVersion := version, enabled := enabled);
            && r.Valid() && r.Reach() == s.Reach() && r.Value() == s.Value().(protocolVersion := version, enabled := enabled)
  {
  }

  method SetPlainFields(obj: SpecObject)
    requires obj.v.Valid()
    modifies obj
    ensures obj.v.Valid() && obj.v.healthCheck == old(obj.v.healthCheck)
    ensures var was := old(obj.v.Value());
            obj.v.Value() == was.(protocolVersion := if was.protocolVersion == "" then "1.0" else was.protocolVersion,
                                  enabled := was.enabled || was.url != "")
  {
    hide SkillValues, SkillsReach;
    var s := obj.v;
    if s.protocolVersion == "" {
      s := s.(protocolVersion := "1.0");
    }
    if !s.enabled && s.url != "" {
      s := s.(enabled := true);
    }
    PlainFields(obj.v, s.protocolVersion, s.enabled);
    assert s == obj.v.(protocolVersion := s.protocolVersion, enabled := s.enabled);
    SpecsReachNoSpec(s, obj);
    hide SpecStruct.ShellValue;
    obj.v := s;
  }

  /**
   The defaulter writes through the object, and through its health check pointer when it has one; the
   value of the object becomes the defaulted value.
   */
  method DefaultAgentObject(obj: SpecObject)
    requires obj.v.Valid()
    modifies obj, obj.v.healthCheck
    ensures obj.v.healthCheck != null && (old(obj.v.healthCheck) != null ==> obj.v.healthCheck == old(obj.v.healthCheck))
    ensures obj.v.Valid() && obj.v.Value() == DefaultAgent(old(obj.v.Value()))
  {
    hide SkillValues, SkillsReach, DefaultHealthCheck, SpecStruct.ShellValue;
    SetPlainFields(obj);
    if obj.v.healthCheck == null {
      var filled := WithNewHealthCheck(obj.v);
      SpecsReachNoSpec(filled, obj);
      obj.v := filled;
    } else {
      SpecsReachNoSpec(obj.v, obj);
      FillSpec(obj.v);
    }
  }

  // ----- registries

  datatype RegistryError = BadScope(scope: string) | NoNamespaces | BadPort(port: int32) | RegistryTimeoutExceedsInterval

  function RegistryErrors(r: RegistrySpec): seq<RegistryError> {
    (if r.scope != "" && ToLower(r.scope) != "cluster" && ToLower(r.scope) != "namespace" then [BadScope(r.scope)] else [])
    + (if r.scope != "" && ToLower(r.scope) == "namespace" && r.namespaces == [] then [NoNamespaces] else [])
    + (if r.port != 0 && (r.port < 1 || r.port > 65535) then [BadPort(r.port)] else [])
    + (if r.timeoutSeconds > 0 && r.intervalSeconds > 0 && r.timeoutSeconds > r.intervalSeconds
       then [RegistryTimeoutExceedsInterval] else [])
  }

  /** What a valid registry is: a scope spelt in any case, namespaces to go with it, a port that exists, and time for a check. */
  ghost predicate ValidRegistry(r: RegistrySpec) {
    && (r.scope == "" || ToLower(r.scope) == "cluster" || (ToLower(r.scope) == "namespace" && r.namespaces != []))
    && 0 <= r.port <= 0xffff
    && (r.timeoutSeconds <= 0 || r.intervalSeconds <= 0 || r.timeoutSeconds <= r.intervalSeconds)
  }

  lemma NoRegistryErrorsIffValid(r: RegistrySpec)
    ensures RegistryErrors(r) == [] <==> ValidRegistry(r)
  {
    assert |"cluster"| == 7 && |"namespace"| == 9;
    hide ToLower;
  }

  /** Each report appears exactly when what it says is so. */
  lemma RegistryErrorsSay(r: RegistrySpec, e: RegistryError)
    ensures e in RegistryErrors(r) <==>
              match e
              case BadScope(scope) => scope == r.scope != "" && ToLower(r.scope) != "cluster" && ToLower(r.scope) != "namespace"
              case NoNamespaces => ToLower(r.scope) == "namespace" && r.namespaces == []
              case BadPort(port) => port == r.port && (port < 0 || port > 65535)
              case RegistryTimeoutExceedsInterval => r.intervalSeconds > 0 && r.timeoutSeconds > r.intervalSeconds
  {
    assert |"namespace"| == 9;
    hide ToLower;
  }

  method ValidateRegistry(r: RegistrySpec) returns (errs: seq<RegistryError>)
    ensures errs == RegistryErrors(r)
    ensures errs == [] <==> ValidRegistry(r)
  {
    NoRegistryErrorsIffValid(r);
    hide ValidRegistry;
    errs := [];
    if r.scope != "" {
      var scope := ToLower(r.scope);
      if scope != "cluster" && scope != "namespace" {
        errs := errs + [BadScope(r.scope)];
      }
      if scope == "namespace" && |r.namespaces| == 0 {
        errs := errs + [NoNamespaces];
      }
    }
    if r.port != 0 {
      if r.port < 1 || r.port > 65535 {
        errs := errs + [BadPort(r.port)];
      }
    }
    if r.timeoutSeconds > 0 && r.intervalSeconds > 0 && r.timeoutSeconds > r.intervalSeconds {
      errs := errs + [RegistryTimeoutExceedsInterval];
    }
  }

  function DefaultRegistry(r: RegistrySpec): RegistrySpec {
    r.(scope := if r.scope == "" then "Cluster" else r.scope,
       port := if r.port == 0 then 8082 else r.port,
       bindAddress := if r.bindAddress == "" then "0.0.0.0" else r.bindAddress,
       intervalSeconds := if r.intervalSeconds == 0 then 60 else r.intervalSeconds,
       timeoutSeconds := if r.timeoutSeconds == 0 then 10 else r.timeoutSeconds)
  }

  class RegistryObject {
    var spec: RegistrySpec

    constructor (spec: RegistrySpec)
      ensures this.spec == spec
    {
      this.spec := spec;
    }

    method Default()
      modifies this
      ensures spec == DefaultRegistry(old(spec))
    {
      if spec.scope == "" {
        spec := spec.(scope := "Cluster");
      }
      if spec.port == 0 {
        spec := spec.(port := 8082);
      }
      if spec.bindAddress == "" {
        spec := spec.(bindAddress := "0.0.0.0");
      }
      if spec.intervalSeconds == 0 {
        spec := spec.(intervalSeconds := 60);
      }
      if spec.timeoutSeconds == 0 {
        spec := spec.(timeoutSeconds := 10);
      }
    }
  }

  lemma ClusterFolds()
    ensures ToLower("Cluster") == "cluster"
  {
    assert ToLower("Cluster")[0] == 'c' && ToLower("Cluster")[1..] == "luster";
  }

  /** Registry defaulting fills gaps only, with Cluster, 8082, 0.0.0.0, 60 and 10. */
  lemma RegistryDefaultsFillGaps(r: RegistrySpec)
    ensures var d := DefaultRegistry(r);
            && d == r.(scope := d.scope, port := d.port, bindAddress := d.bindAddress,
                       intervalSeconds := d.intervalSeconds, timeoutSeconds := d.timeoutSeconds)
            && d.scope == (if r.scope == "" then "Cluster" else r.scope)
            && d.port == (if r.port == 0 then 8082 else r.port)
            && d.bindAddress == (if r.bindAddress == "" then "0.0.0.0" else r.bindAddress)
            && d.intervalSeconds == (if r.intervalSeconds == 0 then 60 else r.intervalSeconds)
            && d.timeoutSeconds == (if r.timeoutSeconds == 0 then 10 else r.timeoutSeconds)
  {
  }

  /**
   Registry defaulting is idempotent, and keeps a valid registry valid except exactly when a timeout
   above sixty meets an open interval, or an open timeout meets an interval below ten.
   */
  lemma DefaultingRegistries(r: RegistrySpec)
    ensures DefaultRegistry(DefaultRegistry(r)) == DefaultRegistry(r)
    ensures RegistryErrors(r) == [] ==>
              (RegistryErrors(DefaultRegistry(r)) == [] <==>
                 !(r.intervalSeconds == 0 && r.timeoutSeconds > 60) && !(0 < r.intervalSeconds < 10 && r.timeoutSeconds == 0))
  {
    ClusterFolds();
    hide ToLower;
  }

  // ----- the scope of a valid registry

  /** A string longer than each of the given ones. */
  function LongerThanAll(names: seq<string>): (long: string)
    ensures forall i :: 0 <= i < |names| ==> |names[i]| < |long|
  {
    if names == [] then "" else
      var rest := LongerThanAll(names[1..]);
      if |rest| > |names[0]| then rest else names[0] + "x"
  }

  /** Listings keep to the registry's namespaces, if its scope means to, whatever way it is spelt. */
  ghost predicate ScopeEnforced(r: RegistrySpec) {
    forall ns :: InScope(Some(Scope(r.scope, r.namespaces)), ns) <==> (ToLower(r.scope) == "namespace" ==> ns in r.namespaces)
  }

  /**
   The validator accepts a scope in any case, and the listing compares it with "Namespace" exactly.
   So the scope of a valid registry is enforced exactly when it does not mean namespaces, or says so
   in the one spelling that the listing knows.
   */
  lemma ScopeEnforcedIff(r: RegistrySpec)
    requires RegistryErrors(r) == []
    ensures ScopeEnforced(r) <==> (ToLower(r.scope) == "namespace" ==> r.scope == "Namespace")
  {
    NoRegistryErrorsIffValid(r);
    NamespaceFolds();
    var outside := LongerThanAll(r.namespaces);
    assert outside !in r.namespaces;
    assert r.scope == "" ==> |ToLower(r.scope)| == 0;
    hide ToLower;
    if ToLower(r.scope) == "namespace" && r.scope != "Namespace" {
      assert InScope(Some(Scope(r.scope, r.namespaces)), outside);
    }
  }

  lemma NamespaceFolds()
    ensures ToLower("Namespace") == "namespace" && ToLower("namespace") == "namespace"
  {
    var name := "Namespace";
    assert name[0] == 'N' && name[1..] == "amespace";
    assert ToLower(name) == ['n'] + ToLower(name[1..]);
  }

  /** A registry that passes validation, and whose namespaces a listing ignores. */
  lemma LowerCaseScopeIsIgnored()
    ensures var r := RegistrySpec("namespace", "", ["team"], false, true, false, 60, 10, 8082, "0.0.0.0");
            && RegistryErrors(r) == [] && !ScopeEnforced(r)
            && forall ns :: InScope(Some(Scope(r.scope, r.namespaces)), ns)
  {
    var r := RegistrySpec("namespace", "", ["team"], false, true, false, 60, 10, 8082, "0.0.0.0");
    NamespaceFolds();
    NoRegistryErrorsIffValid(r);
    ScopeEnforcedIff(r);
  }
}
