/**
 The custom resource structs as they lie in memory: struct values, shared backing arrays and
 pointers; and the hand-written deep copies over them.
 */
module ApiObjects {
  import opened Types
  import opened Slices
  import opened Conditions

  class TimeBox {
    var seconds: nat
    constructor (seconds: nat)
      ensures this.seconds == seconds
    {
      this.seconds := seconds;
    }
  }

  class SecretRef {
    var name: string
    constructor (name: string)
      ensures this.name == name
    {
      this.name := name;
    }
  }

  class ProviderBox {
    var provider: Provider
    constructor (provider: Provider)
      ensures this.provider == provider
    {
      this.provider := provider;
    }
  }

  class HealthCheckBox {
    var intervalSeconds: int32
    var timeoutSeconds: int32
    var failureThreshold: int32

    function Value(): HealthCheck
      reads this
    {
      HealthCheck(intervalSeconds, timeoutSeconds, failureThreshold)
    }

    constructor (h: HealthCheck)
      ensures Value() == h
    {
      intervalSeconds, timeoutSeconds, failureThreshold := h.intervalSeconds, h.timeoutSeconds, h.failureThreshold;
    }
  }

  /** The backing array of a slice, if it has one. */
  ghost function Backing<T>(s: Slice<T>): set<object> {
    if s.data == null then {} else {s.data as object}
  }

  /** Both slices are nil or neither is; the values do not tell nil from empty. */
  predicate AlikeNil<T>(a: Slice<T>, b: Slice<T>) {
    a.data == null <==> b.data == null
  }

  /** A make of the same length followed by a copy; nil stays nil. */
  method CopySlice<T(0)>(s: Slice<T>) returns (r: Slice<T>)
    requires s.Valid()
    ensures r.Valid() && fresh(Backing(r)) && r.View() == s.View()
    ensures AlikeNil(r, s) && (r.data != null ==> r.data.Length == r.len)
  {
    if s.data == null {
      return s;
    }
    var data := new T[s.len];
    forall i | 0 <= i < s.len {
      data[i] := s.data[i];
    }
    assert data[..] == s.View();
    r := Slice(data, s.len);
  }

  // ----- skills: struct values holding slices

  datatype SkillStruct = SkillStruct(id: string, name: string, description: string,
                                     tags: Slice<string>, examples: Slice<string>) {
    ghost predicate Valid() {
      tags.Valid() && examples.Valid()
    }

    ghost function Value(): Skill
      requires Valid()
      reads tags.data, examples.data
    {
      Skill(id, name, description, tags.View(), examples.View())
    }

    ghost function Reach(): set<object> {
      Backing(tags) + Backing(examples)
    }
  }

  predicate SkillAlikeNil(a: SkillStruct, b: SkillStruct) {
    AlikeNil(a.tags, b.tags) && AlikeNil(a.examples, b.examples)
  }

  ghost predicate SkillsAlikeNil(a: seq<SkillStruct>, b: seq<SkillStruct>) {
    |a| == |b| && forall i :: 0 <= i < |a| ==> SkillAlikeNil(a[i], b[i])
  }

  method CopySkill(s: SkillStruct) returns (r: SkillStruct)
    requires s.Valid()
    ensures r.Valid() && fresh(r.Reach()) && r.Value() == s.Value() && SkillAlikeNil(r, s)
  {
    var tags := CopySlice(s.tags);
    var examples := CopySlice(s.examples);
    r := s.(tags := tags, examples := examples);
  }

  ghost predicate SkillsValid(skills: seq<SkillStruct>) {
    forall i :: 0 <= i < |skills| ==> skills[i].Valid()
  }

  ghost function SkillsReach(skills: seq<SkillStruct>): set<object> {
    set i, o | 0 <= i < |skills| && o in skills[i].Reach() :: o
  }

  ghost function SkillAt(skills: seq<SkillStruct>, i: nat): Skill
    requires SkillsValid(skills) && i < |skills|
    reads SkillsReach(skills)
  {
    assert forall o :: o in skills[i].Reach() ==> o in SkillsReach(skills);
    assert skills[i].tags.data != null ==> skills[i].tags.data in skills[i].Reach();
    assert skills[i].examples.data != null ==> skills[i].examples.data in skills[i].Reach();
    skills[i].Value()
  }

  ghost function SkillValues(skills: seq<SkillStruct>): seq<Skill>
    requires SkillsValid(skills)
    reads SkillsReach(skills)
  {
    seq(|skills|, i requires 0 <= i < |skills| reads SkillsReach(skills) => SkillAt(skills, i))
  }

  method CopySkills(s: Slice<SkillStruct>) returns (r: Slice<SkillStruct>)
    requires s.Valid() && SkillsValid(s.View())
    ensures r.Valid() && SkillsValid(r.View()) && fresh(Backing(r)) && fresh(SkillsReach(r.View()))
    ensures SkillValues(r.View()) == old(SkillValues(s.View()))
    ensures AlikeNil(r, s) && SkillsAlikeNil(r.View(), s.View())
  {
    if s.data == null {
      return s;
    }
    var copies: seq<SkillStruct> := [];
    for i := 0 to s.len
      invariant |copies| == i && SkillsValid(copies)
      invariant forall j :: 0 <= j < i ==> fresh(copies[j].Reach())
      invariant forall j :: 0 <= j < i ==> copies[j].Value() == s.View()[j].Value() && SkillAlikeNil(copies[j], s.View()[j])
    {
      var copied := CopySkill(s.data[i]);
      copies := copies + [copied];
    }
    var data := new SkillStruct[s.len](i requires 0 <= i < |copies| => copies[i]);
    assert data[..] == copies;
    r := Slice(data, s.len);
  }

  // ----- authentication

  class AuthenticationObject {
    var schemes: Slice<string>
    var secretRef: SecretRef?

    constructor ()
      ensures schemes == Slice(null, 0) && secretRef == null
    {
      schemes, secretRef := Slice(null, 0), null;
    }

    ghost predicate Valid()
      reads this
    {
      schemes.Valid()
    }

    ghost function Value(): Authentication
      requires Valid()
      reads this, schemes.data, secretRef
    {
      Authentication(schemes.View(), if secretRef == null then None else Some(secretRef.name))
    }

    ghost function Reach(): set<object>
      reads this
    {
      {this} + Backing(schemes) + (if secretRef == null then {} else {secretRef})
    }

    method DeepCopyInto(out: AuthenticationObject)
      requires Valid() && out != this
      modifies out
      ensures out.Valid() && out.Value() == Value() && fresh(out.Reach() - {out})
      ensures schemes == old(schemes) && AlikeNil(out.schemes, schemes)
    {
      out.schemes := schemes;
      out.secretRef := secretRef;
      if schemes.data != null {
        var copied := CopySlice(schemes);
        out.schemes := copied;
      }
      if secretRef != null {
        out.secretRef := new SecretRef(secretRef.name);
      }
    }
  }

  method CopyAuthentication(a: AuthenticationObject?) returns (r: AuthenticationObject?)
    requires a != null ==> a.Valid()
    ensures r == null <==> a == null
    ensures r != null ==> r.Valid() && fresh(r.Reach()) && r.Value() == a.Value() && AlikeNil(r.schemes, a.schemes)
  {
    if a == null {
      return null;
    }
    var out := new AuthenticationObject();
    a.DeepCopyInto(out);
    r := out;
  }

  method CopyProvider(p: ProviderBox?) returns (r: ProviderBox?)
    ensures r == null <==> p == null
    ensures r != null ==> fresh(r) && r.provider == p.provider
  {
    if p == null {
      return null;
    }
    r := new ProviderBox(p.provider);
  }

  method CopyHealthCheck(h: HealthCheckBox?) returns (r: HealthCheckBox?)
    ensures r == null <==> h == null
    ensures r != null ==> fresh(r) && r.Value() == h.Value()
  {
    if h == null {
      return null;
    }
    r := new HealthCheckBox(h.Value());
  }

  // ----- the spec

  method CopyLists(a: Slice<string>, b: Slice<string>, c: Slice<string>)
    returns (x: Slice<string>, y: Slice<string>, z: Slice<string>)
    requires a.Valid() && b.Valid() && c.Valid()
    ensures x.Valid() && fresh(Backing(x)) && x.View() == a.View() && AlikeNil(x, a)
    ensures y.Valid() && fresh(Backing(y)) && y.View() == b.View() && AlikeNil(y, b)
    ensures z.Valid() && fresh(Backing(z)) && z.View() == c.View() && AlikeNil(z, c)
  {
    x := CopySlice(a);
    y := CopySlice(b);
    z := CopySlice(c);
  }

  /** The struct value: assigning it copies slice headers and pointers, not what they refer to. */
  datatype SpecStruct = SpecStruct(
    name: string,
    description: string,
    version: string,
    url: string,
    capabilities: Capabilities,
    skills: Slice<SkillStruct>,
    authentication: AuthenticationObject?,
    inputModes: Slice<string>,
    outputModes: Slice<string>,
    provider: ProviderBox?,
    protocolVersion: string,
    tags: Slice<string>,
    healthCheck: HealthCheckBox?,
    enabled: bool)
  {
    ghost predicate Valid()
      reads skills.data, authentication
    {
      && skills.Valid() && SkillsValid(skills.View())
      && inputModes.Valid() && outputModes.Valid() && tags.Valid()
      && (authentication != null ==> authentication.Valid())
    }

    /** Everything mutable that hangs off the struct. */
    ghost function Reach(): set<object>
      requires Valid()
      reads skills.data, authentication
    {
      SliceReach() + PointerReach()
    }

    ghost function SliceReach(): set<object>
      requires Valid()
      reads skills.data, authentication
    {
      Backing(skills) + SkillsReach(skills.View()) + Backing(inputModes) + Backing(outputModes) + Backing(tags)
    }

    ghost function PointerReach(): set<object>
      reads authentication
    {
      (if authentication == null then {} else authentication.Reach())
      + (if provider == null then {} else {provider}) + (if healthCheck == null then {} else {healthCheck})
    }

    ghost function Value(): Spec
      requires Valid()
      reads skills.data, authentication, Reach()
    {
      ShellValue().(skills := SkillValues(skills.View()))
    }

    /** The value apart from the skills. */
    ghost function ShellValue(): Spec
      requires Valid()
      reads skills.data, authentication, Reach()
    {
      Spec(name, description, version, url, capabilities, [],
           if authentication == null then None else Some(authentication.Value()),
           inputModes.View(), outputModes.View(),
           if provider == null then None else Some(provider.provider),
           protocolVersion, tags.View(),
           if healthCheck == null then None else Some(healthCheck.Value()),
           enabled)
    }

    /** The slices of the two structs are nil in the same places. */
    ghost predicate SlicesAlikeNil(that: SpecStruct)
      requires Valid() && that.Valid()
      reads skills.data, authentication, that.skills.data, that.authentication
    {
      && AlikeNil(skills, that.skills) && SkillsAlikeNil(that.skills.View(), skills.View())
      && AlikeNil(inputModes, that.inputModes) && AlikeNil(outputModes, that.outputModes) && AlikeNil(tags, that.tags)
    }

    /** So are the schemes of their authentications, if they have any. */
    ghost predicate AllAlikeNil(that: SpecStruct)
      requires Valid() && that.Valid()
      reads skills.data, authentication, that.skills.data, that.authentication
    {
      && SlicesAlikeNil(that)
      && (authentication != null && that.authentication != null ==> AlikeNil(authentication.schemes, that.authentication.schemes))
    }

    method WithCopiedSkills() returns (r: SpecStruct)
      requires Valid()
      ensures r == this.(skills := r.skills) && r.Valid() && r.Value() == old(Value())
      ensures fresh(Backing(r.skills)) && fresh(SkillsReach(r.skills.View()))
      ensures AlikeNil(r.skills, skills) && SkillsAlikeNil(r.skills.View(), skills.View())
    {
      var newSkills := CopySkills(skills);
      r := this.(skills := newSkills);
    }

    method WithCopiedLists() returns (r: SpecStruct)
      requires Valid()
      ensures r == this.(inputModes := r.inputModes, outputModes := r.outputModes, tags := r.tags)
      ensures skills.View() == old(skills.View()) && r.Valid() && r.Value() == old(Value())
      ensures fresh(Backing(r.inputModes) + Backing(r.outputModes) + Backing(r.tags))
      ensures AlikeNil(r.inputModes, inputModes) && AlikeNil(r.outputModes, outputModes) && AlikeNil(r.tags, tags)
    {
      var newInputModes, newOutputModes, newTags := CopyLists(inputModes, outputModes, tags);
      r := this.(inputModes := newInputModes, outputModes := newOutputModes, tags := newTags);
    }

    method WithCopiedAuthentication() returns (r: SpecStruct)
      requires Valid()
      ensures r == this.(authentication := r.authentication)
      ensures skills.View() == old(skills.View()) && r.Valid() && r.Value() == old(Value())
      ensures r.authentication != null ==>
                fresh(r.authentication.Reach()) && authentication != null && AlikeNil(r.authentication.schemes, authentication.schemes)
    {
      var copied := CopyAuthentication(authentication);
      assert SkillValues(skills.View()) == old(SkillValues(skills.View()));
      r := this.(authentication := copied);
    }

    method WithCopiedProvider() returns (r: SpecStruct)
      requires Valid()
      ensures r == this.(provider := r.provider)
      ensures skills.View() == old(skills.View()) && r.Valid() && r.Value() == old(Value())
      ensures authentication != null ==> authentication.Reach() == old(authentication.Reach())
      ensures r.provider != null ==> fresh(r.provider)
    {
      var copied := CopyProvider(provider);
      assert SkillValues(skills.View()) == old(SkillValues(skills.View()));
      r := this.(provider := copied);
    }

    method WithCopiedHealthCheck() returns (r: SpecStruct)
      requires Valid()
      ensures r == this.(healthCheck := r.healthCheck)
      ensures skills.View() == old(skills.View()) && r.Valid() && r.Value() == old(Value())
      ensures authentication != null ==> authentication.Reach() == old(authentication.Reach())
      ensures r.healthCheck != null ==> fresh(r.healthCheck)
    {
      var copied := CopyHealthCheck(healthCheck);
      assert SkillValues(skills.View()) == old(SkillValues(skills.View()));
      r := this.(healthCheck := copied);
    }

    method WithCopiedSlices() returns (r: SpecStruct)
      requires Valid()
      ensures r == this.(skills := r.skills, inputModes := r.inputModes, outputModes := r.outputModes, tags := r.tags)
      ensures r.Valid() && r.Value() == old(Value()) && fresh(r.SliceReach()) && SlicesAlikeNil(r) && skills.View() == old(skills.View())
    {
      hide SkillsReach, Value, ShellValue;
      var withSkills := WithCopiedSkills();
      r := withSkills.WithCopiedLists();
    }

    method WithCopiedPointers() returns (r: SpecStruct)
      requires Valid()
      ensures r == this.(authentication := r.authentication, provider := r.provider, healthCheck := r.healthCheck)
      ensures skills.View() == old(skills.View()) && r.Valid() && r.Value() == old(Value()) && fresh(r.PointerReach())
      ensures r.authentication != null ==> authentication != null && AlikeNil(r.authentication.schemes, authentication.schemes)
    {
      hide SkillsReach, Value, ShellValue;
      var withAuthentication := WithCopiedAuthentication();
      var withProvider := withAuthentication.WithCopiedProvider();
      r := withProvider.WithCopiedHealthCheck();
    }

    /** The same struct with everything it refers to copied. */
    method Copied() returns (r: SpecStruct)
      requires Valid()
      ensures Valid() && r.Valid() && fresh(r.Reach()) && r.Value() == old(Value()) && AllAlikeNil(r)
    {
      hide SkillsReach, Value, ShellValue;
      var withSlices := WithCopiedSlices();
      r := withSlices.WithCopiedPointers();
    }
  }

  /** The value of a spec in memory has the fields of the struct and the contents of what it refers to. */
  lemma SpecValueSays(s: SpecStruct)
    requires s.Valid()
    ensures var v := s.Value();
            && v.name == s.name && v.description == s.description && v.version == s.version && v.url == s.url
            && v.capabilities == s.capabilities && v.protocolVersion == s.protocolVersion && v.enabled == s.enabled
            && v.inputModes == s.inputModes.View() && v.outputModes == s.outputModes.View() && v.tags == s.tags.View()
            && (v.authentication.Some? <==> s.authentication != null)
            && (s.authentication != null ==>
                  && v.authentication.value.schemes == s.authentication.schemes.View()
                  && (v.authentication.value.secretRef.Some? <==> s.authentication.secretRef != null)
                  && (s.authentication.secretRef != null ==> v.authentication.value.secretRef.value == s.authentication.secretRef.name))
            && (v.provider.Some? <==> s.provider != null) && (s.provider != null ==> v.provider.value == s.provider.provider)
            && (v.healthCheck.Some? <==> s.healthCheck != null)
            && (s.healthCheck != null ==>
                  && v.healthCheck.value.intervalSeconds == s.healthCheck.intervalSeconds
                  && v.healthCheck.value.timeoutSeconds == s.healthCheck.timeoutSeconds
                  && v.healthCheck.value.failureThreshold == s.healthCheck.failureThreshold)
            && |v.skills| == s.skills.len
  {
  }

  lemma SkillValueSays(s: SpecStruct, i: nat)
    requires s.Valid() && i < s.skills.len
    ensures |s.Value().skills| == s.skills.len
    ensures var v, k := s.Value().skills[i], s.skills.View()[i];
            && v.id == k.id && v.name == k.name && v.description == k.description
            && v.tags == k.tags.View() && v.examples == k.examples.View()
  {
    hide SpecStruct.ShellValue;
  }

  /** A spec behind a pointer. */
  class SpecObject {
    var v: SpecStruct

    constructor (v: SpecStruct)
      ensures this.v == v
    {
      this.v := v;
    }

    /**
     The copy has the original's value and shares nothing mutable with it: every array and every
     pointed-to object of the copy is new.
     */
    method DeepCopyInto(out: SpecObject)
      requires v.Valid() && out != this
      modifies out
      ensures v == old(v) && v.Valid() && out.v.Valid() && fresh(out.v.Reach()) && out.v.Value() == old(v.Value())
      ensures v.AllAlikeNil(out.v)
    {
      hide SkillValues, SkillsReach, SpecStruct.ShellValue, Backing;
      var copied := v.Copied();
      SpecsReachNoSpec(copied, out);
      out.v := copied;
    }
  }

  lemma SpecsReachNoSpec(s: SpecStruct, o: SpecObject)
    requires s.Valid()
    ensures o !in s.Reach()
  {
  }

  // ----- the status

  datatype StatusStruct = StatusStruct(
    phase: Phase,
    health: Health,
    message: Message,
    lastHeartbeat: TimeBox?,
    cardHash: string,
    observedGeneration: int,
    consecutiveFailures: int32,
    registeredAt: TimeBox?,
    conditions: Slice<Condition>)
  {
    ghost predicate Valid() {
      conditions.Valid()
    }

    ghost function Reach(): set<object> {
      Backing(conditions) + (if lastHeartbeat == null then {} else {lastHeartbeat}) + (if registeredAt == null then {} else {registeredAt})
    }

    ghost function Value(): Status
      requires Valid()
      reads Reach()
    {
      Status(phase, health, message, if lastHeartbeat == null then None else Some(lastHeartbeat.seconds), cardHash,
             observedGeneration, consecutiveFailures, if registeredAt == null then None else Some(registeredAt.seconds),
             conditions.View())
    }

    method Copied() returns (r: StatusStruct)
      requires Valid()
      ensures r.Valid() && fresh(r.Reach()) && r.Value() == old(Value()) && AlikeNil(r.conditions, conditions)
    {
      var conditionsCopy := CopySlice(conditions);
      var heartbeatCopy, registeredCopy := lastHeartbeat, registeredAt;
      if lastHeartbeat != null {
        heartbeatCopy := new TimeBox(lastHeartbeat.seconds);
      }
      if registeredAt != null {
        registeredCopy := new TimeBox(registeredAt.seconds);
      }
      r := this.(lastHeartbeat := heartbeatCopy, registeredAt := registeredCopy, conditions := conditionsCopy);
    }
  }

  lemma StatusValueSays(s: StatusStruct)
    requires s.Valid()
    ensures var v := s.Value();
            && v.phase == s.phase && v.health == s.health && v.message == s.message && v.cardHash == s.cardHash
            && v.observedGeneration == s.observedGeneration && v.consecutiveFailures == s.consecutiveFailures
            && v.conditions == s.conditions.View()
            && (v.lastHeartbeat.Some? <==> s.lastHeartbeat != null)
            && (s.lastHeartbeat != null ==> v.lastHeartbeat.value == s.lastHeartbeat.seconds)
            && (v.registeredAt.Some? <==> s.registeredAt != null)
            && (s.registeredAt != null ==> v.registeredAt.value == s.registeredAt.seconds)
  {
  }

  /** A status behind a pointer. */
  class StatusObject {
    var v: StatusStruct

    constructor (v: StatusStruct)
      ensures this.v == v
    {
      this.v := v;
    }

    method DeepCopyInto(out: StatusObject)
      requires v.Valid() && out != this
      modifies out
      ensures v == old(v) && out.v.Valid() && fresh(out.v.Reach()) && out.v.Value() == old(v.Value())
      ensures AlikeNil(out.v.conditions, v.conditions)
    {
      var copied := v.Copied();
      out.v := copied;
    }

    /** Why the copies must be deep: an in-place merge on a deep copy never reaches the original. */
    method MergeIntoCopy(c: Condition) returns (copied: StatusObject)
      requires v.Valid()
      ensures v == old(v) && v.Value() == old(v.Value())
      ensures fresh(copied) && copied.v.Valid()
      ensures copied.v.Value() == v.Value().(conditions := Merge(v.Value().conditions, c))
    {
      copied := new StatusObject(v);
      DeepCopyInto(copied);
      var merged := MergeCondition(copied.v.conditions, c);
      copied.v := copied.v.(conditions := merged);
    }

    /** With the backing array shared, the same merge rewrites the original exactly when the kind is already there. */
    method MergeIntoShallowCopy(c: Condition) returns (copied: StatusObject)
      requires v.Valid()
      modifies v.conditions.data
      ensures v == old(v) && fresh(copied) && copied.v.Valid()
      ensures copied.v.conditions.View() == Merge(old(v.conditions.View()), c)
      ensures v.conditions.View() == if Lookup(old(v.conditions.View()), c.kind).Some?
                                     then copied.v.conditions.View() else old(v.conditions.View())
    {
      copied := new StatusObject(v);
      var merged := MergeCondition(copied.v.conditions, c);
      copied.v := copied.v.(conditions := merged);
    }
  }
}
