/** The registry API: listing, searching and registering agents. */
module Discovery {
  import opened Types
  import opened Store
  import opened Strings
  import opened Controller

  /** One listed object. */
  datatype Item = Item(key: Key, spec: Spec)

  function Filter<T>(items: seq<T>, keep: T -> bool): seq<T> {
    if items == [] then []
    else (if keep(items[0]) then [items[0]] else []) + Filter(items[1..], keep)
  }

  lemma {:induction false} FilterStep<T>(items: seq<T>, keep: T -> bool, i: nat)
    requires i < |items|
    ensures Filter(items[..i + 1], keep) == Filter(items[..i], keep) + (if keep(items[i]) then [items[i]] else [])
  {
    if i == 0 {
      assert items[..1] == [items[0]];
    } else {
      FilterStep(items[1..], keep, i - 1);
      assert items[..i + 1][1..] == items[1..][..i] && items[..i][1..] == items[1..][..i - 1];
    }
  }

  lemma {:induction false} FilterSame<T>(items: seq<T>, p: T -> bool, q: T -> bool)
    requires forall x :: x in items ==> p(x) == q(x)
    ensures Filter(items, p) == Filter(items, q)
  {
    if items != [] {
      FilterSame(items[1..], p, q);
    }
  }

  // ----- tags and skills

  predicate SharesTag(agentTags: seq<string>, filterTags: seq<string>) {
    exists f, t :: 0 <= f < |filterTags| && 0 <= t < |agentTags| && EqualFold(TrimSpace(agentTags[t]), TrimSpace(filterTags[f]))
  }

  predicate HasTagNamed(agentTags: seq<string>, tag: string) {
    exists t :: 0 <= t < |agentTags| && EqualFold(agentTags[t], tag)
  }

  predicate HasSkillNamed(skills: seq<Skill>, id: string) {
    exists s :: 0 <= s < |skills| && EqualFold(skills[s].id, id)
  }

  method HasAnyTag(agentTags: seq<string>, filterTags: seq<string>) returns (found: bool)
    ensures found == SharesTag(agentTags, filterTags)
  {
    for f := 0 to |filterTags|
      invariant forall g, t :: 0 <= g < f && 0 <= t < |agentTags| ==> !EqualFold(TrimSpace(agentTags[t]), TrimSpace(filterTags[g]))
    {
      for t := 0 to |agentTags|
        invariant forall u :: 0 <= u < t ==> !EqualFold(TrimSpace(agentTags[u]), TrimSpace(filterTags[f]))
      {
        if EqualFold(TrimSpace(agentTags[t]), TrimSpace(filterTags[f])) {
          return true;
        }
      }
    }
    return false;
  }

  method HasTag(agentTags: seq<string>, tag: string) returns (found: bool)
    ensures found == HasTagNamed(agentTags, tag)
  {
    for t := 0 to |agentTags|
      invariant forall u :: 0 <= u < t ==> !EqualFold(agentTags[u], tag)
    {
      if EqualFold(agentTags[t], tag) {
        return true;
      }
    }
    return false;
  }

  method HasSkill(skills: seq<Skill>, id: string) returns (found: bool)
    ensures found == HasSkillNamed(skills, id)
  {
    for s := 0 to |skills|
      invariant forall u :: 0 <= u < s ==> !EqualFold(skills[u].id, id)
    {
      if EqualFold(skills[s].id, id) {
        return true;
      }
    }
    return false;
  }

  // ----- ListAgents

  datatype Scope = Scope(kind: string, namespaces: seq<string>)

  predicate InScope(scope: Option<Scope>, namespace: string) {
    scope.Some? && scope.value.kind == "Namespace" && |scope.value.namespaces| > 0 ==> namespace in scope.value.namespaces
  }

  /** What ListAgents keeps: enabled, in scope, any of the tags if tags are given, the skill if one is. */
  predicate Listed(item: Item, scope: Option<Scope>, tags: string, skill: string) {
    && item.spec.enabled
    && InScope(scope, item.key.namespace)
    && (tags != "" ==> SharesTag(item.spec.tags, Split(tags, ',')))
    && (skill != "" ==> HasSkillNamed(item.spec.skills, skill))
  }

  method ListAgents(items: seq<Item>, scope: Option<Scope>, tags: string, skill: string) returns (entries: seq<Item>)
    ensures entries == Filter(items, (x: Item) => Listed(x, scope, tags, skill))
    ensures forall x :: x in entries <==> x in items && AnswersListing(x, scope, tags, skill)
  {
    ghost var keep := (x: Item) => Listed(x, scope, tags, skill);
    entries := [];
    for i := 0 to |items|
      invariant entries == Filter(items[..i], keep)
    {
      FilterStep(items, keep, i);
      var agent := items[i];
      if !agent.spec.enabled {
        continue;
      }
      if scope.Some? && scope.value.kind == "Namespace" && |scope.value.namespaces| > 0 {
        var found := false;
        var n := 0;
        while n < |scope.value.namespaces| && !found
          invariant 0 <= n <= |scope.value.namespaces|
          invariant found <==> agent.key.namespace in scope.value.namespaces[..n]
        {
          if agent.key.namespace == scope.value.namespaces[n] {
            found := true;
          }
          n := n + 1;
        }
        assert !found ==> scope.value.namespaces[..n] == scope.value.namespaces;
        if !found {
          continue;
        }
      }
      if tags != "" {
        var any := HasAnyTag(agent.spec.tags, Split(tags, ','));
        if !any {
          continue;
        }
      }
      if skill != "" {
        var has := HasSkill(agent.spec.skills, skill);
        if !has {
          continue;
        }
      }
      entries := entries + [agent];
    }
    assert items[..|items|] == items;
    forall x ensures x in entries <==> x in items && AnswersListing(x, scope, tags, skill) {
      FilterMembers(items, keep, x);
      ListedIff(x, scope, tags, skill);
    }
  }

  /**
   What a listing asks for: an enabled agent, in the scope's namespaces if the scope names any, with
   one of the comma-separated tags if tags are given, and with the skill if one is given.
   */
  ghost predicate AnswersListing(x: Item, scope: Option<Scope>, tags: string, skill: string) {
    && x.spec.enabled
    && (scope.Some? && scope.value.kind == "Namespace" && scope.value.namespaces != [] ==> x.key.namespace in scope.value.namespaces)
    && (tags != "" ==> exists a, b :: Piece(tags, ',', a, b) && TaggedLike(x.spec.tags, tags[a..b]))
    && (skill != "" ==> exists s :: 0 <= s < |x.spec.skills| && SameButCase(x.spec.skills[s].id, skill))
  }

  /** Some tag is the given one, but for case and for white space around either. */
  ghost predicate TaggedLike(tags: seq<string>, tag: string) {
    exists t, a, b, c, d :: 0 <= t < |tags| && Trimmed(tags[t], a, b) && Trimmed(tag, c, d) && SameButCase(tags[t][a..b], tag[c..d])
  }

  lemma TaggedLikeIff(tags: seq<string>, tag: string)
    ensures TaggedLike(tags, tag) <==> exists t :: 0 <= t < |tags| && EqualFold(TrimSpace(tags[t]), TrimSpace(tag))
  {
    hide SameButCase, TrimSpace, EqualFold;
    if exists t :: 0 <= t < |tags| && EqualFold(TrimSpace(tags[t]), TrimSpace(tag)) {
      var t :| 0 <= t < |tags| && EqualFold(TrimSpace(tags[t]), TrimSpace(tag));
      TrimSpaceIs(tags[t]);
      TrimSpaceIs(tag);
      FoldIff(TrimSpace(tags[t]), TrimSpace(tag));
      var a, b :| Trimmed(tags[t], a, b) && TrimSpace(tags[t]) == tags[t][a..b];
      var c, d :| Trimmed(tag, c, d) && TrimSpace(tag) == tag[c..d];
    }
    forall t, a, b, c, d | 0 <= t < |tags| && Trimmed(tags[t], a, b) && Trimmed(tag, c, d) && SameButCase(tags[t][a..b], tag[c..d])
      ensures EqualFold(TrimSpace(tags[t]), TrimSpace(tag))
    {
      TrimmedOnce(tags[t], a, b);
      TrimmedOnce(tag, c, d);
      FoldIff(TrimSpace(tags[t]), TrimSpace(tag));
    }
  }

  lemma SharesTagIff(agentTags: seq<string>, tags: string)
    ensures SharesTag(agentTags, Split(tags, ',')) <==> exists a, b :: Piece(tags, ',', a, b) && TaggedLike(agentTags, tags[a..b])
  {
    hide Split, TaggedLike, EqualFold, TrimSpace;
    var parts := Split(tags, ',');
    if SharesTag(agentTags, parts) {
      var f, t :| 0 <= f < |parts| && 0 <= t < |agentTags| && EqualFold(TrimSpace(agentTags[t]), TrimSpace(parts[f]));
      SplitIff(tags, ',', parts[f]);
      TaggedLikeIff(agentTags, parts[f]);
      var a, b :| Piece(tags, ',', a, b) && parts[f] == tags[a..b];
    }
    forall a, b | Piece(tags, ',', a, b) && TaggedLike(agentTags, tags[a..b]) ensures SharesTag(agentTags, parts) {
      SplitIff(tags, ',', tags[a..b]);
      TaggedLikeIff(agentTags, tags[a..b]);
      var f :| 0 <= f < |parts| && parts[f] == tags[a..b];
      var t :| 0 <= t < |agentTags| && EqualFold(TrimSpace(agentTags[t]), TrimSpace(tags[a..b]));
      assert EqualFold(TrimSpace(agentTags[t]), TrimSpace(parts[f]));
    }
  }

  lemma ListedIff(x: Item, scope: Option<Scope>, tags: string, skill: string)
    ensures Listed(x, scope, tags, skill) <==> AnswersListing(x, scope, tags, skill)
  {
    hide SharesTag, TaggedLike, Split;
    SharesTagIff(x.spec.tags, tags);
    forall s | 0 <= s < |x.spec.skills| ensures EqualFold(x.spec.skills[s].id, skill) <==> SameButCase(x.spec.skills[s].id, skill) {
      FoldIff(x.spec.skills[s].id, skill);
    }
    hide EqualFold, SameButCase;
  }

  /**
   Listing by several tags joined with commas is the union of listing by each of them, for
   non-empty tags without commas.
   */
  lemma JoinedTagsListTheUnion(item: Item, scope: Option<Scope>, tags: seq<string>, skill: string)
    requires tags != [] && forall i :: 0 <= i < |tags| ==> tags[i] != "" && ',' !in tags[i]
    ensures Listed(item, scope, Join(tags, ','), skill) <==> exists i :: 0 <= i < |tags| && Listed(item, scope, tags[i], skill)
  {
    SplitUndoesJoin(tags, ',');
    assert Join(tags, ',') != "";
    forall i | 0 <= i < |tags| ensures Split(tags[i], ',') == [tags[i]] {
      SplitWhole(tags[i], ',');
    }
    if SharesTag(item.spec.tags, tags) {
      var f, t :| 0 <= f < |tags| && 0 <= t < |item.spec.tags| && EqualFold(TrimSpace(item.spec.tags[t]), TrimSpace(tags[f]));
      assert [tags[f]][0] == tags[f];
      assert SharesTag(item.spec.tags, [tags[f]]);
      assert Split(tags[f], ',') == [tags[f]];
    }
    forall i | 0 <= i < |tags| && SharesTag(item.spec.tags, [tags[i]]) ensures SharesTag(item.spec.tags, tags) {
      var f, t :| 0 <= f < 1 && 0 <= t < |item.spec.tags| && EqualFold(TrimSpace(item.spec.tags[t]), TrimSpace([tags[i]][f]));
      assert EqualFold(TrimSpace(item.spec.tags[t]), TrimSpace(tags[i]));
    }
  }

  // ----- Search

  predicate HasCapability(spec: Spec, capability: string) {
    && (capability == "streaming" ==> spec.capabilities.streaming)
    && (capability == "pushnotifications" ==> spec.capabilities.pushNotifications)
  }

  /** What Search keeps, on queries that are already lower case; an unknown capability filters nothing. */
  predicate Found(item: Item, q: string, tag: string, skill: string, capability: string) {
    && item.spec.enabled
    && (q != "" ==> Contains(ToLower(item.spec.name), q) || Contains(ToLower(item.spec.description), q))
    && (tag != "" ==> HasTagNamed(item.spec.tags, tag))
    && (skill != "" ==> HasSkillNamed(item.spec.skills, skill))
    && HasCapability(item.spec, capability)
  }

  method Search(items: seq<Item>, qParam: string, tagParam: string, skillParam: string, capabilityParam: string)
    returns (entries: seq<Item>)
    ensures entries == Filter(items, (x: Item) =>
                         Found(x, ToLower(qParam), ToLower(tagParam), ToLower(skillParam), ToLower(capabilityParam)))
    ensures forall x :: x in entries <==> x in items && AnswersSearch(x, qParam, tagParam, skillParam, capabilityParam)
  {
    var q, tag, skill, capability := ToLower(qParam), ToLower(tagParam), ToLower(skillParam), ToLower(capabilityParam);
    ghost var keep := (x: Item) => Found(x, ToLower(qParam), ToLower(tagParam), ToLower(skillParam), ToLower(capabilityParam));
    entries := [];
    for i := 0 to |items|
      invariant entries == Filter(items[..i], keep)
    {
      FilterStep(items, keep, i);
      var agent := items[i];
      if !agent.spec.enabled {
        continue;
      }
      if q != "" {
        if !Contains(ToLower(agent.spec.name), q) && !Contains(ToLower(agent.spec.description), q) {
          continue;
        }
      }
      if tag != "" {
        var has := HasTag(agent.spec.tags, tag);
        if !has {
          continue;
        }
      }
      if skill != "" {
        var has := HasSkill(agent.spec.skills, skill);
        if !has {
          continue;
        }
      }
      if capability == "streaming" && !agent.spec.capabilities.streaming {
        continue;
      }
      if capability == "pushnotifications" && !agent.spec.capabilities.pushNotifications {
        continue;
      }
      entries := entries + [agent];
    }
    assert items[..|items|] == items;
    forall x ensures x in entries <==> x in items && AnswersSearch(x, qParam, tagParam, skillParam, capabilityParam) {
      FilterMembers(items, keep, x);
      FoundIff(x, qParam, tagParam, skillParam, capabilityParam);
    }
  }

  /**
   What a search asks for, each part only if it is given: the text is a slice of the name or of the
   description, but for case; a tag and a skill id are the given ones, but for case; and the two
   known capabilities, in any case, demand their own flag.
   */
  ghost predicate AnswersSearch(x: Item, q: string, tag: string, skill: string, capability: string) {
    && x.spec.enabled
    && (q != "" ==> || (exists a, b :: 0 <= a <= b <= |x.spec.name| && SameButCase(x.spec.name[a..b], q))
                    || (exists a, b :: 0 <= a <= b <= |x.spec.description| && SameButCase(x.spec.description[a..b], q)))
    && (tag != "" ==> exists t :: 0 <= t < |x.spec.tags| && SameButCase(x.spec.tags[t], tag))
    && (skill != "" ==> exists s :: 0 <= s < |x.spec.skills| && SameButCase(x.spec.skills[s].id, skill))
    && (SameButCase(capability, "streaming") ==> x.spec.capabilities.streaming)
    && (SameButCase(capability, "pushnotifications") ==> x.spec.capabilities.pushNotifications)
  }

  lemma SliceFoundIff(text: string, q: string)
    ensures Contains(ToLower(text), ToLower(q)) <==> exists a, b :: 0 <= a <= b <= |text| && SameButCase(text[a..b], q)
  {
    ContainsIff(text, q);
    hide Contains, SameButCase;
    if exists a, b :: FoundAt(text, q, a, b) {
      var a, b :| FoundAt(text, q, a, b);
      assert 0 <= a <= b <= |text| && SameButCase(text[a..b], q);
    }
    forall a, b | 0 <= a <= b <= |text| && SameButCase(text[a..b], q) ensures FoundAt(text, q, a, b) {
    }
  }

  lemma FoldLower(a: string, b: string)
    ensures EqualFold(a, ToLower(b)) <==> SameButCase(a, b)
  {
    LowerTwice(b);
    FoldIff(a, b);
  }

  /** The names of the capabilities are lower case themselves. */
  lemma CapabilityIff(capability: string)
    ensures ToLower(capability) == "streaming" <==> SameButCase(capability, "streaming")
    ensures ToLower(capability) == "pushnotifications" <==> SameButCase(capability, "pushnotifications")
  {
    CapabilityNamesAreLower();
    FoldIff(capability, "streaming");
    FoldIff(capability, "pushnotifications");
  }

  lemma CapabilityNamesAreLower()
    ensures ToLower("streaming") == "streaming" && ToLower("pushnotifications") == "pushnotifications"
  {
    LowerIsFixed("streaming");
    LowerIsFixed("pushnotifications");
  }

  lemma FoundIff(x: Item, q: string, tag: string, skill: string, capability: string)
    ensures Found(x, ToLower(q), ToLower(tag), ToLower(skill), ToLower(capability)) <==> AnswersSearch(x, q, tag, skill, capability)
  {
    SliceFoundIff(x.spec.name, q);
    SliceFoundIff(x.spec.description, q);
    CapabilityIff(capability);
    forall t | 0 <= t < |x.spec.tags| ensures EqualFold(x.spec.tags[t], ToLower(tag)) <==> SameButCase(x.spec.tags[t], tag) {
      FoldLower(x.spec.tags[t], tag);
    }
    forall s | 0 <= s < |x.spec.skills| ensures EqualFold(x.spec.skills[s].id, ToLower(skill)) <==> SameButCase(x.spec.skills[s].id, skill) {
      FoldLower(x.spec.skills[s].id, skill);
    }
    assert (ToLower(q) == "" <==> q == "") && (ToLower(tag) == "" <==> tag == "") && (ToLower(skill) == "" <==> skill == "");
    hide ToLower, Contains, EqualFold, SameButCase;
  }

  /** The case of a query is irrelevant in all four parameters. */
  lemma QueryCaseIsIrrelevant(items: seq<Item>, q: string, tag: string, skill: string, capability: string,
                              q': string, tag': string, skill': string, capability': string)
    requires SameButCase(q, q') && SameButCase(tag, tag') && SameButCase(skill, skill') && SameButCase(capability, capability')
    ensures Filter(items, (x: Item) => Found(x, ToLower(q), ToLower(tag), ToLower(skill), ToLower(capability))) ==
            Filter(items, (x: Item) => Found(x, ToLower(q'), ToLower(tag'), ToLower(skill'), ToLower(capability')))
  {
    FoldIff(q, q');
    FoldIff(tag, tag');
    FoldIff(skill, skill');
    FoldIff(capability, capability');
    FilterSame(items, (x: Item) => Found(x, ToLower(q), ToLower(tag), ToLower(skill), ToLower(capability)),
               (x: Item) => Found(x, ToLower(q'), ToLower(tag'), ToLower(skill'), ToLower(capability')));
  }

  /**
   Search ignores the discovery scope and ListAgents does not.  On a skill query the two return the
   same list exactly when every enabled agent with the skill is in scope, as under Cluster scope.
   */
  lemma {:induction false} SkillSearchAgreesIffInScope(items: seq<Item>, scope: Option<Scope>, skill: string)
    ensures Filter(items, (x: Item) => Found(x, "", "", ToLower(skill), "")) == Filter(items, (x: Item) => Listed(x, scope, "", skill))
            <==> forall x :: x in items && x.spec.enabled && (skill != "" ==> HasSkillNamed(x.spec.skills, skill))
                             ==> InScope(scope, x.key.namespace)
    ensures scope.None? || scope.value.kind == "Cluster" ==>
              Filter(items, (x: Item) => Found(x, "", "", ToLower(skill), "")) == Filter(items, (x: Item) => Listed(x, scope, "", skill))
  {
    var found := (x: Item) => Found(x, "", "", ToLower(skill), "");
    var listed := (x: Item) => Listed(x, scope, "", skill);
    forall x: Item ensures found(x) <==> x.spec.enabled && (skill != "" ==> HasSkillNamed(x.spec.skills, skill)) {
      SkillFolds(x.spec.skills, skill);
    }
    if forall x :: x in items && found(x) ==> listed(x) {
      FilterSame(items, found, listed);
    }
    if Filter(items, found) == Filter(items, listed) {
      forall x | x in items && found(x) ensures listed(x) {
        FilterMembers(items, found, x);
        FilterMembers(items, listed, x);
      }
    }
  }

  lemma SkillFolds(skills: seq<Skill>, skill: string)
    ensures (ToLower(skill) == "") == (skill == "")
    ensures HasSkillNamed(skills, ToLower(skill)) == HasSkillNamed(skills, skill)
  {
    LowerTwice(skill);
  }

  lemma {:induction false} FilterMembers<T>(items: seq<T>, keep: T -> bool, x: T)
    ensures x in Filter(items, keep) <==> x in items && keep(x)
  {
    if items != [] {
      FilterMembers(items[1..], keep, x);
      assert x in items <==> x == items[0] || x in items[1..];
    }
  }

  // ----- RegisterAgent

  datatype SkillEntry = SkillEntry(id: string, name: string, description: string)

  datatype RegisterRequest = RegisterRequest(
    name: string,
    namespace: string,
    description: string,
    version: string,
    url: string,
    skills: seq<SkillEntry>,
    tags: seq<string>,
    streaming: bool,
    pushNotifications: bool,
    protocolVersion: string)

  datatype Reply = BadRequest | UrlAlreadyHeld(holder: Key) | CreateFailed | Registered(key: Key)

  function RequestedSpec(req: RegisterRequest): Spec {
    Spec(req.name, req.description, req.version, req.url, Capabilities(req.streaming, req.pushNotifications),
         seq(|req.skills|, i requires 0 <= i < |req.skills| =>
               Skill(req.skills[i].id, req.skills[i].name, req.skills[i].description, [], [])),
         None, [], [], None, req.protocolVersion, req.tags, None, true)
  }

  function RequestedKey(req: RegisterRequest, k8sName: string): Key {
    Key(if req.namespace == "" then "outbound-agent" else req.namespace, k8sName)
  }

  /** A registration call: the request, the generated resource name, and what the server does. */
  datatype RegisterCall = RegisterCall(req: RegisterRequest, k8sName: string, order: seq<Key>, listFails: bool, createFails: bool)

  /** The first listed agent with this URL. */
  function Holder(c: Cluster, order: seq<Key>, url: string): Option<Key>
    requires forall k :: k in order ==> k in c.agents
  {
    if order == [] then None else if Url(c, order[0]) == url then Some(order[0]) else Holder(c, order[1..], url)
  }

  lemma {:induction false} HolderIs(c: Cluster, order: seq<Key>, url: string)
    requires forall k :: k in order ==> k in c.agents
    ensures match Holder(c, order, url)
            case Some(k) => k in order && Url(c, k) == url
            case None => forall k :: k in order ==> Url(c, k) != url
  {
    if order != [] {
      HolderIs(c, order[1..], url);
      assert forall k :: k in order <==> k == order[0] || k in order[1..];
    }
  }

  datatype RegisterResult = RegisterResult(reply: Reply, cluster: Cluster)

  ghost function RegisterEffect(c: Cluster, call: RegisterCall): RegisterResult
    requires Lists(call.order, c)
  {
    if call.req.name == "" || call.req.url == "" then RegisterResult(BadRequest, c)
    else
      match if call.listFails then None else Holder(c, call.order, call.req.url)
      case Some(k) => RegisterResult(UrlAlreadyHeld(k), c)
      case None =>
        var key := RequestedKey(call.req, call.k8sName);
        if call.createFails || key in c.agents then RegisterResult(CreateFailed, c)
        else RegisterResult(Registered(key), Create(c, key, RequestedSpec(call.req)))
  }

  /**
   When a registration is refused and why: a URL held by any agent, under any name, is refused before
   anything is created, as long as the agents could be listed.  A refusal leaves the store alone.
   */
  lemma RegistrationRefusedIff(c: Cluster, call: RegisterCall)
    requires Lists(call.order, c)
    ensures var r := RegisterEffect(c, call);
            var valid := call.req.name != "" && call.req.url != "";
            var taken := !call.listFails && exists k :: k in c.agents && c.agents[k].agent.spec.url == call.req.url;
            var name := Key(if call.req.namespace == "" then "outbound-agent" else call.req.namespace, call.k8sName);
            && (r.reply == BadRequest <==> !valid)
            && (r.reply.UrlAlreadyHeld? <==> valid && taken)
            && (r.reply.UrlAlreadyHeld? ==> r.reply.holder in c.agents && c.agents[r.reply.holder].agent.spec.url == call.req.url)
            && (r.reply == CreateFailed <==> valid && !taken && (call.createFails || name in c.agents))
            && (r.reply.Registered? <==> valid && !taken && !call.createFails && name !in c.agents)
            && (r.reply.Registered? ==> r.reply.key == name)
            && (!r.reply.Registered? ==> r.cluster == c)
  {
    HolderIs(c, call.order, call.req.url);
  }

  /** What a registration stores, field by field: what was asked for, enabled, and never reconciled. */
  lemma RegistrationStores(c: Cluster, call: RegisterCall)
    requires Lists(call.order, c) && RegisterEffect(c, call).reply.Registered?
    ensures var r := RegisterEffect(c, call);
            var req := call.req;
            && r.cluster.agents.Keys == c.agents.Keys + {r.reply.key}
            && (forall k :: k in c.agents ==> r.cluster.agents[k] == c.agents[k])
            && var a := r.cluster.agents[r.reply.key].agent;
            && a.spec.name == req.name && a.spec.url == req.url && a.spec.version == req.version
            && a.spec.description == req.description && a.spec.tags == req.tags && a.spec.protocolVersion == req.protocolVersion
            && a.spec.capabilities.streaming == req.streaming && a.spec.capabilities.pushNotifications == req.pushNotifications
            && a.spec.enabled && a.spec.healthCheck.None? && a.spec.authentication.None? && a.spec.provider.None?
            && |a.spec.skills| == |req.skills|
            && (forall i :: 0 <= i < |req.skills| ==>
                  && a.spec.skills[i].id == req.skills[i].id && a.spec.skills[i].name == req.skills[i].name
                  && a.spec.skills[i].description == req.skills[i].description
                  && a.spec.skills[i].tags == [] && a.spec.skills[i].examples == [])
            && a.status.phase == NoPhase && a.status.conditions == [] && a.status.registeredAt.None?
            && !a.finalizer && !a.deleting
  {
    RegistrationRefusedIff(c, call);
  }

  /**
   A URL is registered once: any later registration of it, under any name and on any store that still
   has that agent as it was stored, is refused, as long as the agents can be listed.  The refusal
   names the first agent when nobody else has the URL, as when it was free and nothing came between.
   */
  lemma SecondRegistrationRefused(c: Cluster, first: RegisterCall, later: Cluster, second: RegisterCall)
    requires Lists(first.order, c) && RegisterEffect(c, first).reply.Registered?
    requires Lists(second.order, later) && second.req.url == first.req.url && second.req.name != "" && !second.listFails
    requires var r := RegisterEffect(c, first);
             r.reply.key in later.agents && later.agents[r.reply.key].agent.spec == r.cluster.agents[r.reply.key].agent.spec
    ensures var key := RegisterEffect(c, first).reply.key;
            var r := RegisterEffect(later, second);
            && r.reply.UrlAlreadyHeld? && r.cluster == later
            && ((forall k :: k in later.agents && k != key ==> later.agents[k].agent.spec.url != first.req.url) ==> r.reply.holder == key)
            && (later == RegisterEffect(c, first).cluster ==>
                  (forall k :: k in c.agents ==> c.agents[k].agent.spec.url != first.req.url) ==> r.reply.holder == key)
  {
    RegistrationStores(c, first);
    RegistrationRefusedIff(c, first);
    RegistrationRefusedIff(later, second);
    var key := RegisterEffect(c, first).reply.key;
    var holder := RegisterEffect(later, second).reply.holder;
    if later == RegisterEffect(c, first).cluster && holder != key {
      assert holder in c.agents && later.agents[holder] == c.agents[holder];
    }
  }

  /** One registration that nothing interrupts; the metric counts the successes. */
  method RegisterAgent(client: ApiClient, metrics: Metrics, call: RegisterCall) returns (reply: Reply)
    requires Lists(call.order, client.cluster)
    modifies client`cluster, metrics`registrations
    ensures RegisterResult(reply, client.cluster) == RegisterEffect(old(client.cluster), call)
    ensures metrics.registrations == old(metrics.registrations) + (if reply.Registered? then 1 else 0)
  {
    var req := call.req;
    if req.name == "" || req.url == "" {
      return BadRequest;
    }
    var namespace := req.namespace;
    if namespace == "" {
      namespace := "outbound-agent";
    }
    if !call.listFails {
      for i := 0 to |call.order|
        invariant Holder(client.cluster, call.order, req.url) == Holder(client.cluster, call.order[i..], req.url)
      {
        assert call.order[i..][0] == call.order[i] && call.order[i..][1..] == call.order[i + 1..];
        if client.cluster.agents[call.order[i]].agent.spec.url == req.url {
          return UrlAlreadyHeld(call.order[i]);
        }
      }
    }
    var skills: seq<Skill> := [];
    for i := 0 to |req.skills|
      invariant skills == RequestedSpec(req).skills[..i]
    {
      var s := req.skills[i];
      skills := skills + [Skill(s.id, s.name, s.description, [], [])];
    }
    assert skills == RequestedSpec(req).skills;
    var key := Key(namespace, call.k8sName);
    var spec := Spec(req.name, req.description, req.version, req.url,
                     Capabilities(req.streaming, req.pushNotifications), skills,
                     None, [], [], None, req.protocolVersion, req.tags, None, true);
    if call.createFails || key in client.cluster.agents {
      return CreateFailed;
    }
    client.cluster := Create(client.cluster, key, spec);
    metrics.registrations := metrics.registrations + 1;
    return Registered(key);
  }
}
