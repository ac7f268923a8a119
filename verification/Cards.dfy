/** Matching a spec against a fetched card, and building a card from a spec. */
module Cards {
  import opened Types

  predicate HasSkillId(skills: seq<CardSkill>, id: string) {
    exists i :: 0 <= i < |skills| && skills[i].id == id
  }

  /** The identity fields the spec sets, and all its skill ids, are the card's. */
  ghost predicate Agrees(spec: Spec, card: Card) {
    && (spec.name != "" ==> spec.name == card.name)
    && (spec.description != "" ==> spec.description == card.description)
    && (spec.version != "" ==> spec.version == card.version)
    && forall i :: 0 <= i < |spec.skills| ==> HasSkillId(card.skills, spec.skills[i].id)
  }

  function MissingFrom(skills: seq<Skill>, card: Card): Option<Mismatch> {
    if skills == [] then None
    else if HasSkillId(card.skills, skills[0].id) then MissingFrom(skills[1..], card)
    else Some(MissingSkill(skills[0].id))
  }

  function CardMatch(spec: Spec, card: Card): Option<Mismatch> {
    if spec.name != "" && spec.name != card.name then Some(NameMismatch(spec.name, card.name))
    else if spec.description != "" && spec.description != card.description then Some(DescriptionMismatch)
    else if spec.version != "" && spec.version != card.version then Some(VersionMismatch(spec.version, card.version))
    else MissingFrom(spec.skills, card)
  }

  lemma {:induction false} MissingIsFirst(skills: seq<Skill>, card: Card)
    ensures match MissingFrom(skills, card)
            case None => forall i :: 0 <= i < |skills| ==> HasSkillId(card.skills, skills[i].id)
            case Some(m) =>
              exists i :: 0 <= i < |skills| && m == MissingSkill(skills[i].id) && !HasSkillId(card.skills, skills[i].id)
                          && forall j :: 0 <= j < i ==> HasSkillId(card.skills, skills[j].id)
  {
    if skills != [] {
      MissingIsFirst(skills[1..], card);
      assert forall i :: 0 < i < |skills| ==> skills[i] == skills[1..][i - 1];
      if HasSkillId(card.skills, skills[0].id) && MissingFrom(skills, card).Some? {
        var m := MissingFrom(skills, card).value;
        var i :| 0 <= i < |skills[1..]| && m == MissingSkill(skills[1..][i].id) && !HasSkillId(card.skills, skills[1..][i].id)
                 && forall j :: 0 <= j < i ==> HasSkillId(card.skills, skills[1..][j].id);
        assert m == MissingSkill(skills[i + 1].id);
        assert forall j :: 0 <= j < i + 1 ==> HasSkillId(card.skills, skills[j].id);
      }
    }
  }

  /** The check accepts exactly the agreeing cards, and a skill report names the first missing one. */
  lemma CardMatchIsAgreement(spec: Spec, card: Card)
    ensures CardMatch(spec, card).None? <==> Agrees(spec, card)
    ensures forall id :: CardMatch(spec, card) == Some(MissingSkill(id)) ==>
              exists i :: 0 <= i < |spec.skills| && spec.skills[i].id == id && !HasSkillId(card.skills, id)
                          && forall j :: 0 <= j < i ==> HasSkillId(card.skills, spec.skills[j].id)
  {
    MissingIsFirst(spec.skills, card);
  }

  /** A field report is about the first field that disagrees, with both values where there are two to show. */
  lemma FieldReports(spec: Spec, card: Card)
    ensures var name := spec.name != "" && spec.name != card.name;
            var description := spec.description != "" && spec.description != card.description;
            var version := spec.version != "" && spec.version != card.version;
            var report := CardMatch(spec, card);
            && (name <==> report == Some(NameMismatch(spec.name, card.name)))
            && (!name && description <==> report == Some(DescriptionMismatch))
            && (!name && !description && version <==> report == Some(VersionMismatch(spec.version, card.version)))
            && (report.Some? && !report.value.MissingSkill? ==> name || description || version)
  {
    MissingIsFirst(spec.skills, card);
  }

  function SkillCard(s: Skill): CardSkill {
    CardSkill(s.id, s.name, s.description, s.tags, s.examples)
  }

  function CardOf(spec: Spec): Card {
    Card(spec.name, spec.description, spec.version, [spec.url], spec.capabilities,
         seq(|spec.skills|, i requires 0 <= i < |spec.skills| => SkillCard(spec.skills[i])),
         spec.inputModes, spec.outputModes)
  }

  /** The card the registry publishes for an agent always passes the registry's own check. */
  lemma PublishedCardMatches(spec: Spec)
    ensures CardMatch(spec, CardOf(spec)).None?
  {
    forall i | 0 <= i < |spec.skills| ensures HasSkillId(CardOf(spec).skills, spec.skills[i].id) {
      assert CardOf(spec).skills[i].id == spec.skills[i].id;
    }
    CardMatchIsAgreement(spec, CardOf(spec));
  }

  method CheckCardMatch(spec: Spec, card: Card) returns (mismatch: Option<Mismatch>)
    ensures mismatch == CardMatch(spec, card)
    ensures mismatch.None? <==> Agrees(spec, card)
  {
    CardMatchIsAgreement(spec, card);
    if spec.name != "" && spec.name != card.name {
      return Some(NameMismatch(spec.name, card.name));
    }
    if spec.description != "" && spec.description != card.description {
      return Some(DescriptionMismatch);
    }
    if spec.version != "" && spec.version != card.version {
      return Some(VersionMismatch(spec.version, card.version));
    }
    var i := 0;
    while i < |spec.skills|
      invariant 0 <= i <= |spec.skills|
      invariant MissingFrom(spec.skills, card) == MissingFrom(spec.skills[i..], card)
    {
      var found := false;
      var j := 0;
      while j < |card.skills| && !found
        invariant 0 <= j <= |card.skills|
        invariant found ==> HasSkillId(card.skills, spec.skills[i].id)
        invariant !found ==> forall k :: 0 <= k < j ==> card.skills[k].id != spec.skills[i].id
      {
        if spec.skills[i].id == card.skills[j].id {
          found := true;
        }
        j := j + 1;
      }
      assert spec.skills[i..][1..] == spec.skills[i + 1..];
      if !found {
        return Some(MissingSkill(spec.skills[i].id));
      }
      i := i + 1;
    }
    return None;
  }

  method AgentToCard(spec: Spec) returns (card: Card)
    ensures card == CardOf(spec)
    ensures card.name == spec.name && card.description == spec.description && card.version == spec.version
    ensures card.interfaces == [spec.url] && card.capabilities == spec.capabilities
    ensures card.inputModes == spec.inputModes && card.outputModes == spec.outputModes
    ensures |card.skills| == |spec.skills| && forall i :: 0 <= i < |spec.skills| ==>
              && card.skills[i].id == spec.skills[i].id && card.skills[i].name == spec.skills[i].name
              && card.skills[i].description == spec.skills[i].description
              && card.skills[i].tags == spec.skills[i].tags && card.skills[i].examples == spec.skills[i].examples
  {
    var skills: seq<CardSkill> := [];
    for i := 0 to |spec.skills|
      invariant skills == CardOf(spec).skills[..i]
    {
      var s := spec.skills[i];
      skills := skills + [CardSkill(s.id, s.name, s.description, s.tags, s.examples)];
    }
    assert skills == CardOf(spec).skills;
    card := Card(spec.name, spec.description, spec.version, [spec.url], spec.capabilities,
                 skills, spec.inputModes, spec.outputModes);
  }
}
