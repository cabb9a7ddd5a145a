/** Which skills a task runs: the selection made from an analysis reply and its normal form. */
module SkillSelection {
  import opened Basics
  import opened PyText
  import opened Requirements

  function RewriteChinaSkill(id: string, slots: Dict): string {
    if id != ROUTE_SKILL || Truthy(Get(slots, "luggage_special")) then id
    else
      var tokens := SplitCities(Get(slots, "city_sequence"));
      var endpoints := Truthy(Get(slots, "from_city")) && Truthy(Get(slots, "to_city"));
      if tokens == [] then (if endpoints then INTERCITY_SKILL else id)
      else
        var roundTrip := |tokens| >= 3 && tokens[0] == tokens[|tokens| - 1];
        if |set t | t in tokens| <= 2 && (roundTrip || endpoints) then INTERCITY_SKILL else id
  }

  /** The skill one entry of `selectedSkills` stands for, if any. */
  function SkillOf(cfg: AgentConfig, entry: Value, slots: Dict): Option<string> {
    if !entry.Str? then None
    else
      match Canonicalize(cfg, entry.s)
      case None => None
      case Some(id) => Some(if cfg.agent == CHINA_TRANSPORT then RewriteChinaSkill(id, slots) else id)
  }

  /** The skills of a list of entries, each kept at its first occurrence. */
  function SelectSkills(cfg: AgentConfig, entries: seq<Value>, slots: Dict): seq<string> {
    if entries == [] then []
    else
      var before := SelectSkills(cfg, entries[..|entries| - 1], slots);
      match SkillOf(cfg, entries[|entries| - 1], slots)
      case None => before
      case Some(id) => if id in before then before else before + [id]
  }

  lemma SelectNext(cfg: AgentConfig, entries: seq<Value>, slots: Dict, i: nat)
    requires i < |entries|
    ensures var before, skill := SelectSkills(cfg, entries[..i], slots), SkillOf(cfg, entries[i], slots);
      SelectSkills(cfg, entries[..i + 1], slots)
      == if skill.Some? && skill.value !in before then before + [skill.value] else before
  {
    assert entries[..i + 1][..i] == entries[..i];
  }

  method NormalizeSelectedSkills(cfg: AgentConfig, selected: Value, slots: Dict) returns (skills: seq<string>)
    ensures skills == Selected(cfg, selected, slots)
  {
    skills := [];
    if !selected.List? {
      return;
    }
    for i := 0 to |selected.items|
      invariant skills == SelectSkills(cfg, selected.items[..i], slots)
    {
      SelectNext(cfg, selected.items, slots, i);
      var skill := SkillOf(cfg, selected.items[i], slots);
      if skill.Some? && skill.value !in skills {
        skills := skills + [skill.value];
      }
    }
    assert selected.items[..|selected.items|] == selected.items;
  }

  predicate StandsFor(cfg: AgentConfig, entries: seq<Value>, slots: Dict, id: string) {
    exists i :: 0 <= i < |entries| && SkillOf(cfg, entries[i], slots) == Some(id)
  }

  lemma StandsForSnoc(cfg: AgentConfig, entries: seq<Value>, slots: Dict, id: string)
    requires entries != []
    ensures StandsFor(cfg, entries, slots, id)
       <==> StandsFor(cfg, entries[..|entries| - 1], slots, id)
            || SkillOf(cfg, entries[|entries| - 1], slots) == Some(id)
  {
    var front, last := entries[..|entries| - 1], entries[|entries| - 1];
    assert entries == front + [last];
    assert forall i :: 0 <= i < |front| ==> entries[i] == front[i];
  }

  /** The selection is exactly the set of skills its entries stand for, without repetition. */
  lemma {:induction false} SelectionMeaning(cfg: AgentConfig, entries: seq<Value>, slots: Dict)
    ensures Distinct(SelectSkills(cfg, entries, slots))
    ensures forall id :: id in SelectSkills(cfg, entries, slots) <==> StandsFor(cfg, entries, slots, id)
  {
    if entries != [] {
      SelectionMeaning(cfg, entries[..|entries| - 1], slots);
      forall id ensures id in SelectSkills(cfg, entries, slots) <==> StandsFor(cfg, entries, slots, id) {
        StandsForSnoc(cfg, entries, slots, id);
      }
    }
  }

  predicate FirstAt(cfg: AgentConfig, entries: seq<Value>, slots: Dict, a: string, b: string, p: nat) {
    && p < |entries| && SkillOf(cfg, entries[p], slots) == Some(a)
    && forall q :: 0 <= q <= p ==> SkillOf(cfg, entries[q], slots) != Some(b)
  }

  /** Some entry stands for skill `a`, and none up to it for `b`. */
  ghost predicate Sooner(cfg: AgentConfig, entries: seq<Value>, slots: Dict, a: string, b: string) {
    exists p: nat :: FirstAt(cfg, entries, slots, a, b, p)
  }

  lemma SoonerStays(cfg: AgentConfig, front: seq<Value>, last: Value, slots: Dict, a: string, b: string)
    requires Sooner(cfg, front, slots, a, b)
    ensures Sooner(cfg, front + [last], slots, a, b)
  {
    var p: nat :| FirstAt(cfg, front, slots, a, b, p);
    assert FirstAt(cfg, front + [last], slots, a, b, p);
  }

  lemma SoonerThanNew(cfg: AgentConfig, front: seq<Value>, slots: Dict, a: string, b: string)
    requires StandsFor(cfg, front, slots, a) && !StandsFor(cfg, front, slots, b)
    ensures Sooner(cfg, front, slots, a, b)
  {
    var p :| 0 <= p < |front| && SkillOf(cfg, front[p], slots) == Some(a);
    assert FirstAt(cfg, front, slots, a, b, p);
  }

  ghost predicate InOrder(cfg: AgentConfig, entries: seq<Value>, slots: Dict, skills: seq<string>) {
    forall i, j :: 0 <= i < j < |skills| ==> Sooner(cfg, entries, slots, skills[i], skills[j])
  }

  lemma OneMoreInOrder(cfg: AgentConfig, front: seq<Value>, last: Value, slots: Dict, before: seq<string>, id: string)
    requires InOrder(cfg, front, slots, before)
    requires forall a :: a in before ==> StandsFor(cfg, front, slots, a)
    ensures InOrder(cfg, front + [last], slots, before)
    ensures !StandsFor(cfg, front, slots, id) ==> InOrder(cfg, front + [last], slots, before + [id])
  {
    forall i, j | 0 <= i < j < |before| ensures Sooner(cfg, front + [last], slots, before[i], before[j]) {
      SoonerStays(cfg, front, last, slots, before[i], before[j]);
    }
    if !StandsFor(cfg, front, slots, id) {
      forall i | 0 <= i < |before| ensures Sooner(cfg, front + [last], slots, before[i], id) {
        SoonerThanNew(cfg, front, slots, before[i], id);
        SoonerStays(cfg, front, last, slots, before[i], id);
      }
    }
  }

  /** The selected skills are in the order of the entries that first stand for them. */
  lemma {:induction false} SelectionKeepsOrder(cfg: AgentConfig, entries: seq<Value>, slots: Dict)
    ensures InOrder(cfg, entries, slots, SelectSkills(cfg, entries, slots))
  {
    if entries != [] {
      var front, last := entries[..|entries| - 1], entries[|entries| - 1];
      assert entries == front + [last];
      SelectionKeepsOrder(cfg, front, slots);
      SelectionMeaning(cfg, front, slots);
      var skill := SkillOf(cfg, last, slots);
      OneMoreInOrder(cfg, front, last, slots, SelectSkills(cfg, front, slots), if skill.Some? then skill.value else "");
    }
  }

  function Selected(cfg: AgentConfig, selected: Value, slots: Dict): seq<string> {
    if selected.List? then SelectSkills(cfg, selected.items, slots) else []
  }

  function Values(names: seq<string>): (r: seq<Value>)
    ensures |r| == |names| && forall i :: 0 <= i < |names| ==> r[i] == Str(names[i])
  {
    seq(|names|, i requires 0 <= i < |names| => Str(names[i]))
  }

  function GlobalSlots(cfg: AgentConfig, r: Dict): Dict {
    NormalizeSlots(cfg, if Get(r, "global").Obj? then Get(r, "global").fields else map[])
  }

  function SkillsOf(cfg: AgentConfig, r: Dict): seq<string> {
    Selected(cfg, Get(r, "selectedSkills"), GlobalSlots(cfg, r))
  }

  function Normalize(cfg: AgentConfig, r: Dict): Dict {
    r["global" := Obj(GlobalSlots(cfg, r))]["selectedSkills" := List(Values(SkillsOf(cfg, r)))]
  }

  method NormalizeRequirements(cfg: AgentConfig, r: Dict) returns (normalized: Dict)
    ensures normalized == Normalize(cfg, r)
  {
    var slots := if Get(r, "global").Obj? then Get(r, "global").fields else map[];
    if cfg.agent == CHINA_TRANSPORT {
      slots := NormalizeTransportSlots(cfg, slots);
    }
    normalized := r["global" := Obj(slots)];
    var skills := NormalizeSelectedSkills(cfg, Get(r, "selectedSkills"), slots);
    normalized := normalized["selectedSkills" := List(Values(skills))];
  }

  /** The route skill can be selected but its intercity replacement is not configured. */
  predicate RewritesAway(cfg: AgentConfig) {
    cfg.agent == CHINA_TRANSPORT && ROUTE_SKILL in cfg.skillIds && INTERCITY_SKILL !in cfg.skillIds
  }

  /** The ends of the two named skill ids. */
  lemma SkillIdFacts()
    ensures Strip(INTERCITY_SKILL) == INTERCITY_SKILL != "" && Strip(ROUTE_SKILL) == ROUTE_SKILL != ""
    ensures INTERCITY_SKILL[|INTERCITY_SKILL| - 1] == 'g' && ROUTE_SKILL[|ROUTE_SKILL| - 1] == 'n'
    ensures INTERCITY_SKILL[0] == 'c'
  {
    assert INTERCITY_SKILL[0] == ROUTE_SKILL[0] == 'c';
    TrimmedIsFixed(IsSpace, INTERCITY_SKILL);
    TrimmedIsFixed(IsSpace, ROUTE_SKILL);
  }

  lemma ConfiguredIsCanonical(cfg: AgentConfig, id: string)
    requires id in cfg.skillIds && Strip(id) == id != ""
    ensures Canonicalize(cfg, id) == Some(id)
  {
  }

  lemma RewriteMeaning(id: string, slots: Dict)
    ensures var r := RewriteChinaSkill(id, slots);
      && RewriteChinaSkill(r, slots) == r
      && (r != id ==> id == ROUTE_SKILL && r == INTERCITY_SKILL)
  {
  }

  /** The canonical id of an entry, before the route rewrite. */
  lemma RewrittenIsConfigured(cfg: AgentConfig, id: string, slots: Dict)
    requires cfg.agent == CHINA_TRANSPORT && !RewritesAway(cfg) && Canonicalize(cfg, id) == Some(id)
    ensures var r := RewriteChinaSkill(id, slots); Canonicalize(cfg, r) == Some(r)
  {
    var r := RewriteChinaSkill(id, slots);
    RewriteMeaning(id, slots);
    if r != id {
      SkillIdFacts();
      ConfiguredIsCanonical(cfg, r);
    }
  }

  lemma SkillStable(cfg: AgentConfig, entry: Value, slots: Dict)
    requires !Shadowed(cfg) && !RewritesAway(cfg)
    ensures var skill := SkillOf(cfg, entry, slots);
      skill.Some? ==> SkillOf(cfg, Str(skill.value), slots) == skill
  {
    if SkillOf(cfg, entry, slots).Some? {
      CanonicalStable(cfg, entry.s);
      var id := Canonicalize(cfg, entry.s).value;
      if cfg.agent == CHINA_TRANSPORT {
        RewriteMeaning(id, slots);
        RewrittenIsConfigured(cfg, id, slots);
      }
    }
  }

  lemma SelectSnoc(cfg: AgentConfig, front: seq<Value>, last: Value, slots: Dict)
    ensures var before, skill := SelectSkills(cfg, front, slots), SkillOf(cfg, last, slots);
      SelectSkills(cfg, front + [last], slots)
      == if skill.Some? && skill.value !in before then before + [skill.value] else before
  {
    assert (front + [last])[..|front|] == front;
  }

  predicate StandsForItself(cfg: AgentConfig, name: string, slots: Dict) {
    SkillOf(cfg, Str(name), slots) == Some(name)
  }

  lemma {:induction false} SelectionFixed(cfg: AgentConfig, names: seq<string>, slots: Dict)
    requires Distinct(names)
    requires forall name {:trigger StandsForItself(cfg, name, slots)} :: name in names ==> StandsForItself(cfg, name, slots)
    ensures SelectSkills(cfg, Values(names), slots) == names
  {
    if names != [] {
      var front, last := names[..|names| - 1], names[|names| - 1];
      assert names == front + [last];
      SelectionFixed(cfg, front, slots);
      assert Values(names) == Values(front) + [Str(last)];
      assert StandsForItself(cfg, last, slots) && last !in front;
      SelectSnoc(cfg, Values(front), Str(last), slots);
    }
  }

  lemma NormalizeTwice(cfg: AgentConfig, r: Dict)
    ensures GlobalSlots(cfg, Normalize(cfg, r)) == GlobalSlots(cfg, r)
    ensures SkillsOf(cfg, Normalize(cfg, r)) == SelectSkills(cfg, Values(SkillsOf(cfg, r)), GlobalSlots(cfg, r))
    ensures Normalize(cfg, Normalize(cfg, r)) == Normalize(cfg, r)
      <==> SkillsOf(cfg, Normalize(cfg, r)) == SkillsOf(cfg, r)
  {
    NormalizeSlotsIdempotent(cfg, if Get(r, "global").Obj? then Get(r, "global").fields else map[]);
    var once := Normalize(cfg, r);
    var twice := Normalize(cfg, once);
    var v1, v2 := Values(SkillsOf(cfg, r)), Values(SkillsOf(cfg, once));
    assert once["selectedSkills"] == List(v1) && twice["selectedSkills"] == List(v2);
    if v1 == v2 {
      forall i | 0 <= i < |v1| ensures SkillsOf(cfg, r)[i] == SkillsOf(cfg, once)[i] {
        assert v1[i] == v2[i];
      }
      assert SkillsOf(cfg, r) == SkillsOf(cfg, once);
      assert twice == once;
    }
  }

  lemma NormalizeIdempotent(cfg: AgentConfig, r: Dict)
    requires !Shadowed(cfg) && !RewritesAway(cfg)
    ensures Normalize(cfg, Normalize(cfg, r)) == Normalize(cfg, r)
  {
    NormalizeTwice(cfg, r);
    var slots, names := GlobalSlots(cfg, r), SkillsOf(cfg, r);
    var selected := Get(r, "selectedSkills");
    if selected.List? {
      SelectionMeaning(cfg, selected.items, slots);
      forall name | name in names ensures StandsForItself(cfg, name, slots) {
        var i :| 0 <= i < |selected.items| && SkillOf(cfg, selected.items[i], slots) == Some(name);
        SkillStable(cfg, selected.items[i], slots);
      }
    }
    SelectionFixed(cfg, names, slots);
  }

  lemma SelectOne(cfg: AgentConfig, entry: Value, slots: Dict)
    ensures SelectSkills(cfg, [entry], slots)
         == if SkillOf(cfg, entry, slots).Some? then [SkillOf(cfg, entry, slots).value] else []
  {
    assert [entry][..0] == [];
    assert SelectSkills(cfg, [], slots) == [];
  }

  /** A one-entry selection whose skill does not stand for itself is not in normal form after one pass. */
  lemma UnstableSelection(cfg: AgentConfig, entry: Value, slots: Dict) returns (r: Dict)
    ensures var skill := SkillOf(cfg, entry, slots);
      NormalizeSlots(cfg, slots) == slots && skill.Some? && SkillOf(cfg, Str(skill.value), slots) != skill ==>
        Normalize(cfg, Normalize(cfg, r)) != Normalize(cfg, r)
  {
    r := map["global" := Obj(slots), "selectedSkills" := List([entry])];
    if NormalizeSlots(cfg, slots) == slots && SkillOf(cfg, entry, slots).Some? {
      var name := SkillOf(cfg, entry, slots).value;
      SelectOne(cfg, entry, slots);
      assert GlobalSlots(cfg, r) == slots && SkillsOf(cfg, r) == [name];
      NormalizeTwice(cfg, r);
      assert Values([name]) == [Str(name)];
      SelectOne(cfg, Str(name), slots);
    }
  }

  /** An id that is not configured is resolved to one with the same last character. */
  lemma CanonicalKeepsLastCharacter(cfg: AgentConfig, id: string)
    requires Strip(id) == id != "" && id[|id| - 1] != '.' && id !in cfg.skillIds && Canonicalize(cfg, id).Some?
    ensures var c := Canonicalize(cfg, id).value; c != "" && c[|c| - 1] == id[|id| - 1]
  {
    var suffix, c := AfterLastDot(id), Canonicalize(cfg, id).value;
    assert suffix[|suffix| - 1] == id[|id| - 1];
    if c != Preferred(cfg, suffix) {
      assert c in WithSuffix(cfg.skillIds, suffix);
      assert EndsWith(c, Dotted(suffix));
    }
  }

  lemma IntercityIsNotItsOwnForm(cfg: AgentConfig, slots: Dict)
    requires RewritesAway(cfg)
    ensures SkillOf(cfg, Str(INTERCITY_SKILL), slots) != Some(INTERCITY_SKILL)
  {
    SkillIdFacts();
    if Canonicalize(cfg, INTERCITY_SKILL).Some? {
      CanonicalKeepsLastCharacter(cfg, INTERCITY_SKILL);
      RewriteMeaning(Canonicalize(cfg, INTERCITY_SKILL).value, slots);
    }
  }

  lemma RewritesAwayIsUnstable(cfg: AgentConfig) returns (r: Dict)
    requires RewritesAway(cfg)
    ensures Normalize(cfg, Normalize(cfg, r)) != Normalize(cfg, r)
  {
    var slots := map["from_city" := Str("A"), "to_city" := Str("B")];
    assert SplitCities(Get(slots, "city_sequence")) == [];
    SkillIdFacts();
    ConfiguredIsCanonical(cfg, ROUTE_SKILL);
    assert SkillOf(cfg, Str(ROUTE_SKILL), slots) == Some(INTERCITY_SKILL);
    IntercityIsNotItsOwnForm(cfg, slots);
    r := UnstableSelection(cfg, Str(ROUTE_SKILL), slots);
  }

  /** Normalisation is idempotent on every requirement dictionary exactly when no configured id shadows
      another and the rewrite of the route skill has a configured target. */
  lemma NormalizeIdempotentIff(cfg: AgentConfig)
    ensures (forall r: Dict :: Normalize(cfg, Normalize(cfg, r)) == Normalize(cfg, r))
       <==> !Shadowed(cfg) && !RewritesAway(cfg)
  {
    if RewritesAway(cfg) {
      var r := RewritesAwayIsUnstable(cfg);
      assert Normalize(cfg, Normalize(cfg, r)) != Normalize(cfg, r);
    } else if Shadowed(cfg) {
      if cfg.agent == CHINA_TRANSPORT {
        NoShadowWhenAgentNameTrimmed(cfg);
      } else {
        var id := ShadowedIsUnstable(cfg);
        var r := UnstableSelection(cfg, Str(id), map[]);
        assert Normalize(cfg, Normalize(cfg, r)) != Normalize(cfg, r);
      }
    } else {
      forall r: Dict ensures Normalize(cfg, Normalize(cfg, r)) == Normalize(cfg, r) {
        NormalizeIdempotent(cfg, r);
      }
    }
  }
}
