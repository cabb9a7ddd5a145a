/** The skills production runs. It normalises the requirements once more, and so may run others than those that
    analysis validated. */
module ProductionSkills {
  import opened Basics
  import opened PyText
  import opened Requirements
  import opened SkillSelection
  import opened Analysis

  /** Every skill held has all the slots it needs. */
  predicate Equipped(cfg: AgentConfig, held: Dict) {
    forall id :: id in HeldSkills(held) ==> MissingForSkill(cfg, id, HeldSlots(held)) == []
  }

  // ---------------------------------------------------------------- conditions on the configuration

  /** The least sets of fields that give a skill all its slots: what it requires, with one of its alternatives. */
  function Sufficient(cfg: AgentConfig, id: string): seq<seq<string>> {
    if id !in cfg.meta then [[]]
    else
      var meta := cfg.meta[id];
      if meta.anyOf == [] then [meta.required]
      else seq(|meta.anyOf|, i requires 0 <= i < |meta.anyOf| => meta.required + meta.anyOf[i])
  }

  predicate Within(few: seq<string>, many: seq<string>) {
    forall f :: f in few ==> f in many
  }

  predicate Enough(cfg: AgentConfig, id: string, fields: seq<string>) {
    exists few :: few in Sufficient(cfg, id) && Within(few, fields)
  }

  /** Some least set for skill `id`, without the field `barred`, is together with `given` not enough for `other`. */
  predicate Outgrows(cfg: AgentConfig, id: string, other: string, given: seq<string>, barred: Option<string>) {
    exists few :: few in Sufficient(cfg, id) && (barred.Some? ==> barred.value !in few) && !Enough(cfg, other, few + given)
  }

  const ENDPOINTS := ["from_city", "to_city"]
  const LUGGAGE := "luggage_special"

  /** Production can run a skill that lacks a slot: one that a shadowing id or the unconfigured intercity skill
      is resolved to the second time, and that needs more. */
  predicate Starves(cfg: AgentConfig) {
    && cfg.multiSkill && cfg.hasSkills
    && (|| (exists id :: id in cfg.skillIds && ShadowedBy(cfg, id, AfterLastDot(id)) && Outgrows(cfg, id, Strip(id), [], None))
        || (RewritesAway(cfg) && Canonicalize(cfg, INTERCITY_SKILL).Some?
            && Outgrows(cfg, INTERCITY_SKILL, Canonicalize(cfg, INTERCITY_SKILL).value, ENDPOINTS, Some(LUGGAGE))))
  }

  /** Production can drop every skill that was selected: the unconfigured intercity skill is resolved to none. */
  predicate Forgets(cfg: AgentConfig) {
    && cfg.multiSkill && cfg.hasSkills && RewritesAway(cfg) && Canonicalize(cfg, INTERCITY_SKILL).None?
    && exists few :: few in Sufficient(cfg, INTERCITY_SKILL) && LUGGAGE !in few
  }

  // ---------------------------------------------------------------- fields and slots

  lemma SufficientMeansSatisfied(cfg: AgentConfig, id: string, slots: Dict)
    requires id in cfg.meta
    ensures Satisfied(cfg.meta[id], slots) <==> exists few :: few in Sufficient(cfg, id) && AllFilled(slots, few)
  {
    var meta, lists := cfg.meta[id], Sufficient(cfg, id);
    if meta.anyOf != [] {
      if few :| few in lists && AllFilled(slots, few) {
        var i :| 0 <= i < |lists| && lists[i] == few;
        assert AllFilled(slots, meta.required + meta.anyOf[i]);
        assert meta.anyOf[i] in meta.anyOf;
        assert AllFilled(slots, meta.required) && AllFilled(slots, meta.anyOf[i]);
      }
      if Satisfied(meta, slots) {
        var g :| g in meta.anyOf && AllFilled(slots, g);
        var i :| 0 <= i < |meta.anyOf| && meta.anyOf[i] == g;
        assert lists[i] in lists && AllFilled(slots, lists[i]);
      }
    }
  }

  /** A skill has its slots exactly when one of its least sets is filled. */
  lemma HasSlotsIff(cfg: AgentConfig, id: string, slots: Dict)
    requires cfg.hasSkills
    ensures MissingForSkill(cfg, id, slots) == [] <==> exists few :: few in Sufficient(cfg, id) && AllFilled(slots, few)
  {
    if id in cfg.meta {
      NothingMissingIffSatisfied(cfg.meta[id], slots);
      SufficientMeansSatisfied(cfg, id, slots);
    } else {
      assert [] in Sufficient(cfg, id) && AllFilled(slots, []);
    }
  }

  /** Slots in which exactly the given fields are filled. */
  function Only(fields: seq<string>): (slots: Dict)
    ensures forall f :: Filled(slots, f) <==> f in fields
    ensures forall f :: !Get(slots, f).Str?
  {
    map f | f in fields :: Bool(true)
  }

  lemma OnlyIsNormal(cfg: AgentConfig, fields: seq<string>)
    ensures NormalizeSlots(cfg, Only(fields)) == Only(fields) && SplitCities(Get(Only(fields), "city_sequence")) == []
  {
  }

  lemma EnoughIffHasSlots(cfg: AgentConfig, id: string, fields: seq<string>)
    requires cfg.hasSkills
    ensures Enough(cfg, id, fields) <==> MissingForSkill(cfg, id, Only(fields)) == []
  {
    HasSlotsIff(cfg, id, Only(fields));
    forall few ensures Within(few, fields) <==> AllFilled(Only(fields), few) { }
  }

  /** Slots that are enough for one skill and not for the other show that it needs more. */
  lemma OutgrowsBySlots(cfg: AgentConfig, id: string, other: string, given: seq<string>, barred: Option<string>, slots: Dict)
    requires cfg.hasSkills && MissingForSkill(cfg, id, slots) == [] && MissingForSkill(cfg, other, slots) != []
    requires AllFilled(slots, given) && (barred.Some? ==> !Filled(slots, barred.value))
    ensures Outgrows(cfg, id, other, given, barred)
  {
    HasSlotsIff(cfg, id, slots);
    HasSlotsIff(cfg, other, slots);
    var few :| few in Sufficient(cfg, id) && AllFilled(slots, few);
    if least :| least in Sufficient(cfg, other) && Within(least, few + given) {
      assert AllFilled(slots, least);
    }
  }

  // ---------------------------------------------------------------- reading a skill id back

  /** The slots of a trip that the intercity skill is for, as far as the fields tell. */
  predicate Interurban(slots: Dict) {
    AllFilled(slots, ENDPOINTS) && !Filled(slots, LUGGAGE)
  }

  /** Normal slots with a city sequence have an origin, and with two cities or more a destination. */
  lemma NormalEndpoints(cfg: AgentConfig, slots: Dict)
    requires cfg.agent == CHINA_TRANSPORT
    ensures var tokens := SplitCities(Get(slots, "city_sequence"));
      NormalizeSlots(cfg, slots) == slots ==>
        && (tokens != [] ==> Filled(slots, "from_city"))
        && (|tokens| >= 2 ==> Filled(slots, "to_city"))
  {
    var tokens := SplitCities(Get(slots, "city_sequence"));
    if NormalizeSlots(cfg, slots) == slots && tokens != [] {
      var first := WithOrigin(slots, tokens);
      WithOriginMeaning(slots, tokens);
      WithDestinationMeaning(cfg, first, tokens);
      assert Get(slots, "from_city") == Get(first, "from_city");
    }
  }

  lemma RewrittenIsInterurban(cfg: AgentConfig, id: string, slots: Dict)
    requires cfg.agent == CHINA_TRANSPORT
    ensures NormalizeSlots(cfg, slots) == slots && RewriteChinaSkill(id, slots) != id ==> Interurban(slots)
  {
    if NormalizeSlots(cfg, slots) == slots && RewriteChinaSkill(id, slots) != id {
      NormalEndpoints(cfg, slots);
    }
  }

  predicate Among(tokens: seq<string>, a: string, b: string) {
    forall t :: t in tokens ==> t == a || t == b
  }

  /** All the cities are one or two. */
  ghost predicate AtMostTwo(tokens: seq<string>) {
    exists a, b :: Among(tokens, a, b)
  }

  lemma AtMostTwoIff(tokens: seq<string>)
    ensures |set t | t in tokens| <= 2 <==> AtMostTwo(tokens)
  {
    var cities := set t | t in tokens;
    if a, b :| Among(tokens, a, b) {
      assert cities <= {a, b};
      SmallerSet(cities, {a, b});
    }
    if |cities| <= 2 {
      PairOf(cities);
      var a, b :| cities <= {a, b};
      forall t | t in tokens ensures t == a || t == b { assert t in cities; }
      assert Among(tokens, a, b);
    }
  }

  lemma SmallerSet(x: set<string>, y: set<string>)
    requires x <= y
    ensures |x| <= |y|
  {
    assert y == x + (y - x);
  }

  lemma PairOf(x: set<string>)
    requires |x| <= 2
    ensures exists a, b :: x <= {a, b}
  {
    if x == {} {
      assert x <= {"", ""};
    } else {
      var a :| a in x;
      var rest := x - {a};
      if rest == {} {
        assert x <= {a, a};
      } else {
        var b :| b in rest;
        assert |rest - {b}| == 0;
        assert x <= {a, b};
      }
    }
  }

  /** On normal slots the route skill, and no other, is rewritten, exactly for a trip with both ends, without luggage
      and between at most two cities. */
  lemma RewrittenIff(cfg: AgentConfig, id: string, slots: Dict)
    requires cfg.agent == CHINA_TRANSPORT && NormalizeSlots(cfg, slots) == slots
    ensures RewriteChinaSkill(id, slots) ==
      if id == ROUTE_SKILL && Interurban(slots) && AtMostTwo(SplitCities(Get(slots, "city_sequence"))) then INTERCITY_SKILL
      else id
  {
    var tokens := SplitCities(Get(slots, "city_sequence"));
    AtMostTwoIff(tokens);
    if tokens == [] {
      assert Among(tokens, "", "");
    }
    if id == ROUTE_SKILL {
      RewrittenIsInterurban(cfg, id, slots);
      RouteRewritten(slots);
    }
  }

  /** On any slots it is, without luggage, for both ends or a round trip, and at most two cities. */
  lemma RewrittenAnywhereIff(slots: Dict)
    ensures var tokens := SplitCities(Get(slots, "city_sequence"));
      RewriteChinaSkill(ROUTE_SKILL, slots) == INTERCITY_SKILL <==>
        && !Filled(slots, LUGGAGE) && AtMostTwo(tokens)
        && (AllFilled(slots, ENDPOINTS) || (|tokens| >= 3 && tokens[0] == tokens[|tokens| - 1]))
  {
    var tokens := SplitCities(Get(slots, "city_sequence"));
    AtMostTwoIff(tokens);
    SkillIdFacts();
    assert ENDPOINTS[0] in ENDPOINTS && ENDPOINTS[1] in ENDPOINTS;
    if tokens == [] {
      assert Among(tokens, "", "");
    }
  }

  lemma RouteRewritten(slots: Dict)
    ensures Interurban(slots) ==>
      (RewriteChinaSkill(ROUTE_SKILL, slots) == INTERCITY_SKILL
       <==> |set t | t in SplitCities(Get(slots, "city_sequence"))| <= 2)
    ensures RewriteChinaSkill(ROUTE_SKILL, slots) in {ROUTE_SKILL, INTERCITY_SKILL} && ROUTE_SKILL != INTERCITY_SKILL
  {
    SkillIdFacts();
    assert ENDPOINTS[0] in ENDPOINTS && ENDPOINTS[1] in ENDPOINTS;
    if SplitCities(Get(slots, "city_sequence")) == [] {
      assert (set t | t in SplitCities(Get(slots, "city_sequence"))) == {};
    }
  }

  lemma OtherSkillsAreKept(id: string, slots: Dict)
    requires id != "" && id[|id| - 1] != 'n'
    ensures RewriteChinaSkill(id, slots) == id && id != ROUTE_SKILL
  {
    SkillIdFacts();
  }

  /** The intercity skill, if it is not configured, is resolved to an id other than the route skill. */
  lemma IntercityReadBack(cfg: AgentConfig, slots: Dict)
    requires RewritesAway(cfg)
    ensures SkillOf(cfg, Str(INTERCITY_SKILL), slots) == Canonicalize(cfg, INTERCITY_SKILL)
  {
    SkillIdFacts();
    if Canonicalize(cfg, INTERCITY_SKILL).Some? {
      CanonicalKeepsLastCharacter(cfg, INTERCITY_SKILL);
      OtherSkillsAreKept(Canonicalize(cfg, INTERCITY_SKILL).value, slots);
    }
  }

  /** What a selected skill is the second time: itself, or the id it shadows, or, for a route skill rewritten to
      the unconfigured intercity skill, whatever that is resolved to. */
  lemma ReadBack(cfg: AgentConfig, name: string, slots: Dict)
    requires NormalizeSlots(cfg, slots) == slots && SkillOf(cfg, Str(name), slots).Some?
    ensures var skill := SkillOf(cfg, Str(name), slots).value;
      var again := SkillOf(cfg, Str(skill), slots);
      || again == Some(skill)
      || (skill in cfg.skillIds && ShadowedBy(cfg, skill, AfterLastDot(skill)) && again == Some(Strip(skill)))
      || (skill == INTERCITY_SKILL && RewritesAway(cfg) && Interurban(slots) && again == Canonicalize(cfg, INTERCITY_SKILL))
  {
    CanonicalStable(cfg, name);
    var id, skill := Canonicalize(cfg, name).value, SkillOf(cfg, Str(name), slots).value;
    if cfg.agent != CHINA_TRANSPORT {
      if ShadowedBy(cfg, id, AfterLastDot(id)) {
        ConfiguredStripIsAnswer(cfg, id, AfterLastDot(id));
      }
    } else {
      NoShadowWhenAgentNameTrimmed(cfg);
      assert !ShadowedBy(cfg, id, AfterLastDot(id));
      ChinaReadBack(cfg, id, slots);
    }
  }

  lemma ChinaReadBack(cfg: AgentConfig, id: string, slots: Dict)
    requires cfg.agent == CHINA_TRANSPORT && id in cfg.skillIds
    ensures var skill := RewriteChinaSkill(id, slots);
      var again := SkillOf(cfg, Str(skill), slots);
      || NormalizeSlots(cfg, slots) != slots || Canonicalize(cfg, id) != Some(id)
      || again == Some(skill)
      || (skill == INTERCITY_SKILL && RewritesAway(cfg) && Interurban(slots) && again == Canonicalize(cfg, INTERCITY_SKILL))
  {
    if NormalizeSlots(cfg, slots) != slots || Canonicalize(cfg, id) != Some(id) {
      return;
    }
    RewriteMeaning(id, slots);
    if !RewritesAway(cfg) {
      RewrittenIsConfigured(cfg, id, slots);
    } else if RewriteChinaSkill(id, slots) != id {
      RewrittenIsInterurban(cfg, id, slots);
      IntercityReadBack(cfg, slots);
    }
  }

  /** What the skills of normalised requirements become when they are normalised again. */
  lemma NormalizedAgain(cfg: AgentConfig, raw: Dict)
    ensures var once := Normalize(cfg, raw);
      var again := Normalize(cfg, once);
      && HeldSlots(once) == HeldSlots(again) == GlobalSlots(cfg, raw)
      && HeldSkills(once) == SkillsOf(cfg, raw)
      && HeldSkills(again) == SelectSkills(cfg, Values(SkillsOf(cfg, raw)), GlobalSlots(cfg, raw))
      && NormalizeSlots(cfg, GlobalSlots(cfg, raw)) == GlobalSlots(cfg, raw)
  {
    NormalizeTwice(cfg, raw);
    NamesOfValues(SkillsOf(cfg, raw));
    NamesOfValues(SkillsOf(cfg, Normalize(cfg, raw)));
    NormalizeSlotsIdempotent(cfg, if Get(raw, "global").Obj? then Get(raw, "global").fields else map[]);
  }

  /** A skill of normalised requirements was selected by some entry. */
  lemma SelectedByName(cfg: AgentConfig, raw: Dict, skill: string) returns (name: string)
    ensures skill in SkillsOf(cfg, raw) ==> SkillOf(cfg, Str(name), GlobalSlots(cfg, raw)) == Some(skill)
  {
    if skill !in SkillsOf(cfg, raw) {
      return "";
    }
    var entries, slots := Get(raw, "selectedSkills").items, GlobalSlots(cfg, raw);
    SelectionMeaning(cfg, entries, slots);
    var i :| 0 <= i < |entries| && SkillOf(cfg, entries[i], slots) == Some(skill);
    name := entries[i].s;
  }

  /** Each skill that production runs is one that analysis selected, read back. */
  lemma RunsReadBack(cfg: AgentConfig, raw: Dict, id: string) returns (skill: string)
    ensures id in HeldSkills(Normalize(cfg, Normalize(cfg, raw))) ==>
      skill in HeldSkills(Normalize(cfg, raw)) && SkillOf(cfg, Str(skill), GlobalSlots(cfg, raw)) == Some(id)
  {
    NormalizedAgain(cfg, raw);
    if id !in HeldSkills(Normalize(cfg, Normalize(cfg, raw))) {
      return "";
    }
    var skills, slots := SkillsOf(cfg, raw), GlobalSlots(cfg, raw);
    SelectionMeaning(cfg, Values(skills), slots);
    var i :| 0 <= i < |Values(skills)| && SkillOf(cfg, Values(skills)[i], slots) == Some(id);
    skill := skills[i];
  }

  // ---------------------------------------------------------------- skills that lack a slot

  /** The entry selects a skill that has its slots, and that one, read back, a skill that lacks one. */
  predicate StarvedEntry(cfg: AgentConfig, name: string, slots: Dict) {
    && NormalizeSlots(cfg, slots) == slots && SkillOf(cfg, Str(name), slots).Some?
    && var skill := SkillOf(cfg, Str(name), slots).value;
       && MissingForSkill(cfg, skill, slots) == []
       && SkillOf(cfg, Str(skill), slots).Some?
       && MissingForSkill(cfg, SkillOf(cfg, Str(skill), slots).value, slots) != []
  }

  /** Such entries exist only in configurations that starve skills. */
  lemma StarvedByReadBack(cfg: AgentConfig, name: string, slots: Dict)
    requires cfg.multiSkill && cfg.hasSkills
    ensures StarvedEntry(cfg, name, slots) ==> Starves(cfg)
  {
    if StarvedEntry(cfg, name, slots) {
      ReadBack(cfg, name, slots);
      var skill := SkillOf(cfg, Str(name), slots).value;
      var again := SkillOf(cfg, Str(skill), slots).value;
      if skill in cfg.skillIds && ShadowedBy(cfg, skill, AfterLastDot(skill)) && again == Strip(skill) {
        OutgrowsBySlots(cfg, skill, again, [], None, slots);
      } else {
        OutgrowsBySlots(cfg, skill, again, ENDPOINTS, Some(LUGGAGE), slots);
      }
    }
  }

  /** In every other configuration the skills that production runs have their slots if analysis validated. */
  lemma ProductionKeepsEquipped(cfg: AgentConfig, held: Dict, update: Dict)
    requires !Starves(cfg) && Validated(cfg, Absorb(cfg, held, update))
    ensures Equipped(cfg, ProductionRequirements(cfg, Absorb(cfg, held, update)))
  {
    var raw := if held != map[] then Merge(held, update) else update;
    if cfg.multiSkill && cfg.hasSkills {
      NormalizedAgain(cfg, raw);
      var again := Normalize(cfg, Normalize(cfg, raw));
      forall id | id in HeldSkills(again) ensures MissingForSkill(cfg, id, HeldSlots(again)) == [] {
        var skill := RunsReadBack(cfg, raw, id);
        var name := SelectedByName(cfg, raw, skill);
        if MissingForSkill(cfg, id, HeldSlots(again)) != [] {
          assert skill in SkillsToValidate(cfg, Normalize(cfg, raw));
          StarvedByReadBack(cfg, name, GlobalSlots(cfg, raw));
        }
      }
    }
  }

  /** In each of these there is one. */
  lemma StarvingEntry(cfg: AgentConfig) returns (name: string, slots: Dict)
    ensures Starves(cfg) ==> StarvedEntry(cfg, name, slots)
  {
    if !Starves(cfg) {
      return "", map[];
    }
    if id :| id in cfg.skillIds && ShadowedBy(cfg, id, AfterLastDot(id)) && Outgrows(cfg, id, Strip(id), [], None) {
      name, slots := ShadowingEntry(cfg, id);
    } else {
      name, slots := RewrittenEntry(cfg);
    }
  }

  /** A shadowing id is selected by some name, and the id it shadows when it is read back. */
  lemma ShadowingName(cfg: AgentConfig, id: string, slots: Dict) returns (name: string)
    requires id in cfg.skillIds && ShadowedBy(cfg, id, AfterLastDot(id))
    ensures SkillOf(cfg, Str(name), slots) == Some(id) && SkillOf(cfg, Str(id), slots) == Some(Strip(id))
  {
    if cfg.agent == CHINA_TRANSPORT {
      NoShadowWhenAgentNameTrimmed(cfg);
    } else {
      name := NameOf(cfg, id);
    }
  }

  lemma NameOf(cfg: AgentConfig, id: string) returns (name: string)
    requires id in cfg.skillIds && ShadowedBy(cfg, id, AfterLastDot(id))
    ensures Canonicalize(cfg, name) == Some(id) && Canonicalize(cfg, id) == Some(Strip(id))
  {
    var n := LongerThanAll(cfg.skillIds);
    name := Filler(n) + Dotted(AfterLastDot(id));
    LongIdIsResolvedBySuffix(cfg, AfterLastDot(id), n);
    ConfiguredStripIsAnswer(cfg, id, AfterLastDot(id));
  }

  lemma ShadowingEntry(cfg: AgentConfig, id: string) returns (name: string, slots: Dict)
    requires cfg.hasSkills && id in cfg.skillIds && ShadowedBy(cfg, id, AfterLastDot(id))
    requires Outgrows(cfg, id, Strip(id), [], None)
    ensures NormalizeSlots(cfg, slots) == slots
    ensures SkillOf(cfg, Str(name), slots) == Some(id) && SkillOf(cfg, Str(id), slots) == Some(Strip(id))
    ensures MissingForSkill(cfg, id, slots) == [] && MissingForSkill(cfg, Strip(id), slots) != []
  {
    var few := OutgrownSet(cfg, id, Strip(id), [], None);
    slots := Only(few);
    name := ShadowingName(cfg, id, slots);
    OnlyIsNormal(cfg, few);
    assert few + [] == few;
    SetSeparates(cfg, id, Strip(id), few, []);
  }

  lemma OutgrownSet(cfg: AgentConfig, id: string, other: string, given: seq<string>, barred: Option<string>)
    returns (few: seq<string>)
    requires Outgrows(cfg, id, other, given, barred)
    ensures few in Sufficient(cfg, id) && (barred.Some? ==> barred.value !in few) && !Enough(cfg, other, few + given)
  {
    few :| few in Sufficient(cfg, id) && (barred.Some? ==> barred.value !in few) && !Enough(cfg, other, few + given);
  }

  lemma SetSeparates(cfg: AgentConfig, id: string, other: string, few: seq<string>, given: seq<string>)
    requires cfg.hasSkills && few in Sufficient(cfg, id) && !Enough(cfg, other, few + given)
    ensures MissingForSkill(cfg, id, Only(few + given)) == [] && MissingForSkill(cfg, other, Only(few + given)) != []
  {
    assert Within(few, few + given);
    EnoughIffHasSlots(cfg, id, few + given);
    EnoughIffHasSlots(cfg, other, few + given);
  }

  /** With both ends of the trip and no luggage, the route skill is rewritten to the intercity skill. */
  lemma RouteIsRewritten(cfg: AgentConfig, few: seq<string>)
    requires RewritesAway(cfg) && LUGGAGE !in few
    ensures var slots := Only(few + ENDPOINTS);
      NormalizeSlots(cfg, slots) == slots && SkillOf(cfg, Str(ROUTE_SKILL), slots) == Some(INTERCITY_SKILL)
  {
    OnlyIsNormal(cfg, few + ENDPOINTS);
    SkillIdFacts();
    ConfiguredIsCanonical(cfg, ROUTE_SKILL);
    assert LUGGAGE !in ENDPOINTS;
    var slots := Only(few + ENDPOINTS);
    assert Filled(slots, ENDPOINTS[0]) && Filled(slots, ENDPOINTS[1]) && !Filled(slots, LUGGAGE);
  }

  lemma RewrittenEntry(cfg: AgentConfig) returns (name: string, slots: Dict)
    requires cfg.hasSkills
    ensures
      && RewritesAway(cfg) && Canonicalize(cfg, INTERCITY_SKILL).Some?
      && Outgrows(cfg, INTERCITY_SKILL, Canonicalize(cfg, INTERCITY_SKILL).value, ENDPOINTS, Some(LUGGAGE))
      ==> StarvedEntry(cfg, name, slots)
  {
    if !RewritesAway(cfg) || Canonicalize(cfg, INTERCITY_SKILL).None? {
      return "", map[];
    }
    var again := Canonicalize(cfg, INTERCITY_SKILL).value;
    if !Outgrows(cfg, INTERCITY_SKILL, again, ENDPOINTS, Some(LUGGAGE)) {
      return "", map[];
    }
    var few := OutgrownSet(cfg, INTERCITY_SKILL, again, ENDPOINTS, Some(LUGGAGE));
    name, slots := ROUTE_SKILL, Only(few + ENDPOINTS);
    RouteIsRewritten(cfg, few);
    IntercityReadBack(cfg, slots);
    SetSeparates(cfg, INTERCITY_SKILL, again, few, ENDPOINTS);
  }

  // ---------------------------------------------------------------- replies

  function OneEntry(name: string, slots: Dict): Dict {
    map["global" := Obj(slots), "selectedSkills" := List([Str(name)])]
  }

  /** What a reply with one entry comes to at analysis and at production. */
  lemma OneEntryHeld(cfg: AgentConfig, name: string, slots: Dict)
    requires NormalizeSlots(cfg, slots) == slots && SkillOf(cfg, Str(name), slots).Some?
    ensures var skill, once := SkillOf(cfg, Str(name), slots).value, Normalize(cfg, OneEntry(name, slots));
      var again := SkillOf(cfg, Str(skill), slots);
      && HeldSlots(once) == HeldSlots(Normalize(cfg, once)) == slots
      && HeldSkills(once) == [skill]
      && HeldSkills(Normalize(cfg, once)) == if again.Some? then [again.value] else []
  {
    var raw, skill := OneEntry(name, slots), SkillOf(cfg, Str(name), slots).value;
    SelectOne(cfg, Str(name), slots);
    NormalizedAgain(cfg, raw);
    assert Values([skill]) == [Str(skill)];
    SelectOne(cfg, Str(skill), slots);
  }

  /** A reply with one entry whose skill has its slots goes on to production. */
  lemma OneEntryPasses(cfg: AgentConfig, name: string, slots: Dict)
    requires NormalizeSlots(cfg, slots) == slots && SkillOf(cfg, Str(name), slots).Some?
    requires MissingForSkill(cfg, SkillOf(cfg, Str(name), slots).value, slots) == []
    ensures var update := OneEntry(name, slots);
      !NeedsInput(cfg, Absorb(cfg, map[], update), AnalysisReply(false, update))
  {
    OneEntryHeld(cfg, name, slots);
    assert "missingFields" !in OneEntry(name, slots);
  }

  /** A reply with such an entry. */
  lemma StarvingReply(cfg: AgentConfig) returns (update: Dict)
    ensures Starves(cfg) ==>
      && !NeedsInput(cfg, Absorb(cfg, map[], update), AnalysisReply(false, update))
      && !Equipped(cfg, ProductionRequirements(cfg, Absorb(cfg, map[], update)))
  {
    var name, slots := StarvingEntry(cfg);
    update := OneEntry(name, slots);
    if Starves(cfg) {
      OneEntryPasses(cfg, name, slots);
      OneEntryHeld(cfg, name, slots);
      var skill := SkillOf(cfg, Str(name), slots).value;
      var bad, held := SkillOf(cfg, Str(skill), slots).value, ProductionRequirements(cfg, Absorb(cfg, map[], update));
      assert bad in HeldSkills(held) && MissingForSkill(cfg, bad, HeldSlots(held)) != [];
    }
  }

  /** The reply makes production run a skill that lacks a slot. */
  predicate StarvesBy(cfg: AgentConfig, held: Dict, reply: AnalysisReply) {
    var absorbed := Absorb(cfg, held, reply.update);
    !NeedsInput(cfg, absorbed, reply) && !Equipped(cfg, ProductionRequirements(cfg, absorbed))
  }

  /** Some reply makes production run a skill that lacks a slot exactly in the configurations that `Starves`
      describes. */
  lemma StarvingReplyIff(cfg: AgentConfig)
    ensures (exists held, reply :: StarvesBy(cfg, held, reply)) <==> Starves(cfg)
  {
    if Starves(cfg) {
      var update := StarvingReply(cfg);
      assert StarvesBy(cfg, map[], AnalysisReply(false, update));
    } else {
      forall held, reply ensures !StarvesBy(cfg, held, reply) {
        if !NeedsInput(cfg, Absorb(cfg, held, reply.update), reply) {
          ProductionKeepsEquipped(cfg, held, reply.update);
        }
      }
    }
  }

  // ---------------------------------------------------------------- skills that are dropped

  /** Analysis selected skills and production is left with none. */
  predicate LeavesNone(cfg: AgentConfig, absorbed: Dict) {
    HeldSkills(absorbed) != [] && HeldSkills(ProductionRequirements(cfg, absorbed)) == []
  }

  /** Analysis selected a skill in whose place production runs none. */
  predicate DropsOne(cfg: AgentConfig, absorbed: Dict) {
    && cfg.multiSkill && cfg.hasSkills
    && exists skill :: skill in HeldSkills(absorbed) && SkillOf(cfg, Str(skill), HeldSlots(absorbed)).None?
  }

  lemma LeavingNoneDropsOne(cfg: AgentConfig, held: Dict, update: Dict)
    ensures LeavesNone(cfg, Absorb(cfg, held, update)) ==> DropsOne(cfg, Absorb(cfg, held, update))
  {
    if !LeavesNone(cfg, Absorb(cfg, held, update)) {
      return;
    }
    var raw := if held != map[] then Merge(held, update) else update;
    var skills, slots := SkillsOf(cfg, raw), GlobalSlots(cfg, raw);
    NormalizedAgain(cfg, raw);
    SelectionMeaning(cfg, Values(skills), slots);
    assert SkillOf(cfg, Values(skills)[0], slots).Some? ==>
      StandsFor(cfg, Values(skills), slots, SkillOf(cfg, Values(skills)[0], slots).value);
    assert skills[0] in HeldSkills(Normalize(cfg, raw));
  }

  /** The entry selects a skill that has its slots and that is read back as none. */
  predicate DroppedEntry(cfg: AgentConfig, name: string, slots: Dict) {
    && NormalizeSlots(cfg, slots) == slots && SkillOf(cfg, Str(name), slots).Some?
    && MissingForSkill(cfg, SkillOf(cfg, Str(name), slots).value, slots) == []
    && SkillOf(cfg, Str(SkillOf(cfg, Str(name), slots).value), slots).None?
  }

  /** Such entries exist only in configurations that forget skills. */
  lemma ForgetsByEntry(cfg: AgentConfig, name: string, slots: Dict)
    requires cfg.multiSkill && cfg.hasSkills
    ensures DroppedEntry(cfg, name, slots) ==> Forgets(cfg)
  {
    if DroppedEntry(cfg, name, slots) {
      ReadBack(cfg, name, slots);
      HasSlotsIff(cfg, INTERCITY_SKILL, slots);
    }
  }

  lemma ForgetsByReadBack(cfg: AgentConfig, held: Dict, update: Dict)
    ensures Validated(cfg, Absorb(cfg, held, update)) && DropsOne(cfg, Absorb(cfg, held, update)) ==> Forgets(cfg)
  {
    var raw := if held != map[] then Merge(held, update) else update;
    var slots := GlobalSlots(cfg, raw);
    NormalizedAgain(cfg, raw);
    if Validated(cfg, Normalize(cfg, raw)) && DropsOne(cfg, Normalize(cfg, raw)) {
      var skill :| skill in HeldSkills(Normalize(cfg, raw)) && SkillOf(cfg, Str(skill), slots).None?;
      var name := SelectedByName(cfg, raw, skill);
      assert skill in SkillsToValidate(cfg, Normalize(cfg, raw));
      ForgetsByEntry(cfg, name, slots);
    }
  }

  lemma ForgettingReply(cfg: AgentConfig) returns (update: Dict)
    ensures Forgets(cfg) ==>
      && !NeedsInput(cfg, Absorb(cfg, map[], update), AnalysisReply(false, update))
      && LeavesNone(cfg, Absorb(cfg, map[], update))
  {
    if !Forgets(cfg) {
      return map[];
    }
    var few :| few in Sufficient(cfg, INTERCITY_SKILL) && LUGGAGE !in few;
    var slots := Only(few + ENDPOINTS);
    update := OneEntry(ROUTE_SKILL, slots);
    RouteIsRewritten(cfg, few);
    IntercityReadBack(cfg, slots);
    HasSlotsIff(cfg, INTERCITY_SKILL, slots);
    assert AllFilled(slots, few);
    OneEntryPasses(cfg, ROUTE_SKILL, slots);
    OneEntryHeld(cfg, ROUTE_SKILL, slots);
  }

  /** The reply goes on to production, which drops a skill it selected. */
  predicate DropsBy(cfg: AgentConfig, held: Dict, reply: AnalysisReply) {
    !NeedsInput(cfg, Absorb(cfg, held, reply.update), reply) && DropsOne(cfg, Absorb(cfg, held, reply.update))
  }

  /** The reply goes on to production, which drops all the skills it selected. */
  predicate ForgetsBy(cfg: AgentConfig, held: Dict, reply: AnalysisReply) {
    !NeedsInput(cfg, Absorb(cfg, held, reply.update), reply) && LeavesNone(cfg, Absorb(cfg, held, reply.update))
  }

  /** Some reply makes production drop a skill it selected, and some reply all of them, exactly in the configurations
      that `Forgets` describes. */
  lemma ForgettingReplyIff(cfg: AgentConfig)
    ensures (exists held, reply :: DropsBy(cfg, held, reply)) <==> Forgets(cfg)
    ensures (exists held, reply :: ForgetsBy(cfg, held, reply)) <==> Forgets(cfg)
  {
    if Forgets(cfg) {
      var update := ForgettingReply(cfg);
      LeavingNoneDropsOne(cfg, map[], update);
      assert ForgetsBy(cfg, map[], AnalysisReply(false, update)) && DropsBy(cfg, map[], AnalysisReply(false, update));
    } else {
      forall held, reply ensures !DropsBy(cfg, held, reply) && !ForgetsBy(cfg, held, reply) {
        if ForgetsBy(cfg, held, reply) {
          LeavingNoneDropsOne(cfg, held, reply.update);
        }
        if DropsBy(cfg, held, reply) {
          ForgetsByReadBack(cfg, held, reply.update);
        }
      }
    }
  }

  /** What analysis validated stays validated, the first configured skill in place of none included, unless
      production runs a skill without its slots or drops them all. */
  lemma ProductionKeepsValidated(cfg: AgentConfig, held: Dict, update: Dict)
    requires !Starves(cfg) && !Forgets(cfg) && Validated(cfg, Absorb(cfg, held, update))
    ensures Validated(cfg, ProductionRequirements(cfg, Absorb(cfg, held, update)))
  {
    ProductionKeepsEquipped(cfg, held, update);
    var absorbed := Absorb(cfg, held, update);
    if LeavesNone(cfg, absorbed) {
      LeavingNoneDropsOne(cfg, held, update);
      ForgetsByReadBack(cfg, held, update);
    } else if cfg.multiSkill && cfg.hasSkills {
      NormalizedAgain(cfg, if held != map[] then Merge(held, update) else update);
    }
  }

  /** A configuration whose second normalisation changes nothing does neither. */
  lemma SettledNeitherStarvesNorForgets(cfg: AgentConfig)
    requires Settled(cfg)
    ensures !Starves(cfg) && !Forgets(cfg)
  {
  }

  // ---------------------------------------------------------------- two kinds of transport agents

  lemma NoSkillForTrips(cfg: AgentConfig)
    requires cfg.agent == CHINA_TRANSPORT && cfg.skillIds == [ROUTE_SKILL]
    ensures RewritesAway(cfg) && Canonicalize(cfg, INTERCITY_SKILL).None?
  {
    SkillIdFacts();
    if Canonicalize(cfg, INTERCITY_SKILL).Some? {
      CanonicalKeepsLastCharacter(cfg, INTERCITY_SKILL);
    }
  }

  lemma UndescribedNeedsNothing(cfg: AgentConfig, id: string)
    requires id !in cfg.meta
    ensures [] in Sufficient(cfg, id)
  {
  }

  /** What becomes of a trip between two cities where the intercity skill is not configured. */
  lemma TripReadBack(cfg: AgentConfig)
    requires RewritesAway(cfg)
    ensures var once, again := Normalize(cfg, OneEntry(ROUTE_SKILL, Only(ENDPOINTS))), Canonicalize(cfg, INTERCITY_SKILL);
      && HeldSkills(once) == [INTERCITY_SKILL]
      && HeldSkills(Normalize(cfg, once)) == if again.Some? then [again.value] else []
  {
    assert [] + ENDPOINTS == ENDPOINTS;
    RouteIsRewritten(cfg, []);
    IntercityReadBack(cfg, Only(ENDPOINTS));
    OneEntryHeld(cfg, ROUTE_SKILL, Only(ENDPOINTS));
  }

  /** A transport agent with the route skill alone: a trip between two cities is selected, validated and then
      planned by no skill. Its requirements are not in normal form after one pass. */
  lemma RouteOnlyForgets(cfg: AgentConfig)
    requires cfg.agent == CHINA_TRANSPORT && cfg.multiSkill && cfg.hasSkills
    requires cfg.skillIds == [ROUTE_SKILL] && INTERCITY_SKILL !in cfg.meta
    ensures Forgets(cfg)
    ensures var once := Normalize(cfg, OneEntry(ROUTE_SKILL, Only(ENDPOINTS)));
      HeldSkills(once) == [INTERCITY_SKILL] && Validated(cfg, once) && HeldSkills(Normalize(cfg, once)) == []
  {
    NoSkillForTrips(cfg);
    UndescribedNeedsNothing(cfg, INTERCITY_SKILL);
    TripReadBack(cfg);
  }

  /** The planner is not the transport agent's own, but named like its intercity skill after the dot. */
  predicate ForeignPlanner(cfg: AgentConfig, planner: string) {
    var planning := AfterLastDot(INTERCITY_SKILL);
    EndsWith(planner, Dotted(planning)) && planner != Preferred(cfg, planning) && planner != INTERCITY_SKILL
  }

  lemma OnlyPlanner(cfg: AgentConfig, planner: string)
    requires cfg.agent == CHINA_TRANSPORT && cfg.skillIds == [ROUTE_SKILL, planner]
    ensures ForeignPlanner(cfg, planner) ==> RewritesAway(cfg) && Canonicalize(cfg, INTERCITY_SKILL) == Some(planner)
  {
    if !ForeignPlanner(cfg, planner) {
      return;
    }
    SkillIdFacts();
    var planning := AfterLastDot(INTERCITY_SKILL);
    assert Dotted(planning)[|planning|] == 'g';
    assert !EndsWith(ROUTE_SKILL, Dotted(planning));
    assert Preferred(cfg, planning) != ROUTE_SKILL;
    assert WithSuffix([planner], planning) == [planner];
    assert cfg.skillIds[1..] == [planner];
  }

  /** A transport agent with the route skill and another agent's planner, which needs a third field: a trip between
      two cities is given to the planner without that field. */
  lemma ForeignPlannerStarves(cfg: AgentConfig, planner: string, field: string)
    requires cfg.agent == CHINA_TRANSPORT && cfg.multiSkill && cfg.hasSkills
    requires cfg.skillIds == [ROUTE_SKILL, planner]
    requires cfg.meta == map[planner := SkillMeta([field], [])] && field !in ENDPOINTS
    ensures ForeignPlanner(cfg, planner) ==>
      && Starves(cfg)
      && HeldSkills(Normalize(cfg, Normalize(cfg, OneEntry(ROUTE_SKILL, Only(ENDPOINTS))))) == [planner]
  {
    if !ForeignPlanner(cfg, planner) {
      return;
    }
    OnlyPlanner(cfg, planner);
    TripReadBack(cfg);
    NeedsField(cfg, planner, field);
    assert INTERCITY_SKILL !in cfg.meta;
    StarvesByPlanner(cfg, planner);
  }

  lemma StarvesByPlanner(cfg: AgentConfig, planner: string)
    requires cfg.multiSkill && cfg.hasSkills && INTERCITY_SKILL !in cfg.meta && !Enough(cfg, planner, ENDPOINTS)
    ensures RewritesAway(cfg) && Canonicalize(cfg, INTERCITY_SKILL) == Some(planner) ==> Starves(cfg)
  {
    UndescribedNeedsNothing(cfg, INTERCITY_SKILL);
    assert [] + ENDPOINTS == ENDPOINTS;
  }

  lemma NeedsField(cfg: AgentConfig, id: string, field: string)
    requires id in cfg.meta && cfg.meta[id] == SkillMeta([field], []) && field !in ENDPOINTS
    ensures !Enough(cfg, id, ENDPOINTS)
  {
    assert Sufficient(cfg, id) == [[field]];
    assert field in [field] && !Within([field], ENDPOINTS);
  }

  lemma ToursIsForeign(cfg: AgentConfig)
    requires cfg.agent == CHINA_TRANSPORT
    ensures ForeignPlanner(cfg, "tours" + Dotted(AfterLastDot(INTERCITY_SKILL)))
  {
    var planning := AfterLastDot(INTERCITY_SKILL);
    var planner := "tours" + Dotted(planning);
    assert planner[|planner| - |Dotted(planning)|..] == Dotted(planning);
    assert |Preferred(cfg, planning)| != |planner|;
    SkillIdFacts();
    assert planner[0] == 't';
  }

  /** One such configuration: the planner of a tours agent, which needs the number of passengers. */
  lemma ToursPlannerStarves() returns (cfg: AgentConfig)
    ensures cfg.agent == CHINA_TRANSPORT && Starves(cfg)
    ensures cfg.skillIds == [ROUTE_SKILL, "tours" + Dotted(AfterLastDot(INTERCITY_SKILL))]
  {
    var planner := "tours" + Dotted(AfterLastDot(INTERCITY_SKILL));
    cfg := AgentConfig(CHINA_TRANSPORT, true, [ROUTE_SKILL, planner], map[planner := SkillMeta(["passengers"], [])],
                       map[], _ => "", true);
    ToursIsForeign(cfg);
    assert "passengers" !in ENDPOINTS;
    ForeignPlannerStarves(cfg, planner, "passengers");
  }
}
