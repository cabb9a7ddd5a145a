/** The analysis stage of a Partner task: slot validation, and what one reply does to the task's requirements. */
module Analysis {
  import opened Basics
  import opened Requirements
  import opened SkillSelection

  // ---------------------------------------------------------------- slot validation

  predicate Filled(slots: Dict, field: string) {
    Truthy(Get(slots, field))
  }

  predicate AllFilled(slots: Dict, fields: seq<string>) {
    forall f :: f in fields ==> Filled(slots, f)
  }

  /** What the skill needs: every required slot and, if there are alternatives, one of them entirely. */
  predicate Satisfied(meta: SkillMeta, slots: Dict) {
    && AllFilled(slots, meta.required)
    && (meta.anyOf == [] || exists g :: g in meta.anyOf && AllFilled(slots, g))
  }

  function MissingIn(fields: seq<string>, slots: Dict): (r: seq<string>)
    ensures forall f :: f in r <==> f in fields && !Filled(slots, f)
    ensures r == [] <==> AllFilled(slots, fields)
  {
    if fields == [] then []
    else
      var front, last := fields[..|fields| - 1], fields[|fields| - 1];
      assert fields == front + [last];
      MissingIn(front, slots) + (if Filled(slots, last) then [] else [last])
  }

  lemma MissingInSnoc(front: seq<string>, last: string, slots: Dict)
    ensures MissingIn(front + [last], slots) == MissingIn(front, slots) + (if Filled(slots, last) then [] else [last])
  {
    assert (front + [last])[..|front|] == front;
  }

  lemma Regrouped<T>(a: seq<T>, b: seq<T>, c: seq<T>)
    ensures a + (b + c) == (a + b) + c
  {
  }

  /** The open fields are in the order in which the fields are configured. */
  lemma {:induction false} MissingInOrder(first: seq<string>, rest: seq<string>, slots: Dict)
    ensures MissingIn(first + rest, slots) == MissingIn(first, slots) + MissingIn(rest, slots)
    decreases |rest|
  {
    if rest == [] {
      assert first + rest == first;
    } else {
      var front, last := rest[..|rest| - 1], rest[|rest| - 1];
      assert rest == front + [last];
      Regrouped(first, front, [last]);
      MissingInOrder(first, front, slots);
      MissingInSnoc(first + front, last, slots);
      MissingInSnoc(front, last, slots);
      Regrouped(MissingIn(first, slots), MissingIn(front, slots), if Filled(slots, last) then [] else [last]);
    }
  }

  function MissingInEach(groups: seq<seq<string>>, slots: Dict): (r: seq<seq<string>>)
    ensures |r| == |groups| && forall i :: 0 <= i < |r| ==> r[i] == MissingIn(groups[i], slots)
  {
    if groups == [] then []
    else MissingInEach(groups[..|groups| - 1], slots) + [MissingIn(groups[|groups| - 1], slots)]
  }

  /** The first of the shortest lists, as `min(..., key=len)` picks it. */
  function FirstShortest(lists: seq<seq<string>>): (r: seq<string>)
    requires lists != []
    ensures r in lists
    ensures forall l :: l in lists ==> |r| <= |l|
  {
    var front, last := lists[..|lists| - 1], lists[|lists| - 1];
    assert lists == front + [last];
    if front == [] then last
    else
      var best := FirstShortest(front);
      if |last| < |best| then last else best
  }

  predicate ShortestFirst(lists: seq<seq<string>>, i: nat) {
    && i < |lists|
    && (forall j :: 0 <= j < |lists| ==> |lists[i]| <= |lists[j]|)
    && (forall j :: 0 <= j < i ==> |lists[i]| < |lists[j]|)
  }

  lemma {:induction false} FirstShortestMeaning(lists: seq<seq<string>>) returns (i: nat)
    requires lists != []
    ensures ShortestFirst(lists, i) && FirstShortest(lists) == lists[i]
  {
    var front, last := lists[..|lists| - 1], |lists| - 1;
    assert lists == front + [lists[last]];
    if front == [] {
      i := 0;
    } else {
      var k := FirstShortestMeaning(front);
      i := if |lists[last]| < |front[k]| then last else k;
    }
  }

  /** The alternative that is reported when none is complete. */
  function MissingAlternative(groups: seq<seq<string>>, slots: Dict): seq<string> {
    if groups == [] || [] in MissingInEach(groups, slots) then [] else FirstShortest(MissingInEach(groups, slots))
  }

  function MissingFields(meta: SkillMeta, slots: Dict): seq<string> {
    MissingIn(meta.required, slots) + MissingAlternative(meta.anyOf, slots)
  }

  lemma EachIsListed(groups: seq<seq<string>>, slots: Dict, g: seq<string>)
    requires g in groups
    ensures MissingIn(g, slots) in MissingInEach(groups, slots)
  {
    var i :| 0 <= i < |groups| && groups[i] == g;
    assert MissingInEach(groups, slots)[i] == MissingIn(g, slots);
  }

  lemma MissingAlternativeMeaning(groups: seq<seq<string>>, slots: Dict)
    ensures MissingAlternative(groups, slots) != [] ==>
      exists g :: g in groups && MissingAlternative(groups, slots) == MissingIn(g, slots)
    ensures forall g :: g in groups ==> |MissingAlternative(groups, slots)| <= |MissingIn(g, slots)|
  {
    if MissingAlternative(groups, slots) == [] {
      return;
    }
    var each := MissingInEach(groups, slots);
    var share := FirstShortest(each);
    var i :| 0 <= i < |each| && each[i] == share;
    assert groups[i] in groups && share == MissingIn(groups[i], slots);
    forall g | g in groups ensures |share| <= |MissingIn(g, slots)| {
      EachIsListed(groups, slots, g);
    }
  }

  /** Nothing is reported exactly when the skill has what it needs. */
  lemma NothingMissingIffSatisfied(meta: SkillMeta, slots: Dict)
    ensures MissingFields(meta, slots) == [] <==> Satisfied(meta, slots)
  {
    var groups := meta.anyOf;
    var each := MissingInEach(groups, slots);
    if MissingAlternative(groups, slots) == [] && groups != [] {
      assert FirstShortest(each) in each;
      var i :| 0 <= i < |each| && each[i] == [];
      assert groups[i] in groups && AllFilled(slots, groups[i]);
    }
    if g :| g in groups && AllFilled(slots, g) {
      var i :| 0 <= i < |groups| && groups[i] == g;
      assert each[i] == [];
    }
  }

  /** Answering keeps what was filled. */
  ghost predicate Extends(slots: Dict, answered: Dict) {
    forall f :: Filled(slots, f) ==> Filled(answered, f)
  }

  /** Filling the reported fields is enough for the skill. */
  lemma FillingReportedFieldsRepairs(meta: SkillMeta, slots: Dict, answered: Dict)
    requires Extends(slots, answered) && AllFilled(answered, MissingFields(meta, slots))
    ensures MissingFields(meta, answered) == []
  {
    var share := MissingAlternative(meta.anyOf, slots);
    assert forall f :: f in MissingIn(meta.required, slots) ==> f in MissingFields(meta, slots);
    assert forall f :: f in share ==> f in MissingFields(meta, slots);
    assert AllFilled(answered, meta.required);
    if share != [] {
      MissingAlternativeMeaning(meta.anyOf, slots);
      var g :| g in meta.anyOf && share == MissingIn(g, slots);
      assert AllFilled(answered, g);
    } else if meta.anyOf != [] {
      var m := SkillMeta([], meta.anyOf);
      assert MissingFields(m, slots) == [];
      NothingMissingIffSatisfied(m, slots);
      var g :| g in meta.anyOf && AllFilled(slots, g);
      assert AllFilled(answered, g);
    }
    NothingMissingIffSatisfied(meta, answered);
  }

  /** No answer that satisfies the skill leaves a reported required field open, and none completes an
      alternative with fewer open fields than the reported share. */
  lemma RepairNeedsTheReport(meta: SkillMeta, slots: Dict, answered: Dict)
    requires Satisfied(meta, answered)
    ensures AllFilled(answered, MissingIn(meta.required, slots))
    ensures MissingAlternative(meta.anyOf, slots) != [] ==>
      exists g :: g in meta.anyOf && AllFilled(answered, MissingIn(g, slots))
               && |MissingAlternative(meta.anyOf, slots)| <= |MissingIn(g, slots)|
  {
    if MissingAlternative(meta.anyOf, slots) != [] {
      MissingAlternativeMeaning(meta.anyOf, slots);
      var g :| g in meta.anyOf && AllFilled(answered, g);
      assert AllFilled(answered, MissingIn(g, slots));
    }
  }

  function MissingForSkill(cfg: AgentConfig, id: string, slots: Dict): seq<string> {
    if !cfg.hasSkills || id !in cfg.meta then [] else MissingFields(cfg.meta[id], slots)
  }

  function Label(cfg: AgentConfig, field: string): string {
    if field in cfg.labels then cfg.labels[field] else field
  }

  function Labels(cfg: AgentConfig, fields: seq<string>): (r: seq<string>)
    ensures |r| == |fields|
  {
    seq(|fields|, i requires 0 <= i < |fields| => Label(cfg, fields[i]))
  }

  /** The open fields of the first alternative with fewest, if none is complete. */
  ghost predicate OpenShare(groups: seq<seq<string>>, slots: Dict, share: seq<string>) {
    var each := MissingInEach(groups, slots);
    share == [] || exists i: nat :: ShortestFirst(each, i) && share == each[i]
  }

  lemma ShareIsOpen(groups: seq<seq<string>>, slots: Dict)
    ensures OpenShare(groups, slots, MissingAlternative(groups, slots))
  {
    if MissingAlternative(groups, slots) != [] {
      var i := FirstShortestMeaning(MissingInEach(groups, slots));
    }
  }

  /** The report names the open required fields in their order and then those of an alternative, each by its
      configured label. */
  lemma ReportMeaning(cfg: AgentConfig, meta: SkillMeta, slots: Dict)
    ensures MissingIn(meta.required, slots) <= MissingFields(meta, slots)
    ensures OpenShare(meta.anyOf, slots, MissingFields(meta, slots)[|MissingIn(meta.required, slots)|..])
    ensures var fields := MissingFields(meta, slots);
      forall k :: 0 <= k < |fields| ==>
        Labels(cfg, fields)[k] == if fields[k] in cfg.labels then cfg.labels[fields[k]] else fields[k]
  {
    ShareIsOpen(meta.anyOf, slots);
    var first, share := MissingIn(meta.required, slots), MissingAlternative(meta.anyOf, slots);
    assert (first + share)[|first|..] == share;
  }

  method ValidateSkillSlots(cfg: AgentConfig, id: string, slots: Dict) returns (missing: seq<string>)
    ensures missing == Labels(cfg, MissingForSkill(cfg, id, slots))
  {
    missing := [];
    if !cfg.hasSkills || id !in cfg.meta {
      return;
    }
    var meta := cfg.meta[id];
    missing := CollectMissing(cfg, meta.required, slots);
    var share := PickAlternative(meta.anyOf, slots);
    LabelsOfConcat(cfg, MissingIn(meta.required, slots), share);
    missing := missing + Labels(cfg, share);
  }

  method PickAlternative(groups: seq<seq<string>>, slots: Dict) returns (share: seq<string>)
    ensures share == MissingAlternative(groups, slots)
  {
    var each: seq<seq<string>> := [];
    for i := 0 to |groups|
      invariant each == MissingInEach(groups[..i], slots)
    {
      MissingInEachPrefix(groups, slots, i);
      each := each + [MissingIn(groups[i], slots)];
    }
    assert groups[..|groups|] == groups;
    share := if groups == [] || [] in each then [] else FirstShortest(each);
  }

  lemma MissingInEachPrefix(groups: seq<seq<string>>, slots: Dict, i: nat)
    requires i < |groups|
    ensures MissingInEach(groups[..i + 1], slots) == MissingInEach(groups[..i], slots) + [MissingIn(groups[i], slots)]
  {
    assert groups[..i + 1][..i] == groups[..i];
  }

  method CollectMissing(cfg: AgentConfig, fields: seq<string>, slots: Dict) returns (missing: seq<string>)
    ensures missing == Labels(cfg, MissingIn(fields, slots))
  {
    missing := [];
    for i := 0 to |fields|
      invariant missing == Labels(cfg, MissingIn(fields[..i], slots))
    {
      MissingNext(cfg, fields, slots, i);
      if !Filled(slots, fields[i]) {
        missing := missing + [Label(cfg, fields[i])];
      }
    }
    assert fields[..|fields|] == fields;
  }

  lemma MissingNext(cfg: AgentConfig, fields: seq<string>, slots: Dict, i: nat)
    requires i < |fields|
    ensures Labels(cfg, MissingIn(fields[..i + 1], slots))
         == Labels(cfg, MissingIn(fields[..i], slots)) + if Filled(slots, fields[i]) then [] else [Label(cfg, fields[i])]
  {
    assert fields[..i + 1][..i] == fields[..i];
    LabelsOfConcat(cfg, MissingIn(fields[..i], slots), [fields[i]]);
  }

  lemma LabelsOfConcat(cfg: AgentConfig, a: seq<string>, b: seq<string>)
    ensures Labels(cfg, a + b) == Labels(cfg, a) + Labels(cfg, b)
  {
  }

  // ---------------------------------------------------------------- one analysis reply

  /** A parsed analysis reply; `reject` is the decision after the force-accept override. */
  datatype AnalysisReply = AnalysisReply(reject: bool, update: Dict)

  /** The requirements a task holds after a reply; no requirements read as an empty dictionary. */
  function Absorb(cfg: AgentConfig, held: Dict, update: Dict): Dict {
    Normalize(cfg, if held != map[] then Merge(held, update) else update)
  }

  function HeldSlots(held: Dict): Dict {
    if Get(held, "global").Obj? then Get(held, "global").fields else map[]
  }

  function Names(values: seq<Value>): seq<string> {
    if values == [] then []
    else (if values[0].Str? then [values[0].s] else []) + Names(values[1..])
  }

  function HeldSkills(held: Dict): seq<string> {
    if Get(held, "selectedSkills").List? then Names(Get(held, "selectedSkills").items) else []
  }

  function SkillsToValidate(cfg: AgentConfig, held: Dict): seq<string> {
    if HeldSkills(held) != [] || !cfg.hasSkills || cfg.skillIds == [] then HeldSkills(held) else cfg.skillIds[..1]
  }

  /** Every skill that will be checked has all the slots it needs. */
  predicate Validated(cfg: AgentConfig, held: Dict) {
    forall id :: id in SkillsToValidate(cfg, held) ==> MissingForSkill(cfg, id, HeldSlots(held)) == []
  }

  predicate NeedsInput(cfg: AgentConfig, held: Dict, reply: AnalysisReply) {
    reply.reject || Truthy(Get(reply.update, "missingFields")) || !Validated(cfg, held)
  }

  /** Checks every skill; false if one of them reports a missing field. */
  method ValidateSkills(cfg: AgentConfig, held: Dict) returns (complete: bool)
    ensures complete == Validated(cfg, held)
  {
    complete := true;
    var skills := SkillsToValidate(cfg, held);
    for i := 0 to |skills|
      invariant complete == forall id :: id in skills[..i] ==> MissingForSkill(cfg, id, HeldSlots(held)) == []
    {
      var missing := ValidateSkillSlots(cfg, skills[i], HeldSlots(held));
      assert skills[..i + 1] == skills[..i] + [skills[i]];
      if missing != [] {
        complete := false;
      }
    }
  }

  /** The requirements production works with: normalised once more when it runs skills. */
  function ProductionRequirements(cfg: AgentConfig, held: Dict): Dict {
    if cfg.multiSkill && cfg.hasSkills then Normalize(cfg, held) else held
  }

  /** The configurations whose second normalisation, if there is one, changes nothing. */
  predicate Settled(cfg: AgentConfig) {
    cfg.multiSkill && cfg.hasSkills ==> !Shadowed(cfg) && !RewritesAway(cfg)
  }

  lemma {:induction false} NamesOfValues(names: seq<string>)
    ensures Names(Values(names)) == names
  {
    if names != [] {
      assert Values(names)[1..] == Values(names[1..]);
      NamesOfValues(names[1..]);
    }
  }

  /** Absorbed requirements hold the skills and slots that normalisation computed. */
  lemma AbsorbedHolds(cfg: AgentConfig, held: Dict, update: Dict)
    ensures var raw := if held != map[] then Merge(held, update) else update;
      && HeldSlots(Absorb(cfg, held, update)) == GlobalSlots(cfg, raw)
      && HeldSkills(Absorb(cfg, held, update)) == SkillsOf(cfg, raw)
      && Distinct(HeldSkills(Absorb(cfg, held, update)))
  {
    var raw := if held != map[] then Merge(held, update) else update;
    NamesOfValues(SkillsOf(cfg, raw));
    if Get(raw, "selectedSkills").List? {
      SelectionMeaning(cfg, Get(raw, "selectedSkills").items, GlobalSlots(cfg, raw));
    }
  }

  /** Production leaves the requirements that analysis validated as they are, so the skills it executes are
      the ones analysis selected and they still have all their slots. */
  lemma ProductionRunsWhatAnalysisValidated(cfg: AgentConfig, held: Dict, update: Dict)
    requires Settled(cfg)
    ensures ProductionRequirements(cfg, Absorb(cfg, held, update)) == Absorb(cfg, held, update)
  {
    if cfg.multiSkill && cfg.hasSkills {
      NormalizeIdempotent(cfg, if held != map[] then Merge(held, update) else update);
    }
  }

  /** It does so for every reply exactly when production does not normalise or normalisation is idempotent. */
  lemma ProductionAgreesIff(cfg: AgentConfig)
    ensures (forall held, update :: ProductionRequirements(cfg, Absorb(cfg, held, update)) == Absorb(cfg, held, update))
       <==> Settled(cfg)
  {
    if Settled(cfg) {
      forall held, update
        ensures ProductionRequirements(cfg, Absorb(cfg, held, update)) == Absorb(cfg, held, update)
      {
        ProductionRunsWhatAnalysisValidated(cfg, held, update);
      }
    } else {
      NormalizeIdempotentIff(cfg);
      var r: Dict :| Normalize(cfg, Normalize(cfg, r)) != Normalize(cfg, r);
      assert ProductionRequirements(cfg, Absorb(cfg, map[], r)) != Absorb(cfg, map[], r);
    }
  }

  // ---------------------------------------------------------------- slots over a dialogue

  /** An update that cannot discard the slots collected so far. */
  predicate KeepsGlobal(update: Dict) {
    "global" in update ==> update["global"].Obj?
  }

  /** A slot answered earlier is still answered after a reply exactly when the reply's `global` is absent or
      an object. */
  lemma SlotSurvivesIff(cfg: AgentConfig, held: Dict, update: Dict, k: string)
    requires Get(held, "global").Obj? && NonNull(HeldSlots(held), k)
    ensures NonNull(HeldSlots(Absorb(cfg, held, update)), k) <==> KeepsGlobal(update)
  {
    var raw := Merge(held, update);
    AbsorbedHolds(cfg, held, update);
    if KeepsGlobal(update) {
      assert NonNull(raw["global"].fields, k);
      NormalizeSlotsKeepsNonNull(cfg, raw["global"].fields, k);
    } else {
      assert !Get(raw, "global").Obj?;
      assert SplitCities(Get(map[], "city_sequence")) == [];
      assert GlobalSlots(cfg, raw) == map[];
    }
  }

  function AbsorbAll(cfg: AgentConfig, held: Dict, updates: seq<Dict>): Dict
    decreases |updates|
  {
    if updates == [] then held else AbsorbAll(cfg, Absorb(cfg, held, updates[0]), updates[1..])
  }

  /** Over any run of replies whose `global` is absent or an object, an answered slot stays answered. */
  lemma {:induction false} SlotSurvivesDialogue(cfg: AgentConfig, held: Dict, updates: seq<Dict>, k: string)
    requires Get(held, "global").Obj? && NonNull(HeldSlots(held), k)
    requires forall u :: u in updates ==> KeepsGlobal(u)
    ensures NonNull(HeldSlots(AbsorbAll(cfg, held, updates)), k)
    decreases |updates|
  {
    if updates != [] {
      SlotSurvivesIff(cfg, held, updates[0], k);
      SlotSurvivesDialogue(cfg, Absorb(cfg, held, updates[0]), updates[1..], k);
    }
  }

  /** The slot's value after a reply that keeps `global`: the one given, unless it gives none or null. */
  function Given(update: Dict, k: string, before: Value): Value {
    if Get(update, "global").Obj? && NonNull(update["global"].fields, k) then update["global"].fields[k] else before
  }

  /** The last value given for the slot. */
  function LastGiven(updates: seq<Dict>, k: string, before: Value): Value {
    if updates == [] then before else LastGiven(updates[1..], k, Given(updates[0], k, before))
  }

  /** The slot is none of those that normalisation infers. */
  predicate NotInferred(cfg: AgentConfig, k: string) {
    cfg.agent != CHINA_TRANSPORT || k !in {"from_city", "to_city"}
  }

  lemma AbsorbGives(cfg: AgentConfig, held: Dict, update: Dict, k: string)
    requires KeepsGlobal(update) && NotInferred(cfg, k)
    ensures Get(HeldSlots(Absorb(cfg, held, update)), k) == Given(update, k, Get(HeldSlots(held), k))
  {
    var raw := if held != map[] then Merge(held, update) else update;
    AbsorbedHolds(cfg, held, update);
    var slots := if Get(raw, "global").Obj? then Get(raw, "global").fields else map[];
    if cfg.agent == CHINA_TRANSPORT {
      NormalizedSlotsMeaning(cfg, slots);
    }
    MergeMeaning(held, update, "global");
  }

  /** Over any run of replies that keep `global`, a slot that is not inferred has the last value given for it. */
  lemma {:induction false} LastAnswerStands(cfg: AgentConfig, held: Dict, updates: seq<Dict>, k: string)
    requires NotInferred(cfg, k) && forall u :: u in updates ==> KeepsGlobal(u)
    ensures Get(HeldSlots(AbsorbAll(cfg, held, updates)), k) == LastGiven(updates, k, Get(HeldSlots(held), k))
    decreases |updates|
  {
    if updates != [] {
      AbsorbGives(cfg, held, updates[0], k);
      LastAnswerStands(cfg, Absorb(cfg, held, updates[0]), updates[1..], k);
    }
  }
}
