/** The requirement dictionary of a Partner task: its JSON values, the merge of an analysis reply into it,
    and the normalisation of its slots and selected skills. */
module Requirements {
  import opened Basics
  import opened CitySequence
  import opened PyText

  /** A decoded JSON value. */
  datatype Value =
    | Null
    | Bool(b: bool)
    | Num(n: real)
    | Str(s: string)
    | List(items: seq<Value>)
    | Obj(fields: map<string, Value>)

  type Dict = map<string, Value>

  /** Python truthiness of a JSON value. */
  predicate Truthy(v: Value) {
    match v
    case Null => false
    case Bool(b) => b
    case Num(n) => n != 0.0
    case Str(s) => s != ""
    case List(items) => items != []
    case Obj(fields) => fields != map[]
  }

  /** The values that count as nothing. */
  lemma FalsyIff(v: Value)
    ensures !Truthy(v) <==> v in {Null, Bool(false), Num(0.0), Str(""), List([]), Obj(map[])}
  {
  }

  /** `d.get(k)`; a missing key reads as null. */
  function Get(d: Dict, k: string): Value {
    if k in d then d[k] else Null
  }

  predicate NonNull(d: Dict, k: string) {
    k in d && d[k] != Null
  }

  datatype SkillMeta = SkillMeta(required: seq<string>, anyOf: seq<seq<string>>)

  /** What a Partner loads from its configuration directory. `skillIds` are the keys of skills.toml in file
      order without `slot_labels`, `labels` is that table; `show` is Python's `str()` on JSON values. */
  datatype AgentConfig = AgentConfig(
    agent: string,
    hasSkills: bool,
    skillIds: seq<string>,
    meta: map<string, SkillMeta>,
    labels: map<string, string>,
    show: Value -> string,
    multiSkill: bool)

  const CHINA_TRANSPORT := "china_transport"
  const INTERCITY_SKILL := "china_transport.intercity-transportation-planning"
  const ROUTE_SKILL := "china_transport.route-optimization"

  // ---------------------------------------------------------------- merging

  function MergeSlots(base: Dict, update: Dict): (r: Dict)
    ensures forall k :: k in r <==> k in base || NonNull(update, k)
    ensures forall k :: k in r ==> r[k] == if NonNull(update, k) then update[k] else base[k]
  {
    base + (map k | k in update && update[k] != Null :: update[k])
  }

  function MergedAt(base: Dict, update: Dict, k: string): Value
    requires k in base || k in update
  {
    if k !in update then base[k]
    else if k in base && base[k].Obj? && update[k].Obj? then Obj(MergeSlots(base[k].fields, update[k].fields))
    else update[k]
  }

  function Merge(base: Dict, update: Dict): Dict {
    map k | k in base.Keys + update.Keys :: MergedAt(base, update, k)
  }

  /** The merge as the runner performs it: key by key into a copy of `base`, slot by slot for nested objects. */
  method DeepMerge(base: Dict, update: Dict) returns (result: Dict)
    ensures result == Merge(base, update)
  {
    result := base;
    var todo := update.Keys;
    while todo != {}
      invariant todo <= update.Keys
      invariant forall k :: k in result <==> k in base || (k in update && k !in todo)
      invariant forall k :: k in result ==>
        result[k] == if k in todo then base[k] else MergedAt(base, update, k)
      decreases |todo|
    {
      var key :| key in todo;
      if key in result && result[key].Obj? && update[key].Obj? {
        var merged := MergeInto(result[key].fields, update[key].fields);
        result := result[key := Obj(merged)];
      } else {
        result := result[key := update[key]];
      }
      todo := todo - {key};
    }
  }

  method MergeInto(slots: Dict, update: Dict) returns (merged: Dict)
    ensures merged == MergeSlots(slots, update)
  {
    merged := slots;
    var todo := update.Keys;
    while todo != {}
      invariant todo <= update.Keys
      invariant forall k :: k in merged <==> k in slots || (NonNull(update, k) && k !in todo)
      invariant forall k :: k in merged ==>
        merged[k] == if NonNull(update, k) && k !in todo then update[k] else slots[k]
      decreases |todo|
    {
      var k :| k in todo;
      if update[k] != Null {
        merged := merged[k := update[k]];
      }
      todo := todo - {k};
    }
    MergedSlots(slots, update, merged);
  }

  lemma MergedSlots(slots: Dict, update: Dict, merged: Dict)
    requires forall k :: k in merged <==> k in slots || NonNull(update, k)
    requires forall k :: k in merged ==> merged[k] == if NonNull(update, k) then update[k] else slots[k]
    ensures merged == MergeSlots(slots, update)
  {
  }

  /** What merging leaves at a key: the old value where nothing comes, the new one where either is no object, and of
      two objects the slots of both, the new one's where they are not null. */
  lemma MergeMeaning(base: Dict, update: Dict, k: string)
    ensures var r := Merge(base, update);
      && (k in r <==> k in base || k in update)
      && (k !in update ==> Get(r, k) == Get(base, k))
      && (k in update && !(update[k].Obj? && Get(base, k).Obj?) ==> r[k] == update[k])
      && (k in update && update[k].Obj? && Get(base, k).Obj? ==>
            && r[k].Obj?
            && (forall f :: NonNull(update[k].fields, f) ==> Get(r[k].fields, f) == update[k].fields[f])
            && (forall f :: !NonNull(update[k].fields, f) ==>
                  Get(r[k].fields, f) == Get(base[k].fields, f) && (f in r[k].fields <==> f in base[k].fields)))
  {
  }

  /** Merging `c` over `a` gives back `c` itself: `a` has no slot that `c` lacks or nulls away. */
  predicate Covers(c: Dict, a: Dict) {
    && (forall k :: k in a ==> k in c && (c[k] == Null ==> a[k] == Null))
    && (forall k :: k in c && c[k] == Null ==> k in a)
  }

  lemma MergeSlotsCovered(a: Dict, c: Dict)
    ensures MergeSlots(a, c) == c <==> Covers(c, a)
  {
    var m := MergeSlots(a, c);
    if m == c {
      forall k | k in a ensures k in c && (c[k] == Null ==> a[k] == Null) {
        assert k in m;
      }
      forall k | k in c && c[k] == Null ensures k in a {
        assert k in m;
      }
    }
    if Covers(c, a) {
      assert m.Keys == c.Keys;
    }
  }

  lemma MergeSlotsAssociative(a: Dict, b: Dict, c: Dict)
    ensures MergeSlots(MergeSlots(a, b), c) == MergeSlots(a, MergeSlots(b, c))
  {
    var l, r := MergeSlots(MergeSlots(a, b), c), MergeSlots(a, MergeSlots(b, c));
    assert forall k :: k in l <==> k in r;
    assert forall k :: k in l ==> l[k] == r[k];
  }

  /** The one shape on which merging three times depends on the grouping: an object overwritten by a
      non-object and then by an object that does not cover the first. */
  predicate Regroups(a: Dict, b: Dict, c: Dict, k: string) {
    && k in a && a[k].Obj? && k in b && !b[k].Obj? && k in c && c[k].Obj?
    && !Covers(c[k].fields, a[k].fields)
  }

  lemma MergeAssociativeAt(a: Dict, b: Dict, c: Dict, k: string)
    requires k in a.Keys + b.Keys + c.Keys
    ensures Merge(Merge(a, b), c)[k] == Merge(a, Merge(b, c))[k] <==> !Regroups(a, b, c, k)
  {
    if k in a && a[k].Obj? && k in c && c[k].Obj? {
      if k in b {
        if b[k].Obj? {
          MergeSlotsAssociative(a[k].fields, b[k].fields, c[k].fields);
        } else {
          MergeSlotsCovered(a[k].fields, c[k].fields);
        }
      }
    }
  }

  /** Merging is associative exactly when no key is regrouped. In particular it is when the keys of the
      three dictionaries agree on being objects or not. */
  lemma MergeAssociativeIff(a: Dict, b: Dict, c: Dict)
    ensures Merge(Merge(a, b), c) == Merge(a, Merge(b, c)) <==> forall k :: !Regroups(a, b, c, k)
  {
    var l, r := Merge(Merge(a, b), c), Merge(a, Merge(b, c));
    assert l.Keys == r.Keys == a.Keys + b.Keys + c.Keys;
    forall k | k in l.Keys ensures l[k] == r[k] <==> !Regroups(a, b, c, k) {
      MergeAssociativeAt(a, b, c, k);
    }
    if l == r {
      forall k ensures !Regroups(a, b, c, k) {
        if k in l.Keys { assert l[k] == r[k]; }
      }
    }
  }

  // ---------------------------------------------------------------- cities

  function SplitCities(v: Value): (tokens: seq<string>)
    ensures "" !in tokens
  {
    if v.Str? then SplitText(v.s) else []
  }

  method SplitCitySequence(v: Value) returns (tokens: seq<string>)
    ensures tokens == SplitCities(v)
  {
    tokens := [];
    if v.Str? {
      tokens := SplitSequence(v.s);
    }
  }

  /** The first token different from `city`, if any. */
  function FirstOther(tokens: seq<string>, city: string): Option<string> {
    if tokens == [] then None
    else if tokens[0] != city then Some(tokens[0])
    else FirstOther(tokens[1..], city)
  }

  function InferDestination(cfg: AgentConfig, from: Value, tokens: seq<string>): (r: Option<string>)
    ensures r.Some? ==> r.value in tokens
  {
    if |tokens| < 2 then None
    else
      var city := if Truthy(from) then Strip(cfg.show(from)) else "";
      FirstOtherIsToken(tokens[1..], city);
      match FirstOther(tokens[1..], city)
      case Some(t) => Some(t)
      case None => Some(tokens[1])
  }

  method InferDestinationFromSequence(cfg: AgentConfig, from: Value, tokens: seq<string>) returns (r: Option<string>)
    ensures r == InferDestination(cfg, from, tokens)
  {
    if |tokens| < 2 {
      return None;
    }
    var city := if Truthy(from) then Strip(cfg.show(from)) else "";
    for i := 1 to |tokens|
      invariant FirstOther(tokens[1..], city) == FirstOther(tokens[i..], city)
    {
      if tokens[i] != city {
        return Some(tokens[i]);
      }
      assert tokens[i..][1..] == tokens[i + 1..];
    }
    return Some(tokens[1]);
  }

  lemma FirstOtherIsToken(tokens: seq<string>, city: string)
    ensures FirstOther(tokens, city).Some? ==> FirstOther(tokens, city).value in tokens
  {
  }

  function WithOrigin(slots: Dict, tokens: seq<string>): Dict
    requires tokens != []
  {
    if Truthy(Get(slots, "from_city")) then slots else slots["from_city" := Str(tokens[0])]
  }

  function WithDestination(cfg: AgentConfig, slots: Dict, tokens: seq<string>): Dict {
    var origin := Get(slots, "from_city");
    var destination := Get(slots, "to_city");
    var inferred := InferDestination(cfg, origin, tokens);
    if inferred.Some? && (!Truthy(destination) || Strip(cfg.show(destination)) == Strip(cfg.show(origin)))
    then slots["to_city" := Str(inferred.value)]
    else slots
  }

  function NormalizeChinaSlots(cfg: AgentConfig, slots: Dict): Dict {
    var tokens := SplitCities(Get(slots, "city_sequence"));
    if tokens == [] then slots else WithDestination(cfg, WithOrigin(slots, tokens), tokens)
  }

  /** The slots normalised in place, in a copy. */
  method NormalizeTransportSlots(cfg: AgentConfig, slots: Dict) returns (normalized: Dict)
    ensures normalized == NormalizeChinaSlots(cfg, slots)
  {
    normalized := slots;
    var tokens := SplitCitySequence(Get(slots, "city_sequence"));
    if tokens == [] {
      return;
    }
    if !Truthy(Get(normalized, "from_city")) {
      normalized := normalized["from_city" := Str(tokens[0])];
    }
    var inferred := InferDestinationFromSequence(cfg, Get(normalized, "from_city"), tokens);
    var destination, origin := Get(normalized, "to_city"), Get(normalized, "from_city");
    if inferred.Some? && (!Truthy(destination) || Strip(cfg.show(destination)) == Strip(cfg.show(origin))) {
      normalized := normalized["to_city" := Str(inferred.value)];
    }
  }

  function NormalizeSlots(cfg: AgentConfig, slots: Dict): Dict {
    if cfg.agent == CHINA_TRANSPORT then NormalizeChinaSlots(cfg, slots) else slots
  }

  lemma {:induction false} FirstOtherMeaning(tokens: seq<string>, city: string)
    ensures match FirstOther(tokens, city)
      case None => forall j :: 0 <= j < |tokens| ==> tokens[j] == city
      case Some(t) => exists i :: 0 <= i < |tokens| && tokens[i] == t != city && forall j :: 0 <= j < i ==> tokens[j] == city
  {
    if tokens != [] && tokens[0] == city {
      var rest := tokens[1..];
      FirstOtherMeaning(rest, city);
      assert forall j :: 0 < j < |tokens| ==> tokens[j] == rest[j - 1];
      if FirstOther(rest, city).Some? {
        var i :| 0 <= i < |rest| && rest[i] == FirstOther(rest, city).value != city
                 && forall j :: 0 <= j < i ==> rest[j] == city;
        assert tokens[i + 1] == rest[i];
      }
    }
  }

  /** The destination taken from a city sequence: its first city after the start that is not the origin, or, if
      all are, the second. */
  predicate InferredDestination(tokens: seq<string>, origin: string, destination: string) {
    if forall j :: 1 <= j < |tokens| ==> tokens[j] == origin then |tokens| >= 2 && destination == tokens[1]
    else destination != origin
         && exists i :: 1 <= i < |tokens| && tokens[i] == destination && forall j :: 1 <= j < i ==> tokens[j] == origin
  }

  /** What normalisation does to the slots of the transport agent: a given origin stays, a missing one is the
      first city; a given destination stays unless it is the origin, and otherwise is inferred; nothing else
      changes, and nothing at all without a city sequence. */
  lemma NormalizedSlotsMeaning(cfg: AgentConfig, slots: Dict)
    requires cfg.agent == CHINA_TRANSPORT
    ensures var r, tokens := NormalizeSlots(cfg, slots), SplitCities(Get(slots, "city_sequence"));
      var from, to, origin := Get(slots, "from_city"), Get(slots, "to_city"), Get(r, "from_city");
      && (forall k :: k !in {"from_city", "to_city"} ==> (k in r <==> k in slots) && Get(r, k) == Get(slots, k))
      && (tokens == [] ==> r == slots)
      && (tokens != [] ==>
            && origin == (if Truthy(from) then from else Str(tokens[0]))
            && if |tokens| < 2 || (Truthy(to) && Strip(cfg.show(to)) != Strip(cfg.show(origin))) then Get(r, "to_city") == to
               else Get(r, "to_city").Str? && InferredDestination(tokens, Strip(cfg.show(origin)), Get(r, "to_city").s))
  {
    var tokens := SplitCities(Get(slots, "city_sequence"));
    if tokens != [] {
      WithOriginMeaning(slots, tokens);
      WithDestinationMeaning(cfg, WithOrigin(slots, tokens), tokens);
    }
  }

  lemma WithOriginMeaning(slots: Dict, tokens: seq<string>)
    requires tokens != [] && "" !in tokens
    ensures var r, from := WithOrigin(slots, tokens), Get(slots, "from_city");
      && (forall k :: k != "from_city" ==> (k in r <==> k in slots) && Get(r, k) == Get(slots, k))
      && Get(r, "from_city") == (if Truthy(from) then from else Str(tokens[0]))
      && Truthy(Get(r, "from_city"))
  {
    assert tokens[0] in tokens;
  }

  lemma WithDestinationMeaning(cfg: AgentConfig, slots: Dict, tokens: seq<string>)
    requires Truthy(Get(slots, "from_city"))
    ensures var r, to, origin := WithDestination(cfg, slots, tokens), Get(slots, "to_city"), Get(slots, "from_city");
      && (forall k :: k != "to_city" ==> (k in r <==> k in slots) && Get(r, k) == Get(slots, k))
      && if |tokens| < 2 || (Truthy(to) && Strip(cfg.show(to)) != Strip(cfg.show(origin))) then Get(r, "to_city") == to
         else Get(r, "to_city").Str? && InferredDestination(tokens, Strip(cfg.show(origin)), Get(r, "to_city").s)
  {
    InferMeaning(cfg, Get(slots, "from_city"), tokens);
  }

  lemma InferMeaning(cfg: AgentConfig, origin: Value, tokens: seq<string>)
    requires Truthy(origin)
    ensures match InferDestination(cfg, origin, tokens)
      case None => |tokens| < 2
      case Some(t) => |tokens| >= 2 && InferredDestination(tokens, Strip(cfg.show(origin)), t)
  {
    if |tokens| >= 2 {
      var rest, city := tokens[1..], Strip(cfg.show(origin));
      FirstOtherMeaning(rest, city);
      assert forall j :: 1 <= j < |tokens| ==> tokens[j] == rest[j - 1];
      if FirstOther(rest, city).Some? {
        var t := FirstOther(rest, city).value;
        var i :| 0 <= i < |rest| && rest[i] == t != city && forall j :: 0 <= j < i ==> rest[j] == city;
        assert tokens[i + 1] == t;
      }
    }
  }

  /** Once there is an origin, inferring the destination twice changes nothing more. */
  lemma WithDestinationTwice(cfg: AgentConfig, slots: Dict, tokens: seq<string>)
    ensures var once := WithDestination(cfg, slots, tokens);
      && WithDestination(cfg, once, tokens) == once
      && Get(once, "from_city") == Get(slots, "from_city") && Get(once, "city_sequence") == Get(slots, "city_sequence")
  {
    var once := WithDestination(cfg, slots, tokens);
    if once != slots {
      assert once["to_city" := once["to_city"]] == once;
    }
  }

  lemma NormalizeSlotsIdempotent(cfg: AgentConfig, slots: Dict)
    ensures NormalizeSlots(cfg, NormalizeSlots(cfg, slots)) == NormalizeSlots(cfg, slots)
  {
    var tokens := SplitCities(Get(slots, "city_sequence"));
    if cfg.agent == CHINA_TRANSPORT && tokens != [] {
      assert tokens[0] in tokens;
      var first := WithOrigin(slots, tokens);
      assert Truthy(Get(first, "from_city"));
      assert Get(first, "city_sequence") == Get(slots, "city_sequence");
      WithDestinationTwice(cfg, first, tokens);
    }
  }

  lemma NormalizeSlotsKeepsNonNull(cfg: AgentConfig, slots: Dict, k: string)
    requires NonNull(slots, k)
    ensures NonNull(NormalizeSlots(cfg, slots), k)
  {
  }

  // ---------------------------------------------------------------- skill ids

  function WithSuffix(ids: seq<string>, suffix: string): (r: seq<string>)
    ensures forall c :: c in r <==> c in ids && EndsWith(c, Dotted(suffix))
  {
    if ids == [] then []
    else (if EndsWith(ids[0], Dotted(suffix)) then [ids[0]] else []) + WithSuffix(ids[1..], suffix)
  }

  function Preferred(cfg: AgentConfig, suffix: string): string {
    cfg.agent + Dotted(suffix)
  }

  function Canonicalize(cfg: AgentConfig, id: string): (r: Option<string>)
    ensures r.Some? ==> r.value in cfg.skillIds
  {
    Lookup(cfg, Strip(id))
  }

  /** The configured id for a trimmed name: the name itself, or one with the same last component. */
  function Lookup(cfg: AgentConfig, name: string): (r: Option<string>)
    ensures r.Some? ==> r.value in cfg.skillIds
  {
    if name == "" then None
    else if name in cfg.skillIds then Some(name)
    else LookupSuffix(cfg, AfterLastDot(name))
  }

  function LookupSuffix(cfg: AgentConfig, suffix: string): (r: Option<string>)
    ensures r.Some? ==> r.value in cfg.skillIds && EndsWith(r.value, Dotted(suffix))
  {
    if Preferred(cfg, suffix) in cfg.skillIds then Some(Preferred(cfg, suffix))
    else
      var matches := WithSuffix(cfg.skillIds, suffix);
      if |matches| == 1 then assert matches[0] in matches; Some(matches[0]) else None
  }

  /** Of the ids only the one at place `i` ends with a dot and the suffix. */
  predicate OnlyAt(ids: seq<string>, suffix: string, i: nat) {
    && i < |ids| && EndsWith(ids[i], Dotted(suffix))
    && forall j :: 0 <= j < |ids| && j != i ==> !EndsWith(ids[j], Dotted(suffix))
  }

  lemma {:induction false} OneMatch(ids: seq<string>, suffix: string) returns (i: nat)
    requires |WithSuffix(ids, suffix)| == 1
    ensures OnlyAt(ids, suffix, i) && WithSuffix(ids, suffix) == [ids[i]]
  {
    var rest := ids[1..];
    if EndsWith(ids[0], Dotted(suffix)) {
      i := 0;
      forall j | 0 <= j < |ids| && j != i ensures !EndsWith(ids[j], Dotted(suffix)) {
        assert rest[j - 1] == ids[j] && rest[j - 1] in rest;
        assert ids[j] !in WithSuffix(rest, suffix);
      }
    } else {
      var k := OneMatch(rest, suffix);
      i := k + 1;
      forall j | 0 <= j < |ids| && j != i ensures !EndsWith(ids[j], Dotted(suffix)) {
        if j > 0 { assert rest[j - 1] == ids[j]; }
      }
    }
  }

  lemma NoneMatches(ids: seq<string>, suffix: string)
    requires forall j :: 0 <= j < |ids| ==> !EndsWith(ids[j], Dotted(suffix))
    ensures WithSuffix(ids, suffix) == []
  {
  }

  lemma {:induction false} OnlyOneMatches(ids: seq<string>, suffix: string, i: nat)
    requires OnlyAt(ids, suffix, i)
    ensures WithSuffix(ids, suffix) == [ids[i]]
  {
    var rest := ids[1..];
    assert forall j :: 0 <= j < |rest| ==> rest[j] == ids[j + 1];
    if i > 0 {
      OnlyOneMatches(rest, suffix, i - 1);
    } else {
      NoneMatches(rest, suffix);
    }
  }

  /** The configured id `c` is the only one, at one place, that ends with a dot and the suffix. */
  ghost predicate OnlyWithSuffix(cfg: AgentConfig, suffix: string, c: string) {
    exists i: nat :: OnlyAt(cfg.skillIds, suffix, i) && cfg.skillIds[i] == c
  }

  lemma LookupSuffixMeaning(cfg: AgentConfig, suffix: string, c: string)
    requires Preferred(cfg, suffix) !in cfg.skillIds
    ensures LookupSuffix(cfg, suffix) == Some(c) <==> OnlyWithSuffix(cfg, suffix, c)
  {
    if |WithSuffix(cfg.skillIds, suffix)| == 1 {
      var i := OneMatch(cfg.skillIds, suffix);
    }
    if i: nat :| OnlyAt(cfg.skillIds, suffix, i) && cfg.skillIds[i] == c {
      OnlyOneMatches(cfg.skillIds, suffix, i);
    }
  }

  /** Which configured id a given one stands for: itself once trimmed; or, by its last component, that of the agent
      itself, or else the only one there is. */
  lemma CanonicalMeaning(cfg: AgentConfig, id: string, c: string)
    ensures var name := Strip(id);
      var suffix := AfterLastDot(name);
      Canonicalize(cfg, id) == Some(c) <==>
        && name != ""
        && if name in cfg.skillIds then c == name
           else if cfg.agent + "." + suffix in cfg.skillIds then c == cfg.agent + "." + suffix
           else OnlyWithSuffix(cfg, suffix, c)
  {
    var suffix := AfterLastDot(Strip(id));
    assert cfg.agent + "." + suffix == Preferred(cfg, suffix);
    if Preferred(cfg, suffix) !in cfg.skillIds {
      LookupSuffixMeaning(cfg, suffix, c);
    }
  }

  /** A suffix as it can come out of a trimmed id: no dot, no trailing white space. */
  predicate PlainSuffix(suffix: string) {
    '.' !in suffix && (suffix != "" ==> !IsSpace(suffix[|suffix| - 1]))
  }

  /** Two configured ids, one of them the agent-qualified form of the suffix, that differ only in the white
      space in front: the only way canonicalising twice can change the answer. */
  predicate ShadowedBy(cfg: AgentConfig, id: string, suffix: string) {
    && PlainSuffix(suffix) && id == Preferred(cfg, suffix)
    && id in cfg.skillIds && Strip(id) in cfg.skillIds && Strip(id) != id
  }

  predicate Shadowed(cfg: AgentConfig) {
    exists id :: id in cfg.skillIds && ShadowedBy(cfg, id, AfterLastDot(id))
  }

  lemma NoShadowWhenAgentNameTrimmed(cfg: AgentConfig)
    requires cfg.agent != "" ==> !IsSpace(cfg.agent[0])
    ensures !Shadowed(cfg)
  {
    forall id, suffix | PlainSuffix(suffix) && id == Preferred(cfg, suffix) ensures Strip(id) == id {
      assert !IsSpace('.');
      assert id[0] == if cfg.agent != "" then cfg.agent[0] else '.';
      assert id[|id| - 1] == if suffix != "" then suffix[|suffix| - 1] else '.';
    }
  }

  lemma StripOfDotted(prefix: string, suffix: string)
    requires PlainSuffix(suffix)
    ensures Strip(prefix + Dotted(suffix)) == TrimLeft(IsSpace, prefix) + Dotted(suffix)
  {
    StripAppend(prefix, Dotted(suffix));
  }

  lemma SplitAtSuffix(id: string, suffix: string) returns (prefix: string)
    requires EndsWith(id, Dotted(suffix))
    ensures id == prefix + Dotted(suffix)
  {
    prefix := id[..|id| - |suffix| - 1];
    assert id == prefix + id[|id| - |suffix| - 1..];
  }

  lemma StripSuffixIsPlain(id: string)
    ensures PlainSuffix(AfterLastDot(Strip(id)))
  {
    var name, suffix := Strip(id), AfterLastDot(Strip(id));
    if suffix != "" {
      assert suffix[|suffix| - 1] == name[|name| - 1];
    }
  }

  /** Stripping a dotted id only shortens what precedes its last dot. */
  lemma StripKeepsSuffix(c: string, suffix: string)
    requires PlainSuffix(suffix) && EndsWith(c, Dotted(suffix))
    ensures Strip(c) != "" && EndsWith(Strip(c), Dotted(suffix))
    ensures AfterLastDot(Strip(c)) == suffix == AfterLastDot(c)
  {
    var prefix := SplitAtSuffix(c, suffix);
    StripOfDotted(prefix, suffix);
    AfterLastDotOfJoin(prefix, suffix);
    AfterLastDotOfJoin(TrimLeft(IsSpace, prefix), suffix);
  }

  /** A canonical id is its own canonical form unless it shadows another; configured ids need not be trimmed for
      this. */
  lemma CanonicalStable(cfg: AgentConfig, id: string)
    requires Canonicalize(cfg, id).Some?
    ensures var c := Canonicalize(cfg, id).value;
      !ShadowedBy(cfg, c, AfterLastDot(c)) <==> Canonicalize(cfg, c) == Some(c)
  {
    var name, c := Strip(id), Canonicalize(cfg, id).value;
    if ShadowedBy(cfg, c, AfterLastDot(c)) {
      ConfiguredStripIsAnswer(cfg, c, AfterLastDot(c));
    } else if name in cfg.skillIds {
      TrimGivesTrimmed(IsSpace, id);
      TrimmedIsFixed(IsSpace, name);
    } else {
      StripSuffixIsPlain(id);
      StripKeepsSuffix(c, AfterLastDot(name));
      LookupAgain(cfg, AfterLastDot(name), Strip(c));
    }
  }

  /** Without an agent-qualified id, the id with the suffix is the only one. */
  lemma OnlyMatch(cfg: AgentConfig, suffix: string, id: string)
    requires LookupSuffix(cfg, suffix).Some? && Preferred(cfg, suffix) !in cfg.skillIds
    requires id in cfg.skillIds && EndsWith(id, Dotted(suffix))
    ensures LookupSuffix(cfg, suffix) == Some(id)
  {
    var matches := WithSuffix(cfg.skillIds, suffix);
    assert id in matches && |matches| == 1;
  }

  /** A trimmed form of the answer with the same last component is resolved to the same answer. */
  lemma LookupAgain(cfg: AgentConfig, suffix: string, stripped: string)
    requires LookupSuffix(cfg, suffix).Some? && stripped != ""
    requires AfterLastDot(stripped) == suffix && EndsWith(stripped, Dotted(suffix))
    requires Preferred(cfg, suffix) in cfg.skillIds && stripped in cfg.skillIds ==>
      stripped == LookupSuffix(cfg, suffix).value
    ensures Lookup(cfg, stripped) == LookupSuffix(cfg, suffix)
  {
    if stripped in cfg.skillIds && Preferred(cfg, suffix) !in cfg.skillIds {
      OnlyMatch(cfg, suffix, stripped);
    }
  }

  function Filler(n: nat): (s: string)
    ensures |s| == n && forall i :: 0 <= i < n ==> s[i] == 'x'
  {
    seq(n, _ => 'x')
  }

  lemma LongerThanAll(ids: seq<string>) returns (n: nat)
    ensures forall s :: s in ids ==> |s| < n
  {
    if ids == [] {
      n := 1;
    } else {
      var m := LongerThanAll(ids[1..]);
      n := if |ids[0]| < m then m else |ids[0]| + 1;
    }
  }

  /** An id too long to be configured is resolved to the agent-qualified id with its suffix. */
  lemma LongIdIsResolvedBySuffix(cfg: AgentConfig, suffix: string, n: nat)
    requires PlainSuffix(suffix) && Preferred(cfg, suffix) in cfg.skillIds
    requires forall s :: s in cfg.skillIds ==> |s| < n
    ensures Canonicalize(cfg, Filler(n) + Dotted(suffix)) == Some(Preferred(cfg, suffix))
  {
    var front := Filler(n);
    StripOfDotted(front, suffix);
    assert n == 0 || front[0] == 'x';
    assert TrimLeft(IsSpace, front) == front;
    LookupLong(cfg, front, suffix);
  }

  lemma LookupLong(cfg: AgentConfig, front: string, suffix: string)
    requires '.' !in suffix && Preferred(cfg, suffix) in cfg.skillIds
    requires forall s :: s in cfg.skillIds ==> |s| < |front|
    ensures Lookup(cfg, front + Dotted(suffix)) == Some(Preferred(cfg, suffix))
  {
    AfterLastDotOfJoin(front, suffix);
  }

  lemma ConfiguredStripIsAnswer(cfg: AgentConfig, c: string, suffix: string)
    requires ShadowedBy(cfg, c, suffix)
    ensures Canonicalize(cfg, c) == Some(Strip(c))
  {
    StripOfDotted(cfg.agent, suffix);
    assert Strip(c) != "";
  }

  /** A shadowed configuration has an id whose canonical form is not canonical. */
  lemma ShadowedIsUnstable(cfg: AgentConfig) returns (id: string)
    requires Shadowed(cfg)
    ensures Canonicalize(cfg, id).Some?
    ensures Canonicalize(cfg, Canonicalize(cfg, id).value) != Canonicalize(cfg, id)
  {
    var c :| c in cfg.skillIds && ShadowedBy(cfg, c, AfterLastDot(c));
    var suffix := AfterLastDot(c);
    var n := LongerThanAll(cfg.skillIds);
    id := Filler(n) + Dotted(suffix);
    LongIdIsResolvedBySuffix(cfg, suffix, n);
    ConfiguredStripIsAnswer(cfg, c, suffix);
  }
}
