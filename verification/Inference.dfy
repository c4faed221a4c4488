/** The rule engine: inferred values, the contradictions it reports about itself, and the
    confidence of each field in whole hundredths. */
module Inference {
  import opened Gyms
  import opened MatchTiers
  import opened Features

  datatype Reason =
    | WaterAmenities | WellnessAmenities | ConvenienceAmenities | HasWebsite | HasOpeningHours
    | FromOpeningHours
    | StrengthAmenities | NameSuggestsStrength
    | MatchedCapabilities(specialty: string) | NameSuggestsSpecialty(specialty: string) | DefaultedToGeneral
    | PremiumScoreIs(score: nat) | AlwaysOpenAddsValue

  datatype Result<T> = Result(value: T, reasons: seq<Reason>)

  datatype Inferred = Inferred(
    premium: Result<nat>,
    alwaysOpen: Result<bool>,
    lifter: Result<bool>,
    specialty: Result<string>,
    tier: Result<string>)

  /******* The rule table *******/

  datatype Rule = Rule(specialty: string, capabilities: set<string>, keywords: seq<string>)

  const GENERAL := "general_fitness"

  const RULES := [
    Rule("crossfit", {"crossfit"}, ["crossfit"]),
    Rule("powerlifting", {"powerlifting", "strongman"}, ["powerlifting", "power", "barbell"]),
    Rule("olympic_weightlifting", {"olympic_weightlifting", "weightlifting"},
         ["weightlifting", "weightlifting club", "olympic"]),
    Rule("bodybuilding", {"bodybuilding"}, ["bodybuilding", "physique"]),
    Rule("boxing", {"boxing", "kickboxing"}, ["boxing", "kickboxing"]),
    Rule("martial_arts", {"martial_arts", "jiu_jitsu", "judo", "karate", "mma"},
         ["mma", "jiu", "jitsu", "martial", "dojo", "boxing gym"]),
    Rule("yoga", {"yoga", "pilates"}, ["yoga", "pilates"]),
    Rule("climbing", {"climbing", "bouldering"}, ["climbing", "bouldering"])]

  // The second table, by which contradictions are judged.
  const EXPECTED := map[
    "crossfit" := {"crossfit"},
    "powerlifting" := {"powerlifting", "strongman"},
    "olympic_weightlifting" := {"weightlifting", "olympic_weightlifting"},
    "bodybuilding" := {"bodybuilding"},
    "boxing" := {"boxing", "kickboxing"},
    "martial_arts" := {"martial_arts", "jiu_jitsu", "judo", "karate", "mma"},
    "yoga" := {"yoga", "pilates"},
    "climbing" := {"climbing", "bouldering"}]

  const STRENGTH := {"weightlifting", "powerlifting", "strongman", "olympic_weightlifting", "fitness"}
  const STRENGTH_KEYWORDS := ["barbell", "power", "strength"]
  const STRENGTH_SPECIALTIES := {"powerlifting", "olympic_weightlifting", "bodybuilding"}
  const NON_STRENGTH := {"boxing", "kickboxing", "martial_arts", "jiu_jitsu", "judo", "karate", "mma",
                         "yoga", "pilates", "climbing", "bouldering"}
  const HOUR_HINTS := ["24 hour", "24hr", "24/7"]

  predicate Meets(a: set<string>, b: set<string>) { a * b != {} }

  predicate NameHas(f: FeatureSet, keywords: seq<string>) {
    exists brand, k :: brand in f.brand && k in keywords && Contains(brand, k)
  }

  predicate Applies(f: FeatureSet, rule: Rule) {
    Meets(Capabilities(f), rule.capabilities) || NameHas(f, rule.keywords)
  }

  // Position of the first rule that applies, from `start` on; the table's length if none does.
  function FirstRule(f: FeatureSet, rules: seq<Rule>, start: nat): (r: nat)
    requires start <= |rules|
    ensures start <= r <= |rules|
    decreases |rules| - start
  {
    if start == |rules| || Applies(f, rules[start]) then start else FirstRule(f, rules, start + 1)
  }

  lemma {:induction false} FirstRuleIsFirst(f: FeatureSet, rules: seq<Rule>, start: nat)
    requires start <= |rules|
    ensures var r := FirstRule(f, rules, start);
            && (r < |rules| ==> Applies(f, rules[r]))
            && forall j :: start <= j < r ==> !Applies(f, rules[j])
    decreases |rules| - start
  {
    if start < |rules| && !Applies(f, rules[start]) {
      FirstRuleIsFirst(f, rules, start + 1);
    }
  }

  function ByRule(f: FeatureSet, rule: Rule): Result<string> {
    Result(rule.specialty,
           [if Meets(Capabilities(f), rule.capabilities) then MatchedCapabilities(rule.specialty)
            else NameSuggestsSpecialty(rule.specialty)])
  }

  function SpecialtyOf(f: FeatureSet, rules: seq<Rule>): Result<string> {
    var i := FirstRule(f, rules, 0);
    if i < |rules| then ByRule(f, rules[i]) else Result(GENERAL, [DefaultedToGeneral])
  }

  function LifterFriendly(f: FeatureSet): Result<bool> {
    if Meets(Capabilities(f), STRENGTH) then Result(true, [StrengthAmenities])
    else if NameHas(f, STRENGTH_KEYWORDS) then Result(true, [NameSuggestsStrength])
    else Result(false, [])
  }

  function Is247(f: FeatureSet): Result<bool> {
    if "24_7" in f.attributes then Result(true, [FromOpeningHours]) else Result(false, [])
  }

  const WATER := {"swimming_pool", "pool", "hot_tub", "spa"}
  const WELLNESS := {"sauna", "steam_room", "massage"}
  const CONVENIENCE := {"shower", "childcare", "cafe"}
  const PREMIUM_MAX := 10

  // Whether a signal finds its evidence.
  predicate Fires(f: FeatureSet, r: Reason) {
    match r
    case WaterAmenities => Meets(Capabilities(f), WATER)
    case WellnessAmenities => Meets(Capabilities(f), WELLNESS)
    case ConvenienceAmenities => Meets(Capabilities(f), CONVENIENCE)
    case HasWebsite => "website" in f.attributes
    case HasOpeningHours => "opening_hours" in f.attributes
    case _ => false
  }

  const SIGNALS := 5

  // The order in which the signals are asked.
  function Signal(n: nat): Reason {
    if n == 0 then WaterAmenities
    else if n == 1 then WellnessAmenities
    else if n == 2 then ConvenienceAmenities
    else if n == 3 then HasWebsite
    else HasOpeningHours
  }

  const ASKED := {WaterAmenities, WellnessAmenities, ConvenienceAmenities, HasWebsite, HasOpeningHours}

  // The signals that fire.
  function Evidence(f: FeatureSet): set<Reason> { set r | r in ASKED && Fires(f, r) }

  // The reasons among the first n signals that fire, in the order they are asked.
  function Fired(fires: set<Reason>, n: nat): seq<Reason>
    requires n <= SIGNALS
  {
    if n == 0 then []
    else if Signal(n - 1) in fires then Fired(fires, n - 1) + [Signal(n - 1)]
    else Fired(fires, n - 1)
  }

  function Weight(r: Reason): nat { if r.HasWebsite? || r.HasOpeningHours? then 1 else 2 }

  function TotalWeight(rs: seq<Reason>): nat {
    if rs == [] then 0 else TotalWeight(rs[..|rs| - 1]) + Weight(rs[|rs| - 1])
  }

  // The premium score is the weight of its reasons, capped.
  function Premium(f: FeatureSet): Result<nat> {
    var reasons := Fired(Evidence(f), SIGNALS);
    var total := TotalWeight(reasons);
    Result(if total < PREMIUM_MAX then total else PREMIUM_MAX, reasons)
  }

  function TierOf(premium: nat, alwaysOpen: bool): Result<string> {
    Result(if premium >= 7 then "premium" else if premium >= 3 then "mid" else "basic",
           [PremiumScoreIs(premium)] + if alwaysOpen then [AlwaysOpenAddsValue] else [])
  }

  function InferAll(f: FeatureSet): Inferred {
    var premium, alwaysOpen := Premium(f), Is247(f);
    Inferred(premium, alwaysOpen, LifterFriendly(f), SpecialtyOf(f, RULES), TierOf(premium.value, alwaysOpen.value))
  }

  /******* More tags, no worse inference *******/

  function TierRank(tier: string): nat { if tier == "premium" then 2 else if tier == "mid" then 1 else 0 }

  lemma MeetsGrows(g: set<string>, f: set<string>, b: set<string>)
    requires f <= g && Meets(f, b)
    ensures Meets(g, b)
  {
    var x :| x in f * b;
    assert x in g * b;
  }

  lemma AppliesGrows(g: FeatureSet, f: FeatureSet, rule: Rule)
    requires Covers(g, f) && Applies(f, rule)
    ensures Applies(g, rule)
  {
    if Meets(Capabilities(f), rule.capabilities) {
      MeetsGrows(Capabilities(g), Capabilities(f), rule.capabilities);
    }
  }

  lemma FiredStep(fires: set<Reason>, n: nat)
    requires n < SIGNALS
    ensures var now, r := Fired(fires, n), Signal(n);
            && Fired(fires, n + 1) == (if r in fires then now + [r] else now)
            && TotalWeight(Fired(fires, n + 1)) == TotalWeight(now) + (if r in fires then Weight(r) else 0)
  {
    var now := Fired(fires, n);
    assert (now + [Signal(n)])[..|now|] == now;
  }

  lemma FiresGrows(g: FeatureSet, f: FeatureSet, r: Reason)
    requires Covers(g, f) && Fires(f, r)
    ensures Fires(g, r)
  {
    var a, b := Capabilities(g), Capabilities(f);
    if r.WaterAmenities? {
      MeetsGrows(a, b, WATER);
    } else if r.WellnessAmenities? {
      MeetsGrows(a, b, WELLNESS);
    } else if r.ConvenienceAmenities? {
      MeetsGrows(a, b, CONVENIENCE);
    }
  }

  // The weight of the first n signals, without listing them.
  function Sum(fires: set<Reason>, n: nat): nat
    requires n <= SIGNALS
  {
    if n == 0 then 0 else Sum(fires, n - 1) + if Signal(n - 1) in fires then Weight(Signal(n - 1)) else 0
  }

  lemma {:induction false} WeightIsSum(fires: set<Reason>, n: nat)
    requires n <= SIGNALS
    ensures TotalWeight(Fired(fires, n)) == Sum(fires, n)
  {
    if n > 0 {
      WeightIsSum(fires, n - 1);
      FiredStep(fires, n - 1);
    }
  }

  lemma {:induction false} SumGrows(now: set<Reason>, was: set<Reason>, n: nat)
    requires n <= SIGNALS && was <= now
    ensures Sum(was, n) <= Sum(now, n)
  {
    if n > 0 {
      SumGrows(now, was, n - 1);
    }
  }

  lemma PremiumGrows(g: FeatureSet, f: FeatureSet)
    requires Covers(g, f)
    ensures Premium(f).value <= Premium(g).value
  {
    forall r | r in Evidence(f)
      ensures r in Evidence(g)
    {
      FiresGrows(g, f, r);
    }
    SumGrows(Evidence(g), Evidence(f), SIGNALS);
    WeightIsSum(Evidence(f), SIGNALS);
    WeightIsSum(Evidence(g), SIGNALS);
  }

  function Groups(f: FeatureSet): nat {
    (if Fires(f, WaterAmenities) then 1 else 0) + (if Fires(f, WellnessAmenities) then 1 else 0)
    + (if Fires(f, ConvenienceAmenities) then 1 else 0)
  }

  function Extras(f: FeatureSet): nat {
    (if Fires(f, HasWebsite) then 1 else 0) + (if Fires(f, HasOpeningHours) then 1 else 0)
  }

  lemma SumByGroups(fires: set<Reason>)
    ensures Sum(fires, 5) == 2 * ((if WaterAmenities in fires then 1 else 0)
                                  + (if WellnessAmenities in fires then 1 else 0)
                                  + (if ConvenienceAmenities in fires then 1 else 0))
                             + (if HasWebsite in fires then 1 else 0) + (if HasOpeningHours in fires then 1 else 0)
  {
    assert Sum(fires, 2) == Sum(fires, 1) + if WellnessAmenities in fires then 2 else 0;
    assert Sum(fires, 4) == Sum(fires, 3) + if HasWebsite in fires then 1 else 0;
  }

  /** What the tiers mean: premium takes all three amenity groups and a website or opening hours;
      mid two groups, or one of them with a website or opening hours. The cap never binds. */
  lemma TierMeaning(f: FeatureSet)
    ensures var tier := InferAll(f).tier.value;
            && (tier == "premium" <==> Groups(f) == 3 && Extras(f) >= 1)
            && (tier == "basic" <==> Groups(f) == 0 || (Groups(f) == 1 && Extras(f) == 0))
            && Premium(f).value == 2 * Groups(f) + Extras(f)
  {
    WeightIsSum(Evidence(f), SIGNALS);
    SumByGroups(Evidence(f));
  }

  lemma LifterGrows(g: FeatureSet, f: FeatureSet)
    requires Covers(g, f)
    ensures LifterFriendly(f).value ==> LifterFriendly(g).value
  {
    if Meets(Capabilities(f), STRENGTH) {
      MeetsGrows(Capabilities(g), Capabilities(f), STRENGTH);
    }
  }

  lemma SpecialtyOnlyMovesUp(g: FeatureSet, f: FeatureSet, rules: seq<Rule>)
    requires Covers(g, f)
    ensures FirstRule(g, rules, 0) <= FirstRule(f, rules, 0)
  {
    FirstRuleIsFirst(f, rules, 0);
    FirstRuleIsFirst(g, rules, 0);
    var r := FirstRule(f, rules, 0);
    if r < |rules| {
      AppliesGrows(g, f, rules[r]);
    }
  }

  lemma TierGrows(p: nat, q: nat, open1: bool, open2: bool)
    requires p <= q
    ensures TierRank(TierOf(p, open1).value) <= TierRank(TierOf(q, open2).value)
  {
  }

  // Every inferred value is at least as good, and the specialty's rule at least as early.
  ghost predicate NoWorse(now: FeatureSet, was: FeatureSet) {
    var current, previous := InferAll(now), InferAll(was);
    && previous.premium.value <= current.premium.value
    && TierRank(previous.tier.value) <= TierRank(current.tier.value)
    && (previous.alwaysOpen.value ==> current.alwaysOpen.value)
    && (previous.lifter.value ==> current.lifter.value)
    && FirstRule(now, RULES, 0) <= FirstRule(was, RULES, 0)
  }

  lemma CoverageNeverWorsens(g: FeatureSet, f: FeatureSet)
    requires Covers(g, f)
    ensures NoWorse(g, f)
  {
    PremiumGrows(g, f);
    TierGrows(Premium(f).value, Premium(g).value, Is247(f).value, Is247(g).value);
    LifterGrows(g, f);
    SpecialtyOnlyMovesUp(g, f, RULES);
  }

  /** Extending a tag map never lowers the premium score or the tier, never turns 24/7 or
      lifter-friendly from true to false, and only moves the specialty to an earlier rule. */
  lemma InferenceNeverWorsens(more: Tags, tags: Tags, text: Text)
    requires Extends(more, tags)
    ensures NoWorse(Extracted(more, text), Extracted(tags, text))
  {
    FeaturesGrow(more, tags, text);
    CoverageNeverWorsens(Extracted(more, text), Extracted(tags, text));
  }

  /******* Contradictions *******/

  datatype Contradiction =
    | MissingCapability | StrengthConflict | NameWithoutStrength
    | NoStrengthAmenities
    | HoursNotConfirmed

  datatype Field = PremiumScore | AlwaysOpenField | LifterField | SpecialtyField | TierField

  predicate NameSuggests(rs: seq<Reason>) {
    exists i :: 0 <= i < |rs| && (rs[i].NameSuggestsStrength? || rs[i].NameSuggestsSpecialty?)
  }

  function When(c: bool, what: Contradiction): seq<Contradiction> { if c then [what] else [] }

  predicate LacksExpected(f: FeatureSet, specialty: string) {
    specialty in EXPECTED && EXPECTED[specialty] != {} && !Meets(Capabilities(f), EXPECTED[specialty])
  }

  predicate ConflictsWithActivity(f: FeatureSet, specialty: string) {
    specialty in STRENGTH_SPECIALTIES && Meets(Capabilities(f), NON_STRENGTH) && !Meets(Capabilities(f), STRENGTH)
  }

  predicate LifterUnsupported(f: FeatureSet, lifter: bool) { lifter && !Meets(Capabilities(f), STRENGTH) }

  function SpecialtyContradictions(f: FeatureSet, inf: Inferred): seq<Contradiction> {
    When(LacksExpected(f, inf.specialty.value), MissingCapability)
    + When(ConflictsWithActivity(f, inf.specialty.value), StrengthConflict)
    + When(LifterUnsupported(f, inf.lifter.value) && NameSuggests(inf.specialty.reasons), NameWithoutStrength)
  }

  function LifterContradictions(f: FeatureSet, inf: Inferred): seq<Contradiction> {
    When(LifterUnsupported(f, inf.lifter.value), NoStrengthAmenities)
  }

  function HoursContradictions(f: FeatureSet, inf: Inferred): seq<Contradiction> {
    When(!inf.alwaysOpen.value && NameHas(f, HOUR_HINTS), HoursNotConfirmed)
  }

  // The dictionary's view of a field: an absent key reads as the empty list.
  function Listed(found: map<Field, seq<Contradiction>>, field: Field): seq<Contradiction> {
    if field in found then found[field] else []
  }

  function Noted(found: map<Field, seq<Contradiction>>, field: Field, c: Contradiction): map<Field,
                 seq<Contradiction>> {
    found[field := Listed(found, field) + [c]]
  }

  // The two contradictions that only concern the specialty.
  method CheckSpecialty(f: FeatureSet, specialty: string) returns (found: map<Field, seq<Contradiction>>)
    ensures Listed(found, SpecialtyField)
            == When(LacksExpected(f, specialty), MissingCapability)
               + When(ConflictsWithActivity(f, specialty), StrengthConflict)
    ensures forall field :: field in found ==> field == SpecialtyField && found[field] != []
  {
    found := map[];
    if LacksExpected(f, specialty) {
      found := Noted(found, SpecialtyField, MissingCapability);
    }
    if ConflictsWithActivity(f, specialty) {
      found := Noted(found, SpecialtyField, StrengthConflict);
    }
  }

  /** Fills the dictionary step by step; a field has an entry exactly when something is wrong
      with it. */
  method DetectContradictions(f: FeatureSet, inf: Inferred) returns (found: map<Field, seq<Contradiction>>)
    ensures Listed(found, SpecialtyField) == SpecialtyContradictions(f, inf)
    ensures Listed(found, LifterField) == LifterContradictions(f, inf)
    ensures Listed(found, AlwaysOpenField) == HoursContradictions(f, inf)
    ensures forall field :: field in found ==>
              (field.SpecialtyField? || field.LifterField? || field.AlwaysOpenField?) && found[field] != []
  {
    found := CheckSpecialty(f, inf.specialty.value);
    var unsupported, hinted := LifterUnsupported(f, inf.lifter.value), NameHas(f, HOUR_HINTS);
    if unsupported {
      found := Noted(found, LifterField, NoStrengthAmenities);
      if NameSuggests(inf.specialty.reasons) {
        found := Noted(found, SpecialtyField, NameWithoutStrength);
      }
    }
    if !inf.alwaysOpen.value && hinted {
      found := Noted(found, AlwaysOpenField, HoursNotConfirmed);
    }
  }

  // How a specialty was chosen.
  predicate CapabilityBacked(f: FeatureSet) {
    var i := FirstRule(f, RULES, 0);
    i < |RULES| && Meets(Capabilities(f), RULES[i].capabilities)
  }

  predicate NameOnly(f: FeatureSet) {
    var i := FirstRule(f, RULES, 0);
    i < |RULES| && !Meets(Capabilities(f), RULES[i].capabilities)
  }

  /** The rule table and the expectation table agree, entry by entry. */
  lemma TablesAgree(i: nat)
    requires i < |RULES|
    ensures RULES[i].specialty in EXPECTED && EXPECTED[RULES[i].specialty] == RULES[i].capabilities
    ensures RULES[i].capabilities != {} && RULES[i].specialty != GENERAL
  {
    TableEntries();
    assert i == 0 || i == 1 || i == 2 || i == 3 || i == 4 || i == 5 || i == 6 || i == 7;
  }

  ghost predicate EntryAgrees(rule: Rule) {
    && rule.specialty in EXPECTED && EXPECTED[rule.specialty] == rule.capabilities
    && rule.capabilities != {} && rule.specialty != GENERAL
  }

  lemma TableEntries()
    ensures EntryAgrees(RULES[0]) && EntryAgrees(RULES[1]) && EntryAgrees(RULES[2]) && EntryAgrees(RULES[3])
    ensures EntryAgrees(RULES[4]) && EntryAgrees(RULES[5]) && EntryAgrees(RULES[6]) && EntryAgrees(RULES[7])
  {
  }

  /** The missing-capability contradiction is reported exactly for a non-general specialty chosen
      from the name alone. */
  lemma MissingCapabilityIffNameOnly(f: FeatureSet)
    ensures var inf := InferAll(f);
            && (MissingCapability in SpecialtyContradictions(f, inf) <==> NameOnly(f))
            && (NameOnly(f) <==> inf.specialty.value != GENERAL && NameSuggests(inf.specialty.reasons))
  {
    SpecialtyEvidence(f);
  }

  lemma SpecialtyEvidence(f: FeatureSet)
    ensures var s := SpecialtyOf(f, RULES);
            && (NameOnly(f) <==> LacksExpected(f, s.value))
            && (NameOnly(f) <==> NameSuggests(s.reasons))
            && (NameOnly(f) || CapabilityBacked(f) <==> s.value != GENERAL)
            && (CapabilityBacked(f) <==> s.value in EXPECTED && Meets(Capabilities(f), EXPECTED[s.value]))
  {
    var i := FirstRule(f, RULES, 0);
    if i < |RULES| {
      TablesAgree(i);
      assert NameOnly(f) ==> ByRule(f, RULES[i]).reasons[0].NameSuggestsSpecialty?;
    } else {
      GeneralIsUnexpected();
    }
  }

  lemma GeneralIsUnexpected()
    ensures GENERAL !in EXPECTED
  {
  }

  /******* Field confidence *******/

  datatype FieldConfidence = FieldConfidence(premium: int, alwaysOpen: int, lifter: int, specialty: int, tier: int)

  function Least(a: int, b: int): int { if b < a then b else a }

  function Bounded(value: int): int { if value < 5 then 5 else if value > 99 then 99 else value }

  function Penalized(base: int, contradictions: nat): int { Bounded(base - Least(contradictions * 14, 35)) }

  function PremiumBase(r: Result<nat>): int { 35 + r.value * 5 + Least(|r.reasons|, 4) * 5 }

  function HoursBase(f: FeatureSet, r: Result<bool>): int {
    if r.value then 98 else if "opening_hours" in f.attributes then 84 else 48
  }

  function LifterBase(f: FeatureSet, r: Result<bool>): int {
    var caps := Capabilities(f);
    var base :=
      if r.value && Meets(caps, STRENGTH) then 91
      else if r.value then 67
      else if Meets(caps, NON_STRENGTH) then 76
      else if "fitness_centre" in caps || "fitness" in caps then 62
      else 52;
    if NameSuggests(r.reasons) then base - 4 else base
  }

  function SpecialtyBase(f: FeatureSet, r: Result<string>): int {
    var caps := Capabilities(f);
    if r.value == GENERAL then if caps != {} then 66 else 48
    else if r.value in EXPECTED && Meets(caps, EXPECTED[r.value]) then 93
    else if NameSuggests(r.reasons) then 72
    else 58
  }

  // In ten-thousandths, since the premium confidence enters with a factor of 0.32.
  function TierBase(inf: Inferred, premiumConfidence: int): int {
    5200 + premiumConfidence * 32 + Least(|inf.tier.reasons|, 2) * 400 + if inf.alwaysOpen.value then 500 else 0
  }

  // To the nearest hundredth; a tie would go to the even one, but there is none.
  function Rounded(value: int): int { (value + 50) / 100 }

  function TierConfidence(inf: Inferred): int {
    var base := TierBase(inf, Penalized(PremiumBase(inf.premium), 0));
    Rounded(if base < 500 then 500 else if base > 9900 then 9900 else base)
  }

  lemma NoTie(hundredths: int, premiumConfidence: int)
    ensures (100 * hundredths + 32 * premiumConfidence) % 100 != 50
  {
    var base := 100 * hundredths + 32 * premiumConfidence;
    assert base == 100 * (base / 100) + base % 100;
  }

  lemma RoundsToNearest(base: int)
    requires 5360 <= base <= 9668 && base % 100 != 50
    ensures 54 <= Rounded(base) <= 97 && -50 < base - 100 * Rounded(base) < 50
  {
    var more := base + 50;
    assert more == 100 * (more / 100) + more % 100 && base == 100 * (base / 100) + base % 100;
  }

  /** The tier's confidence is its evidence rounded to hundredths: no rounding tie ever arises, and
      neither of the bounds 0.05 and 0.99 is ever reached. */
  lemma TierConfidenceIsExact(inf: Inferred)
    ensures var base := TierBase(inf, Penalized(PremiumBase(inf.premium), 0));
            && base % 100 != 50
            && TierConfidence(inf) == Rounded(base) && 54 <= TierConfidence(inf) <= 97
            && -50 < base - 100 * TierConfidence(inf) < 50
  {
    var premium := Penalized(PremiumBase(inf.premium), 0);
    var hundredths := 52 + Least(|inf.tier.reasons|, 2) * 4 + if inf.alwaysOpen.value then 5 else 0;
    assert TierBase(inf, premium) == 100 * hundredths + 32 * premium;
    NoTie(hundredths, premium);
    RoundsToNearest(TierBase(inf, premium));
  }

  function ConfidenceOf(f: FeatureSet, inf: Inferred, found: map<Field, seq<Contradiction>>): FieldConfidence {
    FieldConfidence(
      Penalized(PremiumBase(inf.premium), 0),
      Penalized(HoursBase(f, inf.alwaysOpen), |Listed(found, AlwaysOpenField)|),
      Penalized(LifterBase(f, inf.lifter), |Listed(found, LifterField)|),
      Penalized(SpecialtyBase(f, inf.specialty), |Listed(found, SpecialtyField)|),
      TierConfidence(inf))
  }

  /** A capability-backed specialty has confidence 0.93, or 0.79 exactly when it is a strength
      specialty among non-strength activities; a name-only one has at most 0.58; the general
      default 0.66 or, without any capability, 0.48. */
  lemma SpecialtyConfidence(f: FeatureSet)
    ensures var inf := InferAll(f);
            var c := Penalized(SpecialtyBase(f, inf.specialty), |SpecialtyContradictions(f, inf)|);
            && (CapabilityBacked(f) ==> c == if ConflictsWithActivity(f, inf.specialty.value) then 79 else 93)
            && (NameOnly(f) ==> c == 58 || c == 44 || c == 37)
            && (!CapabilityBacked(f) && !NameOnly(f) ==> c == if Capabilities(f) != {} then 66 else 48)
  {
    SpecialtyEvidence(f);
    GeneralIsNoStrength();
  }

  lemma GeneralIsNoStrength()
    ensures GENERAL !in STRENGTH_SPECIALTIES
  {
  }

  /******* The loops *******/

  method AnyNameHas(f: FeatureSet, keywords: seq<string>) returns (found: bool)
    ensures found == NameHas(f, keywords)
  {
    var rest := f.brand;
    while rest != {}
      invariant rest <= f.brand
      invariant forall brand, k :: brand in f.brand - rest && k in keywords ==> !Contains(brand, k)
      decreases |rest|
    {
      var brand :| brand in rest;
      rest := rest - {brand};
      if exists k :: k in keywords && Contains(brand, k) {
        return true;
      }
    }
    return false;
  }

  method InferSpecialty(f: FeatureSet, rules: seq<Rule>) returns (r: Result<string>)
    ensures r == SpecialtyOf(f, rules)
  {
    for i := 0 to |rules|
      invariant FirstRule(f, rules, 0) == FirstRule(f, rules, i)
    {
      var rule := rules[i];
      if Meets(Capabilities(f), rule.capabilities) {
        return Result(rule.specialty, [MatchedCapabilities(rule.specialty)]);
      }
      var named := AnyNameHas(f, rule.keywords);
      if named {
        return Result(rule.specialty, [NameSuggestsSpecialty(rule.specialty)]);
      }
    }
    return Result(GENERAL, [DefaultedToGeneral]);
  }

  method InferLifterFriendly(f: FeatureSet) returns (r: Result<bool>)
    ensures r == LifterFriendly(f)
  {
    var reasons: seq<Reason> := [];
    if Meets(Capabilities(f), STRENGTH) {
      reasons := reasons + [StrengthAmenities];
      return Result(true, reasons);
    }
    var named := AnyNameHas(f, STRENGTH_KEYWORDS);
    if named {
      reasons := reasons + [NameSuggestsStrength];
      return Result(true, reasons);
    }
    return Result(false, reasons);
  }

  // Adds the next signal's weight and reason when it fires.
  method Tally(fires: set<Reason>, ghost n: nat, score: nat, reasons: seq<Reason>, weight: nat, r: Reason)
    returns (score': nat, reasons': seq<Reason>, ghost n': nat)
    requires n < SIGNALS && Signal(n) == r && Weight(r) == weight
    requires reasons == Fired(fires, n) && score == TotalWeight(reasons)
    ensures n' == n + 1 && reasons' == Fired(fires, n') && score' == TotalWeight(reasons')
  {
    FiredStep(fires, n);
    n' := n + 1;
    score', reasons' := score, reasons;
    if r in fires {
      score', reasons' := score + weight, reasons + [r];
    }
  }

  method AskSignals(fires: set<Reason>) returns (score: nat, reasons: seq<Reason>)
    ensures reasons == Fired(fires, SIGNALS) && score == TotalWeight(reasons)
  {
    score, reasons := 0, [];
    ghost var n := 0;
    score, reasons, n := Tally(fires, n, score, reasons, 2, WaterAmenities);
    score, reasons, n := Tally(fires, n, score, reasons, 2, WellnessAmenities);
    score, reasons, n := Tally(fires, n, score, reasons, 2, ConvenienceAmenities);
    score, reasons, n := Tally(fires, n, score, reasons, 1, HasWebsite);
    score, reasons, n := Tally(fires, n, score, reasons, 1, HasOpeningHours);
  }

  method ComputePremiumScore(f: FeatureSet) returns (r: Result<nat>)
    ensures r == Premium(f)
  {
    var score, reasons := AskSignals(Evidence(f));
    r := Result(if score < PREMIUM_MAX then score else PREMIUM_MAX, reasons);
  }

  /** The engine: features, the five rules, contradictions, confidences. */
  method RunInference(tags: Tags, text: Text) returns (inf: Inferred, confidence: FieldConfidence)
    ensures inf == InferAll(Extracted(tags, text))
    ensures var f := Extracted(tags, text);
            confidence.specialty == Penalized(SpecialtyBase(f, inf.specialty), |SpecialtyContradictions(f, inf)|)
            && confidence.lifter == Penalized(LifterBase(f, inf.lifter), |LifterContradictions(f, inf)|)
            && confidence.alwaysOpen == Penalized(HoursBase(f, inf.alwaysOpen), |HoursContradictions(f, inf)|)
            && confidence.premium == Penalized(PremiumBase(inf.premium), 0)
            && confidence.tier == TierConfidence(inf)
  {
    var f := ExtractFeatures(tags, text);
    var premium := ComputePremiumScore(f);
    var alwaysOpen := Is247(f);
    var lifter := InferLifterFriendly(f);
    var specialty := InferSpecialty(f, RULES);
    inf := Inferred(premium, alwaysOpen, lifter, specialty, TierOf(premium.value, alwaysOpen.value));
    var found := DetectContradictions(f, inf);
    confidence := ConfidenceOf(f, inf, found);
  }
}
