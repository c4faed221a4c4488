/** What each inference says, on the capabilities and names of a gym: the rules, the contradictions
    and the confidences in plain terms, independent of the rule table and of the order in which
    the engine asks. */
module InferenceMeaning {
  import opened Gyms
  import opened Features
  import opened Inference

  // A tagged capability.
  predicate Offers(f: FeatureSet, capability: string) {
    capability in f.amenities || capability in f.sports || capability in f.attributes
  }

  // The brand or the name holds the word.
  ghost predicate Says(f: FeatureSet, word: string) { exists brand :: brand in f.brand && Within(brand, word) }

  lemma NameHasMeans(f: FeatureSet, keywords: seq<string>)
    ensures NameHas(f, keywords) <==> exists k :: k in keywords && Says(f, k)
  {
    forall brand, k
      ensures Contains(brand, k) <==> Within(brand, k)
    {
      ContainsMeans(brand, k);
    }
    if NameHas(f, keywords) {
      var brand, k :| brand in f.brand && k in keywords && Contains(brand, k);
      assert Within(brand, k) && Says(f, k);
    }
    if exists k :: k in keywords && Says(f, k) {
      var k :| k in keywords && Says(f, k);
      var brand :| brand in f.brand && Within(brand, k);
      assert Contains(brand, k);
    }
  }

  lemma MeetsMeans(f: FeatureSet, wanted: set<string>)
    ensures Meets(Capabilities(f), wanted) <==> exists c :: c in wanted && Offers(f, c)
  {
    if Meets(Capabilities(f), wanted) {
      var c :| c in Capabilities(f) * wanted;
      assert Offers(f, c);
    }
    if exists c :: c in wanted && Offers(f, c) {
      var c :| c in wanted && Offers(f, c);
      assert c in Capabilities(f) * wanted;
    }
  }

  /******* The five inferences *******/

  predicate LiftsWeights(f: FeatureSet) {
    || Offers(f, "weightlifting") || Offers(f, "powerlifting") || Offers(f, "strongman")
    || Offers(f, "olympic_weightlifting") || Offers(f, "fitness")
  }

  /** A gym is lifter-friendly exactly when it offers strength training or its name says barbell,
      power or strength. */
  lemma LifterMeans(f: FeatureSet)
    ensures LifterFriendly(f).value
            <==> LiftsWeights(f) || Says(f, "barbell") || Says(f, "power") || Says(f, "strength")
  {
    MeetsMeans(f, STRENGTH);
    NameHasMeans(f, STRENGTH_KEYWORDS);
    assert STRENGTH_KEYWORDS[0] == "barbell" && STRENGTH_KEYWORDS[1] == "power" && STRENGTH_KEYWORDS[2] == "strength";
  }

  /** A gym is open around the clock exactly when its opening hours say so, whatever its name says. */
  lemma AlwaysOpenMeans(tags: Tags, text: Text)
    ensures var r := InferAll(Extracted(tags, text)).alwaysOpen;
            && (r.value <==> AlwaysOpenTag(tags, text))
            && r.reasons == if r.value then [FromOpeningHours] else []
  {
    FeaturesMean(tags, text, "24_7");
  }

  predicate HasWater(f: FeatureSet) {
    Offers(f, "swimming_pool") || Offers(f, "pool") || Offers(f, "hot_tub") || Offers(f, "spa")
  }

  predicate HasWellness(f: FeatureSet) { Offers(f, "sauna") || Offers(f, "steam_room") || Offers(f, "massage") }

  predicate HasConvenience(f: FeatureSet) { Offers(f, "shower") || Offers(f, "childcare") || Offers(f, "cafe") }

  function One(b: bool): nat { if b then 1 else 0 }

  // Amenity groups: water, wellness and convenience.
  function GroupsOffered(f: FeatureSet): nat { One(HasWater(f)) + One(HasWellness(f)) + One(HasConvenience(f)) }

  // Extras: a website, and opening hours.
  function ExtrasGiven(f: FeatureSet): nat { One("website" in f.attributes) + One("opening_hours" in f.attributes) }

  lemma GroupsMean(f: FeatureSet)
    ensures Groups(f) == GroupsOffered(f) && Extras(f) == ExtrasGiven(f)
  {
    MeetsMeans(f, WATER);
    MeetsMeans(f, WELLNESS);
    MeetsMeans(f, CONVENIENCE);
  }

  /** The premium score is two for each amenity group and one for each extra; premium takes at least 7
      of it, mid at least 3. */
  lemma PremiumMeans(f: FeatureSet)
    ensures var score := 2 * GroupsOffered(f) + ExtrasGiven(f);
            && InferAll(f).premium.value == score
            && InferAll(f).tier.value == (if score >= 7 then "premium" else if score >= 3 then "mid" else "basic")
            && InferAll(f).tier.reasons
               == [PremiumScoreIs(score)] + if "24_7" in f.attributes then [AlwaysOpenAddsValue] else []
  {
    GroupsMean(f);
    TierMeaning(f);
  }

  /******* The specialty *******/

  ghost predicate ForCrossfit(f: FeatureSet) { Offers(f, "crossfit") || Says(f, "crossfit") }

  ghost predicate ForPowerlifting(f: FeatureSet) {
    || Offers(f, "powerlifting") || Offers(f, "strongman")
    || Says(f, "powerlifting") || Says(f, "power") || Says(f, "barbell")
  }

  ghost predicate ForWeightlifting(f: FeatureSet) {
    || Offers(f, "olympic_weightlifting") || Offers(f, "weightlifting")
    || Says(f, "weightlifting") || Says(f, "weightlifting club") || Says(f, "olympic")
  }

  ghost predicate ForBodybuilding(f: FeatureSet) {
    Offers(f, "bodybuilding") || Says(f, "bodybuilding") || Says(f, "physique")
  }

  ghost predicate ForBoxing(f: FeatureSet) {
    Offers(f, "boxing") || Offers(f, "kickboxing") || Says(f, "boxing") || Says(f, "kickboxing")
  }

  ghost predicate ForMartialArts(f: FeatureSet) {
    || Offers(f, "martial_arts") || Offers(f, "jiu_jitsu") || Offers(f, "judo") || Offers(f, "karate")
    || Offers(f, "mma")
    || Says(f, "mma") || Says(f, "jiu") || Says(f, "jitsu") || Says(f, "martial") || Says(f, "dojo")
    || Says(f, "boxing gym")
  }

  ghost predicate ForYoga(f: FeatureSet) {
    Offers(f, "yoga") || Offers(f, "pilates") || Says(f, "yoga") || Says(f, "pilates")
  }

  ghost predicate ForClimbing(f: FeatureSet) {
    Offers(f, "climbing") || Offers(f, "bouldering") || Says(f, "climbing") || Says(f, "bouldering")
  }

  // Whether the n-th specialty fits.
  ghost predicate Speaks(f: FeatureSet, n: nat) {
    if n == 0 then ForCrossfit(f)
    else if n == 1 then ForPowerlifting(f)
    else if n == 2 then ForWeightlifting(f)
    else if n == 3 then ForBodybuilding(f)
    else if n == 4 then ForBoxing(f)
    else if n == 5 then ForMartialArts(f)
    else if n == 6 then ForYoga(f)
    else ForClimbing(f)
  }

  lemma AppliesMeans(f: FeatureSet, n: nat)
    requires n < |RULES|
    ensures Applies(f, RULES[n]) <==> Speaks(f, n)
  {
    var rule := RULES[n];
    MeetsMeans(f, rule.capabilities);
    NameHasMeans(f, rule.keywords);
    if n < 4 {
      FirstRules(f, n);
    } else {
      LastRules(f, n);
    }
  }

  lemma FirstRules(f: FeatureSet, n: nat)
    requires n < 4
    ensures Speaks(f, n) <==> (exists c :: c in RULES[n].capabilities && Offers(f, c))
                              || exists k :: k in RULES[n].keywords && Says(f, k)
  {
    var ks := RULES[n].keywords;
    assert n == 0 || n == 1 || n == 2 || n == 3;
    assert forall i :: 0 <= i < |ks| ==> ks[i] in ks;
  }

  lemma LastRules(f: FeatureSet, n: nat)
    requires 4 <= n < |RULES|
    ensures Speaks(f, n) <==> (exists c :: c in RULES[n].capabilities && Offers(f, c))
                              || exists k :: k in RULES[n].keywords && Says(f, k)
  {
    var ks := RULES[n].keywords;
    if n == 5 {
      MartialRule(f);
    } else {
      assert n == 4 || n == 6 || n == 7;
      assert forall i :: 0 <= i < |ks| ==> ks[i] in ks;
    }
  }

  lemma MartialRule(f: FeatureSet)
    ensures ForMartialArts(f) <==> (exists c :: c in RULES[5].capabilities && Offers(f, c))
                                   || exists k :: k in RULES[5].keywords && Says(f, k)
  {
    var ks := RULES[5].keywords;
    assert forall i :: 0 <= i < |ks| ==> ks[i] in ks;
  }

  /** The specialty is the first of crossfit, powerlifting, Olympic weightlifting, bodybuilding, boxing,
      martial arts, yoga and climbing that a capability or the name speaks for, and general fitness
      when none does. */
  lemma SpecialtyMeans(f: FeatureSet)
    ensures SpecialtyOf(f, RULES).value
            == if ForCrossfit(f) then "crossfit"
               else if ForPowerlifting(f) then "powerlifting"
               else if ForWeightlifting(f) then "olympic_weightlifting"
               else if ForBodybuilding(f) then "bodybuilding"
               else if ForBoxing(f) then "boxing"
               else if ForMartialArts(f) then "martial_arts"
               else if ForYoga(f) then "yoga"
               else if ForClimbing(f) then "climbing"
               else "general_fitness"
  {
    FirstRuleIsFirst(f, RULES, 0);
    forall n: nat | n < |RULES|
      ensures Applies(f, RULES[n]) <==> Speaks(f, n)
    {
      AppliesMeans(f, n);
    }
    var r := FirstRule(f, RULES, 0);
    assert r == 0 || r == 1 || r == 2 || r == 3 || r == 4 || r == 5 || r == 6 || r == 7 || r == 8;
  }

  /******* Contradictions and confidences *******/

  predicate OffersOtherSports(f: FeatureSet) {
    || Offers(f, "boxing") || Offers(f, "kickboxing") || Offers(f, "martial_arts") || Offers(f, "jiu_jitsu")
    || Offers(f, "judo") || Offers(f, "karate") || Offers(f, "mma") || Offers(f, "yoga") || Offers(f, "pilates")
    || Offers(f, "climbing") || Offers(f, "bouldering")
  }

  // The name speaks of long hours.
  ghost predicate SaysAllDay(f: FeatureSet) { Says(f, "24 hour") || Says(f, "24hr") || Says(f, "24/7") }

  predicate IsStrength(specialty: string) {
    specialty == "powerlifting" || specialty == "olympic_weightlifting" || specialty == "bodybuilding"
  }

  lemma SupportMeans(f: FeatureSet)
    ensures Meets(Capabilities(f), STRENGTH) <==> LiftsWeights(f)
    ensures Meets(Capabilities(f), NON_STRENGTH) <==> OffersOtherSports(f)
    ensures NameHas(f, HOUR_HINTS) <==> SaysAllDay(f)
  {
    MeetsMeans(f, STRENGTH);
    MeetsMeans(f, NON_STRENGTH);
    NameHasMeans(f, HOUR_HINTS);
    assert HOUR_HINTS[0] == "24 hour" && HOUR_HINTS[1] == "24hr" && HOUR_HINTS[2] == "24/7";
  }

  /** The engine contradicts itself exactly so: lifter-friendly by name alone; a strength specialty at
      a gym that offers other sports and no strength training; a specialty by name alone where the
      gym passes for lifter-friendly by name alone; and a name that speaks of long hours when the
      opening hours do not. */
  lemma ContradictionsMean(f: FeatureSet)
    ensures var inf := InferAll(f);
            var byName := inf.lifter.value && !LiftsWeights(f);
            && LifterContradictions(f, inf) == (if byName then [NoStrengthAmenities] else [])
            && HoursContradictions(f, inf)
               == (if "24_7" !in f.attributes && SaysAllDay(f) then [HoursNotConfirmed] else [])
            && (StrengthConflict in SpecialtyContradictions(f, inf)
                <==> IsStrength(inf.specialty.value) && OffersOtherSports(f) && !LiftsWeights(f))
            && (NameWithoutStrength in SpecialtyContradictions(f, inf) <==> byName && NameOnly(f))
  {
    SupportMeans(f);
    SpecialtyEvidence(f);
  }

  /** The confidence in the hours: 0.98 when they say around the clock; otherwise 0.84 with and 0.48
      without tagged hours, each 0.14 lower when the name says more. */
  lemma HoursConfidence(f: FeatureSet)
    ensures var inf := InferAll(f);
            Penalized(HoursBase(f, inf.alwaysOpen), |HoursContradictions(f, inf)|)
            == if "24_7" in f.attributes then 98
               else (if "opening_hours" in f.attributes then 84 else 48) - if SaysAllDay(f) then 14 else 0
  {
    ContradictionsMean(f);
  }

  /** The confidence in lifter-friendliness: 0.91 with strength training and 0.49 by name alone; the
      denial 0.76 beside other sports, 0.62 for a fitness centre and 0.52 for anything else. */
  lemma LifterConfidence(f: FeatureSet)
    ensures var inf := InferAll(f);
            Penalized(LifterBase(f, inf.lifter), |LifterContradictions(f, inf)|)
            == if LiftsWeights(f) then 91
               else if inf.lifter.value then 49
               else if OffersOtherSports(f) then 76
               else if Offers(f, "fitness_centre") then 62
               else 52
  {
    SupportMeans(f);
    ContradictionsMean(f);
    var reasons := LifterFriendly(f).reasons;
    assert reasons != [] ==> reasons[0] == if LiftsWeights(f) then StrengthAmenities else NameSuggestsStrength;
    assert NameSuggests(reasons) <==> !LiftsWeights(f) && LifterFriendly(f).value;
  }

  /** The confidence in a specialty by name alone: 0.58, or 0.44 when one of the other two
      contradictions joins in, or 0.37 when both do. */
  lemma NamedSpecialtyConfidence(f: FeatureSet)
    requires NameOnly(f)
    ensures var inf := InferAll(f);
            var more := One(IsStrength(inf.specialty.value) && OffersOtherSports(f) && !LiftsWeights(f))
                        + One(inf.lifter.value && !LiftsWeights(f));
            Penalized(SpecialtyBase(f, inf.specialty), |SpecialtyContradictions(f, inf)|)
            == if more == 0 then 58 else if more == 1 then 44 else 37
  {
    SupportMeans(f);
    SpecialtyEvidence(f);
  }

  lemma {:induction false} FiredCount(fires: set<Reason>, n: nat)
    requires n <= SIGNALS
    ensures |Fired(fires, n)| == Firing(fires, n)
  {
    if n > 0 {
      FiredCount(fires, n - 1);
    }
  }

  // How many of the first n signals fire.
  function Firing(fires: set<Reason>, n: nat): nat
    requires n <= SIGNALS
  {
    if n == 0 then 0 else Firing(fires, n - 1) + One(Signal(n - 1) in fires)
  }

  lemma FiringBySignal(fires: set<Reason>)
    ensures Firing(fires, 5) == One(WaterAmenities in fires) + One(WellnessAmenities in fires)
                                + One(ConvenienceAmenities in fires) + One(HasWebsite in fires)
                                + One(HasOpeningHours in fires)
  {
    assert Firing(fires, 2) == Firing(fires, 1) + One(WellnessAmenities in fires);
    assert Firing(fires, 4) == Firing(fires, 3) + One(HasWebsite in fires);
  }

  /** The confidence in the premium score: 0.35, with 0.05 for each point and for each of up to four
      groups and extras. */
  lemma PremiumConfidence(f: FeatureSet)
    ensures var groups, extras := GroupsOffered(f), ExtrasGiven(f);
            Penalized(PremiumBase(InferAll(f).premium), 0)
            == 35 + 5 * (2 * groups + extras) + 5 * if groups + extras <= 4 then groups + extras else 4
  {
    PremiumMeans(f);
    GroupsMean(f);
    FiredCount(Evidence(f), SIGNALS);
    FiringBySignal(Evidence(f));
  }

  /** The confidence in the tier, to the nearest hundredth: 0.32 of the premium confidence on top of
      0.56, or of 0.65 around the clock. */
  lemma TierConfidenceMeans(f: FeatureSet)
    ensures var inf := InferAll(f);
            var evidence := 32 * Penalized(PremiumBase(inf.premium), 0) + if "24_7" in f.attributes then 6500 else 5600;
            -50 < evidence - 100 * TierConfidence(inf) < 50
  {
    TierConfidenceIsExact(InferAll(f));
  }
}
