/** The confidence score: additive evidence, then the floor, boost and hard cap of the match
    tier. All scores are whole hundredths, so the final rounding to two decimals is exact. */
module Scoring {
  import opened Wrappers
  import opened Gyms
  import opened MatchTiers
  import Confirmation
  import Coverage
  import TextNormalization

  const GENERIC_NAMES := {"gym", "fitness", "fitness center", "fitness centre", "health club", "ymca"}

  const ADDRESS_TAGS := ["addr:housenumber", "addr:street", "addr:city"]
  const WEBSITE_TAGS := ["website", "contact:website"]
  const PHONE_TAGS := ["phone", "contact:phone"]
  const EMAIL_TAGS := ["email", "contact:email"]
  const BRAND_TAGS := ["brand", "brand:wikidata", "operator", "operator:wikidata"]
  const SOCIAL_TAGS := ["contact:instagram", "contact:facebook", "contact:tiktok", "contact:youtube"]
  const METADATA_TAGS := ["opening_hours", "sport", "internet_access", "wheelchair", "swimming_pool", "sauna", "shower"]

  /******* Evidence *******/

  predicate Present(tags: Tags, key: string, text: Text) { key in tags && text.strip(tags[key]) != "" }

  function CountPresent(tags: Tags, keys: seq<string>, text: Text): nat {
    if keys == [] then 0
    else (if Present(tags, keys[0], text) then 1 else 0) + CountPresent(tags, keys[1..], text)
  }

  predicate HasAny(tags: Tags, keys: seq<string>, text: Text) { CountPresent(tags, keys, text) > 0 }

  predicate TaxonomyTag(tags: Tags, key: string, expected: string, text: Text) {
    text.lower(text.strip(if key in tags then tags[key] else "")) == expected
  }

  function TaxonomyScore(tags: Tags, text: Text): nat {
    if TaxonomyTag(tags, "leisure", "fitness_centre", text) || TaxonomyTag(tags, "amenity", "gym", text) then 10 else 0
  }

  function RefsScore(refs: nat): nat { if refs >= 3 then 18 else if refs == 2 then 12 else 0 }

  function AddressScore(tags: Tags, text: Text): nat {
    var count := CountPresent(tags, ADDRESS_TAGS, text);
    if count == 3 then 22 else if count == 2 then 16 else if count == 1 then 8 else 0
  }

  function ContactScore(tags: Tags, text: Text): nat {
    var web, phone := HasAny(tags, WEBSITE_TAGS, text), HasAny(tags, PHONE_TAGS, text);
    (if web then 22 else 0)
    + (if phone then 10 else 0)
    + (if HasAny(tags, EMAIL_TAGS, text) then 6 else 0)
    + (if Present(tags, "opening_hours", text) then 12 else 0)
    + (if web && phone then 5 else 0)
    + (if web && "opening_hours" in tags then 3 else 0)
  }

  function BrandScore(tags: Tags, text: Text): nat {
    var count := CountPresent(tags, BRAND_TAGS, text);
    if count >= 3 then 18 else if count == 2 then 14 else if count == 1 then 8 else 0
  }

  function MetadataScore(tags: Tags, text: Text): nat {
    var count := CountPresent(tags, METADATA_TAGS, text) + CountPresent(tags, SOCIAL_TAGS, text);
    if count * 2 < 10 then count * 2 else 10
  }

  function NameScore(norm: string): nat { if norm !in GENERIC_NAMES then 8 else 0 }

  function ValidationStatus(p: Provenance, r: TomTomRef): string {
    if r.status.GetOr("") != "" then r.status.value else p.matchStatus.GetOr("")
  }

  function DistanceScore(distance: Option<real>): nat {
    if distance.None? then 0 else if distance.value <= 50.0 then 6 else if distance.value <= 150.0 then 4 else 2
  }

  predicate HasLink(url: Option<string>, text: Text) { url.Some? && text.strip(url.value) != "" }

  function ExternalValidationScore(p: Provenance, text: Text): nat {
    if p.externalRefs.None? || p.externalRefs.value.tomtom.None? then 0
    else
      var r := p.externalRefs.value.tomtom.value;
      var status := ValidationStatus(p, r);
      if status == "matched" then 12 + DistanceScore(r.distance) + if HasLink(r.url, text) then 2 else 0
      else if status == "name_mismatch" then 4
      else 0
  }

  function TagScore(tags: Tags, text: Text): nat {
    TaxonomyScore(tags, text) + AddressScore(tags, text) + ContactScore(tags, text)
    + BrandScore(tags, text) + MetadataScore(tags, text)
  }

  // The evidence before the tier is applied.
  function Raw(g: GymValue, text: Text): nat {
    TagScore(g.tags, text) + RefsScore(|g.refs|) + NameScore(g.norm) + ExternalValidationScore(g.provenance, text)
  }

  function Max(a: int, b: int): int { if a < b then b else a }

  function Min(a: int, b: int): int { if b < a then b else a }

  function Tiered(score: nat, p: Provenance): nat {
    var status := p.matchStatus.GetOr("");
    if status !in TIERS then score
    else
      var floored := Max(score + BOOST[status], FLOOR[status]);
      if status == TOMTOM_CORROBORATED then Min(floored, CORROBORATED_HARD_CAP) else floored
  }

  function Confidence(g: GymValue, text: Text): nat { Min(Tiered(Raw(g, text), g.provenance), 100) }

  /******* What the evidence is worth, on the raw tags *******/

  // The listed tags whose text is not blank.
  function Filled(tags: Tags, keys: set<string>, text: Text): set<string> {
    set k | k in keys && k in tags && |text.strip(tags[k])| > 0
  }

  function SetOf(keys: seq<string>): set<string> { set k | k in keys }

  lemma FilledStep(tags: Tags, key: string, rest: seq<string>, text: Text)
    requires key !in rest
    ensures |Filled(tags, SetOf([key] + rest), text)|
            == |Filled(tags, SetOf(rest), text)| + if Present(tags, key, text) then 1 else 0
  {
    var all, later := Filled(tags, SetOf([key] + rest), text), Filled(tags, SetOf(rest), text);
    assert key !in later;
    assert all == later + if Present(tags, key, text) then {key} else {};
  }

  lemma {:induction false} CountIsSize(tags: Tags, keys: seq<string>, text: Text)
    requires forall i, j :: 0 <= i < j < |keys| ==> keys[i] != keys[j]
    ensures CountPresent(tags, keys, text) == |Filled(tags, SetOf(keys), text)|
  {
    if keys != [] {
      var key, rest := keys[0], keys[1..];
      CountIsSize(tags, rest, text);
      assert keys == [key] + rest && key !in rest;
      FilledStep(tags, key, rest, text);
    }
  }

  lemma AddressKeys()
    ensures SetOf(ADDRESS_TAGS) == {"addr:housenumber", "addr:street", "addr:city"}
    ensures forall i, j :: 0 <= i < j < |ADDRESS_TAGS| ==> ADDRESS_TAGS[i] != ADDRESS_TAGS[j]
  {
    assert |ADDRESS_TAGS[0]| == 16 && |ADDRESS_TAGS[1]| == 11 && |ADDRESS_TAGS[2]| == 9;
  }

  lemma BrandKeys()
    ensures SetOf(BRAND_TAGS) == {"brand", "brand:wikidata", "operator", "operator:wikidata"}
    ensures forall i, j :: 0 <= i < j < |BRAND_TAGS| ==> BRAND_TAGS[i] != BRAND_TAGS[j]
  {
    assert |BRAND_TAGS[0]| == 5 && |BRAND_TAGS[1]| == 14 && |BRAND_TAGS[2]| == 8 && |BRAND_TAGS[3]| == 17;
  }

  lemma MetadataKeys()
    ensures SetOf(METADATA_TAGS) == {"opening_hours", "sport", "internet_access", "wheelchair", "swimming_pool",
                                     "sauna", "shower"}
    ensures forall i, j :: 0 <= i < j < |METADATA_TAGS| ==> METADATA_TAGS[i] != METADATA_TAGS[j]
  {
    assert |METADATA_TAGS[0]| == |METADATA_TAGS[4]| == 13 && METADATA_TAGS[0][0] == 'o' && METADATA_TAGS[4][0] == 's';
    assert |METADATA_TAGS[1]| == |METADATA_TAGS[5]| == 5 && METADATA_TAGS[1][1] == 'p' && METADATA_TAGS[5][1] == 'a';
    assert |METADATA_TAGS[2]| == 15 && |METADATA_TAGS[3]| == 10 && |METADATA_TAGS[6]| == 6;
  }

  lemma SocialKeys()
    ensures SetOf(SOCIAL_TAGS) == {"contact:instagram", "contact:facebook", "contact:tiktok", "contact:youtube"}
    ensures forall i, j :: 0 <= i < j < |SOCIAL_TAGS| ==> SOCIAL_TAGS[i] != SOCIAL_TAGS[j]
  {
    assert |SOCIAL_TAGS[0]| == 17 && |SOCIAL_TAGS[1]| == 16 && |SOCIAL_TAGS[2]| == 14 && |SOCIAL_TAGS[3]| == 15;
  }

  /** Address parts count by how many are filled: one, two and three are worth 8, 16 and 22. */
  lemma AddressEvidence(tags: Tags, text: Text)
    ensures var n := |Filled(tags, {"addr:housenumber", "addr:street", "addr:city"}, text)|;
            n <= 3 && AddressScore(tags, text) == if n == 3 then 22 else 8 * n
  {
    AddressKeys();
    CountIsSize(tags, ADDRESS_TAGS, text);
    CountGrows(tags, tags, ADDRESS_TAGS, text);
  }

  /** So do brand tags: one, two and more are worth 8, 14 and 18. */
  lemma BrandEvidence(tags: Tags, text: Text)
    ensures var n := |Filled(tags, {"brand", "brand:wikidata", "operator", "operator:wikidata"}, text)|;
            BrandScore(tags, text) == if n == 0 then 0 else if n == 1 then 8 else if n == 2 then 14 else 18
  {
    BrandKeys();
    CountIsSize(tags, BRAND_TAGS, text);
  }

  /** Every other metadata or social tag is worth 2, up to 10. */
  lemma MetadataEvidence(tags: Tags, text: Text)
    ensures var n := |Filled(tags, {"opening_hours", "sport", "internet_access", "wheelchair", "swimming_pool",
                                    "sauna", "shower"}, text)|
                     + |Filled(tags, {"contact:instagram", "contact:facebook", "contact:tiktok",
                                      "contact:youtube"}, text)|;
            MetadataScore(tags, text) == if n <= 5 then 2 * n else 10
  {
    MetadataKeys();
    SocialKeys();
    CountIsSize(tags, METADATA_TAGS, text);
    CountIsSize(tags, SOCIAL_TAGS, text);
  }

  predicate Has(tags: Tags, key: string, text: Text) { key in tags && |text.strip(tags[key])| > 0 }

  /** Ways to reach a gym: a website is worth 22, a phone 10, an e-mail 6 and opening hours 12; a
      phone beside the website 5 more, opening hours beside it 3 more. */
  lemma ContactEvidence(tags: Tags, text: Text)
    ensures var web := Has(tags, "website", text) || Has(tags, "contact:website", text);
            var phone := Has(tags, "phone", text) || Has(tags, "contact:phone", text);
            var mail := Has(tags, "email", text) || Has(tags, "contact:email", text);
            var hours := Has(tags, "opening_hours", text);
            ContactScore(tags, text)
            == (if mail then 6 else 0) + (if hours then 12 else 0)
               + if web && phone then 37 + (if "opening_hours" in tags then 3 else 0)
                 else if web then 22 + (if "opening_hours" in tags then 3 else 0)
                 else if phone then 10
                 else 0
  {
    EitherOf(tags, WEBSITE_TAGS, text);
    EitherOf(tags, PHONE_TAGS, text);
    EitherOf(tags, EMAIL_TAGS, text);
  }

  lemma EitherOf(tags: Tags, keys: seq<string>, text: Text)
    requires |keys| == 2
    ensures HasAny(tags, keys, text) <==> Has(tags, keys[0], text) || Has(tags, keys[1], text)
  {
    var one, none := keys[1..], keys[1..][1..];
    assert CountPresent(tags, none, text) == 0;
    assert CountPresent(tags, one, text) == if Present(tags, keys[1], text) then 1 else 0;
  }

  /** The rest of the evidence: 10 for a fitness taxonomy, 12 and 18 for two and for more references,
      8 for a telling name. */
  lemma OtherEvidence(g: GymValue, text: Text)
    ensures TaxonomyScore(g.tags, text)
            == if (text.lower(text.strip(if "leisure" in g.tags then g.tags["leisure"] else "")) == "fitness_centre"
                   || text.lower(text.strip(if "amenity" in g.tags then g.tags["amenity"] else "")) == "gym")
               then 10 else 0
    ensures RefsScore(|g.refs|) == if |g.refs| < 2 then 0 else if |g.refs| == 2 then 12 else 18
    ensures NameScore(g.norm) == 0 || NameScore(g.norm) == 8
    ensures Raw(g, text) == RefsScore(|g.refs|) + NameScore(g.norm) + ExternalValidationScore(g.provenance, text)
                            + TaxonomyScore(g.tags, text) + AddressScore(g.tags, text) + ContactScore(g.tags, text)
                            + BrandScore(g.tags, text) + MetadataScore(g.tags, text)
  {
  }

  /** What a TomTom match is worth: 12 when it is of the gym's name, with 6, 4 or 2 more within 50,
      150 or 250 metres and 2 more for a link; 4 when the names only resemble each other. */
  lemma MatchEvidence(m: Coverage.Match, text: Text)
    requires m.status == "matched" || m.status == "name_mismatch" || m.status == "missing_from_osm"
    ensures var worth := ExternalValidationScore(Coverage.ProvenanceOf(m), text);
            && (m.status == "missing_from_osm" ==> worth == 0)
            && (m.status == "name_mismatch" ==> worth == 4)
            && (m.status == "matched" ==>
                  worth == 12 + (if m.url.Some? && |text.strip(m.url.value)| > 0 then 2 else 0)
                           + (match m.distance
                              case None => 0
                              case Some(d) => if d > 150.0 then 2 else if d > 50.0 then 4 else 6))
  {
  }

  /******* Bands *******/

  // Lowest and highest score of a tier; other statuses have the full range.
  function Band(p: Provenance): (int, int) {
    if HasStatus(p, OSM_CONFIRMED) then (85, 100)
    else if HasStatus(p, OSM_NEARBY) then (70, 100)
    else if HasStatus(p, TOMTOM_CORROBORATED) then (40, 68)
    else if HasStatus(p, TOMTOM_ONLY) then (40, 100)
    else (0, 100)
  }

  /** Whatever the tags: corroborated gyms score 0.40 to 0.68, nearby ones 0.70 to 1.00, confirmed
      ones 0.85 to 1.00, and inside its band a score is the raw evidence plus the tier's boost. */
  lemma ScoresStayInBand(g: GymValue, text: Text)
    ensures var (lo, hi) := Band(g.provenance);
            var evidence := Raw(g, text) + if HasStatus(g.provenance, TOMTOM_CORROBORATED) then 6 else 0;
            && lo <= Confidence(g, text) <= hi
            && (lo <= evidence <= hi ==> Confidence(g, text) == evidence)
            && (evidence < lo ==> Confidence(g, text) == lo)
            && (evidence > hi ==> Confidence(g, text) == hi)
  {
    var status := g.provenance.matchStatus.GetOr("");
    assert status in TIERS
           <==> status == TOMTOM_ONLY || status == TOMTOM_CORROBORATED
                || status == OSM_NEARBY || status == OSM_CONFIRMED;
  }

  /** A corroborated gym always scores below every gym of either OpenStreetMap tier. */
  lemma CorroboratedBelowOsm(g: GymValue, h: GymValue, text: Text)
    requires HasStatus(g.provenance, TOMTOM_CORROBORATED)
    requires HasStatus(h.provenance, OSM_NEARBY) || HasStatus(h.provenance, OSM_CONFIRMED)
    ensures Confidence(g, text) < Confidence(h, text)
  {
    ScoresStayInBand(g, text);
    ScoresStayInBand(h, text);
  }

  /******* More tags, no lower score *******/

  lemma {:induction false} CountGrows(more: Tags, tags: Tags, keys: seq<string>, text: Text)
    requires Extends(more, tags)
    ensures CountPresent(tags, keys, text) <= CountPresent(more, keys, text) <= |keys|
  {
    if keys != [] {
      CountGrows(more, tags, keys[1..], text);
    }
  }

  // The empty text, stripped and lower-cased, names no taxonomy.
  ghost predicate TaxonomyNeedsText(text: Text) {
    text.lower(text.strip("")) != "fitness_centre" && text.lower(text.strip("")) != "gym"
  }

  lemma ContactGrows(more: Tags, tags: Tags, text: Text)
    requires Extends(more, tags)
    ensures ContactScore(tags, text) <= ContactScore(more, text)
  {
    CountGrows(more, tags, WEBSITE_TAGS, text);
    CountGrows(more, tags, PHONE_TAGS, text);
    CountGrows(more, tags, EMAIL_TAGS, text);
  }

  lemma CountedGrow(more: Tags, tags: Tags, text: Text)
    requires Extends(more, tags)
    ensures AddressScore(tags, text) <= AddressScore(more, text)
    ensures BrandScore(tags, text) <= BrandScore(more, text)
  {
    CountGrows(more, tags, ADDRESS_TAGS, text);
    CountGrows(more, tags, BRAND_TAGS, text);
  }

  lemma MetadataGrows(more: Tags, tags: Tags, text: Text)
    requires Extends(more, tags)
    ensures MetadataScore(tags, text) <= MetadataScore(more, text)
  {
    CountGrows(more, tags, METADATA_TAGS, text);
    CountGrows(more, tags, SOCIAL_TAGS, text);
  }

  lemma TaxonomyGrows(more: Tags, tags: Tags, text: Text)
    requires Extends(more, tags) && TaxonomyNeedsText(text)
    ensures TaxonomyScore(tags, text) <= TaxonomyScore(more, text)
  {
  }

  /** No component of the tag evidence falls when tags are added. */
  lemma TagScoreGrows(more: Tags, tags: Tags, text: Text)
    requires Extends(more, tags)
    requires TaxonomyNeedsText(text)
    ensures TagScore(tags, text) <= TagScore(more, text)
  {
    TaxonomyGrows(more, tags, text);
    CountedGrow(more, tags, text);
    ContactGrows(more, tags, text);
    MetadataGrows(more, tags, text);
  }

  /** Confirmation never lowers a score. */
  lemma ConfirmationNeverLowers(g: GymValue, cs: seq<Confirmation.Candidate>, dist: Distance, text: Text)
    requires TaxonomyNeedsText(text)
    ensures Confidence(Confirmation.Confirmed(g, cs, dist), text) >= Confidence(g, text)
  {
    var h := Confirmation.Confirmed(g, cs, dist);
    Confirmation.ConfirmationOnlyAddsTags(g, cs, dist, "");
    TagScoreGrows(h.tags, g.tags, text);
    if h != g {
      Confirmation.ConfirmationOutcome(g, cs, dist);
      ExternalUnchanged(g, h, text);
      ScoresStayInBand(g, text);
      ScoresStayInBand(h, text);
    }
  }

  lemma ExternalUnchanged(g: GymValue, h: GymValue, text: Text)
    requires HasStatus(g.provenance, TOMTOM_ONLY) && h.provenance.externalRefs == g.provenance.externalRefs
    requires h.provenance.matchStatus.GetOr("") in TIERS
    ensures ExternalValidationScore(h.provenance, text) == ExternalValidationScore(g.provenance, text)
  {
    var status := h.provenance.matchStatus.GetOr("");
    assert status == TOMTOM_ONLY || status == TOMTOM_CORROBORATED || status == OSM_NEARBY || status == OSM_CONFIRMED;
  }

  /** Brand corroboration does lower some scores: exactly those of gyms whose raw evidence exceeds
      0.68. It raises exactly those with evidence strictly between 0.34 and 0.68. */
  lemma CorroborationEffect(g: GymValue, places: seq<Confirmation.Place>, dist: Distance, text: Text)
    requires HasStatus(g.provenance, TOMTOM_ONLY) && Confirmation.BrandNearby(g, places, dist)
    ensures var h := Confirmation.Corroborated(g, places, dist);
            && (Confidence(h, text) < Confidence(g, text) <==> Raw(g, text) > 68)
            && (Confidence(h, text) > Confidence(g, text) <==> 34 < Raw(g, text) < 68)
  {
    var h := Confirmation.Corroborated(g, places, dist);
    ExternalUnchanged(g, h, text);
    ScoresStayInBand(g, text);
    ScoresStayInBand(h, text);
  }

  /** Merging a duplicate into a gym never lowers its score. */
  lemma MergingNeverLowers(g: GymValue, r: Ref, text: Text)
    ensures Confidence(g.(refs := g.refs + [r]), text) >= Confidence(g, text)
  {
    var h := g.(refs := g.refs + [r]);
    assert Raw(h, text) >= Raw(g, text);
    ScoresStayInBand(g, text);
    ScoresStayInBand(h, text);
  }

  // Both matches confirm the gym from the same distance band, and only `b` has a link.
  predicate LosesLink(a: Coverage.Match, b: Coverage.Match, text: Text) {
    && a.status == b.status == Coverage.MATCHED && DistanceScore(a.distance) == DistanceScore(b.distance)
    && !HasLink(a.url, text) && HasLink(b.url, text)
  }

  predicate IsStatus(status: string) { status in {Coverage.MATCHED, Coverage.NAME_MISMATCH, Coverage.MISSING} }

  lemma ValidationFallsIff(a: Coverage.Match, b: Coverage.Match, text: Text)
    requires Coverage.Better(a, b) && IsStatus(a.status) && IsStatus(b.status)
    ensures var before, after := ExternalValidationScore(Coverage.ProvenanceOf(b), text),
                                 ExternalValidationScore(Coverage.ProvenanceOf(a), text);
            if LosesLink(a, b, text) then after + 2 == before else before <= after
  {
  }

  /** Coverage and scoring disagree on what is better in one case: a gym that carries the match
      coverage prefers scores lower than with the other one exactly when both are matches from the
      same distance band, only the other one has a link, and the evidence is below 1.00. */
  lemma BetterMatchLowersIff(g: GymValue, a: Coverage.Match, b: Coverage.Match, text: Text)
    requires Coverage.Better(a, b) && IsStatus(a.status) && IsStatus(b.status)
    ensures var better := g.(provenance := Coverage.ProvenanceOf(a));
            Confidence(better, text) < Confidence(g.(provenance := Coverage.ProvenanceOf(b)), text)
            <==> LosesLink(a, b, text) && Raw(better, text) < 100
  {
    ValidationFallsIff(a, b, text);
    CoverageIsNoTier(a);
    CoverageIsNoTier(b);
  }

  lemma CoverageIsNoTier(m: Coverage.Match)
    requires IsStatus(m.status)
    ensures m.status !in TIERS
  {
  }

  /** The score table lists generic names with blanks, but a normalised name has none: of the six
      entries only three can ever match. */
  lemma GenericNamesThatCanMatch(norm: string)
    requires TextNormalization.Canonical(norm)
    ensures NameScore(norm) == 0 <==> norm in {"gym", "fitness", "ymca"}
  {
    var centre, center, club := "fitness centre", "fitness center", "health club";
    assert centre[7] == ' ' && center[7] == ' ' && club[6] == ' ';
  }

  /******* The method *******/

  // Adds up the evidence and stores the score on the gym.
  method ComputeConfidence(gym: Gym, text: Text) returns (score: nat)
    modifies gym`confidence
    ensures score == Confidence(old(gym.View()), text)
    ensures gym.View() == old(gym.View()).(confidence := Some(score))
  {
    var tags := gym.tags;
    score := 0;
    score := score + TaxonomyScore(tags, text);
    score := score + RefsScore(|gym.refs|);
    score := score + AddressScore(tags, text);
    score := score + ContactScore(tags, text);
    score := score + BrandScore(tags, text);
    score := score + MetadataScore(tags, text);
    score := score + NameScore(gym.norm);
    score := score + ExternalValidationScore(gym.provenance, text);
    score := Tiered(score, gym.provenance);
    score := Min(score, 100);
    gym.confidence := Some(score);
  }
}
