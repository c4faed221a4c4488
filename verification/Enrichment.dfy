/** Background enrichment of a persisted live search: results are hydrated into gyms, confirmed
    against OpenStreetMap, rescored, re-inferred and serialised again.

    `normalize` stands for normalize_name, `gymId` for compute_gym_id and `dist` for haversine
    distance. A dictionary is modelled by the keys that are read of it. */
module Enrichment {
  import opened Wrappers
  import opened Gyms
  import opened MatchTiers
  import C = Confirmation
  import S = Scoring
  import F = Features
  import I = Inference

  // One entry of a session's result list; `None` is an absent or null key.
  datatype Saved = Saved(
    id: Option<string>,
    name: string,
    norm: Option<string>,
    lat: real,
    lon: real,
    confidence: Option<int>,
    refs: Option<seq<Ref>>,
    tags: Option<Tags>,
    provenance: Option<Provenance>)

  datatype SearchResult = SearchResult(saved: Saved, inferred: I.Inferred, distance: real)

  /******* Persistence *******/

  function NormalizeProvenance(p: Option<Provenance>): Provenance {
    if p.None? then DEFAULT_PROVENANCE
    else Provenance(
      Some(p.value.primary.GetOr("osm")),
      Some(p.value.confirmedBy.GetOr([])),
      Some(p.value.matchStatus.GetOr("unconfirmed")),
      Some(p.value.externalRefs.GetOr(NO_REFS)))
  }

  function NameKey(norm: string, name: string, normalize: string -> string): string {
    if norm != "" then norm else normalize(name)
  }

  function Serialize(g: GymValue, normalize: string -> string): Saved {
    Saved(g.id, g.name, Some(NameKey(g.norm, g.name, normalize)), g.lat, g.lon, g.confidence,
          Some(g.refs), Some(g.tags), Some(NormalizeProvenance(Some(g.provenance))))
  }

  // A missing id reads as the text of Python's None.
  function Hydrate(s: Saved, normalize: string -> string): GymValue {
    GymValue(Some(s.id.GetOr("None")), s.name, NameKey(s.norm.GetOr(""), s.name, normalize), s.lat, s.lon,
             s.refs.GetOr([]), s.tags.GetOr(map[]), s.confidence, NormalizeProvenance(s.provenance))
  }

  function Persisted(g: GymValue, normalize: string -> string): GymValue { Hydrate(Serialize(g, normalize), normalize) }

  // Absent provenance keys filled in.
  function Tidy(g: GymValue): GymValue { g.(provenance := NormalizeProvenance(Some(g.provenance))) }

  // The gym has an id, and its match key is not one that persistence would recompute.
  predicate Storable(g: GymValue, normalize: string -> string) {
    g.id.Some? && (g.norm != "" || normalize(g.name) == "")
  }

  /** Persisting and reloading a gym keeps every field, up to filled-in provenance keys, exactly
      when it has an id and a match key that is not recomputed. */
  lemma RoundTripIffStorable(g: GymValue, normalize: string -> string)
    ensures Persisted(g, normalize) == Tidy(g) <==> Storable(g, normalize)
  {
    assert Persisted(g, normalize).id == Some(g.id.GetOr("None"));
    assert Persisted(g, normalize).norm == NameKey(NameKey(g.norm, g.name, normalize), g.name, normalize);
  }

  /** Tidying is idempotent, and the identity on provenance with all four keys, which is what a
      live search starts from. */
  lemma TidyIsIdempotent(g: GymValue)
    ensures Tidy(Tidy(g)) == Tidy(g)
    ensures Tidy(g) == g <==> g.provenance.primary.Some? && g.provenance.confirmedBy.Some?
                              && g.provenance.matchStatus.Some? && g.provenance.externalRefs.Some?
  {
    var p, q := g.provenance, NormalizeProvenance(Some(g.provenance));
    assert Tidy(g) == g <==> p == q;
  }

  /******* Enrichment of one gym *******/

  function Scored(g: GymValue, text: Text): GymValue { g.(confidence := Some(S.Confidence(g, text))) }

  function Enriched(g: GymValue, cs: seq<C.Candidate>, dist: Distance, text: Text): GymValue {
    Scored(C.Confirmed(g, cs, dist), text)
  }

  lemma ChoiceIgnoresProvenance(g: GymValue, h: GymValue, cs: seq<C.Candidate>, dist: Distance)
    requires g.norm == h.norm && g.lat == h.lat && g.lon == h.lon
    ensures C.Best(g, cs, dist) == C.Best(h, cs, dist)
  {
    if cs != [] {
      ChoiceIgnoresProvenance(g, h, cs[..|cs| - 1], dist);
    }
  }

  lemma ConfirmTidy(g: GymValue, cs: seq<C.Candidate>, dist: Distance)
    ensures C.Confirmed(Tidy(g), cs, dist) == Tidy(C.Confirmed(g, cs, dist))
  {
    ChoiceIgnoresProvenance(g, Tidy(g), cs, dist);
  }

  lemma ScoreTidy(g: GymValue, text: Text)
    ensures S.Confidence(Tidy(g), text) == S.Confidence(g, text)
  {
    var p, q := g.provenance, Tidy(g).provenance;
    assert S.ExternalValidationScore(q, text) == S.ExternalValidationScore(p, text);
    assert S.Raw(Tidy(g), text) == S.Raw(g, text);
    if p.matchStatus.None? {
      assert q.matchStatus.value == "unconfirmed";
      UnconfirmedIsNoTier();
    }
  }

  lemma UnconfirmedIsNoTier()
    ensures "unconfirmed" !in TIERS && "" !in TIERS
  {
    assert |"unconfirmed"| == 11 && |TOMTOM_ONLY| == 11 && TOMTOM_ONLY[0] == 't';
  }

  /** Enrichment commutes with persistence: enriching a reloaded gym gives what reloading the
      enriched gym would. */
  lemma EnrichmentCommutesWithPersistence(g: GymValue, cs: seq<C.Candidate>, dist: Distance, text: Text,
                                          normalize: string -> string)
    requires Storable(g, normalize)
    ensures Enriched(Persisted(g, normalize), cs, dist, text) == Persisted(Enriched(g, cs, dist, text), normalize)
    ensures Enriched(Persisted(g, normalize), cs, dist, text) == Tidy(Enriched(g, cs, dist, text))
  {
    var confirmed := C.Confirmed(g, cs, dist);
    RoundTripIffStorable(g, normalize);
    RoundTripIffStorable(Enriched(g, cs, dist, text), normalize);
    ConfirmTidy(g, cs, dist);
    ScoreTidy(confirmed, text);
  }

  /******* Runs *******/

  datatype Op =
    | Confirm(candidates: seq<C.Candidate>)
    | Corroborate(places: seq<C.Place>)
    | Rescore
    | Persist

  function Apply(g: GymValue, op: Op, dist: Distance, text: Text, normalize: string -> string): GymValue {
    match op
    case Confirm(cs) => C.Confirmed(g, cs, dist)
    case Corroborate(ps) => C.Corroborated(g, ps, dist)
    case Rescore => Scored(g, text)
    case Persist => Persisted(g, normalize)
  }

  function Run(g: GymValue, ops: seq<Op>, dist: Distance, text: Text, normalize: string -> string): GymValue {
    if ops == [] then g
    else Apply(Run(g, ops[..|ops| - 1], dist, text, normalize), ops[|ops| - 1], dist, text, normalize)
  }

  function Status(g: GymValue): string { g.provenance.matchStatus.GetOr("unconfirmed") }

  // Match and tags are as they were.
  predicate SameOutcome(g: GymValue, h: GymValue) {
    && Status(g) == Status(h) && g.tags == h.tags
    && NormalizeProvenance(Some(g.provenance)) == NormalizeProvenance(Some(h.provenance))
  }

  lemma SettledStays(g: GymValue, op: Op, dist: Distance, text: Text, normalize: string -> string)
    requires Status(g) != TOMTOM_ONLY
    ensures SameOutcome(Apply(g, op, dist, text, normalize), g)
  {
  }

  /** Over every sequence of confirmations, brand searches, rescorings and reloads, a gym leaves
      TomTom-only at most once: from then on status, provenance and tags never change. */
  lemma {:induction false} StatusSettlesOnce(g: GymValue, ops: seq<Op>, n: nat, dist: Distance, text: Text,
                                             normalize: string -> string)
    requires n <= |ops|
    requires Status(Run(g, ops[..n], dist, text, normalize)) != TOMTOM_ONLY
    ensures SameOutcome(Run(g, ops, dist, text, normalize), Run(g, ops[..n], dist, text, normalize))
    decreases |ops|
  {
    if n == |ops| {
      assert ops[..n] == ops;
    } else {
      var init := ops[..|ops| - 1];
      assert init[..n] == ops[..n];
      StatusSettlesOnce(g, init, n, dist, text, normalize);
      SettledStays(Run(g, init, dist, text, normalize), ops[|ops| - 1], dist, text, normalize);
    }
  }

  /** No operation touches a gym's name, place or references, removes a tag or changes one. */
  lemma {:induction false} RunsKeepIdentity(g: GymValue, ops: seq<Op>, dist: Distance, text: Text,
                                            normalize: string -> string)
    requires Storable(g, normalize)
    ensures var h := Run(g, ops, dist, text, normalize);
            && h.id == g.id && h.name == g.name && h.norm == g.norm && h.lat == g.lat && h.lon == g.lon
            && h.refs == g.refs && Extends(h.tags, g.tags)
  {
    if ops != [] {
      RunsKeepIdentity(g, ops[..|ops| - 1], dist, text, normalize);
      RoundTripIffStorable(Run(g, ops[..|ops| - 1], dist, text, normalize), normalize);
    }
  }

  /** Once the brand search is over, whatever confirmations, rescorings and reloads follow, the
      score never falls. */
  lemma {:induction false} RunsNeverLowerTheScore(g: GymValue, ops: seq<Op>, dist: Distance, text: Text,
                                                  normalize: string -> string)
    requires Storable(g, normalize) && S.TaxonomyNeedsText(text)
    requires forall i :: 0 <= i < |ops| ==> !ops[i].Corroborate?
    ensures S.Confidence(Run(g, ops, dist, text, normalize), text) >= S.Confidence(g, text)
  {
    if ops != [] {
      var init, op := ops[..|ops| - 1], ops[|ops| - 1];
      var before := Run(g, init, dist, text, normalize);
      RunsNeverLowerTheScore(g, init, dist, text, normalize);
      RunsKeepIdentity(g, init, dist, text, normalize);
      StepNeverLowersTheScore(before, op, dist, text, normalize);
    }
  }

  lemma StepNeverLowersTheScore(g: GymValue, op: Op, dist: Distance, text: Text, normalize: string -> string)
    requires Storable(g, normalize) && S.TaxonomyNeedsText(text) && !op.Corroborate?
    ensures S.Confidence(Apply(g, op, dist, text, normalize), text) >= S.Confidence(g, text)
  {
    match op
    case Confirm(cs) => S.ConfirmationNeverLowers(g, cs, dist, text);
    case Rescore => assert S.Raw(Scored(g, text), text) == S.Raw(g, text);
    case Persist =>
      RoundTripIffStorable(g, normalize);
      ScoreTidy(g, text);
  }

  /******* The background task *******/

  type GymId = (string, real, real) -> string

  // apply_inference stamps an id on a gym that has none.
  function Stamped(g: GymValue, gymId: GymId): GymValue {
    if g.id.GetOr("") != "" then g else g.(id := Some(gymId(g.norm, g.lat, g.lon)))
  }

  // `score` and `infer` name what compute_confidence and run_inference compute.
  datatype Task = Task(
    elements: seq<C.OsmElement>,
    lat: real,
    lon: real,
    dist: Distance,
    text: Text,
    normalize: string -> string,
    gymId: GymId,
    score: GymValue -> nat,
    infer: Tags -> I.Inferred)

  ghost predicate UsesEngine(t: Task) {
    && (forall g: GymValue {:trigger S.Confidence(g, t.text)} :: t.score(g) == S.Confidence(g, t.text))
    && (forall tags: Tags {:trigger F.Extracted(tags, t.text)} ::
          t.infer(tags) == I.InferAll(F.Extracted(tags, t.text)))
  }

  /** For every request there is a task whose score and inference are the engine's own. */
  lemma EngineTask(elements: seq<C.OsmElement>, lat: real, lon: real, dist: Distance, text: Text,
                   normalize: string -> string, gymId: GymId)
    returns (t: Task)
    ensures UsesEngine(t)
    ensures t == Task(elements, lat, lon, dist, text, normalize, gymId, t.score, t.infer)
  {
    t := Task(elements, lat, lon, dist, text, normalize, gymId,
              (g: GymValue) => S.Confidence(g, text), (tags: Tags) => I.InferAll(F.Extracted(tags, text)));
  }

  function Published(g: GymValue, t: Task): SearchResult {
    SearchResult(Serialize(g, t.normalize), t.infer(g.tags), t.dist(t.lat, t.lon, g.lat, g.lon))
  }

  // A gym after scoring and stamping, as it is written back.
  function Outcome(g: GymValue, t: Task): SearchResult {
    Published(Stamped(g.(confidence := Some(t.score(g))), t.gymId), t)
  }

  // What the task makes of one persisted result.
  function EnrichedResult(r: SearchResult, t: Task): SearchResult {
    Outcome(C.Confirmed(Hydrate(r.saved, t.normalize), C.Prepared(t.elements, t.normalize), t.dist), t)
  }

  // A result as the search that created the session wrote it.
  predicate AsSearched(r: SearchResult, g: GymValue, t: Task) {
    && r == Published(g, t)
    && g.confidence == Some(t.score(g))
    && g.id.GetOr("") != "" && Storable(g, t.normalize)
  }

  ghost predicate AtLeast(now: SearchResult, was: SearchResult) {
    && now.saved.confidence.Some? && was.saved.confidence.Some?
    && now.saved.confidence.value >= was.saved.confidence.value
    && now.inferred.premium.value >= was.inferred.premium.value
    && I.TierRank(now.inferred.tier.value) >= I.TierRank(was.inferred.tier.value)
    && (was.inferred.alwaysOpen.value ==> now.inferred.alwaysOpen.value)
    && (was.inferred.lifter.value ==> now.inferred.lifter.value)
  }

  ghost predicate SameGym(now: Saved, was: Saved) {
    && now.id == was.id && now.name == was.name && now.norm == was.norm
    && now.lat == was.lat && now.lon == was.lon && now.refs == was.refs
    && now.tags.Some? && was.tags.Some? && Extends(now.tags.value, was.tags.value)
  }

  lemma EngineAt(g: GymValue, t: Task)
    requires UsesEngine(t)
    ensures t.score(g) == S.Confidence(g, t.text)
    ensures t.infer(g.tags) == I.InferAll(F.Extracted(g.tags, t.text))
  {
    var score, features := S.Confidence(g, t.text), F.Extracted(g.tags, t.text);
  }

  /** The task's result for a gym is what publishing the enriched original would have given. */
  lemma TaskCommutesWithPersistence(r: SearchResult, g: GymValue, t: Task)
    requires AsSearched(r, g, t) && UsesEngine(t)
    ensures EnrichedResult(r, t) == Published(Enriched(g, C.Prepared(t.elements, t.normalize), t.dist, t.text), t)
  {
    var cs := C.Prepared(t.elements, t.normalize);
    var confirmed := C.Confirmed(g, cs, t.dist);
    RoundTripIffStorable(g, t.normalize);
    ConfirmTidy(g, cs, t.dist);
    EngineAt(Tidy(confirmed), t);
    ScoreTidy(confirmed, t.text);
    PublishTidy(Scored(confirmed, t.text), t);
  }

  lemma PublishTidy(g: GymValue, t: Task)
    ensures Published(Tidy(g), t) == Published(g, t)
  {
    TidyIsIdempotent(g);
  }

  lemma InferencePart(more: Tags, tags: Tags, t: Task)
    requires UsesEngine(t) && Extends(more, tags)
    ensures var now, was := t.infer(more), t.infer(tags);
            && now.premium.value >= was.premium.value && I.TierRank(now.tier.value) >= I.TierRank(was.tier.value)
            && (was.alwaysOpen.value ==> now.alwaysOpen.value) && (was.lifter.value ==> now.lifter.value)
  {
    I.InferenceNeverWorsens(more, tags, t.text);
  }

  lemma EnrichedIsSameGym(g: GymValue, cs: seq<C.Candidate>, t: Task)
    ensures var after := Enriched(g, cs, t.dist, t.text);
            && SameGym(Published(after, t).saved, Published(g, t).saved)
            && Published(after, t).distance == Published(g, t).distance
            && Extends(after.tags, g.tags)
  {
    C.ConfirmationOnlyAddsTags(g, cs, t.dist, "");
  }

  lemma EnrichedScoreIsNoLower(g: GymValue, cs: seq<C.Candidate>, t: Task)
    requires UsesEngine(t) && S.TaxonomyNeedsText(t.text) && g.confidence == Some(t.score(g))
    ensures Enriched(g, cs, t.dist, t.text).confidence.value >= g.confidence.value
  {
    EngineAt(g, t);
    S.ConfirmationNeverLowers(g, cs, t.dist, t.text);
  }

  /** End to end, over any elements: an enriched result is the same gym in the same place at the
      same distance with every tag it had, and its score, premium score and tier are no worse. */
  lemma EnrichmentOnlyImproves(r: SearchResult, g: GymValue, t: Task)
    requires AsSearched(r, g, t) && UsesEngine(t) && S.TaxonomyNeedsText(t.text)
    ensures var now := EnrichedResult(r, t);
            SameGym(now.saved, r.saved) && now.distance == r.distance && AtLeast(now, r)
  {
    var cs := C.Prepared(t.elements, t.normalize);
    TaskCommutesWithPersistence(r, g, t);
    EnrichedIsSameGym(g, cs, t);
    EnrichedScoreIsNoLower(g, cs, t);
    InferencePart(Enriched(g, cs, t.dist, t.text).tags, g.tags, t);
  }

  /** Missing provenance, and missing keys in it, read as those of an unconfirmed gym from
      OpenStreetMap. */
  lemma MissingProvenanceReads(p: Provenance)
    ensures NormalizeProvenance(None) == NormalizeProvenance(Some(Provenance(None, None, None, None)))
    ensures NormalizeProvenance(None)
            == Provenance(Some("osm"), Some([]), Some("unconfirmed"), Some(ExternalRefs(None)))
    ensures var q := NormalizeProvenance(Some(p));
            && q.primary.Some? && (p.primary.Some? ==> q.primary == p.primary)
            && q.confirmedBy.Some? && (p.confirmedBy.Some? ==> q.confirmedBy == p.confirmedBy)
            && q.matchStatus.Some? && (p.matchStatus.Some? ==> q.matchStatus == p.matchStatus)
            && q.externalRefs.Some? && (p.externalRefs.Some? ==> q.externalRefs == p.externalRefs)
  {
  }

  /** Scoring ignores the id and the score a gym already has. */
  lemma ScoreIgnoresStamp(g: GymValue, id: Option<string>, c: Option<int>, text: Text)
    ensures S.Confidence(g.(id := id, confidence := c), text) == S.Confidence(g, text)
  {
    assert S.Raw(g.(id := id, confidence := c), text) == S.Raw(g, text);
  }

  // Scoring what an outcome stores gives the score it stores.
  lemma OutcomeScore(g: GymValue, t: Task)
    requires UsesEngine(t) && Storable(g, t.normalize)
    ensures var now := Outcome(g, t);
            now.saved.confidence == Some(S.Confidence(Hydrate(now.saved, t.normalize), t.text))
  {
    var h := Stamped(g.(confidence := Some(t.score(g))), t.gymId);
    EngineAt(g, t);
    ScoreIgnoresStamp(g, h.id, h.confidence, t.text);
    RoundTripIffStorable(h, t.normalize);
    ScoreTidy(h, t.text);
  }

  lemma OutcomeFields(g: GymValue, t: Task)
    requires UsesEngine(t)
    ensures var now := Outcome(g, t);
            && now.distance == t.dist(t.lat, t.lon, g.lat, g.lon)
            && now.saved.lat == g.lat && now.saved.lon == g.lon && now.saved.name == g.name
            && now.saved.refs == Some(g.refs) && now.saved.tags == Some(g.tags)
            && now.inferred == I.InferAll(F.Extracted(g.tags, t.text))
  {
    EngineAt(g, t);
  }

  /** An enriched result describes itself: its distance is that of the place it shows, its inferences
      those of its tags, and its score is what scoring the stored gym gives; whatever was stored
      before, its place and references are kept. */
  lemma EnrichedDescribesItself(r: SearchResult, t: Task)
    requires UsesEngine(t)
    ensures var now := EnrichedResult(r, t);
            && now.distance == t.dist(t.lat, t.lon, r.saved.lat, r.saved.lon)
            && now.saved.lat == r.saved.lat && now.saved.lon == r.saved.lon && now.saved.name == r.saved.name
            && now.saved.refs == Some(if r.saved.refs.Some? then r.saved.refs.value else []) && now.saved.tags.Some?
            && now.inferred == I.InferAll(F.Extracted(now.saved.tags.value, t.text))
            && now.saved.confidence == Some(S.Confidence(Hydrate(now.saved, t.normalize), t.text))
  {
    var g := Hydrate(r.saved, t.normalize);
    var confirmed := C.Confirmed(g, C.Prepared(t.elements, t.normalize), t.dist);
    OutcomeFields(confirmed, t);
    OutcomeScore(confirmed, t);
  }

  method HydrateGym(s: Saved, normalize: string -> string) returns (gym: Gym)
    ensures fresh(gym) && gym.View() == Hydrate(s, normalize)
  {
    gym := new Gym(s.name, NameKey(s.norm.GetOr(""), s.name, normalize), s.lat, s.lon,
                   s.refs.GetOr([]), s.tags.GetOr(map[]));
    gym.id := Some(s.id.GetOr("None"));
    gym.confidence := s.confidence;
    gym.provenance := NormalizeProvenance(s.provenance);
  }

  lemma OneMore(gyms: seq<Gym>, gym: Gym)
    ensures Objects(gyms + [gym]) == Objects(gyms) + {gym}
    ensures Distinct(gyms) && gym !in gyms ==> Distinct(gyms + [gym])
  {
  }

  method HydrateAll(results: seq<SearchResult>, normalize: string -> string) returns (gyms: seq<Gym>)
    ensures fresh(Objects(gyms)) && Distinct(gyms) && |gyms| == |results|
    ensures forall i :: 0 <= i < |gyms| ==> gyms[i].View() == Hydrate(results[i].saved, normalize)
  {
    gyms := [];
    for n := 0 to |results|
      invariant fresh(Objects(gyms))
      invariant Distinct(gyms)
      invariant |gyms| == n
      invariant forall i :: 0 <= i < |gyms| ==> gyms[i].View() == Hydrate(results[i].saved, normalize)
    {
      var gym := HydrateGym(results[n].saved, normalize);
      assert gym !in gyms;
      OneMore(gyms, gym);
      gyms := gyms + [gym];
    }
  }

  method StampId(gym: Gym, gymId: GymId)
    modifies gym`id
    ensures gym.View() == Stamped(old(gym.View()), gymId)
  {
    if gym.id.GetOr("") == "" {
      gym.id := Some(gymId(gym.norm, gym.lat, gym.lon));
    }
  }

  method Publish(gym: Gym, t: Task) returns (r: SearchResult)
    requires UsesEngine(t)
    ensures r == Published(gym.View(), t)
  {
    var inferred, confidence := I.RunInference(gym.tags, t.text);
    r := SearchResult(Serialize(gym.View(), t.normalize), inferred, t.dist(t.lat, t.lon, gym.lat, gym.lon));
  }

  method UpdateScore(gym: Gym, t: Task)
    requires UsesEngine(t)
    modifies gym`confidence
    ensures gym.View() == old(gym.View()).(confidence := Some(t.score(old(gym.View()))))
  {
    var score := S.ComputeConfidence(gym, t.text);
  }

  method FinishOne(gym: Gym, t: Task) returns (r: SearchResult)
    requires UsesEngine(t)
    modifies gym
    ensures r == Outcome(old(gym.View()), t)
  {
    UpdateScore(gym, t);
    StampId(gym, t.gymId);
    r := Publish(gym, t);
  }

  // Scores, infers and serialises the gyms one after another.
  method FinishAll(gyms: seq<Gym>, t: Task) returns (enriched: seq<SearchResult>)
    requires UsesEngine(t) && Distinct(gyms)
    modifies Objects(gyms)
    ensures |enriched| == |gyms|
    ensures forall i :: 0 <= i < |gyms| ==> enriched[i] == Outcome(old(gyms[i].View()), t)
  {
    enriched := [];
    ghost var was := Views(gyms);
    for n := 0 to |gyms|
      invariant |enriched| == n
      invariant forall i :: 0 <= i < n ==> enriched[i] == Outcome(was[i], t)
      invariant forall i :: n <= i < |gyms| ==> gyms[i].View() == was[i]
    {
      assert gyms[n] in gyms;
      var r := FinishOne(gyms[n], t);
      enriched := enriched + [r];
    }
  }

  /** The task's loop: one enriched result for each persisted one, in the same order. */
  method EnrichResults(results: seq<SearchResult>, t: Task) returns (enriched: seq<SearchResult>)
    requires UsesEngine(t)
    ensures |enriched| == |results|
    ensures forall i :: 0 <= i < |results| ==> enriched[i] == EnrichedResult(results[i], t)
  {
    var gyms := HydrateAll(results, t.normalize);
    C.ApplyOsmConfirmation(gyms, t.elements, t.normalize, t.dist);
    assert forall i :: 0 <= i < |gyms| ==> gyms[i] in gyms;
    enriched := FinishAll(gyms, t);
  }
}
