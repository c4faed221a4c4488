/** The live search request: provider places are deduplicated, seeded as TomTom-only gyms,
    confirmed against a fresh cache if there is one, corroborated by the brand search if one
    ran, scored, inferred, filtered, sorted by distance and cut to the limit. */
module LiveSearch {
  import opened Wrappers
  import opened Gyms
  import opened MatchTiers
  import C = Confirmation
  import D = Deduplication
  import E = Enrichment
  import F = Features
  import I = Inference
  import S = Scoring
  import Sorting

  // `cached`: the elements of a fresh local cache. `brand`: the brand search's results, absent
  // when it was not run or failed. `wanted`: whether a gym matches the query text.
  datatype Request = Request(
    elements: seq<D.Element>,
    project: (real, real) -> D.Point,
    cached: Option<seq<C.OsmElement>>,
    brand: Option<seq<C.Place>>,
    wanted: GymValue -> bool,
    limit: nat)

  /******* What becomes of one gym *******/

  function Seeded(g: GymValue, t: E.Task): GymValue {
    g.(id := Some(t.gymId(g.norm, g.lat, g.lon)),
       provenance := Provenance(Some("tomtom"), Some([]), Some(TOMTOM_ONLY), Some(NO_REFS)))
  }

  function Checked(g: GymValue, q: Request, t: E.Task): GymValue {
    if q.cached.Some? then C.Confirmed(g, C.Prepared(q.cached.value, t.normalize), t.dist) else g
  }

  function Branded(g: GymValue, q: Request, t: E.Task): GymValue {
    if q.brand.Some? then C.Corroborated(g, q.brand.value, t.dist) else g
  }

  function Matched(g: GymValue, q: Request, t: E.Task): GymValue { Branded(Checked(Seeded(g, t), q, t), q, t) }

  function Rated(g: GymValue, t: E.Task): GymValue {
    E.Stamped(g.(confidence := Some(t.score(g))), t.gymId)
  }

  function Processed(g: GymValue, q: Request, t: E.Task): GymValue { Rated(Matched(g, q, t), t) }

  /******* The list *******/

  function Kept(q: Request, t: E.Task): seq<GymValue> {
    D.Bucketed(q.elements, t.normalize, D.Geometry(t.dist, q.project))
  }

  function ProcessAll(gs: seq<GymValue>, q: Request, t: E.Task): seq<GymValue> {
    if gs == [] then [] else ProcessAll(gs[..|gs| - 1], q, t) + [Processed(gs[|gs| - 1], q, t)]
  }

  function Wanted(gs: seq<GymValue>, wanted: GymValue -> bool): seq<GymValue> {
    if gs == [] then []
    else if wanted(gs[|gs| - 1]) then Wanted(gs[..|gs| - 1], wanted) + [gs[|gs| - 1]]
    else Wanted(gs[..|gs| - 1], wanted)
  }

  function Nearer(t: E.Task): (GymValue, GymValue) -> bool {
    (a: GymValue, b: GymValue) => t.dist(t.lat, t.lon, a.lat, a.lon) <= t.dist(t.lat, t.lon, b.lat, b.lon)
  }

  function Found(q: Request, t: E.Task): seq<GymValue> {
    Sorting.Page(Sorting.Sort(Nearer(t), Wanted(ProcessAll(Kept(q, t), q, t), q.wanted)), 0, q.limit)
  }

  function PublishAll(gs: seq<GymValue>, t: E.Task): seq<E.SearchResult> {
    if gs == [] then [] else PublishAll(gs[..|gs| - 1], t) + [E.Published(gs[|gs| - 1], t)]
  }

  /******* Where every found gym comes from *******/

  // The gym is a kept gym, processed, and matches the query.
  ghost predicate ComesFrom(g: GymValue, gs: seq<GymValue>, q: Request, t: E.Task) {
    q.wanted(g) && exists i :: 0 <= i < |gs| && g == Processed(gs[i], q, t)
  }

  lemma {:induction false} ProcessedAt(gs: seq<GymValue>, q: Request, t: E.Task)
    ensures |ProcessAll(gs, q, t)| == |gs|
    ensures forall i :: 0 <= i < |gs| ==> ProcessAll(gs, q, t)[i] == Processed(gs[i], q, t)
  {
    if gs != [] {
      ProcessedAt(gs[..|gs| - 1], q, t);
    }
  }

  lemma {:induction false} WantedSelects(gs: seq<GymValue>, wanted: GymValue -> bool)
    ensures forall g :: g in Wanted(gs, wanted) <==> g in gs && wanted(g)
  {
    if gs != [] {
      var init, last := gs[..|gs| - 1], gs[|gs| - 1];
      WantedSelects(init, wanted);
      assert gs == init + [last];
    }
  }

  lemma FoundComesFrom(q: Request, t: E.Task, g: GymValue)
    requires g in Found(q, t)
    ensures ComesFrom(g, Kept(q, t), q, t)
  {
    var all := ProcessAll(Kept(q, t), q, t);
    var kept := Wanted(all, q.wanted);
    Sorting.SortKeeps(Nearer(t), kept);
    assert g in multiset(Sorting.Sort(Nearer(t), kept));
    assert g in kept;
    WantedSelects(all, q.wanted);
    ProcessedAt(Kept(q, t), q, t);
  }

  lemma NearerIsTotalPreorder(t: E.Task)
    ensures Sorting.TotalPreorder(Nearer(t))
  {
  }

  // Everything after a cut in a sorted list is at least as far as everything before it.
  lemma CutIsNearest(sorted: seq<GymValue>, limit: nat, t: E.Task, g: GymValue, h: GymValue)
    requires Sorting.SortedBy(Nearer(t), sorted)
    requires g in Sorting.Page(sorted, 0, limit) && h in sorted && h !in Sorting.Page(sorted, 0, limit)
    ensures |Sorting.Page(sorted, 0, limit)| == limit && Sorting.SortedBy(Nearer(t), Sorting.Page(sorted, 0, limit))
    ensures Nearer(t)(g, h)
  {
    var page := Sorting.Page(sorted, 0, limit);
    assert forall k :: 0 <= k < |page| ==> page[k] in page && page[k] == sorted[k];
    var i :| 0 <= i < |page| && page[i] == g;
    var j :| 0 <= j < |sorted| && sorted[j] == h;
    assert |page| <= j;
  }

  /** When a matching gym is left out, the list is full and no gym on it is farther from the search
      point than the one left out. */
  lemma NearestAreFound(q: Request, t: E.Task, g: GymValue, h: GymValue)
    requires g in Found(q, t)
    requires h in Wanted(ProcessAll(Kept(q, t), q, t), q.wanted) && h !in Found(q, t)
    ensures |Found(q, t)| == q.limit
    ensures t.dist(t.lat, t.lon, g.lat, g.lon) <= t.dist(t.lat, t.lon, h.lat, h.lon)
  {
    var kept := Wanted(ProcessAll(Kept(q, t), q, t), q.wanted);
    var sorted := Sorting.Sort(Nearer(t), kept);
    NearerIsTotalPreorder(t);
    Sorting.SortSorts(Nearer(t), kept);
    Sorting.SortKeeps(Nearer(t), kept);
    assert h in multiset(kept);
    assert h in multiset(sorted);
    CutIsNearest(sorted, q.limit, t, g, h);
  }

  lemma {:induction false} PublishedAt(gs: seq<GymValue>, t: E.Task)
    ensures |PublishAll(gs, t)| == |gs|
    ensures forall i :: 0 <= i < |gs| ==> PublishAll(gs, t)[i] == E.Published(gs[i], t)
  {
    if gs != [] {
      PublishedAt(gs[..|gs| - 1], t);
    }
  }

  lemma FoundLength(q: Request, t: E.Task)
    ensures var wanted := Wanted(ProcessAll(Kept(q, t), q, t), q.wanted);
            |Found(q, t)| == if |wanted| <= q.limit then |wanted| else q.limit
  {
    Sorting.SortKeeps(Nearer(t), Wanted(ProcessAll(Kept(q, t), q, t), q.wanted));
  }

  lemma FoundAscends(q: Request, t: E.Task, i: nat, j: nat)
    requires i < j < |Found(q, t)|
    ensures var a, b := Found(q, t)[i], Found(q, t)[j];
            t.dist(t.lat, t.lon, a.lat, a.lon) <= t.dist(t.lat, t.lon, b.lat, b.lon)
  {
    var wanted := Wanted(ProcessAll(Kept(q, t), q, t), q.wanted);
    NearerIsTotalPreorder(t);
    Sorting.SortSorts(Nearer(t), wanted);
    var sorted := Sorting.Sort(Nearer(t), wanted);
    assert Found(q, t)[i] == sorted[i] && Found(q, t)[j] == sorted[j];
    assert Nearer(t)(sorted[i], sorted[j]);
  }

  lemma PublishedDescribes(g: GymValue, t: E.Task)
    requires E.UsesEngine(t)
    ensures DescribesItself(E.Published(g, t), t)
    ensures E.Published(g, t).saved.lat == g.lat && E.Published(g, t).saved.lon == g.lon
  {
    E.EngineAt(g, t);
  }

  /** The served list, entry by entry: as long as the limit allows, from near to far, each with its
      own distance from the search point and with what its tags imply. */
  lemma ServedNearestFirst(q: Request, t: E.Task)
    requires E.UsesEngine(t)
    ensures var results := PublishAll(Found(q, t), t);
            var wanted := Wanted(ProcessAll(Kept(q, t), q, t), q.wanted);
            && |results| == (if |wanted| <= q.limit then |wanted| else q.limit)
            && (forall i :: 0 <= i < |results| ==> DescribesItself(results[i], t))
            && forall i, j :: 0 <= i < j < |results| ==> results[i].distance <= results[j].distance
  {
    FoundLength(q, t);
    var found := Found(q, t);
    PublishedAt(found, t);
    var results := PublishAll(found, t);
    forall i | 0 <= i < |found|
      ensures DescribesItself(results[i], t)
    {
      PublishedDescribes(found[i], t);
    }
    forall i, j | 0 <= i < j < |found|
      ensures results[i].distance <= results[j].distance
    {
      FoundAscends(q, t, i, j);
      assert results[i] == E.Published(found[i], t) && results[j] == E.Published(found[j], t);
    }
  }

  // A result's distance and inferences are those of the place and tags it shows.
  predicate DescribesItself(r: E.SearchResult, t: E.Task) {
    && r.distance == t.dist(t.lat, t.lon, r.saved.lat, r.saved.lon)
    && r.saved.tags.Some? && r.inferred == I.InferAll(F.Extracted(r.saved.tags.value, t.text))
  }

  // The four tiers of a found gym, with who confirmed it.
  predicate TomTomProvenance(p: Provenance) {
    && p.primary == Some("tomtom") && p.externalRefs == Some(ExternalRefs(None))
    && ((p.matchStatus == Some("tomtom_only") && p.confirmedBy == Some([]))
        || (p.matchStatus == Some("tomtom_corroborated") && p.confirmedBy == Some(["tomtom:brand_search"]))
        || (p.matchStatus == Some("osm_nearby") && p.confirmedBy == Some([]))
        || (p.matchStatus == Some("osm_confirmed") && p.confirmedBy == Some(["osm"])))
  }

  lemma MatchedProvenance(g: GymValue, q: Request, t: E.Task)
    ensures TomTomProvenance(Matched(g, q, t).provenance)
  {
    var start := Seeded(g, t);
    assert HasStatus(start.provenance, TOMTOM_ONLY);
    var cs := if q.cached.Some? then C.Prepared(q.cached.value, t.normalize) else [];
    C.ConfirmationOutcome(start, cs, t.dist);
    C.BestIsExact(start, cs, t.dist);
    assert Checked(start, q, t) == C.Confirmed(start, cs, t.dist);
  }

  // The same gym, with an id hashed from it, of TomTom origin, scored as it now is.
  predicate IsRated(g: GymValue, kept: GymValue, t: E.Task) {
    && g.name == kept.name && g.norm == kept.norm && g.lat == kept.lat && g.lon == kept.lon
    && g.refs == kept.refs && Extends(g.tags, kept.tags)
    && g.id == Some(t.gymId(g.norm, g.lat, g.lon)) && g.confidence == Some(S.Confidence(g, t.text))
    && TomTomProvenance(g.provenance)
  }

  lemma MatchedExtends(g: GymValue, q: Request, t: E.Task)
    ensures Extends(Matched(g, q, t).tags, g.tags)
  {
    var cs := if q.cached.Some? then C.Prepared(q.cached.value, t.normalize) else [];
    C.ConfirmationOnlyAddsTags(Seeded(g, t), cs, t.dist, "");
    assert Checked(Seeded(g, t), q, t).tags
        == if q.cached.Some? then C.Confirmed(Seeded(g, t), cs, t.dist).tags else g.tags;
  }

  lemma ProcessedIsRated(g: GymValue, q: Request, t: E.Task)
    requires E.UsesEngine(t) && IdsAreNeverEmpty(t)
    ensures IsRated(Processed(g, q, t), g, t)
  {
    var m, h := Matched(g, q, t), Processed(g, q, t);
    ProcessedKeeps(g, q, t);
    MatchedProvenance(g, q, t);
    MatchedExtends(g, q, t);
    E.EngineAt(m, t);
    E.ScoreIgnoresStamp(m, m.id, h.confidence, t.text);
  }

  /** Every found gym matches the query, is one of the deduplicated gyms under the id hashed from
      it, is of TomTom origin in one of the four tiers, and carries the score of what it shows. */
  lemma FoundMeans(q: Request, t: E.Task, g: GymValue) returns (k: nat)
    requires E.UsesEngine(t) && IdsAreNeverEmpty(t) && g in Found(q, t)
    ensures q.wanted(g) && k < |Kept(q, t)| && IsRated(g, Kept(q, t)[k], t)
  {
    FoundComesFrom(q, t, g);
    var gyms := Kept(q, t);
    k :| 0 <= k < |gyms| && g == Processed(gyms[k], q, t);
    ProcessedIsRated(gyms[k], q, t);
  }

  /******* A search's results are fit for enrichment *******/

  ghost predicate IdsAreNeverEmpty(t: E.Task) { forall norm, lat, lon :: t.gymId(norm, lat, lon) != "" }

  // What matching and rating leave alone, and where they lead.
  lemma ProcessedKeeps(g: GymValue, q: Request, t: E.Task)
    requires IdsAreNeverEmpty(t)
    ensures var h := Processed(g, q, t);
            && h.id == Some(t.gymId(g.norm, g.lat, g.lon))
            && h.name == g.name && h.norm == g.norm && h.lat == g.lat && h.lon == g.lon && h.refs == g.refs
            && h.confidence == Some(t.score(Matched(g, q, t)))
            && h == Matched(g, q, t).(confidence := h.confidence)
  {
    assert t.gymId(g.norm, g.lat, g.lon) != "";
  }

  lemma ProcessedIsAsSearched(g: GymValue, q: Request, t: E.Task)
    requires E.UsesEngine(t) && IdsAreNeverEmpty(t)
    requires g.norm == t.normalize(g.name)
    ensures var h := Processed(g, q, t);
            E.AsSearched(E.Published(h, t), h, t)
  {
    var m, h := Matched(g, q, t), Processed(g, q, t);
    ProcessedKeeps(g, q, t);
    E.EngineAt(m, t);
    E.EngineAt(h, t);
    E.ScoreIgnoresStamp(m, m.id, h.confidence, t.text);
  }

  /** Every result of a search is as the enrichment theorems require it: scored, with an id, and
      with a match key that persistence keeps. */
  lemma FoundIsAsSearched(q: Request, t: E.Task, g: GymValue)
    requires E.UsesEngine(t) && IdsAreNeverEmpty(t)
    requires g in Found(q, t)
    ensures E.AsSearched(E.Published(g, t), g, t)
  {
    FoundComesFrom(q, t, g);
    var kept := Kept(q, t);
    var i :| 0 <= i < |kept| && g == Processed(kept[i], q, t);
    D.BucketedNames(q.elements, t.normalize, D.Geometry(t.dist, q.project));
    ProcessedIsAsSearched(kept[i], q, t);
  }

  /** From search to enrichment: whatever OpenStreetMap later returns, the enriched result of any
      found gym is the same gym at the same distance, and no worse. */
  lemma SearchThenEnrichOnlyImproves(q: Request, t: E.Task, g: GymValue)
    requires E.UsesEngine(t) && IdsAreNeverEmpty(t) && S.TaxonomyNeedsText(t.text)
    requires g in Found(q, t)
    ensures var was := E.Published(g, t);
            var now := E.EnrichedResult(was, t);
            E.SameGym(now.saved, was.saved) && now.distance == was.distance && E.AtLeast(now, was)
  {
    FoundIsAsSearched(q, t, g);
    E.EnrichmentOnlyImproves(E.Published(g, t), g, t);
  }

  /** The tier a kept gym is matched to, by what lies around it: any element of the cache outranks the
      brand search. */
  lemma MatchedTier(q: Request, t: E.Task, g: GymValue)
    ensures var start := Seeded(g, t);
            var cs := if q.cached.Some? then C.Prepared(q.cached.value, t.normalize) else [];
            var branded := q.brand.Some? && C.BrandNearby(start, q.brand.value, t.dist);
            var status := E.Status(Matched(g, q, t));
            && (status == "osm_confirmed" <==> C.SomeInRange(start, cs, t.dist, true))
            && (status == "osm_nearby"
                <==> C.SomeInRange(start, cs, t.dist, false) && !C.SomeInRange(start, cs, t.dist, true))
            && (status == "tomtom_corroborated"
                <==> branded && !C.SomeInRange(start, cs, t.dist, true) && !C.SomeInRange(start, cs, t.dist, false))
  {
    var start := Seeded(g, t);
    var cs := if q.cached.Some? then C.Prepared(q.cached.value, t.normalize) else [];
    C.ConfirmationOutcome(start, cs, t.dist);
    C.BestIsExact(start, cs, t.dist);
    assert Checked(start, q, t) == C.Confirmed(start, cs, t.dist);
    if q.brand.Some? {
      SamePlaceBrand(Checked(start, q, t), start, q, t);
    }
  }

  lemma SamePlaceBrand(a: GymValue, b: GymValue, q: Request, t: E.Task)
    requires a.lat == b.lat && a.lon == b.lon && q.brand.Some?
    ensures C.BrandNearby(a, q.brand.value, t.dist) == C.BrandNearby(b, q.brand.value, t.dist)
  {
  }

  /******* The request *******/

  method Seed(gyms: seq<Gym>, t: E.Task)
    requires Distinct(gyms)
    modifies Objects(gyms)
    ensures forall i :: 0 <= i < |gyms| ==> gyms[i].View() == Seeded(old(gyms[i].View()), t)
  {
    for n := 0 to |gyms|
      invariant forall i :: 0 <= i < n ==> gyms[i].View() == Seeded(old(gyms[i].View()), t)
      invariant forall i :: n <= i < |gyms| ==> gyms[i].View() == old(gyms[i].View())
    {
      var gym := gyms[n];
      assert gym in gyms;
      gym.id := Some(t.gymId(gym.norm, gym.lat, gym.lon));
      gym.provenance := Provenance(Some("tomtom"), Some([]), Some(TOMTOM_ONLY), Some(NO_REFS));
    }
  }

  method MatchAll(gyms: seq<Gym>, q: Request, t: E.Task)
    requires Distinct(gyms)
    modifies Objects(gyms)
    ensures forall i :: 0 <= i < |gyms| ==> gyms[i].View() == Matched(old(gyms[i].View()), q, t)
  {
    Seed(gyms, t);
    assert forall i :: 0 <= i < |gyms| ==> gyms[i] in gyms;
    if q.cached.Some? {
      C.ApplyOsmConfirmation(gyms, q.cached.value, t.normalize, t.dist);
    }
    assert forall i :: 0 <= i < |gyms| ==> gyms[i].View() == Checked(Seeded(old(gyms[i].View()), t), q, t);
    if q.brand.Some? {
      C.ApplyTomTomBrandCorroboration(gyms, q.brand.value, t.dist);
    }
  }

  method RateOne(gym: Gym, t: E.Task)
    requires E.UsesEngine(t)
    modifies gym
    ensures gym.View() == Rated(old(gym.View()), t)
  {
    E.UpdateScore(gym, t);
    E.StampId(gym, t.gymId);
  }

  method RateAll(gyms: seq<Gym>, t: E.Task)
    requires E.UsesEngine(t) && Distinct(gyms)
    modifies Objects(gyms)
    ensures forall i :: 0 <= i < |gyms| ==> gyms[i].View() == Rated(old(gyms[i].View()), t)
  {
    ghost var all := Views(gyms);
    for n := 0 to |gyms|
      invariant forall i :: 0 <= i < n ==> gyms[i].View() == Rated(all[i], t)
      invariant forall i :: n <= i < |gyms| ==> gyms[i].View() == all[i]
    {
      assert gyms[n] in gyms;
      RateOne(gyms[n], t);
    }
  }

  // The comprehension that keeps the matching gyms; from here on gyms are only read.
  method Select(gyms: seq<Gym>, wanted: GymValue -> bool) returns (kept: seq<GymValue>)
    ensures kept == Wanted(Views(gyms), wanted)
  {
    kept := [];
    ghost var all := Views(gyms);
    for n := 0 to |gyms|
      invariant kept == Wanted(all[..n], wanted)
    {
      assert all[..n + 1][..n] == all[..n];
      if wanted(gyms[n].View()) {
        kept := kept + [gyms[n].View()];
      }
    }
    assert all[..|all|] == all;
  }

  method Serve(q: Request, t: E.Task) returns (results: seq<E.SearchResult>)
    requires E.UsesEngine(t)
    ensures results == PublishAll(Found(q, t), t)
  {
    var gyms := D.Deduplicate(q.elements, t.normalize, D.Geometry(t.dist, q.project));
    ghost var first := Views(gyms);
    MatchAll(gyms, q, t);
    RateAll(gyms, t);
    ProcessedAt(first, q, t);
    assert Views(gyms) == ProcessAll(first, q, t);
    var kept := Select(gyms, q.wanted);
    var found := Sorting.Page(Sorting.Sort(Nearer(t), kept), 0, q.limit);
    results := PublishAll(found, t);
  }
}
