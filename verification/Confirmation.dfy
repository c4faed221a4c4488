/** Cross-validation of TomTom gyms: confirmation against OpenStreetMap elements and the weaker
    brand-search corroboration. Both loops change gyms in place.

    `norm` stands for normalize_name and `dist` for haversine distance. */
module Confirmation {
  import opened Wrappers
  import opened Gyms
  import opened MatchTiers

  // `None` stands for a tag field that is no dictionary, or a coordinate that is no number.
  datatype OsmElement = OsmElement(tags: Option<Tags>, lat: Option<real>, lon: Option<real>)

  datatype Candidate = Candidate(norm: string, lat: real, lon: real, tags: Tags)

  datatype Place = Place(lat: real, lon: real)

  predicate Usable(e: OsmElement) { e.tags.Some? && e.lat.Some? && e.lon.Some? }

  function Prepared(es: seq<OsmElement>, norm: string -> string): seq<Candidate> {
    if es == [] then []
    else
      var init, e := Prepared(es[..|es| - 1], norm), es[|es| - 1];
      if !Usable(e) then init
      else
        var tags := e.tags.value;
        init + [Candidate(norm(if "name" in tags then tags["name"] else ""), e.lat.value, e.lon.value, tags)]
  }

  /******* The choice of an element *******/

  function Away(g: GymValue, c: Candidate, dist: Distance): real { dist(g.lat, g.lon, c.lat, c.lon) }

  predicate InRange(g: GymValue, c: Candidate, dist: Distance) { Away(g, c, dist) <= MATCH_DISTANCE }

  predicate Exact(g: GymValue, c: Candidate) { c.norm == g.norm }

  // Strictly preferred: an exact name beats any other, then the smaller distance.
  predicate Beats(g: GymValue, a: Candidate, b: Candidate, dist: Distance) {
    (Exact(g, a) && !Exact(g, b)) || (Exact(g, a) == Exact(g, b) && Away(g, a, dist) < Away(g, b, dist))
  }

  // The element the one-pass loop settles on.
  function Best(g: GymValue, cs: seq<Candidate>, dist: Distance): (r: Option<nat>)
    ensures r.Some? ==> r.value < |cs|
  {
    if cs == [] then None
    else
      var init, c := cs[..|cs| - 1], cs[|cs| - 1];
      var earlier := Best(g, init, dist);
      if !InRange(g, c, dist) then earlier
      else if earlier.None? || Beats(g, c, init[earlier.value], dist) then Some(|init|)
      else earlier
  }

  /** Within 250 metres, and lexicographically first there: exact names before others, then the
      nearest, then the first in the list. */
  ghost predicate IsBest(g: GymValue, cs: seq<Candidate>, dist: Distance, i: nat) {
    && i < |cs| && dist(g.lat, g.lon, cs[i].lat, cs[i].lon) <= 250.0
    && forall j :: 0 <= j < |cs| && dist(g.lat, g.lon, cs[j].lat, cs[j].lon) <= 250.0 ==>
         var exact, other := cs[i].norm == g.norm, cs[j].norm == g.norm;
         && (exact || !other)
         && (exact == other ==>
               var d, e := dist(g.lat, g.lon, cs[i].lat, cs[i].lon), dist(g.lat, g.lon, cs[j].lat, cs[j].lon);
               d < e || (d == e && i <= j))
  }

  lemma {:induction false} BestIsExact(g: GymValue, cs: seq<Candidate>, dist: Distance)
    ensures var r := Best(g, cs, dist);
            && (r.Some? ==> IsBest(g, cs, dist, r.value))
            && (r.None? ==> forall j :: 0 <= j < |cs| ==> !InRange(g, cs[j], dist))
  {
    if cs != [] {
      var init := cs[..|cs| - 1];
      BestIsExact(g, init, dist);
    }
  }

  /** The one-pass loop makes the declarative choice, and there is only one such choice. */
  lemma BestIsLexicographic(g: GymValue, cs: seq<Candidate>, dist: Distance, i: nat)
    ensures Best(g, cs, dist) == Some(i) <==> IsBest(g, cs, dist, i)
  {
    BestIsExact(g, cs, dist);
    if IsBest(g, cs, dist, i) {
      var k := Best(g, cs, dist).value;
      assert InRange(g, cs[k], dist) && InRange(g, cs[i], dist);
    }
  }

  /******* Confirmation *******/

  function Enriched(tags: Tags, source: Tags, keys: set<string>): Tags {
    tags + map k | k in keys && k in source && k !in tags :: source[k]
  }

  function StatusFor(g: GymValue, c: Candidate): string { if Exact(g, c) then OSM_CONFIRMED else OSM_NEARBY }

  function Confirmed(g: GymValue, cs: seq<Candidate>, dist: Distance): GymValue {
    var best := Best(g, cs, dist);
    if !HasStatus(g.provenance, TOMTOM_ONLY) || best.None? then g
    else
      var c := cs[best.value];
      g.(provenance := g.provenance.(
           confirmedBy := Some(if Exact(g, c) then [BY_OSM] else []),
           matchStatus := Some(StatusFor(g, c))),
         tags := Enriched(g.tags, c.tags, ENRICH_KEYS))
  }

  /** The outcome for a TomTom-only gym: confirmed exactly when an element of its name is in
      range, nearby exactly when only others are, unchanged when none is. */
  lemma ConfirmationOutcome(g: GymValue, cs: seq<Candidate>, dist: Distance)
    requires HasStatus(g.provenance, TOMTOM_ONLY)
    ensures var p := Confirmed(g, cs, dist).provenance;
            && (p.matchStatus == Some("osm_confirmed") <==> SomeInRange(g, cs, dist, true))
            && (p.matchStatus == Some("osm_nearby")
                <==> SomeInRange(g, cs, dist, false) && !SomeInRange(g, cs, dist, true))
            && (p.matchStatus == Some("tomtom_only") <==> Confirmed(g, cs, dist) == g)
            && (p.matchStatus == Some("osm_confirmed") ==> p.confirmedBy == Some(["osm"]))
            && (p.matchStatus == Some("osm_nearby") ==> p.confirmedBy == Some([]))
            && p.primary == g.provenance.primary && p.externalRefs == g.provenance.externalRefs
  {
    BestIsExact(g, cs, dist);
    var best := Best(g, cs, dist);
    if best.Some? {
      var i := best.value;
      assert InRange(g, cs[i], dist);
      if SomeInRange(g, cs, dist, true) {
        var j :| 0 <= j < |cs| && dist(g.lat, g.lon, cs[j].lat, cs[j].lon) <= 250.0 && cs[j].norm == g.norm;
        assert Exact(g, cs[i]);
      }
    }
  }

  ghost predicate SomeInRange(g: GymValue, cs: seq<Candidate>, dist: Distance, exact: bool) {
    exists i :: 0 <= i < |cs| && dist(g.lat, g.lon, cs[i].lat, cs[i].lon) <= 250.0 && (cs[i].norm == g.norm) == exact
  }

  // The tags that an element may lend a gym.
  predicate IsContactKey(k: string) {
    || k == "opening_hours" || k == "phone" || k == "contact:phone" || k == "website" || k == "contact:website"
    || k == "operator" || k == "brand" || k == "addr:street" || k == "addr:housenumber" || k == "addr:postcode"
  }

  // Candidate i is the chosen one and has the tag.
  ghost predicate Offers(g: GymValue, cs: seq<Candidate>, dist: Distance, i: nat, k: string) {
    IsBest(g, cs, dist, i) && k in cs[i].tags
  }

  /** No existing tag changes; a key is added exactly when it is an enrichment key of the chosen
      element that the gym lacks, with that element's value. */
  lemma ConfirmationOnlyAddsTags(g: GymValue, cs: seq<Candidate>, dist: Distance, k: string)
    ensures var tags := Confirmed(g, cs, dist).tags;
            && Extends(tags, g.tags)
            && (k !in g.tags ==>
                  (k in tags <==> IsContactKey(k) && HasStatus(g.provenance, TOMTOM_ONLY)
                                  && exists i: nat :: Offers(g, cs, dist, i, k)))
            && forall i: nat :: k !in g.tags && k in tags && Offers(g, cs, dist, i, k) ==> tags[k] == cs[i].tags[k]
  {
    BestIsExact(g, cs, dist);
    var best := Best(g, cs, dist);
    forall i: nat | IsBest(g, cs, dist, i)
      ensures best == Some(i)
    {
      BestIsLexicographic(g, cs, dist, i);
    }
    if best.Some? {
      assert k in cs[best.value].tags <==> Offers(g, cs, dist, best.value, k);
    }
  }

  /** Confirming again changes nothing, even against other elements once a match was found. */
  lemma ConfirmationIsIdempotent(g: GymValue, cs: seq<Candidate>, others: seq<Candidate>, dist: Distance)
    ensures Confirmed(Confirmed(g, cs, dist), cs, dist) == Confirmed(g, cs, dist)
    ensures !HasStatus(Confirmed(g, cs, dist).provenance, TOMTOM_ONLY)
            ==> Confirmed(Confirmed(g, cs, dist), others, dist) == Confirmed(g, cs, dist)
  {
  }

  /******* Brand corroboration *******/

  // min over the brand results of the distance to the gym.
  function Nearest(g: GymValue, places: seq<Place>, dist: Distance): real
    requires places != []
  {
    var last := places[|places| - 1];
    var away := dist(g.lat, g.lon, last.lat, last.lon);
    if |places| == 1 then away
    else
      var earlier := Nearest(g, places[..|places| - 1], dist);
      if away < earlier then away else earlier
  }

  predicate BrandNearby(g: GymValue, places: seq<Place>, dist: Distance) {
    exists i :: 0 <= i < |places| && dist(g.lat, g.lon, places[i].lat, places[i].lon) <= MATCH_DISTANCE
  }

  lemma {:induction false} NearestDecides(g: GymValue, places: seq<Place>, dist: Distance)
    requires places != []
    ensures Nearest(g, places, dist) <= MATCH_DISTANCE <==> BrandNearby(g, places, dist)
  {
    var init := places[..|places| - 1];
    if init != [] {
      NearestDecides(g, init, dist);
      if BrandNearby(g, init, dist) {
        var i :| 0 <= i < |init| && dist(g.lat, g.lon, init[i].lat, init[i].lon) <= MATCH_DISTANCE;
        assert places[i] == init[i];
      }
      if BrandNearby(g, places, dist) {
        var i :| 0 <= i < |places| && dist(g.lat, g.lon, places[i].lat, places[i].lon) <= MATCH_DISTANCE;
        assert i < |init| ==> places[i] == init[i];
      }
    }
  }

  function Corroborated(g: GymValue, places: seq<Place>, dist: Distance): GymValue {
    if !HasStatus(g.provenance, TOMTOM_ONLY) || !BrandNearby(g, places, dist) then g
    else g.(provenance := g.provenance.(confirmedBy := Some([BY_BRAND]), matchStatus := Some(TOMTOM_CORROBORATED)))
  }

  /** A TomTom-only gym becomes corroborated exactly when a brand result lies within 250 metres; any
      other gym, and everything else about this one, stays. */
  lemma CorroborationOutcome(g: GymValue, places: seq<Place>, dist: Distance)
    ensures var h := Corroborated(g, places, dist);
            var near := exists i ::
                          0 <= i < |places| && dist(g.lat, g.lon, places[i].lat, places[i].lon) <= 250.0;
            var corroborates := g.provenance.matchStatus == Some("tomtom_only") && near;
            && h.provenance.matchStatus
               == (if corroborates then Some("tomtom_corroborated") else g.provenance.matchStatus)
            && h.provenance.confirmedBy
               == (if corroborates then Some(["tomtom:brand_search"]) else g.provenance.confirmedBy)
            && h == g.(provenance := g.provenance.(matchStatus := h.provenance.matchStatus,
                                                   confirmedBy := h.provenance.confirmedBy))
  {
  }

  /** The two steps commute except when both would act on the gym: whichever runs first wins. */
  lemma OrderMattersExactlyWhenBothApply(g: GymValue, cs: seq<Candidate>, places: seq<Place>, dist: Distance)
    ensures Corroborated(Confirmed(g, cs, dist), places, dist) != Confirmed(Corroborated(g, places, dist), cs, dist)
            <==> HasStatus(g.provenance, TOMTOM_ONLY) && BrandNearby(g, places, dist)
                 && (SomeInRange(g, cs, dist, true) || SomeInRange(g, cs, dist, false))
  {
    if HasStatus(g.provenance, TOMTOM_ONLY) {
      ConfirmationOutcome(g, cs, dist);
      BestIsExact(g, cs, dist);
    }
  }

  /******* The loops *******/

  method Prepare(elements: seq<OsmElement>, norm: string -> string) returns (prepared: seq<Candidate>)
    ensures prepared == Prepared(elements, norm)
  {
    prepared := [];
    for n := 0 to |elements|
      invariant prepared == Prepared(elements[..n], norm)
    {
      var e := elements[n];
      assert elements[..n + 1][..n] == elements[..n];
      if e.tags.None? { continue; }
      if e.lat.None? || e.lon.None? { continue; }
      var tags := e.tags.value;
      var name := if "name" in tags then tags["name"] else "";
      prepared := prepared + [Candidate(norm(name), e.lat.value, e.lon.value, tags)];
    }
    assert elements[..|elements|] == elements;
  }

  // The inner loop; the best distance starts at infinity, written `None`.
  method Choose(gym: Gym, prepared: seq<Candidate>, dist: Distance)
    returns (bestStatus: Option<string>, bestTags: Option<Tags>)
    ensures var g, best := gym.View(), Best(gym.View(), prepared, dist);
            && (best.None? ==> bestStatus.None?)
            && (best.Some? ==> bestStatus == Some(StatusFor(g, prepared[best.value]))
                               && bestTags == Some(prepared[best.value].tags))
  {
    ghost var g := gym.View();
    bestStatus, bestTags := None, None;
    var bestDistance: Option<real> := None;
    for n := 0 to |prepared|
      invariant var best := Best(g, prepared[..n], dist);
        && (best.None? ==> bestStatus.None? && bestDistance.None?)
        && (best.Some? ==> bestStatus == Some(StatusFor(g, prepared[best.value]))
                           && bestTags == Some(prepared[best.value].tags)
                           && bestDistance == Some(Away(g, prepared[best.value], dist)))
    {
      var c := prepared[n];
      assert prepared[..n + 1][..n] == prepared[..n];
      var distance := dist(gym.lat, gym.lon, c.lat, c.lon);
      if distance > MATCH_DISTANCE { continue; }
      var closer := bestDistance.None? || distance < bestDistance.value;
      if c.norm == gym.norm {
        if bestStatus != Some(OSM_CONFIRMED) || closer {
          bestStatus, bestDistance, bestTags := Some(OSM_CONFIRMED), Some(distance), Some(c.tags);
        }
      } else if bestStatus != Some(OSM_CONFIRMED) {
        if closer {
          bestStatus, bestDistance, bestTags := Some(OSM_NEARBY), Some(distance), Some(c.tags);
        }
      }
    }
    assert prepared[..|prepared|] == prepared;
  }

  lemma EnrichedStep(tags: Tags, source: Tags, keys: set<string>, key: string)
    ensures var now := Enriched(tags, source, keys);
            Enriched(tags, source, keys + {key})
            == if key in source && key !in now then now[key := source[key]] else now
  {
  }

  // Copies the keys in whatever order the set yields them.
  method MergeTags(gym: Gym, keys: set<string>, source: Tags)
    modifies gym`tags
    ensures gym.tags == Enriched(old(gym.tags), source, keys)
  {
    var rest := keys;
    ghost var done := {};
    while rest != {}
      invariant done + rest == keys
      invariant gym.tags == Enriched(old(gym.tags), source, done)
      decreases |rest|
    {
      var key :| key in rest;
      EnrichedStep(old(gym.tags), source, done, key);
      rest, done := rest - {key}, done + {key};
      if key in source && key !in gym.tags {
        gym.tags := gym.tags[key := source[key]];
      }
    }
    assert done == keys;
  }

  method ConfirmOne(gym: Gym, prepared: seq<Candidate>, dist: Distance)
    modifies gym
    ensures gym.View() == Confirmed(old(gym.View()), prepared, dist)
  {
    if gym.provenance.matchStatus != Some(TOMTOM_ONLY) { return; }
    var bestStatus, bestTags := Choose(gym, prepared, dist);
    if bestStatus.None? { return; }
    gym.provenance := gym.provenance.(
      confirmedBy := Some(if bestStatus == Some(OSM_CONFIRMED) then [BY_OSM] else []),
      matchStatus := bestStatus);
    if bestTags.Some? {
      MergeTags(gym, ENRICH_KEYS, bestTags.value);
    }
  }

  /** Confirms each gym in place; the list may name a gym more than once. */
  method ApplyOsmConfirmation(gyms: seq<Gym>, elements: seq<OsmElement>, norm: string -> string, dist: Distance)
    modifies Objects(gyms)
    ensures forall g :: g in gyms ==> g.View() == Confirmed(old(g.View()), Prepared(elements, norm), dist)
  {
    var prepared := Prepare(elements, norm);
    for n := 0 to |gyms|
      invariant forall g :: g in gyms[..n] ==> g.View() == Confirmed(old(g.View()), prepared, dist)
      invariant forall g :: g in gyms && g !in gyms[..n] ==> g.View() == old(g.View())
    {
      assert gyms[..n + 1] == gyms[..n] + [gyms[n]];
      assert gyms[n] in gyms;
      ConfirmationIsIdempotent(old(gyms[n].View()), prepared, prepared, dist);
      ConfirmOne(gyms[n], prepared, dist);
    }
    assert gyms[..|gyms|] == gyms;
  }

  method ApplyTomTomBrandCorroboration(gyms: seq<Gym>, places: seq<Place>, dist: Distance)
    modifies Objects(gyms)
    ensures forall g :: g in gyms ==> g.View() == Corroborated(old(g.View()), places, dist)
  {
    if places == [] { return; }
    for n := 0 to |gyms|
      invariant forall g :: g in gyms[..n] ==> g.View() == Corroborated(old(g.View()), places, dist)
      invariant forall g :: g in gyms && g !in gyms[..n] ==> g.View() == old(g.View())
    {
      var gym := gyms[n];
      assert gyms[..n + 1] == gyms[..n] + [gym];
      assert gym in gyms;
      if gym.provenance.matchStatus != Some(TOMTOM_ONLY) { continue; }
      NearestDecides(gym.View(), places, dist);
      if Nearest(gym.View(), places, dist) <= MATCH_DISTANCE {
        gym.provenance := gym.provenance.(confirmedBy := Some([BY_BRAND]), matchStatus := Some(TOMTOM_CORROBORATED));
      }
    }
    assert gyms[..|gyms|] == gyms;
  }
}
