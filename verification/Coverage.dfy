/** TomTom coverage of a deduplicated dataset: each place is compared with the gyms, and each gym
    keeps the best of the places assigned to it.

    `normalize` stands for normalize_name and `dist` for haversine distance. */
module Coverage {
  import opened Wrappers
  import opened Gyms

  const MATCH_DISTANCE := 250.0

  const MATCHED := "matched"
  const NAME_MISMATCH := "name_mismatch"
  const MISSING := "missing_from_osm"

  datatype Place = Place(id: string, name: string, lat: real, lon: real, city: Option<string>, url: Option<string>)

  // What a comparison reads of a gym.
  datatype Site = Site(id: Option<string>, name: string, norm: string, lat: real, lon: real)

  datatype Match = Match(
    status: string,
    osmName: Option<string>,
    tomtomName: string,
    distance: Option<real>,
    osmId: Option<string>,
    tomtomId: string,
    city: Option<string>,
    url: Option<string>)

  datatype Summary = Summary(matched: nat, nameMismatch: nat, missing: nat)

  /******* The nearest acceptable gym *******/

  function Away(p: Place, s: Site, dist: Distance): real { dist(p.lat, p.lon, s.lat, s.lon) }

  predicate SameName(p: Place, s: Site, normalize: string -> string) { s.norm == normalize(p.name) }

  predicate PrefixRelated(p: Place, s: Site, normalize: string -> string) {
    normalize(p.name) <= s.norm || s.norm <= normalize(p.name)
  }

  predicate Accepts(p: Place, s: Site, dist: Distance, normalize: string -> string, exact: bool) {
    Away(p, s, dist) <= MATCH_DISTANCE && if exact then SameName(p, s, normalize) else PrefixRelated(p, s, normalize)
  }

  // One pass of best_osm_match: the nearest acceptable gym, the first of equals.
  function Pass(p: Place, sites: seq<Site>, dist: Distance, normalize: string -> string, exact: bool): (r: Option<nat>)
    ensures r.Some? ==> r.value < |sites|
  {
    if sites == [] then None
    else
      var init, s := sites[..|sites| - 1], sites[|sites| - 1];
      var earlier := Pass(p, init, dist, normalize, exact);
      if !Accepts(p, s, dist, normalize, exact) then earlier
      else if earlier.None? || Away(p, s, dist) < Away(p, init[earlier.value], dist) then Some(|init|)
      else earlier
  }

  ghost predicate IsNearest(p: Place, sites: seq<Site>, dist: Distance, normalize: string -> string, exact: bool,
                            i: nat) {
    && i < |sites| && Accepts(p, sites[i], dist, normalize, exact)
    && forall j :: 0 <= j < |sites| && Accepts(p, sites[j], dist, normalize, exact) ==>
         Away(p, sites[i], dist) <= Away(p, sites[j], dist)
         && (j < i ==> Away(p, sites[i], dist) < Away(p, sites[j], dist))
  }

  lemma {:induction false} PassIsExact(p: Place, sites: seq<Site>, dist: Distance, normalize: string -> string,
                                       exact: bool)
    ensures var r := Pass(p, sites, dist, normalize, exact);
            && (r.Some? ==> IsNearest(p, sites, dist, normalize, exact, r.value))
            && (r.None? ==> forall j :: 0 <= j < |sites| ==> !Accepts(p, sites[j], dist, normalize, exact))
  {
    if sites != [] {
      PassIsExact(p, sites[..|sites| - 1], dist, normalize, exact);
    }
  }

  function BestOsm(p: Place, sites: seq<Site>, dist: Distance, normalize: string -> string): (r: Option<nat>)
    ensures r.Some? ==> r.value < |sites|
  {
    var same := Pass(p, sites, dist, normalize, true);
    if same.Some? then same else Pass(p, sites, dist, normalize, false)
  }

  function Classify(p: Place, s: Option<Site>, distance: Option<real>, normalize: string -> string): Match {
    match s
    case None => Match(MISSING, None, p.name, None, None, p.id, p.city, p.url)
    case Some(site) =>
      var status := if normalize(site.name) == normalize(p.name) then MATCHED else NAME_MISMATCH;
      Match(status, Some(site.name), p.name, distance, site.id, p.id, p.city, p.url)
  }

  function Compare(p: Place, sites: seq<Site>, dist: Distance, normalize: string -> string): Match {
    var best := BestOsm(p, sites, dist, normalize);
    if best.None? then Classify(p, None, None, normalize)
    else Classify(p, Some(sites[best.value]), Some(Away(p, sites[best.value], dist)), normalize)
  }

  function Compared(ps: seq<Place>, sites: seq<Site>, dist: Distance, normalize: string -> string): (ms: seq<Match>)
    ensures |ms| == |ps|
  {
    if ps == [] then []
    else Compared(ps[..|ps| - 1], sites, dist, normalize) + [Compare(ps[|ps| - 1], sites, dist, normalize)]
  }

  lemma {:induction false} ComparedAt(ps: seq<Place>, sites: seq<Site>, dist: Distance,
                                      normalize: string -> string, k: nat)
    requires k < |ps|
    ensures Compared(ps, sites, dist, normalize)[k] == Compare(ps[k], sites, dist, normalize)
  {
    if k < |ps| - 1 {
      ComparedAt(ps[..|ps| - 1], sites, dist, normalize, k);
    }
  }

  // Every gym carries its own name's key, as deduplication leaves it.
  ghost predicate WellNamed(sites: seq<Site>, normalize: string -> string) {
    forall i :: 0 <= i < |sites| ==> sites[i].norm == normalize(sites[i].name)
  }

  // Some gym within 250 metres has the place's name.
  ghost predicate SameNear(p: Place, sites: seq<Site>, dist: Distance, normalize: string -> string) {
    exists i :: 0 <= i < |sites| && dist(p.lat, p.lon, sites[i].lat, sites[i].lon) <= 250.0
                && sites[i].norm == normalize(p.name)
  }

  // Some gym within 250 metres has a name that begins with the place's, or the other way round.
  ghost predicate RelatedNear(p: Place, sites: seq<Site>, dist: Distance, normalize: string -> string) {
    exists i :: 0 <= i < |sites| && dist(p.lat, p.lon, sites[i].lat, sites[i].lon) <= 250.0
                && (normalize(p.name) <= sites[i].norm || sites[i].norm <= normalize(p.name))
  }

  // The status of a place's match, by the gyms near it.
  ghost predicate StatusFits(p: Place, sites: seq<Site>, dist: Distance, normalize: string -> string, m: Match) {
    var same, related := SameNear(p, sites, dist, normalize), RelatedNear(p, sites, dist, normalize);
    && (m.status == "matched" <==> same)
    && (m.status == "name_mismatch" <==> related && !same)
    && (m.status == "missing_from_osm" <==> !related && !same)
  }

  /** A place is matched exactly when a gym of its name lies within 250 metres, mismatched exactly
      when only gyms with a prefix-related name do, and missing otherwise. */
  lemma StatusIsExact(p: Place, sites: seq<Site>, dist: Distance, normalize: string -> string)
    requires WellNamed(sites, normalize)
    ensures StatusFits(p, sites, dist, normalize, Compare(p, sites, dist, normalize))
  {
    PassIsExact(p, sites, dist, normalize, true);
    PassIsExact(p, sites, dist, normalize, false);
    var best := BestOsm(p, sites, dist, normalize);
    if best.Some? {
      var s := sites[best.value];
      assert s.norm == normalize(s.name);
      assert Accepts(p, s, dist, normalize, true) || Accepts(p, s, dist, normalize, false);
    }
  }

  /******* The best place for a gym *******/

  function Rank(m: Match): nat { if m.status == MATCHED then 2 else if m.status == NAME_MISMATCH then 1 else 0 }

  predicate Closer(a: Option<real>, b: Option<real>) { a.Some? && (b.None? || a.value < b.value) }

  // _choose_better_match picks the candidate over the current match.
  predicate Better(candidate: Match, current: Match) {
    Rank(candidate) > Rank(current)
    || (Rank(candidate) == Rank(current) && Closer(candidate.distance, current.distance))
  }

  function Choose(current: Option<Match>, candidate: Match): Match {
    if current.None? || Better(candidate, current.value) then candidate else current.value
  }

  function BestFor(ms: seq<Match>, id: string): Option<Match> {
    if ms == [] then None
    else
      var earlier, m := BestFor(ms[..|ms| - 1], id), ms[|ms| - 1];
      if m.osmId == Some(id) then Some(Choose(earlier, m)) else earlier
  }

  /** Highest status rank, then smallest distance, then first seen, among the matches assigned to
      the gym. */
  ghost predicate IsBestFor(ms: seq<Match>, id: string, i: nat) {
    && i < |ms| && ms[i].osmId == Some(id)
    && forall j :: 0 <= j < |ms| && ms[j].osmId == Some(id) ==>
         !Better(ms[j], ms[i]) && (j < i ==> Better(ms[i], ms[j]))
  }

  ghost predicate Carries(ms: seq<Match>, id: string, best: Option<Match>) {
    match best
    case None => forall j :: 0 <= j < |ms| ==> ms[j].osmId != Some(id)
    case Some(m) => exists i: nat :: IsBestFor(ms, id, i) && ms[i] == m
  }

  lemma BestForStep(ms: seq<Match>, m: Match, id: string, i: nat)
    requires IsBestFor(ms, id, i)
    ensures m.osmId != Some(id) || !Better(m, ms[i]) ==> IsBestFor(ms + [m], id, i)
    ensures m.osmId == Some(id) && Better(m, ms[i]) ==> IsBestFor(ms + [m], id, |ms|)
  {
  }

  lemma {:induction false} BestForIsExact(ms: seq<Match>, id: string)
    ensures Carries(ms, id, BestFor(ms, id))
  {
    if ms != [] {
      var init, m := ms[..|ms| - 1], ms[|ms| - 1];
      BestForIsExact(init, id);
      assert ms == init + [m];
      if BestFor(init, id).Some? {
        var i: nat :| IsBestFor(init, id, i) && init[i] == BestFor(init, id).value;
        BestForStep(init, m, id, i);
        assert ms[i] == init[i] && ms[|init|] == m;
      } else if m.osmId == Some(id) {
        assert IsBestFor(ms, id, |init|);
      }
    }
  }

  /******* What the gyms end up with *******/

  function RefOf(m: Match): TomTomRef {
    TomTomRef(m.tomtomId, m.tomtomName, m.distance, m.city, m.url, Some(m.status))
  }

  function ProvenanceOf(m: Match): Provenance {
    Provenance(Some("osm"), Some(if m.status == MATCHED then ["tomtom"] else []), Some(m.status),
               Some(ExternalRefs(Some(RefOf(m)))))
  }

  function Carried(best: Option<Match>): Provenance {
    if best.Some? then ProvenanceOf(best.value) else DEFAULT_PROVENANCE
  }

  // The position that gyms_by_id holds for an id: the last gym with it.
  function Owner(sites: seq<Site>, id: string): (r: Option<nat>)
    ensures r.Some? ==> r.value < |sites| && sites[r.value].id == Some(id)
  {
    if sites == [] then None
    else if sites[|sites| - 1].id == Some(id) then Some(|sites| - 1)
    else Owner(sites[..|sites| - 1], id)
  }

  ghost predicate DistinctIds(sites: seq<Site>) {
    && (forall i :: 0 <= i < |sites| ==> sites[i].id.Some?)
    && forall i, j :: 0 <= i < j < |sites| ==> sites[i].id != sites[j].id
  }

  lemma {:induction false} OwnerOfDistinct(sites: seq<Site>, i: nat)
    requires DistinctIds(sites) && i < |sites|
    ensures Owner(sites, sites[i].id.value) == Some(i)
  {
    if i < |sites| - 1 {
      OwnerOfDistinct(sites[..|sites| - 1], i);
    }
  }

  /** A match is assigned to gym i exactly when the comparison of its place chose gym i. */
  lemma AssignedIffChosen(ps: seq<Place>, sites: seq<Site>, dist: Distance, normalize: string -> string, k: nat, i: nat)
    requires DistinctIds(sites) && k < |ps| && i < |sites|
    ensures Compared(ps, sites, dist, normalize)[k].osmId == sites[i].id
            <==> BestOsm(ps[k], sites, dist, normalize) == Some(i)
  {
    ComparedAt(ps, sites, dist, normalize, k);
    var best := BestOsm(ps[k], sites, dist, normalize);
    if best.Some? && best.value != i {
      assert sites[best.value].id != sites[i].id;
    }
  }

  /******* Places and gyms, on the raw values *******/

  // Of two gyms near a place: the nearer one, or the earlier of equals.
  predicate NotFarther(p: Place, sites: seq<Site>, dist: Distance, i: nat, j: nat)
    requires i < |sites| && j < |sites|
  {
    var d, e := dist(p.lat, p.lon, sites[i].lat, sites[i].lon), dist(p.lat, p.lon, sites[j].lat, sites[j].lon);
    d < e || (d == e && i <= j)
  }

  // The gym a place chooses: the nearest of its name within 250 metres, or for want of one the
  // nearest with a related name.
  ghost predicate Chooses(p: Place, sites: seq<Site>, dist: Distance, normalize: string -> string, i: nat) {
    && i < |sites| && dist(p.lat, p.lon, sites[i].lat, sites[i].lon) <= 250.0
    && if sites[i].norm == normalize(p.name) then
         forall j :: 0 <= j < |sites| && dist(p.lat, p.lon, sites[j].lat, sites[j].lon) <= 250.0
                     && sites[j].norm == normalize(p.name)
           ==> NotFarther(p, sites, dist, i, j)
       else
         && (normalize(p.name) <= sites[i].norm || sites[i].norm <= normalize(p.name))
         && !SameNear(p, sites, dist, normalize)
         && forall j ::
           0 <= j < |sites| && dist(p.lat, p.lon, sites[j].lat, sites[j].lon) <= 250.0
           && (normalize(p.name) <= sites[j].norm || sites[j].norm <= normalize(p.name))
           ==> NotFarther(p, sites, dist, i, j)
  }

  lemma BestOsmChooses(p: Place, sites: seq<Site>, dist: Distance, normalize: string -> string, i: nat)
    ensures BestOsm(p, sites, dist, normalize) == Some(i) <==> Chooses(p, sites, dist, normalize, i)
  {
    PassIsExact(p, sites, dist, normalize, true);
    PassIsExact(p, sites, dist, normalize, false);
    if Chooses(p, sites, dist, normalize, i) {
      var exact := sites[i].norm == normalize(p.name);
      assert Accepts(p, sites[i], dist, normalize, exact);
    }
  }

  /** What a comparison reports: the place's own data, and of the gym it chooses the name, the id and
      the distance; nothing of a gym when it chooses none. */
  lemma ComparisonMeans(p: Place, sites: seq<Site>, dist: Distance, normalize: string -> string, i: nat)
    ensures var m := Compare(p, sites, dist, normalize);
            && m.tomtomId == p.id && m.tomtomName == p.name && m.city == p.city && m.url == p.url
            && (Chooses(p, sites, dist, normalize, i) ==>
                  && m.osmName == Some(sites[i].name) && m.osmId == sites[i].id
                  && m.distance == Some(dist(p.lat, p.lon, sites[i].lat, sites[i].lon)))
            && (m.status == "missing_from_osm" ==> m.osmName == None && m.osmId == None && m.distance == None)
  {
    BestOsmChooses(p, sites, dist, normalize, i);
  }

  // Place k is the one whose match the gym carries: of its name before others, then the nearest,
  // then the first.
  ghost predicate Wins(ps: seq<Place>, sites: seq<Site>, dist: Distance, normalize: string -> string, i: nat, k: nat)
    requires i < |sites|
  {
    && k < |ps| && Chooses(ps[k], sites, dist, normalize, i)
    && forall l :: 0 <= l < |ps| && Chooses(ps[l], sites, dist, normalize, i) ==>
         var same, other := sites[i].norm == normalize(ps[k].name), sites[i].norm == normalize(ps[l].name);
         && (same || !other)
         && (same == other ==>
               var d := dist(ps[k].lat, ps[k].lon, sites[i].lat, sites[i].lon);
               var e := dist(ps[l].lat, ps[l].lon, sites[i].lat, sites[i].lon);
               d < e || (d == e && k <= l))
  }

  // The provenance a winning place gives.
  function ProvenanceFrom(p: Place, s: Site, dist: Distance, normalize: string -> string): Provenance {
    var same := s.norm == normalize(p.name);
    var status := if same then "matched" else "name_mismatch";
    Provenance(Some("osm"), Some(if same then ["tomtom"] else []), Some(status),
               Some(ExternalRefs(Some(TomTomRef(p.id, p.name, Some(dist(p.lat, p.lon, s.lat, s.lon)), p.city, p.url,
                                                Some(status))))))
  }

  lemma ChosenMatch(ps: seq<Place>, sites: seq<Site>, dist: Distance, normalize: string -> string, i: nat, k: nat)
    requires WellNamed(sites, normalize) && DistinctIds(sites) && i < |sites| && k < |ps|
    ensures var m := Compared(ps, sites, dist, normalize)[k];
            && (m.osmId == sites[i].id <==> Chooses(ps[k], sites, dist, normalize, i))
            && (Chooses(ps[k], sites, dist, normalize, i) ==>
                  && m.distance == Some(dist(ps[k].lat, ps[k].lon, sites[i].lat, sites[i].lon))
                  && m.status == (if sites[i].norm == normalize(ps[k].name) then "matched" else "name_mismatch")
                  && ProvenanceOf(m) == ProvenanceFrom(ps[k], sites[i], dist, normalize))
  {
    ComparedAt(ps, sites, dist, normalize, k);
    AssignedIffChosen(ps, sites, dist, normalize, k, i);
    BestOsmChooses(ps[k], sites, dist, normalize, i);
  }

  // The provenance of the place that wins the gym, or of an unconfirmed gym when none chooses it.
  ghost predicate IsOutcome(ps: seq<Place>, sites: seq<Site>, dist: Distance, normalize: string -> string, i: nat,
                            now: Provenance)
    requires i < |sites|
  {
    || (&& (forall k :: 0 <= k < |ps| ==> !Chooses(ps[k], sites, dist, normalize, i))
        && now == Provenance(Some("osm"), Some([]), Some("unconfirmed"), Some(ExternalRefs(None))))
    || exists k: nat :: Wins(ps, sites, dist, normalize, i, k)
                        && now == ProvenanceFrom(ps[k], sites[i], dist, normalize)
  }

  /** What a gym ends up with, from the places and gyms alone. */
  lemma GymOutcome(ps: seq<Place>, sites: seq<Site>, dist: Distance, normalize: string -> string, i: nat)
    requires WellNamed(sites, normalize) && DistinctIds(sites) && i < |sites|
    ensures IsOutcome(ps, sites, dist, normalize, i,
                      Carried(BestFor(Compared(ps, sites, dist, normalize), sites[i].id.value)))
  {
    var ms, id := Compared(ps, sites, dist, normalize), sites[i].id.value;
    BestForIsExact(ms, id);
    forall k | 0 <= k < |ps|
      ensures ms[k].osmId == Some(id) <==> Chooses(ps[k], sites, dist, normalize, i)
    {
      ChosenMatch(ps, sites, dist, normalize, i, k);
    }
    if BestFor(ms, id).Some? {
      var k: nat :| IsBestFor(ms, id, k) && ms[k] == BestFor(ms, id).value;
      BestWins(ps, sites, dist, normalize, i, k);
      ChosenMatch(ps, sites, dist, normalize, i, k);
    }
  }

  lemma BestWins(ps: seq<Place>, sites: seq<Site>, dist: Distance, normalize: string -> string, i: nat, k: nat)
    requires WellNamed(sites, normalize) && DistinctIds(sites) && i < |sites|
    requires IsBestFor(Compared(ps, sites, dist, normalize), sites[i].id.value, k)
    ensures Wins(ps, sites, dist, normalize, i, k)
  {
    var ms := Compared(ps, sites, dist, normalize);
    ChosenMatch(ps, sites, dist, normalize, i, k);
    forall l | 0 <= l < |ps| && Chooses(ps[l], sites, dist, normalize, i)
      ensures !Better(ms[l], ms[k]) && (l < k ==> Better(ms[k], ms[l]))
      ensures ms[l].distance == Some(dist(ps[l].lat, ps[l].lon, sites[i].lat, sites[i].lon))
      ensures ms[l].status == if sites[i].norm == normalize(ps[l].name) then "matched" else "name_mismatch"
    {
      ChosenMatch(ps, sites, dist, normalize, i, l);
    }
  }

  /******* The summary *******/

  function CountStatus(ms: seq<Match>, status: string): nat {
    if ms == [] then 0 else CountStatus(ms[..|ms| - 1], status) + if ms[|ms| - 1].status == status then 1 else 0
  }

  function SummarizeMatches(ms: seq<Match>): Summary {
    Summary(CountStatus(ms, MATCHED), CountStatus(ms, NAME_MISMATCH), CountStatus(ms, MISSING))
  }

  /** The three counts add up to the number of places. */
  lemma {:induction false} SummaryIsComplete(ps: seq<Place>, sites: seq<Site>, dist: Distance,
                                             normalize: string -> string)
    ensures var s := SummarizeMatches(Compared(ps, sites, dist, normalize));
            s.matched + s.nameMismatch + s.missing == |ps|
  {
    if ps != [] {
      SummaryIsComplete(ps[..|ps| - 1], sites, dist, normalize);
      var ms := Compared(ps, sites, dist, normalize);
      assert ms[..|ms| - 1] == Compared(ps[..|ps| - 1], sites, dist, normalize);
    }
  }

  // The positions of the matches with one of the three statuses.
  function WithStatus(ms: seq<Match>, status: string): set<nat> { set k | 0 <= k < |ms| && ms[k].status == status }

  lemma {:induction false} CountIsSize(ms: seq<Match>, status: string)
    ensures CountStatus(ms, status) == |WithStatus(ms, status)|
  {
    if ms != [] {
      var init, m := ms[..|ms| - 1], ms[|ms| - 1];
      CountIsSize(init, status);
      assert WithStatus(ms, status) == WithStatus(init, status) + if m.status == status then {|init|} else {};
    }
  }

  // The places with a gym of their name near, and those with only a related one.
  ghost function SamePlaces(ps: seq<Place>, sites: seq<Site>, dist: Distance, normalize: string -> string): set<nat> {
    set k | 0 <= k < |ps| && SameNear(ps[k], sites, dist, normalize)
  }

  ghost function RelatedPlaces(ps: seq<Place>, sites: seq<Site>, dist: Distance, normalize: string -> string)
    : set<nat>
  {
    set k | 0 <= k < |ps| && RelatedNear(ps[k], sites, dist, normalize)
  }

  /** The summary counts the places with a gym of their name near, and those with only a related
      one. */
  lemma SummaryCounts(ps: seq<Place>, sites: seq<Site>, dist: Distance, normalize: string -> string)
    requires WellNamed(sites, normalize)
    ensures var s := SummarizeMatches(Compared(ps, sites, dist, normalize));
            var same := SamePlaces(ps, sites, dist, normalize);
            s.matched == |same| && s.nameMismatch == |RelatedPlaces(ps, sites, dist, normalize) - same|
  {
    var ms := Compared(ps, sites, dist, normalize);
    CountIsSize(ms, MATCHED);
    CountIsSize(ms, NAME_MISMATCH);
    forall k | 0 <= k < |ps|
      ensures StatusFits(ps[k], sites, dist, normalize, ms[k])
    {
      ComparedAt(ps, sites, dist, normalize, k);
      StatusIsExact(ps[k], sites, dist, normalize);
    }
    assert WithStatus(ms, MATCHED) == SamePlaces(ps, sites, dist, normalize);
    assert WithStatus(ms, NAME_MISMATCH)
        == RelatedPlaces(ps, sites, dist, normalize) - SamePlaces(ps, sites, dist, normalize);
  }

  /******* The loops *******/

  function SiteOf(g: Gym): Site
    reads g
  {
    Site(g.id, g.name, g.norm, g.lat, g.lon)
  }

  ghost function Sites(gyms: seq<Gym>): (sites: seq<Site>)
    reads gyms
    ensures |sites| == |gyms| && forall i :: 0 <= i < |gyms| ==> sites[i] == SiteOf(gyms[i])
  {
    seq(|gyms|, i requires 0 <= i < |gyms| reads gyms => SiteOf(gyms[i]))
  }

  method RunPass(p: Place, gyms: seq<Gym>, dist: Distance, normalize: string -> string, exact: bool)
    returns (best: Gym?, distance: Option<real>)
    ensures var at := Pass(p, Sites(gyms), dist, normalize, exact);
            && (at.None? ==> best == null && distance.None?)
            && (at.Some? ==> best == gyms[at.value] && distance == Some(Away(p, Sites(gyms)[at.value], dist)))
  {
    best, distance := null, None;
    ghost var at: Option<nat> := None;
    ghost var sites := Sites(gyms);
    var target := normalize(p.name);
    for n := 0 to |gyms|
      invariant at == Pass(p, sites[..n], dist, normalize, exact)
      invariant (best == null <==> at.None?) && (distance.None? <==> at.None?)
      invariant at.Some? ==> best == gyms[at.value] && distance == Some(Away(p, sites[at.value], dist))
    {
      var candidate := gyms[n];
      assert sites[..n + 1][..n] == sites[..n];
      var away := dist(p.lat, p.lon, candidate.lat, candidate.lon);
      var nameFits := if exact then candidate.norm == target else target <= candidate.norm || candidate.norm <= target;
      if nameFits && away <= MATCH_DISTANCE {
        if distance.None? || away < distance.value {
          best, distance := candidate, Some(away);
          at := Some(n);
        }
      }
    }
    assert sites[..|sites|] == sites;
  }

  method BestOsmMatch(p: Place, gyms: seq<Gym>, dist: Distance, normalize: string -> string) returns (m: Match)
    ensures m == Compare(p, Sites(gyms), dist, normalize)
  {
    var best, distance := RunPass(p, gyms, dist, normalize, true);
    if best == null {
      best, distance := RunPass(p, gyms, dist, normalize, false);
    }
    m := Classify(p, if best == null then None else Some(SiteOf(best)), distance, normalize);
  }

  method ResetProvenance(gyms: seq<Gym>)
    modifies Objects(gyms)`provenance
    ensures forall g :: g in gyms ==> g.provenance == DEFAULT_PROVENANCE
  {
    for n := 0 to |gyms|
      invariant forall g :: g in gyms[..n] ==> g.provenance == DEFAULT_PROVENANCE
    {
      assert gyms[n] in gyms;
      gyms[n].provenance := DEFAULT_PROVENANCE;
    }
  }

  ghost predicate Tabulates(best: map<string, Match>, ms: seq<Match>) {
    forall id :: (id in best <==> BestFor(ms, id).Some?) && (id in best ==> BestFor(ms, id) == Some(best[id]))
  }

  lemma TabulateStep(best: map<string, Match>, ms: seq<Match>, m: Match)
    requires Tabulates(best, ms)
    ensures m.osmId.None? ==> Tabulates(best, ms + [m])
    ensures m.osmId.Some? ==>
              var id := m.osmId.value;
              Tabulates(best[id := Choose(if id in best then Some(best[id]) else None, m)], ms + [m])
  {
    assert (ms + [m])[..|ms|] == ms;
  }

  method CompareAll(gyms: seq<Gym>, places: seq<Place>, dist: Distance, normalize: string -> string)
    returns (ms: seq<Match>, best: map<string, Match>)
    ensures ms == Compared(places, Sites(gyms), dist, normalize)
    ensures Tabulates(best, ms)
  {
    ms, best := [], map[];
    for n := 0 to |places|
      invariant ms == Compared(places[..n], Sites(gyms), dist, normalize)
      invariant Tabulates(best, ms)
    {
      assert places[..n + 1][..n] == places[..n];
      var m := BestOsmMatch(places[n], gyms, dist, normalize);
      TabulateStep(best, ms, m);
      ms := ms + [m];
      if m.osmId.None? { continue; }
      var id := m.osmId.value;
      best := best[id := Choose(if id in best then Some(best[id]) else None, m)];
    }
    assert places[..|places|] == places;
  }

  ghost predicate Indexes(byId: map<string, Gym>, gyms: seq<Gym>, sites: seq<Site>)
    requires |sites| == |gyms|
  {
    && (forall id :: id in byId <==> Owner(sites, id).Some?)
    && forall id :: id in byId ==> byId[id] == gyms[Owner(sites, id).value]
  }

  method IndexById(gyms: seq<Gym>) returns (byId: map<string, Gym>)
    ensures Indexes(byId, gyms, Sites(gyms))
  {
    byId := map[];
    ghost var sites := Sites(gyms);
    for n := 0 to |gyms|
      invariant Indexes(byId, gyms[..n], sites[..n])
    {
      assert sites[..n + 1][..n] == sites[..n];
      if gyms[n].id.Some? {
        byId := byId[gyms[n].id.value := gyms[n]];
      }
    }
    assert sites[..|sites|] == sites && gyms[..|gyms|] == gyms;
  }

  // Every key of the index is the id of the gym stored under it.
  ghost predicate KeyedById(byId: map<string, Gym>)
    reads byId.Values
  {
    forall id :: id in byId ==> byId[id].id == Some(id)
  }

  ghost predicate Stored(byId: map<string, Gym>, keys: set<string>, g: Gym) {
    exists id :: id in keys && id in byId && byId[id] == g
  }

  // Writes each best match through the index, in whatever order the dictionary yields them.
  method AssignBest(byId: map<string, Gym>, best: map<string, Match>)
    requires KeyedById(byId)
    modifies byId.Values`provenance
    ensures forall id :: id in best && id in byId ==> byId[id].provenance == ProvenanceOf(best[id])
    ensures forall g :: g in byId.Values && !Stored(byId, best.Keys, g) ==> g.provenance == old(g.provenance)
  {
    var rest := best.Keys;
    while rest != {}
      invariant rest <= best.Keys
      invariant forall id :: id in best && id !in rest && id in byId ==> byId[id].provenance == ProvenanceOf(best[id])
      invariant forall g :: g in byId.Values && !Stored(byId, best.Keys, g) ==> g.provenance == old(g.provenance)
      decreases |rest|
    {
      var id :| id in rest;
      rest := rest - {id};
      if id in byId {
        var gym := byId[id];
        assert gym in byId.Values && Stored(byId, best.Keys, gym);
        gym.provenance := ProvenanceOf(best[id]);
      }
    }
  }

  /** The gym that gyms_by_id holds for its own id. */
  ghost predicate Reachable(gyms: seq<Gym>, sites: seq<Site>, g: Gym)
    requires |sites| == |gyms|
    reads g
  {
    g.id.Some? && Owner(sites, g.id.value).Some? && gyms[Owner(sites, g.id.value).value] == g
  }

  ghost function Expected(gyms: seq<Gym>, sites: seq<Site>, ms: seq<Match>, g: Gym): Provenance
    requires |sites| == |gyms|
    reads g
  {
    if Reachable(gyms, sites, g) then Carried(BestFor(ms, g.id.value)) else DEFAULT_PROVENANCE
  }

  lemma StoredIffReachable(byId: map<string, Gym>, keys: set<string>, gyms: seq<Gym>, sites: seq<Site>, g: Gym)
    requires |sites| == |gyms| && Indexes(byId, gyms, sites) && KeyedById(byId)
    ensures Stored(byId, keys, g) <==> Reachable(gyms, sites, g) && g.id.value in keys
  {
    if Reachable(gyms, sites, g) && g.id.value in keys {
      assert byId[g.id.value] == g;
    }
  }

  method Distribute(gyms: seq<Gym>, ms: seq<Match>, best: map<string, Match>)
    requires Tabulates(best, ms)
    requires forall g :: g in gyms ==> g.provenance == DEFAULT_PROVENANCE
    modifies Objects(gyms)`provenance
    ensures forall g :: g in gyms ==> g.provenance == Expected(gyms, Sites(gyms), ms, g)
  {
    ghost var sites := Sites(gyms);
    var byId := IndexById(gyms);
    assert KeyedById(byId);
    AssignBest(byId, best);
    assert Sites(gyms) == sites;
    forall g | g in gyms
      ensures g.provenance == Expected(gyms, sites, ms, g)
    {
      StoredIffReachable(byId, best.Keys, gyms, sites, g);
    }
  }

  /** Resets every gym's provenance, compares every place, and leaves each gym that an id stands
      for with the best match assigned to that id; no other field of any gym changes. */
  method ApplyTomTomCoverage(gyms: seq<Gym>, places: seq<Place>, dist: Distance, normalize: string -> string)
    returns (ms: seq<Match>, summary: Summary)
    modifies Objects(gyms)`provenance
    ensures ms == Compared(places, Sites(gyms), dist, normalize) && summary == SummarizeMatches(ms)
    ensures forall g :: g in gyms ==> g.provenance == Expected(gyms, Sites(gyms), ms, g)
  {
    ResetProvenance(gyms);
    var best;
    ms, best := CompareAll(gyms, places, dist, normalize);
    summary := SummarizeMatches(ms);
    ghost var sites := Sites(gyms);
    Distribute(gyms, ms, best);
    assert Sites(gyms) == sites;
  }

  /** With distinct ids every gym carries the best match assigned to it, and the default
      provenance when no place was assigned to it. */
  lemma EveryGymCarriesItsBest(gyms: seq<Gym>, ms: seq<Match>, i: nat)
    requires i < |gyms| && DistinctIds(Sites(gyms))
    ensures var id := gyms[i].id.value;
            exists best :: Carries(ms, id, best) && Expected(gyms, Sites(gyms), ms, gyms[i]) == Carried(best)
  {
    assert Sites(gyms)[i] == SiteOf(gyms[i]);
    OwnerOfDistinct(Sites(gyms), i);
    BestForIsExact(ms, gyms[i].id.value);
  }
}
