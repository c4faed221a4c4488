/** Ingest deduplication: elements of one normalised name that lie within the merge distance
    collapse into one gym. The loop searches the nine buckets around a point instead of every
    kept gym; the reference is the quadratic greedy scan.

    `norm` stands for normalize_name, and a geometry for haversine distance and the projection
    to metres; all are arbitrary functions. */
module Deduplication {
  import opened Wrappers
  import opened Gyms

  const MERGE_DISTANCE := 50.0
  const BUCKET_SIZE := 50.0

  datatype Element = Element(
    ref: Ref,
    tags: Tags,
    lat: Option<real>,
    lon: Option<real>,
    centerLat: Option<real>,
    centerLon: Option<real>)

  datatype Point = Point(x: real, y: real)

  datatype Key = Key(x: int, y: int)

  datatype Geometry = Geometry(dist: Distance, project: (real, real) -> Point)

  /******* Elements *******/

  function NameOf(e: Element): string {
    if "name" in e.tags then e.tags["name"] else ""
  }

  // The element's own coordinates, or its centre's when either is missing.
  function Location(e: Element): Option<(real, real)> {
    if e.lat.Some? && e.lon.Some? then Some((e.lat.value, e.lon.value))
    else if e.centerLat.Some? && e.centerLon.Some? then Some((e.centerLat.value, e.centerLon.value))
    else None
  }

  predicate Valid(e: Element) { NameOf(e) != "" && Location(e).Some? }

  function NewGym(e: Element, norm: string -> string): GymValue
    requires Valid(e)
  {
    var at := Location(e).value;
    GymValue(None, NameOf(e), norm(NameOf(e)), at.0, at.1, [e.ref], e.tags, None, DEFAULT_PROVENANCE)
  }

  /******* Buckets *******/

  function BucketKey(p: Point): Key {
    Key((p.x / BUCKET_SIZE).Floor, (p.y / BUCKET_SIZE).Floor)
  }

  function KeyAt(geo: Geometry, lat: real, lon: real): Key { BucketKey(geo.project(lat, lon)) }

  function NeighborKeys(k: Key): seq<Key> {
    [Key(k.x - 1, k.y - 1), Key(k.x - 1, k.y), Key(k.x - 1, k.y + 1),
     Key(k.x, k.y - 1), Key(k.x, k.y), Key(k.x, k.y + 1),
     Key(k.x + 1, k.y - 1), Key(k.x + 1, k.y), Key(k.x + 1, k.y + 1)]
  }

  predicate Adjacent(a: Key, b: Key) {
    -1 <= a.x - b.x <= 1 && -1 <= a.y - b.y <= 1
  }

  lemma NeighborsAreAdjacent(a: Key, b: Key)
    ensures b in NeighborKeys(a) <==> Adjacent(a, b)
  {
    if Adjacent(a, b) {
      assert NeighborKeys(a)[(b.x - a.x + 1) * 3 + (b.y - a.y + 1)] == b;
    }
  }

  lemma FloorsDifferByAtMostOne(x: real, y: real)
    requires x - y <= BUCKET_SIZE && y - x <= BUCKET_SIZE
    ensures -1 <= (x / BUCKET_SIZE).Floor - (y / BUCKET_SIZE).Floor <= 1
  {
    assert x / BUCKET_SIZE - y / BUCKET_SIZE <= 1.0 && y / BUCKET_SIZE - x / BUCKET_SIZE <= 1.0;
  }

  // Two points at most one bucket width apart on each axis fall into equal or adjacent buckets.
  lemma CloseProjectionsAreAdjacent(p: Point, q: Point)
    requires p.x - q.x <= BUCKET_SIZE && q.x - p.x <= BUCKET_SIZE
    requires p.y - q.y <= BUCKET_SIZE && q.y - p.y <= BUCKET_SIZE
    ensures Adjacent(BucketKey(p), BucketKey(q))
  {
    FloorsDifferByAtMostOne(p.x, q.x);
    FloorsDifferByAtMostOne(p.y, q.y);
  }

  /******* The two searches *******/

  predicate InRange(g: GymValue, lat: real, lon: real, geo: Geometry) {
    geo.dist(lat, lon, g.lat, g.lon) <= MERGE_DISTANCE
  }

  predicate InBucket(g: GymValue, norm: string, key: Key, geo: Geometry) {
    g.norm == norm && KeyAt(geo, g.lat, g.lon) == key
  }

  // Positions, in order, of the kept gyms that bucket `key` of name `norm` holds.
  function Bucket(kept: seq<GymValue>, norm: string, key: Key, geo: Geometry): seq<nat> {
    if kept == [] then []
    else
      var init, last := kept[..|kept| - 1], kept[|kept| - 1];
      if InBucket(last, norm, key, geo)
      then Bucket(init, norm, key, geo) + [|init|]
      else Bucket(init, norm, key, geo)
  }

  function FirstInRange(positions: seq<nat>, kept: seq<GymValue>, lat: real, lon: real, geo: Geometry): Option<nat>
    requires forall i :: 0 <= i < |positions| ==> positions[i] < |kept|
  {
    if positions == [] then None
    else if InRange(kept[positions[0]], lat, lon, geo) then Some(positions[0])
    else FirstInRange(positions[1..], kept, lat, lon, geo)
  }

  lemma {:induction false} BucketMembers(kept: seq<GymValue>, norm: string, key: Key, geo: Geometry)
    ensures forall i :: 0 <= i < |Bucket(kept, norm, key, geo)| ==> Bucket(kept, norm, key, geo)[i] < |kept|
    ensures forall p: nat :: p in Bucket(kept, norm, key, geo) <==> p < |kept| && InBucket(kept[p], norm, key, geo)
  {
    if kept != [] {
      BucketMembers(kept[..|kept| - 1], norm, key, geo);
    }
  }

  lemma {:induction false} FirstInRangeIsExact(positions: seq<nat>, kept: seq<GymValue>, lat: real, lon: real,
                                               geo: Geometry)
    requires forall i :: 0 <= i < |positions| ==> positions[i] < |kept|
    ensures var r := FirstInRange(positions, kept, lat, lon, geo);
            && (r.Some? ==> r.value in positions && InRange(kept[r.value], lat, lon, geo))
            && (r.None? ==> forall i :: 0 <= i < |positions| ==> !InRange(kept[positions[i]], lat, lon, geo))
  {
    if positions != [] && !InRange(kept[positions[0]], lat, lon, geo) {
      FirstInRangeIsExact(positions[1..], kept, lat, lon, geo);
    }
  }

  function SearchBucket(kept: seq<GymValue>, norm: string, key: Key, lat: real, lon: real, geo: Geometry): Option<nat> {
    BucketMembers(kept, norm, key, geo);
    FirstInRange(Bucket(kept, norm, key, geo), kept, lat, lon, geo)
  }

  function SearchBuckets(kept: seq<GymValue>, norm: string, keys: seq<Key>, lat: real, lon: real,
                         geo: Geometry): Option<nat> {
    if keys == [] then None
    else
      var found := SearchBucket(kept, norm, keys[0], lat, lon, geo);
      if found.Some? then found else SearchBuckets(kept, norm, keys[1..], lat, lon, geo)
  }

  function FindNearby(kept: seq<GymValue>, norm: string, lat: real, lon: real, geo: Geometry): Option<nat> {
    SearchBuckets(kept, norm, NeighborKeys(KeyAt(geo, lat, lon)), lat, lon, geo)
  }

  predicate Mergeable(g: GymValue, norm: string, lat: real, lon: real, geo: Geometry) {
    g.norm == norm && InRange(g, lat, lon, geo)
  }

  // The quadratic scan: the first kept gym of that name in range.
  function FindAnywhere(kept: seq<GymValue>, norm: string, lat: real, lon: real, geo: Geometry): Option<nat> {
    if kept == [] then None
    else
      var init := kept[..|kept| - 1];
      var earlier := FindAnywhere(init, norm, lat, lon, geo);
      if earlier.Some? then earlier
      else if Mergeable(kept[|init|], norm, lat, lon, geo) then Some(|init|)
      else None
  }

  predicate MergeableNearby(g: GymValue, norm: string, lat: real, lon: real, geo: Geometry) {
    Mergeable(g, norm, lat, lon, geo) && Adjacent(KeyAt(geo, lat, lon), KeyAt(geo, g.lat, g.lon))
  }

  lemma {:induction false} SearchBucketsIsExact(kept: seq<GymValue>, norm: string, keys: seq<Key>, lat: real,
                                                lon: real, geo: Geometry)
    ensures var r := SearchBuckets(kept, norm, keys, lat, lon, geo);
            && (r.Some? ==> r.value < |kept| && Mergeable(kept[r.value], norm, lat, lon, geo)
                            && KeyAt(geo, kept[r.value].lat, kept[r.value].lon) in keys)
            && (r.None? ==> forall i :: 0 <= i < |kept| && KeyAt(geo, kept[i].lat, kept[i].lon) in keys
                                        ==> !Mergeable(kept[i], norm, lat, lon, geo))
  {
    if keys != [] {
      SearchBucketsIsExact(kept, norm, keys[1..], lat, lon, geo);
      var bucket := Bucket(kept, norm, keys[0], geo);
      BucketMembers(kept, norm, keys[0], geo);
      FirstInRangeIsExact(bucket, kept, lat, lon, geo);
      forall i | 0 <= i < |kept| && KeyAt(geo, kept[i].lat, kept[i].lon) == keys[0]
                 && Mergeable(kept[i], norm, lat, lon, geo)
        ensures SearchBucket(kept, norm, keys[0], lat, lon, geo).Some?
      {
        assert i in bucket;
      }
    }
  }

  /** The nine-bucket search finds a gym of that name in range exactly when one lies in an equal
      or adjacent bucket. */
  lemma FindNearbyIsExact(kept: seq<GymValue>, norm: string, lat: real, lon: real, geo: Geometry)
    ensures var r := FindNearby(kept, norm, lat, lon, geo);
            && (r.Some? ==> r.value < |kept| && MergeableNearby(kept[r.value], norm, lat, lon, geo))
            && (r.None? ==> forall i :: 0 <= i < |kept| ==> !MergeableNearby(kept[i], norm, lat, lon, geo))
  {
    var here := KeyAt(geo, lat, lon);
    SearchBucketsIsExact(kept, norm, NeighborKeys(here), lat, lon, geo);
    forall i | 0 <= i < |kept|
      ensures KeyAt(geo, kept[i].lat, kept[i].lon) in NeighborKeys(here)
              <==> Adjacent(here, KeyAt(geo, kept[i].lat, kept[i].lon))
    {
      NeighborsAreAdjacent(here, KeyAt(geo, kept[i].lat, kept[i].lon));
    }
  }

  lemma {:induction false} FindAnywhereIsExact(kept: seq<GymValue>, norm: string, lat: real, lon: real, geo: Geometry)
    ensures var r := FindAnywhere(kept, norm, lat, lon, geo);
            && (r.Some? ==> r.value < |kept| && Mergeable(kept[r.value], norm, lat, lon, geo))
            && (r.None? ==> forall i :: 0 <= i < |kept| ==> !Mergeable(kept[i], norm, lat, lon, geo))
  {
    if kept != [] {
      FindAnywhereIsExact(kept[..|kept| - 1], norm, lat, lon, geo);
    }
  }

  /******* The two passes *******/

  function Credit(kept: seq<GymValue>, e: Element, norm: string -> string, hit: Option<nat>): seq<GymValue>
    requires Valid(e)
    requires hit.Some? ==> hit.value < |kept|
  {
    match hit
    case Some(i) => kept[i := kept[i].(refs := kept[i].refs + [e.ref])]
    case None => kept + [NewGym(e, norm)]
  }

  function Target(kept: seq<GymValue>, e: Element, norm: string -> string, geo: Geometry): Option<nat>
    requires Valid(e)
  {
    var at := Location(e).value;
    FindNearby(kept, norm(NameOf(e)), at.0, at.1, geo)
  }

  function AddNearby(kept: seq<GymValue>, e: Element, norm: string -> string, geo: Geometry): seq<GymValue> {
    if !Valid(e) then kept
    else
      var at := Location(e).value;
      FindNearbyIsExact(kept, norm(NameOf(e)), at.0, at.1, geo);
      Credit(kept, e, norm, Target(kept, e, norm, geo))
  }

  function AddAnywhere(kept: seq<GymValue>, e: Element, norm: string -> string, geo: Geometry): seq<GymValue> {
    if !Valid(e) then kept
    else
      var at := Location(e).value;
      FindAnywhereIsExact(kept, norm(NameOf(e)), at.0, at.1, geo);
      Credit(kept, e, norm, FindAnywhere(kept, norm(NameOf(e)), at.0, at.1, geo))
  }

  // What the loop computes.
  function Bucketed(es: seq<Element>, norm: string -> string, geo: Geometry): seq<GymValue> {
    if es == [] then [] else AddNearby(Bucketed(es[..|es| - 1], norm, geo), es[|es| - 1], norm, geo)
  }

  // The quadratic greedy algorithm.
  function Greedy(es: seq<Element>, norm: string -> string, geo: Geometry): seq<GymValue> {
    if es == [] then [] else AddAnywhere(Greedy(es[..|es| - 1], norm, geo), es[|es| - 1], norm, geo)
  }

  // A gym apart from whom it is credited with.
  function Shape(g: GymValue): GymValue { g.(refs := []) }

  ghost predicate SameShapes(a: seq<GymValue>, b: seq<GymValue>) {
    |a| == |b| && forall i :: 0 <= i < |a| ==> Shape(a[i]) == Shape(b[i])
  }

  ghost predicate Grows(a: seq<GymValue>, b: seq<GymValue>) {
    |a| <= |b| && forall i :: 0 <= i < |a| ==> Shape(a[i]) == Shape(b[i])
  }

  // Crediting an element to a kept gym changes no shape; otherwise its own gym is appended.
  lemma CreditShapes(kept: seq<GymValue>, e: Element, norm: string -> string, hit: Option<nat>)
    requires Valid(e)
    requires hit.Some? ==> hit.value < |kept|
    ensures var added := Credit(kept, e, norm, hit);
            && Grows(kept, added)
            && |added| == (if hit.Some? then |kept| else |kept| + 1)
            && (hit.None? ==> added[|kept|] == NewGym(e, norm))
  {
    var added := Credit(kept, e, norm, hit);
    forall i | 0 <= i < |kept|
      ensures Shape(kept[i]) == Shape(added[i])
    {
      assert hit.None? || i != hit.value ==> added[i] == kept[i];
    }
  }

  lemma AddGrows(kept: seq<GymValue>, e: Element, norm: string -> string, geo: Geometry)
    ensures var added := AddNearby(kept, e, norm, geo);
            && Grows(kept, added)
            && (|added| == |kept| || (Valid(e) && |added| == |kept| + 1 && added[|kept|] == NewGym(e, norm)))
  {
    if Valid(e) {
      var at := Location(e).value;
      FindNearbyIsExact(kept, norm(NameOf(e)), at.0, at.1, geo);
      CreditShapes(kept, e, norm, Target(kept, e, norm, geo));
    }
  }

  /** Every pair of valid elements within the merge distance falls into adjacent buckets. */
  ghost predicate RangeImpliesAdjacent(es: seq<Element>, geo: Geometry) {
    forall i, j :: 0 <= i < |es| && 0 <= j < |es| && Valid(es[i]) && Valid(es[j]) ==> PairAdjacent(es[i], es[j], geo)
  }

  predicate PairAdjacent(e: Element, f: Element, geo: Geometry)
    requires Valid(e) && Valid(f)
  {
    var a, b := Location(e).value, Location(f).value;
    geo.dist(a.0, a.1, b.0, b.1) <= MERGE_DISTANCE ==> Adjacent(KeyAt(geo, a.0, a.1), KeyAt(geo, b.0, b.1))
  }

  // Each kept gym stands where some valid element stood.
  ghost predicate ElementStands(es: seq<Element>, lat: real, lon: real) {
    exists k :: 0 <= k < |es| && Valid(es[k]) && Location(es[k]) == Some((lat, lon))
  }

  ghost predicate StandsOn(kept: seq<GymValue>, es: seq<Element>) {
    forall i :: 0 <= i < |kept| ==> ElementStands(es, kept[i].lat, kept[i].lon)
  }

  lemma ElementStandsLater(es: seq<Element>, e: Element, lat: real, lon: real)
    requires ElementStands(es, lat, lon) || (Valid(e) && Location(e) == Some((lat, lon)))
    ensures ElementStands(es + [e], lat, lon)
  {
    if ElementStands(es, lat, lon) {
      var k :| 0 <= k < |es| && Valid(es[k]) && Location(es[k]) == Some((lat, lon));
      assert (es + [e])[k] == es[k];
    } else {
      assert (es + [e])[|es|] == e;
    }
  }

  lemma AddStandsOn(kept: seq<GymValue>, es: seq<Element>, e: Element, norm: string -> string, geo: Geometry)
    requires StandsOn(kept, es)
    ensures StandsOn(AddNearby(kept, e, norm, geo), es + [e])
  {
    var added := AddNearby(kept, e, norm, geo);
    AddGrows(kept, e, norm, geo);
    forall i | 0 <= i < |added|
      ensures ElementStands(es + [e], added[i].lat, added[i].lon)
    {
      if i < |kept| {
        assert Shape(kept[i]) == Shape(added[i]);
        assert ElementStands(es, kept[i].lat, kept[i].lon);
      }
      ElementStandsLater(es, e, added[i].lat, added[i].lon);
    }
  }

  lemma {:induction false} BucketedStandsOn(es: seq<Element>, norm: string -> string, geo: Geometry)
    ensures StandsOn(Bucketed(es, norm, geo), es)
    decreases |es|
  {
    if es != [] {
      var init, e := es[..|es| - 1], es[|es| - 1];
      BucketedStandsOn(init, norm, geo);
      AddStandsOn(Bucketed(init, norm, geo), init, e, norm, geo);
      assert init + [e] == es;
    }
  }

  ghost predicate AdjacentToAll(e: Element, es: seq<Element>, geo: Geometry)
    requires Valid(e)
  {
    forall k :: 0 <= k < |es| && Valid(es[k]) ==> PairAdjacent(e, es[k], geo)
  }

  lemma SearchesAgree(kept: seq<GymValue>, other: seq<GymValue>, es: seq<Element>, e: Element,
                      norm: string -> string, geo: Geometry)
    requires SameShapes(kept, other)
    requires Valid(e) && StandsOn(kept, es)
    requires AdjacentToAll(e, es, geo)
    ensures var at := Location(e).value;
            FindNearby(kept, norm(NameOf(e)), at.0, at.1, geo).Some?
            <==> FindAnywhere(other, norm(NameOf(e)), at.0, at.1, geo).Some?
  {
    var at, n := Location(e).value, norm(NameOf(e));
    FindNearbyIsExact(kept, n, at.0, at.1, geo);
    FindAnywhereIsExact(other, n, at.0, at.1, geo);
    var found := FindAnywhere(other, n, at.0, at.1, geo);
    if found.Some? {
      var i := found.value;
      assert Shape(kept[i]) == Shape(other[i]);
      assert ElementStands(es, kept[i].lat, kept[i].lon);
      var k :| 0 <= k < |es| && Valid(es[k]) && Location(es[k]) == Some((kept[i].lat, kept[i].lon));
      assert PairAdjacent(e, es[k], geo);
      assert MergeableNearby(kept[i], n, at.0, at.1, geo);
    }
    var near := FindNearby(kept, n, at.0, at.1, geo);
    if near.Some? {
      assert Shape(kept[near.value]) == Shape(other[near.value]);
      assert Mergeable(other[near.value], n, at.0, at.1, geo);
    }
  }

  lemma CreditsAgree(kept: seq<GymValue>, other: seq<GymValue>, e: Element, norm: string -> string,
                     here: Option<nat>, there: Option<nat>)
    requires Valid(e) && SameShapes(kept, other) && here.Some? == there.Some?
    requires here.Some? ==> here.value < |kept| && there.value < |other|
    ensures SameShapes(Credit(kept, e, norm, here), Credit(other, e, norm, there))
  {
    CreditShapes(kept, e, norm, here);
    CreditShapes(other, e, norm, there);
    var a, b := Credit(kept, e, norm, here), Credit(other, e, norm, there);
    forall i | 0 <= i < |a|
      ensures Shape(a[i]) == Shape(b[i])
    {
      if i < |kept| {
        assert Shape(kept[i]) == Shape(a[i]) && Shape(other[i]) == Shape(b[i]);
      }
    }
  }

  lemma AddKeepsSameShapes(kept: seq<GymValue>, other: seq<GymValue>, es: seq<Element>, e: Element,
                           norm: string -> string, geo: Geometry)
    requires SameShapes(kept, other)
    requires StandsOn(kept, es)
    requires Valid(e) ==> AdjacentToAll(e, es, geo)
    ensures SameShapes(AddNearby(kept, e, norm, geo), AddAnywhere(other, e, norm, geo))
  {
    if Valid(e) {
      var at, n := Location(e).value, norm(NameOf(e));
      SearchesAgree(kept, other, es, e, norm, geo);
      FindNearbyIsExact(kept, n, at.0, at.1, geo);
      FindAnywhereIsExact(other, n, at.0, at.1, geo);
      CreditsAgree(kept, other, e, norm, Target(kept, e, norm, geo), FindAnywhere(other, n, at.0, at.1, geo));
    }
  }

  /** Bucketed deduplication keeps exactly the gyms the quadratic greedy scan keeps, in the same
      order, whenever elements in range of each other fall into adjacent buckets. */
  lemma {:induction false} BucketedRefinesGreedy(es: seq<Element>, norm: string -> string, geo: Geometry)
    requires RangeImpliesAdjacent(es, geo)
    ensures SameShapes(Bucketed(es, norm, geo), Greedy(es, norm, geo))
    decreases |es|
  {
    if es != [] {
      var init, e := es[..|es| - 1], es[|es| - 1];
      assert RangeImpliesAdjacent(init, geo);
      BucketedRefinesGreedy(init, norm, geo);
      BucketedStandsOn(init, norm, geo);
      forall k | 0 <= k < |init| && Valid(init[k]) && Valid(e)
        ensures PairAdjacent(e, init[k], geo)
      {
        assert es[k] == init[k] && es[|init|] == e;
      }
      AddKeepsSameShapes(Bucketed(init, norm, geo), Greedy(init, norm, geo), init, e, norm, geo);
    }
  }

  ghost predicate GeometryFits(geo: Geometry) {
    forall lat, lon, lat', lon' ::
      geo.dist(lat, lon, lat', lon') <= MERGE_DISTANCE ==> Adjacent(KeyAt(geo, lat, lon), KeyAt(geo, lat', lon'))
  }

  function At(lat: real, lon: real): Element {
    Element(Ref("node", ""), map["name" := "a"], Some(lat), Some(lon), None, None)
  }

  lemma SingleOutcome(e: Element, norm: string -> string, geo: Geometry)
    requires Valid(e)
    ensures Bucketed([e], norm, geo) == Greedy([e], norm, geo) == [NewGym(e, norm)]
  {
    assert [e][..0] == [];
    var at := Location(e).value;
    FindNearbyIsExact([], norm(NameOf(e)), at.0, at.1, geo);
    FindAnywhereIsExact([], norm(NameOf(e)), at.0, at.1, geo);
    CreditShapes([], e, norm, None);
  }

  // What the two algorithms make of two elements of one name.
  lemma PairOutcome(first: Element, second: Element, norm: string -> string, geo: Geometry)
    requires Valid(first) && Valid(second) && norm(NameOf(first)) == norm(NameOf(second))
    ensures var a, b := Location(first).value, Location(second).value;
            var merge := geo.dist(b.0, b.1, a.0, a.1) <= MERGE_DISTANCE;
            && |Greedy([first, second], norm, geo)| == (if merge then 1 else 2)
            && |Bucketed([first, second], norm, geo)|
               == (if merge && Adjacent(KeyAt(geo, b.0, b.1), KeyAt(geo, a.0, a.1)) then 1 else 2)
  {
    var one := [NewGym(first, norm)];
    SingleOutcome(first, norm, geo);
    assert [first, second][..1] == [first];
    PairSearches(first, second, norm, geo);
    var b, n := Location(second).value, norm(NameOf(second));
    CreditShapes(one, second, norm, FindNearby(one, n, b.0, b.1, geo));
    CreditShapes(one, second, norm, FindAnywhere(one, n, b.0, b.1, geo));
  }

  lemma PairSearches(first: Element, second: Element, norm: string -> string, geo: Geometry)
    requires Valid(first) && Valid(second) && norm(NameOf(first)) == norm(NameOf(second))
    ensures var a, b := Location(first).value, Location(second).value;
            var one, n := [NewGym(first, norm)], norm(NameOf(second));
            var near, any := FindNearby(one, n, b.0, b.1, geo), FindAnywhere(one, n, b.0, b.1, geo);
            var merge := geo.dist(b.0, b.1, a.0, a.1) <= MERGE_DISTANCE;
            && (any.Some? <==> merge)
            && (near.Some? <==> merge && Adjacent(KeyAt(geo, b.0, b.1), KeyAt(geo, a.0, a.1)))
            && (any.Some? ==> any.value == 0) && (near.Some? ==> near.value == 0)
  {
    var one, n, b := [NewGym(first, norm)], norm(NameOf(second)), Location(second).value;
    FindNearbyIsExact(one, n, b.0, b.1, geo);
    FindAnywhereIsExact(one, n, b.0, b.1, geo);
    assert one[0] == NewGym(first, norm);
  }

  /** The two algorithms keep the same gyms on every input exactly when the projection never
      puts points within the merge distance into buckets that are not adjacent. */
  lemma RefinementIffGeometryFits(norm: string -> string, geo: Geometry)
    ensures (forall es :: SameShapes(Bucketed(es, norm, geo), Greedy(es, norm, geo))) <==> GeometryFits(geo)
  {
    if GeometryFits(geo) {
      forall es
        ensures SameShapes(Bucketed(es, norm, geo), Greedy(es, norm, geo))
      {
        assert forall i, j :: 0 <= i < |es| && 0 <= j < |es| && Valid(es[i]) && Valid(es[j]) ==>
                      PairAdjacent(es[i], es[j], geo);
        BucketedRefinesGreedy(es, norm, geo);
      }
    } else {
      var lat, lon, lat', lon' :|
        geo.dist(lat, lon, lat', lon') <= MERGE_DISTANCE && !Adjacent(KeyAt(geo, lat, lon), KeyAt(geo, lat', lon'));
      PairOutcome(At(lat', lon'), At(lat, lon), norm, geo);
      assert !SameShapes(Bucketed([At(lat', lon'), At(lat, lon)], norm, geo),
                         Greedy([At(lat', lon'), At(lat, lon)], norm, geo));
    }
  }

  /** The geometric hypothesis as stated for coordinates: points within the merge distance
      differ by at most one bucket width on each projected axis. */
  ghost predicate ProjectionIsClose(es: seq<Element>, geo: Geometry) {
    forall i, j :: 0 <= i < |es| && 0 <= j < |es| && Valid(es[i]) && Valid(es[j]) ==> PairClose(es[i], es[j], geo)
  }

  predicate PairClose(e: Element, f: Element, geo: Geometry)
    requires Valid(e) && Valid(f)
  {
    var a, b := Location(e).value, Location(f).value;
    var p, q := geo.project(a.0, a.1), geo.project(b.0, b.1);
    geo.dist(a.0, a.1, b.0, b.1) <= MERGE_DISTANCE
    ==> p.x - q.x <= BUCKET_SIZE && q.x - p.x <= BUCKET_SIZE && p.y - q.y <= BUCKET_SIZE && q.y - p.y <= BUCKET_SIZE
  }

  lemma CloseProjectionSuffices(es: seq<Element>, norm: string -> string, geo: Geometry)
    requires ProjectionIsClose(es, geo)
    ensures SameShapes(Bucketed(es, norm, geo), Greedy(es, norm, geo))
  {
    forall i, j | 0 <= i < |es| && 0 <= j < |es| && Valid(es[i]) && Valid(es[j])
      ensures PairAdjacent(es[i], es[j], geo)
    {
      assert PairClose(es[i], es[j], geo);
      var a, b := Location(es[i]).value, Location(es[j]).value;
      if geo.dist(a.0, a.1, b.0, b.1) <= MERGE_DISTANCE {
        CloseProjectionsAreAdjacent(geo.project(a.0, a.1), geo.project(b.0, b.1));
      }
    }
    BucketedRefinesGreedy(es, norm, geo);
  }

  /******* Conservation *******/

  // The gym an element is credited to when its turn comes.
  function CreditedTo(es: seq<Element>, norm: string -> string, geo: Geometry, k: nat): Option<nat>
    requires k < |es|
  {
    if !Valid(es[k]) then None
    else
      var kept := Bucketed(es[..k], norm, geo);
      var target := Target(kept, es[k], norm, geo);
      if target.Some? then target else Some(|kept|)
  }

  // References of the elements credited to gym j, in input order.
  function CreditedRefs(es: seq<Element>, norm: string -> string, geo: Geometry, j: nat): seq<Ref> {
    if es == [] then []
    else
      var init := es[..|es| - 1];
      CreditedRefs(init, norm, geo, j) + if CreditedTo(es, norm, geo, |init|) == Some(j) then [es[|init|].ref] else []
  }

  lemma {:induction false} BucketedGrows(es: seq<Element>, norm: string -> string, geo: Geometry, n: nat)
    requires n <= |es|
    ensures Grows(Bucketed(es[..n], norm, geo), Bucketed(es, norm, geo))
    decreases |es|
  {
    if n == |es| {
      assert es[..n] == es;
    } else {
      var init := es[..|es| - 1];
      BucketedGrows(init, norm, geo, n);
      assert init[..n] == es[..n];
      AddGrows(Bucketed(init, norm, geo), es[|es| - 1], norm, geo);
    }
  }

  lemma AddRefs(kept: seq<GymValue>, e: Element, norm: string -> string, geo: Geometry, j: nat)
    requires Valid(e)
    requires j < |AddNearby(kept, e, norm, geo)|
    ensures var target := Target(kept, e, norm, geo);
            var mine := if target.Some? then target.value == j else j == |kept|;
            AddNearby(kept, e, norm, geo)[j].refs
            == (if j < |kept| then kept[j].refs else []) + if mine then [e.ref] else []
  {
    var at := Location(e).value;
    FindNearbyIsExact(kept, norm(NameOf(e)), at.0, at.1, geo);
  }

  lemma {:induction false} CreditedRefsBeyond(es: seq<Element>, norm: string -> string, geo: Geometry, j: nat)
    requires |Bucketed(es, norm, geo)| <= j
    ensures CreditedRefs(es, norm, geo, j) == []
    decreases |es|
  {
    if es != [] {
      var init, e := es[..|es| - 1], es[|es| - 1];
      var kept := Bucketed(init, norm, geo);
      AddGrows(kept, e, norm, geo);
      CreditedRefsBeyond(init, norm, geo, j);
      if Valid(e) {
        var at := Location(e).value;
        FindNearbyIsExact(kept, norm(NameOf(e)), at.0, at.1, geo);
      }
    }
  }

  /** Every gym is credited with exactly the references of the elements credited to it, in input
      order: nothing is lost, doubled or moved. */
  lemma {:induction false} RefsAreConserved(es: seq<Element>, norm: string -> string, geo: Geometry, j: nat)
    requires j < |Bucketed(es, norm, geo)|
    ensures Bucketed(es, norm, geo)[j].refs == CreditedRefs(es, norm, geo, j)
    decreases |es|
  {
    var init, e := es[..|es| - 1], es[|es| - 1];
    var kept := Bucketed(init, norm, geo);
    if j < |kept| {
      RefsAreConserved(init, norm, geo, j);
    } else {
      CreditedRefsBeyond(init, norm, geo, j);
    }
    if Valid(e) {
      AddRefs(kept, e, norm, geo, j);
    }
  }

  /** Every valid element is credited to one gym of its own normalised name, which either lies
      within the merge distance or was made from that very element; an invalid one to none. */
  lemma CreditIsRight(es: seq<Element>, norm: string -> string, geo: Geometry, k: nat)
    requires k < |es|
    ensures var credited := CreditedTo(es, norm, geo, k);
            var gyms := Bucketed(es, norm, geo);
            && (credited.Some? <==> Valid(es[k]))
            && (credited.Some? ==>
                  && credited.value < |gyms|
                  && gyms[credited.value].norm == norm(NameOf(es[k]))
                  && var at := Location(es[k]).value;
                     || InRange(gyms[credited.value], at.0, at.1, geo)
                     || Shape(gyms[credited.value]) == Shape(NewGym(es[k], norm)))
  {
    if Valid(es[k]) {
      var kept, at := Bucketed(es[..k], norm, geo), Location(es[k]).value;
      FindNearbyIsExact(kept, norm(NameOf(es[k])), at.0, at.1, geo);
      assert es[..k + 1][..k] == es[..k];
      BucketedGrows(es, norm, geo, k + 1);
      var now := Bucketed(es[..k + 1], norm, geo);
      assert now == AddNearby(kept, es[k], norm, geo);
      var j := CreditedTo(es, norm, geo, k).value;
      assert Shape(now[j]) == Shape(Bucketed(es, norm, geo)[j]);
    }
  }

  /******* Separation and identifiers *******/

  ghost predicate Separated(kept: seq<GymValue>, geo: Geometry) {
    forall i, j :: 0 <= i < j < |kept| ==> PairSeparated(kept[i], kept[j], geo)
  }

  predicate PairSeparated(g: GymValue, h: GymValue, geo: Geometry) {
    !MergeableNearby(g, h.norm, h.lat, h.lon, geo)
  }

  lemma AddSeparates(kept: seq<GymValue>, e: Element, norm: string -> string, geo: Geometry)
    requires Separated(kept, geo)
    ensures Separated(AddNearby(kept, e, norm, geo), geo)
  {
    var added := AddNearby(kept, e, norm, geo);
    AddGrows(kept, e, norm, geo);
    forall i, j | 0 <= i < j < |added|
      ensures PairSeparated(added[i], added[j], geo)
    {
      assert Shape(kept[i]) == Shape(added[i]);
      if j < |kept| {
        assert Shape(kept[j]) == Shape(added[j]);
        assert PairSeparated(kept[i], kept[j], geo);
      } else {
        var at := Location(e).value;
        FindNearbyIsExact(kept, norm(NameOf(e)), at.0, at.1, geo);
      }
    }
  }

  /** Two kept gyms of one name in equal or adjacent buckets are farther apart than the merge
      distance. */
  lemma {:induction false} KeptGymsAreSeparated(es: seq<Element>, norm: string -> string, geo: Geometry)
    ensures Separated(Bucketed(es, norm, geo), geo)
    decreases |es|
  {
    if es != [] {
      KeptGymsAreSeparated(es[..|es| - 1], norm, geo);
      AddSeparates(Bucketed(es[..|es| - 1], norm, geo), es[|es| - 1], norm, geo);
    }
  }

  // What compute_gym_id hashes; `fmt` writes a coordinate with six decimals.
  function IdPreimage(g: GymValue, fmt: real -> string): string {
    g.norm + "|" + fmt(g.lat) + "|" + fmt(g.lon)
  }

  ghost predicate BarFree(s: string) { '|' !in s }

  ghost predicate WritesNoBar<T(!new)>(f: T -> string) { forall x :: BarFree(f(x)) }

  // Coordinates written alike are in range and in adjacent buckets.
  ghost predicate RoundingIsFine(kept: seq<GymValue>, fmt: real -> string, geo: Geometry) {
    forall i, j :: 0 <= i < j < |kept| && fmt(kept[i].lat) == fmt(kept[j].lat) && fmt(kept[i].lon) == fmt(kept[j].lon)
      ==> InRange(kept[i], kept[j].lat, kept[j].lon, geo)
          && Adjacent(KeyAt(geo, kept[j].lat, kept[j].lon), KeyAt(geo, kept[i].lat, kept[i].lon))
  }

  lemma {:induction false} FieldEnds(a: string, b: string, x: string, y: string)
    requires BarFree(a) && BarFree(b)
    requires a + "|" + x == b + "|" + y
    ensures a == b && x == y
  {
    var s, t := a + "|" + x, b + "|" + y;
    assert s[0] == (if a == [] then '|' else a[0]);
    assert t[0] == (if b == [] then '|' else b[0]);
    assert a == [] <==> b == [];
    if a == [] {
      assert s[1..] == x && t[1..] == y;
    } else {
      assert s[1..] == a[1..] + "|" + x && t[1..] == b[1..] + "|" + y;
      FieldEnds(a[1..], b[1..], x, y);
      assert a == [a[0]] + a[1..] && b == [b[0]] + b[1..];
    }
  }

  lemma PreimageFields(g: GymValue, h: GymValue, fmt: real -> string)
    requires BarFree(g.norm) && BarFree(h.norm) && WritesNoBar(fmt)
    requires IdPreimage(g, fmt) == IdPreimage(h, fmt)
    ensures g.norm == h.norm && fmt(g.lat) == fmt(h.lat) && fmt(g.lon) == fmt(h.lon)
  {
    var restG, restH := fmt(g.lat) + "|" + fmt(g.lon), fmt(h.lat) + "|" + fmt(h.lon);
    assert IdPreimage(g, fmt) == g.norm + "|" + restG;
    assert IdPreimage(h, fmt) == h.norm + "|" + restH;
    FieldEnds(g.norm, h.norm, restG, restH);
    assert BarFree(fmt(g.lat)) && BarFree(fmt(h.lat));
    FieldEnds(fmt(g.lat), fmt(h.lat), fmt(g.lon), fmt(h.lon));
  }

  ghost predicate Named(kept: seq<GymValue>, norm: string -> string) {
    forall i :: 0 <= i < |kept| ==> kept[i].norm == norm(kept[i].name)
  }

  lemma AddNames(kept: seq<GymValue>, e: Element, norm: string -> string, geo: Geometry)
    requires Named(kept, norm)
    ensures Named(AddNearby(kept, e, norm, geo), norm)
  {
    AddGrows(kept, e, norm, geo);
    var added := AddNearby(kept, e, norm, geo);
    forall i | 0 <= i < |added|
      ensures added[i].norm == norm(added[i].name)
    {
      if i < |kept| {
        assert Shape(kept[i]) == Shape(added[i]);
      }
    }
  }

  lemma {:induction false} BucketedNames(es: seq<Element>, norm: string -> string, geo: Geometry)
    ensures Named(Bucketed(es, norm, geo), norm)
    decreases |es|
  {
    if es != [] {
      BucketedNames(es[..|es| - 1], norm, geo);
      AddNames(Bucketed(es[..|es| - 1], norm, geo), es[|es| - 1], norm, geo);
    }
  }

  /** The strings that are hashed into gym ids are pairwise distinct, as the index's primary key
      needs. */
  lemma PreimagesAreDistinct(es: seq<Element>, norm: string -> string, fmt: real -> string, geo: Geometry, i: nat,
                             j: nat)
    requires WritesNoBar(norm) && WritesNoBar(fmt)
    requires RoundingIsFine(Bucketed(es, norm, geo), fmt, geo)
    requires i < j < |Bucketed(es, norm, geo)|
    ensures IdPreimage(Bucketed(es, norm, geo)[i], fmt) != IdPreimage(Bucketed(es, norm, geo)[j], fmt)
  {
    var g, h := Bucketed(es, norm, geo)[i], Bucketed(es, norm, geo)[j];
    BucketedNames(es, norm, geo);
    assert BarFree(norm(g.name)) && BarFree(norm(h.name));
    KeptGymsAreSeparated(es, norm, geo);
    assert PairSeparated(g, h, geo);
    if IdPreimage(g, fmt) == IdPreimage(h, fmt) {
      PreimageFields(g, h, fmt);
    }
  }

  ghost predicate DistinctPreimages(kept: seq<GymValue>, fmt: real -> string) {
    forall i, j :: 0 <= i < j < |kept| ==> IdPreimage(kept[i], fmt) != IdPreimage(kept[j], fmt)
  }

  // If `fmt` writes two points alike they are in range and in adjacent buckets.
  predicate PairFits(fmt: real -> string, geo: Geometry, lat: real, lon: real, lat': real, lon': real) {
    fmt(lat) == fmt(lat') && fmt(lon) == fmt(lon')
    ==> geo.dist(lat, lon, lat', lon') <= MERGE_DISTANCE && Adjacent(KeyAt(geo, lat, lon), KeyAt(geo, lat', lon'))
  }

  ghost predicate RoundingFits(fmt: real -> string, geo: Geometry) {
    forall lat, lon, lat', lon' :: PairFits(fmt, geo, lat, lon, lat', lon')
  }

  // Two elements of one name that the search keeps apart.
  lemma PairKept(first: Element, second: Element, norm: string -> string, geo: Geometry)
    requires Valid(first) && Valid(second) && norm(NameOf(first)) == norm(NameOf(second))
    requires var a, b := Location(first).value, Location(second).value;
             !(geo.dist(b.0, b.1, a.0, a.1) <= MERGE_DISTANCE && Adjacent(KeyAt(geo, b.0, b.1), KeyAt(geo, a.0, a.1)))
    ensures var a, b, two := Location(first).value, Location(second).value, [NewGym(first, norm), NewGym(second, norm)];
            && Bucketed([first, second], norm, geo) == two
            && (!(geo.dist(b.0, b.1, a.0, a.1) <= MERGE_DISTANCE) ==> Greedy([first, second], norm, geo) == two)
  {
    SingleOutcome(first, norm, geo);
    PairSearches(first, second, norm, geo);
    assert [first, second][..1] == [first];
    assert [NewGym(first, norm)] + [NewGym(second, norm)] == [NewGym(first, norm), NewGym(second, norm)];
  }

  lemma AllPreimagesDistinct(es: seq<Element>, norm: string -> string, fmt: real -> string, geo: Geometry)
    requires WritesNoBar(norm) && WritesNoBar(fmt) && RoundingFits(fmt, geo)
    ensures DistinctPreimages(Bucketed(es, norm, geo), fmt)
  {
    var kept := Bucketed(es, norm, geo);
    assert forall i, j :: 0 <= i < j < |kept| ==>
                            PairFits(fmt, geo, kept[j].lat, kept[j].lon, kept[i].lat, kept[i].lon);
    forall i, j | 0 <= i < j < |kept|
      ensures IdPreimage(kept[i], fmt) != IdPreimage(kept[j], fmt)
    {
      PreimagesAreDistinct(es, norm, fmt, geo, i, j);
    }
  }

  lemma SamePreimages(lat: real, lon: real, lat': real, lon': real, norm: string -> string, fmt: real -> string,
                      geo: Geometry)
    requires !PairFits(fmt, geo, lat, lon, lat', lon')
    ensures !DistinctPreimages(Bucketed([At(lat', lon'), At(lat, lon)], norm, geo), fmt)
  {
    var first, second := At(lat', lon'), At(lat, lon);
    PairKept(first, second, norm, geo);
    var two := [NewGym(first, norm), NewGym(second, norm)];
    assert IdPreimage(two[0], fmt) == IdPreimage(two[1], fmt);
  }

  /** The hashed texts are pairwise distinct on every input exactly when coordinates written alike
      are always in range and in adjacent buckets. */
  lemma PreimagesDistinctIff(norm: string -> string, fmt: real -> string, geo: Geometry)
    requires WritesNoBar(norm) && WritesNoBar(fmt)
    ensures (forall es :: DistinctPreimages(Bucketed(es, norm, geo), fmt)) <==> RoundingFits(fmt, geo)
  {
    if RoundingFits(fmt, geo) {
      forall es
        ensures DistinctPreimages(Bucketed(es, norm, geo), fmt)
      {
        AllPreimagesDistinct(es, norm, fmt, geo);
      }
    } else {
      var lat, lon, lat', lon' :| !PairFits(fmt, geo, lat, lon, lat', lon');
      SamePreimages(lat, lon, lat', lon', norm, fmt, geo);
    }
  }

  /******* The whole bag of references *******/

  function RefBag(kept: seq<GymValue>): multiset<Ref> {
    if kept == [] then multiset{} else RefBag(kept[..|kept| - 1]) + multiset(kept[|kept| - 1].refs)
  }

  function ValidRefs(es: seq<Element>): multiset<Ref> {
    if es == [] then multiset{}
    else
      var earlier, e := ValidRefs(es[..|es| - 1]), es[|es| - 1];
      if Valid(e) then earlier + multiset{e.ref} else earlier
  }

  lemma {:induction false} RefBagCredit(kept: seq<GymValue>, i: nat, r: Ref)
    requires i < |kept|
    ensures RefBag(kept[i := kept[i].(refs := kept[i].refs + [r])]) == RefBag(kept) + multiset{r}
  {
    var changed := kept[i := kept[i].(refs := kept[i].refs + [r])];
    var init := kept[..|kept| - 1];
    if i == |kept| - 1 {
      assert changed[..|kept| - 1] == init;
    } else {
      RefBagCredit(init, i, r);
      assert changed[..|kept| - 1] == init[i := init[i].(refs := init[i].refs + [r])];
    }
  }

  lemma AddRefBag(kept: seq<GymValue>, e: Element, norm: string -> string, geo: Geometry)
    requires Valid(e)
    ensures RefBag(AddNearby(kept, e, norm, geo)) == RefBag(kept) + multiset{e.ref}
  {
    var at := Location(e).value;
    FindNearbyIsExact(kept, norm(NameOf(e)), at.0, at.1, geo);
    var target := Target(kept, e, norm, geo);
    if target.Some? {
      RefBagCredit(kept, target.value, e.ref);
    } else {
      assert (kept + [NewGym(e, norm)])[..|kept|] == kept;
    }
  }

  /** All gyms together hold each valid element's reference once, and nothing else. */
  lemma {:induction false} RefsBalance(es: seq<Element>, norm: string -> string, geo: Geometry)
    ensures RefBag(Bucketed(es, norm, geo)) == ValidRefs(es)
    decreases |es|
  {
    if es != [] {
      var init, e := es[..|es| - 1], es[|es| - 1];
      RefsBalance(init, norm, geo);
      if Valid(e) {
        AddRefBag(Bucketed(init, norm, geo), e, norm, geo);
      }
    }
  }

  /******* The loop *******/

  // by_name_bucket: the gyms kept so far, by normalised name and bucket.
  type Index = map<string, map<Key, seq<Gym>>>

  function Entry(index: Index, norm: string, key: Key): seq<Gym> {
    if norm in index && key in index[norm] then index[norm][key] else []
  }

  // The gyms that one bucket ought to hold, in the order they were kept.
  function Held(gyms: seq<Gym>, norm: string, key: Key, geo: Geometry): seq<Gym> {
    if gyms == [] then []
    else
      var init, last := gyms[..|gyms| - 1], gyms[|gyms| - 1];
      if last.norm == norm && KeyAt(geo, last.lat, last.lon) == key
      then Held(init, norm, key, geo) + [last]
      else Held(init, norm, key, geo)
  }

  ghost predicate Mirrors(index: Index, gyms: seq<Gym>, geo: Geometry) {
    forall norm, key :: Entry(index, norm, key) == Held(gyms, norm, key, geo)
  }

  // What never changes of a kept gym.
  ghost predicate SamePlaces(gyms: seq<Gym>, kept: seq<GymValue>) {
    && |gyms| == |kept|
    && forall i :: 0 <= i < |gyms| ==>
         gyms[i].norm == kept[i].norm && gyms[i].lat == kept[i].lat && gyms[i].lon == kept[i].lon
  }

  lemma {:induction false} HeldIsBucket(gyms: seq<Gym>, kept: seq<GymValue>, norm: string, key: Key, geo: Geometry)
    requires SamePlaces(gyms, kept)
    ensures |Held(gyms, norm, key, geo)| == |Bucket(kept, norm, key, geo)|
    ensures forall j :: 0 <= j < |Held(gyms, norm, key, geo)| ==>
              Bucket(kept, norm, key, geo)[j] < |gyms|
              && Held(gyms, norm, key, geo)[j] == gyms[Bucket(kept, norm, key, geo)[j]]
  {
    if gyms != [] {
      HeldIsBucket(gyms[..|gyms| - 1], kept[..|kept| - 1], norm, key, geo);
    }
  }

  lemma KeepMirrors(index: Index, gyms: seq<Gym>, g: Gym, geo: Geometry)
    requires Mirrors(index, gyms, geo)
    ensures var key := KeyAt(geo, g.lat, g.lon);
            var byKey := if g.norm in index then index[g.norm] else map[];
            Mirrors(index[g.norm := byKey[key := Entry(index, g.norm, key) + [g]]], gyms + [g], geo)
  {
    var key := KeyAt(geo, g.lat, g.lon);
    var byKey := if g.norm in index then index[g.norm] else map[];
    var index' := index[g.norm := byKey[key := Entry(index, g.norm, key) + [g]]];
    forall n, k
      ensures Entry(index', n, k) == Held(gyms + [g], n, k, geo)
    {
      assert (gyms + [g])[..|gyms|] == gyms;
      assert Entry(index, n, k) == Held(gyms, n, k, geo);
    }
  }

  // The gym at a position, if there is one.
  ghost predicate Names(found: Gym?, gyms: seq<Gym>, position: Option<nat>) {
    match position
    case None => found == null
    case Some(i) => i < |gyms| && found == gyms[i]
  }

  method SearchEntry(entry: seq<Gym>, ghost gyms: seq<Gym>, ghost kept: seq<GymValue>, norm: string, key: Key,
                     lat: real, lon: real, geo: Geometry)
    returns (found: Gym?)
    requires SamePlaces(gyms, kept)
    requires entry == Held(gyms, norm, key, geo)
    ensures Names(found, gyms, SearchBucket(kept, norm, key, lat, lon, geo))
  {
    HeldIsBucket(gyms, kept, norm, key, geo);
    BucketMembers(kept, norm, key, geo);
    ghost var positions := Bucket(kept, norm, key, geo);
    found := null;
    var j := 0;
    assert positions[0..] == positions;
    while j < |entry|
      invariant 0 <= j <= |entry|
      invariant FirstInRange(positions[j..], kept, lat, lon, geo) == SearchBucket(kept, norm, key, lat, lon, geo)
    {
      assert positions[j..][0] == positions[j] && positions[j..][1..] == positions[j + 1..];
      if geo.dist(lat, lon, entry[j].lat, entry[j].lon) <= MERGE_DISTANCE {
        found := entry[j];
        return;
      }
      j := j + 1;
    }
  }

  method SearchIndex(index: Index, ghost gyms: seq<Gym>, ghost kept: seq<GymValue>, norm: string,
                     lat: real, lon: real, geo: Geometry)
    returns (found: Gym?)
    requires SamePlaces(gyms, kept)
    requires Mirrors(index, gyms, geo)
    ensures Names(found, gyms, FindNearby(kept, norm, lat, lon, geo))
  {
    var keys := NeighborKeys(KeyAt(geo, lat, lon));
    found := null;
    var i := 0;
    assert keys[0..] == keys;
    while i < |keys|
      invariant 0 <= i <= |keys|
      invariant found == null
      invariant SearchBuckets(kept, norm, keys[i..], lat, lon, geo) == FindNearby(kept, norm, lat, lon, geo)
    {
      assert keys[i..][0] == keys[i] && keys[i..][1..] == keys[i + 1..];
      assert Entry(index, norm, keys[i]) == Held(gyms, norm, keys[i], geo);
      found := SearchEntry(Entry(index, norm, keys[i]), gyms, kept, norm, keys[i], lat, lon, geo);
      if found != null {
        return;
      }
      i := i + 1;
    }
  }

  method AppendRef(gyms: seq<Gym>, ghost i: nat, found: Gym, r: Ref)
    requires i < |gyms| && found == gyms[i] && Distinct(gyms)
    modifies found
    ensures Views(gyms) == old(Views(gyms))[i := old(found.View()).(refs := old(found.refs) + [r])]
  {
    found.refs := found.refs + [r];
    assert forall j :: 0 <= j < |gyms| && j != i ==> gyms[j] != found;
  }

  method Keep(index: Index, gyms: seq<Gym>, e: Element, norm: string -> string, geo: Geometry)
    returns (index': Index, gyms': seq<Gym>)
    requires Valid(e) && Distinct(gyms) && Mirrors(index, gyms, geo)
    ensures |gyms'| == |gyms| + 1 && gyms' == gyms + [gyms'[|gyms|]] && fresh(gyms'[|gyms|])
    ensures Distinct(gyms') && Mirrors(index', gyms', geo)
    ensures Views(gyms') == Views(gyms) + [NewGym(e, norm)]
  {
    var at, name := Location(e).value, norm(NameOf(e));
    var gym := new Gym(NameOf(e), name, at.0, at.1, [e.ref], e.tags);
    var key := KeyAt(geo, at.0, at.1);
    var byKey := if name in index then index[name] else map[];
    KeepMirrors(index, gyms, gym, geo);
    index' := index[name := byKey[key := Entry(index, name, key) + [gym]]];
    gyms' := gyms + [gym];
  }

  method Take(index: Index, gyms: seq<Gym>, e: Element, norm: string -> string, geo: Geometry)
    returns (index': Index, gyms': seq<Gym>)
    requires Distinct(gyms) && Mirrors(index, gyms, geo)
    modifies Objects(gyms)
    ensures fresh(Objects(gyms') - Objects(gyms))
    ensures Distinct(gyms') && Mirrors(index', gyms', geo)
    ensures Views(gyms') == AddNearby(old(Views(gyms)), e, norm, geo)
  {
    index', gyms' := index, gyms;
    if Valid(e) {
      var at, name := Location(e).value, norm(NameOf(e));
      ghost var kept := Views(gyms);
      var found := SearchIndex(index, gyms, kept, name, at.0, at.1, geo);
      FindNearbyIsExact(kept, name, at.0, at.1, geo);
      if found != null {
        AppendRef(gyms, Target(kept, e, norm, geo).value, found, e.ref);
      } else {
        index', gyms' := Keep(index, gyms, e, norm, geo);
      }
    }
  }

  /** The ingest loop: the bucket index is kept in step with the output list, and references are
      appended to the kept objects in place. */
  method Deduplicate(elements: seq<Element>, norm: string -> string, geo: Geometry) returns (gyms: seq<Gym>)
    ensures fresh(Objects(gyms))
    ensures Distinct(gyms)
    ensures Views(gyms) == Bucketed(elements, norm, geo)
  {
    gyms := [];
    var index: Index := map[];
    for n := 0 to |elements|
      invariant fresh(Objects(gyms))
      invariant Distinct(gyms)
      invariant Mirrors(index, gyms, geo)
      invariant Views(gyms) == Bucketed(elements[..n], norm, geo)
    {
      assert elements[..n + 1][..n] == elements[..n];
      index, gyms := Take(index, gyms, elements[n], norm, geo);
    }
    assert elements[..|elements|] == elements;
  }
}
