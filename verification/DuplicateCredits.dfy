/** Which kept gym a duplicate's reference goes to. The quadratic scan credits the first kept gym
    in range, the loop over buckets the first one in the order of the nine keys; the two results
    are equal, references included, exactly when the geometry leaves no choice between them. */
module DuplicateCredits {
  import opened Wrappers
  import opened Gyms
  import opened Deduplication

  // Position of a key in the search order; past the end if it is not searched.
  function Rank(keys: seq<Key>, key: Key): nat {
    if keys == [] || keys[0] == key then 0 else 1 + Rank(keys[1..], key)
  }

  // How early a search around one point reaches the bucket of another.
  function RankAround(geo: Geometry, lat: real, lon: real, lat': real, lon': real): nat {
    Rank(NeighborKeys(KeyAt(geo, lat, lon)), KeyAt(geo, lat', lon'))
  }

  // The point r can choose between p and q, which is out of range of p, and prefers p.
  predicate PrefersFirst(geo: Geometry, p: (real, real), q: (real, real), r: (real, real)) {
    geo.dist(r.0, r.1, p.0, p.1) <= MERGE_DISTANCE && geo.dist(r.0, r.1, q.0, q.1) <= MERGE_DISTANCE
    && !(geo.dist(q.0, q.1, p.0, p.1) <= MERGE_DISTANCE)
    ==> RankAround(geo, r.0, r.1, p.0, p.1) <= RankAround(geo, r.0, r.1, q.0, q.1)
  }

  /** Whenever a point is in range of p and of a q that is out of range of p, the bucket of p is
      searched no later than that of q. */
  ghost predicate Unambiguous(geo: Geometry) { forall p, q, r :: PrefersFirst(geo, p, q, r) }

  /******* The first hit of the search *******/

  ghost predicate Increasing(b: seq<nat>) { forall i, j :: 0 <= i < j < |b| ==> b[i] < b[j] }

  lemma {:induction false} BucketIncreases(kept: seq<GymValue>, norm: string, key: Key, geo: Geometry)
    ensures Increasing(Bucket(kept, norm, key, geo))
  {
    if kept != [] {
      var init := kept[..|kept| - 1];
      BucketIncreases(init, norm, key, geo);
      BucketMembers(init, norm, key, geo);
      var earlier, b := Bucket(init, norm, key, geo), Bucket(kept, norm, key, geo);
      forall i, j | 0 <= i < j < |b|
        ensures b[i] < b[j]
      {
        assert b[i] == earlier[i];
      }
    }
  }

  lemma {:induction false} FirstInRangeIsFirst(positions: seq<nat>, kept: seq<GymValue>, lat: real, lon: real,
                                               geo: Geometry, i: nat)
    requires forall k :: 0 <= k < |positions| ==> positions[k] < |kept|
    requires Increasing(positions)
    requires i in positions && InRange(kept[i], lat, lon, geo)
    ensures var r := FirstInRange(positions, kept, lat, lon, geo);
            r.Some? && r.value <= i
  {
    if !InRange(kept[positions[0]], lat, lon, geo) {
      FirstInRangeIsFirst(positions[1..], kept, lat, lon, geo, i);
    }
  }

  lemma SearchBucketIsFirst(kept: seq<GymValue>, norm: string, key: Key, lat: real, lon: real, geo: Geometry, i: nat)
    requires i < |kept| && InBucket(kept[i], norm, key, geo) && InRange(kept[i], lat, lon, geo)
    ensures var r := SearchBucket(kept, norm, key, lat, lon, geo);
            r.Some? && r.value <= i
  {
    BucketMembers(kept, norm, key, geo);
    BucketIncreases(kept, norm, key, geo);
    assert i in Bucket(kept, norm, key, geo);
    FirstInRangeIsFirst(Bucket(kept, norm, key, geo), kept, lat, lon, geo, i);
  }

  lemma SearchBucketHit(kept: seq<GymValue>, norm: string, key: Key, lat: real, lon: real, geo: Geometry)
    ensures var r := SearchBucket(kept, norm, key, lat, lon, geo);
            r.Some? ==> r.value < |kept| && InBucket(kept[r.value], norm, key, geo)
  {
    BucketMembers(kept, norm, key, geo);
    FirstInRangeIsExact(Bucket(kept, norm, key, geo), kept, lat, lon, geo);
  }

  // The hit comes before gym i: in an earlier key, or in the same one at an earlier position.
  predicate NotAfter(kept: seq<GymValue>, keys: seq<Key>, geo: Geometry, r: nat, i: nat)
    requires r < |kept| && i < |kept|
  {
    var a, b := KeyAt(geo, kept[r].lat, kept[r].lon), KeyAt(geo, kept[i].lat, kept[i].lon);
    Rank(keys, a) < Rank(keys, b) || (a == b && r <= i)
  }

  lemma {:induction false} SearchFindsFirst(kept: seq<GymValue>, norm: string, keys: seq<Key>, lat: real, lon: real,
                                            geo: Geometry, i: nat)
    requires i < |kept| && Mergeable(kept[i], norm, lat, lon, geo) && KeyAt(geo, kept[i].lat, kept[i].lon) in keys
    ensures var r := SearchBuckets(kept, norm, keys, lat, lon, geo);
            r.Some? && r.value < |kept| && NotAfter(kept, keys, geo, r.value, i)
  {
    var key := KeyAt(geo, kept[i].lat, kept[i].lon);
    SearchBucketHit(kept, norm, keys[0], lat, lon, geo);
    if key == keys[0] {
      SearchBucketIsFirst(kept, norm, key, lat, lon, geo, i);
    } else if SearchBucket(kept, norm, keys[0], lat, lon, geo).None? {
      SearchFindsFirst(kept, norm, keys[1..], lat, lon, geo, i);
      var r := SearchBuckets(kept, norm, keys[1..], lat, lon, geo).value;
      LaterHit(kept, norm, keys, lat, lon, geo, r);
    }
  }

  // A hit in a later key is in none that is equal to the first.
  lemma LaterHit(kept: seq<GymValue>, norm: string, keys: seq<Key>, lat: real, lon: real, geo: Geometry, r: nat)
    requires keys != [] && SearchBucket(kept, norm, keys[0], lat, lon, geo).None?
    requires SearchBuckets(kept, norm, keys[1..], lat, lon, geo) == Some(r)
    ensures r < |kept| && KeyAt(geo, kept[r].lat, kept[r].lon) != keys[0]
  {
    SearchBucketsIsExact(kept, norm, keys[1..], lat, lon, geo);
    if KeyAt(geo, kept[r].lat, kept[r].lon) == keys[0] {
      SearchBucketIsFirst(kept, norm, keys[0], lat, lon, geo, r);
    }
  }

  /** The loop credits the mergeable gym whose bucket is searched first, and in one bucket the one
      kept first. */
  lemma FindNearbyIsFirst(kept: seq<GymValue>, norm: string, lat: real, lon: real, geo: Geometry, i: nat)
    requires i < |kept| && MergeableNearby(kept[i], norm, lat, lon, geo)
    ensures var r := FindNearby(kept, norm, lat, lon, geo);
            r.Some? && r.value < |kept| && NotAfter(kept, NeighborKeys(KeyAt(geo, lat, lon)), geo, r.value, i)
  {
    NeighborsAreAdjacent(KeyAt(geo, lat, lon), KeyAt(geo, kept[i].lat, kept[i].lon));
    SearchFindsFirst(kept, norm, NeighborKeys(KeyAt(geo, lat, lon)), lat, lon, geo, i);
  }

  lemma {:induction false} FindAnywhereIsFirst(kept: seq<GymValue>, norm: string, lat: real, lon: real,
                                               geo: Geometry, i: nat)
    requires i < |kept| && Mergeable(kept[i], norm, lat, lon, geo)
    ensures var r := FindAnywhere(kept, norm, lat, lon, geo);
            r.Some? && r.value <= i
  {
    var init := kept[..|kept| - 1];
    if i < |init| {
      FindAnywhereIsFirst(init, norm, lat, lon, geo, i);
    } else {
      FindAnywhereIsExact(init, norm, lat, lon, geo);
    }
  }

  /******* When both searches pick the same gym *******/

  // The two searches agree on where to credit one element.
  ghost predicate SameTarget(kept: seq<GymValue>, e: Element, norm: string -> string, geo: Geometry)
    requires Valid(e)
  {
    var at, n := Location(e).value, norm(NameOf(e));
    FindNearby(kept, n, at.0, at.1, geo) == FindAnywhere(kept, n, at.0, at.1, geo)
  }

  lemma NearbyIfFits(kept: seq<GymValue>, n: string, lat: real, lon: real, geo: Geometry, i: nat)
    requires GeometryFits(geo) && i < |kept| && Mergeable(kept[i], n, lat, lon, geo)
    ensures MergeableNearby(kept[i], n, lat, lon, geo)
  {
  }

  // Of two separated gyms that an element can merge with, the search prefers the earlier one.
  lemma PrefersEarlier(kept: seq<GymValue>, n: string, lat: real, lon: real, geo: Geometry, i: nat, k: nat)
    requires GeometryFits(geo) && Unambiguous(geo) && Separated(kept, geo)
    requires i < k < |kept| && Mergeable(kept[i], n, lat, lon, geo) && Mergeable(kept[k], n, lat, lon, geo)
    ensures !NotAfter(kept, NeighborKeys(KeyAt(geo, lat, lon)), geo, k, i)
  {
    var p, q := kept[i], kept[k];
    assert PairSeparated(p, q, geo);
    assert PrefersFirst(geo, (p.lat, p.lon), (q.lat, q.lon), (lat, lon));
    assert !(geo.dist(q.lat, q.lon, p.lat, p.lon) <= MERGE_DISTANCE);
  }

  // What the two searches need to agree on one element.
  ghost predicate SearchesFit(kept: seq<GymValue>, n: string, lat: real, lon: real, geo: Geometry) {
    && (forall i :: 0 <= i < |kept| && Mergeable(kept[i], n, lat, lon, geo)
          ==> MergeableNearby(kept[i], n, lat, lon, geo))
    && forall i, k :: 0 <= i < k < |kept|
                      && Mergeable(kept[i], n, lat, lon, geo) && Mergeable(kept[k], n, lat, lon, geo)
         ==> !NotAfter(kept, NeighborKeys(KeyAt(geo, lat, lon)), geo, k, i)
  }

  lemma SameHit(kept: seq<GymValue>, n: string, lat: real, lon: real, geo: Geometry)
    requires SearchesFit(kept, n, lat, lon, geo)
    ensures FindNearby(kept, n, lat, lon, geo) == FindAnywhere(kept, n, lat, lon, geo)
  {
    FindNearbyIsExact(kept, n, lat, lon, geo);
    FindAnywhereIsExact(kept, n, lat, lon, geo);
    var near, any := FindNearby(kept, n, lat, lon, geo), FindAnywhere(kept, n, lat, lon, geo);
    if any.Some? {
      FindNearbyIsFirst(kept, n, lat, lon, geo, any.value);
      FindAnywhereIsFirst(kept, n, lat, lon, geo, near.value);
    }
  }

  lemma UnambiguousTarget(kept: seq<GymValue>, e: Element, norm: string -> string, geo: Geometry)
    requires Valid(e) && GeometryFits(geo) && Unambiguous(geo) && Separated(kept, geo)
    ensures SameTarget(kept, e, norm, geo)
  {
    var at, n := Location(e).value, norm(NameOf(e));
    forall i | 0 <= i < |kept| && Mergeable(kept[i], n, at.0, at.1, geo)
      ensures MergeableNearby(kept[i], n, at.0, at.1, geo)
    {
      NearbyIfFits(kept, n, at.0, at.1, geo, i);
    }
    forall i, k | 0 <= i < k < |kept|
                  && Mergeable(kept[i], n, at.0, at.1, geo) && Mergeable(kept[k], n, at.0, at.1, geo)
      ensures !NotAfter(kept, NeighborKeys(KeyAt(geo, at.0, at.1)), geo, k, i)
    {
      PrefersEarlier(kept, n, at.0, at.1, geo, i, k);
    }
    SameHit(kept, n, at.0, at.1, geo);
  }

  lemma SameTargetSameStep(kept: seq<GymValue>, e: Element, norm: string -> string, geo: Geometry)
    requires Valid(e) ==> SameTarget(kept, e, norm, geo)
    ensures AddNearby(kept, e, norm, geo) == AddAnywhere(kept, e, norm, geo)
  {
  }

  lemma {:induction false} UnambiguousAgrees(es: seq<Element>, norm: string -> string, geo: Geometry)
    requires GeometryFits(geo) && Unambiguous(geo)
    ensures Bucketed(es, norm, geo) == Greedy(es, norm, geo)
    decreases |es|
  {
    if es != [] {
      var init, e := es[..|es| - 1], es[|es| - 1];
      UnambiguousAgrees(init, norm, geo);
      KeptGymsAreSeparated(init, norm, geo);
      if Valid(e) {
        UnambiguousTarget(Bucketed(init, norm, geo), e, norm, geo);
      }
      SameTargetSameStep(Bucketed(init, norm, geo), e, norm, geo);
    }
  }

  /******* When they do not *******/

  function Trio(p: (real, real), q: (real, real), r: (real, real)): seq<Element> {
    [At(p.0, p.1), At(q.0, q.1), At(r.0, r.1)]
  }

  // The first two of the three are kept by both algorithms.
  lemma TrioStart(p: (real, real), q: (real, real), norm: string -> string, geo: Geometry)
    requires !(geo.dist(q.0, q.1, p.0, p.1) <= MERGE_DISTANCE)
    ensures var two := [NewGym(At(p.0, p.1), norm), NewGym(At(q.0, q.1), norm)];
            Bucketed([At(p.0, p.1), At(q.0, q.1)], norm, geo) == two
            && Greedy([At(p.0, p.1), At(q.0, q.1)], norm, geo) == two
  {
    PairKept(At(p.0, p.1), At(q.0, q.1), norm, geo);
  }

  lemma TrioTargets(p: (real, real), q: (real, real), r: (real, real), norm: string -> string, geo: Geometry)
    requires GeometryFits(geo) && !PrefersFirst(geo, p, q, r)
    ensures var two := [NewGym(At(p.0, p.1), norm), NewGym(At(q.0, q.1), norm)];
            && FindAnywhere(two, norm("a"), r.0, r.1, geo) == Some(0)
            && FindNearby(two, norm("a"), r.0, r.1, geo) == Some(1)
  {
    var two := [NewGym(At(p.0, p.1), norm), NewGym(At(q.0, q.1), norm)];
    FindAnywhereIsFirst(two, norm("a"), r.0, r.1, geo, 0);
    NearbyIfFits(two, norm("a"), r.0, r.1, geo, 1);
    FindNearbyIsFirst(two, norm("a"), r.0, r.1, geo, 1);
  }

  lemma TrioDiffers(p: (real, real), q: (real, real), r: (real, real), norm: string -> string, geo: Geometry)
    requires GeometryFits(geo) && !PrefersFirst(geo, p, q, r)
    ensures |Greedy(Trio(p, q, r), norm, geo)| == |Bucketed(Trio(p, q, r), norm, geo)| == 2
    ensures |Greedy(Trio(p, q, r), norm, geo)[0].refs| == 2 && |Bucketed(Trio(p, q, r), norm, geo)[0].refs| == 1
  {
    var es := Trio(p, q, r);
    TrioStart(p, q, norm, geo);
    TrioTargets(p, q, r, norm, geo);
    assert es[..2] == [At(p.0, p.1), At(q.0, q.1)] && es[2] == At(r.0, r.1);
  }

  ghost predicate SameResult(es: seq<Element>, norm: string -> string, geo: Geometry) {
    Bucketed(es, norm, geo) == Greedy(es, norm, geo)
  }

  /** The loop and the quadratic scan give the same gyms with the same references on every input
      exactly when no two points within the merge distance project into buckets that are not
      adjacent, and no point in range of two that are apart searches the later one first. */
  lemma CreditsAgreeIff(norm: string -> string, geo: Geometry)
    ensures (forall es :: SameResult(es, norm, geo)) <==> GeometryFits(geo) && Unambiguous(geo)
  {
    if GeometryFits(geo) && Unambiguous(geo) {
      forall es
        ensures SameResult(es, norm, geo)
      {
        UnambiguousAgrees(es, norm, geo);
      }
    } else if forall es :: SameResult(es, norm, geo) {
      AgreementFits(norm, geo);
      var p, q, r :| !PrefersFirst(geo, p, q, r);
      assert SameResult(Trio(p, q, r), norm, geo);
      TrioDiffers(p, q, r, norm, geo);
    }
  }

  lemma AgreementFits(norm: string -> string, geo: Geometry)
    requires forall es :: SameResult(es, norm, geo)
    ensures GeometryFits(geo)
  {
    forall es
      ensures SameShapes(Bucketed(es, norm, geo), Greedy(es, norm, geo))
    {
      assert SameResult(es, norm, geo);
    }
    RefinementIffGeometryFits(norm, geo);
  }

  /** For one input: the results are equal, references included, when elements in range of each
      other have adjacent buckets and no element comes in range of two kept gyms of its name. */
  lemma {:induction false} UncontestedAgrees(es: seq<Element>, norm: string -> string, geo: Geometry)
    requires RangeImpliesAdjacent(es, geo)
    requires forall k :: 0 <= k < |es| ==> Uncontested(es, norm, geo, k)
    ensures Bucketed(es, norm, geo) == Greedy(es, norm, geo)
    decreases |es|
  {
    if es != [] {
      var init, e := es[..|es| - 1], es[|es| - 1];
      assert RangeImpliesAdjacent(init, geo);
      forall k | 0 <= k < |init|
        ensures Uncontested(init, norm, geo, k)
      {
        assert Uncontested(es, norm, geo, k);
        assert init[..k] == es[..k];
      }
      UncontestedAgrees(init, norm, geo);
      if Valid(e) {
        UncontestedTarget(es, norm, geo);
      }
      SameTargetSameStep(Bucketed(init, norm, geo), e, norm, geo);
    }
  }

  ghost predicate AtMostOne(kept: seq<GymValue>, n: string, lat: real, lon: real, geo: Geometry) {
    forall i, j :: 0 <= i < j < |kept| ==>
      !(Mergeable(kept[i], n, lat, lon, geo) && Mergeable(kept[j], n, lat, lon, geo))
  }

  // When its turn comes, element k is in range of at most one kept gym of its name.
  ghost predicate Uncontested(es: seq<Element>, norm: string -> string, geo: Geometry, k: nat)
    requires k < |es|
  {
    Valid(es[k]) ==>
      var at := Location(es[k]).value;
      AtMostOne(Bucketed(es[..k], norm, geo), norm(NameOf(es[k])), at.0, at.1, geo)
  }

  lemma OnlyCandidate(kept: seq<GymValue>, n: string, lat: real, lon: real, geo: Geometry)
    requires AtMostOne(kept, n, lat, lon, geo)
    requires FindNearby(kept, n, lat, lon, geo).Some? <==> FindAnywhere(kept, n, lat, lon, geo).Some?
    ensures FindNearby(kept, n, lat, lon, geo) == FindAnywhere(kept, n, lat, lon, geo)
  {
    FindNearbyIsExact(kept, n, lat, lon, geo);
    FindAnywhereIsExact(kept, n, lat, lon, geo);
  }

  lemma UncontestedTarget(es: seq<Element>, norm: string -> string, geo: Geometry)
    requires es != [] && Valid(es[|es| - 1]) && RangeImpliesAdjacent(es, geo) && Uncontested(es, norm, geo, |es| - 1)
    ensures SameTarget(Bucketed(es[..|es| - 1], norm, geo), es[|es| - 1], norm, geo)
  {
    var init, e := es[..|es| - 1], es[|es| - 1];
    var kept, at, n := Bucketed(init, norm, geo), Location(e).value, norm(NameOf(e));
    LastIsAdjacent(es, geo);
    BucketedStandsOn(init, norm, geo);
    SearchesAgree(kept, kept, init, e, norm, geo);
    OnlyCandidate(kept, n, at.0, at.1, geo);
  }

  lemma LastIsAdjacent(es: seq<Element>, geo: Geometry)
    requires es != [] && Valid(es[|es| - 1]) && RangeImpliesAdjacent(es, geo)
    ensures AdjacentToAll(es[|es| - 1], es[..|es| - 1], geo)
  {
    var init, e := es[..|es| - 1], es[|es| - 1];
    forall k | 0 <= k < |init| && Valid(init[k])
      ensures PairAdjacent(e, init[k], geo)
    {
      assert es[k] == init[k] && es[|init|] == e;
    }
  }

  /******* An instance *******/

  // Elements on a line, at their longitude; distances and projections as on paper.
  const LINE := Geometry(
    (lat1: real, lon1: real, lat2: real, lon2: real) => if lon1 < lon2 then lon2 - lon1 else lon1 - lon2,
    (lat: real, lon: real) => Point(lon, 0.0))

  lemma LineFits()
    ensures GeometryFits(LINE)
  {
    forall lat, lon, lat', lon' | LINE.dist(lat, lon, lat', lon') <= MERGE_DISTANCE
      ensures Adjacent(KeyAt(LINE, lat, lon), KeyAt(LINE, lat', lon'))
    {
      CloseProjectionsAreAdjacent(Point(lon, 0.0), Point(lon', 0.0));
    }
  }

  lemma LineKeys()
    ensures KeyAt(LINE, 0.0, 60.0) == Key(1, 0) && KeyAt(LINE, 0.0, 5.0) == Key(0, 0)
            && KeyAt(LINE, 0.0, 30.0) == Key(0, 0)
  {
    assert (60.0 / BUCKET_SIZE).Floor == 1 && (5.0 / BUCKET_SIZE).Floor == 0 && (30.0 / BUCKET_SIZE).Floor == 0;
  }

  /** On a line the hypothesis of the refinement holds and that of equal credits does not: a
      duplicate at 30 metres goes to the gym at 60 kept first, or to the one at 5 searched first. */
  lemma LineIsAmbiguous()
    ensures GeometryFits(LINE) && !Unambiguous(LINE)
  {
    LineFits();
    LineKeys();
    LineRanks();
    assert !PrefersFirst(LINE, (0.0, 60.0), (0.0, 5.0), (0.0, 30.0));
  }

  lemma LineRanks()
    ensures Rank(NeighborKeys(Key(0, 0)), Key(0, 0)) < Rank(NeighborKeys(Key(0, 0)), Key(1, 0))
  {
    var keys := NeighborKeys(Key(0, 0));
    RankAtLeast(keys, Key(1, 0), 5);
    RankAtMost(keys, Key(0, 0), 4);
  }

  lemma {:induction false} RankAtMost(keys: seq<Key>, key: Key, n: nat)
    requires n < |keys| && keys[n] == key
    ensures Rank(keys, key) <= n
  {
    if n > 0 {
      RankAtMost(keys[1..], key, n - 1);
    }
  }

  lemma {:induction false} RankAtLeast(keys: seq<Key>, key: Key, n: nat)
    requires n <= |keys| && forall i :: 0 <= i < n ==> keys[i] != key
    ensures n <= Rank(keys, key)
  {
    if n > 0 {
      RankAtLeast(keys[1..], key, n - 1);
    }
  }
}
