/** Deduplication read from its inputs: which elements reach the dataset, what the gym made from
    one looks like, and which gym an element joins, on the elements' raw tags and coordinates. */
module DuplicateOrigins {
  import opened Wrappers
  import opened Gyms
  import opened Deduplication
  import DuplicateCredits

  // Tagged with a name that is not empty, and mapped as a node or with a centre.
  predicate Mapped(e: Element) {
    && "name" in e.tags && |e.tags["name"]| > 0
    && ((e.lat.Some? && e.lon.Some?) || (e.centerLat.Some? && e.centerLon.Some?))
  }

  // An element stands at its own coordinates when it has both, and at its centre otherwise.
  predicate StandsAt(e: Element, lat: real, lon: real) {
    || (e.lat == Some(lat) && e.lon == Some(lon))
    || ((e.lat.None? || e.lon.None?) && e.centerLat == Some(lat) && e.centerLon == Some(lon))
  }

  lemma MappedIsValid(e: Element)
    ensures Mapped(e) <==> Valid(e)
    ensures forall lat, lon :: StandsAt(e, lat, lon) <==> Location(e) == Some((lat, lon))
  {
  }

  /******* Which elements arrive *******/

  // The positions of the mapped elements with this reference.
  function Mentions(es: seq<Element>, r: Ref): set<nat> { set k | 0 <= k < |es| && Mapped(es[k]) && es[k].ref == r }

  lemma MentionsStep(es: seq<Element>, r: Ref)
    requires es != []
    ensures var init, e := es[..|es| - 1], es[|es| - 1];
            |Mentions(es, r)| == |Mentions(init, r)| + if Mapped(e) && e.ref == r then 1 else 0
  {
    var init, e := es[..|es| - 1], es[|es| - 1];
    assert Mentions(es, r) == Mentions(init, r) + if Mapped(e) && e.ref == r then {|init|} else {};
  }

  lemma {:induction false} ValidRefsCount(es: seq<Element>, r: Ref)
    ensures ValidRefs(es)[r] == |Mentions(es, r)|
    decreases |es|
  {
    if es != [] {
      ValidRefsCount(es[..|es| - 1], r);
      MentionsStep(es, r);
      MappedIsValid(es[|es| - 1]);
    }
  }

  /** All gyms together hold a reference as often as there are mapped elements with it: every way
      known by its centre arrives, and nothing without a name or a place does. */
  lemma MappedElementsArrive(es: seq<Element>, norm: string -> string, geo: Geometry, r: Ref)
    ensures RefBag(Bucketed(es, norm, geo))[r] == |Mentions(es, r)|
  {
    RefsBalance(es, norm, geo);
    ValidRefsCount(es, r);
  }

  /******* What a gym is made from *******/

  // Every field of a gym but its later references, from the element that started it.
  predicate MadeFrom(g: GymValue, e: Element, norm: string -> string) {
    && Mapped(e) && StandsAt(e, g.lat, g.lon)
    && g.name == e.tags["name"] && g.norm == norm(g.name) && g.tags == e.tags
    && g.refs != [] && g.refs[0] == e.ref
    && g.id == None && g.confidence == None
    && g.provenance == Provenance(Some("osm"), Some([]), Some("unconfirmed"), Some(ExternalRefs(None)))
  }

  lemma NewGymIsMade(e: Element, norm: string -> string)
    requires Valid(e)
    ensures MadeFrom(NewGym(e, norm), e, norm)
  {
    MappedIsValid(e);
  }

  lemma AddKeepsOrigin(kept: seq<GymValue>, e: Element, norm: string -> string, geo: Geometry, j: nat, origin: Element)
    requires j < |kept| && MadeFrom(kept[j], origin, norm)
    ensures j < |AddNearby(kept, e, norm, geo)| && MadeFrom(AddNearby(kept, e, norm, geo)[j], origin, norm)
  {
    AddGrows(kept, e, norm, geo);
    assert Shape(kept[j]) == Shape(AddNearby(kept, e, norm, geo)[j]);
    if Valid(e) {
      AddRefs(kept, e, norm, geo, j);
    }
  }

  /** Every gym has the name, tags and place of one element, and lists that element's reference
      first. */
  lemma {:induction false} EveryGymIsMade(es: seq<Element>, norm: string -> string, geo: Geometry, j: nat)
    returns (k: nat)
    requires j < |Bucketed(es, norm, geo)|
    ensures k < |es| && MadeFrom(Bucketed(es, norm, geo)[j], es[k], norm)
    decreases |es|
  {
    var init, e := es[..|es| - 1], es[|es| - 1];
    var kept := Bucketed(init, norm, geo);
    if j < |kept| {
      k := EveryGymIsMade(init, norm, geo, j);
      AddKeepsOrigin(kept, e, norm, geo, j, init[k]);
    } else {
      k := |init|;
      AddGrows(kept, e, norm, geo);
      NewGymIsMade(e, norm);
    }
  }

  /******* Which gym an element joins *******/

  lemma {:induction false} CreditIsListed(es: seq<Element>, norm: string -> string, geo: Geometry, k: nat, j: nat)
    requires k < |es| && CreditedTo(es, norm, geo, k) == Some(j)
    ensures es[k].ref in CreditedRefs(es, norm, geo, j)
    decreases |es|
  {
    var init := es[..|es| - 1];
    if k < |init| {
      assert init[..k] == es[..k];
      CreditIsListed(init, norm, geo, k, j);
    }
  }

  // Gym g has the element's name, and is within 50 metres of it or shares its very place and tags.
  predicate JoinedBy(g: GymValue, e: Element, norm: string -> string, geo: Geometry)
    requires "name" in e.tags
  {
    && g.norm == norm(e.tags["name"]) && e.ref in g.refs
    && ((StandsAt(e, g.lat, g.lon) && g.tags == e.tags) || InReach(g, e, geo))
  }

  predicate InReach(g: GymValue, e: Element, geo: Geometry) {
    if e.lat.Some? && e.lon.Some? then geo.dist(e.lat.value, e.lon.value, g.lat, g.lon) <= 50.0
    else
      e.centerLat.Some? && e.centerLon.Some?
      && geo.dist(e.centerLat.value, e.centerLon.value, g.lat, g.lon) <= 50.0
  }

  /** Every mapped element is listed by a gym of its name that is within 50 metres or was made from
      it. */
  lemma EveryElementJoins(es: seq<Element>, norm: string -> string, geo: Geometry, k: nat) returns (j: nat)
    requires k < |es| && Mapped(es[k])
    ensures j < |Bucketed(es, norm, geo)| && JoinedBy(Bucketed(es, norm, geo)[j], es[k], norm, geo)
  {
    MappedIsValid(es[k]);
    CreditIsRight(es, norm, geo, k);
    j := CreditedTo(es, norm, geo, k).value;
    RefsAreConserved(es, norm, geo, j);
    CreditIsListed(es, norm, geo, k, j);
    NewGymIsMade(es[k], norm);
  }

  /** Two gyms of one name in equal or neighbouring buckets are more than 50 metres apart. */
  lemma GymsAreApart(es: seq<Element>, norm: string -> string, geo: Geometry, i: nat, j: nat)
    requires i < j < |Bucketed(es, norm, geo)|
    ensures var g, h := Bucketed(es, norm, geo)[i], Bucketed(es, norm, geo)[j];
            var a, b := KeyAt(geo, g.lat, g.lon), KeyAt(geo, h.lat, h.lon);
            g.norm == h.norm && -1 <= a.x - b.x <= 1 && -1 <= a.y - b.y <= 1
            ==> geo.dist(h.lat, h.lon, g.lat, g.lon) > 50.0
  {
    KeptGymsAreSeparated(es, norm, geo);
    assert PairSeparated(Bucketed(es, norm, geo)[i], Bucketed(es, norm, geo)[j], geo);
  }

  /******* The buckets *******/

  /** A bucket is the half-open square of 50 metres that holds the projected point. */
  lemma BucketHoldsPoint(p: Point, k: Key)
    ensures BucketKey(p) == k
            <==> 50.0 * k.x as real <= p.x < 50.0 * (k.x + 1) as real
                 && 50.0 * k.y as real <= p.y < 50.0 * (k.y + 1) as real
  {
    FloorIsSquare(p.x, k.x);
    FloorIsSquare(p.y, k.y);
  }

  lemma FloorIsSquare(x: real, n: int)
    ensures (x / BUCKET_SIZE).Floor == n <==> 50.0 * n as real <= x < 50.0 * (n + 1) as real
  {
    var q := x / BUCKET_SIZE;
    assert q * 50.0 == x;
    assert q.Floor as real <= q < (q.Floor + 1) as real;
    if n as real <= q < (n + 1) as real {
      assert q.Floor == n;
    }
  }

  // Earlier in the search: the column further west, or the row further south in one column.
  predicate SearchedBefore(a: Key, b: Key) { a.x < b.x || (a.x == b.x && a.y < b.y) }

  lemma RankFollows(here: Key, a: Key, b: Key)
    requires Adjacent(here, a) && Adjacent(here, b)
    ensures var keys := NeighborKeys(here);
            DuplicateCredits.Rank(keys, a) < DuplicateCredits.Rank(keys, b) <==> SearchedBefore(a, b)
  {
    RankIs(here, a);
    RankIs(here, b);
  }

  lemma RankIs(here: Key, a: Key)
    requires Adjacent(here, a)
    ensures DuplicateCredits.Rank(NeighborKeys(here), a) == 3 * (a.x - here.x + 1) + (a.y - here.y + 1)
  {
    var keys, i := NeighborKeys(here), 3 * (a.x - here.x + 1) + (a.y - here.y + 1);
    assert keys[i] == a;
    KeysDiffer(here, i);
    RankInOrder(keys, i);
  }

  lemma KeysDiffer(here: Key, i: nat)
    requires i < 9
    ensures forall j :: 0 <= j < i ==> NeighborKeys(here)[j] != NeighborKeys(here)[i]
  {
  }

  lemma {:induction false} RankInOrder(keys: seq<Key>, i: nat)
    requires i < |keys| && forall j :: 0 <= j < i ==> keys[j] != keys[i]
    ensures DuplicateCredits.Rank(keys, keys[i]) == i
  {
    if i > 0 {
      RankInOrder(keys[1..], i - 1);
    }
  }

  // A gym that the element at this point could join: its name, within 50 metres, a neighbouring bucket.
  predicate Candidate(g: GymValue, n: string, lat: real, lon: real, geo: Geometry) {
    var a, b := KeyAt(geo, lat, lon), KeyAt(geo, g.lat, g.lon);
    g.norm == n && geo.dist(lat, lon, g.lat, g.lon) <= 50.0 && -1 <= a.x - b.x <= 1 && -1 <= a.y - b.y <= 1
  }

  /** Among the gyms an element can join, the loop takes the one in the westernmost column, there in
      the southernmost bucket, and within it the one kept first; it takes none only if there is
      none. */
  lemma JoinsTheFirst(kept: seq<GymValue>, n: string, lat: real, lon: real, geo: Geometry)
    ensures var r := FindNearby(kept, n, lat, lon, geo);
            if r.None? then forall i :: 0 <= i < |kept| ==> !Candidate(kept[i], n, lat, lon, geo)
            else
              && r.value < |kept| && Candidate(kept[r.value], n, lat, lon, geo)
              && forall i :: 0 <= i < |kept| && i != r.value && Candidate(kept[i], n, lat, lon, geo) ==>
                   var a, b := KeyAt(geo, kept[r.value].lat, kept[r.value].lon), KeyAt(geo, kept[i].lat, kept[i].lon);
                   SearchedBefore(a, b) || (a == b && r.value < i)
  {
    FindNearbyIsExact(kept, n, lat, lon, geo);
    var r := FindNearby(kept, n, lat, lon, geo);
    forall i | 0 <= i < |kept| && Candidate(kept[i], n, lat, lon, geo)
      ensures r.Some? && (i != r.value ==>
                var a, b := KeyAt(geo, kept[r.value].lat, kept[r.value].lon), KeyAt(geo, kept[i].lat, kept[i].lon);
                SearchedBefore(a, b) || (a == b && r.value < i))
    {
      DuplicateCredits.FindNearbyIsFirst(kept, n, lat, lon, geo, i);
      RankFollows(KeyAt(geo, lat, lon), KeyAt(geo, kept[r.value].lat, kept[r.value].lon),
                  KeyAt(geo, kept[i].lat, kept[i].lon));
    }
  }
}
