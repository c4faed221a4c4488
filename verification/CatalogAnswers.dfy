/** What the catalog's two listings contain, and in what order, read from the dataset's records:
    filters, distances and the box on the raw fields. */
module CatalogAnswers {
  import opened Wrappers
  import opened ReadModel
  import opened Sorting
  import G = Gyms

  /******* Which gyms are listed *******/

  // The value a record stores under `inferred`, or else under `inference`.
  function Stored<T>(g: GymDoc, field: Inferred -> Option<T>): Option<T> {
    if g.inferred.Some? then field(g.inferred.value)
    else if g.inference.Some? then field(g.inference.value)
    else None
  }

  // A filter that is not set admits everything; one that is set admits its own value.
  predicate Fits<T(==)>(wanted: Option<T>, stored: Option<T>) {
    wanted.Some? ==> stored.Some? && stored.value == wanted.value
  }

  predicate Admitted(g: GymDoc, f: Filters) {
    && (f.minConf.Some? ==> (if g.confidence.Some? then g.confidence.value else 0.0) >= f.minConf.value)
    && Fits(f.tier, Stored(g, (i: Inferred) => i.tier))
    && Fits(f.specialty, Stored(g, (i: Inferred) => i.specialty))
    && Fits(f.lifterFriendly, Stored(g, (i: Inferred) => i.lifterFriendly))
    && Fits(f.is247, Stored(g, (i: Inferred) => i.is247))
  }

  predicate HasId(g: GymDoc) { g.id.Some? && |g.id.value| > 0 }

  lemma RowMatchesMeans(g: GymDoc, f: Filters)
    requires HasId(g)
    ensures RowMatches(RowOf(g), f) <==> Admitted(g, f)
  {
  }

  lemma {:induction false} RowsAreGyms(gyms: seq<GymDoc>, r: Row)
    ensures r in RowsOf(gyms) <==> r.payload in gyms && HasId(r.payload) && r == RowOf(r.payload)
  {
    if gyms != [] {
      RowsAreGyms(gyms[1..], r);
      assert gyms == [gyms[0]] + gyms[1..];
    }
  }

  lemma {:induction false} PayloadOf(rows: seq<Row>, g: GymDoc)
    ensures g in Payloads(rows) <==> exists r :: r in rows && r.payload == g
  {
    PayloadsLength(rows);
    if g in Payloads(rows) {
      var i :| 0 <= i < |rows| && Payloads(rows)[i] == g;
      assert rows[i] in rows;
    }
    if exists r :: r in rows && r.payload == g {
      var r :| r in rows && r.payload == g;
      var i :| 0 <= i < |rows| && rows[i] == r;
      assert Payloads(rows)[i] == g;
    }
  }

  lemma KeptRow(rows: seq<Row>, f: Filters, r: Row)
    ensures r in Ranked(rows, f) <==> r in rows && RowMatches(r, f)
  {
    KeepCounts(rows, f, r);
    SortKeeps(RowLe, Keep(rows, f));
    assert r in Ranked(rows, f) <==> multiset(Ranked(rows, f))[r] > 0;
    assert r in rows <==> multiset(rows)[r] > 0;
  }

  /** A listing by filters holds a gym exactly when the dataset does, with an id, and every filter
      that is set finds its value. */
  lemma FilterFindsIff(gyms: seq<GymDoc>, f: Filters, g: GymDoc)
    ensures g in Payloads(Ranked(RowsOf(gyms), f)) <==> g in gyms && HasId(g) && Admitted(g, f)
  {
    PayloadOf(Ranked(RowsOf(gyms), f), g);
    if g in Payloads(Ranked(RowsOf(gyms), f)) {
      var r :| r in Ranked(RowsOf(gyms), f) && r.payload == g;
      KeptRow(RowsOf(gyms), f, r);
      RowsAreGyms(gyms, r);
      RowMatchesMeans(g, f);
    }
    if g in gyms && HasId(g) && Admitted(g, f) {
      KeptRow(RowsOf(gyms), f, RowOf(g));
      RowsAreGyms(gyms, RowOf(g));
      RowMatchesMeans(g, f);
    }
  }

  /******* Distance listings *******/

  // Located within the radius, and within the box on each axis.
  predicate Near(g: GymDoc, q: NearbyQuery, dist: G.Distance) {
    && g.lat.Some? && g.lon.Some?
    && -q.latDelta <= g.lat.value - q.lat <= q.latDelta
    && -q.lonDelta <= g.lon.value - q.lon <= q.lonDelta
    && dist(q.lat, q.lon, g.lat.value, g.lon.value) <= q.radius
  }

  function DistanceFrom(g: GymDoc, q: NearbyQuery, dist: G.Distance): real
    requires g.lat.Some? && g.lon.Some?
  {
    dist(q.lat, q.lon, g.lat.value, g.lon.value)
  }

  lemma RowCandidate(g: GymDoc, q: NearbyQuery, dist: G.Distance)
    requires HasId(g)
    ensures CandidateOf(q, dist)(RowOf(g))
            == if Admitted(g, q.filters) && Near(g, q, dist) then [Candidate(DistanceFrom(g, q, dist), g)] else []
  {
    RowMatchesMeans(g, q.filters);
    assert InBox(RowOf(g), q) && dist(q.lat, q.lon, g.lat.value, g.lon.value) <= q.radius <==> Near(g, q, dist);
  }

  // A candidate is a near gym with its distance.
  lemma {:induction false} CandidateMeans(gyms: seq<GymDoc>, q: NearbyQuery, dist: G.Distance, c: Candidate)
    ensures c in Candidates(RowsOf(gyms), q, dist)
            <==> c.gym in gyms && HasId(c.gym) && Admitted(c.gym, q.filters) && Near(c.gym, q, dist)
                 && c.distance == dist(q.lat, q.lon, c.gym.lat.value, c.gym.lon.value)
  {
    if gyms != [] {
      var g, rest := gyms[0], RowsOf(gyms[1..]);
      CandidateMeans(gyms[1..], q, dist, c);
      assert gyms == [g] + gyms[1..];
      if HasId(g) {
        assert ([RowOf(g)] + rest)[1..] == rest;
        RowCandidate(g, q, dist);
        assert Candidates(RowsOf(gyms), q, dist) == CandidateOf(q, dist)(RowOf(g)) + Candidates(rest, q, dist);
      }
    }
  }

  lemma CandidateSorted(cs: seq<Candidate>, c: Candidate)
    ensures c in Sort(Nearer, cs) <==> c in cs
  {
    SortKeeps(Nearer, cs);
    assert c in Sort(Nearer, cs) <==> multiset(Sort(Nearer, cs))[c] > 0;
    assert c in cs <==> multiset(cs)[c] > 0;
  }

  /** A listing around a point holds a gym exactly when the dataset does, with an id, every filter
      that is set finds its value, and the gym lies in the box and within the radius. */
  lemma NearbyFindsIff(gyms: seq<GymDoc>, q: NearbyQuery, dist: G.Distance, g: GymDoc)
    ensures g in NearbyList(RowsOf(gyms), q, dist)
            <==> g in gyms && HasId(g) && Admitted(g, q.filters) && Near(g, q, dist)
  {
    var cs := Candidates(RowsOf(gyms), q, dist);
    if g in NearbyList(RowsOf(gyms), q, dist) {
      var i :| 0 <= i < |NearbyList(RowsOf(gyms), q, dist)| && NearbyList(RowsOf(gyms), q, dist)[i] == g;
      CandidateSorted(cs, Sort(Nearer, cs)[i]);
      CandidateMeans(gyms, q, dist, Sort(Nearer, cs)[i]);
    }
    if g in gyms && HasId(g) && Admitted(g, q.filters) && Near(g, q, dist) {
      var c := Candidate(DistanceFrom(g, q, dist), g);
      CandidateMeans(gyms, q, dist, c);
      CandidateSorted(cs, c);
      var i :| 0 <= i < |Sort(Nearer, cs)| && Sort(Nearer, cs)[i] == c;
      assert NearbyList(RowsOf(gyms), q, dist)[i] == g;
    }
  }

  /** The listing goes from near to far. */
  lemma NearbyIsAscending(gyms: seq<GymDoc>, q: NearbyQuery, dist: G.Distance, i: nat, j: nat)
    requires i < j < |NearbyList(RowsOf(gyms), q, dist)|
    ensures var a, b := NearbyList(RowsOf(gyms), q, dist)[i], NearbyList(RowsOf(gyms), q, dist)[j];
            && a.lat.Some? && a.lon.Some? && b.lat.Some? && b.lon.Some?
            && dist(q.lat, q.lon, a.lat.value, a.lon.value) <= dist(q.lat, q.lon, b.lat.value, b.lon.value)
  {
    var cs := Candidates(RowsOf(gyms), q, dist);
    var sorted := Sort(Nearer, cs);
    NearerIsTotalPreorder();
    SortSorts(Nearer, cs);
    CandidateSorted(cs, sorted[i]);
    CandidateSorted(cs, sorted[j]);
    CandidateMeans(gyms, q, dist, sorted[i]);
    CandidateMeans(gyms, q, dist, sorted[j]);
  }
}
