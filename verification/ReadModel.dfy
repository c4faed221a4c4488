/** The published catalog as a table: how a dataset's gyms become rows, and how the store's
    queries on those rows compare with a plain scan of the dataset.

    A SQL statement is a function of the table. The order in which a SELECT without ORDER BY
    delivers rows is not promised, so it is an input (`scan`). Haversine distance is an
    arbitrary function `dist`, and the two box half-widths are arbitrary reals. */
module ReadModel {
  import opened Wrappers
  import opened Sorting
  import G = Gyms

  /******* Gyms as the dataset stores them *******/

  datatype Inferred = Inferred(
    tier: Option<string>,
    specialty: Option<string>,
    lifterFriendly: Option<bool>,
    is247: Option<bool>)

  const NOTHING_INFERRED := Inferred(None, None, None, None)

  // `inferred` and `inference` are the two member names under which results may be stored.
  datatype GymDoc = GymDoc(
    id: Option<string>,
    confidence: Option<real>,
    inferred: Option<Inferred>,
    inference: Option<Inferred>,
    lat: Option<real>,
    lon: Option<real>,
    rest: string)

  // A dataset file: unusable JSON, or a list of gyms.
  datatype Payload = Malformed | Results(gyms: seq<GymDoc>)

  datatype Row = Row(
    id: string,
    payload: GymDoc,
    confidence: real,
    tier: Option<string>,
    specialty: Option<string>,
    lifterFriendly: Option<bool>,
    is247: Option<bool>,
    lat: Option<real>,
    lon: Option<real>)

  predicate Indexable(g: GymDoc) { g.id.Some? && g.id.value != "" }

  function InferredOf(g: GymDoc): Inferred {
    if g.inferred.Some? then g.inferred.value else g.inference.GetOr(NOTHING_INFERRED)
  }

  function RowOf(g: GymDoc): Row
    requires Indexable(g)
  {
    var i := InferredOf(g);
    Row(g.id.value, g, g.confidence.GetOr(0.0), i.tier, i.specialty, i.lifterFriendly, i.is247, g.lat, g.lon)
  }

  // Gyms without a usable id are skipped.
  function RowsOf(gyms: seq<GymDoc>): seq<Row> {
    if gyms == [] then []
    else if Indexable(gyms[0]) then [RowOf(gyms[0])] + RowsOf(gyms[1..])
    else RowsOf(gyms[1..])
  }

  lemma {:induction false} RowsOfAppend(gyms: seq<GymDoc>, g: GymDoc)
    ensures RowsOf(gyms + [g]) == RowsOf(gyms) + if Indexable(g) then [RowOf(g)] else []
  {
    if gyms == [] {
      assert gyms + [g] == [g] && [g][1..] == [];
    } else {
      assert (gyms + [g])[1..] == gyms[1..] + [g];
      RowsOfAppend(gyms[1..], g);
    }
  }

  // The loop that collects the rows to insert.
  method ExtractRows(gyms: seq<GymDoc>) returns (rows: seq<Row>)
    ensures rows == RowsOf(gyms)
  {
    rows := [];
    for n := 0 to |gyms|
      invariant rows == RowsOf(gyms[..n])
    {
      RowsOfAppend(gyms[..n], gyms[n]);
      assert gyms[..n + 1] == gyms[..n] + [gyms[n]];
      if gyms[n].id.None? || gyms[n].id.value == "" { continue; }
      rows := rows + [RowOf(gyms[n])];
    }
    assert gyms[..|gyms|] == gyms;
  }

  ghost predicate DistinctIds(rows: seq<Row>) {
    forall i, j :: 0 <= i < j < |rows| ==> rows[i].id != rows[j].id
  }

  /******* Filters *******/

  datatype Filters = Filters(
    minConf: Option<real>,
    tier: Option<string>,
    specialty: Option<string>,
    lifterFriendly: Option<bool>,
    is247: Option<bool>)

  // A NULL column compares equal to nothing.
  predicate ColumnIs<T(==)>(wanted: Option<T>, column: Option<T>) {
    wanted.None? || column == wanted
  }

  predicate RowMatches(r: Row, f: Filters) {
    && (f.minConf.None? || f.minConf.value <= r.confidence)
    && ColumnIs(f.tier, r.tier)
    && ColumnIs(f.specialty, r.specialty)
    && ColumnIs(f.lifterFriendly, r.lifterFriendly)
    && ColumnIs(f.is247, r.is247)
  }

  // The plain scan looks under `inferred` only.
  predicate NaiveMatches(g: GymDoc, f: Filters) {
    var i := g.inferred.GetOr(NOTHING_INFERRED);
    if f.minConf.Some? && g.confidence.GetOr(0.0) < f.minConf.value then false
    else if f.tier.Some? && i.tier != f.tier then false
    else if f.specialty.Some? && i.specialty != f.specialty then false
    else if f.lifterFriendly.Some? && i.lifterFriendly != f.lifterFriendly then false
    else if f.is247.Some? && i.is247 != f.is247 then false
    else true
  }

  // What a gym must look like for the two kinds of filter to read the same values from it.
  predicate ReadsAlike(g: GymDoc) {
    g.inferred.Some? || g.inference.GetOr(NOTHING_INFERRED) == NOTHING_INFERRED
  }

  function TierFilter(t: Option<string>): Filters { Filters(None, t, None, None, None) }
  function SpecialtyFilter(t: Option<string>): Filters { Filters(None, None, t, None, None) }
  function LifterFilter(t: Option<bool>): Filters { Filters(None, None, None, t, None) }
  function HoursFilter(t: Option<bool>): Filters { Filters(None, None, None, None, t) }

  /** The index and the scan select a gym alike under every filter exactly when its results are
      stored under `inferred`, or are not stored at all. */
  lemma MatchesAgreeIff(g: GymDoc)
    requires Indexable(g)
    ensures (forall f :: RowMatches(RowOf(g), f) <==> NaiveMatches(g, f)) <==> ReadsAlike(g)
  {
    if !ReadsAlike(g) {
      var i := g.inference.value;
      var f := if i.tier.Some? then TierFilter(i.tier)
               else if i.specialty.Some? then SpecialtyFilter(i.specialty)
               else if i.lifterFriendly.Some? then LifterFilter(i.lifterFriendly)
               else HoursFilter(i.is247);
      assert RowMatches(RowOf(g), f) && !NaiveMatches(g, f);
    }
  }

  /******* filter: ORDER BY confidence_score DESC, id LIMIT ? OFFSET ? *******/

  predicate RowLe(a: Row, b: Row) {
    b.confidence < a.confidence || (a.confidence == b.confidence && TextLe(a.id, b.id))
  }

  function Keep(rows: seq<Row>, f: Filters): seq<Row> {
    if rows == [] then []
    else if RowMatches(rows[0], f) then [rows[0]] + Keep(rows[1..], f)
    else Keep(rows[1..], f)
  }

  function Payloads(rows: seq<Row>): seq<GymDoc> {
    if rows == [] then [] else [rows[0].payload] + Payloads(rows[1..])
  }

  function Ranked(scan: seq<Row>, f: Filters): seq<Row> { Sort(RowLe, Keep(scan, f)) }

  function FilterPage(scan: seq<Row>, f: Filters, limit: nat, offset: nat): seq<GymDoc> {
    Payloads(Page(Ranked(scan, f), offset, limit))
  }

  lemma RowLeIsTotalPreorder()
    ensures TotalPreorder(RowLe)
  {
    forall x, y
      ensures RowLe(x, y) || RowLe(y, x)
    {
      TextLeTotal(x.id, y.id);
    }
    forall x, y, z | RowLe(x, y) && RowLe(y, z)
      ensures RowLe(x, z)
    {
      if x.confidence == y.confidence == z.confidence {
        TextLeTransitive(x.id, y.id, z.id);
      }
    }
  }

  lemma {:induction false} KeepSelects(rows: seq<Row>, f: Filters)
    ensures forall r :: r in multiset(Keep(rows, f)) ==> r in multiset(rows) && RowMatches(r, f)
  {
    if rows != [] {
      KeepSelects(rows[1..], f);
      assert rows == [rows[0]] + rows[1..];
    }
  }

  lemma {:induction false} KeepCounts(rows: seq<Row>, f: Filters, r: Row)
    ensures multiset(Keep(rows, f))[r] == if RowMatches(r, f) then multiset(rows)[r] else 0
  {
    if rows != [] {
      KeepCounts(rows[1..], f, r);
      assert rows == [rows[0]] + rows[1..];
    }
  }

  lemma KeepPermutes(a: seq<Row>, b: seq<Row>, f: Filters)
    requires multiset(a) == multiset(b)
    ensures multiset(Keep(a, f)) == multiset(Keep(b, f))
  {
    forall r
      ensures multiset(Keep(a, f))[r] == multiset(Keep(b, f))[r]
    {
      KeepCounts(a, f, r);
      KeepCounts(b, f, r);
    }
  }

  lemma RowLeTiesOnlyEqual(rows: seq<Row>, x: Row, y: Row)
    requires DistinctIds(rows)
    requires x in multiset(rows) && y in multiset(rows) && RowLe(x, y) && RowLe(y, x)
    ensures x == y
  {
    TextLeAntisymmetric(x.id, y.id);
    var i :| 0 <= i < |rows| && rows[i] == x;
    var j :| 0 <= j < |rows| && rows[j] == y;
  }

  /** Pages do not depend on the order in which SQLite happens to visit the table. */
  lemma RankingIgnoresScanOrder(a: seq<Row>, b: seq<Row>, f: Filters)
    requires DistinctIds(a)
    requires multiset(a) == multiset(b)
    ensures Ranked(a, f) == Ranked(b, f)
  {
    RowLeIsTotalPreorder();
    KeepPermutes(a, b, f);
    KeepSelects(a, f);
    forall x, y | x in multiset(Keep(a, f)) && y in multiset(Keep(a, f)) && RowLe(x, y) && RowLe(y, x)
      ensures x == y
    {
      RowLeTiesOnlyEqual(a, x, y);
    }
    SortIgnoresOrder(RowLe, Keep(a, f), Keep(b, f));
  }

  lemma {:induction false} KeepDistinct(rows: seq<Row>, f: Filters)
    requires DistinctIds(rows)
    ensures DistinctIds(Keep(rows, f))
  {
    if rows != [] {
      KeepDistinct(rows[1..], f);
      KeepSelects(rows[1..], f);
      var rest := Keep(rows[1..], f);
      forall j | 0 <= j < |rest|
        ensures rest[j].id != rows[0].id
      {
        assert rest[j] in multiset(rest);
        assert rest[j] in multiset(rows[1..]);
        var k :| 0 <= k < |rows[1..]| && rows[1..][k] == rest[j];
      }
    }
  }

  /** The ranking holds exactly the matching rows, each once, in one strict order: the higher
      confidence first, and among equals the id that comes first in the dictionary. */
  lemma RankedIsStrict(scan: seq<Row>, f: Filters, i: nat, j: nat)
    requires DistinctIds(scan)
    requires i < j < |Ranked(scan, f)|
    ensures var a, b := Ranked(scan, f)[i], Ranked(scan, f)[j];
            a.confidence > b.confidence || (a.confidence == b.confidence && Precedes(a.id, b.id))
    ensures multiset(Ranked(scan, f)) == multiset(Keep(scan, f))
  {
    var kept := Keep(scan, f);
    RowLeIsTotalPreorder();
    SortSorts(RowLe, kept);
    SortKeeps(RowLe, kept);
    KeepDistinct(scan, f);
    DistinctSurvivesPermutation(kept, Sort(RowLe, kept));
    TextLeMeans(Ranked(scan, f)[i].id, Ranked(scan, f)[j].id);
  }

  lemma DistinctSurvivesPermutation(a: seq<Row>, b: seq<Row>)
    requires DistinctIds(a)
    requires multiset(a) == multiset(b)
    ensures DistinctIds(b)
  {
    forall i, j | 0 <= i < j < |b|
      ensures b[i].id != b[j].id
    {
      if b[i].id == b[j].id {
        assert b[i] in multiset(a) && b[j] in multiset(a);
        var k :| 0 <= k < |a| && a[k] == b[i];
        var l :| 0 <= l < |a| && a[l] == b[j];
        assert b[i] == b[j];
        TwiceInSplit(b, i, j);
        OnceIfDistinct(a, b[i]);
      }
    }
  }

  lemma TwiceInSplit(s: seq<Row>, i: nat, j: nat)
    requires i < j < |s| && s[i] == s[j]
    ensures multiset(s)[s[i]] >= 2
  {
    assert s == s[..i] + [s[i]] + s[i + 1..j] + [s[j]] + s[j + 1..];
  }

  lemma {:induction false} OnceIfDistinct(s: seq<Row>, r: Row)
    requires DistinctIds(s)
    ensures multiset(s)[r] <= 1
  {
    if s != [] {
      OnceIfDistinct(s[1..], r);
      assert s == [s[0]] + s[1..];
      if r == s[0] {
        assert forall k :: 0 <= k < |s[1..]| ==> s[1..][k] != r;
      }
    }
  }

  /** Walking the pages with any page size yields every matching gym once, in rank order. */
  lemma FilterPagesPartition(scan: seq<Row>, f: Filters, limit: nat)
    requires 1 <= limit
    ensures Concat(PagesFrom(Ranked(scan, f), 0, limit)) == Ranked(scan, f)
    ensures multiset(Concat(PagesFrom(Ranked(scan, f), 0, limit))) == multiset(Keep(scan, f))
  {
    PagesPartition(Ranked(scan, f), 0, limit);
    SortKeeps(RowLe, Keep(scan, f));
  }

  /******* list_gyms_v2: probe one row past the page *******/

  function ListGyms(scan: seq<Row>, f: Filters, limit: nat, offset: nat): (seq<GymDoc>, bool) {
    var gyms := FilterPage(scan, f, limit + 1, offset);
    (if limit < |gyms| then gyms[..limit] else gyms, limit < |gyms|)
  }

  lemma {:induction false} PayloadsLength(rows: seq<Row>)
    ensures |Payloads(rows)| == |rows|
    ensures forall i :: 0 <= i < |rows| ==> Payloads(rows)[i] == rows[i].payload
  {
    if rows != [] {
      PayloadsLength(rows[1..]);
    }
  }

  // Some matching row is not among the first n of the ranking.
  ghost predicate SomeMatchBeyond(scan: seq<Row>, f: Filters, n: nat) {
    exists r :: r in multiset(Keep(scan, f)) && r !in multiset(Page(Ranked(scan, f), 0, n))
  }

  lemma NoMatchBeyondTheEnd(scan: seq<Row>, f: Filters, n: nat)
    requires |Ranked(scan, f)| <= n
    ensures !SomeMatchBeyond(scan, f, n)
  {
    SortKeeps(RowLe, Keep(scan, f));
    assert Page(Ranked(scan, f), 0, n) == Ranked(scan, f);
  }

  /** The page returned is the requested page, and `has_more` is true exactly when some matching
      row is on neither this page nor an earlier one. */
  lemma HasMoreIsExact(scan: seq<Row>, f: Filters, limit: nat, offset: nat)
    requires DistinctIds(scan)
    ensures var (page, hasMore) := ListGyms(scan, f, limit, offset);
            && page == FilterPage(scan, f, limit, offset)
            && (hasMore <==> SomeMatchBeyond(scan, f, offset + limit))
  {
    var ranked := Ranked(scan, f);
    ProbeIsPagePlusOne(ranked, limit, offset);
    if offset + limit < |ranked| {
      LaterRowExists(scan, f, offset + limit);
    } else {
      NoMatchBeyondTheEnd(scan, f, offset + limit);
    }
  }

  lemma ProbeIsPagePlusOne(ranked: seq<Row>, limit: nat, offset: nat)
    ensures var probe, page := Payloads(Page(ranked, offset, limit + 1)), Payloads(Page(ranked, offset, limit));
            && (limit < |probe| <==> offset + limit < |ranked|)
            && page == if limit < |probe| then probe[..limit] else probe
  {
    PayloadsLength(Page(ranked, offset, limit + 1));
    PayloadsLength(Page(ranked, offset, limit));
  }

  lemma LaterRowExists(scan: seq<Row>, f: Filters, n: nat)
    requires DistinctIds(scan)
    requires n < |Ranked(scan, f)|
    ensures SomeMatchBeyond(scan, f, n)
  {
    var ranked := Ranked(scan, f);
    var r := ranked[n];
    SortKeeps(RowLe, Keep(scan, f));
    assert r in multiset(ranked);
    if r in multiset(ranked[..n]) {
      var i :| 0 <= i < n && ranked[..n][i] == r;
      RankedIsStrict(scan, f, i, n);
    }
    assert Page(ranked, 0, n) == ranked[..n];
  }

  /******* filter against the plain scan *******/

  function NaiveKeep(gyms: seq<GymDoc>, f: Filters): seq<GymDoc> {
    if gyms == [] then []
    else if NaiveMatches(gyms[0], f) then [gyms[0]] + NaiveKeep(gyms[1..], f)
    else NaiveKeep(gyms[1..], f)
  }

  // The plain scan keeps dataset order; it does not rank.
  function NaiveFilterPage(gyms: seq<GymDoc>, f: Filters, limit: nat, offset: nat): seq<GymDoc> {
    Page(NaiveKeep(gyms, f), offset, limit)
  }

  ghost predicate Published(gyms: seq<GymDoc>) {
    forall i :: 0 <= i < |gyms| ==> Indexable(gyms[i]) && ReadsAlike(gyms[i])
  }

  lemma {:induction false} KeepIsNaiveKeep(gyms: seq<GymDoc>, f: Filters)
    requires Published(gyms)
    ensures Payloads(Keep(RowsOf(gyms), f)) == NaiveKeep(gyms, f)
    ensures forall r :: r in multiset(Keep(RowsOf(gyms), f)) ==> Indexable(r.payload) && r == RowOf(r.payload)
  {
    if gyms != [] {
      var g, rest := gyms[0], RowsOf(gyms[1..]);
      KeepIsNaiveKeep(gyms[1..], f);
      MatchesAgreeIff(g);
      assert ([RowOf(g)] + rest)[1..] == rest;
      var kept := Keep(rest, f);
      assert ([RowOf(g)] + kept)[1..] == kept;
    }
  }

  lemma {:induction false} PayloadsOfInsert(r: Row, rows: seq<Row>)
    ensures multiset(Payloads(Insert(RowLe, r, rows))) == multiset{r.payload} + multiset(Payloads(rows))
  {
    if rows != [] && !RowLe(r, rows[0]) {
      PayloadsOfInsert(r, rows[1..]);
      var rest := Insert(RowLe, r, rows[1..]);
      assert ([rows[0]] + rest)[1..] == rest;
    } else {
      assert ([r] + rows)[1..] == rows;
    }
  }

  lemma {:induction false} PayloadsOfSort(rows: seq<Row>)
    ensures multiset(Payloads(Sort(RowLe, rows))) == multiset(Payloads(rows))
  {
    if rows != [] {
      PayloadsOfSort(rows[1..]);
      PayloadsOfInsert(rows[0], Sort(RowLe, rows[1..]));
    }
  }

  lemma SamePayloadsSameRows(a: seq<Row>, b: seq<Row>)
    requires Payloads(a) == Payloads(b)
    requires forall r :: r in multiset(a) || r in multiset(b) ==> Indexable(r.payload) && r == RowOf(r.payload)
    ensures a == b
  {
    PayloadsLength(a);
    PayloadsLength(b);
    forall i | 0 <= i < |a|
      ensures a[i] == b[i]
    {
      assert a[i] in multiset(a) && b[i] in multiset(b);
    }
  }

  lemma PayloadsOfPage(rows: seq<Row>, offset: nat, limit: nat)
    ensures Payloads(Page(rows, offset, limit)) == Page(Payloads(rows), offset, limit)
  {
    PayloadsLength(rows);
    PayloadsLength(Page(rows, offset, limit));
  }

  ghost predicate PagesAgree(gyms: seq<GymDoc>, f: Filters) {
    forall limit: nat, offset: nat ::
      FilterPage(RowsOf(gyms), f, limit, offset) == NaiveFilterPage(gyms, f, limit, offset)
  }

  /** Index and plain scan select the same gyms; page by page they agree exactly when the
      dataset already lists the matching gyms in rank order. */
  lemma FilterAgainstNaive(gyms: seq<GymDoc>, f: Filters)
    requires Published(gyms)
    ensures multiset(Payloads(Ranked(RowsOf(gyms), f))) == multiset(NaiveKeep(gyms, f))
    ensures PagesAgree(gyms, f) <==> SortedBy(RowLe, Keep(RowsOf(gyms), f))
  {
    var kept := Keep(RowsOf(gyms), f);
    var ranked := Ranked(RowsOf(gyms), f);
    KeepIsNaiveKeep(gyms, f);
    PayloadsOfSort(kept);
    SortKeeps(RowLe, kept);
    RowLeIsTotalPreorder();
    SortSorts(RowLe, kept);
    if SortedBy(RowLe, kept) {
      SortOfSorted(RowLe, kept);
      forall limit: nat, offset: nat
        ensures FilterPage(RowsOf(gyms), f, limit, offset) == NaiveFilterPage(gyms, f, limit, offset)
      {
        PayloadsOfPage(kept, offset, limit);
      }
    }
    if PagesAgree(gyms, f) {
      PayloadsLength(ranked);
      PayloadsLength(kept);
      assert Page(ranked, 0, |ranked|) == ranked;
      assert FilterPage(RowsOf(gyms), f, |ranked|, 0) == NaiveFilterPage(gyms, f, |ranked|, 0);
      assert Payloads(ranked) == NaiveKeep(gyms, f);
      SamePayloadsSameRows(ranked, kept);
    }
  }

  /******* get_by_id *******/

  function GetById(rows: seq<Row>, id: string): Option<GymDoc> {
    if rows == [] then None
    else if rows[0].id == id then Some(rows[0].payload)
    else GetById(rows[1..], id)
  }

  lemma {:induction false} GetByIdHit(gyms: seq<GymDoc>, i: nat)
    requires DistinctIds(RowsOf(gyms))
    requires i < |gyms| && Indexable(gyms[i])
    ensures GetById(RowsOf(gyms), gyms[i].id.value) == Some(gyms[i])
    ensures exists j :: 0 <= j < |RowsOf(gyms)| && RowsOf(gyms)[j] == RowOf(gyms[i])
  {
    var rest := RowsOf(gyms[1..]);
    if Indexable(gyms[0]) {
      assert RowsOf(gyms)[0] == RowOf(gyms[0]) && RowsOf(gyms)[1..] == rest;
    }
    if i > 0 {
      GetByIdHit(gyms[1..], i - 1);
      var j :| 0 <= j < |rest| && rest[j] == RowOf(gyms[i]);
      assert RowsOf(gyms)[if Indexable(gyms[0]) then j + 1 else j] == RowOf(gyms[i]);
    }
  }

  lemma {:induction false} GetByIdSound(gyms: seq<GymDoc>, id: string) returns (i: nat)
    requires GetById(RowsOf(gyms), id).Some?
    ensures i < |gyms| && Indexable(gyms[i]) && gyms[i].id == Some(id)
    ensures GetById(RowsOf(gyms), id) == Some(gyms[i])
  {
    if Indexable(gyms[0]) {
      var rest := RowsOf(gyms[1..]);
      assert RowsOf(gyms)[0] == RowOf(gyms[0]) && RowsOf(gyms)[1..] == rest;
      if gyms[0].id == Some(id) {
        return 0;
      }
    }
    i := GetByIdSound(gyms[1..], id);
    i := i + 1;
  }

  /** With distinct ids, a lookup returns a gym exactly when the dataset stores that gym under
      that non-empty id. */
  lemma GetByIdIsExact(gyms: seq<GymDoc>, id: string, g: GymDoc)
    requires DistinctIds(RowsOf(gyms))
    ensures GetById(RowsOf(gyms), id) == Some(g) <==> g in gyms && g.id == Some(id) && id != ""
  {
    if GetById(RowsOf(gyms), id).Some? {
      var i := GetByIdSound(gyms, id);
    }
    if g in gyms && g.id == Some(id) && id != "" {
      var i :| 0 <= i < |gyms| && gyms[i] == g;
      GetByIdHit(gyms, i);
    }
  }

  /******* nearby *******/

  type Distance = G.Distance

  // `latDelta` and `lonDelta` are the half-widths the source derives from the radius.
  datatype NearbyQuery = NearbyQuery(lat: real, lon: real, radius: real,
                                     latDelta: real, lonDelta: real, filters: Filters)

  datatype Candidate = Candidate(distance: real, gym: GymDoc)

  predicate InBox(r: Row, q: NearbyQuery) {
    && r.lat.Some? && r.lon.Some?
    && q.lat - q.latDelta <= r.lat.value <= q.lat + q.latDelta
    && q.lon - q.lonDelta <= r.lon.value <= q.lon + q.lonDelta
  }

  predicate Selected(r: Row, q: NearbyQuery) { RowMatches(r, q.filters) && InBox(r, q) }

  function SelectInBox(scan: seq<Row>, q: NearbyQuery): (rows: seq<Row>)
    ensures forall i :: 0 <= i < |rows| ==> rows[i].lat.Some? && rows[i].lon.Some?
  {
    if scan == [] then []
    else if Selected(scan[0], q) then [scan[0]] + SelectInBox(scan[1..], q)
    else SelectInBox(scan[1..], q)
  }

  // What one row adds to a nearby query's answer: nothing unless it passes the filters, lies in
  // the box and is within the radius.
  function CandidateOf(q: NearbyQuery, dist: Distance): Row -> seq<Candidate> {
    (r: Row) =>
      if Selected(r, q) && dist(q.lat, q.lon, r.lat.value, r.lon.value) <= q.radius
      then [Candidate(dist(q.lat, q.lon, r.lat.value, r.lon.value), r.payload)]
      else []
  }

  function Candidates(scan: seq<Row>, q: NearbyQuery, dist: Distance): seq<Candidate> {
    Collect(CandidateOf(q, dist), scan)
  }

  predicate Nearer(a: Candidate, b: Candidate) { a.distance <= b.distance }

  function Gyms(cs: seq<Candidate>): (gyms: seq<GymDoc>)
    ensures |gyms| == |cs| && forall i :: 0 <= i < |cs| ==> gyms[i] == cs[i].gym
  {
    seq(|cs|, i requires 0 <= i < |cs| => cs[i].gym)
  }

  // heapq.nsmallest: the stable sort by distance, cut off.
  function NSmallest(n: nat, cs: seq<Candidate>): (r: seq<Candidate>)
    ensures |r| <= n && r <= Sort(Nearer, cs)
  {
    var sorted := Sort(Nearer, cs);
    if n < |sorted| then sorted[..n] else sorted
  }

  // The requested page only needs the first offset + limit of the sorted candidates.
  lemma PageOfNearest(cs: seq<Candidate>, offset: nat, limit: nat)
    ensures Gyms(Page(NSmallest(limit + offset, cs), offset, limit)) == Page(Gyms(Sort(Nearer, cs)), offset, limit)
  {
    var sorted := Sort(Nearer, cs);
    assert Page(NSmallest(limit + offset, cs), offset, limit) == Page(sorted, offset, limit);
    assert Gyms(Page(sorted, offset, limit)) == Page(Gyms(sorted), offset, limit);
  }

  method Nearby(scan: seq<Row>, q: NearbyQuery, dist: Distance, limit: nat, offset: nat) returns (page: seq<GymDoc>)
    ensures page == Page(Gyms(Sort(Nearer, Candidates(scan, q, dist))), offset, limit)
  {
    var rows := SelectInBox(scan, q);
    var candidateCount := limit + offset;
    if candidateCount == 0 {
      return [];
    }
    var candidates := Measure(rows, q, dist);
    WithinRadiusOfSelection(scan, q, dist);
    var nearest := NSmallest(candidateCount, candidates);
    page := Gyms(Page(nearest, offset, limit));
    PageOfNearest(candidates, offset, limit);
  }

  // The loop that measures the selected rows and keeps those within the radius.
  method Measure(rows: seq<Row>, q: NearbyQuery, dist: Distance) returns (candidates: seq<Candidate>)
    requires forall i :: 0 <= i < |rows| ==> rows[i].lat.Some? && rows[i].lon.Some?
    ensures candidates == WithinRadius(rows, q, dist)
  {
    candidates := [];
    for i := 0 to |rows|
      invariant candidates == WithinRadius(rows[..i], q, dist)
    {
      var distance := dist(q.lat, q.lon, rows[i].lat.value, rows[i].lon.value);
      WithinRadiusAppend(rows[..i], rows[i], q, dist);
      assert rows[..i + 1] == rows[..i] + [rows[i]];
      if distance <= q.radius {
        candidates := candidates + [Candidate(distance, rows[i].payload)];
      }
    }
    assert rows[..|rows|] == rows;
  }

  function WithinRadius(rows: seq<Row>, q: NearbyQuery, dist: Distance): seq<Candidate>
    requires forall i :: 0 <= i < |rows| ==> rows[i].lat.Some? && rows[i].lon.Some?
  {
    if rows == [] then []
    else
      var distance := dist(q.lat, q.lon, rows[0].lat.value, rows[0].lon.value);
      if distance <= q.radius then [Candidate(distance, rows[0].payload)] + WithinRadius(rows[1..], q, dist)
      else WithinRadius(rows[1..], q, dist)
  }

  lemma {:induction false} WithinRadiusAppend(rows: seq<Row>, r: Row, q: NearbyQuery, dist: Distance)
    requires forall i :: 0 <= i < |rows| ==> rows[i].lat.Some? && rows[i].lon.Some?
    requires r.lat.Some? && r.lon.Some?
    ensures var distance := dist(q.lat, q.lon, r.lat.value, r.lon.value);
            WithinRadius(rows + [r], q, dist)
            == WithinRadius(rows, q, dist) + if distance <= q.radius then [Candidate(distance, r.payload)] else []
  {
    if rows == [] {
      assert rows + [r] == [r];
    } else {
      assert (rows + [r])[1..] == rows[1..] + [r];
      WithinRadiusAppend(rows[1..], r, q, dist);
    }
  }

  lemma {:induction false} WithinRadiusOfSelection(scan: seq<Row>, q: NearbyQuery, dist: Distance)
    ensures WithinRadius(SelectInBox(scan, q), q, dist) == Candidates(scan, q, dist)
  {
    if scan != [] {
      WithinRadiusOfSelection(scan[1..], q, dist);
      var rest := SelectInBox(scan[1..], q);
      assert ([scan[0]] + rest)[1..] == rest;
    }
  }

  /******* nearby against the plain scan *******/

  predicate Located(g: GymDoc) { g.lat.Some? && g.lon.Some? }

  // The plain scan reads both coordinates of every gym.
  ghost predicate AllLocated(gyms: seq<GymDoc>) {
    forall i :: 0 <= i < |gyms| ==> Located(gyms[i])
  }

  function DistanceTo(g: GymDoc, q: NearbyQuery, dist: Distance): real
    requires Located(g)
  {
    dist(q.lat, q.lon, g.lat.value, g.lon.value)
  }

  // The plain scan sorts everything in range and returns it unpaged.
  function NaiveCandidates(gyms: seq<GymDoc>, q: NearbyQuery, dist: Distance): seq<Candidate>
    requires AllLocated(gyms)
  {
    if gyms == [] then []
    else
      var g := gyms[0];
      assert Located(g);
      var distance := DistanceTo(g, q, dist);
      var rest := NaiveCandidates(gyms[1..], q, dist);
      if NaiveMatches(g, q.filters) && distance <= q.radius then [Candidate(distance, g)] + rest else rest
  }

  lemma {:induction false} NaiveAppend(gyms: seq<GymDoc>, g: GymDoc, q: NearbyQuery, dist: Distance)
    requires AllLocated(gyms) && Located(g)
    ensures AllLocated(gyms + [g])
    ensures NaiveCandidates(gyms + [g], q, dist)
            == NaiveCandidates(gyms, q, dist)
               + if NaiveMatches(g, q.filters) && DistanceTo(g, q, dist) <= q.radius
                 then [Candidate(DistanceTo(g, q, dist), g)] else []
  {
    if gyms == [] {
      assert gyms + [g] == [g] && [g][1..] == [];
    } else {
      assert (gyms + [g])[1..] == gyms[1..] + [g];
      NaiveAppend(gyms[1..], g, q, dist);
    }
  }

  /** The plain scan: append what is in range, then sort in place by distance. */
  method NaiveNearby(gyms: seq<GymDoc>, q: NearbyQuery, dist: Distance) returns (found: seq<GymDoc>)
    requires AllLocated(gyms)
    ensures found == Gyms(Sort(Nearer, NaiveCandidates(gyms, q, dist)))
  {
    var candidates: seq<Candidate> := [];
    for n := 0 to |gyms|
      invariant candidates == NaiveCandidates(gyms[..n], q, dist)
    {
      var g := gyms[n];
      assert Located(g) && AllLocated(gyms[..n]);
      NaiveAppend(gyms[..n], g, q, dist);
      assert gyms[..n + 1] == gyms[..n] + [g];
      if !NaiveMatches(g, q.filters) { continue; }
      var distance := DistanceTo(g, q, dist);
      if distance <= q.radius {
        candidates := candidates + [Candidate(distance, g)];
      }
    }
    assert gyms[..|gyms|] == gyms;
    found := Gyms(Sort(Nearer, candidates));
  }

  predicate InRange(g: GymDoc, q: NearbyQuery, dist: Distance) {
    Located(g) && NaiveMatches(g, q.filters) && DistanceTo(g, q, dist) <= q.radius
  }

  /** The geometric hypothesis: every matching gym in range is inside the box. */
  ghost predicate BoxCoversDisc(gyms: seq<GymDoc>, q: NearbyQuery, dist: Distance)
    requires AllLocated(gyms)
  {
    forall i :: 0 <= i < |gyms| && Indexable(gyms[i]) && InRange(gyms[i], q, dist) ==> InBox(RowOf(gyms[i]), q)
  }

  lemma {:induction false} CandidatesAreNaive(gyms: seq<GymDoc>, q: NearbyQuery, dist: Distance)
    requires Published(gyms) && AllLocated(gyms)
    ensures |Candidates(RowsOf(gyms), q, dist)| <= |NaiveCandidates(gyms, q, dist)|
    ensures BoxCoversDisc(gyms, q, dist) ==> Candidates(RowsOf(gyms), q, dist) == NaiveCandidates(gyms, q, dist)
    ensures |Candidates(RowsOf(gyms), q, dist)| == |NaiveCandidates(gyms, q, dist)| ==> BoxCoversDisc(gyms, q, dist)
  {
    if gyms != [] {
      var g, rest := gyms[0], RowsOf(gyms[1..]);
      assert forall i :: 0 <= i < |gyms[1..]| ==> gyms[1..][i] == gyms[i + 1];
      CandidatesAreNaive(gyms[1..], q, dist);
      MatchesAgreeIff(g);
      assert RowsOf(gyms) == [RowOf(g)] + rest && ([RowOf(g)] + rest)[1..] == rest;
      assert Located(g) && Indexable(g);
    }
  }

  lemma NearerIsTotalPreorder()
    ensures TotalPreorder(Nearer)
  {
  }

  ghost predicate NoTies(cs: seq<Candidate>) {
    forall x, y :: x in multiset(cs) && y in multiset(cs) && x.distance == y.distance ==> x == y
  }

  /** `nearby` is the requested page of the plain scan's list: exactly so when rows come back in
      dataset order, and in whatever order they come back when no two candidates tie. */
  lemma NearbyIsNaivePage(gyms: seq<GymDoc>, scan: seq<Row>, q: NearbyQuery, dist: Distance, limit: nat, offset: nat)
    requires Published(gyms)
    requires AllLocated(gyms)
    requires BoxCoversDisc(gyms, q, dist)
    requires scan == RowsOf(gyms)
             || (multiset(scan) == multiset(RowsOf(gyms)) && NoTies(NaiveCandidates(gyms, q, dist)))
    ensures Page(Gyms(Sort(Nearer, Candidates(scan, q, dist))), offset, limit)
            == Page(Gyms(Sort(Nearer, NaiveCandidates(gyms, q, dist))), offset, limit)
  {
    CandidatesAreNaive(gyms, q, dist);
    if scan != RowsOf(gyms) {
      CollectPermutes(CandidateOf(q, dist), RowsOf(gyms), scan);
      SortIgnoresOrder(Nearer, NaiveCandidates(gyms, q, dist), Candidates(scan, q, dist));
    }
  }

  function DistanceOf(): Candidate -> seq<real> { (c: Candidate) => [c.distance] }

  function Distances(cs: seq<Candidate>): seq<real> { Collect(DistanceOf(), cs) }

  /** Whatever the scan order, ties included: the gyms found and the distances, position by
      position, are those of the plain scan. */
  lemma NearbyDistancesAnyScan(gyms: seq<GymDoc>, scan: seq<Row>, q: NearbyQuery, dist: Distance)
    requires Published(gyms)
    requires AllLocated(gyms)
    requires BoxCoversDisc(gyms, q, dist)
    requires multiset(scan) == multiset(RowsOf(gyms))
    ensures var found, naive := Sort(Nearer, Candidates(scan, q, dist)), Sort(Nearer, NaiveCandidates(gyms, q, dist));
            && multiset(found) == multiset(naive)
            && Distances(found) == Distances(naive)
  {
    var found, naive := Candidates(scan, q, dist), NaiveCandidates(gyms, q, dist);
    CandidatesAreNaive(gyms, q, dist);
    CollectPermutes(CandidateOf(q, dist), RowsOf(gyms), scan);
    SortKeeps(Nearer, found);
    SortKeeps(Nearer, naive);
    SortSorts(Nearer, found);
    SortSorts(Nearer, naive);
    SortedDistances(Sort(Nearer, found), Sort(Nearer, naive));
  }

  lemma SortedDistances(a: seq<Candidate>, b: seq<Candidate>)
    requires SortedBy(Nearer, a) && SortedBy(Nearer, b)
    requires multiset(a) == multiset(b)
    ensures Distances(a) == Distances(b)
  {
    CollectPermutes(DistanceOf(), a, b);
    DistancesSorted(a);
    DistancesSorted(b);
    SortedIsUnique((x: real, y: real) => x <= y, Distances(a), Distances(b));
  }

  lemma {:induction false} DistancesSorted(cs: seq<Candidate>)
    requires SortedBy(Nearer, cs)
    ensures SortedBy((x: real, y: real) => x <= y, Distances(cs))
    ensures |Distances(cs)| == |cs| && forall i :: 0 <= i < |cs| ==> Distances(cs)[i] == cs[i].distance
  {
    if cs != [] {
      DistancesSorted(cs[1..]);
    }
  }

  /******* list_gyms_v2 with a place: the same probe on the distance order *******/

  function NearbyList(scan: seq<Row>, q: NearbyQuery, dist: Distance): seq<GymDoc> {
    Gyms(Sort(Nearer, Candidates(scan, q, dist)))
  }

  function ListNearby(scan: seq<Row>, q: NearbyQuery, dist: Distance, limit: nat, offset: nat): (seq<GymDoc>, bool) {
    var gyms := Page(NearbyList(scan, q, dist), offset, limit + 1);
    (if limit < |gyms| then gyms[..limit] else gyms, limit < |gyms|)
  }

  // The first n of the list are not every gym in range.
  ghost predicate MoreInRange(scan: seq<Row>, q: NearbyQuery, dist: Distance, n: nat) {
    multiset(Page(NearbyList(scan, q, dist), 0, n)) != multiset(Gyms(Candidates(scan, q, dist)))
  }

  /** The page returned is the requested page, and `has_more` is true exactly when this page and
      the earlier ones do not hold every gym in range. */
  lemma NearbyHasMoreIsExact(scan: seq<Row>, q: NearbyQuery, dist: Distance, limit: nat, offset: nat)
    ensures var (page, hasMore) := ListNearby(scan, q, dist, limit, offset);
            && page == Page(NearbyList(scan, q, dist), offset, limit)
            && (hasMore <==> MoreInRange(scan, q, dist, offset + limit))
  {
    var found := Candidates(scan, q, dist);
    SortKeeps(Nearer, found);
    GymsPermute(Sort(Nearer, found), found);
    HeadIsAll(NearbyList(scan, q, dist), offset + limit);
    ProbePage(NearbyList(scan, q, dist), offset, limit);
  }

  lemma HeadIsAll<T>(list: seq<T>, n: nat)
    ensures multiset(Page(list, 0, n)) != multiset(list) <==> n < |list|
  {
    var head := Page(list, 0, n);
    if |list| <= n {
      assert head == list;
    } else {
      assert |multiset(head)| == n && |multiset(list)| == |list|;
    }
  }

  lemma ProbePage<T>(list: seq<T>, offset: nat, limit: nat)
    ensures var probe := Page(list, offset, limit + 1);
            && (limit < |probe| <==> offset + limit < |list|)
            && Page(list, offset, limit) == if limit < |probe| then probe[..limit] else probe
  {
  }

  lemma GymsPermute(a: seq<Candidate>, b: seq<Candidate>)
    requires multiset(a) == multiset(b)
    ensures multiset(Gyms(a)) == multiset(Gyms(b))
  {
    var gym := (c: Candidate) => [c.gym];
    CollectPermutes(gym, a, b);
    GymsCollected(a);
    GymsCollected(b);
  }

  lemma {:induction false} GymsCollected(cs: seq<Candidate>)
    ensures Gyms(cs) == Collect((c: Candidate) => [c.gym], cs)
  {
    if cs == [] {
    } else {
      GymsCollected(cs[1..]);
      assert Gyms(cs) == [cs[0].gym] + Gyms(cs[1..]);
    }
  }

  ghost predicate NearbyPagesAgree(gyms: seq<GymDoc>, scan: seq<Row>, q: NearbyQuery, dist: Distance)
    requires AllLocated(gyms)
  {
    forall limit: nat, offset: nat :: NearbyPageAgrees(gyms, scan, q, dist, limit, offset)
  }

  ghost predicate NearbyPageAgrees(gyms: seq<GymDoc>, scan: seq<Row>, q: NearbyQuery, dist: Distance, limit: nat,
                                   offset: nat)
    requires AllLocated(gyms)
  {
    Page(Gyms(Sort(Nearer, Candidates(scan, q, dist))), offset, limit)
    == Page(Gyms(Sort(Nearer, NaiveCandidates(gyms, q, dist))), offset, limit)
  }

  // Rows in dataset order, or in any order if no two gyms in range are at one distance.
  ghost predicate OrderDoesNotMatter(gyms: seq<GymDoc>, scan: seq<Row>, q: NearbyQuery, dist: Distance)
    requires AllLocated(gyms)
  {
    scan == RowsOf(gyms) || NoTies(NaiveCandidates(gyms, q, dist))
  }

  lemma ScanFindsAsMany(gyms: seq<GymDoc>, scan: seq<Row>, q: NearbyQuery, dist: Distance)
    requires multiset(scan) == multiset(RowsOf(gyms))
    ensures |Candidates(scan, q, dist)| == |Candidates(RowsOf(gyms), q, dist)|
  {
    CollectPermutes(CandidateOf(q, dist), RowsOf(gyms), scan);
    var a, b := Candidates(scan, q, dist), Candidates(RowsOf(gyms), q, dist);
    assert |multiset(a)| == |a| && |multiset(b)| == |b|;
  }

  /** In whatever order the rows come back, index and plain scan find the same distances exactly
      when the box leaves out no matching gym that is in range; and where order does not matter
      that is also when they agree on every page. */
  lemma NearbyAgreesIffBoxCovers(gyms: seq<GymDoc>, scan: seq<Row>, q: NearbyQuery, dist: Distance)
    requires Published(gyms) && AllLocated(gyms)
    requires multiset(scan) == multiset(RowsOf(gyms))
    ensures Distances(Sort(Nearer, Candidates(scan, q, dist)))
            == Distances(Sort(Nearer, NaiveCandidates(gyms, q, dist)))
            <==> BoxCoversDisc(gyms, q, dist)
    ensures OrderDoesNotMatter(gyms, scan, q, dist) ==>
              (NearbyPagesAgree(gyms, scan, q, dist) <==> BoxCoversDisc(gyms, q, dist))
  {
    CandidatesAreNaive(gyms, q, dist);
    ScanFindsAsMany(gyms, scan, q, dist);
    if BoxCoversDisc(gyms, q, dist) {
      NearbyDistancesAnyScan(gyms, scan, q, dist);
      if OrderDoesNotMatter(gyms, scan, q, dist) {
        forall limit: nat, offset: nat
          ensures NearbyPageAgrees(gyms, scan, q, dist, limit, offset)
        {
          NearbyIsNaivePage(gyms, scan, q, dist, limit, offset);
        }
      }
    } else {
      FewerDiffer(gyms, scan, q, dist);
    }
  }

  // Fewer candidates than the plain scan's mean other distances and another page.
  lemma FewerDiffer(gyms: seq<GymDoc>, scan: seq<Row>, q: NearbyQuery, dist: Distance)
    requires AllLocated(gyms)
    requires |Candidates(scan, q, dist)| < |NaiveCandidates(gyms, q, dist)|
    ensures Distances(Sort(Nearer, Candidates(scan, q, dist)))
            != Distances(Sort(Nearer, NaiveCandidates(gyms, q, dist)))
    ensures !NearbyPagesAgree(gyms, scan, q, dist)
  {
    var found, naive := Candidates(scan, q, dist), NaiveCandidates(gyms, q, dist);
    SortKeeps(Nearer, found);
    SortKeeps(Nearer, naive);
    DistancesLength(Sort(Nearer, found));
    DistancesLength(Sort(Nearer, naive));
    var a, b := Gyms(Sort(Nearer, found)), Gyms(Sort(Nearer, naive));
    assert |Page(a, 0, |naive|)| == |found| && |Page(b, 0, |naive|)| == |naive|;
    assert !NearbyPageAgrees(gyms, scan, q, dist, |naive|, 0);
  }

  lemma {:induction false} DistancesLength(cs: seq<Candidate>)
    ensures |Distances(cs)| == |cs|
  {
    if cs != [] {
      DistancesLength(cs[1..]);
    }
  }
}
