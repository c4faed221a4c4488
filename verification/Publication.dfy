/** From ingest to the index: the gyms that deduplication keeps get their ids from compute_gym_id
    and their provenance from the TomTom coverage step, and the dataset they are written to can
    always be indexed.

    `hash` stands for the shortened SHA-256 digest; it is asked only to be non-empty and not to
    collide on the texts of one dataset. */
module Publication {
  import opened Wrappers
  import Coverage
  import Deduplication
  import Features
  import Gyms
  import IndexProtocol
  import ReadModel
  import TextNormalization

  // normalize_name.
  function Normal(al: TextNormalization.Alphabet): string -> string {
    (name: string) => TextNormalization.Normalize(name, al)
  }

  function Kept(es: seq<Deduplication.Element>, al: TextNormalization.Alphabet, geo: Deduplication.Geometry)
    : seq<Gyms.GymValue>
  {
    Deduplication.Bucketed(es, Normal(al), geo)
  }

  lemma {:induction false} SplitField(field: string, rest: string)
    requires Deduplication.BarFree(field)
    ensures Features.Split(field + "|" + rest, '|') == [field] + Features.Split(rest, '|')
  {
    var whole := field + "|" + rest;
    if field == [] {
      assert whole[0] == '|' && whole[1..] == rest;
    } else {
      assert whole[0] == field[0] && whole[1..] == field[1..] + "|" + rest;
      SplitField(field[1..], rest);
      assert [field[0]] + field[1..] == field;
    }
  }

  lemma {:induction false} SplitLast(field: string)
    requires Deduplication.BarFree(field)
    ensures Features.Split(field, '|') == [field]
  {
    if field != [] {
      SplitLast(field[1..]);
      assert [field[0]] + field[1..] == field;
    }
  }

  /** The text hashed into an id reads back: cut at its bars it is the match key, the latitude and
      the longitude. */
  lemma PreimageReadsBack(g: Gyms.GymValue, fmt: real -> string)
    requires Deduplication.BarFree(g.norm) && Deduplication.WritesNoBar(fmt)
    ensures Features.Split(Deduplication.IdPreimage(g, fmt), '|') == [g.norm, fmt(g.lat), fmt(g.lon)]
  {
    var lat, lon := fmt(g.lat), fmt(g.lon);
    assert Deduplication.BarFree(lat) && Deduplication.BarFree(lon);
    assert Deduplication.IdPreimage(g, fmt) == g.norm + "|" + (lat + "|" + lon);
    SplitField(g.norm, lat + "|" + lon);
    SplitField(lat, lon);
    SplitLast(lon);
  }

  // compute_gym_id.
  function IdOf(g: Gyms.GymValue, fmt: real -> string, hash: string -> string): string {
    hash(Deduplication.IdPreimage(g, fmt))
  }

  // The dataset's record of a gym; the rest of it plays no part here.
  predicate Records(doc: ReadModel.GymDoc, g: Gyms.GymValue, fmt: real -> string, hash: string -> string) {
    doc.id == Some(IdOf(g, fmt, hash))
  }

  ghost predicate IsDataset(docs: seq<ReadModel.GymDoc>, kept: seq<Gyms.GymValue>, fmt: real -> string,
                            hash: string -> string) {
    |docs| == |kept| && forall i :: 0 <= i < |docs| ==> Records(docs[i], kept[i], fmt, hash)
  }

  ghost predicate NoCollision(kept: seq<Gyms.GymValue>, fmt: real -> string, hash: string -> string) {
    forall i, j :: 0 <= i < j < |kept|
                   && IdOf(kept[i], fmt, hash) == IdOf(kept[j], fmt, hash)
      ==> Deduplication.IdPreimage(kept[i], fmt) == Deduplication.IdPreimage(kept[j], fmt)
  }

  ghost predicate NeverEmpty(hash: string -> string) { forall text :: hash(text) != "" }

  // What this module asks of the rounding of coordinates and of the digest on one dataset.
  ghost predicate IdsFit(kept: seq<Gyms.GymValue>, fmt: real -> string, hash: string -> string,
                         geo: Deduplication.Geometry) {
    && Deduplication.WritesNoBar(fmt) && Deduplication.RoundingIsFine(kept, fmt, geo)
    && NeverEmpty(hash) && NoCollision(kept, fmt, hash)
  }

  ghost predicate DistinctDocs(docs: seq<ReadModel.GymDoc>) {
    forall i, j :: 0 <= i < j < |docs| ==> docs[i].id != docs[j].id
  }

  lemma {:induction false} RowsComeFrom(docs: seq<ReadModel.GymDoc>, i: nat)
    requires i < |ReadModel.RowsOf(docs)|
    ensures exists k :: 0 <= k < |docs| && docs[k].id == Some(ReadModel.RowsOf(docs)[i].id)
  {
    var first := ReadModel.Indexable(docs[0]);
    if first && i == 0 {
      assert docs[0].id == Some(ReadModel.RowsOf(docs)[0].id);
    } else {
      var rest := docs[1..];
      RowsComeFrom(rest, if first then i - 1 else i);
      var k :| 0 <= k < |rest| && rest[k].id == Some(ReadModel.RowsOf(rest)[if first then i - 1 else i].id);
      assert docs[k + 1].id == rest[k].id;
    }
  }

  lemma {:induction false} DistinctRows(docs: seq<ReadModel.GymDoc>)
    requires DistinctDocs(docs)
    ensures ReadModel.DistinctIds(ReadModel.RowsOf(docs))
  {
    if docs != [] {
      var rest := docs[1..];
      DistinctRows(rest);
      var rows, later := ReadModel.RowsOf(docs), ReadModel.RowsOf(rest);
      if ReadModel.Indexable(docs[0]) {
        assert rows == [ReadModel.RowOf(docs[0])] + later;
        forall j | 0 <= j < |later|
          ensures later[j].id != docs[0].id.value
        {
          RowsComeFrom(rest, j);
        }
      }
    }
  }

  lemma {:induction false} EveryDocHasARow(docs: seq<ReadModel.GymDoc>)
    requires forall i :: 0 <= i < |docs| ==> ReadModel.Indexable(docs[i])
    ensures |ReadModel.RowsOf(docs)| == |docs|
  {
    if docs != [] {
      EveryDocHasARow(docs[1..]);
    }
  }

  // Kept gyms get distinct ids.
  lemma KeptIdsAreDistinct(es: seq<Deduplication.Element>, al: TextNormalization.Alphabet, fmt: real -> string,
                           hash: string -> string, geo: Deduplication.Geometry, i: nat, j: nat)
    requires TextNormalization.Sound(al) && IdsFit(Kept(es, al, geo), fmt, hash, geo)
    requires i < j < |Kept(es, al, geo)|
    ensures var kept := Kept(es, al, geo);
            IdOf(kept[i], fmt, hash) != IdOf(kept[j], fmt, hash)
  {
    TextNormalization.IngestPreimagesAreDistinct(es, al, fmt, geo, i, j);
  }

  /** The rows of an ingested dataset have distinct ids, as the primary key of the index demands,
      and there is one for every gym: for every input, when coordinates written alike are in range
      and in adjacent buckets and the digest is never empty and does not collide on this dataset. */
  lemma IngestedRowsAreDistinct(es: seq<Deduplication.Element>, al: TextNormalization.Alphabet, fmt: real -> string,
                                hash: string -> string, geo: Deduplication.Geometry, docs: seq<ReadModel.GymDoc>)
    requires TextNormalization.Sound(al) && IdsFit(Kept(es, al, geo), fmt, hash, geo)
    requires IsDataset(docs, Kept(es, al, geo), fmt, hash)
    ensures ReadModel.DistinctIds(ReadModel.RowsOf(docs)) && |ReadModel.RowsOf(docs)| == |docs|
  {
    var kept := Kept(es, al, geo);
    forall i, j | 0 <= i < j < |docs|
      ensures docs[i].id != docs[j].id
    {
      KeptIdsAreDistinct(es, al, fmt, hash, geo, i, j);
      assert Records(docs[i], kept[i], fmt, hash) && Records(docs[j], kept[j], fmt, hash);
    }
    DistinctRows(docs);
    forall i | 0 <= i < |docs|
      ensures ReadModel.Indexable(docs[i])
    {
      assert Records(docs[i], kept[i], fmt, hash);
    }
    EveryDocHasARow(docs);
  }

  /** So a materialiser that finds an ingested dataset current and runs undisturbed publishes every
      gym of it. */
  lemma IngestedDatasetIsPublished(s: IndexProtocol.State, t: IndexProtocol.Tid, c: IndexProtocol.Config,
                                   es: seq<Deduplication.Element>, al: TextNormalization.Alphabet, fmt: real -> string,
                                   hash: string -> string, geo: Deduplication.Geometry, docs: seq<ReadModel.GymDoc>)
    requires TextNormalization.Sound(al) && IdsFit(Kept(es, al, geo), fmt, hash, geo)
    requires IsDataset(docs, Kept(es, al, geo), fmt, hash)
    requires IndexProtocol.ThreadOf(s, t).pc.ReadDataset?
    requires s.history != [] && s.history[|s.history| - 1].content == ReadModel.Results(docs)
    ensures IndexProtocol.Acts(s, t, |docs| + 3, c).index
            == s.index[IndexProtocol.ThreadOf(s, t).pc.seen := ReadModel.RowsOf(docs)]
    ensures |ReadModel.RowsOf(docs)| == |docs|
  {
    IngestedRowsAreDistinct(es, al, fmt, hash, geo, docs);
    IndexProtocol.QuietBuildPublishes(s, t, c);
  }

  /******* Ids and coverage *******/

  // The objects of a deduplicated dataset after their ids are set, whatever their provenance.
  ghost predicate Identified(gyms: seq<Gyms.Gym>, kept: seq<Gyms.GymValue>, fmt: real -> string,
                             hash: string -> string)
    reads gyms
  {
    && |gyms| == |kept| && Gyms.Distinct(gyms)
    && forall i :: 0 <= i < |gyms| ==>
         gyms[i].View() == kept[i].(id := Some(IdOf(kept[i], fmt, hash)), provenance := gyms[i].provenance)
  }

  method AssignIds(gyms: seq<Gyms.Gym>, fmt: real -> string, hash: string -> string)
    requires Gyms.Distinct(gyms)
    modifies Gyms.Objects(gyms)`id
    ensures forall i :: 0 <= i < |gyms| ==>
              gyms[i].View() == old(gyms[i].View()).(id := Some(IdOf(old(gyms[i].View()), fmt, hash)))
  {
    for n := 0 to |gyms|
      invariant forall i :: 0 <= i < n ==>
                  gyms[i].View() == old(gyms[i].View()).(id := Some(IdOf(old(gyms[i].View()), fmt, hash)))
      invariant forall i :: n <= i < |gyms| ==> gyms[i].View() == old(gyms[i].View())
    {
      gyms[n].id := Some(IdOf(gyms[n].View(), fmt, hash));
    }
  }

  // How the TomTom step ends; `Refused` is the error of a required validation without a key.
  datatype Validation = Skipped | Refused | Applied(ms: seq<Coverage.Match>, summary: Coverage.Summary)

  /** run_ingest up to the scores: deduplicates, sets the ids and compares the gyms with every
      place. `places` is what TomTom returns, absent when no key is configured. */
  method DeduplicateAndCompare(es: seq<Deduplication.Element>, places: Option<seq<Coverage.Place>>, required: bool,
                               al: TextNormalization.Alphabet, fmt: real -> string, hash: string -> string,
                               geo: Deduplication.Geometry)
    returns (gyms: seq<Gyms.Gym>, v: Validation)
    ensures fresh(Gyms.Objects(gyms)) && Identified(gyms, Kept(es, al, geo), fmt, hash)
    ensures v.Refused? <==> gyms != [] && places.None? && required
    ensures v.Applied? <==> gyms != [] && places.Some?
    ensures v.Applied? ==>
              && v.ms == Coverage.Compared(places.value, Coverage.Sites(gyms), geo.dist, Normal(al))
              && v.summary == Coverage.SummarizeMatches(v.ms)
              && forall g :: g in gyms ==> g.provenance == Coverage.Expected(gyms, Coverage.Sites(gyms), v.ms, g)
    ensures !v.Applied? ==> forall i :: 0 <= i < |gyms| ==> gyms[i].provenance == Kept(es, al, geo)[i].provenance
  {
    gyms := Deduplication.Deduplicate(es, Normal(al), geo);
    AssignIds(gyms, fmt, hash);
    if gyms == [] {
      v := Skipped;
    } else if places.None? {
      v := if required then Refused else Skipped;
    } else {
      var ms, summary := Coverage.ApplyTomTomCoverage(gyms, places.value, geo.dist, Normal(al));
      v := Applied(ms, summary);
    }
  }

  // What the coverage step's results rest on holds of every deduplicated dataset.
  lemma IngestedSitesFit(es: seq<Deduplication.Element>, al: TextNormalization.Alphabet, fmt: real -> string,
                         hash: string -> string, geo: Deduplication.Geometry, gyms: seq<Gyms.Gym>)
    requires TextNormalization.Sound(al) && IdsFit(Kept(es, al, geo), fmt, hash, geo)
    requires Identified(gyms, Kept(es, al, geo), fmt, hash)
    ensures Coverage.WellNamed(Coverage.Sites(gyms), Normal(al)) && Coverage.DistinctIds(Coverage.Sites(gyms))
  {
    var kept, sites := Kept(es, al, geo), Coverage.Sites(gyms);
    Deduplication.BucketedNames(es, Normal(al), geo);
    forall i | 0 <= i < |sites|
      ensures sites[i].norm == Normal(al)(sites[i].name) && sites[i].id == Some(IdOf(kept[i], fmt, hash))
    {
      assert sites[i] == Coverage.SiteOf(gyms[i]);
    }
    forall i, j | 0 <= i < j < |sites|
      ensures sites[i].id != sites[j].id
    {
      KeptIdsAreDistinct(es, al, fmt, hash, geo, i, j);
    }
  }

  // The provenance that coverage leaves gym i with is that of the place that wins it.
  ghost predicate EndsWithWinner(gyms: seq<Gyms.Gym>, places: seq<Coverage.Place>, dist: Gyms.Distance,
                                 normalize: string -> string, i: nat)
    requires i < |gyms|
    reads gyms
  {
    var sites := Coverage.Sites(gyms);
    Coverage.IsOutcome(places, sites, dist, normalize, i,
                       Coverage.Expected(gyms, sites, Coverage.Compared(places, sites, dist, normalize), gyms[i]))
  }

  lemma WinnerIsKept(gyms: seq<Gyms.Gym>, places: seq<Coverage.Place>, dist: Gyms.Distance, normalize: string -> string,
                     i: nat)
    requires Coverage.WellNamed(Coverage.Sites(gyms), normalize) && Coverage.DistinctIds(Coverage.Sites(gyms))
    requires i < |gyms|
    ensures EndsWithWinner(gyms, places, dist, normalize, i)
  {
    var sites := Coverage.Sites(gyms);
    assert sites[i] == Coverage.SiteOf(gyms[i]);
    Coverage.OwnerOfDistinct(sites, i);
    Coverage.GymOutcome(places, sites, dist, normalize, i);
  }

  /** The coverage of an ingested dataset: each place is matched, mismatched or missing by what
      lies within 250 metres of it, and every gym ends with the provenance of the place that wins
      it, or of an unconfirmed gym. */
  lemma IngestedCoverage(es: seq<Deduplication.Element>, places: seq<Coverage.Place>, al: TextNormalization.Alphabet,
                         fmt: real -> string, hash: string -> string, geo: Deduplication.Geometry,
                         gyms: seq<Gyms.Gym>)
    requires TextNormalization.Sound(al) && IdsFit(Kept(es, al, geo), fmt, hash, geo)
    requires Identified(gyms, Kept(es, al, geo), fmt, hash)
    ensures var sites := Coverage.Sites(gyms);
            var ms := Coverage.Compared(places, sites, geo.dist, Normal(al));
            && (forall k :: 0 <= k < |places| ==> Coverage.StatusFits(places[k], sites, geo.dist, Normal(al), ms[k]))
            && forall i :: 0 <= i < |gyms| ==> EndsWithWinner(gyms, places, geo.dist, Normal(al), i)
  {
    var sites := Coverage.Sites(gyms);
    var ms := Coverage.Compared(places, sites, geo.dist, Normal(al));
    IngestedSitesFit(es, al, fmt, hash, geo, gyms);
    forall k | 0 <= k < |places|
      ensures Coverage.StatusFits(places[k], sites, geo.dist, Normal(al), ms[k])
    {
      Coverage.ComparedAt(places, sites, geo.dist, Normal(al), k);
      Coverage.StatusIsExact(places[k], sites, geo.dist, Normal(al));
    }
    forall i | 0 <= i < |gyms|
      ensures EndsWithWinner(gyms, places, geo.dist, Normal(al), i)
    {
      WinnerIsKept(gyms, places, geo.dist, Normal(al), i);
    }
  }
}
