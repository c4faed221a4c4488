/** The gym record that ingest, confirmation, scoring and the live-search sessions share: a
    mutable object, and the value it holds at one moment.

    Tag values are strings, as OpenStreetMap's are. Scores are hundredths. */
module Gyms {
  import opened Wrappers

  type Tags = map<string, string>

  datatype Ref = Ref(kind: string, id: string)

  // haversine_meters(lat1, lon1, lat2, lon2); any function of the four coordinates.
  type Distance = (real, real, real, real) -> real

  // The text functions strip and lower, and the search of the 00:00 - 24:00 expression in
  // lower-cased opening hours; all are arbitrary.
  datatype Text = Text(strip: string -> string, lower: string -> string, hoursPattern: string -> bool)

  datatype TomTomRef = TomTomRef(
    externalId: string,
    name: string,
    distance: Option<real>,
    city: Option<string>,
    url: Option<string>,
    status: Option<string>)

  datatype ExternalRefs = ExternalRefs(tomtom: Option<TomTomRef>)

  const NO_REFS := ExternalRefs(None)

  // A provenance dictionary; `None` is an absent key, and an empty dictionary has none at all.
  datatype Provenance = Provenance(
    primary: Option<string>,
    confirmedBy: Option<seq<string>>,
    matchStatus: Option<string>,
    externalRefs: Option<ExternalRefs>)

  const DEFAULT_PROVENANCE := Provenance(Some("osm"), Some([]), Some("unconfirmed"), Some(NO_REFS))

  datatype GymValue = GymValue(
    id: Option<string>,
    name: string,
    norm: string,
    lat: real,
    lon: real,
    refs: seq<Ref>,
    tags: Tags,
    confidence: Option<int>,
    provenance: Provenance)

  class Gym {
    const name: string
    const norm: string
    const lat: real
    const lon: real
    var id: Option<string>
    var refs: seq<Ref>
    var tags: Tags
    var confidence: Option<int>
    var provenance: Provenance

    constructor (name: string, norm: string, lat: real, lon: real, refs: seq<Ref>, tags: Tags)
      ensures View() == GymValue(None, name, norm, lat, lon, refs, tags, None, DEFAULT_PROVENANCE)
    {
      this.name, this.norm, this.lat, this.lon := name, norm, lat, lon;
      id, this.refs, this.tags, confidence, provenance := None, refs, tags, None, DEFAULT_PROVENANCE;
    }

    function View(): GymValue
      reads this
    {
      GymValue(id, name, norm, lat, lon, refs, tags, confidence, provenance)
    }
  }

  ghost predicate Distinct(gyms: seq<Gym>) {
    forall i, j :: 0 <= i < j < |gyms| ==> gyms[i] != gyms[j]
  }

  ghost function Objects(gyms: seq<Gym>): set<Gym> { set g | g in gyms }

  ghost function Views(gyms: seq<Gym>): (views: seq<GymValue>)
    reads gyms
    ensures |views| == |gyms| && forall i :: 0 <= i < |gyms| ==> views[i] == gyms[i].View()
  {
    seq(|gyms|, i requires 0 <= i < |gyms| reads gyms => gyms[i].View())
  }
}
