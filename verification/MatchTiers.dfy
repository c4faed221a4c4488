/** Match statuses and the constants attached to them. Scores are hundredths, distances metres. */
module MatchTiers {
  import opened Wrappers
  import opened Gyms

  const TOMTOM_ONLY := "tomtom_only"
  const TOMTOM_CORROBORATED := "tomtom_corroborated"
  const OSM_NEARBY := "osm_nearby"
  const OSM_CONFIRMED := "osm_confirmed"

  const BY_OSM := "osm"
  const BY_BRAND := "tomtom:brand_search"

  const TIERS := {TOMTOM_ONLY, TOMTOM_CORROBORATED, OSM_NEARBY, OSM_CONFIRMED}

  const FLOOR := map[TOMTOM_ONLY := 40, TOMTOM_CORROBORATED := 40, OSM_NEARBY := 70, OSM_CONFIRMED := 85]
  const BOOST := map[TOMTOM_ONLY := 0, TOMTOM_CORROBORATED := 6, OSM_NEARBY := 0, OSM_CONFIRMED := 0]

  const CORROBORATED_HARD_CAP := 68

  const MATCH_DISTANCE := 250.0

  const ENRICH_KEYS := {"opening_hours", "phone", "contact:phone", "website", "contact:website",
                        "operator", "brand", "addr:street", "addr:housenumber", "addr:postcode"}

  predicate HasStatus(p: Provenance, status: string) { p.matchStatus == Some(status) }

  // `more` has every tag of `tags` with its value, and maybe others.
  predicate Extends(more: Tags, tags: Tags) {
    forall k :: k in tags ==> k in more && more[k] == tags[k]
  }
}
