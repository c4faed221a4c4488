/** Features extracted from a gym's tags, and how they grow with the tags. */
module Features {
  import opened Gyms
  import opened MatchTiers

  datatype FeatureSet = FeatureSet(
    amenities: set<string>,
    sports: set<string>,
    attributes: set<string>,
    brand: set<string>)

  const TRUTHY := {"yes", "true", "1"}

  predicate OccursAt(whole: string, part: string, i: int) {
    0 <= i <= |whole| - |part| && whole[i..i + |part|] == part
  }

  predicate Contains(whole: string, part: string) {
    exists i :: 0 <= i <= |whole| && OccursAt(whole, part, i)
  }

  predicate Truthy(value: string, text: Text) { text.lower(text.strip(value)) in TRUTHY }

  function Split(whole: string, separator: char): (parts: seq<string>)
    ensures parts != []
  {
    if whole == [] then [""]
    else
      var rest := Split(whole[1..], separator);
      if whole[0] == separator then [""] + rest else [[whole[0]] + rest[0]] + rest[1..]
  }

  function SplitSemicolon(value: string, text: Text): set<string> {
    if value == "" then {} else set part | part in Split(value, ';') :: text.lower(text.strip(part))
  }

  function One(tags: Tags, key: string, text: Text): set<string> {
    if key in tags then {text.lower(tags[key])} else {}
  }

  predicate AlwaysOpen(hours: string, text: Text) {
    Contains(text.lower(hours), "24/7") || text.hoursPattern(text.lower(hours))
  }

  function Flags(tags: Tags, keys: set<string>, text: Text): set<string> {
    set k | k in keys && k in tags && Truthy(tags[k], text) :: text.lower(k)
  }

  function Attributes(tags: Tags, text: Text): set<string> {
    (if "website" in tags || "contact:website" in tags then {"website"} else {})
    + (if "opening_hours" in tags then {"opening_hours"} else {})
    + (if "opening_hours" in tags && AlwaysOpen(tags["opening_hours"], text) then {"24_7"} else {})
  }

  function Extracted(tags: Tags, text: Text): FeatureSet {
    FeatureSet(
      Flags(tags, tags.Keys, text) + One(tags, "leisure", text),
      if "sport" in tags then SplitSemicolon(tags["sport"], text) else {},
      Attributes(tags, text),
      One(tags, "brand", text) + One(tags, "name", text))
  }

  function Capabilities(f: FeatureSet): set<string> { f.amenities + f.sports + f.attributes }

  // `g` has every feature of `f`.
  predicate Covers(g: FeatureSet, f: FeatureSet) {
    f.amenities <= g.amenities && f.sports <= g.sports && f.attributes <= g.attributes && f.brand <= g.brand
  }

  /** Adding tags never loses a feature. */
  lemma FeaturesGrow(more: Tags, tags: Tags, text: Text)
    requires Extends(more, tags)
    ensures Covers(Extracted(more, text), Extracted(tags, text))
    ensures Capabilities(Extracted(tags, text)) <= Capabilities(Extracted(more, text))
  {
    assert Flags(tags, tags.Keys, text) <= Flags(more, more.Keys, text);
    assert One(tags, "leisure", text) <= One(more, "leisure", text);
    assert Attributes(tags, text) <= Attributes(more, text);
    assert One(tags, "brand", text) <= One(more, "brand", text) && One(tags, "name", text) <= One(more, "name", text);
  }

  lemma FlagsStep(tags: Tags, keys: set<string>, key: string, text: Text)
    requires key in tags
    ensures Flags(tags, keys + {key}, text)
            == if Truthy(tags[key], text) then Flags(tags, keys, text) + {text.lower(key)} else Flags(tags, keys, text)
  {
    var before, after := Flags(tags, keys, text), Flags(tags, keys + {key}, text);
    assert before <= after;
    assert Truthy(tags[key], text) ==> text.lower(key) in after;
  }

  // The scan of all tags for truthy values, in whatever order the dictionary yields them.
  method CollectFlags(tags: Tags, text: Text) returns (flags: set<string>)
    ensures flags == Flags(tags, tags.Keys, text)
  {
    flags := {};
    var rest := tags.Keys;
    ghost var done := {};
    while rest != {}
      invariant done + rest == tags.Keys
      invariant flags == Flags(tags, done, text)
      decreases |rest|
    {
      var key :| key in rest;
      FlagsStep(tags, done, key, text);
      rest, done := rest - {key}, done + {key};
      if Truthy(tags[key], text) {
        flags := flags + {text.lower(key)};
      }
    }
    assert done == tags.Keys;
  }

  method ReadAttributes(tags: Tags, text: Text) returns (attributes: set<string>)
    ensures attributes == Attributes(tags, text)
  {
    attributes := {};
    if "website" in tags || "contact:website" in tags {
      attributes := attributes + {"website"};
    }
    if "opening_hours" in tags {
      attributes := attributes + {"opening_hours"};
      if AlwaysOpen(tags["opening_hours"], text) {
        attributes := attributes + {"24_7"};
      }
    }
  }

  method ReadBrand(tags: Tags, text: Text) returns (brand: set<string>)
    ensures brand == One(tags, "brand", text) + One(tags, "name", text)
  {
    brand := {};
    if "brand" in tags {
      brand := brand + {text.lower(tags["brand"])};
    }
    if "name" in tags {
      brand := brand + {text.lower(tags["name"])};
    }
  }

  method ExtractFeatures(tags: Tags, text: Text) returns (f: FeatureSet)
    ensures f == Extracted(tags, text)
  {
    var amenities := CollectFlags(tags, text);
    var sports := {};
    if "sport" in tags {
      sports := SplitSemicolon(tags["sport"], text);
    }
    amenities := amenities + One(tags, "leisure", text);
    var attributes := ReadAttributes(tags, text);
    var brand := ReadBrand(tags, text);
    f := FeatureSet(amenities, sports, attributes, brand);
  }

  /******* What the features are, on the raw tags *******/

  function Glue(parts: seq<string>, separator: char): string
    requires parts != []
  {
    if |parts| == 1 then parts[0] else parts[0] + [separator] + Glue(parts[1..], separator)
  }

  /** Splitting cuts at every separator and nowhere else: no part holds one, and the parts joined by
      it are the whole text. */
  lemma {:induction false} SplitIsExact(whole: string, separator: char)
    ensures forall part :: part in Split(whole, separator) ==> separator !in part
    ensures Glue(Split(whole, separator), separator) == whole
  {
    if whole != [] {
      var rest := Split(whole[1..], separator);
      SplitIsExact(whole[1..], separator);
      assert whole == [whole[0]] + whole[1..];
      if whole[0] == separator {
        assert ([""] + rest)[1..] == rest;
      } else {
        assert rest[0] in rest;
        var first := [whole[0]] + rest[0];
        assert ([first] + rest[1..])[1..] == rest[1..];
        GlueFirst(whole[0], rest, separator);
      }
    }
  }

  lemma GlueFirst(c: char, parts: seq<string>, separator: char)
    requires parts != []
    ensures Glue([[c] + parts[0]] + parts[1..], separator) == [c] + Glue(parts, separator)
  {
    var longer := [[c] + parts[0]] + parts[1..];
    assert longer[1..] == parts[1..];
    if |parts| > 1 {
      assert [c] + parts[0] + [separator] + Glue(parts[1..], separator)
          == [c] + (parts[0] + [separator] + Glue(parts[1..], separator));
    }
  }

  // A tag whose text is yes, true or 1, whatever its case and the blanks around it.
  predicate SaysYes(value: string, text: Text) {
    var word := text.lower(text.strip(value));
    word == "yes" || word == "true" || word == "1"
  }

  // `part` occurs in `whole`.
  ghost predicate Within(whole: string, part: string) { exists before, after :: whole == before + part + after }

  lemma ContainsMeans(whole: string, part: string)
    ensures Contains(whole, part) <==> Within(whole, part)
  {
    if Contains(whole, part) {
      var i :| 0 <= i <= |whole| && OccursAt(whole, part, i);
      assert whole == whole[..i] + part + whole[i + |part|..];
    }
    if Within(whole, part) {
      var before, after :| whole == before + part + after;
      assert whole[|before|..|before| + |part|] == part;
      assert OccursAt(whole, part, |before|);
    }
  }

  /** Each feature set, member by member: amenities are the keys that say yes and the kind of leisure;
      sports the trimmed parts between semicolons; attributes the website, the opening hours and
      hours that read 24/7; brand the lower-cased brand and name. */
  lemma FeaturesMean(tags: Tags, text: Text, x: string)
    ensures var f := Extracted(tags, text);
            && (x in f.amenities <==> (exists k :: k in tags && SaysYes(tags[k], text) && x == text.lower(k))
                                      || ("leisure" in tags && x == text.lower(tags["leisure"])))
            && (x in f.sports <==> "sport" in tags && |tags["sport"]| > 0
                                   && exists part ::
                                        part in Split(tags["sport"], ';') && x == text.lower(text.strip(part)))
            && (x in f.attributes
                <==> || (x == "website" && ("website" in tags || "contact:website" in tags))
                     || (x == "opening_hours" && "opening_hours" in tags)
                     || (x == "24_7" && AlwaysOpenTag(tags, text)))
            && (x in f.brand <==> ("brand" in tags && x == text.lower(tags["brand"]))
                                  || ("name" in tags && x == text.lower(tags["name"])))
  {
    if "opening_hours" in tags {
      ContainsMeans(text.lower(tags["opening_hours"]), "24/7");
    }
  }

  ghost predicate AlwaysOpenTag(tags: Tags, text: Text) {
    && "opening_hours" in tags
    && var hours := text.lower(tags["opening_hours"]);
       Within(hours, "24/7") || text.hoursPattern(hours)
  }
}
