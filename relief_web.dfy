/** The conflicts layer: seven fixed geopolitical hotspots, followed by the
    located disasters of the ReliefWeb API when that call succeeds. */
module ReliefWeb {
  import opened Wrappers
  import opened Text
  import opened Geo
  import opened Lists

  /** A fixed hotspot; `kind` is the source's `type` label. */
  datatype Hotspot = Hotspot(id: string, title: string, country: string, kind: string, coordinates: Point)

  const GlobalHotspots: seq<Hotspot> := [
      Hotspot("hotspot-iran", "Iran-Israel Regional Escalation", "Middle East", "Geopolitical Conflict", Point(53.6880, 32.4279)),
      Hotspot("hotspot-ukraine", "Russo-Ukrainian War", "Ukraine", "Ongoing Conflict", Point(31.1656, 48.3794)),
      Hotspot("hotspot-gaza", "Gaza Strip Crisis", "Palestine", "Humanitarian Crisis / Conflict", Point(34.3088, 31.3547)),
      Hotspot("hotspot-myanmar", "Myanmar Civil War", "Myanmar", "Civil Conflict", Point(95.9560, 21.9162)),
      Hotspot("hotspot-sudan", "Sudan Conflict", "Sudan", "Civil War", Point(30.2176, 12.8628)),
      Hotspot("hotspot-taiwan", "Cross-Strait Tensions", "Taiwan Strait", "Geopolitical Tension", Point(119.5363, 23.6978)),
      Hotspot("hotspot-red-sea", "Red Sea Shipping Crisis", "Yemen / Red Sea", "Maritime Conflict", Point(42.6105, 15.3694))
    ]

  /** The properties of a conflicts-layer feature (it carries no `type`). */
  datatype ConflictProps = ConflictProps(id: string, title: string, country: string, types: string)

  function HotspotFeature(h: Hotspot): (f: Feature<ConflictProps>)
    ensures f.coordinates == h.coordinates
    ensures f.properties == ConflictProps(h.id, h.title, h.country, h.kind)
  {
    Feature(h.coordinates, ConflictProps(h.id, h.title, h.country, h.kind))
  }

  /** One feature per hotspot, in declaration order. */
  function HotspotFeatures(): (fs: seq<Feature<ConflictProps>>)
    ensures |fs| == |GlobalHotspots| == 7
    ensures forall i :: 0 <= i < |fs| ==> fs[i] == HotspotFeature(GlobalHotspots[i])
  {
    seq(|GlobalHotspots|, i requires 0 <= i < |GlobalHotspots| => HotspotFeature(GlobalHotspots[i]))
  }

  // ---------------------------------------------------------------------
  // The API records.

  datatype Location = Location(lon: real, lat: real)
  datatype Country = Country(name: string, location: Option<Location>)
  /** A record's `fields`; `typeNames` lists the names of its `type` entries. */
  datatype Fields = Fields(name: string, primaryCountry: Option<Country>, typeNames: Option<seq<string>>)
  datatype Record = Record(id: string, fields: Option<Fields>)

  /** The API call either fails (refused, network, or an answer without a
      `data` list) or yields its records. */
  datatype ApiAnswer = ApiFailed | Answered(records: seq<Record>)

  /** `item.fields?.primary_country?.location` is present. */
  predicate Located(r: Record)
  {
    r.fields.Some? && r.fields.value.primaryCountry.Some? && r.fields.value.primaryCountry.value.location.Some?
  }

  /** The `types` label: the type names joined with ', ', or 'Crisis' when
      there are none or they join to nothing. */
  function TypesLabel(typeNames: Option<seq<string>>): (typesText: string)
    ensures typesText != ""
    ensures typeNames.Some? && Join(typeNames.value, ", ") != "" ==> typesText == Join(typeNames.value, ", ")
    ensures typeNames.None? || Join(typeNames.value, ", ") == "" ==> typesText == "Crisis"
  {
    if typeNames.None? then "Crisis" else OrElse(Some(Join(typeNames.value, ", ")), "Crisis")
  }

  /** The label is 'Crisis' exactly when the list is missing, empty, or one
      empty name, or joins to the word 'Crisis' itself. */
  lemma TypesLabelCrisis(typeNames: Option<seq<string>>)
    ensures TypesLabel(typeNames) == "Crisis" <==>
      (|| typeNames.None?
       || |typeNames.value| == 0
       || (|typeNames.value| == 1 && typeNames.value[0] == "")
       || Join(typeNames.value, ", ") == "Crisis")
  {
    if typeNames.Some? {
      JoinEmpty(typeNames.value, ", ");
    }
  }

  /** The feature of a located record, at `[lon, lat]` of its country. */
  function ApiFeature(r: Record): (f: Feature<ConflictProps>)
    requires Located(r)
    ensures var c := r.fields.value.primaryCountry.value;
      && f.coordinates == Point(c.location.value.lon, c.location.value.lat)
      && f.properties.id == r.id && f.properties.title == r.fields.value.name && f.properties.country == c.name
      && f.properties.types == TypesLabel(r.fields.value.typeNames)
  {
    var c := r.fields.value.primaryCountry.value;
    Feature(Point(c.location.value.lon, c.location.value.lat),
            ConflictProps(r.id, r.fields.value.name, c.name, TypesLabel(r.fields.value.typeNames)))
  }

  /** `filter(located).map(...)`: the located records turned into
      features, in API order. */
  function ApiFeatures(rs: seq<Record>): (fs: seq<Feature<ConflictProps>>)
    ensures |fs| == |Filter(rs, Located)| <= |rs|
    ensures forall k :: 0 <= k < |fs| ==> fs[k] == ApiFeature(Filter(rs, Located)[k])
  {
    var located := Filter(rs, Located);
    seq(|located|, k requires 0 <= k < |located| => ApiFeature(located[k]))
  }

  /** Every API feature is made from a located record, at increasing
      positions, and every located record yields one. */
  lemma ApiFeaturesExact(rs: seq<Record>)
    ensures forall f :: f in ApiFeatures(rs) ==> exists r :: r in rs && Located(r) && f == ApiFeature(r)
    ensures forall r :: r in rs && Located(r) ==> ApiFeature(r) in ApiFeatures(rs)
  {
    var idx := FilterExact(rs, Located);
    var located := Filter(rs, Located);
    var fs := ApiFeatures(rs);
    forall f | f in fs ensures exists r :: r in rs && Located(r) && f == ApiFeature(r) {
      var k :| 0 <= k < |fs| && fs[k] == f;
      assert located[k] == rs[idx[k]] && Located(located[k]);
      assert rs[idx[k]] in rs;
    }
    forall r | r in rs && Located(r) ensures ApiFeature(r) in fs {
      var i :| 0 <= i < |rs| && rs[i] == r;
      var k :| 0 <= k < |idx| && idx[k] == i;
      assert fs[k] == ApiFeature(r);
    }
  }

  /** `fetchConflictsAndCrises`: start from the hotspot features and, when
      the API answers, push its located features after them. */
  method FetchConflictsAndCrises(api: ApiAnswer) returns (fc: FeatureCollection<ConflictProps>)
    ensures |fc.features| == |GlobalHotspots| + (if api.Answered? then |Filter(api.records, Located)| else 0)
    ensures fc.features[..|GlobalHotspots|] == HotspotFeatures()
    ensures api.ApiFailed? ==> fc.features == HotspotFeatures()
    ensures api.Answered? ==> fc.features[|GlobalHotspots|..] == ApiFeatures(api.records)
  {
    var features := HotspotFeatures();
    if api.Answered? {
      var apiFeatures := ApiFeatures(api.records);
      features := features + apiFeatures;
    }
    fc := FeatureCollection(features);
  }

  /** Every feature of the layer has a non-empty `types` label. */
  lemma ConflictTypesNonEmpty(api: ApiAnswer)
    ensures forall f :: f in HotspotFeatures() + (if api.Answered? then ApiFeatures(api.records) else []) ==>
      f.properties.types != ""
  {
    var h := GlobalHotspots;
    assert forall i :: 0 <= i < |h| ==> |h[i].kind| > 0 by {
      assert |h[0].kind| == 21 && |h[1].kind| == 16 && |h[2].kind| == 30 && |h[3].kind| == 14;
      assert |h[4].kind| == 9 && |h[5].kind| == 20 && |h[6].kind| == 17;
    }
  }
}
