/** The air-quality layer: the current US AQI of eleven Asian cities,
    classified into the six US AQI categories. */
module AirQuality {
  import opened Wrappers
  import opened Text
  import opened Geo

  const Cities: seq<City> := [
      City("Bangkok", 13.7563, 100.5018),
      City("Chiang Mai", 18.7902, 98.9817),
      City("Phuket", 7.8804, 98.3923),
      City("Singapore", 1.3521, 103.8198),
      City("Kuala Lumpur", 3.1390, 101.6869),
      City("Jakarta", -6.2088, 106.8456),
      City("Manila", 14.5995, 120.9842),
      City("Ho Chi Minh", 10.8231, 106.6297),
      City("Yangon", 16.8409, 96.1451),
      City("Tokyo", 35.6762, 139.6503),
      City("Seoul", 37.5665, 126.9780)
    ]

  /** The category boundaries; each is exceeded by a strictly greater index. */
  const Thresholds: seq<real> := [50.0, 100.0, 150.0, 200.0, 300.0]

  const Categories: seq<string> := ["Good", "Moderate", "Unhealthy for Sensitive Groups", "Unhealthy", "Very Unhealthy", "Hazardous"]

  const Colors: seq<string> := ["#3b82f6", "#10b981", "#f59e0b", "#ef4444", "#b91c1c", "#7f1d1d"]

  /** `aqi > t` in JavaScript: a missing reading exceeds nothing. */
  predicate Exceeds(aqi: Option<real>, t: real)
  {
    aqi.Some? && aqi.value > t
  }

  /** The category index: how many thresholds the reading exceeds. */
  function AqiLevel(aqi: Option<real>): (level: nat)
    ensures level < |Categories| == |Colors| == 6
    ensures forall k :: 0 <= k < |Thresholds| ==> (k < level <==> Exceeds(aqi, Thresholds[k]))
  {
    if Exceeds(aqi, 300.0) then 5
    else if Exceeds(aqi, 200.0) then 4
    else if Exceeds(aqi, 150.0) then 3
    else if Exceeds(aqi, 100.0) then 2
    else if Exceeds(aqi, 50.0) then 1
    else 0
  }

  /** The colour and category of a reading: start at Good, and let each
      exceeded threshold overwrite both. */
  method ClassifyAqi(aqi: Option<real>) returns (color: string, category: string)
    ensures category == Categories[AqiLevel(aqi)]
    ensures color == Colors[AqiLevel(aqi)]
  {
    color := "#3b82f6";
    category := "Good";
    if Exceeds(aqi, 50.0) { color := "#10b981"; category := "Moderate"; }
    if Exceeds(aqi, 100.0) { color := "#f59e0b"; category := "Unhealthy for Sensitive Groups"; }
    if Exceeds(aqi, 150.0) { color := "#ef4444"; category := "Unhealthy"; }
    if Exceeds(aqi, 200.0) { color := "#b91c1c"; category := "Very Unhealthy"; }
    if Exceeds(aqi, 300.0) { color := "#7f1d1d"; category := "Hazardous"; }
  }

  /** A higher reading never has a lower category, and a missing one is Good. */
  lemma AqiLevelMonotone(a: real, b: real)
    requires a <= b
    ensures AqiLevel(Some(a)) <= AqiLevel(Some(b))
    ensures AqiLevel(None) == 0
  {
  }

  /** Colour and category change together: two readings share a colour
      exactly when they share a category. */
  lemma ColorTracksCategory(a: Option<real>, b: Option<real>)
    ensures Colors[AqiLevel(a)] == Colors[AqiLevel(b)] <==> Categories[AqiLevel(a)] == Categories[AqiLevel(b)]
  {
    var c, g := Colors, Categories;
    assert c[0][1] == '3' && c[1][1] == '1' && c[2][1] == 'f' && c[3][1] == 'e' && c[4][1] == 'b' && c[5][1] == '7';
    assert |g[0]| == 4 && |g[1]| == 8 && |g[2]| == 30 && |g[3]| == 9 && |g[4]| == 14 && |g[5]| == 9;
    assert g[3][8] == 'y' && g[5][8] == 's';
  }

  /** The `current` block of an answer. */
  datatype Reading = Reading(usAqi: Option<real>, pm25: Option<real>)

  /** One city's request: rejected, or answered with or without `current`. */
  datatype AqResponse = Rejected | Answered(current: Option<Reading>)

  /** The properties of an air-quality feature (its `type` is always 'aqi'). */
  datatype AqiProps = AqiProps(id: string, city: string, title: string, aqi: Option<real>, pm25: Option<real>,
                               category: string, color: string)

  function CityFeature(index: nat, city: City, reading: Reading): (f: Feature<AqiProps>)
    ensures f.coordinates == CityPoint(city)
    ensures f.properties.id == "aqi-" + Decimal(index)
    ensures f.properties.title == "Air Quality: " + city.name && f.properties.city == city.name
    ensures f.properties.aqi == reading.usAqi && f.properties.pm25 == reading.pm25
    ensures f.properties.category == Categories[AqiLevel(reading.usAqi)]
    ensures f.properties.color == Colors[AqiLevel(reading.usAqi)]
  {
    var level := AqiLevel(reading.usAqi);
    Feature(CityPoint(city),
            AqiProps("aqi-" + Decimal(index), city.name, "Air Quality: " + city.name, reading.usAqi, reading.pm25,
                     Categories[level], Colors[level]))
  }

  /** Every city's request succeeded with a `current` block. */
  predicate AllAnswered(request: City -> AqResponse)
  {
    forall i :: 0 <= i < |Cities| ==> request(Cities[i]).Answered? && request(Cities[i]).current.Some?
  }

  /** `fetchAirQuality`: one request per city, all awaited together. */
  function FetchAirQuality(request: City -> AqResponse): (fc: FeatureCollection<AqiProps>)
    ensures !AllAnswered(request) ==> fc.features == []
    ensures AllAnswered(request) ==> |fc.features| == |Cities|
    ensures AllAnswered(request) ==>
      forall i :: 0 <= i < |Cities| ==> fc.features[i] == CityFeature(i, Cities[i], request(Cities[i]).current.value)
  {
    if AllAnswered(request) then
      FeatureCollection(seq(|Cities|, i requires 0 <= i < |Cities| && AllAnswered(request) =>
        CityFeature(i, Cities[i], request(Cities[i]).current.value)))
    else Empty()
  }

  /** The ids `aqi-<index>` of two features differ. */
  lemma {:induction false} CityIdsDistinct(i: nat, j: nat)
    requires i != j
    ensures "aqi-" + Decimal(i) != "aqi-" + Decimal(j)
  {
    DecimalRoundTrip(i);
    DecimalRoundTrip(j);
    var a, b := "aqi-" + Decimal(i), "aqi-" + Decimal(j);
    assert a[4..] == Decimal(i) && b[4..] == Decimal(j);
  }

  /** When every request succeeds, the eleven features have pairwise
      distinct ids. */
  lemma AirQualityIdsDistinct(request: City -> AqResponse)
    ensures forall i, j :: 0 <= i < j < |FetchAirQuality(request).features| ==>
      FetchAirQuality(request).features[i].properties.id != FetchAirQuality(request).features[j].properties.id
  {
    var fs := FetchAirQuality(request).features;
    forall i, j | 0 <= i < j < |fs| ensures fs[i].properties.id != fs[j].properties.id {
      CityIdsDistinct(i, j);
    }
  }
}
