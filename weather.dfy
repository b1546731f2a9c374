/** The weather layer: the current temperature of eleven cities from one
    batched forecast request, coloured by band. */
module Weather {
  import opened Wrappers
  import opened Geo

  const WeatherCities: seq<City> := [
      City("Bangkok", 13.7563, 100.5018),
      City("Singapore", 1.3521, 103.8198),
      City("Jakarta", -6.2088, 106.8456),
      City("Manila", 14.5995, 120.9842),
      City("Tokyo", 35.6762, 139.6503),
      City("Seoul", 37.5665, 126.9780),
      City("Beijing", 39.9042, 116.4074),
      City("New Delhi", 28.6139, 77.2090),
      City("Sydney", -33.8688, 151.2093),
      City("London", 51.5074, -0.1278),
      City("New York", 40.7128, -74.0060)
    ]

  /** The `current` block of one location. */
  datatype Current = Current(temperature: Option<real>)

  /** One location of the answer. */
  datatype Location = Location(current: Option<Current>)

  /** The request fails, or answers with an array of locations or with a
      single (possibly null) value. */
  datatype WeatherAnswer = RequestFailed | Many(locations: seq<Option<Location>>) | One(location: Option<Location>)

  /** `Array.isArray(data) ? data : [data]`. */
  function DataArray(answer: WeatherAnswer): (locations: seq<Option<Location>>)
    requires !answer.RequestFailed?
    ensures answer.Many? ==> locations == answer.locations
    ensures answer.One? ==> locations == [answer.location]
  {
    if answer.Many? then answer.locations else [answer.location]
  }

  /** The location at `index` reports a `current` temperature. */
  predicate Reported(locations: seq<Option<Location>>, index: nat)
  {
    index < |locations| && locations[index].Some? && locations[index].value.current.Some?
    && locations[index].value.current.value.temperature.Some?
  }

  /** `(dataArray[index]?.current || {}).temperature_2m || 0`: the reported
      temperature, or 0 when none is reported (a reported 0 reads as 0 too). */
  function Temperature(locations: seq<Option<Location>>, index: nat): (temp: real)
    ensures Reported(locations, index) ==> temp == locations[index].value.current.value.temperature.value
    ensures !Reported(locations, index) ==> temp == 0.0
  {
    if index < |locations| && locations[index].Some? && locations[index].value.current.Some? then
      NumberOr(locations[index].value.current.value.temperature, 0.0)
    else 0.0
  }

  const Hot := "#ef4444"
  const Mild := "#10b981"
  const Cold := "#3b82f6"

  /** Red above 30, green above 20 up to 30, blue at 20 or below. */
  function TempColor(temp: real): (color: string)
    ensures temp > 30.0 ==> color == Hot
    ensures 20.0 < temp <= 30.0 ==> color == Mild
    ensures temp <= 20.0 ==> color == Cold
  {
    if temp > 30.0 then Hot else if temp > 20.0 then Mild else Cold
  }

  /** The properties of a weather feature (its `type` is always 'weather'). */
  datatype WeatherProps = WeatherProps(city: string, temp: real, color: string)

  function CityFeature(city: City, temp: real): (f: Feature<WeatherProps>)
    ensures f.coordinates == CityPoint(city)
    ensures f.properties == WeatherProps(city.name, temp, TempColor(temp))
  {
    Feature(CityPoint(city), WeatherProps(city.name, temp, TempColor(temp)))
  }

  /** `fetchLiveWeather`. */
  function FetchLiveWeather(answer: WeatherAnswer): (fc: FeatureCollection<WeatherProps>)
    ensures answer.RequestFailed? ==> fc.features == []
    ensures !answer.RequestFailed? ==> |fc.features| == |WeatherCities|
    ensures !answer.RequestFailed? ==>
      forall i :: 0 <= i < |WeatherCities| ==>
        fc.features[i] == CityFeature(WeatherCities[i], Temperature(DataArray(answer), i))
  {
    if answer.RequestFailed? then Empty()
    else
      var locations := DataArray(answer);
      FeatureCollection(seq(|WeatherCities|, i requires 0 <= i < |WeatherCities| =>
        CityFeature(WeatherCities[i], Temperature(locations, i))))
  }

  /** A single, non-array answer can only reach the first city: every other
      city shows 0 degrees, in blue. */
  lemma SingleAnswerFeedsFirstCityOnly(answer: WeatherAnswer)
    requires answer.One?
    ensures forall i :: 1 <= i < |FetchLiveWeather(answer).features| ==>
      FetchLiveWeather(answer).features[i].properties.temp == 0.0
      && FetchLiveWeather(answer).features[i].properties.color == Cold
  {
  }

  /** A location without a `current` block, or with a missing or zero
      temperature, shows 0 degrees in blue; any shown non-zero temperature
      is the one the answer reported for that city. */
  lemma MissingReadingIsCold(answer: WeatherAnswer, i: nat)
    requires !answer.RequestFailed? && i < |WeatherCities|
    ensures var locations := DataArray(answer);
      var f := FetchLiveWeather(answer).features[i];
      && (i >= |locations| || locations[i].None? || locations[i].value.current.None?
          || locations[i].value.current.value.temperature in {None, Some(0.0)}
          ==> f.properties.temp == 0.0 && f.properties.color == Cold)
      && (f.properties.temp != 0.0 ==> locations[i].value.current.value.temperature == Some(f.properties.temp))
  {
  }
}
