/** The details panel shown for a clicked marker: its category badge, its
    heading, its place and its date line. */
module EventDetails {
  import opened Wrappers
  import ReliefWeb
  import NasaEonet
  import Weather
  import AirQuality
  import WorldBank

  /** The fields of a feature's `properties` the panel reads; `kind` is the
      `type` field. */
  datatype Properties = Properties(kind: Option<string>, category: Option<string>, types: Option<string>,
                                   date: Option<string>, title: Option<string>, city: Option<string>,
                                   country: Option<string>)

  /** What the panel shows: the badge class and label, the heading, the
      place line (shown only when present) and the date line. */
  datatype Details = Details(catClass: string, catLabel: string, heading: string, place: Option<string>, dateText: string)

  /** The badge decision table, by `type`. */
  function CategoryOf(p: Properties): (badge: (string, string))
    ensures p.kind == Some("disaster") ==> badge == ("cat-disaster", OrElse(p.category, "Natural Disaster"))
    ensures p.kind == Some("conflict") ==> badge == ("cat-conflict", OrElse(p.types, "Humanitarian Crisis"))
    ensures p.kind == Some("weather") ==> badge == ("cat-economy", "Weather Alert")
    ensures p.kind == Some("aqi") ==> badge == ("cat-economy", "Air Quality")
    ensures p.kind.None? || p.kind.value !in ["disaster", "conflict", "weather", "aqi"] ==> badge == ("cat-economy", "Insight")
  {
    match p.kind
    case Some("disaster") => ("cat-disaster", OrElse(p.category, "Natural Disaster"))
    case Some("conflict") => ("cat-conflict", OrElse(p.types, "Humanitarian Crisis"))
    case Some("weather") => ("cat-economy", "Weather Alert")
    case Some("aqi") => ("cat-economy", "Air Quality")
    case _ => ("cat-economy", "Insight")
  }

  /** The panel's own steps: start from the 'Insight' badge and let the
      first matching `type` branch replace it. */
  method Categorize(p: Properties) returns (catClass: string, catLabel: string)
    ensures (catClass, catLabel) == CategoryOf(p)
  {
    catClass := "cat-economy";
    catLabel := "Insight";
    if p.kind == Some("disaster") {
      catClass := "cat-disaster";
      catLabel := OrElse(p.category, "Natural Disaster");
    } else if p.kind == Some("conflict") {
      catClass := "cat-conflict";
      catLabel := OrElse(p.types, "Humanitarian Crisis");
    } else if p.kind == Some("weather") {
      catClass := "cat-economy";
      catLabel := "Weather Alert";
    } else if p.kind == Some("aqi") {
      catClass := "cat-economy";
      catLabel := "Air Quality";
    }
  }

  const NoDate := "Ongoing / Real-time"

  /** The date line: the formatted date when there is one. Formatting a
      date for the reader's locale is a parameter. */
  function DateText(p: Properties, formatDate: string -> string): (text: string)
    ensures Truthy(p.date) ==> text == formatDate(p.date.value)
    ensures !Truthy(p.date) ==> text == NoDate
  {
    if Truthy(p.date) then formatDate(p.date.value) else NoDate
  }

  /** `title || city || country`; a missing country shows as nothing. */
  function Heading(p: Properties): (heading: string)
    ensures Truthy(p.title) ==> heading == p.title.value
    ensures !Truthy(p.title) && Truthy(p.city) ==> heading == p.city.value
    ensures !Truthy(p.title) && !Truthy(p.city) ==> heading == OrElse(p.country, "")
  {
    if Truthy(p.title) then p.title.value else if Truthy(p.city) then p.city.value else OrElse(p.country, "")
  }

  /** The panel for the selected marker; nothing when none is selected. */
  function Render(event: Option<Properties>, formatDate: string -> string): (shown: Option<Details>)
    ensures event.None? <==> shown.None?
    ensures event.Some? ==>
      && (shown.value.catClass, shown.value.catLabel) == CategoryOf(event.value)
      && shown.value.heading == Heading(event.value)
      && shown.value.dateText == DateText(event.value, formatDate)
      && (shown.value.place.Some? <==> Truthy(event.value.country))
      && (shown.value.place.Some? ==> shown.value.place == event.value.country)
  {
    match event
    case None => None
    case Some(p) =>
      var badge := CategoryOf(p);
      Some(Details(badge.0, badge.1, Heading(p), if Truthy(p.country) then p.country else None, DateText(p, formatDate)))
  }

  // ---------------------------------------------------------------------
  // What each layer's markers carry into the panel.

  function FromDisaster(p: NasaEonet.DisasterProps): Properties
  {
    Properties(Some("disaster"), Some(p.category), None, p.date, Some(p.title), None, None)
  }

  /** A conflicts-layer feature has no `type` field. */
  function FromConflict(p: ReliefWeb.ConflictProps): Properties
  {
    Properties(None, None, Some(p.types), None, Some(p.title), None, Some(p.country))
  }

  /** A conflicts-layer feature that also carries `type: 'conflict'`. */
  function FromTypedConflict(p: ReliefWeb.ConflictProps): Properties
  {
    Properties(Some("conflict"), None, Some(p.types), None, Some(p.title), None, Some(p.country))
  }

  function FromWeather(p: Weather.WeatherProps): Properties
  {
    Properties(Some("weather"), None, None, None, None, Some(p.city), None)
  }

  function FromAqi(p: AirQuality.AqiProps): Properties
  {
    Properties(Some("aqi"), Some(p.category), None, None, Some(p.title), Some(p.city), None)
  }

  function FromEconomy(p: WorldBank.EconomyProps): Properties
  {
    Properties(Some("economy"), None, None, None, None, None, Some(p.country))
  }

  /** A disaster marker shows the 'cat-disaster' badge labelled with its
      event's category (never the 'Natural Disaster' default, since the
      layer always sets one), headed by its title, dated by its first
      geometry. */
  lemma DisasterDetails(e: NasaEonet.Event, formatDate: string -> string)
    requires NasaEonet.Drawn(e)
    ensures var d := Render(Some(FromDisaster(NasaEonet.DisasterFeature(e).properties)), formatDate).value;
      && d.catClass == "cat-disaster" && d.catLabel == NasaEonet.Category(e)
      && d.heading == e.title
      && d.dateText == (if Truthy(e.geometry.value[0].date) then formatDate(e.geometry.value[0].date.value) else NoDate)
  {
  }

  /** As written, a conflicts-layer marker never reaches the 'conflict'
      branch: it shows the 'Insight' badge, not its crisis types. */
  lemma ConflictMarkersShowInsight(p: ReliefWeb.ConflictProps, formatDate: string -> string)
    ensures var d := Render(Some(FromConflict(p)), formatDate).value;
      && d.catClass == "cat-economy" && d.catLabel == "Insight"
      && (p.types != "Insight" ==> d.catLabel != p.types)
  {
  }

  /** With `type: 'conflict'` on its features, every conflicts-layer marker
      shows the 'cat-conflict' badge labelled with its crisis types. */
  lemma TypedConflictShowsTypes(api: ReliefWeb.ApiAnswer, formatDate: string -> string)
    ensures var fs := ReliefWeb.HotspotFeatures() + (if api.Answered? then ReliefWeb.ApiFeatures(api.records) else []);
      forall f :: f in fs ==>
        var d := Render(Some(FromTypedConflict(f.properties)), formatDate).value;
        d.catClass == "cat-conflict" && d.catLabel == f.properties.types && d.dateText == NoDate
  {
    ReliefWeb.ConflictTypesNonEmpty(api);
  }

  /** A weather marker is headed by its city and shows 'Weather Alert'; an
      air-quality marker is headed 'Air Quality: <city>' and shows
      'Air Quality'; neither has a date. */
  lemma CityLayersDetails(wp: Weather.WeatherProps, ap: AirQuality.AqiProps, formatDate: string -> string)
    requires wp.city != "" && ap.title != ""
    ensures var d := Render(Some(FromWeather(wp)), formatDate).value;
      d.catClass == "cat-economy" && d.catLabel == "Weather Alert" && d.heading == wp.city && d.dateText == NoDate
    ensures var d := Render(Some(FromAqi(ap)), formatDate).value;
      d.catClass == "cat-economy" && d.catLabel == "Air Quality" && d.heading == ap.title && d.dateText == NoDate
  {
  }

  /** An economy marker shows the default 'Insight' badge, headed and placed
      by its country. */
  lemma EconomyDetails(p: WorldBank.EconomyProps, formatDate: string -> string)
    requires p.country != ""
    ensures var d := Render(Some(FromEconomy(p)), formatDate).value;
      d.catClass == "cat-economy" && d.catLabel == "Insight" && d.heading == p.country
      && d.place == Some(p.country) && d.dateText == NoDate
  {
  }
}
