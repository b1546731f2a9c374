/** The disasters layer: open natural events from NASA EONET, each drawn at
    one point of its first geometry. */
module NasaEonet {
  import opened Wrappers
  import opened Geo
  import opened Lists

  /** The shape of a geometry entry: a point, a polygon (a list of rings),
      or another GeoJSON type. */
  datatype Shape = PointShape(position: Point) | PolygonShape(rings: seq<seq<Point>>) | OtherShape(kind: string)

  /** A geometry entry and its date text. */
  datatype Geometry = Geometry(shape: Shape, date: Option<string>)

  /** An event; `categoryTitles` lists the titles of its categories and
      `geometry` may be missing. */
  datatype Event = Event(id: string, title: string, categoryTitles: seq<Option<string>>, geometry: Option<seq<Geometry>>)

  /** The request fails (or its answer has no `events`), or yields events. */
  datatype EonetAnswer = RequestFailed | Answered(events: seq<Event>)

  /** The properties of a disaster feature (its `type` is always 'disaster'). */
  datatype DisasterProps = DisasterProps(id: string, title: string, category: string, date: Option<string>)

  /** `event.geometry && event.geometry.length > 0`. */
  predicate HasGeometry(e: Event)
  {
    e.geometry.Some? && |e.geometry.value| > 0
  }

  /** A polygon without rings: `coordinates[0][0]` throws, which aborts the
      whole call. */
  predicate Throws(e: Event)
  {
    HasGeometry(e) && e.geometry.value[0].shape.PolygonShape? && |e.geometry.value[0].shape.rings| == 0
  }

  /** The marker position of an event that does not throw: a point's own
      position, the first vertex of a polygon's first ring, nothing for an
      empty first ring or any other type. */
  function Marker(e: Event): (p: Option<Point>)
    requires HasGeometry(e) && !Throws(e)
    ensures var g := e.geometry.value[0].shape;
      && (g.PointShape? ==> p == Some(g.position))
      && (g.PolygonShape? && |g.rings[0]| > 0 ==> p == Some(g.rings[0][0]))
      && (g.PolygonShape? && |g.rings[0]| == 0 ==> p.None?)
      && (g.OtherShape? ==> p.None?)
  {
    match e.geometry.value[0].shape
    case PointShape(position) => Some(position)
    case PolygonShape(rings) => if |rings[0]| > 0 then Some(rings[0][0]) else None
    case OtherShape(_) => None
  }

  /** The event is drawn: it has a geometry and its first one yields a point. */
  predicate Drawn(e: Event)
  {
    HasGeometry(e) && !Throws(e) && Marker(e).Some?
  }

  /** `categories[0]?.title || 'Unknown'`. */
  function Category(e: Event): (category: string)
    ensures category != ""
    ensures |e.categoryTitles| > 0 && Truthy(e.categoryTitles[0]) ==> category == e.categoryTitles[0].value
    ensures |e.categoryTitles| == 0 || !Truthy(e.categoryTitles[0]) ==> category == "Unknown"
  {
    if |e.categoryTitles| > 0 then OrElse(e.categoryTitles[0], "Unknown") else "Unknown"
  }

  function DisasterFeature(e: Event): (f: Feature<DisasterProps>)
    requires Drawn(e)
    ensures f.coordinates == Marker(e).value
    ensures f.properties == DisasterProps(e.id, e.title, Category(e), e.geometry.value[0].date)
  {
    Feature(Marker(e).value, DisasterProps(e.id, e.title, Category(e), e.geometry.value[0].date))
  }

  /** `fetchNaturalDisasters`: keep events with a geometry, map each to a
      feature or null, drop the nulls; a throwing event empties the layer. */
  function FetchNaturalDisasters(answer: EonetAnswer): (fc: FeatureCollection<DisasterProps>)
    ensures answer.RequestFailed? ==> fc.features == []
    ensures answer.Answered? && (exists e :: e in answer.events && Throws(e)) ==> fc.features == []
    ensures answer.Answered? && (forall e :: e in answer.events ==> !Throws(e)) ==>
      && |fc.features| == |Filter(answer.events, Drawn)| <= |answer.events|
      && forall k :: 0 <= k < |fc.features| ==> fc.features[k] == DisasterFeature(Filter(answer.events, Drawn)[k])
  {
    match answer
    case RequestFailed => Empty()
    case Answered(events) =>
      if exists e :: e in events && Throws(e) then Empty()
      else
        var drawn := Filter(events, Drawn);
        FeatureCollection(seq(|drawn|, k requires 0 <= k < |drawn| => DisasterFeature(drawn[k])))
  }

  /** Without a throwing event, the features are exactly those of the drawn
      events, in event order; an event is left out exactly when its geometry
      is missing or empty, or its first geometry yields no point. */
  lemma NaturalDisastersExact(events: seq<Event>)
    requires forall e :: e in events ==> !Throws(e)
    ensures forall f :: f in FetchNaturalDisasters(Answered(events)).features ==>
      exists e :: e in events && Drawn(e) && f == DisasterFeature(e)
    ensures forall e :: e in events && Drawn(e) ==> DisasterFeature(e) in FetchNaturalDisasters(Answered(events)).features
    ensures forall e :: e in events ==>
      (!Drawn(e) <==> (e.geometry.None? || |e.geometry.value| == 0 || Marker(e).None?))
  {
    var idx := FilterExact(events, Drawn);
    var drawn := Filter(events, Drawn);
    var fs := FetchNaturalDisasters(Answered(events)).features;
    forall f | f in fs ensures exists e :: e in events && Drawn(e) && f == DisasterFeature(e) {
      var k :| 0 <= k < |fs| && fs[k] == f;
      assert drawn[k] == events[idx[k]] && Drawn(drawn[k]);
      assert events[idx[k]] in events;
    }
    forall e | e in events && Drawn(e) ensures DisasterFeature(e) in fs {
      var i :| 0 <= i < |events| && events[i] == e;
      var k :| 0 <= k < |idx| && idx[k] == i;
      assert fs[k] == DisasterFeature(e);
    }
  }

  /** One event whose first geometry is a polygon without rings (dated or
      not, followed by more geometries or not) empties the whole layer,
      however many other events could be drawn. */
  lemma ThrowingEventEmptiesLayer(events: seq<Event>, i: nat)
    requires i < |events| && Throws(events[i])
    ensures FetchNaturalDisasters(Answered(events)).features == []
  {
    assert Throws(events[i]) && events[i] in events;
  }
}
