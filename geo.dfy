/** The GeoJSON shapes every map-layer service produces. */
module Geo {

  /** A GeoJSON position, written `[lon, lat]` in the source. */
  datatype Point = Point(lon: real, lat: real)

  /** A feature whose geometry is always of type 'Point'. */
  datatype Feature<P> = Feature(coordinates: Point, properties: P)

  /** A collection whose `type` is always 'FeatureCollection'. */
  datatype FeatureCollection<P> = FeatureCollection(features: seq<Feature<P>>)

  /** A city a layer samples: its name and its position. */
  datatype City = City(name: string, lat: real, lon: real)

  /** The feature position of a city, `[city.lon, city.lat]`. */
  function CityPoint(c: City): (p: Point)
    ensures p.lon == c.lon && p.lat == c.lat
  {
    Point(c.lon, c.lat)
  }

  function Empty<P>(): (fc: FeatureCollection<P>)
    ensures |fc.features| == 0
  {
    FeatureCollection([])
  }
}
