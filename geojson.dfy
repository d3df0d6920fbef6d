/**
 * The GeoJSON values the data load produces (RFC 7946) and the GBFS v2
 * station record it consumes. Coordinates are only compared and copied,
 * never computed with, so they are reals.
 */
module GeoJson {
  import opened Wrappers

  /** A position (section 3.1.1 of RFC 7946): longitude, latitude, optional altitude. */
  type Position = seq<real>

  /** The two geometries that occur: a station point and a geofencing multi-polygon. */
  datatype Geometry =
    | Point(position: Position)
    | MultiPolygon(polygons: seq<seq<seq<Position>>>)

  /**
   * The property bag of a feature. A zone carries its GBFS name, the label the
   * zone step adds, and the rest of its GBFS properties (start, end, rules),
   * which the script passes through unread. A station feature carries the
   * fields the station step builds.
   */
  datatype Properties =
    | ZoneProperties(name: string, description: Option<string>, others: map<string, string>)
    | StationProperties(id: string, name: string, capacity: int, description: Option<string>, tabindex: nat)

  /** A feature (section 3.2 of RFC 7946). */
  datatype Feature = Feature(properties: Properties, geometry: Geometry)

  /** A feature collection (section 3.3 of RFC 7946), in order. */
  datatype FeatureCollection = FeatureCollection(features: seq<Feature>)

  /**
   * A GBFS v2 `station_information` record, with the fields the script reads.
   * `id` is the field the script reads as `station.id`; GBFS v2 names it `station_id`.
   */
  datatype Station = Station(id: string, name: string, capacity: int, lat: real, lon: real)

  /** The geometry has the position the cache records for it. */
  predicate HasAnchor(g: Geometry) {
    match g
    case Point(_) => true
    case MultiPolygon(ps) => |ps| > 0 && |ps[0]| > 0 && |ps[0][0]| > 0
  }

  /** JavaScript's `position.slice(0, 2)`: at most the first two components. */
  function FirstTwo(p: Position): Position {
    if |p| < 2 then p else p[..2]
  }

  /**
   * The position the cache records for a geometry: the point itself, or the
   * first two components of `coordinates[0][0][0]` of a multi-polygon.
   */
  function Anchor(g: Geometry): (r: Position)
    requires HasAnchor(g)
    ensures g.Point? ==> r == g.position
    ensures g.MultiPolygon? ==> r <= g.polygons[0][0][0] && |r| == if |g.polygons[0][0][0]| < 2 then |g.polygons[0][0][0]| else 2
  {
    match g
    case Point(p) => p
    case MultiPolygon(ps) => FirstTwo(ps[0][0][0])
  }

  /** A feature with an accessible label. */
  predicate Labelled(f: Feature) {
    f.properties.description.Some?
  }

  /** The feature's accessible label, which is also its cache key. */
  function Label(f: Feature): string
    requires Labelled(f)
  {
    f.properties.description.value
  }

  /** A feature the cache can record: labelled, with a position to record. */
  predicate Cacheable(f: Feature) {
    Labelled(f) && HasAnchor(f.geometry)
  }

  /** The cache write a feature causes. */
  function Entry(f: Feature): (string, Position)
    requires Cacheable(f)
  {
    (Label(f), Anchor(f.geometry))
  }

  /** The cache writes of a sequence of features, in order. */
  function Entries(fs: seq<Feature>): (r: seq<(string, Position)>)
    requires forall i :: 0 <= i < |fs| ==> Cacheable(fs[i])
    ensures |r| == |fs|
    ensures forall i :: 0 <= i < |fs| ==> r[i] == Entry(fs[i])
  {
    if fs == [] then [] else Entries(fs[..|fs| - 1]) + [Entry(fs[|fs| - 1])]
  }

  /** The writes of two runs of features are the writes of the first, then of the second. */
  lemma EntriesAppend(a: seq<Feature>, b: seq<Feature>)
    requires forall i :: 0 <= i < |a| ==> Cacheable(a[i])
    requires forall i :: 0 <= i < |b| ==> Cacheable(b[i])
    ensures Entries(a + b) == Entries(a) + Entries(b)
  {
    var ab := a + b;
    assert forall i :: 0 <= i < |ab| ==> ab[i] == (if i < |a| then a[i] else b[i - |a|]);
  }

  /** Writing one more feature appends its write. */
  lemma EntriesSnoc(fs: seq<Feature>, f: Feature)
    requires forall i :: 0 <= i < |fs| ==> Cacheable(fs[i])
    requires Cacheable(f)
    ensures forall i :: 0 <= i < |fs + [f]| ==> Cacheable((fs + [f])[i])
    ensures Entries(fs + [f]) == Entries(fs) + [Entry(f)]
  {
  }
}
