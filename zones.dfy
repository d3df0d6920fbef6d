/**
 * The zone transformer: the `reduce` over the GBFS v2 `geofencing_zones`
 * features, which labels each zone, collects it and records its first
 * vertex in the cache.
 */
module Zones {
  import opened Wrappers
  import opened GeoJson
  import opened Cache

  /**
   * A zone the transformer can take: a zone property bag and a multi-polygon
   * that has a first polygon, ring and position (the script throws otherwise).
   */
  predicate IsZone(f: Feature) {
    f.properties.ZoneProperties? && f.geometry.MultiPolygon? && HasAnchor(f.geometry)
  }

  /** The zone's label: its name followed by " region". */
  function ZoneLabel(name: string): string {
    name + " region"
  }

  /** The zone with its `description` set; nothing else about it changes. */
  function DescribeZone(f: Feature): (r: Feature)
    requires IsZone(f)
    ensures IsZone(r) && Cacheable(r) && Label(r) == ZoneLabel(f.properties.name)
    ensures r.properties.name == f.properties.name && r.properties.others == f.properties.others
    ensures r.geometry == f.geometry
  {
    var p := f.properties;
    Feature(ZoneProperties(p.name, Some(ZoneLabel(p.name)), p.others), f.geometry)
  }

  /** The features the reduce collects: each zone described, in input order. */
  function ZoneFeatures(zones: seq<Feature>): (r: seq<Feature>)
    requires forall i :: 0 <= i < |zones| ==> IsZone(zones[i])
    ensures |r| == |zones|
    ensures forall i :: 0 <= i < |zones| ==> r[i] == DescribeZone(zones[i])
  {
    if zones == [] then []
    else ZoneFeatures(zones[..|zones| - 1]) + [DescribeZone(zones[|zones| - 1])]
  }

  /**
   * The reduce: pushes each described zone onto the collection and writes
   * `label -> first two components of coordinates[0][0][0]` into the cache.
   */
  method TransformZones(zones: seq<Feature>, cache: LabelCache) returns (collection: FeatureCollection)
    requires forall i :: 0 <= i < |zones| ==> IsZone(zones[i])
    modifies cache
    ensures collection.features == ZoneFeatures(zones)
    ensures forall i :: 0 <= i < |zones| ==> Cacheable(collection.features[i])
    ensures cache.entries == Record(old(cache.entries), Entries(collection.features))
  {
    var features: seq<Feature> := [];
    for i := 0 to |zones|
      invariant features == ZoneFeatures(zones[..i])
      invariant forall j :: 0 <= j < |features| ==> Cacheable(features[j])
      invariant cache.entries == Record(old(cache.entries), Entries(features))
    {
      var feature := DescribeZone(zones[i]);
      assert ZoneFeatures(zones[..i + 1]) == features + [feature] by {
        assert zones[..i + 1][..i] == zones[..i];
      }
      EntriesSnoc(features, feature);
      RecordSnoc(old(cache.entries), Entries(features), Entry(feature));
      features := features + [feature];
      cache.Put(Label(feature), Anchor(feature.geometry));
    }
    assert zones[..|zones|] == zones;
    collection := FeatureCollection(features);
  }
}
