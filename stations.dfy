/**
 * The station transformer: sorts the GBFS v2 `station_information`
 * stations north to south, then reduces them to GeoJSON points, each with
 * its position in that order as its `tabindex`, recording each point in
 * the cache.
 */
module Stations {
  import opened Wrappers
  import opened GeoJson
  import opened Cache
  import opened LatitudeSort

  /** The station's label: its name followed by " station". */
  function StationLabel(name: string): string {
    name + " station"
  }

  /** The feature literal built for the station at position `index`. */
  function StationFeature(s: Station, index: nat): (r: Feature)
    ensures Cacheable(r) && r.properties.StationProperties?
    ensures r.geometry == Point([s.lon, s.lat])
    ensures Label(r) == StationLabel(s.name) && Anchor(r.geometry) == [s.lon, s.lat]
    ensures r.properties.id == s.id && r.properties.name == s.name && r.properties.capacity == s.capacity
    ensures r.properties.tabindex == index
  {
    Feature(
      StationProperties(s.id, s.name, s.capacity, Some(StationLabel(s.name)), index),
      Point([s.lon, s.lat]))
  }

  /** The features the reduce collects: one per station, in order, numbered from zero. */
  function StationFeatures(sorted: seq<Station>): (r: seq<Feature>)
    ensures |r| == |sorted|
    ensures forall i :: 0 <= i < |sorted| ==> r[i] == StationFeature(sorted[i], i)
  {
    if sorted == [] then []
    else StationFeatures(sorted[..|sorted| - 1]) + [StationFeature(sorted[|sorted| - 1], |sorted| - 1)]
  }

  /**
   * The sort then the reduce. `sorted` is the response's station array after
   * the in-place sort; the collection and the cache writes follow its order.
   */
  method TransformStations(stations: seq<Station>, cache: LabelCache) returns (sorted: seq<Station>, collection: FeatureCollection)
    modifies cache
    ensures sorted == SortByLatitude(stations)
    ensures collection.features == StationFeatures(sorted)
    ensures cache.entries == Record(old(cache.entries), Entries(collection.features))
  {
    sorted := SortByLatitude(stations);
    var features: seq<Feature> := [];
    for index := 0 to |sorted|
      invariant features == StationFeatures(sorted[..index])
      invariant forall i :: 0 <= i < |features| ==> Cacheable(features[i])
      invariant cache.entries == Record(old(cache.entries), Entries(features))
    {
      var feature := StationFeature(sorted[index], index);
      assert StationFeatures(sorted[..index + 1]) == features + [feature] by {
        assert sorted[..index + 1][..index] == sorted[..index];
      }
      EntriesSnoc(features, feature);
      RecordSnoc(old(cache.entries), Entries(features), Entry(feature));
      features := features + [feature];
      cache.Put(Label(feature), Anchor(feature.geometry));
    }
    assert sorted[..|sorted|] == sorted;
    collection := FeatureCollection(features);
  }

  /**
   * In output order the stations run north to south, are a stable
   * permutation of the input, and their tab indexes are exactly 0, 1, ..., n-1.
   */
  lemma StationOrder(stations: seq<Station>)
    ensures var out := StationFeatures(SortByLatitude(stations));
      && |out| == |stations|
      && (forall i :: 0 <= i < |out| ==> out[i].properties.tabindex == i)
      && (forall i, j :: 0 <= i < j < |out| ==> Anchor(out[i].geometry)[1] >= Anchor(out[j].geometry)[1])
      && multiset(SortByLatitude(stations)) == multiset(stations)
      && (forall lat :: AtLatitude(SortByLatitude(stations), lat) == AtLatitude(stations, lat))
  {
    SortPermutes(stations);
    SortOrdered(stations);
    forall lat ensures AtLatitude(SortByLatitude(stations), lat) == AtLatitude(stations, lat) {
      SortStable(stations, lat);
    }
  }
}
