# Beryl bike-share map: data-load model

This project models the one piece of logic in the Beryl bike-share map demo.
It is the data load that runs once both GBFS v2 feeds have arrived
(`index.js`, the `map.on("load")` callback). The load has four parts:

- **Zone transformer.** It folds the `geofencing_zones` features into a GeoJSON
  FeatureCollection (section 3.3 of RFC 7946) and keeps their order. It sets each zone's
  `description` to `name + " region"`. It records `description -> [lon, lat]` in the
  label cache. That position is the first two components of `coordinates[0][0][0]`, the
  first position of the first ring of the first polygon of the MultiPolygon.
- **Station transformer.** It sorts the `station_information` stations by latitude, north
  first, with a three-way comparator. It then builds one Point feature per station, with
  `id`, `name`, `capacity`, `description = name + " station"` and `tabindex` = its
  position. It records `description -> [lon, lat]` in the same cache.
- **Label cache** (`geoJSONCache`). This is a string-keyed dictionary. The zones write to
  it first and then the stations; the last write to a key wins.
- **Summary sentence.** It reports the number of region features and station features.

Modules, one file each:

- `Wrappers`: `Option`.
- `GeoJson`: positions, geometries, features, stations, and each feature's label and
  anchor position.
- `Cache`: the `LabelCache` class, the `Record` fold that specifies it, and lookup.
- `LatitudeSort`: the comparator and a reference stable sort.
- `Zones`, `Stations`: the two transformers, as loops over a `LabelCache`.
- `Summary`: the sentence.
- `DataLoad`: the whole load and its end-to-end properties.

## Model

| member | source | states |
|---|---|---|
| `Cache.LabelCache.constructor` | index.js:31 | the cache starts empty |
| `Cache.LabelCache.Put` | index.js:41 | a write sets one key to the given position and leaves every other key as it was |
| `Cache.Lookup` | index.js:129 | reading an own key of the cache gives its stored position, or nothing (`undefined`) exactly when the key was never written |
| `Cache.Record` | index.js:79 | a run of `cache[key] = position` writes, as each transformer performs them (lines 41 and 79), never removes a key |
| `Cache.RecordKeys` | index.js:41 | after a run of writes, the keys are the old keys plus every key written |
| `Cache.RecordLastWriteWins` | index.js:79 | a key holds the value of its last write |
| `Cache.RecordUntouched` | index.js:41 | a key that no write touches keeps its presence and its value |
| `Cache.RecordAgreeing` | index.js:79 | a written key whose writes all store the same value holds that value |
| `Cache.RecordAppend` | index.js:33-87 | the zone writes followed by the station writes equal one run of writes over both |
| `GeoJson.Anchor` | index.js:40 | a multi-polygon's recorded position is a prefix of `coordinates[0][0][0]`, of length two when the position has two or more components, so any altitude is dropped; a point's recorded position is the point itself |
| `GeoJson.Entries` | index.js:41 | the cache writes of a feature sequence are one write per feature, in feature order |
| `LatitudeSort.CompareLatitude` | index.js:52-58 | the comparator is negative when `a` lies further north, positive when `b` does, and zero on equal latitudes; it only returns -1, 0 or 1 |
| `LatitudeSort.ComparatorConsistent` | index.js:50-58 | the comparator is antisymmetric, reflexive-zero and transitive, which is what `Array.prototype.sort` requires of it |
| `LatitudeSort.SortByLatitude` | index.js:50 | the sorted sequence stands for the engine's sort of the stations and has as many stations as the input; its order, permutation and stability are the lemmas below |
| `LatitudeSort.SortOrdered` | index.js:50 | the sorted stations run north to south: latitude never increases |
| `LatitudeSort.SortPermutes` | index.js:50 | the sorted stations are a permutation (same multiset) of the input |
| `LatitudeSort.SortSameStations` | index.js:50 | a station occurs in the sorted order exactly when it occurs in the input |
| `LatitudeSort.SortStable` | index.js:50 | the sort is stable: the stations at any one latitude keep their input order |
| `LatitudeSort.StableOrderUnique` | index.js:50-58 | two north-to-south orders that agree at every latitude are equal, so every stable sort with this comparator gives the modelled order |
| `Zones.DescribeZone` | index.js:36-37 | a processed zone gains the label `name + " region"`; its name, its other properties and its geometry are unchanged |
| `Zones.ZoneFeatures` | index.js:33-48 | the zone collection has one feature per input zone, in input order, each the input zone with its description added |
| `Zones.TransformZones` | index.js:33-48 | the loop returns the zone collection, and the cache becomes the old cache with one write per zone feature, in order |
| `Stations.StationFeature` | index.js:62-75 | a station feature's geometry is the Point `[lon, lat]`, which is also its recorded position; it has label `name + " station"`, `id`, `name` and `capacity` copied, and `tabindex` equal to the given index |
| `Stations.StationFeatures` | index.js:59-87 | the station collection has one feature per sorted station, in sorted order, the one at position `i` built with `tabindex = i` |
| `Stations.TransformStations` | index.js:50-87 | the method returns the stations in sorted order and their features, and the cache becomes the old cache with one write per station feature, in sorted order |
| `Stations.StationOrder` | index.js:59-69 | in output order there are as many features as input stations; the tab indexes are exactly 0, 1, ..., n-1; latitude never increases; and the order is a stable permutation of the input |
| `Summary.Decimal` | index.js:169 | a count is rendered as a non-empty run of decimal digits with no leading zero |
| `Summary.DecimalRoundTrip` | index.js:169 | reading back a rendered count gives the count |
| `Summary.Sentence` | index.js:169 | the sentence carries the region count as digits at offset 21 and the station count as digits right after `" regions and "`, and each reads back as the count |
| `Summary.SentenceDeterminesCounts` | index.js:169 | the sentence determines both counts: different region or station counts give different sentences |
| `DataLoad.LoadData` | index.js:31-169 | the cache is a new object; the load returns the zone collection, the sorted stations and their collection; the cache is the zone writes followed by the station writes; the sentence reports the input zone count and station count |
| `DataLoad.LabelsNeverCollide` | index.js:37 | a zone label never equals a station label, because the suffixes `" region"` and `" station"` differ |
| `DataLoad.LabelsNotInherited` | index.js:31 | no zone or station label is a name the plain object `{}` inherits from `Object.prototype`, so label reads only ever see keys the transformers wrote |
| `DataLoad.ZoneLabelInjective` | index.js:37 | zones with different names get different labels |
| `DataLoad.StationLabelInjective` | index.js:68 | stations with different names get different labels |
| `DataLoad.LabelSetsDisjoint` | index.js:68 | the zone label set and the station label set are disjoint |
| `DataLoad.LoadedCacheKeys` | index.js:41-79 | the final cache keys are exactly the zone labels together with the station labels |
| `DataLoad.LoadedCacheRoundTrip` | index.js:78-79 | a feature's label resolves to that feature's own position when no later feature, with zones before stations, shares the label |
| `DataLoad.ZoneRoundTrip` | index.js:40-41 | a zone whose name no later zone repeats resolves to the first two components of its first vertex, and the station writes never overwrite it |
| `DataLoad.StationRoundTrip` | index.js:78-79 | a station whose name no other station shares resolves to its `[lon, lat]`, and the earlier zone writes never shadow it |
| `DataLoad.UnknownLabelAbsent` | index.js:129 | a label that is neither a zone label nor a station label is not an own key of the cache |
| `DataLoad.ExampleOrder` | index.js:50-87 | example: station B (latitude 52.9) comes before station A (52.1) and gets tab index 0 |
| `DataLoad.ExampleCache` | index.js:33-87 | example: the cache is exactly "Central region" -> [-1.9, 52.5] (altitude dropped), "A station" -> [-1.8, 52.1] and "B station" -> [-1.7, 52.9] |
| `DataLoad.ExampleSentence` | index.js:169 | example: one zone and two stations give "The map displays the 1 regions and 2 stations of Beryl bike share scheme in West Midlands." |

## Notes on the code

- The click/keydown handler at `index.js:129-132` does not check that the label it reads
  is in the cache. For an unknown label it passes `undefined` on to `setLngLat`.
  `Cache.Lookup` models only the dictionary read, and the handler itself is left out.
- The comment at `index.js:28` says the cache stores `[lat, long]`. The code stores
  `[lon, lat]`, at lines 40 and 73, and so does the model.
- The comparator at `index.js:50-58` returns 0 on equal latitudes. The station order is
  therefore non-increasing by latitude, not strictly decreasing, and it is stable. That is
  what the model proves.

## Left out

- Map construction, navigation controls, the two layers and the accessibility control
  (`index.js:4-14`, `89-125`): these are calls into an external rendering library.
- The two fetches and their `Promise.all` join (`index.js:17-26`): this is network I/O.
  The model takes the parsed zone features and stations as parameters.
- The click and keydown listeners, the popup and the focus restoration
  (`index.js:127-167`): this is DOM glue. Only the cache read that the handler performs
  is modelled.
- Appending the sentence to the map container (`index.js:170`): the model returns the
  sentence.
- The engine's sort algorithm: a stable insertion sort stands in for it.
  `StableOrderUnique` shows that any stable sort with this comparator gives the same
  order.
- Updates in place and aliasing:
  - The zone step writes `description` into the fetched feature objects themselves.
  - `sort` reorders the fetched station array in place.
  - A station's cache value is the same array as its feature's coordinates.
  - The model works on values instead. It returns the described zones and the sorted
    station sequence. Nothing in the script reads the originals afterwards.
- Malformed zone geometry: a zone that is not a MultiPolygon with a first polygon, ring
  and position makes the script throw. `Zones.IsZone` is a precondition.
- Missing GBFS fields: a missing `name` would give the label `"undefined region"`. The
  model takes names, ids and capacities as present.
- The station identifier: GBFS v2 names it `station_id`, but `index.js:65` reads
  `station.id`, which a conforming feed leaves `undefined`. The model's `Station.id` is a
  string; that `undefined` is not modelled.
- The values of a zone's other properties (`start`, `end`, `rules`): they are carried
  through unread and are held as text.
- Floating point: coordinates are `real`, since they are only compared and copied.
  NaN latitudes, which would make the comparator inconsistent, are not modelled.
- Cache.Lookup: models reads of the cache's own keys only. The cache is a plain `{}`, so
  a read of a name inherited from `Object.prototype` (`"constructor"`, `"toString"`,
  `"__proto__"`) yields that inherited value, not `undefined`. This is not modelled. No
  zone or station label is such a name (`DataLoad.LabelsNotInherited`).
- DataLoad.UnknownLabelAbsent: states that an unknown label is not an own key of the
  cache. For the same reason as `Cache.Lookup`, it does not claim that reading an
  inherited `Object.prototype` name yields `undefined`.
- The GeoJSON `type` tags (`"Feature"`, `"FeatureCollection"`, `"Point"`): they are
  implicit in the datatype constructors.
