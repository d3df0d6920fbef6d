/**
 * The whole data load of the map's `load` handler, after both feeds have
 * arrived: the zone transformer, then the station transformer, both
 * writing into one label cache, then the summary sentence.
 */
module DataLoad {
  import opened Wrappers
  import opened GeoJson
  import opened Cache
  import opened LatitudeSort
  import opened Zones
  import opened Stations
  import opened Summary

  /** The labels of the zones. */
  function ZoneLabels(zones: seq<Feature>): set<string> {
    set i | 0 <= i < |zones| :: ZoneLabel(zones[i].properties.name)
  }

  /** The labels of the stations. */
  function StationLabels(stations: seq<Station>): set<string> {
    set s | s in stations :: StationLabel(s.name)
  }

  /** Every feature built, in the order its cache write happens: zones, then stations. */
  function LoadedFeatures(zones: seq<Feature>, stations: seq<Station>): (r: seq<Feature>)
    requires forall i :: 0 <= i < |zones| ==> IsZone(zones[i])
    ensures forall i :: 0 <= i < |r| ==> Cacheable(r[i])
  {
    ZoneFeatures(zones) + StationFeatures(SortByLatitude(stations))
  }

  /** The cache once both transformers have run. */
  function LoadedCache(zones: seq<Feature>, stations: seq<Station>): map<string, Position>
    requires forall i :: 0 <= i < |zones| ==> IsZone(zones[i])
  {
    Record(map[], Entries(LoadedFeatures(zones, stations)))
  }

  /**
   * The load: zones, then stations, into one fresh cache, then the sentence
   * from the two collections' lengths.
   */
  method LoadData(zones: seq<Feature>, stations: seq<Station>)
    returns (regions: FeatureCollection, sorted: seq<Station>, points: FeatureCollection,
             cache: LabelCache, sentence: string)
    requires forall i :: 0 <= i < |zones| ==> IsZone(zones[i])
    ensures fresh(cache)
    ensures regions.features == ZoneFeatures(zones)
    ensures sorted == SortByLatitude(stations)
    ensures points.features == StationFeatures(sorted)
    ensures cache.entries == LoadedCache(zones, stations)
    ensures sentence == Sentence(|zones|, |stations|)
  {
    cache := new LabelCache();
    regions := TransformZones(zones, cache);
    sorted, points := TransformStations(stations, cache);
    EntriesAppend(regions.features, points.features);
    RecordAppend(map[], Entries(regions.features), Entries(points.features));
    sentence := Sentence(|regions.features|, |points.features|);
  }

  /** A zone label and a station label never collide: the suffixes differ. */
  lemma LabelsNeverCollide(zoneName: string, stationName: string)
    ensures ZoneLabel(zoneName) != StationLabel(stationName)
  {
    var z, s := ZoneLabel(zoneName), StationLabel(stationName);
    assert z[|z| - 4] == 'g';
    assert s[|s| - 4] == 't';
  }

  /** The property names a plain object `{}` inherits from `Object.prototype`. */
  const InheritedNames: set<string> := {
    "constructor", "hasOwnProperty", "isPrototypeOf", "propertyIsEnumerable",
    "toLocaleString", "toString", "valueOf", "__proto__",
    "__defineGetter__", "__defineSetter__", "__lookupGetter__", "__lookupSetter__"
  }

  /** No label is an inherited name, so every label read sees only own keys. */
  lemma LabelsNotInherited(name: string)
    ensures ZoneLabel(name) !in InheritedNames && StationLabel(name) !in InheritedNames
  {
    var z, s := ZoneLabel(name), StationLabel(name);
    assert z[|z| - 1] == 'n' && s[|s| - 1] == 'n';
  }

  /** Zone labels are distinct for distinct names. */
  lemma ZoneLabelInjective(a: string, b: string)
    ensures ZoneLabel(a) == ZoneLabel(b) ==> a == b
  {
    assert ZoneLabel(a)[..|a|] == a && ZoneLabel(b)[..|b|] == b;
  }

  /** Station labels are distinct for distinct names. */
  lemma StationLabelInjective(a: string, b: string)
    ensures StationLabel(a) == StationLabel(b) ==> a == b
  {
    assert StationLabel(a)[..|a|] == a && StationLabel(b)[..|b|] == b;
  }

  /** No zone label is a station label. */
  lemma LabelSetsDisjoint(zones: seq<Feature>, stations: seq<Station>)
    ensures ZoneLabels(zones) !! StationLabels(stations)
  {
    forall i, s | 0 <= i < |zones| && s in stations
      ensures ZoneLabel(zones[i].properties.name) != StationLabel(s.name)
    {
      LabelsNeverCollide(zones[i].properties.name, s.name);
    }
  }

  /** The write made for zone `i`: its label and the first two components of its first vertex. */
  lemma ZoneEntry(zones: seq<Feature>, stations: seq<Station>, i: nat)
    requires forall j :: 0 <= j < |zones| ==> IsZone(zones[j])
    requires i < |zones|
    ensures i < |Entries(LoadedFeatures(zones, stations))|
    ensures Entries(LoadedFeatures(zones, stations))[i]
      == (ZoneLabel(zones[i].properties.name), FirstTwo(zones[i].geometry.polygons[0][0][0]))
  {
  }

  /** The write made for the station at position `k` of the sorted order: its label and `[lon, lat]`. */
  lemma StationEntry(zones: seq<Feature>, stations: seq<Station>, k: nat)
    requires forall j :: 0 <= j < |zones| ==> IsZone(zones[j])
    requires k < |stations|
    ensures |zones| + k < |Entries(LoadedFeatures(zones, stations))|
    ensures var t := SortByLatitude(stations)[k];
      Entries(LoadedFeatures(zones, stations))[|zones| + k] == (StationLabel(t.name), [t.lon, t.lat])
  {
  }

  /** The key of the `i`-th write is a zone label or a station label. */
  lemma WrittenLabelKnown(zones: seq<Feature>, stations: seq<Station>, i: nat)
    requires forall j :: 0 <= j < |zones| ==> IsZone(zones[j])
    requires i < |zones| + |stations|
    ensures i < |Entries(LoadedFeatures(zones, stations))|
    ensures Entries(LoadedFeatures(zones, stations))[i].0 in ZoneLabels(zones) + StationLabels(stations)
  {
    if i < |zones| {
      ZoneEntry(zones, stations, i);
      assert ZoneLabel(zones[i].properties.name) in ZoneLabels(zones);
    } else {
      var t := SortByLatitude(stations)[i - |zones|];
      StationEntry(zones, stations, i - |zones|);
      SortSameStations(stations, t);
      assert StationLabel(t.name) in StationLabels(stations);
    }
  }

  /** Every written key is a zone label or a station label. */
  lemma WrittenLabelsAreKnown(zones: seq<Feature>, stations: seq<Station>)
    requires forall i :: 0 <= i < |zones| ==> IsZone(zones[i])
    ensures Written(Entries(LoadedFeatures(zones, stations))) <= ZoneLabels(zones) + StationLabels(stations)
  {
    var ws := Entries(LoadedFeatures(zones, stations));
    forall k | k in Written(ws) ensures k in ZoneLabels(zones) + StationLabels(stations) {
      var i :| 0 <= i < |ws| && ws[i].0 == k;
      WrittenLabelKnown(zones, stations, i);
    }
  }

  /** Every zone label and every station label is written. */
  lemma KnownLabelsAreWritten(zones: seq<Feature>, stations: seq<Station>)
    requires forall i :: 0 <= i < |zones| ==> IsZone(zones[i])
    ensures ZoneLabels(zones) + StationLabels(stations) <= Written(Entries(LoadedFeatures(zones, stations)))
  {
    var ws := Entries(LoadedFeatures(zones, stations));
    forall k | k in ZoneLabels(zones) + StationLabels(stations) ensures k in Written(ws) {
      if k in ZoneLabels(zones) {
        var i :| 0 <= i < |zones| && k == ZoneLabel(zones[i].properties.name);
        ZoneEntry(zones, stations, i);
      } else {
        var s :| s in stations && k == StationLabel(s.name);
        var sorted := SortByLatitude(stations);
        SortSameStations(stations, s);
        var j :| 0 <= j < |sorted| && sorted[j] == s;
        StationEntry(zones, stations, j);
      }
    }
  }

  /** The final key set is exactly every zone label and every station label. */
  lemma LoadedCacheKeys(zones: seq<Feature>, stations: seq<Station>)
    requires forall i :: 0 <= i < |zones| ==> IsZone(zones[i])
    ensures LoadedCache(zones, stations).Keys == ZoneLabels(zones) + StationLabels(stations)
  {
    RecordKeys(map[], Entries(LoadedFeatures(zones, stations)));
    WrittenLabelsAreKnown(zones, stations);
    KnownLabelsAreWritten(zones, stations);
  }

  /**
   * Round trip, last write wins: the label of a feature that no later feature
   * (in processing order) shares resolves to that feature's own position.
   */
  lemma LoadedCacheRoundTrip(zones: seq<Feature>, stations: seq<Station>, i: nat)
    requires forall j :: 0 <= j < |zones| ==> IsZone(zones[j])
    requires i < |LoadedFeatures(zones, stations)|
    requires var fs := LoadedFeatures(zones, stations);
      forall j :: i < j < |fs| ==> Label(fs[j]) != Label(fs[i])
    ensures var fs := LoadedFeatures(zones, stations);
      Lookup(LoadedCache(zones, stations), Label(fs[i])) == Some(Anchor(fs[i].geometry))
  {
    var fs := LoadedFeatures(zones, stations);
    RecordLastWriteWins(map[], Entries(fs), i);
  }

  /**
   * A zone whose name no later zone repeats resolves to the first two
   * components of its first vertex; stations never overwrite it.
   */
  lemma ZoneRoundTrip(zones: seq<Feature>, stations: seq<Station>, i: nat)
    requires forall j :: 0 <= j < |zones| ==> IsZone(zones[j])
    requires i < |zones|
    requires forall j :: i < j < |zones| ==> zones[j].properties.name != zones[i].properties.name
    ensures Lookup(LoadedCache(zones, stations), ZoneLabel(zones[i].properties.name))
      == Some(FirstTwo(zones[i].geometry.polygons[0][0][0]))
  {
    var ws := Entries(LoadedFeatures(zones, stations));
    var key := ZoneLabel(zones[i].properties.name);
    ZoneEntry(zones, stations, i);
    forall j | i < j < |ws| ensures ws[j].0 != key {
      if j < |zones| {
        ZoneEntry(zones, stations, j);
        ZoneLabelInjective(zones[j].properties.name, zones[i].properties.name);
      } else {
        StationEntry(zones, stations, j - |zones|);
        LabelsNeverCollide(zones[i].properties.name, SortByLatitude(stations)[j - |zones|].name);
      }
    }
    RecordLastWriteWins(map[], ws, i);
  }

  /** No zone write is under a station label. */
  lemma ZoneWriteNotStation(zones: seq<Feature>, stations: seq<Station>, name: string, i: nat)
    requires forall j :: 0 <= j < |zones| ==> IsZone(zones[j])
    requires i < |zones|
    ensures i < |Entries(LoadedFeatures(zones, stations))|
    ensures Entries(LoadedFeatures(zones, stations))[i].0 != StationLabel(name)
  {
    ZoneEntry(zones, stations, i);
    LabelsNeverCollide(zones[i].properties.name, name);
  }

  /** Under unique station names, every write of a station's label stores its `[lon, lat]`. */
  lemma StationWriteIsOwn(zones: seq<Feature>, stations: seq<Station>, s: Station, k: nat)
    requires forall j :: 0 <= j < |zones| ==> IsZone(zones[j])
    requires forall t :: t in stations && t.name == s.name ==> t == s
    requires k < |stations|
    ensures |zones| + k < |Entries(LoadedFeatures(zones, stations))|
    ensures var w := Entries(LoadedFeatures(zones, stations))[|zones| + k];
      w.0 == StationLabel(s.name) ==> w.1 == [s.lon, s.lat]
  {
    var t := SortByLatitude(stations)[k];
    StationEntry(zones, stations, k);
    SortSameStations(stations, t);
    StationLabelInjective(t.name, s.name);
  }

  /**
   * A station whose name no other station record shares resolves to
   * `[lon, lat]`; zones written earlier never shadow it.
   */
  lemma StationRoundTrip(zones: seq<Feature>, stations: seq<Station>, s: Station)
    requires forall j :: 0 <= j < |zones| ==> IsZone(zones[j])
    requires s in stations
    requires forall t :: t in stations && t.name == s.name ==> t == s
    ensures Lookup(LoadedCache(zones, stations), StationLabel(s.name)) == Some([s.lon, s.lat])
  {
    var ws := Entries(LoadedFeatures(zones, stations));
    var sorted := SortByLatitude(stations);
    SortSameStations(stations, s);
    var k :| 0 <= k < |sorted| && sorted[k] == s;
    StationEntry(zones, stations, k);
    forall i | 0 <= i < |ws| ensures ws[i].0 == StationLabel(s.name) ==> ws[i].1 == [s.lon, s.lat] {
      if i < |zones| {
        ZoneWriteNotStation(zones, stations, s.name, i);
      } else {
        StationWriteIsOwn(zones, stations, s, i - |zones|);
      }
    }
    RecordAgreeing(map[], ws, StationLabel(s.name), [s.lon, s.lat]);
  }

  /** A label neither transformer wrote is not an own key of the cache. */
  lemma UnknownLabelAbsent(zones: seq<Feature>, stations: seq<Station>, key: string)
    requires forall i :: 0 <= i < |zones| ==> IsZone(zones[i])
    requires key !in ZoneLabels(zones) && key !in StationLabels(stations)
    ensures Lookup(LoadedCache(zones, stations), key) == None
  {
    LoadedCacheKeys(zones, stations);
  }

  /*
   * A worked example: one zone "Central" whose first vertex is
   * (-1.9, 52.5, 0), station A at latitude 52.1 and station B at 52.9.
   */
  const Central := Feature(ZoneProperties("Central", None, map[]), MultiPolygon([[[[-1.9, 52.5, 0.0]]]]))
  const StationA := Station("a", "A", 10, 52.1, -1.8)
  const StationB := Station("b", "B", 12, 52.9, -1.7)

  /** B lies further north, so it is visited first and gets tab index 0. */
  lemma ExampleOrder()
    ensures SortByLatitude([StationA, StationB]) == [StationB, StationA]
    ensures StationFeatures(SortByLatitude([StationA, StationB]))
      == [StationFeature(StationB, 0), StationFeature(StationA, 1)]
  {
    var a, b := StationA, StationB;
    assert [a, b][1..] == [b];
    assert SortByLatitude([b]) == [b] by { assert [b][1..] == []; }
    assert Insert(a, [b]) == [b] + Insert(a, []);
    assert [b, a][..1] == [b];
  }

  /** The cache holds the zone's vertex without its altitude, and each station's point. */
  lemma ExampleCache()
    ensures LoadedCache([Central], [StationA, StationB])
      == map["Central region" := [-1.9, 52.5], "A station" := [-1.8, 52.1], "B station" := [-1.7, 52.9]]
  {
    ExampleOrder();
    var fs := LoadedFeatures([Central], [StationA, StationB]);
    assert fs == [DescribeZone(Central), StationFeature(StationB, 0), StationFeature(StationA, 1)];
    var ws := Entries(fs);
    assert ZoneLabel("Central") == "Central region";
    assert StationLabel("A") == "A station" && StationLabel("B") == "B station";
    assert FirstTwo([-1.9, 52.5, 0.0]) == [-1.9, 52.5];
    assert ws == [("Central region", [-1.9, 52.5]), ("B station", [-1.7, 52.9]), ("A station", [-1.8, 52.1])];
    assert ws[..2][..1] == ws[..1] && ws[..1][..0] == [];
    assert Record(map[], ws[..1]) == map["Central region" := [-1.9, 52.5]];
    assert Record(map[], ws[..2]) == map["Central region" := [-1.9, 52.5], "B station" := [-1.7, 52.9]];
  }

  /** The sentence reports one region and two stations (the literal is split for the verifier, as in `Sentence`). */
  lemma ExampleSentence()
    ensures Sentence(|[Central]|, |[StationA, StationB]|)
      == "The map displays the 1 regions and 2 stations of Beryl" + " bike share scheme in West Midlands."
  {
    assert Decimal(1) == "1" && Decimal(2) == "2";
    assert "The map displays the " + "1" + " regions and " + "2" + " stations of Beryl"
      == "The map displays the 1 regions and 2 stations of Beryl";
  }
}
