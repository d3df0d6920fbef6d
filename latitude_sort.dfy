/**
 * The station ordering: the three-way latitude comparator handed to
 * `Array.prototype.sort`, and a reference stable sort standing for the
 * engine's (the language has required a stable sort since ES2019).
 */
module LatitudeSort {
  import opened GeoJson

  /**
   * The comparator: negative when `a` goes first (it lies further north),
   * positive when `b` goes first, zero when the latitudes are equal.
   */
  function CompareLatitude(a: Station, b: Station): (r: int)
    ensures -1 <= r <= 1
    ensures r < 0 <==> a.lat > b.lat
    ensures r > 0 <==> a.lat < b.lat
  {
    if a.lat < b.lat then 1
    else if a.lat > b.lat then -1
    else 0
  }

  /** The comparator is consistent, as `Array.prototype.sort` requires of it. */
  lemma ComparatorConsistent(a: Station, b: Station, c: Station)
    ensures CompareLatitude(a, b) == -CompareLatitude(b, a)
    ensures CompareLatitude(a, a) == 0
    ensures CompareLatitude(a, b) <= 0 && CompareLatitude(b, c) <= 0 ==> CompareLatitude(a, c) <= 0
    ensures CompareLatitude(a, b) == 0 && CompareLatitude(b, c) == 0 ==> CompareLatitude(a, c) == 0
  {
  }

  /** Every station is at least as far north as every later one. */
  ghost predicate NorthToSouth(s: seq<Station>) {
    forall i, j :: 0 <= i < j < |s| ==> s[i].lat >= s[j].lat
  }

  /** The stations of `s` at latitude `lat`, in their order in `s`. */
  function AtLatitude(s: seq<Station>, lat: real): seq<Station> {
    if s == [] then []
    else (if s[0].lat == lat then [s[0]] else []) + AtLatitude(s[1..], lat)
  }

  /** Place `x` before the first station the comparator does not put before it. */
  function Insert(x: Station, s: seq<Station>): (r: seq<Station>)
    ensures |r| == |s| + 1
  {
    if s == [] || CompareLatitude(x, s[0]) <= 0 then [x] + s
    else [s[0]] + Insert(x, s[1..])
  }

  /** A stable sort by the comparator (insertion sort, from the back). */
  function SortByLatitude(s: seq<Station>): (r: seq<Station>)
    ensures |r| == |s|
  {
    if s == [] then [] else Insert(s[0], SortByLatitude(s[1..]))
  }

  lemma {:induction false} InsertPermutes(x: Station, s: seq<Station>)
    ensures multiset(Insert(x, s)) == multiset{x} + multiset(s)
  {
    if s != [] && CompareLatitude(x, s[0]) > 0 {
      InsertPermutes(x, s[1..]);
      assert s == [s[0]] + s[1..];
    }
  }

  /** Inserting a station no further north than `lat` keeps every station at or south of `lat`. */
  lemma {:induction false} InsertBounded(x: Station, s: seq<Station>, lat: real)
    requires x.lat <= lat
    requires forall i :: 0 <= i < |s| ==> s[i].lat <= lat
    ensures forall i :: 0 <= i < |Insert(x, s)| ==> Insert(x, s)[i].lat <= lat
  {
    if s != [] && CompareLatitude(x, s[0]) > 0 {
      InsertBounded(x, s[1..], lat);
    }
  }

  lemma {:induction false} InsertOrdered(x: Station, s: seq<Station>)
    requires NorthToSouth(s)
    ensures NorthToSouth(Insert(x, s))
  {
    if s != [] && CompareLatitude(x, s[0]) > 0 {
      var rest := Insert(x, s[1..]);
      InsertOrdered(x, s[1..]);
      InsertBounded(x, s[1..], s[0].lat);
      var r := [s[0]] + rest;
      forall i, j | 0 <= i < j < |r| ensures r[i].lat >= r[j].lat {
        assert r[j] == rest[j - 1];
        if i > 0 { assert r[i] == rest[i - 1]; }
      }
    }
  }

  /** How `AtLatitude` unfolds on a sequence given as a first station and the rest. */
  lemma AtLatitudeCons(y: Station, s: seq<Station>, lat: real)
    ensures AtLatitude([y] + s, lat) == (if y.lat == lat then [y] else []) + AtLatitude(s, lat)
  {
  }

  lemma {:induction false} InsertAtLatitude(x: Station, s: seq<Station>, lat: real)
    ensures AtLatitude(Insert(x, s), lat) == (if x.lat == lat then [x] else []) + AtLatitude(s, lat)
  {
    if s == [] || CompareLatitude(x, s[0]) <= 0 {
      AtLatitudeCons(x, s, lat);
    } else {
      InsertAtLatitude(x, s[1..], lat);
      AtLatitudeCons(s[0], Insert(x, s[1..]), lat);
      AtLatitudeCons(s[0], s[1..], lat);
      assert [s[0]] + s[1..] == s;
    }
  }

  /** The sorted stations run from north to south. */
  lemma {:induction false} SortOrdered(s: seq<Station>)
    ensures NorthToSouth(SortByLatitude(s))
  {
    if s != [] {
      SortOrdered(s[1..]);
      InsertOrdered(s[0], SortByLatitude(s[1..]));
    }
  }

  /** The sorted stations are a permutation of the input. */
  lemma {:induction false} SortPermutes(s: seq<Station>)
    ensures multiset(SortByLatitude(s)) == multiset(s)
  {
    if s != [] {
      SortPermutes(s[1..]);
      InsertPermutes(s[0], SortByLatitude(s[1..]));
      assert s == [s[0]] + s[1..];
    }
  }

  /** The sorted stations are the input stations. */
  lemma SortSameStations(s: seq<Station>, t: Station)
    ensures t in SortByLatitude(s) <==> t in s
  {
    SortPermutes(s);
    assert t in SortByLatitude(s) <==> t in multiset(SortByLatitude(s));
  }

  /** The sort is stable: stations of equal latitude keep their input order. */
  lemma {:induction false} SortStable(s: seq<Station>, lat: real)
    ensures AtLatitude(SortByLatitude(s), lat) == AtLatitude(s, lat)
  {
    if s != [] {
      SortStable(s[1..], lat);
      InsertAtLatitude(s[0], SortByLatitude(s[1..]), lat);
    }
  }

  lemma AtLatitudeOfHead(s: seq<Station>)
    requires s != []
    ensures AtLatitude(s, s[0].lat) != []
  {
  }

  lemma {:induction false} AtLatitudeMember(s: seq<Station>, lat: real)
    requires AtLatitude(s, lat) != []
    ensures exists i :: 0 <= i < |s| && s[i].lat == lat
  {
    if s[0].lat != lat {
      AtLatitudeMember(s[1..], lat);
      var i :| 0 <= i < |s[1..]| && s[1..][i].lat == lat;
      assert s[i + 1].lat == lat;
    }
  }

  /** Two north-to-south orders that agree at every latitude start with the same station. */
  lemma SameHead(a: seq<Station>, b: seq<Station>)
    requires a != [] && b != []
    requires NorthToSouth(a) && NorthToSouth(b)
    requires forall lat :: AtLatitude(a, lat) == AtLatitude(b, lat)
    ensures a[0] == b[0]
  {
    AtLatitudeOfHead(a);
    AtLatitudeMember(b, a[0].lat);
    AtLatitudeOfHead(b);
    AtLatitudeMember(a, b[0].lat);
    assert a[0].lat == b[0].lat;
    assert AtLatitude(a, a[0].lat)[0] == a[0];
    assert AtLatitude(b, b[0].lat)[0] == b[0];
  }

  /** Dropping a common first station keeps the orders agreeing at `lat`. */
  lemma SameTail(a: seq<Station>, b: seq<Station>, lat: real)
    requires a != [] && b != [] && a[0] == b[0]
    requires AtLatitude(a, lat) == AtLatitude(b, lat)
    ensures AtLatitude(a[1..], lat) == AtLatitude(b[1..], lat)
  {
    if lat == a[0].lat {
      assert AtLatitude(a[1..], lat) == AtLatitude(a, lat)[1..];
      assert AtLatitude(b[1..], lat) == AtLatitude(b, lat)[1..];
    } else {
      assert AtLatitude(a, lat) == AtLatitude(a[1..], lat);
      assert AtLatitude(b, lat) == AtLatitude(b[1..], lat);
    }
  }

  /**
   * Ordered and stable pin the result down: any two north-to-south orders of
   * the same stations that agree at every latitude are equal. So every
   * conforming engine yields `SortByLatitude`'s result.
   */
  lemma {:induction false} StableOrderUnique(a: seq<Station>, b: seq<Station>)
    requires NorthToSouth(a) && NorthToSouth(b)
    requires forall lat :: AtLatitude(a, lat) == AtLatitude(b, lat)
    ensures a == b
  {
    if a == [] || b == [] {
      if a != [] {
        AtLatitudeOfHead(a);
      } else if b != [] {
        AtLatitudeOfHead(b);
      }
    } else {
      SameHead(a, b);
      forall lat ensures AtLatitude(a[1..], lat) == AtLatitude(b[1..], lat) {
        SameTail(a, b, lat);
      }
      StableOrderUnique(a[1..], b[1..]);
      assert a == [a[0]] + a[1..] && b == [b[0]] + b[1..];
    }
  }
}
