/**
 * The label-to-coordinate cache (`geoJSONCache` in index.js): a string-keyed
 * dictionary that both transformers write into, zones first, the last write
 * to a key winning.
 */
module Cache {
  import opened Wrappers
  import opened GeoJson

  /** The dictionary as a mutable object; `Put` is `geoJSONCache[key] = position`. */
  class LabelCache {
    var entries: map<string, Position>

    constructor ()
      ensures entries == map[]
    {
      entries := map[];
    }

    method Put(key: string, position: Position)
      modifies this
      ensures entries == old(entries)[key := position]
    {
      entries := entries[key := position];
    }
  }

  /** The dictionary after the writes `ws`, applied in order to `m`. */
  function Record(m: map<string, Position>, ws: seq<(string, Position)>): (r: map<string, Position>)
    ensures m.Keys <= r.Keys
  {
    if ws == [] then m
    else Record(m, ws[..|ws| - 1])[ws[|ws| - 1].0 := ws[|ws| - 1].1]
  }

  /** The keys written by `ws`. */
  function Written(ws: seq<(string, Position)>): set<string> {
    set i | 0 <= i < |ws| :: ws[i].0
  }

  /**
   * A property read `cache[key]` of an own key: the stored position, or
   * `undefined` (None) for a key never written.
   */
  function Lookup(m: map<string, Position>, key: string): (r: Option<Position>)
    ensures r.None? <==> key !in m
    ensures r.Some? ==> r.value == m[key]
  {
    if key in m then Some(m[key]) else None
  }

  /** The keys after the writes are the old keys plus every key written. */
  lemma {:induction false} RecordKeys(m: map<string, Position>, ws: seq<(string, Position)>)
    ensures Record(m, ws).Keys == m.Keys + Written(ws)
  {
    if ws != [] {
      var front := ws[..|ws| - 1];
      RecordKeys(m, front);
      assert Written(ws) == Written(front) + {ws[|ws| - 1].0} by {
        forall k | k in Written(ws) ensures k in Written(front) + {ws[|ws| - 1].0} {
          var i :| 0 <= i < |ws| && ws[i].0 == k;
          if i < |ws| - 1 { assert front[i] == ws[i]; }
        }
        forall k | k in Written(front) ensures k in Written(ws) {
          var i :| 0 <= i < |front| && front[i].0 == k;
          assert ws[i] == front[i];
        }
      }
    }
  }

  /** Last write wins: a key ends up holding the value of its last write. */
  lemma {:induction false} RecordLastWriteWins(m: map<string, Position>, ws: seq<(string, Position)>, i: nat)
    requires i < |ws|
    requires forall j :: i < j < |ws| ==> ws[j].0 != ws[i].0
    ensures ws[i].0 in Record(m, ws) && Record(m, ws)[ws[i].0] == ws[i].1
  {
    if i < |ws| - 1 {
      var front := ws[..|ws| - 1];
      assert front[i] == ws[i];
      RecordLastWriteWins(m, front, i);
    }
  }

  /** A key every write of which stores the same value holds that value. */
  lemma {:induction false} RecordAgreeing(m: map<string, Position>, ws: seq<(string, Position)>, key: string, v: Position)
    requires key in Written(ws)
    requires forall i :: 0 <= i < |ws| && ws[i].0 == key ==> ws[i].1 == v
    ensures key in Record(m, ws) && Record(m, ws)[key] == v
  {
    var last := ws[|ws| - 1];
    if last.0 != key {
      var front := ws[..|ws| - 1];
      var i :| 0 <= i < |ws| && ws[i].0 == key;
      assert front[i] == ws[i];
      RecordAgreeing(m, front, key, v);
    }
  }

  /** A key no write touches keeps its old presence and value. */
  lemma {:induction false} RecordUntouched(m: map<string, Position>, ws: seq<(string, Position)>, k: string)
    requires forall j :: 0 <= j < |ws| ==> ws[j].0 != k
    ensures k in Record(m, ws) <==> k in m
    ensures k in m ==> Record(m, ws)[k] == m[k]
  {
    if ws != [] {
      RecordUntouched(m, ws[..|ws| - 1], k);
    }
  }

  /** One more write updates one key. */
  lemma RecordSnoc(m: map<string, Position>, ws: seq<(string, Position)>, w: (string, Position))
    ensures Record(m, ws + [w]) == Record(m, ws)[w.0 := w.1]
  {
  }

  /** Writing `a` then `b` is writing `a + b`. */
  lemma {:induction false} RecordAppend(m: map<string, Position>, a: seq<(string, Position)>, b: seq<(string, Position)>)
    ensures Record(m, a + b) == Record(Record(m, a), b)
  {
    if b == [] {
      assert a + b == a;
    } else {
      assert (a + b)[..|a + b| - 1] == a + b[..|b| - 1];
      RecordAppend(m, a, b[..|b| - 1]);
    }
  }
}
