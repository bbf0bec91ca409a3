/**
 * A lazily maintained count of the rows of one relation (`CountCache`),
 * kept in three Redis string keys: the count, the id of the newest row it
 * covers, and when it was last brought up to date.
 *
 * The relation is given as the set of its row ids. Its `first` row is
 * taken to be its newest (largest id): the id watermark counts rows above
 * it as new. `now` is the current time in whole seconds.
 */
module CountCache {
  import opened Wrappers
  import opened RedisStore
  import opened Collections
  import opened StatusQueries

  /** A cached count is served as it is for ten minutes. */
  const FRESH_FOR: int := 600

  /** The rows the stored count covers: ids up to the stored watermark. */
  function UpTo(rows: set<int>, id: int): (r: set<int>)
    ensures r <= rows
  {
    set x | x in rows && x <= id
  }

  /** The rows newer than the watermark. */
  function Above(rows: set<int>, id: int): (r: set<int>)
    ensures r <= rows
    ensures forall x :: x in r <==> x in rows && id < x
  {
    set x | x in rows && x > id
  }

  /** The rows split at any watermark into those covered and those above it. */
  lemma SplitCount(rows: set<int>, id: int)
    ensures |UpTo(rows, id)| + |Above(rows, id)| == |rows|
  {
    assert UpTo(rows, id) + Above(rows, id) == rows;
    assert UpTo(rows, id) * Above(rows, id) == {};
  }

  /** The newest row. */
  ghost function Newest(rows: set<int>): (m: int)
    requires |rows| > 0
    ensures m in rows && forall x :: x in rows ==> x <= m
  {
    var desc := IdsDesc(rows);
    assert desc[0] in desc;
    assert forall x :: x in rows ==> x <= desc[0] by {
      forall x | x in rows ensures x <= desc[0] {
        assert x in desc;
        var i :| 0 <= i < |desc| && desc[i] == x;
        if i > 0 {
          assert desc[0] > desc[i];
        }
      }
    }
    desc[0]
  }

  /** The three keys, `count_cache:<table>:<name>:` followed by `count`, `id` and `time`. */
  datatype Keys = Keys(count: string, id: string, time: string)

  function KeysFor(tableName: string, name: string): (k: Keys)
    ensures k.count != k.id && k.count != k.time && k.id != k.time
    ensures k.count != "" && k.id != "" && k.time != ""
  {
    var prefix := "count_cache:" + tableName + ":" + name + ":";
    var k := Keys(prefix + "count", prefix + "id", prefix + "time");
    assert k.count[|k.count| - 1] == 't' && k.id[|k.id| - 1] == 'd' && k.time[|k.time| - 1] == 'e';
    k
  }

  /** Reading a missing key gives 0 (`nil.to_i`). */
  function ToI(strings: map<string, int>, key: string): int {
    if key in strings then strings[key] else 0
  }

  /**
   * The state the counter keeps: once a watermark is stored, the stored
   * count is the number of rows up to it; a stored time implies a stored
   * watermark.
   */
  ghost predicate Counted(k: Keys, strings: map<string, int>, rows: set<int>) {
    (k.time in strings ==> k.id in strings)
    && (k.id in strings ==> k.count in strings && strings[k.count] == |UpTo(rows, strings[k.id])|)
  }

  /**
   * `fetch`: with no stored time, count the relation and store count,
   * newest id and time when it has rows; with a time older than ten
   * minutes, add the rows above the stored id to the stored count and, when
   * there are any, store the sum at `countKey`, the new newest id and the
   * time; otherwise return the stored count. `countKey` is where the stale
   * branch writes the sum.
   */
  ghost function FetchSpec(k: Keys, countKey: string, strings: map<string, int>, rows: set<int>, now: int)
    : (r: (int, map<string, int>))
  {
    if k.time !in strings then
      if |rows| > 0 then (|rows|, strings[k.count := |rows|][k.id := Newest(rows)][k.time := now])
      else (|rows|, strings)
    else if strings[k.time] < now - FRESH_FOR then
      var newer := Above(rows, ToI(strings, k.id));
      var count := ToI(strings, k.count) + |newer|;
      if |newer| > 0 then (count, strings[countKey := count][k.id := Newest(newer)][k.time := now])
      else (count, strings)
    else (ToI(strings, k.count), strings)
  }

  /** A fetch of a kept counter on a stale time counts every row, and keeps the counter kept. */
  lemma FetchStaleExact(k: Keys, strings: map<string, int>, rows: set<int>, now: int)
    requires k.count != k.id && k.count != k.time && k.id != k.time
    requires Counted(k, strings, rows)
    requires k.time in strings && strings[k.time] < now - FRESH_FOR
    ensures FetchSpec(k, k.count, strings, rows, now).0 == |rows|
    ensures Counted(k, FetchSpec(k, k.count, strings, rows, now).1, rows)
  {
    var id := strings[k.id];
    SplitCount(rows, id);
    var newer := Above(rows, id);
    if |newer| > 0 {
      var m := Newest(newer);
      assert UpTo(rows, m) == rows;
    }
  }

  /** A first fetch counts every row and leaves a kept counter behind. */
  lemma FetchFirstExact(k: Keys, strings: map<string, int>, rows: set<int>, now: int)
    requires k.count != k.id && k.count != k.time && k.id != k.time
    requires Counted(k, strings, rows) && k.time !in strings
    ensures FetchSpec(k, k.count, strings, rows, now).0 == |rows|
    ensures Counted(k, FetchSpec(k, k.count, strings, rows, now).1, rows)
  {
    if |rows| > 0 {
      assert UpTo(rows, Newest(rows)) == rows;
    }
  }

  /** Within ten minutes the stored count is served: the rows up to the watermark. */
  lemma FetchFreshCovered(k: Keys, strings: map<string, int>, rows: set<int>, now: int)
    requires Counted(k, strings, rows)
    requires k.time in strings && !(strings[k.time] < now - FRESH_FOR)
    ensures FetchSpec(k, k.count, strings, rows, now) == (|UpTo(rows, strings[k.id])|, strings)
  {
  }

  /**
   * The stale branch as written stores the sum under the key of the
   * misspelt `@redi_count_key`, which is nil, so under "" (redis-rb sends
   * nil as an empty string). Counter kept at row 10, rows 11 and 12
   * added: the stale fetch answers 3, and a fetch right after it answers 1.
   */
  lemma FetchAsWrittenLosesCount(k: Keys)
    requires k.count != k.id && k.count != k.time && k.id != k.time
    requires k.count != "" && k.id != "" && k.time != ""
    ensures var rows := {10, 11, 12};
      var before := map[k.count := 1, k.id := 10, k.time := 0];
      var first := FetchSpec(k, "", before, rows, 1000);
      var second := FetchSpec(k, "", first.1, rows, 1000);
      Counted(k, before, rows) && first.0 == 3 && second.0 == 1
  {
    var rows := {10, 11, 12};
    var before := map[k.count := 1, k.id := 10, k.time := 0];
    assert UpTo(rows, 10) == {10};
    StaleFetchMisplacesSum(k);
    var first := FetchSpec(k, "", before, rows, 1000);
    assert ToI(first.1, k.count) == 1;
  }

  /** The stale fetch of the example answers 3, stores the sum at "" and leaves the count key at 1. */
  lemma StaleFetchMisplacesSum(k: Keys)
    requires k.count != k.id && k.count != k.time && k.id != k.time
    requires k.count != "" && k.id != "" && k.time != ""
    ensures var r := FetchSpec(k, "", map[k.count := 1, k.id := 10, k.time := 0], {10, 11, 12}, 1000);
      r.0 == 3 && k.count in r.1 && r.1[k.count] == 1 && k.time in r.1 && r.1[k.time] == 1000
  {
    var rows := {10, 11, 12};
    var before := map[k.count := 1, k.id := 10, k.time := 0];
    assert Above(rows, 10) == {11, 12};
    assert |{11, 12}| == 2;
    assert k.time in before && before[k.time] == 0;
    assert ToI(before, k.id) == 10 && ToI(before, k.count) == 1;
    var m1 := before["" := 3];
    assert m1[k.count] == 1;
    var m2 := m1[k.id := Newest({11, 12})];
    assert m2[k.count] == 1;
    var after := m2[k.time := 1000];
    assert after[k.count] == 1;
    assert FetchSpec(k, "", before, rows, 1000) == (3, after);
  }

  /** With the sum stored at the count key, the fetch right after answers the same. */
  lemma FetchTwiceAgrees(k: Keys, strings: map<string, int>, rows: set<int>, now: int)
    requires k.count != k.id && k.count != k.time && k.id != k.time
    requires Counted(k, strings, rows)
    ensures var first := FetchSpec(k, k.count, strings, rows, now);
      var second := FetchSpec(k, k.count, first.1, rows, now);
      (first.1 != strings ==> second.0 == first.0)
  {
    if k.time !in strings {
      FetchFirstExact(k, strings, rows, now);
    } else if strings[k.time] < now - FRESH_FOR {
      FetchStaleExact(k, strings, rows, now);
    }
  }

  /** `on_destroy`: a matching row goes away; the count drops when the watermark covered it. */
  ghost function OnDestroySpec(k: Keys, strings: map<string, int>, id: int, matches: bool): (r: map<string, int>)
  {
    if !matches || k.id !in strings || strings[k.id] < id then strings
    else strings[k.count := ToI(strings, k.count) - 1]
  }

  lemma OnDestroyKeepsCount(k: Keys, strings: map<string, int>, rows: set<int>, id: int, matches: bool)
    requires k.count != k.id && k.count != k.time && k.id != k.time
    requires Counted(k, strings, rows)
    requires matches <==> id in rows
    ensures Counted(k, OnDestroySpec(k, strings, id, matches), rows - {id})
  {
    if k.id in strings {
      var w := strings[k.id];
      if id in rows && id <= w {
        assert UpTo(rows, w) == UpTo(rows - {id}, w) + {id};
      } else {
        assert UpTo(rows, w) == UpTo(rows - {id}, w);
      }
    }
  }

  /**
   * `on_update`: a row whose match changed; the count follows it when the
   * watermark covers the row, and nothing happens when the match did not change.
   */
  ghost function OnUpdateSpec(k: Keys, strings: map<string, int>, id: int, before: bool, after: bool): (r: map<string, int>)
  {
    if before == after || k.id !in strings || strings[k.id] < id then strings
    else if after then strings[k.count := ToI(strings, k.count) + 1]
    else strings[k.count := ToI(strings, k.count) - 1]
  }

  lemma OnUpdateKeepsCount(k: Keys, strings: map<string, int>, rows: set<int>, id: int, before: bool, after: bool)
    requires k.count != k.id && k.count != k.time && k.id != k.time
    requires Counted(k, strings, rows)
    requires before <==> id in rows
    ensures Counted(k, OnUpdateSpec(k, strings, id, before, after), if after then rows + {id} else rows - {id})
  {
    var rows' := if after then rows + {id} else rows - {id};
    if k.id in strings {
      var w := strings[k.id];
      if before != after && id <= w {
        if after {
          assert UpTo(rows', w) == UpTo(rows, w) + {id};
        } else {
          assert UpTo(rows, w) == UpTo(rows', w) + {id};
        }
      } else {
        assert UpTo(rows', w) == UpTo(rows, w);
      }
    }
  }

  class Cache {
    const keys: Keys

    constructor(tableName: string, name: string)
      ensures keys == KeysFor(tableName, name)
    {
      keys := KeysFor(tableName, name);
    }

    /** The newest row, by a scan. */
    static method NewestOf(rows: set<int>) returns (m: int)
      requires |rows| > 0
      ensures m == Newest(rows)
    {
      m := Pick(rows);
      var rest := rows - {m};
      while rest != {}
        invariant rest <= rows && m in rows
        invariant forall x :: x in rows && x !in rest ==> x <= m
        decreases |rest|
      {
        var x := Pick(rest);
        if x > m {
          m := x;
        }
        rest := rest - {x};
      }
      NewestUnique(rows, m);
    }

    /** `fetch`, writing the stale-branch sum at `countKey`. */
    method FetchInto(r: Redis, countKey: string, rows: set<int>, now: int) returns (count: int)
      modifies r
      ensures (count, r.strings) == FetchSpec(keys, countKey, old(r.strings), rows, now)
      ensures r.zsets == old(r.zsets)
    {
      var time := r.Get(keys.time);
      if time.None? {
        count := |rows|;
        if |rows| > 0 {
          var first := NewestOf(rows);
          r.Set(keys.count, count);
          r.Set(keys.id, first);
          r.Set(keys.time, now);
        }
      } else if time.value < now - FRESH_FOR {
        var stored := r.Get(keys.count);
        var id := r.Get(keys.id);
        var newer := Above(rows, id.GetOr(0));
        count := stored.GetOr(0) + |newer|;
        if |newer| > 0 {
          var first := NewestOf(newer);
          r.Set(countKey, count);
          r.Set(keys.id, first);
          r.Set(keys.time, now);
        }
      } else {
        var stored := r.Get(keys.count);
        count := stored.GetOr(0);
      }
    }

    /** `fetch` with the sum stored back at the count key. */
    method Fetch(r: Redis, rows: set<int>, now: int) returns (count: int)
      modifies r
      ensures (count, r.strings) == FetchSpec(keys, keys.count, old(r.strings), rows, now)
      ensures r.zsets == old(r.zsets)
    {
      count := FetchInto(r, keys.count, rows, now);
    }

    /** `fetch` as written: the stale-branch sum goes to the key "". */
    method FetchAsWritten(r: Redis, rows: set<int>, now: int) returns (count: int)
      modifies r
      ensures (count, r.strings) == FetchSpec(keys, "", old(r.strings), rows, now)
      ensures r.zsets == old(r.zsets)
    {
      count := FetchInto(r, "", rows, now);
    }

    /** `on_destroy` */
    method OnDestroy(r: Redis, id: int, matches: bool)
      modifies r
      ensures r.strings == OnDestroySpec(keys, old(r.strings), id, matches)
      ensures r.zsets == old(r.zsets)
    {
      if !matches {
        return;
      }
      var last := r.Get(keys.id);
      if last.None? || last.value < id {
        return;
      }
      var _ := r.IncrBy(keys.count, -1);
    }

    /** `on_update` with the match before and after the change. */
    method OnUpdate(r: Redis, id: int, before: bool, after: bool)
      modifies r
      ensures r.strings == OnUpdateSpec(keys, old(r.strings), id, before, after)
      ensures r.zsets == old(r.zsets)
    {
      if before == after {
        return;
      }
      var last := r.Get(keys.id);
      if last.None? || last.value < id {
        return;
      }
      if after {
        var _ := r.IncrBy(keys.count, 1);
      } else {
        var _ := r.IncrBy(keys.count, -1);
      }
    }
  }

  /** There is one newest row. */
  lemma NewestUnique(rows: set<int>, m: int)
    requires m in rows && forall x :: x in rows ==> x <= m
    ensures m == Newest(rows)
  {
    var n := Newest(rows);
    assert n <= m && m <= n;
  }
}
