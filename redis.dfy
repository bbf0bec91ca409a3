/**
 * The slice of Redis the timeline code talks to: sorted sets keyed by
 * string and string keys holding integers, with the TTL recorded by EXPIRE.
 *
 * Each method is one Redis command and states the whole new store. Redis
 * drops a sorted set once its last member is removed (`Store`), so an empty
 * sorted set and a missing key are the same thing.
 */
module RedisStore {
  import opened Wrappers
  import opened SortedSet

  type ZSets = map<string, Timeline>

  /** The sorted set at `key`; a missing key reads as the empty set. */
  function ZOf(z: ZSets, key: string): (t: Timeline)
    ensures key !in z ==> t == map[]
  {
    if key in z then z[key] else map[]
  }

  /** Writes `t` at `key`, dropping the key when `t` is empty. */
  function Store(z: ZSets, key: string, t: Timeline): (r: ZSets)
    ensures ZOf(r, key) == t
    ensures forall k :: k != key ==> ZOf(r, k) == ZOf(z, k) && (k in r <==> k in z)
    ensures key in r <==> |t| > 0
  {
    if |t| == 0 then z - {key} else z[key := t]
  }

  /** ZADD of one (score, member) pair: insert, or move an existing member to the new score. */
  function ZAdd(t: Timeline, score: int, member: int): (r: Timeline)
    ensures member in r && r[member] == score
    ensures forall m :: m != member ==> (m in r <==> m in t) && (m in t ==> r[m] == t[m])
    ensures |r| == if member in t then |t| else |t| + 1
  {
    t[member := score]
  }

  /** ZADD key score1 member1 score2 member2 ...: the pairs are applied from left to right. */
  function ZAddPairs(t: Timeline, pairs: seq<(int, int)>): (r: Timeline)
    ensures forall i :: 0 <= i < |pairs| ==> pairs[i].1 in r
    ensures forall m :: m in r <==> m in t || exists i :: 0 <= i < |pairs| && pairs[i].1 == m
    decreases |pairs|
  {
    if pairs == [] then t
    else
      var r := ZAddPairs(ZAdd(t, pairs[0].0, pairs[0].1), pairs[1..]);
      assert forall m :: m in r <==> m in t || m == pairs[0].1 || exists i :: 1 <= i < |pairs| && pairs[i].1 == m by {
        forall m ensures m in r <==> m in t || m == pairs[0].1 || exists i :: 1 <= i < |pairs| && pairs[i].1 == m {
          if exists i :: 0 <= i < |pairs[1..]| && pairs[1..][i].1 == m {
            var i :| 0 <= i < |pairs[1..]| && pairs[1..][i].1 == m;
            assert pairs[i + 1].1 == m;
          }
          if exists i :: 1 <= i < |pairs| && pairs[i].1 == m {
            var i :| 1 <= i < |pairs| && pairs[i].1 == m;
            assert pairs[1..][i - 1].1 == m;
          }
        }
      }
      r
  }

  /**
   * A member that every pair naming it scores alike ends with that score,
   * whatever the order of the pairs.
   */
  lemma {:induction false} ZAddPairsAgreed(t: Timeline, pairs: seq<(int, int)>, m: int, score: int)
    requires (m in t && t[m] == score) || exists i :: 0 <= i < |pairs| && pairs[i].1 == m
    requires forall i :: 0 <= i < |pairs| && pairs[i].1 == m ==> pairs[i].0 == score
    ensures m in ZAddPairs(t, pairs) && ZAddPairs(t, pairs)[m] == score
    decreases |pairs|
  {
    if pairs != [] {
      var u := ZAdd(t, pairs[0].0, pairs[0].1);
      assert (m in u && u[m] == score) || exists i :: 0 <= i < |pairs[1..]| && pairs[1..][i].1 == m by {
        if pairs[0].1 != m && !(m in t && t[m] == score) {
          var i :| 0 <= i < |pairs| && pairs[i].1 == m;
          assert pairs[1..][i - 1].1 == m;
        }
      }
      forall i | 0 <= i < |pairs[1..]| && pairs[1..][i].1 == m ensures pairs[1..][i].0 == score {
        assert pairs[i + 1].1 == m;
      }
      ZAddPairsAgreed(u, pairs[1..], m, score);
    }
  }

  /** One entry of a reply WITHSCORES. */
  datatype Entry = Entry(member: int, score: int)

  class Redis {
    var zsets: ZSets
    var strings: map<string, int>
    /** Seconds to live set by EXPIRE; the clock itself is not modelled. */
    var ttl: map<string, int>

    constructor()
      ensures zsets == map[] && strings == map[] && ttl == map[]
    {
      zsets := map[];
      strings := map[];
      ttl := map[];
    }

    function ZSet(key: string): Timeline
      reads this
    {
      ZOf(zsets, key)
    }

    /** ZADD key score member */
    method ZAddOne(key: string, score: int, member: int)
      modifies this
      ensures zsets == Store(old(zsets), key, ZAdd(old(ZSet(key)), score, member))
      ensures strings == old(strings) && ttl == old(ttl)
    {
      zsets := Store(zsets, key, ZAdd(ZSet(key), score, member));
    }

    /** ZADD key score1 member1 ... with at least one pair. */
    method ZAddMany(key: string, pairs: seq<(int, int)>)
      requires |pairs| > 0
      modifies this
      ensures zsets == Store(old(zsets), key, ZAddPairs(old(ZSet(key)), pairs))
      ensures strings == old(strings) && ttl == old(ttl)
    {
      zsets := Store(zsets, key, ZAddPairs(ZSet(key), pairs));
    }

    /** ZREM key members... */
    method ZRem(key: string, members: set<int>)
      modifies this
      ensures zsets == Store(old(zsets), key, RemoveMembers(old(ZSet(key)), members))
      ensures strings == old(strings) && ttl == old(ttl)
    {
      zsets := Store(zsets, key, RemoveMembers(ZSet(key), members));
    }

    /** ZREMRANGEBYSCORE key lo hi (inclusive bounds). */
    method ZRemRangeByScore(key: string, lo: int, hi: int)
      modifies this
      ensures zsets == Store(old(zsets), key, RemoveRange(old(ZSet(key)), lo, hi))
      ensures strings == old(strings) && ttl == old(ttl)
    {
      zsets := Store(zsets, key, RemoveRange(ZSet(key), lo, hi));
    }

    /** ZREMRANGEBYSCORE key -inf (threshold */
    method ZRemBelow(key: string, threshold: int)
      modifies this
      ensures zsets == Store(old(zsets), key, RemoveBelow(old(ZSet(key)), threshold))
      ensures strings == old(strings) && ttl == old(ttl)
    {
      zsets := Store(zsets, key, RemoveBelow(ZSet(key), threshold));
    }

    /** ZCARD key */
    method ZCard(key: string) returns (n: nat)
      ensures n == |ZSet(key)|
    {
      n := |ZSet(key)|;
    }

    /** ZREVRANK key member: nil when the member is absent. */
    method ZRevRank(key: string, member: int) returns (r: Option<nat>)
      ensures r == RevRank(ZSet(key), member)
      ensures r.Some? ==> member in ZSet(key) && r.value < |ZSet(key)|
    {
      var t := ZSet(key);
      if member !in t {
        return None;
      }
      var o := ComputeOrdered(t);
      OrderedSpec(t);
      var i := FirstIndex(o, member);
      r := Some(i);
    }

    /** ZREVRANGE key i i WITHSCORES: the entry at 0-based descending position `i`. */
    method ZRevRangeAt(key: string, i: nat) returns (r: Option<Entry>)
      ensures OrderedLength(ZSet(key))
      ensures r.None? <==> i >= |ZSet(key)|
      ensures r.Some? ==> (r.value.member == Ordered(ZSet(key))[i]
        && r.value.member in ZSet(key) && r.value.score == ZSet(key)[r.value.member])
    {
      var t := ZSet(key);
      OrderedSpec(t);
      if i >= |t| {
        return None;
      }
      var o := ComputeOrdered(t);
      r := Some(Entry(o[i], t[o[i]]));
    }

    /** ZRANGE key 0 0 WITHSCORES: the lowest-ranked entry's score, nil when empty. */
    method ZLowestScore(key: string) returns (r: Option<int>)
      ensures r.None? <==> |ZSet(key)| == 0
      ensures r.Some? ==> r.value == LowestScore(ZSet(key))
    {
      var t := ZSet(key);
      if |t| == 0 {
        return None;
      }
      var o := ComputeOrdered(t);
      OrderedSpec(t);
      r := Some(t[o[|o| - 1]]);
    }

    /** ZRANGE key 0 -1: every member, lowest-ranked first. */
    method ZMembers(key: string) returns (s: seq<int>)
      ensures forall m :: m in s <==> m in ZSet(key)
    {
      var t := ZSet(key);
      s := ComputeOrdered(t);
      OrderedSpec(t);
      s := Reverse(s);
    }

    /** EXISTS key (on a string key). */
    method Exists(key: string) returns (b: bool)
      ensures b <==> key in strings
    {
      b := key in strings;
    }

    /** GET key */
    method Get(key: string) returns (v: Option<int>)
      ensures v.Some? <==> key in strings
      ensures v.Some? ==> v.value == strings[key]
    {
      v := if key in strings then Some(strings[key]) else None;
    }

    /** MGET keys...: one reply per key, in order. */
    method MGet(keys: seq<string>) returns (vs: seq<Option<int>>)
      ensures |vs| == |keys|
      ensures forall i :: 0 <= i < |keys| ==> (vs[i].Some? <==> keys[i] in strings)
      ensures forall i :: 0 <= i < |keys| ==> vs[i].Some? ==> vs[i].value == strings[keys[i]]
    {
      vs := [];
      var i := 0;
      while i < |keys|
        invariant 0 <= i <= |keys| && |vs| == i
        invariant forall j :: 0 <= j < i ==> (vs[j].Some? <==> keys[j] in strings)
        invariant forall j :: 0 <= j < i ==> vs[j].Some? ==> vs[j].value == strings[keys[j]]
      {
        var v := if keys[i] in strings then Some(strings[keys[i]]) else None;
        vs := vs + [v];
        i := i + 1;
      }
    }

    /** SET key value (clears any TTL). */
    method Set(key: string, value: int)
      modifies this
      ensures strings == old(strings)[key := value]
      ensures ttl == old(ttl) - {key} && zsets == old(zsets)
    {
      strings := strings[key := value];
      ttl := ttl - {key};
    }

    /** SETNX key value: true when this call created the key. */
    method SetNx(key: string, value: int) returns (created: bool)
      modifies this
      ensures created <==> key !in old(strings)
      ensures strings == if created then old(strings)[key := value] else old(strings)
      ensures ttl == old(ttl) && zsets == old(zsets)
    {
      created := key !in strings;
      if created {
        strings := strings[key := value];
      }
    }

    /** EXPIRE key seconds: true when the key exists. */
    method Expire(key: string, seconds: int) returns (set_: bool)
      modifies this
      ensures set_ <==> key in old(strings) || key in old(zsets)
      ensures ttl == if set_ then old(ttl)[key := seconds] else old(ttl)
      ensures strings == old(strings) && zsets == old(zsets)
    {
      set_ := key in strings || key in zsets;
      if set_ {
        ttl := ttl[key := seconds];
      }
    }

    /** DEL key */
    method Del(key: string)
      modifies this
      ensures zsets == old(zsets) - {key}
      ensures strings == old(strings) - {key}
      ensures ttl == old(ttl) - {key}
    {
      zsets := zsets - {key};
      strings := strings - {key};
      ttl := ttl - {key};
    }

    /** INCRBY key n: a missing key counts from 0; the TTL is kept. */
    method IncrBy(key: string, n: int) returns (v: int)
      modifies this
      ensures v == (if key in old(strings) then old(strings)[key] else 0) + n
      ensures strings == old(strings)[key := v]
      ensures ttl == old(ttl) && zsets == old(zsets)
    {
      v := (if key in strings then strings[key] else 0) + n;
      strings := strings[key := v];
    }
  }

  ghost predicate OrderedLength(t: Timeline) {
    |Ordered(t)| == |t|
  }

  function Reverse(s: seq<int>): (r: seq<int>)
    ensures |r| == |s|
    ensures forall i :: 0 <= i < |s| ==> r[i] == s[|s| - 1 - i]
    ensures forall x :: x in r <==> x in s
  {
    if s == [] then []
    else
      var r := Reverse(s[1..]) + [s[0]];
      assert forall x :: x in s ==> x in r by {
        forall x | x in s ensures x in r {
          var i :| 0 <= i < |s| && s[i] == x;
          assert r[|s| - 1 - i] == x;
        }
      }
      r
  }
}
