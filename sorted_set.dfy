/**
 * A Redis sorted set holding one timeline: each member (a status id) has
 * one score (the ordering key). Members are unique by construction of the
 * map, which is Redis's set semantics for ZADD.
 *
 * Redis orders a sorted set by score and breaks ties by member; the
 * reverse order (ZREVRANGE, ZREVRANK) is what the timeline code reads.
 * `Ordered` is that reverse order, computed by repeatedly taking the top
 * entry, and `OrderedSpec` proves it is a sorted permutation of the members.
 */
module SortedSet {
  import opened Wrappers
  import opened Collections

  /** member -> score */
  type Timeline = map<int, int>

  /**
   * `a` comes strictly before `b` in descending (ZREVRANGE) order. Equal
   * scores are ordered by the member as a number; Redis compares the
   * members' strings instead, which differs only between equal scores.
   */
  predicate Before(t: Timeline, a: int, b: int)
    requires a in t && b in t
  {
    t[a] > t[b] || (t[a] == t[b] && a > b)
  }

  predicate IsTop(t: Timeline, m: int)
    requires m in t
  {
    forall m' :: m' in t && m' != m ==> Before(t, m, m')
  }

  function Remove(t: Timeline, m: int): (r: Timeline)
    requires m in t
    ensures |r| == |t| - 1
    ensures forall x :: x in r <==> x in t && x != m
    ensures forall x :: x in r ==> r[x] == t[x]
  {
    var r := t - {m};
    assert r.Keys == t.Keys - {m};
    r
  }

  lemma {:induction false} TopExists(t: Timeline)
    requires |t| > 0
    ensures exists m :: m in t && IsTop(t, m)
    decreases |t|
  {
    var x := SomeOf(t.Keys);
    var rest := Remove(t, x);
    if |rest| == 0 {
      assert rest.Keys == {};
      assert IsTop(t, x);
    } else {
      TopExists(rest);
      var r :| r in rest && IsTop(rest, r);
      if Before(t, x, r) {
        assert IsTop(t, x);
      } else {
        assert IsTop(t, r) by {
          forall m' | m' in t && m' != r ensures Before(t, r, m') {
            assert m' != x ==> m' in rest && Before(rest, r, m');
          }
        }
      }
    }
  }

  lemma TopUnique(t: Timeline, a: int, b: int)
    requires a in t && b in t && IsTop(t, a) && IsTop(t, b)
    ensures a == b
  {
  }

  /** The first member in descending order: highest score, ties to the higher member. */
  ghost function Top(t: Timeline): (m: int)
    requires |t| > 0
    ensures m in t && IsTop(t, m)
  {
    TopExists(t);
    var m :| m in t && IsTop(t, m);
    m
  }

  /** All members in descending order, as ZREVRANGE key 0 -1 lists them. */
  ghost function Ordered(t: Timeline): (s: seq<int>)
    decreases |t|
  {
    if |t| == 0 then [] else [Top(t)] + Ordered(Remove(t, Top(t)))
  }

  predicate InTimeline(t: Timeline, s: seq<int>) {
    forall i :: 0 <= i < |s| ==> s[i] in t
  }

  predicate SortedDesc(t: Timeline, s: seq<int>)
    requires InTimeline(t, s)
  {
    forall i, j :: 0 <= i < j < |s| ==> Before(t, s[i], s[j])
  }

  /** `Ordered(t)` lists every member exactly once, in strictly descending order. */
  lemma {:induction false} OrderedSpec(t: Timeline)
    ensures |Ordered(t)| == |t|
    ensures InTimeline(t, Ordered(t))
    ensures forall m :: m in t ==> m in Ordered(t)
    ensures SortedDesc(t, Ordered(t))
    decreases |t|
  {
    if |t| > 0 {
      var m := Top(t);
      var r := Remove(t, m);
      OrderedSpec(r);
      assert Ordered(t) == [m] + Ordered(r);
      ConsMembers(t, m, Ordered(r));
      ConsSorted(t, m, Ordered(r));
    }
  }

  /** Putting the top member in front of a listing of the rest lists all members. */
  lemma ConsMembers(t: Timeline, m: int, o: seq<int>)
    requires m in t
    requires InTimeline(Remove(t, m), o) && forall x :: x in Remove(t, m) ==> x in o
    ensures InTimeline(t, [m] + o) && forall x :: x in t ==> x in [m] + o
  {
    var s := [m] + o;
    forall i | 0 <= i < |s| ensures s[i] in t {
      if i > 0 {
        assert s[i] == o[i - 1];
      }
    }
    forall x | x in t ensures x in s {
      if x != m {
        assert x in Remove(t, m);
      }
    }
  }

  /** Putting the top member in front of a sorted listing of the rest keeps it sorted. */
  lemma ConsSorted(t: Timeline, m: int, o: seq<int>)
    requires m in t && IsTop(t, m)
    requires InTimeline(Remove(t, m), o) && SortedDesc(Remove(t, m), o)
    requires InTimeline(t, [m] + o)
    ensures SortedDesc(t, [m] + o)
  {
    var r := Remove(t, m);
    var s := [m] + o;
    forall i, j | 0 <= i < j < |s| ensures Before(t, s[i], s[j]) {
      assert s[j] == o[j - 1] && o[j - 1] in r;
      if i > 0 {
        assert s[i] == o[i - 1] && Before(r, o[i - 1], o[j - 1]);
      }
    }
  }

  /** The empty sequence is the only listing of no members. */
  lemma SameMembersEmpty(a: seq<int>, b: seq<int>)
    requires forall x :: x in a <==> x in b
    ensures a == [] <==> b == []
  {
    if a != [] {
      var x := a[0];
      assert x in a && x in b;
      var i :| 0 <= i < |b| && b[i] == x;
    }
    if b != [] {
      var x := b[0];
      assert x in b && x in a;
      var i :| 0 <= i < |a| && a[i] == x;
    }
  }

  /** The head of a descending listing comes before every other member of it. */
  lemma SortedHead(t: Timeline, s: seq<int>, x: int)
    requires InTimeline(t, s) && SortedDesc(t, s) && x in s
    ensures x == s[0] || Before(t, s[0], x)
  {
    var i :| 0 <= i < |s| && s[i] == x;
    assert i > 0 ==> Before(t, s[0], s[i]);
  }

  lemma SortedSameHead(t: Timeline, a: seq<int>, b: seq<int>)
    requires InTimeline(t, a) && InTimeline(t, b)
    requires SortedDesc(t, a) && SortedDesc(t, b)
    requires a != [] && b != []
    requires forall x :: x in a <==> x in b
    ensures a[0] == b[0]
  {
    assert a[0] in a && b[0] in b;
    SortedHead(t, a, b[0]);
    SortedHead(t, b, a[0]);
  }

  lemma SortedAt(t: Timeline, s: seq<int>, i: nat, j: nat)
    requires InTimeline(t, s) && SortedDesc(t, s) && i < |s| && j < |s|
    ensures i < j ==> Before(t, s[i], s[j])
  {
  }

  /** Two strictly descending listings of the same members are equal. */
  lemma {:induction false} SortedUnique(t: Timeline, a: seq<int>, b: seq<int>)
    requires InTimeline(t, a) && InTimeline(t, b)
    requires SortedDesc(t, a) && SortedDesc(t, b)
    requires forall x :: x in a <==> x in b
    ensures a == b
    decreases |a|
  {
    SameMembersEmpty(a, b);
    if a != [] {
      SortedSameHead(t, a, b);
      forall x ensures x in a[1..] <==> x in b[1..] {
        if x in a[1..] {
          var i :| 1 <= i < |a| && a[i] == x;
          assert Before(t, a[0], a[i]);
          assert x in b;
        }
        if x in b[1..] {
          var i :| 1 <= i < |b| && b[i] == x;
          assert Before(t, b[0], b[i]);
          assert x in a;
        }
      }
      SortedUnique(t, a[1..], b[1..]);
      assert a == [a[0]] + a[1..] && b == [b[0]] + b[1..];
    }
  }

  /** The members of `s` that are also members of `u`, in the order of `s`. */
  function Keep(s: seq<int>, u: Timeline): (r: seq<int>)
    ensures forall x :: x in r <==> x in s && x in u
    ensures |r| <= |s|
  {
    if s == [] then [] else (if s[0] in u then [s[0]] else []) + Keep(s[1..], u)
  }

  lemma {:induction false} KeepSorted(t: Timeline, s: seq<int>, u: Timeline)
    requires InTimeline(t, s) && SortedDesc(t, s)
    ensures InTimeline(t, Keep(s, u)) && SortedDesc(t, Keep(s, u))
  {
    if s != [] {
      KeepSorted(t, s[1..], u);
      var rest := Keep(s[1..], u);
      if s[0] in u {
        forall j | 0 <= j < |rest| ensures Before(t, s[0], rest[j]) {
          assert rest[j] in rest;
          var i :| 0 <= i < |s[1..]| && s[1..][i] == rest[j];
          assert s[i + 1] == rest[j];
        }
      }
    }
  }

  /** `u` is `t` with some members dropped and the other scores unchanged. */
  predicate SubTimeline(u: Timeline, t: Timeline) {
    forall m :: m in u ==> m in t && u[m] == t[m]
  }

  /** Dropping members from a sorted set keeps the survivors' relative order. */
  lemma OrderedOfSubTimeline(t: Timeline, u: Timeline)
    requires SubTimeline(u, t)
    ensures Ordered(u) == Keep(Ordered(t), u)
  {
    OrderedSpec(t);
    OrderedSpec(u);
    KeepSorted(t, Ordered(t), u);
    var k := Keep(Ordered(t), u);
    assert InTimeline(u, k);
    assert SortedDesc(u, k) by {
      forall i, j | 0 <= i < j < |k| ensures Before(u, k[i], k[j]) {
        assert Before(t, k[i], k[j]);
      }
    }
    SortedUnique(u, Ordered(u), k);
  }

  lemma {:induction false} KeepPrefix(s: seq<int>, u: Timeline, n: nat)
    requires n <= |s|
    requires forall i :: 0 <= i < n ==> s[i] in u
    ensures |Keep(s, u)| >= n && Keep(s, u)[..n] == s[..n]
  {
    if n > 0 {
      KeepPrefix(s[1..], u, n - 1);
      var k := Keep(s[1..], u);
      assert Keep(s, u) == [s[0]] + k;
      ConsPrefix(s[0], k, n);
      PrefixOfTail(s, n);
    }
  }

  /** A sequence without repetitions has as many distinct elements as its length. */
  lemma {:induction false} DistinctCount(s: seq<int>)
    requires forall i, j :: 0 <= i < j < |s| ==> s[i] != s[j]
    ensures |set x | x in s| == |s|
  {
    if s != [] {
      DistinctCount(s[1..]);
      var tail := set x | x in s[1..];
      assert (set x | x in s) == {s[0]} + tail;
      assert s[0] !in tail;
    }
  }

  /* ---------------- ZREMRANGEBYSCORE and trimming ---------------- */

  /** ZREMRANGEBYSCORE key -inf (threshold: drop every member scoring below `threshold`. */
  function RemoveBelow(t: Timeline, threshold: int): (r: Timeline)
    ensures SubTimeline(r, t)
    ensures forall m :: m in t ==> (m in r <==> t[m] >= threshold)
  {
    map m | m in t && t[m] >= threshold :: t[m]
  }

  /** ZREMRANGEBYSCORE key lo hi (both inclusive). */
  function RemoveRange(t: Timeline, lo: int, hi: int): (r: Timeline)
    ensures SubTimeline(r, t)
    ensures forall m :: m in t ==> (m in r <==> !(lo <= t[m] <= hi))
  {
    map m | m in t && !(lo <= t[m] <= hi) :: t[m]
  }

  /** ZREM key members...: drop the listed members whatever their score. */
  function RemoveMembers(t: Timeline, members: set<int>): (r: Timeline)
    ensures SubTimeline(r, t)
    ensures forall m :: m in t ==> (m in r <==> m !in members)
  {
    map m | m in t && m !in members :: t[m]
  }

  /**
   * Keep the `n` highest-ranked entries: when there are at least `n`
   * members, the score of the `n`-th one in descending order is the
   * threshold and everything scoring below it is removed (ties survive).
   */
  ghost function Trim(t: Timeline, n: nat): (r: Timeline)
    requires n >= 1
    ensures SubTimeline(r, t)
  {
    OrderedSpec(t);
    if |t| < n then t else RemoveBelow(t, t[Ordered(t)[n - 1]])
  }

  /**
   * The same trim with the MEMBER of the `n`-th entry used as the score
   * threshold, which is what `zrevrange` without scores followed by
   * `last.last` yields.
   */
  ghost function TrimAsWritten(t: Timeline, n: nat): (r: Timeline)
    requires n >= 1
    ensures SubTimeline(r, t)
  {
    OrderedSpec(t);
    if |t| < n then t else RemoveBelow(t, Ordered(t)[n - 1])
  }

  predicate DistinctScores(t: Timeline) {
    forall a, b :: a in t && b in t && a != b ==> t[a] != t[b]
  }

  /**
   * A timeline with at most `n` entries is left alone: with exactly `n`,
   * the threshold is the lowest-ranked entry's score.
   */
  lemma TrimShortUnchanged(t: Timeline, n: nat)
    requires n >= 1 && |t| <= n
    ensures Trim(t, n) == t
  {
    if |t| == n {
      OrderedSpec(t);
      var o := Ordered(t);
      var threshold := t[o[n - 1]];
      forall m | m in t ensures t[m] >= threshold {
        var j := IndexOf(o, m);
        SortedAt(t, o, j, n - 1);
      }
      RemoveBelowNothing(t, threshold);
    }
  }

  /** Removing below a threshold no entry is under removes nothing. */
  lemma RemoveBelowNothing(t: Timeline, threshold: int)
    requires forall m :: m in t ==> t[m] >= threshold
    ensures RemoveBelow(t, threshold) == t
  {
    var r := RemoveBelow(t, threshold);
    forall m | m in t ensures m in r && r[m] == t[m] {
      assert t[m] >= threshold;
    }
    assert r.Keys == t.Keys;
  }

  /** The `n` highest-ranked entries always survive a trim. */
  lemma TrimKeepsTop(t: Timeline, n: nat, i: nat)
    requires n >= 1 && i < n && i < |t|
    ensures |Ordered(t)| == |t| && Ordered(t)[i] in Trim(t, n)
  {
    OrderedSpec(t);
    var o := Ordered(t);
    if |t| >= n && i < n - 1 {
      assert Before(t, o[i], o[n - 1]);
    }
  }

  /** A survivor of a trim never ranks below an entry that was removed. */
  lemma TrimRemovesOnlyLower(t: Timeline, n: nat, kept: int, dropped: int)
    requires n >= 1 && kept in Trim(t, n) && dropped in t && dropped !in Trim(t, n)
    ensures t[kept] > t[dropped]
  {
  }

  /** With distinct scores, only the `n` top entries survive a trim. */
  lemma TrimOnlyTop(t: Timeline, n: nat, m: int)
    requires n >= 1 && DistinctScores(t) && |t| >= n && m in Trim(t, n)
    ensures |Ordered(t)| == |t| && m in Ordered(t)[..n]
  {
    OrderedSpec(t);
    var o := Ordered(t);
    var j := IndexOf(o, m);
    SortedAt(t, o, n - 1, j);
    if j < n {
      assert o[..n][j] == m;
    }
  }

  /** With distinct scores, a trim leaves exactly min(n, |t|) entries. */
  lemma TrimSize(t: Timeline, n: nat)
    requires n >= 1 && DistinctScores(t)
    ensures |Trim(t, n)| == if |t| < n then |t| else n
  {
    if |t| >= n {
      OrderedSpec(t);
      var o := Ordered(t);
      var r := Trim(t, n);
      var top := set x | x in o[..n];
      forall m | m in r ensures m in top {
        TrimOnlyTop(t, n, m);
      }
      forall m | m in top ensures m in r {
        var j :| 0 <= j < n && o[..n][j] == m;
        TrimKeepsTop(t, n, j);
      }
      assert r.Keys == top;
      DistinctPrefixCount(o, n);
    }
  }

  /** A trim keeps at least the `n` top entries, and the `n`-th of them stays `n`-th. */
  lemma TrimKeepsRank(t: Timeline, n: nat)
    requires n >= 1 && |t| >= n
    ensures |Ordered(t)| == |t| && |Ordered(Trim(t, n))| == |Trim(t, n)| >= n
    ensures Ordered(Trim(t, n))[n - 1] == Ordered(t)[n - 1]
  {
    OrderedSpec(t);
    var u := Trim(t, n);
    OrderedSpec(u);
    var o := Ordered(t);
    forall i | 0 <= i < n ensures o[i] in u {
      TrimKeepsTop(t, n, i);
    }
    DistinctPrefixCount(o, n);
    var top := set x | x in o[..n];
    assert top <= u.Keys;
    CardSubset(top, u.Keys);
    OrderedOfSubTimeline(t, u);
    KeepPrefix(o, u, n);
    assert Ordered(u)[n - 1] == o[..n][n - 1];
  }

  /** Trimming an already trimmed timeline changes nothing. */
  lemma TrimIdempotent(t: Timeline, n: nat)
    requires n >= 1
    ensures Trim(Trim(t, n), n) == Trim(t, n)
  {
    if |t| >= n {
      var u := Trim(t, n);
      TrimKeepsRank(t, n);
      OrderedSpec(t);
      var threshold := t[Ordered(t)[n - 1]];
      assert u == RemoveBelow(t, threshold);
      assert u[Ordered(u)[n - 1]] == threshold;
      assert RemoveBelow(u, threshold) == u;
    }
  }

  lemma DistinctPrefixCount(o: seq<int>, n: nat)
    requires n <= |o|
    requires forall i, j :: 0 <= i < j < |o| ==> o[i] != o[j]
    ensures |set x | x in o[..n]| == n
  {
    DistinctCount(o[..n]);
  }

  lemma CardSubset(a: set<int>, b: set<int>)
    requires a <= b
    ensures |a| <= |b|
  {
    assert b == a + (b - a);
  }

  /**
   * The as-written trim keeps what the score-based trim keeps plus every
   * entry scoring from the `n`-th entry's member up to just below its score.
   */
  lemma TrimAsWrittenKeepsExtra(t: Timeline, n: nat)
    requires n >= 1 && |t| >= n
    ensures |Ordered(t)| == |t| && InTimeline(t, Ordered(t))
    ensures var p := Ordered(t)[n - 1];
      p <= t[p] ==>
        forall m :: m in t ==> (m in TrimAsWritten(t, n) <==> m in Trim(t, n) || p <= t[m] < t[p])
  {
    OrderedSpec(t);
  }

  /** For entries whose member equals their score the two trims agree. */
  lemma TrimAsWrittenAgreesOnOriginals(t: Timeline, n: nat)
    requires n >= 1
    requires forall m :: m in t ==> t[m] == m
    ensures TrimAsWritten(t, n) == Trim(t, n)
  {
    OrderedSpec(t);
  }

  /**
   * A reblog entry (member 5, score 9) ranked at the trim position leaves
   * an older original (7, 7) in place: two entries survive a trim to one.
   */
  lemma OrderedOfExample()
    ensures Ordered(map[5 := 9, 7 := 7]) == [5, 7]
  {
    var t := map[5 := 9, 7 := 7];
    OrderedSpec(t);
    assert InTimeline(t, [5, 7]) && SortedDesc(t, [5, 7]);
    SortedUnique(t, Ordered(t), [5, 7]);
  }

  lemma TrimAsWrittenOverflows()
    ensures var t := map[5 := 9, 7 := 7];
      |TrimAsWritten(t, 1)| == 2 && |Trim(t, 1)| == 1
  {
    var t := map[5 := 9, 7 := 7];
    OrderedOfExample();
    assert TrimAsWritten(t, 1) == t;
    assert Trim(t, 1) == map[5 := 9];
  }

  /* ---------------- Reading by rank and by score ---------------- */

  /** ZREVRANK: the 0-based position of `m` in descending order, nil when absent. */
  ghost function RevRank(t: Timeline, m: int): (r: Option<nat>)
    ensures r.None? <==> m !in t
    ensures r.Some? ==> r.value < |t| && |Ordered(t)| == |t| && Ordered(t)[r.value] == m
  {
    OrderedSpec(t);
    if m in t then Some(IndexOf(Ordered(t), m)) else None
  }

  ghost function IndexOf(s: seq<int>, m: int): (i: nat)
    requires m in s
    ensures i < |s| && s[i] == m
    ensures forall j :: 0 <= j < i ==> s[j] != m
  {
    if s[0] == m then 0 else 1 + IndexOf(s[1..], m)
  }

  /** The members scoring strictly between `since` and `max` (no upper bound when `max` is nil). */
  function ScoreRange(t: Timeline, since: int, max: Option<int>): (r: Timeline)
    ensures SubTimeline(r, t)
    ensures forall m :: m in t ==> (m in r <==> since < t[m] && (max.None? || t[m] < max.value))
  {
    map m | m in t && since < t[m] && (max.None? || t[m] < max.value) :: t[m]
  }

  function ScoresOf(t: Timeline, s: seq<int>): (r: seq<int>)
    requires InTimeline(t, s)
    ensures |r| == |s| && forall i :: 0 <= i < |s| ==> r[i] == t[s[i]]
  {
    if s == [] then [] else [t[s[0]]] + ScoresOf(t, s[1..])
  }

  function Take(s: seq<int>, k: nat): (r: seq<int>)
    ensures |r| == if |s| <= k then |s| else k
    ensures forall i :: 0 <= i < |r| ==> r[i] == s[i]
  {
    if |s| <= k then s else s[..k]
  }

  /**
   * ZREVRANGEBYSCORE key (max (since LIMIT 0 limit WITHSCORES, keeping the
   * scores: the scores of the first `limit` entries in the exclusive range,
   * in descending order.
   */
  ghost function RevRangeByScore(t: Timeline, max: Option<int>, since: int, limit: nat): (r: seq<int>)
  {
    var u := ScoreRange(t, since, max);
    OrderedSpec(u);
    ScoresOf(u, Take(Ordered(u), limit))
  }

  /**
   * The range holds at most `limit` scores, all strictly inside the bounds,
   * in descending order; it is cut short only when `limit` entries were found.
   */
  lemma RevRangeByScoreSpec(t: Timeline, max: Option<int>, since: int, limit: nat)
    ensures var r := RevRangeByScore(t, max, since, limit);
      && |r| == (if |ScoreRange(t, since, max)| <= limit then |ScoreRange(t, since, max)| else limit)
      && (forall i :: 0 <= i < |r| ==> since < r[i] && (max.None? || r[i] < max.value))
      && (forall i, j :: 0 <= i < j < |r| ==> r[i] >= r[j])
  {
    var u := ScoreRange(t, since, max);
    OrderedSpec(u);
    var top := Take(Ordered(u), limit);
    var r := ScoresOf(u, top);
    forall i | 0 <= i < |r| ensures since < r[i] && (max.None? || r[i] < max.value) {
      assert top[i] in u;
    }
    forall i, j | 0 <= i < j < |r| ensures r[i] >= r[j] {
      assert Before(u, top[i], top[j]);
    }
  }

  /** Every score listed is the score of a member in range. */
  lemma RevRangeByScoreScores(t: Timeline, max: Option<int>, since: int, limit: nat, x: int)
    requires x in RevRangeByScore(t, max, since, limit)
    ensures exists m :: m in t && t[m] == x
  {
    var u := ScoreRange(t, since, max);
    OrderedSpec(u);
    var top := Take(Ordered(u), limit);
    var r := ScoresOf(u, top);
    var i :| 0 <= i < |r| && r[i] == x;
    assert top[i] in u;
  }

  /** Every score in range is listed when the limit is not reached. */
  lemma RevRangeByScoreComplete(t: Timeline, max: Option<int>, since: int, limit: nat, m: int)
    requires m in t && since < t[m] && (max.None? || t[m] < max.value)
    requires |ScoreRange(t, since, max)| <= limit
    ensures t[m] in RevRangeByScore(t, max, since, limit)
  {
    var u := ScoreRange(t, since, max);
    OrderedSpec(u);
    var o := Ordered(u);
    var i := IndexOf(o, m);
    assert ScoresOf(u, Take(o, limit))[i] == t[m];
  }

  /** The lowest score (ZRANGE key 0 0 WITHSCORES), 0 for an empty timeline. */
  ghost function LowestScore(t: Timeline): (s: int)
    ensures |t| > 0 ==> exists m :: m in t && t[m] == s
    ensures forall m :: m in t ==> s <= t[m]
  {
    OrderedSpec(t);
    if |t| == 0 then 0
    else
      var o := Ordered(t);
      var last := o[|o| - 1];
      assert forall m :: m in t ==> t[m] >= t[last] by {
        forall m | m in t ensures t[m] >= t[last] {
          var j :| 0 <= j < |o| && o[j] == m;
          if j < |o| - 1 {
            assert Before(t, o[j], o[|o| - 1]);
          }
        }
      }
      t[last]
  }

  /* ---------------- Executable counterparts ---------------- */

  /** Finds the top entry by a linear scan. */
  method FindTop(t: Timeline) returns (m: int)
    requires |t| > 0
    ensures m == Top(t)
  {
    var rest := t.Keys;
    m := Pick(rest);
    rest := rest - {m};
    while rest != {}
      invariant rest <= t.Keys && m in t && m !in rest
      invariant forall x :: x in t && x !in rest && x != m ==> Before(t, m, x)
      decreases |rest|
    {
      var x := Pick(rest);
      if Before(t, x, m) {
        m := x;
      }
      rest := rest - {x};
    }
    TopUnique(t, m, Top(t));
  }

  /** The position of the first occurrence of `m`. */
  method FirstIndex(s: seq<int>, m: int) returns (i: nat)
    requires m in s
    ensures i == IndexOf(s, m)
  {
    i := 0;
    while s[i] != m
      invariant i <= IndexOf(s, m)
      decreases IndexOf(s, m) - i
    {
      i := i + 1;
    }
  }

  /** Lists the members in descending order by repeatedly removing the top. */
  lemma OrderedStep(t: Timeline, s: seq<int>, rest: Timeline, m: int)
    requires |rest| > 0 && m == Top(rest) && s + Ordered(rest) == Ordered(t)
    ensures (s + [m]) + Ordered(Remove(rest, m)) == Ordered(t)
  {
    assert Ordered(rest) == [m] + Ordered(Remove(rest, m));
  }

  method ComputeOrdered(t: Timeline) returns (s: seq<int>)
    ensures s == Ordered(t)
  {
    var rest := t;
    s := [];
    while |rest| > 0
      invariant s + Ordered(rest) == Ordered(t)
      decreases |rest|
    {
      var m := FindTop(rest);
      OrderedStep(t, s, rest, m);
      s := s + [m];
      rest := Remove(rest, m);
    }
  }
}
