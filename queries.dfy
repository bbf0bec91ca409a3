/**
 * The database queries the timeline code builds on, stated as functions of
 * the set of status ids they run over:
 *
 *  - loading statuses by id (`Status.where(id: ...)`) lists them newest
 *    first, the default order of statuses;
 *  - `paginate_by_max_id(limit, max_id, since_id)` keeps the ids strictly
 *    below `max_id` and strictly above `since_id` (each bound optional),
 *    newest first, at most `limit` of them.
 *
 * The `Status` model and its pagination scope are not part of this model:
 * the behaviour above is the one the timeline code relies on.
 */
module StatusQueries {
  import opened Wrappers
  import opened SortedSet

  predicate StrictlyDesc(s: seq<int>) {
    forall i, j :: 0 <= i < j < |s| ==> s[i] > s[j]
  }

  /** `max_id` and `since_id` are exclusive bounds; a nil bound is absent. */
  predicate InIdRange(x: int, max: Option<int>, since: Option<int>) {
    (max.None? || x < max.value) && (since.None? || since.value < x)
  }

  /** The ids of `ids`, each once, newest (largest) first. */
  ghost function IdsDesc(ids: set<int>): (r: seq<int>)
    ensures |r| == |ids|
    ensures forall x :: x in r <==> x in ids
    ensures StrictlyDesc(r)
  {
    var t := map x | x in ids :: x;
    OrderedSpec(t);
    assert t.Keys == ids;
    var o := Ordered(t);
    assert StrictlyDesc(o) by {
      forall i, j | 0 <= i < j < |o| ensures o[i] > o[j] {
        assert Before(t, o[i], o[j]);
      }
    }
    o
  }

  /** `paginate_by_max_id(limit, max, since)` over the statuses `ids`. */
  ghost function Paginate(ids: set<int>, limit: nat, max: Option<int>, since: Option<int>): (r: seq<int>)
    ensures |r| <= limit && StrictlyDesc(r)
    ensures forall x :: x in r ==> x in ids && InIdRange(x, max, since)
  {
    var s := IdsDesc(set x | x in ids && InIdRange(x, max, since));
    var r := Take(s, limit);
    assert forall x :: x in r ==> x in s by {
      forall x | x in r ensures x in s {
        var i :| 0 <= i < |r| && r[i] == x;
        assert s[i] == x;
      }
    }
    r
  }

  /** A page is the first `limit` of the ids in range, in timeline order with each id scored by itself. */
  lemma PaginateIsTake(ids: set<int>, limit: nat, max: Option<int>, since: Option<int>)
    ensures Paginate(ids, limit, max, since) == Take(Ordered(map x | x in ids && InIdRange(x, max, since) :: x), limit)
  {
    var inRange := set x | x in ids && InIdRange(x, max, since);
    assert (map x | x in inRange :: x) == map x | x in ids && InIdRange(x, max, since) :: x;
  }

  /** When the ids in range fit in the page, the page holds all of them. */
  lemma PaginateComplete(ids: set<int>, limit: nat, max: Option<int>, since: Option<int>)
    requires |set x | x in ids && InIdRange(x, max, since)| <= limit
    ensures forall x :: x in ids && InIdRange(x, max, since) ==> x in Paginate(ids, limit, max, since)
  {
    var s := IdsDesc(set x | x in ids && InIdRange(x, max, since));
    assert Paginate(ids, limit, max, since) == s;
  }

  /** A set of ids all in range that fits in the page is listed whole. */
  lemma PaginateAllInRange(ids: set<int>, limit: nat, max: Option<int>, since: Option<int>)
    requires |ids| <= limit && forall x :: x in ids ==> InIdRange(x, max, since)
    ensures forall x :: x in ids ==> x in Paginate(ids, limit, max, since)
  {
    assert (set x | x in ids && InIdRange(x, max, since)) == ids;
    PaginateComplete(ids, limit, max, since);
  }

  /**
   * A page leaves out an id in range only when it is full, and then every
   * id it holds is newer than the one left out.
   */
  lemma PaginateNewest(ids: set<int>, limit: nat, max: Option<int>, since: Option<int>, x: int)
    requires x in ids && InIdRange(x, max, since)
    ensures var r := Paginate(ids, limit, max, since);
      x in r || (|r| == limit && forall y :: y in r ==> y > x)
  {
    var s := IdsDesc(set y | y in ids && InIdRange(y, max, since));
    var r := Paginate(ids, limit, max, since);
    assert x in s;
    var k :| 0 <= k < |s| && s[k] == x;
    if k < |r| {
      assert r[k] == x;
    } else {
      forall y | y in r ensures y > x {
        var i :| 0 <= i < |r| && r[i] == y;
        assert s[i] > s[k];
      }
    }
  }

  /** `reject`: the ids of `s` that are not in `bad`, in their order. */
  function Reject(s: seq<int>, bad: set<int>): (r: seq<int>)
    ensures |r| <= |s|
    ensures forall x :: x in r <==> x in s && x !in bad
    ensures StrictlyDesc(s) ==> StrictlyDesc(r)
  {
    if s == [] then []
    else if s[0] in bad then Reject(s[1..], bad)
    else
      var rest := Reject(s[1..], bad);
      var r := [s[0]] + rest;
      assert StrictlyDesc(s) ==> StrictlyDesc(r) by {
        if StrictlyDesc(s) {
          assert StrictlyDesc(s[1..]);
          forall i, j | 0 <= i < j < |r| ensures r[i] > r[j] {
            if i == 0 {
              var y := rest[j - 1];
              assert y in rest;
              var k :| 0 <= k < |s[1..]| && s[1..][k] == y;
              assert s[k + 1] == y;
            }
          }
        }
      }
      r
  }

  /** Two descending runs, the second entirely below the first, make one. */
  lemma ConcatDesc(a: seq<int>, b: seq<int>)
    requires StrictlyDesc(a) && StrictlyDesc(b)
    requires |a| > 0 ==> forall y :: y in b ==> y < a[|a| - 1]
    ensures StrictlyDesc(a + b)
  {
    var r := a + b;
    forall i, j | 0 <= i < j < |r| ensures r[i] > r[j] {
      if i < |a| <= j {
        assert b[j - |a|] in b;
        if i < |a| - 1 {
          assert a[i] > a[|a| - 1];
        }
      }
    }
  }
}
