/**
 * Rebuilding an account's home timeline from the database
 * (`PrecomputeFeedService`): select recent statuses of the home query,
 * write each unfiltered one into the sorted set, and clear the
 * regeneration flag in the same pipeline.
 */
module PrecomputeFeed {
  import opened Wrappers
  import opened SortedSet
  import opened RedisStore
  import opened Statuses
  import opened StatusQueries
  import opened Feed
  import FeedManager

  /** Statuses by id, each filed under its own id. */
  type StatusTable = t: map<int, Status> | forall id :: id in t ==> t[id].id == id
    witness map[]

  /**
   * The ids of `Status` in their default order, newest first, and the row
   * `Status.last` reads: the last of them, the oldest status.
   */
  ghost function LastRow(all: set<int>): (r: Option<int>)
    ensures r.None? <==> all == {}
    ensures r.Some? ==> r.value in all && forall x :: x in all ==> r.value <= x
  {
    var d := IdsDesc(all);
    if |d| == 0 then None
    else
      assert d[|d| - 1] in all;
      assert forall x :: x in all ==> d[|d| - 1] <= x by {
        forall x | x in all ensures d[|d| - 1] <= x {
          var i :| 0 <= i < |d| && d[i] == x;
        }
      }
      Some(d[|d| - 1])
  }

  /** `Status.first`: the newest status. */
  ghost function FirstRow(all: set<int>): (r: Option<int>)
    ensures r.None? <==> all == {}
    ensures r.Some? ==> r.value in all && forall x :: x in all ==> x <= r.value
  {
    var d := IdsDesc(all);
    if |d| == 0 then None
    else
      assert d[0] in all;
      assert forall x :: x in all ==> x <= d[0] by {
        forall x | x in all ensures x <= d[0] {
          var i :| 0 <= i < |d| && d[i] == x;
        }
      }
      Some(d[0])
  }

  /**
   * `statuses`, as written: a continuously active user gets the newest
   * `MAX_ITEMS` statuses of the home query after the last status its feed
   * was known to hold; anyone else gets the newest `minItems` statuses
   * above `Status.last` minus `minIdRange`, and nothing when there is no
   * status at all. Statuses come in their default order, id descending,
   * which `paginate_by_max_id` orders by again; `order(account_id: :desc)`
   * only orders rows with the same id, of which there are none.
   */
  ghost function Selected(homeIds: set<int>, active: bool, lastUpdated: Option<int>, all: set<int>,
                          minItems: nat, minIdRange: int): (r: seq<int>)
    ensures StrictlyDesc(r) && forall x :: x in r ==> x in homeIds
    ensures active ==> |r| <= FeedManager.MAX_ITEMS && forall x :: x in r ==> InIdRange(x, None, lastUpdated)
    ensures !active ==> |r| <= minItems
    ensures !active && all == {} ==> r == []
    ensures !active && all != {} ==> forall x :: x in r ==> LastRow(all).value - minIdRange < x
  {
    if active then Paginate(homeIds, FeedManager.MAX_ITEMS, None, lastUpdated)
    else if all == {} then []
    else Paginate(homeIds, minItems, None, Some(LastRow(all).value - minIdRange))
  }

  lemma SelectedUnfold(homeIds: set<int>, active: bool, lastUpdated: Option<int>, all: set<int>,
                       minItems: nat, minIdRange: int)
    ensures Selected(homeIds, active, lastUpdated, all, minItems, minIdRange)
         == if active then Paginate(homeIds, FeedManager.MAX_ITEMS, None, lastUpdated)
            else if all == {} then []
            else Paginate(homeIds, minItems, None, Some(LastRow(all).value - minIdRange))
  {
  }

  lemma SelectedOfLast(homeIds: set<int>, lastUpdated: Option<int>, all: set<int>, minItems: nat, minIdRange: int,
                       last: Option<int>)
    requires last == LastRow(all)
    ensures Selected(homeIds, false, lastUpdated, all, minItems, minIdRange)
         == if last.None? then [] else Paginate(homeIds, minItems, None, Some(last.value - minIdRange))
  {
    if last.Some? {
      var since := Some(last.value - minIdRange);
      assert since == Some(LastRow(all).value - minIdRange);
    }
  }

  /**
   * A home status above the bound is left out only when the page is full
   * of newer ones: the query keeps the newest statuses, whoever wrote them.
   */
  lemma SelectedNewestFirst(homeIds: set<int>, active: bool, lastUpdated: Option<int>, all: set<int>,
                            minItems: nat, minIdRange: int, x: int)
    requires x in homeIds
    requires active ==> InIdRange(x, None, lastUpdated)
    requires !active ==> all != {} && LastRow(all).value - minIdRange < x
    ensures var r := Selected(homeIds, active, lastUpdated, all, minItems, minIdRange);
      x in r || (|r| == (if active then FeedManager.MAX_ITEMS else minItems) && forall y :: y in r ==> y > x)
  {
    if active {
      PaginateNewest(homeIds, FeedManager.MAX_ITEMS, None, lastUpdated, x);
    } else {
      PaginateNewest(homeIds, minItems, None, Some(LastRow(all).value - minIdRange), x);
    }
  }

  /**
   * `statuses` as evidently intended ("in the last MIN_ID_RANGE"): the
   * window is anchored at the newest status, so every status selected for
   * an inactive user lies within `minIdRange` of it.
   */
  ghost function SelectedIntended(homeIds: set<int>, active: bool, lastUpdated: Option<int>, all: set<int>,
                                  minItems: nat, minIdRange: int): (r: seq<int>)
    ensures StrictlyDesc(r) && forall x :: x in r ==> x in homeIds
    ensures active ==> r == Selected(homeIds, active, lastUpdated, all, minItems, minIdRange)
    ensures !active ==> |r| <= minItems
    ensures !active && all == {} ==> r == []
    ensures !active && all != {} ==> forall x :: x in r ==> FirstRow(all).value - minIdRange < x
    ensures !active && all != {} && homeIds <= all ==> forall x :: x in r ==> x <= FirstRow(all).value
  {
    if active then Paginate(homeIds, FeedManager.MAX_ITEMS, None, lastUpdated)
    else
      match FirstRow(all)
      case None => []
      case Some(first) => Paginate(homeIds, minItems, None, Some(first - minIdRange))
  }

  /**
   * As written, an inactive user's window reaches back to the oldest
   * status: with statuses 1 and 100, a range of 10 and room for two,
   * status 1 is selected although it is 99 below the newest, where the
   * intended window leaves it out.
   */
  lemma SelectedReachesBeforeRange()
    ensures 1 in Selected({1, 100}, false, None, {1, 100}, 2, 10)
    ensures 1 !in SelectedIntended({1, 100}, false, None, {1, 100}, 2, 10)
  {
    AsWrittenSelectsOldest();
    IntendedLeavesOutOldest();
  }

  lemma AsWrittenSelectsOldest()
    ensures 1 in Selected({1, 100}, false, None, {1, 100}, 2, 10)
  {
    var all: set<int> := {1, 100};
    assert LastRow(all) == Some(1);
    SelectedUnfold(all, false, None, all, 2, 10);
    PairCard(1, 100);
    PaginateAllInRange(all, 2, None, Some(1 - 10));
  }

  lemma IntendedLeavesOutOldest()
    ensures 1 !in SelectedIntended({1, 100}, false, None, {1, 100}, 2, 10)
  {
    var all: set<int> := {1, 100};
    assert 100 in all;
  }

  lemma PairCard(a: int, b: int)
    requires a != b
    ensures |{a, b}| == 2
  {
  }

  /** `process_status`: the [score, member] pair a status is written as. */
  function ProcessStatus(s: Status): (p: (int, int))
    ensures p.0 == s.id
    ensures s.reblog.None? ==> p.1 == s.id
    ensures s.reblog.Some? ==> p.1 == s.reblog.value.id
  {
    (s.id, s.TimelineMember())
  }

  /**
   * The pairs `populate_feed` writes: the selected statuses in reverse,
   * filtered ones dropped, each as its `process_status` pair.
   */
  function Pairs(home: StatusTable, ids: seq<int>, filtered: set<int>): (r: seq<(int, int)>)
    requires forall i :: 0 <= i < |ids| ==> ids[i] in home
    ensures |r| <= |ids|
    ensures forall p :: p in r ==> p.0 in ids && p.0 !in filtered && p.0 in home && p == ProcessStatus(home[p.0])
    ensures forall i :: 0 <= i < |ids| && ids[i] !in filtered ==> ProcessStatus(home[ids[i]]) in r
    ensures |ids| > 0 && ids[0] !in filtered ==> |r| > 0 && r[|r| - 1] == ProcessStatus(home[ids[0]])
  {
    if ids == [] then []
    else
      var rest := Pairs(home, ids[1..], filtered);
      assert forall x :: x in ids[1..] ==> x in ids;
      assert forall i :: 1 <= i < |ids| ==> ids[1..][i - 1] == ids[i];
      if ids[0] in filtered then rest else rest + [ProcessStatus(home[ids[0]])]
  }

  /** The home query: `paginate_by_max_id(limit, nil, since)` over the home statuses. */
  method Query(homeIds: set<int>, limit: nat, since: Option<int>) returns (ids: seq<int>)
    ensures ids == Paginate(homeIds, limit, None, since)
  {
    var o := ComputeOrdered(map x | x in homeIds && InIdRange(x, None, since) :: x);
    ids := Take(o, limit);
    PaginateIsTake(homeIds, limit, None, since);
  }

  /** `Status.last`. */
  method OldestStatus(all: set<int>) returns (r: Option<int>)
    ensures r == LastRow(all)
  {
    var o := ComputeOrdered(map x | x in all :: x);
    r := if |o| == 0 then None else Some(o[|o| - 1]);
  }

  /** Chooses the query `statuses` runs. */
  method SelectStatuses(homeIds: set<int>, active: bool, lastUpdated: Option<int>, all: set<int>,
                        minItems: nat, minIdRange: int) returns (ids: seq<int>)
    ensures ids == Selected(homeIds, active, lastUpdated, all, minItems, minIdRange)
  {
    if active {
      ids := Query(homeIds, FeedManager.MAX_ITEMS, lastUpdated);
      SelectedUnfold(homeIds, active, lastUpdated, all, minItems, minIdRange);
    } else {
      var last := OldestStatus(all);
      SelectedOfLast(homeIds, lastUpdated, all, minItems, minIdRange, last);
      if last.None? {
        ids := [];
      } else {
        ids := Query(homeIds, minItems, Some(last.value - minIdRange));
      }
    }
  }

  /** The sorted sets once the pairs are written at `key`; no ZADD is sent for no pairs. */
  function Written(z: ZSets, key: string, pairs: seq<(int, int)>): (r: ZSets)
    ensures forall m :: m in ZOf(r, key) <==> m in ZOf(z, key) || exists i :: 0 <= i < |pairs| && pairs[i].1 == m
    ensures forall k :: k != key ==> ZOf(r, k) == ZOf(z, k)
  {
    if |pairs| > 0 then Store(z, key, ZAddPairs(ZOf(z, key), pairs)) else z
  }

  /**
   * `populate_feed` for the account `accountId`. The `trim` called for a
   * continuously active user is not among the feed manager's methods, so it
   * is not applied here: `trimRequested` says whether it is called.
   */
  method PopulateFeed(r: Redis, accountId: int, home: StatusTable, filtered: set<int>, active: bool,
                      lastUpdated: Option<int>, all: set<int>, minItems: nat, minIdRange: int)
    returns (trimRequested: bool)
    modifies r
    ensures var key := FeedManager.Key("home", accountId);
      var pairs := Pairs(home, Selected(home.Keys, active, lastUpdated, all, minItems, minIdRange), filtered);
      r.zsets == Written(old(r.zsets), key, pairs) - {RegenerationKey(accountId)}
    ensures r.strings == old(r.strings) - {RegenerationKey(accountId)}
    ensures r.ttl == old(r.ttl) - {RegenerationKey(accountId)}
    ensures trimRequested <==> active
  {
    var ids := SelectStatuses(home.Keys, active, lastUpdated, all, minItems, minIdRange);
    var pairs := Pairs(home, ids, filtered);
    var key := FeedManager.Key("home", accountId);
    if |pairs| > 0 {
      r.ZAddMany(key, pairs);
    }
    r.Del(RegenerationKey(accountId));
    trimRequested := active;
  }

  /** The regeneration flag never names a timeline. */
  lemma RegenerationKeyNotTimeline(accountId: int, timelineType: string, id: int)
    ensures RegenerationKey(accountId) != FeedManager.Key(timelineType, id)
  {
    assert RegenerationKey(accountId)[0] == 'a';
    assert FeedManager.Key(timelineType, id)[0] == 'f';
  }

  /** Deleting the flag leaves the home timeline as the ZADD wrote it. */
  lemma PopulatedTimeline(z: ZSets, accountId: int, pairs: seq<(int, int)>)
    ensures var key := FeedManager.Key("home", accountId);
      ZOf(Written(z, key, pairs) - {RegenerationKey(accountId)}, key)
        == if |pairs| > 0 then ZAddPairs(ZOf(z, key), pairs) else ZOf(z, key)
  {
    var key := FeedManager.Key("home", accountId);
    var w := Written(z, key, pairs);
    RegenerationKeyNotTimeline(accountId, "home", accountId);
    assert key in w - {RegenerationKey(accountId)} <==> key in w;
    if |pairs| > 0 {
      assert ZOf(w, key) == ZAddPairs(ZOf(z, key), pairs);
    }
  }

  /** After the rebuild, every selected unfiltered status is in the home timeline under its member. */
  lemma PopulatedMember(z: ZSets, accountId: int, home: StatusTable, ids: seq<int>, filtered: set<int>, i: nat)
    requires forall j :: 0 <= j < |ids| ==> ids[j] in home
    requires i < |ids| && ids[i] !in filtered
    ensures var key := FeedManager.Key("home", accountId);
      home[ids[i]].TimelineMember() in ZOf(Written(z, key, Pairs(home, ids, filtered)) - {RegenerationKey(accountId)}, key)
  {
    var pairs := Pairs(home, ids, filtered);
    PopulatedTimeline(z, accountId, pairs);
    assert ProcessStatus(home[ids[i]]) in pairs;
  }

  /**
   * A selected unfiltered status that no other selected unfiltered status
   * shares a member with is scored by its own id.
   */
  lemma PopulatedScore(t: Timeline, home: StatusTable, ids: seq<int>, filtered: set<int>, i: nat)
    requires forall j :: 0 <= j < |ids| ==> ids[j] in home
    requires i < |ids| && ids[i] !in filtered
    requires forall j :: 0 <= j < |ids| && ids[j] !in filtered && ids[j] != ids[i] ==>
      home[ids[j]].TimelineMember() != home[ids[i]].TimelineMember()
    ensures var u := ZAddPairs(t, Pairs(home, ids, filtered));
      home[ids[i]].TimelineMember() in u && u[home[ids[i]].TimelineMember()] == ids[i]
  {
    var pairs := Pairs(home, ids, filtered);
    var m := home[ids[i]].TimelineMember();
    assert ProcessStatus(home[ids[i]]) in pairs;
    forall k | 0 <= k < |pairs| && pairs[k].1 == m ensures pairs[k].0 == ids[i] {
      assert pairs[k] in pairs;
      var j :| 0 <= j < |ids| && ids[j] == pairs[k].0;
    }
    ZAddPairsAgreed(t, pairs, m, ids[i]);
  }

  /** Filtered statuses add nothing: every new member comes from a selected unfiltered status. */
  lemma PopulatedOnlySelected(z: ZSets, key: string, home: StatusTable, ids: seq<int>, filtered: set<int>, m: int)
    requires forall j :: 0 <= j < |ids| ==> ids[j] in home
    requires m in ZOf(Written(z, key, Pairs(home, ids, filtered)), key) && m !in ZOf(z, key)
    ensures exists j :: 0 <= j < |ids| && ids[j] !in filtered && home[ids[j]].TimelineMember() == m
  {
    var pairs := Pairs(home, ids, filtered);
    var k :| 0 <= k < |pairs| && pairs[k].1 == m;
    assert pairs[k] in pairs;
    var j :| 0 <= j < |ids| && ids[j] == pairs[k].0;
  }
}
