/**
 * Reading a timeline (`Feed#get`): the cached sorted set first, then the
 * database for whatever the cache could not supply; while the account's
 * feed is being regenerated, the database alone.
 */
module Feed {
  import opened Wrappers
  import opened Decimal
  import opened SortedSet
  import opened RedisStore
  import opened StatusQueries
  import opened Collections
  import FeedManager

  /** The durable store as one account's timeline read sees it. */
  datatype Database = Database(
    /** Ids of the statuses `as_home_timeline` selects for the account. */
    home: set<int>,
    /** Ids of the statuses that still exist (a cached id may be deleted). */
    existing: set<int>,
    /** Ids of the statuses `filter?(:home, status, account)` rejects. */
    filtered: set<int>)

  /** `account:{id}:regeneration`: present while the account's feed is rebuilt. */
  function RegenerationKey(accountId: int): string {
    "account:" + Show(accountId) + ":regeneration"
  }

  /**
   * `from_redis`: the scores (status ids) of the newest `limit` entries
   * scoring strictly between `since` and `max` (`+inf` when `max` is nil),
   * loaded back as statuses, newest first; ids whose status no longer exists
   * drop out.
   */
  ghost function FromRedis(t: Timeline, existing: set<int>, limit: nat, max: Option<int>, since: int): (r: seq<int>)
    ensures |r| <= limit && StrictlyDesc(r)
    ensures forall x :: x in r ==> x in existing && InIdRange(x, max, Some(since))
    ensures forall x :: x in r ==> exists m :: m in t && t[m] == x
  {
    var scores := RevRangeByScore(t, max, since, limit);
    RevRangeByScoreSpec(t, max, since, limit);
    var ids := set x | x in scores && x in existing;
    assert |ids| <= limit by {
      ElemsCard(scores);
      CardSubset(ids, Elems(scores));
    }
    forall x | x in ids ensures InIdRange(x, max, Some(since)) && exists m :: m in t && t[m] == x {
      RevRangeByScoreScores(t, max, since, limit, x);
      var i :| 0 <= i < |scores| && scores[i] == x;
    }
    IdsDesc(ids)
  }

  /** When the range holds no more than `limit` entries, every existing score in it is read. */
  lemma FromRedisComplete(t: Timeline, existing: set<int>, limit: nat, max: Option<int>, since: int, m: int)
    requires m in t && since < t[m] && (max.None? || t[m] < max.value) && t[m] in existing
    requires |ScoreRange(t, since, max)| <= limit
    ensures t[m] in FromRedis(t, existing, limit, max, since)
  {
    RevRangeByScoreComplete(t, max, since, limit, m);
  }

  /** `from_database`: one page of the home query, with the filtered statuses then dropped. */
  ghost function FromDatabase(db: Database, limit: nat, max: Option<int>, since: Option<int>): (r: seq<int>)
    ensures |r| <= limit && StrictlyDesc(r)
    ensures forall x :: x in r ==> x in db.home && x !in db.filtered && InIdRange(x, max, since)
  {
    Reject(Paginate(db.home, limit, max, since), db.filtered)
  }

  /**
   * The second half of `get`: the page begins with the cached statuses and
   * the database fills what is left of `limit`, strictly below the last
   * cached status (below `max` when nothing was cached).
   */
  ghost function FillFromDatabase(cached: seq<int>, db: Database, limit: nat, max: Option<int>, since: int): (r: seq<int>)
    requires |cached| <= limit && StrictlyDesc(cached)
    requires forall x :: x in cached ==> InIdRange(x, max, Some(since))
    ensures |r| <= limit && StrictlyDesc(r)
    ensures |cached| <= |r| && r[..|cached|] == cached
    ensures forall x :: x in r ==> InIdRange(x, max, Some(since))
    ensures forall x :: x in r ==> x in cached || (x in db.home && x !in db.filtered)
  {
    var below := if |cached| > 0 then Some(cached[|cached| - 1]) else max;
    var rest := FromDatabase(db, limit - |cached|, below, Some(since));
    ConcatDesc(cached, rest);
    assert forall x :: x in rest ==> InIdRange(x, max, Some(since)) by {
      forall x | x in rest ensures InIdRange(x, max, Some(since)) {
        assert InIdRange(x, below, Some(since));
        if |cached| > 0 {
          var last := cached[|cached| - 1];
          assert last in cached;
          assert InIdRange(last, max, Some(since));
        }
      }
    }
    assert (cached + rest)[..|cached|] == cached;
    cached + rest
  }

  /**
   * `get(limit, max_id, since_id)` on the timeline `timelineType` of
   * `accountId`, given the Redis sorted sets `z` and string keys `strings`.
   */
  ghost function Get(z: ZSets, strings: map<string, int>, timelineType: string, accountId: int,
                     db: Database, limit: nat, max: Option<int>, since: int): (r: seq<int>)
    ensures |r| <= limit
    ensures StrictlyDesc(r)
    ensures forall x :: x in r ==> InIdRange(x, max, Some(since))
    ensures forall x :: x in r ==> x in db.existing || (x in db.home && x !in db.filtered)
  {
    if RegenerationKey(accountId) in strings then
      FromDatabase(db, limit, max, Some(since))
    else
      var cached := FromRedis(ZOf(z, FeedManager.Key(timelineType, accountId)), db.existing, limit, max, since);
      FillFromDatabase(cached, db, limit, max, since)
  }

  /** While the regeneration flag is set the cache is not read: any cache content gives the same page. */
  lemma GetWhileRegenerating(z1: ZSets, z2: ZSets, strings: map<string, int>, timelineType: string, accountId: int,
                             db: Database, limit: nat, max: Option<int>, since: int)
    requires RegenerationKey(accountId) in strings
    ensures Get(z1, strings, timelineType, accountId, db, limit, max, since)
         == Get(z2, strings, timelineType, accountId, db, limit, max, since)
    ensures forall x :: x in Get(z1, strings, timelineType, accountId, db, limit, max, since) ==>
              x in db.home && x !in db.filtered
  {
  }

  /** A cache that fills the page answers alone: the database is asked for nothing. */
  lemma FillFromFullCache(cached: seq<int>, db: Database, limit: nat, max: Option<int>, since: int)
    requires |cached| == limit && StrictlyDesc(cached)
    requires forall x :: x in cached ==> InIdRange(x, max, Some(since))
    ensures FillFromDatabase(cached, db, limit, max, since) == cached
  {
    var below := if |cached| > 0 then Some(cached[|cached| - 1]) else max;
    assert FromDatabase(db, 0, below, Some(since)) == [];
  }

  /** With nothing cached in range, the page is the database page for the same bounds. */
  lemma FillFromEmptyCache(db: Database, limit: nat, max: Option<int>, since: int)
    ensures FillFromDatabase([], db, limit, max, since) == FromDatabase(db, limit, max, Some(since))
  {
    NilAppend(FromDatabase(db, limit, max, Some(since)));
  }

  lemma NilAppend(b: seq<int>)
    ensures [] + b == b
  {
  }

}
