/**
 * The scheduled cleanup (`Scheduler::FeedCleanupScheduler`): delete the
 * cached home timeline of every confirmed user who has not signed in for
 * `FEED_PERSISTENT_DURATION`.
 */
module FeedCleanup {
  import opened Wrappers
  import opened RedisStore
  import opened Users
  import opened Collections
  import FeedManager

  /** The columns the scheduler's query reads of one user. */
  datatype UserRow = UserRow(accountId: int, confirmed: bool, currentSignInAt: Option<int>)

  /** `User.confirmed.feed_expired` */
  predicate Expired(u: UserRow, now: int) {
    u.confirmed && FeedExpired(u.currentSignInAt, now)
  }

  /** The keys the scheduler deletes: `feed:home:<account id>` of each expired, confirmed user. */
  function ExpiredKeys(users: seq<UserRow>, now: int): (ks: set<string>)
    ensures forall i :: 0 <= i < |users| && Expired(users[i], now) ==> FeedManager.Key("home", users[i].accountId) in ks
    ensures forall k :: k in ks ==> exists i :: 0 <= i < |users| && Expired(users[i], now) && k == FeedManager.Key("home", users[i].accountId)
  {
    set i | 0 <= i < |users| && Expired(users[i], now) :: FeedManager.Key("home", users[i].accountId)
  }

  lemma ExpiredKeysSnoc(users: seq<UserRow>, u: UserRow, now: int)
    ensures ExpiredKeys(users + [u], now)
         == ExpiredKeys(users, now) + (if Expired(u, now) then {FeedManager.Key("home", u.accountId)} else {})
  {
    var s := users + [u];
    forall k | k in ExpiredKeys(s, now)
      ensures k in ExpiredKeys(users, now) + (if Expired(u, now) then {FeedManager.Key("home", u.accountId)} else {})
    {
      var i :| 0 <= i < |s| && Expired(s[i], now) && k == FeedManager.Key("home", s[i].accountId);
      if i < |users| {
        assert s[i] == users[i];
      }
    }
    forall i | 0 <= i < |users| && Expired(users[i], now) ensures FeedManager.Key("home", users[i].accountId) in ExpiredKeys(s, now) {
      assert s[i] == users[i];
    }
    assert s[|users|] == u;
  }

  /** One more user row: its home key goes when it is expired. */
  lemma DeleteStep<V>(m0: map<string, V>, m: map<string, V>, users: seq<UserRow>, i: nat, now: int)
    requires i < |users| && m == m0 - ExpiredKeys(users[..i], now)
    ensures (if Expired(users[i], now) then m - {FeedManager.Key("home", users[i].accountId)} else m)
         == m0 - ExpiredKeys(users[..i + 1], now)
  {
    ExpiredKeysSnoc(users[..i], users[i], now);
    PrefixSnoc(users, i);
    if Expired(users[i], now) {
      MinusStep(m0, ExpiredKeys(users[..i], now), FeedManager.Key("home", users[i].accountId));
    }
  }

  /** `perform`: one DEL per matching user. */
  method Perform(r: Redis, users: seq<UserRow>, now: int)
    modifies r
    ensures r.zsets == old(r.zsets) - ExpiredKeys(users, now)
    ensures r.strings == old(r.strings) - ExpiredKeys(users, now)
    ensures r.ttl == old(r.ttl) - ExpiredKeys(users, now)
  {
    var i := 0;
    while i < |users|
      invariant 0 <= i <= |users|
      invariant r.zsets == old(r.zsets) - ExpiredKeys(users[..i], now)
      invariant r.strings == old(r.strings) - ExpiredKeys(users[..i], now)
      invariant r.ttl == old(r.ttl) - ExpiredKeys(users[..i], now)
    {
      DeleteStep(old(r.zsets), r.zsets, users, i, now);
      DeleteStep(old(r.strings), r.strings, users, i, now);
      DeleteStep(old(r.ttl), r.ttl, users, i, now);
      if Expired(users[i], now) {
        r.Del(FeedManager.Key("home", users[i].accountId));
      }
      i := i + 1;
    }
    assert users[..i] == users;
  }

  /**
   * A user's home timeline survives the cleanup when the user is
   * unconfirmed or still active, unless another matching user row has the
   * same account.
   */
  lemma KeptUnlessExpired(users: seq<UserRow>, now: int, j: nat)
    requires j < |users| && !Expired(users[j], now)
    requires forall i :: 0 <= i < |users| && Expired(users[i], now) ==> users[i].accountId != users[j].accountId
    ensures FeedManager.Key("home", users[j].accountId) !in ExpiredKeys(users, now)
  {
    forall i | 0 <= i < |users| && Expired(users[i], now)
      ensures FeedManager.Key("home", users[i].accountId) != FeedManager.Key("home", users[j].accountId)
    {
      FeedManager.KeyEquality("home", users[i].accountId, "home", users[j].accountId);
    }
  }

  /** Only home timelines are ever deleted. */
  lemma OnlyHomeKeys(users: seq<UserRow>, now: int, timelineType: string, id: int)
    requires timelineType != "home" && forall i :: 0 <= i < |timelineType| ==> timelineType[i] != ':'
    ensures FeedManager.Key(timelineType, id) !in ExpiredKeys(users, now)
  {
    forall i | 0 <= i < |users| && Expired(users[i], now)
      ensures FeedManager.Key("home", users[i].accountId) != FeedManager.Key(timelineType, id)
    {
      FeedManager.KeyEquality("home", users[i].accountId, timelineType, id);
    }
  }

  /** Running the cleanup again right away deletes nothing more. */
  lemma PerformIdempotent<V>(m: map<string, V>, users: seq<UserRow>, now: int)
    ensures (m - ExpiredKeys(users, now)) - ExpiredKeys(users, now) == m - ExpiredKeys(users, now)
  {
  }
}
