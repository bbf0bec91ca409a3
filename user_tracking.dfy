/**
 * Sign-in tracking on every signed-in request (`UserTrackingConcern`):
 * at most once a day it records the sign-in, and a user whose feed went
 * stale gets the regeneration flag set and a regeneration job queued.
 */
module UserTracking {
  import opened Wrappers
  import opened RedisStore
  import opened Users
  import Feed

  /** The flag's lifetime: one day. */
  const REGENERATION_FLAG_TTL: int := 3600 * 24

  /** `user_needs_sign_in_update?`: never signed in, or last recorded more than a day ago. */
  predicate NeedsSignInUpdate(currentSignInAt: Option<int>, now: int) {
    currentSignInAt.None? || currentSignInAt.value < now - UPDATE_SIGN_IN_DURATION
  }

  /** `user_needs_feed_update?`: the previous sign-in is more than `FEED_UPDATED_DURATION` ago. */
  predicate NeedsFeedUpdate(lastSignInAt: int, now: int) {
    lastSignInAt < now - FEED_UPDATED_DURATION
  }

  /** A Redis reply as the Ruby client hands it back. */
  datatype Reply = Bool(b: bool) | Integer(n: int)

  /** The Ruby client answers SETNX with `true` or `false`, never with an Integer. */
  function SetNxReply(created: bool): (r: Reply)
    ensures r.Bool? && r.b == created
  {
    Bool(created)
  }

  /** Ruby's `==` between a boolean and an Integer is false: `setnx(...) == 1` never holds. */
  lemma SetNxReplyNeverOne(created: bool)
    ensures SetNxReply(created) != Integer(1)
  {
  }

  /**
   * `regenerate_feed!` as written: SETNX the account's regeneration flag
   * and queue the regeneration job (returned as the account id it is for).
   * The `expire` behind `setnx(...) == 1 &&` is never evaluated, so the
   * flag is created without an expiry.
   */
  method RegenerateFeed(r: Redis, accountId: int) returns (queued: int)
    modifies r
    ensures var key := Feed.RegenerationKey(accountId);
      && r.strings == (if key in old(r.strings) then old(r.strings) else old(r.strings)[key := 1])
      && r.ttl == old(r.ttl)
    ensures r.zsets == old(r.zsets)
    ensures queued == accountId
  {
    var key := Feed.RegenerationKey(accountId);
    var created := r.SetNx(key, 1);
    SetNxReplyNeverOne(created);
    queued := accountId;
  }

  /**
   * `regenerate_feed!` as evidently intended: the flag gets its one-day
   * expiry exactly when this call created it.
   */
  method RegenerateFeedIntended(r: Redis, accountId: int) returns (queued: int)
    modifies r
    ensures var key := Feed.RegenerationKey(accountId);
      && r.strings == (if key in old(r.strings) then old(r.strings) else old(r.strings)[key := 1])
      && r.ttl == (if key in old(r.strings) then old(r.ttl) else old(r.ttl)[key := REGENERATION_FLAG_TTL])
    ensures r.zsets == old(r.zsets)
    ensures queued == accountId
  {
    var key := Feed.RegenerationKey(accountId);
    var created := r.SetNx(key, 1);
    if created {
      var _ := r.Expire(key, REGENERATION_FLAG_TTL);
    }
    queued := accountId;
  }

  /**
   * `set_user_activity`: record the sign-in, then regenerate the feed when
   * the sign-in before this one is older than `FEED_UPDATED_DURATION`.
   */
  method SetUserActivity(u: User, r: Redis, now: int) returns (queued: Option<int>)
    modifies u, r
    ensures u.currentSignInAt == Some(now)
    ensures u.lastSignInAt == Some(old(u.currentSignInAt).GetOr(now))
    ensures u.signInCount == old(u.signInCount) + 1
    ensures u.confirmed == old(u.confirmed) && u.filteredLanguages == old(u.filteredLanguages)
    ensures queued.Some? <==> NeedsFeedUpdate(u.lastSignInAt.value, now)
    ensures queued.Some? ==> queued.value == u.accountId
    ensures queued.None? ==> r.strings == old(r.strings)
    ensures r.ttl == old(r.ttl)
    ensures r.zsets == old(r.zsets)
    ensures queued.Some? ==> Feed.RegenerationKey(u.accountId) in r.strings
  {
    u.UpdateTrackedFields(now);
    if NeedsFeedUpdate(u.lastSignInAt.value, now) {
      var job := RegenerateFeed(r, u.accountId);
      queued := Some(job);
    } else {
      queued := None;
    }
  }

  /**
   * The `before_action`: tracking runs only for a signed-in user whose
   * sign-in needs recording; otherwise nothing changes.
   */
  method TrackRequest(signedIn: bool, u: User, r: Redis, now: int) returns (queued: Option<int>)
    modifies u, r
    ensures !(signedIn && NeedsSignInUpdate(old(u.currentSignInAt), now)) ==>
      queued.None? && unchanged(u) && unchanged(r)
    ensures signedIn && NeedsSignInUpdate(old(u.currentSignInAt), now) ==>
              && u.currentSignInAt == Some(now)
              && u.lastSignInAt == Some(old(u.currentSignInAt).GetOr(now))
              && u.signInCount == old(u.signInCount) + 1
              && u.confirmed == old(u.confirmed) && u.filteredLanguages == old(u.filteredLanguages)
              && (queued.Some? <==> NeedsFeedUpdate(old(u.currentSignInAt).GetOr(now), now))
              && (queued.None? ==> r.strings == old(r.strings))
              && r.ttl == old(r.ttl) && r.zsets == old(r.zsets)
    ensures queued.Some? ==>
              signedIn && NeedsSignInUpdate(old(u.currentSignInAt), now)
              && NeedsFeedUpdate(old(u.currentSignInAt).GetOr(now), now)
    ensures queued.Some? ==> queued.value == u.accountId && Feed.RegenerationKey(u.accountId) in r.strings
  {
    if signedIn && NeedsSignInUpdate(u.currentSignInAt, now) {
      queued := SetUserActivity(u, r, now);
    } else {
      queued := None;
    }
  }

  /**
   * Regeneration only ever follows a sign-in update: a previous sign-in
   * old enough to regenerate the feed is also old enough to need recording,
   * because the feed duration is at least the sign-in duration.
   */
  lemma FeedUpdateNeedsSignInUpdate(currentSignInAt: int, now: int)
    requires NeedsFeedUpdate(currentSignInAt, now)
    ensures NeedsSignInUpdate(Some(currentSignInAt), now)
  {
    DurationsConsistent();
  }

  /** A first sign-in is recorded, and the previous sign-in it records is itself: no regeneration. */
  lemma FirstSignInKeepsFeed(now: int)
    ensures NeedsSignInUpdate(None, now)
    ensures !NeedsFeedUpdate(now, now)
  {
  }
}
