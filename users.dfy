/**
 * The parts of `User` the timeline code consults: how long a sign-in keeps
 * the home feed alive, which status the feed was last known to hold, the
 * default privacy, and the cleaning of the filtered-languages list.
 *
 * Times are whole seconds; `now` is a parameter.
 */
module Users {
  import opened Wrappers
  import opened StatusQueries
  import opened Text

  /** A sign-in is recorded again after a day. */
  const UPDATE_SIGN_IN_DURATION: int := 86400
  /** A feed older than two days is regenerated at the next sign-in. */
  const FEED_UPDATED_DURATION: int := UPDATE_SIGN_IN_DURATION * 2
  /** A feed is kept for fourteen days after the last sign-in. */
  const FEED_PERSISTENT_DURATION: int := 14 * 86400

  /**
   * The two constraints the constants are documented to keep: feeds are
   * regenerated no sooner than two sign-in updates apart, and kept at least
   * that long.
   */
  lemma DurationsConsistent()
    ensures FEED_UPDATED_DURATION >= 2 * UPDATE_SIGN_IN_DURATION
    ensures FEED_PERSISTENT_DURATION >= FEED_UPDATED_DURATION
  {
  }

  /**
   * `feed_persistent?`: signed in within the last fourteen days, and the
   * sign-in before that was itself within fourteen days of it.
   */
  predicate FeedPersistent(currentSignInAt: Option<int>, lastSignInAt: Option<int>, now: int) {
    currentSignInAt.Some? && currentSignInAt.value > now - FEED_PERSISTENT_DURATION
    && (lastSignInAt.None? || lastSignInAt.value > currentSignInAt.value - FEED_PERSISTENT_DURATION)
  }

  /** The `feed_expired` scope: last sign-in more than fourteen days ago (SQL: a NULL never matches). */
  predicate FeedExpired(currentSignInAt: Option<int>, now: int) {
    currentSignInAt.Some? && currentSignInAt.value < now - FEED_PERSISTENT_DURATION
  }

  /** No user is both in the `feed_expired` scope and `feed_persistent?`; a user never signed in is neither. */
  lemma ExpiredNotPersistent(currentSignInAt: Option<int>, lastSignInAt: Option<int>, now: int)
    ensures FeedExpired(currentSignInAt, now) ==> !FeedPersistent(currentSignInAt, lastSignInAt, now)
    ensures currentSignInAt.None? ==> !FeedExpired(currentSignInAt, now) && !FeedPersistent(currentSignInAt, lastSignInAt, now)
  {
  }

  /**
   * `last_updated_feed_status_id`: the newest status created before the
   * feed went stale (`lastSignInAt + FEED_UPDATED_DURATION`), nil when the
   * user never signed in before or no status is that old. `createdAt` maps
   * status ids to their creation times.
   */
  ghost function LastUpdatedFeedStatusId(lastSignInAt: Option<int>, createdAt: map<int, int>): (r: Option<int>)
    ensures lastSignInAt.None? ==> r.None?
    ensures r.Some? ==> r.value in createdAt && createdAt[r.value] < lastSignInAt.value + FEED_UPDATED_DURATION
    ensures r.Some? ==> forall id :: id in createdAt && createdAt[id] < lastSignInAt.value + FEED_UPDATED_DURATION ==> id <= r.value
    ensures lastSignInAt.Some? && r.None? ==> forall id :: id in createdAt ==> createdAt[id] >= lastSignInAt.value + FEED_UPDATED_DURATION
  {
    if lastSignInAt.None? then None
    else
      var bound := lastSignInAt.value + FEED_UPDATED_DURATION;
      var candidates := set id | id in createdAt && createdAt[id] < bound;
      var older := IdsDesc(candidates);
      if |older| == 0 then
        assert candidates == {};
        assert forall id :: id in createdAt ==> createdAt[id] >= bound by {
          forall id | id in createdAt ensures createdAt[id] >= bound {
            assert id !in candidates;
          }
        }
        None
      else
        assert older[0] in older;
        assert forall id :: id in createdAt && createdAt[id] < bound ==> id <= older[0] by {
          forall id | id in createdAt && createdAt[id] < bound ensures id <= older[0] {
            assert id in candidates;
            assert id in older;
            var i :| 0 <= i < |older| && older[i] == id;
            if i > 0 {
              assert older[0] > older[i];
            }
          }
        }
        Some(older[0])
  }

  /** `setting_default_privacy`: the explicit setting, else 'private' for a locked account and 'public' otherwise. */
  function DefaultPrivacy(setting: Option<string>, locked: bool): (r: string)
    ensures setting.Some? ==> r == setting.value
    ensures setting.None? ==> (r == "private" <==> locked)
    ensures setting.None? ==> r in {"private", "public"}
  {
    if setting.Some? then setting.value else if locked then "private" else "public"
  }

  /** `blank?` on a string: empty or white space only (ASCII white space; see `IsSpace`). */
  predicate Blank(s: string) {
    forall i :: 0 <= i < |s| ==> IsSpace(s[i])
  }

  /** The entries that are not blank, in their order. */
  function NonBlank(s: seq<string>): (r: seq<string>)
    ensures |r| <= |s|
    ensures forall x :: x in r <==> x in s && !Blank(x)
  {
    if s == [] then []
    else if Blank(s[0]) then NonBlank(s[1..])
    else [s[0]] + NonBlank(s[1..])
  }

  /** Filtering one more entry extends the filtered list by that entry, or not at all. */
  lemma {:induction false} NonBlankSnoc(s: seq<string>, x: string)
    ensures NonBlank(s + [x]) == NonBlank(s) + (if Blank(x) then [] else [x])
  {
    if s != [] {
      assert (s + [x])[1..] == s[1..] + [x];
      NonBlankSnoc(s[1..], x);
    } else {
      assert [x][1..] == [];
    }
  }

  /** Cleaning twice is cleaning once. */
  lemma {:induction false} NonBlankIdempotent(s: seq<string>)
    ensures NonBlank(NonBlank(s)) == NonBlank(s)
  {
    if s != [] {
      NonBlankIdempotent(s[1..]);
      if !Blank(s[0]) {
        assert ([s[0]] + NonBlank(s[1..]))[1..] == NonBlank(s[1..]);
      }
    }
  }

  /** A list with no blank entry is left as it is. */
  lemma {:induction false} NonBlankKeepsClean(s: seq<string>)
    requires forall i :: 0 <= i < |s| ==> !Blank(s[i])
    ensures NonBlank(s) == s
  {
    if s != [] {
      assert !Blank(s[0]);
      NonBlankKeepsClean(s[1..]);
    }
  }

  class User {
    const accountId: int
    var confirmed: bool
    var currentSignInAt: Option<int>
    var lastSignInAt: Option<int>
    var signInCount: nat
    var filteredLanguages: seq<string>

    constructor(accountId: int, confirmed: bool, currentSignInAt: Option<int>, lastSignInAt: Option<int>,
                signInCount: nat, filteredLanguages: seq<string>)
      ensures this.accountId == accountId && this.confirmed == confirmed
      ensures this.currentSignInAt == currentSignInAt && this.lastSignInAt == lastSignInAt
      ensures this.signInCount == signInCount && this.filteredLanguages == filteredLanguages
    {
      this.accountId := accountId;
      this.confirmed := confirmed;
      this.currentSignInAt := currentSignInAt;
      this.lastSignInAt := lastSignInAt;
      this.signInCount := signInCount;
      this.filteredLanguages := filteredLanguages;
    }

    /** `sanitize_languages`: `reject!(&:blank?)` on the filtered languages. */
    method SanitizeLanguages()
      modifies this
      ensures filteredLanguages == NonBlank(old(filteredLanguages))
      ensures confirmed == old(confirmed) && signInCount == old(signInCount)
      ensures currentSignInAt == old(currentSignInAt) && lastSignInAt == old(lastSignInAt)
    {
      var langs := filteredLanguages;
      var kept := [];
      var i := 0;
      while i < |langs|
        invariant 0 <= i <= |langs|
        invariant kept == NonBlank(langs[..i])
        invariant unchanged(this)
      {
        NonBlankSnoc(langs[..i], langs[i]);
        assert langs[..i + 1] == langs[..i] + [langs[i]];
        if !Blank(langs[i]) {
          kept := kept + [langs[i]];
        }
        i := i + 1;
      }
      assert langs[..i] == langs;
      filteredLanguages := kept;
    }

    /**
     * Devise's `update_tracked_fields!`: the previous sign-in (or this one,
     * for a first sign-in) becomes the last, `now` the current, and the
     * count goes up by one.
     */
    method UpdateTrackedFields(now: int)
      modifies this
      ensures lastSignInAt == Some(old(currentSignInAt).GetOr(now))
      ensures currentSignInAt == Some(now)
      ensures signInCount == old(signInCount) + 1
      ensures confirmed == old(confirmed) && filteredLanguages == old(filteredLanguages)
    {
      lastSignInAt := Some(currentSignInAt.GetOr(now));
      currentSignInAt := Some(now);
      signInCount := signInCount + 1;
    }
  }
}
