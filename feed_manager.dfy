/**
 * FeedManager: fan-out of statuses into per-account timelines (Redis
 * sorted sets of member = status id, score = ordering id), the filters
 * deciding who receives a status, and the repairs run when relationships
 * change (merge on follow, unmerge on unfollow, clear on block).
 */
module FeedManager {
  import opened Wrappers
  import opened Decimal
  import opened SortedSet
  import opened RedisStore
  import opened Statuses
  import opened Collections

  /** Timelines are trimmed back to this many entries. */
  const MAX_ITEMS: nat := 400

  /** A reblog is not re-inserted when its original ranks above this position. */
  const REBLOG_RANK_WINDOW: nat := 40

  /* ---------------- Keys ---------------- */

  /** `feed:<type>:<id>` */
  function Key(timelineType: string, id: int): (k: string)
    ensures |k| == 6 + |timelineType| + |Show(id)|
  {
    "feed:" + timelineType + ":" + Show(id)
  }

  /** `subscribed:timeline:<id>`, present while the account has a streaming client. */
  function SubscribedKey(id: int): string
  {
    "subscribed:timeline:" + Show(id)
  }

  /** The position of the first ':' in `s`, or `|s|`. */
  function ColonIndex(s: string): (i: nat)
    ensures i <= |s|
    ensures i < |s| ==> s[i] == ':'
    ensures forall j :: 0 <= j < i ==> s[j] != ':'
  {
    if s == [] then 0 else if s[0] == ':' then 0 else 1 + ColonIndex(s[1..])
  }

  lemma {:induction false} ColonIndexAfter(t: string, rest: string)
    requires forall j :: 0 <= j < |t| ==> t[j] != ':'
    ensures ColonIndex(t + ":" + rest) == |t|
  {
    if t != [] {
      assert (t + ":" + rest)[1..] == t[1..] + ":" + rest;
      ColonIndexAfter(t[1..], rest);
    }
  }

  /** After the "feed:" prefix, a key splits at its first ':' into the type and the id. */
  lemma KeySplit(t: string, a: int)
    requires forall j :: 0 <= j < |t| ==> t[j] != ':'
    ensures var s := Key(t, a)[5..]; ColonIndex(s) == |t| && s[..|t|] == t && s[|t| + 1..] == Show(a)
  {
    assert Key(t, a)[5..] == t + ":" + Show(a);
    SplitAtColon(t, Show(a));
  }

  lemma SplitAtColon(t: string, rest: string)
    requires forall j :: 0 <= j < |t| ==> t[j] != ':'
    ensures var s := t + ":" + rest; ColonIndex(s) == |t| && s[..|t|] == t && s[|t| + 1..] == rest
  {
    var s := t + ":" + rest;
    ColonIndexAfter(t, rest);
    assert s[..|t|] == t;
    assert s[|t| + 1..] == rest;
  }

  /** Distinct (type, id) pairs name distinct timelines when the type has no ':'. */
  lemma KeyInjective(t1: string, a: int, t2: string, b: int)
    requires forall j :: 0 <= j < |t1| ==> t1[j] != ':'
    requires forall j :: 0 <= j < |t2| ==> t2[j] != ':'
    requires Key(t1, a) == Key(t2, b)
    ensures t1 == t2 && a == b
  {
    KeySplit(t1, a);
    KeySplit(t2, b);
    var s := Key(t1, a)[5..];
    assert t1 == s[..|t1|] == t2;
    assert Show(a) == s[|t1| + 1..] == Show(b);
    ShowInjective(a, b);
  }

  /** Two timelines share a key exactly when they have the same type and account. */
  lemma KeyEquality(t1: string, a: int, t2: string, b: int)
    requires forall j :: 0 <= j < |t1| ==> t1[j] != ':'
    requires forall j :: 0 <= j < |t2| ==> t2[j] != ':'
    ensures Key(t1, a) == Key(t2, b) <==> t1 == t2 && a == b
  {
    if Key(t1, a) == Key(t2, b) {
      KeyInjective(t1, a, t2, b);
    }
  }

  /* ---------------- Who receives a status ---------------- */

  /**
   * `filter_subscribers`: the subscribers that may see `s`. Replies whose
   * target status is unknown reach nobody; muters of the author (or the
   * reblogged author) and blockers of a mentioned account (or the reblogged
   * author) are dropped; a reply to someone else reaches only followers of
   * the replied-to account and that account itself (both through the inner
   * join on follows); otherwise a reblog is hidden from accounts the
   * reblogged author blocks and from accounts hiding the author's domain.
   */
  function FilterSubscribers(rel: Relations, s: Status, subscribers: set<int>): (r: set<int>)
    ensures r <= subscribers
    ensures s.reply && s.inReplyToId.None? ==> r == {}
    ensures forall a :: a in r ==> !rel.Mutes(a, s.accountId)
    ensures forall a :: a in r ==> forall i :: 0 <= i < |s.mentions| ==> !rel.Blocks(a, s.mentions[i])
    ensures s.reblog.Some? ==> forall a :: a in r ==>
      !rel.Mutes(a, s.reblog.value.accountId) && !rel.Blocks(a, s.reblog.value.accountId)
    ensures IsReplyToOther(s) ==> forall a :: a in r ==>
      rel.Follows(a, s.inReplyToAccountId.value) || a == s.inReplyToAccountId.value
    ensures s.reblog.Some? && !(s.reply && s.inReplyToAccountId.Some?) ==> forall a :: a in r ==>
      !rel.Blocks(s.reblog.value.accountId, a) && !rel.BlocksDomain(a, s.reblog.value.accountDomain)
  {
    if s.reply && s.inReplyToId.None? then {}
    else
      var checkMutes := [s.accountId] + ReblogAuthor(s);
      var checkBlocks := s.mentions + ReblogAuthor(s);
      assert forall i :: 0 <= i < |s.mentions| ==> checkBlocks[i] == s.mentions[i];
      var base := set a | a in subscribers && !rel.BlocksAnyOf(a, checkBlocks) && !rel.MutesAnyOf(a, checkMutes);
      assert checkMutes[0] == s.accountId;
      assert s.reblog.Some? ==> (checkMutes[1] == s.reblog.value.accountId
        && checkBlocks[|s.mentions|] == s.reblog.value.accountId);
      assert forall a :: a in base ==> !rel.Mutes(a, s.accountId);
      if s.reply && s.inReplyToAccountId.Some? then
        var target := s.inReplyToAccountId.value;
        if s.accountId != target then
          set a | a in base && rel.FollowsAnyone(a) && (rel.Follows(a, target) || a == target)
        else
          base
      else if s.reblog.Some? then
        var author := s.reblog.value;
        set a | a in base && !rel.Blocks(author.accountId, a) && !rel.BlocksDomain(a, author.accountDomain)
      else
        base
  }

  function ReblogAuthor(s: Status): (r: seq<int>)
    ensures |r| == if s.reblog.Some? then 1 else 0
  {
    if s.reblog.Some? then [s.reblog.value.accountId] else []
  }

  /** A reply with a known target account that is not its own author. */
  predicate IsReplyToOther(s: Status) {
    s.reply && s.inReplyToId.Some? && s.inReplyToAccountId.Some? && s.accountId != s.inReplyToAccountId.value
  }

  /**
   * The filters let through every subscriber they do not name: with a known
   * reply target that is someone else, a follower of the target (or the
   * target, when it follows anyone) who mutes and blocks none of the checked
   * accounts receives the status.
   */
  lemma FilterSubscribersKeepsFollowers(rel: Relations, s: Status, subscribers: set<int>, a: int)
    requires IsReplyToOther(s) && a in subscribers
    requires rel.Follows(a, s.inReplyToAccountId.value)
    requires !rel.Mutes(a, s.accountId) && (s.reblog.Some? ==> !rel.Mutes(a, s.reblog.value.accountId))
    requires forall i :: 0 <= i < |s.mentions| ==> !rel.Blocks(a, s.mentions[i])
    requires s.reblog.Some? ==> !rel.Blocks(a, s.reblog.value.accountId)
    ensures a in FilterSubscribers(rel, s, subscribers)
  {
    var checkMutes := [s.accountId] + ReblogAuthor(s);
    var checkBlocks := s.mentions + ReblogAuthor(s);
    assert !rel.MutesAnyOf(a, checkMutes);
    assert !rel.BlocksAnyOf(a, checkBlocks) by {
      forall i | 0 <= i < |checkBlocks| ensures !rel.Blocks(a, checkBlocks[i]) {
        if i < |s.mentions| {
          assert checkBlocks[i] == s.mentions[i];
        }
      }
    }
    assert (s.accountId, s.inReplyToAccountId.value).0 == s.accountId;
    assert rel.FollowsAnyone(a) by {
      assert (a, s.inReplyToAccountId.value) in rel.follows;
    }
  }

  /**
   * A self-reply, or a status that is neither a reply with a known target
   * nor a reblog, is filtered by mutes and blocks alone.
   */
  lemma FilterSubscribersPlain(rel: Relations, s: Status, subscribers: set<int>, a: int)
    requires !(s.reply && s.inReplyToId.None?)
    requires (s.reply && s.inReplyToAccountId.Some? && s.accountId == s.inReplyToAccountId.value)
      || (!(s.reply && s.inReplyToAccountId.Some?) && s.reblog.None?)
    requires a in subscribers && !rel.Mutes(a, s.accountId) && (s.reblog.Some? ==> !rel.Mutes(a, s.reblog.value.accountId))
    requires forall i :: 0 <= i < |s.mentions| ==> !rel.Blocks(a, s.mentions[i])
    requires s.reblog.Some? ==> !rel.Blocks(a, s.reblog.value.accountId)
    ensures a in FilterSubscribers(rel, s, subscribers)
  {
    var checkBlocks := s.mentions + ReblogAuthor(s);
    assert !rel.BlocksAnyOf(a, checkBlocks) by {
      forall i | 0 <= i < |checkBlocks| ensures !rel.Blocks(a, checkBlocks[i]) {
        if i < |s.mentions| {
          assert checkBlocks[i] == s.mentions[i];
        }
      }
    }
  }

  /**
   * A reblog that is not a reply with a known target reaches every
   * subscriber the filters do not name: one who mutes and blocks none of
   * the checked accounts, is not blocked by the reblogged author and does
   * not hide the author's domain.
   */
  lemma FilterSubscribersKeepsReblog(rel: Relations, s: Status, subscribers: set<int>, a: int)
    requires !(s.reply && s.inReplyToId.None?) && !(s.reply && s.inReplyToAccountId.Some?)
    requires s.reblog.Some? && a in subscribers
    requires !rel.Mutes(a, s.accountId) && !rel.Mutes(a, s.reblog.value.accountId)
    requires forall i :: 0 <= i < |s.mentions| ==> !rel.Blocks(a, s.mentions[i])
    requires !rel.Blocks(a, s.reblog.value.accountId)
    requires !rel.Blocks(s.reblog.value.accountId, a) && !rel.BlocksDomain(a, s.reblog.value.accountDomain)
    ensures a in FilterSubscribers(rel, s, subscribers)
  {
    var checkMutes := [s.accountId] + ReblogAuthor(s);
    var checkBlocks := s.mentions + ReblogAuthor(s);
    assert !rel.MutesAnyOf(a, checkMutes);
    assert !rel.BlocksAnyOf(a, checkBlocks) by {
      forall i | 0 <= i < |checkBlocks| ensures !rel.Blocks(a, checkBlocks[i]) {
        if i < |s.mentions| {
          assert checkBlocks[i] == s.mentions[i];
        }
      }
    }
  }

  /**
   * `filter_mentions`: the mentioned accounts that are notified. The author
   * is never notified of its own mention; an account blocking the author, a
   * mentioned account or the replied-to account is skipped; when the author
   * is silenced only its followers are notified.
   */
  function FilterMentions(rel: Relations, s: Status, authorSilenced: bool): (r: set<int>)
    ensures forall a :: a in r ==> a in s.mentions && a != s.accountId && !rel.Blocks(a, s.accountId)
    ensures forall a :: a in r ==> forall i :: 0 <= i < |s.mentions| ==> !rel.Blocks(a, s.mentions[i])
    ensures s.reply && s.inReplyToAccountId.Some? ==>
      forall a :: a in r ==> !rel.Blocks(a, s.inReplyToAccountId.value)
    ensures authorSilenced ==> forall a :: a in r ==> rel.Follows(a, s.accountId)
  {
    var replyTarget := if s.reply && s.inReplyToAccountId.Some? then [s.inReplyToAccountId.value] else [];
    var checkBlocks := [s.accountId] + s.mentions + replyTarget;
    assert checkBlocks[0] == s.accountId;
    assert forall i :: 0 <= i < |s.mentions| ==> checkBlocks[i + 1] == s.mentions[i];
    assert s.reply && s.inReplyToAccountId.Some? ==> checkBlocks[|checkBlocks| - 1] == s.inReplyToAccountId.value;
    set a | a in s.mentions && a != s.accountId && !rel.BlocksAnyOf(a, checkBlocks)
      && (!authorSilenced || rel.Follows(a, s.accountId))
  }

  /**
   * The mention filter lets through every mentioned account it does not
   * name: not the author, blocking none of the checked accounts, and
   * following the author when the author is silenced.
   */
  lemma FilterMentionsKeeps(rel: Relations, s: Status, authorSilenced: bool, a: int)
    requires a in s.mentions && a != s.accountId && !rel.Blocks(a, s.accountId)
    requires forall i :: 0 <= i < |s.mentions| ==> !rel.Blocks(a, s.mentions[i])
    requires s.reply && s.inReplyToAccountId.Some? ==> !rel.Blocks(a, s.inReplyToAccountId.value)
    requires authorSilenced ==> rel.Follows(a, s.accountId)
    ensures a in FilterMentions(rel, s, authorSilenced)
  {
    var replyTarget := if s.reply && s.inReplyToAccountId.Some? then [s.inReplyToAccountId.value] else [];
    var checkBlocks := [s.accountId] + s.mentions + replyTarget;
    assert !rel.BlocksAnyOf(a, checkBlocks) by {
      forall i | 0 <= i < |checkBlocks| ensures !rel.Blocks(a, checkBlocks[i]) {
        if i == 0 {
        } else if i <= |s.mentions| {
          assert checkBlocks[i] == s.mentions[i - 1];
        } else {
          assert checkBlocks[i] == s.inReplyToAccountId.value;
        }
      }
    }
  }

  /* ---------------- Which timelines a push reaches ---------------- */

  /**
   * `subscribing_account_ids`: for home timelines, the ids whose
   * subscribed marker is present, in input order; other types keep all ids.
   */
  function Subscribing(strings: map<string, int>, timelineType: string, ids: seq<int>): (r: seq<int>)
    ensures timelineType != "home" ==> r == ids
    ensures timelineType == "home" ==> forall x :: x in r <==> x in ids && SubscribedKey(x) in strings
    ensures |r| <= |ids|
  {
    if timelineType != "home" then ids
    else if ids == [] then []
    else (if SubscribedKey(ids[0]) in strings then [ids[0]] else []) + Subscribing(strings, timelineType, ids[1..])
  }

  /** Narrowing distributes over concatenation: the accounts kept stay in their order. */
  lemma {:induction false} SubscribingAppend(strings: map<string, int>, timelineType: string, a: seq<int>, b: seq<int>)
    ensures Subscribing(strings, timelineType, a + b) == Subscribing(strings, timelineType, a) + Subscribing(strings, timelineType, b)
  {
    if timelineType != "home" {
    } else if a == [] {
      assert a + b == b;
    } else {
      var head := if SubscribedKey(a[0]) in strings then [a[0]] else [];
      assert (a + b)[0] == a[0] && (a + b)[1..] == a[1..] + b;
      SubscribingCons(strings, a + b);
      SubscribingCons(strings, a);
      SubscribingAppend(strings, timelineType, a[1..], b);
      ConcatAssoc(head, Subscribing(strings, timelineType, a[1..]), Subscribing(strings, timelineType, b));
    }
  }

  lemma SubscribingCons(strings: map<string, int>, ids: seq<int>)
    requires ids != []
    ensures Subscribing(strings, "home", ids)
         == (if SubscribedKey(ids[0]) in strings then [ids[0]] else []) + Subscribing(strings, "home", ids[1..])
  {
  }

  /** The timeline keys of `ids`, in order. */
  function Keys(timelineType: string, ids: seq<int>): (ks: seq<string>)
    ensures |ks| == |ids| && forall i :: 0 <= i < |ids| ==> ks[i] == Key(timelineType, ids[i])
  {
    seq(|ids|, i requires 0 <= i < |ids| => Key(timelineType, ids[i]))
  }

  /** Reads the subscribed markers and narrows `ids` as `subscribing_account_ids` does. */
  method SubscribingAccountIds(r: Redis, timelineType: string, ids: seq<int>) returns (out: seq<int>)
    ensures out == Subscribing(r.strings, timelineType, ids)
  {
    if timelineType != "home" {
      return ids;
    }
    var markerKeys := SubscribedKeys(ids);
    var markers := r.MGet(markerKeys);
    out := [];
    var i := |ids|;
    while i > 0
      invariant 0 <= i <= |ids|
      invariant out == Subscribing(r.strings, timelineType, ids[i..])
    {
      i := i - 1;
      assert ids[i..][1..] == ids[i + 1..];
      if markers[i].Some? {
        out := [ids[i]] + out;
      }
    }
    assert ids[0..] == ids;
  }

  function SubscribedKeys(ids: seq<int>): (ks: seq<string>)
    ensures |ks| == |ids| && forall i :: 0 <= i < |ids| ==> ks[i] == SubscribedKey(ids[i])
  {
    seq(|ids|, i requires 0 <= i < |ids| => SubscribedKey(ids[i]))
  }

  /* ---------------- Pushing ---------------- */

  /** A reblog is filed into `t` unless its original already ranks within the top `REBLOG_RANK_WINDOW`. */
  ghost predicate ReblogFiled(t: Timeline, original: int) {
    var rank := RevRank(t, original);
    !(rank.Some? && rank.value < REBLOG_RANK_WINDOW)
  }

  /** A reblog reaching one timeline: when filed, the original's member is (re)scored with the reblog's id. */
  ghost function ReblogInto(t: Timeline, original: int, reblogId: int): Timeline {
    if ReblogFiled(t, original) then ZAdd(t, reblogId, original) else t
  }

  /**
   * A reblog is filed once: afterwards the original is present unless it was
   * already near the top, no other entry changes, and delivering the same
   * reblog again changes nothing.
   */
  lemma ReblogIntoSpec(t: Timeline, original: int, reblogId: int)
    ensures var u := ReblogInto(t, original, reblogId);
      && (original in u <==> original in t || ReblogFiled(t, original))
      && (ReblogFiled(t, original) ==> u[original] == reblogId)
      && (forall m :: m != original ==> (m in u <==> m in t) && (m in t ==> u[m] == t[m]))
      && |u| <= |t| + 1
      && ReblogInto(u, original, reblogId) == u
  {
    var u := ReblogInto(t, original, reblogId);
    if ReblogFiled(t, original) {
      assert u == t[original := reblogId];
      assert u[original := reblogId] == u;
    } else {
      assert RevRank(t, original).Some?;
    }
  }

  /** The state of timeline `k` after `push_bulk`. */
  ghost function PushedAt(z: ZSets, strings: map<string, int>, timelineType: string,
                          accountIds: seq<int>, s: Status, k: string): Timeline
  {
    var keys := Keys(timelineType, Subscribing(strings, timelineType, accountIds));
    if k !in keys then ZOf(z, k)
    else if s.reblog.Some? then ReblogInto(ZOf(z, k), s.reblog.value.id, s.id)
    else Trim(ZAdd(ZOf(z, k), s.id, s.id), MAX_ITEMS)
  }

  /**
   * `push_bulk`: delivers `s` to the timelines of `accountIds` (narrowed to
   * subscribed accounts for home timelines). A reblog is filed per
   * `ReblogInto` without trimming; an original is added as (id, id) and the
   * touched timelines are trimmed. `notified` lists the accounts a
   * streaming update is queued for, in order.
   */
  method PushBulk(r: Redis, timelineType: string, accountIds: seq<int>, s: Status) returns (notified: seq<int>)
    modifies r
    ensures r.strings == old(r.strings) && r.ttl == old(r.ttl)
    ensures forall k :: ZOf(r.zsets, k) == PushedAt(old(r.zsets), old(r.strings), timelineType, accountIds, s, k)
    ensures s.reblog.None? ==> notified == Subscribing(old(r.strings), timelineType, accountIds)
    ensures s.reblog.Some? ==> forall a :: a in notified <==>
      (a in Subscribing(old(r.strings), timelineType, accountIds)
       && ReblogFiled(ZOf(old(r.zsets), Key(timelineType, a)), s.reblog.value.id))
  {
    if accountIds == [] {
      return [];
    }
    var ids := SubscribingAccountIds(r, timelineType, accountIds);
    if s.reblog.Some? {
      notified := ReblogBulk(r, timelineType, ids, s.reblog.value.id, s.id);
    } else {
      var keys := Keys(timelineType, ids);
      AddBulk(r, keys, s.id);
      notified := ids;
      TrimBulk(r, keys);
    }
  }

  /**
   * The reblog branch of `push_bulk`: read every rank first, then file the
   * reblog where the rank allows it and queue an update for that account.
   */
  method ReblogBulk(r: Redis, timelineType: string, ids: seq<int>, original: int, reblogId: int)
    returns (notified: seq<int>)
    modifies r
    ensures r.strings == old(r.strings) && r.ttl == old(r.ttl)
    ensures forall k :: ZOf(r.zsets, k) ==
                          (if k in Keys(timelineType, ids) then ReblogInto(ZOf(old(r.zsets), k), original, reblogId) else ZOf(old(r.zsets), k))
    ensures forall a :: a in notified <==> a in ids && ReblogFiled(ZOf(old(r.zsets), Key(timelineType, a)), original)
  {
    ghost var z0 := r.zsets;
    var ranks := ReadRanks(r, timelineType, ids, original);
    var keys := Keys(timelineType, ids);
    var i := 0;
    notified := [];
    ghost var filed: set<string> := {};
    while i < |ids|
      invariant 0 <= i <= |ids|
      invariant r.strings == old(r.strings) && r.ttl == old(r.ttl)
      invariant AddedOn(r.zsets, z0, filed, reblogId, original)
      invariant FiledKeys(filed, keys[..i], z0, original)
      invariant FiledFor(notified, ids[..i], z0, timelineType, original)
    {
      var k := keys[i];
      FiledForStep(notified, ids[..i], z0, timelineType, original, ids[i], ranks[i]);
      FiledKeysStep(filed, keys[..i], z0, original, k);
      if !(ranks[i].Some? && ranks[i].value < REBLOG_RANK_WINDOW) {
        AddedOnStep(r.zsets, z0, filed, reblogId, original, k);
        r.ZAddOne(k, reblogId, original);
        notified := notified + [ids[i]];
        filed := filed + {k};
      }
      PrefixSnoc(ids, i);
      PrefixSnoc(keys, i);
      i := i + 1;
    }
    assert ids[..i] == ids && keys[..i] == keys;
    ReblogOutcome(r.zsets, z0, filed, keys, original, reblogId);
  }

  /** ZREVRANK of `original` on the timeline of each of `ids`, in order. */
  method ReadRanks(r: Redis, timelineType: string, ids: seq<int>, original: int) returns (ranks: seq<Option<nat>>)
    ensures |ranks| == |ids|
    ensures forall j :: 0 <= j < |ids| ==> ranks[j] == RevRank(ZOf(r.zsets, Key(timelineType, ids[j])), original)
  {
    ranks := [];
    var i := 0;
    while i < |ids|
      invariant 0 <= i <= |ids| && |ranks| == i
      invariant forall j :: 0 <= j < i ==> ranks[j] == RevRank(ZOf(r.zsets, Key(timelineType, ids[j])), original)
    {
      var rank := r.ZRevRank(Key(timelineType, ids[i]), original);
      ranks := ranks + [rank];
      i := i + 1;
    }
  }

  /** `notified` holds exactly the accounts of `ids` whose timeline files the reblog. */
  ghost predicate FiledFor(notified: seq<int>, ids: seq<int>, z0: ZSets, timelineType: string, original: int) {
    forall a :: a in notified <==> a in ids && ReblogFiled(ZOf(z0, Key(timelineType, a)), original)
  }

  lemma FiledForStep(notified: seq<int>, ids: seq<int>, z0: ZSets, timelineType: string, original: int, x: int, rank: Option<nat>)
    requires FiledFor(notified, ids, z0, timelineType, original)
    requires rank == RevRank(ZOf(z0, Key(timelineType, x)), original)
    ensures FiledFor(if !(rank.Some? && rank.value < REBLOG_RANK_WINDOW) then notified + [x] else notified,
                     ids + [x], z0, timelineType, original)
  {
  }

  /** `filed` holds exactly the keys of `keys` whose timeline in `z0` files the reblog. */
  ghost predicate FiledKeys(filed: set<string>, keys: seq<string>, z0: ZSets, original: int) {
    forall k :: k in filed <==> k in keys && ReblogFiled(ZOf(z0, k), original)
  }

  lemma FiledKeysStep(filed: set<string>, keys: seq<string>, z0: ZSets, original: int, k: string)
    requires FiledKeys(filed, keys, z0, original)
    ensures FiledKeys(if ReblogFiled(ZOf(z0, k), original) then filed + {k} else filed, keys + [k], z0, original)
  {
  }

  /** Adding the reblog on exactly the filing timelines is `ReblogInto` on every listed timeline. */
  lemma ReblogOutcome(z: ZSets, z0: ZSets, filed: set<string>, keys: seq<string>, original: int, reblogId: int)
    requires AddedOn(z, z0, filed, reblogId, original) && FiledKeys(filed, keys, z0, original)
    ensures forall k :: ZOf(z, k) == if k in keys then ReblogInto(ZOf(z0, k), original, reblogId) else ZOf(z0, k)
  {
  }

  /** ZADD key id id on each timeline of `keys`. */
  method AddBulk(r: Redis, keys: seq<string>, id: int)
    modifies r
    ensures r.strings == old(r.strings) && r.ttl == old(r.ttl)
    ensures forall k :: ZOf(r.zsets, k) == if k in keys then ZAdd(ZOf(old(r.zsets), k), id, id) else ZOf(old(r.zsets), k)
  {
    ghost var z0 := r.zsets;
    var i := 0;
    while i < |keys|
      invariant 0 <= i <= |keys|
      invariant r.strings == old(r.strings) && r.ttl == old(r.ttl)
      invariant AddedOn(r.zsets, z0, Elems(keys[..i]), id, id)
    {
      var k := keys[i];
      AddedOnStep(r.zsets, z0, Elems(keys[..i]), id, id, k);
      r.ZAddOne(k, id, id);
      PrefixSnoc(keys, i);
      ElemsSnoc(keys[..i], k);
      i := i + 1;
    }
    assert keys[..i] == keys;
  }

  /** The timelines of `done` hold (score, member) on top of what they held in `z0`; the others are untouched. */
  ghost predicate AddedOn(z: ZSets, z0: ZSets, done: set<string>, score: int, member: int) {
    forall k :: ZOf(z, k) == if k in done then ZAdd(ZOf(z0, k), score, member) else ZOf(z0, k)
  }

  lemma AddedOnStep(z: ZSets, z0: ZSets, done: set<string>, score: int, member: int, k: string)
    requires AddedOn(z, z0, done, score, member)
    ensures AddedOn(Store(z, k, ZAdd(ZOf(z, k), score, member)), z0, done + {k}, score, member)
  {
    assert ZAdd(ZAdd(ZOf(z0, k), score, member), score, member) == ZAdd(ZOf(z0, k), score, member);
  }

  /**
   * `trim_bulk` as intended: first read the `MAX_ITEMS`-th entry of every
   * timeline, then drop everything scoring below that entry's score.
   */
  method TrimBulk(r: Redis, keys: seq<string>)
    modifies r
    ensures r.strings == old(r.strings) && r.ttl == old(r.ttl)
    ensures forall k :: ZOf(r.zsets, k) == if k in keys then Trim(ZOf(old(r.zsets), k), MAX_ITEMS) else ZOf(old(r.zsets), k)
  {
    ghost var z0 := r.zsets;
    var lasts: seq<Option<Entry>> := [];
    var i := 0;
    while i < |keys|
      invariant 0 <= i <= |keys| && |lasts| == i && r.zsets == z0
      invariant r.strings == old(r.strings) && r.ttl == old(r.ttl)
      invariant forall j :: 0 <= j < i ==> TrimThreshold(ZOf(z0, keys[j]), lasts[j])
    {
      var last := r.ZRevRangeAt(keys[i], MAX_ITEMS - 1);
      lasts := lasts + [last];
      i := i + 1;
    }
    i := 0;
    while i < |keys|
      invariant 0 <= i <= |keys|
      invariant r.strings == old(r.strings) && r.ttl == old(r.ttl)
      invariant TrimmedOn(r.zsets, z0, Elems(keys[..i]))
    {
      var k := keys[i];
      TrimmedOnStep(r.zsets, z0, Elems(keys[..i]), k, lasts[i]);
      if lasts[i].Some? {
        r.ZRemBelow(k, lasts[i].value.score);
      }
      PrefixSnoc(keys, i);
      ElemsSnoc(keys[..i], k);
      i := i + 1;
    }
    assert keys[..i] == keys;
  }

  /** The timelines of `done` are trimmed; the others are untouched. */
  ghost predicate TrimmedOn(z: ZSets, z0: ZSets, done: set<string>) {
    forall k :: ZOf(z, k) == if k in done then Trim(ZOf(z0, k), MAX_ITEMS) else ZOf(z0, k)
  }

  lemma TrimmedOnStep(z: ZSets, z0: ZSets, done: set<string>, k: string, last: Option<Entry>)
    requires TrimmedOn(z, z0, done) && TrimThreshold(ZOf(z0, k), last)
    ensures TrimmedOn(if last.Some? then Store(z, k, RemoveBelow(ZOf(z, k), last.value.score)) else z, z0, done + {k})
  {
    TrimByThreshold(ZOf(z0, k), last);
  }

  /** `last` is what ZREVRANGE key MAX_ITEMS-1 MAX_ITEMS-1 WITHSCORES returns for `t`. */
  ghost predicate TrimThreshold(t: Timeline, last: Option<Entry>) {
    OrderedLength(t)
    && (last.None? <==> |t| < MAX_ITEMS)
    && (last.Some? ==> last.value.member == Ordered(t)[MAX_ITEMS - 1] && last.value.member in t
                       && last.value.score == t[last.value.member])
  }

  /** Removing below the threshold read beforehand gives the trim, once or twice. */
  lemma TrimByThreshold(t: Timeline, last: Option<Entry>)
    requires TrimThreshold(t, last)
    ensures last.None? ==> Trim(t, MAX_ITEMS) == t
    ensures last.Some? ==> (RemoveBelow(t, last.value.score) == Trim(t, MAX_ITEMS)
      && RemoveBelow(Trim(t, MAX_ITEMS), last.value.score) == Trim(t, MAX_ITEMS))
  {
  }

  /* ---------------- Relationship repairs ---------------- */

  /** The statuses `merge_into_timeline` considers, before filtering. */
  ghost function MergeCandidates(t: Timeline, statuses: seq<Status>): seq<Status> {
    var newer := if |t| >= MAX_ITEMS / 4 then NewerThan(statuses, LowestScore(t)) else statuses;
    if |newer| <= MAX_ITEMS / 4 then newer else newer[..MAX_ITEMS / 4]
  }

  /** The statuses with id above `lowest`, in order. */
  function NewerThan(statuses: seq<Status>, lowest: int): (r: seq<Status>)
    ensures |r| <= |statuses|
    ensures forall x :: x in r <==> x in statuses && x.id > lowest
  {
    if statuses == [] then []
    else (if statuses[0].id > lowest then [statuses[0]] else []) + NewerThan(statuses[1..], lowest)
  }

  /** Whether merge files `s` into the timeline of `into`. */
  predicate MergeAccepts(rel: Relations, s: Status, into: int) {
    s.visibility != Direct && FilterSubscribers(rel, s, {into}) != {}
  }

  /** ZADD id id for each accepted status, in order. */
  function AddAccepted(t: Timeline, rel: Relations, statuses: seq<Status>, into: int): Timeline
    decreases |statuses|
  {
    if statuses == [] then t
    else
      var s := statuses[0];
      AddAccepted(if MergeAccepts(rel, s, into) then ZAdd(t, s.id, s.id) else t, rel, statuses[1..], into)
  }

  /**
   * Merging keeps every entry, files each accepted status as (id, id), and
   * adds nothing else; entries that no accepted status names keep their score.
   */
  lemma {:induction false} AddAcceptedSpec(t: Timeline, rel: Relations, statuses: seq<Status>, into: int)
    ensures var r := AddAccepted(t, rel, statuses, into);
      && (forall m :: m in t ==> m in r)
      && (forall s :: s in statuses && MergeAccepts(rel, s, into) ==> s.id in r && r[s.id] == s.id)
      && (forall m :: m in r && m !in t ==> r[m] == m && exists s :: s in statuses && s.id == m && MergeAccepts(rel, s, into))
      && (forall m :: m in t && (forall s :: s in statuses && MergeAccepts(rel, s, into) ==> s.id != m) ==> r[m] == t[m])
    decreases |statuses|
  {
    if statuses != [] {
      var s := statuses[0];
      var t' := if MergeAccepts(rel, s, into) then ZAdd(t, s.id, s.id) else t;
      AddAcceptedSpec(t', rel, statuses[1..], into);
      assert forall x :: x in statuses[1..] ==> x in statuses;
      assert statuses == [s] + statuses[1..];
    }
  }

  /** The home timeline after `merge_into_timeline`. */
  ghost function Merged(t: Timeline, rel: Relations, statuses: seq<Status>, into: int): Timeline {
    Trim(AddAccepted(t, rel, MergeCandidates(t, statuses), into), MAX_ITEMS)
  }

  /**
   * Merge only ever adds accepted statuses of the followed account, as
   * (id, id), at most `MAX_ITEMS / 4` of them, and once the timeline holds
   * `MAX_ITEMS / 4` entries only statuses newer than its lowest score.
   */
  lemma MergedSpec(t: Timeline, rel: Relations, statuses: seq<Status>, into: int)
    ensures var u := Merged(t, rel, statuses, into);
      var cands := MergeCandidates(t, statuses);
      && |cands| <= MAX_ITEMS / 4
      && (forall s :: s in cands ==> s in statuses && (|t| >= MAX_ITEMS / 4 ==> s.id > LowestScore(t)))
      && (forall m :: m in u && m !in t ==>
            u[m] == m && (exists s :: s in cands && s.id == m && MergeAccepts(rel, s, into)))
  {
    var cands := MergeCandidates(t, statuses);
    var newer := if |t| >= MAX_ITEMS / 4 then NewerThan(statuses, LowestScore(t)) else statuses;
    assert forall s :: s in cands ==> s in newer;
    AddAcceptedSpec(t, rel, cands, into);
  }

  /** The query of `merge_into_timeline`: the first `MAX_ITEMS / 4` statuses, newer ones only once the timeline is a quarter full. */
  method MergeQuery(r: Redis, key: string, statuses: seq<Status>) returns (query: seq<Status>)
    ensures query == MergeCandidates(r.ZSet(key), statuses)
  {
    query := statuses;
    var card := r.ZCard(key);
    if card >= MAX_ITEMS / 4 {
      var lowest := r.ZLowestScore(key);
      query := NewerThan(statuses, lowest.GetOr(0));
    }
    if |query| > MAX_ITEMS / 4 {
      query := query[..MAX_ITEMS / 4];
    }
  }

  /** ZADD id id into `key` for each status of `query` that merge accepts. */
  method AddAcceptedAt(r: Redis, key: string, rel: Relations, query: seq<Status>, into: int)
    modifies r
    ensures r.strings == old(r.strings) && r.ttl == old(r.ttl)
    ensures forall k :: ZOf(r.zsets, k) ==
                          (if k == key then AddAccepted(ZOf(old(r.zsets), k), rel, query, into) else ZOf(old(r.zsets), k))
  {
    ghost var z0 := r.zsets;
    var i := 0;
    while i < |query|
      invariant 0 <= i <= |query|
      invariant r.strings == old(r.strings) && r.ttl == old(r.ttl)
      invariant SameExcept(r.zsets, z0, key)
      invariant AddAccepted(r.ZSet(key), rel, query[i..], into) == AddAccepted(ZOf(z0, key), rel, query, into)
    {
      var s := query[i];
      assert query[i..][1..] == query[i + 1..];
      if !(s.visibility == Direct || FilterSubscribers(rel, s, {into}) == {}) {
        SameExceptStore(r.zsets, z0, key, ZAdd(r.ZSet(key), s.id, s.id));
        r.ZAddOne(key, s.id, s.id);
      }
      i := i + 1;
    }
  }

  /** Every timeline but `key` holds what it held in `z0`. */
  ghost predicate SameExcept(z: ZSets, z0: ZSets, key: string) {
    forall k :: k != key ==> ZOf(z, k) == ZOf(z0, k)
  }

  lemma SameExceptStore(z: ZSets, z0: ZSets, key: string, t: Timeline)
    requires SameExcept(z, z0, key)
    ensures SameExcept(Store(z, key, t), z0, key)
  {
  }

  /**
   * `merge_into_timeline`: files up to `MAX_ITEMS / 4` statuses of the
   * followed account (`statuses`, in the order the database returns them)
   * into the home timeline of `into`, then trims it.
   */
  method MergeIntoTimeline(r: Redis, rel: Relations, statuses: seq<Status>, into: int)
    modifies r
    ensures r.strings == old(r.strings) && r.ttl == old(r.ttl)
    ensures forall k :: ZOf(r.zsets, k) ==
                          (if k == Key("home", into) then Merged(ZOf(old(r.zsets), k), rel, statuses, into) else ZOf(old(r.zsets), k))
  {
    var key := Key("home", into);
    var query := MergeQuery(r, key, statuses);
    AddAcceptedAt(r, key, rel, query, into);
    TrimBulk(r, [key]);
  }

  /** The home timeline after `unmerge_from_timeline`: entries whose member or score is a removed id go. */
  function Unmerged(t: Timeline, removed: set<int>): (u: Timeline)
    ensures SubTimeline(u, t)
    ensures forall m :: m in t ==> (m in u <==> m !in removed && t[m] !in removed)
  {
    map m | m in t && m !in removed && t[m] !in removed :: t[m]
  }

  /** Removing one more id as a member and as a score extends the unmerge by that id. */
  lemma UnmergedStep(t: Timeline, removed: set<int>, id: int)
    ensures Unmerged(t, removed + {id}) == RemoveRange(RemoveMembers(Unmerged(t, removed), {id}), id, id)
  {
  }

  /** The ids of `ids` above `oldest`. */
  function NewerIds(ids: seq<int>, oldest: int): (r: set<int>)
    ensures forall x :: x in r <==> x in ids && x > oldest
  {
    set x | x in ids && x > oldest
  }

  lemma NewerIdsStep(ids: seq<int>, i: nat, oldest: int)
    requires i < |ids|
    ensures NewerIds(ids[..i + 1], oldest) == NewerIds(ids[..i], oldest) + (if ids[i] > oldest then {ids[i]} else {})
  {
    assert ids[..i + 1] == ids[..i] + [ids[i]];
  }

  /** ZREM and ZREMRANGEBYSCORE each id of `ids` above `oldest`. */
  method UnmergeIds(r: Redis, key: string, ids: seq<int>, oldest: int)
    modifies r
    ensures r.strings == old(r.strings) && r.ttl == old(r.ttl)
    ensures forall k :: ZOf(r.zsets, k) ==
                          (if k == key then Unmerged(ZOf(old(r.zsets), k), NewerIds(ids, oldest)) else ZOf(old(r.zsets), k))
  {
    ghost var z0 := r.zsets;
    var i := 0;
    assert Unmerged(ZOf(z0, key), {}) == ZOf(z0, key);
    while i < |ids|
      invariant 0 <= i <= |ids|
      invariant r.strings == old(r.strings) && r.ttl == old(r.ttl)
      invariant SameExcept(r.zsets, z0, key)
      invariant r.ZSet(key) == Unmerged(ZOf(z0, key), NewerIds(ids[..i], oldest))
    {
      var id := ids[i];
      NewerIdsStep(ids, i, oldest);
      if id > oldest {
        ghost var t := r.ZSet(key);
        UnmergedStep(ZOf(z0, key), NewerIds(ids[..i], oldest), id);
        SameExceptStore(r.zsets, z0, key, RemoveMembers(t, {id}));
        r.ZRem(key, {id});
        assert r.ZSet(key) == RemoveMembers(t, {id});
        SameExceptStore(r.zsets, z0, key, RemoveRange(RemoveMembers(t, {id}), id, id));
        r.ZRemRangeByScore(key, id, id);
        assert r.ZSet(key) == RemoveRange(RemoveMembers(t, {id}), id, id);
      }
      i := i + 1;
    }
    assert ids[..i] == ids;
  }

  /**
   * `unmerge_from_timeline`: for each status of the unfollowed account
   * newer than the timeline's lowest score (0 when empty), ZREM the id as a
   * member and ZREMRANGEBYSCORE it as a score.
   */
  method UnmergeFromTimeline(r: Redis, statusIds: seq<int>, into: int)
    modifies r
    ensures r.strings == old(r.strings) && r.ttl == old(r.ttl)
    ensures var key := Key("home", into);
      var removed := NewerIds(statusIds, LowestScore(ZOf(old(r.zsets), key)));
      forall k :: ZOf(r.zsets, k) == if k == key then Unmerged(ZOf(old(r.zsets), k), removed) else ZOf(old(r.zsets), k)
  {
    var key := Key("home", into);
    var lowest := r.ZLowestScore(key);
    UnmergeIds(r, key, statusIds, lowest.GetOr(0));
  }

  /** The home timeline after `clear_from_timeline`: members that are statuses of `target` go. */
  function Cleared(t: Timeline, statusTable: map<int, Status>, target: int): (u: Timeline)
    ensures SubTimeline(u, t)
    ensures forall m :: m in t ==> (m in u <==> !(m in statusTable && statusTable[m].accountId == target))
  {
    map m | m in t && !(m in statusTable && statusTable[m].accountId == target) :: t[m]
  }

  /**
   * `clear_from_timeline`: reads every member of the home timeline of
   * `account`, looks them up as statuses, and ZREMs those written by
   * `target`, whatever their score.
   */
  method ClearFromTimeline(r: Redis, statusTable: map<int, Status>, account: int, target: int)
    modifies r
    ensures r.strings == old(r.strings) && r.ttl == old(r.ttl)
    ensures forall k :: ZOf(r.zsets, k) ==
                          (if k == Key("home", account) then Cleared(ZOf(old(r.zsets), k), statusTable, target) else ZOf(old(r.zsets), k))
  {
    var key := Key("home", account);
    ghost var t := r.ZSet(key);
    var members := r.ZMembers(key);
    var targetIds := set m | m in members && m in statusTable && statusTable[m].accountId == target;
    forall m | m in t
      ensures m in targetIds <==> m in statusTable && statusTable[m].accountId == target
    {
      assert m in members;
    }
    assert RemoveMembers(t, targetIds) == Cleared(t, statusTable, target);
    if targetIds != {} {
      r.ZRem(key, targetIds);
    } else {
      assert Cleared(t, statusTable, target) == t;
    }
  }
}
