# Home-timeline cache engine (Mastodon fork), modelled in Dafny

This project models the parts of a Mastodon fork that keep each account's
home timeline in Redis, together with the smaller pieces around them.

**The timeline cache.**
- A timeline is a Redis sorted set. Each member is a status id (the reblogged original for a reblog) and its score is the id of the status that put it there.
- `FeedManager` files a new status into the home timelines of the followers who should see it. It never re-inserts a reblog whose original is already among the top 40. It trims timelines after a push or a merge. As written the trim keeps too much (see "## Findings"); the model's push and merge use the corrected trim, which keeps the 400 newest entries. It merges and unmerges the statuses of an account that is followed or unfollowed. It clears an account's statuses after a block.
- `Feed` reads a page of a timeline. It reads from Redis, fills the page from the database when the cache runs short, and reads from the database alone while the timeline is being regenerated.
- `PrecomputeFeed` regenerates a home timeline from the database.
- `FeedCleanup` drops the timelines of users who have not signed in for a long time.
- `UserTracking` queues a regeneration when a user comes back.
- `HomeTimelineApi` is the REST endpoint. It validates the id range of a request and builds the pagination links.

**Around the cache.**
- `CountCache`: a counter cached in Redis with an id watermark.
- `Users`: the user record's timeline settings.
- `AccountPolicy`: who may halt, silence or memorialize an account.
- `ProcessActivity`: the ActivityStreams intent endpoint.
- `Corndog`: a chat-bot command parser.
- `SidekiqBudget`: the rate budget of Sidekiq jobs.

**The streaming server (Go).**
- `PubSub`: subscriber bookkeeping, mute filtering and channel routing.
- `Handler`: authorization, the choice of stream, and Server-Sent Events frames.
- `Startup`: environment, database and Redis set-up, and the receive loop.
- `StreamingData`: the payload wrapper.
- `PQArray`: the PostgreSQL array text written for the mute query.

**Front end.**
- `PublicPath`: the asset public path.
- `StatusCard`: a status's preview card, with IDNA host names decoded.

**Shared modules.**
- `RedisStore.Redis` is the store. It is a class whose `zsets`, `strings` and `ttl` maps the operations update in place.
- `SortedSet` defines the order Redis gives a sorted set: score descending, then member descending, with members compared as numbers where Redis compares their strings (see "## Left out"). The trims and range reads are defined on that order.
- `StatusQueries`, `Statuses`, `Decimal`, `Text`, `Collections` and `Wrappers` are helpers.

A method that changes the store is proved against a function of the old state, and the properties the code relies on are lemmas about those functions.

## Model

| member | source | states |
|---|---|---|
| FeedManager.Key | app/lib/feed_manager.rb:10-12 | the key is exactly as long as "feed:", the timeline type, ':' and the decimal account id together |
| FeedManager.KeySplit | app/lib/feed_manager.rb:10-12 | after "feed:", a key splits at its first ':' into the timeline type and the decimal account id, for a type without ':' |
| FeedManager.KeyEquality | app/lib/feed_manager.rb:10-12 | two timeline keys are equal exactly when the timeline type and the account id are equal, for a type without ':' |
| FeedManager.FilterSubscribers | app/lib/feed_manager.rb:14-43 | the accounts kept are a subset of the subscribers. A reply whose in_reply_to_id is nil reaches nobody. Nobody kept mutes the author or the reblogged author. Nobody kept blocks a mentioned account or the reblogged author. A reply to someone else reaches only the replied-to account and its followers. Any other reblog reaches nobody the reblogged author blocks and nobody hiding the author's domain |
| FeedManager.FilterSubscribersKeepsFollowers | app/lib/feed_manager.rb:26-35 | conversely, a subscriber following the replied-to account, muting and blocking nobody involved, is kept |
| FeedManager.FilterSubscribersKeepsReblog | app/lib/feed_manager.rb:14-40 | conversely, for a reblog that is not a reply with a known target, a subscriber who mutes and blocks nobody involved, is not blocked by the reblogged author and does not hide its domain, is kept |
| FeedManager.FilterSubscribersPlain | app/lib/feed_manager.rb:14-24 | conversely, for a self-reply or a status that is neither a reply with a known target nor a reblog, a subscriber who mutes and blocks nobody involved is kept |
| FeedManager.FilterMentions | app/lib/feed_manager.rb:45-60 | only mentioned accounts other than the author are notified. None of them blocks the author, a mentioned account or the replied-to account. When the author is silenced, only its followers are notified |
| FeedManager.FilterMentionsKeeps | app/lib/feed_manager.rb:45-60 | conversely, a mentioned account other than the author that blocks none of the checked accounts, and follows the author when the author is silenced, is notified |
| FeedManager.Subscribing | app/lib/feed_manager.rb:152-162 | for home timelines, exactly the accounts with a subscribed marker are kept, and never more than were given. Other timeline types keep every account |
| FeedManager.SubscribingAppend | app/lib/feed_manager.rb:152-162 | narrowing a concatenation narrows each part and concatenates the results, so the accounts kept stay in their order |
| FeedManager.SubscribingAccountIds | app/lib/feed_manager.rb:152-167 | the loop over the MGET answer gives exactly `Subscribing` |
| FeedManager.ReblogIntoSpec | app/lib/feed_manager.rb:67-88 | filing a reblog leaves the original in the timeline. When it was outside the top 40 or absent, its score becomes the reblog's id. No other member changes, the size grows by at most one, and filing twice is filing once |
| FeedManager.PushBulk | app/lib/feed_manager.rb:62-107 | every timeline key ends as the per-key push specification says (an original is followed by the corrected trim), and strings and TTLs are untouched. The accounts notified are the subscribing accounts for an original, and exactly the accounts whose timeline was filed for a reblog |
| FeedManager.ReblogBulk | app/lib/feed_manager.rb:67-88 | each listed timeline gets `ReblogInto` exactly when the original is not among its top 40. The notified accounts are exactly those timelines |
| FeedManager.ReadRanks | app/lib/feed_manager.rb:69-78 | one answer per account: the original's reverse rank in that account's timeline |
| FeedManager.AddBulk | app/lib/feed_manager.rb:92-103 | every listed key gets the status with score equal to its id. No other key changes |
| FeedManager.TrimBulk | app/lib/feed_manager.rb:169-182 | corrected trim, not the code as written: every listed timeline becomes `SortedSet.Trim` to 400 entries, the threshold being the 400th entry's score. No other key, string or TTL changes |
| FeedManager.TrimByThreshold | app/lib/feed_manager.rb:172-179 | removing the scores below the 400th entry's score is the trim to 400, and nothing happens when there is no 400th entry |
| FeedManager.NewerThan | app/lib/feed_manager.rb:115 | exactly the statuses whose id is above the lowest score |
| FeedManager.AddAcceptedSpec | app/lib/feed_manager.rb:118-122 | a status is added exactly when it is not direct and passes `FilterSubscribers` for the receiving account. Its score is its id, and nothing else changes |
| FeedManager.MergedSpec | app/lib/feed_manager.rb:109-126 | at most 100 candidates are considered. Once the timeline holds 100 entries, only statuses newer than its lowest score are considered. Every member the merge adds is an accepted candidate scored by its own id |
| FeedManager.MergeQuery | app/lib/feed_manager.rb:111-116 | the query computed on the store is the merge's candidate list |
| FeedManager.AddAcceptedAt | app/lib/feed_manager.rb:118-123 | only the receiving timeline changes, and it becomes `AddAccepted` of the old one |
| FeedManager.MergeIntoTimeline | app/lib/feed_manager.rb:109-126 | the receiving timeline becomes `Merged` of the old one, whose final trim is the corrected `SortedSet.Trim`. Every other key, string and TTL is unchanged |
| FeedManager.Unmerged | app/lib/feed_manager.rb:128-140 | an entry stays exactly when neither its member nor its score is a removed status id |
| FeedManager.UnmergedStep | app/lib/feed_manager.rb:135-136 | one status's ZREM followed by ZREMRANGEBYSCORE is one step of `Unmerged` |
| FeedManager.NewerIds | app/lib/feed_manager.rb:132 | exactly the ids above the timeline's lowest score |
| FeedManager.UnmergeIds | app/lib/feed_manager.rb:132-139 | the timeline becomes `Unmerged` by the newer ids, and nothing else changes |
| FeedManager.UnmergeFromTimeline | app/lib/feed_manager.rb:128-140 | the home timeline becomes `Unmerged` by the unfollowed account's statuses newer than its lowest score, with 0 for an empty timeline. Nothing else changes |
| FeedManager.Cleared | app/lib/feed_manager.rb:142-148 | an entry stays exactly when its member is not a status of the target account |
| FeedManager.ClearFromTimeline | app/lib/feed_manager.rb:142-148 | the home timeline becomes `Cleared`, and nothing else changes |
| SortedSet.OrderedSpec | app/lib/feed_manager.rb:172 | the ZREVRANGE order lists every member once, sorted by score and then member, both descending |
| SortedSet.RemoveBelow | app/lib/feed_manager.rb:179 | an entry stays exactly when its score is at least the threshold, and its score is kept |
| SortedSet.RemoveRange | app/lib/feed_manager.rb:136 | an entry stays exactly when its score lies outside the inclusive range |
| SortedSet.RemoveMembers | app/lib/feed_manager.rb:135 | an entry stays exactly when it is not among the removed members |
| SortedSet.Trim | app/lib/feed_manager.rb:169-182 | the corrected trim keeps a sub-timeline of the old one: entries scoring at least the n-th entry's score, or everything when there is no n-th entry |
| SortedSet.TrimAsWritten | app/lib/feed_manager.rb:172-179 | the trim as written also keeps a sub-timeline, with the n-th entry's member as the score threshold |
| SortedSet.TrimShortUnchanged | app/lib/feed_manager.rb:169-182 | a timeline no longer than the bound is left as it is, including one of exactly the bound's length |
| SortedSet.TrimKeepsTop | app/lib/feed_manager.rb:169-182 | each of the n highest-ranked entries survives the trim |
| SortedSet.TrimRemovesOnlyLower | app/lib/feed_manager.rb:169-182 | every dropped entry scores strictly below every kept one |
| SortedSet.TrimOnlyTop | app/lib/feed_manager.rb:169-182 | when no two entries share a score (`DistinctScores`), every survivor is among the n highest-ranked entries |
| SortedSet.TrimSize | app/lib/feed_manager.rb:169-182 | when no two entries share a score (`DistinctScores`), the trimmed size is the smaller of the bound and the old size |
| SortedSet.TrimKeepsRank | app/lib/feed_manager.rb:172 | the n-th entry in ZREVRANGE order is the same before and after the trim |
| SortedSet.TrimIdempotent | app/lib/feed_manager.rb:169-182 | trimming twice is trimming once |
| SortedSet.TrimAsWrittenKeepsExtra | app/lib/feed_manager.rb:172-179 | the trim as written keeps what the score trim keeps. It also keeps every entry scoring between the n-th entry's member and its score |
| SortedSet.TrimAsWrittenAgreesOnOriginals | app/lib/feed_manager.rb:172-179 | on a timeline without reblogs, where every member equals its score, the trim as written is the correct trim |
| SortedSet.TrimAsWrittenOverflows | app/lib/feed_manager.rb:172-179 | on the timeline {5 scored 9, 7 scored 7}, trimming to one entry keeps two |
| SortedSet.RevRank | app/lib/feed_manager.rb:73 | nil exactly for a non-member. Otherwise the member's position in ZREVRANGE order |
| SortedSet.ScoreRange | app/models/feed.rb:29-30 | an entry stays exactly when its score is above `since` and below `max` |
| SortedSet.RevRangeByScoreSpec | app/models/feed.rb:29-30 | at most `limit` scores are read, every one is in the range, and they are in descending order |
| SortedSet.RevRangeByScoreComplete | app/models/feed.rb:29-30 | when the range holds at most `limit` entries, every score in it is read |
| SortedSet.LowestScore | app/lib/feed_manager.rb:114 | the lowest score of the timeline, held by some member |
| SortedSet.ComputeOrdered | app/lib/feed_manager.rb:144 | the loop picking the top entry repeatedly gives the ZREVRANGE order |
| Feed.FromRedis | app/models/feed.rb:28-32 | at most `limit` ids are returned, strictly descending. Each is an existing status in the id range and is the score of some member |
| Feed.FromRedisComplete | app/models/feed.rb:28-32 | when the range fits in the page, every existing scored status in it is returned |
| Feed.FromDatabase | app/models/feed.rb:34-38 | at most `limit` ids, strictly descending, from the home query and in the range. Filtered statuses are left out |
| Feed.FillFromDatabase | app/models/feed.rb:16-20 | the cached ids are a prefix of the page. The rest comes from the database below the last cached id, and the page stays descending and within the limit |
| Feed.Get | app/models/feed.rb:12-24 | the page is within the limit, strictly descending and inside the range. Every id is cached or a visible home status |
| Feed.GetWhileRegenerating | app/models/feed.rb:13-14 | while the regeneration flag is set, the page does not depend on Redis's timelines and comes from the database alone |
| Feed.FillFromFullCache | app/models/feed.rb:18 | a full cached page is returned unchanged |
| Feed.FillFromEmptyCache | app/models/feed.rb:18-19 | an empty cache gives exactly the database page |
| StatusQueries.IdsDesc | app/models/feed.rb:31 | the ids in strictly descending order, each once |
| StatusQueries.PaginateNewest | app/models/feed.rb:36 | the page is made of the newest ids in range. Any id in range that is left out is older than every id on the page |
| StatusQueries.Reject | app/models/feed.rb:37 | exactly the ids not rejected, in their order |
| StatusQueries.ConcatDesc | app/models/feed.rb:18 | two descending lists, the second entirely older, join into a descending list |
| PrecomputeFeed.LastRow | app/services/precompute_feed_service.rb:46 | `Status.last` under the id-descending default order: none exactly when there is no status, otherwise a status no other status is older than |
| PrecomputeFeed.Selected | app/services/precompute_feed_service.rb:36-54 | an active user gets at most 400 statuses, all newer than the last feed update. Otherwise at most the minimum number of items, all above the oldest status's id minus the minimum id range, and none when there is no status. Always newest first and only home statuses |
| PrecomputeFeed.SelectedNewestFirst | app/services/precompute_feed_service.rb:36-54 | a home status inside the window is selected unless the page is already full of newer statuses: the id order decides, never the account |
| PrecomputeFeed.SelectedIntended | app/services/precompute_feed_service.rb:44-50 | corrected window anchored at the newest status: same as `Selected` for an active user; otherwise every selected status is within the minimum id range below the newest, and no newer than it |
| PrecomputeFeed.SelectedReachesBeforeRange | app/services/precompute_feed_service.rb:46-50 | with statuses 1 and 100, range 10 and two items, the as-written window selects status 1 and the intended one leaves it out |
| PrecomputeFeed.ProcessStatus | app/services/precompute_feed_service.rb:24-26 | the pair (score, member) is the status id and the member the timeline files it under |
| PrecomputeFeed.Pairs | app/services/precompute_feed_service.rb:14-30 | exactly the selected statuses that are not filtered give a pair, and the first selected status comes last |
| PrecomputeFeed.Query | app/services/precompute_feed_service.rb:53 | the query's ids are `paginate_by_max_id(limit, nil, since)` over the home statuses: the newest `limit` ids above `since`, id descending |
| PrecomputeFeed.OldestStatus | app/services/precompute_feed_service.rb:46 | the row `Status.last` returns is `LastRow`, the oldest status |
| PrecomputeFeed.SelectStatuses | app/services/precompute_feed_service.rb:36-54 | the ids `statuses` selects are `Selected`, as written, anchored at the oldest status |
| PrecomputeFeed.Written | app/services/precompute_feed_service.rb:17 | ZADD of the pairs adds exactly their members, on that key only |
| PrecomputeFeed.PopulateFeed | app/services/precompute_feed_service.rb:13-22 | the home timeline receives the selected pairs and the regeneration flag is deleted. The trim is requested exactly for an active user |
| PrecomputeFeed.RegenerationKeyNotTimeline | app/services/precompute_feed_service.rb:18 | deleting the regeneration flag never touches a timeline key |
| PrecomputeFeed.PopulatedTimeline | app/services/precompute_feed_service.rb:16-19 | the home timeline after regeneration is the old one with the pairs added. The flag is gone |
| PrecomputeFeed.PopulatedMember | app/services/precompute_feed_service.rb:14-17 | every selected, unfiltered status's timeline member is in the regenerated timeline |
| PrecomputeFeed.PopulatedScore | app/services/precompute_feed_service.rb:14-17 | when no other selected status files under the same member, that member's score is the status id |
| PrecomputeFeed.PopulatedOnlySelected | app/services/precompute_feed_service.rb:14-30 | every new member comes from a selected, unfiltered status |
| HomeTimelineApi.HomeRange | app/controllers/api/v1/timelines/home_controller.rb:28-40 | the request is rejected exactly when both bounds are given and are further apart than the maximum range. With neither bound and no status there is nothing. Otherwise the bounds given are kept and the span never exceeds the maximum |
| HomeTimelineApi.OneBoundSpan | app/controllers/api/v1/timelines/home_controller.rb:34-37 | with a single bound, the other is derived at exactly the maximum range from it |
| HomeTimelineApi.HomeStatuses | app/controllers/api/v1/timelines/home_controller.rb:28-47 | a page is within the limit, strictly descending and inside the requested bounds |
| HomeTimelineApi.TooBroadBeforeLookup | app/controllers/api/v1/timelines/home_controller.rb:38-39 | a too-broad range is a validation error, whatever the cache and the database hold |
| HomeTimelineApi.Pagination | app/controllers/api/v1/timelines/home_controller.rb:69-75 | links exist exactly for a non-empty page, and both ids are on the page |
| HomeTimelineApi.PaginationDisjoint | app/controllers/api/v1/timelines/home_controller.rb:69-75 | the next link's max_id is the oldest id and the prev link's since_id is the newest, so following either repeats no status of the page, and every id outside the page's span is in range of one of the two links |
| Users.DurationsConsistent | app/models/user.rb:39-48 | the feed-updated duration is at least twice the sign-in update interval, and the persistence duration is at least the feed-updated duration |
| Users.ExpiredNotPersistent | app/models/user.rb:65-91 | an expired feed is never persistent, and a user who never signed in has neither |
| Users.LastUpdatedFeedStatusId | app/models/user.rb:93-95 | the newest status created before the feed update deadline, or none when every status is newer |
| Users.DefaultPrivacy | app/models/user.rb:97-99 | the setting when present. Otherwise "private" exactly for a locked account and "public" for an unlocked one |
| Users.NonBlank | app/models/user.rb:147-149 | `reject!(&:blank?)`: exactly the non-blank entries remain, and the list never grows |
| Users.NonBlankIdempotent | app/models/user.rb:147-149 | removing blank languages twice is removing them once |
| Users.NonBlankKeepsClean | app/models/user.rb:147-149 | a list without blanks is unchanged |
| Users.User.SanitizeLanguages | app/models/user.rb:69 | the filtered languages lose exactly their blank entries, in order. Every other field is unchanged |
| UserTracking.SetNxReply | app/controllers/concerns/user_tracking_concern.rb:29 | the client's SETNX reply is the boolean telling whether the flag was created |
| UserTracking.RegenerateFeed | app/controllers/concerns/user_tracking_concern.rb:28-31 | as written: the regeneration flag is set when absent but no TTL is ever set, timelines are untouched, and the account is queued |
| UserTracking.RegenerateFeedIntended | app/controllers/concerns/user_tracking_concern.rb:28-31 | as intended: the flag is set with its one-day TTL exactly when this call created it, timelines are untouched, and the account is queued |
| UserTracking.SetUserActivity | app/controllers/concerns/user_tracking_concern.rb:12-18 | the sign-in fields advance. A regeneration is queued exactly when the previous sign-in is older than the feed-updated duration, and only then does the flag's string change. No TTL ever changes, as `RegenerateFeed` is written |
| UserTracking.TrackRequest | app/controllers/concerns/user_tracking_concern.rb:7-26 | a signed-in user whose sign-in is stale gets the whole activity update: current sign-in now, last sign-in the previous one (or now), count plus one, and a regeneration queued exactly when the previous sign-in is older than the feed duration, with no TTL or timeline changed. Everyone else is left alone |
| UserTracking.FeedUpdateNeedsSignInUpdate | app/controllers/concerns/user_tracking_concern.rb:17-26 | a feed that needs regenerating is only ever seen on a request that updates the sign-in |
| UserTracking.FirstSignInKeepsFeed | app/controllers/concerns/user_tracking_concern.rb:14-26 | a first sign-in updates the sign-in fields but does not regenerate the feed |
| FeedCleanup.ExpiredKeys | app/workers/scheduler/feed_cleanup_scheduler.rb:11-21 | exactly the home timeline keys of the expired users |
| FeedCleanup.Perform | app/workers/scheduler/feed_cleanup_scheduler.rb:7-15 | sorted sets, strings and TTLs lose exactly the expired home keys |
| FeedCleanup.ExpiredKeysSnoc | app/workers/scheduler/feed_cleanup_scheduler.rb:11-21 | the keys for one more user are the previous keys, plus that user's home key when the user is expired |
| FeedCleanup.KeptUnlessExpired | app/workers/scheduler/feed_cleanup_scheduler.rb:11-20 | an active user's timeline is never deleted |
| FeedCleanup.OnlyHomeKeys | app/workers/scheduler/feed_cleanup_scheduler.rb:12 | timelines of other types are never deleted |
| FeedCleanup.PerformIdempotent | app/workers/scheduler/feed_cleanup_scheduler.rb:10-14 | a second cleanup removes nothing more |
| CountCache.KeysFor | app/lib/count_cache.rb:5-9 | the count, id and time keys are distinct and non-empty |
| CountCache.SplitCount | app/lib/count_cache.rb:41 | rows up to the watermark plus rows above it are all the rows |
| CountCache.FetchFirstExact | app/lib/count_cache.rb:28-35 | with nothing cached, the fetch answers the exact count and leaves the cache consistent |
| CountCache.FetchStaleExact | app/lib/count_cache.rb:36-50 | a stale consistent cache gives the exact count and stays consistent |
| CountCache.FetchFreshCovered | app/lib/count_cache.rb:51-53 | a fresh cache answers the count up to its watermark and changes nothing |
| CountCache.FetchTwiceAgrees | app/lib/count_cache.rb:24-56 | when a fetch rewrote the cache, the next fetch gives the same answer |
| CountCache.FetchAsWrittenLosesCount | app/lib/count_cache.rb:47 | with the misspelt key, a stale fetch of rows {10, 11, 12} over a count of 1 at id 10 gives 3. The fetch right after gives 1 |
| CountCache.OnDestroyKeepsCount | app/lib/count_cache.rb:60-67 | destroying a matching row keeps the cache consistent with the rows that remain |
| CountCache.OnUpdateKeepsCount | app/lib/count_cache.rb:69-80 | a row entering or leaving the scope keeps the cache consistent with the new rows |
| CountCache.Cache.Fetch | app/lib/count_cache.rb:24-56 | the count and the new strings are the fetch specification written to the count key. Sorted sets are untouched |
| CountCache.Cache.FetchAsWritten | app/lib/count_cache.rb:24-56 | the same fetch with the stale branch writing the count under "" |
| CountCache.Cache.OnDestroy | app/lib/count_cache.rb:60-67 | the strings become the destroy specification |
| CountCache.Cache.OnUpdate | app/lib/count_cache.rb:69-80 | the strings become the update specification |
| ProcessActivity.Index | app/controllers/process_activity_controller.rb:29-52 | indexing raises exactly for nil, a number, a boolean or an array. A hash gives the field or nil |
| ProcessActivity.Url | app/controllers/process_activity_controller.rb:8 | the parameter with a leading "web+activity+" removed, cut at the first newline |
| ProcessActivity.UrlStripsScheme | app/controllers/process_activity_controller.rb:8 | the scheme prefix does not change the URL fetched |
| ProcessActivity.Show | app/controllers/process_activity_controller.rb:7-27 | a missing or blank `url` parameter is a 400 before any fetch, as `params.require` raises. Otherwise an invalid URI is a 400, exactly. A failed fetch, unparsable JSON or a nil activity is a 422. Anything else is dispatched |
| ProcessActivity.Dispatch | app/controllers/process_activity_controller.rb:29-61 | a type other than the intent IRI is a 422. An intent is decided by `Intent` on its object. A follow intent redirects exactly when the followed object's id can be read, and with that id. A composition needs a plain-text Note, bare or in a Create, and carries exactly the object's visibility suffix and the Note's content |
| ProcessActivity.Intent | app/controllers/process_activity_controller.rb:32-40 | a Follow with an object id gives the follow redirect, and exactly then. An unreadable type is a 500. Any other type is `Compose` of the Create's object, or of the object itself |
| ProcessActivity.CheckAudience | app/controllers/process_activity_controller.rb:43-47 | no audience, a Mastodon visibility IRI with its suffix, or something else |
| ProcessActivity.Compose | app/controllers/process_activity_controller.rb:38-57 | a composition happens exactly for a Note with a plain-text media type whose object's audience is nil or starts with the Mastodon IRI. It carries the Note's content and the visibility suffix |
| ProcessActivity.NoteIntentComposes | app/controllers/process_activity_controller.rb:29-57 | an Intent whose object is a plain-text Note with an accepted audience is composed |
| ProcessActivity.CreateIntentComposes | app/controllers/process_activity_controller.rb:29-57 | an Intent whose object is a Create of a plain-text Note, with an accepted audience, is composed |
| ProcessActivity.Finish | app/controllers/process_activity_controller.rb:49-55 | the composition keeps the visibility fields and adds the status text |
| ProcessActivity.FollowIntent | app/controllers/process_activity_controller.rb:32-36 | a follow intent redirects to the follow authorization for the object id |
| ProcessActivity.NoteNeedsPlainText | app/controllers/process_activity_controller.rb:52-53 | a note with another media type is not composed |
| ProcessActivity.NoteMediaTypeIgnoresCase | app/controllers/process_activity_controller.rb:53 | "Text/Plain" is accepted like "text/plain" |
| ProcessActivity.NotAnIntent | app/controllers/process_activity_controller.rb:29-61 | an activity that is not an intent is a 422 |
| AccountPolicy.Permitted | app/policies/account_policy.rb:4-42 | only staff or admins are permitted anything. Halting and silencing need staff and a non-staff target. Memorializing needs an admin and a non-admin target. Actions without a target need admin or staff as listed |
| AccountPolicy.TargetIrrelevant | app/policies/account_policy.rb:4-38 | actions that do not look at the target are decided without it |
| AccountPolicy.RemoteAccountHaltable | app/policies/account_policy.rb:13-41 | an account without a user can be halted and silenced by staff, and memorialized by admins |
| AccountPolicy.NoActionOnPeers | app/policies/account_policy.rb:12-42 | staff cannot be halted or silenced, and admins cannot be memorialized |
| Corndog.WordsOfJoin | app/services/eat_a_corndog_service.rb:22 | splitting words joined by single spaces gives the words back |
| Corndog.Kept | app/services/eat_a_corndog_service.rb:22 | exactly the words not containing "tenshi", and never more words than given |
| Corndog.KeptAppend | app/services/eat_a_corndog_service.rb:22 | keeping the words of a concatenation keeps each part's words and concatenates them, so the kept words stay in their order |
| Corndog.Classify | app/services/eat_a_corndog_service.rb:22-48 | the command read from the lower-cased words without "tenshi" |
| Corndog.LetEat | app/services/eat_a_corndog_service.rb:30-37 | "let X eat …" is the let-eat command for X |
| Corndog.TenshiIgnored | app/services/eat_a_corndog_service.rb:22 | a leading "tenshi," does not change the command |
| SidekiqBudget.BalancedKeepsBudget | lib/sidekiq_budget.rb:26-32 | any block that only nests `with` restores the global budget |
| SidekiqBudget.WithinSeesSpecified | lib/sidekiq_budget.rb:26-31 | inside `with` the specified budget is seen, and it is restored even when the block raises |
| SidekiqBudget.NestedLifo | lib/sidekiq_budget.rb:26-32 | nested `with` blocks see inner then outer budgets, last in first out |
| SidekiqBudget.Run | lib/sidekiq_budget.rb:26-32 | running a block on the global variable gives its trace |
| SidekiqBudget.With | lib/sidekiq_budget.rb:26-32 | the body sees the specified budget, and the global budget is restored afterwards |
| SidekiqBudget.Charge | lib/sidekiq_budget/server_middleware.rb:27-29 | a charge is made exactly when the time per process exceeds one second. It is the floor of that time |
| SidekiqBudget.Call | lib/sidekiq_budget/server_middleware.rb:8-36 | with no budget the job runs with none. With a budget the job is refused exactly when the rate key has reached 64, and a refused job changes nothing. Otherwise the job runs under its budget. Unless it raised, the rate key grows by `Charge` and gets its 256-second TTL. With no process counted, a positive time raises |
| SidekiqBudget.OneProcessExhausts | lib/sidekiq_budget/server_middleware.rb:15-33 | one 64-second job on one process exhausts the budget |
| SidekiqBudget.MoreProcessesTakeLonger | lib/sidekiq_budget/server_middleware.rb:27-33 | with two processes it takes two such jobs, and 63 seconds on one process is not enough |
| SidekiqBudget.ChargeOnlyRaises | lib/sidekiq_budget/server_middleware.rb:31 | the rate never decreases |
| StreamingData.DataPayload.UnmarshalJSON | mastodon-gostreaming/api.go:33-41 | the raw input is kept, so marshalling gives it back. An error happens exactly for a quoted input that does not decode. The decoded string is stored only for a quoted input that decodes |
| StreamingData.DataPayload.constructor | mastodon-gostreaming/api.go:28-45 | the zero payload stores nothing and marshals to nothing |
| PQArray.LiteralRoundTrip | mastodon-gostreaming/db.go:5-24 | the literal of any 64-bit numbers reads back as exactly those numbers |
| PQArray.Buffer.Write | mastodon-gostreaming/db.go:22-24 | the number's text and a comma are appended |
| PQArray.Buffer.Finalize | mastodon-gostreaming/db.go:11-20 | the result is the array literal of the numbers written. The buffer holds it too unless it was empty |
| PubSub.Subscribed | mastodon-gostreaming/pubsub.go:304-317 | the channel is added to the account's set, created unmuted when absent. Other accounts are unchanged |
| PubSub.Unsubscribed | mastodon-gostreaming/pubsub.go:319-326 | the channel leaves the set. The account goes when it was the last one, and other accounts are unchanged |
| PubSub.UnsubscribeUndoes | mastodon-gostreaming/pubsub.go:304-326 | unsubscribing a fresh channel restores the subscribers |
| PubSub.UnsubscribeSettles | mastodon-gostreaming/pubsub.go:319-326 | no account is left without a channel and no mute flag is left set |
| PubSub.UserUnsubscribeUndoes | mastodon-gostreaming/pubsub.go:394-417 | the same for the user pub/sub |
| PubSub.TagSubscribed | mastodon-gostreaming/pubsub.go:159-179 | the hashtag's pub/sub is created on first use and gets the subscription |
| PubSub.TagUnsubscribed | mastodon-gostreaming/pubsub.go:181-191 | the hashtag's pub/sub is removed once it has no subscriber |
| PubSub.TagUnsubscribeUndoes | mastodon-gostreaming/pubsub.go:159-191 | the last subscriber leaving restores the hashtags as they were |
| PubSub.Targets | mastodon-gostreaming/pubsub.go:228-237 | the author, every mention, and the reblogged author when there is one |
| PubSub.Muted | mastodon-gostreaming/pubsub.go:239-261 | exactly the subscribers blocking or muting a target |
| PubSub.Mark | mastodon-gostreaming/pubsub.go:253-261 | every subscriber stays with its channels, and is flagged exactly when it was flagged already or the query named it |
| PubSub.Deliver | mastodon-gostreaming/pubsub.go:270-292 | flagged subscribers are skipped and unflagged. Every channel of the others gets the message |
| PubSub.Forward | mastodon-gostreaming/pubsub.go:212-295 | nothing is sent exactly for an update that does not decode or whose query fails. Otherwise no flag is left set and no channel is lost |
| PubSub.ForwardDelivers | mastodon-gostreaming/pubsub.go:212-295 | an update reaches exactly the channels of subscribers blocking or muting none of its accounts. Any other event reaches every channel, and the subscribers are unchanged |
| PubSub.RouteOf | mastodon-gostreaming/pubsub.go:446-472 | a name shorter than "timeline:" panics. A name that is neither a hashtag, the public streams nor an account id is an unknown channel |
| PubSub.RouteHashtag | mastodon-gostreaming/pubsub.go:449-455 | hashtag channels route to their tag, and a ":local" suffix picks the local stream |
| PubSub.RoutePublic | mastodon-gostreaming/pubsub.go:456-461 | "public:local" is the local stream, and anything else starting "public" is the public one |
| PubSub.RouteUser | mastodon-gostreaming/pubsub.go:462-468 | an account's decimal id routes to that account |
| PubSub.RouteEmpty | mastodon-gostreaming/pubsub.go:463-466 | "timeline:" alone is an unknown channel |
| PubSub.MuxPubSub.Subscribe | mastodon-gostreaming/pubsub.go:475-495 | only the named stream's pub/sub gains the channel, and an unknown query changes nothing |
| PubSub.MuxPubSub.Unsubscribe | mastodon-gostreaming/pubsub.go:475-495 | only the named stream's pub/sub loses the channel |
| PubSub.MuxPubSub.Publish | mastodon-gostreaming/pubsub.go:446-472 | the message goes to the routed stream's `Forward` alone, or to the account's channels. A panic or an unknown channel changes nothing |
| Handler.ClosedErrors | mastodon-gostreaming/handler.go:31-42 | a closed peer seen by a write is seen by a read. End of file closes reads only, and other errors close neither |
| Handler.Token | mastodon-gostreaming/handler.go:286-291 | the Authorization header without "Bearer " when the header is present, otherwise the access_token value |
| Handler.TokenOfBearer | mastodon-gostreaming/handler.go:286-291 | a bearer header gives its token back, whatever the form says |
| Handler.Authorize | mastodon-gostreaming/handler.go:285-311 | the token's account. An unknown token is a 401 and a failed lookup is a 500 |
| Handler.Serve | mastodon-gostreaming/handler.go:73-191 | an event-stream OPTIONS is answered without authorization. Every other request is refused exactly when authorization fails. An authorized WebSocket request, or an event stream under the streaming prefix, streams exactly when its stream name gives a non-empty channel, with that channel and filter, and is a 404 otherwise. An event stream outside the prefix is a 404 |
| Handler.ServeIgnoresCase | mastodon-gostreaming/handler.go:180-185 | event-stream paths equal up to ASCII case are served alike |
| Handler.Frame | mastodon-gostreaming/handler.go:212-241 | the frame written piece by piece is `FrameOf` the event and the payload body |
| Handler.ParseFrameOf | mastodon-gostreaming/handler.go:212-241 | a frame whose event has no newline reads back as its event and data |
| Handler.Passes | mastodon-gostreaming/handler.go:313-355 | without filtering, or for a non-update, everything passes. A filtered update passes exactly when it decodes, the query succeeds and no target is blocked or muted |
| Handler.PassesAgreesWithForward | mastodon-gostreaming/handler.go:313-355 | the handler's filter and the pub/sub's mute flags agree on which channels get an update |
| Startup.InitEnv | mastodon-gostreaming/main.go:125-148 | "production" loads .env.production, and unset or "development" loads .env. Anything else, or a file that fails to load, is fatal |
| Startup.Dsn | mastodon-gostreaming/main.go:58-103 | in production the connection string is user, dbname, host and port with their defaults, plus the password only when it is set. Anywhere else it is the fixed development string |
| Startup.FragmentsJoined | mastodon-gostreaming/main.go:83-93 | the sixteen empty leading fragments leave no trace in the joined string |
| Startup.DsnDevelopment | mastodon-gostreaming/main.go:58-60 | outside production the connection string is fixed |
| Startup.DsnProductionDefaults | mastodon-gostreaming/main.go:67-81 | with nothing set, production connects as mastodon to mastodon_production on localhost:5432 without a password |
| Startup.RedisDial | mastodon-gostreaming/main.go:105-123 | a socket path dials unix without a password. Otherwise tcp to host:port, with the password exactly when it is set |
| Startup.SocketWins | mastodon-gostreaming/main.go:110-122 | a socket path overrides host, port and password |
| Startup.Published | mastodon-gostreaming/main.go:28-38 | the hub gets at most one item per message, and each item is a received message's channel with its decoded body |
| Startup.PublishedSkipsUndecodable | mastodon-gostreaming/main.go:28-38 | a message that does not decode is skipped, and nothing else is |
| Startup.Forward | mastodon-gostreaming/main.go:24-56 | the hub receives the decodable messages up to the first stop. The loop ends unsubscribed, failed with the receive error, or waiting for more input |
| PublicPath.RemoveOuterSlashes | config/webpack/configuration.js:15-17 | the part between the leading and trailing runs of slashes, with interior slashes kept |
| PublicPath.RemoveOuterSlashesOfPadded | config/webpack/configuration.js:15-17 | slashes around a host are all removed, and only they |
| PublicPath.RemoveOuterSlashesIdempotent | config/webpack/configuration.js:15-17 | stripping twice is stripping once |
| PublicPath.FormatPublicPath | config/webpack/configuration.js:19-25 | the public path always ends in '/' |
| PublicPath.FormatPublicPathShape | config/webpack/configuration.js:19-25 | the path ends in exactly one slash, and is "/" exactly for a host made of slashes. Otherwise it is the stripped host, with "//" in front unless it starts with "http" |
| PublicPath.NoHostIsRoot | config/webpack/configuration.js:19-25 | with no CDN host the path is "/" |
| StatusCard.SplitOfJoin | app/javascript/mastodon/features/status/components/card.js:11-16 | joining the labels of a name gives the name |
| StatusCard.DecodeIDNA | app/javascript/mastodon/features/status/components/card.js:11-16 | decoding the host succeeds exactly when every dot-separated label decodes |
| StatusCard.DecodeLabels | app/javascript/mastodon/features/status/components/card.js:11-16 | decoding succeeds exactly when every label decodes, and each label is decoded in place |
| StatusCard.DecodeIDNAKeepsLabels | app/javascript/mastodon/features/status/components/card.js:11-16 | decoding keeps the number and order of the labels |
| StatusCard.DecodeIDNAPlain | app/javascript/mastodon/features/status/components/card.js:14 | a name without "xn--" labels is shown as it is |
| StatusCard.ShortDescription | app/javascript/mastodon/features/status/components/card.js:57 | at most the first fifty characters, and empty when absent |
| StatusCard.ShortDescriptionPrefix | app/javascript/mastodon/features/status/components/card.js:57 | a prefix of the description, the whole of a short one, and exactly fifty characters of a long one |
| StatusCard.Provider | app/javascript/mastodon/features/status/components/card.js:47-49 | the provider name, or the decoded host when the name is empty |
| StatusCard.RenderLink | app/javascript/mastodon/features/status/components/card.js:33-62 | the image is shown exactly when the card has one. The description is its first fifty characters (all of it when shorter) and empty when absent. A non-empty provider name is shown as it is, and an empty one gives the host name decoded by `DecodeIDNA` |
| StatusCard.Render | app/javascript/mastodon/features/status/components/card.js:86-104 | nothing for no card and for other kinds. Otherwise a link, photo or video view exactly by the card's kind |

## Left out

- Concurrency is not modelled. That covers Redis pipelining, MULTI and WATCH, Go mutexes and goroutines, the Sidekiq queue, and the ping and keep-alive loops of the streaming server. Each operation is one atomic step on the store.
- Workers that are only enqueued are returned as values, not run: PushUpdateWorker becomes the list of notified accounts, and RegenerationWorker becomes the queued account id.
- Database queries are functions of sets of rows.
- Account lookups such as `Account.where(id:)` and the follow, block and mute tables are parameters.
- app/models/status.rb is not part of this model. Its default scope is taken to order by id descending, so `relation.first` is the newest row and `Status.last` the oldest, and `order(account_id: :desc)` only orders rows of equal id, which do not exist.
- `from_redis` reads the newest entries first, as `cache_ids` orders them.
- The clock, JSON decoding, punycode decoding, URL host parsing, the process environment, dotenv loading, the Sidekiq process count and `Benchmark.realtime` are parameters.
- `Text.Downcase` and the blank and case tests are ASCII-only. Unicode case folding is not modelled.
- `StatusCard.ShortDescription` counts characters, where JavaScript's `substring` counts UTF-16 code units.
- `StatusCard.DecodeIDNAKeepsLabels` needs the decoded labels to hold no dot. Punycode output could contain one.
- `ProcessActivity.Blank` counts only ASCII white space (space, tab, line feed, carriage return, vertical tab, form feed) as blank, where Ruby's `blank?` also counts other Unicode spaces. A `url` parameter that is a hash or an array rather than a string is not modelled.
- `ProcessActivity.Index` does not tell numbers, booleans and arrays apart: indexing any of them with a string raises, as Ruby's `Integer#[]`, `Array#[]` and the missing `[]` of nil, true and false do.
- Logging, response headers (CORS), the WebSocket upgrade and the HTTP status texts are not modelled.
- `PubSub.Forward`: a row scan that fails part way leaves earlier mute flags set in the source. The model treats any query failure as leaving the subscribers unchanged. The source also never checks `rows.Err()` after `rows.Next()` returns false (mastodon-gostreaming/pubsub.go:253-261), so an error while iterating ends the loop silently and delivery goes ahead with only the flags read so far. The model's `blocksOrMutes` answers for every subscriber and does not capture that partial result.
- `PubSub.Mark`: a muted id without a subscriber entry would panic in Go. The model ignores it.
- `PubSub.RouteOf`: the Go slice panic on a short channel name is the `SliceOutOfRange` outcome, not a crash.
- `Startup.Forward` stops with `Waiting` when its input runs out, where the loop would block.
- `FeedManager.TrimBulk` applies the corrected trim (`SortedSet.Trim`, the threshold being the 400th entry's score), not the trim as written, which reads the 400th entry's member as the threshold. The code as written is `SortedSet.TrimAsWritten`, and the difference is the first row of "## Findings".
- `FeedManager.PushBulk` trims an original's timelines with the corrected `FeedManager.TrimBulk`, so on a timeline holding reblogs it can keep fewer entries than the code as written.
- MergeIntoTimeline (`FeedManager.MergeIntoTimeline`) ends with the corrected `FeedManager.TrimBulk`, with the same consequence.
- TrimSize (`SortedSet.TrimSize`) and TrimOnlyTop (`SortedSet.TrimOnlyTop`) assume distinct scores. When several entries share the 400th entry's score, ZREMRANGEBYSCORE keeps all of them, so the corrected trim can leave more than 400. `SortedSet.TrimKeepsTop` and `SortedSet.TrimRemovesOnlyLower` hold without that assumption.
- OrderedSpec (`SortedSet.OrderedSpec`, through `SortedSet.Before`) breaks ties between equal scores by the member as a number, descending. Redis breaks them by the member's decimal string, compared byte by byte: for {9 scored 10, 10 scored 10} ZREVRANGE lists 9 first and the model lists 10 first. The two orders agree whenever scores differ. Scores are status ids, so a tie needs one status id to score two members, as when `merge_into_timeline` files a reblog under its own id in a timeline where a push already filed the reblogged original with that reblog's id. Where such a tie exists, the 400th entry read by the trim and the ranks read by `push_bulk` may differ from Redis's.
- `PrecomputeFeed.PopulateFeed` stops at the trim request: it reports that `FeedManager.instance.trim(:home, account.id)` is called (app/services/precompute_feed_service.rb:21) but does not apply a trim. app/lib/feed_manager.rb defines no `trim`, only the private `trim_bulk` (:169), so what that call does is not part of this model. The same holds for `filter?` (precompute_feed_service.rb:29), which app/lib/feed_manager.rb does not define either: the filtering decision is the parameter `filtered`.
- `CountCache` takes the relation's `first` row to be its newest, the row with the largest id (app/lib/count_cache.rb:31 and :43). That holds for a relation ordered by id descending. The relations handed to `CountCache` are not part of this model.
- `SortedSet.ComputeOrdered`, with its helpers `SortedSet.FindTop` and `SortedSet.FirstIndex`, and `PrecomputeFeed.Query` and `PrecomputeFeed.OldestStatus`, are loops standing for one Redis command (ZREVRANGE) or one SQL query. Their contracts state the result the server returns, not how the server computes it.
- `Users.User.UpdateTrackedFields` models Devise's `update_tracked_fields!` only for the sign-in timestamps and count. Devise is not part of this model.
- app/policies/application_policy.rb is not part of this model. The staff and admin roles are inputs.
- getQuery (mastodon-gostreaming/api.go) is not part of this model. It is a parameter of `Handler.Serve`.
- The eat-a-corndog service's image posting and account search are not modelled. Only the command parsing is.

## Findings

| source | as written | input that shows it | evidently intended | confidence | as-written member | corrected member |
|---|---|---|---|---|---|---|
| app/lib/feed_manager.rb:172-179 | the trim threshold is `last.last` read from ZREVRANGE without scores, so it is the 400th entry's member, not its score | a timeline {5 scored 9, 7 scored 7} trimmed to 1: the threshold is 5, so both entries stay | keep only the entries scoring at least the 400th entry's score, so at most 400 when no two entries share a score | not executed | SortedSet.TrimAsWrittenOverflows | SortedSet.TrimSize |
| app/lib/count_cache.rb:47 | the stale branch writes the new count under `@redi_count_key`, which is nil, so under the empty key | count 1 cached at id 10, rows {10, 11, 12}, cache stale: the fetch answers 3, moves the watermark to 12 and leaves the count at 1, so the next fetch answers 1 | write the sum under the count key | not executed | CountCache.FetchAsWrittenLosesCount | CountCache.FetchTwiceAgrees |
| app/services/precompute_feed_service.rb:46-50 | `Status.last` under the id-descending default order is the oldest status, so an inactive user's window is anchored at the oldest id and reaches back to the first status | statuses 1 and 100, a minimum id range of 10, room for two items: status 1 is selected | statuses within the minimum id range below the newest status | not executed | PrecomputeFeed.SelectedReachesBeforeRange | PrecomputeFeed.SelectedIntended |
| app/controllers/concerns/user_tracking_concern.rb:29 | `setnx(...) == 1 && expire(...)`: the Ruby client answers SETNX with `true` or `false`, and `true == 1` is false, so the expiry is never set | any absent regeneration flag: after the call it exists and has no TTL | set the one-day expiry when SETNX created the flag | not executed | UserTracking.RegenerateFeed | UserTracking.RegenerateFeedIntended |
