/**
 * Statuses and the relationships between accounts, as the timeline code
 * reads them. Relationships are plain sets of pairs: the queries that load
 * them from the database are outside this model.
 */
module Statuses {
  import opened Wrappers

  datatype Visibility = Public | Unlisted | Private | Direct

  /** The status a reblog points at, with the fields the filters read of its author. */
  datatype Original = Original(id: int, accountId: int, accountDomain: Option<string>)

  datatype Status = Status(
    id: int,
    accountId: int,
    /** `reply?` */
    reply: bool,
    inReplyToId: Option<int>,
    /** The replied-to account, when it is known. */
    inReplyToAccountId: Option<int>,
    reblog: Option<Original>,
    /** Account ids of the mentioned accounts. */
    mentions: seq<int>,
    visibility: Visibility)
  {
    /** The member a home timeline files this status under: `reblog_of_id` for a reblog. */
    function TimelineMember(): (m: int)
      ensures reblog.None? ==> m == id
      ensures reblog.Some? ==> m == reblog.value.id
    {
      if reblog.Some? then reblog.value.id else id
    }
  }

  datatype Relations = Relations(
    /** (follower, followed) */
    follows: set<(int, int)>,
    /** (blocker, blocked) */
    blocks: set<(int, int)>,
    /** (muter, muted) */
    mutes: set<(int, int)>,
    /** (account, domain it hides); a local account's domain is nil */
    domainBlocks: set<(int, Option<string>)>)
  {
    predicate Follows(a: int, b: int) {
      (a, b) in follows
    }

    predicate Blocks(a: int, b: int) {
      (a, b) in blocks
    }

    predicate Mutes(a: int, b: int) {
      (a, b) in mutes
    }

    predicate BlocksDomain(a: int, d: Option<string>) {
      (a, d) in domainBlocks
    }

    /** `a` has at least one follow row (what an inner join on follows keeps). */
    predicate FollowsAnyone(a: int) {
      exists p :: p in follows && p.0 == a
    }

    predicate BlocksAnyOf(a: int, targets: seq<int>) {
      exists i :: 0 <= i < |targets| && Blocks(a, targets[i])
    }

    predicate MutesAnyOf(a: int, targets: seq<int>) {
      exists i :: 0 <= i < |targets| && Mutes(a, targets[i])
    }
  }
}
