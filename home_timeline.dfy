/**
 * The home timeline endpoint (`Api::V1::Timelines::HomeController`): the
 * id range a request reads, derived from whichever of `max_id` and
 * `since_id` it gives, and the pagination links of the page it returns.
 * Request parameters arrive here already converted to integers.
 */
module HomeTimelineApi {
  import opened Wrappers
  import opened StatusQueries
  import opened RedisStore
  import Feed

  /** About one day of status ids: the widest range a request may ask for. */
  const RANGE_REQUEST_MAX_ID_RANGE: int := 262144

  datatype RangeResult =
    | Bounds(max: Option<int>, since: int)
      /** `Mastodon::ValidationError`: both bounds given, too far apart. */
    | TooBroad
      /** No bound given and no status at all: `Status.first` is nil. */
    | NoStatus

  /**
   * `home_statuses`' range: with no bound, everything after `newestStatus -
   * minIdRange`; with one bound, the other one `RANGE_REQUEST_MAX_ID_RANGE`
   * away; with both, the pair as given unless it spans more than that.
   */
  function HomeRange(max: Option<int>, since: Option<int>, newestStatus: Option<int>, minIdRange: int): (r: RangeResult)
    ensures r.TooBroad? <==> max.Some? && since.Some? && max.value - since.value > RANGE_REQUEST_MAX_ID_RANGE
    ensures r.NoStatus? <==> max.None? && since.None? && newestStatus.None?
    ensures r.Bounds? && max.Some? ==> r.max == max
    ensures r.Bounds? && since.Some? ==> r.since == since.value
    ensures r.Bounds? && r.max.Some? ==> r.max.value - r.since <= RANGE_REQUEST_MAX_ID_RANGE
    ensures r.Bounds? && r.max.None? ==> max.None? && since.None? && r.since == newestStatus.value - minIdRange
  {
    match (max, since)
    case (None, None) =>
      if newestStatus.None? then NoStatus else Bounds(None, newestStatus.value - minIdRange)
    case (None, Some(s)) => Bounds(Some(s + RANGE_REQUEST_MAX_ID_RANGE), s)
    case (Some(m), None) => Bounds(Some(m), m - RANGE_REQUEST_MAX_ID_RANGE)
    case (Some(m), Some(s)) => if m - s > RANGE_REQUEST_MAX_ID_RANGE then TooBroad else Bounds(Some(m), s)
  }

  /** A single bound is widened to a range of exactly `RANGE_REQUEST_MAX_ID_RANGE`. */
  lemma OneBoundSpan(max: Option<int>, since: Option<int>, newestStatus: Option<int>, minIdRange: int)
    requires max.Some? != since.Some?
    ensures var r := HomeRange(max, since, newestStatus, minIdRange);
      r.Bounds? && r.max.Some? && r.max.value - r.since == RANGE_REQUEST_MAX_ID_RANGE
  {
  }

  datatype Response = Page(statuses: seq<int>) | ValidationError | ServerError

  /**
   * `home_statuses`: the range, then `Feed#get` on the home timeline of
   * `accountId` for `limit` statuses.
   */
  ghost function HomeStatuses(z: ZSets, strings: map<string, int>, accountId: int, db: Feed.Database, limit: nat,
                              max: Option<int>, since: Option<int>, newestStatus: Option<int>, minIdRange: int): (r: Response)
    ensures r.Page? ==> |r.statuses| <= limit && StrictlyDesc(r.statuses)
    ensures r.Page? ==> forall x :: x in r.statuses ==> InIdRange(x, max, since)
  {
    match HomeRange(max, since, newestStatus, minIdRange)
    case TooBroad => ValidationError
    case NoStatus => ServerError
    case Bounds(m, s) => Page(Feed.Get(z, strings, "home", accountId, db, limit, m, s))
  }

  /** A range that is too broad is refused before the timeline or the database is read. */
  lemma TooBroadBeforeLookup(z1: ZSets, z2: ZSets, strings1: map<string, int>, strings2: map<string, int>,
                             accountId: int, db1: Feed.Database, db2: Feed.Database, limit: nat,
                             max: int, since: int, newestStatus: Option<int>, minIdRange: int)
    requires max - since > RANGE_REQUEST_MAX_ID_RANGE
    ensures HomeStatuses(z1, strings1, accountId, db1, limit, Some(max), Some(since), newestStatus, minIdRange) == ValidationError
    ensures HomeStatuses(z2, strings2, accountId, db2, limit, Some(max), Some(since), newestStatus, minIdRange) == ValidationError
  {
  }

  /** The `Link` header targets: the next page below the last status, the previous one above the first. */
  datatype Links = Links(nextMaxId: int, prevSinceId: int)

  /** `insert_pagination_headers`, which runs only for a non-empty page. */
  function Pagination(statuses: seq<int>): (r: Option<Links>)
    ensures r.None? <==> |statuses| == 0
    ensures r.Some? ==> r.value.nextMaxId in statuses && r.value.prevSinceId in statuses
  {
    if |statuses| == 0 then None else Some(Links(statuses[|statuses| - 1], statuses[0]))
  }

  /**
   * On a newest-first page, neither link can return a status of the page:
   * every status is at or above the next page's `max_id` and at or below
   * the previous page's `since_id`, both exclusive bounds. Every id outside
   * the page's span is in range of one of the two links.
   */
  lemma PaginationDisjoint(statuses: seq<int>)
    requires StrictlyDesc(statuses) && |statuses| > 0
    ensures var links := Pagination(statuses).value;
      forall x :: x in statuses ==> !InIdRange(x, Some(links.nextMaxId), None) && !InIdRange(x, None, Some(links.prevSinceId))
    ensures var links := Pagination(statuses).value;
      forall x :: x < statuses[|statuses| - 1] || statuses[0] < x ==>
        InIdRange(x, Some(links.nextMaxId), None) || InIdRange(x, None, Some(links.prevSinceId))
  {
    var n := |statuses|;
    forall x | x in statuses ensures statuses[n - 1] <= x <= statuses[0] {
      var i :| 0 <= i < n && statuses[i] == x;
      if 0 < i {
        assert statuses[0] > statuses[i];
      }
      if i < n - 1 {
        assert statuses[i] > statuses[n - 1];
      }
    }
  }
}
