/**
 * The streaming server's subscriber bookkeeping and channel routing
 * (mastodon-gostreaming/pubsub.go): which subscriber channels are
 * registered under which account for the public, local, hashtag and user
 * streams, how a message on a Redis channel name reaches them, and how
 * subscribers blocking or muting an update's accounts are skipped.
 *
 * A subscriber channel is a `Chan`, known by its identity. Sending is
 * modelled as the set of channels a message is delivered to. The
 * block/mute relation the SQL statement reads is a parameter.
 */
module PubSub {
  import opened Wrappers
  import opened Text
  import Decimal

  /** A subscriber's channel. */
  type Chan = nat

  /** `muteablePublisher`: the channels of one account, and whether it is muted for the message in flight. */
  datatype Publisher = Publisher(muting: bool, chans: set<Chan>)

  /** `muteablePubSub.pubSub`: publishers by account id. */
  type Subscribers = map<int, Publisher>

  /** Every account present has a channel, and no flag is left set between messages. */
  predicate Settled(subs: Subscribers) {
    forall id :: id in subs ==> subs[id].chans != {} && !subs[id].muting
  }

  /** Whether `c` is registered under some account. */
  predicate Registered(subs: Subscribers, c: Chan) {
    exists id :: id in subs && c in subs[id].chans
  }

  /** `muteablePubSub.subscribe`: add the channel to the account's set, or create an unmuted entry for it. */
  function Subscribed(subs: Subscribers, id: int, c: Chan): (r: Subscribers)
    ensures id in r && r[id].chans == (if id in subs then subs[id].chans else {}) + {c}
    ensures r[id].muting == (id in subs && subs[id].muting)
    ensures forall k :: k != id ==> (k in r <==> k in subs) && (k in subs ==> r[k] == subs[k])
  {
    if id in subs then subs[id := subs[id].(chans := subs[id].chans + {c})]
    else subs[id := Publisher(false, {c})]
  }

  /**
   * The function `muteablePubSub.subscribe` returns: drop the channel when
   * the account has others, otherwise drop the account.
   */
  function Unsubscribed(subs: Subscribers, id: int, c: Chan): (r: Subscribers)
    ensures id in subs && |subs[id].chans| > 1 ==> id in r && r[id] == subs[id].(chans := subs[id].chans - {c})
    ensures !(id in subs && |subs[id].chans| > 1) ==> id !in r
    ensures forall k :: k != id ==> (k in r <==> k in subs) && (k in subs ==> r[k] == subs[k])
  {
    if id in subs && |subs[id].chans| > 1 then subs[id := subs[id].(chans := subs[id].chans - {c})]
    else subs - {id}
  }

  /** Unsubscribing a channel just subscribed restores the subscribers. */
  lemma UnsubscribeUndoes(subs: Subscribers, id: int, c: Chan)
    requires Settled(subs) && !Registered(subs, c)
    ensures Unsubscribed(Subscribed(subs, id, c), id, c) == subs
  {
    var s := Subscribed(subs, id, c);
    if id in subs {
      var old_ := subs[id].chans;
      assert c !in old_;
      assert |old_ + {c}| == |old_| + 1;
      assert old_ != {};
      assert (old_ + {c}) - {c} == old_;
    }
  }

  lemma SubscribeSettles(subs: Subscribers, id: int, c: Chan)
    requires Settled(subs)
    ensures Settled(Subscribed(subs, id, c))
  {
  }

  lemma UnsubscribeSettles(subs: Subscribers, id: int, c: Chan)
    requires Settled(subs) && (id in subs ==> c in subs[id].chans)
    ensures Settled(Unsubscribed(subs, id, c))
  {
    if id in subs && |subs[id].chans| > 1 {
      var rest := subs[id].chans - {c};
      assert |rest| == |subs[id].chans| - 1;
    }
  }

  /** `userPubSub.pubSub`: channels by account id. */
  type UserSubscribers = map<int, set<Chan>>

  /** `userPubSub.subscribe` */
  function UserSubscribed(subs: UserSubscribers, id: int, c: Chan): (r: UserSubscribers)
    ensures id in r && r[id] == (if id in subs then subs[id] else {}) + {c}
    ensures forall k :: k != id ==> (k in r <==> k in subs) && (k in subs ==> r[k] == subs[k])
  {
    subs[id := (if id in subs then subs[id] else {}) + {c}]
  }

  /** The function `userPubSub.subscribe` returns. */
  function UserUnsubscribed(subs: UserSubscribers, id: int, c: Chan): (r: UserSubscribers)
    ensures id in subs && |subs[id]| > 1 ==> id in r && r[id] == subs[id] - {c}
    ensures !(id in subs && |subs[id]| > 1) ==> id !in r
    ensures forall k :: k != id ==> (k in r <==> k in subs) && (k in subs ==> r[k] == subs[k])
  {
    if id in subs && |subs[id]| > 1 then subs[id := subs[id] - {c}] else subs - {id}
  }

  lemma UserUnsubscribeUndoes(subs: UserSubscribers, id: int, c: Chan)
    requires forall k :: k in subs ==> subs[k] != {} && c !in subs[k]
    ensures UserUnsubscribed(UserSubscribed(subs, id, c), id, c) == subs
  {
    if id in subs {
      assert |subs[id] + {c}| == |subs[id]| + 1;
      assert (subs[id] + {c}) - {c} == subs[id];
    }
  }

  /** `hashtagPubSub.pubSubs`: one muteable pub/sub per hashtag. */
  type Hashtags = map<string, Subscribers>

  /** `hashtagPubSub.subscribe`: the hashtag's pub/sub is created on first use. */
  function TagSubscribed(tags: Hashtags, tag: string, id: int, c: Chan): (r: Hashtags)
    ensures tag in r && r[tag] == Subscribed(if tag in tags then tags[tag] else map[], id, c)
    ensures forall t :: t != tag ==> (t in r <==> t in tags) && (t in tags ==> r[t] == tags[t])
  {
    tags[tag := Subscribed(if tag in tags then tags[tag] else map[], id, c)]
  }

  /** The function `hashtagPubSub.subscribe` returns: the hashtag's pub/sub goes once it has no subscriber. */
  function TagUnsubscribed(tags: Hashtags, tag: string, id: int, c: Chan): (r: Hashtags)
    ensures tag in tags && |Unsubscribed(tags[tag], id, c)| > 0 ==> tag in r && r[tag] == Unsubscribed(tags[tag], id, c)
    ensures tag in tags && |Unsubscribed(tags[tag], id, c)| == 0 ==> tag !in r
    ensures tag !in tags ==> r == tags
    ensures forall t :: t != tag ==> (t in r <==> t in tags) && (t in tags ==> r[t] == tags[t])
  {
    if tag !in tags then tags
    else
      var inner := Unsubscribed(tags[tag], id, c);
      if |inner| == 0 then tags - {tag} else tags[tag := inner]
  }

  /** The last subscriber of a hashtag leaving removes the hashtag, which was absent before it came. */
  lemma TagUnsubscribeUndoes(tags: Hashtags, tag: string, id: int, c: Chan)
    requires forall t :: t in tags ==> Settled(tags[t]) && tags[t] != map[] && !Registered(tags[t], c)
    ensures TagUnsubscribed(TagSubscribed(tags, tag, id, c), tag, id, c) == tags
  {
    var before := if tag in tags then tags[tag] else map[];
    UnsubscribeUndoes(before, id, c);
    if tag in tags {
      assert |before| > 0;
    }
  }

  /** The accounts of an update that subscribers may block or mute. */
  datatype Hub = Hub(accountId: int, mentionIds: seq<int>, reblogAccountId: int)

  /** The targets of the mute query: the author, every mention, and the reblogged author when there is one. */
  function Targets(h: Hub): (r: seq<int>)
    ensures forall x :: x in r <==> x == h.accountId || x in h.mentionIds || (h.reblogAccountId != 0 && x == h.reblogAccountId)
    ensures |r| == 1 + |h.mentionIds| + (if h.reblogAccountId != 0 then 1 else 0)
  {
    [h.accountId] + h.mentionIds + (if h.reblogAccountId != 0 then [h.reblogAccountId] else [])
  }

  /** The query's answer: subscribers blocking or muting any target. */
  function Muted(subs: Subscribers, h: Hub, blocksOrMutes: (int, int) -> bool): (r: set<int>)
    ensures forall id :: id in r <==> id in subs && exists t :: t in Targets(h) && blocksOrMutes(id, t)
  {
    set id | id in subs && exists t :: t in Targets(h) && blocksOrMutes(id, t)
  }

  /** Flag the muted subscribers. */
  function Mark(subs: Subscribers, muted: set<int>): (r: Subscribers)
    ensures r.Keys == subs.Keys
    ensures forall id :: id in r ==> r[id].chans == subs[id].chans
    ensures forall id :: id in r ==> (r[id].muting <==> subs[id].muting || id in muted)
  {
    map id | id in subs :: subs[id].(muting := subs[id].muting || id in muted)
  }

  /** Every channel registered. */
  function Channels(subs: Subscribers): (r: set<Chan>)
    ensures forall c :: c in r <==> Registered(subs, c)
  {
    set id, c | id in subs && c in subs[id].chans :: c
  }

  /** The channels of the subscribers not flagged. */
  function Unflagged(subs: Subscribers): (r: set<Chan>)
    ensures forall c :: c in r <==> exists id :: id in subs && !subs[id].muting && c in subs[id].chans
  {
    set id, c | id in subs && !subs[id].muting && c in subs[id].chans :: c
  }

  /** The send loop: flagged subscribers are skipped and their flag cleared, the others get the message. */
  function Deliver(subs: Subscribers): (r: (Subscribers, set<Chan>))
    ensures r.0.Keys == subs.Keys
    ensures forall id :: id in r.0 ==> r.0[id] == subs[id].(muting := false)
    ensures r.1 == Unflagged(subs)
  {
    (map id | id in subs :: subs[id].(muting := false), Unflagged(subs))
  }

  /**
   * `muteablePubSub.forward`: for an update, flag the subscribers blocking
   * or muting one of its accounts, then send. An undecodable update
   * (`hub` None) or a failed query returns an error without sending.
   */
  function Forward(subs: Subscribers, event: string, hub: Option<Hub>, blocksOrMutes: (int, int) -> bool, queryFails: bool)
    : (r: (Subscribers, Option<set<Chan>>))
    ensures r.1.None? <==> event == "update" && (hub.None? || queryFails)
    ensures r.1.None? ==> r.0 == subs
    ensures r.1.Some? ==> r.0.Keys == subs.Keys && forall id :: id in r.0 ==> !r.0[id].muting && r.0[id].chans == subs[id].chans
  {
    if event == "update" then
      if hub.None? || queryFails then (subs, None)
      else
        var d := Deliver(Mark(subs, Muted(subs, hub.value, blocksOrMutes)));
        (d.0, Some(d.1))
    else
      var d := Deliver(subs);
      (d.0, Some(d.1))
  }

  /**
   * On settled subscribers, an update reaches exactly the channels of the
   * subscribers blocking or muting none of its accounts, and any other
   * event reaches every channel; both leave the subscribers as they were.
   */
  lemma ForwardDelivers(subs: Subscribers, event: string, hub: Option<Hub>, blocksOrMutes: (int, int) -> bool, queryFails: bool)
    requires Settled(subs)
    ensures var r := Forward(subs, event, hub, blocksOrMutes, queryFails);
      r.1.Some? ==> r.0 == subs
    ensures var r := Forward(subs, event, hub, blocksOrMutes, queryFails);
      event == "update" && r.1.Some? ==>
        forall c :: c in r.1.value <==>
          exists id :: id in subs && c in subs[id].chans && forall t :: t in Targets(hub.value) ==> !blocksOrMutes(id, t)
    ensures var r := Forward(subs, event, hub, blocksOrMutes, queryFails);
      event != "update" ==> r.1 == Some(Channels(subs))
  {
    var r := Forward(subs, event, hub, blocksOrMutes, queryFails);
    if event != "update" {
      assert r.1.value == Channels(subs);
    }
    if r.1.Some? {
      assert r.0.Keys == subs.Keys;
      forall id | id in subs ensures r.0[id] == subs[id] {
        assert r.0[id].chans == subs[id].chans && !r.0[id].muting && !subs[id].muting;
      }
      assert r.0 == subs;
    }
  }

  /** A Redis channel resolved to a pub/sub. */
  datatype Route =
    | HashtagRoute(tag: string)
    | HashtagLocalRoute(tag: string)
    | PublicRoute
    | PublicLocalRoute
    | UserRoute(id: int)

  datatype Routing =
    | Routed(route: Route)
    | UnknownChannel(channel: string)  // `unknown channel: %q`
    | SliceOutOfRange                  // `channel[len("timeline:"):]` on a shorter name panics

  const TIMELINE: string := "timeline:"

  /**
   * `muxPubSub.publish`'s routing. The first nine characters are dropped
   * unchecked; the rest names a hashtag (`hashtag:T`, `hashtag:T:local`),
   * the public streams (`public`, `public:local`) or an account id.
   */
  function RouteOf(channel: string): (r: Routing)
    ensures r.SliceOutOfRange? <==> |channel| < |TIMELINE|
    ensures r.UnknownChannel? ==> r.channel == channel
  {
    if |channel| < |TIMELINE| then SliceOutOfRange
    else
      var trimmed := channel[|TIMELINE|..];
      if HasPrefix(trimmed, "hashtag:") then
        var hashtag := trimmed[|"hashtag:"|..];
        if HasSuffix(hashtag, ":local") then Routed(HashtagLocalRoute(hashtag[..|hashtag| - |":local"|]))
        else Routed(HashtagRoute(hashtag))
      else if HasPrefix(trimmed, "public") then
        if trimmed[|"public"|..] == ":local" then Routed(PublicLocalRoute) else Routed(PublicRoute)
      else
        match Decimal.ParseInt64(trimmed)
        case None => UnknownChannel(channel)
        case Some(id) => Routed(UserRoute(id))
  }

  /** Hashtag channels, local or not, route to their hashtag. */
  lemma RouteHashtag(tag: string)
    ensures !HasSuffix(tag, ":local") ==> RouteOf(TIMELINE + "hashtag:" + tag) == Routed(HashtagRoute(tag))
    ensures RouteOf(TIMELINE + "hashtag:" + tag + ":local") == Routed(HashtagLocalRoute(tag))
  {
    var c1 := TIMELINE + "hashtag:" + tag;
    assert c1[|TIMELINE|..] == "hashtag:" + tag;
    assert ("hashtag:" + tag)[|"hashtag:"|..] == tag;
    var c2 := TIMELINE + "hashtag:" + tag + ":local";
    assert c2[|TIMELINE|..] == "hashtag:" + tag + ":local";
    var h := "hashtag:" + tag + ":local";
    assert h[|"hashtag:"|..] == tag + ":local";
    assert (tag + ":local")[|tag + ":local"| - |":local"|..] == ":local";
    assert (tag + ":local")[..|tag + ":local"| - |":local"|] == tag;
  }

  /** `timeline:public:local` is the local stream; any other `timeline:public…` is the public one. */
  lemma RoutePublic(rest: string)
    ensures RouteOf(TIMELINE + "public" + rest) == Routed(if rest == ":local" then PublicLocalRoute else PublicRoute)
  {
    var c := TIMELINE + "public" + rest;
    assert c[|TIMELINE|..] == "public" + rest;
    assert ("public" + rest)[|"public"|..] == rest;
    assert !HasPrefix("public" + rest, "hashtag:") by {
      assert ("public" + rest)[0] == 'p';
    }
  }

  /** An account's channel `timeline:<id>` routes to that account. */
  lemma RouteUser(id: int)
    requires Decimal.IsInt64(id)
    ensures RouteOf(TIMELINE + Decimal.Show(id)) == Routed(UserRoute(id))
  {
    var c := TIMELINE + Decimal.Show(id);
    assert c[|TIMELINE|..] == Decimal.Show(id);
    Decimal.ParseInt64OfShow(id);
    ShowNamesNoStream(id);
  }

  /** A number's text starts with neither "hashtag:" nor "public". */
  lemma ShowNamesNoStream(id: int)
    ensures !HasPrefix(Decimal.Show(id), "hashtag:") && !HasPrefix(Decimal.Show(id), "public")
  {
    var s := Decimal.Show(id);
    assert s[0] == '-' || Decimal.IsDigit(s[0]);
    assert !HasPrefix(s, "hashtag:") by {
      assert s[0] != 'h';
    }
    assert !HasPrefix(s, "public") by {
      assert s[0] != 'p';
    }
  }

  /** `timeline:` alone names nothing. */
  lemma RouteEmpty()
    ensures RouteOf(TIMELINE) == UnknownChannel(TIMELINE)
  {
    assert TIMELINE[|TIMELINE|..] == "";
  }

  /** What came of a publication: the channels reached, or why none were. */
  datatype Publication =
    | Delivered(chans: set<Chan>)
    | ForwardFailed            // the error `forward` logs
    | Unknown(channel: string)
    | Panic

  /** The pub/sub of each stream: `muxPubSub`. */
  class MuxPubSub {
    var hashtag: Hashtags
    var hashtagLocal: Hashtags
    var public: Subscribers
    var publicLocal: Subscribers
    var user: UserSubscribers

    constructor()
      ensures hashtag == map[] && hashtagLocal == map[] && public == map[] && publicLocal == map[] && user == map[]
    {
      hashtag := map[];
      hashtagLocal := map[];
      public := map[];
      publicLocal := map[];
      user := map[];
    }

    /**
     * `muxPubSub.subscribe` for the stream named by `query`, registering
     * channel `c` for `account` (and `tag` for the hashtag streams); an
     * unknown query registers nothing.
     */
    method Subscribe(query: string, account: int, tag: string, c: Chan) returns (subscribed: bool)
      modifies this
      ensures subscribed <==> query in ["hashtag", "hashtag:local", "public", "public:local", "user"]
      ensures hashtag == if query == "hashtag" then TagSubscribed(old(hashtag), tag, account, c) else old(hashtag)
      ensures hashtagLocal == if query == "hashtag:local" then TagSubscribed(old(hashtagLocal), tag, account, c) else old(hashtagLocal)
      ensures public == if query == "public" then Subscribed(old(public), account, c) else old(public)
      ensures publicLocal == if query == "public:local" then Subscribed(old(publicLocal), account, c) else old(publicLocal)
      ensures user == if query == "user" then UserSubscribed(old(user), account, c) else old(user)
    {
      subscribed := true;
      if query == "hashtag" {
        hashtag := TagSubscribed(hashtag, tag, account, c);
      } else if query == "hashtag:local" {
        hashtagLocal := TagSubscribed(hashtagLocal, tag, account, c);
      } else if query == "public" {
        public := Subscribed(public, account, c);
      } else if query == "public:local" {
        publicLocal := Subscribed(publicLocal, account, c);
      } else if query == "user" {
        user := UserSubscribed(user, account, c);
      } else {
        subscribed := false;
      }
    }

    /** The function `Subscribe` returned for the same arguments. */
    method Unsubscribe(query: string, account: int, tag: string, c: Chan)
      modifies this
      ensures hashtag == if query == "hashtag" then TagUnsubscribed(old(hashtag), tag, account, c) else old(hashtag)
      ensures hashtagLocal == if query == "hashtag:local" then TagUnsubscribed(old(hashtagLocal), tag, account, c) else old(hashtagLocal)
      ensures public == if query == "public" then Unsubscribed(old(public), account, c) else old(public)
      ensures publicLocal == if query == "public:local" then Unsubscribed(old(publicLocal), account, c) else old(publicLocal)
      ensures user == if query == "user" then UserUnsubscribed(old(user), account, c) else old(user)
    {
      if query == "hashtag" {
        hashtag := TagUnsubscribed(hashtag, tag, account, c);
      } else if query == "hashtag:local" {
        hashtagLocal := TagUnsubscribed(hashtagLocal, tag, account, c);
      } else if query == "public" {
        public := Unsubscribed(public, account, c);
      } else if query == "public:local" {
        publicLocal := Unsubscribed(publicLocal, account, c);
      } else if query == "user" {
        user := UserUnsubscribed(user, account, c);
      }
    }

    /**
     * `muxPubSub.publish` followed by the `forward` it hands the message
     * to: route the channel name, then send to the pub/sub it names. A
     * hashtag nobody subscribed to, or an account with no channel,
     * receives nothing.
     */
    method Publish(channel: string, event: string, hub: Option<Hub>, blocksOrMutes: (int, int) -> bool, queryFails: bool)
      returns (p: Publication)
      modifies this
      ensures user == old(user)
      ensures RouteOf(channel).SliceOutOfRange? <==> p.Panic?
      ensures RouteOf(channel).UnknownChannel? <==> p == Unknown(channel)
      ensures !RouteOf(channel).Routed? ==> unchanged(this)
      ensures RouteOf(channel) == Routed(PublicRoute) ==>
                var f := Forward(old(public), event, hub, blocksOrMutes, queryFails);
                public == f.0 && p == (if f.1.Some? then Delivered(f.1.value) else ForwardFailed)
                && publicLocal == old(publicLocal) && hashtag == old(hashtag) && hashtagLocal == old(hashtagLocal)
      ensures RouteOf(channel) == Routed(PublicLocalRoute) ==>
                var f := Forward(old(publicLocal), event, hub, blocksOrMutes, queryFails);
                publicLocal == f.0 && p == (if f.1.Some? then Delivered(f.1.value) else ForwardFailed)
                && public == old(public) && hashtag == old(hashtag) && hashtagLocal == old(hashtagLocal)
      ensures RouteOf(channel).Routed? && RouteOf(channel).route.HashtagRoute? ==>
                var tag := RouteOf(channel).route.tag;
                && public == old(public) && publicLocal == old(publicLocal) && hashtagLocal == old(hashtagLocal)
                && (tag !in old(hashtag) ==> hashtag == old(hashtag) && p == Delivered({}))
                && (tag in old(hashtag) ==>
                      var f := Forward(old(hashtag)[tag], event, hub, blocksOrMutes, queryFails);
                      hashtag == old(hashtag)[tag := f.0] && p == (if f.1.Some? then Delivered(f.1.value) else ForwardFailed))
      ensures RouteOf(channel).Routed? && RouteOf(channel).route.HashtagLocalRoute? ==>
                var tag := RouteOf(channel).route.tag;
                && public == old(public) && publicLocal == old(publicLocal) && hashtag == old(hashtag)
                && (tag !in old(hashtagLocal) ==> hashtagLocal == old(hashtagLocal) && p == Delivered({}))
                && (tag in old(hashtagLocal) ==>
                      var f := Forward(old(hashtagLocal)[tag], event, hub, blocksOrMutes, queryFails);
                      hashtagLocal == old(hashtagLocal)[tag := f.0] && p == (if f.1.Some? then Delivered(f.1.value) else ForwardFailed))
      ensures RouteOf(channel).Routed? && RouteOf(channel).route.UserRoute? ==>
                var id := RouteOf(channel).route.id;
                unchanged(this) && p == Delivered(if id in user then user[id] else {})
    {
      match RouteOf(channel)
      case SliceOutOfRange =>
        p := Panic;
      case UnknownChannel(_) =>
        p := Unknown(channel);
      case Routed(route) =>
        match route
        case HashtagRoute(tag) =>
          if tag in hashtag {
            var f := Forward(hashtag[tag], event, hub, blocksOrMutes, queryFails);
            hashtag := hashtag[tag := f.0];
            p := if f.1.Some? then Delivered(f.1.value) else ForwardFailed;
          } else {
            p := Delivered({});
          }
        case HashtagLocalRoute(tag) =>
          if tag in hashtagLocal {
            var f := Forward(hashtagLocal[tag], event, hub, blocksOrMutes, queryFails);
            hashtagLocal := hashtagLocal[tag := f.0];
            p := if f.1.Some? then Delivered(f.1.value) else ForwardFailed;
          } else {
            p := Delivered({});
          }
        case PublicRoute =>
          var f := Forward(public, event, hub, blocksOrMutes, queryFails);
          public := f.0;
          p := if f.1.Some? then Delivered(f.1.value) else ForwardFailed;
        case PublicLocalRoute =>
          var f := Forward(publicLocal, event, hub, blocksOrMutes, queryFails);
          publicLocal := f.0;
          p := if f.1.Some? then Delivered(f.1.value) else ForwardFailed;
        case UserRoute(id) =>
          p := Delivered(if id in user then user[id] else {});
    }
  }
}
