/**
 * The streaming server's HTTP handler (mastodon-gostreaming/handler.go):
 * which errors mean the peer went away, where the access token comes
 * from, what an authorization lookup answers, which requests get a
 * stream, the Server-Sent Events frame for a message, and which updates
 * a filtered stream drops.
 *
 * The token lookup, the muted-account query and `getQuery`, which maps a
 * stream name to a channel, are parameters: getQuery is not part of this
 * model.
 */
module Handler {
  import opened Wrappers
  import opened Text
  import StreamingData
  import PubSub

  type Byte = StreamingData.Byte

  datatype Errno = EPIPE | ECONNRESET | OtherErrno

  /** The errors a read or a write can give. */
  datatype Error =
    | OpError(errno: Errno)   // `*net.OpError`
    | EOF                     // `io.EOF`
    | OtherError

  /** `closeError`: a network operation failed because the peer closed the connection. */
  predicate CloseError(e: Error) {
    e.OpError? && (e.errno == EPIPE || e.errno == ECONNRESET)
  }

  /** `recvToClosed` */
  predicate RecvToClosed(e: Error) {
    e == EOF || CloseError(e)
  }

  /** `sentToClosed` */
  predicate SentToClosed(e: Error) {
    CloseError(e)
  }

  /**
   * A closed peer seen by a write is seen by a read too; end of file
   * closes only reads; other network errors close neither.
   */
  lemma ClosedErrors(e: Error)
    ensures SentToClosed(e) ==> RecvToClosed(e)
    ensures RecvToClosed(EOF) && !SentToClosed(EOF)
    ensures RecvToClosed(e) && !SentToClosed(e) ==> e == EOF
    ensures e.OpError? && e.errno == OtherErrno ==> !RecvToClosed(e) && !SentToClosed(e)
  {
  }

  /** `strings.TrimPrefix` */
  function TrimPrefix(s: string, p: string): (r: string)
    ensures HasPrefix(s, p) ==> s == p + r
    ensures !HasPrefix(s, p) ==> r == s
  {
    if HasPrefix(s, p) then s[|p|..] else s
  }

  const BEARER: string := "Bearer "

  /**
   * The token: the Authorization header with a leading "Bearer " removed
   * (section 2.1 of RFC 6750) when the header is present, else the
   * `access_token` form value (section 2.3 of RFC 6750).
   */
  function Token(authorization: string, accessToken: string): (t: string)
    ensures authorization == "" ==> t == accessToken
    ensures authorization != "" && HasPrefix(authorization, BEARER) ==> BEARER + t == authorization
    ensures authorization != "" && !HasPrefix(authorization, BEARER) ==> t == authorization
  {
    if authorization != "" then TrimPrefix(authorization, BEARER) else accessToken
  }

  /** A bearer header gives back its token, whatever the form says. */
  lemma TokenOfBearer(token: string, accessToken: string)
    ensures Token(BEARER + token, accessToken) == token
  {
    assert HasPrefix(BEARER + token, BEARER);
    assert (BEARER + token)[|BEARER|..] == token;
  }

  /** What the token lookup found: an account id, no row, or a failure. */
  datatype Lookup = Found(account: string) | NoRows | LookupFailed

  datatype Authorization = Authorized(account: string) | Denied(code: int, message: string)

  /** `authorize`: the account of the token, 401 for an unknown token, 500 for a failed lookup. */
  function Authorize(authorization: string, accessToken: string, lookup: string -> Lookup): (r: Authorization)
    ensures var l := lookup(Token(authorization, accessToken));
      && (r.Authorized? <==> l.Found?)
      && (r.Authorized? ==> r.account == l.account)
      && (l.NoRows? ==> r == Denied(401, "Invalid access token"))
      && (l.LookupFailed? ==> r == Denied(500, "Internal server error"))
  {
    match lookup(Token(authorization, accessToken))
    case Found(account) => Authorized(account)
    case NoRows => Denied(401, "Invalid access token")
    case LookupFailed => Denied(500, "Internal server error")
  }

  const PREFIX: string := "/api/v1/streaming/"

  /** How a request was answered. */
  datatype Served =
    | Preflight                                    // OPTIONS: the CORS headers and nothing else
    | Refused(code: int, message: string)
    | NotFound
    | Streaming(account: string, channel: string, filtering: string)

  /**
   * `ServeHTTP` up to the start of the stream. A WebSocket upgrade names
   * its stream in the `stream` form value; an event stream names it in
   * the path after "/api/v1/streaming/", compared in lower case. Only an
   * event-stream OPTIONS request is answered without authorization.
   * `getQuery` maps a stream name and an account to a channel (empty for
   * none) and the account whose blocks and mutes filter it.
   */
  function Serve(websocket: bool, verb: string, path: string, stream: string,
                 authorization: string, accessToken: string, lookup: string -> Lookup,
                 getQuery: (string, string) -> (string, string)): (r: Served)
    ensures !websocket && verb == "OPTIONS" ==> r == Preflight
    ensures r.Preflight? ==> !websocket && verb == "OPTIONS"
    ensures r.Refused? <==> !(!websocket && verb == "OPTIONS") && Authorize(authorization, accessToken, lookup).Denied?
    ensures r.Streaming? ==>
              && Authorize(authorization, accessToken, lookup) == Authorized(r.account)
              && r.channel != ""
              && (websocket ==> (r.channel, r.filtering) == getQuery(stream, r.account))
              && (!websocket ==> HasPrefix(Downcase(path), PREFIX)
                                 && (r.channel, r.filtering) == getQuery(Downcase(path)[|PREFIX|..], r.account))
    ensures (!websocket && verb != "OPTIONS" && Authorize(authorization, accessToken, lookup).Authorized?
             && !HasPrefix(Downcase(path), PREFIX)) ==> r == NotFound
    ensures websocket && Authorize(authorization, accessToken, lookup).Authorized? ==>
              var account := Authorize(authorization, accessToken, lookup).account;
              var q := getQuery(stream, account);
              r == if q.0 == "" then NotFound else Streaming(account, q.0, q.1)
    ensures !websocket && verb != "OPTIONS" && Authorize(authorization, accessToken, lookup).Authorized?
            && HasPrefix(Downcase(path), PREFIX) ==>
              var account := Authorize(authorization, accessToken, lookup).account;
              var q := getQuery(Downcase(path)[|PREFIX|..], account);
              r == if q.0 == "" then NotFound else Streaming(account, q.0, q.1)
  {
    if !websocket && verb == "OPTIONS" then Preflight
    else
      match Authorize(authorization, accessToken, lookup)
      case Denied(code, message) => Refused(code, message)
      case Authorized(account) =>
        var q :=
          if websocket then getQuery(stream, account)
          else
            var lower := Downcase(path);
            if HasPrefix(lower, PREFIX) then getQuery(lower[|PREFIX|..], account) else ("", "");
        if q.0 == "" then NotFound else Streaming(account, q.0, q.1)
  }

  /** The path of an event stream is read without regard to ASCII case. */
  lemma ServeIgnoresCase(verb: string, p1: string, p2: string, stream: string,
                         authorization: string, accessToken: string, lookup: string -> Lookup,
                         getQuery: (string, string) -> (string, string))
    requires Downcase(p1) == Downcase(p2)
    ensures Serve(false, verb, p1, stream, authorization, accessToken, lookup, getQuery)
         == Serve(false, verb, p2, stream, authorization, accessToken, lookup, getQuery)
  {
  }

  /** `bytes.Buffer`, written to at the end. */
  class Buffer {
    var bytes: seq<Byte>

    constructor()
      ensures bytes == []
    {
      bytes := [];
    }

    method Write(s: seq<Byte>)
      modifies this
      ensures bytes == old(bytes) + s
    {
      bytes := bytes + s;
    }
  }

  const NL: Byte := 10

  /** "event: " */
  const EVENT_FIELD: seq<Byte> := [101, 118, 101, 110, 116, 58, 32]
  /** "\ndata: " */
  const DATA_FIELD: seq<Byte> := [NL, 100, 97, 116, 97, 58, 32]

  /** What a frame carries: the decoded payload when there is one, else the raw JSON. */
  function Body(p: StreamingData.DataPayload): seq<Byte>
    reads p
  {
    if p.unmarshalled == [] then p.marshalled else p.unmarshalled
  }

  /** An event-stream frame: the event field, the data field and a blank line (section 9.2.4 of the HTML Standard). */
  function FrameOf(event: seq<Byte>, data: seq<Byte>): (f: seq<Byte>)
    ensures |f| == |EVENT_FIELD| + |event| + |DATA_FIELD| + |data| + 2
    ensures f[..|EVENT_FIELD|] == EVENT_FIELD && f[|f| - 2..] == [NL, NL]
  {
    EVENT_FIELD + event + DATA_FIELD + data + [NL, NL]
  }

  /** The frame `subscribe`'s handler builds for a message, written piece by piece. */
  method Frame(event: seq<Byte>, payload: StreamingData.DataPayload) returns (frame: seq<Byte>)
    ensures frame == FrameOf(event, Body(payload))
  {
    var buffer := new Buffer();
    buffer.Write(EVENT_FIELD);
    buffer.Write(event);
    buffer.Write(DATA_FIELD);
    if payload.unmarshalled == [] {
      buffer.Write(payload.marshalled);
    } else {
      buffer.Write(payload.unmarshalled);
    }
    buffer.Write([NL, NL]);
    frame := buffer.bytes;
  }

  /** The position of the first newline, or the length when there is none. */
  function NewlineAt(s: seq<Byte>): (n: nat)
    ensures n <= |s| && (n < |s| ==> s[n] == NL)
    ensures forall i :: 0 <= i < n ==> s[i] != NL
  {
    if s == [] || s[0] == NL then 0 else 1 + NewlineAt(s[1..])
  }

  /** Reading a frame back: the event runs to the first newline, the data to the closing blank line. */
  function ParseFrame(f: seq<Byte>): (r: Option<(seq<Byte>, seq<Byte>)>)
  {
    if |f| < |EVENT_FIELD| + |DATA_FIELD| + 2 || f[..|EVENT_FIELD|] != EVENT_FIELD || f[|f| - 2..] != [NL, NL] then None
    else
      var rest := f[|EVENT_FIELD|..|f| - 2];
      var n := NewlineAt(rest);
      if n + |DATA_FIELD| <= |rest| && rest[n..n + |DATA_FIELD|] == DATA_FIELD then
        Some((rest[..n], rest[n + |DATA_FIELD|..]))
      else None
  }

  lemma {:induction false} NewlineAtJoin(e: seq<Byte>, rest: seq<Byte>)
    requires forall i :: 0 <= i < |e| ==> e[i] != NL
    requires |rest| > 0 && rest[0] == NL
    ensures NewlineAt(e + rest) == |e|
  {
    if e != [] {
      assert (e + rest)[1..] == e[1..] + rest;
      NewlineAtJoin(e[1..], rest);
    } else {
      assert e + rest == rest;
    }
  }

  /** A frame whose event holds no newline reads back as its event and data. */
  lemma ParseFrameOf(event: seq<Byte>, data: seq<Byte>)
    requires forall i :: 0 <= i < |event| ==> event[i] != NL
    ensures ParseFrame(FrameOf(event, data)) == Some((event, data))
  {
    var f := FrameOf(event, data);
    var rest := f[|EVENT_FIELD|..|f| - 2];
    assert rest == event + (DATA_FIELD + data);
    NewlineAtJoin(event, DATA_FIELD + data);
    assert rest[..|event|] == event;
    assert rest[|event|..|event| + |DATA_FIELD|] == DATA_FIELD;
    assert rest[|event| + |DATA_FIELD|..] == data;
  }

  /**
   * The handler `subscribe` installs for a filtered stream: an update is
   * dropped when it cannot be decoded, when the muted-account query
   * fails, or when the filtering account blocks or mutes its author, a
   * mention or the reblogged author; every other message passes.
   */
  function Passes(filtering: string, event: string, hub: Option<PubSub.Hub>, blocksOrMutes: int -> bool, queryFails: bool)
    : (r: bool)
    ensures r <==> filtering == "" || event != "update"
                   || (hub.Some? && !queryFails && forall t :: t in PubSub.Targets(hub.value) ==> !blocksOrMutes(t))
  {
    if filtering == "" || event != "update" then true
    else if hub.None? || queryFails then false
    else !exists t :: t in PubSub.Targets(hub.value) && blocksOrMutes(t)
  }

  /**
   * The handler's filter and the pub/sub's mute flags agree: a channel
   * registered only under `id` gets an update from `forward` exactly when
   * `id`'s filter passes it.
   */
  lemma PassesAgreesWithForward(subs: PubSub.Subscribers, id: int, c: PubSub.Chan, filtering: string,
                                hub: PubSub.Hub, blocksOrMutes: (int, int) -> bool)
    requires PubSub.Settled(subs) && id in subs && c in subs[id].chans && filtering != ""
    requires forall k :: k in subs && c in subs[k].chans ==> k == id
    ensures var r := PubSub.Forward(subs, "update", Some(hub), blocksOrMutes, false);
      r.1.Some? && (c in r.1.value <==> Passes(filtering, "update", Some(hub), t => blocksOrMutes(id, t), false))
  {
    PubSub.ForwardDelivers(subs, "update", Some(hub), blocksOrMutes, false);
  }
}
