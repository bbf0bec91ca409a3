/**
 * The streaming server's start-up choices and its Redis receive loop
 * (mastodon-gostreaming/main.go): the environment it runs in, the
 * PostgreSQL connection string, how Redis is dialled, and the loop
 * handing each Redis message to the hub.
 *
 * The process environment is a parameter `getenv` (an unset variable
 * reads as ""); decoding a message's JSON is a parameter `decode`.
 */
module Startup {
  import opened Wrappers
  import StreamingData

  type Getenv = string -> string

  /** Where `init` left things: the environment and the dotenv file it loaded, or a fatal exit. */
  datatype Init = Loaded(env: string, envPath: string) | Fatal

  /**
   * `init`: GO_ENV "production" loads ".env.production", "development" or
   * unset loads ".env"; anything else, or a dotenv file that fails to
   * load, is fatal.
   */
  function InitEnv(goEnv: string, loads: string -> bool): (r: Init)
    ensures r.Loaded? ==> r.env in {"production", "development"} && loads(r.envPath)
    ensures r.Loaded? ==> (r.envPath == ".env.production" <==> r.env == "production")
    ensures r.Loaded? ==> (r.env == "development" <==> goEnv in {"", "development"})
    ensures goEnv !in {"", "development", "production"} ==> r == Fatal
    ensures goEnv == "production" ==>
              r == if loads(".env.production") then Loaded("production", ".env.production") else Fatal
    ensures goEnv in {"", "development"} ==>
              r == if loads(".env") then Loaded("development", ".env") else Fatal
  {
    var chosen :=
      if goEnv == "production" then Some(("production", ".env.production"))
      else if goEnv == "" || goEnv == "development" then Some(("development", ".env"))
      else None;
    match chosen
    case None => Fatal
    case Some(c) => if loads(c.1) then Loaded(c.0, c.1) else Fatal
  }

  /** Unset GO_ENV means development. */
  lemma InitDefaultsToDevelopment(loads: string -> bool)
    requires loads(".env")
    ensures InitEnv("", loads) == Loaded("development", ".env")
    ensures InitEnv("", loads) == InitEnv("development", loads)
  {
  }

  const DEV_DSN: string := "dbname=mastodon_development host=/var/run/postgresql"

  /** `strings.Join(fragments, "")` */
  function Concat(ss: seq<string>): string {
    if ss == [] then "" else ss[0] + Concat(ss[1..])
  }

  lemma {:induction false} ConcatAppend(a: seq<string>, b: seq<string>)
    ensures Concat(a + b) == Concat(a) + Concat(b)
  {
    if a != [] {
      assert (a + b)[1..] == a[1..] + b;
      ConcatAppend(a[1..], b);
    } else {
      assert a + b == b;
    }
  }

  lemma {:induction false} ConcatBlanks(n: nat)
    ensures Concat(seq(n, _ => "")) == ""
  {
    if n > 0 {
      assert seq(n, _ => "")[1..] == seq(n - 1, _ => "");
      ConcatBlanks(n - 1);
    }
  }

  /** A variable's value, or the default when it is unset or empty. */
  function OrDefault(v: string, default: string): (r: string)
    ensures r != "" <==> v != "" || default != ""
  {
    if v == "" then default else v
  }

  /**
   * The fragments `openDB` joins in production: sixteen empty strings
   * (`make([]string, 16)`), then each key and its value, defaults filled
   * in, and the password only when it is set.
   */
  function Fragments(getenv: Getenv): seq<string> {
    var pass := getenv("DB_PASS");
    seq(16, _ => "")
    + ["user=", OrDefault(getenv("DB_USER"), "mastodon"),
       " dbname=", OrDefault(getenv("DB_NAME"), "mastodon_production"),
       " host=", OrDefault(getenv("DB_HOST"), "localhost"),
       " port=", OrDefault(getenv("DB_PORT"), "5432")]
    + (if pass != "" then [" password=", pass] else [])
  }

  /**
   * `openDB`'s connection string: in production, user, dbname, host and
   * port with their defaults, then the password only when it is set;
   * anywhere else the fixed development string.
   */
  function Dsn(env: string, getenv: Getenv): (r: string)
    ensures env != "production" ==> r == DEV_DSN
    ensures var pass := getenv("DB_PASS");
      env == "production" ==>
        r == ("user=" + OrDefault(getenv("DB_USER"), "mastodon"))
           + (" dbname=" + OrDefault(getenv("DB_NAME"), "mastodon_production"))
           + (" host=" + OrDefault(getenv("DB_HOST"), "localhost"))
           + (" port=" + OrDefault(getenv("DB_PORT"), "5432"))
           + (if pass != "" then " password=" + pass else "")
  {
    if env == "production" then
      FragmentsJoined(getenv);
      Concat(Fragments(getenv))
    else DEV_DSN
  }

  /** Joining the fragments: the leading empty fragments leave no trace. */
  lemma FragmentsJoined(getenv: Getenv)
    ensures var pass := getenv("DB_PASS");
      Concat(Fragments(getenv))
        == ("user=" + OrDefault(getenv("DB_USER"), "mastodon"))
         + (" dbname=" + OrDefault(getenv("DB_NAME"), "mastodon_production"))
         + (" host=" + OrDefault(getenv("DB_HOST"), "localhost"))
         + (" port=" + OrDefault(getenv("DB_PORT"), "5432"))
         + (if pass != "" then " password=" + pass else "")
  {
    var pass := getenv("DB_PASS");
    var u, n, h, pt := OrDefault(getenv("DB_USER"), "mastodon"), OrDefault(getenv("DB_NAME"), "mastodon_production"),
                       OrDefault(getenv("DB_HOST"), "localhost"), OrDefault(getenv("DB_PORT"), "5432");
    var p1, p2, p3, p4 := ["user=", u], [" dbname=", n], [" host=", h], [" port=", pt];
    var tail: seq<string> := if pass != "" then [" password=", pass] else [];
    var blanks: seq<string> := seq(16, _ => "");
    assert Fragments(getenv) == blanks + p1 + p2 + p3 + p4 + tail;
    ConcatBlanks(16);
    ConcatPair("user=", u);
    ConcatPair(" dbname=", n);
    ConcatPair(" host=", h);
    ConcatPair(" port=", pt);
    ConcatAppend(blanks, p1);
    assert Concat(blanks + p1) == "user=" + u;
    ConcatAppend(blanks + p1, p2);
    assert Concat(blanks + p1 + p2) == ("user=" + u) + (" dbname=" + n);
    ConcatAppend(blanks + p1 + p2, p3);
    ConcatAppend(blanks + p1 + p2 + p3, p4);
    ConcatAppend(blanks + p1 + p2 + p3 + p4, tail);
    if pass != "" {
      ConcatPair(" password=", pass);
    }
  }

  lemma ConcatPair(a: string, b: string)
    ensures Concat([a, b]) == a + b
  {
    assert [a, b][1..] == [b];
    assert [b][1..] == [];
    assert Concat([b]) == b + Concat([]);
    assert Concat([a, b]) == a + Concat([b]);
  }

  /** Outside production the connection string is fixed, whatever the environment holds. */
  lemma DsnDevelopment(env: string, g1: Getenv, g2: Getenv)
    requires env != "production"
    ensures Dsn(env, g1) == Dsn(env, g2) == DEV_DSN
  {
  }

  /** With nothing set, production connects as mastodon to mastodon_production on localhost:5432 without a password. */
  lemma DsnProductionDefaults(getenv: Getenv)
    requires forall k :: getenv(k) == ""
    ensures Dsn("production", getenv)
         == ("user=" + "mastodon") + (" dbname=" + "mastodon_production") + (" host=" + "localhost") + (" port=" + "5432") + ""
  {
    assert getenv("DB_USER") == "" && getenv("DB_NAME") == "" && getenv("DB_HOST") == "";
    assert getenv("DB_PORT") == "" && getenv("DB_PASS") == "";
  }

  /** How `openRedis` dials: network, address, and the password option when there is one. */
  datatype Dial = Dial(network: string, addr: string, password: Option<string>)

  function RedisDial(getenv: Getenv): (d: Dial)
    ensures d.network == "unix" <==> getenv("REDIS_SOCKET") != ""
    ensures d.network == "unix" ==> d.addr == getenv("REDIS_SOCKET") && d.password.None?
    ensures d.network != "unix" ==>
              && d.network == "tcp"
              && d.addr == getenv("REDIS_HOST") + ":" + getenv("REDIS_PORT")
              && (d.password.Some? <==> getenv("REDIS_PASSWORD") != "")
              && (d.password.Some? ==> d.password.value == getenv("REDIS_PASSWORD"))
  {
    var socket := getenv("REDIS_SOCKET");
    if socket == "" then
      var password := getenv("REDIS_PASSWORD");
      Dial("tcp", getenv("REDIS_HOST") + ":" + getenv("REDIS_PORT"), if password != "" then Some(password) else None)
    else Dial("unix", socket, None)
  }

  /** A socket path overrides host, port and password. */
  lemma SocketWins(g1: Getenv, g2: Getenv)
    requires g1("REDIS_SOCKET") == g2("REDIS_SOCKET") != ""
    ensures RedisDial(g1) == RedisDial(g2)
  {
  }

  /** What `Receive` on the pattern subscription can give. */
  datatype Received =
    | PMessage(channel: string, body: seq<StreamingData.Byte>)
    | Subscription(kind: string, pattern: string, count: int)
    | ReceiveError(err: string)
    | Pong

  /** The end of the loop: unsubscribed from "timeline:*" with no subscription left, or a receive error. */
  predicate Stops(m: Received) {
    (m.Subscription? && m.kind == "punsubscribe" && m.pattern == "timeline:*" && m.count <= 0) || m.ReceiveError?
  }

  /** Where the loop ends in `ms`: the first stopping message, or the end of the input. */
  function StopAt(ms: seq<Received>): (i: nat)
    ensures i <= |ms| && (i < |ms| ==> Stops(ms[i]))
    ensures forall j :: 0 <= j < i ==> !Stops(ms[j])
  {
    if ms == [] || Stops(ms[0]) then 0 else 1 + StopAt(ms[1..])
  }

  /** What the hub is given for `ms`: each message whose body decodes, on its own channel, in order. */
  function Published<D>(ms: seq<Received>, decode: seq<StreamingData.Byte> -> Option<D>): (r: seq<(string, D)>)
    ensures |r| <= |ms|
    ensures forall p :: p in r ==> exists m :: m in ms && m.PMessage? && m.channel == p.0 && decode(m.body) == Some(p.1)
  {
    if ms == [] then []
    else
      var last := ms[|ms| - 1];
      var front := Published(ms[..|ms| - 1], decode);
      if last.PMessage? && decode(last.body).Some? then front + [(last.channel, decode(last.body).value)] else front
  }

  /** A message that does not decode is skipped; nothing else is. */
  lemma PublishedSkipsUndecodable<D>(ms: seq<Received>, channel: string, body: seq<StreamingData.Byte>,
                                     decode: seq<StreamingData.Byte> -> Option<D>)
    ensures decode(body).None? ==> Published(ms + [PMessage(channel, body)], decode) == Published(ms, decode)
    ensures decode(body).Some? ==>
              Published(ms + [PMessage(channel, body)], decode) == Published(ms, decode) + [(channel, decode(body).value)]
  {
    assert (ms + [PMessage(channel, body)])[..|ms|] == ms;
  }

  /** How `forward` returned. */
  datatype Ended =
    | Unsubscribed            // nil
    | Failed(err: string)     // the receive error
    | Waiting                 // the input ran out; the loop would wait for more

  /**
   * `forward`: receive in a loop, publishing each message that decodes
   * and skipping the others, until the subscription ends or a receive
   * fails.
   */
  method Forward<D>(ms: seq<Received>, decode: seq<StreamingData.Byte> -> Option<D>)
    returns (published: seq<(string, D)>, ended: Ended)
    ensures published == Published(ms[..StopAt(ms)], decode)
    ensures StopAt(ms) == |ms| <==> ended == Waiting
    ensures ended.Failed? <==> StopAt(ms) < |ms| && ms[StopAt(ms)].ReceiveError?
    ensures ended.Failed? ==> ended.err == ms[StopAt(ms)].err
  {
    published := [];
    var i := 0;
    while i < |ms|
      invariant 0 <= i <= StopAt(ms)
      invariant published == Published(ms[..i], decode)
    {
      var m := ms[i];
      assert ms[..i + 1][..i] == ms[..i];
      if m.PMessage? {
        match decode(m.body)
        case None =>
        case Some(d) =>
          published := published + [(m.channel, d)];
      } else if m.Subscription? {
        if m.kind == "punsubscribe" && m.pattern == "timeline:*" && m.count <= 0 {
          return published, Unsubscribed;
        }
      } else if m.ReceiveError? {
        return published, Failed(m.err);
      }
      i := i + 1;
    }
    ended := Waiting;
  }
}
