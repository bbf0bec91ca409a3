/**
 * `ProcessActivityController#show`: fetch the ActivityPub document a
 * `web+activity+` link points to and turn an Intent in it into a redirect,
 * either to the remote-follow page (a Follow) or to the status composer
 * (a Note, bare or wrapped in a Create; sections 6.1 and 6.1.1 of W3C
 * ActivityPub).
 *
 * The HTTP request and the JSON parser are a parameter `fetch`, from the
 * URL to what came back. Parsed JSON is a Ruby value, and `value['key']` is
 * modelled with Ruby's behaviour on each kind of value.
 */
module ProcessActivity {
  import opened Wrappers
  import opened Text

  const SCHEME: string := "web+activity+"
  const IRI_ACTIVITY_MASTODON: string := "https://mastodon.social/ns/activity-mastodon#"
  const IRI_INTENT: string := "https://akihikodaki.github.io/ns#Intent"

  /** A parsed JSON document as Ruby sees it; `Other` is a number, boolean or array. */
  datatype Value = Nil | Str(s: string) | Hash(fields: map<string, Value>) | Other

  /** `value[key]`: a value, or a `NoMethodError`/`TypeError` raised by it. */
  datatype Indexed = Got(v: Value) | Raises

  /**
   * `value[key]` with a string key: a hash gives the field or nil, a string
   * gives the key itself when it occurs in it and nil otherwise, anything
   * else raises.
   */
  function Index(v: Value, key: string): (r: Indexed)
    ensures r.Raises? <==> v.Nil? || v.Other?
    ensures v.Hash? ==> r == Got(if key in v.fields then v.fields[key] else Nil)
  {
    match v
    case Hash(fields) => Got(if key in fields then fields[key] else Nil)
    case Str(s) => Got(if Occurs(s, key) then Str(key) else Nil)
    case _ => Raises
  }

  /** `v[k1][k2]…`, raising at the first step that raises. */
  function Path(v: Value, keys: seq<string>): (r: Indexed)
    decreases |keys|
  {
    if keys == [] then Got(v)
    else match Index(v, keys[0])
      case Raises => Raises
      case Got(w) => Path(w, keys[1..])
  }

  /** The text before the first line break. */
  function FirstLine(s: string): (r: string)
    ensures HasPrefix(s, r) && '\n' !in r
    ensures r == s || s[|r|] == '\n'
  {
    if s == [] || s[0] == '\n' then [] else [s[0]] + FirstLine(s[1..])
  }

  /**
   * The URL fetched: the capture of `/^(?:web\+activity\+)?(.*)/` on the
   * parameter, that is, its first line with one leading `web+activity+` removed.
   */
  function Url(param: string): (r: string)
    ensures '\n' !in r
    ensures HasPrefix(param, SCHEME) ==> r == FirstLine(param[|SCHEME|..])
    ensures !HasPrefix(param, SCHEME) ==> r == FirstLine(param)
  {
    var rest := if HasPrefix(param, SCHEME) then param[|SCHEME|..] else param;
    FirstLine(rest)
  }

  /** A link with the scheme prefix fetches what the bare link fetches. */
  lemma UrlStripsScheme(u: string)
    requires !HasPrefix(u, SCHEME)
    ensures Url(SCHEME + u) == Url(u)
  {
    assert (SCHEME + u)[..|SCHEME|] == SCHEME;
    assert (SCHEME + u)[|SCHEME|..] == u;
  }

  /** What the request and the parser produced. */
  datatype Fetched =
    | InvalidUri          // Addressable::URI::InvalidURIError
    | HttpFailure         // HTTP::Error
    | Unparsable          // Oj::Error
    | Parsed(activity: Value)

  datatype Response =
    | BadRequest                                // head 400
    | ValidationError                           // Mastodon::ValidationError, 422
    | Unprocessable                             // unprocessable_entity
    | ServerError                               // an exception raised by `[]` or a missing method
    | AuthorizeFollow(acct: Value)              // redirect to authorize_follow_url(acct: …)
    | ComposeStatus(values: map<string, Value>) // redirect to the composer with these query values

  /**
   * Rails's `blank?` on a string: empty or white space only, which makes
   * `params.require` raise `ActionController::ParameterMissing`.
   */
  predicate Blank(s: string) {
    forall i :: 0 <= i < |s| ==> s[i] in " \t\n\r\U{B}\U{C}"
  }

  /**
   * `show` on the `url` parameter, `None` when the request has none. A
   * missing or blank parameter is answered 400 before anything is fetched.
   */
  function Show(param: Option<string>, fetch: string -> Fetched): (r: Response)
    ensures param.None? || Blank(param.value) ==> r.BadRequest?
    ensures param.Some? && !Blank(param.value) ==>
              var f := fetch(Url(param.value));
              (f.InvalidUri? <==> r.BadRequest?)
              && (f.HttpFailure? || f.Unparsable? || f == Parsed(Nil) ==> r.ValidationError?)
              && (f.Parsed? && f.activity != Nil ==> r == Dispatch(f.activity))
  {
    if param.None? || Blank(param.value) then BadRequest
    else match fetch(Url(param.value))
      case InvalidUri => BadRequest
      case HttpFailure => ValidationError
      case Unparsable => ValidationError
      case Parsed(activity) => if activity.Nil? then ValidationError else Dispatch(activity)
  }

  /** The decision on a parsed, non-nil activity. */
  function Dispatch(activity: Value): (r: Response)
    requires activity != Nil
    ensures Path(activity, ["type"]).Got? && Path(activity, ["type"]) != Got(Str(IRI_INTENT)) ==> r.Unprocessable?
    ensures r.AuthorizeFollow? <==>
              Path(activity, ["type"]) == Got(Str(IRI_INTENT))
              && Path(activity, ["object", "type"]) == Got(Str("Follow"))
              && Path(activity, ["object", "object", "id"]).Got?
    ensures r.AuthorizeFollow? ==> Path(activity, ["object", "object", "id"]) == Got(r.acct)
    ensures r.ComposeStatus? ==>
              Path(activity, ["type"]) == Got(Str(IRI_INTENT))
              && ((Path(activity, ["object", "type"]) == Got(Str("Note"))
                   && MediaTypeOk(Path(activity, ["object", "mediaType"])))
                  || (Path(activity, ["object", "type"]) == Got(Str("Create"))
                      && Path(activity, ["object", "object", "type"]) == Got(Str("Note"))
                      && MediaTypeOk(Path(activity, ["object", "object", "mediaType"]))))
    ensures r.ComposeStatus? ==>
              ("visibility" in r.values <==> Path(activity, ["object", "audience"]) != Got(Nil))
              && ("visibility" in r.values ==>
                    r.values["visibility"].Str?
                    && Path(activity, ["object", "audience"]) == Got(Str(IRI_ACTIVITY_MASTODON + r.values["visibility"].s)))
    ensures r.ComposeStatus? && Path(activity, ["object", "type"]) != Got(Str("Create")) ==>
              ("status" in r.values <==> Path(activity, ["object", "content"]) != Got(Nil))
              && ("status" in r.values ==> Path(activity, ["object", "content"]) == Got(r.values["status"]))
    ensures r.ComposeStatus? && Path(activity, ["object", "type"]) == Got(Str("Create")) ==>
              ("status" in r.values <==> Path(activity, ["object", "object", "content"]) != Got(Nil))
              && ("status" in r.values ==> Path(activity, ["object", "object", "content"]) == Got(r.values["status"]))
    ensures Path(activity, ["type"]) == Got(Str(IRI_INTENT)) ==>
              Index(activity, "object").Got? && r == Intent(Index(activity, "object").v)
  {
    match Index(activity, "type")
    case Raises => ServerError
    case Got(t) =>
      if t != Str(IRI_INTENT) then Unprocessable
      else match Index(activity, "object")
        case Raises => ServerError
        case Got(obj) => Intent(obj)
  }

  /** A `mediaType` that passes `media_type&.casecmp('text/plain') == 0`. */
  predicate MediaTypeOk(m: Indexed) {
    m.Got? && m.v.Str? && CaseEqual(m.v.s, "text/plain")
  }

  /** The Intent's `object`: a Follow, or a Note possibly wrapped in a Create. */
  function Intent(obj: Value): (r: Response)
    ensures r.AuthorizeFollow? <==> Path(obj, ["type"]) == Got(Str("Follow")) && Path(obj, ["object", "id"]).Got?
    ensures r.AuthorizeFollow? ==> Path(obj, ["object", "id"]) == Got(r.acct)
    ensures r.ComposeStatus? ==>
              (Path(obj, ["type"]) == Got(Str("Note")) && MediaTypeOk(Path(obj, ["mediaType"])))
              || (Path(obj, ["type"]) == Got(Str("Create"))
                  && Path(obj, ["object", "type"]) == Got(Str("Note"))
                  && MediaTypeOk(Path(obj, ["object", "mediaType"])))
    ensures r.ComposeStatus? ==>
              ("visibility" in r.values <==> Path(obj, ["audience"]) != Got(Nil))
              && ("visibility" in r.values ==>
                    r.values["visibility"].Str?
                    && Path(obj, ["audience"]) == Got(Str(IRI_ACTIVITY_MASTODON + r.values["visibility"].s)))
    ensures Path(obj, ["type"]).Raises? ==> r == ServerError
    ensures Path(obj, ["type"]).Got? && Path(obj, ["type"]) != Got(Str("Follow")) ==>
              Index(obj, "object").Got?
              && r == Compose(obj, if Path(obj, ["type"]) == Got(Str("Create")) then Index(obj, "object").v else obj)
  {
    match Index(obj, "type")
    case Raises => ServerError
    case Got(t) =>
      if t == Str("Follow") then
        match Index(obj, "object")
        case Raises => ServerError
        case Got(followObject) =>
          match Index(followObject, "id")
          case Raises => ServerError
          case Got(acct) => AuthorizeFollow(acct)
      else
        var createObject := if t == Str("Create") then Index(obj, "object") else Got(obj);
        match createObject
        case Raises => ServerError
        case Got(c) => Compose(obj, c)
  }

  /** An `audience` the composer accepts: nil, or a string starting with the Mastodon IRI. */
  predicate AudienceOk(a: Indexed) {
    a == Got(Nil) || (a.Got? && a.v.Str? && HasPrefix(a.v.s, IRI_ACTIVITY_MASTODON))
  }

  /** The audience check: absent, the suffix after the Mastodon IRI, or refused. */
  datatype Audience = NoAudience | Visibility(suffix: string) | Refused | NotAString

  function CheckAudience(audience: Value): (r: Audience)
    ensures r.NoAudience? <==> audience == Nil
    ensures r.Visibility? <==> audience.Str? && HasPrefix(audience.s, IRI_ACTIVITY_MASTODON)
    ensures r.Visibility? ==> audience == Str(IRI_ACTIVITY_MASTODON + r.suffix)
  {
    match audience
    case Nil => NoAudience
    case Str(s) =>
      if HasPrefix(s, IRI_ACTIVITY_MASTODON) then
        assert s == IRI_ACTIVITY_MASTODON + s[|IRI_ACTIVITY_MASTODON|..];
        Visibility(s[|IRI_ACTIVITY_MASTODON|..])
      else Refused
    case _ => NotAString
  }

  /**
   * A Note (`createObject`) of the Intent's `object`: the audience is read
   * from `object`, content and media type from the Note.
   */
  function Compose(obj: Value, createObject: Value): (r: Response)
    ensures r.ComposeStatus? ==> Path(createObject, ["type"]) == Got(Str("Note")) && MediaTypeOk(Path(createObject, ["mediaType"]))
    ensures r.ComposeStatus? ==>
              ("visibility" in r.values <==> Path(obj, ["audience"]) != Got(Nil))
              && ("visibility" in r.values ==>
                    r.values["visibility"].Str?
                    && Path(obj, ["audience"]) == Got(Str(IRI_ACTIVITY_MASTODON + r.values["visibility"].s)))
    ensures r.ComposeStatus? ==>
              ("status" in r.values <==> Path(createObject, ["content"]) != Got(Nil))
              && ("status" in r.values ==> Path(createObject, ["content"]) == Got(r.values["status"]))
    ensures r.ComposeStatus? <==>
              Path(createObject, ["type"]) == Got(Str("Note")) && MediaTypeOk(Path(createObject, ["mediaType"]))
              && AudienceOk(Path(obj, ["audience"]))
  {
    match Index(createObject, "type")
    case Raises => ServerError
    case Got(t) =>
      if t != Str("Note") then Unprocessable
      else match Index(obj, "audience")
        case Raises => ServerError
        case Got(audience) =>
          match CheckAudience(audience)
          case NotAString => ServerError
          case Refused => ValidationError
          case NoAudience => Finish(createObject, map[])
          case Visibility(v) => Finish(createObject, map["visibility" := Str(v)])
  }

  /** The Note's content goes into the query values, then its media type is checked. */
  function Finish(createObject: Value, withVisibility: map<string, Value>): (r: Response)
    ensures r.ComposeStatus? ==> MediaTypeOk(Path(createObject, ["mediaType"]))
    ensures r.ComposeStatus? ==> r.values - {"status"} == withVisibility - {"status"}
    ensures r.ComposeStatus? ==>
              ("status" in r.values <==> Path(createObject, ["content"]) != Got(Nil))
              && ("status" in r.values ==> Path(createObject, ["content"]) == Got(r.values["status"]))
  {
    match Index(createObject, "content")
    case Raises => ServerError
    case Got(content) =>
      var values := if content == Nil then withVisibility - {"status"} else withVisibility["status" := content];
      match Index(createObject, "mediaType")
      case Raises => ServerError
      case Got(mediaType) =>
        if mediaType == Nil then ValidationError
        else if !mediaType.Str? then ServerError
        else if !CaseEqual(mediaType.s, "text/plain") then ValidationError
        else ComposeStatus(values)
  }

  /** An Intent whose object is a plain-text Note with an accepted audience is composed. */
  lemma NoteIntentComposes(activity: Value)
    requires activity != Nil && Path(activity, ["type"]) == Got(Str(IRI_INTENT))
    requires Path(activity, ["object", "type"]) == Got(Str("Note"))
    requires MediaTypeOk(Path(activity, ["object", "mediaType"])) && AudienceOk(Path(activity, ["object", "audience"]))
    ensures Dispatch(activity).ComposeStatus?
  {
    var obj := Index(activity, "object").v;
    assert Path(obj, ["type"]) == Path(activity, ["object", "type"]);
    assert Path(obj, ["mediaType"]) == Path(activity, ["object", "mediaType"]);
    assert Path(obj, ["audience"]) == Path(activity, ["object", "audience"]);
  }

  /** An Intent whose object is a Create of a plain-text Note, with an accepted audience, is composed. */
  lemma CreateIntentComposes(activity: Value)
    requires activity != Nil && Path(activity, ["type"]) == Got(Str(IRI_INTENT))
    requires Path(activity, ["object", "type"]) == Got(Str("Create"))
    requires Path(activity, ["object", "object", "type"]) == Got(Str("Note"))
    requires MediaTypeOk(Path(activity, ["object", "object", "mediaType"]))
    requires AudienceOk(Path(activity, ["object", "audience"]))
    ensures Dispatch(activity).ComposeStatus?
  {
    var obj := Index(activity, "object").v;
    assert Path(obj, ["type"]) == Path(activity, ["object", "type"]);
    assert Path(obj, ["audience"]) == Path(activity, ["object", "audience"]);
    var note := Index(obj, "object").v;
    assert Path(note, ["type"]) == Path(activity, ["object", "object", "type"]);
    assert Path(note, ["mediaType"]) == Path(activity, ["object", "object", "mediaType"]);
  }

  /** A Follow intent on hashes redirects to the follow page with the followed object's id. */
  lemma FollowIntent(id: Value)
    ensures Dispatch(Hash(map["type" := Str(IRI_INTENT),
                              "object" := Hash(map["type" := Str("Follow"), "object" := Hash(map["id" := id])])]))
            == AuthorizeFollow(id)
  {
  }

  /** A media type other than `text/plain` up to case, or none, refuses the Note. */
  lemma NoteNeedsPlainText(obj: Value, createObject: Value)
    requires Path(createObject, ["type"]) == Got(Str("Note"))
    requires !MediaTypeOk(Path(createObject, ["mediaType"]))
    ensures !Compose(obj, createObject).ComposeStatus?
  {
  }

  /** A Note whose media type differs from `text/plain` only in case is accepted. */
  lemma NoteMediaTypeIgnoresCase(content: string)
    ensures Compose(Hash(map[]), Hash(map["type" := Str("Note"), "mediaType" := Str("Text/Plain"), "content" := Str(content)]))
            == ComposeStatus(map["status" := Str(content)])
  {
    assert CaseEqual("Text/Plain", "text/plain");
  }

  /** A document that is not an Intent is unprocessable, whatever else it holds. */
  lemma NotAnIntent(fields: map<string, Value>)
    requires "type" !in fields || fields["type"] != Str(IRI_INTENT)
    ensures Dispatch(Hash(fields)) == Unprocessable
  {
  }
}
