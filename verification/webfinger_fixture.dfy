/** The collaborators of the handler tests (a `parseUri` that takes the last
    path segment as the identifier, two actor dispatchers, a handle mapper, a
    404 handler) and the responses the tests expect for each request. A test's
    `new URL(...)` is the URL parser the scenario lemmas are given: each
    lemma requires only what that parser returns for the test's strings. */
module WebFingerFixture {
  import opened Wrappers
  import opened Text
  import opened WebFinger
  import Properties = WebFingerProperties

  /** The serving origin of the first test, `https://example.com`. */
  const ExampleOrigin := Origin("https", "example.com", "")

  function ExampleActorUri(identifier: string): Uri
  {
    "https://example.com/users/" + identifier
  }

  /** The first test's `parseUri`: `acct:` URIs are not parsed; any other URI
      is an actor whose identifier is the last segment of its path. */
  function LastSegmentParseUri(url: Url): (r: Option<ParseUriResult>)
    ensures r.Some? <==> url.scheme != "acct"
    ensures r.Some? ==> r.value.kind == "actor" && '/' !in r.value.identifier
  {
    SplitPiecesAvoidSeparator(url.pathname, '/');
    if url.scheme == "acct" then None
    else Some(ParseUriResult("actor", LastPiece(url.pathname, '/')))
  }

  /** The stub inverts `getActorUri`: the path of `/users/<identifier>` parses
      back to that identifier when it has no '/'. */
  lemma LastSegmentRoundTrip(scheme: string, host: string, identifier: string)
    requires scheme != "acct" && '/' !in identifier
    ensures LastSegmentParseUri(Url(scheme, host, "/users/" + identifier)) == Some(ParseUriResult("actor", identifier))
  {
    assert "/users/" + identifier == "/users" + ['/'] + identifier;
    LastPieceAfterSeparator("/users", identifier, '/');
  }

  const ExampleContext := Context(ExampleOrigin, ExampleActorUri, LastSegmentParseUri)

  /** The first test's dispatcher: actors `someone` (no preferred username) and
      `someone2`, each with an icon, a profile URL and an alternate link. */
  function ExampleDispatcher(ctx: Context, handle: string): Option<Actor>
  {
    if handle != "someone" && handle != "someone2" then None
    else Some(Actor(
      ctx.getActorUri(handle),
      if handle == "someone" then "Someone" else "Someone 2",
      if handle == "someone" then None else Some(handle),
      Some(Image("https://example.com/icon.jpg", Some("image/jpeg"))),
      [PlainUrl("https://example.com/@" + handle),
       LinkUrl("https://example.org/@" + handle, "alternate", Some("text/html"))]))
  }

  /** `foo` is `someone`, `bar` is `someone2`, nobody else is mapped. */
  function ExampleHandleMapper(ctx: Context, username: string): Option<string>
  {
    if username == "foo" then Some("someone")
    else if username == "bar" then Some("someone2")
    else None
  }

  function NotFound(request: Request): Response
  {
    Response(404, [], PlainText("Not found"))
  }

  const ExampleOptions := Options(ExampleContext, Some(ExampleDispatcher), None, NotFound)
  const MappedOptions := ExampleOptions.(actorHandleMapper := Some(ExampleHandleMapper))

  function ExampleRequest(resource: string): Request
  {
    Request(Some(resource))
  }

  /** The links both example actors share, for `handle`. */
  function ExpectedLinks(handle: string): seq<Link>
  {
    [Link("https://example.com/users/" + handle, "self", Some("application/activity+json")),
     Link("https://example.com/@" + handle, "http://webfinger.net/rel/profile-page", None),
     Link("https://example.org/@" + handle, "alternate", Some("text/html")),
     Link("https://example.com/icon.jpg", "http://webfinger.net/rel/avatar", Some("image/jpeg"))]
  }

  /** The example dispatcher's actors produce the expected links. */
  lemma ExampleLinks(ctx: Context, handle: string)
    requires handle == "someone" || handle == "someone2"
    requires ctx.getActorUri == ExampleActorUri
    ensures Links(ExampleActorUri(handle), ExampleDispatcher(ctx, handle).value) == ExpectedLinks(handle)
  {
  }

  lemma ExampleHostIsLowerCase()
    ensures Lower("example.com") == "example.com" == Host(ExampleOrigin)
  {
    LowerOfLower("example.com");
  }

  /** `acct:<user>@example.com` names the local account `user`. */
  lemma ExampleAccount(user: string)
    requires user != "" && '@' !in user
    ensures ParseAccount(user + "@example.com") == Some(Account(user, "example.com"))
    ensures IsSameOrigin(Account(user, "example.com"), ExampleContext)
  {
    assert user + "@example.com" == user + "@" + "example.com";
    Properties.ParseAccountOfAccount(user, "example.com");
    ExampleHostIsLowerCase();
  }

  /** Without a dispatcher the request without `resource` goes to `onNotFound` (404). */
  lemma NoDispatcherScenario(parseUrl: string -> Option<Url>, onNotFound: Request -> Response)
    ensures var request := Request(None);
      HandleWebFinger(request, ExampleOptions.(actorDispatcher := None, onNotFound := onNotFound), parseUrl) == onNotFound(request)
  {
  }

  /** With a dispatcher and no `resource`: 400 "Missing resource parameter.",
      whatever `onNotFound` does. */
  lemma MissingResourceScenario(parseUrl: string -> Option<Url>, onNotFound: Request -> Response)
    ensures HandleWebFinger(Request(None), ExampleOptions.(onNotFound := onNotFound), parseUrl) ==
      Response(400, ErrorHeaders, PlainText("Missing resource parameter."))
  {
  }

  /** `resource= invalid `, which `new URL` rejects: 400 "Invalid resource
      URL.", whatever `onNotFound` does. */
  lemma InvalidResourceScenario(parseUrl: string -> Option<Url>, onNotFound: Request -> Response)
    requires parseUrl(" invalid ") == None
    ensures HandleWebFinger(ExampleRequest(" invalid "), ExampleOptions.(onNotFound := onNotFound), parseUrl) ==
      Response(400, ErrorHeaders, PlainText("Invalid resource URL."))
  {
  }

  /** `acct:<user>@example.com` for a user the dispatcher (through the mapper,
      when there is one) finds as `actor`: 200, with the canonical URI of the
      resolved handle as alias. */
  lemma LocalAccountAnswer(parseUrl: string -> Option<Url>, options: Options, user: string, handle: string, actor: Actor)
    requires options.context == ExampleContext
    requires user != "" && '@' !in user
    requires parseUrl("acct:" + user + "@example.com") == Some(Url("acct", "", user + "@example.com"))
    requires options.actorHandleMapper.None? ==> handle == user
    requires options.actorHandleMapper.Some? ==> options.actorHandleMapper.value(ExampleContext, user) == Some(handle)
    requires options.actorDispatcher.Some? && options.actorDispatcher.value(ExampleContext, handle) == Some(actor)
    ensures HandleWebFinger(ExampleRequest("acct:" + user + "@example.com"), options, parseUrl) ==
      Response(200, JrdHeaders, JrdBody(ResourceDescriptor("acct:" + user + "@example.com", [ExampleActorUri(handle)], Links(ExampleActorUri(handle), actor))))
  {
    ExampleAccount(user);
    Properties.AccountFormAnswer(ExampleRequest("acct:" + user + "@example.com"), options, parseUrl,
      Url("acct", "", user + "@example.com"), Account(user, "example.com"), handle, actor);
  }

  /** `acct:someone@example.com`: 200 with `expected`. */
  lemma AccountScenario(parseUrl: string -> Option<Url>, user: string)
    requires user == "someone"
    requires parseUrl("acct:" + user + "@example.com") == Some(Url("acct", "", user + "@example.com"))
    ensures HandleWebFinger(ExampleRequest("acct:" + user + "@example.com"), ExampleOptions, parseUrl) ==
      Response(200, JrdHeaders, JrdBody(ResourceDescriptor("acct:" + user + "@example.com", [ExampleActorUri(user)], ExpectedLinks(user))))
  {
    ExampleLinks(ExampleContext, user);
    LocalAccountAnswer(parseUrl, ExampleOptions, user, user, ExampleDispatcher(ExampleContext, user).value);
  }

  /** `https://example.com/users/<identifier>` for an actor the dispatcher
      finds: 200, aliased to the account form only when the actor has a
      preferred username. */
  lemma LocalUriAnswer(parseUrl: string -> Option<Url>, options: Options, identifier: string, actor: Actor)
    requires options.context == ExampleContext && '/' !in identifier
    requires parseUrl(ExampleActorUri(identifier)) == Some(Url("https", "example.com", "/users/" + identifier))
    requires options.actorDispatcher.Some? && options.actorDispatcher.value(ExampleContext, identifier) == Some(actor)
    ensures
      var aliases := match actor.preferredUsername
        case None => []
        case Some(username) => ["acct:" + username + "@example.com"];
      HandleWebFinger(ExampleRequest(ExampleActorUri(identifier)), options, parseUrl) ==
        Response(200, JrdHeaders, JrdBody(ResourceDescriptor(ExampleActorUri(identifier), aliases, Links(ExampleActorUri(identifier), actor))))
  {
    LastSegmentRoundTrip("https", "example.com", identifier);
    assert Host(ExampleOrigin) == "example.com";
    if actor.preferredUsername.Some? {
      var username := actor.preferredUsername.value;
      assert "acct:" + username + "@" + Host(ExampleOrigin) == "acct:" + username + "@example.com";
    }
    Properties.UriFormAnswer(ExampleRequest(ExampleActorUri(identifier)), options, parseUrl,
      Url("https", "example.com", "/users/" + identifier), identifier, actor);
  }

  /** `https://example.com/users/someone`, with or without the mapper:
      `expected` with no aliases and the URI as subject. */
  lemma UriScenario(parseUrl: string -> Option<Url>, options: Options, identifier: string)
    requires options == ExampleOptions || options == MappedOptions
    requires identifier == "someone"
    requires parseUrl(ExampleActorUri(identifier)) == Some(Url("https", "example.com", "/users/" + identifier))
    ensures HandleWebFinger(ExampleRequest(ExampleActorUri(identifier)), options, parseUrl) ==
      Response(200, JrdHeaders, JrdBody(ResourceDescriptor(ExampleActorUri(identifier), [], ExpectedLinks(identifier))))
  {
    ExampleLinks(ExampleContext, identifier);
    LocalUriAnswer(parseUrl, options, identifier, ExampleDispatcher(ExampleContext, identifier).value);
  }

  /** `https://example.com/users/someone2`: 200 with `expected2`, whose alias is
      the account form of the preferred username. */
  lemma PreferredUsernameScenario(parseUrl: string -> Option<Url>, identifier: string)
    requires identifier == "someone2"
    requires parseUrl(ExampleActorUri(identifier)) == Some(Url("https", "example.com", "/users/" + identifier))
    ensures HandleWebFinger(ExampleRequest(ExampleActorUri(identifier)), ExampleOptions, parseUrl) ==
      Response(200, JrdHeaders, JrdBody(ResourceDescriptor(ExampleActorUri(identifier),
        ["acct:" + identifier + "@example.com"], ExpectedLinks(identifier))))
  {
    ExampleLinks(ExampleContext, identifier);
    LocalUriAnswer(parseUrl, ExampleOptions, identifier, ExampleDispatcher(ExampleContext, identifier).value);
  }

  /** `acct:no-one@example.com`, and any other local user the dispatcher does
      not know: delegated to `onNotFound` with the request itself. */
  lemma UnknownAccountScenario(parseUrl: string -> Option<Url>, onNotFound: Request -> Response, user: string)
    requires user != "" && '@' !in user && user != "someone" && user != "someone2"
    requires parseUrl("acct:" + user + "@example.com") == Some(Url("acct", "", user + "@example.com"))
    ensures var request := ExampleRequest("acct:" + user + "@example.com");
      HandleWebFinger(request, ExampleOptions.(onNotFound := onNotFound), parseUrl) == onNotFound(request)
  {
    ExampleAccount(user);
  }

  /** `https://example.com/users/no-one`, and any other actor path the
      dispatcher does not know: delegated. */
  lemma UnknownUriScenario(parseUrl: string -> Option<Url>, onNotFound: Request -> Response, identifier: string)
    requires '/' !in identifier && identifier != "someone" && identifier != "someone2"
    requires parseUrl(ExampleActorUri(identifier)) == Some(Url("https", "example.com", "/users/" + identifier))
    ensures var request := ExampleRequest(ExampleActorUri(identifier));
      HandleWebFinger(request, ExampleOptions.(onNotFound := onNotFound), parseUrl) == onNotFound(request)
  {
    LastSegmentRoundTrip("https", "example.com", identifier);
  }

  /** `https://google.com/`: its last path segment is "", which the
      dispatcher does not know, so the request is delegated. */
  lemma ForeignUriScenario(parseUrl: string -> Option<Url>, onNotFound: Request -> Response, path: string)
    requires path == "/"
    requires parseUrl("https://google.com/") == Some(Url("https", "google.com", path))
    ensures var request := ExampleRequest("https://google.com/");
      HandleWebFinger(request, ExampleOptions.(onNotFound := onNotFound), parseUrl) == onNotFound(request)
  {
    assert path == "" + ['/'] + "";
    LastPieceAfterSeparator("", "", '/');
  }

  /** With the mapper, `acct:foo@example.com` is `someone` and
      `acct:bar@example.com` is `someone2`: the subject stays the account asked
      for and the alias is the mapped actor's URI. */
  lemma MappedAccountScenario(parseUrl: string -> Option<Url>, user: string, handle: string)
    requires (user == "foo" && handle == "someone") || (user == "bar" && handle == "someone2")
    requires parseUrl("acct:" + user + "@example.com") == Some(Url("acct", "", user + "@example.com"))
    ensures HandleWebFinger(ExampleRequest("acct:" + user + "@example.com"), MappedOptions, parseUrl) ==
      Response(200, JrdHeaders, JrdBody(ResourceDescriptor("acct:" + user + "@example.com", [ExampleActorUri(handle)], ExpectedLinks(handle))))
  {
    ExampleLinks(ExampleContext, handle);
    LocalAccountAnswer(parseUrl, MappedOptions, user, handle, ExampleDispatcher(ExampleContext, handle).value);
  }

  /** With the mapper, `acct:baz@example.com`, and any user it does not map,
      goes to `onNotFound`. */
  lemma UnmappedScenario(parseUrl: string -> Option<Url>, onNotFound: Request -> Response, user: string)
    requires user != "" && '@' !in user && user != "foo" && user != "bar"
    requires parseUrl("acct:" + user + "@example.com") == Some(Url("acct", "", user + "@example.com"))
    ensures var request := ExampleRequest("acct:" + user + "@example.com");
      HandleWebFinger(request, MappedOptions.(onNotFound := onNotFound), parseUrl) == onNotFound(request)
  {
    ExampleAccount(user);
    Properties.UnmappedAccountDelegated(ExampleRequest("acct:" + user + "@example.com"), MappedOptions.(onNotFound := onNotFound), parseUrl,
      Url("acct", "", user + "@example.com"), Account(user, "example.com"));
  }

  /** The second test's context for a serving URL: actor URIs under the
      URL's origin, and a `parseUri` that only accepts paths under `/users/`. */
  function PortContext(origin: Origin): Context
  {
    Context(origin, identifier => OriginString(origin) + "/users/" + identifier, UsersParseUri)
  }

  function UsersParseUri(url: Url): (r: Option<ParseUriResult>)
    ensures r.Some? <==> url.scheme != "acct" && StartsWith(url.pathname, "/users/")
    ensures r.Some? ==> r.value.kind == "actor" && '/' !in r.value.identifier
  {
    SplitPiecesAvoidSeparator(url.pathname, '/');
    if url.scheme == "acct" || !StartsWith(url.pathname, "/users/") then None
    else Some(ParseUriResult("actor", LastPiece(url.pathname, '/')))
  }

  /** The second test's `parseUri` inverts its `getActorUri`: the path
      `/users/<identifier>` it builds under any origin parses back to that
      identifier when it has no '/'. */
  lemma UsersRoundTrip(origin: Origin, scheme: string, host: string, identifier: string)
    requires scheme != "acct" && '/' !in identifier
    ensures PortContext(origin).getActorUri(identifier) == OriginString(origin) + "/users/" + identifier
    ensures PortContext(origin).parseUri(Url(scheme, host, "/users/" + identifier)) == Some(ParseUriResult("actor", identifier))
  {
    var path := "/users/" + identifier;
    assert path[..|"/users/"|] == "/users/";
    assert path == "/users" + ['/'] + identifier;
    LastPieceAfterSeparator("/users", identifier, '/');
  }

  /** The second test's dispatcher: its links are under the origin of the actor URI. */
  function PortDispatcher(ctx: Context, identifier: string): Option<Actor>
  {
    if identifier != "someone" && identifier != "someone2" then None
    else
      var actorUri := ctx.getActorUri(identifier);
      var origin := OriginString(ctx.origin);
      Some(Actor(
        actorUri,
        if identifier == "someone" then "Someone" else "Someone 2",
        if identifier == "someone" then None else Some("bar"),
        Some(Image(origin + "/icon.jpg", Some("image/jpeg"))),
        [PlainUrl(origin + "/@" + identifier),
         LinkUrl(origin + "/@" + identifier, "alternate", Some("text/html"))]))
  }

  /** The expected descriptor for `user` served from `base` (scheme, host and port). */
  function ExpectedWithPort(subject: string, base: string, user: string): ResourceDescriptor
  {
    ResourceDescriptor(subject, [base + "/users/" + user],
      [Link(base + "/users/" + user, "self", Some("application/activity+json")),
       Link(base + "/@" + user, "http://webfinger.net/rel/profile-page", None),
       Link(base + "/@" + user, "alternate", Some("text/html")),
       Link(base + "/icon.jpg", "http://webfinger.net/rel/avatar", Some("image/jpeg"))])
  }

  /** `acct:someone@<host>:<port>` served from that same host and port: 200,
      the port kept in the subject and the serving origin, scheme and port
      included, in the alias and links. The test's two origins meet the
      requirements on the host (see `PortOriginsQualify`). */
  lemma PortScenario(origin: Origin, parseUrl: string -> Option<Url>, user: string)
    requires origin.hostname != "" && '@' !in origin.hostname && '@' !in origin.port
    requires HasNoUpper(origin.hostname) && HasNoUpper(origin.port)
    requires user == "someone"
    requires parseUrl("acct:" + user + "@" + Host(origin)) == Some(Url("acct", "", user + "@" + Host(origin)))
    ensures
      var resource := "acct:" + user + "@" + Host(origin);
      var options := Options(PortContext(origin), Some(PortDispatcher), None, NotFound);
      HandleWebFinger(Request(Some(resource)), options, parseUrl) ==
        Response(200, JrdHeaders, JrdBody(ExpectedWithPort(resource, OriginString(origin), user)))
  {
    var host := Host(origin);
    var ctx := PortContext(origin);
    if origin.port != "" {
      assert HasNoUpper(":");
      HasNoUpperAppend(origin.hostname, ":");
      HasNoUpperAppend(origin.hostname + ":", origin.port);
    }
    LowerOfLower(host);
    assert '@' !in host;
    Properties.ParseAccountOfAccount(user, host);
    var options := Options(ctx, Some(PortDispatcher), None, NotFound);
    var actor := PortDispatcher(ctx, user).value;
    var actorUri := OriginString(origin) + "/users/" + user;
    assert ctx.getActorUri(user) == actorUri;
    assert Links(actorUri, actor) == ExpectedWithPort("", OriginString(origin), user).links;
    Properties.AccountFormAnswer(Request(Some("acct:" + user + "@" + host)), options, parseUrl,
      Url("acct", "", user + "@" + host), Account(user, host), user, actor);
  }

  /** The origin of the second test's first case, `https://localhost:8000`. */
  lemma LocalhostWithPort()
    ensures Host(Origin("https", "localhost", "8000")) == "localhost:8000"
    ensures OriginString(Origin("https", "localhost", "8000")) == "https://localhost:8000"
  {
    assert "localhost" + ":" == "localhost:";
    assert "localhost:" + "8000" == "localhost:8000";
    assert "https" + "://" == "https://";
    assert "https://" + "localhost:8000" == "https://localhost:8000";
  }

  /** The origin of the second test's second case, `http://example.com:8000`. */
  lemma HostnameWithPort()
    ensures Host(Origin("http", "example.com", "8000")) == "example.com:8000"
    ensures OriginString(Origin("http", "example.com", "8000")) == "http://example.com:8000"
  {
    assert "example.com" + ":" == "example.com:";
    assert "example.com:" + "8000" == "example.com:8000";
    assert "http" + "://" == "http://";
    assert "http://" + "example.com:8000" == "http://example.com:8000";
  }

  /** Both origins of the second test meet the requirements of `PortScenario`. */
  lemma PortOriginsQualify()
    ensures '@' !in "localhost" && '@' !in "example.com" && '@' !in "8000"
    ensures HasNoUpper("localhost") && HasNoUpper("example.com") && HasNoUpper("8000")
  {
  }
}
