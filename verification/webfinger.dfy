/** The WebFinger lookup (RFC 7033): from a request's `resource` query
    parameter to a JSON Resource Descriptor for a local actor, a 400 for a
    missing or malformed parameter, or delegation to the application's
    not-found handler. The resolution callbacks (URI parsing, actor
    dispatcher, handle mapper, not-found handler) are function-typed
    parameters, as the application supplies them. */
module WebFinger {
  import opened Wrappers
  import opened Text

  type Uri = string

  /** The serving URL's scheme, host name and port; `port` is "" when the URL
      uses the scheme's default port, as WHATWG `URL.port` reports it. */
  datatype Origin = Origin(scheme: string, hostname: string, port: string)

  /** `URL.host`: the host name followed by ":" and the port when there is one. */
  function Host(o: Origin): string
  {
    if o.port == "" then o.hostname else o.hostname + ":" + o.port
  }

  /** `URL.origin`: scheme, "://" and host. */
  function OriginString(o: Origin): string
  {
    o.scheme + "://" + Host(o)
  }

  /** The parts of a parsed absolute URL that the lookup reads: the scheme
      without its ':', the host, and the path, which for an `acct:` URI is the
      whole opaque part `user@host`. */
  datatype Url = Url(scheme: string, host: string, pathname: string)

  /** What the application's `parseUri` recognises a local URI as. */
  datatype ParseUriResult = ParseUriResult(kind: string, identifier: string)

  /** The request context: the serving origin and the application's URI
      dispatch in both directions. */
  datatype Context = Context(
    origin: Origin,
    getActorUri: string -> Uri,
    parseUri: Url -> Option<ParseUriResult>)

  datatype Image = Image(url: Uri, mediaType: Option<string>)

  /** An entry of an actor's `url` list: a bare URL or a `Link` object. */
  datatype ActorUrl = PlainUrl(href: Uri) | LinkUrl(href: Uri, rel: string, mediaType: Option<string>)

  /** The parts of an actor object (a `Person`, say) the lookup reads. */
  datatype Actor = Actor(
    id: Uri,
    name: string,
    preferredUsername: Option<string>,
    icon: Option<Image>,
    urls: seq<ActorUrl>)

  /** A JRD link (section 4.4.4 of RFC 7033); `type` is left out when `mediaType` is None. */
  datatype Link = Link(href: Uri, rel: string, mediaType: Option<string>)

  /** A JSON Resource Descriptor (section 4.4 of RFC 7033). */
  datatype ResourceDescriptor = ResourceDescriptor(subject: string, aliases: seq<Uri>, links: seq<Link>)

  /** An incoming request, as far as the lookup reads it: its decoded `resource`
      query parameter. Where it was served is the context's origin. */
  datatype Request = Request(resource: Option<string>)

  datatype Body = PlainText(text: string) | JrdBody(descriptor: ResourceDescriptor)

  datatype Response = Response(status: int, headers: seq<(string, string)>, body: Body)

  /** The handler's parameters besides the request; an absent dispatcher turns
      the endpoint off. */
  datatype Options = Options(
    context: Context,
    actorDispatcher: Option<(Context, string) -> Option<Actor>>,
    actorHandleMapper: Option<(Context, string) -> Option<string>>,
    onNotFound: Request -> Response)

  const MissingResource := "Missing resource parameter."
  const InvalidResource := "Invalid resource URL."
  const JrdMediaType := "application/jrd+json"
  const ActivityMediaType := "application/activity+json"
  const SelfRel := "self"
  const ProfilePageRel := "http://webfinger.net/rel/profile-page"
  const AvatarRel := "http://webfinger.net/rel/avatar"

  const JrdHeaders := [("Content-Type", JrdMediaType), ("Access-Control-Allow-Origin", "*")]
  const ErrorHeaders := [("Content-Type", "text/plain;charset=UTF-8"), ("Access-Control-Allow-Origin", "*")]

  /** `headers.get(name)`: the value of the first header of that name. */
  function Header(headers: seq<(string, string)>, name: string): (r: Option<string>)
    ensures r.Some? ==>
      exists k :: 0 <= k < |headers| && headers[k] == (name, r.value) && forall j :: 0 <= j < k ==> headers[j].0 != name
    ensures r.None? ==> forall k :: 0 <= k < |headers| ==> headers[k].0 != name
  {
    if headers == [] then None
    else if headers[0].0 == name then Some(headers[0].1)
    else Header(headers[1..], name)
  }

  /** The user and host of an `acct:` URI's opaque part (RFC 7565). */
  datatype Account = Account(user: string, host: string)

  /** `user@host` with exactly one '@' and text on both sides; any other shape
      names no account. */
  function ParseAccount(accountPart: string): (r: Option<Account>)
    ensures r.Some? ==> r.value.user != "" && r.value.host != ""
    ensures r.Some? ==> '@' !in r.value.user && '@' !in r.value.host
    ensures r.Some? ==> accountPart == r.value.user + "@" + r.value.host
  {
    var parts := Split(accountPart, '@');
    JoinSplit(accountPart, '@');
    SplitPiecesAvoidSeparator(accountPart, '@');
    if |parts| == 2 && parts[0] != "" && parts[1] != "" then
      assert Join(parts, '@') == parts[0] + "@" + parts[1];
      Some(Account(parts[0], parts[1]))
    else None
  }

  /** The account form names an account on this server: its host, compared
      without regard to ASCII case, is the serving host with its port. */
  predicate IsSameOrigin(account: Account, ctx: Context)
  {
    Lower(account.host) == Host(ctx.origin)
  }

  /** How the resource named the actor, and the handle it resolves to. */
  datatype Lookup = AccountLookup(handle: string) | UriLookup(handle: string)

  /** The handle a parsed resource stands for: for `acct:` the user, mapped
      through the handle mapper when there is one, provided the account's host
      is the serving host; for any other scheme the identifier of a URI the
      application parses as an actor. */
  function ResolveHandle(url: Url, ctx: Context, mapper: Option<(Context, string) -> Option<string>>): Option<Lookup>
  {
    if url.scheme == "acct" then
      match ParseAccount(url.pathname)
      case None => None
      case Some(account) =>
        var handle := match mapper
          case None => Some(account.user)
          case Some(mapHandle) => mapHandle(ctx, account.user);
        if handle.None? || !IsSameOrigin(account, ctx) then None
        else Some(AccountLookup(handle.value))
    else
      match ctx.parseUri(url)
      case None => None
      case Some(parsed) => if parsed.kind != "actor" then None else Some(UriLookup(parsed.identifier))
  }

  /** The descriptor's aliases: the canonical actor URI for an account lookup;
      for a URI lookup the account form, only when the actor has a public
      username. */
  function Aliases(lookup: Lookup, actor: Actor, ctx: Context): seq<Uri>
  {
    match lookup
    case AccountLookup(handle) => [ctx.getActorUri(handle)]
    case UriLookup(_) =>
      match actor.preferredUsername
      case None => []
      case Some(username) => ["acct:" + username + "@" + Host(ctx.origin)]
  }

  /** A bare URL is a profile page without a type; a `Link` keeps its own rel and type. */
  function UrlLink(u: ActorUrl): Link
  {
    match u
    case PlainUrl(href) => Link(href, ProfilePageRel, None)
    case LinkUrl(href, rel, mediaType) => Link(href, rel, mediaType)
  }

  /** One link per `url` entry, in declared order. */
  function UrlLinks(urls: seq<ActorUrl>): (links: seq<Link>)
    ensures |links| == |urls|
    ensures forall k :: 0 <= k < |urls| ==> links[k] == UrlLink(urls[k])
  {
    if urls == [] then [] else [UrlLink(urls[0])] + UrlLinks(urls[1..])
  }

  function AvatarLinks(icon: Option<Image>): seq<Link>
  {
    match icon
    case None => []
    case Some(image) => [Link(image.url, AvatarRel, image.mediaType)]
  }

  /** The descriptor's links: self first, then the actor's URLs in order, then
      the avatar when there is one; nothing is added, dropped or reordered. */
  function Links(selfHref: Uri, actor: Actor): (links: seq<Link>)
    ensures |links| == 1 + |actor.urls| + (if actor.icon.Some? then 1 else 0)
    ensures links[0] == Link(selfHref, SelfRel, Some(ActivityMediaType))
    ensures forall k :: 0 <= k < |actor.urls| ==> links[1 + k] == UrlLink(actor.urls[k])
    ensures actor.icon.Some? ==>
      links[|links| - 1] == Link(actor.icon.value.url, AvatarRel, actor.icon.value.mediaType)
  {
    [Link(selfHref, SelfRel, Some(ActivityMediaType))] + UrlLinks(actor.urls) + AvatarLinks(actor.icon)
  }

  /** The descriptor for a found actor: the resource echoed as subject. */
  function Render(resource: string, lookup: Lookup, actor: Actor, ctx: Context): ResourceDescriptor
  {
    ResourceDescriptor(resource, Aliases(lookup, actor, ctx), Links(ctx.getActorUri(lookup.handle), actor))
  }

  /** The outcome of a lookup, before it becomes a response. */
  datatype Decision = Delegate | Reject(message: string) | Answer(descriptor: ResourceDescriptor)

  /** The lookup itself. `parseUrl` is the WHATWG `URL` constructor: None where it throws. */
  function Decide(request: Request, options: Options, parseUrl: string -> Option<Url>): Decision
  {
    match options.actorDispatcher
    case None => Delegate
    case Some(dispatch) =>
      match request.resource
      case None => Reject(MissingResource)
      case Some(resource) =>
        if resource == "" then Reject(MissingResource)
        else
          match parseUrl(resource)
          case None => Reject(InvalidResource)
          case Some(url) =>
            match ResolveHandle(url, options.context, options.actorHandleMapper)
            case None => Delegate
            case Some(lookup) =>
              match dispatch(options.context, lookup.handle)
              case None => Delegate
              case Some(actor) => Answer(Render(resource, lookup, actor, options.context))
  }

  /** The response for a decision; only a delegated request reaches `onNotFound`. */
  function Respond(decision: Decision, request: Request, onNotFound: Request -> Response): Response
  {
    match decision
    case Delegate => onNotFound(request)
    case Reject(message) => Response(400, ErrorHeaders, PlainText(message))
    case Answer(descriptor) => Response(200, JrdHeaders, JrdBody(descriptor))
  }

  /** `handleWebFinger(request, options)`. */
  function HandleWebFinger(request: Request, options: Options, parseUrl: string -> Option<Url>): Response
  {
    Respond(Decide(request, options, parseUrl), request, options.onNotFound)
  }
}
