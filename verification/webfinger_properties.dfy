/** What the WebFinger lookup guarantees for every request, every
    configuration and every URL parser. */
module WebFingerProperties {
  import opened Wrappers
  import opened Text
  import opened WebFinger

  /** The resource parameter is absent or empty. */
  predicate ResourceMissing(request: Request)
  {
    request.resource.None? || request.resource.value == ""
  }

  /** With no actor dispatcher the endpoint is switched off: every request,
      whatever its parameters, goes unchanged to `onNotFound`. */
  lemma NoDispatcherDelegates(request: Request, options: Options, parseUrl: string -> Option<Url>)
    requires options.actorDispatcher.None?
    ensures Decide(request, options, parseUrl) == Delegate
    ensures HandleWebFinger(request, options, parseUrl) == options.onNotFound(request)
  {
  }

  /** The only errors the lookup answers itself: a 400 exactly when a
      dispatcher is configured and the resource is missing or does not parse,
      with the message that says which. */
  lemma RejectsExactly(request: Request, options: Options, parseUrl: string -> Option<Url>)
    ensures Decide(request, options, parseUrl).Reject? <==>
      options.actorDispatcher.Some? && (ResourceMissing(request) || parseUrl(request.resource.value).None?)
    ensures Decide(request, options, parseUrl) == Reject(MissingResource) <==>
      options.actorDispatcher.Some? && ResourceMissing(request)
    ensures Decide(request, options, parseUrl) == Reject(InvalidResource) <==>
      options.actorDispatcher.Some? && !ResourceMissing(request) && parseUrl(request.resource.value).None?
    ensures Decide(request, options, parseUrl).Reject? ==>
      HandleWebFinger(request, options, parseUrl) ==
        Response(400, ErrorHeaders, PlainText(Decide(request, options, parseUrl).message))
  {
    assert MissingResource != InvalidResource;
  }

  /** `onNotFound` is consulted only for a delegated request, and then with
      that very request; a 400 or a descriptor does not depend on it. */
  lemma OnlyDelegationReachesNotFound(request: Request, options: Options, parseUrl: string -> Option<Url>, other: Request -> Response)
    ensures Decide(request, options, parseUrl) == Delegate ==>
      HandleWebFinger(request, options, parseUrl) == options.onNotFound(request)
    ensures Decide(request, options, parseUrl) != Delegate ==>
      HandleWebFinger(request, options.(onNotFound := other), parseUrl) == HandleWebFinger(request, options, parseUrl)
  {
    assert Decide(request, options.(onNotFound := other), parseUrl) == Decide(request, options, parseUrl);
  }

  /** Once the resource parses, the lookup never answers with a 400: it
      delegates exactly when the resource names no local actor handle or the
      dispatcher finds no actor for it. */
  lemma ParsedResourceNeverRejected(request: Request, options: Options, parseUrl: string -> Option<Url>, url: Url)
    requires options.actorDispatcher.Some? && !ResourceMissing(request)
    requires parseUrl(request.resource.value) == Some(url)
    ensures !Decide(request, options, parseUrl).Reject?
    ensures Decide(request, options, parseUrl) == Delegate <==>
      match ResolveHandle(url, options.context, options.actorHandleMapper)
      case None => true
      case Some(lookup) => options.actorDispatcher.value(options.context, lookup.handle).None?
  {
  }

  /** An account-form resource whose host is not the serving host (and port)
      names no local account: the request is delegated. */
  lemma ForeignAccountDelegated(request: Request, options: Options, parseUrl: string -> Option<Url>, url: Url, account: Account)
    requires options.actorDispatcher.Some? && !ResourceMissing(request)
    requires parseUrl(request.resource.value) == Some(url)
    requires url.scheme == "acct" && ParseAccount(url.pathname) == Some(account)
    requires !IsSameOrigin(account, options.context)
    ensures HandleWebFinger(request, options, parseUrl) == options.onNotFound(request)
  {
  }

  /** Account-form success: 200, the resource echoed as subject, the
      canonical actor URI of the (mapped) handle as the one alias, and the
      links of the actor. */
  lemma AccountFormAnswer(request: Request, options: Options, parseUrl: string -> Option<Url>,
                          url: Url, account: Account, handle: string, actor: Actor)
    requires !ResourceMissing(request) && parseUrl(request.resource.value) == Some(url)
    requires url.scheme == "acct" && ParseAccount(url.pathname) == Some(account)
    requires IsSameOrigin(account, options.context)
    requires options.actorHandleMapper.None? ==> handle == account.user
    requires options.actorHandleMapper.Some? ==>
      options.actorHandleMapper.value(options.context, account.user) == Some(handle)
    requires options.actorDispatcher.Some? && options.actorDispatcher.value(options.context, handle) == Some(actor)
    ensures
      var actorUri := options.context.getActorUri(handle);
      HandleWebFinger(request, options, parseUrl) ==
        Response(200, JrdHeaders, JrdBody(ResourceDescriptor(request.resource.value, [actorUri], Links(actorUri, actor))))
  {
  }

  /** With a handle mapper, an account whose user it does not map is delegated. */
  lemma UnmappedAccountDelegated(request: Request, options: Options, parseUrl: string -> Option<Url>, url: Url, account: Account)
    requires options.actorDispatcher.Some? && !ResourceMissing(request)
    requires parseUrl(request.resource.value) == Some(url)
    requires url.scheme == "acct" && ParseAccount(url.pathname) == Some(account)
    requires options.actorHandleMapper.Some? && options.actorHandleMapper.value(options.context, account.user).None?
    ensures HandleWebFinger(request, options, parseUrl) == options.onNotFound(request)
  {
  }

  /** URI-form success: 200, the resource echoed as subject, the account form
      `acct:<preferredUsername>@<host>` as alias only when the actor has a
      preferred username, and the links of the actor. */
  lemma UriFormAnswer(request: Request, options: Options, parseUrl: string -> Option<Url>,
                      url: Url, handle: string, actor: Actor)
    requires !ResourceMissing(request) && parseUrl(request.resource.value) == Some(url)
    requires url.scheme != "acct"
    requires options.context.parseUri(url) == Some(ParseUriResult("actor", handle))
    requires options.actorDispatcher.Some? && options.actorDispatcher.value(options.context, handle) == Some(actor)
    ensures
      var aliases := match actor.preferredUsername
        case None => []
        case Some(username) => ["acct:" + username + "@" + Host(options.context.origin)];
      HandleWebFinger(request, options, parseUrl) ==
        Response(200, JrdHeaders, JrdBody(ResourceDescriptor(request.resource.value, aliases,
          Links(options.context.getActorUri(handle), actor))))
  {
  }

  /** A URI the application does not parse as an actor is delegated. */
  lemma UnknownUriDelegated(request: Request, options: Options, parseUrl: string -> Option<Url>, url: Url)
    requires options.actorDispatcher.Some? && !ResourceMissing(request)
    requires parseUrl(request.resource.value) == Some(url)
    requires url.scheme != "acct"
    requires options.context.parseUri(url).None? || options.context.parseUri(url).value.kind != "actor"
    ensures HandleWebFinger(request, options, parseUrl) == options.onNotFound(request)
  {
  }

  /** URI-form lookups do not consult the handle mapper. */
  lemma UriFormIgnoresMapper(request: Request, options: Options, parseUrl: string -> Option<Url>, url: Url,
                             mapper: Option<(Context, string) -> Option<string>>)
    requires !ResourceMissing(request) && parseUrl(request.resource.value) == Some(url)
    requires url.scheme != "acct"
    ensures Decide(request, options.(actorHandleMapper := mapper), parseUrl) == Decide(request, options, parseUrl)
  {
  }

  /** Every descriptor echoes the resource verbatim, has at most one alias,
      starts with the self link, and is served as `application/jrd+json`
      with `Access-Control-Allow-Origin: *`. */
  lemma AnswerShape(request: Request, options: Options, parseUrl: string -> Option<Url>)
    requires Decide(request, options, parseUrl).Answer?
    ensures var d := Decide(request, options, parseUrl).descriptor;
      && request.resource.Some?
      && d.subject == request.resource.value
      && |d.aliases| <= 1
      && |d.links| >= 1 && d.links[0].rel == SelfRel && d.links[0].mediaType == Some(ActivityMediaType)
    ensures var r := HandleWebFinger(request, options, parseUrl);
      && r.status == 200
      && Header(r.headers, "Content-Type") == Some(JrdMediaType)
      && Header(r.headers, "Access-Control-Allow-Origin") == Some("*")
  {
    var r := HandleWebFinger(request, options, parseUrl);
    assert r.headers == JrdHeaders;
    assert JrdHeaders[1..][0] == ("Access-Control-Allow-Origin", "*");
  }

  /** The self link is the actor's own id whenever the actor keeps the
      application invariant `id == getActorUri(handle)`. */
  lemma SelfLinkIsActorId(resource: string, lookup: Lookup, actor: Actor, ctx: Context)
    requires actor.id == ctx.getActorUri(lookup.handle)
    ensures Render(resource, lookup, actor, ctx).links[0].href == actor.id
  {
  }

  /** The account host is compared without regard to ASCII case. */
  lemma SameOriginIgnoresCase(user: string, host: string, ctx: Context)
    ensures IsSameOrigin(Account(user, host), ctx) == IsSameOrigin(Account(user, Lower(host)), ctx)
  {
    LowerIdempotent(host);
  }

  /** `user@host` parses back into its user and host (RFC 7565 account form). */
  lemma ParseAccountOfAccount(user: string, host: string)
    requires user != "" && host != "" && '@' !in user && '@' !in host
    ensures ParseAccount(user + "@" + host) == Some(Account(user, host))
  {
    var parts := [user, host];
    assert Join(parts, '@') == user + "@" + host;
    SplitJoin(parts, '@');
  }

  /** Text with no '@' names no account. */
  lemma NoAtSignRejected(accountPart: string)
    requires '@' !in accountPart
    ensures ParseAccount(accountPart).None?
  {
  }

  /** Text with two or more '@' names no account. */
  lemma {:induction false} SeveralAtSignsRejected(a: string, b: string, c: string)
    ensures ParseAccount(a + "@" + b + "@" + c).None?
  {
    var s := a + "@" + b + "@" + c;
    assert s == a + ['@'] + (b + ['@'] + c);
    SplitAtSeparator(a, b + ['@'] + c, '@');
    SplitAtSeparator(b, c, '@');
    assert |Split(s, '@')| >= 3;
  }
}
