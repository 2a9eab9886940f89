# Fedify WebFinger lookup and actor-dispatcher lint rules, in Dafny

This project models two small pieces of Fedify's decision logic and proves what they promise.

**The WebFinger lookup (RFC 7033).** `handleWebFinger(request, options)` answers a `resource` query in one of three ways:
- a 400 with a fixed message when the parameter is missing or is not a URL;
- delegation of the untouched request to the application's `onNotFound`;
- a JSON Resource Descriptor (section 4.4 of RFC 7033).

Account-form resources are `acct:` URIs (RFC 7565). The model follows what `src/webfinger/handler.test.ts` asserts about the handler:
- `WebFinger.Decide` classifies a request as `Delegate`, `Reject(message)` or `Answer(descriptor)`.
- `WebFinger.Respond` turns that into a response.
- `WebFinger.HandleWebFinger` is the two composed.

The application's callbacks are function-typed fields of `Options` and `Context`: the actor dispatcher, handle mapper, `getActorUri`, `parseUri` and `onNotFound`. WHATWG URL parsing is the parameter `parseUrl`. `WebFingerProperties` proves the behaviour for every request and every collaborator. `WebFingerFixture` rebuilds the tests' collaborators and proves the responses the tests expect.

**Two Deno lint rules.**
- `actor-id-required` reports a `setActorDispatcher(...)` callback that never returns an actor object with an `id` property.
- `actor-id-mismatch` reports one whose `id` is not `ctx.getActorUri(identifier)`, written with the callback's own parameter names.

`Estree` is a typed ESTree-shaped syntax tree. Each rule's `CallExpression` visitor is a function from a node to an optional `Diagnostic`. `LintExamples` writes out the dispatchers of the actor-id-mismatch tests as trees: path template, parameter names, statements before the return, `id` value and `name` value are parameters, so each test's own program is an instance.

Modules:
- `Wrappers`: `Option`.
- `Text`: JavaScript `split` with a one-character separator, its inverse `Join`, and ASCII lower-casing.
- `Estree`: the tree, the trigger shared by both rules, and consistent renaming of identifiers.
- `ActorIdRequired`, `ActorIdMismatch`, `LintExamples`: the two rules and their test programs.
- `WebFinger`, `WebFingerProperties`, `WebFingerFixture`: the lookup, its general properties, and the tests' scenarios.

## Model

| member | source | states |
|---|---|---|
| Estree.DispatcherCallback | packages/lint/src/rules/actor-id-required.ts:10-22 | a callback is found exactly in a call of a member `setActorDispatcher` with at least two arguments whose second argument is an arrow or function expression, and it is that argument |
| Estree.DispatcherCallbackUnderRenaming | packages/lint/src/rules/actor-id-mismatch.ts:8-20 | renaming identifiers consistently does not change which calls trigger the rules, and the callback found is the renamed callback |
| ActorIdRequired.OnCallExpression | packages/lint/src/rules/actor-id-required.ts:8-35 | no report without a trigger; with one, a report exactly when the callback body has no `id`, on the callback, with the fixed message |
| ActorIdRequired.HasIdPropertyIgnoresValue | packages/lint/src/rules/actor-id-required.ts:39-46 | any node is an `id` property exactly when it is a `Property` keyed by the identifier `id` (a spread element or any other kind fails), and for a `Property` the value does not matter |
| ActorIdRequired.CheckObjectExpressionIgnoresOrder | packages/lint/src/rules/actor-id-required.ts:48-56 | the object check depends only on the multiset of entries, not their order |
| ActorIdRequired.ReturnStatementCases | packages/lint/src/rules/actor-id-required.ts:58-79 | `return;` fails, `new C()` fails, `new C(first, ...)` is decided by `first` alone, and any other returned expression passes exactly when it is an object literal with `id` |
| ActorIdRequired.CheckForIdPropertyReachesReturns | packages/lint/src/rules/actor-id-required.ts:81-99 | the traversal succeeds exactly when some return reachable through nested blocks alone passes the return check |
| ActorIdRequired.BlockReachesReturns | packages/lint/src/rules/actor-id-required.ts:91-96 | a block passes exactly when some return reachable from its statements passes |
| ActorIdRequired.ConciseBodyNeverFound | packages/lint/src/rules/actor-id-required.ts:81-99 | a concise arrow body (neither return nor block) is never accepted and reaches no return |
| ActorIdRequired.IfStatementNeverFound | packages/lint/src/rules/actor-id-required.ts:81-99 | an `if` statement fails the traversal whatever its test and branches return, and putting one anywhere among a block's statements does not change the block's verdict |
| ActorIdRequired.CheckForIdPropertyUnderRenaming | packages/lint/src/rules/actor-id-required.ts:39-99 | consistent renaming of identifiers does not change the verdict of the traversal |
| ActorIdRequired.OnCallExpressionUnderRenaming | packages/lint/src/rules/actor-id-required.ts:8-35 | the rule reports on a consistently renamed program exactly when it reports on the original |
| ActorIdMismatch.ParameterNames | packages/lint/src/rules/actor-id-mismatch.ts:22-32 | names are found exactly when there are two or more parameters and the first two are identifiers with non-empty names, and they are those names |
| ActorIdMismatch.OnCallExpression | packages/lint/src/rules/actor-id-mismatch.ts:6-50 | silent without a trigger or without two named parameters; otherwise a report on the callback exactly when no reachable return has the right `id`, with the message naming the actual parameters |
| ActorIdMismatch.IsGetActorUriCallExactly | packages/lint/src/rules/actor-id-mismatch.ts:54-80 | the call test accepts exactly the tree of `<ctx>.getActorUri(<identifier>)` |
| ActorIdMismatch.CorrectIdIsId | packages/lint/src/rules/actor-id-mismatch.ts:82-94 | a correct `id` property is an `id` property in actor-id-required's sense |
| ActorIdMismatch.ObjectAcceptedByRequired | packages/lint/src/rules/actor-id-mismatch.ts:96-108 | an object literal this rule accepts is accepted by actor-id-required |
| ActorIdMismatch.AcceptedByRequired | packages/lint/src/rules/actor-id-mismatch.ts:137-159 | any body this rule accepts is accepted by actor-id-required |
| ActorIdMismatch.SilentImpliesRequiredSilent | packages/lint/src/rules/actor-id-mismatch.ts:8-47 | wherever this rule finds two named parameters and is silent, actor-id-required is silent too |
| ActorIdMismatch.CheckIdMatchesReachesReturns | packages/lint/src/rules/actor-id-mismatch.ts:137-159 | the traversal succeeds exactly when some return reachable through nested blocks alone passes |
| ActorIdMismatch.BlockReachesReturns | packages/lint/src/rules/actor-id-mismatch.ts:151-156 | a block passes exactly when some return reachable from its statements passes |
| ActorIdMismatch.CheckIdMatchesUnderRenaming | packages/lint/src/rules/actor-id-mismatch.ts:54-159 | renaming identifiers consistently, parameter names included, does not change the verdict |
| ActorIdMismatch.OnCallExpressionUnderRenaming | packages/lint/src/tests/actor-id-mismatch.test.ts:27-63 | the rule reports on a consistently renamed program exactly when it reports on the original, so `(ctx, identifier)` and `(context, handle)` fare alike |
| LintExamples.MismatchVerdict | packages/lint/src/tests/actor-id-mismatch.test.ts:27-124 | a dispatcher returning `new Person({ id: v, ... })` after statements that are not returns or blocks passes exactly when `v` is `<ctx>.getActorUri(<identifier>)`, and is reported on with the message otherwise, whatever the path template |
| LintExamples.RequiredAcceptsAll | packages/lint/src/rules/actor-id-required.ts:58-79 | actor-id-required is silent on every dispatcher of that shape, whatever `v` is |
| LintExamples.CtxIdentifierPasses | packages/lint/src/tests/actor-id-mismatch.test.ts:27-44 | no report for `id: ctx.getActorUri(identifier)` |
| LintExamples.ContextHandlePasses | packages/lint/src/tests/actor-id-mismatch.test.ts:46-63 | no report for `id: context.getActorUri(handle)` with `name: "Jane Smith"`, registered under `"/users/{handle}"` |
| LintExamples.NewUrlReported | packages/lint/src/tests/actor-id-mismatch.test.ts:65-83 | one report, with the test's message, for `id: new URL(...)` |
| LintExamples.LocalVariableReported | packages/lint/src/tests/actor-id-mismatch.test.ts:85-104 | one report, with the test's message, for `id: someOtherVariable` |
| LintExamples.OtherContextMethodReported | packages/lint/src/tests/actor-id-mismatch.test.ts:106-124 | a report for `id: ctx.getInboxUri(identifier)` |
| LintExamples.NestedCallsSilent | packages/lint/src/rules/actor-id-mismatch.ts:8-13 | a call that is not a `setActorDispatcher` member call gets no report from either rule |
| Text.JoinSplit | src/webfinger/handler.test.ts:30-31 | joining the pieces of a split with the separator gives back the string |
| Text.SplitJoin | src/webfinger/handler.test.ts:30-31 | splitting a join of separator-free pieces gives back the pieces |
| Text.LastPieceAfterSeparator | src/webfinger/handler.test.ts:30-31 | the last piece of `prefix/last` is `last` when `last` has no separator |
| Text.LowerIdempotent | src/webfinger/handler.test.ts:369-425 | lower-casing twice is lower-casing once; the tests use lower-case hosts only, and the case-insensitive host comparison it supports is this model's own choice |
| WebFinger.Header | src/webfinger/handler.test.ts:104-105 | a value found is that of the first header of that name; none found means no header of that name |
| WebFinger.ParseAccount | src/webfinger/handler.test.ts:96-107 | an account is found only for `user@host` with text on both sides and no other `@`, and it is that user and host |
| WebFinger.UrlLinks | src/webfinger/handler.test.ts:117-125 | one link per `url` entry, in order, a plain URL as a profile page without type and a `Link` with its own rel and type |
| WebFinger.Links | src/webfinger/handler.test.ts:111-131 | self link first, then the URL links in order, then the avatar last when there is an icon; nothing else |
| WebFingerProperties.NoDispatcherDelegates | src/webfinger/handler.test.ts:67-73 | without a dispatcher every request goes unchanged to `onNotFound` |
| WebFingerProperties.RejectsExactly | src/webfinger/handler.test.ts:75-94 | a 400 exactly when a dispatcher is configured and the resource is missing or does not parse, "Missing resource parameter." exactly for the former and "Invalid resource URL." exactly for the latter |
| WebFingerProperties.OnlyDelegationReachesNotFound | src/webfinger/handler.test.ts:186-216 | a delegated request yields `onNotFound(request)` for the very request; any other outcome does not depend on `onNotFound` |
| WebFingerProperties.ParsedResourceNeverRejected | src/webfinger/handler.test.ts:186-216 | a resource that parses is never a 400; it is delegated exactly when it names no local handle or the dispatcher finds no actor |
| WebFingerProperties.ForeignAccountDelegated | src/webfinger/handler.test.ts:96-133 | an account whose host is not the serving host and port is delegated |
| WebFingerProperties.AccountFormAnswer | src/webfinger/handler.test.ts:96-133 | account form: 200, the resource echoed as subject, `[getActorUri(handle)]` as aliases, the actor's links |
| WebFingerProperties.UnmappedAccountDelegated | src/webfinger/handler.test.ts:270-278 | with a mapper, a user it does not map is delegated |
| WebFingerProperties.UriFormAnswer | src/webfinger/handler.test.ts:135-184 | URI form: 200, the resource echoed, no alias without a preferred username and `acct:<username>@<host>` with one |
| WebFingerProperties.UnknownUriDelegated | src/webfinger/handler.test.ts:197-216 | a URI the application does not parse as an actor is delegated |
| WebFingerProperties.UriFormIgnoresMapper | src/webfinger/handler.test.ts:255-268 | URI-form lookups do not depend on the handle mapper |
| WebFingerProperties.AnswerShape | src/webfinger/handler.test.ts:103-133 | every answer echoes the resource, has at most one alias, starts with the ActivityPub self link, and is 200 with `application/jrd+json` and `Access-Control-Allow-Origin: *` |
| WebFingerProperties.SelfLinkIsActorId | src/webfinger/handler.test.ts:41-44 | the self link is the actor's id whenever the dispatcher sets `id` to `getActorUri(handle)` |
| WebFingerProperties.SameOriginIgnoresCase | src/webfinger/handler.test.ts:369-425 | the account host is compared without regard to ASCII case; the cited test uses lower-case hosts only, so this is the model's own choice, not an assertion of the test |
| WebFingerProperties.ParseAccountOfAccount | src/webfinger/handler.test.ts:96-107 | `user@host` with no `@` in either part parses back to that user and host |
| WebFingerProperties.NoAtSignRejected | src/webfinger/handler.test.ts:96-107 | text without `@` names no account |
| WebFingerProperties.SeveralAtSignsRejected | src/webfinger/handler.test.ts:96-107 | text with two or more `@` names no account |
| WebFingerFixture.LastSegmentParseUri | src/webfinger/handler.test.ts:27-39 | `acct:` URIs are not parsed, every other URI is an actor whose identifier contains no `/` |
| WebFingerFixture.LastSegmentRoundTrip | src/webfinger/handler.test.ts:27-39 | the path `/users/<identifier>` parses back to the identifier |
| WebFingerFixture.UsersParseUri | src/webfinger/handler.test.ts:295-308 | exactly the non-`acct:` URIs whose path starts with `/users/` are parsed, as actors whose identifier contains no `/` |
| WebFingerFixture.UsersRoundTrip | src/webfinger/handler.test.ts:286-307 | the second test's `getActorUri` gives `<origin>/users/<identifier>`, and the path `/users/<identifier>` parses back to that identifier |
| WebFingerFixture.ExampleLinks | src/webfinger/handler.test.ts:111-131 | the test dispatcher's actors give the expected four links |
| WebFingerFixture.ExampleAccount | src/webfinger/handler.test.ts:96-107 | `<user>@example.com` names the local account `user` |
| WebFingerFixture.NoDispatcherScenario | src/webfinger/handler.test.ts:67-73 | without a dispatcher, the request without a resource goes to `onNotFound` |
| WebFingerFixture.MissingResourceScenario | src/webfinger/handler.test.ts:75-83 | 400 "Missing resource parameter.", whatever `onNotFound` does |
| WebFingerFixture.InvalidResourceScenario | src/webfinger/handler.test.ts:85-94 | 400 "Invalid resource URL." for ` invalid `, whatever `onNotFound` does |
| WebFingerFixture.LocalAccountAnswer | src/webfinger/handler.test.ts:96-133 | `acct:<user>@example.com` resolved to a found actor gives 200 with the canonical URI of the handle as alias |
| WebFingerFixture.AccountScenario | src/webfinger/handler.test.ts:96-133 | `acct:someone@example.com` gives 200 with the expected document |
| WebFingerFixture.LocalUriAnswer | src/webfinger/handler.test.ts:135-184 | `https://example.com/users/<identifier>` for a found actor gives 200, aliased by the preferred username when there is one |
| WebFingerFixture.UriScenario | src/webfinger/handler.test.ts:135-147 | `https://example.com/users/someone`, with or without the mapper, gives the expected document with no aliases |
| WebFingerFixture.PreferredUsernameScenario | src/webfinger/handler.test.ts:149-184 | `https://example.com/users/someone2` gives the second expected document, aliased `acct:someone2@example.com` |
| WebFingerFixture.UnknownAccountScenario | src/webfinger/handler.test.ts:186-194 | `acct:no-one@example.com`, like any unknown local user, goes to `onNotFound` with the request |
| WebFingerFixture.UnknownUriScenario | src/webfinger/handler.test.ts:196-205 | `https://example.com/users/no-one`, like any unknown actor path, goes to `onNotFound` with the request |
| WebFingerFixture.ForeignUriScenario | src/webfinger/handler.test.ts:207-216 | `https://google.com/` goes to `onNotFound` with the request |
| WebFingerFixture.MappedAccountScenario | src/webfinger/handler.test.ts:225-253 | with the mapper, `foo` and `bar` give the documents of `someone` and `someone2` under their own subject, aliased by the mapped actor's URI |
| WebFingerFixture.UnmappedScenario | src/webfinger/handler.test.ts:270-278 | with the mapper, `acct:baz@example.com`, like any unmapped user, goes to `onNotFound` |
| WebFingerFixture.PortScenario | src/webfinger/handler.test.ts:369-425 | `acct:someone@<host>:<port>` served from that host and port gives 200, with the port kept in the subject and the serving origin in the alias and links |
| WebFingerFixture.LocalhostWithPort | src/webfinger/handler.test.ts:369-383 | the origin `https://localhost:8000` has host `localhost:8000` and is written `https://localhost:8000` |
| WebFingerFixture.HostnameWithPort | src/webfinger/handler.test.ts:411-425 | the origin `http://example.com:8000` has host `example.com:8000` and is written `http://example.com:8000` |
| WebFingerFixture.PortOriginsQualify | src/webfinger/handler.test.ts:369-425 | the host names and port of both origins have no '@' and no upper-case letter, as the port scenario requires |

## Left out

- The `Deno.lint` plugin runtime is not modelled. That covers parsing source text, walking the tree, calling the visitor and collecting `context.report`. The visitor returns its report as a value, so a program's diagnostic count is the number of registrations reported on. `LintExamples.NestedCallsSilent` shows that the other calls in the test programs add none.
- The rules' `isObject`, `isNil` and `Array.isArray` guards are not modelled. A typed tree always has object nodes and array fields, so these guards have nothing to reject.
- The tree has a constructor for each node kind the rules inspect. `Literal`, `VariableDeclaration` and `VariableDeclarator` are there to write the test programs. `SpreadElement`, `IfStatement` and `ExpressionStatement` are there so that the lemmas can name the entries and statements the rules pass over. Every other kind is `Other`, with its children. A string-literal key such as `"id"` is a `Literal` key and is rejected as `hasIdProperty` rejects it. The `computed` flag of properties and member expressions is not modelled.
- `Other(kind, children)` stands for node kinds without a constructor of their own. Nothing in the datatype stops `kind` from being `"ReturnStatement"` or `"BlockStatement"`; such a node is not a return or a block to the rules, while the source decides by the `type` string alone. Trees are meant to use the dedicated constructor for those kinds.
- `handler.ts` is not part of this model. The lookup follows the tests' assertions and the design they imply. Some inputs are covered by no assertion, and for them the model takes these choices:
  - a foreign or malformed `acct:` resource is delegated;
  - an empty `resource` is treated as missing;
  - 400 responses also carry `Access-Control-Allow-Origin: *`;
  - the subject is the resource string as given;
  - the handle mapper is consulted before the account host is compared.
- WHATWG URL parsing, percent-decoding and query-string handling are not modelled. `parseUrl` and `Request.resource` stand for them. Each scenario lemma requires what the parser returns for the test's strings.
- The account host is compared with the serving host as text, after ASCII lower-casing. A port written with leading zeros is therefore not recognised as the same port.
- `Request`, `Response` and `Headers` are not modelled as objects. JSON serialisation and the vocabulary classes `Person`, `Image` and `Link` are records. A `Request` holds only its `resource` parameter; the URL it was served at is the context's `origin`, which is all the lookup reads of it.
- WebFinger.Header: matches header names case-sensitively and returns the first value, where Fetch's `Headers.get` ignores case and joins repeated values with `, `. The responses built here have two distinct headers written in their canonical case, so the two agree on them.
- `async`/`await` is not modelled. Neither are exceptions thrown by the dispatcher, the mapper or `getActorUri`: the callbacks are total functions.
- The deprecated `handle` getter of the tests' `parseUri` result throws. The model's `ParseUriResult` has no such field, so the lookup never reads it.
- `WebFingerFixture.PortDispatcher` takes `actorUri.origin` to be the serving origin. For the test's `getActorUri` that is exactly what it is.
- LintExamples.OtherContextMethodReported: states that a report is made, not its message. The test checks only the count.
- The scenario lemmas take the test's user names and identifiers as parameters pinned down by `requires`, rather than as literals inside one string. The generalised ones (`UnknownAccountScenario`, `UnknownUriScenario`, `UnmappedScenario`) cover every name the test collaborators do not know.
