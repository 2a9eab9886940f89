/** The programs of the actor-id-mismatch tests, written as trees, and what the
    two rules report on them. */
module LintExamples {
  import opened Wrappers
  import opened Estree
  import Required = ActorIdRequired
  import Mismatch = ActorIdMismatch

  /** `new Person({ id: <idValue>, name: <personName> })`, the name as its raw literal text. */
  function PersonWithId(idValue: Node, personName: string): Node
  {
    NewExpression(Identifier("Person"), [ObjectExpression([
      Property(Identifier("id"), idValue),
      Property(Identifier("name"), Literal(personName))])])
  }

  /** The tests' actor names, `"John Doe"` and `"Jane Smith"`. */
  const JohnDoe := "\"John Doe\""
  const JaneSmith := "\"Jane Smith\""

  /** `async (<ctxName>, <idName>) => { <prelude> return new Person({ id: <idValue>, name: <personName> }); }`. */
  function Dispatcher(ctxName: string, idName: string, prelude: seq<Node>, idValue: Node, personName: string): Node
  {
    ArrowFunctionExpression([Identifier(ctxName), Identifier(idName)],
      BlockStatement(prelude + [ReturnStatement(Some(PersonWithId(idValue, personName)))]))
  }

  /** `federation.setActorDispatcher(<path>, <dispatcher>)`, the path as its raw literal text. */
  function Registration(path: string, dispatcher: Node): Node
  {
    CallExpression(MemberExpression(Identifier("federation"), Identifier("setActorDispatcher")),
      [Literal(path), dispatcher])
  }

  /** The tests' path templates, `"/users/{identifier}"` and `"/users/{handle}"`. */
  const IdentifierPath := "\"/users/{identifier}\""
  const HandlePath := "\"/users/{handle}\""

  /** `new URL("https://example.com/user/john")`. */
  const NewUrl := NewExpression(Identifier("URL"), [Literal("\"https://example.com/user/john\"")])

  /** The message the tests expect, "Actor's `id` property must match
      `ctx.getActorUri(identifier)`. Ensure you're using the correct context method.",
      written in three pieces. */
  const ExpectedMessage := "Actor's `id` property must match `" + "ctx.getActorUri(identifier)" + "`. Ensure you're using the correct context method."

  /** The rule's message for `(ctx, identifier)` is the one the tests expect. */
  lemma ExpectedMessageIsMessage()
    ensures Mismatch.Message("ctx", "identifier") == ExpectedMessage
  {
    assert "ctx" + ".getActorUri(" == "ctx.getActorUri(";
    assert "ctx.getActorUri(" + "identifier" == "ctx.getActorUri(identifier";
    assert "ctx.getActorUri(identifier" + ")" == "ctx.getActorUri(identifier)";
  }

  /** A dispatcher returning `new Person({ id: <idValue>, ... })` passes
      actor-id-mismatch exactly when `idValue` is the `getActorUri` call with the
      dispatcher's own parameters. */
  lemma {:induction false} MismatchVerdict(path: string, ctxName: string, idName: string, prelude: seq<Node>, idValue: Node, personName: string)
    requires ctxName != "" && idName != ""
    requires forall k :: 0 <= k < |prelude| ==> !prelude[k].ReturnStatement? && !prelude[k].BlockStatement?
    ensures Mismatch.OnCallExpression(Registration(path, Dispatcher(ctxName, idName, prelude, idValue, personName))) ==
      if idValue == Mismatch.GetActorUriCall(ctxName, idName) then None
      else Some(Diagnostic(Dispatcher(ctxName, idName, prelude, idValue, personName), Mismatch.Message(ctxName, idName)))
  {
    var dispatcher := Dispatcher(ctxName, idName, prelude, idValue, personName);
    var ret := ReturnStatement(Some(PersonWithId(idValue, personName)));
    var body := prelude + [ret];
    assert DispatcherCallback(Registration(path, dispatcher)) == Some(dispatcher);
    assert Mismatch.ParameterNames(dispatcher) == Some((ctxName, idName));
    var obj := PersonWithId(idValue, personName).arguments[0];
    Mismatch.IsGetActorUriCallExactly(idValue, ctxName, idName);
    assert Mismatch.CheckObjectExpression(obj, ctxName, idName) <==> idValue == Mismatch.GetActorUriCall(ctxName, idName) by {
      assert obj.properties[0] == Property(Identifier("id"), idValue);
      assert !Mismatch.HasCorrectIdProperty(ctxName, idName, obj.properties[1]);
    }
    assert Mismatch.CheckReturnStatement(ret, ctxName, idName) == Mismatch.CheckObjectExpression(obj, ctxName, idName);
    assert body[|prelude|] == ret;
    assert forall k :: 0 <= k < |prelude| ==> body[k] == prelude[k] && !Mismatch.CheckIdMatchesGetActorUri(body[k], ctxName, idName);
    assert Mismatch.CheckIdMatchesGetActorUri(dispatcher.functionBody, ctxName, idName)
      <==> Mismatch.CheckReturnStatement(ret, ctxName, idName);
  }

  /** Every program of these tests has an `id`, so actor-id-required is silent on all of them. */
  lemma RequiredAcceptsAll(path: string, ctxName: string, idName: string, prelude: seq<Node>, idValue: Node, personName: string)
    ensures Required.OnCallExpression(Registration(path, Dispatcher(ctxName, idName, prelude, idValue, personName))) == None
  {
    var dispatcher := Dispatcher(ctxName, idName, prelude, idValue, personName);
    var ret := ReturnStatement(Some(PersonWithId(idValue, personName)));
    var body := prelude + [ret];
    assert DispatcherCallback(Registration(path, dispatcher)) == Some(dispatcher);
    assert Required.HasIdProperty(PersonWithId(idValue, personName).arguments[0].properties[0]);
    assert body[|prelude|] == ret && Required.CheckForIdProperty(ret);
  }

  /** Good: `id: ctx.getActorUri(identifier)`. */
  lemma CtxIdentifierPasses()
    ensures Mismatch.OnCallExpression(Registration(IdentifierPath, Dispatcher("ctx", "identifier", [], Mismatch.GetActorUriCall("ctx", "identifier"), JohnDoe))) == None
  {
    MismatchVerdict(IdentifierPath, "ctx", "identifier", [], Mismatch.GetActorUriCall("ctx", "identifier"), JohnDoe);
  }

  /** Good: `id: context.getActorUri(handle)`, with other parameter names. */
  lemma ContextHandlePasses()
    ensures Mismatch.OnCallExpression(Registration(HandlePath, Dispatcher("context", "handle", [], Mismatch.GetActorUriCall("context", "handle"), JaneSmith))) == None
  {
    MismatchVerdict(HandlePath, "context", "handle", [], Mismatch.GetActorUriCall("context", "handle"), JaneSmith);
  }

  /** Bad: `id: new URL("https://example.com/user/john")`, one report with the test's message. */
  lemma NewUrlReported()
    ensures var d := Dispatcher("ctx", "identifier", [], NewUrl, JohnDoe);
      Mismatch.OnCallExpression(Registration(IdentifierPath, d)) == Some(Diagnostic(d, ExpectedMessage))
  {
    assert NewUrl != Mismatch.GetActorUriCall("ctx", "identifier");
    ExpectedMessageIsMessage();
    MismatchVerdict(IdentifierPath, "ctx", "identifier", [], NewUrl, JohnDoe);
  }

  /** Bad: `const someOtherVariable = new URL(...)` and `id: someOtherVariable`. */
  lemma LocalVariableReported()
    ensures var prelude := [VariableDeclaration([VariableDeclarator(Identifier("someOtherVariable"), Some(NewUrl))])];
      var d := Dispatcher("ctx", "identifier", prelude, Identifier("someOtherVariable"), JohnDoe);
      Mismatch.OnCallExpression(Registration(IdentifierPath, d)) == Some(Diagnostic(d, ExpectedMessage))
  {
    var prelude := [VariableDeclaration([VariableDeclarator(Identifier("someOtherVariable"), Some(NewUrl))])];
    assert !prelude[0].ReturnStatement? && !prelude[0].BlockStatement?;
    assert Identifier("someOtherVariable") != Mismatch.GetActorUriCall("ctx", "identifier");
    ExpectedMessageIsMessage();
    MismatchVerdict(IdentifierPath, "ctx", "identifier", prelude, Identifier("someOtherVariable"), JohnDoe);
  }

  /** Bad: `id: ctx.getInboxUri(identifier)`, a different context method. */
  lemma OtherContextMethodReported()
    ensures var inbox := CallExpression(MemberExpression(Identifier("ctx"), Identifier("getInboxUri")), [Identifier("identifier")]);
      var d := Dispatcher("ctx", "identifier", [], inbox, JohnDoe);
      Mismatch.OnCallExpression(Registration(IdentifierPath, d)).Some?
  {
    var inbox := CallExpression(MemberExpression(Identifier("ctx"), Identifier("getInboxUri")), [Identifier("identifier")]);
    assert inbox.callee.property != Identifier("getActorUri");
    MismatchVerdict(IdentifierPath, "ctx", "identifier", [], inbox, JohnDoe);
  }

  /** The calls nested in these programs (`ctx.getActorUri(identifier)` and the
      like) are not registrations, so the whole program gets at most the one report. */
  lemma NestedCallsSilent(callee: Node, args: seq<Node>)
    requires !(callee.MemberExpression? && callee.property == Identifier("setActorDispatcher"))
    ensures Required.OnCallExpression(CallExpression(callee, args)) == None
    ensures Mismatch.OnCallExpression(CallExpression(callee, args)) == None
  {
  }
}
