/** The `actor-id-mismatch` lint rule: the `id` of the actor a dispatcher
    returns must be `ctx.getActorUri(identifier)`, with the dispatcher's own
    parameter names. */
module ActorIdMismatch {
  import opened Wrappers
  import opened Estree
  import Required = ActorIdRequired

  /** The report text, naming the dispatcher's actual parameters. */
  function Message(ctxName: string, idName: string): string
  {
    MessageHead + (ctxName + ".getActorUri(" + idName + ")") + MessageTail
  }

  const MessageHead := "Actor's `id` property must match `"
  const MessageTail := "`. Ensure you're using the correct context method."

  /** The call `<ctxName>.getActorUri(<idName>)` as a tree. */
  function GetActorUriCall(ctxName: string, idName: string): Node
  {
    CallExpression(MemberExpression(Identifier(ctxName), Identifier("getActorUri")), [Identifier(idName)])
  }

  /** A call of the context's `getActorUri` method with the identifier as its
      only argument. */
  predicate IsGetActorUriCall(n: Node, ctxName: string, idName: string)
  {
    && n.CallExpression?
    && n.callee.MemberExpression?
    && n.callee.obj.Identifier? && n.callee.obj.name == ctxName
    && n.callee.property.Identifier? && n.callee.property.name == "getActorUri"
    && |n.arguments| == 1
    && n.arguments[0].Identifier? && n.arguments[0].name == idName
  }

  /** The only tree `IsGetActorUriCall` accepts is `ctxName.getActorUri(idName)`. */
  lemma IsGetActorUriCallExactly(n: Node, ctxName: string, idName: string)
    ensures IsGetActorUriCall(n, ctxName, idName) <==> n == GetActorUriCall(ctxName, idName)
  {
    if IsGetActorUriCall(n, ctxName, idName) {
      assert n.arguments == [Identifier(idName)];
    }
  }

  /** An `id` property whose value is `ctxName.getActorUri(idName)`. */
  predicate HasCorrectIdProperty(ctxName: string, idName: string, prop: Node)
  {
    prop.Property? && prop.key.Identifier? && prop.key.name == "id"
      && IsGetActorUriCall(prop.value, ctxName, idName)
  }

  predicate CheckObjectExpression(obj: Node, ctxName: string, idName: string)
  {
    obj.ObjectExpression?
      && exists k :: 0 <= k < |obj.properties| && HasCorrectIdProperty(ctxName, idName, obj.properties[k])
  }

  predicate CheckReturnStatement(ret: Node, ctxName: string, idName: string)
    requires ret.ReturnStatement?
  {
    match ret.argument
    case None => false
    case Some(arg) =>
      if arg.NewExpression? && |arg.arguments| > 0 && arg.arguments[0].ObjectExpression?
      then CheckObjectExpression(arg.arguments[0], ctxName, idName)
      else if arg.ObjectExpression? then CheckObjectExpression(arg, ctxName, idName)
      else false
  }

  /** The same traversal as actor-id-required's, with the stricter property test. */
  predicate CheckIdMatchesGetActorUri(n: Node, ctxName: string, idName: string)
    decreases n
  {
    match n
    case ReturnStatement(_) => CheckReturnStatement(n, ctxName, idName)
    case BlockStatement(body) => exists k :: 0 <= k < |body| && CheckIdMatchesGetActorUri(body[k], ctxName, idName)
    case _ => false
  }

  /** The names of the first two parameters when both are identifiers with a
      non-empty (truthy) name; the rule stays silent otherwise. */
  function ParameterNames(callback: Node): (r: Option<(string, string)>)
    requires IsFunctionLiteral(callback)
    ensures r.Some? <==> (|callback.params| >= 2
      && callback.params[0].Identifier? && callback.params[0].name != ""
      && callback.params[1].Identifier? && callback.params[1].name != "")
    ensures r.Some? ==> r.value == (callback.params[0].name, callback.params[1].name)
  {
    var params := callback.params;
    if |params| < 2 then None
    else
      var contextParam := if params[0].Identifier? then params[0].name else "";
      var identifierParam := if params[1].Identifier? then params[1].name else "";
      if contextParam == "" || identifierParam == "" then None
      else Some((contextParam, identifierParam))
  }

  /** The `CallExpression` visitor: silent unless the call registers a function
      literal with two named parameters; then one report exactly when no
      reachable return yields `id: <ctx>.getActorUri(<identifier>)`. */
  function OnCallExpression(node: Node): (r: Option<Diagnostic>)
    ensures DispatcherCallback(node).None? ==> r.None?
    ensures DispatcherCallback(node).Some? && ParameterNames(DispatcherCallback(node).value).None? ==> r.None?
    ensures DispatcherCallback(node).Some? && ParameterNames(DispatcherCallback(node).value).Some? ==>
      var callback := DispatcherCallback(node).value;
      var (ctxName, idName) := ParameterNames(callback).value;
      r == if CheckIdMatchesGetActorUri(callback.functionBody, ctxName, idName) then None
           else Some(Diagnostic(callback, Message(ctxName, idName)))
  {
    match DispatcherCallback(node)
    case None => None
    case Some(callback) =>
      match ParameterNames(callback)
      case None => None
      case Some((ctxName, idName)) =>
        if CheckIdMatchesGetActorUri(callback.functionBody, ctxName, idName) then None
        else Some(Diagnostic(callback, Message(ctxName, idName)))
  }

  /** A correct `id` property is in particular an `id` property. */
  lemma CorrectIdIsId(ctxName: string, idName: string, prop: Node)
    ensures HasCorrectIdProperty(ctxName, idName, prop) ==> Required.HasIdProperty(prop)
  {
  }

  lemma ObjectAcceptedByRequired(obj: Node, ctxName: string, idName: string)
    requires CheckObjectExpression(obj, ctxName, idName)
    ensures Required.CheckObjectExpression(obj)
  {
    var k :| 0 <= k < |obj.properties| && HasCorrectIdProperty(ctxName, idName, obj.properties[k]);
    CorrectIdIsId(ctxName, idName, obj.properties[k]);
  }

  /** Every body this rule accepts, actor-id-required accepts too. */
  lemma {:induction false} AcceptedByRequired(n: Node, ctxName: string, idName: string)
    requires CheckIdMatchesGetActorUri(n, ctxName, idName)
    ensures Required.CheckForIdProperty(n)
    decreases n
  {
    match n
    case ReturnStatement(argument) =>
      var arg := argument.value;
      if arg.NewExpression? && |arg.arguments| > 0 && arg.arguments[0].ObjectExpression? {
        ObjectAcceptedByRequired(arg.arguments[0], ctxName, idName);
      } else {
        ObjectAcceptedByRequired(arg, ctxName, idName);
      }
    case BlockStatement(body) =>
      var k :| 0 <= k < |body| && CheckIdMatchesGetActorUri(body[k], ctxName, idName);
      AcceptedByRequired(body[k], ctxName, idName);
  }

  /** When this rule analyses a dispatcher and finds nothing to report,
      actor-id-required finds nothing to report either. */
  lemma SilentImpliesRequiredSilent(node: Node)
    requires DispatcherCallback(node).Some? && ParameterNames(DispatcherCallback(node).value).Some?
    requires OnCallExpression(node).None?
    ensures Required.OnCallExpression(node).None?
  {
    var callback := DispatcherCallback(node).value;
    var (ctxName, idName) := ParameterNames(callback).value;
    AcceptedByRequired(callback.functionBody, ctxName, idName);
  }

  /** The traversal reaches the same returns as actor-id-required's. */
  lemma {:induction false} CheckIdMatchesReachesReturns(n: Node, ctxName: string, idName: string)
    ensures CheckIdMatchesGetActorUri(n, ctxName, idName) <==>
      exists k :: 0 <= k < |ReachableReturns(n)| && CheckReturnStatement(ReachableReturns(n)[k], ctxName, idName)
    decreases n
  {
    match n
    case ReturnStatement(_) =>
      assert ReachableReturns(n)[0] == n;
    case BlockStatement(body) =>
      BlockReachesReturns(body, ctxName, idName);
      assert ReachableReturns(n) == ReturnsOfAll(body);
      assert CheckIdMatchesGetActorUri(n, ctxName, idName) ==
        exists k :: 0 <= k < |body| && CheckIdMatchesGetActorUri(body[k], ctxName, idName);
    case _ =>
  }

  lemma {:induction false} BlockReachesReturns(stmts: seq<Node>, ctxName: string, idName: string)
    ensures (exists k :: 0 <= k < |stmts| && CheckIdMatchesGetActorUri(stmts[k], ctxName, idName)) <==>
      exists k :: 0 <= k < |ReturnsOfAll(stmts)| && CheckReturnStatement(ReturnsOfAll(stmts)[k], ctxName, idName)
    decreases stmts
  {
    if stmts != [] {
      CheckIdMatchesReachesReturns(stmts[0], ctxName, idName);
      BlockReachesReturns(stmts[1..], ctxName, idName);
      assert ReturnsOfAll(stmts) == ReachableReturns(stmts[0]) + ReturnsOfAll(stmts[1..]);
      SomeReturnPassesAppend(ReachableReturns(stmts[0]), ReturnsOfAll(stmts[1..]), ctxName, idName);
      assert (exists k :: 0 <= k < |stmts| && CheckIdMatchesGetActorUri(stmts[k], ctxName, idName)) <==>
        CheckIdMatchesGetActorUri(stmts[0], ctxName, idName) ||
        exists k :: 0 <= k < |stmts[1..]| && CheckIdMatchesGetActorUri(stmts[1..][k], ctxName, idName)
      by {
        forall k | 0 < k < |stmts| ensures stmts[k] == stmts[1..][k - 1] { }
      }
    }
  }

  /** Some return of `head + tail` passes exactly when one of `head` or one of `tail` does. */
  lemma SomeReturnPassesAppend(head: seq<Node>, tail: seq<Node>, ctxName: string, idName: string)
    requires forall k :: 0 <= k < |head| ==> head[k].ReturnStatement?
    requires forall k :: 0 <= k < |tail| ==> tail[k].ReturnStatement?
    ensures (exists k :: 0 <= k < |head + tail| && CheckReturnStatement((head + tail)[k], ctxName, idName)) <==>
      (exists k :: 0 <= k < |head| && CheckReturnStatement(head[k], ctxName, idName)) ||
      (exists k :: 0 <= k < |tail| && CheckReturnStatement(tail[k], ctxName, idName))
  {
    if exists k :: 0 <= k < |head + tail| && CheckReturnStatement((head + tail)[k], ctxName, idName) {
      var k :| 0 <= k < |head + tail| && CheckReturnStatement((head + tail)[k], ctxName, idName);
      if k >= |head| { assert tail[k - |head|] == (head + tail)[k]; }
      else { assert head[k] == (head + tail)[k]; }
    }
    if exists k :: 0 <= k < |tail| && CheckReturnStatement(tail[k], ctxName, idName) {
      var k :| 0 <= k < |tail| && CheckReturnStatement(tail[k], ctxName, idName);
      assert (head + tail)[|head| + k] == tail[k];
    }
    if exists k :: 0 <= k < |head| && CheckReturnStatement(head[k], ctxName, idName) {
      var k :| 0 <= k < |head| && CheckReturnStatement(head[k], ctxName, idName);
      assert (head + tail)[k] == head[k];
    }
  }

  /** Renaming identifiers consistently, the parameters included, does not
      change the verdict: only consistent use of the names matters. */
  lemma {:induction false} CheckIdMatchesUnderRenaming(n: Node, ctxName: string, idName: string, rename: string -> string)
    requires IsConsistentRenaming(rename)
    ensures CheckIdMatchesGetActorUri(Renamed(n, rename), rename(ctxName), rename(idName))
      == CheckIdMatchesGetActorUri(n, ctxName, idName)
    decreases n
  {
    match n
    case ReturnStatement(argument) =>
      ReturnUnderRenaming(n, ctxName, idName, rename);
    case BlockStatement(body) =>
      var body' := RenamedAll(body, rename);
      forall k | 0 <= k < |body|
        ensures CheckIdMatchesGetActorUri(body'[k], rename(ctxName), rename(idName))
          == CheckIdMatchesGetActorUri(body[k], ctxName, idName)
      {
        CheckIdMatchesUnderRenaming(body[k], ctxName, idName, rename);
      }
    case _ =>
  }

  lemma ReturnUnderRenaming(ret: Node, ctxName: string, idName: string, rename: string -> string)
    requires IsConsistentRenaming(rename) && ret.ReturnStatement?
    ensures Renamed(ret, rename).ReturnStatement?
    ensures CheckReturnStatement(Renamed(ret, rename), rename(ctxName), rename(idName))
      == CheckReturnStatement(ret, ctxName, idName)
  {
    if ret.argument.Some? {
      var arg := ret.argument.value;
      if arg.NewExpression? && |arg.arguments| > 0 {
        ObjectUnderRenaming(arg.arguments[0], ctxName, idName, rename);
      }
      ObjectUnderRenaming(arg, ctxName, idName, rename);
    }
  }

  lemma ObjectUnderRenaming(obj: Node, ctxName: string, idName: string, rename: string -> string)
    requires IsConsistentRenaming(rename)
    ensures Renamed(obj, rename).ObjectExpression? == obj.ObjectExpression?
    ensures CheckObjectExpression(Renamed(obj, rename), rename(ctxName), rename(idName))
      == CheckObjectExpression(obj, ctxName, idName)
  {
    if obj.ObjectExpression? {
      var props, props' := obj.properties, Renamed(obj, rename).properties;
      assert props' == RenamedAll(props, rename);
      forall k | 0 <= k < |props|
        ensures HasCorrectIdProperty(rename(ctxName), rename(idName), props'[k])
          == HasCorrectIdProperty(ctxName, idName, props[k])
      {
        PropertyUnderRenaming(props[k], ctxName, idName, rename);
      }
      assert CheckObjectExpression(obj, ctxName, idName) ==>
        CheckObjectExpression(Renamed(obj, rename), rename(ctxName), rename(idName));
    }
  }

  lemma PropertyUnderRenaming(p: Node, ctxName: string, idName: string, rename: string -> string)
    requires IsConsistentRenaming(rename)
    ensures HasCorrectIdProperty(rename(ctxName), rename(idName), Renamed(p, rename))
      == HasCorrectIdProperty(ctxName, idName, p)
  {
    match p {
      case Property(key, value) =>
        assert Renamed(p, rename) == Property(Renamed(key, rename), Renamed(value, rename));
        RenamedKeepsKind(key, rename);
        if key.Identifier? {
          assert rename(key.name) == "id" <==> key.name == "id";
        }
        CallUnderRenaming(value, ctxName, idName, rename);
      case _ =>
        RenamedKeepsKind(p, rename);
        assert !Renamed(p, rename).Property? by {
          match p {
            case Identifier(_) =>
            case Literal(_) =>
            case SpreadElement(_) =>
            case ObjectExpression(_) =>
            case NewExpression(_, _) =>
            case CallExpression(_, _) =>
            case MemberExpression(_, _) =>
            case ArrowFunctionExpression(_, _) =>
            case FunctionExpression(_, _) =>
            case ReturnStatement(_) =>
            case BlockStatement(_) =>
            case IfStatement(_, _, _) =>
            case ExpressionStatement(_) =>
            case VariableDeclaration(_) =>
            case VariableDeclarator(_, _) =>
            case Other(_, _) =>
          }
        }
    }
  }

  lemma CallUnderRenaming(n: Node, ctxName: string, idName: string, rename: string -> string)
    requires IsConsistentRenaming(rename)
    ensures IsGetActorUriCall(Renamed(n, rename), rename(ctxName), rename(idName)) == IsGetActorUriCall(n, ctxName, idName)
  {
    match n {
      case CallExpression(callee, args) =>
        var args' := RenamedAll(args, rename);
        assert Renamed(n, rename) == CallExpression(Renamed(callee, rename), args');
        match callee {
          case MemberExpression(obj, property) =>
            assert Renamed(callee, rename) == MemberExpression(Renamed(obj, rename), Renamed(property, rename));
            NamedUnderRenaming(obj, ctxName, rename);
            NamedUnderRenaming(property, "getActorUri", rename);
            if |args| == 1 {
              assert args'[0] == Renamed(args[0], rename);
              NamedUnderRenaming(args[0], idName, rename);
            }
          case _ =>
            RenamedKeepsKind(callee, rename);
        }
      case _ =>
        RenamedKeepsKind(n, rename);
    }
  }

  /** A node is the identifier `name` exactly when its renaming is the
      identifier `rename(name)`. */
  lemma NamedUnderRenaming(x: Node, name: string, rename: string -> string)
    requires IsConsistentRenaming(rename)
    ensures (Renamed(x, rename).Identifier? && Renamed(x, rename).name == rename(name)) == (x.Identifier? && x.name == name)
  {
    RenamedKeepsKind(x, rename);
    if x.Identifier? {
      assert Renamed(x, rename) == Identifier(rename(x.name));
      assert rename(x.name) == rename(name) ==> x.name == name;
    }
  }

  /** The rule reports on a consistently renamed program exactly when it
      reports on the original. */
  lemma OnCallExpressionUnderRenaming(node: Node, rename: string -> string)
    requires IsConsistentRenaming(rename)
    ensures OnCallExpression(Renamed(node, rename)).Some? == OnCallExpression(node).Some?
  {
    DispatcherCallbackUnderRenaming(node, rename);
    if DispatcherCallback(node).Some? {
      var callback := DispatcherCallback(node).value;
      Required.CallbackBodyUnderRenaming(callback, rename);
      var params, params' := callback.params, RenamedAll(callback.params, rename);
      if |params| >= 2 {
        RenamedKeepsKind(params[0], rename);
        RenamedKeepsKind(params[1], rename);
        if ParameterNames(callback).Some? {
          var (ctxName, idName) := ParameterNames(callback).value;
          assert params'[0] == Identifier(rename(ctxName));
          assert params'[1] == Identifier(rename(idName));
          assert rename(ctxName) != "" && rename(idName) != "";
          CheckIdMatchesUnderRenaming(callback.functionBody, ctxName, idName, rename);
        } else if params[0].Identifier? && params[1].Identifier? {
          assert params'[0] == Identifier(rename(params[0].name));
          assert params'[1] == Identifier(rename(params[1].name));
        }
      }
    }
  }
}
