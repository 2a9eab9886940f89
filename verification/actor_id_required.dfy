/** The `actor-id-required` lint rule: the dispatcher passed to
    `setActorDispatcher` must return an actor whose object literal has an `id`
    property. */
module ActorIdRequired {
  import opened Wrappers
  import opened Estree

  const Message := "Actor dispatcher must return an actor with an `id` property. Use `Context.getActorUri(identifier)` to set it."

  /** A `Property` whose key is the identifier `id`, whatever its value. */
  predicate HasIdProperty(prop: Node)
  {
    prop.Property? && prop.key.Identifier? && prop.key.name == "id"
  }

  /** Some entry of an object literal is an `id` property; a node that is not an
      object literal has no `properties` array and is rejected. */
  predicate CheckObjectExpression(obj: Node)
  {
    obj.ObjectExpression? && exists k :: 0 <= k < |obj.properties| && HasIdProperty(obj.properties[k])
  }

  /** A `return` yields an object literal with an `id` property, either directly
      or as the first argument of a `new` expression. */
  predicate CheckReturnStatement(ret: Node)
    requires ret.ReturnStatement?
  {
    match ret.argument
    case None => false
    case Some(arg) =>
      if arg.NewExpression? && |arg.arguments| > 0 && arg.arguments[0].ObjectExpression?
      then CheckObjectExpression(arg.arguments[0])
      else if arg.ObjectExpression? then CheckObjectExpression(arg)
      else false
  }

  /** A `return` statement is checked itself, a block passes when one of its
      statements does, and every other node fails. */
  predicate CheckForIdProperty(n: Node)
    decreases n
  {
    match n
    case ReturnStatement(_) => CheckReturnStatement(n)
    case BlockStatement(body) => exists k :: 0 <= k < |body| && CheckForIdProperty(body[k])
    case _ => false
  }

  /** The `CallExpression` visitor: one report on the dispatcher exactly when the
      dispatcher's body never returns an actor with an `id`. */
  function OnCallExpression(node: Node): (r: Option<Diagnostic>)
    ensures r.Some? ==> DispatcherCallback(node).Some?
    ensures DispatcherCallback(node).None? ==> r.None?
    ensures DispatcherCallback(node).Some? ==>
      (r.Some? <==> !CheckForIdProperty(DispatcherCallback(node).value.functionBody))
    ensures r.Some? ==> r.value == Diagnostic(node.arguments[1], Message)
  {
    match DispatcherCallback(node)
    case None => None
    case Some(callback) =>
      if CheckForIdProperty(callback.functionBody) then None else Some(Diagnostic(callback, Message))
  }

  /** Whether an `id` is found depends only on which keys the entries have: the
      order of the entries, and the values, do not matter. */
  lemma CheckObjectExpressionIgnoresOrder(props: seq<Node>, reordered: seq<Node>)
    requires multiset(props) == multiset(reordered)
    ensures CheckObjectExpression(ObjectExpression(props)) == CheckObjectExpression(ObjectExpression(reordered))
  {
    if CheckObjectExpression(ObjectExpression(props)) {
      var k :| 0 <= k < |props| && HasIdProperty(props[k]);
      assert props[k] in multiset(reordered);
      var j :| 0 <= j < |reordered| && reordered[j] == props[k];
    }
    if CheckObjectExpression(ObjectExpression(reordered)) {
      var k :| 0 <= k < |reordered| && HasIdProperty(reordered[k]);
      assert reordered[k] in multiset(props);
      var j :| 0 <= j < |props| && props[j] == reordered[k];
    }
  }

  /** The value of an `id` property is irrelevant. */
  lemma HasIdPropertyIgnoresValue(p: Node, other: Node)
    ensures HasIdProperty(p) <==> p.Property? && p.key == Identifier("id")
    ensures p.Property? ==> HasIdProperty(p) == HasIdProperty(Property(p.key, other))
  {
  }

  /** A bare `return;` fails; of `new C(obj, ...)` only the first argument is
      inspected, and it must be an object literal with an `id`; any other
      returned expression passes exactly when it is such an object literal. */
  lemma ReturnStatementCases(callee: Node, first: Node, rest: seq<Node>, arg: Node)
    ensures !CheckReturnStatement(ReturnStatement(None))
    ensures !CheckReturnStatement(ReturnStatement(Some(NewExpression(callee, []))))
    ensures CheckReturnStatement(ReturnStatement(Some(NewExpression(callee, [first] + rest)))) == CheckObjectExpression(first)
    ensures !arg.NewExpression? ==> CheckReturnStatement(ReturnStatement(Some(arg))) == CheckObjectExpression(arg)
  {
    assert ([first] + rest)[0] == first;
  }

  /** The traversal finds an `id` exactly when one of the returns reachable
      through blocks alone yields one. */
  lemma {:induction false} CheckForIdPropertyReachesReturns(n: Node)
    ensures CheckForIdProperty(n) <==>
      exists k :: 0 <= k < |ReachableReturns(n)| && CheckReturnStatement(ReachableReturns(n)[k])
    decreases n
  {
    match n
    case ReturnStatement(_) =>
      assert ReachableReturns(n)[0] == n;
    case BlockStatement(body) =>
      BlockReachesReturns(body);
      assert ReachableReturns(n) == ReturnsOfAll(body);
      assert CheckForIdProperty(n) == exists k :: 0 <= k < |body| && CheckForIdProperty(body[k]);
    case _ =>
  }

  lemma {:induction false} BlockReachesReturns(stmts: seq<Node>)
    ensures (exists k :: 0 <= k < |stmts| && CheckForIdProperty(stmts[k])) <==>
      exists k :: 0 <= k < |ReturnsOfAll(stmts)| && CheckReturnStatement(ReturnsOfAll(stmts)[k])
    decreases stmts
  {
    if stmts != [] {
      CheckForIdPropertyReachesReturns(stmts[0]);
      BlockReachesReturns(stmts[1..]);
      assert ReturnsOfAll(stmts) == ReachableReturns(stmts[0]) + ReturnsOfAll(stmts[1..]);
      SomeReturnPassesAppend(ReachableReturns(stmts[0]), ReturnsOfAll(stmts[1..]));
      assert (exists k :: 0 <= k < |stmts| && CheckForIdProperty(stmts[k])) <==>
        CheckForIdProperty(stmts[0]) || exists k :: 0 <= k < |stmts[1..]| && CheckForIdProperty(stmts[1..][k])
      by {
        forall k | 0 < k < |stmts| ensures stmts[k] == stmts[1..][k - 1] { }
      }
    }
  }

  /** Some return of `head + tail` passes exactly when one of `head` or one of `tail` does. */
  lemma SomeReturnPassesAppend(head: seq<Node>, tail: seq<Node>)
    requires forall k :: 0 <= k < |head| ==> head[k].ReturnStatement?
    requires forall k :: 0 <= k < |tail| ==> tail[k].ReturnStatement?
    ensures (exists k :: 0 <= k < |head + tail| && CheckReturnStatement((head + tail)[k])) <==>
      (exists k :: 0 <= k < |head| && CheckReturnStatement(head[k])) ||
      (exists k :: 0 <= k < |tail| && CheckReturnStatement(tail[k]))
  {
    if exists k :: 0 <= k < |head + tail| && CheckReturnStatement((head + tail)[k]) {
      var k :| 0 <= k < |head + tail| && CheckReturnStatement((head + tail)[k]);
      if k >= |head| { assert tail[k - |head|] == (head + tail)[k]; }
      else { assert head[k] == (head + tail)[k]; }
    }
    if exists k :: 0 <= k < |tail| && CheckReturnStatement(tail[k]) {
      var k :| 0 <= k < |tail| && CheckReturnStatement(tail[k]);
      assert (head + tail)[|head| + k] == tail[k];
    }
    if exists k :: 0 <= k < |head| && CheckReturnStatement(head[k]) {
      var k :| 0 <= k < |head| && CheckReturnStatement(head[k]);
      assert (head + tail)[k] == head[k];
    }
  }

  /** A concise arrow body (an expression rather than a block) is never
      accepted, even `new Person({ id: ... })`. */
  lemma ConciseBodyNeverFound(body: Node)
    requires !body.ReturnStatement? && !body.BlockStatement?
    ensures !CheckForIdProperty(body)
    ensures ReachableReturns(body) == []
  {
  }

  /** A `return` nested inside an `if` is never reached, whatever the test, the
      branches or what they return: the `if` statement fails by itself, and
      adding one anywhere among a block's statements does not change the verdict. */
  lemma IfStatementNeverFound(before: seq<Node>, test: Node, consequent: Node, alternate: Option<Node>, after: seq<Node>)
    ensures !CheckForIdProperty(IfStatement(test, consequent, alternate))
    ensures CheckForIdProperty(BlockStatement(before + [IfStatement(test, consequent, alternate)] + after))
      == CheckForIdProperty(BlockStatement(before + after))
  {
    var stmt := IfStatement(test, consequent, alternate);
    var with, without := before + [stmt] + after, before + after;
    assert with[|before|] == stmt;
    if CheckForIdProperty(BlockStatement(with)) {
      var k :| 0 <= k < |with| && CheckForIdProperty(with[k]);
      if k < |before| {
        assert without[k] == before[k] == with[k];
      } else if k > |before| {
        assert without[k - 1] == after[k - 1 - |before|] == with[k];
      }
    }
    if CheckForIdProperty(BlockStatement(without)) {
      var k :| 0 <= k < |without| && CheckForIdProperty(without[k]);
      if k < |before| {
        assert with[k] == before[k] == without[k];
      } else {
        assert with[k + 1] == after[k - |before|] == without[k];
      }
    }
  }

  /** Consistent renaming of identifiers does not change whether an `id` is found. */
  lemma {:induction false} CheckForIdPropertyUnderRenaming(n: Node, rename: string -> string)
    requires IsConsistentRenaming(rename)
    ensures CheckForIdProperty(Renamed(n, rename)) == CheckForIdProperty(n)
    decreases n
  {
    match n
    case ReturnStatement(argument) =>
      ReturnUnderRenaming(n, rename);
    case BlockStatement(body) =>
      var body' := RenamedAll(body, rename);
      forall k | 0 <= k < |body|
        ensures CheckForIdProperty(body'[k]) == CheckForIdProperty(body[k])
      {
        CheckForIdPropertyUnderRenaming(body[k], rename);
      }
    case _ =>
  }

  lemma ReturnUnderRenaming(ret: Node, rename: string -> string)
    requires IsConsistentRenaming(rename) && ret.ReturnStatement?
    ensures Renamed(ret, rename).ReturnStatement?
    ensures CheckReturnStatement(Renamed(ret, rename)) == CheckReturnStatement(ret)
  {
    if ret.argument.Some? {
      var arg := ret.argument.value;
      if arg.NewExpression? && |arg.arguments| > 0 {
        ObjectUnderRenaming(arg.arguments[0], rename);
      }
      ObjectUnderRenaming(arg, rename);
    }
  }

  lemma ObjectUnderRenaming(obj: Node, rename: string -> string)
    requires IsConsistentRenaming(rename)
    ensures Renamed(obj, rename).ObjectExpression? == obj.ObjectExpression?
    ensures CheckObjectExpression(Renamed(obj, rename)) == CheckObjectExpression(obj)
  {
    if obj.ObjectExpression? {
      var props, props' := obj.properties, Renamed(obj, rename).properties;
      assert props' == RenamedAll(props, rename);
      forall k | 0 <= k < |props| ensures HasIdProperty(props'[k]) == HasIdProperty(props[k]) {
        IdPropertyUnderRenaming(props[k], rename);
      }
    }
  }

  lemma IdPropertyUnderRenaming(p: Node, rename: string -> string)
    requires IsConsistentRenaming(rename)
    ensures HasIdProperty(Renamed(p, rename)) == HasIdProperty(p)
  {
    if p.Property? {
      assert Renamed(p, rename) == Property(Renamed(p.key, rename), Renamed(p.value, rename));
      if p.key.Identifier? {
        assert rename(p.key.name) == "id" <==> p.key.name == "id";
      }
    } else {
      RenamedKeepsKind(p, rename);
    }
  }

  /** A callback's body after renaming is the renamed body. */
  lemma CallbackBodyUnderRenaming(callback: Node, rename: string -> string)
    requires IsFunctionLiteral(callback)
    ensures IsFunctionLiteral(Renamed(callback, rename))
    ensures Renamed(callback, rename).functionBody == Renamed(callback.functionBody, rename)
    ensures Renamed(callback, rename).params == RenamedAll(callback.params, rename)
  {
  }

  /** The rule reports on a renamed program exactly when it reports on the original. */
  lemma OnCallExpressionUnderRenaming(node: Node, rename: string -> string)
    requires IsConsistentRenaming(rename)
    ensures OnCallExpression(Renamed(node, rename)).Some? == OnCallExpression(node).Some?
  {
    DispatcherCallbackUnderRenaming(node, rename);
    if DispatcherCallback(node).Some? {
      var callback := DispatcherCallback(node).value;
      CallbackBodyUnderRenaming(callback, rename);
      CheckForIdPropertyUnderRenaming(callback.functionBody, rename);
    }
  }
}
