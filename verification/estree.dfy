/** The part of the ESTree syntax tree that the two actor-dispatcher lint rules
    inspect. Each constructor is named after the node's `type` string; nodes of
    any other type are `Other`, which keeps its children so that whole programs
    can be written down. */
module Estree {
  import opened Wrappers

  datatype Node =
    | Identifier(name: string)
    | Literal(raw: string)
    | Property(key: Node, value: Node)
    | SpreadElement(spread: Node)
    | ObjectExpression(properties: seq<Node>)
    | NewExpression(callee: Node, arguments: seq<Node>)
    | CallExpression(callee: Node, arguments: seq<Node>)
    | MemberExpression(obj: Node, property: Node)
    | ArrowFunctionExpression(params: seq<Node>, functionBody: Node)
    | FunctionExpression(params: seq<Node>, functionBody: Node)
    | ReturnStatement(argument: Option<Node>)
    | BlockStatement(body: seq<Node>)
    | IfStatement(test: Node, consequent: Node, alternate: Option<Node>)
    | ExpressionStatement(expression: Node)
    | VariableDeclaration(declarations: seq<Node>)
    | VariableDeclarator(id: Node, init: Option<Node>)
    | Other(kind: string, children: seq<Node>)

  /** What `context.report` receives: the reported node and the message. */
  datatype Diagnostic = Diagnostic(node: Node, message: string)

  /** True of a function literal, the only dispatchers the rules analyse. */
  predicate IsFunctionLiteral(n: Node)
  {
    n.ArrowFunctionExpression? || n.FunctionExpression?
  }

  /** The dispatcher argument of a `<x>.setActorDispatcher(path, dispatcher, ...)`
      call when it is a function literal: the guard both rules share. */
  function DispatcherCallback(node: Node): (r: Option<Node>)
    ensures r.Some? <==> (node.CallExpression? && node.callee.MemberExpression?
      && node.callee.property == Identifier("setActorDispatcher")
      && |node.arguments| >= 2 && IsFunctionLiteral(node.arguments[1]))
    ensures r.Some? ==> r.value == node.arguments[1]
  {
    if node.CallExpression? && node.callee.MemberExpression?
      && node.callee.property.Identifier? && node.callee.property.name == "setActorDispatcher"
      && |node.arguments| >= 2 && IsFunctionLiteral(node.arguments[1])
    then Some(node.arguments[1])
    else None
  }

  /** The return statements reached from `n` through nested blocks alone, in
      source order; statements under any other construct are not reached. */
  function ReachableReturns(n: Node): (rs: seq<Node>)
    ensures forall k :: 0 <= k < |rs| ==> rs[k].ReturnStatement?
    decreases n
  {
    match n
    case ReturnStatement(_) => [n]
    case BlockStatement(body) => ReturnsOfAll(body)
    case _ => []
  }

  function ReturnsOfAll(stmts: seq<Node>): (rs: seq<Node>)
    ensures forall k :: 0 <= k < |rs| ==> rs[k].ReturnStatement?
    decreases stmts
  {
    if stmts == [] then [] else ReachableReturns(stmts[0]) + ReturnsOfAll(stmts[1..])
  }

  /** The tree with every identifier name replaced by `rename` of it. */
  function Renamed(n: Node, rename: string -> string): Node
    decreases n
  {
    match n
    case Identifier(name) => Identifier(rename(name))
    case Literal(_) => n
    case Property(key, value) => Property(Renamed(key, rename), Renamed(value, rename))
    case SpreadElement(spread) => SpreadElement(Renamed(spread, rename))
    case ObjectExpression(properties) => ObjectExpression(RenamedAll(properties, rename))
    case NewExpression(callee, arguments) => NewExpression(Renamed(callee, rename), RenamedAll(arguments, rename))
    case CallExpression(callee, arguments) => CallExpression(Renamed(callee, rename), RenamedAll(arguments, rename))
    case MemberExpression(obj, property) => MemberExpression(Renamed(obj, rename), Renamed(property, rename))
    case ArrowFunctionExpression(params, body) => ArrowFunctionExpression(RenamedAll(params, rename), Renamed(body, rename))
    case FunctionExpression(params, body) => FunctionExpression(RenamedAll(params, rename), Renamed(body, rename))
    case ReturnStatement(argument) => ReturnStatement(RenamedOption(argument, rename))
    case BlockStatement(body) => BlockStatement(RenamedAll(body, rename))
    case IfStatement(test, consequent, alternate) =>
      IfStatement(Renamed(test, rename), Renamed(consequent, rename), RenamedOption(alternate, rename))
    case ExpressionStatement(expression) => ExpressionStatement(Renamed(expression, rename))
    case VariableDeclaration(declarations) => VariableDeclaration(RenamedAll(declarations, rename))
    case VariableDeclarator(id, init) => VariableDeclarator(Renamed(id, rename), RenamedOption(init, rename))
    case Other(kind, children) => Other(kind, RenamedAll(children, rename))
  }

  function RenamedOption(n: Option<Node>, rename: string -> string): (r: Option<Node>)
    ensures r.Some? <==> n.Some?
    decreases n
  {
    match n
    case None => None
    case Some(m) => Some(Renamed(m, rename))
  }

  function RenamedAll(ns: seq<Node>, rename: string -> string): (rs: seq<Node>)
    ensures |rs| == |ns|
    ensures forall k :: 0 <= k < |ns| ==> rs[k] == Renamed(ns[k], rename)
    decreases ns
  {
    if ns == [] then [] else [Renamed(ns[0], rename)] + RenamedAll(ns[1..], rename)
  }

  /** A renaming of identifiers that keeps apart names that were apart and
      leaves the fixed names the rules look for (`id`, `getActorUri`,
      `setActorDispatcher`) and the empty name where they are. */
  ghost predicate IsConsistentRenaming(rename: string -> string)
  {
    && rename("") == ""
    && rename("id") == "id"
    && rename("getActorUri") == "getActorUri"
    && rename("setActorDispatcher") == "setActorDispatcher"
    && forall a, b :: rename(a) == rename(b) ==> a == b
  }

  /** Renaming keeps a `setActorDispatcher` call recognised, with the renamed
      dispatcher in place of the original. */
  lemma DispatcherCallbackUnderRenaming(node: Node, rename: string -> string)
    requires IsConsistentRenaming(rename)
    ensures DispatcherCallback(Renamed(node, rename)) == RenamedOption(DispatcherCallback(node), rename)
  {
    match node {
      case CallExpression(callee, args) =>
        var callee', args' := Renamed(callee, rename), RenamedAll(args, rename);
        assert Renamed(node, rename) == CallExpression(callee', args');
        var recognised := callee.MemberExpression? && callee.property.Identifier?
          && callee.property.name == "setActorDispatcher" && |args| >= 2 && IsFunctionLiteral(args[1]);
        var recognised' := callee'.MemberExpression? && callee'.property.Identifier?
          && callee'.property.name == "setActorDispatcher" && |args'| >= 2 && IsFunctionLiteral(args'[1]);
        assert recognised == recognised' by {
          CalleeUnderRenaming(callee, rename);
          if |args| >= 2 {
            assert args'[1] == Renamed(args[1], rename);
            RenamedKeepsKind(args[1], rename);
          }
        }
        if recognised {
          assert DispatcherCallback(node) == Some(args[1]);
          assert DispatcherCallback(Renamed(node, rename)) == Some(args'[1]);
          assert args'[1] == Renamed(args[1], rename);
        } else {
          assert DispatcherCallback(node) == None;
          assert DispatcherCallback(Renamed(node, rename)) == None;
        }
      case _ =>
        RenamedKeepsKind(node, rename);
    }
  }

  lemma CalleeUnderRenaming(callee: Node, rename: string -> string)
    requires IsConsistentRenaming(rename)
    ensures
      var callee' := Renamed(callee, rename);
      (callee'.MemberExpression? && callee'.property.Identifier? && callee'.property.name == "setActorDispatcher")
      == (callee.MemberExpression? && callee.property.Identifier? && callee.property.name == "setActorDispatcher")
  {
    match callee {
      case MemberExpression(obj, property) =>
        assert Renamed(callee, rename) == MemberExpression(Renamed(obj, rename), Renamed(property, rename));
        match property {
          case Identifier(name) =>
            assert rename(name) == "setActorDispatcher" <==> name == "setActorDispatcher";
          case _ =>
            RenamedKeepsKind(property, rename);
        }
      case _ =>
        RenamedKeepsKind(callee, rename);
    }
  }

  /** Renaming changes names only, never which kind of node is where. */
  lemma RenamedKeepsKind(node: Node, rename: string -> string)
    ensures Renamed(node, rename).CallExpression? == node.CallExpression?
    ensures Renamed(node, rename).MemberExpression? == node.MemberExpression?
    ensures Renamed(node, rename).Identifier? == node.Identifier?
    ensures Renamed(node, rename).Property? == node.Property?
    ensures IsFunctionLiteral(Renamed(node, rename)) == IsFunctionLiteral(node)
  {
    match node {
      case Identifier(_) =>
      case Literal(_) =>
      case Property(_, _) =>
      case SpreadElement(_) =>
      case ObjectExpression(_) =>
      case NewExpression(_, _) =>
      case CallExpression(_, _) =>
      case MemberExpression(_, _) =>
      case ArrowFunctionExpression(_, _) =>
      case FunctionExpression(_, _) =>
      case ReturnStatement(_) =>
      case BlockStatement(_) =>
      case IfStatement(_, _, _) =>
      case ExpressionStatement(_) =>
      case VariableDeclaration(_) =>
      case VariableDeclarator(_, _) =>
      case Other(_, _) =>
    }
  }
}
