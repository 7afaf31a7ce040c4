/** The `lithe-macros` attributes.  `#[client]` hands its item back
    unchanged.  `#[page]` walks the page function's syntax tree and rewrites
    every `.on_click(p)` call whose one argument is a path `a::b::c` into
    `.on_click("Lithe.dispatch('a_b_c')")`; every other expression is left
    as it was. */
module Macros {
  import opened Text

  /** The expression forms the rewrite distinguishes.  A `Block` stands for
      any other expression whose sub-expressions the visitor enters; macro
      invocations such as `vec![...]` or `format!(...)`, whose tokens the
      visitor does not enter, are not among the forms modelled. */
  datatype Expr =
    | Path(segments: seq<string>)
    | Lit(value: string)
    | Closure(params: seq<string>, body: Expr)
    | MethodCall(receiver: Expr, name: string, args: seq<Expr>)
    | Call(callee: Expr, args: seq<Expr>)
    | Block(stmts: seq<Expr>)

  /** The string literal that replaces a handler path: every segment, joined
      with `_`, inside `Lithe.dispatch('...')`. */
  function DispatchCall(segments: seq<string>): string
  {
    "Lithe.dispatch('" + Join(segments, "_") + "')"
  }

  /** A method call the visitor rewrites: `on_click` with one path argument. */
  predicate IsSite(name: string, args: seq<Expr>)
  {
    name == "on_click" && |args| == 1 && args[0].Path?
  }

  /** The visitor's own step on a method call whose receiver and arguments
      have already been visited. */
  function RewriteNode(receiver: Expr, name: string, args: seq<Expr>): (r: Expr)
    ensures r.MethodCall? && r.receiver == receiver && r.name == name && |r.args| == |args|
    ensures !IsSite(r.name, r.args)
    ensures !IsSite(name, args) ==> r.args == args
  {
    if IsSite(name, args) then MethodCall(receiver, name, [Lit(DispatchCall(args[0].segments))])
    else MethodCall(receiver, name, args)
  }

  /** `OnClickVisitor` over a whole expression: sub-expressions first, then
      the node itself. */
  function Rewrite(e: Expr): Expr
    decreases e, 1
  {
    match e
    case Path(_) => e
    case Lit(_) => e
    case Closure(params, body) => Closure(params, Rewrite(body))
    case MethodCall(receiver, name, args) => RewriteNode(Rewrite(receiver), name, RewriteAll(args))
    case Call(callee, args) => Call(Rewrite(callee), RewriteAll(args))
    case Block(stmts) => Block(RewriteAll(stmts))
  }

  /** Each expression of a list, visited in turn. */
  function RewriteAll(es: seq<Expr>): (r: seq<Expr>)
    ensures |r| == |es|
    ensures forall k :: 0 <= k < |es| ==> r[k] == Rewrite(es[k])
    decreases es, 0
  {
    if es == [] then [] else [Rewrite(es[0])] + RewriteAll(es[1..])
  }

  /** The number of calls the visitor would rewrite. */
  function Sites(e: Expr): nat
    decreases e, 1
  {
    match e
    case Path(_) => 0
    case Lit(_) => 0
    case Closure(_, body) => Sites(body)
    case MethodCall(receiver, name, args) =>
      Sites(receiver) + SitesAll(args) + (if IsSite(name, args) then 1 else 0)
    case Call(callee, args) => Sites(callee) + SitesAll(args)
    case Block(stmts) => SitesAll(stmts)
  }

  function SitesAll(es: seq<Expr>): nat
    decreases es, 0
  {
    if es == [] then 0 else Sites(es[0]) + SitesAll(es[1..])
  }

  lemma SitesAllCons(es: seq<Expr>)
    requires es != []
    ensures SitesAll(es) == Sites(es[0]) + SitesAll(es[1..])
  {
  }

  /** After the rewrite nothing is left to rewrite: a replaced argument is a
      literal, and no other path argument changes kind. */
  lemma {:induction false} RewriteClearsSites(e: Expr)
    ensures Sites(Rewrite(e)) == 0
    decreases e, 1
  {
    match e
    case Path(_) =>
    case Lit(_) =>
    case Closure(_, body) =>
      RewriteClearsSites(body);
    case MethodCall(receiver, name, args) =>
      RewriteClearsSites(receiver);
      RewriteAllClearsSites(args);
      var args' := RewriteAll(args);
      if IsSite(name, args') {
        assert args'[0] == Rewrite(args[0]);
        assert IsSite(name, args);
        var lit := [Lit(DispatchCall(args'[0].segments))];
        assert SitesAll(lit) == 0 by { SitesAllCons(lit); }
      }
    case Call(callee, args) =>
      RewriteClearsSites(callee);
      RewriteAllClearsSites(args);
    case Block(stmts) =>
      RewriteAllClearsSites(stmts);
  }

  lemma {:induction false} RewriteAllClearsSites(es: seq<Expr>)
    ensures SitesAll(RewriteAll(es)) == 0
    decreases es, 0
  {
    if es != [] {
      RewriteClearsSites(es[0]);
      RewriteAllClearsSites(es[1..]);
      var r := RewriteAll(es);
      assert r[1..] == RewriteAll(es[1..]);
      SitesAllCons(r);
    }
  }

  /** Nothing else changes: an expression with nothing to rewrite comes back
      as it was. */
  lemma {:induction false} NoSitesUnchanged(e: Expr)
    requires Sites(e) == 0
    ensures Rewrite(e) == e
    decreases e, 1
  {
    match e
    case Path(_) =>
    case Lit(_) =>
    case Closure(_, body) =>
      NoSitesUnchanged(body);
    case MethodCall(receiver, name, args) =>
      NoSitesUnchanged(receiver);
      NoSitesUnchangedAll(args);
    case Call(callee, args) =>
      NoSitesUnchanged(callee);
      NoSitesUnchangedAll(args);
    case Block(stmts) =>
      NoSitesUnchangedAll(stmts);
  }

  lemma {:induction false} NoSitesUnchangedAll(es: seq<Expr>)
    requires SitesAll(es) == 0
    ensures RewriteAll(es) == es
    decreases es, 0
  {
    if es != [] {
      SitesAllCons(es);
      NoSitesUnchanged(es[0]);
      NoSitesUnchangedAll(es[1..]);
      assert es == [es[0]] + es[1..];
    }
  }

  /** Running the rewrite twice gives what running it once gives. */
  lemma RewriteIdempotent(e: Expr)
    ensures Rewrite(Rewrite(e)) == Rewrite(e)
  {
    RewriteClearsSites(e);
    NoSitesUnchanged(Rewrite(e));
  }

  /** An expression with something to rewrite does change. */
  lemma RewriteChanges(e: Expr)
    requires Sites(e) > 0
    ensures Rewrite(e) != e
  {
    RewriteClearsSites(e);
  }

  /** The rewritten call: its one path argument becomes the dispatch literal,
      with the receiver visited as well. */
  lemma RewriteSite(receiver: Expr, segments: seq<string>)
    ensures Rewrite(MethodCall(receiver, "on_click", [Path(segments)])) ==
      MethodCall(Rewrite(receiver), "on_click", [Lit(DispatchCall(segments))])
  {
    assert RewriteAll([Path(segments)]) == [Path(segments)];
  }

  /** Any other call (another method, another number of arguments, a closure
      or other non-path argument) keeps its arguments; only what is inside
      them is visited. */
  lemma RewriteOtherCall(receiver: Expr, name: string, args: seq<Expr>)
    requires !IsSite(name, args)
    ensures Rewrite(MethodCall(receiver, name, args)) == MethodCall(Rewrite(receiver), name, RewriteAll(args))
  {
    var args' := RewriteAll(args);
    if |args| == 1 {
      assert args'[0] == Rewrite(args[0]);
    }
  }

  /** A handler with a single-segment path, as in the project template. */
  lemma LocalHandlerExample(receiver: Expr)
    requires Sites(receiver) == 0
    ensures Rewrite(MethodCall(receiver, "on_click", [Path(["handle_local_click"])])) ==
      MethodCall(receiver, "on_click", [Lit("Lithe.dispatch('" + "handle_local_click" + "')")])
  {
    RewriteSite(receiver, ["handle_local_click"]);
    NoSitesUnchanged(receiver);
    assert Join(["handle_local_click"], "_") == "handle_local_click";
  }

  /** A qualified handler keeps every segment, `crate` included. */
  lemma ImportedHandlerExample(receiver: Expr)
    requires Sites(receiver) == 0
    ensures Rewrite(MethodCall(receiver, "on_click", [Path(["crate", "utils", "alert_from_utils"])])) ==
      MethodCall(receiver, "on_click", [Lit("Lithe.dispatch('" + "crate_utils_alert_from_utils" + "')")])
  {
    RewriteSite(receiver, ["crate", "utils", "alert_from_utils"]);
    NoSitesUnchanged(receiver);
    JoinedImportPath();
  }

  lemma JoinedImportPath()
    ensures Join(["crate", "utils", "alert_from_utils"], "_") == "crate_utils_alert_from_utils"
  {
    var parts := ["crate", "utils", "alert_from_utils"];
    assert parts[1..] == ["utils", "alert_from_utils"];
    assert parts[1..][1..] == ["alert_from_utils"];
    assert Join(["alert_from_utils"], "_") == "alert_from_utils";
    assert Join(["utils", "alert_from_utils"], "_") == "utils" + "_" + "alert_from_utils";
  }

  /** An inline closure handler is not rewritten (its body is still visited). */
  lemma ClosureHandlerKept(receiver: Expr, body: Expr)
    requires Sites(receiver) == 0 && Sites(body) == 0
    ensures Rewrite(MethodCall(receiver, "on_click", [Closure([], body)])) ==
      MethodCall(receiver, "on_click", [Closure([], body)])
  {
    var e := MethodCall(receiver, "on_click", [Closure([], body)]);
    SitesAllCons([Closure([], body)]);
    assert Sites(e) == 0;
    NoSitesUnchanged(e);
  }

  /** Because `_` both joins segments and occurs in identifiers, two paths
      can give the same key. */
  lemma KeysCanCollide()
    ensures DispatchCall(["a", "b_c"]) == DispatchCall(["a_b", "c"])
  {
    assert Join(["b_c"], "_") == "b_c";
    assert Join(["c"], "_") == "c";
  }

  /** Without `_` inside segments, the key determines the path. */
  lemma KeyDeterminesPath(s1: seq<string>, s2: seq<string>)
    requires |s1| >= 1 && |s2| >= 1
    requires forall k :: 0 <= k < |s1| ==> '_' !in s1[k]
    requires forall k :: 0 <= k < |s2| ==> '_' !in s2[k]
    requires DispatchCall(s1) == DispatchCall(s2)
    ensures s1 == s2
  {
    var pre, post := "Lithe.dispatch('", "')";
    var j1, j2 := Join(s1, "_"), Join(s2, "_");
    assert pre + j1 + post == pre + j2 + post;
    assert |j1| == |j2|;
    assert j1 == (pre + j1 + post)[|pre|..|pre| + |j1|];
    assert j2 == (pre + j2 + post)[|pre|..|pre| + |j2|];
    SplitJoin(s1, '_');
    SplitJoin(s2, '_');
  }

  /** A method-call node, as the visitor holds it while it mutates it in
      place. */
  class MethodCallNode {
    var receiver: Expr
    var name: string
    var args: seq<Expr>

    function View(): Expr
      reads this
    {
      MethodCall(receiver, name, args)
    }

    /** `visit_expr_method_call_mut`: the default visit of the receiver and
        the arguments, then `args[0]` replaced in place when the call is a
        rewrite site. */
    method VisitMut()
      modifies this
      ensures View() == Rewrite(old(View()))
      ensures name == old(name) && |args| == |old(args)|
    {
      receiver := Rewrite(receiver);
      args := RewriteAll(args);
      if name == "on_click" && |args| == 1 {
        match args[0] {
          case Path(segments) =>
            args := args[0 := Lit(DispatchCall(segments))];
          case _ =>
        }
      }
    }
  }

  /** A token stream, as the attribute macros receive and return it. */
  type TokenStream = seq<string>

  /** `#[client]`: the item is returned untouched. */
  function Client(attr: TokenStream, item: TokenStream): (r: TokenStream)
    ensures r == item
  {
    item
  }

  /** A parsed function item: its name and the expressions of its body. */
  datatype ItemFn = ItemFn(name: string, body: seq<Expr>)

  /** `#[page]`: the visitor applied to the whole function. */
  function Page(attr: TokenStream, item: ItemFn): (r: ItemFn)
    ensures r.name == item.name && |r.body| == |item.body|
    ensures forall k :: 0 <= k < |r.body| ==> r.body[k] == Rewrite(item.body[k])
    ensures SitesAll(r.body) == 0
  {
    RewriteAllClearsSites(item.body);
    ItemFn(item.name, RewriteAll(item.body))
  }

  /** Applying `#[page]` to its own output changes nothing. */
  lemma PageIdempotent(attr: TokenStream, item: ItemFn)
    ensures Page(attr, Page(attr, item)) == Page(attr, item)
  {
    RewriteAllClearsSites(item.body);
    NoSitesUnchangedAll(RewriteAll(item.body));
  }
}
