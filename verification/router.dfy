/**
 * The router itself: a tree of routers, each with a base path, a route table
 * keyed by (path, method), its children, an optional not-found handler and its
 * middleware; the search for the router that owns a URL path; and the
 * dispatch of a request.
 *
 * Routers refer to each other by pointer in the Go code. Here every router
 * lives in one arena, a RouterTree, and is named by its index there; a child
 * is always created after its parent, so its index is larger.
 */
module Routers {
  import opened Options
  import opened Paths
  import opened Matcher
  import opened Contexts
  import opened Chain

  /** A router's name: its index in the arena. */
  type RouterId = nat

  /**
   * How a route is served: the function given to HandleFunc and its helpers,
   * or the handler given to Handle. Either may be nil.
   */
  datatype Ops = Ops(fn: Option<HandlerId>, handler: Option<HandlerId>)

  /** A router's fields. */
  datatype RouterNode = RouterNode(
    basePath: string,
    routes: map<Route, Ops>,
    subRouters: seq<RouterId>,
    notFoundHandler: Option<HandlerId>,
    mw: seq<HandlerId>)

  const MethodGet := "GET"
  const MethodPost := "POST"
  const MethodPut := "PUT"
  const MethodDelete := "DELETE"
  const MethodPatch := "PATCH"

  /** The method Handle registers under: the empty method, which the dispatcher never compares. */
  const AnyMethod := ""

  /** New: an empty router whose base path is the given one, or "/" when that is empty. */
  function NewRouter(path: string): (n: RouterNode)
    ensures path != "" ==> n.basePath == path
    ensures path == "" ==> n.basePath == "/"
    ensures n.routes == map[] && n.subRouters == [] && n.notFoundHandler == None && n.mw == []
  {
    RouterNode(if path == "" then "/" else path, map[], [], None, [])
  }

  /**
   * A sub-router's base path: the parent's base path followed by the given
   * path, except that a parent based at "/" contributes nothing.
   */
  function ChildBase(parentBase: string, path: string): (b: string)
    ensures parentBase == "/" ==> b == path
    ensures parentBase != "/" ==> parentBase <= b && b[|parentBase|..] == path
  {
    (if parentBase == "/" then "" else parentBase) + path
  }

  /** bindRoute: the table entry for route now holds ops; every other entry and field is unchanged. */
  function Bind(n: RouterNode, route: Route, ops: Ops): (m: RouterNode)
    ensures route in m.routes && m.routes[route] == ops
    ensures forall k :: k != route ==> (k in m.routes <==> k in n.routes)
    ensures forall k :: k != route && k in n.routes ==> m.routes[k] == n.routes[k]
    ensures m.basePath == n.basePath && m.subRouters == n.subRouters
    ensures m.notFoundHandler == n.notFoundHandler && m.mw == n.mw
  {
    n.(routes := n.routes[route := ops])
  }

  /** A later registration under the same key replaces the earlier one. */
  lemma BindOverwrites(n: RouterNode, route: Route, first: Ops, second: Ops)
    ensures Bind(Bind(n, route, first), route, second) == Bind(n, route, second)
  {
    assert Bind(Bind(n, route, first), route, second).routes == Bind(n, route, second).routes;
  }

  /** Registrations under different keys do not interfere: their order does not matter. */
  lemma BindCommutes(n: RouterNode, r1: Route, o1: Ops, r2: Route, o2: Ops)
    requires r1 != r2
    ensures Bind(Bind(n, r1, o1), r2, o2) == Bind(Bind(n, r2, o2), r1, o1)
  {
    assert Bind(Bind(n, r1, o1), r2, o2).routes == Bind(Bind(n, r2, o2), r1, o1).routes;
  }

  /** Every child index is larger than its parent's and names a router of the arena. */
  predicate ValidNodes(nodes: seq<RouterNode>)
  {
    forall r, i :: 0 <= r < |nodes| && 0 <= i < |nodes[r].subRouters| ==> r < nodes[r].subRouters[i] < |nodes|
  }

  /** Router o claims the URL path: its base path is a plain string prefix of it. */
  predicate Claims(nodes: seq<RouterNode>, o: RouterId, url: string)
  {
    o < |nodes| && nodes[o].basePath <= url
  }

  // ---------------------------------------------------------------------------
  // findMatchingRouter
  // ---------------------------------------------------------------------------

  /**
   * findMatchingRouter: the first child, in insertion order, whose own search
   * succeeds; failing that the router itself when it claims the path; failing
   * that nothing. Whatever is found claims the path.
   */
  function Owner(nodes: seq<RouterNode>, r: RouterId, url: string): (o: Option<RouterId>)
    requires ValidNodes(nodes) && r < |nodes|
    ensures o.Some? ==> r <= o.value && Claims(nodes, o.value, url)
    decreases |nodes| - r, 1
  {
    var fromChildren := FirstChildOwner(nodes, r, 0, url);
    if fromChildren.Some? then fromChildren
    else if IndexOf(url, nodes[r].basePath) == 0 then Some(r)
    else None
  }

  /** The search over the children of r from the i-th on. */
  function FirstChildOwner(nodes: seq<RouterNode>, r: RouterId, i: nat, url: string): (o: Option<RouterId>)
    requires ValidNodes(nodes) && r < |nodes| && i <= |nodes[r].subRouters|
    ensures o.Some? ==> r < o.value && Claims(nodes, o.value, url)
    decreases |nodes| - r, 0, |nodes[r].subRouters| - i
  {
    var subs := nodes[r].subRouters;
    if i == |subs| then None
    else
      var o := Owner(nodes, subs[i], url);
      if o.Some? then o else FirstChildOwner(nodes, r, i + 1, url)
  }

  /** o is r or a descendant of r. */
  ghost predicate InSubtree(nodes: seq<RouterNode>, r: RouterId, o: RouterId)
    requires ValidNodes(nodes) && r < |nodes|
    decreases |nodes| - r
  {
    o == r || exists i :: 0 <= i < |nodes[r].subRouters| && InSubtree(nodes, nodes[r].subRouters[i], o)
  }

  /**
   * The search is sound and complete over the subtree: what it finds lies in
   * the subtree, and it finds nothing exactly when no router of the subtree
   * claims the path.
   */
  lemma {:induction false} OwnerInSubtree(nodes: seq<RouterNode>, r: RouterId, url: string)
    requires ValidNodes(nodes) && r < |nodes|
    ensures Owner(nodes, r, url).Some? ==> InSubtree(nodes, r, Owner(nodes, r, url).value)
    ensures Owner(nodes, r, url).None? <==> forall o :: InSubtree(nodes, r, o) ==> !Claims(nodes, o, url)
    decreases |nodes| - r, 1
  {
    FirstChildInSubtree(nodes, r, 0, url);
    if Owner(nodes, r, url).None? {
      forall o | InSubtree(nodes, r, o)
        ensures !Claims(nodes, o, url)
      {
        if o != r {
          var i :| 0 <= i < |nodes[r].subRouters| && InSubtree(nodes, nodes[r].subRouters[i], o);
          assert Owner(nodes, nodes[r].subRouters[i], url).None?;
          OwnerInSubtree(nodes, nodes[r].subRouters[i], url);
        }
      }
    } else {
      assert InSubtree(nodes, r, Owner(nodes, r, url).value);
    }
  }

  lemma {:induction false} FirstChildInSubtree(nodes: seq<RouterNode>, r: RouterId, i: nat, url: string)
    requires ValidNodes(nodes) && r < |nodes| && i <= |nodes[r].subRouters|
    ensures FirstChildOwner(nodes, r, i, url).Some? ==> InSubtree(nodes, r, FirstChildOwner(nodes, r, i, url).value)
    ensures FirstChildOwner(nodes, r, i, url).None? <==>
      forall j :: i <= j < |nodes[r].subRouters| ==> Owner(nodes, nodes[r].subRouters[j], url).None?
    decreases |nodes| - r, 0, |nodes[r].subRouters| - i
  {
    var subs := nodes[r].subRouters;
    if i < |subs| {
      var o := Owner(nodes, subs[i], url);
      FirstChildInSubtree(nodes, r, i + 1, url);
      if o.Some? {
        OwnerInSubtree(nodes, subs[i], url);
        assert InSubtree(nodes, r, o.value);
      }
    }
  }

  /**
   * Children are tried first, in insertion order: when the j-th child's search
   * is the first to succeed, its result is the result.
   */
  lemma OwnerPrefersFirstChild(nodes: seq<RouterNode>, r: RouterId, url: string, j: nat)
    requires ValidNodes(nodes) && r < |nodes| && j < |nodes[r].subRouters|
    requires Owner(nodes, nodes[r].subRouters[j], url).Some?
    requires forall k :: 0 <= k < j ==> Owner(nodes, nodes[r].subRouters[k], url).None?
    ensures Owner(nodes, r, url) == Owner(nodes, nodes[r].subRouters[j], url)
  {
    FirstChildReaches(nodes, r, url, 0, j);
  }

  lemma {:induction false} FirstChildReaches(nodes: seq<RouterNode>, r: RouterId, url: string, i: nat, j: nat)
    requires ValidNodes(nodes) && r < |nodes| && i <= j < |nodes[r].subRouters|
    requires Owner(nodes, nodes[r].subRouters[j], url).Some?
    requires forall k :: i <= k < j ==> Owner(nodes, nodes[r].subRouters[k], url).None?
    ensures FirstChildOwner(nodes, r, i, url) == Owner(nodes, nodes[r].subRouters[j], url)
    decreases j - i
  {
    if i < j {
      FirstChildReaches(nodes, r, url, i + 1, j);
    }
  }

  /** Only when no child's search succeeds does a router fall back to the prefix test on its own base path. */
  lemma OwnerFallsBack(nodes: seq<RouterNode>, r: RouterId, url: string)
    requires ValidNodes(nodes) && r < |nodes|
    requires forall k :: 0 <= k < |nodes[r].subRouters| ==> Owner(nodes, nodes[r].subRouters[k], url).None?
    ensures nodes[r].basePath <= url ==> Owner(nodes, r, url) == Some(r)
    ensures !(nodes[r].basePath <= url) ==> Owner(nodes, r, url) == None
  {
    FirstChildInSubtree(nodes, r, 0, url);
  }

  /** The router found owns the path from its own point of view too: searching from it finds it again. */
  lemma {:induction false} OwnerIsStable(nodes: seq<RouterNode>, r: RouterId, url: string)
    requires ValidNodes(nodes) && r < |nodes|
    requires Owner(nodes, r, url).Some?
    ensures Owner(nodes, Owner(nodes, r, url).value, url) == Owner(nodes, r, url)
    decreases |nodes| - r, 1
  {
    if FirstChildOwner(nodes, r, 0, url).Some? {
      FirstChildIsStable(nodes, r, 0, url);
    } else {
      assert Owner(nodes, r, url) == Some(r);
    }
  }

  lemma {:induction false} FirstChildIsStable(nodes: seq<RouterNode>, r: RouterId, i: nat, url: string)
    requires ValidNodes(nodes) && r < |nodes| && i <= |nodes[r].subRouters|
    requires FirstChildOwner(nodes, r, i, url).Some?
    ensures Owner(nodes, FirstChildOwner(nodes, r, i, url).value, url) == FirstChildOwner(nodes, r, i, url)
    decreases |nodes| - r, 0, |nodes[r].subRouters| - i
  {
    var subs := nodes[r].subRouters;
    if Owner(nodes, subs[i], url).Some? {
      OwnerIsStable(nodes, subs[i], url);
    } else {
      FirstChildIsStable(nodes, r, i + 1, url);
    }
  }

  /** The owner's base path is a prefix of the URL path, so removing its first occurrence strips exactly that prefix. */
  lemma OwnerStripsPrefix(nodes: seq<RouterNode>, r: RouterId, url: string)
    requires ValidNodes(nodes) && r < |nodes| && Owner(nodes, r, url).Some?
    ensures var base := nodes[Owner(nodes, r, url).value].basePath;
      RemoveFirst(url, base) == url[|base|..]
  {
    RemoveFirstPrefix(url, nodes[Owner(nodes, r, url).value].basePath);
  }

  /** The tree of the sub-router tests: "/" with the child "/admin", which has the child "/admin/payroll". */
  function AdminTree(): (nodes: seq<RouterNode>)
    ensures ValidNodes(nodes) && |nodes| == 3
  {
    [RouterNode("/", map[], [1], None, []),
     RouterNode("/admin", map[], [2], None, []),
     RouterNode("/admin/payroll", map[], [], None, [])]
  }

  /**
   * Which router of AdminTree owns a path: the deepest one whose base path is
   * a prefix of it. The prefix test is on characters, not segments, so
   * "/administrator" belongs to "/admin".
   */
  lemma AdminTreeOwners(url: string)
    ensures "/admin/payroll" <= url ==> Owner(AdminTree(), 0, url) == Some(2)
    ensures "/admin" <= url && !("/admin/payroll" <= url) ==> Owner(AdminTree(), 0, url) == Some(1)
    ensures "/" <= url && !("/admin" <= url) ==> Owner(AdminTree(), 0, url) == Some(0)
    ensures !("/" <= url) ==> Owner(AdminTree(), 0, url) == None
  {
    var nodes := AdminTree();
    assert nodes[0].subRouters == [1] && nodes[1].subRouters == [2] && nodes[2].subRouters == [];
    assert "/" <= "/admin" <= "/admin/payroll";
    OwnerFallsBack(nodes, 2, url);
    if Owner(nodes, 2, url).None? {
      OwnerFallsBack(nodes, 1, url);
    } else {
      OwnerPrefersFirstChild(nodes, 1, url, 0);
    }
    if Owner(nodes, 1, url).None? {
      OwnerFallsBack(nodes, 0, url);
    } else {
      OwnerPrefersFirstChild(nodes, 0, url, 0);
    }
  }

  // ---------------------------------------------------------------------------
  // Dispatch
  // ---------------------------------------------------------------------------

  /** Every pattern of every table can be matched without reading the first character of an empty segment. */
  predicate RoutesDefined(nodes: seq<RouterNode>)
  {
    forall r :: 0 <= r < |nodes| ==> TableDefined(nodes[r])
  }

  /** Route of router n can be matched: its effective pattern is defined. */
  predicate RouteDefined(n: RouterNode, route: Route)
  {
    PatternDefined(EffectivePattern(n.basePath, route.path))
  }

  /** Every route of router n's table can be matched. */
  predicate TableDefined(n: RouterNode)
  {
    forall route {:trigger RouteDefined(n, route)} :: route in n.routes ==> RouteDefined(n, route)
  }

  /**
   * Whether a route is served under any method (`ops.handler != nil`); such a
   * route always has a handler to run.
   */
  function IgnoresMethod(ops: Ops): (b: bool)
    ensures b ==> HandlerOf(ops).Some?
  {
    ops.handler.Some?
  }

  /** The handler a matched route runs: its function, else its handler; None is a nil handler. */
  function HandlerOf(ops: Ops): (h: Option<HandlerId>)
    ensures ops.fn.Some? ==> h == ops.fn
    ensures ops.fn.None? ==> h == ops.handler
  {
    if ops.fn.Some? then ops.fn else ops.handler
  }

  /** What matching route of router n against the stripped path gives. */
  function RouteResult(n: RouterNode, route: Route, m: string, path: string): MatchResult
    requires route in n.routes && RouteDefined(n, route)
  {
    MatchSpec(n.basePath, route, m, path, IgnoresMethod(n.routes[route]))
  }

  /** The status written when no route matches. */
  const StatusNotFound := 404

  /**
   * What ServeHTTP does with a request:
   *  - Dispatched: a route of the owning router matched; the chain of that
   *    router's middleware followed by the parameter-binding step ran, with
   *    the route's handler as its final handler;
   *  - NotFound: the status is written, then the outer router's not-found
   *    handler runs if there is one;
   *  - NoRouter: no router claims the path; the Go code dereferences the nil
   *    router and panics.
   */
  datatype Outcome =
    | Dispatched(router: RouterId, route: Route, params: map<string, string>, handler: Option<HandlerId>, run: RunResult)
    | NotFound(status: int, notFoundHandler: Option<HandlerId>)
    | NoRouter

  /** The chain a dispatch runs: the owning router's middleware, then the parameter-binding step. */
  function DispatchChain(n: RouterNode, params: map<string, string>): (chain: seq<Step>)
    ensures |chain| == |n.mw| + 1 && chain[|n.mw|] == BindParams(params)
    ensures forall i :: 0 <= i < |n.mw| ==> chain[i] == Call(n.mw[i])
  {
    Calls(n.mw) + [BindParams(params)]
  }

  /**
   * The final handler of a dispatch, when reached, sees exactly the matched
   * parameters, after every middleware function of the owner ran.
   */
  lemma DispatchSeesParams(n: RouterNode, params: map<string, string>, c: Context, effect: Effect)
    ensures var r := RunChain(DispatchChain(n, params), c, effect);
      r.reachedLast ==> r.ran == DispatchChain(n, params) && Params(r.ctx) == params
  {
    HandlerSeesParams(Calls(n.mw), params, c, effect);
  }

  /** A route registered with Handle gives the same result under every request method. */
  lemma HandleIgnoresMethod(n: RouterNode, route: Route, m1: string, m2: string, path: string)
    requires route in n.routes && RouteDefined(n, route) && n.routes[route].handler.Some?
    ensures RouteResult(n, route, m1, path) == RouteResult(n, route, m2, path)
  {
    MethodGate(n.basePath, route, path, m1, m2);
  }

  /** A route registered under a method never matches a request under another method. */
  lemma MethodMustAgree(n: RouterNode, route: Route, m: string, path: string)
    requires route in n.routes && RouteDefined(n, route) && n.routes[route].handler.None?
    requires route.httpMethod != m
    ensures RouteResult(n, route, m, path) == NoMatch
  {
    MethodGate(n.basePath, route, path, m, m);
  }

  /**
   * The arena of routers. Its methods are the router's own: construction,
   * registration and lookup, and the dispatch of a request.
   */
  class RouterTree {
    var nodes: seq<RouterNode>

    ghost predicate Valid()
      reads this
    {
      ValidNodes(nodes)
    }

    constructor()
      ensures Valid() && nodes == []
    {
      nodes := [];
    }

    /** New: a fresh router with no parent. */
    method New(path: string) returns (r: RouterId)
      requires Valid()
      modifies this
      ensures Valid()
      ensures r == |old(nodes)| && nodes == old(nodes) + [NewRouter(path)]
    {
      r := |nodes|;
      nodes := nodes + [NewRouter(path)];
    }

    /**
     * SubRouter: a fresh router based at ChildBase(parent's base, path),
     * appended to the end of the parent's children.
     */
    method SubRouter(r: RouterId, path: string) returns (sub: RouterId)
      requires Valid() && r < |nodes|
      modifies this
      ensures Valid()
      ensures sub == |old(nodes)| && |nodes| == sub + 1
      ensures nodes[sub] == RouterNode(ChildBase(old(nodes)[r].basePath, path), map[], [], None, [])
      ensures nodes[r] == old(nodes)[r].(subRouters := old(nodes)[r].subRouters + [sub])
      ensures forall o :: 0 <= o < |old(nodes)| && o != r ==> nodes[o] == old(nodes)[o]
    {
      sub := |nodes|;
      var parent := nodes[r];
      var child := RouterNode(ChildBase(parent.basePath, path), map[], [], None, []);
      nodes := nodes[r := parent.(subRouters := parent.subRouters + [sub])] + [child];
    }

    /** bindRoute: the entry keyed by (path, method) of router r now holds ops. */
    method BindRoute(r: RouterId, httpMethod: string, path: string, ops: Ops)
      requires Valid() && r < |nodes|
      modifies this
      ensures Valid()
      ensures nodes == old(nodes)[r := Bind(old(nodes)[r], Route(path, httpMethod), ops)]
    {
      nodes := nodes[r := Bind(nodes[r], Route(path, httpMethod), ops)];
    }

    /** HandleFunc: register a handler function under a method. */
    method HandleFunc(r: RouterId, httpMethod: string, path: string, fn: Option<HandlerId>)
      requires Valid() && r < |nodes|
      modifies this
      ensures Valid()
      ensures nodes == old(nodes)[r := Bind(old(nodes)[r], Route(path, httpMethod), Ops(fn, None))]
    {
      BindRoute(r, httpMethod, path, Ops(fn, None));
    }

    method Get(r: RouterId, path: string, fn: Option<HandlerId>)
      requires Valid() && r < |nodes|
      modifies this
      ensures Valid()
      ensures nodes == old(nodes)[r := Bind(old(nodes)[r], Route(path, MethodGet), Ops(fn, None))]
    {
      BindRoute(r, MethodGet, path, Ops(fn, None));
    }

    method Post(r: RouterId, path: string, fn: Option<HandlerId>)
      requires Valid() && r < |nodes|
      modifies this
      ensures Valid()
      ensures nodes == old(nodes)[r := Bind(old(nodes)[r], Route(path, MethodPost), Ops(fn, None))]
    {
      BindRoute(r, MethodPost, path, Ops(fn, None));
    }

    method Put(r: RouterId, path: string, fn: Option<HandlerId>)
      requires Valid() && r < |nodes|
      modifies this
      ensures Valid()
      ensures nodes == old(nodes)[r := Bind(old(nodes)[r], Route(path, MethodPut), Ops(fn, None))]
    {
      BindRoute(r, MethodPut, path, Ops(fn, None));
    }

    method Delete(r: RouterId, path: string, fn: Option<HandlerId>)
      requires Valid() && r < |nodes|
      modifies this
      ensures Valid()
      ensures nodes == old(nodes)[r := Bind(old(nodes)[r], Route(path, MethodDelete), Ops(fn, None))]
    {
      BindRoute(r, MethodDelete, path, Ops(fn, None));
    }

    method Patch(r: RouterId, path: string, fn: Option<HandlerId>)
      requires Valid() && r < |nodes|
      modifies this
      ensures Valid()
      ensures nodes == old(nodes)[r := Bind(old(nodes)[r], Route(path, MethodPatch), Ops(fn, None))]
    {
      BindRoute(r, MethodPatch, path, Ops(fn, None));
    }

    /** Handle: register a handler under the empty method; it is then served under any method. */
    method Handle(r: RouterId, path: string, h: Option<HandlerId>)
      requires Valid() && r < |nodes|
      modifies this
      ensures Valid()
      ensures nodes == old(nodes)[r := Bind(old(nodes)[r], Route(path, AnyMethod), Ops(None, h))]
    {
      nodes := nodes[r := Bind(nodes[r], Route(path, AnyMethod), Ops(None, h))];
    }

    /** NotFound: set (or, with None, clear) the router's not-found handler. */
    method NotFound(r: RouterId, h: Option<HandlerId>)
      requires Valid() && r < |nodes|
      modifies this
      ensures Valid()
      ensures nodes == old(nodes)[r := old(nodes)[r].(notFoundHandler := h)]
    {
      nodes := nodes[r := nodes[r].(notFoundHandler := h)];
    }

    /** Before: append middleware functions to the router's list. */
    method Before(r: RouterId, fns: seq<HandlerId>)
      requires Valid() && r < |nodes|
      modifies this
      ensures Valid()
      ensures nodes == old(nodes)[r := old(nodes)[r].(mw := old(nodes)[r].mw + fns)]
    {
      nodes := nodes[r := nodes[r].(mw := nodes[r].mw + fns)];
    }

    /** findMatchingRouter: depth-first over the children in order, then the router's own prefix test. */
    method FindMatchingRouter(r: RouterId, url: string) returns (o: Option<RouterId>)
      requires Valid() && r < |nodes|
      ensures o == Owner(nodes, r, url)
      decreases |nodes| - r
    {
      var subs := nodes[r].subRouters;
      var i := 0;
      while i < |subs|
        invariant 0 <= i <= |subs|
        invariant FirstChildOwner(nodes, r, 0, url) == FirstChildOwner(nodes, r, i, url)
      {
        var found := FindMatchingRouter(subs[i], url);
        if found.Some? {
          return found;
        }
        i := i + 1;
      }
      if IndexOf(url, nodes[r].basePath) == 0 {
        return Some(r);
      }
      return None;
    }

    /**
     * The setup of the sub-router tests: New("/") in an empty arena, then
     * SubRouter("/admin") on it and SubRouter("/payroll") on that; the result
     * is AdminTree.
     */
    static method BuildAdminTree() returns (t: RouterTree, root: RouterId)
      ensures fresh(t) && t.Valid() && t.nodes == AdminTree() && root == 0
    {
      t := new RouterTree();
      root := t.New("/");
      var admin := t.SubRouter(root, "/admin");
      assert t.nodes[0] == RouterNode("/", map[], [1], None, []);
      var payroll := t.SubRouter(admin, "/payroll");
      assert "/admin" + "/payroll" == "/admin/payroll";
      assert t.nodes[0] == AdminTree()[0] && t.nodes[1] == AdminTree()[1] && t.nodes[2] == AdminTree()[2];
    }

    /**
     * ServeHTTP on router root: resolve the owning router, scan its table (in
     * no particular order) for a route that matches the path with the owner's
     * base path removed, and run the owner's chain for the first one found;
     * when none matches, answer 404 and name the root's not-found handler.
     * The table is not changed: the parameter-binding step is added to a copy
     * of the owner's middleware list.
     */
    method ServeHTTP(root: RouterId, req: Request, effect: Effect) returns (out: Outcome)
      requires Valid() && root < |nodes| && RoutesDefined(nodes)
      modifies req
      ensures var owner := Owner(nodes, root, req.path);
        (out.NoRouter? <==> owner.None?) &&
        (out.NoRouter? ==> req.ctx == old(req.ctx))
      ensures out.Dispatched? ==> Owner(nodes, root, req.path) == Some(out.router)
      ensures out.Dispatched? ==>
        var m := GetMethod(req.httpMethod, req.contentType, req.formMethod);
        var n := nodes[out.router];
        out.route in n.routes &&
        RouteResult(n, out.route, m, RemoveFirst(req.path, n.basePath)) == Match(out.params) &&
        out.handler == HandlerOf(n.routes[out.route]) &&
        out.run == RunChain(DispatchChain(n, out.params), old(req.ctx), effect) &&
        req.ctx == out.run.ctx
      ensures out.NotFound? ==>
        var m := GetMethod(req.httpMethod, req.contentType, req.formMethod);
        var n := nodes[Owner(nodes, root, req.path).value];
        var path := RemoveFirst(req.path, n.basePath);
        out.status == StatusNotFound &&
        out.notFoundHandler == nodes[root].notFoundHandler &&
        (forall route {:trigger RouteResult(n, route, m, path)} :: route in n.routes ==> RouteResult(n, route, m, path).NoMatch?) &&
        req.ctx == old(req.ctx)
    {
      var m := GetMethod(req.httpMethod, req.contentType, req.formMethod);
      var rr := FindMatchingRouter(root, req.path);
      if rr.None? {
        return NoRouter;
      }
      var n := nodes[rr.value];
      out := ScanRoutes(rr.value, n, m, RemoveFirst(req.path, n.basePath), req, effect, nodes[root].notFoundHandler);
    }

    /** A matched route: run the owning router's chain for it. */
    static method Dispatch(o: RouterId, n: RouterNode, route: Route, params: map<string, string>, req: Request, effect: Effect)
      returns (out: Outcome)
      requires route in n.routes
      modifies req
      ensures out == Dispatched(o, route, params, HandlerOf(n.routes[route]), RunChain(DispatchChain(n, params), old(req.ctx), effect))
      ensures req.ctx == out.run.ctx
    {
      var run := Run(DispatchChain(n, params), req, effect);
      return Dispatched(o, route, params, HandlerOf(n.routes[route]), run);
    }

    /** Route of router n, tried against the path with n's base path already stripped. */
    static method TryRoute(n: RouterNode, route: Route, m: string, path: string) returns (ok: bool, params: map<string, string>)
      requires route in n.routes && RouteDefined(n, route)
      ensures ok == RouteResult(n, route, m, path).Match?
      ensures ok ==> RouteResult(n, route, m, path) == Match(params)
    {
      ok, params := Matches(n.basePath, route, m, path, IgnoresMethod(n.routes[route]));
    }

    /**
     * The loop of ServeHTTP over the owning router's table, in the table's
     * (unspecified) iteration order: the first route found that matches, with
     * its parameters; None when no route of the table matches.
     */
    static method FirstMatch(n: RouterNode, m: string, path: string) returns (found: Option<Route>, params: map<string, string>)
      requires TableDefined(n)
      ensures found.Some? ==> found.value in n.routes && RouteResult(n, found.value, m, path) == Match(params)
      ensures found.None? ==>
        forall route {:trigger RouteResult(n, route, m, path)} :: route in n.routes ==> RouteResult(n, route, m, path).NoMatch?
    {
      var remaining := n.routes.Keys;
      while remaining != {}
        invariant remaining <= n.routes.Keys
        invariant forall route {:trigger RouteResult(n, route, m, path)} ::
          route in n.routes && route !in remaining ==> RouteResult(n, route, m, path).NoMatch?
        decreases |remaining|
      {
        var route :| route in remaining;
        var ok, p := TryRoute(n, route, m, path);
        if ok {
          return Some(route), p;
        }
        remaining := remaining - {route};
      }
      return None, map[];
    }

    /** Dispatch the first matching route of router o's table, or answer not found. */
    static method ScanRoutes(o: RouterId, n: RouterNode, m: string, path: string, req: Request, effect: Effect,
                             notFound: Option<HandlerId>) returns (out: Outcome)
      requires TableDefined(n)
      modifies req
      ensures out.Dispatched? || out.NotFound?
      ensures out.Dispatched? ==>
        out.router == o && out.route in n.routes &&
        RouteResult(n, out.route, m, path) == Match(out.params) &&
        out.handler == HandlerOf(n.routes[out.route]) &&
        out.run == RunChain(DispatchChain(n, out.params), old(req.ctx), effect) &&
        req.ctx == out.run.ctx
      ensures out.NotFound? ==>
        out.status == StatusNotFound && out.notFoundHandler == notFound &&
        (forall route {:trigger RouteResult(n, route, m, path)} :: route in n.routes ==> RouteResult(n, route, m, path).NoMatch?) &&
        req.ctx == old(req.ctx)
    {
      var found, params := FirstMatch(n, m, path);
      if found.None? {
        return Outcome.NotFound(StatusNotFound, notFound);
      }
      out := Dispatch(o, n, found.value, params, req, effect);
    }
  }
}
