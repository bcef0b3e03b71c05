/**
  Route declarations of the current router (src/route.ts): one (method, path,
  handler, middlewares) record per declared endpoint or group.
 */
module Routes {
  import opened Strings
  import opened Paths

  /** An application middleware, known only by its identity. */
  datatype Middleware = Middleware(id: nat)

  /**
    A request handler as a symbolic term: an application function, a
    middleware applied to a handler (`m(h)`), or a `Router` built from a list
    of routes by `routes(...)`. Only the last is an `instanceof Router`:
    a middleware applied to a router yields a plain function.
   */
  datatype Handler =
    | Base(id: nat)
    | Wrap(mw: Middleware, inner: Handler)
    | Router(routes: seq<Route>)

  datatype Route = Route(verb: string, path: string, handler: Handler, middlewares: seq<Middleware>)

  /** A path in canonical form: it starts with `/` and ends with `/` only when it is the root. */
  predicate Canonical(p: string) {
    StartsWith(p, "/") && (p == "/" || !EndsWith(p, "/"))
  }

  /**
    The path normalisation of the `Route` constructor: a missing leading `/`
    is prepended, then one trailing `/` is removed. The segments a request is
    matched against never change.
   */
  function NormalizePath(route: string): (r: string)
    ensures var w := if StartsWith(route, "/") then route else "/" + route;
      (r == w || r + "/" == w) && (r + "/" == w <==> w != "/" && EndsWith(w, "/"))
    ensures StartsWith(r, "/")
    ensures !EndsWith(route, "//") ==> Canonical(r)
    ensures Canonical(route) ==> r == route
    ensures Segments(r) == Segments(route)
  {
    var withSlash := if StartsWith(route, "/") then route else "/" + route;
    SegmentsLeadingSlash(route);
    RemoveTrailingSlashSegments(withSlash);
    RemoveTrailingSlash(withSlash)
  }

  /** Spellings of the same endpoint normalise to one path. */
  lemma NormalizePathExamples()
    ensures NormalizePath("user") == NormalizePath("/user") == NormalizePath("/user/") == "/user"
  {
    StartsWithChar("user", '/');
    StartsWithChar("/user", '/');
    StartsWithChar("/user/", '/');
    EndsWithChar("/user", '/');
    EndsWithChar("/user/", '/');
    assert "/" + "user" == "/user";
    assert "/user/"[..5] == "/user";
  }

  /** The empty path and runs of slashes normalise to the root. */
  lemma NormalizeRootExamples()
    ensures NormalizePath("") == NormalizePath("/") == "/"
    ensures NormalizePath("//") == "/"
  {
    StartsWithChar("", '/');
    StartsWithChar("/", '/');
    StartsWithChar("//", '/');
    EndsWithChar("//", '/');
    assert "/" + "" == "/";
    assert "//"[..1] == "/";
  }

  /** The private `Route` constructor. */
  function MakeRoute(verb: string, route: string, handler: Handler, middlewares: seq<Middleware>): (r: Route)
    ensures r.verb == verb && r.handler == handler && r.middlewares == middlewares
    ensures r.path == NormalizePath(route)
    ensures StartsWith(r.path, "/") && Segments(r.path) == Segments(route)
    ensures !EndsWith(route, "//") ==> Canonical(r.path)
  {
    Route(verb, NormalizePath(route), handler, middlewares)
  }

  /** `Route.route(method)(route, handler)`: a route without middleware. */
  function RouteFor(verb: string, route: string, handler: Handler): (r: Route)
    ensures r.verb == verb && r.handler == handler && r.middlewares == []
    ensures r.path == NormalizePath(route)
    ensures StartsWith(r.path, "/") && Segments(r.path) == Segments(route)
  {
    MakeRoute(verb, route, handler, [])
  }

  function Get(route: string, handler: Handler): (r: Route)
    ensures r.verb == "GET" && r.handler == handler && r.middlewares == []
    ensures r.path == NormalizePath(route) && Segments(r.path) == Segments(route)
  {
    RouteFor("GET", route, handler)
  }

  function Post(route: string, handler: Handler): (r: Route)
    ensures r.verb == "POST" && r.handler == handler && r.middlewares == []
    ensures r.path == NormalizePath(route) && Segments(r.path) == Segments(route)
  {
    RouteFor("POST", route, handler)
  }

  function Patch(route: string, handler: Handler): (r: Route)
    ensures r.verb == "PATCH" && r.handler == handler && r.middlewares == []
    ensures r.path == NormalizePath(route) && Segments(r.path) == Segments(route)
  {
    RouteFor("PATCH", route, handler)
  }

  function Put(route: string, handler: Handler): (r: Route)
    ensures r.verb == "PUT" && r.handler == handler && r.middlewares == []
    ensures r.path == NormalizePath(route) && Segments(r.path) == Segments(route)
  {
    RouteFor("PUT", route, handler)
  }

  function Del(route: string, handler: Handler): (r: Route)
    ensures r.verb == "DELETE" && r.handler == handler && r.middlewares == []
    ensures r.path == NormalizePath(route) && Segments(r.path) == Segments(route)
  {
    RouteFor("DELETE", route, handler)
  }

  function Options(route: string, handler: Handler): (r: Route)
    ensures r.verb == "OPTIONS" && r.handler == handler && r.middlewares == []
    ensures r.path == NormalizePath(route) && Segments(r.path) == Segments(route)
  {
    RouteFor("OPTIONS", route, handler)
  }

  /** `any` is bound to the `GET` builder: the route it declares is a `GET` route. */
  function Any(route: string, handler: Handler): (r: Route)
    ensures r == Get(route, handler)
    ensures r.verb == "GET" && r.verb != "ANY"
  {
    RouteFor("GET", route, handler)
  }

  /**
    `context(route, ...middlewares, routes)`: an `ANY` group whose handler is
    the `Router` of the nested routes and whose middlewares are the preceding
    arguments in declaration order.
   */
  function Context(route: string, middlewares: seq<Middleware>, routes: seq<Route>): (r: Route)
    ensures r.verb == "ANY" && r.handler == Router(routes) && r.middlewares == middlewares
    ensures r.path == NormalizePath(route)
    ensures StartsWith(r.path, "/") && Segments(r.path) == Segments(route)
  {
    MakeRoute("ANY", route, Router(routes), middlewares)
  }

  /** `notFound(handler)`: a `NOT_FOUND` route mounted at `/`. */
  function NotFound(handler: Handler): (r: Route)
    ensures r.verb == "NOT_FOUND" && r.path == "/" && r.handler == handler && r.middlewares == []
  {
    assert Canonical("/");
    RouteFor("NOT_FOUND", "/", handler)
  }

  /** Every path in a route tree starts with `/`, as the constructor guarantees. */
  predicate WellFormedRoute(r: Route)
    decreases r
  {
    StartsWith(r.path, "/") &&
    match r.handler
    case Router(rs) => forall i :: 0 <= i < |rs| ==> WellFormedRoute(rs[i])
    case _ => true
  }

  predicate WellFormedRoutes(rs: seq<Route>) {
    forall i :: 0 <= i < |rs| ==> WellFormedRoute(rs[i])
  }
}
