/**
  `Router.export` (src/router.ts): flattening a tree of routes into the
  ordered dispatch table of (method, absolute path, wrapped handler) entries.
 */
module Flatten {
  import opened Strings
  import opened Paths
  import opened Routes

  /** One row of the dispatch table (`Export` in the source). */
  datatype Entry = Entry(verb: string, path: string, handler: Handler)

  /** A nested entry survives under a parent when either side is `ANY` or both agree. */
  predicate Compatible(parent: string, child: string) {
    parent == "ANY" || child == "ANY" || parent == child
  }

  /**
    `middlewares.reduce((acc, m) => m(acc), handler)`: the last-declared
    middleware ends up outermost, so peeling the wrapped handler yields the
    middlewares in reverse declaration order, then the handler's own layers,
    around the same core.
   */
  function Fold(middlewares: seq<Middleware>, handler: Handler): (r: Handler)
    ensures Layers(r) == Reverse(middlewares) + Layers(handler)
    ensures Core(r) == Core(handler)
    decreases |middlewares|
  {
    if middlewares == [] then handler
    else
      var r := Fold(middlewares[1..], Wrap(middlewares[0], handler));
      assert Reverse(middlewares) == Reverse(middlewares[1..]) + [middlewares[0]];
      r
  }

  /** The middleware layers of a handler, outermost first. */
  function Layers(h: Handler): seq<Middleware> {
    match h
    case Wrap(m, inner) => [m] + Layers(inner)
    case _ => []
  }

  /** The handler under all middleware layers. */
  function Core(h: Handler): Handler {
    match h
    case Wrap(_, inner) => Core(inner)
    case _ => h
  }

  function Reverse<T>(s: seq<T>): seq<T>
    decreases |s|
  {
    if s == [] then [] else Reverse(s[1..]) + [s[0]]
  }

  /** Appending a middleware to the declaration wraps the folded handler once more. */
  lemma {:induction false} FoldSnoc(middlewares: seq<Middleware>, m: Middleware, handler: Handler)
    ensures Fold(middlewares + [m], handler) == Wrap(m, Fold(middlewares, handler))
    decreases |middlewares|
  {
    if middlewares == [] {
      assert Fold([m], handler) == Fold([], Wrap(m, handler));
    } else {
      assert (middlewares + [m])[1..] == middlewares[1..] + [m];
      FoldSnoc(middlewares[1..], m, Wrap(middlewares[0], handler));
    }
  }

  /** A child entry re-rooted under its parent route. */
  function Lift(parent: Route, child: Entry): Entry {
    Entry(child.verb, RemoveTrailingSlash(parent.path + child.path), Fold(parent.middlewares, child.handler))
  }

  /**
    The entries a group contributes for its children's exported entries:
    those whose method is compatible, in order, each re-rooted.
   */
  function Nest(parent: Route, children: seq<Entry>): (r: seq<Entry>)
    ensures |r| <= |children|
    ensures forall e :: e in r ==>
      exists c :: c in children && Compatible(parent.verb, c.verb) && e == Lift(parent, c)
    ensures forall c :: c in children && Compatible(parent.verb, c.verb) ==> Lift(parent, c) in r
    decreases |children|
  {
    if children == [] then []
    else
      var c := children[0];
      var rest := Nest(parent, children[1..]);
      var r := (if Compatible(parent.verb, c.verb) then [Lift(parent, c)] else []) + rest;
      NestStep(parent, children, rest, r);
      r
  }

  /** One step of `Nest`: the head child, if compatible, in front of the rest's entries. */
  lemma NestStep(parent: Route, children: seq<Entry>, rest: seq<Entry>, r: seq<Entry>)
    requires children != []
    requires forall e :: e in rest ==>
      exists c :: c in children[1..] && Compatible(parent.verb, c.verb) && e == Lift(parent, c)
    requires forall c :: c in children[1..] && Compatible(parent.verb, c.verb) ==> Lift(parent, c) in rest
    requires r == (if Compatible(parent.verb, children[0].verb) then [Lift(parent, children[0])] else []) + rest
    ensures forall e :: e in r ==>
      exists c :: c in children && Compatible(parent.verb, c.verb) && e == Lift(parent, c)
    ensures forall c :: c in children && Compatible(parent.verb, c.verb) ==> Lift(parent, c) in r
  {
    assert forall x :: x in children[1..] ==> x in children;
    assert forall x :: x in children ==> x == children[0] || x in children[1..];
  }

  /** Nesting distributes over concatenation of child tables: order is kept. */
  lemma {:induction false} NestAppend(parent: Route, a: seq<Entry>, b: seq<Entry>)
    ensures Nest(parent, a + b) == Nest(parent, a) + Nest(parent, b)
    decreases |a|
  {
    if a == [] {
      assert a + b == b;
    } else {
      assert (a + b)[1..] == a[1..] + b;
      NestAppend(parent, a[1..], b);
    }
  }

  /** The entries one declared route contributes. */
  function ExportRoute(r: Route): (result: seq<Entry>)
    ensures forall e :: e in result ==> Compatible(r.verb, e.verb)
    ensures !r.handler.Router? ==> Entry(r.verb, r.path, r.handler) in result
    decreases r
  {
    match r.handler
    case Router(sub) =>
      var exported := Export(sub);
      if exported == [] then [Entry(r.verb, r.path, r.handler)]
      else Nest(r, exported)
    case _ => [Entry(r.verb, r.path, r.handler)]
  }

  /** `Router.export`: the per-route contributions, in declaration order. */
  function Export(routes: seq<Route>): (r: seq<Entry>)
    ensures forall i :: 0 <= i < |routes| && !routes[i].handler.Router? ==>
      Entry(routes[i].verb, routes[i].path, routes[i].handler) in r
    decreases routes
  {
    if routes == [] then []
    else
      var rest := Export(routes[1..]);
      assert forall i :: 1 <= i < |routes| ==> routes[i] == routes[1..][i - 1];
      ExportRoute(routes[0]) + rest
  }

  /** The table of a concatenated route list is the concatenation of the tables. */
  lemma {:induction false} ExportAppend(a: seq<Route>, b: seq<Route>)
    ensures Export(a + b) == Export(a) + Export(b)
    decreases |a|
  {
    if a == [] {
      assert a + b == b;
    } else {
      assert (a + b)[0] == a[0] && (a + b)[1..] == a[1..] + b;
      ExportAppend(a[1..], b);
    }
  }

  /**
    A route whose handler is not a `Router`, or whose `Router` exports
    nothing, contributes exactly one entry carrying its own method, path and
    handler; a group with a non-empty table contributes one entry per
    compatible child entry, carrying the child's method.
   */
  lemma ExportRouteShape(r: Route)
    ensures !r.handler.Router? || Export(r.handler.routes) == [] ==>
      ExportRoute(r) == [Entry(r.verb, r.path, r.handler)]
    ensures r.handler.Router? && Export(r.handler.routes) != [] ==>
      (forall e :: e in ExportRoute(r) <==>
        exists c :: c in Export(r.handler.routes) && Compatible(r.verb, c.verb) && e == Lift(r, c))
  {
  }

  /** Every entry of a route list's table comes from exactly one declared route's block. */
  lemma {:induction false} ExportMember(routes: seq<Route>, e: Entry)
    ensures e in Export(routes) <==> exists i :: 0 <= i < |routes| && e in ExportRoute(routes[i])
    decreases |routes|
  {
    if routes != [] {
      ExportMember(routes[1..], e);
      if e in Export(routes[1..]) {
        var i :| 0 <= i < |routes[1..]| && e in ExportRoute(routes[1..][i]);
        assert e in ExportRoute(routes[i + 1]);
      }
      if exists i :: 0 <= i < |routes| && e in ExportRoute(routes[i]) {
        var i :| 0 <= i < |routes| && e in ExportRoute(routes[i]);
        if i > 0 {
          assert routes[1..][i - 1] == routes[i];
        }
      }
    }
  }

  /**
    A re-rooted entry's path matches on the parent's segments followed by the
    child's, whatever slashes the concatenation produced.
   */
  lemma LiftSegments(parent: Route, child: Entry)
    requires StartsWith(child.path, "/")
    ensures Segments(Lift(parent, child).path) == Segments(parent.path) + Segments(child.path)
  {
    RemoveTrailingSlashSegments(parent.path + child.path);
    SegmentsConcat(parent.path, child.path);
  }

  /** A concatenation of paths starting with `/` starts with `/` after trailing-slash removal. */
  lemma LiftStartsWithSlash(parent: Route, child: Entry)
    requires StartsWith(parent.path, "/")
    ensures StartsWith(Lift(parent, child).path, "/")
  {
    var joined := parent.path + child.path;
    assert joined[0] == '/';
  }

  /** Every exported path of a well-formed route tree starts with `/`. */
  lemma {:induction false} ExportPathsRooted(routes: seq<Route>)
    requires WellFormedRoutes(routes)
    ensures forall e :: e in Export(routes) ==> StartsWith(e.path, "/")
    decreases routes
  {
    if routes != [] {
      ExportRoutePathsRooted(routes[0]);
      ExportPathsRooted(routes[1..]);
    }
  }

  lemma {:induction false} ExportRoutePathsRooted(r: Route)
    requires WellFormedRoute(r)
    ensures forall e :: e in ExportRoute(r) ==> StartsWith(e.path, "/")
    decreases r
  {
    match r.handler
    case Router(sub) =>
      ExportPathsRooted(sub);
      forall c | c in Export(sub) ensures StartsWith(Lift(r, c).path, "/") {
        LiftStartsWithSlash(r, c);
      }
    case _ =>
  }
}
