/**
  Request routing of the legacy trie router (src/index.ts): the trie walk,
  the `ANY`-then-method handler choice, the not-found fallback, and
  `compose`. Handlers are invoked through a `run` parameter: what an
  application function (or a nested router) answers is outside the model.
 */
module LegacyDispatch {
  import opened Wrappers
  import opened Strings
  import opened Paths
  import opened Objects
  import opened Legacy

  /**
    The request fields the legacy router reads and writes: `method`,
    `url.pathname`, the segments still to route (`routeSegments`, absent
    until a router computes them) and `context`.
   */
  datatype LRequest = LRequest(verb: Option<string>, pathname: string, segments: Option<seq<string>>, context: map<string, string>)

  /** A handler's answer: falsy (`null`, `undefined`), a response, or the internal-error response. */
  datatype Response = NoResponse | Reply(id: nat) | InternalError(reason: string)

  /** Where `getHandlerWithMethod` stopped: the value reached (`None` for `null` or `undefined`), the segments left, the context. */
  datatype Walked = Walked(found: Option<Trie>, rest: seq<string>, context: map<string, string>)

  /** The handler choice of `getHandler`, with the request as the walks left it. */
  datatype Selected = Selected(handler: Option<Trie>, request: LRequest)

  /**
    `getHandlerWithMethod(node, request)`: a function, or running out of
    segments, ends the walk at the current value; otherwise one segment is
    consumed, and a `global` entry takes it whatever literal keys exist,
    binding its name to the segment; a missing literal yields `null`. Walking
    from `undefined` with segments left throws.
   */
  function Walk(node: Option<Trie>, segments: seq<string>, context: map<string, string>): (r: Outcome<Walked>)
    ensures r.Threw? <==> node.None? && segments != []
    ensures r.Ok? ==> |r.value.rest| <= |segments|
    ensures r.Ok? && r.value.found.Some? && r.value.found.value.Node? ==> r.value.rest == []
    ensures r.Ok? ==> context.Keys <= r.value.context.Keys
    ensures (node.Some? && node.value.Leaf?) || segments == [] ==> r == Ok(Walked(node, segments, context))
    ensures (node.Some? && node.value.Node? && segments != [] && GlobalOf(node.value.slots).None?
             && ChildOf(node.value.slots, segments[0]).None?) ==> r == Ok(Walked(None, segments[1..], context))
    decreases |segments|
  {
    if (node.Some? && node.value.Leaf?) || segments == [] then Ok(Walked(node, segments, context))
    else if node.None? then Threw("TypeError: cannot read a property of undefined")
    else
      var slots, value := node.value.slots, segments[0];
      match GlobalOf(slots)
      case Some(g) => Walk(Some(g.parts), segments[1..], context[g.name := value])
      case None =>
        match ChildOf(slots, value)
        case Some(c) => Walk(Some(c), segments[1..], context)
        case None => Ok(Walked(None, segments[1..], context))
  }

  /**
    A `global` entry takes the next segment whatever literal keys the node
    holds: its name is bound to the segment and the walk goes on in `parts`.
   */
  lemma WalkGlobalFirst(slots: seq<Slot>, segments: seq<string>, context: map<string, string>)
    requires segments != [] && GlobalOf(slots).Some?
    ensures var g := GlobalOf(slots).value;
      Walk(Some(Node(slots)), segments, context) == Walk(Some(g.parts), segments[1..], context[g.name := segments[0]])
  {
  }

  /** Without a `global` entry, a literal key equal to the segment is followed and nothing is bound. */
  lemma WalkLiteral(slots: seq<Slot>, segments: seq<string>, context: map<string, string>)
    requires segments != [] && GlobalOf(slots).None? && ChildOf(slots, segments[0]).Some?
    ensures Walk(Some(Node(slots)), segments, context) == Walk(ChildOf(slots, segments[0]), segments[1..], context)
  {
  }

  /**
    With `/user/test` and `/user/:id` declared, in that order, the request
    `/user/test/` reaches the handler of `/user/:id` with `id` bound to
    `test`: the `global` entry under `user` takes the segment first.
   */
  lemma UserTestTakesParameter(t: Trie, values: seq<string>)
    requires t == AddHandler(AddHandler(Node([]), ["user", "test", ""], Fn(1)), ["user", ":id", ""], Fn(2))
    requires values == ["user", "test", ""]
    ensures Walk(Some(t), values, map[]) == Ok(Walked(Some(Leaf(Fn(2))), [], map["id" := "test"]))
  {
    SiblingTrie();
    var end1, end2 := Node([Lit("", Leaf(Fn(1)))]), Node([Lit("", Leaf(Fn(2)))]);
    var user := Node([Lit("test", end1), Glob("id", end2)]);
    assert t == Node([Lit("user", user)]);
    WalkLiteral(t.slots, values, map[]);
    WalkGlobalFirst(user.slots, values[1..], map[]);
    assert values[1..][1..] == [""];
    WalkLiteral(end2.slots, [""], map["id" := "test"]);
  }

  /** Request segments `values` fit a route's `segments`: same count, literals equal. */
  predicate Instance(segments: seq<string>, values: seq<string>) {
    |segments| == |values| && forall i :: 0 <= i < |segments| && !IsParam(segments[i]) ==> values[i] == segments[i]
  }

  /** The context after binding each parameter of the route to its value, left to right. */
  function BindAll(segments: seq<string>, values: seq<string>, context: map<string, string>): map<string, string>
    requires |segments| == |values|
    decreases |segments|
  {
    if segments == [] then context
    else BindAll(segments[1..], values[1..],
      if IsParam(segments[0]) then context[ParamName(segments[0]) := values[0]] else context)
  }

  /**
    Inserting along `segments` into `t` yields a reachable leaf: every node
    on the way is an object, and no literal step meets a `global` entry
    (which would take the segment first).
   */
  predicate Clear(t: Trie, segments: seq<string>)
    decreases |segments|
  {
    segments == [] ||
    (t.Node? &&
      if IsParam(segments[0]) then Clear(PartsOrEmpty(t.slots), segments[1..])
      else GlobalOf(t.slots).None? && Clear(ChildOrEmpty(t.slots, segments[0]), segments[1..]))
  }

  /** Every route is clear in an empty trie. */
  lemma {:induction false} ClearInEmpty(segments: seq<string>)
    ensures Clear(Node([]), segments)
    decreases |segments|
  {
    if segments != [] {
      ClearInEmpty(segments[1..]);
    }
  }

  /**
    Insertion then lookup: after `addHandler` along a clear route, walking
    any request segments that fit the route reaches the inserted handler with
    nothing left over and every parameter bound.
   */
  lemma {:induction false} WalkInserted(t: Trie, segments: seq<string>, values: seq<string>, h: LHandler, context: map<string, string>)
    requires Clear(t, segments) && Instance(segments, values)
    ensures Walk(Some(AddHandler(t, segments, h)), values, context) == Ok(Walked(Some(Leaf(h)), [], BindAll(segments, values, context)))
    decreases |segments|
  {
    if segments != [] {
      var r := AddHandler(t, segments, h);
      assert Instance(segments[1..], values[1..]) by {
        forall i | 0 <= i < |segments[1..]| && !IsParam(segments[1..][i]) ensures values[1..][i] == segments[1..][i] {
          assert segments[1..][i] == segments[i + 1];
        }
      }
      if IsParam(segments[0]) {
        WalkInserted(PartsOrEmpty(t.slots), segments[1..], values[1..], h, context[ParamName(segments[0]) := values[0]]);
      } else {
        assert values[0] == segments[0];
        WalkInserted(ChildOrEmpty(t.slots, segments[0]), segments[1..], values[1..], h, context);
      }
    }
  }

  /** `request.routeSegments || getRouteSegments(addTrailingSlash(request.url.pathname))` */
  function RequestSegments(request: LRequest): (r: seq<string>)
    ensures request.segments.Some? ==> r == request.segments.value
  {
    match request.segments
    case Some(s) => s
    case None => RouteSegments(AddTrailingSlash(request.pathname))
  }

  /**
    The segments a legacy router routes a path on: the path's non-empty
    segments, which the current router matches on too, then the empty
    segment the added trailing slash leaves, under which handlers are kept.
   */
  lemma PathSegments(path: string)
    requires StartsWith(path, "/")
    ensures RouteSegments(AddTrailingSlash(path)) != []
    ensures LastSegment(RouteSegments(AddTrailingSlash(path))) == ""
    ensures NonEmpty(RouteSegments(AddTrailingSlash(path))) == Segments(path)
  {
    if path == "/" {
      RelativeRouteAtRoot();
      assert NonEmpty([""]) == [];
      SegmentsLeadingSlash("");
      assert "/" + "" == "/";
      SegmentsAround("", "");
      assert Segments("") == [];
      return;
    }
    var q := AddTrailingSlash(path);
    var mid := q[1..|q| - 1];
    StartsWithChar(q, '/');
    EndsWithChar(q, '/');
    assert q == "/" + mid + "/";
    SlashedSplit(mid);
    NonEmptyAppend(Split(mid, '/'), [""]);
    assert NonEmpty([""]) == [];
    SegmentsLeadingSlash(mid);
    if path != "/" + mid {
      assert path == "/" + mid + "/";
      SegmentsAround("/" + mid, "");
      assert Segments("") == [];
    }
  }

  /** The pieces of a path wrapped in slashes: those of the inside, then the empty last one. */
  lemma SlashedSplit(mid: string)
    ensures RouteSegments("/" + mid + "/") == Split(mid, '/') + [""]
  {
    assert "/" + mid + "/" == "" + ['/'] + (mid + ['/'] + "");
    SplitAround("", mid + ['/'] + "", '/');
    SplitAround(mid, "", '/');
    assert Split("", '/') == [""];
  }

  function LastSegment(s: seq<string>): string
    requires s != []
  {
    s[|s| - 1]
  }

  /**
    `computeRouteRequest`: the segments an enclosing router left, or those of
    the path; a copy of the context; everything else as given.
   */
  function ComputeRouteRequest(raw: LRequest): (r: LRequest)
    ensures r.segments == Some(RequestSegments(raw))
    ensures r.verb == raw.verb && r.pathname == raw.pathname && r.context == raw.context
  {
    raw.(segments := Some(RequestSegments(raw)))
  }

  /** `removeSegments`: a request with no segment left loses the field, so a nested router recomputes it. */
  function RemoveSegments(request: LRequest): (r: LRequest)
    requires request.segments.Some?
    ensures request.segments.value == [] ==> r == request.(segments := None)
    ensures request.segments.value != [] ==> r == request
  {
    if request.segments.value == [] then request.(segments := None) else request
  }

  /** `request.method ? routesSwitch[request.method] : {}` */
  function MethodNode(table: Table, verb: Option<string>): (r: Option<Trie>)
    ensures r.None? <==> verb.Some? && verb.value != "" && verb.value !in Keys(table)
    ensures verb.Some? && verb.value != "" && r.Some? ==> Prop(verb.value, r.value) in table
    ensures verb.None? || verb.value == "" ==> r == Some(Node([]))
  {
    if verb.Some? && verb.value != "" then ValueOf(table, verb.value) else Some(Node([]))
  }

  /** The same with the `|| {}` the `ANY` lookup has. */
  function MethodNodeOrEmpty(table: Table, verb: Option<string>): (r: Option<Trie>)
    ensures r.Some?
    ensures MethodNode(table, verb).Some? ==> r == MethodNode(table, verb)
  {
    if verb.Some? && verb.value != "" then Some(TrieOrEmpty(table, verb.value)) else Some(Node([]))
  }

  /**
    `getHandler` given the method node: the `ANY` trie (or `{}`) is walked
    first; only when that reaches nothing is the method node walked, from
    the original segments but with the context the first walk bound.
   */
  function GetHandlerFrom(request: LRequest, table: Table, methodNode: Option<Trie>): (r: Outcome<Selected>)
    requires request.segments.Some?
    ensures var a := Walk(Some(TrieOrEmpty(table, "ANY")), request.segments.value, request.context).value;
      && (a.found.Some? ==> r == Ok(Selected(a.found, request.(segments := Some(a.rest), context := a.context))))
      && (a.found.None? ==> match Walk(methodNode, request.segments.value, a.context)
          case Threw(e) => r == Threw(e)
          case Ok(m) => r == Ok(Selected(m.found, request.(segments := Some(m.rest), context := m.context))))
    ensures r.Ok? ==> request.context.Keys <= r.value.request.context.Keys
  {
    var segments := request.segments.value;
    var a := Walk(Some(TrieOrEmpty(table, "ANY")), segments, request.context).value;
    if a.found.Some? then Ok(Selected(a.found, request.(segments := Some(a.rest), context := a.context)))
    else
      match Walk(methodNode, segments, a.context)
      case Threw(e) => Threw(e)
      case Ok(m) => Ok(Selected(m.found, request.(segments := Some(m.rest), context := m.context)))
  }

  /** `getHandler(request, routesSwitch)` as written. */
  function GetHandler(request: LRequest, table: Table): (r: Outcome<Selected>)
    requires request.segments.Some?
    ensures r.Threw? <==>
      Walk(Some(TrieOrEmpty(table, "ANY")), request.segments.value, request.context).value.found.None?
      && MethodNode(table, request.verb).None? && request.segments.value != []
  {
    GetHandlerFrom(request, table, MethodNode(table, request.verb))
  }

  /** `getHandler` with a method nobody declared walking `{}`, as the `ANY` lookup does. */
  function GetHandlerFixed(request: LRequest, table: Table): (r: Outcome<Selected>)
    requires request.segments.Some?
    ensures r.Ok?
    ensures GetHandler(request, table).Ok? ==> r == GetHandler(request, table)
  {
    GetHandlerFrom(request, table, MethodNodeOrEmpty(table, request.verb))
  }

  /**
    `responseOrNotFound`: a falsy response is replaced by what the
    `NOT_FOUND` handler answers, when there is one.
   */
  function ResponseOrNotFound(table: Table, request: LRequest, response: Response,
                              run: (LHandler, LRequest) -> Response): (r: Outcome<Response>)
    ensures !response.NoResponse? ==> r == Ok(response)
    ensures ValueOf(table, "NOT_FOUND").None? ==> r == Ok(response)
    ensures response.NoResponse? && ValueOf(table, "NOT_FOUND").Some? && ValueOf(table, "NOT_FOUND").value.Leaf? ==>
      r == Ok(run(ValueOf(table, "NOT_FOUND").value.handler, request))
  {
    if response.NoResponse? && ValueOf(table, "NOT_FOUND").Some? then
      match ValueOf(table, "NOT_FOUND").value
      case Leaf(h) => Ok(run(h, request))
      case Node(_) => Threw("TypeError: not a function")
    else Ok(response)
  }

  /** An object, which is not callable, sits under `NOT_FOUND` (never so in a built table). */
  predicate NotFoundIsObject(table: Table) {
    ValueOf(table, "NOT_FOUND").Some? && ValueOf(table, "NOT_FOUND").value.Node?
  }

  /**
    What follows the handler choice in `routeRequest`: a function found is
    called with the request (without segments once none are left) and a
    falsy answer falls back to `NOT_FOUND`; nothing found falls back at once;
    an object found is not callable.
   */
  function Respond(table: Table, selected: Selected, run: (LHandler, LRequest) -> Response): (r: Outcome<Response>)
    requires selected.request.segments.Some?
    ensures selected.handler.None? ==> r == ResponseOrNotFound(table, selected.request, NoResponse, run)
    ensures selected.handler.Some? && selected.handler.value.Leaf? ==>
      var final := RemoveSegments(selected.request);
      r == ResponseOrNotFound(table, final, run(selected.handler.value.handler, final), run)
    ensures selected.handler.Some? && selected.handler.value.Node? ==> r.Threw?
    ensures r.Threw? ==> (selected.handler.Some? && selected.handler.value.Node?) || NotFoundIsObject(table)
  {
    match selected.handler
    case None => ResponseOrNotFound(table, selected.request, NoResponse, run)
    case Some(Leaf(h)) =>
      var final := RemoveSegments(selected.request);
      ResponseOrNotFound(table, final, run(h, final), run)
    case Some(Node(_)) => Threw("TypeError: handler is not a function")
  }

  /** `routeRequest(routesSwitch)(rawRequest)` as written. */
  function RouteRequest(table: Table, raw: LRequest, run: (LHandler, LRequest) -> Response): (r: Outcome<Response>)
    ensures var request := ComputeRouteRequest(raw);
      match GetHandler(request, table)
      case Threw(e) => r == Threw(e)
      case Ok(s) => r == Respond(table, s, run)
  {
    var request := ComputeRouteRequest(raw);
    match GetHandler(request, table)
    case Threw(e) => Threw(e)
    case Ok(s) =>
      assert s.request.segments.Some?;
      Respond(table, s, run)
  }

  /**
    End to end, for any table: when the `ANY` walk reaches nothing and the
    walk of the request's method trie reaches a function with every segment
    consumed, that function is called with the context the walks bound and
    the segments field dropped; a falsy answer falls back to `NOT_FOUND`.
   */
  lemma RouteRequestWalks(table: Table, raw: LRequest, run: (LHandler, LRequest) -> Response,
                          t: Trie, h: LHandler, bound: map<string, string>)
    requires raw.verb.Some? && raw.verb.value != "" && ValueOf(table, raw.verb.value) == Some(t)
    requires var a := Walk(Some(TrieOrEmpty(table, "ANY")), RequestSegments(raw), raw.context).value;
      a.found.None? && Walk(Some(t), RequestSegments(raw), a.context) == Ok(Walked(Some(Leaf(h)), [], bound))
    ensures var final := raw.(segments := None, context := bound);
      && RouteRequest(table, raw, run) == ResponseOrNotFound(table, final, run(h, final), run)
      && (!run(h, final).NoResponse? ==> RouteRequest(table, raw, run) == Ok(run(h, final)))
  {
    var request := ComputeRouteRequest(raw);
    assert GetHandler(request, table) == Ok(Selected(Some(Leaf(h)), request.(segments := Some([]), context := bound)));
  }

  /**
    On a table without `ANY` routes, a request with a route's method whose
    segments fit the route reaches the handler inserted along it, with every
    parameter bound in the context.
   */
  lemma RouteRequestReaches(table: Table, raw: LRequest, run: (LHandler, LRequest) -> Response,
                            t: Trie, segments: seq<string>, h: LHandler)
    requires ValueOf(table, "ANY").None?
    requires raw.verb.Some? && raw.verb.value != ""
    requires ValueOf(table, raw.verb.value) == Some(AddHandler(t, segments, h))
    requires segments != [] && Clear(t, segments) && Instance(segments, RequestSegments(raw))
    ensures var final := raw.(segments := None, context := BindAll(segments, RequestSegments(raw), raw.context));
      && RouteRequest(table, raw, run) == ResponseOrNotFound(table, final, run(h, final), run)
      && (!run(h, final).NoResponse? ==> RouteRequest(table, raw, run) == Ok(run(h, final)))
  {
    var values := RequestSegments(raw);
    assert TrieOrEmpty(table, "ANY") == Node([]);
    assert Walk(Some(Node([])), values, raw.context) == Ok(Walked(None, values[1..], raw.context));
    WalkInserted(t, segments, values, h, raw.context);
    RouteRequestWalks(table, raw, run, AddHandler(t, segments, h), h, BindAll(segments, values, raw.context));
  }

  /**
    A route leaves the request's path at a literal segment, before any
    parameter of its own: inserting it cannot change where that request goes.
   */
  predicate ForksAway(route: seq<string>, values: seq<string>)
    decreases |route|
  {
    route != [] && values != [] && !IsParam(route[0]) &&
    (route[0] != values[0] || ForksAway(route[1..], values[1..]))
  }

  /** Inserting a route that forks away from a request keeps the function the request reached. */
  lemma {:induction false} WalkPastFork(t: Trie, route: seq<string>, h2: LHandler, values: seq<string>,
                                        context: map<string, string>, h: LHandler, bound: map<string, string>)
    requires ForksAway(route, values)
    requires Walk(Some(t), values, context) == Ok(Walked(Some(Leaf(h)), [], bound))
    ensures Walk(Some(AddHandler(t, route, h2)), values, context) == Ok(Walked(Some(Leaf(h)), [], bound))
    decreases |route|
  {
    if t.Node? {
      var r := AddHandler(t, route, h2);
      if GlobalOf(t.slots).Some? {
        WalkGlobalFirst(t.slots, values, context);
        WalkGlobalFirst(r.slots, values, context);
      } else {
        var c := ChildOf(t.slots, values[0]);
        assert c.Some?;
        WalkLiteral(t.slots, values, context);
        WalkLiteral(r.slots, values, context);
        if route[0] == values[0] {
          WalkPastFork(c.value, route[1..], h2, values[1..], context, h, bound);
        }
      }
    }
  }

  /** The same for a run of later routes that all fork away from the request. */
  lemma {:induction false} WalkPastForks(t: Trie, later: seq<Matcher>, values: seq<string>,
                                         context: map<string, string>, h: LHandler, bound: map<string, string>)
    requires forall j :: 0 <= j < |later| ==> ForksAway(RouteSegments(later[j].route), values)
    requires Walk(Some(t), values, context) == Ok(Walked(Some(Leaf(h)), [], bound))
    ensures Walk(Some(InsertAll(t, later)), values, context) == Ok(Walked(Some(Leaf(h)), [], bound))
    decreases |later|
  {
    if later != [] {
      var next := AddHandler(t, RouteSegments(later[0].route), later[0].handler);
      WalkPastFork(t, RouteSegments(later[0].route), later[0].handler, values, context, h, bound);
      assert forall j :: 0 <= j < |later[1..]| ==> later[1..][j] == later[j + 1];
      WalkPastForks(next, later[1..], values, context, h, bound);
    }
  }

  /** Inserting a run of matchers passes through the insertion of its `i`-th one. */
  lemma InsertAllAt(t: Trie, xs: seq<Matcher>, i: nat)
    requires i < |xs|
    ensures InsertAll(t, xs)
      == InsertAll(AddHandler(InsertAll(t, xs[..i]), RouteSegments(xs[i].route), xs[i].handler), xs[i + 1..])
  {
    var m := xs[i];
    assert xs == xs[..i] + [m] + xs[i + 1..];
    InsertAllAppend(t, xs[..i] + [m], xs[i + 1..]);
    InsertAllAppend(t, xs[..i], [m]);
    assert [m][1..] == [];
  }

  /** Inserting two runs of matchers is inserting the first, then the second. */
  lemma {:induction false} InsertAllAppend(t: Trie, a: seq<Matcher>, b: seq<Matcher>)
    ensures InsertAll(t, a + b) == InsertAll(InsertAll(t, a), b)
    decreases |a|
  {
    if a == [] {
      assert a + b == b;
    } else {
      assert (a + b)[0] == a[0] && (a + b)[1..] == a[1..] + b;
      InsertAllAppend(AddHandler(t, RouteSegments(a[0].route), a[0].handler), a[1..], b);
    }
  }

  /**
    The same for a table built from matchers: the `i`-th matcher of the
    request's method is reached by a request whose segments fit its route,
    when the earlier matchers of that method leave its route clear, every
    later one forks away from the request, and the `ANY` routes reach
    nothing. Its handler runs with the parameters bound on top of what the
    `ANY` walk bound.
   */
  lemma RouteRequestBuilt(ms: seq<Matcher>, i: nat, raw: LRequest, run: (LHandler, LRequest) -> Response)
    requires raw.verb.Some? && raw.verb.value != "" && raw.verb.value != "NOT_FOUND"
    requires i < |OfVerb(ms, raw.verb.value)|
    requires var xs, values := OfVerb(ms, raw.verb.value), RequestSegments(raw);
      && Clear(InsertAll(Node([]), xs[..i]), RouteSegments(xs[i].route))
      && Instance(RouteSegments(xs[i].route), values)
      && (forall j :: i < j < |xs| ==> ForksAway(RouteSegments(xs[j].route), values))
      && Walk(Some(TrieOrEmpty(BuildTable(ms), "ANY")), values, raw.context).value.found.None?
    ensures var xs, values := OfVerb(ms, raw.verb.value), RequestSegments(raw);
      var a := Walk(Some(TrieOrEmpty(BuildTable(ms), "ANY")), values, raw.context).value;
      var final := raw.(segments := None, context := BindAll(RouteSegments(xs[i].route), values, a.context));
      RouteRequest(BuildTable(ms), raw, run) == ResponseOrNotFound(BuildTable(ms), final, run(xs[i].handler, final), run)
  {
    var v, table := raw.verb.value, BuildTable(ms);
    var xs, values := OfVerb(ms, v), RequestSegments(raw);
    var a := Walk(Some(TrieOrEmpty(table, "ANY")), values, raw.context).value;
    BuildTableShape(ms, v);
    InsertedReached(xs, i, values, a.context);
    RouteRequestWalks(table, raw, run, InsertAll(Node([]), xs), xs[i].handler,
                      BindAll(RouteSegments(xs[i].route), values, a.context));
  }

  /**
    In the trie a method's matchers build, request segments that fit the
    `i`-th route reach its handler with its parameters bound, when the
    earlier routes leave it clear and every later one forks away.
   */
  lemma InsertedReached(xs: seq<Matcher>, i: nat, values: seq<string>, context: map<string, string>)
    requires i < |xs|
    requires Clear(InsertAll(Node([]), xs[..i]), RouteSegments(xs[i].route)) && Instance(RouteSegments(xs[i].route), values)
    requires forall j :: i < j < |xs| ==> ForksAway(RouteSegments(xs[j].route), values)
    ensures Walk(Some(InsertAll(Node([]), xs)), values, context)
      == Ok(Walked(Some(Leaf(xs[i].handler)), [], BindAll(RouteSegments(xs[i].route), values, context)))
  {
    var m, t0 := xs[i], InsertAll(Node([]), xs[..i]);
    var segs := RouteSegments(m.route);
    var bound := BindAll(segs, values, context);
    InsertAllAt(Node([]), xs, i);
    WalkInserted(t0, segs, values, m.handler, context);
    var later := xs[i + 1..];
    forall j | 0 <= j < |later| ensures ForksAway(RouteSegments(later[j].route), values) {
      assert later[j] == xs[i + 1 + j];
    }
    WalkPastForks(AddHandler(t0, segs, m.handler), later, values, context, m.handler, bound);
  }

  /**
    A request whose first segment is neither a literal key nor taken by a
    `global` entry of its method's trie (on a table without `ANY` routes)
    goes to the `NOT_FOUND` handler, with that segment consumed and the
    context untouched.
   */
  lemma RouteRequestFallback(table: Table, raw: LRequest, run: (LHandler, LRequest) -> Response,
                             slots: seq<Slot>, h: LHandler)
    requires ValueOf(table, "ANY").None? && ValueOf(table, "NOT_FOUND") == Some(Leaf(h))
    requires raw.verb.Some? && raw.verb.value != "" && ValueOf(table, raw.verb.value) == Some(Node(slots))
    requires RequestSegments(raw) != [] && GlobalOf(slots).None? && ChildOf(slots, RequestSegments(raw)[0]).None?
    ensures RouteRequest(table, raw, run) == Ok(run(h, raw.(segments := Some(RequestSegments(raw)[1..]))))
  {
    var values := RequestSegments(raw);
    var request := ComputeRouteRequest(raw);
    assert TrieOrEmpty(table, "ANY") == Node([]);
    assert Walk(Some(Node([])), values, raw.context) == Ok(Walked(None, values[1..], raw.context));
    assert Walk(Some(Node(slots)), values, raw.context) == Ok(Walked(None, values[1..], raw.context));
    assert GetHandler(request, table) == Ok(Selected(None, request.(segments := Some(values[1..]))));
  }

  /** `routeRequest` with the corrected method lookup. */
  function RouteRequestFixed(table: Table, raw: LRequest, run: (LHandler, LRequest) -> Response): (r: Outcome<Response>)
    ensures r.Threw? ==> GetHandlerFixed(ComputeRouteRequest(raw), table).value.handler.Some? || NotFoundIsObject(table)
    ensures GetHandlerFixed(ComputeRouteRequest(raw), table).value.handler.None? ==>
      r == ResponseOrNotFound(table, GetHandlerFixed(ComputeRouteRequest(raw), table).value.request, NoResponse, run)
    ensures RouteRequest(table, raw, run).Ok? ==> r == RouteRequest(table, raw, run)
  {
    var s := GetHandlerFixed(ComputeRouteRequest(raw), table).value;
    assert s.request.segments.Some?;
    Respond(table, s, run)
  }

  /**
    A request for a method that no route declares, on a table without
    `ANY` routes, throws instead of reaching the not-found handler: with
    `GET /a` declared, `POST /a` throws.
   */
  lemma UndeclaredMethodThrows(run: (LHandler, LRequest) -> Response)
    ensures var table := BuildTable([Legacy.Get("/a", Fn(1)), Legacy.NotFound(Fn(2))]);
      var raw := LRequest(Some("POST"), "/a", None, map[]);
      RouteRequest(table, raw, run).Threw?
      && RouteRequestFixed(table, raw, run) == Ok(run(Fn(2), LRequest(Some("POST"), "/a", Some([""]), map[])))
  {
    var table := GetAndNotFoundTable();
    UndeclaredOriginal(table, run);
    UndeclaredFixed(table, run);
  }

  /** As written, `POST /a` walks the missing `POST` trie and throws. */
  lemma UndeclaredOriginal(table: Table, run: (LHandler, LRequest) -> Response)
    requires table == [Prop("GET", AddHandler(Node([]), ["a", ""], Fn(1))), Prop("NOT_FOUND", Leaf(Fn(2)))]
    ensures RouteRequest(table, LRequest(Some("POST"), "/a", None, map[]), run).Threw?
  {
    var segs := SlashASegments();
    assert Keys(table) == ["GET", "NOT_FOUND"];
    UndeclaredThrows(table, LRequest(Some("POST"), "/a", None, map[]), run);
  }

  /**
    As written, on a table without `ANY` routes, a request with segments
    whose method has no trie throws, whatever else the table holds.
   */
  lemma UndeclaredThrows(table: Table, raw: LRequest, run: (LHandler, LRequest) -> Response)
    requires ValueOf(table, "ANY").None?
    requires raw.verb.Some? && raw.verb.value != "" && raw.verb.value !in Keys(table)
    requires RequestSegments(raw) != []
    ensures RouteRequest(table, raw, run).Threw?
  {
    var values := RequestSegments(raw);
    var request := ComputeRouteRequest(raw);
    assert TrieOrEmpty(table, "ANY") == Node([]);
    assert Walk(Some(Node([])), values, raw.context) == Ok(Walked(None, values[1..], raw.context));
    assert MethodNode(table, raw.verb).None?;
    assert GetHandler(request, table).Threw?;
  }

  /** Corrected, `POST /a` walks `{}` and reaches the not-found handler. */
  lemma UndeclaredFixed(table: Table, run: (LHandler, LRequest) -> Response)
    requires table == [Prop("GET", AddHandler(Node([]), ["a", ""], Fn(1))), Prop("NOT_FOUND", Leaf(Fn(2)))]
    ensures RouteRequestFixed(table, LRequest(Some("POST"), "/a", None, map[]), run)
      == Ok(run(Fn(2), LRequest(Some("POST"), "/a", Some([""]), map[])))
  {
    var segs := SlashASegments();
    assert TrieOrEmpty(table, "ANY") == Node([]);
    assert MethodNodeOrEmpty(table, Some("POST")) == Some(Node([]));
    var request := ComputeRouteRequest(LRequest(Some("POST"), "/a", None, map[]));
    assert request.segments == Some(segs);
    assert Walk(Some(Node([])), segs, map[]) == Ok(Walked(None, [""], map[]));
    assert GetHandlerFixed(request, table) == Ok(Selected(None, request.(segments := Some([""]))));
  }

  /** The table of `GET /a` and a not-found handler. */
  function GetAndNotFoundTable(): (r: Table)
    ensures BuildTable([Legacy.Get("/a", Fn(1)), Legacy.NotFound(Fn(2))]) == r
    ensures r == [Prop("GET", AddHandler(Node([]), ["a", ""], Fn(1))), Prop("NOT_FOUND", Leaf(Fn(2)))]
  {
    var m1, m2 := Legacy.Get("/a", Fn(1)), Legacy.NotFound(Fn(2));
    var t1 := AddHandler(Node([]), ["a", ""], Fn(1));
    HashGetA(t1);
    HashNotFound(t1);
    BuildTwo([], m1, m2);
    [Prop("GET", t1), Prop("NOT_FOUND", Leaf(Fn(2)))]
  }

  /** Reducing two matchers is two `createRouterHash` steps. */
  lemma BuildTwo(acc: Table, a: Matcher, b: Matcher)
    ensures BuildFrom(acc, [a, b]) == CreateRouterHash(CreateRouterHash(acc, a), b)
  {
    var t := CreateRouterHash(acc, a);
    assert [a, b][1..] == [b];
    assert BuildFrom(acc, [a, b]) == BuildFrom(t, [b]);
    assert [b][1..] == [];
    assert BuildFrom(t, [b]) == BuildFrom(CreateRouterHash(t, b), []);
  }

  /** `GET /a` into the empty table. */
  lemma HashGetA(t1: Trie)
    requires t1 == AddHandler(Node([]), ["a", ""], Fn(1))
    ensures CreateRouterHash([], Legacy.Get("/a", Fn(1))) == [Prop("GET", t1)]
  {
    var segs := SlashASegments();
  }

  /** The not-found handler after `GET /a`. */
  lemma HashNotFound(t1: Trie)
    ensures CreateRouterHash([Prop("GET", t1)], Legacy.NotFound(Fn(2))) == [Prop("GET", t1), Prop("NOT_FOUND", Leaf(Fn(2)))]
  {
  }

  /** The segments of the path `/a`: `a`, then the empty segment of the trailing slash. */
  function SlashASegments(): (r: seq<string>)
    ensures RouteSegments(AddTrailingSlash("/a")) == r == ["a", ""]
  {
    assert AddTrailingSlash("/a") == "/a/";
    assert Split("/a/", '/') == ["", "a", ""] by {
      assert "/a/" == "" + ['/'] + ("a" + ['/'] + "");
      SplitAround("", "a" + ['/'] + "", '/');
      SplitAround("a", "", '/');
      SplitNoSeparator("", '/');
      SplitNoSeparator("a", '/');
    }
    ["a", ""]
  }

  /**
    `compose(handlers)(request)`: the first truthy answer in list order, or
    the internal error `compose` once the list is exhausted; its answer is
    never falsy.
   */
  function Compose(handlers: seq<LHandler>, request: LRequest, run: (LHandler, LRequest) -> Response): (r: Response)
    ensures !r.NoResponse?
    ensures (forall i :: 0 <= i < |handlers| ==> run(handlers[i], request).NoResponse?) ==> r == InternalError("compose")
    ensures (exists i :: 0 <= i < |handlers| && !run(handlers[i], request).NoResponse?) ==>
      exists i :: (0 <= i < |handlers| && r == run(handlers[i], request)
        && forall j :: 0 <= j < i ==> run(handlers[j], request).NoResponse?)
    decreases |handlers|
  {
    if handlers == [] then InternalError("compose")
    else
      var first := run(handlers[0], request);
      if !first.NoResponse? then first
      else
        var r := Compose(handlers[1..], request, run);
        assert forall i :: 1 <= i < |handlers| ==> handlers[i] == handlers[1..][i - 1];
        r
  }

  /** Composing two lists: the first list's answer unless all of it answers falsy. */
  lemma {:induction false} ComposeAppend(a: seq<LHandler>, b: seq<LHandler>, request: LRequest, run: (LHandler, LRequest) -> Response)
    ensures (forall i :: 0 <= i < |a| ==> run(a[i], request).NoResponse?) ==>
      Compose(a + b, request, run) == Compose(b, request, run)
    ensures (exists i :: 0 <= i < |a| && !run(a[i], request).NoResponse?) ==>
      Compose(a + b, request, run) == Compose(a, request, run)
    decreases |a|
  {
    if a == [] {
      assert a + b == b;
    } else {
      assert (a + b)[0] == a[0] && (a + b)[1..] == a[1..] + b;
      ComposeAppend(a[1..], b, request, run);
      if exists i :: 0 <= i < |a| && !run(a[i], request).NoResponse? {
        var i :| 0 <= i < |a| && !run(a[i], request).NoResponse?;
        if i > 0 {
          assert a[1..][i - 1] == a[i];
        }
      }
    }
  }
}
