/**
  Route building of the legacy trie router (src/index.ts): matcher builders
  and the per-method tries that `routes(...)` assembles from them.
 */
module Legacy {
  import opened Wrappers
  import opened Strings
  import opened Paths
  import opened Objects

  /**
    A handler the legacy router can hold: an application function, known by
    its identity, or the function `routes(...)` returns, which closes over
    the table it was built from.
   */
  datatype LHandler = Fn(id: nat) | RoutesFn(table: seq<Prop<Trie>>)

  /**
    A node of a per-method trie: a handler (a function), or an object with
    literal keys and at most one `global` parameter entry, in insertion order.
   */
  datatype Trie = Leaf(handler: LHandler) | Node(slots: seq<Slot>)

  /** A literal key and its subtree, or the `global` entry `{ name, parts }`. */
  datatype Slot = Lit(key: string, sub: Trie) | Glob(name: string, parts: Trie)

  /** The table `routes(...)` builds: one trie per method, and a handler under `NOT_FOUND`. */
  type Table = seq<Prop<Trie>>

  /** `{ method, route, handler }` */
  datatype Matcher = Matcher(verb: string, route: string, handler: LHandler)

  /** What `context` may be given after the endpoint. */
  datatype ContextArg = HandlerArg(handler: LHandler) | MatchersArg(matchers: seq<Matcher>) | OtherArg

  /**
    `addTrailingSlash`: a string longer than one character ends with `/`
    afterwards, gaining it only when missing; shorter strings are kept.
   */
  function AddTrailingSlash(route: string): (r: string)
    ensures |route| <= 1 ==> r == route
    ensures |route| > 1 ==> EndsWith(r, "/")
    ensures r == route <==> |route| <= 1 || EndsWith(route, "/")
    ensures r != route ==> r == route + "/"
  {
    if |route| > 1 then
      if EndsWith(route, "/") then route else route + "/"
    else route
  }

  /** Adding the trailing slash twice is adding it once. */
  lemma AddTrailingSlashIdempotent(route: string)
    ensures AddTrailingSlash(AddTrailingSlash(route)) == AddTrailingSlash(route)
  {
  }

  /** `matcher(method)(route, handler)` */
  function MatcherFor(verb: string, route: string, handler: LHandler): (r: Matcher)
    ensures r.verb == verb && r.handler == handler
    ensures r.route == AddTrailingSlash(route)
    ensures |route| > 1 ==> EndsWith(r.route, "/")
  {
    Matcher(verb, AddTrailingSlash(route), handler)
  }

  function Get(route: string, handler: LHandler): (r: Matcher)
    ensures r.verb == "GET" && r.handler == handler && r.route == AddTrailingSlash(route)
  {
    MatcherFor("GET", route, handler)
  }

  function Post(route: string, handler: LHandler): (r: Matcher)
    ensures r.verb == "POST" && r.handler == handler && r.route == AddTrailingSlash(route)
  {
    MatcherFor("POST", route, handler)
  }

  function Patch(route: string, handler: LHandler): (r: Matcher)
    ensures r.verb == "PATCH" && r.handler == handler && r.route == AddTrailingSlash(route)
  {
    MatcherFor("PATCH", route, handler)
  }

  function Put(route: string, handler: LHandler): (r: Matcher)
    ensures r.verb == "PUT" && r.handler == handler && r.route == AddTrailingSlash(route)
  {
    MatcherFor("PUT", route, handler)
  }

  function Del(route: string, handler: LHandler): (r: Matcher)
    ensures r.verb == "DELETE" && r.handler == handler && r.route == AddTrailingSlash(route)
  {
    MatcherFor("DELETE", route, handler)
  }

  function Options(route: string, handler: LHandler): (r: Matcher)
    ensures r.verb == "OPTIONS" && r.handler == handler && r.route == AddTrailingSlash(route)
  {
    MatcherFor("OPTIONS", route, handler)
  }

  /** Unlike the current router's, the legacy `any` declares an `ANY` matcher. */
  function Any(route: string, handler: LHandler): (r: Matcher)
    ensures r.verb == "ANY" && r.handler == handler && r.route == AddTrailingSlash(route)
  {
    MatcherFor("ANY", route, handler)
  }

  /** `notFound(handler)`: a `NOT_FOUND` matcher with the empty route. */
  function NotFound(handler: LHandler): (r: Matcher)
    ensures r.verb == "NOT_FOUND" && r.route == "" && r.handler == handler
  {
    Matcher("NOT_FOUND", "", handler)
  }

  /**
    The legacy `removeTrailingSlash` of a matcher: the route `/` is kept,
    any other route loses its last character (`slice(0, -1)`), whatever it is.
   */
  function DropLastChar(m: Matcher): (r: Matcher)
    ensures r.verb == m.verb && r.handler == m.handler
    ensures m.route == "/" ==> r == m
    ensures m.route != "/" && m.route != "" ==> r.route + [m.route[|m.route| - 1]] == m.route
    ensures m.route == "" ==> r.route == ""
  {
    if m.route == "/" then m
    else if m.route == "" then m.(route := "")
    else m.(route := m.route[..|m.route| - 1])
  }

  /** `routes(matchers)`: the function closing over the table built from the matchers. */
  function RoutesOf(matchers: seq<Matcher>): (r: LHandler)
    ensures r.RoutesFn? && r.table == BuildTable(matchers)
  {
    RoutesFn(BuildTable(matchers))
  }

  /**
    `context(endpoint, routesOrHandler)`: an `ANY` matcher on the endpoint
    with its trailing slash added then one last character removed, holding
    the handler or the router of the matchers; anything else throws.
   */
  function Context(endpoint: string, arg: ContextArg): (r: Outcome<Matcher>)
    ensures r.Threw? <==> arg.OtherArg?
    ensures r.Threw? ==> r.error == "Context Error"
    ensures arg.HandlerArg? ==> r == Ok(Matcher("ANY", r.value.route, arg.handler))
    ensures arg.MatchersArg? ==> r == Ok(Matcher("ANY", r.value.route, RoutesOf(arg.matchers)))
    ensures r.Ok? && |endpoint| > 1 && !EndsWith(endpoint, "/") ==> r.value.route == endpoint
    ensures r.Ok? && |endpoint| > 1 && EndsWith(endpoint, "/") ==> r.value.route + "/" == endpoint
    ensures r.Ok? && |endpoint| <= 1 ==> r.value.route == if endpoint == "/" then "/" else ""
  {
    match arg
    case HandlerArg(h) => Ok(DropLastChar(Any(endpoint, h)))
    case MatchersArg(ms) => Ok(DropLastChar(Any(endpoint, RoutesOf(ms))))
    case OtherArg => Threw("Context Error")
  }

  /**
    `route.split('/').slice(1)`: everything after the first `/`, split on
    `/`; nothing when the route holds no `/`. A route without a leading `/`
    loses its first segment.
   */
  function RouteSegments(route: string): (r: seq<string>)
    ensures '/' !in route ==> r == []
    ensures forall i :: 0 <= i < |route| && route[i] == '/' && '/' !in route[..i] ==> Join(r, '/') == route[i + 1..]
    ensures StartsWith(route, "/") ==> Join(r, '/') == route[1..]
    ensures forall i :: 0 <= i < |r| ==> '/' !in r[i]
  {
    AfterFirstSlash(route);
    Split(route, '/')[1..]
  }

  /** The pieces after the first one are the split of the text after the first `/`. */
  lemma AfterFirstSlash(route: string)
    ensures '/' !in route ==> Split(route, '/')[1..] == []
    ensures forall i :: 0 <= i < |route| && route[i] == '/' && '/' !in route[..i] ==>
      Join(Split(route, '/')[1..], '/') == route[i + 1..]
    ensures StartsWith(route, "/") ==> Join(Split(route, '/')[1..], '/') == route[1..]
    ensures forall i :: 0 <= i < |Split(route, '/')[1..]| ==> '/' !in Split(route, '/')[1..][i]
  {
    var parts := Split(route, '/');
    if '/' !in route {
      SplitNoSeparator(route, '/');
    }
    forall i | 0 <= i < |route| && route[i] == '/' && '/' !in route[..i]
      ensures Join(parts[1..], '/') == route[i + 1..]
    {
      AfterSlashAt(route, i);
    }
    if StartsWith(route, "/") {
      StartsWithChar(route, '/');
      AfterSlashAt(route, 0);
    }
    forall i | 0 <= i < |parts[1..]|
      ensures '/' !in parts[1..][i]
    {
      assert parts[1..][i] == parts[i + 1];
    }
  }

  lemma AfterSlashAt(route: string, i: nat)
    requires i < |route| && route[i] == '/' && '/' !in route[..i]
    ensures Join(Split(route, '/')[1..], '/') == route[i + 1..]
  {
    var before, after := route[..i], route[i + 1..];
    assert route == before + ['/'] + after;
    SplitAround(before, after, '/');
    SplitNoSeparator(before, '/');
    assert Split(route, '/')[1..] == Split(after, '/');
  }

  /**
    A route declared without its leading `/` files its handler where the root
    route `/` does: `users` becomes `users/`, whose first segment is dropped.
   */
  lemma RelativeRouteAtRoot()
    ensures RouteSegments(AddTrailingSlash("users")) == RouteSegments(AddTrailingSlash("/")) == [""]
  {
    assert AddTrailingSlash("users") == "users" + ['/'] + "";
    SplitAround("users", "", '/');
    SplitNoSeparator("users", '/');
    assert AddTrailingSlash("/") == "" + ['/'] + "";
    SplitAround("", "", '/');
    assert Split("", '/') == [""];
  }

  /** The text before the first separator of a join is its first part. */
  lemma JoinHead(parts: seq<string>)
    requires |parts| >= 1 && forall i :: 0 <= i < |parts| ==> '/' !in parts[i]
    requires StartsWith(Join(parts, '/'), "/")
    ensures parts[0] == ""
  {
  }

  /** Dropping an empty first part drops the first separator of the join. */
  lemma JoinTail(parts: seq<string>)
    requires |parts| >= 1 && parts[0] == ""
    requires |Join(parts, '/')| >= 1
    ensures Join(parts[1..], '/') == Join(parts, '/')[1..]
  {
  }

  /** The `global` entry of a node, if it has one. */
  function GlobalOf(slots: seq<Slot>): (r: Option<Slot>)
    ensures r.Some? ==> r.value.Glob? && r.value in slots
    ensures r.None? <==> forall i :: 0 <= i < |slots| ==> !slots[i].Glob?
    decreases |slots|
  {
    if slots == [] then None
    else if slots[0].Glob? then Some(slots[0])
    else
      var r := GlobalOf(slots[1..]);
      assert forall i :: 1 <= i < |slots| ==> slots[i] == slots[1..][i - 1];
      r
  }

  /** `node[key]` for a literal key. */
  function ChildOf(slots: seq<Slot>, key: string): (r: Option<Trie>)
    ensures r.Some? ==> Lit(key, r.value) in slots
    ensures r.None? <==> forall i :: 0 <= i < |slots| ==> !(slots[i].Lit? && slots[i].key == key)
    decreases |slots|
  {
    if slots == [] then None
    else if slots[0].Lit? && slots[0].key == key then Some(slots[0].sub)
    else
      var r := ChildOf(slots[1..], key);
      assert forall i :: 1 <= i < |slots| ==> slots[i] == slots[1..][i - 1];
      r
  }

  /** `node[key] = sub`: an existing key keeps its place, a new one goes last. */
  function SetChild(slots: seq<Slot>, key: string, sub: Trie): (r: seq<Slot>)
    ensures ChildOf(r, key) == Some(sub)
    ensures forall k :: k != key ==> ChildOf(r, k) == ChildOf(slots, k)
    ensures GlobalOf(r) == GlobalOf(slots)
    decreases |slots|
  {
    if slots == [] then [Lit(key, sub)]
    else if slots[0].Lit? && slots[0].key == key then [Lit(key, sub)] + slots[1..]
    else
      var rest := SetChild(slots[1..], key, sub);
      assert ([slots[0]] + rest)[1..] == rest;
      [slots[0]] + rest
  }

  /** `node.global = { ...glob, name, parts }`: the entry keeps its place or goes last. */
  function SetGlobal(slots: seq<Slot>, name: string, parts: Trie): (r: seq<Slot>)
    ensures GlobalOf(r) == Some(Glob(name, parts))
    ensures forall k :: ChildOf(r, k) == ChildOf(slots, k)
    decreases |slots|
  {
    if slots == [] then [Glob(name, parts)]
    else if slots[0].Glob? then [Glob(name, parts)] + slots[1..]
    else
      var rest := SetGlobal(slots[1..], name, parts);
      assert ([slots[0]] + rest)[1..] == rest;
      [slots[0]] + rest
  }

  /** The subtree a literal key descends into: the existing child or a fresh `{}`. */
  function ChildOrEmpty(slots: seq<Slot>, key: string): Trie {
    match ChildOf(slots, key)
    case Some(c) => c
    case None => Node([])
  }

  /** The subtree a parameter descends into: the existing `global.parts` or a fresh `{}`. */
  function PartsOrEmpty(slots: seq<Slot>): Trie {
    match GlobalOf(slots)
    case Some(g) => g.parts
    case None => Node([])
  }

  /**
    `addHandler(node, segments, handler)`: with no segment left the handler
    itself takes the place; a literal segment descends under its own key and
    a `:name` segment under `global`, which takes the newest name. Keys set on
    a function are never read back by lookup or export, so descending into a
    leaf leaves it as it is.
   */
  function AddHandler(t: Trie, segments: seq<string>, handler: LHandler): (r: Trie)
    ensures segments == [] ==> r == Leaf(handler)
    ensures segments != [] && t.Leaf? ==> r == t
    ensures segments != [] && t.Node? ==> r.Node?
    ensures segments != [] && t.Node? && !IsParam(segments[0]) ==>
      GlobalOf(r.slots) == GlobalOf(t.slots)
      && (forall k :: k != segments[0] ==> ChildOf(r.slots, k) == ChildOf(t.slots, k))
      && ChildOf(r.slots, segments[0]) == Some(AddHandler(ChildOrEmpty(t.slots, segments[0]), segments[1..], handler))
    ensures segments != [] && t.Node? && IsParam(segments[0]) ==>
      (forall k :: ChildOf(r.slots, k) == ChildOf(t.slots, k))
      && GlobalOf(r.slots) == Some(Glob(ParamName(segments[0]), AddHandler(PartsOrEmpty(t.slots), segments[1..], handler)))
    decreases |segments|
  {
    if segments == [] then Leaf(handler)
    else
      match t
      case Leaf(_) => t
      case Node(slots) =>
        var part := segments[0];
        if IsParam(part) then
          Node(SetGlobal(slots, ParamName(part), AddHandler(PartsOrEmpty(slots), segments[1..], handler)))
        else
          Node(SetChild(slots, part, AddHandler(ChildOrEmpty(slots, part), segments[1..], handler)))
  }

  /** A segment is a parameter exactly when it starts with `:`. */
  lemma ParamByHead(segment: string)
    ensures IsParam(segment) <==> |segment| > 0 && segment[0] == ':'
  {
    if |segment| > 0 {
      assert segment[..1] == [segment[0]];
    }
  }

  /** The route `/` added to an empty node. */
  lemma AddEnd(h: LHandler)
    ensures AddHandler(Node([]), [""], h) == Node([Lit("", Leaf(h))])
  {
    assert !IsParam("");
    assert [""][1..] == [];
  }

  /** The GET trie of `[get('/user/test', f), get('/user/:id', g)]`. */
  lemma SiblingTrie()
    ensures AddHandler(AddHandler(Node([]), ["user", "test", ""], Fn(1)), ["user", ":id", ""], Fn(2))
      == Node([Lit("user", Node([Lit("test", Node([Lit("", Leaf(Fn(1)))])), Glob("id", Node([Lit("", Leaf(Fn(2)))]))]))])
  {
    var end1 := Node([Lit("", Leaf(Fn(1)))]);
    var end2 := Node([Lit("", Leaf(Fn(2)))]);
    AddEnd(Fn(1));
    AddEnd(Fn(2));
    ParamByHead("user");
    ParamByHead("test");
    ParamByHead(":id");
    assert ":id"[1..] == "id";
    assert ["user", "test", ""][1..] == ["test", ""] && ["test", ""][1..] == [""];
    assert ["user", ":id", ""][1..] == [":id", ""] && [":id", ""][1..] == [""];
    assert AddHandler(Node([]), ["test", ""], Fn(1)) == Node([Lit("test", end1)]);
    var first := Node([Lit("user", Node([Lit("test", end1)]))]);
    assert AddHandler(Node([]), ["user", "test", ""], Fn(1)) == first;
    var user := Node([Lit("test", end1), Glob("id", end2)]);
    assert GlobalOf([Lit("test", end1)]) == None;
    assert SetGlobal([Lit("test", end1)], "id", end2) == user.slots;
    assert AddHandler(Node([Lit("test", end1)]), [":id", ""], Fn(2)) == user;
    assert ChildOf(first.slots, "user") == Some(Node([Lit("test", end1)]));
  }

  /** `selectHandler`: `NOT_FOUND` keeps the handler itself, other methods insert it. */
  function SelectHandler(verb: string, t: Trie, route: string, handler: LHandler): (r: Trie)
    ensures verb == "NOT_FOUND" ==> r == Leaf(handler)
    ensures verb != "NOT_FOUND" ==> r == AddHandler(t, RouteSegments(route), handler)
  {
    if verb == "NOT_FOUND" then Leaf(handler)
    else AddHandler(t, RouteSegments(route), handler)
  }

  /** The method's trie so far, or a fresh `{}` (`acc[method] || {}`). */
  function TrieOrEmpty(table: Table, verb: string): Trie {
    match ValueOf(table, verb)
    case Some(t) => t
    case None => Node([])
  }

  /** `createRouterHash(acc, matcher)`: one matcher added under its method. */
  function CreateRouterHash(acc: Table, m: Matcher): (r: Table)
    ensures ValueOf(r, m.verb) == Some(SelectHandler(m.verb, TrieOrEmpty(acc, m.verb), m.route, m.handler))
    ensures Keys(r) == if m.verb in Keys(acc) then Keys(acc) else Keys(acc) + [m.verb]
    ensures forall other :: other != m.verb ==> ValueOf(r, other) == ValueOf(acc, other)
  {
    var t := SelectHandler(m.verb, TrieOrEmpty(acc, m.verb), m.route, m.handler);
    WithPropAll(acc, m.verb, t);
    WithProp(acc, m.verb, t)
  }

  /** Setting one method's trie leaves every other method's trie as it was. */
  lemma WithPropAll(acc: Table, key: string, t: Trie)
    ensures forall other :: other != key ==> ValueOf(WithProp(acc, key, t), other) == ValueOf(acc, other)
  {
    forall other | other != key
      ensures ValueOf(WithProp(acc, key, t), other) == ValueOf(acc, other)
    {
      WithPropOthers(acc, key, t, other);
    }
  }

  /** `allRoutes.reduce(createRouterHash, acc)` */
  function BuildFrom(acc: Table, matchers: seq<Matcher>): Table
    decreases |matchers|
  {
    if matchers == [] then acc
    else BuildFrom(CreateRouterHash(acc, matchers[0]), matchers[1..])
  }

  /** The table of `routes(matchers)`. */
  function BuildTable(matchers: seq<Matcher>): (r: Table)
    ensures forall verb :: verb in Keys(r) <==> OfVerb(matchers, verb) != []
    ensures UniqueKeys(r)
  {
    forall verb ensures verb in Keys(BuildFrom([], matchers)) <==> OfVerb(matchers, verb) != [] {
      BuildFromKeys([], matchers, verb);
    }
    BuildFromUnique([], matchers);
    BuildFrom([], matchers)
  }

  /** Each method is one property of the table. */
  lemma {:induction false} BuildFromUnique(acc: Table, matchers: seq<Matcher>)
    requires UniqueKeys(acc)
    ensures UniqueKeys(BuildFrom(acc, matchers))
    decreases |matchers|
  {
    if matchers != [] {
      var m := matchers[0];
      WithPropUnique(acc, m.verb, SelectHandler(m.verb, TrieOrEmpty(acc, m.verb), m.route, m.handler));
      BuildFromUnique(CreateRouterHash(acc, m), matchers[1..]);
    }
  }

  /** The matchers declared for one method, in order. */
  function OfVerb(matchers: seq<Matcher>, verb: string): (r: seq<Matcher>)
    ensures forall i :: 0 <= i < |r| ==> r[i].verb == verb
    ensures |r| <= |matchers|
    decreases |matchers|
  {
    if matchers == [] then []
    else (if matchers[0].verb == verb then [matchers[0]] else []) + OfVerb(matchers[1..], verb)
  }

  /** The trie a method's matchers build from `t`, each route inserted in order. */
  function InsertAll(t: Trie, matchers: seq<Matcher>): Trie
    decreases |matchers|
  {
    if matchers == [] then t
    else InsertAll(AddHandler(t, RouteSegments(matchers[0].route), matchers[0].handler), matchers[1..])
  }

  /** The last element of a non-empty sequence of matchers. */
  function Last(matchers: seq<Matcher>): Matcher
    requires matchers != []
  {
    matchers[|matchers| - 1]
  }

  /**
    Each method's entry depends only on that method's matchers: it is the
    trie they build, in declaration order, on top of what the table held;
    a method no matcher declares keeps its entry (or stays absent).
   */
  lemma {:induction false} BuildFromMethod(acc: Table, matchers: seq<Matcher>, verb: string)
    requires verb != "NOT_FOUND"
    ensures OfVerb(matchers, verb) == [] ==> ValueOf(BuildFrom(acc, matchers), verb) == ValueOf(acc, verb)
    ensures OfVerb(matchers, verb) != [] ==>
      ValueOf(BuildFrom(acc, matchers), verb) == Some(InsertAll(TrieOrEmpty(acc, verb), OfVerb(matchers, verb)))
    decreases |matchers|
  {
    if matchers != [] {
      var m := matchers[0];
      var next := CreateRouterHash(acc, m);
      BuildFromMethod(next, matchers[1..], verb);
      if m.verb != verb {
        WithPropOthers(acc, m.verb, SelectHandler(m.verb, TrieOrEmpty(acc, m.verb), m.route, m.handler), verb);
        assert OfVerb(matchers, verb) == OfVerb(matchers[1..], verb);
      } else {
        assert OfVerb(matchers, verb) == [m] + OfVerb(matchers[1..], verb);
        assert TrieOrEmpty(next, verb) == AddHandler(TrieOrEmpty(acc, verb), RouteSegments(m.route), m.handler);
      }
    }
  }

  /** The `NOT_FOUND` entry holds the last declared not-found handler, or is absent. */
  lemma {:induction false} BuildFromNotFound(acc: Table, matchers: seq<Matcher>)
    ensures OfVerb(matchers, "NOT_FOUND") == [] ==>
      ValueOf(BuildFrom(acc, matchers), "NOT_FOUND") == ValueOf(acc, "NOT_FOUND")
    ensures OfVerb(matchers, "NOT_FOUND") != [] ==>
      ValueOf(BuildFrom(acc, matchers), "NOT_FOUND") == Some(Leaf(Last(OfVerb(matchers, "NOT_FOUND")).handler))
    decreases |matchers|
  {
    if matchers != [] {
      var m := matchers[0];
      var next := CreateRouterHash(acc, m);
      BuildFromNotFound(next, matchers[1..]);
      if m.verb != "NOT_FOUND" {
        WithPropOthers(acc, m.verb, SelectHandler(m.verb, TrieOrEmpty(acc, m.verb), m.route, m.handler), "NOT_FOUND");
        assert OfVerb(matchers, "NOT_FOUND") == OfVerb(matchers[1..], "NOT_FOUND");
      } else {
        assert OfVerb(matchers, "NOT_FOUND") == [m] + OfVerb(matchers[1..], "NOT_FOUND");
      }
    }
  }

  /** The table has an entry for exactly the methods some matcher declares, each once. */
  lemma {:induction false} BuildFromKeys(acc: Table, matchers: seq<Matcher>, verb: string)
    ensures verb in Keys(BuildFrom(acc, matchers)) <==> verb in Keys(acc) || OfVerb(matchers, verb) != []
    decreases |matchers|
  {
    if matchers != [] {
      BuildFromKeys(CreateRouterHash(acc, matchers[0]), matchers[1..], verb);
      if matchers[0].verb == verb {
        assert OfVerb(matchers, verb) == [matchers[0]] + OfVerb(matchers[1..], verb);
      } else {
        assert OfVerb(matchers, verb) == OfVerb(matchers[1..], verb);
      }
    }
  }

  /**
    The table of `routes(matchers)`: each method other than `NOT_FOUND` maps
    to the trie its own matchers build from `{}`, `NOT_FOUND` to the last
    not-found handler, and undeclared methods are absent.
   */
  lemma BuildTableShape(matchers: seq<Matcher>, verb: string)
    ensures verb in Keys(BuildTable(matchers)) <==> OfVerb(matchers, verb) != []
    ensures verb != "NOT_FOUND" && OfVerb(matchers, verb) != [] ==>
      ValueOf(BuildTable(matchers), verb) == Some(InsertAll(Node([]), OfVerb(matchers, verb)))
    ensures verb == "NOT_FOUND" && OfVerb(matchers, verb) != [] ==>
      ValueOf(BuildTable(matchers), verb) == Some(Leaf(Last(OfVerb(matchers, verb)).handler))
  {
    BuildFromKeys([], matchers, verb);
    if verb == "NOT_FOUND" {
      BuildFromNotFound([], matchers);
    } else {
      BuildFromMethod([], matchers, verb);
    }
  }
}
