/**
  `getAllPaths` and `getSubPaths` (src/export-routes.ts): the URL patterns a
  method's JSON trie lists. The function as written and a corrected one that
  reads `global` where the trie puts it.
 */
module ExportPaths {
  import opened Wrappers
  import opened Strings
  import opened Objects
  import opened Paths
  import opened Legacy
  import opened JsonExport
  import opened ExportJson

  /** A computation that returns, throws, or never returns. */
  datatype Run<+T> = Done(value: T) | Failed(error: string) | Diverges

  /** The number of JSON nodes in a value: what the listing recursion consumes. */
  function Size(j: Json): (n: nat)
    ensures n >= 1
    decreases j, 1
  {
    match j
    case JsonStr(_) => 1
    case JsonObj(props) => 1 + PropsSize(props)
  }

  function PropsSize(props: seq<Prop<Json>>): nat
    decreases props, 0
  {
    if props == [] then 0 else 1 + Size(props[0].value) + PropsSize(props[1..])
  }

  function SizeOf(v: Option<Json>): nat {
    if v.Some? then Size(v.value) else 0
  }

  /** A property's value is smaller than the list that holds it. */
  lemma {:induction false} ValueOfSmaller(props: seq<Prop<Json>>, key: string)
    ensures ValueOf(props, key).Some? ==> Size(ValueOf(props, key).value) < PropsSize(props)
    decreases |props|
  {
    if props != [] && props[0].key != key {
      ValueOfSmaller(props[1..], key);
    }
  }

  /** `value[key]` on a JSON value; strings have none of the keys read here. */
  function Field(v: Json, key: string): (r: Option<Json>)
    ensures v.JsonStr? ==> r.None?
    ensures v.JsonObj? ==> r == ValueOf(v.props, key)
    ensures r.Some? ==> Size(r.value) < Size(v)
  {
    if v.JsonObj? then
      ValueOfSmaller(v.props, key);
      ValueOf(v.props, key)
    else None
  }

  /** JavaScript truthiness of a possibly missing JSON value. */
  predicate Truthy(v: Option<Json>) {
    v.Some? && (v.value.JsonObj? || v.value.s != "")
  }

  /** A value in a template literal: `${name}`. */
  function Template(v: Option<Json>): string {
    match v
    case None => "undefined"
    case Some(JsonStr(s)) => s
    case Some(JsonObj(_)) => "[object Object]"
  }

  /** `.map(elem => [prefix, elem].join('/'))` */
  function Prefixed(prefix: string, subs: seq<string>): (r: seq<string>)
    ensures |r| == |subs|
    ensures forall i :: 0 <= i < |subs| ==> r[i] == prefix + "/" + subs[i]
  {
    seq(|subs|, i requires 0 <= i < |subs| => prefix + "/" + subs[i])
  }

  /**
    `getAllPaths(prefix, paths)` as written: `Object.entries` of `undefined`
    throws, of the empty string is empty, and of any other string never
    finishes (each character is a one-character string, whose only entry is
    itself again); an object's entries go through `getSubPaths` and every
    result is put under `prefix`.
   */
  function AllPaths(prefix: string, v: Option<Json>): (r: Run<seq<string>>)
    ensures v.None? ==> r.Failed?
    ensures v.Some? && v.value.JsonStr? ==> (r == if v.value.s == "" then Done([]) else Diverges)
    ensures r.Done? ==> forall i :: 0 <= i < |r.value| ==> StartsWith(r.value[i], prefix + "/")
    decreases SizeOf(v), 0
  {
    match v
    case None => Failed("TypeError: Cannot convert undefined or null to object")
    case Some(JsonStr(s)) => if s == "" then Done([]) else Diverges
    case Some(JsonObj(props)) =>
      match SubPaths(props)
      case Done(subs) => Done(Prefixed(prefix, subs))
      case Failed(e) => Failed(e)
      case Diverges => Diverges
  }

  /** The `reduce(getSubPaths, [])` over an object's entries, left to right. */
  function SubPaths(props: seq<Prop<Json>>): (r: Run<seq<string>>)
    ensures props == [] ==> r == Done([])
    ensures r.Done? ==> forall i :: 0 <= i < |props| && props[i].value == JsonStr("end") ==> "" in r.value
    decreases PropsSize(props), 2
  {
    if props == [] then Done([])
    else
      match EntryPaths(props[0].key, props[0].value)
      case Done(head) =>
        (match SubPaths(props[1..])
         case Done(tail) => Done(head + tail)
         case Failed(e) => Failed(e)
         case Diverges => Diverges)
      case Failed(e) => Failed(e)
      case Diverges => Diverges
  }

  /**
    `getSubPaths` for one entry: `'end'` lists the empty path; a value whose
    own `global` is truthy lists only the paths under `key/:name`, reading
    `name` and `parts` from that `global`; any other value is listed under
    `key`.
   */
  function EntryPaths(key: string, value: Json): (r: Run<seq<string>>)
    ensures value == JsonStr("end") ==> r == Done([""])
    ensures value != JsonStr("end") && !Truthy(Field(value, "global")) ==> r == AllPaths(key, Some(value))
    decreases Size(value), 1
  {
    if value == JsonStr("end") then Done([""])
    else if Truthy(Field(value, "global")) then
      var g := Field(value, "global").value;
      AllPaths(key + "/:" + Template(Field(g, "name")), Field(g, "parts"))
    else AllPaths(key, Some(value))
  }

  /**
    Under a truthy `global`, the literal keys next to it do not matter: two
    objects with the same `global` list the same paths.
   */
  lemma GlobalHidesSiblings(key: string, a: seq<Prop<Json>>, b: seq<Prop<Json>>)
    requires Truthy(ValueOf(a, "global")) && ValueOf(a, "global") == ValueOf(b, "global")
    ensures EntryPaths(key, JsonObj(a)) == EntryPaths(key, JsonObj(b))
  {
    assert Field(JsonObj(a), "global") == Field(JsonObj(b), "global");
  }

  /**
    Under a truthy `global` whose `parts` is an object, the paths listed are
    `key/:name` followed by each path the parts list.
   */
  lemma GlobalListing(key: string, a: seq<Prop<Json>>, g: seq<Prop<Json>>, parts: seq<Prop<Json>>)
    requires ValueOf(a, "global") == Some(JsonObj(g)) && ValueOf(g, "parts") == Some(JsonObj(parts))
    ensures var prefix := key + "/:" + Template(ValueOf(g, "name"));
      match SubPaths(parts)
      case Done(subs) => EntryPaths(key, JsonObj(a)) == Done(Prefixed(prefix, subs))
      case Failed(e) => EntryPaths(key, JsonObj(a)) == Failed(e)
      case Diverges => EntryPaths(key, JsonObj(a)) == Diverges
  {
    assert Field(JsonObj(a), "global") == Some(JsonObj(g));
    assert Field(JsonObj(g), "parts") == Some(JsonObj(parts));
  }

  /**
    The listing the export evidently intends: a node's `global` entry lists
    the paths under `:name` next to those of its literal keys, and a string
    other than `'end'` lists nothing.
   */
  function FixedPaths(prefix: string, v: Option<Json>): (r: seq<string>)
    ensures forall i :: 0 <= i < |r| ==> StartsWith(r[i], prefix + "/")
    ensures v.Some? && v.value.JsonObj? ==> r == Prefixed(prefix, FixedSub(v.value.props))
    decreases SizeOf(v), 0
  {
    match v
    case Some(JsonObj(props)) => Prefixed(prefix, FixedSub(props))
    case _ => []
  }

  function FixedSub(props: seq<Prop<Json>>): seq<string>
    decreases PropsSize(props), 2
  {
    if props == [] then [] else FixedEntry(props[0].key, props[0].value) + FixedSub(props[1..])
  }

  function FixedEntry(key: string, value: Json): seq<string>
    decreases Size(value), 1
  {
    if value == JsonStr("end") then [""]
    else if key == "global" && value.JsonObj? then
      FixedPaths(":" + Template(Field(value, "name")), Field(value, "parts"))
    else FixedPaths(key, Some(value))
  }

  lemma {:induction false} FixedSubAppend(a: seq<Prop<Json>>, b: seq<Prop<Json>>)
    ensures FixedSub(a + b) == FixedSub(a) + FixedSub(b)
    decreases |a|
  {
    if a == [] {
      assert a + b == b;
    } else {
      assert (a + b)[0] == a[0];
      assert (a + b)[1..] == a[1..] + b;
      FixedSubAppend(a[1..], b);
    }
  }

  /** JSON in which no key is `global` and every string is `'end'` under some key. */
  predicate Plain(j: Json)
    decreases j
  {
    j.JsonObj? && forall i :: 0 <= i < |j.props| ==>
      (j.props[i].key != "global" && (j.props[i].value == JsonStr("end") || Plain(j.props[i].value)))
  }

  /**
    On a trie without parameters the listing as written and the corrected one
    agree: the correction only changes what happens at `global`.
   */
  lemma {:induction false} PlainAgrees(prefix: string, j: Json)
    requires Plain(j)
    ensures AllPaths(prefix, Some(j)) == Done(FixedPaths(prefix, Some(j)))
    decreases Size(j), 0
  {
    PlainSubAgrees(j.props);
  }

  lemma {:induction false} PlainSubAgrees(props: seq<Prop<Json>>)
    requires Plain(JsonObj(props))
    ensures SubPaths(props) == Done(FixedSub(props))
    decreases PropsSize(props), 1
  {
    if props != [] {
      var k, v := props[0].key, props[0].value;
      assert Plain(JsonObj(props[1..])) by {
        forall i | 0 <= i < |props[1..]|
          ensures props[1..][i].key != "global" && (props[1..][i].value == JsonStr("end") || Plain(props[1..][i].value))
        {
          assert props[1..][i] == props[i + 1];
        }
      }
      PlainSubAgrees(props[1..]);
      if v != JsonStr("end") {
        assert Plain(v);
        assert !Truthy(Field(v, "global")) by {
          Objects.KeysAt(v.props);
        }
        PlainAgrees(k, v);
      }
    }
  }

  /** The paths a corrected listing finds below a trie node. */
  function NodePaths(t: Trie): seq<string> {
    if t.Node? then FixedSub(SlotsJson(t.slots)) else []
  }

  /** Every segment but the last is on a node (not a handler) once it is reached. */
  predicate Open(t: Trie, segments: seq<string>)
    decreases |segments|
  {
    segments == [] ||
    (t.Node? &&
      Open(if IsParam(segments[0]) then PartsOrEmpty(t.slots) else ChildOrEmpty(t.slots, segments[0]), segments[1..]))
  }

  /** A route the export can spell: it ends with `/`, and no inner segment is empty or `global`. */
  predicate Spellable(segments: seq<string>) {
    segments != [] && segments[|segments| - 1] == "" &&
    forall i :: 0 <= i < |segments| - 1 ==> segments[i] != "" && segments[i] != "global"
  }

  /** The listing of a slot list includes that of each of its slots. */
  lemma {:induction false} SlotListed(slots: seq<Slot>, i: nat, x: string)
    requires i < |slots| && x in FixedSub(SlotJson(slots[i]))
    ensures x in FixedSub(SlotsJson(slots))
    decreases |slots|
  {
    FixedSubAppend(SlotJson(slots[0]), SlotsJson(slots[1..]));
    if i > 0 {
      assert slots[1..][i - 1] == slots[i];
      SlotListed(slots[1..], i - 1, x);
    }
  }

  /** A literal child's paths are listed under its key. */
  lemma LitListed(k: string, sub: Trie, x: string)
    requires k != "" && k != "global" && sub.Node? && x in NodePaths(sub)
    ensures k + "/" + x in FixedSub(SlotJson(Lit(k, sub)))
  {
    var j := JsonObj(SlotsJson(sub.slots));
    assert SlotJson(Lit(k, sub)) == [Prop(k, j)];
    assert FixedEntry(k, j) == Prefixed(k, NodePaths(sub));
    assert [Prop(k, j)][1..] == [];
  }

  /** A parameter's paths are listed under `:name`. */
  lemma GlobListed(name: string, parts: Trie, x: string)
    requires parts.Node? && x in NodePaths(parts)
    ensures ":" + name + "/" + x in FixedSub(SlotJson(Glob(name, parts)))
  {
    var pj := JsonObj(SlotsJson(parts.slots));
    var g := GlobalJson(name, parts);
    assert TrieJson(parts) == Some(pj);
    assert g == JsonObj([Prop("name", JsonStr(name)), Prop("parts", pj)]);
    assert Field(g, "name") == Some(JsonStr(name));
    assert Field(g, "parts") == Some(pj);
    assert FixedEntry("global", g) == Prefixed(":" + name, NodePaths(parts));
    assert [Prop("global", g)][1..] == [];
  }

  /**
    The corrected listing is complete: once a route is added to a method's
    trie, the trie's JSON lists the route again, parameters under the name
    the trie now holds for them.
   */
  lemma {:induction false} FixedListsInserted(t: Trie, segments: seq<string>, handler: LHandler)
    requires Open(t, segments) && Spellable(segments)
    ensures Join(segments, '/') in NodePaths(AddHandler(t, segments, handler))
    decreases |segments|
  {
    if |segments| == 1 {
      EndInserted(t, segments, handler);
    } else {
      var rest := segments[1..];
      assert Spellable(rest) by {
        forall i | 0 <= i < |rest| - 1 ensures rest[i] != "" && rest[i] != "global" {
          assert rest[i] == segments[i + 1];
        }
      }
      if IsParam(segments[0]) {
        FixedListsInserted(PartsOrEmpty(t.slots), rest, handler);
        ParamInserted(t, segments, handler);
      } else {
        FixedListsInserted(ChildOrEmpty(t.slots, segments[0]), rest, handler);
        LiteralInserted(t, segments, handler);
      }
    }
  }

  /** The last, empty segment is listed as the empty path. */
  lemma EndInserted(t: Trie, segments: seq<string>, handler: LHandler)
    requires Open(t, segments) && Spellable(segments) && |segments| == 1
    ensures Join(segments, '/') in NodePaths(AddHandler(t, segments, handler))
  {
    var r := AddHandler(t, segments, handler);
    assert !IsParam(segments[0]);
    assert ChildOf(r.slots, "") == Some(Leaf(handler));
    var i :| 0 <= i < |r.slots| && r.slots[i] == Lit("", Leaf(handler));
    assert SlotJson(r.slots[i]) == [Prop("", JsonStr("end"))];
    assert [Prop("", JsonStr("end"))][1..] == [];
    SlotListed(r.slots, i, "");
  }

  /** A parameter segment lists the rest of the route under `:name`. */
  lemma ParamInserted(t: Trie, segments: seq<string>, handler: LHandler)
    requires Open(t, segments) && |segments| > 1 && IsParam(segments[0])
    requires Join(segments[1..], '/') in NodePaths(AddHandler(PartsOrEmpty(t.slots), segments[1..], handler))
    ensures Join(segments, '/') in NodePaths(AddHandler(t, segments, handler))
  {
    var r := AddHandler(t, segments, handler);
    var s0, rest := segments[0], segments[1..];
    assert Join(segments, '/') == s0 + "/" + Join(rest, '/');
    var parts := AddHandler(PartsOrEmpty(t.slots), rest, handler);
    assert GlobalOf(r.slots) == Some(Glob(ParamName(s0), parts));
    var i :| 0 <= i < |r.slots| && r.slots[i] == Glob(ParamName(s0), parts);
    GlobListed(ParamName(s0), parts, Join(rest, '/'));
    SlotListed(r.slots, i, ":" + ParamName(s0) + "/" + Join(rest, '/'));
  }

  /** A literal segment lists the rest of the route under its own key. */
  lemma LiteralInserted(t: Trie, segments: seq<string>, handler: LHandler)
    requires Open(t, segments) && Spellable(segments) && |segments| > 1 && !IsParam(segments[0])
    requires Join(segments[1..], '/') in NodePaths(AddHandler(ChildOrEmpty(t.slots, segments[0]), segments[1..], handler))
    ensures Join(segments, '/') in NodePaths(AddHandler(t, segments, handler))
  {
    var r := AddHandler(t, segments, handler);
    var s0, rest := segments[0], segments[1..];
    assert Join(segments, '/') == s0 + "/" + Join(rest, '/');
    var sub := AddHandler(ChildOrEmpty(t.slots, s0), rest, handler);
    assert ChildOf(r.slots, s0) == Some(sub);
    var i :| 0 <= i < |r.slots| && r.slots[i] == Lit(s0, sub);
    assert s0 != "" && s0 != "global";
    LitListed(s0, sub, Join(rest, '/'));
    SlotListed(r.slots, i, s0 + "/" + Join(rest, '/'));
  }

  /**
    A route added to a trie is listed by the corrected export of that trie,
    exactly as it was written after `addTrailingSlash`.
   */
  lemma RouteListed(t: Trie, route: string, handler: LHandler)
    requires StartsWith(route, "/")
    requires Open(t, RouteSegments(route)) && Spellable(RouteSegments(route))
    ensures route in FixedPaths("", TrieJson(AddHandler(t, RouteSegments(route), handler)))
  {
    var segments := RouteSegments(route);
    var r := AddHandler(t, segments, handler);
    FixedListsInserted(t, segments, handler);
    assert route == "" + "/" + Join(segments, '/');
    assert TrieJson(r) == Some(JsonObj(SlotsJson(r.slots)));
  }

  /** `[p, x].join('/')` for each of one or two paths. */
  lemma PrefixedSmall(p: string, x: string, y: string)
    ensures Prefixed(p, [x]) == [p + "/" + x]
    ensures Prefixed(p, [x, y]) == [p + "/" + x, p + "/" + y]
  {
  }

  /** The listings of the node `{ '': 'end' }`. */
  lemma EndListed()
    ensures SubPaths([Prop("", JsonStr("end"))]) == Done([""])
    ensures FixedSub([Prop("", JsonStr("end"))]) == [""]
    ensures SlotsJson([Lit("", Leaf(Fn(1)))]) == [Prop("", JsonStr("end"))]
    ensures SlotsJson([Lit("", Leaf(Fn(2)))]) == [Prop("", JsonStr("end"))]
  {
    var e := [Prop("", JsonStr("end"))];
    assert e[1..] == [];
    assert EntryPaths("", JsonStr("end")) == Done([""]);
    assert SubPaths(e[1..]) == Done([]);
    assert [""] + [] == [""];
    assert FixedEntry("", JsonStr("end")) == [""];
    assert [Lit("", Leaf(Fn(1)))][1..] == [];
    assert [Lit("", Leaf(Fn(2)))][1..] == [];
    assert SlotJson(Lit("", Leaf(Fn(1)))) == e;
    assert SlotJson(Lit("", Leaf(Fn(2)))) == e;
  }

  /** The listings of a one-entry or two-entry object, entry by entry. */
  lemma SmallListings(p: Prop<Json>, q: Prop<Json>)
    ensures SubPaths([p]) == EntryPaths(p.key, p.value)
    ensures FixedSub([p]) == FixedEntry(p.key, p.value)
    ensures FixedSub([p, q]) == FixedEntry(p.key, p.value) + FixedEntry(q.key, q.value)
  {
    assert [p][1..] == [];
    assert [p, q][1..] == [q];
    assert [q][1..] == [];
    match EntryPaths(p.key, p.value)
    case Done(h) => assert h + [] == h;
    case Failed(_) =>
    case Diverges =>
  }

  /** The JSON of one-slot and two-slot nodes, slot by slot. */
  lemma SmallSlots(a: Slot, b: Slot)
    ensures SlotsJson([a]) == SlotJson(a)
    ensures SlotsJson([a, b]) == SlotJson(a) + SlotJson(b)
  {
    assert [a][1..] == [];
    assert [a, b][1..] == [b];
    assert [b][1..] == [];
  }

  /** The JSON of the GET trie of `[get('/:id', f)]`. */
  function RootParamJson(): (j: Json)
    ensures TrieJson(AddHandler(Node([]), [":id", ""], Fn(1))) == Some(j)
  {
    var end := Node([Lit("", Leaf(Fn(1)))]);
    var endJson := JsonObj([Prop("", JsonStr("end"))]);
    AddEnd(Fn(1));
    EndListed();
    ParamByHead(":id");
    assert ":id"[1..] == "id";
    assert [":id", ""][1..] == [""];
    assert AddHandler(Node([]), [":id", ""], Fn(1)) == Node([Glob("id", end)]);
    assert TrieJson(end) == Some(endJson);
    var g := JsonObj([Prop("name", JsonStr("id")), Prop("parts", endJson)]);
    assert GlobalJson("id", end) == g;
    SmallSlots(Glob("id", end), Glob("id", end));
    JsonObj([Prop("global", g)])
  }

  /** The JSON `{ name: 'id', parts: { '': 'end' } }` of a parameter `:id` ending a route. */
  function IdGlobal(): Json {
    JsonObj([Prop("name", JsonStr("id")), Prop("parts", JsonObj([Prop("", JsonStr("end"))]))])
  }

  /** How the two listings read `IdGlobal` under the key `global`. */
  lemma IdGlobalListed()
    ensures SubPaths(IdGlobal().props) == Diverges
    ensures FixedEntry("global", IdGlobal()) == [":id/"]
    ensures Field(IdGlobal(), "global") == None
  {
    var endJson := JsonObj([Prop("", JsonStr("end"))]);
    var g := IdGlobal();
    EndListed();
    assert g.props[1..] == [Prop("parts", endJson)];
    assert EntryPaths("name", JsonStr("id")) == Diverges;
    assert Field(g, "name") == Some(JsonStr("id"));
    assert Field(g, "parts") == Some(endJson);
    assert ":" + "id" == ":id";
    PrefixedSmall(":id", "", "");
    assert ":id" + "/" + "" == ":id/";
  }

  /**
    A parameter as the first segment makes the listing as written run
    forever: the node's `global` entry is read as a literal key, its `name`
    string is then walked with `Object.entries`. The corrected listing gives
    the route back.
   */
  lemma RootParamDiverges()
    ensures AllPaths("", Some(RootParamJson())) == Diverges
    ensures FixedPaths("", Some(RootParamJson())) == ["/:id/"]
  {
    var g := IdGlobal();
    assert RootParamJson() == JsonObj([Prop("global", g)]);
    IdGlobalListed();
    RootParamAsWritten(g);
    RootParamFixed(g);
  }

  lemma RootParamAsWritten(g: Json)
    requires g == IdGlobal() && EntryPaths("global", g) == Diverges
    ensures AllPaths("", Some(JsonObj([Prop("global", g)]))) == Diverges
  {
    SmallListings(Prop("global", g), Prop("global", g));
  }

  lemma RootParamFixed(g: Json)
    requires g == IdGlobal() && FixedEntry("global", g) == [":id/"]
    ensures FixedPaths("", Some(JsonObj([Prop("global", g)]))) == ["/:id/"]
  {
    SmallListings(Prop("global", g), Prop("global", g));
    PrefixedSmall("", ":id/", "");
    assert "" + "/" + ":id/" == "/:id/";
  }

  /** The JSON of the node under `user` in `SiblingJson`. */
  function UserJson(): Json {
    JsonObj([Prop("test", JsonObj([Prop("", JsonStr("end"))])), Prop("global", IdGlobal())])
  }

  /** The JSON of the GET trie of `[get('/user/test', f), get('/user/:id', g)]`. */
  function SiblingJson(): Json {
    JsonObj([Prop("user", UserJson())])
  }

  /** The GET trie of `/user/test` and `/user/:id` serialises to `SiblingJson`. */
  lemma SiblingTrieJson()
    ensures TrieJson(AddHandler(AddHandler(Node([]), ["user", "test", ""], Fn(1)), ["user", ":id", ""], Fn(2)))
      == Some(SiblingJson())
  {
    var user := Node([Lit("test", Node([Lit("", Leaf(Fn(1)))])), Glob("id", Node([Lit("", Leaf(Fn(2)))]))]);
    SiblingTrie();
    UserNodeJson(user);
    SmallSlots(Lit("user", user), Lit("user", user));
  }

  /** The node under `user` serialises to `UserJson`. */
  lemma UserNodeJson(user: Trie)
    requires user == Node([Lit("test", Node([Lit("", Leaf(Fn(1)))])), Glob("id", Node([Lit("", Leaf(Fn(2)))]))])
    ensures TrieJson(user) == Some(UserJson())
  {
    var end1 := Node([Lit("", Leaf(Fn(1)))]);
    var end2 := Node([Lit("", Leaf(Fn(2)))]);
    EndListed();
    var endJson := JsonObj([Prop("", JsonStr("end"))]);
    assert TrieJson(end1) == Some(endJson) && TrieJson(end2) == Some(endJson);
    assert GlobalJson("id", end2) == IdGlobal();
    assert SlotJson(Lit("test", end1)) == [Prop("test", endJson)];
    assert SlotJson(Glob("id", end2)) == [Prop("global", IdGlobal())];
    SmallSlots(Lit("test", end1), Glob("id", end2));
    assert SlotsJson(user.slots) == [Prop("test", endJson)] + [Prop("global", IdGlobal())];
    assert [Prop("test", endJson)] + [Prop("global", IdGlobal())] == UserJson().props;
  }

  /** How the two listings read `UserJson` under the key `user`. */
  lemma UserListed()
    ensures EntryPaths("user", UserJson()) == Done(["user/:id/"])
    ensures FixedEntry("user", UserJson()) == ["user/test/", "user/:id/"]
  {
    var endJson := JsonObj([Prop("", JsonStr("end"))]);
    var user := UserJson();
    EndListed();
    IdGlobalListed();
    assert Field(user, "global") == Some(IdGlobal());
    assert Field(IdGlobal(), "name") == Some(JsonStr("id"));
    assert Field(IdGlobal(), "parts") == Some(endJson);
    assert "user" + "/:" + "id" == "user/:id";
    PrefixedSmall("user/:id", "", "");
    assert "user/:id" + "/" + "" == "user/:id/";
    PrefixedSmall("test", "", "");
    assert "test" + "/" + "" == "test/";
    assert FixedEntry("test", endJson) == ["test/"];
    SmallListings(Prop("test", endJson), Prop("global", IdGlobal()));
    assert FixedSub(user.props) == ["test/", ":id/"];
    PrefixedSmall("user", "test/", ":id/");
    assert "user" + "/" + "test/" == "user/test/";
    assert "user" + "/" + ":id/" == "user/:id/";
  }

  /**
    A parameter next to a literal segment hides the literal: the listing as
    written reads the node's `global` and skips every other key of it, so
    `/user/test/` is missing. The corrected listing keeps both.
   */
  lemma SiblingDropped()
    ensures AllPaths("", Some(SiblingJson())) == Done(["/user/:id/"])
    ensures FixedPaths("", Some(SiblingJson())) == ["/user/test/", "/user/:id/"]
  {
    UserListed();
    SmallListings(Prop("user", UserJson()), Prop("user", UserJson()));
    PrefixedSmall("", "user/:id/", "");
    PrefixedSmall("", "user/test/", "user/:id/");
    assert "" + "/" + "user/:id/" == "/user/:id/";
    assert "" + "/" + "user/test/" == "/user/test/";
  }
}
